/**
 * The shapes of the connections the proxy handles. The backend client's own
 * behaviour (dialing, Send, Receive, IsConnected, Close) is outside this model:
 * the proxy sees a client only through its identifier and addresses.
 */
module Clients {

  /** The two addresses of a socket, as LocalAddr().String() and RemoteAddr().String() give them. */
  datatype Endpoint = Endpoint(local: string, remote: string)

  /** An inbound connection; `handle` stands for its identity as a busy-pool key. */
  datatype Conn = Conn(handle: nat, addr: Endpoint)

  /** The template an elastic or reconnecting proxy builds new backend clients from. */
  datatype ClientConfig = ClientConfig(network: string, address: string)

  /** A backend client: its stable identifier, its target and its connection's addresses. */
  datatype Client = Client(id: string, network: string, address: string, addr: Endpoint)

  /** A client NewClient would build from `config`. */
  predicate BuiltFrom(c: Client, config: ClientConfig) {
    c.network == config.network && c.address == config.address
  }
}
