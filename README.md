# gatewayd proxy engine, modelled in Dafny

This project models the session engine of the gatewayd database proxy
(`network/proxy.go`) and its helpers (`network/utils.go`). The engine holds
two connection pools:

- **available** maps a backend client's ID to the client.
- **busy** maps an inbound connection to the client bound to it.

The engine has these operations:

- **Connect** moves an idle client from available to busy.
- **PassThrough** relays one request and its response through the ingress and
  egress plugin hooks. When the backend has hung up, it rebinds the
  connection to a fresh client.
- **Disconnect** unbinds a connection. It returns the client to the available
  pool, or drops it in elastic mode without reuse.
- **IsHealty** and **IsExhausted** probe the available pool.
- **Shutdown** closes everything and empties both pools.

The helpers build and read the hook payload (`trafficData`, `extractField`),
resolve addresses (`Resolve`), and derive client IDs (`GetID`).

Layout:

- `wrappers.dfy`: `Option` and `Result`.
- `errors.dfy`: the error kinds of the gerr package, and `errors.Is(…, io.EOF)`
  on them.
- `clients.dfy`: inbound connections, backend clients and the client
  template.
- `pool.dfy`: the pool as a value, a map plus a capacity where 0 means
  unbounded. Put, Pop, Get, Remove and Clear each have a contract, and Put
  and Pop are proved to be inverses.
- `encoding.dfy`: `%d` and `hex.EncodeToString`, each with a decoder and
  round-trip lemmas.
- `utils.dfy`: `trafficData`, `extractField`, `Resolve` and `GetID`.
- `proxy.dfy`: the engine.
  - One specification function per operation: `ConnectStep`,
    `DisconnectStep` and `PassThroughStep`.
  - The engine invariant `Inv`, and lemmas that each operation preserves it.
  - Lemmas for the behaviours the source promises and for its quirks.
  - The class `ProxyImpl`, whose pool fields the methods update in place.

Each `ProxyImpl` method is proved against its specification function. The
loops of Shutdown's two `ForEach` passes are the methods `CloseClients` and
`CloseBindings`. PassThrough's steps run in `RelayExchange` on a copy of the
pools, which the method then writes back.

Behaviour reproduced as the code has it:

- **The elastic branch of Connect (proxy.go:79-90) is unreachable.** The
  comment at proxy.go:61-62 says an elastic proxy builds a new client. But
  `IsExhausted` is false in elastic mode, so that branch is never taken.
  - An elastic proxy, or an unbounded one, with an empty available pool pops
    the key `""` and gets a nil client, which it then dereferences.
  - `ConnectStep` reports this as `NilClientPanic`, with both pools unchanged.
- **Connect binds the client even when IsHealty reports
  `ErrPoolExhausted`.** This happens when a bounded pool hands out its last
  client. The error is only logged (proxy.go:102-105).
- **ServerSendFailed wraps the wrong error.** When `AsyncWrite` fails, the
  returned `ErrServerSendFailed` wraps the egress hook's error (`err`), not
  the write error (`origErr`) (proxy.go:316-318).
- **The egress payload's `"error"` is always empty.** The receive error
  passed to `trafficData` is a `*GatewayDError`, and the type switch skips
  that case, even for a nil pointer (proxy.go:288, utils.go:84-93).
- **A full available pool would drop the client on Disconnect.** The failure
  is only logged (proxy.go:148-151). Under the engine invariant it never
  happens: the client leaving the busy pool always fits back
  (`ReusedClientFits`).
- **Errors inside PassThrough are absorbed.** Read, hook, send and receive
  errors are only logged. A bound PassThrough fails only when the write
  submission fails, or panics when the backend closed and `NewClient` could
  not connect.
  - `NewClient` can return nil: its callers at startup test for it
    (cmd/run.go:127) and blame a short pool on clients that cannot connect
    (cmd/run.go:153-157). PassThrough calls it at proxy.go:269-277 without
    such a test. The nil is stored under the connection (proxy.go:279), and
    the egress `trafficData` call dereferences it (proxy.go:288,
    utils.go:77). The client package is not part of this model.
  - `PassThroughStep` reports this as `NilClientPanic`.
- **An elastic proxy without reuse leaks the client on Disconnect.** The
  client is unbound and dropped but never closed (proxy.go:152-153).
  `Disconnect` leaves `closedClients` unchanged.
- **A closed backend loses the request.** The request already sent is not
  sent again to the replacement client. The inbound peer is written an empty
  response unless the egress hook supplies one (proxy.go:258-305).
  `HookReplacesTraffic` and `SilentHooksRelayUnchanged` state this, since the
  received data is empty when the backend closed.

## Model

| member | source | states |
|---|---|---|
| Pools.Pool.Put | network/proxy.go:107-110 | fails exactly when a bounded pool is full; otherwise stores the value under the key, keeps every other entry, and grows by one unless the key was present |
| Pools.Pool.Pop | network/proxy.go:138 | returns the value under the key (None when absent) and a pool holding every other entry unchanged, one smaller when the key was present |
| Pools.Pool.Get | network/proxy.go:191-200 | returns the value under the key, or None exactly when the key is absent |
| Pools.Pool.Remove | network/proxy.go:278 | drops the key, keeps every other entry, and is a no-op for a missing key |
| Pools.Pool.Clear | network/proxy.go:355 | leaves an empty pool with the same capacity |
| Pools.PutThenPop | network/proxy.go:107 | popping a key just put returns the value put and the pool without that key, which is the original pool when the key was new |
| Pools.PopThenPut | network/proxy.go:138-148 | putting back what Pop removed restores the original pool, provided the capacity bound held |
| Encoding.NatDecimal | network/utils.go:29 | `%d` of a natural is a non-empty digit string with no leading zero |
| Encoding.ParseNatDecimal | network/utils.go:29 | reading back the digits of n gives n |
| Encoding.DecimalRoundTrip | network/utils.go:29 | reading back `%d` of any integer, including negatives, gives that integer |
| Encoding.DecimalInjective | network/utils.go:29 | distinct integers have distinct `%d` forms |
| Encoding.Decimal | network/utils.go:29 | `%d` of an integer is non-empty and starts with a minus sign exactly when the integer is negative; DecimalRoundTrip reads it back |
| Encoding.HexValue | network/utils.go:33 | a lower-case hex digit's value is below 16, and HexChar maps it back |
| Encoding.HexEncode | network/utils.go:33 | the hex form of n bytes has 2n lower-case hex digits |
| Encoding.HexDecodeEncode | network/utils.go:33 | decoding the hex form of any bytes gives those bytes |
| Encoding.HexEncodeDecode | network/utils.go:33 | a string that decodes to some bytes is exactly the hex form of those bytes |
| Encoding.HexRoundTrip | network/utils.go:33 | a string decodes to b if and only if it is the hex form of b |
| Encoding.HexDecode | network/utils.go:33 | a string that decodes has two hex digits per byte |
| Utils.TrafficDataShape | network/utils.go:64-97 | the payload has exactly the keys client, server, the field name and error; it holds the traffic under the field name and both endpoint pairs; error holds the error's text, or "" for nil and for a `*GatewayDError` |
| Utils.TrafficData | network/utils.go:64-97 | the hook payload; its contract is stated in TrafficDataShape |
| Utils.ExtractField | network/utils.go:100-112 | the field is returned exactly when the reply holds a byte slice under it; the error text exactly when "error" holds a non-empty string; a nil reply gives neither |
| Utils.EchoedPayload | network/utils.go:64-112 | extracting from an unchanged payload gives back the traffic and the error text trafficData stored |
| Utils.FamilyOf | network/utils.go:38-57 | each of the nine network names maps to its family, and any other name maps to None |
| Utils.Resolve | network/utils.go:37-61 | an unsupported network gives ErrNetworkNotSupported; a supported one gives the resolver's address, or ErrResolveFailed wrapping the resolver's error |
| Utils.GetID | network/utils.go:27-34 | the ID is 64 lower-case hex digits that decode to the SHA-256 digest of `network://address` followed by the seed |
| Utils.IdSourceSeedInjective | network/utils.go:29 | for a fixed network and address, distinct seeds give distinct hash inputs |
| Utils.IdSource | network/utils.go:29 | the hash input `network://address` followed by `%d` of the seed; IdSourceSeedInjective and IdSourceAmbiguous carry its properties |
| Utils.IdSourceAmbiguous | network/utils.go:29 | address "db:1" with seed 23 and address "db:12" with seed 3 give the same hash input |
| Proxy.HealthError | network/proxy.go:325-336 | IsHealty's error is ErrPoolExhausted exactly when the proxy is not elastic and a bounded available pool is empty, and None otherwise |
| Proxy.ConnectStep | network/proxy.go:65-133 | ErrPoolExhausted exactly when IsExhausted holds, never in elastic mode; a nil-client panic exactly when the pool is empty and not exhausted; both leave the pools unchanged; otherwise the visited client leaves the available pool and, when the busy Put succeeds (always, under the engine invariant), is bound to the connection, or else is in neither pool and the Put's PoolCapacityExceeded is returned |
| Proxy.DisconnectStep | network/proxy.go:137-178 | ErrClientNotFound, pools unchanged, exactly when the connection is unbound; otherwise the binding is removed, and the client is put back under its ID (kept out when the pool is full), or dropped with ErrClientNotConnected in elastic mode without reuse |
| Proxy.PassThroughStep | network/proxy.go:183-322 | ErrClientNotFound, nothing sent and pools unchanged, exactly when the connection is unbound; a bound connection always sends; the old client is closed exactly when the backend closed; a nil-client panic exactly when the backend closed and NewClient gave nil; the available pool never changes |
| Errors.GatewayDError.UnwrapsToEof | network/proxy.go:260 | `errors.Is(err.Unwrap(), io.EOF)`: true exactly when the wrapped chain reaches io.EOF; used by BackendClosed, whose consequences BackendCloseRebinds states |
| Proxy.BackendClosed | network/proxy.go:260 | the backend closed when nothing was received and the receive error unwraps to io.EOF (Errors.GatewayDError.UnwrapsToEof); BackendCloseRebinds states what follows |
| Proxy.ReadErrorValue | network/proxy.go:203-218 | the read error passed to trafficData is nil exactly when the read succeeded; IngressPayloadShowsReadError states what the payload then holds |
| Proxy.IngressPayloadShowsReadError | network/proxy.go:203-218 | the ingress payload's "error" is the read error's Error() text, or "" when the read succeeded |
| Proxy.ElasticNeverExhausted | network/proxy.go:339-345 | in elastic mode the pool is never exhausted, IsHealty reports no error, and Connect never fails with ErrPoolExhausted |
| Proxy.UnboundedNeverExhausted | network/proxy.go:344 | an unbounded pool is never exhausted, even when empty |
| Proxy.ConnectIgnoresHealthError | network/proxy.go:96-110 | handing out the last client of a bounded pool makes IsHealty report ErrPoolExhausted, yet Connect succeeds and binds that client |
| Proxy.ConnectPreservesInv | network/proxy.go:65-133 | Connect keeps the engine invariant |
| Proxy.DisconnectPreservesInv | network/proxy.go:137-178 | Disconnect keeps the engine invariant |
| Proxy.ReusedClientFits | network/proxy.go:142-151 | under the engine invariant the client Disconnect puts back always fits in the available pool, so the logged Put failure never happens |
| Proxy.UnbindPreservesInv | network/proxy.go:278 | removing a connection's binding keeps the engine invariant |
| Proxy.RebindPreservesInv | network/proxy.go:268-283 | rebinding a connection to a client with a fresh ID keeps the engine invariant |
| Proxy.PassThroughPreservesInv | network/proxy.go:183-322 | PassThrough keeps the engine invariant when NewClient's client is nil or has a fresh ID |
| Proxy.ConnectDisconnectRoundTrip | network/proxy.go:65-178 | with clients reused, Connect then Disconnect of a new connection succeeds and restores both pools exactly |
| Proxy.DisconnectUnbound | network/proxy.go:138-162 | disconnecting an unbound connection fails with ErrClientNotFound and changes nothing |
| Proxy.ElasticDisconnectDropsClient | network/proxy.go:142-154 | in elastic mode without reuse, Disconnect fails with ErrClientNotConnected, unbinds the client, keeps it out of the available pool, and shrinks the two pools by one in total |
| Proxy.BackendCloseRebinds | network/proxy.go:258-290 | when the backend closed, the old client is the one closed and the available pool is unchanged; the connection is rebound to the replacement client with the busy pool keeping its size, or, when NewClient gave nil, left without a binding, nothing is written and the exchange panics |
| Proxy.HookReplacesTraffic | network/proxy.go:215-302 | what is sent is the byte slice under "request" in the ingress reply when there is one, and otherwise the request as read; unless the exchange panics on a nil replacement, what is written is likewise the egress reply's "response" slice, or otherwise the response as received |
| Proxy.SilentHooksRelayUnchanged | network/proxy.go:215-302 | hooks that reply nil leave the request and the response as they were read; nothing is written when the exchange panics on a nil replacement |
| Proxy.OnlyWriteFailureSurfaces | network/proxy.go:304-321 | a bound PassThrough panics when the backend closed and NewClient gave nil; otherwise it fails only when the write submission fails, with ErrServerSendFailed wrapping the egress hook's error |
| Proxy.EgressPayloadHidesReceiveError | network/proxy.go:288 | the egress payload's "error" is always "" |
| Proxy.CloseClients | network/proxy.go:349-355 | the loop closes exactly the clients the available pool holds |
| Proxy.CloseBindings | network/proxy.go:358-367 | the loop closes exactly the bound inbound connections and their clients |
| Proxy.RelayExchange | network/proxy.go:183-322 | the step-by-step exchange yields exactly what PassThroughStep specifies |
| Proxy.ProxyImpl.constructor | network/proxy.go:44-58 | the given pool becomes the available pool, the busy pool starts empty and unbounded, and the flags and the template are kept |
| Proxy.ProxyImpl.IsExhausted | network/proxy.go:339-345 | false in elastic mode; otherwise true exactly when a bounded available pool is empty |
| Proxy.ProxyImpl.IsHealty | network/proxy.go:325-336 | returns the client it was given, with ErrPoolExhausted exactly when IsExhausted holds |
| Proxy.ProxyImpl.Connect | network/proxy.go:65-133 | the new pools and the result are ConnectStep's for a key ForEach may visit first; the invariant holds; nothing is closed |
| Proxy.ProxyImpl.Disconnect | network/proxy.go:137-178 | the new pools and the result are DisconnectStep's; the invariant holds; nothing is closed |
| Proxy.ProxyImpl.PassThrough | network/proxy.go:183-322 | the new pools, the bytes sent and written, and the result are PassThroughStep's; the client it closed is recorded; the invariant holds |
| Proxy.ProxyImpl.Shutdown | network/proxy.go:348-369 | every idle client, every bound connection and its client are closed, and both pools are emptied with their capacities kept |

## Left out

- GetRLimit (utils.go:15-24) is left out: it only queries a system limit and logs it.
- Logging is left out everywhere. Where the code only logs an error, the model shows that the error changes nothing.
- The gnet connection, the backend client and the hook pipeline are parameters, held in the `Exchange` value. This covers `Next`, `Send`, `Receive`, `AsyncWrite`, `NewClient` and `hookConfig.Run`.
  - `Send`'s byte count is only logged, so the model keeps only the bytes sent.
  - `Receive` is modelled as the received slice `response[:received]`.
  - The `AsyncWrite` callback runs later on the event loop and only logs, so it is left out.
- The client package is not part of this model: dialing, `IsConnected`, `Close`, and the buffer sizes and deadlines in the client template.
  - Closing is recorded as the sets `closedClients` and `closedConns`.
  - `IsConnected`'s result is only logged, so it is left out.
- The pool package's source is not part of this model. `Pools` follows the pool's documented contract: capacity 0 means unbounded, Put fails on a full bounded pool, and a missing key is a no-op.
- The pool's locking, and any concurrent use of the engine, are left out. Each pool operation is taken to be atomic, and each engine call runs alone.
- ErrCastFailed (proxy.go:155-159, 198-200) cannot arise: the pools are statically typed, so the type assertions always succeed.
- `ForEach`'s visiting order is not modelled. Connect is proved for whichever key it visits first, stated with `FirstVisited`.
- SHA-256 and the conversion of the hashed string to bytes are a parameter (`sha256`) of GetID.
- The resolvers of the `net` package and their address formatting are a parameter (`resolver`) of Resolve.
- Proxy.ConnectStep: on the nil-client panic the model reports both pools unchanged. Whether the panic comes from `IsConnected` or from `client.ID[:7]` after the busy Put (proxy.go:102-114) depends on the client package. In the second case the busy pool would briefly hold a nil binding.
- Proxy.ProxyImpl.PassThrough: requires NewClient's client, when not nil, to have an ID that no pooled client has, so that the invariant can be kept. The code does not check this; it relies on the uniqueness of GetID's hashes.
- Proxy.ProxyImpl.Connect: the model does not reproduce the exact client ForEach visits first; it is any key of the available pool.
- Proxy.PassThroughStep: when NewClient gives nil, the code stores that nil under the connection (proxy.go:279) and then panics in trafficData (proxy.go:288, utils.go:77). A pool of clients cannot hold nil, so the model leaves the binding removed, reports `NilClientPanic`, and does not follow the state past the panic.
- `Conn`'s identity as a map key is modelled by a handle number. The busy pool is keyed by the connection value, as in the code.
