/**
 * The pure helpers of the network package: the payload handed to the traffic
 * hooks, the reading of a hook's reply, address resolution and client IDs.
 */
module Utils {

  import opened Wrappers
  import opened Errors
  import opened Clients
  import opened Encoding

  /** A value in a hook payload or reply; Go types it as interface{}. */
  datatype Value =
    | Bytes(bytes: seq<byte>)
      /** a []byte that is nil */
    | NilBytes
    | Str(text: string)
      /** the nested {"local", "remote"} address map */
    | Endpoints(local: string, remote: string)
      /** any value of another type */
    | Opaque

  type Data = map<string, Value>

  /** The `err interface{}` argument of trafficData, by dynamic type. */
  datatype ErrorValue =
    | NilValue
      /** a *GatewayDError, possibly a nil pointer */
    | GatewayD(gatewayErr: Option<GatewayDError>)
      /** any other value implementing error, with its Error() text */
    | GoError(message: string)
    | Text(text: string)
      /** any other value, with its %v rendering */
    | OtherValue(formatted: string)

  /**
   * The payload for the traffic hooks: the inbound and the backend addresses,
   * the traffic under `fieldName`, and an "error" text chosen by the type of `err`.
   */
  function TrafficData(gconn: Conn, client: Client, fieldName: string, fieldValue: seq<byte>, err: ErrorValue): (d: Data)
  {
    var data := map[
      "client" := Endpoints(gconn.addr.local, gconn.addr.remote),
      "server" := Endpoints(client.addr.local, client.addr.remote),
      fieldName := Bytes(fieldValue),
      "error" := Str("")];
    data["error" := Str(ErrorText(err))]
  }

  /**
   * The map trafficData builds: the four keys, the traffic under its field name,
   * both endpoints, and the error's text under "error" ("" for nil and for a
   * *GatewayDError, which the type switch does not match).
   */
  lemma TrafficDataShape(gconn: Conn, client: Client, fieldName: string, fieldValue: seq<byte>, err: ErrorValue)
    ensures var d := TrafficData(gconn, client, fieldName, fieldValue, err);
            && d.Keys == {"client", "server", fieldName, "error"}
            && (fieldName != "error" ==> d[fieldName] == Bytes(fieldValue))
            && (fieldName !in {"client", "error"} ==> d["client"] == Endpoints(gconn.addr.local, gconn.addr.remote))
            && (fieldName !in {"server", "error"} ==> d["server"] == Endpoints(client.addr.local, client.addr.remote))
            && (err.NilValue? || err.GatewayD? ==> d["error"] == Str(""))
            && (err.GoError? ==> d["error"] == Str(err.message))
            && (err.Text? ==> d["error"] == Str(err.text))
            && (err.OtherValue? ==> d["error"] == Str(err.formatted))
  {
  }

  /** What extractField returns: the replacement bytes (None for nil) and the hook's error text. */
  datatype Extracted = Extracted(data: Option<seq<byte>>, errorMessage: string)

  /**
   * Reads `fieldName` and "error" out of a hook reply: the field counts only when
   * it holds a non-nil byte slice, the error only when it is a non-empty string.
   */
  function ExtractField(result: Option<Data>, fieldName: string): (r: Extracted)
    ensures result.None? ==> r == Extracted(None, "")
    ensures r.data.Some? <==> result.Some? && fieldName in result.value && result.value[fieldName].Bytes?
    ensures r.data.Some? ==> r.data.value == result.value[fieldName].bytes
    ensures r.errorMessage != "" <==>
              result.Some? && "error" in result.value && result.value["error"].Str? && result.value["error"].text != ""
    ensures r.errorMessage != "" ==> r.errorMessage == result.value["error"].text
  {
    match result
    case None => Extracted(None, "")
    case Some(m) =>
      var data := if fieldName in m && m[fieldName].Bytes? then Some(m[fieldName].bytes) else None;
      var err := if "error" in m && m["error"].Str? && m["error"].text != "" then m["error"].text else "";
      Extracted(data, err)
  }

  /**
   * The text trafficData stores under "error" for `err`: "" for nil and for a
   * *GatewayDError, which the type switch matches with an empty case.
   */
  function ErrorText(err: ErrorValue): (text: string) {
    match err
    case NilValue => ""
    case GatewayD(_) => ""
    case GoError(m) => m
    case Text(t) => t
    case OtherValue(f) => f
  }

  /**
   * A hook that hands its payload back unchanged makes extractField return the
   * traffic it was given and the payload's error text.
   */
  lemma EchoedPayload(gconn: Conn, client: Client, fieldName: string, fieldValue: seq<byte>, err: ErrorValue)
    requires fieldName !in {"client", "server", "error"}
    ensures ExtractField(Some(TrafficData(gconn, client, fieldName, fieldValue, err)), fieldName)
              == Extracted(Some(fieldValue), ErrorText(err))
  {
    TrafficDataShape(gconn, client, fieldName, fieldValue, err);
  }

  /** The socket families Resolve dispatches to. */
  datatype Family = Tcp | Udp | Unix

  const TcpNetworks: set<string> := {"tcp", "tcp4", "tcp6"}
  const UdpNetworks: set<string> := {"udp", "udp4", "udp6"}
  const UnixNetworks: set<string> := {"unix", "unixgram", "unixpacket"}

  /** The family a network name belongs to, or None for a name Resolve does not support. */
  function FamilyOf(network: string): (f: Option<Family>)
    ensures f == Some(Tcp) <==> network in TcpNetworks
    ensures f == Some(Udp) <==> network in UdpNetworks
    ensures f == Some(Unix) <==> network in UnixNetworks
    ensures f.None? <==> network !in TcpNetworks + UdpNetworks + UnixNetworks
  {
    if network in TcpNetworks then Some(Tcp)
    else if network in UdpNetworks then Some(Udp)
    else if network in UnixNetworks then Some(Unix)
    else None
  }

  /** What net.ResolveTCPAddr, ResolveUDPAddr or ResolveUnixAddr reports. */
  datatype Resolution = Resolved(address: string) | Unresolved(cause: Cause)

  /**
   * Resolves `address` with the resolver of the network's family. `resolver`
   * stands for the net package's three resolvers, selected by family.
   */
  function Resolve(network: string, address: string, resolver: (Family, string, string) -> Resolution)
    : (r: Result<string, GatewayDError>)
    ensures r == Failure(NetworkNotSupported) <==> FamilyOf(network).None?
    ensures FamilyOf(network).Some? ==>
              var res := resolver(FamilyOf(network).value, network, address);
              && (r.Success? <==> res.Resolved?)
              && (res.Resolved? ==> r.value == res.address)
              && (res.Unresolved? ==> r.error == ResolveFailed(res.cause))
  {
    match FamilyOf(network)
    case None => Failure(NetworkNotSupported)
    case Some(family) =>
      match resolver(family, network, address)
      case Resolved(a) => Success(a)
      case Unresolved(c) => Failure(ResolveFailed(c))
  }

  /** A SHA-256 digest. */
  type Digest = d: seq<byte> | |d| == 32 witness seq(32, _ => 0)

  /** The string GetID hashes: fmt.Sprintf("%s://%s%d", network, address, seed). */
  function IdSource(network: string, address: string, seed: int): (source: string) {
    network + "://" + address + Decimal(seed)
  }

  /**
   * The client ID: the lower-case hex form of the SHA-256 digest of IdSource.
   * `sha256` stands for crypto/sha256 applied to the string's bytes.
   */
  function GetID(network: string, address: string, seed: int, sha256: string -> Digest): (id: string)
    ensures |id| == 64
    ensures forall i | 0 <= i < |id| :: IsLowerHex(id[i])
    ensures HexDecode(id) == Some(sha256(IdSource(network, address, seed)))
  {
    var digest := sha256(IdSource(network, address, seed));
    HexDecodeEncode(digest);
    HexEncode(digest)
  }

  /** For one network and address, distinct seeds give distinct hash inputs. */
  lemma IdSourceSeedInjective(network: string, address: string, s1: int, s2: int)
    requires IdSource(network, address, s1) == IdSource(network, address, s2)
    ensures s1 == s2
  {
    var prefix := network + "://" + address;
    assert Decimal(s1) == IdSource(network, address, s1)[|prefix|..];
    assert Decimal(s2) == IdSource(network, address, s2)[|prefix|..];
    DecimalInjective(s1, s2);
  }

  /** The hash input does not separate address from seed: these two clients share it. */
  lemma IdSourceAmbiguous()
    ensures IdSource("tcp", "db:1", 23) == IdSource("tcp", "db:12", 3)
  {
    assert Decimal(23) == "23";
    assert Decimal(3) == "3";
  }
}
