/**
 * The proxy session engine: binds inbound connections to backend clients
 * drawn from the available pool, relays one request/response exchange per
 * read event through the traffic hooks, and returns clients on disconnect.
 *
 * Each operation is specified by a function over the two pools (ConnectStep,
 * DisconnectStep, PassThroughStep); the methods of ProxyImpl carry it out step
 * by step on the object's fields and are proved equal to those functions.
 */
module Proxy {

  import opened Wrappers
  import opened Errors
  import opened Pools
  import opened Clients
  import opened Utils
  import opened Encoding

  /** The capacity the busy pool is created with: unbounded. */
  const EmptyPoolCapacity: nat := 0

  type ClientId = string

  datatype Mode = Mode(elastic: bool, reuseElasticClients: bool)

  /** The engine's two pools: idle clients by ID, and bound clients by inbound connection. */
  datatype PoolPair = PoolPair(available: Pool<ClientId, Client>, busy: Pool<Conn, Client>)

  /** How an operation ends: no error, a returned error, or a nil-pointer panic. */
  datatype Status = Ok | Fail(error: GatewayDError) | NilClientPanic

  /** The new pools and the outcome of Connect or Disconnect. */
  datatype Step = Step(pools: PoolPair, status: Status)

  /** True when some busy binding holds a client with this ID. */
  predicate BoundId(busy: Pool<Conn, Client>, id: ClientId) {
    exists g | g in busy.entries :: busy.entries[g].id == id
  }

  /**
   * The engine's invariant: the busy pool is unbounded, the available pool is
   * keyed by client ID and, with the bindings, stays within its capacity, and a
   * client is in at most one pool and bound to at most one inbound connection.
   */
  ghost predicate Inv(p: PoolPair) {
    && p.busy.capacity == EmptyPoolCapacity
    && (p.available.capacity > 0 ==> p.available.Size() + p.busy.Size() <= p.available.capacity)
    && (forall id | id in p.available.entries :: p.available.entries[id].id == id)
    && (forall g | g in p.busy.entries :: p.busy.entries[g].id !in p.available.entries)
    && UniqueBindings(p.busy)
  }

  /** The ID of the client bound to `g`. */
  function BoundClientId(busy: Pool<Conn, Client>, g: Conn): (id: ClientId)
    requires g in busy.entries
  {
    busy.entries[g].id
  }

  /** No client is bound to two inbound connections. */
  ghost predicate UniqueBindings(busy: Pool<Conn, Client>) {
    forall g, h | g in busy.entries && h in busy.entries && g != h ::
      BoundClientId(busy, g) != BoundClientId(busy, h)
  }

  /** IsExhausted: never in elastic mode; otherwise a bounded pool with no idle client. */
  predicate Exhausted(mode: Mode, available: Pool<ClientId, Client>) {
    if mode.elastic then false else available.Size() == 0 && available.Cap() > 0
  }

  /** The error IsHealty returns; the client's own liveness is only logged. */
  function HealthError(mode: Mode, available: Pool<ClientId, Client>): (r: Option<GatewayDError>)
    ensures r.Some? <==> !mode.elastic && available.Size() == 0 && available.Cap() > 0
    ensures r.Some? ==> r.value == PoolExhausted
  {
    if Exhausted(mode, available) then Some(PoolExhausted) else None
  }

  /** The key Connect's ForEach settles on: some key of the pool, or "" when it is empty. */
  predicate FirstVisited(available: Pool<ClientId, Client>, clientID: ClientId) {
    if available.entries == map[] then clientID == "" else clientID in available.entries
  }

  /**
   * Connect, given the key ForEach visited first. An exhausted pool refuses the
   * connection; an empty unbounded (or elastic) pool yields no client, which the
   * source then dereferences; otherwise the client moves from available to busy.
   */
  function ConnectStep(mode: Mode, p: PoolPair, gconn: Conn, clientID: ClientId): (r: Step)
    requires FirstVisited(p.available, clientID)
    ensures r.status == Fail(PoolExhausted) <==> Exhausted(mode, p.available)
    ensures mode.elastic ==> r.status != Fail(PoolExhausted)
    ensures r.status == NilClientPanic <==> !Exhausted(mode, p.available) && p.available.Size() == 0
    ensures (r.status == Fail(PoolExhausted) || r.status == NilClientPanic) ==> r.pools == p
    ensures r.status == Ok <==> p.available.Size() > 0 && p.busy.Put(gconn, p.available.entries[clientID]).Some?
    ensures r.status == Ok ==>
              && clientID in p.available.entries
              && r.pools.available == Pool(p.available.entries - {clientID}, p.available.capacity)
              && r.pools.busy == Pool(p.busy.entries[gconn := p.available.entries[clientID]], p.busy.capacity)
    ensures r.status == Ok && gconn !in p.busy.entries ==>
              && r.pools.available.Size() == p.available.Size() - 1
              && r.pools.busy.Size() == p.busy.Size() + 1
    ensures r.status == Fail(PoolCapacityExceeded) ==>
              && clientID in p.available.entries
              && r.pools == PoolPair(Pool(p.available.entries - {clientID}, p.available.capacity), p.busy)
  {
    if Exhausted(mode, p.available) then
      // the elastic branch that would build a new client here cannot be taken:
      // Exhausted is false in elastic mode
      Step(p, Fail(PoolExhausted))
    else
      var (popped, available) := p.available.Pop(clientID);
      match popped
      case None => Step(p, NilClientPanic)
      case Some(client) =>
        match p.busy.Put(gconn, client)
        case None => Step(PoolPair(available, p.busy), Fail(PoolCapacityExceeded))
        case Some(busy) => Step(PoolPair(available, busy), Ok)
  }

  /**
   * Disconnect: unbinds `gconn`; when clients are reused it returns the client to
   * the available pool under its ID (a full pool drops it, with the failure only
   * logged); an elastic proxy without reuse drops it and reports ClientNotConnected.
   */
  function DisconnectStep(mode: Mode, p: PoolPair, gconn: Conn): (r: Step)
    ensures r.status == Fail(ClientNotFound) <==> gconn !in p.busy.entries
    ensures gconn !in p.busy.entries ==> r.pools == p
    ensures gconn in p.busy.entries ==> r.pools.busy == Pool(p.busy.entries - {gconn}, p.busy.capacity)
    ensures gconn in p.busy.entries && mode.elastic && !mode.reuseElasticClients ==>
              r.status == Fail(ClientNotConnected) && r.pools.available == p.available
    ensures gconn in p.busy.entries && (!mode.elastic || mode.reuseElasticClients) ==>
              var c := p.busy.entries[gconn];
              && r.status == Ok
              && r.pools.available == if p.available.Put(c.id, c).Some? then p.available.Put(c.id, c).value else p.available
  {
    var (popped, busy) := p.busy.Pop(gconn);
    match popped
    case None => Step(p, Fail(ClientNotFound))
    case Some(client) =>
      if (mode.elastic && mode.reuseElasticClients) || !mode.elastic then
        // IsHealty's error and a failed Put are only logged
        match p.available.Put(client.id, client)
        case None => Step(PoolPair(p.available, busy), Ok)
        case Some(available) => Step(PoolPair(available, busy), Ok)
      else
        Step(PoolPair(p.available, busy), Fail(ClientNotConnected))
  }

  /** What gconn.Next(-1) returned: the buffered bytes and the read error. */
  datatype ReadResult = ReadResult(data: seq<byte>, err: Option<Cause>)

  /** What client.Receive returned, as the slice response[:received], and its error. */
  datatype ReceiveResult = ReceiveResult(data: seq<byte>, err: Option<GatewayDError>)

  datatype HookEvent = OnIngressTraffic | OnEgressTraffic

  /** What the hook pipeline's Run returned: a reply map (None for nil) and an error. */
  datatype HookReply = HookReply(result: Option<Data>, err: Option<GatewayDError>)

  /**
   * Everything one exchange takes from outside the engine: the inbound read, the
   * hook pipeline, the backend's reply, the client NewClient would build (None
   * for the nil it returns when it cannot connect), and the error AsyncWrite's
   * submission reports.
   */
  datatype Exchange = Exchange(
    read: ReadResult,
    hooks: (HookEvent, Data) -> HookReply,
    received: ReceiveResult,
    replacement: Option<Client>,
    writeError: Option<Cause>)

  /**
   * The outcome of PassThrough: the new pools, the backend client it closed, the
   * bytes it sent to the backend and handed to AsyncWrite, and its return value.
   */
  datatype Relay = Relay(
    pools: PoolPair,
    closed: Option<Client>,
    sent: Option<seq<byte>>,
    written: Option<seq<byte>>,
    status: Status)

  /** The read error as trafficData receives it (an error interface value). */
  function ReadErrorValue(err: Option<Cause>): (r: ErrorValue)
    ensures r == NilValue <==> err.None?
  {
    match err
    case None => NilValue
    case Some(c) => GoError(c.Message())
  }

  /** The backend closed the connection: nothing was received and the error wraps io.EOF. */
  predicate BackendClosed(received: ReceiveResult) {
    |received.data| == 0 && received.err.Some? && received.err.value.UnwrapsToEof()
  }

  /** The traffic after a hook: its non-nil byte replacement, or the original. */
  function AfterHook(reply: HookReply, fieldName: string, original: seq<byte>): (r: seq<byte>) {
    var extracted := ExtractField(reply.result, fieldName);
    if extracted.data.Some? then extracted.data.value else original
  }

  /** The egress half of PassThrough: the response hook, then the write back. */
  function Egress(p: PoolPair, closed: Option<Client>, gconn: Conn, client: Client, request: seq<byte>, x: Exchange)
    : (r: Relay)
  {
    var egress := x.hooks(OnEgressTraffic, TrafficData(gconn, client, "response", x.received.data, GatewayD(x.received.err)));
    var response := AfterHook(egress, "response", x.received.data);
    var status := if x.writeError.Some? then Fail(ServerSendFailed(egress.err)) else Ok;
    Relay(p, closed, Some(request), Some(response), status)
  }

  /**
   * PassThrough: relays one request from `gconn` to its bound client and the
   * response back, through the ingress and egress hooks. A backend that closed
   * the connection is replaced by `x.replacement` under the same binding; when
   * NewClient returned nil, that nil is bound and trafficData then dereferences it.
   */
  function PassThroughStep(p: PoolPair, gconn: Conn, x: Exchange): (r: Relay)
    ensures r.status == Fail(ClientNotFound) <==> gconn !in p.busy.entries
    ensures gconn !in p.busy.entries ==> r == Relay(p, None, None, None, Fail(ClientNotFound))
    ensures r.pools.available == p.available
    ensures gconn in p.busy.entries ==> r.sent.Some?
    ensures r.closed.Some? <==> gconn in p.busy.entries && BackendClosed(x.received)
    ensures r.closed.Some? ==> r.closed.value == p.busy.entries[gconn]
    ensures r.closed.None? ==> r.pools == p
    ensures r.status == NilClientPanic <==>
              gconn in p.busy.entries && BackendClosed(x.received) && x.replacement.None?
  {
    match p.busy.Get(gconn)
    case None => Relay(p, None, None, None, Fail(ClientNotFound))
    case Some(client) =>
      var ingress := x.hooks(OnIngressTraffic, TrafficData(gconn, client, "request", x.read.data, ReadErrorValue(x.read.err)));
      var request := AfterHook(ingress, "request", x.read.data);
      if BackendClosed(x.received) then
        var busy := p.busy.Remove(gconn);
        match x.replacement
        case None =>
          // the nil client is stored under gconn, which a pool of clients cannot
          // hold: the binding is left removed, and the egress trafficData panics
          Relay(PoolPair(p.available, busy), Some(client), Some(request), None, NilClientPanic)
        case Some(created) =>
          (match busy.Put(gconn, created)
           case None => Relay(PoolPair(p.available, busy), Some(client), Some(request), None, Fail(PoolCapacityExceeded))
           case Some(rebound) => Egress(PoolPair(p.available, rebound), Some(client), gconn, created, request, x))
      else
        Egress(p, None, gconn, client, request, x)
  }

  /** The clients an exchange closed: the one whose backend went away, if any. */
  function Closed(c: Option<Client>): (s: set<Client>)
    ensures forall k :: k in s <==> c == Some(k)
  {
    if c.Some? then {c.value} else {}
  }

  /** NewClient gives an ID that no pooled client has. */
  predicate FreshClient(p: PoolPair, c: Client) {
    c.id !in p.available.entries && !BoundId(p.busy, c.id)
  }

  /** NewClient's result is nil, or a client with a fresh ID. */
  predicate FreshReplacement(p: PoolPair, c: Option<Client>) {
    c.Some? ==> FreshClient(p, c.value)
  }

  // ---------------------------------------------------------------------------
  // Properties of the specification

  /** In elastic mode nothing is ever exhausted, whatever the pool holds. */
  lemma ElasticNeverExhausted(mode: Mode, p: PoolPair, gconn: Conn, clientID: ClientId)
    requires mode.elastic
    requires FirstVisited(p.available, clientID)
    ensures !Exhausted(mode, p.available)
    ensures HealthError(mode, p.available).None?
    ensures ConnectStep(mode, p, gconn, clientID).status != Fail(PoolExhausted)
  {
  }

  /** Outside elastic mode, an unbounded pool is never exhausted, even when empty. */
  lemma UnboundedNeverExhausted(mode: Mode, available: Pool<ClientId, Client>)
    requires available.Cap() == 0
    ensures !Exhausted(mode, available)
  {
  }

  /**
   * A bounded pool handing out its last client: IsHealty then reports
   * ErrPoolExhausted, and Connect binds the client all the same.
   */
  lemma ConnectIgnoresHealthError(mode: Mode, p: PoolPair, gconn: Conn, c: Client)
    requires !mode.elastic && p.available.Cap() > 0 && p.busy.Cap() == 0
    requires c.id in p.available.entries && p.available.entries[c.id] == c && p.available.Size() == 1
    ensures var r := ConnectStep(mode, p, gconn, c.id);
            && r.status == Ok
            && HealthError(mode, r.pools.available) == Some(PoolExhausted)
            && gconn in r.pools.busy.entries && r.pools.busy.entries[gconn] == c
  {
    var r := ConnectStep(mode, p, gconn, c.id);
    assert r.pools.available.Size() == 0;
  }

  /** Connect keeps the invariant. */
  lemma ConnectPreservesInv(mode: Mode, p: PoolPair, gconn: Conn, clientID: ClientId)
    requires Inv(p) && FirstVisited(p.available, clientID)
    ensures Inv(ConnectStep(mode, p, gconn, clientID).pools)
  {
    var r := ConnectStep(mode, p, gconn, clientID);
    if r.status == Ok {
      var c := p.available.entries[clientID];
      var q := r.pools;
      assert c.id == clientID;
      forall g | g in q.busy.entries
        ensures q.busy.entries[g].id !in q.available.entries
      {
        if g != gconn {
          assert q.busy.entries[g] == p.busy.entries[g];
        }
      }
      forall g, h | g in q.busy.entries && h in q.busy.entries && g != h
        ensures BoundClientId(q.busy, g) != BoundClientId(q.busy, h)
      {
        if g != gconn && h != gconn {
          assert q.busy.entries[g] == p.busy.entries[g] && q.busy.entries[h] == p.busy.entries[h];
          assert BoundClientId(p.busy, g) != BoundClientId(p.busy, h);
        } else if g == gconn {
          assert q.busy.entries[h] == p.busy.entries[h];
        } else {
          assert q.busy.entries[g] == p.busy.entries[g];
        }
      }
      if p.available.capacity > 0 {
        assert q.busy.Size() <= p.busy.Size() + 1;
      }
    }
  }

  /**
   * Under the invariant, the client Disconnect returns to the available pool
   * always fits there: the logged Put failure of proxy.go:148-151 never happens.
   */
  lemma ReusedClientFits(p: PoolPair, gconn: Conn)
    requires Inv(p) && gconn in p.busy.entries
    ensures var c := p.busy.entries[gconn]; p.available.Put(c.id, c).Some?
  {
    assert gconn in p.busy.entries.Keys;
    assert p.busy.Size() >= 1;
  }

  /** Disconnect keeps the invariant. */
  lemma DisconnectPreservesInv(mode: Mode, p: PoolPair, gconn: Conn)
    requires Inv(p)
    ensures Inv(DisconnectStep(mode, p, gconn).pools)
  {
    var r := DisconnectStep(mode, p, gconn);
    if gconn in p.busy.entries {
      var c := p.busy.entries[gconn];
      var q := r.pools;
      forall g | g in q.busy.entries
        ensures q.busy.entries[g].id !in q.available.entries
      {
        assert q.busy.entries[g] == p.busy.entries[g];
        assert BoundClientId(p.busy, g) != BoundClientId(p.busy, gconn);
      }
      forall g, h | g in q.busy.entries && h in q.busy.entries && g != h
        ensures BoundClientId(q.busy, g) != BoundClientId(q.busy, h)
      {
        assert q.busy.entries[g] == p.busy.entries[g] && q.busy.entries[h] == p.busy.entries[h];
        assert BoundClientId(p.busy, g) != BoundClientId(p.busy, h);
      }
      forall id | id in q.available.entries
        ensures q.available.entries[id].id == id
      {
        if id != c.id {
          assert q.available.entries[id] == p.available.entries[id];
        }
      }
    }
  }

  /** Rebinding a connection to a fresh client keeps the invariant. */
  lemma RebindPreservesInv(p: PoolPair, gconn: Conn, c: Client)
    requires Inv(p) && gconn in p.busy.entries && FreshClient(p, c)
    ensures Inv(PoolPair(p.available, Pool(p.busy.entries[gconn := c], p.busy.capacity)))
  {
    var q := PoolPair(p.available, Pool(p.busy.entries[gconn := c], p.busy.capacity));
    assert q.busy.Size() == p.busy.Size();
    forall g | g in q.busy.entries
      ensures q.busy.entries[g].id !in q.available.entries
    {
      if g != gconn {
        assert q.busy.entries[g] == p.busy.entries[g];
      }
    }
    forall g, h | g in q.busy.entries && h in q.busy.entries && g != h
      ensures BoundClientId(q.busy, g) != BoundClientId(q.busy, h)
    {
      if g != gconn && h != gconn {
        assert q.busy.entries[g] == p.busy.entries[g] && q.busy.entries[h] == p.busy.entries[h];
        assert BoundClientId(p.busy, g) != BoundClientId(p.busy, h);
      } else if g == gconn {
        assert q.busy.entries[h] == p.busy.entries[h];
        assert !BoundId(p.busy, c.id);
      } else {
        assert q.busy.entries[g] == p.busy.entries[g];
        assert !BoundId(p.busy, c.id);
      }
    }
  }

  /** Dropping a connection's binding keeps the invariant. */
  lemma UnbindPreservesInv(p: PoolPair, gconn: Conn)
    requires Inv(p) && gconn in p.busy.entries
    ensures Inv(PoolPair(p.available, Pool(p.busy.entries - {gconn}, p.busy.capacity)))
  {
    var q := PoolPair(p.available, Pool(p.busy.entries - {gconn}, p.busy.capacity));
    assert q.busy.Size() == p.busy.Size() - 1;
    forall g, h | g in q.busy.entries && h in q.busy.entries && g != h
      ensures BoundClientId(q.busy, g) != BoundClientId(q.busy, h)
    {
      assert BoundClientId(p.busy, g) != BoundClientId(p.busy, h);
    }
  }

  /** PassThrough keeps the invariant when NewClient's client, if any, is fresh. */
  lemma PassThroughPreservesInv(p: PoolPair, gconn: Conn, x: Exchange)
    requires Inv(p) && FreshReplacement(p, x.replacement)
    ensures Inv(PassThroughStep(p, gconn, x).pools)
  {
    var r := PassThroughStep(p, gconn, x);
    if r.closed.Some? {
      BackendCloseRebinds(p, gconn, x);
      if x.replacement.Some? {
        RebindPreservesInv(p, gconn, x.replacement.value);
      } else {
        UnbindPreservesInv(p, gconn);
      }
    }
  }

  /**
   * Connect then Disconnect of a new inbound connection, with clients reused,
   * gives back exactly the pools it started from: the client returns under its
   * ID, and available plus busy size is preserved across the round trip.
   */
  lemma ConnectDisconnectRoundTrip(mode: Mode, p: PoolPair, gconn: Conn, clientID: ClientId)
    requires Inv(p) && FirstVisited(p.available, clientID)
    requires gconn !in p.busy.entries
    requires !mode.elastic || mode.reuseElasticClients
    requires p.available.Size() > 0
    ensures ConnectStep(mode, p, gconn, clientID).status == Ok
    ensures DisconnectStep(mode, ConnectStep(mode, p, gconn, clientID).pools, gconn) == Step(p, Ok)
  {
    var c := p.available.entries[clientID];
    assert c.id == clientID;
    var q := ConnectStep(mode, p, gconn, clientID).pools;
    assert q.available == p.available.Pop(clientID).1;
    assert q.busy == p.busy.Put(gconn, c).value;
    PopThenPut(p.available, clientID);
    PutThenPop(p.busy, gconn, c);
  }

  /** Disconnecting a connection that was never bound changes nothing. */
  lemma DisconnectUnbound(mode: Mode, p: PoolPair, gconn: Conn)
    requires gconn !in p.busy.entries
    ensures DisconnectStep(mode, p, gconn) == Step(p, Fail(ClientNotFound))
  {
  }

  /** An elastic proxy without reuse unbinds the client and keeps it out of the available pool. */
  lemma ElasticDisconnectDropsClient(mode: Mode, p: PoolPair, gconn: Conn)
    requires Inv(p) && mode.elastic && !mode.reuseElasticClients
    requires gconn in p.busy.entries
    ensures var r := DisconnectStep(mode, p, gconn);
            && r.status == Fail(ClientNotConnected)
            && gconn !in r.pools.busy.entries
            && p.busy.entries[gconn].id !in r.pools.available.entries
            && r.pools.available.Size() + r.pools.busy.Size() == p.available.Size() + p.busy.Size() - 1
  {
  }

  /**
   * With the backend closed, the old client is closed and the binding of `gconn`
   * now names the replacement client, the busy pool keeping its size; when
   * NewClient gave nil, the binding is gone and the exchange panics.
   */
  lemma BackendCloseRebinds(p: PoolPair, gconn: Conn, x: Exchange)
    requires p.busy.Cap() == 0
    requires gconn in p.busy.entries && BackendClosed(x.received)
    ensures var r := PassThroughStep(p, gconn, x);
            && r.closed == Some(p.busy.entries[gconn])
            && r.status != Fail(PoolCapacityExceeded)
            && r.pools.available == p.available
    ensures var r := PassThroughStep(p, gconn, x);
            x.replacement.Some? ==>
              && r.pools.busy == Pool(p.busy.entries[gconn := x.replacement.value], p.busy.capacity)
              && r.pools.busy.Size() == p.busy.Size()
    ensures var r := PassThroughStep(p, gconn, x);
            x.replacement.None? ==>
              && r.pools.busy == Pool(p.busy.entries - {gconn}, p.busy.capacity)
              && r.status == NilClientPanic
              && r.written.None?
  {
    if x.replacement.Some? {
      var busy := p.busy.Remove(gconn);
      assert busy.entries[gconn := x.replacement.value] == p.busy.entries[gconn := x.replacement.value];
    }
  }

  /**
   * A hook reply holding a byte slice replaces the traffic, and any other reply
   * (nil, no such key, a nil slice, a string) leaves it as read: the backend gets the
   * ingress hook's "request", the inbound peer the egress hook's "response".
   */
  lemma HookReplacesTraffic(p: PoolPair, gconn: Conn, x: Exchange)
    requires p.busy.Cap() == 0 && gconn in p.busy.entries
    ensures var client := p.busy.entries[gconn];
            var reply := x.hooks(OnIngressTraffic, TrafficData(gconn, client, "request", x.read.data, ReadErrorValue(x.read.err)));
            PassThroughStep(p, gconn, x).sent ==
              Some(if reply.result.Some? && "request" in reply.result.value && reply.result.value["request"].Bytes?
                   then reply.result.value["request"].bytes
                   else x.read.data)
    ensures !BackendClosed(x.received) || x.replacement.Some? ==>
            var client := if BackendClosed(x.received) then x.replacement.value else p.busy.entries[gconn];
            var reply := x.hooks(OnEgressTraffic, TrafficData(gconn, client, "response", x.received.data, GatewayD(x.received.err)));
            PassThroughStep(p, gconn, x).written ==
              Some(if reply.result.Some? && "response" in reply.result.value && reply.result.value["response"].Bytes?
                   then reply.result.value["response"].bytes
                   else x.received.data)
  {
  }

  /** A hook pipeline that replies nil leaves the traffic as read. */
  lemma SilentHooksRelayUnchanged(p: PoolPair, gconn: Conn, x: Exchange)
    requires p.busy.Cap() == 0 && gconn in p.busy.entries
    requires forall e, d :: x.hooks(e, d).result.None?
    ensures PassThroughStep(p, gconn, x).sent == Some(x.read.data)
    ensures PassThroughStep(p, gconn, x).written ==
              if BackendClosed(x.received) && x.replacement.None? then None else Some(x.received.data)
  {
  }

  /**
   * Once bound, PassThrough panics when the backend closed and NewClient gave
   * nil; otherwise it returns an error only when AsyncWrite's submission fails,
   * and that error wraps the egress hook's error rather than the write's.
   */
  lemma OnlyWriteFailureSurfaces(p: PoolPair, gconn: Conn, x: Exchange)
    requires p.busy.Cap() == 0 && gconn in p.busy.entries
    ensures BackendClosed(x.received) && x.replacement.None? ==>
              PassThroughStep(p, gconn, x).status == NilClientPanic
    ensures !BackendClosed(x.received) || x.replacement.Some? ==>
            var r := PassThroughStep(p, gconn, x);
            var client := if BackendClosed(x.received) then x.replacement.value else p.busy.entries[gconn];
            var egress := x.hooks(OnEgressTraffic, TrafficData(gconn, client, "response", x.received.data, GatewayD(x.received.err)));
            && (x.writeError.None? ==> r.status == Ok)
            && (x.writeError.Some? ==> r.status == Fail(ServerSendFailed(egress.err)))
  {
  }

  /** The ingress payload's "error" is the read error's text, or "" when the read succeeded. */
  lemma IngressPayloadShowsReadError(gconn: Conn, client: Client, read: ReadResult)
    ensures TrafficData(gconn, client, "request", read.data, ReadErrorValue(read.err))["error"] ==
              Str(if read.err.Some? then read.err.value.Message() else "")
  {
    TrafficDataShape(gconn, client, "request", read.data, ReadErrorValue(read.err));
  }

  /** The egress payload's "error" is always empty: the receive error is a *GatewayDError. */
  lemma EgressPayloadHidesReceiveError(gconn: Conn, client: Client, received: ReceiveResult)
    ensures TrafficData(gconn, client, "response", received.data, GatewayD(received.err))["error"] == Str("")
  {
    TrafficDataShape(gconn, client, "response", received.data, GatewayD(received.err));
  }

  /** The clients a pool holds under `keys`. */
  ghost function ClientsAt<K>(m: map<K, Client>, keys: set<K>): set<Client> {
    set k | k in keys && k in m :: m[k]
  }

  lemma ClientsAtAdd<K>(m: map<K, Client>, keys: set<K>, k: K)
    requires k in m
    ensures ClientsAt(m, keys + {k}) == ClientsAt(m, keys) + {m[k]}
  {
  }

  lemma ClientsAtAll<K>(m: map<K, Client>)
    ensures ClientsAt(m, m.Keys) == m.Values
  {
    forall c | c in m.Values
      ensures c in ClientsAt(m, m.Keys)
    {
      var k :| k in m && m[k] == c;
    }
  }

  /** The ForEach over the available pool in Shutdown: closes the client held under every key. */
  method CloseClients(idle: map<ClientId, Client>, closed: set<Client>) returns (r: set<Client>)
    ensures r == closed + idle.Values
  {
    r := closed;
    var todo := idle.Keys;
    while todo != {}
      invariant todo <= idle.Keys
      invariant r == closed + ClientsAt(idle, idle.Keys - todo)
      decreases todo
    {
      var k :| k in todo;
      ClientsAtAdd(idle, idle.Keys - todo, k);
      assert idle.Keys - (todo - {k}) == (idle.Keys - todo) + {k};
      r := r + {idle[k]};
      todo := todo - {k};
    }
    ClientsAtAll(idle);
  }

  /**
   * The ForEach over the busy pool in Shutdown: closes every inbound connection
   * and the client bound to it.
   */
  method CloseBindings(bound: map<Conn, Client>, closed: set<Client>, shut: set<Conn>)
    returns (closed': set<Client>, shut': set<Conn>)
    ensures closed' == closed + bound.Values
    ensures shut' == shut + bound.Keys
  {
    closed', shut' := closed, shut;
    var todo := bound.Keys;
    while todo != {}
      invariant todo <= bound.Keys
      invariant shut' == shut + (bound.Keys - todo)
      invariant closed' == closed + ClientsAt(bound, bound.Keys - todo)
      decreases todo
    {
      var g :| g in todo;
      ClientsAtAdd(bound, bound.Keys - todo, g);
      assert bound.Keys - (todo - {g}) == (bound.Keys - todo) + {g};
      shut' := shut' + {g};
      closed' := closed' + {bound[g]};
      todo := todo - {g};
    }
    ClientsAtAll(bound);
  }

  /**
   * The steps of PassThrough on the busy pool: look up the binding, run the
   * ingress hook, send, detect a closed backend and rebind, run the egress hook,
   * write back. The busy pool is unbounded, so its Put never fails here.
   */
  method RelayExchange(p: PoolPair, gconn: Conn, x: Exchange) returns (r: Relay)
    requires p.busy.Cap() == EmptyPoolCapacity
    ensures r == PassThroughStep(p, gconn, x)
  {
    var busy := p.busy;
    if busy.Get(gconn).None? {
      return Relay(p, None, None, None, Fail(ClientNotFound));
    }
    var client := busy.Get(gconn).value;

    var request := x.read.data;
    var ingress := x.hooks(OnIngressTraffic, TrafficData(gconn, client, "request", request, ReadErrorValue(x.read.err)));
    var modRequest := ExtractField(ingress.result, "request");
    if modRequest.data.Some? {
      request := modRequest.data.value;
    }
    var sent := Some(request);

    var response := x.received.data;
    var bindings := busy;
    var closed := None;
    if |response| == 0 && x.received.err.Some? && x.received.err.value.UnwrapsToEof() {
      closed := Some(client);
      bindings := bindings.Remove(gconn);
      if x.replacement.None? {
        // NewClient gave nil: trafficData dereferences it (utils.go:77)
        return Relay(PoolPair(p.available, bindings), closed, sent, None, NilClientPanic);
      }
      client := x.replacement.value;
      var put := bindings.Put(gconn, client);
      // the busy pool is unbounded, so the Put at proxy.go:279 cannot fail
      assert put.Some?;
      bindings := put.value;
    }

    var egress := x.hooks(OnEgressTraffic, TrafficData(gconn, client, "response", response, GatewayD(x.received.err)));
    var modResponse := ExtractField(egress.result, "response");
    if modResponse.data.Some? {
      response := modResponse.data.value;
    }
    var status := if x.writeError.Some? then Fail(ServerSendFailed(egress.err)) else Ok;
    return Relay(PoolPair(p.available, bindings), closed, sent, Some(response), status);
  }

  // ---------------------------------------------------------------------------
  // The engine

  class ProxyImpl {
    var available: Pool<ClientId, Client>
    var busy: Pool<Conn, Client>
    const elastic: bool
    const reuseElasticClients: bool
    const clientConfig: ClientConfig
    /** the backend clients Close() has been called on */
    var closedClients: set<Client>
    /** the inbound connections Close() has been called on */
    var closedConns: set<Conn>

    function Flags(): (mode: Mode)
    {
      Mode(elastic, reuseElasticClients)
    }

    ghost predicate Valid()
      reads this
    {
      Inv(PoolPair(available, busy))
    }

    /** NewProxy: takes the populated pool as the available pool and starts with no bindings. */
    constructor (p: Pool<ClientId, Client>, elastic: bool, reuseElasticClients: bool, clientConfig: ClientConfig)
      requires Inv(PoolPair(p, Pool(map[], EmptyPoolCapacity)))
      ensures Valid()
      ensures available == p && busy == Pool(map[], EmptyPoolCapacity)
      ensures this.elastic == elastic && this.reuseElasticClients == reuseElasticClients
      ensures this.clientConfig == clientConfig
      ensures closedClients == {} && closedConns == {}
    {
      available := p;
      busy := Pool(map[], EmptyPoolCapacity);
      this.elastic := elastic;
      this.reuseElasticClients := reuseElasticClients;
      this.clientConfig := clientConfig;
      closedClients := {};
      closedConns := {};
    }

    /** IsExhausted: false in elastic mode; otherwise no idle client in a bounded pool. */
    predicate IsExhausted()
      reads this
      ensures elastic ==> !IsExhausted()
      ensures !elastic ==> (IsExhausted() <==> available.Size() == 0 && available.Cap() > 0)
    {
      Exhausted(Flags(), available)
    }

    /** IsHealty: hands the client back, with ErrPoolExhausted when the pool is exhausted. */
    method IsHealty(client: Client) returns (c: Client, err: Option<GatewayDError>)
      ensures c == client
      ensures err.Some? <==> IsExhausted()
      ensures err.Some? ==> err.value == PoolExhausted
    {
      if IsExhausted() {
        return client, Some(PoolExhausted);
      }
      // whether the client is still connected is only logged
      return client, None;
    }

    /** Connect: binds `gconn` to an idle client, as ConnectStep says for the key ForEach met first. */
    method Connect(gconn: Conn) returns (status: Status)
      requires Valid()
      modifies this
      ensures Valid()
      ensures closedClients == old(closedClients) && closedConns == old(closedConns)
      ensures exists clientID | FirstVisited(old(available), clientID) ::
                ConnectStep(Flags(), PoolPair(old(available), old(busy)), gconn, clientID) == Step(PoolPair(available, busy), status)
    {
      ghost var before := PoolPair(available, busy);
      var clientID: ClientId := "";
      if available.entries != map[] {
        clientID :| clientID in available.entries;
      }
      assert FirstVisited(before.available, clientID);
      ConnectPreservesInv(Flags(), before, gconn, clientID);
      ghost var step := ConnectStep(Flags(), before, gconn, clientID);
      if IsExhausted() {
        assert step == Step(before, Fail(PoolExhausted));
        return Fail(PoolExhausted);
      }
      var popped, rest := available.Pop(clientID).0, available.Pop(clientID).1;
      if popped.None? {
        assert step == Step(before, NilClientPanic);
        return NilClientPanic;
      }
      available := rest;
      var client, healthErr := IsHealty(popped.value);
      // healthErr is only logged
      var put := busy.Put(gconn, client);
      // the busy pool is unbounded, so the Put at proxy.go:107 cannot fail
      assert put.Some?;
      busy := put.value;
      assert step == Step(PoolPair(available, busy), Ok);
      return Ok;
    }

    /** Disconnect: unbinds `gconn` and recycles or drops its client, as DisconnectStep says. */
    method Disconnect(gconn: Conn) returns (status: Status)
      requires Valid()
      modifies this
      ensures Valid()
      ensures closedClients == old(closedClients) && closedConns == old(closedConns)
      ensures DisconnectStep(Flags(), PoolPair(old(available), old(busy)), gconn) == Step(PoolPair(available, busy), status)
    {
      ghost var step := DisconnectStep(Flags(), PoolPair(available, busy), gconn);
      DisconnectPreservesInv(Flags(), PoolPair(available, busy), gconn);
      var popped, rest := busy.Pop(gconn).0, busy.Pop(gconn).1;
      if popped.None? {
        return Fail(ClientNotFound);
      }
      busy := rest;
      var client := popped.value;
      if (elastic && reuseElasticClients) || !elastic {
        var _, healthErr := IsHealty(client);
        // healthErr is only logged
        var put := available.Put(client.id, client);
        if put.Some? {
          available := put.value;
        }
        // a failed Put is only logged
      } else {
        assert step == Step(PoolPair(available, busy), Fail(ClientNotConnected));
        return Fail(ClientNotConnected);
      }
      assert step == Step(PoolPair(available, busy), Ok);
      return Ok;
    }

    /**
     * PassThrough: one request/response exchange for `gconn`, as PassThroughStep
     * says; returns the bytes sent to the backend and handed to AsyncWrite.
     */
    method PassThrough(gconn: Conn, x: Exchange) returns (sent: Option<seq<byte>>, written: Option<seq<byte>>, status: Status)
      requires Valid()
      requires x.replacement.Some? ==> BuiltFrom(x.replacement.value, clientConfig)
      requires FreshReplacement(PoolPair(available, busy), x.replacement)
      modifies this
      ensures Valid()
      ensures var r := PassThroughStep(PoolPair(old(available), old(busy)), gconn, x);
              && PoolPair(available, busy) == r.pools && sent == r.sent && written == r.written && status == r.status
              && closedClients == old(closedClients) + Closed(r.closed)
      ensures closedConns == old(closedConns)
    {
      PassThroughPreservesInv(PoolPair(available, busy), gconn, x);
      var relay := RelayExchange(PoolPair(available, busy), gconn, x);
      busy := relay.pools.busy;
      assert PoolPair(available, busy) == relay.pools;
      closedClients := closedClients + Closed(relay.closed);
      return relay.sent, relay.written, relay.status;
    }

    /**
     * Shutdown: closes every idle client, then every bound inbound connection and
     * its client, and empties both pools.
     */
    method Shutdown()
      requires Valid()
      modifies this
      ensures Valid()
      ensures available == old(available).Clear() && busy == old(busy).Clear()
      ensures available.Size() == 0 && busy.Size() == 0
      ensures closedClients == old(closedClients) + old(available.entries.Values) + old(busy.entries.Values)
      ensures closedConns == old(closedConns) + old(busy.entries.Keys)
    {
      var closed := CloseClients(available.entries, closedClients);
      available := available.Clear();
      closed, closedConns := CloseBindings(busy.entries, closed, closedConns);
      closedClients := closed;
      busy := busy.Clear();
    }
  }
}
