/**
 GSUP connections, the index each gets for its SQN slice, and the routes to the
 peers behind them: gsup_server.c and gsup_router.c.
 */
module GsupServer {
  import opened Octets
  import opened Gsup
  import opened AuthCenter

  /** `id` stands for the identity of the connection. */
  datatype Conn = Conn(id: nat, ind: nat, peer: Name)

  datatype Route = Route(addr: Name, conn: nat)

  /** `made` counts the connections so far, and with them the identities; `peak` is the most that ever existed at once. */
  datatype Server = Server(clients: seq<Conn>, routes: seq<Route>, made: nat, peak: nat)

  const Empty := Server([], [], 0, 0)

  // ---- Connections ----

  predicate Sorted(clients: seq<Conn>) {
    forall i, j :: 0 <= i < j < |clients| ==> clients[i].ind < clients[j].ind
  }

  /** The length of the gapless start of the list: 0, 1, 2, ... */
  function Slot(clients: seq<Conn>, k: nat): (n: nat)
    requires k <= |clients|
    ensures k <= n <= |clients|
    ensures forall i :: k <= i < n ==> clients[i].ind == i
    ensures n < |clients| ==> clients[n].ind != n
    decreases |clients| - k
  {
    if k < |clients| && clients[k].ind == k then Slot(clients, k + 1) else k
  }

  /** osmo_gsup_server_add_conn(): the connection goes to the end of the gapless start and gets its length as index. */
  function Insert(clients: seq<Conn>, c: Conn): (r: seq<Conn>)
    ensures |r| == |clients| + 1
    ensures var k := Slot(clients, 0);
            && r[k] == c.(ind := k)
            && (forall i :: 0 <= i < k ==> r[i] == clients[i])
            && (forall i :: k < i < |r| ==> r[i] == clients[i - 1])
  {
    var k := Slot(clients, 0);
    clients[..k] + [c.(ind := k)] + clients[k..]
  }

  lemma {:induction false} AtLeastIndex(clients: seq<Conn>, i: nat)
    requires Sorted(clients) && i < |clients|
    ensures clients[i].ind >= i
  {
    if i > 0 {
      AtLeastIndex(clients, i - 1);
    }
  }

  predicate InUse(clients: seq<Conn>, ind: nat) {
    exists i :: 0 <= i < |clients| && clients[i].ind == ind
  }

  lemma {:induction false} AboveSlot(clients: seq<Conn>, i: nat)
    requires Sorted(clients) && Slot(clients, 0) <= i < |clients|
    ensures clients[i].ind > Slot(clients, 0)
  {
    var k := Slot(clients, 0);
    AtLeastIndex(clients, k);
    assert i > k ==> clients[k].ind < clients[i].ind;
  }

  /** The new index is the least that is not in use. */
  lemma {:induction false} SlotIsLeastUnused(clients: seq<Conn>)
    requires Sorted(clients)
    ensures !InUse(clients, Slot(clients, 0))
    ensures forall ind: nat :: ind < Slot(clients, 0) ==> InUse(clients, ind)
  {
    var k := Slot(clients, 0);
    forall i | 0 <= i < |clients| ensures clients[i].ind != k {
      if i >= k {
        AboveSlot(clients, i);
      }
    }
    forall ind: nat | ind < k ensures InUse(clients, ind) {
      assert clients[ind].ind == ind;
    }
  }

  /** The list stays strictly sorted, and every index in it is below its length or was there before. */
  lemma {:induction false} InsertSorted(clients: seq<Conn>, c: Conn)
    requires Sorted(clients)
    ensures Sorted(Insert(clients, c))
  {
    var r, k := Insert(clients, c), Slot(clients, 0);
    forall i, j | 0 <= i < j < |r| ensures r[i].ind < r[j].ind {
      if j > k {
        AboveSlot(clients, j - 1);
      }
    }
  }

  // ---- Routes ----

  function RouteFind(routes: seq<Route>, addr: Name): (c: Option<nat>) {
    if routes == [] then None
    else if routes[0].addr == addr then Some(routes[0].conn)
    else RouteFind(routes[1..], addr)
  }

  const EEXIST := 17

  /** gsup_route_add(): the return value and the routes. */
  function RouteAdd(routes: seq<Route>, conn: nat, addr: Name): (int, seq<Route>) {
    var found := RouteFind(routes, addr);
    if found.None? then (0, routes + [Route(addr, conn)])
    else if found.value != conn then (-EEXIST, routes)
    else (0, routes)
  }

  function RouteDelConn(routes: seq<Route>, conn: nat): seq<Route> {
    if routes == [] then []
    else if routes[0].conn == conn then RouteDelConn(routes[1..], conn)
    else [routes[0]] + RouteDelConn(routes[1..], conn)
  }

  lemma {:induction false} FindAppend(routes: seq<Route>, r: Route, addr: Name)
    ensures RouteFind(routes + [r], addr) ==
            if RouteFind(routes, addr).Some? then RouteFind(routes, addr)
            else if r.addr == addr then Some(r.conn) else None
    decreases |routes|
  {
    if routes == [] {
      assert [r][1..] == [];
    } else {
      FindAppend(routes[1..], r, addr);
      assert (routes + [r])[1..] == routes[1..] + [r];
    }
  }

  /** No address has two routes. */
  predicate OneRoute(routes: seq<Route>) {
    forall i, j :: 0 <= i < j < |routes| ==> routes[i].addr != routes[j].addr
  }

  lemma {:induction false} FindNone(routes: seq<Route>, addr: Name)
    ensures RouteFind(routes, addr).None? <==> forall i :: 0 <= i < |routes| ==> routes[i].addr != addr
    decreases |routes|
  {
    if routes != [] {
      FindNone(routes[1..], addr);
      assert forall i :: 0 < i < |routes| ==> routes[i] == routes[1..][i - 1];
    }
  }

  /** Closing a connection takes away its own routes and no others. */
  lemma {:induction false} FindDeleted(routes: seq<Route>, conn: nat, addr: Name)
    requires OneRoute(routes)
    ensures RouteFind(RouteDelConn(routes, conn), addr) ==
            if RouteFind(routes, addr) == Some(conn) then None else RouteFind(routes, addr)
    decreases |routes|
  {
    if routes != [] {
      FindDeleted(routes[1..], conn, addr);
      if routes[0].conn == conn && routes[0].addr == addr {
        FindNone(routes[1..], addr);
      }
      if routes[0].conn != conn {
        assert RouteDelConn(routes, conn)[1..] == RouteDelConn(routes[1..], conn);
      }
    }
  }

  /** A first route can be put back in front of some of the others. */
  lemma {:induction false} FirstRouteKept(routes: seq<Route>, d: seq<Route>)
    requires routes != [] && OneRoute(routes) && OneRoute(d)
    requires forall i :: 0 <= i < |d| ==> d[i] in routes[1..]
    ensures OneRoute([routes[0]] + d)
  {
    forall i | 0 <= i < |d| ensures d[i].addr != routes[0].addr {
      var k :| 0 <= k < |routes[1..]| && routes[1..][k] == d[i];
      assert routes[k + 1] == d[i];
    }
  }

  lemma {:induction false} DelMembers(routes: seq<Route>, conn: nat)
    requires OneRoute(routes)
    ensures var d := RouteDelConn(routes, conn);
            && OneRoute(d)
            && (forall i :: 0 <= i < |d| ==> d[i] in routes && d[i].conn != conn)
    decreases |routes|
  {
    if routes != [] {
      DelMembers(routes[1..], conn);
      var d := RouteDelConn(routes[1..], conn);
      FirstRouteKept(routes, d);
      assert forall i :: 0 <= i < |d| ==> d[i] in routes;
    }
  }

  // ---- Steps ----

  function IndexOf(clients: seq<Conn>, id: nat, k: nat): (i: int)
    requires k <= |clients|
    ensures -1 <= i < |clients| && (i >= 0 ==> k <= i && clients[i].id == id)
    ensures i < 0 ==> forall j :: k <= j < |clients| ==> clients[j].id != id
    decreases |clients| - k
  {
    if k == |clients| then -1 else if clients[k].id == id then k else IndexOf(clients, id, k + 1)
  }

  /** osmo_gsup_server_accept_cb() */
  function Accept(s: Server): Server {
    s.(clients := Insert(s.clients, Conn(s.made, 0, [])), made := s.made + 1,
       peak := if |s.clients| + 1 > s.peak then |s.clients| + 1 else s.peak)
  }

  /** osmo_gsup_server_ccm_cb(): the peer tells its name; that its route may exist already is ignored. */
  function Identify(s: Server, i: nat, name: Name): Server
    requires i < |s.clients|
  {
    if name == [] then s
    else s.(clients := s.clients[i := s.clients[i].(peer := name)], routes := RouteAdd(s.routes, s.clients[i].id, name).1)
  }

  /** A request and where it came from; `via` is the peer that stands between, [] if none does. */
  datatype Req = Req(source: Name, via: Name, arrivedOn: nat)

  /** The peers of a message with this source name IE, [] if it has none (osmo_gsup_req_new()). */
  function ReqOn(c: Conn, sourceIe: Name): Req {
    if sourceIe == [] || sourceIe == c.peer then Req(c.peer, [], c.id) else Req(sourceIe, c.peer, c.id)
  }

  /** osmo_gsup_conn_rx(): the request, if it is routable, and the routes. */
  function ConnRx(s: Server, c: Conn, sourceIe: Name): (Option<Req>, Server) {
    var req := ReqOn(c, sourceIe);
    if req.via == [] then (Some(req), s)
    else
      var (rc, routes) := RouteAdd(s.routes, c.id, req.source);
      if rc != 0 then (None, s) else (Some(req), s.(routes := routes))
  }

  /** gsup_server_send_req_response(): the connection on which a response goes out. */
  function ResponseConn(s: Server, req: Req, routingError: bool): Option<nat> {
    RouteFind(s.routes, if routingError && req.via != [] then req.via else req.source)
  }

  /** osmo_gsup_conn_free() */
  function Close(s: Server, i: nat): Server
    requires i < |s.clients|
  {
    s.(clients := s.clients[..i] + s.clients[i + 1..], routes := RouteDelConn(s.routes, s.clients[i].id))
  }

  datatype Event = Connect | Ccm(id: nat, name: Name) | Rx(id: nat, sourceIe: Name) | Disconnect(id: nat)

  function Step(s: Server, e: Event): Server {
    if e.Connect? then Accept(s)
    else
      var i := IndexOf(s.clients, e.id, 0);
      if i < 0 then s
      else match e
        case Connect => s
        case Ccm(_, name) => Identify(s, i, name)
        case Rx(_, sourceIe) => ConnRx(s, s.clients[i], sourceIe).1
        case Disconnect(_) => Close(s, i)
  }

  function Run(s: Server, es: seq<Event>): Server {
    if es == [] then s else Step(Run(s, es[..|es| - 1]), es[|es| - 1])
  }

  // ---- What every step keeps ----

  predicate Live(clients: seq<Conn>, id: nat) {
    exists i :: 0 <= i < |clients| && clients[i].id == id
  }

  predicate Inv(s: Server) {
    && Sorted(s.clients)
    && DistinctIds(s.clients, s.made) && IndsBelow(s.clients, s.peak)
    && OneRoute(s.routes)
    && (forall i :: 0 <= i < |s.routes| ==> Live(s.clients, s.routes[i].conn))
  }

  lemma {:induction false} AcceptLive(clients: seq<Conn>, c: Conn, id: nat)
    requires Live(clients, id)
    ensures Live(Insert(clients, c), id)
  {
    var j :| 0 <= j < |clients| && clients[j].id == id;
    var k := Slot(clients, 0);
    assert Insert(clients, c)[if j < k then j else j + 1] == clients[j];
  }

  predicate DistinctIds(clients: seq<Conn>, made: nat) {
    && (forall i, j :: 0 <= i < j < |clients| ==> clients[i].id != clients[j].id)
    && (forall i :: 0 <= i < |clients| ==> clients[i].id < made)
  }

  lemma {:induction false} AcceptIds(clients: seq<Conn>, made: nat)
    requires DistinctIds(clients, made)
    ensures DistinctIds(Insert(clients, Conn(made, 0, [])), made + 1)
  {
    var r, k := Insert(clients, Conn(made, 0, [])), Slot(clients, 0);
    forall i | 0 <= i < |r| ensures r[i].id == if i < k then clients[i].id else if i == k then made else clients[i - 1].id {
    }
  }

  predicate IndsBelow(clients: seq<Conn>, peak: nat) {
    |clients| <= peak && forall i :: 0 <= i < |clients| ==> clients[i].ind < peak
  }

  lemma {:induction false} AcceptKeeps(s: Server)
    requires Inv(s)
    ensures Inv(Accept(s))
  {
    var c := Conn(s.made, 0, []);
    InsertSorted(s.clients, c);
    AcceptIds(s.clients, s.made);
    forall i | 0 <= i < |s.routes| ensures Live(Insert(s.clients, c), s.routes[i].conn) {
      AcceptLive(s.clients, c, s.routes[i].conn);
    }
  }

  lemma {:induction false} RouteAddKeeps(routes: seq<Route>, conn: nat, addr: Name)
    requires OneRoute(routes)
    ensures var routes' := RouteAdd(routes, conn, addr).1;
            OneRoute(routes') && forall i :: 0 <= i < |routes'| ==> routes'[i] in routes || routes'[i].conn == conn
  {
    FindNone(routes, addr);
  }

  lemma {:induction false} LiveRoutesKept(s: Server, clients: seq<Conn>, routes: seq<Route>, conn: nat)
    requires forall i :: 0 <= i < |s.routes| ==> Live(s.clients, s.routes[i].conn)
    requires |clients| == |s.clients| && forall i :: 0 <= i < |clients| ==> clients[i].id == s.clients[i].id
    requires Live(clients, conn)
    requires forall i :: 0 <= i < |routes| ==> routes[i] in s.routes || routes[i].conn == conn
    ensures forall i :: 0 <= i < |routes| ==> Live(clients, routes[i].conn)
  {
    forall i | 0 <= i < |routes| ensures Live(clients, routes[i].conn) {
      if routes[i].conn != conn {
        var k :| 0 <= k < |s.routes| && s.routes[k] == routes[i];
        var j :| 0 <= j < |s.clients| && s.clients[j].id == s.routes[k].conn;
        assert clients[j].id == routes[i].conn;
      }
    }
  }

  lemma {:induction false} IdentifyKeeps(s: Server, i: nat, name: Name)
    requires Inv(s) && i < |s.clients|
    ensures Inv(Identify(s, i, name))
  {
    if name != [] {
      var s' := Identify(s, i, name);
      var id := s.clients[i].id;
      RouteAddKeeps(s.routes, id, name);
      assert s'.clients[i].id == id;
      LiveRoutesKept(s, s'.clients, s'.routes, id);
    }
  }

  lemma {:induction false} RxKeeps(s: Server, i: nat, sourceIe: Name)
    requires Inv(s) && i < |s.clients|
    ensures Inv(ConnRx(s, s.clients[i], sourceIe).1)
  {
    var s' := ConnRx(s, s.clients[i], sourceIe).1;
    RouteAddKeeps(s.routes, s.clients[i].id, ReqOn(s.clients[i], sourceIe).source);
    assert Live(s.clients, s.clients[i].id);
    LiveRoutesKept(s, s.clients, s'.routes, s.clients[i].id);
  }

  lemma {:induction false} CloseLive(clients: seq<Conn>, i: nat, id: nat)
    requires i < |clients| && Live(clients, id) && clients[i].id != id
    ensures Live(clients[..i] + clients[i + 1..], id)
  {
    var j :| 0 <= j < |clients| && clients[j].id == id;
    assert (clients[..i] + clients[i + 1..])[if j < i then j else j - 1] == clients[j];
  }

  lemma {:induction false} CloseClients(clients: seq<Conn>, i: nat, made: nat, peak: nat)
    requires i < |clients| && Sorted(clients) && DistinctIds(clients, made) && IndsBelow(clients, peak)
    ensures var r := clients[..i] + clients[i + 1..]; Sorted(r) && DistinctIds(r, made) && IndsBelow(r, peak)
  {
    var r := clients[..i] + clients[i + 1..];
    forall a, b | 0 <= a < b < |r| ensures r[a].ind < r[b].ind && r[a].id != r[b].id {
      var a', b' := if a < i then a else a + 1, if b < i then b else b + 1;
      assert r[a] == clients[a'] && r[b] == clients[b'];
    }
    forall a | 0 <= a < |r| ensures r[a].id < made && r[a].ind < peak {
      assert r[a] == clients[if a < i then a else a + 1];
    }
  }

  lemma {:induction false} CloseKeeps(s: Server, i: nat)
    requires Inv(s) && i < |s.clients|
    ensures Inv(Close(s, i))
  {
    var s' := Close(s, i);
    CloseClients(s.clients, i, s.made, s.peak);
    DelMembers(s.routes, s.clients[i].id);
    forall r | 0 <= r < |s'.routes| ensures Live(s'.clients, s'.routes[r].conn) {
      var k :| 0 <= k < |s.routes| && s.routes[k] == s'.routes[r];
      CloseLive(s.clients, i, s.routes[k].conn);
    }
  }

  lemma {:induction false} StepKeeps(s: Server, e: Event)
    requires Inv(s)
    ensures Inv(Step(s, e))
  {
    if e.Connect? {
      AcceptKeeps(s);
    } else {
      var i := IndexOf(s.clients, e.id, 0);
      if i >= 0 {
        match e {
          case Ccm(_, name) => IdentifyKeeps(s, i, name);
          case Rx(_, sourceIe) => RxKeeps(s, i, sourceIe);
          case Disconnect(_) => CloseKeeps(s, i);
        }
      }
    }
  }

  /**
   Under any sequence of connects, names, requests and disconnects the client list
   stays strictly sorted, no address has two routes, and every route leads to a
   connection that is open.
   */
  lemma {:induction false} RunKeeps(s: Server, es: seq<Event>)
    requires Inv(s)
    ensures Inv(Run(s, es))
  {
    if es != [] {
      RunKeeps(s, es[..|es| - 1]);
      StepKeeps(Run(s, es[..|es| - 1]), es[|es| - 1]);
    }
  }

  // ---- Indexes after masking ----

  /** As long as there were never more than 2^bitlen connections, all live ones get different IND values. */
  lemma {:induction false} IndsStayDistinct(es: seq<Event>, bitlen: nat, i: nat, j: nat)
    requires Run(Empty, es).peak <= Pow2(bitlen)
    requires i < j < |Run(Empty, es).clients|
    ensures var c := Run(Empty, es).clients; MaskInd(c[i].ind, bitlen) != MaskInd(c[j].ind, bitlen)
  {
    RunKeeps(Empty, es);
    var c := Run(Empty, es).clients;
    MaskSmall(c[i].ind, Pow2(bitlen));
    MaskSmall(c[j].ind, Pow2(bitlen));
  }

  lemma {:induction false} MaskSmall(x: nat, m: nat)
    requires x < m
    ensures x % m == x
  {
  }

  /**
   Then no sequence number that one live connection gets for a subscriber lies in
   the slice of another, so peers do not spoil each other's freshness.
   */
  lemma {:induction false} SlicesStayApart(es: seq<Event>, i: nat, j: nat, lib: Library,
                                           sub: Subscriber, c: Call, sqn: nat, sub': Subscriber, c': Call, sqn': nat)
    requires SqnCarriesInd(lib) && AutsIsResync(lib)
    requires Usable(sub.aud3g) && sub.aud3g.atype == Umts && sub' == sub.(aud3g := sub.aud3g.(sqn := sub'.aud3g.sqn))
    requires Run(Empty, es).peak <= Pow2(sub.aud3g.indBitlen)
    requires i < j < |Run(Empty, es).clients|
    requires c.ind == Run(Empty, es).clients[i].ind && c'.ind == Run(Empty, es).clients[j].ind
    requires Gives(lib, sub, c, sqn) && Gives(lib, sub', c', sqn')
    ensures sqn % Pow2(sub.aud3g.indBitlen) != sqn' % Pow2(sub.aud3g.indBitlen)
  {
    VectorsInSlice(lib, sub, c, sqn);
    VectorsInSlice(lib, sub', c', sqn');
    IndsStayDistinct(es, sub.aud3g.indBitlen, i, j);
  }

  /** And the bound is exact: with more connections than that, two of them share an IND value. */
  lemma {:induction false} TooManyCollide(clients: seq<Conn>, bitlen: nat) returns (i: nat, j: nat)
    requires |clients| > Pow2(bitlen)
    ensures i < j < |clients| && MaskInd(clients[i].ind, bitlen) == MaskInd(clients[j].ind, bitlen)
  {
    var m := Pow2(bitlen);
    var masks := seq(|clients|, k requires 0 <= k < |clients| => MaskInd(clients[k].ind, bitlen));
    forall k | 0 <= k < |masks| ensures masks[k] < m {
      ModBelow(clients[k].ind, m);
    }
    i, j := Pigeonhole(masks, m);
  }

  lemma {:induction false} ModBelow(x: nat, m: nat)
    requires m > 0
    ensures x % m < m
  {
  }

  lemma {:induction false} Pigeonhole(xs: seq<nat>, m: nat) returns (i: nat, j: nat)
    requires |xs| > m && forall k :: 0 <= k < |xs| ==> xs[k] < m
    ensures i < j < |xs| && xs[i] == xs[j]
    decreases m
  {
    var v, rest := xs[0], xs[1..];
    if k: nat :| k < |rest| && rest[k] == v {
      i, j := 0, k + 1;
    } else {
      var ys := Relabel(rest, m - 1, v);
      i, j := Pigeonhole(ys, m - 1);
      i, j := i + 1, j + 1;
    }
  }

  function Relabel(xs: seq<nat>, from: nat, to: nat): (ys: seq<nat>)
    ensures |ys| == |xs| && forall k :: 0 <= k < |xs| ==> ys[k] == if xs[k] == from then to else xs[k]
  {
    seq(|xs|, k requires 0 <= k < |xs| => if xs[k] == from then to else xs[k])
  }

  // ---- Where responses go ----

  /** A route keeps its connection until that connection closes. */
  lemma {:induction false} RouteStays(s: Server, e: Event, addr: Name, conn: nat)
    requires Inv(s) && RouteFind(s.routes, addr) == Some(conn) && e != Disconnect(conn)
    ensures RouteFind(Step(s, e).routes, addr) == Some(conn)
  {
    var i := if e.Connect? then -1 else IndexOf(s.clients, e.id, 0);
    if i >= 0 {
      match e {
        case Ccm(_, name) => FindAppend(s.routes, Route(name, s.clients[i].id), addr);
        case Rx(_, sourceIe) =>
          var req := ReqOn(s.clients[i], sourceIe);
          FindAppend(s.routes, Route(req.source, s.clients[i].id), addr);
        case Disconnect(_) => FindDeleted(s.routes, s.clients[i].id, addr);
      }
    }
  }

  /**
   The response to a request that was accepted from behind a proxy, unless it is a
   routing error, goes out on the connection on which the request came in, as long
   as that connection stays open.
   */
  lemma {:induction false} ProxiedResponseReturns(s: Server, i: nat, sourceIe: Name, later: seq<Event>)
    requires Inv(s) && i < |s.clients|
    requires var (req, _) := ConnRx(s, s.clients[i], sourceIe); req.Some? && req.value.via != []
    requires forall k :: 0 <= k < |later| ==> later[k] != Disconnect(s.clients[i].id)
    ensures var (req, s') := ConnRx(s, s.clients[i], sourceIe);
            ResponseConn(Run(s', later), req.value, false) == Some(req.value.arrivedOn)
    decreases |later|
  {
    var (req, s') := ConnRx(s, s.clients[i], sourceIe);
    if later == [] {
      FindAppend(s.routes, Route(req.value.source, s.clients[i].id), req.value.source);
    } else {
      var init := later[..|later| - 1];
      ProxiedResponseReturns(s, i, sourceIe, init);
      RxKeeps(s, i, sourceIe);
      RunKeeps(s', init);
      RouteStays(Run(s', init), later[|later| - 1], req.value.source, req.value.arrivedOn);
    }
  }

  /** Whether a name leads to a connection can only change by that connection's own naming or end, if it is the peer's name. */
  lemma {:induction false} OwnNameStays(s: Server, e: Event, i: nat, name: Name)
    requires Inv(s) && i < |s.clients| && s.clients[i].peer == name && name != []
    requires !(e.Ccm? && e.id == s.clients[i].id) && e != Disconnect(s.clients[i].id)
    ensures RouteFind(Step(s, e).routes, name) == Some(s.clients[i].id) <==> RouteFind(s.routes, name) == Some(s.clients[i].id)
  {
    var k := if e.Connect? then -1 else IndexOf(s.clients, e.id, 0);
    if k >= 0 {
      assert s.clients[k].id == s.clients[i].id ==> k == i;
      match e {
        case Ccm(_, other) => FindAppend(s.routes, Route(other, s.clients[k].id), name);
        case Rx(_, sourceIe) =>
          var req := ReqOn(s.clients[k], sourceIe);
          FindAppend(s.routes, Route(req.source, s.clients[k].id), name);
        case Disconnect(_) => FindDeleted(s.routes, s.clients[k].id, name);
      }
    }
  }

  predicate Named(clients: seq<Conn>, id: nat, name: Name) {
    exists i :: 0 <= i < |clients| && NamedAt(clients[i], id, name)
  }

  predicate NamedAt(c: Conn, id: nat, name: Name) {
    c.id == id && c.peer == name
  }

  /** A connection keeps its name as long as it neither names itself again nor closes. */
  lemma {:induction false} PeerStays(s: Server, e: Event, id: nat, name: Name)
    requires !(e.Ccm? && e.id == id) && e != Disconnect(id) && Named(s.clients, id, name)
    ensures Named(Step(s, e).clients, id, name)
  {
    var i :| 0 <= i < |s.clients| && NamedAt(s.clients[i], id, name);
    if e.Connect? {
      var k := Slot(s.clients, 0);
      assert Insert(s.clients, Conn(s.made, 0, []))[if i < k then i else i + 1] == s.clients[i];
    } else {
      var k := IndexOf(s.clients, e.id, 0);
      if k >= 0 && e.Disconnect? {
        assert Close(s, k).clients[if i < k then i else i - 1] == s.clients[i];
      } else if k >= 0 && e.Ccm? {
        assert Identify(s, k, e.name).clients[i] == s.clients[i];
      }
    }
  }

  /**
   A request that comes from the peer itself is answered on its own connection
   exactly when, at the time the peer told its name, that name did not already lead
   to another connection. The error of gsup_route_add() is ignored, so otherwise
   responses go to the other connection, or nowhere once that has closed.
   */
  lemma {:induction false} OwnResponseReturns(s: Server, i: nat, name: Name, later: seq<Event>)
    requires Inv(s) && i < |s.clients| && name != []
    requires forall k :: 0 <= k < |later| ==>
               later[k] != Disconnect(s.clients[i].id) && !(later[k].Ccm? && later[k].id == s.clients[i].id)
    ensures var id := s.clients[i].id;
            var s' := Run(Identify(s, i, name), later);
            && Named(s'.clients, id, name)
            && (ResponseConn(s', Req(name, [], id), false) == Some(id) <==>
                  (RouteFind(s.routes, name).None? || RouteFind(s.routes, name) == Some(id)))
    decreases |later|
  {
    var id := s.clients[i].id;
    var s0 := Identify(s, i, name);
    if later == [] {
      FindAppend(s.routes, Route(name, id), name);
      assert NamedAt(s0.clients[i], id, name);
    } else {
      var init, e := later[..|later| - 1], later[|later| - 1];
      OwnResponseReturns(s, i, name, init);
      IdentifyKeeps(s, i, name);
      RunKeeps(s0, init);
      var s1 := Run(s0, init);
      var k :| 0 <= k < |s1.clients| && NamedAt(s1.clients[k], id, name);
      OwnNameStays(s1, e, k, name);
      PeerStays(s1, e, id, name);
    }
  }

  /**
   The same for requests as they are received: a message of the peer without a source
   name, or with its own, is always accepted, changes no route, and its response goes
   back to the peer under that condition.
   */
  lemma {:induction false} DirectRequestReturns(s: Server, i: nat, name: Name, later: seq<Event>, c: Conn, sourceIe: Name)
    requires Inv(s) && i < |s.clients| && name != []
    requires forall k :: 0 <= k < |later| ==>
               later[k] != Disconnect(s.clients[i].id) && !(later[k].Ccm? && later[k].id == s.clients[i].id)
    requires NamedAt(c, s.clients[i].id, name) && (sourceIe == [] || sourceIe == name)
    ensures var id := s.clients[i].id;
            var s' := Run(Identify(s, i, name), later);
            var (req, s'') := ConnRx(s', c, sourceIe);
            && req.Some? && s'' == s' && req.value.arrivedOn == id
            && (forall routingError :: ResponseConn(s', req.value, routingError) == Some(id) <==>
                  (RouteFind(s.routes, name).None? || RouteFind(s.routes, name) == Some(id)))
  {
    OwnResponseReturns(s, i, name, later);
  }

  /**
   A message with another source name comes through a proxy. It is refused exactly when
   that name leads to another connection; otherwise the request carries both names, and
   the name leads to this connection from now on.
   */
  lemma {:induction false} ProxiedRequestAccepted(s: Server, i: nat, sourceIe: Name)
    requires i < |s.clients| && s.clients[i].peer != [] && sourceIe != [] && sourceIe != s.clients[i].peer
    ensures var c := s.clients[i];
            var (req, s') := ConnRx(s, c, sourceIe);
            var before := RouteFind(s.routes, sourceIe);
            && (req.Some? <==> before.None? || before == Some(c.id))
            && (req.Some? ==> req.value == Req(sourceIe, c.peer, c.id) && RouteFind(s'.routes, sourceIe) == Some(c.id))
            && (req.None? ==> s' == s)
  {
    FindAppend(s.routes, Route(sourceIe, s.clients[i].id), sourceIe);
  }

  lemma {:induction false} IndexIs(clients: seq<Conn>, i: nat)
    requires i < |clients| && forall j, k :: 0 <= j < k < |clients| ==> clients[j].id != clients[k].id
    ensures IndexOf(clients, clients[i].id, 0) == i
  {
  }

  /** The events are those of the connection they name. */
  lemma {:induction false} EventsReachConnection(s: Server, i: nat, name: Name)
    requires Inv(s) && i < |s.clients|
    ensures Step(s, Ccm(s.clients[i].id, name)) == Identify(s, i, name)
    ensures Step(s, Rx(s.clients[i].id, name)) == ConnRx(s, s.clients[i], name).1
    ensures Step(s, Disconnect(s.clients[i].id)) == Close(s, i)
  {
    IndexIs(s.clients, i);
  }

  /** A connection that closes is gone with its routes; the others and their routes stay. */
  lemma {:induction false} DisconnectRemoves(s: Server, i: nat, j: nat, addr: Name)
    requires Inv(s) && i < |s.clients| && j < |s.clients|
    ensures var id := s.clients[i].id;
            var s' := Step(s, Disconnect(id));
            && !Live(s'.clients, id) && (j != i ==> s.clients[j] in s'.clients)
            && RouteFind(s'.routes, addr) == if RouteFind(s.routes, addr) == Some(id) then None else RouteFind(s.routes, addr)
  {
    EventsReachConnection(s, i, []);
    var rest := Close(s, i).clients;
    forall k | 0 <= k < |rest| ensures rest[k].id != s.clients[i].id {
      assert rest[k] == s.clients[if k < i then k else k + 1];
    }
    if j != i {
      assert rest[if j < i then j else j - 1] == s.clients[j];
    }
    FindDeleted(s.routes, s.clients[i].id, addr);
  }

  /** A new connection has no name yet and gets the least index that no other has; the others stay. */
  lemma {:induction false} ConnectGetsLeastUnused(s: Server, j: nat) returns (c: Conn)
    requires Inv(s)
    ensures var s' := Step(s, Connect);
            && c in s'.clients && c.id == s.made && c.peer == [] && !Live(s.clients, c.id)
            && !InUse(s.clients, c.ind) && (forall ind: nat :: ind < c.ind ==> InUse(s.clients, ind))
            && (j < |s.clients| ==> s.clients[j] in s'.clients)
            && s'.routes == s.routes
  {
    var k := Slot(s.clients, 0);
    c := Conn(s.made, k, []);
    SlotIsLeastUnused(s.clients);
    var r := Insert(s.clients, Conn(s.made, 0, []));
    assert r[k] == c;
    if j < |s.clients| {
      assert r[if j < k then j else j + 1] == s.clients[j];
    }
  }

  /** Two peers of one name: the response to the second goes out on the connection of the first. */
  lemma {:induction false} SecondOfOneNameIsLost(name: Name)
    requires name != []
    ensures var s := Run(Empty, [Connect, Connect, Ccm(0, name), Ccm(1, name)]);
            Named(s.clients, 1, name) && ResponseConn(s, Req(name, [], 1), false) == Some(0)
  {
    var s2 := Accept(Accept(Empty));
    assert s2.clients == [Conn(0, 0, []), Conn(1, 1, [])];
    var s3 := Server([Conn(0, 0, name), Conn(1, 1, [])], [Route(name, 0)], 2, 2);
    var s4 := Server([Conn(0, 0, name), Conn(1, 1, name)], [Route(name, 0)], 2, 2);
    assert Step(s2, Ccm(0, name)) == s3;
    assert Step(s3, Ccm(1, name)) == s4;
    assert NamedAt(s4.clients[1], 1, name);
    var es := [Connect, Connect, Ccm(0, name), Ccm(1, name)];
    assert es[..3] == [Connect, Connect, Ccm(0, name)] && es[..3][..2] == [Connect, Connect];
    assert es[..3][..2][..1] == [Connect] && [Connect][..0] == [];
    assert Run(Empty, [Connect]) == Accept(Empty);
    assert Run(Empty, [Connect, Connect]) == s2;
    assert Run(Empty, es[..3]) == s3;
  }

  /**
   A routing error for a proxied request is not sent to its source but back to the
   proxy, under the same condition on the name of the proxy.
   */
  lemma {:induction false} RoutingErrorReturns(s: Server, i: nat, name: Name, later: seq<Event>, sourceIe: Name)
    requires Inv(s) && i < |s.clients| && name != [] && sourceIe != [] && sourceIe != name
    requires forall k :: 0 <= k < |later| ==>
               later[k] != Disconnect(s.clients[i].id) && !(later[k].Ccm? && later[k].id == s.clients[i].id)
    ensures var id := s.clients[i].id;
            var s' := Run(Identify(s, i, name), later);
            forall c :: NamedAt(c, id, name) ==>
              (ResponseConn(s', ReqOn(c, sourceIe), true) == Some(id) <==>
                 (RouteFind(s.routes, name).None? || RouteFind(s.routes, name) == Some(id)))
  {
    OwnResponseReturns(s, i, name, later);
  }

  // ---- The server ----

  class GsupServer {
    var clients: seq<Conn>
    var routes: seq<Route>
    var made: nat
    ghost var peak: nat

    ghost function View(): Server
      reads this
    {
      Server(clients, routes, made, peak)
    }

    constructor ()
      ensures View() == Empty && Inv(View())
    {
      clients, routes, made, peak := [], [], 0, 0;
    }

    /** osmo_gsup_server_add_conn(): the scan for a gap. */
    method AddConn(c: Conn)
      requires Sorted(clients)
      modifies this`clients
      ensures clients == Insert(old(clients), c) && Sorted(clients)
    {
      InsertSorted(clients, c);
      if |clients| == 0 || clients[0].ind > 0 {
        clients := [c.(ind := 0)] + clients;
        return;
      }
      var prev := 0;
      while prev + 1 < |clients| && clients[prev + 1].ind <= clients[prev].ind + 1
        invariant 0 <= prev < |clients|
        invariant clients[prev].ind == prev && Slot(clients, 0) == Slot(clients, prev)
      {
        prev := prev + 1;
      }
      assert Slot(clients, prev) == prev + 1;
      clients := clients[..prev + 1] + [c.(ind := clients[prev].ind + 1)] + clients[prev + 1..];
    }

    /** gsup_route_find() */
    method FindRoute(addr: Name) returns (c: Option<nat>)
      ensures c == RouteFind(routes, addr)
    {
      var i := 0;
      assert routes[0..] == routes;
      while i < |routes|
        invariant 0 <= i <= |routes|
        invariant RouteFind(routes, addr) == RouteFind(routes[i..], addr)
      {
        assert routes[i..][0] == routes[i] && routes[i..][1..] == routes[i + 1..];
        if routes[i].addr == addr {
          return Some(routes[i].conn);
        }
        i := i + 1;
      }
      c := None;
    }

    /** gsup_route_add() */
    method AddRoute(conn: nat, addr: Name) returns (rc: int)
      modifies this`routes
      ensures (rc, routes) == RouteAdd(old(routes), conn, addr)
    {
      var found := FindRoute(addr);
      if found.Some? {
        return if found.value != conn then -EEXIST else 0;
      }
      routes := routes + [Route(addr, conn)];
      rc := 0;
    }

    /** gsup_route_del_conn() */
    method DelRoutes(conn: nat)
      modifies this`routes
      ensures routes == RouteDelConn(old(routes), conn)
    {
      var kept: seq<Route> := [];
      var rest := routes;
      while rest != []
        invariant routes == old(routes)
        invariant RouteDelConn(routes, conn) == kept + RouteDelConn(rest, conn)
        decreases |rest|
      {
        if rest[0].conn != conn {
          KeepOne(kept, rest[0], RouteDelConn(rest[1..], conn));
          kept := kept + [rest[0]];
        }
        rest := rest[1..];
      }
      assert kept + [] == kept;
      routes := kept;
    }

    /** osmo_gsup_server_accept_cb() */
    method AcceptConn() returns (id: nat)
      requires Inv(View())
      modifies this
      ensures View() == Accept(old(View())) && Inv(View())
    {
      AcceptKeeps(View());
      id := made;
      peak := if |clients| + 1 > peak then |clients| + 1 else peak;
      made := made + 1;
      AddConn(Conn(id, 0, []));
    }

    /** osmo_gsup_conn_rx() */
    method RxConn(i: nat, sourceIe: Name) returns (req: Option<Req>)
      requires Inv(View()) && i < |clients|
      modifies this
      ensures req == ConnRx(old(View()), old(clients)[i], sourceIe).0
      ensures View() == ConnRx(old(View()), old(clients)[i], sourceIe).1 && Inv(View())
    {
      RxKeeps(View(), i, sourceIe);
      var r := ReqOn(clients[i], sourceIe);
      if r.via != [] {
        var rc := AddRoute(clients[i].id, r.source);
        if rc != 0 {
          return None;
        }
      }
      req := Some(r);
    }

    /** osmo_gsup_server_ccm_cb() */
    method IdentifyConn(i: nat, name: Name)
      requires Inv(View()) && i < |clients|
      modifies this
      ensures View() == Identify(old(View()), i, name) && Inv(View())
    {
      IdentifyKeeps(View(), i, name);
      if name != [] {
        clients := clients[i := clients[i].(peer := name)];
        var _ := AddRoute(clients[i].id, name);
      }
    }

    /** osmo_gsup_conn_free() */
    method FreeConn(i: nat)
      requires Inv(View()) && i < |clients|
      modifies this
      ensures View() == Close(old(View()), i) && Inv(View())
    {
      CloseKeeps(View(), i);
      DelRoutes(clients[i].id);
      clients := clients[..i] + clients[i + 1..];
    }
  }

  lemma {:induction false} KeepOne(kept: seq<Route>, r: Route, more: seq<Route>)
    ensures kept + ([r] + more) == kept + [r] + more
  {
  }
}
