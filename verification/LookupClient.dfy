/**
 The lookup client and its mDNS method: the request list and handle allocation
 of mslookup_client.c, and the second list kept by mslookup_client_mdns.c.
 */
module LookupClient {
  import opened Octets
  import opened DnsName
  import opened LookupQuery
  import opened Mdns
  import LR = LookupRequest

  /**
   `serial` stands for the identity of the allocated request and `forced` for its
   expiry at handle reuse; `log` is the history of what has happened to it.
   */
  datatype Request = Request(
    serial: nat, handle: U32, query: Query, minWait: U32, timeout: U32,
    lookup: LR.Lookup, log: seq<LR.Event>, forced: bool)

  function Happens(r: Request, e: LR.Event): Request {
    r.(lookup := LR.Step(r.lookup, e), log := r.log + [e])
  }

  datatype Entry = Entry(handle: U32, query: Query, packetId: U16)

  /** `ended` is the history of the requests that have been cleaned up. */
  datatype Client = Client(requests: seq<Request>, next: U32, mdns: seq<Entry>, packetId: U16, ended: seq<Request>)

  const Fresh := Client([], 0, [], 0, [])

  // ---- List operations ----

  function RemoveAt<T>(s: seq<T>, i: nat): (r: seq<T>)
    requires i < |s|
    ensures |r| == |s| - 1
    ensures forall j :: 0 <= j < i ==> r[j] == s[j]
    ensures forall j :: i <= j < |r| ==> r[j] == s[j + 1]
  {
    s[..i] + s[i + 1..]
  }

  /** get_request(): the index of the first request with this handle, or -1. */
  function Index(requests: seq<Request>, h: U32): (i: int)
    ensures -1 <= i < |requests|
    ensures i >= 0 ==> h != 0 && requests[i].handle == h
    ensures i < 0 && h != 0 ==> forall j :: 0 <= j < |requests| ==> requests[j].handle != h
    ensures forall j :: 0 <= j < i ==> requests[j].handle != h
  {
    if h == 0 then -1 else IndexFrom(requests, h, 0)
  }

  function IndexFrom(requests: seq<Request>, h: U32, k: nat): (i: int)
    requires k <= |requests| && h != 0
    ensures -1 <= i < |requests| && (i >= 0 ==> k <= i)
    ensures i >= 0 ==> requests[i].handle == h && forall j :: k <= j < i ==> requests[j].handle != h
    ensures i < 0 ==> forall j :: k <= j < |requests| ==> requests[j].handle != h
    decreases |requests| - k
  {
    if k == |requests| then -1 else if requests[k].handle == h then k else IndexFrom(requests, h, k + 1)
  }

  function EntryFrom(mdns: seq<Entry>, h: U32, k: nat): (i: int)
    requires k <= |mdns|
    ensures -1 <= i < |mdns| && (i >= 0 ==> k <= i)
    ensures i >= 0 ==> mdns[i].handle == h && forall j :: k <= j < i ==> mdns[j].handle != h
    ensures i < 0 ==> forall j :: k <= j < |mdns| ==> mdns[j].handle != h
    decreases |mdns| - k
  {
    if k == |mdns| then -1 else if mdns[k].handle == h then k else EntryFrom(mdns, h, k + 1)
  }

  /** mdns_method_request_cleanup(): the first entry with this handle goes away. */
  function DropEntry(mdns: seq<Entry>, h: U32): seq<Entry> {
    var i := EntryFrom(mdns, h, 0);
    if i < 0 then mdns else RemoveAt(mdns, i)
  }

  /** osmo_mslookup_id_cmp() == 0 */
  predicate SameId(a: Query, b: Query) {
    a.idType == b.idType && (a.idType.NoId? || a.id == b.id)
  }

  /** request_handle_by_query(): the first entry for the same service and id. */
  function MatchFrom(mdns: seq<Entry>, q: Query, k: nat): (i: int)
    requires k <= |mdns|
    ensures -1 <= i < |mdns| && (i >= 0 ==> k <= i)
    ensures i >= 0 ==> mdns[i].query.service == q.service && SameId(mdns[i].query, q)
    ensures forall j :: k <= j < |mdns| && (i < 0 || j < i) ==>
              !(mdns[j].query.service == q.service && SameId(mdns[j].query, q))
    decreases |mdns| - k
  {
    if k == |mdns| then -1
    else if mdns[k].query.service == q.service && SameId(mdns[k].query, q) then k
    else MatchFrom(mdns, q, k + 1)
  }

  // ---- Steps ----

  /** _osmo_mslookup_client_request_cleanup() */
  function Cleanup(c: Client, i: nat): Client
    requires i < |c.requests|
  {
    c.(requests := RemoveAt(c.requests, i),
       mdns := DropEntry(c.mdns, c.requests[i].handle),
       ended := c.ended + [c.requests[i]])
  }

  function Cancel(c: Client, h: U32): Client {
    var i := Index(c.requests, h);
    if i < 0 then c else Cleanup(c, i)
  }

  /** A request takes on a new state, and is cleaned up when that is final. */
  function Settle(c: Client, i: nat, r: Request): Client
    requires i < |c.requests|
  {
    var c' := c.(requests := c.requests[i := r]);
    if r.lookup.live then c' else Cleanup(c', i)
  }

  function RxResult(c: Client, h: U32, result: LR.Result): Client {
    var i := Index(c.requests, h);
    if i < 0 then c else Settle(c, i, Happens(c.requests[i], LR.Rx(result)))
  }

  /** The timer of the request with this handle fires. */
  function Timeout(c: Client, h: U32): Client {
    var i := Index(c.requests, h);
    if i < 0 then c else Settle(c, i, Happens(c.requests[i], LR.Timer))
  }

  /** An already existing request with the new handle is expired with whatever result it has. */
  function Expire(c: Client, h: U32): Client {
    var i := Index(c.requests, h);
    if i < 0 then c
    else Settle(c, i, c.requests[i].(lookup := LR.Send(c.requests[i].lookup, true), forced := true))
  }

  /** The counter wraps around at 32 bits. */
  function HandleAfter(h: U32): U32 {
    (h as int + 1) % 0x1_0000_0000
  }

  function NextHandle(next: U32): U32 {
    if next == 0 then 1 else next
  }

  /** osmo_mslookup_client_request(): the new state and the handle, zero for an invalid query. */
  function NewRequest(c: Client, q: Query, minWait: U32, timeout: U32): (Client, U32) {
    if |q.service| == 0 || !ValidId(q.idType, q.id) then (c, 0)
    else
      var h := NextHandle(c.next);
      (Add(Expire(c.(next := HandleAfter(h)), h), h, q, minWait, timeout), h)
  }

  function Born(serial: nat, h: U32, q: Query, minWait: U32, timeout: U32): Request {
    Request(serial, h, q, minWait, timeout, LR.Start(minWait, timeout), [], false)
  }

  /** A new request goes to the tail of the request list and to the head of the mDNS method's list. */
  function Add(c: Client, h: U32, q: Query, minWait: U32, timeout: U32): Client {
    c.(requests := c.requests + [Born(|c.requests| + |c.ended|, h, q, minWait, timeout)],
       mdns := [Entry(h, q, c.packetId)] + c.mdns,
       packetId := (c.packetId as int + 1) % 0x1_0000)
  }

  /** mdns_method_recv(): an answer goes to the first request for the same service and id. */
  function MdnsRecv(c: Client, q: Query, result: LR.Result): Client {
    var i := MatchFrom(c.mdns, q, 0);
    if i < 0 then c else RxResult(c, c.mdns[i].handle, result)
  }

  datatype Event =
    | DoRequest(q: Query, minWait: U32, timeout: U32)
    | DoRx(handle: U32, result: LR.Result)
    | DoTimeout(handle: U32)
    | DoCancel(handle: U32)
    | DoMdns(q: Query, result: LR.Result)

  function Step(c: Client, e: Event): Client {
    match e
    case DoRequest(q, minWait, timeout) => NewRequest(c, q, minWait, timeout).0
    case DoRx(h, result) => RxResult(c, h, result)
    case DoTimeout(h) => Timeout(c, h)
    case DoCancel(h) => Cancel(c, h)
    case DoMdns(q, result) => MdnsRecv(c, q, result)
  }

  function Run(c: Client, es: seq<Event>): Client {
    if es == [] then c else Step(Run(c, es[..|es| - 1]), es[|es| - 1])
  }

  // ---- What every step keeps ----

  predicate Handles(requests: seq<Request>) {
    && (forall i :: 0 <= i < |requests| ==> requests[i].handle != 0)
    && (forall i, j :: 0 <= i < j < |requests| ==> requests[i].handle != requests[j].handle)
  }

  /** The mDNS method's list is the request list in reverse. */
  predicate Mirrors(requests: seq<Request>, mdns: seq<Entry>) {
    |mdns| == |requests| &&
    forall i, k :: 0 <= i < |requests| && 0 <= k < |mdns| && i + k == |requests| - 1 ==>
      mdns[k].handle == requests[i].handle && mdns[k].query == requests[i].query
  }

  /** A request is in the state to which its own history takes a single request, and it was alive up to the last event. */
  predicate Faithful(r: Request) {
    && r.lookup == LR.Run(LR.Start(r.minWait, r.timeout), r.log)
    && (r.log != [] ==> LR.Run(LR.Start(r.minWait, r.timeout), r.log[..|r.log| - 1]).live)
  }

  predicate AllLive(requests: seq<Request>) {
    forall i :: 0 <= i < |requests| ==> requests[i].lookup.live && !requests[i].forced && Faithful(requests[i])
  }

  /** A request that was alive got its last callback at handle reuse. */
  predicate Expired(r: Request) {
    var before := LR.Run(LR.Start(r.minWait, r.timeout), r.log);
    before.live && r.lookup == LR.Send(before, true)
  }

  predicate Disciplined(r: Request) {
    if r.forced then Expired(r) else Faithful(r)
  }

  /** Every request that was ever made is in exactly one place, once. */
  predicate Serials(requests: seq<Request>, ended: seq<Request>) {
    var n := |requests| + |ended|;
    && (forall i :: 0 <= i < |requests| ==> requests[i].serial < n)
    && (forall i :: 0 <= i < |ended| ==> ended[i].serial < n)
    && (forall i, j :: 0 <= i < j < |requests| ==> requests[i].serial != requests[j].serial)
    && (forall i, j :: 0 <= i < j < |ended| ==> ended[i].serial != ended[j].serial)
    && (forall i, j :: 0 <= i < |requests| && 0 <= j < |ended| ==> requests[i].serial != ended[j].serial)
  }

  ghost predicate Inv(c: Client) {
    && Handles(c.requests) && Mirrors(c.requests, c.mdns) && AllLive(c.requests)
    && Serials(c.requests, c.ended)
    && (forall i :: 0 <= i < |c.ended| ==> Disciplined(c.ended[i]))
  }

  lemma {:induction false} IndexIs(requests: seq<Request>, i: nat)
    requires i < |requests| && Handles(requests)
    ensures Index(requests, requests[i].handle) == i
  {
  }

  lemma {:induction false} EntryIs(requests: seq<Request>, mdns: seq<Entry>, i: nat)
    requires i < |requests| && Handles(requests) && Mirrors(requests, mdns)
    ensures EntryFrom(mdns, requests[i].handle, 0) == |requests| - 1 - i
  {
    var n := |requests|;
    forall k | 0 <= k < n && k != n - 1 - i ensures mdns[k].handle != requests[i].handle {
      assert mdns[k].handle == requests[n - 1 - k].handle;
    }
    assert mdns[n - 1 - i].handle == requests[i].handle;
  }

  lemma {:induction false} CleanupMirror(requests: seq<Request>, mdns: seq<Entry>, i: nat)
    requires i < |requests| && Handles(requests) && Mirrors(requests, mdns)
    ensures Handles(RemoveAt(requests, i))
    ensures Mirrors(RemoveAt(requests, i), DropEntry(mdns, requests[i].handle))
    ensures Index(RemoveAt(requests, i), requests[i].handle) < 0
  {
    EntryIs(requests, mdns, i);
  }

  lemma {:induction false} CleanupSerials(requests: seq<Request>, ended: seq<Request>, i: nat)
    requires i < |requests| && Serials(requests, ended)
    ensures Serials(RemoveAt(requests, i), ended + [requests[i]])
  {
  }

  lemma {:induction false} CleanupKeeps(c: Client, i: nat)
    requires i < |c.requests| && Handles(c.requests) && Mirrors(c.requests, c.mdns) && Serials(c.requests, c.ended)
    requires forall j :: 0 <= j < |c.requests| && j != i ==>
               c.requests[j].lookup.live && !c.requests[j].forced && Faithful(c.requests[j])
    requires Disciplined(c.requests[i])
    requires forall j :: 0 <= j < |c.ended| ==> Disciplined(c.ended[j])
    ensures Inv(Cleanup(c, i))
    ensures Index(Cleanup(c, i).requests, c.requests[i].handle) < 0
  {
    CleanupMirror(c.requests, c.mdns, i);
    CleanupSerials(c.requests, c.ended, i);
  }

  lemma {:induction false} SettleKeeps(c: Client, i: nat, r: Request)
    requires Inv(c) && i < |c.requests|
    requires r.serial == c.requests[i].serial && r.handle == c.requests[i].handle && r.query == c.requests[i].query
    requires Disciplined(r)
    requires r.lookup.live ==> !r.forced
    ensures Inv(Settle(c, i, r))
    ensures !r.lookup.live ==> Index(Settle(c, i, r).requests, r.handle) < 0
  {
    var c' := c.(requests := c.requests[i := r]);
    assert Handles(c'.requests) && Mirrors(c'.requests, c'.mdns) && Serials(c'.requests, c'.ended);
    if !r.lookup.live {
      CleanupKeeps(c', i);
    }
  }

  lemma {:induction false} HappensFaithfully(r: Request, e: LR.Event)
    requires Faithful(r) && r.lookup.live
    ensures Faithful(Happens(r, e))
  {
    assert (r.log + [e])[..|r.log|] == r.log;
  }

  lemma {:induction false} HappensKeeps(c: Client, i: nat, e: LR.Event)
    requires Inv(c) && i < |c.requests|
    ensures Inv(Settle(c, i, Happens(c.requests[i], e)))
  {
    HappensFaithfully(c.requests[i], e);
    SettleKeeps(c, i, Happens(c.requests[i], e));
  }

  lemma {:induction false} RxKeeps(c: Client, h: U32, result: LR.Result)
    requires Inv(c)
    ensures Inv(RxResult(c, h, result))
  {
    if Index(c.requests, h) >= 0 {
      HappensKeeps(c, Index(c.requests, h), LR.Rx(result));
    }
  }

  lemma {:induction false} TimeoutKeeps(c: Client, h: U32)
    requires Inv(c)
    ensures Inv(Timeout(c, h))
  {
    if Index(c.requests, h) >= 0 {
      HappensKeeps(c, Index(c.requests, h), LR.Timer);
    }
  }

  /** After an expiry the handle is free. */
  lemma {:induction false} ExpireKeeps(c: Client, h: U32)
    requires Inv(c)
    ensures Inv(Expire(c, h)) && Index(Expire(c, h).requests, h) < 0
  {
    var i := Index(c.requests, h);
    if i >= 0 {
      var r := c.requests[i];
      SettleKeeps(c, i, r.(lookup := LR.Send(r.lookup, true), forced := true));
    }
  }

  lemma {:induction false} AddMirror(requests: seq<Request>, mdns: seq<Entry>, r: Request, e: Entry)
    requires Handles(requests) && Mirrors(requests, mdns) && Index(requests, r.handle) < 0 && r.handle != 0
    requires e.handle == r.handle && e.query == r.query
    ensures Handles(requests + [r]) && Mirrors(requests + [r], [e] + mdns)
  {
  }

  lemma {:induction false} AddSerials(requests: seq<Request>, ended: seq<Request>, r: Request)
    requires Serials(requests, ended) && r.serial == |requests| + |ended|
    ensures Serials(requests + [r], ended)
  {
  }

  lemma {:induction false} AddLive(requests: seq<Request>, r: Request)
    requires AllLive(requests) && r.lookup.live && !r.forced && Faithful(r)
    ensures AllLive(requests + [r])
  {
  }

  lemma {:induction false} BornAlive(r: Request)
    requires r == Born(r.serial, r.handle, r.query, r.minWait, r.timeout)
    ensures r.lookup.live && !r.forced && Faithful(r)
  {
  }

  lemma {:induction false} AddParts(c: Client, r: Request, e: Entry, c': Client)
    requires Inv(c) && r.handle != 0 && Index(c.requests, r.handle) < 0 && r.serial == |c.requests| + |c.ended|
    requires r.lookup.live && !r.forced && Faithful(r) && e.handle == r.handle && e.query == r.query
    requires c'.requests == c.requests + [r] && c'.mdns == [e] + c.mdns && c'.ended == c.ended
    ensures Inv(c')
  {
    AddMirror(c.requests, c.mdns, r, e);
    AddSerials(c.requests, c.ended, r);
    AddLive(c.requests, r);
  }

  lemma {:induction false} AddKeeps(c: Client, h: U32, q: Query, minWait: U32, timeout: U32)
    requires Inv(c) && h != 0 && Index(c.requests, h) < 0
    ensures Inv(Add(c, h, q, minWait, timeout))
  {
    var r := Born(|c.requests| + |c.ended|, h, q, minWait, timeout);
    BornAlive(r);
    AddParts(c, r, Entry(h, q, c.packetId), Add(c, h, q, minWait, timeout));
  }

  lemma {:induction false} RequestKeeps(c: Client, q: Query, minWait: U32, timeout: U32)
    requires Inv(c)
    ensures Inv(NewRequest(c, q, minWait, timeout).0)
  {
    if |q.service| > 0 && ValidId(q.idType, q.id) {
      var h := NextHandle(c.next);
      var c' := c.(next := HandleAfter(h));
      ExpireKeeps(c', h);
      AddKeeps(Expire(c', h), h, q, minWait, timeout);
    }
  }

  lemma {:induction false} StepKeeps(c: Client, e: Event)
    requires Inv(c)
    ensures Inv(Step(c, e))
  {
    match e {
      case DoRequest(q, minWait, timeout) => RequestKeeps(c, q, minWait, timeout);
      case DoRx(h, result) => RxKeeps(c, h, result);
      case DoTimeout(h) => TimeoutKeeps(c, h);
      case DoCancel(h) =>
        var i := Index(c.requests, h);
        if i >= 0 {
          CleanupKeeps(c, i);
        }
      case DoMdns(q, result) =>
        var i := MatchFrom(c.mdns, q, 0);
        if i >= 0 {
          RxKeeps(c, c.mdns[i].handle, result);
        }
    }
  }

  /**
   In every reachable state, also after the handle counter has wrapped around:
   live handles are nonzero and pairwise distinct; the mDNS method holds exactly
   the live handles; every request was cleaned up at most once; and every request,
   live or ended, is in the state to which its own results and timers take it.
   */
  lemma {:induction false} ReachableInv(es: seq<Event>)
    ensures Inv(Run(Fresh, es))
  {
    if es != [] {
      ReachableInv(es[..|es| - 1]);
      StepKeeps(Run(Fresh, es[..|es| - 1]), es[|es| - 1]);
    }
  }

  lemma {:induction false} DisciplineOf(r: Request)
    requires Disciplined(r)
    ensures LR.LastIsLast(r.lookup.calls)
    ensures LR.Younger(r.lookup.calls) <==> !(r.forced && !r.lookup.waiting && r.lookup.result.rc == LR.RcResult)
    ensures r.lookup.live ==> !LR.Concluded(r.lookup.calls)
  {
    LR.CallbackDiscipline(r.minWait, r.timeout, r.log);
    if r.forced {
      LR.ForcedEnd(r.minWait, r.timeout, r.log);
    }
  }

  /**
   Hence, in every run of the whole client, no request gets a callback after its last
   one, and the delivered ages of every request strictly decrease, except exactly those
   of a request that was past its minimum wait with a result when its handle was reused.
   */
  lemma {:induction false} EveryRequestDisciplined(es: seq<Event>, r: Request)
    requires r in Run(Fresh, es).requests || r in Run(Fresh, es).ended
    ensures LR.LastIsLast(r.lookup.calls)
    ensures LR.Younger(r.lookup.calls) <==> !(r.forced && !r.lookup.waiting && r.lookup.result.rc == LR.RcResult)
    ensures r in Run(Fresh, es).requests ==> !LR.Concluded(r.lookup.calls)
  {
    ReachableInv(es);
    DisciplineOf(r);
  }

  lemma {:induction false} SettleEnds(c: Client, i: nat, r: Request)
    requires i < |c.requests|
    ensures c.ended <= Settle(c, i, r).ended
  {
  }

  lemma {:induction false} RxEnds(c: Client, h: U32, result: LR.Result)
    ensures c.ended <= RxResult(c, h, result).ended
  {
    var i := Index(c.requests, h);
    if i >= 0 {
      SettleEnds(c, i, Happens(c.requests[i], LR.Rx(result)));
    }
  }

  lemma {:induction false} ExpireEnds(c: Client, h: U32)
    ensures c.ended <= Expire(c, h).ended
  {
    var i := Index(c.requests, h);
    if i >= 0 {
      SettleEnds(c, i, c.requests[i].(lookup := LR.Send(c.requests[i].lookup, true), forced := true));
    }
  }

  lemma {:induction false} StepEnds(c: Client, e: Event)
    ensures c.ended <= Step(c, e).ended
  {
    match e {
      case DoRequest(q, minWait, timeout) =>
        var h := NextHandle(c.next);
        ExpireEnds(c.(next := HandleAfter(h)), h);
      case DoRx(h, result) => RxEnds(c, h, result);
      case DoTimeout(h) =>
        var i := Index(c.requests, h);
        if i >= 0 {
          SettleEnds(c, i, Happens(c.requests[i], LR.Timer));
        }
      case DoCancel(h) =>
      case DoMdns(q, result) =>
        var i := MatchFrom(c.mdns, q, 0);
        if i >= 0 {
          RxEnds(c, c.mdns[i].handle, result);
        }
    }
  }

  /** Whatever happens later, what has ended stays as it ended. */
  lemma {:induction false} EndedStays(c: Client, es: seq<Event>)
    ensures c.ended <= Run(c, es).ended
  {
    if es != [] {
      EndedStays(c, es[..|es| - 1]);
      StepEnds(Run(c, es[..|es| - 1]), es[|es| - 1]);
    }
  }

  /**
   An mDNS answer reaches a request exactly when a request for the same service
   and id is alive, and then it is handed to such a request, and to no other.
   */
  lemma {:induction false} AnswerReachesLiveRequest(es: seq<Event>, q: Query, result: LR.Result) returns (j: int)
    requires !q.idType.NoId?
    ensures var c := Run(Fresh, es);
            && -1 <= j < |c.requests|
            && (j >= 0 <==> exists k :: 0 <= k < |c.requests| && c.requests[k].query == q)
            && (j >= 0 ==>
                  && c.requests[j].query == q && c.requests[j].lookup.live
                  && MdnsRecv(c, q, result) == Settle(c, j, Happens(c.requests[j], LR.Rx(result))))
            && (j < 0 ==> MdnsRecv(c, q, result) == c)
  {
    var c := Run(Fresh, es);
    ReachableInv(es);
    var n, i := |c.requests|, MatchFrom(c.mdns, q, 0);
    if i >= 0 {
      j := n - 1 - i;
      assert c.mdns[i].handle == c.requests[j].handle && c.mdns[i].query == c.requests[j].query == q;
      IndexIs(c.requests, j);
    } else {
      j := -1;
      forall k | 0 <= k < n ensures c.requests[k].query != q {
        assert c.mdns[n - 1 - k].query == c.requests[k].query;
      }
    }
  }

  // ---- A lookup over the wire ----

  /** What arrives of a result that is sent: a host without a port does not. */
  function Delivered(r: LookupResult): LookupResult {
    LookupResult(r.age, Sent(r.v4), Sent(r.v6))
  }

  function Received(r: LookupResult): LR.Result {
    LR.Result(LR.RcResult, r.age, r.v4, r.v6)
  }

  /**
   Codec and client together: a client that has a request for a query can put it into a
   packet from which the other side reads that query; the packet in which the other side
   answers is read as an answer to the same query, and it reaches a live request for it
   with the age, the addresses and the ports that were sent.
   */
  lemma {:induction false} LookupOverTheWire(es: seq<Event>, q: Query, suffix: seq<Octet>, id: U16, r: LookupResult,
                                             asked: seq<Octet>, answer: seq<Octet>) returns (j: int)
    requires exists k :: 0 <= k < |Run(Fresh, es).requests| && Run(Fresh, es).requests[k].query == q
    requires ValidQuery(q) && NulFree(q.service) && NulFree(suffix) && ShortLabels(suffix)
    requires WellFormed(r) && (IsSet(r.v4) || IsSet(r.v6))
    requires QueryEncode(id, q, suffix) == Some(asked) && ResultEncode(id, q, r, suffix) == Some(answer)
    ensures QueryDecode(asked, suffix) == Some((id, q))
    ensures ResultDecode(answer, suffix) == Some((id, q, Delivered(r)))
    ensures var c := Run(Fresh, es);
            && 0 <= j < |c.requests| && c.requests[j].query == q && c.requests[j].lookup.live
            && MdnsRecv(c, q, Received(Delivered(r))) ==
               Settle(c, j, Happens(c.requests[j], LR.Rx(Received(Delivered(r)))))
  {
    assert QueryDecode(asked, suffix) == Some((id, q)) by {
      QueryPacketRoundTrip(id, q, suffix);
    }
    assert ResultDecode(answer, suffix) == Some((id, q, Delivered(r))) by {
      ResultPacketRoundTrip(id, q, r, suffix);
    }
    j := AnswerReachesLiveRequest(es, q, Received(Delivered(r)));
  }

  /** A nonzero handle is returned exactly for valid queries, and it names the new request. */
  lemma {:induction false} HandleNamesRequest(es: seq<Event>, q: Query, minWait: U32, timeout: U32)
    ensures var (c, h) := NewRequest(Run(Fresh, es), q, minWait, timeout);
            && (h != 0 <==> |q.service| > 0 && ValidId(q.idType, q.id))
            && (h != 0 ==>
                  var i := Index(c.requests, h);
                  i >= 0 && c.requests[i].query == q && c.requests[i].lookup == LR.Start(minWait, timeout))
  {
    var c0 := Run(Fresh, es);
    var (c, h) := NewRequest(c0, q, minWait, timeout);
    ReachableInv(es);
    if h != 0 {
      RequestKeeps(c0, q, minWait, timeout);
      var last := |c.requests| - 1;
      assert c.requests[last].handle == h;
      IndexIs(c.requests, last);
    }
  }

  // ---- The client ----

  class LookupClient {
    var requests: seq<Request>
    var nextRequestHandle: U32
    var mdnsRequests: seq<Entry>
    var nextPacketId: U16
    var made: nat  // the requests so far, which gives each its identity
    ghost var ended: seq<Request>

    ghost function View(): Client
      reads this
    {
      Client(requests, nextRequestHandle, mdnsRequests, nextPacketId, ended)
    }

    ghost predicate Valid()
      reads this
    {
      Inv(View()) && Counted()
    }

    ghost predicate Counted()
      reads this
    {
      made == |requests| + |ended|
    }

    constructor ()
      ensures View() == Fresh && Valid()
    {
      requests, nextRequestHandle, mdnsRequests, nextPacketId, made, ended := [], 0, [], 0, 0, [];
    }

    method GetRequest(h: U32) returns (i: int)
      ensures i == Index(requests, h)
    {
      if h == 0 {
        return -1;
      }
      i := 0;
      while i < |requests|
        invariant 0 <= i <= |requests|
        invariant Index(requests, h) == IndexFrom(requests, h, i)
      {
        if requests[i].handle == h {
          return;
        }
        i := i + 1;
      }
      i := -1;
    }

    method MdnsRequestCleanup(h: U32)
      modifies this`mdnsRequests
      ensures mdnsRequests == DropEntry(old(mdnsRequests), h)
    {
      var i := 0;
      while i < |mdnsRequests|
        invariant 0 <= i <= |mdnsRequests| && mdnsRequests == old(mdnsRequests)
        invariant EntryFrom(mdnsRequests, h, 0) == EntryFrom(mdnsRequests, h, i)
      {
        if mdnsRequests[i].handle == h {
          mdnsRequests := mdnsRequests[..i] + mdnsRequests[i + 1..];
          return;
        }
        i := i + 1;
      }
    }

    method RequestHandleByQuery(q: Query) returns (i: int)
      ensures i == MatchFrom(mdnsRequests, q, 0)
    {
      i := 0;
      while i < |mdnsRequests|
        invariant 0 <= i <= |mdnsRequests|
        invariant MatchFrom(mdnsRequests, q, 0) == MatchFrom(mdnsRequests, q, i)
      {
        if mdnsRequests[i].query.service == q.service && SameId(mdnsRequests[i].query, q) {
          return;
        }
        i := i + 1;
      }
      i := -1;
    }

    /** osmo_mslookup_client_request_cancel() */
    method CancelRequest(h: U32)
      modifies this
      ensures View() == Cancel(old(View()), h) && (old(Counted()) ==> Counted())
    {
      var i := GetRequest(h);
      if i < 0 {
        return;
      }
      MdnsRequestCleanup(requests[i].handle);
      ended := ended + [requests[i]];
      requests := requests[..i] + requests[i + 1..];
    }

    /** The end of osmo_mslookup_request_send_result(): a finished request is looked up by its handle. */
    method SettleRequest(i: nat, r: Request)
      requires i < |requests| && Handles(requests) && r.handle == requests[i].handle
      modifies this
      ensures View() == Settle(old(View()), i, r) && (old(Counted()) ==> Counted())
    {
      requests := requests[i := r];
      if !r.lookup.live {
        IndexIs(requests, i);
        CancelRequest(r.handle);
      }
    }

    method RxLookupResult(h: U32, result: LR.Result)
      requires Valid()
      modifies this
      ensures View() == RxResult(old(View()), h, result) && Valid()
    {
      RxKeeps(View(), h, result);
      var i := GetRequest(h);
      if i >= 0 {
        SettleRequest(i, Happens(requests[i], LR.Rx(result)));
      }
    }

    method TimerFires(h: U32)
      requires Valid()
      modifies this
      ensures View() == Timeout(old(View()), h) && Valid()
    {
      TimeoutKeeps(View(), h);
      var i := GetRequest(h);
      if i >= 0 {
        SettleRequest(i, Happens(requests[i], LR.Timer));
      }
    }

    /** The loop that makes sure that a handle exists only once. */
    method ExpireHandle(h: U32)
      requires h != 0 && Handles(requests)
      modifies this
      ensures View() == Expire(old(View()), h) && (old(Counted()) ==> Counted())
    {
      var i := 0;
      while i < |requests|
        invariant 0 <= i <= |requests|
        invariant View() == old(View()) && made == old(made)
        invariant Index(requests, h) == IndexFrom(requests, h, i)
      {
        if requests[i].handle == h {
          SettleRequest(i, requests[i].(lookup := LR.Send(requests[i].lookup, true), forced := true));
          return;
        }
        i := i + 1;
      }
    }

    method AddRequest(h: U32, q: Query, minWait: U32, timeout: U32)
      requires Counted()
      modifies this
      ensures View() == Add(old(View()), h, q, minWait, timeout) && Counted()
    {
      requests := requests + [Born(made, h, q, minWait, timeout)];
      made := made + 1;
      mdnsRequests := [Entry(h, q, nextPacketId)] + mdnsRequests;
      nextPacketId := (nextPacketId as int + 1) % 0x1_0000;
    }

    method StartRequest(q: Query, minWait: U32, timeout: U32) returns (h: U32)
      requires Valid()
      modifies this
      ensures View() == NewRequest(old(View()), q, minWait, timeout).0 && Valid()
      ensures h == NewRequest(old(View()), q, minWait, timeout).1
    {
      RequestKeeps(View(), q, minWait, timeout);
      if |q.service| == 0 || !ValidId(q.idType, q.id) {
        return 0;
      }
      if nextRequestHandle == 0 {
        nextRequestHandle := nextRequestHandle + 1;
      }
      h := nextRequestHandle;
      nextRequestHandle := HandleAfter(nextRequestHandle);
      ExpireHandle(h);
      AddRequest(h, q, minWait, timeout);
    }

    method RecvMdns(q: Query, result: LR.Result)
      requires Valid()
      modifies this
      ensures View() == MdnsRecv(old(View()), q, result) && Valid()
    {
      var i := RequestHandleByQuery(q);
      if i >= 0 {
        RxLookupResult(mdnsRequests[i].handle, result);
      }
    }
  }
}
