/**
 What the events of a whole client mean for each of its requests: how timers and
 cancelling end them, what they have told by then, and how handles and packet ids
 are given out. The subject is mslookup_client.c and mslookup_client_mdns.c.
 */
module LookupHistory {
  import opened Octets
  import opened LookupQuery
  import opened LookupClient
  import LR = LookupRequest

  // ---- One request through the events ----

  predicate AtMostOne(r: Request, r': Request) {
    r' == r || (|r'.log| == |r.log| + 1 && r' == Happens(r, r'.log[|r.log|]))
  }

  /** A request before and after an event of the client. A timer event for its handle is its own. */
  predicate Continues(r: Request, r': Request, e: Event) {
    AtMostOne(r, r') && (e == DoTimeout(r.handle) ==> r' == Happens(r, LR.Timer))
  }

  lemma {:induction false} HappensOnce(r: Request, e: LR.Event)
    ensures AtMostOne(r, Happens(r, e))
  {
  }

  lemma {:induction false} SettleMember(c: Client, i: nat, x: Request, r': Request) returns (j: nat)
    requires i < |c.requests| && r' in Settle(c, i, x).requests
    ensures j < |c.requests| && r' == if j == i then x else c.requests[j]
  {
    var all := c.requests[i := x];
    var k :| 0 <= k < |Settle(c, i, x).requests| && Settle(c, i, x).requests[k] == r';
    j := if x.lookup.live || k < i then k else k + 1;
    assert all[j] == r';
  }

  lemma {:induction false} RxContinues(c: Client, h: U32, result: LR.Result, r': Request) returns (r: Request)
    requires r' in RxResult(c, h, result).requests
    ensures r in c.requests && AtMostOne(r, r')
  {
    var i := Index(c.requests, h);
    r := r';
    if i >= 0 {
      var j := SettleMember(c, i, Happens(c.requests[i], LR.Rx(result)), r');
      r := c.requests[j];
      HappensOnce(r, LR.Rx(result));
    }
  }

  lemma {:induction false} TimeoutContinues(c: Client, h: U32, r': Request) returns (r: Request)
    requires Handles(c.requests) && r' in Timeout(c, h).requests
    ensures r in c.requests && Continues(r, r', DoTimeout(h))
  {
    var i := Index(c.requests, h);
    r := r';
    if i >= 0 {
      var j := SettleMember(c, i, Happens(c.requests[i], LR.Timer), r');
      r := c.requests[j];
      HappensOnce(r, LR.Timer);
    }
  }

  lemma {:induction false} RequestContinues(c: Client, q: Query, minWait: U32, timeout: U32, r': Request)
    requires r' in NewRequest(c, q, minWait, timeout).0.requests && r'.serial < |c.requests| + |c.ended|
    requires Inv(c)
    ensures r' in c.requests
  {
    var h := NextHandle(c.next);
    var c1 := c.(next := HandleAfter(h));
    var i := Index(c1.requests, h);
    if |q.service| > 0 && ValidId(q.idType, q.id) {
      ExpireSize(c1, h);
      assert r' in Expire(c1, h).requests;
      if i >= 0 {
        var x := c.requests[i].(lookup := LR.Send(c.requests[i].lookup, true), forced := true);
        var k :| 0 <= k < |Expire(c1, h).requests| && Expire(c1, h).requests[k] == r';
        assert r' == c.requests[if k < i then k else k + 1];
      }
    }
  }

  lemma {:induction false} ExpireSize(c: Client, h: U32)
    ensures var c' := Expire(c, h); |c'.requests| + |c'.ended| == |c.requests| + |c.ended|
  {
  }

  lemma {:induction false} StepContinues(c: Client, e: Event, r': Request) returns (r: Request)
    requires Inv(c) && r' in Step(c, e).requests && r'.serial < |c.requests| + |c.ended|
    ensures r in c.requests && Continues(r, r', e)
  {
    r := r';
    match e {
      case DoRequest(q, minWait, timeout) => RequestContinues(c, q, minWait, timeout, r');
      case DoRx(h, result) => r := RxContinues(c, h, result, r');
      case DoTimeout(h) => r := TimeoutContinues(c, h, r');
      case DoCancel(h) =>
      case DoMdns(q, result) =>
        var i := MatchFrom(c.mdns, q, 0);
        if i >= 0 {
          r := RxContinues(c, c.mdns[i].handle, result, r');
        }
    }
  }

  function TimeoutsFor(es: seq<Event>, h: U32): nat {
    if es == [] then 0 else TimeoutsFor(es[..|es| - 1], h) + if es[|es| - 1] == DoTimeout(h) then 1 else 0
  }

  lemma {:induction false} RunAppend(c: Client, es: seq<Event>, later: seq<Event>)
    ensures Run(c, es + later) == Run(Run(c, es), later)
    decreases |later|
  {
    if later == [] {
      assert es + later == es;
    } else {
      var init := later[..|later| - 1];
      RunAppend(c, es, init);
      assert (es + later)[..|es + later| - 1] == es + init;
    }
  }

  lemma {:induction false} InvAfter(es: seq<Event>, later: seq<Event>)
    ensures Inv(Run(Run(Fresh, es), later))
  {
    RunAppend(Fresh, es, later);
    ReachableInv(es + later);
  }

  lemma {:induction false} RequestSize(c: Client, q: Query, minWait: U32, timeout: U32)
    ensures var c' := NewRequest(c, q, minWait, timeout).0;
            |c.requests| + |c.ended| <= |c'.requests| + |c'.ended|
  {
    var h := NextHandle(c.next);
    ExpireSize(c.(next := HandleAfter(h)), h);
  }

  /** No event makes fewer requests. */
  lemma {:induction false} StepSize(c: Client, e: Event)
    ensures |c.requests| + |c.ended| <= |Step(c, e).requests| + |Step(c, e).ended|
  {
    match e {
      case DoRequest(q, minWait, timeout) => RequestSize(c, q, minWait, timeout);
      case DoRx(h, result) =>
      case DoTimeout(h) =>
      case DoCancel(h) =>
      case DoMdns(q, result) =>
    }
  }

  lemma {:induction false} RunSize(c: Client, es: seq<Event>)
    ensures |c.requests| + |c.ended| <= |Run(c, es).requests| + |Run(c, es).ended|
  {
    if es != [] {
      RunSize(c, es[..|es| - 1]);
      StepSize(Run(c, es[..|es| - 1]), es[|es| - 1]);
    }
  }

  /** A request that is alive after more events has seen every timer event for its handle. */
  lemma {:induction false} LiveSeesTimers(es: seq<Event>, later: seq<Event>, r: Request, r': Request)
    requires r in Run(Fresh, es).requests && r' in Run(Run(Fresh, es), later).requests && r'.serial == r.serial
    ensures r'.handle == r.handle && LR.Timers(r'.log) >= TimeoutsFor(later, r.handle)
    decreases |later|
  {
    var c0 := Run(Fresh, es);
    ReachableInv(es);
    if later != [] {
      var init, e := later[..|later| - 1], later[|later| - 1];
      var c := Run(c0, init);
      InvAfter(es, init);
      RunSize(c0, init);
      var r1 := StepContinues(c, e, r');
      LiveSeesTimers(es, init, r, r1);
      if r' != r1 {
        assert r'.log[..|r1.log|] == r1.log;
      }
    }
  }

  /** Whatever else happens, a request does not survive two timer events. */
  lemma {:induction false} TwoTimeoutsEnd(es: seq<Event>, later: seq<Event>, r: Request, r': Request)
    requires r in Run(Fresh, es).requests && TimeoutsFor(later, r.handle) >= 2
    requires r' in Run(Run(Fresh, es), later).requests
    ensures r'.serial != r.serial
  {
    InvAfter(es, later);
    if r'.serial == r.serial {
      LiveSeesTimers(es, later, r, r');
      LR.TwoTimersFinish(r'.minWait, r'.timeout, r'.log);
    }
  }

  // ---- What a request has told ----

  lemma {:induction false} FaithfulTold(r: Request)
    requires Faithful(r) && LR.Concluded(r.lookup.calls)
    ensures LR.Told(r.lookup.calls, LR.Successes(r.log))
  {
    LR.CallbackDiscipline(r.minWait, r.timeout, r.log);
    var init, last := r.log[..|r.log| - 1], r.log[|r.log| - 1];
    assert r.log == init + [last];
    LR.ConclusionTells(r.minWait, r.timeout, init, last);
  }

  /**
   In every run, a request that came to its last callback by itself has told about all
   successful results that reached it: not found exactly if there was none, and the
   first youngest of them otherwise.
   */
  lemma {:induction false} EndedTold(es: seq<Event>, r: Request)
    requires r in Run(Fresh, es).ended && !r.forced && LR.Concluded(r.lookup.calls)
    ensures LR.Told(r.lookup.calls, LR.Successes(r.log))
  {
    ReachableInv(es);
    FaithfulTold(r);
  }

  lemma {:induction false} TimerTells(c: Client, i: nat)
    requires Inv(c) && i < |c.requests|
    ensures var r := Happens(c.requests[i], LR.Timer);
            && Faithful(r) && LR.Successes(r.log) == LR.Successes(c.requests[i].log)
            && Timeout(c, c.requests[i].handle) == Settle(c, i, r)
            && (!r.lookup.live ==> LR.Told(r.lookup.calls, LR.Successes(c.requests[i].log)))
  {
    var r := Happens(c.requests[i], LR.Timer);
    HappensFaithfully(c.requests[i], LR.Timer);
    IndexIs(c.requests, i);
    assert r.log[..|c.requests[i].log|] == c.requests[i].log;
    assert LR.Successes(c.requests[i].log) + [] == LR.Successes(c.requests[i].log);
    LR.CallbackDiscipline(r.minWait, r.timeout, r.log);
    if !r.lookup.live {
      FaithfulTold(r);
    }
  }

  /** A timer event that is the last for its request: it stands among the ended ones. */
  lemma {:induction false} TimerEnds(c: Client, i: nat)
    requires Inv(c) && i < |c.requests| && !Happens(c.requests[i], LR.Timer).lookup.live
    ensures var c' := Timeout(c, c.requests[i].handle);
            && Index(c'.requests, c.requests[i].handle) < 0
            && c'.ended == c.ended + [Happens(c.requests[i], LR.Timer)]
  {
    TimerTells(c, i);
    HappensFaithfully(c.requests[i], LR.Timer);
    SettleKeeps(c, i, Happens(c.requests[i], LR.Timer));
  }

  /** A request that has told and ended, as the last of the ended ones. */
  predicate EndedAs(c: Client, r: Request, r': Request) {
    && Index(c.requests, r.handle) < 0 && r'.serial == r.serial
    && c.ended != [] && c.ended[|c.ended| - 1] == r'
  }

  lemma {:induction false} LastTimer(c: Client, i: nat)
    requires Inv(c) && i < |c.requests| && !Happens(c.requests[i], LR.Timer).lookup.live
    ensures var r' := Happens(c.requests[i], LR.Timer);
            && EndedAs(Timeout(c, c.requests[i].handle), c.requests[i], r')
            && LR.Told(r'.lookup.calls, LR.Successes(c.requests[i].log))
  {
    TimerTells(c, i);
    TimerEnds(c, i);
  }

  lemma {:induction false} NotLastTimer(c: Client, i: nat, c1: Client)
    requires Inv(c) && i < |c.requests| && Happens(c.requests[i], LR.Timer).lookup.live
    requires c1 == Timeout(c, c.requests[i].handle)
    ensures Inv(c1) && i < |c1.requests| && c1.requests[i] == Happens(c.requests[i], LR.Timer)
    ensures LR.Successes(c1.requests[i].log) == LR.Successes(c.requests[i].log)
    ensures !Happens(c1.requests[i], LR.Timer).lookup.live
  {
    TimerTells(c, i);
    TimeoutKeeps(c, c.requests[i].handle);
    TwoTimersInLog(c.requests[i], c1.requests[i]);
  }

  /**
   A request to which its timer event comes twice in a row has ended, its handle is free,
   and it has told about the results that it had received.
   */
  lemma {:induction false} TimersConclude(es: seq<Event>, i: nat) returns (r': Request)
    requires i < |Run(Fresh, es).requests|
    ensures var r := Run(Fresh, es).requests[i];
            var c' := Step(Step(Run(Fresh, es), DoTimeout(r.handle)), DoTimeout(r.handle));
            EndedAs(c', r, r') && LR.Told(r'.lookup.calls, LR.Successes(r.log))
  {
    var c := Run(Fresh, es);
    ReachableInv(es);
    var r := c.requests[i];
    var c1 := Timeout(c, r.handle);
    r' := Happens(r, LR.Timer);
    if !r'.lookup.live {
      LastTimer(c, i);
    } else {
      NotLastTimer(c, i, c1);
      LastTimer(c1, i);
      r' := Happens(r', LR.Timer);
    }
  }

  lemma {:induction false} TwoTimersInLog(r: Request, r1: Request)
    requires Faithful(r) && r.lookup.live && r1 == Happens(r, LR.Timer) && r1.lookup.live
    ensures !Happens(r1, LR.Timer).lookup.live
  {
    var log2 := r1.log + [LR.Timer];
    assert r1.log[..|r.log|] == r.log && log2[..|r1.log|] == r1.log;
    HappensFaithfully(r, LR.Timer);
    LR.TwoTimersFinish(r.minWait, r.timeout, log2);
  }

  lemma {:induction false} CleanupMoves(c: Client, i: nat, j: nat)
    requires i < |c.requests| && j < |c.requests|
    ensures j == i ==> c.requests[i] in Cleanup(c, i).ended
    ensures j != i ==> c.requests[j] in Cleanup(c, i).requests
  {
    var c' := Cleanup(c, i);
    if j == i {
      assert c'.ended[|c.ended|] == c.requests[i];
    } else {
      assert c'.requests[if j < i then j else j - 1] == c.requests[j];
    }
  }

  lemma {:induction false} CancelFrees(c: Client, h: U32)
    requires Inv(c)
    ensures Inv(Cancel(c, h)) && Index(Cancel(c, h).requests, h) < 0
  {
    var i := Index(c.requests, h);
    if i >= 0 {
      CleanupKeeps(c, i);
    }
  }

  /**
   A cancelled handle is free, in the client and in the mDNS method; its request has ended
   without a further callback, and every other stays as it is.
   */
  lemma {:induction false} CancelEnds(es: seq<Event>, h: U32, j: nat)
    requires j < |Run(Fresh, es).requests|
    ensures var c := Run(Fresh, es);
            var c' := Step(c, DoCancel(h));
            && Index(c'.requests, h) < 0 && EntryFrom(c'.mdns, h, 0) < 0
            && if c.requests[j].handle == h then c.requests[j] in c'.ended else c.requests[j] in c'.requests
  {
    var c := Run(Fresh, es);
    ReachableInv(es);
    CancelFrees(c, h);
    NoEntry(Cancel(c, h), h);
    if Index(c.requests, h) >= 0 {
      CleanupMoves(c, Index(c.requests, h), j);
    }
  }

  lemma {:induction false} NoEntry(c: Client, h: U32)
    requires Handles(c.requests) && Mirrors(c.requests, c.mdns) && Index(c.requests, h) < 0
    ensures EntryFrom(c.mdns, h, 0) < 0
  {
    var n := |c.requests|;
    forall k | 0 <= k < n ensures c.mdns[k].handle != h {
      assert c.mdns[k].handle == c.requests[n - 1 - k].handle != 0;
    }
  }

  // ---- Handles and packet ids ----

  const HANDLES := 0xFFFF_FFFF

  /** Handles run from one to the largest number of 32 bits, and over again. */
  function HandleOf(serial: nat): nat {
    serial % HANDLES + 1
  }

  predicate PacketIds(requests: seq<Request>, mdns: seq<Entry>) {
    |mdns| == |requests| &&
    forall i, k :: 0 <= i < |requests| && 0 <= k < |mdns| && i + k == |requests| - 1 ==>
      mdns[k].packetId == requests[i].serial % 0x1_0000
  }

  /** `made` is the number of requests so far. An expiry takes as many requests as there are handles. */
  predicate OwnHandle(r: Request, made: nat) {
    r.handle == HandleOf(r.serial) && (r.forced ==> r.serial + HANDLES <= made)
  }

  predicate Numbered(c: Client) {
    var made := |c.requests| + |c.ended|;
    && NextHandle(c.next) == HandleOf(made) && c.packetId == made % 0x1_0000
    && (forall i :: 0 <= i < |c.requests| ==> OwnHandle(c.requests[i], made))
    && (forall i :: 0 <= i < |c.ended| ==> OwnHandle(c.ended[i], made))
    && PacketIds(c.requests, c.mdns)
  }

  lemma {:induction false} CleanupPacketIds(requests: seq<Request>, mdns: seq<Entry>, i: nat)
    requires i < |requests| && Handles(requests) && Mirrors(requests, mdns) && PacketIds(requests, mdns)
    ensures PacketIds(RemoveAt(requests, i), DropEntry(mdns, requests[i].handle))
  {
    EntryIs(requests, mdns, i);
  }

  lemma {:induction false} CleanupNumbered(c: Client, i: nat)
    requires i < |c.requests| && Handles(c.requests) && Mirrors(c.requests, c.mdns) && Numbered(c)
    ensures Numbered(Cleanup(c, i))
  {
    CleanupPacketIds(c.requests, c.mdns, i);
  }

  lemma {:induction false} SettleNumbered(c: Client, i: nat, r: Request)
    requires Inv(c) && Numbered(c) && i < |c.requests|
    requires r.serial == c.requests[i].serial && r.handle == c.requests[i].handle && r.query == c.requests[i].query
    requires OwnHandle(r, |c.requests| + |c.ended|)
    ensures Numbered(Settle(c, i, r))
  {
    var c' := c.(requests := c.requests[i := r]);
    assert Handles(c'.requests) && Mirrors(c'.requests, c'.mdns) && Numbered(c');
    if !r.lookup.live {
      CleanupNumbered(c', i);
    }
  }

  lemma {:induction false} HappensNumbered(c: Client, h: U32, e: LR.Event)
    requires Inv(c) && Numbered(c)
    ensures Index(c.requests, h) >= 0 ==> Numbered(Settle(c, Index(c.requests, h), Happens(c.requests[Index(c.requests, h)], e)))
  {
    var i := Index(c.requests, h);
    if i >= 0 {
      SettleNumbered(c, i, Happens(c.requests[i], e));
    }
  }

  /** Two serial numbers share a handle only if they are a whole cycle apart. */
  lemma {:induction false} SameHandle(s: nat, made: nat)
    requires s < made && HandleOf(s) == HandleOf(made)
    ensures s + HANDLES <= made
  {
  }

  /** The expired request and the client before the next handle is taken. */
  lemma {:induction false} ExpireNumbered(c: Client, c1: Client, h: U32)
    requires Inv(c) && Numbered(c) && h == NextHandle(c.next) && c1 == c.(next := HandleAfter(h))
    ensures var c' := Expire(c1, h);
            && |c'.requests| + |c'.ended| == |c.requests| + |c.ended| && c'.next == c1.next
            && Numbered(c'.(next := c.next))
  {
    ExpireSize(c1, h);
    var i := Index(c.requests, h);
    if i >= 0 {
      var r := c.requests[i];
      SameHandle(r.serial, |c.requests| + |c.ended|);
      SettleNumbered(c, i, r.(lookup := LR.Send(r.lookup, true), forced := true));
    }
  }

  lemma {:induction false} NextHandleCounts(made: nat, h: U32)
    requires h == HandleOf(made)
    ensures NextHandle(HandleAfter(h)) == HandleOf(made + 1)
  {
  }

  lemma {:induction false} AddPacketId(requests: seq<Request>, mdns: seq<Entry>, r: Request, e: Entry)
    requires PacketIds(requests, mdns) && e.packetId == r.serial % 0x1_0000
    ensures PacketIds(requests + [r], [e] + mdns)
  {
    var requests', mdns' := requests + [r], [e] + mdns;
    forall i, k | 0 <= i < |requests'| && 0 <= k < |mdns'| && i + k == |requests'| - 1
      ensures mdns'[k].packetId == requests'[i].serial % 0x1_0000
    {
      if k > 0 {
        assert mdns'[k] == mdns[k - 1] && requests'[i] == requests[i];
      }
    }
  }

  lemma {:induction false} AddNumbered(c: Client, c': Client, r: Request, e: Entry)
    requires Numbered(c) && r.serial == |c.requests| + |c.ended| && r.handle == HandleOf(r.serial) && !r.forced
    requires e.packetId == c.packetId
    requires c'.requests == c.requests + [r] && c'.mdns == [e] + c.mdns && c'.ended == c.ended
    requires NextHandle(c'.next) == HandleOf(r.serial + 1) && c'.packetId == (c.packetId as int + 1) % 0x1_0000
    ensures Numbered(c')
  {
    var made := |c.requests| + |c.ended|;
    NextPacketId(made);
    AddPacketId(c.requests, c.mdns, r, e);
    forall i | 0 <= i < |c'.requests| ensures OwnHandle(c'.requests[i], made + 1) {
      assert c'.requests[i] == if i < made - |c.ended| then c.requests[i] else r;
    }
    forall i | 0 <= i < |c.ended| ensures OwnHandle(c.ended[i], made + 1) {
      assert OwnHandle(c.ended[i], made);
    }
  }

  lemma {:induction false} NextPacketId(made: nat)
    ensures (made % 0x1_0000 + 1) % 0x1_0000 == (made + 1) % 0x1_0000
  {
  }

  lemma {:induction false} RequestNumbered(c: Client, q: Query, minWait: U32, timeout: U32)
    requires Inv(c) && Numbered(c)
    ensures Numbered(NewRequest(c, q, minWait, timeout).0)
  {
    if |q.service| > 0 && ValidId(q.idType, q.id) {
      var h := NextHandle(c.next);
      var c1 := c.(next := HandleAfter(h));
      ExpireNumbered(c, c1, h);
      var c2 := Expire(c1, h);
      var made := |c2.requests| + |c2.ended|;
      NextHandleCounts(made, h);
      AddNumbered(c2.(next := c.next), Add(c2, h, q, minWait, timeout), Born(made, h, q, minWait, timeout), Entry(h, q, c2.packetId));
    }
  }

  lemma {:induction false} StepNumbered(c: Client, e: Event)
    requires Inv(c) && Numbered(c)
    ensures Numbered(Step(c, e))
  {
    match e {
      case DoRequest(q, minWait, timeout) => RequestNumbered(c, q, minWait, timeout);
      case DoRx(h, result) => HappensNumbered(c, h, LR.Rx(result));
      case DoTimeout(h) => HappensNumbered(c, h, LR.Timer);
      case DoCancel(h) =>
        if Index(c.requests, h) >= 0 {
          CleanupNumbered(c, Index(c.requests, h));
        }
      case DoMdns(q, result) =>
        var i := MatchFrom(c.mdns, q, 0);
        if i >= 0 {
          HappensNumbered(c, c.mdns[i].handle, LR.Rx(result));
        }
    }
  }

  /**
   In every run, request number n has the handle n % (2^32 - 1) + 1 and, as long as it is
   alive, the packet id n % 2^16. So a handle comes back only after all others, and a
   request is expired by handle reuse only if 2^32 - 1 further requests have been made.
   */
  lemma {:induction false} HandlesCycle(es: seq<Event>)
    ensures Numbered(Run(Fresh, es))
  {
    if es != [] {
      HandlesCycle(es[..|es| - 1]);
      ReachableInv(es[..|es| - 1]);
      StepNumbered(Run(Fresh, es[..|es| - 1]), es[|es| - 1]);
    }
  }
}
