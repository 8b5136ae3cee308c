/**
 What every step of the D-GSM proxy keeps, and what holds in every run.
 */
module ProxySafety {
  import opened Octets
  import opened LookupQuery
  import opened Gsup
  import opened ProxyModel

  // ---- The deferred queue and the outcomes ----

  function Reqs(log: seq<Outcome>): (r: seq<Req>)
    ensures |r| == |log| && forall i :: 0 <= i < |log| ==> r[i] == log[i].req
  {
    seq(|log|, i requires 0 <= i < |log| => log[i].req)
  }

  predicate Increasing(reqs: seq<Req>) {
    forall i, j :: 0 <= i < j < |reqs| ==> reqs[i].nr < reqs[j].nr
  }

  /** Requests of one IMSI are sent in the order of arrival. */
  predicate SentInOrder(log: seq<Outcome>) {
    forall i, j :: 0 <= i < j < |log| && log[i].Sent? && log[j].Sent? && log[i].req.imsi == log[j].req.imsi ==>
      log[i].req.nr < log[j].req.nr
  }

  /** What is still deferred came after everything that was sent for the same IMSI. */
  predicate SentBefore(log: seq<Outcome>, pending: seq<Req>) {
    forall i, j :: 0 <= i < |log| && 0 <= j < |pending| && log[i].Sent? && log[i].req.imsi == pending[j].imsi ==>
      log[i].req.nr < pending[j].nr
  }

  predicate Numbered(given: seq<Req>) {
    forall i :: 0 <= i < |given| ==> given[i].nr == i
  }

  predicate Below(reqs: seq<Req>, n: nat) {
    forall i :: 0 <= i < |reqs| ==> reqs[i].nr < n
  }

  /** Every request that was given to D-GSM is deferred or has left, exactly once. */
  predicate Conserved(pending: seq<Req>, log: seq<Outcome>, given: seq<Req>) {
    multiset(pending) + multiset(Reqs(log)) == multiset(given)
  }

  predicate QueueInv(pending: seq<Req>, log: seq<Outcome>, given: seq<Req>) {
    && Increasing(pending) && SentInOrder(log) && SentBefore(log, pending)
    && Numbered(given) && Below(pending, |given|) && Below(Reqs(log), |given|)
    && Conserved(pending, log, given)
  }

  predicate Subset(pending': seq<Req>, pending: seq<Req>) {
    forall i :: 0 <= i < |pending'| ==> pending'[i] in pending
  }

  lemma {:induction false} ReqsAppend(a: seq<Outcome>, b: seq<Outcome>)
    ensures Reqs(a + b) == Reqs(a) + Reqs(b)
  {
  }

  lemma {:induction false} Partition(pending: seq<Req>, imsi: ImsiText)
    ensures multiset(Mine(pending, imsi)) + multiset(NotMine(pending, imsi)) == multiset(pending)
    decreases |pending|
  {
    if pending != [] {
      var init, last := pending[..|pending| - 1], pending[|pending| - 1];
      Partition(init, imsi);
      assert pending == init + [last];
    }
  }

  /** Requests picked from all but the last one, and then the last one. */
  lemma {:induction false} PickLast(init: seq<Req>, last: Req, m: seq<Req>)
    requires Increasing(init + [last]) && Increasing(m) && Subset(m, init)
    ensures Increasing(m + [last]) && Subset(m + [last], init + [last])
  {
    var all := init + [last];
    forall i | 0 <= i < |m| ensures m[i].nr < last.nr && m[i] in all {
      var k :| 0 <= k < |init| && init[k] == m[i];
      assert all[k] == m[i] && all[|init|] == last;
    }
  }

  /** The requests of an IMSI are those deferred for it, in the same order. */
  lemma {:induction false} MineOf(pending: seq<Req>, imsi: ImsiText)
    requires Increasing(pending)
    ensures var m := Mine(pending, imsi);
            && Increasing(m) && Subset(m, pending)
            && (forall i :: 0 <= i < |m| ==> m[i].imsi == imsi)
    decreases |pending|
  {
    if pending != [] {
      var init, last := pending[..|pending| - 1], pending[|pending| - 1];
      MineOf(init, imsi);
      assert pending == init + [last];
      PickLast(init, last, Mine(init, imsi));
    }
  }

  lemma {:induction false} NotMineOf(pending: seq<Req>, imsi: ImsiText)
    requires Increasing(pending)
    ensures var m := NotMine(pending, imsi);
            && Increasing(m) && Subset(m, pending)
            && (forall i :: 0 <= i < |m| ==> m[i].imsi != imsi)
    decreases |pending|
  {
    if pending != [] {
      var init, last := pending[..|pending| - 1], pending[|pending| - 1];
      NotMineOf(init, imsi);
      assert pending == init + [last];
      PickLast(init, last, NotMine(init, imsi));
    }
  }

  lemma {:induction false} PopConserves(pending: seq<Req>, log: seq<Outcome>, given: seq<Req>, imsi: ImsiText, to: Option<Addr>)
    requires Conserved(pending, log, given)
    ensures Conserved(NotMine(pending, imsi), log + Outcomes(Mine(pending, imsi), to), given)
  {
    var os := Outcomes(Mine(pending, imsi), to);
    Partition(pending, imsi);
    ReqsAppend(log, os);
    assert Reqs(os) == Mine(pending, imsi);
  }

  lemma {:induction false} PopOrder(pending: seq<Req>, log: seq<Outcome>, imsi: ImsiText, to: Option<Addr>)
    requires Increasing(pending) && SentInOrder(log) && SentBefore(log, pending)
    ensures var pending', log' := NotMine(pending, imsi), log + Outcomes(Mine(pending, imsi), to);
            Increasing(pending') && SentInOrder(log') && SentBefore(log', pending')
  {
    MineOf(pending, imsi);
    NotMineOf(pending, imsi);
    var m := Mine(pending, imsi);
    var log' := log + Outcomes(m, to);
    forall i, j | 0 <= i < j < |log'| && log'[i].Sent? && log'[j].Sent? && log'[i].req.imsi == log'[j].req.imsi
      ensures log'[i].req.nr < log'[j].req.nr
    {
      if j >= |log| {
        assert log'[j].req == m[j - |log|];
        if i >= |log| {
          assert log'[i].req == m[i - |log|];
        }
      }
    }
  }

  lemma {:induction false} PopBelow(pending: seq<Req>, log: seq<Outcome>, n: nat, imsi: ImsiText, to: Option<Addr>)
    requires Increasing(pending) && Below(pending, n) && Below(Reqs(log), n)
    ensures Below(NotMine(pending, imsi), n) && Below(Reqs(log + Outcomes(Mine(pending, imsi), to)), n)
  {
    MineOf(pending, imsi);
    NotMineOf(pending, imsi);
    ReqsAppend(log, Outcomes(Mine(pending, imsi), to));
  }

  lemma {:induction false} PopKeepsQueue(s: State, given: seq<Req>, imsi: ImsiText, to: Option<Addr>)
    requires QueueInv(s.pending, s.log, given)
    ensures var s' := Pop(s, imsi, to); QueueInv(s'.pending, s'.log, given)
  {
    PopConserves(s.pending, s.log, given, imsi, to);
    PopOrder(s.pending, s.log, imsi, to);
    PopBelow(s.pending, s.log, |given|, imsi, to);
  }

  /** A new request that is deferred, given that it is the youngest. */
  lemma {:induction false} DeferKeepsQueue(pending: seq<Req>, log: seq<Outcome>, given: seq<Req>, req: Req)
    requires QueueInv(pending, log, given) && req.nr == |given|
    ensures QueueInv(pending + [req], log, given + [req])
  {
    assert forall i :: 0 <= i < |log| ==> log[i].req == Reqs(log)[i];
  }

  /** A new request that leaves at once; it may be sent only if none of its IMSI is deferred. */
  lemma {:induction false} LeaveKeepsQueue(pending: seq<Req>, log: seq<Outcome>, given: seq<Req>, o: Outcome)
    requires QueueInv(pending, log, given) && o.req.nr == |given|
    requires o.Sent? ==> !Waiting(pending, o.req.imsi)
    ensures QueueInv(pending, log + [o], given + [o.req])
  {
    ReqsAppend(log, [o]);
    assert Reqs([o]) == [o.req];
    assert forall i :: 0 <= i < |log| ==> log[i].req == Reqs(log)[i];
  }

  // ---- The entry list ----

  /** There is never more than one entry per IMSI. */
  predicate Unique(entries: seq<Entry>) {
    entries != [] ==> Find(entries[1..], entries[0].imsi).None? && Unique(entries[1..])
  }

  lemma {:induction false} FindReplace(entries: seq<Entry>, e: Entry, imsi: ImsiText)
    ensures Find(Replace(entries, e), imsi) ==
            if imsi == e.imsi && Find(entries, imsi).Some? then Some(e) else Find(entries, imsi)
    decreases |entries|
  {
    if entries != [] {
      FindReplace(entries[1..], e, imsi);
      assert Replace(entries, e)[1..] == if entries[0].imsi == e.imsi then entries[1..] else Replace(entries[1..], e);
    }
  }

  lemma {:induction false} ReplaceUnique(entries: seq<Entry>, e: Entry)
    requires Unique(entries)
    ensures Unique(Replace(entries, e))
    decreases |entries|
  {
    if entries != [] {
      ReplaceUnique(entries[1..], e);
      FindReplace(entries[1..], e, entries[0].imsi);
      assert Replace(entries, e)[1..] == if entries[0].imsi == e.imsi then entries[1..] else Replace(entries[1..], e);
    }
  }

  lemma {:induction false} FindPut(s: State, e: Entry, imsi: ImsiText)
    ensures Find(Put(s, e).entries, imsi) ==
            if imsi == e.imsi then Some(e.(lastUpdate := s.now)) else Find(s.entries, imsi)
  {
    FindReplace(s.entries, e.(lastUpdate := s.now), imsi);
  }

  lemma {:induction false} PutUnique(s: State, e: Entry)
    requires Unique(s.entries)
    ensures Unique(Put(s, e).entries)
  {
    ReplaceUnique(s.entries, e.(lastUpdate := s.now));
    assert ([e.(lastUpdate := s.now)] + s.entries)[1..] == s.entries;
  }

  lemma {:induction false} FindDelete(entries: seq<Entry>, x: ImsiText, imsi: ImsiText)
    requires Unique(entries)
    ensures Find(Delete(entries, x), imsi) == if imsi == x then None else Find(entries, imsi)
    decreases |entries|
  {
    if entries != [] {
      FindDelete(entries[1..], x, imsi);
      if entries[0].imsi != x {
        assert Delete(entries, x)[1..] == Delete(entries[1..], x);
      }
    }
  }

  lemma {:induction false} DeleteUnique(entries: seq<Entry>, x: ImsiText)
    requires Unique(entries)
    ensures Unique(Delete(entries, x))
    decreases |entries|
  {
    if entries != [] && entries[0].imsi != x {
      DeleteUnique(entries[1..], x);
      FindDelete(entries[1..], x, entries[0].imsi);
      assert Delete(entries, x)[1..] == Delete(entries[1..], x);
    }
  }

  lemma {:induction false} FindFresh(entries: seq<Entry>, now: int, imsi: ImsiText)
    requires Unique(entries)
    ensures Find(FreshOnes(entries, now), imsi) ==
            if Find(entries, imsi).Some? && IsFresh(Find(entries, imsi).value, now) then Find(entries, imsi) else None
    ensures Unique(FreshOnes(entries, now))
    decreases |entries|
  {
    if entries != [] {
      FindFresh(entries[1..], now, imsi);
      FindFresh(entries[1..], now, entries[0].imsi);
      if IsFresh(entries[0], now) {
        assert FreshOnes(entries, now)[1..] == FreshOnes(entries[1..], now);
      }
    }
  }

  lemma {:induction false} FindAt(entries: seq<Entry>, imsi: ImsiText) returns (i: nat)
    requires Find(entries, imsi).Some?
    ensures i < |entries| && entries[i] == Find(entries, imsi).value
    decreases |entries|
  {
    if entries[0].imsi == imsi {
      i := 0;
    } else {
      i := FindAt(entries[1..], imsi);
      i := i + 1;
    }
  }

  // ---- Deferred requests and links ----

  predicate LinkWaits(links: map<Addr, Link>, a: Addr) {
    a in links ==> !links[a].up && links[a].callbacks > 0
  }

  /** If the address for an IMSI is known, the link is absent, or down with a callback registered. */
  predicate Awaited(s: State, imsi: ImsiText) {
    Find(s.entries, imsi).Some? && Find(s.entries, imsi).value.addr.Some? ==>
      LinkWaits(s.links, Find(s.entries, imsi).value.addr.value)
  }

  predicate HasAddr(s: State, imsi: ImsiText, addr: Addr) {
    Find(s.entries, imsi).Some? && Find(s.entries, imsi).value.addr == Some(addr)
  }

  /** The key invariant: every deferred request is awaited. */
  predicate Key(s: State) {
    forall i :: 0 <= i < |s.pending| ==> Awaited(s, s.pending[i].imsi)
  }

  predicate KeyExcept(s: State, addr: Addr) {
    forall i :: 0 <= i < |s.pending| ==> HasAddr(s, s.pending[i].imsi, addr) || Awaited(s, s.pending[i].imsi)
  }

  lemma {:induction false} SubsetTransitive(a: seq<Req>, b: seq<Req>, c: seq<Req>)
    requires Subset(a, b) && Subset(b, c)
    ensures Subset(a, c)
  {
  }

  lemma {:induction false} StaysFlushed(a: seq<Req>, b: seq<Req>, imsi: ImsiText)
    requires Subset(a, b) && !Waiting(b, imsi)
    ensures !Waiting(a, imsi)
  {
  }

  lemma {:induction false} PopShrinks(s: State, imsi: ImsiText, to: Option<Addr>)
    requires Increasing(s.pending)
    ensures Subset(Pop(s, imsi, to).pending, s.pending)
    ensures !Waiting(Pop(s, imsi, to).pending, imsi)
  {
    NotMineOf(s.pending, imsi);
  }

  /** The callback changes nothing but the queue, and flushes it for every entry with the address. */
  lemma {:induction false} ConnectCbFlushes(s: State, given: seq<Req>, es: seq<Entry>, addr: Addr, to: Option<Addr>)
    requires QueueInv(s.pending, s.log, given)
    ensures var s' := ConnectCb(s, es, addr, to);
            && QueueInv(s'.pending, s'.log, given)
            && s' == s.(pending := s'.pending, log := s'.log)
            && Subset(s'.pending, s.pending)
            && (forall i :: 0 <= i < |es| && es[i].addr == Some(addr) ==> !Waiting(s'.pending, es[i].imsi))
    decreases |es|
  {
    if es != [] {
      var s1 := if es[0].addr == Some(addr) then Pop(s, es[0].imsi, to) else s;
      if es[0].addr == Some(addr) {
        PopKeepsQueue(s, given, es[0].imsi, to);
        PopShrinks(s, es[0].imsi, to);
      }
      ConnectCbFlushes(s1, given, es[1..], addr, to);
      var s' := ConnectCb(s1, es[1..], addr, to);
      SubsetTransitive(s'.pending, s1.pending, s.pending);
      forall i | 0 <= i < |es| && es[i].addr == Some(addr) ensures !Waiting(s'.pending, es[i].imsi) {
        if i > 0 {
          assert es[i] == es[1..][i - 1];
        } else {
          StaysFlushed(s'.pending, s1.pending, es[0].imsi);
        }
      }
    }
  }

  lemma {:induction false} FlushLeavesNone(s: State, given: seq<Req>, addr: Addr, to: Option<Addr>, i: nat)
    requires QueueInv(s.pending, s.log, given)
    requires i < |ConnectCb(s, s.entries, addr, to).pending|
    ensures !HasAddr(s, ConnectCb(s, s.entries, addr, to).pending[i].imsi, addr)
  {
    var s' := ConnectCb(s, s.entries, addr, to);
    ConnectCbFlushes(s, given, s.entries, addr, to);
    var imsi := s'.pending[i].imsi;
    if HasAddr(s, imsi, addr) {
      var k := FindAt(s.entries, imsi);
      assert Waiting(s'.pending, imsi);
    }
  }

  /** A flush for an address restores the key invariant, if only that address was in its way. */
  lemma {:induction false} FlushKeepsKey(s: State, given: seq<Req>, addr: Addr, to: Option<Addr>)
    requires QueueInv(s.pending, s.log, given) && KeyExcept(s, addr)
    ensures Key(ConnectCb(s, s.entries, addr, to))
  {
    var s' := ConnectCb(s, s.entries, addr, to);
    ConnectCbFlushes(s, given, s.entries, addr, to);
    forall i | 0 <= i < |s'.pending| ensures Awaited(s', s'.pending[i].imsi) {
      FlushLeavesNone(s, given, addr, to, i);
      assert s'.pending[i] in s.pending;
    }
  }

  /** Asking for a connection restores the key invariant for its address. */
  lemma {:induction false} GetOrConnectKeeps(s: State, given: seq<Req>, addr: Addr, canConnect: bool)
    requires QueueInv(s.pending, s.log, given) && KeyExcept(s, addr)
    ensures var s' := GetOrConnect(s, addr, canConnect);
            && QueueInv(s'.pending, s'.log, given) && Key(s')
            && s' == s.(pending := s'.pending, log := s'.log, links := s'.links)
  {
    if addr in s.links && !s.links[addr].up {
    } else if addr !in s.links && canConnect {
    } else {
      var to := if addr in s.links then Some(addr) else None;
      ConnectCbFlushes(s, given, s.entries, addr, to);
      FlushKeepsKey(s, given, addr, to);
    }
  }

  // ---- Where the VLR names come from ----

  predicate LuCameFrom(seen: seq<Seen>, imsi: ImsiText, d: CnDomain, name: Name) {
    exists i :: 0 <= i < |seen| && seen[i] == LuRequest(imsi, d, name)
  }

  /** A request came from the name, and later a result was routed to it. */
  predicate LuConcluded(seen: seq<Seen>, imsi: ImsiText, d: CnDomain, name: Name) {
    exists i, j :: 0 <= i < j < |seen| && seen[i] == LuRequest(imsi, d, name) && seen[j] == LuResult(imsi, name)
  }

  predicate Proven(seen: seq<Seen>, imsi: ImsiText, d: CnDomain, st: DomainState) {
    && (st.preliminary == [] || LuCameFrom(seen, imsi, d, st.preliminary))
    && (st.vlrName == [] || LuConcluded(seen, imsi, d, st.vlrName))
  }

  predicate EntryProven(seen: seq<Seen>, e: Entry) {
    Proven(seen, e.imsi, CS, e.cs) && Proven(seen, e.imsi, PS, e.ps)
  }

  predicate AllProven(s: State) {
    forall i :: 0 <= i < |s.entries| ==> EntryProven(s.seen, s.entries[i])
  }

  lemma {:induction false} ProvenGrows(seen: seq<Seen>, x: Seen, e: Entry)
    requires EntryProven(seen, e)
    ensures EntryProven(seen + [x], e)
  {
    DomainProvenGrows(seen, x, e.imsi, CS, e.cs);
    DomainProvenGrows(seen, x, e.imsi, PS, e.ps);
  }

  lemma {:induction false} DomainProvenGrows(seen: seq<Seen>, x: Seen, imsi: ImsiText, d: CnDomain, st: DomainState)
    requires Proven(seen, imsi, d, st)
    ensures Proven(seen + [x], imsi, d, st)
  {
    var seen' := seen + [x];
    if LuCameFrom(seen, imsi, d, st.preliminary) {
      var i :| 0 <= i < |seen| && seen[i] == LuRequest(imsi, d, st.preliminary);
      assert seen'[i] == seen[i];
    }
    if LuConcluded(seen, imsi, d, st.vlrName) {
      var i, j :| 0 <= i < j < |seen| && seen[i] == LuRequest(imsi, d, st.vlrName) && seen[j] == LuResult(imsi, st.vlrName);
      assert seen'[i] == seen[i] && seen'[j] == seen[j];
    }
  }

  lemma {:induction false} AllProvenGrows(s: State, x: Seen)
    requires AllProven(s)
    ensures AllProven(s.(seen := s.seen + [x]))
  {
    forall i | 0 <= i < |s.entries| ensures EntryProven(s.seen + [x], s.entries[i]) {
      ProvenGrows(s.seen, x, s.entries[i]);
    }
  }

  lemma {:induction false} ReplaceMembers(entries: seq<Entry>, e: Entry, i: nat)
    requires i < |entries|
    ensures Replace(entries, e)[i] == entries[i] || Replace(entries, e)[i] == e
    decreases |entries|
  {
    if entries[0].imsi != e.imsi && i > 0 {
      ReplaceMembers(entries[1..], e, i - 1);
    }
  }

  lemma {:induction false} PutProven(s: State, e: Entry)
    requires AllProven(s) && EntryProven(s.seen, e)
    ensures AllProven(Put(s, e))
  {
    var e' := e.(lastUpdate := s.now);
    forall i | 0 <= i < |s.entries| ensures EntryProven(s.seen, Replace(s.entries, e')[i]) {
      ReplaceMembers(s.entries, e', i);
    }
  }

  lemma {:induction false} DeleteMembers(entries: seq<Entry>, x: ImsiText, i: nat)
    requires i < |Delete(entries, x)|
    ensures Delete(entries, x)[i] in entries
    decreases |entries|
  {
    if entries[0].imsi != x && i > 0 {
      DeleteMembers(entries[1..], x, i - 1);
    }
  }

  lemma {:induction false} FreshMembers(entries: seq<Entry>, now: int, i: nat)
    requires i < |FreshOnes(entries, now)|
    ensures FreshOnes(entries, now)[i] in entries
    decreases |entries|
  {
    if IsFresh(entries[0], now) {
      if i > 0 {
        FreshMembers(entries[1..], now, i - 1);
      }
    } else {
      FreshMembers(entries[1..], now, i);
    }
  }

  lemma {:induction false} FewerProven(s: State, entries: seq<Entry>)
    requires AllProven(s) && forall i :: 0 <= i < |entries| ==> entries[i] in s.entries
    ensures AllProven(s.(entries := entries))
  {
    forall i | 0 <= i < |entries| ensures EntryProven(s.seen, entries[i]) {
      var k :| 0 <= k < |s.entries| && s.entries[k] == entries[i];
    }
  }

  // ---- What every step keeps ----

  ghost predicate Inv(s: State) {
    InvOver(s, s.given)
  }

  /** The invariant over the requests `given` so far, which a step may be about to extend. */
  ghost predicate InvOver(s: State, given: seq<Req>) {
    && QueueInv(s.pending, s.log, given) && Key(s)
    && Unique(s.entries) && AllProven(s)
  }

  /** The snapshot `e` of an entry is what the list holds for its IMSI, but for the time of its update. */
  predicate Current(s: State, e: Entry) {
    Find(s.entries, e.imsi).Some? && Find(s.entries, e.imsi).value == e.(lastUpdate := Find(s.entries, e.imsi).value.lastUpdate)
  }

  /** An entry that keeps its address can be stored without disturbing the queue. */
  lemma {:induction false} PutSameAddr(s: State, e: Entry)
    requires Key(s) && Unique(s.entries) && Find(s.entries, e.imsi).Some?
    requires Find(s.entries, e.imsi).value.addr == e.addr
    ensures Key(Put(s, e)) && Unique(Put(s, e).entries)
  {
    PutUnique(s, e);
    forall i | 0 <= i < |s.pending| ensures Awaited(Put(s, e), s.pending[i].imsi) {
      FindPut(s, e, s.pending[i].imsi);
      assert Awaited(s, s.pending[i].imsi);
    }
  }

  lemma {:induction false} CurrentProven(s: State, e: Entry)
    requires AllProven(s) && Current(s, e)
    ensures EntryProven(s.seen, e)
  {
    var i := FindAt(s.entries, e.imsi);
    assert EntryProven(s.seen, s.entries[i]);
  }

  lemma {:induction false} AcknowledgeKeeps(s: State, e: Entry, req: Req)
    requires Key(s) && Unique(s.entries) && AllProven(s) && Current(s, e) && req.imsi == e.imsi && req.source.Ipa?
    ensures var s' := Acknowledge(s, e, req);
            && Key(s') && Unique(s'.entries) && AllProven(s')
            && s' == s.(entries := s'.entries, seen := s'.seen)
            && Find(s'.entries, e.imsi).Some? && Find(s'.entries, e.imsi).value.addr == e.addr
  {
    if req.kind.UpdateLocationRequest? {
      var x := LuRequest(req.imsi, req.domain, req.source.name);
      var s' := s.(seen := s.seen + [x]);
      var e' := Preliminary(e, req.domain, req.source.name);
      AllProvenGrows(s, x);
      CurrentProven(s', e);
      assert s'.seen[|s.seen|] == x;
      assert LuCameFrom(s'.seen, req.imsi, req.domain, req.source.name);
      PutProven(s', e');
      assert Key(s');
      PutSameAddr(s', e');
      FindPut(s', e', e.imsi);
    }
  }

  /** If the link for an IMSI is up, none of its requests is deferred. */
  lemma {:induction false} UpMeansNoneDeferred(s: State, imsi: ImsiText, addr: Addr)
    requires Key(s) && HasAddr(s, imsi, addr) && IsUp(s, addr)
    ensures !Waiting(s.pending, imsi)
  {
    forall i | 0 <= i < |s.pending| ensures s.pending[i].imsi != imsi {
      assert Awaited(s, s.pending[i].imsi);
    }
  }

  lemma {:induction false} DeferKeyExcept(s: State, req: Req, addr: Addr)
    requires Key(s) && HasAddr(s, req.imsi, addr)
    ensures KeyExcept(Defer(s, req), addr)
  {
    var s' := Defer(s, req);
    forall i | 0 <= i < |s'.pending| ensures HasAddr(s', s'.pending[i].imsi, addr) || Awaited(s', s'.pending[i].imsi) {
      if i < |s.pending| {
        assert Awaited(s, s.pending[i].imsi);
      }
    }
  }

  lemma {:induction false} ForwardKeeps(s: State, given: seq<Req>, e: Entry, req: Req, canConnect: bool)
    requires InvOver(s, given) && Current(s, e) && e.imsi == req.imsi && req.nr == |given|
    ensures InvOver(Forward(s, e, req, canConnect).1, given + [req])
    ensures Forward(s, e, req, canConnect).1.given == s.given
  {
    if !req.source.Ipa? {
      LeaveKeepsQueue(s.pending, s.log, given, Refuse(req, GMM_CAUSE_PROTO_ERR_UNSPEC));
    } else {
      AcknowledgeKeeps(s, e, req);
      var s' := Acknowledge(s, e, req);
      if e.addr.None? {
        DeferKeepsQueue(s'.pending, s'.log, given, req);
        assert forall i :: 0 <= i < |s'.pending| ==> Awaited(s', s'.pending[i].imsi);
      } else if IsUp(s', e.addr.value) {
        UpMeansNoneDeferred(s', req.imsi, e.addr.value);
        LeaveKeepsQueue(s'.pending, s'.log, given, ConnectResult(req, e.addr));
      } else {
        DeferKeepsQueue(s'.pending, s'.log, given, req);
        DeferKeyExcept(s', req, e.addr.value);
        GetOrConnectKeeps(Defer(s', req), given + [req], e.addr.value, canConnect);
      }
    }
  }

  lemma {:induction false} PutKeyExcept(s: State, e: Entry, addr: Addr)
    requires Key(s) && e.addr == Some(addr)
    ensures KeyExcept(Put(s, e), addr)
    ensures !Waiting(s.pending, e.imsi) ==> Key(Put(s, e))
  {
    forall i | 0 <= i < |s.pending|
      ensures if s.pending[i].imsi == e.imsi then HasAddr(Put(s, e), e.imsi, addr) else Awaited(Put(s, e), s.pending[i].imsi)
    {
      FindPut(s, e, s.pending[i].imsi);
      assert Awaited(s, s.pending[i].imsi);
    }
  }

  lemma {:induction false} ResolvedKeeps(s: State, given: seq<Req>, e: Entry, addr: Addr, canConnect: bool)
    requires InvOver(s, given) && Current(s, e)
    ensures var s' := Resolved(s, e, addr, canConnect);
            && InvOver(s', given) && s'.given == s.given
            && Find(s'.entries, e.imsi).Some? && Find(s'.entries, e.imsi).value.addr == Some(addr)
  {
    if e.addr != Some(addr) {
      var e' := e.(addr := Some(addr));
      CurrentProven(s, e);
      PutProven(s, e');
      PutUnique(s, e');
      PutKeyExcept(s, e', addr);
      FindPut(s, e', e.imsi);
      if Waiting(s.pending, e.imsi) {
        GetOrConnectKeeps(Put(s, e'), given, addr, canConnect);
      }
    }
  }

  lemma {:induction false} FindCurrent(s: State, imsi: ImsiText)
    requires Find(s.entries, imsi).Some?
    ensures Current(s, Find(s.entries, imsi).value)
  {
  }

  /** A new entry has no address, so nothing has to wait for a link. */
  lemma {:induction false} NewEntryKeeps(s: State, given: seq<Req>, imsi: ImsiText)
    requires InvOver(s, given)
    ensures InvOver(Put(s, NewEntry(imsi)), given) && Current(Put(s, NewEntry(imsi)), NewEntry(imsi))
  {
    var e := NewEntry(imsi);
    PutProven(s, e);
    PutUnique(s, e);
    FindPut(s, e, imsi);
    forall i | 0 <= i < |s.pending| ensures Awaited(Put(s, e), s.pending[i].imsi) {
      FindPut(s, e, s.pending[i].imsi);
      assert Awaited(s, s.pending[i].imsi);
    }
  }

  lemma {:induction false} DelSubscrKeeps(s: State, given: seq<Req>, imsi: ImsiText)
    requires InvOver(s, given)
    ensures InvOver(DelSubscr(s, imsi), given)
  {
    var s' := DelSubscr(s, imsi);
    PopKeepsQueue(s, given, imsi, None);
    PopShrinks(s, imsi, None);
    DeleteUnique(s.entries, imsi);
    forall i | 0 <= i < |s'.entries| ensures s'.entries[i] in s.entries {
      DeleteMembers(s.entries, imsi, i);
    }
    FewerProven(s, s'.entries);
    forall i | 0 <= i < |s'.pending| ensures Awaited(s', s'.pending[i].imsi) {
      FindDelete(s.entries, imsi, s'.pending[i].imsi);
      assert s'.pending[i] in s.pending;
    }
  }

  /** D-GSM gives a request one place if it handles it, and none if it does not. */
  lemma {:induction false} CheckForwardKeeps(s: State, req: Req, env: Env)
    requires Inv(s) && req.nr == |s.given| && ValidId(Imsi, req.imsi)
    ensures var (handled, s') := CheckForward(s, req, env);
            s'.given == s.given && InvOver(s', if handled then s.given + [req] else s.given)
  {
    if !env.knownLocally {
      if Find(s.entries, req.imsi).Some? {
        FindCurrent(s, req.imsi);
        ForwardKeeps(s, s.given, Find(s.entries, req.imsi).value, req, env.connect1);
      } else {
        var e := NewEntry(req.imsi);
        var s1 := Put(s, e);
        NewEntryKeeps(s, s.given, req.imsi);
        if env.gateway.Some? {
          ResolvedKeeps(s1, s.given, e, env.gateway.value, env.connect1);
          var s2 := Resolved(s1, e, env.gateway.value, env.connect1);
          FindCurrent(s2, req.imsi);
          ForwardKeeps(s2, s.given, Find(s2.entries, req.imsi).value, req, env.connect2);
        } else if env.lookupActive {
          ForwardKeeps(s1, s.given, e, req, env.connect1);
        }
      }
    }
  }

  lemma {:induction false} ArriveKeeps(s: State, req: Req, env: Env)
    requires Inv(s) && req.nr == |s.given| && ValidId(Imsi, req.imsi)
    ensures Inv(Arrive(s, req, env))
  {
    CheckForwardKeeps(s, req, env);
    var (handled, s') := CheckForward(s, req, env);
    if !handled {
      LeaveKeepsQueue(s'.pending, s'.log, s.given, Unhandled(req));
    }
  }

  lemma {:induction false} LookupDoneKeeps(s: State, imsi: ImsiText, addr: Option<Addr>, canConnect: bool)
    requires Inv(s)
    ensures Inv(LookupDone(s, imsi, addr, canConnect))
  {
    if addr.None? {
      DelSubscrKeeps(s, s.given, imsi);
    } else if Find(s.entries, imsi).Some? {
      FindCurrent(s, imsi);
      ResolvedKeeps(s, s.given, Find(s.entries, imsi).value, addr.value, canConnect);
    }
  }

  lemma {:induction false} RunCallbacksKeeps(s: State, addr: Addr, n: nat)
    requires QueueInv(s.pending, s.log, s.given) && KeyExcept(s, addr)
    requires n > 0 || Key(s)
    ensures var s' := RunCallbacks(s, addr, n);
            && QueueInv(s'.pending, s'.log, s'.given) && Key(s')
            && s' == s.(pending := s'.pending, log := s'.log)
    decreases n
  {
    if n > 0 {
      ConnectCbFlushes(s, s.given, s.entries, addr, Some(addr));
      FlushKeepsKey(s, s.given, addr, Some(addr));
      RunCallbacksKeeps(ConnectCb(s, s.entries, addr, Some(addr)), addr, n - 1);
    }
  }

  lemma {:induction false} LinkUpKeeps(s: State, addr: Addr)
    requires Inv(s)
    ensures Inv(LinkUp(s, addr))
  {
    if addr in s.links {
      var s1 := s.(links := s.links[addr := s.links[addr].(up := true)]);
      forall i | 0 <= i < |s.pending|
        ensures HasAddr(s1, s.pending[i].imsi, addr) || Awaited(s1, s.pending[i].imsi)
        ensures s.links[addr].callbacks == 0 ==> Awaited(s1, s.pending[i].imsi)
      {
        assert Awaited(s, s.pending[i].imsi);
      }
      RunCallbacksKeeps(s1, addr, s.links[addr].callbacks);
      var s2, s3 := RunCallbacks(s1, addr, s.links[addr].callbacks), LinkUp(s, addr);
      forall i | 0 <= i < |s3.pending| ensures Awaited(s3, s3.pending[i].imsi) {
        assert Awaited(s2, s2.pending[i].imsi);
      }
    }
  }

  lemma {:induction false} LinkDownKeeps(s: State, addr: Addr)
    requires Inv(s)
    ensures Inv(LinkDown(s, addr)) && Inv(LinkLost(s, addr))
  {
    forall i | 0 <= i < |s.pending|
      ensures Awaited(LinkDown(s, addr), s.pending[i].imsi) && Awaited(LinkLost(s, addr), s.pending[i].imsi)
    {
      assert Awaited(s, s.pending[i].imsi);
    }
  }

  lemma {:induction false} ConcludeProven(seen: seq<Seen>, imsi: ImsiText, d: CnDomain, st: DomainState, destination: Name, via: Name)
    requires Proven(seen, imsi, d, st)
    ensures Proven(seen + [LuResult(imsi, destination)], imsi, d, Conclude(st, destination, via))
  {
    var x := LuResult(imsi, destination);
    DomainProvenGrows(seen, x, imsi, d, st);
    if destination == st.preliminary && destination != [] {
      var i :| 0 <= i < |seen| && seen[i] == LuRequest(imsi, d, destination);
      assert (seen + [x])[i] == seen[i] && (seen + [x])[|seen|] == x;
    }
  }

  lemma {:induction false} InsertDataKeeps(s: State, e: Entry, msisdn: seq<Octet>)
    requires Inv(s) && Find(s.entries, e.imsi) == Some(e)
    ensures Inv(Put(s, e.(msisdn := msisdn)))
  {
    CurrentProven(s, e);
    PutProven(s, e.(msisdn := msisdn));
    PutSameAddr(s, e.(msisdn := msisdn));
  }

  lemma {:induction false} ResultKeeps(s: State, e: Entry, destination: Name, via: Name)
    requires Inv(s) && Find(s.entries, e.imsi) == Some(e)
    ensures var s' := s.(seen := s.seen + [LuResult(e.imsi, destination)]);
            Inv(Put(s', e.(cs := Conclude(e.cs, destination, via), ps := Conclude(e.ps, destination, via))))
  {
    var s' := s.(seen := s.seen + [LuResult(e.imsi, destination)]);
    var e' := e.(cs := Conclude(e.cs, destination, via), ps := Conclude(e.ps, destination, via));
    CurrentProven(s, e);
    AllProvenGrows(s, LuResult(e.imsi, destination));
    ConcludeProven(s.seen, e.imsi, CS, e.cs, destination, via);
    ConcludeProven(s.seen, e.imsi, PS, e.ps, destination, via);
    PutProven(s', e');
    assert Key(s');
    PutSameAddr(s', e');
  }

  lemma {:induction false} FromRemoteKeeps(s: State, imsi: ImsiText, msg: RemoteMsg, destination: Name, peer: Option<Name>)
    requires Inv(s)
    ensures Inv(FromRemote(s, imsi, msg, destination, peer))
  {
    if Find(s.entries, imsi).Some? && peer.Some? {
      var e := Find(s.entries, imsi).value;
      if msg.InsertData? && msg.msisdn.Some? {
        InsertDataKeeps(s, e, msg.msisdn.value);
      } else if msg.UpdateLocationResult? {
        ResultKeeps(s, e, destination, if peer.value == destination then [] else peer.value);
      }
    }
  }

  lemma {:induction false} CleanupKeeps(s: State)
    requires Inv(s)
    ensures Inv(s.(entries := FreshOnes(s.entries, s.now)))
  {
    var s' := s.(entries := FreshOnes(s.entries, s.now));
    forall i | 0 <= i < |s'.entries| ensures s'.entries[i] in s.entries {
      FreshMembers(s.entries, s.now, i);
    }
    FewerProven(s, s'.entries);
    FindFresh(s.entries, s.now, []);
    forall i | 0 <= i < |s.pending| ensures Awaited(s', s.pending[i].imsi) {
      FindFresh(s.entries, s.now, s.pending[i].imsi);
      assert Awaited(s, s.pending[i].imsi);
    }
  }

  lemma {:induction false} StepKeeps(s: State, ev: Event)
    requires Inv(s) && Possible(s, ev)
    ensures Inv(Step(s, ev))
  {
    match ev {
      case Request(req, env) => ArriveKeeps(s, req, env);
      case Lookup(imsi, found, canConnect) => LookupDoneKeeps(s, imsi, found, canConnect);
      case Up(addr) => LinkUpKeeps(s, addr);
      case Down(addr) => LinkDownKeeps(s, addr);
      case Lost(addr) => LinkDownKeeps(s, addr);
      case Remote(imsi, msg, destination, peer) => FromRemoteKeeps(s, imsi, msg, destination, peer);
      case Cleanup => CleanupKeeps(s);
      case Clock(now) =>
        forall i | 0 <= i < |s.pending| ensures Awaited(Step(s, ev), s.pending[i].imsi) {
          assert Awaited(s, s.pending[i].imsi);
        }
    }
  }

  lemma {:induction false} RunKeeps(evs: seq<Event>)
    requires PossibleRun(evs)
    ensures Inv(Run(evs))
  {
    if evs != [] {
      RunKeeps(evs[..|evs| - 1]);
      StepKeeps(Run(evs[..|evs| - 1]), evs[|evs| - 1]);
    }
  }

  // ---- What holds in every run ----

  /**
   Between events, a request is never left in the queue while the link to the HLR
   of its IMSI is up, and the requests of each IMSI are sent in the order of their
   arrival, although forwarding skips the queue when the link is up.
   */
  lemma {:induction false} RequestsLeaveInOrder(evs: seq<Event>, imsi: ImsiText, addr: Addr)
    requires PossibleRun(evs)
    ensures var s := Run(evs);
            && (HasAddr(s, imsi, addr) && IsUp(s, addr) ==> !Waiting(s.pending, imsi))
            && SentInOrder(s.log) && SentBefore(s.log, s.pending) && Increasing(s.pending)
  {
    RunKeeps(evs);
    var s := Run(evs);
    if HasAddr(s, imsi, addr) && IsUp(s, addr) {
      UpMeansNoneDeferred(s, imsi, addr);
    }
  }

  lemma {:induction false} OnceGiven(given: seq<Req>, k: nat)
    requires Numbered(given) && k < |given|
    ensures multiset(given)[given[k]] == 1
    decreases |given|
  {
    var n := |given| - 1;
    assert given == given[..n] + [given[n]];
    if k < n {
      OnceGiven(given[..n], k);
      assert given[k] != given[n];
    } else {
      assert given[n] !in given[..n];
    }
  }

  /**
   Conservation: every request given to D-GSM is in exactly one place, once. It is
   deferred, or it was sent on, refused with an error, or returned to the caller.
   */
  lemma {:induction false} ExactlyOnePlace(evs: seq<Event>, k: nat)
    requires PossibleRun(evs) && k < |Run(evs).given|
    ensures var s := Run(evs); multiset(s.pending)[s.given[k]] + multiset(Reqs(s.log))[s.given[k]] == 1
  {
    RunKeeps(evs);
    OnceGiven(Run(evs).given, k);
  }

  /**
   D-GSM returns false exactly for requests of local subscribers, and of unknown
   ones when there is neither an entry nor a way to look for one. It has then
   neither kept nor consumed anything.
   */
  lemma {:induction false} FalseMeansUntouched(s: State, req: Req, env: Env)
    requires ValidId(Imsi, req.imsi)
    ensures var (handled, s') := CheckForward(s, req, env);
            && (!handled <==>
                  (env.knownLocally || (Find(s.entries, req.imsi).None? && env.gateway.None? && !env.lookupActive)))
            && (!handled ==> s'.pending == s.pending && s'.log == s.log)
  {
  }

  /** The only obstacle to a lookup is the IMSI itself. */
  predicate Undispatchable(s: State, req: Req, env: Env) {
    && !ValidId(Imsi, req.imsi) && req.source.Ipa?
    && !env.knownLocally && Find(s.entries, req.imsi).None? && env.gateway.None? && env.lookupActive
  }

  lemma {:induction false} UndispatchableIsRefused(s: State, req: Req, env: Env)
    requires Undispatchable(s, req, env)
    ensures var (handled, s') := CheckForward(s, req, env);
            !handled && |s'.log| > |s.log| && Refuse(req, GMM_CAUSE_IMSI_UNKNOWN) in s'.log
  {
    var s1 := Put(s, NewEntry(req.imsi));
    var s2 := Forward(s1, NewEntry(req.imsi), req, env.connect1).1;
    assert s2.pending == s.pending + [req];
    assert s2.pending[..|s2.pending| - 1] == s.pending;
    var m := Mine(s2.pending, req.imsi);
    assert m[|m| - 1] == req;
    var os := Outcomes(m, None);
    assert os[|m| - 1] == Refuse(req, GMM_CAUSE_IMSI_UNKNOWN);
    assert os[|m| - 1] in os;
    assert DelSubscr(s2, req.imsi).log == s2.log + os;
  }

  /**
   The validation of IMSIs is what makes this so. Over all requests, validated or not, D-GSM
   returns false after it has consumed something exactly when the IMSI alone stands in the
   way of a lookup: the request is then answered with an error and returned to the caller.
   */
  lemma {:induction false} UnvalidatedIsHandledTwice(s: State, req: Req, env: Env)
    ensures var (handled, s') := CheckForward(s, req, env);
            && (!handled && !(s'.pending == s.pending && s'.log == s.log) <==> Undispatchable(s, req, env))
            && (Undispatchable(s, req, env) ==> Refuse(req, GMM_CAUSE_IMSI_UNKNOWN) in s'.log)
  {
    if Undispatchable(s, req, env) {
      UndispatchableIsRefused(s, req, env);
    }
  }

  /**
   In every run there is at most one entry per IMSI, and its CS (PS) VLR name is
   empty or a name from which a CS (PS) Update Location Request for that IMSI came
   and to which an Update Location Result was routed later.
   */
  lemma {:induction false} VlrNamesAreProven(evs: seq<Event>, i: nat)
    requires PossibleRun(evs) && i < |Run(evs).entries|
    ensures var s := Run(evs);
            && Unique(s.entries)
            && (s.entries[i].cs.vlrName == [] || LuConcluded(s.seen, s.entries[i].imsi, CS, s.entries[i].cs.vlrName))
            && (s.entries[i].ps.vlrName == [] || LuConcluded(s.seen, s.entries[i].imsi, PS, s.entries[i].ps.vlrName))
  {
    RunKeeps(evs);
  }

  // ---- Deferred requests do leave ----

  lemma {:induction false} MineComplete(pending: seq<Req>, req: Req)
    requires req in pending
    ensures req in Mine(pending, req.imsi)
    decreases |pending|
  {
    var init, last := pending[..|pending| - 1], pending[|pending| - 1];
    if last != req {
      assert pending == init + [last];
      MineComplete(init, req);
    }
  }

  lemma {:induction false} NotMineComplete(pending: seq<Req>, imsi: ImsiText, req: Req)
    requires req in pending && req.imsi != imsi
    ensures req in NotMine(pending, imsi)
    decreases |pending|
  {
    var init, last := pending[..|pending| - 1], pending[|pending| - 1];
    if last != req {
      assert pending == init + [last];
      NotMineComplete(init, imsi, req);
    }
  }

  lemma {:induction false} PopAnswers(s: State, imsi: ImsiText, to: Option<Addr>, req: Req)
    requires req in s.pending
    ensures var s' := Pop(s, imsi, to);
            s.log <= s'.log && if req.imsi == imsi then ConnectResult(req, to) in s'.log else req in s'.pending
  {
    if req.imsi == imsi {
      MineComplete(s.pending, req);
      var m := Mine(s.pending, imsi);
      var i :| 0 <= i < |m| && m[i] == req;
      assert Outcomes(m, to)[i] == ConnectResult(req, to);
      assert ConnectResult(req, to) in Outcomes(m, to);
    } else {
      NotMineComplete(s.pending, imsi, req);
    }
  }

  /** The callback gives every deferred request of an entry with the address its outcome. */
  lemma {:induction false} ConnectCbAnswers(s: State, es: seq<Entry>, addr: Addr, to: Option<Addr>, req: Req, k: nat)
    requires req in s.pending || ConnectResult(req, to) in s.log
    requires k <= |es| && (k < |es| ==> es[k].addr == Some(addr) && es[k].imsi == req.imsi)
    ensures var s' := ConnectCb(s, es, addr, to);
            s.log <= s'.log && (k < |es| || ConnectResult(req, to) in s.log ==> ConnectResult(req, to) in s'.log)
    decreases |es|
  {
    if es != [] {
      var s1 := if es[0].addr == Some(addr) then Pop(s, es[0].imsi, to) else s;
      if req in s.pending && es[0].addr == Some(addr) {
        PopAnswers(s, es[0].imsi, to, req);
      }
      ConnectCbAnswers(s1, es[1..], addr, to, req,
                       if k > 0 then k - 1 else if ConnectResult(req, to) in s1.log then |es| - 1 else 0);
    }
  }

  lemma {:induction false} RunCallbacksLog(s: State, addr: Addr, n: nat, req: Req)
    requires ConnectResult(req, Some(addr)) in s.log
    ensures ConnectResult(req, Some(addr)) in RunCallbacks(s, addr, n).log
    decreases n
  {
    if n > 0 {
      ConnectCbAnswers(s, s.entries, addr, Some(addr), req, |s.entries|);
      RunCallbacksLog(ConnectCb(s, s.entries, addr, Some(addr)), addr, n - 1, req);
    }
  }

  lemma {:induction false} LinkUpAnswers(s: State, addr: Addr, i: nat)
    requires Inv(s) && addr in s.links && i < |s.pending| && HasAddr(s, s.pending[i].imsi, addr)
    ensures ConnectResult(s.pending[i], Some(addr)) in LinkUp(s, addr).log
  {
    var req := s.pending[i];
    assert Awaited(s, req.imsi);
    var s1 := s.(links := s.links[addr := s.links[addr].(up := true)]);
    var k := FindAt(s.entries, req.imsi);
    var n := s.links[addr].callbacks;
    ConnectCbAnswers(s1, s1.entries, addr, Some(addr), req, k);
    RunCallbacksLog(ConnectCb(s1, s1.entries, addr, Some(addr)), addr, n - 1, req);
  }

  /**
   When a link comes up, every request that is deferred for an IMSI with its address
   leaves at once: it is sent there if its source has a name and it can be encoded, and
   refused with a network failure if not. The link has no callbacks left.
   */
  lemma {:induction false} LinkUpFlushes(s: State, addr: Addr, i: nat)
    requires Inv(s) && addr in s.links && i < |s.pending| && HasAddr(s, s.pending[i].imsi, addr)
    ensures var req, s' := s.pending[i], Step(s, Up(addr));
            && !Waiting(s'.pending, req.imsi) && s'.links == s.links[addr := Link(true, 0)]
            && (req.source.Ipa? && req.encodable ==> Sent(req, addr) in s'.log)
            && (!(req.source.Ipa? && req.encodable) ==>
                  Refused(req, GMM_CAUSE_NET_FAIL, !req.kind.NoRequest?) in s'.log)
  {
    LinkUpAnswers(s, addr, i);
    LinkUpKeeps(s, addr);
    LinkUpEntries(s, addr);
    UpMeansNoneDeferred(LinkUp(s, addr), s.pending[i].imsi, addr);
  }

  /** A request for an IMSI whose link is up is sent there as it arrives, and nothing is deferred before or after. */
  lemma {:induction false} UpForwardsAtOnce(s: State, req: Req, env: Env, addr: Addr)
    requires Inv(s) && Possible(s, Request(req, env))
    requires HasAddr(s, req.imsi, addr) && IsUp(s, addr) && req.source.Ipa? && !env.knownLocally
    ensures var s' := Step(s, Request(req, env));
            && s'.pending == s.pending && !Waiting(s.pending, req.imsi) && s'.links == s.links
            && s'.log == s.log + [if req.encodable then Sent(req, addr)
                                  else Refused(req, GMM_CAUSE_NET_FAIL, !req.kind.NoRequest?)]
  {
    UpMeansNoneDeferred(s, req.imsi, addr);
  }

  predicate SameVlrNames(s: State, s': State, imsi: ImsiText) {
    var before, after := Find(s.entries, imsi), Find(s'.entries, imsi);
    before.Some? && after.Some? ==>
      after.value.cs.vlrName == before.value.cs.vlrName && after.value.ps.vlrName == before.value.ps.vlrName
  }

  lemma {:induction false} GetOrConnectEntries(s: State, addr: Addr, canConnect: bool)
    ensures GetOrConnect(s, addr, canConnect).entries == s.entries
  {
    ConnectCbEntries(s, s.entries, addr, Some(addr));
    ConnectCbEntries(s, s.entries, addr, None);
  }

  lemma {:induction false} AcknowledgeVlrNames(s: State, e: Entry, req: Req, imsi: ImsiText)
    requires Current(s, e) && e.imsi == req.imsi && req.source.Ipa?
    ensures SameVlrNames(s, Acknowledge(s, e, req), imsi)
  {
    if req.kind.UpdateLocationRequest? {
      var x := LuRequest(req.imsi, req.domain, req.source.name);
      FindPut(s.(seen := s.seen + [x]), Preliminary(e, req.domain, req.source.name), imsi);
    }
  }

  lemma {:induction false} ForwardVlrNames(s: State, e: Entry, req: Req, canConnect: bool, imsi: ImsiText)
    requires Current(s, e) && e.imsi == req.imsi
    ensures SameVlrNames(s, Forward(s, e, req, canConnect).1, imsi)
  {
    if req.source.Ipa? {
      AcknowledgeVlrNames(s, e, req, imsi);
      if e.addr.Some? {
        GetOrConnectEntries(Defer(Acknowledge(s, e, req), req), e.addr.value, canConnect);
      }
    }
  }

  /** A resolved address changes neither which entries there are nor their VLR names. */
  lemma {:induction false} ResolvedVlrNames(s: State, e: Entry, addr: Addr, canConnect: bool, imsi: ImsiText)
    requires Current(s, e)
    ensures SameVlrNames(s, Resolved(s, e, addr, canConnect), imsi)
    ensures Find(Resolved(s, e, addr, canConnect).entries, imsi).Some? <==> Find(s.entries, imsi).Some?
  {
    var e' := e.(addr := Some(addr));
    FindPut(s, e', imsi);
    GetOrConnectEntries(Put(s, e'), addr, canConnect);
  }

  lemma {:induction false} CheckForwardVlrNames(s: State, req: Req, env: Env, imsi: ImsiText)
    requires Inv(s) && req.nr == |s.given| && ValidId(Imsi, req.imsi)
    ensures SameVlrNames(s, CheckForward(s, req, env).1, imsi)
  {
    if !env.knownLocally && Find(s.entries, req.imsi).Some? {
      FindCurrent(s, req.imsi);
      ForwardVlrNames(s, Find(s.entries, req.imsi).value, req, env.connect1, imsi);
    } else if !env.knownLocally {
      var e := NewEntry(req.imsi);
      var s1 := Put(s, e);
      NewEntryKeeps(s, s.given, req.imsi);
      FindPut(s, e, imsi);
      if env.gateway.Some? {
        var s2 := Resolved(s1, e, env.gateway.value, env.connect1);
        ResolvedVlrNames(s1, e, env.gateway.value, env.connect1, imsi);
        ResolvedKeeps(s1, s.given, e, env.gateway.value, env.connect1);
        FindCurrent(s2, req.imsi);
        ForwardVlrNames(s2, Find(s2.entries, req.imsi).value, req, env.connect2, imsi);
      } else if env.lookupActive {
        ForwardVlrNames(s1, e, req, env.connect1, imsi);
      }
    }
  }

  /** Only an Update Location Result for an IMSI changes its VLR names; a failed attempt leaves them as they are. */
  lemma {:induction false} OnlyResultsMoveVlrNames(s: State, ev: Event, imsi: ImsiText)
    requires Inv(s) && Possible(s, ev)
    requires !(ev.Remote? && ev.imsi == imsi && ev.msg.UpdateLocationResult?)
    ensures SameVlrNames(s, Step(s, ev), imsi)
  {
    match ev {
      case Request(req, env) =>
        CheckForwardVlrNames(s, req, env, imsi);
      case Lookup(x, found, canConnect) =>
        if found.None? {
          FindDelete(s.entries, x, imsi);
        } else if Find(s.entries, x).Some? {
          FindCurrent(s, x);
          ResolvedVlrNames(s, Find(s.entries, x).value, found.value, canConnect, imsi);
        }
      case Up(addr) =>
        LinkUpEntries(s, addr);
      case Remote(x, msg, destination, peer) =>
        FromRemoteVlrNames(s, x, msg, destination, peer, imsi);
      case Cleanup =>
        FindFresh(s.entries, s.now, imsi);
      case Down(_) =>
      case Lost(_) =>
      case Clock(_) =>
    }
  }

  lemma {:induction false} ConnectCbEntries(s: State, es: seq<Entry>, addr: Addr, to: Option<Addr>)
    ensures ConnectCb(s, es, addr, to).entries == s.entries
    decreases |es|
  {
    if es != [] {
      ConnectCbEntries(if es[0].addr == Some(addr) then Pop(s, es[0].imsi, to) else s, es[1..], addr, to);
    }
  }

  lemma {:induction false} RunCallbacksEntries(s: State, addr: Addr, n: nat)
    ensures RunCallbacks(s, addr, n).entries == s.entries
    decreases n
  {
    if n > 0 {
      ConnectCbEntries(s, s.entries, addr, Some(addr));
      RunCallbacksEntries(ConnectCb(s, s.entries, addr, Some(addr)), addr, n - 1);
    }
  }

  lemma {:induction false} LinkUpEntries(s: State, addr: Addr)
    ensures LinkUp(s, addr).entries == s.entries
  {
    if addr in s.links {
      RunCallbacksEntries(s.(links := s.links[addr := s.links[addr].(up := true)]), addr, s.links[addr].callbacks);
    }
  }

  lemma {:induction false} FromRemoteVlrNames(s: State, x: ImsiText, msg: RemoteMsg, destination: Name, peer: Option<Name>, imsi: ImsiText)
    requires x != imsi || !msg.UpdateLocationResult?
    ensures SameVlrNames(s, FromRemote(s, x, msg, destination, peer), imsi)
  {
    if Find(s.entries, x).Some? && peer.Some? {
      var e := Find(s.entries, x).value;
      var via := if peer.value == destination then [] else peer.value;
      if msg.InsertData? && msg.msisdn.Some? {
        FindPut(s, e.(msisdn := msg.msisdn.value), imsi);
      } else if msg.UpdateLocationResult? {
        FindPut(s.(seen := s.seen + [LuResult(x, destination)]),
                e.(cs := Conclude(e.cs, destination, via), ps := Conclude(e.ps, destination, via)), imsi);
      }
    }
  }
}
