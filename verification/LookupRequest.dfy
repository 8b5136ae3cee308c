/**
 One lookup request: the result handling of mslookup_client.c. The invocations
 of result_cb() and the timer delays are kept as histories.
 */
module LookupRequest {
  import opened Octets
  import opened Mdns

  datatype Rc = RcNone | RcResult | RcNotFound

  datatype Result = Result(rc: Rc, age: U32, v4: Host, v6: Host)

  const NoResult := Result(RcNone, 0, NoHost, NoHost)

  datatype Callback = Callback(result: Result, last: bool)

  datatype Lookup = Lookup(
    minWait: U32, timeout: U32,
    waiting: bool, result: Result, live: bool,
    calls: seq<Callback>, delays: seq<nat>)

  const DEFAULT_TIMEOUT: U32 := 1000

  function Start(minWait: U32, timeout: U32): Lookup {
    var t0 := if timeout == 0 then minWait else timeout;
    var t := if t0 == 0 then DEFAULT_TIMEOUT else t0;
    Lookup(minWait, t, minWait != 0, NoResult, true, [], [if minWait != 0 then minWait else t])
  }

  /** osmo_mslookup_request_send_result() */
  function Send(r: Lookup, finish: bool): Lookup {
    r.(calls := r.calls + [Callback(r.result, finish)], live := r.live && !finish)
  }

  /** osmo_mslookup_client_rx_result() for a request that exists. */
  function RxResult(r: Lookup, result: Result): Lookup {
    if result.rc != RcResult then r
    else if r.result.rc == RcResult && result.age >= r.result.age then r
    else
      var r' := r.(result := result);
      if result.age == 0 then Send(r', true)
      else if r.waiting then r'
      else Send(r', false)
  }

  /** timeout_cb(); `timeout - minWait` is taken only where it is positive. */
  function TimeoutCb(r: Lookup): Lookup {
    if r.waiting then
      var r' := r.(waiting := false);
      if r.timeout <= r.minWait then
        Send(if r.result.rc == RcResult then r' else r'.(result := r.result.(rc := RcNotFound)), true)
      else
        var r'' := if r.result.rc == RcResult then Send(r', false) else r';
        r''.(delays := r.delays + [r.timeout - r.minWait])
    else
      Send(r.(result := r.result.(rc := if r.result.rc == RcResult then RcNone else RcNotFound)), true)
  }

  /** set_timer(): seconds and microseconds. */
  function SplitDelay(ms: nat): (t: (nat, nat))
    ensures t.0 * 1_000_000 + t.1 == ms * 1000 && t.1 < 1_000_000
  {
    (ms / 1000, ms % 1000 * 1000)
  }

  // ---- Runs ----

  datatype Event = Rx(result: Result) | Timer

  /** A finished request has been freed: nothing can reach it any more. */
  function Step(r: Lookup, e: Event): Lookup {
    if !r.live then r
    else match e
      case Rx(result) => RxResult(r, result)
      case Timer => TimeoutCb(r)
  }

  function Run(r: Lookup, es: seq<Event>): Lookup {
    if es == [] then r else Step(Run(r, es[..|es| - 1]), es[|es| - 1])
  }

  /** The ages of the results that were delivered strictly decrease. */
  predicate Younger(calls: seq<Callback>) {
    forall i, j :: 0 <= i < j < |calls| && calls[i].result.rc == RcResult && calls[j].result.rc == RcResult ==>
      calls[j].result.age < calls[i].result.age
  }

  /** No callback follows the last one. */
  predicate LastIsLast(calls: seq<Callback>) {
    forall i :: 0 <= i < |calls| && calls[i].last ==> i == |calls| - 1
  }

  predicate Concluded(calls: seq<Callback>) {
    calls != [] && calls[|calls| - 1].last
  }

  ghost predicate Inv(r: Lookup) {
    && Younger(r.calls) && LastIsLast(r.calls)
    && (!r.live <==> Concluded(r.calls))
    && (r.live ==>
          && r.result.rc != RcNotFound
          && (r.result.rc == RcResult ==> r.result.age > 0)
          && (r.waiting ==> r.calls == [] && r.minWait > 0)
          && (r.result.rc == RcNone ==> r.calls == [])
          && (forall i :: 0 <= i < |r.calls| ==> r.calls[i].result.rc == RcResult && r.calls[i].result.age >= r.result.age)
          && (!r.waiting && r.result.rc == RcResult ==> r.calls != [] && r.calls[|r.calls| - 1] == Callback(r.result, false)))
  }

  lemma {:induction false} RxKeepsInv(r: Lookup, result: Result)
    requires Inv(r) && r.live
    ensures Inv(RxResult(r, result))
  {
    var r' := RxResult(r, result);
    if |r'.calls| > |r.calls| {
      assert r'.calls == r.calls + [Callback(result, result.age == 0)];
    }
  }

  lemma {:induction false} TimeoutKeepsInv(r: Lookup)
    requires Inv(r) && r.live
    ensures Inv(TimeoutCb(r))
  {
  }

  lemma {:induction false} StepKeepsInv(r: Lookup, e: Event)
    requires Inv(r)
    ensures Inv(Step(r, e))
  {
    if r.live {
      if e.Timer? {
        TimeoutKeepsInv(r);
      } else {
        RxKeepsInv(r, e.result);
      }
    }
  }

  lemma {:induction false} RunKeepsInv(r: Lookup, es: seq<Event>)
    requires Inv(r)
    ensures Inv(Run(r, es))
  {
    if es != [] {
      RunKeepsInv(r, es[..|es| - 1]);
      StepKeepsInv(Run(r, es[..|es| - 1]), es[|es| - 1]);
    }
  }

  /**
   Whatever the order of results and timer events, the ages of the delivered
   results strictly decrease and nothing follows a callback that is marked last;
   such a callback has been made exactly when the request is finished.
   */
  lemma {:induction false} CallbackDiscipline(minWait: U32, timeout: U32, es: seq<Event>)
    ensures var r := Run(Start(minWait, timeout), es);
            && Younger(r.calls) && LastIsLast(r.calls)
            && (!r.live <==> Concluded(r.calls))
  {
    RunKeepsInv(Start(minWait, timeout), es);
  }

  /**
   A live request that is made to give its last callback at once, with whatever result it
   holds, delivers a result a second time exactly when it is past its minimum wait and
   holds one. In every other case the ages of the delivered results still decrease.
   */
  lemma {:induction false} ForcedEnd(minWait: U32, timeout: U32, es: seq<Event>)
    requires Run(Start(minWait, timeout), es).live
    ensures var r := Run(Start(minWait, timeout), es);
            && (Younger(Send(r, true).calls) <==> r.waiting || r.result.rc != RcResult)
            && LastIsLast(Send(r, true).calls) && Concluded(Send(r, true).calls)
  {
    var r := Run(Start(minWait, timeout), es);
    RunKeepsInv(Start(minWait, timeout), es);
    var calls, n := Send(r, true).calls, |r.calls|;
    assert calls == r.calls + [Callback(r.result, true)];
    if !r.waiting && r.result.rc == RcResult {
      assert calls[n - 1].result == calls[n].result;
    } else {
      assert Younger(calls);
    }
  }

  /** Such a request: no minimum wait, and one result, which is delivered twice. */
  lemma {:induction false} ForcedEndRepeats(v4: Host)
    ensures var result := Result(RcResult, 5, v4, NoHost);
            var r := Run(Start(0, 1000), [Rx(result)]);
            r.live && Send(r, true).calls == [Callback(result, false), Callback(result, true)]
  {
    var e := Rx(Result(RcResult, 5, v4, NoHost));
    assert [e][..0] == [];
  }

  // ---- Timers ----

  function Timers(es: seq<Event>): nat {
    if es == [] then 0 else Timers(es[..|es| - 1]) + if es[|es| - 1].Timer? then 1 else 0
  }

  function Sum(ds: seq<nat>): nat {
    if ds == [] then 0 else Sum(ds[..|ds| - 1]) + ds[|ds| - 1]
  }

  function Max(a: nat, b: nat): nat {
    if a >= b then a else b
  }

  predicate AnyAgeZero(es: seq<Event>) {
    exists i :: 0 <= i < |es| && es[i].Rx? && es[i].result.rc == RcResult && es[i].result.age == 0
  }

  /** How much waiting is left after the timer that is running now. */
  function StillToArm(r: Lookup): nat {
    if r.live && r.waiting && r.timeout > r.minWait then r.timeout - r.minWait else 0
  }

  lemma {:induction false} TimerRun(r0: Lookup, es: seq<Event>)
    requires r0.live && r0.waiting == (r0.minWait != 0) && r0.delays != []
    requires r0.delays[0] == if r0.waiting then r0.minWait else r0.timeout
    requires |r0.delays| == 1
    ensures var r := Run(r0, es);
            && r.minWait == r0.minWait && r.timeout == r0.timeout
            && (r.live ==> Timers(es) == if r0.waiting && !r.waiting then 1 else 0)
            && (r.live ==> r.waiting ==> r0.waiting)
            && (!AnyAgeZero(es) ==> Sum(r.delays) + StillToArm(r) == if r0.waiting then Max(r.minWait, r.timeout) else r.timeout)
  {
    if es == [] {
      assert r0.delays[..0] == [];
    } else {
      var before, e := es[..|es| - 1], es[|es| - 1];
      TimerRun(r0, before);
      var r, r' := Run(r0, before), Run(r0, es);
      if !AnyAgeZero(es) {
        assert !AnyAgeZero(before);
        assert e.Rx? && e.result.rc == RcResult ==> e.result.age != 0;
        if r'.delays != r.delays {
          assert r'.delays[..|r.delays|] == r.delays;
        }
      }
    }
  }

  /** A request that nobody cancels is finished after at most two timer events. */
  lemma {:induction false} TwoTimersFinish(minWait: U32, timeout: U32, es: seq<Event>)
    requires Timers(es) >= 2
    ensures var r := Run(Start(minWait, timeout), es);
            !r.live && Concluded(r.calls)
  {
    TimerRun(Start(minWait, timeout), es);
    RunKeepsInv(Start(minWait, timeout), es);
  }

  /**
   When a request runs out without a result of age zero, the delays that were
   armed add up to exactly the longer of the two times, after the defaults.
   */
  lemma {:induction false} DelaysAddUp(minWait: U32, timeout: U32, es: seq<Event>)
    requires !AnyAgeZero(es)
    ensures var r := Run(Start(minWait, timeout), es);
            !r.live ==> Sum(r.delays) == Max(r.minWait, r.timeout) &&
                        r.timeout == if timeout != 0 then timeout else if minWait != 0 then minWait else 1000
  {
    TimerRun(Start(minWait, timeout), es);
  }

  // ---- Waiting for the youngest result ----

  function Successes(es: seq<Event>): seq<Result> {
    if es == [] then []
    else
      var e := es[|es| - 1];
      Successes(es[..|es| - 1]) + if e.Rx? && e.result.rc == RcResult then [e.result] else []
  }

  /** The first of the results of least age. */
  ghost predicate FirstYoungest(rs: seq<Result>, best: Result) {
    exists k :: 0 <= k < |rs| && FirstYoungestAt(rs, best, k)
  }

  ghost predicate FirstYoungestAt(rs: seq<Result>, best: Result, k: nat)
    requires k < |rs|
  {
    && rs[k] == best
    && (forall j :: 0 <= j < |rs| ==> best.age <= rs[j].age)
    && (forall j :: 0 <= j < k ==> best.age < rs[j].age)
  }

  lemma {:induction false} FirstYoungestSnoc(rs: seq<Result>, best: Result, r: Result)
    requires FirstYoungest(rs, best)
    ensures FirstYoungest(rs + [r], if r.age < best.age then r else best)
  {
    var k :| 0 <= k < |rs| && FirstYoungestAt(rs, best, k);
    var all := rs + [r];
    if r.age < best.age {
      assert FirstYoungestAt(all, r, |rs|);
    } else {
      assert FirstYoungestAt(all, best, k);
    }
  }

  /** While only results arrive, the request holds the first youngest; age zero ends it at once. */
  ghost predicate Holding(r: Lookup, rs: seq<Result>) {
    && (rs == [] ==> r.live && r.calls == [] && r.result.rc == RcNone)
    && (rs != [] ==> r.result.rc == RcResult && FirstYoungest(rs, r.result))
    && (r.live ==> r.waiting && r.calls == [])
    && (!r.live ==> rs != [] && r.result.age == 0 && r.calls == [Callback(r.result, true)])
  }

  lemma {:induction false} HoldsYoungest(r0: Lookup, es: seq<Event>)
    requires r0.live && r0.waiting && r0.calls == [] && r0.result == NoResult
    requires Timers(es) == 0
    ensures Holding(Run(r0, es), Successes(es))
  {
    if es != [] {
      var before, e := es[..|es| - 1], es[|es| - 1];
      HoldsYoungest(r0, before);
      var r, rs := Run(r0, before), Successes(before);
      if e.result.rc == RcResult {
        if rs == [] {
          assert rs + [e.result] == [e.result];
          assert FirstYoungestAt([e.result], e.result, 0);
        } else {
          FirstYoungestSnoc(rs, r.result, e.result);
        }
      } else {
        assert rs + [] == rs;
      }
    }
  }

  /**
   The D-GSM case, where the overall timeout is not longer than the minimum wait:
   the request makes exactly one callback. It carries the first-arriving result of
   least age among all successful results, or "not found" when there was none.
   */
  lemma {:induction false} ExactlyOneCallback(minWait: U32, timeout: U32, es: seq<Event>, later: seq<Event>)
    requires minWait != 0 && timeout <= minWait && Timers(es) == 0
    ensures var r := Run(Start(minWait, timeout), es + [Timer] + later);
            && |r.calls| == 1 && r.calls[0].last
            && if Successes(es) == [] then r.calls[0].result.rc == RcNotFound
               else FirstYoungest(Successes(es), r.calls[0].result)
  {
    var r0 := Start(minWait, timeout);
    HoldsYoungest(r0, es);
    TimerRun(r0, es);
    var fired := es + [Timer];
    assert fired[..|es|] == es;
    RunFinished(r0, fired, later);
  }

  lemma {:induction false} RunFinished(r0: Lookup, es: seq<Event>, later: seq<Event>)
    requires !Run(r0, es).live
    ensures Run(r0, es + later) == Run(r0, es)
    decreases |later|
  {
    if later == [] {
      assert es + later == es;
    } else {
      var all := es + later;
      assert all[..|all| - 1] == es + later[..|later| - 1];
      RunFinished(r0, es, later[..|later| - 1]);
    }
  }

  lemma {:induction false} SameLeastAge(rs: seq<Result>, rs': seq<Result>, best: Result, best': Result)
    requires multiset(rs) == multiset(rs') && FirstYoungest(rs, best) && FirstYoungest(rs', best')
    ensures best.age == best'.age
  {
    var k :| 0 <= k < |rs| && FirstYoungestAt(rs, best, k);
    var k' :| 0 <= k' < |rs'| && FirstYoungestAt(rs', best', k');
    assert best in multiset(rs') && best' in multiset(rs);
    var i :| 0 <= i < |rs'| && rs'[i] == best;
    var i' :| 0 <= i' < |rs| && rs[i'] == best';
  }

  /**
   The order of arrival does not matter: of two requests that receive the same successful
   results in different orders, with whatever else in between, either both find nothing,
   or their single callbacks carry the same age.
   */
  lemma {:induction false} LeastAgeIsOrderFree(minWait: U32, timeout: U32, es: seq<Event>, es': seq<Event>,
                                               later: seq<Event>, later': seq<Event>)
    requires minWait != 0 && timeout <= minWait && Timers(es) == 0 && Timers(es') == 0
    requires multiset(Successes(es)) == multiset(Successes(es'))
    ensures var calls := Run(Start(minWait, timeout), es + [Timer] + later).calls;
            var calls' := Run(Start(minWait, timeout), es' + [Timer] + later').calls;
            && |calls| == |calls'| == 1
            && if Successes(es) == [] then calls[0].result.rc == calls'[0].result.rc == RcNotFound
               else calls[0].result.age == calls'[0].result.age
  {
    ExactlyOneCallback(minWait, timeout, es, later);
    ExactlyOneCallback(minWait, timeout, es', later');
    var rs, rs' := Successes(es), Successes(es');
    assert |rs| == |multiset(rs)| && |rs'| == |multiset(rs')|;
    if rs != [] {
      SameLeastAge(rs, rs', Run(Start(minWait, timeout), es + [Timer] + later).calls[0].result,
                   Run(Start(minWait, timeout), es' + [Timer] + later').calls[0].result);
    }
  }

  /** A result of age zero ends a request at once, whatever it was waiting for, and nothing follows. */
  lemma {:induction false} AgeZeroEnds(minWait: U32, timeout: U32, es: seq<Event>, result: Result, later: seq<Event>)
    requires Run(Start(minWait, timeout), es).live && result.rc == RcResult && result.age == 0
    ensures var r := Run(Start(minWait, timeout), es + [Rx(result)] + later);
            !r.live && r.calls == Run(Start(minWait, timeout), es).calls + [Callback(result, true)]
  {
    var r0, all := Start(minWait, timeout), es + [Rx(result)];
    assert all[..|es|] == es;
    RunKeepsInv(r0, es);
    RunFinished(r0, all, later);
  }

  // ---- What a request has told when it ends ----

  /** The best of the results so far is on record. */
  ghost predicate OnRecord(r: Lookup, rs: seq<Result>) {
    if rs == [] then r.result.rc != RcResult else r.result.rc == RcResult && FirstYoungest(rs, r.result)
  }

  lemma {:induction false} KeepsYoungest(r0: Lookup, es: seq<Event>)
    requires r0.live && r0.result == NoResult && Run(r0, es).live
    ensures OnRecord(Run(r0, es), Successes(es))
  {
    if es != [] {
      var before, e := es[..|es| - 1], es[|es| - 1];
      KeepsYoungest(r0, before);
      RecordStep(Run(r0, before), Successes(before), e);
    }
  }

  /** Each event leaves the youngest result on record, or takes it away only with a final callback. */
  lemma {:induction false} RecordStep(r: Lookup, rs: seq<Result>, e: Event)
    requires r.live && OnRecord(r, rs)
    ensures var rs' := rs + if e.Rx? && e.result.rc == RcResult then [e.result] else [];
            Step(r, e).live || e.Rx? ==> OnRecord(Step(r, e), rs')
  {
    if e.Rx? && e.result.rc == RcResult {
      if rs == [] {
        assert rs + [e.result] == [e.result];
        assert FirstYoungestAt([e.result], e.result, 0);
      } else {
        FirstYoungestSnoc(rs, r.result, e.result);
      }
    } else {
      assert rs + [] == rs;
    }
  }

  /** What the callbacks have told about the results. */
  ghost predicate Told(calls: seq<Callback>, rs: seq<Result>) {
    && Concluded(calls)
    && (calls[|calls| - 1].result.rc == RcNotFound <==> rs == [])
    && (rs != [] ==> exists i :: 0 <= i < |calls| && calls[i].result.rc == RcResult && FirstYoungest(rs, calls[i].result))
  }

  lemma {:induction false} EndedByResult(r: Lookup, rs: seq<Result>, result: Result)
    requires r.live && OnRecord(r, rs) && !RxResult(r, result).live
    ensures Told(RxResult(r, result).calls, rs + [result])
  {
    RecordStep(r, rs, Rx(result));
    var calls := RxResult(r, result).calls;
    assert calls[|calls| - 1].result == result;
  }

  lemma {:induction false} EndedByTimer(r: Lookup, rs: seq<Result>)
    requires Inv(r) && r.live && OnRecord(r, rs) && !TimeoutCb(r).live
    ensures Told(TimeoutCb(r).calls, rs)
  {
    var calls := TimeoutCb(r).calls;
    var n := |calls| - 1;
    if rs != [] {
      assert calls[if r.waiting then n else n - 1].result == r.result;
    }
  }

  /**
   When an event ends a request, the last callback says "not found" exactly when no
   successful result has been received; otherwise the first youngest of all
   successful results has been delivered, now or before.
   */
  lemma {:induction false} ConclusionTells(minWait: U32, timeout: U32, es: seq<Event>, e: Event)
    requires Run(Start(minWait, timeout), es).live && !Run(Start(minWait, timeout), es + [e]).live
    ensures Told(Run(Start(minWait, timeout), es + [e]).calls, Successes(es + [e]))
  {
    var r0, all := Start(minWait, timeout), es + [e];
    assert all[..|es|] == es;
    var r, rs := Run(r0, es), Successes(es);
    KeepsYoungest(r0, es);
    RunKeepsInv(r0, es);
    if e.Rx? {
      EndedByResult(r, rs, e.result);
    } else {
      EndedByTimer(r, rs);
      assert rs + [] == rs;
    }
  }
}
