/**
 The location update of the HLR: lu_fsm.c, with the ownership of requests from
 gsup_req.c.
 */
module LocationUpdate {
  import opened Octets
  import opened Gsup

  /** An Update Location Request; `nr` numbers them in the order of arrival. */
  datatype Req = Req(nr: nat, imsi: ImsiText, cs: bool, source: Peer, via: Peer)

  datatype Subscriber = Subscriber(namCs: bool, namPs: bool, vlr: Name, sgsn: Name, vlrVia: Name, sgsnVia: Name)

  predicate Permitted(sub: Subscriber, isPs: bool) {
    if isPs then sub.namPs else sub.namCs
  }

  datatype FsmState = Unvalidated | WaitInsertDataResult

  /** A location update in progress; `req` is cleared when the request has been answered. */
  datatype Lu = Lu(imsi: ImsiText, isPs: bool, vlr: Peer, via: Peer, req: Option<nat>, fsm: FsmState)

  datatype Response = Result | Error(cause: int) | InsertData

  /** What happened: a name was written to the database for a subscriber, or a response was sent. */
  datatype Done =
    | Recorded(nr: nat, imsi: ImsiText, sub: Subscriber, isPs: bool, name: Name)
    | Responded(nr: nat, response: Response)

  /** `done` and `given` are histories. */
  datatype State = State(all: seq<Lu>, db: map<ImsiText, Subscriber>, done: seq<Done>, given: seq<Req>)

  const Initial := State([], map[], [], [])

  /** A response to the request of an LU, if it still has one. A final one clears it and ends the LU. */
  function Finish(s: State, i: nat, response: Response): State
    requires i < |s.all|
  {
    s.(all := s.all[..i] + s.all[i + 1..],
       done := if s.all[i].req.Some? then s.done + [Responded(s.all[i].req.value, response)] else s.done)
  }

  /** What the rest of the program makes of it: the database write, the encoding and the sending of messages. */
  datatype Env = Env(dbWrites: bool, encodes: bool, sends: bool)

  /** db_subscr_lu(): the name and the proxy of one domain. */
  function Write(sub: Subscriber, isPs: bool, name: Name, via: Peer): Subscriber {
    var proxy := if via.Ipa? then via.name else [];
    if isPs then sub.(sgsn := name, sgsnVia := proxy) else sub.(vlr := name, vlrVia := proxy)
  }

  /** Why lu_start() refuses a request before it touches the database. */
  function Refusal(s: State, lu: Lu): Option<int> {
    if IsEmpty(lu.vlr) then Some(GMM_CAUSE_NET_FAIL)
    else if lu.imsi !in s.db then Some(GMM_CAUSE_IMSI_UNKNOWN)
    else if !lu.isPs && !s.db[lu.imsi].namCs then Some(GMM_CAUSE_PLMN_NOTALLOWED)
    else if lu.isPs && !s.db[lu.imsi].namPs then Some(GMM_CAUSE_GPRS_NOTALLOWED)
    else if IsEmpty(lu.vlr) || !lu.vlr.Ipa? then Some(GMM_CAUSE_PROTO_ERR_UNSPEC)
    else if !IsEmpty(lu.via) && !lu.via.Ipa? then Some(GMM_CAUSE_PROTO_ERR_UNSPEC)
    else None
  }

  /** lu_fsm_wait_insert_data_result_onenter() */
  function EnterWait(s: State, i: nat, env: Env): State
    requires i < |s.all|
  {
    var s' := s.(all := s.all[i := s.all[i].(fsm := WaitInsertDataResult)]);
    if !env.encodes then Finish(s', i, Error(GMM_CAUSE_NET_FAIL))
    else if s.all[i].req.None? || !env.sends then Finish(s', i, Error(GMM_CAUSE_NET_FAIL))
    else s'.(done := s'.done + [Responded(s.all[i].req.value, InsertData)])
  }

  /** lu_start(): the new LU goes to the head of the list; packet switched is the default. */
  function Start(s: State, req: Req, env: Env): State {
    var lu := Lu(req.imsi, !req.cs, req.source, req.via, Some(req.nr), Unvalidated);
    var s1 := s.(all := [lu] + s.all, given := s.given + [req]);
    match Refusal(s, lu)
    case Some(cause) => Finish(s1, 0, Error(cause))
    case None =>
      if !env.dbWrites then Finish(s1, 0, Error(GMM_CAUSE_NET_FAIL))
      else
        var sub := s.db[lu.imsi];
        var s2 := s1.(db := s.db[lu.imsi := Write(sub, lu.isPs, lu.vlr.name, lu.via)],
                      done := s.done + [Recorded(req.nr, lu.imsi, sub, lu.isPs, lu.vlr.name)]);
        EnterWait(s2, 0, env)
  }

  function IndexOf(all: seq<Lu>, imsi: ImsiText, k: nat): (i: int)
    requires k <= |all|
    ensures -1 <= i < |all| && (i >= 0 ==> k <= i && all[i].imsi == imsi)
    ensures forall j :: k <= j < |all| && (i < 0 || j < i) ==> all[j].imsi != imsi
    decreases |all| - k
  {
    if k == |all| then -1 else if all[k].imsi == imsi then k else IndexOf(all, imsi, k + 1)
  }

  datatype Answer = InsertDataResult | InsertDataError | OtherMessage

  /** lu_rx_gsup() for other messages: the first LU for the IMSI gets it, if its state lets it. */
  function Rx(s: State, imsi: ImsiText, msg: Answer): State {
    var i := IndexOf(s.all, imsi, 0);
    if i < 0 || s.all[i].fsm.Unvalidated? then s
    else match msg
      case InsertDataResult => Finish(s, i, Result)
      case InsertDataError => Finish(s, i, Error(GMM_CAUSE_NET_FAIL))
      case OtherMessage => s
  }

  /** lu_fsm_timer_cb(), or lu_fsm_cleanup() from outside; these use the session management cause. */
  function Terminate(s: State, i: nat): State {
    if i < |s.all| then Finish(s, i, Error(GSM_CAUSE_NET_FAIL)) else s
  }

  datatype Event =
    | UpdateLocation(req: Req, env: Env)
    | Message(imsi: ImsiText, msg: Answer)
    | Timeout(index: nat)
    | Abort(index: nat)
    | Database(db: map<ImsiText, Subscriber>)

  predicate Possible(s: State, e: Event) {
    e.UpdateLocation? ==> e.req.nr == |s.given|
  }

  /** Timeouts and the end of the program reach a single LU; others may change the database at any time. */
  function Step(s: State, e: Event): State {
    match e
    case UpdateLocation(req, env) => Start(s, req, env)
    case Message(imsi, msg) => Rx(s, imsi, msg)
    case Timeout(i) => Terminate(s, i)
    case Abort(i) => Terminate(s, i)
    case Database(db) => s.(db := db)
  }

  function Run(es: seq<Event>): State {
    if es == [] then Initial else Step(Run(es[..|es| - 1]), es[|es| - 1])
  }

  predicate PossibleRun(es: seq<Event>) {
    es != [] ==> PossibleRun(es[..|es| - 1]) && Possible(Run(es[..|es| - 1]), es[|es| - 1])
  }

  // ---- What every step keeps ----

  /** The requests that are owned by LU instances. */
  function Owned(all: seq<Lu>): multiset<nat> {
    if all == [] then multiset{}
    else (if all[0].req.Some? then multiset{all[0].req.value} else multiset{}) + Owned(all[1..])
  }

  /** The requests that have had a final response. */
  function Answered(done: seq<Done>): multiset<nat> {
    if done == [] then multiset{}
    else
      var d := done[|done| - 1];
      Answered(done[..|done| - 1]) +
      if d.Responded? && !d.response.InsertData? then multiset{d.nr} else multiset{}
  }

  function Upto(n: nat): multiset<nat> {
    if n == 0 then multiset{} else Upto(n - 1) + multiset{n - 1}
  }

  predicate Conserved(s: State) {
    Owned(s.all) + Answered(s.done) == Upto(|s.given|)
  }

  lemma {:induction false} OwnedWithout(all: seq<Lu>, i: nat)
    requires i < |all|
    ensures Owned(all) == Owned(all[..i] + all[i + 1..]) + if all[i].req.Some? then multiset{all[i].req.value} else multiset{}
    decreases |all|
  {
    var rest := all[..i] + all[i + 1..];
    if i == 0 {
      assert rest == all[1..];
    } else {
      OwnedWithout(all[1..], i - 1);
      assert rest[0] == all[0] && rest[1..] == all[1..][..i - 1] + all[1..][i..];
    }
  }

  lemma {:induction false} AnsweredSnoc(done: seq<Done>, d: Done)
    ensures Answered(done + [d]) ==
            Answered(done) + if d.Responded? && !d.response.InsertData? then multiset{d.nr} else multiset{}
  {
    assert (done + [d])[..|done|] == done;
  }

  lemma {:induction false} FinishConserves(s: State, i: nat, response: Response)
    requires Conserved(s) && i < |s.all| && !response.InsertData?
    ensures Conserved(Finish(s, i, response))
  {
    var s' := Finish(s, i, response);
    var mine := if s.all[i].req.Some? then multiset{s.all[i].req.value} else multiset{};
    assert Owned(s.all) == Owned(s'.all) + mine by {
      OwnedWithout(s.all, i);
    }
    assert Answered(s'.done) == Answered(s.done) + mine by {
      if s.all[i].req.Some? {
        AnsweredSnoc(s.done, Responded(s.all[i].req.value, response));
      }
    }
  }

  /** The name of the requester of this LU was written for a subscriber that exists and may use the domain. */
  predicate RecordedFor(done: seq<Done>, k: nat, given: seq<Req>, nr: nat) {
    && k < |done| && nr < |given| && done[k].Recorded? && done[k].nr == nr
    && done[k].imsi == given[nr].imsi && done[k].isPs == !given[nr].cs
    && given[nr].source == Ipa(done[k].name) && done[k].name != []
    && Permitted(done[k].sub, done[k].isPs)
  }

  predicate WasRecorded(done: seq<Done>, upto: nat, given: seq<Req>, nr: nat) {
    exists k :: 0 <= k < upto && RecordedFor(done, k, given, nr)
  }

  predicate Validated(s: State, lu: Lu) {
    && lu.fsm.WaitInsertDataResult?
    && (lu.req.Some? ==> WasRecorded(s.done, |s.done|, s.given, lu.req.value))
  }

  predicate Numbered(given: seq<Req>) {
    forall i :: 0 <= i < |given| ==> given[i].nr == i
  }

  /** All LUs but number `but` have been validated; -1 for all of them. */
  predicate AllValidated(s: State, but: int) {
    forall i :: 0 <= i < |s.all| && i != but ==> Validated(s, s.all[i])
  }

  predicate IsResult(d: Done) {
    d.Responded? && d.response.Result?
  }

  predicate ResultsRecorded(s: State) {
    forall j :: 0 <= j < |s.done| && IsResult(s.done[j]) ==> WasRecorded(s.done, j, s.given, s.done[j].nr)
  }

  predicate Inv(s: State) {
    Conserved(s) && Numbered(s.given) && AllValidated(s, -1) && ResultsRecorded(s)
  }

  lemma {:induction false} RecordStays(done: seq<Done>, upto: nat, given: seq<Req>, nr: nat, done': seq<Done>, given': seq<Req>, upto': nat)
    requires WasRecorded(done, upto, given, nr) && done <= done' && given <= given' && upto <= upto'
    ensures WasRecorded(done', upto', given', nr)
  {
    var k :| 0 <= k < upto && RecordedFor(done, k, given, nr);
    assert RecordedFor(done', k, given', nr);
  }

  lemma {:induction false} ValidatedStays(s: State, s': State, lu: Lu)
    requires Validated(s, lu) && s.done <= s'.done && s.given <= s'.given
    ensures Validated(s', lu)
  {
    if lu.req.Some? {
      RecordStays(s.done, |s.done|, s.given, lu.req.value, s'.done, s'.given, |s'.done|);
    }
  }

  lemma {:induction false} AllValidatedStays(s: State, s': State, but: int)
    requires AllValidated(s, but) && s'.all == s.all && s.done <= s'.done && s.given <= s'.given
    ensures AllValidated(s', but)
  {
    forall i | 0 <= i < |s.all| && i != but ensures Validated(s', s.all[i]) {
      ValidatedStays(s, s', s.all[i]);
    }
  }

  /** More requests keep the results recorded. */
  lemma {:induction false} ResultsStay(s: State, s': State)
    requires ResultsRecorded(s) && s.given <= s'.given && s'.done == s.done
    ensures ResultsRecorded(s')
  {
    forall j | 0 <= j < |s.done| && IsResult(s.done[j]) ensures WasRecorded(s'.done, j, s'.given, s.done[j].nr) {
      RecordStays(s.done, j, s.given, s.done[j].nr, s'.done, s'.given, j);
    }
  }

  /** A new result has to have its record. */
  lemma {:induction false} ResultsGrow(s: State, s': State, d: Done)
    requires ResultsRecorded(s) && s'.given == s.given && s'.done == s.done + [d]
    requires IsResult(d) ==> WasRecorded(s.done, |s.done|, s.given, d.nr)
    ensures ResultsRecorded(s')
  {
    forall j | 0 <= j < |s'.done| && IsResult(s'.done[j]) ensures WasRecorded(s'.done, j, s'.given, s'.done[j].nr) {
      assert s'.done[j] == if j < |s.done| then s.done[j] else d;
      RecordStays(s.done, j, s.given, s'.done[j].nr, s'.done, s'.given, j);
    }
  }

  lemma {:induction false} FinishValidated(s: State, i: nat, response: Response)
    requires i < |s.all| && AllValidated(s, i)
    ensures AllValidated(Finish(s, i, response), -1)
  {
    var s' := Finish(s, i, response);
    forall k | 0 <= k < |s'.all| ensures Validated(s', s'.all[k]) {
      var lu := if k < i then s.all[k] else s.all[k + 1];
      assert s'.all[k] == lu;
      ValidatedStays(s, s', lu);
    }
  }

  /** An LU ends with a response; with a result only if its name has been recorded. */
  lemma {:induction false} FinishKeeps(s: State, i: nat, response: Response)
    requires i < |s.all| && Conserved(s) && Numbered(s.given) && AllValidated(s, i) && ResultsRecorded(s)
    requires !response.InsertData? && (response.Result? ==> Validated(s, s.all[i]))
    ensures Inv(Finish(s, i, response))
  {
    FinishConserves(s, i, response);
    FinishValidated(s, i, response);
    if s.all[i].req.Some? {
      ResultsGrow(s, Finish(s, i, response), Responded(s.all[i].req.value, response));
    } else {
      ResultsStay(s, Finish(s, i, response));
    }
  }

  lemma {:induction false} WaitConserves(s: State, i: nat, lu: Lu)
    requires i < |s.all| && Conserved(s) && lu.req == s.all[i].req
    ensures Conserved(s.(all := s.all[i := lu]))
  {
    var all := s.all[i := lu];
    OwnedWithout(s.all, i);
    OwnedWithout(all, i);
    assert all[..i] + all[i + 1..] == s.all[..i] + s.all[i + 1..];
  }

  lemma {:induction false} EnterWaitKeeps(s: State, i: nat, env: Env)
    requires i < |s.all| && Conserved(s) && Numbered(s.given) && AllValidated(s, i) && ResultsRecorded(s)
    requires s.all[i].req.Some? && WasRecorded(s.done, |s.done|, s.given, s.all[i].req.value)
    ensures Inv(EnterWait(s, i, env))
  {
    var lu := s.all[i].(fsm := WaitInsertDataResult);
    var s1 := s.(all := s.all[i := lu]);
    WaitConserves(s, i, lu);
    assert Validated(s1, lu);
    assert AllValidated(s1, -1) by {
      forall k | 0 <= k < |s1.all| ensures Validated(s1, s1.all[k]) {
        if k != i {
          ValidatedStays(s, s1, s.all[k]);
        }
      }
    }
    if env.encodes && env.sends {
      var d := Responded(s.all[i].req.value, InsertData);
      var s2 := s1.(done := s1.done + [d]);
      AnsweredSnoc(s1.done, d);
      ResultsGrow(s1, s2, d);
      AllValidatedStays(s1, s2, -1);
    } else {
      FinishKeeps(s1, i, Error(GMM_CAUSE_NET_FAIL));
    }
  }

  lemma {:induction false} NewLuConserves(s: State, lu: Lu, req: Req, s1: State)
    requires Conserved(s) && lu.req == Some(req.nr) && req.nr == |s.given|
    requires s1 == s.(all := [lu] + s.all, given := s.given + [req])
    ensures Conserved(s1)
  {
    assert s1.all[1..] == s.all;
    assert Owned(s1.all) == multiset{req.nr} + Owned(s.all);
    assert Upto(|s1.given|) == Upto(|s.given|) + multiset{|s.given|};
  }

  /** A new LU owns its request. */
  lemma {:induction false} NewLuOwns(s: State, lu: Lu, req: Req, s1: State)
    requires Inv(s) && lu.req == Some(req.nr) && req.nr == |s.given|
    requires s1 == s.(all := [lu] + s.all, given := s.given + [req])
    ensures Conserved(s1) && Numbered(s1.given) && AllValidated(s1, 0) && ResultsRecorded(s1)
  {
    NewLuConserves(s, lu, req, s1);
    ResultsStay(s, s1);
    forall k | 0 < k < |s1.all| ensures Validated(s1, s1.all[k]) {
      assert s1.all[k] == s.all[k - 1];
      ValidatedStays(s, s1, s.all[k - 1]);
    }
  }

  /** Then its name is recorded. */
  lemma {:induction false} RecordKeeps(s1: State, s2: State, d: Done)
    requires Conserved(s1) && AllValidated(s1, 0) && ResultsRecorded(s1)
    requires d.Recorded? && s2 == s1.(db := s2.db, done := s1.done + [d])
    ensures Conserved(s2) && AllValidated(s2, 0) && ResultsRecorded(s2)
  {
    AnsweredSnoc(s1.done, d);
    ResultsGrow(s1, s2, d);
    AllValidatedStays(s1, s2, 0);
  }

  lemma {:induction false} StartKeeps(s: State, req: Req, env: Env)
    requires Inv(s) && req.nr == |s.given|
    ensures Inv(Start(s, req, env))
  {
    var lu := Lu(req.imsi, !req.cs, req.source, req.via, Some(req.nr), Unvalidated);
    var s1 := s.(all := [lu] + s.all, given := s.given + [req]);
    NewLuOwns(s, lu, req, s1);
    if Refusal(s, lu).Some? {
      FinishKeeps(s1, 0, Error(Refusal(s, lu).value));
    } else if !env.dbWrites {
      FinishKeeps(s1, 0, Error(GMM_CAUSE_NET_FAIL));
    } else {
      var sub := s.db[lu.imsi];
      var d := Recorded(req.nr, lu.imsi, sub, lu.isPs, lu.vlr.name);
      var s2 := s1.(db := s.db[lu.imsi := Write(sub, lu.isPs, lu.vlr.name, lu.via)], done := s.done + [d]);
      RecordKeeps(s1, s2, d);
      assert RecordedFor(s2.done, |s.done|, s2.given, req.nr);
      EnterWaitKeeps(s2, 0, env);
    }
  }

  /** Every LU between events can be finished with any final response. */
  lemma {:induction false} InvFinish(s: State, i: nat, response: Response)
    requires Inv(s) && i < |s.all| && !response.InsertData?
    ensures Inv(Finish(s, i, response))
  {
    assert Validated(s, s.all[i]);
    FinishKeeps(s, i, response);
  }

  lemma {:induction false} RxKeeps(s: State, imsi: ImsiText, msg: Answer)
    requires Inv(s)
    ensures Inv(Rx(s, imsi, msg))
  {
    var i := IndexOf(s.all, imsi, 0);
    if i >= 0 && s.all[i].fsm.WaitInsertDataResult? && !msg.OtherMessage? {
      var response := if msg.InsertDataResult? then Result else Error(GMM_CAUSE_NET_FAIL);
      InvFinish(s, i, response);
      assert Rx(s, imsi, msg) == Finish(s, i, response);
    } else {
      assert Rx(s, imsi, msg) == s;
    }
  }

  lemma {:induction false} TerminateKeeps(s: State, i: nat)
    requires Inv(s)
    ensures Inv(Terminate(s, i))
  {
    if i < |s.all| {
      InvFinish(s, i, Error(GSM_CAUSE_NET_FAIL));
    }
  }

  lemma {:induction false} DatabaseKeeps(s: State, db: map<ImsiText, Subscriber>)
    requires Inv(s)
    ensures Inv(s.(db := db))
  {
    AllValidatedStays(s, s.(db := db), -1);
    ResultsStay(s, s.(db := db));
  }

  lemma {:induction false} StepKeeps(s: State, e: Event)
    requires Inv(s) && Possible(s, e)
    ensures Inv(Step(s, e))
  {
    match e {
      case UpdateLocation(req, env) => StartKeeps(s, req, env);
      case Message(imsi, msg) => RxKeeps(s, imsi, msg);
      case Timeout(i) => TerminateKeeps(s, i);
      case Abort(i) => TerminateKeeps(s, i);
      case Database(db) => DatabaseKeeps(s, db);
    }
  }

  lemma {:induction false} RunKeeps(es: seq<Event>)
    requires PossibleRun(es)
    ensures Inv(Run(es))
  {
    if es != [] {
      RunKeeps(es[..|es| - 1]);
      StepKeeps(Run(es[..|es| - 1]), es[|es| - 1]);
    }
  }

  // ---- What holds in every run ----

  lemma {:induction false} OnceUpto(n: nat, nr: nat)
    ensures Upto(n)[nr] == if nr < n then 1 else 0
  {
    if n > 0 {
      OnceUpto(n - 1, nr);
    }
  }

  /**
   In every reachable state, every Update Location Request is owned by exactly one
   LU instance that waits for the result, or has had exactly one final response,
   and not both.
   */
  lemma {:induction false} OwnedOrAnswered(es: seq<Event>, nr: nat)
    requires PossibleRun(es) && nr < |Run(es).given|
    ensures var s := Run(es);
            && Owned(s.all)[nr] + Answered(s.done)[nr] == 1
            && forall i :: 0 <= i < |s.all| ==> s.all[i].fsm.WaitInsertDataResult?
  {
    RunKeeps(es);
    OnceUpto(|Run(es).given|, nr);
  }

  /**
   A positive response means that, earlier in the same LU, the subscriber existed
   and was permitted in the domain of the request, and the name of the requester was
   recorded in the database.
   */
  lemma {:induction false} ResultMeansRecorded(es: seq<Event>, j: nat)
    requires PossibleRun(es)
    requires j < |Run(es).done| && IsResult(Run(es).done[j])
    ensures WasRecorded(Run(es).done, j, Run(es).given, Run(es).done[j].nr)
  {
    RunKeeps(es);
  }

  /** The peers have names, and the subscriber exists and may use the domain. */
  predicate Recordable(s: State, req: Req) {
    && req.source.Ipa? && req.source.name != [] && (IsEmpty(req.via) || req.via.Ipa?)
    && req.imsi in s.db && Permitted(s.db[req.imsi], !req.cs)
  }

  /** The condition under which an Update Location Request gets as far as waiting for the VLR. */
  predicate Acceptable(s: State, req: Req, env: Env) {
    Recordable(s, req) && env.dbWrites && env.encodes && env.sends
  }

  lemma {:induction false} FinishFirst(s: State, lu: Lu, rest: seq<Lu>, response: Response)
    requires s.all == [lu] + rest
    ensures Finish(s, 0, response).all == rest
  {
    assert s.all[..0] + s.all[1..] == rest;
  }

  lemma {:induction false} EnterWaitFirst(s: State, lu: Lu, rest: seq<Lu>, env: Env)
    requires s.all == [lu] + rest && lu.req.Some?
    ensures EnterWait(s, 0, env).all ==
            if env.encodes && env.sends then [lu.(fsm := WaitInsertDataResult)] + rest else rest
  {
    var lu' := lu.(fsm := WaitInsertDataResult);
    var s' := s.(all := s.all[0 := lu']);
    assert s'.all == [lu'] + rest;
    FinishFirst(s', lu', rest, Error(GMM_CAUSE_NET_FAIL));
  }

  lemma {:induction false} RefusalMeans(s: State, req: Req, lu: Lu)
    requires lu == Lu(req.imsi, !req.cs, req.source, req.via, Some(req.nr), Unvalidated)
    ensures Refusal(s, lu).None? <==> Recordable(s, req)
  {
  }

  /** The last responses when a request has come in. */
  lemma {:induction false} StartResponds(s: State, req: Req, env: Env, lu: Lu)
    requires lu == Lu(req.imsi, !req.cs, req.source, req.via, Some(req.nr), Unvalidated)
    ensures var done := Start(s, req, env).done;
            if !Recordable(s, req) then
              Refusal(s, lu).Some? && done == s.done + [Responded(req.nr, Error(Refusal(s, lu).value))]
            else if !env.dbWrites then
              done == s.done + [Responded(req.nr, Error(GMM_CAUSE_NET_FAIL))]
            else
              var recorded := Recorded(req.nr, req.imsi, s.db[req.imsi], !req.cs, req.source.name);
              done == s.done + [recorded] +
                [Responded(req.nr, if env.encodes && env.sends then InsertData else Error(GMM_CAUSE_NET_FAIL))]
  {
    RefusalMeans(s, req, lu);
  }

  /** What each refusal stands for; the numbers are those of Table 10.5.147 of 3GPP TS 24.008. */
  lemma {:induction false} CauseMeans(s: State, req: Req, lu: Lu)
    requires lu == Lu(req.imsi, !req.cs, req.source, req.via, Some(req.nr), Unvalidated)
    ensures Refusal(s, lu) == Some(0x11) <==> IsEmpty(req.source)
    ensures Refusal(s, lu) == Some(0x02) <==> !IsEmpty(req.source) && req.imsi !in s.db
    ensures Refusal(s, lu) == Some(0x0b) <==>
            !IsEmpty(req.source) && req.imsi in s.db && req.cs && !s.db[req.imsi].namCs
    ensures Refusal(s, lu) == Some(0x07) <==>
            !IsEmpty(req.source) && req.imsi in s.db && !req.cs && !s.db[req.imsi].namPs
    ensures Refusal(s, lu) == Some(0x6f) <==>
            && !IsEmpty(req.source) && req.imsi in s.db && Permitted(s.db[req.imsi], !req.cs)
            && (req.source.OtherPeer? || req.via.OtherPeer?)
  {
  }

  /** An acceptable request leaves its LU waiting at the head of the list, any other none. */
  lemma {:induction false} StartList(s: State, req: Req, env: Env)
    ensures Start(s, req, env).all ==
            if Acceptable(s, req, env)
            then [Lu(req.imsi, !req.cs, req.source, req.via, Some(req.nr), WaitInsertDataResult)] + s.all
            else s.all
  {
    var lu := Lu(req.imsi, !req.cs, req.source, req.via, Some(req.nr), Unvalidated);
    var s1 := s.(all := [lu] + s.all, given := s.given + [req]);
    RefusalMeans(s, req, lu);
    if !Recordable(s, req) {
      FinishFirst(s1, lu, s.all, Error(Refusal(s, lu).value));
    } else if !env.dbWrites {
      FinishFirst(s1, lu, s.all, Error(GMM_CAUSE_NET_FAIL));
    } else {
      var sub := s.db[lu.imsi];
      var s2 := s1.(db := s.db[lu.imsi := Write(sub, lu.isPs, lu.vlr.name, lu.via)],
                    done := s.done + [Recorded(req.nr, lu.imsi, sub, lu.isPs, lu.vlr.name)]);
      EnterWaitFirst(s2, lu, s.all, env);
    }
  }

  lemma {:induction false} StartWrites(s: State, req: Req, env: Env)
    ensures Start(s, req, env).db ==
            if Recordable(s, req) && env.dbWrites
            then s.db[req.imsi := Write(s.db[req.imsi], !req.cs, req.source.name, req.via)]
            else s.db
  {
  }

  /**
   A request is kept open exactly when its peers have names, the subscriber exists
   and may use the domain, and database, encoder and connection do their part.
   */
  lemma {:induction false} AcceptedIff(s: State, req: Req, env: Env)
    requires Inv(s) && req.nr == |s.given|
    ensures Owned(Start(s, req, env).all)[req.nr] == 1 <==> Acceptable(s, req, env)
  {
    OnceUpto(|s.given|, req.nr);
    assert Owned(s.all)[req.nr] == 0;
    StartList(s, req, env);
    var lu := Lu(req.imsi, !req.cs, req.source, req.via, Some(req.nr), WaitInsertDataResult);
    var waiting := [lu] + s.all;
    assert waiting[1..] == s.all;
    assert Owned(waiting)[req.nr] == 1;
  }

  /**
   The database changes only if the request is recordable: then the name of the
   requester and of its proxy, if there is one, stand there for its domain, and neither
   the other domain nor any other subscriber is touched.
   */
  lemma {:induction false} RecordedIff(s: State, req: Req, env: Env, s': State)
    requires s' == Start(s, req, env)
    ensures !(Recordable(s, req) && env.dbWrites) ==> s'.db == s.db
    ensures Recordable(s, req) && env.dbWrites ==>
              && s'.db.Keys == s.db.Keys
              && (var sub, sub' := s.db[req.imsi], s'.db[req.imsi];
                  var proxy := if IsEmpty(req.via) then [] else req.via.name;
                  if req.cs then sub' == sub.(vlr := req.source.name, vlrVia := proxy)
                  else sub' == sub.(sgsn := req.source.name, sgsnVia := proxy))
              && forall x :: x in s.db && x != req.imsi ==> s'.db[x] == s.db[x]
  {
    StartWrites(s, req, env);
  }

  /** Whatever the database holds by then decides, not what it held before. */
  lemma {:induction false} DatabaseDecides(s: State, db: map<ImsiText, Subscriber>, req: Req, env: Env)
    requires Inv(s) && req.nr == |s.given|
    ensures var s' := Step(Step(s, Database(db)), UpdateLocation(req, env));
            Owned(s'.all)[req.nr] == 1 <==>
              && req.source.Ipa? && req.source.name != [] && !req.via.OtherPeer?
              && req.imsi in db && (if req.cs then db[req.imsi].namCs else db[req.imsi].namPs)
              && env.dbWrites && env.encodes && env.sends
  {
    var s1 := s.(db := db);
    assert Inv(s1) by {
      DatabaseKeeps(s, db);
    }
    assert Owned(Start(s1, req, env).all)[req.nr] == 1 <==> Acceptable(s1, req, env) by {
      AcceptedIff(s1, req, env);
    }
  }

  /**
   The answer of the VLR decides: the first LU of the IMSI, and no other, ends with a
   positive response if the VLR confirms, and with an error if it does not.
   */
  lemma {:induction false} AnswerDecides(s: State, imsi: ImsiText, i: nat, nr: nat)
    requires Inv(s) && i < |s.all| && s.all[i].imsi == imsi && s.all[i].req == Some(nr)
    requires forall j :: 0 <= j < i ==> s.all[j].imsi != imsi
    ensures var s' := Rx(s, imsi, InsertDataResult);
            s'.done == s.done + [Responded(nr, Result)] && s'.all == s.all[..i] + s.all[i + 1..] && s'.db == s.db
    ensures var s' := Rx(s, imsi, InsertDataError);
            s'.done == s.done + [Responded(nr, Error(0x11))] && s'.all == s.all[..i] + s.all[i + 1..] && s'.db == s.db
    ensures Rx(s, imsi, OtherMessage) == s
  {
    assert Validated(s, s.all[i]);
  }

  /** Without an LU for the IMSI, an answer changes nothing. */
  lemma {:induction false} StrayAnswer(s: State, imsi: ImsiText, msg: Answer)
    requires forall j :: 0 <= j < |s.all| ==> s.all[j].imsi != imsi
    ensures Rx(s, imsi, msg) == s
  {
  }

  /** A timeout, or the end of an LU from outside, answers its request with the session management cause. */
  lemma {:induction false} TimeoutAnswers(s: State, i: nat, nr: nat)
    requires i < |s.all| && s.all[i].req == Some(nr)
    ensures forall e :: e == Timeout(i) || e == Abort(i) ==>
              && Step(s, e).done == s.done + [Responded(nr, Error(0x26))]
              && Step(s, e).all == s.all[..i] + s.all[i + 1..]
  {
  }

  /** A positive response is sent only when the VLR has just confirmed, to the first LU of that IMSI. */
  lemma {:induction false} ResultNeedsAnswer(s: State, e: Event, j: nat)
    requires Inv(s) && Possible(s, e)
    requires |s.done| <= j < |Step(s, e).done| && IsResult(Step(s, e).done[j])
    ensures e.Message? && e.msg == InsertDataResult
    ensures exists i :: 0 <= i < |s.all| && s.all[i].imsi == e.imsi && s.all[i].req == Some(Step(s, e).done[j].nr)
  {
    if e.UpdateLocation? {
      StartResponds(s, e.req, e.env, Lu(e.req.imsi, !e.req.cs, e.req.source, e.req.via, Some(e.req.nr), Unvalidated));
    } else if e.Message? {
      var i := IndexOf(s.all, e.imsi, 0);
      assert i >= 0;
    }
  }

  // ---- The list of location updates ----

  class LocationUpdates {
    var all: seq<Lu>
    var db: map<ImsiText, Subscriber>
    ghost var done: seq<Done>
    ghost var given: seq<Req>

    ghost function View(): State
      reads this
    {
      State(all, db, done, given)
    }

    constructor ()
      ensures View() == Initial && Inv(View())
    {
      all, db, done, given := [], map[], [], [];
    }

    /** lu_success() and lu_failure(), with the cleanup that takes the LU off the list. */
    method Respond(i: nat, response: Response)
      requires i < |all|
      modifies this`all, this`done
      ensures View() == Finish(old(View()), i, response)
    {
      if all[i].req.Some? {
        done := done + [Responded(all[i].req.value, response)];
      }
      all := all[..i] + all[i + 1..];
    }

    /**
     The checks of lu_start() before the database is written: what each refusal means,
     and that there is none exactly for recordable requests.
     */
    method Check(req: Req) returns (cause: Option<int>)
      ensures cause.None? <==> Recordable(View(), req)
      ensures cause == Some(GMM_CAUSE_NET_FAIL) <==> IsEmpty(req.source)
      ensures cause == Some(GMM_CAUSE_IMSI_UNKNOWN) <==> !IsEmpty(req.source) && req.imsi !in db
      ensures cause == Some(GMM_CAUSE_PLMN_NOTALLOWED) || cause == Some(GMM_CAUSE_GPRS_NOTALLOWED) <==>
              !IsEmpty(req.source) && req.imsi in db && !Permitted(db[req.imsi], !req.cs)
      ensures cause == Some(GMM_CAUSE_PLMN_NOTALLOWED) ==> req.cs
      ensures cause == Some(GMM_CAUSE_GPRS_NOTALLOWED) ==> !req.cs
      ensures cause == Some(GMM_CAUSE_PROTO_ERR_UNSPEC) <==>
              && !IsEmpty(req.source) && req.imsi in db && Permitted(db[req.imsi], !req.cs)
              && (req.source.OtherPeer? || req.via.OtherPeer?)
    {
      var lu := Lu(req.imsi, !req.cs, req.source, req.via, Some(req.nr), Unvalidated);
      if IsEmpty(lu.vlr) {
        return Some(GMM_CAUSE_NET_FAIL);
      }
      if lu.imsi !in db {
        return Some(GMM_CAUSE_IMSI_UNKNOWN);
      }
      var sub := db[lu.imsi];
      if !lu.isPs && !sub.namCs {
        return Some(GMM_CAUSE_PLMN_NOTALLOWED);
      }
      if lu.isPs && !sub.namPs {
        return Some(GMM_CAUSE_GPRS_NOTALLOWED);
      }
      if !lu.vlr.Ipa? || (!IsEmpty(lu.via) && !lu.via.Ipa?) {
        return Some(GMM_CAUSE_PROTO_ERR_UNSPEC);
      }
      cause := None;
    }

    /** lu_fsm_wait_insert_data_result_onenter() */
    method OnEnterWait(i: nat, env: Env)
      requires i < |all|
      modifies this`all, this`done
      ensures View() == EnterWait(old(View()), i, env)
    {
      all := all[i := all[i].(fsm := WaitInsertDataResult)];
      if !env.encodes || all[i].req.None? || !env.sends {
        Respond(i, Error(GMM_CAUSE_NET_FAIL));
      } else {
        done := done + [Responded(all[i].req.value, InsertData)];
      }
    }

    /** lu_start() */
    method LuStart(req: Req, env: Env)
      modifies this
      ensures View() == Start(old(View()), req, env)
    {
      var lu := Lu(req.imsi, !req.cs, req.source, req.via, Some(req.nr), Unvalidated);
      var cause := Check(req);
      all := [lu] + all;
      given := given + [req];
      if cause.Some? {
        Respond(0, Error(cause.value));
      } else if !env.dbWrites {
        Respond(0, Error(GMM_CAUSE_NET_FAIL));
      } else {
        var sub := db[lu.imsi];
        db := db[lu.imsi := Write(sub, lu.isPs, lu.vlr.name, lu.via)];
        done := done + [Recorded(req.nr, lu.imsi, sub, lu.isPs, lu.vlr.name)];
        OnEnterWait(0, env);
      }
    }

    /** A request that is numbered as it arrives keeps the list in order. */
    method UpdateLocationRequest(req: Req, env: Env)
      requires Inv(View()) && req.nr == |given|
      modifies this
      ensures View() == Start(old(View()), req, env) && Inv(View())
    {
      StartKeeps(View(), req, env);
      LuStart(req, env);
    }

    /** The search of lu_rx_gsup() for the LU of an IMSI. */
    method FindLu(imsi: ImsiText) returns (i: int)
      ensures i == IndexOf(all, imsi, 0)
    {
      i := 0;
      while i < |all|
        invariant 0 <= i <= |all|
        invariant IndexOf(all, imsi, 0) == IndexOf(all, imsi, i)
      {
        if all[i].imsi == imsi {
          return;
        }
        i := i + 1;
      }
      i := -1;
    }

    /**
     lu_rx_gsup() for answers of the VLR. A message is refused exactly when no LU is in
     progress for the IMSI, or when the LU does not expect such a message.
     */
    method LuRxGsup(imsi: ImsiText, msg: Answer) returns (refusal: Option<int>)
      requires Inv(View())
      modifies this
      ensures View() == Rx(old(View()), imsi, msg) && Inv(View())
      ensures refusal.None? <==> !msg.OtherMessage? && exists i :: 0 <= i < |old(all)| && old(all)[i].imsi == imsi
      ensures refusal.Some? ==> refusal == Some(GMM_CAUSE_MSGT_INCOMP_P_STATE) && View() == old(View())
    {
      RxKeeps(View(), imsi, msg);
      var i := FindLu(imsi);
      if i < 0 || msg.OtherMessage? {
        return Some(GMM_CAUSE_MSGT_INCOMP_P_STATE);
      }
      assert Validated(View(), all[i]);
      Respond(i, if msg.InsertDataResult? then Result else Error(GMM_CAUSE_NET_FAIL));
      refusal := None;
    }

    /** lu_fsm_timer_cb() */
    method TimerCb(i: nat)
      requires Inv(View()) && i < |all|
      modifies this
      ensures View() == Step(old(View()), Timeout(i)) && Inv(View())
    {
      StepKeeps(View(), Timeout(i));
      Respond(i, Error(GSM_CAUSE_NET_FAIL));
    }
  }
}
