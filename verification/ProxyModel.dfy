/**
 The D-GSM proxy: deferred requests, proxy entries and links to remote HLRs, as
 proxy.c, remote_hlr.c and dgsm.c update them.
 */
module ProxyModel {
  import opened Octets
  import opened LookupQuery
  import opened Gsup

  type Addr = nat          // a nonzero address and port

  // ---- Requests ----

  datatype CnDomain = CS | PS | OtherDomain
  datatype MsgKind = UpdateLocationRequest | OtherRequest | NoRequest

  /** `nr` numbers the requests in the order of arrival; `encodable` is the verdict of osmo_gsup_encode(). */
  datatype Req = Req(nr: nat, imsi: ImsiText, kind: MsgKind, domain: CnDomain, source: Peer, encodable: bool)

  /** What became of a request. An error is replied to requests only; anything else is freed silently. */
  datatype Outcome =
    | Sent(req: Req, to: Addr)
    | Refused(req: Req, cause: int, replied: bool)
    | Unhandled(req: Req)

  function Refuse(req: Req, cause: int): Outcome {
    Refused(req, cause, !req.kind.NoRequest?)
  }

  /** proxy_pending_req_remote_hlr_connect_result(); `to` is the address of a link that is up. */
  function ConnectResult(req: Req, to: Option<Addr>): (o: Outcome)
    ensures o.req == req
  {
    if to.None? then Refuse(req, GMM_CAUSE_IMSI_UNKNOWN)
    else if !req.source.Ipa? || !req.encodable then Refuse(req, GMM_CAUSE_NET_FAIL)
    else Sent(req, to.value)
  }

  // ---- State ----

  datatype DomainState = DomainState(vlrName: Name, preliminary: Name, viaProxy: Name)

  const NoVlr := DomainState([], [], [])

  datatype Entry = Entry(imsi: ImsiText, msisdn: seq<Octet>, addr: Option<Addr>, cs: DomainState, ps: DomainState, lastUpdate: int)

  /** A GSUP client to a remote HLR and the number of callbacks that wait for it to come up. */
  datatype Link = Link(up: bool, callbacks: nat)

  /** Update Location messages that went by. */
  datatype Seen = LuRequest(imsi: ImsiText, domain: CnDomain, name: Name) | LuResult(imsi: ImsiText, name: Name)

  /**
   `links` is keyed by address: a client is added only if none with its address is
   listed. `log`, `given` and `seen` are histories; `now` is the clock.
   */
  datatype State = State(
    entries: seq<Entry>, pending: seq<Req>, links: map<Addr, Link>,
    log: seq<Outcome>, given: seq<Req>, seen: seq<Seen>, now: int)

  // ---- Proxy entries ----

  function Find(entries: seq<Entry>, imsi: ImsiText): (r: Option<Entry>)
    ensures r.Some? ==> r.value.imsi == imsi
  {
    if entries == [] then None
    else if entries[0].imsi == imsi then Some(entries[0])
    else Find(entries[1..], imsi)
  }

  function Replace(entries: seq<Entry>, e: Entry): (r: seq<Entry>)
    ensures |r| == |entries|
    ensures forall i :: 0 <= i < |entries| ==> r[i].imsi == entries[i].imsi
  {
    if entries == [] then []
    else if entries[0].imsi == e.imsi then [e] + entries[1..]
    else [entries[0]] + Replace(entries[1..], e)
  }

  /** proxy_subscr_create_or_update(): new entries go to the head of the list. */
  function Put(s: State, e: Entry): State {
    var e' := e.(lastUpdate := s.now);
    s.(entries := if Find(s.entries, e.imsi).None? then [e'] + s.entries else Replace(s.entries, e'))
  }

  function Delete(entries: seq<Entry>, imsi: ImsiText): seq<Entry> {
    if entries == [] then []
    else if entries[0].imsi == imsi then entries[1..]
    else [entries[0]] + Delete(entries[1..], imsi)
  }

  const FRESH_TIME := 3600

  /** timestamp_age() gives an age that is not above the fresh time. */
  predicate IsFresh(e: Entry, now: int) {
    0 <= now - e.lastUpdate <= FRESH_TIME
  }

  function FreshOnes(entries: seq<Entry>, now: int): seq<Entry> {
    if entries == [] then []
    else if IsFresh(entries[0], now) then [entries[0]] + FreshOnes(entries[1..], now)
    else FreshOnes(entries[1..], now)
  }

  // ---- Deferred requests ----

  function Mine(pending: seq<Req>, imsi: ImsiText): seq<Req> {
    if pending == [] then []
    else Mine(pending[..|pending| - 1], imsi) + if pending[|pending| - 1].imsi == imsi then [pending[|pending| - 1]] else []
  }

  function NotMine(pending: seq<Req>, imsi: ImsiText): seq<Req> {
    if pending == [] then []
    else NotMine(pending[..|pending| - 1], imsi) + if pending[|pending| - 1].imsi == imsi then [] else [pending[|pending| - 1]]
  }

  function Outcomes(reqs: seq<Req>, to: Option<Addr>): (os: seq<Outcome>)
    ensures |os| == |reqs| && forall i :: 0 <= i < |reqs| ==> os[i] == ConnectResult(reqs[i], to)
  {
    seq(|reqs|, i requires 0 <= i < |reqs| => ConnectResult(reqs[i], to))
  }

  /** proxy_deferred_gsup_req_pop(): all requests of this IMSI leave, in the order in which they were deferred. */
  function Pop(s: State, imsi: ImsiText, to: Option<Addr>): State {
    s.(pending := NotMine(s.pending, imsi), log := s.log + Outcomes(Mine(s.pending, imsi), to))
  }

  function Defer(s: State, req: Req): State {
    s.(pending := s.pending + [req])
  }

  predicate Waiting(pending: seq<Req>, imsi: ImsiText) {
    exists i :: 0 <= i < |pending| && pending[i].imsi == imsi
  }

  /** proxy_subscr_del() */
  function DelSubscr(s: State, imsi: ImsiText): State {
    var s' := Pop(s, imsi, None);
    s'.(entries := Delete(s.entries, imsi))
  }

  // ---- Links ----

  /** proxy_remote_hlr_connect_result_cb() over the rest of the entry list. */
  function ConnectCb(s: State, entries: seq<Entry>, addr: Addr, to: Option<Addr>): State
    decreases |entries|
  {
    if entries == [] then s
    else if entries[0].addr == Some(addr) then ConnectCb(Pop(s, entries[0].imsi, to), entries[1..], addr, to)
    else ConnectCb(s, entries[1..], addr, to)
  }

  /** remote_hlr_get_or_connect() with the proxy's callback; a new client is never up at once. */
  function GetOrConnect(s: State, addr: Addr, canConnect: bool): State {
    if addr in s.links then
      if s.links[addr].up then ConnectCb(s, s.entries, addr, Some(addr))
      else s.(links := s.links[addr := Link(false, s.links[addr].callbacks + 1)])
    else if !canConnect then ConnectCb(s, s.entries, addr, None)
    else s.(links := s.links[addr := Link(false, 1)])
  }

  function IsUp(s: State, addr: Addr): bool {
    addr in s.links && s.links[addr].up
  }

  /** remote_hlr_up_down(up): every waiting callback runs once. */
  function RunCallbacks(s: State, addr: Addr, n: nat): State
    decreases n
  {
    if n == 0 then s else RunCallbacks(ConnectCb(s, s.entries, addr, Some(addr)), addr, n - 1)
  }

  function LinkUp(s: State, addr: Addr): State {
    if addr !in s.links then s
    else
      var s' := s.(links := s.links[addr := s.links[addr].(up := true)]);
      RunCallbacks(s', addr, s.links[addr].callbacks).(links := s.links[addr := Link(true, 0)])
  }

  /** remote_hlr_up_down(down): the client and its callbacks go away. */
  function LinkDown(s: State, addr: Addr): State {
    s.(links := s.links - {addr})
  }

  /** The client loses its connection without telling, and keeps trying. */
  function LinkLost(s: State, addr: Addr): State {
    if addr in s.links then s.(links := s.links[addr := s.links[addr].(up := false)]) else s
  }

  // ---- Towards the home HLR ----

  /** proxy_subscr_remote_hlr_resolved() */
  function Resolved(s: State, e: Entry, addr: Addr, canConnect: bool): State {
    if e.addr == Some(addr) then s
    else
      var s' := Put(s, e.(addr := Some(addr)));
      if Waiting(s'.pending, e.imsi) then GetOrConnect(s', addr, canConnect) else s'
  }

  function Preliminary(e: Entry, domain: CnDomain, name: Name): Entry {
    match domain
    case CS => e.(cs := e.cs.(preliminary := name))
    case PS => e.(ps := e.ps.(preliminary := name))
    case OtherDomain => e
  }

  /** proxy_acknowledge_gsup_to_remote_hlr() for a peer that has an IPA name. */
  function Acknowledge(s: State, e: Entry, req: Req): State
    requires req.source.Ipa?
  {
    if !req.kind.UpdateLocationRequest? then s
    else
      var s' := s.(seen := s.seen + [LuRequest(req.imsi, req.domain, req.source.name)]);
      var e' := Preliminary(e, req.domain, req.source.name);
      if e'.cs.preliminary == e.cs.preliminary && e'.ps.preliminary == e.ps.preliminary then s' else Put(s', e')
  }

  /** proxy_subscr_forward_to_remote_hlr(): whether the message was denied, and the new state. */
  function Forward(s: State, e: Entry, req: Req, canConnect: bool): (bool, State) {
    if !req.source.Ipa? then (true, s.(log := s.log + [Refuse(req, GMM_CAUSE_PROTO_ERR_UNSPEC)]))
    else
      var s' := Acknowledge(s, e, req);
      if e.addr.None? then (false, Defer(s', req))
      else if IsUp(s', e.addr.value) then (false, s'.(log := s'.log + [ConnectResult(req, e.addr)]))
      else (false, GetOrConnect(Defer(s', req), e.addr.value, canConnect))
  }

  /** What a request meets in the rest of the program. Connecting may be tried twice. */
  datatype Env = Env(knownLocally: bool, gateway: Option<Addr>, lookupActive: bool, connect1: bool, connect2: bool)

  function NewEntry(imsi: ImsiText): Entry {
    Entry(imsi, [], None, NoVlr, NoVlr, 0)
  }

  const HLR_GSUP_SERVICE: seq<Octet> := [103, 115, 117, 112, 46, 104, 108, 114]  // "gsup.hlr"

  /** dgsm_check_forward_gsup_msg(): whether D-GSM has handled the request, and the new state. */
  function CheckForward(s: State, req: Req, env: Env): (bool, State) {
    if env.knownLocally then (false, s)
    else
      var found := Find(s.entries, req.imsi);
      if found.Some? then (true, Forward(s, found.value, req, env.connect1).1)
      else
        var e := NewEntry(req.imsi);
        var s1 := Put(s, e);
        if env.gateway.Some? then
          var s2 := Resolved(s1, e, env.gateway.value, env.connect1);
          var again := Find(s2.entries, req.imsi);
          if again.None? then (true, s2.(log := s2.log + [Refuse(req, GMM_CAUSE_NET_FAIL)]))
          else (true, Forward(s2, again.value, req, env.connect2).1)
        else if !env.lookupActive then (false, s1)
        else
          var (denied, s2) := Forward(s1, e, req, env.connect1);
          if denied then (true, s2)
          // osmo_mslookup_client_request() returns no handle for an invalid query.
          else if !ValidQuery(Query(HLR_GSUP_SERVICE, Imsi, req.imsi)) then (false, DelSubscr(s2, req.imsi))
          else (true, s2)
  }

  /** A request is given to D-GSM; when that returns false, the rest of the program handles it. */
  function Arrive(s: State, req: Req, env: Env): State {
    var (handled, s') := CheckForward(s, req, env);
    s'.(given := s.given + [req], log := if handled then s'.log else s'.log + [Unhandled(req)])
  }

  /** resolve_hlr_result_cb(); no address when the lookup failed or the result has none. */
  function LookupDone(s: State, imsi: ImsiText, addr: Option<Addr>, canConnect: bool): State {
    if addr.None? then DelSubscr(s, imsi)
    else match Find(s.entries, imsi)
      case None => s
      case Some(e) => Resolved(s, e, addr.value, canConnect)
  }

  // ---- From the home HLR ----

  datatype RemoteMsg = InsertData(msisdn: Option<seq<Octet>>) | UpdateLocationResult | OtherRemote

  function Conclude(d: DomainState, destination: Name, via: Name): DomainState {
    if destination == d.preliminary then DomainState(destination, [], via) else d
  }

  /**
   proxy_subscr_forward_to_vlr() and proxy_acknowledge_gsup_from_remote_hlr() for a
   message with a destination name; `peer` is the connection that is routed to.
   */
  function FromRemote(s: State, imsi: ImsiText, msg: RemoteMsg, destination: Name, peer: Option<Name>): State {
    var found := Find(s.entries, imsi);
    if found.None? || peer.None? then s
    else
      var e := found.value;
      var via := if peer.value == destination then [] else peer.value;
      match msg
      case InsertData(msisdn) =>
        if msisdn.None? || msisdn.value == e.msisdn then s else Put(s, e.(msisdn := msisdn.value))
      case UpdateLocationResult =>
        // A result for a name that no LU came from is not allowed through.
        if destination != e.cs.preliminary && destination != e.ps.preliminary then s
        else
          var s' := s.(seen := s.seen + [LuResult(imsi, destination)]);
          Put(s', e.(cs := Conclude(e.cs, destination, via), ps := Conclude(e.ps, destination, via)))
      case OtherRemote => s
  }

  // ---- Runs ----

  datatype Event =
    | Request(req: Req, env: Env)
    | Lookup(imsi: ImsiText, found: Option<Addr>, canConnect: bool)
    | Up(addr: Addr)
    | Down(addr: Addr)
    | Lost(addr: Addr)
    | Remote(imsi: ImsiText, msg: RemoteMsg, destination: Name, peer: Option<Name>)
    | Cleanup
    | Clock(now: int)

  /** Requests are numbered as they arrive, and osmo_gsup_req_new() has refused invalid IMSIs. */
  predicate Possible(s: State, ev: Event) {
    ev.Request? ==> ev.req.nr == |s.given| && ValidId(Imsi, ev.req.imsi)
  }

  function Step(s: State, ev: Event): State {
    match ev
    case Request(req, env) => Arrive(s, req, env)
    case Lookup(imsi, found, canConnect) => LookupDone(s, imsi, found, canConnect)
    case Up(addr) => LinkUp(s, addr)
    case Down(addr) => LinkDown(s, addr)
    case Lost(addr) => LinkLost(s, addr)
    case Remote(imsi, msg, destination, peer) => FromRemote(s, imsi, msg, destination, peer)
    case Cleanup => s.(entries := FreshOnes(s.entries, s.now))
    case Clock(now) => s.(now := now)
  }

  const Initial := State([], [], map[], [], [], [], 0)

  function Run(evs: seq<Event>): State {
    if evs == [] then Initial else Step(Run(evs[..|evs| - 1]), evs[|evs| - 1])
  }

  predicate PossibleRun(evs: seq<Event>) {
    evs != [] ==> PossibleRun(evs[..|evs| - 1]) && Possible(Run(evs[..|evs| - 1]), evs[|evs| - 1])
  }
}
