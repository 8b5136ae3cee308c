/**
 What becomes of each request and of each message that reaches the D-GSM proxy, told
 by the state that an event leaves behind.
 */
module ProxyOutcome {
  import opened Octets
  import opened LookupQuery
  import opened Gsup
  import opened ProxyModel
  import opened ProxySafety

  // ---- Requests and links ----

  /**
   Where a request for an IMSI with this address is: over a link that is up it has been
   sent, or refused if it cannot be; for a link that is still to come up it is deferred
   with a callback registered; without a link it has been refused as unknown.
   */
  predicate Placed(s: State, r: Req, addr: Addr) {
    if IsUp(s, addr) then
      if r.source.Ipa? && r.encodable then Sent(r, addr) in s.log
      else Refused(r, GMM_CAUSE_NET_FAIL, !r.kind.NoRequest?) in s.log
    else if addr in s.links then r in s.pending && s.links[addr].callbacks > 0
    else Refused(r, GMM_CAUSE_IMSI_UNKNOWN, !r.kind.NoRequest?) in s.log
  }

  /** The links after a connection to `addr` has been asked for. */
  function Connected(links: map<Addr, Link>, addr: Addr, canConnect: bool): map<Addr, Link> {
    if addr in links && links[addr].up then links
    else if addr in links then links[addr := Link(false, links[addr].callbacks + 1)]
    else if canConnect then links[addr := Link(false, 1)]
    else links
  }

  lemma {:induction false} ConnectCbLinks(s: State, es: seq<Entry>, addr: Addr, to: Option<Addr>)
    ensures ConnectCb(s, es, addr, to).links == s.links
    decreases |es|
  {
    if es != [] {
      ConnectCbLinks(if es[0].addr == Some(addr) then Pop(s, es[0].imsi, to) else s, es[1..], addr, to);
    }
  }

  lemma {:induction false} ConnectCbPlaces(s: State, addr: Addr, to: Option<Addr>, r: Req)
    requires r in s.pending && HasAddr(s, r.imsi, addr)
    ensures ConnectResult(r, to) in ConnectCb(s, s.entries, addr, to).log
  {
    var k := FindAt(s.entries, r.imsi);
    ConnectCbAnswers(s, s.entries, addr, to, r, k);
  }

  /** Asking for a connection finds every deferred request for its address a place. */
  lemma {:induction false} ConnectPlaces(s: State, addr: Addr, canConnect: bool, r: Req)
    requires r in s.pending && HasAddr(s, r.imsi, addr)
    ensures var s' := GetOrConnect(s, addr, canConnect);
            Placed(s', r, addr) && s'.links == Connected(s.links, addr, canConnect)
  {
    ConnectCbPlaces(s, addr, None, r);
    ConnectCbPlaces(s, addr, Some(addr), r);
    ConnectCbLinks(s, s.entries, addr, None);
    ConnectCbLinks(s, s.entries, addr, Some(addr));
  }

  // ---- Forwarding ----

  /** What an Update Location Request leaves in the entry: the preliminary name of its domain. */
  predicate Marked(before: Entry, after: Entry, req: Req)
    requires req.source.Ipa?
  {
    && after.imsi == before.imsi && after.msisdn == before.msisdn && after.addr == before.addr
    && after.cs == (if req.kind.UpdateLocationRequest? && req.domain == CS
                    then before.cs.(preliminary := req.source.name) else before.cs)
    && after.ps == (if req.kind.UpdateLocationRequest? && req.domain == PS
                    then before.ps.(preliminary := req.source.name) else before.ps)
  }

  lemma {:induction false} AcknowledgeMarks(s: State, e: Entry, req: Req)
    requires Current(s, e) && e.imsi == req.imsi && req.source.Ipa?
    ensures var s' := Acknowledge(s, e, req);
            && Find(s'.entries, req.imsi).Some? && Marked(e, Find(s'.entries, req.imsi).value, req)
            && s'.pending == s.pending && s'.log == s.log && s'.links == s.links
  {
    if req.kind.UpdateLocationRequest? {
      FindPut(s.(seen := s.seen + [LuRequest(req.imsi, req.domain, req.source.name)]),
              Preliminary(e, req.domain, req.source.name), req.imsi);
    }
  }

  lemma {:induction false} ForwardPlaces(s: State, e: Entry, req: Req, canConnect: bool)
    requires Current(s, e) && e.imsi == req.imsi && req.source.Ipa?
    ensures var s' := Forward(s, e, req, canConnect).1;
            && Find(s'.entries, req.imsi).Some? && Marked(e, Find(s'.entries, req.imsi).value, req)
            && (e.addr.None? ==> s'.pending == s.pending + [req] && s'.log == s.log && s'.links == s.links)
            && (e.addr.Some? ==> Placed(s', req, e.addr.value) && s'.links == Connected(s.links, e.addr.value, canConnect))
  {
    AcknowledgeMarks(s, e, req);
    var s1 := Acknowledge(s, e, req);
    if e.addr.Some? && !IsUp(s1, e.addr.value) {
      var s2 := Defer(s1, req);
      assert s2.pending[|s1.pending|] == req;
      ConnectPlaces(s2, e.addr.value, canConnect, req);
      GetOrConnectEntries(s2, e.addr.value, canConnect);
    }
  }

  /**
   A request that arrives for an IMSI with an entry: the entry stays, with the name noted if
   it is an Update Location Request. Without an address the request is deferred and nothing
   else happens; with one, it is placed, and the link is asked for.
   */
  lemma {:induction false} KnownImsiArrives(s: State, req: Req, env: Env, e: Entry)
    requires Find(s.entries, req.imsi) == Some(e) && req.source.Ipa? && !env.knownLocally
    ensures var s' := Step(s, Request(req, env));
            && Find(s'.entries, req.imsi).Some? && Marked(e, Find(s'.entries, req.imsi).value, req)
            && (e.addr.None? ==> s'.pending == s.pending + [req] && s'.log == s.log && s'.links == s.links)
            && (e.addr.Some? ==> Placed(s', req, e.addr.value) && s'.links == Connected(s.links, e.addr.value, env.connect1))
  {
    ForwardPlaces(s, e, req, env.connect1);
  }

  lemma {:induction false} NewEntryCurrent(s: State, imsi: ImsiText)
    ensures Current(Put(s, NewEntry(imsi)), NewEntry(imsi))
  {
    FindPut(s, NewEntry(imsi), imsi);
  }

  /** Without an entry and with a lookup, the request is deferred under a new entry without an address. */
  lemma {:induction false} NewImsiArrives(s: State, req: Req, env: Env)
    requires Find(s.entries, req.imsi).None? && req.source.Ipa? && ValidId(Imsi, req.imsi)
    requires !env.knownLocally && env.gateway.None? && env.lookupActive
    ensures var s' := Step(s, Request(req, env));
            && Find(s'.entries, req.imsi).Some? && Marked(NewEntry(req.imsi), Find(s'.entries, req.imsi).value, req)
            && s'.pending == s.pending + [req] && s'.log == s.log && s'.links == s.links
  {
    NewEntryCurrent(s, req.imsi);
    ForwardPlaces(Put(s, NewEntry(req.imsi)), NewEntry(req.imsi), req, env.connect1);
  }

  lemma {:induction false} ResolvedEntry(s: State, e: Entry, addr: Addr, canConnect: bool)
    requires Current(s, e)
    ensures var s' := Resolved(s, e, addr, canConnect);
            Find(s'.entries, e.imsi).Some? && Current(s', e.(addr := Some(addr)))
  {
    FindPut(s, e.(addr := Some(addr)), e.imsi);
    GetOrConnectEntries(Put(s, e.(addr := Some(addr))), addr, canConnect);
  }

  lemma {:induction false} ResolvedLinks(s: State, e: Entry, addr: Addr, canConnect: bool)
    ensures var links := Resolved(s, e, addr, canConnect).links;
            links == s.links || links == Connected(s.links, addr, canConnect)
  {
    var s1 := Put(s, e.(addr := Some(addr)));
    ConnectCbLinks(s1, s1.entries, addr, None);
    ConnectCbLinks(s1, s1.entries, addr, Some(addr));
  }

  /** The links after one or two tries to connect to an address. */
  lemma {:induction false} ConnectedTwice(links: map<Addr, Link>, links1: map<Addr, Link>, links2: map<Addr, Link>,
                                          addr: Addr, can1: bool, can2: bool)
    requires (links1 == links || links1 == Connected(links, addr, can1)) && links2 == Connected(links1, addr, can2)
    ensures addr in links || can2 ==> addr in links2
    ensures addr in links2 ==> addr in links || can1 || can2
    ensures forall a :: a != addr && a in links ==> a in links2 && links2[a] == links[a]
  {
  }

  /** Without an entry and with a fixed gateway, the request is placed under a new entry with that address. */
  lemma {:induction false} GatewayArrives(s: State, req: Req, env: Env, addr: Addr)
    requires Find(s.entries, req.imsi).None? && req.source.Ipa? && !env.knownLocally && env.gateway == Some(addr)
    ensures var s' := Step(s, Request(req, env));
            && Find(s'.entries, req.imsi).Some?
            && Marked(NewEntry(req.imsi).(addr := Some(addr)), Find(s'.entries, req.imsi).value, req)
            && Placed(s', req, addr)
            && (addr in s.links || env.connect2 ==> addr in s'.links)
            && (addr in s'.links ==> addr in s.links || env.connect1 || env.connect2)
            && (forall a :: a != addr && a in s.links ==> a in s'.links && s'.links[a] == s.links[a])
  {
    var e := NewEntry(req.imsi);
    var s1 := Put(s, e);
    var s2 := Resolved(s1, e, addr, env.connect1);
    assert Find(s2.entries, req.imsi).Some? && Current(s2, e.(addr := Some(addr))) by {
      NewEntryCurrent(s, req.imsi);
      ResolvedEntry(s1, e, addr, env.connect1);
    }
    var e2 := Find(s2.entries, req.imsi).value;
    ForwardPlaces(s2, e2, req, env.connect2);
    assert s2.links == s.links || s2.links == Connected(s.links, addr, env.connect1) by {
      ResolvedLinks(s1, e, addr, env.connect1);
    }
    ConnectedTwice(s.links, s2.links, Forward(s2, e2, req, env.connect2).1.links, addr, env.connect1, env.connect2);
  }

  /** A request of a peer without an IPA name is refused, if D-GSM handles it at all. */
  lemma {:induction false} OtherPeerIsRefused(s: State, req: Req, env: Env)
    requires !req.source.Ipa? && CheckForward(s, req, env).0
    ensures Refused(req, GMM_CAUSE_PROTO_ERR_UNSPEC, !req.kind.NoRequest?) in Step(s, Request(req, env)).log
  {
    if Find(s.entries, req.imsi).None? && env.gateway.Some? {
      NewEntryCurrent(s, req.imsi);
      ResolvedEntry(Put(s, NewEntry(req.imsi)), NewEntry(req.imsi), env.gateway.value, env.connect1);
    }
  }

  /** The requests of local subscribers pass D-GSM by. */
  lemma {:induction false} LocalIsReturned(s: State, req: Req, env: Env)
    requires env.knownLocally
    ensures Step(s, Request(req, env)) == s.(given := s.given + [req], log := s.log + [Unhandled(req)])
  {
  }

  /**
   Without an entry, a gateway and a lookup, the request goes back to the caller. The new
   entry stays, so that the next request for the IMSI is deferred instead.
   */
  lemma {:induction false} FirstReturnedNextDeferred(s: State, req: Req, env: Env, next: Req, env': Env)
    requires Find(s.entries, req.imsi).None? && next.imsi == req.imsi && next.source.Ipa?
    requires !env.knownLocally && env.gateway.None? && !env.lookupActive && !env'.knownLocally
    ensures var s1 := Step(s, Request(req, env));
            var s2 := Step(s1, Request(next, env'));
            && s1.log == s.log + [Unhandled(req)] && s1.pending == s.pending
            && Find(s1.entries, req.imsi) == Some(NewEntry(req.imsi).(lastUpdate := s.now))
            && s2.log == s1.log && s2.pending == s1.pending + [next]
  {
    FindPut(s, NewEntry(req.imsi), req.imsi);
    var s1 := Step(s, Request(req, env));
    KnownImsiArrives(s1, next, env', NewEntry(req.imsi).(lastUpdate := s.now));
  }

  // ---- The end of a lookup ----

  /** A found address is stored for the IMSI, and every request that waited for it is placed. */
  lemma {:induction false} LookupPlaces(s: State, imsi: ImsiText, e: Entry, addr: Addr, canConnect: bool, r: Req)
    requires Find(s.entries, imsi) == Some(e) && e.addr != Some(addr) && r in s.pending && r.imsi == imsi
    ensures var s' := Step(s, Lookup(imsi, Some(addr), canConnect));
            && Find(s'.entries, imsi) == Some(e.(addr := Some(addr), lastUpdate := s.now))
            && Placed(s', r, addr) && s'.links == Connected(s.links, addr, canConnect)
  {
    var s1 := Put(s, e.(addr := Some(addr)));
    FindPut(s, e.(addr := Some(addr)), imsi);
    var k :| 0 <= k < |s.pending| && s.pending[k] == r;
    assert Waiting(s1.pending, imsi);
    ConnectPlaces(s1, addr, canConnect, r);
    GetOrConnectEntries(s1, addr, canConnect);
  }

  /** With nothing waiting, only the address is stored; an address that is known changes nothing. */
  lemma {:induction false} LookupStores(s: State, imsi: ImsiText, e: Entry, addr: Addr, canConnect: bool)
    requires Find(s.entries, imsi) == Some(e) && !Waiting(s.pending, imsi)
    ensures var s' := Step(s, Lookup(imsi, Some(addr), canConnect));
            && HasAddr(s', imsi, addr) && s'.pending == s.pending && s'.log == s.log && s'.links == s.links
            && (e.addr == Some(addr) ==> s' == s)
  {
    FindPut(s, e.(addr := Some(addr)), imsi);
  }

  /** A lookup without an address takes the entry away and refuses what waited for it. */
  lemma {:induction false} LookupFails(s: State, imsi: ImsiText, canConnect: bool, r: Req, other: ImsiText)
    requires Inv(s) && r in s.pending
    ensures var s' := Step(s, Lookup(imsi, None, canConnect));
            && Find(s'.entries, imsi).None? && (other != imsi ==> Find(s'.entries, other) == Find(s.entries, other))
            && !Waiting(s'.pending, imsi) && s'.links == s.links
            && if r.imsi == imsi then Refused(r, GMM_CAUSE_IMSI_UNKNOWN, !r.kind.NoRequest?) in s'.log
               else r in s'.pending
  {
    PopAnswers(s, imsi, None, r);
    PopShrinks(s, imsi, None);
    FindDelete(s.entries, imsi, imsi);
    FindDelete(s.entries, imsi, other);
  }

  // ---- Messages from the home HLR ----

  /**
   An Update Location Result that is routed to a name makes it the VLR name of every domain
   from which it came last, clears the preliminary name there, and notes the proxy that
   stands between; the other domain stays as it is.
   */
  lemma {:induction false} ResultSetsVlrName(s: State, imsi: ImsiText, e: Entry, name: Name, peer: Name)
    requires Find(s.entries, imsi) == Some(e)
    ensures var s' := Step(s, Remote(imsi, UpdateLocationResult, name, Some(peer)));
            var via := if peer == name then [] else peer;
            && Find(s'.entries, imsi).Some?
            && (var e' := Find(s'.entries, imsi).value;
                && e'.cs == (if e.cs.preliminary == name then DomainState(name, [], via) else e.cs)
                && e'.ps == (if e.ps.preliminary == name then DomainState(name, [], via) else e.ps)
                && e'.addr == e.addr && e'.msisdn == e.msisdn)
            && s'.pending == s.pending && s'.log == s.log && s'.links == s.links
  {
    var via := if peer == name then [] else peer;
    FindPut(s.(seen := s.seen + [LuResult(imsi, name)]),
            e.(cs := Conclude(e.cs, name, via), ps := Conclude(e.ps, name, via)), imsi);
  }

  /** Insert Data brings the MSISDN. */
  lemma {:induction false} InsertDataSetsMsisdn(s: State, imsi: ImsiText, e: Entry, msisdn: seq<Octet>, name: Name, peer: Name)
    requires Find(s.entries, imsi) == Some(e)
    ensures var s' := Step(s, Remote(imsi, InsertData(Some(msisdn)), name, Some(peer)));
            && Find(s'.entries, imsi).Some?
            && (var e' := Find(s'.entries, imsi).value; e' == e.(msisdn := msisdn, lastUpdate := e'.lastUpdate))
  {
    FindPut(s, e.(msisdn := msisdn), imsi);
  }

  /** Nothing from the home HLR changes an entry when its message cannot be routed. */
  lemma {:induction false} UnroutableChangesNothing(s: State, imsi: ImsiText, msg: RemoteMsg, name: Name)
    ensures Step(s, Remote(imsi, msg, name, None)) == s
  {
  }

  /**
   A location update from end to end: an Update Location Request from a name, and the
   result that is routed back to it, make that name the VLR name of its domain.
   */
  lemma {:induction false} LocationUpdateMovesVlrName(s: State, req: Req, env: Env, e: Entry, peer: Name)
    requires Find(s.entries, req.imsi) == Some(e) && !env.knownLocally
    requires req.source.Ipa? && req.kind.UpdateLocationRequest? && req.domain != OtherDomain
    ensures var s1 := Step(s, Request(req, env));
            var s2 := Step(s1, Remote(req.imsi, UpdateLocationResult, req.source.name, Some(peer)));
            && Find(s2.entries, req.imsi).Some?
            && (var e2 := Find(s2.entries, req.imsi).value;
                var d := if req.domain == CS then e2.cs else e2.ps;
                d.vlrName == req.source.name && d.preliminary == [] &&
                d.viaProxy == if peer == req.source.name then [] else peer)
  {
    KnownImsiArrives(s, req, env, e);
    var s1 := Step(s, Request(req, env));
    ResultSetsVlrName(s1, req.imsi, Find(s1.entries, req.imsi).value, req.source.name, peer);
  }

  // ---- Clean-up and lost links ----

  /** At any time, exactly the entries that were updated within the last hour stay, and the queue is not touched. */
  lemma {:induction false} CleanupDropsStale(s: State, now: int, imsi: ImsiText)
    requires Unique(s.entries)
    ensures var s' := Step(Step(s, Clock(now)), Cleanup);
            && s' == s.(entries := s'.entries, now := now)
            && Find(s'.entries, imsi) ==
               if Find(s.entries, imsi).Some? && 0 <= now - Find(s.entries, imsi).value.lastUpdate <= 3600
               then Find(s.entries, imsi) else None
  {
    FindFresh(s.entries, now, imsi);
  }

  /** A request that arrives after the link has been lost waits for it. */
  lemma {:induction false} LostLinkDefers(s: State, req: Req, env: Env, e: Entry, addr: Addr, s1: State)
    requires Find(s.entries, req.imsi) == Some(e) && e.addr == Some(addr) && req.source.Ipa? && !env.knownLocally
    requires addr in s.links && s1 == Step(s, Lost(addr))
    ensures !IsUp(s1, addr) && s1.pending == s.pending && s1.log == s.log
    ensures var s' := Step(s1, Request(req, env)); req in s'.pending && !IsUp(s', addr)
  {
    KnownImsiArrives(s1, req, env, e);
  }

  /** A link that goes down is forgotten with its callbacks: the next request takes a new one, or is refused. */
  lemma {:induction false} DownLinkIsReplaced(s: State, req: Req, env: Env, e: Entry, addr: Addr, s1: State)
    requires Find(s.entries, req.imsi) == Some(e) && e.addr == Some(addr) && req.source.Ipa? && !env.knownLocally
    requires s1 == Step(s, Down(addr))
    ensures addr !in s1.links && s1.pending == s.pending && s1.log == s.log
    ensures var s' := Step(s1, Request(req, env));
            if env.connect1 then req in s'.pending && s'.links == s1.links[addr := Link(false, 1)]
            else Refused(req, GMM_CAUSE_IMSI_UNKNOWN, !req.kind.NoRequest?) in s'.log && s'.links == s1.links
  {
    KnownImsiArrives(s1, req, env, e);
  }
}
