/**
 The proxy as an object whose lists are searched and updated in place. Every
 method is tied to the step function of ProxyModel that it computes.
 */
module ProxyObject {
  import opened Octets
  import opened LookupQuery
  import opened Gsup
  import opened ProxyModel
  import opened ProxySafety

  class Proxy {
    var subscrList: seq<Entry>
    var pendingReqs: seq<Req>
    var remoteHlrs: map<Addr, Link>
    ghost var log: seq<Outcome>
    ghost var given: seq<Req>
    ghost var seen: seq<Seen>
    var now: int

    ghost function View(): State
      reads this
    {
      State(subscrList, pendingReqs, remoteHlrs, log, given, seen, now)
    }

    constructor ()
      ensures View() == Initial && Inv(View())
    {
      subscrList, pendingReqs, remoteHlrs, log, given, seen, now := [], [], map[], [], [], [], 0;
    }

    // ---- Entries ----

    /** _proxy_get_by_imsi(): the index of the entry, or -1. */
    method GetByImsi(imsi: ImsiText) returns (i: int)
      ensures i < 0 ==> Find(subscrList, imsi).None?
      ensures i >= 0 ==> FirstAt(subscrList, imsi, i) && Find(subscrList, imsi) == Some(subscrList[i])
    {
      i := 0;
      while i < |subscrList|
        invariant 0 <= i <= |subscrList|
        invariant forall j :: 0 <= j < i ==> subscrList[j].imsi != imsi
      {
        if subscrList[i].imsi == imsi {
          FindFirst(subscrList, imsi, i);
          return;
        }
        i := i + 1;
      }
      FindNone(subscrList, imsi);
      i := -1;
    }

    /** proxy_subscr_create_or_update() */
    method CreateOrUpdate(e: Entry)
      modifies this`subscrList
      ensures View() == Put(old(View()), e)
    {
      var e' := e.(lastUpdate := now);
      var i := GetByImsi(e.imsi);
      if i < 0 {
        subscrList := [e'] + subscrList;
      } else {
        ReplaceFirst(subscrList, e', i);
        subscrList := subscrList[i := e'];
      }
    }

    /** proxy_cleanup() */
    method CleanupEntries()
      modifies this`subscrList
      ensures View() == Step(old(View()), Cleanup)
    {
      var i := 0;
      ghost var all := subscrList;
      ghost var k := 0;
      while i < |subscrList|
        invariant 0 <= i <= |subscrList| && 0 <= k <= |all|
        invariant subscrList[i..] == all[k..]
        invariant FreshOnes(all, now) == subscrList[..i] + FreshOnes(all[k..], now)
        decreases |subscrList| - i
      {
        assert all[k] == subscrList[i..][0] == subscrList[i];
        assert all[k..][1..] == all[k + 1..] && subscrList[i..][1..] == subscrList[i + 1..];
        if IsFresh(subscrList[i], now) {
          assert subscrList[..i + 1] == subscrList[..i] + [subscrList[i]];
          i := i + 1;
        } else {
          ghost var kept := subscrList[..i];
          subscrList := subscrList[..i] + subscrList[i + 1..];
          assert subscrList[..i] == kept;
        }
        k := k + 1;
      }
      assert subscrList[..i] == subscrList;
    }

    // ---- Deferred requests ----

    method DeferredWaiting(imsi: ImsiText) returns (waiting: bool)
      ensures waiting == Waiting(pendingReqs, imsi)
    {
      var i := 0;
      while i < |pendingReqs|
        invariant 0 <= i <= |pendingReqs|
        invariant forall j :: 0 <= j < i ==> pendingReqs[j].imsi != imsi
      {
        if pendingReqs[i].imsi == imsi {
          return true;
        }
        i := i + 1;
      }
      waiting := false;
    }

    /** proxy_deferred_gsup_req_pop() */
    method DeferredPop(imsi: ImsiText, to: Option<Addr>)
      modifies this`pendingReqs, this`log
      ensures View() == Pop(old(View()), imsi, to)
    {
      var i := 0;
      ghost var all := pendingReqs;
      ghost var k := 0;
      assert pendingReqs[..0] == NotMine([], imsi) && all[..0] == [];
      while i < |pendingReqs|
        invariant 0 <= i <= |pendingReqs| && 0 <= k <= |all|
        invariant pendingReqs[..i] == NotMine(all[..k], imsi)
        invariant pendingReqs[i..] == all[k..]
        invariant log == old(log) + Outcomes(Mine(all[..k], imsi), to)
        decreases |pendingReqs| - i
      {
        var p := pendingReqs[i];
        assert p == pendingReqs[i..][0] == all[k];
        PopStep(all, k, imsi, to);
        if p.imsi == imsi {
          Assoc(old(log), Outcomes(Mine(all[..k], imsi), to), ConnectResult(p, to));
          log := log + [ConnectResult(p, to)];
          RemoveInside(pendingReqs, i);
          pendingReqs := pendingReqs[..i] + pendingReqs[i + 1..];
        } else {
          i := i + 1;
        }
        k := k + 1;
      }
      assert all[..k] == all && pendingReqs[..i] == pendingReqs;
    }

    // ---- Links ----

    /** proxy_remote_hlr_connect_result_cb() */
    method ConnectResultCb(addr: Addr, to: Option<Addr>)
      modifies this`pendingReqs, this`log
      ensures View() == ConnectCb(old(View()), old(subscrList), addr, to)
    {
      var i := 0;
      assert subscrList[0..] == subscrList;
      while i < |subscrList|
        invariant 0 <= i <= |subscrList|
        invariant ConnectCb(old(View()), subscrList, addr, to) == ConnectCb(View(), subscrList[i..], addr, to)
      {
        assert subscrList[i..][0] == subscrList[i] && subscrList[i..][1..] == subscrList[i + 1..];
        if subscrList[i].addr == Some(addr) {
          DeferredPop(subscrList[i].imsi, to);
        }
        i := i + 1;
      }
    }

    /** remote_hlr_get_or_connect(addr, true, proxy_remote_hlr_connect_result_cb) */
    method ConnectRemoteHlr(addr: Addr, canConnect: bool)
      modifies this`pendingReqs, this`log, this`remoteHlrs
      ensures View() == GetOrConnect(old(View()), addr, canConnect)
    {
      if addr in remoteHlrs {
        if remoteHlrs[addr].up {
          ConnectResultCb(addr, Some(addr));
        } else {
          remoteHlrs := remoteHlrs[addr := Link(false, remoteHlrs[addr].callbacks + 1)];
        }
      } else if !canConnect {
        ConnectResultCb(addr, None);
      } else {
        remoteHlrs := remoteHlrs[addr := Link(false, 1)];
      }
    }

    /** The loop of remote_hlr_up_down() over the pending callbacks. */
    method RunPendingUp(addr: Addr, count: nat)
      modifies this`pendingReqs, this`log
      ensures View() == RunCallbacks(old(View()), addr, count)
    {
      var n := count;
      while n > 0
        invariant 0 <= n <= count
        invariant RunCallbacks(old(View()), addr, count) == RunCallbacks(View(), addr, n)
      {
        ConnectResultCb(addr, Some(addr));
        n := n - 1;
      }
    }

    /** remote_hlr_up_down(up) */
    method RunUp(addr: Addr)
      requires addr in remoteHlrs
      modifies this
      ensures View() == LinkUp(old(View()), addr)
    {
      var n := remoteHlrs[addr].callbacks;
      remoteHlrs := remoteHlrs[addr := Link(true, n)];
      RunPendingUp(addr, n);
      remoteHlrs := remoteHlrs[addr := Link(true, 0)];
      assert remoteHlrs == old(remoteHlrs)[addr := Link(true, 0)];
    }

    /** A link that comes up keeps the proxy in order. */
    method RemoteHlrUp(addr: Addr)
      requires Inv(View()) && addr in remoteHlrs
      modifies this
      ensures View() == LinkUp(old(View()), addr) && Inv(View())
    {
      LinkUpKeeps(View(), addr);
      RunUp(addr);
    }

    /** remote_hlr_up_down(down) and remote_hlr_destroy() */
    method RemoteHlrDown(addr: Addr)
      requires Inv(View())
      modifies this`remoteHlrs
      ensures View() == LinkDown(old(View()), addr) && Inv(View())
    {
      LinkDownKeeps(View(), addr);
      remoteHlrs := remoteHlrs - {addr};
    }

    // ---- Towards the home HLR ----

    /** proxy_subscr_remote_hlr_resolved() */
    method RemoteHlrResolved(e: Entry, addr: Addr, canConnect: bool)
      modifies this
      ensures View() == Resolved(old(View()), e, addr, canConnect)
    {
      if e.addr == Some(addr) {
        return;
      }
      CreateOrUpdate(e.(addr := Some(addr)));
      var waiting := DeferredWaiting(e.imsi);
      if waiting {
        ConnectRemoteHlr(addr, canConnect);
      }
    }

    /** proxy_subscr_forward_to_remote_hlr() */
    method ForwardToRemoteHlr(e: Entry, req: Req, canConnect: bool) returns (denied: bool)
      modifies this
      ensures denied == Forward(old(View()), e, req, canConnect).0
      ensures View() == Forward(old(View()), e, req, canConnect).1
    {
      if !req.source.Ipa? {
        log := log + [Refuse(req, GMM_CAUSE_PROTO_ERR_UNSPEC)];
        return true;
      }
      denied := false;
      if req.kind.UpdateLocationRequest? {
        seen := seen + [LuRequest(req.imsi, req.domain, req.source.name)];
        var e' := Preliminary(e, req.domain, req.source.name);
        if e'.cs.preliminary != e.cs.preliminary || e'.ps.preliminary != e.ps.preliminary {
          CreateOrUpdate(e');
        }
      }
      assert View() == Acknowledge(old(View()), e, req);
      if e.addr.None? {
        pendingReqs := pendingReqs + [req];
      } else if e.addr.value in remoteHlrs && remoteHlrs[e.addr.value].up {
        log := log + [ConnectResult(req, e.addr)];
      } else {
        pendingReqs := pendingReqs + [req];
        ConnectRemoteHlr(e.addr.value, canConnect);
      }
    }

    /** proxy_subscr_del() */
    method SubscrDel(imsi: ImsiText)
      modifies this
      ensures View() == DelSubscr(old(View()), imsi)
    {
      DeferredPop(imsi, None);
      var i := GetByImsi(imsi);
      if i < 0 {
        DeleteNone(subscrList, imsi);
      } else {
        DeleteFirst(subscrList, imsi, i);
        subscrList := subscrList[..i] + subscrList[i + 1..];
      }
    }

    /** dgsm_check_forward_gsup_msg() */
    method CheckForwardGsup(req: Req, env: Env) returns (handled: bool)
      modifies this
      ensures handled == CheckForward(old(View()), req, env).0
      ensures View() == CheckForward(old(View()), req, env).1
    {
      if env.knownLocally {
        return false;
      }
      var i := GetByImsi(req.imsi);
      if i >= 0 {
        var _ := ForwardToRemoteHlr(subscrList[i], req, env.connect1);
        return true;
      }
      var e := NewEntry(req.imsi);
      CreateOrUpdate(e);
      if env.gateway.Some? {
        RemoteHlrResolved(e, env.gateway.value, env.connect1);
        i := GetByImsi(req.imsi);
        if i < 0 {
          log := log + [Refuse(req, GMM_CAUSE_NET_FAIL)];
          return true;
        }
        var _ := ForwardToRemoteHlr(subscrList[i], req, env.connect2);
        return true;
      }
      if !env.lookupActive {
        return false;
      }
      var denied := ForwardToRemoteHlr(e, req, env.connect1);
      if denied {
        return true;
      }
      if !ValidQuery(Query(HLR_GSUP_SERVICE, Imsi, req.imsi)) {
        SubscrDel(req.imsi);
        return false;
      }
      return true;
    }

    /** A validated request is given to D-GSM, and to the rest of the program if D-GSM does not handle it. */
    method ReadCb(req: Req, env: Env)
      requires Inv(View()) && req.nr == |given| && ValidId(Imsi, req.imsi)
      modifies this
      ensures View() == Arrive(old(View()), req, env) && Inv(View())
    {
      ArriveKeeps(View(), req, env);
      CheckForwardKeeps(View(), req, env);
      var handled := CheckForwardGsup(req, env);
      given := given + [req];
      if !handled {
        log := log + [Unhandled(req)];
      }
    }

    /** resolve_hlr_result_cb() */
    method ResolveHlrResult(imsi: ImsiText, addr: Option<Addr>, canConnect: bool)
      requires Inv(View())
      modifies this
      ensures View() == LookupDone(old(View()), imsi, addr, canConnect) && Inv(View())
    {
      LookupDoneKeeps(View(), imsi, addr, canConnect);
      if addr.None? {
        SubscrDel(imsi);
        return;
      }
      var i := GetByImsi(imsi);
      if i >= 0 {
        RemoteHlrResolved(subscrList[i], addr.value, canConnect);
      }
    }

    /** remote_hlr_rx() and proxy_subscr_forward_to_vlr() */
    method ForwardToVlr(imsi: ImsiText, msg: RemoteMsg, destination: Name, peer: Option<Name>)
      requires Inv(View())
      modifies this
      ensures View() == FromRemote(old(View()), imsi, msg, destination, peer) && Inv(View())
    {
      FromRemoteKeeps(View(), imsi, msg, destination, peer);
      var i := GetByImsi(imsi);
      if i < 0 || peer.None? {
        return;
      }
      var e := subscrList[i];
      var via := if peer.value == destination then [] else peer.value;
      if msg.InsertData? && msg.msisdn.Some? && msg.msisdn.value != e.msisdn {
        CreateOrUpdate(e.(msisdn := msg.msisdn.value));
      }
      if msg.UpdateLocationResult? && (destination == e.cs.preliminary || destination == e.ps.preliminary) {
        seen := seen + [LuResult(imsi, destination)];
        CreateOrUpdate(e.(cs := Conclude(e.cs, destination, via), ps := Conclude(e.ps, destination, via)));
      }
    }
  }

  // ---- Lemmas for the loops ----

  predicate FirstAt(entries: seq<Entry>, imsi: ImsiText, i: int) {
    0 <= i < |entries| && entries[i].imsi == imsi && forall j :: 0 <= j < i ==> entries[j].imsi != imsi
  }

  lemma {:induction false} FindNone(entries: seq<Entry>, imsi: ImsiText)
    requires forall j :: 0 <= j < |entries| ==> entries[j].imsi != imsi
    ensures Find(entries, imsi).None?
    decreases |entries|
  {
    if entries != [] {
      FindNone(entries[1..], imsi);
    }
  }

  lemma {:induction false} FindFirst(entries: seq<Entry>, imsi: ImsiText, i: nat)
    requires FirstAt(entries, imsi, i)
    ensures Find(entries, imsi) == Some(entries[i])
    decreases i
  {
    if i > 0 {
      FindFirst(entries[1..], imsi, i - 1);
    }
  }

  lemma {:induction false} ReplaceFirst(entries: seq<Entry>, e: Entry, i: nat)
    requires FirstAt(entries, e.imsi, i)
    ensures Replace(entries, e) == entries[i := e]
    decreases i
  {
    if i > 0 {
      ReplaceFirst(entries[1..], e, i - 1);
    }
  }

  lemma {:induction false} DeleteFirst(entries: seq<Entry>, imsi: ImsiText, i: nat)
    requires FirstAt(entries, imsi, i)
    ensures Delete(entries, imsi) == entries[..i] + entries[i + 1..]
    decreases i
  {
    if i > 0 {
      DeleteFirst(entries[1..], imsi, i - 1);
    }
  }

  lemma {:induction false} Assoc(a: seq<Outcome>, b: seq<Outcome>, o: Outcome)
    ensures a + b + [o] == a + (b + [o])
  {
  }

  lemma {:induction false} RemoveInside(reqs: seq<Req>, i: nat)
    requires i < |reqs|
    ensures var reqs' := reqs[..i] + reqs[i + 1..];
            reqs'[..i] == reqs[..i] && reqs'[i..] == reqs[i..][1..]
  {
  }

  lemma {:induction false} PopStep(all: seq<Req>, k: nat, imsi: ImsiText, to: Option<Addr>)
    requires k < |all|
    ensures all[k..][1..] == all[k + 1..]
    ensures NotMine(all[..k + 1], imsi) == NotMine(all[..k], imsi) + if all[k].imsi == imsi then [] else [all[k]]
    ensures Outcomes(Mine(all[..k + 1], imsi), to) ==
            Outcomes(Mine(all[..k], imsi), to) + if all[k].imsi == imsi then [ConnectResult(all[k], to)] else []
  {
    assert all[..k + 1][..k] == all[..k];
  }

  lemma {:induction false} DeleteNone(entries: seq<Entry>, imsi: ImsiText)
    requires Find(entries, imsi).None?
    ensures Delete(entries, imsi) == entries
    decreases |entries|
  {
    if entries != [] {
      DeleteNone(entries[1..], imsi);
    }
  }
}
