/**
 Lookup queries and results as mDNS packets: mdns.c.
 */
module Mdns {
  import opened Octets
  import opened DnsName
  import opened DnsRecord
  import opened DnsMessage
  import opened LookupQuery
  import opened Decimal

  /** An address and port; the library's "is set" asks for both. */
  datatype Host = NoHost | Host(addr: seq<Octet>, port: U16)

  /** A successful lookup result. */
  datatype LookupResult = LookupResult(age: U32, v4: Host, v6: Host)

  predicate WellFormed(r: LookupResult) {
    (r.v4.Host? ==> |r.v4.addr| == 4) && (r.v6.Host? ==> |r.v6.addr| == 16)
  }

  predicate IsSet(h: Host) {
    h.Host? && h.port != 0
  }

  // ---- Domains ----

  function DomainFromQuery(q: Query, suffix: seq<Octet>): Option<seq<Octet>> {
    if q.idType.NoId? then None
    else Some(QueryText(q.service, q.id, TypeName(q.idType)) + ([DOT] + suffix))
  }

  function QueryFromDomain(domain: seq<Octet>, suffix: seq<Octet>): Option<Query> {
    var len := |domain| - |suffix| - 1;
    if len <= 0 || len >= MAX_NAME_LEN then None
    else if domain[len] != DOT || domain[len + 1..] != suffix then None
    else match ParseQuery(domain[..len])
      case Err(_) => None
      case Ok(q) => Some(q)
  }

  /** Behind any suffix, the query of a domain is what its front parses to. */
  lemma {:induction false} QueryOfFront(front: seq<Octet>, suffix: seq<Octet>, domain: seq<Octet>)
    requires domain == front + ([DOT] + suffix) && 0 < |front| < MAX_NAME_LEN
    ensures QueryFromDomain(domain, suffix) ==
            if ParseQuery(front).Ok? then Some(ParseQuery(front).query) else None
  {
    assert domain[..|front|] == front;
    assert domain[|front| + 1..] == suffix;
  }

  /** The domain of a valid query gives that query back, whatever the suffix. */
  lemma {:induction false} DomainRoundTrip(q: Query, suffix: seq<Octet>)
    requires ValidQuery(q)
    ensures DomainFromQuery(q, suffix).Some?
    ensures QueryFromDomain(DomainFromQuery(q, suffix).value, suffix) == Some(q)
  {
    var front := QueryText(q.service, q.id, TypeName(q.idType));
    PrintParse(q);
    QueryOfFront(front, suffix, front + ([DOT] + suffix));
  }

  lemma {:induction false} CutBefore(domain: seq<Octet>, len: nat)
    requires len < |domain|
    ensures domain == domain[..len] + ([domain[len]] + domain[len + 1..])
  {
  }

  /** And a domain gives a query only if it is that query's text, up to letter case, and the suffix. */
  lemma {:induction false} DomainInverse(domain: seq<Octet>, suffix: seq<Octet>, q: Query) returns (name: seq<Octet>)
    requires QueryFromDomain(domain, suffix) == Some(q)
    ensures ValidQuery(q) && Lower(name) == TypeName(q.idType)
    ensures domain == QueryText(q.service, q.id, name) + ([DOT] + suffix)
  {
    var len := |domain| - |suffix| - 1;
    var front := domain[..len];
    ParseGivesText(front, q);
    name := TypeText(front);
    CutBefore(domain, len);
  }

  // ---- The records of a result ----

  const AGE: seq<Octet> := [97, 103, 101]          // "age"
  const PORT: seq<Octet> := [112, 111, 114, 116]   // "port"

  lemma {:induction false} TxtFits(key: seq<Octet>, n: U32)
    requires |key| <= 4
    ensures |Print(n)| <= 10 && TxtRecord(key, Print(n)).Some?
  {
    PrintLength(n, 10);
  }

  function NumberRecord(key: seq<Octet>, n: U32): (r: Record)
    requires |key| <= 4
    ensures |r.data| == |key| + |Print(n)| + 2 <= 16
  {
    TxtFits(key, n);
    TxtRecord(key, Print(n)).value
  }

  function HostRecords(rtype: U16, h: Host): (r: seq<Record>)
    requires h.Host? ==> |h.addr| <= 16
    ensures Sized(r)
  {
    if IsSet(h) then [Record(rtype, h.addr), NumberRecord(PORT, h.port)] else []
  }

  /** "age", then each address that is set followed by its "port". */
  function ResultRecords(r: LookupResult): (recs: seq<Record>)
    requires WellFormed(r)
    ensures Sized(recs) && recs != []
  {
    [NumberRecord(AGE, r.age)] + (HostRecords(TYPE_A, r.v4) + HostRecords(TYPE_AAAA, r.v6))
  }

  // ---- Reading the records back ----

  datatype Kind = Age(age: U32) | Port(port: U16) | V4(addr: seq<Octet>) | V6(addr: seq<Octet>) | Bad

  /** What a record says on its own. */
  function KindOf(rec: Record): Kind {
    if rec.rtype == TYPE_A then if |rec.data| == 4 then V4(rec.data) else Bad
    else if rec.rtype == TYPE_AAAA then if |rec.data| == 16 then V6(rec.data) else Bad
    else TxtKind(TxtKeyValue(rec))
  }

  function TxtKind(keyValue: Option<(seq<Octet>, seq<Octet>)>): Kind {
    match keyValue
    case None => Bad
    case Some((key, value)) =>
      if key == AGE then match DecodeU32(value) case None => Bad case Some(n) => Age(n)
      else if key == PORT then match DecodePort(value) case None => Bad case Some(n) => Port(n)
      else Bad
  }

  function Ages(recs: seq<Record>): seq<U32> {
    if recs == [] then []
    else if KindOf(recs[0]).Age? then [KindOf(recs[0]).age] + Ages(recs[1..])
    else Ages(recs[1..])
  }

  datatype Kinds = Nil | Cons(first: Kind, rest: Kinds)

  function Others(recs: seq<Record>): Kinds {
    if recs == [] then Nil
    else if KindOf(recs[0]).Age? then Others(recs[1..])
    else Cons(KindOf(recs[0]), Others(recs[1..]))
  }

  /** The four orders in which addresses and ports may come. */
  function Addresses(ks: Kinds): Option<(Host, Host)> {
    match ks
    case Cons(V4(a), Cons(Port(p), Nil)) => Some((Host(a, p), NoHost))
    case Cons(V6(a), Cons(Port(p), Nil)) => Some((NoHost, Host(a, p)))
    case Cons(V4(a), Cons(Port(p), Cons(V6(b), Cons(Port(r), Nil)))) => Some((Host(a, p), Host(b, r)))
    case Cons(V6(b), Cons(Port(r), Cons(V4(a), Cons(Port(p), Nil)))) => Some((Host(a, p), Host(b, r)))
    case _ => None
  }

  /**
   A list of records is a result exactly when it has one "age" anywhere and the
   other records are addresses with their ports in one of the four orders.
   */
  function ResultFromRecords(recs: seq<Record>): Option<LookupResult> {
    if |Ages(recs)| != 1 then None
    else match Addresses(Others(recs))
      case None => None
      case Some((v4, v6)) => Some(LookupResult(Ages(recs)[0], v4, v6))
  }

  predicate HasBad(ks: Kinds) {
    ks.Cons? && (ks.first.Bad? || HasBad(ks.rest))
  }

  predicate Sized4And6(ks: Kinds) {
    ks.Cons? ==>
      && (ks.first.V4? ==> |ks.first.addr| == 4) && (ks.first.V6? ==> |ks.first.addr| == 16)
      && Sized4And6(ks.rest)
  }

  lemma {:induction false} OthersBad(recs: seq<Record>, i: nat)
    requires i < |recs| && KindOf(recs[i]).Bad?
    ensures HasBad(Others(recs))
    decreases i
  {
    if i > 0 {
      OthersBad(recs[1..], i - 1);
    }
  }

  lemma {:induction false} OthersSized(recs: seq<Record>)
    ensures Sized4And6(Others(recs))
    decreases |recs|
  {
    if recs != [] {
      OthersSized(recs[1..]);
    }
  }

  lemma {:induction false} AddressesAreGood(ks: Kinds)
    requires Addresses(ks).Some?
    ensures !HasBad(ks)
  {
    var more := ks.rest.rest;
    assert !HasBad(if more.Cons? then more.rest.rest else more);
    assert !HasBad(more);
  }

  /** One record that is not understood spoils the answer: another type, an address of the wrong size, an unknown key or a bad number. */
  lemma {:induction false} BadRecordIsRefused(recs: seq<Record>, i: nat)
    requires i < |recs|
    requires
      || recs[i].rtype !in {1, 16, 28}
      || (recs[i].rtype == 1 && |recs[i].data| != 4) || (recs[i].rtype == 28 && |recs[i].data| != 16)
      || (recs[i].rtype == 16 && TxtKeyValue(recs[i]).None?)
      || (recs[i].rtype == 16 && TxtKeyValue(recs[i]).value.0 !in {AGE, PORT})
    ensures ResultFromRecords(recs).None?
  {
    OthersBad(recs, i);
    if Addresses(Others(recs)).Some? {
      AddressesAreGood(Others(recs));
    }
  }

  /** The addresses of an accepted result have the right sizes. */
  lemma {:induction false} AcceptedIsWellFormed(recs: seq<Record>)
    requires ResultFromRecords(recs).Some?
    ensures WellFormed(ResultFromRecords(recs).value)
  {
    OthersSized(recs);
    var ks := Others(recs);
    assert Sized4And6(ks.rest) && Sized4And6(ks.rest.rest);
  }

  datatype PendingPort = Nothing | PortV4 | PortV6

  /** What the loop of osmo_mdns_result_from_answer() holds about addresses and ports. */
  datatype Found = Found(v4: Host, v6: Host, pending: PendingPort)

  function Take(f: Found, k: Kind): Option<Found> {
    match k
    case V4(addr) => if f.pending.Nothing? && f.v4.NoHost? then Some(Found(Host(addr, 0), f.v6, PortV4)) else None
    case V6(addr) => if f.pending.Nothing? && f.v6.NoHost? then Some(Found(f.v4, Host(addr, 0), PortV6)) else None
    case Port(p) =>
      if f.pending.PortV4? && f.v4.Host? then Some(Found(Host(f.v4.addr, p), f.v6, Nothing))
      else if f.pending.PortV6? && f.v6.Host? then Some(Found(f.v4, Host(f.v6.addr, p), Nothing))
      else None
    case _ => None
  }

  function TakeAll(f: Found, ks: Kinds): Option<(Host, Host)>
    decreases ks
  {
    match ks
    case Nil => if f.pending.Nothing? && (f.v4.Host? || f.v6.Host?) then Some((f.v4, f.v6)) else None
    case Cons(k, more) =>
      match Take(f, k)
      case None => None
      case Some(f') => TakeAll(f', more)
  }

  const NothingFound := Found(NoHost, NoHost, Nothing)

  /** While a port is pending, only a port is accepted. */
  lemma {:induction false} PortNext(f: Found, ks: Kinds)
    requires (f.pending.PortV4? && f.v4.Host?) || (f.pending.PortV6? && f.v6.Host?)
    ensures TakeAll(f, ks) ==
            if ks.Cons? && ks.first.Port? then TakeAll(Take(f, ks.first).value, ks.rest) else None
  {
  }

  /** Otherwise the list ends or an address that is still missing comes. */
  lemma {:induction false} AddressNext(f: Found, ks: Kinds)
    requires f.pending.Nothing?
    ensures TakeAll(f, ks) ==
            if ks.Nil? then (if f.v4.Host? || f.v6.Host? then Some((f.v4, f.v6)) else None)
            else if (ks.first.V4? && f.v4.NoHost?) || (ks.first.V6? && f.v6.NoHost?)
            then TakeAll(Take(f, ks.first).value, ks.rest) else None
  {
  }

  /** The loop accepts exactly the four orders. */
  lemma {:induction false} FourOrders(ks: Kinds)
    ensures TakeAll(NothingFound, ks) == Addresses(ks)
  {
    AddressNext(NothingFound, ks);
    if ks.Cons? && (ks.first.V4? || ks.first.V6?) {
      var f1, ks1 := Take(NothingFound, ks.first).value, ks.rest;
      PortNext(f1, ks1);
      if ks1.Cons? && ks1.first.Port? {
        var f2, ks2 := Take(f1, ks1.first).value, ks1.rest;
        AddressNext(f2, ks2);
        if ks2.Cons? && Take(f2, ks2.first).Some? {
          var f3, ks3 := Take(f2, ks2.first).value, ks2.rest;
          PortNext(f3, ks3);
          if ks3.Cons? && ks3.first.Port? {
            AddressNext(Take(f3, ks3.first).value, ks3.rest);
          }
        }
      }
    }
  }

  /** The result when `found` and `ages` have been read and `rest` has not. */
  function Finish(ages: seq<U32>, found: Found, rest: seq<Record>): Option<LookupResult> {
    var all := ages + Ages(rest);
    if |all| != 1 then None
    else match TakeAll(found, Others(rest))
      case None => None
      case Some((v4, v6)) => Some(LookupResult(all[0], v4, v6))
  }

  lemma {:induction false} FinishStart(recs: seq<Record>)
    ensures Finish([], NothingFound, recs) == ResultFromRecords(recs)
  {
    FourOrders(Others(recs));
    assert [] + Ages(recs) == Ages(recs);
  }

  lemma {:induction false} FinishStep(ages: seq<U32>, found: Found, rest: seq<Record>)
    requires rest != []
    ensures var k := KindOf(rest[0]);
            Finish(ages, found, rest) ==
            if k.Age? then Finish(ages + [k.age], found, rest[1..])
            else if Take(found, k).Some? then Finish(ages, Take(found, k).value, rest[1..])
            else None
  {
    var k := KindOf(rest[0]);
    if k.Age? {
      assert ages + ([k.age] + Ages(rest[1..])) == ages + [k.age] + Ages(rest[1..]);
    }
  }

  /** osmo_mdns_result_from_answer(): the loop over the records. */
  method ResultFromAnswer(recs: seq<Record>) returns (r: Option<LookupResult>)
    ensures r == ResultFromRecords(recs)
  {
    var foundAge, foundV4, foundV6 := false, false, false;
    var pending := Nothing;
    var age: U32 := 0;
    var v4, v6 := NoHost, NoHost;
    var rest := recs;
    FinishStart(recs);
    while rest != []
      invariant foundV4 == v4.Host? && foundV6 == v6.Host?
      invariant pending.PortV4? ==> v4.Host?
      invariant pending.PortV6? ==> v6.Host?
      invariant ResultFromRecords(recs) == Finish(if foundAge then [age] else [], Found(v4, v6, pending), rest)
      decreases |rest|
    {
      FinishStep(if foundAge then [age] else [], Found(v4, v6, pending), rest);
      match KindOf(rest[0]) {
        case V4(addr) =>
          if pending != Nothing || foundV4 {
            return None;
          }
          foundV4, v4, pending := true, Host(addr, 0), PortV4;
        case V6(addr) =>
          if pending != Nothing || foundV6 {
            return None;
          }
          foundV6, v6, pending := true, Host(addr, 0), PortV6;
        case Age(n) =>
          if foundAge {
            return None;
          }
          foundAge, age := true, n;
        case Port(p) =>
          if pending == Nothing {
            return None;
          } else if pending == PortV4 {
            v4 := Host(v4.addr, p);
          } else {
            v6 := Host(v6.addr, p);
          }
          pending := Nothing;
        case Bad =>
          return None;
      }
      rest := rest[1..];
    }
    if !foundAge || !(foundV4 || foundV6) || pending != Nothing {
      return None;
    }
    r := Some(LookupResult(age, v4, v6));
  }

  // ---- Packets ----

  function QueryEncode(id: U16, q: Query, suffix: seq<Octet>): Option<seq<Octet>> {
    match DomainFromQuery(q, suffix)
    case None => None
    case Some(domain) => RequestOctets(Request(id, domain, TYPE_ALL))
  }

  function QueryDecode(data: seq<Octet>, suffix: seq<Octet>): Option<(U16, Query)> {
    match RequestOf(data)
    case None => None
    case Some(req) =>
      match QueryFromDomain(req.domain, suffix)
      case None => None
      case Some(q) => Some((req.id, q))
  }

  function ResultEncode(id: U16, q: Query, r: LookupResult, suffix: seq<Octet>): Option<seq<Octet>>
    requires WellFormed(r)
  {
    match DomainFromQuery(q, suffix)
    case None => None
    case Some(domain) => AnswerOctets(id, domain, ResultRecords(r))
  }

  /** An answer without records has no domain and no result. */
  function ResultDecode(data: seq<Octet>, suffix: seq<Octet>): Option<(U16, Query, LookupResult)> {
    match AnswerOf(data)
    case None => None
    case Some(ans) =>
      if ans.domain.None? then None
      else
        match (QueryFromDomain(ans.domain.value, suffix), ResultFromRecords(ans.records))
        case (Some(q), Some(r)) => Some((ans.id, q, r))
        case _ => None
  }

  /** Which domains of valid queries can be put on the wire. */
  predicate Encodable(q: Query, suffix: seq<Octet>) {
    && |QueryText(q.service, q.id, TypeName(q.idType))| + 1 + |suffix| <= MAX_NAME_LEN
    && NoEmptyLabel(q.service) && NoEmptyLabel(suffix)
  }

  lemma {:induction false} DigitsOneLabel(id: seq<Octet>)
    requires Digits(id, 1, 15)
    ensures Split(id) == Label(id, End)
  {
    SplitHead(id, []);
  }

  lemma {:induction false} TypeOneLabel(t: IdType)
    ensures Split(TypeName(t)) == Label(TypeName(t), End)
  {
    assert Lower(TypeName(t)) == TypeName(t);
    NameHasNoDot(TypeName(t), t);
    SplitHead(TypeName(t), []);
  }

  /** The labels of a query's domain are those of its service, its id, the id type and the suffix. */
  lemma {:induction false} DomainLabels(q: Query, suffix: seq<Octet>, domain: seq<Octet>, lo: nat, hi: nat)
    requires ValidQuery(q) && DomainFromQuery(q, suffix) == Some(domain)
    requires lo <= 1 && hi >= 15
    ensures Within(Split(domain), lo, hi) <==> Within(Split(q.service), lo, hi) && Within(Split(suffix), lo, hi)
  {
    var name := TypeName(q.idType);
    var back := q.id + ([DOT] + name);
    var front := q.service + ([DOT] + back);
    DigitsOneLabel(q.id);
    TypeOneLabel(q.idType);
    SplitDotted(q.id, name, back, lo, hi);
    SplitDotted(q.service, back, front, lo, hi);
    SplitDotted(front, suffix, domain, lo, hi);
  }

  /** The labels of a query are short anyway, those of the suffix decide. */
  lemma {:induction false} ShortLabelsIff(q: Query, suffix: seq<Octet>, domain: seq<Octet>)
    requires ValidQuery(q) && DomainFromQuery(q, suffix) == Some(domain)
    ensures ShortLabels(domain) <==> ShortLabels(suffix)
  {
    SplitBounds(q.service, 0x7F);
    DomainLabels(q, suffix, domain, 0, 0x7F);
  }

  lemma {:induction false} NoEmptyLabelIff(q: Query, suffix: seq<Octet>, domain: seq<Octet>)
    requires ValidQuery(q) && DomainFromQuery(q, suffix) == Some(domain)
    ensures NoEmptyLabel(domain) <==> NoEmptyLabel(q.service) && NoEmptyLabel(suffix)
  {
    var hi := |domain| + 15;
    NoEmptyIff(domain, hi);
    NoEmptyIff(q.service, hi);
    NoEmptyIff(suffix, hi);
    DomainLabels(q, suffix, domain, 1, hi);
  }

  /** A valid query can be encoded exactly when no label is empty and the domain is not too long. */
  lemma {:induction false} EncodableIff(q: Query, suffix: seq<Octet>, domain: seq<Octet>)
    requires ValidQuery(q) && DomainFromQuery(q, suffix) == Some(domain)
    ensures EncodeName(domain).Some? <==> Encodable(q, suffix)
  {
    NoEmptyLabelIff(q, suffix, domain);
  }

  lemma {:induction false} NoEmptyIff(domain: seq<Octet>, hi: nat)
    requires |domain| <= hi
    ensures NoEmptyLabel(domain) <==> Within(Split(domain), 1, hi)
  {
    if Within(Split(domain), 1, hi) {
      SplitBounds(domain, |domain|);
      WithinBoth(Split(domain), 1, hi, |domain|);
    }
    if NoEmptyLabel(domain) {
      WithinBoth(Split(domain), 1, |domain|, hi);
    }
  }

  /**
   Query packets: whatever the packet id, a valid query in a packet that could
   be encoded is read back exactly when the labels of the suffix are short.
   */
  lemma {:induction false} QueryPacketRoundTrip(id: U16, q: Query, suffix: seq<Octet>)
    requires ValidQuery(q) && NulFree(q.service) && NulFree(suffix)
    ensures QueryEncode(id, q, suffix).Some? <==> Encodable(q, suffix)
    ensures Encodable(q, suffix) ==>
              QueryDecode(QueryEncode(id, q, suffix).value, suffix) ==
              if ShortLabels(suffix) then Some((id, q)) else None
  {
    DomainRoundTrip(q, suffix);
    var domain := DomainFromQuery(q, suffix).value;
    EncodableIff(q, suffix, domain);
    ShortLabelsIff(q, suffix, domain);
    DomainNulFree(q, suffix, domain);
    if Encodable(q, suffix) {
      RequestRoundTrip(Request(id, domain, TYPE_ALL));
    }
  }

  // ---- A result's records say what the result says ----

  lemma {:induction false} NumberRead(key: seq<Octet>, n: U32)
    requires NulFree(key) && Free(key, EQUALS) && |key| <= 4
    ensures NumberRecord(key, n).rtype == TYPE_TXT
    ensures TxtKeyValue(NumberRecord(key, n)) == Some((key, Print(n)))
    ensures DecodeU32(Print(n)) == Some(n) && (n <= 0xFFFF ==> DecodePort(Print(n)) == Some(n))
  {
    TxtFits(key, n);
    DecodePrint(n);
    TxtRoundTrip(key, Print(n));
  }

  lemma {:induction false} AgeKind(n: U32)
    ensures KindOf(NumberRecord(AGE, n)) == Age(n)
  {
    NumberRead(AGE, n);
    TxtKindIs(NumberRecord(AGE, n), AGE, Print(n));
  }

  lemma {:induction false} PortKind(n: U16)
    ensures KindOf(NumberRecord(PORT, n)) == Port(n)
  {
    NumberRead(PORT, n);
    TxtKindIs(NumberRecord(PORT, n), PORT, Print(n));
    assert PORT[0] != AGE[0];
  }

  lemma {:induction false} TxtKindIs(rec: Record, key: seq<Octet>, value: seq<Octet>)
    requires rec.rtype == TYPE_TXT && TxtKeyValue(rec) == Some((key, value))
    ensures KindOf(rec) == TxtKind(Some((key, value)))
  {
  }

  /** What the encoder sends of a host: nothing unless it is set. */
  function Sent(h: Host): Host {
    if IsSet(h) then h else NoHost
  }

  lemma {:induction false} HostRead(rtype: U16, h: Host, rest: seq<Record>, recs: seq<Record>)
    requires rtype == TYPE_A || rtype == TYPE_AAAA
    requires IsSet(h) && |h.addr| == if rtype == TYPE_A then 4 else 16
    requires recs == HostRecords(rtype, h) + rest
    ensures Ages(recs) == Ages(rest)
    ensures Others(recs) == Cons(if rtype == TYPE_A then V4(h.addr) else V6(h.addr), Cons(Port(h.port), Others(rest)))
  {
    var first, second := Record(rtype, h.addr), NumberRecord(PORT, h.port);
    assert recs == [first] + ([second] + rest);
    assert KindOf(first) == if rtype == TYPE_A then V4(h.addr) else V6(h.addr);
    assert KindOf(second) == Port(h.port) by {
      PortKind(h.port);
    }
    TwoFirst(first, second, rest);
  }

  lemma {:induction false} TwoFirst(first: Record, second: Record, rest: seq<Record>)
    requires !KindOf(first).Age? && !KindOf(second).Age?
    ensures var recs := [first] + ([second] + rest);
            Ages(recs) == Ages(rest) && Others(recs) == Cons(KindOf(first), Cons(KindOf(second), Others(rest)))
  {
    OneFirst(second, rest);
    OneFirst(first, [second] + rest);
  }

  lemma {:induction false} OneFirst(first: Record, rest: seq<Record>)
    ensures var recs := [first] + rest;
            && Ages(recs) == (if KindOf(first).Age? then [KindOf(first).age] else []) + Ages(rest)
            && Others(recs) == if KindOf(first).Age? then Others(rest) else Cons(KindOf(first), Others(rest))
  {
    assert ([first] + rest)[1..] == rest;
  }

  function HostKinds(v4: Host, v6: Host): Kinds {
    var last := if IsSet(v6) then Cons(V6(v6.addr), Cons(Port(v6.port), Nil)) else Nil;
    if IsSet(v4) then Cons(V4(v4.addr), Cons(Port(v4.port), last)) else last
  }

  lemma {:induction false} LastHostRead(v6: Host, last: seq<Record>)
    requires v6.Host? ==> |v6.addr| == 16
    requires last == HostRecords(TYPE_AAAA, v6)
    ensures Ages(last) == [] && Others(last) == HostKinds(NoHost, v6)
  {
    if IsSet(v6) {
      assert last == last + [];
      HostRead(TYPE_AAAA, v6, [], last);
    }
  }

  lemma {:induction false} HostsRead(v4: Host, v6: Host, hosts: seq<Record>)
    requires (v4.Host? ==> |v4.addr| == 4) && (v6.Host? ==> |v6.addr| == 16)
    requires hosts == HostRecords(TYPE_A, v4) + HostRecords(TYPE_AAAA, v6)
    ensures Ages(hosts) == [] && Others(hosts) == HostKinds(v4, v6)
  {
    var last := HostRecords(TYPE_AAAA, v6);
    LastHostRead(v6, last);
    if IsSet(v4) {
      HostRead(TYPE_A, v4, last, hosts);
    } else {
      assert hosts == last;
    }
  }

  lemma {:induction false} ResultFromParts(recs: seq<Record>, age: U32, v4: Host, v6: Host)
    requires Ages(recs) == [age] && Others(recs) == HostKinds(v4, v6)
    ensures ResultFromRecords(recs) ==
            if IsSet(v4) || IsSet(v6) then Some(LookupResult(age, Sent(v4), Sent(v6))) else None
  {
  }

  lemma {:induction false} AgeFirst(age: U32, hosts: seq<Record>, recs: seq<Record>)
    requires recs == [NumberRecord(AGE, age)] + hosts && Ages(hosts) == []
    ensures Ages(recs) == [age] && Others(recs) == Others(hosts)
  {
    AgeKind(age);
    OneFirst(NumberRecord(AGE, age), hosts);
  }

  /** The records of a result are read back as what was sent of it, if any host was. */
  lemma {:induction false} RecordsRead(r: LookupResult, recs: seq<Record>)
    requires WellFormed(r) && recs == ResultRecords(r)
    ensures ResultFromRecords(recs) ==
            if IsSet(r.v4) || IsSet(r.v6) then Some(LookupResult(r.age, Sent(r.v4), Sent(r.v6))) else None
  {
    var hosts := HostRecords(TYPE_A, r.v4) + HostRecords(TYPE_AAAA, r.v6);
    HostsRead(r.v4, r.v6, hosts);
    AgeFirst(r.age, hosts, recs);
    ResultFromParts(recs, r.age, r.v4, r.v6);
  }

  lemma {:induction false} FewRecords(r: LookupResult)
    requires WellFormed(r)
    ensures |ResultRecords(r)| <= 5 && DataLength(ResultRecords(r)) <= 57
  {
    PrintLength(r.age, 10);
    if r.v4.Host? { PrintLength(r.v4.port, 5); }
    if r.v6.Host? { PrintLength(r.v6.port, 5); }
    DataLengthAppend(HostRecords(TYPE_A, r.v4), HostRecords(TYPE_AAAA, r.v6));
    assert ResultRecords(r)[1..] == HostRecords(TYPE_A, r.v4) + HostRecords(TYPE_AAAA, r.v6);
    HostLength(TYPE_A, r.v4);
    HostLength(TYPE_AAAA, r.v6);
  }

  lemma {:induction false} HostLength(rtype: U16, h: Host)
    requires h.Host? ==> |h.addr| <= 16
    ensures DataLength(HostRecords(rtype, h)) == if IsSet(h) then |h.addr| + 6 + |Print(h.port)| else 0
  {
    if IsSet(h) {
      var recs := HostRecords(rtype, h);
      assert recs[1..] == [NumberRecord(PORT, h.port)];
      assert DataLength(recs[1..]) == |NumberRecord(PORT, h.port).data|;
    }
  }

  lemma {:induction false} DataLengthAppend(a: seq<Record>, b: seq<Record>)
    ensures DataLength(a + b) == DataLength(a) + DataLength(b)
  {
    if a == [] {
      assert a + b == b;
    } else {
      assert (a + b)[1..] == a[1..] + b;
      DataLengthAppend(a[1..], b);
    }
  }

  /**
   End to end: osmo_mdns_result_decode() after osmo_mdns_result_encode(). For
   every packet id, valid query, suffix and result, the packet exists exactly when
   the domain can be encoded. It is then read back as the same id and query and
   the same age, addresses and ports exactly when the labels of the suffix are
   short and a host is set; a host without a port is not sent.
   */
  lemma {:induction false} ResultPacketRoundTrip(id: U16, q: Query, r: LookupResult, suffix: seq<Octet>)
    requires ValidQuery(q) && NulFree(q.service) && NulFree(suffix) && WellFormed(r)
    ensures ResultEncode(id, q, r, suffix).Some? <==> Encodable(q, suffix)
    ensures Encodable(q, suffix) ==>
              ResultDecode(ResultEncode(id, q, r, suffix).value, suffix) ==
              if ShortLabels(suffix) && (IsSet(r.v4) || IsSet(r.v6))
              then Some((id, q, LookupResult(r.age, Sent(r.v4), Sent(r.v6)))) else None
  {
    DomainRoundTrip(q, suffix);
    var domain := DomainFromQuery(q, suffix).value;
    EncodableIff(q, suffix, domain);
    ShortLabelsIff(q, suffix, domain);
    DomainNulFree(q, suffix, domain);
    if Encodable(q, suffix) {
      FewRecords(r);
      RecordsRead(r, ResultRecords(r));
      AnswerRoundTrip(id, domain, ResultRecords(r));
    }
  }

  const DEFAULT_SUFFIX_LEN := 16  // "mdns.osmocom.org"
  const MSGB_SIZE := 1024

  /** With a suffix as long as the default one, every result fits the message buffer of 1024 octets. */
  lemma {:induction false} ResultFits(id: U16, q: Query, r: LookupResult, suffix: seq<Octet>)
    requires ValidQuery(q) && WellFormed(r) && |suffix| <= DEFAULT_SUFFIX_LEN
    requires ResultEncode(id, q, r, suffix).Some?
    ensures |ResultEncode(id, q, r, suffix).value| <= 649 < MSGB_SIZE
  {
    var domain, recs := DomainFromQuery(q, suffix).value, ResultRecords(r);
    assert |recs| <= 5 && DataLength(recs) <= 57 by {
      FewRecords(r);
    }
    assert |ResultEncode(id, q, r, suffix).value| == 12 + |recs| * (|domain| + 12) + DataLength(recs) by {
      AnswerLength(id, domain, recs);
    }
    assert |domain| <= 64 + 1 + 15 + 1 + 6 + 1 + 16;
    FewTimes(|recs|, |domain| + 12);
  }

  lemma {:induction false} FewTimes(n: nat, len: nat)
    requires n <= 5 && len <= 116
    ensures n * len <= 580
  {
  }

  // ---- The packet functions, built on the loops below them ----

  /** query_from_domain() */
  method ReadQuery(domain: seq<Octet>, suffix: seq<Octet>) returns (q: Option<Query>)
    ensures q == QueryFromDomain(domain, suffix)
  {
    var len := |domain| - |suffix| - 1;
    if len <= 0 || len >= MAX_NAME_LEN {
      return None;
    }
    if domain[len] != DOT || domain[len + 1..] != suffix {
      return None;
    }
    var parsed := QueryInitFromDomainStr(domain[..len]);
    q := if parsed.Ok? then Some(parsed.query) else None;
  }

  /** osmo_mdns_query_encode() */
  method EncodeQueryPacket(id: U16, q: Query, suffix: seq<Octet>) returns (r: Option<seq<Octet>>)
    requires NulFree(q.service) && NulFree(q.id) && NulFree(suffix)
    ensures r == QueryEncode(id, q, suffix)
  {
    var domain := DomainFromQuery(q, suffix);
    if domain.None? {
      return None;
    }
    DomainNulFree(q, suffix, domain.value);
    var msg := new Msgb();
    var req := Request(id, domain.value, TYPE_ALL);
    var ok := RequestEncode(msg, req);
    assert ok ==> [] + RequestOctets(req).value == RequestOctets(req).value;
    r := if ok then Some(msg.data) else None;
  }

  /** osmo_mdns_result_encode() */
  method EncodeResultPacket(id: U16, q: Query, res: LookupResult, suffix: seq<Octet>) returns (r: Option<seq<Octet>>)
    requires NulFree(q.service) && NulFree(q.id) && NulFree(suffix) && WellFormed(res)
    ensures r == ResultEncode(id, q, res, suffix)
  {
    var domain := DomainFromQuery(q, suffix);
    if domain.None? {
      return None;
    }
    DomainNulFree(q, suffix, domain.value);
    var msg := new Msgb();
    var ok := AnswerEncode(msg, id, domain.value, ResultRecords(res));
    ghost var octets := AnswerOctets(id, domain.value, ResultRecords(res));
    assert ok ==> [] + octets.value == octets.value;
    r := if ok then Some(msg.data) else None;
  }

  /** osmo_mdns_result_decode() */
  method DecodeResultPacket(data: seq<Octet>, suffix: seq<Octet>) returns (r: Option<(U16, Query, LookupResult)>)
    ensures r == ResultDecode(data, suffix)
  {
    var ans := AnswerDecode(data);
    if ans.None? || ans.value.domain.None? {
      return None;
    }
    var q := ReadQuery(ans.value.domain.value, suffix);
    if q.None? {
      return None;
    }
    var res := ResultFromAnswer(ans.value.records);
    r := if res.None? then None else Some((ans.value.id, q.value, res.value));
  }

  lemma {:induction false} DomainNulFree(q: Query, suffix: seq<Octet>, domain: seq<Octet>)
    requires DomainFromQuery(q, suffix) == Some(domain)
    requires NulFree(q.service) && NulFree(q.id) && NulFree(suffix)
    ensures NulFree(domain)
  {
    var name := TypeName(q.idType);
    assert NulFree(name);
    assert NulFree(q.id + ([DOT] + name));
    assert NulFree(q.service + ([DOT] + (q.id + ([DOT] + name))));
  }
}
