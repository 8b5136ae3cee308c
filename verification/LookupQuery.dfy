/**
 Lookup queries and their domain strings: mslookup.c.
 */
module LookupQuery {
  import opened Octets

  const SERVICE_MAXLEN := 64
  const IMSI_MIN_DIGITS := 6
  const IMSI_MAX_DIGITS := 15
  const MSISDN_MIN_DIGITS := 1
  const MSISDN_MAX_DIGITS := 15

  datatype IdType = NoId | Imsi | Msisdn

  datatype Query = Query(service: seq<Octet>, idType: IdType, id: seq<Octet>)

  datatype Parsed = Ok(query: Query) | Err(rc: int)

  predicate Digits(s: seq<Octet>, lo: nat, hi: nat) {
    lo <= |s| <= hi && forall i :: 0 <= i < |s| ==> 48 <= s[i] <= 57
  }

  /** osmo_mslookup_id_valid() */
  predicate ValidId(t: IdType, id: seq<Octet>) {
    match t
    case NoId => false
    case Imsi => Digits(id, IMSI_MIN_DIGITS, IMSI_MAX_DIGITS)
    case Msisdn => Digits(id, MSISDN_MIN_DIGITS, MSISDN_MAX_DIGITS)
  }

  /** What osmo_mslookup_client_request() demands of a query, and the size of the service array. */
  predicate ValidQuery(q: Query) {
    0 < |q.service| <= SERVICE_MAXLEN && ValidId(q.idType, q.id)
  }

  function TypeName(t: IdType): seq<Octet> {
    match t
    case NoId => [110, 111, 110, 101]                // "none"
    case Imsi => [105, 109, 115, 105]                // "imsi"
    case Msisdn => [109, 115, 105, 115, 100, 110]    // "msisdn"
  }

  function Lower(s: seq<Octet>): (r: seq<Octet>)
    ensures |r| == |s|
    ensures forall i :: 0 <= i < |s| ==> r[i] == if 65 <= s[i] <= 90 then s[i] + 32 else s[i]
  {
    seq(|s|, i requires 0 <= i < |s| => if 65 <= s[i] <= 90 then s[i] + 32 else s[i])
  }

  /** get_string_value() on the table of id type names, which ignores letter case. */
  function TypeOf(name: seq<Octet>): Option<IdType> {
    if Lower(name) == TypeName(NoId) then Some(NoId)
    else if Lower(name) == TypeName(Imsi) then Some(Imsi)
    else if Lower(name) == TypeName(Msisdn) then Some(Msisdn)
    else None
  }

  /** "service.id.type", as the domain string of a query begins. */
  function QueryText(service: seq<Octet>, id: seq<Octet>, name: seq<Octet>): seq<Octet> {
    service + ([DOT] + (id + ([DOT] + name)))
  }

  /** token(): 0, or why a piece of the string does not fit its array. */
  function Token(size: nat, start: nat, end: nat): int {
    if start >= end then -10 else if end - start >= size then -11 else 0
  }

  /** The pieces between the last two dots. */
  function ParseParts(domain: seq<Octet>, second: nat, last: nat): Parsed
    requires second < last < |domain|
  {
    if last + 1 == |domain| then Err(-4)
    else
      var id := domain[second + 1..last];
      match TypeOf(domain[last + 1..])
      case Some(Imsi) =>
        if Token(IMSI_MAX_DIGITS + 1, second + 1, last) != 0 then Err(Token(IMSI_MAX_DIGITS + 1, second + 1, last))
        else if !ValidId(Imsi, id) then Err(-5)
        else Service(domain, second, Imsi, id)
      case Some(Msisdn) =>
        if Token(MSISDN_MAX_DIGITS + 1, second + 1, last) != 0 then Err(Token(MSISDN_MAX_DIGITS + 1, second + 1, last))
        else if !ValidId(Msisdn, id) then Err(-6)
        else Service(domain, second, Msisdn, id)
      case _ => Err(-7)
  }

  function Service(domain: seq<Octet>, second: nat, t: IdType, id: seq<Octet>): Parsed
    requires second <= |domain|
  {
    var rc := Token(SERVICE_MAXLEN + 1, 0, second);
    if rc != 0 then Err(rc) else Ok(Query(domain[..second], t, id))
  }

  function ParseQuery(domain: seq<Octet>): Parsed {
    var last := LastIndex(domain, DOT, |domain|);
    if last < 0 then Err(-2)
    else if last == 0 then Err(-3)
    else
      var second := LastIndex(domain, DOT, last);
      if second <= 0 then Err(-3) else ParseParts(domain, second, last)
  }

  /** osmo_mslookup_query_init_from_domain_str(): the backward scan for the second last dot. */
  method QueryInitFromDomainStr(domain: seq<Octet>) returns (r: Parsed)
    ensures r == ParseQuery(domain)
  {
    var last := LastIndex(domain, DOT, |domain|);
    if last < 0 {
      return Err(-2);
    }
    if last <= 0 {
      return Err(-3);
    }
    var second := last - 1;
    while second > 0 && domain[second] != DOT
      invariant 0 <= second < last
      invariant forall j :: second < j < last ==> domain[j] != DOT
    {
      second := second - 1;
    }
    if second == 0 || domain[second] != DOT {
      return Err(-3);
    }
    LastIndexIs(domain, DOT, last, second);
    r := ParseParts(domain, second, last);
  }

  lemma {:induction false} LastIndexIs(s: seq<Octet>, c: Octet, n: nat, k: nat)
    requires k < n <= |s| && s[k] == c && forall j :: k < j < n ==> s[j] != c
    ensures LastIndex(s, c, n) == k
  {
    var i := LastIndex(s, c, n);
    assert !(i < k);
  }

  /** Where the two last dots of "service.id.type" are, if id and type have none. */
  lemma {:induction false} TwoLastDots(domain: seq<Octet>, service: seq<Octet>, id: seq<Octet>, name: seq<Octet>) returns (last: nat)
    requires domain == QueryText(service, id, name)
    requires Free(id, DOT) && Free(name, DOT)
    ensures |service| < last < |domain|
    ensures LastIndex(domain, DOT, |domain|) == last
    ensures LastIndex(domain, DOT, last) == |service|
    ensures domain[..|service|] == service
    ensures domain[|service| + 1..last] == id
    ensures domain[last + 1..] == name
  {
    last := |service| + 1 + |id|;
    assert domain[..|service|] == service;
    assert domain[|service| + 1..last] == id;
    assert domain[last + 1..] == name;
    assert forall j :: |service| < j < last ==> domain[j] == id[j - |service| - 1];
    assert forall j :: last < j < |domain| ==> domain[j] == name[j - last - 1];
    LastIndexIs(domain, DOT, |domain|, last);
    LastIndexIs(domain, DOT, last, |service|);
  }

  lemma {:induction false} NameHasNoDot(name: seq<Octet>, t: IdType)
    requires Lower(name) == TypeName(t)
    ensures Free(name, DOT)
  {
    forall i | 0 <= i < |name| ensures name[i] != DOT {
      assert Lower(name)[i] == TypeName(t)[i];
    }
  }

  /** What follows the last dot, if there is a query in front of it. */
  function TypeText(domain: seq<Octet>): seq<Octet> {
    domain[LastIndex(domain, DOT, |domain|) + 1..]
  }

  lemma {:induction false} TypeOfName(name: seq<Octet>, t: IdType)
    ensures TypeOf(name) == Some(t) <==> Lower(name) == TypeName(t)
  {
    assert TypeName(NoId)[0] != TypeName(Imsi)[0];
    assert |TypeName(Msisdn)| != |TypeName(Imsi)| && |TypeName(Msisdn)| != |TypeName(NoId)|;
  }

  lemma {:induction false} PartsAreQuery(domain: seq<Octet>, second: nat, last: nat, q: Query)
    requires 0 < second < last < |domain|
    ensures ParseParts(domain, second, last) == Ok(q) <==>
            && ValidQuery(q)
            && q.service == domain[..second] && q.id == domain[second + 1..last]
            && Lower(domain[last + 1..]) == TypeName(q.idType)
  {
    TypeOfName(domain[last + 1..], q.idType);
    if last + 1 == |domain| {
      assert |TypeName(q.idType)| > 0;
    }
  }

  /** A string with a dot at both places is the text of its three pieces. */
  lemma {:induction false} TextOfPieces(domain: seq<Octet>, second: nat, last: nat)
    requires second < last < |domain| && domain[second] == DOT && domain[last] == DOT
    ensures domain == QueryText(domain[..second], domain[second + 1..last], domain[last + 1..])
  {
    assert domain == domain[..second] + domain[second..];
    assert domain[second..] == [DOT] + domain[second + 1..];
    assert domain[second + 1..] == domain[second + 1..last] + domain[last..];
    assert domain[last..] == [DOT] + domain[last + 1..];
  }

  lemma {:induction false} ParseGivesParts(domain: seq<Octet>, q: Query) returns (second: nat, last: nat)
    requires ParseQuery(domain) == Ok(q)
    ensures 0 < second < last < |domain| && domain[second] == DOT && domain[last] == DOT
    ensures ParseParts(domain, second, last) == Ok(q) && TypeText(domain) == domain[last + 1..]
  {
    last := LastIndex(domain, DOT, |domain|);
    second := LastIndex(domain, DOT, last);
  }

  lemma {:induction false} ParseGivesText(domain: seq<Octet>, q: Query)
    requires ParseQuery(domain) == Ok(q)
    ensures ValidQuery(q)
    ensures domain == QueryText(q.service, q.id, TypeText(domain))
    ensures Lower(TypeText(domain)) == TypeName(q.idType)
  {
    var second, last := ParseGivesParts(domain, q);
    PartsAreQuery(domain, second, last, q);
    TextOfPieces(domain, second, last);
  }

  lemma {:induction false} PartsParse(domain: seq<Octet>, q: Query, last: nat)
    requires ValidQuery(q) && |q.service| < last < |domain|
    requires LastIndex(domain, DOT, |domain|) == last && LastIndex(domain, DOT, last) == |q.service|
    requires domain[..|q.service|] == q.service && domain[|q.service| + 1..last] == q.id
    requires Lower(domain[last + 1..]) == TypeName(q.idType)
    ensures ParseQuery(domain) == Ok(q) && TypeText(domain) == domain[last + 1..]
  {
    PartsAreQuery(domain, |q.service|, last, q);
  }

  lemma {:induction false} TextParses(domain: seq<Octet>, q: Query, name: seq<Octet>)
    requires domain == QueryText(q.service, q.id, name)
    requires ValidQuery(q) && Lower(name) == TypeName(q.idType)
    ensures ParseQuery(domain) == Ok(q) && TypeText(domain) == name
  {
    NameHasNoDot(name, q.idType);
    var last := TwoLastDots(domain, q.service, q.id, name);
    PartsParse(domain, q, last);
  }

  /**
   The parser and the printer undo each other: a string parses to a query exactly
   when that query is valid and the string is its text, up to the letter case of
   the id type.
   */
  lemma {:induction false} ParseIsInverse(domain: seq<Octet>, q: Query)
    ensures ParseQuery(domain) == Ok(q) <==>
            && ValidQuery(q)
            && domain == QueryText(q.service, q.id, TypeText(domain))
            && Lower(TypeText(domain)) == TypeName(q.idType)
  {
    if ParseQuery(domain) == Ok(q) {
      ParseGivesText(domain, q);
    }
    if && ValidQuery(q) && domain == QueryText(q.service, q.id, TypeText(domain))
       && Lower(TypeText(domain)) == TypeName(q.idType) {
      TextParses(domain, q, TypeText(domain));
    }
  }

  /** Printing a valid query with the canonical type name and parsing it gives the query back. */
  lemma {:induction false} PrintParse(q: Query)
    requires ValidQuery(q)
    ensures ParseQuery(QueryText(q.service, q.id, TypeName(q.idType))) == Ok(q)
  {
    assert Lower(TypeName(q.idType)) == TypeName(q.idType);
    TextParses(QueryText(q.service, q.id, TypeName(q.idType)), q, TypeName(q.idType));
  }

  /** Without a dot there is no id type. */
  lemma {:induction false} ParseNeedsDot(domain: seq<Octet>)
    ensures Free(domain, DOT) ==> ParseQuery(domain) == Err(-2)
    ensures !Free(domain, DOT) ==> ParseQuery(domain) != Err(-2)
  {
    var last := LastIndex(domain, DOT, |domain|);
    if last > 0 {
      var second := LastIndex(domain, DOT, last);
      if second > 0 {
        PartsNotTwo(domain, second, last);
      }
    }
  }

  lemma {:induction false} PartsNotTwo(domain: seq<Octet>, second: nat, last: nat)
    requires second < last < |domain|
    ensures ParseParts(domain, second, last) != Err(-2)
  {
  }

  /** Without anything before the last two dots there is no service. */
  lemma {:induction false} ParseNeedsService(domain: seq<Octet>, id: seq<Octet>, name: seq<Octet>)
    requires domain == QueryText([], id, name) && Free(id, DOT) && Free(name, DOT)
    ensures ParseQuery(domain) == Err(-3)
  {
    var _ := TwoLastDots(domain, [], id, name);
  }

  /**
   What becomes of three pieces of a string: the id type is looked at first, then the id,
   then the service, and each refusal has its own code.
   */
  lemma {:induction false} ParseRefuses(domain: seq<Octet>, service: seq<Octet>, id: seq<Octet>, name: seq<Octet>)
    requires domain == QueryText(service, id, name) && service != [] && Free(id, DOT) && Free(name, DOT)
    ensures ParseQuery(domain) ==
            if name == [] then Err(-4)
            else if Lower(name) != TypeName(Imsi) && Lower(name) != TypeName(Msisdn) then Err(-7)
            else if id == [] then Err(-10)
            else if |id| > 15 then Err(-11)
            else if Lower(name) == TypeName(Imsi) && !Digits(id, 6, 15) then Err(-5)
            else if Lower(name) == TypeName(Msisdn) && !Digits(id, 1, 15) then Err(-6)
            else if |service| > 64 then Err(-11)
            else Ok(Query(service, if Lower(name) == TypeName(Imsi) then Imsi else Msisdn, id))
  {
    var _ := TwoLastDots(domain, service, id, name);
    TypeOfName(name, Imsi);
    TypeOfName(name, Msisdn);
    assert |TypeName(Imsi)| != |TypeName(Msisdn)|;
  }
}
