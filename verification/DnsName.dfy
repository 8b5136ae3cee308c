/**
 Domain names on the wire: osmo_mdns_rfc_qname_encode() and
 osmo_mdns_rfc_qname_decode(), section 4.1.2 of RFC 1035.
 */
module DnsName {
  import opened Octets

  const MAX_NAME_LEN := 255

  // ---- Names as lists of labels ----

  datatype Labels = End | Label(head: seq<Octet>, tail: Labels)

  function Split(domain: seq<Octet>): Labels
    decreases |domain|
  {
    var k := FirstIndex(domain, DOT);
    if k == |domain| then Label(domain, End) else Label(domain[..k], Split(domain[k + 1..]))
  }

  function Join(labels: Labels): seq<Octet> {
    match labels
    case End => []
    case Label(l, End) => l
    case Label(l, more) => l + ([DOT] + Join(more))
  }

  /** Every label has at least `lo` and at most `hi` octets. */
  predicate Within(labels: Labels, lo: nat, hi: nat) {
    labels.Label? ==> lo <= |labels.head| <= hi && Within(labels.tail, lo, hi)
  }

  /** No label holds the octet `c`. */
  predicate Without(labels: Labels, c: Octet) {
    labels.Label? ==> Free(labels.head, c) && Without(labels.tail, c)
  }

  /**
   The wire form of a name, up to and with its terminating zero octet, and what
   follows it. The length octet is the length converted to `char`.
   */
  function Wire(labels: Labels, rest: seq<Octet>): seq<Octet> {
    match labels
    case End => [0] + rest
    case Label(l, more) => [|l| % 0x100] + (l + Wire(more, rest))
  }

  /** Names are refused if they are empty, or if a dot stands at an end or next to another one. */
  predicate NoEmptyLabel(domain: seq<Octet>) {
    Within(Split(domain), 1, |domain|)
  }

  /** The lengths that survive being read back through a signed `char`. */
  predicate ShortLabels(domain: seq<Octet>) {
    Within(Split(domain), 0, 0x7F)
  }

  lemma {:induction false} JoinSplit(domain: seq<Octet>)
    ensures Split(domain).Label? && Join(Split(domain)) == domain
    decreases |domain|
  {
    var k := FirstIndex(domain, DOT);
    if k < |domain| {
      JoinSplit(domain[k + 1..]);
      assert domain == domain[..k] + ([DOT] + domain[k + 1..]);
    }
  }

  lemma {:induction false} SplitHead(head: seq<Octet>, tail: seq<Octet>)
    requires Free(head, DOT)
    ensures Split(head) == Label(head, End)
    ensures Split(head + ([DOT] + tail)) == Label(head, Split(tail))
  {
    var domain := head + ([DOT] + tail);
    var k := FirstIndex(domain, DOT);
    assert domain[|head|] == DOT;
    assert forall j :: 0 <= j < |head| ==> domain[j] == head[j];
    assert domain[..k] == head && domain[k + 1..] == tail;
  }

  lemma {:induction false} SplitJoin(labels: Labels)
    requires labels.Label? && Without(labels, DOT)
    ensures Split(Join(labels)) == labels
  {
    SplitHead(labels.head, Join(labels.tail));
    if labels.tail.Label? {
      SplitJoin(labels.tail);
    }
  }

  lemma {:induction false} SplitParts(domain: seq<Octet>)
    ensures Without(Split(domain), DOT)
    ensures NulFree(domain) ==> Without(Split(domain), NUL)
    decreases |domain|
  {
    var k := FirstIndex(domain, DOT);
    if k < |domain| {
      SplitParts(domain[k + 1..]);
    }
  }

  lemma {:induction false} SplitBounds(domain: seq<Octet>, hi: nat)
    requires |domain| <= hi
    ensures Within(Split(domain), 0, hi)
    decreases |domain|
  {
    var k := FirstIndex(domain, DOT);
    if k < |domain| {
      SplitBounds(domain[k + 1..], hi);
    }
  }

  lemma {:induction false} DottedAssoc(a: seq<Octet>, b: seq<Octet>, c: seq<Octet>)
    ensures (a + ([DOT] + b)) + ([DOT] + c) == a + ([DOT] + (b + ([DOT] + c)))
  {
  }

  /** The labels of two names joined by a dot are the labels of both. */
  lemma {:induction false} SplitDotted(a: seq<Octet>, b: seq<Octet>, domain: seq<Octet>, lo: nat, hi: nat)
    requires domain == a + ([DOT] + b)
    ensures Within(Split(domain), lo, hi) <==> Within(Split(a), lo, hi) && Within(Split(b), lo, hi)
    decreases |a|
  {
    var k := FirstIndex(a, DOT);
    if k == |a| {
      SplitHead(a, b);
    } else {
      var tail := a[k + 1..] + ([DOT] + b);
      SplitDotted(a[k + 1..], b, tail, lo, hi);
      SplitTail(a, k, b, domain, tail);
    }
  }

  lemma {:induction false} SplitTail(a: seq<Octet>, k: nat, b: seq<Octet>, domain: seq<Octet>, tail: seq<Octet>)
    requires k == FirstIndex(a, DOT) && k < |a|
    requires domain == a + ([DOT] + b) && tail == a[k + 1..] + ([DOT] + b)
    ensures Split(a) == Label(a[..k], Split(a[k + 1..]))
    ensures Split(domain) == Label(a[..k], Split(tail))
  {
    assert a == a[..k] + ([DOT] + a[k + 1..]);
    DottedAssoc(a[..k], a[k + 1..], b);
    SplitHead(a[..k], tail);
  }

  /** The bounds of a list of labels can be checked one at a time. */
  lemma {:induction false} WithinBoth(labels: Labels, lo: nat, hi: nat, hi': nat)
    requires Within(labels, lo, hi) && (hi <= hi' || Within(labels, 0, hi'))
    ensures Within(labels, lo, hi')
  {
    if labels.Label? {
      WithinBoth(labels.tail, lo, hi, hi');
    }
  }

  /** One length octet per label and one zero octet: two more octets than the text. */
  lemma {:induction false} WireLength(labels: Labels, rest: seq<Octet>)
    requires labels.Label?
    ensures |Wire(labels, rest)| == |Join(labels)| + 2 + |rest|
  {
    if labels.tail.Label? {
      WireLength(labels.tail, rest);
    }
  }

  lemma {:induction false} WireRest(labels: Labels, rest: seq<Octet>)
    ensures Wire(labels, []) + rest == Wire(labels, rest)
  {
    if labels.Label? {
      WireRest(labels.tail, rest);
      Regroup([|labels.head| % 0x100], labels.head, Wire(labels.tail, []), rest);
    }
  }

  lemma {:induction false} Regroup(a: seq<Octet>, b: seq<Octet>, c: seq<Octet>, d: seq<Octet>)
    ensures (a + (b + c)) + d == a + (b + (c + d))
    ensures (a + b + c) + d == a + (b + (c + d))
  {
  }

  // ---- Encoding ----

  /** A name as it is put into a message, with its terminating zero octet. */
  function EncodeName(domain: seq<Octet>): (r: Option<seq<Octet>>)
    ensures r.Some? ==> |r.value| == |domain| + 2
  {
    if |domain| <= MAX_NAME_LEN && NoEmptyLabel(domain) then
      JoinSplit(domain);
      WireLength(Split(domain), []);
      Some(Wire(Split(domain), []))
    else None
  }

  lemma {:induction false} SplitFirst(rest: seq<Octet>, k: nat)
    requires k == FirstIndex(rest, DOT)
    ensures Split(rest) == Label(rest[..k], if k == |rest| then End else Split(rest[k + 1..]))
  {
    assert k == |rest| ==> rest[..k] == rest;
  }

  /** osmo_mdns_rfc_qname_encode(): the strsep() loop. */
  method QnameEncode(domain: seq<Octet>) returns (r: Option<seq<Octet>>)
    requires NulFree(domain)
    ensures r == EncodeName(domain)
  {
    if |domain| > MAX_NAME_LEN {
      return None;
    }
    var buf: seq<Octet> := [];
    var rest, more := domain, true;
    ghost var left := Split(domain);
    while more
      invariant |rest| <= |domain|
      invariant left == if more then Split(rest) else End
      invariant NoEmptyLabel(domain) <==> Within(left, 1, |domain|)
      invariant Wire(Split(domain), []) == buf + Wire(left, [])
      decreases more, |rest|
    {
      var k := FirstIndex(rest, DOT);
      SplitFirst(rest, k);
      if k == 0 {
        return None;
      }
      var piece := rest[..k];
      left := left.tail;
      Regroup(buf, [k % 0x100], piece, Wire(left, []));
      buf := buf + [k % 0x100] + piece;
      if k == |rest| {
        more := false;
      } else {
        rest := rest[k + 1..];
      }
    }
    assert Wire(End, []) == [0];
    r := Some(buf + [0]);
  }

  // ---- Decoding ----

  /**
   The labels that stand at the start of `q`. A length octet of 128 or more is
   negative as a `char`; after its conversion to `size_t` the length test refuses it.
   */
  function Frame(q: seq<Octet>): Option<Labels> {
    if q == [] then None
    else if q[0] == 0 then Some(End)
    else if q[0] >= 0x80 || q[0] + 1 >= |q| then None
    else match Frame(q[q[0] + 1..])
      case None => None
      case Some(more) => Some(Label(q[1..q[0] + 1], more))
  }

  /** Labels written one after the other to a buffer that holds `buf`. */
  function Assemble(buf: seq<Octet>, labels: Labels): Option<seq<Octet>>
    decreases labels
  {
    if labels.End? then Some(buf)
    else if |buf| + |labels.head| > MAX_NAME_LEN then None
    else if buf != [] && buf[|buf| - 1] == DOT then None
    else Assemble(Extend(buf, labels.head), labels.tail)
  }

  function Extend(buf: seq<Octet>, piece: seq<Octet>): seq<Octet> {
    if buf == [] then piece else buf + ([DOT] + piece)
  }

  function DecodeOnto(q: seq<Octet>, buf: seq<Octet>): Option<seq<Octet>> {
    match Frame(q)
    case None => None
    case Some(labels) => Assemble(buf, labels)
  }

  function DecodeName(q: seq<Octet>): Option<seq<Octet>> {
    match DecodeOnto(q, [])
    case None => None
    case Some(buf) => Some(Chars(buf))
  }

  /** osmo_mdns_rfc_qname_decode(): the label loop. */
  method QnameDecode(qname: seq<Octet>) returns (r: Option<seq<Octet>>)
    ensures r == DecodeName(qname)
  {
    var max := |qname|;
    if max < 1 {
      return None;
    }
    var buf: seq<Octet> := [];
    var q := qname;
    while q[0] != 0
      invariant 0 < |q| && |buf| + |q| <= max
      invariant DecodeOnto(qname, []) == DecodeOnto(q, buf)
      decreases |q|
    {
      if |buf| >= max {
        return None;
      }
      var len := q[0];
      if len >= 0x80 || len + 1 >= |q| || |buf| + len > MAX_NAME_LEN {
        return None;
      }
      if buf != [] && buf[|buf| - 1] == DOT {
        return None;
      }
      buf := Extend(buf, q[1..len + 1]);
      q := q[len + 1..];
    }
    r := Some(Chars(buf));
  }

  // ---- Encoding and decoding undo each other ----

  /** What has been read so far, joined with labels still to come. */
  function JoinOnto(buf: seq<Octet>, labels: Labels): seq<Octet> {
    if labels.End? then buf else Extend(buf, Join(labels))
  }

  lemma {:induction false} JoinOntoStep(buf: seq<Octet>, labels: Labels)
    requires labels.Label? && labels.head != []
    ensures JoinOnto(Extend(buf, labels.head), labels.tail) == JoinOnto(buf, labels)
    ensures |buf| + |labels.head| <= |JoinOnto(buf, labels)|
  {
    var l, more := labels.head, labels.tail;
    if more.Label? {
      assert Join(labels) == l + ([DOT] + Join(more));
      if buf != [] {
        DottedAssoc(buf, l, Join(more));
      }
    }
  }

  lemma {:induction false} FrameStep(l: seq<Octet>, tail: seq<Octet>)
    requires 0 < |l| <= 0xFF && tail != []
    ensures Frame([|l|] + (l + tail)) ==
            if |l| < 0x80 && Frame(tail).Some? then Some(Label(l, Frame(tail).value)) else None
  {
    var q := [|l|] + (l + tail);
    assert q[1..|l| + 1] == l && q[|l| + 1..] == tail;
  }

  /** The wire form is cut back into its labels exactly when every label is short. */
  lemma {:induction false} FrameWire(labels: Labels, rest: seq<Octet>)
    requires Within(labels, 1, 0xFF)
    ensures Frame(Wire(labels, rest)) == if Within(labels, 0, 0x7F) then Some(labels) else None
  {
    if labels.Label? {
      FrameWire(labels.tail, rest);
      FrameStep(labels.head, Wire(labels.tail, rest));
    }
  }

  /** Whatever is cut into labels is their wire form. */
  lemma {:induction false} FrameIsWire(q: seq<Octet>) returns (rest: seq<Octet>)
    requires Frame(q).Some?
    ensures Within(Frame(q).value, 1, 0x7F) && q == Wire(Frame(q).value, rest)
    decreases |q|
  {
    if q[0] == 0 {
      rest := q[1..];
    } else {
      rest := FrameIsWire(q[q[0] + 1..]);
      assert q == [q[0]] + (q[1..q[0] + 1] + q[q[0] + 1..]);
    }
  }

  /** The buffer ends up with the labels joined by dots. */
  lemma {:induction false} AssembleJoins(buf: seq<Octet>, labels: Labels)
    requires Within(labels, 1, 0xFF)
    ensures Assemble(buf, labels).Some? ==> Assemble(buf, labels).value == JoinOnto(buf, labels)
    ensures (|JoinOnto(buf, labels)| <= MAX_NAME_LEN && Without(labels, DOT) &&
             (buf == [] || buf[|buf| - 1] != DOT)) ==> Assemble(buf, labels).Some?
    decreases labels
  {
    if labels.Label? {
      JoinOntoStep(buf, labels);
      AssembleJoins(Extend(buf, labels.head), labels.tail);
    }
  }

  /**
   Every name the encoder accepts comes back from the decoder, whatever follows
   it in the packet, exactly when none of its labels is longer than 127 octets.
   */
  lemma {:induction false} NameRoundTrip(domain: seq<Octet>, rest: seq<Octet>)
    requires NulFree(domain) && EncodeName(domain).Some?
    ensures DecodeName(EncodeName(domain).value + rest) ==
            if ShortLabels(domain) then Some(domain) else None
  {
    var labels := Split(domain);
    SplitParts(domain);
    JoinSplit(domain);
    SplitBounds(domain, 0xFF);
    WithinBoth(labels, 1, |domain|, 0xFF);
    WireRest(labels, rest);
    FrameWire(labels, rest);
    AssembleJoins([], labels);
  }

  /** A label of 128 octets is encoded, and not decoded. */
  lemma {:induction false} LongLabelIsLost(domain: seq<Octet>)
    requires domain == seq(128, _ => 97)
    ensures EncodeName(domain).Some? && DecodeName(EncodeName(domain).value).None?
  {
    SplitHead(domain, []);
    assert Within(Label(domain, End), 1, |domain|);
    assert NulFree(domain);
    NameRoundTrip(domain, []);
    var wire := EncodeName(domain).value;
    assert wire + [] == wire;
  }

  /** Whatever is decoded is the wire form of some labels, and the text is theirs up to a NUL octet. */
  lemma {:induction false} DecodedLabels(q: seq<Octet>) returns (labels: Labels, rest: seq<Octet>)
    requires DecodeName(q).Some?
    ensures Within(labels, 1, 0x7F) && q == Wire(labels, []) + rest
    ensures DecodeName(q).value == Chars(Join(labels))
  {
    labels := Frame(q).value;
    rest := FrameIsWire(q);
    WireRest(labels, rest);
    WithinBoth(labels, 1, 0x7F, 0xFF);
    AssembleJoins([], labels);
  }

  /** Labels without dots and NUL octets are written as they were read, if their text is not too long. */
  lemma {:induction false} CleanLabelsEncode(labels: Labels)
    requires labels.Label? && Within(labels, 1, 0x7F) && Without(labels, DOT) && Without(labels, NUL)
    requires |Join(labels)| <= MAX_NAME_LEN
    ensures EncodeName(Chars(Join(labels))) == Some(Wire(labels, []))
  {
    SplitJoin(labels);
    SplitBounds(Join(labels), |Join(labels)|);
    WithinBoth(labels, 1, 0x7F, |Join(labels)|);
    JoinNulFree(labels);
  }

  /** The wire form tells the labels of a name. */
  lemma {:induction false} EncodedLabels(domain: seq<Octet>, labels: Labels)
    requires Within(labels, 1, 0x7F) && EncodeName(domain) == Some(Wire(labels, []))
    ensures Split(domain) == labels
  {
    SplitBounds(domain, 0xFF);
    WithinBoth(Split(domain), 1, |domain|, 0xFF);
    FrameWire(Split(domain), []);
    WithinBoth(labels, 1, 0x7F, 0xFF);
    WithinLower(labels, 0x7F);
    FrameWire(labels, []);
  }

  lemma {:induction false} WithinLower(labels: Labels, hi: nat)
    requires Within(labels, 1, hi)
    ensures Within(labels, 0, hi)
  {
    if labels.Label? {
      WithinLower(labels.tail, hi);
    }
  }

  /**
   The other direction: what is decoded is encoded back to the octets it was read from
   exactly when there is a label, none has a dot or a NUL octet inside, and the text has
   at most 255 octets. The decoder tests the length before it adds the dot, so it can
   also return 256 octets, which the encoder refuses.
   */
  lemma {:induction false} NameReencode(q: seq<Octet>) returns (labels: Labels, rest: seq<Octet>)
    requires DecodeName(q).Some?
    ensures Within(labels, 1, 0x7F) && q == Wire(labels, []) + rest
    ensures EncodeName(DecodeName(q).value) == Some(Wire(labels, [])) <==>
            labels.Label? && Without(labels, DOT) && Without(labels, NUL) && |Join(labels)| <= 255
  {
    labels, rest := DecodedLabels(q);
    var domain := Chars(Join(labels));
    if EncodeName(domain) == Some(Wire(labels, [])) {
      EncodedLabels(domain, labels);
      SplitParts(domain);
      JoinSplit(domain);
    } else if labels.Label? && Without(labels, DOT) && Without(labels, NUL) && |Join(labels)| <= MAX_NAME_LEN {
      CleanLabelsEncode(labels);
    }
  }

  /** A label that is a dot is decoded, and its text is not encoded. */
  lemma {:induction false} DotLabelIsLost()
    ensures DecodeName([1, DOT, 0]) == Some([DOT]) && EncodeName([DOT]).None?
  {
    var q: seq<Octet> := [1, DOT, 0];
    assert q[2..] == [0] && q[1..2] == [DOT];
    assert Frame([0]) == Some(End);
    assert Assemble([DOT], End) == Some([DOT]);
    assert NulFree([DOT]);
    SplitHead([], []);
    assert [] + ([DOT] + []) == [DOT];
    assert !Within(Label([], Split([])), 1, 1);
  }

  lemma {:induction false} JoinNulFree(labels: Labels)
    requires Without(labels, NUL)
    ensures NulFree(Join(labels))
  {
    if labels.Label? {
      JoinNulFree(labels.tail);
    }
  }
}
