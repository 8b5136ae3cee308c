/**
 Request and answer messages and TXT key=value records: mdns_msg.c.
 */
module DnsMessage {
  import opened Octets
  import opened DnsName
  import opened DnsRecord

  datatype Request = Request(id: U16, domain: seq<Octet>, rtype: U16)

  /** A resource record without the name, which all records of an answer share. */
  datatype Record = Record(rtype: U16, data: seq<Octet>)

  /** The domain is absent as long as no record has been read. */
  datatype Answer = Answer(id: U16, domain: Option<seq<Octet>>, records: seq<Record>)

  predicate Sized(recs: seq<Record>) {
    forall i :: 0 <= i < |recs| ==> |recs[i].data| < 0x1_0000
  }

  const BlankHeader := Header(0, 0, 0, 0, 0, 0, 0, 0)

  // ---- Requests ----

  function RequestHeader(id: U16): Header {
    BlankHeader.(id := id, qdcount := 1)
  }

  function RequestOctets(req: Request): (r: Option<seq<Octet>>)
    ensures r.Some? <==> EncodeName(req.domain).Some?
  {
    match QuestionOctets(Question(req.domain, req.rtype, CLASS_IN))
    case None => None
    case Some(question) => Some(HeaderOctets(RequestHeader(req.id)) + question)
  }

  function RequestOf(data: seq<Octet>): Option<Request> {
    if |data| < HEADER_LEN || HeaderOf(data[..HEADER_LEN]).qr != 0 then None
    else match QuestionOf(data[HEADER_LEN..])
      case None => None
      case Some(q) => Some(Request(HeaderOf(data[..HEADER_LEN]).id, q.domain, q.qtype))
  }

  lemma {:induction false} HeaderFirst(h: Header, body: seq<Octet>)
    ensures var data := HeaderOctets(h) + body;
            |data| >= HEADER_LEN && HeaderOf(data[..HEADER_LEN]) == h && data[HEADER_LEN..] == body
  {
    HeaderRoundTrip(h, []);
    assert (HeaderOctets(h) + body)[..HEADER_LEN] == HeaderOctets(h);
  }

  lemma {:induction false} RequestRoundTrip(req: Request)
    requires NulFree(req.domain) && RequestOctets(req).Some?
    ensures RequestOf(RequestOctets(req).value) == if ShortLabels(req.domain) then Some(req) else None
  {
    var q := Question(req.domain, req.rtype, CLASS_IN);
    QuestionRoundTrip(q);
    HeaderFirst(RequestHeader(req.id), QuestionOctets(q).value);
  }

  method RequestEncode(msg: Msgb, req: Request) returns (ok: bool)
    requires NulFree(req.domain)
    modifies msg
    ensures ok <==> RequestOctets(req).Some?
    ensures ok ==> msg.data == old(msg.data) + RequestOctets(req).value
  {
    HeaderEncode(msg, RequestHeader(req.id));
    ok := QuestionEncode(msg, Question(req.domain, req.rtype, CLASS_IN));
    if ok {
      Assoc(old(msg.data), HeaderOctets(RequestHeader(req.id)),
            QuestionOctets(Question(req.domain, req.rtype, CLASS_IN)).value);
    }
  }

  // ---- Answers ----

  function Full(domain: seq<Octet>, rec: Record): ResourceRecord {
    ResourceRecord(domain, rec.rtype, CLASS_IN, 0, rec.data)
  }

  function FullAll(domain: seq<Octet>, recs: seq<Record>): (rrs: seq<ResourceRecord>)
    ensures |rrs| == |recs| && forall i :: 0 <= i < |recs| ==> rrs[i] == Full(domain, recs[i])
  {
    seq(|recs|, i requires 0 <= i < |recs| => Full(domain, recs[i]))
  }

  /** All records one after the other, each with the whole domain. */
  function Body(domain: seq<Octet>, recs: seq<Record>): seq<Octet>
    requires EncodeName(domain).Some? && Sized(recs)
  {
    if recs == [] then []
    else RecordOctets(Full(domain, recs[0])).value + Body(domain, recs[1..])
  }

  /** The record count is cut down to sixteen bits. */
  function AnswerHeader(id: U16, count: nat): Header {
    BlankHeader.(id := id, qr := 1, ancount := count % 0x1_0000)
  }

  function AnswerOctets(id: U16, domain: seq<Octet>, recs: seq<Record>): Option<seq<Octet>>
    requires Sized(recs)
  {
    if recs == [] then Some(HeaderOctets(AnswerHeader(id, 0)))
    else if EncodeName(domain).None? then None
    else Some(HeaderOctets(AnswerHeader(id, |recs|)) + Body(domain, recs))
  }

  /** The records in a packet body, up to its very end. */
  function Unpack(data: seq<Octet>): Option<seq<ResourceRecord>>
    decreases |data|
  {
    if data == [] then Some([])
    else match RecordOf(data)
      case None => None
      case Some((rec, n)) =>
        match Unpack(data[n..])
        case None => None
        case Some(more) => Some([rec] + more)
  }

  function Stripped(rrs: seq<ResourceRecord>): (recs: seq<Record>)
    ensures |recs| == |rrs| && forall i :: 0 <= i < |rrs| ==> recs[i] == Record(rrs[i].rtype, rrs[i].rdata)
  {
    seq(|rrs|, i requires 0 <= i < |rrs| => Record(rrs[i].rtype, rrs[i].rdata))
  }

  predicate OneDomain(rrs: seq<ResourceRecord>) {
    forall i :: 0 <= i < |rrs| ==> rrs[i].domain == rrs[0].domain
  }

  function AnswerOf(data: seq<Octet>): Option<Answer> {
    if |data| < HEADER_LEN then None
    else AnswerFrom(HeaderOf(data[..HEADER_LEN]), Unpack(data[HEADER_LEN..]))
  }

  function AnswerFrom(h: Header, unpacked: Option<seq<ResourceRecord>>): Option<Answer> {
    if h.qr != 1 || unpacked.None? then None
    else
      var rrs := unpacked.value;
      if !OneDomain(rrs) || |rrs| != h.ancount then None
      else Some(Answer(h.id, if rrs == [] then None else Some(rrs[0].domain), Stripped(rrs)))
  }

  /** osmo_mdns_msg_answer_encode(): one record after the other. */
  method AnswerEncode(msg: Msgb, id: U16, domain: seq<Octet>, recs: seq<Record>) returns (ok: bool)
    requires Sized(recs) && NulFree(domain)
    modifies msg
    ensures ok <==> AnswerOctets(id, domain, recs).Some?
    ensures ok ==> msg.data == old(msg.data) + AnswerOctets(id, domain, recs).value
  {
    HeaderEncode(msg, AnswerHeader(id, |recs|));
    ghost var head := msg.data;
    var i := 0;
    while i < |recs|
      invariant 0 <= i <= |recs|
      invariant i > 0 ==> EncodeName(domain).Some?
      invariant i == 0 ==> msg.data == head
      invariant EncodeName(domain).Some? ==> head + Body(domain, recs) == msg.data + Body(domain, recs[i..])
    {
      label before:
      ok := RecordEncode(msg, Full(domain, recs[i]));
      if !ok {
        return;
      }
      assert recs[i..][1..] == recs[i + 1..];
      Assoc(old@before(msg.data), RecordOctets(Full(domain, recs[i])).value, Body(domain, recs[i + 1..]));
      i := i + 1;
    }
    assert recs[i..] == [] && msg.data + [] == msg.data;
    if recs != [] {
      Assoc(old(msg.data), HeaderOctets(AnswerHeader(id, |recs|)), Body(domain, recs));
    }
    ok := true;
  }

  lemma {:induction false} Assoc(a: seq<Octet>, b: seq<Octet>, c: seq<Octet>)
    ensures a + (b + c) == a + b + c
  {
  }

  /** What is left to read, put behind what has been read. */
  function After(done: seq<ResourceRecord>, left: Option<seq<ResourceRecord>>): Option<seq<ResourceRecord>> {
    if left.None? then None else Some(done + left.value)
  }

  /**
   osmo_mdns_msg_answer_decode(): the record loop. It ends because every record
   that is accepted takes at least twelve octets and never more than there are.
   */
  method AnswerDecode(packet: seq<Octet>) returns (r: Option<Answer>)
    ensures r == AnswerOf(packet)
  {
    if |packet| < HEADER_LEN {
      return None;
    }
    var h := HeaderOf(packet[..HEADER_LEN]);
    if h.qr != 1 {
      return None;
    }
    var data := packet[HEADER_LEN..];
    var domain: Option<seq<Octet>> := None;
    var records: seq<Record> := [];
    ghost var done: seq<ResourceRecord> := [];
    AfterNone(Unpack(data));
    while data != []
      invariant Unpack(packet[HEADER_LEN..]) == After(done, Unpack(data))
      invariant records == Stripped(done) && OneDomain(done)
      invariant domain == if done == [] then None else Some(done[0].domain)
      decreases |data|
    {
      var rec := RecordDecode(data);
      if rec.None? {
        return None;
      }
      ghost var left := Unpack(data[rec.value.1..]);
      AfterStep(done, rec.value.0, left);
      if domain.Some? && domain.value != rec.value.0.domain {
        Mismatch(done, rec.value.0, left);
        return None;
      }
      if domain.None? {
        domain := Some(rec.value.0.domain);
      }
      records := records + [Record(rec.value.0.rtype, rec.value.0.rdata)];
      done := done + [rec.value.0];
      data := data[rec.value.1..];
    }
    assert done + [] == done;
    if |records| != h.ancount {
      return None;
    }
    r := Some(Answer(h.id, domain, records));
  }

  lemma {:induction false} AfterNone(left: Option<seq<ResourceRecord>>)
    ensures After([], left) == left
  {
    if left.Some? {
      assert [] + left.value == left.value;
    }
  }

  lemma {:induction false} AfterStep(done: seq<ResourceRecord>, rec: ResourceRecord, left: Option<seq<ResourceRecord>>)
    ensures left.Some? ==> After(done, Some([rec] + left.value)) == After(done + [rec], left)
  {
    if left.Some? {
      assert done + ([rec] + left.value) == done + [rec] + left.value;
    }
  }

  lemma {:induction false} Mismatch(done: seq<ResourceRecord>, rec: ResourceRecord, left: Option<seq<ResourceRecord>>)
    requires done != [] && done[0].domain != rec.domain
    ensures left.Some? ==> !OneDomain(After(done + [rec], left).value)
  {
    if left.Some? {
      var all := After(done + [rec], left).value;
      assert all[|done|] == rec && all[0] == done[0];
    }
  }

  lemma {:induction false} UnpackFirst(w: seq<Octet>, tail: seq<Octet>, data: seq<Octet>, rec: ResourceRecord)
    requires data == w + tail && RecordOf(data) == Some((rec, |w|))
    ensures Unpack(data) == if Unpack(tail).Some? then Some([rec] + Unpack(tail).value) else None
  {
    assert data[|w|..] == tail;
  }

  lemma {:induction false} FullAllFirst(domain: seq<Octet>, recs: seq<Record>)
    requires recs != []
    ensures FullAll(domain, recs) == [Full(domain, recs[0])] + FullAll(domain, recs[1..])
  {
  }

  /** Any number of records under one domain is cut back into these records, if the labels are short. */
  lemma {:induction false} UnpackBody(domain: seq<Octet>, recs: seq<Record>)
    requires NulFree(domain) && EncodeName(domain).Some? && Sized(recs)
    ensures ShortLabels(domain) ==>
              Unpack(Body(domain, recs)) == Some(FullAll(domain, recs))
    ensures !ShortLabels(domain) && recs != [] ==> Unpack(Body(domain, recs)).None?
    decreases |recs|
  {
    if recs != [] {
      var rec, data := Full(domain, recs[0]), Body(domain, recs);
      var w, tail := RecordOctets(rec).value, Body(domain, recs[1..]);
      assert RecordOf(data) == (if ShortLabels(domain) then Some((rec, |w|)) else None) by {
        RecordRoundTrip(rec, tail);
      }
      if ShortLabels(domain) {
        UnpackBody(domain, recs[1..]);
        UnpackFirst(w, tail, data, rec);
        FullAllFirst(domain, recs);
      }
    }
  }

  lemma {:induction false} AnswerParts(h: Header, body: seq<Octet>)
    ensures AnswerOf(HeaderOctets(h) + body) == AnswerFrom(h, Unpack(body))
  {
    HeaderFirst(h, body);
  }

  lemma {:induction false} FullAnswer(h: Header, domain: seq<Octet>, recs: seq<Record>)
    requires recs != [] && h.qr == 1
    ensures AnswerFrom(h, Some(FullAll(domain, recs))) ==
            if |recs| == h.ancount then Some(Answer(h.id, Some(domain), recs)) else None
  {
    assert Stripped(FullAll(domain, recs)) == recs;
  }

  lemma {:induction false} EmptyAnswer(id: U16)
    ensures AnswerOf(HeaderOctets(AnswerHeader(id, 0))) == Some(Answer(id, None, []))
  {
    var octets := HeaderOctets(AnswerHeader(id, 0));
    assert octets + [] == octets;
    AnswerParts(AnswerHeader(id, 0), []);
    assert Stripped([]) == [];
  }

  /**
   An answer that can be encoded is decoded back to the same id, domain and records
   exactly when the labels of the domain are short and the record count fits its
   sixteen bits. An answer without records comes back without its domain.
   */
  lemma {:induction false} AnswerRoundTrip(id: U16, domain: seq<Octet>, recs: seq<Record>)
    requires NulFree(domain) && EncodeName(domain).Some? && Sized(recs)
    ensures AnswerOf(AnswerOctets(id, domain, recs).value) ==
            if recs == [] then Some(Answer(id, None, []))
            else if ShortLabels(domain) && |recs| < 0x1_0000 then Some(Answer(id, Some(domain), recs)) else None
  {
    if recs == [] {
      EmptyAnswer(id);
    } else {
      var h, body := AnswerHeader(id, |recs|), Body(domain, recs);
      assert Unpack(body) == (if ShortLabels(domain) then Some(FullAll(domain, recs)) else None) by {
        UnpackBody(domain, recs);
      }
      assert AnswerOf(HeaderOctets(h) + body) == AnswerFrom(h, Unpack(body)) by {
        AnswerParts(h, body);
      }
      CountFits(id, |recs|);
      FullAnswer(h, domain, recs);
    }
  }

  lemma {:induction false} CountFits(id: U16, count: nat)
    ensures AnswerHeader(id, count).ancount == count <==> count < 0x1_0000
  {
  }

  function DataLength(recs: seq<Record>): nat {
    if recs == [] then 0 else |recs[0].data| + DataLength(recs[1..])
  }

  lemma {:induction false} BodyLength(domain: seq<Octet>, recs: seq<Record>)
    requires EncodeName(domain).Some? && Sized(recs)
    ensures |Body(domain, recs)| == |recs| * (|domain| + 12) + DataLength(recs)
    decreases |recs|
  {
    if recs != [] {
      BodyLength(domain, recs[1..]);
      assert |recs| * (|domain| + 12) == (|recs| - 1) * (|domain| + 12) + (|domain| + 12);
    }
  }

  /** The size of an answer packet: the header, and per record its name, ten octets of fields and its data. */
  lemma {:induction false} AnswerLength(id: U16, domain: seq<Octet>, recs: seq<Record>)
    requires EncodeName(domain).Some? && Sized(recs)
    ensures AnswerOctets(id, domain, recs).Some?
    ensures |AnswerOctets(id, domain, recs).value| == 12 + |recs| * (|domain| + 12) + DataLength(recs)
  {
    BodyLength(domain, recs);
  }

  // ---- TXT records that hold key=value ----

  const EQUALS: Octet := 61
  const MAX_CHARACTER_STRING_LEN := 256
  const TXT_BUF_LEN := 63  // the characters that fit the 64-octet key and value buffers

  function TxtRecord(key: seq<Octet>, value: seq<Octet>): (r: Option<Record>)
    ensures r.None? <==> |key| + 1 + |value| > 255
    ensures r.Some? ==> |r.value.data| == |key| + |value| + 2
  {
    var len := |key| + 1 + |value|;
    if len > MAX_CHARACTER_STRING_LEN - 1 then None
    else Some(Record(TYPE_TXT, [len] + (key + ([EQUALS] + value))))
  }

  /** osmo_print_n(): a string cut at its NUL octet and at the size of the target. */
  function Clip(s: seq<Octet>): seq<Octet> {
    var c := Chars(s);
    if |c| <= TXT_BUF_LEN then c else c[..TXT_BUF_LEN]
  }

  /**
   The key and the value of a TXT record. The length octet is compared as a
   `char`; the search for the equals sign stops at a NUL octet.
   */
  function TxtKeyValue(rec: Record): Option<(seq<Octet>, seq<Octet>)> {
    if rec.rtype != TYPE_TXT || |rec.data| < 2 || rec.data[0] >= 0x80 || rec.data[0] != |rec.data| - 1 then None
    else
      var text := rec.data[1..];
      var sep := FirstIndex(text, EQUALS);
      if sep == |text| || sep > FirstIndex(text, NUL) then None
      else Some((Clip(text[..sep]), Clip(text[sep + 1..])))
  }

  lemma {:induction false} ClipKeeps(s: seq<Octet>)
    requires NulFree(s)
    ensures |Clip(s)| <= |s| && (Clip(s) == s <==> |s| <= TXT_BUF_LEN)
  {
    assert Chars(s) == s;
  }

  /** What is read back of a key without an equals sign and a value: both, but clipped. */
  lemma {:induction false} TxtRead(key: seq<Octet>, value: seq<Octet>, rec: Record)
    requires NulFree(key) && NulFree(value) && Free(key, EQUALS) && TxtRecord(key, value) == Some(rec)
    ensures TxtKeyValue(rec) == if |key| + |value| <= 126 then Some((Clip(key), Clip(value))) else None
  {
    assert rec.data[1..] == key + ([EQUALS] + value);
    TextNulFree(key, value);
    TxtSplit(rec, key, value);
  }

  /** A text with two equals signs can be cut at either of them. */
  lemma {:induction false} CutEarlier(a: seq<Octet>, b: seq<Octet>, c: seq<Octet>)
    ensures (a + ([EQUALS] + b)) + ([EQUALS] + c) == a + ([EQUALS] + (b + ([EQUALS] + c)))
  {
  }

  /** Another equals sign in the key makes it end there. */
  lemma {:induction false} KeyEndsAtEquals(key: seq<Octet>, value: seq<Octet>) returns (key': seq<Octet>, value': seq<Octet>)
    requires NulFree(key) && NulFree(value) && !Free(key, EQUALS)
    ensures NulFree(key') && NulFree(value') && Free(key', EQUALS) && |key'| < |key|
    ensures TxtRecord(key', value') == TxtRecord(key, value)
  {
    var k := FirstIndex(key, EQUALS);
    var tail := key[k + 1..];
    key', value' := key[..k], tail + ([EQUALS] + value);
    assert key == key' + ([EQUALS] + tail);
    CutEarlier(key', tail, value);
    TextNulFree(tail, value);
  }

  /** A key and a value come back exactly when both fit their buffers and the key has no equals sign. */
  lemma {:induction false} TxtRoundTrip(key: seq<Octet>, value: seq<Octet>)
    requires NulFree(key) && NulFree(value)
    ensures TxtRecord(key, value).Some? &&
            TxtKeyValue(TxtRecord(key, value).value) == Some((key, value))
            <==> Free(key, EQUALS) && |key| <= 63 && |value| <= 63
  {
    if TxtRecord(key, value).Some? {
      var rec := TxtRecord(key, value).value;
      if Free(key, EQUALS) {
        TxtRead(key, value, rec);
        ClipKeeps(key);
        ClipKeeps(value);
      } else {
        var key', value' := KeyEndsAtEquals(key, value);
        TxtRead(key', value', rec);
        ClipKeeps(key');
      }
    }
  }

  lemma {:induction false} TextNulFree(key: seq<Octet>, value: seq<Octet>)
    requires NulFree(key) && NulFree(value)
    ensures NulFree(key + ([EQUALS] + value))
  {
  }

  lemma {:induction false} CutAtEquals(key: seq<Octet>, value: seq<Octet>)
    requires Free(key, EQUALS)
    ensures var text := key + ([EQUALS] + value);
            FirstIndex(text, EQUALS) == |key| && text[..|key|] == key && text[|key| + 1..] == value
  {
    var text := key + ([EQUALS] + value);
    assert text[|key|] == EQUALS;
    assert forall j :: 0 <= j < |key| ==> text[j] == key[j];
  }

  /** A record is split at its first equals sign. */
  lemma {:induction false} TxtSplit(rec: Record, key: seq<Octet>, value: seq<Octet>)
    requires rec.rtype == TYPE_TXT && |rec.data| == |key| + |value| + 2 && rec.data[0] == |rec.data| - 1
    requires rec.data[1..] == key + ([EQUALS] + value) && NulFree(rec.data[1..]) && Free(key, EQUALS)
    ensures TxtKeyValue(rec) == if rec.data[0] < 0x80 then Some((Clip(key), Clip(value))) else None
  {
    CutAtEquals(key, value);
    assert FirstIndex(rec.data[1..], NUL) == |rec.data| - 1;
  }
}
