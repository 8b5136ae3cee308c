/**
 The header section, the question section and single resource records of an
 mDNS packet: the rest of mdns_rfc.c (sections 4.1.1 to 4.1.3 of RFC 1035).
 */
module DnsRecord {
  import opened Octets
  import opened DnsName

  const TYPE_A: U16 := 1
  const TYPE_TXT: U16 := 16
  const TYPE_AAAA: U16 := 28
  const TYPE_ALL: U16 := 255
  const CLASS_IN: U16 := 1

  // ---- Header section ----

  type Bit = x: int | 0 <= x < 2
  type Bits7 = x: int | 0 <= x < 0x80

  /** Only the QR bit is ever read; opcode, AA, TC and RD stay packed in `flags`, RA, Z and RCODE in `codes`. */
  datatype Header = Header(
    id: U16, qr: Bit, flags: Bits7, codes: Octet,
    qdcount: U16, ancount: U16, nscount: U16, arcount: U16)

  const HEADER_LEN := 12

  function HeaderOctets(h: Header): (b: seq<Octet>)
    ensures |b| == HEADER_LEN
  {
    Store16(h.id) + [h.qr as int * 0x80 + h.flags, h.codes]
    + Store16(h.qdcount) + Store16(h.ancount) + Store16(h.nscount) + Store16(h.arcount)
  }

  function HeaderOf(b: seq<Octet>): Header
    requires |b| == HEADER_LEN
  {
    Header(Load16(b, 0), b[2] / 0x80, b[2] % 0x80, b[3],
           Load16(b, 4), Load16(b, 6), Load16(b, 8), Load16(b, 10))
  }

  /** The twelve octets and the header fields determine each other. */
  lemma {:induction false} HeaderRoundTrip(h: Header, b: seq<Octet>)
    ensures HeaderOf(HeaderOctets(h)) == h
    ensures |b| == HEADER_LEN ==> HeaderOctets(HeaderOf(b)) == b
  {
    if |b| == HEADER_LEN {
      StoreLoad(b, 0);
      StoreLoad(b, 4);
      StoreLoad(b, 6);
      StoreLoad(b, 8);
      StoreLoad(b, 10);
      assert b == b[0..2] + b[2..4] + b[4..6] + b[6..8] + b[8..10] + b[10..12];
    }
  }

  lemma {:induction false} StoreLoad(b: seq<Octet>, at: nat)
    requires at + 2 <= |b|
    ensures Store16(Load16(b, at)) == b[at..at + 2]
  {
  }

  // ---- Question section ----

  datatype Question = Question(domain: seq<Octet>, qtype: U16, qclass: U16)

  function QuestionOctets(q: Question): (r: Option<seq<Octet>>)
    ensures r.Some? <==> EncodeName(q.domain).Some?
  {
    match EncodeName(q.domain)
    case None => None
    case Some(name) => Some(name + (Store16(q.qtype) + Store16(q.qclass)))
  }

  function QuestionOf(data: seq<Octet>): Option<Question> {
    if |data| < 6 then None
    else
      var nameLen := |data| - 4;
      match DecodeName(data[..nameLen])
      case None => None
      case Some(domain) => Some(Question(domain, Load16(data, nameLen), Load16(data, nameLen + 2)))
  }

  /** A question comes back exactly when its name does. */
  lemma {:induction false} QuestionRoundTrip(q: Question)
    requires NulFree(q.domain) && QuestionOctets(q).Some?
    ensures QuestionOf(QuestionOctets(q).value) == if ShortLabels(q.domain) then Some(q) else None
  {
    var name := EncodeName(q.domain).value;
    var data := QuestionOctets(q).value;
    NameNotEmpty(q.domain);
    NameRoundTrip(q.domain, []);
    assert data[..|data| - 4] == name + [];
  }

  /** An accepted name has at least one label of one octet. */
  lemma {:induction false} NameNotEmpty(domain: seq<Octet>)
    requires EncodeName(domain).Some?
    ensures domain != []
  {
  }

  // ---- Resource records ----

  datatype ResourceRecord = ResourceRecord(domain: seq<Octet>, rtype: U16, rclass: U16, ttl: U32, rdata: seq<Octet>)

  function Fields(rec: ResourceRecord): (b: seq<Octet>)
    requires |rec.rdata| < 0x1_0000
    ensures |b| == 10
  {
    Store16(rec.rtype) + Store16(rec.rclass) + Store32(rec.ttl) + Store16(|rec.rdata|)
  }

  function RecordOctets(rec: ResourceRecord): (r: Option<seq<Octet>>)
    requires |rec.rdata| < 0x1_0000
    ensures r.Some? <==> EncodeName(rec.domain).Some?
    ensures r.Some? ==> |r.value| == |rec.domain| + 12 + |rec.rdata|
  {
    match EncodeName(rec.domain)
    case None => None
    case Some(name) => Some(name + (Fields(rec) + rec.rdata))
  }

  /**
   One record and the number of octets it takes. For less than ten octets the
   unsigned subtraction wraps, the end of the name lies before its start, and
   the first label is refused; an empty name then needs twelve octets.
   */
  function RecordOf(data: seq<Octet>): (r: Option<(ResourceRecord, nat)>)
    ensures r.Some? ==> 12 <= r.value.1 <= |data|
  {
    if |data| <= 10 then None
    else match DecodeName(data[..|data| - 10])
      case None => None
      case Some(domain) =>
        var nameLen := |domain| + 2;
        if nameLen + 10 > |data| then None
        else
          var f := data[nameLen..];
          var rdlength := Load16(f, 8);
          if 10 + rdlength > |f| then None
          else Some((ResourceRecord(domain, Load16(f, 0), Load16(f, 2), Load32(f, 4), f[10..10 + rdlength]),
                     nameLen + 10 + rdlength))
  }

  lemma {:induction false} FieldsRead(rec: ResourceRecord, tail: seq<Octet>)
    requires |rec.rdata| < 0x1_0000
    ensures var f := Fields(rec) + (rec.rdata + tail);
            Load16(f, 0) == rec.rtype && Load16(f, 2) == rec.rclass && Load32(f, 4) == rec.ttl &&
            Load16(f, 8) == |rec.rdata| && f[10..10 + |rec.rdata|] == rec.rdata
  {
    var f := Fields(rec) + (rec.rdata + tail);
    assert f[0..2] == Store16(rec.rtype) && f[2..4] == Store16(rec.rclass);
    assert f[4..8] == Store32(rec.ttl) && f[8..10] == Store16(|rec.rdata|);
  }

  /** Where a name is followed by the fields and the data of a record, that record is read. */
  lemma {:induction false} RecordAt(name: seq<Octet>, rec: ResourceRecord, tail: seq<Octet>)
    requires |rec.rdata| < 0x1_0000 && |name| == |rec.domain| + 2
    ensures var f := Fields(rec) + (rec.rdata + tail);
            DecodeName((name + f)[..|name + f| - 10]) == Some(rec.domain) ==>
              RecordOf(name + f) == Some((rec, |name| + 10 + |rec.rdata|))
  {
    var f := Fields(rec) + (rec.rdata + tail);
    assert (name + f)[|name|..] == f;
    FieldsRead(rec, tail);
  }

  /**
   Framing: an encoded record followed by any octets decodes to that record and
   to exactly its own length, if its labels are short; otherwise it is refused.
   */
  lemma {:induction false} RecordRoundTrip(rec: ResourceRecord, tail: seq<Octet>)
    requires |rec.rdata| < 0x1_0000 && NulFree(rec.domain) && RecordOctets(rec).Some?
    ensures var w := RecordOctets(rec).value;
            RecordOf(w + tail) == if ShortLabels(rec.domain) then Some((rec, |w|)) else None
  {
    var name := EncodeName(rec.domain).value;
    var f := Fields(rec) + (rec.rdata + tail);
    Regroup(name, Fields(rec), rec.rdata, tail);
    var after := f[..|f| - 10];
    assert (name + f)[..|name + f| - 10] == name + after;
    NameRoundTrip(rec.domain, after);
    RecordAt(name, rec, tail);
  }

  // ---- The encoders, appending to a message buffer ----

  method HeaderEncode(msg: Msgb, h: Header)
    modifies msg
    ensures msg.data == old(msg.data) + HeaderOctets(h)
  {
    msg.Put(HeaderOctets(h));
  }

  method QuestionEncode(msg: Msgb, q: Question) returns (ok: bool)
    requires NulFree(q.domain)
    modifies msg
    ensures ok <==> QuestionOctets(q).Some?
    ensures msg.data == old(msg.data) + if ok then QuestionOctets(q).value else []
  {
    var name := QnameEncode(q.domain);
    if name.None? {
      return false;
    }
    msg.Put(name.value);
    msg.Put(Store16(q.qtype));
    msg.Put(Store16(q.qclass));
    ok := true;
  }

  method RecordEncode(msg: Msgb, rec: ResourceRecord) returns (ok: bool)
    requires |rec.rdata| < 0x1_0000 && NulFree(rec.domain)
    modifies msg
    ensures ok <==> RecordOctets(rec).Some?
    ensures msg.data == old(msg.data) + if ok then RecordOctets(rec).value else []
  {
    var name := QnameEncode(rec.domain);
    if name.None? {
      return false;
    }
    msg.Put(name.value);
    msg.Put(Fields(rec));
    msg.Put(rec.rdata);
    Regroup(old(msg.data), name.value, Fields(rec), rec.rdata);
    ok := true;
  }

  method RecordDecode(data: seq<Octet>) returns (r: Option<(ResourceRecord, nat)>)
    ensures r == RecordOf(data)
  {
    if |data| <= 10 {
      return None;
    }
    var domain := QnameDecode(data[..|data| - 10]);
    if domain.None? {
      return None;
    }
    var nameLen := |domain.value| + 2;
    if nameLen + 10 > |data| {
      return None;
    }
    var f := data[nameLen..];
    var rdlength := Load16(f, 8);
    if nameLen + 10 + rdlength > |data| {
      return None;
    }
    var rec := ResourceRecord(domain.value, Load16(f, 0), Load16(f, 2), Load32(f, 4), f[10..10 + rdlength]);
    r := Some((rec, nameLen + 10 + rdlength));
  }
}
