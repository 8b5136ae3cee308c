/**
 What goes over the wire, octet by octet:
 sections 4.1.1 to 4.1.3, 3.2.2 and 3.2.3 of RFC 1035 and section 2.1 of RFC 3596.
 */
module WireFormat {
  import opened Octets
  import opened DnsName
  import opened DnsRecord
  import opened DnsMessage
  import opened LookupQuery
  import opened Decimal
  import opened Mdns

  function Ascii(s: string): (r: seq<Octet>)
    requires forall i :: 0 <= i < |s| ==> s[i] as int < 0x80
    ensures |r| == |s| && forall i :: 0 <= i < |s| ==> r[i] == s[i] as int
  {
    seq(|s|, i requires 0 <= i < |s| => s[i] as int)
  }

  /** Sixteen bits, the higher octet first. */
  function BigEndian(n: U16): (b: seq<Octet>)
    ensures |b| == 2
  {
    [n / 0x100, n % 0x100]
  }

  /** The first four octets of a header are the id, the QR bit with the other flags, and the codes; the counts follow. */
  lemma {:induction false} HeaderWire(h: Header)
    ensures HeaderOctets(h) == BigEndian(h.id) + [h.qr as int * 0x80 + h.flags, h.codes]
                               + BigEndian(h.qdcount) + BigEndian(h.ancount) + BigEndian(h.nscount) + BigEndian(h.arcount)
  {
  }

  /**
   A query packet: its id, no flags, one question and no records; the labels of the domain;
   and the question for all types in class IN.
   */
  lemma {:induction false} QueryWire(id: U16, q: Query, suffix: seq<Octet>, packet: seq<Octet>)
    requires QueryEncode(id, q, suffix) == Some(packet)
    ensures packet == BigEndian(id) + [0, 0, 0, 1, 0, 0, 0, 0, 0, 0]
                      + (Wire(Split(DomainFromQuery(q, suffix).value), []) + [0, 255, 0, 1])
  {
    HeaderWire(RequestHeader(id));
  }

  /** A record: the labels of the domain, its type, class IN, no time to live, the length of the data and the data. */
  lemma {:induction false} RecordWire(domain: seq<Octet>, rec: Record)
    requires EncodeName(domain).Some? && |rec.data| < 0x1_0000
    ensures RecordOctets(Full(domain, rec)) ==
            Some(Wire(Split(domain), []) + (BigEndian(rec.rtype) + [0, 1, 0, 0, 0, 0] + BigEndian(|rec.data|) + rec.data))
  {
    var f := Fields(Full(domain, rec));
    assert f == BigEndian(rec.rtype) + [0, 1, 0, 0, 0, 0] + BigEndian(|rec.data|);
  }

  /** A result packet: its id, the answer flag, no question and the number of records, which follow one after the other. */
  lemma {:induction false} ResultWire(id: U16, q: Query, r: LookupResult, suffix: seq<Octet>, packet: seq<Octet>)
    requires WellFormed(r) && ResultEncode(id, q, r, suffix) == Some(packet)
    ensures EncodeName(DomainFromQuery(q, suffix).value).Some?
    ensures var recs := ResultRecords(r);
            packet == BigEndian(id) + [0x80, 0, 0, 0] + BigEndian(|recs| % 0x1_0000) + [0, 0, 0, 0]
                      + Body(DomainFromQuery(q, suffix).value, recs)
  {
    var h := AnswerHeader(id, |ResultRecords(r)|);
    assert HeaderOctets(h) == BigEndian(id) + [0x80, 0, 0, 0] + BigEndian(|ResultRecords(r)| % 0x1_0000) + [0, 0, 0, 0] by {
      HeaderWire(h);
    }
  }

  /** The QR bit alone tells requests from answers. */
  lemma {:induction false} FlagDecides(data: seq<Octet>)
    requires |data| >= 12
    ensures data[2] >= 0x80 ==> RequestOf(data).None?
    ensures data[2] < 0x80 ==> AnswerOf(data).None?
  {
    assert data[..12][2] == data[2];
  }

  /** Queries and results are never taken for each other. */
  lemma {:induction false} QueryIsNoResult(id: U16, q: Query, suffix: seq<Octet>, packet: seq<Octet>)
    requires QueryEncode(id, q, suffix) == Some(packet)
    ensures ResultDecode(packet, suffix).None?
  {
    assert |packet| >= 12 && packet[2] == 0 by {
      QueryWire(id, q, suffix, packet);
    }
    FlagDecides(packet);
  }

  lemma {:induction false} ResultIsNoQuery(id: U16, q: Query, r: LookupResult, suffix: seq<Octet>, packet: seq<Octet>)
    requires WellFormed(r) && ResultEncode(id, q, r, suffix) == Some(packet)
    ensures QueryDecode(packet, suffix).None?
  {
    assert |packet| >= 12 && packet[2] == 0x80 by {
      ResultWire(id, q, r, suffix, packet);
    }
    FlagDecides(packet);
  }

  /** A TXT record of a number is one character string: its length, the key, an equals sign and the digits. */
  lemma {:induction false} NumberWire(n: U32)
    ensures NumberRecord(AGE, n) == Record(16, [4 + |Print(n)|] + (Ascii("age=") + Print(n)))
    ensures NumberRecord(PORT, n) == Record(16, [5 + |Print(n)|] + (Ascii("port=") + Print(n)))
  {
    assert AGE + ([EQUALS] + Print(n)) == Ascii("age=") + Print(n);
    assert PORT + ([EQUALS] + Print(n)) == Ascii("port=") + Print(n);
  }

  /** The records of a result come in the documented order: the age, the IPv4 address and its port, then IPv6. */
  lemma {:induction false} RecordOrder(r: LookupResult)
    requires WellFormed(r)
    ensures ResultRecords(r) ==
            [NumberRecord(AGE, r.age)]
            + (if IsSet(r.v4) then [Record(1, r.v4.addr), NumberRecord(PORT, r.v4.port)] else [])
            + (if IsSet(r.v6) then [Record(28, r.v6.addr), NumberRecord(PORT, r.v6.port)] else [])
  {
  }

  // ---- Names ----

  lemma {:induction false} FirstLabelWire(l: seq<Octet>, more: Labels)
    requires |l| < 0x100
    ensures Wire(Label(l, more), []) == [|l|] + (l + Wire(more, []))
  {
  }

  /** A name on the wire begins with the length of its first label and the label; the rest of the name follows, or a zero octet. */
  lemma {:induction false} NameWire(l: seq<Octet>, rest: seq<Octet>)
    requires Free(l, DOT) && 0 < |l| < 0x100
    ensures Wire(Split(l), []) == [|l|] + (l + [0])
    ensures Wire(Split(l + ([DOT] + rest)), []) == [|l|] + (l + Wire(Split(rest), []))
  {
    assert Split(l) == Label(l, End) && Split(l + ([DOT] + rest)) == Label(l, Split(rest)) by {
      SplitHead(l, rest);
    }
    FirstLabelWire(l, End);
    FirstLabelWire(l, Split(rest));
    assert Wire(End, []) == [0];
  }

  /** The domain of a query: service, id, the name of the id type and the suffix, with dots between them. */
  lemma {:induction false} DomainText(q: Query, suffix: seq<Octet>, name: seq<Octet>)
    requires !q.idType.NoId? && name == if q.idType == Imsi then Ascii("imsi") else Ascii("msisdn")
    ensures DomainFromQuery(q, suffix) == Some(q.service + [46] + q.id + [46] + name + [46] + suffix)
  {
    assert name == TypeName(q.idType);
    var text := q.service + ([46] + (q.id + ([46] + name)));
    assert text == q.service + [46] + q.id + [46] + name;
    assert text + ([46] + suffix) == text + [46] + suffix;
  }
}
