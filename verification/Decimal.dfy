/**
 Decimal numbers as printf() writes them and as strtoll() reads them.
 */
module Decimal {
  import opened Octets

  const ZERO: Octet := 48

  predicate IsDigit(c: Octet) {
    48 <= c <= 57
  }

  predicate IsSpace(c: Octet) {
    c == 32 || 9 <= c <= 13
  }

  predicate AllDigits(s: seq<Octet>) {
    forall i :: 0 <= i < |s| ==> IsDigit(s[i])
  }

  function Print(n: nat): (s: seq<Octet>)
    ensures s != [] && AllDigits(s)
  {
    if n < 10 then [ZERO + n] else Print(n / 10) + [ZERO + n % 10]
  }

  function Value(s: seq<Octet>): nat
    requires AllDigits(s)
  {
    if s == [] then 0 else Value(s[..|s| - 1]) * 10 + (s[|s| - 1] - ZERO)
  }

  lemma {:induction false} ValuePrint(n: nat)
    ensures Value(Print(n)) == n
  {
    var s := Print(n);
    if n < 10 {
      assert s[..0] == [];
    } else {
      ValuePrint(n / 10);
      assert s[..|s| - 1] == Print(n / 10);
    }
  }

  function Pow10(k: nat): nat {
    if k == 0 then 1 else 10 * Pow10(k - 1)
  }

  lemma {:induction false} PrintLength(n: nat, k: nat)
    requires k > 0 && n < Pow10(k)
    ensures |Print(n)| <= k
  {
    if n >= 10 {
      PrintLength(n / 10, k - 1);
    }
  }

  /** The number of leading octets that satisfy `p`. */
  function Span(s: seq<Octet>, p: Octet -> bool): (n: nat)
    ensures n <= |s| && forall i :: 0 <= i < n ==> p(s[i])
    ensures n < |s| ==> !p(s[n])
  {
    if s == [] || !p(s[0]) then 0 else 1 + Span(s[1..], p)
  }

  /**
   strtoll() in base ten: the number, and what follows it. Without any digits
   nothing is consumed and the number is zero. Numbers beyond `long long` are
   not cut off; the callers refuse them either way.
   */
  function Strtoll(s: seq<Octet>): (int, seq<Octet>) {
    var t := s[Span(s, IsSpace)..];
    var signed := t != [] && (t[0] == 43 || t[0] == 45);
    var u := if signed then t[1..] else t;
    var n := Span(u, IsDigit);
    if n == 0 then (0, s)
    else
      var v: int := Value(u[..n]);
      (if signed && t[0] == 45 then -v else v, u[n..])
  }

  /** decode_uint32_t(); the empty string passes as zero. */
  function DecodeU32(s: seq<Octet>): Option<U32> {
    var (n, end) := Strtoll(s);
    if end != [] || n < 0 || n > 0xFFFF_FFFF then None else Some(n)
  }

  /** decode_port() */
  function DecodePort(s: seq<Octet>): Option<U16> {
    match DecodeU32(s)
    case None => None
    case Some(n) => if n > 65535 then None else Some(n)
  }

  lemma {:induction false} SpanAll(s: seq<Octet>)
    requires AllDigits(s)
    ensures Span(s, IsDigit) == |s|
    ensures s != [] ==> Span(s, IsSpace) == 0 && s[0] != 43 && s[0] != 45
  {
    if s != [] {
      assert IsDigit(s[0]);
    }
  }

  lemma {:induction false} StrtollPrint(n: nat)
    ensures Strtoll(Print(n)) == (n, [])
  {
    var s := Print(n);
    SpanAll(s);
    ValuePrint(n);
    assert s[0..] == s && s[..|s|] == s && s[|s|..] == [];
  }

  /** A printed number is read back, if it fits the type it is read into. */
  lemma {:induction false} DecodePrint(n: nat)
    ensures DecodeU32(Print(n)) == if n <= 0xFFFF_FFFF then Some(n) else None
    ensures DecodePort(Print(n)) == if n <= 0xFFFF then Some(n) else None
  {
    StrtollPrint(n);
  }

  lemma {:induction false} SpanIs(s: seq<Octet>, p: Octet -> bool, k: nat)
    requires k <= |s| && (forall i :: 0 <= i < k ==> p(s[i])) && (k < |s| ==> !p(s[k]))
    ensures Span(s, p) == k
  {
  }

  /** Anything but digits behind a number makes it unreadable. */
  lemma {:induction false} TrailingIsRefused(n: nat, more: seq<Octet>)
    requires more != [] && !IsDigit(more[0])
    ensures DecodeU32(Print(n) + more).None? && DecodePort(Print(n) + more).None?
  {
    var s := Print(n) + more;
    SpanIs(s, IsSpace, 0);
    assert s[0..] == s;
    SpanIs(s, IsDigit, |Print(n)|);
  }

  /** A negative number is out of range. */
  lemma {:induction false} NegativeIsRefused(n: nat)
    requires n > 0
    ensures DecodeU32([45] + Print(n)).None?
  {
    var s := [45] + Print(n);
    SpanIs(s, IsSpace, 0);
    assert s[0..] == s && s[1..] == Print(n);
    SpanAll(Print(n));
    ValuePrint(n);
    assert Print(n)[..|Print(n)|] == Print(n);
  }
}
