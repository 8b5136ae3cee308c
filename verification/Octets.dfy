/**
 Octets, C strings and big-endian integers: the vocabulary that the mDNS code
 gets from the C library and from libosmocore.
 A C string is a sequence of octets without a NUL octet.
 */
module Octets {
  type Octet = x: int | 0 <= x < 0x100
  type U16 = x: int | 0 <= x < 0x1_0000
  type U32 = x: int | 0 <= x < 0x1_0000_0000

  datatype Option<+T> = None | Some(value: T)

  const NUL: Octet := 0
  const DOT: Octet := 46

  /** `c` does not occur in `s`. */
  predicate Free(s: seq<Octet>, c: Octet) {
    forall i :: 0 <= i < |s| ==> s[i] != c
  }

  predicate NulFree(s: seq<Octet>) {
    Free(s, NUL)
  }

  /** Index of the first octet `c`, or the length when there is none (strchr). */
  function FirstIndex(s: seq<Octet>, c: Octet): (k: nat)
    ensures k <= |s| && forall j :: 0 <= j < k ==> s[j] != c
    ensures k < |s| ==> s[k] == c
  {
    FirstFrom(s, c, 0)
  }

  function FirstFrom(s: seq<Octet>, c: Octet, i: nat): (k: nat)
    requires i <= |s|
    ensures i <= k <= |s| && forall j :: i <= j < k ==> s[j] != c
    ensures k < |s| ==> s[k] == c
    decreases |s| - i
  {
    if i == |s| || s[i] == c then i else FirstFrom(s, c, i + 1)
  }

  /** Index of the last octet `c` among the first `n`, or -1 when there is none (strrchr). */
  function LastIndex(s: seq<Octet>, c: Octet, n: nat): (k: int)
    requires n <= |s|
    ensures -1 <= k < n && forall j :: k < j < n ==> s[j] != c
    ensures k >= 0 ==> s[k] == c
  {
    if n == 0 || s[n - 1] == c then n - 1 else LastIndex(s, c, n - 1)
  }

  /** The characters of a buffer up to its first NUL octet. */
  function Chars(s: seq<Octet>): (r: seq<Octet>)
    ensures NulFree(r) && r <= s
    ensures NulFree(s) ==> r == s
  {
    s[..FirstIndex(s, NUL)]
  }

  function Store16(n: U16): (b: seq<Octet>)
    ensures |b| == 2 && Load16(b, 0) == n
  {
    [n / 0x100, n % 0x100]
  }

  function Load16(b: seq<Octet>, at: nat): U16
    requires at + 2 <= |b|
  {
    b[at] as int * 0x100 + b[at + 1]
  }

  function Store32(n: U32): (b: seq<Octet>)
    ensures |b| == 4 && Load32(b, 0) == n
  {
    Store16(n / 0x1_0000) + Store16(n % 0x1_0000)
  }

  function Load32(b: seq<Octet>, at: nat): U32
    requires at + 4 <= |b|
  {
    Load16(b, at) as int * 0x1_0000 + Load16(b, at + 2)
  }

  /** A message buffer that encoders append to. */
  class Msgb {
    var data: seq<Octet>

    constructor ()
      ensures data == []
    {
      data := [];
    }

    method Put(octets: seq<Octet>)
      modifies this
      ensures data == old(data) + octets
    {
      data := data + octets;
    }
  }
}
