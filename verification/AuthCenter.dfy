/**
 Authentication vectors and sequence numbers: auc.c and db_auc.c.
 */
module AuthCenter {
  import opened Octets

  type Rand = nat   // 16 random octets
  type Auts = nat   // 14 octets

  datatype AuthType = TypeNone | Gsm | Umts

  const ALG_NONE := 0

  /** struct osmo_sub_auth_data; `key` stands for Ki, or for K and OP or OPc. */
  datatype AuthData = AuthData(algo: nat, atype: AuthType, key: nat, sqn: nat, ind: nat, indBitlen: nat, separation: bool)

  /** `sqn` is the sequence number in AUTN; `umts` stands for AUTN, CK, IK and RES. */
  datatype Vector = Vector(sqn: nat, rand: Rand, umts: nat, kc: nat, sres: nat, gsm: bool)

  /** The outcome of generating one vector, and the sequence number afterwards. */
  datatype Generated = Generated(ok: bool, vec: Vector, sqn: nat)

  /** The functions of the crypto library. */
  datatype Library = Library(
    gen: (AuthData, Rand) -> Generated,
    genAuts: (AuthData, Auts, Rand, Rand) -> Generated,
    recover: (AuthData, Auts, Rand) -> Option<nat>)

  /** osmo_auth_gen_vec() moves the sequence number strictly up when it succeeds, and never down. */
  ghost predicate MovesUp(lib: Library) {
    forall aud: AuthData, r: Rand :: aud.atype == Umts ==>
      var g := lib.gen(aud, r);
      if g.ok then g.sqn > aud.sqn && g.vec.sqn == g.sqn else g.sqn >= aud.sqn
  }

  /** osmo_auth_gen_vec_auts() takes over the sequence number in AUTS and then generates a vector. */
  ghost predicate AutsIsResync(lib: Library) {
    forall aud: AuthData, auts: Auts, ra: Rand, r: Rand :: aud.atype == Umts ==>
      match lib.recover(aud, auts, ra)
      case None => !lib.genAuts(aud, auts, ra, r).ok && lib.genAuts(aud, auts, ra, r).sqn == aud.sqn
      case Some(sqn) => lib.genAuts(aud, auts, ra, r) == lib.gen(aud.(sqn := sqn), r)
  }

  /** AUTS and the RAND that belongs to it. */
  datatype Resync = Resync(auts: Option<Auts>, rand: Option<Rand>)

  const NoResync := Resync(None, None)

  predicate Usable(aud: AuthData) {
    aud.algo != ALG_NONE && aud.atype != TypeNone
  }

  /** The arguments that auc_compute_vectors() refuses. */
  predicate Invalid(aud2g: AuthData, aud3g: AuthData, resync: Resync) {
    || (!Usable(aud2g) && !Usable(aud3g))
    || (Usable(aud2g) && aud2g.atype != Gsm)
    || (Usable(aud3g) && aud3g.atype != Umts)
    || (resync.rand.Some? != resync.auts.Some?)
    || (resync.auts.Some? && !Usable(aud3g))
  }

  function Gen3g(lib: Library, aud: AuthData, resync: Resync, i: nat, r: Rand): Generated {
    if i == 0 && resync.auts.Some? && resync.rand.Some? then lib.genAuts(aud, resync.auts.value, resync.rand.value, r)
    else lib.gen(aud, r)
  }

  function Merge(v: Vector, v2: Vector): Vector {
    v.(kc := v2.kc, sres := v2.sres, gsm := true)
  }

  /** The vectors from number `i` on, and the sequence number at the end. */
  function Compute3g(lib: Library, aud2g: AuthData, aud3g: AuthData, resync: Resync,
                     rand: nat -> Option<Rand>, i: nat, n: nat): (seq<Vector>, nat)
    decreases n - i
  {
    if i >= n || rand(i).None? then ([], aud3g.sqn)
    else
      var g := Gen3g(lib, aud3g, resync, i, rand(i).value);
      if !g.ok then ([], g.sqn)
      else if Usable(aud2g) && !lib.gen(aud2g, rand(i).value).ok then ([], g.sqn)
      else
        var v := if Usable(aud2g) then Merge(g.vec, lib.gen(aud2g, rand(i).value).vec) else g.vec;
        var (more, sqn) := Compute3g(lib, aud2g, aud3g.(sqn := g.sqn), resync, rand, i + 1, n);
        ([v] + more, sqn)
  }

  function Compute2g(lib: Library, aud2g: AuthData, rand: nat -> Option<Rand>, i: nat, n: nat): seq<Vector>
    decreases n - i
  {
    if i >= n || rand(i).None? || !lib.gen(aud2g, rand(i).value).ok then []
    else [lib.gen(aud2g, rand(i).value).vec] + Compute2g(lib, aud2g, rand, i + 1, n)
  }

  /** The vectors from number `i` on, with 3G data or without. */
  function ComputeFrom(lib: Library, aud2g: AuthData, aud3g: AuthData, resync: Resync,
                       rand: nat -> Option<Rand>, i: nat, n: nat): (seq<Vector>, nat) {
    if Usable(aud3g) then Compute3g(lib, aud2g, aud3g, resync, rand, i, n)
    else (Compute2g(lib, aud2g, rand, i, n), aud3g.sqn)
  }

  /** The vectors, or nothing for invalid arguments, and the sequence number afterwards. */
  function Compute(lib: Library, aud2g: AuthData, aud3g: AuthData, resync: Resync,
                   rand: nat -> Option<Rand>, n: nat): (Option<seq<Vector>>, nat) {
    if Invalid(aud2g, aud3g, resync) then (None, aud3g.sqn)
    else
      var (vecs, sqn) := ComputeFrom(lib, aud2g, aud3g, resync, rand, 0, n);
      (Some(vecs), sqn)
  }

  /** auc_compute_vectors(): the number of vectors in `vec`, or -1, and the new sequence number. */
  method ComputeVectors(lib: Library, vec: array<Vector>, aud2g: AuthData, aud3g: AuthData, resync: Resync,
                        rand: nat -> Option<Rand>)
    returns (rc: int, sqn: nat)
    modifies vec
    ensures -1 <= rc <= vec.Length
    ensures var (vecs, sqn') := Compute(lib, aud2g, aud3g, resync, rand, vec.Length);
            && sqn == sqn'
            && (rc < 0 <==> vecs.None?)
            && (rc >= 0 ==> vec[..rc] == vecs.value)
  {
    sqn := aud3g.sqn;
    if Invalid(aud2g, aud3g, resync) {
      return -1, sqn;
    }
    var n := vec.Length;
    var i := 0;
    ghost var (all, final) := ComputeFrom(lib, aud2g, aud3g, resync, rand, 0, n);
    ghost var done, more := [], all;
    while i < n
      invariant 0 <= i <= n
      invariant vec[..i] == done && all == done + more
      invariant (more, final) == ComputeFrom(lib, aud2g, aud3g.(sqn := sqn), resync, rand, i, n)
    {
      if rand(i).None? {
        break;
      }
      var v;
      v, sqn := OneVector(lib, aud2g, aud3g.(sqn := sqn), resync, rand, i, n);
      if v.None? {
        break;
      }
      vec[i] := v.value;
      done, more := MoveOver(done, more, v.value);
      i := i + 1;
    }
    rc := i;
  }

  lemma {:induction false} MoveOver(done: seq<Vector>, more: seq<Vector>, v: Vector) returns (done': seq<Vector>, more': seq<Vector>)
    requires more != [] && more[0] == v
    ensures done' == done + [v] && more' == more[1..] && done + more == done' + more'
  {
    done', more' := done + [v], more[1..];
  }

  /**
   One turn of the loop. The vector is the first of those still to come, and the rest
   of them follow from the sequence number that is left behind; without a vector there
   are none. Unless AUTS has a say, that number rises, and it is the vector's own.
   */
  method OneVector(lib: Library, aud2g: AuthData, aud3g: AuthData, resync: Resync,
                   rand: nat -> Option<Rand>, i: nat, n: nat)
    returns (v: Option<Vector>, sqn: nat)
    requires i < n && rand(i).Some?
    ensures var (vecs, end) := ComputeFrom(lib, aud2g, aud3g, resync, rand, i, n);
            var (more, end') := ComputeFrom(lib, aud2g, aud3g.(sqn := sqn), resync, rand, i + 1, n);
            if v.Some? then vecs == [v.value] + more && end == end' else vecs == [] && end == sqn
    ensures MovesUp(lib) && Usable(aud3g) && aud3g.atype == Umts && (i > 0 || resync == NoResync) ==>
              sqn >= aud3g.sqn && (v.Some? ==> v.value.sqn == sqn > aud3g.sqn)
  {
    var r := rand(i).value;
    sqn := aud3g.sqn;
    if Usable(aud3g) {
      var g: Generated;
      if i == 0 && resync.auts.Some? && resync.rand.Some? {
        g := lib.genAuts(aud3g, resync.auts.value, resync.rand.value, r);
      } else {
        g := lib.gen(aud3g, r);
      }
      sqn := g.sqn;
      if !g.ok {
        return None, sqn;
      }
      if !Usable(aud2g) {
        return Some(g.vec), sqn;
      }
      var g2 := lib.gen(aud2g, r);
      if !g2.ok {
        return None, sqn;
      }
      return Some(Merge(g.vec, g2.vec)), sqn;
    }
    var g2 := lib.gen(aud2g, r);
    return if g2.ok then Some(g2.vec) else None, sqn;
  }

  /** Without usable data, with data of the wrong kind, or with half of a resynchronisation nothing is computed. */
  lemma {:induction false} BadArgumentsAreRefused(lib: Library, aud2g: AuthData, aud3g: AuthData, resync: Resync, rand: nat -> Option<Rand>, n: nat)
    ensures var (vecs, end) := Compute(lib, aud2g, aud3g, resync, rand, n);
            && (!Usable(aud2g) && !Usable(aud3g) ==> vecs.None?)
            && (Usable(aud2g) && aud2g.atype == Umts ==> vecs.None?)
            && (Usable(aud3g) && aud3g.atype == Gsm ==> vecs.None?)
            && (resync.auts.Some? != resync.rand.Some? ==> vecs.None?)
            && (resync.auts.Some? && !Usable(aud3g) ==> vecs.None?)
            && (vecs.None? ==> end == aud3g.sqn)
  {
  }

  // ---- The vectors, one by one ----

  /** The sequence number before vector `k`, if all before it were generated. */
  function SqnBefore(lib: Library, aud3g: AuthData, resync: Resync, rand: nat -> Option<Rand>, k: nat): nat {
    if k == 0 || rand(k - 1).None? then aud3g.sqn
    else Gen3g(lib, aud3g.(sqn := SqnBefore(lib, aud3g, resync, rand, k - 1)), resync, k - 1, rand(k - 1).value).sqn
  }

  /** The 3G half of vector `k`. */
  function GenAt(lib: Library, aud3g: AuthData, resync: Resync, rand: nat -> Option<Rand>, k: nat): Generated
    requires rand(k).Some?
  {
    Gen3g(lib, aud3g.(sqn := SqnBefore(lib, aud3g, resync, rand, k)), resync, k, rand(k).value)
  }

  /** Vector `k` cannot be had: no random number, or one of the generators fails. */
  predicate Fails(lib: Library, aud2g: AuthData, aud3g: AuthData, resync: Resync, rand: nat -> Option<Rand>, k: nat) {
    || rand(k).None?
    || !GenAt(lib, aud3g, resync, rand, k).ok
    || (Usable(aud2g) && !lib.gen(aud2g, rand(k).value).ok)
  }

  /** AUTN, CK, IK, RES and the sequence number are those of the 3G half; Kc and SRES those of the 2G half, if there is one. */
  predicate IsVector(lib: Library, aud2g: AuthData, aud3g: AuthData, resync: Resync, rand: nat -> Option<Rand>, k: nat, v: Vector) {
    && !Fails(lib, aud2g, aud3g, resync, rand, k)
    && (var v3 := GenAt(lib, aud3g, resync, rand, k).vec;
        && v.sqn == v3.sqn && v.rand == v3.rand && v.umts == v3.umts
        && if Usable(aud2g) then
             var v2 := lib.gen(aud2g, rand(k).value).vec;
             v.kc == v2.kc && v.sres == v2.sres && v.gsm
           else v.kc == v3.kc && v.sres == v3.sres && v.gsm == v3.gsm)
  }

  lemma {:induction false} VectorFrom(lib: Library, aud2g: AuthData, aud3g: AuthData, resync: Resync,
                                      rand: nat -> Option<Rand>, i: nat, n: nat, aud: AuthData, k: nat)
    requires i <= n && aud == aud3g.(sqn := SqnBefore(lib, aud3g, resync, rand, i))
    ensures var (vecs, end) := Compute3g(lib, aud2g, aud, resync, rand, i, n);
            && |vecs| <= n - i
            && (k < |vecs| ==> IsVector(lib, aud2g, aud3g, resync, rand, i + k, vecs[k]))
            && (|vecs| < n - i ==> Fails(lib, aud2g, aud3g, resync, rand, i + |vecs|))
            && (|vecs| == n - i ==> end == SqnBefore(lib, aud3g, resync, rand, n))
    decreases n - i
  {
    if i < n && !Fails(lib, aud2g, aud3g, resync, rand, i) {
      var g := GenAt(lib, aud3g, resync, rand, i);
      assert SqnBefore(lib, aud3g, resync, rand, i + 1) == g.sqn;
      VectorFrom(lib, aud2g, aud3g, resync, rand, i + 1, n, aud3g.(sqn := g.sqn), if k > 0 then k - 1 else 0);
    }
  }

  /**
   Each vector is made of its own halves, from the number its predecessors have left, and
   there are as many as asked for, or as come before the first that fails.
   */
  lemma {:induction false} VectorsAreComplete(lib: Library, aud2g: AuthData, aud3g: AuthData, resync: Resync,
                                              rand: nat -> Option<Rand>, n: nat, k: nat)
    requires Usable(aud3g) && !Invalid(aud2g, aud3g, resync)
    ensures var (r, end) := Compute(lib, aud2g, aud3g, resync, rand, n);
            && r.Some? && |r.value| <= n
            && (k < |r.value| ==> IsVector(lib, aud2g, aud3g, resync, rand, k, r.value[k]))
            && (|r.value| < n ==> Fails(lib, aud2g, aud3g, resync, rand, |r.value|))
            && (|r.value| == n ==> end == SqnBefore(lib, aud3g, resync, rand, n))
  {
    VectorFrom(lib, aud2g, aud3g, resync, rand, 0, n, aud3g, k);
  }

  lemma {:induction false} GsmVectorFrom(lib: Library, aud2g: AuthData, rand: nat -> Option<Rand>, i: nat, n: nat, k: nat)
    requires i <= n
    ensures var vecs := Compute2g(lib, aud2g, rand, i, n);
            && |vecs| <= n - i
            && (k < |vecs| ==> rand(i + k).Some? && lib.gen(aud2g, rand(i + k).value).ok &&
                               vecs[k] == lib.gen(aud2g, rand(i + k).value).vec)
            && (|vecs| < n - i ==> rand(i + |vecs|).None? || !lib.gen(aud2g, rand(i + |vecs|).value).ok)
    decreases n - i
  {
    if i < n && rand(i).Some? && lib.gen(aud2g, rand(i).value).ok {
      GsmVectorFrom(lib, aud2g, rand, i + 1, n, if k > 0 then k - 1 else 0);
    }
  }

  /** The same without 3G data, where the sequence number stays. */
  lemma {:induction false} GsmVectorsAreComplete(lib: Library, aud2g: AuthData, aud3g: AuthData, rand: nat -> Option<Rand>, n: nat, k: nat)
    requires !Usable(aud3g) && !Invalid(aud2g, aud3g, NoResync)
    ensures var (r, end) := Compute(lib, aud2g, aud3g, NoResync, rand, n);
            && r.Some? && |r.value| <= n && end == aud3g.sqn
            && (k < |r.value| ==> rand(k).Some? && r.value[k] == lib.gen(aud2g, rand(k).value).vec)
            && (|r.value| < n ==> rand(|r.value|).None? || !lib.gen(aud2g, rand(|r.value|).value).ok)
  {
    GsmVectorFrom(lib, aud2g, rand, 0, n, k);
  }

  // ---- Resynchronisation ----

  lemma {:induction false} LaterWithoutAuts(lib: Library, aud2g: AuthData, aud3g: AuthData, resync: Resync,
                                            rand: nat -> Option<Rand>, i: nat, n: nat)
    requires i > 0
    ensures Compute3g(lib, aud2g, aud3g, resync, rand, i, n) == Compute3g(lib, aud2g, aud3g, NoResync, rand, i, n)
    decreases n - i
  {
    if i < n && rand(i).Some? && lib.gen(aud3g, rand(i).value).ok {
      LaterWithoutAuts(lib, aud2g, aud3g.(sqn := lib.gen(aud3g, rand(i).value).sqn), resync, rand, i + 1, n);
    }
  }

  /**
   Vectors computed with AUTS are the vectors computed without AUTS from the
   sequence number in AUTS, for any number of vectors and any stored sequence
   number. The final sequence numbers agree, too, exactly when a vector was asked
   for and the first random number could be had, or they were equal to begin with.
   */
  lemma {:induction false} AutsEqualsRecovered(lib: Library, aud2g: AuthData, aud3g: AuthData, auts: Auts, ra: Rand,
                                               rand: nat -> Option<Rand>, n: nat, sqn: nat)
    requires AutsIsResync(lib) && lib.recover(aud3g, auts, ra) == Some(sqn)
    requires !Invalid(aud2g, aud3g, Resync(Some(auts), Some(ra)))
    ensures var (vecs, end) := Compute(lib, aud2g, aud3g, Resync(Some(auts), Some(ra)), rand, n);
            var (vecs', end') := Compute(lib, aud2g, aud3g.(sqn := sqn), NoResync, rand, n);
            vecs == vecs' && (end == end' <==> (n > 0 && rand(0).Some?) || aud3g.sqn == sqn)
  {
    if n > 0 && rand(0).Some? {
      var g := lib.gen(aud3g.(sqn := sqn), rand(0).value);
      LaterWithoutAuts(lib, aud2g, aud3g.(sqn := g.sqn), Resync(Some(auts), Some(ra)), rand, 1, n);
    }
  }

  // ---- Sequence numbers ----

  /** All sequence numbers lie above `lo` and not above `hi`, each above the one before. */
  predicate Rising(sqns: seq<nat>, lo: nat, hi: nat) {
    && lo <= hi
    && (forall i :: 0 <= i < |sqns| ==> lo < sqns[i] <= hi)
    && (forall i, j :: 0 <= i < j < |sqns| ==> sqns[i] < sqns[j])
  }

  function Sqns(vecs: seq<Vector>): (s: seq<nat>)
    ensures |s| == |vecs| && forall i :: 0 <= i < |vecs| ==> s[i] == vecs[i].sqn
  {
    seq(|vecs|, i requires 0 <= i < |vecs| => vecs[i].sqn)
  }

  lemma {:induction false} ComputeRises(lib: Library, aud2g: AuthData, aud3g: AuthData,
                                        rand: nat -> Option<Rand>, i: nat, n: nat)
    requires MovesUp(lib) && aud3g.atype == Umts
    ensures var (vecs, sqn) := Compute3g(lib, aud2g, aud3g, NoResync, rand, i, n);
            Rising(Sqns(vecs), aud3g.sqn, sqn)
    decreases n - i
  {
    if i < n && rand(i).Some? {
      var g := lib.gen(aud3g, rand(i).value);
      if g.ok {
        ComputeRises(lib, aud2g, aud3g.(sqn := g.sqn), rand, i + 1, n);
      }
    }
  }

  function Pow2(k: nat): (p: nat)
    ensures p > 0
  {
    if k == 0 then 1 else 2 * Pow2(k - 1)
  }

  /** The index of the requesting peer, cut down to the bits that the subscriber has for it. */
  function MaskInd(ind: nat, bitlen: nat): nat {
    ind % Pow2(bitlen)
  }

  /** The authentication data of one subscriber in the database. */
  datatype Subscriber = Subscriber(aud2g: AuthData, aud3g: AuthData)

  /** What becomes of the write-back: the new number is stored or not, and an error is reported or not. */
  datatype Write = Write(stored: bool, error: bool)

  datatype Call = Call(
    ind: nat, n: nat, resync: Resync, separation: bool,
    readFails: bool, rand: nat -> Option<Rand>, write: Write)

  predicate SoundWrite(w: Write) {
    !w.error ==> w.stored
  }

  const EIO := 5
  const ENOKEY := 126

  /** db_get_auc() for a subscriber that exists: its return value, the vectors for the caller, and the database. */
  function GetAuc(lib: Library, sub: Subscriber, c: Call): (int, seq<Vector>, Subscriber) {
    if c.readFails then (-EIO, [], sub)
    else if sub.aud2g.atype == TypeNone && sub.aud3g.atype == TypeNone then (-ENOKEY, [], sub)
    else
      var aud3g := sub.aud3g.(ind := MaskInd(c.ind, sub.aud3g.indBitlen), separation := c.separation);
      var (vecs, sqn) := Compute(lib, sub.aud2g, aud3g, c.resync, c.rand, c.n);
      var sub' := if sub.aud3g.algo != ALG_NONE && c.write.stored then sub.(aud3g := sub.aud3g.(sqn := sqn)) else sub;
      if vecs.None? || (sub.aud3g.algo != ALG_NONE && c.write.error) then (-1, [], sub')
      else (|vecs.value|, vecs.value, sub')
  }

  /** All sequence numbers that were ever given to a caller, and the database at the end. */
  function RunCalls(lib: Library, sub: Subscriber, calls: seq<Call>): (seq<nat>, Subscriber) {
    if calls == [] then ([], sub)
    else
      var (before, sub1) := RunCalls(lib, sub, calls[..|calls| - 1]);
      var (_, vecs, sub2) := GetAuc(lib, sub1, calls[|calls| - 1]);
      (before + Sqns(vecs), sub2)
  }

  lemma {:induction false} GetAucRises(lib: Library, sub: Subscriber, c: Call)
    requires MovesUp(lib) && Usable(sub.aud3g) && sub.aud3g.atype == Umts
    requires c.resync == NoResync && SoundWrite(c.write)
    ensures var (_, vecs, sub') := GetAuc(lib, sub, c);
            && Rising(Sqns(vecs), sub.aud3g.sqn, sub'.aud3g.sqn)
            && sub'.aud2g == sub.aud2g && sub'.aud3g == sub.aud3g.(sqn := sub'.aud3g.sqn)
  {
    var aud3g := sub.aud3g.(ind := MaskInd(c.ind, sub.aud3g.indBitlen), separation := c.separation);
    ComputeRises(lib, sub.aud2g, aud3g, c.rand, 0, c.n);
  }

  /**
   Freshness: over any sequence of calls without AUTS, the sequence numbers given
   to callers strictly rise, so no two vectors share one, and none is above the
   stored number; also with partial generation and with failed write-back.
   */
  lemma {:induction false} SqnsAreFresh(lib: Library, sub: Subscriber, calls: seq<Call>)
    requires MovesUp(lib) && Usable(sub.aud3g) && sub.aud3g.atype == Umts
    requires forall i :: 0 <= i < |calls| ==> calls[i].resync == NoResync && SoundWrite(calls[i].write)
    ensures var (sqns, sub') := RunCalls(lib, sub, calls);
            && Rising(sqns, sub.aud3g.sqn, sub'.aud3g.sqn)
            && sub'.aud2g == sub.aud2g && sub'.aud3g == sub.aud3g.(sqn := sub'.aud3g.sqn)
    decreases |calls|
  {
    if calls != [] {
      var init := calls[..|calls| - 1];
      SqnsAreFresh(lib, sub, init);
      var (_, sub1) := RunCalls(lib, sub, init);
      GetAucRises(lib, sub1, calls[|calls| - 1]);
    }
  }

  // ---- The slice of sequence numbers that belongs to an index ----

  /** The low bits of a sequence number are the index (Annex C of 3GPP TS 33.102). */
  ghost predicate SqnCarriesInd(lib: Library) {
    forall aud: AuthData, r: Rand :: aud.atype == Umts && aud.ind < Pow2(aud.indBitlen) ==>
      var g := lib.gen(aud, r);
      g.ok ==> g.vec.sqn % Pow2(aud.indBitlen) == aud.ind
  }

  /** Also after a resynchronisation, every number that is generated lies in the slice. */
  lemma {:induction false} GenInSlice(lib: Library, aud: AuthData, resync: Resync, i: nat, r: Rand)
    requires SqnCarriesInd(lib) && AutsIsResync(lib) && aud.atype == Umts && aud.ind < Pow2(aud.indBitlen)
    ensures var g := Gen3g(lib, aud, resync, i, r); g.ok ==> g.vec.sqn % Pow2(aud.indBitlen) == aud.ind
  {
    if i == 0 && resync.auts.Some? && resync.rand.Some? {
      var recovered := lib.recover(aud, resync.auts.value, resync.rand.value);
      if recovered.Some? {
        assert Gen3g(lib, aud, resync, i, r) == lib.gen(aud.(sqn := recovered.value), r);
      }
    }
  }

  lemma {:induction false} ComputeInSlice(lib: Library, aud2g: AuthData, aud3g: AuthData, resync: Resync,
                                          rand: nat -> Option<Rand>, i: nat, n: nat, k: nat)
    requires SqnCarriesInd(lib) && AutsIsResync(lib) && aud3g.atype == Umts && aud3g.ind < Pow2(aud3g.indBitlen)
    requires k < |Compute3g(lib, aud2g, aud3g, resync, rand, i, n).0|
    ensures Compute3g(lib, aud2g, aud3g, resync, rand, i, n).0[k].sqn % Pow2(aud3g.indBitlen) == aud3g.ind
    decreases n - i
  {
    var r := rand(i).value;
    GenInSlice(lib, aud3g, resync, i, r);
    if k > 0 {
      ComputeInSlice(lib, aud2g, aud3g.(sqn := Gen3g(lib, aud3g, resync, i, r).sqn), resync, rand, i + 1, n, k - 1);
    }
  }

  /** The call gives its caller a vector with this sequence number. */
  predicate Gives(lib: Library, sub: Subscriber, c: Call, sqn: nat) {
    sqn in Sqns(GetAuc(lib, sub, c).1)
  }

  /**
   Every vector for a peer lies in the slice of the peer's index, cut down to the
   subscriber's bits, whether the call brings AUTS or not.
   */
  lemma {:induction false} VectorsInSlice(lib: Library, sub: Subscriber, c: Call, sqn: nat)
    requires SqnCarriesInd(lib) && AutsIsResync(lib) && Usable(sub.aud3g) && sub.aud3g.atype == Umts
    requires Gives(lib, sub, c, sqn)
    ensures sqn % Pow2(sub.aud3g.indBitlen) == MaskInd(c.ind, sub.aud3g.indBitlen)
  {
    var aud3g := sub.aud3g.(ind := MaskInd(c.ind, sub.aud3g.indBitlen), separation := c.separation);
    var k: nat :| k < |Sqns(GetAuc(lib, sub, c).1)| && Sqns(GetAuc(lib, sub, c).1)[k] == sqn;
    ComputeInSlice(lib, sub.aud2g, aud3g, c.resync, c.rand, 0, c.n, k);
  }

  // ---- Calls with AUTS, and what a call hands on ----

  /** The 3G data that a call works on. */
  function Masked(sub: Subscriber, c: Call): AuthData {
    sub.aud3g.(ind := MaskInd(c.ind, sub.aud3g.indBitlen), separation := c.separation)
  }

  /**
   A call with AUTS gives its caller what a call without AUTS gives after the number in
   AUTS has been stored, for any number of vectors. If a vector was attempted and the
   write-back is stored, the database is the same afterwards, too.
   */
  lemma {:induction false} CallResynchronises(lib: Library, sub: Subscriber, c: Call, auts: Auts, ra: Rand, sqn: nat, sub1: Subscriber, c1: Call)
    requires AutsIsResync(lib) && c.resync == Resync(Some(auts), Some(ra))
    requires !Invalid(sub.aud2g, sub.aud3g, c.resync) && lib.recover(Masked(sub, c), auts, ra) == Some(sqn)
    requires sub1 == sub.(aud3g := sub.aud3g.(sqn := sqn)) && c1 == c.(resync := NoResync)
    ensures GetAuc(lib, sub, c).0 == GetAuc(lib, sub1, c1).0 && GetAuc(lib, sub, c).1 == GetAuc(lib, sub1, c1).1
    ensures c.n > 0 && c.rand(0).Some? && !c.readFails && c.write.stored ==>
              GetAuc(lib, sub, c).2 == GetAuc(lib, sub1, c1).2
  {
    AutsEqualsRecovered(lib, sub.aud2g, Masked(sub, c), auts, ra, c.rand, c.n, sqn);
    assert Masked(sub1, c1) == Masked(sub, c).(sqn := sqn);
  }

  /** If the number in AUTS cannot be recovered, the call gives nothing and leaves the database as it was. */
  lemma {:induction false} FailedRecovery(lib: Library, sub: Subscriber, c: Call, auts: Auts, ra: Rand)
    requires AutsIsResync(lib) && c.resync == Resync(Some(auts), Some(ra)) && !c.readFails
    requires !Invalid(sub.aud2g, sub.aud3g, c.resync) && lib.recover(Masked(sub, c), auts, ra).None?
    ensures GetAuc(lib, sub, c) == (if c.write.error then -1 else 0, [], sub)
  {
    assert sub.(aud3g := sub.aud3g.(sqn := sub.aud3g.sqn)) == sub;
  }

  /** Half of AUTS and RAND is refused, and so is AUTS without 3G data. */
  lemma {:induction false} HalfResyncIsRefused(lib: Library, sub: Subscriber, c: Call)
    requires c.resync.auts.Some? != c.resync.rand.Some? || (c.resync.auts.Some? && !Usable(sub.aud3g))
    ensures GetAuc(lib, sub, c).0 < 0 && GetAuc(lib, sub, c).1 == []
  {
  }

  /** If nothing fails, the caller gets as many vectors as it asked for, and is told so. */
  lemma {:induction false} CallGivesAll(lib: Library, sub: Subscriber, c: Call)
    requires c.resync == NoResync && !Invalid(sub.aud2g, sub.aud3g, NoResync)
    requires (forall aud: AuthData, r: Rand :: lib.gen(aud, r).ok) && (forall i: nat :: c.rand(i).Some?)
    requires !c.readFails && !c.write.error
    ensures GetAuc(lib, sub, c).0 == |GetAuc(lib, sub, c).1| == c.n
  {
    if Usable(sub.aud3g) {
      VectorsAreComplete(lib, sub.aud2g, Masked(sub, c), NoResync, c.rand, c.n, 0);
    } else {
      GsmVectorsAreComplete(lib, sub.aud2g, Masked(sub, c), c.rand, c.n, 0);
    }
  }

  // ---- A library of this kind ----

  /** The next number in the slice of an index, as Annex C of 3GPP TS 33.102 has it. */
  function NextInSlice(aud: AuthData): nat {
    (aud.sqn / Pow2(aud.indBitlen) + 1) * Pow2(aud.indBitlen) + aud.ind
  }

  function SliceGen(aud: AuthData, r: Rand): Generated {
    if aud.ind >= Pow2(aud.indBitlen) then Generated(false, Vector(0, 0, 0, 0, 0, false), aud.sqn)
    else Generated(true, Vector(NextInSlice(aud), r, if aud.separation then 1 else 0, 0, 0, false), NextInSlice(aud))
  }

  function SliceGenAuts(aud: AuthData, auts: Auts, ra: Rand, r: Rand): Generated {
    SliceGen(aud.(sqn := auts), r)
  }

  /** It generates numbers in slices, AUTS is the number itself, and the separation bit shows in the vector. */
  const SliceLibrary := Library(SliceGen, SliceGenAuts, (aud, auts, ra) => Some(auts))

  lemma {:induction false} MultipleIsFar(d: int, m: nat)
    requires d != 0
    ensures d * m >= m || d * m + m <= 0
  {
    if d > 0 {
      assert (d - 1) * m >= 0;
    } else {
      assert (-1 - d) * m >= 0;
    }
  }

  lemma {:induction false} ModOfSum(q: nat, m: nat, ind: nat)
    requires ind < m
    ensures (q * m + ind) % m == ind
  {
    var x := q * m + ind;
    var a, b := x / m, x % m;
    assert x == a * m + b;
    assert (a - q) * m == ind - b;
    if a != q {
      MultipleIsFar(a - q, m);
    }
  }

  lemma {:induction false} NextRises(sqn: nat, m: nat, ind: nat)
    requires ind < m
    ensures (sqn / m + 1) * m + ind > sqn && ((sqn / m + 1) * m + ind) % m == ind
  {
    assert (sqn / m + 1) * m == sqn / m * m + m && sqn == sqn / m * m + sqn % m;
    ModOfSum(sqn / m + 1, m, ind);
  }

  /** All that is assumed of the library can hold at once. */
  lemma {:induction false} AssumptionsAgree()
    ensures MovesUp(SliceLibrary) && AutsIsResync(SliceLibrary) && SqnCarriesInd(SliceLibrary)
  {
    forall aud: AuthData | aud.ind < Pow2(aud.indBitlen)
      ensures NextInSlice(aud) > aud.sqn && NextInSlice(aud) % Pow2(aud.indBitlen) == aud.ind
    {
      NextRises(aud.sqn, Pow2(aud.indBitlen), aud.ind);
    }
  }

  /** The separation bit of a call reaches every vector. */
  lemma {:induction false} SeparationReaches(sub: Subscriber, c: Call, k: nat)
    requires Usable(sub.aud3g) && c.resync == NoResync && k < |GetAuc(SliceLibrary, sub, c).1|
    ensures GetAuc(SliceLibrary, sub, c).1[k].umts == if c.separation then 1 else 0
  {
    VectorsAreComplete(SliceLibrary, sub.aud2g, Masked(sub, c), NoResync, c.rand, c.n, k);
  }

  /** A resynchronisation that asks for no vector loses the number in AUTS. */
  lemma {:induction false} AutsWithoutVectorIsLost()
    ensures var aud2g := AuthData(ALG_NONE, TypeNone, 0, 0, 0, 0, false);
            var aud3g := AuthData(1, Umts, 0, 0, 0, 5, false);
            var resync := Resync(Some(64), Some(0));
            && SliceLibrary.recover(aud3g, 64, 0) == Some(64)
            && !Invalid(aud2g, aud3g, resync)
            && Compute(SliceLibrary, aud2g, aud3g, resync, _ => Some(0), 0) == (Some([]), 0)
            && Compute(SliceLibrary, aud2g, aud3g.(sqn := 64), NoResync, _ => Some(0), 0) == (Some([]), 64)
  {
  }

  const ENOENT := 2

  /** The subscriber database, keyed by IMSI. */
  class AuthDb {
    var subscribers: map<seq<Octet>, Subscriber>

    constructor (subscribers: map<seq<Octet>, Subscriber>)
      ensures this.subscribers == subscribers
    {
      this.subscribers := subscribers;
    }

    /** db_get_auc(), with db_get_auth_data() and db_update_sqn(); `vec` has room for the vectors asked for. */
    method DbGetAuc(lib: Library, imsi: seq<Octet>, vec: array<Vector>, c: Call) returns (ret: int)
      requires c.n == vec.Length
      modifies this, vec
      ensures imsi !in old(subscribers) ==>
                ret == (if c.readFails then -EIO else -ENOENT) && subscribers == old(subscribers)
      ensures imsi in old(subscribers) ==>
                var (ret', vecs, sub) := GetAuc(lib, old(subscribers)[imsi], c);
                && ret == ret' && subscribers == old(subscribers)[imsi := sub]
                && (ret >= 0 ==> ret <= vec.Length && vec[..ret] == vecs)
    {
      if c.readFails {
        assert imsi in subscribers ==> subscribers == subscribers[imsi := subscribers[imsi]];
        return -EIO;
      }
      if imsi !in subscribers {
        return -ENOENT;
      }
      var sub := subscribers[imsi];
      if sub.aud2g.atype == TypeNone && sub.aud3g.atype == TypeNone {
        assert subscribers == subscribers[imsi := sub];
        return -ENOKEY;
      }
      var aud3g := sub.aud3g.(ind := MaskInd(c.ind, sub.aud3g.indBitlen), separation := c.separation);
      var rc, sqn := ComputeVectors(lib, vec, sub.aud2g, aud3g, c.resync, c.rand);
      ret := if rc < 0 then -1 else rc;
      if sub.aud3g.algo != ALG_NONE {
        if c.write.stored {
          sub := sub.(aud3g := sub.aud3g.(sqn := sqn));
        }
        if c.write.error {
          ret := -1;
        }
      }
      subscribers := subscribers[imsi := sub];
    }
  }
}
