/** Bit-granular field access of the AML interpreter: copy_bits, and field reads and
    writes broken into aligned native accesses of the region. */
module AmlField {
  import opened Common

  // ---------------------------------------------------------------- bits

  /** The number `n` as a shift amount. */
  function V(n: nat): bv4
    requires n <= 15
  {
    if n == 0 then 0 else if n == 1 then 1 else if n == 2 then 2 else if n == 3 then 3
    else if n == 4 then 4 else if n == 5 then 5 else if n == 6 then 6 else if n == 7 then 7
    else if n == 8 then 8 else if n == 9 then 9 else if n == 10 then 10 else if n == 11 then 11
    else if n == 12 then 12 else if n == 13 then 13 else if n == 14 then 14 else 15
  }

  function CountUp(n: nat): bv4 {
    if n == 0 then 0 else CountUp(n - 1) + 1
  }

  lemma {:induction false} CountUpAdd(a: nat, b: nat)
    ensures CountUp(a + b) == CountUp(a) + CountUp(b)
    decreases b
  {
    if b > 0 {
      CountUpAdd(a, b - 1);
    }
  }

  lemma {:induction false} VCounts(n: nat)
    requires n <= 15
    ensures V(n) == CountUp(n)
  {
    if n > 0 {
      VCounts(n - 1);
    }
  }

  lemma VAdd(a: nat, b: nat)
    requires a + b <= 15
    ensures V(a + b) == V(a) + V(b)
  {
    forall n | 0 <= n <= 15
      ensures V(n) == CountUp(n)
    {
      VCounts(n);
    }
    CountUpAdd(a, b);
    SameSum(V(a), CountUp(a), V(b), CountUp(b));
  }

  lemma SameSum(x: bv4, x': bv4, y: bv4, y': bv4)
    requires x == x' && y == y'
    ensures x + y == x' + y'
  {
  }

  lemma VLess(a: nat, b: nat)
    requires a <= 15 && b <= 15
    ensures a < b <==> V(a) < V(b)
  {
  }

  lemma VEight()
    ensures V(8) == 8
  {
  }

  lemma VBelow(i: nat)
    requires i < 8
    ensures V(i) < 8
  {
    VEight();
    VLess(i, 8);
  }

  /** Bit `i` of a byte. */
  predicate BitOf(x: bv8, i: nat)
    requires i < 8
    decreases i
  {
    if i == 0 then x & 1 == 1 else BitOf(x >> 1, i - 1)
  }

  lemma ShiftOnce(x: bv8, w: bv4)
    requires w < 7
    ensures w + 1 < 8 && (x >> 1) >> w == x >> (w + 1)
  {
  }

  lemma VStep(i: nat)
    requires 0 < i < 8
    ensures V(i - 1) < 7 && V(i) == V(i - 1) + 1
  {
  }

  lemma {:induction false} BitShift(x: bv8, i: nat, v: bv4)
    requires i < 8 && v == V(i)
    ensures v < 8 && BitOf(x, i) == ((x >> v) & 1 == 1)
    decreases i
  {
    VBelow(i);
    if i > 0 {
      var w := V(i - 1);
      VStep(i);
      BitShift(x >> 1, i - 1, w);
      ShiftOnce(x, w);
    }
  }

  /** Bit `k` of a byte string, lowest bit of the first byte first; zero beyond its end. */
  predicate BitAt(s: seq<bv8>, k: nat) {
    k / 8 < |s| && BitOf(s[k / 8], k % 8)
  }

  // ---------------------------------------------------------------- copy_bits

  // Some predicates below are opened by `At` of one of these numbers.
  const BYTE := -1
  const PAIR := -2
  const FROM := -3
  const SHARE := -4

  /** Up to eight source bits, taken from bit `sh` of the first of two neighbouring bytes. */
  function SrcBits(s0: bv8, s1: bv8, sh: bv4, ln: bv4): bv8
    requires sh < 8 && ln <= 8
  {
    var b := s0 >> sh;
    var b := if sh > 0 && ln > 8 - sh then b | (s1 << (8 - sh)) else b;
    if ln < 8 then b & ((1 << ln) - 1) else b
  }

  function DstMask(ln: bv4, sh: bv4): bv16
    requires sh < 8 && ln <= 8
  {
    (if ln < 8 then (1 << ln) - 1 else 0xff) << sh
  }

  function LowByte(d: bv8, b: bv8, ln: bv4, sh: bv4): bv8
    requires sh < 8 && ln <= 8
  {
    var m := (DstMask(ln, sh) & 0xff) as bv8;
    (d & !m) | ((b << sh) & m)
  }

  function HighByte(d: bv8, b: bv8, ln: bv4, sh: bv4): bv8
    requires 0 < sh < 8 && ln <= 8
  {
    var m := (DstMask(ln, sh) >> 8) as bv8;
    (d & !m) | ((b >> (8 - sh)) & m)
  }

  /** `r` is what these functions yield; closed, so that only the bits of it are seen. */
  ghost predicate IsSrc(r: bv8, s0: bv8, s1: bv8, sh: bv4, ln: bv4) {
    forall j {:trigger At(j)} :: At(j) && j == BYTE ==> sh < 8 && ln <= 8 && r == SrcBits(s0, s1, sh, ln)
  }

  ghost predicate IsLow(r: bv8, d: bv8, b: bv8, ln: bv4, sh: bv4) {
    forall j {:trigger At(j)} :: At(j) && j == BYTE ==> sh < 8 && ln <= 8 && r == LowByte(d, b, ln, sh)
  }

  ghost predicate IsHigh(r: bv8, d: bv8, b: bv8, ln: bv4, sh: bv4) {
    forall j {:trigger At(j)} :: At(j) && j == BYTE ==> 0 < sh < 8 && ln <= 8 && r == HighByte(d, b, ln, sh)
  }

  // The three facts below are about bit-vectors alone; `i`, `ln` and `sh` are related to
  // them only through the stated conditions.

  lemma SrcVector(r: bv8, s0: bv8, s1: bv8, sh: bv4, ln: bv4, i: bv4, j: bv4, within: bool, first: bool)
    requires IsSrc(r, s0, s1, sh, ln) && sh < 8 && 1 <= ln <= 8 && i < 8 && j < 8
    requires (within <==> i < ln) && (first <==> sh + i < 8)
    requires sh + i == if first then j else j + 8
    ensures ((r >> i) & 1 == 1) == (within && if first then (s0 >> j) & 1 == 1 else (s1 >> j) & 1 == 1)
  {
    assert At(BYTE);
  }

  lemma LowVector(r: bv8, d: bv8, b: bv8, ln: bv4, sh: bv4, i: bv4, j: bv4, within: bool)
    requires IsLow(r, d, b, ln, sh) && sh < 8 && 1 <= ln <= 8 && i < 8 && j < 8
    requires (within ==> i == j + sh && sh <= i && j < ln) && (!within ==> i < sh || i - sh >= ln)
    ensures ((r >> i) & 1 == 1) == if within then (b >> j) & 1 == 1 else (d >> i) & 1 == 1
  {
    assert At(BYTE);
  }

  lemma HighVector(r: bv8, d: bv8, b: bv8, ln: bv4, sh: bv4, i: bv4, j: bv4, within: bool)
    requires IsHigh(r, d, b, ln, sh) && 0 < sh < 8 && 1 <= ln <= 8 && i < 8
    requires i + 8 == j + sh && (within <==> j < ln)
    requires within ==> j < 8
    ensures ((r >> i) & 1 == 1) == if within then (b >> j) & 1 == 1 else (d >> i) & 1 == 1
  {
    assert At(BYTE);
  }

  lemma VBounds(sh: nat, ln: nat)
    requires sh < 8 && ln <= 8
    ensures V(sh) < 8 && V(ln) <= 8 && (sh > 0 <==> V(sh) > 0) && (ln > 0 <==> V(ln) > 0)
  {
    VBelow(sh);
    VEight();
    VLess(8, ln);
    VLess(0, sh);
    VLess(0, ln);
  }

  lemma SrcFacts(sh: nat, ln: nat, i: nat, j: nat)
    requires sh < 8 && 1 <= ln <= 8 && i < 8 && j == if sh + i < 8 then sh + i else sh + i - 8
    ensures V(sh) < 8 && 1 <= V(ln) <= 8 && V(i) < 8 && V(j) < 8
    ensures (i < ln <==> V(i) < V(ln)) && (sh + i < 8 <==> V(sh) + V(i) < 8)
    ensures V(sh) + V(i) == if sh + i < 8 then V(j) else V(j) + 8
  {
    VBounds(sh, ln);
    VEight();
    VBelow(i);
    VBelow(j);
    VLess(i, ln);
    VLess(sh + i, 8);
    VAdd(sh, i);
    VAdd(j, 8);
  }

  lemma SrcMeaning(r: bv8, s0: bv8, s1: bv8, sh: nat, ln: nat, i: nat)
    requires sh < 8 && 1 <= ln <= 8 && i < 8 && IsSrc(r, s0, s1, V(sh), V(ln))
    ensures BitOf(r, i) == (i < ln && if sh + i < 8 then BitOf(s0, sh + i) else BitOf(s1, sh + i - 8))
  {
    var first := sh + i < 8;
    var j, s := if first then sh + i else sh + i - 8, if first then s0 else s1;
    SrcFacts(sh, ln, i, j);
    SrcBit(r, s0, s1, V(sh), V(ln), V(i), V(j), i < ln, first, s);
    BitShift(r, i, V(i));
    BitShift(s, j, V(j));
  }

  lemma SrcBit(r: bv8, s0: bv8, s1: bv8, sh: bv4, ln: bv4, i: bv4, j: bv4, within: bool, first: bool, s: bv8)
    requires IsSrc(r, s0, s1, sh, ln) && sh < 8 && 1 <= ln <= 8 && i < 8 && j < 8
    requires (within <==> i < ln) && (first <==> sh + i < 8) && s == if first then s0 else s1
    requires sh + i == if first then j else j + 8
    ensures ((r >> i) & 1 == 1) == (within && (s >> j) & 1 == 1)
  {
    SrcVector(r, s0, s1, sh, ln, i, j, within, first);
  }

  lemma LowFacts(sh: nat, ln: nat, i: nat, j: nat)
    requires sh < 8 && 1 <= ln <= 8 && i < 8 && j == if sh <= i then i - sh else 0
    ensures V(sh) < 8 && 1 <= V(ln) <= 8 && V(i) < 8 && V(j) < 8
    ensures sh <= i ==> V(i) == V(j) + V(sh) && V(sh) <= V(i) && V(i) - V(sh) == V(j)
    ensures (sh <= i <==> V(sh) <= V(i)) && (j < ln <==> V(j) < V(ln))
  {
    VBounds(sh, ln);
    VBelow(i);
    VBelow(j);
    VLess(i, sh);
    VLess(j, ln);
    VAdd(j, sh);
  }

  lemma LowMeaning(r: bv8, d: bv8, b: bv8, ln: nat, sh: nat, i: nat)
    requires sh < 8 && 1 <= ln <= 8 && i < 8 && IsLow(r, d, b, V(ln), V(sh))
    ensures BitOf(r, i) == if sh <= i < sh + ln then BitOf(b, i - sh) else BitOf(d, i)
  {
    var j := if sh <= i then i - sh else 0;
    LowFacts(sh, ln, i, j);
    BitShift(r, i, V(i));
    BitShift(d, i, V(i));
    BitShift(b, j, V(j));
    LowVector(r, d, b, V(ln), V(sh), V(i), V(j), sh <= i < sh + ln);
  }

  lemma HighFacts(sh: nat, ln: nat, i: nat, j: nat)
    requires 0 < sh < 8 && 1 <= ln <= 8 && i < 8 && j == i + 8 - sh
    ensures 0 < V(sh) < 8 && 1 <= V(ln) <= 8 && V(i) < 8 && V(i) + 8 == V(j) + V(sh)
    ensures (j < ln <==> V(j) < V(ln)) && (j < 8 <==> V(j) < 8)
  {
    VBounds(sh, ln);
    VEight();
    VBelow(i);
    VLess(j, ln);
    VLess(j, 8);
    VAdd(j, sh);
    VAdd(i, 8);
  }

  lemma HighMeaning(r: bv8, d: bv8, b: bv8, ln: nat, sh: nat, i: nat)
    requires 0 < sh < 8 && 1 <= ln <= 8 && i < 8 && IsHigh(r, d, b, V(ln), V(sh))
    ensures BitOf(r, i) == if i + 8 - sh < ln then BitOf(b, i + 8 - sh) else BitOf(d, i)
  {
    var j := i + 8 - sh;
    HighFacts(sh, ln, i, j);
    HighVector(r, d, b, V(ln), V(sh), V(i), V(j), j < ln);
    BitShift(r, i, V(i));
    if j < ln {
      BitShift(b, j, V(j));
    } else {
      BitShift(d, i, V(i));
    }
  }

  function Byte(s: seq<bv8>, i: nat): bv8 {
    if i < |s| then s[i] else 0
  }

  lemma ByteBit(s: seq<bv8>, k: nat)
    ensures BitAt(s, k) == BitOf(Byte(s, k / 8), k % 8)
  {
    VBelow(k % 8);
  }

  /** The bits one round of copy_bits moves. */
  function Gathered(src: seq<bv8>, si: nat, n: nat): bv8
    requires n <= 8
  {
    VBounds(si % 8, n);
    SrcBits(Byte(src, si / 8), Byte(src, si / 8 + 1), V(si % 8), V(n))
  }

  /** `g` are the `n` bits from bit `sh` of byte `q` on. */
  ghost predicate FromPair(g: bv8, src: seq<bv8>, q: nat, sh: nat, n: nat) {
    forall j {:trigger At(j)} :: At(j) && j == PAIR ==>
      sh < 8 && n <= 8 && IsSrc(g, Byte(src, q), Byte(src, q + 1), V(sh), V(n))
  }

  /** `g` are the `n` bits from bit `si` on. */
  ghost predicate From(g: bv8, src: seq<bv8>, si: nat, n: nat) {
    forall j {:trigger At(j)} :: At(j) && j == FROM ==> FromPair(g, src, si / 8, si % 8, n)
  }

  lemma GatheredIs(src: seq<bv8>, si: nat, n: nat)
    requires n <= 8
    ensures From(Gathered(src, si, n), src, si, n)
  {
    VBounds(si % 8, n);
  }

  /** Bit `i` from bit `sh` of byte `q` on is in that byte or in the next one. */
  lemma TwoBytes(src: seq<bv8>, q: nat, sh: nat, i: nat, k: nat)
    requires sh < 8 && i < 8 && k == 8 * q + sh + i
    ensures BitAt(src, k) == if sh + i < 8 then BitOf(Byte(src, q), sh + i) else BitOf(Byte(src, q + 1), sh + i - 8)
  {
    ByteBit(src, k);
  }

  lemma GatheredBit(g: bv8, src: seq<bv8>, si: nat, n: nat, i: nat)
    requires 1 <= n <= 8 && i < n && From(g, src, si, n)
    ensures BitOf(g, i) == BitAt(src, si + i)
  {
    assert At(FROM);
    PairBit(g, src, si / 8, si % 8, n, i, si + i);
  }

  lemma PairBit(g: bv8, src: seq<bv8>, q: nat, sh: nat, n: nat, i: nat, k: nat)
    requires sh < 8 && 1 <= n <= 8 && i < n && k == 8 * q + sh + i && FromPair(g, src, q, sh, n)
    ensures BitOf(g, i) == BitAt(src, k)
  {
    assert At(PAIR);
    SrcMeaning(g, Byte(src, q), Byte(src, q + 1), sh, n, i);
    TwoBytes(src, q, sh, i, k);
  }

  lemma GatheredBits(src: seq<bv8>, si: nat, n: nat, i: nat)
    requires 1 <= n <= 8 && i < n
    ensures BitOf(Gathered(src, si, n), i) == BitAt(src, si + i)
  {
    GatheredIs(src, si, n);
    GatheredBit(Gathered(src, si, n), src, si, n, i);
  }

  /** The destination after one round has placed `n` bits at `di`. */
  function Placed(d: seq<bv8>, di: nat, b: bv8, n: nat): (r: seq<bv8>)
    requires 1 <= n <= 8 && di + n <= 8 * |d|
    ensures |r| == |d|
  {
    var q, sh := di / 8, di % 8;
    VBounds(sh, n);
    var low := d[q := LowByte(d[q], b, V(n), V(sh))];
    if sh > 0 && n > 8 - sh then low[q + 1 := HighByte(d[q + 1], b, V(n), V(sh))] else low
  }

  lemma PlacedBits(d: seq<bv8>, di: nat, b: bv8, n: nat, k: nat)
    requires 1 <= n <= 8 && di + n <= 8 * |d|
    ensures BitAt(Placed(d, di, b, n), k) == if di <= k < di + n then BitOf(b, k - di) else BitAt(d, k)
  {
    Window(di, n, k);
    if k / 8 == di / 8 {
      PlacedLow(d, di, b, n, k);
    } else if di % 8 > 0 && n > 8 - di % 8 && k / 8 == di / 8 + 1 {
      PlacedHigh(d, di, b, n, k);
    } else {
      PlacedElsewhere(d, di, b, n, k / 8);
    }
  }

  /** Where bit `k` lies relative to `n` bits at `di`, byte by byte. */
  lemma Window(di: nat, n: nat, k: nat)
    requires n <= 8
    ensures k / 8 == di / 8 ==>
              (di <= k < di + n <==> di % 8 <= k % 8 < di % 8 + n) && k - di == k % 8 - di % 8
    ensures k / 8 == di / 8 + 1 ==>
              (di <= k < di + n <==> k % 8 + 8 - di % 8 < n) && k - di == k % 8 + 8 - di % 8
    ensures k / 8 == di / 8 + 1 && !(di % 8 > 0 && n > 8 - di % 8) ==> !(di <= k < di + n)
    ensures k / 8 != di / 8 && k / 8 != di / 8 + 1 ==> !(di <= k < di + n)
  {
  }

  lemma PlacedBytes(d: seq<bv8>, di: nat, b: bv8, n: nat)
    requires 1 <= n <= 8 && di + n <= 8 * |d|
    ensures di / 8 < |d| && IsLow(Placed(d, di, b, n)[di / 8], d[di / 8], b, V(n), V(di % 8))
    ensures di % 8 > 0 && n > 8 - di % 8 ==>
              di / 8 + 1 < |d| && IsHigh(Placed(d, di, b, n)[di / 8 + 1], d[di / 8 + 1], b, V(n), V(di % 8))
  {
    VBounds(di % 8, n);
  }

  lemma PlacedLow(d: seq<bv8>, di: nat, b: bv8, n: nat, k: nat)
    requires 1 <= n <= 8 && di + n <= 8 * |d| && k / 8 == di / 8
    ensures BitAt(Placed(d, di, b, n), k) ==
            if di % 8 <= k % 8 < di % 8 + n then BitOf(b, k % 8 - di % 8) else BitAt(d, k)
  {
    PlacedBytes(d, di, b, n);
    LowMeaning(Placed(d, di, b, n)[di / 8], d[di / 8], b, n, di % 8, k % 8);
  }

  lemma PlacedHigh(d: seq<bv8>, di: nat, b: bv8, n: nat, k: nat)
    requires 1 <= n <= 8 && di + n <= 8 * |d| && di % 8 > 0 && n > 8 - di % 8 && k / 8 == di / 8 + 1
    ensures BitAt(Placed(d, di, b, n), k) ==
            if k % 8 + 8 - di % 8 < n then BitOf(b, k % 8 + 8 - di % 8) else BitAt(d, k)
  {
    PlacedBytes(d, di, b, n);
    HighMeaning(Placed(d, di, b, n)[di / 8 + 1], d[di / 8 + 1], b, n, di % 8, k % 8);
  }

  lemma PlacedElsewhere(d: seq<bv8>, di: nat, b: bv8, n: nat, j: nat)
    requires 1 <= n <= 8 && di + n <= 8 * |d| && j != di / 8
    requires !(di % 8 > 0 && n > 8 - di % 8 && j == di / 8 + 1)
    ensures j < |d| ==> Placed(d, di, b, n)[j] == d[j]
  {
  }

  /** The destination holds `n` source bits from `si` at `di`, and its old bits elsewhere. */
  ghost predicate Copied(src: seq<bv8>, si: nat, d: seq<bv8>, d': seq<bv8>, di: nat, n: nat) {
    && |d'| == |d|
    && forall k: nat {:trigger BitAt(d', k)} :: BitAt(d', k) ==
         if di <= k < di + n then BitAt(src, si + (k - di)) else BitAt(d, k)
  }

  lemma RoundCopies(src: seq<bv8>, si: nat, d: seq<bv8>, di: nat, n: nat)
    requires 1 <= n <= 8 && di + n <= 8 * |d|
    ensures Copied(src, si, d, Placed(d, di, Gathered(src, si, n), n), di, n)
  {
    var b := Gathered(src, si, n);
    forall k: nat
      ensures BitAt(Placed(d, di, b, n), k) == if di <= k < di + n then BitAt(src, si + (k - di)) else BitAt(d, k)
    {
      PlacedBits(d, di, b, n, k);
      if di <= k < di + n {
        GatheredBits(src, si, n, k - di);
      }
    }
  }

  lemma CopiedTwice(src: seq<bv8>, si: nat, d0: seq<bv8>, d1: seq<bv8>, d2: seq<bv8>, di: nat, m: nat, n: nat)
    requires Copied(src, si, d0, d1, di, m) && Copied(src, si + m, d1, d2, di + m, n)
    ensures Copied(src, si, d0, d2, di, m + n)
  {
  }

  /** One round of copy_bits: stores up to eight bits that were gathered. */
  method CopyRound(src: seq<bv8>, si: nat, dst: array<bv8>, di: nat, n: nat)
    requires 1 <= n <= 8 && di + n <= 8 * dst.Length
    modifies dst
    ensures Copied(src, si, old(dst[..]), dst[..], di, n)
  {
    ghost var before := dst[..];
    var sh := di % 8;
    VBounds(sh, n);
    var bits := Gathered(src, si, n);
    dst[di / 8] := LowByte(dst[di / 8], bits, V(n), V(sh));
    if sh > 0 && n > 8 - sh {
      dst[di / 8 + 1] := HighByte(dst[di / 8 + 1], bits, V(n), V(sh));
    }
    assert dst[..] == Placed(before, di, bits, n);
    RoundCopies(src, si, before, di, n);
  }

  method CopyBits(src: seq<bv8>, srcIndex: nat, dst: array<bv8>, dstIndex: nat, length: nat)
    requires dstIndex + length <= 8 * dst.Length
    modifies dst
    ensures Copied(src, srcIndex, old(dst[..]), dst[..], dstIndex, length)
  {
    var si, di, len := srcIndex, dstIndex, length;
    while len > 0
      invariant 0 <= len <= length
      invariant len > 0 ==> si == srcIndex + (length - len) && di == dstIndex + (length - len)
      invariant Copied(src, srcIndex, old(dst[..]), dst[..], dstIndex, length - len)
    {
      ghost var before := dst[..];
      var n := if len < 8 then len else 8;
      CopyRound(src, si, dst, di, n);
      CopiedTwice(src, srcIndex, old(dst[..]), before, dst[..], dstIndex, length - len, n);
      if len < 8 {
        len := 0;
      } else {
        len, si, di := len - 8, si + 8, di + 8;
      }
    }
  }

  // ---------------------------------------------------------------- fields

  datatype FieldUpdateRule = Preserve | WriteAsOnes | WriteAsZeros

  /** A field of an operation region; `flags` is the AML field-flags byte. */
  datatype FieldUnit = FieldUnit(flags: nat, bitIndex: nat, bitLength: nat)

  datatype FieldError = InvalidFieldFlags | ObjectNotOfExpectedType

  /** An integer is given by its eight little-endian bytes. */
  datatype Object = Integer(bytes: seq<bv8>) | Buffer(bytes: seq<bv8>) | OtherObject

  function AccessBytes(flags: nat): (r: Result<nat, FieldError>)
    ensures r.Err? <==> flags % 16 > 5
    ensures r.Ok? ==> r.value == if flags % 16 in {2, 3, 4} then Pow2(flags % 16 - 1) else 1
    ensures r.Ok? ==> r.value in {1, 2, 4, 8}
  {
    match flags % 16
    case 0 => Ok(1)
    case 1 => Ok(1)
    case 2 => Ok(2)
    case 3 => Ok(4)
    case 4 => Ok(8)
    case 5 => Ok(1)
    case _ => Err(InvalidFieldFlags)
  }

  /** None is the value the interpreter declares unreachable. */
  function UpdateRule(flags: nat): Option<FieldUpdateRule> {
    match flags / 32 % 4
    case 0 => Some(Preserve)
    case 1 => Some(WriteAsOnes)
    case 2 => Some(WriteAsZeros)
    case _ => None
  }

  function NextMultipleOf(x: nat, m: nat): nat
    requires m > 0
  {
    if x % m == 0 then x else x + (m - x % m)
  }

  /** For a power of two, clearing the low bits of `value`. */
  function AlignDown(value: nat, align: nat): nat
    requires align > 0
  {
    value - value % align
  }

  predicate Width(w: nat) { w in {8, 16, 32, 64} }

  /** Native accesses the field spans, and the bit range they cover. */
  function Accesses(f: FieldUnit, w: nat): nat
    requires Width(w)
  {
    NextMultipleOf(f.bitLength + f.bitIndex % w, w) / w
  }

  function Low(f: FieldUnit, w: nat): nat
    requires Width(w)
  {
    f.bitIndex - f.bitIndex % w
  }

  function High(f: FieldUnit, w: nat): nat
    requires Width(w)
  {
    Low(f, w) + Accesses(f, w) * w
  }

  /** How many field bits lie in the first `i` accesses. */
  function Covered(f: FieldUnit, w: nat, i: nat): nat
    requires Width(w)
  {
    if i == 0 || i * w <= f.bitIndex % w then 0
    else if f.bitLength < i * w - f.bitIndex % w then f.bitLength
    else i * w - f.bitIndex % w
  }

  /** The field's share of access `i`. */
  function Share(f: FieldUnit, w: nat, i: nat, done: nat): nat
    requires Width(w) && done <= f.bitLength
  {
    var room := if i == 0 then w - f.bitIndex % w else w;
    if f.bitLength - done < room then f.bitLength - done else room
  }

  lemma NextMultipleFacts(x: nat, m: nat)
    requires m > 0
    ensures x <= NextMultipleOf(x, m) < x + m
    ensures NextMultipleOf(x, m) / m * m == NextMultipleOf(x, m)
  {
    var q, r := x / m, x % m;
    assert x == q * m + r;
    if r == 0 {
      DivModUnique(x, m, q, 0);
    } else {
      assert x + (m - r) == (q + 1) * m;
      DivModUnique(x + (m - r), m, q + 1, 0);
    }
  }

  /** Access `i` starts at an aligned bit and there is field left for it. */
  lemma AccessBounds(f: FieldUnit, w: nat, i: nat)
    requires Width(w) && i < Accesses(f, w)
    ensures Low(f, w) + i * w + w <= High(f, w)
    ensures i > 0 ==> 0 < i * w - f.bitIndex % w < f.bitLength
    ensures (i + 1) * w == i * w + w
  {
    var n, x := Accesses(f, w), f.bitLength + f.bitIndex % w;
    NextMultipleFacts(x, w);
    assert (n - i - 1) * w == n * w - i * w - w;
    Scale(n - i, w);
    Scale(i, w);
    assert (n - i) * w == n * w - i * w;
  }

  lemma AccessAligned(f: FieldUnit, w: nat, i: nat)
    requires Width(w)
    ensures AlignDown(f.bitIndex + i * w, w) == Low(f, w) + i * w
    ensures (Low(f, w) + i * w) % 8 == 0
  {
    Quotient(f.bitIndex, w);
    Further(f.bitIndex, w, f.bitIndex / w, f.bitIndex % w, i, i * w);
  }

  lemma Quotient(x: nat, w: nat)
    requires w > 0
    ensures x == x / w * w + x % w
  {
  }

  /** `i` units of `w` further on. */
  lemma Further(x: nat, w: nat, q: nat, r: nat, i: nat, d: nat)
    requires Width(w) && x == q * w + r && r < w && d == i * w
    ensures (x + d) % w == r && (x - r + d) % 8 == 0
  {
    assert (q + i) * w == q * w + i * w;
    DivModUnique(x + d, w, q + i, r);
    OnByte(q + i, w, x - r + d);
  }

  lemma OnByte(k: nat, w: nat, x: nat)
    requires Width(w) && x == k * w
    ensures x % 8 == 0
  {
    var m := w / 8;
    assert k * (8 * m) == (k * m) * 8;
    DivModUnique(x, 8, k * m, 0);
  }

  lemma AccessShare(f: FieldUnit, w: nat, i: nat)
    requires Width(w) && (i + 1) * w == i * w + w && (i > 0 ==> 0 < i * w - f.bitIndex % w < f.bitLength)
    ensures Covered(f, w, i) <= f.bitLength
    ensures Covered(f, w, i + 1) == Covered(f, w, i) + Share(f, w, i, Covered(f, w, i))
    ensures Low(f, w) + i * w + (if i == 0 then f.bitIndex % w else 0) == f.bitIndex + Covered(f, w, i)
  {
  }

  lemma AccessFacts(f: FieldUnit, w: nat, i: nat)
    requires Width(w) && i < Accesses(f, w)
    ensures AlignDown(f.bitIndex + i * w, w) == Low(f, w) + i * w
    ensures (Low(f, w) + i * w) % 8 == 0 && Low(f, w) + i * w + w <= High(f, w)
    ensures Covered(f, w, i) <= f.bitLength
    ensures Covered(f, w, i + 1) == Covered(f, w, i) + Share(f, w, i, Covered(f, w, i))
    ensures Low(f, w) + i * w + (if i == 0 then f.bitIndex % w else 0) == f.bitIndex + Covered(f, w, i)
  {
    AccessBounds(f, w, i);
    AccessAligned(f, w, i);
    AccessShare(f, w, i);
  }

  lemma AllCovered(f: FieldUnit, w: nat)
    requires Width(w)
    ensures Covered(f, w, Accesses(f, w)) == f.bitLength
    ensures f.bitIndex + f.bitLength <= High(f, w)
  {
    NextMultipleFacts(f.bitLength + f.bitIndex % w, w);
  }

  // ---------------------------------------------------------------- reading

  /** `out` holds the field's bits of `mem`, zero-extended. */
  ghost predicate FieldRead(mem: seq<bv8>, f: FieldUnit, out: seq<bv8>) {
    forall k: nat :: BitAt(out, k) == (k < f.bitLength && BitAt(mem, f.bitIndex + k))
  }

  /** The eight little-endian bytes of a native access of `n` bytes. */
  function NativeRead(mem: seq<bv8>, at: nat, n: nat): (r: seq<bv8>)
    requires at + n <= |mem| && n <= 8
    ensures |r| == 8
  {
    mem[at..at + n] + seq(8 - n, _ => 0 as bv8)
  }

  lemma NativeBits(mem: seq<bv8>, at: nat, n: nat, j: nat)
    requires at + n <= |mem| && n <= 8 && j < 8 * n
    ensures BitAt(NativeRead(mem, at, n), j) == BitAt(mem, 8 * at + j)
  {
  }

  /** Copying from the aligned access is copying from the region itself. */
  lemma ReadShare(mem: seq<bv8>, at: nat, n: nat, si: nat, d: seq<bv8>, d': seq<bv8>, di: nat, len: nat)
    requires at + n <= |mem| && n <= 8 && si + len <= 8 * n
    requires Copied(NativeRead(mem, at, n), si, d, d', di, len)
    ensures Copied(mem, 8 * at + si, d, d', di, len)
  {
    forall k: nat
      ensures BitAt(d', k) == if di <= k < di + len then BitAt(mem, 8 * at + si + (k - di)) else BitAt(d, k)
    {
      if di <= k < di + len {
        NativeBits(mem, at, n, si + (k - di));
      }
    }
  }

  predicate AllZero(s: seq<bv8>) {
    forall i :: 0 <= i < |s| ==> s[i] == 0
  }

  lemma ZeroBit(s: seq<bv8>, k: nat)
    requires AllZero(s)
    ensures !BitAt(s, k)
  {
    VBelow(k % 8);
  }

  /** Everything of the field has been copied onto zeros. */
  lemma ReadAll(mem: seq<bv8>, f: FieldUnit, zeros: seq<bv8>, out: seq<bv8>)
    requires Copied(mem, f.bitIndex, zeros, out, 0, f.bitLength) && AllZero(zeros)
    ensures FieldRead(mem, f, out)
  {
    forall k: nat ensures BitAt(out, k) == (k < f.bitLength && BitAt(mem, f.bitIndex + k)) {
      ZeroBit(zeros, k);
    }
  }

  /** Where access `i` reads, and that this lies in the region and continues the last one. */
  lemma ReadPlan(f: FieldUnit, n: nat, i: nat, limit: nat)
    requires Width(8 * n) && i < Accesses(f, 8 * n) && High(f, 8 * n) <= 8 * limit
    ensures Covered(f, 8 * n, i) <= f.bitLength
    ensures var w, done := 8 * n, Covered(f, 8 * n, i);
            var at, si := AlignDown(f.bitIndex + i * w, w) / 8, if i == 0 then f.bitIndex % w else 0;
            var len := Share(f, w, i, done);
            && n <= 8 && at + n <= limit && si + len <= 8 * n && 8 * at + si == f.bitIndex + done
            && done + len == Covered(f, w, i + 1) <= f.bitLength
  {
    AccessFacts(f, 8 * n, i);
  }

  /** One native read and the copy of the field's share of it. */
  method ReadAccess(region: array<bv8>, at: nat, n: nat, srcIndex: nat, output: array<bv8>, readSoFar: nat, length: nat)
    requires n <= 8 && at + n <= region.Length && srcIndex + length <= 8 * n
    requires region != output && readSoFar + length <= 8 * output.Length
    modifies output
    ensures Copied(region[..], 8 * at + srcIndex, old(output[..]), output[..], readSoFar, length)
  {
    var raw := NativeRead(region[..], at, n);
    ghost var before := output[..];
    CopyBits(raw, srcIndex, output, readSoFar, length);
    ReadShare(region[..], at, n, srcIndex, before, output[..], readSoFar, length);
  }

  /** Another access read, behind what was read so far. */
  method ReadMore(region: array<bv8>, ghost bitIndex: nat, at: nat, n: nat, srcIndex: nat, output: array<bv8>,
                  readSoFar: nat, length: nat, ghost zeros: seq<bv8>)
    requires n <= 8 && at + n <= region.Length && srcIndex + length <= 8 * n
    requires region != output && readSoFar + length <= 8 * output.Length && 8 * at + srcIndex == bitIndex + readSoFar
    requires Copied(region[..], bitIndex, zeros, output[..], 0, readSoFar)
    modifies output
    ensures Copied(region[..], bitIndex, zeros, output[..], 0, readSoFar + length)
  {
    ghost var before := output[..];
    ReadAccess(region, at, n, srcIndex, output, readSoFar, length);
    CopiedTwice(region[..], bitIndex, zeros, before, output[..], 0, readSoFar, length);
  }

  /** One round of do_field_read: what was read so far grows by the share of access `i`. */
  method ReadNext(region: array<bv8>, f: FieldUnit, n: nat, i: nat, output: array<bv8>, readSoFar: nat,
                  ghost zeros: seq<bv8>)
    returns (length: nat)
    requires Width(8 * n) && i < Accesses(f, 8 * n) && High(f, 8 * n) <= 8 * region.Length
    requires region != output && readSoFar == Covered(f, 8 * n, i) && f.bitLength <= 8 * output.Length
    requires readSoFar <= f.bitLength && Copied(region[..], f.bitIndex, zeros, output[..], 0, readSoFar)
    modifies output
    ensures readSoFar + length == Covered(f, 8 * n, i + 1) <= f.bitLength
    ensures Copied(region[..], f.bitIndex, zeros, output[..], 0, readSoFar + length)
  {
    var w := 8 * n;
    ReadPlan(f, n, i, region.Length);
    var at := AlignDown(f.bitIndex + i * w, w) / 8;
    var srcIndex := if i == 0 then f.bitIndex % w else 0;
    length := Share(f, w, i, readSoFar);
    ReadMore(region, f.bitIndex, at, n, srcIndex, output, readSoFar, length, zeros);
  }

  /** The loop of do_field_read. */
  method ReadAccesses(region: array<bv8>, f: FieldUnit, n: nat, output: array<bv8>)
    requires Width(8 * n) && High(f, 8 * n) <= 8 * region.Length
    requires region != output && f.bitLength <= 8 * output.Length && AllZero(output[..])
    modifies output
    ensures FieldRead(region[..], f, output[..])
  {
    var w := 8 * n;
    var count := Accesses(f, w);
    ghost var zeros := output[..];
    var readSoFar, i := 0, 0;
    while i < count
      invariant 0 <= i <= count && readSoFar == Covered(f, w, i) <= f.bitLength
      invariant Copied(region[..], f.bitIndex, zeros, output[..], 0, readSoFar)
    {
      var length := ReadNext(region, f, n, i, output, readSoFar, zeros);
      readSoFar := readSoFar + length;
      i := i + 1;
    }
    AllCovered(f, w);
    ReadAll(region[..], f, zeros, output[..]);
  }

  method DoFieldRead(region: array<bv8>, f: FieldUnit, dsdtRevision: nat) returns (r: Result<Object, FieldError>)
    requires AccessBytes(f.flags).Ok? ==> High(f, 8 * AccessBytes(f.flags).value) <= 8 * region.Length
    ensures AccessBytes(f.flags).Err? ==> r == Err(InvalidFieldFlags)
    ensures AccessBytes(f.flags).Ok? ==> r.Ok? && !r.value.OtherObject? && FieldRead(region[..], f, r.value.bytes)
    ensures r.Ok? ==> (r.value.Integer? <==> f.bitLength <= if dsdtRevision >= 2 then 64 else 32)
    ensures r.Ok? && r.value.Integer? ==> |r.value.bytes| == 8
    ensures r.Ok? && r.value.Buffer? ==> |r.value.bytes| == NextMultipleOf(f.bitLength, 8)
  {
    var needsBuffer := if dsdtRevision >= 2 then f.bitLength > 64 else f.bitLength > 32;
    var access := AccessBytes(f.flags);
    if access.Err? {
      return Err(access.error);
    }
    var size := if needsBuffer then NextMultipleOf(f.bitLength, 8) else 8;
    var output := new bv8[size](_ => 0);
    ReadAccesses(region, f, access.value, output);
    r := Ok(if needsBuffer then Buffer(output[..]) else Integer(output[..]));
  }

  // ---------------------------------------------------------------- writing

  /** What bit `k` of the region is to be after `value` was stored in the field, the
      accesses covering the bits from `lo` to `hi`. */
  predicate Target(mem: seq<bv8>, f: FieldUnit, lo: nat, hi: nat, rule: FieldUpdateRule, value: seq<bv8>, k: nat) {
    if f.bitIndex <= k < f.bitIndex + f.bitLength then BitAt(value, k - f.bitIndex)
    else if lo <= k < hi then (rule.Preserve? && BitAt(mem, k)) || rule.WriteAsOnes?
    else BitAt(mem, k)
  }

  /** The accesses up to bit `end` are done, the rest of the region is as it was. */
  ghost predicate WrittenTo(mem: seq<bv8>, mem': seq<bv8>, f: FieldUnit, lo: nat, hi: nat,
                            rule: FieldUpdateRule, value: seq<bv8>, end: nat)
  {
    && |mem'| == |mem|
    && forall k: nat {:trigger BitAt(mem', k)} :: BitAt(mem', k) ==
         if lo <= k < end then Target(mem, f, lo, hi, rule, value, k) else BitAt(mem, k)
  }

  /** The field holds `value`, zero-extended or cut off; around it the update rule holds;
      outside the accessed units nothing changed. */
  ghost predicate FieldWritten(mem: seq<bv8>, mem': seq<bv8>, f: FieldUnit, w: nat,
                               rule: FieldUpdateRule, value: seq<bv8>)
    requires Width(w)
  {
    && |mem'| == |mem|
    && forall k: nat {:trigger BitAt(mem', k)} :: BitAt(mem', k) ==
         Target(mem, f, Low(f, w), High(f, w), rule, value, k)
  }

  /** The bytes a partial access starts from. */
  function Background(mem: seq<bv8>, at: nat, n: nat, partial: bool, rule: FieldUpdateRule): (r: seq<bv8>)
    requires at + n <= |mem| && n <= 8
    ensures |r| == 8
  {
    if partial && rule.Preserve? then NativeRead(mem, at, n)
    else if partial && rule.WriteAsOnes? then seq(8, _ => 0xff as bv8)
    else seq(8, _ => 0 as bv8)
  }

  function NativeWrite(mem: seq<bv8>, at: nat, n: nat, bytes: seq<bv8>): (r: seq<bv8>)
    requires at + n <= |mem| && n <= |bytes|
    ensures |r| == |mem|
  {
    mem[..at] + bytes[..n] + mem[at + n..]
  }

  lemma NativeWriteBits(mem: seq<bv8>, at: nat, n: nat, bytes: seq<bv8>, k: nat)
    requires at + n <= |mem| && n <= |bytes|
    ensures BitAt(NativeWrite(mem, at, n, bytes), k) ==
            if 8 * at <= k < 8 * (at + n) then BitAt(bytes, k - 8 * at) else BitAt(mem, k)
  {
  }

  lemma BackgroundBits(mem: seq<bv8>, at: nat, n: nat, rule: FieldUpdateRule, j: nat)
    requires at + n <= |mem| && n <= 8 && j < 8 * n
    ensures BitAt(Background(mem, at, n, true, rule), j) ==
            ((rule.Preserve? && BitAt(mem, 8 * at + j)) || rule.WriteAsOnes?)
  {
    VBelow(j % 8);
    if rule.Preserve? {
      NativeBits(mem, at, n, j);
    } else if rule.WriteAsOnes? {
      AllOnes(V(j % 8));
    }
  }

  lemma AllOnes(i: bv4)
    requires i < 8
    ensures (0xff as bv8 >> i) & 1 == 1
  {
  }

  /** The field's share of an access: `len` bits from field bit `done`, at bit `di` of the
      access starting at byte `at`. */
  predicate ShareOk(f: FieldUnit, n: nat, at: nat, di: nat, done: nat, len: nat) {
    && 8 * at + di == f.bitIndex + done && done + len <= f.bitLength && di + len <= 8 * n
    && (done > 0 ==> di == 0)
    && (di + len < 8 * n ==> done + len == f.bitLength)
  }

  /** `bytes` are the field's share of an access over what the update rule puts around it. */
  ghost predicate Stored(cur: seq<bv8>, f: FieldUnit, rule: FieldUpdateRule, value: seq<bv8>, n: nat, at: nat,
                         bytes: seq<bv8>, di: nat, done: nat, len: nat)
  {
    && |bytes| == 8
    && forall j {:trigger At(j)} :: At(j) && j == SHARE ==>
         && at + n <= |cur| && n <= 8
         && Copied(value, done, Background(cur, at, n, di > 0 || f.bitLength - done < 8 * n, rule), bytes, di, len)
  }

  /** Bit `j` of a finished access is what that bit of the region is to be. */
  lemma WriteBit(mem: seq<bv8>, cur: seq<bv8>, f: FieldUnit, lo: nat, hi: nat, rule: FieldUpdateRule, value: seq<bv8>,
                 n: nat, at: nat, bytes: seq<bv8>, di: nat, done: nat, len: nat, j: nat)
    requires n <= 8 && j < 8 * n && lo <= 8 * at && 8 * at + 8 * n <= hi <= 8 * |cur|
    requires ShareOk(f, n, at, di, done, len) && BitAt(cur, 8 * at + j) == BitAt(mem, 8 * at + j)
    requires Stored(cur, f, rule, value, n, at, bytes, di, done, len)
    ensures BitAt(bytes, j) == Target(mem, f, lo, hi, rule, value, 8 * at + j)
  {
    assert At(SHARE);
    if di <= j < di + len {
      assert BitAt(bytes, j) == BitAt(value, done + (j - di));
    } else {
      BackgroundBits(cur, at, n, rule, j);
    }
  }

  /** One access finished: every bit of its unit is what it is to be. */
  lemma WriteShare(mem: seq<bv8>, cur: seq<bv8>, f: FieldUnit, lo: nat, hi: nat, rule: FieldUpdateRule, value: seq<bv8>,
                   n: nat, at: nat, bytes: seq<bv8>, di: nat, done: nat, len: nat)
    requires n <= 8 && lo <= 8 * at && 8 * at + 8 * n <= hi <= 8 * |mem| && ShareOk(f, n, at, di, done, len)
    requires WrittenTo(mem, cur, f, lo, hi, rule, value, 8 * at)
    requires Stored(cur, f, rule, value, n, at, bytes, di, done, len)
    ensures WrittenTo(mem, NativeWrite(cur, at, n, bytes), f, lo, hi, rule, value, 8 * at + 8 * n)
  {
    forall k: nat
      ensures BitAt(NativeWrite(cur, at, n, bytes), k) ==
              if lo <= k < 8 * at + 8 * n then Target(mem, f, lo, hi, rule, value, k) else BitAt(mem, k)
    {
      assert BitAt(cur, k) == if lo <= k < 8 * at then Target(mem, f, lo, hi, rule, value, k) else BitAt(mem, k);
      BitWritten(mem, cur, f, lo, hi, rule, value, n, at, bytes, di, done, len, k);
    }
  }

  lemma BitWritten(mem: seq<bv8>, cur: seq<bv8>, f: FieldUnit, lo: nat, hi: nat, rule: FieldUpdateRule,
                   value: seq<bv8>, n: nat, at: nat, bytes: seq<bv8>, di: nat, done: nat, len: nat, k: nat)
    requires n <= 8 && lo <= 8 * at && 8 * at + 8 * n <= hi <= 8 * |cur| && ShareOk(f, n, at, di, done, len)
    requires BitAt(cur, k) == if lo <= k < 8 * at then Target(mem, f, lo, hi, rule, value, k) else BitAt(mem, k)
    requires Stored(cur, f, rule, value, n, at, bytes, di, done, len)
    ensures BitAt(NativeWrite(cur, at, n, bytes), k) ==
            if lo <= k < 8 * at + 8 * n then Target(mem, f, lo, hi, rule, value, k) else BitAt(mem, k)
  {
    NativeWriteBits(cur, at, n, bytes, k);
    if 8 * at <= k < 8 * at + 8 * n {
      WriteBit(mem, cur, f, lo, hi, rule, value, n, at, bytes, di, done, len, k - 8 * at);
    }
  }

  lemma ShareFits(f: FieldUnit, n: nat, i: nat)
    requires Width(8 * n) && i < Accesses(f, 8 * n)
    ensures Covered(f, 8 * n, i) <= f.bitLength
    ensures var w := 8 * n;
            ShareOk(f, n, AlignDown(f.bitIndex + i * w, w) / 8, if i == 0 then f.bitIndex % w else 0,
                    Covered(f, w, i), Share(f, w, i, Covered(f, w, i)))
  {
    AccessFacts(f, 8 * n, i);
  }

  method StoreBytes(region: array<bv8>, at: nat, n: nat, bytes: array<bv8>)
    requires at + n <= region.Length && n <= bytes.Length && region != bytes
    modifies region
    ensures region[..] == NativeWrite(old(region[..]), at, n, bytes[..])
  {
    forall j | 0 <= j < n {
      region[at + j] := bytes[j];
    }
    assert region[..] == NativeWrite(old(region[..]), at, n, bytes[..]);
  }

  /** One native access of do_field_write; `mem` is the region before the whole write. */
  method WriteAccess(region: array<bv8>, f: FieldUnit, n: nat, at: nat, dstIndex: nat, writtenSoFar: nat, length: nat,
                     rule: FieldUpdateRule, value: seq<bv8>, ghost mem: seq<bv8>, ghost lo: nat, ghost hi: nat)
    requires n <= 8 && lo <= 8 * at && 8 * at + 8 * n <= hi <= 8 * region.Length
    requires ShareOk(f, n, at, dstIndex, writtenSoFar, length) && writtenSoFar <= f.bitLength && dstIndex + length <= 64
    requires WrittenTo(mem, region[..], f, lo, hi, rule, value, 8 * at)
    modifies region
    ensures WrittenTo(mem, region[..], f, lo, hi, rule, value, 8 * at + 8 * n)
  {
    var partial := dstIndex > 0 || f.bitLength - writtenSoFar < 8 * n;
    ghost var cur := region[..];
    var background := Background(region[..], at, n, partial, rule);
    var bytes := new bv8[8](j requires 0 <= j < 8 => background[j]);
    assert bytes[..] == background;
    CopyBits(value, writtenSoFar, bytes, dstIndex, length);
    assert Stored(cur, f, rule, value, n, at, bytes[..], dstIndex, writtenSoFar, length);
    WriteShare(mem, cur, f, lo, hi, rule, value, n, at, bytes[..], dstIndex, writtenSoFar, length);
    StoreBytes(region, at, n, bytes);
  }

  /** Where access `i` writes, and that this lies in the accessed range and continues the last
      one. */
  lemma WritePlan(f: FieldUnit, n: nat, i: nat)
    requires Width(8 * n) && i < Accesses(f, 8 * n)
    ensures Covered(f, 8 * n, i) <= f.bitLength
    ensures var w, done := 8 * n, Covered(f, 8 * n, i);
            var at, di := AlignDown(f.bitIndex + i * w, w) / 8, if i == 0 then f.bitIndex % w else 0;
            var len := Share(f, w, i, done);
            && n <= 8 && 8 * at == Low(f, w) + i * w && 8 * at + 8 * n == Low(f, w) + (i + 1) * w <= High(f, w)
            && ShareOk(f, n, at, di, done, len) && di + len <= 64 && done + len == Covered(f, w, i + 1) <= f.bitLength
  {
    AccessFacts(f, 8 * n, i);
    AccessBounds(f, 8 * n, i);
    ShareFits(f, n, i);
  }

  /** One round of do_field_write. */
  method WriteNext(region: array<bv8>, f: FieldUnit, n: nat, i: nat, rule: FieldUpdateRule, value: seq<bv8>,
                   writtenSoFar: nat, ghost mem: seq<bv8>)
    returns (length: nat)
    requires Width(8 * n) && i < Accesses(f, 8 * n) && High(f, 8 * n) <= 8 * region.Length
    requires writtenSoFar == Covered(f, 8 * n, i) <= f.bitLength
    requires WrittenTo(mem, region[..], f, Low(f, 8 * n), High(f, 8 * n), rule, value, Low(f, 8 * n) + i * (8 * n))
    modifies region
    ensures writtenSoFar + length == Covered(f, 8 * n, i + 1) <= f.bitLength
    ensures WrittenTo(mem, region[..], f, Low(f, 8 * n), High(f, 8 * n), rule, value,
                      Low(f, 8 * n) + (i + 1) * (8 * n))
  {
    var w := 8 * n;
    WritePlan(f, n, i);
    var at := AlignDown(f.bitIndex + i * w, w) / 8;
    var dstIndex := if i == 0 then f.bitIndex % w else 0;
    length := Share(f, w, i, writtenSoFar);
    WriteAccess(region, f, n, at, dstIndex, writtenSoFar, length, rule, value, mem, Low(f, w), High(f, w));
  }

  /** Every access of the field is a whole one, so that the update rule is not asked for. */
  predicate WholeAccesses(f: FieldUnit, w: nat)
    requires Width(w)
  {
    f.bitIndex % w == 0 && f.bitLength % w == 0
  }

  predicate InField(f: FieldUnit, k: nat) { f.bitIndex <= k < f.bitIndex + f.bitLength }

  /** Bit `k` is not the field's but in one of the units of `w` bits that are accessed. */
  predicate Beside(f: FieldUnit, w: nat, k: nat)
    requires w > 0
  {
    !InField(f, k) && f.bitIndex / w <= k / w && k - k % w < f.bitIndex + f.bitLength
  }

  lemma BesideIs(f: FieldUnit, w: nat, k: nat)
    requires Width(w)
    ensures Beside(f, w, k) <==> !InField(f, k) && Low(f, w) <= k < High(f, w)
  {
    Quotient(f.bitIndex, w);
    Quotient(k, w);
    NextMultipleFacts(f.bitLength + f.bitIndex % w, w);
    var n := Accesses(f, w);
    Units(f.bitIndex / w, f.bitIndex / w * w, f.bitIndex % w, k / w, k / w * w, k % w, n, n * w, f.bitLength, w);
  }

  lemma Units(q: nat, x: nat, r: nat, p: nat, y: nat, s: nat, n: nat, d: nat, len: nat, w: nat)
    requires r < w && s < w && x == q * w && y == p * w && d == n * w && len + r <= d < len + r + w
    ensures q <= p && y < x + r + len <==> x <= y + s < x + d
  {
    assert (q + n) * w == x + d;
    Multiples(q, x, p, y, w);
    Multiples(q + n, x + d, p, y, w);
  }

  lemma Multiples(a: nat, x: nat, b: nat, y: nat, w: nat)
    requires x == a * w && y == b * w
    ensures if a <= b then x <= y else y + w <= x
  {
    if a <= b {
      assert y == x + (b - a) * w;
    } else {
      assert x == y + w + (a - b - 1) * w;
    }
  }

  /** Bits 5 and 6 of the flags choose the rule. */
  lemma RuleOf(flags: nat)
    ensures UpdateRule(flags) == Some(Preserve) <==> flags % 128 < 32
    ensures UpdateRule(flags) == Some(WriteAsOnes) <==> 32 <= flags % 128 < 64
    ensures UpdateRule(flags) == Some(WriteAsZeros) <==> 64 <= flags % 128 < 96
  {
    var q, r := flags / 128, flags % 128;
    assert flags == 128 * q + r;
    assert flags / 32 == 4 * q + r / 32;
  }

  lemma WrittenBits(mem: seq<bv8>, mem': seq<bv8>, f: FieldUnit, w: nat, rule: FieldUpdateRule, value: seq<bv8>)
    requires Width(w) && FieldWritten(mem, mem', f, w, rule, value)
    ensures forall k: nat :: InField(f, k) ==> BitAt(mem', k) == BitAt(value, k - f.bitIndex)
    ensures forall k: nat :: Beside(f, w, k) ==>
              BitAt(mem', k) == if rule.Preserve? then BitAt(mem, k) else rule.WriteAsOnes?
    ensures forall k: nat :: !InField(f, k) && !Beside(f, w, k) ==> BitAt(mem', k) == BitAt(mem, k)
  {
    forall k: nat
      ensures Beside(f, w, k) <==> !InField(f, k) && Low(f, w) <= k < High(f, w)
    {
      BesideIs(f, w, k);
    }
  }

  method DoFieldWrite(region: array<bv8>, f: FieldUnit, value: Object) returns (r: Result<(), FieldError>)
    requires UpdateRule(f.flags).Some? || value.OtherObject? || AccessBytes(f.flags).Err?
             || WholeAccesses(f, 8 * AccessBytes(f.flags).value)
    requires AccessBytes(f.flags).Ok? ==> High(f, 8 * AccessBytes(f.flags).value) <= 8 * region.Length
    modifies region
    ensures r.Ok? <==> !value.OtherObject? && AccessBytes(f.flags).Ok?
    ensures r.Err? ==> region[..] == old(region[..])
    ensures r.Err? ==> r.error == if value.OtherObject? then ObjectNotOfExpectedType else InvalidFieldFlags
    ensures r.Ok? && UpdateRule(f.flags).Some? ==>
              FieldWritten(old(region[..]), region[..], f, 8 * AccessBytes(f.flags).value, UpdateRule(f.flags).value,
                           value.bytes)
    ensures r.Ok? && WholeAccesses(f, 8 * AccessBytes(f.flags).value) ==>
              FieldWritten(old(region[..]), region[..], f, 8 * AccessBytes(f.flags).value, Preserve, value.bytes)
    ensures r.Ok? ==> forall k: nat :: InField(f, k) ==> BitAt(region[..], k) == BitAt(value.bytes, k - f.bitIndex)
    ensures r.Ok? && f.flags % 128 < 32 ==>
              forall k: nat :: !InField(f, k) ==> BitAt(region[..], k) == BitAt(old(region[..]), k)
    ensures r.Ok? && 32 <= f.flags % 128 < 64 ==>
              forall k: nat :: Beside(f, 8 * AccessBytes(f.flags).value, k) ==> BitAt(region[..], k)
    ensures r.Ok? && 64 <= f.flags % 128 < 96 ==>
              forall k: nat :: Beside(f, 8 * AccessBytes(f.flags).value, k) ==> !BitAt(region[..], k)
    ensures r.Ok? ==>
              forall k: nat :: !InField(f, k) && !Beside(f, 8 * AccessBytes(f.flags).value, k) ==>
                BitAt(region[..], k) == BitAt(old(region[..]), k)
  {
    if value.OtherObject? {
      return Err(ObjectNotOfExpectedType);
    }
    var access := AccessBytes(f.flags);
    if access.Err? {
      return Err(access.error);
    }
    var rule := UpdateRule(f.flags);
    WriteAccesses(region, f, access.value, if rule.Some? then rule.value else Preserve, value.bytes);
    RuleOf(f.flags);
    WrittenBits(old(region[..]), region[..], f, 8 * access.value, if rule.Some? then rule.value else Preserve,
                value.bytes);
    if WholeAccesses(f, 8 * access.value) {
      NothingAround(f, 8 * access.value);
    }
    r := Ok(());
  }

  /** The loop of do_field_write. */
  method WriteAccesses(region: array<bv8>, f: FieldUnit, n: nat, rule: FieldUpdateRule, value: seq<bv8>)
    requires Width(8 * n) && High(f, 8 * n) <= 8 * region.Length
    modifies region
    ensures FieldWritten(old(region[..]), region[..], f, 8 * n, rule, value)
  {
    var w := 8 * n;
    var count := Accesses(f, w);
    ghost var mem := region[..];
    var writtenSoFar, i := 0, 0;
    while i < count
      invariant 0 <= i <= count && writtenSoFar == Covered(f, w, i) <= f.bitLength
      invariant WrittenTo(mem, region[..], f, Low(f, w), High(f, w), rule, value, Low(f, w) + i * w)
    {
      var length := WriteNext(region, f, n, i, rule, value, writtenSoFar, mem);
      writtenSoFar := writtenSoFar + length;
      i := i + 1;
    }
    AllCovered(f, w);
  }

  /** A value stored in a field is read back, cut to the field's length and zero-extended,
      whatever the access width and the update rule. */
  lemma WriteThenRead(mem: seq<bv8>, mem': seq<bv8>, f: FieldUnit, w: nat, rule: FieldUpdateRule,
                      value: seq<bv8>, out: seq<bv8>, k: nat)
    requires Width(w) && FieldWritten(mem, mem', f, w, rule, value) && FieldRead(mem', f, out)
    ensures BitAt(out, k) == (k < f.bitLength && BitAt(value, k))
  {
  }

  /** Whole accesses cover the field's bits and no others. */
  lemma NothingAround(f: FieldUnit, w: nat)
    requires Width(w) && WholeAccesses(f, w)
    ensures Low(f, w) == f.bitIndex && High(f, w) == f.bitIndex + f.bitLength
  {
  }

  /** Outside the field no bit changes under Preserve; otherwise those in the touched
      accesses become ones or zeros as the rule says, and no others change. */
  lemma AroundField(mem: seq<bv8>, mem': seq<bv8>, f: FieldUnit, w: nat, rule: FieldUpdateRule, value: seq<bv8>, k: nat)
    requires Width(w) && FieldWritten(mem, mem', f, w, rule, value)
    requires k < f.bitIndex || k >= f.bitIndex + f.bitLength
    ensures rule.Preserve? ==> BitAt(mem', k) == BitAt(mem, k)
    ensures !rule.Preserve? && Low(f, w) <= k < High(f, w) ==> (BitAt(mem', k) <==> rule.WriteAsOnes?)
    ensures k < Low(f, w) || k >= High(f, w) ==> BitAt(mem', k) == BitAt(mem, k)
  {
  }
}
