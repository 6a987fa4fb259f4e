/** Result types and the few arithmetic facts that several components share. */
module Common {

  datatype Option<+T> = None | Some(value: T)

  datatype Result<+T, +E> = Ok(value: T) | Err(error: E)

  /** Names an instance of a quantified statement: quantifiers over `At(i)` say nothing about
      other values, so a proof step mentions `At` of the ones it uses. */
  predicate At(i: int) { true }

  /** Bytes in a page of memory. */
  const PAGE: nat := 4096

  function Min(a: nat, b: nat): nat { if a <= b then a else b }

  function Pow2(n: nat): (r: nat)
    ensures r > 0
  {
    if n == 0 then 1 else 2 * Pow2(n - 1)
  }

  /** Stepping a counter steps its residue, wrapping at the modulus. */
  lemma ModStep(k: nat, m: nat)
    requires m > 0
    ensures (k + 1) % m == (if k % m + 1 == m then 0 else k % m + 1)
    ensures (k + 1) / m == (if k % m + 1 == m then k / m + 1 else k / m)
  {
    var q, r := k / m, k % m;
    assert k == q * m + r;
    if r + 1 == m {
      assert k + 1 == (q + 1) * m;
      DivModUnique(k + 1, m, q + 1, 0);
    } else {
      DivModUnique(k + 1, m, q, r + 1);
    }
  }

  lemma Scale(k: int, m: nat)
    ensures k >= 1 ==> k * m >= m
    ensures k <= 0 ==> k * m <= 0
  {
    assert k * m == (k - 1) * m + m;
  }

  lemma QuotientUnique(m: nat, q: int, r: int, q': int, r': int)
    requires 0 <= r < m && 0 <= r' < m && q * m + r == q' * m + r'
    ensures q == q' && r == r'
  {
    assert (q - q') * m == r' - r;
    Scale(q - q', m);
    Scale(q' - q, m);
  }

  lemma DivModUnique(x: int, m: nat, q: int, r: int)
    requires m > 0 && 0 <= r < m && x == q * m + r
    ensures x / m == q && x % m == r
  {
    QuotientUnique(m, q, r, x / m, x % m);
  }

  /** Counters less than one modulus apart have equal residues only if they are equal. */
  lemma ModDistinct(a: nat, b: nat, m: nat)
    requires m > 0 && a < b < a + m
    ensures a % m != b % m
  {
    if a % m == b % m {
      var r := a % m;
      DistinctQuotients(a, b, m, a / m, b / m, r);
    }
  }

  lemma DistinctQuotients(a: nat, b: nat, m: nat, p: int, q: int, r: int)
    requires a == p * m + r && b == q * m + r
    requires a < b
    ensures b >= a + m
  {
    assert b - a == (q - p) * m;
    Scale(q - p, m);
  }

  /** Reducing by a multiple of the modulus first changes nothing. */
  lemma ModOfMod(k: nat, m: nat, n: nat)
    requires n > 0 && m > 0 && m % n == 0
    ensures (k % m) % n == k % n
  {
    var q := m / n;
    assert m == q * n;
    assert k == (k / m) * m + k % m;
    var r := k % m;
    assert r == (r / n) * n + r % n;
    assert k == ((k / m) * q + r / n) * n + r % n by {
      assert (k / m) * (q * n) == ((k / m) * q) * n;
    }
    DivModUnique(k, n, (k / m) * q + r / n, r % n);
  }

  predicate PowerOfTwo(n: nat) {
    n == 1 || (n > 1 && n % 2 == 0 && PowerOfTwo(n / 2))
  }

  lemma {:induction false} PowersOfTwoDivide(n: nat, m: nat)
    requires PowerOfTwo(n) && PowerOfTwo(m) && n <= m
    ensures m % n == 0
  {
    if n > 1 {
      PowersOfTwoDivide(n / 2, m / 2);
      var q := (m / 2) / (n / 2);
      assert m / 2 == q * (n / 2);
      assert m == q * n;
      DivModUnique(m, n, q, 0);
    }
  }

  ghost function Elems<T>(s: seq<T>): set<T> { set x | x in s }

  ghost predicate Distinct<T>(s: seq<T>) {
    forall i, j {:trigger At(i), At(j)} :: At(i) && At(j) && 0 <= i < j < |s| ==> s[i] != s[j]
  }

  lemma {:induction false} DistinctCount<T>(s: seq<T>)
    requires Distinct(s)
    ensures |Elems(s)| == |s|
  {
    if s != [] {
      var front, last := s[..|s| - 1], s[|s| - 1];
      DistinctCount(front);
      forall i | 0 <= i < |front|
        ensures front[i] != last
      {
        assert At(i) && At(|s| - 1);
      }
      assert s == front + [last];
      assert Elems(s) == Elems(front) + {last};
    }
  }

  /** There are at most `n` pairwise different numbers below `n`. */
  lemma Pigeonhole(s: seq<nat>, n: nat)
    requires Distinct(s) && forall i :: 0 <= i < |s| ==> s[i] < n
    ensures |s| <= n
  {
    DistinctCount(s);
    SubsetCount(Elems(s), Below(n));
  }

  function Below(n: nat): (s: set<nat>)
    ensures |s| == n
    ensures forall x: nat :: x in s <==> x < n
  {
    if n == 0 then {} else Below(n - 1) + {n - 1}
  }

  lemma {:induction false} SubsetCount<T>(a: set<T>, b: set<T>)
    requires a <= b
    ensures |a| <= |b|
    decreases a
  {
    if a != {} {
      var x :| x in a;
      SubsetCount(a - {x}, b - {x});
    }
  }

  /** The sum of the values of a map. */
  ghost function Sum(m: map<nat, nat>): nat
    decreases |m|
  {
    if m == map[] then 0
    else var k :| k in m; SmallerMap(m, k); m[k] + Sum(m - {k})
  }

  lemma SmallerMap(m: map<nat, nat>, k: nat)
    requires k in m
    ensures |m - {k}| < |m|
  {
    assert (m - {k}).Keys == m.Keys - {k};
  }

  lemma {:induction false} SumWithout(m: map<nat, nat>, k: nat)
    requires k in m
    ensures Sum(m) == m[k] + Sum(m - {k})
    decreases |m|
  {
    var j :| j in m && Sum(m) == m[j] + Sum(m - {j});
    if j != k {
      SmallerMap(m, j);
      SmallerMap(m, k);
      SumWithout(m - {j}, k);
      SumWithout(m - {k}, j);
      assert m - {j} - {k} == m - {k} - {j};
    }
  }

  lemma SumWith(m: map<nat, nat>, k: nat, v: nat)
    requires k !in m
    ensures Sum(m[k := v]) == v + Sum(m)
  {
    SumWithout(m[k := v], k);
    assert m[k := v] - {k} == m;
  }

  lemma SumUpdate(m: map<nat, nat>, k: nat, v: nat)
    requires k in m
    ensures Sum(m[k := v]) + m[k] == Sum(m) + v
  {
    SumWithout(m, k);
    SumWithout(m[k := v], k);
    assert m[k := v] - {k} == m - {k};
  }
}
