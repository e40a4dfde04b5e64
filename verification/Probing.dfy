/** The order in which a scheduler probes partitions, as number theory: the
    steps 1, 2, 3, ... reach every partition exactly when their number is a
    power of two. */
module Probing {

  const MAXTRY := 1000

  /** 1 + 2 + ... + k. */
  function Tri(k: nat): nat {
    if k == 0 then 0 else Tri(k - 1) + k
  }

  function Pow2(m: nat): (n: nat)
    ensures n > 0
  {
    if m == 0 then 1 else 2 * Pow2(m - 1)
  }

  ghost predicate PowerOfTwo(n: nat) { exists m: nat :: n == Pow2(m) }

  /** The k-th probe of a sweep, both counted from 0: each sweep starts where the
      one before it stopped. */
  function ProbeAt(start: nat, sweep: nat, k: nat, n: nat): nat
    requires n > 0
  {
    (start + sweep * Tri(n) + Tri(k)) % n
  }

  // ---- multiples ----

  predicate Multiple(x: int, n: int)
    requires n > 0
  {
    x % n == 0
  }

  /** A product, kept folded where only its divisors matter. */
  function Times(x: int, y: int): int { x * y }

  lemma Commute(x: int, y: int)
    ensures Times(x, y) == Times(y, x)
  {
  }

  lemma MulMono(x: int, y: int, z: int)
    requires 0 <= x && y <= z
    ensures x * y <= x * z
  {
  }

  lemma Assoc(a: int, b: int, c: int)
    ensures (a * b) * c == a * (b * c)
    ensures a * b == b * a
  {
  }

  /** No multiple of n but 0 lies strictly between -n and n. */
  lemma SmallMultiple(n: int, k: int)
    requires n > 0 && -n < n * k < n
    ensures k == 0
  {
    if k >= 1 {
      MulMono(n, 1, k);
    } else if k <= -1 {
      MulMono(n, k, -1);
    }
  }

  lemma TimesIs(n: int, k: int)
    requires n > 0
    ensures Multiple(n * k, n)
  {
    var r, q := (n * k) % n, (n * k) / n;
    assert n * (k - q) == n * k - n * q == r;
    SmallMultiple(n, k - q);
  }

  lemma IsTimes(x: int, n: int) returns (k: int)
    requires n > 0 && Multiple(x, n)
    ensures x == n * k
  {
    k := x / n;
  }

  lemma MultipleDiff(x: int, y: int, n: int)
    requires n > 0 && Multiple(x, n) && Multiple(y, n)
    ensures Multiple(x - y, n)
  {
    var a := IsTimes(x, n);
    var b := IsTimes(y, n);
    TimesIs(n, a - b);
    assert n * (a - b) == n * a - n * b;
  }

  lemma MultipleSum(x: int, y: int, n: int)
    requires n > 0 && Multiple(x, n) && Multiple(y, n)
    ensures Multiple(x + y, n)
  {
    MultipleZero(n);
    hide Multiple;
    MultipleDiff(0, y, n);
    MultipleDiff(x, 0 - y, n);
  }

  lemma MultipleZero(n: int)
    requires n > 0
    ensures Multiple(0, n) && Multiple(n, n)
  {
  }

  lemma MultipleMul(x: int, y: int, n: int)
    requires n > 0 && Multiple(x, n)
    ensures Multiple(x * y, n) && Multiple(y * x, n)
  {
    var a := IsTimes(x, n);
    Assoc(n, a, y);
    TimesIs(n, a * y);
    Assoc(x, y, 1);
  }

  /** A multiple of c m is one of m. */
  lemma Coarser(x: int, c: int, m: int)
    requires c > 0 && m > 0 && c * m > 0 && Multiple(x, c * m)
    ensures Multiple(x, m)
  {
    var a := IsTimes(x, c * m);
    Assoc(c, m, a);
    Assoc(c, m * a, 1);
    Assoc(m, a, c);
    TimesIs(m, a * c);
  }

  lemma RemainderApart(x: int, n: int)
    requires n > 0
    ensures Multiple(x - x % n, n) && Multiple(x % n - x, n)
  {
    TimesIs(n, x / n);
    TimesIs(n, -(x / n));
    assert n * -(x / n) == -(n * (x / n));
  }

  /** Equal remainders: the difference is a multiple; and the other way round. */
  lemma SameRemainder(x: int, y: int, n: int)
    requires n > 0
    ensures x % n == y % n <==> Multiple(x - y, n)
  {
    RemainderApart(x, n);
    RemainderApart(y, n);
    var p, q := x % n, y % n;
    if p == q {
      MultipleDiff(x - p, y - q, n);
    }
    if Multiple(x - y, n) {
      MultipleDiff(x - y, x - p, n);
      MultipleSum(x - y - (x - p), y - q, n);
      MultipleBetween(p - q, n);
    }
  }

  lemma MultipleBetween(x: int, n: int)
    requires n > 0 && Multiple(x, n) && -n < x < n
    ensures x == 0
  {
    var k := IsTimes(x, n);
    SmallMultiple(n, k);
  }

  lemma MultipleTwice(x: int, n: int)
    requires n > 0
    ensures Multiple(x, n) <==> Multiple(2 * x, 2 * n)
  {
    if Multiple(x, n) {
      var k := IsTimes(x, n);
      Assoc(2, n, k);
      TimesIs(2 * n, k);
    }
    if Multiple(2 * x, 2 * n) {
      var k := IsTimes(2 * x, 2 * n);
      Assoc(2, n, k);
      TimesIs(n, k);
    }
  }

  lemma TriTwice(k: nat)
    ensures 2 * Tri(k) == Times(k, k + 1)
  {
  }

  /** Twice the distance of two triangular numbers, as a product. */
  lemma TriDiff(i: nat, j: nat)
    ensures 2 * (Tri(j) - Tri(i)) == Times(j - i, j + i + 1)
  {
    TriTwice(i);
    TriTwice(j);
    assert (j - i) * (j + i + 1) == j * (j + i + 1) - i * (j + i + 1);
    assert j * (j + i + 1) == j * (j + 1) + j * i && i * (j + i + 1) == i * (i + 1) + i * j;
  }

  lemma HalfProduct(a: int, m: int, x: int)
    requires m > 0 && a % 2 == 0 && 2 * x == Times(a, m)
    ensures Multiple(x, m)
  {
    var h := a / 2;
    Assoc(2, h, m);
    Assoc(h, m, 1);
    TimesIs(m, h);
  }

  lemma EvenFactor(a: int, b: int)
    requires a % 2 == 1 && Multiple(Times(a, b), 2)
    ensures b % 2 == 0
  {
    var c := a / 2;
    Assoc(2, c, b);
    assert a * b == (2 * c + 1) * b == 2 * (c * b) + b;
  }

  /** A power of two divides an odd multiple only of its own multiples. */
  lemma {:induction false} OddFactor(m: nat, a: int, b: int)
    requires a % 2 == 1 && Multiple(Times(a, b), Pow2(m))
    ensures Multiple(b, Pow2(m))
    decreases m
  {
    if m > 0 {
      var half := Pow2(m - 1);
      Coarser(a * b, half, 2);
      EvenFactor(a, b);
      var c := b / 2;
      Assoc(a, 2, c);
      Assoc(2, a, c);
      MultipleTwice(a * c, half);
      OddFactor(m - 1, a, c);
      MultipleTwice(c, half);
    }
  }

  // ---- pigeons ----

  predicate Below(s: seq<nat>, n: nat) { forall x :: x in s ==> x < n }

  predicate Distinct(s: seq<nat>) {
    s == [] || (s[0] !in s[1..] && Distinct(s[1..]))
  }

  function Without(s: seq<nat>, n: nat): seq<nat> {
    if s == [] then [] else if s[0] == n then Without(s[1..], n) else [s[0]] + Without(s[1..], n)
  }

  lemma {:induction false} WithoutIs(s: seq<nat>, n: nat)
    ensures forall x :: x in Without(s, n) <==> x in s && x != n
    ensures |Without(s, n)| <= |s| && (n in s ==> |Without(s, n)| < |s|)
    ensures n !in s ==> Without(s, n) == s
    decreases |s|
  {
    if s != [] {
      WithoutIs(s[1..], n);
      assert s == [s[0]] + s[1..];
    }
  }

  lemma {:induction false} WithoutDistinct(s: seq<nat>, n: nat)
    requires Distinct(s)
    ensures Distinct(Without(s, n)) && |s| <= |Without(s, n)| + 1
    decreases |s|
  {
    if s != [] {
      WithoutDistinct(s[1..], n);
      WithoutIs(s[1..], n);
    }
  }

  lemma FirstIn(s: seq<nat>)
    requires s != []
    ensures s[0] in s
  {
  }

  lemma WithoutBelow(s: seq<nat>, n: nat)
    requires n > 0 && Below(s, n)
    ensures Below(Without(s, n - 1), n - 1)
  {
    WithoutIs(s, n - 1);
  }

  /** Only n distinct numbers lie below n. */
  lemma {:induction false} FewBelow(s: seq<nat>, n: nat)
    requires Below(s, n) && Distinct(s)
    ensures |s| <= n
    decreases n
  {
    if s != [] {
      FirstIn(s);
      WithoutBelow(s, n);
      WithoutDistinct(s, n - 1);
      FewBelow(Without(s, n - 1), n - 1);
    }
  }

  /** Distinct numbers below n that are n many miss none. */
  lemma PigeonsFill(s: seq<nat>, n: nat, v: nat)
    requires |s| == n && Below(s, n) && Distinct(s) && v < n
    ensures v in s
  {
    if v !in s {
      assert Distinct([v] + s) && Below([v] + s, n) by { assert ([v] + s)[1..] == s; }
      FewBelow([v] + s, n);
    }
  }

  // ---- a power of two ----

  lemma NoRepeat(m: nat, i: nat, j: nat)
    requires i < j < Pow2(m)
    ensures !Multiple(Tri(j) - Tri(i), Pow2(m))
  {
    hide Multiple, Tri, Times;
    var a, b, d := j - i, j + i + 1, Tri(j) - Tri(i);
    if Multiple(d, Pow2(m)) {
      TriDiff(i, j);
      MultipleTwice(d, Pow2(m));
      assert Multiple(Times(a, b), Pow2(m + 1));
      assert a + b == 2 * j + 1;
      if a % 2 == 1 {
        OddFactor(m + 1, a, b);
        MultipleBetween(b, Pow2(m + 1));
      } else {
        Commute(a, b);
        OddFactor(m + 1, b, a);
        MultipleBetween(a, Pow2(m + 1));
      }
    }
  }

  /** With 2^m partitions no sweep probes one twice. */
  lemma SweepInjective(m: nat, start: nat, sweep: nat, i: nat, j: nat)
    requires i < j < Pow2(m)
    ensures ProbeAt(start, sweep, i, Pow2(m)) != ProbeAt(start, sweep, j, Pow2(m))
  {
    hide Multiple, Tri;
    var n := Pow2(m);
    var base := start + sweep * Tri(n);
    NoRepeat(m, i, j);
    SameRemainder(base + Tri(j), base + Tri(i), n);
  }

  // The probes of a sweep from the k-th on.
  function Probes(start: nat, sweep: nat, k: nat, n: nat): seq<nat>
    requires n > 0 && k <= n
    decreases n - k
  {
    if k == n then [] else [ProbeAt(start, sweep, k, n)] + Probes(start, sweep, k + 1, n)
  }

  lemma {:induction false} ProbeIndex(start: nat, sweep: nat, k: nat, n: nat, p: nat) returns (j: nat)
    requires n > 0 && k <= n && p in Probes(start, sweep, k, n)
    ensures k <= j < n && ProbeAt(start, sweep, j, n) == p
    decreases n - k
  {
    if p == ProbeAt(start, sweep, k, n) {
      j := k;
    } else {
      j := ProbeIndex(start, sweep, k + 1, n, p);
    }
  }

  lemma {:induction false} ProbesDistinct(m: nat, start: nat, sweep: nat, k: nat)
    requires k <= Pow2(m)
    ensures var s := Probes(start, sweep, k, Pow2(m)); Distinct(s) && Below(s, Pow2(m)) && |s| == Pow2(m) - k
    decreases Pow2(m) - k
  {
    var n := Pow2(m);
    if k < n {
      ProbesDistinct(m, start, sweep, k + 1);
      var rest := Probes(start, sweep, k + 1, n);
      assert Probes(start, sweep, k, n)[1..] == rest;
      if ProbeAt(start, sweep, k, n) in rest {
        var j := ProbeIndex(start, sweep, k + 1, n, ProbeAt(start, sweep, k, n));
        SweepInjective(m, start, sweep, k, j);
      }
    }
  }

  /** With 2^m partitions every sweep probes every one of them. */
  lemma SweepVisits(m: nat, start: nat, sweep: nat, p: nat) returns (k: nat)
    requires p < Pow2(m)
    ensures k < Pow2(m) && ProbeAt(start, sweep, k, Pow2(m)) == p
  {
    var n := Pow2(m);
    ProbesDistinct(m, start, sweep, 0);
    PigeonsFill(Probes(start, sweep, 0, n), n, p);
    k := ProbeIndex(start, sweep, 0, n, p);
  }

  // ---- any other number ----

  lemma {:induction false} OddPart(n: nat) returns (a: nat, m: nat)
    requires n > 0
    ensures n == Pow2(a) * m && m % 2 == 1
    decreases n
  {
    if n % 2 == 1 {
      a, m := 0, n;
    } else {
      var b;
      b, m := OddPart(n / 2);
      a := b + 1;
      assert Pow2(a) * m == 2 * Pow2(b) * m == 2 * (Pow2(b) * m);
    }
  }

  /** Modulo an odd m, triangular numbers repeat every m steps. */
  lemma TriPeriod(k: nat, m: nat)
    requires m % 2 == 1
    ensures Tri(k + m) % m == Tri(k) % m
  {
    hide Multiple, Tri, Times;
    TriDiff(k, k + m);
    Commute(m, 2 * k + m + 1);
    HalfProduct(2 * k + m + 1, m, Tri(k + m) - Tri(k));
    SameRemainder(Tri(k + m), Tri(k), m);
  }

  // The remainders of the first k triangular numbers.
  function Remainders(k: nat, m: nat): seq<nat>
    requires m > 0
  {
    if k == 0 then [] else Remainders(k - 1, m) + [Tri(k - 1) % m]
  }

  lemma LastRemainder(m: nat)
    requires m % 2 == 1
    ensures Tri(m - 1) % m == Tri(0) % m
  {
    NoTri();
    hide Multiple, Tri, Times;
    TriTwice(m - 1);
    EvenBefore(m);
    HalfProduct(m - 1, m, Tri(m - 1));
    SameRemainder(Tri(m - 1), Tri(0), m);
  }

  lemma NoTri()
    ensures Tri(0) == 0
  {
  }

  lemma EvenBefore(m: nat)
    requires m % 2 == 1
    ensures m > 0 && (m - 1) % 2 == 0
  {
  }

  /** ... and the last remainder of a period repeats the first, so that m - 1 of
      them are all there are. */
  lemma {:induction false} RemainderIn(k: nat, m: nat)
    requires m % 2 == 1 && m > 1
    ensures Tri(k) % m in Remainders(m - 1, m)
    decreases k
  {
    if k >= m {
      TriPeriod(k - m, m);
      RemainderIn(k - m, m);
    } else if k == m - 1 {
      LastRemainder(m);
      EarlierIn(0, m - 1, m);
    } else {
      EarlierIn(k, m - 1, m);
    }
  }

  lemma {:induction false} EarlierIn(k: nat, n: nat, m: nat)
    requires k < n && m > 0
    ensures Tri(k) % m in Remainders(n, m)
    decreases n
  {
    if k < n - 1 {
      EarlierIn(k, n - 1, m);
    }
  }

  lemma RemaindersCount(k: nat, m: nat)
    requires m > 0
    ensures |Remainders(k, m)| == k
  {
  }

  lemma {:induction false} FindMissing(s: seq<nat>, n: nat) returns (v: nat)
    requires |s| < n
    ensures v < n && v !in s
    decreases n
  {
    if n - 1 !in s {
      v := n - 1;
    } else {
      WithoutIs(s, n - 1);
      v := FindMissing(Without(s, n - 1), n - 1);
    }
  }

  /** So some remainder is never reached. */
  lemma MissedRemainder(m: nat) returns (v: nat)
    requires m % 2 == 1 && m > 1
    ensures v < m && forall k: nat :: Tri(k) % m != v
  {
    RemaindersCount(m - 1, m);
    v := FindMissing(Remainders(m - 1, m), m);
    forall k: nat
      ensures Tri(k) % m != v
    {
      RemainderIn(k, m);
    }
  }

  lemma {:induction false} TriMultiple(c: nat, m: nat)
    requires m % 2 == 1
    ensures c * m >= 0 && Multiple(Tri(c * m), m)
    decreases c
  {
    if c > 0 {
      TriMultiple(c - 1, m);
      assert c * m == (c - 1) * m + m;
      TriPeriod((c - 1) * m, m);
    }
  }

  /** With any other number of partitions, whatever the start, some partition is
      never probed, in any number of sweeps. */
  lemma Missed(n: nat, start: nat) returns (p: nat)
    requires n > 0 && !PowerOfTwo(n)
    ensures p < n && forall sweep: nat, k: nat :: ProbeAt(start, sweep, k, n) != p
  {
    var a, m := OddPart(n);
    assert m != 1 || n == Pow2(a);
    var c := Pow2(a);
    var v := MissedRemainder(m);
    p := (start + v) % m;
    MulMono(m, 1, c);
    assert m * c == c * m;
    forall sweep: nat, k: nat
      ensures ProbeAt(start, sweep, k, n) != p
    {
      if ProbeAt(start, sweep, k, n) == p {
        Reached(n, m, c, start, sweep, k, v);
      }
    }
  }

  /** A probe of partition (start + v) mod m betrays a triangular number that is v modulo m. */
  lemma Reached(n: nat, m: nat, c: nat, start: nat, sweep: nat, k: nat, v: nat)
    requires m % 2 == 1 && c > 0 && n > 0 && n == c * m && v < m && ProbeAt(start, sweep, k, n) == (start + v) % m
    ensures Tri(k) % m == v
  {
    TriMultiple(c, m);
    MultipleMul(Tri(n), sweep, m);
    Unshift(start, sweep * Tri(n), Tri(k), v, c, m);
  }

  lemma Unshift(start: nat, drift: nat, x: nat, v: nat, c: nat, m: nat)
    requires m > 0 && c > 0 && c * m > 0 && v < m && Multiple(drift, m)
    requires (start + drift + x) % (c * m) == (start + v) % m
    ensures x % m == v
  {
    var y, p := start + drift + x, (start + v) % m;
    RemainderApart(y, c * m);
    Coarser(y - p, c, m);
    RemainderApart(start + v, m);
    hide Multiple;
    MultipleDiff(y - p, start + v - p, m);
    MultipleDiff(drift + x - v, drift, m);
    LeastRemainder(x, v, m);
  }

  lemma LeastRemainder(x: nat, v: nat, m: nat)
    requires v < m && Multiple(x - v, m)
    ensures x % m == v
  {
    SameRemainder(x, v, m);
  }

  /** Some probe of the loop reaches the partition. */
  ghost predicate Reaches(n: nat, start: nat, p: nat)
    requires n > 0
  {
    exists sweep: nat, k: nat :: sweep < 1000 && k < n && ProbeAt(start, sweep, k, n) == p
  }

  /** The probing loop reaches every partition from every start exactly when
      their number is a power of two; one sweep is then enough. */
  lemma ProbingCompleteIff(n: nat)
    requires n > 0
    ensures PowerOfTwo(n) <==> forall start: nat, p: nat | p < n :: Reaches(n, start, p)
  {
    if PowerOfTwo(n) {
      var m: nat :| n == Pow2(m);
      forall start: nat, p: nat | p < n
        ensures Reaches(n, start, p)
      {
        var k := SweepVisits(m, start, 0, p);
        assert ProbeAt(start, 0, k, n) == p;
      }
    } else {
      var p := Missed(n, 0);
      assert !Reaches(n, 0, p);
    }
  }
}
