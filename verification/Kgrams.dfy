/** The code channel of `tools/binsim.py`: FNV-1a hashes of k-token windows, and the two
    similarity measures taken over the resulting sets. */
module Kgrams {
  import opened Common

  const FNV_OFFSET: nat := 0xCBF29CE484222325
  const FNV_PRIME: nat := 0x100000001B3
  const MODULUS: nat := 0x1_0000_0000_0000_0000
  /** The inverse of FNV_PRIME modulo 2^64, used only in proofs. */
  ghost const PRIME_INVERSE: nat := 0xce965057aff6957b

  /** Bitwise exclusive or of two non-negative integers. */
  function Xor(a: nat, b: nat): nat {
    if a == 0 && b == 0 then 0 else (a % 2 + b % 2) % 2 + 2 * Xor(a / 2, b / 2)
  }

  function FnvStep(h: nat, token: nat): nat {
    (Xor(h, token) * FNV_PRIME) % MODULUS
  }

  function FnvFrom(h: nat, tokens: seq<nat>): nat
    decreases tokens
  {
    if tokens == [] then h else FnvFrom(FnvStep(h, tokens[0]), tokens[1..])
  }

  function WindowHash(window: seq<nat>): nat {
    FnvFrom(FNV_OFFSET, window)
  }

  /** A hash of token windows.  The bounds below hold for every one of them. */
  type Hash = seq<nat> -> nat

  ghost function HashAt(hash: Hash, tokens: seq<nat>, i: int, k: nat): nat
    requires 0 <= i <= |tokens| - k
  {
    hash(tokens[i..i + k])
  }

  /** The feature set: the hashes of all windows of k consecutive tokens. */
  ghost function Features(hash: Hash, tokens: seq<nat>, k: nat): set<nat>
    requires 1 <= k <= |tokens|
  {
    set i | 0 <= i <= |tokens| - k :: HashAt(hash, tokens, i, k)
  }

  datatype Refusal = NoWindow | WindowTooLong | EmptyFeatures

  method ComputeFeatures(tokens: seq<nat>, k: int) returns (r: Result<set<nat>, Refusal>)
    ensures r == Refused(NoWindow) <==> k < 1
    ensures r == Refused(WindowTooLong) <==> 1 <= k && |tokens| < k
    ensures r.Ok? <==> 1 <= k <= |tokens|
    ensures r.Ok? ==> r.value == Features(WindowHash, tokens, k)
  {
    if k < 1 {
      return Refused(NoWindow);
    }
    if |tokens| < k {
      return Refused(WindowTooLong);
    }
    var out: set<nat> := {};
    for i := 0 to |tokens| - k + 1
      invariant out == set w | 0 <= w < i :: HashAt(WindowHash, tokens, w, k)
    {
      var h := FNV_OFFSET;
      for j := i to i + k
        invariant FnvFrom(h, tokens[j..i + k]) == WindowHash(tokens[i..i + k])
      {
        assert tokens[j..i + k][1..] == tokens[j + 1..i + k];
        h := FnvStep(h, tokens[j]);
      }
      assert tokens[i + k..i + k] == [];
      assert h == HashAt(WindowHash, tokens, i, k);
      out := out + {h};
    }
    r := Ok(out);
  }

  // ------------------------------------------------------------ the hash is injective per token

  lemma SplitBit(r: nat, bit: nat, x: nat)
    requires r == bit + 2 * x && bit < 2
    ensures r % 2 == bit && r / 2 == x
  {
  }

  /** The last bit of an exclusive or. */
  function Bit(a: nat, b: nat): nat { (a % 2 + b % 2) % 2 }

  lemma XorHalves(a: nat, b: nat)
    ensures Xor(a, b) % 2 == Bit(a, b)
    ensures Xor(a, b) / 2 == Xor(a / 2, b / 2)
  {
    if a > 0 || b > 0 {
      SplitBit(Xor(a, b), Bit(a, b), Xor(a / 2, b / 2));
    }
  }

  /** Exclusive or determines either operand from the other. */
  lemma {:induction false} XorInjective(a: nat, b: nat, t: nat)
    requires Xor(a, t) == Xor(b, t)
    ensures a == b
    decreases a + b + t
  {
    hide Xor;
    if a != b {
      SameHalves(a, b, t);
      FromHalves(a, b);
      HalvesLess(a, b, t);
      XorInjective(a / 2, b / 2, t / 2);
    }
  }

  lemma SameHalves(a: nat, b: nat, t: nat)
    requires Xor(a, t) == Xor(b, t)
    ensures Xor(a / 2, t / 2) == Xor(b / 2, t / 2) && a % 2 == b % 2
  {
    hide Xor, Bit;
    XorHalves(a, t);
    XorHalves(b, t);
    SameBit(a, b, t);
  }

  lemma SameBit(a: nat, b: nat, t: nat)
    requires Bit(a, t) == Bit(b, t)
    ensures a % 2 == b % 2
  {}

  lemma FromHalves(a: nat, b: nat)
    ensures a / 2 == b / 2 && a % 2 == b % 2 ==> a == b
  {}

  lemma HalvesLess(a: nat, b: nat, t: nat)
    requires a != b
    ensures a / 2 + b / 2 + t / 2 < a + b + t
  {
    HalfAtMost(a);
    HalfAtMost(b);
    HalfAtMost(t);
  }

  lemma HalfAtMost(n: nat)
    ensures n / 2 <= n && (n > 0 ==> n / 2 < n)
  {}

  lemma {:induction false} XorSymmetric(a: nat, b: nat)
    ensures Xor(a, b) == Xor(b, a)
  {
    if a > 0 || b > 0 {
      XorSymmetric(a / 2, b / 2);
    }
  }

  ghost function Pow2(n: nat): nat {
    if n == 0 then 1 else 2 * Pow2(n - 1)
  }

  lemma {:induction false} Pow2Sum(m: nat, n: nat)
    ensures Pow2(m + n) == Pow2(m) * Pow2(n)
  {
    if n > 0 {
      Pow2Sum(m, n - 1);
      assert Pow2(m + n) == 2 * Pow2(m + n - 1);
      hide Pow2;
      assert m + n - 1 == m + (n - 1);
      Doubled(Pow2(m), Pow2(n - 1));
    }
  }

  lemma Doubled(x: nat, y: nat)
    ensures 2 * (x * y) == x * (2 * y)
  {}

  lemma ModulusIsPow2()
    ensures Pow2(64) == MODULUS
  {
    assert Pow2(4) == 16;
    Pow2Sum(4, 4);
    Pow2Sum(8, 8);
    Pow2Sum(16, 16);
    Pow2Sum(32, 32);
  }

  lemma {:induction false} XorBelow(a: nat, b: nat, bits: nat)
    requires a < Pow2(bits) && b < Pow2(bits)
    ensures Xor(a, b) < Pow2(bits)
  {
    if bits > 0 && (a > 0 || b > 0) {
      XorBelow(a / 2, b / 2, bits - 1);
    }
  }

  /** Multiplication by the odd FNV prime is a bijection modulo 2^64. */
  lemma PrimeInvertible(x: nat)
    requires x < MODULUS
    ensures (x * FNV_PRIME % MODULUS) * PRIME_INVERSE % MODULUS == x
  {
    var q := x * FNV_PRIME / MODULUS;
    var rest := x * FNV_PRIME % MODULUS;
    var c := FNV_PRIME * PRIME_INVERSE / MODULUS;
    assert FNV_PRIME * PRIME_INVERSE == c * MODULUS + 1;
    var d := x * c - q * PRIME_INVERSE;
    calc {
      rest * PRIME_INVERSE;
      (x * FNV_PRIME - q * MODULUS) * PRIME_INVERSE;
      x * (FNV_PRIME * PRIME_INVERSE) - q * MODULUS * PRIME_INVERSE;
      x * (c * MODULUS + 1) - q * MODULUS * PRIME_INVERSE;
      d * MODULUS + x;
    }
    RemainderUnique(rest * PRIME_INVERSE, d, x);
  }

  lemma RemainderUnique(n: nat, d: int, x: nat)
    requires n == d * MODULUS + x && x < MODULUS
    ensures n % MODULUS == x
  {
  }

  /** One FNV step is injective in the state and in the token. */
  lemma StepInjective(h: nat, g: nat, t: nat, u: nat)
    requires h < MODULUS && g < MODULUS && t < MODULUS && u < MODULUS
    requires h == g || t == u
    requires FnvStep(h, t) == FnvStep(g, u)
    ensures h == g && t == u
  {
    ModulusIsPow2();
    XorBelow(h, t, 64);
    XorBelow(g, u, 64);
    PrimeInvertible(Xor(h, t));
    PrimeInvertible(Xor(g, u));
    if t == u {
      XorInjective(h, g, t);
    } else {
      XorSymmetric(h, t);
      XorSymmetric(g, u);
      XorInjective(t, u, h);
    }
  }

  lemma {:induction false} StateInjective(h: nat, g: nat, tokens: seq<nat>)
    requires h < MODULUS && g < MODULUS
    requires forall i :: 0 <= i < |tokens| ==> tokens[i] < MODULUS
    requires FnvFrom(h, tokens) == FnvFrom(g, tokens)
    ensures h == g
    decreases tokens
  {
    if tokens != [] {
      StateInjective(FnvStep(h, tokens[0]), FnvStep(g, tokens[0]), tokens[1..]);
      StepInjective(h, g, tokens[0], tokens[0]);
    }
  }

  ghost predicate DifferOnlyAt(v: seq<nat>, w: seq<nat>, p: nat) {
    && |v| == |w| && p < |v|
    && v[p] != w[p]
    && forall i :: 0 <= i < |v| && i != p ==> v[i] == w[i]
  }

  /** Two windows that differ in exactly one token never share a hash. */
  lemma {:induction false} OneTokenChangesHash(h: nat, v: seq<nat>, w: seq<nat>, p: nat)
    requires h < MODULUS
    requires forall i :: 0 <= i < |v| ==> v[i] < MODULUS
    requires forall i :: 0 <= i < |w| ==> w[i] < MODULUS
    requires DifferOnlyAt(v, w, p)
    ensures FnvFrom(h, v) != FnvFrom(h, w)
    decreases v
  {
    if p == 0 {
      assert v[1..] == w[1..];
      if FnvFrom(h, v) == FnvFrom(h, w) {
        StateInjective(FnvStep(h, v[0]), FnvStep(h, w[0]), v[1..]);
        StepInjective(h, h, v[0], w[0]);
      }
    } else {
      OneTokenChangesHash(FnvStep(h, v[0]), v[1..], w[1..], p - 1);
    }
  }

  // ------------------------------------------------------------ the two measures

  /** An exact fraction; the denominators used here are positive. */
  datatype Ratio = Ratio(num: nat, den: nat)

  ghost predicate AtMost(x: Ratio, y: Ratio) {
    x.num * y.den <= y.num * x.den
  }

  ghost predicate Equal(x: Ratio, y: Ratio) {
    x.num * y.den == y.num * x.den
  }

  ghost function Plus(x: Ratio, y: Ratio): Ratio {
    Ratio(x.num * y.den + y.num * x.den, x.den * y.den)
  }

  ghost const ONE := Ratio(1, 1)

  datatype Measures = Measures(containment: Ratio, jaccard: Ratio, sizeA: nat, sizeB: nat, shared: nat)

  function Min(a: nat, b: nat): nat {
    if a <= b then a else b
  }

  function Measure(a: set<nat>, b: set<nat>): Result<Measures, Refusal> {
    if a == {} || b == {} then Refused(EmptyFeatures)
    else
      UnionSize(a, b);
      var shared := |a * b|;
      Ok(Measures(Ratio(shared, Min(|a|, |b|)), Ratio(shared, |a| + |b| - shared), |a|, |b|, shared))
  }

  lemma UnionSize(a: set<nat>, b: set<nat>)
    ensures |a + b| == |a| + |b| - |a * b|
    ensures |a * b| <= |a| && |a * b| <= |b|
  {
    SubsetSize(a * b, a);
    SubsetSize(a * b, b);
  }

  lemma SubsetSize(a: set<nat>, b: set<nat>)
    requires a <= b
    ensures |a| <= |b|
    ensures |a| == |b| ==> a == b
  {
    assert b == a + (b - a);
  }

  /** Both measures are symmetric, ordered 0 <= jaccard <= containment <= 1, and reach 1 exactly
      on equal sets (jaccard) and on one set holding the other (containment). */
  lemma MeasureLaws(a: set<nat>, b: set<nat>)
    requires a != {} && b != {}
    ensures Measure(a, b).Ok? && Measure(b, a).Ok?
    ensures var m, w := Measure(a, b).value, Measure(b, a).value;
            && m.containment.den > 0 && m.jaccard.den > 0
            && m.containment == w.containment && m.jaccard == w.jaccard
            && AtMost(m.jaccard, m.containment) && AtMost(m.containment, ONE)
            && (Equal(m.jaccard, ONE) <==> a == b)
            && (Equal(m.containment, ONE) <==> a <= b || b <= a)
  {
    assert a * b == b * a;
    UnionSize(a, b);
    var shared, least, union := |a * b|, Min(|a|, |b|), |a| + |b| - |a * b|;
    ProductOrder(shared, shared, least, union);
    SubsetSize(a * b, a);
    SubsetSize(a * b, b);
    if shared == least { assert a * b == a || a * b == b; }
    if a <= b { assert a * b == a; SubsetSize(a, b); }
    if b <= a { assert a * b == b; SubsetSize(b, a); }
    if shared == union { assert a * b == a && a * b == b; }
  }

  // ------------------------------------------------------------ edits move the measures boundedly

  lemma {:induction false} CoveredSize(d: set<nat>, list: seq<nat>)
    requires forall x :: x in d ==> x in list
    ensures |d| <= |list|
  {
    if list == [] {
      assert d == {};
    } else {
      forall x | x in d - {list[0]} ensures x in list[1..] {
        var i :| 0 <= i < |list| && list[i] == x;
        assert x == list[1..][i - 1];
      }
      CoveredSize(d - {list[0]}, list[1..]);
    }
  }

  /** Features of `t` missing from `a` are hashes of windows that start in `starts`. */
  lemma NewFeatures(hash: Hash, t: seq<nat>, a: seq<nat>, k: nat, starts: seq<int>)
    requires 1 <= k <= |t| && k <= |a|
    requires forall i :: 0 <= i <= |t| - k && i !in starts ==> HashAt(hash, t, i, k) in Features(hash, a, k)
    ensures |Features(hash, t, k) - Features(hash, a, k)| <= |starts|
  {
    var list := seq(|starts|, n requires 0 <= n < |starts| =>
                      if 0 <= starts[n] <= |t| - k then HashAt(hash, t, starts[n], k) else 0);
    forall h | h in Features(hash, t, k) - Features(hash, a, k) ensures h in list {
      var i :| 0 <= i <= |t| - k && h == HashAt(hash, t, i, k);
      var n :| 0 <= n < |starts| && starts[n] == i;
      assert list[n] == h;
    }
    CoveredSize(Features(hash, t, k) - Features(hash, a, k), list);
  }

  /** The integers lo, lo + 1, ..., lo + n - 1. */
  ghost function Interval(lo: int, n: nat): (s: seq<int>)
    ensures |s| == n
    ensures forall i :: lo <= i < lo + n ==> i in s
  {
    if n == 0 then [] else Interval(lo, n - 1) + [lo + n - 1]
  }

  /** The tokens with the block [from, to) removed. */
  function Without(a: seq<nat>, from: nat, to: nat): seq<nat>
    requires from <= to <= |a|
  {
    a[..from] + a[to..]
  }

  lemma CutLength(a: seq<nat>, from: nat, to: nat)
    requires from <= to <= |a|
    ensures |Without(a, from, to)| == |a| - (to - from)
  {}

  /** A window that does not lie across the cut is a window of the whole. */
  lemma SameWindow(a: seq<nat>, from: nat, to: nat, i: nat, k: nat)
    requires from <= to <= |a| && i + k <= |Without(a, from, to)| && (i + k <= from || from <= i)
    ensures var i' := if i + k <= from then i else i + (to - from);
            Without(a, from, to)[i..i + k] == a[i'..i' + k]
  {
    var t, i' := Without(a, from, to), if i + k <= from then i else i + (to - from);
    var x, y := t[i..i + k], a[i'..i' + k];
    forall j | 0 <= j < k ensures x[j] == y[j] {
      assert x[j] == t[i + j] && y[j] == a[i' + j];
      assert i + j >= from ==> t[i + j] == a[to..][i + j - from];
    }
  }

  /** Removing a contiguous block of any length creates at most k - 1 features. */
  lemma DeletionAddsFew(hash: Hash, a: seq<nat>, from: nat, to: nat, k: nat)
    requires from <= to <= |a| && 1 <= k <= |Without(a, from, to)|
    ensures |Features(hash, Without(a, from, to), k) - Features(hash, a, k)| <= k - 1
  {
    hide Without;
    var t := Without(a, from, to);
    assert |t| == |a| - (to - from) by { CutLength(a, from, to); }
    var starts := Interval(from - k + 1, k - 1);
    forall i | 0 <= i <= |t| - k && i !in starts
      ensures HashAt(hash, t, i, k) in Features(hash, a, k)
    {
      var i' := if i + k <= from then i else i + (to - from);
      SameWindow(a, from, to, i, k);
      assert HashAt(hash, t, i, k) == HashAt(hash, a, i', k);
    }
    NewFeatures(hash, t, a, k, starts);
  }

  /** The starts of the windows that hold one of the `changed` positions. */
  ghost function Reached(changed: seq<int>, k: nat): seq<int> {
    if changed == [] then [] else Interval(changed[0] - k + 1, k) + Reached(changed[1..], k)
  }

  lemma {:induction false} ReachedSize(changed: seq<int>, k: nat)
    ensures |Reached(changed, k)| == |changed| * k
  {
    if changed != [] {
      ReachedSize(changed[1..], k);
      assert |changed[1..]| * k + k == |changed| * k;
    }
  }

  lemma {:induction false} ReachedHolds(changed: seq<int>, k: nat, j: int, i: int)
    requires j in changed && j - k < i <= j
    ensures i in Reached(changed, k)
  {
    if j != changed[0] {
      ReachedHolds(changed[1..], k, j, i);
    }
  }

  /** Rewriting m positions creates at most m * k features. */
  lemma RewriteAddsFew(hash: Hash, p: seq<nat>, a: seq<nat>, changed: seq<int>, k: nat)
    requires |p| == |a| && 1 <= k <= |a|
    requires forall i :: 0 <= i < |a| && i !in changed ==> p[i] == a[i]
    ensures |Features(hash, p, k) - Features(hash, a, k)| <= |changed| * k
  {
    var starts := Reached(changed, k);
    forall i | 0 <= i <= |p| - k && i !in starts
      ensures HashAt(hash, p, i, k) in Features(hash, a, k)
    {
      forall j | i <= j < i + k ensures p[j] == a[j] {
        if j in changed {
          ReachedHolds(changed, k, j, i);
          assert false;
        }
      }
      assert p[i..i + k] == a[i..i + k];
      assert HashAt(hash, p, i, k) == HashAt(hash, a, i, k);
    }
    NewFeatures(hash, p, a, k, starts);
    ReachedSize(changed, k);
  }

  lemma ProductOrder(p: nat, q: nat, r: nat, s: nat)
    requires p <= q && r <= s
    ensures p * r <= q * s
  {
    assert p * r <= q * r;
    assert q * r <= q * s;
  }

  /** Containment is within d / min of 1, and jaccard lies at most d (|t| + |a|) / |a|^2 below
      the size ratio |t| / |a|, never above it. */
  ghost predicate Near(t: set<nat>, a: set<nat>, d: nat) {
    && Measure(t, a).Ok?
    && var m, ratio := Measure(t, a).value, Ratio(|t|, |a|);
       && AtMost(ONE, Plus(m.containment, Ratio(d, Min(|t|, |a|))))
       && AtMost(m.jaccard, ratio)
       && AtMost(ratio, Plus(m.jaccard, Ratio(d * (|t| + |a|), |a| * |a|)))
  }

  lemma FewNewFeatures(t: set<nat>, a: set<nat>, d: nat)
    requires t != {} && a != {}
    requires |t - a| <= d
    ensures Near(t, a, d)
  {
    UnionSize(t, a);
    assert t == (t - a) + t * a;
    var e, shared, union, least := |t - a|, |t * a|, |t| + |a| - |t * a|, Min(|t|, |a|);
    assert |t| == e + shared && union == |a| + e;
    ContainmentArithmetic(shared, d, least);
    ProductOrder(shared, |t|, |a|, union);
    JaccardArithmetic(|t|, |a|, e, d);
  }

  lemma ContainmentArithmetic(shared: nat, d: nat, least: nat)
    requires least <= shared + d
    ensures 1 * (least * least) <= (shared * least + d * least) * 1
  {
    ProductOrder(least, shared + d, least, least);
    assert (shared + d) * least == shared * least + d * least;
  }

  lemma CrossDifference(t: nat, a: nat, e: nat)
    ensures t * ((a + e) * a) == (t - e) * (a * a) + (e * a) * (t + a)
  {
    var q := a * a;
    assert t * ((a + e) * a) == t * (q + e * a) == t * q + t * (e * a);
    assert (t - e) * q == t * q - e * q;
    assert (e * a) * (t + a) == t * (e * a) + e * q;
  }

  lemma Scaled(t: int, u: int, y: int, a: nat)
    requires t * (u * a) <= y
    ensures t * (u * (a * a)) <= y * a
  {
    var x := t * (u * a);
    assert x * a <= y * a;
    assert u * (a * a) == (u * a) * a;
    assert t * ((u * a) * a) == x * a;
  }

  lemma Reorder(d: nat, s: nat, u: nat)
    ensures d * u * s == d * s * u
  {
  }

  lemma UnscaledBound(t: nat, a: nat, e: nat, d: nat)
    requires e <= t && e <= d
    ensures t * ((a + e) * a) <= (t - e) * (a * a) + d * (t + a) * (a + e)
  {
    CrossDifference(t, a, e);
    ProductOrder(e, d, a, a + e);
    ProductOrder(e * a, d * (a + e), t + a, t + a);
    Reorder(d, t + a, a + e);
  }

  /** Of the `t` features `e` are new: t/a <= (t - e)/(a + e) + d (t + a)/a^2. */
  lemma JaccardArithmetic(t: nat, a: nat, e: nat, d: nat)
    requires e <= t && e <= d
    ensures t * ((a + e) * (a * a)) <= ((t - e) * (a * a) + d * (t + a) * (a + e)) * a
  {
    UnscaledBound(t, a, e, d);
    Scaled(t, a + e, (t - e) * (a * a) + d * (t + a) * (a + e), a);
  }

  /** Deleting any contiguous block: containment stays within (k-1)/min of 1 and jaccard within
      (k-1)(|G(T)|+|G(A)|)/|G(A)|^2 of the size ratio. */
  lemma DeletionBound(hash: Hash, a: seq<nat>, from: nat, to: nat, k: nat)
    requires from <= to <= |a| && 1 <= k <= |Without(a, from, to)|
    ensures Near(Features(hash, Without(a, from, to), k), Features(hash, a, k), k - 1)
  {
    FeaturesNonEmpty(hash, Without(a, from, to), k);
    FeaturesNonEmpty(hash, a, k);
    DeletionAddsFew(hash, a, from, to, k);
    FewNewFeatures(Features(hash, Without(a, from, to), k), Features(hash, a, k), k - 1);
  }

  lemma FeaturesNonEmpty(hash: Hash, tokens: seq<nat>, k: nat)
    requires 1 <= k <= |tokens|
    ensures Features(hash, tokens, k) != {}
  {
    assert HashAt(hash, tokens, 0, k) in Features(hash, tokens, k);
  }

  /** Rewriting m positions: containment stays within m k / min of 1, and jaccard as near. */
  lemma PerturbationBound(hash: Hash, p: seq<nat>, a: seq<nat>, changed: seq<int>, k: nat)
    requires |p| == |a| && 1 <= k <= |a|
    requires forall i :: 0 <= i < |a| && i !in changed ==> p[i] == a[i]
    ensures Near(Features(hash, p, k), Features(hash, a, k), |changed| * k)
  {
    FeaturesNonEmpty(hash, p, k);
    FeaturesNonEmpty(hash, a, k);
    RewriteAddsFew(hash, p, a, changed, k);
    FewNewFeatures(Features(hash, p, k), Features(hash, a, k), |changed| * k);
  }

  /** At k = 1 the features are the hashes of the tokens, whatever their order. */
  lemma SingleTokenImage(hash: Hash, tokens: seq<nat>)
    requires tokens != []
    ensures Features(hash, tokens, 1) == set t | t in tokens :: hash([t])
  {
    forall i | 0 <= i < |tokens| ensures HashAt(hash, tokens, i, 1) == hash([tokens[i]]) {
      assert tokens[i..i + 1] == [tokens[i]];
    }
    var image := set t | t in tokens :: hash([t]);
    forall h | h in image ensures h in Features(hash, tokens, 1) {
      var t :| t in tokens && h == hash([t]);
      var i :| 0 <= i < |tokens| && tokens[i] == t;
      assert HashAt(hash, tokens, i, 1) == h;
    }
  }

  /** Any permutation of the tokens scores exactly 1 on both measures at k = 1. */
  lemma PermutationExact(hash: Hash, p: seq<nat>, a: seq<nat>)
    requires a != [] && multiset(p) == multiset(a)
    ensures p != []
    ensures Measure(Features(hash, p, 1), Features(hash, a, 1)).Ok?
    ensures var m := Measure(Features(hash, p, 1), Features(hash, a, 1)).value;
            Equal(m.containment, ONE) && Equal(m.jaccard, ONE)
  {
    assert |multiset(p)| == |multiset(a)|;
    forall t ensures t in p <==> t in a {
      assert t in p <==> t in multiset(p);
      assert t in a <==> t in multiset(a);
    }
    SingleTokenImage(hash, p);
    SingleTokenImage(hash, a);
    FeaturesNonEmpty(hash, a, 1);
    MeasureLaws(Features(hash, p, 1), Features(hash, a, 1));
  }

  // ------------------------------------------------------------ FNV loses no single token

  ghost function Distinct(s: seq<nat>): set<nat> {
    set x | x in s
  }

  ghost function Image(s: seq<nat>, f: nat -> nat): set<nat> {
    set x | x in s :: f(x)
  }

  lemma ImageStep(x: nat, rest: seq<nat>, f: nat -> nat)
    ensures Image([x] + rest, f) == Image(rest, f) + {f(x)}
    ensures Distinct([x] + rest) == Distinct(rest) + {x}
  {
    var s := [x] + rest;
    assert forall y :: y in s <==> y == x || y in rest;
  }

  lemma {:induction false} InjectiveImageSize(s: seq<nat>, f: nat -> nat)
    requires forall x, y :: x in s && y in s && f(x) == f(y) ==> x == y
    ensures |Image(s, f)| == |Distinct(s)|
  {
    if s != [] {
      var x, rest := s[0], s[1..];
      assert s == [x] + rest;
      InjectiveImageSize(rest, f);
      ImageStep(x, rest, f);
      assert f(x) in Image(rest, f) <==> x in Distinct(rest);
      hide Image, Distinct;
      Grows(Image(rest, f), f(x));
      Grows(Distinct(rest), x);
    }
  }

  lemma Grows(d: set<nat>, x: nat)
    ensures |d + {x}| == |d| + if x in d then 0 else 1
  {
    assert x in d ==> d + {x} == d;
  }

  /** At k = 1 the FNV features are exactly as many as the distinct tokens. */
  lemma SingleTokenFeatures(tokens: seq<nat>)
    requires tokens != []
    requires forall i :: 0 <= i < |tokens| ==> tokens[i] < MODULUS
    ensures |Features(WindowHash, tokens, 1)| == |Distinct(tokens)|
  {
    SingleTokenImage(WindowHash, tokens);
    var f := (t: nat) => WindowHash([t]);
    forall x, y | x in tokens && y in tokens && f(x) == f(y) ensures x == y {
      SingleTokenInjective(x, y);
    }
    InjectiveImageSize(tokens, f);
    assert Image(tokens, f) == Features(WindowHash, tokens, 1);
  }

  lemma SingleTokenInjective(x: nat, y: nat)
    requires x < MODULUS && y < MODULUS
    requires WindowHash([x]) == WindowHash([y])
    ensures x == y
  {
    if x != y {
      OneTokenChangesHash(FNV_OFFSET, [x], [y], 0);
    }
  }
}
