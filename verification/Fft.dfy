/** The in-place radix-2 FFT of src/quetz_fft.h over an exact commutative ring with a root of unity, in place
    of floats. The complex numbers over the reals are one such ring. */
module Fft {

  // ---------------------------------------------------------------- rings

  datatype Ring<!T(!new)> = Ring(zero: T, one: T, add: (T, T) -> T, neg: T -> T, mul: (T, T) -> T)

  predicate AddLaws<T(==, !new)>(r: Ring<T>, a: T, b: T, c: T) {
    && r.add(a, r.add(b, c)) == r.add(r.add(a, b), c)
    && r.add(a, b) == r.add(b, a)
    && r.add(a, r.zero) == a
    && r.add(a, r.neg(a)) == r.zero
  }

  predicate MulLaws<T(==, !new)>(r: Ring<T>, a: T, b: T, c: T) {
    && r.mul(a, r.mul(b, c)) == r.mul(r.mul(a, b), c)
    && r.mul(a, b) == r.mul(b, a)
    && r.mul(a, r.one) == a
    && r.mul(a, r.add(b, c)) == r.add(r.mul(a, b), r.mul(a, c))
  }

  ghost predicate CommutativeRing<T(!new)>(r: Ring<T>) {
    && (forall a, b, c :: AddLaws(r, a, b, c))
    && (forall a, b, c :: MulLaws(r, a, b, c))
  }

  lemma AddAssoc<T(!new)>(r: Ring<T>, a: T, b: T, c: T)
    requires CommutativeRing(r)
    ensures r.add(a, r.add(b, c)) == r.add(r.add(a, b), c)
  {
    assert AddLaws(r, a, b, c);
  }

  lemma AddComm<T(!new)>(r: Ring<T>, a: T, b: T)
    requires CommutativeRing(r)
    ensures r.add(a, b) == r.add(b, a)
  {
    assert AddLaws(r, a, b, a);
  }

  lemma AddZero<T(!new)>(r: Ring<T>, a: T)
    requires CommutativeRing(r)
    ensures r.add(a, r.zero) == a && r.add(r.zero, a) == a && r.add(a, r.neg(a)) == r.zero
  {
    assert AddLaws(r, a, a, a);
    AddComm(r, a, r.zero);
  }

  lemma MulAssoc<T(!new)>(r: Ring<T>, a: T, b: T, c: T)
    requires CommutativeRing(r)
    ensures r.mul(a, r.mul(b, c)) == r.mul(r.mul(a, b), c)
  {
    assert MulLaws(r, a, b, c);
  }

  lemma MulComm<T(!new)>(r: Ring<T>, a: T, b: T)
    requires CommutativeRing(r)
    ensures r.mul(a, b) == r.mul(b, a)
  {
    assert MulLaws(r, a, b, a);
  }

  lemma MulOne<T(!new)>(r: Ring<T>, a: T)
    requires CommutativeRing(r)
    ensures r.mul(a, r.one) == a && r.mul(r.one, a) == a
  {
    assert MulLaws(r, a, a, a);
    MulComm(r, a, r.one);
  }

  lemma Distribute<T(!new)>(r: Ring<T>, a: T, b: T, c: T)
    requires CommutativeRing(r)
    ensures r.mul(a, r.add(b, c)) == r.add(r.mul(a, b), r.mul(a, c))
  {
    assert MulLaws(r, a, b, c);
  }

  lemma Cancel<T(!new)>(r: Ring<T>, a: T, b: T, c: T)
    requires CommutativeRing(r) && r.add(a, b) == r.add(a, c)
    ensures b == c
  {
    var n := r.neg(a);
    AddComm(r, a, n);
    AddZero(r, a);
    AddAssoc(r, n, a, b);
    AddAssoc(r, n, a, c);
    AddZero(r, b);
    AddZero(r, c);
  }

  lemma MulZero<T(!new)>(r: Ring<T>, a: T)
    requires CommutativeRing(r)
    ensures r.mul(a, r.zero) == r.zero
  {
    var z := r.mul(a, r.zero);
    AddZero(r, r.zero);
    Distribute(r, a, r.zero, r.zero);
    AddZero(r, z);
    Cancel(r, z, z, r.zero);
  }

  /** Multiplying by -1 negates, and (-1)(-1) = 1. */
  lemma MinusOne<T(!new)>(r: Ring<T>, a: T)
    requires CommutativeRing(r)
    ensures r.mul(a, r.neg(r.one)) == r.neg(a)
    ensures r.mul(r.neg(r.one), r.neg(r.one)) == r.one
  {
    MinusOneTimes(r, a);
    MinusOneTimes(r, r.neg(r.one));
    var m := r.neg(r.one);
    AddZero(r, m);
    AddZero(r, r.one);
    AddComm(r, r.one, m);
    Cancel(r, m, r.neg(m), r.one);
  }

  lemma MinusOneTimes<T(!new)>(r: Ring<T>, a: T)
    requires CommutativeRing(r)
    ensures r.mul(a, r.neg(r.one)) == r.neg(a)
  {
    Distribute(r, a, r.one, r.neg(r.one));
    AddZero(r, r.one);
    MulZero(r, a);
    MulOne(r, a);
    AddZero(r, a);
    Cancel(r, a, r.mul(a, r.neg(r.one)), r.neg(a));
  }

  /** (a + b) + (c + d) = (a + c) + (b + d). */
  lemma Interleave<T(!new)>(r: Ring<T>, a: T, b: T, c: T, d: T)
    requires CommutativeRing(r)
    ensures r.add(r.add(a, b), r.add(c, d)) == r.add(r.add(a, c), r.add(b, d))
  {
    AddAssoc(r, r.add(a, b), c, d);
    AddAssoc(r, a, b, c);
    AddComm(r, b, c);
    AddAssoc(r, a, c, b);
    AddAssoc(r, r.add(a, c), b, d);
  }

  // ---------------------------------------------------------------- powers

  function Pow<T(!new)>(r: Ring<T>, w: T, e: nat): T { if e == 0 then r.one else r.mul(w, Pow(r, w, e - 1)) }

  lemma {:induction false} PowAdd<T(!new)>(r: Ring<T>, w: T, a: nat, b: nat)
    requires CommutativeRing(r)
    ensures Pow(r, w, a + b) == r.mul(Pow(r, w, a), Pow(r, w, b))
  {
    if a == 0 {
      MulOne(r, Pow(r, w, b));
    } else {
      PowAdd(r, w, a - 1, b);
      MulAssoc(r, w, Pow(r, w, a - 1), Pow(r, w, b));
    }
  }

  lemma {:induction false} PowSquare<T(!new)>(r: Ring<T>, w: T, e: nat)
    requires CommutativeRing(r)
    ensures Pow(r, r.mul(w, w), e) == Pow(r, w, 2 * e)
  {
    if e > 0 {
      PowSquare(r, w, e - 1);
      MulAssoc(r, w, w, Pow(r, w, 2 * e - 2));
      assert Pow(r, w, 2 * e) == r.mul(w, Pow(r, w, 2 * e - 1));
    }
  }

  lemma {:induction false} PowMul<T(!new)>(r: Ring<T>, u: T, c: nat, j: nat)
    requires CommutativeRing(r)
    ensures Pow(r, u, j * c) == Pow(r, Pow(r, u, c), j)
  {
    if j > 0 {
      PowMul(r, u, c, j - 1);
      PowAdd(r, u, c, (j - 1) * c);
      assert c + (j - 1) * c == j * c;
    }
  }

  // ---------------------------------------------------------------- the sum being computed

  /** Entry k of the discrete Fourier transform: the sum of x[j] * w^(j*k). */
  function Dft<T(!new)>(r: Ring<T>, x: seq<T>, w: T, k: nat): T {
    if x == [] then r.zero
    else
      var j := |x| - 1;
      r.add(Dft(r, x[..j], w, k), r.mul(x[j], Pow(r, w, j * k)))
  }

  /** The polynomial with coefficients x at z; the transform is its value at the powers of w. */
  function Eval<T(!new)>(r: Ring<T>, x: seq<T>, z: T): T {
    if x == [] then r.zero
    else r.add(Eval(r, x[..|x| - 1], z), r.mul(x[|x| - 1], Pow(r, z, |x| - 1)))
  }

  lemma {:induction false} DftIsEval<T(!new)>(r: Ring<T>, x: seq<T>, w: T, k: nat)
    requires CommutativeRing(r)
    ensures Dft(r, x, w, k) == Eval(r, x, Pow(r, w, k))
    decreases |x|
  {
    if x != [] {
      DftIsEval(r, x[..|x| - 1], w, k);
      PowMul(r, w, k, |x| - 1);
    }
  }

  function Evens<T>(x: seq<T>): (y: seq<T>)
    ensures |y| == |x| / 2 && forall i | 0 <= i < |y| :: y[i] == x[2 * i]
  {
    seq(|x| / 2, i requires 0 <= i < |x| / 2 => x[2 * i])
  }

  function Odds<T>(x: seq<T>): (y: seq<T>)
    ensures |y| == |x| / 2 && forall i | 0 <= i < |y| :: y[i] == x[2 * i + 1]
  {
    seq(|x| / 2, i requires 0 <= i < |x| / 2 => x[2 * i + 1])
  }

  lemma EvalSnoc<T(!new)>(r: Ring<T>, y: seq<T>, a: T, z: T)
    ensures Eval(r, y + [a], z) == r.add(Eval(r, y, z), r.mul(a, Pow(r, z, |y|)))
  {
    assert (y + [a])[..|y|] == y;
  }

  /** The last odd term of the sum, with z taken out. */
  lemma OddTerm<T(!new)>(r: Ring<T>, b: T, z: T, m: nat)
    requires CommutativeRing(r)
    ensures r.mul(b, Pow(r, z, 2 * m + 1)) == r.mul(z, r.mul(b, Pow(r, r.mul(z, z), m)))
  {
    PowSquare(r, z, m);
    var q := Pow(r, z, 2 * m);
    MulAssoc(r, b, z, q);
    MulComm(r, b, z);
    MulAssoc(r, z, b, q);
  }

  /** Adding one even and one odd entry. */
  lemma DecimateStep<T(!new)>(r: Ring<T>, p: T, e: T, o: T, ta: T, tb: T)
    requires CommutativeRing(r)
    ensures r.add(r.add(r.add(e, r.mul(p, o)), ta), r.mul(p, tb)) == r.add(r.add(e, ta), r.mul(p, r.add(o, tb)))
  {
    AddAssoc(r, r.add(e, r.mul(p, o)), ta, r.mul(p, tb));
    Interleave(r, e, r.mul(p, o), ta, r.mul(p, tb));
    Distribute(r, p, o, tb);
  }

  lemma DecimateSnoc<T(!new)>(r: Ring<T>, y: seq<T>, even: seq<T>, odd: seq<T>, a: T, b: T, z: T, m: nat)
    requires CommutativeRing(r) && |y| == 2 * m && |even| == m && |odd| == m
    requires Eval(r, y, z) == r.add(Eval(r, even, r.mul(z, z)), r.mul(z, Eval(r, odd, r.mul(z, z))))
    ensures Eval(r, (y + [a]) + [b], z)
              == r.add(Eval(r, even + [a], r.mul(z, z)), r.mul(z, Eval(r, odd + [b], r.mul(z, z))))
  {
    var u := r.mul(z, z);
    EvalSnoc(r, y, a, z);
    EvalSnoc(r, y + [a], b, z);
    EvalSnoc(r, even, a, u);
    EvalSnoc(r, odd, b, u);
    PowSquare(r, z, m);
    OddTerm(r, b, z, m);
    DecimateStep(r, z, Eval(r, even, u), Eval(r, odd, u), r.mul(a, Pow(r, u, m)), r.mul(b, Pow(r, u, m)));
  }

  lemma SplitLast<T>(x: seq<T>, m: nat)
    requires |x| == 2 * m + 2
    ensures (var y, a, b := x[..2 * m], x[2 * m], x[2 * m + 1];
             x == (y + [a]) + [b] && Evens(x) == Evens(y) + [a] && Odds(x) == Odds(y) + [b])
  {
  }

  /** Decimation in time: the value of x from those of its even and odd entries at the square. */
  lemma {:induction false} Decimate<T(!new)>(r: Ring<T>, x: seq<T>, z: T)
    requires CommutativeRing(r) && |x| % 2 == 0
    ensures Eval(r, x, z) == r.add(Eval(r, Evens(x), r.mul(z, z)), r.mul(z, Eval(r, Odds(x), r.mul(z, z))))
    decreases |x|
  {
    if x == [] {
      MulZero(r, z);
      AddZero(r, r.zero);
    } else {
      var m := |x| / 2 - 1;
      var y, a, b := x[..2 * m], x[2 * m], x[2 * m + 1];
      SplitLast(x, m);
      Decimate(r, y, z);
      DecimateSnoc(r, y, Evens(y), Odds(y), a, b, z, m);
    }
  }

  lemma NegSquare<T(!new)>(r: Ring<T>, z: T)
    requires CommutativeRing(r)
    ensures r.mul(r.neg(z), r.neg(z)) == r.mul(z, z)
  {
    var m := r.neg(r.one);
    MinusOne(r, z);
    MinusOne(r, r.one);
    MulAssoc(r, r.mul(z, m), z, m);
    MulAssoc(r, z, m, z);
    MulComm(r, m, z);
    MulAssoc(r, z, z, m);
    MulAssoc(r, r.mul(z, z), m, m);
    MulOne(r, r.mul(z, z));
  }

  lemma NegTimes<T(!new)>(r: Ring<T>, z: T, o: T)
    requires CommutativeRing(r)
    ensures r.mul(r.neg(z), o) == r.neg(r.mul(z, o))
  {
    var m := r.neg(r.one);
    MinusOne(r, z);
    MinusOne(r, r.mul(z, o));
    MulAssoc(r, z, m, o);
    MulComm(r, m, o);
    MulAssoc(r, z, o, m);
  }

  /** One butterfly: entries k and k + h of a transform of length 2h with w^h = -1. */
  lemma Butterfly<T(!new)>(r: Ring<T>, x: seq<T>, w: T, h: nat, k: nat)
    requires CommutativeRing(r) && |x| == 2 * h && Pow(r, w, h) == r.neg(r.one)
    ensures (var q := r.mul(w, w);
             var u, v := Eval(r, Evens(x), Pow(r, q, k)), r.mul(Pow(r, w, k), Eval(r, Odds(x), Pow(r, q, k)));
             Eval(r, x, Pow(r, w, k)) == r.add(u, v) && Eval(r, x, Pow(r, w, k + h)) == r.add(u, r.neg(v)))
  {
    var z := Pow(r, w, k);
    PowAdd(r, w, k, h);
    MinusOne(r, z);
    NegSquare(r, z);
    PowSquare(r, w, k);
    PowAdd(r, w, k, k);
    Decimate(r, x, z);
    Decimate(r, x, r.neg(z));
    NegTimes(r, z, Eval(r, Odds(x), r.mul(z, z)));
  }

  // ---------------------------------------------------------------- bit reversal

  function Pow2(n: nat): (p: nat)
    ensures p > 0
  {
    if n == 0 then 1 else 2 * Pow2(n - 1)
  }

  /** The low `bits` bits of x in reverse order. */
  function Reverse(bits: nat, x: nat): nat {
    if bits == 0 then 0 else (x % 2) * Pow2(bits - 1) + Reverse(bits - 1, x / 2)
  }

  lemma {:induction false} ReverseBound(bits: nat, x: nat)
    ensures Reverse(bits, x) < Pow2(bits)
  {
    if bits > 0 {
      ReverseBound(bits - 1, x / 2);
      assert x % 2 == 0 || x % 2 == 1;
    }
  }

  /** The bits of x also reverse from the top: the top bit becomes the lowest. */
  lemma {:induction false} ReverseTop(bits: nat, top: nat, low: nat)
    requires top < 2 && low < Pow2(bits)
    ensures Reverse(bits + 1, top * Pow2(bits) + low) == 2 * Reverse(bits, low) + top
  {
    if bits > 0 {
      var x := top * Pow2(bits) + low;
      assert x == 2 * (top * Pow2(bits - 1)) + low;
      assert x % 2 == low % 2 && x / 2 == top * Pow2(bits - 1) + low / 2;
      ReverseTop(bits - 1, top, low / 2);
    }
  }

  lemma {:induction false} ReverseInvolution(bits: nat, x: nat)
    requires x < Pow2(bits)
    ensures Reverse(bits, Reverse(bits, x)) == x
  {
    if bits > 0 {
      ReverseBound(bits - 1, x / 2);
      ReverseTop(bits - 1, x % 2, Reverse(bits - 1, x / 2));
      ReverseInvolution(bits - 1, x / 2);
    }
  }

  /** The entries in bit-reversed order. */
  function Reversed<T>(bits: nat, x: seq<T>): (y: seq<T>)
    requires |x| == Pow2(bits)
    ensures |y| == |x| && forall i | 0 <= i < |x| :: Reverse(bits, i) < |x| && y[i] == x[Reverse(bits, i)]
  {
    ReversesBound(bits);
    seq(|x|, i requires 0 <= i < |x| => x[Reverse(bits, i)])
  }

  lemma ReversesBound(bits: nat)
    ensures forall i: nat :: Reverse(bits, i) < Pow2(bits)
  {
    forall i: nat ensures Reverse(bits, i) < Pow2(bits) { ReverseBound(bits, i); }
  }

  // ---------------------------------------------------------------- parts of the input

  /** Each part split into its even and its odd entries. */
  function Halve<T>(parts: seq<seq<T>>): (halves: seq<seq<T>>)
    ensures |halves| == 2 * |parts|
  {
    seq(2 * |parts|, i requires 0 <= i < 2 * |parts| => if i % 2 == 0 then Evens(parts[i / 2]) else Odds(parts[i / 2]))
  }

  predicate HalvedAt<T(==)>(halves: seq<seq<T>>, parts: seq<seq<T>>, g: nat)
    requires |halves| == 2 * |parts| && g < |parts|
  {
    halves[2 * g] == Evens(parts[g]) && halves[2 * g + 1] == Odds(parts[g])
  }

  ghost predicate IsHalved<T>(halves: seq<seq<T>>, parts: seq<seq<T>>) {
    && |halves| == 2 * |parts|
    && forall g {:trigger HalvedAt(halves, parts, g)} | 0 <= g < |parts| :: HalvedAt(halves, parts, g)
  }

  lemma HalveHalves<T>(parts: seq<seq<T>>)
    ensures IsHalved(Halve(parts), parts)
  {
    forall g | 0 <= g < |parts| ensures HalvedAt(Halve(parts), parts, g) {
      assert (2 * g) / 2 == g && (2 * g + 1) / 2 == g && (2 * g) % 2 == 0 && (2 * g + 1) % 2 == 1;
    }
  }

  /** w^(2^d). */
  function Root<T(!new)>(r: Ring<T>, w: T, d: nat): T {
    if d == 0 then w else r.mul(Root(r, w, d - 1), Root(r, w, d - 1))
  }

  /** (2j + b)p = bp + j(2p), for a bit b. */
  lemma SplitIndex(j: nat, b: nat, p: nat)
    requires b < 2
    ensures (2 * j + b) * p == b * p + j * (2 * p)
  {
  }

  /** The parts at depth d: how many, how long, and what they hold. */
  ghost predicate PartsOk<T>(x: seq<T>, bits: nat, d: nat, parts: seq<seq<T>>)
    requires |x| == Pow2(bits) && d <= bits
  {
    |parts| == Pow2(d) && forall g {:trigger PartOk(x, bits, d, parts[g], g)} | 0 <= g < |parts| ::
        PartOk(x, bits, d, parts[g], g)
  }

  ghost predicate PartOk<T>(x: seq<T>, bits: nat, d: nat, p: seq<T>, g: nat)
    requires |x| == Pow2(bits) && d <= bits
  {
    |p| == Pow2(bits - d) && forall j {:trigger p[j]} | 0 <= j < |p| :: PartEntryOk(x, d, p[j], g, j)
  }

  ghost predicate PartEntryOk<T>(x: seq<T>, d: nat, v: T, g: nat, j: nat) {
    var i := Reverse(d, g) + j * Pow2(d);
    i < |x| && v == x[i]
  }

  /** Entry j of the even (b = 0) or odd (b = 1) half of part g. */
  lemma HalfEntry<T>(x: seq<T>, d: nat, v: T, g: nat, j: nat, b: nat)
    requires b < 2 && PartEntryOk(x, d, v, g, 2 * j + b)
    ensures PartEntryOk(x, d + 1, v, 2 * g + b, j)
  {
    assert (2 * g + b) / 2 == g && (2 * g + b) % 2 == b;
    SplitIndex(j, b, Pow2(d));
  }

  lemma HalfOk<T>(x: seq<T>, bits: nat, d: nat, p: seq<T>, g: nat)
    requires |x| == Pow2(bits) && d < bits && PartOk(x, bits, d, p, g)
    ensures PartOk(x, bits, d + 1, Evens(p), 2 * g) && PartOk(x, bits, d + 1, Odds(p), 2 * g + 1)
  {
    assert Pow2(bits - d) == 2 * Pow2(bits - (d + 1));
    var even, odd := Evens(p), Odds(p);
    forall j | 0 <= j < |even| ensures PartEntryOk(x, d + 1, even[j], 2 * g, j) { HalfEntry(x, d, p[2 * j], g, j, 0); }
    forall j | 0 <= j < |odd| ensures PartEntryOk(x, d + 1, odd[j], 2 * g + 1, j) {
      HalfEntry(x, d, p[2 * j + 1], g, j, 1);
    }
  }

  lemma HalvesOk<T>(x: seq<T>, bits: nat, d: nat, parts: seq<seq<T>>, halves: seq<seq<T>>)
    requires |x| == Pow2(bits) && d < bits && PartsOk(x, bits, d, parts) && IsHalved(halves, parts)
    ensures PartsOk(x, bits, d + 1, halves)
  {
    forall i | 0 <= i < |halves| ensures PartOk(x, bits, d + 1, halves[i], i) {
      var g := i / 2;
      assert PartOk(x, bits, d, parts[g], g);
      assert HalvedAt(halves, parts, g);
      HalfOk(x, bits, d, parts[g], g);
      assert i == 2 * g || i == 2 * g + 1;
    }
  }

  lemma PartLengths<T>(x: seq<T>, bits: nat, d: nat, parts: seq<seq<T>>, size: nat)
    requires |x| == Pow2(bits) && d <= bits && PartsOk(x, bits, d, parts) && size == Pow2(bits - d)
    ensures |parts| == Pow2(d) && forall g | 0 <= g < |parts| :: |parts[g]| == size
  {
    forall g | 0 <= g < |parts| ensures |parts[g]| == size { assert PartOk(x, bits, d, parts[g], g); }
  }

  /** levels[d] are the 2^d interleaved parts of x after d halvings. */
  ghost predicate LevelOk<T>(x: seq<T>, bits: nat, levels: seq<seq<seq<T>>>, d: nat)
    requires |x| == Pow2(bits) && d < |levels| <= bits + 1
  {
    PartsOk(x, bits, d, levels[d]) && (d > 0 ==> IsHalved(levels[d], levels[d - 1]))
  }

  ghost predicate LevelsOk<T>(x: seq<T>, bits: nat, levels: seq<seq<seq<T>>>)
    requires |x| == Pow2(bits)
  {
    && 0 < |levels| <= bits + 1 && levels[0] == [x]
    && forall d {:trigger LevelOk(x, bits, levels, d)} | 0 <= d < |levels| :: LevelOk(x, bits, levels, d)
  }

  lemma BuildLevels<T>(x: seq<T>, bits: nat, d: nat) returns (levels: seq<seq<seq<T>>>)
    requires |x| == Pow2(bits) && d <= bits
    ensures |levels| == d + 1 && LevelsOk(x, bits, levels)
  {
    if d == 0 {
      levels := [[x]];
      WholePartOk(x, bits);
      assert LevelOk(x, bits, levels, 0);
    } else {
      var before := BuildLevels(x, bits, d - 1);
      var halves := Halve(before[d - 1]);
      levels := before + [halves];
      assert LevelOk(x, bits, before, d - 1);
      HalveHalves(before[d - 1]);
      HalvesOk(x, bits, d - 1, before[d - 1], halves);
      forall e | 0 <= e < |levels| ensures LevelOk(x, bits, levels, e) {
        if e < d { assert LevelOk(x, bits, before, e); }
      }
    }
  }

  lemma WholePartOk<T>(x: seq<T>, bits: nat)
    requires |x| == Pow2(bits)
    ensures PartsOk(x, bits, 0, [x])
  {
    var parts := [x];
    forall g | 0 <= g < |parts| ensures PartOk(x, bits, 0, parts[g], g) {
      forall j | 0 <= j < |x| ensures PartEntryOk(x, 0, x[j], 0, j) {}
    }
  }

  lemma {:induction false} PowRoot<T(!new)>(r: Ring<T>, w: T, d: nat, j: nat)
    requires CommutativeRing(r)
    ensures Pow(r, w, j * Pow2(d)) == Pow(r, Root(r, w, d), j)
    decreases d
  {
    if d > 0 {
      PowRoot(r, w, d - 1, 2 * j);
      SplitIndex(j, 0, Pow2(d - 1));
      PowSquare(r, Root(r, w, d - 1), j);
    }
  }

  /** A root of order 2^bits: w^(n/2) = -1; every level's root then has half the order. */
  ghost predicate RootOfUnity<T(!new)>(r: Ring<T>, w: T, bits: nat) {
    bits > 0 ==> Pow(r, w, Pow2(bits - 1)) == r.neg(r.one)
  }

  lemma RootsHalve<T(!new)>(r: Ring<T>, w: T, bits: nat, d: nat)
    requires CommutativeRing(r) && RootOfUnity(r, w, bits) && d < bits
    ensures Pow(r, Root(r, w, d), Pow2(bits - d - 1)) == r.neg(r.one)
  {
    PowRoot(r, w, d, Pow2(bits - d - 1));
    Pow2Product(bits - d - 1, d);
  }

  lemma {:induction false} Pow2Product(a: nat, b: nat)
    ensures Pow2(a) * Pow2(b) == Pow2(a + b)
  {
    if b > 0 {
      Pow2Product(a, b - 1);
      assert Pow2(a) * (2 * Pow2(b - 1)) == 2 * (Pow2(a) * Pow2(b - 1));
    }
  }

  lemma TimesGrows(a: int, m: int)
    requires m >= 0
    ensures a >= 1 ==> a * m >= m
    ensures a <= -1 ==> a * m <= -m
  {
    if a >= 1 { assert (a - 1) * m >= 0; } else if a <= -1 { assert (-a - 1) * m >= 0; }
  }

  lemma DivMod(x: nat, m: nat, q: nat, t: nat)
    requires m > 0 && x == q * m + t && t < m
    ensures x / m == q && x % m == t
  {
    var q', t' := x / m, x % m;
    assert (q - q') * m == t' - t;
    TimesGrows(q - q', m);
  }

  lemma HalfRoot<T(!new)>(r: Ring<T>, w: T, bits: nat, d: nat, half: nat)
    requires CommutativeRing(r) && RootOfUnity(r, w, bits) && 0 < d <= bits && half == Pow2(bits - d)
    ensures Pow(r, Root(r, w, d - 1), half) == r.neg(r.one)
  {
    RootsHalve(r, w, bits, d - 1);
    assert bits - (d - 1) - 1 == bits - d;
  }

  // ---------------------------------------------------------------- one stage

  /** Entry j of block g, of blocks of the given size, is the value of the polynomial p at z^j. */
  ghost predicate EntryOk<T(!new)>(r: Ring<T>, p: seq<T>, z: T, size: nat, a: seq<T>, g: nat, j: nat) {
    var i := g * size + j;
    i < |a| && a[i] == Eval(r, p, Pow(r, z, j))
  }

  /** Block g of the array is the transform of part g. */
  ghost predicate Blocks<T(!new)>(r: Ring<T>, parts: seq<seq<T>>, z: T, size: nat, a: seq<T>) {
    forall g, j: nat {:trigger EntryOk(r, parts[g], z, size, a, g, j)} |
      0 <= g < |parts| && j < size :: EntryOk(r, parts[g], z, size, a, g, j)
  }

  /** Bit-reversed order: every block is one entry. */
  lemma ReversedIsBlocks<T(!new)>(r: Ring<T>, x: seq<T>, z: T, bits: nat, parts: seq<seq<T>>)
    requires CommutativeRing(r) && |x| == Pow2(bits) && PartsOk(x, bits, bits, parts)
    ensures Blocks(r, parts, z, 1, Reversed(bits, x))
  {
    var y := Reversed(bits, x);
    forall g, j: nat | 0 <= g < |parts| && j < 1 ensures EntryOk(r, parts[g], z, 1, y, g, j) {
      assert PartOk(x, bits, bits, parts[g], g);
      assert PartEntryOk(x, bits, parts[g][0], g, 0);
      assert parts[g] == [y[g]];
      SingleEval(r, y[g], r.one);
    }
  }

  lemma SingleEval<T(!new)>(r: Ring<T>, v: T, z: T)
    requires CommutativeRing(r)
    ensures Eval(r, [v], z) == v
  {
    MulOne(r, v);
    AddZero(r, v);
    assert [v][..0] == [];
  }

  /** One block over the whole input is the transform. */
  lemma BlocksAreDft<T(!new)>(r: Ring<T>, x: seq<T>, w: T, a: seq<T>)
    requires CommutativeRing(r) && Blocks(r, [x], w, |a|, a)
    ensures forall k | 0 <= k < |a| :: a[k] == Dft(r, x, w, k)
  {
    forall k | 0 <= k < |a| ensures a[k] == Dft(r, x, w, k) {
      assert EntryOk(r, [x][0], w, |a|, a, 0, k);
      DftIsEval(r, x, w, k);
    }
  }

  /** The two indices of butterfly q of a stage. */
  function Low(half: nat, q: nat): nat
    requires half > 0
  {
    (q / half) * (2 * half) + q % half
  }

  function High(half: nat, q: nat): nat
    requires half > 0
  {
    Low(half, q) + half
  }

  lemma PairPlace(half: nat, q: nat)
    requires half > 0
    ensures Low(half, q) / (2 * half) == q / half && Low(half, q) % (2 * half) == q % half
    ensures High(half, q) / (2 * half) == q / half && High(half, q) % (2 * half) == q % half + half
  {
    DivMod(Low(half, q), 2 * half, q / half, q % half);
    DivMod(High(half, q), 2 * half, q / half, q % half + half);
  }

  /** Different butterflies of a stage touch different entries. */
  lemma PairsDisjoint(half: nat, p: nat, q: nat)
    requires half > 0 && p != q
    ensures Low(half, p) != Low(half, q) && High(half, p) != High(half, q)
    ensures Low(half, p) != High(half, q) && High(half, p) != Low(half, q)
  {
    PairPlace(half, p);
    PairPlace(half, q);
    assert p == (p / half) * half + p % half && q == (q / half) * half + q % half;
  }

  lemma QuotientBound(q: nat, half: nat, groups: nat)
    requires half > 0 && q < groups * half
    ensures q / half < groups
  {
    TimesGrows(q / half - groups + 1, half);
    assert (q / half - groups + 1) * half == (q / half) * half - groups * half + half;
  }

  lemma PairBound(half: nat, groups: nat, q: nat)
    requires half > 0 && q < groups * half
    ensures Low(half, q) < High(half, q) < groups * (2 * half)
  {
    var g := q / half;
    QuotientBound(q, half, groups);
    assert groups * (2 * half) == g * (2 * half) + (groups - g) * (2 * half);
    TimesGrows(groups - g, 2 * half);
  }

  /** Butterfly q of a stage: twiddle the high entry by w^(j * stride), then add and subtract. */
  ghost predicate PairDone<T(!new)>(r: Ring<T>, w: T, stride: nat, half: nat, prev: seq<T>, a: seq<T>, q: nat)
    requires half > 0
  {
    && High(half, q) < |prev| == |a|
    && var u, v := prev[Low(half, q)], r.mul(Pow(r, w, (q % half) * stride), prev[High(half, q)]);
       a[Low(half, q)] == r.add(u, v) && a[High(half, q)] == r.add(u, r.neg(v))
  }

  ghost predicate PairUntouched<T>(half: nat, prev: seq<T>, a: seq<T>, q: nat)
    requires half > 0
  {
    High(half, q) < |prev| == |a| && a[Low(half, q)] == prev[Low(half, q)] && a[High(half, q)] == prev[High(half, q)]
  }

  /** The first `count` butterflies of a stage are done. */
  ghost predicate PairsDone<T(!new)>(r: Ring<T>, w: T, stride: nat, half: nat, prev: seq<T>, a: seq<T>, count: nat)
    requires half > 0
  {
    forall q: nat | q < count :: PairDone(r, w, stride, half, prev, a, q)
  }

  /** Butterfly q = g * half + j joins entry j of blocks 2g and 2g + 1 into entries j and j + half of block g. */
  lemma PairIndices(half: nat, g: nat, j: nat)
    requires j < half
    ensures (var q := g * half + j;
             && q / half == g && q % half == j
             && Low(half, q) == (2 * g) * half + j == g * (2 * half) + j
             && High(half, q) == (2 * g + 1) * half + j == g * (2 * half) + (j + half))
  {
    DivMod(g * half + j, half, g, j);
    assert g * (2 * half) == (2 * g) * half && (2 * g) * half + half == (2 * g + 1) * half;
  }

  /** A finished butterfly holds two entries of the joined block. */
  lemma PairEntries<T(!new)>(r: Ring<T>, p: seq<T>, even: seq<T>, odd: seq<T>, z: T, w: T, stride: nat, half: nat,
                             prev: seq<T>, a: seq<T>, g: nat, j: nat)
    requires CommutativeRing(r) && j < half && |p| == 2 * half && even == Evens(p) && odd == Odds(p)
    requires Pow(r, z, half) == r.neg(r.one) && Pow(r, w, j * stride) == Pow(r, z, j)
    requires EntryOk(r, even, r.mul(z, z), half, prev, 2 * g, j)
             && EntryOk(r, odd, r.mul(z, z), half, prev, 2 * g + 1, j)
    requires PairDone(r, w, stride, half, prev, a, g * half + j)
    ensures EntryOk(r, p, z, 2 * half, a, g, j) && EntryOk(r, p, z, 2 * half, a, g, j + half)
  {
    PairIndices(half, g, j);
    Butterfly(r, p, z, half, j);
  }

  /** All butterflies of a stage done: neighbouring blocks are joined. */
  lemma StageBlocks<T(!new)>(r: Ring<T>, parts: seq<seq<T>>, halves: seq<seq<T>>, z: T, w: T, stride: nat, half: nat,
                             prev: seq<T>, a: seq<T>)
    requires CommutativeRing(r) && half > 0 && IsHalved(halves, parts)
    requires forall g | 0 <= g < |parts| :: |parts[g]| == 2 * half
    requires Pow(r, z, half) == r.neg(r.one) && forall j: nat | j < half :: Pow(r, w, j * stride) == Pow(r, z, j)
    requires Blocks(r, halves, r.mul(z, z), half, prev)
    requires PairsDone(r, w, stride, half, prev, a, |parts| * half)
    ensures Blocks(r, parts, z, 2 * half, a)
  {
    var size, q := 2 * half, r.mul(z, z);
    forall g, t: nat | 0 <= g < |parts| && t < size ensures EntryOk(r, parts[g], z, size, a, g, t) {
      var j := if t < half then t else t - half;
      TimesGrows(|parts| - g, half);
      assert (|parts| - g) * half == |parts| * half - g * half;
      var k := g * half + j;
      assert PairDone(r, w, stride, half, prev, a, k);
      assert HalvedAt(halves, parts, g);
      var lo, hi := 2 * g, 2 * g + 1;
      assert EntryOk(r, halves[lo], q, half, prev, lo, j) && EntryOk(r, halves[hi], q, half, prev, hi, j);
      PairEntries(r, parts[g], halves[lo], halves[hi], z, w, stride, half, prev, a, g, j);
    }
  }

  // ---------------------------------------------------------------- the program

  method Log2(n: nat, ghost bits: nat) returns (logn: nat)
    requires n == Pow2(bits)
    ensures logn == bits
  {
    logn := 0;
    var p := 1;
    while p < n
      invariant logn <= bits && p == Pow2(logn)
      decreases bits - logn
    {
      Pow2Grows(logn, bits);
      logn := logn + 1;
      p := 2 * p;
    }
    Pow2Grows(logn, bits);
  }

  lemma {:induction false} Pow2Grows(a: nat, b: nat)
    requires a <= b
    ensures Pow2(a) <= Pow2(b) && (a < b ==> 2 * Pow2(a) <= Pow2(b))
    decreases b - a
  {
    if a < b { Pow2Grows(a, b - 1); }
  }

  method ReverseBits(logn: nat, i: nat) returns (rev: nat)
    requires i < Pow2(logn)
    ensures rev == Reverse(logn, i)
  {
    rev := 0;
    var x: nat := i;
    for b := 0 to logn
      invariant rev * Pow2(logn - b) + Reverse(logn - b, x) == Reverse(logn, i)
    {
      var p := Pow2(logn - b - 1);
      assert Reverse(logn - b, x) == (x % 2) * p + Reverse(logn - b - 1, x / 2);
      assert (2 * rev + x % 2) * p == rev * (2 * p) + (x % 2) * p by { SplitIndex(rev, x % 2, p); }
      rev := 2 * rev + x % 2;
      x := x / 2;
    }
  }

  /** Which entries the bit-reversal loop has moved when it reaches index i. */
  ghost predicate Swapped<T>(bits: nat, x: seq<T>, a: seq<T>, i: nat)
    requires |x| == Pow2(bits)
  {
    && |a| == |x|
    && forall j {:trigger a[j]} | 0 <= j < |x| ::
         var v := Reverse(bits, j);
         v < |x| && a[j] == if j < i || v < i then x[v] else x[j]
  }

  /** The swap at i moves i and its reversal, and no other entry. */
  lemma SwapStep<T>(bits: nat, x: seq<T>, a: seq<T>, b: seq<T>, i: nat)
    requires |x| == Pow2(bits) && i < |x| && Swapped(bits, x, a, i)
    requires (var v := Reverse(bits, i);
              v < |x| && b == if v > i then a[i := a[v]][v := a[i]] else a)
    ensures Swapped(bits, x, b, i + 1)
  {
    var v := Reverse(bits, i);
    ReverseInvolution(bits, i);
    forall j | 0 <= j < |x|
      ensures (var u := Reverse(bits, j); u < |x| && b[j] == if j < i + 1 || u < i + 1 then x[u] else x[j])
    {
      ReverseBound(bits, j);
      ReverseInvolution(bits, j);
      assert a[j] == a[j] && a[i] == a[i] && a[v] == a[v];
    }
  }

  method BitReverse<T>(a: array<T>, logn: nat)
    requires a.Length == Pow2(logn)
    modifies a
    ensures a[..] == Reversed(logn, old(a[..]))
  {
    ghost var x := a[..];
    ReversesBound(logn);
    for i := 0 to a.Length
      invariant Swapped(logn, x, a[..], i)
    {
      ghost var before := a[..];
      var v := ReverseBits(logn, i);
      if v > i { a[i], a[v] := a[v], a[i]; }
      SwapStep(logn, x, before, a[..], i);
    }
  }

  /** Stage s: every butterfly of width 2^s, in place. */
  method Stage<T(!new)>(r: Ring<T>, a: array<T>, w: T, logn: nat, s: nat)
    requires a.Length == Pow2(logn) && 1 <= s <= logn
    modifies a
    ensures PairsDone(r, w, Pow2(logn - s), Pow2(s - 1), old(a[..]), a[..], Pow2(logn - s) * Pow2(s - 1))
  {
    var half, stride := Pow2(s - 1), Pow2(logn - s);
    ghost var prev := a[..];
    ButterflyCount(logn, s);
    forall q: nat | q < stride * half ensures PairUntouched(half, prev, a[..], q) { PairBound(half, stride, q); }
    var k := 0;
    while k < a.Length / 2
      invariant 0 <= k <= a.Length / 2
      invariant PairsDone(r, w, stride, half, prev, a[..], k)
      invariant forall q: nat | k <= q < stride * half :: PairUntouched(half, prev, a[..], q)
    {
      ghost var before := a[..];
      assert PairUntouched(half, prev, before, k);
      var j := k % half;
      var group := k / half;
      var i0 := group * (2 * half) + j;
      var i1 := i0 + half;
      var v := r.mul(Pow(r, w, j * stride), a[i1]);
      var u := a[i0];
      a[i0] := r.add(u, v);
      a[i1] := r.add(u, r.neg(v));
      assert a[..] == before[i0 := r.add(u, v)][i1 := r.add(u, r.neg(v))];
      StageStep(r, w, stride, half, prev, before, a[..], k, stride * half);
      k := k + 1;
    }
  }

  /** One butterfly leaves the others as they were. */
  lemma StageStep<T(!new)>(r: Ring<T>, w: T, stride: nat, half: nat, prev: seq<T>, before: seq<T>, a: seq<T>, k: nat,
                           count: nat)
    requires half > 0 && k < count && PairsDone(r, w, stride, half, prev, before, k)
    requires forall q: nat | k <= q < count :: PairUntouched(half, prev, before, q)
    requires |a| == |before| && PairDone(r, w, stride, half, prev, a, k)
    requires forall i | 0 <= i < |a| && i != Low(half, k) && i != High(half, k) :: a[i] == before[i]
    ensures PairsDone(r, w, stride, half, prev, a, k + 1)
    ensures forall q: nat | k < q < count :: PairUntouched(half, prev, a, q)
  {
    forall q: nat | q < k ensures PairDone(r, w, stride, half, prev, a, q) {
      assert PairDone(r, w, stride, half, prev, before, q);
      PairsDisjoint(half, q, k);
    }
    forall q: nat | k < q < count ensures PairUntouched(half, prev, a, q) {
      assert PairUntouched(half, prev, before, q);
      PairsDisjoint(half, q, k);
    }
  }

  lemma ButterflyCount(logn: nat, s: nat)
    requires 1 <= s <= logn
    ensures Pow2(logn - s) * Pow2(s - 1) == Pow2(logn) / 2 && Pow2(logn - s) * (2 * Pow2(s - 1)) == Pow2(logn)
  {
    Pow2Product(logn - s, s - 1);
    Pow2Product(logn - s, s);
  }

  /** The array after stage s: 2^(bits - s) blocks of 2^s entries. */
  ghost predicate AfterStage<T(!new)>(r: Ring<T>, levels: seq<seq<seq<T>>>, w: T, bits: nat, s: nat, a: seq<T>)
    requires s <= bits && |levels| == bits + 1
  {
    |a| == Pow2(bits) && Blocks(r, levels[bits - s], Root(r, w, bits - s), Pow2(s), a)
  }

  lemma StageAdvances<T(!new)>(r: Ring<T>, x: seq<T>, levels: seq<seq<seq<T>>>, w: T, bits: nat, s: nat, prev: seq<T>,
                               a: seq<T>)
    requires CommutativeRing(r) && RootOfUnity(r, w, bits) && |x| == Pow2(bits) && 1 <= s <= bits && |a| == |prev|
    requires LevelsOk(x, bits, levels) && |levels| == bits + 1 && AfterStage(r, levels, w, bits, s - 1, prev)
    requires PairsDone(r, w, Pow2(bits - s), Pow2(s - 1), prev, a, Pow2(bits - s) * Pow2(s - 1))
    ensures AfterStage(r, levels, w, bits, s, a)
  {
    var d, half, stride := bits - s + 1, Pow2(s - 1), Pow2(bits - s);
    assert bits - d == s - 1 && d - 1 == bits - s && bits - (s - 1) == d;
    var parts, halves, z := levels[d - 1], levels[d], Root(r, w, d - 1);
    assert LevelOk(x, bits, levels, d) && LevelOk(x, bits, levels, d - 1);
    PartLengths(x, bits, d - 1, parts, 2 * half);
    HalfRoot(r, w, bits, d, half);
    forall j: nat | j < half ensures Pow(r, w, j * stride) == Pow(r, z, j) { PowRoot(r, w, d - 1, j); }
    StageBlocks(r, parts, halves, z, w, stride, half, prev, a);
  }

  lemma BeforeStages<T(!new)>(r: Ring<T>, x: seq<T>, levels: seq<seq<seq<T>>>, w: T, bits: nat)
    requires CommutativeRing(r) && |x| == Pow2(bits) && LevelsOk(x, bits, levels) && |levels| == bits + 1
    ensures AfterStage(r, levels, w, bits, 0, Reversed(bits, x))
  {
    assert LevelOk(x, bits, levels, bits);
    ReversedIsBlocks(r, x, Root(r, w, bits), bits, levels[bits]);
  }

  lemma AfterStages<T(!new)>(r: Ring<T>, x: seq<T>, levels: seq<seq<seq<T>>>, w: T, bits: nat, a: seq<T>)
    requires CommutativeRing(r) && |x| == Pow2(bits) && LevelsOk(x, bits, levels) && |levels| == bits + 1
    requires AfterStage(r, levels, w, bits, bits, a)
    ensures forall k | 0 <= k < |a| :: a[k] == Dft(r, x, w, k)
  {
    BlocksAreDft(r, x, w, a);
  }

  /** All logn stages on the bit-reversed array. */
  method Stages<T(!new)>(r: Ring<T>, a: array<T>, w: T, logn: nat, ghost x: seq<T>, ghost levels: seq<seq<seq<T>>>)
    requires CommutativeRing(r) && RootOfUnity(r, w, logn) && |x| == Pow2(logn)
    requires LevelsOk(x, logn, levels) && |levels| == logn + 1 && AfterStage(r, levels, w, logn, 0, a[..])
    modifies a
    ensures AfterStage(r, levels, w, logn, logn, a[..])
  {
    for s := 1 to logn + 1
      invariant AfterStage(r, levels, w, logn, s - 1, a[..])
    {
      ghost var prev := a[..];
      Stage(r, a, w, logn, s);
      StageAdvances(r, x, levels, w, logn, s, prev, a[..]);
    }
  }

  /** quetz_fft_radix2: the array ends as the discrete Fourier transform of what it held. */
  method FftRadix2<T(!new)>(r: Ring<T>, a: array<T>, w: T, ghost bits: nat)
    requires CommutativeRing(r) && a.Length == Pow2(bits) && RootOfUnity(r, w, bits)
    modifies a
    ensures forall k | 0 <= k < a.Length :: a[k] == Dft(r, old(a[..]), w, k)
  {
    ghost var x := a[..];
    ghost var levels := BuildLevels(x, bits, bits);
    var logn := Log2(a.Length, bits);
    BitReverse(a, logn);
    BeforeStages(r, x, levels, w, logn);
    Stages(r, a, w, logn, x, levels);
    AfterStages(r, x, levels, w, logn, a[..]);
  }

  // ---------------------------------------------------------------- complex numbers

  /** The {re, im} pairs of the source, over exact reals. */
  datatype Complex = Complex(re: real, im: real)

  function ComplexAdd(a: Complex, b: Complex): Complex { Complex(a.re + b.re, a.im + b.im) }

  function ComplexNeg(a: Complex): Complex { Complex(-a.re, -a.im) }

  function ComplexMul(a: Complex, b: Complex): Complex {
    Complex(a.re * b.re - a.im * b.im, a.re * b.im + a.im * b.re)
  }

  const ComplexRing: Ring<Complex> :=
    Ring(Complex(0.0, 0.0), Complex(1.0, 0.0), ComplexAdd, ComplexNeg, ComplexMul)

  lemma ComplexMulAssoc(a: Complex, b: Complex, c: Complex)
    ensures ComplexMul(a, ComplexMul(b, c)) == ComplexMul(ComplexMul(a, b), c)
  {
    var l, m := ComplexMul(a, ComplexMul(b, c)), ComplexMul(ComplexMul(a, b), c);
    assert l.re == a.re * b.re * c.re - a.re * b.im * c.im - a.im * b.re * c.im - a.im * b.im * c.re == m.re;
    assert l.im == a.re * b.re * c.im + a.re * b.im * c.re + a.im * b.re * c.re - a.im * b.im * c.im == m.im;
  }

  lemma ComplexDistribute(a: Complex, b: Complex, c: Complex)
    ensures ComplexMul(a, ComplexAdd(b, c)) == ComplexAdd(ComplexMul(a, b), ComplexMul(a, c))
  {
  }

  lemma ComplexLawsAt(a: Complex, b: Complex, c: Complex)
    ensures AddLaws(ComplexRing, a, b, c) && MulLaws(ComplexRing, a, b, c)
  {
    ComplexMulAssoc(a, b, c);
    ComplexDistribute(a, b, c);
  }

  lemma ComplexLaws()
    ensures CommutativeRing(ComplexRing)
  {
    forall a, b, c ensures AddLaws(ComplexRing, a, b, c) { ComplexLawsAt(a, b, c); }
    forall a, b, c ensures MulLaws(ComplexRing, a, b, c) { ComplexLawsAt(a, b, c); }
  }

  /** The source's transform, over exact complex numbers: w stands for exp(-2 pi i / n). */
  method ComplexFft(a: array<Complex>, w: Complex, ghost bits: nat)
    requires a.Length == Pow2(bits) && RootOfUnity(ComplexRing, w, bits)
    modifies a
    ensures forall k | 0 <= k < a.Length :: a[k] == Dft(ComplexRing, old(a[..]), w, k)
  {
    ComplexLaws();
    FftRadix2(ComplexRing, a, w, bits);
  }
}
