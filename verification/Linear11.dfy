// The LINEAR11 encoder of common/dev/mp29526.c over real values.  A LINEAR11 word (PMBus
// Specification Part II, section 7.3) holds a 5-bit two's complement exponent and an 11-bit
// two's complement mantissa.
module Linear11 {

  const MANTISSA_MAX := 1023

  function Pow2(n: nat): (r: real)
    ensures r >= 1.0
  {
    if n == 0 then 1.0 else 2.0 * Pow2(n - 1)
  }

  /** The weight of one mantissa step. */
  function Lsb(e: int): (r: real)
    requires -16 <= e <= 15
    ensures r > 0.0
  {
    if e < 0 then 1.0 / Pow2(-e) else Pow2(e)
  }

  /** a steps of weight l; products of two unknowns are reasoned about through its lemmas. */
  function Times(a: real, l: real): real { a * l }

  function ExponentOf(word: nat): (e: int)
    requires word < 0x1_0000
    ensures -16 <= e <= 15
  {
    if word / 2048 < 16 then word / 2048 else word / 2048 - 32
  }

  function MantissaOf(word: nat): int {
    if word % 2048 < 1024 then word % 2048 else word % 2048 - 2048
  }

  /** The value a LINEAR11 word stands for. */
  function Decode(word: nat): real
    requires word < 0x1_0000
  {
    Times(MantissaOf(word) as real, Lsb(ExponentOf(word)))
  }

  /** word is the encoding of value: its exponent is the least whose mantissa range holds the
      value, its mantissa is the nearest one (the larger on a tie) and leaves bit 10 clear. */
  ghost predicate Encodes(value: real, word: nat) {
    word < 0x1_0000 &&
    var e := ExponentOf(word);
    0 <= MantissaOf(word) <= MANTISSA_MAX &&
    value <= 1023.0 * Lsb(e) &&
    (e > -16 ==> value > 1023.0 * Lsb(e - 1)) &&
    -0.5 * Lsb(e) < Decode(word) - value <= 0.5 * Lsb(e)
  }

  // -------------------------------------------------------------- arithmetic

  lemma TimesMinus(a: real, b: real, l: real)
    ensures Times(a - b, l) == Times(a, l) - Times(b, l)
  {
  }

  lemma TimesHalf(d: real, l: real)
    requires -0.5 <= d < 0.5 && l > 0.0
    ensures -0.5 * l <= Times(d, l) < 0.5 * l
  {
  }

  lemma TimesLe(a: real, b: real, l: real)
    requires l > 0.0
    ensures a <= b ==> Times(a, l) <= Times(b, l)
    ensures a < b ==> Times(a, l) < Times(b, l)
  {
  }

  lemma TimesConst(l: real)
    ensures Times(0.0, l) == 0.0 && Times(1.0, l) == l
    ensures Times(511.0, l) == 511.0 * l && Times(512.0, l) == 512.0 * l && Times(1023.0, l) == 1023.0 * l
  {
  }

  lemma LsbDoubles(e: int)
    requires -16 <= e < 15
    ensures Lsb(e + 1) == 2.0 * Lsb(e)
  {
    if e < 0 {
      var p := Pow2(-e - 1);
      assert Pow2(-e) == 2.0 * p;
      Halves(p);
    }
  }

  lemma Halves(p: real)
    requires p > 0.0
    ensures 1.0 / p == 2.0 * (1.0 / (2.0 * p))
  {
    var q := 1.0 / (2.0 * p);
    assert q * (2.0 * p) == 1.0;
    assert (2.0 * q) * p == 1.0;
  }

  lemma {:induction false} LsbGrows(e: int, f: int)
    requires -16 <= e <= f <= 15
    ensures Lsb(e) <= Lsb(f)
    decreases f - e
  {
    if e < f {
      LsbDoubles(f - 1);
      LsbGrows(e, f - 1);
    }
  }

  /** Dividing by a weight and rounding to nearest. */
  lemma Nearest(value: real, lsb: real, scaled: real, m: int)
    requires lsb > 0.0 && Times(scaled, lsb) == value && m as real <= scaled + 0.5 < m as real + 1.0
    ensures -0.5 * lsb < Times(m as real, lsb) - value <= 0.5 * lsb
  {
    hide Times;
    TimesMinus(scaled, m as real, lsb);
    TimesHalf(scaled - m as real, lsb);
  }

  lemma WordFields(e: int, m: nat)
    requires -16 <= e <= 15 && m <= MANTISSA_MAX
    ensures var w := e % 32 * 2048 + m;
            w < 0x1_0000 && ExponentOf(w) == e && MantissaOf(w) == m
  {
    var w := e % 32 * 2048 + m;
    assert e % 32 == if e < 0 then e + 32 else e;
    assert w / 2048 == e % 32 && w % 2048 == m;
  }

  /** The greatest step is 2 to the 15. */
  lemma GreatestStep()
    ensures Lsb(15) == 32768.0 && 1023.0 * Lsb(15) == 33_521_664.0
  {
    assert Pow2(3) == 8.0 && Pow2(6) == 8.0 * Pow2(3) && Pow2(9) == 8.0 * Pow2(6);
    assert Pow2(12) == 8.0 * Pow2(9) && Pow2(15) == 8.0 * Pow2(12);
  }

  /** Words and their values: exponents 0, 1 and -1, the greatest mantissa, a negative one. */
  lemma KnownWords()
    ensures Decode(0x0001) == 1.0 && Decode(0x0801) == 2.0 && Decode(0xF801) == 0.5
    ensures Decode(0x03FF) == 1023.0 && Decode(0x07FF) == -1.0 && Decode(0x0400) == -1024.0
  {
    assert Pow2(1) == 2.0 && Pow2(0) == 1.0;
    assert Lsb(0) == 1.0 && Lsb(1) == 2.0 && Lsb(-1) == 0.5;
  }

  // ----------------------------------------------------------------- encoder

  /** Multiplication by a power of two below exponent 0, division from there on. */
  method Scale(value: real, exp: int) returns (scaled: real)
    requires -16 <= exp <= 15
    ensures Times(scaled, Lsb(exp)) == value
  {
    if exp < 0 {
      var p := Pow2(-exp);
      scaled := value * p;
      assert p * (1.0 / p) == 1.0;
      assert scaled * (1.0 / p) == value * (p * (1.0 / p));
    } else {
      var p := Pow2(exp);
      scaled := value / p;
    }
  }

  /** mp29526_float_to_linear11. */
  method FloatToLinear11(value: real) returns (ok: bool, out: nat)
    ensures ok <==> 0.0 <= value <= 33_521_664.0
    ensures ok ==> Encodes(value, out)
  {
    GreatestStep();
    hide Pow2, Lsb, Times, ExponentOf, MantissaOf;
    out := 0;
    if value < 0.0 {
      return false, 0;
    }
    var exp := -16;
    while exp <= 15
      invariant -16 <= exp <= 16
      invariant exp > -16 ==> value > 1023.0 * Lsb(exp - 1)
    {
      var scaled := Scale(value, exp);
      TimesConst(Lsb(exp));
      TimesLe(1023.0, scaled, Lsb(exp));
      if scaled > MANTISSA_MAX as real {
        exp := exp + 1;
        continue;
      }
      var mantissa := (scaled + 0.5).Floor;
      TimesLe(scaled, 1023.0, Lsb(exp));
      TimesLe(scaled, 0.0, Lsb(exp));
      Nearest(value, Lsb(exp), scaled, mantissa);
      WordFields(exp, mantissa);
      LsbGrows(exp, 15);
      return true, exp % 32 * 2048 + mantissa;
    }
    ok := false;
  }

  // ---------------------------------------------------------------- accuracy

  /** Above the range of the least exponent the error is less than one part in 1023. */
  lemma {:induction false} RelativeError(value: real, word: nat)
    requires Encodes(value, word) && value > 1023.0 * Lsb(-16)
    ensures -value < 1023.0 * (Decode(word) - value) < value
  {
    hide Pow2, Lsb, ExponentOf, MantissaOf, Decode;
    var e := ExponentOf(word);
    assert e > -16;
    LsbDoubles(e - 1);
  }

  /** 2 to the n as an integer. */
  function Steps(n: nat): nat {
    if n == 0 then 1 else 2 * Steps(n - 1)
  }

  lemma {:induction false} StepsAreSteps(n: nat)
    ensures Steps(n) as real == Pow2(n)
  {
    if n > 0 {
      StepsAreSteps(n - 1);
    }
  }

  /** Integers a mantissa can hold are encoded without loss. */
  lemma {:induction false} IntegersExact(n: nat, word: nat)
    requires n <= MANTISSA_MAX && Encodes(n as real, word)
    ensures Decode(word) == n as real
  {
    var e := ExponentOf(word);
    assert Lsb(0) == 1.0;
    hide MantissaOf, ExponentOf, Pow2, Lsb, Times;
    if e > 0 {
      LsbGrows(0, e - 1);
    }
    assert e <= 0;
    StepsOfInteger(n, e);
    NearestInteger(n * Steps(-e), MantissaOf(word), Lsb(e));
  }

  /** At or below exponent 0 an integer is a whole number of steps. */
  lemma StepsOfInteger(n: nat, e: int)
    requires -16 <= e <= 0
    ensures Times((n * Steps(-e)) as real, Lsb(e)) == n as real
  {
    hide Pow2, Steps;
    StepsAreSteps(-e);
    var p := Pow2(-e);
    if e < 0 {
      assert (n * Steps(-e)) as real == n as real * p;
      assert p * (1.0 / p) == 1.0;
      assert (n as real * p) * (1.0 / p) == n as real * (p * (1.0 / p));
    } else {
      assert Steps(0) == 1 by { StepsZero(); }
      assert Pow2(0) == 1.0 by { StepsZero(); }
    }
  }

  lemma StepsZero()
    ensures Steps(0) == 1 && Pow2(0) == 1.0
  {
  }

  /** Two whole numbers of steps less than one step apart are the same. */
  lemma NearestInteger(k: int, m: int, l: real)
    requires l > 0.0 && -0.5 * l < Times(m as real, l) - Times(k as real, l) <= 0.5 * l
    ensures m == k
  {
    hide Times;
    TimesMinus(m as real, k as real, l);
    TimesConst(l);
    TimesMinus(0.0, 1.0, l);
    TimesLe(1.0, (m - k) as real, l);
    TimesLe((m - k) as real, 0.0 - 1.0, l);
    assert (m - k) as real == m as real - k as real;
  }

  lemma {:induction false} SameExponent(value: real, v: nat, w: nat)
    requires Encodes(value, v) && Encodes(value, w)
    ensures ExponentOf(v) <= ExponentOf(w)
  {
    hide Pow2, Lsb, ExponentOf, MantissaOf, Decode;
    if ExponentOf(w) < ExponentOf(v) {
      LsbGrows(ExponentOf(w), ExponentOf(v) - 1);
    }
  }

  /** A value has at most one encoding. */
  lemma {:induction false} EncodingUnique(value: real, v: nat, w: nat)
    requires Encodes(value, v) && Encodes(value, w)
    ensures v == w
  {
    SameExponent(value, v, w);
    SameExponent(value, w, v);
    SameMantissa(value, v, w, Lsb(ExponentOf(v)));
    assert v / 2048 == w / 2048 && v % 2048 == w % 2048;
    assert v == v / 2048 * 2048 + v % 2048;
  }

  lemma {:induction false} SameMantissa(value: real, v: nat, w: nat, l: real)
    requires v < 0x1_0000 && w < 0x1_0000 && l > 0.0 && l == Lsb(ExponentOf(v)) == Lsb(ExponentOf(w))
    requires -0.5 * l < Decode(v) - value <= 0.5 * l && -0.5 * l < Decode(w) - value <= 0.5 * l
    ensures MantissaOf(v) == MantissaOf(w)
  {
    hide Times, Lsb, ExponentOf, MantissaOf;
    var m, k := MantissaOf(v), MantissaOf(w);
    TimesMinus(m as real, k as real, l);
    TimesConst(l);
    TimesMinus(0.0, 1.0, l);
    TimesLe(1.0, (m - k) as real, l);
    TimesLe((m - k) as real, 0.0 - 1.0, l);
    assert (m - k) as real == m as real - k as real;
  }

  /** Encoding what was decoded gives the same word back. */
  lemma EncodingStable(value: real, word: nat)
    requires Encodes(value, word)
    ensures Encodes(Decode(word), word)
  {
    hide Pow2, Lsb, ExponentOf, MantissaOf, Times;
    var e, m := ExponentOf(word), MantissaOf(word);
    var l := Lsb(e);
    TimesConst(l);
    TimesLe(m as real, 1023.0, l);
    if e > -16 {
      LsbDoubles(e - 1);
      // the value lies above 511.5 steps, so the mantissa is at least 512
      TimesLe(m as real, 511.0, l);
      TimesLe(512.0, m as real, l);
    }
  }
}
