// Energy and sample counters that wrap: the READ_EIN pollers of common/dev/mp5990.c,
// rs31380r.c, adm1278.c and adm1272.c, and the 32-bit package energy counter of
// common/dev/intel_peci.c.
module EnergyCounters {
  import opened Modular

  // ------------------------------------------------------------ READ_EIN spec

  /** Moduli of a part: energy accumulator, rollover counter, sample counter.  0x8000, 0x100 and
      0x100_0000 for the MP5990 and RS31380R, 0x80_0000, 0x1_0000 and 0x100_0000 for the ADM1278. */
  datatype Moduli = Moduli(energy: nat, rollover: nat, sample: nat)

  /** Energy after which the energy and rollover registers repeat. */
  function Period(m: Moduli): nat { m.energy * m.rollover }

  predicate ModuliOk(m: Moduli) { m.energy > 0 && m.rollover > 0 && m.sample > 0 }

  /** One register reading. */
  datatype Reading = Reading(energy: nat, rollover: nat, sample: nat)

  /** The registers of a device that has accumulated a true total. */
  function Shows(m: Moduli, energy: nat, samples: nat): Reading
    requires ModuliOk(m)
  {
    Reading(energy % m.energy, energy / m.energy % m.rollover, samples % m.sample)
  }

  /** The wrap-corrected energy difference of two readings. */
  function EnergyDiff(m: Moduli, pre: Reading, cur: Reading): int {
    var wrapped := pre.rollover > cur.rollover || (pre.rollover == cur.rollover && pre.energy > cur.energy);
    ((if wrapped then cur.rollover + m.rollover else cur.rollover) - pre.rollover) * m.energy + cur.energy - pre.energy
  }

  function SampleDiff(m: Moduli, pre: Reading, cur: Reading): int {
    (if pre.sample > cur.sample then cur.sample + m.sample else cur.sample) - pre.sample
  }

  // ----------------------------------------------------------------- lemmas

  /** A difference corrected by one wrap is the true difference modulo the period. */
  lemma {:induction false} WrapIsMod(a: nat, b: nat, n: nat)
    requires n > 0 && a <= b
    ensures (if a % n > b % n then b % n + n else b % n) - a % n == (b - a) % n
  {
    var p, q := a / n, b / n;
    var d := if a % n > b % n then b % n + n - a % n else b % n - a % n;
    if a % n > b % n {
      assert b - a == n * (q - p - 1) + d;
      DivModUnique(b - a, n, q - p - 1, d);
    } else {
      assert b - a == n * (q - p) + d;
      DivModUnique(b - a, n, q - p, d);
    }
  }

  /** Energy and rollover registers together count modulo their product. */
  lemma {:induction false} Combined(t: nat, e: nat, r: nat)
    requires e > 0 && r > 0
    ensures e * r > 0 && t % (e * r) == e * (t / e % r) + t % e
  {
    var q, s := t / e, t % e;
    var u, v := q / r, q % r;
    MulAtLeast(e, r);
    assert t == e * q + s && q == r * u + v;
    assert e * q == e * (r * u) + e * v;
    assert e * (r * u) == (e * r) * u;
    assert e * v <= e * (r - 1) by { MulMono(e, v, r - 1); }
    assert e * (r - 1) == e * r - e;
    DivModUnique(t, e * r, u, e * v + s);
  }

  lemma MulMono(e: nat, a: int, b: int)
    requires a <= b
    ensures e * a <= e * b
  {
    assert e * (b - a) >= 0 by { MulNonNegative(e, b - a); }
    assert e * (b - a) == e * b - e * a;
  }

  lemma MulNonNegative(a: nat, b: nat)
    ensures a * b >= 0
  {
  }

  /** The computed energy difference is the true one modulo the full period, the sample
      difference likewise; neither is ever negative. */
  lemma {:induction false} DiffIsMod(m: Moduli, e0: nat, e1: nat, n0: nat, n1: nat)
    requires ModuliOk(m) && e0 <= e1 && n0 <= n1
    ensures m.energy * m.rollover > 0
    ensures EnergyDiff(m, Shows(m, e0, n0), Shows(m, e1, n1)) == (e1 - e0) % (m.energy * m.rollover)
    ensures SampleDiff(m, Shows(m, e0, n0), Shows(m, e1, n1)) == (n1 - n0) % m.sample
  {
    WrapIsMod(n0, n1, m.sample);
    EnergyDiffIsMod(m, e0, e1, n0, n1);
  }

  lemma {:induction false} EnergyDiffIsMod(m: Moduli, e0: nat, e1: nat, n0: nat, n1: nat)
    requires ModuliOk(m) && e0 <= e1
    ensures m.energy * m.rollover > 0
    ensures EnergyDiff(m, Shows(m, e0, n0), Shows(m, e1, n1)) == (e1 - e0) % (m.energy * m.rollover)
  {
    var e, r := m.energy, m.rollover;
    var h0, l0, h1, l1 := e0 / e % r, e0 % e, e1 / e % r, e1 % e;
    Combined(e0, e, r);
    Combined(e1, e, r);
    WrapIsMod(e0, e1, e * r);
    EnergyParts(e, r, h0, l0, h1, l1);
    assert Shows(m, e0, n0).rollover == h0 && Shows(m, e1, n1).rollover == h1;
    assert Shows(m, e0, n0).energy == l0 && Shows(m, e1, n1).energy == l1;
  }

  lemma {:induction false} EnergyParts(e: nat, r: nat, h0: nat, l0: nat, h1: nat, l1: nat)
    requires l0 < e && l1 < e
    ensures var wrapped := h0 > h1 || (h0 == h1 && l0 > l1);
            ((if wrapped then h1 + r else h1) - h0) * e + l1 - l0 ==
            (if e * h0 + l0 > e * h1 + l1 then e * h1 + l1 + e * r else e * h1 + l1) - (e * h0 + l0)
  {
    CompareParts(e, h0, l0, h1, l1);
    Expand(e, h1 + r, h0);
    Expand(e, h1, h0);
    Plus(e, h1, r);
  }

  lemma Expand(e: int, a: int, b: int)
    ensures (a - b) * e == e * a - e * b
  {
  }

  lemma Plus(e: int, a: int, b: int)
    ensures e * (a + b) == e * a + e * b
  {
  }

  /** Comparing high part first is comparing the combined count. */
  lemma {:induction false} CompareParts(e: nat, h0: nat, l0: nat, h1: nat, l1: nat)
    requires l0 < e && l1 < e
    ensures e * h0 + l0 > e * h1 + l1 <==> h0 > h1 || (h0 == h1 && l0 > l1)
  {
    if h0 > h1 {
      MulMono(e, h1 + 1, h0);
      assert e * (h1 + 1) == e * h1 + e;
    } else if h0 < h1 {
      MulMono(e, h0 + 1, h1);
      assert e * (h0 + 1) == e * h0 + e;
    }
  }

  /** Exactness: a difference is the true advance exactly when that is less than a full period. */
  lemma {:induction false} DiffExactly(m: Moduli, e0: nat, e1: nat, n0: nat, n1: nat)
    requires ModuliOk(m) && e0 <= e1 && n0 <= n1
    ensures EnergyDiff(m, Shows(m, e0, n0), Shows(m, e1, n1)) == e1 - e0 <==> e1 - e0 < Period(m)
    ensures SampleDiff(m, Shows(m, e0, n0), Shows(m, e1, n1)) == n1 - n0 <==> n1 - n0 < m.sample
  {
    DiffIsMod(m, e0, e1, n0, n1);
    if e1 - e0 < Period(m) {
      ModSmall(e1 - e0, Period(m));
    }
    if n1 - n0 < m.sample {
      ModSmall(n1 - n0, m.sample);
    }
  }

  /** True totals of a device. */
  datatype Total = Total(energy: nat, samples: nat)

  function Reads(m: Moduli, t: Total): Reading
    requires ModuliOk(m)
  {
    Shows(m, t.energy, t.samples)
  }

  predicate Advance(m: Moduli, a: Total, b: Total) {
    a.energy <= b.energy < a.energy + Period(m) && a.samples <= b.samples < a.samples + m.sample
  }

  /** Totals at successive polls: never falling, and advancing by less than a period. */
  predicate SlowEnough(m: Moduli, totals: seq<Total>)
    requires |totals| > 0
  {
    var n := |totals|;
    n == 1 || (SlowEnough(m, totals[..n - 1]) && Advance(m, totals[n - 2], totals[n - 1]))
  }

  /** Sum of the differences computed over successive polls. */
  function EnergySum(m: Moduli, totals: seq<Total>): int
    requires ModuliOk(m) && |totals| > 0
  {
    var n := |totals|;
    if n == 1 then 0
    else EnergySum(m, totals[..n - 1]) + EnergyDiff(m, Reads(m, totals[n - 2]), Reads(m, totals[n - 1]))
  }

  function SampleSum(m: Moduli, totals: seq<Total>): int
    requires ModuliOk(m) && |totals| > 0
  {
    var n := |totals|;
    if n == 1 then 0
    else SampleSum(m, totals[..n - 1]) + SampleDiff(m, Reads(m, totals[n - 2]), Reads(m, totals[n - 1]))
  }

  /** Energy conservation: polled often enough, the computed differences add up to the energy
      and the samples that have passed since the first poll. */
  lemma {:induction false} EnergyConserved(m: Moduli, totals: seq<Total>)
    requires ModuliOk(m) && |totals| > 0 && SlowEnough(m, totals)
    ensures EnergySum(m, totals) == totals[|totals| - 1].energy - totals[0].energy
    ensures SampleSum(m, totals) == totals[|totals| - 1].samples - totals[0].samples
    decreases |totals|
  {
    hide Shows, EnergyDiff, SampleDiff, Period;
    var n := |totals|;
    if n > 1 {
      var a, b := totals[n - 2], totals[n - 1];
      DiffExactly(m, a.energy, b.energy, a.samples, b.samples);
      EnergyConserved(m, totals[..n - 1]);
    }
  }

  // ---------------------------------------------------------------- pollers

  /** The static history of a *_read_ein function. */
  class EinPoller {
    const moduli: Moduli
    var last: Reading
    var primed: bool

    constructor (moduli: Moduli)
      ensures !primed && this.moduli == moduli
    {
      this.moduli := moduli;
      last, primed := Reading(0, 0, 0), false;
    }

    /** One poll: the reading becomes the history whatever happens; the first poll, a negative
        energy difference and a zero sample difference give no value. */
    method ReadEin(cur: Reading) returns (ok: bool, val: real)
      modifies this
      ensures last == cur && primed
      ensures var e, n := EnergyDiff(moduli, old(last), cur), SampleDiff(moduli, old(last), cur);
              (ok <==> old(primed) && e >= 0 && n != 0) &&
              (ok ==> n != 0 && val == e as real / n as real)
    {
      var pre := last;
      last := cur;
      val := 0.0;
      if !primed {
        primed := true;
        return false, 0.0;
      }
      var rollover, sample := cur.rollover, cur.sample;
      if pre.rollover > rollover || (pre.rollover == rollover && pre.energy > cur.energy) {
        rollover := rollover + moduli.rollover;
      }
      if pre.sample > sample {
        sample := sample + moduli.sample;
      }
      var energyDiff := (rollover - pre.rollover) * moduli.energy + cur.energy - pre.energy;
      if energyDiff < 0 {
        return false, 0.0;
      }
      var sampleDiff := sample - pre.sample;
      if sampleDiff == 0 {
        return false, 0.0;
      }
      val := energyDiff as real / sampleDiff as real;
      ok := true;
    }
  }

  // -------------------------------------------------------- 32-bit counters

  const WORD: nat := 0x1_0000_0000

  /** The difference the package power reader computes. */
  function Diff32(last: nat, cur: nat): int
    requires last < WORD && cur < WORD
  {
    if cur >= last then cur - last else cur + (0xFFFF_FFFF - last + 1)
  }

  /** It is the true advance modulo 2^32, so the true one exactly below 2^32. */
  lemma Diff32Exactly(a: nat, b: nat)
    requires a <= b
    ensures Diff32(a % 0x1_0000_0000, b % 0x1_0000_0000) == (b - a) % 0x1_0000_0000
    ensures Diff32(a % 0x1_0000_0000, b % 0x1_0000_0000) == b - a <==> b - a < 0x1_0000_0000
  {
    WrapIsMod(a, b, WORD);
  }

  class PeciPoller {
    var lastEnergy: nat
    var lastTime: nat

    ghost predicate Valid()
      reads this
    {
      lastEnergy < WORD && lastTime < WORD
    }

    constructor ()
      ensures Valid() && lastEnergy == 0 && lastTime == 0
    {
      lastEnergy, lastTime := 0, 0;
    }

    /** read_cpu_power once both counters are read: a history of two zeros means "no history". */
    method ReadPower(energy: nat, time: nat) returns (ok: bool, diffEnergy: nat, diffTime: nat)
      requires Valid() && energy < WORD && time < WORD
      modifies this
      ensures Valid() && lastEnergy == energy && lastTime == time
      ensures ok <==> !(old(lastEnergy) == 0 && old(lastTime) == 0) && time != old(lastTime)
      ensures ok ==> diffEnergy == Diff32(old(lastEnergy), energy) && diffTime == Diff32(old(lastTime), time)
    {
      diffEnergy, diffTime := 0, 0;
      if lastEnergy == 0 && lastTime == 0 {
        lastEnergy, lastTime := energy, time;
        return false, 0, 0;
      }
      if energy >= lastEnergy {
        diffEnergy := energy - lastEnergy;
      } else {
        diffEnergy := energy + (0xFFFF_FFFF - lastEnergy + 1);
      }
      lastEnergy := energy;
      if time >= lastTime {
        diffTime := time - lastTime;
      } else {
        diffTime := time + (0xFFFF_FFFF - lastTime + 1);
      }
      lastTime := time;
      ok := diffTime != 0;
    }
  }

  /** The DIMM reader scales the difference by 1000 in the same 32-bit word: it is the scaled
      true advance exactly below 2^32 / 1000. */
  lemma ScaledExactly(a: nat, b: nat)
    requires a <= b < a + WORD
    ensures Diff32(a % WORD, b % WORD) * 1000 % WORD == (b - a) * 1000 <==> b - a <= 4_294_967
  {
    Diff32Exactly(a, b);
    ModSmall(0, WORD);
  }

  /** read_total_dimm_power once the counter and the uptime are read. */
  class DimmPoller {
    var lastEnergy: nat
    var lastTime: nat

    ghost predicate Valid()
      reads this
    {
      lastEnergy < WORD && lastTime < WORD
    }

    constructor ()
      ensures Valid() && lastEnergy == 0 && lastTime == 0
    {
      lastEnergy, lastTime := 0, 0;
    }

    /** The time difference is a plain subtraction in 32 bits. */
    method ReadPower(energy: nat, time: nat) returns (ok: bool, diffEnergy: nat, diffTime: nat)
      requires Valid() && energy < WORD && time < WORD
      modifies this
      ensures Valid() && lastEnergy == energy && lastTime == time
      ensures ok <==> !(old(lastEnergy) == 0 && old(lastTime) == 0) && time != old(lastTime)
      ensures ok ==> diffEnergy == Diff32(old(lastEnergy), energy) * 1000 % WORD && diffTime == Diff32(old(lastTime), time)
    {
      diffEnergy, diffTime := 0, 0;
      if lastEnergy == 0 && lastTime == 0 {
        lastEnergy, lastTime := energy, time;
        return false, 0, 0;
      }
      if energy >= lastEnergy {
        diffEnergy := energy - lastEnergy;
      } else {
        diffEnergy := energy + (0xFFFF_FFFF - lastEnergy + 1);
      }
      lastEnergy := energy;
      diffTime := (time - lastTime) % WORD;
      lastTime := time;
      if diffTime == 0 {
        return false, 0, 0;
      }
      diffEnergy := diffEnergy * 1000 % WORD;
      ok := true;
    }
  }
}
