// POST codes from the DMA ring of common/dev/pcc.c: decoding (data, port) pairs into 4-byte
// codes across callbacks, and storing them in the POST-code ring.
module Pcc {
  import opened CText
  import opened PostCodeRing
  import opened Modular

  /** One captured write: data byte, and the port in the low nibble of the address byte. */
  datatype Pair = Pair(data: byte, addr: byte)

  /** A 32-bit code as its bytes, least significant first. */
  datatype Code = Code(b0: byte, b1: byte, b2: byte, b3: byte)

  const ZERO := Code(0, 0, 0, 0)

  function Port(p: Pair): nat { p.addr % 16 }

  /** 2 to the number of bits. */
  function Limit(bits: nat): (l: nat)
    ensures l > 0
  {
    if bits == 0 then 1 else 2 * Limit(bits - 1)
  }

  /** Bitwise or of two numbers of a given width. */
  function OrBits(a: nat, b: nat, bits: nat): (r: nat)
    requires a < Limit(bits) && b < Limit(bits)
    ensures r < Limit(bits)
  {
    if a == 0 then b
    else if b == 0 then a
    else (if a % 2 == 1 || b % 2 == 1 then 1 else 0) + 2 * OrBits(a / 2, b / 2, bits - 1)
  }

  function Or(a: byte, b: byte): byte {
    assert Limit(8) == 256;
    OrBits(a, b, 8)
  }

  /** The accumulator once a data byte has been or-ed in, shifted to its port's place; a shift out
      of the word adds nothing. */
  function Merge(acc: Code, p: Pair): Code {
    if Port(p) == 0 then acc.(b0 := Or(acc.b0, p.data))
    else if Port(p) == 1 then acc.(b1 := Or(acc.b1, p.data))
    else if Port(p) == 2 then acc.(b2 := Or(acc.b2, p.data))
    else if Port(p) == 3 then acc.(b3 := Or(acc.b3, p.data))
    else acc
  }

  /** The codes a stream of pairs completes, given what earlier pairs have accumulated. */
  function Decode(acc: Code, ps: seq<Pair>): seq<Code>
    decreases |ps|
  {
    if ps == [] then []
    else if Port(ps[0]) == 3 then [Merge(acc, ps[0])] + Decode(ZERO, ps[1..])
    else Decode(Merge(acc, ps[0]), ps[1..])
  }

  /** What a stream of pairs leaves accumulated. */
  function Carry(acc: Code, ps: seq<Pair>): Code
    decreases |ps|
  {
    if ps == [] then acc
    else if Port(ps[0]) == 3 then Carry(ZERO, ps[1..])
    else Carry(Merge(acc, ps[0]), ps[1..])
  }

  /** The pairs of a 4-byte code, least significant byte at port 0x80 first. */
  function Quad(w: Code): seq<Pair> {
    [Pair(w.b0, 0x40), Pair(w.b1, 0x41), Pair(w.b2, 0x42), Pair(w.b3, 0x43)]
  }

  function Quads(ws: seq<Code>): seq<Pair> {
    if ws == [] then [] else Quad(ws[0]) + Quads(ws[1..])
  }

  function Concat(segs: seq<seq<Pair>>): seq<Pair> {
    if segs == [] then [] else segs[0] + Concat(segs[1..])
  }

  /** Several callbacks in a row; the accumulator survives between them. */
  function DecodeSegments(acc: Code, segs: seq<seq<Pair>>): seq<Code>
    decreases |segs|
  {
    if segs == [] then [] else Decode(acc, segs[0]) + DecodeSegments(Carry(acc, segs[0]), segs[1..])
  }

  // ------------------------------------------------------------------ lemmas

  lemma {:induction false} DecodeAppend(acc: Code, a: seq<Pair>, b: seq<Pair>)
    ensures Decode(acc, a + b) == Decode(acc, a) + Decode(Carry(acc, a), b)
    ensures Carry(acc, a + b) == Carry(Carry(acc, a), b)
    decreases |a|
  {
    hide Merge, Port;
    if a == [] {
      assert a + b == b;
      assert Decode(acc, a) == [] && Carry(acc, a) == acc;
    } else {
      var rest := (a + b)[1..];
      assert rest == a[1..] + b;
      assert (a + b)[0] == a[0];
      if Port(a[0]) == 3 {
        DecodeAppend(ZERO, a[1..], b);
      } else {
        DecodeAppend(Merge(acc, a[0]), a[1..], b);
      }
    }
  }

  lemma QuadDecodes(w: Code)
    ensures Decode(ZERO, Quad(w)) == [w] && Carry(ZERO, Quad(w)) == ZERO
  {
    var p0, p1, p2, p3 := Pair(w.b0, 0x40), Pair(w.b1, 0x41), Pair(w.b2, 0x42), Pair(w.b3, 0x43);
    PortBits(w);
    hide Or, Decode, Carry;
    OneStep(Code(w.b0, w.b1, w.b2, 0), p3, []);
    OneStep(Code(w.b0, w.b1, 0, 0), p2, [p3]);
    OneStep(Code(w.b0, 0, 0, 0), p1, [p2, p3]);
    OneStep(ZERO, p0, [p1, p2, p3]);
    assert [p2] + [p3] == [p2, p3] && [p1] + [p2, p3] == [p1, p2, p3] && [p0] + [p1, p2, p3] == Quad(w);
    DecodeNothing(ZERO);
    assert [p3] + [] == [p3];
    OrZero(w.b0);
    OrZero(w.b1);
    OrZero(w.b2);
    OrZero(w.b3);
  }

  lemma OrZero(b: byte)
    ensures Or(0, b) == b
  {
  }

  lemma OneStep(acc: Code, p: Pair, rest: seq<Pair>)
    ensures Port(p) == 3 ==> Decode(acc, [p] + rest) == [Merge(acc, p)] + Decode(ZERO, rest) && Carry(acc, [p] + rest) == Carry(ZERO, rest)
    ensures Port(p) != 3 ==> Decode(acc, [p] + rest) == Decode(Merge(acc, p), rest) && Carry(acc, [p] + rest) == Carry(Merge(acc, p), rest)
  {
    hide Merge, Port;
    assert ([p] + rest)[1..] == rest;
  }

  lemma PortBits(w: Code)
    ensures Port(Pair(w.b0, 0x40)) == 0 && Port(Pair(w.b1, 0x41)) == 1
    ensures Port(Pair(w.b2, 0x42)) == 2 && Port(Pair(w.b3, 0x43)) == 3
  {
  }

  lemma {:induction false} QuadsDecode(ws: seq<Code>)
    ensures Decode(ZERO, Quads(ws)) == ws && Carry(ZERO, Quads(ws)) == ZERO
    decreases |ws|
  {
    hide Merge, Port, Quad;
    if ws != [] {
      QuadDecodes(ws[0]);
      QuadsDecode(ws[1..]);
      DecodeAppend(ZERO, Quad(ws[0]), Quads(ws[1..]));
      assert [ws[0]] + ws[1..] == ws;
    }
  }

  lemma {:induction false} SegmentsDecode(acc: Code, segs: seq<seq<Pair>>)
    ensures DecodeSegments(acc, segs) == Decode(acc, Concat(segs))
    decreases |segs|
  {
    hide Decode, Carry, Port;
    if segs == [] {
      assert Decode(acc, []) == [] by { DecodeNothing(acc); }
    } else {
      SegmentsDecode(Carry(acc, segs[0]), segs[1..]);
      DecodeAppend(acc, segs[0], Concat(segs[1..]));
    }
  }

  lemma DecodeNothing(acc: Code)
    ensures Decode(acc, []) == [] && Carry(acc, []) == acc
  {
  }

  /** DMA decode.  However the pairs of a list of 4-byte codes are spread over callbacks, even
      in the middle of a code, the callbacks together deliver exactly those codes. */
  lemma DecodeAnySegmentation(ws: seq<Code>, segs: seq<seq<Pair>>)
    requires Concat(segs) == Quads(ws)
    ensures DecodeSegments(ZERO, segs) == ws
  {
    QuadsDecode(ws);
    SegmentsDecode(ZERO, segs);
  }

  /** Bit k of a number. */
  predicate Bit(v: nat, k: nat) { v / Limit(k) % 2 == 1 }

  /** Or sets the bits of both. */
  lemma {:induction false} OrBitsIsOr(a: nat, b: nat, bits: nat, k: nat)
    requires a < Limit(bits) && b < Limit(bits)
    ensures Bit(OrBits(a, b, bits), k) <==> Bit(a, k) || Bit(b, k)
    decreases bits
  {
    BitStep(a, k);
    BitStep(b, k);
    BitStep(OrBits(a, b, bits), k);
    NoBits(k);
    hide Bit;
    if a != 0 && b != 0 {
      var low := if a % 2 == 1 || b % 2 == 1 then 1 else 0;
      var r := OrBits(a / 2, b / 2, bits - 1);
      assert OrBits(a, b, bits) == low + 2 * r;
      Halved(low, r);
      if k > 0 {
        OrBitsIsOr(a / 2, b / 2, bits - 1, k - 1);
      }
    }
  }

  lemma Halved(low: nat, r: nat)
    requires low < 2
    ensures (low + 2 * r) % 2 == low && (low + 2 * r) / 2 == r
  {
  }

  lemma NoBits(k: nat)
    ensures !Bit(0, k)
  {
  }

  lemma BitStep(v: nat, k: nat)
    ensures k == 0 ==> (Bit(v, k) <==> v % 2 == 1)
    ensures k > 0 ==> (Bit(v, k) <==> Bit(v / 2, k - 1))
  {
    if k > 0 {
      HalfFirst(v, k);
    }
  }

  lemma HalfFirst(v: nat, k: nat)
    requires k > 0
    ensures v / Limit(k) == v / 2 / Limit(k - 1)
  {
    var l := Limit(k - 1);
    var q, r := v / 2 / l, v / 2 % l;
    assert v == 2 * (v / 2) + v % 2;
    assert v / 2 == l * q + r;
    assert v == 2 * l * q + (2 * r + v % 2);
    DivModUnique(v, 2 * l, q, 2 * r + v % 2);
  }

  /** A byte written twice to a port leaves the bits of both in the code. */
  lemma OrIsOr(a: byte, b: byte, k: nat)
    ensures Bit(Or(a, b), k) <==> Bit(a, k) || Bit(b, k)
  {
    assert Limit(8) == 256;
    OrBitsIsOr(a, b, 8, k);
  }

  // ------------------------------------------------------ the circular buffer

  /** Bytes from i forward to ed in a ring of n, a whole turn when they coincide. */
  function Distance(i: nat, ed: nat, n: nat): (d: nat)
    requires i < n && ed < n
    ensures 0 < d <= n
  {
    if i < ed then ed - i else ed + n - i
  }

  predicate RingOk(n: nat, i: nat, ed: nat) {
    n > 0 && n % 2 == 0 && i % 2 == 0 && ed % 2 == 0 && i < n && ed < n
  }

  /** The next pair's position, (i + 2) modulo the ring size. */
  function After(i: nat, n: nat): (j: nat)
    requires n > 0 && n % 2 == 0 && i % 2 == 0 && i < n
    ensures j < n && j % 2 == 0
  {
    if i + 2 < n then i + 2 else 0
  }

  lemma {:induction false} AfterIsMod(i: nat, n: nat)
    requires n > 0 && n % 2 == 0 && i % 2 == 0 && i < n
    ensures (i + 2) % n == After(i, n)
  {
    if i + 2 < n {
      ModSmall(i + 2, n);
    } else {
      ModWrap(0, n);
    }
  }

  /** The pairs a callback reads. */
  function ReadRing(rb: seq<byte>, i: nat, ed: nat): (ps: seq<Pair>)
    requires RingOk(|rb|, i, ed)
    ensures ps != []
    decreases Distance(i, ed, |rb|)
  {
    var next := After(i, |rb|);
    [Pair(rb[i], rb[i + 1])] + (if next == ed then [] else ReadRing(rb, next, ed))
  }

  /** Position of the k-th pair after st. */
  function PairAt(n: nat, st: nat, k: nat): (i: nat)
    requires RingOk(n, st, 0) && 2 * k < n
    ensures i < n && i % 2 == 0
  {
    if st + 2 * k < n then st + 2 * k else st + 2 * k - n
  }

  /** The DMA engine has written seg, starting at st. */
  ghost predicate Wrote(rb: seq<byte>, st: nat, seg: seq<Pair>) {
    RingOk(|rb|, st, 0) && 2 * |seg| <= |rb| &&
    forall k {:trigger seg[k]} :: 0 <= k < |seg| ==>
      Pair(rb[PairAt(|rb|, st, k)], rb[PairAt(|rb|, st, k) + 1]) == seg[k]
  }

  /** Where a segment of len pairs ends, (st + 2 len) modulo the ring size. */
  function EndOf(n: nat, st: nat, len: nat): (ed: nat)
    requires RingOk(n, st, 0) && 0 < 2 * len <= n
    ensures ed < n && ed % 2 == 0 && ed == (st + 2 * len) % n
  {
    if st + 2 * len < n then ModSmall(st + 2 * len, n); st + 2 * len
    else ModWrap(st + 2 * len - n, n); st + 2 * len - n
  }

  /** A callback over [st, ed) reads back what was written there, wrapped or not. */
  lemma {:induction false} ReadRingIsSegment(rb: seq<byte>, st: nat, seg: seq<Pair>, ed: nat)
    requires seg != [] && Wrote(rb, st, seg) && ed < |rb|
    requires ed == EndOf(|rb|, st, |seg|)
    ensures RingOk(|rb|, st, ed) && ReadRing(rb, st, ed) == seg
    decreases |seg|
  {
    var n := |rb|;
    var next := After(st, n);
    assert PairAt(n, st, 0) == st && seg[0] == Pair(rb[st], rb[st + 1]);
    if |seg| == 1 {
      assert seg == [seg[0]];
    } else {
      var rest := seg[1..];
      forall k {:trigger rest[k]} | 0 <= k < |rest|
        ensures Pair(rb[PairAt(n, next, k)], rb[PairAt(n, next, k) + 1]) == rest[k]
      {
        assert rest[k] == seg[k + 1];
        assert PairAt(n, next, k) == PairAt(n, st, k + 1);
      }
      ReadRingIsSegment(rb, next, rest, ed);
      assert [seg[0]] + rest == seg;
    }
  }

  // ------------------------------------------------------------- imperative

  function Accepted(filter: Code -> bool, codes: seq<Code>): seq<Code> {
    if codes == [] then []
    else (if filter(codes[0]) then [codes[0]] else []) + Accepted(filter, codes[1..])
  }

  /** What the filter lets through: each code it accepts as often as it came, no other, */
  lemma {:induction false} AcceptedExactly(filter: Code -> bool, codes: seq<Code>, c: Code)
    ensures multiset(Accepted(filter, codes))[c] == if filter(c) then multiset(codes)[c] else 0
    decreases |codes|
  {
    AcceptedNone(filter);
    hide Accepted;
    if codes == [] {
      assert codes == [];
    } else {
      var first, rest := codes[0], codes[1..];
      AcceptedExactly(filter, rest, c);
      assert codes == [first] + rest;
      AcceptedStep(filter, first, rest);
    }
  }

  lemma AcceptedNone(filter: Code -> bool)
    ensures Accepted(filter, []) == []
  {
  }

  /** and in the order they came. */
  lemma {:induction false} AcceptedInOrder(filter: Code -> bool, a: seq<Code>, b: seq<Code>)
    ensures Accepted(filter, a + b) == Accepted(filter, a) + Accepted(filter, b)
    decreases |a|
  {
    AcceptedNone(filter);
    hide Accepted;
    if a == [] {
      assert a + b == b;
    } else {
      var first, rest := a[0], a[1..];
      assert a == [first] + rest && a + b == [first] + (rest + b);
      AcceptedInOrder(filter, rest, b);
      AcceptedStep(filter, first, rest);
      AcceptedStep(filter, first, rest + b);
      if filter(first) {
        assert [first] + (Accepted(filter, rest) + Accepted(filter, b)) == [first] + Accepted(filter, rest) + Accepted(filter, b);
      }
    }
  }

  function Insertions(codes: seq<Code>): seq<Event<Code>> {
    if codes == [] then [] else Insertions(codes[..|codes| - 1]) + [Inserted(codes[|codes| - 1])]
  }

  /** Storing codes one after the other is a run of insertions, so the ring is their history. */
  lemma {:induction false} InsertAllIsRun(r: Ring<Code>, codes: seq<Code>)
    requires Shaped(r)
    ensures InsertAll(r, codes) == Run(r, Insertions(codes))
    ensures r.len == 0 ==> Holds(InsertAll(r, codes), codes)
    decreases |codes|
  {
    hide Insert;
    if codes != [] {
      var pre, c := codes[..|codes| - 1], codes[|codes| - 1];
      assert codes == pre + [c];
      InsertAllIsRun(r, pre);
      InsertLast(r, pre, c);
      assert Insertions(codes)[..|Insertions(codes)| - 1] == Insertions(pre);
      if r.len == 0 {
        InsertHolds(InsertAll(r, pre), pre, c);
      }
    } else {
      HoldsNothing(r);
    }
  }

  lemma HoldsNothing(r: Ring<Code>)
    requires Shaped(r)
    ensures r.len == 0 ==> Holds(r, [])
  {
  }

  lemma {:induction false} InsertLast(r: Ring<Code>, codes: seq<Code>, c: Code)
    requires Shaped(r)
    ensures InsertAll(r, codes + [c]) == Insert(InsertAll(r, codes), c)
    decreases |codes|
  {
    hide Insert;
    if codes == [] {
      assert codes + [c] == [c] && [c][1..] == [];
    } else {
      assert (codes + [c])[1..] == codes[1..] + [c];
      InsertLast(Insert(r, codes[0]), codes[1..], c);
    }
  }

  function InsertAll(r: Ring<Code>, codes: seq<Code>): (q: Ring<Code>)
    requires Shaped(r)
    ensures Shaped(q) && |q.slots| == |r.slots|
    decreases |codes|
  {
    if codes == [] then r else InsertAll(Insert(r, codes[0]), codes[1..])
  }

  /** The slots from a send index up to the write index. */
  function Between<T>(slots: seq<T>, from: nat, to: nat): seq<T>
    requires from < |slots| && to < |slots|
  {
    if from <= to then slots[from..to] else slots[from..] + slots[..to]
  }

  lemma AcceptedStep(filter: Code -> bool, code: Code, rest: seq<Code>)
    ensures Accepted(filter, [code] + rest) == (if filter(code) then [code] + Accepted(filter, rest) else Accepted(filter, rest))
  {
    assert ([code] + rest)[1..] == rest;
  }

  lemma AcceptedNothing(filter: Code -> bool, r: Ring<Code>)
    requires Shaped(r)
    ensures Accepted(filter, []) == [] && InsertAll(r, []) == r
  {
  }

  lemma InsertAllStep(r: Ring<Code>, code: Code, rest: seq<Code>)
    requires Shaped(r)
    ensures InsertAll(r, [code] + rest) == InsertAll(Insert(r, code), rest)
  {
    assert ([code] + rest)[1..] == rest;
  }

  lemma ReadRingHead(rb: seq<byte>, i: nat, ed: nat)
    requires RingOk(|rb|, i, ed)
    ensures var ps := ReadRing(rb, i, ed);
            ps[0] == Pair(rb[i], rb[i + 1]) &&
            ps[1..] == (if After(i, |rb|) == ed then [] else ReadRing(rb, After(i, |rb|), ed))
  {
  }

  lemma BetweenSelf<T>(slots: seq<T>, at: nat)
    requires at < |slots|
    ensures Between(slots, at, at) == []
  {
  }

  lemma {:induction false} BetweenStep<T>(slots: seq<T>, from: nat, to: nat)
    requires from < |slots| && to < |slots| && from != to
    ensures (from + 1) % |slots| == if from + 1 == |slots| then 0 else from + 1
    ensures (from + 1) % |slots| < |slots|
    ensures Between(slots, from, to) == [slots[from]] + Between(slots, (from + 1) % |slots|, to)
  {
    if from + 1 == |slots| {
      ModWrap(0, |slots|);
    } else {
      ModSmall(from + 1, |slots|);
    }
  }

  class PccDevice {
    const ring: CodeRing<Code>
    const filter: Code -> bool
    var fourByteData: Code
    var sem: nat
    var codeSeen: bool

    ghost predicate Valid()
      reads this, ring
    {
      ring.Valid() && sem <= 1
    }

    constructor (capacity: nat, filter: Code -> bool)
      requires capacity > 0
      ensures Valid() && fresh(ring) && fresh(ring.data)
      ensures fourByteData == ZERO && sem == 0 && this.filter == filter
    {
      this.filter := filter;
      fourByteData, sem, codeSeen := ZERO, 0, false;
      ring := new CodeRing(capacity);
    }

    /** The body of the callback's loop: one pair. */
    method TakePair(p: Pair, ghost ps: seq<Pair>)
      requires Valid() && ps != [] && ps[0] == p
      modifies this`fourByteData, ring, ring.data
      ensures Valid()
      ensures InsertAll(ring.State(), Accepted(filter, Decode(fourByteData, ps[1..]))) ==
              InsertAll(old(ring.State()), Accepted(filter, Decode(old(fourByteData), ps)))
      ensures Carry(fourByteData, ps[1..]) == Carry(old(fourByteData), ps)
    {
      hide Merge, Insert, Port;
      ghost var rest := ps[1..];
      fourByteData := Merge(fourByteData, p);
      if Port(p) == 3 {
        AcceptedStep(filter, fourByteData, Decode(ZERO, rest));
        if filter(fourByteData) {
          InsertAllStep(ring.State(), fourByteData, Accepted(filter, Decode(ZERO, rest)));
          ring.Put(fourByteData);
        }
        fourByteData := ZERO;
      }
    }

    /** pcc_rx_callback. */
    method RxCallback(rb: seq<byte>, st: nat, ed: nat)
      requires Valid() && RingOk(|rb|, st, ed)
      modifies this, ring, ring.data
      ensures Valid() && sem == 1 && codeSeen
      ensures var ps := ReadRing(rb, st, ed);
              ring.State() == InsertAll(old(ring.State()), Accepted(filter, Decode(old(fourByteData), ps))) &&
              fourByteData == Carry(old(fourByteData), ps)
    {
      hide Merge, Insert, Decode, Carry, Accepted, InsertAll, ReadRing;
      ghost var all := ReadRing(rb, st, ed);
      ghost var ps := all;
      var i: nat := st;
      codeSeen := true;
      var more := true;
      while more
        invariant Valid() && codeSeen
        invariant more ==> RingOk(|rb|, i, ed) && ps == ReadRing(rb, i, ed)
        invariant !more ==> ps == []
        invariant more ==> ps != []
        invariant InsertAll(ring.State(), Accepted(filter, Decode(fourByteData, ps))) ==
                  InsertAll(old(ring.State()), Accepted(filter, Decode(old(fourByteData), all)))
        invariant Carry(fourByteData, ps) == Carry(old(fourByteData), all)
        decreases |ps|
      {
        ReadRingHead(rb, i, ed);
        TakePair(Pair(rb[i], rb[i + 1]), ps);
        ps := ps[1..];
        AfterIsMod(i, |rb|);
        i := (i + 2) % |rb|;
        more := i != ed;
      }
      DecodeNothing(fourByteData);
      AcceptedNothing(filter, ring.State());
      sem := 1;
    }

    /** One round of process_postcode: take the semaphore, snapshot the write index, send
        everything up to it. */
    method ProcessRound(sendIndex: nat) returns (next: nat, sent: seq<Code>)
      requires Valid() && sem == 1 && sendIndex < ring.data.Length
      modifies this`sem
      ensures Valid() && sem == 0
      ensures next == ring.index && sent == Between(ring.data[..], sendIndex, ring.index)
    {
      hide Between;
      sem := 0;
      var snapshot := ring.index;
      ghost var slots := ring.data[..];
      ghost var rest := Between(slots, sendIndex, snapshot);
      next := sendIndex;
      sent := [];
      while next != snapshot
        invariant next < |slots| == ring.data.Length && rest == Between(slots, next, snapshot)
        invariant Valid() && sem == 0
        invariant sent + rest == Between(slots, sendIndex, snapshot)
        decreases |rest|
      {
        BetweenStep(slots, next, snapshot);
        sent := sent + [ring.data[next]];
        next := (next + 1) % ring.data.Length;
        rest := rest[1..];
      }
      BetweenSelf(slots, next);
    }
  }
}
