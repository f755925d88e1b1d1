// The POST-code rings of common/dev/pcc.c and common/dev/sbmr.c: a wrapping write index, a
// saturating length, and a copy that walks back from the newest code.
module PostCodeRing {
  import opened CText

  // ------------------------------------------------------------------- spec

  datatype Ring<T> = Ring(slots: seq<T>, len: nat, index: nat)

  predicate Shaped<T>(r: Ring<T>) {
    |r.slots| > 0 && r.index < |r.slots| && r.len <= |r.slots|
  }

  function Insert<T>(r: Ring<T>, code: T): (q: Ring<T>)
    requires Shaped(r)
    ensures Shaped(q) && |q.slots| == |r.slots|
  {
    Ring(r.slots[r.index := code],
         if r.len < |r.slots| then r.len + 1 else r.len,
         if r.index + 1 == |r.slots| then 0 else r.index + 1)
  }

  /** Reset forgets the codes but leaves the write index where it is. */
  function Reset<T>(r: Ring<T>): (q: Ring<T>)
    requires Shaped(r)
    ensures Shaped(q) && |q.slots| == |r.slots|
  {
    r.(len := 0)
  }

  /** Number of codes a copy request is answered with. */
  function Answered(len: nat, start: nat, length: nat): nat {
    if start >= len then 0 else if length < len - start then length else len - start
  }

  /** The slot k places behind the write index. */
  function Behind<T>(r: Ring<T>, k: nat): (i: nat)
    requires Shaped(r) && 0 < k <= |r.slots|
    ensures i < |r.slots|
  {
    if k <= r.index then r.index - k else r.index + |r.slots| - k
  }

  /** What copy(start, length) delivers, newest first. */
  function Window<T>(r: Ring<T>, start: nat, length: nat): (w: seq<T>)
    requires Shaped(r)
    ensures |w| == Answered(r.len, start, length)
  {
    seq(Answered(r.len, start, length), i requires 0 <= i < Answered(r.len, start, length) =>
      r.slots[Behind(r, start + i + 1)])
  }

  datatype Event<T> = Inserted(code: T) | WasReset

  function Run<T>(r: Ring<T>, events: seq<Event<T>>): (q: Ring<T>)
    requires Shaped(r)
    ensures Shaped(q) && |q.slots| == |r.slots|
    decreases |events|
  {
    if events == [] then r
    else
      var p := Run(r, events[..|events| - 1]);
      match events[|events| - 1]
      case Inserted(c) => Insert(p, c)
      case WasReset => Reset(p)
  }

  /** The codes inserted since the last reset, oldest first. */
  function History<T>(events: seq<Event<T>>): seq<T>
    decreases |events|
  {
    if events == [] then []
    else
      match events[|events| - 1]
      case Inserted(c) => History(events[..|events| - 1]) + [c]
      case WasReset => []
  }

  /** The ring holds the newest codes of a history, as many as fit. */
  ghost predicate Holds<T>(r: Ring<T>, hist: seq<T>) {
    Shaped(r) &&
    r.len == (if |hist| < |r.slots| then |hist| else |r.slots|) &&
    forall k :: 0 < k <= r.len ==> r.slots[Behind(r, k)] == hist[|hist| - k]
  }

  lemma InsertHolds<T>(r: Ring<T>, hist: seq<T>, code: T)
    requires Holds(r, hist)
    ensures Holds(Insert(r, code), hist + [code])
  {
    var q := Insert(r, code);
    forall k | 0 < k <= q.len
      ensures q.slots[Behind(q, k)] == (hist + [code])[|hist| + 1 - k]
    {
      if k > 1 {
        assert Behind(q, k) == Behind(r, k - 1);
        assert Behind(r, k - 1) != r.index;
      }
    }
  }

  lemma {:induction false} RunHolds<T>(r: Ring<T>, events: seq<Event<T>>)
    requires Shaped(r) && r.len == 0
    ensures Holds(Run(r, events), History(events))
    decreases |events|
  {
    if events != [] {
      RunHolds(r, events[..|events| - 1]);
      match events[|events| - 1]
      case Inserted(c) => InsertHolds(Run(r, events[..|events| - 1]), History(events[..|events| - 1]), c);
      case WasReset =>
    }
  }

  /** Ring as history.  After any run of inserts and resets, copy(start, length) delivers
      min(length, available) codes: the newest-first window that skips `start` of what was
      inserted since the last reset, as far back as the capacity reaches. */
  lemma RingIsHistory<T>(r: Ring<T>, events: seq<Event<T>>, start: nat, length: nat)
    requires Shaped(r) && r.len == 0
    ensures var hist := History(events);
            var kept := if |hist| < |r.slots| then |hist| else |r.slots|;
            var w := Window(Run(r, events), start, length);
            |w| <= length && (|w| > 0 ==> start + |w| <= kept) && (|w| == length || start + |w| >= kept) &&
            forall i :: 0 <= i < |w| ==> w[i] == hist[|hist| - 1 - start - i]
  {
    hide Run, History;
    RunHolds(r, events);
    var q := Run(r, events);
    var w := Window(q, start, length);
    forall i | 0 <= i < |w|
      ensures w[i] == History(events)[|History(events)| - 1 - start - i]
    {
      assert w[i] == q.slots[Behind(q, start + i + 1)];
    }
  }

  // ------------------------------------------------------------ imperative

  /** Bytes of a list of codes in the copy format. */
  function Flatten<T>(encode: T -> seq<byte>, codes: seq<T>): seq<byte> {
    if codes == [] then [] else Flatten(encode, codes[..|codes| - 1]) + encode(codes[|codes| - 1])
  }

  ghost predicate Sized<T(!new)>(encode: T -> seq<byte>, size: nat) {
    forall t :: |encode(t)| == size
  }

  class CodeRing<T(0,!new)> {
    const data: array<T>
    var len: nat
    var index: nat

    ghost predicate Valid()
      reads this
    {
      data.Length > 0 && index < data.Length && len <= data.Length
    }

    function State(): (r: Ring<T>)
      reads this, data
      requires Valid()
      ensures Shaped(r) && |r.slots| == data.Length
    {
      Ring(data[..], len, index)
    }

    constructor (capacity: nat)
      requires capacity > 0
      ensures Valid() && fresh(data) && data.Length == capacity && len == 0 && index == 0
    {
      data := new T[capacity];
      len, index := 0, 0;
    }

    method Put(code: T)
      requires Valid()
      modifies this, data
      ensures Valid() && State() == Insert(old(State()), code)
    {
      data[index] := code;
      if len < data.Length {
        len := len + 1;
      }
      index := index + 1;
      if index == data.Length {
        index := 0;
      }
    }

    method Clear()
      requires Valid()
      modifies this`len
      ensures Valid() && State() == Reset(old(State()))
    {
      len := 0;
    }

    /** copy_pcc_read_buffer and copy_sbmr_read_buffer: fills buffer with the encoded window and
        returns how many bytes it wrote; a buffer too short for the whole request gets nothing. */
    method Copy(start: nat, length: nat, buffer: array<byte>, bufferLen: nat, encode: T -> seq<byte>, size: nat)
      returns (written: nat)
      requires Valid() && Sized(encode, size) && bufferLen <= buffer.Length && buffer as object != data
      modifies buffer
      ensures Valid() && State() == old(State())
      ensures var bytes := if bufferLen < length * size then [] else Flatten(encode, Window(State(), start, length));
              written == |bytes| <= buffer.Length && buffer[..] == bytes + old(buffer[..])[written..]
    {
      hide Flatten, Window, Sized, Behind, Answered, Room, Shaped;
      assert Room(length, size) == length * size by { RoomIs(length, size); }
      if bufferLen < Room(length, size) {
        assert buffer[..] == [] + buffer[..][0..];
        return 0;
      }
      ghost var r := State();
      ghost var w := Window(r, start, length);
      ghost var before := buffer[..];
      var i := 0;
      var cur: int := if start < index then index - start - 1 else index + data.Length - start - 1;
      FlattenNone(encode, w);
      written := 0;
      RoomGrows(0, length, size);
      FirstBehind(r, start, length);
      assert before[0..] == before;
      ghost var out: seq<byte> := [];
      AnsweredIs(len, start, length, 0);
      while i < length && i + start < len
        invariant data[..] == r.slots && i <= |w|
        invariant i < length && i + start < len <==> i < |w|
        invariant i < |w| ==> start + i + 1 <= data.Length && cur == Behind(r, start + i + 1)
        invariant written == Room(i, size) <= |before|
        invariant out == Flatten(encode, w[..i]) && written == |out|
        invariant buffer[..] == out + before[written..]
      {
        assert data[cur] == r.slots[cur];
        CopyStep(r, start, length, encode, size, i);
        var bytes := encode(data[cur]);
        Append(buffer, written, bytes, out, before);
        out := out + bytes;
        written := written + |bytes|;
        assert buffer[..] == out + before[written..];
        cur := if cur == 0 then data.Length - 1 else cur - 1;
        i := i + 1;
      }
      assert w[..i] == w;
    }
  }

  /** What one round of the copy loop needs to know. */
  lemma CopyStep<T(!new)>(r: Ring<T>, start: nat, length: nat, encode: T -> seq<byte>, size: nat, i: nat)
    requires Shaped(r) && Sized(encode, size) && i < Answered(r.len, start, length)
    ensures var w := Window(r, start, length);
            start + i + 1 <= |r.slots| && i < |w| &&
            |encode(r.slots[Behind(r, start + i + 1)])| == size &&
            Flatten(encode, w[..i + 1]) == Flatten(encode, w[..i]) + encode(r.slots[Behind(r, start + i + 1)]) &&
            Room(i + 1, size) == Room(i, size) + size <= Room(length, size) &&
            (i + 1 < length && i + 1 + start < r.len <==> i + 1 < |w|) &&
            (i + 1 < |w| ==>
               start + i + 2 <= |r.slots| &&
               Behind(r, start + i + 2) == if Behind(r, start + i + 1) == 0 then |r.slots| - 1 else Behind(r, start + i + 1) - 1)
  {
    hide Flatten, Sized, Behind, Room;
    WindowAt(r, start, length, i);
    FlattenNext(encode, size, Window(r, start, length), i);
    RoomGrows(i, length, size);
    NextBehind(r, start, length, i);
    AnsweredIs(r.len, start, length, i + 1);
  }

  lemma AnsweredIs(len: nat, start: nat, length: nat, i: nat)
    ensures i < length && i + start < len <==> i < Answered(len, start, length)
  {
  }

  lemma WindowAt<T>(r: Ring<T>, start: nat, length: nat, i: nat)
    requires Shaped(r) && i < Answered(r.len, start, length)
    ensures Window(r, start, length)[i] == r.slots[Behind(r, start + i + 1)]
  {
  }

  lemma FlattenNone<T>(encode: T -> seq<byte>, codes: seq<T>)
    ensures Flatten(encode, codes[..0]) == []
  {
  }

  lemma FlattenNext<T(!new)>(encode: T -> seq<byte>, size: nat, codes: seq<T>, i: nat)
    requires Sized(encode, size) && i < |codes|
    ensures |encode(codes[i])| == size
    ensures Flatten(encode, codes[..i + 1]) == Flatten(encode, codes[..i]) + encode(codes[i])
  {
    assert codes[..i + 1][..i] == codes[..i];
  }

  /** Bytes n codes take. */
  function Room(n: nat, size: nat): nat {
    if n == 0 then 0 else Room(n - 1, size) + size
  }

  lemma {:induction false} RoomIs(n: nat, size: nat)
    ensures Room(n, size) == n * size
  {
    if n > 0 {
      RoomIs(n - 1, size);
      assert n * size == (n - 1) * size + size;
    }
  }

  lemma {:induction false} RoomMonotone(i: nat, n: nat, size: nat)
    requires i <= n
    ensures Room(i, size) <= Room(n, size)
  {
    if i < n {
      RoomMonotone(i, n - 1, size);
    }
  }

  lemma RoomGrows(i: nat, length: nat, size: nat)
    ensures Room(0, size) == 0 && Room(i + 1, size) == Room(i, size) + size
    ensures i < length ==> Room(i + 1, size) <= Room(length, size)
  {
    if i < length {
      RoomMonotone(i + 1, length, size);
    }
  }

  lemma FirstBehind<T>(r: Ring<T>, start: nat, length: nat)
    requires Shaped(r)
    ensures 0 < Answered(r.len, start, length) ==>
            start + 1 <= |r.slots| &&
            Behind(r, start + 1) == if start < r.index then r.index - start - 1 else r.index + |r.slots| - start - 1
  {
  }

  /** Walking one slot back, and when the walk ends. */
  lemma NextBehind<T>(r: Ring<T>, start: nat, length: nat, i: nat)
    requires Shaped(r) && i < Answered(r.len, start, length)
    ensures start + i + 1 <= |r.slots|
    ensures i + 1 < Answered(r.len, start, length) ==>
            start + i + 2 <= |r.slots| &&
            Behind(r, start + i + 2) ==
              if Behind(r, start + i + 1) == 0 then |r.slots| - 1 else Behind(r, start + i + 1) - 1
  {
  }

  /** memcpy behind a part already written. */
  method Append(buffer: array<byte>, at: nat, bytes: seq<byte>, ghost front: seq<byte>, ghost before: seq<byte>)
    requires at + |bytes| <= buffer.Length == |before| && |front| == at && buffer[..] == front + before[at..]
    modifies buffer
    ensures buffer[..] == front + bytes + before[at + |bytes|..]
  {
    for k := 0 to |bytes|
      invariant buffer[..] == front + bytes[..k] + before[at + k..]
    {
      buffer[at + k] := bytes[k];
    }
  }
}
