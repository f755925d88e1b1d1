// The hand-over of POST codes from the receive callback to the sending thread of
// common/dev/pcc.c as interleaved steps.  A slot write with its index update is one step,
// as is each access of the thread; the two sides interleave in any order.
module PostCodeProtocol {
  import opened Modular
  import opened PostCodeRing
  import opened Pcc
  import opened CText

  /** Where the thread is: blocked on or about to take the semaphore; past it, about to
      snapshot the write index; or in the send loop with a snapshot. */
  datatype Phase = Waiting | Woken | Draining(snapshot: nat)

  datatype State<T> = State(
    ring: Ring<T>,
    sem: nat,               // binary semaphore
    inCallback: bool,
    phase: Phase,
    send: nat,              // send_index
    inserted: seq<T>,       // every code inserted so far
    sent: seq<T>)           // every code handed to the transport so far

  datatype Step<T> =
    | Enter                 // the callback starts
    | Push(code: T)         // it stores an accepted code
    | Give                  // it gives the semaphore and returns
    | Clear                 // the ring is reset from elsewhere
    | Thread                // the thread takes one step, if it is not blocked

  function Pending<T>(s: State<T>): int { |s.inserted| - |s.sent| }

  ghost predicate Start<T>(s: State<T>) {
    Shaped(s.ring) && s.ring.index == 0 && s.sem == 0 && !s.inCallback && s.phase == Waiting &&
    s.send == 0 && s.inserted == [] && s.sent == []
  }

  /** Callback steps happen in order, and the ring is never overrun: a code is stored only
      while fewer than capacity minus one are pending. */
  predicate Enabled<T>(s: State<T>, step: Step<T>) {
    match step
    case Enter => !s.inCallback
    case Push(_) => s.inCallback && Pending(s) + 1 < |s.ring.slots|
    case Give => s.inCallback
    case Clear => true
    case Thread => true
  }

  /** One step of process_postcode. */
  function ThreadStep<T>(s: State<T>): State<T>
    requires Shaped(s.ring) && s.send < |s.ring.slots|
  {
    match s.phase
    case Waiting => if s.sem == 0 then s else s.(sem := 0, phase := Woken)
    case Woken => s.(phase := Draining(s.ring.index))
    case Draining(snapshot) =>
      if s.send == snapshot then s.(phase := Waiting)
      else s.(sent := s.sent + [s.ring.slots[s.send]], send := (s.send + 1) % |s.ring.slots|)
  }

  function Apply<T>(s: State<T>, step: Step<T>): State<T>
    requires Shaped(s.ring) && s.send < |s.ring.slots|
  {
    match step
    case Enter => s.(inCallback := true)
    case Push(c) => s.(ring := Insert(s.ring, c), inserted := s.inserted + [c])
    case Give => s.(sem := 1, inCallback := false)
    case Clear => s.(ring := Reset(s.ring))
    case Thread => ThreadStep(s)
  }

  /** Codes the thread has seen: those inserted before its snapshot. */
  ghost predicate Seen<T>(s: State<T>, seen: nat) {
    |s.ring.slots| > 0 && |s.sent| <= seen <= |s.inserted| &&
    match s.phase
    case Waiting => seen == |s.sent|
    case Woken => true
    case Draining(snapshot) => snapshot == seen % |s.ring.slots|
  }

  /** The invariant of every interleaving. */
  ghost predicate Inv<T>(s: State<T>, seen: nat) {
    Shaped(s.ring) &&
    var n := |s.ring.slots|;
    s.sem <= 1 && Seen(s, seen) &&
    s.ring.index == |s.inserted| % n && s.send == |s.sent| % n && Pending(s) < n &&
    s.sent == s.inserted[..|s.sent|] &&
    (forall k {:trigger s.inserted[k]} :: |s.sent| <= k < |s.inserted| ==> s.ring.slots[k % n] == s.inserted[k]) &&
    (s.phase != Woken && seen < |s.inserted| ==> s.sem == 1 || s.inCallback)
  }

  // -------------------------------------------------------- index arithmetic

  lemma {:induction false} StepMod(k: nat, n: nat)
    requires n > 0
    ensures (k + 1) % n == (k % n + 1) % n
    ensures (k + 1) % n == if k % n + 1 == n then 0 else k % n + 1
  {
    var q, r := k / n, k % n;
    assert k + 1 == n * q + (r + 1);
    if r + 1 == n {
      assert k + 1 == n * (q + 1) + 0;
      DivModUnique(k + 1, n, q + 1, 0);
      ModWrap(0, n);
    } else {
      DivModUnique(k + 1, n, q, r + 1);
      ModSmall(r + 1, n);
    }
  }

  /** Positions less than a turn apart share a slot only when they are the same. */
  lemma {:induction false} SameSlot(a: nat, b: nat, n: nat)
    requires n > 0 && a <= b < a + n
    ensures a % n == b % n <==> a == b
  {
    if a % n == b % n {
      var p, q := a / n, b / n;
      assert b - a == n * (q - p);
      assert a - b == n * (p - q);
      if q > p {
        MulAtLeast(n, q - p);
      } else if q < p {
        MulAtLeast(n, p - q);
      }
    }
  }

  // --------------------------------------------------------------- the steps

  lemma {:induction false} PushKeeps<T>(s: State<T>, seen: nat, code: T)
    requires Inv(s, seen) && Enabled(s, Push(code))
    ensures Inv(Apply(s, Push(code)), seen)
  {
    var n := |s.ring.slots|;
    var t := Apply(s, Push(code));
    StepMod(|s.inserted|, n);
    forall k {:trigger t.inserted[k]} | |t.sent| <= k < |t.inserted|
      ensures t.ring.slots[k % n] == t.inserted[k]
    {
      SameSlot(k, |s.inserted|, n);
      if k < |s.inserted| {
        assert s.ring.slots[k % n] == s.inserted[k];
      }
    }
  }

  lemma ThreadKeeps<T>(s: State<T>, seen: nat) returns (seen': nat)
    requires Inv(s, seen)
    ensures Inv(Apply(s, Thread), seen')
  {
    var n := |s.ring.slots|;
    seen' := seen;
    if s.phase == Woken {
      seen' := |s.inserted|;
    } else if s.phase.Draining? {
      SameSlot(|s.sent|, seen, n);
      if s.send != s.phase.snapshot {
        StepMod(|s.sent|, n);
        assert s.ring.slots[|s.sent| % n] == s.inserted[|s.sent|];
        assert s.inserted[..|s.sent| + 1] == s.inserted[..|s.sent|] + [s.inserted[|s.sent|]];
      }
    }
  }

  lemma StepKeeps<T>(s: State<T>, seen: nat, step: Step<T>) returns (seen': nat)
    requires Inv(s, seen) && Enabled(s, step)
    ensures Inv(Apply(s, step), seen')
  {
    seen' := seen;
    match step
    case Enter =>
    case Push(c) => PushKeeps(s, seen, c);
    case Give =>
    case Clear =>
    case Thread => seen' := ThreadKeeps(s, seen);
  }

  /** A run: the states it visits, each reached by an enabled step. */
  ghost predicate IsRun<T>(states: seq<State<T>>, steps: seq<Step<T>>) {
    |states| == |steps| + 1 && Start(states[0]) &&
    forall i {:trigger steps[i]} :: 0 <= i < |steps| ==>
      Shaped(states[i].ring) && states[i].send < |states[i].ring.slots| &&
      Enabled(states[i], steps[i]) && states[i + 1] == Apply(states[i], steps[i])
  }

  lemma {:induction false} RunKeeps<T>(states: seq<State<T>>, steps: seq<Step<T>>, i: nat) returns (seen: nat)
    requires IsRun(states, steps) && i < |states|
    ensures Inv(states[i], seen)
    decreases i
  {
    if i == 0 {
      seen := 0;
    } else {
      var before := RunKeeps(states, steps, i - 1);
      var step := steps[i - 1];
      seen := StepKeeps(states[i - 1], before, step);
    }
  }

  // ---------------------------------------------------------------- theorems

  /** Exactly once, in order: in every state of every interleaving the codes sent are the
      first of the codes inserted, and no wake-up is lost: when the thread is blocked and no
      callback is under way, everything inserted has been sent. */
  lemma ExactlyOnceAndNoLostWakeup<T>(states: seq<State<T>>, steps: seq<Step<T>>, i: nat)
    requires IsRun(states, steps) && i < |states|
    ensures states[i].sent <= states[i].inserted
    ensures states[i].phase == Waiting && states[i].sem == 0 && !states[i].inCallback ==>
            states[i].sent == states[i].inserted
  {
    var seen := RunKeeps(states, steps, i);
  }

  /** The thread alone, for a number of steps. */
  function ThreadRun<T>(s: State<T>, n: nat): State<T>
    requires Shaped(s.ring) && s.send < |s.ring.slots|
    decreases n
  {
    if n == 0 then s else ThreadRun(ThreadStep(s), n - 1)
  }

  /** Steps the thread needs before it blocks with everything sent. */
  ghost function Remaining<T>(s: State<T>, seen: nat): int {
    Pending(s) + (match s.phase case Waiting => if s.sem == 1 then 3 else 0 case Woken => if s.sem == 1 then 5 else 2
                  case Draining(_) => if s.sem == 1 then 4 else 1)
  }

  /** Delivery: from any reachable state outside a callback the thread alone blocks again, with
      everything sent, after a number of steps known in advance. */
  lemma {:induction false} Delivered<T>(s: State<T>, seen: nat)
    requires Inv(s, seen) && !s.inCallback
    ensures Remaining(s, seen) >= 0
    ensures var t := ThreadRun(s, Remaining(s, seen));
            t.phase == Waiting && t.sem == 0 && t.sent == s.inserted
    decreases Remaining(s, seen)
  {
    if Remaining(s, seen) > 0 {
      var seen' := ThreadKeeps(s, seen);
      var t := ThreadStep(s);
      SameSlot(|s.sent|, seen, |s.ring.slots|);
      assert Remaining(t, seen') == Remaining(s, seen) - 1;
      Delivered(t, seen');
    }
  }

  /** What a full ring would do: a send loop that starts with `pending` codes waiting sends
      pending modulo the capacity of them, so all of them exactly below the capacity. */
  lemma {:induction false} DrainExactly<T>(slots: seq<T>, sent: nat, inserted: nat)
    requires |slots| > 0 && sent <= inserted
    ensures var n := |slots|;
            var drained := Between(slots, sent % n, inserted % n);
            |drained| == (inserted - sent) % n &&
            (|drained| == inserted - sent <==> inserted - sent < n)
  {
    var n := |slots|;
    var a, b := sent % n, inserted % n;
    var p, q := sent / n, inserted / n;
    var d := if a <= b then b - a else b - a + n;
    assert inserted - sent == n * (q - p) + (b - a);
    if a <= b {
      DivModUnique(inserted - sent, n, q - p, d);
    } else {
      assert inserted - sent == n * (q - p - 1) + d;
      DivModUnique(inserted - sent, n, q - p - 1, d);
    }
    if inserted - sent < n {
      ModSmall(inserted - sent, n);
    }
  }

  // -------------------------------------------- the code behind the steps

  predicate Formed<T>(s: State<T>) { Shaped(s.ring) && s.send < |s.ring.slots| }

  lemma StepForms<T>(s: State<T>, step: Step<T>)
    requires Formed(s)
    ensures Formed(Apply(s, step)) && |Apply(s, step).ring.slots| == |s.ring.slots|
  {
  }

  /** Steps one after the other. */
  function ApplyAll<T>(s: State<T>, steps: seq<Step<T>>): (t: State<T>)
    requires Formed(s)
    ensures Formed(t)
    decreases |steps|
  {
    if steps == [] then s
    else
      StepForms(s, steps[0]);
      ApplyAll(Apply(s, steps[0]), steps[1..])
  }

  /** Each step is enabled when its turn comes. */
  predicate AllEnabled<T>(s: State<T>, steps: seq<Step<T>>)
    requires Formed(s)
    decreases |steps|
  {
    steps == [] ||
    (Enabled(s, steps[0]) &&
     (StepForms(s, steps[0]);
      AllEnabled(Apply(s, steps[0]), steps[1..])))
  }

  /** The steps of one callback that stores some codes. */
  function Pushes<T>(codes: seq<T>): seq<Step<T>> {
    if codes == [] then [Give] else [Push(codes[0])] + Pushes(codes[1..])
  }

  function Callback<T>(codes: seq<T>): seq<Step<T>> { [Enter] + Pushes(codes) }

  lemma {:induction false} PushesInsert(s: State<Code>, codes: seq<Code>)
    requires Formed(s) && s.inCallback
    ensures ApplyAll(s, Pushes(codes)) ==
            s.(ring := InsertAll(s.ring, codes), inserted := s.inserted + codes, sem := 1, inCallback := false)
    ensures Pending(s) + |codes| < |s.ring.slots| ==> AllEnabled(s, Pushes(codes))
    decreases |codes|
  {
    var steps := Pushes(codes);
    if codes == [] {
      assert s.inserted + codes == s.inserted;
    } else {
      StepForms(s, steps[0]);
      assert steps[1..] == Pushes(codes[1..]);
      var t := Apply(s, steps[0]);
      PushesInsert(t, codes[1..]);
      assert s.inserted + codes == t.inserted + codes[1..];
    }
  }

  lemma {:induction false} CallbackInserts(s: State<Code>, codes: seq<Code>)
    requires Formed(s) && !s.inCallback
    ensures ApplyAll(s, Callback(codes)) == s.(ring := InsertAll(s.ring, codes), inserted := s.inserted + codes, sem := 1)
    ensures Pending(s) + |codes| < |s.ring.slots| ==> AllEnabled(s, Callback(codes))
  {
    var t := Apply(s, Enter);
    assert Callback(codes)[1..] == Pushes(codes);
    PushesInsert(t, codes);
  }

  /** The send loop, thread step by thread step. */
  lemma {:induction false} DrainSends<T>(s: State<T>)
    requires Formed(s) && s.phase.Draining? && s.phase.snapshot < |s.ring.slots|
    ensures var codes := Between(s.ring.slots, s.send, s.phase.snapshot);
            ThreadRun(s, |codes| + 1) == s.(phase := Waiting, send := s.phase.snapshot, sent := s.sent + codes)
    decreases |Between(s.ring.slots, s.send, s.phase.snapshot)|
  {
    hide Between;
    var slots, at := s.ring.slots, s.phase.snapshot;
    if s.send == at {
      BetweenSelf(slots, at);
      assert ThreadRun(s, 1) == ThreadStep(s);
    } else {
      BetweenStep(slots, s.send, at);
      var t := ThreadStep(s);
      DrainSends(t);
      assert s.sent + Between(slots, s.send, at) == t.sent + Between(slots, t.send, at);
    }
  }

  /** A round: taking the semaphore, the snapshot, and the send loop. */
  lemma {:induction false} RoundSends<T>(s: State<T>)
    requires Formed(s) && s.phase == Waiting && s.sem == 1
    ensures var codes := Between(s.ring.slots, s.send, s.ring.index);
            ThreadRun(s, |codes| + 3) == s.(sem := 0, send := s.ring.index, sent := s.sent + codes)
  {
    hide Between;
    var a := ThreadStep(s);
    var b := ThreadStep(a);
    DrainSends(b);
    var n := |Between(s.ring.slots, s.send, s.ring.index)|;
    assert ThreadRun(s, n + 3) == ThreadRun(a, n + 2) == ThreadRun(b, n + 1);
  }

  /** The device is in a state of the protocol. */
  ghost predicate In(d: PccDevice, s: State<Code>)
    reads d, d.ring, d.ring.data
  {
    d.Valid() && d.ring.State() == s.ring && d.sem == s.sem && s.send < |s.ring.slots|
  }

  /** The receive callback is Enter, a Push for each code accepted, and Give. */
  method CallbackSteps(d: PccDevice, rb: seq<byte>, st: nat, ed: nat, ghost s: State<Code>) returns (ghost codes: seq<Code>)
    requires In(d, s) && !s.inCallback && RingOk(|rb|, st, ed)
    modifies d, d.ring, d.ring.data
    ensures codes == Accepted(d.filter, Decode(old(d.fourByteData), ReadRing(rb, st, ed)))
    ensures Formed(s) && In(d, ApplyAll(s, Callback(codes)))
    ensures Pending(s) + |codes| < |s.ring.slots| ==> AllEnabled(s, Callback(codes))
  {
    hide Decode, Carry, Accepted, InsertAll, ReadRing;
    codes := Accepted(d.filter, Decode(d.fourByteData, ReadRing(rb, st, ed)));
    CallbackInserts(s, codes);
    d.RxCallback(rb, st, ed);
  }

  /** A round of the thread that finds the semaphore given is its steps until it is back at the
      semaphore. */
  method RoundSteps(d: PccDevice, ghost s: State<Code>, sendIndex: nat) returns (next: nat, sent: seq<Code>)
    requires In(d, s) && s.phase == Waiting && s.sem == 1 && sendIndex == s.send
    modifies d`sem
    ensures Formed(s) && var t := ThreadRun(s, |sent| + 3);
            In(d, t) && t.phase == Waiting && t.send == next && t.sent == s.sent + sent
  {
    hide Between;
    RoundSends(s);
    next, sent := d.ProcessRound(sendIndex);
  }
}
