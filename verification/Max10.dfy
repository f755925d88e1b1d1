// The word-assembly loop of common/dev/altera.c: four message bytes, each with its bits
// swapped, make a flash word.
module Max10 {
  import opened CText
  import opened BitOrder

  type Flash = map<int, Bits>

  const RETRIES: nat := 3
  const WRITE_SUCCESS_BIT: nat := 8

  // ------------------------------------------------------------------ words

  /** A byte in a 32-bit word. */
  function Wide(b: Bits): (w: Bits)
    requires |b| == 8
    ensures |w| == 32
  {
    b + Zeros(24)
  }

  /** The flash word of four bytes: byte 0 lowest, each byte back to front. */
  function FlashWord(bytes: seq<byte>): (w: Bits)
    requires |bytes| == 4
    ensures |w| == 32
  {
    Reverse(BitsOf(bytes[0])) + Reverse(BitsOf(bytes[1])) + Reverse(BitsOf(bytes[2])) + Reverse(BitsOf(bytes[3]))
  }

  /** Four swapped bytes shifted together as the code does it. */
  function Combined(r: seq<Bits>): Bits
    requires |r| == 4 && forall k :: 0 <= k < 4 ==> |r[k]| == 8
  {
    Or(Or(Or(Shl(Wide(r[3]), 24), Shl(Wide(r[2]), 16)), Shl(Wide(r[1]), 8)), Wide(r[0]))
  }

  lemma CombineIs(r: seq<Bits>)
    requires |r| == 4 && forall k :: 0 <= k < 4 ==> |r[k]| == 8
    ensures Combined(r) == r[0] + r[1] + r[2] + r[3]
  {
    var all := r[0] + r[1] + r[2] + r[3];
    var got := Combined(r);
    forall k | 0 <= k < 32
      ensures got[k] == all[k]
    {
      if k < 8 {
      } else if k < 16 {
      } else if k < 24 {
      }
    }
  }

  /** The flash once the words of some bytes are written from an address on. */
  function Burnt(flash: Flash, at: int, msg: seq<byte>): Flash
    requires |msg| % 4 == 0
    decreases |msg|
  {
    if msg == [] then flash else Burnt(flash[at := FlashWord(msg[..4])], at + 4, msg[4..])
  }

  lemma {:induction false} WordAt(flash: Flash, at: int, msg: seq<byte>, k: nat)
    requires |msg| % 4 == 0 && 4 * k + 4 <= |msg|
    ensures var f := Burnt(flash, at, msg);
            at + 4 * k in f && f[at + 4 * k] == FlashWord(msg[4 * k..4 * k + 4])
    decreases k
  {
    hide FlashWord;
    var first := flash[at := FlashWord(msg[..4])];
    if k == 0 {
      BurntElsewhere(first, at + 4, msg[4..], at);
    } else {
      WordAt(first, at + 4, msg[4..], k - 1);
      assert msg[4..][4 * (k - 1)..4 * (k - 1) + 4] == msg[4 * k..4 * k + 4];
    }
  }

  /** Every word of the message is at its own address: bits 8 b to 8 b + 7 are those of its byte
      b, the highest first. */
  lemma BurntExact(flash: Flash, at: int, msg: seq<byte>, k: nat, b: nat, i: nat)
    requires |msg| % 4 == 0 && 4 * k + 4 <= |msg| && b < 4 && i < 8
    ensures var f := Burnt(flash, at, msg);
            at + 4 * k in f && |f[at + 4 * k]| == 32 && f[at + 4 * k][8 * b + i] == BitsOf(msg[4 * k + b])[7 - i]
  {
    hide Burnt, BitsOf;
    WordAt(flash, at, msg, k);
    var word := msg[4 * k..4 * k + 4];
    assert word[b] == msg[4 * k + b];
    WordBits(word, b, i);
  }

  lemma WordBits(bytes: seq<byte>, b: nat, i: nat)
    requires |bytes| == 4 && b < 4 && i < 8
    ensures FlashWord(bytes)[8 * b + i] == BitsOf(bytes[b])[7 - i]
  {
    hide BitsOf;
  }

  /** Nothing else changes. */
  lemma {:induction false} BurntElsewhere(flash: Flash, at: int, msg: seq<byte>, a: int)
    requires |msg| % 4 == 0 && (a < at || at + |msg| <= a || (a - at) % 4 != 0)
    ensures a in Burnt(flash, at, msg) <==> a in flash
    ensures a in flash ==> Burnt(flash, at, msg)[a] == flash[a]
    decreases |msg|
  {
    hide FlashWord;
    if msg != [] {
      Mod4(a - at);
      BurntElsewhere(flash[at := FlashWord(msg[..4])], at + 4, msg[4..], a);
    }
  }

  lemma Mod4(d: int)
    ensures (d - 4) % 4 == d % 4 && (d == 0 ==> d % 4 == 0)
  {
  }

  /** Messages that continue each other write what one message with all their bytes would. */
  lemma {:induction false} BurntTwice(flash: Flash, at: int, x: seq<byte>, y: seq<byte>)
    requires |x| % 4 == 0 && |y| % 4 == 0
    ensures (|x| + |y|) % 4 == 0 && Burnt(Burnt(flash, at, x), at + |x|, y) == Burnt(flash, at, x + y)
    decreases |x|
  {
    hide FlashWord;
    if x == [] {
      assert x + y == y;
    } else {
      assert (x + y)[..4] == x[..4] && (x + y)[4..] == x[4..] + y;
      BurntTwice(flash[at := FlashWord(x[..4])], at + 4, x[4..], y);
    }
  }

  // ------------------------------------------------------------------- code

  /** Up to three looks at the status from the p-th on, until one shows bit 3: the look after it. */
  function Confirmed(statuses: nat -> byte, p: nat): Option<nat> {
    if statuses(p) / 8 % 2 == 1 then Some(p + 1)
    else if statuses(p + 1) / 8 % 2 == 1 then Some(p + 2)
    else if statuses(p + 2) / 8 % 2 == 1 then Some(p + 3)
    else None
  }

  /** The first n writes are acknowledged and each is confirmed before the next. */
  predicate AllConfirmed(answers: nat -> Answer, statuses: nat -> byte, sends: nat, p: nat, n: nat)
    decreases n
  {
    n == 0 ||
    (answers(sends).acked && Confirmed(statuses, p).Some? &&
     AllConfirmed(answers, statuses, sends + 1, Confirmed(statuses, p).value, n - 1))
  }

  /** A length made up to whole words. */
  function WholeWords(n: nat): (w: nat)
    ensures n <= w < n + 4 && w % 4 == 0
  {
    (n + 3) / 4 * 4
  }

  datatype Answer = Answer(acked: bool, taken: bool)

  class Max10Updater {
    var flash: Flash
    var sends: nat
    var polls: nat
    const startAddr: int
    const answers: nat -> Answer
    const statuses: nat -> byte

    constructor (flash: Flash, startAddr: int, answers: nat -> Answer, statuses: nat -> byte)
      ensures this.flash == flash && this.startAddr == startAddr && this.answers == answers && this.statuses == statuses
    {
      this.flash, sends, polls := flash, 0, 0;
      this.startAddr, this.answers, this.statuses := startAddr, answers, statuses;
    }

    ghost predicate Healthy() {
      (forall i :: answers(i).acked) && forall i :: statuses(i) / WRITE_SUCCESS_BIT % 2 == 1
    }

    /** max10_write_flash_data. */
    method WriteFlash(addr: int, data: Bits) returns (ok: bool, ghost taken: bool)
      modifies this`flash, this`sends
      ensures flash == if taken then old(flash)[addr := data] else old(flash)
      ensures sends == old(sends) + 1 && ok == answers(old(sends)).acked
      ensures ok ==> taken
      ensures Healthy() ==> ok
    {
      var answer := answers(sends);
      sends := sends + 1;
      ok, taken := answer.acked, answer.acked || answer.taken;
      if answer.acked || answer.taken {
        flash := flash[addr := data];
      }
    }

    /** The do-while behind each write: up to three looks for the success bit. */
    method CheckWritten() returns (ok: bool)
      modifies this`polls
      ensures ok == Confirmed(statuses, old(polls)).Some?
      ensures ok ==> Some(polls) == Confirmed(statuses, old(polls))
      ensures Healthy() ==> ok
    {
      var retry, isDone := RETRIES, false;
      while !isDone && retry > 0
        invariant Healthy() ==> isDone || retry == RETRIES
        invariant isDone ==> retry > 0
        invariant retry <= 3 && polls == old(polls) + (3 - retry) + (if isDone then 1 else 0)
        invariant forall i :: old(polls) <= i < old(polls) + (3 - retry) ==> statuses(i) / 8 % 2 == 0
        invariant isDone ==> statuses(polls - 1) / 8 % 2 == 1
        decreases retry, !isDone
      {
        var status := statuses(polls);
        polls := polls + 1;
        if status / WRITE_SUCCESS_BIT % 2 == 1 {
          isDone := true;
        } else {
          retry := retry - 1;
        }
      }
      ok := retry != 0;
    }

    /** Four bytes of the message as a word. */
    method Combine(msg: seq<byte>, at: nat) returns (data: Bits)
      requires at + 4 <= |msg|
      ensures data == FlashWord(msg[at..at + 4])
    {
      hide SwapByMasks, BitsOf, Reverse, Combined;
      var received := new Bits[4](i requires 0 <= i < 4 => BitsOf(msg[at + i]));
      for b := 0 to 4
        invariant forall k :: 0 <= k < 4 ==> received[k] == if k < b then Reverse(BitsOf(msg[at + k])) else BitsOf(msg[at + k])
      {
        SwapsAgree(received[b]);
        received[b] := SwapByMasks(received[b]);
      }
      CombineIs(received[..]);
      data := Combined(received[..]);
    }

    /** cpld_altera_max10_fw_update: every word of the message, in order, each at its own
        address, a last word in part made whole by what the buffer holds behind the message; a
        failure leaves a prefix of them. */
    method FwUpdate(offset: nat, msgLen: nat, msg: seq<byte>) returns (ok: bool, ghost put: nat)
      requires WholeWords(msgLen) <= |msg|
      modifies this
      ensures put <= WholeWords(msgLen) && put % 4 == 0 && flash == Burnt(old(flash), startAddr + offset, msg[..put])
      ensures ok ==> put == WholeWords(msgLen)
      ensures ok <==> AllConfirmed(answers, statuses, old(sends), old(polls), WholeWords(msgLen) / 4)
      ensures Healthy() ==> ok
    {
      hide FlashWord, Confirmed, AllConfirmed, Burnt;
      ghost var words := WholeWords(msgLen) / 4;
      BurntNone(flash, startAddr + offset);
      assert msg[..0] == [];
      put := 0;
      var addr, bufferOffset: nat := startAddr + offset, 0;
      while addr < startAddr + offset + msgLen
        invariant put == bufferOffset <= WholeWords(msgLen) && bufferOffset % 4 == 0 && addr == startAddr + offset + bufferOffset
        invariant flash == Burnt(old(flash), startAddr + offset, msg[..bufferOffset])
        invariant bufferOffset / 4 <= words
        invariant AllConfirmed(answers, statuses, old(sends), old(polls), words) <==>
                  AllConfirmed(answers, statuses, sends, polls, words - bufferOffset / 4)
        decreases WholeWords(msgLen) - bufferOffset
      {
        var data := Combine(msg, bufferOffset);
        ConfirmStep(answers, statuses, sends, polls, words - bufferOffset / 4);
        OneMore(old(flash), startAddr + offset, msg, bufferOffset);
        ghost var taken;
        ok, taken := WriteFlash(addr, data);
        if taken { put := put + 4; }
        if !ok { return; }
        ok := CheckWritten();
        if !ok { return; }
        bufferOffset := bufferOffset + 4;
        addr := addr + 4;
      }
      ConfirmStep(answers, statuses, sends, polls, 0);
      ok := true;
    }
  }

  lemma ConfirmStep(answers: nat -> Answer, statuses: nat -> byte, sends: nat, p: nat, n: nat)
    ensures AllConfirmed(answers, statuses, sends, p, n) <==>
              n == 0 || (answers(sends).acked && Confirmed(statuses, p).Some? &&
                         AllConfirmed(answers, statuses, sends + 1, Confirmed(statuses, p).value, n - 1))
  {
    hide Confirmed;
  }

  lemma BurntNone(flash: Flash, at: int)
    ensures Burnt(flash, at, []) == flash
  {
  }

  lemma OneMore(flash: Flash, at: int, msg: seq<byte>, n: nat)
    requires n + 4 <= |msg| && n % 4 == 0
    ensures (n + 4) % 4 == 0
    ensures Burnt(flash, at, msg[..n + 4]) == Burnt(flash, at, msg[..n])[at + n := FlashWord(msg[n..n + 4])]
  {
    hide FlashWord;
    var word := msg[n..n + 4];
    BurntTwice(flash, at, msg[..n], word);
    assert msg[..n] + word == msg[..n + 4];
    assert word[..4] == word && word[4..] == [];
  }
}
