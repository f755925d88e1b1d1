// The EEPROM update of common/dev/ds160pt801.c: Intel HEX records go out in verified groups of
// eight bytes, and messages are cut to whole 77-character lines.
module HexUpdate {
  import opened CText
  import opened IntelHex
  import Modular

  const EEPROM: nat := 0x1_0000
  const GROUP: nat := 8
  const SECTOR: nat := 256

  /** Characters of a line with 32 data bytes and its CRLF. */
  const FULL_LINE: nat := 77

  // ---------------------------------------------------------------- memory

  type Rom = seq<byte>

  /** Bytes put into the EEPROM at an address. */
  function Overwrite(rom: Rom, at: nat, bytes: seq<byte>): (r: Rom)
    ensures |r| == |rom|
  {
    if at + |bytes| <= |rom| then rom[..at] + bytes + rom[at + |bytes|..] else rom
  }

  lemma OverwriteTwice(rom: Rom, at: nat, a: seq<byte>, b: seq<byte>)
    requires at + |a| + |b| <= |rom|
    ensures Overwrite(Overwrite(rom, at, a), at + |a|, b) == Overwrite(rom, at, a + b)
  {
  }

  /** The whole groups of a record; a remainder of up to seven bytes is left out. */
  function Whole(data: seq<byte>): (w: seq<byte>)
    ensures w <= data && |w| % GROUP == 0 && |data| - |w| < GROUP
  {
    data[..|data| / GROUP * GROUP]
  }

  predicate InEeprom(r: Record) { r.ofs + |r.data| <= EEPROM }

  function Program(rom: Rom, rs: seq<Record>): (r: Rom)
    ensures |r| == |rom|
    decreases |rs|
  {
    if rs == [] then rom else Program(Overwrite(rom, rs[0].ofs, Whole(rs[0].data)), rs[1..])
  }

  /** A record puts its whole groups of eight bytes at its offset and leaves every other byte. */
  lemma RecordExact(rom: Rom, r: Record, k: nat)
    requires r.ofs + |r.data| <= |rom| && k < |rom|
    ensures Program(rom, [r])[k] == if r.ofs <= k < r.ofs + |r.data| / 8 * 8 then r.data[k - r.ofs] else rom[k]
  {
    var w := Whole(r.data);
    WholeIs(r.data);
    assert [r][1..] == [];
    hide Overwrite, Whole;
    assert Program(Overwrite(rom, r.ofs, w), []) == Overwrite(rom, r.ofs, w);
    OverwriteAt(rom, r.ofs, w, k);
  }

  lemma WholeIs(data: seq<byte>)
    ensures |Whole(data)| == |data| / 8 * 8 && forall i :: 0 <= i < |Whole(data)| ==> Whole(data)[i] == data[i]
  {
  }

  lemma OverwriteAt(rom: Rom, at: nat, bytes: seq<byte>, k: nat)
    requires at + |bytes| <= |rom| && k < |rom|
    ensures Overwrite(rom, at, bytes)[k] == if at <= k < at + |bytes| then bytes[k - at] else rom[k]
  {
  }

  lemma {:induction false} ProgramSplit(rom: Rom, a: seq<Record>, b: seq<Record>)
    ensures Program(rom, a + b) == Program(Program(rom, a), b)
    decreases |a|
  {
    hide Overwrite, Whole;
    if a == [] {
      assert a + b == b;
    } else {
      assert (a + b)[1..] == a[1..] + b;
      ProgramSplit(Overwrite(rom, a[0].ofs, Whole(a[0].data)), a[1..], b);
    }
  }

  // -------------------------------------------------------------- transfer

  predicate FullLines(rs: seq<Record>) {
    forall k :: 0 <= k < |rs| ==> Fits(rs[k]) && |rs[k].data| == MAX_DATA
  }

  /** What the transfer hands over for a request: the text left, cut to the request, or padded
      with NUL when the request overshoots it by no more than 32. */
  function Served(text: string, len: nat): (m: string)
    ensures |m| <= len
  {
    if len > |text| + 32 then text
    else if len > |text| then text + seq(len - |text|, i => '\0')
    else text[..len]
  }

  /** The characters of a message that are used. */
  function Used(m: string): (u: string)
    ensures u <= m && |u| % FULL_LINE == 0 && |m| - |u| < FULL_LINE
  {
    m[..|m| / FULL_LINE * FULL_LINE]
  }

  /** A transfer in which every device operation succeeds: each message asks for what follows
      the characters it used, in its own used length, until one uses none. A message that used
      padding asks for a range behind the image, which nothing can answer; a message over the
      sector size is refused. */
  function Run(rom: Rom, text: string, len: nat): (bool, Rom)
    decreases |text|
  {
    var u := Used(Served(text, len));
    var p := Parse(u);
    if |Served(text, len)| > SECTOR || !p.ok then (false, rom)
    else if |u| == 0 then (true, rom)
    else if |u| > |text| then (false, Program(rom, p.recs))
    else Run(Program(rom, p.recs), text[|u|..], |u|)
  }

  lemma {:induction false} LinesLength(rs: seq<Record>)
    requires FullLines(rs)
    ensures |Lines(rs)| == FULL_LINE * |rs|
    decreases |rs|
  {
    if rs != [] {
      LinesLength(rs[1..]);
    }
  }

  lemma {:induction false} LinesSplit(a: seq<Record>, b: seq<Record>)
    requires AllFit(a) && AllFit(b)
    ensures Lines(a + b) == Lines(a) + Lines(b)
    decreases |a|
  {
    hide Line;
    if a == [] {
      assert a + b == b;
    } else {
      assert (a + b)[1..] == a[1..] + b;
      LinesSplit(a[1..], b);
    }
  }

  /** Characters in a message when so many are left. */
  function MessageLen(left: nat, len: nat): nat { if len > left + 32 then left else len }

  /** Lines in a message of a text of full lines and a tail. */
  function Count(lines: nat, tail: nat, len: nat): nat { MessageLen(FULL_LINE * lines + tail, len) / FULL_LINE }

  /** A message cut to whole lines holds whole records, as long as no padding is used. */
  lemma {:induction false} MessageIsWholeLines(rs: seq<Record>, tail: string, len: nat)
    requires FullLines(rs) && Count(|rs|, |tail|, len) <= |rs|
    ensures var text, k := Lines(rs) + tail, Count(|rs|, |tail|, len);
            |text| == FULL_LINE * |rs| + |tail| &&
            Used(Served(text, len)) == Lines(rs[..k]) == text[..FULL_LINE * k] &&
            text[FULL_LINE * k..] == Lines(rs[k..]) + tail
  {
    hide Lines, Used, Served, Count;
    var text, k := Lines(rs) + tail, Count(|rs|, |tail|, len);
    LinesLength(rs);
    assert rs[..k] + rs[k..] == rs;
    LinesSplit(rs[..k], rs[k..]);
    LinesLength(rs[..k]);
    assert text == Lines(rs[..k]) + (Lines(rs[k..]) + tail);
    UsedOfServed(text, |rs|, |tail|, len);
  }

  lemma UsedOfServed(text: string, lines: nat, rest: nat, len: nat)
    requires |text| == FULL_LINE * lines + rest && Count(lines, rest, len) <= lines
    ensures Used(Served(text, len)) == text[..FULL_LINE * Count(lines, rest, len)]
  {
    var m := Served(text, len);
    assert |m| == if len > |text| + 32 then |text| else len;
    assert |m| / FULL_LINE == Count(lines, rest, len);
  }

  lemma ServedLength(text: string, len: nat)
    ensures |Served(text, len)| == MessageLen(|text|, len)
  {
  }

  /** One message of the transfer. */
  lemma {:induction false} RunStep(rom: Rom, rs: seq<Record>, tail: string, len: nat)
    requires FullLines(rs) && Count(|rs|, |tail|, len) <= |rs| && MessageLen(FULL_LINE * |rs| + |tail|, len) <= SECTOR
    ensures var k := Count(|rs|, |tail|, len);
            Run(rom, Lines(rs) + tail, len) ==
              if k == 0 then (true, rom) else Run(Program(rom, rs[..k]), Lines(rs[k..]) + tail, FULL_LINE * k)
  {
    hide Lines, Parse, Program, Used, Served, Count;
    MessageIsWholeLines(rs, tail, len);
    ServedLength(Lines(rs) + tail, len);
    RoundTrip(rs[..Count(|rs|, |tail|, len)], "");
  }

  /** A message that uses padding ends the transfer in failure. */
  lemma {:induction false} PaddingFails(rom: Rom, rs: seq<Record>, tail: string, len: nat)
    requires FullLines(rs) && FULL_LINE * |rs| + |tail| < FULL_LINE * (len / FULL_LINE) && len <= FULL_LINE * |rs| + |tail| + 32
    ensures !Run(rom, Lines(rs) + tail, len).0
  {
    hide Lines, Parse, Program;
    LinesLength(rs);
  }

  /** A first request below one line: its message holds no whole line, so the transfer ends at
      once, reported as a success, with nothing programmed. */
  lemma {:induction false} ShortRequestDoesNothing(rom: Rom, text: string, len: nat)
    requires len < FULL_LINE
    ensures Run(rom, text, len) == (true, rom)
  {
    hide Parse, Program;
    ServedLength(text, len);
    assert Used(Served(text, len)) == "";
    NothingParsed();
  }

  lemma NothingParsed()
    ensures Parse("").ok
  {
  }

  /** A whole transfer of lines with 32 data bytes each and a tail shorter than 45 characters,
      for any request size: it is refused exactly when its first message is over the sector
      size; it does nothing when the request is below one line; else it programs exactly the
      lines' records, in order, and takes nothing from the tail: the end-of-file record is never
      read, and a short last record is lost. */
  lemma {:induction false} FullLinesAreProgrammed(rom: Rom, rs: seq<Record>, tail: string, len: nat)
    requires FullLines(rs) && |tail| + 32 < FULL_LINE
    ensures Run(rom, Lines(rs) + tail, len) ==
              if MessageLen(77 * |rs| + |tail|, len) > 256 then (false, rom)
              else (true, if len < 77 then rom else Program(rom, rs))
    decreases |rs|
  {
    hide Lines, Program, Run;
    if MessageLen(FULL_LINE * |rs| + |tail|, len) > SECTOR {
      LinesLength(rs);
      OverLong(rom, Lines(rs) + tail, len);
    } else if len < FULL_LINE {
      ShortRequestDoesNothing(rom, Lines(rs) + tail, len);
    } else {
      var k := Count(|rs|, |tail|, len);
      RunStep(rom, rs, tail, len);
      assert rs[..k] + rs[k..] == rs;
      ProgramSplit(rom, rs[..k], rs[k..]);
      if k == 0 {
        ProgramNone(rom, rs);
      } else {
        FullLinesAreProgrammed(Program(rom, rs[..k]), rs[k..], tail, FULL_LINE * k);
      }
    }
  }

  lemma OverLong(rom: Rom, text: string, len: nat)
    requires MessageLen(|text|, len) > SECTOR
    ensures Run(rom, text, len) == (false, rom)
  {
    hide Parse, Program, Used;
    ServedLength(text, len);
  }

  lemma ProgramNone(rom: Rom, rs: seq<Record>)
    requires rs == []
    ensures Program(rom, rs) == rom
  {
  }

  /** A transfer in whole-line requests succeeds unless the tail is long enough to be padded to
      a line, which happens in every case but the one where the requests come out even with the
      full lines and hold more than one. Success leaves the full lines' records. */
  lemma {:induction false} WholeLineVerdict(rom: Rom, rs: seq<Record>, tail: string, a: nat)
    requires FullLines(rs) && |tail| < FULL_LINE && 1 <= a <= 3
    ensures var out := Run(rom, Lines(rs) + tail, FULL_LINE * a);
            (out.0 <==> |tail| < 45 || (a > 1 && |rs| % a == 0)) && (out.0 ==> out.1 == Program(rom, rs))
    decreases |rs|
  {
    hide Lines, Program, Run, Count, MessageLen;
    var len := FULL_LINE * a;
    WholeCount(|rs|, |tail|, a);
    if |rs| >= a {
      RunStep(rom, rs, tail, len);
      assert rs[..a] + rs[a..] == rs;
      ProgramSplit(rom, rs[..a], rs[a..]);
      WholeLineVerdict(Program(rom, rs[..a]), rs[a..], tail, a);
      assert |rs| % a == |rs[a..]| % a by { Modular.ModShift(|rs[a..]|, a, 1); }
    } else if len <= FULL_LINE * |rs| + |tail| + 32 {
      PaddingFails(rom, rs, tail, len);
    } else {
      TextAtOnce(rom, rs, tail, len);
    }
  }

  /** A request that overshoots the text by more than 32 gets exactly the text. */
  lemma {:induction false} TextAtOnce(rom: Rom, rs: seq<Record>, tail: string, len: nat)
    requires FullLines(rs) && |tail| < FULL_LINE && FULL_LINE * |rs| + |tail| + 32 < len && FULL_LINE * |rs| + |tail| <= SECTOR
    ensures var out := Run(rom, Lines(rs) + tail, len);
            (out.0 <==> |tail| < 45 || |rs| != 1) && (out.0 ==> out.1 == Program(rom, rs))
  {
    hide Lines, Program, Run;
    assert Count(|rs|, |tail|, len) == |rs|;
    RunStep(rom, rs, tail, len);
    if rs == [] {
      ProgramNone(rom, rs);
    } else {
      assert rs[..|rs|] == rs && rs[|rs|..] == [];
      TailOnly(Program(rom, rs), tail, |rs|);
    }
  }

  /** Whether a tail of 45 characters or more does no harm: when the lines come out even with a
      first request of more than one line, or are all in a first request that overshoots the
      text by more than 32 and are not just one. */
  predicate TailIsSafe(lines: nat, tail: nat, len: nat) {
    var k := len / 77;
    if k <= lines then k > 1 && lines % k == 0 else len > 77 * lines + tail + 32 && lines != 1
  }

  /** Exactly when a transfer succeeds, for any request size from one line on, the usual 256
      included: its first message fits a sector, and the tail is short or safe. Success leaves
      the full lines' records. */
  lemma {:induction false} TransferVerdict(rom: Rom, rs: seq<Record>, tail: string, len: nat)
    requires FullLines(rs) && |tail| < FULL_LINE <= len
    ensures var out := Run(rom, Lines(rs) + tail, len);
            (out.0 <==> MessageLen(77 * |rs| + |tail|, len) <= 256 &&
                        (|tail| < 45 || TailIsSafe(|rs|, |tail|, len))) &&
            (out.0 ==> out.1 == Program(rom, rs))
  {
    hide Lines, Program, Run;
    var left, k := FULL_LINE * |rs| + |tail|, len / FULL_LINE;
    if MessageLen(left, len) > SECTOR {
      LinesLength(rs);
      OverLong(rom, Lines(rs) + tail, len);
    } else if len > left + 32 {
      TextAtOnce(rom, rs, tail, len);
      OvershootIsEven(|rs|, |tail|, len);
    } else if k > |rs| {
      PaddingFails(rom, rs, tail, len);
    } else {
      assert Count(|rs|, |tail|, len) == k;
      RunStep(rom, rs, tail, len);
      assert rs[..k] + rs[k..] == rs;
      ProgramSplit(rom, rs[..k], rs[k..]);
      WholeLineVerdict(Program(rom, rs[..k]), rs[k..], tail, k);
      assert |rs| % k == |rs[k..]| % k by { Modular.ModShift(|rs[k..]|, k, 1); }
    }
  }

  /** A request of at most as many lines as there are that overshoots a long tail does not exist. */
  lemma OvershootIsEven(lines: nat, tail: nat, len: nat)
    requires tail < FULL_LINE && len > FULL_LINE * lines + tail + 32
    ensures tail >= 45 ==> len / FULL_LINE > lines
  {
  }

  /** Lines in a message asked for in whole lines. */
  lemma WholeCount(lines: nat, tail: nat, a: nat)
    requires tail < FULL_LINE && 1 <= a <= 3
    ensures MessageLen(FULL_LINE * lines + tail, FULL_LINE * a) <= SECTOR
    ensures lines >= a ==> Count(lines, tail, FULL_LINE * a) == a
    ensures FULL_LINE * a > FULL_LINE * lines + tail + 32 ==> Count(lines, tail, FULL_LINE * a) == lines
  {
  }

  lemma {:induction false} TailOnly(rom: Rom, tail: string, b: nat)
    requires |tail| < FULL_LINE && b >= 1
    ensures var out := Run(rom, Lines([]) + tail, FULL_LINE * b);
            (out.0 <==> |tail| < 45 || b > 1) && (out.0 ==> out.1 == rom)
  {
    hide Run;
    if FULL_LINE * b <= |tail| + 32 {
      PaddingFails(rom, [], tail, FULL_LINE * b);
    } else {
      RunStep(rom, [], tail, FULL_LINE * b);
    }
  }

  /** So a last record of fewer than 10 bytes, followed by the end-of-file record, reaches the
      EEPROM exactly when its whole groups were there already. */
  lemma {:induction false} ShortLastRecordIsLost(rom: Rom, rs: seq<Record>, r: Record, len: nat)
    requires FullLines(rs) && Fits(r) && |r.data| < 10 && FULL_LINE <= len <= SECTOR
    ensures var out := Run(rom, Lines(rs) + (Line(r) + EOF_RECORD), len);
            out.0 && (out.1 == Program(rom, rs + [r]) <==> Overwrite(Program(rom, rs), r.ofs, Whole(r.data)) == Program(rom, rs))
  {
    hide Lines, Line, Run, Overwrite, Whole;
    FullLinesAreProgrammed(rom, rs, Line(r) + EOF_RECORD, len);
    ProgramSplit(rom, rs, [r]);
    var before := Program(rom, rs);
    assert [r][1..] == [];
    assert Program(before, [r]) == Overwrite(before, r.ofs, Whole(r.data));
  }

  // ---------------------------------------------------------------- device

  const CTL: byte := 0x18
  const ADDR: byte := 0x19
  const OFST_LO: byte := 0x1A
  const OFST_HI: byte := 0x1B
  const BUFF: byte := 0x1C
  const DETECT: byte := 0x1E
  const STATE: byte := 0x1F

  const FOR_WRITE: byte := 0xA0
  const FOR_READ: byte := 0xA1
  const CTL_DEFAULT: byte := 0x48

  /** The part's EEPROM interface. */
  datatype Part = Part(rom: Rom, dir: byte, lo: byte, hi: byte, buff: seq<byte>)

  function At(p: Part): nat { p.hi * 256 + p.lo }

  /** A register write. Bit 0 of the control register starts a transfer between the buffer and
      the EEPROM, in the direction the address register says; a write into the EEPROM may come
      to nothing although the bus acknowledged it. */
  function Write(p: Part, reg: byte, b: byte, burns: bool): (q: Part)
    ensures |q.rom| == |p.rom| && (reg != CTL ==> q.rom == p.rom)
  {
    if reg == ADDR then p.(dir := b)
    else if reg == OFST_LO then p.(lo := b, buff := [])
    else if reg == OFST_HI then p.(hi := b)
    else if reg == BUFF then p.(buff := p.buff + [b])
    else if reg == CTL && b % 2 == 1 && p.dir == FOR_WRITE then
      p.(rom := if burns then Overwrite(p.rom, At(p), p.buff) else p.rom, buff := [])
    else if reg == CTL && b % 2 == 1 && p.dir == FOR_READ && At(p) + GROUP <= |p.rom| then
      p.(buff := p.rom[At(p)..At(p) + GROUP])
    else p
  }

  /** How a bus write ends: acknowledged or not, taken all the same or not, and whether an
      EEPROM write it starts takes effect. */
  datatype Answer = Answer(acked: bool, taken: bool, burns: bool)

  /** What a register read finds: whether it is acknowledged, the EEPROM address the part has
      detected, and the state of the EEPROM. */
  datatype Reading = Reading(acked: bool, address: byte, state: byte)

  /** What went well on the bus: a register written, a register address set, a byte read from it,
      the EEPROM seen ready. */
  datatype Event = Put(reg: byte, b: byte) | Pointed(reg: byte) | Got(reg: byte) | Ready

  /** Direction, and the offset low byte first. */
  function AimWire(dir: byte, offset: nat): seq<Event>
    requires offset < 0x1_0000
  {
    [Put(0x19, dir), Put(0x1A, offset % 256), Put(0x1B, offset / 256)]
  }

  function FillWire(bytes: seq<byte>): seq<Event> {
    if bytes == [] then [] else FillWire(bytes[..|bytes| - 1]) + [Put(0x1C, bytes[|bytes| - 1])]
  }

  function TakeWire(n: nat): seq<Event> { if n == 0 then [] else TakeWire(n - 1) + [Got(0x1C)] }

  /** A group written: the data, the wait, the trigger and its reset. */
  function LoadWire(offset: nat, bytes: seq<byte>): seq<Event>
    requires offset < 0x1_0000
  {
    AimWire(0xA0, offset) + FillWire(bytes) + [Ready, Put(0x18, 0x49), Put(0x18, 0x48), Pointed(0x18)]
  }

  /** The set-up of the EEPROM interface, its address put right where the part has detected another. */
  function SetUpWire(address: byte): seq<Event> {
    [Got(0x1E)] + (if address == 0xA0 then [] else [Put(0x19, 0xA0)]) + [Put(0x1F, 0x20), Put(0x18, 0x48)]
  }

  /** The first k groups of a record, each written and read back. */
  function GroupsWire(offset: nat, bytes: seq<byte>, k: nat): seq<Event>
    requires 8 * k <= |bytes| && offset + |bytes| <= 0x1_0000
  {
    if k == 0 then []
    else
      var at, group := offset + 8 * (k - 1), bytes[8 * (k - 1)..8 * k];
      GroupsWire(offset, bytes, k - 1) + (LoadWire(at, group) + ReadWire(at))
  }

  /** A group read. */
  function ReadWire(offset: nat): seq<Event>
    requires offset < 0x1_0000
  {
    AimWire(0xA1, offset) + [Put(0x18, 0x01), Put(0x18, 0x00)] + TakeWire(8)
  }

  datatype Status = Success | UpdateFail | OverLength

  class HexUpdater {
    var part: Part
    var sends: nat
    var polls: nat
    ghost var wire: seq<Event>
    const answers: nat -> Answer
    const readings: nat -> Reading
    const identified: bool

    constructor (part: Part, answers: nat -> Answer, readings: nat -> Reading, identified: bool)
      ensures this.part == part && this.answers == answers && this.readings == readings && this.identified == identified && wire == []
    {
      this.part, sends, polls, wire := part, 0, 0, [];
      this.answers, this.readings, this.identified := answers, readings, identified;
    }

    /** Everything is acknowledged and takes effect, and the EEPROM is always ready. */
    ghost predicate Healthy() {
      (forall i :: answers(i).acked && answers(i).burns) &&
      (forall i :: readings(i).acked && Idle(readings(i).state)) && identified
    }

    static predicate Idle(state: byte) { state / 32 % 2 == 1 && state / 128 == 1 }

    method Send(reg: byte, b: byte) returns (ok: bool, ghost taken: bool, ghost burns: bool)
      modifies this`part, this`sends, this`wire
      ensures part == if taken then Write(old(part), reg, b, burns) else old(part)
      ensures wire == if ok then old(wire) + [Put(reg, b)] else old(wire)
      ensures ok ==> taken
      ensures Healthy() ==> ok && burns
    {
      var answer := answers(sends);
      sends := sends + 1;
      ok, taken, burns := answer.acked, answer.acked || answer.taken, answer.burns;
      if answer.acked || answer.taken {
        part := Write(part, reg, b, answer.burns);
      }
      if ok {
        wire := wire + [Put(reg, b)];
      }
    }

    /** A write of the register address alone. */
    method Point(reg: byte) returns (ok: bool)
      modifies this`sends, this`wire
      ensures wire == if ok then old(wire) + [Pointed(reg)] else old(wire)
      ensures Healthy() ==> ok
    {
      ok := answers(sends).acked;
      sends := sends + 1;
      if ok {
        wire := wire + [Pointed(reg)];
      }
    }

    /** A write that touches no more than the interface registers. */
    method Set(reg: byte, b: byte) returns (ok: bool)
      requires reg != CTL
      modifies this`part, this`sends, this`wire
      ensures part.rom == old(part).rom
      ensures ok ==> part == Write(old(part), reg, b, true)
      ensures wire == if ok then old(wire) + [Put(reg, b)] else old(wire)
      ensures Healthy() ==> ok
    {
      ghost var taken, burns;
      ok, taken, burns := Send(reg, b);
    }

    /** Direction and offset, as both the upload and the read-back set them. */
    method Aim(dir: byte, offset: nat) returns (ok: bool)
      requires offset < EEPROM
      modifies this`part, this`sends, this`wire
      ensures part.rom == old(part).rom
      ensures ok ==> part.dir == dir && At(part) == offset && part.buff == []
      ensures ok ==> wire == old(wire) + AimWire(dir, offset)
      ensures Healthy() ==> ok
    {
      ok := Set(ADDR, dir);
      if !ok { return; }
      ok := Set(OFST_LO, offset % 256);
      if !ok { return; }
      ok := Set(OFST_HI, offset / 256);
    }

    /** The read trigger and its reset fill the buffer. */
    method Fetch(offset: nat) returns (ok: bool)
      requires |part.rom| == EEPROM && offset + GROUP <= EEPROM
      modifies this
      ensures part.rom == old(part).rom
      ensures ok ==> part.buff == part.rom[offset..offset + GROUP]
      ensures ok ==> wire == old(wire) + (AimWire(0xA1, offset) + [Put(0x18, 0x01), Put(0x18, 0x00)])
      ensures Healthy() ==> ok
    {
      hide Overwrite;
      ok := Aim(FOR_READ, offset);
      if !ok { return; }
      ghost var taken, burns;
      ok, taken, burns := Send(CTL, 1);
      if !ok { return; }
      ok, taken, burns := Send(CTL, 0);
    }

    /** One byte out of the buffer. */
    method Take() returns (ok: bool, b: byte)
      requires part.buff != []
      modifies this
      ensures if ok then part == old(part).(buff := old(part).buff[1..]) && b == old(part).buff[0] else part == old(part)
      ensures ok ==> wire == old(wire) + [Got(0x1C)]
      ensures Healthy() ==> ok
    {
      b := part.buff[0];
      ok := readings(polls).acked;
      polls := polls + 1;
      if ok {
        part := part.(buff := part.buff[1..]);
        wire := wire + [Got(BUFF)];
      }
    }

    /** ds160pt801_read_data. */
    method ReadData(offset: nat) returns (ok: bool, rxbuf: seq<byte>)
      requires |part.rom| == EEPROM && offset + GROUP <= EEPROM
      modifies this
      ensures part.rom == old(part).rom
      ensures ok ==> rxbuf == part.rom[offset..offset + GROUP]
      ensures ok ==> wire == old(wire) + ReadWire(offset)
      ensures Healthy() ==> ok
    {
      rxbuf := [];
      ok := Fetch(offset);
      if !ok { return; }
      ghost var read := part.buff;
      assert read[0..] == read;
      for i := 0 to GROUP
        invariant ok && part.rom == old(part).rom && rxbuf == read[..i] && part.buff == read[i..]
        invariant wire == old(wire) + (AimWire(0xA1, offset) + [Put(0x18, 0x01), Put(0x18, 0x00)] + TakeWire(i))
      {
        var b;
        ok, b := Take();
        if !ok { return; }
        rxbuf := rxbuf + [b];
      }
    }

    /** Up to three looks at the status. */
    method WaitReady() returns (ok: bool)
      modifies this`polls, this`wire
      ensures ok <==> exists i :: old(polls) <= i < old(polls) + 3 && readings(i).acked && readings(i).state / 32 % 2 == 1 && readings(i).state / 128 == 1 &&
                        forall j :: old(polls) <= j < i ==> readings(j).acked
      ensures wire == if ok then old(wire) + [Ready] else old(wire)
      ensures Healthy() ==> ok
    {
      for try := 0 to 3
        invariant polls == old(polls) + try && wire == old(wire) && (Healthy() ==> try == 0)
        invariant forall j :: old(polls) <= j < polls ==> readings(j).acked && !Idle(readings(j).state)
      {
        var reading := readings(polls);
        polls := polls + 1;
        if !reading.acked { return false; }
        if Idle(reading.state) {
          wire := wire + [Ready];
          return true;
        }
      }
      ok := false;
    }

    /** The data of a group into the buffer. */
    method Fill(txbuf: seq<byte>) returns (ok: bool)
      requires part.buff == []
      modifies this`part, this`sends, this`wire
      ensures part.rom == old(part).rom
      ensures ok ==> part == old(part).(buff := txbuf)
      ensures ok ==> wire == old(wire) + FillWire(txbuf)
      ensures Healthy() ==> ok
    {
      hide FillWire;
      ok := true;
      FillNone();
      assert txbuf[..0] == [];
      for i := 0 to |txbuf|
        invariant ok && part == old(part).(buff := txbuf[..i])
        invariant wire == old(wire) + FillWire(txbuf[..i])
      {
        ok := Set(BUFF, txbuf[i]);
        if !ok { return; }
        assert txbuf[..i] + [txbuf[i]] == txbuf[..i + 1];
        FillOne(txbuf, i);
        Wires2(old(wire), FillWire(txbuf[..i]), [Put(0x1C, txbuf[i])]);
      }
      assert txbuf[..|txbuf|] == txbuf;
    }

    /** The write trigger and its reset. */
    method Trigger() returns (ok: bool, ghost burns: bool)
      requires part.dir == FOR_WRITE
      modifies this
      ensures part.rom == if burns then Overwrite(old(part).rom, At(old(part)), old(part).buff) else old(part).rom
      ensures ok ==> wire == old(wire) + [Put(0x18, 0x49), Put(0x18, 0x48)]
      ensures Healthy() ==> ok && burns
    {
      hide Overwrite;
      ghost var taken;
      ok, taken, burns := Send(CTL, CTL_DEFAULT + 1);
      burns := taken && burns;
      if !ok { return; }
      ghost var again;
      ok, taken, again := Send(CTL, CTL_DEFAULT);
    }

    /** The group into the buffer, and the EEPROM ready for it. */
    method Stage(offset: nat, txbuf: seq<byte>) returns (ok: bool)
      requires offset < EEPROM
      modifies this
      ensures part.rom == old(part).rom
      ensures ok ==> part.dir == FOR_WRITE && At(part) == offset && part.buff == txbuf
      ensures ok ==> wire == old(wire) + AimWire(0xA0, offset) + FillWire(txbuf) + [Ready]
      ensures Healthy() ==> ok
    {
      hide Overwrite, AimWire, FillWire;
      ok := Aim(FOR_WRITE, offset);
      if !ok { return; }
      ok := Fill(txbuf);
      if !ok { return; }
      ok := WaitReady();
    }

    /** The write half of an upload; its trigger may be acknowledged without effect. */
    method Load(offset: nat, txbuf: seq<byte>) returns (ok: bool, ghost burns: bool)
      requires offset < EEPROM
      modifies this
      ensures part.rom == if burns then Overwrite(old(part).rom, offset, txbuf) else old(part).rom
      ensures ok ==> wire == old(wire) + LoadWire(offset, txbuf)
      ensures Healthy() ==> ok && burns
    {
      hide Overwrite, AimWire, FillWire, LoadWire, At, Idle;
      burns := false;
      ok := Stage(offset, txbuf);
      if !ok { return; }
      ok, burns := Trigger();
      if !ok { return; }
      ok := Point(CTL);
      LoadWires(old(wire), offset, txbuf);
    }

    /** ds160pt801_upload_data. Success means the group is in the EEPROM, even where a trigger
        may be acknowledged without effect: that is what the read-back is for. */
    method Upload(offset: nat, txbuf: seq<byte>) returns (ok: bool)
      requires |part.rom| == EEPROM && offset + GROUP <= EEPROM
      modifies this
      ensures part.rom == old(part).rom || (|txbuf| == GROUP && part.rom == Overwrite(old(part).rom, offset, txbuf))
      ensures ok ==> |txbuf| == GROUP && part.rom == Overwrite(old(part).rom, offset, txbuf)
      ensures ok ==> wire == old(wire) + (LoadWire(offset, txbuf) + ReadWire(offset))
      ensures Healthy() && |txbuf| == GROUP ==> ok
    {
      hide Overwrite, LoadWire, ReadWire;
      if |txbuf| != GROUP {
        return false;
      }
      ghost var burns;
      ok, burns := Load(offset, txbuf);
      if !ok { return; }
      var rxbuf;
      ok, rxbuf := ReadData(offset);
      if !ok { return; }
      SameOverwrite(old(part).rom, offset, txbuf);
      if rxbuf != txbuf {
        return false;
      }
    }

    /** ds160pt801_pre_update after the part has been identified. */
    method PreUpdate() returns (ok: bool)
      modifies this
      ensures part.rom == old(part).rom
      ensures ok ==> wire == old(wire) + SetUpWire(readings(old(polls)).address)
      ensures Healthy() ==> ok
    {
      ok := identified;
      if !ok { return; }
      var reading := readings(polls);
      polls := polls + 1;
      if !reading.acked { return false; }
      wire := wire + [Got(DETECT)];
      if reading.address != FOR_WRITE {
        ok := Set(ADDR, FOR_WRITE);
        if !ok { return; }
      }
      ok := Set(STATE, 0x20);
      if !ok { return; }
      ghost var taken, burns;
      ok, taken, burns := Send(CTL, CTL_DEFAULT);
    }

    /** The whole groups of a record, in order; a failure leaves a prefix of them. */
    method PutGroups(offset: nat, txbuf: seq<byte>) returns (ok: bool, ghost put: nat)
      requires |part.rom| == EEPROM && offset + |txbuf| <= EEPROM
      modifies this
      ensures put <= |Whole(txbuf)| && part.rom == Overwrite(old(part).rom, offset, txbuf[..put])
      ensures ok ==> put == |Whole(txbuf)| && wire == old(wire) + GroupsWire(offset, txbuf, |txbuf| / 8)
      ensures Healthy() ==> ok
    {
      hide Overwrite, Whole, LoadWire, ReadWire, GroupsWire;
      NoGroups(offset, txbuf);
      put := 0;
      ok := true;
      ghost var rom, start := part.rom, wire;
      OverwriteNothing(rom, offset, txbuf);
      var at, rest := offset, txbuf;
      while rest != []
        invariant ok && put <= |txbuf| && put % GROUP == 0 && at == offset + put
        invariant rest == txbuf[put..] || (rest == [] && |txbuf| - put < GROUP)
        invariant part.rom == Overwrite(rom, offset, txbuf[..put])
        invariant wire == start + GroupsWire(offset, txbuf, put / 8)
        decreases |rest|
      {
        if |rest| < GROUP {
          rest := [];
          break;
        }
        NextGroup(rom, start, offset, txbuf, put);
        ghost var was := part.rom;
        ok := Upload(at, rest[..GROUP]);
        if part.rom != was || ok {
          put := put + GROUP;
        }
        if !ok { return; }
        rest := rest[GROUP..];
        at := at + GROUP;
      }
      GroupsDone(|txbuf|, put, |Whole(txbuf)|);
    }

    /** ds160pt801_do_update: the whole groups of a record, behind the set-up at offset 0. */
    method DoUpdate(offset: nat, txbuf: seq<byte>) returns (ok: bool, ghost put: nat)
      requires |part.rom| == EEPROM && offset + |txbuf| <= EEPROM
      modifies this
      ensures put <= |Whole(txbuf)| && part.rom == Overwrite(old(part).rom, offset, txbuf[..put])
      ensures ok ==> put == |Whole(txbuf)|
      ensures ok ==> wire == old(wire) + (if offset == 0 then SetUpWire(readings(old(polls)).address) else []) +
                             GroupsWire(offset, txbuf, |txbuf| / 8)
      ensures Healthy() ==> ok
    {
      hide Overwrite, Whole, SetUpWire, GroupsWire;
      put := 0;
      ok := true;
      OverwriteNothing(part.rom, offset, txbuf);
      if offset == 0 {
        ok := PreUpdate();
        if !ok { return; }
      }
      ok, put := PutGroups(offset, txbuf);
    }

    /** ds160pt801_fw_update. Success programs exactly the records of the whole lines in the
        message and reports how far it got; a failure leaves some whole records and a prefix of
        the next. */
    method FwUpdate(offset: nat, msg: string) returns (status: Status, nextOfs: nat, used: nat, ghost done: nat, ghost put: nat)
      requires |part.rom| == EEPROM
      requires forall k :: 0 <= k < |Parse(Used(msg)).recs| ==> InEeprom(Parse(Used(msg)).recs[k])
      modifies this
      ensures status == OverLength <==> |msg| > SECTOR
      ensures status == OverLength ==> nextOfs == offset && used == |msg| && part == old(part)
      ensures status != OverLength ==> used == |Used(msg)| && nextOfs == offset + used
      ensures status.Success? ==> Parse(Used(msg)).ok && part.rom == Program(old(part).rom, Parse(Used(msg)).recs)
      ensures status.UpdateFail? && !Parse(Used(msg)).ok ==> part == old(part)
      ensures status.UpdateFail? && Parse(Used(msg)).ok ==>
                var rs := Parse(Used(msg)).recs;
                done < |rs| && put <= |Whole(rs[done].data)| &&
                part.rom == Overwrite(Program(old(part).rom, rs[..done]), rs[done].ofs, rs[done].data[..put])
      ensures Healthy() && |msg| <= SECTOR && Parse(Used(msg)).ok ==> status.Success?
    {
      hide Parse, Overwrite, Program, Whole, SetUpWire, GroupsWire;
      ProgramNone(part.rom, []);
      done, put := 0, 0;
      if |msg| > SECTOR {
        return OverLength, offset, |msg|, 0, 0;
      }
      used := |msg| / FULL_LINE * FULL_LINE;
      nextOfs := offset + used;
      assert msg[..used] == Used(msg);
      var ok, lines := Parsing(msg[..used]);
      if !ok {
        return UpdateFail, nextOfs, used, 0, 0;
      }
      ghost var rom := part.rom;
      assert lines[..0] == [];
      for i := 0 to |lines|
        invariant |part.rom| == EEPROM && part.rom == Program(rom, lines[..i])
      {
        done := i;
        var r := lines[i];
        ok, put := DoUpdate(r.ofs, r.data);
        if !ok {
          return UpdateFail, nextOfs, used, done, put;
        }
        ProgramOne(rom, lines, i);
        assert r.data[..put] == Whole(r.data);
      }
      assert lines[..|lines|] == lines;
      status := Success;
    }
  }

  lemma NoGroups(offset: nat, bytes: seq<byte>)
    requires offset + |bytes| <= EEPROM
    ensures GroupsWire(offset, bytes, 0) == []
  {
  }

  /** What a further group adds to the EEPROM and to the wire. */
  lemma NextGroup(rom: Rom, start: seq<Event>, offset: nat, bytes: seq<byte>, put: nat)
    requires put % GROUP == 0 && put + GROUP <= |bytes| && offset + |bytes| <= EEPROM == |rom|
    ensures var at, group := offset + put, bytes[put..][..GROUP];
            Overwrite(Overwrite(rom, offset, bytes[..put]), at, group) == Overwrite(rom, offset, bytes[..put + GROUP]) &&
            start + GroupsWire(offset, bytes, put / 8) + (LoadWire(at, group) + ReadWire(at)) ==
            start + GroupsWire(offset, bytes, (put + GROUP) / 8)
  {
    hide Overwrite, LoadWire, ReadWire;
    var k := put / 8 + 1;
    var at, group := offset + put, bytes[put..][..GROUP];
    assert bytes[8 * (k - 1)..8 * k] == group && 8 * (k - 1) == put && (put + GROUP) / 8 == k;
    OverwriteTwice(rom, offset, bytes[..put], group);
    assert bytes[..put] + group == bytes[..put + GROUP];
    Wires2(start, GroupsWire(offset, bytes, k - 1), LoadWire(at, group) + ReadWire(at));
  }

  lemma FillNone()
    ensures FillWire([]) == []
  {
  }

  lemma FillOne(bytes: seq<byte>, i: nat)
    requires i < |bytes|
    ensures FillWire(bytes[..i + 1]) == FillWire(bytes[..i]) + [Put(0x1C, bytes[i])]
  {
    assert bytes[..i + 1][..i] == bytes[..i];
  }

  lemma LoadWires(w: seq<Event>, offset: nat, bytes: seq<byte>)
    requires offset < EEPROM
    ensures w + AimWire(0xA0, offset) + FillWire(bytes) + [Ready] + [Put(0x18, 0x49), Put(0x18, 0x48)] + [Pointed(0x18)] ==
            w + LoadWire(offset, bytes)
  {
    hide AimWire, FillWire;
    var end := [Ready, Put(0x18, 0x49), Put(0x18, 0x48), Pointed(0x18)];
    assert [Ready] + [Put(0x18, 0x49), Put(0x18, 0x48)] + [Pointed(0x18)] == end;
    Wires5(w, AimWire(0xA0, offset), FillWire(bytes), [Ready], [Put(0x18, 0x49), Put(0x18, 0x48)], [Pointed(0x18)]);
  }

  lemma Wires5(w: seq<Event>, a: seq<Event>, b: seq<Event>, c: seq<Event>, d: seq<Event>, e: seq<Event>)
    ensures w + a + b + c + d + e == w + (a + b + (c + d + e))
  {
  }

  lemma Wires2(w: seq<Event>, a: seq<Event>, b: seq<Event>)
    ensures w + a + b == w + (a + b)
  {
  }

  /** What reads back as written is as if written. */
  lemma SameOverwrite(rom: Rom, at: nat, bytes: seq<byte>)
    requires at + |bytes| <= |rom|
    ensures Overwrite(rom, at, bytes)[at..at + |bytes|] == bytes
    ensures rom[at..at + |bytes|] == bytes ==> Overwrite(rom, at, bytes) == rom
  {
  }

  lemma OverwriteNothing(rom: Rom, at: nat, bytes: seq<byte>)
    ensures Overwrite(rom, at, bytes[..0]) == rom
  {
  }

  lemma GroupsDone(n: nat, a: nat, b: nat)
    requires a % GROUP == 0 && a <= n < a + GROUP && b % GROUP == 0 && b <= n < b + GROUP
    ensures a == b
  {
  }

  lemma ProgramOne(rom: Rom, rs: seq<Record>, i: nat)
    requires i < |rs|
    ensures Program(rom, rs[..i + 1]) == Overwrite(Program(rom, rs[..i]), rs[i].ofs, Whole(rs[i].data))
  {
    hide Overwrite, Whole;
    assert rs[..i + 1] == rs[..i] + [rs[i]];
    ProgramSplit(rom, rs[..i], [rs[i]]);
    var before := Program(rom, rs[..i]);
    assert [rs[i]][1..] == [];
    assert Program(before, [rs[i]]) == Program(Overwrite(before, rs[i].ofs, Whole(rs[i].data)), []);
  }
}
