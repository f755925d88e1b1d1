// The EEPROM update of common/dev/pt5161l.c: messages collect in a 256-byte sector buffer,
// a sector goes out as 32-byte blocks, a block as 4-byte register writes, and the part burns
// blocks into its EEPROM.
module Retimer {
  import opened CText
  import Modular

  const SECTOR: nat := 256
  const BLOCK: nat := 32
  const PAGE_64K: nat := 0x1_0000
  const MAX_OFFSET: nat := 0x4_0000

  const IC_CMD: nat := 0xD04
  const DATA0: nat := 0xD05
  const DATA1: nat := 0xD06
  const CMD: nat := 0xD09
  const ASSIST: nat := 0x920
  const DATA2: nat := 0xD07
  const DATA3: nat := 0xD08
  const HOLD: nat := 0x88E7

  const IC_TAR: byte := 0x04
  const IC_DATA: byte := 0x10
  const IC_ENABLE: byte := 0x6C

  const WRITE_REG: byte := 0x81
  const WRITE_END: byte := 0x82

  type Rom = map<nat, byte>

  // ------------------------------------------------------------------ memory

  /** The memory once bytes have been burnt from an address on. */
  function Burn(rom: Rom, at: nat, bytes: seq<byte>): Rom
    decreases |bytes|
  {
    if bytes == [] then rom else Burn(rom[at := bytes[0]], at + 1, bytes[1..])
  }

  /** A burn sets exactly the addresses it covers, in order, and leaves every other byte. */
  lemma {:induction false} BurnExact(rom: Rom, at: nat, bytes: seq<byte>, k: nat)
    ensures at <= k < at + |bytes| ==> k in Burn(rom, at, bytes) && Burn(rom, at, bytes)[k] == bytes[k - at]
    ensures !(at <= k < at + |bytes|) ==> (k in Burn(rom, at, bytes) <==> k in rom) && (k in rom ==> Burn(rom, at, bytes)[k] == rom[k])
    decreases |bytes|
  {
    if bytes != [] {
      BurnExact(rom[at := bytes[0]], at + 1, bytes[1..], k);
    }
  }

  lemma {:induction false} BurnTwice(rom: Rom, at: nat, x: seq<byte>, y: seq<byte>)
    ensures Burn(Burn(rom, at, x), at + |x|, y) == Burn(rom, at, x + y)
    decreases |x|
  {
    if x == [] {
      assert x + y == y;
    } else {
      assert (x + y)[1..] == x[1..] + y;
      BurnTwice(rom[at := x[0]], at + 1, x[1..], y);
    }
  }

  // ------------------------------------------------------------ the retimer

  /** Registers of the part that the EEPROM path uses. */
  datatype Core = Core(
    rom: Rom,
    target: nat,            // I2C address of the EEPROM page, 0x50 to 0x53
    enabled: bool,          // the part's I2C controller is on
    open: bool,             // a transfer to the EEPROM has been addressed and not stopped
    addr: nat,              // EEPROM address counter, 16 bits
    ic: byte,               // controller register the next trigger writes
    data0: byte,
    hold: seq<byte>)        // holding registers

  predicate CoreOk(c: Core) { |c.hold| == BLOCK && c.addr < PAGE_64K }

  function Base(c: Core): nat { c.target % 4 * PAGE_64K }

  /** The command register passes DATA0 to a controller register: the enable bit, the target
      address (settable only while disabled), or a byte onto the bus. */
  function Trigger(c: Core): (d: Core)
    requires CoreOk(c)
    ensures CoreOk(d) && d.rom == c.rom && d.hold == c.hold
  {
    if c.ic == IC_ENABLE then c.(enabled := c.data0 % 2 == 1, open := false)
    else if c.ic == IC_TAR && !c.enabled then c.(target := c.data0)
    else if c.ic == IC_DATA && c.enabled then c.(addr := (c.addr * 256 + c.data0) % PAGE_64K, open := true)
    else c
  }

  /** The controller talks to one of the EEPROM's four pages. */
  predicate OnEeprom(c: Core) { 0x50 <= c.target <= 0x53 }

  /** The microcontroller burns the holding registers into the EEPROM, if it is that what the
      controller talks to; the end code also stops the transfer. */
  function Assist(c: Core, code: byte): (d: Core)
    requires CoreOk(c)
    ensures CoreOk(d)
  {
    if c.open && (code == WRITE_REG || code == WRITE_END) then
      c.(rom := if OnEeprom(c) then Burn(c.rom, Base(c) + c.addr, c.hold) else c.rom, addr := (c.addr + BLOCK) % PAGE_64K, open := code == WRITE_REG)
    else c
  }

  /** A byte written to a register. */
  function Poke(c: Core, reg: nat, b: byte): (d: Core)
    requires CoreOk(c)
    ensures CoreOk(d) && (reg != ASSIST ==> d.rom == c.rom)
  {
    if reg == IC_CMD then c.(ic := b)
    else if reg == DATA0 then c.(data0 := b)
    else if reg == CMD then (if b == 1 then Trigger(c) else c)
    else if reg == ASSIST then Assist(c, b)
    else if HOLD <= reg < HOLD + BLOCK then c.(hold := c.hold[reg - HOLD := b])
    else c
  }

  /** Bytes written to consecutive registers, with 16-bit register addresses. */
  function Pokes(c: Core, reg: nat, bytes: seq<byte>): (d: Core)
    requires CoreOk(c)
    ensures CoreOk(d)
    decreases |bytes|
  {
    if bytes == [] then c else Pokes(Poke(c, reg % 0x1_0000, bytes[0]), reg + 1, bytes[1..])
  }

  lemma {:induction false} PokesSplit(c: Core, reg: nat, a: seq<byte>, b: seq<byte>)
    requires CoreOk(c)
    ensures Pokes(c, reg, a + b) == Pokes(Pokes(c, reg, a), reg + |a|, b)
    decreases |a|
  {
    hide Poke;
    if a == [] {
      assert a + b == b;
    } else {
      assert (a + b)[1..] == a[1..] + b;
      PokesSplit(Poke(c, reg % 0x1_0000, a[0]), reg + 1, a[1..], b);
    }
  }

  /** Only the assist register burns. */
  lemma {:induction false} PokesKeepRom(c: Core, reg: nat, bytes: seq<byte>)
    requires CoreOk(c) && reg + |bytes| <= 0x1_0000 && !(reg <= ASSIST < reg + |bytes|)
    ensures Pokes(c, reg, bytes).rom == c.rom
    decreases |bytes|
  {
    hide Poke;
    if bytes != [] {
      PokesKeepRom(Poke(c, reg, bytes[0]), reg + 1, bytes[1..]);
    }
  }

  /** Bytes written into the holding registers from the k-th on. */
  lemma {:induction false} PokesHold(c: Core, k: nat, bytes: seq<byte>)
    requires CoreOk(c) && k + |bytes| <= BLOCK
    ensures Pokes(c, HOLD + k, bytes) == c.(hold := c.hold[..k] + bytes + c.hold[k + |bytes|..])
    decreases |bytes|
  {
    hide Pokes;
    PokesStep(c, HOLD + k, bytes);
    if bytes == [] {
      HoldSet(c.hold, k, bytes);
    } else {
      var d := Poke(c, HOLD + k, bytes[0]);
      PokesHold(d, k + 1, bytes[1..]);
      HoldSet(c.hold, k, bytes);
    }
  }

  lemma HoldSet(h: seq<byte>, k: nat, bytes: seq<byte>)
    requires k + |bytes| <= |h|
    ensures bytes == [] ==> h[..k] + bytes + h[k + |bytes|..] == h
    ensures bytes != [] ==>
              var d := h[k := bytes[0]];
              d[..k + 1] + bytes[1..] + d[k + 1 + |bytes[1..]|..] == h[..k] + bytes + h[k + |bytes|..]
  {
  }

  lemma PokesStep(c: Core, reg: nat, bytes: seq<byte>)
    requires CoreOk(c)
    ensures Pokes(c, reg, bytes) == if bytes == [] then c else Pokes(Poke(c, reg % 0x1_0000, bytes[0]), reg + 1, bytes[1..])
  {
    hide Poke;
  }

  lemma PokesOne(c: Core, reg: nat, b: byte)
    requires CoreOk(c) && reg < 0x1_0000
    ensures Pokes(c, reg, [b]) == Poke(c, reg, b)
  {
    hide Poke, Pokes;
    assert [b][1..] == [] && [b][0] == b && reg % 0x1_0000 == reg;
    PokesStep(c, reg, [b]);
    PokesStep(Poke(c, reg, b), reg + 1, []);
  }

  // ------------------------------------------- what the messages amount to

  /** One update message: EEPROM offset, data, and whether it ends the image. */
  datatype Message = Message(ofs: nat, data: seq<byte>, end: bool)

  /** The static record of pcie_retimer_fw_update. */
  datatype Static = Static(active: bool, start: nat, buf: seq<byte>)

  function Zeros(n: nat): (z: seq<byte>)
    ensures |z| == n
  {
    seq(n, i => 0)
  }

  /** Bytes padded with zeros to whole blocks. */
  function Padded(bytes: seq<byte>): (p: seq<byte>)
    ensures |p| % BLOCK == 0 && |bytes| <= |p| < |bytes| + BLOCK && p[..|bytes|] == bytes
    ensures forall k :: |bytes| <= k < |p| ==> p[k] == 0
  {
    if |bytes| % BLOCK == 0 then bytes else bytes + Zeros(BLOCK - |bytes| % BLOCK)
  }

  /** Where an offset falls in the four 64 KiB pages of the EEPROM. */
  function Place(ofs: nat): nat { ofs % MAX_OFFSET }

  /** Bytes from an offset on that stay in one 64 KiB page. */
  predicate InPage(ofs: nat, n: nat) { ofs % PAGE_64K + n <= PAGE_64K }

  /** What goes out for a sector: only the last one is padded. */
  function Outgoing(buf: seq<byte>, end: bool): seq<byte> { if end then Padded(buf) else buf }

  /** The sector buffer has room for a message, and its sector stays in one 64 KiB page. */
  predicate Room(st: Static, m: Message) {
    var start, buf := if st.active then st.start else m.ofs, (if st.active then st.buf else []) + m.data;
    |buf| <= SECTOR && InPage(start, |Outgoing(buf, m.end)|)
  }

  /** A message that succeeds: it joins the sector, and a full or final sector is burnt. */
  function Accept(st: Static, rom: Rom, m: Message): (r: (Static, Rom))
  {
    var start := if st.active then st.start else m.ofs;
    var buf := (if st.active then st.buf else []) + m.data;
    if |buf| == SECTOR || m.end then (Static(false, start, buf), Burn(rom, Place(start), Outgoing(buf, m.end)))
    else (Static(true, start, buf), rom)
  }

  function AcceptAll(st: Static, rom: Rom, ms: seq<Message>): (Static, Rom)
    decreases |ms|
  {
    if ms == [] then (st, rom)
    else
      var r := Accept(st, rom, ms[0]);
      AcceptAll(r.0, r.1, ms[1..])
  }

  function Payload(ms: seq<Message>): seq<byte> {
    if ms == [] then [] else ms[0].data + Payload(ms[1..])
  }

  /** Messages that continue each other from an offset on, none across a sector boundary, the
      last and only the last flagged as the end. */
  predicate Contiguous(ms: seq<Message>, ofs: nat) {
    ms != [] && ms[0].ofs == ofs && ofs % SECTOR + |ms[0].data| <= SECTOR &&
    (if |ms| == 1 then ms[0].end else !ms[0].end && Contiguous(ms[1..], ofs + |ms[0].data|))
  }

  /** Every earlier sector is burnt and the buffer holds the rest of what came so far. */
  predicate InStep(st: Static, ofs: nat) {
    if st.active then st.start % SECTOR == 0 && ofs == st.start + |st.buf| && |st.buf| < SECTOR
    else ofs % SECTOR == 0
  }

  lemma SectorOffset(start: nat, n: nat)
    requires start % SECTOR == 0 && n < SECTOR
    ensures (start + n) % SECTOR == n && (start + SECTOR) % SECTOR == 0
  {
  }

  lemma PaddedTail(a: seq<byte>, b: seq<byte>)
    requires |a| == SECTOR
    ensures Padded(a + b) == a + Padded(b)
  {
    assert (|a| + |b|) % BLOCK == |b| % BLOCK;
    if |b| % BLOCK != 0 {
      assert (a + b) + Zeros(BLOCK - |b| % BLOCK) == a + (b + Zeros(BLOCK - |b| % BLOCK));
    }
  }

  lemma BurnPlace(rom: Rom, at: nat, bytes: seq<byte>)
    requires at + |bytes| <= MAX_OFFSET
    ensures Burn(rom, Place(at), Padded(bytes)) == Burn(rom, at, Padded(bytes))
    ensures Burn(rom, Place(at), bytes) == Burn(rom, at, bytes)
  {
  }

  lemma {:induction false} RestIsBurnt(st: Static, rom: Rom, ms: seq<Message>, ofs: nat)
    requires Contiguous(ms, ofs) && InStep(st, ofs) && ofs + |Payload(ms)| <= MAX_OFFSET
    ensures var start := if st.active then st.start else ofs;
            var r := AcceptAll(st, rom, ms);
            !r.0.active && r.1 == Burn(rom, start, Padded((if st.active then st.buf else []) + Payload(ms)))
    decreases |ms|
  {
    hide Burn, Padded, Place;
    var m := ms[0];
    var start := if st.active then st.start else ofs;
    var had := if st.active then st.buf else [];
    var buf := had + m.data;
    SectorOffset(start, |had|);
    BurnPlace(rom, start, buf);
    var r := Accept(st, rom, m);
    if |ms| == 1 {
      assert Payload(ms) == m.data by {
        assert Payload(ms[1..]) == [];
      }
      assert AcceptAll(r.0, r.1, ms[1..]) == r;
    } else {
      var rest := Payload(ms[1..]);
      RestIsBurnt(r.0, r.1, ms[1..], ofs + |m.data|);
      assert had + Payload(ms) == buf + rest;
      if |buf| == SECTOR {
        assert (ofs + |m.data|) % SECTOR == 0;
        PaddedTail(buf, rest);
        BurnTwice(rom, start, buf, Padded(rest));
        assert [] + rest == rest;
      }
    }
  }

  /** EEPROM image exactness: successful contiguous messages from offset 0, in any sizes that do
      not cross a sector boundary, leave their concatenation, zero-padded to whole blocks, in
      the EEPROM and every other byte as it was. */
  lemma ImageExact(st: Static, rom: Rom, ms: seq<Message>, k: nat)
    requires !st.active && Contiguous(ms, 0) && |Payload(ms)| <= MAX_OFFSET
    ensures var image, after := Padded(Payload(ms)), AcceptAll(st, rom, ms).1;
            if k < |image| then k in after && after[k] == (if k < |Payload(ms)| then Payload(ms)[k] else 0)
            else (k in after <==> k in rom) && (k in rom ==> after[k] == rom[k])
    ensures !AcceptAll(st, rom, ms).0.active
  {
    hide Burn, Padded, AcceptAll, Contiguous, Payload;
    RestIsBurnt(st, rom, ms, 0);
    assert [] + Payload(ms) == Payload(ms);
    BurnExact(rom, 0, Padded(Payload(ms)), k);
  }

  // ---------------------------------------------------------------- the wire

  /** A register write that went well, the assist register read as zero, or the soft reset done. */
  datatype Event = Put(reg: nat, bytes: seq<byte>) | Idle | SoftReset

  /** Data byte i of up to four, zero where there is none. */
  function ByteAt(data: seq<byte>, i: nat): byte { if i < |data| then data[i] else 0 }

  /** A write to a register of the part's I2C controller: its number, the four data ports, the
      write command. */
  function CtrlWire(reg: byte, data: seq<byte>): seq<Event> {
    [Put(0xD04, [reg]), Put(0xD05, [ByteAt(data, 0)]), Put(0xD06, [ByteAt(data, 1)]),
     Put(0xD07, [ByteAt(data, 2)]), Put(0xD08, [ByteAt(data, 3)]), Put(0xD09, [1])]
  }

  /** Off, the 64 KiB page's address, on. */
  function PageWire(page: nat): seq<Event> {
    CtrlWire(0x6C, [0]) + CtrlWire(0x04, [0x50 + page % 4]) + CtrlWire(0x6C, [1])
  }

  /** Both bytes of the offset, high byte first. */
  function OffsetWire(offset: nat): seq<Event>
    requires offset < 0x1_0000
  {
    [Put(0xD04, [0x10]), Put(0xD06, [0]), Put(0xD05, [offset / 256]), Put(0xD09, [1]), Put(0xD05, [offset % 256]), Put(0xD09, [1])]
  }

  /** The first n groups of four bytes of a block. */
  function HoldWire(block: seq<byte>, n: nat): seq<Event>
    requires 4 * n <= |block|
  {
    if n == 0 then [] else HoldWire(block, n - 1) + [Put(0x88E7 + 4 * (n - 1), block[4 * (n - 1)..4 * n])]
  }

  /** The first k of n blocks: held, committed with 0x81, the last with 0x82, and waited for. */
  function BlocksWire(bytes: seq<byte>, n: nat, k: nat): seq<Event>
    requires k <= n && 32 * n <= |bytes|
    decreases k
  {
    if k == 0 then []
    else
      BlocksWire(bytes, n, k - 1) + HoldWire(bytes[32 * (k - 1)..32 * k], 8) +
      [Put(0x920, [if k == n then 0x82 else 0x81]), Idle]
  }

  /** The bytes of an image at an offset: page, offset, blocks. */
  function ImageWire(offset: nat, bytes: seq<byte>): seq<Event> {
    PageWire(offset / 0x1_0000) + OffsetWire(offset % 0x1_0000) + BlocksWire(bytes, |bytes| / 32, |bytes| / 32)
  }

  /** The set-up of an update: resets released, pulsed, and the controller set up. */
  function SetUpWire(): seq<Event> {
    [Put(0x600, [0, 0]), Put(0x602, [0, 0]), Put(0x602, [0, 2]), Put(0x602, [0, 0]), SoftReset] +
    (CtrlWire(0x6C, [0]) + CtrlWire(0x00, [0xE5, 0x0F]) + CtrlWire(0x04, [0x50]) +
     CtrlWire(0x38, [0]) + CtrlWire(0x3C, [4]) + CtrlWire(0x6C, [1]))
  }

  /** A sector: the set-up before the first one, the resets after the last. */
  function SectorWire(offset: nat, bytes: seq<byte>, end: bool): seq<Event> {
    (if offset == 0 then SetUpWire() else []) + ImageWire(offset, bytes) +
    (if end then [Put(0x600, [0, 2]), Put(0x602, [0, 2])] else [])
  }

  lemma ImageWires(w: seq<Event>, paged: seq<Event>, done: seq<Event>, offset: nat, bytes: seq<byte>)
    requires paged == w + PageWire(offset / 0x1_0000)
    requires done == paged + (OffsetWire(offset % 0x1_0000) + BlocksWire(bytes, |bytes| / 32, |bytes| / 32))
    ensures done == w + ImageWire(offset, bytes)
  {
    hide PageWire, OffsetWire, BlocksWire;
    Wires12(w, PageWire(offset / 0x1_0000), OffsetWire(offset % 0x1_0000), BlocksWire(bytes, |bytes| / 32, |bytes| / 32));
  }

  lemma Wires12(w: seq<Event>, a: seq<Event>, b: seq<Event>, c: seq<Event>)
    ensures w + a + (b + c) == w + (a + b + c)
  {
  }

  lemma Wires3(w: seq<Event>, a: seq<Event>, b: seq<Event>, c: seq<Event>)
    ensures w + a + b + c == w + (a + b + c)
  {
  }

  // --------------------------------------------------------------- the code

  /** How a bus write ends: acknowledged, or not with some of its bytes taken all the same. */
  datatype Answer = Answer(acked: bool, taken: nat)

  datatype Status = Success | UpdateFail | OverLength

  class RetimerUpdater {
    var core: Core
    var still: Static
    var sends: nat
    var polls: nat
    ghost var wire: seq<Event>
    const answers: nat -> Answer
    const ready: nat -> Option<byte>
    const softReset: bool

    constructor (core: Core, answers: nat -> Answer, ready: nat -> Option<byte>, softReset: bool)
      ensures this.core == core && still == Static(false, 0, []) && wire == []
      ensures this.answers == answers && this.ready == ready && this.softReset == softReset
    {
      this.core, still, sends, polls, wire := core, Static(false, 0, []), 0, 0, [];
      this.answers, this.ready, this.softReset := answers, ready, softReset;
    }

    /** Every write is acknowledged and the microcontroller is never found busy. */
    ghost predicate Healthy() {
      (forall i :: answers(i).acked) && (forall i :: ready(i) == Some(0)) && softReset
    }

    /** pt5161l_write_block_data. The bytes sent reach the registers; all of them on success. */
    method WriteBlock(address: nat, values: seq<byte>) returns (ok: bool, ghost sent: nat)
      requires CoreOk(core) && |values| < 256
      modifies this`core, this`sends, this`wire
      ensures CoreOk(core) && sent <= |values| && core == Pokes(old(core), address, values[..sent])
      ensures ok ==> sent == |values|
      ensures wire == if ok then old(wire) + [Put(address, values)] else old(wire)
      ensures address > 0xFFFF ==> !ok && sent == 0
      ensures Healthy() && address <= 0xFFFF ==> ok
    {
      hide Pokes;
      sent := 0;
      assert values[..0] == [];
      PokesStep(core, address, []);
      if address > 0xFFFF {
        return false, 0;
      }
      var at, remaining := address, values;
      while remaining != []
        invariant CoreOk(core) && sent + |remaining| == |values| && values[sent..] == remaining && at == address + sent
        invariant core == Pokes(old(core), address, values[..sent]) && wire == old(wire)
        decreases |remaining|
      {
        var curr := if |remaining| > 4 then 4 else |remaining|;
        var answer := answers(sends);
        sends := sends + 1;
        var taken := if answer.acked || answer.taken > curr then curr else answer.taken;
        PokesSplit(old(core), address, values[..sent], remaining[..taken]);
        assert values[..sent] + remaining[..taken] == values[..sent + taken];
        core := Pokes(core, at, remaining[..taken]);
        sent := sent + taken;
        if !answer.acked {
          return false, sent;
        }
        remaining := remaining[curr..];
        at := at + curr;
      }
      ok := true;
      wire := wire + [Put(address, values)];
    }

    /** A single-byte write. */
    method WriteByte(address: nat, b: byte) returns (ok: bool)
      requires CoreOk(core) && address <= 0xFFFF
      modifies this`core, this`sends, this`wire
      ensures CoreOk(core)
      ensures core == old(core) || core == Poke(old(core), address, b)
      ensures ok ==> core == Poke(old(core), address, b)
      ensures wire == if ok then old(wire) + [Put(address, [b])] else old(wire)
      ensures Healthy() ==> ok
    {
      ghost var sent;
      ok, sent := WriteBlock(address, [b]);
      PokesOne(old(core), address, b);
      assert [b][..sent] == if sent == 0 then [] else [b];
    }

    /** pt5161l_i2c_master_write_ctrl_reg. */
    method WriteCtrlReg(reg: byte, data: seq<byte>) returns (ok: bool)
      requires CoreOk(core) && 1 <= |data| <= 4
      modifies this`core, this`sends, this`wire
      ensures CoreOk(core) && core.rom == old(core).rom
      ensures ok ==> core == Trigger(old(core).(ic := reg, data0 := data[0]))
      ensures ok ==> wire == old(wire) + CtrlWire(reg, data)
      ensures Healthy() ==> ok
    {
      hide Trigger;
      var data4 := data + Zeros(4 - |data|);
      assert forall i :: 0 <= i < 4 ==> data4[i] == ByteAt(data, i);
      ok := WriteByte(IC_CMD, reg);
      if !ok { return; }
      var ports := [DATA0, DATA1, DATA2, DATA3];
      for i := 0 to 4
        invariant CoreOk(core) && core == old(core).(ic := reg, data0 := if i == 0 then old(core).data0 else data[0])
        invariant wire == old(wire) + CtrlWire(reg, data)[..i + 1]
      {
        ok := WriteByte(ports[i], data4[i]);
        if !ok { return; }
      }
      ok := WriteByte(CMD, 1);
    }

    /** pt5161l_i2c_master_set_page: the target may only change while the controller is off. */
    method SetPage(page: nat) returns (ok: bool)
      requires CoreOk(core)
      modifies this`core, this`sends, this`wire
      ensures CoreOk(core) && core.rom == old(core).rom
      ensures ok ==> core.enabled && core.target == 0x50 + page % 4 && OnEeprom(core) && Base(core) == page % 4 * PAGE_64K
      ensures ok ==> wire == old(wire) + PageWire(page)
      ensures Healthy() ==> ok
    {
      ok := WriteCtrlReg(IC_ENABLE, [0]);
      if !ok { return; }
      ok := WriteCtrlReg(IC_TAR, [0x50 + page % 4]);
      if !ok { return; }
      ok := WriteCtrlReg(IC_ENABLE, [1]);
      Wires3(old(wire), CtrlWire(0x6C, [0]), CtrlWire(0x04, [0x50 + page % 4]), CtrlWire(0x6C, [1]));
    }

    /** The head of pt5161l_i2c_master_multi_block_write: address the transfer. */
    method SendOffset(offset: nat) returns (ok: bool)
      requires CoreOk(core) && core.enabled && offset < PAGE_64K
      modifies this`core, this`sends, this`wire
      ensures CoreOk(core) && core.rom == old(core).rom
      ensures ok ==> core.open && core.addr == offset && core.target == old(core).target
      ensures ok ==> wire == old(wire) + OffsetWire(offset)
      ensures Healthy() ==> ok
    {
      ok := WriteByte(IC_CMD, IC_DATA);
      if !ok { return; }
      ok := WriteByte(DATA1, 0);
      if !ok { return; }
      ghost var before := core.addr;
      ok := Clock(offset / 256);
      if !ok { return; }
      ok := Clock(offset % 256);
      if ok {
        ShiftTwo(core.addr, offset, before);
      }
    }

    /** A byte through DATA0 onto the bus behind the part. */
    method Clock(b: byte) returns (ok: bool)
      requires CoreOk(core) && core.enabled && core.ic == IC_DATA
      modifies this`core, this`sends, this`wire
      ensures CoreOk(core) && core.rom == old(core).rom
      ensures ok ==> core == old(core).(data0 := b, open := true, addr := (old(core).addr * 256 + b) % PAGE_64K)
      ensures ok ==> wire == old(wire) + [Put(0xD05, [b]), Put(0xD09, [1])]
      ensures Healthy() ==> ok
    {
      ok := WriteByte(DATA0, b);
      if !ok { return; }
      ok := WriteByte(CMD, 1);
    }

    /** Four bytes into the holding registers. */
    method FillFour(k: nat, piece: seq<byte>) returns (ok: bool)
      requires CoreOk(core) && k + 4 <= BLOCK && |piece| == 4
      modifies this`core, this`sends, this`wire
      ensures CoreOk(core) && core.rom == old(core).rom
      ensures ok ==> core == old(core).(hold := old(core).hold[..k] + piece + old(core).hold[k + 4..])
      ensures ok ==> wire == old(wire) + [Put(0x88E7 + k, piece)]
      ensures Healthy() ==> ok
    {
      hide Pokes, Poke;
      ghost var sent;
      ok, sent := WriteBlock(HOLD + k, piece);
      PokesKeepRom(old(core), HOLD + k, piece[..sent]);
      PokesHold(old(core), k, piece);
      assert piece[..4] == piece;
    }

    /** One block into the holding registers. */
    method FillHolding(block: seq<byte>) returns (ok: bool)
      requires CoreOk(core) && |block| == BLOCK
      modifies this`core, this`sends, this`wire
      ensures CoreOk(core) && core.rom == old(core).rom
      ensures ok ==> core == old(core).(hold := block) && wire == old(wire) + HoldWire(block, 8)
      ensures Healthy() ==> ok
    {
      ok := true;
      ghost var h := core.hold;
      assert block[..0] + h[0..] == h;
      for j := 0 to BLOCK / 4
        invariant CoreOk(core) && core == old(core).(hold := block[..4 * j] + h[4 * j..]) && ok
        invariant wire == old(wire) + HoldWire(block, j)
      {
        ok := FillFour(4 * j, block[4 * j..4 * j + 4]);
        if !ok { return; }
        HoldGrows(block, h, 4 * j);
      }
      assert block[..BLOCK] + h[BLOCK..] == block;
    }

    /** Up to 30 polls until the assist register reads zero. */
    method WaitIdle() returns (ok: bool)
      modifies this`polls, this`wire
      ensures ok <==> exists i :: old(polls) <= i < old(polls) + 30 && ready(i) == Some(0) && forall j :: old(polls) <= j < i ==> ready(j).Some?
      ensures wire == if ok then old(wire) + [Idle] else old(wire)
      ensures Healthy() ==> ok
    {
      for try := 0 to 30
        invariant polls == old(polls) + try && wire == old(wire) && (Healthy() ==> try == 0)
        invariant forall j :: old(polls) <= j < polls ==> ready(j).Some? && ready(j) != Some(0)
      {
        var answer := ready(polls);
        polls := polls + 1;
        if answer.None? { return false; }
        if answer.value == 0 {
          wire := wire + [Idle];
          return true;
        }
      }
      ok := false;
    }

    /** The assist command for one block, and the wait for it. */
    method Commit(code: byte) returns (ok: bool, ghost landed: bool)
      requires CoreOk(core) && core.open && OnEeprom(core) && (code == WRITE_REG || code == WRITE_END)
      modifies this`core, this`sends, this`polls, this`wire
      ensures CoreOk(core)
      ensures core == if landed then Assist(old(core), code) else old(core)
      ensures landed ==> core.rom == Burn(old(core).rom, Base(old(core)) + old(core).addr, old(core).hold)
      ensures landed ==> core.addr == (old(core).addr + BLOCK) % PAGE_64K && core.target == old(core).target
      ensures landed ==> core.open == (code == WRITE_REG)
      ensures ok ==> landed && wire == old(wire) + [Put(0x920, [code]), Idle]
      ensures Healthy() ==> ok
    {
      hide Burn;
      ok := WriteByte(ASSIST, code);
      landed := core != old(core) || ok;
      if !ok { return; }
      ok := WaitIdle();
    }

    /** pt5161l_i2c_master_multi_block_write. Whatever fails, what has been burnt is a prefix of
        the bytes in place; success burns every whole block and stops the transfer. */
    method MultiBlockWrite(offset: nat, bytes: seq<byte>) returns (ok: bool, ghost burnt: nat)
      requires CoreOk(core) && core.enabled && OnEeprom(core) && offset < PAGE_64K && offset + |bytes| <= PAGE_64K
      modifies this`core, this`sends, this`polls, this`wire
      ensures CoreOk(core) && burnt <= |bytes| && core.rom == Burn(old(core).rom, Base(old(core)) + offset, bytes[..burnt])
      ensures ok ==> burnt == |bytes| / BLOCK * BLOCK && (burnt != 0 ==> !core.open)
      ensures ok ==> wire == old(wire) + (OffsetWire(offset) + BlocksWire(bytes, |bytes| / 32, |bytes| / 32))
      ensures Healthy() ==> ok
    {
      hide Burn, Pokes, Assist, Poke, Trigger, HoldWire, OffsetWire;
      ghost var rom, at := core.rom, Base(core) + offset;
      burnt := 0;
      assert bytes[..0] == [];
      BurnNothing(rom, at);
      ok := SendOffset(offset);
      if !ok { return; }
      var n := |bytes| / BLOCK;
      for i := 0 to n
        invariant ok && CoreOk(core) && core.target == old(core).target
        invariant burnt == i * BLOCK && core.rom == Burn(rom, at, bytes[..burnt])
        invariant core.open == (i < n || n == 0) && (i < n ==> core.addr == offset + burnt)
        invariant wire == old(wire) + (OffsetWire(offset) + BlocksWire(bytes, n, i))
      {
        var code := if i == n - 1 then WRITE_END else WRITE_REG;
        var block := bytes[i * BLOCK..(i + 1) * BLOCK];
        ok := FillHolding(block);
        if !ok { return; }
        NextBlock(rom, at, bytes, burnt, core.addr);
        ghost var landed;
        ok, landed := Commit(code);
        if landed {
          burnt := burnt + BLOCK;
        }
        if !ok { return; }
        OneMoreBlock(old(wire), OffsetWire(offset), BlocksWire(bytes, n, i), HoldWire(block, 8), [Put(0x920, [code]), Idle]);
      }
    }

    /** pt5161l_write_eeprom_image. */
    method WriteEepromImage(offset: nat, txbuf: seq<byte>, end: bool) returns (ok: bool, ghost burnt: nat)
      requires CoreOk(core) && (|txbuf| <= SECTOR ==> InPage(offset, |Outgoing(txbuf, end)|))
      modifies this`core, this`sends, this`polls, this`wire
      ensures CoreOk(core) && burnt <= |Outgoing(txbuf, end)|
      ensures core.rom == Burn(old(core).rom, Place(offset), Outgoing(txbuf, end)[..burnt])
      ensures ok ==> burnt == |Outgoing(txbuf, end)| / BLOCK * BLOCK
      ensures ok ==> wire == old(wire) + ImageWire(offset, Outgoing(txbuf, end))
      ensures |txbuf| > SECTOR ==> !ok && burnt == 0
      ensures Healthy() && |txbuf| <= SECTOR ==> ok
    {
      hide Burn, PageWire, OffsetWire, BlocksWire, ImageWire, Place, Base, OnEeprom;
      burnt := 0;
      BurnNothing(core.rom, Place(offset));
      assert Outgoing(txbuf, end)[..0] == [];
      if |txbuf| > SECTOR {
        return false, 0;
      }
      SplitPlace(offset);
      var amend := if end && |txbuf| % BLOCK != 0 then BLOCK - |txbuf| % BLOCK else 0;
      var data := txbuf + Zeros(amend);
      assert data == Outgoing(txbuf, end);
      var page, local := offset / PAGE_64K, offset % PAGE_64K;
      assert Place(offset) == page % 4 * PAGE_64K + local && local + |data| <= PAGE_64K;
      hide Outgoing, Padded, Zeros, InPage;
      ok := SetPage(page);
      if !ok { return; }
      ghost var paged := wire;
      ok, burnt := MultiBlockWrite(local, data);
      if ok {
        ImageWires(old(wire), paged, wire, offset, data);
      }
    }

    /** pt5161l_pre_update. */
    method PreUpdate() returns (ok: bool)
      requires CoreOk(core)
      modifies this`core, this`sends, this`wire
      ensures CoreOk(core) && core.rom == old(core).rom
      ensures ok ==> wire == old(wire) + SetUpWire()
      ensures Healthy() ==> ok
    {
      hide CtrlWire;
      ok := WriteReset(0x600, [0, 0]);
      if !ok { return; }
      ok := WriteReset(0x602, [0, 0]);
      if !ok { return; }
      ok := WriteReset(0x602, [0, 2]);
      if !ok { return; }
      ok := WriteReset(0x602, [0, 0]);
      if !ok { return; }
      ok := softReset;
      if !ok { return; }
      wire := wire + [SoftReset];
      ok := InitMaster();
    }

    method WriteReset(reg: nat, values: seq<byte>) returns (ok: bool)
      requires CoreOk(core) && (reg == 0x600 || reg == 0x602) && |values| == 2
      modifies this`core, this`sends, this`wire
      ensures CoreOk(core) && core.rom == old(core).rom
      ensures wire == if ok then old(wire) + [Put(reg, values)] else old(wire)
      ensures Healthy() ==> ok
    {
      ghost var sent;
      ok, sent := WriteBlock(reg, values);
      PokesKeepRom(old(core), reg, values[..sent]);
    }

    /** pt5161l_i2c_master_init. */
    method InitMaster() returns (ok: bool)
      requires CoreOk(core)
      modifies this`core, this`sends, this`wire
      ensures CoreOk(core) && core.rom == old(core).rom
      ensures ok ==> core.enabled
      ensures ok ==> wire == old(wire) + (CtrlWire(0x6C, [0]) + CtrlWire(0x00, [0xE5, 0x0F]) + CtrlWire(0x04, [0x50]) +
                                          CtrlWire(0x38, [0]) + CtrlWire(0x3C, [4]) + CtrlWire(0x6C, [1]))
      ensures Healthy() ==> ok
    {
      hide CtrlWire;
      ok := WriteCtrlReg(IC_ENABLE, [0]);
      if !ok { return; }
      ok := WriteCtrlReg(0, [0xE5, 0x0F]);
      if !ok { return; }
      ok := WriteCtrlReg(IC_TAR, [0x50]);
      if !ok { return; }
      ok := WriteCtrlReg(0x38, [0]);
      if !ok { return; }
      ok := WriteCtrlReg(0x3C, [4]);
      if !ok { return; }
      ok := WriteCtrlReg(IC_ENABLE, [1]);
    }

    /** pt5161l_do_update. */
    method DoUpdate(offset: nat, txbuf: seq<byte>, end: bool) returns (ok: bool, ghost burnt: nat)
      requires CoreOk(core) && |txbuf| <= SECTOR && InPage(offset, |Outgoing(txbuf, end)|)
      modifies this`core, this`sends, this`polls, this`wire
      ensures CoreOk(core) && burnt <= |Outgoing(txbuf, end)|
      ensures core.rom == Burn(old(core).rom, Place(offset), Outgoing(txbuf, end)[..burnt])
      ensures ok ==> burnt == |Outgoing(txbuf, end)| / BLOCK * BLOCK
      ensures ok ==> wire == old(wire) + SectorWire(offset, Outgoing(txbuf, end), end)
      ensures Healthy() ==> ok
    {
      hide Burn, SetUpWire, ImageWire;
      burnt := 0;
      BurnNothing(core.rom, Place(offset));
      assert Outgoing(txbuf, end)[..0] == [];
      ok := true;
      if offset == 0 {
        ok := PreUpdate();
        if !ok { return; }
      }
      ok, burnt := WriteEepromImage(offset, txbuf, end);
      if !ok { return; }
      if end {
        ok := WriteReset(0x600, [0, 2]);
        if !ok { return; }
        ok := WriteReset(0x602, [0, 2]);
      }
    }

    /** pcie_retimer_fw_update. A message that succeeds does exactly what Accept says; one that
        fails has burnt at most a prefix of its sector, in place. */
    method FwUpdate(m: Message) returns (status: Status, ghost burnt: nat)
      requires CoreOk(core)
      requires |m.data| <= SECTOR ==> Room(still, m)
      modifies this
      ensures CoreOk(core)
      ensures status.Success? ==> (still, core.rom) == Accept(old(still), old(core).rom, m)
      ensures status.Success? ==>
                wire == old(wire) + if still.active then [] else SectorWire(still.start, Outgoing(still.buf, m.end), m.end)
      ensures |m.data| > SECTOR ==> status == OverLength && !still.active && core == old(core)
      ensures status.UpdateFail? ==>
                burnt <= |Outgoing(still.buf, m.end)| &&
                core.rom == Burn(old(core).rom, Place(still.start), Outgoing(still.buf, m.end)[..burnt]) &&
                still.start == (if old(still).active then old(still).start else m.ofs) &&
                still.buf == (if old(still).active then old(still).buf else []) + m.data
      ensures Healthy() && |m.data| <= SECTOR ==> status.Success?
    {
      hide Burn, SectorWire, Place;
      burnt := 0;
      if !still.active {
        still := Static(true, m.ofs, []);
      }
      if |m.data| > SECTOR {
        still := still.(active := false);
        return OverLength, 0;
      }
      still := still.(buf := still.buf + m.data);
      if |still.buf| == SECTOR || m.end {
        var ok;
        ok, burnt := DoUpdate(still.start, still.buf, m.end);
        if !ok {
          return UpdateFail, burnt;
        }
        WholeBlocks(still.buf, m.end);
        assert Outgoing(still.buf, m.end)[..burnt] == Outgoing(still.buf, m.end);
        still := still.(active := false);
      }
      status := Success;
    }
  }

  lemma OneMoreBlock(w: seq<Event>, a: seq<Event>, b: seq<Event>, c: seq<Event>, d: seq<Event>)
    ensures w + (a + b) + c + d == w + (a + (b + c + d))
  {
  }

  lemma NextBlock(rom: Rom, at: nat, bytes: seq<byte>, k: nat, addr: nat)
    requires k + BLOCK <= |bytes|
    ensures Burn(Burn(rom, at, bytes[..k]), at + k, bytes[k..k + BLOCK]) == Burn(rom, at, bytes[..k + BLOCK])
    ensures addr + BLOCK < PAGE_64K ==> (addr + BLOCK) % PAGE_64K == addr + BLOCK
  {
    hide Burn;
    BurnTwice(rom, at, bytes[..k], bytes[k..k + BLOCK]);
    assert bytes[..k] + bytes[k..k + BLOCK] == bytes[..k + BLOCK];
  }

  lemma HoldGrows(block: seq<byte>, h: seq<byte>, k: nat)
    requires |block| == |h| && k + 4 <= |h|
    ensures var was := block[..k] + h[k..];
            was[..k] + block[k..k + 4] + was[k + 4..] == block[..k + 4] + h[k + 4..]
  {
  }

  lemma BurnNothing(rom: Rom, at: nat)
    ensures Burn(rom, at, []) == rom
  {
  }

  /** Two bytes through a 16-bit shift register replace what was in it. */
  lemma ShiftTwo(now: nat, offset: nat, before: nat)
    requires offset < PAGE_64K
    requires now == ((before * 256 + offset / 256) % PAGE_64K * 256 + offset % 256) % PAGE_64K
    ensures now == offset
  {
  }

  lemma SplitPlace(offset: nat)
    ensures Place(offset) == offset / PAGE_64K % 4 * PAGE_64K + offset % PAGE_64K
  {
    var q, r := offset / PAGE_64K, offset % PAGE_64K;
    var u, v := q / 4, q % 4;
    assert offset == MAX_OFFSET * u + (PAGE_64K * v + r);
    Modular.DivModUnique(offset, MAX_OFFSET, u, PAGE_64K * v + r);
  }

  lemma WholeBlocks(buf: seq<byte>, end: bool)
    requires |buf| == SECTOR || end
    ensures |Outgoing(buf, end)| / BLOCK * BLOCK == |Outgoing(buf, end)|
  {
  }
}
