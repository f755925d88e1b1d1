// The voltage regulator behind its PMBus, as far as the configuration update of
// common/dev/mp29526.c depends on it.  Every transaction consults a link oracle
// indexed by the number of transactions made so far, so a theorem about every
// oracle is a theorem about every pattern of I2C failures.
module VrBus {
  import opened CText

  // ------------------------------------------------------------- the device

  const CMD_PAGE: byte := 0x00
  const CMD_CLEAR_FAULT: byte := 0x03
  const CMD_MULTICFG_SEL: byte := 0x09
  const CMD_WRITE_PROTECT: byte := 0x10
  const CMD_STORE_USER: byte := 0x15
  const CMD_RESTORE_USER: byte := 0x16
  const CMD_STATUS_CML: byte := 0x7E
  const CMD_IC_DEVICE_ID: byte := 0xAD
  const CMD_EXPECTED_USER_CRC: byte := 0xB8
  const CMD_PASSWORD: byte := 0xE0

  const PAGE_RAIL1: byte := 0x00
  const PAGE_MFR_ALL: byte := 0x09

  /** A register: its multi-config set (0 when all sets share it), page, command code,
      and, for a process-call command, the sub-address carried in the first data byte. */
  datatype Cell = Cell(bank: byte, page: byte, cmd: byte, sub: int)

  /** Which (page, command) pairs exist once per multi-config set, and which are process calls. */
  datatype RegMap = RegMap(multi: set<(byte, byte)>, indexed: set<(byte, byte)>)

  datatype Vr = Vr(
    page: byte,                    // PAGE pointer
    wp: byte,                      // WRITE_PROTECT
    sel: byte,                     // multi-config set the registers currently show
    regs: RegMap,
    ram: map<Cell, seq<byte>>,     // operating registers
    nvm: map<Cell, seq<byte>>)     // user memory

  /** The nine bytes of the ID block of a family member, its length first. */
  predicate FamilyBlock(d: seq<byte>) {
    d == [8, 0x20, 0x36, 0x32, 0x34, 0x39, 0x32, 0x20, 0x20] ||
    d == [8, 0x20, 0x39, 0x32, 0x35, 0x39, 0x32, 0x20, 0x20] ||
    d == [8, 0x20, 0x36, 0x32, 0x35, 0x39, 0x32, 0x20, 0x20]
  }

  // ----------------------------------------------------------- transactions

  /** Multi-config set named by a row, 0 for a register all sets share. */
  type Group = g: int | 0 <= g < 10

  /** Who asked for a write: the driver itself, or a configuration row. */
  datatype Origin = Driver | FromRow(group: Group, page: byte, indexed: bool)

  datatype Op =
    | SetPage(page: byte)
    | Send(cmd: byte, data: seq<byte>, origin: Origin)
    | Fetch(cmd: byte, len: nat)

  /** acked: the master saw success.  landed: the device acted on a write although the
      master saw a failure (a lost acknowledge after the last byte).  locked: the device ignores
      the driver's write of WRITE_PROTECT, acknowledged or not.  status: what STATUS_CML holds at
      that moment.  data: what a read of any other command gets. */
  datatype Reply = Reply(acked: bool, landed: bool, locked: bool, status: byte, data: seq<byte>)

  type Link = nat -> Reply

  datatype Entry = Entry(op: Op, page: byte, acked: bool)

  datatype Bus = Bus(vr: Vr, log: seq<Entry>)

  /** Result of a transaction or of a driver routine built from transactions. */
  datatype Done = Done(bus: Bus, ok: bool, data: seq<byte>)

  function CellOf(vr: Vr, cmd: byte, data: seq<byte>): Cell {
    Cell(
      if (vr.page, cmd) in vr.regs.multi then vr.sel else 0,
      vr.page,
      cmd,
      if (vr.page, cmd) in vr.regs.indexed && data != [] then data[0] else -1)
  }

  /** Cells a STORE_USER or RESTORE_USER copies: the shared ones and those of the selected set. */
  predicate Exposed(vr: Vr, c: Cell) {
    c.bank == 0 || c.bank == vr.sel
  }

  function Store(vr: Vr): Vr {
    vr.(nvm := vr.nvm + map c | c in vr.ram && Exposed(vr, c) :: vr.ram[c])
  }

  function Restore(vr: Vr): Vr {
    vr.(ram := vr.ram + map c | c in vr.nvm && Exposed(vr, c) :: vr.nvm[c])
  }

  /** A write the device has taken.  PAGE and WRITE_PROTECT always work; anything else is
      dropped without a bus error while WRITE_PROTECT is set. */
  function Accept(vr: Vr, cmd: byte, data: seq<byte>): Vr {
    if cmd == CMD_PAGE then (if data == [] then vr else vr.(page := data[0]))
    else if vr.page == PAGE_RAIL1 && cmd == CMD_WRITE_PROTECT then
      (if data == [] then vr else vr.(wp := data[0]))
    else if vr.wp != 0 then vr
    else if vr.page == PAGE_MFR_ALL && cmd == CMD_MULTICFG_SEL then
      (if data == [] then vr else vr.(sel := data[0]))
    else if vr.page == PAGE_RAIL1 && cmd == CMD_STORE_USER then Store(vr)
    else if vr.page == PAGE_RAIL1 && cmd == CMD_RESTORE_USER then Restore(vr)
    else if vr.page <= 3 && cmd == CMD_CLEAR_FAULT then vr
    else vr.(ram := vr.ram[CellOf(vr, cmd, data) := data])
  }

  function Effect(vr: Vr, op: Op): Vr {
    match op
    case SetPage(p) => vr.(page := p)
    case Send(cmd, data, _) => Accept(vr, cmd, data)
    case Fetch(_, _) => vr
  }

  /** Exactly n bytes of a read reply. */
  function Fit(d: seq<byte>, n: nat): (r: seq<byte>)
    ensures |r| == n
  {
    seq(n, i requires 0 <= i < n => if i < |d| then d[i] else 0)
  }

  /** What a read returns: WRITE_PROTECT is the device's own, the rest is up to the link. */
  function Answer(vr: Vr, r: Reply, op: Op): seq<byte> {
    if op.Fetch? then
      if vr.page == PAGE_RAIL1 && op.cmd == CMD_WRITE_PROTECT then Fit([vr.wp], op.len)
      else if op.cmd == CMD_STATUS_CML then Fit([r.status], op.len)
      else Fit(r.data, op.len)
    else []
  }

  /** Whether the device acts on a transaction. */
  predicate Takes(r: Reply, op: Op) {
    (r.acked || r.landed) && !(r.locked && op.Send? && op.origin == Driver && op.cmd == CMD_WRITE_PROTECT)
  }

  /** One transaction. */
  function Exec(b: Bus, link: Link, op: Op): (d: Done)
    ensures |d.bus.log| == |b.log| + 1
    ensures d.bus.log[..|b.log|] == b.log
  {
    var r := link(|b.log|);
    Done(
      Bus(if Takes(r, op) then Effect(b.vr, op) else b.vr, b.log + [Entry(op, b.vr.page, r.acked)]),
      r.acked,
      if r.acked then Answer(b.vr, r, op) else [])
  }

  // --------------------------------------------------- reading the bus log

  predicate IsStore(e: Entry) {
    e.acked && e.page == PAGE_RAIL1 && e.op == Send(CMD_STORE_USER, [], Driver)
  }

  predicate IsSelect(e: Entry) {
    e.op.Send? && e.op.origin == Driver && e.op.cmd == CMD_MULTICFG_SEL
  }

  predicate IsRow(e: Entry) {
    e.op.Send? && e.op.origin.FromRow?
  }

  predicate IsProtect(e: Entry) {
    e.op.Send? && e.op.origin == Driver && e.op.cmd == CMD_WRITE_PROTECT
  }

  /** Byte written to MULTICFG_SEL for a set: override bit and set number minus one. */
  function SelByte(group: Group): byte {
    if group == 0 then 0 else 0x08 + (group - 1)
  }

  /** The cell a configuration row means. */
  function RowCell(op: Op): Cell
    requires op.Send? && op.origin.FromRow?
  {
    Cell(SelByte(op.origin.group), op.origin.page, op.cmd,
         if op.origin.indexed && op.data != [] then op.data[0] else -1)
  }

  /** The acknowledged configuration writes, in order. */
  function RowSends(log: seq<Entry>): seq<Op> {
    if log == [] then []
    else RowSends(log[..|log| - 1]) +
         (if IsRow(log[|log| - 1]) && log[|log| - 1].acked then [log[|log| - 1].op] else [])
  }

  /** Pages on which the acknowledged configuration writes were made, in order. */
  function WritePages(log: seq<Entry>): seq<byte> {
    if log == [] then []
    else WritePages(log[..|log| - 1]) +
         (if IsRow(log[|log| - 1]) && log[|log| - 1].acked then [log[|log| - 1].page] else [])
  }

  /** Last writer wins over a list of configuration writes. */
  function Fold(ops: seq<Op>): map<Cell, seq<byte>>
  {
    if ops == [] then map[]
    else
      var last := ops[|ops| - 1];
      if last.Send? && last.origin.FromRow? then Fold(ops[..|ops| - 1])[RowCell(last) := last.data]
      else Fold(ops[..|ops| - 1])
  }

  /** Groups with a configuration write that no acknowledged STORE_USER follows. */
  function Unstored(log: seq<Entry>): set<Group> {
    if log == [] then {}
    else
      var e := log[|log| - 1];
      if IsStore(e) then {}
      else Unstored(log[..|log| - 1]) + (if IsRow(e) then {e.op.origin.group} else {})
  }

  /** Whenever a set is selected, nothing but shared registers is waiting to be stored. */
  predicate SelectsClean(log: seq<Entry>) {
    log == [] ||
    (SelectsClean(log[..|log| - 1]) &&
     (IsSelect(log[|log| - 1]) ==> Unstored(log[..|log| - 1]) <= {0}))
  }

  /** Every configuration write was issued while the device was on the row's own page. */
  predicate RowsLand(log: seq<Entry>) {
    forall i :: 0 <= i < |log| && IsRow(log[i]) ==> log[i].page == log[i].op.origin.page
  }

  /** Every configuration write was acknowledged. */
  predicate RowsAcked(log: seq<Entry>) {
    forall i :: 0 <= i < |log| && IsRow(log[i]) ==> log[i].acked
  }

  /** No WRITE_PROTECT command from the driver at or after position n. */
  predicate NoProtectFrom(log: seq<Entry>, n: nat) {
    forall i :: n <= i < |log| ==> !IsProtect(log[i])
  }

  lemma LogStep(log: seq<Entry>, e: Entry)
    ensures RowSends(log + [e]) == RowSends(log) + (if IsRow(e) && e.acked then [e.op] else [])
    ensures WritePages(log + [e]) == WritePages(log) + (if IsRow(e) && e.acked then [e.page] else [])
    ensures Unstored(log + [e]) ==
            if IsStore(e) then {} else Unstored(log) + (if IsRow(e) then {e.op.origin.group} else {})
    ensures SelectsClean(log + [e]) <==> SelectsClean(log) && (IsSelect(e) ==> Unstored(log) <= {0})
  {
    assert (log + [e])[..|log|] == log;
  }

  lemma FoldStep(ops: seq<Op>, op: Op)
    requires op.Send? && op.origin.FromRow?
    ensures Fold(ops + [op]) == Fold(ops)[RowCell(op) := op.data]
  {
    assert (ops + [op])[..|ops|] == ops;
  }
}
