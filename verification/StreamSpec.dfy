// The streaming configuration update of common/dev/mp29526.c as functions on values:
// what a row means, what a line does, what a chunk does.  The class in
// StreamUpdater.dfy carries the same update out step by step and is proved to compute
// these functions; the theorems about whole updates are about them.
module StreamSpec {
  import opened CText
  import opened VrBus

  const LINE_BUF_LEN: nat := 128
  const BLOCK_MAX_LEN: nat := 32
  const NO_PAGE: byte := 0xFF

  // -------------------------------------------------------------------- rows

  /** One parsed 8-column row. */
  datatype Row = Row(group: Group, page: byte, addr: nat, name: string, value: string, tag: string)

  predicate GroupPageOk(col: string) {
    1 <= |col| <= 3 && (|col| == 3 ==> '0' <= col[0] <= '9')
  }

  function GroupOf(col: string): Group
    requires GroupPageOk(col)
  {
    if |col| <= 2 then 0 else col[0] as int - '0' as int
  }

  function PageOf(col: string): byte
    requires GroupPageOk(col)
  {
    if |col| <= 2 then ToU8(Strtol(col, 16)) else ToU8(Strtol(col[1..], 16))
  }

  /** A line of eight columns is a row when no column is empty and column 1 names a page. */
  function RowOf(line: string): Option<Row> {
    var cols := Split(line, '\t');
    if |cols| != 8 || "" in cols || !GroupPageOk(cols[1]) then None
    else Some(Row(GroupOf(cols[1]), PageOf(cols[1]), ToU16(Strtol(cols[2], 16)),
                  Take(cols[4], 39), Take(cols[5], 15), Take(cols[7], 7)))
  }

  predicate IsReference(row: Row) {
    StartsWith(row.name, "CRC") || StartsWith(row.name, "TRIM")
  }

  predicate IsWordTag(tag: string) { tag == "1" || tag == "2" }

  predicate IsCallTag(tag: string) { tag == "P1" || tag == "P2" || tag == "BP1" }

  function LittleEndian(v: nat, n: nat): seq<byte>
    requires n <= 2
  {
    [v % 256, v / 256 % 256][..n]
  }

  /** 2n hex characters, most significant byte first. */
  predicate HexOk(hex: string, n: nat) { |hex| == 2 * n }

  function HexByte(hex: string, i: nat): byte
    requires 2 * i + 1 < |hex|
  {
    ToU8(Strtol([hex[2 * i], hex[2 * i + 1]], 16))
  }

  /** The payload of a block write: a length byte, then the bytes last one first. */
  function BlockPayload(bytes: seq<byte>): seq<byte>
    requires |bytes| < 256
  {
    [|bytes|] + seq(|bytes|, i requires 0 <= i < |bytes| => bytes[|bytes| - 1 - i])
  }

  function HexBytes(hex: string, n: nat): (r: seq<byte>)
    requires HexOk(hex, n)
    ensures |r| == n
  {
    seq(n, i requires 0 <= i < n => HexByte(hex, i))
  }

  /** What the type column of a row asks for. */
  datatype Action =
    | Skip                                               // unknown tag: logged and ignored
    | Reject                                             // malformed: abort
    | Word(cmd: byte, data: seq<byte>)                   // "1", "2"
    | Whole(cmd: byte, data: seq<byte>, indexed: bool)   // "P1", "P2", "BP1", "B1".."B4"
    | Piece(cmd: byte, want: nat, value: Option<byte>)   // "B5".."B32": one byte of a longer block

  function Classify(row: Row): (a: Action)
    ensures a.Piece? ==> 4 < a.want <= BLOCK_MAX_LEN
  {
    if IsWordTag(row.tag) then
      Word(row.addr % 256, LittleEndian(ToU16(Strtol(row.value, 16)), if row.tag == "1" then 1 else 2))
    else if IsCallTag(row.tag) then
      if HexOk(row.value, 1) then Whole(row.addr / 256 % 256, [row.addr % 256, HexByte(row.value, 0)], true)
      else Reject
    else if StartsWith(row.tag, "B") then
      var n := ToU8(Strtol(row.tag[1..], 10));
      if n == 0 || n > BLOCK_MAX_LEN then Reject
      else if n <= 4 then
        if HexOk(row.value, n) then Whole(row.addr % 256, BlockPayload(HexBytes(row.value, n)), false)
        else Reject
      else Piece(row.addr % 256, n, if HexOk(row.value, 1) then Some(HexByte(row.value, 0)) else None)
    else Skip
  }

  // ------------------------------------------------------------------- state

  /** The block write under reassembly, oldest byte first. */
  datatype BlockRun = NoBlock | Partial(cmd: byte, want: nat, got: seq<byte>)

  type Block = b: BlockRun | b.Partial? ==> |b.got| < b.want <= BLOCK_MAX_LEN witness NoBlock

  datatype Stream = Stream(
    bus: Bus,
    page: byte,          // page the driver believes is selected
    group: Group,        // multi-config set currently selected on the device
    savedWp: byte,
    applied: nat,
    line: string,        // bytes of the unfinished line
    block: Block,
    pastEnd: bool,
    aborted: bool)

  datatype Outcome = Outcome(s: Stream, ok: bool)

  /** What no line changes. */
  predicate SameRun(s: Stream, t: Stream) {
    t.aborted == s.aborted && t.savedWp == s.savedWp
  }

  /** What no row changes. */
  predicate SameText(s: Stream, t: Stream) {
    SameRun(s, t) && t.line == s.line && t.pastEnd == s.pastEnd
  }

  // ------------------------------------------------- identity, protection, NVM

  function GetWriteProtect(b: Bus, link: Link): (d: Done)
    ensures d.ok ==> |d.data| == 1
  {
    var a := Exec(b, link, SetPage(PAGE_RAIL1));
    if !a.ok then a else Exec(a.bus, link, Fetch(CMD_WRITE_PROTECT, 1))
  }

  /** WRITE_PROTECT values the driver is willing to write. */
  predicate Writable(wp: byte) {
    wp == 0x00 || wp == 0x01 || wp == 0x20 || wp == 0x40 || wp == 0x80
  }

  function SetWriteProtect(b: Bus, link: Link, wp: byte): Done {
    var a := Exec(b, link, SetPage(PAGE_RAIL1));
    if !a.ok then a
    else if !Writable(wp) then Done(a.bus, false, [])
    else
      var w := Exec(a.bus, link, Send(CMD_WRITE_PROTECT, [wp], Driver));
      if !w.ok then w
      else
        var g := GetWriteProtect(w.bus, link);
        Done(g.bus, g.ok && g.data == [wp], g.data)
  }

  /** Eight ID bytes arrive least significant first. */
  function IdValue(d: seq<byte>): nat {
    if d == [] then 0 else d[0] + 256 * IdValue(d[1..])
  }

  predicate IsFamilyId(d: seq<byte>) {
    |d| == 9 && d[0] == 8 &&
    (IdValue(d[1..]) == 0x2020323934323620 || IdValue(d[1..]) == 0x2020323935323920 ||
     IdValue(d[1..]) == 0x2020323935323620)
  }

  function CheckDeviceId(b: Bus, link: Link): Done {
    var a := Exec(b, link, SetPage(PAGE_RAIL1));
    if !a.ok then a
    else
      var f := Exec(a.bus, link, Fetch(CMD_IC_DEVICE_ID, 9));
      Done(f.bus, f.ok && IsFamilyId(f.data), f.data)
  }

  /** STATUS_CML without NVM_CRC_ERROR (bit 4) and PEC_ERROR (bit 5). */
  predicate CmlClean(cml: byte) { cml / 16 % 2 == 0 && cml / 32 % 2 == 0 }

  function CheckNvmStatus(b: Bus, link: Link): Done {
    var a := Exec(b, link, SetPage(PAGE_RAIL1));
    if !a.ok then a
    else
      var f := Exec(a.bus, link, Fetch(CMD_STATUS_CML, 1));
      Done(f.bus, f.ok && |f.data| == 1 && CmlClean(f.data[0]), f.data)
  }

  /** Reads the expected CRC; the update only logs it. */
  function GetFwVersion(b: Bus, link: Link): Bus {
    var a := Exec(b, link, SetPage(PAGE_RAIL1));
    if !a.ok then a.bus else Exec(a.bus, link, Fetch(CMD_EXPECTED_USER_CRC, 5)).bus
  }

  // ------------------------------------------------------------ row processing

  function SelectPage(s: Stream, link: Link, page: byte): (r: Outcome)
    ensures SameText(s, r.s) && r.s.page == if r.ok then page else s.page
  {
    var a := Exec(s.bus, link, SetPage(page));
    Outcome(s.(bus := a.bus, page := if a.ok then page else s.page), a.ok)
  }

  function StoreAndVerify(s: Stream, link: Link): (r: Outcome)
    ensures SameText(s, r.s)
  {
    var p := SelectPage(s, link, PAGE_RAIL1);
    if !p.ok then p
    else
      var w := Exec(p.s.bus, link, Send(CMD_STORE_USER, [], Driver));
      if !w.ok then Outcome(p.s.(bus := w.bus), false)
      else
        var q := Exec(GetFwVersion(w.bus, link), link, Send(CMD_RESTORE_USER, [], Driver));
        if !q.ok then Outcome(p.s.(bus := q.bus), false)
        else
          var c := CheckNvmStatus(q.bus, link);
          Outcome(p.s.(bus := c.bus), c.ok)
  }

  function SelectSet(s: Stream, link: Link, group: Group): (r: Outcome)
    ensures SameText(s, r.s)
  {
    if group == 0 then Outcome(s.(group := 0), true)
    else
      var p := SelectPage(s, link, PAGE_MFR_ALL);
      if !p.ok then p
      else
        var w := Exec(p.s.bus, link, Send(CMD_MULTICFG_SEL, [SelByte(group)], Driver));
        Outcome(p.s.(bus := w.bus, group := if w.ok then group else p.s.group), w.ok)
  }

  function SwitchGroup(s: Stream, link: Link, group: Group): (r: Outcome)
    ensures SameText(s, r.s)
  {
    if group == s.group then Outcome(s, true)
    else
      var st := if s.group != 0 then StoreAndVerify(s, link) else Outcome(s, true);
      if !st.ok then st else SelectSet(st.s, link, group)
  }

  /** One write on behalf of a row. */
  function SendRow(s: Stream, link: Link, row: Row, cmd: byte, data: seq<byte>, indexed: bool): (r: Outcome)
    ensures SameText(s, r.s)
  {
    var w := Exec(s.bus, link, Send(cmd, data, FromRow(row.group, row.page, indexed)));
    Outcome(s.(bus := w.bus, applied := s.applied + if w.ok then 1 else 0), w.ok)
  }

  /** The block once one more byte has been taken: a run with another command or length restarts it. */
  function StartBlock(b: Block, cmd: byte, want: nat): (r: Block)
    requires 0 < want <= BLOCK_MAX_LEN
    ensures r.Partial? && r.cmd == cmd && r.want == want
  {
    if b.Partial? && b.cmd == cmd && b.want == want then b else Partial(cmd, want, [])
  }

  /** One more byte for the open run; the last one sends the whole block. */
  function AddByte(s: Stream, link: Link, row: Row, value: byte): (r: Outcome)
    requires s.block.Partial?
    ensures SameText(s, r.s)
  {
    var got := s.block.got + [value];
    if |got| < s.block.want then Outcome(s.(block := Partial(s.block.cmd, s.block.want, got)), true)
    else SendRow(s.(block := NoBlock), link, row, s.block.cmd, BlockPayload(got), false)
  }

  function Act(s: Stream, link: Link, row: Row): (r: Outcome)
    ensures SameText(s, r.s)
  {
    match Classify(row)
    case Skip => Outcome(s, true)
    case Reject => Outcome(s, false)
    case Word(cmd, data) => SendRow(s, link, row, cmd, data, false)
    case Whole(cmd, data, indexed) =>
      if s.block.Partial? then Outcome(s, false)
      else SendRow(s, link, row, cmd, data, indexed)
    case Piece(cmd, want, value) =>
      var b := StartBlock(s.block, cmd, want);
      if value.None? then Outcome(s.(block := b), false)
      else AddByte(s.(block := b), link, row, value.value)
  }

  /** The driver's page cache says row.page, after a SetPage if it did not before. */
  function Reach(s: Stream, link: Link, page: byte): (r: Outcome)
    ensures SameText(s, r.s)
  {
    if page == s.page then Outcome(s, true) else SelectPage(s, link, page)
  }

  function ApplyRow(s: Stream, link: Link, row: Row): (r: Outcome)
    ensures SameText(s, r.s)
  {
    if IsReference(row) then Outcome(s, true)
    else if row.group != s.group && s.block.Partial? then Outcome(s, false)
    else
      var g := SwitchGroup(s, link, row.group);
      if !g.ok then g
      else
        var p := Reach(g.s, link, row.page);
        if !p.ok then p else Act(p.s, link, row)
  }

  /** Commits what the last group wrote; a block still open fails the update. */
  function Commit(s: Stream, link: Link): (r: Outcome)
    ensures SameText(s, r.s)
  {
    if s.block.Partial? then Outcome(s, false) else StoreAndVerify(s, link)
  }

  function Finish(s: Stream, link: Link): (r: Outcome)
    ensures SameRun(s, r.s) && r.s.line == s.line && r.s.pastEnd
  {
    var c := if s.block.Partial? then Outcome(s, false)
             else if s.group == 0 && s.applied == 0 then Outcome(s, true)
             else StoreAndVerify(s, link);
    Outcome(c.s.(pastEnd := true), c.ok)
  }

  function StripCr(raw: string): string {
    if raw != "" && raw[|raw| - 1] == '\r' then raw[..|raw| - 1] else raw
  }

  /** One line of the image, without its newline. */
  function ApplyLine(s0: Stream, link: Link, raw: string): (r: Outcome)
    ensures SameRun(s0, r.s) && r.s.line == ""
  {
    var s := s0.(line := "");
    var text := CStr(StripCr(raw));
    if s.pastEnd then Outcome(s, true)
    else if text == "END" then Finish(s, link)
    else if Count(text, '\t') != 7 then Outcome(s, true)
    else
      match RowOf(text)
      case None => Outcome(s, false)
      case Some(row) => ApplyRow(s, link, row)
  }

  /** Text arriving at an empty line buffer: whole lines are applied, the rest is kept. */
  function Feed(s: Stream, link: Link, text: string): (r: Outcome)
    ensures SameRun(s, r.s)
    decreases |text|
  {
    var k := IndexOf(text, '\n');
    if k >= LINE_BUF_LEN then Outcome(s.(line := text[..LINE_BUF_LEN - 1]), false)
    else if k == |text| then Outcome(s.(line := text), true)
    else
      var a := ApplyLine(s, link, text[..k]);
      if !a.ok then a else Feed(a.s, link, text[k + 1..])
  }

  // ------------------------------------------------------------------- chunks

  function RestoreProtection(s: Stream, link: Link): Stream {
    if s.savedWp == 0 then s else s.(bus := SetWriteProtect(s.bus, link, s.savedWp).bus)
  }

  function Abort(s: Stream, link: Link): Outcome {
    Outcome(RestoreProtection(s.(aborted := true), link), false)
  }

  /** First-chunk set-up: identity, protection off, stale faults cleared. */
  function Begin(b: Bus, link: Link): Outcome {
    var s := Stream(b, NO_PAGE, 0, 0, 0, "", NoBlock, false, false);
    var id := CheckDeviceId(b, link);
    if !id.ok then Outcome(s.(bus := id.bus, aborted := true), false)
    else
      var pw := Exec(id.bus, link, Fetch(CMD_PASSWORD, 2));
      var g := GetWriteProtect(pw.bus, link);
      if !g.ok then Outcome(s.(bus := g.bus, aborted := true), false)
      else
        var saved := g.data[0];
        var w := if saved != 0 then SetWriteProtect(g.bus, link, 0) else Done(g.bus, true, []);
        if !w.ok then Outcome(s.(bus := w.bus, savedWp := saved, aborted := true), false)
        else
          Outcome(s.(bus := Exec(w.bus, link, Send(CMD_CLEAR_FAULT, [], Driver)).bus, savedWp := saved), true)
  }

  /** What follows the last byte of the image. */
  function End(s: Stream, link: Link): Outcome {
    if s.line != "" then Abort(s, link)
    else
      var c := if s.pastEnd then Outcome(s, true) else Commit(s, link);
      if !c.ok then Abort(c.s, link)
      else if c.s.applied == 0 then Abort(c.s, link)
      else Outcome(RestoreProtection(c.s, link), true)
  }

  /** A chunk once set-up is behind it. */
  function Continue(s: Stream, link: Link, data: string, last: bool): Outcome {
    if s.aborted then Outcome(s, false)
    else
      var f := Feed(s, link, s.line + data);
      if !f.ok then Abort(f.s, link)
      else if !last then f
      else End(f.s, link)
  }

  /** mp29526_fwupdate_stream. */
  function Chunk(s: Stream, link: Link, data: string, first: bool, last: bool): Outcome {
    if first then
      var b := Begin(s.bus, link);
      if !b.ok then b else Continue(b.s, link, data, last)
    else Continue(s, link, data, last)
  }
}
