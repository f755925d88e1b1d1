// User memory after an update: where the rows leave the driver's own state alone and none is
// misled, it is the last-writer-wins fold of the configuration writes.
module StreamMemory {
  import opened CText
  import opened VrBus
  import opened StreamSpec
  import opened StreamChunks
  import opened StreamSafety
  import opened StreamTheorems
  import opened StreamPlan
  import opened StreamPages

  // ------------------------------------------------ which images are meant

  /** Commands that are no registers: PAGE, STORE_USER and CLEAR_FAULT act on the device. */
  predicate IsRegister(page: byte, cmd: byte) {
    cmd != CMD_PAGE && !(page == PAGE_RAIL1 && cmd == CMD_STORE_USER) && !(page <= 3 && cmd == CMD_CLEAR_FAULT)
  }

  /** Commands that change the protection or the selected set, or reload the registers, behind
      the driver's back. */
  predicate Disturbs(page: byte, cmd: byte) {
    (page == PAGE_RAIL1 && (cmd == CMD_WRITE_PROTECT || cmd == CMD_RESTORE_USER)) ||
    (page == PAGE_MFR_ALL && cmd == CMD_MULTICFG_SEL)
  }

  /** The write disturbs nothing, and addresses the device as the device is organised: a set
      number exactly for the registers that exist once per set, a process call exactly for the
      indexed ones. */
  predicate Fits(group: Group, page: byte, cmd: byte, indexed: bool, regs: RegMap) {
    !Disturbs(page, cmd) &&
    (IsRegister(page, cmd) ==> (group != 0 <==> (page, cmd) in regs.multi) && (indexed <==> (page, cmd) in regs.indexed))
  }

  predicate FitsDevice(row: Row, regs: RegMap) {
    IsReference(row) ||
    match Classify(row)
    case Skip => true
    case Reject => true
    case Word(cmd, _) => Fits(row.group, row.page, cmd, false, regs)
    case Whole(cmd, _, indexed) => Fits(row.group, row.page, cmd, indexed, regs)
    case Piece(cmd, _, _) => Fits(row.group, row.page, cmd, false, regs)
  }

  predicate ImageFits(text: string, regs: RegMap) {
    forall row :: row in BodyRows(text) ==> FitsDevice(row, regs)
  }

  // ------------------------------------------------------------ invariants

  function Written(b: Bus): map<Cell, seq<byte>> { Fold(RowSends(b.log)) }

  predicate Kept(c: Cell) { IsRegister(c.page, c.cmd) }

  /** The operating registers hold the last value written to each. */
  ghost predicate Mirrored(b: Bus) {
    forall c :: c in Written(b) && Kept(c) ==> c in b.vr.ram && b.vr.ram[c] == Written(b)[c]
  }

  /** The set a bank number stands for, -1 if the driver never selects it. */
  function BankGroup(bank: byte): int { if bank == 0 then 0 else if bank >= 8 then bank - 7 else -1 }

  /** So does user memory, except for sets with writes still to be stored. */
  ghost predicate Committed(b: Bus) {
    forall c :: c in Written(b) && Kept(c) ==>
      BankGroup(c.bank) in Unstored(b.log) || (c in b.vr.nvm && b.vr.nvm[c] == Written(b)[c])
  }

  /** The device takes writes, its register map is the one given, and its memory follows. */
  ghost predicate Following(b: Bus, regs: RegMap) {
    b.vr.wp == 0 && b.vr.regs == regs && Mirrored(b) && Committed(b)
  }

  /** What the memory needs on top of the rules of the log: the set selected. */
  ghost predicate Good(s: Stream, base: nat, regs: RegMap) {
    Tidy(s, base) && Following(s.bus, regs) && (s.group != 0 ==> s.bus.vr.sel == SelByte(s.group))
  }

  // ----------------------------------------------------- driver commands

  lemma StoreCommits(b: Bus, d: Bus)
    requires Mirrored(b) && Committed(b) && Unstored(b.log) <= {0, BankGroup(b.vr.sel)}
    requires d.vr == Store(b.vr) && RowSends(d.log) == RowSends(b.log) && Unstored(d.log) == {}
    ensures Mirrored(d) && Committed(d)
  {
    hide Fold, RowSends, Unstored;
    forall c | c in Written(d) && Kept(c)
      ensures c in d.vr.nvm && d.vr.nvm[c] == Written(d)[c]
    {
      assert c in b.vr.ram && b.vr.ram[c] == Written(b)[c];
      if BankGroup(c.bank) in Unstored(b.log) {
        assert Exposed(b.vr, c);
      }
    }
  }

  lemma RestoreKeeps(b: Bus, d: Bus)
    requires Mirrored(b) && Committed(b) && Unstored(b.log) == {}
    requires d.vr == Restore(b.vr) && RowSends(d.log) == RowSends(b.log) && Unstored(d.log) == {}
    ensures Mirrored(d) && Committed(d)
  {
    hide Fold, RowSends, Unstored;
  }

  lemma SameContents(b: Bus, d: Bus)
    requires RowSends(d.log) == RowSends(b.log) && Unstored(d.log) == Unstored(b.log)
    requires d.vr.ram == b.vr.ram && d.vr.nvm == b.vr.nvm
    ensures Mirrored(b) ==> Mirrored(d)
    ensures Committed(b) ==> Committed(d)
  {
    hide Fold, RowSends, Unstored;
  }

  /** What the driver's own commands do to a device that takes writes. */
  lemma CommandAfter(b: Bus, link: Link, cmd: byte, data: seq<byte>)
    requires b.vr.wp == 0 && link(|b.log|).acked
    ensures var d := Exec(b, link, Send(cmd, data, Driver)).bus.vr;
            (b.vr.page == PAGE_RAIL1 && cmd == CMD_STORE_USER ==> d == Store(b.vr)) &&
            (b.vr.page == PAGE_RAIL1 && cmd == CMD_RESTORE_USER ==> d == Restore(b.vr)) &&
            (b.vr.page == PAGE_MFR_ALL && cmd == CMD_MULTICFG_SEL && |data| == 1 ==> d == b.vr.(sel := data[0]))
  {
    hide Store, Restore;
  }

  lemma {:induction false} StoreAndVerifyKeeps(s: Stream, link: Link, base: nat, regs: RegMap)
    requires Good(s, base, regs) && StoreAndVerify(s, link).ok
    ensures Good(StoreAndVerify(s, link).s, base, regs)
  {
    hide LogOk, RowsAcked, Unstored, RowSends, WritePages, Exec, Fold, Mirrored, Committed, CmlClean, Store, Restore;
    var p := Exec(s.bus, link, SetPage(PAGE_RAIL1));
    DriverStep(s.bus, link, SetPage(PAGE_RAIL1), base);
    PageAfter(s.bus, link, PAGE_RAIL1);
    SameContents(s.bus, p.bus);
    var w := Exec(p.bus, link, Send(CMD_STORE_USER, [], Driver));
    AckIs(p.bus, link, Send(CMD_STORE_USER, [], Driver));
    DriverStep(p.bus, link, Send(CMD_STORE_USER, [], Driver), base);
    CommandAfter(p.bus, link, CMD_STORE_USER, []);
    StoreIs(p.bus.vr);
    StoreCommits(p.bus, w.bus);
    var v := Exec(w.bus, link, SetPage(PAGE_RAIL1));
    DriverStep(w.bus, link, SetPage(PAGE_RAIL1), base);
    PageAfter(w.bus, link, PAGE_RAIL1);
    DriverStep(v.bus, link, Fetch(CMD_EXPECTED_USER_CRC, 5), base);
    ReadAfter(v.bus, link, CMD_EXPECTED_USER_CRC, 5);
    var f := GetFwVersion(w.bus, link);
    SameContents(w.bus, f);
    var q := Exec(f, link, Send(CMD_RESTORE_USER, [], Driver));
    AckIs(f, link, Send(CMD_RESTORE_USER, [], Driver));
    DriverStep(f, link, Send(CMD_RESTORE_USER, [], Driver), base);
    CommandAfter(f, link, CMD_RESTORE_USER, []);
    RestoreIs(f.vr);
    RestoreKeeps(f, q.bus);
    var a := Exec(q.bus, link, SetPage(PAGE_RAIL1));
    DriverStep(q.bus, link, SetPage(PAGE_RAIL1), base);
    PageAfter(q.bus, link, PAGE_RAIL1);
    DriverStep(a.bus, link, Fetch(CMD_STATUS_CML, 1), base);
    ReadAfter(a.bus, link, CMD_STATUS_CML, 1);
    SameContents(q.bus, CheckNvmStatus(q.bus, link).bus);
    StoreAndVerifyTidy(s, link, base);
  }

  lemma SelectPageKeeps(s: Stream, link: Link, page: byte, base: nat, regs: RegMap)
    requires Good(s, base, regs) && SelectPage(s, link, page).ok
    ensures var r := SelectPage(s, link, page).s;
            Good(r, base, regs) && r.bus.vr.page == page && r.group == s.group && r.block == s.block &&
            Unstored(r.bus.log) == Unstored(s.bus.log)
  {
    hide LogOk, RowsAcked, Unstored, RowSends, WritePages, Exec, Mirrored, Committed;
    DriverStep(s.bus, link, SetPage(page), base);
    PageAfter(s.bus, link, page);
    SameContents(s.bus, Exec(s.bus, link, SetPage(page)).bus);
  }

  lemma {:induction false} SwitchGroupKeeps(s: Stream, link: Link, group: Group, base: nat, regs: RegMap)
    requires Good(s, base, regs) && !s.pastEnd && SwitchGroup(s, link, group).ok
    ensures Good(SwitchGroup(s, link, group).s, base, regs)
  {
    hide LogOk, RowsAcked, Unstored, RowSends, WritePages, Exec, Mirrored, Committed, StoreAndVerify, SelectPage;
    if group != s.group {
      if s.group != 0 {
        StoreAndVerifyKeeps(s, link, base, regs);
        StoreAndVerifyTidy(s, link, base);
      }
      var st := if s.group != 0 then StoreAndVerify(s, link) else Outcome(s, true);
      if group != 0 {
        SelectPageKeeps(st.s, link, PAGE_MFR_ALL, base, regs);
        var p := SelectPage(st.s, link, PAGE_MFR_ALL).s;
        SelectTidy(p.bus, link, group, base);
        AckIs(p.bus, link, Send(CMD_MULTICFG_SEL, [SelByte(group)], Driver));
        CommandAfter(p.bus, link, CMD_MULTICFG_SEL, [SelByte(group)]);
        SameContents(p.bus, Exec(p.bus, link, Send(CMD_MULTICFG_SEL, [SelByte(group)], Driver)).bus);
      }
    }
  }

  // ---------------------------------------------------------------- rows

  /** A row's write on its own page: either a register takes it, or the device acts on it and
      leaves operating registers and stored values as they were. */
  lemma {:induction false} WriteKeeps(b: Bus, link: Link, op: Op)
    requires Following(b, b.vr.regs) && op.Send? && op.origin.FromRow? && b.vr.page == op.origin.page
    requires Fits(op.origin.group, op.origin.page, op.cmd, op.origin.indexed, b.vr.regs)
    requires op.origin.group != 0 ==> b.vr.sel == SelByte(op.origin.group)
    requires Exec(b, link, op).ok
    ensures var d := Exec(b, link, op).bus;
            Following(d, b.vr.regs) && d.vr.sel == b.vr.sel
  {
    hide RowsAcked, RowsLand, SelectsClean, NoProtectFrom, Unstored, RowSends, WritePages, Fold, Mirrored, Committed, Store;
    var d := Exec(b, link, op).bus;
    ExecLog(b, link, op, 0);
    FoldStep(RowSends(b.log), op);
    StoreIs(b.vr);
    if IsRegister(op.origin.page, op.cmd) {
      assert CellOf(b.vr, op.cmd, op.data) == RowCell(op);
      WriteMirrors(b, d, op, op.data);
    } else {
      ActionMirrors(b, d, op);
    }
  }

  lemma WriteMirrors(b: Bus, d: Bus, op: Op, data: seq<byte>)
    requires Mirrored(b) && Committed(b) && op.Send? && op.origin.FromRow?
    requires Written(d) == Written(b)[RowCell(op) := data] && d.vr.ram == b.vr.ram[RowCell(op) := data]
    requires d.vr.nvm == b.vr.nvm && Unstored(d.log) == Unstored(b.log) + {op.origin.group}
    ensures Mirrored(d) && Committed(d)
  {
    hide Unstored, Written;
    assert BankGroup(RowCell(op).bank) == op.origin.group;
  }

  lemma ActionMirrors(b: Bus, d: Bus, op: Op)
    requires Mirrored(b) && Committed(b) && op.Send? && op.origin.FromRow? && !IsRegister(op.origin.page, op.cmd)
    requires Written(d) == Written(b)[RowCell(op) := op.data] && d.vr.ram == b.vr.ram
    requires d.vr.nvm == b.vr.nvm || d.vr == Store(b.vr)
    requires Unstored(d.log) == Unstored(b.log) + {op.origin.group}
    ensures Mirrored(d) && Committed(d)
  {
    hide Unstored, Written;
    assert !Kept(RowCell(op));
    forall c | c in Written(d) && Kept(c)
      ensures c in Written(b) && Written(d)[c] == Written(b)[c] && c in b.vr.ram && b.vr.ram[c] == Written(b)[c]
    {
    }
  }

  lemma {:induction false} SendRowKeeps(s: Stream, link: Link, row: Row, cmd: byte, data: seq<byte>, indexed: bool,
                     base: nat, regs: RegMap)
    requires Good(s, base, regs) && !s.pastEnd && s.bus.vr.page == row.page && s.group == row.group
    requires Fits(row.group, row.page, cmd, indexed, regs) && SendRow(s, link, row, cmd, data, indexed).ok
    ensures Good(SendRow(s, link, row, cmd, data, indexed).s, base, regs)
  {
    hide LogOk, RowsAcked, Unstored, RowSends, WritePages, Following, Exec, Fits;
    SendRowTidy(s, link, row, cmd, data, indexed, base);
    assert s.bus.vr.regs == regs by { RegsOf(s.bus, regs); }
    WriteKeeps(s.bus, link, Send(cmd, data, FromRow(row.group, row.page, indexed)));
  }

  lemma RegsOf(b: Bus, regs: RegMap)
    requires Following(b, regs)
    ensures b.vr.regs == regs
  {
  }

  /** A row, on its page whenever it writes. */
  lemma {:induction false} ActKeeps(s: Stream, link: Link, row: Row, base: nat, regs: RegMap, p: Plan)
    requires Good(s, base, regs) && !s.pastEnd && s.block == p.block && s.group == row.group == p.group
    requires !IsReference(row) && FitsDevice(row, regs) && Act(s, link, row).ok
    requires Added(p, row).Some? ==> s.bus.vr.page == row.page
    ensures Good(Act(s, link, row).s, base, regs)
  {
    hide LogOk, RowsAcked, Unstored, Exec, Following, Classify, SendRow, Fits, BlockPayload, IsReference;
    match Classify(row)
    case Skip =>
    case Reject =>
    case Word(cmd, data) =>
      SendRowKeeps(s, link, row, cmd, data, false, base, regs);
    case Whole(cmd, data, indexed) =>
      SendRowKeeps(s, link, row, cmd, data, indexed, base, regs);
    case Piece(cmd, want, value) =>
      var got := StartBlock(s.block, cmd, want).got + [value.value];
      if |got| == want {
        SendRowKeeps(s.(block := NoBlock), link, row, cmd, BlockPayload(got), false, base, regs);
      }
  }

  lemma {:induction false} ApplyRowKeeps(s: Stream, link: Link, row: Row, base: nat, regs: RegMap, p: Plan, t: Pages)
    requires Good(s, base, regs) && !s.pastEnd && s.block == p.block && s.group == p.group && Tracks(s, t)
    requires FitsDevice(row, regs) && TrackRow(p, t, row).lands && ApplyRow(s, link, row).ok
    ensures Good(ApplyRow(s, link, row).s, base, regs)
  {
    hide LogOk, RowsAcked, RowsLand, WritePages, Unstored, Following, SwitchGroup, SelectPage, Act, FitsDevice, Added, IsReference, TrackRow;
    if !IsReference(row) {
      RowTracked(p, t, row);
      SwitchGroupKeeps(s, link, row.group, base, regs);
      SwitchGroupTidy(s, link, row.group, base);
      SwitchSendsNothing(s, link, row.group);
      SwitchTracks(s, link, row.group, t);
      AddedAfterSwitch(p, row);
      var g := SwitchGroup(s, link, row.group);
      if row.page != g.s.page {
        SelectPageKeeps(g.s, link, row.page, base, regs);
      }
      ReachTracks(g.s, link, row.page, Switched(t, p.group, row.group));
      if Added(p, row).Some? {
        AddedIs(p, row);
      }
      ActKeeps(Reach(g.s, link, row.page).s, link, row, base, regs, p.(group := row.group));
    }
  }

  lemma ForgetLine(s: Stream, line: string, base: nat, regs: RegMap)
    requires Good(s, base, regs)
    ensures Good(s.(line := line), base, regs)
  {
    hide LogOk, RowsAcked, Unstored, Following;
  }

  lemma {:induction false} ApplyLineKeeps(s0: Stream, link: Link, raw: string, base: nat, regs: RegMap, p: Plan, t: Pages)
    requires Good(s0, base, regs) && Follows(s0, p) && Tracks(s0, t) && TrackLine(p, t, raw).lands && ApplyLine(s0, link, raw).ok
    requires var text := LineText(raw);
             !s0.pastEnd && text != "END" && Count(text, '\t') == 7 && RowOf(text).Some? ==> FitsDevice(RowOf(text).value, regs)
    ensures Good(ApplyLine(s0, link, raw).s, base, regs)
  {
    hide LogOk, RowsAcked, RowsLand, WritePages, RowSends, Unstored, Following, CStr, Count, RowOf, FitsDevice, ApplyRow, StoreAndVerify, TrackRow, TrackLine;
    var s := s0.(line := "");
    ForgetLine(s0, "", base, regs);
    LineTracked(p, t, raw);
    var text := LineText(raw);
    if !s.pastEnd {
      if text == "END" {
        if !(s.group == 0 && s.applied == 0) {
          StoreAndVerifyKeeps(s, link, base, regs);
          StoreAndVerifyTidy(s, link, base);
        }
      } else if Count(text, '\t') == 7 && RowOf(text).Some? {
        ApplyRowKeeps(s, link, RowOf(text).value, base, regs, p, t);
      }
    }
  }

  lemma {:induction false} FeedKeeps(s: Stream, link: Link, text: string, base: nat, regs: RegMap, p: Plan, t: Pages)
    requires Good(s, base, regs) && Follows(s, p) && Tracks(s, t) && TrackText(p, t, text).lands && Feed(s, link, text).ok
    requires s.pastEnd || ImageFits(text, regs)
    ensures Good(Feed(s, link, text).s, base, regs)
    decreases |text|
  {
    hide LogOk, RowsAcked, RowsLand, WritePages, RowSends, Unstored, Following, CStr, Count, RowOf, FitsDevice, ApplyLine, PlanLine, TrackLine, TrackText;
    var k := IndexOf(text, '\n');
    TextTracked(p, t, text);
    if k == |text| {
      ForgetLine(s, text, base, regs);
    } else {
      var raw := text[..k];
      if !s.pastEnd && LineText(raw) != "END" {
        BodyRowsStep(text, k);
        assert ImageFits(text[k + 1..], regs);
      } else {
        EndEnds(p, raw);
      }
      ApplyLineInStep(s, link, raw, p);
      ApplyLineTracks(s, link, raw, p, t);
      ApplyLineKeeps(s, link, raw, base, regs, p, t);
      FeedKeeps(ApplyLine(s, link, raw).s, link, text[k + 1..], base, regs, PlanLine(p, raw).p, TrackLine(p, t, raw));
    }
  }

  lemma EndEnds(p: Plan, raw: string)
    ensures p.ended || LineText(raw) == "END" ==> PlanLine(p, raw).p.ended
  {
    hide CStr, Count, RowOf, PlanRow;
  }

  // ------------------------------------------------------------- theorems

  lemma EmptyMemory(b: Bus)
    requires RowSends(b.log) == []
    ensures Mirrored(b) && Committed(b)
  {
  }

  lemma {:induction false} BeforeRestoreGood(s: Stream, link: Link, image: string)
    requires s.bus.log == [] && Begin(s.bus, link).ok && !BeforeRestore(s, link, image).aborted
    requires Lands(image) && ImageFits(image, s.bus.vr.regs)
    ensures Following(BeforeRestore(s, link, image).bus, s.bus.vr.regs)
  {
    hide LogOk, RowsAcked, RowsLand, WritePages, RowSends, Unstored, Begin, StoreAndVerify, Feed, Mirrored, Committed, Lands, TrackText, ImageFits;
    var b := Begin(s.bus, link).s;
    assert s.bus == Bus(s.bus.vr, []);
    BeginIsTidy(s.bus.vr, link);
    BeginTracks(s.bus.vr, link);
    EmptyMemory(b.bus);
    LandsIsTracked(image);
    FeedKeeps(b, link, image, |b.bus.log|, s.bus.vr.regs, START, AT_START);
    var f := Feed(b, link, image);
    if !f.s.pastEnd {
      StoreAndVerifyKeeps(f.s, link, |b.bus.log|, s.bus.vr.regs);
    }
  }

  /** User memory.  After a successful update of an image that misleads no row and whose rows
      fit the device, user memory holds, for every register written, the last value the image
      writes to it. */
  lemma {:induction false} MemoryHoldsTheImage(s: Stream, link: Link, chunks: seq<string>)
    requires s.bus.log == [] && chunks != [] && Session(s, link, chunks).ok
    requires Lands(Concat(chunks)) && ImageFits(Concat(chunks), s.bus.vr.regs)
    ensures var nvm := Session(s, link, chunks).s.bus.vr.nvm;
            var want := Fold(ImageSends(Concat(chunks)));
            forall c :: c in want && Kept(c) ==> c in nvm && nvm[c] == want[c]
  {
    hide RowSends, PlanText, Fold, Lands, ImageFits, BeforeRestore, Begin, RestoreProtection, Unstored, LogOk, RowsAcked, WritePages;
    var image := Concat(chunks);
    UpdateWritesTheImage(s, link, chunks);
    ChunkIndependence(s, link, chunks);
    OneCallRestores(s, link, image);
    BeforeRestoreTidy(s, link, image);
    BeforeRestoreGood(s, link, image);
    RestoreTail(BeforeRestore(s, link, image), link);
  }
}
