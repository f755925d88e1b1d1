// What the streaming update keeps of its log on every run, whatever the image: sets are
// selected clean, the driver writes no protection, and nothing is left unstored.
module StreamSafety {
  import opened CText
  import opened VrBus
  import opened StreamSpec

  // ------------------------------------------------------ rows of an image

  /** Text of a line as the C string functions see it. */
  function LineText(raw: string): string { CStr(StripCr(raw)) }

  /** The rows of the complete lines before END, unparsable ones left out. */
  function BodyRows(text: string): seq<Row>
    decreases |text|
  {
    var k := IndexOf(text, '\n');
    if k == |text| || LineText(text[..k]) == "END" then []
    else
      (if Count(LineText(text[..k]), '\t') == 7 && RowOf(LineText(text[..k])).Some?
       then [RowOf(LineText(text[..k])).value] else [])
      + BodyRows(text[k + 1..])
  }

  // ------------------------------------------------------------ invariants

  /** What every run keeps of the log, failed or not, once the set-up is done: a set is selected
      only when nothing but shared registers is waiting to be stored, and the driver writes no
      protection. */
  ghost predicate LogOk(b: Bus, base: nat) {
    base <= |b.log| && SelectsClean(b.log) && NoProtectFrom(b.log, base)
  }

  /** What every run keeps while it is going well: only the current set and the shared registers
      can be waiting to be stored, nothing is before the first write and behind END, and every
      row's write has been acknowledged. */
  ghost predicate Tidy(s: Stream, base: nat) {
    LogOk(s.bus, base) && RowsAcked(s.bus.log) &&
    Unstored(s.bus.log) <= {0, s.group} &&
    (s.applied == 0 ==> Unstored(s.bus.log) == {}) &&
    (s.pastEnd ==> Unstored(s.bus.log) == {})
  }

  // ----------------------------------------------------- single transactions

  /** How one transaction extends the log and what is read off it. */
  lemma ExecLog(b: Bus, link: Link, op: Op, base: nat)
    requires base <= |b.log|
    ensures var e := Entry(op, b.vr.page, link(|b.log|).acked);
            var n := Exec(b, link, op).bus.log;
            n == b.log + [e] &&
            RowSends(n) == RowSends(b.log) + (if IsRow(e) && e.acked then [e.op] else []) &&
            WritePages(n) == WritePages(b.log) + (if IsRow(e) && e.acked then [e.page] else []) &&
            Unstored(n) == (if IsStore(e) then {} else Unstored(b.log) + (if IsRow(e) then {e.op.origin.group} else {})) &&
            (SelectsClean(n) <==> SelectsClean(b.log) && (IsSelect(e) ==> Unstored(b.log) <= {0})) &&
            (RowsLand(n) <==> RowsLand(b.log) && (IsRow(e) ==> e.page == e.op.origin.page)) &&
            (RowsAcked(n) <==> RowsAcked(b.log) && (IsRow(e) ==> e.acked)) &&
            (NoProtectFrom(b.log, base) && !IsProtect(e) ==> NoProtectFrom(n, base))
  {
    var e := Entry(op, b.vr.page, link(|b.log|).acked);
    LogStep(b.log, e);
    assert (b.log + [e])[|b.log|] == e;
    assert forall i :: 0 <= i < |b.log| ==> (b.log + [e])[i] == b.log[i];
  }

  /** A transaction that is neither a row's write nor a set select keeps the log in order. */
  lemma DriverStep(b: Bus, link: Link, op: Op, base: nat)
    requires LogOk(b, base)
    requires op.Send? ==> op.origin == Driver && op.cmd != CMD_WRITE_PROTECT && op.cmd != CMD_MULTICFG_SEL
    ensures var d := Exec(b, link, op);
            LogOk(d.bus, base) && RowSends(d.bus.log) == RowSends(b.log) && (RowsAcked(d.bus.log) <==> RowsAcked(b.log)) &&
            (Unstored(d.bus.log) == Unstored(b.log) || Unstored(d.bus.log) == {}) &&
            (op != Send(CMD_STORE_USER, [], Driver) ==> Unstored(d.bus.log) == Unstored(b.log)) &&
            (op == Send(CMD_STORE_USER, [], Driver) && d.ok && b.vr.page == PAGE_RAIL1 ==> Unstored(d.bus.log) == {})
  {
    hide RowsLand, RowsAcked, SelectsClean, NoProtectFrom, Unstored, RowSends, WritePages, Effect, Fit;
    ExecLog(b, link, op, base);
  }

  lemma PageAfter(b: Bus, link: Link, page: byte)
    ensures var d := Exec(b, link, SetPage(page));
            (d.ok ==> d.bus.vr.page == page) && d.bus.vr == b.vr.(page := d.bus.vr.page) &&
            (d.bus.vr.page == b.vr.page || d.bus.vr.page == page)
  {
  }

  lemma ReadAfter(b: Bus, link: Link, cmd: byte, len: nat)
    ensures Exec(b, link, Fetch(cmd, len)).bus.vr == b.vr
  {
  }

  // ------------------------------------------- the log, whatever the image

  /** STORE_USER, read-back, RESTORE_USER and the status check. */
  lemma StoreAndVerifyTidy(s: Stream, link: Link, base: nat)
    requires Tidy(s, base)
    ensures var r := StoreAndVerify(s, link);
            LogOk(r.s.bus, base) && RowSends(r.s.bus.log) == RowSends(s.bus.log) &&
            (r.ok ==> Tidy(r.s, base) && Unstored(r.s.bus.log) == {} && r.s.group == s.group && r.s.applied == s.applied)
  {
    hide LogOk, RowsAcked, Unstored, RowSends, WritePages, Exec, CmlClean;
    var p := Exec(s.bus, link, SetPage(PAGE_RAIL1));
    DriverStep(s.bus, link, SetPage(PAGE_RAIL1), base);
    PageAfter(s.bus, link, PAGE_RAIL1);
    if p.ok {
      var w := Exec(p.bus, link, Send(CMD_STORE_USER, [], Driver));
      DriverStep(p.bus, link, Send(CMD_STORE_USER, [], Driver), base);
      if w.ok {
        var v := Exec(w.bus, link, SetPage(PAGE_RAIL1));
        DriverStep(w.bus, link, SetPage(PAGE_RAIL1), base);
        DriverStep(v.bus, link, Fetch(CMD_EXPECTED_USER_CRC, 5), base);
        var f := GetFwVersion(w.bus, link);
        var q := Exec(f, link, Send(CMD_RESTORE_USER, [], Driver));
        DriverStep(f, link, Send(CMD_RESTORE_USER, [], Driver), base);
        if q.ok {
          var a := Exec(q.bus, link, SetPage(PAGE_RAIL1));
          DriverStep(q.bus, link, SetPage(PAGE_RAIL1), base);
          DriverStep(a.bus, link, Fetch(CMD_STATUS_CML, 1), base);
        }
      }
    }
  }

  lemma SelectTidy(b: Bus, link: Link, group: Group, base: nat)
    requires LogOk(b, base) && Unstored(b.log) <= {0}
    ensures var d := Exec(b, link, Send(CMD_MULTICFG_SEL, [SelByte(group)], Driver));
            LogOk(d.bus, base) && Unstored(d.bus.log) == Unstored(b.log) && RowSends(d.bus.log) == RowSends(b.log) &&
            (RowsAcked(d.bus.log) <==> RowsAcked(b.log))
  {
    hide RowsLand, RowsAcked, SelectsClean, NoProtectFrom, Unstored, RowSends, WritePages, Effect, Fit;
    ExecLog(b, link, Send(CMD_MULTICFG_SEL, [SelByte(group)], Driver), base);
  }

  lemma SelectPageTidy(s: Stream, link: Link, page: byte, base: nat)
    requires Tidy(s, base)
    ensures var r := SelectPage(s, link, page);
            Tidy(r.s, base) && r.s.group == s.group && r.s.block == s.block && Unstored(r.s.bus.log) == Unstored(s.bus.log)
  {
    hide LogOk, RowsAcked, Unstored, RowSends, WritePages, Exec;
    DriverStep(s.bus, link, SetPage(page), base);
  }

  lemma {:induction false} SwitchGroupTidy(s: Stream, link: Link, group: Group, base: nat)
    requires Tidy(s, base) && !s.pastEnd
    ensures var r := SwitchGroup(s, link, group);
            LogOk(r.s.bus, base) && (r.ok ==> Tidy(r.s, base) && r.s.group == group && !r.s.pastEnd)
  {
    hide LogOk, RowsAcked, Unstored, RowSends, WritePages, Exec, StoreAndVerify, SelectPage;
    if group != s.group {
      StoreAndVerifyTidy(s, link, base);
      var st := if s.group != 0 then StoreAndVerify(s, link) else Outcome(s, true);
      if st.ok && group != 0 {
        SelectPageTidy(st.s, link, PAGE_MFR_ALL, base);
        var p := SelectPage(st.s, link, PAGE_MFR_ALL);
        if p.ok {
          SelectTidy(p.s.bus, link, group, base);
        }
      }
    }
  }

  lemma SendRowTidy(s: Stream, link: Link, row: Row, cmd: byte, data: seq<byte>, indexed: bool, base: nat)
    requires Tidy(s, base) && !s.pastEnd && s.group == row.group
    ensures var r := SendRow(s, link, row, cmd, data, indexed);
            LogOk(r.s.bus, base) && (r.ok ==> Tidy(r.s, base))
  {
    hide RowsLand, RowsAcked, SelectsClean, NoProtectFrom, Unstored, RowSends, WritePages, Effect, Fit;
    ExecLog(s.bus, link, Send(cmd, data, FromRow(row.group, row.page, indexed)), base);
  }

  lemma {:induction false} ActTidy(s: Stream, link: Link, row: Row, base: nat)
    requires Tidy(s, base) && !s.pastEnd && s.group == row.group
    ensures var r := Act(s, link, row);
            LogOk(r.s.bus, base) && (r.ok ==> Tidy(r.s, base))
  {
    hide LogOk, RowsAcked, Unstored, Exec, Classify, SendRow, BlockPayload;
    match Classify(row)
    case Skip =>
    case Reject =>
    case Word(cmd, data) =>
      SendRowTidy(s, link, row, cmd, data, false, base);
    case Whole(cmd, data, indexed) =>
      SendRowTidy(s, link, row, cmd, data, indexed, base);
    case Piece(cmd, want, value) =>
      if value.Some? {
        var got := StartBlock(s.block, cmd, want).got + [value.value];
        if |got| == want {
          SendRowTidy(s.(block := NoBlock), link, row, cmd, BlockPayload(got), false, base);
        }
      }
  }

  lemma {:induction false} ApplyRowTidy(s: Stream, link: Link, row: Row, base: nat)
    requires Tidy(s, base) && !s.pastEnd
    ensures var r := ApplyRow(s, link, row);
            LogOk(r.s.bus, base) && (r.ok ==> Tidy(r.s, base))
  {
    hide LogOk, RowsAcked, Unstored, SwitchGroup, SelectPage, Act, IsReference;
    if !IsReference(row) && (row.group == s.group || s.block.NoBlock?) {
      var g := SwitchGroup(s, link, row.group);
      SwitchGroupTidy(s, link, row.group, base);
      if g.ok {
        var p := Reach(g.s, link, row.page);
        SelectPageTidy(g.s, link, row.page, base);
        if p.ok {
          ActTidy(p.s, link, row, base);
        }
      }
    }
  }

  lemma ForgetLineTidy(s: Stream, line: string, base: nat)
    requires Tidy(s, base)
    ensures Tidy(s.(line := line), base)
  {
    hide LogOk, RowsAcked, Unstored;
  }

  lemma {:induction false} ApplyLineTidy(s0: Stream, link: Link, raw: string, base: nat)
    requires Tidy(s0, base)
    ensures var r := ApplyLine(s0, link, raw);
            LogOk(r.s.bus, base) && (r.ok ==> Tidy(r.s, base))
  {
    hide LogOk, RowsAcked, Unstored, CStr, Count, RowOf, ApplyRow, StoreAndVerify;
    var s := s0.(line := "");
    ForgetLineTidy(s0, "", base);
    var text := LineText(raw);
    if !s.pastEnd {
      if text == "END" {
        StoreAndVerifyTidy(s, link, base);
      } else if Count(text, '\t') == 7 && RowOf(text).Some? {
        ApplyRowTidy(s, link, RowOf(text).value, base);
      }
    }
  }

  lemma {:induction false} FeedTidy(s: Stream, link: Link, text: string, base: nat)
    requires Tidy(s, base)
    ensures var r := Feed(s, link, text);
            LogOk(r.s.bus, base) && (r.ok ==> Tidy(r.s, base))
    decreases |text|
  {
    hide LogOk, RowsAcked, Unstored, CStr, Count, RowOf, ApplyLine;
    var k := IndexOf(text, '\n');
    if k == |text| || k >= LINE_BUF_LEN {
      ForgetLineTidy(s, text[..if k < LINE_BUF_LEN then k else LINE_BUF_LEN - 1], base);
    } else {
      ApplyLineTidy(s, link, text[..k], base);
      var a := ApplyLine(s, link, text[..k]);
      if a.ok {
        FeedTidy(a.s, link, text[k + 1..], base);
      }
    }
  }

  // ---------------------------------------------------------------- identity

  lemma IdStep(d: seq<byte>, v: nat)
    requires d != [] && IdValue(d) == v
    ensures d[0] == v % 256 && IdValue(d[1..]) == v / 256
  {
  }

  /** The driver takes exactly the three identities of the family. */
  lemma FamilyIs(d: seq<byte>)
    ensures IsFamilyId(d) <==> FamilyBlock(d)
  {
    hide IdValue;
    if FamilyBlock(d) {
      FamilyValue(d, d[2], d[4]);
    }
    if IsFamilyId(d) {
      FamilyReads(d);
    }
  }

  lemma FamilyValue(d: seq<byte>, x: byte, y: byte)
    requires d == [8, 0x20, x, 0x32, y, 0x39, 0x32, 0x20, 0x20]
    ensures IdValue(d[1..]) == 0x2020_3239_0032_0020 + 0x100 * x + 0x100_0000 * y
  {
    hide IdValue;
    IdMore(d[1..]);
    IdMore(d[2..]);
    IdMore(d[3..]);
    IdMore(d[4..]);
    IdMore(d[5..]);
    IdMore(d[6..]);
    IdMore(d[7..]);
    IdMore(d[8..]);
    assert IdValue([]) == 0 by { IdNone(); }
  }

  lemma IdMore(d: seq<byte>)
    requires d != []
    ensures IdValue(d) == d[0] + 256 * IdValue(d[1..])
  {
  }

  lemma IdNone()
    ensures IdValue([]) == 0
  {
  }

  lemma FamilyReads(d: seq<byte>)
    requires IsFamilyId(d)
    ensures FamilyBlock(d)
  {
    hide IdValue;
    var v := IdValue(d[1..]);
    if v == 0x2020_3239_3432_3620 {
      Member(d, v, 0x36, 0x34);
    } else if v == 0x2020_3239_3532_3920 {
      Member(d, v, 0x39, 0x35);
    } else {
      Member(d, v, 0x36, 0x35);
    }
  }

  /** The bytes the three have in common, and the two in which they differ. */
  lemma Member(d: seq<byte>, v: nat, x: byte, y: byte)
    requires |d| == 9 && d[0] == 8 && IdValue(d[1..]) == v
    requires v == 0x2020_3239_0032_0020 + 0x100 * x + 0x100_0000 * y
    ensures d == [8, 0x20, x, 0x32, y, 0x39, 0x32, 0x20, 0x20]
  {
    hide IdValue;
    var a, b, c := v / 256, v / 0x1_0000, v / 0x100_0000;
    assert a == 0x20_2032_3900_3200 + x + 0x1_0000 * y;
    assert b == 0x2020_3239_0032 + 0x100 * y;
    assert c == 0x20_2032_3900 + y;
    IdStep(d[1..], v);
    IdStep(d[2..], a);
    IdStep(d[3..], b);
    IdStep(d[4..], c);
    IdStep(d[5..], 0x2020_3239);
    IdStep(d[6..], 0x20_2032);
    IdStep(d[7..], 0x2020);
    IdStep(d[8..], 0x20);
  }

  // --------------------------------------------------- the device in between

  lemma AckIs(b: Bus, link: Link, op: Op)
    ensures Exec(b, link, op).ok == link(|b.log|).acked
  {
  }

  lemma StoreIs(vr: Vr)
    ensures var d := Store(vr); d.ram == vr.ram && d.wp == vr.wp && d.regs == vr.regs && d.sel == vr.sel && d.page == vr.page
  {
  }

  lemma RestoreIs(vr: Vr)
    ensures var d := Restore(vr); d.nvm == vr.nvm && d.wp == vr.wp && d.regs == vr.regs && d.sel == vr.sel && d.page == vr.page
  {
  }

  lemma BodyRowsStep(text: string, k: nat)
    requires k == IndexOf(text, '\n') < |text| && LineText(text[..k]) != "END"
    ensures forall row :: row in BodyRows(text[k + 1..]) ==> row in BodyRows(text)
    ensures var line := LineText(text[..k]);
            Count(line, '\t') == 7 && RowOf(line).Some? ==> RowOf(line).value in BodyRows(text)
  {
    hide CStr, Count, RowOf;
  }

  // ------------------------------------------------------------ whole updates

  /** A log on which only the driver has acted, without selecting a set. */
  predicate Plain(log: seq<Entry>) {
    forall i :: 0 <= i < |log| ==> !IsRow(log[i]) && !IsSelect(log[i])
  }

  lemma {:induction false} PlainLog(log: seq<Entry>)
    requires Plain(log)
    ensures RowSends(log) == [] && WritePages(log) == [] && Unstored(log) == {} && SelectsClean(log) && RowsAcked(log)
  {
    if log != [] {
      PlainLog(log[..|log| - 1]);
    }
  }

  /** Reading WRITE_PROTECT returns the device's own value. */
  lemma GetProtectEffect(b: Bus, link: Link)
    requires Plain(b.log)
    ensures var d := GetWriteProtect(b, link);
            Plain(d.bus.log) && d.bus.vr == b.vr.(page := d.bus.vr.page) &&
            (d.ok ==> d.data == [b.vr.wp] && d.bus.vr.page == PAGE_RAIL1)
  {
    assert Fit([b.vr.wp], 1) == [b.vr.wp];
  }

  lemma SetProtectEffect(b: Bus, link: Link, wp: byte)
    requires Plain(b.log)
    ensures var d := SetWriteProtect(b, link, wp);
            Plain(d.bus.log) && d.bus.vr.regs == b.vr.regs &&
            (d.ok ==> d.bus.vr.wp == wp && d.bus.vr.page == PAGE_RAIL1)
  {
    hide GetWriteProtect, Store, Restore;
    var a := Exec(b, link, SetPage(PAGE_RAIL1));
    var w := Exec(a.bus, link, Send(CMD_WRITE_PROTECT, [wp], Driver));
    GetProtectEffect(w.bus, link);
  }

  /** What Begin leaves behind when it succeeds: protection off and a clean log. */
  lemma BeginIsTidy(vr: Vr, link: Link)
    requires Begin(Bus(vr, []), link).ok
    ensures var r := Begin(Bus(vr, []), link);
            Tidy(r.s, |r.s.bus.log|) && Plain(r.s.bus.log) && r.s.bus.vr.wp == 0 && r.s.bus.vr.regs == vr.regs && r.s.savedWp == vr.wp &&
            !r.s.aborted && r.s.line == "" && r.s.group == 0 && r.s.applied == 0 && r.s.block.NoBlock? &&
            r.s.page == NO_PAGE && r.s.bus.vr.page == PAGE_RAIL1 && !r.s.pastEnd && RowSends(r.s.bus.log) == []
  {
    hide GetWriteProtect, SetWriteProtect, Store, Restore, IsFamilyId, RowSends, WritePages, Unstored, SelectsClean;
    var id := CheckDeviceId(Bus(vr, []), link);
    var pw := Exec(id.bus, link, Fetch(CMD_PASSWORD, 2));
    GetProtectEffect(pw.bus, link);
    var g := GetWriteProtect(pw.bus, link);
    SetProtectEffect(g.bus, link, 0);
    var w := if g.data[0] != 0 then SetWriteProtect(g.bus, link, 0) else Done(g.bus, true, []);
    var c := Exec(w.bus, link, Send(CMD_CLEAR_FAULT, [], Driver));
    assert w.bus.vr.wp == 0;
    assert c.bus.vr == w.bus.vr;
    PlainLog(c.bus.log);
  }
}
