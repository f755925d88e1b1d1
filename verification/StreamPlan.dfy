// The configuration writes an image asks for, read off the text alone: the meaning the
// streaming update must give to an image whatever the device and the bus do.
module StreamPlan {
  import opened CText
  import opened VrBus
  import opened StreamSpec
  import opened StreamChunks
  import opened StreamSafety
  import opened StreamTheorems

  datatype Plan = Plan(group: Group, block: Block, sends: seq<Op>, ended: bool)

  datatype Planned = Planned(p: Plan, ok: bool)

  const START := Plan(0, NoBlock, [], false)

  function Emit(p: Plan, row: Row, cmd: byte, data: seq<byte>, indexed: bool): Planned {
    Planned(p.(sends := p.sends + [Send(cmd, data, FromRow(row.group, row.page, indexed))]), true)
  }

  function PlanRow(p: Plan, row: Row): Planned {
    if IsReference(row) then Planned(p, true)
    else if row.group != p.group && p.block.Partial? then Planned(p, false)
    else
      var q := p.(group := row.group);
      match Classify(row)
      case Skip => Planned(q, true)
      case Reject => Planned(q, false)
      case Word(cmd, data) => Emit(q, row, cmd, data, false)
      case Whole(cmd, data, indexed) => if q.block.Partial? then Planned(q, false) else Emit(q, row, cmd, data, indexed)
      case Piece(cmd, want, value) =>
        if value.None? then Planned(q, false)
        else
          var got := StartBlock(q.block, cmd, want).got + [value.value];
          if |got| < want then Planned(q.(block := Partial(cmd, want, got)), true)
          else Emit(q.(block := NoBlock), row, cmd, BlockPayload(got), false)
  }

  function PlanLine(p: Plan, raw: string): Planned {
    var text := LineText(raw);
    if p.ended then Planned(p, true)
    else if text == "END" then Planned(p.(ended := true), p.block.NoBlock?)
    else if Count(text, '\t') != 7 then Planned(p, true)
    else
      match RowOf(text)
      case None => Planned(p, false)
      case Some(row) => PlanRow(p, row)
  }

  /** The plan of a text that starts at the beginning of a line. */
  function PlanText(p: Plan, text: string): Planned
    decreases |text|
  {
    var k := IndexOf(text, '\n');
    if k >= LINE_BUF_LEN then Planned(p, false)
    else if k == |text| then Planned(p, true)
    else
      var l := PlanLine(p, text[..k]);
      if !l.ok then l else PlanText(l.p, text[k + 1..])
  }

  /** The state of an update that has carried out exactly the plan p. */
  predicate Follows(s: Stream, p: Plan) {
    p == Plan(s.group, s.block, RowSends(s.bus.log), s.pastEnd) && s.applied == |p.sends|
  }

  /** An outcome is in step with a plan: it has carried all of it out, or failed on the way
      after a first part of its writes. */
  ghost predicate InStep(r: Outcome, q: Planned, link: Link) {
    RowSends(r.s.bus.log) <= q.p.sends && r.s.applied == |RowSends(r.s.bus.log)| &&
    (r.ok ==> q.ok && Follows(r.s, q.p)) &&
    (Healthy(link) && q.ok ==> r.ok)
  }

  /** A bus that acknowledges everything, and an unlocked device of the family, which its second
      transaction asks for, whose STATUS_CML never shows an NVM error. */
  ghost predicate Healthy(link: Link) {
    FamilyBlock(Fit(link(1).data, 9)) &&
    forall n :: link(n).acked && !link(n).locked && link(n).status / 16 % 2 == 0 && link(n).status / 32 % 2 == 0
  }

  lemma DriverSendsNothing(b: Bus, link: Link, op: Op)
    requires op.Send? ==> op.origin == Driver
    ensures var d := Exec(b, link, op);
            RowSends(d.bus.log) == RowSends(b.log) && (Healthy(link) ==> d.ok) &&
            (d.ok && op == Fetch(CMD_STATUS_CML, 1) ==> d.data == [link(|b.log|).status])
  {
    hide RowsAcked, Unstored, RowSends, WritePages, SelectsClean, RowsLand, Effect, Fit, IsFamilyId, CmlClean;
    ExecLog(b, link, op, 0);
    FitOne(link(|b.log|).status);
  }

  lemma FitOne(x: byte)
    ensures Fit([x], 1) == [x]
  {
  }

  lemma {:induction false} StoreSendsNothing(s: Stream, link: Link)
    ensures var r := StoreAndVerify(s, link);
            RowSends(r.s.bus.log) == RowSends(s.bus.log) && r.s.group == s.group && r.s.block == s.block &&
            r.s.applied == s.applied && (Healthy(link) ==> r.ok)
  {
    hide RowSends, WritePages, Exec, IsFamilyId, Fit;
    var a := Exec(s.bus, link, SetPage(PAGE_RAIL1));
    DriverSendsNothing(s.bus, link, SetPage(PAGE_RAIL1));
    var w := Exec(a.bus, link, Send(CMD_STORE_USER, [], Driver));
    DriverSendsNothing(a.bus, link, Send(CMD_STORE_USER, [], Driver));
    var v := Exec(w.bus, link, SetPage(PAGE_RAIL1));
    DriverSendsNothing(w.bus, link, SetPage(PAGE_RAIL1));
    DriverSendsNothing(v.bus, link, Fetch(CMD_EXPECTED_USER_CRC, 5));
    var f := GetFwVersion(w.bus, link);
    var q := Exec(f, link, Send(CMD_RESTORE_USER, [], Driver));
    DriverSendsNothing(f, link, Send(CMD_RESTORE_USER, [], Driver));
    var c := Exec(q.bus, link, SetPage(PAGE_RAIL1));
    DriverSendsNothing(q.bus, link, SetPage(PAGE_RAIL1));
    DriverSendsNothing(c.bus, link, Fetch(CMD_STATUS_CML, 1));
  }

  lemma {:induction false} SwitchSendsNothing(s: Stream, link: Link, group: Group)
    ensures var r := SwitchGroup(s, link, group);
            RowSends(r.s.bus.log) == RowSends(s.bus.log) && r.s.block == s.block &&
            r.s.applied == s.applied && (r.ok ==> r.s.group == group) && (Healthy(link) ==> r.ok)
  {
    hide RowsAcked, Unstored, RowSends, WritePages, SelectsClean, RowsLand, Effect, Answer, StoreAndVerify;
    StoreSendsNothing(s, link);
    var t := if s.group != 0 then StoreAndVerify(s, link).s else s;
    var p := Exec(t.bus, link, SetPage(PAGE_MFR_ALL));
    ExecLog(t.bus, link, SetPage(PAGE_MFR_ALL), 0);
    ExecLog(p.bus, link, Send(CMD_MULTICFG_SEL, [SelByte(group)], Driver), 0);
  }

  lemma SendInStep(s: Stream, link: Link, row: Row, cmd: byte, data: seq<byte>, indexed: bool, p: Plan)
    requires Follows(s, p) && s.group == row.group
    ensures InStep(SendRow(s, link, row, cmd, data, indexed), Emit(p, row, cmd, data, indexed), link)
  {
    hide RowsAcked, Effect, Answer, RowSends, WritePages, Unstored, SelectsClean, RowsLand;
    ExecLog(s.bus, link, Send(cmd, data, FromRow(row.group, row.page, indexed)), 0);
  }

  lemma {:induction false} ActInStep(s: Stream, link: Link, row: Row, p: Plan)
    requires Follows(s, p) && s.group == row.group && !IsReference(row)
    ensures InStep(Act(s, link, row), PlanRow(p, row), link)
  {
    hide Classify, BlockPayload, IsReference, SendRow, Emit, RowSends, WritePages, Healthy;
    assert p.(group := row.group) == p;
    match Classify(row)
    case Skip =>
    case Reject =>
    case Word(cmd, data) =>
      SendInStep(s, link, row, cmd, data, false, p);
    case Whole(cmd, data, indexed) =>
      SendInStep(s, link, row, cmd, data, indexed, p);
    case Piece(cmd, want, value) =>
      if value.Some? {
        var got := StartBlock(s.block, cmd, want).got + [value.value];
        if |got| == want {
          SendInStep(s.(block := NoBlock), link, row, cmd, BlockPayload(got), false, p.(block := NoBlock));
        }
      }
  }

  lemma {:induction false} ApplyRowInStep(s: Stream, link: Link, row: Row, p: Plan)
    requires Follows(s, p)
    ensures InStep(ApplyRow(s, link, row), PlanRow(p, row), link)
  {
    hide RowsAcked, Classify, IsReference, RowSends, WritePages, Unstored, SelectsClean, RowsLand, SwitchGroup, Act, BlockPayload, Effect, Answer;
    if !IsReference(row) && (row.group == s.group || s.block.NoBlock?) {
      var g := SwitchGroup(s, link, row.group);
      SwitchSendsNothing(s, link, row.group);
      PlanRowGrows(p, row);
      if g.ok {
        ExecLog(g.s.bus, link, SetPage(row.page), 0);
        var r := Reach(g.s, link, row.page);
        var q := p.(group := row.group);
        assert PlanRow(q, row) == PlanRow(p, row);
        if r.ok {
          ActInStep(r.s, link, row, q);
        }
      }
    }
  }

  lemma PlanRowGrows(p: Plan, row: Row)
    ensures p.sends <= PlanRow(p, row).p.sends
  {
    hide Classify, IsReference, BlockPayload;
  }

  lemma {:induction false} ApplyLineInStep(s: Stream, link: Link, raw: string, p: Plan)
    requires Follows(s, p)
    ensures InStep(ApplyLine(s, link, raw), PlanLine(p, raw), link)
  {
    hide RowSends, WritePages, ApplyRow, PlanRow, StoreAndVerify, CStr, Count, RowOf;
    StoreSendsNothing(s.(line := ""), link);
    var text := LineText(raw);
    if RowOf(text).Some? {
      ApplyRowInStep(s.(line := ""), link, RowOf(text).value, p);
    }
  }

  lemma {:induction false} PlanTextGrows(p: Plan, text: string)
    ensures p.sends <= PlanText(p, text).p.sends
    decreases |text|
  {
    hide CStr, Count, RowOf, PlanRow;
    var k := IndexOf(text, '\n');
    if k < LINE_BUF_LEN && k < |text| {
      var line := LineText(text[..k]);
      if RowOf(line).Some? {
        PlanRowGrows(p, RowOf(line).value);
      }
      PlanTextGrows(PlanLine(p, text[..k]).p, text[k + 1..]);
    }
  }

  lemma {:induction false} FeedInStep(s: Stream, link: Link, text: string, p: Plan)
    requires Follows(s, p)
    ensures InStep(Feed(s, link, text), PlanText(p, text), link)
    decreases |text|
  {
    hide RowSends, WritePages, ApplyLine, PlanLine;
    var k := IndexOf(text, '\n');
    if k < LINE_BUF_LEN && k < |text| {
      ApplyLineInStep(s, link, text[..k], p);
      var a, l := ApplyLine(s, link, text[..k]), PlanLine(p, text[..k]);
      if a.ok {
        FeedInStep(a.s, link, text[k + 1..], l.p);
      } else if l.ok {
        PlanTextGrows(l.p, text[k + 1..]);
      }
    }
  }

  /** The text an image leaves after its last newline. */
  function Tail(text: string): string
    decreases |text|
  {
    var k := IndexOf(text, '\n');
    if k == |text| then text else Tail(text[k + 1..])
  }

  /** The writes an image asks for. */
  function ImageSends(image: string): seq<Op> { PlanText(START, image).p.sends }

  /** An image is acceptable when every line up to its end can be carried out, no block is
      open at the end, there is no unfinished line, and at least one write results. */
  predicate Acceptable(image: string) {
    PlanText(START, image).ok && PlanText(START, image).p.block.NoBlock? && Tail(image) == "" && ImageSends(image) != []
  }

  lemma {:induction false} FeedLeavesTail(s: Stream, link: Link, text: string)
    ensures Feed(s, link, text).ok ==> Feed(s, link, text).s.line == Tail(text)
    decreases |text|
  {
    hide ApplyLine;
    var k := IndexOf(text, '\n');
    if k < LINE_BUF_LEN && k < |text| {
      FeedLeavesTail(ApplyLine(s, link, text[..k]).s, link, text[k + 1..]);
    }
  }

  /** A plan that ends has no block open. */
  lemma {:induction false} EndedPlanIsClosed(p: Plan, text: string)
    requires p.ended ==> p.block.NoBlock?
    ensures var q := PlanText(p, text); q.ok && q.p.ended ==> q.p.block.NoBlock?
    decreases |text|
  {
    hide PlanLine;
    var k := IndexOf(text, '\n');
    if k < LINE_BUF_LEN && k < |text| && PlanLine(p, text[..k]).ok {
      EndedLineIsClosed(p, text[..k]);
      EndedPlanIsClosed(PlanLine(p, text[..k]).p, text[k + 1..]);
    }
  }

  lemma EndedLineIsClosed(p: Plan, raw: string)
    requires p.ended ==> p.block.NoBlock?
    ensures var l := PlanLine(p, raw); l.ok && l.p.ended ==> l.p.block.NoBlock?
  {
    hide CStr, Count, RowOf, Classify, IsReference, BlockPayload;
  }

  lemma HealthyBegins(vr: Vr, link: Link)
    requires Healthy(link)
    ensures Begin(Bus(vr, []), link).ok
  {
    hide Store, Restore, IsFamilyId, FamilyBlock, CmlClean;
    FamilyIs(Fit(link(1).data, 9));
    var b := Bus(vr, []);
    var a := Exec(b, link, SetPage(PAGE_RAIL1));
    var f := Exec(a.bus, link, Fetch(CMD_IC_DEVICE_ID, 9));
    assert f.data == Fit(link(1).data, 9);
    assert CheckDeviceId(b, link).ok;
    var pw := Exec(f.bus, link, Fetch(CMD_PASSWORD, 2));
    var g := GetWriteProtect(pw.bus, link);
    assert Fit([0], 1) == [0];
    assert SetWriteProtect(g.bus, link, 0).ok;
  }

  /** Where the text takes an update, before its protection is put back. */
  lemma {:induction false} BeforeRestoreFollows(s: Stream, link: Link, image: string)
    requires Begin(s.bus, link).ok && s.bus.log == []
    ensures var mid, q := BeforeRestore(s, link, image), PlanText(START, image);
            RowSends(mid.bus.log) <= q.p.sends && mid.applied == |RowSends(mid.bus.log)| &&
            (!mid.aborted ==> RowSends(mid.bus.log) == q.p.sends && Acceptable(image)) &&
            (Healthy(link) && Acceptable(image) ==> !mid.aborted)
  {
    hide Begin, RowSends, WritePages, Feed, PlanText, StoreAndVerify, Healthy, Tail;
    assert s.bus == Bus(s.bus.vr, []);
    BeginIsTidy(s.bus.vr, link);
    var b := Begin(s.bus, link).s;
    FeedInStep(b, link, image, START);
    FeedLeavesTail(b, link, image);
    EndedPlanIsClosed(START, image);
    StoreSendsNothing(Feed(b, link, image).s, link);
  }

  /** How an update ends, given where the text took it. */
  lemma {:induction false} RestFollows(s: Stream, link: Link, image: string)
    requires Begin(s.bus, link).ok && s.bus.log == []
    ensures var r := OneCall(s, link, image);
            var q := PlanText(START, image);
            RowSends(r.s.bus.log) <= q.p.sends && r.s.applied == |RowSends(r.s.bus.log)| &&
            (r.ok ==> RowSends(r.s.bus.log) == q.p.sends && Acceptable(image)) &&
            (Healthy(link) && Acceptable(image) ==> r.ok)
  {
    hide Begin, RowSends, WritePages, RestoreProtection, BeforeRestore, PlanText, Healthy, Acceptable, OneCall;
    OneCallRestores(s, link, image);
    BeforeRestoreFollows(s, link, image);
    RestoreTail(BeforeRestore(s, link, image), link);
  }

  // ------------------------------------------------------------- theorems

  /** The writes of an update are the writes of its image.  For every image, cut and bus: the
      acknowledged configuration writes are a prefix of the image's, counted as they go, and all
      of them when the
      update reports success, which it does only for acceptable images. */
  lemma {:induction false} UpdateWritesTheImage(s: Stream, link: Link, chunks: seq<string>)
    requires s.bus.log == [] && chunks != []
    ensures var r := Session(s, link, chunks);
            RowSends(r.s.bus.log) <= ImageSends(Concat(chunks)) && r.s.applied == |RowSends(r.s.bus.log)| &&
            (r.ok ==> RowSends(r.s.bus.log) == ImageSends(Concat(chunks)) && Acceptable(Concat(chunks)))
  {
    hide Session, Begin, RowSends, WritePages, PlanText, Continue, Acceptable;
    var image := Concat(chunks);
    ChunkIndependence(s, link, chunks);
    assert s.bus == Bus(s.bus.vr, []);
    if Begin(s.bus, link).ok {
      RestFollows(s, link, image);
    } else {
      BeginIsPlain(s.bus.vr, link);
      PlainLog(Begin(s.bus, link).s.bus.log);
      NothingApplied(s.bus, link);
    }
  }

  lemma NothingApplied(b: Bus, link: Link)
    ensures Begin(b, link).s.applied == 0
  {
    hide CheckDeviceId, GetWriteProtect, SetWriteProtect, Exec;
  }

  /** On a healthy bus and device the verdict is decided by the text: success exactly for
      acceptable images. */
  lemma VerdictIsTheText(s: Stream, link: Link, chunks: seq<string>)
    requires s.bus.log == [] && chunks != [] && Healthy(link)
    ensures Session(s, link, chunks).ok <==> Acceptable(Concat(chunks))
  {
    hide Session, Begin, RowSends, WritePages, PlanText, Continue, Acceptable, Healthy;
    ChunkIndependence(s, link, chunks);
    assert s.bus == Bus(s.bus.vr, []);
    HealthyBegins(s.bus.vr, link);
    RestFollows(s, link, Concat(chunks));
  }
}
