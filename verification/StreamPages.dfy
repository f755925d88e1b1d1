// Where the rows of an image go, read off its text: the page the driver believes in, the page
// the device is on, and the protection the rows leave behind.
module StreamPages {
  import opened CText
  import opened VrBus
  import opened StreamSpec
  import opened StreamChunks
  import opened StreamSafety
  import opened StreamTheorems
  import opened StreamPlan

  /** The page cached by the driver, the device's own, the protection, the pages writes were
      made on, and whether each was the page its row names. */
  datatype Pages = Pages(cached: byte, actual: byte, wp: byte, made: seq<byte>, lands: bool)

  const AT_START := Pages(NO_PAGE, PAGE_RAIL1, 0, [], true)

  /** A set switch: storing the set left ends on page 0, selecting the next on page 9. */
  function Switched(t: Pages, before: Group, after: Group): Pages {
    if before == after then t
    else if after != 0 then t.(cached := PAGE_MFR_ALL, actual := PAGE_MFR_ALL)
    else t.(cached := PAGE_RAIL1, actual := PAGE_RAIL1)
  }

  /** The page select of a row, left out when the cache names its page. */
  function Reached(t: Pages, page: byte): Pages {
    if page == t.cached then t else t.(cached := page, actual := page)
  }

  /** A write where the device is: PAGE and, on page 0, WRITE_PROTECT act on the device itself. */
  function AfterWrite(t: Pages, op: Op): (u: Pages)
    ensures (u.lands ==> t.lands) && t.made <= u.made
  {
    if !op.Send? || !op.origin.FromRow? then t
    else
      var u := t.(made := t.made + [t.actual], lands := t.lands && t.actual == op.origin.page);
      if op.data == [] then u
      else if op.cmd == CMD_PAGE then u.(actual := op.data[0])
      else if t.actual == PAGE_RAIL1 && op.cmd == CMD_WRITE_PROTECT then u.(wp := op.data[0])
      else u
  }

  /** The write a row adds to a plan, if any. */
  function Added(p: Plan, row: Row): Option<Op> {
    var q := PlanRow(p, row).p.sends;
    if |q| > |p.sends| then Some(q[|p.sends|]) else None
  }

  /** What a row or line does to the page pointer: a row at its page, with the write it adds if
      any, or a store or switch that leaves driver and device on one page. */
  datatype Visit = Visit(page: byte, op: Option<Op>) | Moved(page: byte)

  function AfterVisit(t: Pages, v: Visit): (u: Pages)
    ensures (u.lands ==> t.lands) && t.made <= u.made
  {
    match v
    case Moved(page) => t.(cached := page, actual := page)
    case Visit(page, None) => Reached(t, page)
    case Visit(page, Some(op)) => AfterWrite(Reached(t, page), op)
  }

  function AfterVisits(t: Pages, vs: seq<Visit>): (u: Pages)
    ensures (u.lands ==> t.lands) && t.made <= u.made
    decreases |vs|
  {
    if vs == [] then t else AfterVisits(AfterVisit(t, vs[0]), vs[1..])
  }

  function RowVisits(p: Plan, row: Row): seq<Visit> {
    if IsReference(row) || (row.group != p.group && p.block.Partial?) then []
    else
      (if row.group == p.group then [] else [Moved(if row.group != 0 then PAGE_MFR_ALL else PAGE_RAIL1)])
      + [Visit(row.page, Added(p, row))]
  }

  function LineVisits(p: Plan, raw: string): seq<Visit> {
    var text := LineText(raw);
    if p.ended then []
    else if text == "END" then
      (if p.block.Partial? || (p.group == 0 && p.sends == []) then [] else [Moved(PAGE_RAIL1)])
    else if Count(text, '\t') != 7 then []
    else
      match RowOf(text)
      case None => []
      case Some(row) => RowVisits(p, row)
  }

  /** Where an image takes the page pointer, in order. */
  function TextVisits(p: Plan, text: string): seq<Visit>
    decreases |text|
  {
    var k := IndexOf(text, '\n');
    if k >= LINE_BUF_LEN || k == |text| then []
    else
      var l := PlanLine(p, text[..k]);
      LineVisits(p, text[..k]) + if !l.ok then [] else TextVisits(l.p, text[k + 1..])
  }

  function TrackRow(p: Plan, t: Pages, row: Row): (u: Pages)
    ensures (u.lands ==> t.lands) && t.made <= u.made
  {
    AfterVisits(t, RowVisits(p, row))
  }

  function TrackLine(p: Plan, t: Pages, raw: string): (u: Pages)
    ensures (u.lands ==> t.lands) && t.made <= u.made
  {
    AfterVisits(t, LineVisits(p, raw))
  }

  function TrackText(p: Plan, t: Pages, text: string): (u: Pages)
    ensures (u.lands ==> t.lands) && t.made <= u.made
  {
    AfterVisits(t, TextVisits(p, text))
  }

  /** A row that writes PAGE, for another page than its own. */
  predicate Turns(v: Visit, page: byte) {
    v.Visit? && v.page == page && v.op.Some? && v.op.value.Send? && v.op.value.cmd == CMD_PAGE &&
    v.op.value.data != [] && v.op.value.data[0] != page
  }

  /** The driver wrongly believes the device on a page: the last row to write was a PAGE row of
      that page for another one, or none has come yet and the page is 0xFF, which stands for
      "unknown"; and there has been no page select since. */
  predicate Stale(vs: seq<Visit>, page: byte) {
    (page == NO_PAGE && Stays(vs, 0, page)) ||
    exists i :: 0 <= i < |vs| && Turns(vs[i], page) && Stays(vs, i + 1, page)
  }

  /** From position n on, rows of one page that write nothing. */
  predicate Stays(vs: seq<Visit>, n: nat, page: byte) {
    forall k :: n <= k < |vs| ==> vs[k] == Visit(page, None)
  }

  /** A row that writes, for the page the driver wrongly believes in. */
  predicate Misled(vs: seq<Visit>, j: nat)
    requires j < |vs|
  {
    vs[j].Visit? && vs[j].op.Some? && Stale(vs[..j], vs[j].page)
  }

  predicate AllLand(vs: seq<Visit>) { forall j :: 0 <= j < |vs| ==> !Misled(vs, j) }

  /** No row of the image is misled. */
  predicate Lands(image: string) { AllLand(TextVisits(START, image)) }

  /** The pages the writes of an image are made on, in order. */
  function PagesMade(image: string): seq<byte> { TrackText(START, AT_START, image).made }

  /** The protection the rows of an image leave. */
  function EndWp(image: string): byte { TrackText(START, AT_START, image).wp }

  lemma OneVisit(t: Pages, v: Visit)
    ensures AfterVisits(t, []) == t && AfterVisits(t, [v]) == AfterVisit(t, v)
  {
    assert [v][1..] == [];
  }

  lemma {:induction false} VisitsSplit(t: Pages, a: seq<Visit>, b: seq<Visit>)
    ensures AfterVisits(t, a + b) == AfterVisits(AfterVisits(t, a), b)
    decreases |a|
  {
    hide AfterVisit;
    if a == [] {
      assert a + b == b;
    } else {
      assert (a + b)[0] == a[0] && (a + b)[1..] == a[1..] + b;
      VisitsSplit(AfterVisit(t, a[0]), a[1..], b);
    }
  }

  /** A row: the set switch, the page select, the write. */
  lemma RowTracked(p: Plan, t: Pages, row: Row)
    ensures TrackRow(p, t, row) ==
              if IsReference(row) || (row.group != p.group && p.block.Partial?) then t
              else AfterVisit(Switched(t, p.group, row.group), Visit(row.page, Added(p, row)))
  {
    hide IsReference, Added, AfterWrite;
    var v := Visit(row.page, Added(p, row));
    var m := Moved(if row.group != 0 then PAGE_MFR_ALL else PAGE_RAIL1);
    OneVisit(t, v);
    OneVisit(t, m);
    VisitsSplit(t, [m], [v]);
    OneVisit(Switched(t, p.group, row.group), v);
    assert [] + [v] == [v];
  }

  lemma LineTracked(p: Plan, t: Pages, raw: string)
    ensures var text := LineText(raw);
            TrackLine(p, t, raw) ==
              if p.ended then t
              else if text == "END" then
                (if p.block.Partial? || (p.group == 0 && p.sends == []) then t
                 else t.(cached := PAGE_RAIL1, actual := PAGE_RAIL1))
              else if Count(text, '\t') != 7 || RowOf(text).None? then t
              else TrackRow(p, t, RowOf(text).value)
  {
    hide RowVisits, Count, RowOf;
    OneVisit(t, Moved(PAGE_RAIL1));
  }

  lemma TextTracked(p: Plan, t: Pages, text: string)
    ensures var k := IndexOf(text, '\n');
            TrackText(p, t, text) ==
              if k >= LINE_BUF_LEN || k == |text| then t
              else if !PlanLine(p, text[..k]).ok then TrackLine(p, t, text[..k])
              else TrackText(PlanLine(p, text[..k]).p, TrackLine(p, t, text[..k]), text[k + 1..])
  {
    hide PlanLine, LineVisits, AfterVisits;
    var k := IndexOf(text, '\n');
    OneVisit(t, Moved(PAGE_RAIL1));
    if k < LINE_BUF_LEN && k < |text| {
      var l := PlanLine(p, text[..k]);
      VisitsSplit(t, LineVisits(p, text[..k]), if !l.ok then [] else TextVisits(l.p, text[k + 1..]));
      OneVisit(TrackLine(p, t, text[..k]), Moved(PAGE_RAIL1));
    }
  }

  // ------------------------------------------------- which rows are misled

  /** Writes are those of rows, for the page visited. */
  predicate Proper(vs: seq<Visit>) {
    forall v :: v in vs && v.Visit? && v.op.Some? ==>
      v.op.value.Send? && v.op.value.origin.FromRow? && v.op.value.origin.page == v.page
  }

  lemma {:induction false} StaleStep(vs: seq<Visit>, v: Visit, page: byte)
    ensures Stale(vs + [v], page) <==> Turns(v, page) || (v == Visit(page, None) && Stale(vs, page))
  {
    var us := vs + [v];
    assert us[|vs|] == v;
    if v == Visit(page, None) {
      forall n | 0 <= n <= |vs|
        ensures Stays(us, n, page) <==> Stays(vs, n, page)
      {
        assert forall k :: 0 <= k < |vs| ==> us[k] == vs[k];
      }
      assert forall i :: 0 <= i < |vs| ==> us[i] == vs[i];
    } else if Turns(v, page) {
      assert Stays(us, |vs| + 1, page);
    }
  }

  /** The driver's belief is wrong, and stays harmless so far, exactly as stated. */
  lemma {:induction false} StaleIsIncoherent(vs: seq<Visit>, page: byte)
    requires Proper(vs)
    ensures var t := AfterVisits(AT_START, vs);
            (Stale(vs, page) ==> t.cached == page != t.actual) &&
            (t.lands && t.cached == page != t.actual ==> Stale(vs, page))
    decreases |vs|
  {
    hide Turns;
    if vs != [] {
      var pre, v := vs[..|vs| - 1], vs[|vs| - 1];
      assert vs == pre + [v] && v in vs;
      StaleIsIncoherent(pre, page);
      StaleStep(pre, v, page);
      VisitsSplit(AT_START, pre, [v]);
      OneVisit(AfterVisits(AT_START, pre), v);
      BeliefStep(AfterVisits(AT_START, pre), v, page);
    }
  }

  lemma BeliefStep(t: Pages, v: Visit, page: byte)
    requires Proper([v])
    ensures var u := AfterVisit(t, v);
            (Turns(v, page) ==> u.cached == page != u.actual) &&
            (v == Visit(page, None) && t.cached == page ==> u == t) &&
            (u.lands && u.cached == page != u.actual && !Turns(v, page) ==> v == Visit(page, None) && u == t)
  {
    assert v in [v];
  }

  lemma NoVisits()
    ensures AllLand([])
  {
  }

  lemma {:induction false} LandsStep(vs: seq<Visit>, v: Visit)
    ensures AllLand(vs + [v]) <==> AllLand(vs) && !(v.Visit? && v.op.Some? && Stale(vs, v.page))
  {
    hide Stale;
    var us := vs + [v];
    assert us[..|vs|] == vs && us[|vs|] == v;
    forall j | 0 <= j < |vs|
      ensures Misled(us, j) <==> Misled(vs, j)
    {
      assert us[..j] == vs[..j];
    }
    assert Misled(us, |vs|) <==> v.Visit? && v.op.Some? && Stale(vs, v.page);
    if AllLand(us) {
      forall j | 0 <= j < |vs|
        ensures !Misled(vs, j)
      {
        assert !Misled(us, j);
      }
    } else {
      var j :| 0 <= j < |us| && Misled(us, j);
      assert j < |vs| ==> Misled(vs, j);
    }
  }

  /** The writes of visits all land exactly when none is misled. */
  lemma {:induction false} NoneIsMisled(vs: seq<Visit>)
    requires Proper(vs)
    ensures AfterVisits(AT_START, vs).lands <==> AllLand(vs)
    decreases |vs|
  {
    hide Stale, AllLand;
    if vs == [] {
      NoVisits();
    } else {
      var pre, v := vs[..|vs| - 1], vs[|vs| - 1];
      assert vs == pre + [v] && v in vs;
      NoneIsMisled(pre);
      LandsStep(pre, v);
      VisitsSplit(AT_START, pre, [v]);
      OneVisit(AfterVisits(AT_START, pre), v);
      if v.Visit? {
        StaleIsIncoherent(pre, v.page);
      }
    }
  }

  lemma AddedIs(p: Plan, row: Row)
    requires Added(p, row).Some?
    ensures var op := Added(p, row).value;
            op.Send? && op.origin.FromRow? && op.origin.page == row.page
    ensures PlanRow(p, row).ok ==> PlanRow(p, row).p.group == row.group
  {
    hide Classify, IsReference, BlockPayload;
  }

  lemma RowIsProper(p: Plan, row: Row)
    ensures Proper(RowVisits(p, row))
  {
    hide Added, IsReference;
    if Added(p, row).Some? {
      AddedIs(p, row);
    }
  }

  lemma LineIsProper(p: Plan, raw: string)
    ensures Proper(LineVisits(p, raw))
  {
    hide RowVisits, Count, RowOf;
    if RowOf(LineText(raw)).Some? {
      RowIsProper(p, RowOf(LineText(raw)).value);
    }
  }

  lemma {:induction false} TextIsProper(p: Plan, text: string)
    ensures Proper(TextVisits(p, text))
    decreases |text|
  {
    hide LineVisits, PlanLine;
    var k := IndexOf(text, '\n');
    if k < LINE_BUF_LEN && k < |text| {
      LineIsProper(p, text[..k]);
      if PlanLine(p, text[..k]).ok {
        TextIsProper(PlanLine(p, text[..k]).p, text[k + 1..]);
      }
    }
  }

  /** Value of the last WRITE_PROTECT write on page 0, none counting as 0. */
  function LastProtect(vs: seq<Visit>): byte {
    if vs == [] then 0
    else
      var v := vs[|vs| - 1];
      if v.Visit? && v.page == PAGE_RAIL1 && v.op.Some? && v.op.value.Send? && v.op.value.cmd == CMD_WRITE_PROTECT && v.op.value.data != []
      then v.op.value.data[0]
      else LastProtect(vs[..|vs| - 1])
  }

  /** Where no row is misled, the rows leave the protection they write last on page 0. */
  lemma {:induction false} ProtectionLeft(vs: seq<Visit>)
    requires Proper(vs) && AllLand(vs)
    ensures AfterVisits(AT_START, vs).wp == LastProtect(vs)
    decreases |vs|
  {
    hide AllLand, Stale;
    NoneIsMisled(vs);
    if vs != [] {
      var pre, v := vs[..|vs| - 1], vs[|vs| - 1];
      assert vs == pre + [v] && v in vs;
      LandsStep(pre, v);
      ProtectionLeft(pre);
      VisitsSplit(AT_START, pre, [v]);
      OneVisit(AfterVisits(AT_START, pre), v);
    }
  }

  lemma LandsIsTracked(image: string)
    ensures Lands(image) <==> TrackText(START, AT_START, image).lands
    ensures Lands(image) ==> EndWp(image) == LastProtect(TextVisits(START, image))
  {
    var vs := TextVisits(START, image);
    hide AfterVisits, TextVisits, AllLand;
    TextIsProper(START, image);
    NoneIsMisled(vs);
    if AllLand(vs) {
      ProtectionLeft(vs);
    }
  }

  // ------------------------------------------- the device follows the text

  ghost predicate Tracks(s: Stream, t: Pages) {
    s.page == t.cached && s.bus.vr.page == t.actual && s.bus.vr.wp == t.wp &&
    WritePages(s.bus.log) == t.made && (RowsLand(s.bus.log) <==> t.lands)
  }

  /** What is still known of an update that stopped on the way to t. */
  ghost predicate Stopped(b: Bus, t: Pages, link: Link) {
    WritePages(b.log) <= t.made && (t.lands ==> RowsLand(b.log)) &&
    (Healthy(link) ==> (RowsLand(b.log) <==> t.lands) && b.vr.wp == t.wp)
  }

  /** Commands of the driver that change neither page nor protection. */
  lemma QuietCommand(b: Bus, link: Link, op: Op)
    requires op.Send? ==> op.origin == Driver && op.cmd != CMD_PAGE && op.cmd != CMD_WRITE_PROTECT
    ensures var d := Exec(b, link, op);
            WritePages(d.bus.log) == WritePages(b.log) && (RowsLand(d.bus.log) <==> RowsLand(b.log)) && d.bus.vr.wp == b.vr.wp &&
            (!op.SetPage? ==> d.bus.vr.page == b.vr.page) && (op.SetPage? && d.ok ==> d.bus.vr.page == op.page) &&
            (op.SetPage? ==> d.bus.vr.page == b.vr.page || d.bus.vr.page == op.page)
  {
    hide RowsAcked, RowsLand, SelectsClean, Unstored, RowSends, WritePages, Fit;
    ExecLog(b, link, op, 0);
  }

  lemma StoreTracks(s: Stream, link: Link, t: Pages)
    requires Tracks(s, t)
    ensures var r := StoreAndVerify(s, link);
            WritePages(r.s.bus.log) == t.made && (RowsLand(r.s.bus.log) <==> t.lands) && r.s.bus.vr.wp == t.wp &&
            (r.ok ==> Tracks(r.s, t.(cached := PAGE_RAIL1, actual := PAGE_RAIL1)))
  {
    hide RowsLand, WritePages, Exec, CmlClean;
    var p := Exec(s.bus, link, SetPage(PAGE_RAIL1));
    QuietCommand(s.bus, link, SetPage(PAGE_RAIL1));
    var w := Exec(p.bus, link, Send(CMD_STORE_USER, [], Driver));
    QuietCommand(p.bus, link, Send(CMD_STORE_USER, [], Driver));
    var v := Exec(w.bus, link, SetPage(PAGE_RAIL1));
    QuietCommand(w.bus, link, SetPage(PAGE_RAIL1));
    QuietCommand(v.bus, link, Fetch(CMD_EXPECTED_USER_CRC, 5));
    var f := GetFwVersion(w.bus, link);
    var q := Exec(f, link, Send(CMD_RESTORE_USER, [], Driver));
    QuietCommand(f, link, Send(CMD_RESTORE_USER, [], Driver));
    var a := Exec(q.bus, link, SetPage(PAGE_RAIL1));
    QuietCommand(q.bus, link, SetPage(PAGE_RAIL1));
    QuietCommand(a.bus, link, Fetch(CMD_STATUS_CML, 1));
  }

  lemma {:induction false} SwitchTracks(s: Stream, link: Link, group: Group, t: Pages)
    requires Tracks(s, t)
    ensures var r := SwitchGroup(s, link, group);
            WritePages(r.s.bus.log) == t.made && (RowsLand(r.s.bus.log) <==> t.lands) && r.s.bus.vr.wp == t.wp &&
            (r.ok ==> Tracks(r.s, Switched(t, s.group, group)))
  {
    hide RowsLand, WritePages, Exec, StoreAndVerify;
    if group != s.group {
      StoreTracks(s, link, t);
      var st := if s.group != 0 then StoreAndVerify(s, link) else Outcome(s, true);
      if st.ok && group != 0 {
        var p := Exec(st.s.bus, link, SetPage(PAGE_MFR_ALL));
        QuietCommand(st.s.bus, link, SetPage(PAGE_MFR_ALL));
        QuietCommand(p.bus, link, Send(CMD_MULTICFG_SEL, [SelByte(group)], Driver));
      }
    }
  }

  lemma ReachTracks(s: Stream, link: Link, page: byte, t: Pages)
    requires Tracks(s, t)
    ensures var r := Reach(s, link, page);
            WritePages(r.s.bus.log) == t.made && (RowsLand(r.s.bus.log) <==> t.lands) && r.s.bus.vr.wp == t.wp &&
            (r.ok ==> Tracks(r.s, Reached(t, page)) && r.s.group == s.group && r.s.block == s.block) &&
            (Healthy(link) ==> r.ok)
  {
    hide RowsLand, WritePages, IsFamilyId, CmlClean;
    QuietCommand(s.bus, link, SetPage(page));
  }

  lemma SendRowTracks(s: Stream, link: Link, row: Row, cmd: byte, data: seq<byte>, indexed: bool, t: Pages)
    requires Tracks(s, t)
    ensures var r := SendRow(s, link, row, cmd, data, indexed);
            var u := AfterWrite(t, Send(cmd, data, FromRow(row.group, row.page, indexed)));
            WritePages(r.s.bus.log) <= u.made && (RowsLand(r.s.bus.log) <==> u.lands) && (r.ok ==> Tracks(r.s, u)) && (Healthy(link) ==> r.ok)
  {
    hide RowsAcked, RowsLand, SelectsClean, Unstored, RowSends, WritePages, Store, Restore, IsFamilyId, CmlClean, Fit;
    ExecLog(s.bus, link, Send(cmd, data, FromRow(row.group, row.page, indexed)), 0);
    StoreIs(s.bus.vr);
    RestoreIs(s.bus.vr);
  }

  /** The branches of a row, with the write they add to the plan. */
  lemma {:induction false} ActTracks(s: Stream, link: Link, row: Row, p: Plan, t: Pages)
    requires Tracks(s, t) && s.block == p.block && s.group == row.group == p.group && !IsReference(row)
    ensures var r := Act(s, link, row);
            var u := if Added(p, row).Some? then AfterWrite(t, Added(p, row).value) else t;
            Stopped(r.s.bus, u, link) && (r.ok ==> Tracks(r.s, u))
  {
    hide RowsLand, WritePages, SendRow, Classify, IsReference, AfterWrite, BlockPayload, Healthy;
    match Classify(row)
    case Skip =>
    case Reject =>
    case Word(cmd, data) =>
      SendRowTracks(s, link, row, cmd, data, false, t);
    case Whole(cmd, data, indexed) =>
      SendRowTracks(s, link, row, cmd, data, indexed, t);
    case Piece(cmd, want, value) =>
      if value.Some? {
        var got := StartBlock(s.block, cmd, want).got + [value.value];
        SendRowTracks(s.(block := NoBlock), link, row, cmd, BlockPayload(got), false, t);
      }
  }

  lemma AddedAfterSwitch(p: Plan, row: Row)
    requires !IsReference(row) && (row.group == p.group || p.block.NoBlock?)
    ensures Added(p.(group := row.group), row) == Added(p, row)
  {
    hide Classify, IsReference, BlockPayload;
  }

  lemma {:induction false} ApplyRowTracks(s: Stream, link: Link, row: Row, p: Plan, t: Pages)
    requires Tracks(s, t) && s.block == p.block && s.group == p.group
    ensures var r := ApplyRow(s, link, row);
            Stopped(r.s.bus, TrackRow(p, t, row), link) && (r.ok ==> Tracks(r.s, TrackRow(p, t, row)))
  {
    hide RowsLand, WritePages, SwitchGroup, Reach, Act, Added, AfterWrite, IsReference, Healthy, TrackRow;
    RowTracked(p, t, row);
    if !IsReference(row) && (row.group == s.group || s.block.NoBlock?) {
      var g := SwitchGroup(s, link, row.group);
      SwitchTracks(s, link, row.group, t);
      SwitchSendsNothing(s, link, row.group);
      AddedAfterSwitch(p, row);
      if g.ok {
        var a := Switched(t, s.group, row.group);
        var r := Reach(g.s, link, row.page);
        ReachTracks(g.s, link, row.page, a);
        if r.ok {
          ActTracks(r.s, link, row, p.(group := row.group), Reached(a, row.page));
        }
      }
    }
  }

  lemma {:induction false} ApplyLineTracks(s: Stream, link: Link, raw: string, p: Plan, t: Pages)
    requires Follows(s, p) && Tracks(s, t)
    ensures var r := ApplyLine(s, link, raw);
            Stopped(r.s.bus, TrackLine(p, t, raw), link) && (r.ok ==> Tracks(r.s, TrackLine(p, t, raw)))
  {
    hide RowsLand, ApplyRow, TrackRow, TrackLine, RowSends, WritePages, Healthy, StoreAndVerify, CStr, Count, RowOf;
    LineTracked(p, t, raw);
    StoreTracks(s.(line := ""), link, t);
    var text := LineText(raw);
    if RowOf(text).Some? {
      ApplyRowTracks(s.(line := ""), link, RowOf(text).value, p, t);
    }
  }

  lemma {:induction false} FeedTracks(s: Stream, link: Link, text: string, p: Plan, t: Pages)
    requires Follows(s, p) && Tracks(s, t)
    ensures var r := Feed(s, link, text);
            Stopped(r.s.bus, TrackText(p, t, text), link) && (r.ok ==> Tracks(r.s, TrackText(p, t, text)))
    decreases |text|
  {
    hide RowsLand, WritePages, ApplyLine, TrackLine, TrackText, PlanLine, Follows, Healthy;
    TextTracked(p, t, text);
    var k := IndexOf(text, '\n');
    if k < LINE_BUF_LEN && k < |text| {
      ApplyLineTracks(s, link, text[..k], p, t);
      ApplyLineInStep(s, link, text[..k], p);
      var a, l := ApplyLine(s, link, text[..k]), PlanLine(p, text[..k]);
      if a.ok {
        FeedTracks(a.s, link, text[k + 1..], l.p, TrackLine(p, t, text[..k]));
      }
    } else {
      FollowsLine(s, p, text);
    }
  }

  lemma FollowsLine(s: Stream, p: Plan, line: string)
    requires Follows(s, p)
    ensures Follows(s.(line := line), p)
  {
  }

  lemma BeginTracks(vr: Vr, link: Link)
    requires Begin(Bus(vr, []), link).ok
    ensures var s := Begin(Bus(vr, []), link).s;
            Follows(s, START) && Tracks(s, AT_START) && s.savedWp == vr.wp
  {
    hide RowsAcked, Begin, RowSends, WritePages, LogOk, RowsLand;
    BeginIsTidy(vr, link);
    PlainLands(Begin(Bus(vr, []), link).s.bus.log);
    PlainLog(Begin(Bus(vr, []), link).s.bus.log);
  }

  lemma {:induction false} BeforeRestoreTracks(s: Stream, link: Link, image: string)
    requires s.bus.log == [] && Begin(s.bus, link).ok
    ensures var mid := BeforeRestore(s, link, image);
            Stopped(mid.bus, TrackText(START, AT_START, image), link) &&
            (!mid.aborted ==> (RowsLand(mid.bus.log) <==> Lands(image)) && WritePages(mid.bus.log) == PagesMade(image))
  {
    hide Begin, Feed, Follows, RowsLand, WritePages, StoreAndVerify, Healthy, TrackText, Lands;
    LandsIsTracked(image);
    assert s.bus == Bus(s.bus.vr, []);
    BeginTracks(s.bus.vr, link);
    var b := Begin(s.bus, link).s;
    FeedTracks(b, link, image, START, AT_START);
    var f := Feed(b, link, image);
    if f.ok {
      StoreTracks(f.s, link, TrackText(START, AT_START, image));
    }
  }

  lemma StaleAfter(text: string)
    ensures var t, vs := TrackText(START, AT_START, text), TextVisits(START, text);
            Lands(text) ==>
              ((forall page :: page != NO_PAGE ==> !Stale(vs, page)) <==> t.cached == NO_PAGE || t.cached == t.actual)
  {
    hide TextVisits, Stale, Lands;
    var t, vs := TrackText(START, AT_START, text), TextVisits(START, text);
    LandsIsTracked(text);
    TextIsProper(START, text);
    StaleIsIncoherent(vs, t.cached);
    forall page | Stale(vs, page)
      ensures t.cached == page != t.actual
    {
      StaleIsIncoherent(vs, page);
    }
  }

  // ------------------------------------------------------------- theorems

  /** Rows reach their pages.  On every run, finished or aborted anywhere and under every
      pattern of bus failures, each configuration write is made while the device is on the page
      its row names, provided the text says so; and if and only if it does when the update
      reports success or the bus is healthy. */
  lemma {:induction false} RowsReachTheirPage(s: Stream, link: Link, chunks: seq<string>)
    requires s.bus.log == [] && chunks != []
    ensures var d := Session(s, link, chunks).s.bus;
            (Lands(Concat(chunks)) ==> RowsLand(d.log)) &&
            (Healthy(link) || Session(s, link, chunks).ok ==> (RowsLand(d.log) <==> Lands(Concat(chunks))))
  {
    hide Begin, RestoreProtection, RowsLand, WritePages, Healthy, TrackText, Plain, BeforeRestore, Lands;
    var image := Concat(chunks);
    LandsIsTracked(image);
    ChunkIndependence(s, link, chunks);
    assert s.bus == Bus(s.bus.vr, []);
    if Begin(s.bus, link).ok {
      OneCallRestores(s, link, image);
      BeforeRestoreTracks(s, link, image);
      RestoreTail(BeforeRestore(s, link, image), link);
    } else {
      BeginIsPlain(s.bus.vr, link);
      PlainLands(Begin(s.bus, link).s.bus.log);
      if Healthy(link) {
        HealthyBegins(s.bus.vr, link);
      }
    }
  }

  /** On which page each write is made, landing or not: on every run the pages are the first of
      those the text says, and all of them on success. */
  lemma {:induction false} WritesAreMadeAsRead(s: Stream, link: Link, chunks: seq<string>)
    requires s.bus.log == [] && chunks != []
    ensures var r := Session(s, link, chunks);
            WritePages(r.s.bus.log) <= PagesMade(Concat(chunks)) &&
            (r.ok ==> WritePages(r.s.bus.log) == PagesMade(Concat(chunks)))
  {
    hide Begin, RestoreProtection, RowsLand, WritePages, Healthy, TrackText, Plain, BeforeRestore, Lands;
    var image := Concat(chunks);
    ChunkIndependence(s, link, chunks);
    assert s.bus == Bus(s.bus.vr, []);
    if Begin(s.bus, link).ok {
      OneCallRestores(s, link, image);
      BeforeRestoreTracks(s, link, image);
      RestoreTail(BeforeRestore(s, link, image), link);
    } else {
      BeginIsPlain(s.bus.vr, link);
      PlainLog(Begin(s.bus, link).s.bus.log);
    }
  }

  /** Page-cache coherence between chunks, exactly: after any part of an image that the update
      has taken, the driver knows no page or the device's own if and only if the text says so;
      while no row has been misled, if and only if none would be on a known page. */
  lemma {:induction false} PageCacheCoherent(s: Stream, link: Link, text: string)
    requires s.bus.log == [] && Chunk(s, link, text, true, false).ok
    ensures var r := Chunk(s, link, text, true, false).s;
            var t, coherent := TrackText(START, AT_START, text), r.page == NO_PAGE || r.page == r.bus.vr.page;
            (coherent <==> t.cached == NO_PAGE || t.cached == t.actual) &&
            (Lands(text) ==> (coherent <==> forall page :: page != NO_PAGE ==> !Stale(TextVisits(START, text), page)))
  {
    hide Begin, RowsLand, WritePages, Healthy, TrackText, Feed, Follows, TextVisits, Lands;
    StaleAfter(text);
    assert s.bus == Bus(s.bus.vr, []);
    var b := Begin(s.bus, link).s;
    BeginTracks(s.bus.vr, link);
    BeginIsTidy(s.bus.vr, link);
    assert b.line + text == text;
    FeedTracks(b, link, text, START, AT_START);
  }

  /** The original protection is back, exactly.  On a bus that acknowledges everything from the
      set-up on, and an unlocked device, a nonzero value the driver is willing to write always is, whatever the image;
      on a healthy one any other update ends with the protection the rows of the image leave. */
  lemma {:induction false} ProtectionRestoredExactly(s: Stream, link: Link, chunks: seq<string>)
    requires s.bus.log == [] && chunks != [] && Begin(s.bus, link).ok
    requires forall n :: n >= |Begin(s.bus, link).s.bus.log| ==> link(n).acked && !link(n).locked
    ensures var saved, wp := s.bus.vr.wp, Session(s, link, chunks).s.bus.vr.wp;
            (saved in {0x01, 0x20, 0x40, 0x80} ==> wp == saved) &&
            (Healthy(link) ==> wp == if saved in {0x01, 0x20, 0x40, 0x80} then saved else EndWp(Concat(chunks)))
  {
    hide Session, Begin, RowsLand, WritePages, Healthy, TrackText, BeforeRestore, NoProtectFrom, OpsFrom;
    ProtectionRestored(s, link, chunks);
    BeforeRestoreTracks(s, link, Concat(chunks));
  }

  // ------------------------------------------------ what the text condition means

  /** 0xFF stands for "page unknown": the first row that writes reaches its page exactly when it
      does not name page 0xFF, or belongs to a set, whose selection fills the cache. */
  lemma FirstRowLandsExactly(row: Row)
    requires Added(START, row).Some?
    ensures AllLand(RowVisits(START, row)) <==> row.page != NO_PAGE || row.group != 0
  {
    AddedIs(START, row);
    RowTracked(START, AT_START, row);
    RowIsProper(START, row);
    NoneIsMisled(RowVisits(START, row));
    hide Added, Classify, BlockPayload, AllLand, RowVisits, AfterVisits;
    ReferenceAddsNothing(START, row);
  }

  lemma ReferenceAddsNothing(p: Plan, row: Row)
    ensures IsReference(row) ==> Added(p, row).None?
  {
  }

  /** What goes wrong with a PAGE row: the row after it, for the same page, is written while
      the device is on page 5. */
  lemma PageRowMisdirectsNext(s: Stream, link: Link)
    requires s.group == 0 && s.page == 1 == s.bus.vr.page && (forall n :: link(n).acked)
    ensures var a := ApplyRow(s, link, Row(0, 1, 0x00, "PAGE", "05", "1"));
            var b := ApplyRow(a.s, link, Row(0, 1, 0x21, "VOUT_COMMAND", "0A", "1"));
            a.ok && b.ok && |b.s.bus.log| == |s.bus.log| + 2 &&
            b.s.bus.log[|s.bus.log| + 1].op.origin == FromRow(0, 1, false) &&
            b.s.bus.log[|s.bus.log| + 1].page == 5
  {
    var row1 := Row(0, 1, 0x00, "PAGE", "05", "1");
    var row2 := Row(0, 1, 0x21, "VOUT_COMMAND", "0A", "1");
    assert Classify(row1) == Word(0x00, [5]) by {
      assert Digits("05", 16, 0) == Digits("5", 16, 0) == Digits("", 16, 5) == 5;
      assert "05"[1..] == "5" && "5"[1..] == "";
    }
    assert Classify(row2) == Word(0x21, [10]) by {
      assert Digits("0A", 16, 0) == Digits("A", 16, 0) == Digits("", 16, 10) == 10;
      assert "0A"[1..] == "A" && "A"[1..] == "";
    }
    assert "PAGE"[..3][0] == 'P' && "PAGE"[..4][0] == 'P' && "VOUT_COMMAND"[..3][0] == 'V' && "VOUT_COMMAND"[..4][0] == 'V';
    assert "CRC"[0] == 'C' && "TRIM"[0] == 'T';
    assert !IsReference(row1) && !IsReference(row2);
    hide Classify, Store, Restore, Fit, IsReference;
    var a := ApplyRow(s, link, row1);
    assert a.s.bus.vr.page == 5 && a.s.page == 1;
  }

  /** A row that leaves page pointer and protection to the driver. */
  predicate LeavesDevice(row: Row) {
    IsReference(row) ||
    (row.page != NO_PAGE &&
     match Classify(row)
     case Skip => true
     case Reject => true
     case Word(cmd, _) => Harmless(row.page, cmd)
     case Whole(cmd, _, _) => Harmless(row.page, cmd)
     case Piece(cmd, _, _) => Harmless(row.page, cmd))
  }

  predicate Harmless(page: byte, cmd: byte) { cmd != CMD_PAGE && !(page == PAGE_RAIL1 && cmd == CMD_WRITE_PROTECT) }

  predicate Coherent(t: Pages) { t.lands && t.wp == 0 && (t.cached == NO_PAGE || t.cached == t.actual) }

  lemma AddedCommand(p: Plan, row: Row)
    requires LeavesDevice(row) && Added(p, row).Some?
    ensures Added(p, row).value.Send? && Harmless(row.page, Added(p, row).value.cmd) && row.page != NO_PAGE
  {
    hide Classify, BlockPayload, Harmless;
    ReferenceAddsNothing(p, row);
  }

  lemma QuietRow(p: Plan, t: Pages, row: Row)
    requires Coherent(t) && LeavesDevice(row)
    ensures Coherent(TrackRow(p, t, row))
  {
    if Added(p, row).Some? {
      AddedIs(p, row);
      AddedCommand(p, row);
    }
    RowTracked(p, t, row);
    hide Added, Classify, IsReference, TrackRow;
  }

  lemma {:induction false} QuietImage(p: Plan, t: Pages, text: string)
    requires Coherent(t) && (p.ended || forall row :: row in BodyRows(text) ==> LeavesDevice(row))
    ensures Coherent(TrackText(p, t, text))
    decreases |text|
  {
    hide PlanRow, TrackRow, TrackLine, TrackText, LeavesDevice, CStr, Count, RowOf;
    TextTracked(p, t, text);
    var k := IndexOf(text, '\n');
    if k < LINE_BUF_LEN && k < |text| {
      var line := LineText(text[..k]);
      LineTracked(p, t, text[..k]);
      if !p.ended && line != "END" {
        BodyRowsStep(text, k);
        if Count(line, '\t') == 7 && RowOf(line).Some? {
          QuietRow(p, t, RowOf(line).value);
        }
      }
      var l := PlanLine(p, text[..k]);
      if l.ok {
        PlanRowEnds(p, line);
        QuietImage(l.p, TrackLine(p, t, text[..k]), text[k + 1..]);
      }
    }
  }

  lemma PlanRowEnds(p: Plan, line: string)
    ensures RowOf(line).Some? ==> PlanRow(p, RowOf(line).value).p.ended == p.ended
  {
    hide Classify, IsReference, BlockPayload, RowOf;
  }

  /** An image without PAGE and WRITE_PROTECT rows and without page 0xFF misleads no row, leaves
      no page behind that would, and leaves the protection off. */
  lemma QuietImageLands(image: string)
    requires forall row :: row in BodyRows(image) ==> LeavesDevice(row)
    ensures Lands(image) && EndWp(image) == 0
    ensures forall page :: page != NO_PAGE ==> !Stale(TextVisits(START, image), page)
  {
    hide TrackText, TextVisits, LeavesDevice, BodyRows, Stale, Lands;
    QuietImage(START, AT_START, image);
    LandsIsTracked(image);
    StaleAfter(image);
  }
}
