// Which rows make which write.  A block of more than four bytes is spread over as many rows;
// this file gives such runs of rows a meaning of their own, apart from the state machine that
// collects them, and says exactly when a row is lost or ends up on another row's page.
module StreamRuns {
  import opened CText
  import opened VrBus
  import opened StreamSpec
  import opened StreamChunks
  import opened StreamSafety
  import opened StreamTheorems
  import opened StreamPlan
  import opened StreamPages

  // ---------------------------------------------------------------- runs

  predicate IsByteRow(row: Row) { Classify(row).Piece? && Classify(row).value.Some? }

  /** A byte row of a block with this command and length. */
  predicate InBlock(row: Row, cmd: byte, want: nat) {
    IsByteRow(row) && Classify(row).cmd == cmd && Classify(row).want == want
  }

  /** Rows that belong together: one word or short row, or n byte rows of one command, each for a
      block of n bytes. */
  predicate IsRun(rows: seq<Row>) {
    rows != [] &&
    match Classify(rows[0])
    case Word(_, _) => |rows| == 1
    case Whole(_, _, _) => |rows| == 1
    case Piece(cmd, want, _) => |rows| == want && forall i :: 0 <= i < |rows| ==> InBlock(rows[i], cmd, want)
    case _ => false
  }

  function ByteOf(row: Row): byte {
    if IsByteRow(row) then Classify(row).value.value else 0
  }

  /** The bytes of byte rows, in order. */
  function Values(rows: seq<Row>): (v: seq<byte>)
    ensures |v| == |rows| && forall i :: 0 <= i < |rows| ==> v[i] == ByteOf(rows[i])
  {
    seq(|rows|, i requires 0 <= i < |rows| => ByteOf(rows[i]))
  }

  /** The one write a run stands for.  The bytes of a block go out last row first behind their
      number, on the page and set of the last row. */
  function RunWrite(rows: seq<Row>): (op: Op)
    requires IsRun(rows)
    ensures op.Send? && op.origin.FromRow?
  {
    var last := rows[|rows| - 1];
    match Classify(rows[0])
    case Word(cmd, data) => Send(cmd, data, FromRow(last.group, last.page, false))
    case Whole(cmd, data, indexed) => Send(cmd, data, FromRow(last.group, last.page, indexed))
    case Piece(cmd, want, _) => Send(cmd, BlockPayload(Values(rows)), FromRow(last.group, last.page, false))
  }

  function RunWrites(runs: seq<seq<Row>>): seq<Op>
    requires forall r :: r in runs ==> IsRun(r)
  {
    if runs == [] then [] else RunWrites(runs[..|runs| - 1]) + [RunWrite(runs[|runs| - 1])]
  }

  /** Rows grouped into runs: those complete, the one under way, and rows given up because a row
      of another block came before theirs was complete. */
  datatype Grouped = Grouped(runs: seq<seq<Row>>, open: seq<Row>, dropped: seq<Row>)

  const NO_ROWS := Grouped([], [], [])

  /** A byte row goes on with the block under way. */
  predicate Continues(p: Plan, row: Row) {
    p.block.Partial? && InBlock(row, p.block.cmd, p.block.want)
  }

  /** A row the update acts on. */
  predicate Acted(p: Plan, row: Row) {
    PlanRow(p, row).ok && !IsReference(row) && !Classify(row).Skip?
  }

  function GroupRow(p: Plan, g: Grouped, row: Row): Grouped {
    if !Acted(p, row) then g
    else if Classify(row).Piece? then
      var open := (if Continues(p, row) then g.open else []) + [row];
      var dropped := if Continues(p, row) then g.dropped else g.dropped + g.open;
      if |open| == Classify(row).want then Grouped(g.runs + [open], [], dropped) else Grouped(g.runs, open, dropped)
    else g.(runs := g.runs + [[row]])
  }

  /** Whether a row gives up the block under way. */
  predicate Restarts(p: Plan, row: Row) {
    Acted(p, row) && Classify(row).Piece? && p.block.Partial? && !Continues(p, row)
  }

  /** A walk over the rows of a text, in step with its plan: the runs, the rows acted on, and
      whether some block was given up. */
  datatype Walk = Walk(g: Grouped, rows: seq<Row>, restarted: bool)

  const AT_FIRST_ROW := Walk(NO_ROWS, [], false)

  function WalkRow(p: Plan, w: Walk, row: Row): Walk {
    Walk(GroupRow(p, w.g, row), if Acted(p, row) then w.rows + [row] else w.rows, w.restarted || Restarts(p, row))
  }

  function WalkLine(p: Plan, w: Walk, raw: string): Walk {
    var text := LineText(raw);
    if p.ended || text == "END" || Count(text, '\t') != 7 || RowOf(text).None? then w
    else WalkRow(p, w, RowOf(text).value)
  }

  function WalkText(p: Plan, w: Walk, text: string): Walk
    decreases |text|
  {
    var k := IndexOf(text, '\n');
    if k >= LINE_BUF_LEN || k == |text| then w
    else
      var l := PlanLine(p, text[..k]);
      if !l.ok then WalkLine(p, w, text[..k]) else WalkText(l.p, WalkLine(p, w, text[..k]), text[k + 1..])
  }

  function RowsOf(image: string): Walk { WalkText(START, AT_FIRST_ROW, image) }

  function Flat(runs: seq<seq<Row>>): seq<Row> {
    if runs == [] then [] else Flat(runs[..|runs| - 1]) + runs[|runs| - 1]
  }

  // -------------------------------------------------------------- invariant

  ghost predicate Sent(g: Grouped, sends: seq<Op>) {
    (forall r :: r in g.runs ==> IsRun(r)) && RunWrites(g.runs) == sends
  }

  ghost predicate Opened(g: Grouped, block: BlockRun) {
    match block
    case NoBlock => g.open == []
    case Partial(cmd, want, got) =>
      g.open != [] && (forall i :: 0 <= i < |g.open| ==> InBlock(g.open[i], cmd, want)) && Values(g.open) == got
  }

  ghost predicate Balanced(w: Walk) {
    multiset(w.rows) == multiset(Flat(w.g.runs)) + multiset(w.g.open) + multiset(w.g.dropped) &&
    (w.restarted <==> w.g.dropped != [])
  }

  /** The runs are what the plan has sent, the open rows are its open block, and no row is
      counted twice or missing. */
  ghost predicate InKeeping(p: Plan, w: Walk) { Sent(w.g, p.sends) && Opened(w.g, p.block) && Balanced(w) }

  lemma OneMoreRun(runs: seq<seq<Row>>, run: seq<Row>)
    requires (forall r :: r in runs ==> IsRun(r)) && IsRun(run)
    ensures forall r :: r in runs + [run] ==> IsRun(r)
    ensures RunWrites(runs + [run]) == RunWrites(runs) + [RunWrite(run)]
  {
    hide IsRun, RunWrite;
    assert (runs + [run])[..|runs|] == runs;
  }

  /** What a byte row does to a plan. */
  lemma ByteRowPlans(p: Plan, row: Row)
    requires Acted(p, row) && Classify(row).Piece?
    ensures IsByteRow(row)
    ensures var cmd, want := Classify(row).cmd, Classify(row).want;
            var got := StartBlock(p.block, cmd, want).got + [ByteOf(row)];
            |got| <= want && (Continues(p, row) <==> StartBlock(p.block, cmd, want) == p.block) &&
            (!Continues(p, row) ==> got == [ByteOf(row)]) && (Continues(p, row) ==> p.block == Partial(cmd, want, got[..|got| - 1])) &&
            PlanRow(p, row).p == if |got| < want then p.(group := row.group, block := Partial(cmd, want, got))
                                 else p.(group := row.group, block := NoBlock,
                                         sends := p.sends + [Send(cmd, BlockPayload(got), FromRow(row.group, row.page, false))])
  {
    hide IsReference, BlockPayload;
  }

  lemma ByteRowWalks(p: Plan, w: Walk, row: Row)
    requires Acted(p, row) && Classify(row).Piece?
    ensures var open := (if Continues(p, row) then w.g.open else []) + [row];
            var dropped := if Continues(p, row) then w.g.dropped else w.g.dropped + w.g.open;
            WalkRow(p, w, row) ==
              Walk(if |open| == Classify(row).want then Grouped(w.g.runs + [open], [], dropped) else Grouped(w.g.runs, open, dropped),
                   w.rows + [row], w.restarted || (p.block.Partial? && !Continues(p, row)))
  {
    hide Classify, PlanRow, InBlock, IsReference;
  }

  lemma {:induction false} ByteRowKeeps(p: Plan, w: Walk, row: Row)
    requires InKeeping(p, w) && Acted(p, row) && Classify(row).Piece?
    ensures InKeeping(PlanRow(p, row).p, WalkRow(p, w, row))
  {
    hide IsReference, BlockPayload, RunWrites, Flat, PlanRow, Classify, StartBlock, WalkRow, IsRun, RunWrite, Sent, Balanced, Acted;
    ByteRowPlans(p, row);
    ByteRowWalks(p, w, row);
    var cmd, want := Classify(row).cmd, Classify(row).want;
    var open := (if Continues(p, row) then w.g.open else []) + [row];
    OpenGrows(p, w.g, row, open);
    BalanceKeeps(p, w, row, open);
    if |open| == want {
      SentGrows(w.g, p.sends, open, cmd, want);
    } else {
      SentStays(w.g, p.sends, open);
    }
  }

  lemma OpenGrows(p: Plan, g: Grouped, row: Row, open: seq<Row>)
    requires Opened(g, p.block) && IsByteRow(row)
    requires open == (if Continues(p, row) then g.open else []) + [row]
    ensures var cmd, want := Classify(row).cmd, Classify(row).want;
            (forall i :: 0 <= i < |open| ==> InBlock(open[i], cmd, want)) && open[|open| - 1] == row &&
            Values(open) == (if Continues(p, row) then p.block.got else []) + [ByteOf(row)]
  {
    hide Classify;
  }

  lemma SentGrows(g: Grouped, sends: seq<Op>, open: seq<Row>, cmd: byte, want: nat)
    requires Sent(g, sends) && |open| == want > 0 && forall i :: 0 <= i < |open| ==> InBlock(open[i], cmd, want)
    ensures |Values(open)| < 256
    ensures var last := open[|open| - 1];
            forall dropped :: Sent(Grouped(g.runs + [open], [], dropped),
                                   sends + [Send(cmd, BlockPayload(Values(open)), FromRow(last.group, last.page, false))])
  {
    hide InBlock, BlockPayload, RunWrites, IsRun, RunWrite;
    RunOfBytes(open, cmd, want);
    OneMoreRun(g.runs, open);
  }

  lemma SentStays(g: Grouped, sends: seq<Op>, open: seq<Row>)
    requires Sent(g, sends)
    ensures forall dropped :: Sent(Grouped(g.runs, open, dropped), sends)
  {
  }

  lemma BalanceKeeps(p: Plan, w: Walk, row: Row, open: seq<Row>)
    requires Balanced(w) && Opened(w.g, p.block) && open == (if Continues(p, row) then w.g.open else []) + [row]
    ensures var dropped := if Continues(p, row) then w.g.dropped else w.g.dropped + w.g.open;
            var restarted := w.restarted || (p.block.Partial? && !Continues(p, row));
            Balanced(Walk(Grouped(w.g.runs, open, dropped), w.rows + [row], restarted)) &&
            Balanced(Walk(Grouped(w.g.runs + [open], [], dropped), w.rows + [row], restarted))
  {
    hide Flat, InBlock;
    var dropped := if Continues(p, row) then w.g.dropped else w.g.dropped + w.g.open;
    RowsBalance(w, row, open, dropped, Continues(p, row));
    FlatSnoc(w.g.runs, open);
    var none: seq<Row> := [];
    assert multiset(none) == multiset{};
  }

  lemma FlatSnoc(runs: seq<seq<Row>>, run: seq<Row>)
    ensures Flat(runs + [run]) == Flat(runs) + run
  {
    assert (runs + [run])[..|runs|] == runs;
  }

  lemma RunOfBytes(rows: seq<Row>, cmd: byte, want: nat)
    requires |rows| == want > 0 && forall i :: 0 <= i < |rows| ==> InBlock(rows[i], cmd, want)
    ensures IsRun(rows) && IsByteRow(rows[0]) && |Values(rows)| < 256
    ensures var last := rows[|rows| - 1];
            RunWrite(rows) == Send(cmd, BlockPayload(Values(rows)), FromRow(last.group, last.page, false))
  {
    hide Classify, BlockPayload;
    assert InBlock(rows[0], cmd, want);
    ShortBlock(rows[0]);
  }

  lemma ShortBlock(row: Row)
    ensures Classify(row).Piece? ==> 4 < Classify(row).want <= BLOCK_MAX_LEN
  {
  }

  lemma RowsBalance(w: Walk, row: Row, open: seq<Row>, dropped: seq<Row>, continues: bool)
    requires open == (if continues then w.g.open else []) + [row]
    requires dropped == if continues then w.g.dropped else w.g.dropped + w.g.open
    requires multiset(w.rows) == multiset(Flat(w.g.runs)) + multiset(w.g.open) + multiset(w.g.dropped)
    ensures multiset(w.rows + [row]) == multiset(Flat(w.g.runs)) + multiset(open) + multiset(dropped)
    ensures multiset(w.rows + [row]) == multiset(Flat(w.g.runs) + open) + multiset(dropped)
  {
    hide Flat;
  }

  /** What a word or short row does to a plan. */
  lemma WholeRowPlans(p: Plan, row: Row)
    requires Acted(p, row) && !Classify(row).Piece?
    ensures IsRun([row]) && PlanRow(p, row).p == p.(group := row.group, sends := p.sends + [RunWrite([row])])
  {
    hide IsReference, BlockPayload;
  }

  lemma {:induction false} WholeRowKeeps(p: Plan, w: Walk, row: Row)
    requires InKeeping(p, w) && Acted(p, row) && !Classify(row).Piece?
    ensures InKeeping(PlanRow(p, row).p, WalkRow(p, w, row))
  {
    hide IsReference, BlockPayload, RunWrites, Flat, IsRun, RunWrite, PlanRow, Classify, Acted;
    WholeRowPlans(p, row);
    OneMoreRun(w.g.runs, [row]);
    FlatSnoc(w.g.runs, [row]);
    assert multiset(w.rows + [row]) == multiset(w.rows) + multiset{row};
    assert multiset(Flat(w.g.runs) + [row]) == multiset(Flat(w.g.runs)) + multiset{row};
  }

  lemma {:induction false} RowKeeps(p: Plan, w: Walk, row: Row)
    requires InKeeping(p, w) && PlanRow(p, row).ok
    ensures InKeeping(PlanRow(p, row).p, WalkRow(p, w, row))
  {
    if Acted(p, row) {
      if Classify(row).Piece? {
        ByteRowKeeps(p, w, row);
      } else {
        WholeRowKeeps(p, w, row);
      }
    } else {
      hide Classify, IsReference;
    }
  }

  lemma {:induction false} TextKeeps(p: Plan, w: Walk, text: string)
    requires InKeeping(p, w) && PlanText(p, text).ok
    ensures InKeeping(PlanText(p, text).p, WalkText(p, w, text))
    decreases |text|
  {
    hide PlanRow, WalkRow, IsRun, RunWrites, Flat, InBlock, CStr, Count, RowOf;
    var k := IndexOf(text, '\n');
    if k < LINE_BUF_LEN && k < |text| {
      var line := LineText(text[..k]);
      var l := PlanLine(p, text[..k]);
      if !p.ended && line != "END" && Count(line, '\t') == 7 && RowOf(line).Some? {
        RowKeeps(p, w, RowOf(line).value);
      }
      TextKeeps(l.p, WalkLine(p, w, text[..k]), text[k + 1..]);
    }
  }

  lemma NothingYet()
    ensures InKeeping(START, AT_FIRST_ROW)
  {
  }

  // ------------------------------------------------------------- theorems

  /** The writes of an image are the writes of its runs of rows, in the order the runs are
      completed: exactly one for each word or short row and for each n rows of an n-byte block,
      the latter [n] and the rows' bytes in reverse. */
  lemma {:induction false} ImageIsItsRuns(image: string)
    requires PlanText(START, image).ok
    ensures var runs := RowsOf(image).g.runs;
            (forall r :: r in runs ==> IsRun(r)) && ImageSends(image) == RunWrites(runs)
  {
    hide PlanText, WalkText, IsRun, RunWrites;
    NothingYet();
    TextKeeps(START, AT_FIRST_ROW, image);
  }

  /** Every row acted on is in some write, exactly: in an acceptable image the rows of its runs
      are the rows acted on if and only if no block was given up for another one. */
  lemma {:induction false} EveryRowIsWrittenExactly(image: string)
    requires Acceptable(image)
    ensures var w := RowsOf(image);
            multiset(w.rows) == multiset(Flat(w.g.runs)) + multiset(w.g.dropped) &&
            (multiset(Flat(w.g.runs)) == multiset(w.rows) <==> !w.restarted)
  {
    hide PlanText, WalkText, IsRun, RunWrites, Tail, Flat;
    NothingYet();
    TextKeeps(START, AT_FIRST_ROW, image);
    var w := RowsOf(image);
    assert multiset(w.g.open) == multiset{};
    if w.g.dropped != [] {
      assert w.g.dropped[0] in multiset(w.g.dropped);
      assert |multiset(w.rows)| == |multiset(Flat(w.g.runs))| + |multiset(w.g.dropped)|;
    } else {
      assert multiset(w.g.dropped) == multiset{};
    }
  }

  lemma {:induction false} LandedWrites(log: seq<Entry>)
    requires RowsAcked(log)
    ensures |WritePages(log)| == |RowSends(log)| && (RowsLand(log) <==> Landed(RowSends(log), WritePages(log)))
    decreases |log|
  {
    if log != [] {
      hide Landed;
      var n := |log| - 1;
      var rest, e := log[..n], log[n];
      LandedWrites(rest);
      assert RowsLand(log) <==> RowsLand(rest) && (IsRow(e) ==> e.page == e.op.origin.page) by {
        assert forall i :: 0 <= i < n ==> log[i] == rest[i];
      }
      if IsRow(e) {
        OneMoreWrite(RowSends(rest), WritePages(rest), e);
      } else {
        assert RowSends(rest) + [] == RowSends(rest) && WritePages(rest) + [] == WritePages(rest);
      }
    }
  }

  /** Each write was made on the page it names. */
  predicate Landed(sends: seq<Op>, pages: seq<byte>) {
    |pages| == |sends| &&
    forall k :: 0 <= k < |sends| ==> sends[k].Send? && sends[k].origin.FromRow? && pages[k] == sends[k].origin.page
  }

  lemma OneMoreWrite(sends: seq<Op>, pages: seq<byte>, e: Entry)
    requires IsRow(e) && |pages| == |sends|
    ensures Landed(sends + [e.op], pages + [e.page]) <==> Landed(sends, pages) && e.page == e.op.origin.page
  {
    if Landed(sends + [e.op], pages + [e.page]) {
      assert (sends + [e.op])[|sends|] == e.op && (pages + [e.page])[|sends|] == e.page;
      forall k | 0 <= k < |sends|
        ensures sends[k].Send? && sends[k].origin.FromRow? && pages[k] == sends[k].origin.page
      {
        assert (sends + [e.op])[k] == sends[k] && (pages + [e.page])[k] == pages[k];
      }
    }
  }

  lemma {:induction false} RunWriteAt(runs: seq<seq<Row>>, k: nat)
    requires (forall r :: r in runs ==> IsRun(r)) && k < |runs|
    ensures |RunWrites(runs)| == |runs| && RunWrites(runs)[k] == RunWrite(runs[k])
    decreases |runs|
  {
    hide IsRun, RunWrite;
    var n := |runs| - 1;
    if k < n {
      RunWriteAt(runs[..n], k);
      assert runs[..n][k] == runs[k];
    } else if n > 0 {
      RunWriteAt(runs[..n], 0);
    }
  }

  /** The rows of each run name one page. */
  predicate OnePageEach(runs: seq<seq<Row>>) {
    forall k, i, j :: 0 <= k < |runs| && 0 <= i < |runs[k]| && 0 <= j < |runs[k]| ==> runs[k][i].page == runs[k][j].page
  }

  /** Each row's bytes were written on the page the row names. */
  predicate OnTheirPages(runs: seq<seq<Row>>, pages: seq<byte>) {
    |pages| == |runs| && forall k, i :: 0 <= k < |runs| && 0 <= i < |runs[k]| ==> pages[k] == runs[k][i].page
  }

  /** Every single row reaches its page, exactly: in a successful update each row of each run is
      written on the page it names if and only if the writes land and the rows of each run name
      one page. */
  lemma {:induction false} EveryRowReachesItsPage(s: Stream, link: Link, chunks: seq<string>)
    requires s.bus.log == [] && chunks != [] && Session(s, link, chunks).ok
    ensures var log, runs := Session(s, link, chunks).s.bus.log, RowsOf(Concat(chunks)).g.runs;
            OnTheirPages(runs, WritePages(log)) <==> Lands(Concat(chunks)) && OnePageEach(runs)
  {
    hide Session, RowSends, PlanText, WalkText, RunWrites, IsRun, RowsLand, RowsAcked, Tail, WritePages, TrackText, RunWrite, Landed;
    var image := Concat(chunks);
    var log, runs := Session(s, link, chunks).s.bus.log, RowsOf(image).g.runs;
    UpdateWritesTheImage(s, link, chunks);
    ImageIsItsRuns(image);
    SessionAcked(s, link, chunks);
    RowsReachTheirPage(s, link, chunks);
    LandedWrites(log);
    var pages, sends := WritePages(log), RowSends(log);
    if runs == [] {
      NoRuns();
    } else {
      RunWriteAt(runs, 0);
    }
    forall k | 0 <= k < |runs|
      ensures runs[k] != [] && sends[k].Send? && sends[k].origin.FromRow? && sends[k].origin.page == runs[k][|runs[k]| - 1].page
    {
      RunWriteAt(runs, k);
      RunPage(runs[k]);
    }
    PagesAgree(runs, pages, sends);
  }

  lemma NoRuns()
    ensures RunWrites([]) == []
  {
  }

  lemma RunPage(run: seq<Row>)
    requires IsRun(run)
    ensures run != [] && RunWrite(run).origin.page == run[|run| - 1].page
  {
  }

  lemma PagesAgree(runs: seq<seq<Row>>, pages: seq<byte>, sends: seq<Op>)
    requires |pages| == |runs| == |sends|
    requires forall k :: 0 <= k < |runs| ==>
               runs[k] != [] && sends[k].Send? && sends[k].origin.FromRow? && sends[k].origin.page == runs[k][|runs[k]| - 1].page
    ensures OnTheirPages(runs, pages) <==> Landed(sends, pages) && OnePageEach(runs)
  {
    if OnTheirPages(runs, pages) {
      forall k | 0 <= k < |sends|
        ensures pages[k] == sends[k].origin.page
      {
        assert pages[k] == runs[k][|runs[k]| - 1].page;
      }
    }
  }

  lemma SessionAcked(s: Stream, link: Link, chunks: seq<string>)
    requires s.bus.log == [] && chunks != [] && Session(s, link, chunks).ok
    ensures RowsAcked(Session(s, link, chunks).s.bus.log)
  {
    hide Begin, RestoreProtection, RowsAcked, BeforeRestore, LogOk, Unstored;
    ChunkIndependence(s, link, chunks);
    OneCallRestores(s, link, Concat(chunks));
    BeforeRestoreTidy(s, link, Concat(chunks));
    RestoreTail(BeforeRestore(s, link, Concat(chunks)), link);
  }

  /** The plan of rows one after the other. */
  function PlanRows(p: Plan, rows: seq<Row>): Planned
    decreases |rows|
  {
    if rows == [] then Planned(p, true)
    else
      var q := PlanRow(p, rows[0]);
      if !q.ok then q else PlanRows(q.p, rows[1..])
  }

  /** A block is one write: n byte rows for an n-byte block, nothing between them, from a state
      without an open block, add just the write [n] and their bytes in reverse, on the last
      row's page. */
  lemma {:induction false} BlockIsOneWrite(p: Plan, rows: seq<Row>, group: Group)
    requires p.block.NoBlock? && IsRun(rows) && IsByteRow(rows[0])
    requires forall i :: 0 <= i < |rows| ==> rows[i].group == group && !IsReference(rows[i])
    ensures PlanRows(p, rows) == Planned(p.(group := group, sends := p.sends + [RunWrite(rows)]), true)
  {
    hide IsReference, BlockPayload, PlanRow;
    var cmd, want := Classify(rows[0]).cmd, Classify(rows[0]).want;
    assert InBlock(rows[0], cmd, want);
    ActedByte(p, rows[0]);
    ByteRowPlans(p, rows[0]);
    assert Values(rows[..1]) == [ByteOf(rows[0])];
    RestOfBlock(PlanRow(p, rows[0]).p, rows, 1, cmd, want, group);
  }

  lemma ActedByte(p: Plan, row: Row)
    requires IsByteRow(row) && !IsReference(row) && (p.block.NoBlock? || p.group == row.group)
    ensures Acted(p, row)
  {
    hide IsReference, BlockPayload;
  }

  lemma {:induction false} RestOfBlock(p: Plan, rows: seq<Row>, k: nat, cmd: byte, want: nat, group: Group)
    requires 0 < k < |rows| == want && 4 < want <= BLOCK_MAX_LEN
    requires forall i :: 0 <= i < |rows| ==> InBlock(rows[i], cmd, want) && rows[i].group == group && !IsReference(rows[i])
    requires p.group == group && p.block == Partial(cmd, want, Values(rows[..k]))
    ensures IsRun(rows) && PlanRows(p, rows[k..]) == Planned(p.(block := NoBlock, sends := p.sends + [RunWrite(rows)]), true)
    decreases |rows| - k
  {
    hide Classify, IsReference, BlockPayload, PlanRow;
    var rest := rows[k..];
    assert rest[0] == rows[k] && rest[1..] == rows[k + 1..];
    assert InBlock(rows[k], cmd, want);
    ActedByte(p, rows[k]);
    ByteRowPlans(p, rows[k]);
    assert Values(rows[..k]) + [ByteOf(rows[k])] == Values(rows[..k + 1]);
    if k + 1 < want {
      RestOfBlock(PlanRow(p, rows[k]).p, rows, k + 1, cmd, want, group);
    } else {
      assert rows[..k + 1] == rows && rows[k + 1..] == [];
      RunOfBytes(rows, cmd, want);
    }
  }

  /** A row of another block gives up the rows of the block under way: the plan goes on as if
      they had not been there. */
  lemma RestartForgets(p: Plan, row: Row)
    requires Restarts(p, row)
    ensures PlanRow(p, row) == PlanRow(p.(block := NoBlock), row)
  {
    hide IsReference, BlockPayload;
  }
}
