// Two images that leave the device otherwise than their author would expect.
module StreamExamples {
  import opened CText
  import opened VrBus
  import opened StreamSpec
  import opened StreamChunks
  import opened StreamPlan
  import opened StreamPages
  import opened StreamRuns
  import opened StreamWire
  import opened StreamRefinesBatch

  // ------------------------------------------------------- write protection

  /** A row that writes 0x80 to WRITE_PROTECT on page 0. */
  const PROTECT_COLUMNS: seq<string> := ["1", "0", "10", "0", "WRITE_PROTECT", "80", "0", "1"]

  function ProtectLine(): string { Join(PROTECT_COLUMNS, '\t') }

  const PROTECT: Op := Send(CMD_WRITE_PROTECT, [0x80], FromRow(0, PAGE_RAIL1, false))

  lemma ProtectNumbers()
    ensures Strtol("10", 16) == 0x10 && Strtol("80", 16) == 0x80 && Strtol("0", 16) == 0
  {
    assert Digits("10", 16, 0) == Digits("0", 16, 1) == Digits("", 16, 16) == 16;
    assert Digits("80", 16, 0) == Digits("0", 16, 8) == Digits("", 16, 128) == 128;
    assert Digits("0", 16, 0) == Digits("", 16, 0) == 0;
    assert "10"[1..] == "0" && "80"[1..] == "0" && "0"[1..] == "";
  }

  predicate CleanColumn(col: string) {
    0 < |col| <= 14 && '\t' !in col && '\r' !in col && '\n' !in col && '\0' !in col
  }

  lemma ProtectColumnsAreClean()
    ensures forall i :: 0 <= i < |PROTECT_COLUMNS| ==> CleanColumn(PROTECT_COLUMNS[i])
  {
    assert CleanColumn("0") && CleanColumn("1") && CleanColumn("10") && CleanColumn("80");
    assert CleanColumn("WRITE_PROTECT");
  }

  lemma ProtectLineIs()
    ensures PlainLine(ProtectLine()) && Count(ProtectLine(), '\t') == 7 && Split(ProtectLine(), '\t') == PROTECT_COLUMNS
  {
    ProtectColumnsAreClean();
    hide Join, Split, Count;
    JoinSplit(PROTECT_COLUMNS, '\t');
    JoinPlain(PROTECT_COLUMNS);
  }

  /** Few short columns without line end make a plain line. */
  lemma {:induction false} JoinPlain(cols: seq<string>)
    requires cols != [] && forall i :: 0 <= i < |cols| ==> CleanColumn(cols[i])
    ensures var line := Join(cols, '\t');
            |line| < 15 * |cols| && '\r' !in line && '\n' !in line && '\0' !in line
    decreases |cols|
  {
    if |cols| > 1 {
      JoinPlain(cols[1..]);
    }
  }

  lemma ProtectWrites()
    ensures CommonImage([ProtectLine()]) && ImageWrites([ProtectLine()]) == [PROTECT]
  {
    ProtectLineIs();
    ProtectNumbers();
    hide Split, Join, Count, Strtol;
    var line := ProtectLine();
    assert "WRITE_PROTECT"[..3][0] == 'W' && "WRITE_PROTECT"[..4][0] == 'W' && "CRC"[0] == 'C' && "TRIM"[0] == 'T';
    assert CommonRow(line);
    assert LittleEndian(0x80, 1) == [0x80];
    assert RowWrite(line) == [PROTECT];
    CountNone("END", '\t');
    assert [line][1..] == [];
    assert CommonImage([]) && ImageWrites([]) == [];
    assert [PROTECT] + [] == [PROTECT];
  }

  /** An image whose only row writes WRITE_PROTECT leaves a part protected that was not, in an
      update that reports success. */
  lemma {:induction false} ProtectRowStays(s: Stream, link: Link, chunks: seq<string>)
    requires s.bus.log == [] && chunks != [] && Concat(chunks) == Render([ProtectLine()])
    requires Healthy(link) && s.bus.vr.wp == 0
    ensures var r := Session(s, link, chunks); r.ok && r.s.bus.vr.wp == 0x80
  {
    hide Session, Begin, Render, CommonImage, ImageWrites, ProtectLine, AfterVisits, TextVisits, Healthy;
    var lines := [ProtectLine()];
    ProtectWrites();
    StreamSide(lines, s, link, chunks);
    assert s.bus == Bus(s.bus.vr, []);
    HealthyBegins(s.bus.vr, link);
    HealthyAcksAll(link);
    ProtectionRestoredExactly(s, link, chunks);
    ImageIsItsWrites(lines, START);
    ProtectVisits(OpVisits([PROTECT]));
  }

  lemma HealthyAcksAll(link: Link)
    requires Healthy(link)
    ensures forall n :: link(n).acked && !link(n).locked
  {
  }

  lemma ProtectVisits(vs: seq<Visit>)
    requires vs == OpVisits([PROTECT])
    ensures AfterVisits(AT_START, vs).wp == 0x80 && AfterVisits(AT_START, vs + [Moved(PAGE_RAIL1)]).wp == 0x80
  {
    var v := Visit(PAGE_RAIL1, Some(PROTECT));
    assert [PROTECT][1..] == [] && OpVisits([]) == [] && vs == [v] + [] == [v];
    OneVisit(AT_START, v);
    VisitsSplit(AT_START, vs, [Moved(PAGE_RAIL1)]);
    OneVisit(AfterVisits(AT_START, vs), Moved(PAGE_RAIL1));
  }

  // ------------------------------------------------------------ mixed pages

  function ByteRow(page: byte, value: string): Row { Row(0, page, 0x30, "LOOP_COEFFICIENTS", value, "B5") }

  /** Four byte rows for page 1 and a fifth for page 2. */
  const MIXED: seq<Row> := [ByteRow(1, "11"), ByteRow(1, "12"), ByteRow(1, "13"), ByteRow(1, "14"), ByteRow(2, "15")]

  lemma ByteRowIs(page: byte, value: string)
    requires |value| == 2
    ensures IsBlockRow(ByteRow(page, value), 0x30, 5, 0)
  {
    assert Digits("5", 10, 0) == Digits("", 10, 5) == 5;
    assert "B5"[1..] == "5" && "5"[1..] == "";
    assert "B5"[..1] == "B" && |"BP1"| == 3;
    assert "LOOP_COEFFICIENTS"[..3][0] == 'L' && "LOOP_COEFFICIENTS"[..4][0] == 'L' && "CRC"[0] == 'C' && "TRIM"[0] == 'T';
  }

  /** Mixed rows go out as one write, all on page 2, their bytes last row first. */
  lemma MixedBlockOnLastPage()
    ensures PlanRows(START, MIXED) ==
            Planned(START.(sends := [Send(0x30, [5, 0x15, 0x14, 0x13, 0x12, 0x11], FromRow(0, 2, false))]), true)
  {
    hide Strtol, PlanRows, IsReference;
    forall i | 0 <= i < |MIXED|
      ensures IsBlockRow(MIXED[i], 0x30, 5, 0)
    {
      ByteRowIs(MIXED[i].page, MIXED[i].value);
      assert MIXED[i] == ByteRow(MIXED[i].page, MIXED[i].value);
    }
    LongBlockOnWire(START, MIXED, 0x30, 0);
    var data: seq<byte> :| RowsReversed(data, MIXED) && Adds(START, PlanRows(START, MIXED), Send(0x30, data, FromRow(0, MIXED[4].page, false)), 0);
    assert MIXED[0].value == "11" && MIXED[1].value == "12" && MIXED[2].value == "13" && MIXED[3].value == "14" && MIXED[4].value == "15";
    PairOf('1', '1');
    PairOf('1', '2');
    PairOf('1', '3');
    PairOf('1', '4');
    PairOf('1', '5');
    assert data == [5, 0x15, 0x14, 0x13, 0x12, 0x11];
    assert START.sends + [Send(0x30, data, FromRow(0, 2, false))] == [Send(0x30, data, FromRow(0, 2, false))];
  }

  const SHORT: Row := Row(0, 1, 0x30, "LOOP", "1234", "B2")

  lemma ShortIs()
    ensures Goes(START, SHORT) && IsBlockTag(SHORT.tag, 2)
  {
    assert Strtol("2", 10) == 2 by {
      assert Digits("2", 10, 0) == Digits("", 10, 2) && "2"[1..] == "";
    }
    assert "B2"[1..] == "2" && "B2"[..1] == "B" && |"BP1"| == 3;
    assert "LOOP"[..3][0] == 'L' && "LOOP"[..4][0] == 'L' && "CRC"[0] == 'C' && "TRIM"[0] == 'T';
  }

  lemma ShortPairs()
    ensures PairAt("1234", 0) == 0x12 && PairAt("1234", 1) == 0x34
  {
    assert "1234"[0..2] == ['1', '2'] && "1234"[2..4] == ['3', '4'];
    PairOf('1', '2');
    PairOf('3', '4');
  }

  /** A short block goes out reversed too. */
  lemma ShortBlockReversed()
    ensures PlanRow(START, SHORT) ==
            Planned(START.(sends := [Send(0x30, [2, 0x34, 0x12], FromRow(0, 1, false))]), true)
  {
    ShortIs();
    ShortPairs();
    hide PlanRow, Goes, IsBlockTag, PairAt;
    ShortBlockOnWire(START, SHORT, 2);
    var data: seq<byte> :| PairsReversed(data, "1234", 2) && Adds(START, PlanRow(START, SHORT), Send(0x30, data, FromRow(0, 1, false)), 0);
    assert data == [2, 0x34, 0x12];
    assert START.sends + [Send(0x30, data, FromRow(0, 1, false))] == [Send(0x30, data, FromRow(0, 1, false))];
  }
}
