// On images of plain byte and word rows the streaming update and the whole-image update
// ask for the same configuration writes.
module StreamRefinesBatch {
  import opened CText
  import opened VrBus
  import opened StreamSpec
  import opened StreamChunks
  import opened StreamSafety
  import opened StreamPlan
  import opened StreamPages
  import opened BatchSpec
  import opened BatchTheorems

  /** Fits both line buffers and contains no line end and no NUL. */
  predicate PlainLine(line: string) {
    |line| <= 126 && '\r' !in line && '\n' !in line && '\0' !in line
  }

  /** An eight-column line both paths read alike: no empty column and a page column that is
      well formed; then a reference row, or a shared register on a page below 16 with a byte
      or word tag and a value short enough for the streaming row buffer. */
  predicate CommonRow(line: string) {
    var cols := Split(line, '\t');
    |cols| == 8 && "" !in cols && GroupPageOk(cols[1]) &&
    (IsReferenceName(cols[4]) ||
     (|cols[1]| <= 2 && PageOf(cols[1]) < 16 && IsWordTag(cols[7]) && |cols[5]| <= 15))
  }

  /** Every line is plain, and up to END every eight-column line is a common row. */
  predicate CommonImage(lines: seq<string>) {
    lines == [] ||
    (PlainLine(lines[0]) &&
     if lines[0] == "END" then forall l :: l in lines ==> PlainLine(l)
     else (Count(lines[0], '\t') == 7 ==> CommonRow(lines[0])) && CommonImage(lines[1..]))
  }

  /** The write a common row stands for. */
  function RowWrite(line: string): seq<Op>
    requires CommonRow(line)
  {
    var cols := Split(line, '\t');
    if IsReferenceName(cols[4]) then []
    else [Send(ToU8(Strtol(cols[2], 16)),
               LittleEndian(ToU16(Strtol(cols[5], 16)), if cols[7] == "1" then 1 else 2),
               FromRow(0, PageOf(cols[1]), false))]
  }

  function ImageWrites(lines: seq<string>): seq<Op>
    requires CommonImage(lines)
  {
    if lines == [] || lines[0] == "END" then []
    else (if Count(lines[0], '\t') == 7 then RowWrite(lines[0]) else []) + ImageWrites(lines[1..])
  }

  // ------------------------------------------------------- streaming reading

  lemma StartsWithTake(s: string, p: string, n: nat)
    requires |p| <= n
    ensures StartsWith(Take(s, n), p) <==> StartsWith(s, p)
  {
    if |s| > n {
      assert s[..n][..|p|] == s[..|p|];
    }
  }

  lemma StreamReadsRow(line: string, p: Plan)
    requires CommonRow(line) && p.group == 0 && p.block.NoBlock?
    ensures RowOf(line).Some?
    ensures PlanRow(p, RowOf(line).value) == Planned(p.(sends := p.sends + RowWrite(line)), true)
  {
    hide Split, GroupOf, PageOf, Strtol, Classify, RowWrite, IsReference, PlanRow, RowOf, Take, ToU8, ToU16, LittleEndian, StartsWith;
    var cols := Split(line, '\t');
    CommonRowIs(line);
    var row := RowOf(line).value;
    StartsWithTake(cols[4], "CRC", 39);
    StartsWithTake(cols[4], "TRIM", 39);
    ReferenceIs(row);
    if IsReferenceName(cols[4]) {
      PlanReference(p, row);
      assert p.sends + [] == p.sends;
    } else {
      ShortTag(cols[7]);
      PlanWord(p, row);
    }
  }

  lemma CommonRowIs(line: string)
    requires CommonRow(line)
    ensures var cols := Split(line, '\t');
            |cols| == 8 && ToU16(Strtol(cols[2], 16)) % 256 == ToU8(Strtol(cols[2], 16)) &&
            RowOf(line) == Some(Row(GroupOf(cols[1]), PageOf(cols[1]), ToU16(Strtol(cols[2], 16)), Take(cols[4], 39), Take(cols[5], 15), Take(cols[7], 7))) &&
            if IsReferenceName(cols[4]) then RowWrite(line) == []
            else GroupOf(cols[1]) == 0 && IsWordTag(cols[7]) && Take(cols[5], 15) == cols[5] &&
                 RowWrite(line) == [Send(ToU8(Strtol(cols[2], 16)),
                                         LittleEndian(ToU16(Strtol(cols[5], 16)), if cols[7] == "1" then 1 else 2),
                                         FromRow(0, PageOf(cols[1]), false))]
  {
    hide Split, PageOf, Strtol, LittleEndian;
  }

  lemma ReferenceIs(row: Row)
    ensures IsReference(row) <==> StartsWith(row.name, "CRC") || StartsWith(row.name, "TRIM")
  {
  }

  lemma ShortTag(tag: string)
    requires IsWordTag(tag)
    ensures Take(tag, 7) == tag
  {
  }

  lemma PlanReference(p: Plan, row: Row)
    requires IsReference(row)
    ensures PlanRow(p, row) == Planned(p, true)
  {
    hide IsReference, Classify;
  }

  /** The plan of a byte or word row of a shared register. */
  lemma PlanWord(p: Plan, row: Row)
    requires !IsReference(row) && row.group == 0 == p.group && p.block.NoBlock? && IsWordTag(row.tag)
    ensures PlanRow(p, row) ==
            Planned(p.(sends := p.sends + [Send(row.addr % 256, LittleEndian(ToU16(Strtol(row.value, 16)), if row.tag == "1" then 1 else 2),
                                                FromRow(0, row.page, false))]), true)
  {
    hide IsReference, Strtol, LittleEndian;
    assert Classify(row) == Word(row.addr % 256, LittleEndian(ToU16(Strtol(row.value, 16)), if row.tag == "1" then 1 else 2));
  }

  lemma CleanText(line: string)
    requires PlainLine(line)
    ensures LineText(line + "\r") == line
  {
    assert StripCr(line + "\r") == line;
    CStrOfClean(line);
  }

  lemma RenderStep(lines: seq<string>)
    requires lines != [] && PlainLine(lines[0])
    ensures var text := Render(lines);
            var k := IndexOf(text, '\n');
            k == |lines[0]| + 1 && k < |text| && text[..k] == lines[0] + "\r" && text[k + 1..] == Render(lines[1..])
  {
    hide IndexOf;
    var text, rest := Render(lines), Render(lines[1..]);
    hide Render;
    var k := |lines[0]| + 1;
    var head := lines[0] + "\r";
    assert text == head + "\n" + rest;
    assert forall i :: 0 <= i < k ==> text[i] == head[i];
    IndexOfUnique(text, '\n', k);
    assert text[..k] == head && text[k + 1..] == rest;
  }

  /** The plan of an image is the plan of its first line, then of the rest. */
  lemma PlanStep(lines: seq<string>, p: Plan)
    requires lines != [] && PlainLine(lines[0])
    ensures var l := PlanLine(p, lines[0] + "\r");
            PlanText(p, Render(lines)) == if l.ok then PlanText(l.p, Render(lines[1..])) else l
    ensures LineText(lines[0] + "\r") == lines[0]
  {
    hide PlanLine, IndexOf, Render, CStr;
    RenderStep(lines);
    CleanText(lines[0]);
  }

  lemma {:induction false} StreamReadsImage(lines: seq<string>, p: Plan)
    requires CommonImage(lines) && p.group == 0 && p.block.NoBlock? && !p.ended
    ensures var q := PlanText(p, Render(lines));
            q.ok && q.p.block.NoBlock? && q.p.sends == p.sends + ImageWrites(lines)
    decreases |lines|
  {
    hide PlanRow, Count, RowOf, CommonRow, RowWrite, PlanText, LineText, Render;
    if lines == [] {
      PlanNothing(p);
    } else {
      PlanStep(lines, p);
      if lines[0] == "END" {
        StreamSkipsTail(lines[1..], p.(ended := true));
        assert p.sends + [] == p.sends;
      } else {
        WritesStep(lines);
        var rest := ImageWrites(lines[1..]);
        hide ImageWrites;
        if Count(lines[0], '\t') == 7 {
          StreamReadsRow(lines[0], p);
          StreamReadsImage(lines[1..], PlanRow(p, RowOf(lines[0]).value).p);
          assert p.sends + RowWrite(lines[0]) + rest == p.sends + (RowWrite(lines[0]) + rest);
        } else {
          StreamReadsImage(lines[1..], p);
          assert [] + rest == rest;
        }
      }
    }
  }

  lemma PlanNothing(p: Plan)
    ensures PlanText(p, Render([])) == Planned(p, true)
    ensures p.sends + [] == p.sends
  {
  }

  lemma WritesStep(lines: seq<string>)
    requires CommonImage(lines) && lines != [] && lines[0] != "END"
    ensures CommonImage(lines[1..])
    ensures ImageWrites(lines) == (if Count(lines[0], '\t') == 7 then RowWrite(lines[0]) else []) + ImageWrites(lines[1..])
    ensures Count(lines[0], '\t') == 7 ==> CommonRow(lines[0]) && |RowWrite(lines[0])| <= 1
  {
    hide Count, CommonRow;
  }

  lemma {:induction false} StreamSkipsTail(lines: seq<string>, p: Plan)
    requires p.ended && forall l :: l in lines ==> PlainLine(l)
    ensures PlanText(p, Render(lines)) == Planned(p, true)
    decreases |lines|
  {
    hide LineText, Count, RowOf, PlanText, Render;
    if lines == [] {
      PlanNothing(p);
    } else {
      PlanStep(lines, p);
      StreamSkipsTail(lines[1..], p);
    }
  }

  lemma {:induction false} NoTail(lines: seq<string>)
    requires forall l :: l in lines ==> PlainLine(l)
    ensures Tail(Render(lines)) == ""
    decreases |lines|
  {
    if lines != [] {
      RenderStep(lines);
      NoTail(lines[1..]);
    }
  }

  lemma {:induction false} CommonLinesArePlain(lines: seq<string>)
    requires CommonImage(lines)
    ensures forall l :: l in lines ==> PlainLine(l)
    decreases |lines|
  {
    hide CommonRow, Count;
    if lines != [] && lines[0] != "END" {
      CommonLinesArePlain(lines[1..]);
    }
  }

  // ----------------------------------------------------- whole-image reading

  lemma TagLengths()
    ensures ToU8(Strtol("1", 10)) == 1 && ToU8(Strtol("2", 10)) == 2
  {
    assert Digits("1", 10, 0) == Digits("", 10, 1) == 1;
    assert Digits("2", 10, 0) == Digits("", 10, 2) == 2;
  }

  /** A two-digit page column means the same page to both paths exactly below page 16. */
  lemma {:induction false} PagesAgreeExactly(col: string, toks: seq<string>, slot: Cfg)
    requires 1 <= |col| <= 2 && |toks| == 8 && toks[1] == col
    ensures FillSlot(toks, slot).page == PageOf(col) <==> PageOf(col) < 16
  {
    hide Strtol;
    PageTaken(toks, slot);
    ModMod(Strtol(col, 16));
    Below(Strtol(col, 16) % 256);
    hide FillSlot;
  }

  lemma PageTaken(toks: seq<string>, slot: Cfg)
    requires |toks| == 8
    ensures FillSlot(toks, slot).page == Strtol(toks[1], 16) % 16
  {
    hide Strtol;
  }

  lemma Below(b: byte)
    ensures b % 16 == b <==> b < 16
  {
  }

  lemma ModMod(v: int)
    ensures v % 256 % 16 == v % 16
  {
    var q, r := v / 256, v % 256;
    var a, b := r / 16, r % 16;
    var c, d := v / 16, v % 16;
    assert 16 * (c - 16 * q - a) == b - d;
    assert c - 16 * q - a == 0;
  }

  lemma BatchReadsRow(line: string, slot: Cfg)
    requires CommonRow(line)
    ensures var toks := Tokens(line, '\t');
            (Skipped(toks) <==> RowWrite(line) == []) &&
            (!Skipped(toks) ==> FillSlot(toks, slot).len <= 2 && RowWrite(line) == [CfgSend(FillSlot(toks, slot))])
  {
    hide Strtol, Split, LittleEndian, Tokens, NonEmpty;
    var cols := Split(line, '\t');
    TokensAreColumns(line, '\t');
    NonEmptyAll(cols);
    var toks := Tokens(line, '\t');
    assert toks == cols;
    if !Skipped(toks) {
      TagLengths();
      PagesAgreeExactly(cols[1], toks, slot);
    }
  }

  /** What the whole-image parser does at the start of a rendered line. */
  lemma LineAt(img: string, i: nat, lines: seq<string>)
    requires i <= |img| && lines != [] && PlainLine(lines[0]) && img[i..] == Render(lines)
    ensures LineLen(img, i) == |lines[0]| && i + |lines[0]| + 2 <= |img|
    ensures img[i..i + |lines[0]|] == lines[0] && CStr(lines[0]) == lines[0]
    ensures img[i + |lines[0]| + 2..] == Render(lines[1..])
  {
    hide CStr, LineLen;
    var l, n := lines[0], LineLen(img, i);
    assert img[i..] == l + "\r\n" + Render(lines[1..]);
    assert img[i..][|l|] == '\r';
    assert forall k :: 0 <= k < |l| ==> img[i + k] == img[i..][k] == l[k];
    assert img[i + |l|] == '\r';
    assert img[i..i + |l|] == img[i..][..|l|] == l;
    assert img[i + |l| + 2..] == img[i..][|l| + 2..] == Render(lines[1..]);
    CStrOfClean(l);
    assert forall k :: 0 <= k < |l| ==> l[k] in l;
    assert n >= |l|;
  }

  /** The whole-image parser, started at a line with some entries in use, adds the writes of
      the lines that follow. */
  ghost predicate Reads(img: string, i: nat, slots: seq<Cfg>, cnt: nat, writes: seq<Op>)
    requires cnt < |slots|
  {
    var r := ParseFrom(img, i, slots, cnt);
    r.ok && r.cnt == cnt + |writes| && r.slots[..cnt] == slots[..cnt] &&
    ListSends(r.slots[cnt..r.cnt]) == writes && Writeable(r.slots[cnt..r.cnt])
  }

  /** A row line in front: if it is a reference row the slot is reused, else it is kept. */
  lemma {:induction false} ReadsRow(img: string, i: nat, line: string, slots: seq<Cfg>, cnt: nat, writes: seq<Op>)
    requires i < |img| && LineLen(img, i) == |line| && i + |line| <= |img| && img[i..i + |line|] == line && CStr(line) == line
    requires 0 < |line| <= 126 && line != "END" && Count(line, '\t') == 7 && CommonRow(line)
    requires cnt + |RowWrite(line) + writes| < |slots|
    requires var toks := Tokens(line, '\t');
             var slots' := slots[cnt := FillSlot(toks, slots[cnt])];
             var used := if Skipped(toks) then cnt else cnt + 1;
             used < |slots| && Reads(img, i + |line| + 2, slots', used, writes)
    ensures Reads(img, i, slots, cnt, RowWrite(line) + writes)
  {
    hide ParseFrom, Tokens, Count, CStr, FillSlot, CommonRow, RowWrite, LineLen, CfgSend, Skipped, ListSends, Writeable, Reads;
    ParseStep(img, i, slots, cnt);
    BatchReadsRow(line, slots[cnt]);
    var toks := Tokens(line, '\t');
    var c := FillSlot(toks, slots[cnt]);
    if Skipped(toks) {
      assert RowWrite(line) + writes == writes;
      ReadsReused(img, i, slots, cnt, writes, i + |line| + 2, c);
    } else {
      ReadsKept(img, i, slots, cnt, writes, i + |line| + 2, c);
    }
  }

  lemma ReadsReused(img: string, i: nat, slots: seq<Cfg>, cnt: nat, writes: seq<Op>, j: nat, c: Cfg)
    requires cnt < |slots| && Reads(img, j, slots[cnt := c], cnt, writes)
    requires ParseFrom(img, i, slots, cnt) == ParseFrom(img, j, slots[cnt := c], cnt)
    ensures Reads(img, i, slots, cnt, writes)
  {
    hide ParseFrom, ListSends, Writeable;
    assert slots[cnt := c][..cnt] == slots[..cnt];
  }

  lemma ReadsKept(img: string, i: nat, slots: seq<Cfg>, cnt: nat, writes: seq<Op>, j: nat, c: Cfg)
    requires cnt + 1 < |slots| && c.len <= 2 && Reads(img, j, slots[cnt := c], cnt + 1, writes)
    requires ParseFrom(img, i, slots, cnt) == ParseFrom(img, j, slots[cnt := c], cnt + 1)
    ensures Reads(img, i, slots, cnt, [CfgSend(c)] + writes)
  {
    hide ParseFrom, ListSends, CfgSend, Writeable;
    var r := ParseFrom(img, j, slots[cnt := c], cnt + 1);
    OneMore(r.slots, slots[cnt := c], cnt, r.cnt, c);
    assert slots[cnt := c][..cnt] == slots[..cnt];
  }

  lemma ReadsOther(img: string, i: nat, line: string, slots: seq<Cfg>, cnt: nat, writes: seq<Op>)
    requires i < |img| && LineLen(img, i) == |line| && i + |line| <= |img| && img[i..i + |line|] == line && CStr(line) == line
    requires |line| <= 126 && line != "END" && Count(line, '\t') != 7
    requires cnt < |slots| && Reads(img, i + |line| + 2, slots, cnt, writes)
    ensures Reads(img, i, slots, cnt, writes)
  {
    hide ParseFrom, Tokens, Count, CStr, FillSlot, LineLen, CfgSend, Skipped, ListSends;
    ParseStep(img, i, slots, cnt);
  }

  lemma ReadsEnd(img: string, i: nat, slots: seq<Cfg>, cnt: nat)
    requires cnt < |slots| && i <= |img|
    requires i == |img| || (LineLen(img, i) == 3 && img[i..i + 3] == "END" && CStr("END") == "END")
    ensures Reads(img, i, slots, cnt, [])
  {
    hide ParseFrom, Tokens, Count, CStr, FillSlot, LineLen;
    ParseStep(img, i, slots, cnt);
    assert slots[cnt..cnt] == [];
  }

  lemma {:induction false} BatchReadsImage(img: string, i: nat, lines: seq<string>, slots: seq<Cfg>, cnt: nat)
    requires i <= |img| && img[i..] == Render(lines) && CommonImage(lines)
    requires cnt + |ImageWrites(lines)| < |slots|
    ensures Reads(img, i, slots, cnt, ImageWrites(lines))
    decreases |lines|
  {
    hide Reads, Tokens, Count, CStr, FillSlot, CommonRow, RowWrite, LineLen, Skipped, Split;
    if lines == [] {
      ReadsEnd(img, i, slots, cnt);
    } else {
      var l := lines[0];
      LineAt(img, i, lines);
      if l == "END" {
        ReadsEnd(img, i, slots, cnt);
      } else {
        WritesStep(lines);
        var rest := ImageWrites(lines[1..]);
        if Count(l, '\t') == 7 {
          CountPositive(l);
          BatchReadsRow(l, slots[cnt]);
          var toks := Tokens(l, '\t');
          BatchReadsImage(img, i + |l| + 2, lines[1..], slots[cnt := FillSlot(toks, slots[cnt])],
                          if Skipped(toks) then cnt else cnt + 1);
          ReadsRow(img, i, l, slots, cnt, rest);
        } else {
          BatchReadsImage(img, i + |l| + 2, lines[1..], slots, cnt);
          assert [] + rest == rest;
          ReadsOther(img, i, l, slots, cnt, rest);
        }
      }
    }
  }

  /** More writes than the list has entries: the whole-image parser gives up. */
  lemma {:induction false} FullListGivesUp(img: string, i: nat, lines: seq<string>, slots: seq<Cfg>, cnt: nat)
    requires i <= |img| && img[i..] == Render(lines) && CommonImage(lines)
    requires cnt < |slots| <= cnt + |ImageWrites(lines)|
    ensures !ParseFrom(img, i, slots, cnt).ok
    decreases |lines|
  {
    hide ParseFrom, Tokens, Count, CStr, FillSlot, CommonRow, RowWrite, LineLen, Skipped, Split;
    if lines != [] {
      var l := lines[0];
      LineAt(img, i, lines);
      ParseStep(img, i, slots, cnt);
      if l != "END" {
        WritesStep(lines);
        if Count(l, '\t') == 7 {
          CountPositive(l);
          BatchReadsRow(l, slots[cnt]);
          var toks := Tokens(l, '\t');
          var used := if Skipped(toks) then cnt else cnt + 1;
          if used < |slots| {
            FullListGivesUp(img, i + |l| + 2, lines[1..], slots[cnt := FillSlot(toks, slots[cnt])], used);
          }
        } else {
          assert [] + ImageWrites(lines[1..]) == ImageWrites(lines[1..]);
          FullListGivesUp(img, i + |l| + 2, lines[1..], slots, cnt);
        }
      }
    }
  }

  /** So the whole-image update of a common image with 1024 writes or more fails without a single
      transaction, although the streaming one may succeed. */
  lemma TooManyRefused(lines: seq<string>, vr: Vr, link: Link, slots: seq<Cfg>)
    requires CommonImage(lines) && |ImageWrites(lines)| >= 1024 == |slots|
    ensures FwUpdate(Bus(vr, []), link, Render(lines), slots) == Done(Bus(vr, []), false, [])
  {
    hide ParseFrom, CommonImage, ImageWrites, Render, BatchUpdate;
    var img := Render(lines);
    assert img[0..] == img;
    FullListGivesUp(img, 0, lines, slots, 0);
    NothingToUpdate(Bus(vr, []), link);
  }

  /** The whole-image parser gives up at a line of 128 characters, and passes one of 127 that is
      neither END nor of eight columns. */
  lemma ParserLineLimit(img: string, i: nat, slots: seq<Cfg>, cnt: nat)
    requires i < |img| && cnt < |slots|
    ensures LineLen(img, i) >= 128 ==> !ParseFrom(img, i, slots, cnt).ok
    ensures LineLen(img, i) == 127 && Count(CStr(img[i..i + 127]), '\t') != 7 ==>
              ParseFrom(img, i, slots, cnt) == ParseFrom(img, i + 129, slots, cnt)
  {
    hide ParseFrom, LineLen, Count, CStr;
    ParseStep(img, i, slots, cnt);
  }

  /** A row of which a column is empty has fewer tokens than columns; what then has no token keeps
      what the slot held before: length, value, address. */
  lemma MissingTokensKeep(img: string, i: nat, slots: seq<Cfg>, cnt: nat)
    requires i < |img| && cnt + 1 < |slots|
    requires var len := LineLen(img, i); 0 < len < 128 && len != 3 && Count(CStr(img[i..i + len]), '\t') == 7
    requires !Skipped(Tokens(CStr(img[i..i + LineLen(img, i)]), '\t'))
    ensures var len := LineLen(img, i);
            var toks := Tokens(CStr(img[i..i + len]), '\t');
            exists c: Cfg ::
              ParseFrom(img, i, slots, cnt) == ParseFrom(img, i + len + 2, slots[cnt := c], cnt + 1) &&
              (|toks| <= 7 ==> c.len == slots[cnt].len) && (|toks| <= 5 ==> c.val == slots[cnt].val) &&
              (|toks| <= 2 ==> c.addr == slots[cnt].addr) && (|toks| <= 1 ==> c.page == slots[cnt].page)
  {
    hide ParseFrom, LineLen, Count, CStr, Strtol, Tokens;
    ParseStep(img, i, slots, cnt);
    var toks := Tokens(CStr(img[i..i + LineLen(img, i)]), '\t');
    var c := FillSlot(toks, slots[cnt]);
    assert ParseFrom(img, i, slots, cnt) == ParseFrom(img, i + LineLen(img, i) + 2, slots[cnt := c], cnt + 1);
  }

  lemma CountPositive(s: string)
    requires Count(s, '\t') == 7
    ensures s != ""
  {
  }

  lemma OneMore(result: seq<Cfg>, slots: seq<Cfg>, cnt: nat, end: nat, c: Cfg)
    requires cnt < |slots| == |result| && cnt + 1 <= end <= |result| && slots[cnt] == c && c.len <= 2
    requires result[..cnt + 1] == slots[..cnt + 1]
    ensures result[..cnt] == slots[..cnt]
    ensures ListSends(result[cnt..end]) == [CfgSend(c)] + ListSends(result[cnt + 1..end])
    ensures Writeable(result[cnt + 1..end]) ==> Writeable(result[cnt..end])
  {
    hide CfgSend;
    assert result[..cnt + 1][..cnt] == slots[..cnt + 1][..cnt];
    assert result[cnt] == result[..cnt + 1][cnt] == c;
    assert result[cnt..end] == [c] + result[cnt + 1..end];
    assert result[cnt..end][1..] == result[cnt + 1..end];
  }

  // ------------------------------------------------------------------ pages

  function PageNamed(op: Op): byte { if op.Send? && op.origin.FromRow? then op.origin.page else PAGE_RAIL1 }

  /** Where a list of writes takes the page pointer. */
  function OpVisits(ops: seq<Op>): seq<Visit> {
    if ops == [] then [] else [Visit(PageNamed(ops[0]), Some(ops[0]))] + OpVisits(ops[1..])
  }

  lemma {:induction false} OpVisitsSplit(a: seq<Op>, b: seq<Op>)
    ensures OpVisits(a + b) == OpVisits(a) + OpVisits(b)
    decreases |a|
  {
    if a == [] {
      assert a + b == b;
    } else {
      assert (a + b)[0] == a[0] && (a + b)[1..] == a[1..] + b;
      OpVisitsSplit(a[1..], b);
    }
  }

  lemma {:induction false} ListIsItsWrites(cfgs: seq<Cfg>)
    ensures ListVisits(cfgs) == OpVisits(ListSends(cfgs))
    decreases |cfgs|
  {
    hide LittleEndian;
    if cfgs != [] && cfgs[0].len <= 2 {
      ListIsItsWrites(cfgs[1..]);
      assert ListSends(cfgs)[1..] == ListSends(cfgs[1..]);
    }
  }

  lemma RowIsItsWrite(line: string, p: Plan)
    requires CommonRow(line) && p.group == 0 && p.block.NoBlock?
    ensures RowOf(line).Some? && RowVisits(p, RowOf(line).value) == OpVisits(RowWrite(line))
  {
    hide Split, GroupOf, PageOf, Strtol, RowWrite, IsReference, PlanRow, RowOf, Take, ToU8, ToU16, LittleEndian, StartsWith, CommonRow;
    CommonRowIs(line);
    StreamReadsRow(line, p);
    var cols := Split(line, '\t');
    var row := RowOf(line).value;
    StartsWithTake(cols[4], "CRC", 39);
    StartsWithTake(cols[4], "TRIM", 39);
    ReferenceIs(row);
    if RowWrite(line) != [] {
      assert Added(p, row) == Some(RowWrite(line)[0]);
      AddedIs(p, row);
      assert RowWrite(line)[1..] == [];
      assert [] + [Visit(row.page, Added(p, row))] == [Visit(row.page, Added(p, row))];
    }
  }

  lemma VisitsStep(lines: seq<string>, p: Plan)
    requires lines != [] && PlainLine(lines[0])
    ensures LineText(lines[0] + "\r") == lines[0]
    ensures var raw := lines[0] + "\r";
            TextVisits(p, Render(lines)) ==
              LineVisits(p, raw) + if PlanLine(p, raw).ok then TextVisits(PlanLine(p, raw).p, Render(lines[1..])) else []
  {
    hide PlanLine, LineVisits, IndexOf, Render, CStr;
    RenderStep(lines);
    CleanText(lines[0]);
  }

  lemma {:induction false} NoVisitsBehindEnd(lines: seq<string>, p: Plan)
    requires p.ended && forall l :: l in lines ==> PlainLine(l)
    ensures TextVisits(p, Render(lines)) == []
    decreases |lines|
  {
    hide LineText, Count, RowOf, Render;
    if lines == [] {
      NothingRendered(p);
    } else {
      hide TextVisits;
      VisitsStep(lines, p);
      NoVisitsBehindEnd(lines[1..], p);
    }
  }

  lemma NothingRendered(p: Plan)
    ensures TextVisits(p, Render([])) == []
  {
  }

  /** The streaming path goes where the image's writes go, and back to page 0 to store at END. */
  lemma {:induction false} ImageIsItsWrites(lines: seq<string>, p: Plan)
    requires CommonImage(lines) && p.group == 0 && p.block.NoBlock? && !p.ended
    ensures var vs, os := TextVisits(p, Render(lines)), OpVisits(ImageWrites(lines));
            vs == os || vs == os + [Moved(PAGE_RAIL1)]
    decreases |lines|
  {
    hide PlanRow, Count, RowOf, CommonRow, RowWrite, LineText, Render, TextVisits, RowVisits;
    if lines == [] {
      NothingRendered(p);
    } else {
      VisitsStep(lines, p);
      if lines[0] == "END" {
        NoVisitsBehindEnd(lines[1..], p.(ended := true));
      } else {
        WritesStep(lines);
        var rest := ImageWrites(lines[1..]);
        hide ImageWrites, OpVisits;
        if Count(lines[0], '\t') == 7 {
          StreamReadsRow(lines[0], p);
          RowIsItsWrite(lines[0], p);
          ImageIsItsWrites(lines[1..], PlanRow(p, RowOf(lines[0]).value).p);
          OpVisitsSplit(RowWrite(lines[0]), rest);
        } else {
          ImageIsItsWrites(lines[1..], p);
          assert [] + rest == rest;
        }
      }
    }
  }

  /** So it takes the device to the same pages, misleads the same rows, and leaves the same
      protection as the list of those writes. */
  lemma {:induction false} SamePages(lines: seq<string>, cfgs: seq<Cfg>)
    requires CommonImage(lines) && ListSends(cfgs) == ImageWrites(lines)
    ensures var img := Render(lines);
            (Lands(img) <==> ListLands(cfgs)) && PagesMade(img) == TrackList(cfgs, AT_START).made &&
            EndWp(img) == TrackList(cfgs, AT_START).wp
  {
    hide AfterVisits, AllLand, TextVisits, ListVisits, ListSends, ImageWrites, Render, CommonImage;
    ListIsItsWrites(cfgs);
    ImageIsItsWrites(lines, START);
    var os, back := ListVisits(cfgs), Moved(PAGE_RAIL1);
    LandsStep(os, back);
    VisitsSplit(AT_START, os, [back]);
    OneVisit(AfterVisits(AT_START, os), back);
  }

  lemma {:induction false} StreamSide(lines: seq<string>, s: Stream, link: Link, chunks: seq<string>)
    requires CommonImage(lines) && s.bus.log == [] && chunks != [] && Concat(chunks) == Render(lines)
    ensures var r := Session(s, link, chunks);
            Performs(r.s.bus.log, ImageWrites(lines), PagesMade(Render(lines)), r.ok) &&
            (Healthy(link) ==> (r.ok <==> ImageWrites(lines) != []))
  {
    hide Session, RowSends, WritePages, Healthy, PlanText, Render, Tail, TrackText, CommonImage, ImageWrites;
    UpdateWritesTheImage(s, link, chunks);
    WritesAreMadeAsRead(s, link, chunks);
    StreamReadsImage(lines, START);
    CommonLinesArePlain(lines);
    NoTail(lines);
    assert START.sends + ImageWrites(lines) == ImageWrites(lines);
    if Healthy(link) {
      VerdictIsTheText(s, link, chunks);
    }
  }

  lemma {:induction false} BatchSide(lines: seq<string>, vr: Vr, link: Link, slots: seq<Cfg>)
    requires CommonImage(lines) && |ImageWrites(lines)| < MAX_CFG_LEN == |slots|
    ensures var img := Render(lines);
            var d := FwUpdate(Bus(vr, []), link, img, slots);
            Performs(d.bus.log, ImageWrites(lines), PagesMade(img), d.ok) &&
            (Lands(img) <==> ListLands(ListOf(img, slots))) &&
            (Healthy(link) ==> (d.ok <==> ImageWrites(lines) != []))
  {
    hide RowSends, WritePages, ParseFrom, BatchUpdate, Healthy, Render, ListSends, ListOf, Reads, Writeable, Lands, ListLands, TrackText, TrackList, CommonImage, ImageWrites;
    var img := Render(lines);
    assert img[0..] == img;
    BatchReadsImage(img, 0, lines, slots, 0);
    ListIs(img, slots, ImageWrites(lines));
    var cfgs := ListOf(img, slots);
    BatchWritesItsList(vr, link, cfgs);
    BatchWritesAreMadeAsRead(vr, link, cfgs);
    SamePages(lines, cfgs);
    SendsNothing(cfgs);
  }

  lemma ListIs(img: string, slots: seq<Cfg>, writes: seq<Op>)
    requires |slots| == MAX_CFG_LEN && Reads(img, 0, slots, 0, writes)
    ensures ListSends(ListOf(img, slots)) == writes && Writeable(ListOf(img, slots))
  {
    hide ParseFrom, ListSends;
    var p := ParseFrom(img, 0, slots, 0);
    assert p.slots[0..p.cnt] == p.slots[..p.cnt];
  }

  lemma SendsNothing(cfgs: seq<Cfg>)
    requires Writeable(cfgs)
    ensures ListSends(cfgs) == [] <==> cfgs == []
  {
  }

  // ------------------------------------------------------------- theorems

  /** The configuration writes of a log are the first of those asked for, each made on the page
      it should be, and all of them when all went well. */
  predicate Performs(log: seq<Entry>, writes: seq<Op>, pages: seq<byte>, ok: bool) {
    RowSends(log) <= writes && WritePages(log) <= pages &&
    (ok ==> RowSends(log) == writes && WritePages(log) == pages)
  }

  /** Streaming refines batch.  Both updates of a common image with fewer than 1024 writes,
      the streaming one in any chunks, each on any bus: each performs a prefix of one and the
      same list of configuration writes, on the same pages of the device, and the whole list
      when it reports success.  The one misleads no row exactly when the other misleads none,
      and on healthy buses the verdicts agree. */
  lemma {:induction false} StreamingRefinesBatch(lines: seq<string>, s: Stream, link: Link, chunks: seq<string>,
                              vr: Vr, batchLink: Link, slots: seq<Cfg>)
    requires CommonImage(lines) && |ImageWrites(lines)| < 1024 == |slots|
    requires s.bus.log == [] && chunks != [] && Concat(chunks) == Render(lines)
    ensures var img := Render(lines);
            var r, d := Session(s, link, chunks), FwUpdate(Bus(vr, []), batchLink, img, slots);
            Performs(r.s.bus.log, ImageWrites(lines), PagesMade(img), r.ok) &&
            Performs(d.bus.log, ImageWrites(lines), PagesMade(img), d.ok) &&
            (Lands(img) <==> ListLands(ListOf(img, slots))) &&
            (Healthy(link) && Healthy(batchLink) ==> (r.ok <==> d.ok))
  {
    hide Session, FwUpdate, Performs, Healthy, Render, ListOf, CommonImage, ImageWrites, Lands, ListLands;
    StreamSide(lines, s, link, chunks);
    BatchSide(lines, vr, batchLink, slots);
  }
}
