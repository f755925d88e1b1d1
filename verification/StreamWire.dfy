// What each kind of row puts on the wire, in bytes: command, order of the data bytes, and the
// rows that are refused.
module StreamWire {
  import opened CText
  import opened VrBus
  import opened StreamSpec
  import opened StreamPlan
  import opened StreamRuns

  // ------------------------------------------------------------------ digits

  /** A hexadecimal digit, in upper case. */
  function Digit(d: nat): (c: char)
    requires d < 16
    ensures DigitVal(c) == d && c != '\t'
    ensures d < 10 ==> '0' <= c <= '9' && c as int - '0' as int == d
  {
    "0123456789ABCDEF"[d]
  }

  /** Lower case counts as well. */
  lemma LowerCase(d: nat)
    requires d < 16
    ensures DigitVal("0123456789abcdef"[d]) == d
  {
  }

  /** strtol: blanks and a sign in front, 0x only in base 16, an end at the first other
      character, and saturation. */
  lemma StrtolCases()
    ensures Strtol(" 7", 10) == 7 && Strtol("\t7", 16) == 7 && Strtol("-7", 10) == -7 && Strtol("+7g", 16) == 7
    ensures Strtol("0xA", 16) == 10 && Strtol("0XA", 16) == 10 && Strtol("0xA", 10) == 0 && Strtol("", 10) == 0
  {
    assert " 7"[1..] == "7" && "\t7"[1..] == "7" && "-7"[1..] == "7" && "+7g"[1..] == "7g" && "7g"[1..] == "g";
    assert "7"[1..] == "" && "0xA"[2..] == "A" && "0XA"[2..] == "A" && "A"[1..] == "" && "0xA"[1..] == "xA";
    assert Digits("7", 10, 0) == Digits("", 10, 7) == 7 && Digits("7", 16, 0) == Digits("", 16, 7) == 7;
    assert Digits("7g", 16, 0) == Digits("g", 16, 7) == 7 && Digits("A", 16, 0) == Digits("", 16, 10) == 10;
    assert Digits("0xA", 10, 0) == Digits("xA", 10, 0) == 0;
    assert SkipSpace(" 7") == SkipSpace("7") == "7" && SkipSpace("\t7") == SkipSpace("7");
  }

  lemma FourDigits(s: string)
    requires |s| == 4 && forall i :: 0 <= i < 4 ==> 0 <= DigitVal(s[i]) < 16
    ensures Strtol(s, 16) == 0x1000 * DigitVal(s[0]) + 0x100 * DigitVal(s[1]) + 0x10 * DigitVal(s[2]) + DigitVal(s[3])
  {
    assert s[1..][0] == s[1] && s[1..][1..] == s[2..] && s[2..][0] == s[2] && s[2..][1..] == s[3..];
    assert s[3..][0] == s[3] && s[3..][1..] == [];
    var a := DigitVal(s[0]);
    var b := 16 * a + DigitVal(s[1]);
    var c := 16 * b + DigitVal(s[2]);
    assert Digits(s, 16, 0) == Digits(s[1..], 16, a) == Digits(s[2..], 16, b) == Digits(s[3..], 16, c);
    assert Digits(s[3..], 16, c) == Digits([], 16, 16 * c + DigitVal(s[3]));
  }

  // ----------------------------------------------------------------- columns

  function Hex2(b: byte): (s: string)
    ensures '\t' !in s && |s| == 2
  {
    [Digit(b / 16), Digit(b % 16)]
  }

  function Hex4(v: nat): (s: string)
    requires v < 0x1_0000
    ensures '\t' !in s && |s| == 4
  {
    Hex2(v / 256) + Hex2(v % 256)
  }

  lemma Hex2Reads(b: byte)
    ensures Strtol(Hex2(b), 16) == b
  {
    hide Strtol, Digit;
    PairOf(Digit(b / 16), Digit(b % 16));
  }

  lemma Hex4Reads(v: nat)
    requires v < 0x1_0000
    ensures Strtol(Hex4(v), 16) == v
  {
    hide Strtol, Digit;
    var s, hi, lo := Hex4(v), v / 256, v % 256;
    assert s[0] == Digit(hi / 16) && s[1] == Digit(hi % 16) && s[2] == Digit(lo / 16) && s[3] == Digit(lo % 16);
    FourDigits(s);
    Places(v);
  }

  lemma Places(v: nat)
    requires v < 0x1_0000
    ensures var hi, lo := v / 256, v % 256;
            0x1000 * (hi / 16) + 0x100 * (hi % 16) + 0x10 * (lo / 16) + lo % 16 == v
  {
    var hi, lo := v / 256, v % 256;
    assert hi == 16 * (hi / 16) + hi % 16;
    assert lo == 16 * (lo / 16) + lo % 16;
  }

  lemma PairOf(hi: char, lo: char)
    requires 0 <= DigitVal(hi) < 16 && 0 <= DigitVal(lo) < 16
    ensures Strtol([hi, lo], 16) == 16 * DigitVal(hi) + DigitVal(lo)
  {
    var s := [hi, lo];
    assert s[1..] == [lo] && [lo][1..] == [];
    assert Digits(s, 16, 0) == Digits([lo], 16, DigitVal(hi)) == Digits([], 16, 16 * DigitVal(hi) + DigitVal(lo));
  }

  /** The columns of a row: an identifier, set and page, address, a second identifier, name,
      value, unit and tag. */
  function Columns(id: string, place: string, addr: nat, id2: string, name: string, value: string, unit: string, tag: string): seq<string>
    requires addr < 0x1_0000
  {
    [id, place, Hex4(addr), id2, name, value, unit, tag]
  }

  predicate GoodColumns(cols: seq<string>) { forall i :: 0 <= i < |cols| ==> cols[i] != "" && '\t' !in cols[i] }

  function Cut(s: string, n: nat): string { if |s| <= n then s else s[..n] }

  /** A row reads back what its columns say: the set from a leading digit, if there are three
      characters, the page from two hexadecimal digits, the address from four; name, value and
      tag are cut to 39, 15 and 7 characters. */
  lemma RowReadsBack(id: string, group: nat, page: byte, addr: nat, id2: string, name: string, value: string, unit: string, tag: string)
    requires group < 10 && addr < 0x1_0000
    requires GoodColumns([id, id2, name, value, unit, tag])
    ensures var row := Row(group, page, addr, Cut(name, 39), Cut(value, 15), Cut(tag, 7));
            RowOf(Join(Columns(id, [Digit(group)] + Hex2(page), addr, id2, name, value, unit, tag), '\t')) == Some(row) &&
            (group == 0 ==> RowOf(Join(Columns(id, Hex2(page), addr, id2, name, value, unit, tag), '\t')) == Some(row))
  {
    var place := [Digit(group)] + Hex2(page);
    Hex2Reads(page);
    Hex4Reads(addr);
    assert place[1..] == Hex2(page);
    PlaceReads(group, page);
    GoodRow(id, place, addr, id2, name, value, unit, tag);
    GoodRow(id, Hex2(page), addr, id2, name, value, unit, tag);
    hide Strtol, Hex2, Hex4, Digit, RowOf, Join, GoodColumns, GroupOf, PageOf, GroupPageOk, Columns;
    RowIs(id, place, group, page, addr, id2, name, value, unit, tag);
    if group == 0 {
      RowIs(id, Hex2(page), group, page, addr, id2, name, value, unit, tag);
    }
  }

  lemma RowIs(id: string, place: string, group: Group, page: byte, addr: nat, id2: string, name: string, value: string, unit: string, tag: string)
    requires addr < 0x1_0000 && Strtol(Hex4(addr), 16) == addr && GoodColumns(Columns(id, place, addr, id2, name, value, unit, tag))
    requires GroupPageOk(place) && GroupOf(place) == group && PageOf(place) == page
    ensures RowOf(Join(Columns(id, place, addr, id2, name, value, unit, tag), '\t')) ==
            Some(Row(group, page, addr, Cut(name, 39), Cut(value, 15), Cut(tag, 7)))
  {
    hide Strtol, Hex4, RowOf, Join, GoodColumns, GroupOf, PageOf, GroupPageOk;
    ColumnsRead(Columns(id, place, addr, id2, name, value, unit, tag));
  }

  lemma PlaceReads(group: nat, page: byte)
    requires group < 10
    ensures var place := [Digit(group)] + Hex2(page);
            GroupPageOk(place) && GroupOf(place) == group && PageOf(place) == page &&
            GroupPageOk(Hex2(page)) && GroupOf(Hex2(page)) == 0 && PageOf(Hex2(page)) == page
  {
    var place := [Digit(group)] + Hex2(page);
    Hex2Reads(page);
    assert place[1..] == Hex2(page) && place[0] == Digit(group);
    hide Strtol, Hex2, Digit;
  }

  lemma GoodRow(id: string, place: string, addr: nat, id2: string, name: string, value: string, unit: string, tag: string)
    requires addr < 0x1_0000 && place != "" && '\t' !in place
    requires GoodColumns([id, id2, name, value, unit, tag])
    ensures GoodColumns(Columns(id, place, addr, id2, name, value, unit, tag))
  {
    var given := [id, id2, name, value, unit, tag];
    assert given[0] == id && given[1] == id2 && given[2] == name && given[3] == value && given[4] == unit && given[5] == tag;
    hide Hex4;
  }

  lemma ColumnsRead(cols: seq<string>)
    requires |cols| == 8 && GoodColumns(cols) && GroupPageOk(cols[1])
    ensures RowOf(Join(cols, '\t')) ==
            Some(Row(GroupOf(cols[1]), PageOf(cols[1]), ToU16(Strtol(cols[2], 16)), Cut(cols[4], 39), Cut(cols[5], 15), Cut(cols[7], 7)))
  {
    hide Strtol, Join, Split;
    JoinSplit(cols, '\t');
  }

  // -------------------------------------------------------------------- rows

  /** The row goes ahead: no reference, and no set switch with a block open. */
  predicate Goes(p: Plan, row: Row) { !IsReference(row) && (row.group == p.group || p.block.NoBlock?) }

  /** A plan with one more write, the row's set selected. */
  predicate Adds(p: Plan, q: Planned, op: Op, group: Group) { q == Planned(p.(group := group, sends := p.sends + [op]), true) }

  /** Nothing is written, and the update fails. */
  predicate Refuses(p: Plan, q: Planned) { !q.ok && q.p.sends == p.sends }

  /** Tags "1" and "2": the value's low byte, or low and high byte, to the low address byte. */
  lemma WordRowOnWire(p: Plan, row: Row)
    requires Goes(p, row) && (row.tag == "1" || row.tag == "2")
    ensures var v := Strtol(row.value, 16) % 0x1_0000;
            var data := if row.tag == "1" then [v % 256] else [v % 256, v / 256];
            Adds(p, PlanRow(p, row), Send(row.addr % 256, data, FromRow(row.group, row.page, false)), row.group)
  {
    var v := Strtol(row.value, 16) % 0x1_0000;
    assert LittleEndian(v, 1) == [v % 256] && LittleEndian(v, 2) == [v % 256, v / 256];
    hide IsReference, Strtol, LittleEndian;
  }

  /** Process calls: sub-address and one value byte, to the high address byte; any other value
      length, or an open block, is refused. */
  lemma CallRowOnWire(p: Plan, row: Row)
    requires Goes(p, row) && (row.tag == "P1" || row.tag == "P2" || row.tag == "BP1")
    ensures if p.block.NoBlock? && |row.value| == 2 then
              Adds(p, PlanRow(p, row),
                   Send(row.addr / 256 % 256, [row.addr % 256, Strtol(row.value, 16) % 256], FromRow(row.group, row.page, true)), row.group)
            else Refuses(p, PlanRow(p, row))
  {
    hide IsReference, Strtol;
    assert |row.value| == 2 ==> [row.value[0], row.value[1]] == row.value;
  }

  /** A block tag and its length. */
  predicate IsBlockTag(tag: string, n: nat) {
    StartsWith(tag, "B") && tag != "BP1" && Strtol(tag[1..], 10) % 256 == n
  }

  lemma BlockTagIsNoOther(tag: string, n: nat)
    requires IsBlockTag(tag, n)
    ensures !IsWordTag(tag) && !IsCallTag(tag) && ToU8(Strtol(tag[1..], 10)) == n
  {
    assert tag[..1][0] == 'B';
  }

  /** The i-th pair of characters of a value as a byte. */
  function PairAt(value: string, i: nat): byte
    requires 2 * i + 2 <= |value|
  {
    Strtol(value[2 * i..2 * i + 2], 16) % 256
  }

  /** The number of pairs, then the pairs from the last to the first. */
  predicate PairsReversed(data: seq<byte>, value: string, n: nat)
    requires |value| == 2 * n
  {
    |data| == n + 1 && data[0] == n && forall j :: 1 <= j <= n ==> data[j] == PairAt(value, n - j)
  }

  lemma PayloadReverses(bytes: seq<byte>)
    requires |bytes| < 256
    ensures var data, n := BlockPayload(bytes), |bytes|;
            |data| == n + 1 && data[0] == n && forall j :: 1 <= j <= n ==> data[j] == bytes[n - j]
  {
  }

  lemma PairsOf(value: string, n: nat)
    requires |value| == 2 * n && n <= 4
    ensures PairsReversed(BlockPayload(HexBytes(value, n)), value, n)
  {
    hide BlockPayload, Strtol;
    var bytes := HexBytes(value, n);
    PayloadReverses(bytes);
    forall k | 0 <= k < n
      ensures bytes[k] == PairAt(value, k)
    {
      assert value[2 * k..2 * k + 2] == [value[2 * k], value[2 * k + 1]];
    }
  }

  /** Blocks of up to four bytes: their number, then the pairs of the value from the last to the
      first; any other value length, or an open block, is refused. */
  lemma ShortBlockOnWire(p: Plan, row: Row, n: nat)
    requires Goes(p, row) && IsBlockTag(row.tag, n) && 1 <= n <= 4
    ensures if p.block.NoBlock? && |row.value| == 2 * n then
              exists data: seq<byte> ::
                PairsReversed(data, row.value, n) &&
                Adds(p, PlanRow(p, row), Send(row.addr % 256, data, FromRow(row.group, row.page, false)), row.group)
            else Refuses(p, PlanRow(p, row))
  {
    BlockTagIsNoOther(row.tag, n);
    ShortBlockIs(row, n);
    hide IsReference, BlockPayload, HexBytes, Classify;
    if |row.value| == 2 * n {
      PairsOf(row.value, n);
      assert PairsReversed(BlockPayload(HexBytes(row.value, n)), row.value, n);
    }
  }

  lemma ShortBlockIs(row: Row, n: nat)
    requires IsBlockTag(row.tag, n) && 1 <= n <= 4 && !IsWordTag(row.tag) && !IsCallTag(row.tag) && ToU8(Strtol(row.tag[1..], 10)) == n
    ensures Classify(row) == if |row.value| == 2 * n then Whole(row.addr % 256, BlockPayload(HexBytes(row.value, n)), false) else Reject
  {
    hide Strtol, BlockPayload, HexBytes;
  }

  /** A block length of 0 or above 32 is refused. */
  lemma WrongBlockRefused(p: Plan, row: Row, n: nat)
    requires Goes(p, row) && IsBlockTag(row.tag, n) && !(1 <= n <= 32)
    ensures Refuses(p, PlanRow(p, row))
  {
    hide IsReference, Strtol;
    BlockTagIsNoOther(row.tag, n);
  }

  /** A byte row whose value is not one pair is refused. */
  lemma WrongByteRefused(p: Plan, row: Row, n: nat)
    requires Goes(p, row) && IsBlockTag(row.tag, n) && 5 <= n <= 32 && |row.value| != 2
    ensures Refuses(p, PlanRow(p, row))
  {
    hide IsReference, Strtol;
    BlockTagIsNoOther(row.tag, n);
  }

  /** Any other tag is passed over. */
  lemma UnknownTagPasses(p: Plan, row: Row)
    requires Goes(p, row) && row.tag !in ["1", "2", "P1", "P2", "BP1"] && (row.tag == "" || row.tag[0] != 'B')
    ensures PlanRow(p, row) == Planned(p.(group := row.group), true)
  {
    hide IsReference, Strtol;
    var tags := ["1", "2", "P1", "P2", "BP1"];
    assert tags[0] in tags && tags[1] in tags && tags[2] in tags && tags[3] in tags && tags[4] in tags;
    assert "B"[0] == 'B';
    assert !StartsWith(row.tag, "B");
  }

  /** A byte row of an n-byte block at one address. */
  predicate IsBlockRow(row: Row, addr: byte, n: nat, group: Group) {
    !IsReference(row) && row.group == group && IsBlockTag(row.tag, n) && row.addr % 256 == addr && |row.value| == 2
  }

  lemma BlockRowIs(row: Row, addr: byte, n: nat, group: Group)
    requires IsBlockRow(row, addr, n, group) && 5 <= n <= 32
    ensures InBlock(row, addr, n) && ByteOf(row) == Strtol(row.value, 16) % 256
  {
    hide IsReference, Strtol;
    BlockTagIsNoOther(row.tag, n);
    assert [row.value[0], row.value[1]] == row.value;
  }

  /** The number of rows, then their values from the last row's to the first row's. */
  predicate RowsReversed(data: seq<byte>, rows: seq<Row>) {
    var n := |rows|;
    |data| == n + 1 && data[0] == n && forall j :: 1 <= j <= n ==> data[j] == Strtol(rows[n - j].value, 16) % 256
  }

  /** Blocks of 5 to 32 bytes: n rows with a byte each make one write, their number and then the
      bytes from the last row's to the first row's, on the page of the last row. */
  lemma {:induction false} LongBlockOnWire(p: Plan, rows: seq<Row>, addr: byte, group: Group)
    requires p.block.NoBlock? && 5 <= |rows| <= 32
    requires forall i :: 0 <= i < |rows| ==> IsBlockRow(rows[i], addr, |rows|, group)
    ensures exists data: seq<byte> ::
              RowsReversed(data, rows) &&
              Adds(p, PlanRows(p, rows), Send(addr, data, FromRow(group, rows[|rows| - 1].page, false)), group)
  {
    hide IsReference, Strtol, Classify, PlanRows, BlockPayload;
    var n := |rows|;
    forall i | 0 <= i < n
      ensures InBlock(rows[i], addr, n) && ByteOf(rows[i]) == Strtol(rows[i].value, 16) % 256
      ensures !IsReference(rows[i]) && rows[i].group == group
    {
      BlockRowIs(rows[i], addr, n, group);
    }
    RunOfBytes(rows, addr, n);
    BlockIsOneWrite(p, rows, group);
    PayloadReverses(Values(rows));
    assert RowsReversed(BlockPayload(Values(rows)), rows);
    RunWriteIs(rows, addr, n);
  }

  lemma RunWriteIs(rows: seq<Row>, addr: byte, n: nat)
    requires IsRun(rows) && InBlock(rows[0], addr, n) && |Values(rows)| < 256
    ensures var last := rows[|rows| - 1];
            RunWrite(rows) == Send(addr, BlockPayload(Values(rows)), FromRow(last.group, last.page, false))
  {
    hide Classify, BlockPayload;
  }

  // ------------------------------------------------------------------- lines

  lemma LineFirst(line: string, rest: string)
    requires '\n' !in line
    ensures var text := line + "\n" + rest;
            IndexOf(text, '\n') == |line| && text[..|line|] == line && text[|line| + 1..] == rest
  {
    var text := line + "\n" + rest;
    assert forall i :: 0 <= i < |line| ==> text[i] == line[i];
    IndexOfUnique(text, '\n', |line|);
    hide IndexOf;
    assert text[..|line|] == line && text[|line| + 1..] == rest;
  }

  /** A line of up to 127 characters that is neither END nor of eight columns is passed over; one
      of 128 fails the update, ended or not. */
  lemma LineLimit(p: Plan, line: string, rest: string)
    requires '\n' !in line
    ensures |line| >= 128 ==> Refuses(p, PlanText(p, line + "\n" + rest)) && Refuses(p, PlanText(p, line))
    ensures |line| <= 127 && '\r' !in line && '\0' !in line && line != "END" && Count(line, '\t') != 7 ==>
              PlanText(p, line + "\n" + rest) == PlanText(p, rest) &&
              (|line| <= 126 ==> PlanText(p, line + "\r" + "\n" + rest) == PlanText(p, rest))
  {
    hide Count, RowOf, PlanRow, CStr;
    LineFirst(line, rest);
    NoLineEnd(line);
    if '\r' !in line && '\0' !in line {
      CStrOfClean(line);
      assert '\n' !in line + "\r";
      LineFirst(line + "\r", rest);
      assert StripCr(line + "\r") == line;
      assert StripCr(line) == line by { NoCr(line); }
    }
  }

  lemma NoCr(line: string)
    requires '\r' !in line
    ensures StripCr(line) == line
  {
    if line != "" {
      assert line[|line| - 1] in line;
    }
  }

  lemma NoLineEnd(line: string)
    requires '\n' !in line
    ensures IndexOf(line, '\n') == |line|
  {
    assert forall i :: 0 <= i < |line| ==> line[i] in line;
    IndexOfUnique(line, '\n', |line|);
  }

  /** END, with or without a carriage return, ends the rows; with a block open it fails. */
  lemma EndEnds(p: Plan, rest: string)
    requires !p.ended
    ensures PlanLine(p, "END") == PlanLine(p, "END\r") == Planned(p.(ended := true), p.block.NoBlock?)
  {
    hide Count, RowOf, PlanRow;
    CStrOfClean("END");
    assert StripCr("END\r") == "END" == StripCr("END");
  }

  /** What follows END is passed over. */
  lemma BehindEnd(p: Plan, raw: string)
    requires p.ended
    ensures PlanLine(p, raw) == Planned(p, true)
  {
  }
}
