// Intel HEX data as common/dev/ds160pt801.c parses it (ds160pt801_parsing), with the rendering
// of the Intel Hexadecimal Object File Format Specification beside it.
module IntelHex {
  import opened CText

  const MAX_DATA: nat := 32

  const DATA_RECORD: byte := 0
  const END_OF_FILE: byte := 1

  /** A data record: load offset, data and the checksum it came with. */
  datatype Record = Record(ofs: nat, data: seq<byte>, sum: byte)

  /** Outcome of the parser: its verdict and the records stored before it ended. */
  datatype Parsed = Parsed(ok: bool, recs: seq<Record>)

  /** ascii_to_val: upper-case digits only. */
  function Val(c: char): (v: int)
    ensures -1 <= v < 16
  {
    if '0' <= c <= '9' then c as int - '0' as int
    else if 'A' <= c <= 'F' then c as int - 'A' as int + 10
    else -1
  }

  /** Two characters as a byte; a non-digit wraps like the unsigned conversion does. */
  function Hex2(t: string, i: nat): byte
    requires i + 2 <= |t|
  {
    (Val(t[i]) * 16 + Val(t[i + 1])) % 256
  }

  predicate AllHex(s: string) { forall k :: 0 <= k < |s| ==> Val(s[k]) != -1 }

  function Decode(s: string): (d: seq<byte>)
    requires |s| % 2 == 0
    ensures |d| == |s| / 2
  {
    if s == "" then [] else [Hex2(s, 0)] + Decode(s[2..])
  }

  /** ds160pt801_parsing. The checksum is stored and never compared; a data record needs at
      least one more character after it. */
  function Parse(t: string): Parsed
    decreases |t|
  {
    if t == "" then Parsed(true, [])
    else if t[0] == '\r' || t[0] == '\n' then Parse(t[1..])
    else if t[0] != ':' || |t| <= 8 then Parsed(false, [])
    else ParseBody(t, Hex2(t, 1), Hex2(t, 3) * 256 + Hex2(t, 5), Hex2(t, 7))
  }

  /** The part of a record after its header. */
  function ParseBody(t: string, count: byte, ofs: nat, kind: byte): Parsed
    requires |t| >= 9
    decreases |t|, 0
  {
    var end := 9 + 2 * count;
    if kind == END_OF_FILE then Parsed(true, [])
    else if kind != DATA_RECORD || count > MAX_DATA || |t| <= end || !AllHex(t[9..end]) || |t| <= end + 2 then Parsed(false, [])
    else
      var rest := Parse(t[end + 2..]);
      Parsed(rest.ok, [Record(ofs, Decode(t[9..end]), Hex2(t, end))] + rest.recs)
  }

  // ------------------------------------------------------------- rendering

  predicate Fits(r: Record) { r.ofs < 0x1_0000 && |r.data| <= MAX_DATA }

  predicate AllFit(rs: seq<Record>) { forall k :: 0 <= k < |rs| ==> Fits(rs[k]) }

  function Nibble(v: nat): (c: char)
    requires v < 16
    ensures Val(c) == v
  {
    if v < 10 then '0' + v as char else 'A' + (v - 10) as char
  }

  function Hex(b: byte): (s: string)
    ensures |s| == 2 && Hex2(s, 0) == b && AllHex(s)
  {
    [Nibble(b / 16), Nibble(b % 16)]
  }

  function Encode(d: seq<byte>): (s: string)
    ensures |s| == 2 * |d|
  {
    if d == [] then "" else Hex(d[0]) + Encode(d[1..])
  }

  /** A data record without its line end. */
  function Body(r: Record): (s: string)
    requires Fits(r)
    ensures |s| == 11 + 2 * |r.data|
  {
    ":" + Hex(|r.data|) + Hex(r.ofs / 256) + Hex(r.ofs % 256) + Hex(DATA_RECORD) + Encode(r.data) + Hex(r.sum)
  }

  function Line(r: Record): (s: string)
    requires Fits(r)
    ensures |s| == 13 + 2 * |r.data|
  {
    Body(r) + "\r\n"
  }

  function Lines(rs: seq<Record>): string
    requires AllFit(rs)
  {
    if rs == [] then "" else Line(rs[0]) + Lines(rs[1..])
  }

  const EOF_RECORD: string := ":00000001FF\r\n"

  // ------------------------------------------------------------ properties

  lemma {:induction false} EncodeDecodes(d: seq<byte>)
    ensures AllHex(Encode(d)) && Decode(Encode(d)) == d
    decreases |d|
  {
    if d != [] {
      EncodeDecodes(d[1..]);
      var s := Encode(d);
      assert s[2..] == Encode(d[1..]);
      assert s[0] == Hex(d[0])[0] && s[1] == Hex(d[0])[1];
      forall k | 0 <= k < |s| ensures Val(s[k]) != -1 {
        if k >= 2 {
          assert s[k] == Encode(d[1..])[k - 2];
        } else {
          assert s[k] == Hex(d[0])[k];
        }
      }
    }
  }

  /** The header of a rendered record reads back. */
  lemma HeaderReads(r: Record, t: string)
    requires Fits(r) && Body(r) <= t
    ensures t[0] == ':' && Hex2(t, 1) == |r.data| && Hex2(t, 3) == r.ofs / 256 && Hex2(t, 5) == r.ofs % 256
    ensures Hex2(t, 7) == DATA_RECORD && t[9..9 + 2 * |r.data|] == Encode(r.data) && Hex2(t, 9 + 2 * |r.data|) == r.sum
  {
    hide Hex2, Nibble;
    var b := Body(r);
    var e := 9 + 2 * |r.data|;
    assert b[1..3] == Hex(|r.data|) && b[3..5] == Hex(r.ofs / 256) && b[5..7] == Hex(r.ofs % 256);
    assert b[7..9] == Hex(DATA_RECORD) && b[9..e] == Encode(r.data) && b[e..e + 2] == Hex(r.sum);
    assert t[..|b|] == b;
    Slice2(t, 1); Slice2(t, 3); Slice2(t, 5); Slice2(t, 7); Slice2(t, e);
    assert t[1..3] == b[1..3] && t[3..5] == b[3..5] && t[5..7] == b[5..7] && t[7..9] == b[7..9];
    assert t[9..e] == b[9..e] && t[e..e + 2] == b[e..e + 2];
    assert t[0] == b[0];
  }

  lemma Slice2(t: string, i: nat)
    requires i + 2 <= |t|
    ensures Hex2(t, i) == Hex2(t[i..i + 2], 0)
  {
  }

  /** One rendered record: refused at the very end of the text, else read, whatever follows. */
  lemma {:induction false} BodyParses(r: Record, rest: string)
    requires Fits(r)
    ensures Parse(Body(r) + rest) ==
              if rest == "" then Parsed(false, []) else Parsed(Parse(rest).ok, [r] + Parse(rest).recs)
  {
    hide Body, Hex, Encode, Decode, AllHex, Hex2;
    var t := Body(r) + rest;
    HeaderReads(r, t);
    EncodeDecodes(r.data);
    assert t[9 + 2 * |r.data| + 2..] == rest;
    assert r.ofs / 256 * 256 + r.ofs % 256 == r.ofs;
  }

  /** One rendered line, whatever follows it. */
  lemma LineParses(r: Record, rest: string)
    requires Fits(r)
    ensures Parse(Line(r) + rest) == Parsed(Parse(rest).ok, [r] + Parse(rest).recs)
  {
    hide Body;
    var u := "\r\n" + rest;
    assert Line(r) + rest == Body(r) + u;
    BodyParses(r, u);
    assert u[1..] == "\n" + rest && u[1..][1..] == rest;
    assert Parse(u) == Parse(u[1..]) == Parse(rest);
  }

  /** Lines parse to their records, then parsing goes on with what follows. */
  lemma {:induction false} LinesParse(rs: seq<Record>, rest: string)
    requires AllFit(rs)
    ensures Parse(Lines(rs) + rest) == Parsed(Parse(rest).ok, rs + Parse(rest).recs)
    decreases |rs|
  {
    hide Parse, Line;
    if rs == [] {
      assert Lines(rs) + rest == rest;
    } else {
      assert Lines(rs) + rest == Line(rs[0]) + (Lines(rs[1..]) + rest);
      LineParses(rs[0], Lines(rs[1..]) + rest);
      LinesParse(rs[1..], rest);
      assert [rs[0]] + (rs[1..] + Parse(rest).recs) == rs + Parse(rest).recs;
    }
  }

  lemma EofEnds(junk: string)
    ensures Parse(EOF_RECORD + junk) == Parsed(true, [])
  {
    var t := EOF_RECORD + junk;
    assert t[0] == ':' && t[7] == '0' && t[8] == '1' && |t| >= 13;
  }

  /** Intel HEX round trip: data records rendered with CRLF line ends parse back in order, with
      or without an end-of-file record and whatever comes after it. */
  lemma RoundTrip(rs: seq<Record>, junk: string)
    requires AllFit(rs)
    ensures Parse(Lines(rs)) == Parsed(true, rs)
    ensures Parse(Lines(rs) + EOF_RECORD + junk) == Parsed(true, rs)
  {
    hide Parse, Lines;
    LinesParse(rs, "");
    assert Lines(rs) + "" == Lines(rs);
    assert Parse("") == Parsed(true, []) by { ParseEmpty(); }
    LinesParse(rs, EOF_RECORD + junk);
    assert Lines(rs) + (EOF_RECORD + junk) == Lines(rs) + EOF_RECORD + junk;
    EofEnds(junk);
  }

  lemma ParseEmpty()
    ensures Parse("") == Parsed(true, [])
  {
  }

  /** A record without its line end: the parser wants a character after every checksum, so it is
      refused, and lost, if and only if the text stops right behind it; otherwise any text that
      follows is parsed as if the line had ended. */
  lemma {:induction false} UnendedRecord(rs: seq<Record>, r: Record, rest: string)
    requires AllFit(rs) && Fits(r)
    ensures Parse(Lines(rs) + (Body(r) + rest)) ==
              if rest == "" then Parsed(false, rs) else Parsed(Parse(rest).ok, rs + ([r] + Parse(rest).recs))
  {
    hide Lines, Body, Parse;
    LinesParse(rs, Body(r) + rest);
    BodyParses(r, rest);
  }

  /** What is refused, with nothing stored: a record that does not begin with a colon, has fewer
      than nine characters or a type above 1, or is a data record with more than 32 bytes, with a
      character that is no upper-case digit, or cut short. */
  lemma BadRecordRefused(t: string)
    requires t != "" && t[0] != '\r' && t[0] != '\n'
    ensures t[0] != ':' || |t| <= 8 ==> Parse(t) == Parsed(false, [])
    ensures t[0] == ':' && |t| > 8 && Hex2(t, 7) > 1 ==> Parse(t) == Parsed(false, [])
    ensures t[0] == ':' && |t| > 8 && Hex2(t, 7) == 0 && (Hex2(t, 1) > 32 || |t| <= 11 + 2 * Hex2(t, 1)) ==> Parse(t) == Parsed(false, [])
    ensures t[0] == ':' && |t| > 8 && Hex2(t, 7) == 0 ==>
              ((exists k :: 9 <= k < 9 + 2 * Hex2(t, 1) && k < |t| && !('0' <= t[k] <= '9' || 'A' <= t[k] <= 'F')) ==>
                 Parse(t) == Parsed(false, []))
    ensures t[0] == ':' && |t| > 8 && Hex2(t, 7) == 1 ==> Parse(t) == Parsed(true, [])
  {
    hide Hex2, Decode;
    if t[0] == ':' && |t| > 8 && 9 + 2 * Hex2(t, 1) <= |t| {
      var end := 9 + 2 * Hex2(t, 1);
      assert forall k :: 9 <= k < end ==> t[9..end][k - 9] == t[k];
    }
  }

  /** Whatever is accepted, each stored record has at most 32 bytes and a 16-bit offset. */
  lemma {:induction false} ParsedFit(t: string)
    ensures AllFit(Parse(t).recs)
    decreases |t|
  {
    if t == "" {
    } else if t[0] == '\r' || t[0] == '\n' {
      ParsedFit(t[1..]);
    } else if t[0] == ':' && |t| > 8 {
      var end := 9 + 2 * Hex2(t, 1);
      if end + 2 < |t| {
        ParsedFit(t[end + 2..]);
      }
    }
  }

  // ------------------------------------------------------------------ code

  /** ds160pt801_parsing. */
  method Parsing(t: string) returns (ok: bool, lines: seq<Record>)
    ensures Parsed(ok, lines) == Parse(t)
  {
    hide Hex2, ParseBody;
    lines := [];
    var i := 0;
    assert t[0..] == t;
    while i < |t|
      invariant 0 <= i <= |t|
      invariant Parse(t) == Parsed(Parse(t[i..]).ok, lines + Parse(t[i..]).recs)
    {
      ghost var u := t[i..];
      if t[i] == '\r' || t[i] == '\n' {
        assert u[1..] == t[i + 1..];
        i := i + 1;
        continue;
      }
      if t[i] != ':' {
        return false, lines;
      }
      if i + 8 >= |t| {
        return false, lines;
      }
      Shift(t, i, 1); Shift(t, i, 3); Shift(t, i, 5); Shift(t, i, 7);
      i := i + 1;
      var count: int := Hex2(t, i);
      i := i + 2;
      var ofs := Hex2(t, i) * 256 + Hex2(t, i + 2);
      i := i + 4;
      var kind := Hex2(t, i);
      i := i + 2;
      assert Parse(u) == ParseBody(u, count, ofs, kind);
      OtherKinds(u, count, ofs, kind);
      if kind == END_OF_FILE {
        return true, lines;
      } else if kind == DATA_RECORD {
        var good, record := DataRecord(t, i, count, ofs);
        if !good {
          return false, lines;
        }
        lines := lines + [record];
        i := i + 2 * count + 2;
      } else {
        return false, lines;
      }
    }
    ok := true;
    ParseEmpty();
  }

  lemma OtherKinds(u: string, count: byte, ofs: nat, kind: byte)
    requires |u| >= 9
    ensures kind == END_OF_FILE ==> ParseBody(u, count, ofs, kind) == Parsed(true, [])
    ensures kind != END_OF_FILE && kind != DATA_RECORD ==> ParseBody(u, count, ofs, kind) == Parsed(false, [])
  {
  }

  /** The data-record branch of the parser, i behind the header. */
  method DataRecord(t: string, i: nat, count: byte, ofs: nat) returns (ok: bool, record: Record)
    requires 9 <= i <= |t|
    ensures ok ==> i + 2 * count + 2 < |t|
    ensures ParseBody(t[i - 9..], count, ofs, DATA_RECORD) ==
              if ok then Parsed(Parse(t[i + 2 * count + 2..]).ok, [record] + Parse(t[i + 2 * count + 2..]).recs) else Parsed(false, [])
  {
    hide Parse, Decode, AllHex, Hex2;
    ghost var u := t[i - 9..];
    var end := i + 2 * count;
    record := Record(ofs, [], 0);
    if count > MAX_DATA {
      return false, record;
    }
    if end >= |t| {
      return false, record;
    }
    assert u[9..9 + 2 * count] == t[i..end];
    var data;
    ok, data := ReadData(t[i..end]);
    if !ok {
      return false, record;
    }
    if end + 2 >= |t| {
      return false, record;
    }
    Shift(t, i - 9, 9 + 2 * count);
    assert u[9 + 2 * count + 2..] == t[end + 2..];
    record := Record(ofs, data, Hex2(t, end));
  }

  lemma Shift(t: string, i: nat, k: nat)
    requires i + k + 2 <= |t|
    ensures Hex2(t[i..], k) == Hex2(t, i + k)
  {
  }

  lemma DecodeNone()
    ensures Decode("") == []
  {
  }

  lemma DecodeStep(hex: string, j: nat)
    requires |hex| % 2 == 0 && j % 2 == 0 && j < |hex|
    ensures Val(hex[j]) != -1 && Val(hex[j + 1]) != -1 ==> Decode(hex[j..]) == [Val(hex[j]) * 16 + Val(hex[j + 1])] + Decode(hex[j + 2..])
  {
    hide Val;
    assert hex[j..][2..] == hex[j + 2..];
  }

  /** The data loop of the parser: two digits a byte, giving up at the first non-digit. */
  method ReadData(hex: string) returns (ok: bool, data: seq<byte>)
    requires |hex| % 2 == 0
    ensures ok == AllHex(hex) && (ok ==> data == Decode(hex))
  {
    hide Decode, Val;
    data := [];
    var j := 0;
    assert hex[0..] == hex;
    while j < |hex|
      invariant 0 <= j <= |hex| && j % 2 == 0
      invariant AllHex(hex[..j]) && data + Decode(hex[j..]) == Decode(hex)
    {
      var hi, lo := Val(hex[j]), Val(hex[j + 1]);
      if hi == -1 || lo == -1 {
        return false, data;
      }
      DecodeStep(hex, j);
      data := data + [hi * 16 + lo];
      j := j + 2;
    }
    assert hex[..j] == hex && hex[j..] == "";
    DecodeNone();
    ok := true;
  }
}
