// mp29526_stream and the routines that update it in place.  Every method is proved to
// compute the function of the same name in StreamSpec.
module StreamUpdater {
  import opened CText
  import opened VrBus
  import opened StreamSpec
  import opened StreamChunks
  import opened BatchSpec

  /** cnt_char: characters equal to c before the first NUL. */
  method CntChar(s: string, c: char) returns (cnt: nat)
    requires c != '\0'
    ensures cnt == Count(CStr(s), c)
  {
    cnt := 0;
    var i := 0;
    while i < |s| && s[i] != '\0'
      invariant i <= |s|
      invariant cnt + Count(CStr(s[i..]), c) == Count(CStr(s), c)
    {
      assert s[i..][1..] == s[i + 1..];
      assert CStr(s[i..])[1..] == CStr(s[i + 1..]);
      if s[i] == c {
        cnt := cnt + 1;
      }
      i := i + 1;
    }
  }

  /** mp29526_hex_to_bytes_msb_first. */
  method HexToBytesMsbFirst(hex: string, n: nat) returns (ok: bool, bytes: seq<byte>)
    ensures ok <==> HexOk(hex, n)
    ensures ok ==> bytes == HexBytes(hex, n)
  {
    bytes := [];
    if |hex| != 2 * n {
      return false, [];
    }
    for i := 0 to n
      invariant bytes == HexBytes(hex, n)[..i]
    {
      bytes := bytes + [ToU8(Strtol([hex[2 * i], hex[2 * i + 1]], 16))];
    }
    return true, bytes;
  }

  /** The payload loop of both block branches: length byte, then the bytes reversed. */
  method PayloadOf(bytes: seq<byte>) returns (payload: seq<byte>)
    requires |bytes| < 256
    ensures payload == BlockPayload(bytes)
    ensures var n := |bytes|;
            |payload| == n + 1 && payload[0] == n && forall j :: 1 <= j <= n ==> payload[j] == bytes[n - j]
  {
    payload := [|bytes|];
    for i := 0 to |bytes|
      invariant payload == BlockPayload(bytes)[..i + 1]
      invariant payload[0] == |bytes| && forall j :: 1 <= j <= i ==> payload[j] == bytes[|bytes| - j]
    {
      payload := payload + [bytes[|bytes| - 1 - i]];
    }
  }

  /** mp29526_parse_group_page. */
  method ParseGroupPage(s: string) returns (ok: bool, group: Group, page: byte)
    ensures ok <==> GroupPageOk(s)
    ensures ok ==> group == GroupOf(s) && page == PageOf(s)
  {
    group, page := 0, 0;
    if |s| == 0 || |s| > 3 {
      return false, 0, 0;
    }
    if |s| <= 2 {
      page := ToU8(Strtol(s, 16));
    } else {
      if s[0] < '0' || s[0] > '9' {
        return false, 0, 0;
      }
      group := s[0] as int - '0' as int;
      page := ToU8(Strtol(s[1..], 16));
    }
    ok := true;
  }

  /** The fields of a row once the first idx columns have been read. */
  ghost predicate ReadSoFar(row: Row, cols: seq<string>, idx: nat)
    requires idx <= |cols|
  {
    (idx > 1 ==> GroupPageOk(cols[1]) && row.group == GroupOf(cols[1]) && row.page == PageOf(cols[1])) &&
    (idx > 2 ==> row.addr == ToU16(Strtol(cols[2], 16))) &&
    (idx > 4 ==> row.name == Take(cols[4], 39)) &&
    (idx > 5 ==> row.value == Take(cols[5], 15)) &&
    (idx > 7 ==> row.tag == Take(cols[7], 7))
  }

  /** One turn of the column switch of mp29526_parse_row. */
  method ReadColumn(row: Row, k: string, idx: nat, ghost cols: seq<string>) returns (ok: bool, r: Row)
    requires idx < |cols| && cols[idx] == k && ReadSoFar(row, cols, idx)
    ensures ok <==> (idx == 1 ==> GroupPageOk(k))
    ensures ok ==> ReadSoFar(r, cols, idx + 1)
  {
    hide Strtol;
    ok, r := true, row;
    if idx == 1 {
      var group, page;
      ok, group, page := ParseGroupPage(k);
      r := r.(group := group, page := page);
    } else if idx == 2 {
      r := r.(addr := ToU16(Strtol(k, 16)));
    } else if idx == 4 {
      r := r.(name := Take(k, 39));
    } else if idx == 5 {
      r := r.(value := Take(k, 15));
    } else if idx == 7 {
      r := r.(tag := Take(k, 7));
    }
  }

  /** mp29526_parse_row, for a line with seven tabs. */
  method ParseRow(line: string) returns (ok: bool, row: Row)
    requires Count(line, '\t') == 7
    ensures ok <==> RowOf(line).Some?
    ensures ok ==> row == RowOf(line).value
  {
    hide Strtol, Split, Count, NonEmpty;
    ghost var cols := Split(line, '\t');
    ghost var toks := Tokens(line, '\t');
    SplitCount(line, '\t');
    TokensAreColumns(line, '\t');
    NonEmptyAll(cols);
    row := Row(0, 0, 0, "", "", "");
    var idx := 0;
    var tok := StrTok(line, '\t');
    while tok.Some?
      invariant idx <= |toks|
      invariant toks[idx..] == if tok.None? then [] else [tok.value.0] + Tokens(tok.value.1, '\t')
      invariant ReadSoFar(row, toks, idx)
      decreases if tok.Some? then |tok.value.1| + 1 else 0
    {
      assert toks[idx] == toks[idx..][0] == tok.value.0;
      assert toks[idx + 1..] == toks[idx..][1..] == Tokens(tok.value.1, '\t');
      ok, row := ReadColumn(row, tok.value.0, idx, toks);
      if !ok {
        assert !GroupPageOk(toks[1]);
        return;
      }
      idx := idx + 1;
      tok := StrTok(tok.value.1, '\t');
    }
    ok := idx == 8;
  }

  /** parsing_line of the whole-image path, on the slot it fills. */
  method ParsingLine(toks: seq<string>, slot: Cfg) returns (reject: bool, c: Cfg)
    ensures c == FillSlot(toks, slot) && reject == Skipped(toks)
  {
    hide Strtol;
    c := slot;
    var idx := 0;
    while idx < |toks|
      invariant idx <= |toks| && (idx > 4 ==> !Skipped(toks))
      invariant c == FillValue(toks[..idx], FillAddress(toks[..idx], slot))
    {
      var k := toks[idx];
      if idx == 1 {
        c := c.(page := Strtol(k, 16) % 16, idx := Strtol(k, 16) / 16 % 16);
      } else if idx == 2 {
        c := c.(addr := ToU8(Strtol(k, 16)));
      } else if idx == 4 {
        if StartsWith(k, "CRC") || StartsWith(k, "TRIM") {
          return true, c;
        }
      } else if idx == 5 {
        c := c.(val := ToU16(Strtol(k, 16)));
      } else if idx == 7 {
        c := c.(len := ToU8(Strtol(k, 10)));
      }
      idx := idx + 1;
    }
    assert toks[..idx] == toks;
    reject := false;
  }

  /** The inner loop of parsing_image. */
  method MeasureLine(img: string, i: nat) returns (len: nat)
    requires i <= |img|
    ensures len == LineLen(img, i)
  {
    len := 0;
    while i + len < |img| && img[i + len] != '\r' && img[i + len] != '\n'
      invariant i + len <= |img| && LineLen(img, i) == len + LineLen(img, i + len)
      decreases |img| - i - len
    {
      len := len + 1;
    }
  }

  /** parsing_image: fills the list in place and returns how many entries are in use, 0 on failure. */
  method ParsingImage(img: string, list: array<Cfg>) returns (cnt: nat)
    requires list.Length > 0
    modifies list
    ensures var p := ParseFrom(img, 0, old(list[..]), 0);
            list[..] == p.slots && cnt == (if p.ok then p.cnt else 0)
  {
    hide ParseFrom, FillSlot, Tokens, Count, CStr, LineLen;
    ghost var all := ParseFrom(img, 0, list[..], 0);
    var i := 0;
    cnt := 0;
    while i < |img|
      invariant cnt < list.Length
      invariant ParseFrom(img, i, list[..], cnt) == all
      decreases |img| - i
    {
      ghost var slots, used := list[..], cnt;
      ParseStep(img, i, slots, used);
      var len := MeasureLine(img, i);
      if len == 0 {
        i := i + 2;
        continue;
      }
      if len >= 128 {
        return 0;
      }
      var text := CStr(img[i..i + len]);
      if len == 3 && text == "END" {
        return;
      }
      var tabs := CntChar(text, '\t');
      CStrOfClean(text);
      if tabs == 7 {
        var reject, c := ParsingLine(Tokens(text, '\t'), list[cnt]);
        list[cnt] := c;
        assert list[..] == slots[used := c];
        if !reject {
          cnt := cnt + 1;
        }
      }
      if cnt >= list.Length {
        return 0;
      }
      i := i + len + 2;
    }
    ParseStep(img, i, list[..], cnt);
  }

  class Updater {
    const link: Link
    var bus: Bus
    var page: byte
    var group: Group
    var savedWp: byte
    var applied: nat
    var lineLen: nat
    const lineBuf: array<char>
    var blockCmd: byte
    var blockWant: nat
    var blockHave: nat
    const blockData: array<byte>
    var pastEnd: bool
    var aborted: bool

    ghost predicate Buffers()
      reads this
      ensures Buffers() ==> lineLen <= lineBuf.Length
    {
      lineBuf.Length == LINE_BUF_LEN && lineLen < LINE_BUF_LEN &&
      blockData.Length == BLOCK_MAX_LEN && blockHave <= blockWant <= BLOCK_MAX_LEN
    }

    /** A block run is never left complete: its last byte sends it. */
    ghost predicate Valid()
      reads this, lineBuf
    {
      Buffers() && (blockWant > 0 ==> blockHave < blockWant) &&
      '\n' !in lineBuf[..lineLen]
    }

    ghost function State(): Stream
      reads this, lineBuf, blockData
      requires Valid()
    {
      Stream(bus, page, group, savedWp, applied, lineBuf[..lineLen],
             if blockWant == 0 then NoBlock else Partial(blockCmd, blockWant, blockData[..blockHave]),
             pastEnd, aborted)
    }

    constructor (link: Link, vr: Vr)
      ensures Valid() && fresh(lineBuf) && fresh(blockData)
      ensures this.link == link && bus == Bus(vr, [])
    {
      this.link := link;
      bus := Bus(vr, []);
      lineBuf := new char[128](_ => '\0');
      blockData := new byte[32](_ => 0);
      page, group, savedWp, applied, lineLen := NO_PAGE, 0, 0, 0, 0;
      blockCmd, blockWant, blockHave := 0, 0, 0;
      pastEnd, aborted := false, false;
    }

    // --------------------------------------------------- low level access

    method Transact(op: Op) returns (ok: bool, data: seq<byte>)
      modifies this`bus
      ensures Done(bus, ok, data) == Exec(old(bus), link, op)
    {
      var d := Exec(bus, link, op);
      bus, ok, data := d.bus, d.ok, d.data;
    }

    /** mp29526_check_device_id. */
    method IdentifyDevice() returns (ok: bool)
      modifies this`bus
      ensures bus == CheckDeviceId(old(bus), link).bus && ok == CheckDeviceId(old(bus), link).ok
    {
      var data;
      ok, data := Transact(SetPage(PAGE_RAIL1));
      if !ok {
        return;
      }
      ok, data := Transact(Fetch(CMD_IC_DEVICE_ID, 9));
      if !ok {
        return;
      }
      if data[0] != 8 {
        return false;
      }
      var id: nat := 0;
      var i := 8;
      while i >= 1
        invariant 0 <= i <= 8
        invariant id == IdValue(data[i + 1..])
      {
        assert data[i..][1..] == data[i + 1..];
        id := id * 256 + data[i];
        i := i - 1;
      }
      ok := id == 0x2020323934323620 || id == 0x2020323935323920 || id == 0x2020323935323620;
    }

    /** mp29526_get_write_protect. */
    method ReadProtection() returns (ok: bool, data: seq<byte>)
      modifies this`bus
      ensures Done(bus, ok, data) == GetWriteProtect(old(bus), link)
    {
      ok, data := Transact(SetPage(PAGE_RAIL1));
      if !ok {
        return;
      }
      ok, data := Transact(Fetch(CMD_WRITE_PROTECT, 1));
    }

    /** mp29526_set_write_protect. */
    method WriteProtection(wp: byte) returns (ok: bool)
      modifies this`bus
      ensures bus == SetWriteProtect(old(bus), link, wp).bus && ok == SetWriteProtect(old(bus), link, wp).ok
    {
      var data;
      ok, data := Transact(SetPage(PAGE_RAIL1));
      if !ok {
        return;
      }
      if wp != 0x00 && wp != 0x80 && wp != 0x40 && wp != 0x20 && wp != 0x01 {
        return false;
      }
      ok, data := Transact(Send(CMD_WRITE_PROTECT, [wp], Driver));
      if !ok {
        return;
      }
      ok, data := ReadProtection();
      if !ok {
        return;
      }
      ok := data[0] == wp;
    }

    /** mp29526_check_nvm_status. */
    method NvmStatus() returns (ok: bool)
      modifies this`bus
      ensures bus == CheckNvmStatus(old(bus), link).bus && ok == CheckNvmStatus(old(bus), link).ok
    {
      var data;
      ok, data := Transact(SetPage(PAGE_RAIL1));
      if !ok {
        return;
      }
      ok, data := Transact(Fetch(CMD_STATUS_CML, 1));
      if !ok {
        return;
      }
      ok := data[0] / 16 % 2 == 0 && data[0] / 32 % 2 == 0;
    }

    /** mp29526_get_fw_version, whose result the update only logs. */
    method ReadFwVersion()
      modifies this`bus
      ensures bus == GetFwVersion(old(bus), link)
    {
      var ok, data := Transact(SetPage(PAGE_RAIL1));
      if ok {
        ok, data := Transact(Fetch(CMD_EXPECTED_USER_CRC, 5));
      }
    }

    // ------------------------------------------------------------- groups

    /** mp29526_stream_store_and_verify. */
    method StoreVerify() returns (ok: bool)
      requires Valid()
      modifies this`bus, this`page
      ensures Valid() && Outcome(State(), ok) == StoreAndVerify(old(State()), link)
    {
      hide Exec, GetFwVersion, CheckNvmStatus;
      var data;
      ok, data := Transact(SetPage(PAGE_RAIL1));
      if !ok {
        return;
      }
      page := PAGE_RAIL1;
      ok, data := Transact(Send(CMD_STORE_USER, [], Driver));
      if !ok {
        return;
      }
      ReadFwVersion();
      ok, data := Transact(Send(CMD_RESTORE_USER, [], Driver));
      if !ok {
        return;
      }
      ok := NvmStatus();
      page := PAGE_RAIL1;
    }

    /** mp29526_stream_switch_group. */
    method ChangeGroup(newGroup: Group) returns (ok: bool)
      requires Valid()
      modifies this`bus, this`page, this`group
      ensures Valid() && Outcome(State(), ok) == SwitchGroup(old(State()), link, newGroup)
    {
      hide StoreAndVerify, Exec;
      if newGroup == group {
        return true;
      }
      if group != 0 {
        ok := StoreVerify();
        if !ok {
          return;
        }
      }
      if newGroup != 0 {
        var data;
        ok, data := Transact(SetPage(PAGE_MFR_ALL));
        if !ok {
          return;
        }
        page := PAGE_MFR_ALL;
        var sel: byte := 0x08 + (newGroup - 1);
        ok, data := Transact(Send(CMD_MULTICFG_SEL, [sel], Driver));
        if !ok {
          return;
        }
      }
      group := newGroup;
      ok := true;
    }

    // -------------------------------------------------------------- blocks

    /** mp29526_stream_flush_block; origin is the row on whose behalf a complete block goes out. */
    method FlushBlock(origin: Origin) returns (ok: bool)
      requires Buffers()
      modifies this`bus, this`applied, this`blockWant, this`blockHave
      ensures Buffers()
      ensures old(blockWant) == 0 || old(blockHave) != old(blockWant) ==>
                ok == (old(blockWant) == 0) && bus == old(bus) && applied == old(applied) &&
                blockWant == old(blockWant) && blockHave == old(blockHave)
      ensures old(blockWant) != 0 && old(blockHave) == old(blockWant) ==>
                blockWant == 0 && blockHave == 0 &&
                var w := Exec(old(bus), link, Send(blockCmd, BlockPayload(old(blockData[..blockWant])), origin));
                bus == w.bus && ok == w.ok && applied == old(applied) + if ok then 1 else 0
    {
      if blockWant == 0 {
        return true;
      }
      if blockHave != blockWant {
        return false;
      }
      var payload := PayloadOf(blockData[..blockWant]);
      var data;
      ok, data := Transact(Send(blockCmd, payload, origin));
      if ok {
        applied := applied + 1;
      }
      blockWant := 0;
      blockHave := 0;
    }

    /** A write on behalf of a row, counted when it succeeds. */
    method WriteRow(row: Row, cmd: byte, data: seq<byte>, indexed: bool) returns (ok: bool)
      requires Valid()
      modifies this`bus, this`applied
      ensures Valid() && Outcome(State(), ok) == SendRow(old(State()), link, row, cmd, data, indexed)
    {
      var d;
      ok, d := Transact(Send(cmd, data, FromRow(row.group, row.page, indexed)));
      if ok {
        applied := applied + 1;
      }
    }

    /** Appends one byte to the open run and sends the run once it is complete. */
    method PushByte(row: Row, value: byte) returns (ok: bool)
      requires Valid() && blockWant > 0
      modifies this, blockData
      ensures Valid() && Outcome(State(), ok) == AddByte(old(State()), link, row, value)
    {
      hide BlockPayload;
      ghost var s := State();
      ghost var got := s.block.got + [value];
      blockData[blockHave] := value;
      blockHave := blockHave + 1;
      assert blockData[..blockHave] == got;
      ok := true;
      if blockHave == blockWant {
        assert blockData[..blockWant] == got;
        ok := FlushBlock(FromRow(row.group, row.page, false));
      }
    }

    /** An open block for this command and length: the one under way, or a new one. */
    method OpenBlock(cmd: byte, n: nat)
      requires Valid() && 4 < n <= BLOCK_MAX_LEN
      modifies this
      ensures Valid() && blockWant > 0 && State() == old(State()).(block := StartBlock(old(State()).block, cmd, n))
    {
      if blockWant != 0 && (blockCmd != cmd || blockWant != n) {
        blockWant := 0;
        blockHave := 0;
      }
      if blockWant == 0 {
        blockCmd := cmd;
        blockWant := n;
        blockHave := 0;
      }
    }

    /** The block branch for runs longer than four bytes. */
    method TakePiece(row: Row, cmd: byte, n: nat) returns (ok: bool)
      requires Valid() && 4 < n <= BLOCK_MAX_LEN
      requires Classify(row) == Piece(cmd, n, if HexOk(row.value, 1) then Some(HexByte(row.value, 0)) else None)
      modifies this, blockData
      ensures Valid() && Outcome(State(), ok) == Act(old(State()), link, row)
    {
      hide Classify, Strtol, BlockPayload, StartBlock, AddByte, SendRow, Exec;
      OpenBlock(cmd, n);
      var bytes;
      ok, bytes := HexToBytesMsbFirst(row.value, 1);
      if !ok {
        return;
      }
      assert bytes[0] == HexByte(row.value, 0);
      ok := PushByte(row, bytes[0]);
    }

    // ---------------------------------------------------------------- rows

    /** The process-call branch. */
    method SendCall(row: Row) returns (ok: bool)
      requires Valid() && IsCallTag(row.tag)
      modifies this, blockData
      ensures Valid() && Outcome(State(), ok) == Act(old(State()), link, row)
    {
      hide Strtol, Exec, SendRow;
      ok := FlushBlock(Driver);
      if !ok {
        return;
      }
      var bytes;
      ok, bytes := HexToBytesMsbFirst(row.value, 1);
      if !ok {
        return;
      }
      ok := WriteRow(row, row.addr / 256 % 256, [row.addr % 256, bytes[0]], true);
    }

    /** The block branch for up to four bytes in one row. */
    method SendShort(row: Row, cmd: byte, n: nat) returns (ok: bool)
      requires Valid() && 0 < n <= 4
      requires Classify(row) == if HexOk(row.value, n) then Whole(cmd, BlockPayload(HexBytes(row.value, n)), false) else Reject
      modifies this, blockData
      ensures Valid() && Outcome(State(), ok) == Act(old(State()), link, row)
    {
      hide Classify, Strtol, Exec, SendRow, BlockPayload, HexBytes;
      ok := FlushBlock(Driver);
      if !ok {
        return;
      }
      var bytes;
      ok, bytes := HexToBytesMsbFirst(row.value, n);
      if !ok {
        return;
      }
      var payload := PayloadOf(bytes);
      ok := WriteRow(row, cmd, payload, false);
    }

    /** The tag cascade of mp29526_stream_apply_row. */
    method Dispatch(row: Row) returns (ok: bool)
      requires Valid()
      modifies this, blockData
      ensures Valid() && Outcome(State(), ok) == Act(old(State()), link, row)
    {
      hide Strtol, Exec, BlockPayload, SendRow, HexBytes;
      assert StartsWith(row.tag, "B") <==> row.tag != "" && row.tag[0] == 'B';
      if row.tag == "1" || row.tag == "2" {
        var len := if row.tag == "1" then 1 else 2;
        var val := ToU16(Strtol(row.value, 16));
        ok := WriteRow(row, row.addr % 256, [val % 256, val / 256 % 256][..len], false);
      } else if row.tag == "P1" || row.tag == "P2" || row.tag == "BP1" {
        ok := SendCall(row);
      } else if row.tag != "" && row.tag[0] == 'B' {
        var n := ToU8(Strtol(row.tag[1..], 10));
        if n == 0 || n > BLOCK_MAX_LEN {
          return false;
        }
        if n <= 4 {
          ok := SendShort(row, row.addr % 256, n);
        } else {
          ok := TakePiece(row, row.addr % 256, n);
        }
      } else {
        ok := true;
      }
    }

    /** mp29526_stream_apply_row. */
    method ProcessRow(row: Row) returns (ok: bool)
      requires Valid()
      modifies this, blockData
      ensures Valid() && Outcome(State(), ok) == ApplyRow(old(State()), link, row)
    {
      hide SwitchGroup, Act;
      if StartsWith(row.name, "CRC") || StartsWith(row.name, "TRIM") {
        return true;
      }
      if row.group != group {
        ok := FlushBlock(Driver);
        if !ok {
          return;
        }
      }
      ok := ChangeGroup(row.group);
      if !ok {
        return;
      }
      if row.page != page {
        var data;
        ok, data := Transact(SetPage(row.page));
        if !ok {
          return;
        }
        page := row.page;
      }
      ok := Dispatch(row);
    }

    // --------------------------------------------------------------- lines

    /** The END branch of mp29526_stream_apply_line. */
    method ReachEnd() returns (ok: bool)
      requires Valid()
      modifies this
      ensures Valid() && Outcome(State(), ok) == Finish(old(State()), link)
    {
      hide StoreAndVerify;
      ok := FlushBlock(Driver);
      if ok && !(group == 0 && applied == 0) {
        ok := StoreVerify();
      }
      pastEnd := true;
    }

    /** mp29526_stream_apply_line: consumes the line buffer. */
    method ProcessLine() returns (ok: bool)
      requires Valid()
      modifies this, lineBuf, blockData
      ensures Valid() && Outcome(State(), ok) == ApplyLine(old(State()), link, old(lineBuf[..lineLen]))
    {
      assert Count("", '\t') == 0;
      hide ApplyRow, Finish, RowOf, Count, CStr;
      ghost var raw := lineBuf[..lineLen];
      ghost var s := State().(line := "");
      if lineLen == 0 {
        assert CStr(StripCr(raw)) == "";
        assert State() == s;
        return true;
      }
      var len := lineLen;
      if lineBuf[len - 1] == '\r' {
        len := len - 1;
      }
      lineBuf[len] := '\0';
      lineLen := 0;
      assert lineBuf[..len] == StripCr(raw);
      assert State() == s;
      if len == 0 {
        return true;
      }
      var text := CStr(lineBuf[..len]);
      if pastEnd {
        return true;
      }
      if text == "END" {
        ok := ReachEnd();
        return;
      }
      var tabs := CntChar(text, '\t');
      CStrOfClean(text);
      if tabs != 7 {
        return true;
      }
      var row;
      ok, row := ParseRow(text);
      if !ok {
        return;
      }
      ok := ProcessRow(row);
    }

    /** mp29526_stream_consume. */
    method Consume(data: string) returns (ok: bool)
      requires Valid()
      modifies this, lineBuf, blockData
      ensures Valid() && Outcome(State(), ok) == Feed(old(State()), link, old(State()).line + data)
    {
      hide ApplyLine, IndexOf, Feed;
      ghost var s0 := State();
      assert s0.line + data == s0.line + data[0..];
      var i := 0;
      while i < |data|
        invariant i <= |data| && Valid()
        invariant Feed(State(), link, State().line + data[i..]) == Feed(s0, link, s0.line + data)
      {
        var c := data[i];
        ghost var s := State();
        ghost var text := s.line + data[i..];
        assert text[|s.line|] == c && text[|s.line| + 1..] == data[i + 1..];
        if c == '\n' {
          FeedLine(s, link, s.line, data[i + 1..], text);
          ok := ProcessLine();
          if !ok {
            return;
          }
          assert State().line + data[i + 1..] == data[i + 1..];
        } else {
          if lineLen >= LINE_BUF_LEN - 1 {
            FeedLong(s, link, s.line, c, data[i + 1..], text);
            return false;
          }
          lineBuf[lineLen] := c;
          lineLen := lineLen + 1;
          assert lineBuf[..lineLen] == s.line + [c];
          assert State() == s.(line := s.line + [c]);
          assert State().line + data[i + 1..] == text;
          FeedForgetsLine(s, link, s.line + [c], text);
        }
        i := i + 1;
      }
      assert State().line + data[i..] == State().line;
      FeedRest(State(), link, State().line);
      ok := true;
    }

    // -------------------------------------------------------------- chunks

    /** mp29526_stream_restore_wp. */
    method RestoreWp()
      requires Valid()
      modifies this`bus
      ensures Valid() && State() == RestoreProtection(old(State()), link)
    {
      hide SetWriteProtect;
      if savedWp != 0 {
        var ok := WriteProtection(savedWp);
      }
    }

    method AbortUpdate()
      requires Valid()
      modifies this`bus, this`aborted
      ensures Valid() && State() == Abort(old(State()), link).s
    {
      aborted := true;
      RestoreWp();
    }

    /** The record as a first chunk finds it. */
    method Clear()
      requires Valid()
      modifies this
      ensures Valid() && State() == Stream(old(bus), NO_PAGE, 0, 0, 0, "", NoBlock, false, false)
      ensures bus == old(bus) && savedWp == 0
    {
      lineLen, blockWant, blockHave, blockCmd := 0, 0, 0, 0;
      applied, savedWp, pastEnd, aborted := 0, 0, false, false;
      page := NO_PAGE;
      group := 0;
    }

    /** The first-chunk half of mp29526_fwupdate_stream. */
    method Start() returns (ok: bool)
      requires Valid()
      modifies this
      ensures Valid() && Outcome(State(), ok) == Begin(old(bus), link)
    {
      hide CheckDeviceId, GetWriteProtect, SetWriteProtect, Exec;
      Clear();
      ok := IdentifyDevice();
      if !ok {
        aborted := true;
        return;
      }
      var pw, data;
      pw, data := Transact(Fetch(CMD_PASSWORD, 2));
      ok, data := ReadProtection();
      if !ok {
        aborted := true;
        return;
      }
      savedWp := data[0];
      if savedWp != 0 {
        ok := WriteProtection(0);
        if !ok {
          aborted := true;
          return;
        }
      }
      pw, data := Transact(Send(CMD_CLEAR_FAULT, [], Driver));
      ok := true;
    }

    /** The last-chunk half of mp29526_fwupdate_stream. */
    method Complete() returns (ok: bool)
      requires Valid()
      modifies this
      ensures Valid() && Outcome(State(), ok) == End(old(State()), link)
    {
      hide StoreAndVerify, RestoreProtection;
      if lineLen != 0 {
        AbortUpdate();
        return false;
      }
      assert State().line == "";
      if !pastEnd {
        ok := FlushBlock(Driver);
        if ok {
          ok := StoreVerify();
        }
        if !ok {
          AbortUpdate();
          return false;
        }
      }
      if applied == 0 {
        AbortUpdate();
        return false;
      }
      RestoreWp();
      ok := true;
    }

    /** mp29526_fwupdate_stream. */
    method UpdateChunk(data: string, isFirst: bool, isLast: bool) returns (ok: bool)
      requires Valid()
      modifies this, lineBuf, blockData
      ensures Valid() && Outcome(State(), ok) == Chunk(old(State()), link, data, isFirst, isLast)
    {
      hide Begin, Feed, End, RestoreProtection;
      if isFirst {
        ok := Start();
        if !ok {
          return;
        }
      }
      if aborted {
        return false;
      }
      ok := Consume(data);
      if !ok {
        AbortUpdate();
        return false;
      }
      if isLast {
        ok := Complete();
      }
    }

    // --------------------------------------------------- whole-image update

    /** The entry loop of mp29526_do_update. */
    method WriteList(cfgs: seq<Cfg>) returns (ok: bool)
      modifies this`bus
      ensures bus == WriteEntries(old(bus), link, cfgs, NO_PAGE).bus && ok == WriteEntries(old(bus), link, cfgs, NO_PAGE).ok
    {
      hide Exec, LittleEndian;
      ghost var d := WriteEntries(bus, link, cfgs, NO_PAGE);
      var cur: byte := NO_PAGE;
      var i := 0;
      while i < |cfgs|
        invariant i <= |cfgs|
        invariant WriteEntries(bus, link, cfgs[i..], cur) == d
      {
        var c := cfgs[i];
        assert cfgs[i..][1..] == cfgs[i + 1..];
        if c.len > 2 {
          return false;
        }
        var data;
        if c.page != cur {
          cur := c.page;
          ok, data := Transact(SetPage(cur));
          if !ok {
            return;
          }
        }
        ok, data := Transact(CfgSend(c));
        if !ok {
          return;
        }
        i := i + 1;
      }
      ok := true;
    }

    /** Store, wait and status check of mp29526_do_update. */
    method StoreList() returns (ok: bool)
      modifies this`bus
      ensures bus == BatchStore(old(bus), link).bus && ok == BatchStore(old(bus), link).ok
    {
      hide CheckNvmStatus;
      var data;
      ok, data := Transact(SetPage(PAGE_RAIL1));
      if !ok {
        return;
      }
      ok, data := Transact(Send(CMD_STORE_USER, [], Driver));
      if !ok {
        return;
      }
      ok := NvmStatus();
    }

    /** mp29526_do_update. */
    method DoUpdate(cfgs: seq<Cfg>) returns (ok: bool)
      modifies this`bus
      ensures bus == BatchUpdate(old(bus), link, cfgs).bus && ok == BatchUpdate(old(bus), link, cfgs).ok
    {
      hide CheckDeviceId, GetWriteProtect, SetWriteProtect, WriteEntries, BatchStore, Exec;
      if cfgs == [] {
        return false;
      }
      ok := IdentifyDevice();
      if !ok {
        return;
      }
      var data, c;
      ok, data := ReadProtection();
      if !ok {
        return;
      }
      var saved := data[0];
      if saved != 0 {
        ok := WriteProtection(0);
        if !ok {
          return;
        }
      }
      c, data := Transact(Send(CMD_CLEAR_FAULT, [], Driver));
      ok := WriteList(cfgs);
      if ok {
        ok := StoreList();
      }
      if saved != 0 {
        var restored := WriteProtection(saved);
      }
    }

    /** mp29526_fwupdate; list is the freshly allocated, uninitialised list. */
    method UpdateImage(img: string, list: array<Cfg>) returns (ok: bool)
      requires list.Length == MAX_CFG_LEN
      modifies this`bus, list
      ensures var d := FwUpdate(old(bus), link, img, old(list[..]));
              bus == d.bus && ok == d.ok
    {
      hide ParseFrom, BatchUpdate;
      ghost var p := ParseFrom(img, 0, list[..], 0);
      var cnt := ParsingImage(img, list);
      if cnt == 0 {
        NothingToUpdate(bus, link);
        return false;
      }
      assert list[..cnt] == p.slots[..p.cnt];
      ok := DoUpdate(list[..cnt]);
    }
  }
}
