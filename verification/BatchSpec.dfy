// The whole-image configuration update of common/dev/mp29526.c (parsing_image,
// mp29526_do_update, mp29526_fwupdate) as functions on values.
module BatchSpec {
  import opened CText
  import opened VrBus
  import opened StreamSpec

  const MAX_CFG_LEN: nat := 1024

  type Nibble = x: int | 0 <= x < 16

  /** One entry of the configuration list. */
  datatype Cfg = Cfg(page: Nibble, idx: Nibble, addr: byte, val: nat, len: byte)

  // ------------------------------------------------------------------ parsing

  predicate IsReferenceName(name: string) {
    StartsWith(name, "CRC") || StartsWith(name, "TRIM")
  }

  /** The columns up to the register name. */
  function FillAddress(toks: seq<string>, slot: Cfg): Cfg {
    var a := if |toks| > 1 then slot.(page := Strtol(toks[1], 16) % 16, idx := Strtol(toks[1], 16) / 16 % 16) else slot;
    if |toks| > 2 then a.(addr := ToU8(Strtol(toks[2], 16))) else a
  }

  function FillValue(toks: seq<string>, slot: Cfg): Cfg {
    var a := if |toks| > 5 then slot.(val := ToU16(Strtol(toks[5], 16))) else slot;
    if |toks| > 7 then a.(len := ToU8(Strtol(toks[7], 10))) else a
  }

  predicate Skipped(toks: seq<string>) { |toks| > 4 && IsReferenceName(toks[4]) }

  /** parsing_line overwrites the fields it finds columns for and leaves the rest of the slot
      alone; a reference row stops at its name. */
  function FillSlot(toks: seq<string>, slot: Cfg): Cfg {
    if Skipped(toks) then FillAddress(toks, slot) else FillValue(toks, FillAddress(toks, slot))
  }

  /** Length of the line that starts at i. */
  function LineLen(img: string, i: nat): (len: nat)
    requires i <= |img|
    ensures i + len <= |img|
    ensures forall k :: i <= k < i + len ==> img[k] != '\r' && img[k] != '\n'
    ensures i + len < |img| ==> img[i + len] == '\r' || img[i + len] == '\n'
    decreases |img| - i
  {
    if i == |img| || img[i] == '\r' || img[i] == '\n' then 0 else 1 + LineLen(img, i + 1)
  }

  /** The list so far: the slots, how many are in use, and whether parsing has given up. */
  datatype Parsed = Parsed(slots: seq<Cfg>, cnt: nat, ok: bool)

  function ParseFrom(img: string, i: nat, slots: seq<Cfg>, cnt: nat): (r: Parsed)
    requires cnt < |slots|
    ensures |r.slots| == |slots| && (r.ok ==> r.cnt < |slots|)
    decreases |img| - i
  {
    if i >= |img| then Parsed(slots, cnt, true)
    else
      var len := LineLen(img, i);
      if len == 0 then ParseFrom(img, i + 2, slots, cnt)
      else if len >= 128 then Parsed(slots, 0, false)
      else
        var text := CStr(img[i..i + len]);
        if len == 3 && text == "END" then Parsed(slots, cnt, true)
        else
          var toks := Tokens(text, '\t');
          var isRow := Count(text, '\t') == 7;
          var slots' := if isRow then slots[cnt := FillSlot(toks, slots[cnt])] else slots;
          var cnt' := if isRow && !Skipped(toks) then cnt + 1 else cnt;
          if cnt' >= |slots| then Parsed(slots', 0, false)
          else ParseFrom(img, i + len + 2, slots', cnt')
  }

  /** One turn of the parsing loop. */
  lemma ParseStep(img: string, i: nat, slots: seq<Cfg>, cnt: nat)
    requires cnt < |slots|
    ensures i >= |img| ==> ParseFrom(img, i, slots, cnt) == Parsed(slots, cnt, true)
    ensures i < |img| ==>
            var len := LineLen(img, i);
            var text := CStr(img[i..i + len]);
            var isRow := Count(text, '\t') == 7;
            var slots' := if isRow then slots[cnt := FillSlot(Tokens(text, '\t'), slots[cnt])] else slots;
            var cnt' := if isRow && !Skipped(Tokens(text, '\t')) then cnt + 1 else cnt;
            ParseFrom(img, i, slots, cnt) ==
              if len == 0 then ParseFrom(img, i + 2, slots, cnt)
              else if len >= 128 then Parsed(slots, 0, false)
              else if len == 3 && text == "END" then Parsed(slots, cnt, true)
              else if cnt' >= |slots| then Parsed(slots', 0, false)
              else ParseFrom(img, i + len + 2, slots', cnt')
  {
    hide Tokens, Count, CStr, FillSlot;
  }

  // ----------------------------------------------------------------- writing

  function CfgSend(c: Cfg): (op: Op)
    requires c.len <= 2
    ensures op.Send? && op.origin.FromRow?
  {
    Send(c.addr, LittleEndian(c.val, c.len), FromRow(0, c.page, false))
  }

  /** The entry loop of mp29526_do_update, with the page selected last. */
  function WriteEntries(b: Bus, link: Link, cfgs: seq<Cfg>, page: byte): Done
    decreases |cfgs|
  {
    if cfgs == [] then Done(b, true, [])
    else
      var c := cfgs[0];
      if c.len > 2 then Done(b, false, [])
      else
        var p := if c.page != page then Exec(b, link, SetPage(c.page)) else Done(b, true, []);
        if !p.ok then p
        else
          var w := Exec(p.bus, link, CfgSend(c));
          if !w.ok then w else WriteEntries(w.bus, link, cfgs[1..], c.page)
  }

  function BatchStore(b: Bus, link: Link): Done {
    var p := Exec(b, link, SetPage(PAGE_RAIL1));
    if !p.ok then p
    else
      var w := Exec(p.bus, link, Send(CMD_STORE_USER, [], Driver));
      if !w.ok then w else CheckNvmStatus(w.bus, link)
  }

  /** The part of mp29526_do_update between switching the protection off and putting it back. */
  function BatchBody(b: Bus, link: Link, cfgs: seq<Cfg>): Done {
    var c := Exec(b, link, Send(CMD_CLEAR_FAULT, [], Driver));
    var e := WriteEntries(c.bus, link, cfgs, NO_PAGE);
    if !e.ok then e else BatchStore(e.bus, link)
  }

  /** Identity check, protection saved and switched off; the saved value is the data. */
  function BatchBegin(b: Bus, link: Link): (d: Done)
    ensures d.ok ==> |d.data| == 1
  {
    var id := CheckDeviceId(b, link);
    if !id.ok then Done(id.bus, false, [])
    else
      var g := GetWriteProtect(id.bus, link);
      if !g.ok then Done(g.bus, false, [])
      else
        var w := if g.data[0] != 0 then SetWriteProtect(g.bus, link, 0) else Done(g.bus, true, []);
        Done(w.bus, w.ok, g.data)
  }

  function BatchUpdate(b: Bus, link: Link, cfgs: seq<Cfg>): Done {
    if cfgs == [] then Done(b, false, [])
    else
      var s := BatchBegin(b, link);
      if !s.ok then Done(s.bus, false, [])
      else
        var m := BatchBody(s.bus, link, cfgs);
        Done(if s.data[0] != 0 then SetWriteProtect(m.bus, link, s.data[0]).bus else m.bus, m.ok, [])
  }

  lemma NothingToUpdate(b: Bus, link: Link)
    ensures BatchUpdate(b, link, []) == Done(b, false, [])
  {
  }

  /** The configuration list of an image, empty when parsing gives up. */
  function ListOf(img: string, slots: seq<Cfg>): seq<Cfg>
    requires |slots| == MAX_CFG_LEN
  {
    var p := ParseFrom(img, 0, slots, 0);
    if p.ok then p.slots[..p.cnt] else []
  }

  /** mp29526_fwupdate; slots is the content of the freshly allocated list. */
  function FwUpdate(b: Bus, link: Link, img: string, slots: seq<Cfg>): Done
    requires |slots| == MAX_CFG_LEN
  {
    BatchUpdate(b, link, ListOf(img, slots))
  }
}
