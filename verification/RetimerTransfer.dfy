// The PLDM transfer that feeds the PT5161L update: the requests of pldm_retimer_update in
// common/service/pldm/pldm_firmware_update.c, and what a transfer leaves in the EEPROM.
module RetimerTransfer {
  import opened CText
  import PldmTransfer
  import PldmDriver
  import opened Retimer

  /** The next_len arithmetic of pldm_retimer_update: what is left of the image, at most a buffer,
      and not beyond the sector. */
  function NextLen(size: nat, buf: nat, next: nat): (n: nat)
    requires buf > 0
    ensures next < size ==> 0 < n <= buf && next + n <= size && next % SECTOR + n <= SECTOR
  {
    if next >= size then 0
    else
      var n := if next + buf > size then size - next else buf;
      if next % SECTOR + n > SECTOR then SECTOR - next % SECTOR else n
  }

  /** What the update agent sends for a range: image bytes, zeros where there are none. */
  function Serve(image: seq<byte>, ofs: nat, len: nat): (s: seq<byte>)
    ensures |s| == len
  {
    seq(len, i requires 0 <= i < len => if ofs + i < |image| then image[ofs + i] else 0)
  }

  /** The messages of a transfer from one request on. */
  function MessagesFrom(image: seq<byte>, buf: nat, ofs: nat, len: nat): seq<Message>
    requires buf > 0 && len > 0
    decreases |image| - ofs
  {
    var next := ofs + len;
    [Message(ofs, Serve(image, ofs, len), next >= |image|)] +
    (if next >= |image| then [] else MessagesFrom(image, buf, next, NextLen(|image|, buf, next)))
  }

  function Messages(image: seq<byte>, buf: nat): seq<Message>
    requires image != [] && buf > 0
  {
    MessagesFrom(image, buf, 0, PldmTransfer.FirstLen(|image|, buf))
  }

  lemma {:induction false} MessagesFromFit(image: seq<byte>, buf: nat, ofs: nat, len: nat)
    requires buf > 0 && 0 < len && ofs % SECTOR + len <= SECTOR && ofs < |image|
    ensures var ms := MessagesFrom(image, buf, ofs, len);
            Contiguous(ms, ofs) &&
            Payload(ms) == image[ofs..] + Zeros(if ofs + len > |image| then ofs + len - |image| else 0)
    decreases |image| - ofs
  {
    var next := ofs + len;
    var ms := MessagesFrom(image, buf, ofs, len);
    var m := Message(ofs, Serve(image, ofs, len), next >= |image|);
    if next >= |image| {
      assert ms == [m] && Payload(ms[1..]) == [];
      assert Serve(image, ofs, len) == image[ofs..] + Zeros(next - |image|);
    } else {
      var rest := MessagesFrom(image, buf, next, NextLen(|image|, buf, next));
      MessagesFromFit(image, buf, next, NextLen(|image|, buf, next));
      assert ms[1..] == rest;
      assert Serve(image, ofs, len) + image[next..] == image[ofs..];
      assert Payload(ms) == Serve(image, ofs, len) + (image[next..] + Zeros(0));
    }
  }

  /** The messages of a transfer continue each other from offset 0, never cross a sector, only
      the last ends the image, and together are the image with the tolerated padding, for every
      buffer up to a sector, the size the buffer is capped to. */
  lemma MessagesAreContiguous(image: seq<byte>, buf: nat)
    requires image != [] && 0 < buf <= SECTOR
    ensures var ms := Messages(image, buf);
            Contiguous(ms, 0) && Payload(ms) == image + Zeros(PldmTransfer.Padding(|image|, buf))
  {
    MessagesFromFit(image, buf, 0, PldmTransfer.FirstLen(|image|, buf));
    assert image[0..] == image;
  }

  /** Each message of a contiguous run finds room, whatever came before it in step. */
  predicate AllRoom(st: Static, rom: Rom, ms: seq<Message>)
    decreases |ms|
  {
    ms == [] || (Room(st, ms[0]) && AllRoom(Accept(st, rom, ms[0]).0, Accept(st, rom, ms[0]).1, ms[1..]))
  }

  lemma RoomInSector(st: Static, m: Message)
    requires InStep(st, m.ofs) && m.ofs % SECTOR + |m.data| <= SECTOR
    ensures Room(st, m)
    ensures !m.end ==> InStep(Accept(st, map[], m).0, m.ofs + |m.data|)
  {
    hide Burn;
    var start := if st.active then st.start else m.ofs;
    var buf := (if st.active then st.buf else []) + m.data;
    SectorOffset(start, if st.active then |st.buf| else 0);
    assert |buf| <= SECTOR && |Outgoing(buf, m.end)| <= SECTOR;
    SectorInPage(start);
  }

  lemma SectorInPage(start: nat)
    requires start % SECTOR == 0
    ensures start % PAGE_64K + SECTOR <= PAGE_64K
  {
    assert start == SECTOR * (start / SECTOR);
    assert start % PAGE_64K == start - PAGE_64K * (start / PAGE_64K);
    assert start % PAGE_64K == SECTOR * (start / SECTOR - 256 * (start / PAGE_64K));
  }

  lemma {:induction false} ContiguousFits(st: Static, rom: Rom, ms: seq<Message>, ofs: nat)
    requires Contiguous(ms, ofs) && InStep(st, ofs)
    ensures AllRoom(st, rom, ms)
    decreases |ms|
  {
    hide Burn, Room, InStep;
    var m := ms[0];
    RoomInSector(st, m);
    if |ms| > 1 {
      assert Accept(st, rom, m).0 == Accept(st, map[], m).0;
      ContiguousFits(Accept(st, rom, m).0, Accept(st, rom, m).1, ms[1..], ofs + |m.data|);
    }
  }

  /** A transfer as a whole.  Where every message succeeds, whatever the buffer size, the EEPROM
      holds the image from address 0 on, zeros up to a whole block and for the padding, and
      every other byte as it was; and no message ever lacks room. */
  lemma TransferLeavesImage(image: seq<byte>, buf: nat, st: Static, rom: Rom, k: nat)
    requires image != [] && 0 < buf <= SECTOR && !st.active && |image| <= MAX_OFFSET
    ensures var ms := Messages(image, buf);
            var after, end := AcceptAll(st, rom, ms).1, |Padded(image + Zeros(PldmTransfer.Padding(|image|, buf)))|;
            AllRoom(st, rom, ms) && |image| <= end &&
            if k < end then k in after && after[k] == (if k < |image| then image[k] else 0)
            else (k in after <==> k in rom) && (k in rom ==> after[k] == rom[k])
  {
    hide Padded, AcceptAll, Contiguous, Payload, MessagesFrom, AllRoom;
    var ms := Messages(image, buf);
    MessagesAreContiguous(image, buf);
    ContiguousFits(st, rom, ms, 0);
    ImageExact(st, rom, ms, k);
  }

  /** The requesting loop on the updater, for an update agent that answers every request in full. */
  method RunTransfer(u: RetimerUpdater, image: seq<byte>, buf: nat) returns (ok: bool)
    requires CoreOk(u.core) && InStep(u.still, 0) && image != [] && 0 < buf <= SECTOR
    modifies u
    ensures CoreOk(u.core)
    ensures ok ==> (u.still, u.core.rom) == AcceptAll(old(u.still), old(u.core).rom, Messages(image, buf))
    ensures u.Healthy() ==> ok
  {
    hide Accept, Contiguous, Room;
    ghost var all := AcceptAll(u.still, u.core.rom, Messages(image, buf));
    MessagesAreContiguous(image, buf);
    ContiguousFits(u.still, u.core.rom, Messages(image, buf), 0);
    var ofs, len := 0, buf;
    while true
      invariant CoreOk(u.core) && ofs < |image| && 0 < len <= buf
      invariant ofs == 0 ==> len == buf
      invariant ofs > 0 ==> ofs + len <= |image|
      invariant var ms := MessagesFrom(image, buf, ofs, if ofs == 0 then PldmTransfer.FirstLen(|image|, buf) else len);
                AcceptAll(u.still, u.core.rom, ms) == all && AllRoom(u.still, u.core.rom, ms)
      decreases |image| - ofs
    {
      var reqLen, expectLen := PldmDriver.AdjustRequest(ofs, len, |image|, buf);
      var resp := Serve(image, ofs, reqLen);
      assert resp[..expectLen] == Serve(image, ofs, expectLen);
      ghost var ms := MessagesFrom(image, buf, ofs, expectLen);
      var next := ofs + expectLen;
      var last := next >= |image|;
      assert ms[0] == Message(ofs, resp[..expectLen], last);
      assert ms[1..] == if last then [] else MessagesFrom(image, buf, next, NextLen(|image|, buf, next));
      ghost var was := (u.still, u.core.rom);
      ghost var burnt;
      var status;
      status, burnt := u.FwUpdate(Message(ofs, resp[..expectLen], last));
      if !status.Success? {
        return false;
      }
      if last {
        return true;
      }
      ofs, len := next, NextLen(|image|, buf, next);
    }
  }
}
