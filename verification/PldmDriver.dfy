// mp29526_pldm_update and the requesting loop that calls it, on the streaming updater.
module PldmDriver {
  import opened StreamSpec
  import opened StreamUpdater
  import opened PldmTransfer

  /** mp29526_pldm_update: chunk bookkeeping, then the chunk itself. */
  method PldmUpdate(u: Updater, ofs: nat, data: string, size: nat, buf: nat)
    returns (status: nat, nextOfs: nat, nextLen: nat)
    requires u.Valid()
    modifies u, u.lineBuf, u.blockData
    ensures u.Valid()
    ensures Outcome(u.State(), status == 0) == Chunk(old(u.State()), u.link, data, ofs == 0, ofs + |data| >= size)
    ensures nextOfs == ofs + |data| && nextLen == NextLen(size, buf, nextOfs)
  {
    hide Chunk;
    var isFirst := ofs == 0;
    nextOfs := ofs + |data|;
    nextLen := buf;
    var isLast := nextOfs >= size;
    if !isLast {
      if nextOfs + nextLen > size {
        nextLen := size - nextOfs;
      }
    } else {
      nextLen := 0;
    }
    var ok := u.UpdateChunk(data, isFirst, isLast);
    status := if ok then 0 else 1;
  }

  /** The request-length adjustment of the requesting loop: what is asked for on the wire and
      how many of the bytes are handed on. */
  method AdjustRequest(ofs: nat, len: nat, size: nat, buf: nat) returns (reqLen: nat, expectLen: nat)
    requires ofs < size && len <= buf && buf > 0
    ensures expectLen == (if ofs + len > size + 32 then size - ofs else len)
    ensures reqLen == (if expectLen < 32 then 32 else expectLen)
  {
    reqLen, expectLen := len, len;
    if ofs + reqLen > size + BASELINE {
      reqLen := size - ofs;
      expectLen := reqLen;
    }
    if reqLen <= BASELINE {
      reqLen := BASELINE;
    } else if reqLen > buf {
      reqLen := buf;
      expectLen := reqLen;
    } else {
      expectLen := reqLen;
    }
  }

  /** The requesting loop, for an update agent that answers every request in full. */
  method RunTransfer(u: Updater, image: string, buf: nat) returns (ok: bool)
    requires u.Valid() && buf > 0 && image != ""
    modifies u, u.lineBuf, u.blockData
    ensures u.Valid()
    ensures Outcome(u.State(), ok) == Transfer(old(u.State()), u.link, image, buf)
  {
    hide Chunk;
    ghost var all := Transfer(u.State(), u.link, image, buf);
    var ofs, len := 0, buf;
    while true
      invariant u.Valid() && ofs < |image| && 0 < len <= buf
      invariant ofs == 0 ==> len == buf
      invariant ofs > 0 ==> ofs + len <= |image|
      invariant TransferFrom(u.State(), u.link, image, buf,
                             Request(ofs, if ofs == 0 then FirstLen(|image|, buf) else len)) == all
      decreases |image| - ofs
    {
      var reqLen, expectLen := AdjustRequest(ofs, len, |image|, buf);
      var resp := Serve(image, Request(ofs, reqLen));
      assert resp[..expectLen] == Serve(image, Request(ofs, expectLen));
      var status, nextOfs, nextLen := PldmUpdate(u, ofs, resp[..expectLen], |image|, buf);
      if status != 0 {
        return false;
      }
      if nextLen == 0 {
        return true;
      }
      ofs, len := nextOfs, nextLen;
    }
  }
}
