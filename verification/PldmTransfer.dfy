// The PLDM transfer that feeds the streaming update: which byte ranges are requested
// (mp29526_pldm_update) and what the requesting loop of
// common/service/pldm/pldm_firmware_update.c hands over.
module PldmTransfer {
  import opened CText
  import opened VrBus
  import opened StreamSpec
  import opened StreamChunks
  import opened StreamPlan

  /** Padding the update agent tolerates beyond the image, and the smallest request. */
  const BASELINE: nat := 32

  /** One honoured request: offset, bytes handed to the update, and what follows it. */
  datatype Request = Request(ofs: nat, len: nat)

  /** Length of the first request: the buffer size, unless that overshoots the image by more
      than the tolerated padding. */
  function FirstLen(size: nat, buf: nat): nat {
    if buf > size + BASELINE then size else buf
  }

  /** The next_len arithmetic of mp29526_pldm_update. */
  function NextLen(size: nat, buf: nat, nextOfs: nat): nat {
    if nextOfs >= size then 0
    else if nextOfs + buf > size then size - nextOfs
    else buf
  }

  /** All requests of a transfer from a given one on. */
  function RequestsFrom(size: nat, buf: nat, r: Request): seq<Request>
    requires buf > 0 && r.len > 0
    decreases size - r.ofs
  {
    var n := NextLen(size, buf, r.ofs + r.len);
    [r] + (if n == 0 then [] else RequestsFrom(size, buf, Request(r.ofs + r.len, n)))
  }

  function Requests(size: nat, buf: nat): seq<Request>
    requires buf > 0 && size > 0
  {
    RequestsFrom(size, buf, Request(0, FirstLen(size, buf)))
  }

  /** What the update agent sends for a range: image bytes, NUL where there are none. */
  function Serve(image: string, r: Request): (s: string)
    ensures |s| == r.len
  {
    seq(r.len, i requires 0 <= i < r.len => if r.ofs + i < |image| then image[r.ofs + i] else '\0')
  }

  function Chunks(image: string, rs: seq<Request>): (cs: seq<string>)
    ensures |cs| == |rs|
  {
    if rs == [] then [] else [Serve(image, rs[0])] + Chunks(image, rs[1..])
  }

  /** Bytes of padding handed to the update after the image. */
  function Padding(size: nat, buf: nat): nat {
    if size < buf <= size + BASELINE then buf - size else 0
  }

  function Nuls(n: nat): (s: string)
    ensures |s| == n && forall i :: 0 <= i < n ==> s[i] == '\0'
  {
    seq(n, i => '\0')
  }

  /** The transfer: one update call per request until one fails or none follows. */
  function TransferFrom(s: Stream, link: Link, image: string, buf: nat, r: Request): Outcome
    requires buf > 0 && r.len > 0
    decreases |image| - r.ofs
  {
    var nextOfs := r.ofs + r.len;
    var c := Chunk(s, link, Serve(image, r), r.ofs == 0, nextOfs >= |image|);
    if !c.ok || NextLen(|image|, buf, nextOfs) == 0 then c
    else TransferFrom(c.s, link, image, buf, Request(nextOfs, NextLen(|image|, buf, nextOfs)))
  }

  function Transfer(s: Stream, link: Link, image: string, buf: nat): Outcome
    requires buf > 0 && image != ""
  {
    TransferFrom(s, link, image, buf, Request(0, FirstLen(|image|, buf)))
  }

  // ------------------------------------------------------------------ tiling

  /** Back-to-back requests, each inside the image and no longer than the buffer, that end
      where the image ends. */
  predicate Tiles(rs: seq<Request>, from: nat, size: nat, buf: nat) {
    if rs == [] then from >= size
    else
      from < size && rs[0].ofs == from && 0 < rs[0].len <= buf && from + rs[0].len <= size &&
      Tiles(rs[1..], from + rs[0].len, size, buf)
  }

  lemma {:induction false} RequestsFromTile(size: nat, buf: nat, r: Request)
    requires buf > 0 && r.len > 0 && r.ofs < size
    ensures Tiles(RequestsFrom(size, buf, r)[1..], r.ofs + r.len, size, buf)
    decreases size - r.ofs
  {
    var n := NextLen(size, buf, r.ofs + r.len);
    if n != 0 {
      var next := Request(r.ofs + r.len, n);
      RequestsFromTile(size, buf, next);
      assert RequestsFrom(size, buf, r)[1..] == RequestsFrom(size, buf, next);
    }
  }

  /** Tiling: the honoured requests cover the image once, in order and without a gap; only the
      first can go beyond it, by the padding. */
  lemma RequestsTile(size: nat, buf: nat)
    requires buf > 0 && size > 0
    ensures var rs := Requests(size, buf);
            rs[0].ofs == 0 && rs[0].len <= size + Padding(size, buf) &&
            Tiles(rs[1..], rs[0].len, size, buf)
  {
    RequestsFromTile(size, buf, Request(0, FirstLen(size, buf)));
  }

  /** A request served from the middle of the image. */
  lemma ServeInside(image: string, r: Request)
    requires r.ofs + r.len <= |image|
    ensures Serve(image, r) + image[r.ofs + r.len..] == image[r.ofs..]
  {
  }

  lemma ServeLast(image: string, r: Request)
    requires r.ofs <= |image| <= r.ofs + r.len
    ensures Serve(image, r) == image[r.ofs..] + Nuls(r.ofs + r.len - |image|)
  {
  }

  lemma {:induction false} ChunksStep(image: string, buf: nat, r: Request)
    requires buf > 0 && r.len > 0 && r.ofs < |image|
    ensures var n := NextLen(|image|, buf, r.ofs + r.len);
            Concat(Chunks(image, RequestsFrom(|image|, buf, r))) ==
            Serve(image, r) + (if n == 0 then "" else Concat(Chunks(image, RequestsFrom(|image|, buf, Request(r.ofs + r.len, n)))))
  {
    hide Serve;
    var n := NextLen(|image|, buf, r.ofs + r.len);
    var rs := RequestsFrom(|image|, buf, r);
    var rest := if n == 0 then [] else RequestsFrom(|image|, buf, Request(r.ofs + r.len, n));
    assert rs[1..] == rest;
    assert Chunks(image, rs)[1..] == Chunks(image, rest);
    assert rest == [] ==> Concat(Chunks(image, rest)) == "";
  }

  lemma {:induction false} ChunksFrom(image: string, buf: nat, r: Request)
    requires buf > 0 && r.len > 0 && r.ofs < |image|
    ensures Concat(Chunks(image, RequestsFrom(|image|, buf, r))) ==
            image[r.ofs..] + Nuls(if r.ofs + r.len > |image| then r.ofs + r.len - |image| else 0)
    decreases |image| - r.ofs
  {
    hide Serve, Chunks, Concat, RequestsFrom, Nuls;
    ChunksStep(image, buf, r);
    var n := NextLen(|image|, buf, r.ofs + r.len);
    if n != 0 {
      ServeInside(image, r);
      ChunksFrom(image, buf, Request(r.ofs + r.len, n));
      assert Nuls(0) == "";
    } else {
      ServeLast(image, r);
      assert Serve(image, r) + "" == Serve(image, r);
    }
  }

  /** The chunks of a transfer are the image, each byte once, followed by padding exactly when
      the buffer overshoots the image by at most the tolerated amount. */
  lemma {:induction false} ChunksAreTheImage(image: string, buf: nat)
    requires buf > 0 && image != ""
    ensures Concat(Chunks(image, Requests(|image|, buf))) == image + Nuls(if |image| < buf <= |image| + 32 then buf - |image| else 0)
  {
    hide Chunks, Concat, RequestsFrom, Nuls;
    ChunksFrom(image, buf, Request(0, FirstLen(|image|, buf)));
    assert image[0..] == image;
  }

  lemma {:induction false} TransferIsResume(s: Stream, link: Link, image: string, buf: nat, r: Request)
    requires buf > 0 && r.len > 0 && 0 < r.ofs < |image|
    ensures TransferFrom(s, link, image, buf, r) == Resume(s, link, Chunks(image, RequestsFrom(|image|, buf, r)))
    decreases |image| - r.ofs
  {
    hide Feed, End, Abort;
    var n := NextLen(|image|, buf, r.ofs + r.len);
    var rs := RequestsFrom(|image|, buf, r);
    var cs := Chunks(image, rs);
    assert n == 0 <==> r.ofs + r.len >= |image|;
    if n != 0 {
      var next := Request(r.ofs + r.len, n);
      assert rs[1..] == RequestsFrom(|image|, buf, next);
      assert cs[1..] == Chunks(image, rs[1..]);
      var c := Chunk(s, link, cs[0], false, false);
      TransferIsResume(c.s, link, image, buf, next);
      if !c.ok {
        AbortAborts(s, link, cs[0]);
        AbortedDrops(c.s, link, cs[1..]);
      }
    } else {
      assert |cs| == 1;
    }
  }

  // ---------------------------------------------------------------- theorems

  /** A transfer in any buffer size, stopping at the first failed chunk, is one call with the
      image and its padding. */
  lemma {:induction false} TransferIsOneCall(s: Stream, link: Link, image: string, buf: nat)
    requires buf > 0 && image != ""
    ensures Transfer(s, link, image, buf) == OneCall(s, link, image + Nuls(Padding(|image|, buf)))
  {
    hide Begin, Continue;
    var r := Request(0, FirstLen(|image|, buf));
    var rs := Requests(|image|, buf);
    var cs := Chunks(image, rs);
    ChunkIndependence(s, link, cs);
    ChunksAreTheImage(image, buf);
    var n := NextLen(|image|, buf, r.len);
    var c := Chunk(s, link, cs[0], true, |cs| == 1);
    if n != 0 {
      var next := Request(r.len, n);
      assert rs[1..] == RequestsFrom(|image|, buf, next);
      assert cs[1..] == Chunks(image, rs[1..]);
      TransferIsResume(c.s, link, image, buf, next);
      if !c.ok {
        FailedFirst(s, link, cs[0]);
        AbortedDrops(c.s, link, cs[1..]);
      }
    } else {
      assert |cs| == 1;
    }
  }

  lemma FailedFirst(s: Stream, link: Link, data: string)
    requires !Chunk(s, link, data, true, false).ok
    ensures Chunk(s, link, data, true, false).s.aborted
  {
    hide Feed, CheckDeviceId, GetWriteProtect, SetWriteProtect, RestoreProtection;
    if Begin(s.bus, link).ok {
      AbortAborts(Begin(s.bus, link).s, link, data);
    }
  }

  lemma {:induction false} PaddedTail(image: string, pad: nat)
    ensures Tail(image + Nuls(pad)) == Tail(image) + Nuls(pad)
    decreases |image|
  {
    var text := image + Nuls(pad);
    var k := IndexOf(image, '\n');
    if k < |image| {
      IndexOfUnique(text, '\n', k);
      assert text[k + 1..] == image[k + 1..] + Nuls(pad);
      PaddedTail(image[k + 1..], pad);
    } else {
      IndexOfUnique(text, '\n', |text|);
    }
  }

  /** On a healthy bus and device a transfer succeeds exactly when the image is acceptable and
      the buffer does not overshoot it by 1 to 32 bytes: the padding of such a transfer is taken
      for an unfinished line. */
  lemma {:induction false} TransferVerdict(s: Stream, link: Link, image: string, buf: nat)
    requires buf > 0 && image != "" && s.bus.log == [] && Healthy(link)
    ensures Transfer(s, link, image, buf).ok <==> Acceptable(image) && !(|image| < buf <= |image| + 32)
  {
    hide Begin, Continue, Healthy, PlanText, Tail, Transfer, OneCall;
    var pad := Padding(|image|, buf);
    var text := image + Nuls(pad);
    TransferIsOneCall(s, link, image, buf);
    assert Concat([text]) == text by {
      assert Concat([text][1..]) == "";
    }
    ChunkIndependence(s, link, [text]);
    VerdictIsTheText(s, link, [text]);
    PaddedTail(image, pad);
    if pad == 0 {
      assert text == image;
    }
  }
}
