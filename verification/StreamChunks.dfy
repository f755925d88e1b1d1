// The way an image is cut into chunks does not matter.
module StreamChunks {
  import opened CText
  import opened VrBus
  import opened StreamSpec

  function Concat(chunks: seq<string>): string {
    if chunks == [] then "" else chunks[0] + Concat(chunks[1..])
  }

  /** The chunks after the first one, the last of them flagged as such. */
  function Resume(s: Stream, link: Link, chunks: seq<string>): Outcome
    requires chunks != []
    decreases |chunks|
  {
    var r := Chunk(s, link, chunks[0], false, |chunks| == 1);
    if |chunks| == 1 then r else Resume(r.s, link, chunks[1..])
  }

  /** A whole update: first flag on the first chunk, last flag on the last; the verdict is
      that of the last call.  Later chunks are offered even after a failure. */
  function Session(s: Stream, link: Link, chunks: seq<string>): Outcome
    requires chunks != []
  {
    var r := Chunk(s, link, chunks[0], true, |chunks| == 1);
    if |chunks| == 1 then r else Resume(r.s, link, chunks[1..])
  }

  /** The update as one call with the whole image. */
  function OneCall(s: Stream, link: Link, image: string): Outcome {
    Chunk(s, link, image, true, true)
  }

  /** Feeding looks only at the text, not at what the line buffer held before. */
  lemma FeedForgetsLine(s: Stream, link: Link, line: string, text: string)
    ensures Feed(s.(line := line), link, text) == Feed(s, link, text)
  {
    hide ApplyRow, Finish, CStr, Count, RowOf, IndexOf;
    var k := IndexOf(text, '\n');
    if k < |text| {
      assert s.(line := line).(line := "") == s.(line := "");
    } else {
      assert s.(line := line).(line := text) == s.(line := text);
    }
    assert s.(line := line).(line := text[..if |text| < LINE_BUF_LEN then |text| else LINE_BUF_LEN - 1])
        == s.(line := text[..if |text| < LINE_BUF_LEN then |text| else LINE_BUF_LEN - 1]);
  }

  /** Text can be fed in two parts: the second joins what the first left in the line buffer. */
  lemma {:induction false} FeedSplit(s: Stream, link: Link, a: string, b: string)
    ensures Feed(s, link, a + b) ==
            var r := Feed(s, link, a);
            if r.ok then Feed(r.s, link, r.s.line + b) else r
    decreases |a|
  {
    hide ApplyLine, IndexOf;
    var k := IndexOf(a, '\n');
    if k < |a| {
      IndexOfUnique(a + b, '\n', k);
      assert (a + b)[..k] == a[..k];
      assert (a + b)[k + 1..] == a[k + 1..] + b;
      assert k >= LINE_BUF_LEN ==> (a + b)[..LINE_BUF_LEN - 1] == a[..LINE_BUF_LEN - 1];
      if k < LINE_BUF_LEN {
        var r := ApplyLine(s, link, a[..k]);
        if r.ok {
          FeedSplit(r.s, link, a[k + 1..], b);
        }
      }
    } else {
      var j := IndexOf(a + b, '\n');
      assert forall i :: 0 <= i < |a| ==> (a + b)[i] == a[i];
      if k >= LINE_BUF_LEN {
        assert (a + b)[..LINE_BUF_LEN - 1] == a[..LINE_BUF_LEN - 1];
      } else {
        FeedForgetsLine(s, link, a, a + b);
      }
    }
  }

  /** Text that starts with a whole line. */
  lemma {:induction false} FeedLine(s: Stream, link: Link, line: string, rest: string, text: string)
    requires '\n' !in line && |line| < LINE_BUF_LEN && text == line + ['\n'] + rest
    ensures Feed(s, link, text) ==
            var a := ApplyLine(s, link, line);
            if a.ok then Feed(a.s, link, rest) else a
  {
    hide ApplyLine;
    IndexOfUnique(text, '\n', |line|);
    assert text[..|line|] == line && text[|line| + 1..] == rest;
  }

  /** Text that starts with a line the buffer cannot hold. */
  lemma FeedLong(s: Stream, link: Link, line: string, c: char, rest: string, text: string)
    requires '\n' !in line && c != '\n' && |line| == LINE_BUF_LEN - 1 && text == line + [c] + rest
    ensures Feed(s, link, text) == Outcome(s.(line := line), false)
  {
    hide ApplyLine;
    assert forall i :: 0 <= i <= |line| ==> text[i] == if i < |line| then line[i] else c;
    assert text[..LINE_BUF_LEN - 1] == line;
  }

  /** Text without a newline only fills the line buffer. */
  lemma FeedRest(s: Stream, link: Link, text: string)
    requires '\n' !in text && |text| < LINE_BUF_LEN
    ensures Feed(s, link, text) == Outcome(s.(line := text), true)
  {
    hide ApplyLine;
    IndexOfUnique(text, '\n', |text|);
  }

  lemma AbortedDrops(s: Stream, link: Link, chunks: seq<string>)
    requires chunks != [] && s.aborted
    ensures Resume(s, link, chunks) == Outcome(s, false)
    decreases |chunks|
  {
    if |chunks| > 1 {
      AbortedDrops(s, link, chunks[1..]);
    }
  }

  /** Two consecutive calls are one call. */
  lemma ContinueSplit(s: Stream, link: Link, a: string, b: string, last: bool)
    ensures Continue(s, link, a + b, last) ==
            var r := Continue(s, link, a, false);
            if r.ok then Continue(r.s, link, b, last) else Outcome(r.s, false)
  {
    hide ApplyLine, End;
    FeedSplit(s, link, s.line + a, b);
    assert s.line + (a + b) == (s.line + a) + b;
  }

  lemma {:induction false} ResumeIsOneCall(s: Stream, link: Link, chunks: seq<string>)
    requires chunks != []
    ensures Resume(s, link, chunks) == Continue(s, link, Concat(chunks), true)
    decreases |chunks|
  {
    hide Feed, End, Abort;
    if |chunks| == 1 {
      assert Concat(chunks[1..]) == "";
      assert chunks[0] + "" == chunks[0];
    } else {
      ContinueSplit(s, link, chunks[0], Concat(chunks[1..]), true);
      var r := Chunk(s, link, chunks[0], false, false);
      ResumeIsOneCall(r.s, link, chunks[1..]);
      if !r.ok {
        AbortAborts(s, link, chunks[0]);
        AbortedDrops(r.s, link, chunks[1..]);
      }
    }
  }

  lemma AbortAborts(s: Stream, link: Link, data: string)
    requires !Continue(s, link, data, false).ok
    ensures Continue(s, link, data, false).s.aborted
  {
    hide Feed;
  }

  /** Chunk independence: for every image, every way to cut it into chunks (empty ones
      included), every device state and every pattern of bus failures, the chunked update
      performs the same bus transactions, ends in the same state and gives the same verdict
      as a single call with the whole image. */
  lemma {:induction false} ChunkIndependence(s: Stream, link: Link, chunks: seq<string>)
    requires chunks != []
    ensures Session(s, link, chunks) == OneCall(s, link, Concat(chunks))
  {
    hide CheckDeviceId, GetWriteProtect, SetWriteProtect, Exec, Feed, End, Abort;
    var b := Begin(s.bus, link);
    var rest := chunks[1..];
    if |chunks| == 1 {
      assert chunks == [chunks[0]] && Concat(rest) == "";
      assert chunks[0] + "" == chunks[0];
    } else if !b.ok {
      AbortedDrops(b.s, link, rest);
    } else {
      assert [chunks[0]] + rest == chunks;
      ResumeIsOneCall(b.s, link, chunks);
    }
  }
}
