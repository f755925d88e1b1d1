// The resumable CPLD update of common/dev/lattice.c: each call gets the image from one
// offset, handles one line of the JED text, and says where to read next.
module Lattice {
  import opened CText
  import opened BitOrder

  const MAX_TRANS_LEN: nat := 130
  const BOTTOM_LEN: nat := 260
  const CFG_LEN: nat := 128

  // -------------------------------------------------------------- the device

  /** Command sequences of the part that succeed or fail as a whole. */
  datatype Op =
    | ReadId                          // fails too when the ID is not the expected one
    | EnterTransparent
    | Erase
    | ResetPointer
    | ProgramPage(page: seq<Bits>)    // LSC_PROG_INCR_NV: programs and advances the pointer
    | WriteUserCode(text: string)
    | ReadUserCode                    // fails too when the code read back differs
    | ProgramDone
    | ExitProgramMode
    | Bypass

  /** Success of the n-th command. */
  type Link = nat -> bool

  datatype Ran = Ran(log: seq<Op>, ok: bool)

  /** Commands one after the other until one fails. */
  function RunOps(log: seq<Op>, link: Link, ops: seq<Op>): (r: Ran)
    ensures log <= r.log <= log + ops
    ensures r.ok ==> r.log == log + ops
    ensures r.ok <==> forall n :: |log| <= n < |log| + |ops| ==> link(n)
    decreases |ops|
  {
    if ops == [] then Ran(log, true)
    else
      assert log + [ops[0]] + ops[1..] == log + ops;
      if link(|log|) then RunOps(log + [ops[0]], link, ops[1..]) else Ran(log + [ops[0]], false)
  }

  /** Nothing comes after a failure. */
  lemma {:induction false} RunStops(log: seq<Op>, link: Link, ops: seq<Op>)
    ensures var r := RunOps(log, link, ops);
            (forall n :: |log| <= n < |r.log| - 1 ==> link(n)) && (!r.ok ==> |r.log| > |log| && !link(|r.log| - 1))
    decreases |ops|
  {
    if ops != [] && link(|log|) {
      RunStops(log + [ops[0]], link, ops[1..]);
    }
  }

  /** The flash behind the commands. */
  datatype Flash = Flash(ptr: nat, pages: map<nat, seq<Bits>>)

  function Effect(f: Flash, op: Op): Flash {
    match op
    case Erase => f.(pages := map[])
    case ResetPointer => f.(ptr := 0)
    case ProgramPage(p) => Flash(f.ptr + 1, f.pages[f.ptr := p])
    case _ => f
  }

  function FlashAfter(f: Flash, log: seq<Op>): Flash {
    if log == [] then f else Effect(FlashAfter(f, log[..|log| - 1]), log[|log| - 1])
  }

  // ---------------------------------------------------------------- one call

  datatype Passing = First | CfgStarted | CfgEnded

  /** What survives between calls: passing_state and first_flag. */
  datatype Static = Static(passing: Passing, firstFlag: bool)

  const INITIAL := Static(First, false)

  /** Position of the first CR LF, or the length of the data if there is none. */
  function NewLine(data: string): (k: nat)
    ensures k <= |data|
    ensures k < |data| ==> k + 1 < |data| && data[k] == '\r' && data[k + 1] == '\n'
  {
    if |data| < 2 then |data|
    else if data[0] == '\r' && data[1] == '\n' then 0
    else NewLine(data[1..]) + 1
  }

  /** The 128 characters a fuse row is parsed from. */
  function RowChars(data: string): (s: string)
    ensures |s| == CFG_LEN
  {
    seq(CFG_LEN, i requires 0 <= i < CFG_LEN => if i < |data| then data[i] else '\0')
  }

  /** The eight characters of the user code. */
  function UserText(data: string): string {
    RowChars(data)[4..12]
  }

  function StartOps(): seq<Op> { [ReadId, EnterTransparent, Erase] }

  function PageOps(first: bool, data: string): seq<Op> {
    (if first then [ResetPointer] else []) + [ProgramPage(Page(RowChars(data)))]
  }

  lemma StartOpsAre()
    ensures StartOps() == [ReadId, EnterTransparent, Erase]
  {
  }

  function UserOps(data: string): seq<Op> {
    [ResetPointer, WriteUserCode(UserText(data)), ResetPointer, ReadUserCode]
  }

  function DoneOps(): seq<Op> { [ResetPointer, ProgramDone, ExitProgramMode, Bypass] }

  /** What a call does: commands, next state, and where to continue; next is None when the
      update is complete. */
  datatype Decision = Decision(ops: seq<Op>, st: Static, next: Option<nat>)

  /** The state machine on the line at the start of data, whose line end is at k. */
  function Decide(st: Static, data: string, k: nat, ofs: nat, size: nat): Decision
    requires size >= BOTTOM_LEN
  {
    var follow := ofs + k + 2;
    match st.passing
    case First =>
      if StartsWith(data, "L000") then Decision([], Static(CfgStarted, true), Some(follow))
      else Decision([], st, Some(follow))
    case CfgStarted =>
      if StartsWith(data, "*") then Decision([], Static(CfgEnded, st.firstFlag), Some(size - BOTTOM_LEN))
      else Decision(PageOps(st.firstFlag, data), Static(CfgStarted, false), Some(follow))
    case CfgEnded =>
      if StartsWith(data, "UH") then Decision(UserOps(data), Static(First, st.firstFlag), None)
      else Decision([], st, Some(follow))
  }

  datatype Called = Called(st: Static, log: seq<Op>, ok: bool, nextOfs: nat, nextLen: nat)

  /** The request that follows, clipped at the end of the image. */
  function NextLen(nextOfs: nat, size: nat): nat
  {
    if nextOfs + MAX_TRANS_LEN < size then MAX_TRANS_LEN
    else if nextOfs <= size then size - nextOfs else WrappedLen(nextOfs, size)
  }

  /** An unsigned difference below zero. */
  function WrappedLen(nextOfs: nat, size: nat): nat { (size - nextOfs) % 0x1_0000_0000 }

  /** A next offset of 0, which a jump in an image of just the bottom part gives, counts as not
      set and becomes the next stretch of the image. */
  function NextOfs(next: nat, ofs: nat): nat { if next == 0 then ofs + MAX_TRANS_LEN else next }

  /** x02x03_i2c_update. */
  function Call(st: Static, log: seq<Op>, link: Link, data: string, ofs: nat, size: nat): (c: Called)
    requires size >= BOTTOM_LEN
  {
    var k := NewLine(data);
    var a := RunOps(log, link, if ofs == 0 then StartOps() else []);
    if !a.ok || k == |data| then Called(st, a.log, false, 0, 0)
    else
      var d := Decide(st, data, k, ofs, size);
      var b := RunOps(a.log, link, d.ops);
      if !b.ok then Called(st, b.log, false, ofs + k + 2, MAX_TRANS_LEN)
      else if d.next.Some? then
        var next := NextOfs(d.next.value, ofs);
        Called(d.st, b.log, true, next, NextLen(next, size))
      else
        var e := RunOps(b.log, link, DoneOps());
        Called(d.st, e.log, e.ok, ofs + k + 2, 0)
  }

  // --------------------------------------------------------------- whole run

  /** Image bytes of a request, NUL beyond the end. */
  function Serve(image: string, ofs: nat, len: nat): (s: string)
    ensures |s| == len
  {
    seq(len, i requires 0 <= i < len => if ofs + i < |image| then image[ofs + i] else '\0')
  }

  function Rank(p: Passing): nat {
    match p
    case First => 2
    case CfgStarted => 1
    case CfgEnded => 0
  }

  lemma NextInside(st: Static, log: seq<Op>, link: Link, image: string, ofs: nat, len: nat)
    requires |image| >= BOTTOM_LEN
    ensures var c := Call(st, log, link, Serve(image, ofs, len), ofs, |image|);
            c.ok && c.nextLen > 0 ==>
              ofs <= |image| && (Rank(c.st.passing) < Rank(st.passing) ||
                                 (Rank(c.st.passing) == Rank(st.passing) && ofs < c.nextOfs))
  {
    hide RunOps, Page, RowChars, StartsWith, WrappedLen;
    var data := Serve(image, ofs, len);
    if ofs > |image| {
      assert forall i :: 0 <= i < |data| ==> data[i] == '\0';
    }
  }

  /** The transfer loop of the update, from one request on. */
  function Transfer(st: Static, log: seq<Op>, link: Link, image: string, ofs: nat, len: nat): (c: Called)
    requires |image| >= BOTTOM_LEN
    decreases Rank(st.passing), |image| - ofs
  {
    var c := Call(st, log, link, Serve(image, ofs, len), ofs, |image|);
    if !c.ok || c.nextLen == 0 then c
    else
      NextInside(st, log, link, image, ofs, len);
      Transfer(c.st, c.log, link, image, c.nextOfs, c.nextLen)
  }

  // ------------------------------------------------------- well-formed images

  /** A JED text as the driver reads it: header lines, the fuse list, and the bottom part that
      it jumps to, with the user code line in it. */
  datatype Jed = Jed(
    header: seq<string>, start: string, rows: seq<string>, star: string,
    middle: string,
    footer: seq<string>, user: string, trailer: string)

  predicate LineOk(l: string) { |l| <= CFG_LEN && '\r' !in l }

  predicate JedOk(j: Jed) {
    (forall l :: l in j.header ==> LineOk(l) && !StartsWith(l, "L000")) &&
    LineOk(j.start) && StartsWith(j.start, "L000") &&
    (forall r :: r in j.rows ==> IsFuseRow(r)) &&
    LineOk(j.star) && StartsWith(j.star, "*") &&
    (forall l :: l in j.footer ==> LineOk(l) && !StartsWith(l, "UH")) &&
    LineOk(j.user) && StartsWith(j.user, "UH") && |j.user| >= 12 &&
    |Bottom(j)| == 260
  }

  /** The last 260 characters, where the jump after the fuse list lands. */
  function Bottom(j: Jed): string {
    Render(j.footer) + (j.user + "\r\n" + j.trailer)
  }

  function FuseText(j: Jed): string {
    Render(j.rows) + (j.star + "\r\n" + (j.middle + Bottom(j)))
  }

  function Text(j: Jed): string {
    Render(j.header) + (j.start + "\r\n" + FuseText(j))
  }

  function RowOps(rows: seq<string>): seq<Op> {
    if rows == [] then [] else [ProgramPage(Page(RowChars(rows[0])))] + RowOps(rows[1..])
  }

  /** The commands a well-formed image stands for. */
  function JedOps(j: Jed): seq<Op>
    requires JedOk(j)
  {
    [ReadId, EnterTransparent, Erase] + (if j.rows == [] then [] else [ResetPointer]) + RowOps(j.rows) +
    [ResetPointer, WriteUserCode(j.user[4..12]), ResetPointer, ReadUserCode] +
    [ResetPointer, ProgramDone, ExitProgramMode, Bypass]
  }

  lemma JedOpsAre(j: Jed)
    requires JedOk(j)
    ensures JedOps(j) == StartOps() + (if j.rows == [] then [] else [ResetPointer]) + RowOps(j.rows) + UserOps(j.user) + DoneOps()
  {
    hide Bottom, StartsWith, RowOps;
    assert RowChars(j.user)[4..12] == j.user[4..12];
  }

  // ----------------------------------------------------------------- proofs

  lemma {:induction false} RunSplit(log: seq<Op>, link: Link, a: seq<Op>, b: seq<Op>)
    ensures RunOps(log, link, a + b) ==
            var r := RunOps(log, link, a);
            if r.ok then RunOps(r.log, link, b) else r
    decreases |a|
  {
    if a == [] {
      assert a + b == b;
    } else {
      assert (a + b)[1..] == a[1..] + b;
      if link(|log|) {
        RunSplit(log + [a[0]], link, a[1..], b);
      }
    }
  }

  lemma {:induction false} NewLineAt(data: string, k: nat)
    requires k + 1 < |data| && data[k] == '\r' && data[k + 1] == '\n'
    requires forall i :: 0 <= i < k ==> data[i] != '\r'
    ensures NewLine(data) == k
    decreases k
  {
    if k > 0 {
      NewLineAt(data[1..], k - 1);
    }
  }

  /** A request long enough for any line that starts at its offset. */
  predicate LongEnough(len: nat, ofs: nat, size: nat) {
    len >= (if ofs + MAX_TRANS_LEN < size then MAX_TRANS_LEN else if ofs <= size then size - ofs else 0)
  }

  /** Data served at the start of a line is that line, its end, and whatever follows. */
  lemma LineServed(image: string, ofs: nat, len: nat, l: string, rest: string)
    requires ofs <= |image| && image[ofs..] == l + "\r\n" + rest && LineOk(l) && LongEnough(len, ofs, |image|)
    ensures var data := Serve(image, ofs, len);
            |l| + 2 <= |data| && data[..|l|] == l && data[|l|] == '\r' && NewLine(data) == |l| &&
            (forall p: string :: StartsWith(data, p) && '\r' !in p ==> StartsWith(l, p)) &&
            (forall p: string :: StartsWith(l, p) ==> StartsWith(data, p))
  {
    var data := Serve(image, ofs, len);
    var tail := image[ofs..];
    assert forall i :: 0 <= i < |tail| ==> tail[i] == image[ofs + i];
    assert forall i :: 0 <= i < |l| + 2 ==> data[i] == tail[i];
    assert forall i :: 0 <= i < |l| ==> tail[i] == l[i];
    assert tail[|l|] == '\r' && tail[|l| + 1] == '\n';
    forall i | 0 <= i < |l|
      ensures data[i] != '\r'
    {
      assert l[i] in l;
    }
    NewLineAt(data, |l|);
    assert data[..|l|] == l;
    forall p: string | StartsWith(data, p) && '\r' !in p
      ensures StartsWith(l, p)
    {
      assert forall i {:trigger data[i]} :: 0 <= i < |p| ==> p[i] == data[..|p|][i] == data[i] && p[i] in p;
      assert |p| <= |l|;
      assert data[..|p|] == data[..|l|][..|p|];
    }
    forall p: string | StartsWith(l, p)
      ensures StartsWith(data, p)
    {
      assert data[..|p|] == data[..|l|][..|p|];
    }
  }

  lemma NextIsLongEnough(nextOfs: nat, size: nat)
    requires nextOfs <= size
    ensures LongEnough(NextLen(nextOfs, size), nextOfs, size)
    ensures nextOfs < size ==> NextLen(nextOfs, size) > 0
  {
  }

  /** The result of a transfer that amounts to a list of commands. */
  ghost predicate Does(c: Called, log: seq<Op>, link: Link, ops: seq<Op>) {
    var r := RunOps(log, link, ops);
    c.log == r.log && c.ok == r.ok && (c.ok ==> c.st.passing == First)
  }

  /** One call in front of the rest of a transfer. */
  lemma {:induction false} CallThen(st: Static, log: seq<Op>, link: Link, image: string, ofs: nat, len: nat, ops: seq<Op>, rest: seq<Op>)
    requires |image| >= BOTTOM_LEN
    requires var c := Call(st, log, link, Serve(image, ofs, len), ofs, |image|);
             var r := RunOps(log, link, ops);
             c.log == r.log && c.ok == r.ok &&
             (c.ok ==> c.nextLen > 0 && Does(Transfer(c.st, c.log, link, image, c.nextOfs, c.nextLen), c.log, link, rest))
    ensures Does(Transfer(st, log, link, image, ofs, len), log, link, ops + rest)
  {
    hide Call, RunOps;
    RunSplit(log, link, ops, rest);
  }

  lemma NoOps(log: seq<Op>, link: Link)
    ensures RunOps(log, link, []) == Ran(log, true)
  {
  }

  /** Bottom part: lines are skipped up to the user code, which ends the update. */
  lemma {:induction false} RunFooter(j: Jed, footer: seq<string>, st: Static, log: seq<Op>, link: Link, image: string, ofs: nat, len: nat)
    requires JedOk(j) && |image| >= BOTTOM_LEN && st.passing == CfgEnded && LongEnough(len, ofs, |image|)
    requires forall l :: l in footer ==> LineOk(l) && !StartsWith(l, "UH")
    requires 0 < ofs <= |image| && image[ofs..] == Render(footer) + (j.user + "\r\n" + j.trailer)
    ensures Does(Transfer(st, log, link, image, ofs, len), log, link, UserOps(j.user) + DoneOps())
    decreases |footer|
  {
    hide RunOps, RowChars, Page, StartsWith, NewLine, Serve, Render, LongEnough, LineOk;
    var data := Serve(image, ofs, len);
    NoOps(log, link);
    if footer == [] {
      RenderNone();
      assert image[ofs..] == j.user + "\r\n" + j.trailer;
      LineServed(image, ofs, len, j.user, j.trailer);
      UserServed(data, j.user);
      RunSplit(log, link, UserOps(j.user), DoneOps());
    } else {
      var l, rest := footer[0], Render(footer[1..]) + (j.user + "\r\n" + j.trailer);
      RenderOne(footer);
      Regroup(l, Render(footer[1..]), j.user + "\r\n" + j.trailer);
      assert image[ofs..] == l + "\r\n" + rest;
      LineServed(image, ofs, len, l, rest);
      Suffix(image, ofs, l, rest);
      NextIsLongEnough(ofs + |l| + 2, |image|);
      assert !StartsWith(data, "UH") by { NoCr("UH"); }
      var next := ofs + |l| + 2;
      RunFooter(j, footer[1..], st, log, link, image, next, NextLen(next, |image|));
      CallThen(st, log, link, image, ofs, len, [], UserOps(j.user) + DoneOps());
      assert [] + (UserOps(j.user) + DoneOps()) == UserOps(j.user) + DoneOps();
    }
  }

  lemma RenderNone()
    ensures Render([]) == ""
  {
  }

  lemma RenderOne(ls: seq<string>)
    requires ls != []
    ensures Render(ls) == ls[0] + "\r\n" + Render(ls[1..])
  {
  }

  lemma Regroup(l: string, a: string, b: string)
    ensures l + "\r\n" + a + b == l + "\r\n" + (a + b)
  {
  }

  lemma NoCr(p: string)
    requires |p| <= 4 && forall i :: 0 <= i < |p| ==> p[i] != '\r'
    ensures '\r' !in p
  {
  }

  lemma Suffix(image: string, ofs: nat, l: string, rest: string)
    requires ofs <= |image| && image[ofs..] == l + "\r\n" + rest
    ensures ofs + |l| + 2 <= |image| && image[ofs + |l| + 2..] == rest
  {
    assert image[ofs + |l| + 2..] == image[ofs..][|l| + 2..];
  }

  lemma UserServed(data: string, user: string)
    requires |data| >= |user| >= 12 && data[..|user|] == user
    ensures UserOps(data) == UserOps(user)
  {
    assert forall i :: 0 <= i < 12 ==> data[i] == data[..|user|][i];
    assert UserText(data) == UserText(user);
  }

  lemma RowServed(data: string, row: string)
    requires |data| >= |row| == CFG_LEN && data[..|row|] == row
    ensures RowChars(data) == row == RowChars(row)
  {
    assert forall i :: 0 <= i < CFG_LEN ==> data[i] == data[..|row|][i];
  }

  /** What is left of the update once the fuse list has started. */
  function FuseOps(j: Jed, rows: seq<string>, first: bool): seq<Op> {
    (if first && rows != [] then [ResetPointer] else []) + RowOps(rows) + (UserOps(j.user) + DoneOps())
  }

  lemma FuseOpsStep(j: Jed, rows: seq<string>, first: bool)
    requires rows != [] && |rows[0]| == CFG_LEN
    ensures FuseOps(j, rows, first) == PageOps(first, rows[0]) + FuseOps(j, rows[1..], false)
  {
    hide RowChars, Page, UserOps;
    assert RowOps(rows) == [ProgramPage(Page(RowChars(rows[0])))] + RowOps(rows[1..]);
  }

  lemma FuseOpsEnd(j: Jed, first: bool)
    ensures FuseOps(j, [], first) == UserOps(j.user) + DoneOps()
  {
  }

  lemma FuseRowOk(row: string)
    requires IsFuseRow(row)
    ensures LineOk(row) && !StartsWith(row, "*")
  {
    assert row[..1][0] == row[0] && "*"[0] == '*';
  }

  /** A call on a fuse row. */
  lemma CallRow(first: bool, log: seq<Op>, link: Link, image: string, ofs: nat, len: nat, l: string, rest: string)
    requires |image| >= BOTTOM_LEN && LongEnough(len, ofs, |image|) && IsFuseRow(l) && |rest| > 0
    requires 0 < ofs <= |image| && image[ofs..] == l + "\r\n" + rest
    ensures var c := Call(Static(CfgStarted, first), log, link, Serve(image, ofs, len), ofs, |image|);
            var r := RunOps(log, link, PageOps(first, l));
            var next := ofs + |l| + 2;
            c.log == r.log && c.ok == r.ok && next < |image| && image[next..] == rest &&
            (c.ok ==> c.nextOfs == next && c.nextLen == NextLen(next, |image|) > 0 &&
                      LongEnough(c.nextLen, next, |image|) && c.st == Static(CfgStarted, false))
  {
    hide RunOps, RowChars, Page, StartsWith, NewLine, Serve, LongEnough, LineOk, IsFuseRow;
    var data := Serve(image, ofs, len);
    FuseRowOk(l);
    FuseRowLength(l);
    LineServed(image, ofs, len, l, rest);
    Suffix(image, ofs, l, rest);
    NoCr("*");
    RowServed(data, l);
    NextIsLongEnough(ofs + |l| + 2, |image|);
    NoOps(log, link);
  }

  /** A call on the end of the fuse list. */
  lemma CallStar(first: bool, log: seq<Op>, link: Link, image: string, ofs: nat, len: nat, l: string, rest: string)
    requires |image| > BOTTOM_LEN && LongEnough(len, ofs, |image|) && LineOk(l) && StartsWith(l, "*")
    requires 0 < ofs <= |image| && image[ofs..] == l + "\r\n" + rest
    ensures var c := Call(Static(CfgStarted, first), log, link, Serve(image, ofs, len), ofs, |image|);
            var jump := |image| - BOTTOM_LEN;
            c.log == log && c.ok && c.nextOfs == jump && c.nextLen == NextLen(jump, |image|) > 0 &&
            LongEnough(c.nextLen, jump, |image|) && c.st == Static(CfgEnded, first)
  {
    hide RunOps, RowChars, Page, StartsWith, NewLine, Serve, LongEnough, LineOk;
    LineServed(image, ofs, len, l, rest);
    Suffix(image, ofs, l, rest);
    NextIsLongEnough(|image| - BOTTOM_LEN, |image|);
    NoOps(log, link);
  }

  /** The fuse list: every row becomes a page, the end of the list a jump to the bottom part. */
  lemma {:induction false} RunFuses(j: Jed, rows: seq<string>, first: bool, log: seq<Op>, link: Link, image: string, ofs: nat, len: nat)
    requires JedOk(j) && (forall r :: r in rows ==> IsFuseRow(r))
    requires |image| >= BOTTOM_LEN && LongEnough(len, ofs, |image|)
    requires 0 < ofs <= |image| && image[ofs..] == Render(rows) + (j.star + "\r\n" + (j.middle + Bottom(j)))
    ensures Does(Transfer(Static(CfgStarted, first), log, link, image, ofs, len), log, link, FuseOps(j, rows, first))
    decreases |rows|
  {
    hide RunOps, Call, Serve, Render, LongEnough, FuseOps, PageOps, UserOps, DoneOps, IsFuseRow, Bottom, Transfer, Does, NextLen;
    var st := Static(CfgStarted, first);
    NoOps(log, link);
    if rows == [] {
      RenderNone();
      var rest := j.middle + Bottom(j);
      assert image[ofs..] == j.star + "\r\n" + rest;
      CallStar(first, log, link, image, ofs, len, j.star, rest);
      Suffix(image, ofs, j.star, rest);
      BottomAt(j, image, ofs + |j.star| + 2);
      FootersOk(j);
      var jump := |image| - BOTTOM_LEN;
      RunFooter(j, j.footer, Static(CfgEnded, first), log, link, image, jump, NextLen(jump, |image|));
      FuseOpsEnd(j, first);
      CallThen(st, log, link, image, ofs, len, [], UserOps(j.user) + DoneOps());
      assert [] + (UserOps(j.user) + DoneOps()) == UserOps(j.user) + DoneOps();
    } else {
      var l, rest := rows[0], Render(rows[1..]) + (j.star + "\r\n" + (j.middle + Bottom(j)));
      RenderOne(rows);
      Regroup(l, Render(rows[1..]), j.star + "\r\n" + (j.middle + Bottom(j)));
      RestNotEmpty(j, rows[1..]);
      CallRow(first, log, link, image, ofs, len, l, rest);
      FuseRowLength(l);
      var next := ofs + |l| + 2;
      NextIsLongEnough(next, |image|);
      var r := RunOps(log, link, PageOps(first, l));
      RunFuses(j, rows[1..], false, r.log, link, image, next, NextLen(next, |image|));
      FuseOpsStep(j, rows, first);
      CallThen(st, log, link, image, ofs, len, PageOps(first, l), FuseOps(j, rows[1..], false));
    }
  }

  lemma FuseRowLength(row: string)
    requires IsFuseRow(row)
    ensures |row| == CFG_LEN
  {
  }

  lemma RestNotEmpty(j: Jed, rows: seq<string>)
    ensures |Render(rows) + (j.star + "\r\n" + (j.middle + Bottom(j)))| > 0
  {
  }

  lemma FootersOk(j: Jed)
    requires JedOk(j)
    ensures Bottom(j) == Render(j.footer) + (j.user + "\r\n" + j.trailer)
    ensures forall l :: l in j.footer ==> LineOk(l) && !StartsWith(l, "UH")
  {
  }

  /** The jump target is where the bottom part starts. */
  lemma BottomAt(j: Jed, image: string, ofs: nat)
    requires JedOk(j) && 0 < ofs <= |image| && image[ofs..] == j.middle + Bottom(j)
    ensures |image| - BOTTOM_LEN >= ofs && image[|image| - BOTTOM_LEN..] == Bottom(j)
  {
    assert image[|image| - BOTTOM_LEN..] == image[ofs..][|j.middle|..];
  }

  /** What an image stands for from a header line on. */
  function HeaderOps(j: Jed, ofs: nat): seq<Op> {
    (if ofs == 0 then StartOps() else []) + FuseOps(j, j.rows, true)
  }

  /** A call on a line before the fuse list. */
  lemma CallHeader(ff: bool, log: seq<Op>, link: Link, image: string, ofs: nat, len: nat, l: string, rest: string)
    requires |image| >= BOTTOM_LEN && LongEnough(len, ofs, |image|) && LineOk(l)
    requires ofs <= |image| && image[ofs..] == l + "\r\n" + rest
    ensures var c := Call(Static(First, ff), log, link, Serve(image, ofs, len), ofs, |image|);
            var r := RunOps(log, link, if ofs == 0 then StartOps() else []);
            var next := ofs + |l| + 2;
            c.log == r.log && c.ok == r.ok && next <= |image| && image[next..] == rest &&
            (c.ok ==> c.nextOfs == next && c.nextLen == NextLen(next, |image|) && (c.nextLen > 0 <==> rest != "") &&
                      LongEnough(c.nextLen, next, |image|) &&
                      c.st == if StartsWith(l, "L000") then Static(CfgStarted, true) else Static(First, ff))
  {
    hide RunOps, StartsWith, NewLine, Serve, LineOk;
    LineServed(image, ofs, len, l, rest);
    Suffix(image, ofs, l, rest);
    NextIsLongEnough(ofs + |l| + 2, |image|);
    NoCr("L000");
    NoOps(RunOps(log, link, if ofs == 0 then StartOps() else []).log, link);
  }

  /** Header lines issue nothing beyond the set-up of the very first call. */
  lemma {:induction false} RunHeader(j: Jed, header: seq<string>, ff: bool, log: seq<Op>, link: Link, image: string, ofs: nat, len: nat)
    requires JedOk(j) && (forall l :: l in header ==> LineOk(l) && !StartsWith(l, "L000"))
    requires |image| >= BOTTOM_LEN && LongEnough(len, ofs, |image|)
    requires ofs <= |image| && image[ofs..] == Render(header) + (j.start + "\r\n" + FuseText(j))
    ensures Does(Transfer(Static(First, ff), log, link, image, ofs, len), log, link, HeaderOps(j, ofs))
    decreases |header|
  {
    hide RunOps, StartsWith, Serve, Render, LongEnough, LineOk, FuseOps, FuseText, Call, Does, StartOps;
    var pre := if ofs == 0 then StartOps() else [];
    HeaderLine(j, header);
    var l := if header == [] then j.start else header[0];
    var rest := if header == [] then FuseText(j) else Render(header[1..]) + (j.start + "\r\n" + FuseText(j));
    CallHeader(ff, log, link, image, ofs, len, l, rest);
    var c := Call(Static(First, ff), log, link, Serve(image, ofs, len), ofs, |image|);
    if c.ok {
      if header == [] {
        FuseTextIs(j);
        RunFuses(j, j.rows, true, c.log, link, image, c.nextOfs, c.nextLen);
      } else {
        RunHeader(j, header[1..], ff, c.log, link, image, c.nextOfs, c.nextLen);
        assert [] + FuseOps(j, j.rows, true) == FuseOps(j, j.rows, true);
        assert HeaderOps(j, c.nextOfs) == FuseOps(j, j.rows, true);
      }
    }
    CallThen(Static(First, ff), log, link, image, ofs, len, pre, FuseOps(j, j.rows, true));
  }

  lemma HeaderLine(j: Jed, header: seq<string>)
    requires JedOk(j)
    ensures header == [] ==> Render(header) + (j.start + "\r\n" + FuseText(j)) == j.start + "\r\n" + FuseText(j)
    ensures header != [] ==>
            Render(header) + (j.start + "\r\n" + FuseText(j)) ==
            header[0] + "\r\n" + (Render(header[1..]) + (j.start + "\r\n" + FuseText(j)))
    ensures |FuseText(j)| > 0
  {
    if header != [] {
      Regroup(header[0], Render(header[1..]), j.start + "\r\n" + FuseText(j));
    }
  }

  lemma FuseTextIs(j: Jed)
    requires JedOk(j)
    ensures FuseText(j) == Render(j.rows) + (j.star + "\r\n" + (j.middle + Bottom(j)))
    ensures forall r :: r in j.rows ==> IsFuseRow(r)
  {
  }

  // ---------------------------------------------------------------- theorems

  /** Whole-run programming.  From the initial state a well-formed image, whatever the first
      request's length from 130 on and whatever fails, issues a prefix of: identity check,
      transparent mode, erase, one pointer reset, the fuse rows as pages in file order, the user
      code, and the closing sequence.  It succeeds exactly when none of those commands fails,
      then has issued all of them and is ready for another update. */
  lemma JedRun(j: Jed, ff: bool, link: Link, len: nat)
    requires JedOk(j) && len >= 130
    ensures |Text(j)| >= BOTTOM_LEN
    ensures var c := Transfer(Static(First, ff), [], link, Text(j), 0, len);
            c.log <= JedOps(j) &&
            (c.ok <==> forall n :: 0 <= n < |JedOps(j)| ==> link(n)) &&
            (c.ok ==> c.log == JedOps(j) && c.st.passing == First)
  {
    hide RowChars, Page, StartsWith, Serve, Render, FuseText, Bottom;
    TextLong(j);
    assert Text(j)[0..] == Text(j);
    RunHeader(j, j.header, ff, [], link, Text(j), 0, len);
    JedOpsAre(j);
    assert HeaderOps(j, 0) == JedOps(j);
    assert [] + JedOps(j) == JedOps(j);
  }

  lemma TextLong(j: Jed)
    requires JedOk(j)
    ensures |Text(j)| >= BOTTOM_LEN
  {
  }

  // ------------------------------------------------------- whatever the image

  /** What a call does where no command fails: its commands, whether it finds a line, and where
      the transfer goes on; a next length of 0 ends it. */
  datatype Turn = Turn(ops: seq<Op>, ok: bool, closes: bool, st: Static, nextOfs: nat, nextLen: nat)

  function TurnOf(st: Static, data: string, ofs: nat, size: nat): Turn
    requires size >= BOTTOM_LEN
  {
    var k := NewLine(data);
    var pre := if ofs == 0 then StartOps() else [];
    if k == |data| then Turn(pre, false, false, st, 0, 0)
    else
      var d := Decide(st, data, k, ofs, size);
      if d.next.Some? then
        var next := NextOfs(d.next.value, ofs);
        Turn(pre + d.ops, true, false, d.st, next, NextLen(next, size))
      else Turn(pre + d.ops + DoneOps(), true, true, d.st, ofs + k + 2, 0)
  }

  lemma {:induction false} CallIsTurn(st: Static, log: seq<Op>, link: Link, data: string, ofs: nat, size: nat)
    requires size >= BOTTOM_LEN
    ensures var c, t := Call(st, log, link, data, ofs, size), TurnOf(st, data, ofs, size);
            var r := RunOps(log, link, t.ops);
            c.log == r.log && (c.ok <==> t.ok && r.ok) &&
            (c.ok ==> c.st == t.st && c.nextOfs == t.nextOfs && c.nextLen == t.nextLen)
  {
    hide RunOps, Decide, StartOps, DoneOps, NextLen, NextOfs;
    var k := NewLine(data);
    var pre := if ofs == 0 then StartOps() else [];
    if k < |data| {
      var d := Decide(st, data, k, ofs, size);
      RunSplit(log, link, pre, d.ops);
      RunSplit(log, link, pre + d.ops, DoneOps());
    }
  }

  lemma TurnInside(st: Static, image: string, ofs: nat, len: nat)
    requires |image| >= BOTTOM_LEN
    ensures var t := TurnOf(st, Serve(image, ofs, len), ofs, |image|);
            t.ok && t.nextLen > 0 ==>
              ofs <= |image| && (Rank(t.st.passing) < Rank(st.passing) ||
                                 (Rank(t.st.passing) == Rank(st.passing) && ofs < t.nextOfs))
  {
    hide Page, RowChars, StartsWith, WrappedLen;
    var data := Serve(image, ofs, len);
    if ofs > |image| {
      assert forall i :: 0 <= i < |data| ==> data[i] == '\0';
    }
  }

  /** What a transfer does where no command fails, read off the image: the commands, whether it
      ends well, whether on the user code line, and the offset it ends at. */
  datatype Script = Script(ops: seq<Op>, ok: bool, closes: bool, end: nat)

  function ScriptOf(st: Static, image: string, ofs: nat, len: nat): Script
    requires |image| >= BOTTOM_LEN
    decreases Rank(st.passing), |image| - ofs
  {
    var t := TurnOf(st, Serve(image, ofs, len), ofs, |image|);
    if !t.ok || t.nextLen == 0 then Script(t.ops, t.ok, t.closes, t.nextOfs)
    else
      TurnInside(st, image, ofs, len);
      var rest := ScriptOf(t.st, image, t.nextOfs, t.nextLen);
      rest.(ops := t.ops + rest.ops)
  }

  /** Any image, from any state: the transfer issues a prefix of the commands read off the image,
      and succeeds if and only if every request finds a line and no command fails, having issued
      them all. */
  lemma {:induction false} AnyImage(st: Static, log: seq<Op>, link: Link, image: string, ofs: nat, len: nat)
    requires |image| >= BOTTOM_LEN
    ensures var c, s := Transfer(st, log, link, image, ofs, len), ScriptOf(st, image, ofs, len);
            log <= c.log <= log + s.ops &&
            (c.ok <==> s.ok && forall n :: |log| <= n < |log| + |s.ops| ==> link(n)) &&
            (forall n :: |log| <= n < |c.log| - 1 ==> link(n)) &&
            (c.ok ==> c.log == log + s.ops && c.nextOfs == s.end)
    decreases Rank(st.passing), |image| - ofs
  {
    hide Call, TurnOf, Serve;
    var data := Serve(image, ofs, len);
    var c, t := Call(st, log, link, data, ofs, |image|), TurnOf(st, data, ofs, |image|);
    CallIsTurn(st, log, link, data, ofs, |image|);
    RunStops(log, link, t.ops);
    if t.ok && t.nextLen != 0 {
      TurnInside(st, image, ofs, len);
      var rest := ScriptOf(t.st, image, t.nextOfs, t.nextLen);
      Onward(log, t.ops, rest.ops);
      if c.ok {
        AnyImage(t.st, c.log, link, image, t.nextOfs, t.nextLen);
      }
    }
  }

  lemma Onward(log: seq<Op>, a: seq<Op>, b: seq<Op>)
    ensures log + (a + b) == log + a + b
  {
  }

  predicate Undone(log: seq<Op>) { forall o :: o in log ==> !o.ProgramDone? }

  lemma TurnCloses(st: Static, data: string, ofs: nat, size: nat)
    requires size >= BOTTOM_LEN
    ensures var t := TurnOf(st, data, ofs, size);
            (t.closes ==> t.nextLen == 0 && exists pre: seq<Op> :: t.ops == pre + DoneOps()) && (!t.closes ==> Undone(t.ops))
    ensures var t := TurnOf(st, data, ofs, size);
            t.ok && !t.closes ==> t.nextLen == NextLen(t.nextOfs, size)
  {
    hide Page, RowChars, StartsWith, UserText, NextLen;
  }

  lemma {:induction false} ScriptCloses(st: Static, image: string, ofs: nat, len: nat)
    requires |image| >= BOTTOM_LEN && ScriptOf(st, image, ofs, len).ok
    ensures var s := ScriptOf(st, image, ofs, len);
            if s.closes then exists pre: seq<Op> :: s.ops == pre + DoneOps()
            else Undone(s.ops) && NextLen(s.end, |image|) == 0
    decreases Rank(st.passing), |image| - ofs
  {
    hide TurnOf, Serve, DoneOps, NextLen;
    var t := TurnOf(st, Serve(image, ofs, len), ofs, |image|);
    TurnCloses(st, Serve(image, ofs, len), ofs, |image|);
    if t.ok && t.nextLen != 0 {
      TurnInside(st, image, ofs, len);
      ScriptCloses(t.st, image, t.nextOfs, t.nextLen);
      var rest := ScriptOf(t.st, image, t.nextOfs, t.nextLen);
      if rest.closes {
        var pre: seq<Op> :| rest.ops == pre + DoneOps();
        assert t.ops + rest.ops == (t.ops + pre) + DoneOps();
      }
    }
  }

  /** What success means, for any image: the closing sequence has been issued if and only if the
      lines lead to the user code line of the bottom part.  Otherwise the image merely ran out,
      and the update is reported as done without it. */
  lemma {:induction false} SuccessIsClosedExactly(st: Static, log: seq<Op>, link: Link, image: string, ofs: nat, len: nat)
    requires |image| >= BOTTOM_LEN && Undone(log) && Transfer(st, log, link, image, ofs, len).ok
    ensures var c := Transfer(st, log, link, image, ofs, len);
            if ScriptOf(st, image, ofs, len).closes then exists pre: seq<Op> :: c.log == pre + DoneOps()
            else Undone(c.log) && NextLen(c.nextOfs, |image|) == 0
  {
    hide Transfer, ScriptOf, DoneOps, NextLen;
    AnyImage(st, log, link, image, ofs, len);
    ScriptCloses(st, image, ofs, len);
    var s := ScriptOf(st, image, ofs, len);
    if s.closes {
      var pre: seq<Op> :| s.ops == pre + DoneOps();
      assert log + s.ops == (log + pre) + DoneOps();
    }
  }

  /** What a transfer does before anything else, and never again. */
  predicate IsSetUp(op: Op) { op == ReadId || op == EnterTransparent || op == Erase }

  predicate NoSetUp(ops: seq<Op>) { forall o :: o in ops ==> !IsSetUp(o) }

  lemma NoSetUpIn(st: Static, data: string, k: nat, ofs: nat, size: nat)
    requires size >= BOTTOM_LEN
    ensures NoSetUp(Decide(st, data, k, ofs, size).ops) && NoSetUp(DoneOps()) && NoSetUp([])
  {
    hide Page, RowChars, StartsWith, UserText;
  }

  lemma NoSetUpJoin(a: seq<Op>, b: seq<Op>)
    requires NoSetUp(a) && NoSetUp(b)
    ensures NoSetUp(a + b)
  {
  }

  /** A turn is the set-up at offset 0 and nothing of it later; and it goes on at a later offset. */
  lemma TurnIsPlain(st: Static, data: string, ofs: nat, size: nat)
    requires size >= BOTTOM_LEN
    ensures var t := TurnOf(st, data, ofs, size);
            (ofs > 0 ==> NoSetUp(t.ops)) && (t.ok && t.nextLen > 0 ==> t.nextOfs > 0) &&
            (ofs == 0 ==> exists rest: seq<Op> :: NoSetUp(rest) && t.ops == [ReadId, EnterTransparent, Erase] + rest)
  {
    hide Decide, NoSetUp, DoneOps, NextLen;
    var k := NewLine(data);
    var pre := if ofs == 0 then StartOps() else [];
    NoSetUpIn(st, data, k, ofs, size);
    if k == |data| {
      assert pre == pre + [];
    } else {
      var d := Decide(st, data, k, ofs, size);
      NoSetUpJoin(d.ops, DoneOps());
      var rest := if d.next.Some? then d.ops else d.ops + DoneOps();
      assert pre + d.ops + DoneOps() == pre + (d.ops + DoneOps());
      assert [] + rest == rest;
      assert NoSetUp(rest);
    }
  }

  lemma {:induction false} ScriptIsPlain(st: Static, image: string, ofs: nat, len: nat)
    requires |image| >= BOTTOM_LEN && ofs > 0
    ensures NoSetUp(ScriptOf(st, image, ofs, len).ops)
    decreases Rank(st.passing), |image| - ofs
  {
    hide TurnOf, Serve, NoSetUp;
    var t := TurnOf(st, Serve(image, ofs, len), ofs, |image|);
    TurnIsPlain(st, Serve(image, ofs, len), ofs, |image|);
    if t.ok && t.nextLen != 0 {
      TurnInside(st, image, ofs, len);
      ScriptIsPlain(t.st, image, t.nextOfs, t.nextLen);
      NoSetUpJoin(t.ops, ScriptOf(t.st, image, t.nextOfs, t.nextLen).ops);
    }
  }

  lemma {:induction false} ScriptStarts(st: Static, image: string, len: nat) returns (rest: seq<Op>)
    requires |image| >= BOTTOM_LEN
    ensures NoSetUp(rest) && ScriptOf(st, image, 0, len).ops == [ReadId, EnterTransparent, Erase] + rest
  {
    hide TurnOf, Serve, NoSetUp;
    var t := TurnOf(st, Serve(image, 0, len), 0, |image|);
    TurnIsPlain(st, Serve(image, 0, len), 0, |image|);
    rest :| NoSetUp(rest) && t.ops == [ReadId, EnterTransparent, Erase] + rest;
    if t.ok && t.nextLen != 0 {
      TurnInside(st, image, 0, len);
      ScriptIsPlain(t.st, image, t.nextOfs, t.nextLen);
      var more := ScriptOf(t.st, image, t.nextOfs, t.nextLen).ops;
      NoSetUpJoin(rest, more);
      assert [ReadId, EnterTransparent, Erase] + rest + more == [ReadId, EnterTransparent, Erase] + (rest + more);
      rest := rest + more;
    }
  }

  /** Every erase comes after a good identity read and a good switch to transparent mode, every
      page after a good erase, and nothing after a failed identity read. */
  ghost predicate SafeOrder(log: seq<Op>, link: Link) {
    (forall n :: 0 <= n < |log| && log[n] == Erase ==>
       exists i, j {:trigger log[i], log[j]} :: 0 <= i < j < n && log[i] == ReadId && link(i) && log[j] == EnterTransparent && link(j)) &&
    (forall n :: 0 <= n < |log| && log[n].ProgramPage? ==> exists m :: 0 <= m < n && log[m] == Erase && link(m)) &&
    (forall n :: 0 <= n < |log| && log[n] == ReadId && !link(n) ==> |log| == n + 1) &&
    (|log| > 0 ==> log[0] == ReadId)
  }

  lemma {:induction false} OrderIsSafe(log: seq<Op>, link: Link, rest: seq<Op>)
    requires NoSetUp(rest) && log <= [ReadId, EnterTransparent, Erase] + rest && forall n :: 0 <= n < |log| - 1 ==> link(n)
    ensures SafeOrder(log, link)
  {
    var ops := [ReadId, EnterTransparent, Erase] + rest;
    forall n | 0 <= n < |log|
      ensures log[n] == ops[n] && (n >= 3 ==> !IsSetUp(log[n]))
    {
      assert n >= 3 ==> ops[n] == rest[n - 3] && rest[n - 3] in rest;
    }
    forall n | 0 <= n < |log| && log[n] == Erase
      ensures exists i, j {:trigger log[i], log[j]} :: 0 <= i < j < n && log[i] == ReadId && link(i) && log[j] == EnterTransparent && link(j)
    {
      assert n == 2 && log[0] == ReadId && log[1] == EnterTransparent;
    }
    forall n | 0 <= n < |log| && log[n].ProgramPage?
      ensures exists m :: 0 <= m < n && log[m] == Erase && link(m)
    {
      assert n >= 3 && log[2] == Erase;
    }
  }

  /** Identity before erasure.  In every transfer of any image from any parsing state, with any
      failures: an erase has the identity read before it and the transparent mode between the
      two, both successful; a page is programmed only behind a successful erase; and a failed
      identity read is the last command. */
  lemma IdentityBeforeErasure(st: Static, link: Link, image: string, len: nat)
    requires |image| >= BOTTOM_LEN
    ensures SafeOrder(Transfer(st, [], link, image, 0, len).log, link)
  {
    hide Transfer, ScriptOf, SafeOrder, NoSetUp;
    AnyImage(st, [], link, image, 0, len);
    var rest := ScriptStarts(st, image, len);
    var ops := [ReadId, EnterTransparent, Erase] + rest;
    assert [] + ops == ops;
    OrderIsSafe(Transfer(st, [], link, image, 0, len).log, link, rest);
  }

  /** The plainest such image: lines without a fuse list.  The part is identified, put into
      transparent mode and erased, nothing is programmed, and the update reports success
      exactly when those three commands succeed. */
  lemma {:induction false} NoFuseListIsReportedDone(lines: seq<string>, ff: bool, log: seq<Op>, link: Link, image: string, ofs: nat, len: nat)
    requires lines != [] && forall l :: l in lines ==> LineOk(l) && !StartsWith(l, "L000")
    requires |image| >= BOTTOM_LEN && LongEnough(len, ofs, |image|)
    requires ofs <= |image| && image[ofs..] == Render(lines)
    ensures var c := Transfer(Static(First, ff), log, link, image, ofs, len);
            var r := RunOps(log, link, if ofs == 0 then [ReadId, EnterTransparent, Erase] else []);
            c.log == r.log && c.ok == r.ok
    decreases |lines|
  {
    hide RunOps, Call, Serve, Render, LongEnough, LineOk, StartsWith, StartOps, NextLen;
    StartOpsAre();
    var l, rest := lines[0], Render(lines[1..]);
    RenderOne(lines);
    CallHeader(ff, log, link, image, ofs, len, l, rest);
    var c := Call(Static(First, ff), log, link, Serve(image, ofs, len), ofs, |image|);
    if lines[1..] == [] {
      RenderNone();
    } else if c.ok && c.nextLen > 0 {
      NextInside(Static(First, ff), log, link, image, ofs, len);
      NoOps(c.log, link);
      NoFuseListIsReportedDone(lines[1..], ff, c.log, link, image, c.nextOfs, c.nextLen);
    } else {
      RenderOne(lines[1..]);
    }
  }

  lemma FlashStep(f: Flash, log: seq<Op>, op: Op)
    ensures FlashAfter(f, log + [op]) == Effect(FlashAfter(f, log), op)
  {
    assert (log + [op])[..|log|] == log;
  }

  /** Fuse rows as flash pages. */
  function RowPages(rows: seq<string>): map<nat, seq<Bits>> {
    map i: nat | i < |rows| :: Page(RowChars(rows[i]))
  }

  lemma {:induction false} RowOpsSnoc(rows: seq<string>, row: string)
    ensures RowOps(rows + [row]) == RowOps(rows) + [ProgramPage(Page(RowChars(row)))]
    decreases |rows|
  {
    hide Page, RowChars;
    if rows == [] {
      assert (rows + [row])[1..] == [];
    } else {
      assert (rows + [row])[1..] == rows[1..] + [row];
      RowOpsSnoc(rows[1..], row);
    }
  }

  lemma {:induction false} FlashRows(f: Flash, log: seq<Op>, rows: seq<string>)
    requires FlashAfter(f, log) == Flash(0, map[])
    ensures FlashAfter(f, log + RowOps(rows)) == Flash(|rows|, RowPages(rows))
    decreases |rows|
  {
    hide Page, RowChars, FlashAfter;
    if rows == [] {
      assert log + [] == log;
    } else {
      var n := |rows| - 1;
      assert rows == rows[..n] + [rows[n]];
      RowOpsSnoc(rows[..n], rows[n]);
      FlashRows(f, log, rows[..n]);
      var op := ProgramPage(Page(RowChars(rows[n])));
      FlashStep(f, log + RowOps(rows[..n]), op);
      assert log + RowOps(rows) == log + RowOps(rows[..n]) + [op];
      assert RowPages(rows[..n])[n := op.page] == RowPages(rows);
    }
  }

  lemma {:induction false} QuietTail(f: Flash, log: seq<Op>, ops: seq<Op>)
    requires forall o :: o in ops ==> !o.Erase? && !o.ProgramPage?
    ensures FlashAfter(f, log + ops).pages == FlashAfter(f, log).pages
    decreases |ops|
  {
    hide FlashAfter;
    if ops == [] {
      assert log + ops == log;
    } else {
      var n := |ops| - 1;
      assert log + ops == (log + ops[..n]) + [ops[n]];
      FlashStep(f, log + ops[..n], ops[n]);
      QuietTail(f, log, ops[..n]);
    }
  }

  /** The set-up and the pointer reset leave an erased part with the pointer at page 0. */
  lemma SetUp(f: Flash)
    ensures FlashAfter(f, StartOps() + [ResetPointer]) == Flash(0, map[])
    ensures FlashAfter(f, StartOps()).pages == map[]
  {
    hide FlashAfter;
    FlashNothing(f);
    FlashStep(f, [], ReadId);
    FlashStep(f, [ReadId], EnterTransparent);
    FlashStep(f, [ReadId, EnterTransparent], Erase);
    FlashStep(f, StartOps(), ResetPointer);
    assert [] + [ReadId] == [ReadId] && [ReadId] + [EnterTransparent] == [ReadId, EnterTransparent];
    assert [ReadId, EnterTransparent] + [Erase] == StartOps();
  }

  lemma FlashNothing(f: Flash)
    ensures FlashAfter(f, []) == f
  {
  }

  /** After a successful update the flash holds exactly the fuse rows, in file order from page
      0 on, and the wire carried each row's characters in file order. */
  lemma FlashHoldsTheFuses(j: Jed, f: Flash)
    requires JedOk(j)
    ensures FlashAfter(f, JedOps(j)).pages == RowPages(j.rows)
    ensures forall i :: 0 <= i < |j.rows| ==> Wire(RowPages(j.rows)[i]) == FuseBits(j.rows[i])
  {
    SetUp(f);
    forall i | 0 <= i < |j.rows|
      ensures Wire(RowPages(j.rows)[i]) == FuseBits(j.rows[i])
    {
      var row := j.rows[i];
      assert row in j.rows && row[..|row|] == row;
      RowServed(row, row);
      FileOrderOnWire(row);
    }
    hide Page, RowChars, FlashAfter;
    var pre := StartOps() + (if j.rows == [] then [] else [ResetPointer]);
    if j.rows == [] {
      assert pre == StartOps();
      assert pre + RowOps(j.rows) == pre;
    } else {
      FlashRows(f, pre, j.rows);
    }
    QuietTail(f, pre + RowOps(j.rows), UserOps(j.user) + DoneOps());
    JedOpsAre(j);
    assert JedOps(j) == pre + RowOps(j.rows) + (UserOps(j.user) + DoneOps());
  }

  /** A call that goes on moves forward, unless it jumps at the end of the fuse list: then
      exactly when the bottom part lies ahead. */
  lemma OffsetsIncrease(st: Static, log: seq<Op>, link: Link, data: string, ofs: nat, size: nat)
    requires size >= BOTTOM_LEN
    ensures var c := Call(st, log, link, data, ofs, size);
            var jumps := st.passing == CfgStarted && StartsWith(data, "*");
            c.ok && c.nextLen > 0 ==> (c.nextOfs > ofs <==> !jumps || size - BOTTOM_LEN > ofs || size == BOTTOM_LEN)
  {
    hide RunOps, Page, RowChars, StartsWith;
  }

  /** A failed call leaves the parsing state where it was, and nothing resets it; only a closing
      sequence that fails comes after the state has been set back. */
  lemma FailureKeepsState(st: Static, log: seq<Op>, link: Link, data: string, ofs: nat, size: nat)
    requires size >= BOTTOM_LEN
    ensures var c := Call(st, log, link, data, ofs, size);
            var closing := st.passing == CfgEnded && StartsWith(data, "UH") && NewLine(data) < |data| &&
                           RunOps(log, link, (if ofs == 0 then StartOps() else []) + UserOps(data)).ok;
            !c.ok ==> c.st == if closing then Static(First, st.firstFlag) else st
  {
    hide RunOps, Page, RowChars, StartsWith, UserOps, StartOps, DoneOps;
    var pre := if ofs == 0 then StartOps() else [];
    RunSplit(log, link, pre, UserOps(data));
  }

  /** So the next update, if no command of its first call fails, programs its first line as a
      page right after the erase exactly when the one before stopped inside the fuse list and
      that line does not begin with an asterisk. */
  lemma {:induction false} StaleStateProgramsFirstLine(st: Static, link: Link, data: string, size: nat)
    requires size >= BOTTOM_LEN && NewLine(data) < |data| && forall n :: link(n)
    ensures var log := Call(st, [], link, data, 0, size).log;
            if st.passing == CfgStarted && !StartsWith(data, "*") then
              log == [ReadId, EnterTransparent, Erase] + (if st.firstFlag then [ResetPointer] else []) + [ProgramPage(Page(RowChars(data)))]
            else NoPages(log)
  {
    StartOpsAre();
    assert StartOps() + ((if st.firstFlag then [ResetPointer] else []) + [ProgramPage(Page(RowChars(data)))]) ==
           StartOps() + (if st.firstFlag then [ResetPointer] else []) + [ProgramPage(Page(RowChars(data)))];
    assert PageOps(st.firstFlag, data) == (if st.firstFlag then [ResetPointer] else []) + [ProgramPage(Page(RowChars(data)))];
    hide RunOps, Page, RowChars, StartsWith, NoPages, Call, StartOps, UserOps, DoneOps, PageOps;
    HealthyCall(st, link, data, size);
    SequencesHaveNoPages(data);
    assert StartOps() + [] + [] == StartOps() && StartOps() + PageOps(st.firstFlag, data) + [] == StartOps() + PageOps(st.firstFlag, data);
    NoPagesConcat(StartOps(), UserOps(data));
    NoPagesConcat(StartOps() + UserOps(data), DoneOps());
  }

  /** A first call in which nothing fails issues the set-up and what the line asks for. */
  lemma HealthyCall(st: Static, link: Link, data: string, size: nat)
    requires size >= BOTTOM_LEN && NewLine(data) < |data| && forall n :: link(n)
    ensures var d := Decide(st, data, NewLine(data), 0, size);
            Call(st, [], link, data, 0, size).log == StartOps() + d.ops + (if d.next.None? then DoneOps() else [])
  {
    hide Call, RunOps, Decide, StartOps, DoneOps, NewLine;
    CallIsTurn(st, [], link, data, 0, size);
    var d := Decide(st, data, NewLine(data), 0, size);
    var t := TurnOf(st, data, 0, size);
    assert [] + t.ops == t.ops && StartOps() + d.ops + [] == StartOps() + d.ops;
  }

  predicate NoPages(log: seq<Op>) { forall o :: o in log ==> !o.ProgramPage? }

  lemma SequencesHaveNoPages(data: string)
    ensures NoPages([]) && NoPages(StartOps()) && NoPages(UserOps(data)) && NoPages(DoneOps())
  {
  }

  lemma NoPagesConcat(a: seq<Op>, b: seq<Op>)
    ensures NoPages(a) && NoPages(b) ==> NoPages(a + b)
  {
  }

  // -------------------------------------------------------------- imperative

  class LatticeUpdater {
    const link: Link
    var log: seq<Op>
    var passing: Passing
    var firstFlag: bool

    constructor (link: Link)
      ensures this.link == link && log == [] && Static(passing, firstFlag) == INITIAL
    {
      this.link := link;
      log, passing, firstFlag := [], First, false;
    }

    method Command(op: Op) returns (ok: bool)
      modifies this`log
      ensures Ran(log, ok) == RunOps(old(log), link, [op])
    {
      ok := link(|log|);
      log := log + [op];
    }

    /** cpld_i2c_get_id with the ID comparison, enter_transparent_mode, erase_flash. */
    method Prepare() returns (ok: bool)
      modifies this`log
      ensures Ran(log, ok) == RunOps(old(log), link, [ReadId, EnterTransparent, Erase])
    {
      hide RunOps;
      ghost var was := log;
      Split3(was, link, ReadId, EnterTransparent, Erase);
      ok := Command(ReadId);
      if !ok {
        return;
      }
      ok := Command(EnterTransparent);
      if !ok {
        return;
      }
      ok := Command(Erase);
    }

    /** cfg_data_parsing followed by cpld_program_i2c. */
    method ProgramRow(data: string) returns (ok: bool)
      modifies this`log
      ensures Ran(log, ok) == RunOps(old(log), link, PageOps(firstFlag, data))
    {
      hide RunOps, RowChars;
      var row := RowChars(data);
      var words := CfgDataParsing(row);
      var page := SwapPage(words);
      assert page == Page(row);
      RunSplit(log, link, [ResetPointer], [ProgramPage(page)]);
      assert [] + [ProgramPage(page)] == [ProgramPage(page)];
      if firstFlag {
        ok := Command(ResetPointer);
        if !ok {
          return;
        }
      }
      ok := Command(ProgramPage(page));
    }

    /** program_user_code. */
    method ProgramUserCode(data: string) returns (ok: bool)
      modifies this`log
      ensures Ran(log, ok) == RunOps(old(log), link, UserOps(data))
    {
      hide RunOps, RowChars;
      Split4(log, link, ResetPointer, WriteUserCode(UserText(data)), ResetPointer, ReadUserCode);
      ok := Command(ResetPointer);
      if !ok {
        return;
      }
      ok := Command(WriteUserCode(UserText(data)));
      if !ok {
        return;
      }
      ok := Command(ResetPointer);
      if !ok {
        return;
      }
      ok := Command(ReadUserCode);
    }

    /** program_done, exit_program_mode and bypass_instruction. */
    method Finish() returns (ok: bool)
      modifies this`log
      ensures Ran(log, ok) == RunOps(old(log), link, DoneOps())
    {
      hide RunOps;
      Split4(log, link, ResetPointer, ProgramDone, ExitProgramMode, Bypass);
      ok := Command(ResetPointer);
      if !ok {
        return;
      }
      ok := Command(ProgramDone);
      if !ok {
        return;
      }
      ok := Command(ExitProgramMode);
      if !ok {
        return;
      }
      ok := Command(Bypass);
    }

    /** The newline search. */
    method FindNewLine(data: string) returns (idx: nat)
      requires data != ""
      ensures idx == NewLine(data)
    {
      idx := 0;
      while idx < |data| - 1
        invariant idx <= |data| - 1 && NewLine(data) == idx + NewLine(data[idx..])
      {
        if data[idx] == '\r' && data[idx + 1] == '\n' {
          return;
        }
        assert data[idx..][1..] == data[idx + 1..];
        idx := idx + 1;
      }
      idx := |data|;
    }

    /** The switch on passing_state. */
    method Dispatch(data: string, idx: nat, ofs: nat, size: nat) returns (ok: bool, nextOfs: nat, done: bool)
      requires size >= BOTTOM_LEN
      modifies this
      ensures var d := Decide(old(Static(passing, firstFlag)), data, idx, ofs, size);
              var b := RunOps(old(log), link, d.ops);
              log == b.log && ok == b.ok && Static(passing, firstFlag) == (if ok then d.st else old(Static(passing, firstFlag))) &&
              (ok ==> done == d.next.None?) && nextOfs == (if ok && d.next.Some? then d.next.value else ofs + idx + 2)
    {
      hide RunOps, PageOps, UserOps, StartsWith;
      NoOps(log, link);
      ok, done := true, false;
      nextOfs := ofs + idx + 2;
      match passing {
        case First =>
          if StartsWith(data, "L000") {
            passing := CfgStarted;
            firstFlag := true;
          }
        case CfgStarted =>
          if StartsWith(data, "*") {
            passing := CfgEnded;
            nextOfs := size - BOTTOM_LEN;
          } else {
            ok := ProgramRow(data);
            if !ok {
              return;
            }
            firstFlag := false;
          }
        case CfgEnded =>
          if StartsWith(data, "UH") {
            ok := ProgramUserCode(data);
            if !ok {
              return;
            }
            done := true;
            passing := First;
          }
      }
    }

    /** x02x03_i2c_update. */
    method Update(data: string, ofs: nat, size: nat) returns (ok: bool, nextOfs: nat, nextLen: nat)
      requires data != "" && size >= BOTTOM_LEN
      modifies this
      ensures Called(Static(passing, firstFlag), log, ok, nextOfs, nextLen) ==
              Call(old(Static(passing, firstFlag)), old(log), link, data, ofs, size)
    {
      hide RunOps, Decide, DoneOps, StartOps, StartsWith;
      StartOpsAre();
      NoOps(log, link);
      nextOfs, nextLen := 0, 0;
      if ofs == 0 {
        ok := Prepare();
        if !ok {
          return;
        }
      }
      var idx := FindNewLine(data);
      if idx == |data| {
        return false, 0, 0;
      }
      NoOps(log, link);
      nextOfs := ofs + idx + 2;
      nextLen := MAX_TRANS_LEN;
      var done;
      ok, nextOfs, done := Dispatch(data, idx, ofs, size);
      if !ok {
        return;
      }
      if done {
        nextLen := 0;
      }
      if nextOfs == 0 {
        nextOfs := ofs + MAX_TRANS_LEN;
        nextLen := MAX_TRANS_LEN;
      }
      if nextLen != 0 {
        if nextOfs + nextLen >= size {
          nextLen := if nextOfs <= size then size - nextOfs else WrappedLen(nextOfs, size);
        }
        return true, nextOfs, nextLen;
      }
      ok := Finish();
    }
  }

  lemma Split3(log: seq<Op>, link: Link, a: Op, b: Op, c: Op)
    ensures RunOps(log, link, [a, b, c]) ==
            var x := RunOps(log, link, [a]);
            var y := RunOps(x.log, link, [b]);
            if !x.ok then x else if !y.ok then y else RunOps(y.log, link, [c])
  {
    hide RunOps;
    RunSplit(log, link, [a], [b, c]);
    RunSplit(RunOps(log, link, [a]).log, link, [b], [c]);
    assert [a] + [b, c] == [a, b, c] && [b] + [c] == [b, c];
  }

  lemma {:induction false} Split4(log: seq<Op>, link: Link, a: Op, b: Op, c: Op, d: Op)
    ensures RunOps(log, link, [a, b, c, d]) ==
            var x := RunOps(log, link, [a]);
            var y := RunOps(x.log, link, [b]);
            var z := RunOps(y.log, link, [c]);
            if !x.ok then x else if !y.ok then y else if !z.ok then z else RunOps(z.log, link, [d])
  {
    hide RunOps;
    RunSplit(log, link, [a], [b, c, d]);
    Split3(RunOps(log, link, [a]).log, link, b, c, d);
    assert [a] + [b, c, d] == [a, b, c, d];
  }
}
