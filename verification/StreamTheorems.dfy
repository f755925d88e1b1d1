// Whole streaming updates: what every image, every cut and every pattern of bus failures
// leave on the device.
module StreamTheorems {
  import opened CText
  import opened VrBus
  import opened StreamSpec
  import opened StreamChunks
  import opened StreamSafety

  // ----------------------------------------------------- write protection

  /** A transaction of the restore touches neither rows, stores nor memory. */
  lemma ProtectStep(b: Bus, link: Link, op: Op)
    requires op.Send? ==> op.origin == Driver && op.cmd == CMD_WRITE_PROTECT && b.vr.page == PAGE_RAIL1
    ensures var d := Exec(b, link, op).bus;
            RowSends(d.log) == RowSends(b.log) && WritePages(d.log) == WritePages(b.log) && Unstored(d.log) == Unstored(b.log) &&
            (SelectsClean(b.log) <==> SelectsClean(d.log)) && (RowsLand(b.log) <==> RowsLand(d.log)) &&
            (RowsAcked(b.log) <==> RowsAcked(d.log)) && d.vr.ram == b.vr.ram && d.vr.nvm == b.vr.nvm &&
            (op.SetPage? && link(|b.log|).acked ==> d.vr.page == op.page)
  {
    hide RowsLand, RowsAcked, SelectsClean, Unstored, RowSends, WritePages, Store, Restore, Fit;
    ExecLog(b, link, op, 0);
  }

  /** Rewriting the protection is invisible to the configuration. */
  lemma SetProtectTail(b: Bus, link: Link, wp: byte)
    ensures var d := SetWriteProtect(b, link, wp).bus;
            RowSends(d.log) == RowSends(b.log) && WritePages(d.log) == WritePages(b.log) && Unstored(d.log) == Unstored(b.log) &&
            (SelectsClean(b.log) <==> SelectsClean(d.log)) && (RowsLand(b.log) <==> RowsLand(d.log)) &&
            (RowsAcked(b.log) <==> RowsAcked(d.log)) && d.vr.ram == b.vr.ram && d.vr.nvm == b.vr.nvm
  {
    hide RowsLand, RowsAcked, SelectsClean, Unstored, RowSends, WritePages, Exec;
    var a := Exec(b, link, SetPage(PAGE_RAIL1));
    ProtectStep(b, link, SetPage(PAGE_RAIL1));
    AckIs(b, link, SetPage(PAGE_RAIL1));
    if a.ok {
      var w := Exec(a.bus, link, Send(CMD_WRITE_PROTECT, [wp], Driver));
      ProtectStep(a.bus, link, Send(CMD_WRITE_PROTECT, [wp], Driver));
      var p := Exec(w.bus, link, SetPage(PAGE_RAIL1));
      ProtectStep(w.bus, link, SetPage(PAGE_RAIL1));
      ProtectStep(p.bus, link, Fetch(CMD_WRITE_PROTECT, 1));
    }
  }

  /** Operations of the log from position n on. */
  function OpsFrom(log: seq<Entry>, n: nat): seq<Op>
    requires n <= |log|
  {
    seq(|log| - n, i requires 0 <= i < |log| - n => log[n + i].op)
  }

  /** The transactions that put a protection value back. */
  function ProtectOps(wp: byte): seq<Op> {
    [SetPage(0), Send(0x10, [wp], Driver), SetPage(0), Fetch(0x10, 1)]
  }

  /** The restore performs a prefix of those four, and decides WRITE_PROTECT as stated: the
      value goes back exactly when the driver is willing to write it, the page select is
      acknowledged and the write lands. */
  lemma SetProtectExact(b: Bus, link: Link, wp: byte)
    ensures var d := SetWriteProtect(b, link, wp);
            var n := |b.log|;
            n < |d.bus.log| && d.bus.log[..n] == b.log && OpsFrom(d.bus.log, n) <= ProtectOps(wp) &&
            d.bus.vr.wp == (if link(n).acked && wp in {0x00, 0x01, 0x20, 0x40, 0x80} && (link(n + 1).acked || link(n + 1).landed) && !link(n + 1).locked
                            then wp else b.vr.wp)
  {
    hide Store, Restore, Fit;
    var a := Exec(b, link, SetPage(PAGE_RAIL1));
    var w := Exec(a.bus, link, Send(CMD_WRITE_PROTECT, [wp], Driver));
    var p := Exec(w.bus, link, SetPage(PAGE_RAIL1));
    var d := SetWriteProtect(b, link, wp);
    assert d.bus.log[..|b.log|] == b.log;
  }

  // -------------------------------------------------------------- the runs

  /** The state of an update once its image has been worked off, or given up, and only the
      protection is still to be put back. */
  function BeforeRestore(s: Stream, link: Link, image: string): Stream {
    var f := Feed(Begin(s.bus, link).s, link, image);
    if !f.ok || f.s.line != "" then f.s.(aborted := true)
    else
      var c := if f.s.pastEnd then Outcome(f.s, true) else Commit(f.s, link);
      if c.ok && c.s.applied > 0 then c.s else c.s.(aborted := true)
  }

  /** Every update past its set-up ends by putting the protection back, whatever its image. */
  lemma OneCallRestores(s: Stream, link: Link, image: string)
    requires Begin(s.bus, link).ok
    ensures var mid, r := BeforeRestore(s, link, image), OneCall(s, link, image);
            r == Outcome(RestoreProtection(mid, link), !mid.aborted) && mid.savedWp == Begin(s.bus, link).s.savedWp
  {
    hide Feed, StoreAndVerify, RestoreProtection, CheckDeviceId, GetWriteProtect, SetWriteProtect, Exec;
    var b := Begin(s.bus, link).s;
    assert b.line + image == image;
  }

  lemma BeforeRestoreTidy(s: Stream, link: Link, image: string)
    requires s.bus.log == [] && Begin(s.bus, link).ok
    ensures var mid := BeforeRestore(s, link, image);
            LogOk(mid.bus, |Begin(s.bus, link).s.bus.log|) && (!mid.aborted ==> Unstored(mid.bus.log) == {} && RowsAcked(mid.bus.log))
  {
    hide LogOk, RowsAcked, Unstored, Begin, StoreAndVerify, Feed;
    var b := Begin(s.bus, link).s;
    assert s.bus == Bus(s.bus.vr, []);
    BeginIsTidy(s.bus.vr, link);
    FeedTidy(b, link, image, |b.bus.log|);
    var f := Feed(b, link, image);
    if f.ok && f.s.line == "" {
      StoreAndVerifyTidy(f.s, link, |b.bus.log|);
    }
  }

  /** A set-up has issued nothing but driver transactions, failed or not. */
  lemma {:induction false} BeginIsPlain(vr: Vr, link: Link)
    ensures Plain(Begin(Bus(vr, []), link).s.bus.log)
  {
    hide GetWriteProtect, SetWriteProtect, Store, Restore, IsFamilyId;
    var id := CheckDeviceId(Bus(vr, []), link);
    var pw := Exec(id.bus, link, Fetch(CMD_PASSWORD, 2));
    GetProtectEffect(pw.bus, link);
    SetProtectEffect(GetWriteProtect(pw.bus, link).bus, link, 0);
  }

  lemma RestoreTail(mid: Stream, link: Link)
    ensures RestoreProtection(mid, link).applied == mid.applied
    ensures var d := RestoreProtection(mid, link).bus;
            RowSends(d.log) == RowSends(mid.bus.log) && WritePages(d.log) == WritePages(mid.bus.log) && Unstored(d.log) == Unstored(mid.bus.log) &&
            (SelectsClean(mid.bus.log) ==> SelectsClean(d.log)) && (RowsLand(mid.bus.log) <==> RowsLand(d.log)) &&
            (RowsAcked(mid.bus.log) <==> RowsAcked(d.log)) &&
            d.vr.ram == mid.bus.vr.ram && d.vr.nvm == mid.bus.vr.nvm
  {
    hide RowsLand, RowsAcked, SelectsClean, Unstored, RowSends, WritePages, SetWriteProtect;
    SetProtectTail(mid.bus, link, mid.savedWp);
  }

  lemma PlainLands(log: seq<Entry>)
    requires Plain(log)
    ensures RowsLand(log)
  {
  }

  // ------------------------------------------------------------- theorems

  /** Sets are selected clean.  On every run, finished or aborted anywhere, for every image and
      every pattern of bus failures, a set is selected only when nothing but shared registers
      is waiting to be stored. */
  lemma {:induction false} SelectsFindNothingPending(s: Stream, link: Link, chunks: seq<string>)
    requires s.bus.log == [] && chunks != []
    ensures SelectsClean(Session(s, link, chunks).s.bus.log)
  {
    hide RowsAcked, SelectsClean, Begin, RestoreProtection, BeforeRestore, Plain;
    var image := Concat(chunks);
    ChunkIndependence(s, link, chunks);
    var b := Begin(s.bus, link);
    assert s.bus == Bus(s.bus.vr, []);
    if b.ok {
      OneCallRestores(s, link, image);
      BeforeRestoreTidy(s, link, image);
      RestoreTail(BeforeRestore(s, link, image), link);
    } else {
      BeginIsPlain(s.bus.vr, link);
      PlainLog(b.s.bus.log);
    }
  }

  /** Nothing is left unstored.  Whenever an update reports success, whatever its image, every
      configuration write has been followed by an acknowledged STORE_USER. */
  lemma {:induction false} NothingLeftUnstored(s: Stream, link: Link, chunks: seq<string>)
    requires s.bus.log == [] && chunks != []
    requires Session(s, link, chunks).ok
    ensures Unstored(Session(s, link, chunks).s.bus.log) == {}
  {
    hide RowsAcked, Unstored, Begin, RestoreProtection, LogOk, BeforeRestore;
    var image := Concat(chunks);
    ChunkIndependence(s, link, chunks);
    OneCallRestores(s, link, image);
    BeforeRestoreTidy(s, link, image);
    RestoreTail(BeforeRestore(s, link, image), link);
  }

  /** Write protection.  Every update that gets past the set-up and then ends, by success or
      by an abort anywhere, whatever its image, has as its last transactions a prefix of the
      four that put the saved value back (none if protection was off), the driver has not
      written WRITE_PROTECT in between, and the final value is the saved one exactly when the
      restore takes effect, else whatever the image left. */
  lemma {:induction false} ProtectionRestored(s: Stream, link: Link, chunks: seq<string>)
    requires s.bus.log == [] && chunks != [] && Begin(s.bus, link).ok
    ensures var d := Session(s, link, chunks).s.bus;
            var saved := s.bus.vr.wp;
            var mid := BeforeRestore(s, link, Concat(chunks)).bus;
            var n := |mid.log|;
            |Begin(s.bus, link).s.bus.log| <= n <= |d.log| && d.log[..n] == mid.log &&
            NoProtectFrom(mid.log, |Begin(s.bus, link).s.bus.log|) &&
            (if saved == 0 then d == mid
             else n < |d.log| && OpsFrom(d.log, n) <= ProtectOps(saved) &&
                  d.vr.wp == if link(n).acked && saved in {0x00, 0x01, 0x20, 0x40, 0x80} && (link(n + 1).acked || link(n + 1).landed) && !link(n + 1).locked
                             then saved else mid.vr.wp)
  {
    hide RowsAcked, Unstored, Begin, SetWriteProtect, RowsLand, SelectsClean, NoProtectFrom, BeforeRestore;
    var image := Concat(chunks);
    ChunkIndependence(s, link, chunks);
    assert s.bus == Bus(s.bus.vr, []);
    BeginIsTidy(s.bus.vr, link);
    OneCallRestores(s, link, image);
    BeforeRestoreTidy(s, link, image);
    var mid := BeforeRestore(s, link, image);
    SetProtectExact(mid.bus, link, mid.savedWp);
  }
}
