// Whole-image updates: same guarantees as the streaming path, and the two paths agree on
// the images both are meant for.
module BatchTheorems {
  import opened CText
  import opened VrBus
  import opened StreamSpec
  import opened StreamSafety
  import opened StreamTheorems
  import opened StreamPlan
  import opened StreamPages
  import opened StreamMemory
  import opened BatchSpec

  /** The writes a configuration list asks for; an entry longer than a word ends it. */
  function ListSends(cfgs: seq<Cfg>): seq<Op> {
    if cfgs == [] || cfgs[0].len > 2 then [] else [CfgSend(cfgs[0])] + ListSends(cfgs[1..])
  }

  predicate Writeable(cfgs: seq<Cfg>) {
    forall c :: c in cfgs ==> c.len <= 2
  }

  lemma {:induction false} EntriesSend(b: Bus, link: Link, cfgs: seq<Cfg>, page: byte)
    ensures var d := WriteEntries(b, link, cfgs, page);
            RowSends(d.bus.log) <= RowSends(b.log) + ListSends(cfgs) &&
            (d.ok ==> RowSends(d.bus.log) == RowSends(b.log) + ListSends(cfgs)) &&
            (Healthy(link) && Writeable(cfgs) ==> d.ok)
    decreases |cfgs|
  {
    hide RowSends, WritePages, Exec, CfgSend, Unstored, SelectsClean, RowsLand, Healthy;
    if cfgs != [] && cfgs[0].len <= 2 {
      var c := cfgs[0];
      DriverSendsNothing(b, link, SetPage(c.page));
      var p := if c.page != page then Exec(b, link, SetPage(c.page)) else Done(b, true, []);
      if p.ok {
        var w := Exec(p.bus, link, CfgSend(c));
        ExecAck(p.bus, link, CfgSend(c));
        if w.ok {
          EntriesSend(w.bus, link, cfgs[1..], c.page);
          Regroup(RowSends(b.log), CfgSend(c), ListSends(cfgs[1..]));
        }
      }
    }
  }

  lemma Regroup(a: seq<Op>, x: Op, b: seq<Op>)
    ensures a + [x] + b == a + ([x] + b)
    ensures a <= a + ([x] + b)
  {
  }

  lemma ExecAck(b: Bus, link: Link, op: Op)
    requires op.Send? && op.origin.FromRow?
    ensures var d := Exec(b, link, op);
            RowSends(d.bus.log) == RowSends(b.log) + (if d.ok then [op] else []) && (Healthy(link) ==> d.ok)
  {
    hide RowsAcked, Unstored, RowSends, WritePages, SelectsClean, RowsLand, Effect, Answer, IsFamilyId, CmlClean, Fit;
    ExecLog(b, link, op, 0);
  }

  /** Where a list takes the page pointer. */
  function ListVisits(cfgs: seq<Cfg>): seq<Visit> {
    if cfgs == [] || cfgs[0].len > 2 then []
    else [Visit(cfgs[0].page, Some(CfgSend(cfgs[0])))] + ListVisits(cfgs[1..])
  }

  function TrackList(cfgs: seq<Cfg>, t: Pages): (u: Pages)
    ensures (u.lands ==> t.lands) && t.made <= u.made
  {
    AfterVisits(t, ListVisits(cfgs))
  }

  /** No entry of the list is misled. */
  predicate ListLands(cfgs: seq<Cfg>) { AllLand(ListVisits(cfgs)) }

  lemma ListTracked(cfgs: seq<Cfg>, t: Pages)
    ensures TrackList(cfgs, t) ==
              if cfgs == [] || cfgs[0].len > 2 then t
              else TrackList(cfgs[1..], AfterWrite(Reached(t, cfgs[0].page), CfgSend(cfgs[0])))
  {
    hide AfterWrite, CfgSend;
    if cfgs != [] && cfgs[0].len <= 2 {
      assert ListVisits(cfgs)[1..] == ListVisits(cfgs[1..]);
    }
  }

  lemma {:induction false} ListIsProper(cfgs: seq<Cfg>)
    ensures Proper(ListVisits(cfgs))
    decreases |cfgs|
  {
    hide LittleEndian;
    if cfgs != [] {
      ListIsProper(cfgs[1..]);
    }
  }

  lemma {:induction false} EntriesTidy(b: Bus, link: Link, cfgs: seq<Cfg>, page: byte, base: nat)
    requires LogOk(b, base) && Unstored(b.log) <= {0}
    ensures var d := WriteEntries(b, link, cfgs, page);
            LogOk(d.bus, base) && Unstored(d.bus.log) <= {0}
    decreases |cfgs|
  {
    hide RowsAcked, LogOk, Exec, LittleEndian, Unstored, RowSends, WritePages;
    if cfgs != [] && cfgs[0].len <= 2 {
      var c := cfgs[0];
      DriverStep(b, link, SetPage(c.page), base);
      var p := if c.page != page then Exec(b, link, SetPage(c.page)) else Done(b, true, []);
      if p.ok {
        EntryTidy(p.bus, link, c, base);
        var w := Exec(p.bus, link, CfgSend(c));
        if w.ok {
          EntriesTidy(w.bus, link, cfgs[1..], c.page, base);
        }
      }
    }
  }

  lemma EntryTidy(b: Bus, link: Link, c: Cfg, base: nat)
    requires LogOk(b, base) && Unstored(b.log) <= {0} && c.len <= 2
    ensures var d := Exec(b, link, CfgSend(c));
            LogOk(d.bus, base) && Unstored(d.bus.log) <= {0}
  {
    hide RowsAcked, RowsLand, SelectsClean, NoProtectFrom, Unstored, RowSends, WritePages, Effect, Fit, LittleEndian;
    ExecLog(b, link, CfgSend(c), base);
  }

  lemma BatchStoreTidy(b: Bus, link: Link, base: nat)
    requires LogOk(b, base)
    ensures var d := BatchStore(b, link);
            LogOk(d.bus, base) && (d.ok ==> Unstored(d.bus.log) == {}) &&
            WritePages(d.bus.log) == WritePages(b.log) && (RowsLand(d.bus.log) <==> RowsLand(b.log)) && d.bus.vr.wp == b.vr.wp
  {
    hide RowsAcked, LogOk, Exec, Unstored, RowSends, WritePages, CmlClean, RowsLand;
    var p := Exec(b, link, SetPage(PAGE_RAIL1));
    DriverStep(b, link, SetPage(PAGE_RAIL1), base);
    QuietCommand(b, link, SetPage(PAGE_RAIL1));
    var w := Exec(p.bus, link, Send(CMD_STORE_USER, [], Driver));
    DriverStep(p.bus, link, Send(CMD_STORE_USER, [], Driver), base);
    QuietCommand(p.bus, link, Send(CMD_STORE_USER, [], Driver));
    var a := Exec(w.bus, link, SetPage(PAGE_RAIL1));
    DriverStep(w.bus, link, SetPage(PAGE_RAIL1), base);
    QuietCommand(w.bus, link, SetPage(PAGE_RAIL1));
    DriverStep(a.bus, link, Fetch(CMD_STATUS_CML, 1), base);
    QuietCommand(a.bus, link, Fetch(CMD_STATUS_CML, 1));
  }

  /** The device is where the track says, with the page the loop selected last. */
  ghost predicate At(b: Bus, page: byte, t: Pages) {
    page == t.cached && b.vr.page == t.actual && b.vr.wp == t.wp && WritePages(b.log) == t.made && (RowsLand(b.log) <==> t.lands)
  }

  lemma {:induction false} EntriesTrack(b: Bus, link: Link, cfgs: seq<Cfg>, page: byte, t: Pages)
    requires At(b, page, t)
    ensures var d := WriteEntries(b, link, cfgs, page);
            Stopped(d.bus, TrackList(cfgs, t), link) &&
            (d.ok ==> WritePages(d.bus.log) == TrackList(cfgs, t).made)
    decreases |cfgs|
  {
    hide Exec, LittleEndian, RowsLand, WritePages, CfgSend, AfterWrite, Healthy, TrackList;
    ListTracked(cfgs, t);
    if cfgs != [] && cfgs[0].len <= 2 {
      var c := cfgs[0];
      QuietCommand(b, link, SetPage(c.page));
      HealthyAcks(b, link, SetPage(c.page));
      var p := if c.page != page then Exec(b, link, SetPage(c.page)) else Done(b, true, []);
      var t1 := Reached(t, c.page);
      if p.ok {
        EntryTrack(p.bus, link, c, t1);
        HealthyAcks(p.bus, link, CfgSend(c));
        var w := Exec(p.bus, link, CfgSend(c));
        if w.ok {
          EntriesTrack(w.bus, link, cfgs[1..], c.page, AfterWrite(t1, CfgSend(c)));
        }
      }
    }
  }

  lemma HealthyAcks(b: Bus, link: Link, op: Op)
    ensures Healthy(link) ==> Exec(b, link, op).ok
  {
    hide IsFamilyId, CmlClean, Fit, Effect, Answer;
  }

  lemma EntryTrack(b: Bus, link: Link, c: Cfg, t: Pages)
    requires At(b, c.page, t) && c.len <= 2
    ensures var d, u := Exec(b, link, CfgSend(c)), AfterWrite(t, CfgSend(c));
            WritePages(d.bus.log) <= u.made && (RowsLand(d.bus.log) <==> u.lands) && u.cached == t.cached &&
            (d.ok ==> At(d.bus, c.page, u))
  {
    hide RowsAcked, RowsLand, SelectsClean, Unstored, RowSends, WritePages, Store, Restore, Fit, LittleEndian;
    ExecLog(b, link, CfgSend(c), 0);
    StoreIs(b.vr);
    RestoreIs(b.vr);
  }

  lemma BatchStoreSends(b: Bus, link: Link)
    ensures var d := BatchStore(b, link);
            RowSends(d.bus.log) == RowSends(b.log) && (Healthy(link) ==> d.ok)
  {
    hide RowSends, WritePages, Exec, IsFamilyId, Fit;
    var p := Exec(b, link, SetPage(PAGE_RAIL1));
    DriverSendsNothing(b, link, SetPage(PAGE_RAIL1));
    var w := Exec(p.bus, link, Send(CMD_STORE_USER, [], Driver));
    DriverSendsNothing(p.bus, link, Send(CMD_STORE_USER, [], Driver));
    var a := Exec(w.bus, link, SetPage(PAGE_RAIL1));
    DriverSendsNothing(w.bus, link, SetPage(PAGE_RAIL1));
    DriverSendsNothing(a.bus, link, Fetch(CMD_STATUS_CML, 1));
  }

  lemma BatchBeginIsPlain(vr: Vr, link: Link)
    ensures var s := BatchBegin(Bus(vr, []), link);
            Plain(s.bus.log) && s.bus.vr.regs == vr.regs &&
            (s.ok ==> s.data == [vr.wp] && s.bus.vr.wp == 0 && s.bus.vr.page == PAGE_RAIL1)
  {
    hide GetWriteProtect, SetWriteProtect, Store, Restore, IsFamilyId;
    var id := CheckDeviceId(Bus(vr, []), link);
    GetProtectEffect(id.bus, link);
    SetProtectEffect(GetWriteProtect(id.bus, link).bus, link, 0);
  }

  lemma HealthyBatchBegins(vr: Vr, link: Link)
    requires Healthy(link)
    ensures BatchBegin(Bus(vr, []), link).ok
  {
    hide Store, Restore, IsFamilyId, FamilyBlock, CmlClean;
    FamilyIs(Fit(link(1).data, 9));
    var b := Bus(vr, []);
    var a := Exec(b, link, SetPage(PAGE_RAIL1));
    var f := Exec(a.bus, link, Fetch(CMD_IC_DEVICE_ID, 9));
    assert f.data == Fit(link(1).data, 9);
    assert CheckDeviceId(b, link).ok;
    var g := GetWriteProtect(f.bus, link);
    assert Fit([0], 1) == [0];
    assert SetWriteProtect(g.bus, link, 0).ok;
  }

  // ------------------------------------------------------------- theorems

  /** A whole-image update writes its list: a prefix on any bus, all of it on success. */
  lemma {:induction false} BatchWritesItsList(vr: Vr, link: Link, cfgs: seq<Cfg>)
    ensures var d := BatchUpdate(Bus(vr, []), link, cfgs);
            RowSends(d.bus.log) <= ListSends(cfgs) &&
            (d.ok ==> RowSends(d.bus.log) == ListSends(cfgs)) &&
            (Healthy(link) && Writeable(cfgs) ==> (d.ok <==> cfgs != []))
  {
    hide BatchBegin, RowSends, WritePages, Exec, WriteEntries, BatchStore, SetWriteProtect, Healthy;
    PlainLog([]);
    if cfgs != [] {
      var s := BatchBegin(Bus(vr, []), link);
      BatchBeginIsPlain(vr, link);
      PlainLog(s.bus.log);
      if Healthy(link) {
        HealthyBatchBegins(vr, link);
      }
      if s.ok {
        DriverSendsNothing(s.bus, link, Send(CMD_CLEAR_FAULT, [], Driver));
        var c := Exec(s.bus, link, Send(CMD_CLEAR_FAULT, [], Driver));
        EntriesSend(c.bus, link, cfgs, NO_PAGE);
        var e := WriteEntries(c.bus, link, cfgs, NO_PAGE);
        assert RowSends(c.bus.log) + ListSends(cfgs) == ListSends(cfgs);
        BatchStoreSends(e.bus, link);
        SetProtectTail(BatchBody(s.bus, link, cfgs).bus, link, s.data[0]);
      }
    }
  }

  lemma ClearFaultTidy(b: Bus, link: Link)
    requires b.vr.wp == 0 && b.vr.page == PAGE_RAIL1 && Plain(b.log)
    ensures var c := Exec(b, link, Send(CMD_CLEAR_FAULT, [], Driver)).bus;
            LogOk(c, |b.log|) && Unstored(c.log) == {} && At(c, NO_PAGE, AT_START)
  {
    hide RowsAcked, Unstored, RowSends, WritePages, SelectsClean, Store, Restore;
    var c := Exec(b, link, Send(CMD_CLEAR_FAULT, [], Driver)).bus;
    PlainLog(c.log);
  }

  /** A whole-image update past its set-up, whatever its list, ends with a prefix of the four
      transactions that put the saved protection back; the driver wrote no protection in
      between, and success leaves nothing unstored. */
  lemma {:induction false} BatchKeepsTheRules(vr: Vr, link: Link, cfgs: seq<Cfg>)
    requires cfgs != [] && BatchBegin(Bus(vr, []), link).ok
    ensures var s := BatchBegin(Bus(vr, []), link).bus;
            var d, mid := BatchUpdate(Bus(vr, []), link, cfgs), BatchBody(s, link, cfgs).bus;
            var n := |mid.log|;
            SelectsClean(d.bus.log) && (d.ok ==> Unstored(d.bus.log) == {}) && NoProtectFrom(mid.log, |s.log|) &&
            n <= |d.bus.log| && d.bus.log[..n] == mid.log &&
            (if vr.wp == 0 then d.bus == mid
             else OpsFrom(d.bus.log, n) <= ProtectOps(vr.wp) &&
                  d.bus.vr.wp == if link(n).acked && vr.wp in {0x00, 0x01, 0x20, 0x40, 0x80} && (link(n + 1).acked || link(n + 1).landed) && !link(n + 1).locked
                                 then vr.wp else mid.vr.wp)
  {
    hide RowsAcked, BatchBegin, RowSends, WritePages, Exec, WriteEntries, BatchStore, SetWriteProtect, RowsLand, SelectsClean, Unstored, NoProtectFrom, Plain;
    var s := BatchBegin(Bus(vr, []), link);
    BatchBeginIsPlain(vr, link);
    ClearFaultTidy(s.bus, link);
    var c := Exec(s.bus, link, Send(CMD_CLEAR_FAULT, [], Driver));
    EntriesTidy(c.bus, link, cfgs, NO_PAGE, |s.bus.log|);
    BatchStoreTidy(WriteEntries(c.bus, link, cfgs, NO_PAGE).bus, link, |s.bus.log|);
    var mid := BatchBody(s.bus, link, cfgs).bus;
    SetProtectExact(mid, link, vr.wp);
    SetProtectTail(mid, link, vr.wp);
  }

  lemma {:induction false} BatchBodyTracks(vr: Vr, link: Link, cfgs: seq<Cfg>)
    requires BatchBegin(Bus(vr, []), link).ok
    ensures var d := BatchBody(BatchBegin(Bus(vr, []), link).bus, link, cfgs);
            Stopped(d.bus, TrackList(cfgs, AT_START), link) &&
            (d.ok ==> WritePages(d.bus.log) == TrackList(cfgs, AT_START).made)
  {
    hide RowsAcked, BatchBegin, RowSends, WritePages, Exec, WriteEntries, BatchStore, RowsLand, Unstored, Healthy, LogOk, Plain;
    var s := BatchBegin(Bus(vr, []), link);
    BatchBeginIsPlain(vr, link);
    ClearFaultTidy(s.bus, link);
    var c := Exec(s.bus, link, Send(CMD_CLEAR_FAULT, [], Driver));
    EntriesTrack(c.bus, link, cfgs, NO_PAGE, AT_START);
    EntriesTidy(c.bus, link, cfgs, NO_PAGE, |s.bus.log|);
    BatchStoreTidy(WriteEntries(c.bus, link, cfgs, NO_PAGE).bus, link, |s.bus.log|);
  }

  /** Its writes are made on the first of the pages the list says, all on success; rows reach
      their pages on any bus if the list says so, and on a healthy one if and only if it does.
      There the update ends with the original protection if it is a nonzero value the driver
      writes, else with what the list leaves. */
  lemma {:induction false} BatchRowsReachTheirPage(vr: Vr, link: Link, cfgs: seq<Cfg>)
    requires cfgs != [] && BatchBegin(Bus(vr, []), link).ok
    ensures var d := BatchUpdate(Bus(vr, []), link, cfgs).bus;
            WritePages(d.log) <= TrackList(cfgs, AT_START).made &&
            (BatchUpdate(Bus(vr, []), link, cfgs).ok ==> WritePages(d.log) == TrackList(cfgs, AT_START).made) &&
            (ListLands(cfgs) ==> RowsLand(d.log)) &&
            (Healthy(link) ==> (RowsLand(d.log) <==> ListLands(cfgs)) &&
                               d.vr.wp == if vr.wp in {0x01, 0x20, 0x40, 0x80} then vr.wp else TrackList(cfgs, AT_START).wp)
  {
    hide BatchBegin, BatchBody, SetWriteProtect, RowsLand, WritePages, Unstored, SelectsClean, AfterVisits, ListVisits, AllLand, NoProtectFrom, OpsFrom;
    ListIsProper(cfgs);
    NoneIsMisled(ListVisits(cfgs));
    BatchBeginIsPlain(vr, link);
    BatchKeepsTheRules(vr, link, cfgs);
    BatchBodyTracks(vr, link, cfgs);
    SetProtectTail(BatchBody(BatchBegin(Bus(vr, []), link).bus, link, cfgs).bus, link, vr.wp);
  }

  /** On which page each write is made: on every run the first of those the list says, and all
      of them on success. */
  lemma {:induction false} BatchWritesAreMadeAsRead(vr: Vr, link: Link, cfgs: seq<Cfg>)
    ensures var d := BatchUpdate(Bus(vr, []), link, cfgs);
            WritePages(d.bus.log) <= TrackList(cfgs, AT_START).made &&
            (d.ok ==> WritePages(d.bus.log) == TrackList(cfgs, AT_START).made)
  {
    hide BatchBegin, BatchUpdate, AfterVisits, ListVisits, RowSends;
    BatchBeginIsPlain(vr, link);
    if cfgs != [] && BatchBegin(Bus(vr, []), link).ok {
      BatchRowsReachTheirPage(vr, link, cfgs);
    } else {
      PlainLog(BatchBegin(Bus(vr, []), link).bus.log);
      StoppedEarly(vr, link, cfgs);
    }
  }

  lemma StoppedEarly(vr: Vr, link: Link, cfgs: seq<Cfg>)
    requires cfgs == [] || !BatchBegin(Bus(vr, []), link).ok
    ensures var d := BatchUpdate(Bus(vr, []), link, cfgs);
            !d.ok && d.bus.log == if cfgs == [] then [] else BatchBegin(Bus(vr, []), link).bus.log
  {
    hide BatchBegin;
  }

  // ---------------------------------------------------------------- memory

  predicate ListFits(cfgs: seq<Cfg>, regs: RegMap) {
    forall c :: c in cfgs ==> Fits(0, c.page, c.addr, false, regs)
  }

  lemma {:induction false} EntriesKeep(b: Bus, link: Link, cfgs: seq<Cfg>, page: byte, t: Pages, regs: RegMap)
    requires At(b, page, t) && Following(b, regs) && ListFits(cfgs, regs) && TrackList(cfgs, t).lands
    requires WriteEntries(b, link, cfgs, page).ok
    ensures Following(WriteEntries(b, link, cfgs, page).bus, regs)
    decreases |cfgs|
  {
    hide Exec, LittleEndian, RowsLand, WritePages, CfgSend, AfterWrite, Fits, TrackList, Following;
    ListTracked(cfgs, t);
    if cfgs != [] {
      var c := cfgs[0];
      var p := if c.page != page then Exec(b, link, SetPage(c.page)) else Done(b, true, []);
      QuietCommand(b, link, SetPage(c.page));
      PageKeeps(b, link, c.page, regs);
      var t1 := Reached(t, c.page);
      EntryTrack(p.bus, link, c, t1);
      EntryKeeps(p.bus, link, c, t1, regs);
      EntriesKeep(Exec(p.bus, link, CfgSend(c)).bus, link, cfgs[1..], c.page, AfterWrite(t1, CfgSend(c)), regs);
    }
  }

  lemma PageKeeps(b: Bus, link: Link, page: byte, regs: RegMap)
    requires Following(b, regs)
    ensures Following(Exec(b, link, SetPage(page)).bus, regs)
  {
    hide LogOk, RowsAcked, RowsLand, WritePages, SelectsClean, Unstored, RowSends, Exec, Mirrored, Committed;
    ExecLog(b, link, SetPage(page), 0);
    PageAfter(b, link, page);
    SameContents(b, Exec(b, link, SetPage(page)).bus);
  }

  lemma EntryKeeps(b: Bus, link: Link, c: Cfg, t: Pages, regs: RegMap)
    requires At(b, c.page, t) && c.len <= 2 && Following(b, regs) && Fits(0, c.page, c.addr, false, regs)
    requires AfterWrite(t, CfgSend(c)).lands && Exec(b, link, CfgSend(c)).ok
    ensures Following(Exec(b, link, CfgSend(c)).bus, regs)
  {
    hide LittleEndian, Exec, RowsLand, WritePages, Mirrored, Committed, Fits;
    WriteKeeps(b, link, CfgSend(c));
  }

  lemma BatchStoreKeeps(b: Bus, link: Link, regs: RegMap, base: nat)
    requires Following(b, regs) && LogOk(b, base) && Unstored(b.log) <= {0} && BatchStore(b, link).ok
    ensures Following(BatchStore(b, link).bus, regs)
  {
    hide LogOk, RowsAcked, RowsLand, WritePages, Unstored, RowSends, Exec, Mirrored, Committed, CmlClean, Store;
    var p := Exec(b, link, SetPage(PAGE_RAIL1));
    DriverStep(b, link, SetPage(PAGE_RAIL1), base);
    PageKeeps(b, link, PAGE_RAIL1, regs);
    PageAfter(b, link, PAGE_RAIL1);
    var w := Exec(p.bus, link, Send(CMD_STORE_USER, [], Driver));
    AckIs(p.bus, link, Send(CMD_STORE_USER, [], Driver));
    DriverStep(p.bus, link, Send(CMD_STORE_USER, [], Driver), base);
    CommandAfter(p.bus, link, CMD_STORE_USER, []);
    StoreIs(p.bus.vr);
    StoreCommits(p.bus, w.bus);
    var a := Exec(w.bus, link, SetPage(PAGE_RAIL1));
    PageKeeps(w.bus, link, PAGE_RAIL1, regs);
    DriverStep(w.bus, link, SetPage(PAGE_RAIL1), base);
    DriverStep(a.bus, link, Fetch(CMD_STATUS_CML, 1), base);
    ReadAfter(a.bus, link, CMD_STATUS_CML, 1);
    SameContents(a.bus, Exec(a.bus, link, Fetch(CMD_STATUS_CML, 1)).bus);
  }

  lemma {:induction false} BatchBodyKeeps(vr: Vr, link: Link, cfgs: seq<Cfg>)
    requires BatchBegin(Bus(vr, []), link).ok && BatchBody(BatchBegin(Bus(vr, []), link).bus, link, cfgs).ok
    requires ListLands(cfgs) && ListFits(cfgs, vr.regs)
    ensures var d := BatchBody(BatchBegin(Bus(vr, []), link).bus, link, cfgs).bus;
            Following(d, vr.regs) && Unstored(d.log) == {}
  {
    hide RowsAcked, BatchBegin, RowSends, WritePages, Exec, WriteEntries, BatchStore, RowsLand, Unstored, LogOk, Plain, AfterVisits, ListVisits, AllLand, ListFits, Mirrored, Committed;
    var s := BatchBegin(Bus(vr, []), link);
    BatchBeginIsPlain(vr, link);
    ClearFaultTidy(s.bus, link);
    var c := Exec(s.bus, link, Send(CMD_CLEAR_FAULT, [], Driver)).bus;
    ClearFaultKeeps(s.bus, link, vr.regs);
    ListIsProper(cfgs);
    NoneIsMisled(ListVisits(cfgs));
    EntriesKeep(c, link, cfgs, NO_PAGE, AT_START, vr.regs);
    EntriesTidy(c, link, cfgs, NO_PAGE, |s.bus.log|);
    var e := WriteEntries(c, link, cfgs, NO_PAGE);
    BatchStoreKeeps(e.bus, link, vr.regs, |s.bus.log|);
    BatchStoreTidy(e.bus, link, |s.bus.log|);
  }

  lemma ClearFaultKeeps(b: Bus, link: Link, regs: RegMap)
    requires b.vr.wp == 0 && b.vr.page == PAGE_RAIL1 && b.vr.regs == regs && Plain(b.log)
    ensures Following(Exec(b, link, Send(CMD_CLEAR_FAULT, [], Driver)).bus, regs)
  {
    hide RowSends, Mirrored, Committed, Store, Restore;
    var c := Exec(b, link, Send(CMD_CLEAR_FAULT, [], Driver)).bus;
    PlainLog(c.log);
    EmptyMemory(c);
  }

  /** After a successful whole-image update of a list that misleads no entry and fits the device,
      user memory holds, for every register written, the last value the list writes to it. */
  lemma {:induction false} MemoryHoldsTheList(vr: Vr, link: Link, cfgs: seq<Cfg>)
    requires BatchUpdate(Bus(vr, []), link, cfgs).ok && ListLands(cfgs) && ListFits(cfgs, vr.regs)
    ensures var nvm, want := BatchUpdate(Bus(vr, []), link, cfgs).bus.vr.nvm, Fold(ListSends(cfgs));
            forall c :: c in want && Kept(c) ==> c in nvm && nvm[c] == want[c]
  {
    hide BatchBegin, BatchBody, SetWriteProtect, RowSends, WritePages, RowsLand, Unstored, SelectsClean, ListSends, ListLands, ListFits, Fold;
    BatchWritesItsList(vr, link, cfgs);
    BatchBodyKeeps(vr, link, cfgs);
    SetProtectTail(BatchBody(BatchBegin(Bus(vr, []), link).bus, link, cfgs).bus, link, BatchBegin(Bus(vr, []), link).data[0]);
  }
}
