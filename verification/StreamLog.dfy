// What the log of a run shows, command byte by command byte: who is asked before anything is
// written, which set each row is written in, and what a reported success has checked.
module StreamLog {
  import opened CText
  import opened VrBus
  import opened StreamSpec
  import opened StreamChunks
  import opened StreamSafety
  import opened StreamTheorems
  import opened BatchSpec

  // --------------------------------------------------------- reading a log

  predicate IsStatusRead(e: Entry) { e.op == Fetch(0x7E, 1) }

  /** An acknowledged STORE_USER, and the RESTORE_USER that loads it back. */
  predicate IsStoreUser(e: Entry) { e.acked && e.op == Send(0x15, [], Driver) }
  predicate IsRestoreUser(e: Entry) { e.acked && e.op == Send(0x16, [], Driver) }

  /** STATUS_CML was read and shows neither bit 4 nor bit 5. */
  predicate Fine(r: Reply) { r.acked && r.status / 16 % 2 == 0 && r.status / 32 % 2 == 0 }

  ghost predicate ReadsFine(log: seq<Entry>, link: Link) {
    forall i :: 0 <= i < |log| && IsStatusRead(log[i]) ==> log[i].acked && Fine(link(i))
  }

  /** A store on page 0, a reload behind it if there must be one, and a status read behind that. */
  ghost predicate Settled(log: seq<Entry>, i: nat, reload: bool)
    requires i < |log|
  {
    log[i].page == 0 &&
    exists j, k {:trigger log[j], log[k]} :: i <= j < k < |log| && (reload ==> IsRestoreUser(log[j])) && IsStatusRead(log[k])
  }

  ghost predicate StoresSettled(log: seq<Entry>, reload: bool) {
    forall i :: 0 <= i < |log| && IsStoreUser(log[i]) ==> Settled(log, i, reload)
  }

  /** Everything stored has been verified. */
  ghost predicate Checked(log: seq<Entry>, link: Link, reload: bool) { ReadsFine(log, link) && StoresSettled(log, reload) }

  /** A set select of the driver. */
  predicate IsSelectOf(e: Entry, group: Group) { e == Entry(Send(0x09, [7 + group], Driver), 9, true) }
  predicate AnySelect(e: Entry) { e.op.Send? && e.op.origin == Driver && e.op.cmd == 0x09 }

  /** The last set the driver selected before position n. */
  ghost predicate Selected(log: seq<Entry>, n: nat, group: Group)
    requires n <= |log|
  {
    exists j :: 0 <= j < n && IsSelectOf(log[j], group) && forall k :: j < k < n ==> !AnySelect(log[k])
  }

  /** Each write for a set is made while that set is the one selected last. */
  ghost predicate SetsRight(log: seq<Entry>) {
    forall i :: 0 <= i < |log| && IsRow(log[i]) && log[i].op.origin.group != 0 ==> Selected(log, i, log[i].op.origin.group)
  }

  ghost predicate Inv(s: Stream, link: Link) {
    Checked(s.bus.log, link, true) && SetsRight(s.bus.log) && (s.group != 0 ==> Selected(s.bus.log, |s.bus.log|, s.group))
  }

  // ----------------------------------------------------------- one more entry

  lemma {:induction false} MoreChecked(log: seq<Entry>, e: Entry, link: Link, reload: bool)
    requires Checked(log, link, reload) && !IsStoreUser(e) && (IsStatusRead(e) ==> e.acked && Fine(link(|log|)))
    ensures Checked(log + [e], link, reload)
  {
    var more := log + [e];
    assert more[|log|] == e;
    forall i | 0 <= i < |more| && IsStoreUser(more[i])
      ensures Settled(more, i, reload)
    {
      assert more[i] == log[i] && Settled(log, i, reload);
      var j, k :| i <= j < k < |log| && (reload ==> IsRestoreUser(log[j])) && IsStatusRead(log[k]);
      assert more[j] == log[j] && more[k] == log[k];
    }
    forall i | 0 <= i < |more| && IsStatusRead(more[i])
      ensures more[i].acked && Fine(link(i))
    {
      assert i < |log| ==> more[i] == log[i];
    }
  }

  lemma SelectedOn(log: seq<Entry>, e: Entry, n: nat, group: Group)
    requires n <= |log| && Selected(log, n, group)
    ensures Selected(log + [e], n, group)
    ensures n == |log| && !AnySelect(e) ==> Selected(log + [e], n + 1, group)
  {
    var more := log + [e];
    var j :| 0 <= j < n && IsSelectOf(log[j], group) && forall k :: j < k < n ==> !AnySelect(log[k]);
    assert more[j] == log[j];
    assert forall k :: j < k < n ==> more[k] == log[k];
    assert more[|log|] == e;
  }

  lemma SelectedNow(log: seq<Entry>, e: Entry, group: Group)
    requires IsSelectOf(e, group)
    ensures Selected(log + [e], |log| + 1, group)
  {
    assert (log + [e])[|log|] == e;
  }

  lemma {:induction false} MoreSets(log: seq<Entry>, e: Entry)
    requires SetsRight(log) && (IsRow(e) && e.op.origin.group != 0 ==> Selected(log, |log|, e.op.origin.group))
    ensures SetsRight(log + [e])
  {
    hide Selected;
    var more := log + [e];
    assert more[|log|] == e;
    forall i | 0 <= i < |more| && IsRow(more[i]) && more[i].op.origin.group != 0
      ensures Selected(more, i, more[i].op.origin.group)
    {
      assert i < |log| ==> more[i] == log[i];
      SelectedOn(log, e, i, more[i].op.origin.group);
    }
  }

  /** A transaction that is neither a store, a status read, a set select nor a row's write. */
  predicate Ordinary(op: Op) {
    match op
    case SetPage(_) => true
    case Send(cmd, _, origin) => origin == Driver && cmd != 0x15 && cmd != 0x09
    case Fetch(cmd, _) => cmd != 0x7E
  }

  lemma OrdinaryKeeps(s: Stream, link: Link, op: Op)
    requires Inv(s, link) && Ordinary(op)
    ensures Inv(s.(bus := Exec(s.bus, link, op).bus), link)
  {
    hide Checked, SetsRight, Selected, Effect, Answer;
    var e := Entry(op, s.bus.vr.page, link(|s.bus.log|).acked);
    MoreChecked(s.bus.log, e, link, true);
    MoreSets(s.bus.log, e);
    if s.group != 0 {
      SelectedOn(s.bus.log, e, |s.bus.log|, s.group);
    }
  }

  // --------------------------------------------------------------- the steps

  /** All but the store at n has been verified. */
  ghost predicate CheckedBut(log: seq<Entry>, link: Link, n: nat) {
    ReadsFine(log, link) && forall i :: 0 <= i < |log| && IsStoreUser(log[i]) && i != n ==> Settled(log, i, true)
  }

  lemma SettledOn(log: seq<Entry>, e: Entry, i: nat, reload: bool)
    requires i < |log| && Settled(log, i, reload)
    ensures Settled(log + [e], i, reload)
  {
    var more := log + [e];
    var j, k :| i <= j < k < |log| && (reload ==> IsRestoreUser(log[j])) && IsStatusRead(log[k]);
    assert more[i] == log[i] && more[j] == log[j] && more[k] == log[k];
  }

  lemma {:induction false} OpenStays(log: seq<Entry>, e: Entry, link: Link, n: nat)
    requires CheckedBut(log, link, n) && (IsStoreUser(e) ==> n == |log|) && (IsStatusRead(e) ==> e.acked && Fine(link(|log|)))
    ensures CheckedBut(log + [e], link, n)
  {
    hide Settled, IsStoreUser, IsStatusRead, Fine;
    var more := log + [e];
    assert more[|log|] == e;
    forall i | 0 <= i < |more| && IsStoreUser(more[i]) && i != n
      ensures Settled(more, i, true)
    {
      assert more[i] == log[i];
      SettledOn(log, e, i, true);
    }
    forall i | 0 <= i < |more| && IsStatusRead(more[i])
      ensures more[i].acked && Fine(link(i))
    {
      assert i < |log| ==> more[i] == log[i];
    }
  }

  function LogOf(b: Bus, link: Link, op: Op): Entry { Entry(op, b.vr.page, link(|b.log|).acked) }

  /** A successful store and verify: the store, the reload, and a clean status. */
  lemma {:induction false} StoreChecks(s: Stream, link: Link)
    requires Checked(s.bus.log, link, true) && StoreAndVerify(s, link).ok
    ensures Checked(StoreAndVerify(s, link).s.bus.log, link, true)
  {
    hide Effect, Settled, IsStoreUser, IsRestoreUser, IsStatusRead, ReadsFine;
    var n := |s.bus.log| + 1;
    var p := Exec(s.bus, link, SetPage(0));
    Opened(s.bus.log, link, n);
    OpenOrdinary(s.bus, link, SetPage(0), n);
    var w := Exec(p.bus, link, Send(0x15, [], Driver));
    OpenStore(p.bus, link);
    PageAfter(s.bus, link, 0);
    var v := Exec(w.bus, link, SetPage(0));
    OpenOrdinary(w.bus, link, SetPage(0), n);
    OpenOrdinary(v.bus, link, Fetch(0xB8, 5), n);
    var f := GetFwVersion(w.bus, link);
    var q := Exec(f, link, Send(0x16, [], Driver));
    OpenOrdinary(f, link, Send(0x16, [], Driver), n);
    var a := Exec(q.bus, link, SetPage(0));
    OpenOrdinary(q.bus, link, SetPage(0), n);
    var c := Exec(a.bus, link, Fetch(0x7E, 1));
    OpenStatus(a.bus, link, n);
    var log := c.bus.log;
    assert log == StoreAndVerify(s, link).s.bus.log;
    Kept(p.bus, link, Send(0x15, [], Driver));
    Kept(f, link, Send(0x16, [], Driver));
    Kept(a.bus, link, Fetch(0x7E, 1));
    assert log[n] == LogOf(p.bus, link, Send(0x15, [], Driver));
    assert log[|f.log|] == LogOf(f, link, Send(0x16, [], Driver));
    CloseStore(log, link, n, |f.log|, |a.bus.log|);
  }

  lemma Kept(b: Bus, link: Link, op: Op)
    ensures Exec(b, link, op).bus.log == b.log + [LogOf(b, link, op)]
    ensures Exec(b, link, op).ok == link(|b.log|).acked
  {
    hide Effect, Answer;
  }

  lemma Opened(log: seq<Entry>, link: Link, n: nat)
    requires Checked(log, link, true)
    ensures CheckedBut(log, link, n)
  {
    hide Settled;
  }

  lemma OpenOrdinary(b: Bus, link: Link, op: Op, n: nat)
    requires CheckedBut(b.log, link, n) && Ordinary(op)
    ensures CheckedBut(Exec(b, link, op).bus.log, link, n)
  {
    hide CheckedBut, Effect, Answer;
    OpenStays(b.log, LogOf(b, link, op), link, n);
  }

  lemma OpenStore(b: Bus, link: Link)
    requires CheckedBut(b.log, link, |b.log|)
    ensures CheckedBut(Exec(b, link, Send(0x15, [], Driver)).bus.log, link, |b.log|)
  {
    hide CheckedBut, Effect, Answer;
    OpenStays(b.log, LogOf(b, link, Send(0x15, [], Driver)), link, |b.log|);
  }

  /** Where the driver accepts the status, it is clean. */
  lemma OpenStatus(b: Bus, link: Link, n: nat)
    requires var c := Exec(b, link, Fetch(0x7E, 1)); CheckedBut(b.log, link, n) && c.ok && CmlClean(c.data[0])
    ensures CheckedBut(Exec(b, link, Fetch(0x7E, 1)).bus.log, link, n)
  {
    hide CheckedBut, Effect;
    assert Fit([link(|b.log|).status], 1)[0] == link(|b.log|).status;
    OpenStays(b.log, LogOf(b, link, Fetch(0x7E, 1)), link, n);
  }

  lemma CloseStore(log: seq<Entry>, link: Link, n: nat, j: nat, k: nat)
    requires CheckedBut(log, link, n) && n < j < k < |log| && log[n].page == 0
    requires IsRestoreUser(log[j]) && IsStatusRead(log[k])
    ensures Checked(log, link, true)
  {
  }

  /** No set is selected and no row written. */
  ghost predicate Aside(log: seq<Entry>, more: seq<Entry>) {
    log <= more && forall i :: |log| <= i < |more| ==> !IsRow(more[i]) && !AnySelect(more[i])
  }

  lemma AsideStep(log: seq<Entry>, b: Bus, link: Link, op: Op)
    requires Aside(log, b.log) && (op.Send? ==> op.origin == Driver && op.cmd != 0x09)
    ensures Aside(log, Exec(b, link, op).bus.log)
  {
    hide Effect, Answer;
  }

  lemma {:induction false} AsideKeeps(log: seq<Entry>, more: seq<Entry>, group: Group)
    requires Aside(log, more) && SetsRight(log)
    ensures SetsRight(more) && (Selected(log, |log|, group) ==> Selected(more, |more|, group))
    decreases |more|
  {
    hide SetsRight, Selected;
    if |more| == |log| {
      assert more == log;
    } else {
      var n := |more| - 1;
      var rest, e := more[..n], more[n];
      assert more == rest + [e];
      AsideKeeps(log, rest, group);
      MoreSets(rest, e);
      if Selected(log, |log|, group) {
        SelectedOn(rest, e, n, group);
      }
    }
  }

  lemma StoreAside(s: Stream, link: Link)
    ensures Aside(s.bus.log, StoreAndVerify(s, link).s.bus.log) && StoreAndVerify(s, link).s.group == s.group
  {
    hide Exec, Aside;
    var log := s.bus.log;
    AsideNothing(log);
    var p := Exec(s.bus, link, SetPage(0));
    AsideStep(log, s.bus, link, SetPage(0));
    var w := Exec(p.bus, link, Send(0x15, [], Driver));
    AsideStep(log, p.bus, link, Send(0x15, [], Driver));
    var v := Exec(w.bus, link, SetPage(0));
    AsideStep(log, w.bus, link, SetPage(0));
    AsideStep(log, v.bus, link, Fetch(0xB8, 5));
    var f := GetFwVersion(w.bus, link);
    var q := Exec(f, link, Send(0x16, [], Driver));
    AsideStep(log, f, link, Send(0x16, [], Driver));
    var a := Exec(q.bus, link, SetPage(0));
    AsideStep(log, q.bus, link, SetPage(0));
    AsideStep(log, a.bus, link, Fetch(0x7E, 1));
  }

  lemma AsideNothing(log: seq<Entry>)
    ensures Aside(log, log)
  {
  }

  lemma StoreInv(s: Stream, link: Link)
    requires Inv(s, link)
    ensures var r := StoreAndVerify(s, link);
            SetsRight(r.s.bus.log) && (r.ok ==> Inv(r.s, link))
  {
    hide Checked, SetsRight, Selected, StoreAndVerify, Aside;
    StoreAside(s, link);
    AsideKeeps(s.bus.log, StoreAndVerify(s, link).s.bus.log, s.group);
    if StoreAndVerify(s, link).ok {
      StoreChecks(s, link);
    }
  }

  lemma SelectInv(s: Stream, link: Link, group: Group)
    requires Inv(s, link) && s.bus.vr.page == 9 && group != 0
    ensures var d := Exec(s.bus, link, Send(0x09, [7 + group], Driver));
            SetsRight(d.bus.log) && (d.ok ==> Inv(s.(bus := d.bus, group := group), link))
  {
    hide Checked, SetsRight, Selected, Effect;
    var op := Send(0x09, [7 + group], Driver);
    var e := LogOf(s.bus, link, op);
    MoreChecked(s.bus.log, e, link, true);
    MoreSets(s.bus.log, e);
    if e.acked {
      SelectedNow(s.bus.log, e, group);
    }
  }

  lemma PageInv(s: Stream, link: Link, page: byte)
    requires Inv(s, link)
    ensures Inv(SelectPage(s, link, page).s, link) && SelectPage(s, link, page).s.group == s.group
    ensures SelectPage(s, link, page).ok ==> SelectPage(s, link, page).s.bus.vr.page == page
  {
    hide Checked, SetsRight, Selected;
    OrdinaryKeeps(s, link, SetPage(page));
    PageAfter(s.bus, link, page);
  }

  lemma SwitchInv(s: Stream, link: Link, group: Group)
    requires Inv(s, link)
    ensures var r := SwitchGroup(s, link, group);
            SetsRight(r.s.bus.log) && (r.ok ==> Inv(r.s, link) && r.s.group == group)
  {
    hide Checked, SetsRight, Selected, StoreAndVerify, SelectPage, Exec;
    if group != s.group {
      StoreInv(s, link);
      StoreAside(s, link);
      var st := if s.group != 0 then StoreAndVerify(s, link) else Outcome(s, true);
      if st.ok && group != 0 {
        PageInv(st.s, link, 9);
        var p := SelectPage(st.s, link, 9);
        if p.ok {
          SelectInv(p.s, link, group);
        }
      }
    }
  }

  lemma SendRowInv(s: Stream, link: Link, row: Row, cmd: byte, data: seq<byte>, indexed: bool)
    requires Inv(s, link) && s.group == row.group
    ensures Inv(SendRow(s, link, row, cmd, data, indexed).s, link)
  {
    hide Checked, SetsRight, Selected, Effect;
    var e := LogOf(s.bus, link, Send(cmd, data, FromRow(row.group, row.page, indexed)));
    MoreChecked(s.bus.log, e, link, true);
    MoreSets(s.bus.log, e);
    if s.group != 0 {
      SelectedOn(s.bus.log, e, |s.bus.log|, s.group);
    }
  }

  lemma {:induction false} ActInv(s: Stream, link: Link, row: Row)
    requires Inv(s, link) && s.group == row.group
    ensures Inv(Act(s, link, row).s, link)
  {
    hide Checked, SetsRight, Selected, Exec, Classify, SendRow, BlockPayload;
    match Classify(row)
    case Skip =>
    case Reject =>
    case Word(cmd, data) =>
      SendRowInv(s, link, row, cmd, data, false);
    case Whole(cmd, data, indexed) =>
      SendRowInv(s, link, row, cmd, data, indexed);
    case Piece(cmd, want, value) =>
      if value.Some? {
        var got := StartBlock(s.block, cmd, want).got + [value.value];
        if |got| == want {
          SendRowInv(s.(block := NoBlock), link, row, cmd, BlockPayload(got), false);
        }
      }
  }

  /** On every outcome the writes for sets are right; while it goes well so is everything. */
  ghost predicate Sound(r: Outcome, link: Link) { SetsRight(r.s.bus.log) && (r.ok ==> Inv(r.s, link)) }

  lemma ApplyRowInv(s: Stream, link: Link, row: Row)
    requires Inv(s, link)
    ensures Sound(ApplyRow(s, link, row), link)
  {
    hide Checked, SetsRight, Selected, SwitchGroup, SelectPage, Act, IsReference;
    if !IsReference(row) && (row.group == s.group || s.block.NoBlock?) {
      SwitchInv(s, link, row.group);
      var g := SwitchGroup(s, link, row.group);
      if g.ok {
        PageInv(g.s, link, row.page);
        var p := Reach(g.s, link, row.page);
        if p.ok {
          ActInv(p.s, link, row);
        }
      }
    }
  }

  lemma ApplyLineInv(s0: Stream, link: Link, raw: string)
    requires Inv(s0, link)
    ensures Sound(ApplyLine(s0, link, raw), link)
  {
    hide Checked, SetsRight, Selected, ApplyRow, StoreAndVerify, CStr, Count, RowOf;
    var s := s0.(line := "");
    StoreInv(s, link);
    var text := LineText(raw);
    if RowOf(text).Some? {
      ApplyRowInv(s, link, RowOf(text).value);
    }
  }

  lemma {:induction false} FeedInv(s: Stream, link: Link, text: string)
    requires Inv(s, link)
    ensures Sound(Feed(s, link, text), link)
    decreases |text|
  {
    hide Checked, SetsRight, Selected, ApplyLine;
    var k := IndexOf(text, '\n');
    if k < LINE_BUF_LEN && k < |text| {
      ApplyLineInv(s, link, text[..k]);
      var a := ApplyLine(s, link, text[..k]);
      if a.ok {
        FeedInv(a.s, link, text[k + 1..]);
      }
    }
  }

  // -------------------------------------------------------- set-up and restore

  /** The set-up and the restore issue none of the commands followed above. */
  ghost predicate AllOrdinary(log: seq<Entry>) { forall i :: 0 <= i < |log| ==> Ordinary(log[i].op) }

  lemma {:induction false} OrdinaryLog(log: seq<Entry>, link: Link)
    requires AllOrdinary(log)
    ensures Checked(log, link, true) && SetsRight(log)
  {
  }

  lemma OrdinaryStep(b: Bus, link: Link, op: Op)
    requires AllOrdinary(b.log) && Ordinary(op)
    ensures AllOrdinary(Exec(b, link, op).bus.log)
  {
    hide Effect, Answer;
  }

  lemma ProtectOrdinary(b: Bus, link: Link, wp: byte)
    requires AllOrdinary(b.log)
    ensures AllOrdinary(SetWriteProtect(b, link, wp).bus.log) && AllOrdinary(GetWriteProtect(b, link).bus.log)
  {
    hide AllOrdinary, Exec;
    var p := Exec(b, link, SetPage(0)).bus;
    OrdinaryStep(b, link, SetPage(0));
    OrdinaryStep(p, link, Fetch(0x10, 1));
    var w := Exec(p, link, Send(0x10, [wp], Driver)).bus;
    OrdinaryStep(p, link, Send(0x10, [wp], Driver));
    var q := Exec(w, link, SetPage(0)).bus;
    OrdinaryStep(w, link, SetPage(0));
    OrdinaryStep(q, link, Fetch(0x10, 1));
  }

  lemma BeginOrdinary(vr: Vr, link: Link)
    ensures AllOrdinary(Begin(Bus(vr, []), link).s.bus.log) && Begin(Bus(vr, []), link).s.group == 0
  {
    hide AllOrdinary, Exec, GetWriteProtect, SetWriteProtect, IsFamilyId;
    var b := Bus(vr, []);
    assert AllOrdinary(b.log) by { NothingIsOrdinary(); }
    var p := Exec(b, link, SetPage(0)).bus;
    OrdinaryStep(b, link, SetPage(0));
    OrdinaryStep(p, link, Fetch(0xAD, 9));
    var id := CheckDeviceId(b, link).bus;
    var pw := Exec(id, link, Fetch(0xE0, 2)).bus;
    OrdinaryStep(id, link, Fetch(0xE0, 2));
    ProtectOrdinary(pw, link, 0);
    var g := GetWriteProtect(pw, link).bus;
    ProtectOrdinary(g, link, 0);
    OrdinaryStep(g, link, Send(0x03, [], Driver));
    OrdinaryStep(SetWriteProtect(g, link, 0).bus, link, Send(0x03, [], Driver));
  }

  lemma NothingIsOrdinary()
    ensures AllOrdinary([])
  {
  }

  lemma ProtectKeeps(s: Stream, link: Link, wp: byte)
    requires SetsRight(s.bus.log)
    ensures var d := SetWriteProtect(s.bus, link, wp).bus;
            SetsRight(d.log) && (Checked(s.bus.log, link, true) ==> Checked(d.log, link, true))
  {
    hide Checked, SetsRight, Exec;
    var p := Exec(s.bus, link, SetPage(0)).bus;
    StepKeeps(s.bus, link, SetPage(0));
    var w := Exec(p, link, Send(0x10, [wp], Driver)).bus;
    StepKeeps(p, link, Send(0x10, [wp], Driver));
    var q := Exec(w, link, SetPage(0)).bus;
    StepKeeps(w, link, SetPage(0));
    StepKeeps(q, link, Fetch(0x10, 1));
  }

  lemma StepKeeps(b: Bus, link: Link, op: Op)
    requires SetsRight(b.log) && Ordinary(op)
    ensures var d := Exec(b, link, op).bus;
            SetsRight(d.log) && (Checked(b.log, link, true) ==> Checked(d.log, link, true))
  {
    hide Checked, SetsRight, Effect, Answer;
    MoreSets(b.log, LogOf(b, link, op));
    if Checked(b.log, link, true) {
      MoreChecked(b.log, LogOf(b, link, op), link, true);
    }
  }

  lemma {:induction false} BeforeRestoreInv(s: Stream, link: Link, image: string)
    requires s.bus.log == [] && Begin(s.bus, link).ok
    ensures var mid := BeforeRestore(s, link, image);
            SetsRight(mid.bus.log) && (!mid.aborted ==> Checked(mid.bus.log, link, true))
  {
    hide Checked, SetsRight, Selected, Begin, Feed, StoreAndVerify, AllOrdinary;
    assert s.bus == Bus(s.bus.vr, []);
    var b := Begin(s.bus, link).s;
    BeginOrdinary(s.bus.vr, link);
    OrdinaryLog(b.bus.log, link);
    FeedInv(b, link, image);
    var f := Feed(b, link, image);
    if f.ok {
      StoreInv(f.s, link);
    }
  }

  // ---------------------------------------------------------------- theorems

  /** What success has checked.  In the log of any update that reports success every read of
      STATUS_CML was acknowledged and shows neither an NVM CRC nor a PEC error, and behind every
      acknowledged STORE_USER, which is made on page 0, come an acknowledged RESTORE_USER and
      such a read. */
  lemma {:induction false} SuccessIsVerified(s: Stream, link: Link, chunks: seq<string>)
    requires s.bus.log == [] && chunks != [] && Session(s, link, chunks).ok
    ensures var log := Session(s, link, chunks).s.bus.log;
            (forall i :: 0 <= i < |log| && log[i].op == Fetch(0x7E, 1) ==>
               log[i].acked && link(i).acked && link(i).status / 16 % 2 == 0 && link(i).status / 32 % 2 == 0) &&
            (forall i :: 0 <= i < |log| && log[i].acked && log[i].op == Send(0x15, [], Driver) ==>
               log[i].page == 0 &&
               exists j, k {:trigger log[j], log[k]} :: i < j < k < |log| &&
                 log[j].acked && log[j].op == Send(0x16, [], Driver) && log[k].op == Fetch(0x7E, 1))
  {
    hide Begin, RestoreProtection, BeforeRestore, Checked, SetsRight;
    var image := Concat(chunks);
    ChunkIndependence(s, link, chunks);
    OneCallRestores(s, link, image);
    BeforeRestoreInv(s, link, image);
    RestoreKeepsLog(BeforeRestore(s, link, image), link);
    Verified(Session(s, link, chunks).s.bus.log, link);
  }

  lemma RestoreKeepsLog(mid: Stream, link: Link)
    requires SetsRight(mid.bus.log)
    ensures var d := RestoreProtection(mid, link).bus;
            SetsRight(d.log) && (Checked(mid.bus.log, link, true) ==> Checked(d.log, link, true))
  {
    hide Checked, SetsRight, SetWriteProtect;
    ProtectKeeps(mid, link, mid.savedWp);
  }

  lemma Verified(log: seq<Entry>, link: Link)
    requires Checked(log, link, true)
    ensures forall i :: 0 <= i < |log| && log[i].op == Fetch(0x7E, 1) ==>
              log[i].acked && link(i).acked && link(i).status / 16 % 2 == 0 && link(i).status / 32 % 2 == 0
    ensures forall i :: 0 <= i < |log| && log[i].acked && log[i].op == Send(0x15, [], Driver) ==>
              log[i].page == 0 &&
              exists j, k {:trigger log[j], log[k]} :: i < j < k < |log| &&
                log[j].acked && log[j].op == Send(0x16, [], Driver) && log[k].op == Fetch(0x7E, 1)
  {
    forall i | 0 <= i < |log| && log[i].acked && log[i].op == Send(0x15, [], Driver)
      ensures log[i].page == 0 &&
              exists j, k {:trigger log[j], log[k]} :: i < j < k < |log| &&
                log[j].acked && log[j].op == Send(0x16, [], Driver) && log[k].op == Fetch(0x7E, 1)
    {
      assert IsStoreUser(log[i]);
      assert Settled(log, i, true);
      var j, k :| i <= j < k < |log| && IsRestoreUser(log[j]) && IsStatusRead(log[k]);
      assert j != i;
    }
  }

  /** Rows are written in their own set.  On every run of every image, however it ends, a write
      for set g has behind it the select of set g, the byte 7 + g to 0x09 on page 9, with no other
      select of the driver in between. */
  lemma {:induction false} RowsInTheirSet(s: Stream, link: Link, chunks: seq<string>)
    requires s.bus.log == [] && chunks != []
    ensures var log := Session(s, link, chunks).s.bus.log;
            forall i :: 0 <= i < |log| && IsRow(log[i]) && log[i].op.origin.group != 0 ==>
              exists j :: 0 <= j < i && log[j] == Entry(Send(0x09, [7 + log[i].op.origin.group], Driver), 9, true) &&
                forall k :: j < k < i ==> !(log[k].op.Send? && log[k].op.origin == Driver && log[k].op.cmd == 0x09)
  {
    hide Begin, RestoreProtection, BeforeRestore, Checked, SetsRight, AllOrdinary;
    var image := Concat(chunks);
    ChunkIndependence(s, link, chunks);
    assert s.bus == Bus(s.bus.vr, []);
    if Begin(s.bus, link).ok {
      OneCallRestores(s, link, image);
      BeforeRestoreInv(s, link, image);
      RestoreKeepsLog(BeforeRestore(s, link, image), link);
    } else {
      BeginOrdinary(s.bus.vr, link);
      OrdinaryLog(Begin(s.bus, link).s.bus.log, link);
    }
    SetsAre(Session(s, link, chunks).s.bus.log);
  }

  lemma SetsAre(log: seq<Entry>)
    requires SetsRight(log)
    ensures forall i :: 0 <= i < |log| && IsRow(log[i]) && log[i].op.origin.group != 0 ==>
              exists j :: 0 <= j < i && log[j] == Entry(Send(0x09, [7 + log[i].op.origin.group], Driver), 9, true) &&
                forall k :: j < k < i ==> !(log[k].op.Send? && log[k].op.origin == Driver && log[k].op.cmd == 0x09)
  {
    forall i | 0 <= i < |log| && IsRow(log[i]) && log[i].op.origin.group != 0
      ensures exists j :: 0 <= j < i && log[j] == Entry(Send(0x09, [7 + log[i].op.origin.group], Driver), 9, true) &&
                forall k :: j < k < i ==> !(log[k].op.Send? && log[k].op.origin == Driver && log[k].op.cmd == 0x09)
    {
      assert Selected(log, i, log[i].op.origin.group);
    }
  }

  // ---------------------------------------------------------------- set-up

  /** The transactions of a set-up. */
  function SetUpOps(wp: byte): seq<Op> {
    [SetPage(0), Fetch(0xAD, 9), Fetch(0xE0, 2), SetPage(0), Fetch(0x10, 1)] +
    (if wp == 0 then [] else [SetPage(0), Send(0x10, [0], Driver), SetPage(0), Fetch(0x10, 1)]) +
    [Send(0x03, [], Driver)]
  }

  /** A log issues the first of some operations. */
  predicate Issues(log: seq<Entry>, ops: seq<Op>) {
    |log| <= |ops| && forall i :: 0 <= i < |log| ==> log[i].op == ops[i]
  }

  lemma IssuesStep(b: Bus, link: Link, op: Op, ops: seq<Op>)
    requires Issues(b.log, ops) && |b.log| < |ops| && ops[|b.log|] == op
    ensures Issues(Exec(b, link, op).bus.log, ops)
  {
    hide Effect, Answer;
  }

  /** A set-up issues those transactions up to its first failure, and goes beyond the second only
      for a part of the family. */
  lemma {:induction false} BeginIssues(vr: Vr, link: Link)
    ensures var r := Begin(Bus(vr, []), link);
            Issues(r.s.bus.log, SetUpOps(vr.wp)) && (r.ok ==> |r.s.bus.log| == |SetUpOps(vr.wp)|) &&
            (|r.s.bus.log| > 2 ==> Identified(r.s.bus.log, link))
  {
    hide Effect, Answer, IsFamilyId, Issues, FamilyBlock;
    var ops := SetUpOps(vr.wp);
    var b := Bus(vr, []);
    assert Issues(b.log, ops) by { NoIssues(ops); }
    var p := Exec(b, link, SetPage(0));
    IssuesStep(b, link, SetPage(0), ops);
    PageAfter(b, link, 0);
    if p.ok {
      var f := Exec(p.bus, link, Fetch(0xAD, 9));
      IssuesStep(p.bus, link, Fetch(0xAD, 9), ops);
      ReadAfter(p.bus, link, 0xAD, 9);
      if f.ok && IsFamilyId(f.data) {
        IdRead(p.bus, link);
        FamilyIs(f.data);
        var pw := Exec(f.bus, link, Fetch(0xE0, 2));
        IssuesStep(f.bus, link, Fetch(0xE0, 2), ops);
        ReadAfter(f.bus, link, 0xE0, 2);
        assert pw.bus.log[1] == f.bus.log[1];
        RestOfSetUp(pw.bus, link, ops);
      }
    }
  }

  /** A part of the family has answered before anything else was asked of it. */
  predicate Identified(log: seq<Entry>, link: Link) {
    |log| >= 2 && log[0].op == SetPage(0) && log[1] == Entry(Fetch(0xAD, 9), 0, true) && FamilyBlock(Fit(link(1).data, 9))
  }

  lemma NoIssues(ops: seq<Op>)
    ensures Issues([], ops)
  {
  }

  lemma IdRead(b: Bus, link: Link)
    ensures Exec(b, link, Fetch(0xAD, 9)).ok ==> Exec(b, link, Fetch(0xAD, 9)).data == Fit(link(|b.log|).data, 9)
  {
  }

  lemma {:induction false} RestOfSetUp(b: Bus, link: Link, ops: seq<Op>)
    requires |b.log| == 3 && Issues(b.log, ops) && ops == SetUpOps(b.vr.wp)
    ensures var g := GetWriteProtect(b, link);
            Issues(g.bus.log, ops) && b.log <= g.bus.log &&
            (g.ok ==> g.data == [b.vr.wp])
    ensures var g := GetWriteProtect(b, link);
            var w := if b.vr.wp != 0 then SetWriteProtect(g.bus, link, 0) else Done(g.bus, true, []);
            var c := Exec(w.bus, link, Send(0x03, [], Driver)).bus;
            g.ok ==> (Issues(w.bus.log, ops) && b.log <= w.bus.log &&
                      (w.ok ==> Issues(c.log, ops) && b.log <= c.log && |c.log| == |ops|))
  {
    hide Effect, Answer, Issues;
    var p := Exec(b, link, SetPage(0));
    IssuesStep(b, link, SetPage(0), ops);
    if p.ok {
      var g := Exec(p.bus, link, Fetch(0x10, 1));
      IssuesStep(p.bus, link, Fetch(0x10, 1), ops);
      WpRead(b, link);
      if g.ok {
        if b.vr.wp != 0 {
          SwitchingOff(g.bus, link, ops);
        } else {
          IssuesStep(g.bus, link, Send(0x03, [], Driver), ops);
        }
      }
    }
  }

  lemma WpRead(b: Bus, link: Link)
    ensures GetWriteProtect(b, link).ok ==> GetWriteProtect(b, link).data == [b.vr.wp]
  {
    assert Fit([b.vr.wp], 1) == [b.vr.wp];
  }

  lemma {:induction false} SwitchingOff(b: Bus, link: Link, ops: seq<Op>)
    requires |b.log| == 5 && Issues(b.log, ops) && |ops| == 10
    requires ops[5..] == [SetPage(0), Send(0x10, [0], Driver), SetPage(0), Fetch(0x10, 1), Send(0x03, [], Driver)]
    ensures var w := SetWriteProtect(b, link, 0);
            Issues(w.bus.log, ops) && b.log <= w.bus.log &&
            (w.ok ==> var c := Exec(w.bus, link, Send(0x03, [], Driver)).bus;
                      Issues(c.log, ops) && b.log <= c.log && |c.log| == |ops|)
  {
    hide Effect, Answer, Issues;
    assert ops[5] == ops[5..][0] && ops[6] == ops[5..][1] && ops[7] == ops[5..][2] && ops[8] == ops[5..][3] && ops[9] == ops[5..][4];
    var p := Exec(b, link, SetPage(0));
    IssuesStep(b, link, SetPage(0), ops);
    if p.ok {
      var w := Exec(p.bus, link, Send(0x10, [0], Driver));
      IssuesStep(p.bus, link, Send(0x10, [0], Driver), ops);
      if w.ok {
        var q := Exec(w.bus, link, SetPage(0));
        IssuesStep(w.bus, link, SetPage(0), ops);
        if q.ok {
          var f := Exec(q.bus, link, Fetch(0x10, 1));
          IssuesStep(q.bus, link, Fetch(0x10, 1), ops);
          IssuesStep(f.bus, link, Send(0x03, [], Driver), ops);
        }
      }
    }
  }

  // ---------------------------------------------------------- the log only grows

  lemma StoreGrows(s: Stream, link: Link)
    ensures s.bus.log <= StoreAndVerify(s, link).s.bus.log
  {
    hide Aside;
    StoreAside(s, link);
    AsideIsLonger(s.bus.log, StoreAndVerify(s, link).s.bus.log);
  }

  lemma AsideIsLonger(log: seq<Entry>, more: seq<Entry>)
    requires Aside(log, more)
    ensures log <= more
  {
  }

  lemma SwitchGrows(s: Stream, link: Link, group: Group)
    ensures s.bus.log <= SwitchGroup(s, link, group).s.bus.log
  {
    hide StoreAndVerify, Effect, Answer;
    StoreGrows(s, link);
  }

  lemma ActGrows(s: Stream, link: Link, row: Row)
    ensures s.bus.log <= Act(s, link, row).s.bus.log
  {
    hide Classify, BlockPayload, Effect, Answer;
  }

  lemma ApplyRowGrows(s: Stream, link: Link, row: Row)
    ensures s.bus.log <= ApplyRow(s, link, row).s.bus.log
  {
    hide SwitchGroup, Act, IsReference, Effect, Answer;
    SwitchGrows(s, link, row.group);
    var g := SwitchGroup(s, link, row.group);
    ActGrows(Reach(g.s, link, row.page).s, link, row);
  }

  lemma {:induction false} FeedGrows(s: Stream, link: Link, text: string)
    ensures s.bus.log <= Feed(s, link, text).s.bus.log
    decreases |text|
  {
    hide ApplyRow, StoreAndVerify, CStr, Count, RowOf;
    var k := IndexOf(text, '\n');
    if k < LINE_BUF_LEN && k < |text| {
      StoreGrows(s.(line := ""), link);
      var line := LineText(text[..k]);
      if RowOf(line).Some? {
        ApplyRowGrows(s.(line := ""), link, RowOf(line).value);
      }
      FeedGrows(ApplyLine(s, link, text[..k]).s, link, text[k + 1..]);
    }
  }

  lemma ProtectGrows(b: Bus, link: Link, wp: byte)
    ensures b.log <= SetWriteProtect(b, link, wp).bus.log
  {
    hide Effect, Answer;
  }

  lemma {:induction false} SessionGrows(s: Stream, link: Link, chunks: seq<string>)
    requires chunks != []
    ensures Begin(s.bus, link).s.bus.log <= Session(s, link, chunks).s.bus.log
  {
    hide Begin, Feed, StoreAndVerify, SetWriteProtect;
    var image := Concat(chunks);
    ChunkIndependence(s, link, chunks);
    var b := Begin(s.bus, link);
    if b.ok {
      OneCallRestores(s, link, image);
      FeedGrows(b.s, link, image);
      StoreGrows(Feed(b.s, link, image).s, link);
      var mid := BeforeRestore(s, link, image);
      ProtectGrows(mid.bus, link, mid.savedWp);
    }
  }

  /** Who is asked first.  Every update begins with these transactions, up to its first failure:
      page 0, the ID block, the password, WRITE_PROTECT; where the protection is on, it is
      switched off and read back; then the faults are cleared.  All of them have been made
      before any other; and nothing follows the ID block unless it is one of the three of the
      family. */
  lemma {:induction false} SetUpComesFirst(s: Stream, link: Link, chunks: seq<string>)
    requires s.bus.log == [] && chunks != []
    ensures var log, ops := Session(s, link, chunks).s.bus.log, SetUpOps(s.bus.vr.wp);
            (if |log| <= |ops| then Issues(log, ops) else Issues(log[..|ops|], ops)) &&
            (|log| > 2 ==> Identified(log, link))
  {
    hide Begin, Issues, FamilyBlock, SetUpOps;
    assert s.bus == Bus(s.bus.vr, []);
    BeginIssues(s.bus.vr, link);
    SessionGrows(s, link, chunks);
    var b, r := Begin(s.bus, link), Session(s, link, chunks);
    if b.ok {
      var ops, log := SetUpOps(s.bus.vr.wp), r.s.bus.log;
      assert log[..|ops|] == b.s.bus.log;
      SetUpLong(s.bus.vr.wp);
      assert |log| == |ops| ==> log[..|ops|] == log;
    } else {
      ChunkIndependence(s, link, chunks);
      IssuesShort(b.s.bus.log, SetUpOps(s.bus.vr.wp));
    }
  }

  lemma IssuesShort(log: seq<Entry>, ops: seq<Op>)
    requires Issues(log, ops)
    ensures |log| <= |ops|
  {
  }

  lemma SetUpLong(wp: byte)
    ensures |SetUpOps(wp)| >= 6
  {
  }

  // ------------------------------------------------------- whole-image updates

  /** The transactions of an entry list, the page selected last known. */
  function EntryOps(cfgs: seq<Cfg>, page: byte): seq<Op>
    requires forall c :: c in cfgs ==> c.len <= 2
  {
    if cfgs == [] then []
    else
      var c := cfgs[0];
      (if c.page == page then [] else [SetPage(c.page)]) +
      [Send(c.addr, [c.val % 256, c.val / 256 % 256][..c.len], FromRow(0, c.page, false))] + EntryOps(cfgs[1..], c.page)
  }

  /** All transactions of a whole-image update but for the restore at its end. */
  function BatchOps(wp: byte, cfgs: seq<Cfg>): seq<Op>
    requires forall c :: c in cfgs ==> c.len <= 2
  {
    [SetPage(0), Fetch(0xAD, 9), SetPage(0), Fetch(0x10, 1)] +
    (if wp == 0 then [] else [SetPage(0), Send(0x10, [0], Driver), SetPage(0), Fetch(0x10, 1)]) +
    ([Send(0x03, [], Driver)] + EntryOps(cfgs, 0xFF) +
     [SetPage(0), Send(0x15, [], Driver), SetPage(0), Fetch(0x7E, 1)])
  }

  /** The next operations of a list have been issued, all of them if it went well. */
  predicate Next(b: Bus, d: Bus, ok: bool, ops: seq<Op>) {
    b.log <= d.log && |d.log| <= |b.log| + |ops| && (ok ==> |d.log| == |b.log| + |ops|) &&
    forall i :: |b.log| <= i < |d.log| ==> d.log[i].op == ops[i - |b.log|]
  }

  lemma NextOne(b: Bus, link: Link, op: Op)
    ensures Next(b, Exec(b, link, op).bus, Exec(b, link, op).ok, [op])
  {
    hide Effect, Answer;
  }

  lemma NextNone(b: Bus)
    ensures Next(b, b, true, [])
  {
  }

  lemma NextStops(b: Bus, d: Bus, x: seq<Op>, y: seq<Op>)
    requires Next(b, d, false, x)
    ensures Next(b, d, false, x + y)
  {
  }

  lemma NextThen(b: Bus, d: Bus, e: Bus, ok: bool, x: seq<Op>, y: seq<Op>)
    requires Next(b, d, true, x) && Next(d, e, ok, y)
    ensures Next(b, e, ok, x + y)
  {
    forall i | |b.log| <= i < |e.log|
      ensures e.log[i].op == (x + y)[i - |b.log|]
    {
      if i < |d.log| {
        assert e.log[i] == d.log[i];
      }
    }
  }

  lemma {:induction false} EntriesIssue(b: Bus, link: Link, cfgs: seq<Cfg>, page: byte)
    requires forall c :: c in cfgs ==> c.len <= 2
    ensures var d := WriteEntries(b, link, cfgs, page); Next(b, d.bus, d.ok, EntryOps(cfgs, page))
    decreases |cfgs|
  {
    hide Exec, Next, LittleEndian;
    if cfgs == [] {
      NextNone(b);
    } else {
      var c, d := cfgs[0], WriteEntries(b, link, cfgs, page);
      var x := if c.page == page then [] else [SetPage(c.page)];
      var op, rest := CfgSend(c), EntryOps(cfgs[1..], c.page);
      EntryBytes(c);
      var p := if c.page != page then Exec(b, link, SetPage(c.page)) else Done(b, true, []);
      NextOne(b, link, SetPage(c.page));
      NextNone(b);
      assert EntryOps(cfgs, page) == x + ([op] + rest);
      if !p.ok {
        NextStops(b, d.bus, x, [op] + rest);
      } else {
        var w := Exec(p.bus, link, op);
        NextOne(p.bus, link, op);
        if !w.ok {
          NextStops(p.bus, w.bus, [op], rest);
        } else {
          EntriesIssue(w.bus, link, cfgs[1..], c.page);
          NextThen(p.bus, w.bus, d.bus, d.ok, [op], rest);
        }
        NextThen(b, p.bus, d.bus, d.ok, x, [op] + rest);
      }
    }
  }

  lemma EntryBytes(c: Cfg)
    requires c.len <= 2
    ensures CfgSend(c) == Send(c.addr, [c.val % 256, c.val / 256 % 256][..c.len], FromRow(0, c.page, false))
  {
  }

  lemma {:induction false} StoreIssues(b: Bus, link: Link)
    ensures var d := BatchStore(b, link);
            Next(b, d.bus, d.ok, [SetPage(0), Send(0x15, [], Driver), SetPage(0), Fetch(0x7E, 1)]) &&
            (d.ok ==> |d.bus.log| > 0 && Fine(link(|d.bus.log| - 1)))
  {
    hide Effect;
    assert forall x: byte :: Fit([x], 1)[0] == x;
  }

  lemma {:induction false} BatchBeginIssues(vr: Vr, link: Link)
    ensures var r := BatchBegin(Bus(vr, []), link);
            var ops := [SetPage(0), Fetch(0xAD, 9), SetPage(0), Fetch(0x10, 1)] +
                       (if vr.wp == 0 then [] else [SetPage(0), Send(0x10, [0], Driver), SetPage(0), Fetch(0x10, 1)]);
            Next(Bus(vr, []), r.bus, r.ok, ops) && (|r.bus.log| > 2 ==> Identified(r.bus.log, link)) &&
            (r.ok ==> r.data == [vr.wp])
  {
    hide Effect, Answer, IsFamilyId, Next, FamilyBlock, GetWriteProtect, SetWriteProtect;
    var b := Bus(vr, []);
    var p := Exec(b, link, SetPage(0));
    PageAfter(b, link, 0);
    var off := if vr.wp == 0 then [] else [SetPage(0), Send(0x10, [0], Driver), SetPage(0), Fetch(0x10, 1)];
    var x, y := [SetPage(0), Fetch(0xAD, 9)], [SetPage(0), Fetch(0x10, 1)];
    var r := BatchBegin(b, link);
    assert [SetPage(0), Fetch(0xAD, 9), SetPage(0), Fetch(0x10, 1)] + off == x + (y + off);
    IdIssues(b, link);
    var id := CheckDeviceId(b, link);
    if !id.ok {
      NextStops(b, id.bus, x, y + off);
    } else {
      var g := GetWriteProtect(id.bus, link);
      ReadIssues(id.bus, link);
      if !g.ok {
        NextStops(id.bus, g.bus, y, off);
      } else {
        var w := if g.data[0] != 0 then SetWriteProtect(g.bus, link, 0) else Done(g.bus, true, []);
        OffIssues(g.bus, link);
        NextNone(g.bus);
        NextThen(id.bus, g.bus, w.bus, w.ok, y, off);
      }
      NextThen(b, id.bus, r.bus, r.ok, x, y + off);
      Keeps(b, id.bus, r.bus, link);
    }
  }

  lemma IdIssues(b: Bus, link: Link)
    requires b.log == []
    ensures var d := CheckDeviceId(b, link);
            Next(b, d.bus, d.ok, [SetPage(0), Fetch(0xAD, 9)]) && |d.bus.log| <= 2 && d.bus.vr.wp == b.vr.wp &&
            (d.ok ==> Identified(d.bus.log, link))
  {
    hide IsFamilyId, FamilyBlock;
    var p := Exec(b, link, SetPage(0));
    IdRead(p.bus, link);
    if CheckDeviceId(b, link).ok {
      FamilyIs(CheckDeviceId(b, link).data);
    }
  }

  lemma ReadIssues(b: Bus, link: Link)
    ensures var d := GetWriteProtect(b, link);
            Next(b, d.bus, d.ok, [SetPage(0), Fetch(0x10, 1)]) && d.bus.vr.wp == b.vr.wp && (d.ok ==> d.data == [b.vr.wp])
  {
    WpRead(b, link);
  }

  lemma OffIssues(b: Bus, link: Link)
    ensures var d := SetWriteProtect(b, link, 0);
            Next(b, d.bus, d.ok, [SetPage(0), Send(0x10, [0], Driver), SetPage(0), Fetch(0x10, 1)])
  {
    hide Effect, Answer;
  }

  lemma Keeps(b: Bus, d: Bus, e: Bus, link: Link)
    requires d.log <= e.log && Identified(d.log, link)
    ensures Identified(e.log, link)
  {
    hide FamilyBlock;
    assert e.log[0] == d.log[0] && e.log[1] == d.log[1];
  }

  /** A whole-image update, transaction by transaction.  Up to its restore it issues the first of
      these, all of them when it reports success: the set-up, the entries each on its page, the
      store and the status read, which then shows no error; and nothing follows the ID block
      unless it is one of the family. */
  lemma {:induction false} BatchIssues(vr: Vr, link: Link, cfgs: seq<Cfg>)
    requires cfgs != [] && BatchBegin(Bus(vr, []), link).ok && forall c :: c in cfgs ==> c.len <= 2
    ensures var s, mid := BatchBegin(Bus(vr, []), link).bus, BatchBody(BatchBegin(Bus(vr, []), link).bus, link, cfgs);
            Next(Bus(vr, []), mid.bus, mid.ok, BatchOps(vr.wp, cfgs)) && Identified(mid.bus.log, link) &&
            (mid.ok ==> |mid.bus.log| > 0 && Fine(link(|mid.bus.log| - 1)))
  {
    hide Effect, Answer, Next, FamilyBlock, BatchBegin, WriteEntries, BatchStore, EntryOps, Fine;
    var b := Bus(vr, []);
    var s := BatchBegin(b, link).bus;
    var mid := BatchBody(s, link, cfgs);
    BatchBeginIssues(vr, link);
    var setup := [SetPage(0), Fetch(0xAD, 9), SetPage(0), Fetch(0x10, 1)] +
                 (if vr.wp == 0 then [] else [SetPage(0), Send(0x10, [0], Driver), SetPage(0), Fetch(0x10, 1)]);
    var clear, rest, store := [Send(0x03, [], Driver)], EntryOps(cfgs, 0xFF), [SetPage(0), Send(0x15, [], Driver), SetPage(0), Fetch(0x7E, 1)];
    var c := Exec(s, link, Send(0x03, [], Driver));
    NextOne(s, link, Send(0x03, [], Driver));
    NextAnyhow(s, c.bus, c.ok, Send(0x03, [], Driver));
    var e := WriteEntries(c.bus, link, cfgs, 0xFF);
    EntriesIssue(c.bus, link, cfgs, 0xFF);
    if e.ok {
      StoreIssues(e.bus, link);
      NextThen(c.bus, e.bus, mid.bus, mid.ok, rest, store);
    } else {
      NextStops(c.bus, e.bus, rest, store);
    }
    NextThen(s, c.bus, mid.bus, mid.ok, clear, rest + store);
    NextThen(b, s, mid.bus, mid.ok, setup, clear + (rest + store));
    assert clear + rest + store == clear + (rest + store);
    NextIsLonger(s, mid.bus, mid.ok, clear + (rest + store));
    SetUpOfTwo(vr, link);
    Keeps(b, s, mid.bus, link);
  }

  /** A transaction whose outcome does not matter. */
  lemma NextAnyhow(b: Bus, d: Bus, ok: bool, op: Op)
    requires Next(b, d, ok, [op]) && |d.log| == |b.log| + 1
    ensures Next(b, d, true, [op])
  {
  }

  lemma NextIsLonger(b: Bus, d: Bus, ok: bool, ops: seq<Op>)
    requires Next(b, d, ok, ops)
    ensures b.log <= d.log
  {
  }

  lemma SetUpOfTwo(vr: Vr, link: Link)
    requires BatchBegin(Bus(vr, []), link).ok
    ensures |BatchBegin(Bus(vr, []), link).bus.log| > 2 && Identified(BatchBegin(Bus(vr, []), link).bus.log, link)
  {
    hide BatchBegin, FamilyBlock;
    BatchBeginIssues(vr, link);
  }

  /** The transactions of a successful store and verify, the CRC read left out where its page
      select fails. */
  lemma {:induction false} StoreSequence(s: Stream, link: Link)
    requires StoreAndVerify(s, link).ok
    ensures Next(s.bus, StoreAndVerify(s, link).s.bus, true,
                 [SetPage(0), Send(0x15, [], Driver), SetPage(0)] + (if link(|s.bus.log| + 2).acked then [Fetch(0xB8, 5)] else []) +
                 [Send(0x16, [], Driver), SetPage(0), Fetch(0x7E, 1)])
  {
    hide Effect, Answer, CmlClean, Next;
    var p := Exec(s.bus, link, SetPage(0));
    NextOne(s.bus, link, SetPage(0));
    var w := Exec(p.bus, link, Send(0x15, [], Driver));
    NextOne(p.bus, link, Send(0x15, [], Driver));
    NextThen(s.bus, p.bus, w.bus, true, [SetPage(0)], [Send(0x15, [], Driver)]);
    var v := Exec(w.bus, link, SetPage(0));
    NextOne(w.bus, link, SetPage(0));
    NextAnyhow(w.bus, v.bus, v.ok, SetPage(0));
    NextThen(s.bus, w.bus, v.bus, true, [SetPage(0)] + [Send(0x15, [], Driver)], [SetPage(0)]);
    var head := [SetPage(0), Send(0x15, [], Driver), SetPage(0)];
    assert [SetPage(0)] + [Send(0x15, [], Driver)] + [SetPage(0)] == head;
    assert |w.bus.log| == |s.bus.log| + 2;
    var f := GetFwVersion(w.bus, link);
    var mid := if v.ok then [Fetch(0xB8, 5)] else [];
    var c := Exec(v.bus, link, Fetch(0xB8, 5));
    NextOne(v.bus, link, Fetch(0xB8, 5));
    NextAnyhow(v.bus, c.bus, c.ok, Fetch(0xB8, 5));
    NextNone(v.bus);
    NextThen(s.bus, v.bus, f, true, head, mid);
    var q := Exec(f, link, Send(0x16, [], Driver));
    NextOne(f, link, Send(0x16, [], Driver));
    var a := Exec(q.bus, link, SetPage(0));
    NextOne(q.bus, link, SetPage(0));
    NextThen(f, q.bus, a.bus, true, [Send(0x16, [], Driver)], [SetPage(0)]);
    var e := Exec(a.bus, link, Fetch(0x7E, 1));
    NextOne(a.bus, link, Fetch(0x7E, 1));
    NextThen(f, a.bus, e.bus, true, [Send(0x16, [], Driver)] + [SetPage(0)], [Fetch(0x7E, 1)]);
    var tail := [Send(0x16, [], Driver), SetPage(0), Fetch(0x7E, 1)];
    assert [Send(0x16, [], Driver)] + [SetPage(0)] + [Fetch(0x7E, 1)] == tail;
    NextThen(s.bus, f, e.bus, true, head + mid, tail);
  }
}
