// The program and store loops of common/dev/mp289x.c: user rows first, then multi-configuration
// groups 1 to 6, stored to MTP two groups at a time.
module PairedStores {
  import opened CText

  const STORE_USR: byte := 0x17
  const STORE_ALL: byte := 0x15
  const STORE_GP12: byte := 0xF5
  const STORE_GP34: byte := 0xF6
  const STORE_GP56: byte := 0xF7
  const OFFLINE_CTL: byte := 0xF3
  const BORROW: byte := 0x8C
  const MTP_CTRL: byte := 0xD0
  const STORE_STAT: byte := 0x35
  const STAT_CML: byte := 0x7E
  const NO_PAGE: byte := 0xFF

  /** A row of the configuration file. */
  datatype Row = Row(page: byte, reg: byte, data: seq<byte>)

  /** A write as the part sees it, on the page in force, a command being a write of no bytes; or
      the driver having seen a store done without error. */
  datatype Event = Wrote(page: byte, reg: byte, data: seq<byte>) | Verified

  predicate IsUser(r: Row) { r.page == 0 || r.page == 1 }

  function GroupOf(r: Row): (g: nat)
    ensures g < 16
  {
    r.page / 16
  }

  predicate ValidGroup(g: nat) { 1 <= g <= 6 }

  /** Odd groups are programmed on page 4, even ones on a borrowed page 1. */
  function TargetPage(g: nat): byte { if g % 2 == 1 then 4 else 1 }

  /** A row of the second loop once its page has been replaced. */
  function Rewritten(r: Row): Row { if ValidGroup(GroupOf(r)) then r.(page := TargetPage(GroupOf(r))) else r }

  function StoreCommand(mode: nat): Event
    requires mode <= 4
  {
    match mode
    case 0 => Wrote(0, STORE_USR, [])
    case 1 => Wrote(4, STORE_GP12, [])
    case 2 => Wrote(4, STORE_GP34, [])
    case 3 => Wrote(4, STORE_GP56, [])
    case _ => Wrote(0, STORE_ALL, [])
  }

  /** A store that succeeds: its command, and the look at what came of it. */
  function StoreOf(mode: nat): (ws: seq<Event>)
    requires mode <= 4
    ensures |ws| == 2
  {
    [StoreCommand(mode), Verified]
  }

  /** A store with a mode the part does not have is refused without a write. */
  function Stores(mode: nat): seq<Event> { if mode <= 4 then StoreOf(mode) else [] }

  const BorrowPage1: Event := Wrote(1, OFFLINE_CTL, [BORROW])

  /** Number of user rows at the head of the list. */
  function UserHead(rows: seq<Row>): (n: nat)
    ensures n <= |rows| && (n < |rows| ==> !IsUser(rows[n])) && forall k :: 0 <= k < n ==> IsUser(rows[k])
  {
    if rows == [] || !IsUser(rows[0]) then 0 else 1 + UserHead(rows[1..])
  }

  function WritesOf(rows: seq<Row>): seq<Event> {
    if rows == [] then [] else [Wrote(rows[0].page, rows[0].reg, rows[0].data)] + WritesOf(rows[1..])
  }

  function WritesOn(page: byte, rows: seq<Row>): seq<Event> {
    if rows == [] then [] else [Wrote(page, rows[0].reg, rows[0].data)] + WritesOn(page, rows[1..])
  }

  /** What a page change costs before the row itself: the store of the pair just finished, named
      after the group just entered, and the borrowing of page 1. */
  function Turn(last: byte, g: nat): seq<Event>
    requires ValidGroup(g)
  {
    if TargetPage(g) == last then []
    else (if last == 1 then Stores(g / 2) else []) + (if TargetPage(g) == 1 then [BorrowPage1] else [])
  }

  /** The second loop and the store behind it. Rows of no valid group are passed over, but their
      group number is the one the last store is named after. */
  function Multi(rows: seq<Row>, last: byte, g: nat): seq<Event>
    decreases |rows|
  {
    if rows == [] then Stores(g / 2)
    else
      var h := GroupOf(rows[0]);
      if !ValidGroup(h) then Multi(rows[1..], last, h)
      else Turn(last, h) + [Wrote(TargetPage(h), rows[0].reg, rows[0].data)] + Multi(rows[1..], TargetPage(h), h)
  }

  /** The MTP control word with multi-configuration programming enabled (bits 5 and 12). */
  function Enabled(lo: byte, hi: byte): Event {
    Wrote(0, MTP_CTRL, [if lo / 32 % 2 == 1 then lo else lo + 32, if hi / 16 % 2 == 1 then hi else hi + 16])
  }

  /** Enabling sets those two bits of the control word on page 0 and no other. */
  lemma EnabledBits(lo: byte, hi: byte)
    ensures exists a: byte, b: byte {:trigger Wrote(0, 0xD0, [a, b])} ::
              Enabled(lo, hi) == Wrote(0, 0xD0, [a, b]) &&
              a / 32 % 2 == 1 && a % 32 == lo % 32 && a / 64 == lo / 64 &&
              b / 16 % 2 == 1 && b % 16 == hi % 16 && b / 32 == hi / 32
  {
    var a := if lo / 32 % 2 == 1 then lo else lo + 32;
    var b := if hi / 16 % 2 == 1 then hi else hi + 16;
    assert Enabled(lo, hi) == Wrote(0, 0xD0, [a, b]);
  }

  /** Where the second loop starts: at the first row that is no user row, or, as the index is
      only set when there is one, at row 0. */
  function MultiStart(rows: seq<Row>): (n: nat)
    ensures n <= |rows|
  {
    if UserHead(rows) == |rows| then 0 else UserHead(rows)
  }

  /** Everything a run without failures writes. */
  function Plan(rows: seq<Row>, lo: byte, hi: byte): seq<Event> {
    UserPart(rows) + ([Enabled(lo, hi)] + Multi(rows[MultiStart(rows)..], NO_PAGE, 1))
  }

  function UserPart(rows: seq<Row>): seq<Event> { WritesOf(rows[..UserHead(rows)]) + StoreOf(0) }

  // ------------------------------------------------------------ properties

  /** Two groups that are stored together. */
  datatype Pair = Pair(number: nat, odds: seq<Row>, evens: seq<Row>)

  predicate AllOf(rows: seq<Row>, g: nat) { rows == [] || (GroupOf(rows[0]) == g && AllOf(rows[1..], g)) }

  predicate PairOk(p: Pair) {
    1 <= p.number <= 3 && (p.odds != [] || p.evens != []) && AllOf(p.odds, 2 * p.number - 1) && AllOf(p.evens, 2 * p.number)
  }

  predicate PairsOk(ps: seq<Pair>) { ps == [] || (PairOk(ps[0]) && PairsOk(ps[1..])) }

  function Flat(ps: seq<Pair>): seq<Row> {
    if ps == [] then [] else ps[0].odds + ps[0].evens + Flat(ps[1..])
  }

  function PairWrites(p: Pair): seq<Event> {
    WritesOn(4, p.odds) + (if p.evens == [] then [] else [Wrote(1, 0xF3, [0x8C])] + WritesOn(1, p.evens))
  }

  /** The store of a pair: groups 1 and 2, 3 and 4, 5 and 6. */
  function PairStore(number: nat): (ws: seq<Event>)
    requires 1 <= number <= 3
    ensures |ws| == 2
  {
    [Wrote(4, if number == 1 then 0xF5 else if number == 2 then 0xF6 else 0xF7, []), Verified]
  }

  lemma StoreIs(number: nat)
    ensures StoreOf(0) == [Wrote(0, 0x17, []), Verified]
    ensures 1 <= number <= 3 ==> StoreOf(number) == PairStore(number)
  {
  }

  /** What ought to happen: each pair's rows, odd group on page 4 and even group on borrowed
      page 1, then the pair's own store, before the next pair. */
  function Intended(ps: seq<Pair>): seq<Event>
    requires PairsOk(ps)
  {
    if ps == [] then [] else PairWrites(ps[0]) + PairStore(ps[0].number) + Intended(ps[1..])
  }

  /** Every pair has its even group, every pair but the first its odd group, and each is the one
      after the pair before it. */
  predicate Complete(ps: seq<Pair>)
    decreases |ps|, 1
  {
    ps == [] || (ps[0].evens != [] && Follow(ps[1..], ps[0].number))
  }

  /** Pairs that may come after pair q: none, or complete ones from q + 1 on, odd group first. */
  predicate Follow(ps: seq<Pair>, q: nat)
    decreases |ps|, 2
  {
    ps == [] || (ps[0].odds != [] && ps[0].number == q + 1 && Complete(ps))
  }

  /** Rows of one group on the page already in force. */
  lemma {:induction false} SamePage(rows: seq<Row>, rest: seq<Row>, g: nat)
    requires AllOf(rows, g) && ValidGroup(g)
    ensures Multi(rows + rest, TargetPage(g), g) == WritesOn(TargetPage(g), rows) + Multi(rest, TargetPage(g), g)
    decreases |rows|
  {
    if rows == [] {
      assert rows + rest == rest;
    } else {
      assert (rows + rest)[0] == rows[0] && (rows + rest)[1..] == rows[1..] + rest;
      SamePage(rows[1..], rest, g);
    }
  }

  /** Rows of one group entered from another page. */
  lemma EnterGroup(rows: seq<Row>, rest: seq<Row>, g: nat, last: byte, before: nat)
    requires rows != [] && AllOf(rows, g) && ValidGroup(g)
    ensures Multi(rows + rest, last, before) == Turn(last, g) + WritesOn(TargetPage(g), rows) + Multi(rest, TargetPage(g), g)
  {
    hide Turn, TargetPage, Multi, WritesOn;
    var page := TargetPage(g);
    assert (rows + rest)[0] == rows[0] && (rows + rest)[1..] == rows[1..] + rest;
    MultiStep(rows + rest, last, before);
    WritesOnStep(page, rows);
    SamePage(rows[1..], rest, g);
    Group(Turn(last, g), [Wrote(page, rows[0].reg, rows[0].data)], WritesOn(page, rows[1..]), Multi(rest, page, g));
  }

  lemma WritesOnStep(page: byte, rows: seq<Row>)
    requires rows != []
    ensures WritesOn(page, rows) == [Wrote(page, rows[0].reg, rows[0].data)] + WritesOn(page, rows[1..])
  {
  }

  lemma Group(a: seq<Event>, b: seq<Event>, c: seq<Event>, d: seq<Event>)
    ensures a + b + (c + d) == a + (b + c) + d
    ensures b + (c + d) == (b + c) + d
  {
  }

  /** The page a pair ends on, and its last group. */
  function PageOf(p: Pair): byte { if p.evens != [] then 1 else 4 }

  function LastGroup(p: Pair): nat
    requires p.number >= 1
  {
    if p.evens != [] then 2 * p.number else 2 * p.number - 1
  }

  /** What a pair makes the loop write, entered from a page: an odd group behind an even one
      stores under the number before its own, an even one behind an even one is not noticed. */
  function Entered(p: Pair, last: byte): seq<Event>
    requires 1 <= p.number <= 3
  {
    if p.odds != [] then (if last == 1 then StoreOf(p.number - 1) else []) + PairWrites(p)
    else if last == 1 then WritesOn(1, p.evens)
    else PairWrites(p)
  }

  lemma EnterPair(p: Pair, rest: seq<Row>, last: byte, before: nat)
    requires PairOk(p) && (last == 1 || last == 4 || last == NO_PAGE)
    ensures Multi(p.odds + p.evens + rest, last, before) == Entered(p, last) + Multi(rest, PageOf(p), LastGroup(p))
  {
    hide Multi, WritesOn, StoreOf, Turn, AllOf;
    var g := 2 * p.number - 1;
    var end := Multi(rest, PageOf(p), LastGroup(p));
    assert p.odds + p.evens + rest == p.odds + (p.evens + rest);
    PairTurns(p.number, last);
    PairTurns(p.number, 4);
    if p.odds == [] {
      assert p.odds + (p.evens + rest) == p.evens + rest;
      EnterGroup(p.evens, rest, 2 * p.number, last, before);
      NoWrites(4);
      assert [] + ([BorrowPage1] + WritesOn(1, p.evens)) == [BorrowPage1] + WritesOn(1, p.evens);
      assert [] + WritesOn(1, p.evens) == WritesOn(1, p.evens);
    } else {
      EnterGroup(p.odds, p.evens + rest, g, last, before);
      if p.evens == [] {
        assert p.evens + rest == rest;
        assert WritesOn(4, p.odds) + [] == WritesOn(4, p.odds);
      } else {
        EnterGroup(p.evens, rest, 2 * p.number, 4, g);
        Regroup(Turn(last, g), WritesOn(4, p.odds), [BorrowPage1], WritesOn(1, p.evens), end);
      }
    }
  }

  lemma NoWrites(page: byte)
    ensures WritesOn(page, []) == []
  {
  }

  lemma PairTurns(n: nat, last: byte)
    requires 1 <= n <= 3 && (last == 1 || last == 4 || last == NO_PAGE)
    ensures TargetPage(2 * n - 1) == 4 && TargetPage(2 * n) == 1
    ensures Turn(last, 2 * n) == if last == 1 then [] else [BorrowPage1]
    ensures Turn(last, 2 * n - 1) == if last == 1 then StoreOf(n - 1) else []
  {
    hide StoreOf;
    assert (2 * n - 1) / 2 == n - 1 && (2 * n - 1) % 2 == 1 && 2 * n % 2 == 0;
  }

  lemma Regroup(a: seq<Event>, b: seq<Event>, c: seq<Event>, d: seq<Event>, e: seq<Event>)
    ensures a + b + (c + d + e) == a + (b + (c + d)) + e
  {
  }

  lemma StoresDiffer(a: nat, b: nat)
    requires a <= 3 && b <= 3
    ensures StoreOf(a) == StoreOf(b) <==> a == b
  {
  }

  lemma PairTail(ps: seq<Pair>)
    requires PairsOk(ps) && ps != []
    ensures PairOk(ps[0]) && PairsOk(ps[1..])
  {
  }

  /** Where no pair follows, the last store is named after the last group. */
  lemma LastPair(p: Pair)
    requires PairOk(p)
    ensures Multi([], PageOf(p), LastGroup(p)) == StoreOf(if p.evens != [] then p.number else p.number - 1)
  {
    hide StoreOf;
  }

  /** The pairs behind a pair: what comes out is never longer than that pair's own store and the
      intended rest, and is exactly that if and only if the pair had its even group and the
      rest may follow it. */
  lemma {:induction false} FromPair(q: Pair, ps: seq<Pair>)
    requires PairOk(q) && PairsOk(ps)
    ensures var out := Multi(Flat(ps), PageOf(q), LastGroup(q));
            |out| <= 2 + |Intended(ps)| &&
            (out == PairStore(q.number) + Intended(ps) <==> q.evens != [] && Follow(ps, q.number))
    decreases |ps|
  {
    PairNumber(q);
    StoreIs(q.number);
    hide StoreOf, PairStore, PairWrites, Multi, WritesOn, AllOf, Entered, PairOk;
    if ps == [] {
      LastPair(q);
      StoresDiffer(q.number, q.number - 1);
      assert PairStore(q.number) + [] == PairStore(q.number);
    } else {
      PairTail(ps);
      var p, rest := ps[0], ps[1..];
      PairNumber(p);
      EnterPair(p, Flat(rest), PageOf(q), LastGroup(q));
      FromPair(p, rest);
      BetweenPairs(q, p, Multi(Flat(rest), PageOf(p), LastGroup(p)), PairStore(p.number) + Intended(rest));
      Group([], PairWrites(p), PairStore(p.number), Intended(rest));
    }
  }

  /** From one pair to the next, whatever follows. */
  lemma BetweenPairs(q: Pair, p: Pair, x: seq<Event>, y: seq<Event>)
    requires PairOk(q) && PairOk(p) && |x| <= |y|
    ensures var out := Entered(p, PageOf(q)) + x;
            |out| <= 2 + |PairWrites(p) + y| &&
            (out == PairStore(q.number) + (PairWrites(p) + y) <==> q.evens != [] && p.odds != [] && p.number == q.number + 1 && x == y)
  {
    PairNumber(q);
    PairNumber(p);
    StoreIs(q.number);
    hide StoreOf, PairStore, PairWrites, AllOf, Entered, PairOk;
    EnteredIs(p, PageOf(q));
    StoresDiffer(p.number - 1, q.number);
    assert PairStore(q.number) + (PairWrites(p) + y) == PairStore(q.number) + PairWrites(p) + y;
    if q.evens != [] && p.odds != [] {
      SameParts(StoreOf(p.number - 1), PairStore(q.number), PairWrites(p), x, y);
    } else {
      assert |Entered(p, PageOf(q))| <= |PairWrites(p)|;
    }
  }

  lemma EnteredIs(p: Pair, last: byte)
    requires PairOk(p)
    ensures p.odds != [] && last == 1 ==> Entered(p, last) == StoreOf(p.number - 1) + PairWrites(p)
    ensures !(p.odds != [] && last == 1) ==> |Entered(p, last)| <= |PairWrites(p)|
    ensures last == NO_PAGE ==> Entered(p, last) == PairWrites(p)
  {
    hide StoreOf, AllOf;
    assert [] + PairWrites(p) == PairWrites(p);
    if p.odds == [] {
      NoWrites(4);
    }
  }

  lemma SameParts(a: seq<Event>, b: seq<Event>, mid: seq<Event>, x: seq<Event>, y: seq<Event>)
    requires |a| == |b|
    ensures a + mid + x == b + mid + y <==> a == b && x == y
  {
    var l, r := a + mid + x, b + mid + y;
    if l == r {
      assert l[..|a|] == a && r[..|b|] == b;
      assert l[|a| + |mid|..] == x && r[|b| + |mid|..] == y;
    }
  }

  lemma SameTail(mid: seq<Event>, x: seq<Event>, y: seq<Event>)
    ensures mid + x == mid + y <==> x == y
  {
    if mid + x == mid + y {
      assert (mid + x)[|mid|..] == x && (mid + y)[|mid|..] == y;
    }
  }

  /** Paired-group stores, exactly: on user rows followed by pairs of groups, whole or half, the
      stores are USR and then each pair's own, each after the rows of its pair and before any
      row of the next, with odd groups on page 4 and even ones on borrowed page 1, if and only if
      every pair has its even group, every pair but the first its odd group, and the pairs are
      consecutive. */
  lemma {:induction false} PairsAreStored(user: seq<Row>, ps: seq<Pair>, lo: byte, hi: byte)
    requires (forall k :: 0 <= k < |user| ==> IsUser(user[k])) && PairsOk(ps) && ps != []
    ensures Plan(user + Flat(ps), lo, hi) == WritesOf(user) + [Wrote(0, 0x17, []), Verified, Enabled(lo, hi)] + Intended(ps) <==> Complete(ps)
  {
    StoreIs(0);
    hide StoreOf, Enabled, Multi, Intended, Complete, Flat, Plan, IsUser;
    FirstPair(ps);
    FlatHead(ps);
    PlanSplits(user, Flat(ps), lo, hi);
    SameTail(WritesOf(user) + [Wrote(0, 0x17, []), Verified, Enabled(lo, hi)], Multi(Flat(ps), NO_PAGE, 1), Intended(ps));
  }

  lemma PlanSplits(user: seq<Row>, rest: seq<Row>, lo: byte, hi: byte)
    requires (forall k :: 0 <= k < |user| ==> IsUser(user[k])) && rest != [] && !IsUser(rest[0])
    ensures Plan(user + rest, lo, hi) == WritesOf(user) + [Wrote(0, 0x17, []), Verified, Enabled(lo, hi)] + Multi(rest, NO_PAGE, 1)
  {
    StoreIs(0);
    hide StoreOf, Enabled, Multi, WritesOf, UserHead, IsUser;
    HeadOf(user, rest);
    assert (user + rest)[..|user|] == user && (user + rest)[|user|..] == rest;
    Pack(WritesOf(user), Wrote(0, 0x17, []), Verified, Enabled(lo, hi), Multi(rest, NO_PAGE, 1));
  }

  lemma Pack(a: seq<Event>, b: Event, v: Event, c: Event, d: seq<Event>)
    ensures a + [b, v] + ([c] + d) == a + [b, v, c] + d
  {
  }

  lemma FlatHead(ps: seq<Pair>)
    requires PairsOk(ps) && ps != []
    ensures Flat(ps) != [] && !IsUser(Flat(ps)[0])
  {
    assert Flat(ps)[0] == if ps[0].odds != [] then ps[0].odds[0] else ps[0].evens[0];
  }

  lemma {:induction false} FirstPair(ps: seq<Pair>)
    requires PairsOk(ps) && ps != []
    ensures Multi(Flat(ps), NO_PAGE, 1) == Intended(ps) <==> Complete(ps)
  {
    hide PairStore, StoreOf, PairWrites, Multi, PairOk, Flat, Intended, Entered;
    PairTail(ps);
    var p, rest := ps[0], ps[1..];
    assert ps == [p] + rest;
    AddPair(p, rest);
    assert 1 <= p.number <= 3 by { PairNumber(p); }
    EnterPair(p, Flat(rest), NO_PAGE, 1);
    EnteredIs(p, NO_PAGE);
    FromPair(p, rest);
    var x, y := Multi(Flat(rest), PageOf(p), LastGroup(p)), PairStore(p.number) + Intended(rest);
    SameTail(PairWrites(p), x, y);
    Group([], PairWrites(p), PairStore(p.number), Intended(rest));
  }

  lemma PairNumber(p: Pair)
    requires PairOk(p)
    ensures 1 <= p.number <= 3
  {
  }

  lemma {:induction false} HeadOf(user: seq<Row>, rest: seq<Row>)
    requires (forall k :: 0 <= k < |user| ==> IsUser(user[k])) && rest != [] && !IsUser(rest[0])
    ensures UserHead(user + rest) == |user|
    decreases |user|
  {
    var rows := user + rest;
    if user == [] {
      assert rows == rest;
    } else {
      assert rows[0] == user[0] && rows[1..] == user[1..] + rest;
      HeadOf(user[1..], rest);
    }
  }

  lemma LastCommand(mode: nat)
    requires mode <= 4
    ensures StoreOf(mode) == [Wrote(if mode == 0 || mode == 4 then 0 else 4, [0x17, 0xF5, 0xF6, 0xF7, 0x15][mode], []), Verified]
  {
  }

  lemma {:induction false} EndsInStore(rows: seq<Row>, last: byte, g: nat) returns (pre: seq<Event>)
    requires rows != [] && GroupOf(rows[|rows| - 1]) / 2 <= 4
    ensures Multi(rows, last, g) == pre + StoreOf(GroupOf(rows[|rows| - 1]) / 2)
    decreases |rows|
  {
    hide StoreOf, Turn, Multi, TargetPage;
    var h := GroupOf(rows[0]);
    var rest, page := rows[1..], if ValidGroup(h) then TargetPage(h) else last;
    MultiStep(rows, last, g);
    var end := StoreOf(GroupOf(rows[|rows| - 1]) / 2);
    if |rows| > 1 {
      assert rest[|rest| - 1] == rows[|rows| - 1];
      pre := EndsInStore(rest, page, h);
    } else {
      MultiStep(rest, page, h);
      assert Multi(rest, page, h) == [] + end;
      pre := [];
    }
    if ValidGroup(h) {
      var head := Turn(last, h) + [Wrote(TargetPage(h), rows[0].reg, rows[0].data)];
      assert head + (pre + end) == (head + pre) + end;
      pre := head + pre;
    }
  }

  /** The last store is named after the last row's group number whatever that is: half of it,
      also where the row itself was passed over. */
  lemma LastStore(rows: seq<Row>, last: byte, g: nat)
    requires rows != [] && GroupOf(rows[|rows| - 1]) / 2 <= 4
    ensures var m := Multi(rows, last, g);
            var mode := GroupOf(rows[|rows| - 1]) / 2;
            |m| >= 2 && m[|m| - 1] == Verified &&
            m[|m| - 2] == Wrote(if mode == 0 || mode == 4 then 0 else 4, [0x17, 0xF5, 0xF6, 0xF7, 0x15][mode], [])
  {
    hide Multi, StoreOf;
    var pre := EndsInStore(rows, last, g);
    LastCommand(GroupOf(rows[|rows| - 1]) / 2);
  }

  /** So a file of user rows only has them stored twice, and once would do. */
  lemma {:induction false} UserRowsStoredTwice(rows: seq<Row>, last: byte, g: nat)
    requires (forall k :: 0 <= k < |rows| ==> IsUser(rows[k])) && g <= 1
    ensures Multi(rows, last, g) == [Wrote(0, 0x17, []), Verified]
    decreases |rows|
  {
    if rows != [] {
      UserRowsStoredTwice(rows[1..], last, 0);
    }
  }

  /** All six groups in order: USR, 12, 34 and 56, each after the rows of its own pair. */
  lemma {:induction false} SixGroups(user: seq<Row>, a: Pair, b: Pair, c: Pair, lo: byte, hi: byte)
    requires forall k :: 0 <= k < |user| ==> IsUser(user[k])
    requires PairOk(a) && PairOk(b) && PairOk(c) && (a.number, b.number, c.number) == (1, 2, 3)
    requires a.evens != [] && b.odds != [] && b.evens != [] && c.odds != [] && c.evens != []
    ensures Plan(user + (a.odds + a.evens + (b.odds + b.evens + (c.odds + c.evens))), lo, hi) ==
              WritesOf(user) + [Wrote(0, 0x17, []), Verified, Enabled(lo, hi)] +
              (PairWrites(a) + [Wrote(4, 0xF5, []), Verified] +
               (PairWrites(b) + [Wrote(4, 0xF6, []), Verified] + (PairWrites(c) + [Wrote(4, 0xF7, []), Verified])))
  {
    assert PairStore(1) == [Wrote(4, 0xF5, []), Verified] && PairStore(2) == [Wrote(4, 0xF6, []), Verified];
    assert PairStore(3) == [Wrote(4, 0xF7, []), Verified];
    hide PairStore, StoreOf, Enabled, Plan, PairWrites, WritesOf, PairOk, PairsOk, Flat, Intended, Complete;
    NoPairs();
    var rs := [c] + [];
    AddPair(c, []);
    var qs := [b] + rs;
    AddPair(b, rs);
    var ps := [a] + qs;
    AddPair(a, qs);
    assert c.odds + c.evens + [] == c.odds + c.evens;
    assert PairWrites(c) + PairStore(3) + [] == PairWrites(c) + PairStore(3);
    PairsAreStored(user, ps, lo, hi);
  }

  lemma NoPairs()
    ensures PairsOk([]) && Flat([]) == [] && Intended([]) == [] && Complete([])
  {
  }

  lemma AddPair(p: Pair, rest: seq<Pair>)
    requires PairOk(p) && PairsOk(rest)
    ensures PairsOk([p] + rest) && Flat([p] + rest) == p.odds + p.evens + Flat(rest)
    ensures Intended([p] + rest) == PairWrites(p) + PairStore(p.number) + Intended(rest)
    ensures Complete([p] + rest) <==>
              p.evens != [] && (rest == [] || (rest[0].odds != [] && rest[0].number == p.number + 1 && Complete(rest)))
  {
    PairNumber(p);
    hide PairOk, PairStore, StoreOf, PairWrites;
    var ps := [p] + rest;
    assert ps[0] == p && ps[1..] == rest;
  }

  // ------------------------------------------------------------------ code

  /** How a bus write ends: acknowledged or not, and taken all the same or not. */
  datatype Answer = Answer(acked: bool, taken: bool)

  /** The part and the driver's view of it. `log` is what the part took, PAGE aside. */
  class Programmer {
    var page: byte
    ghost var log: seq<Event>
    var sends: nat
    var polls: nat
    const answers: nat -> Answer
    const inputs: (nat, byte) -> Option<byte>

    constructor (page: byte, answers: nat -> Answer, inputs: (nat, byte) -> Option<byte>)
      ensures this.page == page && log == [] && this.answers == answers && this.inputs == inputs
    {
      this.page, log, sends, polls := page, [], 0, 0;
      this.answers, this.inputs := answers, inputs;
    }

    /** Every write is acknowledged, every read answered, every store done at once without error. */
    ghost predicate Healthy() {
      (forall i :: answers(i).acked) && (forall i, r :: inputs(i, r).Some?) &&
      (forall i :: inputs(i, STORE_STAT) == Some(1)) && (forall i :: inputs(i, STAT_CML) == Some(0))
    }

    /** mp289x_set_page. */
    method SetPage(p: byte) returns (ok: bool)
      modifies this
      ensures log == old(log) && polls == old(polls)
      ensures ok ==> page == p
      ensures Healthy() ==> ok
    {
      var answer := answers(sends);
      sends := sends + 1;
      ok := answer.acked;
      if answer.acked || answer.taken {
        page := p;
      }
    }

    /** A register write, or a command when there is no data. */
    method Send(reg: byte, data: seq<byte>) returns (ok: bool, ghost taken: bool)
      modifies this
      ensures page == old(page) && polls == old(polls)
      ensures log == if taken then old(log) + [Wrote(page, reg, data)] else old(log)
      ensures ok ==> taken
      ensures Healthy() ==> ok
    {
      var answer := answers(sends);
      sends := sends + 1;
      ok, taken := answer.acked, answer.acked || answer.taken;
      if answer.acked || answer.taken {
        log := log + [Wrote(page, reg, data)];
      }
    }

    /** mp289x_check_err_status: the CML status, 0xFF where it could not be read. */
    method CheckErrStatus() returns (status: byte)
      modifies this
      ensures log == old(log)
      ensures status != 0xFF ==> polls == old(polls) + 1 && inputs(old(polls), 0x7E) == Some(status)
      ensures Healthy() ==> status == 0
    {
      var ok := SetPage(0);
      if !ok { return 0xFF; }
      var input := inputs(polls, STAT_CML);
      polls := polls + 1;
      status := if input.None? then 0xFF else input.value;
    }

    /** mp289x_store: one store command on its page, and up to ten looks at its status. */
    method Store(mode: nat) returns (ok: bool, ghost sent: seq<Event>)
      modifies this
      ensures log == old(log) + sent && sent <= Stores(mode)
      ensures ok ==> mode <= 4 && sent == Stores(mode)
      ensures ok ==> sent == [Wrote(if mode == 0 || mode == 4 then 0 else 4, [0x17, 0xF5, 0xF6, 0xF7, 0x15][mode], []), Verified]
      ensures ok ==> old(polls) + 2 <= polls <= old(polls) + 11 &&
                     inputs(polls - 2, 0x35) == Some(1) && inputs(polls - 1, 0x7E) == Some(0)
      ensures Healthy() && mode <= 4 ==> ok
    {
      sent := [];
      if mode > 4 {
        return false, [];
      }
      var p: byte, cmd: byte;
      match mode {
        case 0 => p, cmd := 0, STORE_USR;
        case 1 => p, cmd := 4, STORE_GP12;
        case 2 => p, cmd := 4, STORE_GP34;
        case 3 => p, cmd := 4, STORE_GP56;
        case _ => p, cmd := 0, STORE_ALL;
      }
      ok := SetPage(p);
      if !ok { return; }
      ghost var taken;
      ok, taken := Send(cmd, []);
      sent := if taken then [StoreCommand(mode)] else [];
      if !ok { return; }
      var waitTime := 10;
      while waitTime > 0
        invariant log == old(log) + sent && waitTime <= 10 && polls == old(polls) + 10 - waitTime
        invariant sent == [StoreCommand(mode)] && (Healthy() ==> waitTime == 10)
      {
        ok := SetPage(3);
        if !ok { return; }
        var input := inputs(polls, STORE_STAT);
        polls := polls + 1;
        if input == Some(1) {
          break;
        }
        waitTime := waitTime - 1;
      }
      if waitTime == 0 {
        return false, sent;
      }
      var status := CheckErrStatus();
      ok := status == 0;
      if ok {
        log, sent := log + [Verified], sent + [Verified];
      }
    }

    /** The first loop: user rows up to the first row of another page. */
    method ProgramUser(rows: array<Row>) returns (ok: bool, start: nat, ghost sent: seq<Event>)
      modifies this
      ensures log == old(log) + sent && sent <= WritesOf(rows[..][..UserHead(rows[..])])
      ensures ok ==> sent == WritesOf(rows[..][..UserHead(rows[..])]) && start == MultiStart(rows[..])
      ensures Healthy() ==> ok
    {
      ghost var list := rows[..];
      ghost var plan := WritesOf(list[..UserHead(list)]);
      var lastPage: byte := NO_PAGE;
      start, sent := 0, [];
      assert WritesOf(list[..0]) == [];
      for i := 0 to rows.Length
        invariant i <= UserHead(list) && log == old(log) + sent && sent == WritesOf(list[..i])
        invariant lastPage == NO_PAGE || lastPage == page
      {
        var row := rows[i];
        if row.page == 0 || row.page == 1 {
          WritesPrefix(list, i, UserHead(list));
          if row.page != lastPage {
            ok := SetPage(row.page);
            if !ok { return; }
            lastPage := row.page;
          }
          ghost var taken;
          ok, taken := Send(row.reg, row.data);
          if taken { sent := sent + [Wrote(row.page, row.reg, row.data)]; }
          if !ok { return; }
        } else {
          start := i;
          return true, start, sent;
        }
      }
      ok := true;
    }

    /** The page change in the second loop. */
    method TurnTo(lastPage: byte, g: nat) returns (ok: bool, ghost sent: seq<Event>)
      requires ValidGroup(g) && (lastPage == TargetPage(g) ==> lastPage == page)
      modifies this
      ensures log == old(log) + sent && sent <= Turn(lastPage, g)
      ensures ok ==> sent == Turn(lastPage, g) && page == TargetPage(g)
      ensures Healthy() ==> ok
    {
      sent := [];
      var target: byte := if g % 2 != 0 then 4 else 1;
      ok := true;
      if target != lastPage {
        if lastPage == 1 {
          ok, sent := Store(g / 2);
          if !ok { return; }
        }
        ok := SetPage(target);
        if !ok { return; }
        if target == 1 {
          ghost var taken;
          ok, taken := Send(OFFLINE_CTL, [BORROW]);
          if taken { sent := sent + [BorrowPage1]; }
        }
      }
    }

    /** A row of a valid group. */
    method ProgramRow(row: Row, lastPage: byte, g: nat) returns (ok: bool, ghost sent: seq<Event>)
      requires ValidGroup(g) && (lastPage == TargetPage(g) ==> lastPage == page)
      modifies this
      ensures log == old(log) + sent && sent <= Turn(lastPage, g) + [Wrote(TargetPage(g), row.reg, row.data)]
      ensures ok ==> sent == Turn(lastPage, g) + [Wrote(TargetPage(g), row.reg, row.data)] && page == TargetPage(g)
      ensures Healthy() ==> ok
    {
      hide Turn;
      ok, sent := TurnTo(lastPage, g);
      if !ok { return; }
      ghost var taken;
      ok, taken := Send(row.reg, row.data);
      if taken { sent := sent + [Wrote(page, row.reg, row.data)]; }
    }

    /** The second loop, which rewrites each row's page in place, and the store behind it. */
    method ProgramGroups(rows: array<Row>, start: nat) returns (ok: bool, ghost sent: seq<Event>)
      requires start <= rows.Length
      modifies this, rows
      ensures log == old(log) + sent && sent <= Multi(old(rows[start..]), NO_PAGE, 1)
      ensures ok ==> sent == Multi(old(rows[start..]), NO_PAGE, 1)
      ensures forall k :: 0 <= k < rows.Length ==>
                rows[k] == old(rows[k]) || (start <= k && rows[k] == Rewritten(old(rows[k])))
      ensures ok ==> forall k :: start <= k < rows.Length ==> rows[k] == Rewritten(old(rows[k]))
      ensures Healthy() && (start < rows.Length ==> GroupOf(old(rows[rows.Length - 1])) / 2 <= 4) ==> ok
    {
      hide Turn, Multi, Stores, Healthy, Rewritten;
      ghost var list := rows[..];
      ghost var plan := Multi(list[start..], NO_PAGE, 1);
      var lastPage: byte, groupIdx: nat := NO_PAGE, 1;
      sent := [];
      for i := start to rows.Length
        invariant log == old(log) + sent && plan == sent + Multi(list[i..], lastPage, groupIdx)
        invariant lastPage == NO_PAGE || lastPage == page
        invariant forall k :: 0 <= k < rows.Length ==> rows[k] == if start <= k < i then Rewritten(list[k]) else list[k]
        invariant groupIdx == if i == start then 1 else GroupOf(list[i - 1])
      {
        var row := rows[i];
        ghost var rest := list[i..];
        assert rest[0] == row && rest[1..] == list[i + 1..];
        MultiStep(rest, lastPage, groupIdx);
        groupIdx := row.page / 16;
        RewrittenIs(row);
        if groupIdx < 1 || groupIdx > 6 {
          continue;
        }
        var target: byte := if groupIdx % 2 != 0 then 4 else 1;
        rows[i] := row.(page := target);
        ghost var some;
        ok, some := ProgramRow(row, lastPage, groupIdx);
        Advance(old(log), sent, some, Turn(lastPage, groupIdx) + [Wrote(target, row.reg, row.data)], Multi(list[i + 1..], target, groupIdx), plan);
        sent := sent + some;
        if !ok { return; }
        lastPage := target;
      }
      assert list[rows.Length..] == [];
      MultiStep([], lastPage, groupIdx);
      ghost var some;
      ok, some := Store(groupIdx / 2);
      Advance(old(log), sent, some, Stores(groupIdx / 2), [], plan);
      sent := sent + some;
    }

    /** The user rows and their store. */
    method ProgramAndStoreUser(rows: array<Row>) returns (ok: bool, start: nat, ghost sent: seq<Event>)
      modifies this
      ensures log == old(log) + sent && sent <= UserPart(rows[..])
      ensures ok ==> sent == UserPart(rows[..]) && start == MultiStart(rows[..])
      ensures Healthy() ==> ok
    {
      hide WritesOf, UserHead, MultiStart, StoreOf, Healthy;
      ghost var list := rows[..];
      ok, start, sent := ProgramUser(rows);
      if !ok { return; }
      ghost var some;
      ok, some := Store(0);
      Advance(old(log), sent, some, StoreOf(0), [], UserPart(list));
      sent := sent + some;
    }

    /** Enable multi-configuration programming. */
    method EnableGroups() returns (ok: bool, ghost sent: seq<Event>, ghost lo: byte, ghost hi: byte)
      modifies this
      ensures log == old(log) + sent && sent <= [Enabled(lo, hi)]
      ensures ok ==> sent == [Enabled(lo, hi)]
      ensures sent != [] ==> inputs(old(polls), 0xD0) == Some(lo) && inputs(old(polls) + 1, 0xD0) == Some(hi)
      ensures Healthy() ==> ok
    {
      sent, lo, hi := [], 0, 0;
      ok := SetPage(0);
      if !ok { return; }
      var first, second := inputs(polls, MTP_CTRL), inputs(polls + 1, MTP_CTRL);
      polls := polls + 2;
      if first.None? || second.None? {
        return false, [], lo, hi;
      }
      lo, hi := first.value, second.value;
      var low, high := first.value, second.value;
      var ctrl := [if low / 32 % 2 == 1 then low else low + 32, if high / 16 % 2 == 1 then high else high + 16];
      ghost var taken;
      ok, taken := Send(MTP_CTRL, ctrl);
      sent := if taken then [Enabled(lo, hi)] else [];
    }

    /** Step 3 of mp289x_fwupdate. What the part takes is Plan, up to the first failure. */
    method Program(rows: array<Row>) returns (ok: bool, ghost sent: seq<Event>, ghost lo: byte, ghost hi: byte)
      modifies this, rows
      ensures log == old(log) + sent && sent <= Plan(old(rows[..]), lo, hi)
      ensures ok ==> sent == Plan(old(rows[..]), lo, hi)
      ensures ok ==> exists n: nat :: inputs(n, 0xD0) == Some(lo) && inputs(n + 1, 0xD0) == Some(hi)
      ensures Healthy() && (rows.Length > 0 ==> GroupOf(old(rows[rows.Length - 1])) / 2 <= 4) ==> ok
    {
      hide Multi, UserPart, MultiStart, StoreOf, Enabled, Healthy;
      ghost var list := rows[..];
      ghost var multi := Multi(list[MultiStart(list)..], NO_PAGE, 1);
      lo, hi := 0, 0;
      var start: nat;
      ok, start, sent := ProgramAndStoreUser(rows);
      if !ok { return; }
      ghost var some;
      ghost var looks := polls;
      ok, some, lo, hi := EnableGroups();
      Advance(old(log), sent, some, [Enabled(lo, hi)], multi, Plan(list, lo, hi));
      sent := sent + some;
      if !ok { return; }
      assert rows[start..] == list[start..];
      ok, some := ProgramGroups(rows, start);
      Advance(old(log), sent, some, multi, [], Plan(list, lo, hi));
      sent := sent + some;
    }
  }

  /** A step's writes, or some of them, behind those made so far. */
  lemma Advance(log: seq<Event>, sent: seq<Event>, some: seq<Event>, step: seq<Event>, tail: seq<Event>, plan: seq<Event>)
    requires plan == sent + (step + tail) && some <= step
    ensures log + sent + some == log + (sent + some) && sent + some <= plan
    ensures some == step ==> plan == (sent + some) + tail
    ensures some == step && tail == [] ==> plan == sent + some
  {
  }

  lemma RewrittenIs(r: Row)
    ensures Rewritten(r) == if ValidGroup(GroupOf(r)) then r.(page := TargetPage(GroupOf(r))) else r
    ensures Rewritten(r) == if 1 <= r.page / 16 <= 6 then r.(page := if r.page / 16 % 2 == 1 then 4 else 1) else r
  {
  }

  lemma MultiStep(rows: seq<Row>, last: byte, g: nat)
    ensures rows == [] ==> Multi(rows, last, g) == Stores(g / 2)
    ensures rows != [] ==>
              var h := GroupOf(rows[0]);
              Multi(rows, last, g) ==
                if ValidGroup(h) then Turn(last, h) + [Wrote(TargetPage(h), rows[0].reg, rows[0].data)] + Multi(rows[1..], TargetPage(h), h)
                else Multi(rows[1..], last, h)
  {
    hide Turn, Stores;
  }

  lemma {:induction false} WritesSplit(a: seq<Row>, b: seq<Row>)
    ensures WritesOf(a + b) == WritesOf(a) + WritesOf(b)
    decreases |a|
  {
    if a == [] {
      assert a + b == b;
    } else {
      assert (a + b)[1..] == a[1..] + b;
      WritesSplit(a[1..], b);
    }
  }

  lemma WritesPrefix(list: seq<Row>, i: nat, n: nat)
    requires i < n <= |list|
    ensures WritesOf(list[..i + 1]) == WritesOf(list[..i]) + [Wrote(list[i].page, list[i].reg, list[i].data)]
    ensures WritesOf(list[..i]) <= WritesOf(list[..n]) && WritesOf(list[..i + 1]) <= WritesOf(list[..n])
  {
    assert list[..i + 1] == list[..i] + [list[i]] && [list[i]][1..] == [];
    WritesSplit(list[..i], [list[i]]);
    assert list[..n] == list[..i + 1] + list[i + 1..n];
    WritesSplit(list[..i + 1], list[i + 1..n]);
  }
}
