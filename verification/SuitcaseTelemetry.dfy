/** Accepting telemetry: per origin one cursor, which moves only when the origin's loop ends. */
module SuitcaseTelemetry {
  import opened Options
  import opened Lists
  import opened SuitcaseEvents

  /** `artifacts` is missing when the record's list of artifacts is not a list. */
  datatype Sample = Sample(artifacts: Option<seq<string>>, data: string)
  type Record = Numbered<Sample>

  datatype Feed = Feed(cursors: map<string, nat>, inbox: seq<Record>)

  datatype FeedOutcome = FeedOutcome(state: Feed, ok: bool)

  const MAX_SAFE := 9007199254740991
  const PREFIX := "telemetry_"

  function Mark(f: Feed, origin: string): nat {
    if origin in f.cursors then f.cursors[origin] else 0
  }

  predicate ValidRecord(fleet: string, r: Record) {
    r.fleet == fleet && PREFIX <= r.id && 1 <= r.sequence <= MAX_SAFE && r.content.artifacts.Some?
  }

  // ---- what the loops compute ----

  datatype Taken = Taken(inbox: seq<Record>, cursor: nat, ok: bool)

  function Add(inbox: seq<Record>, r: Record): seq<Record> {
    if WithId(inbox, r.id).None? then inbox + [r] else inbox
  }

  /** One origin's records in ascending order: old ones are passed over, a gap throws. */
  function Take(inbox: seq<Record>, cursor: nat, sorted: seq<Record>): Taken
    decreases |sorted|
  {
    if sorted == [] then Taken(inbox, cursor, true)
    else if sorted[0].sequence <= cursor then Take(inbox, cursor, sorted[1..])
    else if sorted[0].sequence != cursor + 1 then Taken(inbox, cursor, false)
    else Take(Add(inbox, sorted[0]), cursor + 1, sorted[1..])
  }

  function AcceptFrom(f: Feed, records: seq<Record>, origin: string): FeedOutcome {
    var t := Take(f.inbox, Mark(f, origin), SortBySequence(OfOrigin(records, origin)));
    if t.ok then FeedOutcome(Feed(f.cursors[origin := t.cursor], t.inbox), true)
    else FeedOutcome(f.(inbox := t.inbox), false)
  }

  function AcceptEach(f: Feed, records: seq<Record>, origins: seq<string>): FeedOutcome
    decreases |origins|
  {
    if origins == [] then FeedOutcome(f, true)
    else
      var r := AcceptFrom(f, records, origins[0]);
      if r.ok then AcceptEach(r.state, records, origins[1..]) else r
  }

  /** `acceptIncomingTelemetry` */
  function AcceptTelemetry(f: Feed, fleet: string, records: seq<Record>): FeedOutcome {
    if exists r :: r in records && !ValidRecord(fleet, r) then FeedOutcome(f, false)
    else AcceptEach(f, records, EventOrigins(records))
  }

  // ---- the inbox holds no record twice ----

  lemma {:induction false} TakeUnique(inbox: seq<Record>, cursor: nat, sorted: seq<Record>)
    requires UniqueIds(inbox)
    ensures UniqueIds(Take(inbox, cursor, sorted).inbox) && inbox <= Take(inbox, cursor, sorted).inbox
    decreases |sorted|
  {
    if sorted != [] {
      if sorted[0].sequence <= cursor { TakeUnique(inbox, cursor, sorted[1..]); }
      else if sorted[0].sequence == cursor + 1 { TakeUnique(Add(inbox, sorted[0]), cursor + 1, sorted[1..]); }
    }
  }

  lemma {:induction false} EachUnique(f: Feed, records: seq<Record>, origins: seq<string>)
    requires UniqueIds(f.inbox)
    ensures UniqueIds(AcceptEach(f, records, origins).state.inbox)
    ensures f.inbox <= AcceptEach(f, records, origins).state.inbox
    decreases |origins|
  {
    if origins != [] {
      TakeUnique(f.inbox, Mark(f, origins[0]), SortBySequence(OfOrigin(records, origins[0])));
      var r := AcceptFrom(f, records, origins[0]);
      if r.ok { EachUnique(r.state, records, origins[1..]); }
    }
  }

  lemma AcceptUnique(f: Feed, fleet: string, records: seq<Record>)
    requires UniqueIds(f.inbox)
    ensures UniqueIds(AcceptTelemetry(f, fleet, records).state.inbox)
    ensures f.inbox <= AcceptTelemetry(f, fleet, records).state.inbox
  {
    EachUnique(f, records, EventOrigins(records));
  }

  // ---- the cursors advance ----

  /** Later in time: no cursor has decreased and the inbox was only appended to. */
  ghost predicate FeedFollows(before: Feed, after: Feed) {
    (forall o :: Mark(before, o) <= Mark(after, o)) && before.inbox <= after.inbox
  }

  lemma FeedFollowsThen(a: Feed, b: Feed, c: Feed)
    requires FeedFollows(a, b) && FeedFollows(b, c)
    ensures FeedFollows(a, c)
  {
    forall o ensures Mark(a, o) <= Mark(c, o) { assert Mark(a, o) <= Mark(b, o) <= Mark(c, o); }
  }

  lemma {:induction false} TakeAdvances(inbox: seq<Record>, cursor: nat, sorted: seq<Record>)
    ensures cursor <= Take(inbox, cursor, sorted).cursor && inbox <= Take(inbox, cursor, sorted).inbox
    decreases |sorted|
  {
    if sorted != [] {
      if sorted[0].sequence <= cursor { TakeAdvances(inbox, cursor, sorted[1..]); }
      else if sorted[0].sequence == cursor + 1 { TakeAdvances(Add(inbox, sorted[0]), cursor + 1, sorted[1..]); }
    }
  }

  lemma {:induction false} EachAdvances(f: Feed, records: seq<Record>, origins: seq<string>)
    ensures FeedFollows(f, AcceptEach(f, records, origins).state)
    decreases |origins|
  {
    if origins != [] {
      TakeAdvances(f.inbox, Mark(f, origins[0]), SortBySequence(OfOrigin(records, origins[0])));
      var r := AcceptFrom(f, records, origins[0]);
      if r.ok {
        EachAdvances(r.state, records, origins[1..]);
        FeedFollowsThen(f, r.state, AcceptEach(r.state, records, origins[1..]).state);
      }
    }
  }

  /** Also when it throws part way, telemetry moves no cursor back. */
  lemma AcceptAdvances(f: Feed, fleet: string, records: seq<Record>)
    ensures FeedFollows(f, AcceptTelemetry(f, fleet, records).state)
  {
    EachAdvances(f, records, EventOrigins(records));
  }

  // ---- records that come from tables of what each site issued ----

  /** What each site issued, record n at place n - 1. */
  type Tables = string -> seq<Record>

  ghost predicate Listed(tables: Tables, r: Record) {
    1 <= r.sequence <= |tables(r.origin)| && tables(r.origin)[r.sequence - 1] == r
  }

  /** Tables hold records under their origin and number, and ids determine the record. */
  ghost predicate ProperTables(tables: Tables) {
    && (forall o, i :: 0 <= i < |tables(o)| ==> tables(o)[i].origin == o && tables(o)[i].sequence == i + 1)
    && (forall r, x :: Listed(tables, r) && Listed(tables, x) && r.id == x.id ==> r == x)
  }

  ghost predicate AllListed(tables: Tables, records: seq<Record>) {
    forall r :: r in records ==> Listed(tables, r)
  }

  function Pushed(f: Feed, o: string): nat {
    |OfOrigin(f.inbox, o)|
  }

  /** Each origin's part of the inbox is the beginning of its table, at least up to the cursor. */
  ghost predicate Beginnings(f: Feed, tables: Tables) {
    && AllListed(tables, f.inbox)
    && forall o :: Mark(f, o) <= Pushed(f, o) && OfOrigin(f.inbox, o) <= tables(o)
  }

  ghost predicate Offers(records: seq<Record>, o: string, s: int) {
    exists r :: r in records && r.origin == o && r.sequence == s
  }

  /** From `from` on, the records of an origin reach without a gap to `to`, and no further. */
  ghost predicate Reaches(records: seq<Record>, o: string, from: int, to: int) {
    from <= to && (forall s :: from < s <= to ==> Offers(records, o, s)) && !Offers(records, o, to + 1)
  }

  ghost predicate NothingAbove(records: seq<Record>, o: string, to: int) {
    forall r :: r in records && r.origin == o ==> r.sequence <= to
  }

  lemma ReachUnique(records: seq<Record>, o: string, from: int, a: int, b: int)
    requires Reaches(records, o, from, a) && Reaches(records, o, from, b)
    ensures a == b
  {}

  function Larger(a: int, b: int): int {
    if a > b then a else b
  }

  /** A record from the tables is in the inbox exactly when its origin's part reaches to it. */
  lemma InInbox(f: Feed, tables: Tables, r: Record)
    requires ProperTables(tables) && Beginnings(f, tables) && Listed(tables, r)
    ensures WithId(f.inbox, r.id).Some? <==> r.sequence <= Pushed(f, r.origin)
  {
    var own, o := OfOrigin(f.inbox, r.origin), r.origin;
    OfOriginMembers(f.inbox, o);
    if r.sequence <= Pushed(f, o) {
      assert own[r.sequence - 1] == tables(o)[r.sequence - 1] == r;
      assert r in own;
    }
    var found := WithId(f.inbox, r.id);
    if found.Some? {
      var x := found.value;
      assert Listed(tables, x);
      assert x == r;
      assert r in own;
      var k :| 0 <= k < |own| && own[k] == r;
      assert tables(o)[k] == r;
    }
  }

  lemma PushNext(f: Feed, tables: Tables, r: Record)
    requires Beginnings(f, tables) && Listed(tables, r) && r.sequence == Pushed(f, r.origin) + 1
    ensures Beginnings(f.(inbox := f.inbox + [r]), tables)
    ensures forall o :: OfOrigin(f.inbox + [r], o)
                     == if r.origin == o then OfOrigin(f.inbox, o) + [r] else OfOrigin(f.inbox, o)
  {
    var g := f.(inbox := f.inbox + [r]);
    forall o ensures Mark(g, o) <= Pushed(g, o) && OfOrigin(g.inbox, o) <= tables(o)
                  && OfOrigin(g.inbox, o) == if r.origin == o then OfOrigin(f.inbox, o) + [r] else OfOrigin(f.inbox, o)
    {
      OfOriginPush(f.inbox, r, o);
      assert Mark(f, o) <= Pushed(f, o) && OfOrigin(f.inbox, o) <= tables(o);
    }
  }

  lemma AddNext(f: Feed, tables: Tables, r: Record, cursor: nat)
    requires ProperTables(tables) && Beginnings(f, tables) && Listed(tables, r)
    requires r.sequence == cursor + 1 && cursor <= Pushed(f, r.origin)
    ensures Beginnings(f.(inbox := Add(f.inbox, r)), tables)
    ensures |OfOrigin(Add(f.inbox, r), r.origin)| == Larger(Pushed(f, r.origin), r.sequence)
    ensures forall o :: o != r.origin ==> OfOrigin(Add(f.inbox, r), o) == OfOrigin(f.inbox, o)
  {
    InInbox(f, tables, r);
    if WithId(f.inbox, r.id).None? { PushNext(f, tables, r); }
  }

  /** What one origin's loop leaves behind. Also when it throws, the inbox holds the records up to
      where they reach. */
  ghost predicate TakenTo(f: Feed, tables: Tables, o: string, cursor: nat, sorted: seq<Record>, t: Taken) {
    && Reaches(sorted, o, cursor, t.cursor)
    && (t.ok <==> NothingAbove(sorted, o, t.cursor))
    && Beginnings(f.(inbox := t.inbox), tables)
    && |OfOrigin(t.inbox, o)| == Larger(Pushed(f, o), t.cursor)
    && (forall p :: p != o ==> OfOrigin(t.inbox, p) == OfOrigin(f.inbox, p))
  }

  lemma TakeSkip(f: Feed, tables: Tables, o: string, cursor: nat, sorted: seq<Record>, t: Taken)
    requires sorted != [] && sorted[0].origin == o && sorted[0].sequence <= cursor
    requires TakenTo(f, tables, o, cursor, sorted[1..], t)
    ensures TakenTo(f, tables, o, cursor, sorted, t)
  {
    TakeMore(sorted, o, cursor, cursor, t.cursor);
  }

  lemma TakeNext(f: Feed, tables: Tables, o: string, cursor: nat, sorted: seq<Record>, t: Taken)
    requires ProperTables(tables) && Beginnings(f, tables) && cursor <= Pushed(f, o)
    requires sorted != [] && sorted[0].origin == o && Listed(tables, sorted[0]) && sorted[0].sequence == cursor + 1
    requires TakenTo(f.(inbox := Add(f.inbox, sorted[0])), tables, o, cursor + 1, sorted[1..], t)
    ensures TakenTo(f, tables, o, cursor, sorted, t)
  {
    AddNext(f, tables, sorted[0], cursor);
    TakeMore(sorted, o, cursor, cursor + 1, t.cursor);
  }

  lemma TakeGap(o: string, cursor: nat, sorted: seq<Record>)
    requires sorted != [] && sorted[0].origin == o && Nondecreasing(sorted) && sorted[0].sequence > cursor + 1
    ensures Reaches(sorted, o, cursor, cursor) && !NothingAbove(sorted, o, cursor)
  {
    assert sorted[0] in sorted;
    forall x | x in sorted ensures x.sequence > cursor + 1 {
      var k :| 0 <= k < |sorted| && sorted[k] == x;
    }
  }

  ghost predicate Ready(f: Feed, tables: Tables, o: string, cursor: nat, sorted: seq<Record>) {
    && Beginnings(f, tables) && AllListed(tables, sorted) && Nondecreasing(sorted)
    && cursor <= Pushed(f, o) && forall r :: r in sorted ==> r.origin == o
  }

  lemma ReadyRest(f: Feed, tables: Tables, o: string, cursor: nat, sorted: seq<Record>)
    requires ProperTables(tables) && Ready(f, tables, o, cursor, sorted) && sorted != []
    ensures sorted[0].origin == o && Listed(tables, sorted[0]) && Ready(f, tables, o, cursor, sorted[1..])
    ensures sorted[0].sequence == cursor + 1
        ==> Ready(f.(inbox := Add(f.inbox, sorted[0])), tables, o, cursor + 1, sorted[1..])
  {
    var r, rest := sorted[0], sorted[1..];
    assert r in sorted;
    assert forall x :: x in rest ==> x in sorted;
    if r.sequence == cursor + 1 { AddNext(f, tables, r, cursor); }
  }

  lemma {:induction false} TakeExactly(f: Feed, tables: Tables, o: string, cursor: nat, sorted: seq<Record>, t: Taken)
    requires ProperTables(tables) && Ready(f, tables, o, cursor, sorted) && t == Take(f.inbox, cursor, sorted)
    ensures TakenTo(f, tables, o, cursor, sorted, t)
    decreases |sorted|, 1
  {
    if sorted != [] {
      ReadyRest(f, tables, o, cursor, sorted);
      if sorted[0].sequence <= cursor {
        TakeExactly(f, tables, o, cursor, sorted[1..], t);
        TakeSkip(f, tables, o, cursor, sorted, t);
      } else if sorted[0].sequence == cursor + 1 {
        TakeFirst(f, tables, o, cursor, sorted, t);
      } else {
        TakeGap(o, cursor, sorted);
      }
    }
  }

  lemma {:induction false} TakeFirst(f: Feed, tables: Tables, o: string, cursor: nat, sorted: seq<Record>, t: Taken)
    requires ProperTables(tables) && Ready(f, tables, o, cursor, sorted) && t == Take(f.inbox, cursor, sorted)
    requires sorted != [] && sorted[0].sequence == cursor + 1
    ensures TakenTo(f, tables, o, cursor, sorted, t)
    decreases |sorted|, 0
  {
    ReadyRest(f, tables, o, cursor, sorted);
    TakeExactly(f.(inbox := Add(f.inbox, sorted[0])), tables, o, cursor + 1, sorted[1..], t);
    TakeNext(f, tables, o, cursor, sorted, t);
  }

  lemma TakeMore(sorted: seq<Record>, o: string, cursor: nat, next: nat, to: int)
    requires sorted != [] && sorted[0].origin == o && sorted[0].sequence <= next
    requires next == cursor || next == cursor + 1 == sorted[0].sequence
    requires Reaches(sorted[1..], o, next, to)
    ensures Reaches(sorted, o, cursor, to)
    ensures NothingAbove(sorted, o, to) <==> NothingAbove(sorted[1..], o, to)
  {
    var rest := sorted[1..];
    assert forall x :: x in sorted <==> x == sorted[0] || x in rest;
    forall s | cursor < s <= to ensures Offers(sorted, o, s) {
      if s > next {
        assert Offers(rest, o, s);
        var x :| x in rest && x.origin == o && x.sequence == s;
        assert x in sorted;
      } else {
        assert sorted[0] in sorted;
      }
    }
    if Offers(sorted, o, to + 1) {
      var x :| x in sorted && x.origin == o && x.sequence == to + 1;
      assert x in rest;
      assert Offers(rest, o, to + 1);
    }
  }

  lemma SortedOffers(records: seq<Record>, o: string)
    ensures var sorted := SortBySequence(OfOrigin(records, o));
            && Nondecreasing(sorted)
            && (forall r :: r in sorted <==> r in records && r.origin == o)
  {
    Sorts(OfOrigin(records, o));
    OfOriginMembers(records, o);
  }

  lemma OriginTelemetry(f: Feed, tables: Tables, records: seq<Record>, o: string)
    requires ProperTables(tables) && Beginnings(f, tables) && AllListed(tables, records)
    ensures var r := AcceptFrom(f, records, o);
            && Beginnings(r.state, tables)
            && (r.ok <==> Gapless(f, records, o))
            && (r.ok ==> Arrived(f, r.state, records, o))
            && (!r.ok ==> r.state.cursors == f.cursors)
            && PartWay(f, r.state, records, o)
            && (forall p :: p != o ==> Untouched(f, r.state, p))
  {
    SortedOffers(records, o);
    var sorted := SortBySequence(OfOrigin(records, o));
    var t := Take(f.inbox, Mark(f, o), sorted);
    TakeExactly(f, tables, o, Mark(f, o), sorted, t);
    SameReach(records, sorted, o, Mark(f, o), t.cursor);
    FromTaken(f, tables, records, o, t, AcceptFrom(f, records, o));
  }

  lemma FromTaken(f: Feed, tables: Tables, records: seq<Record>, o: string, t: Taken, r: FeedOutcome)
    requires Beginnings(f, tables) && Beginnings(f.(inbox := t.inbox), tables)
    requires Reaches(records, o, Mark(f, o), t.cursor) && (t.ok <==> NothingAbove(records, o, t.cursor))
    requires |OfOrigin(t.inbox, o)| == Larger(Pushed(f, o), t.cursor)
    requires forall p :: p != o ==> OfOrigin(t.inbox, p) == OfOrigin(f.inbox, p)
    requires r == if t.ok then FeedOutcome(Feed(f.cursors[o := t.cursor], t.inbox), true)
                  else FeedOutcome(f.(inbox := t.inbox), false)
    ensures Beginnings(r.state, tables) && (r.ok <==> Gapless(f, records, o)) && PartWay(f, r.state, records, o)
    ensures if r.ok then Arrived(f, r.state, records, o) else r.state.cursors == f.cursors
    ensures forall p :: p != o ==> Untouched(f, r.state, p)
  {
    if Gapless(f, records, o) {
      var to :| Reaches(records, o, Mark(f, o), to) && NothingAbove(records, o, to);
      ReachUnique(records, o, Mark(f, o), to, t.cursor);
    }
  }

  lemma SameReach(records: seq<Record>, sorted: seq<Record>, o: string, from: int, to: int)
    requires forall r :: r in sorted <==> r in records && r.origin == o
    requires Reaches(sorted, o, from, to)
    ensures Reaches(records, o, from, to) && (NothingAbove(records, o, to) <==> NothingAbove(sorted, o, to))
  {
    forall s ensures Offers(records, o, s) <==> Offers(sorted, o, s) {
      if Offers(records, o, s) {
        var x :| x in records && x.origin == o && x.sequence == s;
        assert x in sorted;
      }
      if Offers(sorted, o, s) {
        var x :| x in sorted && x.origin == o && x.sequence == s;
        assert x in records;
      }
    }
  }

  /** The origin's cursor stands where the records reach, and its part of the inbox goes at least as far. */
  ghost predicate Arrived(f: Feed, after: Feed, records: seq<Record>, o: string) {
    && Reaches(records, o, Mark(f, o), Mark(after, o))
    && Pushed(after, o) == Larger(Pushed(f, o), Mark(after, o))
  }

  ghost predicate Untouched(f: Feed, after: Feed, o: string) {
    Mark(after, o) == Mark(f, o) && OfOrigin(after.inbox, o) == OfOrigin(f.inbox, o)
  }

  /** Every record of the origin can be taken: there is no gap. */
  ghost predicate Gapless(f: Feed, records: seq<Record>, o: string) {
    exists to :: Reaches(records, o, Mark(f, o), to) && NothingAbove(records, o, to)
  }

  /** How far an origin may have come when the whole throws: its records may be in the inbox although
      its cursor has not moved. */
  ghost predicate PartWay(f: Feed, after: Feed, records: seq<Record>, o: string) {
    exists to :: && Reaches(records, o, Mark(f, o), to)
                 && (Mark(after, o) == Mark(f, o) || Mark(after, o) == to)
                 && (Pushed(after, o) == Pushed(f, o) || Pushed(after, o) == Larger(Pushed(f, o), to))
  }

  ghost predicate AllGapless(f: Feed, records: seq<Record>, origins: seq<string>) {
    forall o :: o in origins ==> Gapless(f, records, o)
  }

  ghost predicate ArrivedIn(f: Feed, after: Feed, records: seq<Record>, origins: seq<string>) {
    forall o :: if o in origins then Arrived(f, after, records, o) else Untouched(f, after, o)
  }

  lemma ReachExists(records: seq<Record>, o: string, from: int, top: int) returns (to: int)
    requires from <= top && forall s :: s > top ==> !Offers(records, o, s)
    ensures Reaches(records, o, from, to)
  {
    to := from;
    while Offers(records, o, to + 1)
      invariant from <= to <= top && forall s :: from < s <= to ==> Offers(records, o, s)
      decreases top - to
    {
      to := to + 1;
    }
  }

  function Highest(records: seq<Record>): (top: int)
    ensures top >= 0 && forall r :: r in records ==> r.sequence <= top
  {
    if records == [] then 0
    else
      var rest := Highest(records[1..]);
      assert forall r :: r in records ==> r == records[0] || r in records[1..];
      Larger(rest, records[0].sequence)
  }

  lemma UntouchedPartWay(f: Feed, after: Feed, records: seq<Record>, o: string)
    requires Untouched(f, after, o)
    ensures PartWay(f, after, records, o)
  {
    var to := ReachExists(records, o, Mark(f, o), Larger(Mark(f, o), Highest(records)));
  }

  ghost predicate PartWayIn(f: Feed, after: Feed, records: seq<Record>, origins: seq<string>) {
    forall o :: if o in origins then PartWay(f, after, records, o) else Untouched(f, after, o)
  }

  lemma EachRest(f: Feed, first: Feed, after: Feed, records: seq<Record>, origins: seq<string>)
    requires origins != [] && NoRepeat(origins) && forall o :: o != origins[0] ==> Untouched(f, first, o)
    ensures AllGapless(f, records, origins)
       <==> Gapless(f, records, origins[0]) && AllGapless(first, records, origins[1..])
    ensures Arrived(f, first, records, origins[0]) && ArrivedIn(first, after, records, origins[1..])
        ==> ArrivedIn(f, after, records, origins)
    ensures PartWay(f, first, records, origins[0]) && PartWayIn(first, after, records, origins[1..])
        ==> PartWayIn(f, after, records, origins)
  {
    forall o ensures o in origins <==> o == origins[0] || o in origins[1..] {}
    assert origins[0] !in origins[1..];
    forall o | o != origins[0]
      ensures Untouched(f, first, o) && (Gapless(f, records, o) <==> Gapless(first, records, o)) {}
    if Arrived(f, first, records, origins[0]) && ArrivedIn(first, after, records, origins[1..]) {
      forall o ensures if o in origins then Arrived(f, after, records, o) else Untouched(f, after, o) {
        assert o != origins[0] ==> Untouched(f, first, o);
        assert if o in origins[1..] then Arrived(first, after, records, o) else Untouched(first, after, o);
      }
    }
    if PartWay(f, first, records, origins[0]) && PartWayIn(first, after, records, origins[1..]) {
      forall o ensures if o in origins then PartWay(f, after, records, o) else Untouched(f, after, o) {
        assert o != origins[0] ==> Untouched(f, first, o);
        assert if o in origins[1..] then PartWay(first, after, records, o) else Untouched(first, after, o);
      }
    }
  }

  lemma {:induction false} EachExactly(f: Feed, tables: Tables, records: seq<Record>, origins: seq<string>)
    requires ProperTables(tables) && Beginnings(f, tables) && AllListed(tables, records) && NoRepeat(origins)
    ensures var r := AcceptEach(f, records, origins);
            && Beginnings(r.state, tables)
            && (r.ok <==> AllGapless(f, records, origins))
            && (r.ok ==> ArrivedIn(f, r.state, records, origins))
            && PartWayIn(f, r.state, records, origins)
    decreases |origins|
  {
    if origins != [] {
      var first, r := AcceptFrom(f, records, origins[0]), AcceptEach(f, records, origins);
      OriginTelemetry(f, tables, records, origins[0]);
      EachRest(f, first.state, r.state, records, origins);
      if first.ok {
        EachExactly(first.state, tables, records, origins[1..]);
      } else {
        forall o | o != origins[0] ensures PartWay(f, first.state, records, o) {
          UntouchedPartWay(f, first.state, records, o);
        }
      }
    }
  }

  /** A response is accepted exactly when its records are valid and no origin's have a gap. Each cursor
      then stands where the records reach and each origin's part of the inbox goes at least as far.
      Also when it throws, each origin's part of the inbox stays the beginning of its table. */
  lemma TelemetryExactly(f: Feed, fleet: string, tables: Tables, records: seq<Record>)
    requires ProperTables(tables) && Beginnings(f, tables) && AllListed(tables, records)
    ensures var r := AcceptTelemetry(f, fleet, records);
            && Beginnings(r.state, tables)
            && (r.ok <==> (forall x :: x in records ==> ValidRecord(fleet, x)) && (forall o :: Gapless(f, records, o)))
            && (r.ok ==> forall o :: Arrived(f, r.state, records, o))
            && (forall o :: PartWay(f, r.state, records, o))
  {
    var origins, r := EventOrigins(records), AcceptTelemetry(f, fleet, records);
    EventOriginsAre(records);
    EachExactly(f, tables, records, origins);
    forall o | o !in origins ensures !exists s :: Offers(records, o, s) {}
    forall o | o !in origins ensures Gapless(f, records, o) {
      assert Reaches(records, o, Mark(f, o), Mark(f, o));
    }
    forall o ensures PartWay(f, r.state, records, o) {
      if Untouched(f, r.state, o) { UntouchedPartWay(f, r.state, records, o); }
    }
  }

  // ---- a response that threw part way, and the next one ----

  ghost predicate SamePerOrigin(a: Feed, b: Feed) {
    forall o :: Mark(a, o) == Mark(b, o) && OfOrigin(a.inbox, o) == OfOrigin(b.inbox, o)
  }

  lemma ReachFromPartWay(f: Feed, after: Feed, first: seq<Record>, again: seq<Record>, o: string, to: int)
    requires PartWay(f, after, first, o) && forall r :: r in first ==> r in again
    ensures Reaches(again, o, Mark(f, o), to) <==> Reaches(again, o, Mark(after, o), to) && to >= Mark(after, o)
    ensures Reaches(again, o, Mark(f, o), to) ==> Larger(Pushed(after, o), to) == Larger(Pushed(f, o), to)
  {
    var x :| && Reaches(first, o, Mark(f, o), x)
             && (Mark(after, o) == Mark(f, o) || Mark(after, o) == x)
             && (Pushed(after, o) == Pushed(f, o) || Pushed(after, o) == Larger(Pushed(f, o), x));
    forall s | Mark(f, o) < s <= x ensures Offers(again, o, s) { assert Offers(first, o, s); }
    if Reaches(again, o, Mark(f, o), to) { assert to >= x; }
  }

  lemma RetryGapless(f: Feed, after: Feed, first: seq<Record>, again: seq<Record>, o: string)
    requires PartWay(f, after, first, o) && forall r :: r in first ==> r in again
    ensures Gapless(f, again, o) <==> Gapless(after, again, o)
  {
    if Gapless(f, again, o) {
      var to :| Reaches(again, o, Mark(f, o), to) && NothingAbove(again, o, to);
      ReachFromPartWay(f, after, first, again, o, to);
      assert Reaches(again, o, Mark(after, o), to);
    }
    if Gapless(after, again, o) {
      var to :| Reaches(again, o, Mark(after, o), to) && NothingAbove(again, o, to);
      ReachFromPartWay(f, after, first, again, o, to);
      assert Reaches(again, o, Mark(f, o), to);
    }
  }

  lemma RetrySame(f: Feed, after: Feed, tables: Tables, first: seq<Record>, again: seq<Record>, o: string,
                  retried: Feed, clean: Feed)
    requires PartWay(f, after, first, o) && forall r :: r in first ==> r in again
    requires Beginnings(retried, tables) && Beginnings(clean, tables)
    requires Arrived(after, retried, again, o) && Arrived(f, clean, again, o)
    ensures Mark(retried, o) == Mark(clean, o) && OfOrigin(retried.inbox, o) == OfOrigin(clean.inbox, o)
  {
    ReachFromPartWay(f, after, first, again, o, Mark(clean, o));
    ReachUnique(again, o, Mark(after, o), Mark(retried, o), Mark(clean, o));
    SamePart(retried, clean, tables, o);
  }

  /** Telemetry that threw part way and is retried, with at least the same records, ends as if it had
      been accepted cleanly: it succeeds in the same cases, and leaves the same cursors and the same
      records of each origin in the same order. */
  lemma RetryTelemetry(f: Feed, fleet: string, tables: Tables, first: seq<Record>, again: seq<Record>)
    requires ProperTables(tables) && Beginnings(f, tables)
    requires AllListed(tables, first) && AllListed(tables, again) && forall r :: r in first ==> r in again
    ensures var retried := AcceptTelemetry(AcceptTelemetry(f, fleet, first).state, fleet, again);
            var clean := AcceptTelemetry(f, fleet, again);
            && (retried.ok <==> clean.ok)
            && (clean.ok ==> SamePerOrigin(retried.state, clean.state))
  {
    var after := AcceptTelemetry(f, fleet, first).state;
    TelemetryExactly(f, fleet, tables, first);
    TelemetryExactly(after, fleet, tables, again);
    TelemetryExactly(f, fleet, tables, again);
    forall o ensures Gapless(f, again, o) <==> Gapless(after, again, o) { RetryGapless(f, after, first, again, o); }
    var retried, clean := AcceptTelemetry(after, fleet, again), AcceptTelemetry(f, fleet, again);
    if clean.ok {
      forall o ensures Mark(retried.state, o) == Mark(clean.state, o)
                    && OfOrigin(retried.state.inbox, o) == OfOrigin(clean.state.inbox, o) {
        RetrySame(f, after, tables, first, again, o, retried.state, clean.state);
      }
    }
  }

  lemma SamePart(a: Feed, b: Feed, tables: Tables, o: string)
    requires Beginnings(a, tables) && Beginnings(b, tables) && Pushed(a, o) == Pushed(b, o)
    ensures OfOrigin(a.inbox, o) == OfOrigin(b.inbox, o)
  {}

  /** Exactly when a retry makes up for what was taken part way: against a feed with the same cursors
      and nothing taken above them, it ends the same exactly when it reaches that far. */
  lemma RetryReaches(f: Feed, g: Feed, fleet: string, tables: Tables, again: seq<Record>)
    requires ProperTables(tables) && Beginnings(f, tables) && Beginnings(g, tables) && AllListed(tables, again)
    requires forall o :: Mark(f, o) == Mark(g, o) == Pushed(g, o)
    ensures AcceptTelemetry(f, fleet, again).ok <==> AcceptTelemetry(g, fleet, again).ok
    ensures var retried, clean := AcceptTelemetry(f, fleet, again), AcceptTelemetry(g, fleet, again);
            clean.ok ==> (SamePerOrigin(retried.state, clean.state) <==> forall o :: Pushed(f, o) <= Mark(clean.state,
                                                                                                          o))
  {
    TelemetryExactly(f, fleet, tables, again);
    TelemetryExactly(g, fleet, tables, again);
    forall o ensures Gapless(f, again, o) <==> Gapless(g, again, o) {}
    var retried, clean := AcceptTelemetry(f, fleet, again).state, AcceptTelemetry(g, fleet, again).state;
    if AcceptTelemetry(g, fleet, again).ok {
      forall o ensures Mark(retried, o) == Mark(clean, o)
                    && (OfOrigin(retried.inbox, o) == OfOrigin(clean.inbox, o) <==> Pushed(f, o) <= Mark(clean, o)) {
        assert Mark(f, o) == Mark(g, o) && Arrived(f, retried, again, o) && Arrived(g, clean, again, o);
        ReachUnique(again, o, Mark(f, o), Mark(retried, o), Mark(clean, o));
        if Pushed(f, o) <= Mark(clean, o) { SamePart(retried, clean, tables, o); }
      }
    }
  }

  /** It need not: a first response with a gap leaves its first record behind, and a retry without that record is
      accepted and keeps it, although a clean acceptance has nothing. */
  lemma {:induction false} RetryFallsShort(fleet: string, r: Record, x: Record)
    requires ValidRecord(fleet, r) && ValidRecord(fleet, x) && r.origin == x.origin && r.sequence == 1
    requires x.sequence == 3
    ensures var clean := Feed(map[], []);
            var first := AcceptTelemetry(clean, fleet, [r, x]);
            && first == FeedOutcome(Feed(map[], [r]), false)
            && AcceptTelemetry(first.state, fleet, []) == FeedOutcome(first.state, true)
            && AcceptTelemetry(clean, fleet, []) == FeedOutcome(clean, true)
  {
    var records := [r, x];
    assert records[..1] == [r] && [r][..0] == [];
    OneOrigin(r, x);
    var sorted := SortBySequence(records);
    assert SortBySequence([r]) == [r] by { assert SortBySequence<Sample>([r][..0]) == []; }
    assert sorted == Insert([r], x) == [r, x];
    assert sorted[1..] == [x];
    assert Take([r], 1, [x]) == Taken([r], 1, false);
    var clean := Feed(map[], []);
    assert sorted[0] == r && Add(clean.inbox, r) == [r];
    assert Take(clean.inbox, 0, sorted) == Taken([r], 1, false);
    assert AcceptFrom(clean, records, r.origin) == FeedOutcome(Feed(map[], [r]), false);
    assert forall y :: y in records ==> ValidRecord(fleet, y);
    assert AcceptEach(clean, records, [r.origin]) == FeedOutcome(Feed(map[], [r]), false);
  }

  lemma {:induction false} OneOrigin(r: Record, x: Record)
    requires r.origin == x.origin
    ensures OfOrigin([r, x], r.origin) == [r, x]
    ensures EventOrigins([r, x]) == [r.origin]
  {
    assert [r, x][..1] == [r] && [r][..0] == [];
    assert OfOrigin([r], r.origin) == [r] && EventOrigins([r]) == [r.origin];
  }
}
