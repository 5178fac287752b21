/** When a response is accepted, what it then adds, and why replays and splits do not matter. */
module SuitcaseReplay {
  import opened Options
  import opened Lists
  import opened SuitcaseEvents
  import opened SuitcaseInbox

  /** No two events share an id without sharing the signature. */
  ghost predicate Compatible(events: set<Event>) {
    forall a, b :: a in events && b in events && a.id == b.id ==> a.content.digest == b.content.digest
  }

  function Contents(m: Inbound): set<Event> {
    set e | e in m.inbox
  }

  predicate Good(trust: Trust, batch: Batch, s: int) {
    if s in batch.events then Verified(trust, batch.events[s]) else s in batch.skipped
  }

  ghost predicate Expected(trust: Trust, batch: Batch, from: int, to: int) {
    forall s :: from <= s <= to ==> Good(trust, batch, s)
  }

  function Chosen(batch: Batch, from: int, to: int): set<Event> {
    set s | s in batch.events && from <= s <= to :: batch.events[s]
  }

  lemma ChosenStep(batch: Batch, from: int, to: int)
    requires from <= to
    ensures Chosen(batch, from, to)
         == (if from in batch.events then {batch.events[from]} else {}) + Chosen(batch, from + 1, to)
  {
    var rest := (if from in batch.events then {batch.events[from]} else {}) + Chosen(batch, from + 1, to);
    forall e | e in Chosen(batch, from, to) ensures e in rest {
      var s :| s in batch.events && from <= s <= to && batch.events[s] == e;
    }
  }

  /** A verified event comes in exactly when it conflicts with nothing, and is in the inbox then. */
  lemma ReceiveExactly(m: Inbound, trust: Trust, e: Event)
    requires Sound(m) && Verified(trust, e)
    ensures var r := Receive(m, trust, e);
            && (r.ok <==> Compatible(Contents(m) + {e}))
            && (r.ok ==> Contents(r.state) == Contents(m) + {e} && Sound(r.state))
            && (r.ok ==> r.state.inbox == if e in m.inbox then m.inbox else m.inbox + [e])
  {
    ReceiveKeeps(m, trust, e);
    var r, found := Receive(m, trust, e), WithId(m.inbox, e.id);
    match found
    case None =>
    case Some(x) =>
      assert x in Contents(m);
      if r.ok {
        SameDigest(x, e);
      }
    if r.ok {
      forall a, b | a in Contents(m) + {e} && b in Contents(m) + {e} && a.id == b.id
        ensures a.content.digest == b.content.digest {
        if a != e && b != e { UniqueEvent(m.inbox, a, b); }
        else if found.Some? {
          assert a in m.inbox && b in m.inbox;
          UniqueEvent(m.inbox, a, b);
        }
      }
    }
  }

  /** One origin's loop ends without throwing exactly when every number is there and nothing conflicts. */
  lemma {:induction false} RangeExactly(m: Inbound, trust: Trust, origin: string, batch: Batch, sequence: nat, top: int)
    requires Sound(m)
    ensures var r := AcceptRange(m, trust, origin, batch, sequence, top);
            && (r.ok <==>
                  Expected(trust, batch, sequence, top) && Compatible(Contents(m) + Chosen(batch, sequence, top)))
            && (r.ok ==> Sound(r.state) && Contents(r.state) == Contents(m) + Chosen(batch, sequence, top))
            && (r.ok ==> r.state.cursors == if sequence <= top then m.cursors[origin := top] else m.cursors)
    decreases top - sequence
  {
    if sequence > top {
      assert Chosen(batch, sequence, top) == {};
      assert Contents(m) + {} == Contents(m);
      forall a, b | a in Contents(m) && b in Contents(m) && a.id == b.id ensures a == b { UniqueEvent(m.inbox, a, b); }
    } else if Good(trust, batch, sequence) {
      var r := AcceptOne(m, trust, origin, batch, sequence);
      OneExactly(m, trust, origin, batch, sequence, top);
      if r.ok {
        RangeExactly(r.state, trust, origin, batch, sequence + 1, top);
        assert Expected(trust, batch, sequence, top) <==> Expected(trust, batch, sequence + 1, top);
      }
    }
  }

  lemma OneExactly(m: Inbound, trust: Trust, origin: string, batch: Batch, sequence: nat, top: int)
    requires Sound(m) && Good(trust, batch, sequence) && sequence <= top
    ensures var r := AcceptOne(m, trust, origin, batch, sequence);
            && (r.ok ==> Sound(r.state) && r.state.cursors == m.cursors[origin := sequence])
            && (r.ok ==> Contents(r.state) + Chosen(batch, sequence + 1, top) == Contents(m) + Chosen(batch, sequence,
                                                                                                      top))
            && (!r.ok ==> !Compatible(Contents(m) + Chosen(batch, sequence, top)))
  {
    ChosenStep(batch, sequence, top);
    if sequence in batch.events {
      var e, rest := batch.events[sequence], Chosen(batch, sequence + 1, top);
      ReceiveExactly(m, trust, e);
      assert Contents(m) + Chosen(batch, sequence, top) == (Contents(m) + {e}) + rest;
      assert forall s: set<Event> :: Compatible((Contents(m) + {e}) + s) ==> Compatible(Contents(m) + {e});
    }
  }

  /** `e` is the event that a response gives for its origin and number, above the cursor. */
  predicate IsChosen(m: Inbound, events: seq<Event>, e: Event) {
    && e.sequence > Cursor(m, e.origin)
    && e.sequence in BySequence(OfOrigin(events, e.origin))
    && BySequence(OfOrigin(events, e.origin))[e.sequence] == e
  }

  function ChosenOf(m: Inbound, events: seq<Event>, origins: seq<string>): set<Event> {
    set e | e in events && e.origin in origins && IsChosen(m, events, e)
  }

  lemma MaxAtLeast(m: Inbound, events: seq<Event>, skips: seq<Skip>, e: Event)
    requires e in events
    ensures e.sequence <= Top(m, events, skips, e.origin)
  {
    OfOriginMembers(events, e.origin);
    var own := OfOrigin(events, e.origin);
    var i :| 0 <= i < |own| && own[i] == e;
    var values := Sequences(own) + Skipped(skips, e.origin);
    assert values[i] == e.sequence && values[i] in values;
  }

  lemma ChosenIs(m: Inbound, events: seq<Event>, skips: seq<Skip>, origin: string)
    ensures Chosen(BatchOf(events, skips, origin), Cursor(m, origin) + 1, Top(m, events, skips, origin))
         == ChosenOf(m, events, [origin])
  {
    var batch, from, top := BatchOf(events, skips, origin), Cursor(m, origin) + 1, Top(m, events, skips, origin);
    BatchFiled(events, skips, origin);
    forall e | e in ChosenOf(m, events, [origin]) ensures e in Chosen(batch, from, top) {
      MaxAtLeast(m, events, skips, e);
      assert batch.events[e.sequence] == e;
    }
    forall e | e in Chosen(batch, from, top) ensures e in ChosenOf(m, events, [origin]) {
      var s :| s in batch.events && from <= s <= top && batch.events[s] == e;
      assert s == e.sequence;
    }
  }

  ghost predicate ExpectedOf(m: Inbound, trust: Trust, events: seq<Event>, skips: seq<Skip>, o: string) {
    Expected(trust, BatchOf(events, skips, o), Cursor(m, o) + 1, Top(m, events, skips, o))
  }

  lemma OriginExactly(m: Inbound, trust: Trust, o: string, events: seq<Event>, skips: seq<Skip>)
    requires Sound(m)
    ensures var r := AcceptOrigin(m, trust, o, events, skips);
            && (r.ok <==> ExpectedOf(m, trust, events, skips, o) && Compatible(Contents(m) + ChosenOf(m, events, [o])))
            && (r.ok ==> Sound(r.state) && Contents(r.state) == Contents(m) + ChosenOf(m, events, [o]))
            && (r.ok ==> Cursor(r.state, o) == Top(m, events, skips, o))
            && (r.ok ==> forall x :: x != o ==> Cursor(r.state, x) == Cursor(m, x))
  {
    RangeExactly(m, trust, o, BatchOf(events, skips, o), Cursor(m, o) + 1, Top(m, events, skips, o));
    ChosenIs(m, events, skips, o);
  }

  ghost predicate AllExpected(m: Inbound, trust: Trust, events: seq<Event>, skips: seq<Skip>, origins: seq<string>) {
    forall o :: o in origins ==> ExpectedOf(m, trust, events, skips, o)
  }

  ghost predicate CursorsAt(m: Inbound, r: Inbound, events: seq<Event>, skips: seq<Skip>, origins: seq<string>) {
    forall o :: Cursor(r, o) == if o in origins then Top(m, events, skips, o) else Cursor(m, o)
  }

  lemma SplitChosen(m: Inbound, r: Inbound, events: seq<Event>, origins: seq<string>)
    requires origins != [] && NoRepeat(origins)
    requires forall x :: x != origins[0] ==> Cursor(r, x) == Cursor(m, x)
    ensures ChosenOf(m, events, origins) == ChosenOf(m, events, [origins[0]]) + ChosenOf(r, events, origins[1..])
  {
    forall o ensures o in origins <==> o == origins[0] || o in origins[1..] {}
    forall o | o in origins[1..] ensures o != origins[0] {}
    forall e ensures e in ChosenOf(m, events, origins)
                     <==> e in ChosenOf(m, events, [origins[0]]) || e in ChosenOf(r, events, origins[1..]) {}
  }

  lemma CompatiblePart(a: set<Event>, b: set<Event>)
    requires Compatible(b) && a <= b
    ensures Compatible(a)
  {}

  lemma {:induction false} OriginsExactly(m: Inbound, trust: Trust, origins: seq<string>, events: seq<Event>,
                                          skips: seq<Skip>)
    requires Sound(m) && NoRepeat(origins)
    ensures var r := AcceptOrigins(m, trust, origins, events, skips);
            && (r.ok <==>
                  && AllExpected(m, trust, events, skips, origins)
                  && Compatible(Contents(m) + ChosenOf(m, events, origins)))
            && (r.ok ==> Sound(r.state) && Contents(r.state) == Contents(m) + ChosenOf(m, events, origins))
            && (r.ok ==> CursorsAt(m, r.state, events, skips, origins))
    decreases |origins|
  {
    if origins == [] {
      assert ChosenOf(m, events, []) == {};
      assert Contents(m) + {} == Contents(m);
      forall a, b | a in Contents(m) && b in Contents(m) && a.id == b.id ensures a == b { UniqueEvent(m.inbox, a, b); }
    } else {
      var o, rest := origins[0], origins[1..];
      OriginExactly(m, trust, o, events, skips);
      var first := AcceptOrigin(m, trust, o, events, skips);
      if first.ok {
        SplitChosen(m, first.state, events, origins);
        assert Contents(m) + ChosenOf(m, events, origins) == Contents(first.state) + ChosenOf(first.state, events,
                                                                                              rest);
        OriginsExactly(first.state, trust, rest, events, skips);
        RestOfOrigins(m, first.state, trust, events, skips, origins);
      } else if Compatible(Contents(m) + ChosenOf(m, events, origins)) {
        CompatiblePart(Contents(m) + ChosenOf(m, events, [o]), Contents(m) + ChosenOf(m, events, origins));
      }
    }
  }

  lemma RestOfOrigins(m: Inbound, r: Inbound, trust: Trust, events: seq<Event>, skips: seq<Skip>, origins: seq<string>)
    requires origins != [] && NoRepeat(origins)
    requires forall x :: x != origins[0] ==> Cursor(r, x) == Cursor(m, x)
    requires Cursor(r, origins[0]) == Top(m, events, skips, origins[0])
    ensures AllExpected(m, trust, events, skips, origins)
       <==> ExpectedOf(m, trust, events, skips, origins[0]) && AllExpected(r, trust, events, skips, origins[1..])
    ensures forall q :: CursorsAt(r, q, events, skips, origins[1..]) ==> CursorsAt(m, q, events, skips, origins)
  {
    forall x ensures x in origins <==> x == origins[0] || x in origins[1..] {}
    forall x | x in origins[1..]
      ensures x != origins[0] && (ExpectedOf(r, trust, events, skips, x) <==> ExpectedOf(m, trust, events, skips, x))
    {}
  }

  function AllChosen(m: Inbound, events: seq<Event>): set<Event> {
    set e | e in events && IsChosen(m, events, e)
  }

  /** A response is accepted exactly when, for every origin, each number from the cursor on is there,
      properly signed, or announced as skipped, and no two events conflict. The inbox then holds those
      events in addition, and every cursor stands at the last number. */
  lemma AcceptExactly(m: Inbound, trust: Trust, events: seq<Event>, skips: seq<Skip>)
    requires Sound(m)
    ensures var r := Accept(m, trust, events, skips);
            && (r.ok <==>
                  && (forall o :: ExpectedOf(m, trust, events, skips, o))
                  && Compatible(Contents(m) + AllChosen(m, events)))
            && (r.ok ==> Sound(r.state) && Contents(r.state) == Contents(m) + AllChosen(m, events))
            && (r.ok ==> forall o :: Cursor(r.state, o) == Top(m, events, skips, o))
  {
    var origins := Origins(events, skips);
    OriginsAre(events, skips);
    OriginsExactly(m, trust, origins, events, skips);
    assert AllChosen(m, events) == ChosenOf(m, events, origins);
    forall o | o !in origins
      ensures Top(m, events, skips, o) == Cursor(m, o) && ExpectedOf(m, trust, events, skips, o)
    {
      NothingFor(m, events, skips, o);
    }
  }

  // ---- accepting the same response again ----

  lemma {:induction false} MaxBetween(low: int, high: int, values: seq<int>)
    requires low <= high <= Max(low, values)
    ensures Max(high, values) == Max(low, values)
  {
    assert Max(high, values) in values || Max(high, values) == high;
    assert Max(low, values) in values || Max(low, values) == low;
  }

  lemma {:induction false} RangeCursor(m: Inbound, trust: Trust, origin: string, batch: Batch, sequence: nat, top: int)
    requires sequence == Cursor(m, origin) + 1 && Cursor(m, origin) <= top
    ensures var r := AcceptRange(m, trust, origin, batch, sequence, top);
            && Cursor(m, origin) <= Cursor(r.state, origin) <= top
            && (forall x :: x != origin ==> Cursor(r.state, x) == Cursor(m, x))
            && (r.ok ==> Cursor(r.state, origin) == top)
    decreases top - sequence
  {
    if sequence <= top {
      var r := AcceptOne(m, trust, origin, batch, sequence);
      if r.ok { RangeCursor(r.state, trust, origin, batch, sequence + 1, top); }
    }
  }

  lemma {:induction false} RangeAgain(m: Inbound, trust: Trust, origin: string, batch: Batch, sequence: nat, top: int)
    requires sequence == Cursor(m, origin) + 1 && Cursor(m, origin) <= top
    ensures var r := AcceptRange(m, trust, origin, batch, sequence, top);
            AcceptRange(r.state, trust, origin, batch, Cursor(r.state, origin) + 1, top) == r
    decreases top - sequence
  {
    if sequence <= top {
      var r := AcceptOne(m, trust, origin, batch, sequence);
      if r.ok { RangeAgain(r.state, trust, origin, batch, sequence + 1, top); }
    }
  }

  lemma OriginAgain(m: Inbound, trust: Trust, o: string, events: seq<Event>, skips: seq<Skip>)
    ensures var r := AcceptOrigin(m, trust, o, events, skips);
            && AcceptOrigin(r.state, trust, o, events, skips) == r
            && Cursor(m, o) <= Cursor(r.state, o) <= Top(m, events, skips, o)
            && (forall x :: x != o ==> Cursor(r.state, x) == Cursor(m, x))
            && (r.ok ==> Cursor(r.state, o) == Top(m, events, skips, o))
  {
    var batch, top := BatchOf(events, skips, o), Top(m, events, skips, o);
    RangeCursor(m, trust, o, batch, Cursor(m, o) + 1, top);
    RangeAgain(m, trust, o, batch, Cursor(m, o) + 1, top);
    MaxBetween(Cursor(m, o), Cursor(AcceptOrigin(m, trust, o, events, skips).state, o),
               Sequences(OfOrigin(events, o)) + Skipped(skips, o));
  }

  lemma OriginDone(m: Inbound, trust: Trust, o: string, events: seq<Event>, skips: seq<Skip>)
    requires Cursor(m, o) == Top(m, events, skips, o)
    ensures AcceptOrigin(m, trust, o, events, skips) == Outcome(m, true)
  {}

  lemma {:induction false} OriginsAgain(m: Inbound, trust: Trust, origins: seq<string>, events: seq<Event>,
                                        skips: seq<Skip>)
    requires NoRepeat(origins)
    ensures var r := AcceptOrigins(m, trust, origins, events, skips);
            && AcceptOrigins(r.state, trust, origins, events, skips) == r
            && (forall o :: o !in origins ==> Cursor(r.state, o) == Cursor(m, o))
    decreases |origins|
  {
    if origins != [] {
      var o, rest := origins[0], origins[1..];
      OriginAgain(m, trust, o, events, skips);
      var first := AcceptOrigin(m, trust, o, events, skips);
      if first.ok {
        OriginsAgain(first.state, trust, rest, events, skips);
        var r := AcceptOrigins(first.state, trust, rest, events, skips);
        assert o !in rest;
        MaxBetween(Cursor(m, o), Cursor(r.state, o), Sequences(OfOrigin(events, o)) + Skipped(skips, o));
        OriginDone(r.state, trust, o, events, skips);
      }
    }
  }

  /** Accepting the same response again changes nothing and ends the same way, also when the first
      time threw part way. */
  lemma AcceptAgain(m: Inbound, trust: Trust, events: seq<Event>, skips: seq<Skip>)
    ensures var r := Accept(m, trust, events, skips); Accept(r.state, trust, events, skips) == r
  {
    OriginsAre(events, skips);
    OriginsAgain(m, trust, Origins(events, skips), events, skips);
  }

  // ---- what each origin gains ----

  /** An origin's part of the inbox after the numbers `from` to `to`. */
  function Gain(own: seq<Event>, batch: Batch, from: int, to: int): seq<Event>
    decreases to - from
  {
    if from > to then own else Gain(GainOne(own, batch, from), batch, from + 1, to)
  }

  function GainOne(own: seq<Event>, batch: Batch, s: int): seq<Event> {
    if s in batch.events && batch.events[s] !in own then own + [batch.events[s]] else own
  }

  lemma OneGains(m: Inbound, trust: Trust, origin: string, batch: Batch, sequence: nat)
    requires Sound(m) && Filed(batch, origin) && AcceptOne(m, trust, origin, batch, sequence).ok
    ensures Sound(AcceptOne(m, trust, origin, batch, sequence).state)
    ensures forall o :: OfOrigin(AcceptOne(m, trust, origin, batch, sequence).state.inbox, o)
                     == if o == origin then GainOne(OfOrigin(m.inbox, o), batch, sequence) else OfOrigin(m.inbox, o)
  {
    if sequence in batch.events {
      var e := batch.events[sequence];
      ReceiveExactly(m, trust, e);
      OfOriginMembers(m.inbox, origin);
      forall o ensures OfOrigin(m.inbox + [e], o)
                    == if e.origin == o then OfOrigin(m.inbox, o) + [e] else OfOrigin(m.inbox, o) {
        OfOriginPush(m.inbox, e, o);
      }
    }
  }

  lemma {:induction false} RangeGains(m: Inbound, trust: Trust, origin: string, batch: Batch, sequence: nat, top: int,
                                      o: string)
    requires Sound(m) && Filed(batch, origin) && AcceptRange(m, trust, origin, batch, sequence, top).ok
    ensures OfOrigin(AcceptRange(m, trust, origin, batch, sequence, top).state.inbox, o)
         == if o == origin then Gain(OfOrigin(m.inbox, o), batch, sequence, top) else OfOrigin(m.inbox, o)
    decreases top - sequence
  {
    if sequence <= top {
      OneGains(m, trust, origin, batch, sequence);
      RangeGains(AcceptOne(m, trust, origin, batch, sequence).state, trust, origin, batch, sequence + 1, top, o);
    }
  }

  /** An origin's part of the inbox when its loop is done. */
  function OwnAfter(m: Inbound, events: seq<Event>, skips: seq<Skip>, o: string): seq<Event> {
    Gain(OfOrigin(m.inbox, o), BatchOf(events, skips, o), Cursor(m, o) + 1, Top(m, events, skips, o))
  }

  ghost predicate OwnOnly(m: Inbound, r: Inbound, events: seq<Event>, skips: seq<Skip>, origins: seq<string>) {
    forall o :: OfOrigin(r.inbox, o) == if o in origins then OwnAfter(m, events, skips, o) else OfOrigin(m.inbox, o)
  }

  lemma OriginGains(m: Inbound, trust: Trust, origin: string, events: seq<Event>, skips: seq<Skip>)
    requires Sound(m) && AcceptOrigin(m, trust, origin, events, skips).ok
    ensures OwnOnly(m, AcceptOrigin(m, trust, origin, events, skips).state, events, skips, [origin])
  {
    BatchFiled(events, skips, origin);
    var from, top, batch := Cursor(m, origin) + 1, Top(m, events, skips, origin), BatchOf(events, skips, origin);
    var r := AcceptOrigin(m, trust, origin, events, skips);
    assert r == AcceptRange(m, trust, origin, batch, from, top);
    RangeGainsAll(m, trust, origin, batch, from, top, r);
  }

  lemma RangeGainsAll(m: Inbound, trust: Trust, origin: string, batch: Batch, sequence: nat, top: int, r: Outcome)
    requires Sound(m) && Filed(batch, origin) && r == AcceptRange(m, trust, origin, batch, sequence, top) && r.ok
    ensures forall o :: OfOrigin(r.state.inbox, o)
                     == if o == origin then Gain(OfOrigin(m.inbox, o), batch, sequence, top) else OfOrigin(m.inbox, o)
  {
    forall o ensures OfOrigin(r.state.inbox, o)
         == if o == origin then Gain(OfOrigin(m.inbox, o), batch, sequence, top) else OfOrigin(m.inbox, o) {
      RangeGains(m, trust, origin, batch, sequence, top, o);
    }
  }

  lemma OwnRest(m: Inbound, first: Inbound, r: Inbound, events: seq<Event>, skips: seq<Skip>, origins: seq<string>)
    requires origins != [] && NoRepeat(origins)
    requires forall x :: x != origins[0] ==> Cursor(first, x) == Cursor(m, x)
    requires OwnOnly(m, first, events, skips, [origins[0]]) && OwnOnly(first, r, events, skips, origins[1..])
    ensures OwnOnly(m, r, events, skips, origins)
  {
    forall o
      ensures OfOrigin(r.inbox, o) == if o in origins then OwnAfter(m, events, skips, o) else OfOrigin(m.inbox, o) {
      OwnRestAt(m, first, r, events, skips, origins, o);
    }
  }

  lemma OwnRestAt(m: Inbound, first: Inbound, r: Inbound, events: seq<Event>, skips: seq<Skip>, origins: seq<string>,
                  o: string)
    requires origins != [] && NoRepeat(origins)
    requires forall x :: x != origins[0] ==> Cursor(first, x) == Cursor(m, x)
    requires OwnOnly(m, first, events, skips, [origins[0]]) && OwnOnly(first, r, events, skips, origins[1..])
    ensures OfOrigin(r.inbox, o) == if o in origins then OwnAfter(m, events, skips, o) else OfOrigin(m.inbox, o)
  {
    assert origins[0] !in origins[1..];
    if o == origins[0] {
      assert OfOrigin(first.inbox, o) == OwnAfter(m, events, skips, o);
    } else {
      assert o in origins <==> o in origins[1..];
      assert OfOrigin(first.inbox, o) == OfOrigin(m.inbox, o) && Cursor(first, o) == Cursor(m, o);
    }
  }

  lemma {:induction false} OriginsGain(m: Inbound, trust: Trust, origins: seq<string>, events: seq<Event>,
                                       skips: seq<Skip>, r: Outcome)
    requires Sound(m) && NoRepeat(origins) && r == AcceptOrigins(m, trust, origins, events, skips) && r.ok
    ensures OwnOnly(m, r.state, events, skips, origins)
    decreases |origins|
  {
    if origins != [] {
      var first := AcceptOrigin(m, trust, origins[0], events, skips);
      OriginExactly(m, trust, origins[0], events, skips);
      OriginGains(m, trust, origins[0], events, skips);
      OriginsGain(first.state, trust, origins[1..], events, skips, r);
      OwnRest(m, first.state, r.state, events, skips, origins);
    }
  }

  /** An accepted response adds to each origin's part of the inbox the events it was missing, in order
      of their numbers. */
  lemma AcceptGains(m: Inbound, trust: Trust, events: seq<Event>, skips: seq<Skip>, o: string)
    requires Sound(m) && Accept(m, trust, events, skips).ok
    ensures OfOrigin(Accept(m, trust, events, skips).state.inbox, o)
         == OwnAfter(m, events, skips, o)
  {
    OriginsAre(events, skips);
    OriginsGain(m, trust, Origins(events, skips), events, skips, Accept(m, trust, events, skips));
    if o !in Origins(events, skips) { NothingFor(m, events, skips, o); }
  }

  // ---- a response cut in two ----

  /** The events up to, or above, a number chosen for each origin. */
  function Part(events: seq<Event>, cut: string -> int, above: bool): seq<Event> {
    if events == [] then []
    else
      var front, last := Part(events[..|events| - 1], cut, above), events[|events| - 1];
      if (last.sequence > cut(last.origin)) == above then front + [last] else front
  }

  function PartNumbers(numbers: seq<int>, cut: int, above: bool): (r: seq<int>)
    ensures forall s :: s in r <==> s in numbers && (s > cut) == above
  {
    if numbers == [] then []
    else
      var rest := PartNumbers(numbers[1..], cut, above);
      assert forall s :: s in numbers <==> s == numbers[0] || s in numbers[1..];
      if (numbers[0] > cut) == above then [numbers[0]] + rest else rest
  }

  function PartSkips(skips: seq<Skip>, cut: string -> int, above: bool): seq<Skip> {
    seq(|skips|, i requires 0 <= i < |skips| =>
      Skip(skips[i].origin, PartNumbers(skips[i].sequences, cut(skips[i].origin), above)))
  }

  lemma {:induction false} PartMembers(events: seq<Event>, cut: string -> int, above: bool)
    ensures forall e :: e in Part(events, cut, above) <==> e in events && (e.sequence > cut(e.origin)) == above
  {
    if events != [] {
      PartMembers(events[..|events| - 1], cut, above);
      assert events == events[..|events| - 1] + [events[|events| - 1]];
    }
  }

  /** `part` holds the entries of `whole` on one side of the cut. */
  ghost predicate Restricts(part: map<int, Event>, whole: map<int, Event>, cut: int, above: bool) {
    && (forall s :: s in part <==> s in whole && (s > cut) == above)
    && (forall s :: s in part ==> part[s] == whole[s])
  }

  lemma RestrictsPush(part: map<int, Event>, whole: map<int, Event>, cut: int, above: bool, e: Event)
    requires Restricts(part, whole, cut, above)
    ensures Restricts(if (e.sequence > cut) == above then part[e.sequence := e] else part, whole[e.sequence := e], cut,
                      above)
  {}

  lemma {:induction false} PartBySequence(events: seq<Event>, cut: string -> int, above: bool, o: string)
    ensures Restricts(BySequence(OfOrigin(Part(events, cut, above), o)), BySequence(OfOrigin(events, o)), cut(o), above)
  {
    if events != [] {
      var front, last := events[..|events| - 1], events[|events| - 1];
      var part := Part(front, cut, above);
      PartBySequence(front, cut, above, o);
      assert events == front + [last];
      FilePush(front, last, o);
      FilePush(part, last, o);
      if last.origin == o {
        RestrictsPush(BySequence(OfOrigin(part, o)), BySequence(OfOrigin(front, o)), cut(o), above, last);
      }
    }
  }

  lemma FilePush(events: seq<Event>, e: Event, o: string)
    ensures BySequence(OfOrigin(events + [e], o))
         == if e.origin == o then BySequence(OfOrigin(events, o))[e.sequence := e] else BySequence(OfOrigin(events, o))
  {
    OfOriginPush(events, e, o);
    BySequencePush(OfOrigin(events, o), e);
  }

  lemma {:induction false} PartSkipped(skips: seq<Skip>, cut: string -> int, above: bool, o: string)
    ensures Skipped(PartSkips(skips, cut, above), o) == PartNumbers(Skipped(skips, o), cut(o), above)
  {
    if skips != [] {
      PartSkipped(skips[..|skips| - 1], cut, above, o);
      var p := PartSkips(skips, cut, above);
      assert p[..|p| - 1] == PartSkips(skips[..|skips| - 1], cut, above);
    }
  }

  /** The numbers a response speaks of for an origin. */
  ghost predicate Speaks(events: seq<Event>, skips: seq<Skip>, o: string, s: int) {
    s in BySequence(OfOrigin(events, o)) || s in Skipped(skips, o)
  }

  /** The top is the greatest number spoken of, or the cursor. */
  lemma TopIs(m: Inbound, events: seq<Event>, skips: seq<Skip>, o: string)
    ensures forall s :: Speaks(events, skips, o, s) ==> s <= Top(m, events, skips, o)
    ensures Top(m, events, skips, o) == Cursor(m, o) || Speaks(events, skips, o, Top(m, events, skips, o))
  {
    var own := OfOrigin(events, o);
    var values := Sequences(own) + Skipped(skips, o);
    BySequenceMembers(own);
    forall s | Speaks(events, skips, o, s) ensures s in values {
      if s in BySequence(own) {
        var i :| 0 <= i < |own| && own[i] == BySequence(own)[s];
        assert values[i] == s;
      }
    }
    forall s | s in values ensures Speaks(events, skips, o, s) {
      var i :| 0 <= i < |values| && values[i] == s;
      if i < |own| { assert own[i] in own; }
    }
  }

  lemma PartSpeaks(events: seq<Event>, skips: seq<Skip>, cut: string -> int, above: bool, o: string)
    ensures forall s :: Speaks(Part(events, cut, above), PartSkips(skips, cut, above), o, s)
                   <==> Speaks(events, skips, o, s) && (s > cut(o)) == above
  {
    PartBySequence(events, cut, above, o);
    PartSkipped(skips, cut, above, o);
  }

  /** The lower part ends at the cursor or at most at the cut; both parts end where the whole does. */
  lemma PartTop(m: Inbound, r: Inbound, events: seq<Event>, skips: seq<Skip>, cut: string -> int, o: string)
    requires Cursor(r, o) == Top(m, Part(events, cut, false), PartSkips(skips, cut, false), o)
    ensures Cursor(r, o) == Cursor(m, o) || Cursor(m, o) < Cursor(r, o) <= cut(o)
    ensures Top(r, Part(events, cut, true), PartSkips(skips, cut, true), o) == Top(m, events, skips, o)
    ensures forall s :: Speaks(events, skips, o, s) && s <= cut(o) ==> s <= Cursor(r, o)
  {
    PartSpeaks(events, skips, cut, false, o);
    PartSpeaks(events, skips, cut, true, o);
    TopIs(m, events, skips, o);
    TopIs(m, Part(events, cut, false), PartSkips(skips, cut, false), o);
    TopIs(r, Part(events, cut, true), PartSkips(skips, cut, true), o);
  }

  lemma PartGood(trust: Trust, events: seq<Event>, skips: seq<Skip>, cut: string -> int, above: bool, o: string, s: int)
    ensures Good(trust, BatchOf(Part(events, cut, above), PartSkips(skips, cut, above), o), s)
       <==> Good(trust, BatchOf(events, skips, o), s) && (s > cut(o)) == above
  {
    PartBySequence(events, cut, above, o);
    PartSkipped(skips, cut, above, o);
  }

  lemma PartsExpected(m: Inbound, r: Inbound, trust: Trust, events: seq<Event>, skips: seq<Skip>, cut: string -> int,
                      o: string)
    requires Cursor(r, o) == Top(m, Part(events, cut, false), PartSkips(skips, cut, false), o)
    requires ExpectedOf(m, trust, events, skips, o)
    ensures ExpectedOf(m, trust, Part(events, cut, false), PartSkips(skips, cut, false), o)
    ensures ExpectedOf(r, trust, Part(events, cut, true), PartSkips(skips, cut, true), o)
  {
    PartTop(m, r, events, skips, cut, o);
    var whole := BatchOf(events, skips, o);
    forall s | Cursor(m, o) + 1 <= s <= Cursor(r, o)
      ensures Good(trust, BatchOf(Part(events, cut, false), PartSkips(skips, cut, false), o), s)
    {
      assert Good(trust, whole, s);
      PartGood(trust, events, skips, cut, false, o, s);
    }
    forall s | Cursor(r, o) + 1 <= s <= Top(m, events, skips, o)
      ensures Good(trust, BatchOf(Part(events, cut, true), PartSkips(skips, cut, true), o), s)
    {
      assert Good(trust, whole, s);
      PartGood(trust, events, skips, cut, true, o, s);
      assert Speaks(events, skips, o, s);
    }
  }

  lemma WholeExpected(m: Inbound, r: Inbound, trust: Trust, events: seq<Event>, skips: seq<Skip>, cut: string -> int,
                      o: string)
    requires Cursor(r, o) == Top(m, Part(events, cut, false), PartSkips(skips, cut, false), o)
    requires ExpectedOf(m, trust, Part(events, cut, false), PartSkips(skips, cut, false), o)
    requires ExpectedOf(r, trust, Part(events, cut, true), PartSkips(skips, cut, true), o)
    ensures ExpectedOf(m, trust, events, skips, o)
  {
    PartTop(m, r, events, skips, cut, o);
    var low, high := BatchOf(Part(events, cut, false), PartSkips(skips, cut, false), o),
                     BatchOf(Part(events, cut, true), PartSkips(skips, cut, true), o);
    forall s | Cursor(m, o) + 1 <= s <= Top(m, events, skips, o) ensures Good(trust, BatchOf(events, skips, o), s) {
      PartGood(trust, events, skips, cut, s > Cursor(r, o), o, s);
      assert if s > Cursor(r, o) then Good(trust, high, s) else Good(trust, low, s);
    }
  }

  lemma PartChosen(m: Inbound, r: Inbound, events: seq<Event>, skips: seq<Skip>, cut: string -> int)
    requires forall o :: Cursor(r, o) == Top(m, Part(events, cut, false), PartSkips(skips, cut, false), o)
    ensures AllChosen(m, events) == AllChosen(m, Part(events, cut, false)) + AllChosen(r, Part(events, cut, true))
  {
    PartMembers(events, cut, false);
    PartMembers(events, cut, true);
    forall e ensures e in AllChosen(m, events)
                <==> e in AllChosen(m, Part(events, cut, false)) || e in AllChosen(r, Part(events, cut, true)) {
      PartTop(m, r, events, skips, cut, e.origin);
      PartBySequence(events, cut, false, e.origin);
      PartBySequence(events, cut, true, e.origin);
    }
  }

  lemma {:induction false} GainParts(own: seq<Event>, batch: Batch, low: Batch, high: Batch, from: int, middle: int,
                                     to: int)
    requires from <= middle + 1 && middle <= to
    requires forall s :: from <= s <= middle ==> SameAt(batch, low, s)
    requires forall s :: middle < s <= to ==> SameAt(batch, high, s)
    ensures Gain(own, batch, from, to) == Gain(Gain(own, low, from, middle), high, middle + 1, to)
    decreases middle + 1 - from
  {
    if from <= middle {
      assert SameAt(batch, low, from);
      GainParts(GainOne(own, batch, from), batch, low, high, from + 1, middle, to);
    } else {
      GainSame(own, batch, high, from, to);
    }
  }

  lemma {:induction false} GainSame(own: seq<Event>, a: Batch, b: Batch, from: int, to: int)
    requires forall s :: from <= s <= to ==> SameAt(a, b, s)
    ensures Gain(own, a, from, to) == Gain(own, b, from, to)
    decreases 1 + to - from
  {
    if from <= to {
      assert SameAt(a, b, from);
      GainSame(GainOne(own, a, from), a, b, from + 1, to);
    }
  }

  ghost predicate SameAt(a: Batch, b: Batch, s: int) {
    (s in a.events <==> s in b.events) && (s in a.events ==> a.events[s] == b.events[s])
  }

  lemma PartSame(m: Inbound, r: Inbound, events: seq<Event>, skips: seq<Skip>, cut: string -> int, o: string)
    requires Cursor(r, o) == Top(m, Part(events, cut, false), PartSkips(skips, cut, false), o)
    ensures forall s :: s > Cursor(r, o) ==>
              SameAt(BatchOf(events, skips, o), BatchOf(Part(events, cut, true), PartSkips(skips, cut, true), o), s)
    ensures forall s :: Cursor(m, o) < s <= Cursor(r, o) ==>
              SameAt(BatchOf(events, skips, o), BatchOf(Part(events, cut, false), PartSkips(skips, cut, false), o), s)
  {
    PartTop(m, r, events, skips, cut, o);
    PartBySequence(events, cut, false, o);
    PartBySequence(events, cut, true, o);
    var whole := BatchOf(events, skips, o);
    forall s | s > Cursor(r, o)
      ensures SameAt(whole, BatchOf(Part(events, cut, true), PartSkips(skips, cut, true), o), s)
    {
      assert s in whole.events ==> Speaks(events, skips, o, s);
    }
  }

  lemma PartGains(m: Inbound, r: Inbound, events: seq<Event>, skips: seq<Skip>, cut: string -> int, o: string)
    requires Cursor(r, o) == Top(m, Part(events, cut, false), PartSkips(skips, cut, false), o)
    requires OfOrigin(r.inbox, o) == OwnAfter(m, Part(events, cut, false), PartSkips(skips, cut, false), o)
    ensures OwnAfter(m, events, skips, o) == OwnAfter(r, Part(events, cut, true), PartSkips(skips, cut, true), o)
  {
    PartTop(m, r, events, skips, cut, o);
    PartSame(m, r, events, skips, cut, o);
    GainParts(OfOrigin(m.inbox, o), BatchOf(events, skips, o),
              BatchOf(Part(events, cut, false), PartSkips(skips, cut, false), o),
              BatchOf(Part(events, cut, true), PartSkips(skips, cut, true), o),
              Cursor(m, o) + 1, Cursor(r, o), Top(m, events, skips, o));
  }

  lemma {:induction false} SplitSucceeds(m: Inbound, trust: Trust, events: seq<Event>, skips: seq<Skip>,
                                         cut: string -> int, r: Inbound)
    requires Sound(m) && Accept(m, trust, Part(events, cut, false), PartSkips(skips, cut, false)) == Outcome(r, true)
    ensures Accept(m, trust, events, skips).ok
       <==> Accept(r, trust, Part(events, cut, true), PartSkips(skips, cut, true)).ok
  {
    var low, lowSkips := Part(events, cut, false), PartSkips(skips, cut, false);
    var high, highSkips := Part(events, cut, true), PartSkips(skips, cut, true);
    AcceptExactly(m, trust, events, skips);
    AcceptExactly(m, trust, low, lowSkips);
    AcceptExactly(r, trust, high, highSkips);
    PartChosen(m, r, events, skips, cut);
    assert Contents(m) + AllChosen(m, events) == Contents(r) + AllChosen(r, high);
    forall o ensures ExpectedOf(m, trust, events, skips, o) <==> ExpectedOf(r, trust, high, highSkips, o) {
      if ExpectedOf(m, trust, events, skips, o) { PartsExpected(m, r, trust, events, skips, cut, o); }
      else if ExpectedOf(r, trust, high, highSkips, o) {
        assert ExpectedOf(m, trust, low, lowSkips, o);
        WholeExpected(m, r, trust, events, skips, cut, o);
      }
    }
  }

  lemma SplitSame(m: Inbound, trust: Trust, events: seq<Event>, skips: seq<Skip>, cut: string -> int, r: Inbound,
                  whole: Inbound, second: Inbound, o: string)
    requires Sound(m) && Accept(m, trust, Part(events, cut, false), PartSkips(skips, cut, false)) == Outcome(r, true)
    requires Accept(m, trust, events, skips) == Outcome(whole, true)
    requires Accept(r, trust, Part(events, cut, true), PartSkips(skips, cut, true)) == Outcome(second, true)
    ensures Cursor(second, o) == Cursor(whole, o) && OfOrigin(second.inbox, o) == OfOrigin(whole.inbox, o)
  {
    var low, lowSkips := Part(events, cut, false), PartSkips(skips, cut, false);
    var high, highSkips := Part(events, cut, true), PartSkips(skips, cut, true);
    AcceptExactly(m, trust, events, skips);
    AcceptExactly(m, trust, low, lowSkips);
    AcceptExactly(r, trust, high, highSkips);
    PartTop(m, r, events, skips, cut, o);
    AcceptGains(m, trust, events, skips, o);
    AcceptGains(m, trust, low, lowSkips, o);
    AcceptGains(r, trust, high, highSkips, o);
    PartGains(m, r, events, skips, cut, o);
  }

  /** Same cursors, and the same events of each origin in the same order. */
  ghost predicate SamePerOrigin(a: Inbound, b: Inbound) {
    forall o :: Cursor(a, o) == Cursor(b, o) && OfOrigin(a.inbox, o) == OfOrigin(b.inbox, o)
  }

  /** However a response is cut, at any number for each origin: its two parts are accepted one after the
      other exactly when the whole is, and then leave the same cursors and the same events of each
      origin in the same order. */
  lemma SplitAccept(m: Inbound, trust: Trust, events: seq<Event>, skips: seq<Skip>, cut: string -> int)
    requires Sound(m)
    ensures var whole := Accept(m, trust, events, skips);
            var first := Accept(m, trust, Part(events, cut, false), PartSkips(skips, cut, false));
            var second := Accept(first.state, trust, Part(events, cut, true), PartSkips(skips, cut, true));
            && (whole.ok <==> first.ok && second.ok)
            && (whole.ok ==> SamePerOrigin(second.state, whole.state))
  {
    var whole := Accept(m, trust, events, skips);
    var first := Accept(m, trust, Part(events, cut, false), PartSkips(skips, cut, false));
    var second := Accept(first.state, trust, Part(events, cut, true), PartSkips(skips, cut, true));
    if first.ok {
      SplitSucceeds(m, trust, events, skips, cut, first.state);
      if whole.ok {
        forall o ensures Cursor(second.state, o) == Cursor(whole.state, o)
                      && OfOrigin(second.state.inbox, o) == OfOrigin(whole.state.inbox, o) {
          SplitSame(m, trust, events, skips, cut, first.state, whole.state, second.state, o);
        }
      }
    } else if whole.ok {
      FirstPart(m, trust, events, skips, cut);
    }
  }

  /** If the whole is accepted then so is its lower part. */
  lemma FirstPart(m: Inbound, trust: Trust, events: seq<Event>, skips: seq<Skip>, cut: string -> int)
    requires Sound(m) && Accept(m, trust, events, skips).ok
    ensures Accept(m, trust, Part(events, cut, false), PartSkips(skips, cut, false)).ok
  {
    var low, lowSkips := Part(events, cut, false), PartSkips(skips, cut, false);
    AcceptExactly(m, trust, events, skips);
    AcceptExactly(m, trust, low, lowSkips);
    forall o ensures ExpectedOf(m, trust, low, lowSkips, o) {
      var r := Inbound(map[o := Top(m, low, lowSkips, o)], []);
      assert Cursor(r, o) == Top(m, low, lowSkips, o);
      PartsExpected(m, r, trust, events, skips, cut, o);
    }
    PartMembers(events, cut, false);
    forall e | e in AllChosen(m, low) ensures e in AllChosen(m, events) {
      PartBySequence(events, cut, false, e.origin);
    }
    CompatiblePart(Contents(m) + AllChosen(m, low), Contents(m) + AllChosen(m, events));
  }
}
