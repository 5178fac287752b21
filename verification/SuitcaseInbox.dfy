/** Accepting a response's events: one cursor per origin, and one inbox. */
module SuitcaseInbox {
  import opened Options
  import opened Lists
  import opened SuitcaseEvents

  datatype Inbound = Inbound(cursors: map<string, nat>, inbox: seq<Event>)

  /** The numbers that Home announces as never to be sent to this site, for one origin. */
  datatype Skip = Skip(origin: string, sequences: seq<int>)

  /** The state that an accept leaves behind, and whether it ended without throwing. */
  datatype Outcome = Outcome(state: Inbound, ok: bool)

  function Cursor(m: Inbound, origin: string): nat {
    if origin in m.cursors then m.cursors[origin] else 0
  }

  /** The announced numbers of an origin; of several entries the last counts. */
  function Skipped(skips: seq<Skip>, origin: string): seq<int> {
    if skips == [] then []
    else if skips[|skips| - 1].origin == origin then skips[|skips| - 1].sequences
    else Skipped(skips[..|skips| - 1], origin)
  }

  function Sequences(events: seq<Event>): seq<int> {
    seq(|events|, i requires 0 <= i < |events| => events[i].sequence)
  }

  /** `Math.max(base, ...values)` */
  function Max(base: int, values: seq<int>): (r: int)
    ensures r >= base && forall v :: v in values ==> v <= r
    ensures r == base || r in values
  {
    if values == [] then base
    else
      var rest := Max(base, values[1..]);
      assert forall v :: v in values ==> v == values[0] || v in values[1..];
      if values[0] > rest then values[0] else rest
  }

  /** What one response says about one origin. */
  datatype Batch = Batch(events: map<int, Event>, skipped: seq<int>)

  function BatchOf(events: seq<Event>, skips: seq<Skip>, origin: string): Batch {
    Batch(BySequence(OfOrigin(events, origin)), Skipped(skips, origin))
  }

  /** The last number a response speaks of for an origin, or the cursor. */
  function Top(m: Inbound, events: seq<Event>, skips: seq<Skip>, origin: string): (r: int)
    ensures r >= Cursor(m, origin)
  {
    Max(Cursor(m, origin), Sequences(OfOrigin(events, origin)) + Skipped(skips, origin))
  }

  // ---- what the loops compute ----

  /** Take one verified event into the inbox, unless it is there already. */
  function Receive(m: Inbound, trust: Trust, e: Event): Outcome {
    if !Verified(trust, e) then Outcome(m, false)
    else match WithId(m.inbox, e.id)
      case Some(existing) => Outcome(m, existing.content.digest == e.content.digest)
      case None => Outcome(m.(inbox := m.inbox + [e]), true)
  }

  function AcceptOne(m: Inbound, trust: Trust, origin: string, batch: Batch, sequence: nat): Outcome {
    if sequence in batch.events then
      var r := Receive(m, trust, batch.events[sequence]);
      if r.ok then Outcome(r.state.(cursors := r.state.cursors[origin := sequence]), true) else r
    else if sequence in batch.skipped then Outcome(m.(cursors := m.cursors[origin := sequence]), true)
    else Outcome(m, false)
  }

  function AcceptRange(m: Inbound, trust: Trust, origin: string, batch: Batch, sequence: nat, top: int): Outcome
    decreases top - sequence
  {
    if sequence > top then Outcome(m, true)
    else
      var r := AcceptOne(m, trust, origin, batch, sequence);
      if r.ok then AcceptRange(r.state, trust, origin, batch, sequence + 1, top) else r
  }

  function AcceptOrigin(m: Inbound, trust: Trust, origin: string, events: seq<Event>, skips: seq<Skip>): Outcome {
    AcceptRange(m, trust, origin, BatchOf(events, skips, origin), Cursor(m, origin) + 1, Top(m, events, skips, origin))
  }

  function AcceptOrigins(m: Inbound, trust: Trust, origins: seq<string>, events: seq<Event>, skips: seq<Skip>): Outcome
    decreases |origins|
  {
    if origins == [] then Outcome(m, true)
    else
      var r := AcceptOrigin(m, trust, origins[0], events, skips);
      if r.ok then AcceptOrigins(r.state, trust, origins[1..], events, skips) else r
  }

  /** The origins in the order in which a `Set` lists them: of the events, then of the announcements. */
  function Origins(events: seq<Event>, skips: seq<Skip>): seq<string> {
    if skips == [] then EventOrigins(events)
    else AddOrigin(Origins(events, skips[..|skips| - 1]), skips[|skips| - 1].origin)
  }

  /** `acceptIncomingEvents` */
  function Accept(m: Inbound, trust: Trust, events: seq<Event>, skips: seq<Skip>): Outcome {
    AcceptOrigins(m, trust, Origins(events, skips), events, skips)
  }

  function Targets(e: Event): seq<string> {
    if e.content.operation == DATA_SYNC then (if e.content.site.Some? then [e.content.site.value] else [])
    else e.content.sites
  }

  /** `acceptAdministrativeControlEvents` */
  function AcceptControls(m: Inbound, trust: Trust, site: string, controls: seq<Event>): Outcome
    decreases |controls|
  {
    if controls == [] then Outcome(m, true)
    else if !IsControl(controls[0]) || site !in Targets(controls[0]) then Outcome(m, false)
    else
      var r := Receive(m, trust, controls[0]);
      if r.ok then AcceptControls(r.state, trust, site, controls[1..]) else r
  }

  // ---- origins ----

  lemma {:induction false} OriginsAre(events: seq<Event>, skips: seq<Skip>)
    ensures NoRepeat(Origins(events, skips))
    ensures forall o :: (exists e :: e in events && e.origin == o) ==> o in Origins(events, skips)
    ensures forall o :: o !in Origins(events, skips) ==> Skipped(skips, o) == []
  {
    if skips == [] { EventOriginsAre(events); } else { OriginsAre(events, skips[..|skips| - 1]); }
  }

  /** An origin that is not listed has nothing to accept. */
  lemma NothingFor(m: Inbound, events: seq<Event>, skips: seq<Skip>, origin: string)
    requires origin !in Origins(events, skips)
    ensures Top(m, events, skips, origin) == Cursor(m, origin)
  {
    OriginsAre(events, skips);
    NoEventsFor(events, origin);
  }

  // ---- the invariant of the inbox ----

  /** No two inbox events share an id, and each was verified when it came in. */
  ghost predicate Sound(m: Inbound) {
    UniqueIds(m.inbox) && forall e :: e in m.inbox ==> Authentic(e)
  }

  /** Every number up to an origin's cursor is in the inbox or was announced as skipped, and nothing
      but control requests lies above it. */
  ghost predicate Covered(m: Inbound, announced: set<(string, int)>) {
    && (forall o: string, s: int :: 1 <= s <= Cursor(m, o) ==>
          (o, s) in announced || exists e :: e in m.inbox && e.origin == o && e.sequence == s)
    && (forall e :: e in m.inbox ==> IsControl(e) || 1 <= e.sequence <= Cursor(m, e.origin))
  }

  /** Later in time: no cursor has decreased and the inbox was only appended to. */
  ghost predicate Follows(before: Inbound, after: Inbound) {
    && (forall o :: Cursor(before, o) <= Cursor(after, o))
    && before.inbox <= after.inbox
  }

  /** The numbers announced as skipped by a response. */
  ghost function Announced(skips: seq<Skip>): set<(string, int)> {
    set i: nat, j: nat | i < |skips| && j < |skips[i].sequences| :: (skips[i].origin, skips[i].sequences[j])
  }

  lemma {:induction false} SkippedAnnounced(skips: seq<Skip>, origin: string, s: int)
    requires s in Skipped(skips, origin)
    ensures (origin, s) in Announced(skips)
  {
    var last := |skips| - 1;
    if skips[last].origin == origin {
      var j :| 0 <= j < |skips[last].sequences| && skips[last].sequences[j] == s;
      assert (skips[last].origin, skips[last].sequences[j]) == (origin, s);
    } else {
      SkippedAnnounced(skips[..last], origin, s);
    }
  }

  lemma ReceiveKeeps(m: Inbound, trust: Trust, e: Event)
    requires Sound(m)
    ensures var r := Receive(m, trust, e);
            && Sound(r.state) && r.state.cursors == m.cursors && m.inbox <= r.state.inbox
            && (forall x :: x in r.state.inbox ==> x in m.inbox || x == e)
            && (r.ok ==> e in r.state.inbox && Verified(trust, e))
  {
    var found := WithId(m.inbox, e.id);
    if Verified(trust, e) && found.Some? && found.value.content.digest == e.content.digest {
      SameDigest(found.value, e);
    }
  }

  /** A batch holds its origin's events under their own numbers, all of them from this origin. */
  ghost predicate Filed(batch: Batch, origin: string) {
    forall s :: s in batch.events ==> batch.events[s].origin == origin && batch.events[s].sequence == s
  }

  lemma BatchFiled(events: seq<Event>, skips: seq<Skip>, origin: string)
    ensures Filed(BatchOf(events, skips, origin), origin)
    ensures forall s :: s in BatchOf(events, skips, origin).events ==>
            BatchOf(events, skips, origin).events[s] in events
  {
    OfOriginMembers(events, origin);
    BySequenceMembers(OfOrigin(events, origin));
  }

  lemma AcceptOneKeeps(m: Inbound, trust: Trust, origin: string, batch: Batch, sequence: nat,
                       announced: set<(string, int)>)
    requires Sound(m) && Covered(m, announced) && Filed(batch, origin) && sequence == Cursor(m, origin) + 1
    requires forall s :: s in batch.skipped ==> (origin, s) in announced
    ensures var r := AcceptOne(m, trust, origin, batch, sequence);
            && Sound(r.state) && Covered(r.state, announced) && Follows(m, r.state)
            && Cursor(r.state, origin) == (if r.ok then sequence else sequence - 1)
  {
    var r := AcceptOne(m, trust, origin, batch, sequence).state;
    if sequence in batch.events { ReceiveKeeps(m, trust, batch.events[sequence]); }
    forall o: string, s: int | 1 <= s <= Cursor(r, o)
      ensures (o, s) in announced || exists e :: e in r.inbox && e.origin == o && e.sequence == s
    {
      if s <= Cursor(m, o) {
        if (o, s) !in announced {
          var e :| e in m.inbox && e.origin == o && e.sequence == s;
          assert e in r.inbox;
        }
      }
    }
  }

  lemma {:induction false} AcceptRangeKeeps(m: Inbound, trust: Trust, origin: string, batch: Batch, sequence: nat,
                                            top: int,
                                            announced: set<(string, int)>)
    requires Sound(m) && Covered(m, announced) && Filed(batch, origin) && sequence == Cursor(m, origin) + 1
    requires forall s :: s in batch.skipped ==> (origin, s) in announced
    ensures var r := AcceptRange(m, trust, origin, batch, sequence, top).state;
            Sound(r) && Covered(r, announced) && Follows(m, r)
    decreases top - sequence
  {
    if sequence <= top {
      AcceptOneKeeps(m, trust, origin, batch, sequence, announced);
      var r := AcceptOne(m, trust, origin, batch, sequence);
      if r.ok { AcceptRangeKeeps(r.state, trust, origin, batch, sequence + 1, top, announced); }
    }
  }

  lemma {:induction false} AcceptOriginsKeeps(m: Inbound, trust: Trust, origins: seq<string>, events: seq<Event>,
                                              skips: seq<Skip>, announced: set<(string, int)>)
    requires Sound(m) && Covered(m, announced) && Announced(skips) <= announced
    ensures var r := AcceptOrigins(m, trust, origins, events, skips).state;
            Sound(r) && Covered(r, announced) && Follows(m, r)
    decreases |origins|
  {
    if origins != [] {
      var origin := origins[0];
      BatchFiled(events, skips, origin);
      forall s | s in Skipped(skips, origin) ensures (origin, s) in announced { SkippedAnnounced(skips, origin, s); }
      AcceptRangeKeeps(m, trust, origin, BatchOf(events, skips, origin), Cursor(m, origin) + 1,
                       Top(m, events, skips, origin), announced);
      var r := AcceptOrigin(m, trust, origin, events, skips);
      if r.ok { AcceptOriginsKeeps(r.state, trust, origins[1..], events, skips, announced); }
    }
  }

  /** Whether or not it throws part way, accepting a response keeps the inbox sound and covered and
      moves no cursor back. */
  lemma AcceptKeeps(m: Inbound, trust: Trust, events: seq<Event>, skips: seq<Skip>, announced: set<(string, int)>)
    requires Sound(m) && Covered(m, announced)
    ensures var r := Accept(m, trust, events, skips).state;
            Sound(r) && Covered(r, announced + Announced(skips)) && Follows(m, r)
  {
    AcceptOriginsKeeps(m, trust, Origins(events, skips), events, skips, announced + Announced(skips));
  }

  /** The same for control requests, which move no cursor. */
  lemma {:induction false} AcceptControlsKeeps(m: Inbound, trust: Trust, site: string, controls: seq<Event>,
                                               announced: set<(string, int)>)
    requires Sound(m) && Covered(m, announced)
    ensures var r := AcceptControls(m, trust, site, controls).state;
            Sound(r) && Covered(r, announced) && Follows(m, r) && r.cursors == m.cursors
    decreases |controls|
  {
    if controls != [] && IsControl(controls[0]) && site in Targets(controls[0]) {
      ReceiveKeeps(m, trust, controls[0]);
      var r := Receive(m, trust, controls[0]);
      StillCovered(m, r.state, announced);
      if r.ok { AcceptControlsKeeps(r.state, trust, site, controls[1..], announced); }
    }
  }

  lemma StillCovered(m: Inbound, r: Inbound, announced: set<(string, int)>)
    requires Covered(m, announced) && r.cursors == m.cursors && m.inbox <= r.inbox
    requires forall x :: x in r.inbox ==> x in m.inbox || IsControl(x)
    ensures Covered(r, announced) && Follows(m, r)
  {
    forall o: string, s: int | 1 <= s <= Cursor(r, o)
      ensures (o, s) in announced || exists e :: e in r.inbox && e.origin == o && e.sequence == s
    {
      if (o, s) !in announced {
        var e :| e in m.inbox && e.origin == o && e.sequence == s;
        assert e in r.inbox;
      }
    }
  }
}
