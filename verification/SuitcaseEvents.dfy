/** The numbered, signed events that a suitcase site and its Home exchange. */
module SuitcaseEvents {
  import opened Options
  import opened Lists

  /** A record that a site numbers: an event or a telemetry record. */
  datatype Numbered<T> = Numbered(id: string, fleet: string, origin: string, sequence: int, content: T)

  /** What a signature covers. `site` and `sites` are the targets named by the payload of a
      control request; `data` stands for everything else in the event. */
  datatype Body = Body(id: string, fleet: string, origin: string, sequence: int, operation: string,
                       site: Option<string>, sites: seq<string>, data: string)

  /** A signature determines the key and the body it was made for. */
  datatype Digest = Signed(key: string, body: Body) | Unsigned(text: string)

  /** The fields of an event, the signed text that came with it and the signature. */
  datatype Content = Content(operation: string, site: Option<string>, sites: seq<string>, data: string,
                             body: Body, digest: Digest)

  type Event = Numbered<Content>

  /** `buildFleetEventBody` */
  function BodyOf(e: Event): Body {
    Body(e.id, e.fleet, e.origin, e.sequence, e.content.operation, e.content.site, e.content.sites, e.content.data)
  }

  /** Whose events are accepted: the fleet, and the public key of each known site. */
  datatype Trust = Trust(fleet: string, keys: map<string, string>)

  const DATA_SYNC := "suitcase.data.sync.requested"
  const FLEET_MUTATION := "fleet.mutation.requested"

  predicate IsControl(e: Event) {
    e.content.operation == DATA_SYNC || e.content.operation == FLEET_MUTATION
  }

  /** `verifyIncomingEvent` */
  predicate Verified(trust: Trust, e: Event) {
    && e.origin in trust.keys
    && e.fleet == trust.fleet
    && BodyOf(e) == e.content.body
    && e.content.digest == Signed(trust.keys[e.origin], e.content.body)
  }

  /** Was verified under some key. */
  ghost predicate Authentic(e: Event) {
    BodyOf(e) == e.content.body && e.content.digest.Signed? && e.content.digest.body == e.content.body
  }

  lemma SameDigest(a: Event, b: Event)
    requires Authentic(a) && Authentic(b) && a.content.digest == b.content.digest
    ensures a == b
  {}

  /** The first record with this id. */
  function WithId<T>(events: seq<Numbered<T>>, id: string): (r: Option<Numbered<T>>)
    ensures r.None? <==> forall e :: e in events ==> e.id != id
    ensures r.Some? ==> r.value in events && r.value.id == id
  {
    if events == [] then None
    else if events[0].id == id then Some(events[0])
    else WithId(events[1..], id)
  }

  ghost predicate UniqueIds<T>(events: seq<Numbered<T>>) {
    forall i, j :: 0 <= i < j < |events| ==> events[i].id != events[j].id
  }

  lemma UniqueEvent<T>(events: seq<Numbered<T>>, a: Numbered<T>, b: Numbered<T>)
    requires UniqueIds(events) && a in events && b in events && a.id == b.id
    ensures a == b
  {}

  /** The events of one origin. */
  function OfOrigin<T>(events: seq<Numbered<T>>, origin: string): (r: seq<Numbered<T>>) {
    if events == [] then []
    else
      var front := OfOrigin(events[..|events| - 1], origin);
      var last := events[|events| - 1];
      if last.origin == origin then front + [last] else front
  }

  lemma {:induction false} OfOriginMembers<T>(events: seq<Numbered<T>>, origin: string)
    ensures forall e :: e in OfOrigin(events, origin) <==> e in events && e.origin == origin
  {
    if events != [] {
      OfOriginMembers(events[..|events| - 1], origin);
      assert events == events[..|events| - 1] + [events[|events| - 1]];
    }
  }

  lemma OfOriginPush<T>(events: seq<Numbered<T>>, e: Numbered<T>, origin: string)
    ensures OfOrigin(events + [e], origin)
         == if e.origin == origin then OfOrigin(events, origin) + [e] else OfOrigin(events, origin)
  {
    assert (events + [e])[..|events|] == events;
  }

  // ---- origins ----

  function AddOrigin(origins: seq<string>, origin: string): seq<string> {
    if origin in origins then origins else origins + [origin]
  }

  /** The origins of the records, each once, in order of appearance. */
  function EventOrigins<T>(events: seq<Numbered<T>>): seq<string> {
    if events == [] then [] else AddOrigin(EventOrigins(events[..|events| - 1]), events[|events| - 1].origin)
  }

  lemma {:induction false} EventOriginsAre<T>(events: seq<Numbered<T>>)
    ensures NoRepeat(EventOrigins(events))
    ensures forall o :: o in EventOrigins(events) <==> exists e :: e in events && e.origin == o
  {
    if events != [] {
      var front, last := events[..|events| - 1], events[|events| - 1];
      EventOriginsAre(front);
      assert events == front + [last];
      forall o ensures o in EventOrigins(events) <==> exists e :: e in events && e.origin == o {
        if o in EventOrigins(front) {
          var e :| e in front && e.origin == o;
          assert e in events;
        }
      }
    }
  }

  lemma {:induction false} NoEventsFor<T>(events: seq<Numbered<T>>, origin: string)
    requires !exists e :: e in events && e.origin == origin
    ensures OfOrigin(events, origin) == []
  {
    if events != [] {
      assert events[|events| - 1] in events;
      NoEventsFor(events[..|events| - 1], origin);
    }
  }

  // ---- order by sequence number ----

  /** Insert behind every event with the same or a smaller number, as a stable sort does. */
  function Insert<T>(sorted: seq<Numbered<T>>, e: Numbered<T>): (r: seq<Numbered<T>>) {
    if sorted == [] || sorted[|sorted| - 1].sequence <= e.sequence then sorted + [e]
    else Insert(sorted[..|sorted| - 1], e) + [sorted[|sorted| - 1]]
  }

  function SortBySequence<T>(events: seq<Numbered<T>>): (r: seq<Numbered<T>>) {
    if events == [] then [] else Insert(SortBySequence(events[..|events| - 1]), events[|events| - 1])
  }

  /** The last event of each sequence number. */
  function BySequence<T>(events: seq<Numbered<T>>): map<int, Numbered<T>> {
    if events == [] then map[]
    else BySequence(events[..|events| - 1])[events[|events| - 1].sequence := events[|events| - 1]]
  }

  lemma BySequencePush<T>(events: seq<Numbered<T>>, e: Numbered<T>)
    ensures BySequence(events + [e]) == BySequence(events)[e.sequence := e]
  {
    assert (events + [e])[..|events|] == events;
  }

  lemma {:induction false} BySequenceMembers<T>(events: seq<Numbered<T>>)
    ensures forall s :: s in BySequence(events) ==>
            BySequence(events)[s] in events && BySequence(events)[s].sequence == s
    ensures forall e :: e in events ==> e.sequence in BySequence(events)
  {
    if events != [] {
      BySequenceMembers(events[..|events| - 1]);
      assert events == events[..|events| - 1] + [events[|events| - 1]];
    }
  }

  ghost predicate Nondecreasing<T>(events: seq<Numbered<T>>) {
    forall i, j :: 0 <= i < j < |events| ==> events[i].sequence <= events[j].sequence
  }

  ghost predicate Increasing<T>(events: seq<Numbered<T>>) {
    forall i, j :: 0 <= i < j < |events| ==> events[i].sequence < events[j].sequence
  }

  lemma {:induction false} InsertMembers<T>(sorted: seq<Numbered<T>>, e: Numbered<T>)
    ensures forall x :: x in Insert(sorted, e) <==> x in sorted || x == e
  {
    if !(sorted == [] || sorted[|sorted| - 1].sequence <= e.sequence) {
      InsertMembers(sorted[..|sorted| - 1], e);
      assert sorted == sorted[..|sorted| - 1] + [sorted[|sorted| - 1]];
    }
  }

  lemma {:induction false} InsertBelow<T>(sorted: seq<Numbered<T>>, e: Numbered<T>, bound: int)
    requires e.sequence < bound && forall i :: 0 <= i < |sorted| ==> sorted[i].sequence < bound
    ensures forall i :: 0 <= i < |Insert(sorted, e)| ==> Insert(sorted, e)[i].sequence < bound
  {
    if !(sorted == [] || sorted[|sorted| - 1].sequence <= e.sequence) {
      InsertBelow(sorted[..|sorted| - 1], e, bound);
    }
  }

  lemma {:induction false} InsertKeepsOrder<T>(sorted: seq<Numbered<T>>, e: Numbered<T>)
    requires Nondecreasing(sorted)
    ensures Nondecreasing(Insert(sorted, e))
  {
    if !(sorted == [] || sorted[|sorted| - 1].sequence <= e.sequence) {
      var front, last := sorted[..|sorted| - 1], sorted[|sorted| - 1];
      InsertKeepsOrder(front, e);
      InsertBelow(front, e, last.sequence + 1);
    }
  }

  lemma {:induction false} InsertSorted<T>(sorted: seq<Numbered<T>>, e: Numbered<T>)
    ensures BySequence(Insert(sorted, e)) == BySequence(sorted)[e.sequence := e]
  {
    if sorted == [] || sorted[|sorted| - 1].sequence <= e.sequence {
      BySequencePush(sorted, e);
    } else {
      var front, last := sorted[..|sorted| - 1], sorted[|sorted| - 1];
      InsertSorted(front, e);
      BySequencePush(Insert(front, e), last);
    }
  }

  /** The sort puts the events in order, makes up none, and keeps which of several events with the same
      number comes last. */
  lemma {:induction false} Sorts<T>(events: seq<Numbered<T>>)
    ensures Nondecreasing(SortBySequence(events))
    ensures forall e :: e in SortBySequence(events) <==> e in events
    ensures BySequence(SortBySequence(events)) == BySequence(events)
  {
    if events != [] {
      var front, last := events[..|events| - 1], events[|events| - 1];
      assert events == front + [last];
      Sorts(front);
      InsertSorted(SortBySequence(front), last);
      InsertKeepsOrder(SortBySequence(front), last);
      InsertMembers(SortBySequence(front), last);
    }
  }

  /** The events with one number. */
  function OfNumber<T>(events: seq<Numbered<T>>, n: int): seq<Numbered<T>> {
    if events == [] then []
    else
      var front, last := OfNumber(events[..|events| - 1], n), events[|events| - 1];
      if last.sequence == n then front + [last] else front
  }

  lemma OfNumberPush<T>(events: seq<Numbered<T>>, e: Numbered<T>, n: int)
    ensures OfNumber(events + [e], n) == OfNumber(events, n) + if e.sequence == n then [e] else []
  {
    assert (events + [e])[..|events|] == events;
  }

  lemma {:induction false} InsertIsStable<T>(sorted: seq<Numbered<T>>, e: Numbered<T>, n: int)
    requires Nondecreasing(sorted)
    ensures OfNumber(Insert(sorted, e), n) == OfNumber(sorted, n) + if e.sequence == n then [e] else []
  {
    if sorted == [] || sorted[|sorted| - 1].sequence <= e.sequence {
      OfNumberPush(sorted, e, n);
    } else {
      var front, last := sorted[..|sorted| - 1], sorted[|sorted| - 1];
      assert sorted == front + [last];
      InsertIsStable(front, e, n);
      OfNumberPush(Insert(front, e), last, n);
      if e.sequence == n { NoneOfNumber(sorted, n); }
    }
  }

  lemma {:induction false} InsertCounts<T>(sorted: seq<Numbered<T>>, e: Numbered<T>)
    ensures multiset(Insert(sorted, e)) == multiset(sorted) + multiset{e}
  {
    if !(sorted == [] || sorted[|sorted| - 1].sequence <= e.sequence) {
      InsertCounts(sorted[..|sorted| - 1], e);
      assert sorted == sorted[..|sorted| - 1] + [sorted[|sorted| - 1]];
    }
  }

  /** The last of nondecreasing events is above `n`, so that the events with that number are in front of it. */
  lemma NoneOfNumber<T>(sorted: seq<Numbered<T>>, n: int)
    requires sorted != [] && sorted[|sorted| - 1].sequence > n
    ensures OfNumber(sorted, n) == OfNumber(sorted[..|sorted| - 1], n)
  {}

  /** The sort keeps every event as often as it occurs, and those with one number in their order. */
  lemma {:induction false} SortIsStable<T>(events: seq<Numbered<T>>, n: int)
    ensures OfNumber(SortBySequence(events), n) == OfNumber(events, n)
    ensures multiset(SortBySequence(events)) == multiset(events)
  {
    if events != [] {
      var front, last := events[..|events| - 1], events[|events| - 1];
      assert events == front + [last];
      SortIsStable(front, n);
      Sorts(front);
      InsertIsStable(SortBySequence(front), last, n);
      InsertCounts(SortBySequence(front), last);
      OfNumberPush(front, last, n);
    }
  }

  lemma {:induction false} AlreadySorted<T>(events: seq<Numbered<T>>)
    requires Increasing(events)
    ensures SortBySequence(events) == events
  {
    if events != [] {
      var front, last := events[..|events| - 1], events[|events| - 1];
      assert events == front + [last];
      AlreadySorted(front);
    }
  }

  /** A new number among increasing ones stays unique. */
  lemma {:induction false} InsertIncreasing<T>(sorted: seq<Numbered<T>>, e: Numbered<T>)
    requires Increasing(sorted) && forall x :: x in sorted ==> x.sequence != e.sequence
    ensures Increasing(Insert(sorted, e))
    ensures forall x :: x in Insert(sorted, e) <==> x in sorted || x == e
  {
    if !(sorted == [] || sorted[|sorted| - 1].sequence <= e.sequence) {
      var front, last := sorted[..|sorted| - 1], sorted[|sorted| - 1];
      assert sorted == front + [last];
      InsertIncreasing(front, e);
      InsertBelow(front, e, last.sequence);
    } else {
      forall i | 0 <= i < |sorted| ensures sorted[i].sequence < e.sequence {
        assert sorted[|sorted| - 1] in sorted;
        assert sorted[i].sequence <= sorted[|sorted| - 1].sequence;
      }
    }
  }
}
