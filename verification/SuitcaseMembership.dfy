/** The state a suitcase keeps in its membership file, and what each operation makes of it. */
module SuitcaseMembership {
  import opened Options
  import opened SuitcaseEvents
  import opened SuitcaseInbox
  import opened SuitcaseTelemetry

  datatype Membership = Membership(
    protocol: int,                    // protocolVersion
    site: string, home: string, trust: Trust,
    next: nat,                        // nextOriginSequence
    acknowledged: nat,                // acknowledgedLocalSequence
    outbox: seq<Event>,
    inbound: Inbound,                 // cursors and inbox
    projected: seq<string>,           // projectedEventIds
    feed: Feed,                       // telemetryCursors and telemetryInbox
    projectedRecords: seq<string>,    // projectedTelemetryIds
    acknowledgedRecords: nat)         // acknowledgedLocalTelemetrySequence

  /** The membership that pairing writes. */
  predicate Paired(m: Membership) {
    && m.next == 1 && m.acknowledged == 0 && m.outbox == []
    && m.inbound == Inbound(map[], []) && m.projected == []
    && m.feed == Feed(map[], []) && m.projectedRecords == [] && m.acknowledgedRecords == 0
  }

  function Largest(a: int, b: int): int {
    if a > b then a else b
  }

  // ---- the outbox ----

  /** The fields a caller chooses for a command candidate. */
  datatype Candidate = Candidate(id: string, site: Option<string>, sites: seq<string>, data: string)

  const CANDIDATE := "application.command.candidate"

  /** The event that is signed and numbered for a candidate. */
  function EventFor(m: Membership, c: Candidate, key: string): Event {
    var body := Body(c.id, m.trust.fleet, m.site, m.next, CANDIDATE, c.site, c.sites, c.data);
    Numbered(c.id, m.trust.fleet, m.site, m.next, Content(CANDIDATE, c.site, c.sites, c.data, body, Signed(key, body)))
  }

  function Queued(m: Membership, e: Event): Membership {
    m.(next := m.next + 1, outbox := m.outbox + [e])
  }

  /** The first event with this number. */
  function WithSequence(events: seq<Event>, s: int): (r: Option<Event>)
    ensures r.None? <==> forall e :: e in events ==> e.sequence != s
    ensures r.Some? ==> r.value in events && r.value.sequence == s
  {
    if events == [] then None
    else if events[0].sequence == s then Some(events[0])
    else WithSequence(events[1..], s)
  }

  datatype EnqueueResult = WrongIdentity | Conflict | AlreadyThere | Added

  /** What `enqueueSuitcaseDatabaseEvent` reports. */
  function EnqueueReport(m: Membership, e: Event): EnqueueResult {
    if e.fleet != m.trust.fleet || e.origin != m.site then WrongIdentity
    else if e.sequence <= m.acknowledged then AlreadyThere
    else match WithSequence(m.outbox, e.sequence)
      case Some(collision) => if collision.id != e.id then Conflict else AlreadyThere
      case None => Added
  }

  function Enqueued(m: Membership, e: Event): Membership {
    var report := EnqueueReport(m, e);
    if report == Added then
      m.(outbox := SortBySequence(m.outbox + [e]), next := Largest(m.next, e.sequence + 1))
    else if report == AlreadyThere && e.sequence > m.acknowledged then
      m.(outbox := SortBySequence(m.outbox), next := Largest(m.next, e.sequence + 1))
    else m
  }

  // ---- one response ----

  datatype Response = Response(
    protocol: int, fleet: string, site: string, home: string, keys: map<string, string>,
    through: int,                     // acceptedThrough
    recordsThrough: Option<int>,      // acceptedTelemetryThrough
    events: seq<Event>, skips: seq<Skip>, controls: seq<Event>, records: seq<Record>)

  const BATCH := 200

  /** The events a request carries. */
  function Outgoing(m: Membership): seq<Event> {
    if |m.outbox| <= BATCH then m.outbox else m.outbox[..BATCH]
  }

  function Above(events: seq<Event>, through: int): seq<Event> {
    if events == [] then []
    else
      var front, last := Above(events[..|events| - 1], through), events[|events| - 1];
      if last.sequence > through then front + [last] else front
  }

  function Acknowledged(m: Membership, r: Response): Membership {
    m.(trust := m.trust.(keys := m.trust.keys + r.keys),
       outbox := Above(m.outbox, r.through),
       acknowledged := Largest(m.acknowledged, r.through),
       acknowledgedRecords :=
         if r.recordsThrough.None? then m.acknowledgedRecords
         else Largest(m.acknowledgedRecords, r.recordsThrough.value))
  }

  predicate SameIdentity(m: Membership, r: Response) {
    r.protocol == m.protocol && r.fleet == m.trust.fleet && r.site == m.site && r.home == m.home
  }

  /** The acknowledgement is below the batch that was sent. */
  predicate MovedBackwards(m: Membership, r: Response) {
    m.outbox != [] && r.through < m.outbox[0].sequence - 1
  }

  datatype Processed = Processed(state: Membership, ok: bool)

  function WithInbound(m: Membership, o: Outcome): Processed {
    Processed(m.(inbound := o.state), o.ok)
  }

  function WithFeed(m: Membership, o: FeedOutcome): Processed {
    Processed(m.(feed := o.state), o.ok)
  }

  /** Events, then control requests, then telemetry; what came in before a throw stays. */
  function ProcessContents(m: Membership, r: Response): Processed {
    var events := WithInbound(m, Accept(m.inbound, m.trust, r.events, r.skips));
    if !events.ok then events
    else
      var controls := WithInbound(events.state, AcceptControls(events.state.inbound, m.trust, m.site, r.controls));
      if !controls.ok then controls
      else WithFeed(controls.state, AcceptTelemetry(controls.state.feed, m.trust.fleet, r.records))
  }

  /** What is in memory after a response, and whether nothing was thrown. */
  function Process(m: Membership, r: Response): Processed {
    if !SameIdentity(m, r) then Processed(m, false)
    else if MovedBackwards(m, r) then Processed(Acknowledged(m, r), false)
    else ProcessContents(Acknowledged(m, r), r)
  }

  // ---- projection ----

  function Ids<T>(events: seq<Numbered<T>>): seq<string> {
    seq(|events|, i requires 0 <= i < |events| => events[i].id)
  }

  datatype Projection = Projection(ids: seq<string>, ok: bool)

  /** Project the events from place `i` on; `succeeds` says for which ids the projector does not throw. */
  function ProjectFrom(inbox: seq<Event>, ids: seq<string>, i: nat, succeeds: string -> bool): Projection
    requires i <= |inbox|
    decreases |inbox| - i
  {
    if i == |inbox| then Projection(ids, true)
    else if inbox[i].id in ids then ProjectFrom(inbox, ids, i + 1, succeeds)
    else if succeeds(inbox[i].id) then ProjectFrom(inbox, ids + [inbox[i].id], i + 1, succeeds)
    else Projection(ids, false)
  }

  function Projected(m: Membership, succeeds: string -> bool): Membership {
    m.(projected := ProjectFrom(m.inbound.inbox, m.projected, 0, succeeds).ids)
  }

  /** The records not yet projected. */
  function PendingRecords(records: seq<Record>, ids: seq<string>): seq<Record> {
    if records == [] then []
    else
      var front, last := PendingRecords(records[..|records| - 1], ids), records[|records| - 1];
      if last.id in ids then front else front + [last]
  }

  /** All pending records are projected at once, if the projector does not throw. */
  function RecordsProjected(m: Membership, succeeds: bool): Membership {
    if succeeds then m.(projectedRecords := m.projectedRecords + Ids(PendingRecords(m.feed.inbox, m.projectedRecords)))
    else m
  }

  // ---- Home ----

  /** Home's log of one site: event n is at place n - 1. Replayed events must be the ones already there,
      and a new one must have the next number; otherwise the whole transaction is refused. */
  function Ingest(log: seq<Event>, batch: seq<Event>): Option<seq<Event>>
    decreases |batch|
  {
    if batch == [] then Some(log)
    else
      var e := batch[0];
      if 1 <= e.sequence <= |log| then
        if log[e.sequence - 1].id == e.id && log[e.sequence - 1].content.digest == e.content.digest
        then Ingest(log, batch[1..]) else None
      else if e.sequence == |log| + 1 then Ingest(log + [e], batch[1..])
      else None
  }

  // ---- the counters ----

  datatype Counters = Counters(pendingEvents: int, receivedEvents: int, pendingProjection: int,
                               pendingTelemetryProjection: int)

  /** The counters of `publicSuitcaseMembership`. */
  function PublicCounters(m: Membership): Counters {
    Counters(|m.outbox|, |m.inbound.inbox|, |m.inbound.inbox| - |m.projected|, |m.feed.inbox| - |m.projectedRecords|)
  }
}
