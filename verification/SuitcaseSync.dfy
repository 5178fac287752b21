/** The sync client: the membership object that the operations change in place and save. */
module SuitcaseSync {
  import opened Options
  import opened SuitcaseEvents
  import opened SuitcaseInbox
  import opened SuitcaseTelemetry
  import opened SuitcaseMembership

  class Client {
    var protocolVersion: int
    var site: string
    var home: string
    var trust: Trust
    var nextOriginSequence: nat
    var acknowledgedLocalSequence: nat
    var outbox: seq<Event>
    var cursors: map<string, nat>
    var inbox: seq<Event>
    var projectedEventIds: seq<string>
    var telemetryCursors: map<string, nat>
    var telemetryInbox: seq<Record>
    var projectedTelemetryIds: seq<string>
    var acknowledgedLocalTelemetrySequence: nat

    /** What the membership file holds. */
    var file: Membership

    function Memory(): Membership
      reads this
    {
      Membership(protocolVersion, site, home, trust, nextOriginSequence, acknowledgedLocalSequence, outbox,
                 Inbound(cursors, inbox), projectedEventIds,
                 Feed(telemetryCursors, telemetryInbox), projectedTelemetryIds,
                 acknowledgedLocalTelemetrySequence)
    }

    constructor (paired: Membership)
      ensures Memory() == file == paired
    {
      protocolVersion, site, home, trust := paired.protocol, paired.site, paired.home, paired.trust;
      nextOriginSequence, acknowledgedLocalSequence, outbox := paired.next, paired.acknowledged, paired.outbox;
      cursors, inbox, projectedEventIds := paired.inbound.cursors, paired.inbound.inbox, paired.projected;
      telemetryCursors, telemetryInbox := paired.feed.cursors, paired.feed.inbox;
      projectedTelemetryIds, acknowledgedLocalTelemetrySequence := paired.projectedRecords, paired.acknowledgedRecords;
      file := paired;
    }

    method LoadInbound()
      modifies this`cursors, this`inbox, this`telemetryCursors, this`telemetryInbox
      ensures Inbound(cursors, inbox) == file.inbound && Feed(telemetryCursors, telemetryInbox) == file.feed
    {
      cursors, inbox := file.inbound.cursors, file.inbound.inbox;
      telemetryCursors, telemetryInbox := file.feed.cursors, file.feed.inbox;
    }

    method LoadOutbound()
      modifies this`nextOriginSequence, this`acknowledgedLocalSequence, this`outbox,
               this`acknowledgedLocalTelemetrySequence
      ensures nextOriginSequence == file.next && acknowledgedLocalSequence == file.acknowledged && outbox == file.outbox
      ensures acknowledgedLocalTelemetrySequence == file.acknowledgedRecords
    {
      nextOriginSequence, acknowledgedLocalSequence, outbox := file.next, file.acknowledged, file.outbox;
      acknowledgedLocalTelemetrySequence := file.acknowledgedRecords;
    }

    method LoadProjections()
      modifies this`protocolVersion, this`site, this`home, this`trust, this`projectedEventIds,
               this`projectedTelemetryIds
      ensures protocolVersion == file.protocol && site == file.site && home == file.home && trust == file.trust
      ensures projectedEventIds == file.projected && projectedTelemetryIds == file.projectedRecords
    {
      protocolVersion, site, home, trust := file.protocol, file.site, file.home, file.trust;
      projectedEventIds, projectedTelemetryIds := file.projected, file.projectedRecords;
    }

    method Load()
      modifies this
      ensures file == old(file) && Memory() == file
    {
      LoadProjections();
      LoadOutbound();
      LoadInbound();
    }

    method Save()
      modifies this`file
      ensures file == Memory()
    {
      file := Memory();
    }

    method QueueSuitcaseCommandCandidate(c: Candidate, key: string) returns (event: Event)
      modifies this
      ensures event == EventFor(old(file), c, key)
      ensures Memory() == file == Queued(old(file), event)
    {
      Load();
      event := EventFor(Memory(), c, key);
      nextOriginSequence := nextOriginSequence + 1;
      outbox := outbox + [event];
      Save();
    }

    /** `None` when it throws; otherwise whether the event was new. */
    method EnqueueSuitcaseDatabaseEvent(event: Event) returns (added: Option<bool>)
      modifies this
      ensures Memory() == file == Enqueued(old(file), event)
      ensures match EnqueueReport(old(file), event)
              case Added => added == Some(true)
              case AlreadyThere => added == Some(false)
              case _ => added == None
    {
      Load();
      if event.fleet != trust.fleet || event.origin != site { return None; }
      if event.sequence <= acknowledgedLocalSequence { return Some(false); }
      var collision := WithSequence(outbox, event.sequence);
      if collision.Some? && collision.value.id != event.id { return None; }
      if collision.None? { outbox := outbox + [event]; }
      outbox := SortBySequence(outbox);
      nextOriginSequence := Largest(nextOriginSequence, event.sequence + 1);
      Save();
      added := Some(collision.None?);
    }

    /** One origin's loop of `acceptIncomingEvents`. */
    method AcceptEventsFrom(origin: string, events: seq<Event>, skips: seq<Skip>) returns (ok: bool)
      modifies this`cursors, this`inbox
      ensures Outcome(Inbound(cursors, inbox), ok)
           == AcceptOrigin(Inbound(old(cursors), old(inbox)), trust, origin, events, skips)
    {
      var originEvents := SortBySequence(OfOrigin(events, origin));
      Sorts(OfOrigin(events, origin));
      var skipped := Skipped(skips, origin);
      var cursor: nat := if origin in cursors then cursors[origin] else 0;
      var maximum := Max(cursor, Sequences(OfOrigin(events, origin)) + skipped);
      var bySequence := BySequence(originEvents);
      var sequence := cursor + 1;
      ghost var batch := Batch(bySequence, skipped);
      while sequence <= maximum
        invariant AcceptRange(Inbound(cursors, inbox), trust, origin, batch, sequence, maximum)
               == AcceptOrigin(Inbound(old(cursors), old(inbox)), trust, origin, events, skips)
        decreases maximum + 1 - sequence
      {
        if sequence !in bySequence {
          if sequence !in skipped { return false; }
          cursors := cursors[origin := sequence];
        } else {
          var event := bySequence[sequence];
          if !Verified(trust, event) { return false; }
          var existing := WithId(inbox, event.id);
          if existing.Some? && existing.value.content.digest != event.content.digest { return false; }
          if existing.None? { inbox := inbox + [event]; }
          cursors := cursors[origin := sequence];
        }
        sequence := sequence + 1;
      }
      ok := true;
    }

    /** Also when it throws, it leaves behind what it has accepted so far. */
    method AcceptIncomingEvents(events: seq<Event>, skips: seq<Skip>) returns (ok: bool)
      modifies this`cursors, this`inbox
      ensures Outcome(Inbound(cursors, inbox), ok) == Accept(Inbound(old(cursors), old(inbox)), trust, events, skips)
    {
      var origins := Origins(events, skips);
      var i := 0;
      while i < |origins|
        invariant i <= |origins|
        invariant AcceptOrigins(Inbound(cursors, inbox), trust, origins[i..], events, skips)
               == Accept(Inbound(old(cursors), old(inbox)), trust, events, skips)
      {
        assert origins[i..][1..] == origins[i + 1..];
        var accepted := AcceptEventsFrom(origins[i], events, skips);
        if !accepted { return false; }
        i := i + 1;
      }
      ok := true;
    }

    /** `accepted` counts the control requests that were new. */
    method AcceptAdministrativeControlEvents(events: seq<Event>) returns (ok: bool, accepted: nat)
      modifies this`inbox
      ensures Outcome(Inbound(cursors, inbox), ok) == AcceptControls(Inbound(cursors, old(inbox)), trust, site, events)
      ensures accepted == |inbox| - |old(inbox)|
    {
      accepted := 0;
      var i := 0;
      while i < |events|
        invariant i <= |events| && accepted == |inbox| - |old(inbox)|
        invariant AcceptControls(Inbound(cursors, inbox), trust, site, events[i..])
               == AcceptControls(Inbound(cursors, old(inbox)), trust, site, events)
      {
        var event := events[i];
        assert events[i..][1..] == events[i + 1..];
        if !IsControl(event) || site !in Targets(event) || !Verified(trust, event) { return false, accepted; }
        var existing := WithId(inbox, event.id);
        if existing.Some? && existing.value.content.digest != event.content.digest { return false, accepted; }
        if existing.None? {
          inbox := inbox + [event];
          accepted := accepted + 1;
        }
        i := i + 1;
      }
      ok := true;
    }

    /** One origin's loop of `acceptIncomingTelemetry`: the cursor is stored only at the end. */
    method AcceptTelemetryFrom(origin: string, records: seq<Record>) returns (ok: bool)
      modifies this`telemetryCursors, this`telemetryInbox
      ensures FeedOutcome(Feed(telemetryCursors, telemetryInbox), ok)
           == AcceptFrom(Feed(old(telemetryCursors), old(telemetryInbox)), records, origin)
    {
      var originRecords := SortBySequence(OfOrigin(records, origin));
      var cursor: nat := if origin in telemetryCursors then telemetryCursors[origin] else 0;
      ghost var start := cursor;
      var i := 0;
      while i < |originRecords|
        invariant i <= |originRecords| && telemetryCursors == old(telemetryCursors)
        invariant Take(telemetryInbox, cursor, originRecords[i..]) == Take(old(telemetryInbox), start, originRecords)
      {
        var record := originRecords[i];
        assert originRecords[i..][1..] == originRecords[i + 1..];
        i := i + 1;
        if record.sequence <= cursor { continue; }
        if record.sequence != cursor + 1 { return false; }
        if WithId(telemetryInbox, record.id).None? { telemetryInbox := telemetryInbox + [record]; }
        cursor := record.sequence;
      }
      telemetryCursors := telemetryCursors[origin := cursor];
      ok := true;
    }

    method AcceptIncomingTelemetry(records: seq<Record>) returns (ok: bool)
      modifies this`telemetryCursors, this`telemetryInbox
      ensures FeedOutcome(Feed(telemetryCursors, telemetryInbox), ok)
           == AcceptTelemetry(Feed(old(telemetryCursors), old(telemetryInbox)), trust.fleet, records)
    {
      for i := 0 to |records|
        invariant telemetryCursors == old(telemetryCursors) && telemetryInbox == old(telemetryInbox)
        invariant forall j :: 0 <= j < i ==> ValidRecord(trust.fleet, records[j])
      {
        if !ValidRecord(trust.fleet, records[i]) { return false; }
      }
      var origins := EventOrigins(records);
      var i := 0;
      while i < |origins|
        invariant i <= |origins|
        invariant AcceptEach(Feed(telemetryCursors, telemetryInbox), records, origins[i..])
               == AcceptTelemetry(Feed(old(telemetryCursors), old(telemetryInbox)), trust.fleet, records)
      {
        assert origins[i..][1..] == origins[i + 1..];
        var accepted := AcceptTelemetryFrom(origins[i], records);
        if !accepted { return false; }
        i := i + 1;
      }
      ok := true;
    }

    /** Take over keys and acknowledgements. */
    method Acknowledge(r: Response)
      modifies this`trust, this`outbox, this`acknowledgedLocalSequence, this`acknowledgedLocalTelemetrySequence
      ensures Memory() == Acknowledged(old(Memory()), r)
    {
      trust := trust.(keys := trust.keys + r.keys);
      outbox := Above(outbox, r.through);
      acknowledgedLocalSequence := Largest(acknowledgedLocalSequence, r.through);
      if r.recordsThrough.Some? {
        acknowledgedLocalTelemetrySequence := Largest(acknowledgedLocalTelemetrySequence, r.recordsThrough.value);
      }
    }

    /** Take in events, control requests and telemetry. */
    method AcceptContents(r: Response) returns (ok: bool)
      modifies this`cursors, this`inbox, this`telemetryCursors, this`telemetryInbox
      ensures Processed(Memory(), ok) == ProcessContents(old(Memory()), r)
    {
      ok := AcceptIncomingEvents(r.events, r.skips);
      if !ok { return; }
      var accepted;
      ok, accepted := AcceptAdministrativeControlEvents(r.controls);
      if !ok { return; }
      ok := AcceptIncomingTelemetry(r.records);
    }

    /** Process one response. */
    method ProcessResponse(r: Response) returns (ok: bool)
      modifies this
      ensures file == old(file) && Processed(Memory(), ok) == Process(old(Memory()), r)
    {
      if r.protocol != protocolVersion || r.fleet != trust.fleet || r.site != site || r.home != home { return false; }
      var sent := Outgoing(Memory());
      Acknowledge(r);
      if sent != [] && r.through < sent[0].sequence - 1 { return false; }
      ok := AcceptContents(r);
    }

    /** One round of `syncSuitcaseNow`; no response stands for a request that failed. Memory is saved in
        every case, by the round itself or where its exception is caught. */
    method ExchangeRound(response: Option<Response>) returns (ok: bool)
      modifies this
      ensures Memory() == file
      ensures if response.Some? then Processed(Memory(), ok) == Process(old(Memory()), response.value)
              else !ok && Memory() == old(Memory())
    {
      if response.None? {
        ok := false;
      } else {
        ok := ProcessResponse(response.value);
      }
      Save();
    }

    /** The projection loop of `syncSuitcaseNow`; it stops where the projector throws. */
    method ProjectEvents(succeeds: string -> bool) returns (ok: bool)
      modifies this
      requires file == Memory()
      ensures Memory() == file == Projected(old(Memory()), succeeds)
      ensures ok == ProjectFrom(old(inbox), old(projectedEventIds), 0, succeeds).ok
    {
      var i := 0;
      while i < |inbox|
        invariant i <= |inbox| && file == Memory() == old(Memory()).(projected := projectedEventIds)
        invariant ProjectFrom(inbox, projectedEventIds, i, succeeds)
               == ProjectFrom(old(inbox), old(projectedEventIds), 0, succeeds)
      {
        var event := inbox[i];
        i := i + 1;
        if event.id in projectedEventIds { continue; }
        if !succeeds(event.id) { return false; }
        projectedEventIds := projectedEventIds + [event.id];
        Save();
      }
      ok := true;
    }

    method ProjectTelemetry(succeeds: bool)
      modifies this
      requires file == Memory()
      ensures Memory() == file == RecordsProjected(old(Memory()), succeeds)
    {
      var pending := PendingRecords(telemetryInbox, projectedTelemetryIds);
      if pending != [] && succeeds {
        projectedTelemetryIds := projectedTelemetryIds + Ids(pending);
        Save();
      }
    }
  }
}
