/** Every run of a suitcase against its Home: enqueues, sync rounds, lost responses, crashes. */
module SuitcaseRuns {
  import opened Options
  import opened SuitcaseEvents
  import opened SuitcaseInbox
  import opened SuitcaseTelemetry
  import opened SuitcaseMembership

  /** `file` is the membership as last saved and `memory` that of a sync in progress. Home's log of this
      site is `log`. The last two fields record what has happened: the events put into the outbox, by
      number, and the numbers that Home announced as skipped. */
  datatype System = System(file: Membership, memory: Option<Membership>, log: seq<Event>,
                           issued: map<int, Event>, announced: set<(string, int)>)

  /** The steps. A sync begins by loading the file. A request reaches Home and its response is received,
      or either is lost and nothing is received. Memory is saved after a round and on failure. A crash
      loses memory. */
  datatype Action =
    | QueueCandidate(candidate: Candidate, key: string)
    | EnqueueEvent(event: Event)
    | Begin
    | Deliver(count: nat)
    | Receive(response: Response)
    | Save
    | ProjectEvents(succeeds: string -> bool)
    | ProjectRecords(ok: bool)
    | Finish
    | Crash

  /** Home acknowledges only what it has. */
  ghost predicate Honest(s: System, a: Action) {
    a.Receive? ==> a.response.through <= |s.log|
  }

  ghost function Next(s: System, a: Action): System {
    match a
    case QueueCandidate(c, key) =>
      if s.memory.Some? then s
      else
        var e := EventFor(s.file, c, key);
        s.(file := Queued(s.file, e), issued := s.issued[e.sequence := e])
    case EnqueueEvent(e) =>
      if s.memory.Some? then s
      else s.(file := Enqueued(s.file, e),
              issued := if EnqueueReport(s.file, e) == Added then s.issued[e.sequence := e] else s.issued)
    case Begin => if s.memory.Some? then s else s.(memory := Some(s.file))
    case Deliver(count) =>
      if s.memory.None? then s
      else
        var batch := Outgoing(s.memory.value);
        var taken := Ingest(s.log, if count < |batch| then batch[..count] else batch);
        if taken.Some? then s.(log := taken.value) else s
    case Receive(r) =>
      if s.memory.None? then s
      else s.(memory := Some(Process(s.memory.value, r).state), announced := s.announced + Announced(r.skips))
    case Save => if s.memory.None? then s else s.(file := s.memory.value)
    case ProjectEvents(succeeds) =>
      if s.memory.None? then s
      else
        var m := Projected(s.memory.value, succeeds);
        s.(file := m, memory := Some(m))
    case ProjectRecords(ok) =>
      if s.memory.None? then s
      else
        var m := RecordsProjected(s.memory.value, ok);
        s.(file := m, memory := Some(m))
    case Finish => if s.memory.None? then s else s.(file := s.memory.value, memory := None)
    case Crash => s.(memory := None)
  }

  ghost function Run(s: System, actions: seq<Action>): System {
    if actions == [] then s else Next(Run(s, actions[..|actions| - 1]), actions[|actions| - 1])
  }

  ghost predicate HonestRun(s: System, actions: seq<Action>) {
    forall i :: 0 <= i < |actions| ==> Honest(Run(s, actions[..i]), actions[i])
  }

  ghost predicate Initial(s: System) {
    Paired(s.file) && s.memory.None? && s.log == [] && s.issued == map[] && s.announced == {}
  }

  // ---- the outbox ----

  /** The outbox is strictly increasing, above what is acknowledged and below the next number; it holds
      issued events, and every issued event above what is acknowledged. */
  ghost predicate OutboxOk(m: Membership, issued: map<int, Event>) {
    Increasing(m.outbox) && Held(m.outbox, issued, m.acknowledged) && Kept(m.outbox, issued, m.acknowledged, m.next)
  }

  /** Home holds issued events under their numbers, without a gap. */
  ghost predicate LogOk(log: seq<Event>, issued: map<int, Event>) {
    forall i :: 0 <= i < |log| ==> IssuedAs(issued, i + 1, log[i])
  }

  ghost predicate IssuedAs(issued: map<int, Event>, n: int, e: Event) {
    n in issued && issued[n] == e
  }

  ghost predicate IssuedOk(issued: map<int, Event>) {
    forall n :: n in issued ==> issued[n].sequence == n
  }

  ghost predicate SideOk(m: Membership, s: System) {
    && OutboxOk(m, s.issued) && m.acknowledged <= |s.log| && m.next >= 1
    && Sound(m.inbound) && Covered(m.inbound, s.announced)
    && UniqueIds(m.feed.inbox)
    && m.projected <= Ids(m.inbound.inbox) && m.projectedRecords <= Ids(m.feed.inbox)
  }

  /** Later in time: no cursor has decreased, and the inboxes and the projected ids were only appended to. */
  ghost predicate Later(before: Membership, after: Membership) {
    && Follows(before.inbound, after.inbound) && FeedFollows(before.feed, after.feed)
    && before.acknowledged <= after.acknowledged && before.acknowledgedRecords <= after.acknowledgedRecords
    && before.next <= after.next
    && before.projected <= after.projected && before.projectedRecords <= after.projectedRecords
  }

  lemma LaterThen(a: Membership, b: Membership, c: Membership)
    requires Later(a, b) && Later(b, c)
    ensures Later(a, c)
  {
    FollowsThen(a.inbound, b.inbound, c.inbound);
    FeedFollowsThen(a.feed, b.feed, c.feed);
  }

  lemma FollowsThen(a: Inbound, b: Inbound, c: Inbound)
    requires Follows(a, b) && Follows(b, c)
    ensures Follows(a, c)
  {
    forall o ensures Cursor(a, o) <= Cursor(c, o) { assert Cursor(a, o) <= Cursor(b, o) <= Cursor(c, o); }
  }

  /** File and memory are sound, and memory is later than the file. */
  ghost predicate Invariant(s: System) {
    && IssuedOk(s.issued) && LogOk(s.log, s.issued)
    && SideOk(s.file, s)
    && (s.memory.Some? ==> SideOk(s.memory.value, s) && Later(s.file, s.memory.value))
  }

  lemma InitialInvariant(s: System)
    requires Initial(s)
    ensures Invariant(s)
  {}

  lemma {:induction false} AboveMembers(events: seq<Event>, through: int)
    ensures forall e :: e in Above(events, through) <==> e in events && e.sequence > through
  {
    if events != [] {
      AboveMembers(events[..|events| - 1], through);
      assert events == events[..|events| - 1] + [events[|events| - 1]];
    }
  }

  lemma {:induction false} AboveIncreasing(events: seq<Event>, through: int)
    requires Increasing(events)
    ensures Increasing(Above(events, through))
  {
    if events != [] {
      var front, last := events[..|events| - 1], events[|events| - 1];
      AboveIncreasing(front, through);
      AboveMembers(front, through);
      var r := Above(front, through);
      forall i | 0 <= i < |r| ensures r[i].sequence < last.sequence {
        assert r[i] in front;
        var k :| 0 <= k < |front| && front[k] == r[i];
        assert events[k] == r[i];
      }
    }
  }

  lemma QueueKeepsOutbox(m: Membership, issued: map<int, Event>, e: Event)
    requires OutboxOk(m, issued) && e.sequence == m.next && m.acknowledged < m.next
    ensures OutboxOk(Queued(m, e), issued[e.sequence := e])
  {
    forall i | 0 <= i < |m.outbox| ensures m.outbox[i].sequence < e.sequence { assert m.outbox[i] in m.outbox; }
  }

  lemma IssuedIsThere(m: Membership, issued: map<int, Event>, n: int)
    requires OutboxOk(m, issued) && IssuedOk(issued) && n in issued && n > m.acknowledged
    ensures WithSequence(m.outbox, n).Some?
  {
    assert issued[n] in m.outbox && issued[n].sequence == n;
  }

  /** An event is added to the outbox only under a number not issued before. */
  lemma AddedIsNew(m: Membership, issued: map<int, Event>, e: Event)
    requires OutboxOk(m, issued) && IssuedOk(issued) && EnqueueReport(m, e) == Added
    ensures e.sequence !in issued && e.sequence > m.acknowledged
  {
    if e.sequence in issued { IssuedIsThere(m, issued, e.sequence); }
  }

  ghost predicate Held(box: seq<Event>, issued: map<int, Event>, acknowledged: nat) {
    forall e :: e in box ==> acknowledged < e.sequence && e.sequence in issued && issued[e.sequence] == e
  }

  ghost predicate Kept(box: seq<Event>, issued: map<int, Event>, acknowledged: nat, next: int) {
    forall n :: n in issued ==> 1 <= n < next && (n <= acknowledged || issued[n] in box)
  }

  lemma AddKeepsOutbox(m: Membership, issued: map<int, Event>, e: Event)
    requires OutboxOk(m, issued) && IssuedOk(issued) && EnqueueReport(m, e) == Added
    ensures OutboxOk(m.(outbox := Insert(m.outbox, e), next := Largest(m.next, e.sequence + 1)),
                     issued[e.sequence := e])
  {
    AddedIsNew(m, issued, e);
    InsertIncreasing(m.outbox, e);
    HeldMore(m.outbox, Insert(m.outbox, e), issued, m.acknowledged, e);
    KeptMore(m.outbox, Insert(m.outbox, e), issued, m.acknowledged, m.next, e);
  }

  lemma HeldMore(box: seq<Event>, after: seq<Event>, issued: map<int, Event>, acknowledged: nat, e: Event)
    requires Held(box, issued, acknowledged) && acknowledged < e.sequence && e.sequence !in issued
    requires forall x :: x in after <==> x in box || x == e
    ensures Held(after, issued[e.sequence := e], acknowledged)
  {}

  lemma KeptMore(box: seq<Event>, after: seq<Event>, issued: map<int, Event>, acknowledged: nat, next: int, e: Event)
    requires Kept(box, issued, acknowledged, next) && acknowledged < e.sequence
    requires forall x :: x in after <==> x in box || x == e
    ensures Kept(after, issued[e.sequence := e], acknowledged, Largest(next, e.sequence + 1))
  {
    var more := issued[e.sequence := e];
    forall n | n in more
      ensures 1 <= n < Largest(next, e.sequence + 1) && (n <= acknowledged || more[n] in after)
    {
      if n != e.sequence { assert n in issued; }
    }
  }

  lemma EnqueuedIs(m: Membership, issued: map<int, Event>, e: Event)
    requires OutboxOk(m, issued)
    ensures match EnqueueReport(m, e)
            case Added => Enqueued(m, e) == m.(outbox := Insert(m.outbox, e), next := Largest(m.next, e.sequence + 1))
            case _ => exists next: nat :: next >= m.next && Enqueued(m, e) == m.(next := next)
  {
    AlreadySorted(m.outbox);
    assert (m.outbox + [e])[..|m.outbox|] == m.outbox;
    assert Enqueued(m, e).next >= m.next;
  }

  lemma EnqueueKeepsOutbox(m: Membership, issued: map<int, Event>, e: Event)
    requires OutboxOk(m, issued) && IssuedOk(issued)
    ensures OutboxOk(Enqueued(m, e), if EnqueueReport(m, e) == Added then issued[e.sequence := e] else issued)
  {
    EnqueuedIs(m, issued, e);
    if EnqueueReport(m, e) == Added { AddKeepsOutbox(m, issued, e); }
  }

  lemma AcknowledgeKeepsOutbox(m: Membership, issued: map<int, Event>, r: Response)
    requires OutboxOk(m, issued) && IssuedOk(issued)
    ensures OutboxOk(Acknowledged(m, r), issued)
  {
    AboveIncreasing(m.outbox, r.through);
    AboveMembers(m.outbox, r.through);
  }

  lemma LogMore(log: seq<Event>, issued: map<int, Event>, e: Event)
    requires LogOk(log, issued) && IssuedAs(issued, |log| + 1, e)
    ensures LogOk(log + [e], issued)
  {
    forall i | 0 <= i < |log + [e]| ensures IssuedAs(issued, i + 1, (log + [e])[i]) {
      if i < |log| { assert IssuedAs(issued, i + 1, log[i]); }
    }
  }

  /** What arrives at Home fits its log: replays repeat what is there, and nothing conflicts. */
  lemma {:induction false} IngestKeepsLog(log: seq<Event>, issued: map<int, Event>, batch: seq<Event>)
    requires LogOk(log, issued) && IssuedOk(issued)
    requires forall e :: e in batch ==> e.sequence in issued && issued[e.sequence] == e
    ensures var r := Ingest(log, batch); r.Some? ==> log <= r.value && LogOk(r.value, issued)
    decreases |batch|
  {
    if batch != [] {
      var e := batch[0];
      assert e in batch;
      assert issued[e.sequence] == e;
      forall x | x in batch[1..] ensures x.sequence in issued && issued[x.sequence] == x { assert x in batch; }
      if 1 <= e.sequence <= |log| { IngestKeepsLog(log, issued, batch[1..]); }
      else if e.sequence == |log| + 1 {
        LogMore(log, issued, e);
        IngestKeepsLog(log + [e], issued, batch[1..]);
      }
    }
  }

  // ---- projection ----

  lemma NotProjectedFrom<T>(inbox: seq<Numbered<T>>, ids: seq<string>, i: nat)
    requires UniqueIds(inbox) && ids <= Ids(inbox) && |ids| <= i < |inbox|
    ensures inbox[i].id !in ids
  {
    forall k | 0 <= k < |ids| ensures ids[k] != inbox[i].id {
      assert ids[k] == Ids(inbox)[k] == inbox[k].id;
    }
  }

  lemma NotProjected(inbox: seq<Event>, ids: seq<string>)
    requires UniqueIds(inbox) && ids <= Ids(inbox) && |ids| < |inbox|
    ensures inbox[|ids|].id !in ids
  {
    NotProjectedFrom(inbox, ids, |ids|);
  }

  lemma {:induction false} ProjectPrefix(inbox: seq<Event>, ids: seq<string>, i: nat, succeeds: string -> bool)
    requires i <= |ids| && UniqueIds(inbox) && ids <= Ids(inbox)
    ensures ids <= ProjectFrom(inbox, ids, i, succeeds).ids <= Ids(inbox)
    ensures ProjectFrom(inbox, ids, i, succeeds).ok ==> ProjectFrom(inbox, ids, i, succeeds).ids == Ids(inbox)
    decreases |inbox| - i
  {
    if i < |inbox| {
      if i < |ids| {
        assert ids[i] == Ids(inbox)[i] == inbox[i].id;
        ProjectPrefix(inbox, ids, i + 1, succeeds);
      } else {
        NotProjected(inbox, ids);
        if succeeds(inbox[i].id) {
          assert ids + [inbox[i].id] <= Ids(inbox);
          ProjectPrefix(inbox, ids + [inbox[i].id], i + 1, succeeds);
        }
      }
    }
  }

  lemma {:induction false} PendingSuffix(records: seq<Record>, ids: seq<string>)
    requires UniqueIds(records) && ids <= Ids(records)
    ensures PendingRecords(records, ids) == records[|ids|..]
  {
    if records != [] {
      var front, last := records[..|records| - 1], records[|records| - 1];
      if |ids| == |records| {
        forall r | r in records ensures r.id in ids {
          var k :| 0 <= k < |records| && records[k] == r;
          assert ids[k] == r.id;
        }
        PendingNone(records, ids);
      } else {
        assert ids <= Ids(front);
        PendingSuffix(front, ids);
        NotProjectedFrom(records, ids, |records| - 1);
      }
    }
  }

  lemma {:induction false} PendingNone(records: seq<Record>, ids: seq<string>)
    requires forall r :: r in records ==> r.id in ids
    ensures PendingRecords(records, ids) == []
  {
    if records != [] { PendingNone(records[..|records| - 1], ids); }
  }

  // ---- every step keeps the invariant ----

  /** Only what a membership is compared with grows: the log, the issued events, the announcements. */
  lemma SideStays(m: Membership, s: System, t: System)
    requires SideOk(m, s) && t.issued == s.issued && s.log <= t.log && s.announced <= t.announced
    ensures SideOk(m, t)
  {
    CoveredMore(m.inbound, s.announced, t.announced);
  }

  lemma CoveredMore(m: Inbound, announced: set<(string, int)>, more: set<(string, int)>)
    requires Covered(m, announced) && announced <= more
    ensures Covered(m, more)
  {
    forall o: string, n: int | 1 <= n <= Cursor(m, o)
      ensures (o, n) in more || exists e :: e in m.inbox && e.origin == o && e.sequence == n
    {
      if (o, n) !in announced {
        var e :| e in m.inbox && e.origin == o && e.sequence == n;
      }
    }
  }

  /** A response is processed: the outbox invariant, whatever was thrown. */
  lemma ProcessOutbox(m: Membership, issued: map<int, Event>, r: Response)
    requires OutboxOk(m, issued) && IssuedOk(issued)
    ensures var p := Process(m, r).state; OutboxOk(p, issued) && p.acknowledged <= Largest(m.acknowledged, r.through)
  {
    AcknowledgeKeepsOutbox(m, issued, r);
  }

  lemma ProcessInbound(m: Membership, announced: set<(string, int)>, r: Response)
    requires Sound(m.inbound) && Covered(m.inbound, announced)
    ensures var p := Process(m, r).state;
            && Sound(p.inbound) && Covered(p.inbound, announced + Announced(r.skips)) && Follows(m.inbound, p.inbound)
  {
    CoveredMore(m.inbound, announced, announced + Announced(r.skips));
    var a := Acknowledged(m, r);
    AcceptKeeps(a.inbound, a.trust, r.events, r.skips, announced);
    AcceptControlsKeeps(Accept(a.inbound, a.trust, r.events, r.skips).state, a.trust, a.site, r.controls,
                        announced + Announced(r.skips));
  }

  lemma ProcessFeed(m: Membership, r: Response)
    requires UniqueIds(m.feed.inbox)
    ensures var p := Process(m, r).state; UniqueIds(p.feed.inbox) && FeedFollows(m.feed, p.feed)
    ensures var p := Process(m, r).state; m.acknowledgedRecords <= p.acknowledgedRecords
    ensures var p := Process(m, r).state; p.projected == m.projected && p.projectedRecords == m.projectedRecords
  {
    AcceptUnique(m.feed, m.trust.fleet, r.records);
    AcceptAdvances(m.feed, m.trust.fleet, r.records);
  }

  lemma IdsPrefix<T>(a: seq<Numbered<T>>, b: seq<Numbered<T>>)
    requires a <= b
    ensures Ids(a) <= Ids(b)
  {}

  lemma {:induction false} ProcessKeeps(s: System, r: Response)
    requires Invariant(s) && s.memory.Some? && r.through <= |s.log|
    ensures Invariant(Next(s, Receive(r)))
  {
    var m, t := s.memory.value, Next(s, Receive(r));
    ProcessSide(m, s, r);
    ProcessLater(m, s.announced, r);
    SideStays(s.file, s, t);
    LaterThen(s.file, m, t.memory.value);
  }

  lemma {:induction false} ProcessLater(m: Membership, announced: set<(string, int)>, r: Response)
    requires Sound(m.inbound) && Covered(m.inbound, announced) && UniqueIds(m.feed.inbox)
    ensures Later(m, Process(m, r).state)
  {
    ProcessInbound(m, announced, r);
    ProcessFeed(m, r);
  }

  lemma {:induction false} ProcessSide(m: Membership, s: System, r: Response)
    requires SideOk(m, s) && IssuedOk(s.issued) && r.through <= |s.log|
    ensures SideOk(Process(m, r).state, s.(announced := s.announced + Announced(r.skips)))
  {
    ProcessOutbox(m, s.issued, r);
    ProcessInbound(m, s.announced, r);
    ProcessFeed(m, r);
    var p := Process(m, r).state;
    IdsPrefix(m.inbound.inbox, p.inbound.inbox);
    IdsPrefix(m.feed.inbox, p.feed.inbox);
  }

  lemma DeliverKeeps(s: System, count: nat)
    requires Invariant(s)
    ensures Invariant(Next(s, Deliver(count)))
  {
    var t := Next(s, Deliver(count));
    if s.memory.Some? {
      var sent := Outgoing(s.memory.value);
      var batch := if count < |sent| then sent[..count] else sent;
      forall e | e in batch ensures e.sequence in s.issued && s.issued[e.sequence] == e {
        assert e in s.memory.value.outbox;
      }
      IngestKeepsLog(s.log, s.issued, batch);
      SideStays(s.memory.value, s, t);
      SideStays(s.file, s, t);
    }
  }

  lemma IssueKeeps(s: System, m: Membership, e: Event)
    requires Invariant(s) && e.sequence !in s.issued
    requires OutboxOk(m, s.issued[e.sequence := e]) && m == s.file.(outbox := m.outbox, next := m.next)
    requires m.next >= 1
    ensures Invariant(s.(file := m, memory := None, issued := s.issued[e.sequence := e]))
  {
    forall i | 0 <= i < |s.log| ensures IssuedAs(s.issued[e.sequence := e], i + 1, s.log[i]) {
      assert IssuedAs(s.issued, i + 1, s.log[i]);
    }
  }

  lemma EnqueueKeeps(s: System, e: Event)
    requires Invariant(s) && s.memory.None?
    ensures Invariant(Next(s, EnqueueEvent(e)))
  {
    EnqueueKeepsOutbox(s.file, s.issued, e);
    if EnqueueReport(s.file, e) == Added {
      AddedIsNew(s.file, s.issued, e);
      IssueKeeps(s, Enqueued(s.file, e), e);
    }
  }

  lemma AcknowledgedBelowNext(s: System)
    requires Invariant(s)
    ensures s.file.acknowledged < s.file.next
  {
    if s.log != [] { assert IssuedAs(s.issued, |s.log| - 1 + 1, s.log[|s.log| - 1]); }
  }

  lemma QueueKeeps(s: System, c: Candidate, key: string)
    requires Invariant(s) && s.memory.None? && s.file.acknowledged < s.file.next
    ensures Invariant(Next(s, QueueCandidate(c, key)))
  {
    var e := EventFor(s.file, c, key);
    QueueKeepsOutbox(s.file, s.issued, e);
    IssueKeeps(s, Queued(s.file, e), e);
  }

  lemma ProjectKeeps(s: System, a: Action)
    requires Invariant(s) && (a.ProjectEvents? || a.ProjectRecords?) && s.memory.Some?
    ensures Invariant(Next(s, a))
  {
    var m := s.memory.value;
    match a
    case ProjectEvents(succeeds) => ProjectPrefix(m.inbound.inbox, m.projected, 0, succeeds);
    case ProjectRecords(ok) =>
      PendingSuffix(m.feed.inbox, m.projectedRecords);
      assert m.projectedRecords + Ids(m.feed.inbox[|m.projectedRecords|..]) == Ids(m.feed.inbox);
  }

  /** Every step keeps the invariant. */
  lemma StepKeeps(s: System, a: Action)
    requires Invariant(s) && Honest(s, a)
    ensures Invariant(Next(s, a))
  {
    match a
    case QueueCandidate(c, key) =>
      if s.memory.None? {
        AcknowledgedBelowNext(s);
        QueueKeeps(s, c, key);
      }
    case EnqueueEvent(e) => if s.memory.None? { EnqueueKeeps(s, e); }
    case Deliver(count) => DeliverKeeps(s, count);
    case Receive(r) => if s.memory.Some? { ProcessKeeps(s, r); }
    case ProjectEvents(_) => if s.memory.Some? { ProjectKeeps(s, a); }
    case ProjectRecords(_) => if s.memory.Some? { ProjectKeeps(s, a); }
    case _ =>
  }

  lemma HonestFront(s: System, actions: seq<Action>)
    requires HonestRun(s, actions) && actions != []
    ensures HonestRun(s, actions[..|actions| - 1])
  {
    var front := actions[..|actions| - 1];
    forall i | 0 <= i < |front| ensures Honest(Run(s, front[..i]), front[i]) {
      assert front[..i] == actions[..i];
      assert Honest(Run(s, actions[..i]), actions[i]);
    }
  }

  lemma {:induction false} RunKeeps(s: System, actions: seq<Action>)
    requires Initial(s) && HonestRun(s, actions)
    ensures Invariant(Run(s, actions))
  {
    if actions == [] {
      InitialInvariant(s);
    } else {
      var front := actions[..|actions| - 1];
      HonestFront(s, actions);
      RunKeeps(s, front);
      assert Honest(Run(s, actions[..|actions| - 1]), actions[|actions| - 1]);
      StepKeeps(Run(s, front), actions[|actions| - 1]);
    }
  }

  // ---- what the invariant means ----

  /** Whatever is interleaved, lost or crashed: Home's log is gap-free and without duplicates, it is what
      was issued under the numbers 1, 2, 3 and so on, and every issued event is in the log or in the
      saved outbox. */
  lemma ExactlyOnce(start: System, actions: seq<Action>)
    requires Initial(start) && HonestRun(start, actions)
    ensures var s := Run(start, actions);
            && (forall i :: 0 <= i < |s.log| ==> s.log[i].sequence == i + 1 && IssuedAs(s.issued, i + 1, s.log[i]))
            && (forall n :: n in s.issued ==> n >= 1 && (n <= |s.log| || s.issued[n] in s.file.outbox))
            && (forall e :: e in s.file.outbox ==> IssuedAs(s.issued, e.sequence, e))
  {
    RunKeeps(start, actions);
    InvariantMeans(Run(start, actions));
  }

  lemma InvariantMeans(s: System)
    requires Invariant(s)
    ensures forall i :: 0 <= i < |s.log| ==> s.log[i].sequence == i + 1 && IssuedAs(s.issued, i + 1, s.log[i])
    ensures forall n :: n in s.issued ==> n >= 1 && (n <= |s.log| || s.issued[n] in s.file.outbox)
    ensures forall e :: e in s.file.outbox ==> IssuedAs(s.issued, e.sequence, e)
  {
    forall i | 0 <= i < |s.log| ensures s.log[i].sequence == i + 1 { assert IssuedAs(s.issued, i + 1, s.log[i]); }
    forall n | n in s.issued ensures n >= 1 && (n <= |s.log| || s.issued[n] in s.file.outbox) {}
  }

  ghost predicate Missing(log: seq<Event>, batch: seq<Event>, n: int) {
    batch != [] && |log| < n < batch[|batch| - 1].sequence && forall e :: e in batch ==> e.sequence != n
  }

  lemma {:induction false} RefusedForMissing(log: seq<Event>, issued: map<int, Event>, batch: seq<Event>)
    returns (n: int)
    requires LogOk(log, issued) && IssuedOk(issued) && Ingest(log, batch).None? && Increasing(batch)
    requires forall e :: e in batch ==> e.sequence in issued && issued[e.sequence] == e && e.sequence >= 1
    ensures Missing(log, batch, n)
    decreases |batch|
  {
    var e, rest := batch[0], batch[1..];
    assert e in batch;
    assert forall x :: x in batch <==> x == e || x in rest;
    if e.sequence > |log| + 1 {
      n := |log| + 1;
      forall x | x in batch ensures x.sequence != n {
        var k :| 0 <= k < |batch| && batch[k] == x;
      }
    } else {
      if e.sequence <= |log| {
        assert IssuedAs(issued, e.sequence - 1 + 1, log[e.sequence - 1]);
        n := RefusedForMissing(log, issued, rest);
      } else {
        LogMore(log, issued, e);
        n := RefusedForMissing(log + [e], issued, rest);
      }
    }
  }

  /** What is sent never conflicts with what Home has. If Home refuses it for its numbers, then a number
      below one that was sent has not been issued. */
  lemma RefusedOnlyForGap(start: System, actions: seq<Action>)
    requires Initial(start) && HonestRun(start, actions)
    ensures var s := Run(start, actions);
            s.memory.Some? && Ingest(s.log, Outgoing(s.memory.value)).None? ==>
              exists n, e :: n !in s.issued && e in s.memory.value.outbox && |s.log| < n < e.sequence
  {
    RunKeeps(start, actions);
    var s := Run(start, actions);
    if s.memory.Some? && Ingest(s.log, Outgoing(s.memory.value)).None? {
      var m := s.memory.value;
      var batch := Outgoing(m);
      forall e | e in batch ensures e.sequence in s.issued && s.issued[e.sequence] == e && e.sequence >= 1 {
        assert e in m.outbox;
      }
      var n := RefusedForMissing(s.log, s.issued, batch);
      var last := batch[|batch| - 1];
      assert last in m.outbox;
      if n in s.issued { IssuedAreSent(m, s.issued, batch, n); }
    }
  }

  lemma IssuedAreSent(m: Membership, issued: map<int, Event>, batch: seq<Event>, n: int)
    requires OutboxOk(m, issued) && IssuedOk(issued) && n in issued && n > m.acknowledged
    requires batch <= m.outbox && batch != [] && n < batch[|batch| - 1].sequence
    ensures exists e :: e in batch && e.sequence == n
  {
    var k :| 0 <= k < |m.outbox| && m.outbox[k] == issued[n];
    BelowIsBefore(m.outbox, |batch| - 1, k);
    assert batch[k] in batch;
  }

  lemma BelowIsBefore(events: seq<Event>, i: nat, j: nat)
    requires Increasing(events) && i < |events| && j < |events| && events[j].sequence < events[i].sequence
    ensures j < i
  {}

  /** A local event of this site is added exactly when its number has not been issued: none is lost
      and none is queued twice. */
  lemma AddedExactlyOnce(start: System, actions: seq<Action>, e: Event)
    requires Initial(start) && HonestRun(start, actions)
    requires var s := Run(start, actions); e.fleet == s.file.trust.fleet && e.origin == s.file.site && e.sequence >= 1
    ensures var s := Run(start, actions); EnqueueReport(s.file, e) == Added <==> e.sequence !in s.issued
  {
    RunKeeps(start, actions);
    var s := Run(start, actions);
    if EnqueueReport(s.file, e) == Added {
      AddedIsNew(s.file, s.issued, e);
    } else if e.sequence <= s.file.acknowledged {
      assert IssuedAs(s.issued, e.sequence - 1 + 1, s.log[e.sequence - 1]);
    }
  }

  /** A batch of consecutive numbers that Home takes and acknowledges leaves the outbox. */
  lemma Drains(m: Membership, issued: map<int, Event>, r: Response)
    requires OutboxOk(m, issued) && Outgoing(m) != [] && r.through >= Outgoing(m)[|Outgoing(m)| - 1].sequence
    ensures forall e :: e in Outgoing(m) ==> e !in Acknowledged(m, r).outbox
  {
    AboveMembers(m.outbox, r.through);
    forall e | e in Outgoing(m) ensures e.sequence <= r.through {
      var k :| 0 <= k < |Outgoing(m)| && Outgoing(m)[k] == e;
    }
  }

  /** In every reachable state, also after a response that threw part way: every number up to a cursor is
      in the inbox or was announced as skipped, inbox ids are unique, and only control requests lie above a
      cursor. */
  lemma InboundCoverage(start: System, actions: seq<Action>)
    requires Initial(start) && HonestRun(start, actions)
    ensures var s := Run(start, actions);
            && Covered(s.file.inbound, s.announced) && Sound(s.file.inbound)
            && (s.memory.Some? ==> Covered(s.memory.value.inbound, s.announced) && Sound(s.memory.value.inbound))
  {
    RunKeeps(start, actions);
  }

  /** What a sync remembers only advances. */
  lemma MemoryAdvances(s: System, a: Action)
    requires Invariant(s) && Honest(s, a) && s.memory.Some? && Next(s, a).memory.Some?
    ensures Later(s.memory.value, Next(s, a).memory.value)
  {
    var m := s.memory.value;
    match a
    case Receive(r) =>
      ProcessInbound(m, s.announced, r);
      ProcessFeed(m, r);
    case ProjectEvents(succeeds) => ProjectPrefix(m.inbound.inbox, m.projected, 0, succeeds);
    case _ =>
  }

  /** What is saved only advances, whichever step saves it. */
  lemma FileAdvances(s: System, a: Action)
    requires Invariant(s) && Honest(s, a)
    ensures Later(s.file, Next(s, a).file)
  {
    match a
    case ProjectEvents(_) => if s.memory.Some? { ProjectedIsLater(s, a); }
    case ProjectRecords(_) => if s.memory.Some? { ProjectedIsLater(s, a); }
    case EnqueueEvent(e) => EnqueuedIs(s.file, s.issued, e);
    case _ =>
  }

  lemma ProjectedIsLater(s: System, a: Action)
    requires Invariant(s) && (a.ProjectEvents? || a.ProjectRecords?) && s.memory.Some?
    ensures Later(s.file, Next(s, a).file)
  {
    MemoryAdvances(s, a);
    LaterThen(s.file, s.memory.value, Next(s, a).memory.value);
  }

  /** Over any run, between any two points of it, no saved cursor decreases and the saved inboxes and projected
      ids are only appended to. */
  lemma {:induction false} CursorsAdvance(start: System, actions: seq<Action>, i: nat)
    requires Initial(start) && HonestRun(start, actions) && i <= |actions|
    ensures Later(Run(start, actions[..i]).file, Run(start, actions).file)
  {
    if i == |actions| {
      assert actions[..i] == actions;
    } else {
      var front := actions[..|actions| - 1];
      assert front[..i] == actions[..i];
      HonestFront(start, actions);
      CursorsAdvance(start, front, i);
      RunKeeps(start, front);
      assert Honest(Run(start, actions[..|actions| - 1]), actions[|actions| - 1]);
      FileAdvances(Run(start, front), actions[|actions| - 1]);
      LaterThen(Run(start, actions[..i]).file, Run(start, front).file, Run(start, actions).file);
    }
  }

  /** The projected ids are those of a beginning of the inbox, so that the pending counters are never
      negative and count the records whose ids are not among the projected ones. */
  lemma ProjectionIsPrefix(start: System, actions: seq<Action>)
    requires Initial(start) && HonestRun(start, actions)
    ensures var m := Run(start, actions).file; var c := PublicCounters(m);
            && m.projected <= Ids(m.inbound.inbox) && m.projectedRecords <= Ids(m.feed.inbox)
            && c.pendingProjection >= 0 && c.pendingTelemetryProjection >= 0
            && c.pendingProjection == |set e | e in m.inbound.inbox && e.id !in m.projected|
            && c.pendingTelemetryProjection == |set r | r in m.feed.inbox && r.id !in m.projectedRecords|
  {
    RunKeeps(start, actions);
    var m := Run(start, actions).file;
    CountUnprojected(m.inbound.inbox, m.projected);
    CountUnprojected(m.feed.inbox, m.projectedRecords);
  }

  lemma {:induction false} CountUnprojected<T>(inbox: seq<Numbered<T>>, ids: seq<string>)
    requires UniqueIds(inbox) && ids <= Ids(inbox)
    ensures |set e | e in inbox && e.id !in ids| == |inbox| - |ids|
  {
    if |ids| == |inbox| {
      forall e | e in inbox ensures e.id in ids {
        var k :| 0 <= k < |inbox| && inbox[k] == e;
        assert ids[k] == Ids(inbox)[k] == e.id;
      }
      assert (set e | e in inbox && e.id !in ids) == {};
    } else {
      var front, last := inbox[..|inbox| - 1], inbox[|inbox| - 1];
      assert inbox == front + [last];
      assert ids <= Ids(front);
      CountUnprojected(front, ids);
      NotProjectedFrom(inbox, ids, |inbox| - 1);
      assert (set e | e in inbox && e.id !in ids) == (set e | e in front && e.id !in ids) + {last};
    }
  }
}
