/** Planning one-shot jobs from what has already run. */
module Jobs {
  import opened StringOrder
  import opened Options
  import opened Lists

  datatype Scope = PerSite | WriterSite | EachInstance

  datatype Job = Job(component: string, scope: Scope, beforeTraffic: bool)

  /** What an idempotency key is the hash of; the hash is taken to be injective. */
  datatype Key = Key(application: string, release: string, configuration: string, job: string, site: string,
                     instance: Option<string>)

  datatype Status = Pending | Running | Succeeded | Failed

  datatype Record = Record(key: Key, status: Status, attempts: nat)

  datatype Instance = Instance(id: string, component: string, stopped: bool)

  datatype Execution = Execution(application: string, release: string, order: seq<string>)

  datatype Settings = Settings(site: string, writer: Option<string>, configuration: string, retryFailed: bool)

  datatype Planned = Planned(key: Key, job: string, component: string, attempt: nat)

  /** `new Map` of the records: of several with one key the last counts. */
  function RecordMap(records: seq<Record>): map<Key, Record> {
    if records == [] then map[]
    else RecordMap(records[..|records| - 1])[records[|records| - 1].key := records[|records| - 1]]
  }

  /** The table keeps one row for a key: a new row replaces the old one. */
  function Upsert(records: seq<Record>, r: Record): seq<Record> {
    Without(records, r.key) + [r]
  }

  function Without(records: seq<Record>, key: Key): seq<Record> {
    if records == [] then []
    else
      var front, last := Without(records[..|records| - 1], key), records[|records| - 1];
      if last.key == key then front else front + [last]
  }

  lemma {:induction false} WithoutIs(records: seq<Record>, key: Key)
    ensures RecordMap(Without(records, key)) == RecordMap(records) - {key}
  {
    if records != [] {
      var front, last := records[..|records| - 1], records[|records| - 1];
      WithoutIs(front, key);
      if last.key != key {
        var kept := Without(front, key);
        assert (kept + [last])[..|kept|] == kept;
      }
    }
  }

  lemma UpsertIs(records: seq<Record>, r: Record)
    ensures RecordMap(Upsert(records, r)) == RecordMap(records)[r.key := r]
  {
    WithoutIs(records, r.key);
    var kept := Without(records, r.key);
    assert (kept + [r])[..|kept|] == kept;
  }

  function IndexOf(order: seq<string>, component: string): int {
    if order == [] then -1
    else if order[0] == component then 0
    else var rest := IndexOf(order[1..], component); if rest < 0 then -1 else rest + 1
  }

  /** The jobs whose component is at place `k` of the order, by name; -1 is for unknown components. */
  function JobsAt(jobs: map<string, Job>, order: seq<string>, k: int): seq<string> {
    Sorted(set j | j in jobs && IndexOf(order, jobs[j].component) == k)
  }

  function JobsFrom(jobs: map<string, Job>, order: seq<string>, k: int): seq<string>
    requires -1 <= k <= |order|
    decreases |order| - k
  {
    if k == |order| then [] else JobsAt(jobs, order, k) + JobsFrom(jobs, order, k + 1)
  }

  /** The jobs by the place of their component, then by name. */
  function OrderedJobs(jobs: map<string, Job>, order: seq<string>): seq<string> {
    JobsFrom(jobs, order, -1)
  }

  function InsertId(sorted: seq<string>, id: string): seq<string> {
    if sorted == [] || !Less(id, sorted[|sorted| - 1]) then sorted + [id]
    else InsertId(sorted[..|sorted| - 1], id) + [sorted[|sorted| - 1]]
  }

  predicate Runs(instance: Instance, component: string) {
    instance.component == component && !instance.stopped
  }

  /** The ids of a component's instances that are not stopped, sorted. */
  function InstanceIds(instances: seq<Instance>, component: string): seq<string> {
    if instances == [] then []
    else
      var front, last := InstanceIds(instances[..|instances| - 1], component), instances[|instances| - 1];
      if Runs(last, component) then InsertId(front, last.id) else front
  }

  function Somes(ids: seq<string>): seq<Option<string>> {
    seq(|ids|, i requires 0 <= i < |ids| => Some(ids[i]))
  }

  /** The writer site is not known: `undefined`, `null` and the empty string. */
  predicate WriterUnknown(s: Settings) {
    s.writer.None? || s.writer.value == ""
  }

  /** `jobTargets` */
  function Targets(job: Job, instances: seq<Instance>, s: Settings): seq<Option<string>> {
    match job.scope
    case PerSite => [None]
    case WriterSite => if WriterUnknown(s) then [] else if s.writer.value == s.site then [None] else []
    case EachInstance => Somes(InstanceIds(instances, job.component))
  }

  function KeyFor(e: Execution, s: Settings, name: string, target: Option<string>): Key {
    Key(e.application, e.release, s.configuration, name, s.site, target)
  }

  predicate Done(records: map<Key, Record>, key: Key) {
    key in records && records[key].status == Succeeded
  }

  predicate Runnable(records: map<Key, Record>, key: Key, retryFailed: bool) {
    key in records ==>
      records[key].status !in {Succeeded, Running} && (records[key].status == Failed ==> retryFailed)
  }

  function Attempt(records: map<Key, Record>, key: Key): nat {
    (if key in records then records[key].attempts else 0) + 1
  }

  /** The executions planned for one job. */
  function JobPlan(e: Execution, s: Settings, records: map<Key, Record>, name: string, job: Job,
                   targets: seq<Option<string>>): seq<Planned> {
    if targets == [] then []
    else
      var front := JobPlan(e, s, records, name, job, targets[..|targets| - 1]);
      var key := KeyFor(e, s, name, targets[|targets| - 1]);
      if !Runnable(records, key, s.retryFailed) then front
      else front + [Planned(key, name, job.component, Attempt(records, key))]
  }

  function PlanFor(e: Execution, s: Settings, records: map<Key, Record>, jobs: map<string, Job>,
                   instances: seq<Instance>,
                   names: seq<string>): seq<Planned>
    requires forall n :: n in names ==> n in jobs
  {
    if names == [] then []
    else
      var name := names[|names| - 1];
      PlanFor(e, s, records, jobs, instances, names[..|names| - 1])
      + JobPlan(e, s, records, name, jobs[name], Targets(jobs[name], instances, s))
  }

  predicate JobComplete(e: Execution, s: Settings, records: map<Key, Record>, name: string,
                        targets: seq<Option<string>>) {
    forall t :: t in targets ==> Done(records, KeyFor(e, s, name, t))
  }

  predicate ShutsOwn(e: Execution, s: Settings, records: map<Key, Record>, name: string, job: Job,
                     instances: seq<Instance>) {
    job.beforeTraffic && !JobComplete(e, s, records, name, Targets(job, instances, s))
  }

  /** The traffic gates: open for every component, and shut by each incomplete job that comes first. */
  function Gates(e: Execution, s: Settings, records: map<Key, Record>, jobs: map<string, Job>, instances: seq<Instance>,
                 names: seq<string>): map<string, bool>
    requires forall n :: n in names ==> n in jobs
  {
    if names == [] then map c | c in e.order :: true
    else
      var front := Gates(e, s, records, jobs, instances, names[..|names| - 1]);
      var name := names[|names| - 1];
      if ShutsOwn(e, s, records, name, jobs[name], instances) then front[jobs[name].component := false] else front
  }

  ghost predicate Shut(gates: map<string, bool>, c: string) {
    c in gates && !gates[c]
  }

  /** A gate is shut exactly when a job that comes before the component's traffic is not complete. */
  lemma {:induction false} GateShut(e: Execution, s: Settings, records: map<Key, Record>, jobs: map<string, Job>,
                                    instances: seq<Instance>, names: seq<string>, c: string)
    requires forall n :: n in names ==> n in jobs
    ensures Shut(Gates(e, s, records, jobs, instances, names), c)
       <==> exists n :: n in names && jobs[n].component == c && ShutsOwn(e, s, records, n, jobs[n], instances)
    ensures c in e.order ==> c in Gates(e, s, records, jobs, instances, names)
  {
    if names != [] {
      var front, name := names[..|names| - 1], names[|names| - 1];
      GateShut(e, s, records, jobs, instances, front, c);
      assert forall n :: n in names <==> n in front || n == name;
    }
  }

  ghost predicate Unresolved(s: Settings, jobs: map<string, Job>) {
    WriterUnknown(s) && exists n :: n in jobs && jobs[n].scope == WriterSite
  }

  lemma JobsAtMembers(jobs: map<string, Job>, order: seq<string>, k: int)
    ensures forall n :: n in JobsAt(jobs, order, k) <==> n in jobs && IndexOf(order, jobs[n].component) == k
  {
    SortedMembers(set j | j in jobs && IndexOf(order, jobs[j].component) == k);
  }

  lemma {:induction false} JobsFromMembers(jobs: map<string, Job>, order: seq<string>, k: int)
    requires -1 <= k <= |order|
    ensures forall n :: n in JobsFrom(jobs, order, k) <==> n in jobs && k <= IndexOf(order, jobs[n].component) < |order|
    decreases |order| - k
  {
    if k < |order| {
      JobsFromMembers(jobs, order, k + 1);
      JobsAtMembers(jobs, order, k);
      assert forall n :: n in JobsFrom(jobs, order, k) <==> n in JobsAt(jobs, order, k) || n in JobsFrom(jobs, order,
                                                                                                         k + 1);
    }
  }

  lemma {:induction false} IndexBounds(order: seq<string>, component: string)
    ensures -1 <= IndexOf(order, component) < |order|
  {
    if order != [] { IndexBounds(order[1..], component); }
  }

  lemma OrderedMembers(jobs: map<string, Job>, order: seq<string>)
    ensures forall n :: n in OrderedJobs(jobs, order) <==> n in jobs
  {
    JobsFromMembers(jobs, order, -1);
    forall n | n in jobs ensures -1 <= IndexOf(order, jobs[n].component) < |order| {
      IndexBounds(order, jobs[n].component);
    }
  }

  // ---- the planner ----

  /** One job of `planApplicationJobs`. */
  method PlanJob(e: Execution, s: Settings, records: map<Key, Record>, name: string, job: Job, instances: seq<Instance>)
    returns (planned: seq<Planned>, complete: bool)
    ensures planned == JobPlan(e, s, records, name, job, Targets(job, instances, s))
    ensures complete == JobComplete(e, s, records, name, Targets(job, instances, s))
  {
    var targets := Targets(job, instances, s);
    planned, complete := [], true;
    for i := 0 to |targets|
      invariant planned == JobPlan(e, s, records, name, job, targets[..i])
      invariant complete == JobComplete(e, s, records, name, targets[..i])
    {
      assert targets[..i + 1][..i] == targets[..i];
      JobCompleteStep(e, s, records, name, targets, i);
      var key := KeyFor(e, s, name, targets[i]);
      if key in records && records[key].status == Succeeded { continue; }
      complete := false;
      if key in records && records[key].status == Running { continue; }
      if key in records && records[key].status == Failed && !s.retryFailed { continue; }
      planned := planned + [Planned(key, name, job.component, Attempt(records, key))];
    }
    assert targets[..|targets|] == targets;
  }

  lemma JobCompleteStep(e: Execution, s: Settings, records: map<Key, Record>, name: string,
                        targets: seq<Option<string>>, i: nat)
    requires i < |targets|
    ensures JobComplete(e, s, records, name, targets[..i + 1])
       <==> JobComplete(e, s, records, name, targets[..i]) && Done(records, KeyFor(e, s, name, targets[i]))
  {
    assert forall t :: t in targets[..i + 1] <==> t in targets[..i] || t == targets[i];
  }

  method OpenGates(order: seq<string>) returns (gates: map<string, bool>)
    ensures gates == map c | c in order :: true
  {
    gates := map[];
    for i := 0 to |order|
      invariant gates == map c | c in order[..i] :: true
    {
      assert order[..i + 1] == order[..i] + [order[i]];
      gates := gates[order[i] := true];
    }
    assert order[..|order|] == order;
  }

  /** One of the first `i` jobs needs the writer site, which is not known. */
  ghost predicate UnresolvedIn(s: Settings, jobs: map<string, Job>, names: seq<string>, i: nat)
    requires i <= |names| && forall n :: n in names ==> n in jobs
  {
    WriterUnknown(s) && exists j :: 0 <= j < i && jobs[names[j]].scope == WriterSite
  }

  /** The plan after the first `i` jobs. */
  ghost predicate PlannedSoFar(planned: seq<Planned>, gates: map<string, bool>, blocked: bool, e: Execution,
                               s: Settings,
                               records: map<Key, Record>, jobs: map<string, Job>, instances: seq<Instance>,
                               names: seq<string>, i: nat)
    requires i <= |names| && forall n :: n in names ==> n in jobs
  {
    && planned == PlanFor(e, s, records, jobs, instances, names[..i])
    && gates == Gates(e, s, records, jobs, instances, names[..i])
    && (blocked <==> UnresolvedIn(s, jobs, names, i))
  }

  method PlanNext(e: Execution, s: Settings, records: map<Key, Record>, jobs: map<string, Job>,
                  instances: seq<Instance>,
                  ghost names: seq<string>, name: string, ghost i: nat,
                  planned: seq<Planned>, gates: map<string, bool>, blocked: bool)
    returns (planned': seq<Planned>, gates': map<string, bool>, blocked': bool)
    requires i < |names| && names[i] == name && forall n :: n in names ==> n in jobs
    requires PlannedSoFar(planned, gates, blocked, e, s, records, jobs, instances, names, i)
    ensures PlannedSoFar(planned', gates', blocked', e, s, records, jobs, instances, names, i + 1)
  {
    var job := jobs[name];
    blocked' := blocked || (job.scope == WriterSite && WriterUnknown(s));
    var more, complete := PlanJob(e, s, records, name, job, instances);
    assert names[..i + 1][..i] == names[..i];
    planned' := planned + more;
    gates' := if job.beforeTraffic && !complete then gates[job.component := false] else gates;
  }

  /** `planApplicationJobs`: what is planned, the traffic gates, and whether the plan is blocked. */
  method PlanApplicationJobs(e: Execution, s: Settings, records: seq<Record>, jobs: map<string, Job>,
                             instances: seq<Instance>)
    returns (planned: seq<Planned>, gates: map<string, bool>, blocked: bool)
    ensures forall n :: n in OrderedJobs(jobs, e.order) <==> n in jobs
    ensures planned == PlanFor(e, s, RecordMap(records), jobs, instances, OrderedJobs(jobs, e.order))
    ensures gates == Gates(e, s, RecordMap(records), jobs, instances, OrderedJobs(jobs, e.order))
    ensures blocked <==> Unresolved(s, jobs)
  {
    var byKey, names := RecordMap(records), OrderedJobs(jobs, e.order);
    OrderedMembers(jobs, e.order);
    gates := OpenGates(e.order);
    planned, blocked := [], false;
    for i := 0 to |names|
      invariant PlannedSoFar(planned, gates, blocked, e, s, byKey, jobs, instances, names, i)
    {
      planned, gates, blocked := PlanNext(e, s, byKey, jobs, instances, names, names[i], i, planned, gates, blocked);
    }
    assert names[..|names|] == names;
    UnresolvedSomewhere(s, jobs, names);
  }

  lemma UnresolvedSomewhere(s: Settings, jobs: map<string, Job>, names: seq<string>)
    requires forall n :: n in names <==> n in jobs
    ensures UnresolvedIn(s, jobs, names, |names|) <==> Unresolved(s, jobs)
  {
    if exists n :: n in jobs && jobs[n].scope == WriterSite {
      var n :| n in jobs && jobs[n].scope == WriterSite;
      assert n in names;
    }
  }

  // ---- what the plan means ----

  ghost predicate Wants(e: Execution, s: Settings, jobs: map<string, Job>, instances: seq<Instance>, names: seq<string>,
                        key: Key)
    requires forall n :: n in names ==> n in jobs
  {
    exists n, t :: n in names && t in Targets(jobs[n], instances, s) && key == KeyFor(e, s, n, t)
  }

  lemma {:induction false} JobPlanMembers(e: Execution, s: Settings, records: map<Key, Record>, name: string, job: Job,
                                          targets: seq<Option<string>>)
    ensures forall p :: p in JobPlan(e, s, records, name, job, targets) <==>
              exists t :: t in targets && Runnable(records, KeyFor(e, s, name, t), s.retryFailed)
                       && p == Planned(KeyFor(e, s, name, t), name, job.component,
                                       Attempt(records, KeyFor(e, s, name, t)))
  {
    if targets != [] {
      var front, last := targets[..|targets| - 1], targets[|targets| - 1];
      JobPlanMembers(e, s, records, name, job, front);
      assert targets == front + [last];
      assert forall t :: t in targets <==> t in front || t == last;
    }
  }

  /** A key is planned exactly when some job wants it and it may run. */
  lemma {:induction false} PlanMembers(e: Execution, s: Settings, records: map<Key, Record>, jobs: map<string, Job>,
                                       instances: seq<Instance>, names: seq<string>, key: Key)
    requires forall n :: n in names ==> n in jobs
    ensures (exists p :: p in PlanFor(e, s, records, jobs, instances, names) && p.key == key)
       <==> Wants(e, s, jobs, instances, names, key) && Runnable(records, key, s.retryFailed)
  {
    if names != [] {
      var front, name := names[..|names| - 1], names[|names| - 1];
      PlanMembers(e, s, records, jobs, instances, front, key);
      JobPlanMembers(e, s, records, name, jobs[name], Targets(jobs[name], instances, s));
      assert forall n :: n in names <==> n in front || n == name;
      var all := PlanFor(e, s, records, jobs, instances, names);
      var a, b := PlanFor(e, s, records, jobs, instances, front),
                  JobPlan(e, s, records, name, jobs[name], Targets(jobs[name], instances, s));
      assert forall p :: p in all <==> p in a || p in b;
      if Runnable(records, key, s.retryFailed)
         && exists t :: t in Targets(jobs[name], instances, s) && key == KeyFor(e, s, name, t) {
        var t :| t in Targets(jobs[name], instances, s) && key == KeyFor(e, s, name, t);
        assert Planned(key, name, jobs[name].component, Attempt(records, key)) in b;
      }
    }
  }

  // ---- keys are distinct ----

  ghost predicate DistinctIds(instances: seq<Instance>) {
    forall i, j :: 0 <= i < j < |instances| ==> instances[i].id != instances[j].id
  }

  lemma {:induction false} InsertIdMembers(sorted: seq<string>, id: string)
    ensures forall x :: x in InsertId(sorted, id) <==> x in sorted || x == id
  {
    if !(sorted == [] || !Less(id, sorted[|sorted| - 1])) {
      InsertIdMembers(sorted[..|sorted| - 1], id);
      assert sorted == sorted[..|sorted| - 1] + [sorted[|sorted| - 1]];
    }
  }

  lemma {:induction false} InsertIdDistinct(sorted: seq<string>, id: string)
    requires NoRepeat(sorted) && id !in sorted
    ensures NoRepeat(InsertId(sorted, id))
  {
    if !(sorted == [] || !Less(id, sorted[|sorted| - 1])) {
      var front, last := sorted[..|sorted| - 1], sorted[|sorted| - 1];
      InsertIdDistinct(front, id);
      InsertIdMembers(front, id);
      var r := InsertId(front, id);
      forall i | 0 <= i < |r| ensures r[i] != last {
        assert r[i] in r;
        if r[i] in front { var k :| 0 <= k < |front| && front[k] == r[i]; assert sorted[k] == r[i]; }
      }
    }
  }

  lemma {:induction false} InstanceIdsDistinct(instances: seq<Instance>, component: string)
    requires DistinctIds(instances)
    ensures NoRepeat(InstanceIds(instances, component))
    ensures forall x :: x in InstanceIds(instances, component)
                   <==> exists i :: 0 <= i < |instances| && instances[i].id == x && Runs(instances[i], component)
  {
    if instances != [] {
      var front, last := instances[..|instances| - 1], instances[|instances| - 1];
      InstanceIdsDistinct(front, component);
      var ids := InstanceIds(front, component);
      if Runs(last, component) {
        InsertIdMembers(ids, last.id);
        InsertIdDistinct(ids, last.id);
      }
      forall x | x in ids
        ensures exists i :: 0 <= i < |instances| && instances[i].id == x && Runs(instances[i], component) {
        var i :| 0 <= i < |front| && front[i].id == x && Runs(front[i], component);
        assert instances[i] == front[i];
      }
      forall i | 0 <= i < |front| ensures instances[i] == front[i] {}
    }
  }

  lemma TargetsDistinct(job: Job, instances: seq<Instance>, s: Settings)
    requires DistinctIds(instances)
    ensures NoRepeat(Targets(job, instances, s))
  {
    InstanceIdsDistinct(instances, job.component);
  }

  function Keys(planned: seq<Planned>): seq<Key> {
    seq(|planned|, i requires 0 <= i < |planned| => planned[i].key)
  }

  lemma {:induction false} JobPlanDistinct(e: Execution, s: Settings, records: map<Key, Record>, name: string, job: Job,
                                           targets: seq<Option<string>>)
    requires NoRepeat(targets)
    ensures NoRepeat(Keys(JobPlan(e, s, records, name, job, targets)))
    ensures forall k :: k in Keys(JobPlan(e, s, records, name, job, targets)) ==>
              k.job == name && k == KeyFor(e, s, name, k.instance) && k.instance in targets
  {
    if targets != [] {
      var front, last := targets[..|targets| - 1], targets[|targets| - 1];
      assert targets == front + [last];
      assert forall t :: t in front ==> t in targets;
      JobPlanDistinct(e, s, records, name, job, front);
      var a, key := JobPlan(e, s, records, name, job, front), KeyFor(e, s, name, last);
      if Runnable(records, key, s.retryFailed) {
        var p := Planned(key, name, job.component, Attempt(records, key));
        KeysPush(a, p);
        if key in Keys(a) { LastNotInFront(targets); }
        PushDistinct(Keys(a), key);
      }
    }
  }

  lemma LastNotInFront<T(!new)>(s: seq<T>)
    requires s != [] && NoRepeat(s)
    ensures s[|s| - 1] !in s[..|s| - 1]
  {}

  lemma HeadNotInTail<T(!new)>(s: seq<T>)
    requires s != [] && NoRepeat(s)
    ensures s[0] !in s[1..]
  {}

  lemma KeysPush(a: seq<Planned>, p: Planned)
    ensures Keys(a + [p]) == Keys(a) + [p.key]
  {}

  lemma KeysNext(planned: seq<Planned>, i: nat)
    requires i < |planned|
    ensures Keys(planned)[..i + 1] == Keys(planned)[..i] + [planned[i].key]
  {}

  lemma KeysAppend(a: seq<Planned>, b: seq<Planned>)
    ensures Keys(a + b) == Keys(a) + Keys(b)
  {}

  lemma {:induction false} PlanForDistinct(e: Execution, s: Settings, records: map<Key, Record>, jobs: map<string, Job>,
                                           instances: seq<Instance>, names: seq<string>)
    requires DistinctIds(instances) && NoRepeat(names) && forall n :: n in names ==> n in jobs
    ensures NoRepeat(Keys(PlanFor(e, s, records, jobs, instances, names)))
    ensures forall k :: k in Keys(PlanFor(e, s, records, jobs, instances, names)) ==> k.job in names
  {
    if names != [] {
      var front, name := names[..|names| - 1], names[|names| - 1];
      assert forall n :: n in names <==> n in front || n == name;
      PlanForDistinct(e, s, records, jobs, instances, front);
      TargetsDistinct(jobs[name], instances, s);
      JobPlanDistinct(e, s, records, name, jobs[name], Targets(jobs[name], instances, s));
      LastNotInFront(names);
      var a, b := PlanFor(e, s, records, jobs, instances, front),
                  JobPlan(e, s, records, name, jobs[name], Targets(jobs[name], instances, s));
      KeysAppend(a, b);
      AppendDistinct(Keys(a), Keys(b));
    }
  }

  lemma {:induction false} JobsFromDistinct(jobs: map<string, Job>, order: seq<string>, k: int)
    requires -1 <= k <= |order|
    ensures NoRepeat(JobsFrom(jobs, order, k))
    decreases |order| - k
  {
    if k < |order| {
      JobsFromDistinct(jobs, order, k + 1);
      JobsFromMembers(jobs, order, k + 1);
      SortedMembers(set j | j in jobs && IndexOf(order, jobs[j].component) == k);
      AppendDistinct(JobsAt(jobs, order, k), JobsFrom(jobs, order, k + 1));
    }
  }

  /** The keys of a plan are pairwise distinct. */
  lemma PlanKeysDistinct(e: Execution, s: Settings, records: map<Key, Record>, jobs: map<string, Job>,
                         instances: seq<Instance>)
    requires DistinctIds(instances)
    ensures forall n :: n in OrderedJobs(jobs, e.order) ==> n in jobs
    ensures NoRepeat(Keys(PlanFor(e, s, records, jobs, instances, OrderedJobs(jobs, e.order))))
  {
    OrderedMembers(jobs, e.order);
    JobsFromDistinct(jobs, e.order, -1);
    PlanForDistinct(e, s, records, jobs, instances, OrderedJobs(jobs, e.order));
  }

  // ---- after everything planned has succeeded ----

  function Recorded(records: map<Key, Record>, planned: seq<Planned>): map<Key, Record> {
    if planned == [] then records
    else
      var last := planned[|planned| - 1];
      Recorded(records, planned[..|planned| - 1])[last.key := Record(last.key, Succeeded, last.attempt)]
  }

  lemma {:induction false} RecordedIs(records: map<Key, Record>, planned: seq<Planned>)
    ensures forall p :: p in planned ==> Done(Recorded(records, planned), p.key)
    ensures forall k :: Done(records, k) ==> Done(Recorded(records, planned), k)
  {
    if planned != [] {
      var front, last := planned[..|planned| - 1], planned[|planned| - 1];
      RecordedIs(records, front);
      assert planned == front + [last];
    }
  }

  /** With the writer known, failures retried and nothing running, recording every planned job as
      succeeded leaves nothing to plan and opens every traffic gate, and the plan is not blocked. */
  lemma PlanThenNothing(e: Execution, s: Settings, records: map<Key, Record>, jobs: map<string, Job>,
                        instances: seq<Instance>)
    requires !WriterUnknown(s) && s.retryFailed
    requires forall k :: k in records ==> records[k].status != Running
    ensures forall n :: n in OrderedJobs(jobs, e.order) <==> n in jobs
    ensures var names := OrderedJobs(jobs, e.order);
            var after := Recorded(records, PlanFor(e, s, records, jobs, instances, names));
            && PlanFor(e, s, after, jobs, instances, names) == []
            && (forall c :: !Shut(Gates(e, s, after, jobs, instances, names), c))
    ensures !Unresolved(s, jobs)
  {
    OrderedMembers(jobs, e.order);
    var names := OrderedJobs(jobs, e.order);
    var planned := PlanFor(e, s, records, jobs, instances, names);
    var after := Recorded(records, planned);
    RecordedIs(records, planned);
    forall key | Wants(e, s, jobs, instances, names, key) ensures Done(after, key) {
      PlanMembers(e, s, records, jobs, instances, names, key);
    }
    WantedDone(e, s, after, jobs, instances, names);
    WantedOpen(e, s, after, jobs, instances, names);
  }

  lemma WantedOpen(e: Execution, s: Settings, records: map<Key, Record>, jobs: map<string, Job>,
                   instances: seq<Instance>,
                   names: seq<string>)
    requires forall n :: n in names ==> n in jobs
    requires forall key :: Wants(e, s, jobs, instances, names, key) ==> Done(records, key)
    ensures forall c :: !Shut(Gates(e, s, records, jobs, instances, names), c)
  {
    forall c ensures !Shut(Gates(e, s, records, jobs, instances, names), c) {
      GateShut(e, s, records, jobs, instances, names, c);
      forall n | n in names ensures !ShutsOwn(e, s, records, n, jobs[n], instances) {
        forall t | t in Targets(jobs[n], instances, s) ensures Done(records, KeyFor(e, s, n, t)) {
          assert Wants(e, s, jobs, instances, names, KeyFor(e, s, n, t));
        }
      }
    }
  }

  lemma WantedDone(e: Execution, s: Settings, records: map<Key, Record>, jobs: map<string, Job>,
                   instances: seq<Instance>,
                   names: seq<string>)
    requires forall n :: n in names ==> n in jobs
    requires forall key :: Wants(e, s, jobs, instances, names, key) ==> Done(records, key)
    ensures PlanFor(e, s, records, jobs, instances, names) == []
  {
    var planned := PlanFor(e, s, records, jobs, instances, names);
    forall p ensures p !in planned {
      PlanMembers(e, s, records, jobs, instances, names, p.key);
    }
    EmptyOrHead(planned);
  }

  // ---- over any run of rounds ----

  /** `CrashAfter`: the job has succeeded, but its last entry was not made and its record says that it is
      still running. `CrashBefore`: it has not succeeded, and its record says the same. */
  datatype Ending = Success | Failure | CrashBefore | CrashAfter

  /** The job table, and the keys of all jobs that have succeeded, entered or not, in order. */
  datatype Store = Store(records: map<Key, Record>, log: seq<Key>)

  function Started(st: Store, p: Planned): Store {
    st.(records := st.records[p.key := Record(p.key, Running, p.attempt)])
  }

  function Succeeds(st: Store, p: Planned): Store {
    st.(log := st.log + [p.key])
  }

  function Finished(st: Store, p: Planned, ok: bool): Store {
    if ok then Store(st.records[p.key := Record(p.key, Succeeded, p.attempt)], st.log + [p.key])
    else st.(records := st.records[p.key := Record(p.key, Failed, p.attempt)])
  }

  /** The loop of `runPendingJobs`: it ends at the first failure, or where it crashes. */
  function RunJobs(st: Store, planned: seq<Planned>, endings: seq<Ending>): Store
    decreases |planned|
  {
    if planned == [] || endings == [] then st
    else
      var begun := Started(st, planned[0]);
      match endings[0]
      case Success => RunJobs(Finished(begun, planned[0], true), planned[1..], endings[1..])
      case Failure => Finished(begun, planned[0], false)
      case CrashBefore => begun
      case CrashAfter => Succeeds(begun, planned[0])
  }

  datatype Round = Round(execution: Execution, settings: Settings, jobs: map<string, Job>, instances: seq<Instance>,
                         endings: seq<Ending>)

  function RoundPlan(st: Store, r: Round): seq<Planned> {
    OrderedMembers(r.jobs, r.execution.order);
    PlanFor(r.execution, r.settings, st.records, r.jobs, r.instances, OrderedJobs(r.jobs, r.execution.order))
  }

  function RunRounds(st: Store, rounds: seq<Round>): Store {
    if rounds == [] then st
    else
      var before := RunRounds(st, rounds[..|rounds| - 1]);
      RunJobs(before, RoundPlan(before, rounds[|rounds| - 1]), rounds[|rounds| - 1].endings)
  }

  /** No key has succeeded twice, the record of each that has succeeded forbids another run, and what the
      table has as succeeded has. */
  ghost predicate LogKept(st: Store) {
    && NoRepeat(st.log)
    && (forall k :: k in st.log ==> Settled(st.records, k))
    && (forall k :: Done(st.records, k) ==> k in st.log)
  }

  predicate Settled(records: map<Key, Record>, key: Key) {
    key in records && records[key].status in {Succeeded, Running}
  }

  lemma {:induction false} RunJobsKeeps(st: Store, planned: seq<Planned>, endings: seq<Ending>)
    requires LogKept(st) && NoRepeat(Keys(planned))
    requires forall p :: p in planned ==> p.key !in st.log
    ensures LogKept(RunJobs(st, planned, endings))
    decreases |planned|
  {
    if planned != [] && endings != [] {
      var p, rest := planned[0], planned[1..];
      assert p in planned;
      var begun := Started(st, p);
      assert LogKept(begun);
      PushDistinct(st.log, p.key);
      if endings[0] == Success {
        KeysTail(planned);
        forall q | q in rest ensures q.key !in st.log + [p.key] {
          var i :| 0 <= i < |rest| && rest[i] == q;
          assert Keys(planned)[i + 1] == q.key && Keys(planned)[0] == p.key;
        }
        RunJobsKeeps(Finished(begun, p, true), rest, endings[1..]);
      }
    }
  }

  lemma KeysTail(planned: seq<Planned>)
    requires planned != [] && NoRepeat(Keys(planned))
    ensures Keys(planned[1..]) == Keys(planned)[1..] && NoRepeat(Keys(planned[1..]))
  {}

  lemma RoundIsNew(st: Store, r: Round)
    requires LogKept(st)
    ensures forall p :: p in RoundPlan(st, r) ==> p.key !in st.log
  {
    OrderedMembers(r.jobs, r.execution.order);
    forall p | p in RoundPlan(st, r) ensures p.key !in st.log {
      PlanMembers(r.execution, r.settings, st.records, r.jobs, r.instances, OrderedJobs(r.jobs, r.execution.order),
                  p.key);
    }
  }

  /** Over any run of rounds, whatever each round plans from, fails at or crashes in, no job succeeds twice
      under one key, counting those whose success was never entered. */
  lemma {:induction false} NoKeySucceedsTwice(rounds: seq<Round>)
    requires forall i :: 0 <= i < |rounds| ==> DistinctIds(rounds[i].instances)
    ensures LogKept(RunRounds(Store(map[], []), rounds))
  {
    if rounds != [] {
      var front, last := rounds[..|rounds| - 1], rounds[|rounds| - 1];
      NoKeySucceedsTwice(front);
      var before := RunRounds(Store(map[], []), front);
      PlanKeysDistinct(last.execution, last.settings, before.records, last.jobs, last.instances);
      RoundIsNew(before, last);
      RunJobsKeeps(before, RoundPlan(before, last), last.endings);
    }
  }

  lemma {:induction false} RunJobsLeaves(st: Store, planned: seq<Planned>, endings: seq<Ending>, key: Key)
    requires forall p :: p in planned ==> p.key != key
    ensures var after := RunJobs(st, planned, endings);
            && (key in after.records <==> key in st.records) && (key in after.log <==> key in st.log)
            && (key in st.records ==> after.records[key] == st.records[key])
    decreases |planned|
  {
    if planned != [] && endings != [] {
      assert planned[0] in planned && forall p :: p in planned[1..] ==> p in planned;
      if endings[0] == Success {
        RunJobsLeaves(Finished(Started(st, planned[0]), planned[0], true), planned[1..], endings[1..], key);
      }
    }
  }

  /** The price: a job whose record says that it is running is never run again, in no round, whether or not it
      has succeeded. */
  lemma {:induction false} RunningStays(st: Store, rounds: seq<Round>, key: Key)
    requires key in st.records && st.records[key].status == Running
    ensures var after := RunRounds(st, rounds);
            key in after.records && after.records[key] == st.records[key] && (key in after.log <==> key in st.log)
  {
    if rounds != [] {
      var front, r := rounds[..|rounds| - 1], rounds[|rounds| - 1];
      RunningStays(st, front, key);
      var before := RunRounds(st, front);
      OrderedMembers(r.jobs, r.execution.order);
      PlanMembers(r.execution, r.settings, before.records, r.jobs, r.instances, OrderedJobs(r.jobs, r.execution.order),
                  key);
      RunJobsLeaves(before, RoundPlan(before, r), r.endings, key);
    }
  }

  /** When every ending is a success, all planned keys are done and nothing else has changed. */
  lemma {:induction false} AllSucceed(st: Store, planned: seq<Planned>, endings: seq<Ending>)
    requires NoRepeat(Keys(planned)) && |endings| == |planned| && AllSuccess(endings)
    ensures var after := RunJobs(st, planned, endings).records;
            && (forall p :: p in planned ==> Done(after, p.key))
            && (forall k :: k !in Keys(planned) ==>
                  (k in after <==> k in st.records) && (k in after ==> after[k] == st.records[k]))
    decreases |planned|
  {
    if planned != [] {
      var p, rest := planned[0], planned[1..];
      KeysTail(planned);
      var next := Finished(Started(st, p), p, true);
      AllSucceed(next, rest, endings[1..]);
      HeadNotInTail(Keys(planned));
      assert Keys(planned) == [p.key] + Keys(rest);
      assert forall k :: k in Keys(planned) <==> k == p.key || k in Keys(rest);
      forall q | q in planned ensures q == p || q in rest {}
    }
  }

  /** After a round in which everything planned has succeeded, the same round has nothing to plan, also
      when records of earlier rounds are still running. */
  lemma {:induction false} RoundThenNothing(st: Store, r: Round, endings: seq<Ending>)
    requires DistinctIds(r.instances) && r.settings.retryFailed
    requires |endings| == |RoundPlan(st, r)| && AllSuccess(endings)
    ensures RoundPlan(RunJobs(st, RoundPlan(st, r), endings), r) == []
  {
    var names, planned := OrderedJobs(r.jobs, r.execution.order), RoundPlan(st, r);
    OrderedMembers(r.jobs, r.execution.order);
    PlanKeysDistinct(r.execution, r.settings, st.records, r.jobs, r.instances);
    AllSucceed(st, planned, endings);
    var after := RunJobs(st, planned, endings);
    var again := RoundPlan(after, r);
    forall q ensures q !in again {
      if q in again {
        PlanMembers(r.execution, r.settings, after.records, r.jobs, r.instances, names, q.key);
        PlanMembers(r.execution, r.settings, st.records, r.jobs, r.instances, names, q.key);
        NotAmong(planned, q.key);
      }
    }
    EmptyOrHead(again);
  }

  lemma NotAmong(planned: seq<Planned>, key: Key)
    requires forall p :: p in planned ==> p.key != key
    ensures key !in Keys(planned)
  {
    forall i | 0 <= i < |planned| ensures Keys(planned)[i] != key { assert planned[i] in planned; }
  }

  /** What the loop does to the job whose turn it is. */
  function Ended(st: Store, p: Planned, e: Ending): Store {
    match e
    case Success => Finished(Started(st, p), p, true)
    case Failure => Finished(Started(st, p), p, false)
    case CrashBefore => Started(st, p)
    case CrashAfter => Succeeds(Started(st, p), p)
  }

  ghost predicate AllSuccess(endings: seq<Ending>) {
    forall i :: 0 <= i < |endings| ==> endings[i] == Success
  }

  lemma {:induction false} RunJobsStep(st: Store, planned: seq<Planned>, endings: seq<Ending>, e: Ending)
    requires AllSuccess(endings) && |endings| < |planned|
    ensures RunJobs(st, planned, endings + [e]) == Ended(RunJobs(st, planned, endings), planned[|endings|], e)
    decreases |endings|
  {
    if endings == [] {
      assert RunJobs(Ended(st, planned[0], e), planned[1..], []) == Ended(st, planned[0], e);
    } else {
      assert (endings + [e])[1..] == endings[1..] + [e];
      RunJobsStep(Finished(Started(st, planned[0]), planned[0], true), planned[1..], endings[1..], e);
    }
  }
}
