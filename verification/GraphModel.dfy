/** The component graph, the rows that the store keeps about its instances, and what convergence means. */
module GraphModel {
  import opened StringOrder
  import opened Options
  import opened Lists
  import Jobs

  datatype Status = Starting | Ready | Stopped | Failed | Draining | Removed

  /** One component instance. Its container goes by the instance id. */
  datatype Row = Row(id: string, component: string, slot: string, release: string, configuration: string,
                     replacementFor: Option<string>, status: Status)

  /** `exclusive`: the component is the single writer of a volume; `rolling`: its rollout strategy; `provisions`: its
      profile has a provisioning step. */
  datatype Component = Component(name: string, release: string, configuration: string, slots: seq<string>,
                                 exclusive: bool, rolling: bool, provisions: bool)

  datatype Service = Service(id: string, component: string, published: bool, hostNetwork: bool)

  datatype Endpoint = Endpoint(instance: string, release: string, configuration: string)

  /** What is to be converged to. The force options are the operator's; `commits` and `rollsBack` say whether
      the caller gave a callback that commits an external admission, and one that takes it back. */
  datatype Context = Context(
    application: string, site: string, release: string, configuration: string, writer: Option<string>,
    order: seq<string>, components: map<string, Component>, services: seq<Service>, jobs: map<string, Jobs.Job>,
    forceReplace: bool, forceComponents: seq<string>, forceIds: seq<string>,
    commits: bool, rollsBack: bool)

  /** What the execution planner guarantees of a plan that is not blocked. */
  ghost predicate Proper(ctx: Context) {
    && NoRepeat(ctx.order)
    && (forall n :: n in ctx.order ==> n in ctx.components && ctx.components[n].name == n)
    && (forall n :: n in ctx.order ==> NoRepeat(ctx.components[n].slots))
    && (forall i, j :: 0 <= i < j < |ctx.services| ==> ctx.services[i].id != ctx.services[j].id)
  }

  predicate Forced(ctx: Context, r: Row) {
    ctx.forceReplace || r.component in ctx.forceComponents || r.id in ctx.forceIds
  }

  predicate Outdated(c: Component, r: Row) {
    r.release != c.release || r.configuration != c.configuration || r.slot !in c.slots
  }

  predicate IsStale(ctx: Context, c: Component, r: Row) {
    Forced(ctx, r) || Outdated(c, r)
  }

  /** The component of this name in the graph. */
  predicate InGraph(ctx: Context, c: Component) {
    c.name in ctx.components && ctx.components[c.name] == c
  }

  /** Instances of the component are replaced exclusively: the old ones stop before the new ones begin. */
  predicate ReplacesExclusively(c: Component) {
    c.exclusive || !c.rolling
  }

  /** An outdated or forced live instance of a component that is replaced exclusively: the only ones to stop. */
  predicate MustStop(ctx: Context, r: Row) {
    && r.component in ctx.components && r.status != Removed
    && IsStale(ctx, ctx.components[r.component], r) && ReplacesExclusively(ctx.components[r.component])
  }

  predicate IsCandidate(ctx: Context, c: Component, slot: string, r: Row) {
    !Forced(ctx, r) && r.slot == slot && r.release == c.release && r.configuration == c.configuration
  }

  type Rows = map<string, Row>

  ghost predicate ProperRows(rows: Rows) {
    forall id :: id in rows ==> rows[id].id == id
  }

  function RowsOf(rows: Rows, ids: seq<string>): (r: seq<Row>)
    requires forall id :: id in ids ==> id in rows
    ensures |r| == |ids| && forall i :: 0 <= i < |ids| ==> r[i] == rows[ids[i]]
  {
    seq(|ids|, i requires 0 <= i < |ids| => assert ids[i] in ids; rows[ids[i]])
  }

  /** `listInstances`; the store promises no order, here it is that of the ids. */
  function Listed(rows: Rows): seq<Row> {
    SortedMembers(rows.Keys);
    RowsOf(rows, Sorted(rows.Keys))
  }

  lemma ListedIs(rows: Rows)
    ensures forall x :: x in Listed(rows) <==> exists id :: id in rows && rows[id] == x
  {
    SortedMembers(rows.Keys);
    var ids := Sorted(rows.Keys);
    forall id | id in rows ensures rows[id] in Listed(rows) {
      assert id in ids;
      var i :| 0 <= i < |ids| && ids[i] == id;
      assert Listed(rows)[i] == rows[id];
    }
  }

  /** The rows of a component that are not removed. */
  function Existing(list: seq<Row>, component: string): seq<Row> {
    if list == [] then []
    else
      var rest := Existing(list[1..], component);
      if list[0].component == component && list[0].status != Removed then [list[0]] + rest else rest
  }

  lemma {:induction false} ExistingIs(list: seq<Row>, component: string)
    ensures forall x :: x in Existing(list, component) <==> x in list && x.component == component && x.status != Removed
  {
    if list != [] {
      ExistingIs(list[1..], component);
      assert forall x :: x in list <==> x == list[0] || x in list[1..];
    }
  }

  function StaleOf(ctx: Context, c: Component, list: seq<Row>): seq<Row> {
    if list == [] then []
    else
      var rest := StaleOf(ctx, c, list[1..]);
      if IsStale(ctx, c, list[0]) then [list[0]] + rest else rest
  }

  lemma {:induction false} StaleIs(ctx: Context, c: Component, list: seq<Row>)
    ensures forall x :: x in StaleOf(ctx, c, list) <==> x in list && IsStale(ctx, c, x)
  {
    if list != [] {
      StaleIs(ctx, c, list[1..]);
      assert forall x :: x in list <==> x == list[0] || x in list[1..];
    }
  }

  /** What new instances of the component are recorded to replace: the first of the outdated ones. */
  function FirstId(stale: seq<Row>): Option<string> {
    if stale == [] then None else Some(stale[0].id)
  }

  /** What is created from place `from` on is recorded as the replacement for this instance. */
  ghost predicate ReplacementsFor(created: seq<Row>, from: nat, replaced: Option<string>) {
    forall i :: from <= i < |created| ==> created[i].replacementFor == replaced
  }

  function CandidatesOf(ctx: Context, c: Component, slot: string, list: seq<Row>): seq<Row> {
    if list == [] then []
    else
      var rest := CandidatesOf(ctx, c, slot, list[1..]);
      if IsCandidate(ctx, c, slot, list[0]) then [list[0]] + rest else rest
  }

  lemma {:induction false} CandidatesAre(ctx: Context, c: Component, slot: string, list: seq<Row>)
    ensures forall x :: x in CandidatesOf(ctx, c, slot, list) <==> x in list && IsCandidate(ctx, c, slot, x)
  {
    if list != [] {
      CandidatesAre(ctx, c, slot, list[1..]);
      assert forall x :: x in list <==> x == list[0] || x in list[1..];
    }
  }

  function Longest(ids: seq<string>): (n: nat)
    ensures forall id :: id in ids ==> |id| <= n
  {
    if ids == [] then 0
    else
      var rest := Longest(ids[1..]);
      assert forall id :: id in ids ==> id == ids[0] || id in ids[1..];
      if |ids[0]| > rest then |ids[0]| else rest
  }

  /** `randomUUID`: an id that is not in use. */
  function FreshId(used: set<string>): (id: string)
    ensures id !in used
  {
    SortedMembers(used);
    seq(Longest(Sorted(used)) + 1, _ => 'x')
  }

  // ---- how rows change ----

  /** The same row but for its status. */
  predicate SameBut(a: Row, b: Row) {
    a.(status := b.status) == b
  }

  /** No row is lost, of a row only the status changes, and new rows are kept under their ids. */
  ghost predicate Evolved(before: Rows, after: Rows) {
    && (forall id :: id in before ==> id in after && SameBut(after[id], before[id]))
    && (forall id :: id in after && id !in before ==> after[id].id == id)
  }

  /** Nothing but the row of `id` has changed or appeared. */
  ghost predicate RowChanged(before: Rows, after: Rows, id: string) {
    id in after && after == before[id := after[id]]
  }

  /** Rows of other components are as they were. */
  ghost predicate OthersKept(before: Rows, after: Rows, component: string) {
    && (forall id :: id in before && before[id].component != component ==> id in after && after[id] == before[id])
    && (forall id :: id in after && id !in before ==> after[id].component == component)
  }

  /** Only rows of this component and slot have changed status or appeared. */
  ghost predicate OnlySlot(before: Rows, after: Rows, component: string, slot: string) {
    && Evolved(before, after)
    && (forall id :: id in after && !(id in before && after[id] == before[id]) ==>
          after[id].component == component && after[id].slot == slot)
  }

  lemma SlotRowChanged(before: Rows, middle: Rows, after: Rows, id: string, component: string, slot: string)
    requires OnlySlot(before, middle, component, slot) && RowChanged(middle, after, id)
    requires after[id].component == component && after[id].slot == slot && after[id].id == id
    requires id in middle ==> SameBut(after[id], middle[id])
    ensures OnlySlot(before, after, component, slot)
  {}

  lemma AddThenChange(before: Rows, middle: Rows, after: Rows, id: string)
    requires id in middle && middle == before[id := middle[id]] && RowChanged(middle, after, id)
    ensures RowChanged(before, after, id)
  {}

  // ---- what one run shares between its steps ----

  /** A container that Docker was asked to create, and how many stops it had been asked for by then. */
  datatype Creation = Creation(id: string, after: nat)

  /** Everything that Docker has been asked to do, in order. */
  datatype Asked = Asked(stops: seq<string>, starts: seq<string>, removals: seq<string>, creations: seq<Creation>,
                         jobs: seq<Jobs.Key>)

  datatype Command = Provision | Verify

  /** What Docker has said about a container: what an inspection found, whether it shows a port for a service, and
      whether a start, a health probe or a command of the profile succeeded. A call that throws has not. */
  datatype Check =
    | Inspected(id: string, present: bool, running: bool)
    | Bound(id: string, service: string, found: bool)
    | Started(id: string, ok: bool)
    | Probed(id: string, healthy: bool)
    | Ran(id: string, command: Command, passed: bool)

  /** The rows, the containers, the instances created in this run, the ids of instances that failed before
      they were counted as created, what Docker was asked, and what it said. */
  datatype Pool = Pool(rows: Rows, containers: set<string>, created: seq<Row>, leftover: set<string>, asked: Asked,
                       checks: seq<Check>)

  /** No container is gone, none was sent for removal, and every new row and container is accounted for. */
  ghost predicate Grown(b: Pool, a: Pool) {
    && b.containers <= a.containers && b.created <= a.created && b.leftover <= a.leftover
    && a.asked.removals == b.asked.removals && b.asked.starts <= a.asked.starts
    && (forall i :: |b.created| <= i < |a.created| ==> IsNew(b, a, a.created[i].id))
    && (forall id :: id in a.rows ==> id in b.rows || id in a.leftover || HasId(a.created, |b.created|, id))
    && (forall id :: id in a.containers ==>
          id in b.containers || id in a.leftover || HasId(a.created, |b.created|, id))
  }

  ghost predicate IsNew(b: Pool, a: Pool, id: string) {
    id !in b.rows && id !in b.containers && id in a.rows
  }

  ghost predicate HasId(created: seq<Row>, from: nat, id: string) {
    exists i :: from <= i < |created| && created[i].id == id
  }

  lemma CreatedStill(before: seq<Row>, after: seq<Row>, from: nat, id: string)
    requires before <= after
    ensures HasId(before, from, id) ==> HasId(after, from, id)
    ensures from <= |before| && HasId(after, |before|, id) ==> HasId(after, from, id)
  {
    if HasId(before, from, id) {
      var i :| from <= i < |before| && before[i].id == id;
      assert after[i] == before[i];
    }
    if from <= |before| && HasId(after, |before|, id) {
      var i :| |before| <= i < |after| && after[i].id == id;
    }
  }

  /** Docker was asked for starts and creations only, for the latter after all the stops so far. */
  ghost predicate AskedMore(b: Asked, a: Asked) {
    && a.stops == b.stops && a.removals == b.removals && a.jobs == b.jobs
    && b.starts <= a.starts && b.creations <= a.creations
    && forall i :: |b.creations| <= i < |a.creations| ==> a.creations[i].after == |b.stops|
  }

  lemma AskedMoreThen(a: Asked, b: Asked, c: Asked)
    requires AskedMore(a, b) && AskedMore(b, c)
    ensures AskedMore(a, c)
  {
    forall i | |a.creations| <= i < |c.creations| ensures c.creations[i].after == |a.stops| {
      if i < |b.creations| { assert c.creations[i] == b.creations[i]; }
    }
  }

  lemma GrownThen(a: Pool, b: Pool, c: Pool)
    requires Grown(a, b) && Grown(b, c) && Evolved(a.rows, b.rows) && Evolved(b.rows, c.rows)
    ensures Grown(a, c) && Evolved(a.rows, c.rows)
  {
    forall id ensures HasId(b.created, |a.created|, id) ==> HasId(c.created, |a.created|, id) {
      CreatedStill(b.created, c.created, |a.created|, id);
    }
    forall id ensures HasId(c.created, |b.created|, id) ==> HasId(c.created, |a.created|, id) {
      CreatedStill(b.created, c.created, |a.created|, id);
    }
    forall i | |a.created| <= i < |c.created| ensures IsNew(a, c, c.created[i].id) {
      if i < |b.created| { assert c.created[i] == b.created[i] && IsNew(a, b, b.created[i].id); }
      else { assert IsNew(b, c, c.created[i].id); }
    }
  }

  /** The instance selected for a slot is in the store as given. */
  ghost predicate Selected(p: Pool, c: Component, slot: string, r: Row) {
    Fits(c, r) && r.slot == slot && r.id in p.rows && p.rows[r.id] == r && r.id in p.containers
  }

  /** What is created from place `from` on is among the selected. */
  ghost predicate CreatedAmong(created: seq<Row>, from: nat, selected: seq<Row>) {
    forall i :: from <= i < |created| ==> created[i] in selected
  }

  /** Every row that was ready and has its container is as it was, but for the stopped ones. */
  ghost predicate ReadyKept(before: Rows, after: Rows, containers: set<string>, stopped: seq<Row>) {
    forall id :: id in before && IsReady(before, containers, id) ==>
      SameRow(before, after, id) || HasId(stopped, 0, id)
  }

  ghost predicate IsReady(rows: Rows, containers: set<string>, id: string) {
    id in rows && rows[id].status == Ready && id in containers
  }

  ghost predicate SameRow(before: Rows, after: Rows, id: string) {
    id in before && id in after && after[id] == before[id]
  }

  lemma ReadyKeptThen(a: Rows, b: Rows, c: Rows, had: set<string>, have: set<string>, stopped: seq<Row>, more: seq<Row>)
    requires ReadyKept(a, b, had, stopped) && ReadyKept(b, c, have, more) && had <= have
    ensures ReadyKept(a, c, had, stopped + more)
  {
    forall id | id in a && IsReady(a, had, id) ensures SameRow(a, c, id) || HasId(stopped + more, 0, id) {
      if i :| 0 <= i < |stopped| && stopped[i].id == id {
        assert (stopped + more)[i].id == id;
      } else {
        assert SameRow(a, b, id) && IsReady(b, have, id);
        if i :| 0 <= i < |more| && more[i].id == id { assert (stopped + more)[|stopped| + i].id == id; }
      }
    }
  }

  ghost predicate SlotStep(b: Pool, a: Pool, c: Component, slot: string, ok: bool, r: Row) {
    && OnlySlot(b.rows, a.rows, c.name, slot) && Grown(b, a) && |a.leftover| <= |b.leftover| + 1
    && AskedMore(b.asked, a.asked) && ReadyKept(b.rows, a.rows, b.containers, [])
    && (ok ==> Selected(a, c, slot, r) && a.leftover == b.leftover && CreatedAmong(a.created, |b.created|, [r]))
  }

  // ---- what is selected ----

  /** A ready instance of its component, with the current digests, in one of the component's slots. */
  predicate Fits(c: Component, r: Row) {
    && r.component == c.name && r.slot in c.slots && r.release == c.release && r.configuration == c.configuration
    && r.status == Ready
  }

  /** The selected instances are in the store as they are listed, and their containers exist. */
  ghost predicate InStore(rows: Rows, containers: set<string>, selected: seq<Row>) {
    forall i :: 0 <= i < |selected| ==>
      selected[i].id in rows && rows[selected[i].id] == selected[i] && selected[i].id in containers
  }

  /** One fitting instance for each of the slots, in their order. */
  ghost predicate FillsSlots(c: Component, slots: seq<string>, selected: seq<Row>) {
    |selected| == |slots| && forall i :: 0 <= i < |slots| ==> Fits(c, selected[i]) && selected[i].slot == slots[i]
  }

  /** What one component's convergence does: only its own rows change, nothing is lost, and the first
      slots are filled. */
  ghost predicate ComponentStep(b: Pool, a: Pool, c: Component, slots: seq<string>, selected: seq<Row>) {
    && Framed(b, a, c) && a.leftover == b.leftover
    && FillsSlots(c, slots, selected) && InStore(a.rows, a.containers, selected)
    && CreatedAmong(a.created, |b.created|, selected)
  }

  /** What a component's convergence leaves alone, also when it fails. */
  ghost predicate Framed(b: Pool, a: Pool, c: Component) {
    Evolved(b.rows, a.rows) && OthersKept(b.rows, a.rows, c.name) && Grown(b, a)
    && |a.leftover| <= |b.leftover| + 1
  }

  ghost predicate StillThere(rows: Rows, existing: seq<Row>, component: string) {
    forall r :: r in existing ==> r.id in rows && SameBut(rows[r.id], r) && r.component == component
  }

  ghost predicate AreRows(rows: Rows, list: seq<Row>, component: string) {
    forall r :: r in list ==> r.id in rows && rows[r.id] == r && r.component == component
  }

  /** Outdated or forced, and live. */
  ghost predicate AreStale(ctx: Context, c: Component, list: seq<Row>) {
    forall r :: r in list ==> IsStale(ctx, c, r) && r.status != Removed
  }

  lemma ExistingRows(ctx: Context, c: Component, rows: Rows)
    requires ProperRows(rows)
    ensures DistinctRows(Existing(Listed(rows), c.name))
    ensures AreStale(ctx, c, StaleOf(ctx, c, Existing(Listed(rows), c.name)))
    ensures AreRows(rows, Existing(Listed(rows), c.name), c.name)
    ensures AreRows(rows, StaleOf(ctx, c, Existing(Listed(rows), c.name)), c.name)
    ensures DistinctRows(StaleOf(ctx, c, Existing(Listed(rows), c.name)))
  {
    ListedIs(rows);
    ExistingIs(Listed(rows), c.name);
    StaleIs(ctx, c, Existing(Listed(rows), c.name));
    ListedDistinct(rows);
    ExistingDistinct(Listed(rows), c.name);
    StaleDistinct(ctx, c, Existing(Listed(rows), c.name));
  }

  lemma ListedDistinct(rows: Rows)
    requires ProperRows(rows)
    ensures DistinctRows(Listed(rows))
  {
    SortedMembers(rows.Keys);
    var ids := Sorted(rows.Keys);
    forall i, j | 0 <= i < j < |ids| ensures Listed(rows)[i].id != Listed(rows)[j].id {
      assert ids[i] in ids && ids[j] in ids;
    }
  }

  lemma FirstDistinct(list: seq<Row>, rest: seq<Row>)
    requires list != [] && DistinctRows(list) && DistinctRows(rest) && forall r :: r in rest ==> r in list[1..]
    ensures DistinctRows([list[0]] + rest)
  {
    forall j | 0 <= j < |rest| ensures rest[j].id != list[0].id {
      assert rest[j] in list[1..];
      var k :| 0 <= k < |list[1..]| && list[1..][k] == rest[j];
      assert list[k + 1] == rest[j];
    }
  }

  lemma {:induction false} ExistingDistinct(list: seq<Row>, component: string)
    requires DistinctRows(list)
    ensures DistinctRows(Existing(list, component))
  {
    if list != [] {
      ExistingDistinct(list[1..], component);
      ExistingIs(list[1..], component);
      FirstDistinct(list, Existing(list[1..], component));
    }
  }

  lemma {:induction false} StaleDistinct(ctx: Context, c: Component, list: seq<Row>)
    requires DistinctRows(list)
    ensures DistinctRows(StaleOf(ctx, c, list))
  {
    if list != [] {
      StaleDistinct(ctx, c, list[1..]);
      StaleIs(ctx, c, list[1..]);
      FirstDistinct(list, StaleOf(ctx, c, list[1..]));
    }
  }

  lemma {:induction false} CandidatesDistinct(ctx: Context, c: Component, slot: string, list: seq<Row>)
    requires DistinctRows(list)
    ensures DistinctRows(CandidatesOf(ctx, c, slot, list))
  {
    if list != [] {
      CandidatesDistinct(ctx, c, slot, list[1..]);
      CandidatesAre(ctx, c, slot, list[1..]);
      FirstDistinct(list, CandidatesOf(ctx, c, slot, list[1..]));
    }
  }

  lemma AreStillThere(before: Rows, after: Rows, list: seq<Row>, component: string)
    requires AreRows(before, list, component) && Evolved(before, after)
    ensures StillThere(after, list, component)
  {}

  lemma CandidateRows(ctx: Context, c: Component, slot: string, rows: Rows, existing: seq<Row>)
    requires StillThere(rows, existing, c.name)
    ensures forall r :: r in CandidatesOf(ctx, c, slot, existing) ==> CandidateRow(ctx, rows, c, slot, r)
  {
    CandidatesAre(ctx, c, slot, existing);
  }

  /** `r` is a candidate for the slot, and its row has at most another status by now. */
  predicate CandidateRow(ctx: Context, rows: Rows, c: Component, slot: string, r: Row) {
    && r.id in rows && SameBut(rows[r.id], r) && !Forced(ctx, r)
    && r.component == c.name && r.slot == slot && r.release == c.release && r.configuration == c.configuration
  }

  lemma NextSlot(b: Pool, m: Pool, a: Pool, c: Component, i: nat, selected: seq<Row>, ready: Row)
    requires i < |c.slots| && NoRepeat(c.slots)
    requires ComponentStep(b, m, c, c.slots[..i], selected) && SlotStep(m, a, c, c.slots[i], true, ready)
    ensures ComponentStep(b, a, c, c.slots[..i + 1], selected + [ready])
  {
    GrownThen(b, m, a);
    var more := selected + [ready];
    forall j | 0 <= j < |more|
      ensures more[j].id in a.rows && a.rows[more[j].id] == more[j] && more[j].id in a.containers {
      if j < i {
        assert more[j] == selected[j] && m.rows[selected[j].id] == selected[j];
        assert selected[j].slot == c.slots[j] != c.slots[i];
      }
    }
    forall j | 0 <= j < |c.slots[..i + 1]| ensures Fits(c, more[j]) && more[j].slot == c.slots[..i + 1][j] {
      if j < i { assert more[j] == selected[j] && c.slots[..i][j] == c.slots[j]; }
    }
    OthersThen(b.rows, m.rows, a.rows, c, c.slots[i]);
    AmongMore(b, m, a, selected, [ready]);
  }

  lemma AmongMore(b: Pool, m: Pool, a: Pool, selected: seq<Row>, more: seq<Row>)
    requires b.created <= m.created <= a.created
    requires CreatedAmong(m.created, |b.created|, selected) && CreatedAmong(a.created, |m.created|, more)
    ensures CreatedAmong(a.created, |b.created|, selected + more)
  {
    forall i | |b.created| <= i < |a.created| ensures a.created[i] in selected + more {
      if i < |m.created| { assert a.created[i] == m.created[i]; }
    }
  }

  lemma OthersThen(b: Rows, m: Rows, a: Rows, c: Component, slot: string)
    requires Evolved(b, m) && OthersKept(b, m, c.name) && OnlySlot(m, a, c.name, slot)
    ensures OthersKept(b, a, c.name)
  {}

  /** The slots that failed leave the same frame. */
  lemma FailedSlot(b: Pool, m: Pool, a: Pool, c: Component, slot: string)
    requires Framed(b, m, c) && OnlySlot(m.rows, a.rows, c.name, slot) && Grown(m, a)
    requires m.leftover == b.leftover && |a.leftover| <= |m.leftover| + 1
    ensures Framed(b, a, c)
  {
    GrownThen(b, m, a);
    OthersThen(b.rows, m.rows, a.rows, c, slot);
  }

  // ---- nothing to do ----

  ghost predicate Live(rows: Rows, id: string) {
    id in rows && rows[id].status != Removed
  }

  predicate SamePlace(a: Row, b: Row) {
    a.component == b.component && a.slot == b.slot
  }

  /** Each slot of the component has exactly one live row, which fits and whose container exists, and
      nothing is to be replaced. */
  ghost predicate Settled(ctx: Context, c: Component, rows: Rows, containers: set<string>) {
    && (forall id :: Live(rows, id) && rows[id].component == c.name ==>
          Fits(c, rows[id]) && !Forced(ctx, rows[id]) && id in containers)
    && (forall slot :: slot in c.slots ==>
          exists id :: Live(rows, id) && rows[id].component == c.name && rows[id].slot == slot)
    && (forall id, other :: Live(rows, id) && Live(rows, other) && SamePlace(rows[id], rows[other]) ==>
          rows[id].component == c.name ==> id == other)
  }

  ghost predicate Idle(ctx: Context, c: Component, rows: Rows, containers: set<string>, existing: seq<Row>) {
    Settled(ctx, c, rows, containers) && existing == Existing(Listed(rows), c.name) && ProperRows(rows)
  }

  lemma SettledNoStale(ctx: Context, c: Component, rows: Rows, containers: set<string>)
    requires Settled(ctx, c, rows, containers) && ProperRows(rows)
    ensures StaleOf(ctx, c, Existing(Listed(rows), c.name)) == []
  {
    ListedIs(rows);
    ExistingIs(Listed(rows), c.name);
    StaleIs(ctx, c, Existing(Listed(rows), c.name));
    var stale := StaleOf(ctx, c, Existing(Listed(rows), c.name));
    forall r ensures r !in stale {
      if r in Listed(rows) && r.component == c.name && r.status != Removed {
        var id :| id in rows && rows[id] == r;
        assert Live(rows, id);
      }
    }
    EmptyOrHead(stale);
  }

  lemma SettledCandidate(ctx: Context, c: Component, rows: Rows, containers: set<string>, slot: string)
    requires Settled(ctx, c, rows, containers) && ProperRows(rows) && slot in c.slots
    ensures var candidates := CandidatesOf(ctx, c, slot, Existing(Listed(rows), c.name));
            candidates != [] && candidates[0].id in containers && candidates[0].status == Ready
            && candidates[0].id in rows && rows[candidates[0].id] == candidates[0]
  {
    ListedIs(rows);
    ExistingIs(Listed(rows), c.name);
    CandidatesAre(ctx, c, slot, Existing(Listed(rows), c.name));
    var candidates := CandidatesOf(ctx, c, slot, Existing(Listed(rows), c.name));
    var id :| Live(rows, id) && rows[id].component == c.name && rows[id].slot == slot;
    assert rows[id] in candidates;
    var first := candidates[0];
    assert first in candidates;
    var other :| other in rows && rows[other] == first;
    assert Live(rows, other);
  }

  /** What the components before place `k` of the order have selected. */
  ghost predicate FillsOrder(ctx: Context, k: nat, current: seq<Row>)
    requires k <= |ctx.order| && forall n :: n in ctx.order ==> n in ctx.components
  {
    if k == 0 then current == []
    else
      var c := ctx.components[ctx.order[k - 1]];
      && |current| >= |c.slots|
      && FillsSlots(c, c.slots, current[|current| - |c.slots|..])
      && FillsOrder(ctx, k - 1, current[..|current| - |c.slots|])
  }

  /** The rows of components that are not among `names` are as they were. */
  ghost predicate Untouched(before: Rows, after: Rows, names: seq<string>) {
    && (forall id :: id in before && before[id].component !in names ==> id in after && after[id] == before[id])
    && (forall id :: id in after && after[id].component !in names ==> id in before && before[id] == after[id])
  }

  ghost predicate Named(current: seq<Row>, names: seq<string>) {
    forall r :: r in current ==> r.component in names
  }

  /** The state of a run after the components before place `k`. */
  ghost predicate OrderStep(b: Pool, a: Pool, ctx: Context, k: nat, current: seq<Row>)
    requires k <= |ctx.order| && forall n :: n in ctx.order ==> n in ctx.components
  {
    && Evolved(b.rows, a.rows) && Grown(b, a) && a.leftover == b.leftover
    && Untouched(b.rows, a.rows, ctx.order[..k])
    && FillsOrder(ctx, k, current) && Named(current, ctx.order[..k]) && InStore(a.rows, a.containers, current)
    && CreatedAmong(a.created, |b.created|, current)
  }

  lemma NextComponent(b: Pool, m: Pool, a: Pool, ctx: Context, k: nat, current: seq<Row>, selected: seq<Row>)
    requires Proper(ctx) && k < |ctx.order| && OrderStep(b, m, ctx, k, current)
    requires var c := ctx.components[ctx.order[k]]; ComponentStep(m, a, c, c.slots, selected)
    ensures OrderStep(b, a, ctx, k + 1, current + selected)
  {
    var c, all := ctx.components[ctx.order[k]], current + selected;
    assert ctx.order[..k + 1] == ctx.order[..k] + [ctx.order[k]];
    GrownThen(b, m, a);
    assert all[|all| - |c.slots|..] == selected && all[..|all| - |c.slots|] == current;
    NamedMore(current, selected, c, ctx.order[..k]);
    StoreMore(m, a, c, current, selected, ctx.order[..k]);
    AmongMore(b, m, a, current, selected);
    UntouchedMore(b.rows, m.rows, a.rows, c.name, ctx.order[..k]);
  }

  lemma NamedMore(current: seq<Row>, selected: seq<Row>, c: Component, names: seq<string>)
    requires Named(current, names) && FillsSlots(c, c.slots, selected)
    ensures Named(current + selected, names + [c.name])
  {}

  lemma StoreMore(m: Pool, a: Pool, c: Component, current: seq<Row>, selected: seq<Row>, names: seq<string>)
    requires InStore(m.rows, m.containers, current) && Named(current, names) && c.name !in names
    requires OthersKept(m.rows, a.rows, c.name) && m.containers <= a.containers
    requires InStore(a.rows, a.containers, selected)
    ensures InStore(a.rows, a.containers, current + selected)
  {
    forall i | 0 <= i < |current|
      ensures current[i].id in a.rows && a.rows[current[i].id] == current[i] && current[i].id in a.containers {
      assert current[i] in current;
    }
  }

  lemma UntouchedMore(b: Rows, m: Rows, a: Rows, component: string, names: seq<string>)
    requires Untouched(b, m, names) && OthersKept(m, a, component)
    requires Evolved(m, a)
    ensures Untouched(b, a, names + [component])
  {}

  /** What the failing component leaves of the frame of the run. */
  lemma FailedComponent(b: Pool, m: Pool, a: Pool, ctx: Context, k: nat, current: seq<Row>, c: Component)
    requires k <= |ctx.order| && forall n :: n in ctx.order ==> n in ctx.components
    requires OrderStep(b, m, ctx, k, current) && Framed(m, a, c)
    ensures Evolved(b.rows, a.rows) && Grown(b, a) && |a.leftover| <= |b.leftover| + 1
  {
    GrownThen(b, m, a);
  }

  // ---- what is stopped ----

  function Ids(list: seq<Row>): seq<string> {
    seq(|list|, i requires 0 <= i < |list| => list[i].id)
  }

  lemma IdsAppend(a: seq<Row>, b: seq<Row>)
    ensures Ids(a + b) == Ids(a) + Ids(b)
  {}

  lemma IdsNext(list: seq<Row>, i: nat)
    requires i < |list|
    ensures Ids(list[..i + 1]) == Ids(list[..i]) + [list[i].id]
  {}

  /** The instance at which the stopping ended early: its stop or its patch failed, and it is not recorded.
      It is down when its stop succeeded, so that the store refused the patch. */
  datatype Halt = Halt(row: Row, down: bool)

  function HaltedIds(halted: Option<Halt>): seq<string> {
    if halted.Some? then [halted.value.row.id] else []
  }

  /** The rows after the first `n` instances of the list have been patched to this status. */
  function MarkRows(rows: Rows, list: seq<Row>, n: nat, status: Status): Rows
    requires n <= |list|
  {
    if n == 0 then rows
    else
      var before, id := MarkRows(rows, list, n - 1, status), list[n - 1].id;
      if id in before then before[id := before[id].(status := status)] else before
  }

  /** The rows after the first `n` instances have been stopped and patched. */
  function StopRows(rows: Rows, stale: seq<Row>, n: nat): Rows
    requires n <= |stale|
  {
    MarkRows(rows, stale, n, Stopped)
  }

  function HaltAt(stale: seq<Row>, n: nat, down: bool): Option<Halt>
    requires n <= |stale|
  {
    if n == |stale| then None else Some(Halt(stale[n], down))
  }

  /** Of the instances that Docker was asked to stop, exactly the one whose stop or patch failed is not
      recorded for a restart. Its row is as before. */
  lemma LeftUnrecorded(rows: Rows, stale: seq<Row>, n: nat, down: bool)
    requires n <= |stale| && DistinctRows(stale) && forall r :: r in stale ==> r.id in rows && rows[r.id] == r
    ensures var asked := Ids(stale[..n]) + HaltedIds(HaltAt(stale, n, down));
            forall i :: 0 <= i < |stale| ==> (stale[i].id in asked && stale[i] !in stale[..n] <==> i == n)
    ensures StopRows(rows, stale, n).Keys == rows.Keys
    ensures forall i :: n <= i < |stale| ==> StopRows(rows, stale, n)[stale[i].id] == stale[i]
    ensures forall i :: 0 <= i < n ==> StopRows(rows, stale, n)[stale[i].id] == stale[i].(status := Stopped)
  {
    StopRowsAre(rows, stale, n);
    var asked := Ids(stale[..n]) + HaltedIds(HaltAt(stale, n, down));
    forall i | 0 <= i < |stale| ensures stale[i].id in asked && stale[i] !in stale[..n] <==> i == n {
      if i < n { assert stale[..n][i] == stale[i]; }
      if i == n { assert asked[n] == stale[n].id; }
      forall j | 0 <= j < |asked| && i > n ensures asked[j] != stale[i].id {
        assert j < n ==> asked[j] == stale[j].id;
      }
    }
  }

  lemma {:induction false} StopRowsAre(rows: Rows, stale: seq<Row>, n: nat)
    requires n <= |stale| && DistinctRows(stale) && forall r :: r in stale ==> r.id in rows && rows[r.id] == r
    ensures StopRows(rows, stale, n).Keys == rows.Keys
    ensures forall i :: n <= i < |stale| ==> StopRows(rows, stale, n)[stale[i].id] == stale[i]
    ensures forall i :: 0 <= i < n ==> StopRows(rows, stale, n)[stale[i].id] == stale[i].(status := Stopped)
    ensures ChangedOnly(rows, StopRows(rows, stale, n), stale[..n])
  {
    forall i | 0 <= i < |stale| ensures stale[i].id in rows && rows[stale[i].id] == stale[i] {
      assert stale[i] in stale;
    }
    if n > 0 {
      StopRowsAre(rows, stale, n - 1);
      assert stale[..n] == stale[..n - 1] + [stale[n - 1]];
      assert stale[n - 1] in stale[..n];
    }
  }

  /** The stopped instances are rows of these components that the run has found, as it found them, each once and
      each to be stopped. */
  ghost predicate StoppedOk(ctx: Context, start: Rows, stopped: seq<Row>, names: seq<string>) {
    DistinctRows(stopped) && forall i :: 0 <= i < |stopped| ==> FoundIn(ctx, start, stopped[i], names)
  }

  ghost predicate FoundIn(ctx: Context, start: Rows, r: Row, names: seq<string>) {
    r.id in start && start[r.id] == r && r.component in names && MustStop(ctx, r)
  }

  /** What was asked to stop since `before` is recorded in order, but for the instance that ended it. */
  ghost predicate StopLog(before: seq<string>, from: nat, stops: seq<string>, stopped: seq<Row>, halted: Option<Halt>) {
    from <= |stopped| && stops == before + Ids(stopped[from..]) + HaltedIds(halted)
  }

  lemma StopLogThen(a: seq<string>, b: seq<string>, c: seq<string>, before: seq<Row>, after: seq<Row>,
                    halted: Option<Halt>)
    requires StopLog(a, 0, b, before, None) && before <= after && StopLog(b, |before|, c, after, halted)
    ensures StopLog(a, 0, c, after, halted)
  {
    assert before[0..] == before && after[0..] == after;
    assert after == before + after[|before|..];
    IdsAppend(before, after[|before|..]);
  }

  /** The halted instance was found as it is given, is not recorded, and its row has not changed. */
  ghost predicate HaltKept(ctx: Context, start: Rows, rows: Rows, stopped: seq<Row>, halted: Option<Halt>,
                           names: seq<string>) {
    halted.Some? ==>
      var r := halted.value.row;
      FoundIn(ctx, start, r, names) && r.id in rows && rows[r.id] == r && r.id !in Ids(stopped)
  }

  /** What one component adds to the stopped instances are its own rows, each to be stopped, and so is the halted
      one. */
  ghost predicate StoppedFrom(ctx: Context, rows: Rows, component: string, before: seq<Row>, after: seq<Row>,
                              halted: Option<Halt>) {
    && before <= after && DistinctRows(after[|before|..])
    && (forall i :: |before| <= i < |after| ==> IsReplaced(ctx, rows, after[i], component))
    && (halted.Some? ==>
          IsReplaced(ctx, rows, halted.value.row, component) && halted.value.row.id !in Ids(after[|before|..]))
  }

  ghost predicate IsReplaced(ctx: Context, rows: Rows, r: Row, component: string) {
    IsRowOf(rows, r, component) && MustStop(ctx, r)
  }

  ghost predicate IsRowOf(rows: Rows, r: Row, component: string) {
    r.id in rows && rows[r.id] == r && r.component == component
  }

  lemma {:induction false} StoppedMore(ctx: Context, start: Rows, rows: Rows, component: string, names: seq<string>,
                                       before: seq<Row>, after: seq<Row>, halted: Option<Halt>)
    requires StoppedOk(ctx, start, before, names) && StoppedFrom(ctx, rows, component, before, after, halted)
    requires Untouched(start, rows, names) && component !in names
    ensures StoppedOk(ctx, start, after, names + [component])
    ensures halted.Some? ==>
              FoundIn(ctx, start, halted.value.row, names + [component]) && halted.value.row.id !in Ids(after)
  {
    forall i | 0 <= i < |after| ensures FoundIn(ctx, start, after[i], names + [component]) {
      if i < |before| { assert after[i] == before[i] && FoundIn(ctx, start, before[i], names); }
      else { assert IsReplaced(ctx, rows, after[i], component); }
    }
    StoppedApart(ctx, start, rows, component, names, before, after);
    if halted.Some? {
      var r := halted.value.row;
      forall i | 0 <= i < |after| ensures after[i].id != r.id {
        if i < |before| { assert after[i] == before[i] && FoundIn(ctx, start, before[i], names); }
        else { assert Ids(after[|before|..])[i - |before|] == after[i].id; }
      }
    }
  }

  lemma {:induction false} StoppedApart(ctx: Context, start: Rows, rows: Rows, component: string, names: seq<string>,
                                        before: seq<Row>, after: seq<Row>)
    requires StoppedOk(ctx, start, before, names) && before <= after && DistinctRows(after[|before|..])
    requires forall i :: |before| <= i < |after| ==> IsReplaced(ctx, rows, after[i], component)
    requires Untouched(start, rows, names) && component !in names
    ensures DistinctRows(after)
  {
    forall i, j | 0 <= i < j < |after| ensures after[i].id != after[j].id {
      if j < |before| {
        assert after[i] == before[i] && after[j] == before[j];
      } else if i < |before| {
        assert after[i] == before[i] && FoundIn(ctx, start, before[i], names);
        assert IsReplaced(ctx, rows, after[j], component);
      } else {
        assert after[|before|..][i - |before|] == after[i] && after[|before|..][j - |before|] == after[j];
      }
    }
  }

  /** What a run keeps about stopping: what Docker was asked to stop is recorded, as it was found, but for the
      instance at which the stopping ended. */
  ghost predicate StopsKept(ctx: Context, start: Pool, now: Pool, stopped: seq<Row>, halted: Option<Halt>,
                            names: seq<string>) {
    && StoppedOk(ctx, start.rows, stopped, names)
    && StopLog(start.asked.stops, 0, now.asked.stops, stopped, halted)
    && HaltKept(ctx, start.rows, now.rows, stopped, halted, names)
    && ReadyKept(start.rows, now.rows, start.containers, stopped)
  }

  /** The same for one component that starts from `m`. */
  ghost predicate ComponentStops(ctx: Context, m: Pool, a: Pool, component: string, before: seq<Row>, after: seq<Row>,
                                 halted: Option<Halt>) {
    && StoppedFrom(ctx, m.rows, component, before, after, halted)
    && StopLog(m.asked.stops, |before|, a.asked.stops, after, halted)
    && (halted.Some? ==> IsRowOf(a.rows, halted.value.row, component))
    && ReadyKept(m.rows, a.rows, m.containers, after[|before|..])
  }

  /** And then its slots. */
  lemma StopsThenSlots(ctx: Context, m: Pool, o: Pool, a: Pool, component: string, before: seq<Row>, after: seq<Row>)
    requires ComponentStops(ctx, m, o, component, before, after, None) && m.containers <= o.containers
    requires ReadyKept(o.rows, a.rows, o.containers, []) && a.asked.stops == o.asked.stops
    ensures ComponentStops(ctx, m, a, component, before, after, None)
  {
    ReadyKeptThen(m.rows, o.rows, a.rows, m.containers, o.containers, after[|before|..], []);
    assert after[|before|..] + [] == after[|before|..];
  }

  lemma StopsMore(ctx: Context, start: Pool, m: Pool, a: Pool, component: string, names: seq<string>,
                  before: seq<Row>, after: seq<Row>, halted: Option<Halt>)
    requires StopsKept(ctx, start, m, before, None, names)
    requires ComponentStops(ctx, m, a, component, before, after, halted)
    requires Untouched(start.rows, m.rows, names) && component !in names && start.containers <= m.containers
    ensures StopsKept(ctx, start, a, after, halted, names + [component])
  {
    ReadyKeptThen(start.rows, m.rows, a.rows, start.containers, m.containers, before, after[|before|..]);
    assert before + after[|before|..] == after;
    StoppedMore(ctx, start.rows, m.rows, component, names, before, after, halted);
    StopLogThen(start.asked.stops, m.asked.stops, a.asked.stops, before, after, halted);
  }

  lemma StopsAmong(ctx: Context, start: Pool, now: Pool, stopped: seq<Row>, halted: Option<Halt>, names: seq<string>,
                   all: seq<string>)
    requires StopsKept(ctx, start, now, stopped, halted, names) && forall n :: n in names ==> n in all
    ensures StopsKept(ctx, start, now, stopped, halted, all)
  {
    forall i | 0 <= i < |stopped| ensures FoundIn(ctx, start.rows, stopped[i], all) {
      assert FoundIn(ctx, start.rows, stopped[i], names);
    }
  }

  ghost predicate AllSettled(ctx: Context, rows: Rows, containers: set<string>)
    requires forall n :: n in ctx.order ==> n in ctx.components
  {
    forall n :: n in ctx.order ==> Settled(ctx, ctx.components[n], rows, containers)
  }

  /** The instances of a component, in order. */
  function OfComponent(current: seq<Row>, component: string): seq<Row> {
    if current == [] then []
    else
      var rest := OfComponent(current[1..], component);
      if current[0].component == component then [current[0]] + rest else rest
  }

  lemma {:induction false} OfComponentIs(current: seq<Row>, component: string)
    ensures forall i :: 0 <= i < |OfComponent(current, component)| ==>
              OfComponent(current, component)[i].component == component && OfComponent(current, component)[i] in current
  {
    if current != [] { OfComponentIs(current[1..], component); }
  }

  function EndpointsFor(selected: seq<Row>): seq<Endpoint> {
    seq(|selected|,
        i requires 0 <= i < |selected| => Endpoint(selected[i].id, selected[i].release, selected[i].configuration))
  }

  type Endpoints = map<string, seq<Endpoint>>

  /** The endpoint table after the first `k` services have been published. */
  function Published(before: Endpoints, services: seq<Service>, k: nat, current: seq<Row>): Endpoints
    requires k <= |services|
  {
    if k == 0 then before
    else
      var last := services[k - 1];
      Published(before, services, k - 1, current)[last.id := EndpointsFor(OfComponent(current, last.component))]
  }

  /** A service's endpoints are exactly its component's selected instances. */
  predicate Serves(endpoints: Endpoints, service: Service, current: seq<Row>) {
    service.id in endpoints && endpoints[service.id] == EndpointsFor(OfComponent(current, service.component))
  }

  predicate SameAt(a: Endpoints, b: Endpoints, s: string) {
    (s in a <==> s in b) && (s in a ==> a[s] == b[s])
  }

  ghost predicate AllServed(after: Endpoints, services: seq<Service>, k: nat, current: seq<Row>)
    requires k <= |services|
  {
    forall i :: 0 <= i < k ==> Serves(after, services[i], current)
  }

  ghost predicate OthersServed(before: Endpoints, after: Endpoints, services: seq<Service>, k: nat)
    requires k <= |services|
  {
    forall s :: SameAt(before, after, s) || exists i :: 0 <= i < k && services[i].id == s
  }

  /** Publishing the first `k` services gives each of them its component's instances and leaves the rest. */
  lemma {:induction false} PublishedIs(before: Endpoints, services: seq<Service>, k: nat, current: seq<Row>)
    requires k <= |services| && forall i, j :: 0 <= i < j < |services| ==> services[i].id != services[j].id
    ensures AllServed(Published(before, services, k, current), services, k, current)
    ensures OthersServed(before, Published(before, services, k, current), services, k)
  {
    if k > 0 {
      PublishedIs(before, services, k - 1, current);
      PublishStep(before, Published(before, services, k - 1, current), services, k, current);
    }
  }

  lemma PublishStep(before: Endpoints, front: Endpoints, services: seq<Service>, k: nat, current: seq<Row>)
    requires 0 < k <= |services| && forall i, j :: 0 <= i < j < |services| ==> services[i].id != services[j].id
    requires AllServed(front, services, k - 1, current) && OthersServed(before, front, services, k - 1)
    ensures var after := front[services[k - 1].id := EndpointsFor(OfComponent(current, services[k - 1].component))];
            AllServed(after, services, k, current) && OthersServed(before, after, services, k)
  {
    var last := services[k - 1];
    var after := front[last.id := EndpointsFor(OfComponent(current, last.component))];
    forall i | 0 <= i < k ensures Serves(after, services[i], current) {
      if i < k - 1 { assert Serves(front, services[i], current) && services[i].id != last.id; }
    }
    forall s ensures SameAt(before, after, s) || exists i :: 0 <= i < k && services[i].id == s {
      if s != last.id && !SameAt(before, front, s) {
        var i :| 0 <= i < k - 1 && services[i].id == s;
      }
    }
  }

  // ---- jobs ----

  /** The selected instances as the job planner sees them. */
  function Actual(current: seq<Row>): seq<Jobs.Instance> {
    seq(|current|, i requires 0 <= i < |current| => Jobs.Instance(current[i].id, current[i].component, false))
  }

  /** The round of jobs that a run with these instances comes to; failed jobs are retried. */
  function JobRound(ctx: Context, current: seq<Row>): Jobs.Round {
    Jobs.Round(Jobs.Execution(ctx.application, ctx.release, ctx.order),
               Jobs.Settings(ctx.site, ctx.writer, ctx.configuration, true), ctx.jobs, Actual(current), [])
  }

  /** The jobs planned for these instances. */
  function JobsFor(ctx: Context, st: Jobs.Store, current: seq<Row>): seq<Jobs.Planned> {
    Jobs.RoundPlan(st, JobRound(ctx, current))
  }

  ghost predicate WriterMissing(ctx: Context) {
    Jobs.Unresolved(JobRound(ctx, []).settings, ctx.jobs)
  }

  ghost predicate DistinctRows(current: seq<Row>) {
    forall i, j :: 0 <= i < j < |current| ==> current[i].id != current[j].id
  }

  lemma JobsThenNone(ctx: Context, st: Jobs.Store, current: seq<Row>, endings: seq<Jobs.Ending>)
    requires DistinctRows(current) && |endings| == |JobsFor(ctx, st, current)| && Jobs.AllSuccess(endings)
    ensures JobsFor(ctx, Jobs.RunJobs(st, JobsFor(ctx, st, current), endings), current) == []
  {
    Jobs.RoundThenNothing(st, JobRound(ctx, current), endings);
  }

  // ---- what filling the order means ----

  /** The instances selected for the first `k` components: each fits its component, and each slot of each
      of these components has one. */
  lemma {:induction false} OrderMeans(ctx: Context, k: nat, current: seq<Row>)
    requires Proper(ctx) && k <= |ctx.order| && FillsOrder(ctx, k, current)
    ensures forall r :: r in current ==> r.component in ctx.order[..k] && Fits(ctx.components[r.component], r)
    ensures forall i, s :: 0 <= i < k && s in ctx.components[ctx.order[i]].slots ==>
              exists r :: r in current && r.component == ctx.order[i] && r.slot == s
  {
    if k > 0 {
      var c := ctx.components[ctx.order[k - 1]];
      var n := |current| - |c.slots|;
      var front, last := current[..n], current[n..];
      OrderMeans(ctx, k - 1, front);
      assert current == front + last && ctx.order[..k] == ctx.order[..k - 1] + [ctx.order[k - 1]];
      forall r | r in current ensures r.component in ctx.order[..k] && Fits(ctx.components[r.component], r) {
        if r !in front {
          var j :| 0 <= j < |last| && last[j] == r;
        }
      }
      forall i, s | 0 <= i < k && s in ctx.components[ctx.order[i]].slots
        ensures exists r :: r in current && r.component == ctx.order[i] && r.slot == s {
        if i == k - 1 {
          var j :| 0 <= j < |c.slots| && c.slots[j] == s;
          assert last[j] in current && Fits(c, last[j]);
        } else {
          var r :| r in front && r.component == ctx.order[i] && r.slot == s;
        }
      }
    }
  }

  /** No two of them have the same component and slot. */
  lemma {:induction false} OrderDistinct(ctx: Context, k: nat, current: seq<Row>)
    requires Proper(ctx) && k <= |ctx.order| && FillsOrder(ctx, k, current)
    ensures forall i, j :: 0 <= i < j < |current| ==> !SamePlace(current[i], current[j])
  {
    if k > 0 {
      var c := ctx.components[ctx.order[k - 1]];
      var n := |current| - |c.slots|;
      OrderDistinct(ctx, k - 1, current[..n]);
      OrderMeans(ctx, k - 1, current[..n]);
      assert ctx.order[k - 1] !in ctx.order[..k - 1];
      JoinDistinct(c, current[..n], current[n..]);
      assert current == current[..n] + current[n..];
    }
  }

  lemma JoinDistinct(c: Component, front: seq<Row>, last: seq<Row>)
    requires NoRepeat(c.slots) && FillsSlots(c, c.slots, last)
    requires forall i, j :: 0 <= i < j < |front| ==> !SamePlace(front[i], front[j])
    requires forall r :: r in front ==> r.component != c.name
    ensures forall i, j :: 0 <= i < j < |front + last| ==> !SamePlace((front + last)[i], (front + last)[j])
  {
    var all, n := front + last, |front|;
    forall i, j | 0 <= i < j < |all| ensures !SamePlace(all[i], all[j]) {
      if j < n {
        assert all[i] == front[i] && all[j] == front[j];
      } else if i < n {
        assert all[i] in front && all[j] == last[j - n];
      } else {
        assert all[i].slot == c.slots[i - n] && all[j].slot == c.slots[j - n];
      }
    }
  }

  lemma SelectedDistinct(ctx: Context, rows: Rows, containers: set<string>, current: seq<Row>)
    requires Proper(ctx) && FillsOrder(ctx, |ctx.order|, current) && InStore(rows, containers, current)
    ensures DistinctRows(current)
  {
    OrderDistinct(ctx, |ctx.order|, current);
    forall i, j | 0 <= i < j < |current| ensures current[i].id != current[j].id {
      assert !SamePlace(current[i], current[j]);
    }
  }

  // ---- retirement ----

  predicate IsSelected(current: seq<Row>, id: string) {
    exists i :: 0 <= i < |current| && current[i].id == id
  }

  /** The rows that are neither removed nor selected. */
  function Unselected(list: seq<Row>, current: seq<Row>): seq<Row> {
    if list == [] then []
    else
      var rest := Unselected(list[1..], current);
      if list[0].status != Removed && !IsSelected(current, list[0].id) then [list[0]] + rest else rest
  }

  lemma {:induction false} UnselectedIs(list: seq<Row>, current: seq<Row>)
    ensures forall x :: x in Unselected(list, current) <==> x in list && x.status != Removed && !IsSelected(current,
                                                                                                            x.id)
  {
    if list != [] {
      UnselectedIs(list[1..], current);
      assert forall x :: x in list <==> x == list[0] || x in list[1..];
    }
  }

  lemma {:induction false} UnselectedDistinct(list: seq<Row>, current: seq<Row>)
    requires DistinctRows(list)
    ensures DistinctRows(Unselected(list, current))
  {
    if list != [] {
      UnselectedDistinct(list[1..], current);
      UnselectedIs(list[1..], current);
      FirstDistinct(list, Unselected(list[1..], current));
    }
  }

  /** Only the rows in `list` may have another status. */
  ghost predicate ChangedOnly(before: Rows, after: Rows, list: seq<Row>) {
    && Evolved(before, after) && after.Keys == before.Keys
    && (forall id :: id in after && after[id] != before[id] ==> exists r :: r in list && r.id == id)
  }

  /** Only containers of rows in `list` are gone. */
  ghost predicate ContainersOnly(before: set<string>, after: set<string>, list: seq<Row>) {
    after <= before && forall name :: name in before && name !in after ==> exists r :: r in list && r.id == name
  }

  /** `stale` are the rows that are neither removed nor selected. */
  ghost predicate IsUnselected(rows: Rows, current: seq<Row>, stale: seq<Row>) {
    && ProperRows(rows)
    && (forall r :: r in stale ==> r.id in rows && rows[r.id] == r && !IsSelected(current, r.id))
    && (forall id :: id in rows && rows[id].status != Removed && !IsSelected(current, id) ==> rows[id] in stale)
  }

  lemma UnselectedRows(rows: Rows, current: seq<Row>)
    requires ProperRows(rows)
    ensures IsUnselected(rows, current, Unselected(Listed(rows), current))
    ensures DistinctRows(Unselected(Listed(rows), current))
    ensures OnlySelected(rows, current) ==> Unselected(Listed(rows), current) == []
  {
    ListedIs(rows);
    ListedDistinct(rows);
    UnselectedDistinct(Listed(rows), current);
    var stale := Unselected(Listed(rows), current);
    UnselectedIs(Listed(rows), current);
    if OnlySelected(rows, current) {
      forall r ensures r !in stale {
        if r in Listed(rows) { var id :| id in rows && rows[id] == r; }
      }
      EmptyOrHead(stale);
    }
  }

  lemma ChangedThen(a: Rows, b: Rows, c: Rows, list: seq<Row>)
    requires ChangedOnly(a, b, list) && ChangedOnly(b, c, list)
    ensures ChangedOnly(a, c, list)
  {}

  /** The selected instances survive the retirement of the others. */
  lemma RetireKeeps(before: Rows, after: Rows, had: set<string>, have: set<string>, current: seq<Row>, stale: seq<Row>)
    requires InStore(before, had, current) && IsUnselected(before, current, stale)
    requires ChangedOnly(before, after, stale) && ContainersOnly(had, have, stale)
    ensures InStore(after, have, current)
  {
    forall i | 0 <= i < |current|
      ensures current[i].id in after && after[current[i].id] == current[i] && current[i].id in have {
      assert IsSelected(current, current[i].id);
    }
  }

  /** When all of them are removed only the selected ones are left. */
  lemma RetireLeaves(before: Rows, after: Rows, current: seq<Row>, stale: seq<Row>)
    requires IsUnselected(before, current, stale) && ChangedOnly(before, after, stale)
    requires forall r :: r in stale && r.id in after ==> after[r.id].status == Removed
    ensures OnlySelected(after, current)
  {
    forall id | id in after && !IsSelected(current, id) ensures after[id].status == Removed {
      if after[id] != before[id] {
        var r :| r in stale && r.id == id;
      } else if before[id].status != Removed {
        assert before[id] in stale && before[id].id in after;
      }
    }
  }

  /** Every row is a selected instance, as selected, or removed. */
  ghost predicate OnlySelected(rows: Rows, current: seq<Row>) {
    forall id :: id in rows ==> IsSelected(current, id) || rows[id].status == Removed
  }

  /** Converged: the instances fill every slot, stand in the store with their containers, are the only
      ones not removed, and are exactly the endpoints of their components' services. */
  ghost predicate Converged(ctx: Context, rows: Rows, containers: set<string>, endpoints: Endpoints, current: seq<Row>)
    requires forall n :: n in ctx.order ==> n in ctx.components
  {
    && FillsOrder(ctx, |ctx.order|, current) && InStore(rows, containers, current)
    && OnlySelected(rows, current)
    && AllServed(endpoints, ctx.services, |ctx.services|, current)
  }

  // ---- converging again ----

  predicate NoForce(ctx: Context) {
    !ctx.forceReplace && ctx.forceComponents == [] && ctx.forceIds == []
  }

  lemma ConvergedIsSettled(ctx: Context, rows: Rows, containers: set<string>, endpoints: Endpoints, current: seq<Row>)
    requires Proper(ctx) && Converged(ctx, rows, containers, endpoints, current) && NoForce(ctx)
    ensures AllSettled(ctx, rows, containers)
  {
    OrderMeans(ctx, |ctx.order|, current);
    OrderDistinct(ctx, |ctx.order|, current);
    assert ctx.order[..|ctx.order|] == ctx.order;
    forall n | n in ctx.order ensures Settled(ctx, ctx.components[n], rows, containers) {
      ComponentIsSettled(ctx, n, rows, containers, current);
    }
  }

  lemma ComponentIsSettled(ctx: Context, n: string, rows: Rows, containers: set<string>, current: seq<Row>)
    requires Proper(ctx) && n in ctx.order && NoForce(ctx)
    requires InStore(rows, containers, current) && OnlySelected(rows, current)
    requires forall r :: r in current ==> r.component in ctx.order && Fits(ctx.components[r.component], r)
    requires forall i, s :: 0 <= i < |ctx.order| && s in ctx.components[ctx.order[i]].slots ==>
               exists r :: r in current && r.component == ctx.order[i] && r.slot == s
    requires forall i, j :: 0 <= i < j < |current| ==> !SamePlace(current[i], current[j])
    ensures Settled(ctx, ctx.components[n], rows, containers)
  {
    var c := ctx.components[n];
    forall id | Live(rows, id) && rows[id].component == c.name
      ensures Fits(c, rows[id]) && !Forced(ctx, rows[id]) && id in containers {
      var i :| 0 <= i < |current| && current[i].id == id;
      assert current[i] in current;
    }
    forall slot | slot in c.slots
      ensures exists id :: Live(rows, id) && rows[id].component == c.name && rows[id].slot == slot {
      var i :| 0 <= i < |ctx.order| && ctx.order[i] == n;
      var r :| r in current && r.component == ctx.order[i] && r.slot == slot;
      var j :| 0 <= j < |current| && current[j] == r;
      assert Live(rows, r.id);
    }
    forall id, other
      | Live(rows, id) && Live(rows, other) && SamePlace(rows[id], rows[other]) && rows[id].component == c.name
      ensures id == other {
      var i :| 0 <= i < |current| && current[i].id == id;
      var j :| 0 <= j < |current| && current[j].id == other;
      assert SamePlace(current[i], current[j]) && SamePlace(current[j], current[i]);
    }
  }

  /** With one live row for each place there is only one way to fill the order. */
  lemma {:induction false} SameSelection(ctx: Context, k: nat, rows: Rows, containers: set<string>, a: seq<Row>,
                                         b: seq<Row>)
    requires (forall n :: n in ctx.order ==> n in ctx.components) && k <= |ctx.order|
    requires AllSettled(ctx, rows, containers)
    requires FillsOrder(ctx, k, a) && FillsOrder(ctx, k, b) && InStore(rows, containers, a)
    requires InStore(rows, containers, b)
    ensures a == b
  {
    if k > 0 {
      var c := ctx.components[ctx.order[k - 1]];
      var n, m := |a| - |c.slots|, |b| - |c.slots|;
      var x, y := a[n..], b[m..];
      assert ctx.order[k - 1] in ctx.order;
      InStoreParts(rows, containers, a, n);
      InStoreParts(rows, containers, b, m);
      SameSlots(ctx, c, rows, containers, x, y);
      SameSelection(ctx, k - 1, rows, containers, a[..n], b[..m]);
      assert a == a[..n] + x && b == b[..m] + y;
    }
  }

  lemma InStoreParts(rows: Rows, containers: set<string>, a: seq<Row>, n: nat)
    requires n <= |a| && InStore(rows, containers, a)
    ensures InStore(rows, containers, a[..n]) && InStore(rows, containers, a[n..])
  {}

  lemma {:induction false} SameSlots(ctx: Context, c: Component, rows: Rows, containers: set<string>,
                                     x: seq<Row>, y: seq<Row>)
    requires Settled(ctx, c, rows, containers) && FillsSlots(c, c.slots, x) && FillsSlots(c, c.slots, y)
    requires InStore(rows, containers, x) && InStore(rows, containers, y)
    ensures x == y
  {
    forall j | 0 <= j < |c.slots| ensures x[j] == y[j] {
      assert Fits(c, x[j]) && Fits(c, y[j]) && x[j].slot == c.slots[j] == y[j].slot;
      assert Live(rows, x[j].id) && Live(rows, y[j].id);
    }
  }

  lemma {:induction false} PublishedSame(before: Endpoints, services: seq<Service>, k: nat, current: seq<Row>)
    requires k <= |services| && AllServed(before, services, |services|, current)
    ensures Published(before, services, k, current) == before
  {
    if k > 0 {
      PublishedSame(before, services, k - 1, current);
      assert Serves(before, services[k - 1], current);
    }
  }

  // ---- what converged means ----

  /** After convergence the ready instances are in bijection with the slots of all components: every slot
      has exactly one, it has the current digests, there are no others, and every other row is removed.
      Every service has exactly its component's instances as endpoints. */
  lemma ConvergedMeans(ctx: Context, rows: Rows, containers: set<string>, endpoints: Endpoints, current: seq<Row>)
    requires Proper(ctx) && Converged(ctx, rows, containers, endpoints, current)
    ensures forall id :: id in rows ==> rows[id].status == if IsSelected(current, id) then Ready else Removed
    ensures forall id :: id in rows && rows[id].status == Ready ==> IsCurrent(ctx, rows[id]) && id in containers
    ensures forall n, s :: n in ctx.order && s in ctx.components[n].slots ==>
              exists id :: IsInstance(rows, id, n, s) && forall other :: IsInstance(rows, other, n, s) ==> other == id
    ensures forall service :: service in ctx.services ==> Serves(endpoints, service, current)
  {
    OrderMeans(ctx, |ctx.order|, current);
    OrderDistinct(ctx, |ctx.order|, current);
    assert ctx.order[..|ctx.order|] == ctx.order;
    SelectedAreCurrent(ctx, rows, containers, current);
    forall n, s | n in ctx.order && s in ctx.components[n].slots
      ensures exists id :: IsInstance(rows, id, n, s) && forall other :: IsInstance(rows, other, n, s) ==> other == id {
      var i :| 0 <= i < |ctx.order| && ctx.order[i] == n;
      var r :| r in current && r.component == ctx.order[i] && r.slot == s;
      OnlyInstance(ctx, rows, containers, current, r);
      assert IsInstance(rows, r.id, n, s);
    }
  }

  /** The row belongs to the graph and is what its component asks for. */
  predicate IsCurrent(ctx: Context, r: Row)
    requires forall n :: n in ctx.order ==> n in ctx.components
  {
    r.component in ctx.order && Fits(ctx.components[r.component], r)
  }

  lemma SelectedAreCurrent(ctx: Context, rows: Rows, containers: set<string>, current: seq<Row>)
    requires forall n :: n in ctx.order ==> n in ctx.components
    requires InStore(rows, containers, current) && OnlySelected(rows, current)
    requires forall r :: r in current ==> IsCurrent(ctx, r)
    ensures forall id :: id in rows && IsSelected(current, id) ==> IsCurrent(ctx, rows[id]) && id in containers
  {
    forall id | id in rows && IsSelected(current, id) ensures IsCurrent(ctx, rows[id]) && id in containers {
      var i :| 0 <= i < |current| && current[i].id == id;
      assert current[i] in current;
    }
  }

  lemma OnlyInstance(ctx: Context, rows: Rows, containers: set<string>, current: seq<Row>, r: Row)
    requires InStore(rows, containers, current) && OnlySelected(rows, current) && r in current && r.status == Ready
    requires forall i, j :: 0 <= i < j < |current| ==> !SamePlace(current[i], current[j])
    ensures IsInstance(rows, r.id, r.component, r.slot)
    ensures forall other :: IsInstance(rows, other, r.component, r.slot) ==> other == r.id
  {
    var j :| 0 <= j < |current| && current[j] == r;
    forall other | IsInstance(rows, other, r.component, r.slot) ensures other == r.id {
      var k :| 0 <= k < |current| && current[k].id == other;
      assert SamePlace(current[j], current[k]) && SamePlace(current[k], current[j]);
    }
  }

  ghost predicate IsInstance(rows: Rows, id: string, component: string, slot: string) {
    id in rows && rows[id].status == Ready && rows[id].component == component && rows[id].slot == slot
  }
}
