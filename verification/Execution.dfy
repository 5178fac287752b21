/** The execution plan of an application, and the check that a node makes before it runs one. */
module Execution {
  import opened StringOrder
  import opened Options
  import opened Lists
  import Topology
  import Printing
  import JsonValues

  datatype Code =
    | TargetRequired | OverrideNotAllowed | OverrideOutOfBounds | OverriddenUnknown
    | HostNetworkNotSingle | HostNetworkMixed | OverlapUnsafe | MinimumReadyTooLarge
    | ImplicitDependency | DependencyUnknown | DependencyCycle
    | ConfigurationUnresolved(variable: string) | FileUnresolved(target: string) | RouteUnknown | Reported(code: string)

  /** Where a finding points: the path `/components`, one at or below `/components/<name>` or
      `/resources/<name>`, or another one. Names contain no slash, so that the text of a path begins with
      that of a component and a slash exactly when it is below this component. */
  datatype Place = WholeGraph | OfComponent(name: string) | OfResource(name: string) | OfRoute(name: string) | Elsewhere

  datatype Finding = Finding(error: bool, code: Code, place: Place)

  function ErrorAt(code: Code, name: string): Finding {
    Finding(true, code, OfComponent(name))
  }

  datatype Component = Component(
    dependsOn: seq<string>, environment: map<string, string>, files: map<string, string>, interfaces: set<string>,
    instances: nat, minimumReady: nat, allowed: bool, minimum: int, maximum: int,
    hostNetwork: bool, rolling: bool, overlapCompatible: bool)

  /** `names` are the components in the order in which the specification lists them; `routes` maps a
      route to the component interface it leads to. */
  datatype Spec = Spec(names: seq<string>, components: map<string, Component>, routes: map<string, string>)

  ghost predicate Proper(spec: Spec) {
    NoRepeat(spec.names) && spec.components.Keys == Elements(spec.names)
  }

  /** The counts an operator asks for, and what the planners of placement, volumes and profiles report. */
  datatype Inputs = Inputs(
    overrides: map<string, int>, targetSite: string, unresolved: set<string>,
    placement: set<Finding>, volumes: set<Finding>, attachments: set<(string, string)>,
    profiles: map<string, set<Finding>>)

  const MAX_SAFE := 9007199254740991

  predicate WithinBounds(c: Component, count: int) {
    c.minimum <= count <= c.maximum
  }

  predicate Acceptable(c: Component, count: int) {
    -MAX_SAFE <= count <= MAX_SAFE && WithinBounds(c, count)
  }

  /** The number of instances planned; an override that is out of bounds is reported and not used. */
  function Desired(c: Component, name: string, o: Inputs): int {
    if name in o.overrides && Acceptable(c, o.overrides[name]) then o.overrides[name] else c.instances
  }

  /** `resolveSiteInstanceCounts` for one component. */
  function CountFindings(c: Component, name: string, o: Inputs): set<Finding> {
    if name !in o.overrides then {}
    else
      (if o.targetSite == "" then {ErrorAt(TargetRequired, name)} else {})
      + (if !c.allowed then {ErrorAt(OverrideNotAllowed, name)} else {})
      + (if !Acceptable(c, o.overrides[name]) then {ErrorAt(OverrideOutOfBounds, name)} else {})
  }

  /** The checks of the rollout and of host networking for one component. */
  function RolloutFindings(c: Component, name: string, o: Inputs): set<Finding> {
    (if c.hostNetwork && Desired(c, name, o) != 1
     then {ErrorAt(HostNetworkNotSingle, name)} else {})
    + (if c.rolling && !c.overlapCompatible
       then {ErrorAt(OverlapUnsafe, name)} else {})
    + (if c.minimumReady > Desired(c, name, o)
       then {ErrorAt(MinimumReadyTooLarge, name)} else {})
  }

  const CONFIGURATION := "configuration."

  function BeforeDot(s: string): string {
    if s == "" || s[0] == '.' then "" else [s[0]] + BeforeDot(s[1..])
  }

  /** The components that the environment of `name` refers to. */
  function Referred(spec: Spec, c: Component, name: string): set<string> {
    set v | v in c.environment && !(CONFIGURATION <= c.environment[v])
            && BeforeDot(c.environment[v]) != name && BeforeDot(c.environment[v]) in spec.components
      :: BeforeDot(c.environment[v])
  }

  /** `inferDependencies` for one component: the declared ones and those it refers to, sorted. */
  function Dependencies(spec: Spec, c: Component, name: string): seq<string> {
    Sorted(Elements(c.dependsOn) + Referred(spec, c, name))
  }

  function ImplicitFindings(spec: Spec, c: Component, name: string): set<Finding> {
    if Referred(spec, c, name) <= Elements(c.dependsOn) then {}
    else {Finding(false, ImplicitDependency, OfComponent(name))}
  }

  function AllDependencies(spec: Spec): map<string, seq<string>> {
    map n | n in spec.components :: Dependencies(spec, spec.components[n], n)
  }

  ghost function Graph(spec: Spec): Topology.Graph {
    Topology.KnownGraph(spec.names, AllDependencies(spec))
  }

  /** What `topologicalOrder` reports. */
  function OrderFindings(unknown: set<(string, string)>, cyclic: bool): set<Finding> {
    (set p | p in unknown :: ErrorAt(DependencyUnknown, p.0))
    + (if cyclic then {Finding(true, DependencyCycle, WholeGraph)} else {})
  }

  /** The findings about one component before its profile and its configuration are looked at. */
  function GraphFindingsOf(spec: Spec, c: Component, name: string, o: Inputs): set<Finding> {
    CountFindings(c, name, o) + RolloutFindings(c, name, o) + ImplicitFindings(spec, c, name)
  }

  function OtherFindings(spec: Spec, o: Inputs): set<Finding> {
    o.placement + o.volumes
    + (set n | n in o.overrides && n !in spec.components :: ErrorAt(OverriddenUnknown, n))
    + (if |spec.components| > 1 && exists n :: n in spec.components && spec.components[n].hostNetwork
       then {Finding(true, HostNetworkMixed, WholeGraph)} else {})
  }

  /** `componentGraphFindings`: those about the whole graph, the component or a resource attached to it. */
  predicate Concerns(f: Finding, name: string, o: Inputs) {
    match f.place
    case WholeGraph => true
    case OfComponent(n) => n == name
    case OfResource(r) => (name, r) in o.attachments
    case _ => false
  }

  /** The name behind the first characters, which for a configuration reference are its prefix. */
  function ConfigurationKey(reference: string): string {
    if |reference| <= |CONFIGURATION| then "" else reference[|CONFIGURATION|..]
  }

  predicate IsUnresolved(reference: string, o: Inputs) {
    CONFIGURATION <= reference && ConfigurationKey(reference) in o.unresolved
  }

  /** The findings of the component's profile and of its configuration. */
  function OwnFindings(c: Component, name: string, o: Inputs): set<Finding> {
    (if name in o.profiles then o.profiles[name] else {})
    + (set v | v in c.environment && IsUnresolved(c.environment[v], o)
         :: ErrorAt(ConfigurationUnresolved(v), name))
    + (set t | t in c.files && ConfigurationKey(c.files[t]) in o.unresolved
         :: ErrorAt(FileUnresolved(t), name))
  }

  function RouteFindings(spec: Spec): set<Finding> {
    set r | r in spec.routes && !exists n :: n in spec.components && ServiceOf(spec.components[n], n, spec.routes[r])
      :: Finding(true, RouteUnknown, OfRoute(r))
  }

  predicate ServiceOf(c: Component, name: string, target: string) {
    exists i :: i in c.interfaces && target == name + "." + i
  }

  // ---- the plan ----

  datatype Planned = Planned(desired: int, minimum: int, maximum: int, dependencies: seq<string>, blocked: bool,
                             findings: set<Finding>)

  datatype Plan = Plan(order: seq<string>, components: map<string, Planned>, findings: set<Finding>, blocked: bool)

  predicate HasError(findings: set<Finding>) {
    exists f :: f in findings && f.error
  }

  function PlanComponent(spec: Spec, name: string, o: Inputs, graph: set<Finding>): Planned
    requires name in spec.components
  {
    var c := spec.components[name];
    var findings := (set f | f in graph && Concerns(f, name, o)) + OwnFindings(c, name, o);
    Planned(Desired(c, name, o), c.minimum, c.maximum, Dependencies(spec, c, name), HasError(findings), findings)
  }

  lemma NamesAreComponents(spec: Spec)
    requires Proper(spec)
    ensures forall n :: n in spec.names <==> n in spec.components
  {
    assert forall n :: n in spec.names <==> n in Elements(spec.names);
  }

  /** The findings of the whole graph. */
  ghost function GraphFindings(spec: Spec, o: Inputs): set<Finding>
    requires Proper(spec)
  {
    NamesAreComponents(spec);
    OtherFindings(spec, o)
    + OrderFindings(Topology.Unknown(spec.names, AllDependencies(spec)), Topology.HasCycle(Graph(spec)))
    + Union(AboutEach(spec, o), spec.names)
  }

  /** What a function reports about each of the names, together. */
  function Union(report: string --> set<Finding>, names: seq<string>): set<Finding>
    requires forall n :: n in names ==> report.requires(n)
  {
    if names == [] then {} else Union(report, names[..|names| - 1]) + report(names[|names| - 1])
  }

  function Each(plan: string --> Planned, names: seq<string>): map<string, Planned>
    requires forall n :: n in names ==> plan.requires(n)
  {
    if names == [] then map[] else Each(plan, names[..|names| - 1])[names[|names| - 1] := plan(names[|names| - 1])]
  }

  lemma {:induction false} UnionHas(report: string --> set<Finding>, names: seq<string>, n: string, f: Finding)
    requires (forall n :: n in names ==> report.requires(n)) && n in names && f in report(n)
    ensures f in Union(report, names)
  {
    if n != names[|names| - 1] { UnionHas(report, names[..|names| - 1], n, f); }
  }

  lemma {:induction false} EachIs(plan: string --> Planned, names: seq<string>, n: string)
    requires forall n :: n in names ==> plan.requires(n)
    ensures n in Each(plan, names) <==> n in names
    ensures n in names ==> Each(plan, names)[n] == plan(n)
  {
    if names != [] {
      EachIs(plan, names[..|names| - 1], n);
      assert names == names[..|names| - 1] + [names[|names| - 1]];
    }
  }

  method CollectEach(report: string --> set<Finding>, names: seq<string>) returns (findings: set<Finding>)
    requires forall n :: n in names ==> report.requires(n)
    ensures findings == Union(report, names)
  {
    findings := {};
    for i := 0 to |names|
      invariant findings == Union(report, names[..i])
    {
      assert names[..i + 1][..i] == names[..i];
      findings := findings + report(names[i]);
    }
    assert names[..|names|] == names;
  }

  /** The loop over the components; what each adds to the findings goes to those of the whole plan. */
  method PlanEach(plan: string --> Planned, report: string --> set<Finding>, names: seq<string>)
    returns (components: map<string, Planned>, own: set<Finding>)
    requires forall n :: n in names ==> plan.requires(n) && report.requires(n)
    ensures components == Each(plan, names) && own == Union(report, names)
  {
    components, own := map[], {};
    for i := 0 to |names|
      invariant components == Each(plan, names[..i]) && own == Union(report, names[..i])
    {
      assert names[..i + 1][..i] == names[..i];
      components := components[names[i] := plan(names[i])];
      own := own + report(names[i]);
    }
    assert names[..|names|] == names;
  }

  /** The findings about each component before its profile and configuration are looked at. */
  function AboutEach(spec: Spec, o: Inputs): string --> set<Finding> {
    n requires n in spec.components => GraphFindingsOf(spec, spec.components[n], n, o)
  }

  /** What each component adds of its own. */
  function OwnOfEach(spec: Spec, o: Inputs): string --> set<Finding> {
    n requires n in spec.components => OwnFindings(spec.components[n], n, o)
  }

  function PlanOfEach(spec: Spec, o: Inputs, graph: set<Finding>): string --> Planned {
    n requires n in spec.components => PlanComponent(spec, n, o, graph)
  }

  /** The components in order of name. */
  function ByName(spec: Spec): (r: seq<string>)
    ensures forall n :: n in r <==> n in spec.components
  {
    SortedMembers(spec.components.Keys);
    Sorted(spec.components.Keys)
  }

  ghost predicate IsPlan(spec: Spec, o: Inputs, plan: Plan)
    requires Proper(spec)
  {
    && Topology.IsOrder(Graph(spec), plan.order, Topology.HasCycle(Graph(spec)))
    && plan.components == Each(PlanOfEach(spec, o, GraphFindings(spec, o)), ByName(spec))
    && plan.findings == GraphFindings(spec, o) + RouteFindings(spec) + Union(OwnOfEach(spec, o), ByName(spec))
    && plan.blocked == HasError(plan.findings)
  }

  /** `topologicalOrder` with what it pushes onto the findings. */
  method OrderComponents(names: seq<string>, dependencies: map<string, seq<string>>)
    returns (order: seq<string>, findings: set<Finding>)
    requires NoRepeat(names)
    ensures var g := Topology.KnownGraph(names, dependencies);
            Topology.IsOrder(g, order, Topology.HasCycle(g))
            && findings == OrderFindings(Topology.Unknown(names, dependencies), Topology.HasCycle(g))
  {
    var unknown, cyclic;
    order, unknown, cyclic := Topology.TopologicalOrder(names, dependencies);
    CyclicIs(Topology.KnownGraph(names, dependencies), order, cyclic);
    findings := OrderFindings(unknown, cyclic);
  }

  lemma CyclicIs(g: Topology.Graph, order: seq<string>, cyclic: bool)
    requires Topology.IsOrder(g, order, cyclic)
    ensures cyclic == Topology.HasCycle(g)
  {}

  /** The findings about the whole graph, with those about the order. */
  method ReportGraph(spec: Spec, o: Inputs, order: set<Finding>) returns (graph: set<Finding>)
    requires Proper(spec)
    requires order == OrderFindings(Topology.Unknown(spec.names, AllDependencies(spec)), Topology.HasCycle(Graph(spec)))
    ensures graph == GraphFindings(spec, o)
  {
    NamesAreComponents(spec);
    var about := CollectEach(AboutEach(spec, o), spec.names);
    graph := OtherFindings(spec, o) + order + about;
  }

  /** `planApplicationExecution` */
  method PlanApplicationExecution(spec: Spec, o: Inputs) returns (plan: Plan)
    requires Proper(spec)
    ensures IsPlan(spec, o, plan)
  {
    var order, about := OrderComponents(spec.names, AllDependencies(spec));
    var graph := ReportGraph(spec, o, about);
    var components, own := PlanEach(PlanOfEach(spec, o, graph), OwnOfEach(spec, o), ByName(spec));
    var findings := graph + RouteFindings(spec) + own;
    plan := Plan(order, components, findings, HasError(findings));
  }

  // ---- the node's own check ----

  /** What a node is sent, and what it has downloaded. */
  datatype Payload = Payload(version: int, specDigest: string, spec: JsonValues.Json, names: seq<string>,
                             planDigest: string, plan: Plan)

  predicate IsHexLower(c: char) {
    '0' <= c <= '9' || 'a' <= c <= 'f'
  }

  predicate IsDigest(s: string) {
    |s| == 71 && s[..7] == "sha256:" && forall c :: c in s[7..] ==> IsHexLower(c)
  }

  /** The component may run on this node, after those that precede it. */
  predicate Runs(plan: Plan, i: nat)
    requires i < |plan.order|
  {
    && plan.order[i] in plan.components
    && !plan.components[plan.order[i]].blocked
    && plan.components[plan.order[i]].minimum <= plan.components[plan.order[i]].desired
    && plan.components[plan.order[i]].desired <= plan.components[plan.order[i]].maximum
    && forall d :: d in plan.components[plan.order[i]].dependencies ==> d in plan.order[..i]
  }

  /** The checks of the envelope. */
  predicate Genuine(p: Payload, digest: string, spec: Option<JsonValues.Json>) {
    && p.version == 1 && IsDigest(p.specDigest) && p.specDigest == digest
    && (spec.Some? ==> Printing.CanonicalJson(p.spec) == Printing.CanonicalJson(spec.value))
    && p.planDigest == p.specDigest && !p.plan.blocked
  }

  /** `validateAgentGraphPayload`; false when it throws. */
  method ValidateAgentGraphPayload(p: Payload, digest: string, spec: Option<JsonValues.Json>) returns (ok: bool)
    ensures ok <==> && Genuine(p, digest, spec) && multiset(p.plan.order) == multiset(p.names)
                    && (forall i :: 0 <= i < |p.plan.order| ==> Runs(p.plan, i))
  {
    if !Genuine(p, digest, spec) || multiset(p.plan.order) != multiset(p.names) { return false; }
    var order, visited: set<string> := p.plan.order, {};
    for i := 0 to |order|
      invariant visited == Elements(order[..i])
      invariant forall j :: 0 <= j < i ==> Runs(p.plan, j)
    {
      var name := order[i];
      assert Runs(p.plan, i) ==> name in p.plan.components;
      if name !in p.plan.components || p.plan.components[name].blocked { return false; }
      var component := p.plan.components[name];
      if component.desired < component.minimum || component.desired > component.maximum { return false; }
      if exists d :: d in component.dependencies && d !in visited { return false; }
      assert order[..i + 1] == order[..i] + [name];
      visited := visited + {name};
    }
    ok := true;
  }

  // ---- what the planner admits, the node accepts ----

  /** An error about the graph or of a component blocks the plan. */
  lemma ErrorBlocks(spec: Spec, o: Inputs, plan: Plan, f: Finding)
    requires Proper(spec) && IsPlan(spec, o, plan) && f.error
    requires f in GraphFindings(spec, o) || f in Union(OwnOfEach(spec, o), ByName(spec))
    ensures plan.blocked
  {
    assert f in plan.findings;
  }

  /** A blocked component blocks the plan. */
  lemma BlockedComponentBlocks(spec: Spec, o: Inputs, plan: Plan, n: string)
    requires Proper(spec) && IsPlan(spec, o, plan) && n in spec.components && n in plan.components
    requires plan.components[n].blocked
    ensures plan.blocked
  {
    EachIs(PlanOfEach(spec, o, GraphFindings(spec, o)), ByName(spec), n);
    var p := PlanComponent(spec, n, o, GraphFindings(spec, o));
    var f :| f in p.findings && f.error;
    if f in OwnFindings(spec.components[n], n, o) { UnionHas(OwnOfEach(spec, o), ByName(spec), n, f); }
    ErrorBlocks(spec, o, plan, f);
  }

  /** So does a dependency on something that is not a component, and a dependency cycle. */
  lemma UnknownBlocks(spec: Spec, o: Inputs, plan: Plan, p: (string, string))
    requires Proper(spec) && IsPlan(spec, o, plan) && p in Topology.Unknown(spec.names, AllDependencies(spec))
    ensures plan.blocked
  {
    var f := ErrorAt(DependencyUnknown, p.0);
    assert f in OrderFindings(Topology.Unknown(spec.names, AllDependencies(spec)), Topology.HasCycle(Graph(spec)));
    ErrorBlocks(spec, o, plan, f);
  }

  lemma CycleBlocks(spec: Spec, o: Inputs, plan: Plan)
    requires Proper(spec) && IsPlan(spec, o, plan) && Topology.HasCycle(Graph(spec))
    ensures plan.blocked
  {
    ErrorBlocks(spec, o, plan, Finding(true, DependencyCycle, WholeGraph));
  }

  lemma BadCountBlocks(spec: Spec, o: Inputs, plan: Plan, n: string)
    requires Proper(spec) && IsPlan(spec, o, plan)
    requires n in spec.components && n in o.overrides && !Acceptable(spec.components[n], o.overrides[n])
    ensures plan.blocked
  {
    NamesAreComponents(spec);
    var f := ErrorAt(OverrideOutOfBounds, n);
    UnionHas(AboutEach(spec, o), spec.names, n, f);
    ErrorBlocks(spec, o, plan, f);
  }

  /** In the order of a plan that is not blocked every dependency comes before what depends on it. */
  lemma DependenciesComeFirst(spec: Spec, o: Inputs, plan: Plan, i: nat, d: string)
    requires Proper(spec) && IsPlan(spec, o, plan) && !plan.blocked && i < |plan.order|
    requires plan.order[i] in spec.components && d in Dependencies(spec, spec.components[plan.order[i]], plan.order[i])
    ensures d in plan.order[..i]
  {
    if Topology.HasCycle(Graph(spec)) { CycleBlocks(spec, o, plan); }
    var n, g := plan.order[i], Graph(spec);
    KnownOrUnknown(spec, n, d);
    if (n, d) in Topology.Unknown(spec.names, AllDependencies(spec)) { UnknownBlocks(spec, o, plan, (n, d)); }
    BeforeInOrder(g, plan.order, i, d);
  }

  lemma BeforeInOrder(g: Topology.Graph, order: seq<string>, i: nat, d: string)
    requires Topology.IsOrder(g, order, false) && i < |order| && order[i] in g && d in g && d in g[order[i]]
    ensures d in order[..i]
  {
    assert d in Elements(order);
    var j :| 0 <= j < |order| && order[j] == d;
    Topology.DependenciesFirst(g, order, j, i);
  }

  /** A dependency is one of the graph's or is reported as unknown. */
  lemma KnownOrUnknown(spec: Spec, n: string, d: string)
    requires Proper(spec) && n in spec.components && d in Dependencies(spec, spec.components[n], n)
    ensures n in Graph(spec)
    ensures (d in Graph(spec) && d in Graph(spec)[n]) || (n, d) in Topology.Unknown(spec.names, AllDependencies(spec))
  {
    assert n in Elements(spec.names);
  }

  /** The order of any plan lists every component once. */
  lemma OrderIsComplete(spec: Spec, o: Inputs, plan: Plan)
    requires Proper(spec) && IsPlan(spec, o, plan)
    ensures multiset(plan.order) == multiset(spec.names)
  {
    Topology.KnownClosed(spec.names, AllDependencies(spec));
    SameElements(plan.order, spec.names);
  }

  lemma SameElements(a: seq<string>, b: seq<string>)
    requires NoRepeat(a) && NoRepeat(b) && Elements(a) == Elements(b)
    ensures multiset(a) == multiset(b)
  {
    forall x ensures multiset(a)[x] == multiset(b)[x] {
      Once(a, x);
      Once(b, x);
      assert x in a <==> x in Elements(a);
      assert x in b <==> x in Elements(b);
    }
  }

  lemma {:induction false} Once(s: seq<string>, x: string)
    requires NoRepeat(s)
    ensures multiset(s)[x] == if x in s then 1 else 0
  {
    if s != [] {
      Once(s[1..], x);
      assert s == [s[0]] + s[1..];
      assert s[0] !in s[1..];
    }
  }

  /** A component whose planned count the planner has compared with its bounds. */
  predicate CountChecked(c: Component, name: string, o: Inputs) {
    name in o.overrides || WithinBounds(c, c.instances)
  }

  lemma DesiredWithinBounds(spec: Spec, o: Inputs, plan: Plan, n: string)
    requires Proper(spec) && IsPlan(spec, o, plan) && !plan.blocked && n in spec.components
    ensures WithinBounds(spec.components[n], Desired(spec.components[n], n, o)) <==> CountChecked(spec.components[n],
                                                                                                  n, o)
  {
    if n in o.overrides && !Acceptable(spec.components[n], o.overrides[n]) { BadCountBlocks(spec, o, plan, n); }
  }

  /** A plan that is not blocked passes the node's completeness, admission and order checks. It passes all
      of them exactly when every component without an override has its own count within its bounds,
      which the planner does not compare and which the specification's own validation guarantees. */
  lemma UnblockedIsAccepted(spec: Spec, o: Inputs, plan: Plan)
    requires Proper(spec) && IsPlan(spec, o, plan) && !plan.blocked
    ensures multiset(plan.order) == multiset(spec.names)
    ensures forall i :: 0 <= i < |plan.order| ==>
              plan.order[i] in spec.components
              && (Runs(plan, i) <==> CountChecked(spec.components[plan.order[i]], plan.order[i], o))
  {
    OrderIsComplete(spec, o, plan);
    forall i | 0 <= i < |plan.order|
      ensures plan.order[i] in spec.components
           && (Runs(plan, i) <==> CountChecked(spec.components[plan.order[i]], plan.order[i], o)) {
      assert plan.order[i] in multiset(plan.order);
      assert plan.order[i] in Elements(spec.names);
      RunsIfChecked(spec, o, plan, i);
    }
  }

  lemma PlannedFields(spec: Spec, o: Inputs, plan: Plan, n: string)
    requires Proper(spec) && IsPlan(spec, o, plan) && n in spec.components
    ensures n in plan.components
    ensures var p, c := plan.components[n], spec.components[n];
            && p.desired == Desired(c, n, o) && p.minimum == c.minimum && p.maximum == c.maximum
            && p.dependencies == Dependencies(spec, c, n)
  {
    EachIs(PlanOfEach(spec, o, GraphFindings(spec, o)), ByName(spec), n);
  }

  lemma UnblockedComponent(spec: Spec, o: Inputs, plan: Plan, n: string)
    requires Proper(spec) && IsPlan(spec, o, plan) && !plan.blocked && n in spec.components
    ensures n in plan.components && !plan.components[n].blocked
  {
    PlannedFields(spec, o, plan, n);
    if plan.components[n].blocked { BlockedComponentBlocks(spec, o, plan, n); }
  }

  lemma AllDependenciesFirst(spec: Spec, o: Inputs, plan: Plan, i: nat)
    requires Proper(spec) && IsPlan(spec, o, plan) && !plan.blocked && i < |plan.order|
    requires plan.order[i] in spec.components
    ensures forall d :: d in Dependencies(spec, spec.components[plan.order[i]], plan.order[i]) ==> d in plan.order[..i]
  {
    forall d | d in Dependencies(spec, spec.components[plan.order[i]], plan.order[i]) ensures d in plan.order[..i] {
      DependenciesComeFirst(spec, o, plan, i, d);
    }
  }

  lemma RunsIfChecked(spec: Spec, o: Inputs, plan: Plan, i: nat)
    requires Proper(spec) && IsPlan(spec, o, plan) && !plan.blocked && i < |plan.order|
    requires plan.order[i] in spec.components
    ensures Runs(plan, i) <==> CountChecked(spec.components[plan.order[i]], plan.order[i], o)
  {
    var n := plan.order[i];
    UnblockedComponent(spec, o, plan, n);
    PlannedFields(spec, o, plan, n);
    DesiredWithinBounds(spec, o, plan, n);
    AllDependenciesFirst(spec, o, plan, i);
  }

  /** What a node accepts is the specification that it has downloaded, up to the order of members. */
  lemma AcceptedSpecification(p: Payload, digest: string, spec: JsonValues.Json)
    requires Genuine(p, digest, Some(spec))
    ensures JsonValues.Meaning(p.spec) == JsonValues.Meaning(spec)
  {
    Printing.CanonicalJsonDecides(p.spec, spec);
  }
}
