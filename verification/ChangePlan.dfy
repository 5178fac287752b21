/** The plan that takes an application from one specification revision to the next. */
module ChangePlan {
  import opened StringOrder
  import opened Options
  import opened Lists
  import opened JsonValues
  import opened Pointers
  import opened TreeDiff
  import opened Specs

  function Lookup(entries: map<string, Tree>, key: string): Option<Tree> {
    if key in entries then Some(entries[key]) else None
  }

  function Field(t: Tree, name: string): Option<Tree> {
    if t.Object? then Lookup(t.fields, name) else None
  }

  datatype Classification =
    | NoOp | MetadataUpdate | ConfigurationChange
    | ComponentCreate | ComponentRemove | ComponentRecreate | ComponentRollingRestart | ComponentScale
    | RouteUpdate | JobUpdate
    | ResourceCreate | ResourceRemove | ResourceRecreate | ResourceIncompatibleChange
    | UnsupportedChange

  datatype RemovalPolicy = Delete | Retain | Quarantine

  datatype Action = Action(
    classification: Classification,
    address: string,
    changed: seq<string>,
    requiresApproval: bool,
    destructive: bool,
    restartRequired: bool,
    blocked: bool)

  /** An action with the flags its classification carries. */
  function Make(kind: Classification, address: string, changed: seq<string>, policy: RemovalPolicy): Action {
    Action(kind, address, changed,
           kind in {UnsupportedChange, ResourceRemove, ResourceIncompatibleChange},
           kind == ResourceIncompatibleChange || (kind == ResourceRemove && policy == Delete),
           kind in {ComponentRecreate, ComponentRollingRestart, ResourceRecreate, ResourceIncompatibleChange},
           kind == UnsupportedChange)
  }

  // ---- components present in both revisions ----

  const INSTANCES := "instances"

  /** What the component type guarantees: an object with a numeric instance count. */
  ghost predicate Component(t: Tree) {
    t.Object? && INSTANCES in t.fields && t.fields[INSTANCES].Number?
  }

  const PASSIVE: set<string> := {"displayName", "minimumReady", "rollout", "siteOverrides"}
  const RECREATE: set<string> := {"role", "profile", "interfaces", "configurationFiles",
                                  "mounts", "runtime", "capacity", "placement"}

  function Differs(l: Option<Tree>, r: Option<Tree>): (b: bool)
    ensures b == !SameOption(l, r)
  {
    if l.Some? && r.Some? then !IsSame(l.value, r.value) else l.Some? || r.Some?
  }

  /** `changedTopLevelFields` other than the instance count. */
  function ChangedFields(before: Tree, after: Tree): set<string>
    requires before.Object? && after.Object?
  {
    set f | f in before.fields.Keys + after.fields.Keys && f != INSTANCES
            && Differs(Field(before, f), Field(after, f))
  }

  function RollingStrategy(t: Tree): bool {
    var rollout := Field(t, "rollout");
    rollout.Some? && Field(rollout.value, "strategy") == Some(String("rolling"))
  }

  predicate Scaled(before: Tree, after: Tree) {
    Field(before, INSTANCES) != Field(after, INSTANCES)
  }

  /** An executable change recreates the component instead of rolling it. */
  predicate Recreates(before: Tree, after: Tree)
    requires before.Object? && after.Object?
  {
    !RollingStrategy(after) || ChangedFields(before, after) * RECREATE != {}
  }

  function KindsIf(scaled: bool, presents: bool, executes: bool, recreates: bool): set<Classification> {
    (if scaled then {ComponentScale} else {})
    + (if presents then {MetadataUpdate} else {})
    + (if !executes then {} else if recreates then {ComponentRecreate} else {ComponentRollingRestart})
  }

  /** Which actions a component present in both revisions gets. */
  function ComponentKinds(before: Tree, after: Tree): set<Classification> {
    if IsSame(before, after) || !before.Object? || !after.Object? then {}
    else
      KindsIf(Scaled(before, after), ChangedFields(before, after) * PASSIVE != {},
              ChangedFields(before, after) - PASSIVE != {}, Recreates(before, after))
  }

  /** The addresses that start with the pointer of one of the fields. */
  function Under(addresses: seq<string>, base: Path, fields: set<string>): (r: seq<string>)
    ensures forall a :: a in r <==> a in addresses && exists f | f in fields :: Pointer(base + [f]) <= a
  {
    if addresses == [] then []
    else
      var rest := Under(addresses[1..], base, fields);
      var r := if exists f | f in fields :: Pointer(base + [f]) <= addresses[0]
               then [addresses[0]] + rest else rest;
      assert addresses == [addresses[0]] + addresses[1..];
      r
  }

  function Without(addresses: seq<string>, a: string): (r: seq<string>)
    ensures forall x :: x in r <==> x in addresses && x != a
  {
    if addresses == [] then []
    else
      assert addresses == [addresses[0]] + addresses[1..];
      (if addresses[0] == a then [] else [addresses[0]]) + Without(addresses[1..], a)
  }

  /** A changed presentation field and a changed executable field such that the name of one starts
      with the name of the other. */
  ghost predicate PrefixClash(before: Tree, after: Tree)
    requires before.Object? && after.Object?
  {
    exists f, g :: f in ChangedFields(before, after) * PASSIVE && g in ChangedFields(before, after) - PASSIVE
                   && (f <= g || g <= f)
  }

  /** The loop body for a component present in both revisions. Its actions' changed addresses
      cover the difference, and are disjoint exactly when no two field names clash. */
  method ComponentActions(key: string, before: Tree, after: Tree, policy: RemovalPolicy)
    returns (actions: seq<Action>)
    requires Component(before) && Component(after)
    ensures MadeFor(actions, Pointer(["components", key]), policy)
    ensures KindsOf(actions) == ComponentKinds(before, after)
    ensures forall a :: Reported(before, after, ["components", key], a) <==> Covers(actions, a)
    ensures !Same(before, after) ==> (PrefixClash(before, after) <==> exists a :: CoversTwice(actions, a))
  {
    if IsSame(before, after) {
      NothingReported(before, after, ["components", key]);
      return [];
    }
    var base := ["components", key];
    var changed := ChangedFields(before, after);
    var all := DiffAddresses(before, after, base);
    var other := Without(all, Pointer(base + [INSTANCES]));
    var passive, executable := Under(other, base, changed * PASSIVE), Under(other, base, changed - PASSIVE);
    var scaled, recreates := Scaled(before, after), Recreates(before, after);
    var presents, executes := changed * PASSIVE != {}, changed - PASSIVE != {};
    InstanceAddress(before, after, base);
    FieldsCover(before, after, base, other, passive, executable);
    FieldsOverlap(before, after, base, other, passive, executable);
    var count := Pointer(base + [INSTANCES]);
    ActionsFacts(Pointer(base), scaled, presents, executes, recreates, count, passive, executable, policy);
    actions := ActionsIf(Pointer(base), scaled, presents, executes, recreates, count, passive, executable, policy);
  }

  /** The actions of a changed component. */
  function ActionsIf(address: string, scaled: bool, presents: bool, executes: bool, recreates: bool, count: string,
                     passive: seq<string>, executable: seq<string>, policy: RemovalPolicy): seq<Action> {
    (if scaled then [Make(ComponentScale, address, [count], policy)] else [])
    + (if presents then [Make(MetadataUpdate, address, passive, policy)] else [])
    + (if executes then
         [Make(if recreates then ComponentRecreate else ComponentRollingRestart, address, executable, policy)]
       else [])
  }

  /** All actions are for one address and carry their classification's flags. */
  ghost predicate MadeFor(actions: seq<Action>, address: string, policy: RemovalPolicy) {
    forall i :: 0 <= i < |actions| ==>
      actions[i] == Make(actions[i].classification, address, actions[i].changed, policy)
  }

  ghost function KindsOf(actions: seq<Action>): set<Classification> {
    set i | 0 <= i < |actions| :: actions[i].classification
  }

  lemma KindsConcat(a: seq<Action>, b: seq<Action>)
    ensures KindsOf(a + b) == KindsOf(a) + KindsOf(b)
  {
    var c := a + b;
    forall i | 0 <= i < |a| ensures a[i].classification in KindsOf(c) { assert c[i] == a[i]; }
    forall i | 0 <= i < |b| ensures b[i].classification in KindsOf(c) { assert c[|a| + i] == b[i]; }
  }

  /** Some action lists the address. */
  ghost predicate Covers(actions: seq<Action>, a: string) {
    exists act :: act in actions && a in act.changed
  }

  /** Two of the actions list it. */
  ghost predicate CoversTwice(actions: seq<Action>, a: string) {
    exists i, j :: 0 <= i < j < |actions| && a in actions[i].changed && a in actions[j].changed
  }

  lemma {:induction false} ActionsFacts(address: string, scaled: bool, presents: bool, executes: bool, recreates: bool,
                                        count: string, passive: seq<string>, executable: seq<string>,
                                        policy: RemovalPolicy)
    requires !presents ==> passive == []
    requires !executes ==> executable == []
    requires count !in passive && count !in executable
    ensures var actions := ActionsIf(address, scaled, presents, executes, recreates, count, passive, executable,
                                     policy);
      && MadeFor(actions, address, policy)
      && KindsOf(actions) == KindsIf(scaled, presents, executes, recreates)
      && (forall a :: Covers(actions, a) <==> (scaled && a == count) || a in passive || a in executable)
      && (forall a :: CoversTwice(actions, a) <==> a in passive && a in executable)
  {
    var scale := if scaled then [Make(ComponentScale, address, [count], policy)] else [];
    var presentation := if presents then [Make(MetadataUpdate, address, passive, policy)] else [];
    var execution := if executes then
      [Make(if recreates then ComponentRecreate else ComponentRollingRestart, address, executable, policy)] else [];
    KindsConcat(scale, presentation);
    KindsConcat(scale + presentation, execution);
    ActionsCover(scale, presentation, execution, count, passive, executable);
  }

  lemma ActionsCover(scale: seq<Action>, presentation: seq<Action>, execution: seq<Action>,
                     count: string, passive: seq<string>, executable: seq<string>)
    requires |scale| <= 1 && |presentation| <= 1 && |execution| <= 1
    requires scale != [] ==> scale[0].changed == [count]
    requires presentation != [] ==> presentation[0].changed == passive
    requires execution != [] ==> execution[0].changed == executable
    requires presentation == [] ==> passive == []
    requires execution == [] ==> executable == []
    requires count !in passive && count !in executable
    ensures forall a :: Covers(scale + presentation + execution, a)
                   <==> (scale != [] && a == count) || a in passive || a in executable
    ensures forall a :: CoversTwice(scale + presentation + execution, a) <==> a in passive && a in executable
  {
    var all := scale + presentation + execution;
    var n := |scale| + |presentation|;
    assert scale != [] ==> all[0] == scale[0];
    assert presentation != [] ==> all[|scale|] == presentation[0];
    assert execution != [] ==> all[n] == execution[0];
    forall a ensures Covers(all, a) <==> (scale != [] && a == count) || a in passive || a in executable {
      if scale != [] && a == count { assert all[0] in all; }
      if a in passive { assert all[|scale|] in all; }
      if a in executable { assert all[n] in all; }
    }
    forall a | a in passive && a in executable ensures CoversTwice(all, a) {
      assert a in all[|scale|].changed && a in all[n].changed;
    }
  }

  lemma NothingReported(l: Tree, r: Tree, base: Path)
    requires Same(l, r)
    ensures forall a :: !Reported(l, r, base, a)
  {
    ListedNonempty(l, r);
  }

  /** The instance count is reported as itself, exactly when it differs. */
  lemma InstanceAddress(l: Tree, r: Tree, base: Path)
    requires Component(l) && Component(r) && !Same(l, r) && base != []
    ensures Field(l, INSTANCES) != Field(r, INSTANCES)
       <==> Reported(l, r, base, Pointer(base + [INSTANCES]))
    ensures forall p :: Listed(l, r, [INSTANCES] + p) ==> p == []
  {
    var x, y := l.fields[INSTANCES], r.fields[INSTANCES];
    forall p ensures Listed(l, r, [INSTANCES] + p) <==> x != y && p == [] {
      MemberListed(l, r, INSTANCES, p);
    }
    assert [INSTANCES] + [] == [INSTANCES];
    if Reported(l, r, base, Pointer(base + [INSTANCES])) {
      var p :| Listed(l, r, p) && Pointer(base + [INSTANCES]) == Pointer(base + p);
      PointerBelow(base, [INSTANCES], p);
    }
  }

  /** A changed field other than the count has a listed path below it, and every listed path lies
      below a changed field. */
  lemma FieldListed(l: Tree, r: Tree, f: string)
    requires l.Object? && r.Object? && !Same(l, r)
    ensures (exists p :: Listed(l, r, [f] + p))
       <==> (f in l.fields || f in r.fields) && Differs(Field(l, f), Field(r, f))
  {
    if f in l.fields && f in r.fields {
      ListedNonempty(l.fields[f], r.fields[f]);
      forall p ensures Listed(l, r, [f] + p) <==> Listed(l.fields[f], r.fields[f], p) {
        MemberListed(l, r, f, p);
      }
    } else if f in l.fields || f in r.fields {
      ListedHere(l, r, f);
      assert [f] + [] == [f];
      assert Listed(l, r, [f] + []);
    }
  }

  /** Every reported address but the count's is that of a changed field or lies below one. */
  lemma AddressField(l: Tree, r: Tree, base: Path, a: string) returns (h: string, below: Path)
    requires Component(l) && Component(r) && !Same(l, r) && base != []
    requires Reported(l, r, base, a) && a != Pointer(base + [INSTANCES])
    ensures h in ChangedFields(l, r) && a == Pointer(base + [h] + below)
  {
    var p := ListedAddress(l, r, base, a);
    h, below := p[0], p[1..];
    assert p == [h] + below;
    PathParts(base, h, below);
    FieldListed(l, r, h);
    NotTheCount(l, r, base, h, below);
  }

  lemma ListedAddress(l: Tree, r: Tree, base: Path, a: string) returns (p: Path)
    requires l.Object? && r.Object? && !Same(l, r) && Reported(l, r, base, a)
    ensures p != [] && Listed(l, r, p) && a == Pointer(base + p)
  {
    p :| Listed(l, r, p) && a == Pointer(base + p);
  }

  lemma PathParts(base: Path, h: string, below: Path)
    ensures base + ([h] + below) == base + [h] + below
  {}

  /** A listed path through the count is the count's own. */
  lemma NotTheCount(l: Tree, r: Tree, base: Path, h: string, below: Path)
    requires Component(l) && Component(r) && !Same(l, r) && base != []
    requires Listed(l, r, [h] + below) && Pointer(base + [h] + below) != Pointer(base + [INSTANCES])
    ensures h != INSTANCES
  {
    InstanceAddress(l, r, base);
    assert h == INSTANCES ==> Listed(l, r, [INSTANCES] + below);
    assert h == INSTANCES ==> below == [] && base + [h] + below == base + [INSTANCES];
  }

  lemma FieldsCover(l: Tree, r: Tree, base: Path, other: seq<string>, passive: seq<string>, executable: seq<string>)
    requires Component(l) && Component(r) && !Same(l, r) && base != []
    requires forall a :: a in other <==> Reported(l, r, base, a) && a != Pointer(base + [INSTANCES])
    requires passive == Under(other, base, ChangedFields(l, r) * PASSIVE)
    requires executable == Under(other, base, ChangedFields(l, r) - PASSIVE)
    ensures forall a :: a in other <==> a in passive || a in executable
    ensures ChangedFields(l, r) * PASSIVE == {} ==> passive == []
    ensures ChangedFields(l, r) - PASSIVE == {} ==> executable == []
  {
    forall a | a in other ensures a in passive || a in executable {
      var h, below := AddressField(l, r, base, a);
      StartsWithField(base, h, h, below);
    }
    if passive != [] { assert passive[0] in passive; }
    if executable != [] { assert executable[0] in executable; }
  }

  lemma FieldsOverlap(l: Tree, r: Tree, base: Path, other: seq<string>, passive: seq<string>, executable: seq<string>)
    requires Component(l) && Component(r) && !Same(l, r) && base != []
    requires forall a :: a in other <==> Reported(l, r, base, a) && a != Pointer(base + [INSTANCES])
    requires passive == Under(other, base, ChangedFields(l, r) * PASSIVE)
    requires executable == Under(other, base, ChangedFields(l, r) - PASSIVE)
    ensures PrefixClash(l, r) <==> exists a :: a in passive && a in executable
  {
    if a :| a in passive && a in executable {
      var h, below := AddressField(l, r, base, a);
      var f :| f in ChangedFields(l, r) * PASSIVE && Pointer(base + [f]) <= a;
      var g :| g in ChangedFields(l, r) - PASSIVE && Pointer(base + [g]) <= a;
      StartsWithField(base, f, h, below);
      StartsWithField(base, g, h, below);
      PrefixesCompare(f, g, h);
    }
    if PrefixClash(l, r) {
      var f, g :| f in ChangedFields(l, r) * PASSIVE && g in ChangedFields(l, r) - PASSIVE && (f <= g || g <= f);
      var h := if f <= g then g else f;
      var a := FieldAddress(l, r, base, h, f, g);
    }
  }

  /** A changed field's first reported address starts with the pointer of every prefix of its name. */
  lemma FieldAddress(l: Tree, r: Tree, base: Path, h: string, f: string, g: string) returns (a: string)
    requires Component(l) && Component(r) && !Same(l, r) && base != []
    requires h in ChangedFields(l, r) && f <= h && g <= h
    ensures Reported(l, r, base, a) && a != Pointer(base + [INSTANCES])
    ensures Pointer(base + [f]) <= a && Pointer(base + [g]) <= a
  {
    FieldListed(l, r, h);
    var p :| Listed(l, r, [h] + p);
    a := Pointer(base + [h] + p);
    assert base + [h] + p == base + ([h] + p) && ([h] + p)[0] == h;
    StartsWithField(base, f, h, p);
    StartsWithField(base, g, h, p);
    if a == Pointer(base + [INSTANCES]) {
      PointerBelow(base, [h] + p, [INSTANCES]);
    }
  }

  lemma PrefixesCompare(f: string, g: string, h: string)
    requires f <= h && g <= h
    ensures f <= g || g <= f
  {}

  /** The field names the planner knows do not clash, so a supported component's actions split its
      difference without overlap. */
  lemma SupportedFieldsDoNotClash(before: Tree, after: Tree)
    requires before.Object? && after.Object?
    requires before.fields.Keys <= COMPONENT_FIELDS && after.fields.Keys <= COMPONENT_FIELDS
    ensures !PrefixClash(before, after)
  {
    forall f, g | f in ChangedFields(before, after) * PASSIVE && g in ChangedFields(before, after) - PASSIVE
      ensures !(f <= g || g <= f)
    {
      assert g in COMPONENT_FIELDS - PASSIVE;
      NamesApart(f, g);
    }
  }

  lemma NamesApart(f: string, g: string)
    requires f in PASSIVE && g in COMPONENT_FIELDS - PASSIVE && g != INSTANCES
    ensures !(f <= g || g <= f)
  {
    assert |f| >= 7 && |g| >= 4;
    assert f[0] != g[0] || f[1] != g[1] || f[2] != g[2] || f[3] != g[3];
  }

  /** With a field the planner does not know they can: an unknown name that starts with `rollout`,
      changed together with `rollout`. */
  lemma UnknownFieldClash()
    ensures var before := Object(map[INSTANCES := Number(1), "rollout" := Number(1), "rolloutNote" := Number(1)]);
            var after := Object(map[INSTANCES := Number(1), "rollout" := Number(2), "rolloutNote" := Number(2)]);
            Component(before) && Component(after) && PrefixClash(before, after)
  {
    var before := Object(map[INSTANCES := Number(1), "rollout" := Number(1), "rolloutNote" := Number(1)]);
    var after := Object(map[INSTANCES := Number(1), "rollout" := Number(2), "rolloutNote" := Number(2)]);
    var f, g := "rollout", "rolloutNote";
    assert g == f + "Note" && f[0] != INSTANCES[0] && g[0] != INSTANCES[0];
    assert |f| == 7 && |g| == 11 && g[0] != "displayName"[0];
    assert g !in PASSIVE;
    assert Strip(Number(1)) == Number(1) && Strip(Number(2)) == Number(2);
    assert Field(before, f) == Some(Number(1)) && Field(after, f) == Some(Number(2));
    assert Field(before, g) == Some(Number(1)) && Field(after, g) == Some(Number(2));
    assert f in ChangedFields(before, after) * PASSIVE && g in ChangedFields(before, after) - PASSIVE;
  }

  // ---- the whole plan ----

  ghost predicate Typed(s: Spec) {
    forall key :: key in s.components ==> Component(s.components[key])
  }

  predicate Durable(t: Tree) {
    Field(t, "durability") == Some(String("durable"))
  }

  /** Which actions one entry of a section gets. */
  function Kinds(section: Section, before: Option<Tree>, after: Option<Tree>): set<Classification> {
    if !Differs(before, after) then {}
    else
      match section
      case Configuration => {ConfigurationChange}
      case Routes => {RouteUpdate}
      case Jobs => {JobUpdate}
      case Components =>
        if before.None? then {ComponentCreate}
        else if after.None? then {ComponentRemove}
        else ComponentKinds(before.value, after.value)
      case Resources =>
        if before.None? then {ResourceCreate}
        else if after.None? then {ResourceRemove}
        else if Durable(before.value) || Durable(after.value) then {ResourceIncompatibleChange}
        else {ResourceRecreate}
  }

  /** The loop body of a section for one key. */
  method EntryActions(section: Section, key: string, before: Option<Tree>, after: Option<Tree>, policy: RemovalPolicy)
    returns (actions: seq<Action>)
    requires section.Components? ==>
            (before.Some? ==> Component(before.value)) && (after.Some? ==> Component(after.value))
    ensures MadeFor(actions, Pointer([SectionName(section), key]), policy)
    ensures KindsOf(actions) == Kinds(section, before, after)
    ensures forall a :: Covers(actions, a) <==> EntryReported(section, key, before, after, a)
  {
    if !Differs(before, after) {
      NothingDiffers(section, key, before, after);
      return [];
    }
    if section.Components? && before.Some? && after.Some? {
      actions := ComponentActions(key, before.value, after.value, policy);
      return;
    }
    var path := [SectionName(section), key];
    var changed := [Pointer(path)];
    if before.Some? && after.Some? {
      changed := DiffAddresses(before.value, after.value, path);
    }
    var kind :| kind in Kinds(section, before, after);
    assert Kinds(section, before, after) == {kind};
    actions := [Make(kind, Pointer(path), changed, policy)];
    OneAction(actions[0]);
    assert forall a :: Covers(actions, a) <==> a in changed by { assert actions[0] in actions; }
  }

  /** The addresses at which an entry differs: those of the tree difference, or the entry's own when it is
      on one side only. */
  ghost predicate EntryReported(section: Section, key: string, before: Option<Tree>, after: Option<Tree>, a: string) {
    && Differs(before, after)
    && if before.Some? && after.Some? then Reported(before.value, after.value, [SectionName(section), key], a)
       else a == Pointer([SectionName(section), key])
  }

  lemma NothingDiffers(section: Section, key: string, before: Option<Tree>, after: Option<Tree>)
    requires !Differs(before, after)
    ensures forall a :: !EntryReported(section, key, before, after, a)
  {}

  lemma OneAction(a: Action)
    ensures KindsOf([a]) == {a.classification}
    ensures Tags([a]) == {(a.classification, a.address)}
    ensures Cover([a]) == iset p: Change | IsChange(a, p)
  {
    assert [a][0] == a;
    forall p: Change ensures Changes([a], p) <==> IsChange(a, p) {
      assert a in [a];
    }
  }

  predicate IsChange(act: Action, p: Change) {
    act.classification != UnsupportedChange && act.address == p.0 && p.1 in act.changed
  }

  /** An action's address and one of its changed addresses. */
  type Change = (string, string)

  ghost predicate Changes(actions: seq<Action>, p: Change) {
    exists act :: act in actions && IsChange(act, p)
  }

  /** What the actions, but for those about unsupported shapes, say has changed where. */
  ghost function Cover(actions: seq<Action>): iset<Change> {
    iset p: Change | Changes(actions, p)
  }

  ghost predicate EntryChange(c: Spec, d: Spec, section: Section, key: string, p: Change) {
    && p.0 == Pointer([SectionName(section), key])
    && EntryReported(section, key, Lookup(Entries(c, section), key), Lookup(Entries(d, section), key), p.1)
  }

  ghost function EntryCover(c: Spec, d: Spec, section: Section, key: string): iset<Change> {
    iset p: Change | EntryChange(c, d, section, key, p)
  }

  ghost predicate InSection(c: Spec, d: Spec, section: Section, keys: set<string>, p: Change) {
    exists key :: key in keys && EntryChange(c, d, section, key, p)
  }

  ghost function SectionCover(c: Spec, d: Spec, section: Section, keys: set<string>): iset<Change> {
    iset p: Change | InSection(c, d, section, keys, p)
  }

  ghost predicate MetadataChange(c: Spec, d: Spec, p: Change) {
    !Same(c.metadata, d.metadata) && p.0 == "/metadata" && Reported(c.metadata, d.metadata, ["metadata"], p.1)
  }

  ghost function HeaderCover(c: Spec, d: Spec): iset<Change> {
    iset p: Change | MetadataChange(c, d, p)
  }

  ghost function AllCover(c: Spec, d: Spec, section: Section): iset<Change> {
    SectionCover(c, d, section, SectionKeys(c, d, section))
  }

  /** Everything that has changed, at the addresses of the tree differences. */
  ghost function WantedCover(c: Spec, d: Spec): iset<Change> {
    HeaderCover(c, d) + AllCover(c, d, Configuration) + AllCover(c, d, Components)
    + AllCover(c, d, Routes) + AllCover(c, d, Jobs) + AllCover(c, d, Resources)
  }

  /** The actions carry their flags, and have these tags and this cover. */
  ghost predicate Built(actions: seq<Action>, policy: RemovalPolicy, tags: set<Tag>, cover: iset<Change>) {
    AllMade(actions, policy) && Tags(actions) == tags && Cover(actions) == cover
  }

  lemma CoverConcat(a: seq<Action>, b: seq<Action>)
    ensures Cover(a + b) == Cover(a) + Cover(b)
  {
    assert forall act :: act in a + b <==> act in a || act in b;
    forall p: Change ensures Changes(a + b, p) <==> Changes(a, p) || Changes(b, p) {
      if Changes(a, p) {
        var act :| act in a && IsChange(act, p);
        assert act in a + b;
      }
      if Changes(b, p) {
        var act :| act in b && IsChange(act, p);
        assert act in a + b;
      }
    }
  }

  lemma BuiltConcat(a: seq<Action>, b: seq<Action>, policy: RemovalPolicy, s: set<Tag>, t: set<Tag>,
                    x: iset<Change>, y: iset<Change>)
    requires Built(a, policy, s, x) && Built(b, policy, t, y)
    ensures Built(a + b, policy, s + t, x + y)
  {
    TagsConcat(a, b);
    CoverConcat(a, b);
  }

  /** An action's classification and address. */
  type Tag = (Classification, string)

  ghost function Tags(actions: seq<Action>): set<Tag> {
    set i | 0 <= i < |actions| :: (actions[i].classification, actions[i].address)
  }

  ghost predicate AllMade(actions: seq<Action>, policy: RemovalPolicy) {
    forall i :: 0 <= i < |actions| ==>
      actions[i] == Make(actions[i].classification, actions[i].address, actions[i].changed, policy)
  }

  ghost function EntryTags(c: Spec, d: Spec, section: Section, key: string): set<Tag> {
    set kind | kind in Kinds(section, Lookup(Entries(c, section), key), Lookup(Entries(d, section), key))
      :: (kind, Pointer([SectionName(section), key]))
  }

  ghost function SectionTags(c: Spec, d: Spec, section: Section, keys: set<string>): set<Tag> {
    set key, tag | key in keys && tag in EntryTags(c, d, section, key) :: tag
  }

  function SectionKeys(c: Spec, d: Spec, section: Section): set<string> {
    Entries(c, section).Keys + Entries(d, section).Keys
  }

  ghost function HeaderTags(c: Spec, d: Spec, unsupported: set<string>): set<Tag> {
    (set a | a in unsupported :: (UnsupportedChange, a))
    + (if c.apiVersion != d.apiVersion then {(UnsupportedChange, "/apiVersion")} else {})
    + (if c.kind != d.kind then {(UnsupportedChange, "/kind")} else {})
    + (if Same(c.metadata, d.metadata) then {} else {(MetadataUpdate, "/metadata")})
  }

  ghost function AllTags(c: Spec, d: Spec, section: Section): set<Tag> {
    SectionTags(c, d, section, SectionKeys(c, d, section))
  }

  /** Everything the plan of a change consists of. */
  ghost function WantedTags(c: Spec, d: Spec, unsupported: set<string>): set<Tag> {
    HeaderTags(c, d, unsupported) + AllTags(c, d, Configuration) + AllTags(c, d, Components)
    + AllTags(c, d, Routes) + AllTags(c, d, Jobs) + AllTags(c, d, Resources)
  }

  lemma TagsConcat(a: seq<Action>, b: seq<Action>)
    ensures Tags(a + b) == Tags(a) + Tags(b)
  {
    var c := a + b;
    forall i | 0 <= i < |a| ensures (a[i].classification, a[i].address) in Tags(c) { assert c[i] == a[i]; }
    forall i | 0 <= i < |b| ensures (b[i].classification, b[i].address) in Tags(c) { assert c[|a| + i] == b[i]; }
  }

  lemma EntryMade(actions: seq<Action>, c: Spec, d: Spec, section: Section, key: string, policy: RemovalPolicy)
    requires MadeFor(actions, Pointer([SectionName(section), key]), policy)
    requires KindsOf(actions) == Kinds(section, Lookup(Entries(c, section), key), Lookup(Entries(d, section), key))
    ensures Tags(actions) == EntryTags(c, d, section, key) && AllMade(actions, policy)
  {
    forall kind | kind in KindsOf(actions)
      ensures (kind, Pointer([SectionName(section), key])) in Tags(actions)
    {
      var i :| 0 <= i < |actions| && actions[i].classification == kind;
      assert (actions[i].classification, actions[i].address) in Tags(actions);
    }
    forall tag | tag in Tags(actions) ensures tag in EntryTags(c, d, section, key) {
      var i :| 0 <= i < |actions| && tag == (actions[i].classification, actions[i].address);
      assert actions[i].classification in KindsOf(actions);
    }
  }

  /** One of the planner's loops over the keys of both revisions. */
  method SectionActions(c: Spec, d: Spec, section: Section, policy: RemovalPolicy) returns (actions: seq<Action>)
    requires Typed(c) && Typed(d)
    ensures Built(actions, policy, AllTags(c, d, section), AllCover(c, d, section))
  {
    actions := [];
    NothingYet(c, d, section, policy);
    var keys := Sorted(SectionKeys(c, d, section));
    ghost var done: set<string> := {};
    for i := 0 to |keys|
      invariant done == Elements(keys[..i])
      invariant Built(actions, policy, SectionTags(c, d, section, done), SectionCover(c, d, section, done))
    {
      actions := AddEntry(actions, c, d, section, done, keys[i], policy);
      ElementsStep(keys, i);
      done := done + {keys[i]};
    }
    assert keys[..|keys|] == keys;
  }

  lemma NothingYet(c: Spec, d: Spec, section: Section, policy: RemovalPolicy)
    ensures Built([], policy, SectionTags(c, d, section, {}), SectionCover(c, d, section, {}))
  {}

  method AddEntry(before: seq<Action>, c: Spec, d: Spec, section: Section, ghost done: set<string>,
                  key: string, policy: RemovalPolicy) returns (actions: seq<Action>)
    requires Typed(c) && Typed(d)
    requires Built(before, policy, SectionTags(c, d, section, done), SectionCover(c, d, section, done))
    ensures Built(actions, policy, SectionTags(c, d, section, done + {key}), SectionCover(c, d, section, done + {key}))
  {
    var more := EntryActions(section, key, Lookup(Entries(c, section), key), Lookup(Entries(d, section), key), policy);
    EntryMade(more, c, d, section, key, policy);
    EntryCovered(more, c, d, section, key, policy);
    BuiltConcat(before, more, policy, SectionTags(c, d, section, done), EntryTags(c, d, section, key),
                SectionCover(c, d, section, done), EntryCover(c, d, section, key));
    SectionTagsStep(c, d, section, done, key);
    SectionCoverStep(c, d, section, done, key);
    actions := before + more;
  }

  lemma EntryCovered(actions: seq<Action>, c: Spec, d: Spec, section: Section, key: string, policy: RemovalPolicy)
    requires MadeFor(actions, Pointer([SectionName(section), key]), policy)
    requires KindsOf(actions) == Kinds(section, Lookup(Entries(c, section), key), Lookup(Entries(d, section), key))
    requires forall a :: Covers(actions, a)
                    <==> EntryReported(section, key, Lookup(Entries(c, section), key),
                                       Lookup(Entries(d, section), key), a)
    ensures Cover(actions) == EntryCover(c, d, section, key)
  {
    forall act | act in actions
      ensures act.classification != UnsupportedChange && act.address == Pointer([SectionName(section), key]) {
      var i :| 0 <= i < |actions| && actions[i] == act;
      assert actions[i].classification in KindsOf(actions);
    }
    forall p: Change ensures Changes(actions, p) <==> EntryChange(c, d, section, key, p) {
      if Changes(actions, p) {
        var act :| act in actions && IsChange(act, p);
        assert Covers(actions, p.1);
      }
      if EntryChange(c, d, section, key, p) {
        assert Covers(actions, p.1);
        var act :| act in actions && p.1 in act.changed;
        assert IsChange(act, p);
      }
    }
  }

  lemma SectionCoverStep(c: Spec, d: Spec, section: Section, keys: set<string>, key: string)
    ensures SectionCover(c, d, section, keys + {key})
         == SectionCover(c, d, section, keys) + EntryCover(c, d, section, key)
  {
    forall p: Change ensures InSection(c, d, section, keys + {key}, p)
                        <==> InSection(c, d, section, keys, p) || EntryChange(c, d, section, key, p) {
      if EntryChange(c, d, section, key, p) { assert key in keys + {key}; }
      if k :| k in keys && EntryChange(c, d, section, k, p) { assert k in keys + {key}; }
    }
  }

  lemma SectionTagsStep(c: Spec, d: Spec, section: Section, keys: set<string>, key: string)
    ensures SectionTags(c, d, section, keys + {key})
         == SectionTags(c, d, section, keys) + EntryTags(c, d, section, key)
  {}

  datatype Plan = Plan(
    actions: seq<Action>,
    requiresApproval: bool,
    destructive: bool,
    restartRequired: bool,
    blocked: bool,
    createdResources: set<string>,
    removedResources: set<string>,
    recreatedResources: set<string>,
    preservedResources: set<string>)

  /** `resourceKeys`: the keys the actions' addresses name, empty keys dropped. */
  function ResourceKeys(actions: seq<Action>, kinds: set<Classification>): set<string> {
    set i | 0 <= i < |actions| && actions[i].classification in kinds
            && PointerKey(actions[i].address, "resources").Some?
            && PointerKey(actions[i].address, "resources").value != ""
      :: PointerKey(actions[i].address, "resources").value
  }

  function PlanOf(c: Spec, d: Spec, actions: seq<Action>): Plan {
    var removed := ResourceKeys(actions, {ResourceRemove});
    var recreated := ResourceKeys(actions, {ResourceRecreate, ResourceIncompatibleChange});
    Plan(actions,
         exists i | 0 <= i < |actions| :: actions[i].requiresApproval,
         exists i | 0 <= i < |actions| :: actions[i].destructive,
         exists i | 0 <= i < |actions| :: actions[i].restartRequired,
         exists i | 0 <= i < |actions| :: actions[i].blocked,
         ResourceKeys(actions, {ResourceCreate}),
         removed,
         recreated,
         set k | k in c.resources && k in d.resources && k !in removed && k !in recreated)
  }

  method AddSection(before: seq<Action>, c: Spec, d: Spec, section: Section, policy: RemovalPolicy,
                    ghost tags: set<Tag>, ghost cover: iset<Change>) returns (actions: seq<Action>)
    requires Typed(c) && Typed(d) && Built(before, policy, tags, cover)
    ensures Built(actions, policy, tags + AllTags(c, d, section), cover + AllCover(c, d, section))
  {
    var more := SectionActions(c, d, section, policy);
    BuiltConcat(before, more, policy, tags, AllTags(c, d, section), cover, AllCover(c, d, section));
    actions := before + more;
  }

  /** All actions that a change asks for. */
  method WantedActions(c: Spec, d: Spec, unsupported: set<string>, policy: RemovalPolicy) returns (actions: seq<Action>)
    requires Typed(c) && Typed(d)
    ensures Built(actions, policy, WantedTags(c, d, unsupported), WantedCover(c, d))
  {
    ghost var tags, cover := HeaderTags(c, d, unsupported), HeaderCover(c, d);
    actions := HeaderActions(c, d, unsupported, policy);
    actions := AddSection(actions, c, d, Configuration, policy, tags, cover);
    tags, cover := tags + AllTags(c, d, Configuration), cover + AllCover(c, d, Configuration);
    actions := AddSection(actions, c, d, Components, policy, tags, cover);
    tags, cover := tags + AllTags(c, d, Components), cover + AllCover(c, d, Components);
    actions := AddSection(actions, c, d, Routes, policy, tags, cover);
    tags, cover := tags + AllTags(c, d, Routes), cover + AllCover(c, d, Routes);
    actions := AddSection(actions, c, d, Jobs, policy, tags, cover);
    tags, cover := tags + AllTags(c, d, Jobs), cover + AllCover(c, d, Jobs);
    actions := AddSection(actions, c, d, Resources, policy, tags, cover);
  }

  /** The addresses of the fields of either revision that the planner does not know. */
  function Unsupported(c: Spec, d: Spec): set<string> {
    UnknownFields(c) + UnknownFields(d)
  }

  /** `unsupportedShapeActions`: the addresses that it makes actions for. */
  method UnsupportedShape(c: Spec, d: Spec) returns (addresses: seq<string>)
    ensures Elements(addresses) == Unsupported(c, d)
  {
    var current := CollectUnsupportedShape(c);
    var desired := CollectUnsupportedShape(d);
    addresses := current + desired;
  }

  /** `planApplicationChange`: exactly the wanted actions, or the single no-op. */
  method PlanApplicationChange(c: Spec, d: Spec, policy: RemovalPolicy) returns (plan: Plan)
    requires Typed(c) && Typed(d)
    ensures IsPlan(plan, c, d, Unsupported(c, d), policy)
  {
    var unknown := UnsupportedShape(c, d);
    plan := PlanWith(c, d, Elements(unknown), policy);
  }

  /** The plan, given the addresses of the fields that are not known. */
  method PlanWith(c: Spec, d: Spec, unsupported: set<string>, policy: RemovalPolicy) returns (plan: Plan)
    requires Typed(c) && Typed(d)
    ensures IsPlan(plan, c, d, unsupported, policy)
  {
    var actions := WantedActions(c, d, unsupported, policy);
    NoTags(actions);
    if actions == [] {
      actions := [Make(NoOp, "/", [], policy)];
      NoOpCovers(actions[0]);
    }
    plan := PlanOf(c, d, actions);
  }

  lemma NoOpCovers(noOp: Action)
    requires noOp.changed == []
    ensures Cover([noOp]) == Cover([])
  {
    OneAction(noOp);
  }

  lemma NoTags(actions: seq<Action>)
    ensures Tags(actions) == {} <==> actions == []
  {
    if actions != [] {
      assert (actions[0].classification, actions[0].address) in Tags(actions);
    }
  }

  method AddOne(before: seq<Action>, one: Action, policy: RemovalPolicy, ghost tags: set<Tag>,
                ghost cover: iset<Change>)
    returns (actions: seq<Action>)
    requires Built(before, policy, tags, cover) && AllMade([one], policy)
    ensures Built(actions, policy, tags + {(one.classification, one.address)}, cover + Cover([one]))
  {
    OneAction(one);
    BuiltConcat(before, [one], policy, tags, Tags([one]), cover, Cover([one]));
    actions := before + [one];
  }

  method AddUnsupported(before: seq<Action>, address: string, differs: bool, policy: RemovalPolicy,
                        ghost tags: set<Tag>)
    returns (actions: seq<Action>)
    requires Built(before, policy, tags, iset{})
    ensures Built(actions, policy, tags + if differs then {(UnsupportedChange, address)} else {}, iset{})
  {
    actions := before;
    if differs {
      var one := Make(UnsupportedChange, address, [address], policy);
      OneAction(one);
      assert Cover([one]) == iset{};
      actions := AddOne(before, one, policy, tags, iset{});
    }
  }

  method HeaderActions(c: Spec, d: Spec, unsupported: set<string>, policy: RemovalPolicy) returns (actions: seq<Action>)
    ensures Built(actions, policy, HeaderTags(c, d, unsupported), HeaderCover(c, d))
  {
    ghost var tags: set<Tag> := set a | a in unsupported :: (UnsupportedChange, a);
    actions := UnsupportedActions(unsupported, policy);
    actions := AddUnsupported(actions, "/apiVersion", c.apiVersion != d.apiVersion, policy, tags);
    tags := tags + if c.apiVersion != d.apiVersion then {(UnsupportedChange, "/apiVersion")} else {};
    actions := AddUnsupported(actions, "/kind", c.kind != d.kind, policy, tags);
    tags := tags + if c.kind != d.kind then {(UnsupportedChange, "/kind")} else {};
    if IsSame(c.metadata, d.metadata) {
      assert HeaderCover(c, d) == iset{};
      assert HeaderTags(c, d, unsupported) == tags;
    } else {
      var changed := DiffAddresses(c.metadata, d.metadata, ["metadata"]);
      var metadata := Make(MetadataUpdate, "/metadata", changed, policy);
      OneAction(metadata);
      assert Cover([metadata]) == HeaderCover(c, d);
      actions := AddOne(actions, metadata, policy, tags, iset{});
      assert iset{} + Cover([metadata]) == HeaderCover(c, d);
    }
  }

  /** What the planner returns: its actions are exactly the wanted ones, together they list exactly the
      addresses at which the two revisions differ, and where there is nothing to do there is one no-op. */
  ghost predicate IsPlan(plan: Plan, c: Spec, d: Spec, unsupported: set<string>, policy: RemovalPolicy) {
    && AllMade(plan.actions, policy)
    && plan == PlanOf(c, d, plan.actions)
    && Cover(plan.actions) == WantedCover(c, d)
    && if WantedTags(c, d, unsupported) == {} then plan.actions == [Make(NoOp, "/", [], policy)]
       else Tags(plan.actions) == WantedTags(c, d, unsupported)
  }

  method UnsupportedActions(unsupported: set<string>, policy: RemovalPolicy) returns (actions: seq<Action>)
    ensures Built(actions, policy, set a | a in unsupported :: (UnsupportedChange, a), iset{})
  {
    actions := [];
    var addresses := Sorted(unsupported);
    ghost var done: set<string> := {};
    for i := 0 to |addresses|
      invariant done == Elements(addresses[..i])
      invariant Built(actions, policy, set a | a in done :: (UnsupportedChange, a), iset{})
    {
      actions := AddUnsupported(actions, addresses[i], true, policy, set a | a in done :: (UnsupportedChange, a));
      ElementsStep(addresses, i);
      done := done + {addresses[i]};
    }
    assert addresses[..|addresses|] == addresses;
  }
}
