/** What the change planner's plans guarantee. */
module ChangePlanProperties {
  import opened JsonValues
  import opened Options
  import opened Pointers
  import opened TreeDiff
  import opened Specs
  import opened ChangePlan

  /** Two revisions say the same: every declaration has a counterpart with the same meaning. */
  ghost predicate SameSpec(c: Spec, d: Spec) {
    && c.apiVersion == d.apiVersion
    && c.kind == d.kind
    && Same(c.metadata, d.metadata)
    && forall section: Section, key :: SameOption(Lookup(Entries(c, section), key), Lookup(Entries(d, section), key))
  }

  /** A changed component gets an action. */
  lemma ChangedComponent(before: Tree, after: Tree)
    requires Component(before) && Component(after) && !Same(before, after)
    ensures ComponentKinds(before, after) != {}
  {
    ListedNonempty(before, after);
    var p :| Listed(before, after, p);
    assert p == [p[0]] + p[1..];
    FieldListed(before, after, p[0]);
    if p[0] == INSTANCES {
      InstanceAddress(before, after, ["components"]);
      assert Reported(before, after, ["components"], Pointer(["components"] + [INSTANCES]));
      assert ComponentScale in ComponentKinds(before, after);
    } else {
      assert p[0] in ChangedFields(before, after);
      assert p[0] in ChangedFields(before, after) * PASSIVE || p[0] in ChangedFields(before, after) - PASSIVE;
    }
  }

  /** An entry gets no action exactly when it is the same on both sides. */
  lemma KindsEmpty(section: Section, before: Option<Tree>, after: Option<Tree>)
    requires section.Components? ==>
            (before.Some? ==> Component(before.value)) && (after.Some? ==> Component(after.value))
    ensures Kinds(section, before, after) == {} <==> SameOption(before, after)
  {
    if Differs(before, after) && section.Components? && before.Some? && after.Some? {
      ChangedComponent(before.value, after.value);
    }
  }

  lemma SectionEmpty(c: Spec, d: Spec, section: Section)
    requires Typed(c) && Typed(d)
    ensures AllTags(c, d, section) == {}
       <==> forall key :: SameOption(Lookup(Entries(c, section), key), Lookup(Entries(d, section), key))
  {
    forall key ensures EntryTags(c, d, section, key) == {}
                  <==> SameOption(Lookup(Entries(c, section), key), Lookup(Entries(d, section), key)) {
      var kinds := Kinds(section, Lookup(Entries(c, section), key), Lookup(Entries(d, section), key));
      KindsEmpty(section, Lookup(Entries(c, section), key), Lookup(Entries(d, section), key));
      if kind :| kind in kinds {
        assert (kind, Pointer([SectionName(section), key])) in EntryTags(c, d, section, key);
      }
    }
    forall key | EntryTags(c, d, section, key) != {} ensures AllTags(c, d, section) != {} {
      var tag :| tag in EntryTags(c, d, section, key);
      assert key in SectionKeys(c, d, section);
      assert tag in AllTags(c, d, section);
    }
  }

  lemma {:induction false} NoOpWhen(plan: Plan, c: Spec, d: Spec, unsupported: set<string>, policy: RemovalPolicy)
    requires Typed(c) && Typed(d) && IsPlan(plan, c, d, unsupported, policy)
    ensures plan.actions == [Make(NoOp, "/", [], policy)] <==> unsupported == {} && SameSpec(c, d)
  {
    NothingWanted(c, d, unsupported);
    if WantedTags(c, d, unsupported) != {} && plan.actions == [Make(NoOp, "/", [], policy)] {
      OneAction(plan.actions[0]);
      assert (NoOp, "/") in WantedTags(c, d, unsupported);
      NeverNoOp(c, d, unsupported, "/");
    }
  }

  lemma {:induction false} UnsupportedExactly(c: Spec, d: Spec)
    ensures Unsupported(c, d) == {} <==> Supported(c) && Supported(d)
  {
    SupportedExactly(c);
    SupportedExactly(d);
    assert Unsupported(c, d) == UnknownFields(c) + UnknownFields(d);
  }

  /** The plan is the single no-op exactly when the planner knows every field of both revisions, at every depth that
      it looks at, and they say the same. */
  lemma {:induction false} NoOpExactly(plan: Plan, c: Spec, d: Spec, policy: RemovalPolicy)
    requires Typed(c) && Typed(d) && IsPlan(plan, c, d, Unsupported(c, d), policy)
    ensures plan.actions == [Make(NoOp, "/", [], policy)] <==> Supported(c) && Supported(d) && SameSpec(c, d)
  {
    NoOpWhen(plan, c, d, Unsupported(c, d), policy);
    UnsupportedExactly(c, d);
  }

  lemma {:induction false} BlockedWhen(plan: Plan, c: Spec, d: Spec, unsupported: set<string>, policy: RemovalPolicy)
    requires IsPlan(plan, c, d, unsupported, policy)
    ensures plan.blocked <==> unsupported != {} || c.apiVersion != d.apiVersion || c.kind != d.kind
  {
    BlockingTags(c, d, unsupported);
    BlockedByTag(plan, c, d, policy);
    if WantedTags(c, d, unsupported) == {} { OneAction(Make(NoOp, "/", [], policy)); }
  }

  lemma {:induction false} BlockedByTag(plan: Plan, c: Spec, d: Spec, policy: RemovalPolicy)
    requires AllMade(plan.actions, policy) && plan == PlanOf(c, d, plan.actions)
    ensures plan.blocked <==> exists address :: (UnsupportedChange, address) in Tags(plan.actions)
  {
    var actions := plan.actions;
    if plan.blocked {
      var i :| 0 <= i < |actions| && actions[i].blocked;
      assert (actions[i].classification, actions[i].address) in Tags(actions);
    }
    if address :| (UnsupportedChange, address) in Tags(actions) {
      var i :| 0 <= i < |actions| && (actions[i].classification, actions[i].address) == (UnsupportedChange, address);
      assert actions[i].blocked;
    }
  }

  /** Only the header asks for an action that blocks. */
  lemma {:induction false} BlockingTags(c: Spec, d: Spec, unsupported: set<string>)
    ensures (exists address :: (UnsupportedChange, address) in WantedTags(c, d, unsupported))
       <==> unsupported != {} || c.apiVersion != d.apiVersion || c.kind != d.kind
  {
    forall address, section: Section ensures (UnsupportedChange, address) !in AllTags(c, d, section) {
      SectionNeverBlocks(c, d, section, address);
    }
    if a :| a in unsupported { assert (UnsupportedChange, a) in HeaderTags(c, d, unsupported); }
    if c.apiVersion != d.apiVersion { assert (UnsupportedChange, "/apiVersion") in HeaderTags(c, d, unsupported); }
    if c.kind != d.kind { assert (UnsupportedChange, "/kind") in HeaderTags(c, d, unsupported); }
  }

  lemma {:induction false} SectionNeverBlocks(c: Spec, d: Spec, section: Section, address: string)
    ensures (UnsupportedChange, address) !in AllTags(c, d, section)
  {
    forall key ensures (UnsupportedChange, address) !in EntryTags(c, d, section, key) {
      assert UnsupportedChange !in Kinds(section, Lookup(Entries(c, section), key), Lookup(Entries(d, section), key));
    }
  }

  /** A plan is blocked exactly when a revision has a field that the planner does not know, or they are not of one
      version and kind. */
  lemma {:induction false} BlockedExactly(plan: Plan, c: Spec, d: Spec, policy: RemovalPolicy)
    requires IsPlan(plan, c, d, Unsupported(c, d), policy)
    ensures plan.blocked <==> !Supported(c) || !Supported(d) || c.apiVersion != d.apiVersion || c.kind != d.kind
  {
    BlockedWhen(plan, c, d, Unsupported(c, d), policy);
    UnsupportedExactly(c, d);
  }

  /** When the plan is not blocked, no component's actions list an address twice. */
  lemma {:induction false} UnblockedSplits(plan: Plan, c: Spec, d: Spec, policy: RemovalPolicy, key: string)
    requires IsPlan(plan, c, d, Unsupported(c, d), policy) && !plan.blocked
    requires key in c.components && key in d.components
    requires Component(c.components[key]) && Component(d.components[key])
    ensures !PrefixClash(c.components[key], d.components[key])
  {
    BlockedExactly(plan, c, d, policy);
    SupportedComponent(c, key);
    SupportedComponent(d, key);
    SupportedFieldsDoNotClash(c.components[key], d.components[key]);
  }

  lemma {:induction false} SupportedComponent(s: Spec, key: string)
    requires Supported(s) && key in s.components && s.components[key].Object?
    ensures s.components[key].fields.Keys <= COMPONENT_FIELDS
  {
    assert key in Entries(s, Components) && Conforms(SectionShape(Components), s.components[key]);
    ComponentIs();
  }

  lemma {:induction false} NothingWanted(c: Spec, d: Spec, unsupported: set<string>)
    requires Typed(c) && Typed(d)
    ensures WantedTags(c, d, unsupported) == {} <==> unsupported == {} && SameSpec(c, d)
  {
    SectionEmpty(c, d, Configuration);
    SectionEmpty(c, d, Components);
    SectionEmpty(c, d, Routes);
    SectionEmpty(c, d, Jobs);
    SectionEmpty(c, d, Resources);
    HeaderEmpty(c, d, unsupported);
  }

  lemma HeaderEmpty(c: Spec, d: Spec, unsupported: set<string>)
    ensures HeaderTags(c, d, unsupported) == {}
       <==> unsupported == {} && c.apiVersion == d.apiVersion && c.kind == d.kind && Same(c.metadata, d.metadata)
  {
    if a :| a in unsupported {
      assert (UnsupportedChange, a) in HeaderTags(c, d, unsupported);
    }
    if c.apiVersion != d.apiVersion { assert (UnsupportedChange, "/apiVersion") in HeaderTags(c, d, unsupported); }
    if c.kind != d.kind { assert (UnsupportedChange, "/kind") in HeaderTags(c, d, unsupported); }
    if !Same(c.metadata, d.metadata) { assert (MetadataUpdate, "/metadata") in HeaderTags(c, d, unsupported); }
  }

  lemma NeverNoOp(c: Spec, d: Spec, unsupported: set<string>, address: string)
    ensures (NoOp, address) !in WantedTags(c, d, unsupported)
  {
    NeverNoOpIn(c, d, Configuration, address);
    NeverNoOpIn(c, d, Components, address);
    NeverNoOpIn(c, d, Routes, address);
    NeverNoOpIn(c, d, Jobs, address);
    NeverNoOpIn(c, d, Resources, address);
  }

  lemma NeverNoOpIn(c: Spec, d: Spec, section: Section, address: string)
    ensures (NoOp, address) !in AllTags(c, d, section)
  {
    forall key ensures (NoOp, address) !in EntryTags(c, d, section, key) {}
  }

  // ---- resources ----

  const RESOURCE_KINDS: set<Classification> :=
    {ResourceCreate, ResourceRemove, ResourceRecreate, ResourceIncompatibleChange}

  /** What the plan does about one resource key. */
  ghost function ResourceKinds(c: Spec, d: Spec, key: string): set<Classification> {
    Kinds(Section.Resources, Lookup(c.resources, key), Lookup(d.resources, key))
  }

  lemma OtherSections(c: Spec, d: Spec, section: Section, kind: Classification, address: string)
    requires kind in RESOURCE_KINDS && section != Section.Resources
    ensures (kind, address) !in AllTags(c, d, section)
  {
    forall key ensures (kind, address) !in EntryTags(c, d, section, key) {}
  }

  /** Only the resource section produces resource actions. */
  lemma ResourceTags(c: Spec, d: Spec, unsupported: set<string>, kind: Classification, address: string)
    requires kind in RESOURCE_KINDS
    ensures (kind, address) in WantedTags(c, d, unsupported) <==> (kind, address) in AllTags(c, d, Resources)
  {
    OtherSections(c, d, Configuration, kind, address);
    OtherSections(c, d, Components, kind, address);
    OtherSections(c, d, Routes, kind, address);
    OtherSections(c, d, Jobs, kind, address);
    assert (kind, address) !in HeaderTags(c, d, unsupported);
  }

  /** Every action but the no-op is wanted. */
  lemma ActionIsWanted(plan: Plan, c: Spec, d: Spec, unsupported: set<string>, policy: RemovalPolicy, i: nat)
    requires IsPlan(plan, c, d, unsupported, policy) && i < |plan.actions| && plan.actions[i].classification != NoOp
    ensures (plan.actions[i].classification, plan.actions[i].address) in WantedTags(c, d, unsupported)
  {
    assert (plan.actions[i].classification, plan.actions[i].address) in Tags(plan.actions);
  }

  lemma ResourceActionTag(plan: Plan, c: Spec, d: Spec, unsupported: set<string>, policy: RemovalPolicy, i: nat)
    requires IsPlan(plan, c, d, unsupported, policy)
    requires i < |plan.actions| && plan.actions[i].classification in RESOURCE_KINDS
    ensures (plan.actions[i].classification, plan.actions[i].address) in AllTags(c, d, Resources)
  {
    ActionIsWanted(plan, c, d, unsupported, policy, i);
    ResourceTags(c, d, unsupported, plan.actions[i].classification, plan.actions[i].address);
  }

  lemma PlannedResource(plan: Plan, c: Spec, d: Spec, unsupported: set<string>, policy: RemovalPolicy, i: nat)
    returns (key: string)
    requires IsPlan(plan, c, d, unsupported, policy)
    requires i < |plan.actions| && plan.actions[i].classification in RESOURCE_KINDS
    ensures plan.actions[i].classification in ResourceKinds(c, d, key)
    ensures plan.actions[i].address == Pointer(["resources", key])
  {
    ResourceActionTag(plan, c, d, unsupported, policy, i);
    key := TagKey(c, d, plan.actions[i].classification, plan.actions[i].address);
  }

  lemma TagKey(c: Spec, d: Spec, kind: Classification, address: string) returns (key: string)
    requires (kind, address) in AllTags(c, d, Section.Resources)
    ensures kind in ResourceKinds(c, d, key) && address == Pointer(["resources", key])
  {
    key :| key in SectionKeys(c, d, Section.Resources) && (kind, address) in EntryTags(c, d, Section.Resources, key);
  }

  lemma ResourcePlanned(plan: Plan, c: Spec, d: Spec, unsupported: set<string>, policy: RemovalPolicy,
                        key: string, kind: Classification) returns (i: nat)
    requires IsPlan(plan, c, d, unsupported, policy)
    requires kind in ResourceKinds(c, d, key)
    ensures i < |plan.actions| && plan.actions[i].classification == kind
    ensures plan.actions[i].address == Pointer(["resources", key])
  {
    var tag := (kind, Pointer(["resources", key]));
    ResourceTagWanted(c, d, unsupported, key, kind);
    WantedIsPlanned(plan, c, d, unsupported, policy, tag);
    i :| 0 <= i < |plan.actions| && tag == (plan.actions[i].classification, plan.actions[i].address);
  }

  lemma ResourceTagWanted(c: Spec, d: Spec, unsupported: set<string>, key: string, kind: Classification)
    requires kind in ResourceKinds(c, d, key)
    ensures (kind, Pointer(["resources", key])) in WantedTags(c, d, unsupported)
  {
    KeyOfKind(c, d, key);
    EntryInSection(c, d, Section.Resources, key, kind);
  }

  lemma KeyOfKind(c: Spec, d: Spec, key: string)
    requires ResourceKinds(c, d, key) != {}
    ensures key in SectionKeys(c, d, Section.Resources)
  {}

  lemma EntryInSection(c: Spec, d: Spec, section: Section, key: string, kind: Classification)
    requires key in SectionKeys(c, d, section)
    requires kind in Kinds(section, Lookup(Entries(c, section), key), Lookup(Entries(d, section), key))
    ensures (kind, Pointer([SectionName(section), key])) in AllTags(c, d, section)
  {
    assert (kind, Pointer([SectionName(section), key])) in EntryTags(c, d, section, key);
  }

  lemma WantedIsPlanned(plan: Plan, c: Spec, d: Spec, unsupported: set<string>, policy: RemovalPolicy, tag: Tag)
    requires IsPlan(plan, c, d, unsupported, policy) && tag in WantedTags(c, d, unsupported)
    ensures tag in Tags(plan.actions)
  {}

  lemma ResourcePointerKey(key: string)
    ensures PointerKey(Pointer(["resources", key]), "resources") == Some(key)
  {
    PlainName("resources");
    assert ["resources", key] + [] == ["resources", key];
    PointerKeyRoundTrip("resources", key, []);
  }

  /** Reading the keys back from the plan's addresses gives the keys of the entries, the empty key
      excepted. */
  lemma PlanResourceKeys(plan: Plan, c: Spec, d: Spec, unsupported: set<string>, policy: RemovalPolicy,
                         kinds: set<Classification>, key: string)
    requires IsPlan(plan, c, d, unsupported, policy) && kinds <= RESOURCE_KINDS
    ensures key in ResourceKeys(plan.actions, kinds) <==> key != "" && ResourceKinds(c, d, key) * kinds != {}
  {
    ResourcePointerKey(key);
    if key in ResourceKeys(plan.actions, kinds) {
      var i :| 0 <= i < |plan.actions| && plan.actions[i].classification in kinds
               && PointerKey(plan.actions[i].address, "resources") == Some(key);
      var k := PlannedResource(plan, c, d, unsupported, policy, i);
      ResourcePointerKey(k);
      assert plan.actions[i].classification in ResourceKinds(c, d, key) * kinds;
    }
    if key != "" && ResourceKinds(c, d, key) * kinds != {} {
      var kind :| kind in ResourceKinds(c, d, key) * kinds;
      var i := ResourcePlanned(plan, c, d, unsupported, policy, key, kind);
      assert PointerKey(plan.actions[i].address, "resources").value in ResourceKeys(plan.actions, kinds);
    }
  }

  lemma {:induction false} PlainName(s: string)
    requires '~' !in s && '/' !in s
    ensures Encode(s) == s
  {
    if s != "" {
      EncodeHead(s);
      PlainName(s[1..]);
      assert s == [s[0]] + s[1..];
    }
  }

  /** Where a resource of the current revision ends up. */
  datatype Fate = Preserved | Removed | Recreated

  ghost function FateOf(c: Spec, d: Spec, key: string): Fate
    requires key in c.resources
  {
    if key !in d.resources then Removed
    else if Same(c.resources[key], d.resources[key]) then Preserved
    else Recreated
  }

  /** The resources of the current revision split into removed, recreated and preserved ones by what
      happens to them, except that the resource named by the empty key, when it is removed or
      changed, is in neither the removed nor the recreated list. */
  lemma ResourceSplit(plan: Plan, c: Spec, d: Spec, unsupported: set<string>, policy: RemovalPolicy, key: string)
    requires IsPlan(plan, c, d, unsupported, policy) && key in c.resources
    ensures (&& (key in plan.removedResources <==> FateOf(c, d, key) == Removed)
             && (key in plan.recreatedResources <==> FateOf(c, d, key) == Recreated)
             && (key in plan.preservedResources <==> FateOf(c, d, key) == Preserved))
       <==> key != "" || FateOf(c, d, key) == Preserved
  {
    var recreating := {ResourceRecreate, ResourceIncompatibleChange};
    PlanResourceKeys(plan, c, d, unsupported, policy, {ResourceRemove}, key);
    PlanResourceKeys(plan, c, d, unsupported, policy, recreating, key);
    FateKinds(c, d, key);
  }

  lemma FateKinds(c: Spec, d: Spec, key: string)
    requires key in c.resources
    ensures ResourceKinds(c, d, key) * {ResourceRemove} != {} <==> FateOf(c, d, key) == Removed
    ensures ResourceKinds(c, d, key) * {ResourceRecreate, ResourceIncompatibleChange} != {}
       <==> FateOf(c, d, key) == Recreated
  {
    var kinds := ResourceKinds(c, d, key);
    assert kinds == {} || kinds == {ResourceRemove} || kinds == {ResourceRecreate}
        || kinds == {ResourceIncompatibleChange};
    assert ResourceRecreate in kinds ==> ResourceRecreate in kinds * {ResourceRecreate, ResourceIncompatibleChange};
    assert ResourceIncompatibleChange in kinds ==>
      ResourceIncompatibleChange in kinds * {ResourceRecreate, ResourceIncompatibleChange};
  }

  /** The case the split excepts: a changed resource under the empty key counts as preserved. */
  lemma EmptyKeyCountsAsPreserved(plan: Plan, c: Spec, d: Spec, unsupported: set<string>, policy: RemovalPolicy)
    requires IsPlan(plan, c, d, unsupported, policy)
    requires "" in c.resources && "" in d.resources && !Same(c.resources[""], d.resources[""])
    ensures "" in plan.preservedResources && "" !in plan.recreatedResources
  {
    ResourceSplit(plan, c, d, unsupported, policy, "");
    PlanResourceKeys(plan, c, d, unsupported, policy, {ResourceRemove}, "");
    PlanResourceKeys(plan, c, d, unsupported, policy, {ResourceRecreate, ResourceIncompatibleChange}, "");
  }

  // ---- durable data over many revisions ----

  /** The durable declarations of a revision and what they say. */
  ghost function DurableData(s: Spec): map<string, Tree> {
    map key | key in s.resources && Durable(s.resources[key]) :: Strip(s.resources[key])
  }

  /** The plan's flags cover each action's, which are those of its classification. */
  lemma PlanFlags(plan: Plan, c: Spec, d: Spec, unsupported: set<string>, policy: RemovalPolicy, i: nat)
    requires IsPlan(plan, c, d, unsupported, policy) && i < |plan.actions|
    ensures var a := plan.actions[i];
      && a == Make(a.classification, a.address, a.changed, policy)
      && (a.destructive ==> plan.destructive)
      && (a.blocked ==> plan.blocked)
      && (a.requiresApproval ==> plan.requiresApproval)
  {}

  /** A durable declaration that does not survive gets a destructive action. */
  lemma LostDurable(c: Spec, d: Spec, key: string) returns (kind: Classification)
    requires key in DurableData(c)
    requires key !in d.resources || !Same(c.resources[key], d.resources[key])
    ensures kind in ResourceKinds(c, d, key) && kind in {ResourceRemove, ResourceIncompatibleChange}
  {
    kind := if key !in d.resources then ResourceRemove else ResourceIncompatibleChange;
  }

  /** A plan that is not destructive keeps every durable declaration. */
  lemma DurableKept(plan: Plan, c: Spec, d: Spec, unsupported: set<string>, key: string)
    requires IsPlan(plan, c, d, unsupported, Delete) && !plan.destructive
    requires key in DurableData(c)
    ensures key in d.resources && Same(c.resources[key], d.resources[key])
  {
    if key !in d.resources || !Same(c.resources[key], d.resources[key]) {
      var kind := LostDurable(c, d, key);
      var i := ResourcePlanned(plan, c, d, unsupported, Delete, key, kind);
      PlanFlags(plan, c, d, unsupported, Delete, i);
    }
  }

  const DURABILITY := "durability"

  lemma SameDurability(l: Tree, r: Tree)
    requires Same(l, r)
    ensures Durable(l) <==> Durable(r)
  {
    if l.Object? && r.Object? {
      SameObjects(l, r);
      assert DURABILITY[0] != PROTO[0];
      assert DURABILITY in l.fields <==> DURABILITY in l.fields.Keys - {PROTO};
      assert DURABILITY in r.fields <==> DURABILITY in r.fields.Keys - {PROTO};
      if DURABILITY in l.fields && DURABILITY in r.fields {
        OnlyString(l.fields[DURABILITY], "durable");
        OnlyString(r.fields[DURABILITY], "durable");
      }
    }
  }

  lemma OnlyString(t: Tree, s: string)
    ensures Strip(t) == String(s) <==> t == String(s)
  {}

  /** A revision that was accepted without destructive confirmation. */
  ghost predicate Accepted(plan: Plan, c: Spec, d: Spec, unsupported: set<string>) {
    IsPlan(plan, c, d, unsupported, Delete) && !plan.blocked && !plan.destructive
  }

  /** A run of such revisions. */
  ghost predicate AcceptedRun(revisions: seq<Spec>, plans: seq<Plan>, unsupported: seq<set<string>>) {
    && |plans| + 1 == |unsupported| + 1 == |revisions|
    && forall i :: 0 <= i < |plans| ==> Accepted(plans[i], revisions[i], revisions[i + 1], unsupported[i])
  }

  /** `a` is part of `b`. */
  ghost predicate Grows(a: map<string, Tree>, b: map<string, Tree>) {
    forall key :: key in a ==> key in b && b[key] == a[key]
  }

  lemma AcceptedKeepsDurable(plan: Plan, c: Spec, d: Spec, unsupported: set<string>)
    requires Accepted(plan, c, d, unsupported)
    ensures Grows(DurableData(c), DurableData(d))
  {
    forall key | key in DurableData(c)
      ensures key in DurableData(d) && DurableData(d)[key] == DurableData(c)[key]
    {
      DurableKept(plan, c, d, unsupported, key);
      SameDurability(c.resources[key], d.resources[key]);
    }
  }

  lemma {:induction false} GrowsOverRun(data: seq<map<string, Tree>>, i: nat, j: nat)
    requires forall k :: 0 <= k < |data| - 1 ==> Grows(data[k], data[k + 1])
    requires i <= j < |data|
    ensures Grows(data[i], data[j])
    decreases j
  {
    if i < j {
      GrowsOverRun(data, i, j - 1);
      assert Grows(data[j - 1], data[j - 1 + 1]);
    }
  }

  /** Without destructive confirmation the map of durable declarations only grows. */
  lemma DurableDataGrows(revisions: seq<Spec>, plans: seq<Plan>, unsupported: seq<set<string>>, i: nat, j: nat)
    requires AcceptedRun(revisions, plans, unsupported) && i <= j < |revisions|
    ensures Grows(DurableData(revisions[i]), DurableData(revisions[j]))
  {
    var data := seq(|revisions|, k requires 0 <= k < |revisions| => DurableData(revisions[k]));
    forall k | 0 <= k < |data| - 1 ensures Grows(data[k], data[k + 1]) {
      AcceptedKeepsDurable(plans[k], revisions[k], revisions[k + 1], unsupported[k]);
    }
    GrowsOverRun(data, i, j);
  }

  // ---- what the actions say has changed ----

  lemma EntryPointerUnique(section: Section, key: string, other: Section, name: string)
    requires Pointer([SectionName(section), key]) == Pointer([SectionName(other), name])
    ensures section == other && key == name
  {
    PointerCollisions([SectionName(section), key], [SectionName(other), name]);
    assert [SectionName(section), key][0] == [SectionName(other), name][0];
    assert [SectionName(section), key][1] == [SectionName(other), name][1];
    SectionNamesApart(section, other);
  }

  lemma SectionNamesApart(section: Section, other: Section)
    requires SectionName(section) == SectionName(other)
    ensures section == other
  {
    var s, t := SectionName(section), SectionName(other);
    assert |s| == |t| && s[0] == t[0] && s[2] == t[2];
  }

  lemma MetadataApart(section: Section, key: string)
    ensures Pointer([SectionName(section), key]) != "/metadata"
  {
    var p, n := Pointer([SectionName(section), key]), |Encode(SectionName(section))|;
    TwoSegments(SectionName(section), key);
    assert p[n + 1] == '/';
    assert forall i :: 1 <= i < |"/metadata"| ==> "/metadata"[i] != '/';
  }

  lemma TwoSegments(a: string, b: string)
    ensures Pointer([a, b]) == "/" + Encode(a) + ("/" + Encode(b))
    ensures Pointer([a, b])[|Encode(a)| + 1] == '/'
  {
    assert [a, b][1..] == [b] && [b][1..] == [];
    assert Slashed([b]) == "/" + Encode(b) + Slashed([]) == "/" + Encode(b);
    assert Slashed([a, b]) == "/" + Encode(a) + Slashed([b]);
  }

  lemma WantedChange(c: Spec, d: Spec, section: Section, key: string, a: string)
    ensures (Pointer([SectionName(section), key]), a) in WantedCover(c, d)
       <==> (Pointer([SectionName(section), key]), a) in AllCover(c, d, section)
  {
    var p: Change := (Pointer([SectionName(section), key]), a);
    MetadataApart(section, key);
    forall other | p in AllCover(c, d, other) ensures other == section {
      var k :| k in SectionKeys(c, d, other) && EntryChange(c, d, other, k, p);
      EntryPointerUnique(section, key, other, k);
    }
  }

  /** For every entry of every section, the actions of a plan for this entry list exactly the addresses at
      which it differs: of a component in both revisions exactly those of the tree difference. */
  lemma PlanCoversEntry(plan: Plan, c: Spec, d: Spec, unsupported: set<string>, policy: RemovalPolicy,
                        section: Section, key: string, a: string)
    requires IsPlan(plan, c, d, unsupported, policy)
    ensures Changes(plan.actions, (Pointer([SectionName(section), key]), a))
       <==> EntryReported(section, key, Lookup(Entries(c, section), key), Lookup(Entries(d, section), key), a)
  {
    var p: Change := (Pointer([SectionName(section), key]), a);
    WantedChange(c, d, section, key, a);
    if p in AllCover(c, d, section) {
      var k :| k in SectionKeys(c, d, section) && EntryChange(c, d, section, k, p);
      EntryPointerUnique(section, key, section, k);
    }
    if EntryReported(section, key, Lookup(Entries(c, section), key), Lookup(Entries(d, section), key), a) {
      assert key in SectionKeys(c, d, section) && EntryChange(c, d, section, key, p);
    }
    assert p in Cover(plan.actions) <==> Changes(plan.actions, p);
  }
}
