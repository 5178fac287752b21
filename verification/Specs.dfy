/** Application specifications, and the fields of them that the change planner knows. */
module Specs {
  import opened StringOrder
  import opened Options
  import opened JsonValues
  import opened Pointers
  import Printing

  /** A normalized specification: logical keys are stable identities. `others` are the names of further fields at the
      top, which it should not have. */
  datatype Spec = Spec(
    apiVersion: string,
    kind: string,
    metadata: Tree,
    configuration: map<string, Tree>,
    components: map<string, Tree>,
    routes: map<string, Tree>,
    jobs: map<string, Tree>,
    resources: map<string, Tree>,
    others: set<string>)

  datatype Section = Configuration | Components | Routes | Jobs | Resources

  function Entries(s: Spec, section: Section): map<string, Tree> {
    match section
    case Configuration => s.configuration
    case Components => s.components
    case Routes => s.routes
    case Jobs => s.jobs
    case Resources => s.resources
  }

  function SectionName(section: Section): string {
    match section
    case Configuration => "configuration"
    case Components => "components"
    case Routes => "routes"
    case Jobs => "jobs"
    case Resources => "resources"
  }

  // ---- the fields that are known ----

  /** Where the planner looks for unknown fields: in an object, in the members of an object whatever their names,
      and in the items of a list. Fields that are known and not among the inner ones may hold anything. */
  datatype Shape =
    | Record(known: set<string>, inner: map<string, Shape>)
    | Keyed(each: Shape)
    | Indexed(each: Shape)

  function Plain(known: set<string>): Shape {
    Record(known, map[])
  }

  const METADATA_FIELDS: set<string> := {"name", "description", "labels"}
  const CONFIGURATION_FIELDS: set<string> := {"type", "required", "description", "default", "allowedValues", "scope"}
  const COMPONENT_FIELDS: set<string> := {
    "displayName", "image", "build", "role", "instances", "minimumReady", "rollout",
    "siteOverrides", "capacity", "placement", "profile", "command", "interfaces", "environment",
    "configurationFiles", "mounts", "dependsOn", "health", "runtime"}
  const ROLLOUT_FIELDS: set<string> := {"strategy", "maxSurge", "maxUnavailable", "schemaOverlap"}
  const SITE_OVERRIDE_FIELDS: set<string> := {"allowed", "minimum", "maximum"}
  const CAPACITY_FIELDS: set<string> := {"memoryBytes", "cpuMillicores", "ephemeralStorageBytes", "buildMemoryBytes"}
  const PLACEMENT_FIELDS: set<string> := {"intent", "requiredLabels"}
  const BUILD_FIELDS: set<string> := {"context", "dockerfile", "target", "ignore"}
  const INTERFACE_FIELDS: set<string> := {"port", "protocol"}
  const VALUE_REFERENCE_FIELDS: set<string> := {"from"}
  const MOUNT_FIELDS: set<string> := {"resource", "readOnly"}
  const HEALTH_FIELDS: set<string> := {"interface", "path"}
  const RUNTIME_FIELDS: set<string> := {"gpus", "privileged", "privilegedDocker", "networkMode", "devices", "runArgs",
                                        "networks"}
  const NETWORK_FIELDS: set<string> := {"name", "driver", "subnet", "labels"}
  const RESOURCE_FIELDS: set<string> := {
    "type", "displayName", "durability", "dataRole", "access", "consistencyGroup", "ownership", "backup", "suitcase",
    "source", "reconciliation"}
  const SOURCE_FIELDS: set<string> := {"type", "hostPath"}
  const RECONCILIATION_FIELDS: set<string> := {"excludeTables", "excludePaths", "conflictPolicy"}
  const BACKUP_FIELDS: set<string> := {"policy", "retentionCopies"}
  const SUITCASE_FIELDS: set<string> := {"allowedDataModes"}
  const ROUTE_FIELDS: set<string> := {"to", "hostname", "path", "discoverable", "cache"}
  const CACHE_FIELDS: set<string> := {"enabled", "maxAge", "paths", "maxObjectBytes"}
  const JOB_FIELDS: set<string> := {"component", "command", "environment", "execution", "beforeTraffic"}

  const RUNTIME: Shape := Record(RUNTIME_FIELDS, map["networks" := Indexed(Plain(NETWORK_FIELDS))])

  const COMPONENT: Shape := Record(COMPONENT_FIELDS, map[
    "rollout" := Plain(ROLLOUT_FIELDS),
    "siteOverrides" := Plain(SITE_OVERRIDE_FIELDS),
    "capacity" := Plain(CAPACITY_FIELDS),
    "placement" := Plain(PLACEMENT_FIELDS),
    "build" := Plain(BUILD_FIELDS),
    "interfaces" := Keyed(Plain(INTERFACE_FIELDS)),
    "environment" := Keyed(Plain(VALUE_REFERENCE_FIELDS)),
    "mounts" := Keyed(Plain(MOUNT_FIELDS)),
    "health" := Plain(HEALTH_FIELDS),
    "runtime" := RUNTIME])

  const RESOURCE: Shape := Record(RESOURCE_FIELDS, map[
    "backup" := Plain(BACKUP_FIELDS),
    "suitcase" := Plain(SUITCASE_FIELDS),
    "source" := Plain(SOURCE_FIELDS),
    "reconciliation" := Plain(RECONCILIATION_FIELDS)])

  function SectionShape(section: Section): Shape {
    match section
    case Configuration => Plain(CONFIGURATION_FIELDS)
    case Components => COMPONENT
    case Routes => Record(ROUTE_FIELDS, map["cache" := Plain(CACHE_FIELDS)])
    case Jobs => Record(JOB_FIELDS, map["environment" := Keyed(Plain(VALUE_REFERENCE_FIELDS))])
    case Resources => RESOURCE
  }

  // ---- the fields that are not ----

  function FieldNames(t: Tree): set<string> {
    if t.Object? then t.fields.Keys else {}
  }

  /** The addresses of the fields of an object that are not known. */
  function Here(t: Tree, known: set<string>, path: Path): set<string> {
    set k | k in FieldNames(t) && k !in known :: Pointer(path + [k])
  }

  /** The addresses of all unknown fields. */
  function Unknown(shape: Shape, t: Tree, path: Path): set<string>
    decreases t
  {
    match shape
    case Record(known, inner) =>
      if t.Object? then
        Here(t, known, path)
        + set k, a | k in t.fields && k in inner && a in Unknown(inner[k], t.fields[k], path + [k]) :: a
      else {}
    case Keyed(each) =>
      if t.Object? then set k, a | k in t.fields && a in Unknown(each, t.fields[k], path + [k]) :: a else {}
    case Indexed(each) =>
      if t.Array? then
        set i, a | 0 <= i < |t.items| && a in Unknown(each, t.items[i], path + [Printing.Decimal(i)]) :: a
      else {}
  }

  /** Every field is known. */
  predicate Conforms(shape: Shape, t: Tree)
    decreases t
  {
    match shape
    case Record(known, inner) =>
      t.Object? ==> t.fields.Keys <= known && forall k | k in t.fields && k in inner :: Conforms(inner[k], t.fields[k])
    case Keyed(each) => t.Object? ==> forall k | k in t.fields :: Conforms(each, t.fields[k])
    case Indexed(each) => t.Array? ==> forall i | 0 <= i < |t.items| :: Conforms(each, t.items[i])
  }

  /** The path leads to a field that is not known. */
  predicate LeadsToUnknown(shape: Shape, t: Tree, p: Path)
    decreases t
  {
    p != [] &&
    match shape
    case Record(known, inner) =>
      && p[0] in FieldNames(t)
      && ((|p| == 1 && p[0] !in known) || (p[0] in inner && LeadsToUnknown(inner[p[0]], t.fields[p[0]], p[1..])))
    case Keyed(each) => p[0] in FieldNames(t) && LeadsToUnknown(each, t.fields[p[0]], p[1..])
    case Indexed(each) =>
      t.Array? && exists i | 0 <= i < |t.items| ::
                    p[0] == Printing.Decimal(i) && LeadsToUnknown(each, t.items[i], p[1..])
  }

  /** Nothing is unknown exactly when the value conforms. */
  lemma {:induction false} ConformsExactly(shape: Shape, t: Tree, path: Path)
    ensures Unknown(shape, t, path) == {} <==> Conforms(shape, t)
    decreases t
  {
    match shape
    case Record(known, inner) =>
      if t.Object? {
        forall k | k in t.fields && k in inner
          ensures Unknown(inner[k], t.fields[k], path + [k]) == {} <==> Conforms(inner[k], t.fields[k]) {
          ConformsExactly(inner[k], t.fields[k], path + [k]);
        }
        HereEmpty(t, known, path);
        RecordEmpty(known, inner, t, path);
      }
    case Keyed(each) =>
      if t.Object? {
        forall k | k in t.fields
          ensures Unknown(each, t.fields[k], path + [k]) == {} <==> Conforms(each, t.fields[k]) {
          ConformsExactly(each, t.fields[k], path + [k]);
        }
        KeyedEmpty(each, t, path);
      }
    case Indexed(each) =>
      if t.Array? {
        forall i | 0 <= i < |t.items|
          ensures Unknown(each, t.items[i], path + [Printing.Decimal(i)]) == {} <==> Conforms(each, t.items[i]) {
          ConformsExactly(each, t.items[i], path + [Printing.Decimal(i)]);
        }
        IndexedEmpty(each, t, path);
      }
  }

  lemma HereEmpty(t: Tree, known: set<string>, path: Path)
    ensures Here(t, known, path) == {} <==> FieldNames(t) <= known
  {
    forall k | k in FieldNames(t) && k !in known ensures Pointer(path + [k]) in Here(t, known, path) {}
  }

  lemma {:induction false} RecordEmpty(known: set<string>, inner: map<string, Shape>, t: Tree, path: Path)
    requires t.Object?
    ensures Unknown(Record(known, inner), t, path) == {} <==>
              && Here(t, known, path) == {}
              && forall k | k in t.fields && k in inner :: Unknown(inner[k], t.fields[k], path + [k]) == {}
  {
    forall k | k in t.fields && k in inner && Unknown(inner[k], t.fields[k], path + [k]) != {}
      ensures Unknown(Record(known, inner), t, path) != {} {
      var a :| a in Unknown(inner[k], t.fields[k], path + [k]);
      assert a in Unknown(Record(known, inner), t, path);
    }
  }

  lemma {:induction false} KeyedEmpty(each: Shape, t: Tree, path: Path)
    requires t.Object?
    ensures Unknown(Keyed(each), t, path) == {} <==>
              forall k | k in t.fields :: Unknown(each, t.fields[k], path + [k]) == {}
  {
    forall k | k in t.fields && Unknown(each, t.fields[k], path + [k]) != {}
      ensures Unknown(Keyed(each), t, path) != {} {
      var a :| a in Unknown(each, t.fields[k], path + [k]);
      assert a in Unknown(Keyed(each), t, path);
    }
  }

  lemma {:induction false} IndexedEmpty(each: Shape, t: Tree, path: Path)
    requires t.Array?
    ensures Unknown(Indexed(each), t, path) == {} <==>
              forall i | 0 <= i < |t.items| :: Unknown(each, t.items[i], path + [Printing.Decimal(i)]) == {}
  {
    forall i | 0 <= i < |t.items| && Unknown(each, t.items[i], path + [Printing.Decimal(i)]) != {}
      ensures Unknown(Indexed(each), t, path) != {} {
      var a :| a in Unknown(each, t.items[i], path + [Printing.Decimal(i)]);
      assert a in Unknown(Indexed(each), t, path);
    }
  }

  /** Exactly the paths to unknown fields are listed. */
  lemma {:induction false} UnknownExactly(shape: Shape, t: Tree, path: Path, a: string)
    ensures a in Unknown(shape, t, path) <==> exists p :: LeadsToUnknown(shape, t, p) && a == Pointer(path + p)
    decreases t
  {
    if a in Unknown(shape, t, path) { var p := PathToUnknown(shape, t, path, a); }
    if p :| LeadsToUnknown(shape, t, p) && a == Pointer(path + p) { UnknownAt(shape, t, path, p); }
  }

  lemma {:induction false} UnknownAt(shape: Shape, t: Tree, path: Path, p: Path)
    requires LeadsToUnknown(shape, t, p)
    ensures Pointer(path + p) in Unknown(shape, t, path)
    decreases t
  {
    var rest := p[1..];
    assert path + p == path + [p[0]] + rest;
    match shape
    case Record(known, inner) =>
      if p[0] in inner && LeadsToUnknown(inner[p[0]], t.fields[p[0]], rest) {
        UnknownAt(inner[p[0]], t.fields[p[0]], path + [p[0]], rest);
      } else {
        assert p == [p[0]];
      }
    case Keyed(each) => UnknownAt(each, t.fields[p[0]], path + [p[0]], rest);
    case Indexed(each) =>
      var i :| 0 <= i < |t.items| && p[0] == Printing.Decimal(i) && LeadsToUnknown(each, t.items[i], rest);
      UnknownAt(each, t.items[i], path + [p[0]], rest);
  }

  lemma Joined(path: Path, k: string, rest: Path)
    ensures path + ([k] + rest) == path + [k] + rest && ([k] + rest)[0] == k && ([k] + rest)[1..] == rest
  {}

  lemma {:induction false} PathToUnknown(shape: Shape, t: Tree, path: Path, a: string) returns (p: Path)
    requires a in Unknown(shape, t, path)
    ensures LeadsToUnknown(shape, t, p) && a == Pointer(path + p)
    decreases t
  {
    match shape
    case Record(known, inner) =>
      if a in Here(t, known, path) {
        var k :| k in FieldNames(t) && k !in known && a == Pointer(path + [k]);
        p := [k];
      } else {
        var k :| k in t.fields && k in inner && a in Unknown(inner[k], t.fields[k], path + [k]);
        var rest := PathToUnknown(inner[k], t.fields[k], path + [k], a);
        p := [k] + rest;
        Joined(path, k, rest);
      }
    case Keyed(each) =>
      var k :| k in t.fields && a in Unknown(each, t.fields[k], path + [k]);
      var rest := PathToUnknown(each, t.fields[k], path + [k], a);
      p := [k] + rest;
      Joined(path, k, rest);
    case Indexed(each) =>
      var i :| 0 <= i < |t.items| && a in Unknown(each, t.items[i], path + [Printing.Decimal(i)]);
      var rest := PathToUnknown(each, t.items[i], path + [Printing.Decimal(i)], a);
      p := [Printing.Decimal(i)] + rest;
      Joined(path, Printing.Decimal(i), rest);
  }

  // ---- the planner's search for them ----

  /** `checkFields` */
  method CheckFields(before: seq<string>, t: Tree, known: set<string>, path: Path) returns (findings: seq<string>)
    ensures Elements(findings) == Elements(before) + Here(t, known, path)
  {
    findings := before;
    var keys := Sorted(FieldNames(t));
    for i := 0 to |keys|
      invariant Elements(findings) == Elements(before) + Among(keys[..i], known, path)
    {
      var address := Pointer(path + [keys[i]]);
      FieldStep(Elements(before), findings, keys, i, known, path, address);
      if keys[i] !in known { findings := findings + [address]; }
    }
    AmongAll(keys, t, known, path);
  }

  /** The addresses of the names that are not known. */
  ghost function Among(keys: seq<string>, known: set<string>, path: Path): set<string> {
    set k | k in keys && k !in known :: Pointer(path + [k])
  }

  lemma AmongStep(keys: seq<string>, i: nat, known: set<string>, path: Path)
    requires i < |keys|
    ensures Among(keys[..i + 1], known, path)
         == Among(keys[..i], known, path) + if keys[i] in known then {} else {Pointer(path + [keys[i]])}
  {
    assert keys[..i + 1] == keys[..i] + [keys[i]];
  }

  lemma FieldStep(before: set<string>, findings: seq<string>, keys: seq<string>, i: nat, known: set<string>,
                  path: Path, address: string)
    requires i < |keys| && Elements(findings) == before + Among(keys[..i], known, path)
    requires address == Pointer(path + [keys[i]])
    ensures Elements(if keys[i] in known then findings else findings + [address])
         == before + Among(keys[..i + 1], known, path)
  {
    AmongStep(keys, i, known, path);
    ElementsPush(findings, address);
  }

  lemma AmongAll(keys: seq<string>, t: Tree, known: set<string>, path: Path)
    requires Elements(keys) == FieldNames(t)
    ensures Among(keys[..|keys|], known, path) == Here(t, known, path)
  {
    assert keys[..|keys|] == keys;
    assert forall k :: k in keys <==> k in Elements(keys);
  }

  /** The unknown fields below one field. */
  function At(shape: Shape, t: Tree, name: string, path: Path): set<string> {
    if name in FieldNames(t) then Unknown(shape, t.fields[name], path + [name]) else {}
  }

  /** A field of an object, if it is there. */
  method CheckField(before: seq<string>, t: Tree, name: string, known: set<string>, path: Path)
    returns (findings: seq<string>)
    ensures Elements(findings) == Elements(before) + At(Plain(known), t, name, path)
  {
    findings := before;
    if name in FieldNames(t) {
      PlainIs(known, t.fields[name], path + [name]);
      findings := CheckFields(findings, t.fields[name], known, path + [name]);
    }
  }

  lemma PlainIs(known: set<string>, t: Tree, path: Path)
    ensures Unknown(Plain(known), t, path) == Here(t, known, path)
  {}

  /** Every member of a field of an object, if it is there. */
  method CheckMembers(before: seq<string>, t: Tree, name: string, known: set<string>, path: Path)
    returns (findings: seq<string>)
    ensures Elements(findings) == Elements(before) + At(Keyed(Plain(known)), t, name, path)
  {
    findings := before;
    if name !in FieldNames(t) { return; }
    var members, base := t.fields[name], path + [name];
    var keys := Sorted(FieldNames(members));
    for i := 0 to |keys|
      invariant Elements(findings) == Elements(before) + Below(Plain(known), members, keys[..i], base)
    {
      BelowStep(Plain(known), members, keys, i, base);
      findings := CheckField(findings, members, keys[i], known, base);
    }
    BelowAll(Plain(known), members, keys, base);
  }

  /** The unknown fields below some of an object's members. */
  ghost function Below(each: Shape, t: Tree, keys: seq<string>, path: Path): set<string> {
    set k, a | k in keys && a in At(each, t, k, path) :: a
  }

  lemma BelowStep(each: Shape, t: Tree, keys: seq<string>, i: nat, path: Path)
    requires i < |keys|
    ensures Below(each, t, keys[..i + 1], path) == Below(each, t, keys[..i], path) + At(each, t, keys[i], path)
  {
    assert keys[..i + 1] == keys[..i] + [keys[i]];
    var b := Below(each, t, keys[..i + 1], path);
    forall a | a in Below(each, t, keys[..i], path) ensures a in b {
      var k :| k in keys[..i] && a in At(each, t, k, path);
      assert k in keys[..i + 1];
    }
    forall a | a in At(each, t, keys[i], path) ensures a in b { assert keys[i] in keys[..i + 1]; }
  }

  lemma BelowAll(each: Shape, t: Tree, keys: seq<string>, path: Path)
    requires Elements(keys) == FieldNames(t)
    ensures Below(each, t, keys[..|keys|], path) == Unknown(Keyed(each), t, path)
  {
    assert keys[..|keys|] == keys;
    forall k ensures k in keys <==> k in FieldNames(t) { assert k in Elements(keys) <==> k in keys; }
    forall a ensures a in Below(each, t, keys, path) <==> a in Unknown(Keyed(each), t, path) {
      if a in Unknown(Keyed(each), t, path) {
        var k :| k in t.fields && a in Unknown(each, t.fields[k], path + [k]);
        assert k in keys && a in At(each, t, k, path);
      }
      if a in Below(each, t, keys, path) {
        var k :| k in keys && a in At(each, t, k, path);
        assert k in t.fields && a in Unknown(each, t.fields[k], path + [k]);
      }
    }
  }

  /** The networks of a runtime. */
  method CheckNetworks(before: seq<string>, t: Tree, path: Path) returns (findings: seq<string>)
    ensures Elements(findings) == Elements(before) + At(Indexed(Plain(NETWORK_FIELDS)), t, "networks", path)
  {
    findings := before;
    if "networks" !in FieldNames(t) || !t.fields["networks"].Array? { return; }
    var list, base := t.fields["networks"], path + ["networks"];
    for i := 0 to |list.items|
      invariant Elements(findings) == Elements(before) + ItemsBelow(Plain(NETWORK_FIELDS), list, i, base)
    {
      PlainIs(NETWORK_FIELDS, list.items[i], base + [Printing.Decimal(i)]);
      ItemsStep(Plain(NETWORK_FIELDS), list, i, base);
      findings := CheckFields(findings, list.items[i], NETWORK_FIELDS, base + [Printing.Decimal(i)]);
    }
    ItemsAll(Plain(NETWORK_FIELDS), list, base);
  }

  lemma ItemsAll(each: Shape, t: Tree, path: Path)
    requires t.Array?
    ensures ItemsBelow(each, t, |t.items|, path) == Unknown(Indexed(each), t, path)
  {
    forall a ensures a in ItemsBelow(each, t, |t.items|, path) <==> a in Unknown(Indexed(each), t, path) {
      if i :| 0 <= i < |t.items| && a in Unknown(each, t.items[i], path + [Printing.Decimal(i)]) {
        assert a in Unknown(Indexed(each), t, path);
      }
    }
  }

  ghost function ItemsBelow(each: Shape, t: Tree, n: nat, path: Path): set<string>
    requires t.Array? && n <= |t.items|
  {
    set i, a | 0 <= i < n && a in Unknown(each, t.items[i], path + [Printing.Decimal(i)]) :: a
  }

  lemma ItemsStep(each: Shape, t: Tree, n: nat, path: Path)
    requires t.Array? && n < |t.items|
    ensures ItemsBelow(each, t, n + 1, path)
         == ItemsBelow(each, t, n, path) + Unknown(each, t.items[n], path + [Printing.Decimal(n)])
  {
    var b := ItemsBelow(each, t, n + 1, path);
    forall a ensures a in b
                <==> a in ItemsBelow(each, t, n, path) || a in Unknown(each, t.items[n], path + [Printing.Decimal(n)]) {
      if i :| 0 <= i < n + 1 && a in Unknown(each, t.items[i], path + [Printing.Decimal(i)]) {
        assert i < n ==> a in ItemsBelow(each, t, n, path);
      }
    }
  }

  method CheckRuntime(before: seq<string>, t: Tree, path: Path) returns (findings: seq<string>)
    ensures Elements(findings) == Elements(before) + At(RUNTIME, t, "runtime", path)
  {
    findings := before;
    if "runtime" in FieldNames(t) {
      var runtime, base := t.fields["runtime"], path + ["runtime"];
      findings := CheckFields(findings, runtime, RUNTIME_FIELDS, base);
      findings := CheckNetworks(findings, runtime, base);
      OneInner(RUNTIME_FIELDS, "networks", Indexed(Plain(NETWORK_FIELDS)), runtime, base);
    }
  }

  lemma OneInner(known: set<string>, name: string, shape: Shape, t: Tree, path: Path)
    ensures Unknown(Record(known, map[name := shape]), t, path) == Here(t, known, path) + At(shape, t, name, path)
  {
    var inner := map[name := shape];
    if t.Object? {
      forall a ensures a in Unknown(Record(known, inner), t, path)
                  <==> a in Here(t, known, path) || a in At(shape, t, name, path) {
        if k :| k in t.fields && k in inner && a in Unknown(inner[k], t.fields[k], path + [k]) { assert k == name; }
        if a in At(shape, t, name, path) { assert a in Unknown(inner[name], t.fields[name], path + [name]); }
      }
    }
  }

  /** The fields of a component that the planner looks into. */
  ghost predicate ComponentTable(m: map<string, Shape>) {
    && m.Keys == {"rollout", "siteOverrides", "capacity", "placement", "build"}
                 + {"interfaces", "environment", "mounts", "health", "runtime"}
    && m["rollout"] == Plain(ROLLOUT_FIELDS) && m["siteOverrides"] == Plain(SITE_OVERRIDE_FIELDS)
    && m["capacity"] == Plain(CAPACITY_FIELDS) && m["placement"] == Plain(PLACEMENT_FIELDS)
    && m["build"] == Plain(BUILD_FIELDS) && m["interfaces"] == Keyed(Plain(INTERFACE_FIELDS))
    && m["environment"] == Keyed(Plain(VALUE_REFERENCE_FIELDS)) && m["mounts"] == Keyed(Plain(MOUNT_FIELDS))
    && m["health"] == Plain(HEALTH_FIELDS) && m["runtime"] == RUNTIME
  }

  lemma ComponentIs()
    ensures COMPONENT.known == COMPONENT_FIELDS && ComponentTable(COMPONENT.inner)
  {}

  /** The body of the planner's loop over the components. */
  method CheckComponent(before: seq<string>, t: Tree, path: Path, ghost m: map<string, Shape>)
    returns (findings: seq<string>)
    requires ComponentTable(m)
    ensures Elements(findings) == Elements(before) + Unknown(Record(COMPONENT_FIELDS, m), t, path)
  {
    findings := CheckFields(before, t, COMPONENT_FIELDS, path);
    findings := CheckStart(findings, t, path, m);
    findings := CheckRest(findings, t, path, m);
    InnerParts(COMPONENT_FIELDS, m, t, path);
    PartsSplit(m, t, path, {"rollout", "siteOverrides", "capacity", "placement", "build"},
               {"interfaces", "environment", "mounts", "health", "runtime"});
  }

  method CheckStart(before: seq<string>, t: Tree, path: Path, ghost m: map<string, Shape>)
    returns (findings: seq<string>)
    requires ComponentTable(m)
    ensures Elements(findings)
         == Elements(before) + Parts(m, t, path, {"rollout", "siteOverrides", "capacity", "placement", "build"})
  {
    PartsOfFive(m, t, path, "rollout", "siteOverrides", "capacity", "placement", "build");
    findings := CheckField(before, t, "rollout", ROLLOUT_FIELDS, path);
    findings := CheckField(findings, t, "siteOverrides", SITE_OVERRIDE_FIELDS, path);
    findings := CheckField(findings, t, "capacity", CAPACITY_FIELDS, path);
    findings := CheckField(findings, t, "placement", PLACEMENT_FIELDS, path);
    findings := CheckField(findings, t, "build", BUILD_FIELDS, path);
  }

  method CheckRest(before: seq<string>, t: Tree, path: Path, ghost m: map<string, Shape>)
    returns (findings: seq<string>)
    requires ComponentTable(m)
    ensures Elements(findings)
         == Elements(before) + Parts(m, t, path, {"interfaces", "environment", "mounts", "health", "runtime"})
  {
    PartsOfFive(m, t, path, "interfaces", "environment", "mounts", "health", "runtime");
    findings := CheckMembers(before, t, "interfaces", INTERFACE_FIELDS, path);
    findings := CheckMembers(findings, t, "environment", VALUE_REFERENCE_FIELDS, path);
    findings := CheckMembers(findings, t, "mounts", MOUNT_FIELDS, path);
    findings := CheckField(findings, t, "health", HEALTH_FIELDS, path);
    findings := CheckRuntime(findings, t, path);
  }

  /** The unknown fields below some of the inner ones. */
  ghost function Parts(inner: map<string, Shape>, t: Tree, path: Path, names: set<string>): set<string> {
    set k, a | k in names && k in inner && a in At(inner[k], t, k, path) :: a
  }

  lemma PartsStep(inner: map<string, Shape>, t: Tree, path: Path, names: set<string>, name: string)
    requires name in inner
    ensures Parts(inner, t, path, names + {name}) == Parts(inner, t, path, names) + At(inner[name], t, name, path)
  {}

  lemma PartsSplit(inner: map<string, Shape>, t: Tree, path: Path, some: set<string>, rest: set<string>)
    ensures Parts(inner, t, path, some + rest) == Parts(inner, t, path, some) + Parts(inner, t, path, rest)
  {}

  lemma PartsOfFour(inner: map<string, Shape>, t: Tree, path: Path, a: string, b: string, c: string, d: string)
    requires {a, b, c, d} <= inner.Keys
    ensures Parts(inner, t, path, {a, b, c, d})
         == At(inner[a], t, a, path) + At(inner[b], t, b, path) + At(inner[c], t, c, path) + At(inner[d], t, d, path)
  {
    PartsStep(inner, t, path, {}, a);
    PartsStep(inner, t, path, {a}, b);
    PartsStep(inner, t, path, {a, b}, c);
    PartsStep(inner, t, path, {a, b, c}, d);
    assert {} + {a} == {a} && {a} + {b} == {a, b} && {a, b} + {c} == {a, b, c} && {a, b, c} + {d} == {a, b, c, d};
  }

  lemma PartsOfFive(inner: map<string, Shape>, t: Tree, path: Path, a: string, b: string, c: string, d: string,
                    e: string)
    requires {a, b, c, d, e} <= inner.Keys
    ensures Parts(inner, t, path, {a, b, c, d, e})
         == At(inner[a], t, a, path) + At(inner[b], t, b, path) + At(inner[c], t, c, path) + At(inner[d], t, d, path)
            + At(inner[e], t, e, path)
  {
    PartsOfFour(inner, t, path, a, b, c, d);
    PartsStep(inner, t, path, {a, b, c, d}, e);
    assert {a, b, c, d} + {e} == {a, b, c, d, e};
  }

  /** What is unknown in an object is a field of its own, or lies below one of the inner ones. */
  lemma InnerParts(known: set<string>, inner: map<string, Shape>, t: Tree, path: Path)
    ensures Unknown(Record(known, inner), t, path) == Here(t, known, path) + Parts(inner, t, path, inner.Keys)
  {
    forall a ensures a in Unknown(Record(known, inner), t, path)
                <==> a in Here(t, known, path) || a in Parts(inner, t, path, inner.Keys) {
      if t.Object? {
        if k :| k in t.fields && k in inner && a in Unknown(inner[k], t.fields[k], path + [k]) {
          assert a in At(inner[k], t, k, path);
        }
        if k :| k in inner && a in At(inner[k], t, k, path) {
          assert k in t.fields && a in Unknown(inner[k], t.fields[k], path + [k]);
        }
      }
    }
  }

  ghost predicate ResourceTable(m: map<string, Shape>) {
    && m.Keys == {"backup", "suitcase", "source", "reconciliation"}
    && m["backup"] == Plain(BACKUP_FIELDS) && m["suitcase"] == Plain(SUITCASE_FIELDS)
    && m["source"] == Plain(SOURCE_FIELDS) && m["reconciliation"] == Plain(RECONCILIATION_FIELDS)
  }

  lemma ResourceIs()
    ensures RESOURCE.known == RESOURCE_FIELDS && ResourceTable(RESOURCE.inner)
  {}

  /** The body of the planner's loop over the resources. */
  method CheckResource(before: seq<string>, t: Tree, path: Path, ghost m: map<string, Shape>)
    returns (findings: seq<string>)
    requires ResourceTable(m)
    ensures Elements(findings) == Elements(before) + Unknown(Record(RESOURCE_FIELDS, m), t, path)
  {
    InnerParts(RESOURCE_FIELDS, m, t, path);
    PartsOfFour(m, t, path, "backup", "suitcase", "source", "reconciliation");
    findings := CheckFields(before, t, RESOURCE_FIELDS, path);
    findings := CheckField(findings, t, "backup", BACKUP_FIELDS, path);
    findings := CheckField(findings, t, "suitcase", SUITCASE_FIELDS, path);
    findings := CheckField(findings, t, "source", SOURCE_FIELDS, path);
    findings := CheckField(findings, t, "reconciliation", RECONCILIATION_FIELDS, path);
  }

  /** The loop bodies of the five sections. */
  method CheckEntry(before: seq<string>, section: Section, t: Tree, path: Path) returns (findings: seq<string>)
    ensures Elements(findings) == Elements(before) + Unknown(SectionShape(section), t, path)
  {
    match section
    case Configuration =>
      PlainIs(CONFIGURATION_FIELDS, t, path);
      findings := CheckFields(before, t, CONFIGURATION_FIELDS, path);
    case Components =>
      ComponentIs();
      findings := CheckComponent(before, t, path, COMPONENT.inner);
    case Resources =>
      ResourceIs();
      findings := CheckResource(before, t, path, RESOURCE.inner);
    case Routes =>
      findings := CheckFields(before, t, ROUTE_FIELDS, path);
      findings := CheckField(findings, t, "cache", CACHE_FIELDS, path);
      OneInner(ROUTE_FIELDS, "cache", Plain(CACHE_FIELDS), t, path);
    case Jobs =>
      findings := CheckFields(before, t, JOB_FIELDS, path);
      findings := CheckMembers(findings, t, "environment", VALUE_REFERENCE_FIELDS, path);
      OneInner(JOB_FIELDS, "environment", Keyed(Plain(VALUE_REFERENCE_FIELDS)), t, path);
  }

  function SectionUnknown(s: Spec, section: Section): set<string> {
    Unknown(Keyed(SectionShape(section)), Object(Entries(s, section)), [SectionName(section)])
  }

  method CheckSection(before: seq<string>, s: Spec, section: Section) returns (findings: seq<string>)
    ensures Elements(findings) == Elements(before) + SectionUnknown(s, section)
  {
    findings := before;
    var entries, path, shape := Object(Entries(s, section)), [SectionName(section)], SectionShape(section);
    var keys := Sorted(FieldNames(entries));
    for i := 0 to |keys|
      invariant Elements(findings) == Elements(before) + Below(shape, entries, keys[..i], path)
    {
      BelowStep(shape, entries, keys, i, path);
      assert keys[i] in FieldNames(entries) by { SortedMembers(FieldNames(entries)); }
      findings := CheckEntry(findings, section, entries.fields[keys[i]], path + [keys[i]]);
    }
    BelowAll(shape, entries, keys, path);
  }

  function RootUnknown(s: Spec): set<string> {
    (set k | k in s.others :: Pointer([k])) + Here(s.metadata, METADATA_FIELDS, ["metadata"])
  }

  /** The addresses of all fields of a specification that the planner does not know. */
  function UnknownFields(s: Spec): set<string> {
    RootUnknown(s) + SectionUnknown(s, Configuration) + SectionUnknown(s, Components) + SectionUnknown(s, Resources)
    + SectionUnknown(s, Routes) + SectionUnknown(s, Jobs)
  }

  /** `collectUnsupportedShape` */
  method CollectUnsupportedShape(s: Spec) returns (findings: seq<string>)
    ensures Elements(findings) == UnknownFields(s)
  {
    findings := CheckFields([], Object(map k | k in s.others :: Null), {}, []);
    findings := CheckFields(findings, s.metadata, METADATA_FIELDS, ["metadata"]);
    RootIs(s);
    findings := CheckSection(findings, s, Configuration);
    findings := CheckSection(findings, s, Components);
    findings := CheckSection(findings, s, Resources);
    findings := CheckSection(findings, s, Routes);
    findings := CheckSection(findings, s, Jobs);
  }

  lemma RootIs(s: Spec)
    ensures Here(Object(map k | k in s.others :: Null), {}, []) == set k | k in s.others :: Pointer([k])
  {
    assert forall k: string :: [] + [k] == [k];
  }

  /** The planner knows every field. */
  predicate Supported(s: Spec) {
    && s.others == {} && FieldNames(s.metadata) <= METADATA_FIELDS
    && forall section: Section, k | k in Entries(s, section) :: Conforms(SectionShape(section), Entries(s, section)[k])
  }

  lemma {:induction false} SectionSupported(s: Spec, section: Section)
    ensures SectionUnknown(s, section) == {} <==>
              forall k | k in Entries(s, section) :: Conforms(SectionShape(section), Entries(s, section)[k])
  {
    ConformsExactly(Keyed(SectionShape(section)), Object(Entries(s, section)), [SectionName(section)]);
  }

  lemma {:induction false} SupportedExactly(s: Spec)
    ensures UnknownFields(s) == {} <==> Supported(s)
  {
    SectionSupported(s, Configuration);
    SectionSupported(s, Components);
    SectionSupported(s, Resources);
    SectionSupported(s, Routes);
    SectionSupported(s, Jobs);
    HereEmpty(s.metadata, METADATA_FIELDS, ["metadata"]);
    if k :| k in s.others { assert Pointer([k]) in RootUnknown(s); }
  }
}
