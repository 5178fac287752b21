/** Which addresses of a document changed between two revisions. */
module TreeDiff {
  import opened StringOrder
  import opened Options
  import opened Lists
  import opened JsonValues
  import opened Pointers
  import Printing

  /** The planner's equality: `Printing.StableJsonDecides` shows this is what equal texts mean. */
  ghost predicate Same(l: Tree, r: Tree) {
    Strip(l) == Strip(r)
  }

  /** The same test on members that may be missing. */
  ghost predicate SameOption(l: Option<Tree>, r: Option<Tree>) {
    match (l, r)
    case (Some(x), Some(y)) => Same(x, y)
    case _ => l.None? && r.None?
  }

  /** The member at a path below the root. */
  ghost function At(t: Tree, p: Path): Option<Tree>
    decreases |p|
  {
    if p == [] then Some(t)
    else if t.Object? && p[0] in t.fields then At(t.fields[p[0]], p[1..])
    else None
  }

  /** The paths at which the two trees are reported to differ. */
  ghost predicate Listed(l: Tree, r: Tree, p: Path)
    decreases |p|
  {
    !Same(l, r) &&
    if l.Object? && r.Object? then
      && p != []
      && (if p[0] in l.fields && p[0] in r.fields
          then Listed(l.fields[p[0]], r.fields[p[0]], p[1..])
          else |p| == 1 && (p[0] in l.fields || p[0] in r.fields))
    else p == []
  }

  /** Objects are the same exactly when all members but PROTO are. */
  lemma SameObjects(l: Tree, r: Tree)
    requires l.Object? && r.Object?
    ensures Same(l, r) <==>
            && l.fields.Keys - {PROTO} == r.fields.Keys - {PROTO}
            && forall k | k in l.fields && k in r.fields && k != PROTO :: Same(l.fields[k], r.fields[k])
  {
    var a, b := Strip(l).fields, Strip(r).fields;
    assert a.Keys == l.fields.Keys - {PROTO} && b.Keys == r.fields.Keys - {PROTO};
    if a == b {
      forall k | k in l.fields && k in r.fields && k != PROTO ensures Same(l.fields[k], r.fields[k]) {
        assert a[k] == b[k];
      }
    }
    if a.Keys == b.Keys && forall k | k in l.fields && k in r.fields && k != PROTO :: Same(l.fields[k], r.fields[k]) {
      assert a == b;
    }
  }

  /** An address the difference must report. */
  ghost predicate Reported(l: Tree, r: Tree, path: Path, a: string) {
    exists p :: Listed(l, r, p) && a == Pointer(path + p)
  }

  ghost predicate ReportedVia(l: Tree, r: Tree, path: Path, key: string, a: string) {
    exists p :: Listed(l, r, [key] + p) && a == Pointer(path + [key] + p)
  }

  /** `diffAddresses`, with the list of addresses kept in ascending order. */
  method DiffAddresses(left: Tree, right: Tree, path: Path) returns (changes: seq<string>)
    requires path != []
    ensures Ascending(changes)
    ensures forall a :: a in changes <==> Reported(left, right, path, a)
    decreases left
  {
    if IsSame(left, right) {
      return [];
    }
    if left.Object? && right.Object? {
      changes := [];
      var keys := Sorted(left.fields.Keys + right.fields.Keys);
      SortedMembers(left.fields.Keys + right.fields.Keys);
      for i := 0 to |keys|
        invariant Collected(left, right, path, keys[..i], changes)
      {
        var key := keys[i];
        assert key in keys;
        var below;
        if key !in left.fields || key !in right.fields {
          below := [Pointer(path + [key])];
          OneMember(left, right, path, key);
        } else {
          below := DiffAddresses(left.fields[key], right.fields[key], path + [key]);
          MemberAddresses(left, right, path, key);
        }
        CollectStep(left, right, path, keys, i, changes, below);
        changes := changes + below;
      }
      assert keys[..|keys|] == keys;
      AllMembers(left, right, path, keys);
      assert NoRepeat(changes);  // so sorting the elements is sorting the list
      SortedMembers(Elements(changes));
      changes := Sorted(Elements(changes));
    } else {
      RootOnly(left, right, path);
      return [Pointer(path)];
    }
  }

  lemma AscendingDistinct(s: seq<string>)
    requires Ascending(s)
    ensures NoRepeat(s)
  {
    forall i, j | 0 <= i < j < |s| ensures s[i] != s[j] {
      LessIrreflexive(s[i]);
    }
  }

  /** The list so far: the addresses through the keys already visited, each once. */
  ghost predicate Collected(l: Tree, r: Tree, path: Path, keys: seq<string>, changes: seq<string>) {
    && NoRepeat(changes)
    && forall a :: a in changes <==> ViaOneOf(l, r, path, keys, a)
  }

  ghost predicate ViaOneOf(l: Tree, r: Tree, path: Path, keys: seq<string>, a: string) {
    exists j :: 0 <= j < |keys| && ReportedVia(l, r, path, keys[j], a)
  }

  lemma CollectStep(l: Tree, r: Tree, path: Path, keys: seq<string>, i: nat,
                    changes: seq<string>, below: seq<string>)
    requires path != [] && i < |keys| && NoRepeat(keys)
    requires Collected(l, r, path, keys[..i], changes) && Ascending(below)
    requires forall a :: a in below <==> ReportedVia(l, r, path, keys[i], a)
    ensures Collected(l, r, path, keys[..i + 1], changes + below)
  {
    forall a ensures a in changes + below <==> ViaOneOf(l, r, path, keys[..i + 1], a) {
      ViaOneMore(l, r, path, keys, i, a);
    }
    forall a | a in changes ensures a !in below { CollectedApart(l, r, path, keys, i, changes, below, a); }
    AscendingDistinct(below);
    AppendDistinct(changes, below);
  }

  lemma ViaOneMore(l: Tree, r: Tree, path: Path, keys: seq<string>, i: nat, a: string)
    requires i < |keys|
    ensures ViaOneOf(l, r, path, keys[..i + 1], a) <==> ViaOneOf(l, r, path, keys[..i], a) || ReportedVia(l, r, path,
                                                                                                          keys[i], a)
  {
    var done, more := keys[..i], keys[..i + 1];
    assert more == done + [keys[i]];
    if ViaOneOf(l, r, path, done, a) {
      var j :| 0 <= j < |done| && ReportedVia(l, r, path, done[j], a);
      assert more[j] == done[j];
    }
    if ReportedVia(l, r, path, keys[i], a) { assert more[i] == keys[i]; }
    if ViaOneOf(l, r, path, more, a) {
      var j :| 0 <= j < |more| && ReportedVia(l, r, path, more[j], a);
      if j < i { assert done[j] == more[j]; }
    }
  }

  lemma CollectedApart(l: Tree, r: Tree, path: Path, keys: seq<string>, i: nat, changes: seq<string>,
                       below: seq<string>, a: string)
    requires path != [] && i < |keys| && NoRepeat(keys) && Collected(l, r, path, keys[..i], changes)
    requires (forall a :: a in below <==> ReportedVia(l, r, path, keys[i], a)) && a in changes
    ensures a !in below
  {
    var done := keys[..i];
    var j :| 0 <= j < |done| && ReportedVia(l, r, path, done[j], a);
    assert done[j] == keys[j];
    if a in below { ViaOneMember(l, r, path, done[j], keys[i], a); }
  }

  lemma ViaOneMember(l: Tree, r: Tree, path: Path, k: string, m: string, a: string)
    requires path != [] && ReportedVia(l, r, path, k, a) && ReportedVia(l, r, path, m, a)
    ensures k == m
  {
    var p :| a == Pointer(path + [k] + p);
    var q :| a == Pointer(path + [m] + q);
    assert path + [k] + p == path + ([k] + p) && path + [m] + q == path + ([m] + q);
    PointerBelow(path, [k] + p, [m] + q);
    assert ([k] + p)[0] == k && ([m] + q)[0] == m;
  }

  predicate IsSame(l: Tree, r: Tree)
    ensures IsSame(l, r) == Same(l, r)
  {
    Strip(l) == Strip(r)
  }

  lemma RootOnly(l: Tree, r: Tree, path: Path)
    requires !Same(l, r) && !(l.Object? && r.Object?)
    ensures forall a :: a in [Pointer(path)] <==> Reported(l, r, path, a)
  {
    assert path + [] == path;
    assert Listed(l, r, []);
  }

  lemma OneMember(l: Tree, r: Tree, path: Path, key: string)
    requires l.Object? && r.Object? && !Same(l, r)
    requires key !in l.fields || key !in r.fields
    requires key in l.fields || key in r.fields
    ensures forall a :: a in [Pointer(path + [key])] <==> ReportedVia(l, r, path, key, a)
  {
    assert [key] + [] == [key] && path + [key] + [] == path + [key];
    assert Listed(l, r, [key] + []);
    forall p | Listed(l, r, [key] + p) ensures p == [] {}
  }

  lemma MemberListed(l: Tree, r: Tree, key: string, p: Path)
    requires l.Object? && r.Object? && !Same(l, r) && key in l.fields && key in r.fields
    ensures Listed(l, r, [key] + p) <==> Listed(l.fields[key], r.fields[key], p)
  {
    assert ([key] + p)[1..] == p;
  }

  lemma MemberAddresses(l: Tree, r: Tree, path: Path, key: string)
    requires l.Object? && r.Object? && !Same(l, r) && key in l.fields && key in r.fields
    ensures forall a :: Reported(l.fields[key], r.fields[key], path + [key], a) <==> ReportedVia(l, r, path, key, a)
  {
    forall p ensures Listed(l, r, [key] + p) <==> Listed(l.fields[key], r.fields[key], p) {
      MemberListed(l, r, key, p);
    }
  }

  lemma AllMembers(l: Tree, r: Tree, path: Path, keys: seq<string>)
    requires l.Object? && r.Object? && !Same(l, r)
    requires forall k :: k in keys <==> k in l.fields || k in r.fields
    ensures forall a :: Reported(l, r, path, a) <==> exists j :: 0 <= j < |keys| && ReportedVia(l, r, path, keys[j], a)
  {
    forall a ensures Reported(l, r, path, a) <==> exists j :: 0 <= j < |keys| && ReportedVia(l, r, path, keys[j], a) {
      if Reported(l, r, path, a) { ViaSomeMember(l, r, path, keys, a); }
      if j :| 0 <= j < |keys| && ReportedVia(l, r, path, keys[j], a) { ViaMember(l, r, path, keys[j], a); }
    }
  }

  lemma ViaSomeMember(l: Tree, r: Tree, path: Path, keys: seq<string>, a: string)
    requires l.Object? && r.Object? && !Same(l, r) && Reported(l, r, path, a)
    requires forall k :: k in keys <==> k in l.fields || k in r.fields
    ensures exists j :: 0 <= j < |keys| && ReportedVia(l, r, path, keys[j], a)
  {
    var p :| Listed(l, r, p) && a == Pointer(path + p);
    assert p == [p[0]] + p[1..] && path + [p[0]] + p[1..] == path + p;
    assert p[0] in keys;
    var j :| 0 <= j < |keys| && keys[j] == p[0];
    assert ReportedVia(l, r, path, keys[j], a);
  }

  lemma ViaMember(l: Tree, r: Tree, path: Path, key: string, a: string)
    requires ReportedVia(l, r, path, key, a)
    ensures Reported(l, r, path, a)
  {
    var p :| Listed(l, r, [key] + p) && a == Pointer(path + [key] + p);
    assert path + ([key] + p) == path + [key] + p;
  }

  // ---- what the list is worth ----

  lemma ListedHere(l: Tree, r: Tree, k: string)
    requires l.Object? && r.Object? && !Same(l, r)
    requires k in l.fields.Keys + r.fields.Keys && !(k in l.fields && k in r.fields)
    ensures Listed(l, r, [k])
  {}

  /** Nothing is listed exactly when the trees are the same. */
  lemma {:induction false} ListedNonempty(l: Tree, r: Tree)
    ensures (exists p :: Listed(l, r, p)) <==> !Same(l, r)
    decreases l
  {
    if Same(l, r) {
      assert forall p :: !Listed(l, r, p);
    } else {
      if l.Object? && r.Object? {
        SameObjects(l, r);
        if k :| k in l.fields.Keys + r.fields.Keys && !(k in l.fields && k in r.fields) {
          ListedHere(l, r, k);
          assert exists q :: Listed(l, r, q);
        } else {
          var k :| k in l.fields && k in r.fields && !Same(l.fields[k], r.fields[k]);
          ListedNonempty(l.fields[k], r.fields[k]);
          var p :| Listed(l.fields[k], r.fields[k], p);
          assert ([k] + p)[1..] == p;
          MemberListed(l, r, k, p);
          assert exists q :: Listed(l, r, q);
        }
      } else {
        assert Listed(l, r, []);
        assert exists q :: Listed(l, r, q);
      }
    }
  }

  /** At every listed path the trees differ. */
  lemma {:induction false} ListedDiffers(l: Tree, r: Tree, p: Path)
    requires Listed(l, r, p)
    ensures !SameOption(At(l, p), At(r, p))
    decreases |p|
  {
    if l.Object? && r.Object? && p[0] in l.fields && p[0] in r.fields {
      ListedDiffers(l.fields[p[0]], r.fields[p[0]], p[1..]);
    } else if p != [] {
      assert p[1..] == [];
    }
  }

  /** No listed path lies below another. */
  lemma {:induction false} ListedApart(l: Tree, r: Tree, p: Path, q: Path)
    requires Listed(l, r, p) && Listed(l, r, q) && p <= q
    ensures p == q
    decreases |p|
  {
    if l.Object? && r.Object? {
      assert p[0] == q[0];
      if p[0] in l.fields && p[0] in r.fields {
        assert p[1..] <= q[1..] by {
          assert forall i | 0 <= i < |p| - 1 :: p[1..][i] == p[i + 1] == q[i + 1] == q[1..][i];
        }
        ListedApart(l.fields[p[0]], r.fields[p[0]], p[1..], q[1..]);
        assert p == [p[0]] + p[1..] && q == [q[0]] + q[1..];
      }
    }
  }

  /** The paths of `paths` that go through a member. */
  ghost function Below(paths: iset<Path>, key: string): iset<Path> {
    iset p | [key] + p in paths
  }

  /** Overwrite, or delete where `r` has nothing, at exactly the given paths. */
  ghost function Patch(l: Tree, r: Tree, paths: iset<Path>): Tree
    decreases l
  {
    if [] in paths then r
    else if !l.Object? then l
    else
      var others := if r.Object? then r.fields else map[];
      Object(map k | k in l.fields.Keys + others.Keys &&
                     (if [k] in paths then k in others else k in l.fields) ::
             if [k] in paths then others[k]
             else if k in others then Patch(l.fields[k], others[k], Below(paths, k))
             else l.fields[k])
  }

  /** The listed paths suffice: overwriting or deleting there turns the one tree into the other. */
  lemma {:induction false} PatchSuffices(l: Tree, r: Tree)
    ensures Same(Patch(l, r, iset p | Listed(l, r, p)), r)
    decreases l
  {
    var paths := iset p | Listed(l, r, p);
    if !Same(l, r) && l.Object? && r.Object? {
      var patched := Patch(l, r, paths);
      forall k | k in l.fields && k in r.fields
        ensures k in patched.fields && Same(patched.fields[k], r.fields[k])
      {
        PatchSuffices(l.fields[k], r.fields[k]);
        forall p ensures p in Below(paths, k) <==> Listed(l.fields[k], r.fields[k], p) {
          assert ([k] + p)[1..] == p;
        }
        assert Below(paths, k) == iset p | Listed(l.fields[k], r.fields[k], p);
        assert [k] + [] == [k];
        assert [k] in paths <==> Listed(l.fields[k], r.fields[k], []);
      }
      forall k | k in l.fields.Keys + r.fields.Keys && !(k in l.fields && k in r.fields)
        ensures [k] in paths
      {}
      SameObjects(patched, r);
    } else if Same(l, r) && l.Object? {
      var patched := Patch(l, r, paths);
      assert paths == iset{};
      forall k | k in l.fields && r.Object? && k in r.fields
        ensures Below(paths, k) == iset{} {}
      NoPatch(l, r);
    }
  }

  lemma {:induction false} NoPatch(l: Tree, r: Tree)
    ensures Patch(l, r, iset{}) == l
    decreases l
  {
    if l.Object? {
      var others := if r.Object? then r.fields else map[];
      forall k | k in l.fields && k in others
        ensures Patch(l.fields[k], others[k], Below(iset{}, k)) == l.fields[k]
      {
        assert Below(iset{}, k) == iset{};
        NoPatch(l.fields[k], others[k]);
      }
      assert Patch(l, r, iset{}).fields == l.fields;
    }
  }
}
