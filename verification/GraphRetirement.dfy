/** The retirement of the instances that a run has not selected, and the containers that are then left. */
module GraphRetirement {
  import opened Options
  import opened Lists
  import opened StringOrder
  import opened GraphModel

  /** How far the retirement has come in its list: instances marked as draining, asked to stop, asked to be removed,
      removed by Docker, and marked as removed in the store. */
  datatype Retired = Retired(drained: nat, stopped: nat, removed: nat, gone: nat, marked: nat)

  const NoneRetired: Retired := Retired(0, 0, 0, 0, 0)

  /** All are draining before the first is stopped, and then one goes after the other: only the last one that was
      begun may be unfinished. */
  predicate InOrder(x: Retired, n: nat) {
    && x.marked <= x.gone <= x.removed <= x.stopped <= x.drained <= n && x.stopped <= x.marked + 1
    && (x.stopped > 0 ==> x.drained == n)
  }

  /** The rows when the retirement has come so far. */
  function RetiredRows(rows: Rows, list: seq<Row>, x: Retired): Rows
    requires InOrder(x, |list|)
  {
    MarkRows(MarkRows(rows, list, x.drained, Draining), list, x.marked, Removed)
  }

  function IdSet(list: seq<Row>): set<string> {
    set r | r in list :: r.id
  }

  lemma IdSetHas(list: seq<Row>)
    ensures forall id :: id in IdSet(list) <==> HasId(list, 0, id)
  {
    forall id ensures id in IdSet(list) <==> HasId(list, 0, id) {
      if id in IdSet(list) {
        var r :| r in list && r.id == id;
        var i :| 0 <= i < |list| && list[i] == r;
      }
      if i :| 0 <= i < |list| && list[i].id == id { assert list[i] in list; }
    }
  }

  /** What Docker is asked for: stops and removals of the first instances of the list, in order, and nothing else. */
  ghost predicate RetireAsked(b: Asked, a: Asked, list: seq<Row>, x: Retired) {
    && InOrder(x, |list|)
    && a == b.(stops := b.stops + Ids(list[..x.stopped]), removals := b.removals + Ids(list[..x.removed]))
  }

  /** Only instances of the list are drained, and exactly its first ones are newly marked as removed. */
  ghost predicate RetireRows(before: Rows, after: Rows, list: seq<Row>, x: Retired) {
    && ChangedOnly(before, after, list) && x.marked <= |list|
    && (forall i :: 0 <= i < x.marked ==> IsRemoved(after, list[i].id))
    && (forall id :: IsRemoved(after, id) && !IsRemoved(before, id) ==> HasId(list[..x.marked], 0, id))
  }

  ghost predicate IsRemoved(rows: Rows, id: string) {
    id in rows && rows[id].status == Removed
  }

  /** Marked as removed, and its container is there. */
  predicate IsStray(rows: Rows, containers: set<string>, id: string) {
    id in rows && rows[id].status == Removed && id in containers
  }

  /** An instance that is marked as removed has no container. */
  ghost predicate RemovedGone(rows: Rows, containers: set<string>) {
    forall id :: !IsStray(rows, containers, id)
  }

  ghost predicate RemovedKept(b: Pool, a: Pool) {
    forall id :: IsStray(a.rows, a.containers, id) ==> IsStray(b.rows, b.containers, id)
  }

  lemma {:induction false} RetireKeepsGone(b: Pool, a: Pool, list: seq<Row>, x: Retired)
    requires RetireRows(b.rows, a.rows, list, x) && InOrder(x, |list|)
    requires a.containers == b.containers - IdSet(list[..x.gone])
    ensures RemovedKept(b, a)
  {
    IdSetHas(list[..x.gone]);
    forall id | IsRemoved(a.rows, id) && !IsRemoved(b.rows, id) ensures id !in a.containers {
      var i :| 0 <= i < x.marked && list[..x.marked][i].id == id;
      assert list[..x.gone][i].id == id;
    }
    forall id | IsStray(a.rows, a.containers, id) ensures IsStray(b.rows, b.containers, id) {
      assert IsRemoved(a.rows, id);
    }
  }

  /** With removed instances gone, the containers of the run's instances are those of the selected ones, but for the
      created ones that the catch block removed, and those of old instances that the retirement had not come to. */
  ghost predicate ContainersLeft(start: Pool, now: Pool, kept: set<string>, selected: seq<Row>, retiring: seq<Row>,
                                 x: Retired) {
    forall id :: id in now.rows ==> (id in now.containers <==> IsLeft(start, now, kept, selected, retiring, x, id))
  }

  ghost predicate IsLeft(start: Pool, now: Pool, kept: set<string>, selected: seq<Row>, retiring: seq<Row>, x: Retired,
                         id: string) {
    || (IsSelected(selected, id) && (HasId(now.created, 0, id) ==> id in kept))
    || (HasId(retiring, x.gone, id) && id in start.containers)
  }

  lemma {:induction false} LeftIs(start: Pool, p: Pool, now: Pool, kept: set<string>, selected: seq<Row>,
                                  retiring: seq<Row>, x: Retired)
    requires Grown(start, p) && start.created == [] && p.leftover == {} && RemovedGone(p.rows, p.containers)
    requires InStore(p.rows, p.containers, selected) && CreatedAmong(p.created, 0, selected)
    requires IsUnselected(p.rows, selected, retiring) && DistinctRows(retiring) && x.gone <= |retiring|
    requires now.rows.Keys == p.rows.Keys && now.created == p.created
    requires now.containers == p.containers - IdSet(retiring[..x.gone]) - (IdSet(p.created) - kept)
    ensures ContainersLeft(start, now, kept, selected, retiring, x)
  {
    IdSetHas(p.created);
    IdSetHas(retiring[..x.gone]);
    forall id | id in now.rows ensures id in now.containers <==> IsLeft(start, now, kept, selected, retiring, x, id) {
      if IsSelected(selected, id) {
        SelectedIsLeft(p, selected, retiring, x, id);
      } else {
        UnselectedIsLeft(start, p, selected, retiring, x, id);
      }
    }
  }

  lemma {:induction false} SelectedIsLeft(p: Pool, selected: seq<Row>, retiring: seq<Row>, x: Retired, id: string)
    requires InStore(p.rows, p.containers, selected) && IsUnselected(p.rows, selected, retiring)
    requires x.gone <= |retiring| && IsSelected(selected, id)
    ensures id in p.containers && !HasId(retiring, x.gone, id) && !HasId(retiring[..x.gone], 0, id)
  {
    var i :| 0 <= i < |selected| && selected[i].id == id;
    forall j | 0 <= j < |retiring| ensures retiring[j].id != id { assert retiring[j] in retiring; }
  }

  lemma {:induction false} UnselectedIsLeft(start: Pool, p: Pool, selected: seq<Row>, retiring: seq<Row>, x: Retired,
                                            id: string)
    requires Grown(start, p) && start.created == [] && p.leftover == {} && RemovedGone(p.rows, p.containers)
    requires CreatedAmong(p.created, 0, selected) && IsUnselected(p.rows, selected, retiring)
    requires DistinctRows(retiring) && x.gone <= |retiring| && id in p.rows && !IsSelected(selected, id)
    ensures !HasId(p.created, 0, id)
    ensures id in p.containers && !HasId(retiring[..x.gone], 0, id) <==>
              HasId(retiring, x.gone, id) && id in start.containers
  {
    forall i | 0 <= i < |p.created| ensures p.created[i].id != id {
      assert p.created[i] in selected;
      var k :| 0 <= k < |selected| && selected[k] == p.created[i];
    }
    assert (id in p.containers <==> id in start.containers) && !IsStray(p.rows, p.containers, id);
    if id in p.containers {
      assert p.rows[id] in retiring;
      var j :| 0 <= j < |retiring| && retiring[j] == p.rows[id];
      assert j < x.gone ==> retiring[..x.gone][j].id == id;
    }
    assert forall i, j :: 0 <= i < x.gone <= j < |retiring| ==> retiring[..x.gone][i].id != retiring[j].id;
  }
}
