/** The jobs of a graph as a node runs them, with the keys of completed jobs in a state file. */
module AgentJobs {
  import opened Options
  import opened Lists
  import Jobs

  /** The targets of a job: none, or one without an instance, or the instances of its component. */
  function AgentTargets(job: Jobs.Job, instances: seq<Jobs.Instance>, s: Jobs.Settings): seq<Option<string>> {
    match job.scope
    case WriterSite => if s.writer != Some(s.site) then [] else [None]
    case PerSite => [None]
    case EachInstance => IdsOf(instances, job.component)
  }

  function IdsOf(instances: seq<Jobs.Instance>, component: string): seq<Option<string>> {
    if instances == [] then []
    else
      var front, last := IdsOf(instances[..|instances| - 1], component), instances[|instances| - 1];
      if last.component == component then front + [Some(last.id)] else front
  }

  function KeysOf(e: Jobs.Execution, s: Jobs.Settings, name: string, targets: seq<Option<string>>): seq<Jobs.Key> {
    seq(|targets|, i requires 0 <= i < |targets| => Jobs.KeyFor(e, s, name, targets[i]))
  }

  /** The keys in the order in which the node comes to them. */
  function AgentKeys(e: Jobs.Execution, s: Jobs.Settings, jobs: map<string, Jobs.Job>, instances: seq<Jobs.Instance>,
                     names: seq<string>): seq<Jobs.Key>
    requires forall n :: n in names ==> n in jobs
  {
    if names == [] then []
    else
      var name := names[|names| - 1];
      AgentKeys(e, s, jobs, instances, names[..|names| - 1]) + KeysOf(e, s, name,
                                                                      AgentTargets(jobs[name], instances, s))
  }

  // ---- the node and the coordinator agree on the keys ----

  lemma {:induction false} SameIds(instances: seq<Jobs.Instance>, component: string, id: string)
    requires forall i :: 0 <= i < |instances| ==> !instances[i].stopped
    ensures Some(id) in IdsOf(instances, component) <==> id in Jobs.InstanceIds(instances, component)
    ensures None !in IdsOf(instances, component)
  {
    if instances != [] {
      var front, last := instances[..|instances| - 1], instances[|instances| - 1];
      SameIds(front, component, id);
      Jobs.InsertIdMembers(Jobs.InstanceIds(front, component), last.id);
    }
  }

  lemma SameTargets(job: Jobs.Job, instances: seq<Jobs.Instance>, s: Jobs.Settings, t: Option<string>)
    requires s.site != "" && forall i :: 0 <= i < |instances| ==> !instances[i].stopped
    ensures t in AgentTargets(job, instances, s) <==> t in Jobs.Targets(job, instances, s)
  {
    if job.scope == Jobs.EachInstance {
      var ids := Jobs.InstanceIds(instances, job.component);
      SameIds(instances, job.component, if t.Some? then t.value else "");
      forall x ensures Some(x) in Jobs.Somes(ids) <==> x in ids {
        if x in ids {
          var i :| 0 <= i < |ids| && ids[i] == x;
          assert Jobs.Somes(ids)[i] == Some(x);
        }
      }
    }
  }

  /** The node runs jobs under exactly the keys under which the coordinator plans them. */
  lemma {:induction false} SameKeys(e: Jobs.Execution, s: Jobs.Settings, jobs: map<string, Jobs.Job>,
                                    instances: seq<Jobs.Instance>, names: seq<string>, key: Jobs.Key)
    requires (forall n :: n in names ==> n in jobs) && s.site != "" && forall i :: 0 <= i < |instances| ==>
            !instances[i].stopped
    ensures key in AgentKeys(e, s, jobs, instances, names) <==> Jobs.Wants(e, s, jobs, instances, names, key)
  {
    if names != [] {
      var front, name := names[..|names| - 1], names[|names| - 1];
      SameKeys(e, s, jobs, instances, front, key);
      assert forall n :: n in names <==> n in front || n == name;
      var targets := AgentTargets(jobs[name], instances, s);
      var own := KeysOf(e, s, name, targets);
      if key in own {
        var i :| 0 <= i < |own| && own[i] == key;
        SameTargets(jobs[name], instances, s, targets[i]);
      }
      if t :| t in Jobs.Targets(jobs[name], instances, s) && key == Jobs.KeyFor(e, s, name, t) {
        SameTargets(jobs[name], instances, s, t);
        var i :| 0 <= i < |targets| && targets[i] == t;
        assert own[i] == key;
      }
    }
  }

  // ---- one run ----

  /** `CrashAfter`: the job has succeeded but its key has not been written. */
  datatype Ending = Success | Failure | CrashBefore | CrashAfter

  /** The keys in the state file, and those of all jobs that have succeeded, in order. */
  datatype State = State(completed: set<Jobs.Key>, log: seq<Jobs.Key>)

  datatype Outcome = Returned | Stopped

  /** `endings` are those of the jobs that are run; a completed key is passed over. */
  function RunKeys(st: State, keys: seq<Jobs.Key>, endings: seq<Ending>): (State, Outcome)
    decreases |keys|
  {
    if keys == [] then (st, Returned)
    else if keys[0] in st.completed then RunKeys(st, keys[1..], endings)
    else if endings == [] then (st, Stopped)
    else match endings[0]
      case Success => RunKeys(State(st.completed + {keys[0]}, st.log + [keys[0]]), keys[1..], endings[1..])
      case Failure => (st, Stopped)
      case CrashBefore => (st, Stopped)
      case CrashAfter => (State(st.completed, st.log + [keys[0]]), Stopped)
  }

  class Node {
    /** The completed keys in the state file. */
    var file: set<Jobs.Key>
    ghost var log: seq<Jobs.Key>

    /** `runGraphJobs`; `executed` says of each key that it came to whether its job was run now: it was unless
        the file had the key or the key had come before. */
    method RunGraphJobs(keys: seq<Jobs.Key>, endings: seq<Ending>) returns (outcome: Outcome, executed: seq<bool>)
      modifies this
      ensures (State(file, log), outcome) == RunKeys(State(old(file), old(log)), keys, endings)
      ensures outcome == Returned ==> |executed| == |keys|
      ensures |executed| <= |keys|
      ensures forall i :: 0 <= i < |executed| ==> (executed[i] <==> keys[i] !in old(file) && keys[i] !in keys[..i])
    {
      var completed, next := file, 0;
      executed := [];
      for i := 0 to |keys|
        invariant completed == file && next <= |endings| && |executed| == i
        invariant RunKeys(State(file, log), keys[i..], endings[next..]) == RunKeys(State(old(file), old(log)), keys,
                                                                                   endings)
        invariant forall k :: k in file <==> k in old(file) || k in keys[..i]
        invariant forall j :: 0 <= j < i ==> (executed[j] <==> keys[j] !in old(file) && keys[j] !in keys[..j])
      {
        assert keys[i..][1..] == keys[i + 1..] && keys[..i + 1] == keys[..i] + [keys[i]];
        if keys[i] in completed {
          executed := executed + [false];
          continue;
        }
        if next == |endings| { return Stopped, executed; }
        var ending := endings[next];
        assert endings[next..][1..] == endings[next + 1..];
        next := next + 1;
        if ending == Failure || ending == CrashBefore { return Stopped, executed; }
        log := log + [keys[i]];
        if ending == CrashAfter { return Stopped, executed; }
        completed := completed + {keys[i]};
        executed := executed + [true];
        file := completed;
      }
      outcome := Returned;
    }
  }

  // ---- over any run of runs ----

  lemma {:induction false} CompletedGrows(st: State, keys: seq<Jobs.Key>, endings: seq<Ending>)
    ensures var r := RunKeys(st, keys, endings);
            && st.completed <= r.0.completed
            && (r.1 == Returned ==> forall k :: k in keys ==> k in r.0.completed)
    decreases |keys|
  {
    if keys != [] {
      if keys[0] in st.completed { CompletedGrows(st, keys[1..], endings); }
      else if endings != [] && endings[0] == Success {
        CompletedGrows(State(st.completed + {keys[0]}, st.log + [keys[0]]), keys[1..], endings[1..]);
      }
      assert forall k :: k in keys <==> k == keys[0] || k in keys[1..];
    }
  }

  lemma {:induction false} AllCompleted(st: State, keys: seq<Jobs.Key>, endings: seq<Ending>)
    requires forall k :: k in keys ==> k in st.completed
    ensures RunKeys(st, keys, endings) == (st, Returned)
    decreases |keys|
  {
    if keys != [] {
      assert keys[0] in keys;
      assert forall k :: k in keys[1..] ==> k in keys;
      AllCompleted(st, keys[1..], endings);
    }
  }

  /** After a run that returned, the same run does nothing. */
  lemma RunAgain(st: State, keys: seq<Jobs.Key>, endings: seq<Ending>, again: seq<Ending>)
    requires RunKeys(st, keys, endings).1 == Returned
    ensures RunKeys(RunKeys(st, keys, endings).0, keys, again) == (RunKeys(st, keys, endings).0, Returned)
  {
    CompletedGrows(st, keys, endings);
    AllCompleted(RunKeys(st, keys, endings).0, keys, again);
  }

  function RunAll(st: State, runs: seq<(seq<Jobs.Key>, seq<Ending>)>): State {
    if runs == [] then st
    else
      var last := runs[|runs| - 1];
      RunKeys(RunAll(st, runs[..|runs| - 1]), last.0, last.1).0
  }

  ghost predicate Once(st: State) {
    NoRepeat(st.log) && st.completed == set k | k in st.log
  }

  /** The run crashes between the success of a job and the write of its key. */
  predicate ComesToCrash(st: State, keys: seq<Jobs.Key>, endings: seq<Ending>)
    decreases |keys|
  {
    if keys == [] then false
    else if keys[0] in st.completed then ComesToCrash(st, keys[1..], endings)
    else if endings == [] then false
    else match endings[0]
      case Success => ComesToCrash(State(st.completed + {keys[0]}, st.log + [keys[0]]), keys[1..], endings[1..])
      case CrashAfter => true
      case _ => false
  }

  lemma {:induction false} RunOnce(st: State, keys: seq<Jobs.Key>, endings: seq<Ending>)
    requires Once(st)
    ensures Once(RunKeys(st, keys, endings).0) <==> !ComesToCrash(st, keys, endings)
    ensures ComesToCrash(st, keys, endings) ==> Lost(RunKeys(st, keys, endings).0)
    decreases |keys|
  {
    if keys != [] {
      if keys[0] in st.completed { RunOnce(st, keys[1..], endings); }
      else if endings != [] {
        var log := st.log + [keys[0]];
        if endings[0] == Success {
          var next := State(st.completed + {keys[0]}, log);
          assert next.completed == set k | k in log;
          PushDistinct(st.log, keys[0]);
          RunOnce(next, keys[1..], endings[1..]);
        } else if endings[0] == CrashAfter {
          assert log[|st.log|] == keys[0] && keys[0] in log;
          assert multiset(log)[keys[0]] > 0;
        }
      }
    }
  }

  /** A key has succeeded more often than the file can tell. */
  ghost predicate Lost(st: State) {
    exists k :: multiset(st.log)[k] > if k in st.completed then 1 else 0
  }

  lemma {:induction false} Repeats(log: seq<Jobs.Key>, k: Jobs.Key)
    requires multiset(log)[k] > 1
    ensures !NoRepeat(log)
  {
    var front, last := log[..|log| - 1], log[|log| - 1];
    assert log == front + [last];
    if last == k {
      assert multiset(front)[k] > 0 && k in front;
      var i :| 0 <= i < |front| && front[i] == k;
      assert log[i] == log[|log| - 1];
    } else {
      Repeats(front, k);
      var i, j :| 0 <= i < j < |front| && front[i] == front[j];
      assert log[i] == log[j];
    }
  }

  lemma LostIsNotOnce(st: State)
    requires Lost(st)
    ensures !Once(st)
  {
    var k :| multiset(st.log)[k] > if k in st.completed then 1 else 0;
    assert k in multiset(st.log) && k in st.log;
    if k in st.completed { Repeats(st.log, k); }
  }

  /** What is lost stays lost. */
  lemma {:induction false} StaysLost(st: State, keys: seq<Jobs.Key>, endings: seq<Ending>)
    requires Lost(st)
    ensures Lost(RunKeys(st, keys, endings).0)
    decreases |keys|
  {
    if keys != [] {
      if keys[0] in st.completed { StaysLost(st, keys[1..], endings); }
      else if endings != [] && (endings[0] == Success || endings[0] == CrashAfter) {
        var k :| multiset(st.log)[k] > if k in st.completed then 1 else 0;
        var log := st.log + [keys[0]];
        assert multiset(log)[k] == multiset(st.log)[k] + if k == keys[0] then 1 else 0;
        assert Lost(State(st.completed, log));
        if endings[0] == Success {
          assert Lost(State(st.completed + {keys[0]}, log));
          StaysLost(State(st.completed + {keys[0]}, log), keys[1..], endings[1..]);
        }
      }
    }
  }

  ghost predicate CrashFree(st: State, runs: seq<(seq<Jobs.Key>, seq<Ending>)>) {
    forall i :: 0 <= i < |runs| ==> !ComesToCrash(RunAll(st, runs[..i]), runs[i].0, runs[i].1)
  }

  lemma CrashFreeFront(st: State, runs: seq<(seq<Jobs.Key>, seq<Ending>)>)
    requires runs != []
    ensures var front, last := runs[..|runs| - 1], runs[|runs| - 1];
            CrashFree(st, runs) <==> CrashFree(st, front) && !ComesToCrash(RunAll(st, front), last.0, last.1)
  {
    var front, last := runs[..|runs| - 1], runs[|runs| - 1];
    assert forall i :: 0 <= i <= |front| ==> front[..i] == runs[..i];
    forall i | 0 <= i < |front|
      ensures ComesToCrash(RunAll(st, runs[..i]), runs[i].0, runs[i].1)
         <==> ComesToCrash(RunAll(st, front[..i]), front[i].0, front[i].1) {}
    if CrashFree(st, front) && !ComesToCrash(RunAll(st, front), last.0, last.1) {
      forall i | 0 <= i < |runs| ensures !ComesToCrash(RunAll(st, runs[..i]), runs[i].0, runs[i].1) {
        if i < |front| { assert !ComesToCrash(RunAll(st, front[..i]), front[i].0, front[i].1); }
      }
    }
  }

  /** Over any runs every job succeeds at most once and the file holds exactly the keys that have succeeded,
      exactly when none of the runs crashes between the success of a job and the write of its key. */
  lemma {:induction false} EachJobOnce(runs: seq<(seq<Jobs.Key>, seq<Ending>)>)
    ensures Once(RunAll(State({}, []), runs)) <==> CrashFree(State({}, []), runs)
    ensures CrashFree(State({}, []), runs) || Lost(RunAll(State({}, []), runs))
  {
    if runs != [] {
      var front, last := runs[..|runs| - 1], runs[|runs| - 1];
      EachJobOnce(front);
      CrashFreeFront(State({}, []), runs);
      var before := RunAll(State({}, []), front);
      if Once(before) {
        RunOnce(before, last.0, last.1);
      } else {
        StaysLost(before, last.0, last.1);
        LostIsNotOnce(RunAll(State({}, []), runs));
      }
    }
  }

  /** With such a crash the job runs again: the file alone does not make a job run once. The coordinator marks a
      job as running before it starts it, and over no run does a job succeed twice (`Jobs.NoKeySucceedsTwice`). */
  lemma CrashRunsTwice(key: Jobs.Key)
    ensures RunAll(State({}, []), [([key], [CrashAfter]), ([key], [Success])]).log == [key, key]
  {
    var runs := [([key], [CrashAfter]), ([key], [Success])];
    var begin := State({}, []);
    assert runs[..1][..0] == [] && RunAll(begin, []) == begin;
    assert RunKeys(begin, [key], [CrashAfter]).0 == State({}, [key]);
    assert RunAll(begin, runs[..1]) == State({}, [key]);
    assert RunKeys(State({key}, [key] + [key]), [key][1..], [Success][1..]).0.log == [key, key];
    assert RunKeys(State({}, [key]), [key], [Success]).0.log == [key, key];
  }
}
