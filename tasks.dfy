/**
 * Task records: the `Task` record and its predicates, the `create` dispatch
 * between plain tasks and test tasks, per-group results, and the pipeline
 * that turns the groups a test task reported into its `results`.
 */
module Tasks {
  import opened Wrappers
  import opened Strings
  import opened Seqs
  import opened Labels
  import opened Groups

  /** The verdict for a group or a label across retriggers. */
  datatype Status = Pass | Fail | Intermittent

  /**
   * `Task`: `taskLabel` is the task's `label`. A task built without an explicit
   * classification has `Some("not classified")`.
   */
  datatype Task = Task(
    id: string,
    taskLabel: Option<string>,
    duration: Option<int>,
    result: Option<string>,
    state: Option<string>,
    classification: Option<string>,
    classificationNote: Option<string>,
    tags: map<string, string>,
    tier: Option<int>)

  /** `tags.get("action", "")`. */
  function Action(t: Task): string
  {
    if "action" in t.tags then t.tags["action"] else ""
  }

  /** `is_backfill`. */
  predicate IsBackfill(t: Task)
  {
    Action(t) == "backfill-task"
  }

  /** `is_retrigger`. */
  predicate IsRetrigger(t: Task)
  {
    StartsWith(Action(t), "retrigger-")
  }

  /** `failed`: the task ended with result `failed` or `exception`. */
  predicate Failed(t: Task)
  {
    t.result == Some("failed") || t.result == Some("exception")
  }

  /** A task is never both a backfill and a retrigger. */
  lemma {:induction false} BackfillIsNotRetrigger(t: Task)
    ensures !(IsBackfill(t) && IsRetrigger(t))
  {
    if IsBackfill(t) {
      assert Action(t)[..10][0] == 'b';
    }
  }

  /** `GroupResult`: the outcome of one group in one task. */
  datatype GroupResult = GroupResult(group: string, ok: bool, duration: Option<int>)

  /** `groups`: the group names of a result list, in order. */
  function GroupsOf(rs: seq<GroupResult>): seq<string>
  {
    Map((r: GroupResult) => r.group, rs)
  }

  /** No group name occurs twice (the keys of the mapping the results are fetched as). */
  predicate DistinctGroups(rs: seq<GroupResult>)
  {
    forall i, j | 0 <= i < j < |rs| :: rs[i].group != rs[j].group
  }

  /** `is_wpt` on the task's label. */
  predicate IsWptLabel(taskLabel: string)
  {
    Contains(taskLabel, "web-platform-tests") || Contains(taskLabel, "test-verify-wpt") || Contains(taskLabel, "test-coverage-wpt")
  }

  predicate Completed(state: Option<string>)
  {
    state == Some("completed")
  }

  /** The WPT branch: every entry that reaches `wpt_workaround` is one it accepts. */
  predicate RetrieveReady(taskLabel: string, state: Option<string>, fetched: seq<GroupResult>)
  {
    IsWptLabel(taskLabel) && Completed(state) ==> forall k | 0 <= k < |fetched| :: fetched[k].group == "/" || IsWptInput(fetched[k].group)
  }

  /** Each entry with its group renamed by `wpt_workaround`. */
  function Rewrite(rs: seq<GroupResult>): (r: seq<GroupResult>)
    requires forall k | 0 <= k < |rs| :: IsWptInput(rs[k].group)
    ensures |r| == |rs|
    ensures forall k | 0 <= k < |rs| :: r[k] == rs[k].(group := WptWorkaround(rs[k].group))
    decreases |rs|
  {
    if rs == [] then [] else [rs[0].(group := WptWorkaround(rs[0].group))] + Rewrite(rs[1..])
  }

  /** The WPT entries with the `/` group removed and every other group rewritten. */
  function WptNormalised(rs: seq<GroupResult>): seq<GroupResult>
    requires forall k | 0 <= k < |rs| :: rs[k].group == "/" || IsWptInput(rs[k].group)
  {
    var kept := Filter((r: GroupResult) => r.group != "/", rs);
    assert forall k | 0 <= k < |kept| :: kept[k] in rs;
    Rewrite(kept)
  }

  /**
   * What `retrieve_results` stores outside the no-groups branch: the fetched
   * entries of a completed task (none otherwise), normalised for WPT labels,
   * then without bad groups, in the fetched order.
   */
  function Retrieved(taskLabel: string, state: Option<string>, fetched: seq<GroupResult>): (out: seq<GroupResult>)
    requires RetrieveReady(taskLabel, state, fetched)
    ensures forall r | r in out :: !IsBadGroup(r.group)
    ensures !Completed(state) ==> out == []
    ensures !IsWptLabel(taskLabel) ==> forall r :: r in out <==> Completed(state) && r in fetched && !IsBadGroup(r.group)
  {
    var gated := if Completed(state) then fetched else [];
    var normalised := if IsWptLabel(taskLabel) then WptNormalised(gated) else gated;
    Filter((r: GroupResult) => !IsBadGroup(r.group), normalised)
  }

  /** The entries of a rewrite are exactly the rewrites of the entries. */
  lemma {:induction false} RewriteMembership(rs: seq<GroupResult>, r: GroupResult)
    requires forall k | 0 <= k < |rs| :: IsWptInput(rs[k].group)
    ensures r in Rewrite(rs) <==> exists f | f in rs && IsWptInput(f.group) :: r == f.(group := WptWorkaround(f.group))
  {
    var out := Rewrite(rs);
    if r in out {
      var k :| 0 <= k < |out| && out[k] == r;
      assert rs[k] in rs;
    }
    if exists f | f in rs && IsWptInput(f.group) :: r == f.(group := WptWorkaround(f.group)) {
      var f :| f in rs && IsWptInput(f.group) && r == f.(group := WptWorkaround(f.group));
      var k :| 0 <= k < |rs| && rs[k] == f;
      assert out[k] == r;
    }
  }

  /** For a WPT label, an entry is kept exactly when it is the rewrite of a fetched non-`/` entry and is not bad. */
  lemma {:induction false} RetrievedWpt(taskLabel: string, state: Option<string>, fetched: seq<GroupResult>, r: GroupResult)
    requires RetrieveReady(taskLabel, state, fetched) && IsWptLabel(taskLabel) && Completed(state)
    ensures r in Retrieved(taskLabel, state, fetched) <==>
      !IsBadGroup(r.group) && exists f | f in fetched && f.group != "/" && IsWptInput(f.group) :: r == f.(group := WptWorkaround(f.group))
  {
    var kept := Filter((x: GroupResult) => x.group != "/", fetched);
    assert forall k | 0 <= k < |kept| :: kept[k] in fetched;
    var rewritten := Rewrite(kept);
    assert Retrieved(taskLabel, state, fetched) == Filter((x: GroupResult) => !IsBadGroup(x.group), rewritten);
    RewriteMembership(kept, r);
    assert forall f :: f in kept <==> f in fetched && f.group != "/";
  }

  /** A fetched WPT entry whose group is not `/`, not blank and has no backslash survives, rewritten. */
  lemma {:induction false} RetrievedKeepsCleanWptGroups(taskLabel: string, state: Option<string>, fetched: seq<GroupResult>, f: GroupResult)
    requires RetrieveReady(taskLabel, state, fetched) && IsWptLabel(taskLabel) && Completed(state)
    requires f in fetched && f.group != "/" && !IsBlank(f.group) && !Contains(f.group, "\\")
    ensures IsWptInput(f.group) && f.(group := WptWorkaround(f.group)) in Retrieved(taskLabel, state, fetched)
  {
    WptWorkaroundNotBad(f.group);
    RetrievedWpt(taskLabel, state, fetched, f.(group := WptWorkaround(f.group)));
  }

  /** A filter keeps group names distinct. */
  lemma {:induction false} FilterKeepsDistinct(p: GroupResult -> bool, rs: seq<GroupResult>)
    requires DistinctGroups(rs)
    ensures DistinctGroups(Filter(p, rs))
    decreases |rs|
  {
    if rs != [] {
      var tail := rs[1..];
      assert DistinctGroups(tail) by {
        assert forall i | 0 <= i < |tail| :: tail[i] == rs[i + 1];
      }
      FilterKeepsDistinct(p, tail);
      var ft := Filter(p, tail);
      forall k | 0 <= k < |ft|
        ensures ft[k].group != rs[0].group
      {
        assert ft[k] in tail;
        var i :| 0 <= i < |tail| && tail[i] == ft[k];
        assert rs[i + 1] == ft[k];
      }
    }
  }

  lemma {:induction false} RewritePairDistinct(rs: seq<GroupResult>, i: nat, j: nat)
    requires forall k | 0 <= k < |rs| :: IsWptInput(rs[k].group)
    requires i < j < |rs| && rs[i].group != rs[j].group
    ensures Rewrite(rs)[i].group != Rewrite(rs)[j].group
  {
    WptWorkaroundInjective(rs[i].group, rs[j].group);
  }

  /** Rewriting keeps group names distinct, since `wpt_workaround` is injective. */
  lemma {:induction false} RewriteKeepsDistinct(rs: seq<GroupResult>)
    requires forall k | 0 <= k < |rs| :: IsWptInput(rs[k].group)
    requires DistinctGroups(rs)
    ensures DistinctGroups(Rewrite(rs))
  {
    forall i, j | 0 <= i < j < |rs|
      ensures Rewrite(rs)[i].group != Rewrite(rs)[j].group
    {
      RewritePairDistinct(rs, i, j);
    }
  }

  /** Fetched entries with distinct groups give results with distinct groups. */
  lemma {:induction false} RetrievedGroupsDistinct(taskLabel: string, state: Option<string>, fetched: seq<GroupResult>)
    requires RetrieveReady(taskLabel, state, fetched) && DistinctGroups(fetched)
    ensures DistinctGroups(Retrieved(taskLabel, state, fetched))
  {
    var gated := if Completed(state) then fetched else [];
    var normalised := gated;
    if IsWptLabel(taskLabel) {
      var kept := Filter((r: GroupResult) => r.group != "/", gated);
      FilterKeepsDistinct((r: GroupResult) => r.group != "/", gated);
      assert forall k | 0 <= k < |kept| :: kept[k] in gated;
      RewriteKeepsDistinct(kept);
      normalised := WptNormalised(gated);
    }
    FilterKeepsDistinct((r: GroupResult) => !IsBadGroup(r.group), normalised);
  }

  /**
   * Group `g` comes out of the pipeline from some fetched entry: the task is
   * completed, `g` is not bad, and a fetched entry has group `g` (for a WPT
   * label: a group other than `/` that `wpt_workaround` rewrites to `g`).
   */
  predicate ReachesGroup(taskLabel: string, state: Option<string>, fetched: seq<GroupResult>, g: string)
  {
    Completed(state) && !IsBadGroup(g) &&
    if IsWptLabel(taskLabel) then exists f | f in fetched :: f.group != "/" && IsWptInput(f.group) && WptWorkaround(f.group) == g
    else exists f | f in fetched :: f.group == g
  }

  /** `g in t.groups` after the pipeline exactly when some fetched entry reaches `g`. */
  lemma {:induction false} RetrievedGroups(taskLabel: string, state: Option<string>, fetched: seq<GroupResult>, g: string)
    requires RetrieveReady(taskLabel, state, fetched)
    ensures g in GroupsOf(Retrieved(taskLabel, state, fetched)) <==> ReachesGroup(taskLabel, state, fetched, g)
  {
    var out := Retrieved(taskLabel, state, fetched);
    var gs := GroupsOf(out);
    if g in gs {
      var k :| 0 <= k < |gs| && gs[k] == g;
      var r := out[k];
      assert r in out;
      if IsWptLabel(taskLabel) {
        RetrievedWpt(taskLabel, state, fetched, r);
        var f :| f in fetched && f.group != "/" && IsWptInput(f.group) && r == f.(group := WptWorkaround(f.group));
        assert WptWorkaround(f.group) == g;
      } else {
        assert r in fetched && r.group == g;
      }
    }
    if ReachesGroup(taskLabel, state, fetched, g) {
      var r: GroupResult;
      if IsWptLabel(taskLabel) {
        var f :| f in fetched && f.group != "/" && IsWptInput(f.group) && WptWorkaround(f.group) == g;
        r := f.(group := g);
        RetrievedWpt(taskLabel, state, fetched, r);
      } else {
        var f :| f in fetched && f.group == g;
        r := f;
      }
      assert r in out;
      var k :| 0 <= k < |out| && out[k] == r;
      assert gs[k] == g;
    }
  }

  /** A task together with the results retrieved for it: what the summaries read. */
  datatype TestRun = TestRun(info: Task, results: seq<GroupResult>)

  /** `TestTask`: a test task, whose results and errors are filled in later. */
  class TestTask {
    const info: Task
    var results: Option<seq<GroupResult>>
    var errors: Option<seq<string>>

    constructor (info: Task)
      ensures this.info == info && results == None && errors == None
    {
      this.info := info;
      results := None;
      errors := None;
    }

    /** `groups`: the group names of the results, which must have been retrieved. */
    function Groups(): (gs: seq<string>)
      reads this
      requires results.Some?
      ensures |gs| == |results.value| && forall k | 0 <= k < |gs| :: gs[k] == results.value[k].group
    {
      GroupsOf(results.value)
    }

    /** The task and its retrieved results, as a value. */
    function Snapshot(): TestRun
      reads this
      requires results.Some?
    {
      TestRun(info, results.value)
    }

    /** `configuration`: the configuration key of the task's label. */
    method Configuration() returns (config: string)
      requires info.taskLabel.Some?
      ensures config == ConfigurationKey(info.taskLabel.value)
    {
      config := GetConfigurationFromLabel(info.taskLabel.value);
    }

    /**
     * `retrieve_results`, given the entries the data source returns for this
     * task in `fetched`. A no-groups task gets empty results and errors; any
     * other task gets `Retrieved` and keeps its errors.
     */
    method RetrieveResults(fetched: seq<GroupResult>)
      requires info.taskLabel.Some?
      requires IsNoGroupsSuite(info.taskLabel.value) ==> results == None && errors == None
      requires !IsNoGroupsSuite(info.taskLabel.value) ==> RetrieveReady(info.taskLabel.value, info.state, fetched)
      modifies this
      ensures IsNoGroupsSuite(info.taskLabel.value) ==> results == Some([]) && errors == Some([])
      ensures !IsNoGroupsSuite(info.taskLabel.value) ==>
        results == Some(Retrieved(info.taskLabel.value, info.state, fetched)) && errors == old(errors)
    {
      var taskLabel := info.taskLabel.value;
      if IsNoGroupsSuite(taskLabel) {
        errors := Some([]);
        results := Some([]);
        return;
      }
      var rs := if Completed(info.state) then fetched else [];
      if IsWptLabel(taskLabel) {
        ghost var gated := rs;
        rs := Filter((r: GroupResult) => r.group != "/", rs);
        assert forall k | 0 <= k < |rs| :: rs[k] in gated;
        ghost var kept := rs;
        var i := 0;
        while i < |rs|
          invariant 0 <= i <= |rs| == |kept|
          invariant forall k | 0 <= k < i :: rs[k] == kept[k].(group := WptWorkaround(kept[k].group))
          invariant forall k | i <= k < |rs| :: rs[k] == kept[k]
        {
          rs := rs[i := rs[i].(group := WptWorkaround(rs[i].group))];
          i := i + 1;
        }
        assert rs == Rewrite(kept);
      }
      rs := Filter((r: GroupResult) => !IsBadGroup(r.group), rs);
      results := Some(rs);
    }
  }

  /** The object `Task.create` returns. */
  datatype Created = PlainTask(task: Task) | NewTestTask(testTask: TestTask)

  /** `Task.create` for a known id: a test task exactly when the label starts with `test-` (a missing label counts as `""`). */
  method Create(args: Task) returns (c: Created)
    ensures c.NewTestTask? <==> args.taskLabel.Some? && StartsWith(args.taskLabel.value, "test-")
    ensures c.PlainTask? ==> c.task == args
    ensures c.NewTestTask? ==> fresh(c.testTask) && c.testTask.info == args && c.testTask.results == None && c.testTask.errors == None
  {
    var taskLabel := if args.taskLabel.Some? then args.taskLabel.value else "";
    if StartsWith(taskLabel, "test-") {
      var t := new TestTask(args);
      c := NewTestTask(t);
    } else {
      c := PlainTask(args);
    }
  }
}
