/** `LabelSummary`: the state of one task label across the tasks (retriggers) that carry it. */
module LabelSummaries {
  import opened Wrappers
  import opened Seqs
  import opened Tasks
  import opened Summaries

  predicate AnyFailed(tasks: seq<Task>)
  {
    exists k | 0 <= k < |tasks| :: Failed(tasks[k])
  }

  predicate AllFailed(tasks: seq<Task>)
  {
    forall k | 0 <= k < |tasks| :: Failed(tasks[k])
  }

  /**
   * The label's status: none for no tasks, PASS when no task failed, FAIL
   * when every task failed, INTERMITTENT when some did and some did not.
   */
  function LabelStatus(tasks: seq<Task>): Option<Status>
  {
    if tasks == [] then None
    else if !AnyFailed(tasks) then Some(Pass)
    else if AllFailed(tasks) then Some(Fail)
    else Some(Intermittent)
  }

  /** `classifications`: the pairs of the failed tasks, in order. */
  function LabelClassifications(tasks: seq<Task>): (cls: seq<Classification>)
    ensures |cls| <= |tasks|
    ensures forall t | t in tasks && Failed(t) :: ClassificationOf(t) in cls
    ensures forall c | c in cls :: exists t | t in tasks && Failed(t) :: ClassificationOf(t) == c
  {
    var failed := Filter(Failed, tasks);
    var out := Map(ClassificationOf, failed);
    forall t | t in tasks && Failed(t)
      ensures ClassificationOf(t) in out
    {
      assert t in failed;
      var k :| 0 <= k < |failed| && failed[k] == t;
      assert out[k] == ClassificationOf(t);
    }
    forall c | c in out
      ensures exists t | t in tasks && Failed(t) :: ClassificationOf(t) == c
    {
      var k :| 0 <= k < |out| && out[k] == c;
      assert failed[k] in failed;
    }
    out
  }

  /** The classifications keep the order of the tasks: those of a concatenation are those of each part, in turn. */
  lemma {:induction false} LabelClassificationsAppend(a: seq<Task>, b: seq<Task>)
    ensures LabelClassifications(a + b) == LabelClassifications(a) + LabelClassifications(b)
  {
    FilterAppend(Failed, a, b);
    MapAppend(ClassificationOf, Filter(Failed, a), Filter(Failed, b));
  }

  /** `durations`: the duration of every task, in order. */
  function LabelDurations(tasks: seq<Task>): (ds: seq<Option<int>>)
    ensures |ds| == |tasks|
    ensures forall k | 0 <= k < |ds| :: ds[k] == tasks[k].duration
  {
    Map((t: Task) => t.duration, tasks)
  }

  /** `total_duration`, defined when every task has a duration. */
  function LabelTotalDuration(tasks: seq<Task>): (total: int)
    requires forall k | 0 <= k < |tasks| :: tasks[k].duration.Some?
    ensures (forall k | 0 <= k < |tasks| :: tasks[k].duration.value >= 0) ==>
      total >= 0 && forall k | 0 <= k < |tasks| :: total >= tasks[k].duration.value
  {
    var ds := LabelDurations(tasks);
    TotalBoundsWhenNonNegative(ds);
    Total(ds)
  }

  /** The total over two lists of tasks is the sum of their totals. */
  lemma {:induction false} LabelTotalDurationAppend(a: seq<Task>, b: seq<Task>)
    requires forall k | 0 <= k < |a| :: a[k].duration.Some?
    requires forall k | 0 <= k < |b| :: b[k].duration.Some?
    ensures forall k | 0 <= k < |a + b| :: (a + b)[k].duration.Some?
    ensures LabelTotalDuration(a + b) == LabelTotalDuration(a) + LabelTotalDuration(b)
  {
    assert forall k | 0 <= k < |a + b| :: (a + b)[k] == if k < |a| then a[k] else b[k - |a|];
    MapAppend((t: Task) => t.duration, a, b);
    TotalAppend(LabelDurations(a), LabelDurations(b));
  }

  /** The classifications cover every task exactly when the label FAILs, and none exactly when it does not fail at all. */
  lemma {:induction false} LabelClassificationsCount(tasks: seq<Task>)
    ensures LabelStatus(tasks) == Some(Fail) <==> tasks != [] && |LabelClassifications(tasks)| == |tasks|
    ensures LabelClassifications(tasks) == [] <==> !AnyFailed(tasks)
  {
    var failed := Filter(Failed, tasks);
    FilterKeepsAll(Failed, tasks);
    if |failed| == |tasks| {
      FilterLengthKeepsAll(tasks);
    }
    if failed != [] {
      assert failed[0] in failed;
    }
    if AnyFailed(tasks) {
      var k :| 0 <= k < |tasks| && Failed(tasks[k]);
      assert tasks[k] in failed;
    }
  }

  /** A filter that keeps as many tasks as it was given keeps them all. */
  lemma {:induction false} FilterLengthKeepsAll(tasks: seq<Task>)
    requires |Filter(Failed, tasks)| == |tasks|
    ensures Filter(Failed, tasks) == tasks
    decreases |tasks|
  {
    if tasks != [] && Failed(tasks[0]) {
      FilterLengthKeepsAll(tasks[1..]);
    }
  }

  /** `is_intermittent` for a label. */
  predicate LabelIsIntermittent(tasks: seq<Task>)
  {
    IsIntermittent(LabelStatus(tasks), LabelClassifications(tasks))
  }

  /** A label is intermittent when some of its tasks failed and some did not, or a failed one is classified intermittent. */
  lemma {:induction false} LabelIsIntermittentIff(tasks: seq<Task>)
    ensures LabelIsIntermittent(tasks) <==> ((AnyFailed(tasks) && !AllFailed(tasks)) ||
      exists t | t in tasks :: Failed(t) && t.classification == Some("intermittent"))
  {
    var cls := LabelClassifications(tasks);
    if exists k | 0 <= k < |cls| :: cls[k].classification == Some("intermittent") {
      var k :| 0 <= k < |cls| && cls[k].classification == Some("intermittent");
      assert cls[k] in cls;
      var t :| t in tasks && Failed(t) && ClassificationOf(t) == cls[k];
    }
    if exists t | t in tasks :: Failed(t) && t.classification == Some("intermittent") {
      var t :| t in tasks && Failed(t) && t.classification == Some("intermittent");
      assert ClassificationOf(t) in cls;
      var k :| 0 <= k < |cls| && cls[k] == ClassificationOf(t);
    }
  }

  /** `LabelSummary`: a label and the tasks that carry it. */
  class LabelSummary {
    const taskLabel: string
    const tasks: seq<Task>

    /** Construction requires every task to carry the label. */
    constructor (taskLabel: string, tasks: seq<Task>)
      requires forall k | 0 <= k < |tasks| :: tasks[k].taskLabel == Some(taskLabel)
      ensures this.taskLabel == taskLabel && this.tasks == tasks
    {
      this.taskLabel := taskLabel;
      this.tasks := tasks;
    }

    /** `status`, folded task by task as in the source. */
    method Status() returns (overall: Option<Status>)
      ensures overall == LabelStatus(tasks)
    {
      overall := None;
      for i := 0 to |tasks|
        invariant overall == LabelStatus(tasks[..i])
      {
        var status := if Failed(tasks[i]) then Fail else Pass;
        if overall.None? {
          overall := Some(status);
        } else if status != overall.value {
          overall := Some(Intermittent);
        }
        ghost var seen, next := tasks[..i], tasks[..i + 1];
        assert forall k | 0 <= k < i :: next[k] == seen[k];
        assert next[i] == tasks[i];
        assert AnyFailed(next) <==> AnyFailed(seen) || Failed(tasks[i]);
        assert AllFailed(next) <==> AllFailed(seen) && Failed(tasks[i]);
        assert seen != [] ==> (Failed(seen[0]) ==> AnyFailed(seen)) && (!Failed(seen[0]) ==> !AllFailed(seen));
      }
      assert tasks[..|tasks|] == tasks;
    }

    /** `is_intermittent`. */
    method IsIntermittent() returns (b: bool)
      ensures b == LabelIsIntermittent(tasks)
    {
      var s := Status();
      var cls := LabelClassifications(tasks);
      b := s == Some(Intermittent) || exists k | 0 <= k < |cls| :: cls[k].classification == Some("intermittent");
    }
  }
}
