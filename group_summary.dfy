/**
 * `GroupSummary`: the state of one test group across the tasks (retriggers)
 * that ran it. Every query visits the results for the group, task by task, in
 * order; `Matches` is that sequence.
 */
module GroupSummaries {
  import opened Wrappers
  import opened Strings
  import opened Seqs
  import opened Labels
  import opened Groups
  import opened Tasks
  import opened Summaries

  /** One result for the group, with the task it belongs to. */
  datatype Match = Match(run: TestRun, result: GroupResult)

  /** The results among `rs`, all from `run`, that are for group `name`, in order. */
  function MatchesIn(name: string, run: TestRun, rs: seq<GroupResult>): seq<Match>
    decreases |rs|
  {
    if rs == [] then []
    else MatchesIn(name, run, rs[..|rs| - 1]) + (if rs[|rs| - 1].group == name then [Match(run, rs[|rs| - 1])] else [])
  }

  /** Every result for group `name`, task by task, in order. */
  function Matches(name: string, runs: seq<TestRun>): seq<Match>
    decreases |runs|
  {
    if runs == [] then []
    else Matches(name, runs[..|runs| - 1]) + MatchesIn(name, runs[|runs| - 1], runs[|runs| - 1].results)
  }

  lemma {:induction false} MatchesInMembership(name: string, run: TestRun, rs: seq<GroupResult>, m: Match)
    ensures m in MatchesIn(name, run, rs) <==> m.run == run && m.result in rs && m.result.group == name
    decreases |rs|
  {
    if rs != [] {
      var init := rs[..|rs| - 1];
      MatchesInMembership(name, run, init, m);
      assert rs == init + [rs[|rs| - 1]];
    }
  }

  /** A match is a result for the group of one of the tasks. */
  lemma {:induction false} MatchesMembership(name: string, runs: seq<TestRun>, m: Match)
    ensures m in Matches(name, runs) <==> m.run in runs && m.result in m.run.results && m.result.group == name
    decreases |runs|
  {
    if runs != [] {
      var init, last := runs[..|runs| - 1], runs[|runs| - 1];
      MatchesMembership(name, init, m);
      MatchesInMembership(name, last, last.results, m);
      assert runs == init + [last];
    }
  }

  /** The matches of consecutive task lists follow each other. */
  lemma {:induction false} MatchesAppend(name: string, a: seq<TestRun>, b: seq<TestRun>)
    ensures Matches(name, a + b) == Matches(name, a) + Matches(name, b)
    decreases |b|
  {
    if b == [] {
      assert a + b == a;
    } else {
      var b' := b[..|b| - 1];
      MatchesAppend(name, a, b');
      assert (a + b)[..|a + b| - 1] == a + b';
      assert (a + b)[|a + b| - 1] == b[|b| - 1];
    }
  }

  /** One more task, or one more result of the current task, extends the matches at the end. */
  lemma {:induction false} MatchesStep(name: string, runs: seq<TestRun>, i: nat, j: nat)
    requires i < |runs| && j < |runs[i].results|
    ensures Matches(name, runs[..i]) + MatchesIn(name, runs[i], runs[i].results[..j + 1]) ==
      Matches(name, runs[..i]) + MatchesIn(name, runs[i], runs[i].results[..j]) +
      (if runs[i].results[j].group == name then [Match(runs[i], runs[i].results[j])] else [])
  {
    assert runs[i].results[..j + 1][..j] == runs[i].results[..j];
  }

  lemma {:induction false} MatchesNext(name: string, runs: seq<TestRun>, i: nat)
    requires i < |runs|
    ensures Matches(name, runs[..i + 1]) == Matches(name, runs[..i]) + MatchesIn(name, runs[i], runs[i].results[..|runs[i].results|])
  {
    assert runs[..i + 1][..i] == runs[..i];
    assert runs[i].results[..|runs[i].results|] == runs[i].results;
  }

  /** The label of the task a match comes from. */
  function LabelOf(m: Match): Option<string>
  {
    m.run.info.taskLabel
  }

  /** Some task labelled `l` reports the group with outcome `ok`. */
  predicate Reports(ms: seq<Match>, l: Option<string>, ok: bool)
  {
    exists i | 0 <= i < |ms| :: LabelOf(ms[i]) == l && ms[i].result.ok == ok
  }

  /** The status of a label on its own: INTERMITTENT when it both passed and failed the group. */
  function PerLabelStatus(ms: seq<Match>, l: Option<string>): Status
  {
    if Reports(ms, l, true) && Reports(ms, l, false) then Intermittent
    else if Reports(ms, l, false) then Fail
    else Pass
  }

  /** The `overall_status_by_label` map after the status loop has visited `ms`. */
  function StatusByLabel(ms: seq<Match>): map<Option<string>, Status>
    decreases |ms|
  {
    if ms == [] then map[]
    else
      var m := StatusByLabel(ms[..|ms| - 1]);
      var last := ms[|ms| - 1];
      var status := if !last.result.ok then Fail else Pass;
      if LabelOf(last) !in m then m[LabelOf(last) := status]
      else if status != m[LabelOf(last)] then m[LabelOf(last) := Intermittent]
      else m
  }

  lemma {:induction false} ReportsSnoc(ms: seq<Match>, x: Match, l: Option<string>, ok: bool)
    ensures Reports(ms + [x], l, ok) <==> Reports(ms, l, ok) || (LabelOf(x) == l && x.result.ok == ok)
  {
    var s := ms + [x];
    if Reports(s, l, ok) {
      var i :| 0 <= i < |s| && LabelOf(s[i]) == l && s[i].result.ok == ok;
      if i < |ms| {
        assert s[i] == ms[i];
      }
    }
    if Reports(ms, l, ok) {
      var i :| 0 <= i < |ms| && LabelOf(ms[i]) == l && ms[i].result.ok == ok;
      assert s[i] == ms[i];
    }
    assert s[|ms|] == x;
  }

  /** The map holds exactly the labels that report the group, each with its own status. */
  lemma {:induction false} StatusByLabelSpec(ms: seq<Match>)
    ensures forall l :: l in StatusByLabel(ms) <==> Reports(ms, l, true) || Reports(ms, l, false)
    ensures forall l | l in StatusByLabel(ms) :: StatusByLabel(ms)[l] == PerLabelStatus(ms, l)
    decreases |ms|
  {
    if ms != [] {
      var init, x := ms[..|ms| - 1], ms[|ms| - 1];
      StatusByLabelSpec(init);
      assert ms == init + [x];
      forall l, ok | true
        ensures Reports(ms, l, ok) <==> Reports(init, l, ok) || (LabelOf(x) == l && x.result.ok == ok)
      {
        ReportsSnoc(init, x, l, ok);
      }
    }
  }

  /** One result for the group, folded into the map as the status loop does. */
  lemma {:induction false} StatusByLabelStep(visited: seq<Match>, x: Match)
    ensures var m := StatusByLabel(visited);
      var status := if !x.result.ok then Fail else Pass;
      StatusByLabel(visited + [x]) ==
        if LabelOf(x) !in m then m[LabelOf(x) := status]
        else if status != m[LabelOf(x)] then m[LabelOf(x) := Intermittent]
        else m
  {
    assert (visited + [x])[..|visited|] == visited;
    assert (visited + [x])[|visited|] == x;
  }

  /** The verdict the status loop reads off the per-label map. */
  function StatusOfMap(byLabel: map<Option<string>, Status>): Status
  {
    if exists l | l in byLabel :: byLabel[l] == Intermittent then Intermittent
    else if exists l | l in byLabel :: byLabel[l] == Fail then Fail
    else Pass
  }

  /** Some single label both passed and failed the group. */
  predicate MixedLabel(ms: seq<Match>)
  {
    exists i, j | 0 <= i < |ms| && 0 <= j < |ms| :: LabelOf(ms[i]) == LabelOf(ms[j]) && ms[i].result.ok && !ms[j].result.ok
  }

  /** Some result for the group is not ok. */
  predicate AnyFailure(ms: seq<Match>)
  {
    exists i | 0 <= i < |ms| :: !ms[i].result.ok
  }

  /**
   * The group's status: INTERMITTENT when some label both passed and failed
   * it, otherwise FAIL when any result failed, otherwise PASS (also when the
   * group has no results).
   */
  function GroupStatus(name: string, runs: seq<TestRun>): Status
  {
    var ms := Matches(name, runs);
    if MixedLabel(ms) then Intermittent else if AnyFailure(ms) then Fail else Pass
  }

  lemma {:induction false} StatusOfMapSpec(ms: seq<Match>)
    ensures StatusOfMap(StatusByLabel(ms)) == (if MixedLabel(ms) then Intermittent else if AnyFailure(ms) then Fail else Pass)
  {
    var m := StatusByLabel(ms);
    StatusByLabelSpec(ms);
    if MixedLabel(ms) {
      var i, j :| 0 <= i < |ms| && 0 <= j < |ms| && LabelOf(ms[i]) == LabelOf(ms[j]) && ms[i].result.ok && !ms[j].result.ok;
      assert Reports(ms, LabelOf(ms[i]), true) && Reports(ms, LabelOf(ms[i]), false);
      assert m[LabelOf(ms[i])] == Intermittent;
    } else {
      assert forall l | l in m :: m[l] != Intermittent;
      if AnyFailure(ms) {
        var i :| 0 <= i < |ms| && !ms[i].result.ok;
        assert Reports(ms, LabelOf(ms[i]), false);
        assert m[LabelOf(ms[i])] == Fail;
      } else {
        assert forall l | l in m :: m[l] == Pass;
      }
    }
  }

  /** `wpt_workaround` of names starting with `/`, the others unchanged: the name a summary is known by. */
  function NormalisedName(name: string): (r: string)
    ensures !IsAbsolute(r)
    ensures !IsAbsolute(name) ==> r == name
  {
    if StartsWith(name, "/") then
      assert !IsBlank(name) by { assert !IsSpace(name[..1][0]); }
      WptWorkaroundHead(name);
      var w := WptWorkaround(name);
      assert w[..1][0] == 't';
      w
    else name
  }

  /** Task `run` has a result for group `name` (`name in t.groups`). */
  predicate RunsGroup(name: string, run: TestRun)
  {
    name in GroupsOf(run.results)
  }

  /**
   * After `RetrieveResults(fetched)` (its two ensures are the requires here),
   * the task's snapshot runs group `name` exactly when the task is not a
   * no-groups task and some fetched entry reaches `name`.
   */
  lemma {:induction false} SnapshotRunsGroup(t: TestTask, fetched: seq<GroupResult>, name: string)
    requires t.info.taskLabel.Some?
    requires IsNoGroupsSuite(t.info.taskLabel.value) ==> t.results == Some([])
    requires !IsNoGroupsSuite(t.info.taskLabel.value) ==>
      RetrieveReady(t.info.taskLabel.value, t.info.state, fetched) &&
      t.results == Some(Retrieved(t.info.taskLabel.value, t.info.state, fetched))
    ensures RunsGroup(name, t.Snapshot()) <==>
      !IsNoGroupsSuite(t.info.taskLabel.value) && ReachesGroup(t.info.taskLabel.value, t.info.state, fetched, name)
  {
    if !IsNoGroupsSuite(t.info.taskLabel.value) {
      RetrievedGroups(t.info.taskLabel.value, t.info.state, fetched, name);
    }
  }

  /** The task has a result for the group that is not ok. */
  predicate FailsGroup(name: string, run: TestRun)
  {
    exists r | r in run.results :: !r.ok && r.group == name
  }

  /** `failing_tasks`: the tasks, in order, with a failing result for the group. */
  function FailingTasks(name: string, runs: seq<TestRun>): (failing: seq<TestRun>)
    ensures |failing| <= |runs|
    ensures forall run :: run in failing <==> run in runs && FailsGroup(name, run)
  {
    Filter((run: TestRun) => FailsGroup(name, run), runs)
  }

  /** The group passes exactly when no task fails it. */
  lemma {:induction false} GroupStatusPassIffNoFailingTasks(name: string, runs: seq<TestRun>)
    ensures GroupStatus(name, runs) == Pass <==> FailingTasks(name, runs) == []
  {
    var ms := Matches(name, runs);
    if AnyFailure(ms) {
      var i :| 0 <= i < |ms| && !ms[i].result.ok;
      MatchesMembership(name, runs, ms[i]);
      assert ms[i].run in FailingTasks(name, runs);
    }
    if FailingTasks(name, runs) != [] {
      var run := FailingTasks(name, runs)[0];
      assert run in FailingTasks(name, runs);
      var r :| r in run.results && !r.ok && r.group == name;
      MatchesMembership(name, runs, Match(run, r));
      var i :| 0 <= i < |ms| && ms[i] == Match(run, r);
    }
  }

  /** A label that consistently fails is never masked into PASS by another label that passes. */
  lemma {:induction false} FailingLabelNeverMasked(name: string, runs: seq<TestRun>, l: Option<string>)
    requires Reports(Matches(name, runs), l, false)
    ensures GroupStatus(name, runs) != Pass
    ensures !Reports(Matches(name, runs), l, true) && !MixedLabel(Matches(name, runs)) ==> GroupStatus(name, runs) == Fail
  {
  }

  /** `classifications`: the pairs of the tasks, in order, that failed and have a failing result for the group. */
  function GroupClassifications(name: string, runs: seq<TestRun>): (cls: seq<Classification>)
    ensures |cls| <= |runs|
    ensures forall run | run in runs && Failed(run.info) && FailsGroup(name, run) :: ClassificationOf(run.info) in cls
    ensures forall c | c in cls :: exists run | run in runs && Failed(run.info) && FailsGroup(name, run) :: ClassificationOf(run.info) == c
  {
    var p := (run: TestRun) => Failed(run.info) && FailsGroup(name, run);
    var chosen := Filter(p, runs);
    var out := Map((run: TestRun) => ClassificationOf(run.info), chosen);
    forall run | run in runs && Failed(run.info) && FailsGroup(name, run)
      ensures ClassificationOf(run.info) in out
    {
      assert run in chosen;
      var k :| 0 <= k < |chosen| && chosen[k] == run;
      assert out[k] == ClassificationOf(run.info);
    }
    forall c | c in out
      ensures exists run | run in runs && Failed(run.info) && FailsGroup(name, run) :: ClassificationOf(run.info) == c
    {
      var k :| 0 <= k < |out| && out[k] == c;
      assert chosen[k] in chosen;
    }
    Map((run: TestRun) => ClassificationOf(run.info), Filter((run: TestRun) => Failed(run.info) && FailsGroup(name, run), runs))
  }

  /** The classifications keep the order of the tasks: those of a concatenation are those of each part, in turn. */
  lemma {:induction false} GroupClassificationsAppend(name: string, a: seq<TestRun>, b: seq<TestRun>)
    ensures GroupClassifications(name, a + b) == GroupClassifications(name, a) + GroupClassifications(name, b)
  {
    var p := (run: TestRun) => Failed(run.info) && FailsGroup(name, run);
    var f := (run: TestRun) => ClassificationOf(run.info);
    FilterAppend(p, a, b);
    MapAppend(f, Filter(p, a), Filter(p, b));
  }

  /** The classifications are those of the failing tasks that failed. */
  lemma {:induction false} GroupClassificationsOfFailingTasks(name: string, runs: seq<TestRun>)
    ensures GroupClassifications(name, runs) ==
      Map((run: TestRun) => ClassificationOf(run.info), Filter((run: TestRun) => Failed(run.info), FailingTasks(name, runs)))
  {
    FilterFilter((run: TestRun) => Failed(run.info), (run: TestRun) => FailsGroup(name, run),
      (run: TestRun) => Failed(run.info) && FailsGroup(name, run), runs);
  }

  /** `is_intermittent` for a group. */
  predicate GroupIsIntermittent(name: string, runs: seq<TestRun>)
  {
    IsIntermittent(Some(GroupStatus(name, runs)), GroupClassifications(name, runs))
  }

  /** A group is intermittent when some label both passed and failed it, or a failed task that fails it is classified intermittent. */
  lemma {:induction false} GroupIsIntermittentIff(name: string, runs: seq<TestRun>)
    ensures GroupIsIntermittent(name, runs) <==> (MixedLabel(Matches(name, runs)) ||
      exists run | run in runs :: Failed(run.info) && FailsGroup(name, run) && run.info.classification == Some("intermittent"))
  {
    var cls := GroupClassifications(name, runs);
    if exists k | 0 <= k < |cls| :: cls[k].classification == Some("intermittent") {
      var k :| 0 <= k < |cls| && cls[k].classification == Some("intermittent");
      assert cls[k] in cls;
      var run :| run in runs && Failed(run.info) && FailsGroup(name, run) && ClassificationOf(run.info) == cls[k];
    }
    if exists run | run in runs :: Failed(run.info) && FailsGroup(name, run) && run.info.classification == Some("intermittent") {
      var run :| run in runs && Failed(run.info) && FailsGroup(name, run) && run.info.classification == Some("intermittent");
      assert ClassificationOf(run.info) in cls;
      var k :| 0 <= k < |cls| && cls[k] == ClassificationOf(run.info);
    }
  }

  /** `durations`: the duration of every result for the group, in visiting order. */
  function GroupDurations(name: string, runs: seq<TestRun>): (ds: seq<Option<int>>)
    ensures |ds| == |Matches(name, runs)|
    ensures forall k | 0 <= k < |ds| :: ds[k] == Matches(name, runs)[k].result.duration
  {
    Map((m: Match) => m.result.duration, Matches(name, runs))
  }

  lemma {:induction false} DurationsStep(visited: seq<Match>, x: Match)
    ensures Map((m: Match) => m.result.duration, visited + [x]) == Map((m: Match) => m.result.duration, visited) + [x.result.duration]
  {
    MapAppend((m: Match) => m.result.duration, visited, [x]);
    assert Map((m: Match) => m.result.duration, [x]) == [x.result.duration];
  }

  /** `total_duration`, defined when every result for the group has a duration. */
  function GroupTotalDuration(name: string, runs: seq<TestRun>): (total: int)
    requires forall k | 0 <= k < |Matches(name, runs)| :: Matches(name, runs)[k].result.duration.Some?
    ensures (forall k | 0 <= k < |Matches(name, runs)| :: Matches(name, runs)[k].result.duration.value >= 0) ==>
      total >= 0 && forall k | 0 <= k < |Matches(name, runs)| :: total >= Matches(name, runs)[k].result.duration.value
  {
    var ds := GroupDurations(name, runs);
    TotalBoundsWhenNonNegative(ds);
    Total(ds)
  }

  /** The total over two lists of tasks is the sum of their totals. */
  lemma {:induction false} GroupTotalDurationAppend(name: string, a: seq<TestRun>, b: seq<TestRun>)
    requires forall k | 0 <= k < |Matches(name, a)| :: Matches(name, a)[k].result.duration.Some?
    requires forall k | 0 <= k < |Matches(name, b)| :: Matches(name, b)[k].result.duration.Some?
    ensures forall k | 0 <= k < |Matches(name, a + b)| :: Matches(name, a + b)[k].result.duration.Some?
    ensures GroupTotalDuration(name, a + b) == GroupTotalDuration(name, a) + GroupTotalDuration(name, b)
  {
    MatchesAppend(name, a, b);
    var ma, mb := Matches(name, a), Matches(name, b);
    assert forall k | 0 <= k < |ma + mb| :: (ma + mb)[k] == if k < |ma| then ma[k] else mb[k - |ma|];
    MapAppend((m: Match) => m.result.duration, ma, mb);
    TotalAppend(GroupDurations(name, a), GroupDurations(name, b));
  }

  /**
   * The configuration of the task a match comes from. Only tasks with a label
   * reach `configuration`; the empty key of an unlabelled one is never used.
   */
  function ConfigOf(m: Match): string
  {
    if m.run.info.taskLabel.Some? then ConfigurationKey(m.run.info.taskLabel.value) else ""
  }

  /** Every task that runs the group has a label (`configuration` asserts one). */
  predicate LabelsKnown(name: string, runs: seq<TestRun>)
  {
    forall k | 0 <= k < |runs| :: RunsGroup(name, runs[k]) ==> runs[k].info.taskLabel.Some?
  }

  /** A result reduced to what the configuration check reads: its task's configuration and its outcome. */
  datatype Outcome = Outcome(config: string, ok: bool)

  function OutcomeOf(m: Match): Outcome
  {
    Outcome(ConfigOf(m), m.result.ok)
  }

  function Outcomes(ms: seq<Match>): seq<Outcome>
  {
    Map(OutcomeOf, ms)
  }

  /** The outcomes, in order, of configuration `config`: one list of `config_to_results`. */
  function Bucket(os: seq<Outcome>, config: string): seq<bool>
    decreases |os|
  {
    if os == [] then []
    else Bucket(os[..|os| - 1], config) + (if os[|os| - 1].config == config then [os[|os| - 1].ok] else [])
  }

  /** A bucket holds an outcome exactly when some result of that configuration has it. */
  lemma {:induction false} BucketMembership(os: seq<Outcome>, config: string, ok: bool)
    ensures ok in Bucket(os, config) <==> exists k | 0 <= k < |os| :: os[k].config == config && os[k].ok == ok
    decreases |os|
  {
    if os != [] {
      var init := os[..|os| - 1];
      assert forall k | 0 <= k < |init| :: init[k] == os[k];
      BucketMembership(init, config, ok);
    }
  }

  /** `buckets` is `config_to_results` after visiting `os`. */
  ghost predicate IsBucketMap(buckets: map<string, seq<bool>>, os: seq<Outcome>)
  {
    (forall c :: c in buckets <==> exists k | 0 <= k < |os| :: os[k].config == c) &&
    forall c | c in buckets :: buckets[c] == Bucket(os, c)
  }

  /** Appending an outcome to its configuration's list keeps the map in step. */
  lemma {:induction false} BucketMapSnoc(buckets: map<string, seq<bool>>, os: seq<Outcome>, o: Outcome)
    requires IsBucketMap(buckets, os)
    ensures IsBucketMap(buckets[o.config := (if o.config in buckets then buckets[o.config] else []) + [o.ok]], os + [o])
  {
    var next := os + [o];
    assert next[..|os|] == os && next[|os|] == o;
    assert forall k | 0 <= k < |os| :: next[k] == os[k];
    if o.config !in buckets {
      BucketOfAbsent(os, o.config);
    }
  }

  lemma {:induction false} BucketOfAbsent(os: seq<Outcome>, config: string)
    requires forall k | 0 <= k < |os| :: os[k].config != config
    ensures Bucket(os, config) == []
    decreases |os|
  {
    if os != [] {
      BucketOfAbsent(os[..|os| - 1], config);
    }
  }

  /** One result for the group, appended to its configuration's list. */
  lemma {:induction false} BucketStep(visited: seq<Match>, x: Match, buckets: map<string, seq<bool>>)
    requires IsBucketMap(buckets, Outcomes(visited))
    ensures IsBucketMap(buckets[OutcomeOf(x).config := (if OutcomeOf(x).config in buckets then buckets[OutcomeOf(x).config] else []) + [x.result.ok]],
      Outcomes(visited + [x]))
  {
    MapAppend(OutcomeOf, visited, [x]);
    assert Map(OutcomeOf, [x]) == [OutcomeOf(x)];
    BucketMapSnoc(buckets, Outcomes(visited), OutcomeOf(x));
  }

  /** No configuration has `minimumCount` results or more. */
  predicate NoBucketReaches(os: seq<Outcome>, minimumCount: int)
  {
    forall k | 0 <= k < |os| :: |Bucket(os, os[k].config)| < minimumCount
  }

  /** Some configuration has `minimumCount` results or more, and none of them passed. */
  predicate SomeBucketAllFailed(os: seq<Outcome>, minimumCount: int)
  {
    exists k | 0 <= k < |os| :: |Bucket(os, os[k].config)| >= minimumCount && true !in Bucket(os, os[k].config)
  }

  /** The map's lists are the buckets of the visited outcomes. */
  lemma {:induction false} BucketMapQueries(buckets: map<string, seq<bool>>, os: seq<Outcome>, minimumCount: int)
    requires IsBucketMap(buckets, os)
    ensures (forall c | c in buckets :: |buckets[c]| < minimumCount) <==> NoBucketReaches(os, minimumCount)
    ensures (exists c | c in buckets :: |buckets[c]| >= minimumCount && true !in buckets[c]) <==> SomeBucketAllFailed(os, minimumCount)
  {
    assert forall k | 0 <= k < |os| :: os[k].config in buckets;
    if exists c | c in buckets :: |buckets[c]| >= minimumCount && true !in buckets[c] {
      var c :| c in buckets && |buckets[c]| >= minimumCount && true !in buckets[c];
      var k :| 0 <= k < |os| && os[k].config == c;
    }
  }

  /** A configuration whose only outcomes are failures makes the group fail or be intermittent. */
  lemma {:induction false} ConsistentFailureIsNotPass(name: string, runs: seq<TestRun>, minimumCount: int)
    requires SomeBucketAllFailed(Outcomes(Matches(name, runs)), minimumCount)
    ensures GroupStatus(name, runs) != Pass
  {
    var os := Outcomes(Matches(name, runs));
    var k :| 0 <= k < |os| && |Bucket(os, os[k].config)| >= minimumCount && true !in Bucket(os, os[k].config);
    BucketMembership(os, os[k].config, os[k].ok);
  }

  /** `is_cross_config_failure`: unknown with fewer than `minimumCount` results, else whether every one failed. */
  function CrossConfigFailure(name: string, runs: seq<TestRun>, minimumCount: int := 2): (r: Option<bool>)
    ensures r.None? <==> |Matches(name, runs)| < minimumCount
    ensures r == Some(true) <==> (|Matches(name, runs)| >= minimumCount && |Matches(name, runs)| > 0 &&
      forall k | 0 <= k < |Matches(name, runs)| :: !Matches(name, runs)[k].result.ok)
  {
    var states := Map((m: Match) => m.result.ok, Matches(name, runs));
    var nb := |states|;
    var nbPassed := CountTrue(states);
    var nbFailed := nb - nbPassed;
    if nb < minimumCount then None else Some(nbFailed > 0 && nbPassed == 0)
  }

  /** A cross-configuration failure is a FAIL. */
  lemma {:induction false} CrossConfigFailureIsFail(name: string, runs: seq<TestRun>, minimumCount: int)
    requires CrossConfigFailure(name, runs, minimumCount) == Some(true)
    ensures GroupStatus(name, runs) == Fail
  {
    var ms := Matches(name, runs);
    assert !ms[0].result.ok;
  }

  /** When every task runs the group there are at least as many results as tasks. */
  lemma {:induction false} EveryTaskMatches(name: string, runs: seq<TestRun>)
    requires forall k | 0 <= k < |runs| :: RunsGroup(name, runs[k])
    ensures |Matches(name, runs)| >= |runs|
    decreases |runs|
  {
    if runs != [] {
      var init, last := runs[..|runs| - 1], runs[|runs| - 1];
      assert forall k | 0 <= k < |init| :: init[k] == runs[k];
      EveryTaskMatches(name, init);
      var j :| 0 <= j < |last.results| && GroupsOf(last.results)[j] == name;
      MatchesInMembership(name, last, last.results, Match(last, last.results[j]));
      assert Match(last, last.results[j]) in MatchesIn(name, last, last.results);
    }
  }

  /** When every task runs the group, `minimumCount` tasks are enough for a definite cross-configuration answer. */
  lemma {:induction false} CrossConfigFailureKnown(name: string, runs: seq<TestRun>, minimumCount: int)
    requires forall k | 0 <= k < |runs| :: RunsGroup(name, runs[k])
    requires minimumCount <= |runs|
    ensures CrossConfigFailure(name, runs, minimumCount).Some?
  {
    EveryTaskMatches(name, runs);
  }

  /** `GroupSummary`: a group and the tasks that ran it. */
  class GroupSummary {
    const name: string
    const tasks: seq<TestRun>

    /** Every task has a result for the group. */
    predicate Valid()
    {
      forall k | 0 <= k < |tasks| :: RunsGroup(name, tasks[k])
    }

    /** Construction normalises a WPT name and requires every task to run the group under that name. */
    constructor (name: string, tasks: seq<TestRun>)
      requires forall k | 0 <= k < |tasks| :: RunsGroup(NormalisedName(name), tasks[k])
      ensures this.name == NormalisedName(name) && this.tasks == tasks && Valid()
    {
      this.name := if StartsWith(name, "/") then WptWorkaround(name) else name;
      this.tasks := tasks;
    }

    /** `status`, by the per-label map of the source. */
    method Status() returns (s: Status)
      ensures s == GroupStatus(name, tasks)
    {
      var byLabel: map<Option<string>, Status> := map[];
      for i := 0 to |tasks|
        invariant byLabel == StatusByLabel(Matches(name, tasks[..i]))
      {
        var task := tasks[i];
        assert task.results[..0] == [] && Matches(name, tasks[..i]) + [] == Matches(name, tasks[..i]);
        for j := 0 to |task.results|
          invariant byLabel == StatusByLabel(Matches(name, tasks[..i]) + MatchesIn(name, task, task.results[..j]))
        {
          ghost var visited := Matches(name, tasks[..i]) + MatchesIn(name, task, task.results[..j]);
          MatchesStep(name, tasks, i, j);
          var result := task.results[j];
          if result.group == name {
            StatusByLabelStep(visited, Match(task, result));
            var status := if !result.ok then Fail else Pass;
            if task.info.taskLabel !in byLabel {
              byLabel := byLabel[task.info.taskLabel := status];
            } else if status != byLabel[task.info.taskLabel] {
              byLabel := byLabel[task.info.taskLabel := Intermittent];
            }
          } else {
            assert visited + [] == visited;
          }
        }
        MatchesNext(name, tasks, i);
      }
      assert tasks[..|tasks|] == tasks;
      StatusOfMapSpec(Matches(name, tasks));
      if exists l | l in byLabel :: byLabel[l] == Intermittent {
        return Intermittent;
      }
      if exists l | l in byLabel :: byLabel[l] == Fail {
        return Fail;
      }
      return Pass;
    }

    /** `is_intermittent`. */
    method IsIntermittent() returns (b: bool)
      ensures b == GroupIsIntermittent(name, tasks)
    {
      var s := Status();
      var cls := GroupClassifications(name, tasks);
      b := s == Intermittent || exists k | 0 <= k < |cls| :: cls[k].classification == Some("intermittent");
    }

    /** `durations`: one entry per result for the group, in visiting order. */
    method Durations() returns (data: seq<Option<int>>)
      ensures |data| == |Matches(name, tasks)|
      ensures forall k | 0 <= k < |data| :: data[k] == Matches(name, tasks)[k].result.duration
      ensures data == GroupDurations(name, tasks)
    {
      data := [];
      for i := 0 to |tasks|
        invariant data == GroupDurations(name, tasks[..i])
      {
        var task := tasks[i];
        assert task.results[..0] == [] && Matches(name, tasks[..i]) + [] == Matches(name, tasks[..i]);
        for j := 0 to |task.results|
          invariant data == Map((m: Match) => m.result.duration, Matches(name, tasks[..i]) + MatchesIn(name, task, task.results[..j]))
        {
          ghost var visited := Matches(name, tasks[..i]) + MatchesIn(name, task, task.results[..j]);
          MatchesStep(name, tasks, i, j);
          var result := task.results[j];
          if result.group == name {
            DurationsStep(visited, Match(task, result));
            data := data + [result.duration];
          } else {
            assert visited + [] == visited;
          }
        }
        MatchesNext(name, tasks, i);
      }
      assert tasks[..|tasks|] == tasks;
    }

    /**
     * `is_config_consistent_failure`: unknown when no configuration has at
     * least `minimumCount` results for the group, otherwise whether some
     * configuration with that many results failed every one of them.
     */
    method IsConfigConsistentFailure(minimumCount: int := 3) returns (r: Option<bool>)
      requires LabelsKnown(name, tasks)
      ensures r.None? <==> NoBucketReaches(Outcomes(Matches(name, tasks)), minimumCount)
      ensures r == Some(true) <==> SomeBucketAllFailed(Outcomes(Matches(name, tasks)), minimumCount)
    {
      var buckets: map<string, seq<bool>> := map[];
      for i := 0 to |tasks|
        invariant IsBucketMap(buckets, Outcomes(Matches(name, tasks[..i])))
      {
        var task := tasks[i];
        assert task.results[..0] == [] && Matches(name, tasks[..i]) + [] == Matches(name, tasks[..i]);
        for j := 0 to |task.results|
          invariant IsBucketMap(buckets, Outcomes(Matches(name, tasks[..i]) + MatchesIn(name, task, task.results[..j])))
        {
          ghost var visited := Matches(name, tasks[..i]) + MatchesIn(name, task, task.results[..j]);
          MatchesStep(name, tasks, i, j);
          var result := task.results[j];
          if result.group == name {
            assert GroupsOf(task.results)[j] == name;
            var config := GetConfigurationFromLabel(task.info.taskLabel.value);
            BucketStep(visited, Match(task, result), buckets);
            buckets := buckets[config := (if config in buckets then buckets[config] else []) + [result.ok]];
          } else {
            assert visited + [] == visited;
          }
        }
        MatchesNext(name, tasks, i);
      }
      assert tasks[..|tasks|] == tasks;
      BucketMapQueries(buckets, Outcomes(Matches(name, tasks)), minimumCount);
      if forall c | c in buckets :: |buckets[c]| < minimumCount {
        r := None;
      } else {
        r := Some(exists c | c in buckets :: |buckets[c]| >= minimumCount && true !in buckets[c]);
      }
    }

    /** `is_cross_config_failure`; with at least `minimumCount` tasks the answer is known. */
    method IsCrossConfigFailure(minimumCount: int := 2) returns (r: Option<bool>)
      requires Valid()
      ensures r == CrossConfigFailure(name, tasks, minimumCount)
      ensures minimumCount <= |tasks| ==> r.Some?
    {
      if minimumCount <= |tasks| {
        CrossConfigFailureKnown(name, tasks, minimumCount);
      }
      r := CrossConfigFailure(name, tasks, minimumCount);
    }
  }
}
