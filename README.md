# mozci task results and summaries, in Dafny

This project models the part of mozci's `mozci/task.py` that turns results already fetched from retriggered CI tasks into a verdict (PASS, FAIL or INTERMITTENT). It also proves properties of that model. The model covers:

- **Label and group transforms.**
  - `get_configuration_from_label`: every suite of the ordered `SUITES` table whose `-suite-` token occurs in the label as rewritten so far is replaced by `*`, then a numeric last chunk is dropped.
  - `is_no_groups_suite`.
  - `is_bad_group`.
  - `wpt_workaround`, which rewrites web-platform-test group paths.
- **Task records.**
  - `Task` is a record with the predicates `failed`, `is_backfill` and `is_retrigger`.
  - `Task.create` chooses a `TestTask` exactly when the label starts with `test-`.
  - `TestTask` is a class whose `_results` and `_errors` fields `retrieve_results` assigns. That method covers:
    - the no-groups branch;
    - the state gate;
    - the removal of WPT `/` entries and the WPT path rewrite;
    - the bad-group filter.
- **Summaries.**
  - `GroupSummary`:
    - name normalisation and the membership precondition;
    - the two-level `status` fold over a per-label map;
    - `classifications`, `failing_tasks`, `durations` and `total_duration`;
    - the tri-state `is_config_consistent_failure` and `is_cross_config_failure`.
  - `LabelSummary`: the construction precondition, `classifications`, `durations`, `total_duration` and the flat `status` fold.
  - The shared `is_intermittent` rule.

Modules:

| File | Module | Contents |
|---|---|---|
| `wrappers.dfy` | `Wrappers` | `Option` |
| `strings.dfy` | `Strings` | The Python `str` operations used: blankness after `strip()`, `isdigit()`, `startswith`, `in`, `replace`, `split` and `join` |
| `seqs.dfy` | `Seqs` | List comprehensions as `Filter` and `Map` |
| `labels.dfy` | `Labels` | `SUITES`, `get_configuration_from_label`, `NO_GROUPS_SUITES` and `is_no_groups_suite` |
| `groups.dfy` | `Groups` | `is_bad_group` and `wpt_workaround` |
| `tasks.dfy` | `Tasks` | `Status`, `Task`, `GroupResult`, `TestTask` and `Task.create` |
| `summaries.dfy` | `Summaries` | The `(classification, note)` pair, `is_intermittent` and `sum` |
| `group_summary.dfy` | `GroupSummaries` | `GroupSummary` |
| `label_summary.dfy` | `LabelSummaries` | `LabelSummary` |

The code does things step by step in these places, and the model does too:

- `get_configuration_from_label` is a method with a loop over `SUITES`.
- `retrieve_results` is a method on the `TestTask` class. It rewrites the groups in place in a loop.
- `GroupSummary.status`, `durations` and `is_config_consistent_failure` are loops in methods of the `GroupSummary` class.
- `LabelSummary.status` is a loop in a method of the `LabelSummary` class.

Each such method is proved equal to a closed-form function, and the lemmas are stated about those functions. Comprehensions, `any` and `sum` are functions.

Modelling decisions:

- `os.path.isabs` has POSIX semantics: the path starts with `/`.
- `str.strip()` removes exactly the characters for which `str.isspace()` holds.
- `isdigit` means non-empty and all ASCII digits.
- `data.handler.get(...)` becomes the `fetched` parameter of `RetrieveResults`. It is a sequence of `(group, ok, duration)` results. Its groups are the keys of a mapping and so distinct; `DistinctGroups` states this, and `RetrievedGroupsDistinct` shows the pipeline keeps it.
- The `assert`s in `wpt_workaround`, `GroupSummary.__post_init__`, `LabelSummary.__post_init__`, `configuration` and `results` become `requires` clauses.
  - So does the label a `TestTask` needs in `retrieve_results`: with `label=None`, `is_no_groups_suite` evaluates `"-raptor-" in None`, which raises `TypeError` (mozci/task.py:105, 284). `RetrieveResults` therefore requires a label.
  - `RetrieveResults` requires that every fetched WPT group is acceptable to `wpt_workaround`. Otherwise its `assert` would fail in the middle of the loop.
- Summaries hold each task as a value `TestRun(info, results)`: the task record and its retrieved results.
- Memoized properties are plain functions of the task list.
- `is_intermittent` becomes the `Summaries.IsIntermittent` predicate, built from `status` and `classifications`.
  - It tests the classification, the first component of each pair, against `"intermittent"`. It does not test the note. This follows the code (mozci/task.py:356-358).
- `Task.create` reads the label with `kwargs.get("label", "")`. A missing label is `None` in the model and gives a plain `Task`.
- The source's default arguments are kept: `minimum_count` is 3 for `is_config_consistent_failure` and 2 for `is_cross_config_failure`.
- `sum` over durations requires every duration to be present, as Python's `sum` does.

## Model

| member | source | states |
|---|---|---|
| Labels.SuitesWellFormed | mozci/task.py:37-74 | Every entry of `SUITES` is non-empty and free of `*`, so every replacement is well defined |
| Labels.ConfigurationKey | mozci/task.py:78-87 | The reference definition of the key: the suite scan in `SUITES` order, then the chunk drop; the lemmas below state its properties |
| Labels.GetConfigurationFromLabel | mozci/task.py:78-87 | The loop over `SUITES` then the split/join compute `ConfigurationKey`: each suite whose `-s-` token occurs in the partly rewritten label has every `s` replaced by `*`, in table order; then the last `-` chunk is dropped when it is all digits |
| Labels.StripSuitesLeavesNoToken | mozci/task.py:81-84 | After the pass none of the listed suites' `-s-` tokens occurs in the rewritten label |
| Labels.ConfigurationKeyHasNoSuiteToken | mozci/task.py:78-87 | No configuration key contains the `-s-` token of any suite in `SUITES` |
| Labels.StripSuitesUntouched | mozci/task.py:81-84 | A label containing none of the suites' tokens comes back unchanged from the pass |
| Labels.StripSuitesSkipRest | mozci/task.py:81-84 | Suites whose token no longer occurs after the first `i` steps change nothing |
| Labels.DropChunkAfterLastDash | mozci/task.py:85-87 | For `a + "-" + b` with no `-` in `b`, the last chunk is `b`; it is dropped exactly when it is all digits, and otherwise the label is kept |
| Labels.DropChunkWithoutDash | mozci/task.py:85-87 | A label without `-` becomes `""` when it is all digits and is kept otherwise |
| Labels.DropChunkIsPrefix | mozci/task.py:85-87 | Dropping the chunk yields a prefix of the rewritten label |
| Labels.ConfigurationKeyUnchanged | mozci/task.py:78-87 | A label with no suite token and a non-numeric last chunk is its own configuration key |
| Labels.ConfigurationKeyOfChunks | mozci/task.py:78-87 | `test-windows10-64/opt-mochitest-plain-e10s-N` has key `test-windows10-64/opt-*-e10s` for every all-digit chunk `N` |
| Labels.ConfigurationKeyExamples | mozci/task.py:78-87 | The labels ending in `-7` and `-3` both have key `test-windows10-64/opt-*-e10s` |
| Labels.IsNoGroupsSuite | mozci/task.py:104-105 | A label is a no-groups label when some `NO_GROUPS_SUITES` entry occurs in it as a `-s-` token |
| Labels.NoGroupsSuiteToken | mozci/task.py:90-105 | A label containing `-s-` for any entry `s` of `NO_GROUPS_SUITES` is a no-groups label |
| Labels.NoGroupsSuiteExtends | mozci/task.py:104-105 | A no-groups label stays one when text is added on either side: the test is a substring test |
| Labels.NoGroupsSuiteNeedsLetter | mozci/task.py:90-105 | A label without any of the letters r, l, y, g, u, f, j is not a no-groups label, since every `NO_GROUPS_SUITES` entry holds one of them |
| Labels.TalosLabelHasNoGroups | mozci/task.py:90-105 | `test-linux1804-64-shippable/opt-talos-g5-e10s` is a no-groups label |
| Labels.MochitestLabelHasGroups | mozci/task.py:90-105 | `test-windows10-64/opt-mochitest-media-e10s-2` is not a no-groups label |
| Groups.IsBadGroup | mozci/task.py:111-123 | A group is bad when it is blank after `strip()`, starts with `file://` or `Z:`, is absolute, or contains a backslash |
| Groups.WptWorkaround | mozci/task.py:127-139 | A blank group comes back unchanged; `/_mozilla/` + s becomes `testing/web-platform/mozilla/tests/` + s; any other `/` + s becomes `testing/web-platform/tests/` + s; a non-blank group not starting with `/` is outside the precondition |
| Groups.UnderRootNotBad | mozci/task.py:111-123 | A path under either WPT root is bad exactly when its remainder holds a backslash |
| Groups.WptWorkaroundNotBad | mozci/task.py:111-139 | The rewrite of a non-blank group is bad exactly when the group contains a backslash |
| Groups.WptWorkaroundHead | mozci/task.py:134-139 | A rewritten group starts with `t` and, at index 21, shows which root was chosen |
| Groups.WptWorkaroundInjective | mozci/task.py:127-139 | Different groups rewrite to different groups |
| Tasks.IsBackfill | mozci/task.py:181-183 | The `action` tag, `""` when absent, is `backfill-task` |
| Tasks.IsRetrigger | mozci/task.py:185-187 | The `action` tag, `""` when absent, starts with `retrigger-` |
| Tasks.Failed | mozci/task.py:189-191 | The result is `failed` or `exception` |
| Tasks.BackfillIsNotRetrigger | mozci/task.py:181-187 | No task is both a backfill and a retrigger |
| Tasks.IsWptLabel | mozci/task.py:274-279 | The label contains `web-platform-tests`, `test-verify-wpt` or `test-coverage-wpt` |
| Tasks.Rewrite | mozci/task.py:319-321 | Rewriting keeps length and order and applies `wpt_workaround` to each group, leaving the other fields alone |
| Tasks.RewriteMembership | mozci/task.py:319-321 | An entry is in the rewritten list exactly when it is the rewrite of some input entry |
| Tasks.Retrieved | mozci/task.py:297-328 | No retained group is bad; a task whose state is not `completed` gets `[]`; for a non-WPT label the retained entries are exactly the fetched entries with a good group |
| Tasks.RetrievedWpt | mozci/task.py:307-328 | For a completed WPT task the retained entries are exactly the rewrites of fetched non-`/` entries whose rewritten group is good |
| Tasks.RetrievedKeepsCleanWptGroups | mozci/task.py:307-328 | A fetched non-blank WPT group other than `/` without a backslash survives, rewritten |
| Tasks.FilterKeepsDistinct | mozci/task.py:323-328 | Filtering keeps group names distinct |
| Tasks.RewritePairDistinct | mozci/task.py:319-321 | Two entries with different groups still differ after the rewrite |
| Tasks.RewriteKeepsDistinct | mozci/task.py:319-321 | The WPT rewrite keeps group names distinct |
| Tasks.RetrievedGroupsDistinct | mozci/task.py:297-328 | Retrieved results have distinct groups when the fetched ones do |
| Tasks.RetrievedGroups | mozci/task.py:297-332 | `g in groups` after the pipeline exactly when the task is completed, `g` is not bad, and some fetched entry has group `g` (for a WPT label: a group other than `/` that `wpt_workaround` rewrites to `g`) |
| Tasks.TestTask.constructor | mozci/task.py:267-272 | A new test task holds its record and has neither results nor errors |
| Tasks.TestTask.Groups | mozci/task.py:330-337 | `groups` lists the group of every result, in order; reading results requires them to have been retrieved |
| Tasks.TestTask.Configuration | mozci/task.py:345-348 | `configuration` requires a label and is its configuration key |
| Tasks.TestTask.RetrieveResults | mozci/task.py:281-328 | No-groups label: requires results and errors unset, and sets both to `[]`; otherwise results become `Retrieved(...)` and errors are untouched |
| Tasks.Create | mozci/task.py:177-179 | A `TestTask` is created exactly when the label is present and starts with `test-`; otherwise the record is returned as a plain task |
| Summaries.IsIntermittent | mozci/task.py:354-358 | INTERMITTENT status, or some listed classification (not note) is `intermittent` |
| Summaries.TotalAppend | mozci/task.py:418-420 | `sum` of a concatenation is the sum of the sums |
| Summaries.TotalBounds | mozci/task.py:418-420 | A sum of non-negative durations is non-negative and at least every one of them |
| GroupSummaries.MatchesMembership | mozci/task.py:412-414 | The matching results are exactly the results, of tasks in the list, whose group is the summary's name |
| GroupSummaries.MatchesAppend | mozci/task.py:412-414 | The matching results of a concatenation of task lists are the concatenation of their matching results |
| GroupSummaries.GroupStatus | mozci/task.py:426-457 | The closed form of `status`: INTERMITTENT when some label both passed and failed the group, else FAIL when any result failed, else PASS (also with no results) |
| GroupSummaries.StatusByLabelSpec | mozci/task.py:428-444 | The per-label map has a key exactly for each label with a matching result; its value is INTERMITTENT if that label has both ok and not-ok results, FAIL if only not-ok, PASS if only ok |
| GroupSummaries.StatusOfMapSpec | mozci/task.py:446-457 | The verdict of the per-label map is INTERMITTENT iff some label is mixed, else FAIL iff any matching result failed, else PASS |
| GroupSummaries.FailingTasks | mozci/task.py:459-468 | The tasks in order with a not-ok result for the group: no longer than the task list, and a task is in it exactly when it is in the list and fails the group |
| GroupSummaries.GroupStatusPassIffNoFailingTasks | mozci/task.py:426-468 | The status is PASS exactly when `failing_tasks` is empty |
| GroupSummaries.FailingLabelNeverMasked | mozci/task.py:426-457 | A label with a failing result makes the status non-PASS, and FAIL when that label never passes and no label is mixed |
| GroupSummaries.GroupClassifications | mozci/task.py:400-407 | No more pairs than tasks; the pair of every failed task with a not-ok result for the group is listed, and every listed pair is the pair of such a task |
| GroupSummaries.GroupClassificationsAppend | mozci/task.py:400-407 | The classifications of a concatenation of task lists are those of each part, in turn: the list follows the task order |
| GroupSummaries.GroupClassificationsOfFailingTasks | mozci/task.py:400-407 | `classifications` are the `(classification, note)` pairs of the failed tasks among `failing_tasks`, in order |
| GroupSummaries.GroupIsIntermittentIff | mozci/task.py:354-358 | `is_intermittent` holds iff some label is mixed, or some failed task with a failing result for the group is classified `intermittent` |
| GroupSummaries.GroupDurations | mozci/task.py:409-416 | One duration per matching result, in visiting order |
| GroupSummaries.GroupTotalDuration | mozci/task.py:418-420 | Requires every duration present (`sum` of `None` raises); a sum of non-negative durations is non-negative and at least each duration |
| GroupSummaries.GroupTotalDurationAppend | mozci/task.py:409-420 | `total_duration` over a concatenation of task lists is the sum of the parts |
| GroupSummaries.BucketMembership | mozci/task.py:470-476 | A configuration bucket holds an outcome exactly when some matching result with that configuration has it |
| GroupSummaries.BucketStep | mozci/task.py:472-476 | Appending a result's `ok` to its configuration's list keeps the map equal to the buckets of the results seen |
| GroupSummaries.BucketMapQueries | mozci/task.py:477-485 | The two questions asked of the defaultdict have the same answers as the corresponding questions about the buckets |
| GroupSummaries.ConsistentFailureIsNotPass | mozci/task.py:470-485 | When some configuration consistently fails, the group status is not PASS |
| GroupSummaries.CrossConfigFailure | mozci/task.py:487-505 | `minimum_count` defaults to 2; None iff fewer than `minimum_count` matching results; otherwise true iff there is at least one failure and no pass |
| GroupSummaries.CrossConfigFailureIsFail | mozci/task.py:487-505 | A cross-configuration failure has status FAIL |
| GroupSummaries.NormalisedName | mozci/task.py:393-397 | The normalised name is never absolute, and a name that is not absolute is kept as is |
| GroupSummaries.EveryTaskMatches | mozci/task.py:398 | When every task runs the group there are at least as many matching results as tasks |
| GroupSummaries.CrossConfigFailureKnown | mozci/task.py:487-501 | With at least `minimum_count` tasks that all run the group, the cross-configuration answer is known |
| GroupSummaries.SnapshotRunsGroup | mozci/task.py:281-332 | In the state `retrieve_results` leaves, the task runs group `g` exactly when it is not a no-groups task and some fetched entry reaches `g` (completed task, `g` not bad, fetched as `g` or, for WPT, rewritten to `g` from a group other than `/`) |
| GroupSummaries.GroupSummary.constructor | mozci/task.py:393-398 | A name starting with `/` is rewritten by `wpt_workaround`; every task must run the normalised name; name and tasks are stored |
| GroupSummaries.GroupSummary.Status | mozci/task.py:426-457 | The nested fold over tasks and results returns the closed-form status |
| GroupSummaries.GroupSummary.IsIntermittent | mozci/task.py:354-358 | `is_intermittent` of the group summary |
| GroupSummaries.GroupSummary.Durations | mozci/task.py:409-416 | One duration per matching result, in order |
| GroupSummaries.GroupSummary.IsConfigConsistentFailure | mozci/task.py:470-485 | `minimum_count` defaults to 3; None iff every configuration bucket has fewer than `minimum_count` results (including when there are none); true iff some bucket has at least `minimum_count` results, all failing |
| GroupSummaries.GroupSummary.IsCrossConfigFailure | mozci/task.py:487-505 | `is_cross_config_failure` (default `minimum_count` 2) of the summary; on a valid summary with at least `minimum_count` tasks the answer is known |
| LabelSummaries.LabelStatus | mozci/task.py:536-550 | The closed form of `status`: None for no tasks, PASS if none failed, FAIL if all failed, INTERMITTENT if mixed |
| LabelSummaries.LabelClassifications | mozci/task.py:518-522 | No more pairs than tasks; every failed task's pair is listed, and every listed pair is the pair of a failed task |
| LabelSummaries.LabelClassificationsAppend | mozci/task.py:518-522 | The classifications of a concatenation of task lists are those of each part, in turn: the list follows the task order |
| LabelSummaries.LabelDurations | mozci/task.py:524-526 | The duration of every task, in order, `None` included |
| LabelSummaries.LabelTotalDuration | mozci/task.py:528-530 | Requires every duration present; a sum of non-negative durations is non-negative and at least each duration |
| LabelSummaries.LabelTotalDurationAppend | mozci/task.py:524-530 | `total_duration` over a concatenation is the sum of the parts |
| LabelSummaries.LabelClassificationsCount | mozci/task.py:518-550 | The status is FAIL exactly when the list is non-empty and every task has a classification entry; `classifications` is empty exactly when no task failed |
| LabelSummaries.FilterLengthKeepsAll | mozci/task.py:518-522 | When as many tasks failed as there are tasks, `classifications` covers all of them |
| LabelSummaries.LabelIsIntermittentIff | mozci/task.py:354-358 | `is_intermittent` holds iff some but not all tasks failed, or a failed task is classified `intermittent` |
| LabelSummaries.LabelSummary.constructor | mozci/task.py:515-516 | Every task must carry the summary's label |
| LabelSummaries.LabelSummary.Status | mozci/task.py:536-550 | The flat fold gives None for no tasks, PASS if no task failed, FAIL if all failed, INTERMITTENT if mixed |
| LabelSummaries.LabelSummary.IsIntermittent | mozci/task.py:354-358 | `is_intermittent` of the label summary |

## Left out

- `Task.create`'s `find_task_id` lookup and its `HTTPError` to `TaskNotFound` translation (mozci/task.py:170-175) are network I/O. Only the label dispatch is modelled.
- `artifacts` and `get_artifact` (mozci/task.py:193-221) download artifacts over the network.
- `to_json` (mozci/task.py:223-232) is reflection through `inspect.signature`.
- `retrigger` and `_should_retrigger` (mozci/task.py:234-254) make taskcluster calls and use the wall clock.
- The lazy `errors` fetch (mozci/task.py:339-343) is a network call.
- The `data.handler.get` call (mozci/task.py:300-302) is I/O. Its result is the `fetched` parameter.
- `median_duration` (mozci/task.py:422-424, 532-534) is left out because `statistics.median` averages the two middle values into a float.
- Logging and the warn-once `slash_group_warned` flag (mozci/task.py:108, 119-120, 311-315) are left out because they have no effect on results. The task id parameter of `is_bad_group` is only used for logging, so it is dropped.
- The `memoized_property` caching and the `RunnableSummary` abstract base class are plumbing. The summaries are plain functions of the task list.
- The Windows semantics of `os.path.isabs` are left out; POSIX semantics are fixed.
- Tasks.Create: an explicit `label=None` makes `kwargs.get("label", "")` return `None`, and `None.startswith` raises `AttributeError` (mozci/task.py:177). The model has one `None` for a missing and an explicit `None` label, so it returns a plain task in both cases instead of modelling that error.
- Tasks.TestTask.RetrieveResults: models the `GroupResult` objects as values. The in-place `result.group` update is a rewrite of the results sequence, so aliasing of result objects shared with other holders is not modelled.
- GroupSummaries.GroupSummary.constructor: summaries hold value snapshots `TestRun(info, results)` of tasks, not references. A caller that changes a task after building a summary is not modelled.
- GroupSummaries.ConfigOf: gives `""` for a task without a label. `is_config_consistent_failure` would raise on such a task, so the method requires every matching task to have a label.
- The `Task` dataclass defaults are not modelled: every field is given, for example `classification` being `"not classified"` by default.
