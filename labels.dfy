/**
 * Heuristics on task labels: the configuration key (a label with its suite
 * name and chunk number taken out), and the suites whose tasks report no
 * per-group results.
 */
module Labels {
  import opened Strings

  /** `SUITES`, in the order the scan visits them: a name that contains another comes before it. */
  const Suites: seq<string> := [
    "mochitest-plain-gpu",
    "mochitest-plain",
    "mochitest-chrome-gpu",
    "mochitest-chrome",
    "mochitest-devtools-chrome",
    "mochitest-browser-chrome",
    "web-platform-tests-crashtest",
    "web-platform-tests-reftest",
    "web-platform-tests-wdspec",
    "web-platform-tests-print-reftest",
    "web-platform-tests",
    "mochitest-media",
    "mochitest-webgpu",
    "mochitest-webgl1-ext",
    "mochitest-webgl2-ext",
    "mochitest-webgl1-core",
    "mochitest-webgl2-core",
    "mochitest-remote",
    "mochitest-a11y",
    "xpcshell",
    "crashtest",
    "jsreftest",
    "reftest-no-accel",
    "gtest",
    "telemetry-tests-client",
    "browser-screenshots",
    "marionette-gpu",
    "marionette",
    "cppunit",
    "firefox-ui-functional-remote",
    "firefox-ui-functional-local",
    "reftest",
    "junit",
    "test-verify",
    "test-coverage",
    "jittest"
  ]

  /** `NO_GROUPS_SUITES`: suites whose tasks report no per-group results. */
  const NoGroupsSuites: seq<string> := [
    "raptor",
    "talos",
    "awsy",
    "gtest",
    "cppunit",
    "telemetry-tests",
    "firefox-ui-functional",
    "junit",
    "jittest",
    "marionette"
  ]

  /** A list of suite names none of which is empty or holds the wildcard `*` that replaces it. */
  predicate WellFormed(suites: seq<string>)
  {
    forall k | 0 <= k < |suites| :: suites[k] != [] && '*' !in suites[k]
  }

  lemma {:induction false} SuitesWellFormed()
    ensures WellFormed(Suites)
  {
    FrontSuitesWellFormed();
    MiddleSuitesWellFormed();
    BackSuitesWellFormed();
  }

  lemma {:induction false} FrontSuitesWellFormed()
    ensures |Suites| == 36
    ensures forall k | 0 <= k < 12 :: Suites[k] != [] && '*' !in Suites[k]
  {
  }

  lemma {:induction false} MiddleSuitesWellFormed()
    ensures forall k | 12 <= k < 24 :: Suites[k] != [] && '*' !in Suites[k]
  {
  }

  lemma {:induction false} BackSuitesWellFormed()
    ensures forall k | 24 <= k < 36 :: Suites[k] != [] && '*' !in Suites[k]
  {
  }

  /** How a suite name appears as a whole `-`-delimited token of a label. */
  function Bracketed(s: string): string
  {
    "-" + s + "-"
  }

  /** One step of the suite scan: when `-s-` occurs, every occurrence of `s` becomes `*`. */
  function StripSuite(config: string, s: string): string
    requires s != []
  {
    if Contains(config, Bracketed(s)) then ReplaceAll(config, s, "*") else config
  }

  /** The label after the suite scan has visited `suites`, in order. */
  function StripSuites(taskLabel: string, suites: seq<string>): string
    requires forall k | 0 <= k < |suites| :: suites[k] != []
    decreases |suites|
  {
    if suites == [] then taskLabel
    else StripSuite(StripSuites(taskLabel, suites[..|suites| - 1]), suites[|suites| - 1])
  }

  /** The last `-`-separated piece of a label. */
  function Chunk(config: string): string
  {
    var parts := Split(config, '-');
    parts[|parts| - 1]
  }

  /** The label without its last `-`-separated piece when that piece is a chunk number. */
  function DropChunk(config: string): string
  {
    var parts := Split(config, '-');
    Join(if IsDigits(parts[|parts| - 1]) then parts[..|parts| - 1] else parts, '-')
  }

  /** The configuration key of a label: suite names replaced by `*`, chunk number dropped. */
  function ConfigurationKey(taskLabel: string): string
  {
    SuitesWellFormed();
    DropChunk(StripSuites(taskLabel, Suites))
  }

  /** `get_configuration_from_label`. */
  method GetConfigurationFromLabel(taskLabel: string) returns (config: string)
    ensures config == ConfigurationKey(taskLabel)
  {
    SuitesWellFormed();
    config := taskLabel;
    for i := 0 to |Suites|
      invariant config == StripSuites(taskLabel, Suites[..i])
    {
      var s := Suites[i];
      if Contains(config, "-" + s + "-") {
        config := ReplaceAll(config, s, "*");
      }
      assert Suites[..i + 1][..i] == Suites[..i];
    }
    assert Suites[..|Suites|] == Suites;
    var parts := Split(config, '-');
    config := Join(if IsDigits(parts[|parts| - 1]) then parts[..|parts| - 1] else parts, '-');
  }

  /** `is_no_groups_suite`: some no-groups suite appears as a whole token of the label. */
  predicate IsNoGroupsSuite(taskLabel: string)
  {
    exists k | 0 <= k < |NoGroupsSuites| :: Contains(taskLabel, Bracketed(NoGroupsSuites[k]))
  }

  /** A label carrying any no-groups suite as a token is a no-groups label. */
  lemma {:induction false} NoGroupsSuiteToken(prefix: string, k: nat, suffix: string)
    requires k < |NoGroupsSuites|
    ensures IsNoGroupsSuite(prefix + Bracketed(NoGroupsSuites[k]) + suffix)
  {
    var taskLabel := prefix + Bracketed(NoGroupsSuites[k]) + suffix;
    var b := Bracketed(NoGroupsSuites[k]);
    assert taskLabel[|prefix|..|prefix| + |b|] == b;
    assert OccursAt(taskLabel, b, |prefix|);
  }

  /** A no-groups token stays a token when the label is extended on either side. */
  lemma {:induction false} NoGroupsSuiteExtends(prefix: string, taskLabel: string, suffix: string)
    requires IsNoGroupsSuite(taskLabel)
    ensures IsNoGroupsSuite(prefix + taskLabel + suffix)
  {
    var k :| 0 <= k < |NoGroupsSuites| && Contains(taskLabel, Bracketed(NoGroupsSuites[k]));
    var b := Bracketed(NoGroupsSuites[k]);
    var i: nat :| i <= |taskLabel| && OccursAt(taskLabel, b, i);
    var l := prefix + taskLabel + suffix;
    assert l[|prefix| + i..|prefix| + i + |b|] == taskLabel[i..i + |b|];
    assert OccursAt(l, b, |prefix| + i);
  }

  /** The letters of which every no-groups suite name holds at least one. */
  predicate IsNoGroupsLetter(c: char)
  {
    c == 'r' || c == 'l' || c == 'y' || c == 'g' || c == 'u' || c == 'f' || c == 'j'
  }

  predicate HasNoGroupsLetter(s: string)
  {
    exists i | 0 <= i < |s| :: IsNoGroupsLetter(s[i])
  }

  lemma {:induction false} NoGroupsSuitesLetters()
    ensures forall k | 0 <= k < |NoGroupsSuites| :: HasNoGroupsLetter(NoGroupsSuites[k])
  {
    var n := NoGroupsSuites;
    assert IsNoGroupsLetter(n[0][0]) && IsNoGroupsLetter(n[1][2]) && IsNoGroupsLetter(n[2][3]) && IsNoGroupsLetter(n[3][0]);
    assert IsNoGroupsLetter(n[4][3]) && IsNoGroupsLetter(n[5][2]) && IsNoGroupsLetter(n[6][0]) && IsNoGroupsLetter(n[7][0]);
    assert IsNoGroupsLetter(n[8][0]) && IsNoGroupsLetter(n[9][2]);
  }

  /** A label without any of those letters carries no no-groups token, so its task reports groups. */
  lemma {:induction false} NoGroupsSuiteNeedsLetter(taskLabel: string)
    requires forall i | 0 <= i < |taskLabel| :: !IsNoGroupsLetter(taskLabel[i])
    ensures !IsNoGroupsSuite(taskLabel)
  {
    NoGroupsSuitesLetters();
    forall k | 0 <= k < |NoGroupsSuites|
      ensures !Contains(taskLabel, Bracketed(NoGroupsSuites[k]))
    {
      var n := NoGroupsSuites[k];
      var q := Bracketed(n);
      assert q == "-" + n + "-";
      var j :| 0 <= j < |n| && IsNoGroupsLetter(n[j]);
      assert q[j + 1] == n[j];
      MissingChar(taskLabel, q, n[j]);
    }
  }

  /** A talos label is a no-groups label. */
  lemma {:induction false} TalosLabelHasNoGroups()
    ensures IsNoGroupsSuite("test-linux1804-64-shippable/opt-talos-g5-e10s")
  {
    NoGroupsSuiteToken("test-linux1804-64-shippable/opt", 1, "g5-e10s");
    assert Bracketed(NoGroupsSuites[1]) == "-talos-";
    assert "test-linux1804-64-shippable/opt" + "-talos-" + "g5-e10s" == "test-linux1804-64-shippable/opt-talos-g5-e10s";
  }

  /** A mochitest label is not a no-groups label. */
  lemma {:induction false} MochitestLabelHasGroups()
    ensures !IsNoGroupsSuite("test-windows10-64/opt-mochitest-media-e10s-2")
  {
    NoGroupsSuiteNeedsLetter("test-windows10-64/opt-mochitest-media-e10s-2");
  }


  lemma {:induction false} ContainsMiddle(s: string, a: string, b: string, c: string)
    requires Contains(s, a + b + c)
    ensures Contains(s, b)
  {
    var q := a + b + c;
    var i: nat :| i <= |s| && OccursAt(s, q, i);
    assert s[i..i + |q|] == q;
    assert forall j | 0 <= j < |b| :: s[i + |a| + j] == s[i..i + |q|][|a| + j] == q[|a| + j] == b[j];
    assert s[i + |a|..i + |a| + |b|] == b;
    assert OccursAt(s, b, i + |a|);
  }

  lemma {:induction false} ContainsInPrefix(s: string, n: nat, sub: string)
    requires n <= |s| && Contains(s[..n], sub)
    ensures Contains(s, sub)
  {
    var i: nat :| i <= n && OccursAt(s[..n], sub, i);
    assert s[..n][i..i + |sub|] == s[i..i + |sub|];
    assert OccursAt(s, sub, i);
  }

  /**
   * After the scan, no suite it visited is left as a whole token: a suite
   * whose token occurs is wiped out by `*`, and later `*` replacements never
   * create a token that was not there.
   */
  lemma {:induction false} StripSuitesLeavesNoToken(taskLabel: string, suites: seq<string>)
    requires WellFormed(suites)
    ensures forall k | 0 <= k < |suites| :: !Contains(StripSuites(taskLabel, suites), Bracketed(suites[k]))
  {
    if suites != [] {
      var n := |suites| - 1;
      var front, s := suites[..n], suites[n];
      var prev := StripSuites(taskLabel, front);
      StripSuitesLeavesNoToken(taskLabel, front);
      var cur := StripSuites(taskLabel, suites);
      assert cur == StripSuite(prev, s);
      forall k | 0 <= k < |suites|
        ensures !Contains(cur, Bracketed(suites[k]))
      {
        var q := Bracketed(suites[k]);
        assert q == "-" + suites[k] + "-" && '*' !in suites[k];
        if Contains(prev, Bracketed(s)) {
          ReplaceAllIntroducesNothing(prev, s, q);
          if k == n {
            ReplaceAllRemoves(prev, s);
            if Contains(cur, q) {
              ContainsMiddle(cur, "-", s, "-");
            }
          } else {
            assert front[k] == suites[k];
          }
        } else if k < n {
          assert front[k] == suites[k];
        }
      }
    }
  }

  /** Index of the last occurrence of `sep`. */
  lemma {:induction false} LastSeparator(c: string, sep: char) returns (i: nat)
    requires sep in c
    ensures i < |c| && c[i] == sep && sep !in c[i + 1..]
  {
    if c[|c| - 1] == sep {
      i := |c| - 1;
    } else {
      i := LastSeparator(c[..|c| - 1], sep);
      assert c[i + 1..] == c[..|c| - 1][i + 1..] + [c[|c| - 1]];
    }
  }

  /** When `b` follows the last `-`, it is the chunk, and it is dropped exactly when it is all digits. */
  lemma {:induction false} DropChunkAfterLastDash(a: string, b: string)
    requires '-' !in b
    ensures Chunk(a + "-" + b) == b
    ensures DropChunk(a + "-" + b) == if IsDigits(b) then a else a + "-" + b
  {
    SplitAfterSep(a, b, '-');
    var parts := Split(a, '-') + [b];
    assert parts[..|parts| - 1] == Split(a, '-');
    JoinSplit(a, '-');
    JoinSplit(a + "-" + b, '-');
  }

  /** A label without `-` is its own chunk; a purely numeric one vanishes. */
  lemma {:induction false} DropChunkWithoutDash(c: string)
    requires '-' !in c
    ensures Chunk(c) == c
    ensures DropChunk(c) == if IsDigits(c) then "" else c
  {
    SplitWithoutSep(c, '-');
  }

  /** Dropping the chunk keeps a prefix of the label. */
  lemma {:induction false} DropChunkIsPrefix(c: string)
    ensures StartsWith(c, DropChunk(c))
  {
    if '-' in c {
      var i := LastSeparator(c, '-');
      assert c == c[..i] + "-" + c[i + 1..];
      DropChunkAfterLastDash(c[..i], c[i + 1..]);
    } else {
      DropChunkWithoutDash(c);
    }
  }

  /** No suite name of the table is left as a whole `-`-delimited token of a configuration key. */
  lemma {:induction false} ConfigurationKeyHasNoSuiteToken(taskLabel: string)
    ensures forall k | 0 <= k < |Suites| :: !Contains(ConfigurationKey(taskLabel), Bracketed(Suites[k]))
  {
    SuitesWellFormed();
    var stripped := StripSuites(taskLabel, Suites);
    StripSuitesLeavesNoToken(taskLabel, Suites);
    DropChunkIsPrefix(stripped);
    var key := ConfigurationKey(taskLabel);
    assert stripped[..|key|] == key;
    forall k | 0 <= k < |Suites|
      ensures !Contains(key, Bracketed(Suites[k]))
    {
      if Contains(key, Bracketed(Suites[k])) {
        ContainsInPrefix(stripped, |key|, Bracketed(Suites[k]));
      }
    }
  }

  lemma {:induction false} StripSuitesUntouched(taskLabel: string, suites: seq<string>)
    requires forall k | 0 <= k < |suites| :: suites[k] != []
    requires forall k | 0 <= k < |suites| :: !Contains(taskLabel, Bracketed(suites[k]))
    ensures StripSuites(taskLabel, suites) == taskLabel
  {
    if suites != [] {
      var front := suites[..|suites| - 1];
      assert forall k | 0 <= k < |front| :: front[k] == suites[k];
      StripSuitesUntouched(taskLabel, front);
    }
  }

  /** A label with no suite token and no numeric chunk is its own configuration key. */
  lemma {:induction false} ConfigurationKeyUnchanged(taskLabel: string)
    requires forall k | 0 <= k < |Suites| :: !Contains(taskLabel, Bracketed(Suites[k]))
    requires !IsDigits(Chunk(taskLabel))
    ensures ConfigurationKey(taskLabel) == taskLabel
  {
    SuitesWellFormed();
    StripSuitesUntouched(taskLabel, Suites);
    JoinSplit(taskLabel, '-');
  }

  /** A scan whose remaining suites have no token in the label so far changes nothing more. */
  lemma {:induction false} StripSuitesSkipRest(taskLabel: string, suites: seq<string>, i: nat)
    requires i <= |suites| && forall k | 0 <= k < |suites| :: suites[k] != []
    requires forall k | i <= k < |suites| :: !Contains(StripSuites(taskLabel, suites[..i]), Bracketed(suites[k]))
    ensures StripSuites(taskLabel, suites) == StripSuites(taskLabel, suites[..i])
  {
    if |suites| == i {
      assert suites[..i] == suites;
    } else {
      var front := suites[..|suites| - 1];
      assert front[..i] == suites[..i];
      assert forall k | 0 <= k < |front| :: front[k] == suites[k];
      StripSuitesSkipRest(taskLabel, front, i);
    }
  }

  /** The letters that rule out every suite after `mochitest-plain` in the example key below. */
  predicate HasRareLetter(s: string)
  {
    'm' in s || 'b' in s || 'x' in s || 'c' in s || 'j' in s || 'r' in s || 'g' in s || 'l' in s || 'f' in s || 'v' in s
  }

  lemma {:induction false} FrontSuitesLetters()
    ensures forall k | 2 <= k < 12 :: HasRareLetter(Suites[k])
  {
  }

  lemma {:induction false} MiddleSuitesLetters()
    ensures forall k | 12 <= k < 24 :: HasRareLetter(Suites[k])
  {
  }

  lemma {:induction false} BackSuitesLetters()
    ensures forall k | 24 <= k < 36 :: HasRareLetter(Suites[k])
  {
  }

  lemma {:induction false} SuitesFront()
    ensures |Suites| == 36 && Suites[..2] == ["mochitest-plain-gpu", "mochitest-plain"]
  {
    assert Suites[0] == "mochitest-plain-gpu" && Suites[1] == "mochitest-plain";
    assert Suites[..2] == [Suites[0], Suites[1]];
  }

  /** A string lacking all the rare letters contains no token of a name that has one. */
  lemma {:induction false} RareLettersRuleOut(c: string, names: seq<string>)
    requires forall x | x in "mbxcjrglfv" :: x !in c
    requires forall k | 0 <= k < |names| :: HasRareLetter(names[k])
    ensures forall k | 0 <= k < |names| :: !Contains(c, Bracketed(names[k]))
  {
    forall k | 0 <= k < |names|
      ensures !Contains(c, Bracketed(names[k]))
    {
      var n := names[k];
      var q := Bracketed(n);
      assert q == "-" + n + "-";
      var x :| x in "mbxcjrglfv" && x in n;
      MissingChar(c, q, x);
    }
  }

  /** The example label family: the label of chunk `chunk` and its key before the chunk is dropped. */
  function ExampleLabel(chunk: string): string
  {
    ExamplePlatform + "mochitest-plain" + "-e10s-" + chunk
  }

  function ExampleStripped(chunk: string): string
  {
    ExamplePlatform + "*" + "-e10s-" + chunk
  }

  const ExamplePlatform := "test-windows10-64/opt-"

  /** `-mochitest-plain-gpu-` does not occur in the example label. */
  lemma {:induction false} ExampleGpuStep(chunk: string)
    requires IsDigits(chunk)
    ensures StripSuite(ExampleLabel(chunk), "mochitest-plain-gpu") == ExampleLabel(chunk)
  {
    var a, pat, b := ExamplePlatform, "mochitest-plain", "-e10s-" + chunk;
    var l := a + pat + b;
    assert l == ExampleLabel(chunk);
    assert 'g' !in chunk;
    assert 'g' !in l;
    assert 'g' in Bracketed("mochitest-plain-gpu");
    MissingChar(l, Bracketed("mochitest-plain-gpu"), 'g');
  }

  lemma {:induction false} ExamplePlainToken(chunk: string)
    ensures Contains(ExampleLabel(chunk), Bracketed("mochitest-plain"))
  {
    var a, pat, b := ExamplePlatform, "mochitest-plain", "-e10s-" + chunk;
    var l := a + pat + b;
    assert l == ExampleLabel(chunk);
    assert l == a[..|a| - 1] + Bracketed(pat) + "e10s-" + chunk;
    assert l[|a| - 1..|a| - 1 + |Bracketed(pat)|] == Bracketed(pat);
    assert OccursAt(l, Bracketed(pat), |a| - 1);
  }

  lemma {:induction false} ExamplePlainReplaced(chunk: string)
    requires IsDigits(chunk)
    ensures ReplaceAll(ExampleLabel(chunk), "mochitest-plain", "*") == ExampleStripped(chunk)
  {
    var a, pat, b := ExamplePlatform, "mochitest-plain", "-e10s-" + chunk;
    assert a + pat + b == ExampleLabel(chunk);
    ReplaceAllFirst(a, pat, b, "*");
    assert 'm' !in "-e10s-" && 'm' !in chunk;
    MissingChar(b, pat, 'm');
    ReplaceAllAbsent(b, pat, "*");
    assert a + "*" + b == ExampleStripped(chunk);
  }

  /** `-mochitest-plain-` occurs once in the example label and becomes `*`. */
  lemma {:induction false} ExamplePlainStep(chunk: string)
    requires IsDigits(chunk)
    ensures StripSuite(ExampleLabel(chunk), "mochitest-plain") == ExampleStripped(chunk)
  {
    ExamplePlainToken(chunk);
    ExamplePlainReplaced(chunk);
  }

  /** Of the first two suites only `mochitest-plain` has a token in the example label. */
  lemma {:induction false} ExampleFirstSuites(chunk: string)
    requires IsDigits(chunk)
    ensures StripSuites(ExampleLabel(chunk), ["mochitest-plain-gpu", "mochitest-plain"]) == ExampleStripped(chunk)
  {
    var two := ["mochitest-plain-gpu", "mochitest-plain"];
    var l := ExampleLabel(chunk);
    ExampleGpuStep(chunk);
    ExamplePlainStep(chunk);
    assert two[..1] == ["mochitest-plain-gpu"] && two[..1][..0] == [];
    assert StripSuites(l, two[..1]) == l;
  }

  lemma {:induction false} ExampleKeyLacksRareLetters(chunk: string)
    requires IsDigits(chunk)
    ensures forall x | x in "mbxcjrglfv" :: x !in ExampleStripped(chunk)
  {
    var a, b := "test-windows10-64/opt-*-e10s-", chunk;
    assert a + b == ExampleStripped(chunk);
    forall x | x in "mbxcjrglfv"
      ensures x !in a + b
    {
      assert x !in b;
    }
  }

  lemma {:induction false} LaterSuitesHaveRareLetters()
    ensures forall k | 2 <= k < |Suites| :: HasRareLetter(Suites[k])
  {
    FrontSuitesWellFormed();
    FrontSuitesLetters();
    MiddleSuitesLetters();
    BackSuitesLetters();
  }

  /** No suite after `mochitest-plain` has a token in the example key. */
  lemma {:induction false} ExampleLaterSuites(chunk: string)
    requires IsDigits(chunk)
    ensures forall k | 2 <= k < |Suites| :: !Contains(ExampleStripped(chunk), Bracketed(Suites[k]))
  {
    ExampleKeyLacksRareLetters(chunk);
    LaterSuitesHaveRareLetters();
    var later := Suites[2..];
    RareLettersRuleOut(ExampleStripped(chunk), later);
    assert forall k | 2 <= k < |Suites| :: Suites[k] == later[k - 2];
  }

  /**
   * `test-windows10-64/opt-mochitest-plain-e10s-N` has the configuration key
   * `test-windows10-64/opt-*-e10s` whatever the chunk number `N`.
   */
  lemma {:induction false} ConfigurationKeyOfChunks(chunk: string)
    requires IsDigits(chunk)
    ensures ConfigurationKey(ExampleLabel(chunk)) == "test-windows10-64/opt-*-e10s"
  {
    SuitesWellFormed();
    SuitesFront();
    ExampleFirstSuites(chunk);
    ExampleLaterSuites(chunk);
    StripSuitesSkipRest(ExampleLabel(chunk), Suites, 2);
    assert '-' !in chunk;
    assert ExampleStripped(chunk) == "test-windows10-64/opt-*-e10s" + "-" + chunk;
    DropChunkAfterLastDash("test-windows10-64/opt-*-e10s", chunk);
  }

  lemma {:induction false} ExampleLabelSpelled(chunk: string)
    ensures ExampleLabel(chunk) == "test-windows10-64/opt-mochitest-plain-e10s-" + chunk
  {
  }

  /** The labels of chunks 7 and 3 share one key. */
  lemma {:induction false} ConfigurationKeyExamples()
    ensures ConfigurationKey("test-windows10-64/opt-mochitest-plain-e10s-7") == "test-windows10-64/opt-*-e10s"
    ensures ConfigurationKey("test-windows10-64/opt-mochitest-plain-e10s-3") == "test-windows10-64/opt-*-e10s"
  {
    ConfigurationKeyOfChunks("7");
    ConfigurationKeyOfChunks("3");
    ExampleLabelSpelled("7");
    ExampleLabelSpelled("3");
    assert "test-windows10-64/opt-mochitest-plain-e10s-" + "7" == "test-windows10-64/opt-mochitest-plain-e10s-7";
    assert "test-windows10-64/opt-mochitest-plain-e10s-" + "3" == "test-windows10-64/opt-mochitest-plain-e10s-3";
  }
}
