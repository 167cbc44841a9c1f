/**
 * Group names: which ones cannot be used (`is_bad_group`), and the rewrite of
 * web-platform-test paths into paths under the source tree (`wpt_workaround`).
 */
module Groups {
  import opened Strings

  /** `os.path.isabs` with POSIX semantics. */
  predicate IsAbsolute(group: string)
  {
    StartsWith(group, "/")
  }

  /** `is_bad_group`: blank, a `file://` URL, a `Z:` drive path, an absolute path, or holding a backslash. */
  predicate IsBadGroup(group: string)
  {
    IsBlank(group) || StartsWith(group, "file://") || StartsWith(group, "Z:") || IsAbsolute(group) || Contains(group, "\\")
  }

  /** What `wpt_workaround` accepts: a blank name, or a path starting with `/` (anything else fails its assertion). */
  predicate IsWptInput(group: string)
  {
    IsBlank(group) || StartsWith(group, "/")
  }

  const MozillaMarker := "/_mozilla/"
  const MozillaRoot := "testing/web-platform/mozilla/tests"
  const TestsRoot := "testing/web-platform/tests"

  /**
   * `wpt_workaround`: a blank name is kept; `/_mozilla/s` becomes a path under
   * the Mozilla-specific test root, any other `/s` a path under the upstream root.
   */
  function WptWorkaround(group: string): (r: string)
    requires IsWptInput(group)
    ensures IsBlank(group) ==> r == group
    ensures !IsBlank(group) && StartsWith(group, MozillaMarker) ==> r == MozillaRoot + "/" + group[|MozillaMarker|..]
    ensures !IsBlank(group) && !StartsWith(group, MozillaMarker) ==> r == TestsRoot + "/" + group[1..]
  {
    if IsBlank(group) then group
    else if StartsWith(group, MozillaMarker) then
      JoinPair(MozillaRoot, group[|MozillaMarker|..], '/');
      Join([MozillaRoot, group[|MozillaMarker|..]], '/')
    else
      JoinPair(TestsRoot, group[1..], '/');
      Join([TestsRoot, group[1..]], '/')
  }

  /** A path under a test root is bad only when its relative part holds a backslash. */
  lemma {:induction false} UnderRootNotBad(root: string, rest: string)
    requires root == MozillaRoot || root == TestsRoot
    ensures IsBadGroup(root + "/" + rest) <==> '\\' in rest
  {
    var r := root + "/" + rest;
    assert r[0] == 't' && !IsSpace(r[0]);
    assert r[..7][0] == 't' && r[..2][0] == 't' && r[..1][0] == 't';
    assert '\\' !in root;
    ContainsChar(r, '\\');
  }

  /** A rewritten name is bad only when the original held a backslash. */
  lemma {:induction false} WptWorkaroundNotBad(group: string)
    requires IsWptInput(group) && !IsBlank(group)
    ensures IsBadGroup(WptWorkaround(group)) <==> Contains(group, "\\")
  {
    var n := if StartsWith(group, MozillaMarker) then |MozillaMarker| else 1;
    var root := if StartsWith(group, MozillaMarker) then MozillaRoot else TestsRoot;
    assert WptWorkaround(group) == root + "/" + group[n..];
    UnderRootNotBad(root, group[n..]);
    assert group[..n] == MozillaMarker || group[..n] == "/";
    assert '\\' !in group[..n];
    assert group == group[..n] + group[n..];
    ContainsChar(group, '\\');
  }

  /** Rewritten names start with `t`, so they are never blank. */
  lemma {:induction false} WptWorkaroundHead(group: string)
    requires IsWptInput(group) && !IsBlank(group)
    ensures |WptWorkaround(group)| > 21 && WptWorkaround(group)[0] == 't'
    ensures WptWorkaround(group)[21] == if StartsWith(group, MozillaMarker) then 'm' else 't'
  {
    var n := if StartsWith(group, MozillaMarker) then |MozillaMarker| else 1;
    var root := if StartsWith(group, MozillaMarker) then MozillaRoot else TestsRoot;
    assert WptWorkaround(group) == root + "/" + group[n..];
    assert root[0] == 't' && root[21] == (if StartsWith(group, MozillaMarker) then 'm' else 't');
  }

  /** Distinct accepted names stay distinct after the rewrite. */
  lemma {:induction false} WptWorkaroundInjective(g: string, h: string)
    requires IsWptInput(g) && IsWptInput(h) && g != h
    ensures WptWorkaround(g) != WptWorkaround(h)
  {
    var rg, rh := WptWorkaround(g), WptWorkaround(h);
    if IsBlank(g) && IsBlank(h) {
    } else if IsBlank(g) || IsBlank(h) {
      var nb := if IsBlank(g) then h else g;
      var b := if IsBlank(g) then g else h;
      WptWorkaroundHead(nb);
      assert !IsSpace(WptWorkaround(nb)[0]);
      assert IsBlank(WptWorkaround(b));
    } else if StartsWith(g, MozillaMarker) != StartsWith(h, MozillaMarker) {
      WptWorkaroundHead(g);
      WptWorkaroundHead(h);
    } else if StartsWith(g, MozillaMarker) {
      assert g == MozillaMarker + g[|MozillaMarker|..];
      assert h == MozillaMarker + h[|MozillaMarker|..];
      assert rg[|MozillaRoot| + 1..] == g[|MozillaMarker|..];
      assert rh[|MozillaRoot| + 1..] == h[|MozillaMarker|..];
    } else {
      assert g == "/" + g[1..] && h == "/" + h[1..];
      assert rg[|TestsRoot| + 1..] == g[1..];
      assert rh[|TestsRoot| + 1..] == h[1..];
    }
  }
}
