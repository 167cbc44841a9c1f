/**
 * The Python `str` operations the core relies on, over `seq<char>`: blankness
 * after `strip()`, `isdigit()`, `startswith`, the substring test `in`,
 * `replace`, `split` on a one-character separator and `join`.
 */
module Strings {

  /** The characters `str.strip()` removes when called without arguments (those for which `str.isspace()` holds). */
  predicate IsSpace(c: char)
  {
    c == ' ' || '\U{9}' <= c <= '\U{D}' || '\U{1C}' <= c <= '\U{1F}' || c == '\U{85}' || c == '\U{A0}'
    || c == '\U{1680}' || '\U{2000}' <= c <= '\U{200A}' || c == '\U{2028}' || c == '\U{2029}'
    || c == '\U{202F}' || c == '\U{205F}' || c == '\U{3000}'
  }

  /** `not s.strip()`: the string is empty or made only of whitespace. */
  predicate IsBlank(s: string)
  {
    forall i | 0 <= i < |s| :: IsSpace(s[i])
  }

  /** `s.isdigit()` for ASCII digits: non-empty, and every character is a digit. */
  predicate IsDigits(s: string)
  {
    |s| > 0 && forall i | 0 <= i < |s| :: '0' <= s[i] <= '9'
  }

  predicate StartsWith(s: string, prefix: string)
  {
    |prefix| <= |s| && s[..|prefix|] == prefix
  }

  /** `sub` occurs in `s` at index `i`. */
  predicate OccursAt(s: string, sub: string, i: nat)
  {
    i + |sub| <= |s| && s[i..i + |sub|] == sub
  }

  /** Python's `sub in s`. */
  predicate Contains(s: string, sub: string)
  {
    exists i: nat | i <= |s| :: OccursAt(s, sub, i)
  }

  lemma {:induction false} OccursInSuffix(s: string, k: nat, sub: string, i: nat)
    requires k <= |s|
    ensures OccursAt(s[k..], sub, i) <==> OccursAt(s, sub, k + i)
  {
    if i + |sub| <= |s| - k {
      assert s[k..][i..i + |sub|] == s[k + i..k + i + |sub|];
    }
  }

  lemma {:induction false} ContainsInSuffix(s: string, k: nat, sub: string)
    requires k <= |s| && Contains(s[k..], sub)
    ensures Contains(s, sub)
  {
    var i: nat :| i <= |s[k..]| && OccursAt(s[k..], sub, i);
    OccursInSuffix(s, k, sub, i);
  }

  /** A one-character substring test is membership of that character. */
  lemma {:induction false} ContainsChar(s: string, c: char)
    ensures Contains(s, [c]) <==> c in s
  {
    if c in s {
      var i :| 0 <= i < |s| && s[i] == c;
      assert OccursAt(s, [c], i);
    }
    if Contains(s, [c]) {
      var i: nat :| i <= |s| && OccursAt(s, [c], i);
      assert s[i] == s[i..i + 1][0];
    }
  }

  /** A substring that holds a character `s` lacks does not occur in `s`. */
  lemma {:induction false} MissingChar(s: string, sub: string, c: char)
    requires c in sub && c !in s
    ensures !Contains(s, sub)
  {
    forall i: nat | i <= |s|
      ensures !OccursAt(s, sub, i)
    {
      var j :| 0 <= j < |sub| && sub[j] == c;
      if i + |sub| <= |s| {
        assert s[i..i + |sub|][j] == s[i + j];
      }
    }
  }

  /**
   * Python's `s.replace(pat, rep)`: scanning from the left, every
   * non-overlapping occurrence of `pat` is replaced by `rep`.
   */
  function ReplaceAll(s: string, pat: string, rep: string): string
    requires pat != []
    decreases |s|
  {
    if |s| < |pat| then s
    else if s[..|pat|] == pat then rep + ReplaceAll(s[|pat|..], pat, rep)
    else [s[0]] + ReplaceAll(s[1..], pat, rep)
  }

  /** Replacing a pattern that does not occur changes nothing. */
  lemma {:induction false} ReplaceAllAbsent(s: string, pat: string, rep: string)
    requires pat != [] && !Contains(s, pat)
    ensures ReplaceAll(s, pat, rep) == s
  {
    if |s| >= |pat| {
      assert !OccursAt(s, pat, 0);
      if Contains(s[1..], pat) {
        ContainsInSuffix(s, 1, pat);
      }
      ReplaceAllAbsent(s[1..], pat, rep);
    }
  }

  /** When the first occurrence of `pat` in `a + pat + b` is the one after `a`, it becomes `rep`. */
  lemma {:induction false} ReplaceAllFirst(a: string, pat: string, b: string, rep: string)
    requires pat != [] && pat[0] !in a
    ensures ReplaceAll(a + pat + b, pat, rep) == a + rep + ReplaceAll(b, pat, rep)
  {
    var s := a + pat + b;
    if a == [] {
      assert s == pat + b && s[..|pat|] == pat && s[|pat|..] == b;
    } else {
      assert s[..|pat|][0] == a[0] != pat[0];
      assert s[1..] == a[1..] + pat + b;
      assert ReplaceAll(s, pat, rep) == [a[0]] + ReplaceAll(s[1..], pat, rep);
      ReplaceAllFirst(a[1..], pat, b, rep);
      assert a == [a[0]] + a[1..];
    }
  }

  /** Up to its first `*`, the result of replacing by `"*"` is a copy of the input. */
  lemma {:induction false} WildcardFreePrefix(t: string, pat: string, k: nat)
    requires pat != [] && k <= |ReplaceAll(t, pat, "*")|
    ensures '*' in ReplaceAll(t, pat, "*")[..k] || (k <= |t| && ReplaceAll(t, pat, "*")[..k] == t[..k])
  {
    var r := ReplaceAll(t, pat, "*");
    if |t| < |pat| || k == 0 {
    } else if t[..|pat|] == pat {
      assert r[..k][0] == '*';
    } else {
      var r' := ReplaceAll(t[1..], pat, "*");
      assert r == [t[0]] + r';
      WildcardFreePrefix(t[1..], pat, k - 1);
      assert r[..k] == [t[0]] + r'[..k - 1];
      if '*' in r'[..k - 1] {
        var j :| 0 <= j < k - 1 && r'[..k - 1][j] == '*';
        assert r[..k][j + 1] == '*';
      } else {
        assert t[..k] == [t[0]] + t[1..][..k - 1];
      }
    }
  }

  /** Replacing by `"*"` creates no new occurrence of a pattern without `*`. */
  lemma {:induction false} ReplaceAllIntroducesNothing(s: string, pat: string, q: string)
    requires pat != []
    ensures Contains(ReplaceAll(s, pat, "*"), q) ==> Contains(s, q) || '*' in q
  {
    var r := ReplaceAll(s, pat, "*");
    if q == [] {
      assert OccursAt(s, q, 0);
    } else if |s| >= |pat| && Contains(r, q) {
      var i: nat :| i <= |r| && OccursAt(r, q, i);
      if s[..|pat|] == pat {
        var r' := ReplaceAll(s[|pat|..], pat, "*");
        assert r == "*" + r';
        if i == 0 {
          assert q[0] == r[..|q|][0] == '*';
        } else {
          OccursInSuffix(r, 1, q, i - 1);
          assert r[1..] == r';
          ReplaceAllIntroducesNothing(s[|pat|..], pat, q);
          if Contains(s[|pat|..], q) {
            ContainsInSuffix(s, |pat|, q);
          }
        }
      } else {
        var r' := ReplaceAll(s[1..], pat, "*");
        assert r == [s[0]] + r';
        if i == 0 {
          WildcardFreePrefix(s, pat, |q|);
          assert r[..|q|] == q;
          if '*' !in q {
            assert OccursAt(s, q, 0);
          }
        } else {
          OccursInSuffix(r, 1, q, i - 1);
          assert r[1..] == r';
          ReplaceAllIntroducesNothing(s[1..], pat, q);
          if Contains(s[1..], q) {
            ContainsInSuffix(s, 1, q);
          }
        }
      }
    }
  }

  /** Replacing by `"*"` leaves no occurrence of a pattern without `*`. */
  lemma {:induction false} ReplaceAllRemoves(s: string, pat: string)
    requires pat != []
    ensures Contains(ReplaceAll(s, pat, "*"), pat) ==> '*' in pat
  {
    var r := ReplaceAll(s, pat, "*");
    if |s| >= |pat| && Contains(r, pat) {
      var i: nat :| i <= |r| && OccursAt(r, pat, i);
      if s[..|pat|] == pat {
        var r' := ReplaceAll(s[|pat|..], pat, "*");
        assert r == "*" + r';
        if i == 0 {
          assert pat[0] == r[..|pat|][0] == '*';
        } else {
          OccursInSuffix(r, 1, pat, i - 1);
          assert r[1..] == r';
          ReplaceAllRemoves(s[|pat|..], pat);
        }
      } else {
        var r' := ReplaceAll(s[1..], pat, "*");
        assert r == [s[0]] + r';
        if i == 0 {
          WildcardFreePrefix(s, pat, |pat|);
          assert r[..|pat|] == pat;
        } else {
          OccursInSuffix(r, 1, pat, i - 1);
          assert r[1..] == r';
          ReplaceAllRemoves(s[1..], pat);
        }
      }
    }
  }

  /** Python's `s.split(sep)` for a one-character separator: the pieces between separators, in order; never empty. */
  function Split(s: string, sep: char): (parts: seq<string>)
    ensures |parts| >= 1
    decreases |s|
  {
    if s == [] then [[]]
    else
      var init := Split(s[..|s| - 1], sep);
      if s[|s| - 1] == sep then init + [[]]
      else init[..|init| - 1] + [init[|init| - 1] + [s[|s| - 1]]]
  }

  /** Python's `sep.join(parts)` for a one-character separator. */
  function Join(parts: seq<string>, sep: char): string
    decreases |parts|
  {
    if parts == [] then []
    else if |parts| == 1 then parts[0]
    else Join(parts[..|parts| - 1], sep) + [sep] + parts[|parts| - 1]
  }

  lemma {:induction false} JoinSnoc(parts: seq<string>, last: string, sep: char)
    requires parts != []
    ensures Join(parts + [last], sep) == Join(parts, sep) + [sep] + last
  {
    assert (parts + [last])[..|parts|] == parts;
  }

  lemma {:induction false} JoinPair(a: string, b: string, sep: char)
    ensures Join([a, b], sep) == a + [sep] + b
  {
    assert [a, b][..1] == [a];
  }

  /** Joining the pieces of a split gives back the string. */
  lemma {:induction false} JoinSplit(s: string, sep: char)
    ensures Join(Split(s, sep), sep) == s
    decreases |s|
  {
    if s != [] {
      var s', c := s[..|s| - 1], s[|s| - 1];
      assert s == s' + [c];
      var init := Split(s', sep);
      JoinSplit(s', sep);
      var last := init[|init| - 1];
      if c == sep {
        assert Split(s, sep) == init + [[]];
        JoinSnoc(init, [], sep);
      } else {
        assert Split(s, sep) == init[..|init| - 1] + [last + [c]];
        if |init| == 1 {
          assert init[..0] + [last + [c]] == [last + [c]];
          assert init == [last];
        } else {
          var front := init[..|init| - 1];
          assert init == front + [last];
          JoinSnoc(front, last + [c], sep);
          JoinSnoc(front, last, sep);
        }
      }
    }
  }

  /** A string without the separator splits into itself. */
  lemma {:induction false} SplitWithoutSep(s: string, sep: char)
    requires sep !in s
    ensures Split(s, sep) == [s]
  {
    if s != [] {
      SplitWithoutSep(s[..|s| - 1], sep);
      assert s == s[..|s| - 1] + [s[|s| - 1]];
    }
  }

  /** What follows the last separator is the last piece. */
  lemma {:induction false} SplitAfterSep(a: string, b: string, sep: char)
    requires sep !in b
    ensures Split(a + [sep] + b, sep) == Split(a, sep) + [b]
  {
    var s := a + [sep] + b;
    if b == [] {
      assert s[..|s| - 1] == a;
    } else {
      var b' := b[..|b| - 1];
      SplitAfterSep(a, b', sep);
      assert s[..|s| - 1] == a + [sep] + b';
      assert b == b' + [b[|b| - 1]];
    }
  }
}
