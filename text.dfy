/** The Option type used for Python's "value or None". */
module Wrappers {
  datatype Option<+T> = None | Some(value: T) {
    function GetOr(default: T): T {
      match this
      case Some(v) => v
      case None => default
    }
  }
}

/** The string operations the ingestion code relies on: `str.lower`,
    `str.endswith`, `str.replace(pat, '')`, `os.path.join` and
    `os.path.basename`. */
module Text {

  /** Python's `str.lower()`, restricted to the ASCII letters. */
  function LowerChar(c: char): char {
    if 'A' <= c <= 'Z' then (c as int + 32) as char else c
  }

  function Lower(s: string): (r: string)
    ensures |r| == |s|
    ensures forall i :: 0 <= i < |s| ==> r[i] == LowerChar(s[i])
  {
    if s == [] then [] else [LowerChar(s[0])] + Lower(s[1..])
  }

  predicate EndsWith(s: string, suffix: string) {
    |suffix| <= |s| && s[|s| - |suffix|..] == suffix
  }

  /** Two suffixes whose last characters differ cannot both end one string. */
  lemma EndsWithExclusive(s: string, a: string, b: string)
    requires 0 < |a| && 0 < |b| && a[|a| - 1] != b[|b| - 1]
    requires EndsWith(s, a)
    ensures !EndsWith(s, b)
  {
    assert s[|s| - 1] == s[|s| - |a|..][|a| - 1];
  }

  /** `pat` occurs in `s` at some position. */
  ghost predicate Occurs(s: string, pat: string) {
    exists i :: OccursAt(s, pat, i)
  }

  predicate OccursAt(s: string, pat: string, i: int) {
    0 <= i && i + |pat| <= |s| && s[i..i + |pat|] == pat
  }

  /** Python's `s.replace(pat, '')`: scans left to right and deletes every
      non-overlapping occurrence of `pat`, not only a leading one. */
  function RemoveAll(s: string, pat: string): (r: string)
    requires 0 < |pat|
    ensures |r| <= |s|
    decreases |s|
  {
    if |s| < |pat| then s
    else if s[..|pat|] == pat then RemoveAll(s[|pat|..], pat)
    else [s[0]] + RemoveAll(s[1..], pat)
  }

  /** A string without any occurrence of the pattern is left as it is. */
  lemma {:induction false} RemoveAllWithoutOccurrence(s: string, pat: string)
    requires 0 < |pat|
    requires !Occurs(s, pat)
    ensures RemoveAll(s, pat) == s
    decreases |s|
  {
    if |s| >= |pat| {
      assert s[0..|pat|] == s[..|pat|];
      assert !OccursAt(s, pat, 0);
      assert !Occurs(s[1..], pat) by {
        forall i | 0 <= i && i + |pat| <= |s[1..]|
          ensures !OccursAt(s[1..], pat, i)
        {
          assert s[1..][i..i + |pat|] == s[i + 1..i + 1 + |pat|];
          assert !OccursAt(s, pat, i + 1);
        }
      }
      RemoveAllWithoutOccurrence(s[1..], pat);
      assert [s[0]] + s[1..] == s;
    }
  }

  /** Removing a leading occurrence is what the scan does first. */
  lemma RemoveAllLeading(pat: string, rest: string)
    requires 0 < |pat|
    ensures RemoveAll(pat + rest, pat) == RemoveAll(rest, pat)
  {
    assert (pat + rest)[..|pat|] == pat;
    assert (pat + rest)[|pat|..] == rest;
  }

  /** The result of removing every occurrence can contain the pattern again:
      deleting the middle of "NNFeFe" joins its ends into "NFe". */
  lemma RemoveAllNotIdempotent()
    ensures RemoveAll("NNFeFe", "NFe") == "NFe"
    ensures RemoveAll(RemoveAll("NNFeFe", "NFe"), "NFe") == ""
  {
    assert "NNFeFe"[..3][1] != "NFe"[1];
    assert "NNFeFe"[1..] == "NFeFe";
    assert "NFeFe"[..3] == "NFe";
    assert "NFeFe"[3..] == "Fe";
    assert "NFe"[..3] == "NFe";
    assert "NFe"[3..] == "";
  }

  /** `os.path.join(dir, name)`: an absolute `name` replaces `dir`; otherwise a
      separator is inserted unless `dir` is empty or already ends with one. */
  function Join(dir: string, name: string): string {
    if 0 < |name| && name[0] == '/' then name
    else if dir == [] || dir[|dir| - 1] == '/' then dir + name
    else dir + "/" + name
  }

  /** `os.path.basename(path)`: everything after the last '/'. */
  function Basename(path: string): (r: string)
    ensures |r| <= |path|
  {
    if path == [] || path[|path| - 1] == '/' then ""
    else Basename(path[..|path| - 1]) + [path[|path| - 1]]
  }

  lemma {:induction false} BasenameAfterSeparator(prefix: string, name: string)
    requires prefix == [] || prefix[|prefix| - 1] == '/'
    requires '/' !in name
    ensures Basename(prefix + name) == name
    decreases |name|
  {
    if name == [] {
      assert prefix + name == prefix;
    } else {
      var n := |name| - 1;
      var whole := prefix + name;
      assert whole[..|whole| - 1] == prefix + name[..n];
      assert whole[|whole| - 1] == name[n] != '/' by {
        assert name[n] in name;
      }
      assert '/' !in name[..n] by {
        assert forall c :: c in name[..n] ==> c in name;
      }
      BasenameAfterSeparator(prefix, name[..n]);
      assert name[..n] + [name[n]] == name;
    }
  }

  /** A plain file name joined to a directory comes back out of `basename`. */
  lemma BasenameOfJoin(dir: string, name: string)
    requires '/' !in name
    ensures Basename(Join(dir, name)) == name
  {
    assert 0 < |name| ==> name[0] in name;
    if dir == [] || dir[|dir| - 1] == '/' {
      BasenameAfterSeparator(dir, name);
    } else {
      assert dir + "/" + name == (dir + "/") + name;
      BasenameAfterSeparator(dir + "/", name);
    }
  }
}
