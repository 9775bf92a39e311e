/** Rust's `str::replace(pattern, "")`, which the parser uses to normalise
    navigation targets. */
module Replace {

  /** `s.replace(pat, "")`: scanning left to right, every non-overlapping
      occurrence of `pat` is deleted and every other character is kept.
      The pattern is never empty where the parser uses it. */
  function RemoveAll(s: string, pat: string): (r: string)
    requires pat != []
    ensures |r| <= |s|
    ensures pat <= s ==> |r| < |s|
    decreases |s|
  {
    if pat <= s then RemoveAll(s[|pat|..], pat)
    else if s == [] then []
    else [s[0]] + RemoveAll(s[1..], pat)
  }

  /** Deleting a one-character pattern leaves no occurrence of it. */
  lemma {:induction false} RemoveAllCharLeavesNone(s: string, c: char)
    ensures c !in RemoveAll(s, [c])
    decreases |s|
  {
    if s != [] {
      RemoveAllCharLeavesNone(s[1..], c);
      if [c] <= s {
        assert RemoveAll(s, [c]) == RemoveAll(s[1..], [c]);
      } else {
        assert RemoveAll(s, [c]) == [s[0]] + RemoveAll(s[1..], [c]);
        assert s[0] != c;
      }
    }
  }

  /** Deleting a one-character pattern keeps every other character, in order. */
  lemma {:induction false} RemoveAllCharKeepsOthers(s: string, c: char)
    ensures RemoveAll(s, [c]) == Without(s, c)
    decreases |s|
  {
    if s != [] {
      RemoveAllCharKeepsOthers(s[1..], c);
      assert s == [s[0]] + s[1..];
      WithoutAppend([s[0]], s[1..], c);
    }
  }

  /** Reference definition of deleting one character: a filter. */
  function Without(s: string, c: char): (r: string)
    ensures |r| <= |s|
  {
    if s == [] then [] else Without(s[..|s| - 1], c) + (if s[|s| - 1] == c then [] else [s[|s| - 1]])
  }

  lemma {:induction false} WithoutAppend(a: string, b: string, c: char)
    ensures Without(a + b, c) == Without(a, c) + Without(b, c)
    decreases |b|
  {
    if b == [] {
      assert a + b == a;
    } else {
      var b' := b[..|b| - 1];
      assert (a + b)[..|a + b| - 1] == a + b';
      WithoutAppend(a, b', c);
    }
  }

  /** `pat` occurs in `s` starting at index `i`. */
  predicate OccursAt(s: string, pat: string, i: int) {
    0 <= i && i + |pat| <= |s| && s[i..i + |pat|] == pat
  }

  /** A string in which `pat` does not occur is left as it is. */
  lemma {:induction false} RemoveAllAbsent(s: string, pat: string)
    requires pat != []
    requires forall i :: !OccursAt(s, pat, i)
    ensures RemoveAll(s, pat) == s
    decreases |s|
  {
    if s != [] {
      assert !OccursAt(s, pat, 0);
      assert !(pat <= s) by {
        if |pat| <= |s| {
          assert s[0..|pat|] == s[..|pat|];
        }
      }
      forall i
        ensures !OccursAt(s[1..], pat, i)
      {
        assert !OccursAt(s, pat, i + 1);
        if 0 <= i && i + |pat| <= |s[1..]| {
          assert s[1..][i..i + |pat|] == s[i + 1..i + 1 + |pat|];
        }
      }
      RemoveAllAbsent(s[1..], pat);
      assert s == [s[0]] + s[1..];
    }
  }

  /** A leading occurrence of the pattern is deleted. */
  lemma RemoveAllLeading(pat: string, rest: string)
    requires pat != []
    ensures RemoveAll(pat + rest, pat) == RemoveAll(rest, pat)
  {
    assert pat <= pat + rest;
    assert (pat + rest)[|pat|..] == rest;
  }

  /** A leading stretch in which no occurrence starts is kept as it is. */
  lemma {:induction false} RemoveAllKeepsLeading(keep: string, rest: string, pat: string)
    requires pat != []
    requires forall i :: 0 <= i < |keep| ==> !OccursAt(keep + rest, pat, i)
    ensures RemoveAll(keep + rest, pat) == keep + RemoveAll(rest, pat)
    decreases |keep|
  {
    if keep != [] {
      var s := keep + rest;
      assert !OccursAt(s, pat, 0);
      assert !(pat <= s) by {
        if |pat| <= |s| {
          assert s[0..|pat|] == s[..|pat|];
        }
      }
      var tail := keep[1..] + rest;
      assert s[1..] == tail;
      assert RemoveAll(s, pat) == [s[0]] + RemoveAll(tail, pat);
      forall i | 0 <= i < |keep[1..]|
        ensures !OccursAt(tail, pat, i)
      {
        assert !OccursAt(s, pat, i + 1);
        if i + |pat| <= |tail| {
          assert s[i + 1..i + 1 + |pat|] == tail[i..i + |pat|];
        }
      }
      RemoveAllKeepsLeading(keep[1..], rest, pat);
      assert keep == [keep[0]] + keep[1..];
    } else {
      assert keep + rest == rest;
    }
  }

  /** A string without the pattern's last character holds no occurrence
      of the pattern and is left as it is. */
  lemma RemoveAllWithoutLastChar(s: string, pat: string)
    requires pat != [] && pat[|pat| - 1] !in s
    ensures RemoveAll(s, pat) == s
  {
    forall i ensures !OccursAt(s, pat, i) {
      if 0 <= i && i + |pat| <= |s| {
        assert s[i + |pat| - 1] == s[i..i + |pat|][|pat| - 1];
      }
    }
    RemoveAllAbsent(s, pat);
  }

  /** The first occurrence of the pattern is deleted and what precedes it is
      kept, when some character of the pattern, at its first position `d`
      in the pattern, does not occur in what precedes it: no occurrence can
      start earlier, since its character `d` would have to be found there. */
  lemma RemoveAllFirstOccurrence(keep: string, pat: string, rest: string, d: nat)
    requires d < |pat|
    requires pat[d] !in keep && pat[d] !in pat[..d]
    ensures RemoveAll(keep + pat + rest, pat) == keep + RemoveAll(rest, pat)
  {
    var s := keep + (pat + rest);
    assert keep + pat + rest == s;
    forall i | 0 <= i < |keep| ensures !OccursAt(s, pat, i) {
      var j := i + d;
      if i + |pat| <= |s| {
        assert s[j] == s[i..i + |pat|][d];
        if j < |keep| {
          assert s[j] == keep[j];
        } else {
          assert s[j] == pat[j - |keep|] == pat[..d][j - |keep|];
        }
      }
    }
    RemoveAllKeepsLeading(keep, pat + rest, pat);
    RemoveAllLeading(pat, rest);
  }

  /** The first position of a character that occurs in a string. */
  lemma {:induction false} FirstIndexOf(s: string, c: char) returns (d: nat)
    requires c in s
    ensures d < |s| && s[d] == c && c !in s[..d]
    decreases |s|
  {
    if s[0] == c {
      d := 0;
    } else {
      assert s == [s[0]] + s[1..];
      var d' := FirstIndexOf(s[1..], c);
      d := d' + 1;
      assert s[..d] == [s[0]] + s[1..][..d'];
    }
  }
}
