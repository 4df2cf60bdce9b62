/**
  The parts of Python's `str` that the prompt template engine relies on:
  `split` with a non-empty separator, `strip` with a set of characters and
  `replace`, each as a recursive function over `seq<char>`, with `Join`
  (`sep.join(parts)`) as the reference they are proved against.
 */
module PyStr {

  /** `pat` occurs in `s` at index `i`. */
  predicate OccursAt(s: string, pat: string, i: nat) {
    i + |pat| <= |s| && s[i..i + |pat|] == pat
  }

  /** `pat in s`, Python's substring test. */
  predicate Contains(s: string, pat: string) {
    exists i: nat | i <= |s| :: OccursAt(s, pat, i)
  }

  /** `sep.join(parts)`. */
  function Join(parts: seq<string>, sep: string): string
    requires |parts| >= 1
    decreases |parts|
  {
    if |parts| == 1 then parts[0] else parts[0] + sep + Join(parts[1..], sep)
  }

  /**
    `s.split(sep)`: cut at the leftmost occurrence of `sep`, then go on after it.
    The first piece is always a prefix of `s`.
   */
  function Split(s: string, sep: string): (parts: seq<string>)
    requires |sep| > 0
    ensures |parts| >= 1 && parts[0] <= s
    decreases |s|
  {
    if |s| < |sep| then [s]
    else if s[..|sep|] == sep then [""] + Split(s[|sep|..], sep)
    else
      var rest := Split(s[1..], sep);
      [[s[0]] + rest[0]] + rest[1..]
  }

  /**
    `s.replace(pat, rep)`: every non-overlapping occurrence, left to right.
    Replacing a pattern by itself gives back the string.
   */
  function ReplaceAll(s: string, pat: string, rep: string): (r: string)
    requires |pat| > 0
    ensures rep == pat ==> r == s
    decreases |s|
  {
    if |s| < |pat| then s
    else if s[..|pat|] == pat then rep + ReplaceAll(s[|pat|..], pat, rep)
    else [s[0]] + ReplaceAll(s[1..], pat, rep)
  }

  /** `s.lstrip(cs)`: the longest suffix of `s` that does not start with a character of `cs`. */
  function LStrip(s: string, cs: set<char>): (r: string)
    ensures |r| <= |s| && r == s[|s| - |r|..]
    ensures forall k :: 0 <= k < |s| - |r| ==> s[k] in cs
    ensures r != [] ==> r[0] !in cs
    decreases |s|
  {
    if |s| > 0 && s[0] in cs then LStrip(s[1..], cs) else s
  }

  /** `s.rstrip(cs)`: the longest prefix of `s` that does not end with a character of `cs`. */
  function RStrip(s: string, cs: set<char>): (r: string)
    ensures |r| <= |s| && r == s[..|r|]
    ensures forall k :: |r| <= k < |s| ==> s[k] in cs
    ensures r != [] ==> r[|r| - 1] !in cs
    decreases |s|
  {
    if |s| > 0 && s[|s| - 1] in cs then RStrip(s[..|s| - 1], cs) else s
  }

  /** How many characters `s.lstrip(cs)` removes. */
  function Lead(s: string, cs: set<char>): (n: nat)
    ensures n <= |s| && forall k :: 0 <= k < n ==> s[k] in cs
  {
    |s| - |LStrip(s, cs)|
  }

  /**
    `s.strip(cs)`: the part of `s` left after removing characters of `cs` from
    both ends. It is the substring of `s` that starts after the leading run of
    characters of `cs`, it is followed only by characters of `cs`, and it
    neither starts nor ends with one.
   */
  function Strip(s: string, cs: set<char>): (r: string)
    ensures Lead(s, cs) + |r| <= |s| && r == s[Lead(s, cs)..Lead(s, cs) + |r|]
    ensures forall k :: Lead(s, cs) + |r| <= k < |s| ==> s[k] in cs
    ensures r != [] ==> r[0] !in cs && r[|r| - 1] !in cs
  {
    var l := LStrip(s, cs);
    var r := RStrip(l, cs);
    PrefixOfSuffix(s, l, r, cs);
    r
  }

  /** A prefix `r` of a suffix `l` of `s`, where `l` goes on past `r` only with characters of `cs`. */
  lemma PrefixOfSuffix(s: string, l: string, r: string, cs: set<char>)
    requires |l| <= |s| && l == s[|s| - |l|..]
    requires |r| <= |l| && r == l[..|r|]
    requires forall k :: |r| <= k < |l| ==> l[k] in cs
    ensures var i := |s| - |l|;
            && r == s[i..i + |r|]
            && (forall k :: i + |r| <= k < |s| ==> s[k] in cs)
            && (r != [] ==> r[0] == l[0])
  {
    var i := |s| - |l|;
    forall k | i + |r| <= k < |s| ensures s[k] in cs {
      assert s[k] == l[k - i];
    }
  }

  /** Every character of `s.strip(cs)` is a character of `s`. */
  lemma StripWithin(s: string, cs: set<char>)
    ensures forall c :: c in Strip(s, cs) ==> c in s
  {
    var r := Strip(s, cs);
    var i := Lead(s, cs);
    forall j | 0 <= j < |r| ensures r[j] in s {
      assert r[j] == s[i + j];
    }
  }

  /** The pieces of a split never contain the separator. */
  lemma {:induction false} SplitPiecesFree(s: string, sep: string)
    requires |sep| > 0
    ensures forall k :: 0 <= k < |Split(s, sep)| ==> !Contains(Split(s, sep)[k], sep)
    decreases |s|
  {
    var parts := Split(s, sep);
    if |s| < |sep| {
    } else if s[..|sep|] == sep {
      SplitPiecesFree(s[|sep|..], sep);
      forall k | 1 <= k < |parts| ensures !Contains(parts[k], sep) {
        assert parts[k] == Split(s[|sep|..], sep)[k - 1];
      }
    } else {
      var rest := Split(s[1..], sep);
      SplitPiecesFree(s[1..], sep);
      var first := [s[0]] + rest[0];
      assert first <= s;
      forall i: nat | i <= |first| ensures !OccursAt(first, sep, i) {
        if i == 0 {
          if |sep| <= |first| {
            assert first[..|sep|] == s[..|sep|];
          }
        } else if i + |sep| <= |first| {
          assert first[i..i + |sep|] == rest[0][i - 1..i - 1 + |sep|];
          assert !OccursAt(rest[0], sep, i - 1);
        }
      }
      forall k | 1 <= k < |parts| ensures !Contains(parts[k], sep) {
        assert parts[k] == rest[k];
      }
    }
  }

  /**
    The first cut of `s.split(sep)` is at the leftmost occurrence of `sep`:
    `sep` occurs right after the first piece and nowhere that starts inside it.
   */
  lemma {:induction false} SplitFirstCut(s: string, sep: string)
    requires |sep| > 0 && |Split(s, sep)| > 1
    ensures OccursAt(s, sep, |Split(s, sep)[0]|)
    ensures forall i: nat :: i < |Split(s, sep)[0]| ==> !OccursAt(s, sep, i)
    decreases |s|
  {
    if s[..|sep|] != sep {
      var rest := Split(s[1..], sep);
      SplitFirstCut(s[1..], sep);
      var n := |rest[0]|;
      ShiftSlice(s, n + 1, |sep|);
      NoCutBefore(s, sep, n);
    }
  }

  /** No occurrence starts before `n + 1` in `s` when none starts at 0 and none before `n` in `s[1..]`. */
  lemma NoCutBefore(s: string, sep: string, n: nat)
    requires |sep| <= |s| && s[..|sep|] != sep
    requires forall i: nat :: i < n ==> !OccursAt(s[1..], sep, i)
    ensures forall i: nat :: i < n + 1 ==> !OccursAt(s, sep, i)
  {
    forall i: nat | i < n + 1 ensures !OccursAt(s, sep, i) {
      if i == 0 {
        assert s[0..|sep|] == s[..|sep|];
      } else if i + |sep| <= |s| {
        ShiftSlice(s, i, |sep|);
        assert !OccursAt(s[1..], sep, i - 1);
      }
    }
  }

  /**
    After the first cut, `s.split(sep)` goes on by splitting the rest of `s`
    behind that occurrence, so every cut is at the leftmost occurrence that
    follows the previous one.
   */
  lemma {:induction false} SplitRest(s: string, sep: string)
    requires |sep| > 0 && |Split(s, sep)| > 1
    ensures |Split(s, sep)[0]| + |sep| <= |s|
    ensures Split(s, sep)[1..] == Split(s[|Split(s, sep)[0]| + |sep|..], sep)
    decreases |s|
  {
    if s[..|sep|] == sep {
      assert ([""] + Split(s[|sep|..], sep))[1..] == Split(s[|sep|..], sep);
    } else {
      var rest := Split(s[1..], sep);
      SplitRest(s[1..], sep);
      var n := |rest[0]|;
      assert s[1..][n + |sep|..] == s[n + 1 + |sep|..];
      assert ([[s[0]] + rest[0]] + rest[1..])[1..] == rest[1..];
    }
  }

  lemma ShiftSlice(s: string, i: nat, m: nat)
    requires 1 <= i && i + m <= |s|
    ensures s[i..i + m] == s[1..][i - 1..i - 1 + m]
  {
  }

  lemma JoinPrepend(c: string, parts: seq<string>, sep: string)
    requires |parts| >= 1
    ensures Join([c + parts[0]] + parts[1..], sep) == c + Join(parts, sep)
  {
    var xs := [c + parts[0]] + parts[1..];
    if |parts| > 1 {
      assert xs[1..] == parts[1..];
    }
  }

  /** Joining the pieces of a split with the same separator gives back the string. */
  lemma {:induction false} SplitJoin(s: string, sep: string)
    requires |sep| > 0
    ensures Join(Split(s, sep), sep) == s
    decreases |s|
  {
    if |s| < |sep| {
    } else if s[..|sep|] == sep {
      SplitJoin(s[|sep|..], sep);
      var rest := Split(s[|sep|..], sep);
      assert ([""] + rest)[1..] == rest;
      assert Join([""] + rest, sep) == "" + sep + Join(rest, sep);
      assert s == sep + s[|sep|..];
    } else {
      var rest := Split(s[1..], sep);
      SplitJoin(s[1..], sep);
      JoinPrepend([s[0]], rest, sep);
      assert Split(s, sep) == [[s[0]] + rest[0]] + rest[1..];
      assert s == [s[0]] + s[1..];
    }
  }

  /** `s.split(sep)` has more than one piece exactly when `sep in s`. */
  lemma SplitSingleIff(s: string, sep: string)
    requires |sep| > 0
    ensures |Split(s, sep)| == 1 <==> !Contains(s, sep)
  {
    var parts := Split(s, sep);
    SplitJoin(s, sep);
    SplitPiecesFree(s, sep);
    if |parts| > 1 {
      assert s == parts[0] + sep + Join(parts[1..], sep);
      assert OccursAt(s, sep, |parts[0]|);
    }
  }

  /** A string that does not contain the separator splits into itself alone. */
  lemma SplitAbsent(s: string, sep: string)
    requires |sep| > 0 && !Contains(s, sep)
    ensures Split(s, sep) == [s]
  {
    SplitSingleIff(s, sep);
    SplitJoin(s, sep);
  }

  /** `s.replace(pat, rep)` is `rep.join(s.split(pat))`. */
  lemma {:induction false} ReplaceAllIsJoinSplit(s: string, pat: string, rep: string)
    requires |pat| > 0
    ensures ReplaceAll(s, pat, rep) == Join(Split(s, pat), rep)
    decreases |s|
  {
    if |s| < |pat| {
    } else if s[..|pat|] == pat {
      ReplaceAllIsJoinSplit(s[|pat|..], pat, rep);
      var rest := Split(s[|pat|..], pat);
      assert ([""] + rest)[1..] == rest;
    } else {
      ReplaceAllIsJoinSplit(s[1..], pat, rep);
      JoinPrepend([s[0]], Split(s[1..], pat), rep);
    }
  }

  /** Replacing a pattern that does not occur leaves the string unchanged. */
  lemma ReplaceAllAbsent(s: string, pat: string, rep: string)
    requires |pat| > 0 && !Contains(s, pat)
    ensures ReplaceAll(s, pat, rep) == s
  {
    ReplaceAllIsJoinSplit(s, pat, rep);
    SplitAbsent(s, pat);
  }

  /** A string without the first character of `pat` cannot contain `pat`. */
  lemma AbsentFirstChar(s: string, pat: string)
    requires |pat| > 0 && pat[0] !in s
    ensures !Contains(s, pat)
  {
  }
}
