/** The world argument of the load command. An argument such as
    `nether_world_NETHER` names a world together with its dimension; the command
    recognises it with the regular expression `.+_\w+` (whole-string match) and
    cuts it at its last underscore. */
module WorldSuffix {
  import opened JavaText

  predicate NoLineTerminator(s: string) {
    forall k :: 0 <= k < |s| ==> !IsLineTerminator(s[k])
  }

  predicate AllWordChars(s: string) {
    forall k :: 0 <= k < |s| ==> IsWordChar(s[k])
  }

  /** An underscore at index i that splits `s` as `.+_\w+` requires. */
  predicate SuffixCut(s: string, i: int) {
    1 <= i < |s| - 1 && s[i] == '_' && NoLineTerminator(s[..i]) && AllWordChars(s[i + 1..])
  }

  /** A string cut as `.+_\w+` is at least three characters long, holds no
      line terminator anywhere, and has an underscore strictly inside it. */
  lemma SuffixCutShape(s: string, i: int)
    requires SuffixCut(s, i)
    ensures |s| >= 3 && NoLineTerminator(s) && '_' in s[1..|s| - 1]
  {
    forall k | 0 <= k < |s|
      ensures !IsLineTerminator(s[k])
    {
      if k < i {
        assert s[..i][k] == s[k];
      } else if k > i {
        assert s[i + 1..][k - i - 1] == s[k];
      }
    }
    assert s[1..|s| - 1][i - 1] == '_';
  }

  lemma MatchShape(s: string)
    ensures (exists i :: 1 <= i < |s| - 1 && SuffixCut(s, i)) ==>
      |s| >= 3 && NoLineTerminator(s) && '_' in s[1..|s| - 1]
  {
    if i :| 1 <= i < |s| - 1 && SuffixCut(s, i) {
      SuffixCutShape(s, i);
    }
  }

  /** Matcher.matches() for `.+_\w+`: some underscore at index i >= 1 has a
      non-empty prefix free of line terminators (the `.+`) and a non-empty tail
      of word characters (the `\w+`). */
  predicate MatchesWorldSuffix(s: string): (b: bool)
    ensures b ==> |s| >= 3 && NoLineTerminator(s) && '_' in s[1..|s| - 1]
  {
    MatchShape(s);
    exists i :: 1 <= i < |s| - 1 && SuffixCut(s, i)
  }

  /** The two halves the command extracts from a matching argument. */
  datatype WorldArgument = WorldArgument(worldName: string, dimension: string)

  /** The suffix split: the text before and after the last underscore.
      The parts join back to the argument, the dimension token holds no
      underscore, and both halves obey the pattern's character classes. */
  function SplitWorldArgument(s: string): (r: WorldArgument)
    requires MatchesWorldSuffix(s)
    ensures r.worldName + "_" + r.dimension == s
    ensures '_' !in r.dimension
    ensures |r.worldName| >= 1 && NoLineTerminator(r.worldName)
    ensures AllWordChars(r.dimension)
  {
    var j := LastIndexOf(s, '_');
    WorldArgument(s[..j], s[j + 1..])
  }

  /** The split is the only way to write a matching argument as
      name + "_" + token with an underscore-free token. */
  lemma SplitUnique(s: string, w: string, d: string)
    requires MatchesWorldSuffix(s)
    requires w + "_" + d == s && '_' !in d
    ensures SplitWorldArgument(s) == WorldArgument(w, d)
  {
    assert s[|w|] == '_';
    forall k | |w| < k < |s|
      ensures s[k] != '_'
    {
      assert s[k] == d[k - |w| - 1];
    }
    LastIndexOfIsLast(s, '_', |w|);
    assert s[..|w|] == w;
    assert s[|w| + 1..] == d;
  }

  /** Joining a world name and a dimension token, then splitting, gives both back. */
  lemma JoinThenSplit(w: string, d: string)
    requires |w| >= 1 && NoLineTerminator(w)
    requires |d| >= 1 && AllWordChars(d) && '_' !in d
    ensures MatchesWorldSuffix(w + "_" + d)
    ensures SplitWorldArgument(w + "_" + d) == WorldArgument(w, d)
  {
    var s := w + "_" + d;
    assert s[|w|] == '_';
    assert s[..|w|] == w;
    assert s[|w| + 1..] == d;
    assert SuffixCut(s, |w|);
    SplitUnique(s, w, d);
  }

  /** Because `\w` contains '_', a trailing underscore never breaks a match:
      the argument still matches and the dimension token becomes empty. */
  lemma AppendUnderscore(s: string)
    requires MatchesWorldSuffix(s)
    ensures MatchesWorldSuffix(s + "_")
    ensures SplitWorldArgument(s + "_") == WorldArgument(s, "")
  {
    var i :| 1 <= i < |s| - 1 && SuffixCut(s, i);
    var t := s + "_";
    assert t[..i] == s[..i];
    assert t[i + 1..] == s[i + 1..] + "_";
    assert t[i] == '_';
    assert SuffixCut(t, i);
    SplitUnique(t, s, "");
  }

  /** The argument used as an example of the syntax. */
  lemma NetherWorldExample()
    ensures MatchesWorldSuffix("nether_world_NETHER")
    ensures SplitWorldArgument("nether_world_NETHER") == WorldArgument("nether_world", "NETHER")
  {
    JoinThenSplit("nether_world", "NETHER");
    assert "nether_world" + "_" + "NETHER" == "nether_world_NETHER";
  }

  /** `a_b_` matches through its first underscore and yields an empty token. */
  lemma TrailingUnderscoreExample()
    ensures MatchesWorldSuffix("a_b_")
    ensures SplitWorldArgument("a_b_") == WorldArgument("a_b", "")
  {
    JoinThenSplit("a", "b");
    assert "a" + "_" + "b" == "a_b";
    AppendUnderscore("a_b");
    assert "a_b" + "_" == "a_b_";
  }
}
