/** Concrete runs of ragged pattern contexts, directory by directory, on the
    patterns and trees of the library's own examples.  Each directory is
    entered with its real ancestors, nearest first, as the walk supplies
    them; the traversal root is called `files`. */
module RaggedVectors {
  import opened PathSegments
  import opened Patterns
  import opened Abstractions
  import opened PatternContextRagged

  // `/a/b/**/c/d`: a leading run, no contains group, a trailing run.
  const AbThenCd: RaggedPattern := RaggedPattern([Literal("a"), Literal("b")], [], [Literal("c"), Literal("d")])

  // `**/x/**`: one contains group and nothing else.
  const AroundX: RaggedPattern := RaggedPattern([], [[Literal("x")]], [])

  // `a/b/**/1/2/**/2/3/**`: two contains groups that must follow each other.
  const Sequential: RaggedPattern :=
    RaggedPattern([Literal("a"), Literal("b")], [[Literal("1"), Literal("2")], [Literal("2"), Literal("3")]], [])

  // `one/**/*.cs`: a leading run and a trailing run.
  const OneThenCs: RaggedPattern := RaggedPattern([Literal("one")], [], [Wildcard("", [], ".cs")])

  /** The leading run is predicted segment by segment; past it, in any
      directory, the match-all wildcard is. */
  lemma AbThenCdPredicts()
    ensures var s0 := PushDirectory(AbThenCd, [], Info("root", []));
            var s1 := PushDirectory(AbThenCd, s0, Info("a", ["root"]));
            var s2 := PushDirectory(AbThenCd, s1, Info("b", ["a", "root"]));
            var s3 := PushDirectory(AbThenCd, s2, Info("whatever", ["b", "a", "root"]));
            var s4 := PushDirectory(AbThenCd, s3, Info("anything", ["whatever", "b", "a", "root"]));
            && Predict(AbThenCd, s0) == [Declaration(Literal("a"), false)]
            && Predict(AbThenCd, s1) == [Declaration(Literal("b"), false)]
            && Predict(AbThenCd, s2) == [Declaration(MatchAll, false)]
            && Predict(AbThenCd, s3) == [Declaration(MatchAll, false)]
            && Predict(AbThenCd, s4) == [Declaration(MatchAll, false)]
  {
  }

  /** A directory that leaves the leading run silences the context. */
  lemma AbThenCdMismatch()
    ensures var s0 := PushDirectory(AbThenCd, [], Info("root", []));
            && Predict(AbThenCd, PushDirectory(AbThenCd, s0, Info("b", ["root"]))) == []
            && Predict(AbThenCd, PushDirectory(AbThenCd, PushDirectory(AbThenCd, s0, Info("a", ["root"])),
                                               Info("c", ["a", "root"]))) == []
  {
  }

  // Including `**/x/**` over `x/1`, `1/x/2`, `1/x`, `x`, `1`, `1/2` accepts
  // exactly `x/1` and `1/x/2`: a file counts only below a directory named
  // `x`, at any depth.
  lemma AroundXIncludes()
    ensures var s0 := PushDirectory(AroundX, [], Info("files", []));
            var sx := PushDirectory(AroundX, s0, Info("x", ["files"]));
            var s1 := PushDirectory(AroundX, s0, Info("1", ["files"]));
            var s1x := PushDirectory(AroundX, s1, Info("x", ["1", "files"]));
            && IncludeTestDirectory(AroundX, s0, Info("x", ["files"]))
            && IncludeTestDirectory(AroundX, s0, Info("1", ["files"]))
            && !IncludeTestFile(AroundX, s0, Info("x", ["files"]))
            && !IncludeTestFile(AroundX, s0, Info("1", ["files"]))
            && IncludeTestFile(AroundX, sx, Info("1", ["x", "files"]))
            && !IncludeTestFile(AroundX, s1, Info("x", ["1", "files"]))
            && !IncludeTestFile(AroundX, s1, Info("2", ["1", "files"]))
            && IncludeTestFile(AroundX, s1x, Info("2", ["x", "1", "files"]))
  {
    var s0 := PushDirectory(AroundX, [], Info("files", []));
    assert Top(s0) == Frame(false, 0, 0, 0);
    assert GroupMatchesEnd([Literal("x")], ["x"] + ["files"]);
    assert GroupMatchesEnd([Literal("x")], ["x"] + ["1", "files"]);
    MismatchAt([Literal("x")], Info("1", ["files"]), 0);
    var s1 := PushDirectory(AroundX, s0, Info("1", ["files"]));
    assert Top(s1) == Frame(false, 0, 0, 1);
  }

  // Excluding `**/x/**` over the same tree vetoes the directories named `x`,
  // with everything below them, and no file: `1/x`, `x`, `1` and `1/2` stay.
  lemma AroundXExcludes()
    ensures var s0 := PushDirectory(AroundX, [], Info("files", []));
            var s1 := PushDirectory(AroundX, s0, Info("1", ["files"]));
            && ExcludeTestDirectory(AroundX, s0, Info("x", ["files"]))
            && !ExcludeTestDirectory(AroundX, s0, Info("1", ["files"]))
            && ExcludeTestDirectory(AroundX, s1, Info("x", ["1", "files"]))
            && !ExcludeTestFile(AroundX, s0, Info("x", ["files"]))
            && !ExcludeTestFile(AroundX, s0, Info("1", ["files"]))
            && !ExcludeTestFile(AroundX, s1, Info("x", ["1", "files"]))
            && !ExcludeTestFile(AroundX, s1, Info("2", ["1", "files"]))
  {
    var s0 := PushDirectory(AroundX, [], Info("files", []));
    assert Top(s0) == Frame(false, 0, 0, 0);
    assert GroupMatchesEnd([Literal("x")], ["x"] + ["files"]);
    assert GroupMatchesEnd([Literal("x")], ["x"] + ["1", "files"]);
    MismatchAt([Literal("x")], Info("1", ["files"]), 0);
    var s1 := PushDirectory(AroundX, s0, Info("1", ["files"]));
    assert Top(s1) == Frame(false, 0, 0, 1);
  }

  /** A group does not match an entry whose `k`-th name, nearest first (the
      entry's own name, then its ancestors'), its segment rejects. */
  lemma MismatchAt(group: seq<Segment>, entry: Info, k: nat)
    requires k < |group| && k <= |entry.lineage|
    requires !Matches(group[|group| - 1 - k], if k == 0 then entry.name else entry.lineage[k - 1])
    ensures !GroupMatchesEnd(group, [entry.name] + entry.lineage)
  {
    assert ([entry.name] + entry.lineage)[k] == if k == 0 then entry.name else entry.lineage[k - 1];
  }

  /** The frame after `files/a/b`. */
  function SequentialAtB(): (r: seq<Frame>)
    ensures Top(r) == Frame(false, 0, 0, 0)
  {
    var s0 := PushDirectory(Sequential, [], Info("files", []));
    var s1 := PushDirectory(Sequential, s0, Info("a", ["files"]));
    PushDirectory(Sequential, s1, Info("b", ["a", "files"]))
  }

  /** `a/b/1/2/2/3/x` is accepted: `1/2`, then `2/3` right after it. */
  lemma SequentialAcceptsAdjacentGroups()
    ensures var s3 := PushDirectory(Sequential, SequentialAtB(), Info("1", ["b", "a", "files"]));
            var s4 := PushDirectory(Sequential, s3, Info("2", ["1", "b", "a", "files"]));
            var s5 := PushDirectory(Sequential, s4, Info("2", ["2", "1", "b", "a", "files"]));
            var s6 := PushDirectory(Sequential, s5, Info("3", ["2", "2", "1", "b", "a", "files"]));
            IncludeTestFile(Sequential, s6, Info("x", ["3", "2", "2", "1", "b", "a", "files"]))
  {
  }

  /** `a/b/1/2/3/y` is not: the `2` that completes `1/2` cannot start `2/3`. */
  lemma SequentialRejectsSharedFolder()
    ensures var s3 := PushDirectory(Sequential, SequentialAtB(), Info("1", ["b", "a", "files"]));
            var s4 := PushDirectory(Sequential, s3, Info("2", ["1", "b", "a", "files"]));
            var s5 := PushDirectory(Sequential, s4, Info("3", ["2", "1", "b", "a", "files"]));
            !IncludeTestFile(Sequential, s5, Info("y", ["3", "2", "1", "b", "a", "files"]))
  {
  }

  /** `a/b/a/1/2/4/2/3/b` is accepted: the groups may be separated by other
      directories. */
  lemma SequentialAcceptsSpreadGroups()
    ensures var s3 := PushDirectory(Sequential, SequentialAtB(), Info("a", ["b", "a", "files"]));
            var s4 := PushDirectory(Sequential, s3, Info("1", ["a", "b", "a", "files"]));
            var s5 := PushDirectory(Sequential, s4, Info("2", ["1", "a", "b", "a", "files"]));
            var s6 := PushDirectory(Sequential, s5, Info("4", ["2", "1", "a", "b", "a", "files"]));
            var s7 := PushDirectory(Sequential, s6, Info("2", ["4", "2", "1", "a", "b", "a", "files"]));
            var s8 := PushDirectory(Sequential, s7, Info("3", ["2", "4", "2", "1", "a", "b", "a", "files"]));
            IncludeTestFile(Sequential, s8, Info("b", ["3", "2", "4", "2", "1", "a", "b", "a", "files"]))
  {
  }

  /** `a/b/a/2/3/1/2/b` is not: the groups must come in pattern order. */
  lemma SequentialRejectsSwappedGroups()
    ensures var s3 := PushDirectory(Sequential, SequentialAtB(), Info("a", ["b", "a", "files"]));
            var s4 := PushDirectory(Sequential, s3, Info("2", ["a", "b", "a", "files"]));
            var s5 := PushDirectory(Sequential, s4, Info("3", ["2", "a", "b", "a", "files"]));
            var s6 := PushDirectory(Sequential, s5, Info("1", ["3", "2", "a", "b", "a", "files"]));
            var s7 := PushDirectory(Sequential, s6, Info("2", ["1", "3", "2", "a", "b", "a", "files"]));
            !IncludeTestFile(Sequential, s7, Info("b", ["2", "1", "3", "2", "a", "b", "a", "files"]))
  {
    var g := [Literal("1"), Literal("2")];
    MismatchAt(g, Info("a", ["b", "a", "files"]), 0);
    MismatchAt(g, Info("2", ["a", "b", "a", "files"]), 1);
    MismatchAt(g, Info("3", ["2", "a", "b", "a", "files"]), 0);
    MismatchAt(g, Info("1", ["3", "2", "a", "b", "a", "files"]), 0);
    var s3 := PushDirectory(Sequential, SequentialAtB(), Info("a", ["b", "a", "files"]));
    assert Top(s3) == Frame(false, 0, 0, 1);
    var s4 := PushDirectory(Sequential, s3, Info("2", ["a", "b", "a", "files"]));
    assert Top(s4) == Frame(false, 0, 0, 2);
    var s5 := PushDirectory(Sequential, s4, Info("3", ["2", "a", "b", "a", "files"]));
    assert Top(s5) == Frame(false, 0, 0, 3);
    var s6 := PushDirectory(Sequential, s5, Info("1", ["3", "2", "a", "b", "a", "files"]));
    assert Top(s6) == Frame(false, 0, 0, 4);
    var s7 := PushDirectory(Sequential, s6, Info("2", ["1", "3", "2", "a", "b", "a", "files"]));
    assert Top(s7).segmentGroupIndex == 1;
  }

  /** `1/2/2/3/x` is not: the leading `a/b` is missing, so the context gives up
      at the first directory. */
  lemma SequentialNeedsLeadingRun()
    ensures var s0 := PushDirectory(Sequential, [], Info("files", []));
            && !IncludeTestDirectory(Sequential, s0, Info("1", ["files"]))
            && Top(PushDirectory(Sequential, s0, Info("1", ["files"]))).isNotApplicable
  {
  }

  // `one/**/*.cs` accepts `one/x.cs` and `one/two/x.cs`, and not `x.cs` or
  // `one/x.txt`; the root directory `two` is not entered.
  lemma OneThenCsMatches()
    ensures var s0 := PushDirectory(OneThenCs, [], Info("files", []));
            var sOne := PushDirectory(OneThenCs, s0, Info("one", ["files"]));
            var sTwo := PushDirectory(OneThenCs, sOne, Info("two", ["one", "files"]));
            && !IncludeTestFile(OneThenCs, s0, Info("x.cs", ["files"]))
            && IncludeTestDirectory(OneThenCs, s0, Info("one", ["files"]))
            && !IncludeTestDirectory(OneThenCs, s0, Info("two", ["files"]))
            && IncludeTestFile(OneThenCs, sOne, Info("x.cs", ["one", "files"]))
            && !IncludeTestFile(OneThenCs, sOne, Info("x.txt", ["one", "files"]))
            && IncludeTestFile(OneThenCs, sTwo, Info("x.cs", ["two", "one", "files"]))
  {
    var cs := Wildcard("", [], ".cs");
    assert Matches(cs, "x.cs") by { assert "x.cs"[1..] == ".cs"; }
    assert !Matches(cs, "x.txt") by { assert "x.txt"[2..] != ".cs" by { assert "x.txt"[2..][0] == 't'; } }
    var s0 := PushDirectory(OneThenCs, [], Info("files", []));
    assert Top(s0) == Frame(false, -1, 0, 0);
    var sOne := PushDirectory(OneThenCs, s0, Info("one", ["files"]));
    assert Top(sOne) == Frame(false, 0, 0, 0);
    assert IncludeTestDirectory(OneThenCs, s0, Info("one", ["files"]));
    assert !IncludeTestDirectory(OneThenCs, s0, Info("two", ["files"]));
    assert IncludeTestFile(OneThenCs, sOne, Info("x.cs", ["one", "files"]));
    MismatchAt([cs], Info("x.txt", ["one", "files"]), 0);
    var sTwo := PushDirectory(OneThenCs, sOne, Info("two", ["one", "files"]));
    assert Top(sTwo) == Frame(false, 0, 0, 1);
    assert GroupMatchesEnd([cs], ["x.cs"] + ["one", "files"]);
    assert GroupMatchesEnd([cs], ["x.cs"] + ["two", "one", "files"]);
  }
}
