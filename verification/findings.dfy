/** Two include patterns that share their first folder, `a/x.cs` and
    `a/y.cs`, both declare the folder literal `a` at the root.  The folder
    list as written keeps both declarations, so the walk looks `a` up twice
    and would walk it, and report its files, twice. */
module DuplicateFolders {
  import opened PathSegments
  import opened Patterns
  import opened Abstractions
  import opened PatternContexts
  import opened MatcherContext

  const IncludeAX: Pattern := Linear([Literal("a"), Literal("x.cs")])
  const IncludeAY: Pattern := Linear([Literal("a"), Literal("y.cs")])

  const Tree: Dir := Dir("root", [], [Dir("a", ["x.cs", "y.cs"], [])])
  const Root: DirHandle := DirHandle([], "root")

  /** The two include contexts after entering the root. */
  function AtRoot(): (cs: seq<Context>)
    ensures AllEntered(cs) && |cs| == 2
  {
    PushFrame(NewContexts([IncludeAX, IncludeAY], Include), DirInfo(Tree, Root))
  }

  /** Both contexts expect the folder literal `a` next. */
  lemma BothDeclareFolderA()
    ensures Declared(AtRoot()) == [Declaration(Literal("a"), false), Declaration(Literal("a"), false)]
  {
    var cs := AtRoot();
    assert cs[0] == LinearContext(Include, [Literal("a"), Literal("x.cs")], [L.Frame(false, 0)]);
    assert cs[1] == LinearContext(Include, [Literal("a"), Literal("y.cs")], [L.Frame(false, 0)]);
    assert Declared(cs) == Predict(cs[0]) + Declared(cs[1..]);
    assert Declared(cs[1..]) == Predict(cs[1]) + Declared(cs[2..]);
  }

  /** As written, the folder `a` is listed twice and looked up twice. */
  lemma AsWrittenLooksUpFolderTwice()
    ensures DeclareAllAsWritten(Cleared, Declared(AtRoot())).literalFolders == ["a", "a"]
    ensures var a := DirEntry(GetDirectory(Root, "a"));
            Candidates(Tree, Root, DeclareAllAsWritten(Cleared, Declared(AtRoot()))) == [a, a]
  {
    BothDeclareFolderA();
  }

  /** With repeats dropped, the folder `a` is listed once and looked up once. */
  lemma CorrectedLooksUpFolderOnce()
    ensures DeclareAll(Cleared, Declared(AtRoot())).literalFolders == ["a"]
    ensures Candidates(Tree, Root, DeclareAll(Cleared, Declared(AtRoot()))) == [DirEntry(GetDirectory(Root, "a"))]
  {
    BothDeclareFolderA();
  }
}
