/** Whole runs over small trees, as the matcher's own scenarios describe
    them.  Each run is followed directory by directory: the entries offered,
    the files kept and the subdirectories entered. */
module Scenarios {
  import opened Wrappers
  import opened PathSegments
  import opened Patterns
  import opened Abstractions
  import opened PatternContexts
  import opened MatcherContext
  import opened MatcherWalk

  // ---------------------------------------------------------------------
  // Include `*/*.txt`, exclude `one/hello.txt`: an exclude naming a file
  // that is not there removes nothing.
  // ---------------------------------------------------------------------

  const StarSlashTxt: seq<Segment> := [MatchAll, Wildcard("", [], ".txt")]
  const OneHello: seq<Segment> := [Literal("one"), Literal("hello.txt")]

  const Files: Dir := Dir("files", [], [Dir("one", ["x.txt"], []), Dir("two", ["x.txt"], [])])
  const FilesRoot: DirHandle := DirHandle([], "files")

  const TxtIncludes: seq<Context> := [LinearContext(Include, StarSlashTxt, [])]
  const HelloExcludes: seq<Context> := [LinearContext(Exclude, OneHello, [])]

  /** The declarations of two entered contexts, in order. */
  lemma DeclaredTwo(a: Context, b: Context)
    requires Depth(a) > 0 && Depth(b) > 0
    ensures Declared([a, b]) == Predict(a) + Predict(b)
  {
    assert [a, b][1..] == [b];
    assert Declared([b]) == Predict(b) + Declared([]);
  }

  /** At the root each context holds one fresh frame. */
  lemma TxtRootPushed()
    ensures PushFrame(TxtIncludes, DirInfo(Files, FilesRoot)) == [LinearContext(Include, StarSlashTxt, [L.Frame(false, 0)])]
    ensures PushFrame(HelloExcludes, DirInfo(Files, FilesRoot)) == [LinearContext(Exclude, OneHello, [L.Frame(false, 0)])]
  {
  }

  /** At the root the include asks for any folder and the exclude for
      nothing. */
  lemma TxtRootDeclarations()
    ensures var v := Enter(Files, FilesRoot, TxtIncludes, HelloExcludes);
            v.includes == [LinearContext(Include, StarSlashTxt, [L.Frame(false, 0)])] &&
            v.excludes == [LinearContext(Exclude, OneHello, [L.Frame(false, 0)])] &&
            Declared(v.includes + v.excludes) == [Declaration(MatchAll, false)]
  {
    var a := LinearContext(Include, StarSlashTxt, [L.Frame(false, 0)]);
    var b := LinearContext(Exclude, OneHello, [L.Frame(false, 0)]);
    TxtRootPushed();
    DeclaredTwo(a, b);
    assert [a] + [b] == [a, b];
  }

  /** Recording a single declaration. */
  lemma DeclareOne(d: Declaration)
    ensures DeclareAll(Cleared, [d]) == DeclareInclude(Cleared, d)
  {
    assert [d][1..] == [];
  }

  lemma FilesRootListing()
    ensures Enumerate(Files, FilesRoot) == [DirEntry(DirHandle(["one"], "one")), DirEntry(DirHandle(["two"], "two"))]
  {
    assert Lookup(Files, []) == Some(Files);
    assert FileEntries(Files, FilesRoot, []) == [];
    assert GetDirectory(FilesRoot, "one") == DirHandle(["one"], "one");
    assert GetDirectory(FilesRoot, "two") == DirHandle(["two"], "two");
    assert DirEntries(FilesRoot, Files.dirs) == [DirEntry(GetDirectory(FilesRoot, "one")), DirEntry(GetDirectory(FilesRoot, "two"))];
  }

  /** A directory's entries are the candidates for what its contexts
      declare once entered. */
  lemma EntriesFromDeclared(fs: Dir, h: DirHandle, includes: seq<Context>, excludes: seq<Context>,
                            decls: seq<Declaration>)
    requires Declared(Enter(fs, h, includes, excludes).includes + Enter(fs, h, includes, excludes).excludes) == decls
    ensures Enter(fs, h, includes, excludes).entries == Candidates(fs, h, DeclareAll(Cleared, decls))
  {
  }

  /** What a directory reports and descends into, from its visit. */
  lemma ResultsFromVisit(fs: Dir, h: DirHandle, parent: Option<string>, includes: seq<Context>, excludes: seq<Context>,
                         inc: seq<Context>, exc: seq<Context>, entries: seq<Entry>)
    requires Enter(fs, h, includes, excludes) == Visit(inc, exc, entries)
    ensures AllEntered(inc) && AllEntered(exc)
    ensures Subdirectories(fs, h, includes, excludes) == AcceptedDirs(fs, entries, inc, exc)
    ensures OwnFiles(fs, h, parent, includes, excludes) == MatchedFiles(fs, entries, parent, inc, exc)
  {
  }

  /** A single wildcard declaration asks for a full listing and nothing else. */
  lemma WildcardDeclaration(d: Declaration)
    requires d.segment.Wildcard?
    ensures DeclareAll(Cleared, [d]) == Declarations([], [], false, true)
  {
    DeclareOne(d);
  }

  lemma RootCandidates()
    ensures Candidates(Files, FilesRoot, Declarations([], [], false, true)) ==
            [DirEntry(DirHandle(["one"], "one")), DirEntry(DirHandle(["two"], "two"))]
  {
    FilesRootListing();
    assert Candidates(Files, FilesRoot, Declarations([], [], false, true)) == Enumerate(Files, FilesRoot) + [];
  }

  /** So the root is listed in full. */
  lemma TxtAtRoot()
    ensures var v := Enter(Files, FilesRoot, TxtIncludes, HelloExcludes);
            v.entries == [DirEntry(DirHandle(["one"], "one")), DirEntry(DirHandle(["two"], "two"))]
  {
    TxtRootDeclarations();
    EntriesFromDeclared(Files, FilesRoot, TxtIncludes, HelloExcludes, [Declaration(MatchAll, false)]);
    WildcardDeclaration(Declaration(MatchAll, false));
    RootCandidates();
  }

  /** The directory entries among two that the contexts keep, in order. */
  lemma AcceptedOfTwo(fs: Dir, e1: Entry, e2: Entry, includes: seq<Context>, excludes: seq<Context>)
    requires AllEntered(includes) && AllEntered(excludes)
    ensures AcceptedDirs(fs, [e1, e2], includes, excludes) ==
            (if e1.DirEntry? && MatchPatternContexts(fs, includes, excludes, e1) then [e1.handle] else []) +
            (if e2.DirEntry? && MatchPatternContexts(fs, includes, excludes, e2) then [e2.handle] else [])
  {
    assert [e1, e2][1..] == [e2];
    assert [e2][1..] == [];
  }

  /** The file paths kept from a single entry. */
  lemma MatchedOfOne(fs: Dir, e: Entry, parent: Option<string>, includes: seq<Context>, excludes: seq<Context>)
    requires AllEntered(includes) && AllEntered(excludes)
    ensures MatchedFiles(fs, [e], parent, includes, excludes) ==
            (if e.FileEntry? && MatchPatternContexts(fs, includes, excludes, e)
             then [CombinePath(parent, e.info.name)] else [])
    ensures AcceptedDirs(fs, [e], includes, excludes) ==
            (if e.DirEntry? && MatchPatternContexts(fs, includes, excludes, e) then [e.handle] else [])
  {
    assert [e][1..] == [];
  }

  /** The single include keeps a directory entry and the single exclude lets
      it through. */
  lemma KeptByOne(fs: Dir, a: Context, b: Context, e: Entry)
    requires Depth(a) > 0 && Depth(b) > 0
    requires TestEntry(fs, a, e) && !TestEntry(fs, b, e)
    ensures MatchPatternContexts(fs, [a], [b], e)
  {
    assert [a][0] == a;
  }

  /** Directory entries alone give no file paths. */
  lemma {:induction false} NoFilesFromDirectories(fs: Dir, entries: seq<Entry>, parent: Option<string>,
                                                  includes: seq<Context>, excludes: seq<Context>)
    requires AllEntered(includes) && AllEntered(excludes)
    requires forall i :: 0 <= i < |entries| ==> entries[i].DirEntry?
    ensures MatchedFiles(fs, entries, parent, includes, excludes) == []
    decreases |entries|
  {
    if |entries| > 0 {
      NoFilesFromDirectories(fs, entries[1..], parent, includes, excludes);
    }
  }

  /** Entering a directory with a single context. */
  lemma PushFrameOne(c: Context, dir: Info)
    ensures PushFrame([c], dir) == [Push(c, dir)]
  {
    assert [c][1..] == [];
  }

  /** The include accepts any folder name at its first segment; the exclude
      vetoes directories at its last segment only. */
  lemma TxtRootTests(name: string)
    ensures var e := DirEntry(DirHandle([name], name));
            name != ".." ==>
            TestEntry(Files, LinearContext(Include, StarSlashTxt, [L.Frame(false, 0)]), e) &&
            !TestEntry(Files, LinearContext(Exclude, OneHello, [L.Frame(false, 0)]), e)
  {
    MatchAllMatchesEverything(name);
  }

  /** The root's visit: both contexts one level in, both folders offered. */
  lemma TxtRootVisit()
    ensures Enter(Files, FilesRoot, TxtIncludes, HelloExcludes) ==
            Visit(TxtInRoot, HelloInRoot, [DirEntry(DirHandle(["one"], "one")), DirEntry(DirHandle(["two"], "two"))])
  {
    TxtRootDeclarations();
    TxtAtRoot();
  }

  /** Two kept directory entries are both accepted, in order. */
  lemma AcceptsTwo(fs: Dir, d1: DirHandle, d2: DirHandle, includes: seq<Context>, excludes: seq<Context>)
    requires AllEntered(includes) && AllEntered(excludes)
    requires MatchPatternContexts(fs, includes, excludes, DirEntry(d1))
    requires MatchPatternContexts(fs, includes, excludes, DirEntry(d2))
    ensures AcceptedDirs(fs, [DirEntry(d1), DirEntry(d2)], includes, excludes) == [d1, d2]
  {
    AcceptedOfTwo(fs, DirEntry(d1), DirEntry(d2), includes, excludes);
  }

  /** Both folders are entered. */
  lemma TxtRootSubdirectories()
    ensures Subdirectories(Files, FilesRoot, TxtIncludes, HelloExcludes) ==
            [DirHandle(["one"], "one"), DirHandle(["two"], "two")]
  {
    var one := DirHandle(["one"], "one");
    var two := DirHandle(["two"], "two");
    TxtRootVisit();
    ResultsFromVisit(Files, FilesRoot, None, TxtIncludes, HelloExcludes, TxtInRoot, HelloInRoot,
                     [DirEntry(one), DirEntry(two)]);
    TxtRootTests("one");
    TxtRootTests("two");
    KeptByOne(Files, TxtInRoot[0], HelloInRoot[0], DirEntry(one));
    KeptByOne(Files, TxtInRoot[0], HelloInRoot[0], DirEntry(two));
    AcceptsTwo(Files, one, two, TxtInRoot, HelloInRoot);
  }

  /** The root reports no file of its own. */
  lemma TxtRootOwnFiles()
    ensures OwnFiles(Files, FilesRoot, None, TxtIncludes, HelloExcludes) == []
  {
    var es := [DirEntry(DirHandle(["one"], "one")), DirEntry(DirHandle(["two"], "two"))];
    TxtRootVisit();
    ResultsFromVisit(Files, FilesRoot, None, TxtIncludes, HelloExcludes, TxtInRoot, HelloInRoot, es);
    NoFilesFromDirectories(Files, es, None, TxtInRoot, HelloInRoot);
  }

  /** The contexts as the root leaves them to its subdirectories. */
  const TxtInRoot: seq<Context> := [LinearContext(Include, StarSlashTxt, [L.Frame(false, 0)])]
  const HelloInRoot: seq<Context> := [LinearContext(Exclude, OneHello, [L.Frame(false, 0)])]

  const TxtInChild: Context := LinearContext(Include, StarSlashTxt, [L.Frame(false, 0), L.Frame(false, 1)])

  /** The exclude has consumed `one`; below `two` it is out of reach. */
  function HelloInChild(n: string): Context {
    LinearContext(Exclude, OneHello, [L.Frame(false, 0), if n == "one" then L.Frame(false, 1) else L.Frame(true, 0)])
  }

  lemma TxtChildContexts(n: string)
    requires n == "one" || n == "two"
    ensures var v := Enter(Files, DirHandle([n], n), TxtInRoot, HelloInRoot);
            v.includes == [TxtInChild] && v.excludes == [HelloInChild(n)]
  {
    var h := DirHandle([n], n);
    var dir := DirInfo(Files, h);
    assert dir.name == n;
    PushFrameOne(TxtInRoot[0], dir);
    PushFrameOne(HelloInRoot[0], dir);
    MatchAllMatchesEverything(n);
    assert L.PushDirectory(StarSlashTxt, [L.Frame(false, 0)], n) == [L.Frame(false, 0), L.Frame(false, 1)];
    assert Push(TxtInRoot[0], dir) == TxtInChild;
    assert L.PushDirectory(OneHello, [L.Frame(false, 0)], n) == HelloInChild(n).linearStack;
  }

  lemma ChildCandidates(n: string)
    requires n == "one" || n == "two"
    ensures Candidates(Files, DirHandle([n], n), Declarations([], [], false, true)) ==
            [FileEntry(Info("x.txt", [n, "files"]))]
  {
    var h := DirHandle([n], n);
    assert Lookup(Files, [n]) == Some(Dir(n, ["x.txt"], []));
    assert Lineage("files", [n]) == [n, "files"];
    assert FileEntries(Files, h, ["x.txt"]) == [FileEntry(Info("x.txt", [n, "files"]))];
    assert DirEntries(h, []) == [];
  }

  /** In either folder the include wants `*.txt` files and the exclude wants
      nothing, so the folder is listed. */
  lemma TxtChildEntries(n: string)
    requires n == "one" || n == "two"
    ensures Enter(Files, DirHandle([n], n), TxtInRoot, HelloInRoot).entries == [FileEntry(Info("x.txt", [n, "files"]))]
  {
    var h := DirHandle([n], n);
    TxtChildContexts(n);
    DeclaredTwo(TxtInChild, HelloInChild(n));
    var d := Declaration(Wildcard("", [], ".txt"), true);
    assert Predict(TxtInChild) == [d];
    assert Predict(HelloInChild(n)) == [];
    EntriesFromDeclared(Files, h, TxtInRoot, HelloInRoot, [d]);
    WildcardDeclaration(d);
    ChildCandidates(n);
  }

  /** The include's last segment takes `x.txt`; the exclude's `hello.txt`
      does not. */
  lemma TxtChildTests(n: string)
    requires n == "one" || n == "two"
    ensures var x := FileEntry(Info("x.txt", [n, "files"]));
            TestEntry(Files, TxtInChild, x) && !TestEntry(Files, HelloInChild(n), x)
  {
    assert "x.txt"[1..] == ".txt";
    assert Matches(Wildcard("", [], ".txt"), "x.txt");
  }

  /** So each folder keeps its `x.txt` and has nothing to descend into. */
  lemma TxtChildKeeps(n: string)
    requires n == "one" || n == "two"
    ensures Subdirectories(Files, DirHandle([n], n), TxtInRoot, HelloInRoot) == []
    ensures OwnFiles(Files, DirHandle([n], n), Some(n), TxtInRoot, HelloInRoot) == [CombinePath(Some(n), "x.txt")]
  {
    TxtChildContexts(n);
    TxtChildEntries(n);
    TxtChildTests(n);
    var x := FileEntry(Info("x.txt", [n, "files"]));
    KeptByOne(Files, TxtInChild, HelloInChild(n), x);
    MatchedOfOne(Files, x, Some(n), [TxtInChild], [HelloInChild(n)]);
    var v := Enter(Files, DirHandle([n], n), TxtInRoot, HelloInRoot);
    assert MatchedFiles(Files, v.entries, Some(n), v.includes, v.excludes) == [CombinePath(Some(n), "x.txt")];
    assert AcceptedDirs(Files, v.entries, v.includes, v.excludes) == [];
  }

  /** The walk of one folder reports its `x.txt`, whatever fuel is left. */
  lemma TxtChildWalk(n: string, fuel: Fuel)
    requires n == "one" || n == "two"
    ensures FoundBelow(Files, DirHandle([n], n), None, TxtInRoot, HelloInRoot, fuel) == [CombinePath(Some(n), "x.txt")]
  {
    TxtChildKeeps(n);
    assert CombinePath(None, n) == n;
    MatchLeaf(Files, DirHandle([n], n), Some(n), TxtInRoot, HelloInRoot, fuel);
  }

  /** Two sibling folders are walked one after the other. */
  lemma SiblingsOfTwo(fs: Dir, d1: DirHandle, d2: DirHandle, parent: Option<string>,
                      includes: seq<Context>, excludes: seq<Context>, fuel: Fuel)
    ensures MatchSubdirectories(fs, [d1, d2], parent, includes, excludes, fuel).files ==
            FoundBelow(fs, d1, parent, includes, excludes, fuel) + FoundBelow(fs, d2, parent, includes, excludes, fuel)
  {
    SiblingsUnfold(fs, [d1, d2], parent, includes, excludes, fuel);
    assert [d1, d2][1..] == [d2];
    SiblingsUnfold(fs, [d2], parent, includes, excludes, fuel);
    assert [d2][1..] == [];
  }

  /** Two siblings each finding one path find the two paths, in order. */
  lemma SiblingsFindOneEach(fs: Dir, d1: DirHandle, d2: DirHandle, parent: Option<string>,
                            includes: seq<Context>, excludes: seq<Context>, fuel: Fuel, f1: string, f2: string)
    requires FoundBelow(fs, d1, parent, includes, excludes, fuel) == [f1]
    requires FoundBelow(fs, d2, parent, includes, excludes, fuel) == [f2]
    ensures MatchSubdirectories(fs, [d1, d2], parent, includes, excludes, fuel).files == [f1, f2]
  {
    SiblingsOfTwo(fs, d1, d2, parent, includes, excludes, fuel);
  }

  /** The two folders, walked in order. */
  lemma TxtBelowRoot(fuel: Fuel)
    ensures MatchSubdirectories(Files, [DirHandle(["one"], "one"), DirHandle(["two"], "two")], None,
                                TxtInRoot, HelloInRoot, fuel).files == ["one/x.txt", "two/x.txt"]
  {
    TxtFolderWalks(fuel);
    SiblingsFindOneEach(Files, DirHandle(["one"], "one"), DirHandle(["two"], "two"), None, TxtInRoot, HelloInRoot,
                        fuel, "one/x.txt", "two/x.txt");
  }

  lemma TxtFolderWalks(fuel: Fuel)
    ensures FoundBelow(Files, DirHandle(["one"], "one"), None, TxtInRoot, HelloInRoot, fuel) == ["one/x.txt"]
    ensures FoundBelow(Files, DirHandle(["two"], "two"), None, TxtInRoot, HelloInRoot, fuel) == ["two/x.txt"]
  {
    TxtChildWalk("one", fuel);
    TxtChildWalk("two", fuel);
    ChildPaths();
  }

  lemma ChildPaths()
    ensures CombinePath(Some("one"), "x.txt") == "one/x.txt"
    ensures CombinePath(Some("two"), "x.txt") == "two/x.txt"
  {
  }

  /** Some fuel is always left at the start of a run. */
  lemma RunStartsWithFuel(fs: Dir, includes: seq<Pattern>)
    ensures FuelOf(RunFuel(fs, includes)).Left?
  {
  }

  // Include `*/*.txt` with exclude `one/hello.txt` over `one/x.txt` and
  // `two/x.txt` keeps both files.
  lemma IncompletePatternsDoNotExclude()
    ensures Execute(Files, FilesRoot, [Linear(StarSlashTxt)], [Linear(OneHello)]) == ["one/x.txt", "two/x.txt"]
  {
    assert NewContexts([Linear(StarSlashTxt)], Include) == TxtIncludes;
    assert NewContexts([Linear(OneHello)], Exclude) == HelloExcludes;
    RunStartsWithFuel(Files, [Linear(StarSlashTxt)]);
    var g := FuelOf(RunFuel(Files, [Linear(StarSlashTxt)])).rest;
    MatchUnfolds(Files, FilesRoot, None, TxtIncludes, HelloExcludes, g);
    TxtRootDeclarations();
    TxtRootSubdirectories();
    TxtRootOwnFiles();
    TxtBelowRoot(g);
  }
}
