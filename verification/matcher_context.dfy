/** The per-run orchestrator: one depth-first walk from a root directory that
    consults every include and exclude context at each directory.

    At a directory the walk (1) pushes a frame on every context, (2) rebuilds
    the declarations from the contexts' predictions, (3) either lists the
    directory in full or looks up just the declared folder names, plus `..`
    when a parent segment was declared, (4) keeps the entries that hit an
    include and no exclude, (5) recurses into the kept directories, and
    (6) pops the frames.  Contexts are values here, so "the walk leaves every
    stack as it found it" is a property of the result. */
module MatcherContext {
  import opened Wrappers
  import opened PathSegments
  import opened Patterns
  import opened Abstractions
  import opened PatternContexts

  // ---------------------------------------------------------------------
  // Declarations
  // ---------------------------------------------------------------------

  /** What the contexts asked for at the current directory. */
  datatype Declarations = Declarations(
    literalFiles: seq<string>,
    literalFolders: seq<string>,
    parent: bool,
    wildcard: bool)

  /** The declarations as they are reset on entering every directory. */
  const Cleared: Declarations := Declarations([], [], false, false)

  predicate NoDuplicates(s: seq<string>) {
    forall i, j :: 0 <= i < j < |s| ==> s[i] != s[j]
  }

  /** Record one declaration.  A literal naming a file goes to the file list,
      a literal naming a folder to the folder list (once: see the finding in
      the README), a parent segment and a wildcard set their flags, and a
      recursive wildcard is ignored. */
  function DeclareInclude(ds: Declarations, d: Declaration): (r: Declarations)
    ensures forall n :: n in r.literalFiles <==> n in ds.literalFiles || d == Declaration(Literal(n), true)
    ensures forall n :: n in r.literalFolders <==> n in ds.literalFolders || d == Declaration(Literal(n), false)
    ensures r.parent <==> ds.parent || d.segment.Parent?
    ensures r.wildcard <==> ds.wildcard || d.segment.Wildcard?
    ensures ds.literalFiles <= r.literalFiles && ds.literalFolders <= r.literalFolders
    ensures NoDuplicates(ds.literalFolders) ==> NoDuplicates(r.literalFolders)
  {
    match d.segment
    case Literal(v) =>
      if d.isLast then ds.(literalFiles := ds.literalFiles + [v])
      else if v in ds.literalFolders then ds
      else ds.(literalFolders := ds.literalFolders + [v])
    case Parent => ds.(parent := true)
    case Wildcard(_, _, _) => ds.(wildcard := true)
    case RecursiveWildcard => ds
  }

  /** The version as written, which appends a folder literal even when the
      same name is already listed. */
  function DeclareIncludeAsWritten(ds: Declarations, d: Declaration): (r: Declarations)
    ensures d.segment.Literal? && !d.isLast ==> r.literalFolders == ds.literalFolders + [d.segment.value]
    ensures forall n :: n in r.literalFolders <==> n in ds.literalFolders || d == Declaration(Literal(n), false)
  {
    match d.segment
    case Literal(v) =>
      if d.isLast then ds.(literalFiles := ds.literalFiles + [v])
      else ds.(literalFolders := ds.literalFolders + [v])
    case Parent => ds.(parent := true)
    case Wildcard(_, _, _) => ds.(wildcard := true)
    case RecursiveWildcard => ds
  }

  /** The two versions differ only in repeated folder names: same file list,
      same flags, same set of folder names. */
  lemma DeclareIncludeAgreesUpToRepeats(ds: Declarations, d: Declaration)
    ensures DeclareInclude(ds, d).literalFiles == DeclareIncludeAsWritten(ds, d).literalFiles
    ensures DeclareInclude(ds, d).parent == DeclareIncludeAsWritten(ds, d).parent
    ensures DeclareInclude(ds, d).wildcard == DeclareIncludeAsWritten(ds, d).wildcard
    ensures forall n :: n in DeclareInclude(ds, d).literalFolders <==> n in DeclareIncludeAsWritten(ds, d).literalFolders
  {
  }

  /** Record a run of declarations in order. */
  function DeclareAll(ds: Declarations, decls: seq<Declaration>): (r: Declarations)
    ensures forall n :: n in r.literalFiles <==>
              n in ds.literalFiles || Declaration(Literal(n), true) in decls
    ensures forall n :: n in r.literalFolders <==>
              n in ds.literalFolders || Declaration(Literal(n), false) in decls
    ensures r.parent <==> ds.parent || exists i :: 0 <= i < |decls| && decls[i].segment.Parent?
    ensures r.wildcard <==> ds.wildcard || exists i :: 0 <= i < |decls| && decls[i].segment.Wildcard?
    ensures NoDuplicates(ds.literalFolders) ==> NoDuplicates(r.literalFolders)
    decreases |decls|
  {
    if |decls| == 0 then ds
    else
      var r := DeclareAll(DeclareInclude(ds, decls[0]), decls[1..]);
      assert forall i :: 1 <= i < |decls| ==> decls[i] == decls[1..][i - 1];
      r
  }

  function DeclareAllAsWritten(ds: Declarations, decls: seq<Declaration>): (r: Declarations)
    ensures |r.literalFolders| == |ds.literalFolders| + |FolderLiterals(decls)|
    decreases |decls|
  {
    if |decls| == 0 then ds else DeclareAllAsWritten(DeclareIncludeAsWritten(ds, decls[0]), decls[1..])
  }

  /** The folder literals among some declarations, repeats included. */
  function FolderLiterals(decls: seq<Declaration>): seq<string> {
    if |decls| == 0 then []
    else (if decls[0].segment.Literal? && !decls[0].isLast then [decls[0].segment.value] else [])
         + FolderLiterals(decls[1..])
  }

  // ---------------------------------------------------------------------
  // Contexts as a group
  // ---------------------------------------------------------------------

  /** Every context has a current frame. */
  predicate AllEntered(cs: seq<Context>) {
    forall i :: 0 <= i < |cs| ==> Depth(cs[i]) > 0
  }

  function PushFrame(cs: seq<Context>, dir: Info): (r: seq<Context>)
    ensures |r| == |cs| && AllEntered(r)
    ensures forall i :: 0 <= i < |cs| ==> r[i] == Push(cs[i], dir)
  {
    if |cs| == 0 then [] else [Push(cs[0], dir)] + PushFrame(cs[1..], dir)
  }

  function PopFrame(cs: seq<Context>): (r: seq<Context>)
    requires AllEntered(cs)
    ensures |r| == |cs|
    ensures forall i :: 0 <= i < |cs| ==> r[i] == Pop(cs[i]) && Depth(r[i]) == Depth(cs[i]) - 1
  {
    if |cs| == 0 then [] else [Pop(cs[0])] + PopFrame(cs[1..])
  }

  /** Leaving a directory restores every context exactly. */
  lemma PopFrameUndoesPushFrame(cs: seq<Context>, dir: Info)
    ensures PopFrame(PushFrame(cs, dir)) == cs
  {
    var r := PopFrame(PushFrame(cs, dir));
    forall i | 0 <= i < |cs|
      ensures r[i] == cs[i]
    {
      PopUndoesPush(cs[i], dir);
    }
  }

  /** The declarations of all contexts, in list order. */
  function Declared(cs: seq<Context>): (r: seq<Declaration>)
    requires AllEntered(cs)
    ensures forall d :: d in r <==> exists i :: 0 <= i < |cs| && d in Predict(cs[i])
  {
    if |cs| == 0 then []
    else
      var r := Predict(cs[0]) + Declared(cs[1..]);
      assert forall i :: 1 <= i < |cs| ==> cs[i] == cs[1..][i - 1];
      r
  }

  // ---------------------------------------------------------------------
  // Candidates
  // ---------------------------------------------------------------------

  /** Handles for the declared folder names, in declaration order. */
  function FolderLookups(h: DirHandle, names: seq<string>): (r: seq<Entry>)
    ensures |r| == |names|
    ensures forall i :: 0 <= i < |names| ==> r[i] == DirEntry(GetDirectory(h, names[i]))
  {
    if |names| == 0 then [] else [DirEntry(GetDirectory(h, names[0]))] + FolderLookups(h, names[1..])
  }

  /** Does the directory have to be listed in full? */
  predicate MustEnumerate(ds: Declarations) {
    ds.wildcard || |ds.literalFiles| > 0
  }

  /** The entries the walk looks at in the directory `h`. */
  function Candidates(fs: Dir, h: DirHandle, ds: Declarations): (r: seq<Entry>)
    ensures ds.parent ==> DirEntry(GetDirectory(h, "..")) in r
  {
    (if MustEnumerate(ds) then Enumerate(fs, h) else FolderLookups(h, ds.literalFolders))
    + (if ds.parent then [DirEntry(GetDirectory(h, ".."))] else [])
  }

  /** The candidates are the directory's listing when a wildcard or a file
      literal was declared and the declared folders otherwise, plus the
      parent when it was declared. */
  lemma CandidatesAre(fs: Dir, h: DirHandle, ds: Declarations)
    ensures forall e :: e in Candidates(fs, h, ds) <==>
              (MustEnumerate(ds) && e in Enumerate(fs, h)) ||
              (!MustEnumerate(ds) && exists n :: n in ds.literalFolders && e == DirEntry(GetDirectory(h, n))) ||
              (ds.parent && e == DirEntry(GetDirectory(h, "..")))
  {
    if !MustEnumerate(ds) {
      var r := FolderLookups(h, ds.literalFolders);
      forall e | e in r
        ensures exists n :: n in ds.literalFolders && e == DirEntry(GetDirectory(h, n))
      {
        var i :| 0 <= i < |r| && r[i] == e;
        assert ds.literalFolders[i] in ds.literalFolders;
      }
    }
  }

  /** Distinct folder names give distinct directory handles, so a folder list
      without repeats makes every looked-up directory appear once. */
  lemma FolderLookupsDistinct(h: DirHandle, names: seq<string>)
    requires NoDuplicates(names)
    ensures forall i, j :: 0 <= i < j < |names| ==>
              FolderLookups(h, names)[i] != FolderLookups(h, names)[j]
  {
    forall i, j | 0 <= i < j < |names|
      ensures FolderLookups(h, names)[i] != FolderLookups(h, names)[j]
    {
      if names[i] == ".." || names[j] == ".." {
        assert GetDirectory(h, names[i]).name != GetDirectory(h, names[j]).name;
      } else {
        var a := GetDirectory(h, names[i]).location;
        var b := GetDirectory(h, names[j]).location;
        assert a[|h.location|] != b[|h.location|];
      }
    }
  }

  // ---------------------------------------------------------------------
  // The include/exclude rule
  // ---------------------------------------------------------------------

  /** One context's verdict on an entry: files go to the context's file test
      and directories to its directory test, each seeing the entry's name and
      its real ancestors. */
  function TestEntry(fs: Dir, c: Context, e: Entry): (r: bool)
    requires Depth(c) > 0
    ensures e.FileEntry? ==> (r <==> TestFile(c, e.info))
    ensures e.DirEntry? ==> (r <==> TestDirectory(c, DirInfo(fs, e.handle)))
  {
    match e
    case FileEntry(info) => TestFile(c, info)
    case DirEntry(h) => TestDirectory(c, DirInfo(fs, h))
  }

  /** Does some context in the list accept the entry (stopping at the first)? */
  function AnyHit(fs: Dir, cs: seq<Context>, e: Entry): (r: bool)
    requires AllEntered(cs)
    ensures r <==> exists i :: 0 <= i < |cs| && TestEntry(fs, cs[i], e)
  {
    if |cs| == 0 then false
    else if TestEntry(fs, cs[0], e) then true
    else
      assert forall i :: 1 <= i < |cs| ==> cs[i] == cs[1..][i - 1];
      AnyHit(fs, cs[1..], e)
  }

  /** An entry is kept iff at least one include accepts it and no exclude
      does; with no includes nothing is ever kept. */
  function MatchPatternContexts(fs: Dir, includes: seq<Context>, excludes: seq<Context>, e: Entry): (r: bool)
    requires AllEntered(includes) && AllEntered(excludes)
    ensures r <==> (exists i :: 0 <= i < |includes| && TestEntry(fs, includes[i], e)) &&
                   (forall j :: 0 <= j < |excludes| ==> !TestEntry(fs, excludes[j], e))
    ensures |includes| == 0 ==> !r
  {
    AnyHit(fs, includes, e) && !AnyHit(fs, excludes, e)
  }

  // ---------------------------------------------------------------------
  // Relative paths
  // ---------------------------------------------------------------------

  /** Does `f` lie below the relative path `parent`?  No parent (or the empty
      one) means the root, below which everything lies. */
  predicate Extends(parent: Option<string>, f: string) {
    match parent
    case None => true
    case Some(p) => p == "" || (|p| < |f| && f[..|p|] == p && f[|p|] == '/')
  }

  /** Join a relative path and a name with `/`; a missing or empty left part
      yields the name alone. */
  function CombinePath(left: Option<string>, right: string): (r: string)
    ensures (left.None? || left.value == "") ==> r == right
    ensures left.Some? && left.value != "" ==>
              Extends(left, r) && r[|left.value| + 1..] == right && |r| == |left.value| + 1 + |right|
  {
    match left
    case None => right
    case Some(l) => if l == "" then right else l + "/" + right
  }

  /** Below a joined path means below its left part too. */
  lemma ExtendsThroughCombine(parent: Option<string>, name: string, f: string)
    requires Extends(Some(CombinePath(parent, name)), f)
    ensures Extends(parent, f)
  {
    if parent.Some? && parent.value != "" {
      var p := parent.value;
      var q := CombinePath(parent, name);
      assert q[..|p|] == p;
      assert f[..|q|][..|p|] == f[..|p|];
    }
  }

  /** The path of a directory's file is the directory's path, `/`, and the
      file name, and splitting it there gives both parts back. */
  lemma CombinePathSplits(left: string, right: string)
    requires left != ""
    ensures CombinePath(Some(left), right)[..|left|] == left
    ensures CombinePath(Some(left), right)[|left|] == '/'
    ensures CombinePath(Some(left), right)[|left| + 1..] == right
  {
  }

  // ---------------------------------------------------------------------
  // One directory
  // ---------------------------------------------------------------------

  /** The state after entering a directory: the pushed contexts and the
      entries chosen from the declarations. */
  datatype Visit = Visit(includes: seq<Context>, excludes: seq<Context>, entries: seq<Entry>)

  function Enter(fs: Dir, h: DirHandle, includes: seq<Context>, excludes: seq<Context>): (v: Visit)
    ensures AllEntered(v.includes) && AllEntered(v.excludes)
    ensures v.includes == PushFrame(includes, DirInfo(fs, h))
    ensures v.excludes == PushFrame(excludes, DirInfo(fs, h))
  {
    var inc := PushFrame(includes, DirInfo(fs, h));
    var exc := PushFrame(excludes, DirInfo(fs, h));
    Visit(inc, exc, Candidates(fs, h, DeclareAll(Cleared, Declared(inc + exc))))
  }

  /** Does the declaration force the directory to be listed in full? */
  predicate ForcesListing(d: Declaration) {
    d.segment.Wildcard? || (d.segment.Literal? && d.isLast)
  }

  /** Some context predicts a wildcard or a literal naming a file. */
  predicate PredictsListing(cs: seq<Context>)
    requires AllEntered(cs)
  {
    exists i, d :: 0 <= i < |cs| && d in Predict(cs[i]) && ForcesListing(d)
  }

  /** Some context predicts the folder literal `n`. */
  predicate PredictsFolder(cs: seq<Context>, n: string)
    requires AllEntered(cs)
  {
    exists i :: 0 <= i < |cs| && Declaration(Literal(n), false) in Predict(cs[i])
  }

  /** Some context predicts the parent segment. */
  predicate PredictsParent(cs: seq<Context>)
    requires AllEntered(cs)
  {
    exists i, d :: 0 <= i < |cs| && d in Predict(cs[i]) && d.segment.Parent?
  }

  /** The declarations collected from fresh are what the contexts predict:
      listing is forced, a folder is declared and the parent is declared
      exactly when some context predicts so. */
  lemma DeclaredFromPredictions(cs: seq<Context>)
    requires AllEntered(cs)
    ensures MustEnumerate(DeclareAll(Cleared, Declared(cs))) <==> PredictsListing(cs)
    ensures forall n :: n in DeclareAll(Cleared, Declared(cs)).literalFolders <==> PredictsFolder(cs, n)
    ensures DeclareAll(Cleared, Declared(cs)).parent <==> PredictsParent(cs)
  {
    ListingFromPredictions(cs);
    FoldersFromPredictions(cs);
    ParentFromPredictions(cs);
  }

  lemma FoldersFromPredictions(cs: seq<Context>)
    requires AllEntered(cs)
    ensures forall n :: n in DeclareAll(Cleared, Declared(cs)).literalFolders <==> PredictsFolder(cs, n)
  {
  }

  lemma ListingFromPredictions(cs: seq<Context>)
    requires AllEntered(cs)
    ensures MustEnumerate(DeclareAll(Cleared, Declared(cs))) <==> PredictsListing(cs)
  {
    if MustEnumerate(DeclareAll(Cleared, Declared(cs))) {
      PredictedWhenListed(cs);
    }
    if PredictsListing(cs) {
      ListedWhenPredicted(cs);
    }
  }

  lemma PredictedWhenListed(cs: seq<Context>)
    requires AllEntered(cs)
    requires MustEnumerate(DeclareAll(Cleared, Declared(cs)))
    ensures PredictsListing(cs)
  {
    var decls := Declared(cs);
    var ds := DeclareAll(Cleared, decls);
    var d: Declaration;
    if ds.wildcard {
      var k :| 0 <= k < |decls| && decls[k].segment.Wildcard?;
      d := decls[k];
    } else {
      assert ds.literalFiles[0] in ds.literalFiles;
      d := Declaration(Literal(ds.literalFiles[0]), true);
    }
    assert d in decls && ForcesListing(d);
    var i :| 0 <= i < |cs| && d in Predict(cs[i]);
  }

  lemma ListedWhenPredicted(cs: seq<Context>)
    requires AllEntered(cs)
    requires PredictsListing(cs)
    ensures MustEnumerate(DeclareAll(Cleared, Declared(cs)))
  {
    var decls := Declared(cs);
    var ds := DeclareAll(Cleared, decls);
    var i, d :| 0 <= i < |cs| && d in Predict(cs[i]) && ForcesListing(d);
    assert d in decls;
    if d.segment.Literal? {
      assert d == Declaration(Literal(d.segment.value), true);
      assert d.segment.value in ds.literalFiles;
    } else {
      var k :| 0 <= k < |decls| && decls[k] == d;
      assert ds.wildcard;
    }
  }

  lemma ParentFromPredictions(cs: seq<Context>)
    requires AllEntered(cs)
    ensures DeclareAll(Cleared, Declared(cs)).parent <==> PredictsParent(cs)
  {
    var decls := Declared(cs);
    var ds := DeclareAll(Cleared, decls);
    if ds.parent {
      var k :| 0 <= k < |decls| && decls[k].segment.Parent?;
      assert decls[k] in decls;
    }
    if PredictsParent(cs) {
      var i, d :| 0 <= i < |cs| && d in Predict(cs[i]) && d.segment.Parent?;
      assert d in decls;
      var k :| 0 <= k < |decls| && decls[k] == d;
    }
  }

  /** What a directory offers on entry, in terms of what the entered contexts
      predict there: its whole listing when one of them predicts a wildcard
      or a file literal; otherwise a lookup of each predicted folder name;
      and `..` besides when one of them predicts the parent.  Excludes
      predict nothing, so in effect only the includes choose. */
  lemma EnterOffersDeclared(fs: Dir, h: DirHandle, includes: seq<Context>, excludes: seq<Context>)
    ensures var v := Enter(fs, h, includes, excludes);
            var cs := v.includes + v.excludes;
            AllEntered(cs) &&
            forall e :: e in v.entries <==>
              (PredictsListing(cs) && e in Enumerate(fs, h)) ||
              (!PredictsListing(cs) && exists n :: PredictsFolder(cs, n) && e == DirEntry(GetDirectory(h, n))) ||
              (PredictsParent(cs) && e == DirEntry(GetDirectory(h, "..")))
  {
    var v := Enter(fs, h, includes, excludes);
    AllEnteredAppend(v.includes, v.excludes);
    OfferedFromPredictions(fs, h, v.includes + v.excludes);
  }

  lemma AllEnteredAppend(a: seq<Context>, b: seq<Context>)
    requires AllEntered(a) && AllEntered(b)
    ensures AllEntered(a + b)
  {
    forall i | 0 <= i < |a + b| ensures Depth((a + b)[i]) > 0 {
      if i >= |a| { assert (a + b)[i] == b[i - |a|]; }
    }
  }

  /** The candidates of what the contexts declare afresh, read through their
      predictions. */
  lemma OfferedFromPredictions(fs: Dir, h: DirHandle, cs: seq<Context>)
    requires AllEntered(cs)
    ensures forall e :: e in Candidates(fs, h, DeclareAll(Cleared, Declared(cs))) <==>
              (PredictsListing(cs) && e in Enumerate(fs, h)) ||
              (!PredictsListing(cs) && exists n :: PredictsFolder(cs, n) && e == DirEntry(GetDirectory(h, n))) ||
              (PredictsParent(cs) && e == DirEntry(GetDirectory(h, "..")))
  {
    DeclaredFromPredictions(cs);
    CandidatesFromPredictions(fs, h, DeclareAll(Cleared, Declared(cs)), cs);
  }

  /** `Candidates` read through declarations that agree with the contexts'
      predictions. */
  lemma CandidatesFromPredictions(fs: Dir, h: DirHandle, ds: Declarations, cs: seq<Context>)
    requires AllEntered(cs)
    requires MustEnumerate(ds) <==> PredictsListing(cs)
    requires forall n :: n in ds.literalFolders <==> PredictsFolder(cs, n)
    requires ds.parent <==> PredictsParent(cs)
    ensures forall e :: e in Candidates(fs, h, ds) <==>
              (PredictsListing(cs) && e in Enumerate(fs, h)) ||
              (!PredictsListing(cs) && exists n :: PredictsFolder(cs, n) && e == DirEntry(GetDirectory(h, n))) ||
              (PredictsParent(cs) && e == DirEntry(GetDirectory(h, "..")))
  {
    CandidatesAre(fs, h, ds);
  }

  /** The paths of the kept file entries, in entry order. */
  function MatchedFiles(fs: Dir, entries: seq<Entry>, parent: Option<string>,
                        includes: seq<Context>, excludes: seq<Context>): (r: seq<string>)
    requires AllEntered(includes) && AllEntered(excludes)
    ensures |r| <= |entries|
    ensures |includes| == 0 ==> r == []
  {
    if |entries| == 0 then []
    else
      var e := entries[0];
      (if e.FileEntry? && MatchPatternContexts(fs, includes, excludes, e)
       then [CombinePath(parent, e.info.name)] else [])
      + MatchedFiles(fs, entries[1..], parent, includes, excludes)
  }

  /** A path is reported for a directory's files exactly when it joins the
      directory's path with the name of a file entry that is kept. */
  lemma {:induction false} MatchedFilesAreKeptFiles(fs: Dir, entries: seq<Entry>, parent: Option<string>,
                                                    includes: seq<Context>, excludes: seq<Context>)
    requires AllEntered(includes) && AllEntered(excludes)
    ensures forall f :: f in MatchedFiles(fs, entries, parent, includes, excludes) <==>
              exists i :: 0 <= i < |entries| && entries[i].FileEntry? &&
                          MatchPatternContexts(fs, includes, excludes, entries[i]) &&
                          f == CombinePath(parent, entries[i].info.name)
    decreases |entries|
  {
    if |entries| > 0 {
      MatchedFilesAreKeptFiles(fs, entries[1..], parent, includes, excludes);
      assert forall i :: 1 <= i < |entries| ==> entries[i] == entries[1..][i - 1];
    }
  }

  /** The kept directory entries, in entry order. */
  function AcceptedDirs(fs: Dir, entries: seq<Entry>, includes: seq<Context>, excludes: seq<Context>): (r: seq<DirHandle>)
    requires AllEntered(includes) && AllEntered(excludes)
    ensures |r| <= |entries|
    ensures |includes| == 0 ==> r == []
  {
    if |entries| == 0 then []
    else
      var e := entries[0];
      (if e.DirEntry? && MatchPatternContexts(fs, includes, excludes, e) then [e.handle] else [])
      + AcceptedDirs(fs, entries[1..], includes, excludes)
  }

  /** The walk descends into exactly the directory entries that are kept. */
  lemma {:induction false} AcceptedDirsAreKeptDirs(fs: Dir, entries: seq<Entry>,
                                                   includes: seq<Context>, excludes: seq<Context>)
    requires AllEntered(includes) && AllEntered(excludes)
    ensures forall h :: h in AcceptedDirs(fs, entries, includes, excludes) <==>
              DirEntry(h) in entries && MatchPatternContexts(fs, includes, excludes, DirEntry(h))
    decreases |entries|
  {
    if |entries| > 0 {
      AcceptedDirsAreKeptDirs(fs, entries[1..], includes, excludes);
    }
  }

  // ---------------------------------------------------------------------
  // The walk
  // ---------------------------------------------------------------------

  /** The outcome of walking a directory: the matched paths in walk order and
      the contexts as the walk leaves them. */
  datatype Walk = Walk(files: seq<string>, includes: seq<Context>, excludes: seq<Context>)

  /** The files of the directory itself that are kept. */
  function OwnFiles(fs: Dir, h: DirHandle, parent: Option<string>,
                    includes: seq<Context>, excludes: seq<Context>): (r: seq<string>)
    ensures |includes| == 0 ==> r == []
  {
    var v := Enter(fs, h, includes, excludes);
    MatchedFiles(fs, v.entries, parent, v.includes, v.excludes)
  }

  /** The directories below `h` the walk descends into. */
  function Subdirectories(fs: Dir, h: DirHandle, includes: seq<Context>, excludes: seq<Context>): (r: seq<DirHandle>)
    ensures |includes| == 0 ==> r == []
  {
    var v := Enter(fs, h, includes, excludes);
    AcceptedDirs(fs, v.entries, v.includes, v.excludes)
  }

  /** How many more levels the walk may descend, counted in unary so that
      one level less is the structural `rest` rather than an arithmetic
      difference. */
  datatype Fuel = Spent | Left(rest: Fuel)

  /** `n` levels of descent. */
  function FuelOf(n: nat): (f: Fuel)
    ensures n == 0 <==> f == Spent
  {
    if n == 0 then Spent else Left(FuelOf(n - 1))
  }

  /** Walk the directory `h`, whose relative path is `parent`; `fuel` bounds
      the depth of the descent.  Every context's stack is left exactly as it
      was found, nothing is found without includes, and the directory's own
      files come before anything found below it. */
  function Match(fs: Dir, h: DirHandle, parent: Option<string>,
                 includes: seq<Context>, excludes: seq<Context>, fuel: Fuel): (w: Walk)
    ensures w.includes == includes && w.excludes == excludes
    ensures |includes| == 0 ==> w.files == []
    decreases fuel, 0, 0
  {
    var v := Enter(fs, h, includes, excludes);
    var own := MatchedFiles(fs, v.entries, parent, v.includes, v.excludes);
    var below :=
      match fuel
      case Spent => Walk([], v.includes, v.excludes)
      case Left(rest) =>
        MatchSubdirectories(fs, AcceptedDirs(fs, v.entries, v.includes, v.excludes),
                            parent, v.includes, v.excludes, rest);
    PopFrameUndoesPushFrame(includes, DirInfo(fs, h));
    PopFrameUndoesPushFrame(excludes, DirInfo(fs, h));
    Walk(own + below.files, PopFrame(below.includes), PopFrame(below.excludes))
  }

  /** Walk the given subdirectories of the directory at `parent`, one after
      the other, each starting from the contexts the previous one left. */
  function MatchSubdirectories(fs: Dir, dirs: seq<DirHandle>, parent: Option<string>,
                               includes: seq<Context>, excludes: seq<Context>, fuel: Fuel): (w: Walk)
    ensures w.includes == includes && w.excludes == excludes
    ensures |includes| == 0 ==> w.files == []
    decreases fuel, 1, |dirs|
  {
    if |dirs| == 0 then Walk([], includes, excludes)
    else
      var first := Match(fs, dirs[0], Some(CombinePath(parent, dirs[0].name)), includes, excludes, fuel);
      var rest := MatchSubdirectories(fs, dirs[1..], parent, first.includes, first.excludes, fuel);
      Walk(first.files + rest.files, rest.includes, rest.excludes)
  }

  // ---------------------------------------------------------------------
  // Prediction is only an optimisation
  // ---------------------------------------------------------------------

  /** What one include context would accept is covered by the collected
      declarations: a directory by a full listing, its name in the folder
      list, or the parent flag; a file by a full listing. */
  lemma DeclarationsCoverIncludeTests(cs: seq<Context>, k: int, entry: Info)
    requires AllEntered(cs) && 0 <= k < |cs| && cs[k].kind == Include
    ensures var ds := DeclareAll(Cleared, Declared(cs));
            TestDirectory(cs[k], entry) ==>
              MustEnumerate(ds) || entry.name in ds.literalFolders || (ds.parent && entry.name == "..")
    ensures var ds := DeclareAll(Cleared, Declared(cs));
            TestFile(cs[k], entry) && entry.name != ".." ==> MustEnumerate(ds)
  {
    var ds := DeclareAll(Cleared, Declared(cs));
    PredictCoversTests(cs[k], entry);
    if TestDirectory(cs[k], entry) {
      var d :| d in Predict(cs[k]) && (ForcesEnumeration(d) || Announces(d, entry.name));
      assert d in Declared(cs);
      if d.segment.Literal? && d.isLast {
        assert d.segment.value in ds.literalFiles;
      }
    }
    if TestFile(cs[k], entry) && entry.name != ".." {
      var d :| d in Predict(cs[k]) && ForcesEnumeration(d);
      assert d in Declared(cs);
      if d.segment.Literal? {
        assert d.segment.value in ds.literalFiles;
      }
    }
  }

  /** A real subdirectory of `h` is in the listing of `h`. */
  lemma ChildIsListed(fs: Dir, h: DirHandle, child: Dir)
    requires Lookup(fs, h.location).Some? && child in Lookup(fs, h.location).value.dirs
    ensures DirEntry(GetDirectory(h, child.name)) in Enumerate(fs, h)
  {
    var here := Lookup(fs, h.location).value;
    var i :| 0 <= i < |here.dirs| && here.dirs[i] == child;
    assert Enumerate(fs, h)[|here.files| + i] == DirEntry(GetDirectory(h, child.name));
  }

  /** A directory name the declarations cover is among the candidates. */
  lemma CoveredDirIsCandidate(fs: Dir, h: DirHandle, ds: Declarations, name: string)
    requires MustEnumerate(ds) ==> DirEntry(GetDirectory(h, name)) in Enumerate(fs, h)
    requires MustEnumerate(ds) || name in ds.literalFolders || (ds.parent && name == "..")
    ensures DirEntry(GetDirectory(h, name)) in Candidates(fs, h, ds)
  {
    if !MustEnumerate(ds) && name in ds.literalFolders {
      var i :| 0 <= i < |ds.literalFolders| && ds.literalFolders[i] == name;
      assert FolderLookups(h, ds.literalFolders)[i] == DirEntry(GetDirectory(h, name));
    }
  }

  /** A real subdirectory that an include context would accept is never
      skipped by looking up declared names instead of listing the directory. */
  lemma ChildDirectoryIsNeverSkipped(fs: Dir, h: DirHandle, includes: seq<Context>, excludes: seq<Context>,
                                     k: int, child: Dir)
    requires 0 <= k < |includes| && includes[k].kind == Include
    requires Lookup(fs, h.location).Some? && child in Lookup(fs, h.location).value.dirs
    requires TestDirectory(Enter(fs, h, includes, excludes).includes[k], DirInfo(fs, GetDirectory(h, child.name)))
    ensures DirEntry(GetDirectory(h, child.name)) in Enter(fs, h, includes, excludes).entries
  {
    var v := Enter(fs, h, includes, excludes);
    var all := v.includes + v.excludes;
    assert all[k] == v.includes[k];
    var ds := DeclareAll(Cleared, Declared(all));
    assert v.entries == Candidates(fs, h, ds);
    DeclarationsCoverIncludeTests(all, k, DirInfo(fs, GetDirectory(h, child.name)));
    ChildIsListed(fs, h, child);
    CoveredDirIsCandidate(fs, h, ds, child.name);
  }

  /** Likewise a real file that an include context would accept is never
      skipped: accepting a file needs a declaration that forces a listing. */
  lemma ChildFileIsNeverSkipped(fs: Dir, h: DirHandle, includes: seq<Context>, excludes: seq<Context>,
                                k: int, name: string)
    requires 0 <= k < |includes| && includes[k].kind == Include
    requires Lookup(fs, h.location).Some? && name in Lookup(fs, h.location).value.files && name != ".."
    requires TestFile(Enter(fs, h, includes, excludes).includes[k], FileInfo(fs, h, name))
    ensures FileEntry(FileInfo(fs, h, name)) in Enter(fs, h, includes, excludes).entries
  {
    var v := Enter(fs, h, includes, excludes);
    var all := v.includes + v.excludes;
    assert all[k] == v.includes[k];
    DeclarationsCoverIncludeTests(all, k, FileInfo(fs, h, name));
    var here := Lookup(fs, h.location).value;
    var i :| 0 <= i < |here.files| && here.files[i] == name;
    assert Enumerate(fs, h)[i] == FileEntry(FileInfo(fs, h, name));
  }

  // ---------------------------------------------------------------------
  // A whole run
  // ---------------------------------------------------------------------

  /** One context per pattern, all of the given kind, none entered yet. */
  function NewContexts(ps: seq<Pattern>, kind: Kind): (r: seq<Context>)
    ensures |r| == |ps|
    ensures forall i :: 0 <= i < |ps| ==> r[i] == NewContext(ps[i], kind)
  {
    if |ps| == 0 then [] else [NewContext(ps[0], kind)] + NewContexts(ps[1..], kind)
  }

  function Height(d: Dir): nat
    decreases d
  {
    1 + MaxHeight(d.dirs)
  }

  function MaxHeight(ds: seq<Dir>): nat
    decreases ds
  {
    if |ds| == 0 then 0
    else
      var a := Height(ds[0]);
      var b := MaxHeight(ds[1..]);
      if a < b then b else a
  }

  function PatternSize(p: Pattern): nat {
    match p
    case Linear(segments) => |segments|
    case Ragged(shape) => |shape.startsWith| + |shape.contains| + |shape.endsWith|
  }

  function TotalSize(ps: seq<Pattern>): nat {
    if |ps| == 0 then 0 else PatternSize(ps[0]) + TotalSize(ps[1..])
  }

  /** The depth bound of a run: real descents are bounded by the tree's
      height, and each step through `..` or into a named directory consumes an
      include pattern's segment.  Excludes never make the walk descend (they
      declare nothing and can only turn an entry down), so they play no part. */
  function RunFuel(fs: Dir, includes: seq<Pattern>): nat {
    Height(fs) + 2 * TotalSize(includes) + 1
  }

  /** Run the patterns from the directory `root`, returning the matched
      relative paths in walk order. */
  function Execute(fs: Dir, root: DirHandle, includes: seq<Pattern>, excludes: seq<Pattern>): (r: seq<string>)
    ensures |includes| == 0 ==> r == []
  {
    Match(fs, root, None, NewContexts(includes, Include), NewContexts(excludes, Exclude),
          FuelOf(RunFuel(fs, includes))).files
  }
}
