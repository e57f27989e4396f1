/** Where the walk's results lie: every reported path extends the path of
    the directory being walked, and comes either from that directory's own
    kept files or from below one of the subdirectories it kept. */
module MatcherWalk {
  import opened Wrappers
  import opened Abstractions
  import opened PatternContexts
  import opened MatcherContext

  /** A walk's result is the directory's own files followed by what the
      walks of its accepted subdirectories find, when there is fuel left to
      descend. */
  lemma MatchUnfolds(fs: Dir, h: DirHandle, parent: Option<string>,
                     includes: seq<Context>, excludes: seq<Context>, g: Fuel)
    ensures Match(fs, h, parent, includes, excludes, Left(g)).files ==
            OwnFiles(fs, h, parent, includes, excludes) +
            MatchSubdirectories(fs, Subdirectories(fs, h, includes, excludes), parent,
                                Enter(fs, h, includes, excludes).includes,
                                Enter(fs, h, includes, excludes).excludes, g).files
  {
  }

  /** Without fuel the walk reports the directory's own files only. */
  lemma MatchWithoutFuel(fs: Dir, h: DirHandle, parent: Option<string>,
                         includes: seq<Context>, excludes: seq<Context>)
    ensures Match(fs, h, parent, includes, excludes, Spent).files == OwnFiles(fs, h, parent, includes, excludes)
  {
  }

  /** A directory the walk does not descend from reports its own files
      only, however much fuel is left. */
  lemma MatchLeaf(fs: Dir, h: DirHandle, parent: Option<string>,
                  includes: seq<Context>, excludes: seq<Context>, fuel: Fuel)
    requires Subdirectories(fs, h, includes, excludes) == []
    ensures Match(fs, h, parent, includes, excludes, fuel).files == OwnFiles(fs, h, parent, includes, excludes)
  {
    match fuel
    case Spent => MatchWithoutFuel(fs, h, parent, includes, excludes);
    case Left(g) =>
      MatchUnfolds(fs, h, parent, includes, excludes, g);
      assert OwnFiles(fs, h, parent, includes, excludes) + [] == OwnFiles(fs, h, parent, includes, excludes);
  }

  /** A file of the directory itself lies below the directory's path. */
  lemma OwnFileStaysBelow(fs: Dir, h: DirHandle, parent: Option<string>,
                          includes: seq<Context>, excludes: seq<Context>, f: string)
    requires f in OwnFiles(fs, h, parent, includes, excludes)
    ensures Extends(parent, f)
  {
    var v := Enter(fs, h, includes, excludes);
    MatchedFilesAreKeptFiles(fs, v.entries, parent, v.includes, v.excludes);
    var i :| 0 <= i < |v.entries| && v.entries[i].FileEntry? &&
             MatchPatternContexts(fs, v.includes, v.excludes, v.entries[i]) &&
             f == CombinePath(parent, v.entries[i].info.name);
  }

  /** A walk of a directory only finds paths below that directory's path. */
  lemma {:induction false} MatchStaysBelow(fs: Dir, h: DirHandle, parent: Option<string>,
                                           includes: seq<Context>, excludes: seq<Context>, fuel: Fuel, f: string)
    requires f in Match(fs, h, parent, includes, excludes, fuel).files
    ensures Extends(parent, f)
    decreases fuel, 0, 0
  {
    var v := Enter(fs, h, includes, excludes);
    var own := OwnFiles(fs, h, parent, includes, excludes);
    match fuel
    case Spent =>
      MatchWithoutFuel(fs, h, parent, includes, excludes);
      OwnFileStaysBelow(fs, h, parent, includes, excludes, f);
    case Left(g) =>
      MatchUnfolds(fs, h, parent, includes, excludes, g);
      if f in own {
        OwnFileStaysBelow(fs, h, parent, includes, excludes, f);
      } else {
        var subs := Subdirectories(fs, h, includes, excludes);
        SiblingsStayBelow(fs, subs, parent, v.includes, v.excludes, g, f);
      }
  }

  /** What the walks of some sibling directories find lies below one of them,
      so below their common parent. */
  lemma {:induction false} SiblingsStayBelow(fs: Dir, dirs: seq<DirHandle>, parent: Option<string>,
                                             includes: seq<Context>, excludes: seq<Context>, fuel: Fuel, f: string)
    requires f in MatchSubdirectories(fs, dirs, parent, includes, excludes, fuel).files
    ensures exists d :: d in dirs && Extends(Some(CombinePath(parent, d.name)), f)
    ensures Extends(parent, f)
    decreases fuel, 1, |dirs|
  {
    var q := Some(CombinePath(parent, dirs[0].name));
    var first := Match(fs, dirs[0], q, includes, excludes, fuel);
    if f in first.files {
      MatchStaysBelow(fs, dirs[0], q, includes, excludes, fuel, f);
      ExtendsThroughCombine(parent, dirs[0].name, f);
      assert dirs[0] in dirs;
    } else {
      SiblingsStayBelow(fs, dirs[1..], parent, first.includes, first.excludes, fuel, f);
      var d :| d in dirs[1..] && Extends(Some(CombinePath(parent, d.name)), f);
      assert d in dirs;
    }
  }

  /** Everything a walk finds is one of the directory's own files or lies
      below one of the subdirectories it accepted; nothing comes from a
      directory the tests turned down. */
  lemma MatchFindsOnlyBelow(fs: Dir, h: DirHandle, parent: Option<string>,
                            includes: seq<Context>, excludes: seq<Context>, fuel: Fuel, f: string)
    requires f in Match(fs, h, parent, includes, excludes, fuel).files
    ensures f in OwnFiles(fs, h, parent, includes, excludes) ||
            exists d :: d in Subdirectories(fs, h, includes, excludes) &&
                        Extends(Some(CombinePath(parent, d.name)), f)
  {
    var v := Enter(fs, h, includes, excludes);
    match fuel
    case Spent =>
      MatchWithoutFuel(fs, h, parent, includes, excludes);
    case Left(g) =>
      MatchUnfolds(fs, h, parent, includes, excludes, g);
      if f !in OwnFiles(fs, h, parent, includes, excludes) {
        var subs := Subdirectories(fs, h, includes, excludes);
        SiblingsStayBelow(fs, subs, parent, v.includes, v.excludes, g, f);
      }
  }

  /** Each sibling's walk starts from the very contexts the group was given,
      because every walk leaves them as it found them. */
  lemma SiblingsUnfold(fs: Dir, dirs: seq<DirHandle>, parent: Option<string>,
                       includes: seq<Context>, excludes: seq<Context>, fuel: Fuel)
    requires |dirs| > 0
    ensures MatchSubdirectories(fs, dirs, parent, includes, excludes, fuel).files ==
            Match(fs, dirs[0], Some(CombinePath(parent, dirs[0].name)), includes, excludes, fuel).files +
            MatchSubdirectories(fs, dirs[1..], parent, includes, excludes, fuel).files
  {
  }

  /** So a group of siblings finds a path exactly when the walk of one of its
      directories does. */
  lemma {:induction false} SiblingsFindWhatOneFinds(fs: Dir, dirs: seq<DirHandle>, parent: Option<string>,
                                                    includes: seq<Context>, excludes: seq<Context>,
                                                    fuel: Fuel, f: string)
    ensures f in MatchSubdirectories(fs, dirs, parent, includes, excludes, fuel).files <==>
            exists i :: 0 <= i < |dirs| && f in FoundBelow(fs, dirs[i], parent, includes, excludes, fuel)
    decreases |dirs|
  {
    if |dirs| > 0 {
      var rest := dirs[1..];
      SiblingsUnfold(fs, dirs, parent, includes, excludes, fuel);
      SiblingsFindWhatOneFinds(fs, rest, parent, includes, excludes, fuel, f);
      if f in MatchSubdirectories(fs, dirs, parent, includes, excludes, fuel).files {
        if f !in FoundBelow(fs, dirs[0], parent, includes, excludes, fuel) {
          var i :| 0 <= i < |rest| && f in FoundBelow(fs, rest[i], parent, includes, excludes, fuel);
          assert rest[i] == dirs[i + 1];
        }
      }
      if exists i :: 0 <= i < |dirs| && f in FoundBelow(fs, dirs[i], parent, includes, excludes, fuel) {
        var i :| 0 <= i < |dirs| && f in FoundBelow(fs, dirs[i], parent, includes, excludes, fuel);
        if i > 0 {
          assert rest[i - 1] == dirs[i];
        }
      }
    }
  }

  /** A path the group finds is found below one of the siblings. */
  lemma FoundBelowSome(fs: Dir, dirs: seq<DirHandle>, parent: Option<string>,
                       includes: seq<Context>, excludes: seq<Context>, fuel: Fuel, f: string)
      returns (i: int)
    requires f in MatchSubdirectories(fs, dirs, parent, includes, excludes, fuel).files
    ensures 0 <= i < |dirs| && f in FoundBelow(fs, dirs[i], parent, includes, excludes, fuel)
  {
    SiblingsFindWhatOneFinds(fs, dirs, parent, includes, excludes, fuel, f);
    i :| 0 <= i < |dirs| && f in FoundBelow(fs, dirs[i], parent, includes, excludes, fuel);
  }

  /** A path found below one sibling is found by the group. */
  lemma FoundBelowOne(fs: Dir, dirs: seq<DirHandle>, i: int, parent: Option<string>,
                      includes: seq<Context>, excludes: seq<Context>, fuel: Fuel, f: string)
    requires 0 <= i < |dirs| && f in FoundBelow(fs, dirs[i], parent, includes, excludes, fuel)
    ensures f in MatchSubdirectories(fs, dirs, parent, includes, excludes, fuel).files
  {
    SiblingsFindWhatOneFinds(fs, dirs, parent, includes, excludes, fuel, f);
  }

  /** What the walk of the subdirectory `d` of the directory at `parent` finds. */
  function FoundBelow(fs: Dir, d: DirHandle, parent: Option<string>,
                      includes: seq<Context>, excludes: seq<Context>, fuel: Fuel): seq<string>
  {
    Match(fs, d, Some(CombinePath(parent, d.name)), includes, excludes, fuel).files
  }
}
