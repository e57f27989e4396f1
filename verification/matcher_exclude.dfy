/** Excludes only ever take results away.  An exclude context declares
    nothing, so it never changes which entries a directory offers; it can only
    turn an entry down.  Hence adding one more exclude to a run can remove
    matches but never add one. */
module MatcherExcludes {
  import opened Wrappers
  import opened Patterns
  import opened Abstractions
  import opened PatternContexts
  import opened MatcherContext
  import opened MatcherWalk

  /** Entering a directory pushes the extra context at the end of the list. */
  lemma PushFrameAppends(cs: seq<Context>, x: Context, dir: Info)
    ensures PushFrame(cs + [x], dir) == PushFrame(cs, dir) + [Push(x, dir)]
  {
  }

  /** The declarations of a list with an exclude at its end are those of the
      list alone. */
  lemma {:induction false} DeclaredIgnoresExclude(cs: seq<Context>, x: Context)
    requires AllEntered(cs) && Depth(x) > 0 && x.kind == Exclude
    ensures AllEntered(cs + [x])
    ensures Declared(cs + [x]) == Declared(cs)
    decreases |cs|
  {
    if |cs| == 0 {
      assert Declared([x]) == Predict(x) + Declared([]);
    } else {
      DeclaredIgnoresExclude(cs[1..], x);
      assert (cs + [x])[1..] == cs[1..] + [x];
    }
  }

  /** One more exclude leaves the entries a directory offers and the pushed
      includes as they were, and adds its own pushed frame to the excludes. */
  lemma EnterWithExtraExclude(fs: Dir, h: DirHandle, includes: seq<Context>, excludes: seq<Context>, x: Context)
    requires x.kind == Exclude
    ensures Enter(fs, h, includes, excludes + [x]).includes == Enter(fs, h, includes, excludes).includes
    ensures Enter(fs, h, includes, excludes + [x]).excludes ==
            Enter(fs, h, includes, excludes).excludes + [Push(x, DirInfo(fs, h))]
    ensures Enter(fs, h, includes, excludes + [x]).entries == Enter(fs, h, includes, excludes).entries
  {
    var dir := DirInfo(fs, h);
    var inc := PushFrame(includes, dir);
    var exc := PushFrame(excludes, dir);
    PushFrameAppends(excludes, x, dir);
    DeclaredIgnoresExclude(inc + exc, Push(x, dir));
    assert inc + (exc + [Push(x, dir)]) == (inc + exc) + [Push(x, dir)];
  }

  /** An entry kept despite the extra exclude is kept without it. */
  lemma KeptWithoutExtraExclude(fs: Dir, includes: seq<Context>, excludes: seq<Context>, x: Context, e: Entry)
    requires AllEntered(includes) && AllEntered(excludes) && Depth(x) > 0
    requires AllEntered(excludes + [x]) && MatchPatternContexts(fs, includes, excludes + [x], e)
    ensures MatchPatternContexts(fs, includes, excludes, e)
  {
    forall j | 0 <= j < |excludes|
      ensures !TestEntry(fs, excludes[j], e)
    {
      assert (excludes + [x])[j] == excludes[j];
    }
  }

  /** A directory's own reported files can only shrink under the extra exclude. */
  lemma OwnFilesShrink(fs: Dir, h: DirHandle, parent: Option<string>,
                       includes: seq<Context>, excludes: seq<Context>, x: Context, f: string)
    requires x.kind == Exclude
    requires f in OwnFiles(fs, h, parent, includes, excludes + [x])
    ensures f in OwnFiles(fs, h, parent, includes, excludes)
  {
    var big := Enter(fs, h, includes, excludes + [x]);
    var small := Enter(fs, h, includes, excludes);
    EnterWithExtraExclude(fs, h, includes, excludes, x);
    MatchedFilesAreKeptFiles(fs, big.entries, parent, big.includes, big.excludes);
    MatchedFilesAreKeptFiles(fs, small.entries, parent, small.includes, small.excludes);
    var i :| 0 <= i < |big.entries| && big.entries[i].FileEntry? &&
             MatchPatternContexts(fs, big.includes, big.excludes, big.entries[i]) &&
             f == CombinePath(parent, big.entries[i].info.name);
    KeptWithoutExtraExclude(fs, small.includes, small.excludes, Push(x, DirInfo(fs, h)), big.entries[i]);
  }

  /** The walk descends into no directory under the extra exclude that it
      would not descend into without it. */
  lemma SubdirectoriesShrink(fs: Dir, h: DirHandle, includes: seq<Context>, excludes: seq<Context>,
                             x: Context, d: DirHandle)
    requires x.kind == Exclude
    requires d in Subdirectories(fs, h, includes, excludes + [x])
    ensures d in Subdirectories(fs, h, includes, excludes)
  {
    var big := Enter(fs, h, includes, excludes + [x]);
    var small := Enter(fs, h, includes, excludes);
    EnterWithExtraExclude(fs, h, includes, excludes, x);
    AcceptedDirsAreKeptDirs(fs, big.entries, big.includes, big.excludes);
    AcceptedDirsAreKeptDirs(fs, small.entries, small.includes, small.excludes);
    KeptWithoutExtraExclude(fs, small.includes, small.excludes, Push(x, DirInfo(fs, h)), DirEntry(d));
  }

  /** Every path a walk finds with one more exclude, it finds without it. */
  lemma {:induction false} ExcludeOnlyRemoves(fs: Dir, h: DirHandle, parent: Option<string>,
                                              includes: seq<Context>, excludes: seq<Context>, x: Context,
                                              fuel: Fuel, f: string)
    requires x.kind == Exclude
    requires f in Match(fs, h, parent, includes, excludes + [x], fuel).files
    ensures f in Match(fs, h, parent, includes, excludes, fuel).files
    decreases fuel, 0
  {
    match fuel
    case Spent =>
      MatchWithoutFuel(fs, h, parent, includes, excludes + [x]);
      MatchWithoutFuel(fs, h, parent, includes, excludes);
      OwnFilesShrink(fs, h, parent, includes, excludes, x, f);
    case Left(g) =>
      MatchUnfolds(fs, h, parent, includes, excludes + [x], g);
      MatchUnfolds(fs, h, parent, includes, excludes, g);
      if f in OwnFiles(fs, h, parent, includes, excludes + [x]) {
        OwnFilesShrink(fs, h, parent, includes, excludes, x, f);
      } else {
        DescentOnlyRemoves(fs, h, parent, includes, excludes, x, g, f);
      }
  }

  /** The same for what the walk finds below the directory's subdirectories. */
  lemma DescentOnlyRemoves(fs: Dir, h: DirHandle, parent: Option<string>,
                           includes: seq<Context>, excludes: seq<Context>, x: Context,
                           g: Fuel, f: string)
    requires x.kind == Exclude
    requires f in MatchSubdirectories(fs, Subdirectories(fs, h, includes, excludes + [x]), parent,
                                      Enter(fs, h, includes, excludes + [x]).includes,
                                      Enter(fs, h, includes, excludes + [x]).excludes, g).files
    ensures f in MatchSubdirectories(fs, Subdirectories(fs, h, includes, excludes), parent,
                                     Enter(fs, h, includes, excludes).includes,
                                     Enter(fs, h, includes, excludes).excludes, g).files
    decreases g, 2
  {
    var small := Enter(fs, h, includes, excludes);
    EnterWithExtraExclude(fs, h, includes, excludes, x);
    var bigSubs := Subdirectories(fs, h, includes, excludes + [x]);
    var smallSubs := Subdirectories(fs, h, includes, excludes);
    forall d | d in bigSubs
      ensures d in smallSubs
    {
      SubdirectoriesShrink(fs, h, includes, excludes, x, d);
    }
    SiblingsOnlyRemove(fs, bigSubs, smallSubs, parent, small.includes, small.excludes,
                       Push(x, DirInfo(fs, h)), g, f);
  }

  /** Walking fewer siblings with one more exclude finds nothing that walking
      more siblings without it misses. */
  lemma {:induction false} SiblingsOnlyRemove(fs: Dir, fewer: seq<DirHandle>, more: seq<DirHandle>,
                                              parent: Option<string>,
                                              includes: seq<Context>, excludes: seq<Context>, x: Context,
                                              g: Fuel, f: string)
    requires x.kind == Exclude
    requires forall d :: d in fewer ==> d in more
    requires f in MatchSubdirectories(fs, fewer, parent, includes, excludes + [x], g).files
    ensures f in MatchSubdirectories(fs, more, parent, includes, excludes, g).files
    decreases g, 1
  {
    var i := FoundBelowSome(fs, fewer, parent, includes, excludes + [x], g, f);
    var d := fewer[i];
    ExcludeOnlyRemoves(fs, d, Some(CombinePath(parent, d.name)), includes, excludes, x, g, f);
    assert d in more;
    var j :| 0 <= j < |more| && more[j] == d;
    FoundBelowOne(fs, more, j, parent, includes, excludes, g, f);
  }

  /** Fresh contexts for one more pattern are the old ones and one more. */
  lemma NewContextsAppend(ps: seq<Pattern>, p: Pattern, kind: Kind)
    ensures NewContexts(ps + [p], kind) == NewContexts(ps, kind) + [NewContext(p, kind)]
  {
  }

  /** A whole run with one more exclude pattern reports a subset of the
      paths it reports without it. */
  lemma ExecuteExcludeOnlyRemoves(fs: Dir, root: DirHandle, includes: seq<Pattern>, excludes: seq<Pattern>,
                                  p: Pattern, f: string)
    requires f in Execute(fs, root, includes, excludes + [p])
    ensures f in Execute(fs, root, includes, excludes)
  {
    NewContextsAppend(excludes, p, Exclude);
    ExcludeOnlyRemoves(fs, root, None, NewContexts(includes, Include), NewContexts(excludes, Exclude),
                       NewContext(p, Exclude), FuelOf(RunFuel(fs, includes)), f);
  }
}
