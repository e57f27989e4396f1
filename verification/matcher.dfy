/** The public entry point: a matcher collects include and exclude patterns,
    in the order they are added, and runs them against a directory. */
module Globbing {
  import opened Patterns
  import opened Abstractions
  import MatcherContext
  import MatcherExcludes

  datatype Matcher = Matcher(includePatterns: seq<Pattern>, excludePatterns: seq<Pattern>)

  /** A matcher with no patterns yet. */
  const Empty: Matcher := Matcher([], [])

  /** Add an include pattern after the ones already added; the excludes are
      left alone. */
  function AddInclude(m: Matcher, p: Pattern): (r: Matcher)
    ensures r.includePatterns == m.includePatterns + [p]
    ensures r.excludePatterns == m.excludePatterns
  {
    m.(includePatterns := m.includePatterns + [p])
  }

  /** Add an exclude pattern after the ones already added; the includes are
      left alone. */
  function AddExclude(m: Matcher, p: Pattern): (r: Matcher)
    ensures r.excludePatterns == m.excludePatterns + [p]
    ensures r.includePatterns == m.includePatterns
  {
    m.(excludePatterns := m.excludePatterns + [p])
  }

  /** Run the matcher from the directory `root`: the matched paths, relative
      to `root`, in walk order.  Without includes nothing matches. */
  function Execute(m: Matcher, fs: Dir, root: DirHandle): (r: seq<string>)
    ensures |m.includePatterns| == 0 ==> r == []
  {
    MatcherContext.Execute(fs, root, m.includePatterns, m.excludePatterns)
  }

  /** Adding includes and adding excludes do not interfere: either order of
      the two calls gives the same matcher. */
  lemma AddsCommute(m: Matcher, i: Pattern, e: Pattern)
    ensures AddExclude(AddInclude(m, i), e) == AddInclude(AddExclude(m, e), i)
  {
  }

  /** A matcher built by adding patterns one at a time holds them in the
      order they were added. */
  function AddIncludes(m: Matcher, ps: seq<Pattern>): (r: Matcher)
    ensures r.excludePatterns == m.excludePatterns
    decreases |ps|
  {
    if |ps| == 0 then m else AddIncludes(AddInclude(m, ps[0]), ps[1..])
  }

  lemma {:induction false} AddIncludesKeepsOrder(m: Matcher, ps: seq<Pattern>)
    ensures AddIncludes(m, ps).includePatterns == m.includePatterns + ps
    ensures AddIncludes(m, ps).excludePatterns == m.excludePatterns
    decreases |ps|
  {
    if |ps| > 0 {
      AddIncludesKeepsOrder(AddInclude(m, ps[0]), ps[1..]);
      assert m.includePatterns + [ps[0]] + ps[1..] == m.includePatterns + ps;
    }
  }

  /** An extra exclude pattern can only take matches away. */
  lemma AddExcludeOnlyRemoves(m: Matcher, p: Pattern, fs: Dir, root: DirHandle, f: string)
    requires f in Execute(AddExclude(m, p), fs, root)
    ensures f in Execute(m, fs, root)
  {
    MatcherExcludes.ExecuteExcludeOnlyRemoves(fs, root, m.includePatterns, m.excludePatterns, p, f);
  }
}
