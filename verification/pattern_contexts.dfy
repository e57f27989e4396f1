/** One interface over the four context variants (linear or ragged, include
    or exclude).  Declaring is prediction: a context's `Predict` lists the
    segments it expects next, and the matcher context records them.
    Exclude contexts declare nothing. */
module PatternContexts {
  import opened PathSegments
  import opened Patterns
  import opened Abstractions
  import L = PatternContextLinear
  import R = PatternContextRagged

  datatype Kind = Include | Exclude

  datatype Context =
    | LinearContext(kind: Kind, segments: seq<Segment>, linearStack: seq<L.Frame>)
    | RaggedContext(kind: Kind, shape: RaggedPattern, raggedStack: seq<R.Frame>)

  /** How many directories the context has entered and not yet left. */
  function Depth(c: Context): nat {
    match c
    case LinearContext(_, _, s) => |s|
    case RaggedContext(_, _, s) => |s|
  }

  /** The pattern the context was made for. */
  function PatternOf(c: Context): Pattern {
    match c
    case LinearContext(_, segments, _) => Linear(segments)
    case RaggedContext(_, shape, _) => Ragged(shape)
  }

  /** A fresh context for a pattern: linear exactly when the pattern has no
      contains groups at all (the library's `Contains == null`), for includes
      and excludes alike. */
  function NewContext(p: Pattern, kind: Kind): (c: Context)
    ensures c.kind == kind && Depth(c) == 0 && PatternOf(c) == p
    ensures c.LinearContext? <==> p.Linear?
  {
    match p
    case Linear(segments) => LinearContext(kind, segments, [])
    case Ragged(shape) => RaggedContext(kind, shape, [])
  }

  /** Enter a directory: exactly one frame more, same kind, same pattern. */
  function Push(c: Context, dir: Info): (r: Context)
    ensures Depth(r) == Depth(c) + 1 && r.kind == c.kind && PatternOf(r) == PatternOf(c)
  {
    match c
    case LinearContext(k, segments, s) => LinearContext(k, segments, L.PushDirectory(segments, s, dir.name))
    case RaggedContext(k, shape, s) => RaggedContext(k, shape, R.PushDirectory(shape, s, dir))
  }

  /** Leave a directory: exactly one frame less, same kind, same pattern. */
  function Pop(c: Context): (r: Context)
    requires Depth(c) > 0
    ensures Depth(r) == Depth(c) - 1 && r.kind == c.kind && PatternOf(r) == PatternOf(c)
  {
    match c
    case LinearContext(k, segments, s) => LinearContext(k, segments, L.PopDirectory(s))
    case RaggedContext(k, shape, s) => RaggedContext(k, shape, R.PopDirectory(s))
  }

  /** The segments the context expects next; an exclude expects nothing. */
  function Predict(c: Context): (r: seq<Declaration>)
    requires Depth(c) > 0
    ensures c.kind == Exclude ==> r == []
    ensures |r| <= 1
  {
    if c.kind == Exclude then []
    else match c
      case LinearContext(_, segments, s) => L.Predict(segments, s)
      case RaggedContext(_, shape, s) => R.Predict(shape, s)
  }

  /** The context's verdict on a file: a linear context needs the file name to
      fill the pattern's last segment, a ragged one needs the trailing run to
      match the file and its nearest ancestors. */
  function TestFile(c: Context, file: Info): (r: bool)
    ensures c.LinearContext? && r ==> |c.segments| > 0 && Matches(c.segments[|c.segments| - 1], file.name)
    ensures c.RaggedContext? && r ==> R.GroupMatchesEnd(c.shape.endsWith, [file.name] + file.lineage)
  {
    match c
    case LinearContext(Include, segments, s) => L.IncludeTestFile(segments, s, file.name)
    case LinearContext(Exclude, segments, s) => L.ExcludeTestFile(segments, s, file.name)
    case RaggedContext(Include, shape, s) => R.IncludeTestFile(shape, s, file)
    case RaggedContext(Exclude, shape, s) => R.ExcludeTestFile(shape, s, file)
  }

  /** The context's verdict on a directory.  A linear context needs the name
      to match the segment at its position, and an exclude only vetoes at the
      last segment; a ragged exclude only vetoes a directory that completes
      its current group. */
  function TestDirectory(c: Context, dir: Info): (r: bool)
    ensures c.LinearContext? && r ==>
              L.Top(c.linearStack).segmentIndex < |c.segments| &&
              Matches(c.segments[L.Top(c.linearStack).segmentIndex], dir.name)
    ensures c.LinearContext? && c.kind == Exclude && r ==> L.Top(c.linearStack).segmentIndex + 1 == |c.segments|
    ensures c.RaggedContext? && c.kind == Exclude && r ==> R.TestMatchingGroup(c.shape, R.Top(c.raggedStack), dir)
  {
    match c
    case LinearContext(Include, segments, s) => L.IncludeTestDirectory(segments, s, dir.name)
    case LinearContext(Exclude, segments, s) => L.ExcludeTestDirectory(segments, s, dir.name)
    case RaggedContext(Include, shape, s) => R.IncludeTestDirectory(shape, s, dir)
    case RaggedContext(Exclude, shape, s) => R.ExcludeTestDirectory(shape, s, dir)
  }

  /** Excluding a pattern vetoes exactly the files that including it would
      accept, for either shape of pattern. */
  lemma ExcludeFileTestMirrorsInclude(c: Context, file: Info)
    ensures TestFile(c.(kind := Exclude), file) == TestFile(c.(kind := Include), file)
  {
  }

  /** A declaration after which the matcher must list the directory in full:
      a wildcard, or a literal naming a file. */
  predicate ForcesEnumeration(d: Declaration) {
    d.segment.Wildcard? || (d.segment.Literal? && d.isLast)
  }

  /** A declaration that lets the matcher fetch the directory `name` directly. */
  predicate Announces(d: Declaration, name: string) {
    (d.segment == Literal(name) && !d.isLast) || (d.segment == Parent && name == "..")
  }

  lemma PopUndoesPush(c: Context, dir: Info)
    ensures Pop(Push(c, dir)) == c
  {
    match c
    case LinearContext(_, segments, s) => L.PopUndoesPush(segments, s, dir.name);
    case RaggedContext(_, shape, s) => R.PopUndoesPush(shape, s, dir);
  }

  /** The prediction never hides an entry its own tests would accept: a file
      (other than one called `..`) is only accepted while something forcing a
      full listing is declared, and a directory only while either that or a
      direct lookup of its name is declared. */
  lemma PredictCoversTests(c: Context, entry: Info)
    requires Depth(c) > 0 && c.kind == Include
    ensures TestFile(c, entry) && entry.name != ".." ==>
              exists d :: d in Predict(c) && ForcesEnumeration(d)
    ensures TestDirectory(c, entry) ==>
              exists d :: d in Predict(c) && (ForcesEnumeration(d) || Announces(d, entry.name))
  {
    match c
    case LinearContext(_, segments, s) =>
      L.PredictCoversIncludeTests(segments, s, entry.name);
      ParentAcceptsOnlyDotDot(entry.name);
      assert Predict(c) == L.Predict(segments, s);
      if TestFile(c, entry) && entry.name != ".." {
        var d :| d in Predict(c) && d.isLast && Matches(d.segment, entry.name);
        assert ForcesEnumeration(d);
      }
      if TestDirectory(c, entry) {
        var d :| d in Predict(c) && !d.isLast && Matches(d.segment, entry.name);
        assert ForcesEnumeration(d) || Announces(d, entry.name);
      }
    case RaggedContext(_, shape, s) =>
      R.PredictCoversIncludeTests(shape, s, entry);
      ParentAcceptsOnlyDotDot(entry.name);
      assert Predict(c) == R.Predict(shape, s);
      if TestDirectory(c, entry) {
        var d :| d in Predict(c) && Matches(d.segment, entry.name);
        assert !d.isLast;
        assert ForcesEnumeration(d) || Announces(d, entry.name);
      }
  }
}
