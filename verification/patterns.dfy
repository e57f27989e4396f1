/** Compiled patterns, as the pattern compiler hands them to the matcher.

    A pattern without `**` is linear: one segment per path component, the last
    one naming the file.  A pattern with `**` is ragged: a leading run, the runs
    between consecutive `**` ("contains" groups), and a trailing run.  The
    compiler itself is not part of this model. */
module Patterns {
  import opened PathSegments

  datatype RaggedPattern = RaggedPattern(
    startsWith: seq<Segment>,
    contains: seq<seq<Segment>>,
    endsWith: seq<Segment>)

  /** `Linear` is the library's pattern whose `Contains` is null. */
  datatype Pattern = Linear(segments: seq<Segment>) | Ragged(shape: RaggedPattern)

  /** One call of the declaring callback: a segment the context expects next,
      and whether it is the pattern's last one (so names a file). */
  datatype Declaration = Declaration(segment: Segment, isLast: bool)
}
