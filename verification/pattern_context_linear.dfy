/** The per-traversal state machine of a linear pattern (no `**`).

    The context keeps one frame per directory entered.  The current frame is
    the last element of the stack; before the first push the context reads
    the frame type's default value, `DefaultFrame`. */
module PatternContextLinear {
  import opened PathSegments
  import opened Patterns

  /** `segmentIndex` counts the directory segments consumed so far; once
      `isNotApplicable` is set, nothing below this directory can match. */
  datatype Frame = Frame(isNotApplicable: bool, segmentIndex: nat)

  const DefaultFrame: Frame := Frame(false, 0)

  /** The current frame. */
  function Top(stack: seq<Frame>): Frame {
    if |stack| == 0 then DefaultFrame else stack[|stack| - 1]
  }

  predicate IsLastSegment(segments: seq<Segment>, frame: Frame) {
    frame.segmentIndex == |segments| - 1
  }

  /** Does `value` match the segment the frame expects next?  Never, once the
      frame has consumed the whole pattern. */
  predicate TestMatchingSegment(segments: seq<Segment>, frame: Frame, value: string) {
    frame.segmentIndex < |segments| && Matches(segments[frame.segmentIndex], value)
  }

  /** No frame has consumed more than the whole pattern. */
  predicate ValidStack(segments: seq<Segment>, stack: seq<Frame>) {
    forall i :: 0 <= i < |stack| ==> stack[i].segmentIndex <= |segments|
  }

  /** Enter the directory called `name`: one frame is added on top and the
      frames below are left alone. */
  function PushDirectory(segments: seq<Segment>, stack: seq<Frame>, name: string): (r: seq<Frame>)
    ensures |r| == |stack| + 1 && r[..|stack|] == stack
    ensures |stack| == 0 ==> r[0] == Frame(false, 0)
    ensures |stack| > 0 && Top(stack).isNotApplicable ==> Top(r) == Top(stack)
    ensures |stack| > 0 && !Top(stack).isNotApplicable && !TestMatchingSegment(segments, Top(stack), name) ==>
              Top(r) == Frame(true, Top(stack).segmentIndex)
    ensures |stack| > 0 && !Top(stack).isNotApplicable && TestMatchingSegment(segments, Top(stack), name) ==>
              Top(r) == Frame(false, Top(stack).segmentIndex + 1)
    ensures ValidStack(segments, stack) ==> ValidStack(segments, r)
  {
    var frame := Top(stack);
    var next :=
      if |stack| == 0 then frame
      else if frame.isNotApplicable then frame
      else if !TestMatchingSegment(segments, frame, name) then frame.(isNotApplicable := true)
      else frame.(segmentIndex := frame.segmentIndex + 1);
    stack + [next]
  }

  /** Leave the current directory. */
  function PopDirectory(stack: seq<Frame>): seq<Frame>
    requires |stack| > 0
  {
    stack[..|stack| - 1]
  }

  /** What the context expects next: the segment at its position, flagged as
      the last one or not; nothing when the subtree is out of reach or the
      directories have used up the whole pattern. */
  function Predict(segments: seq<Segment>, stack: seq<Frame>): (r: seq<Declaration>)
    requires |stack| > 0
    ensures |r| <= 1
    ensures Top(stack).isNotApplicable ==> r == []
    ensures Top(stack).segmentIndex >= |segments| ==> r == []
    ensures !Top(stack).isNotApplicable && Top(stack).segmentIndex < |segments| ==>
              r == [Declaration(segments[Top(stack).segmentIndex], Top(stack).segmentIndex + 1 == |segments|)]
  {
    var frame := Top(stack);
    if frame.isNotApplicable then []
    else if frame.segmentIndex < |segments| then [Declaration(segments[frame.segmentIndex], IsLastSegment(segments, frame))]
    else []
  }

  /** Include test for a file: the file name must fill the last segment. */
  function IncludeTestFile(segments: seq<Segment>, stack: seq<Frame>, name: string): (r: bool)
    ensures r ==> !Top(stack).isNotApplicable && |segments| > 0
    ensures r <==> !Top(stack).isNotApplicable && Top(stack).segmentIndex + 1 == |segments|
                   && Matches(segments[|segments| - 1], name)
  {
    if Top(stack).isNotApplicable then false
    else IsLastSegment(segments, Top(stack)) && TestMatchingSegment(segments, Top(stack), name)
  }

  /** Include test for a directory: the name must fill an interior segment. */
  function IncludeTestDirectory(segments: seq<Segment>, stack: seq<Frame>, name: string): (r: bool)
    ensures r <==> !Top(stack).isNotApplicable && Top(stack).segmentIndex + 1 < |segments|
                   && Matches(segments[Top(stack).segmentIndex], name)
  {
    if Top(stack).isNotApplicable then false
    else !IsLastSegment(segments, Top(stack)) && TestMatchingSegment(segments, Top(stack), name)
  }

  /** Exclude test for a file: as for includes, the name must fill the last segment. */
  function ExcludeTestFile(segments: seq<Segment>, stack: seq<Frame>, name: string): (r: bool)
    ensures r <==> !Top(stack).isNotApplicable && Top(stack).segmentIndex + 1 == |segments|
                   && Matches(segments[|segments| - 1], name)
  {
    if Top(stack).isNotApplicable then false
    else IsLastSegment(segments, Top(stack)) && TestMatchingSegment(segments, Top(stack), name)
  }

  /** Exclude test for a directory: the directory is vetoed only where its name
      fills the LAST segment, never at an interior one. */
  function ExcludeTestDirectory(segments: seq<Segment>, stack: seq<Frame>, name: string): (r: bool)
    ensures r == ExcludeTestFile(segments, stack, name)
  {
    if Top(stack).isNotApplicable then false
    else IsLastSegment(segments, Top(stack)) && TestMatchingSegment(segments, Top(stack), name)
  }

  /** The outcome of a test that refuses to run before any directory is entered. */
  datatype TestOutcome = Tested(result: bool) | InvalidOperation

  /** The guarded exclude test of the newer namespace, for a file. */
  function GuardedExcludeTestFile(segments: seq<Segment>, stack: seq<Frame>, name: string): (r: TestOutcome)
    ensures r == InvalidOperation <==> |stack| == 0
    ensures |stack| > 0 ==> r == Tested(ExcludeTestFile(segments, stack, name))
  {
    if |stack| == 0 then InvalidOperation
    else if Top(stack).isNotApplicable then Tested(false)
    else Tested(IsLastSegment(segments, Top(stack)) && TestMatchingSegment(segments, Top(stack), name))
  }

  /** The guarded exclude test of the newer namespace, for a directory. */
  function GuardedExcludeTestDirectory(segments: seq<Segment>, stack: seq<Frame>, name: string): (r: TestOutcome)
    ensures r == InvalidOperation <==> |stack| == 0
    ensures |stack| > 0 ==> r == Tested(ExcludeTestDirectory(segments, stack, name))
  {
    if |stack| == 0 then InvalidOperation
    else if Top(stack).isNotApplicable then Tested(false)
    else Tested(IsLastSegment(segments, Top(stack)) && TestMatchingSegment(segments, Top(stack), name))
  }

  /** Enter the directories `names`, outermost first. */
  function PushAll(segments: seq<Segment>, stack: seq<Frame>, names: seq<string>): (r: seq<Frame>)
    ensures |r| == |stack| + |names|
    decreases |names|
  {
    if |names| == 0 then stack
    else PushDirectory(segments, PushAll(segments, stack, names[..|names| - 1]), names[|names| - 1])
  }

  /** The stack after entering the traversal root, then the directories `names` below it. */
  function Enter(segments: seq<Segment>, rootName: string, names: seq<string>): seq<Frame> {
    PushAll(segments, PushDirectory(segments, [], rootName), names)
  }

  /** The path components `path` match the first `|path|` segments. */
  predicate PrefixMatches(segments: seq<Segment>, path: seq<string>) {
    |path| <= |segments| && forall i :: 0 <= i < |path| ==> Matches(segments[i], path[i])
  }

  /** The path components match the pattern segment for segment. */
  predicate FullMatch(segments: seq<Segment>, path: seq<string>) {
    |path| == |segments| && PrefixMatches(segments, path)
  }

  /** Leaving a directory restores the stack exactly as it was before entering it. */
  lemma PopUndoesPush(segments: seq<Segment>, stack: seq<Frame>, name: string)
    ensures PopDirectory(PushDirectory(segments, stack, name)) == stack
  {
  }

  /** Once a frame is not applicable, every frame pushed above it is the same
      not-applicable frame, whatever the directories are called. */
  lemma {:induction false} NotApplicableIsSticky(segments: seq<Segment>, stack: seq<Frame>, names: seq<string>)
    requires |stack| > 0 && Top(stack).isNotApplicable
    ensures Top(PushAll(segments, stack, names)) == Top(stack)
    decreases |names|
  {
    if |names| > 0 {
      NotApplicableIsSticky(segments, stack, names[..|names| - 1]);
    }
  }

  /** The frame after a walk records exactly whether the directories entered
      below the root match the pattern's leading segments, and if so how many
      were consumed.  The root's own name plays no part. */
  lemma {:induction false} EnterTracksPath(segments: seq<Segment>, rootName: string, names: seq<string>)
    ensures |Enter(segments, rootName, names)| == |names| + 1
    ensures !Top(Enter(segments, rootName, names)).isNotApplicable <==> PrefixMatches(segments, names)
    ensures !Top(Enter(segments, rootName, names)).isNotApplicable ==>
              Top(Enter(segments, rootName, names)).segmentIndex == |names|
    ensures ValidStack(segments, Enter(segments, rootName, names))
    decreases |names|
  {
    if |names| > 0 {
      var init := names[..|names| - 1];
      EnterTracksPath(segments, rootName, init);
      assert PrefixMatches(segments, names) ==> PrefixMatches(segments, init) by {
        if PrefixMatches(segments, names) {
          forall i | 0 <= i < |init| ensures Matches(segments[i], init[i]) {
            assert init[i] == names[i];
          }
        }
      }
      assert Enter(segments, rootName, names)
          == PushDirectory(segments, Enter(segments, rootName, init), names[|names| - 1]);
    }
  }

  /** An include accepts a file exactly when the directories entered and the
      file name together match the whole pattern. */
  lemma IncludeFileMatchesWholePath(segments: seq<Segment>, rootName: string, names: seq<string>, file: string)
    ensures IncludeTestFile(segments, Enter(segments, rootName, names), file) <==> FullMatch(segments, names + [file])
  {
    EnterTracksPath(segments, rootName, names);
    PrefixOfExtension(segments, names, file);
  }

  /** An include accepts a directory exactly when the path down to it matches
      a proper prefix of the pattern, leaving the last segment for a file. */
  lemma IncludeDirectoryMatchesInteriorPrefix(segments: seq<Segment>, rootName: string, names: seq<string>, dir: string)
    ensures IncludeTestDirectory(segments, Enter(segments, rootName, names), dir)
        <==> |names| + 1 < |segments| && PrefixMatches(segments, names + [dir])
  {
    EnterTracksPath(segments, rootName, names);
    PrefixOfExtension(segments, names, dir);
  }

  /** An exclude vetoes a file or a directory exactly when the path down to it
      matches the whole pattern. */
  lemma ExcludeMatchesWholePath(segments: seq<Segment>, rootName: string, names: seq<string>, name: string)
    ensures ExcludeTestFile(segments, Enter(segments, rootName, names), name) <==> FullMatch(segments, names + [name])
    ensures ExcludeTestDirectory(segments, Enter(segments, rootName, names), name) <==> FullMatch(segments, names + [name])
  {
    EnterTracksPath(segments, rootName, names);
    PrefixOfExtension(segments, names, name);
  }

  /** Extending a path by one name extends a prefix match by one segment. */
  lemma PrefixOfExtension(segments: seq<Segment>, names: seq<string>, name: string)
    ensures PrefixMatches(segments, names + [name])
        <==> PrefixMatches(segments, names) && |names| < |segments| && Matches(segments[|names|], name)
  {
    var ext := names + [name];
    if PrefixMatches(segments, ext) {
      forall i | 0 <= i < |names| ensures Matches(segments[i], names[i]) {
        assert ext[i] == names[i];
      }
      assert ext[|names|] == name;
    }
  }

  /** For one frame, an include never accepts the same name both as a file
      and as a directory. */
  lemma IncludeTestsExclusive(segments: seq<Segment>, stack: seq<Frame>, name: string)
    ensures !(IncludeTestFile(segments, stack, name) && IncludeTestDirectory(segments, stack, name))
  {
  }

  /** For one frame, the exclude tests agree on files and directories. */
  lemma ExcludeTestsAgree(segments: seq<Segment>, stack: seq<Frame>, name: string)
    ensures ExcludeTestFile(segments, stack, name) == ExcludeTestDirectory(segments, stack, name)
  {
  }

  /** Whatever an include accepts was announced by its prediction: a file by a
      declaration flagged last, a directory by one that is not. */
  lemma PredictCoversIncludeTests(segments: seq<Segment>, stack: seq<Frame>, name: string)
    requires |stack| > 0
    ensures IncludeTestFile(segments, stack, name) ==>
              exists d :: d in Predict(segments, stack) && d.isLast && Matches(d.segment, name)
    ensures IncludeTestDirectory(segments, stack, name) ==>
              exists d :: d in Predict(segments, stack) && !d.isLast && Matches(d.segment, name)
  {
    var f := Top(stack);
    if !f.isNotApplicable && f.segmentIndex < |segments| {
      assert Predict(segments, stack)[0] == Declaration(segments[f.segmentIndex], f.segmentIndex + 1 == |segments|);
    }
  }
}
