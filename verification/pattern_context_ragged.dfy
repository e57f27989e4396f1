/** The per-traversal state machine of a ragged pattern (one with `**`).

    A frame locates the match inside the pattern: `segmentGroupIndex` is -1
    while the leading run is being matched, `i` while the frame waits in the
    gap before contains group `i`, and `|contains|` once only the trailing run
    is left.  `segmentIndex` is the position inside the leading run, and
    `backtrackAvailable` counts the directories entered since the last group
    completed, which bounds how far up a group may be looked for. */
module PatternContextRagged {
  import opened PathSegments
  import opened Patterns
  import opened Abstractions

  datatype Frame = Frame(
    isNotApplicable: bool,
    segmentGroupIndex: int,
    segmentIndex: nat,
    backtrackAvailable: nat)

  /** The frame type's default value, read before the first push. */
  const DefaultFrame: Frame := Frame(false, 0, 0, 0)

  function Top(stack: seq<Frame>): Frame {
    if |stack| == 0 then DefaultFrame else stack[|stack| - 1]
  }

  /** The run of segments the frame is working on. */
  function Group(p: RaggedPattern, f: Frame): seq<Segment> {
    if f.segmentGroupIndex < 0 then p.startsWith
    else if f.segmentGroupIndex < |p.contains| then p.contains[f.segmentGroupIndex]
    else p.endsWith
  }

  predicate IsStartsWith(f: Frame) {
    f.segmentGroupIndex == -1
  }

  predicate IsEndsWith(p: RaggedPattern, f: Frame) {
    f.segmentGroupIndex == |p.contains|
  }

  predicate TestMatchingSegment(p: RaggedPattern, f: Frame, value: string) {
    f.segmentIndex < |Group(p, f)| && Matches(Group(p, f)[f.segmentIndex], value)
  }

  /** `group` matches the last `|group|` names of a path given nearest first
      (`names[0]` is the entry, `names[1]` its parent, ...). */
  predicate GroupMatchesEnd(group: seq<Segment>, names: seq<string>) {
    |group| <= |names| && forall k :: 0 <= k < |group| ==> Matches(group[|group| - 1 - k], names[k])
  }

  /** The current group matches the entry and its nearest ancestors, and the
      directories entered since the previous group leave room for it. */
  predicate TestMatchingGroup(p: RaggedPattern, f: Frame, entry: Info) {
    |Group(p, f)| <= f.backtrackAvailable + 1 && GroupMatchesEnd(Group(p, f), [entry.name] + entry.lineage)
  }

  /** Once a group is used up, move on to the next one (or to the trailing run). */
  function Advance(p: RaggedPattern, f: Frame): Frame {
    if f.segmentIndex == |Group(p, f)| && f.segmentGroupIndex != |p.contains|
    then f.(segmentGroupIndex := f.segmentGroupIndex + 1, segmentIndex := 0)
    else f
  }

  /** A frame that can occur: the group index is in range, the leading phase
      always has a leading segment left to match, and outside it the segment
      index is 0. */
  predicate FrameOk(p: RaggedPattern, f: Frame) {
    && -1 <= f.segmentGroupIndex <= |p.contains|
    && (f.segmentGroupIndex == -1 ==> f.segmentIndex < |p.startsWith|)
    && (f.segmentGroupIndex >= 0 ==> f.segmentIndex == 0)
  }

  predicate ValidStack(p: RaggedPattern, stack: seq<Frame>) {
    forall i :: 0 <= i < |stack| ==> FrameOk(p, stack[i])
  }

  /** Enter a directory.  The first push starts in the leading phase (or, when
      there is no leading run, straight at the first group); a not-applicable
      frame is copied; in the leading phase the name must match the next
      leading segment; in a gap `..` ends applicability, a name completing the
      group moves to the next group, and any other name widens the gap. */
  function PushDirectory(p: RaggedPattern, stack: seq<Frame>, dir: Info): (r: seq<Frame>)
    ensures |r| == |stack| + 1 && r[..|stack|] == stack
    ensures |stack| == 0 ==>
              Top(r) == (if |p.startsWith| == 0 then Frame(false, 0, 0, 0) else Frame(false, -1, 0, 0))
    ensures |stack| > 0 && Top(stack).isNotApplicable ==> Top(r).isNotApplicable
    ensures |stack| > 0 ==> Top(r).segmentGroupIndex >= Top(stack).segmentGroupIndex
    ensures |stack| > 0 && !Top(stack).isNotApplicable && IsStartsWith(Top(stack)) ==>
              (Top(r).isNotApplicable <==> !TestMatchingSegment(p, Top(stack), dir.name))
    ensures |stack| > 0 && !Top(stack).isNotApplicable && !IsStartsWith(Top(stack)) && dir.name == ".." ==>
              Top(r).isNotApplicable
    ensures |stack| > 0 && !Top(stack).isNotApplicable && !IsStartsWith(Top(stack)) && dir.name != ".." ==>
              !Top(r).isNotApplicable
    ensures |stack| > 0 && !Top(stack).isNotApplicable && !IsStartsWith(Top(stack)) && dir.name != ".."
            && !IsEndsWith(p, Top(stack)) && TestMatchingGroup(p, Top(stack), dir) ==>
              Top(r) == Frame(false, Top(stack).segmentGroupIndex + 1, 0, 0)
    ensures |stack| > 0 && FrameOk(p, Top(stack)) && !Top(stack).isNotApplicable && !IsStartsWith(Top(stack))
            && dir.name != ".." && (IsEndsWith(p, Top(stack)) || !TestMatchingGroup(p, Top(stack), dir)) ==>
              Top(r) == Top(stack).(backtrackAvailable := Top(stack).backtrackAvailable + 1)
    ensures ValidStack(p, stack) ==> ValidStack(p, r)
  {
    var frame := Top(stack);
    var next :=
      if |stack| == 0 then frame.(segmentGroupIndex := -1)
      else if frame.isNotApplicable then frame
      else if IsStartsWith(frame) then
        (if !TestMatchingSegment(p, frame, dir.name) then frame.(isNotApplicable := true)
         else frame.(segmentIndex := frame.segmentIndex + 1))
      else if dir.name == ".." then frame.(isNotApplicable := true)
      else if !IsEndsWith(p, frame) && TestMatchingGroup(p, frame, dir) then
        frame.(segmentIndex := |Group(p, frame)|, backtrackAvailable := 0)
      else frame.(backtrackAvailable := frame.backtrackAvailable + 1);
    stack + [Advance(p, next)]
  }

  function PopDirectory(stack: seq<Frame>): seq<Frame>
    requires |stack| > 0
  {
    stack[..|stack| - 1]
  }

  /** What the context expects next: inside the leading run, the next leading
      segment (as a directory); anywhere else, the match-all wildcard. */
  function Predict(p: RaggedPattern, stack: seq<Frame>): (r: seq<Declaration>)
    requires |stack| > 0
    ensures Top(stack).isNotApplicable ==> r == []
    ensures !Top(stack).isNotApplicable && IsStartsWith(Top(stack)) && Top(stack).segmentIndex < |p.startsWith| ==>
              r == [Declaration(p.startsWith[Top(stack).segmentIndex], false)]
    ensures !Top(stack).isNotApplicable && !IsStartsWith(Top(stack)) ==> r == [Declaration(MatchAll, false)]
    ensures forall d :: d in r ==> !d.isLast
  {
    var frame := Top(stack);
    if frame.isNotApplicable then []
    else if IsStartsWith(frame) && frame.segmentIndex < |Group(p, frame)| then
      [Declaration(Group(p, frame)[frame.segmentIndex], false)]
    else [Declaration(MatchAll, false)]
  }

  /** Include test for a file: only in the trailing phase, and only when the
      trailing run matches the file and its nearest ancestors. */
  function IncludeTestFile(p: RaggedPattern, stack: seq<Frame>, file: Info): (r: bool)
    ensures r <==> !Top(stack).isNotApplicable && Top(stack).segmentGroupIndex == |p.contains|
                   && |p.endsWith| <= Top(stack).backtrackAvailable + 1
                   && GroupMatchesEnd(p.endsWith, [file.name] + file.lineage)
  {
    if Top(stack).isNotApplicable then false
    else IsEndsWith(p, Top(stack)) && TestMatchingGroup(p, Top(stack), file)
  }

  /** Include test for a directory: in the leading phase the name must match
      the next leading segment; past it, every directory may lead to a match. */
  function IncludeTestDirectory(p: RaggedPattern, stack: seq<Frame>, dir: Info): (r: bool)
    ensures !Top(stack).isNotApplicable && !IsStartsWith(Top(stack)) ==> r
    ensures IsStartsWith(Top(stack)) ==>
              (r <==> !Top(stack).isNotApplicable && Top(stack).segmentIndex < |p.startsWith|
                      && Matches(p.startsWith[Top(stack).segmentIndex], dir.name))
    ensures Top(stack).isNotApplicable ==> !r
  {
    if Top(stack).isNotApplicable then false
    else if IsStartsWith(Top(stack)) && !TestMatchingSegment(p, Top(stack), dir.name) then false
    else true
  }

  /** Exclude test for a file: the same condition as the include test. */
  function ExcludeTestFile(p: RaggedPattern, stack: seq<Frame>, file: Info): (r: bool)
    ensures r == IncludeTestFile(p, stack, file)
  {
    if Top(stack).isNotApplicable then false
    else IsEndsWith(p, Top(stack)) && TestMatchingGroup(p, Top(stack), file)
  }

  /** Exclude test for a directory: the directory is vetoed when it matches the
      trailing run like a file would, or, for a pattern ending in a `**` component, when it
      completes the last group, which vetoes its whole subtree. */
  function ExcludeTestDirectory(p: RaggedPattern, stack: seq<Frame>, dir: Info): (r: bool)
    ensures r ==> !Top(stack).isNotApplicable && TestMatchingGroup(p, Top(stack), dir)
    ensures r <==> !Top(stack).isNotApplicable && TestMatchingGroup(p, Top(stack), dir) &&
                   (Top(stack).segmentGroupIndex == |p.contains| ||
                    (|p.endsWith| == 0 && Top(stack).segmentGroupIndex == |p.contains| - 1))
  {
    if Top(stack).isNotApplicable then false
    else if IsEndsWith(p, Top(stack)) && TestMatchingGroup(p, Top(stack), dir) then true
    else if |p.endsWith| == 0 && Top(stack).segmentGroupIndex == |p.contains| - 1 && TestMatchingGroup(p, Top(stack), dir) then true
    else false
  }

  /** Enter the directories `dirs`, outermost first. */
  function PushAll(p: RaggedPattern, stack: seq<Frame>, dirs: seq<Info>): (r: seq<Frame>)
    ensures |r| == |stack| + |dirs|
    decreases |dirs|
  {
    if |dirs| == 0 then stack
    else PushDirectory(p, PushAll(p, stack, dirs[..|dirs| - 1]), dirs[|dirs| - 1])
  }

  /** The stack after entering the traversal root, then the directories `dirs` below it. */
  function Enter(p: RaggedPattern, root: Info, dirs: seq<Info>): seq<Frame> {
    PushAll(p, PushDirectory(p, [], root), dirs)
  }

  /** The directories' names match the first `|dirs|` segments of `segments`. */
  predicate PrefixMatches(segments: seq<Segment>, dirs: seq<Info>) {
    |dirs| <= |segments| && forall i :: 0 <= i < |dirs| ==> Matches(segments[i], dirs[i].name)
  }

  lemma PopUndoesPush(p: RaggedPattern, stack: seq<Frame>, dir: Info)
    ensures PopDirectory(PushDirectory(p, stack, dir)) == stack
  {
  }

  /** Once a frame is not applicable, every frame pushed above it is not
      applicable either, whatever the directories are. */
  lemma {:induction false} NotApplicableIsSticky(p: RaggedPattern, stack: seq<Frame>, dirs: seq<Info>)
    requires |stack| > 0 && Top(stack).isNotApplicable
    ensures Top(PushAll(p, stack, dirs)).isNotApplicable
    decreases |dirs|
  {
    if |dirs| > 0 {
      NotApplicableIsSticky(p, stack, dirs[..|dirs| - 1]);
    }
  }

  /** While the leading run is not yet used up, a ragged context behaves like a
      linear one: the frame stays applicable exactly as long as the directory
      names match the leading segments, and it leaves the leading phase right
      after the last of them. */
  lemma {:induction false} LeadingPhaseIsLinear(p: RaggedPattern, root: Info, dirs: seq<Info>)
    requires |dirs| <= |p.startsWith|
    ensures ValidStack(p, Enter(p, root, dirs))
    ensures !Top(Enter(p, root, dirs)).isNotApplicable <==> PrefixMatches(p.startsWith, dirs)
    ensures PrefixMatches(p.startsWith, dirs) && |dirs| < |p.startsWith| ==>
              IsStartsWith(Top(Enter(p, root, dirs))) && Top(Enter(p, root, dirs)).segmentIndex == |dirs|
    ensures PrefixMatches(p.startsWith, dirs) && |dirs| == |p.startsWith| ==>
              !IsStartsWith(Top(Enter(p, root, dirs)))
    decreases |dirs|
  {
    if |dirs| > 0 {
      var init := dirs[..|dirs| - 1];
      var last := dirs[|dirs| - 1];
      LeadingPhaseIsLinear(p, root, init);
      var before := Enter(p, root, init);
      assert Enter(p, root, dirs) == PushDirectory(p, before, last);
      PrefixMatchesStep(p.startsWith, dirs);
      if !Top(before).isNotApplicable {
        LeadingStep(p, before, last);
      }
    }
  }

  /** Extending the directories by one extends a prefix match by one segment. */
  lemma PrefixMatchesStep(segments: seq<Segment>, dirs: seq<Info>)
    requires |dirs| > 0
    ensures PrefixMatches(segments, dirs)
        <==> PrefixMatches(segments, dirs[..|dirs| - 1]) && |dirs| <= |segments|
             && Matches(segments[|dirs| - 1], dirs[|dirs| - 1].name)
  {
    var init := dirs[..|dirs| - 1];
    if PrefixMatches(segments, dirs) {
      forall i | 0 <= i < |init| ensures Matches(segments[i], init[i].name) {
        assert init[i] == dirs[i];
      }
    }
  }

  /** One directory entered while the leading run is still being matched. */
  lemma LeadingStep(p: RaggedPattern, stack: seq<Frame>, dir: Info)
    requires |stack| > 0 && ValidStack(p, stack)
    requires !Top(stack).isNotApplicable && IsStartsWith(Top(stack))
    ensures var t := Top(PushDirectory(p, stack, dir));
      && (!t.isNotApplicable <==> Matches(p.startsWith[Top(stack).segmentIndex], dir.name))
      && (!t.isNotApplicable && Top(stack).segmentIndex + 1 < |p.startsWith| ==>
            IsStartsWith(t) && t.segmentIndex == Top(stack).segmentIndex + 1)
      && (!t.isNotApplicable && Top(stack).segmentIndex + 1 == |p.startsWith| ==> !IsStartsWith(t))
  {
    assert FrameOk(p, stack[|stack| - 1]);
  }

  /** A trailing `**` matches everything below: in the trailing phase with an
      empty trailing run every file is accepted, and entering any directory
      other than `..` keeps it that way. */
  lemma TrailingRecursiveMatchesEverything(p: RaggedPattern, stack: seq<Frame>, file: Info, dir: Info)
    requires |stack| > 0 && ValidStack(p, stack)
    requires |p.endsWith| == 0
    requires !Top(stack).isNotApplicable && IsEndsWith(p, Top(stack))
    requires dir.name != ".."
    ensures IncludeTestFile(p, stack, file)
    ensures IncludeTestDirectory(p, stack, dir)
    ensures !Top(PushDirectory(p, stack, dir)).isNotApplicable
    ensures IsEndsWith(p, Top(PushDirectory(p, stack, dir)))
  {
  }

  /** No directory named `..` among `dirs`. */
  predicate NoParentSteps(dirs: seq<Info>) {
    forall k :: 0 <= k < |dirs| ==> dirs[k].name != ".."
  }

  /** Starting from frame `f` in a gap, the current group matches none of the
      directories `dirs` together with its nearest ancestors, counting the
      directories entered since the previous group completed. */
  predicate StaysInGap(p: RaggedPattern, f: Frame, dirs: seq<Info>) {
    forall k :: 0 <= k < |dirs| ==>
      !TestMatchingGroup(p, f.(backtrackAvailable := f.backtrackAvailable + k), dirs[k])
  }

  /** Past the leading run, a frame waiting for contains group `i` looks for it
      in every directory entered: as long as the group matches none of them it
      stays at group `i` and counts the directories entered, and once one
      matches it moves past group `i` for good.  It stays applicable as long
      as no directory is `..`. */
  lemma {:induction false} GapSearch(p: RaggedPattern, stack: seq<Frame>, dirs: seq<Info>)
    requires |stack| > 0 && ValidStack(p, stack)
    requires !Top(stack).isNotApplicable && 0 <= Top(stack).segmentGroupIndex < |p.contains|
    requires NoParentSteps(dirs)
    ensures ValidStack(p, PushAll(p, stack, dirs))
    ensures !Top(PushAll(p, stack, dirs)).isNotApplicable
    ensures StaysInGap(p, Top(stack), dirs) ==>
              Top(PushAll(p, stack, dirs)) ==
              Top(stack).(backtrackAvailable := Top(stack).backtrackAvailable + |dirs|)
    ensures !StaysInGap(p, Top(stack), dirs) ==>
              Top(PushAll(p, stack, dirs)).segmentGroupIndex > Top(stack).segmentGroupIndex
    decreases |dirs|
  {
    if |dirs| > 0 {
      var init := dirs[..|dirs| - 1];
      assert NoParentSteps(init) by {
        forall k | 0 <= k < |init| ensures init[k].name != ".." {
          assert init[k] == dirs[k];
        }
      }
      GapSearch(p, stack, init);
      StaysInGapSnoc(p, Top(stack), dirs);
      GapStep(p, PushAll(p, stack, init), dirs[|dirs| - 1]);
    }
  }

  /** Staying in the gap through `dirs` is staying in it through all but the
      last directory, and the last one not completing the group either. */
  lemma StaysInGapSnoc(p: RaggedPattern, f: Frame, dirs: seq<Info>)
    requires |dirs| > 0
    ensures StaysInGap(p, f, dirs) <==>
            StaysInGap(p, f, dirs[..|dirs| - 1]) &&
            !TestMatchingGroup(p, f.(backtrackAvailable := f.backtrackAvailable + |dirs| - 1), dirs[|dirs| - 1])
  {
    var init := dirs[..|dirs| - 1];
    assert forall k :: 0 <= k < |init| ==> dirs[k] == init[k];
  }

  /** One directory other than `..` entered in a gap. */
  lemma GapStep(p: RaggedPattern, stack: seq<Frame>, dir: Info)
    requires |stack| > 0 && ValidStack(p, stack)
    requires !Top(stack).isNotApplicable && 0 <= Top(stack).segmentGroupIndex && dir.name != ".."
    ensures ValidStack(p, PushDirectory(p, stack, dir))
    ensures !Top(PushDirectory(p, stack, dir)).isNotApplicable
    ensures Top(PushDirectory(p, stack, dir)).segmentGroupIndex >= Top(stack).segmentGroupIndex
    ensures Top(stack).segmentGroupIndex < |p.contains| && TestMatchingGroup(p, Top(stack), dir) ==>
              Top(PushDirectory(p, stack, dir)).segmentGroupIndex == Top(stack).segmentGroupIndex + 1
    ensures !TestMatchingGroup(p, Top(stack), dir) ==>
              Top(PushDirectory(p, stack, dir)) == Top(stack).(backtrackAvailable := Top(stack).backtrackAvailable + 1)
  {
    assert FrameOk(p, stack[|stack| - 1]);
  }

  /** The frame reaches group `i + 1`, with the count of directories reset,
      exactly at the first directory that completes group `i`. */
  lemma GapCompletesAtFirstMatch(p: RaggedPattern, stack: seq<Frame>, before: seq<Info>, dir: Info)
    requires |stack| > 0 && ValidStack(p, stack)
    requires !Top(stack).isNotApplicable && 0 <= Top(stack).segmentGroupIndex < |p.contains|
    requires NoParentSteps(before) && dir.name != ".."
    requires StaysInGap(p, Top(stack), before)
    requires TestMatchingGroup(p, Top(stack).(backtrackAvailable := Top(stack).backtrackAvailable + |before|), dir)
    ensures Top(PushAll(p, stack, before + [dir])) == Frame(false, Top(stack).segmentGroupIndex + 1, 0, 0)
  {
    GapSearch(p, stack, before);
    assert (before + [dir])[..|before|] == before;
  }

  /** For a pattern ending in a `**` component, past the leading run, the
      exclude vetoes a directory exactly when entering it would put the frame
      in the trailing phase, where every file below is excluded: the veto
      stands for the whole subtree. */
  lemma ExcludeDirectoryVetoesSubtree(p: RaggedPattern, stack: seq<Frame>, dir: Info, file: Info)
    requires |stack| > 0 && ValidStack(p, stack)
    requires |p.endsWith| == 0
    requires !Top(stack).isNotApplicable && !IsStartsWith(Top(stack)) && dir.name != ".."
    ensures ExcludeTestDirectory(p, stack, dir) <==> IsEndsWith(p, Top(PushDirectory(p, stack, dir)))
    ensures ExcludeTestDirectory(p, stack, dir) ==> ExcludeTestFile(p, PushDirectory(p, stack, dir), file)
  {
    assert FrameOk(p, stack[|stack| - 1]);
  }

  /** Whatever an include accepts was announced by its prediction: a file is
      only ever accepted while the match-all wildcard is declared, and a
      directory by a declared segment it matches. */
  lemma PredictCoversIncludeTests(p: RaggedPattern, stack: seq<Frame>, entry: Info)
    requires |stack| > 0
    ensures IncludeTestFile(p, stack, entry) ==> Predict(p, stack) == [Declaration(MatchAll, false)]
    ensures IncludeTestDirectory(p, stack, entry) ==>
              exists d :: d in Predict(p, stack) && Matches(d.segment, entry.name)
  {
    var f := Top(stack);
    if IncludeTestDirectory(p, stack, entry) {
      MatchAllMatchesEverything(entry.name);
      assert Matches(Predict(p, stack)[0].segment, entry.name);
    }
  }
}
