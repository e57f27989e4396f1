/** Compiled path segments: one per component of a glob pattern.

    A segment answers a single question: does this one file or directory
    name match me?  Names are compared ordinally (code unit by code unit). */
module PathSegments {

  /** The comparison mode a caller may pass to a segment test. */
  datatype Comparison = Ordinal | OrdinalIgnoreCase

  datatype Segment =
    | Literal(value: string)
      /** `prefix*inner1*inner2*suffix`: the name starts with `beginsWith`, ends
          with `endsWith`, and holds every string of `contains`, in order and
          without overlap, strictly between the two. */
    | Wildcard(beginsWith: string, contains: seq<string>, endsWith: string)
      /** `..` */
    | Parent
      /** `**`; only the pattern shape uses it, it matches no single name. */
    | RecursiveWildcard

  /** The all-empty wildcard (a lone `*`), which every name matches. */
  const MatchAll: Segment := Wildcard("", [], "")

  /** `part` occurs in `v` starting at index `p`. */
  predicate OccursAt(v: string, part: string, p: int) {
    0 <= p && p + |part| <= |v| && v[p..p + |part|] == part
  }

  /** The leftmost occurrence of `part` lying wholly inside `v[start..end]`,
      or -1 (a bounded `String.IndexOf`). */
  function IndexOf(v: string, part: string, start: nat, end: nat): (r: int)
    requires start <= end <= |v|
    ensures r == -1 || (start <= r && r + |part| <= end && OccursAt(v, part, r))
    ensures r == -1 ==> forall p :: start <= p && p + |part| <= end ==> !OccursAt(v, part, p)
    ensures r != -1 ==> forall p :: start <= p < r ==> !OccursAt(v, part, p)
    decreases end - start
  {
    if start + |part| > end then -1
    else if v[start..start + |part|] == part then start
    else IndexOf(v, part, start + 1, end)
  }

  /** The scan over the inner parts of a wildcard: each part is searched for
      from where the previous one ended, never past `end`. */
  function ContainsInOrder(v: string, parts: seq<string>, begin: nat, end: nat): bool
    requires begin <= end <= |v|
    decreases |parts|
  {
    if |parts| == 0 then true
    else
      var i := IndexOf(v, parts[0], begin, end);
      if i == -1 then false else ContainsInOrder(v, parts[1..], i + |parts[0]|, end)
  }

  /** Reference meaning of the inner parts: there is SOME placement of the parts,
      in order and without overlap, inside `v[begin..end]`. */
  ghost predicate PlacedInOrder(v: string, parts: seq<string>, begin: int, end: int)
    decreases |parts|
  {
    |parts| == 0 ||
    exists p :: begin <= p && p + |parts[0]| <= end && OccursAt(v, parts[0], p)
                && PlacedInOrder(v, parts[1..], p + |parts[0]|, end)
  }

  /** Reference meaning of a wildcard segment. */
  ghost predicate WildcardAccepts(beginsWith: string, contains: seq<string>, endsWith: string, v: string) {
    && |beginsWith| + |endsWith| <= |v|
    && v[..|beginsWith|] == beginsWith
    && v[|v| - |endsWith|..] == endsWith
    && PlacedInOrder(v, contains, |beginsWith|, |v| - |endsWith|)
  }

  /** The wildcard test: a length check, the prefix, the suffix, then the inner
      parts between them. */
  predicate WildcardMatch(beginsWith: string, contains: seq<string>, endsWith: string, v: string) {
    if |v| < |beginsWith| + |endsWith| then false
    else if !(beginsWith <= v) then false
    else if v[|v| - |endsWith|..] != endsWith then false
    else ContainsInOrder(v, contains, |beginsWith|, |v| - |endsWith|)
  }

  /** The parent segment's test; the comparison mode it is handed plays no part. */
  function ParentMatches(value: string, comparison: Comparison): (r: bool)
    ensures r <==> |value| == 2 && value[0] == '.' && value[1] == '.'
  {
    ".." == value
  }

  /** Does `value` match the segment (ordinal comparison)? */
  predicate Matches(s: Segment, value: string) {
    match s
    case Literal(x) => x == value
    case Wildcard(b, c, e) => WildcardMatch(b, c, e, value)
    case Parent => ParentMatches(value, Ordinal)
    case RecursiveWildcard => false
  }

  /** A placement that works from `b2` also works from any earlier `b1`. */
  lemma {:induction false} PlacedInOrderFromEarlier(v: string, parts: seq<string>, b1: int, b2: int, end: int)
    requires b1 <= b2
    requires PlacedInOrder(v, parts, b2, end)
    ensures PlacedInOrder(v, parts, b1, end)
  {
    if |parts| > 0 {
      var p :| b2 <= p && p + |parts[0]| <= end && OccursAt(v, parts[0], p)
               && PlacedInOrder(v, parts[1..], p + |parts[0]|, end);
      assert b1 <= p;
    }
  }

  /** The greedy leftmost scan finds a placement exactly when one exists: taking
      the earliest occurrence of each part never rules out a later part. */
  lemma {:induction false} ContainsInOrderIsPlacement(v: string, parts: seq<string>, begin: nat, end: nat)
    requires begin <= end <= |v|
    ensures ContainsInOrder(v, parts, begin, end) <==> PlacedInOrder(v, parts, begin, end)
    decreases |parts|
  {
    if |parts| > 0 {
      var part := parts[0];
      var i := IndexOf(v, part, begin, end);
      if i != -1 {
        ContainsInOrderIsPlacement(v, parts[1..], i + |part|, end);
        if PlacedInOrder(v, parts, begin, end) {
          var p :| begin <= p && p + |part| <= end && OccursAt(v, part, p)
                   && PlacedInOrder(v, parts[1..], p + |part|, end);
          assert i <= p;
          PlacedInOrderFromEarlier(v, parts[1..], i + |part|, p + |part|, end);
        }
      }
    }
  }

  /** The wildcard test accepts a name exactly when the prefix, the suffix and
      a non-overlapping in-order placement of the inner parts all fit in it. */
  lemma WildcardMatchIsPlacement(beginsWith: string, contains: seq<string>, endsWith: string, v: string)
    ensures Matches(Wildcard(beginsWith, contains, endsWith), v) <==> WildcardAccepts(beginsWith, contains, endsWith, v)
  {
    if |beginsWith| + |endsWith| <= |v| {
      ContainsInOrderIsPlacement(v, contains, |beginsWith|, |v| - |endsWith|);
    }
  }

  /** The all-empty wildcard accepts every name. */
  lemma MatchAllMatchesEverything(v: string)
    ensures Matches(MatchAll, v)
  {
  }

  /** Literal comparison is ordinal: case matters. */
  lemma LiteralIsOrdinal()
    ensures !Matches(Literal("something"), "anything")
    ensures !Matches(Literal("something"), "Something")
    ensures Matches(Literal("something"), "something")
  {
  }

  /** The parent segment matches `..` only, whatever comparison is requested. */
  lemma ParentMatchesOnlyDotDot(c: Comparison)
    ensures ParentMatches("..", c)
    ensures !ParentMatches(".", c) && !ParentMatches("...", c) && !ParentMatches("", c)
    ensures Matches(Parent, "..") && !Matches(Parent, "...")
  {
  }

  /** The only name the parent segment accepts is `..` itself. */
  lemma ParentAcceptsOnlyDotDot(value: string)
    ensures Matches(Parent, value) <==> value == ".."
  {
    if Matches(Parent, value) {
      assert value == [value[0], value[1]];
    }
  }

  /** Prefix and suffix may not share characters of the name. */
  lemma WildcardEndsDoNotOverlap()
    ensures Matches(Wildcard("1234", [], "5678"), "12345678")
    ensures !Matches(Wildcard("12345", [], "5678"), "12345678")
    ensures Matches(Wildcard("b", ["et"], "t"), "beta.txt")
    ensures !Matches(Wildcard("b", ["et"], "x"), "beta.txt")
  {
    assert "12345678"[..4] == "1234";
    assert "12345678"[4..] == "5678";
    assert "beta.txt"[7..] == "t";
    assert "beta.txt"[1..3] == "et";
  }

  /** An inner part fits between the prefix and the suffix. */
  lemma WildcardInnerPartFits()
    ensures Matches(Wildcard("12", ["3456"], "78"), "12345678")
  {
    assert "12345678"[..2] == "12";
    assert "12345678"[6..] == "78";
    assert "12345678"[2..6] == "3456";
  }

  /** An inner part may not reuse characters of the prefix. */
  lemma WildcardInnerPartAfterPrefix()
    ensures !Matches(Wildcard("12", ["23"], ""), "12345678")
  {
    var v := "12345678";
    assert IndexOf(v, "23", 2, 8) == -1 by {
      assert v[2..4] != "23" by { assert v[2] == '3'; }
      assert v[3..5] != "23" by { assert v[3] == '4'; }
      assert v[4..6] != "23" by { assert v[4] == '5'; }
      assert v[5..7] != "23" by { assert v[5] == '6'; }
      assert v[6..8] != "23" by { assert v[6] == '7'; }
    }
  }

  /** An inner part may not reuse characters of the suffix. */
  lemma WildcardInnerPartBeforeSuffix()
    ensures !Matches(Wildcard("", ["67"], "78"), "12345678")
    ensures !Matches(Wildcard("", ["45"], "56"), "12345678")
  {
    var v := "12345678";
    assert v[6..] == "78";
    assert v[4..] != "56" by { assert v[4] == '5' && v[5] == '6' && |v[4..]| == 4; }
    assert IndexOf(v, "67", 0, 6) == -1 by {
      assert v[0..2] != "67" by { assert v[0] == '1'; }
      assert v[1..3] != "67" by { assert v[1] == '2'; }
      assert v[2..4] != "67" by { assert v[2] == '3'; }
      assert v[3..5] != "67" by { assert v[3] == '4'; }
      assert v[4..6] != "67" by { assert v[4] == '5'; }
    }
  }
}
