# File-system globbing: the matching engine

This project models the matching engine of Microsoft.Framework.FileSystemGlobbing in Dafny and proves properties of that model.
The engine takes compiled include and exclude patterns and walks a directory tree depth first from a root directory.
It reports the relative paths of the files that at least one include pattern matches and no exclude pattern matches.

The model has these parts:

- **Segments** (`PathSegments`). A compiled path segment is a literal, a wildcard `prefix*inner*...*suffix`, the parent segment `..`, or `**`. A segment tests one name, comparing ordinally.
  - The wildcard test is a greedy leftmost scan. It is proved equal to a reference meaning: the prefix, the suffix and the inner parts all fit in the name, in order and without overlapping.
- **Patterns** (`Patterns`). A linear pattern has no `**`. A ragged pattern has a leading run, the "contains" groups between `**` components, and a trailing run.
- **Pattern contexts** (`PatternContextLinear`, `PatternContextRagged`, `PatternContexts`). Each pattern gets a context per run. The context keeps a stack of frames, one per directory entered. It can:
  - predict the segment it expects next;
  - test a file or a directory.
  - Include and exclude contexts differ only in their tests. Exclude contexts declare nothing.
- **The matcher context** (`MatcherContext`, `MatcherWalk`, `MatcherExcludes`). One directory is handled in these steps:
  - every context enters the directory;
  - the contexts' predictions are collected into declarations;
  - the declarations decide between listing the directory and looking up the declared folder names;
  - each entry is kept iff some include accepts it and no exclude does;
  - kept files are reported under the directory's relative path, joined with `/`;
  - kept directories are walked in order.
- **The matcher** (`Globbing`). An append-only pair of pattern lists, plus `Execute`.
- **An end-to-end run** (`Scenarios`). A whole run on a small tree is followed directory by directory, down to the exact result.
- **A finding** (`DuplicateFolders`). See "## Findings".

The tree is an in-memory datatype, `Dir(name, files, dirs)`, that stands in for the directory abstraction. A directory handle records the real location it points to and the name it reports. A handle obtained through `..` points at the parent but reports the name `..`, as the wrapper over the real file system does. A location that names no directory lists as empty.

Declaring and predicting are one operation in the model. A context's `Predict` lists what it expects, and the matcher context records each item with `DeclareInclude`. This covers both the callback style and the direct-call style that coexist in the library.

The ragged context's base class, and the literal and wildcard segment classes, are not part of this model. The model reconstructs the following parts:

- **Ragged frame.** It records:
  - which group the context is in (-1 while the leading run is matched);
  - the position inside the leading run;
  - how many directories were entered since the last group completed.
- **`TestMatchingGroup`.** The current group must match the entry and its nearest ancestors, and the directories entered since the last group must leave room for the group.
- **Wildcard test.** A length check, then the prefix, then the suffix, then each inner part searched for from where the previous one ended.
- **Group step.** When a directory completes a group, the frame moves on to the next group, once per directory. The released base class repeats that step while the new group is already complete. The two agree whenever no contains group is empty.
- **Exclude declarations.** The exclude contexts do not override the base class's declaring step (`MatcherContext.cs` calls it at lines 52-55). They are taken to declare nothing.

The library's tests proved against these reconstructions are these:

- the wildcard vectors of `PatternMatchingTests.cs` (`PathSegments`);
- the ragged prediction tests (`RaggedVectors.AbThenCdPredicts`, `RaggedVectors.AbThenCdMismatch`);
- the context-level steps of the `**/x/**` include and exclude runs, the sequential-folders run `a/b/**/1/2/**/2/3/**` and the `one/**/*.cs` run (`RaggedVectors`).

No other test constrains them.

## Model

| member | source | states |
|---|---|---|
| PathSegments.ParentMatches | src/Microsoft.Framework.FileSystemGlobbing/Infrastructure/ParentPathSegment.cs:10-12 | the parent segment accepts exactly the two-character name `..`, whatever comparison mode it is handed |
| PathSegments.ParentMatchesOnlyDotDot | src/Microsoft.Framework.FileSystemGlobbing/Infrastructure/ParentPathSegment.cs:12 | `..` is accepted and `.`, `...` and the empty name are rejected, in every comparison mode |
| PathSegments.ParentAcceptsOnlyDotDot | src/Microsoft.Framework.FileSystemGlobbing/Infrastructure/ParentPathSegment.cs:12 | the parent segment matches a name iff the name is `..` |
| PathSegments.LiteralIsOrdinal | test/Microsoft.Framework.FileSystemGlobbing.Tests/PatternSegments/LiteralPathSegmentTests.cs:27-29 | a literal matches only its own text, with case significant: `something` rejects `anything` and `Something` |
| PathSegments.IndexOf | test/Microsoft.Framework.FileSystemGlobbing.Tests/PatternMatchingTests.cs:94-100 | the bounded search returns the leftmost occurrence lying wholly inside the window, or -1 when none exists |
| PathSegments.ContainsInOrderIsPlacement | test/Microsoft.Framework.FileSystemGlobbing.Tests/PatternMatchingTests.cs:94-100 | the greedy scan for the inner parts succeeds iff some in-order, non-overlapping placement of them exists between prefix and suffix |
| PathSegments.WildcardMatchIsPlacement | test/Microsoft.Framework.FileSystemGlobbing.Tests/PatternMatchingTests.cs:94-100 | a wildcard accepts a name iff prefix, suffix and inner parts all fit in it without sharing characters |
| PathSegments.MatchAllMatchesEverything | src/Microsoft.Framework.FileSystemGlobbing/Infrastructure/PatternContextRaggedInclude.cs:15 | the all-empty wildcard matches every name |
| PathSegments.WildcardEndsDoNotOverlap | test/Microsoft.Framework.FileSystemGlobbing.Tests/PatternMatchingTests.cs:81-96 | `1234*5678` accepts `12345678`, `12345*5678` rejects it, `b*et*t` accepts `beta.txt` and `b*et*x` rejects it |
| PathSegments.WildcardInnerPartFits | test/Microsoft.Framework.FileSystemGlobbing.Tests/PatternMatchingTests.cs:97 | `12*3456*78` accepts `12345678` |
| PathSegments.WildcardInnerPartAfterPrefix | test/Microsoft.Framework.FileSystemGlobbing.Tests/PatternMatchingTests.cs:98 | `12*23*` rejects `12345678`: an inner part may not reuse the prefix |
| PathSegments.WildcardInnerPartBeforeSuffix | test/Microsoft.Framework.FileSystemGlobbing.Tests/PatternMatchingTests.cs:99-100 | `*67*78` and `*45*56` reject `12345678`: an inner part may not reuse the suffix |
| PatternContextLinear.PushDirectory | src/Microsoft.Framework.FileSystemGlobbing/PatternContexts/PatternContextLinear.cs:17-42 | exactly one frame is added and the frames below stay. The first frame is (applicable, 0) whatever the root is called. A not-applicable frame is copied. A mismatching name gives a not-applicable frame at the same index. A matching name advances the index by one. No frame's index passes the pattern length |
| PatternContextLinear.Predict | src/Microsoft.Framework.FileSystemGlobbing/PatternContexts/PatternContextLinearInclude.cs:17-33 | needs an entered directory. Declares nothing when not applicable or when the pattern is used up. Otherwise declares exactly the segment at the frame's index, flagged last iff it is the final one |
| PatternContextLinear.IncludeTestFile | src/Microsoft.Framework.FileSystemGlobbing/PatternContexts/PatternContextLinearInclude.cs:35-43 | a file is accepted iff the frame is applicable, at the last segment, and the name matches that segment |
| PatternContextLinear.IncludeTestDirectory | src/Microsoft.Framework.FileSystemGlobbing/PatternContexts/PatternContextLinearInclude.cs:45-53 | a directory is accepted iff the frame is applicable, before the last segment, and the name matches the segment at the frame's index |
| PatternContextLinear.ExcludeTestFile | src/Microsoft.Framework.FileSystemGlobbing/PatternContexts/PatternContextLinearExclude.cs:16-24 | a file is vetoed iff the frame is applicable, at the last segment, and the name matches it |
| PatternContextLinear.ExcludeTestDirectory | src/Microsoft.Framework.FileSystemGlobbing/PatternContexts/PatternContextLinearExclude.cs:26-34 | a directory gets the same verdict as a file of the same name: it is vetoed only where its name fills the last segment, never at an interior one |
| PatternContextLinear.GuardedExcludeTestFile | src/Microsoft.Framework.FileSystemGlobbing/Internal/PatternContexts/PatternContextLinearExclude.cs:17-30 | the error outcome happens iff no directory has been entered. Otherwise the verdict is the unguarded exclude test's |
| PatternContextLinear.GuardedExcludeTestDirectory | src/Microsoft.Framework.FileSystemGlobbing/Internal/PatternContexts/PatternContextLinearExclude.cs:32-45 | the same for directories |
| PatternContextLinear.PopUndoesPush | src/Microsoft.Framework.FileSystemGlobbing/PatternContexts/PatternContextLinear.cs:17-42 | leaving a directory restores the stack exactly as it was before entering it |
| PatternContextLinear.NotApplicableIsSticky | src/Microsoft.Framework.FileSystemGlobbing/PatternContexts/PatternContextLinear.cs:26-29 | once the current frame is not applicable, every frame pushed above it is the same frame, whatever the directories are called |
| PatternContextLinear.EnterTracksPath | src/Microsoft.Framework.FileSystemGlobbing/PatternContexts/PatternContextLinear.cs:20-39 | after entering the root and some directories, the frame is applicable iff the directory names match the leading segments. If so, its index is their number. The root's name plays no part |
| PatternContextLinear.IncludeFileMatchesWholePath | src/Microsoft.Framework.FileSystemGlobbing/PatternContexts/PatternContextLinearInclude.cs:35-43 | an include accepts a file iff the directory names plus the file name match the whole pattern segment for segment |
| PatternContextLinear.IncludeDirectoryMatchesInteriorPrefix | src/Microsoft.Framework.FileSystemGlobbing/PatternContexts/PatternContextLinearInclude.cs:45-53 | an include accepts a directory iff the path down to it matches a proper prefix of the pattern that leaves the last segment for a file |
| PatternContextLinear.ExcludeMatchesWholePath | src/Microsoft.Framework.FileSystemGlobbing/PatternContexts/PatternContextLinearExclude.cs:16-34 | an exclude vetoes a file or a directory iff the path down to it matches the whole pattern |
| PatternContextLinear.IncludeTestsExclusive | src/Microsoft.Framework.FileSystemGlobbing/PatternContexts/PatternContextLinearInclude.cs:42-52 | for one frame and one name, the include's file test and directory test are never both true |
| PatternContextLinear.ExcludeTestsAgree | src/Microsoft.Framework.FileSystemGlobbing/PatternContexts/PatternContextLinearExclude.cs:23-33 | for one frame and one name, the exclude's file and directory verdicts are equal |
| PatternContextLinear.PredictCoversIncludeTests | src/Microsoft.Framework.FileSystemGlobbing/PatternContexts/PatternContextLinearInclude.cs:17-53 | whatever the include accepts was predicted. A file was predicted by a matching declaration flagged last. A directory was predicted by a matching declaration not flagged last |
| PatternContextRagged.PushDirectory | test/Microsoft.Framework.FileSystemGlobbing.Tests/PatternContexts/PatternContextRaggedTests.cs:31-75 | exactly one frame is added and the frames below stay. The first frame starts in the leading phase, or at the first group when there is no leading run. Not-applicable frames stay so. In the leading phase the frame stays applicable iff the name matches the next leading segment. Past it, `..` ends applicability, and any other directory keeps the frame applicable. A directory that completes the current group (it and its nearest ancestors match the group, within the directories entered since the previous group) moves the frame to the next group with the count reset to 0. Any other directory keeps the group and adds one to the count. The group index never decreases and frames stay well formed |
| PatternContextRagged.Predict | src/Microsoft.Framework.FileSystemGlobbing/PatternContexts/PatternContextRaggedInclude.cs:17-37 | nothing when not applicable. In the leading phase, the next leading segment as a folder. Anywhere else, the match-all wildcard. Never flagged last |
| PatternContextRagged.IncludeTestFile | src/Microsoft.Framework.FileSystemGlobbing/PatternContexts/PatternContextRaggedInclude.cs:39-47 | a file is accepted iff the frame is applicable, in the trailing phase, and the trailing run matches the file and its nearest ancestors |
| PatternContextRagged.IncludeTestDirectory | src/Microsoft.Framework.FileSystemGlobbing/PatternContexts/PatternContextRaggedInclude.cs:49-63 | in the leading phase a directory is accepted iff its name matches the next leading segment. Past that phase every directory is accepted by an applicable frame. A not-applicable frame accepts nothing |
| PatternContextRagged.ExcludeTestFile | src/Microsoft.Framework.FileSystemGlobbing/PatternContexts/PatternContextRaggedExclude.cs:15-23 | the exclude's file verdict equals the include's |
| PatternContextRagged.ExcludeTestDirectory | src/Microsoft.Framework.FileSystemGlobbing/PatternContexts/PatternContextRaggedExclude.cs:25-47 | a directory is vetoed iff the frame is applicable, the current group matches it, and either the frame is in the trailing phase or the pattern ends in `**` and this is its last group. Otherwise it is never vetoed |
| PatternContextRagged.PopUndoesPush | src/Microsoft.Framework.FileSystemGlobbing/Infrastructure/MatcherContext.cs:186-210 | leaving a directory restores the stack exactly |
| PatternContextRagged.NotApplicableIsSticky | test/Microsoft.Framework.FileSystemGlobbing.Tests/PatternContexts/PatternContextRaggedTests.cs:62-75 | once not applicable, every frame pushed above is not applicable, whatever the directories |
| PatternContextRagged.LeadingPhaseIsLinear | test/Microsoft.Framework.FileSystemGlobbing.Tests/PatternContexts/PatternContextRaggedTests.cs:31-75 | while the leading run lasts, the frame is applicable iff the directory names match the leading segments. It leaves the leading phase right after the last of them |
| PatternContextRagged.LeadingStep | test/Microsoft.Framework.FileSystemGlobbing.Tests/PatternContexts/PatternContextRaggedTests.cs:31-36 | one step of the leading phase: applicable iff the name matches, and the position moves on by one or leaves the phase |
| PatternContextRagged.TrailingRecursiveMatchesEverything | test/Microsoft.Framework.FileSystemGlobbing.Tests/PatternMatchingTests.cs:166-176 | with a trailing `**`, once in the trailing phase every file and directory is accepted, and entering any directory other than `..` stays there |
| PatternContextRagged.PredictCoversIncludeTests | src/Microsoft.Framework.FileSystemGlobbing/PatternContexts/PatternContextRaggedInclude.cs:17-63 | a file is accepted only while the match-all wildcard is predicted. A directory is accepted only when some predicted segment matches its name |
| PatternContextRagged.GapSearch | test/Microsoft.Framework.FileSystemGlobbing.Tests/PatternMatchingTests.cs:232-243 | past the leading run, a frame waiting for a contains group stays at it, counting the directories entered, exactly as long as the group matches none of them with its nearest ancestors. Once one does, the frame has moved past that group for good. It stays applicable throughout when no directory is `..` |
| PatternContextRagged.GapCompletesAtFirstMatch | test/Microsoft.Framework.FileSystemGlobbing.Tests/PatternMatchingTests.cs:232-243 | the frame reaches group `i + 1`, with the count reset to 0, exactly at the first directory that completes group `i` |
| PatternContextRagged.ExcludeDirectoryVetoesSubtree | src/Microsoft.Framework.FileSystemGlobbing/PatternContexts/PatternContextRaggedExclude.cs:25-47 | for a pattern ending in `**`, past the leading run, a directory is vetoed iff entering it would put the frame in the trailing phase, where every file below is excluded. So the veto stands for the whole subtree |
| PatternContexts.NewContext | src/Microsoft.Framework.FileSystemGlobbing/Infrastructure/MatcherContext.cs:212-248 | a linear pattern (the library's `Contains == null`) gets a linear context and a ragged pattern a ragged one, for includes and excludes alike. The context is fresh and keeps its kind and pattern |
| PatternContexts.Push | src/Microsoft.Framework.FileSystemGlobbing/Infrastructure/MatcherContext.cs:199-210 | entering a directory adds exactly one frame and keeps the kind and the pattern |
| PatternContexts.Pop | src/Microsoft.Framework.FileSystemGlobbing/Infrastructure/MatcherContext.cs:186-197 | leaving a directory removes exactly one frame and keeps the kind and the pattern |
| PatternContexts.Predict | src/Microsoft.Framework.FileSystemGlobbing/Infrastructure/MatcherContext.cs:47-55 | an exclude declares nothing. An include declares at most one segment |
| PatternContexts.PopUndoesPush | src/Microsoft.Framework.FileSystemGlobbing/Infrastructure/MatcherContext.cs:186-210 | popping after pushing gives back the very same context |
| PatternContexts.PredictCoversTests | src/Microsoft.Framework.FileSystemGlobbing/Infrastructure/MatcherContext.cs:57-69 | an include accepts a file (other than `..`) only while something forcing a full listing is predicted. It accepts a directory only while that, or a direct lookup of the directory's name, is predicted |
| PatternContexts.TestFile | src/Microsoft.Framework.FileSystemGlobbing/Infrastructure/MatcherContext.cs:78 | a file accepted or vetoed by a linear context fills the pattern's last segment with its name. One accepted or vetoed by a ragged context has the trailing run matching it and its nearest ancestors |
| PatternContexts.TestDirectory | src/Microsoft.Framework.FileSystemGlobbing/Infrastructure/MatcherContext.cs:89 | a directory accepted or vetoed by a linear context matches the segment at the context's position, and a linear exclude vetoes only at the last segment. A ragged exclude vetoes only a directory that, with its nearest ancestors, matches the frame's current group |
| PatternContexts.ExcludeFileTestMirrorsInclude | src/Microsoft.Framework.FileSystemGlobbing/PatternContexts/PatternContextRaggedExclude.cs:15-23 | excluding a pattern vetoes exactly the files that including it accepts, for linear and ragged patterns alike |
| MatcherContext.DeclareInclude | src/Microsoft.Framework.FileSystemGlobbing/Infrastructure/MatcherContext.cs:118-140 | a literal flagged last joins the file list and one not flagged last joins the folder list. A parent segment sets the parent flag and a wildcard the wildcard flag. Anything else changes nothing. The folder list gains no repeats (see "## Findings") |
| MatcherContext.DeclareIncludeAsWritten | src/Microsoft.Framework.FileSystemGlobbing/Infrastructure/MatcherContext.cs:118-140 | the version as written: a folder literal is appended even when it is already listed |
| MatcherContext.DeclareIncludeAgreesUpToRepeats | src/Microsoft.Framework.FileSystemGlobbing/Infrastructure/MatcherContext.cs:118-140 | the corrected and the as-written versions agree on everything except repeated folder names |
| MatcherContext.DeclareAll | src/Microsoft.Framework.FileSystemGlobbing/Infrastructure/MatcherContext.cs:47-55 | starting from cleared declarations, a name is a file literal iff some declaration names it as a last literal. It is a folder literal iff some declaration names it as a non-last literal. Each flag is set iff some declaration calls for it |
| MatcherContext.DeclareAllAsWritten | src/Microsoft.Framework.FileSystemGlobbing/Infrastructure/MatcherContext.cs:47-55 | as written, the folder list grows by one entry per folder literal declared, repeats included |
| MatcherContext.PushFrame | src/Microsoft.Framework.FileSystemGlobbing/Infrastructure/MatcherContext.cs:199-210 | every context enters the directory. Nothing else changes and the order stays |
| MatcherContext.PopFrame | src/Microsoft.Framework.FileSystemGlobbing/Infrastructure/MatcherContext.cs:186-197 | every context leaves its current directory, one frame each |
| MatcherContext.PopFrameUndoesPushFrame | src/Microsoft.Framework.FileSystemGlobbing/Infrastructure/MatcherContext.cs:186-210 | leaving restores every context exactly |
| MatcherContext.Declared | src/Microsoft.Framework.FileSystemGlobbing/Infrastructure/MatcherContext.cs:47-55 | the collected declarations are exactly those some context predicts |
| MatcherContext.Candidates | src/Microsoft.Framework.FileSystemGlobbing/Infrastructure/MatcherContext.cs:57-69 | the handle obtained through `..` is a candidate whenever the parent was declared |
| MatcherContext.FolderLookups | src/Microsoft.Framework.FileSystemGlobbing/Infrastructure/MatcherContext.cs:64 | one handle per declared folder name, in declaration order, each pointing one level down (or at the parent for `..`) |
| MatcherContext.CandidatesAre | src/Microsoft.Framework.FileSystemGlobbing/Infrastructure/MatcherContext.cs:57-69 | the candidates are the listing when a wildcard or a file literal was declared. Otherwise they are the lookups of the declared folder names. In both cases `..` is added iff the parent was declared |
| MatcherContext.FolderLookupsDistinct | src/Microsoft.Framework.FileSystemGlobbing/Infrastructure/MatcherContext.cs:64 | distinct folder names give distinct handles, so a folder list without repeats looks each directory up once |
| MatcherContext.TestEntry | src/Microsoft.Framework.FileSystemGlobbing/Infrastructure/MatcherContext.cs:75-92 | a file entry is judged by the context's file test and a directory entry by its directory test, on the name the handle reports and its real ancestors |
| MatcherContext.AnyHit | src/Microsoft.Framework.FileSystemGlobbing/Infrastructure/MatcherContext.cs:159-166 | the early-exit scan finds a hit iff some context in the list accepts the entry |
| MatcherContext.MatchPatternContexts | src/Microsoft.Framework.FileSystemGlobbing/Infrastructure/MatcherContext.cs:154-184 | an entry is kept iff some include accepts it and no exclude does. With no includes nothing is kept |
| MatcherContext.CombinePath | src/Microsoft.Framework.FileSystemGlobbing/Infrastructure/MatcherContext.cs:142-152 | a missing or empty left part yields the name alone. Otherwise the result lies below the left part, after one `/`, and ends with the name |
| MatcherContext.CombinePathSplits | src/Microsoft.Framework.FileSystemGlobbing/Infrastructure/MatcherContext.cs:142-152 | splitting a joined path at the left part's length gives back the left part, a `/`, and the name |
| MatcherContext.ExtendsThroughCombine | src/Microsoft.Framework.FileSystemGlobbing/Infrastructure/MatcherContext.cs:101 | anything below a subdirectory's joined path is below the directory's own path |
| MatcherContext.Enter | src/Microsoft.Framework.FileSystemGlobbing/Infrastructure/MatcherContext.cs:45 | on entering a directory every include and exclude has entered it, in order |
| MatcherContext.EnterOffersDeclared | src/Microsoft.Framework.FileSystemGlobbing/Infrastructure/MatcherContext.cs:45-69 | an entry is offered on entering a directory iff: it is in the directory's listing and some entered context predicts a wildcard or a file literal; or none does and it is the lookup of a folder name some context predicts; or it is the `..` entry and some context predicts the parent segment. Excludes predict nothing, so only the includes choose |
| MatcherContext.DeclaredFromPredictions | src/Microsoft.Framework.FileSystemGlobbing/Infrastructure/MatcherContext.cs:47-58 | the declarations collected afresh force a full listing, name a folder, or set the parent flag exactly when some context predicts a declaration of that kind |
| MatcherContext.MatchedFiles | src/Microsoft.Framework.FileSystemGlobbing/Infrastructure/MatcherContext.cs:73-84 | at most one path per entry, and none without includes (`MatchedFilesAreKeptFiles` says which) |
| MatcherContext.MatchedFilesAreKeptFiles | src/Microsoft.Framework.FileSystemGlobbing/Infrastructure/MatcherContext.cs:73-84 | a path is reported for a directory's entries iff it joins the directory's path with the name of a kept file entry |
| MatcherContext.AcceptedDirs | src/Microsoft.Framework.FileSystemGlobbing/Infrastructure/MatcherContext.cs:86-95 | at most one subdirectory per entry, and none without includes (`AcceptedDirsAreKeptDirs` says which) |
| MatcherContext.AcceptedDirsAreKeptDirs | src/Microsoft.Framework.FileSystemGlobbing/Infrastructure/MatcherContext.cs:86-95 | the walk descends into exactly the kept directory entries |
| MatcherContext.OwnFiles | src/Microsoft.Framework.FileSystemGlobbing/Infrastructure/MatcherContext.cs:71-84 | without includes a directory reports none of its own files (`MatchedFilesAreKeptFiles` says which files are reported) |
| MatcherContext.Subdirectories | src/Microsoft.Framework.FileSystemGlobbing/Infrastructure/MatcherContext.cs:86-95 | without includes the walk descends into no subdirectory (`AcceptedDirsAreKeptDirs` says which it enters) |
| MatcherContext.Match | src/Microsoft.Framework.FileSystemGlobbing/Infrastructure/MatcherContext.cs:42-108 | the walk of a directory leaves every context's stack as it found it. Without includes it reports nothing |
| MatcherContext.MatchSubdirectories | src/Microsoft.Framework.FileSystemGlobbing/Infrastructure/MatcherContext.cs:98-104 | walking the accepted subdirectories one after the other leaves the contexts as they were |
| MatcherContext.DeclarationsCoverIncludeTests | src/Microsoft.Framework.FileSystemGlobbing/Infrastructure/MatcherContext.cs:47-69 | what an include would accept is covered by the collected declarations. A directory is covered by a listing, its name in the folder list, or the parent flag. A file is covered by a listing |
| MatcherContext.ChildDirectoryIsNeverSkipped | src/Microsoft.Framework.FileSystemGlobbing/Infrastructure/MatcherContext.cs:57-69 | choosing lookups over a full listing never hides a real subdirectory that an include would accept |
| MatcherContext.ChildFileIsNeverSkipped | src/Microsoft.Framework.FileSystemGlobbing/Infrastructure/MatcherContext.cs:57-69 | the same for a real file an include would accept |
| MatcherContext.NewContexts | src/Microsoft.Framework.FileSystemGlobbing/Infrastructure/MatcherContext.cs:212-248 | one fresh context per pattern, in pattern order |
| MatcherContext.Execute | src/Microsoft.Framework.FileSystemGlobbing/Infrastructure/MatcherContext.cs:33-40 | a run without include patterns reports nothing |
| MatcherWalk.MatchUnfolds | src/Microsoft.Framework.FileSystemGlobbing/Infrastructure/MatcherContext.cs:71-104 | a directory's own kept files come first, followed by what the walks of its accepted subdirectories find |
| MatcherWalk.MatchStaysBelow | src/Microsoft.Framework.FileSystemGlobbing/Infrastructure/MatcherContext.cs:80-103 | every path a walk reports lies below the path of the directory walked |
| MatcherWalk.SiblingsStayBelow | src/Microsoft.Framework.FileSystemGlobbing/Infrastructure/MatcherContext.cs:99-104 | what the walks of sibling directories find lies below one of them |
| MatcherWalk.MatchFindsOnlyBelow | src/Microsoft.Framework.FileSystemGlobbing/Infrastructure/MatcherContext.cs:86-104 | every reported path is one of the directory's own kept files or lies below a subdirectory the tests accepted |
| MatcherWalk.SiblingsFindWhatOneFinds | src/Microsoft.Framework.FileSystemGlobbing/Infrastructure/MatcherContext.cs:99-104 | a group of siblings reports a path iff the walk of one of them does |
| MatcherExcludes.DeclaredIgnoresExclude | src/Microsoft.Framework.FileSystemGlobbing/Infrastructure/MatcherContext.cs:52-55 | adding an exclude context changes no declaration |
| MatcherExcludes.EnterWithExtraExclude | src/Microsoft.Framework.FileSystemGlobbing/Infrastructure/MatcherContext.cs:45-69 | with one more exclude, a directory offers the same entries and the includes enter it the same way |
| MatcherExcludes.KeptWithoutExtraExclude | src/Microsoft.Framework.FileSystemGlobbing/Infrastructure/MatcherContext.cs:174-181 | an entry kept despite an extra exclude is kept without it |
| MatcherExcludes.ExcludeOnlyRemoves | src/Microsoft.Framework.FileSystemGlobbing/Infrastructure/MatcherContext.cs:42-108 | every path a walk reports with one more exclude, it reports without it |
| MatcherExcludes.ExecuteExcludeOnlyRemoves | src/Microsoft.Framework.FileSystemGlobbing/Infrastructure/MatcherContext.cs:24-40 | a whole run with one more exclude pattern reports a subset of what it reports without it |
| Globbing.AddInclude | src/Microsoft.Framework.FileSystemGlobbing/Matcher.cs:17-21 | appends exactly the one pattern to the includes and leaves the excludes alone |
| Globbing.AddExclude | src/Microsoft.Framework.FileSystemGlobbing/Matcher.cs:23-27 | appends exactly the one pattern to the excludes and leaves the includes alone |
| Globbing.AddsCommute | src/Microsoft.Framework.FileSystemGlobbing/Matcher.cs:17-27 | adding an include then an exclude gives the same matcher as the other order |
| Globbing.AddIncludesKeepsOrder | src/Microsoft.Framework.FileSystemGlobbing/Matcher.cs:17-21 | adding include patterns one at a time keeps them in the order added after the existing ones, and leaves the excludes untouched |
| Globbing.Execute | src/Microsoft.Framework.FileSystemGlobbing/Matcher.cs:29-33 | a matcher without includes matches nothing |
| Globbing.AddExcludeOnlyRemoves | src/Microsoft.Framework.FileSystemGlobbing/Matcher.cs:23-33 | adding an exclude can only take matches away |
| Abstractions.GetDirectory | src/Microsoft.Framework.FileSystemGlobbing/Abstractions/DirectoryInfoWrapper.cs:41-56 | the handle for `..` points at the parent and reports the name `..`. Any other handle points one level down and reports the name it was asked for |
| Abstractions.DotDotReportsDotDot | test/Microsoft.Framework.FileSystemGlobbing.Tests/FileAbstractionsTests.cs:84-91 | a directory obtained through `..` is called `..` and points at the parent |
| Abstractions.Enumerate | src/Microsoft.Framework.FileSystemGlobbing/Abstractions/DirectoryInfoWrapper.cs:22-39 | a directory that does not exist lists as empty. Otherwise the listing is its files, then its subdirectories, one entry each, in order |
| Abstractions.Child | src/Microsoft.Framework.FileSystemGlobbing/Abstractions/DirectoryInfoWrapper.cs:41-46 | the child found has the name asked for and is one of the directory's children. When none is found, no child has that name |
| Abstractions.Lineage | src/Microsoft.Framework.FileSystemGlobbing/Abstractions/DirectoryInfoWrapper.cs:63-66 | the chain of parent directories, nearest first: the path's names in reverse, one per level, ending at the root |
| Abstractions.DirInfo | src/Microsoft.Framework.FileSystemGlobbing/Abstractions/DirectoryInfoWrapper.cs:53-66 | a context sees the name the handle reports and the real names above it, nearest first, ending at the root, and none for the root itself |
| Abstractions.FileInfo | src/Microsoft.Framework.FileSystemGlobbing/Abstractions/DirectoryInfoWrapper.cs:33-36 | a context sees the file's name and the real names of its directory and those above, nearest first, ending at the root |
| Abstractions.FileEntries | src/Microsoft.Framework.FileSystemGlobbing/Abstractions/DirectoryInfoWrapper.cs:33-36 | one file entry per file name, in order, each seeing its directory's real ancestors |
| Abstractions.DirEntries | src/Microsoft.Framework.FileSystemGlobbing/Abstractions/DirectoryInfoWrapper.cs:28-32 | one directory entry per subdirectory, in order, each a handle one level down |
| Scenarios.IncompletePatternsDoNotExclude | test/Microsoft.Framework.FileSystemGlobbing.Tests/PatternMatchingTests.cs:153-164 | include `*/*.txt` with exclude `one/hello.txt` over `one/x.txt` and `two/x.txt` reports exactly `one/x.txt`, `two/x.txt` |
| RaggedVectors.AbThenCdPredicts | test/Microsoft.Framework.FileSystemGlobbing.Tests/PatternContexts/PatternContextRaggedTests.cs:31-60 | `/a/b/**/c/d` predicts `a` at the root, then `b`, then the match-all wildcard after `b`, `whatever` and `anything` |
| RaggedVectors.AbThenCdMismatch | test/Microsoft.Framework.FileSystemGlobbing.Tests/PatternContexts/PatternContextRaggedTests.cs:62-75 | `/a/b/**/c/d` predicts nothing after `b` or after `a/c` |
| RaggedVectors.AroundXIncludes | test/Microsoft.Framework.FileSystemGlobbing.Tests/PatternMatchingTests.cs:219-229 | an include `**/x/**` accepts the files `x/1` and `1/x/2` and rejects `x`, `1`, `1/x` and `1/2`, while letting the walk into `x` and `1` |
| RaggedVectors.AroundXExcludes | test/Microsoft.Framework.FileSystemGlobbing.Tests/PatternMatchingTests.cs:257-268 | an exclude `**/x/**` vetoes the directories `x` and `1/x` but not `1`, and none of the files `x`, `1`, `1/x` and `1/2` |
| RaggedVectors.SequentialAcceptsAdjacentGroups | test/Microsoft.Framework.FileSystemGlobbing.Tests/PatternMatchingTests.cs:232-243 | `a/b/**/1/2/**/2/3/**` accepts `a/b/1/2/2/3/x` |
| RaggedVectors.SequentialRejectsSharedFolder | test/Microsoft.Framework.FileSystemGlobbing.Tests/PatternMatchingTests.cs:232-243 | `a/b/**/1/2/**/2/3/**` rejects `a/b/1/2/3/y`: one folder cannot serve two groups |
| RaggedVectors.SequentialAcceptsSpreadGroups | test/Microsoft.Framework.FileSystemGlobbing.Tests/PatternMatchingTests.cs:232-243 | `a/b/**/1/2/**/2/3/**` accepts `a/b/a/1/2/4/2/3/b`: other folders may come between the groups |
| RaggedVectors.SequentialRejectsSwappedGroups | test/Microsoft.Framework.FileSystemGlobbing.Tests/PatternMatchingTests.cs:232-243 | `a/b/**/1/2/**/2/3/**` rejects `a/b/a/2/3/1/2/b`: the groups must come in order |
| RaggedVectors.SequentialNeedsLeadingRun | test/Microsoft.Framework.FileSystemGlobbing.Tests/PatternMatchingTests.cs:232-243 | `a/b/**/1/2/**/2/3/**` gives up on `1/2/2/3/x` at the first directory |
| RaggedVectors.OneThenCsMatches | test/Microsoft.Framework.FileSystemGlobbing.Tests/PatternMatchingTests.cs:191-202 | `one/**/*.cs` accepts `one/x.cs` and `one/two/x.cs`, rejects `x.cs` and `one/x.txt`, and does not enter `two` at the root, so `two/x.cs` is never reached |
| DuplicateFolders.BothDeclareFolderA | src/Microsoft.Framework.FileSystemGlobbing/Infrastructure/MatcherContext.cs:47-51 | the includes `a/x.cs` and `a/y.cs` both declare the folder literal `a` at the root |
| DuplicateFolders.AsWrittenLooksUpFolderTwice | src/Microsoft.Framework.FileSystemGlobbing/Infrastructure/MatcherContext.cs:118-130 | as written, the folder list is `a, a`, and `a` is a candidate twice |
| DuplicateFolders.CorrectedLooksUpFolderOnce | src/Microsoft.Framework.FileSystemGlobbing/Infrastructure/MatcherContext.cs:118-130 | corrected, the folder list is `a`, and `a` is a candidate once |

## Left out

- Pattern compilation (the pattern builder). The model takes compiled patterns. `AddInclude` and `AddExclude` take a compiled pattern rather than the pattern text.
- Case-insensitive comparison. Names are compared ordinally only. The comparison mode exists as a datatype only so that the parent segment can be shown to ignore it.
- Real file-system I/O. The directory wrapper is replaced by the in-memory tree. Only its two rules are kept: `..` reports the name `..`, and a missing directory lists as empty. Listing order is files first, then directories.
- The file watcher. It is concurrency and foreign library calls.
- Test fixtures and mock segments. They are scaffolding.
- Thrown exceptions. The include contexts throw when `Predict` is called before any directory is entered. In the model that case is a precondition of `Predict`. The newer linear exclude context also throws from its tests before entry. Its error path is a value (`TestOutcome`). The other tests throw nothing before entry. They return the verdict read from the frame type's default value, and the model's linear and ragged tests, and the dispatching `PatternContexts.TestFile` and `TestDirectory`, do the same. The matcher-level tests (`MatcherContext.TestEntry`, `AnyHit`, `MatchPatternContexts`) require every context to have entered the directory, which the walk always meets because it pushes before it tests.
- MatcherContext.Execute: the walk carries a depth bound, `RunFuel`: the tree's height, plus twice the total pattern length, plus one. It is not proved that this bound is never reached. So the model's result equals the unbounded walk's result only as far as that bound goes. The bound is needed because `..` makes the walk non-structural.
- MatcherContext.Execute: a null and an empty relative path are both handled (`CombinePath` treats them alike). Only the null one is passed at the root.
- Globbing.AddInclude: returning the receiver for chaining has no counterpart in a functional model. The updated matcher is the result.
- Globbing.Execute: running the same matcher twice on the same tree gives the same result trivially, because it is a pure function. No lemma states it.
- PatternContextLinear.GuardedExcludeTestFile: that a test leaves the frame stack alone holds by construction, because stacks are values. No lemma states it.
- The remaining end-to-end tests are not followed as whole runs through the matcher context: trailing `**`, leading and inner `**`, an exclude ending in a directory name, `**/x/**`, sequential folders and the leading `..`. For `**/x/**`, sequential folders and inner `**`, the steps of each pattern context along the test's paths are proved in `RaggedVectors`.
- The ragged context's base class, and the literal and wildcard segments, are not part of this model. Their behaviour is reconstructed as described above. The tests proved against the reconstruction are listed there.
- MatcherContext.Match: the walk records each declared folder name once, as the corrected `DeclareInclude` does. As written, the library looks up a folder declared by two includes twice, walks it twice and reports its files twice (see "## Findings"). `MatcherContext.Execute` and `Globbing.Execute` inherit this difference.

## Findings

| source | as written | input that shows it | evidently intended | confidence | as-written member | corrected member |
|---|---|---|---|---|---|---|
| src/Microsoft.Framework.FileSystemGlobbing/Infrastructure/MatcherContext.cs:118-130 | every folder literal declared is appended to a list, even when the same name is already there. Each list entry becomes a lookup at line 64 | includes `a/x.cs` and `a/y.cs` over a tree with folder `a` holding `x.cs` and `y.cs`: `a` is looked up twice, so it would be walked, and its files reported, twice | each declared folder is looked up once, so each subtree is visited at most once | not executed | DuplicateFolders.AsWrittenLooksUpFolderTwice | DuplicateFolders.CorrectedLooksUpFolderOnce |

The rest of the model uses the corrected `MatcherContext.DeclareInclude`, which does not append a folder name that is already listed. `MatcherContext.DeclareIncludeAsWritten` keeps the version as written.
