/** The tree the matcher walks: an in-memory stand-in for the directory
    abstraction (enumerate children, get a named child directory).

    A directory handle records WHERE it points (the real path of names from
    the root of the modelled tree, which may name nothing) and the NAME it
    reports, which differs from the last real name only for a handle obtained
    through `..`. */
module Abstractions {
  import opened Wrappers

  datatype Dir = Dir(name: string, files: seq<string>, dirs: seq<Dir>)

  datatype DirHandle = DirHandle(location: seq<string>, name: string)

  /** What a pattern context may look at: the entry's reported name, and the
      real names of its parent, grandparent, ... up to the root of the tree. */
  datatype Info = Info(name: string, lineage: seq<string>)

  datatype Entry = FileEntry(info: Info) | DirEntry(handle: DirHandle)

  /** The first child directory called `name`. */
  function Child(dirs: seq<Dir>, name: string): (r: Option<Dir>)
    ensures r.Some? ==> r.value in dirs && r.value.name == name
    ensures r.None? ==> forall d :: d in dirs ==> d.name != name
  {
    if |dirs| == 0 then None
    else if dirs[0].name == name then Some(dirs[0])
    else Child(dirs[1..], name)
  }

  /** The directory at `location` below `root`, if there is one. */
  function Lookup(root: Dir, location: seq<string>): Option<Dir>
    decreases |location|
  {
    if |location| == 0 then Some(root)
    else match Child(root.dirs, location[0])
      case None => None
      case Some(d) => Lookup(d, location[1..])
  }

  /** Real location of the parent; the root is its own parent. */
  function ParentLocation(location: seq<string>): seq<string> {
    if |location| == 0 then location else location[..|location| - 1]
  }

  /** The real names from the directory at `location` up to the root, nearest
      first. */
  function Lineage(rootName: string, location: seq<string>): (r: seq<string>)
    ensures |r| == |location| + 1
    ensures r[|location|] == rootName
    ensures |location| > 0 ==> r[0] == location[|location| - 1]
    ensures forall k :: 0 <= k < |location| ==> r[k] == location[|location| - 1 - k]
    decreases |location|
  {
    if |location| == 0 then [rootName]
    else [location[|location| - 1]] + Lineage(rootName, location[..|location| - 1])
  }

  /** A handle for the child directory `name`, which may not exist.  For `..`
      the handle points at the parent but reports the name `..`. */
  function GetDirectory(h: DirHandle, name: string): (r: DirHandle)
    ensures name == ".." ==> r.name == ".." && r.location == ParentLocation(h.location)
    ensures name != ".." ==> r.name == name && r.location == h.location + [name]
  {
    if name == ".." then DirHandle(ParentLocation(h.location), "..")
    else DirHandle(h.location + [name], name)
  }

  /** What a pattern context sees of a directory handle: the name the handle
      reports, and the real names of the directories above it, nearest first,
      ending at the root of the tree (none for the root itself). */
  function DirInfo(root: Dir, h: DirHandle): (r: Info)
    ensures r.name == h.name
    ensures |h.location| == 0 ==> r.lineage == []
    ensures |h.location| > 0 ==> |r.lineage| == |h.location| && r.lineage[|h.location| - 1] == root.name
    ensures |h.location| > 1 ==> r.lineage[0] == h.location[|h.location| - 2]
  {
    Info(h.name, if |h.location| == 0 then [] else Lineage(root.name, ParentLocation(h.location)))
  }

  /** What a pattern context sees of the file `name` inside `h`: its name, and
      the real names from `h` up to the root of the tree, nearest first. */
  function FileInfo(root: Dir, h: DirHandle, name: string): (r: Info)
    ensures r.name == name
    ensures |r.lineage| == |h.location| + 1 && r.lineage[|h.location|] == root.name
    ensures |h.location| > 0 ==> r.lineage[0] == h.location[|h.location| - 1]
  {
    Info(name, Lineage(root.name, h.location))
  }

  /** The entry name as the walk reports it. */
  function EntryName(e: Entry): string {
    match e
    case FileEntry(i) => i.name
    case DirEntry(h) => h.name
  }

  function FileEntries(root: Dir, h: DirHandle, files: seq<string>): (r: seq<Entry>)
    ensures |r| == |files|
    ensures forall i :: 0 <= i < |files| ==> r[i] == FileEntry(FileInfo(root, h, files[i]))
  {
    if |files| == 0 then [] else [FileEntry(FileInfo(root, h, files[0]))] + FileEntries(root, h, files[1..])
  }

  function DirEntries(h: DirHandle, dirs: seq<Dir>): (r: seq<Entry>)
    ensures |r| == |dirs|
    ensures forall i :: 0 <= i < |dirs| ==> r[i] == DirEntry(GetDirectory(h, dirs[i].name))
  {
    if |dirs| == 0 then [] else [DirEntry(GetDirectory(h, dirs[0].name))] + DirEntries(h, dirs[1..])
  }

  /** Top-level enumeration: the files, then the subdirectories, of the
      directory `h` points at; nothing at all if it points at no directory. */
  function Enumerate(root: Dir, h: DirHandle): (r: seq<Entry>)
    ensures Lookup(root, h.location).None? ==> r == []
    ensures Lookup(root, h.location).Some? ==>
      var d := Lookup(root, h.location).value;
      |r| == |d.files| + |d.dirs| &&
      (forall i :: 0 <= i < |d.files| ==> r[i] == FileEntry(FileInfo(root, h, d.files[i]))) &&
      (forall i :: 0 <= i < |d.dirs| ==> r[|d.files| + i] == DirEntry(GetDirectory(h, d.dirs[i].name)))
  {
    match Lookup(root, h.location)
    case None => []
    case Some(d) =>
      var files := FileEntries(root, h, d.files);
      var dirs := DirEntries(h, d.dirs);
      assert forall i :: 0 <= i < |d.dirs| ==> (files + dirs)[|d.files| + i] == dirs[i];
      files + dirs
  }

  /** A handle obtained through `..` reports the name `..` and points at the
      parent of the directory it was obtained from. */
  lemma DotDotReportsDotDot(h: DirHandle)
    ensures GetDirectory(h, "..").name == ".."
    ensures GetDirectory(h, "..").location == ParentLocation(h.location)
  {
  }
}
