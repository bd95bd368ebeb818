/**
 * The mount projector of the builder page (frontend/src/pages/Builder.tsx,
 * `createMountStructure` and `processFile` at lines 110-147, and the mount
 * decision at lines 149-168): the file forest becomes the nested
 * `{directory: …}` / `{file: {contents}}` record the sandbox mounts.
 */
module Mount {
  import opened Wrappers
  import opened FileTree

  /** A mount record: `{file: {contents}}` or `{directory: {name: entry, …}}`. */
  datatype Entry = FileEntry(contents: string) | Directory(entries: map<string, Entry>)

  /** Assigning keys of an object in order: a later assignment to a key replaces an earlier one. */
  function Apply(m: map<string, Entry>, writes: seq<(string, Entry)>): map<string, Entry>
    decreases |writes|
  {
    if writes == [] then m
    else Apply(m, writes[..|writes| - 1])[writes[|writes| - 1].0 := writes[|writes| - 1].1]
  }

  /** `Object.fromEntries`. */
  function FromEntries(pairs: seq<(string, Entry)>): map<string, Entry> {
    Apply(map[], pairs)
  }

  /** `file.content || ''`: a missing content mounts as the empty string. */
  function Contents(content: Option<string>): string {
    content.GetOr("")
  }

  /** What `processFile(node, false)` returns for a node: its own mount record. */
  function Project(n: Node): (e: Entry)
    ensures n.File? <==> e.FileEntry?
    decreases n, 1
  {
    match n
    case File(_, _, c) => FileEntry(Contents(c))
    case Folder(_, _, _, kids) => Directory(FromEntries(ChildEntries(kids)))
  }

  /** `children.map(child => [child.name, processFile(child, false)])`. */
  function ChildEntries(kids: seq<Node>): seq<(string, Entry)>
    decreases kids, 0
  {
    if kids == [] then []
    else ChildEntries(kids[..|kids| - 1]) + [(kids[|kids| - 1].name, Project(kids[|kids| - 1]))]
  }

  /**
   * The assignments `processFile(node, isRoot)` makes to the shared
   * `mountStructure`, in order: a folder first lets its children write,
   * then writes its own name, at any depth; a file writes only at the root.
   */
  function Writes(n: Node, isRoot: bool): (w: seq<(string, Entry)>)
    ensures n.Folder? || isRoot ==> |w| > 0 && w[|w| - 1] == (n.name, Project(n))
    ensures n.File? && !isRoot ==> w == []
    decreases n, 1
  {
    match n
    case File(name, _, c) => if isRoot then [(name, FileEntry(Contents(c)))] else []
    case Folder(name, _, _, kids) => LevelWrites(kids, false) + [(name, Project(n))]
  }

  /** The assignments of `processFile` over a sibling list, in order. */
  function LevelWrites(level: seq<Node>, isRoot: bool): seq<(string, Entry)>
    decreases level, 0
  {
    if level == [] then []
    else LevelWrites(level[..|level| - 1], isRoot) + Writes(level[|level| - 1], isRoot)
  }

  /** `createMountStructure(files)`: the final `mountStructure`. */
  function MountOf(files: seq<Node>): (m: map<string, Entry>)
    ensures m == map[] <==> files == []
  {
    if files == [] then map[]
    else
      LastRootWrites(files);
      Apply(map[], LevelWrites(files, true))
  }

  /** The last assignment over a non-empty forest is the last node's record, so that name ends up mounted. */
  lemma LastRootWrites(files: seq<Node>)
    requires files != []
    ensures files[|files| - 1].name in Apply(map[], LevelWrites(files, true))
  {
    var last := files[|files| - 1];
    var w := LevelWrites(files, true);
    assert w == LevelWrites(files[..|files| - 1], true) + Writes(last, true);
    assert w[|w| - 1] == (last.name, Project(last));
  }

  lemma {:induction false} ApplyConcat(m: map<string, Entry>, a: seq<(string, Entry)>, b: seq<(string, Entry)>)
    ensures Apply(m, a + b) == Apply(Apply(m, a), b)
    decreases |b|
  {
    if b == [] {
      assert a + b == a;
    } else {
      assert (a + b)[..|a + b| - 1] == a + b[..|b| - 1];
      ApplyConcat(m, a, b[..|b| - 1]);
    }
  }

  /** The shared `mountStructure` dictionary that `processFile` writes into. */
  class MountStructure {
    var entries: map<string, Entry>

    constructor ()
      ensures entries == map[]
    {
      entries := map[];
    }

    /**
     * `processFile` (Builder.tsx:113-141): returns the node's mount record
     * and performs the node's assignments on `entries`.
     */
    method ProcessFile(file: Node, isRootFolder: bool) returns (e: Entry)
      modifies this
      ensures e == Project(file)
      ensures entries == Apply(old(entries), Writes(file, isRootFolder))
      decreases file
    {
      match file
      case Folder(name, _, _, kids) =>
        var pairs: seq<(string, Entry)> := [];
        var i := 0;
        while i < |kids|
          invariant 0 <= i <= |kids|
          invariant pairs == ChildEntries(kids[..i])
          invariant entries == Apply(old(entries), LevelWrites(kids[..i], false))
        {
          ghost var before := entries;
          var child := ProcessFile(kids[i], false);
          ApplyConcat(old(entries), LevelWrites(kids[..i], false), Writes(kids[i], false));
          assert kids[..i + 1][..i] == kids[..i];
          pairs := pairs + [(kids[i].name, child)];
          i := i + 1;
        }
        assert kids[..i] == kids;
        entries := entries[name := Directory(FromEntries(pairs))];
        ApplyConcat(old(entries), LevelWrites(kids, false), [(name, Project(file))]);
        e := entries[name];
      case File(name, _, c) =>
        if isRootFolder {
          entries := entries[name := FileEntry(Contents(c))];
          assert Writes(file, isRootFolder) == [] + [(name, FileEntry(Contents(c)))];
          e := entries[name];
        } else {
          e := FileEntry(Contents(c));
        }
    }

    /**
     * `processFile` with the top-level assignment guarded by `isRootFolder`
     * for folders too, as it already is for files: nested nodes only
     * contribute to their parent's record.
     */
    method ProcessFileFixed(file: Node, isRootFolder: bool) returns (e: Entry)
      modifies this
      ensures e == Project(file)
      ensures entries == if isRootFolder then old(entries)[file.name := Project(file)] else old(entries)
      decreases file
    {
      match file
      case Folder(name, _, _, kids) =>
        var pairs: seq<(string, Entry)> := [];
        var i := 0;
        while i < |kids|
          invariant 0 <= i <= |kids|
          invariant pairs == ChildEntries(kids[..i])
          invariant entries == old(entries)
        {
          var child := ProcessFileFixed(kids[i], false);
          assert kids[..i + 1][..i] == kids[..i];
          pairs := pairs + [(kids[i].name, child)];
          i := i + 1;
        }
        assert kids[..i] == kids;
        e := Directory(FromEntries(pairs));
        if isRootFolder {
          entries := entries[name := e];
        }
      case File(name, _, c) =>
        e := FileEntry(Contents(c));
        if isRootFolder {
          entries := entries[name := e];
        }
    }
  }

  /** `createMountStructure` (Builder.tsx:110-147): process every top-level node as a root. */
  method CreateMountStructure(files: seq<Node>) returns (m: map<string, Entry>)
    ensures m == MountOf(files)
  {
    var mountStructure := new MountStructure();
    var i := 0;
    while i < |files|
      invariant 0 <= i <= |files|
      invariant mountStructure.entries == Apply(map[], LevelWrites(files[..i], true))
    {
      var _ := mountStructure.ProcessFile(files[i], true);
      ApplyConcat(map[], LevelWrites(files[..i], true), Writes(files[i], true));
      assert files[..i + 1][..i] == files[..i];
      i := i + 1;
    }
    assert files[..i] == files;
    m := mountStructure.entries;
  }

  /** The top-level record with one key per top-level node, holding that node's projection. */
  function IntendedMount(files: seq<Node>): map<string, Entry> {
    FromEntries(ChildEntries(files))
  }

  /** `createMountStructure` over the corrected `processFile`: the intended projection of the forest. */
  method CreateMountStructureFixed(files: seq<Node>) returns (m: map<string, Entry>)
    ensures m == IntendedMount(files)
  {
    var mountStructure := new MountStructure();
    var i := 0;
    while i < |files|
      invariant 0 <= i <= |files|
      invariant mountStructure.entries == FromEntries(ChildEntries(files[..i]))
    {
      var e := mountStructure.ProcessFileFixed(files[i], true);
      assert files[..i + 1][..i] == files[..i];
      assert ChildEntries(files[..i + 1]) == ChildEntries(files[..i]) + [(files[i].name, e)];
      i := i + 1;
    }
    assert files[..i] == files;
    m := mountStructure.entries;
  }

  /**
   * The mount decision (Builder.tsx:149-168): the structure is mounted only
   * when a container exists and the structure has at least one key.
   */
  function MountCall(hasContainer: bool, files: seq<Node>): (r: Option<map<string, Entry>>)
    ensures r.Some? <==> hasContainer && files != []
    ensures r.Some? ==> r.value == MountOf(files)
  {
    var m := MountOf(files);
    if hasContainer && |m.Keys| > 0 then Some(m) else None
  }
}
