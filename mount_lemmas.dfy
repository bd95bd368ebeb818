/**
 * What the mount projector produces: which keys the mounted structure has,
 * what each key holds, and where it departs from a plain projection of the
 * file forest.
 */
module MountFacts {
  import opened Wrappers
  import opened FileTree
  import opened Mount
  import FileTreeFacts

  /*** The write log ***/

  /** The value of the last assignment to `k` in `w`, if any. */
  function LastWrite(w: seq<(string, Entry)>, k: string): Option<Entry>
    decreases |w|
  {
    if w == [] then None
    else if w[|w| - 1].0 == k then Some(w[|w| - 1].1)
    else LastWrite(w[..|w| - 1], k)
  }

  /** The keys assigned in `w`. */
  function Keys(w: seq<(string, Entry)>): set<string>
    decreases |w|
  {
    if w == [] then {} else Keys(w[..|w| - 1]) + {w[|w| - 1].0}
  }

  /** After the assignments `w`, a key holds its last assignment, or its old value if it was never assigned. */
  lemma {:induction false} ApplyLookup(m: map<string, Entry>, w: seq<(string, Entry)>, k: string)
    ensures k in Apply(m, w) <==> k in m || LastWrite(w, k).Some?
    ensures LastWrite(w, k).Some? ==> Apply(m, w)[k] == LastWrite(w, k).value
    ensures LastWrite(w, k).None? && k in m ==> Apply(m, w)[k] == m[k]
    decreases |w|
  {
    if w != [] {
      ApplyLookup(m, w[..|w| - 1], k);
    }
  }

  lemma {:induction false} LastWriteConcat(a: seq<(string, Entry)>, b: seq<(string, Entry)>, k: string)
    ensures LastWrite(a + b, k) == if LastWrite(b, k).Some? then LastWrite(b, k) else LastWrite(a, k)
    decreases |b|
  {
    if b == [] {
      assert a + b == a;
    } else {
      assert (a + b)[..|a + b| - 1] == a + b[..|b| - 1];
      LastWriteConcat(a, b[..|b| - 1], k);
    }
  }

  lemma {:induction false} KeysConcat(a: seq<(string, Entry)>, b: seq<(string, Entry)>)
    ensures Keys(a + b) == Keys(a) + Keys(b)
    decreases |b|
  {
    if b == [] {
      assert a + b == a;
    } else {
      assert (a + b)[..|a + b| - 1] == a + b[..|b| - 1];
      KeysConcat(a, b[..|b| - 1]);
    }
  }

  /** A key has a last assignment exactly when it is assigned at all. */
  lemma {:induction false} LastWriteSome(w: seq<(string, Entry)>, k: string)
    ensures LastWrite(w, k).Some? <==> k in Keys(w)
    decreases |w|
  {
    if w != [] {
      LastWriteSome(w[..|w| - 1], k);
    }
  }

  /*** Names in the forest ***/

  /** The names of the nodes of one level. */
  function Names(level: seq<Node>): set<string>
    decreases |level|
  {
    if level == [] then {} else Names(level[..|level| - 1]) + {level[|level| - 1].name}
  }

  /** The names of the folders at any depth of a level, the level itself included. */
  function FolderNames(level: seq<Node>): set<string>
    decreases level, 0
  {
    if level == [] then {} else FolderNames(level[..|level| - 1]) + NodeFolderNames(level[|level| - 1])
  }

  /** The names of a node's folders: itself if it is a folder, and every folder below it. */
  function NodeFolderNames(n: Node): set<string>
    decreases n, 1
  {
    match n
    case File(_, _, _) => {}
    case Folder(name, _, _, kids) => {name} + FolderNames(kids)
  }

  /** The names of the folders strictly below the top level. */
  function NestedFolderNames(level: seq<Node>): set<string>
    decreases |level|
  {
    if level == [] then {}
    else NestedFolderNames(level[..|level| - 1]) + InnerFolderNames(level[|level| - 1])
  }

  function InnerFolderNames(n: Node): set<string> {
    match n
    case File(_, _, _) => {}
    case Folder(_, _, _, kids) => FolderNames(kids)
  }

  /** A root node's assignments: those of the folders below it, then its own name with its projection. */
  lemma RootWrites(n: Node)
    ensures Writes(n, true) == (if n.Folder? then LevelWrites(n.children, false) else []) + [(n.name, Project(n))]
  {
  }

  /** Which keys a node's processing assigns. */
  lemma {:induction false} NodeWriteKeys(n: Node)
    ensures Keys(Writes(n, false)) == NodeFolderNames(n)
    ensures Keys(Writes(n, true)) == {n.name} + InnerFolderNames(n)
    decreases n, 1
  {
    match n
    case File(name, _, c) =>
      assert Keys(Writes(n, true)) == Keys([]) + {name};
    case Folder(name, _, _, kids) =>
      LevelWriteKeys(kids);
      KeysConcat(LevelWrites(kids, false), [(name, Project(n))]);
      assert Keys([(name, Project(n))]) == Keys([]) + {name};
  }

  /** Which keys a level's processing assigns: every folder at any depth, and at the root every top-level name. */
  lemma {:induction false} LevelWriteKeys(level: seq<Node>)
    ensures Keys(LevelWrites(level, false)) == FolderNames(level)
    ensures Keys(LevelWrites(level, true)) == Names(level) + NestedFolderNames(level)
    decreases level, 0
  {
    if level != [] {
      var init, last := level[..|level| - 1], level[|level| - 1];
      LevelWriteKeys(init);
      NodeWriteKeys(last);
      KeysConcat(LevelWrites(init, false), Writes(last, false));
      KeysConcat(LevelWrites(init, true), Writes(last, true));
    }
  }

  /** The mounted structure has a key for every top-level node and for every nested folder, and no other. */
  lemma MountKeys(files: seq<Node>)
    ensures MountOf(files).Keys == Names(files) + NestedFolderNames(files)
  {
    LevelWriteKeys(files);
    forall k ensures k in MountOf(files) <==> k in Keys(LevelWrites(files, true)) {
      ApplyLookup(map[], LevelWrites(files, true), k);
      LastWriteSome(LevelWrites(files, true), k);
    }
  }

  /*** Directory records ***/

  /** The index of the last node named `k` in a level. */
  function LastNamed(level: seq<Node>, k: string): (r: Option<nat>)
    ensures r.Some? ==> r.value < |level| && level[r.value].name == k
    ensures r.Some? ==> forall j :: r.value < j < |level| ==> level[j].name != k
    ensures r.None? ==> forall j :: 0 <= j < |level| ==> level[j].name != k
    decreases |level|
  {
    if level == [] then None
    else if level[|level| - 1].name == k then Some(|level| - 1)
    else LastNamed(level[..|level| - 1], k)
  }

  lemma {:induction false} ChildEntriesLast(level: seq<Node>, k: string)
    ensures LastWrite(ChildEntries(level), k)
         == if LastNamed(level, k).Some? then Some(Project(level[LastNamed(level, k).value])) else None
    decreases |level|
  {
    if level != [] {
      ChildEntriesLast(level[..|level| - 1], k);
    }
  }

  /** The record of the child entries: one key per child name, holding the projection of the last child with that name. */
  lemma EntriesOf(level: seq<Node>, k: string)
    ensures k in FromEntries(ChildEntries(level)) <==> LastNamed(level, k).Some?
    ensures LastNamed(level, k).Some?
        ==> FromEntries(ChildEntries(level))[k] == Project(level[LastNamed(level, k).value])
  {
    ApplyLookup(map[], ChildEntries(level), k);
    ChildEntriesLast(level, k);
  }

  /** A folder mounts as a directory whose keys are its children's names; the later of two same-named children wins. */
  lemma DirectoryOf(n: Node, k: string)
    requires n.Folder?
    ensures Project(n).Directory?
    ensures k in Project(n).entries <==> exists j :: 0 <= j < |n.children| && n.children[j].name == k
    ensures LastNamed(n.children, k).Some?
        ==> Project(n).entries[k] == Project(n.children[LastNamed(n.children, k).value])
  {
    EntriesOf(n.children, k);
  }

  /*** The intended projection ***/

  /** Following the segments `q` through nested directory records. */
  function Lookup(m: map<string, Entry>, q: seq<string>): Option<Entry>
    requires |q| > 0
    decreases |q|
  {
    if q[0] !in m then None
    else if |q| == 1 then Some(m[q[0]])
    else match m[q[0]]
      case FileEntry(_) => None
      case Directory(inner) => Lookup(inner, q[1..])
  }

  /**
   * Round trip for the intended projection: in a well-formed forest, every
   * node reached by a path is reached in the mounted record by the same
   * segments, and holds that node's projection (for a file, its contents).
   */
  lemma {:induction false} IntendedLookup(level: seq<Node>, dir: string, q: seq<string>)
    requires |q| > 0
    requires FileTreeFacts.WellFormed(level, dir)
    requires Find(level, dir, q).Some?
    ensures Lookup(FromEntries(ChildEntries(level)), q) == Some(Project(Find(level, dir, q).value))
    decreases |q|
  {
    var p := dir + "/" + q[0];
    var i := FindPath(level, p);
    FileTreeFacts.SlashCancel(dir, level[i].name, q[0]);
    FileTreeFacts.SiblingNamesDistinct(level, dir);
    assert LastNamed(level, q[0]) == Some(i);
    EntriesOf(level, q[0]);
    if |q| > 1 {
      var kids := level[i].children;
      IntendedLookup(kids, p, q[1..]);
    }
  }

  /** The intended projection of a well-formed forest keeps every stored file's contents under its own path. */
  lemma IntendedMountKeepsFiles(files: seq<Node>, q: seq<string>, name: string, path: string, c: Option<string>)
    requires |q| > 0
    requires FileTreeFacts.WellFormed(files, "")
    requires Find(files, "", q) == Some(File(name, path, c))
    ensures Lookup(IntendedMount(files), q) == Some(FileEntry(Contents(c)))
  {
    IntendedLookup(files, "", q);
  }

  /*** The projection as written ***/

  lemma {:induction false} RootLastWrite(files: seq<Node>, k: string)
    requires k !in NestedFolderNames(files)
    ensures LastWrite(LevelWrites(files, true), k) == LastWrite(ChildEntries(files), k)
    decreases |files|
  {
    if files != [] {
      var init, last := files[..|files| - 1], files[|files| - 1];
      RootLastWrite(init, k);
      var inner := if last.Folder? then LevelWrites(last.children, false) else [];
      RootWrites(last);
      LastWriteConcat(LevelWrites(init, true), Writes(last, true), k);
      LastWriteConcat(inner, [(last.name, Project(last))], k);
      LastWriteConcat(ChildEntries(init), [(last.name, Project(last))], k);
      if last.Folder? {
        LevelWriteKeys(last.children);
      }
      LastWriteSome(inner, k);
    }
  }

  /**
   * As written, the mounted structure agrees with the intended projection on
   * every top-level name that is not also the name of a nested folder.
   */
  lemma MountAgreesUnlessShadowed(files: seq<Node>, k: string)
    requires k in Names(files)
    requires k !in NestedFolderNames(files)
    ensures k in MountOf(files) && k in IntendedMount(files)
    ensures MountOf(files)[k] == IntendedMount(files)[k]
  {
    MountKeys(files);
    RootLastWrite(files, k);
    ApplyLookup(map[], LevelWrites(files, true), k);
    ApplyLookup(map[], ChildEntries(files), k);
  }

  /**
   * A top-level file mounts as `{file: {contents}}` with its content, or the
   * empty string when it has none, provided no later top-level node and no
   * nested folder has its name.
   */
  lemma RootFileMounts(files: seq<Node>, i: nat)
    requires i < |files| && files[i].File?
    requires forall j :: i < j < |files| ==> files[j].name != files[i].name
    requires files[i].name !in NestedFolderNames(files)
    ensures files[i].name in MountOf(files)
    ensures MountOf(files)[files[i].name] == FileEntry(Contents(files[i].content))
  {
    var k := files[i].name;
    assert LastNamed(files, k) == Some(i);
    NamesHas(files, i);
    MountAgreesUnlessShadowed(files, k);
    EntriesOf(files, k);
  }

  lemma {:induction false} NamesHas(level: seq<Node>, i: nat)
    requires i < |level|
    ensures level[i].name in Names(level)
    decreases |level|
  {
    if i < |level| - 1 {
      NamesHas(level[..|level| - 1], i);
    }
  }

  /** The folder `src/lib`, holding the file `a`. */
  function InnerLib(): Node {
    Folder("lib", "/src/lib", None, [File("a", "/src/lib/a", Some("A"))])
  }

  /** A well-formed forest with a top-level folder `lib` and a nested folder `src/lib`. */
  function ShadowForest(): seq<Node> {
    [ Folder("lib", "/lib", None, [File("b", "/lib/b", Some("B"))]),
      Folder("src", "/src", None, [InnerLib()]) ]
  }

  lemma ShadowForestWellFormed()
    ensures FileTreeFacts.WellFormed(ShadowForest(), "")
    ensures Find(ShadowForest(), "", ["lib", "b"]) == Some(File("b", "/lib/b", Some("B")))
  {
    var b := File("b", "/lib/b", Some("B"));
    var a := File("a", "/src/lib/a", Some("A"));
    var lib := Folder("lib", "/lib", None, [b]);
    var inner := InnerLib();
    var files := ShadowForest();
    assert ("/lib" + "/" + "b") == "/lib/b";
    assert ("/src" + "/" + "lib") == "/src/lib";
    assert ("/src/lib" + "/" + "a") == "/src/lib/a";
    assert ("" + "/" + "lib") == "/lib";
    assert ("" + "/" + "src") == "/src";
    assert FileTreeFacts.WellFormed([a], "/src/lib");
    assert FileTreeFacts.WellFormed([inner], "/src");
    assert FileTreeFacts.WellFormed([b], "/lib");
    assert files[0] == lib;
    assert FindPath(files, "/lib") == 0;
    assert FindPath([b], "/lib/b") == 0;
  }

  /** `src/lib` writes only its own name, and holds no `b`. */
  lemma InnerLibWrites()
    ensures Writes(InnerLib(), false) == [("lib", Project(InnerLib()))]
    ensures Project(InnerLib()).Directory? && "b" !in Project(InnerLib()).entries
  {
    var a := File("a", "/src/lib/a", Some("A"));
    assert [a][..0] == [];
    assert LevelWrites([a], false) == [];
    assert ChildEntries([a]) == [("a", FileEntry("A"))];
    assert [("a", FileEntry("A"))][..0] == [];
    assert FromEntries([("a", FileEntry("A"))]) == map["a" := FileEntry("A")];
  }

  /** The last two assignments over the forest: `src/lib` to `lib`, then `src` to `src`. */
  lemma ShadowWriteLog()
    ensures var w := LevelWrites(ShadowForest(), true);
            |w| >= 2 && w[|w| - 1].0 == "src" && w[|w| - 2] == ("lib", Project(InnerLib()))
  {
    var lib := Folder("lib", "/lib", None, [File("b", "/lib/b", Some("B"))]);
    var src := Folder("src", "/src", None, [InnerLib()]);
    var files := ShadowForest();
    InnerLibWrites();
    assert files == [lib, src];
    assert files[..1] == [lib];
    assert [InnerLib()][..0] == [];
    assert LevelWrites([InnerLib()], false) == [("lib", Project(InnerLib()))];
    var w := LevelWrites(files, true);
    assert w == LevelWrites([lib], true) + [("lib", Project(InnerLib())), ("src", Project(src))];
  }

  /** A key assigned next to last keeps that value when the last assignment is to another key. */
  lemma NextToLastWrite(m: map<string, Entry>, w: seq<(string, Entry)>, k: string, e: Entry)
    requires |w| >= 2 && w[|w| - 2] == (k, e) && w[|w| - 1].0 != k
    ensures k in Apply(m, w) && Apply(m, w)[k] == e
  {
    var n := |w|;
    assert w[..n - 1][..n - 2] == w[..n - 2];
    assert w[..n - 1][n - 2] == (k, e);
  }

  /** As written, the top-level key `lib` ends up holding `src/lib`. */
  lemma ShadowMountLib()
    ensures "lib" in MountOf(ShadowForest()) && MountOf(ShadowForest())["lib"] == Project(InnerLib())
  {
    var files := ShadowForest();
    ShadowWriteLog();
    NextToLastWrite(map[], LevelWrites(files, true), "lib", Project(InnerLib()));
    assert files != [];
  }

  /** As written, the nested `src/lib` is assigned to the key `lib` last, so `lib/b` is not mounted. */
  lemma ShadowForestMount()
    ensures Lookup(MountOf(ShadowForest()), ["lib", "b"]) == None
  {
    ShadowMountLib();
    InnerLibWrites();
    assert ["lib", "b"][1..] == ["b"];
  }

  /** In the intended projection the top-level `lib` keeps its file `b`. */
  lemma ShadowForestIntended()
    ensures Lookup(IntendedMount(ShadowForest()), ["lib", "b"]) == Some(FileEntry("B"))
  {
    var b := File("b", "/lib/b", Some("B"));
    var lib := Folder("lib", "/lib", None, [b]);
    var files := ShadowForest();
    assert files[0] == lib;
    assert [b][..0] == [];
    assert ChildEntries([b]) == [("b", FileEntry("B"))];
    EntriesOf(files, "lib");
    assert LastNamed(files, "lib") == Some(0);
    EntriesOf([b], "b");
    assert LastNamed([b], "b") == Some(0);
  }

  /**
   * As written, a nested folder `src/lib` is also assigned to the top-level
   * key `lib`, after the top-level folder `lib` was: the file `lib/b` is not
   * in the mounted structure, although the forest is well formed.
   */
  lemma NestedFolderHidesTopLevel()
    ensures var files := ShadowForest();
            && FileTreeFacts.WellFormed(files, "")
            && Find(files, "", ["lib", "b"]) == Some(File("b", "/lib/b", Some("B")))
            && Lookup(MountOf(files), ["lib", "b"]) == None
            && Lookup(IntendedMount(files), ["lib", "b"]) == Some(FileEntry("B"))
  {
    ShadowForestWellFormed();
    ShadowForestMount();
    ShadowForestIntended();
  }
}
