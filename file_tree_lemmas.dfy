/**
 * What the file-tree builder of frontend/src/pages/Builder.tsx:45-107
 * promises, proved about its specification `FileTree.Insert`.
 */
module FileTreeFacts {
  import opened Wrappers
  import opened Plan
  import opened FileTree

  /*** Paths ***/

  /** Splitting on every `/` and joining back with `/` gives the original path. */
  lemma {:induction false} SplitJoin(s: string)
    ensures JoinSlash(Split(s)) == s
  {
    if |s| > 0 {
      var rest := Split(s[1..]);
      SplitJoin(s[1..]);
      if s[0] == '/' {
        assert Split(s) == [""] + rest;
        assert s == [s[0]] + s[1..];
      } else {
        var r := Split(s);
        assert r == [[s[0]] + rest[0]] + rest[1..];
        if |rest| == 1 {
          assert JoinSlash(r) == [s[0]] + rest[0];
        } else {
          assert r[1..] == rest[1..];
          assert JoinSlash(r) == ([s[0]] + rest[0]) + "/" + JoinSlash(rest[1..]);
          assert JoinSlash(rest) == rest[0] + "/" + JoinSlash(rest[1..]);
        }
        assert s == [s[0]] + s[1..];
      }
    }
  }

  /** No segment of a split contains `/`. */
  lemma {:induction false} SplitSegments(s: string)
    ensures forall i :: 0 <= i < |Split(s)| ==> '/' !in Split(s)[i]
  {
    if |s| > 0 {
      SplitSegments(s[1..]);
      var rest := Split(s[1..]);
      if s[0] != '/' {
        var r := Split(s);
        assert r == [[s[0]] + rest[0]] + rest[1..];
        assert '/' !in r[0];
        forall i | 1 <= i < |r| ensures '/' !in r[i] {
          assert r[i] == rest[i];
        }
      }
    }
  }

  /** A string without `/` splits into itself alone. */
  lemma {:induction false} SplitNoSlash(s: string)
    requires '/' !in s
    ensures Split(s) == [s]
  {
    if |s| > 0 {
      assert '/' !in s[1..];
      SplitNoSlash(s[1..]);
      assert s == [s[0]] + s[1..];
    }
  }

  /** Splitting distributes over a `/`. */
  lemma {:induction false} SplitAround(a: string, b: string)
    ensures Split(a + "/" + b) == Split(a) + Split(b)
  {
    if |a| == 0 {
      assert a + "/" + b == ['/'] + b;
      SplitCons('/', b);
    } else {
      SplitAround(a[1..], b);
      assert a == [a[0]] + a[1..];
      SplitAroundStep(a[0], a[1..], b);
    }
  }

  /** The inductive step of `SplitAround`: one more leading character. */
  lemma SplitAroundStep(c: char, t: string, b: string)
    requires Split(t + "/" + b) == Split(t) + Split(b)
    ensures Split([c] + t + "/" + b) == Split([c] + t) + Split(b)
  {
    ConsAssoc(c, t, "/", b);
    SplitConsStep(c, t, t + "/" + b, Split(b));
  }

  /** Extending two strings by the same character keeps `Split(u) == Split(t) + sb`. */
  lemma SplitConsStep(c: char, t: string, u: string, sb: seq<string>)
    requires Split(u) == Split(t) + sb
    ensures Split([c] + u) == Split([c] + t) + sb
  {
    SplitCons(c, t);
    SplitCons(c, u);
    ConsSegments(c, Split(t), Split(u), sb);
  }

  /** The segment-level shape of `SplitCons`, applied to a list of segments and to that list extended by `sb`. */
  lemma ConsSegments(c: char, st: seq<string>, su: seq<string>, sb: seq<string>)
    requires |st| >= 1 && su == st + sb
    ensures (if c == '/' then [""] + su else [[c] + su[0]] + su[1..])
         == (if c == '/' then [""] + st else [[c] + st[0]] + st[1..]) + sb
  {
    if c == '/' {
      ConsAssoc("", st, sb, []);
    } else {
      ExtendHead([c], st, sb);
    }
  }

  /** Prefixing the first segment commutes with appending segments. */
  lemma ExtendHead(p: string, r: seq<string>, u: seq<string>)
    requires |r| >= 1
    ensures [p + (r + u)[0]] + (r + u)[1..] == [p + r[0]] + r[1..] + u
  {
    assert (r + u)[0] == r[0];
    assert (r + u)[1..] == r[1..] + u;
  }

  lemma ConsAssoc<T>(c: T, t: seq<T>, m: seq<T>, u: seq<T>)
    ensures [c] + t + m + u == [c] + (t + m + u)
  {
  }

  /** One step of the split: a leading `/` starts a new segment, any other character extends the first one. */
  lemma SplitCons(c: char, t: string)
    ensures Split([c] + t) == if c == '/' then [""] + Split(t) else [[c] + Split(t)[0]] + Split(t)[1..]
  {
    assert ([c] + t)[0] == c;
    assert ([c] + t)[1..] == t;
  }

  /** Joining segments that hold no `/` and splitting again gives the segments back. */
  lemma {:induction false} JoinSplit(segs: seq<string>)
    requires |segs| >= 1
    requires forall i :: 0 <= i < |segs| ==> '/' !in segs[i]
    ensures Split(JoinSlash(segs)) == segs
  {
    SplitNoSlash(segs[0]);
    if |segs| > 1 {
      JoinSplit(segs[1..]);
      SplitAround(segs[0], JoinSlash(segs[1..]));
      assert segs == [segs[0]] + segs[1..];
    }
  }

  /** The path a node gets is its directory, a `/`, and the joined segments. */
  lemma {:induction false} PathOfJoin(dir: string, segs: seq<string>)
    requires |segs| >= 1
    ensures PathOf(dir, segs) == dir + "/" + JoinSlash(segs)
    decreases |segs|
  {
    if |segs| > 1 {
      PathOfJoin(dir + "/" + segs[0], segs[1..]);
      assert dir + "/" + segs[0] + "/" + JoinSlash(segs[1..]) == dir + "/" + (segs[0] + "/" + JoinSlash(segs[1..]));
    }
  }

  /** A step path `s` is stored with a leading slash: `src/App.tsx` becomes `/src/App.tsx`. */
  lemma StoredPath(s: string)
    ensures PathOf("", Split(s)) == "/" + s
  {
    PathOfJoin("", Split(s));
    SplitJoin(s);
  }

  /** Two children of the same folder have the same path exactly when they have the same name. */
  lemma SlashCancel(dir: string, a: string, b: string)
    ensures dir + "/" + a == dir + "/" + b <==> a == b
  {
    if dir + "/" + a == dir + "/" + b {
      assert a == (dir + "/" + a)[|dir| + 1..];
      assert b == (dir + "/" + b)[|dir| + 1..];
    }
  }

  /*** First match ***/

  /** `FindPath` is pinned down by its contract: the first index with the path. */
  lemma FindPathIs(level: seq<Node>, p: string, i: nat)
    requires i <= |level|
    requires i < |level| ==> level[i].path == p
    requires forall k :: 0 <= k < i ==> level[k].path != p
    ensures FindPath(level, p) == i
  {
  }

  /** `r` differs from `level` only at the node with path `p`, or by one node with path `p` appended. */
  predicate SameExcept(level: seq<Node>, r: seq<Node>, p: string) {
    && |level| <= |r| <= |level| + 1
    && (forall k :: 0 <= k < |level| ==> r[k].path == level[k].path && r[k].name == level[k].name)
    && (forall k :: 0 <= k < |level| && level[k].path != p ==> r[k] == level[k])
    && (|r| == |level| + 1 ==> r[|level|].path == p && FindPath(level, p) == |level|)
  }

  /** Where `r` keeps every node whose path is not `p`, looking up any other path finds the same node. */
  lemma FindPathOther(level: seq<Node>, r: seq<Node>, p: string, p': string)
    requires SameExcept(level, r, p) && p != p'
    ensures FindPath(level, p') == |level| ==> FindPath(r, p') == |r|
    ensures FindPath(level, p') < |level| ==> FindPath(r, p') == FindPath(level, p') && r[FindPath(r, p')] == level[FindPath(level, p')]
  {
    var i := FindPath(level, p');
    if i == |level| {
      FindPathIs(r, p', |r|);
    } else {
      FindPathIs(r, p', i);
    }
  }

  /**
   * The builder keeps sibling order: at the level where a CreateFile step
   * starts, every existing node keeps its place, name and path, nodes with
   * other paths are untouched, and a new node is appended at the end only
   * when no node had the step's path.
   */
  lemma InsertKeepsSiblings(level: seq<Node>, dir: string, segs: seq<string>, code: Option<string>)
    requires |segs| > 0 && Insert(level, dir, segs, code).Ok?
    ensures SameExcept(level, Insert(level, dir, segs, code).value, dir + "/" + segs[0])
  {
    var p := dir + "/" + segs[0];
    var r := Insert(level, dir, segs, code).value;
    if |segs| > 1 {
      var lvl := Descend(level, p, segs[0]);
      var j := FindPath(lvl, p);
      assert forall k :: 0 <= k < |lvl| && k != j ==> r[k] == lvl[k];
    }
  }

  /** The shape of a successful step that has further segments: the walk enters the folder at `j` and rebuilds it. */
  lemma InsertDeepOk(level: seq<Node>, dir: string, segs: seq<string>, code: Option<string>)
    requires |segs| > 1 && Insert(level, dir, segs, code).Ok?
    ensures var p := dir + "/" + segs[0];
      var lvl := Descend(level, p, segs[0]);
      var j := FindPath(lvl, p);
      && lvl[j].Folder?
      && Insert(lvl[j].children, p, segs[1..], code).Ok?
      && Insert(level, dir, segs, code).value
           == lvl[..j] + [Folder(lvl[j].name, lvl[j].path, lvl[j].content, Insert(lvl[j].children, p, segs[1..], code).value)] + lvl[j + 1..]
  {
  }

  /*** Failure ***/

  /** Some proper prefix of `segs` leads to a file. */
  predicate FileOnPath(level: seq<Node>, dir: string, segs: seq<string>) {
    exists k :: 1 <= k < |segs| && Find(level, dir, segs[..k]).Some? && Find(level, dir, segs[..k]).value.File?
  }

  /**
   * A CreateFile step fails exactly when one of the folders on its path is
   * an existing file (Builder.tsx:87 then 63 or 76 throw).
   */
  lemma {:induction false} InsertFailsIff(level: seq<Node>, dir: string, segs: seq<string>, code: Option<string>)
    requires |segs| > 0
    ensures Insert(level, dir, segs, code).Err? <==> FileOnPath(level, dir, segs)
    decreases |segs|
  {
    var p := dir + "/" + segs[0];
    if |segs| > 1 {
      var i := FindPath(level, p);
      if i == |level| {
        InsertFailsIff([], p, segs[1..], code);
        forall k | 1 <= k < |segs| ensures Find(level, dir, segs[..k]) == None {
          assert segs[..k][0] == segs[0];
        }
        forall k | 1 <= k < |segs| - 1 ensures Find([], p, segs[1..][..k]) == None {
        }
        var lvl := level + [Folder(segs[0], p, None, [])];
        FindPathIs(lvl, p, |level|);
      } else if level[i].File? {
        assert segs[..1][0] == segs[0];
        assert Find(level, dir, segs[..1]) == Some(level[i]);
      } else {
        var kids := level[i].children;
        InsertFailsIff(kids, p, segs[1..], code);
        forall k | 2 <= k < |segs| ensures Find(level, dir, segs[..k]) == Find(kids, p, segs[1..][..k - 1]) {
          assert segs[..k][0] == segs[0];
          assert segs[..k][1..] == segs[1..][..k - 1];
        }
        assert segs[..1][0] == segs[0];
        assert Find(level, dir, segs[..1]) == Some(level[i]);
        if FileOnPath(kids, p, segs[1..]) {
          var k :| 1 <= k < |segs| - 1 && Find(kids, p, segs[1..][..k]).Some? && Find(kids, p, segs[1..][..k]).value.File?;
          assert Find(level, dir, segs[..k + 1]) == Find(kids, p, segs[1..][..k]);
        }
        if FileOnPath(level, dir, segs) {
          var k :| 1 <= k < |segs| && Find(level, dir, segs[..k]).Some? && Find(level, dir, segs[..k]).value.File?;
          assert k >= 2;
          assert Find(kids, p, segs[1..][..k - 1]).value.File?;
        }
      }
    }
  }

  /*** What a step writes ***/

  /**
   * After a CreateFile step the walk along its path reaches a node at the
   * step's full path holding the step's code, through folders only.
   */
  lemma {:induction false} InsertWrites(level: seq<Node>, dir: string, segs: seq<string>, code: Option<string>)
    requires |segs| > 0 && Insert(level, dir, segs, code).Ok?
    ensures var r := Insert(level, dir, segs, code).value;
      && Find(r, dir, segs).Some?
      && Find(r, dir, segs).value.content == code
      && Find(r, dir, segs).value.path == PathOf(dir, segs)
    ensures var r := Insert(level, dir, segs, code).value;
      forall k :: 1 <= k < |segs| ==> Find(r, dir, segs[..k]).Some? && Find(r, dir, segs[..k]).value.Folder?
    decreases |segs|
  {
    var p := dir + "/" + segs[0];
    var r := Insert(level, dir, segs, code).value;
    if |segs| == 1 {
      InsertKeepsSiblings(level, dir, segs, code);
      var i := FindPath(level, p);
      FindPathIs(r, p, i);
    } else {
      var j := InsertEnters(level, dir, segs, code);
      var kids := Descend(level, p, segs[0])[j].children;
      var kids' := r[j].children;
      InsertWrites(kids, p, segs[1..], code);
      FindEnters(r, dir, segs);
      assert segs[..1][0] == segs[0];
      forall k | 2 <= k < |segs|
        ensures Find(r, dir, segs[..k]).Some? && Find(r, dir, segs[..k]).value.Folder?
      {
        assert segs[..k][0] == segs[0];
        assert segs[..k][1..] == segs[1..][..k - 1];
        FindEnters(r, dir, segs[..k]);
      }
    }
  }

  /** A successful step with further segments leaves, at the path of its first segment, a folder holding the rebuilt children. */
  lemma InsertEnters(level: seq<Node>, dir: string, segs: seq<string>, code: Option<string>) returns (j: nat)
    requires |segs| > 1 && Insert(level, dir, segs, code).Ok?
    ensures var p := dir + "/" + segs[0];
      var lvl := Descend(level, p, segs[0]);
      var r := Insert(level, dir, segs, code).value;
      && j == FindPath(lvl, p) && j < |r| && FindPath(r, p) == j
      && lvl[j].Folder? && r[j].Folder?
      && Insert(lvl[j].children, p, segs[1..], code).Ok?
      && r[j].children == Insert(lvl[j].children, p, segs[1..], code).value
  {
    var p := dir + "/" + segs[0];
    var lvl := Descend(level, p, segs[0]);
    j := FindPath(lvl, p);
    InsertDeepOk(level, dir, segs, code);
    var r := Insert(level, dir, segs, code).value;
    var node := Folder(lvl[j].name, lvl[j].path, lvl[j].content, Insert(lvl[j].children, p, segs[1..], code).value);
    assert r == lvl[..j] + [node] + lvl[j + 1..];
    assert r[j] == node;
    assert forall k :: 0 <= k < j ==> r[k] == lvl[k];
    FindPathIs(r, p, j);
  }

  /** Where the first segment leads to a folder, the walk goes on in its children. */
  lemma FindEnters(r: seq<Node>, dir: string, q: seq<string>)
    requires |q| > 1
    requires FindPath(r, dir + "/" + q[0]) < |r| && r[FindPath(r, dir + "/" + q[0])].Folder?
    ensures Find(r, dir, q) == Find(r[FindPath(r, dir + "/" + q[0])].children, dir + "/" + q[0], q[1..])
  {
  }

  /** `q` is a prefix of `segs` (equal included). */
  predicate IsPrefix(q: seq<string>, segs: seq<string>) {
    |q| <= |segs| && q == segs[..|q|]
  }

  /**
   * A CreateFile step changes nothing the walk finds along any path that is
   * not the step's own path or one of the folders on it.
   */
  lemma {:induction false} InsertFrame(level: seq<Node>, dir: string, segs: seq<string>, q: seq<string>, code: Option<string>)
    requires |segs| > 0 && |q| > 0 && Insert(level, dir, segs, code).Ok?
    requires !IsPrefix(q, segs)
    ensures Find(Insert(level, dir, segs, code).value, dir, q) == Find(level, dir, q)
    decreases |segs|
  {
    var p := dir + "/" + segs[0];
    var p' := dir + "/" + q[0];
    var r := Insert(level, dir, segs, code).value;
    InsertKeepsSiblings(level, dir, segs, code);
    SlashCancel(dir, segs[0], q[0]);
    if q[0] != segs[0] {
      FindPathOther(level, r, p, p');
    } else if |segs| == 1 {
      var i := FindPath(level, p);
      if i == |level| {
        FindPathIs(r, p, |level|);
      } else {
        FindPathIs(r, p, i);
      }
    } else {
      assert |q| > 1;
      assert !IsPrefix(q[1..], segs[1..]);
      var i := FindPath(level, p);
      var lvl := Descend(level, p, segs[0]);
      var j := FindPath(lvl, p);
      var kids := lvl[j].children;
      var kids' := Insert(kids, p, segs[1..], code).value;
      assert r == lvl[..j] + [Folder(lvl[j].name, lvl[j].path, lvl[j].content, kids')] + lvl[j + 1..];
      FindPathIs(r, p, j);
      InsertFrame(kids, p, segs[1..], q[1..], code);
      if i == |level| {
        assert Find([], p, q[1..]) == None;
      }
    }
  }

  /*** Last write wins ***/

  /** At the last segment, a second write replaces the first one's content. */
  lemma LeafLastWriteWins(level: seq<Node>, dir: string, seg: string, c1: Option<string>, c2: Option<string>)
    ensures Insert(Insert(level, dir, [seg], c1).value, dir, [seg], c2) == Insert(level, dir, [seg], c2)
  {
    var p := dir + "/" + seg;
    var r1 := Insert(level, dir, [seg], c1).value;
    var i := FindPath(level, p);
    if i == |level| {
      assert r1 == level + [File(seg, p, c1)];
      FindPathIs(r1, p, |level|);
      assert (level + [File(seg, p, c1)])[|level| := File(seg, p, c2)] == level + [File(seg, p, c2)];
    } else {
      assert r1 == level[i := level[i].(content := c1)];
      FindPathIs(r1, p, i);
      assert r1[i].(content := c2) == level[i].(content := c2);
      assert r1[i := r1[i].(content := c2)] == level[i := level[i].(content := c2)];
    }
  }

  /**
   * Writing the same path twice is writing it once with the second code:
   * the second step only replaces the content the first one left.
   */
  lemma {:induction false} InsertLastWriteWins(level: seq<Node>, dir: string, segs: seq<string>, c1: Option<string>, c2: Option<string>)
    requires |segs| > 0 && Insert(level, dir, segs, c1).Ok?
    ensures Insert(Insert(level, dir, segs, c1).value, dir, segs, c2) == Insert(level, dir, segs, c2)
    decreases |segs|
  {
    if |segs| == 1 {
      assert segs == [segs[0]];
      LeafLastWriteWins(level, dir, segs[0], c1, c2);
    } else {
      var p := dir + "/" + segs[0];
      var r1 := Insert(level, dir, segs, c1).value;
      var lvl := Descend(level, p, segs[0]);
      var j := FindPath(lvl, p);
      InsertDeepOk(level, dir, segs, c1);
      var kids := lvl[j].children;
      var k1 := Insert(kids, p, segs[1..], c1).value;
      var node1 := Folder(lvl[j].name, lvl[j].path, lvl[j].content, k1);
      assert r1 == lvl[..j] + [node1] + lvl[j + 1..];
      FindPathIs(r1, p, j);
      assert Descend(r1, p, segs[0]) == r1;
      InsertLastWriteWins(kids, p, segs[1..], c1, c2);
      assert r1[..j] == lvl[..j] && r1[j + 1..] == lvl[j + 1..] && r1[j] == node1;
    }
  }

  /** Applying the same CreateFile step twice is applying it once. */
  lemma InsertIdempotent(level: seq<Node>, dir: string, segs: seq<string>, code: Option<string>)
    requires |segs| > 0 && Insert(level, dir, segs, code).Ok?
    ensures Insert(Insert(level, dir, segs, code).value, dir, segs, code) == Insert(level, dir, segs, code)
  {
    InsertLastWriteWins(level, dir, segs, code, code);
  }

  /*** Node counts ***/

  function Size(n: Node): nat
    decreases n
  {
    match n
    case File(_, _, _) => 1
    case Folder(_, _, _, kids) => 1 + Count(kids)
  }

  /** The number of nodes in a forest, at every depth. */
  function Count(level: seq<Node>): nat
    decreases level
  {
    if level == [] then 0 else Size(level[0]) + Count(level[1..])
  }

  lemma {:induction false} CountConcat(a: seq<Node>, b: seq<Node>)
    ensures Count(a + b) == Count(a) + Count(b)
  {
    if a == [] {
      assert a + b == b;
    } else {
      assert (a + b)[1..] == a[1..] + b;
      CountConcat(a[1..], b);
    }
  }

  /** Replacing a node by one of the same size keeps the count. */
  lemma CountReplace(level: seq<Node>, j: nat, x: Node)
    requires j < |level| && Size(x) == Size(level[j])
    ensures Count(level[..j] + [x] + level[j + 1..]) == Count(level)
    ensures Count(level[j := x]) == Count(level)
  {
    assert level == level[..j] + [level[j]] + level[j + 1..];
    assert level[j := x] == level[..j] + [x] + level[j + 1..];
    CountConcat(level[..j] + [x], level[j + 1..]);
    CountConcat(level[..j], [x]);
    CountConcat(level[..j] + [level[j]], level[j + 1..]);
    CountConcat(level[..j], [level[j]]);
    assert Count([x]) == Size(x) by { assert [x][1..] == []; }
    assert Count([level[j]]) == Size(level[j]) by { assert [level[j]][1..] == []; }
  }

  /**
   * When the step's full path already exists, the step succeeds, changes
   * only that node's content and adds no node.
   */
  lemma {:induction false} InsertExistingKeepsCount(level: seq<Node>, dir: string, segs: seq<string>, code: Option<string>)
    requires |segs| > 0 && Find(level, dir, segs).Some?
    ensures Insert(level, dir, segs, code).Ok?
    ensures Count(Insert(level, dir, segs, code).value) == Count(level)
    ensures |Insert(level, dir, segs, code).value| == |level|
    decreases |segs|
  {
    var p := dir + "/" + segs[0];
    var i := FindPath(level, p);
    if |segs| == 1 {
      CountReplace(level, i, level[i].(content := code));
    } else {
      var kids := level[i].children;
      InsertExistingKeepsCount(kids, p, segs[1..], code);
      var kids' := Insert(kids, p, segs[1..], code).value;
      CountReplace(level, i, Folder(level[i].name, level[i].path, level[i].content, kids'));
    }
  }

  /*** Well-formed forests ***/

  /**
   * The tree invariant: every node's path is its parent's path, `/` and its
   * name, and no two siblings share a path.
   */
  predicate WellFormed(level: seq<Node>, dir: string)
    decreases level
  {
    && (forall i :: 0 <= i < |level| ==> level[i].path == dir + "/" + level[i].name)
    && (forall i, j :: 0 <= i < j < |level| ==> level[i].path != level[j].path)
    && (forall i :: 0 <= i < |level| && level[i].Folder? ==> WellFormed(level[i].children, level[i].path))
  }

  /** In a well-formed level no two siblings share a name. */
  lemma SiblingNamesDistinct(level: seq<Node>, dir: string)
    requires WellFormed(level, dir)
    ensures forall i, j :: 0 <= i < j < |level| ==> level[i].name != level[j].name
  {
    forall i, j | 0 <= i < j < |level| ensures level[i].name != level[j].name {
      SlashCancel(dir, level[i].name, level[j].name);
    }
  }

  /** A CreateFile step keeps a well-formed forest well formed. */
  lemma {:induction false} InsertPreservesWellFormed(level: seq<Node>, dir: string, segs: seq<string>, code: Option<string>)
    requires |segs| > 0 && WellFormed(level, dir) && Insert(level, dir, segs, code).Ok?
    ensures WellFormed(Insert(level, dir, segs, code).value, dir)
    decreases |segs|
  {
    var p := dir + "/" + segs[0];
    if |segs| == 1 {
      LeafWellFormed(level, dir, segs[0], code);
    } else {
      var lvl := Descend(level, p, segs[0]);
      DescendWellFormed(level, dir, segs[0]);
      var j := FindPath(lvl, p);
      assert lvl[j].Folder? && Insert(lvl[j].children, p, segs[1..], code).Ok?;
      InsertPreservesWellFormed(lvl[j].children, p, segs[1..], code);
      DeepWellFormed(level, dir, segs, code);
    }
  }

  /** A deep step keeps the level well formed once the entered folder's new children are. */
  lemma DeepWellFormed(level: seq<Node>, dir: string, segs: seq<string>, code: Option<string>)
    requires |segs| > 1 && Insert(level, dir, segs, code).Ok?
    requires var p := dir + "/" + segs[0];
             var lvl := Descend(level, p, segs[0]);
             var j := FindPath(lvl, p);
             && WellFormed(lvl, dir) && lvl[j].Folder?
             && Insert(lvl[j].children, p, segs[1..], code).Ok?
             && WellFormed(Insert(lvl[j].children, p, segs[1..], code).value, p)
    ensures WellFormed(Insert(level, dir, segs, code).value, dir)
  {
    var p := dir + "/" + segs[0];
    var lvl := Descend(level, p, segs[0]);
    var j := FindPath(lvl, p);
    InsertDeepOk(level, dir, segs, code);
    var kids' := Insert(lvl[j].children, p, segs[1..], code).value;
    SpliceWellFormed(lvl, dir, j, Folder(lvl[j].name, lvl[j].path, lvl[j].content, kids'));
  }

  /** `WellFormedReplace` for a level rebuilt around its `j`-th node. */
  lemma SpliceWellFormed(level: seq<Node>, dir: string, j: nat, n: Node)
    requires WellFormed(level, dir) && j < |level|
    requires n.path == level[j].path && n.name == level[j].name
    requires n.Folder? ==> WellFormed(n.children, n.path)
    ensures WellFormed(level[..j] + [n] + level[j + 1..], dir)
  {
    assert level[..j] + [n] + level[j + 1..] == level[j := n];
    WellFormedReplace(level, dir, j, n);
  }

  /** The last segment of a step keeps a well-formed level well formed. */
  lemma LeafWellFormed(level: seq<Node>, dir: string, name: string, code: Option<string>)
    requires WellFormed(level, dir)
    ensures Insert(level, dir, [name], code).Ok?
    ensures WellFormed(Insert(level, dir, [name], code).value, dir)
  {
    var p := dir + "/" + name;
    var i := FindPath(level, p);
    if i == |level| {
      WellFormedAppend(level, dir, File(name, p, code));
    } else {
      WellFormedReplace(level, dir, i, level[i].(content := code));
    }
  }

  /** Descending through a segment keeps a well-formed level well formed and reaches a well-formed folder or a file. */
  lemma DescendWellFormed(level: seq<Node>, dir: string, name: string)
    requires WellFormed(level, dir)
    ensures var p := dir + "/" + name;
            var lvl := Descend(level, p, name);
            && WellFormed(lvl, dir)
            && (lvl[FindPath(lvl, p)].Folder? ==> WellFormed(lvl[FindPath(lvl, p)].children, p))
  {
    var p := dir + "/" + name;
    if FindPath(level, p) == |level| {
      assert WellFormed([], p);
      WellFormedAppend(level, dir, Folder(name, p, None, []));
    }
  }

  /** Appending a node at its own, new path keeps a level well formed. */
  lemma WellFormedAppend(level: seq<Node>, dir: string, n: Node)
    requires WellFormed(level, dir)
    requires n.path == dir + "/" + n.name
    requires forall k :: 0 <= k < |level| ==> level[k].path != n.path
    requires n.Folder? ==> WellFormed(n.children, n.path)
    ensures WellFormed(level + [n], dir)
  {
    var r := level + [n];
    assert forall k :: 0 <= k < |level| ==> r[k] == level[k];
  }

  /** Replacing a node by one with the same name and path and well-formed children keeps a level well formed. */
  lemma WellFormedReplace(level: seq<Node>, dir: string, j: nat, n: Node)
    requires WellFormed(level, dir) && j < |level|
    requires n.path == level[j].path && n.name == level[j].name
    requires n.Folder? ==> WellFormed(n.children, n.path)
    ensures WellFormed(level[j := n], dir)
  {
    var r := level[j := n];
    assert forall k :: 0 <= k < |level| ==> r[k].path == level[k].path;
  }

  /*** From an empty forest ***/

  /**
   * A CreateFile step on an empty forest builds one chain: a folder per
   * leading segment and a file holding the code at the end, one node per
   * segment, every node at its parent's path plus `/` and its name.
   */
  lemma {:induction false} InsertIntoEmpty(dir: string, segs: seq<string>, code: Option<string>)
    requires |segs| > 0
    ensures Insert([], dir, segs, code).Ok?
    ensures var r := Insert([], dir, segs, code).value;
      && |r| == 1
      && Count(r) == |segs|
      && WellFormed(r, dir)
      && Find(r, dir, segs) == Some(File(segs[|segs| - 1], PathOf(dir, segs), code))
    decreases |segs|
  {
    if |segs| == 1 {
      var r := Insert([], dir, segs, code).value;
      assert r == [File(segs[0], dir + "/" + segs[0], code)];
      assert Count(r) == 1 by { assert r[1..] == []; }
    } else {
      InsertIntoEmpty(dir + "/" + segs[0], segs[1..], code);
      InsertIntoEmptyStep(dir, segs, code);
    }
  }

  /** One folder on top of the chain built for the remaining segments. */
  lemma InsertIntoEmptyStep(dir: string, segs: seq<string>, code: Option<string>)
    requires |segs| > 1
    requires var p := dir + "/" + segs[0];
      && Insert([], p, segs[1..], code).Ok?
      && var kids := Insert([], p, segs[1..], code).value;
      && |kids| == 1
      && Count(kids) == |segs| - 1
      && WellFormed(kids, p)
      && Find(kids, p, segs[1..]) == Some(File(segs[|segs| - 1], PathOf(p, segs[1..]), code))
    ensures Insert([], dir, segs, code).Ok?
    ensures var r := Insert([], dir, segs, code).value;
      && |r| == 1
      && Count(r) == |segs|
      && WellFormed(r, dir)
      && Find(r, dir, segs) == Some(File(segs[|segs| - 1], PathOf(dir, segs), code))
  {
    var p := dir + "/" + segs[0];
    var kids := Insert([], p, segs[1..], code).value;
    InsertDeepOk([], dir, segs, code);
    var r := Insert([], dir, segs, code).value;
    assert r == [Folder(segs[0], p, None, kids)];
    assert Count(r) == 1 + Count(kids) by { assert r[1..] == []; }
    FindPathIs(r, p, 0);
    assert Find(r, dir, segs) == Find(kids, p, segs[1..]);
  }

  /*** Batches of steps ***/

  /** Steps that are not CreateFile, or have no path, leave the forest as it is. */
  lemma {:induction false} ApplyStepsIgnoresOthers(forest: seq<Node>, steps: seq<Step>)
    requires forall i :: 0 <= i < |steps| ==> steps[i].kind != CreateFile || steps[i].path.None?
    ensures ApplySteps(forest, steps) == Ok(forest)
  {
    if steps != [] {
      ApplyStepsIgnoresOthers(forest, steps[1..]);
    }
  }

  /** Of two CreateFile steps for the same path, the later one decides the content. */
  lemma SameFileTwice(forest: seq<Node>, s1: Step, s2: Step)
    requires s1.kind == CreateFile && s2.kind == CreateFile
    requires s1.path == s2.path && ApplyStep(forest, s1).Ok?
    ensures ApplySteps(forest, [s1, s2]) == ApplySteps(forest, [s2])
  {
    if s1.path.Some? {
      InsertLastWriteWins(forest, "", Split(s1.path.value), s1.code, s2.code);
    }
    assert [s1, s2][1..] == [s2];
  }
}
