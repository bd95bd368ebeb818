/**
 * The incremental file-tree builder of the builder page
 * (frontend/src/pages/Builder.tsx, the effect at lines 45-107): every pending
 * CreateFile step is folded into a forest of file and folder nodes, creating
 * the folders on its path on demand.
 */
module FileTree {
  import opened Wrappers
  import opened Plan

  /**
   * A node of the project tree. `path` is the full slash-joined path from the
   * project root, with a leading `/`. A folder carries a `content` too: the
   * builder assigns the step's code to whatever node already has the step's
   * full path, and that node may be a folder.
   */
  datatype Node =
    | File(name: string, path: string, content: Option<string>)
    | Folder(name: string, path: string, content: Option<string>, children: seq<Node>)

  /**
   * The builder reached a file where it needed a folder: it read that file's
   * `children`, which are `undefined`, and the next `find` threw.
   */
  datatype BuildError = ChildrenUndefined(path: string)

  /*** Paths ***/

  /** `s.split("/")`: the pieces between slashes, empty pieces included. */
  function Split(s: string): (r: seq<string>)
    ensures |r| >= 1
  {
    if |s| == 0 then [""]
    else
      var rest := Split(s[1..]);
      if s[0] == '/' then [""] + rest else [[s[0]] + rest[0]] + rest[1..]
  }

  /** `segs.join("/")`. */
  function JoinSlash(segs: seq<string>): string
    requires |segs| >= 1
  {
    if |segs| == 1 then segs[0] else segs[0] + "/" + JoinSlash(segs[1..])
  }

  /** The path the builder gives the node reached through `segs` from a level whose folder path is `dir`. */
  function PathOf(dir: string, segs: seq<string>): string
    decreases |segs|
  {
    if segs == [] then dir else PathOf(dir + "/" + segs[0], segs[1..])
  }

  /*** Lookup ***/

  /** `level.find(x => x.path === p)` as an index: the first node with path `p`, or `|level|` when there is none. */
  function FindPath(level: seq<Node>, p: string): (i: nat)
    ensures i <= |level|
    ensures i < |level| ==> level[i].path == p
    ensures forall k :: 0 <= k < i ==> level[k].path != p
  {
    if level == [] then 0
    else if level[0].path == p then 0
    else 1 + FindPath(level[1..], p)
  }

  /**
   * The node the builder's walk reaches through `segs` from a level whose
   * folder path is `dir`, matching on full paths level by level, or None.
   */
  function Find(level: seq<Node>, dir: string, segs: seq<string>): Option<Node>
    requires |segs| > 0
    decreases |segs|
  {
    var p := dir + "/" + segs[0];
    var i := FindPath(level, p);
    if i == |level| then None
    else if |segs| == 1 then Some(level[i])
    else match level[i]
      case File(_, _, _) => None
      case Folder(_, _, _, kids) => Find(kids, p, segs[1..])
  }

  /*** The walk, as a specification ***/

  /**
   * The sibling list the walk descends from at folder path `p`: `level`
   * itself, or `level` with a new empty folder appended when no node has
   * the path (Builder.tsx:76-85).
   */
  function Descend(level: seq<Node>, p: string, name: string): (lvl: seq<Node>)
    ensures FindPath(lvl, p) < |lvl|
    ensures FindPath(level, p) < |level| ==> lvl == level
    ensures FindPath(level, p) == |level| ==> lvl == level + [Folder(name, p, None, [])] && FindPath(lvl, p) == |level|
  {
    if FindPath(level, p) == |level| then
      var lvl := level + [Folder(name, p, None, [])];
      assert lvl[|level|].path == p;
      lvl
    else level
  }

  /**
   * What the builder's walk does to `level` for the remaining segments
   * `segs` of a CreateFile path: at the last segment it appends a file or
   * replaces the content of the node with that path; before it, it appends
   * a folder when none has the path, then descends into the first node
   * with the path, and fails if that node is a file.
   */
  function Insert(level: seq<Node>, dir: string, segs: seq<string>, code: Option<string>): (r: Result<seq<Node>, BuildError>)
    requires |segs| > 0
    ensures |segs| == 1 ==> r.Ok?
    ensures r.Ok? ==> |level| <= |r.value| <= |level| + 1
    decreases |segs|
  {
    var p := dir + "/" + segs[0];
    if |segs| == 1 then
      var i := FindPath(level, p);
      if i == |level| then Ok(level + [File(segs[0], p, code)])
      else Ok(level[i := level[i].(content := code)])
    else
      var lvl := Descend(level, p, segs[0]);
      var j := FindPath(lvl, p);
      match lvl[j]
      case File(_, _, _) => Err(ChildrenUndefined(p))
      case Folder(n, fp, c, kids) =>
        match Insert(kids, p, segs[1..], code)
        case Ok(kids') => Ok(lvl[..j] + [Folder(n, fp, c, kids')] + lvl[j + 1..])
        case Err(e) => Err(e)
  }

  /** One CreateFile step on the forest: a step without a path leaves it as it is. */
  function InsertPath(forest: seq<Node>, path: Option<string>, code: Option<string>): Result<seq<Node>, BuildError> {
    match path
    case None => Ok(forest)
    case Some(s) => Insert(forest, "", Split(s), code)
  }

  /** One pending step: only CreateFile steps touch the forest. */
  function ApplyStep(forest: seq<Node>, step: Step): Result<seq<Node>, BuildError> {
    if step.kind == CreateFile then InsertPath(forest, step.path, step.code) else Ok(forest)
  }

  /** The pending steps applied in order; the first failure ends the batch. */
  function ApplySteps(forest: seq<Node>, steps: seq<Step>): (r: Result<seq<Node>, BuildError>)
    ensures r.Ok? ==> |forest| <= |r.value| <= |forest| + |steps|
    decreases |steps|
  {
    if steps == [] then Ok(forest)
    else match ApplyStep(forest, steps[0])
      case Ok(f) => ApplySteps(f, steps[1..])
      case Err(e) => Err(e)
  }

  /*** The walk, as the source runs it ***/

  /**
   * One level the walk has descended through: the siblings before and after
   * the folder it entered, and that folder's own fields.
   */
  datatype Frame = Frame(before: seq<Node>, name: string, path: string, content: Option<string>, after: seq<Node>)

  /** The level that `frame` describes, with `inner` as the entered folder's children. */
  function Fill(frame: Frame, inner: seq<Node>): seq<Node> {
    frame.before + [Folder(frame.name, frame.path, frame.content, inner)] + frame.after
  }

  /** The whole forest, rebuilt from the innermost level outwards. */
  function Plug(frames: seq<Frame>, inner: seq<Node>): seq<Node>
    decreases |frames|
  {
    if frames == [] then inner else Plug(frames[..|frames| - 1], Fill(frames[|frames| - 1], inner))
  }

  function PlugResult(frames: seq<Frame>, r: Result<seq<Node>, BuildError>): Result<seq<Node>, BuildError> {
    match r
    case Ok(level) => Ok(Plug(frames, level))
    case Err(e) => Err(e)
  }

  /** Descending one frame deeper is plugging one more frame. */
  lemma PlugPush(frames: seq<Frame>, frame: Frame, r: Result<seq<Node>, BuildError>)
    ensures PlugResult(frames + [frame], r) == PlugResult(frames, PlugResult([frame], r))
  {
    if r.Ok? {
      assert (frames + [frame])[..|frames|] == frames;
      assert Plug([frame], r.value) == Fill(frame, r.value);
    }
  }

  /** The walk's step into a node that is a file: the source throws. */
  lemma InsertIntoFile(level: seq<Node>, dir: string, segs: seq<string>, code: Option<string>, lvl: seq<Node>, j: nat)
    requires |segs| > 1
    requires lvl == Descend(level, dir + "/" + segs[0], segs[0])
    requires j == FindPath(lvl, dir + "/" + segs[0]) && j < |lvl| && lvl[j].File?
    ensures Insert(level, dir, segs, code) == Err(ChildrenUndefined(dir + "/" + segs[0]))
  {
  }

  /** The walk's step into an existing or freshly appended folder, as a frame. */
  lemma InsertIntoFolder(level: seq<Node>, dir: string, segs: seq<string>, code: Option<string>, lvl: seq<Node>, j: nat)
    requires |segs| > 1
    requires lvl == Descend(level, dir + "/" + segs[0], segs[0])
    requires j == FindPath(lvl, dir + "/" + segs[0]) && j < |lvl| && lvl[j].Folder?
    ensures Insert(level, dir, segs, code)
              == PlugResult([Frame(lvl[..j], lvl[j].name, lvl[j].path, lvl[j].content, lvl[j + 1..])],
                            Insert(lvl[j].children, dir + "/" + segs[0], segs[1..], code))
  {
    var f := Frame(lvl[..j], lvl[j].name, lvl[j].path, lvl[j].content, lvl[j + 1..]);
    var r := Insert(lvl[j].children, dir + "/" + segs[0], segs[1..], code);
    if r.Ok? {
      assert Plug([f], r.value) == Fill(f, r.value);
    }
  }

  /**
   * The body of the step loop for one CreateFile step (Builder.tsx:51-90):
   * consume the split path one segment at a time, keeping the current
   * folder path and the current sibling list. Descending into a folder
   * records a frame; the source mutates the shared nested arrays instead.
   */
  method CreateFileStep(forest: seq<Node>, path: Option<string>, code: Option<string>)
    returns (r: Result<seq<Node>, BuildError>)
    ensures r == InsertPath(forest, path, code)
  {
    var parsedPath := if path.Some? then Split(path.value) else [];
    var current := forest;
    var frames: seq<Frame> := [];
    var currentFolder := "";
    while |parsedPath| > 0
      invariant |parsedPath| > 0 ==> InsertPath(forest, path, code) == PlugResult(frames, Insert(current, currentFolder, parsedPath, code))
      invariant |parsedPath| == 0 ==> InsertPath(forest, path, code) == Ok(Plug(frames, current))
      decreases |parsedPath|
    {
      ghost var level := current;
      ghost var dir := currentFolder;
      ghost var segs := parsedPath;
      currentFolder := currentFolder + "/" + parsedPath[0];
      var currentFolderName := parsedPath[0];
      parsedPath := parsedPath[1..];
      if |parsedPath| == 0 {
        var i := FindPath(current, currentFolder);
        if i == |current| {
          current := current + [File(currentFolderName, currentFolder, code)];
        } else {
          current := current[i := current[i].(content := code)];
        }
        assert Insert(level, dir, segs, code) == Ok(current);
      } else {
        if FindPath(current, currentFolder) == |current| {
          current := current + [Folder(currentFolderName, currentFolder, None, [])];
        }
        assert current == Descend(level, currentFolder, currentFolderName);
        var j := FindPath(current, currentFolder);
        var node := current[j];
        if node.File? {
          InsertIntoFile(level, dir, segs, code, current, j);
          return Err(ChildrenUndefined(currentFolder));
        }
        InsertIntoFolder(level, dir, segs, code, current, j);
        var frame := Frame(current[..j], node.name, node.path, node.content, current[j + 1..]);
        PlugPush(frames, frame, Insert(node.children, currentFolder, parsedPath, code));
        frames := frames + [frame];
        current := node.children;
      }
    }
    r := Ok(Plug(frames, current));
  }

  /** What the file-tree effect does with the current files and steps. */
  datatype Sync =
    | NoUpdate                                    // no pending step: neither files nor steps are set
    | Updated(files: seq<Node>, steps: seq<Step>)  // the new forest, and every step marked completed
    | Crashed(error: BuildError)                  // the effect threw: files and steps stay as they were

  /**
   * The file-tree effect (Builder.tsx:45-107): fold every pending step into
   * the forest; if any step was pending, set the new files and mark every
   * step, pending or not, completed.
   */
  method SyncFiles(files: seq<Node>, steps: seq<Step>) returns (out: Sync)
    ensures PendingSteps(steps) == [] ==> out == NoUpdate
    ensures PendingSteps(steps) != [] && ApplySteps(files, PendingSteps(steps)).Ok? ==>
              out == Updated(ApplySteps(files, PendingSteps(steps)).value, WithStatus(steps, Completed))
    ensures ApplySteps(files, PendingSteps(steps)).Err? ==>
              out == Crashed(ApplySteps(files, PendingSteps(steps)).error)
  {
    var pending := PendingSteps(steps);
    var originalFiles := files;
    var updateHappened := false;
    var k := 0;
    while k < |pending|
      invariant 0 <= k <= |pending|
      invariant updateHappened <==> k > 0
      invariant ApplySteps(files, pending) == ApplySteps(originalFiles, pending[k..])
    {
      updateHappened := true;
      var step := pending[k];
      assert pending[k..][1..] == pending[k + 1..];
      if step.kind == CreateFile {
        var r := CreateFileStep(originalFiles, step.path, step.code);
        if r.Err? {
          return Crashed(r.error);
        }
        originalFiles := r.value;
      }
      k := k + 1;
    }
    if updateHappened {
      out := Updated(originalFiles, WithStatus(steps, Completed));
    } else {
      out := NoUpdate;
    }
  }
}
