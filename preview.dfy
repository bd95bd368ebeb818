/**
 * The preview pane's run cycle (frontend/src/components/PreviewFrame.tsx):
 * the `url` / `isLoading` / `error` state, the `hasStartedRef` latch, and
 * the sandbox calls `startDevServer` makes. What the sandbox answers (the
 * root directory read, the install's exit, the dev server's spawn, the
 * `server-ready` event) is an input of the transition that receives it.
 */
module Preview {
  import opened Wrappers
  import opened Text
  import opened FileTree

  /** What a failed `await` threw: an `Error` with its message, or any other value. */
  datatype Thrown = ErrorObject(message: string) | NonError

  /** How `npm install` ended: with an exit code, or by a rejected spawn or exit promise. */
  datatype Install = Exited(code: int) | InstallThrew(thrown: Thrown)

  /** The sandbox calls made, in order: `fs.readdir('/')`, `spawn('npm', ['install'])`, `spawn('npm', ['run', 'dev'])`. */
  datatype Call = ReadRoot | SpawnInstall | SpawnDev

  /**
   * The pane's state: the three React states, the latch, the sandbox calls
   * made so far and the number of `server-ready` listeners registered.
   */
  datatype State = State(url: string, isLoading: bool, error: string, hasStarted: bool,
                         calls: seq<Call>, listeners: nat)

  const Initial := State("", false, "", false, [], 0)

  const NoPackageJson := "No package.json found in project"
  const FsNotReady := "WebContainer filesystem not ready"
  const StartFailed := "Failed to start dev server"

  /** The message of the error thrown for a failed install. */
  function InstallFailed(code: int): string {
    "npm install failed with exit code " + IntToDecimal(code)
  }

  /** `err instanceof Error ? err.message : "Failed to start dev server"`. */
  function ThrownMessage(t: Thrown): string {
    match t
    case ErrorObject(m) => m
    case NonError => StartFailed
  }

  /** `files.some(file => file.name === 'package.json')`: a top-level entry is named `package.json`. */
  predicate HasPackageJson(files: seq<Node>): (b: bool)
    ensures b <==> exists f :: f in files && f.name == "package.json"
    ensures b ==> files != []
  {
    exists i :: 0 <= i < |files| && files[i].name == "package.json"
  }

  /** `resetPreview` (lines 16-21): clear the URL, the error, the spinner and the latch. */
  function Reset(s: State): (r: State)
    ensures Valid(r) && !r.hasStarted && r.url == ""
    ensures r.calls == s.calls && r.listeners == s.listeners
  {
    s.(url := "", error := "", isLoading := false, hasStarted := false)
  }

  /** A failure exit: show the error, stop the spinner and release the latch. */
  function Fail(s: State, message: string): State {
    s.(error := message, isLoading := false, hasStarted := false)
  }

  /**
   * `startDevServer` (lines 23-128) run to its end: skip when there is no
   * container, no file or the latch is set; otherwise latch, check for
   * `package.json`, read the root, install, spawn the dev server and
   * register a `server-ready` listener, failing at the first step that fails.
   */
  function Start(s: State, hasContainer: bool, files: seq<Node>,
                 fsReady: bool, install: Install, dev: Option<Thrown>): (r: State)
    ensures s.hasStarted ==> r == s
    ensures r.url == s.url
    ensures s.calls <= r.calls && |r.calls| <= |s.calls| + 3
    ensures s.listeners <= r.listeners <= s.listeners + 1
  {
    if !hasContainer || |files| == 0 || s.hasStarted then s
    else
      var started := s.(isLoading := true, error := "", hasStarted := true);
      if !HasPackageJson(files) then Fail(started, NoPackageJson)
      else
        var read := started.(calls := started.calls + [ReadRoot]);
        if !fsReady then Fail(read, FsNotReady)
        else
          var installing := read.(calls := read.calls + [SpawnInstall]);
          match install
          case InstallThrew(t) => Fail(installing, ThrownMessage(t))
          case Exited(code) =>
            if code != 0 then Fail(installing, InstallFailed(code))
            else
              var serving := installing.(calls := installing.calls + [SpawnDev]);
              if dev.Some? then Fail(serving, ThrownMessage(dev.value))
              else serving.(listeners := serving.listeners + 1)
  }

  /** A `server-ready` event with `serverUrl`: every registered listener shows the URL and stops the spinner. */
  function ServerReady(s: State, serverUrl: string): (r: State)
    ensures r.error == s.error && r.hasStarted == s.hasStarted && r.calls == s.calls && r.listeners == s.listeners
    ensures s.listeners > 0 ==> r.url == serverUrl && !r.isLoading
    ensures s.listeners == 0 ==> r == s
  {
    if s.listeners > 0 then s.(url := serverUrl, isLoading := false) else s
  }

  /** The pane component: its two props and its state. */
  class PreviewFrame {
    var hasContainer: bool
    var files: seq<Node>
    var url: string
    var isLoading: bool
    var error: string
    var hasStarted: bool
    var calls: seq<Call>
    var listeners: nat

    function Snapshot(): State
      reads this
    {
      State(url, isLoading, error, hasStarted, calls, listeners)
    }

    constructor (container: bool, fileList: seq<Node>)
      ensures hasContainer == container && files == fileList
      ensures Snapshot() == Initial
    {
      hasContainer := container;
      files := fileList;
      url := "";
      isLoading := false;
      error := "";
      hasStarted := false;
      calls := [];
      listeners := 0;
    }

    /** `resetPreview`. */
    method ResetPreview()
      modifies this
      ensures hasContainer == old(hasContainer) && files == old(files)
      ensures Snapshot() == Reset(old(Snapshot()))
    {
      url := "";
      error := "";
      isLoading := false;
      hasStarted := false;
    }

    /** `startDevServer`, with the sandbox's answers as inputs. */
    method StartDevServer(fsReady: bool, install: Install, dev: Option<Thrown>)
      modifies this
      ensures hasContainer == old(hasContainer) && files == old(files)
      ensures Snapshot() == Start(old(Snapshot()), hasContainer, files, fsReady, install, dev)
    {
      if !hasContainer || |files| == 0 || hasStarted {
        return;
      }
      isLoading := true;
      error := "";
      hasStarted := true;
      if !HasPackageJson(files) {
        error := NoPackageJson;
        isLoading := false;
        hasStarted := false;
        return;
      }
      calls := calls + [ReadRoot];
      if !fsReady {
        error := FsNotReady;
        isLoading := false;
        hasStarted := false;
        return;
      }
      calls := calls + [SpawnInstall];
      var thrown: Option<Thrown> := None;
      match install {
        case InstallThrew(t) =>
          thrown := Some(t);
        case Exited(code) =>
          if code != 0 {
            thrown := Some(ErrorObject(InstallFailed(code)));
          } else {
            calls := calls + [SpawnDev];
            if dev.Some? {
              thrown := dev;
            } else {
              listeners := listeners + 1;
            }
          }
      }
      if thrown.Some? {
        error := ThrownMessage(thrown.value);
        isLoading := false;
        hasStarted := false;
      }
    }

    /** The `server-ready` event reaching the listeners registered so far. */
    method OnServerReady(serverUrl: string)
      modifies this
      ensures hasContainer == old(hasContainer) && files == old(files)
      ensures Snapshot() == ServerReady(old(Snapshot()), serverUrl)
    {
      if listeners > 0 {
        url := serverUrl;
        isLoading := false;
      }
    }

    /**
     * The props effect (lines 130-142): new props reset the pane, and a
     * start is scheduled exactly when there is a container and a file.
     */
    method PropsChanged(container: bool, fileList: seq<Node>) returns (scheduled: bool)
      modifies this
      ensures hasContainer == container && files == fileList
      ensures Snapshot() == Reset(old(Snapshot()))
      ensures scheduled <==> container && |fileList| > 0
    {
      hasContainer := container;
      files := fileList;
      ResetPreview();
      scheduled := hasContainer && |files| > 0;
    }

    /** The Retry button (lines 166-169): reset, then a start is scheduled. */
    method Retry()
      modifies this
      ensures hasContainer == old(hasContainer) && files == old(files)
      ensures Snapshot() == Reset(old(Snapshot()))
    {
      ResetPreview();
    }
  }

  /*** Properties ***/

  /** The pane's invariant: the latch is set only while no error is shown, and the spinner only while latched. */
  predicate Valid(s: State) {
    (s.hasStarted ==> s.error == "") && (s.isLoading ==> s.hasStarted)
  }

  lemma InitialValid()
    ensures Valid(Initial)
  {
  }

  lemma StartValid(s: State, hasContainer: bool, files: seq<Node>, fsReady: bool, install: Install, dev: Option<Thrown>)
    requires Valid(s)
    ensures Valid(Start(s, hasContainer, files, fsReady, install, dev))
  {
  }

  lemma ServerReadyValid(s: State, serverUrl: string)
    requires Valid(s)
    ensures Valid(ServerReady(s, serverUrl))
  {
  }

  /** With no container, no file, or the latch set, a start changes nothing. */
  lemma StartSkips(s: State, hasContainer: bool, files: seq<Node>, fsReady: bool, install: Install, dev: Option<Thrown>)
    requires !hasContainer || files == [] || s.hasStarted
    ensures Start(s, hasContainer, files, fsReady, install, dev) == s
  {
  }

  /**
   * A start that runs ends in one of two ways: latched with the spinner on,
   * no error and one more listener, having made all three sandbox calls;
   * or with the latch released and the spinner off, having registered no
   * listener. The URL is never touched.
   */
  lemma StartEnds(s: State, hasContainer: bool, files: seq<Node>, fsReady: bool, install: Install, dev: Option<Thrown>)
    requires hasContainer && files != [] && !s.hasStarted
    ensures var t := Start(s, hasContainer, files, fsReady, install, dev);
            && t.url == s.url
            && s.calls <= t.calls
            && (t.hasStarted <==> HasPackageJson(files) && fsReady && install == Exited(0) && dev.None?)
            && (t.hasStarted ==> t.isLoading && t.error == "" && t.listeners == s.listeners + 1
                                 && t.calls == s.calls + [ReadRoot, SpawnInstall, SpawnDev])
            && (!t.hasStarted ==> !t.isLoading && t.listeners == s.listeners)
  {
  }

  /** The dev server is spawned exactly when `package.json` exists, the root is readable and the install exits with 0. */
  lemma DevSpawnedIff(s: State, hasContainer: bool, files: seq<Node>, fsReady: bool, install: Install, dev: Option<Thrown>)
    requires hasContainer && files != [] && !s.hasStarted
    ensures var t := Start(s, hasContainer, files, fsReady, install, dev);
            SpawnDev in t.calls[|s.calls|..] <==> HasPackageJson(files) && fsReady && install == Exited(0)
  {
    var t := Start(s, hasContainer, files, fsReady, install, dev);
    if HasPackageJson(files) && fsReady && install == Exited(0) {
      assert t.calls[|s.calls|..] == [ReadRoot, SpawnInstall, SpawnDev];
    } else if HasPackageJson(files) && fsReady {
      assert t.calls[|s.calls|..] == [ReadRoot, SpawnInstall];
    } else if HasPackageJson(files) {
      assert t.calls[|s.calls|..] == [ReadRoot];
    } else {
      assert t.calls[|s.calls|..] == [];
    }
  }

  /** No `package.json` at the top level: that error, and no sandbox call at all. */
  lemma MissingPackageJson(s: State, files: seq<Node>, fsReady: bool, install: Install, dev: Option<Thrown>)
    requires files != [] && !s.hasStarted
    requires forall i :: 0 <= i < |files| ==> files[i].name != "package.json"
    ensures Start(s, true, files, fsReady, install, dev)
         == s.(error := NoPackageJson, isLoading := false, hasStarted := false)
  {
  }

  /** An unreadable root: that error, after the one read and before any install. */
  lemma RootNotReadable(s: State, files: seq<Node>, install: Install, dev: Option<Thrown>)
    requires !s.hasStarted && HasPackageJson(files)
    ensures Start(s, true, files, false, install, dev)
         == s.(error := FsNotReady, isLoading := false, hasStarted := false, calls := s.calls + [ReadRoot])
  {
  }

  /** A non-zero install exit code `code` is reported as such, and the dev server is not spawned. */
  lemma InstallExitReported(s: State, files: seq<Node>, code: int, dev: Option<Thrown>)
    requires !s.hasStarted && HasPackageJson(files) && code != 0
    ensures Start(s, true, files, true, Exited(code), dev)
         == s.(error := InstallFailed(code), isLoading := false, hasStarted := false,
               calls := s.calls + [ReadRoot, SpawnInstall])
  {
  }

  /** The install error names the exit code: distinct codes give distinct messages. */
  lemma InstallFailedInjective(a: int, b: int)
    requires InstallFailed(a) == InstallFailed(b)
    ensures a == b
  {
    var prefix := "npm install failed with exit code ";
    assert IntToDecimal(a) == InstallFailed(a)[|prefix|..];
    assert IntToDecimal(b) == InstallFailed(b)[|prefix|..];
    IntToDecimalInjective(a, b);
  }

  /** While latched, a second start changes nothing: a running server is not started twice. */
  lemma StartOnce(s: State, hasContainer: bool, files: seq<Node>, fsReady: bool, install: Install, dev: Option<Thrown>,
                  fsReady': bool, install': Install, dev': Option<Thrown>)
    ensures var t := Start(s, hasContainer, files, fsReady, install, dev);
            t.hasStarted ==> Start(t, hasContainer, files, fsReady', install', dev') == t
  {
  }

  /**
   * Reset re-arms the latch: after new props or Retry, a start with a
   * container and files runs past the guard, whatever happened before.
   */
  lemma ResetRearms(s: State, files: seq<Node>, fsReady: bool, install: Install, dev: Option<Thrown>)
    requires files != []
    ensures var t := Start(Reset(s), true, files, fsReady, install, dev);
            && (HasPackageJson(files) ==> |t.calls| > |s.calls| && t.calls[|s.calls|] == ReadRoot)
            && (!HasPackageJson(files) ==> t.error == NoPackageJson)
            && t.url == ""
  {
  }

  /** A `server-ready` event after a successful start shows the URL and stops the spinner, keeping the latch. */
  lemma ReadyAfterStart(s: State, files: seq<Node>, serverUrl: string)
    requires !s.hasStarted && HasPackageJson(files)
    ensures var t := ServerReady(Start(s, true, files, true, Exited(0), None), serverUrl);
            t.url == serverUrl && !t.isLoading && t.hasStarted && t.error == ""
  {
  }
}
