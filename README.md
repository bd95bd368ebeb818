# Website builder: plan-to-files, mount, preview and chat bookkeeping in Dafny

This project models the sequential logic of an AI website builder, with
proofs. The user describes a site. The backend asks a language model to pick
a template and to write a plan of steps. The builder page turns the plan into
a file tree, mounts the tree into an in-browser sandbox, and a preview pane
installs and starts the dev server there.

The model covers five parts:

- **File tree** (`plan.dfy`, `file_tree.dfy`, `file_tree_lemmas.dfy`). Pending
  CreateFile steps are folded into a forest of `File` / `Folder` nodes.
  - A node is found by its full `path`. A path is split on `/` the way
    JavaScript `split` does, keeping empty segments.
  - A missing folder is appended. A missing file is appended. An existing
    node gets only its `content` replaced.
  - A file where a folder is expected makes the walk fail (`ChildrenUndefined`).
  - `Insert` is the specification of one step. `CreateFileStep` is the
    page's `while` loop, proved equal to it. The loop's in-place descent into
    nested arrays is modelled as a list of frames that is plugged back
    together. `SyncFiles` is the whole effect: nothing, an updated forest
    with every step completed, or a crash.
- **Mount projector** (`mount.dfy`, `mount_lemmas.dfy`).
  - `MountStructure` is the shared dictionary that `processFile` writes into.
  - `Writes` is the ordered list of key assignments the recursion makes, and
    `MountOf` is the dictionary that results.
  - The lemmas pin down which keys exist, what each key holds, when a mount
    happens, and where the result departs from a plain projection of the
    tree (see Findings).
- **Conversation** (`conversation.dfy`). A `Session` value holds the page's
  state: history, steps, prompt, loading flag, template flag, rate limit,
  countdown and the last alert.
  - `init` is two transitions, split at its `/chat` await:
    `InitTemplate` applies the `/template` outcome, and `InitChat` applies
    the `/chat` outcome to the session as it stands once that request
    answers. The file-tree effect can run between the two and mark the
    template's steps completed (`InitWithSync`).
  - `Send` takes the outcome of its request as an input.
  - `Tick` is one step of the countdown updater.
- **Preview** (`preview.dfy`). The `PreviewFrame` class holds the pane's
  state, the start latch, the sandbox calls made so far and the registered
  `server-ready` listeners. Each method is proved to compute a pure
  transition (`Start`, `Reset`, `ServerReady`) on a `State` snapshot.
- **Backend** (`backend.dfy`).
  - `/template` routes on the trimmed, lower-cased answer.
  - The retry delay is read from an error message: the leftmost match of
    `retry in (\d+(?:\.\d+)?)s`, rounded up exactly.
  - An error becomes a 429 or 500 response.
  - `/chat` builds its prompt in a loop (`BuildPrompt`).

Shared helpers are `wrappers.dfy` (`Option`, `Result`) and `text.dfy`
(JavaScript `trim`, ASCII `toLowerCase`, `includes`, decimal digit strings).

Where the code and its description differ, the model follows the code:

- A folder node can receive `content`: the final-segment branch assigns
  `content` to whatever node has the path.
- `"node"` routes to prompts built from the *react* base prompt.

## Model

| member | source | states |
|---|---|---|
| `Plan.PendingSteps` | frontend/src/pages/Builder.tsx:48 | every kept step is pending and the result is no longer than the input; membership is `PendingStepsMembers`, order and repetitions `PendingStepsOne` with `PendingStepsConcat` |
| `Plan.PendingStepsMembers` | frontend/src/pages/Builder.tsx:48 | a step is among the pending steps exactly when it is one of the steps and is pending |
| `Plan.PendingStepsOne` | frontend/src/pages/Builder.tsx:48 | one step is kept exactly when it is pending |
| `Plan.PendingStepsConcat` | frontend/src/pages/Builder.tsx:48 | the filter distributes over concatenation, so order and repetitions are kept |
| `Plan.NonePending` | frontend/src/pages/Builder.tsx:48 | steps none of which is pending filter to nothing |
| `Plan.AllPending` | frontend/src/pages/Builder.tsx:48 | steps that are all pending filter to themselves |
| `FileTree.Split` | frontend/src/pages/Builder.tsx:51 | `split("/")` yields at least one piece |
| `FileTree.Insert` | frontend/src/pages/Builder.tsx:56-89 | writing the final segment never fails; a successful step leaves the level at least as long and at most one node longer (which nodes it keeps is `InsertKeepsSiblings`) |
| `FileTree.ApplySteps` | frontend/src/pages/Builder.tsx:48-93 | a successful batch never removes a top-level node and adds at most one per step |
| `Plan.WithStatus` | frontend/src/pages/Builder.tsx:98-104 | every step gets the new status; every other field and the length are kept |
| `FileTreeFacts.SplitSegments` | frontend/src/pages/Builder.tsx:51 | no segment of a split path contains `/` |
| `FileTree.FindPath` | frontend/src/pages/Builder.tsx:63 | `find` by path: the index of the first node with that path, or the length when there is none |
| `FileTree.Descend` | frontend/src/pages/Builder.tsx:76-85 | an existing folder path is reused unchanged; a missing one gets a new empty folder appended at the end of the level |
| `FileTree.CreateFileStep` | frontend/src/pages/Builder.tsx:51-90 | the imperative walk over `parsedPath` computes exactly the specified insertion `InsertPath` (failure included) |
| `FileTree.SyncFiles` | frontend/src/pages/Builder.tsx:45-107 | no pending step: no update; otherwise the pending steps folded in order give the new files and every step becomes completed; a failing step crashes the effect |
| `FileTreeFacts.SplitJoin` | frontend/src/pages/Builder.tsx:51 | joining the split segments with `/` gives the original path back |
| `FileTreeFacts.JoinSplit` | frontend/src/pages/Builder.tsx:51 | splitting a `/`-join of slash-free segments gives the segments back |
| `FileTreeFacts.SplitNoSlash` | frontend/src/pages/Builder.tsx:51 | a name without `/` splits into itself alone |
| `FileTreeFacts.SplitAround` | frontend/src/pages/Builder.tsx:51 | splitting at an inner `/` concatenates the two halves' segments |
| `FileTreeFacts.PathOfJoin` | frontend/src/pages/Builder.tsx:57 | the path built segment by segment is the directory, a `/`, and the joined segments |
| `FileTreeFacts.StoredPath` | frontend/src/pages/Builder.tsx:57 | a step path `s` is stored as `/` + `s` |
| `FileTreeFacts.InsertKeepsSiblings` | frontend/src/pages/Builder.tsx:63-87 | a step keeps every node of a level whose path is not on its way, keeps names and paths in order, and appends at most one node at the end |
| `FileTreeFacts.InsertFailsIff` | frontend/src/pages/Builder.tsx:76-87 | a step fails exactly when one of the folders on its path is an existing file |
| `FileTreeFacts.InsertWrites` | frontend/src/pages/Builder.tsx:56-89 | after a step the path leads to a node with the step's code at `PathOf(dir, segs)`, and every prefix of the path is a folder |
| `FileTreeFacts.InsertFrame` | frontend/src/pages/Builder.tsx:56-89 | a lookup of any path that is not a prefix of the step's path finds what it found before |
| `FileTreeFacts.LeafLastWriteWins` | frontend/src/pages/Builder.tsx:63-73 | two writes of the same final path equal the second write alone |
| `FileTreeFacts.InsertLastWriteWins` | frontend/src/pages/Builder.tsx:63-87 | two successful steps to the same path equal the second step alone, at any depth |
| `FileTreeFacts.InsertIdempotent` | frontend/src/pages/Builder.tsx:63-87 | applying the same step twice equals applying it once |
| `FileTreeFacts.InsertExistingKeepsCount` | frontend/src/pages/Builder.tsx:63-73 | writing to an existing path succeeds and changes neither the level's length nor the node count |
| `FileTreeFacts.SiblingNamesDistinct` | frontend/src/pages/Builder.tsx:57 | in a well-formed level, distinct paths mean distinct names |
| `FileTreeFacts.InsertPreservesWellFormed` | frontend/src/pages/Builder.tsx:56-88 | every node's path stays its parent's path + `/` + name, and sibling paths stay distinct |
| `FileTreeFacts.InsertIntoEmpty` | frontend/src/pages/Builder.tsx:51-89 | on an empty forest a step builds one chain of `|segs|` nodes ending in the file with the step's code at the step's path |
| `FileTreeFacts.ApplyStepsIgnoresOthers` | frontend/src/pages/Builder.tsx:48-51 | steps that are not CreateFile, or have no path, leave the forest unchanged |
| `FileTreeFacts.SameFileTwice` | frontend/src/pages/Builder.tsx:48-90 | two CreateFile steps for one path in a batch act as the second alone |
| `Mount.Project` | frontend/src/pages/Builder.tsx:113-136 | a file projects to a file record and a folder to a directory record |
| `Mount.Writes` | frontend/src/pages/Builder.tsx:113-139 | a folder, and a root file, ends its assignments with its own record under its name; a nested file assigns nothing |
| `Mount.MountOf` | frontend/src/pages/Builder.tsx:110-147 | the structure is empty exactly when the forest is |
| `Mount.MountStructure.ProcessFile` | frontend/src/pages/Builder.tsx:113-141 | returns the node's projection and performs exactly the node's assignments, in order, on the shared dictionary |
| `Mount.CreateMountStructure` | frontend/src/pages/Builder.tsx:110-147 | processing every top-level node as a root gives `MountOf(files)` |
| `Mount.MountStructure.ProcessFileFixed` | frontend/src/pages/Builder.tsx:113-141 | corrected `processFile`: the same projection, and only a root node assigns its name (see Findings) |
| `Mount.CreateMountStructureFixed` | frontend/src/pages/Builder.tsx:110-147 | with the corrected `processFile` the structure is the intended projection: one key per top-level node holding its record |
| `MountFacts.ApplyLookup` | frontend/src/pages/Builder.tsx:116-125 | after a series of assignments a key holds its last assignment, or its old value if never assigned |
| `MountFacts.NodeWriteKeys` | frontend/src/pages/Builder.tsx:113-141 | a nested node assigns its own name if it is a folder and every folder name below it; a root node also assigns its own name |
| `MountFacts.LevelWriteKeys` | frontend/src/pages/Builder.tsx:113-144 | processing a level assigns every folder name at any depth, and at the root every top-level name |
| `MountFacts.MountKeys` | frontend/src/pages/Builder.tsx:110-147 | the mounted keys are exactly the top-level names plus the names of all nested folders |
| `Mount.MountCall` | frontend/src/pages/Builder.tsx:155-163 | a mount happens exactly when a container exists and the forest is not empty, and mounts `MountOf(files)` |
| `MountFacts.EntriesOf` | frontend/src/pages/Builder.tsx:117-121 | `fromEntries` of the children has a key per child name holding the last same-named child's projection |
| `MountFacts.DirectoryOf` | frontend/src/pages/Builder.tsx:114-122 | a folder mounts as a directory keyed by child names, the later duplicate winning |
| `MountFacts.RootFileMounts` | frontend/src/pages/Builder.tsx:123-129 | an unshadowed top-level file mounts as `{file: {contents: content or ''}}` |
| `MountFacts.MountAgreesUnlessShadowed` | frontend/src/pages/Builder.tsx:113-144 | the mounted value of a top-level name equals the plain projection's unless a nested folder has the same name |
| `MountFacts.ShadowMountLib` | frontend/src/pages/Builder.tsx:116 | as written, in the forest `lib/b`, `src/lib/a` the top-level key `lib` ends up holding the nested folder `src/lib` |
| `MountFacts.NestedFolderHidesTopLevel` | frontend/src/pages/Builder.tsx:116 | for the well-formed forest `lib/b`, `src/lib/a` the file `lib/b` is missing from the mount but present in the intended projection |
| `MountFacts.IntendedLookup` | frontend/src/pages/Builder.tsx:110-147 | in the intended projection of a well-formed forest, every node reached by a path is reached by the same segments and holds its projection |
| `MountFacts.IntendedMountKeepsFiles` | frontend/src/pages/Builder.tsx:123-136 | in the intended projection every stored file's contents are found under its own path |
| `Conversation.UserMessages` | frontend/src/pages/Builder.tsx:200-203 | one user message per content, in order |
| `Conversation.RetryAfter` | frontend/src/pages/Builder.tsx:212 | `retryAfter || 60`: the given delay when non-zero, else 60; always positive |
| `Conversation.FailureAlert` | frontend/src/pages/Builder.tsx:227-231 | the generic alert exactly for a non-axios error; every other alert starts with "Error: " |
| `Conversation.OnFailure` | frontend/src/pages/Builder.tsx:206-232 | loading stops; history, steps and prompt are kept; a 429 starts a positive countdown without an alert; any other failure raises an alert and leaves the limit alone |
| `Conversation.Tick` | frontend/src/pages/Builder.tsx:217-225 | the countdown stays non-negative and drops by one while positive; the limit is cleared exactly at 1 or below; nothing else changes |
| `Conversation.CanSend` | frontend/src/pages/Builder.tsx:343 | Send is available only once the template is set and nothing loads, and then exactly when no rate limit is on |
| `Conversation.CountdownReenablesSend` | frontend/src/pages/Builder.tsx:217-225 | with the template set and nothing loading, the countdown's last tick makes Send available again |
| `Conversation.Send` | frontend/src/pages/Builder.tsx:285-342 | while Send is unavailable nothing changes; the page is never left loading; the history is kept or becomes the posted messages plus the reply |
| `Conversation.InitTemplate` | frontend/src/pages/Builder.tsx:171-184 | the history stays empty; the template is set and the page loads exactly when `/template` answered |
| `Conversation.InitChat` | frontend/src/pages/Builder.tsx:185-232 | loading stops; the steps present when `/chat` answers are kept as a prefix; a failure keeps the history |
| `Conversation.SendBlank` | frontend/src/pages/Builder.tsx:286-289 | a prompt made only of white space raises "Please enter a message" and changes nothing else |
| `Conversation.SendAnswered` | frontend/src/pages/Builder.tsx:292-314 | success appends exactly the user message then the response to the history, appends the parsed steps as pending after the old ones, clears the prompt |
| `Conversation.SendRecordsRequest` | frontend/src/pages/Builder.tsx:298-307 | the new history is the posted message list plus the response, and begins with the old history |
| `Conversation.SendFailed` | frontend/src/pages/Builder.tsx:315-316 | a failed send keeps history, steps and prompt and stops loading |
| `Conversation.RateLimited` | frontend/src/pages/Builder.tsx:320-323 | a 429 sets the limit and the countdown to the server's delay, or 60 for none or zero, raises no alert and disables Send |
| `Conversation.OtherFailureAlerts` | frontend/src/pages/Builder.tsx:336-341 | any other failure raises an alert, the generic one exactly for non-axios errors, and leaves the limit alone |
| `Conversation.SendKeepsPrefix` | frontend/src/pages/Builder.tsx:286-341 | a send never removes history or steps |
| `Conversation.CountdownRuns` | frontend/src/pages/Builder.tsx:218-225 | from a countdown of `c`, tick `n < c` leaves `c - n` with the limit set; tick `c` and later leave 0 with the limit cleared |
| `Conversation.TickConsistent` | frontend/src/pages/Builder.tsx:218-225 | a tick keeps the countdown non-negative and the limit set exactly while it is positive, and counts down by one |
| `Conversation.SendConsistent` | frontend/src/pages/Builder.tsx:286-341 | a send keeps that invariant |
| `Conversation.InitConsistent` | frontend/src/pages/Builder.tsx:171-232 | the template half of `init` establishes it and the chat half keeps it |
| `Conversation.InitOutcomes` | frontend/src/pages/Builder.tsx:171-232 | template failure sets nothing; template success sets the template, loads, and makes its steps pending; then, whatever the steps are when `/chat` answers, success appends the reply's steps as pending and sets the history to the posted user messages then the reply, and failure keeps the steps and the empty history |
| `Conversation.InitWithSync` | frontend/src/pages/Builder.tsx:180-198 | with the file-tree effect completing the template's steps during `/chat`, the steps end as the template's completed then the reply's pending, and only the reply's are pending |
| `Preview.PreviewFrame.ResetPreview` | frontend/src/components/PreviewFrame.tsx:16-21 | clears URL, error, spinner and latch; nothing else changes |
| `Preview.PreviewFrame.StartDevServer` | frontend/src/components/PreviewFrame.tsx:23-128 | the imperative start, with its early returns and `catch`, computes exactly `Start` of the old state |
| `Preview.PreviewFrame.OnServerReady` | frontend/src/components/PreviewFrame.tsx:89-93 | with a listener registered, the event's URL is shown and the spinner stops |
| `Preview.PreviewFrame.PropsChanged` | frontend/src/components/PreviewFrame.tsx:130-142 | new props reset the pane; a start is scheduled exactly when there is a container and a file |
| `Preview.PreviewFrame.Retry` | frontend/src/components/PreviewFrame.tsx:166-169 | Retry resets the pane before its start |
| `Preview.Reset` | frontend/src/components/PreviewFrame.tsx:16-21 | reset establishes the pane invariant, empties the URL, releases the latch, and keeps calls and listeners |
| `Preview.Start` | frontend/src/components/PreviewFrame.tsx:23-128 | while latched a start changes nothing; the URL is never touched; calls are only appended, at most three; at most one listener is added |
| `Preview.ServerReady` | frontend/src/components/PreviewFrame.tsx:89-93 | with a listener registered the URL is shown and the spinner stops; without one nothing changes; error, latch, calls and listeners are kept |
| `Preview.HasPackageJson` | frontend/src/components/PreviewFrame.tsx:41 | holds exactly when some file of the list is named `package.json`, so never for an empty list |
| `Preview.StartValid` | frontend/src/components/PreviewFrame.tsx:23-128 | a start keeps the invariant: latched only without error, spinning only while latched |
| `Preview.ServerReadyValid` | frontend/src/components/PreviewFrame.tsx:89-93 | the `server-ready` event keeps the invariant |
| `Preview.StartSkips` | frontend/src/components/PreviewFrame.tsx:24-31 | no container, no file or the latch set: nothing changes |
| `Preview.StartEnds` | frontend/src/components/PreviewFrame.tsx:33-127 | a start ends latched, spinning, error-free with one more listener and all three calls exactly when every step succeeds; otherwise unlatched and not spinning; the URL is untouched |
| `Preview.DevSpawnedIff` | frontend/src/components/PreviewFrame.tsx:40-80 | the dev server is spawned exactly when `package.json` exists, the root is readable and the install exits 0 |
| `Preview.MissingPackageJson` | frontend/src/components/PreviewFrame.tsx:41-47 | no top-level `package.json`: that error, latch released, no sandbox call |
| `Preview.RootNotReadable` | frontend/src/components/PreviewFrame.tsx:50-59 | a failed root read: that error after the read, no install |
| `Preview.InstallExitReported` | frontend/src/components/PreviewFrame.tsx:72-75 | a non-zero exit code N: "npm install failed with exit code N", no dev server |
| `Preview.InstallFailedInjective` | frontend/src/components/PreviewFrame.tsx:74 | the install error message determines the exit code |
| `Preview.StartOnce` | frontend/src/components/PreviewFrame.tsx:24 | while latched a second start changes nothing |
| `Preview.ResetRearms` | frontend/src/components/PreviewFrame.tsx:130-138 | after a reset a start with a container and files runs past the guard and the URL is empty |
| `Preview.ReadyAfterStart` | frontend/src/components/PreviewFrame.tsx:88-93 | after a successful start the event shows the URL, stops the spinner and keeps the latch |
| `Backend.ClassifierRequest` | be/src/index.ts:19-21 | the text sent to the model starts with the classifier instruction and ends with the user's prompt |
| `Backend.Route` | be/src/index.ts:22-40 | either a 200 with the template prompts and exactly one UI prompt, or 403 "You cant access this" |
| `Backend.RetryDelay` | be/src/index.ts:48-54 | the delay is 60 or the ceiling of a capture that matches in the message; which one is fixed by `RetryDelayFirst` and `RetryDelayDefault` |
| `Backend.ErrorResponse` | be/src/index.ts:46-60 | the status is 429 or 500; 429 exactly with the rate-limit body; 500 with "Internal server error" |
| `Backend.TemplateHandler` | be/src/index.ts:14-62 | an answer gets 200 or 403 and a throw 429 or 500; a 200 carries the template prompts |
| `Backend.ChatHandler` | be/src/index.ts:64-108 | the model's reply gets 200 with that text; a throw gets 429 or 500 |
| `Backend.HandlerOutcomes` | be/src/index.ts:14-107 | both handlers answer a throw identically with 429 or 500; `/chat` succeeds with the reply text exactly when the model answered; `/template` gives 200 exactly for a normalised `react` or `node` answer and 403 for any other answer |
| `Backend.Transcript` | be/src/index.ts:73-79 | a non-empty transcript ends with a newline |
| `Backend.ChatPrompt` | be/src/index.ts:71-79 | the prompt is the system prompt, a blank line, then the transcript |
| `Backend.DigitRun` | be/src/index.ts:48 | the length of the maximal run of digits from an index |
| `Backend.MatchAt` | be/src/index.ts:48 | a match starts with "retry in " at its index and captures digits, a point and digits or digits alone (uniqueness is `CaptureIsMatch`) |
| `Backend.Ceil` | be/src/index.ts:49-54 | the delay is the captured whole part or one more, exactly the whole part without a fraction (the full ceiling is `CeilIsCeiling`) |
| `Backend.FirstMatch` | be/src/index.ts:48 | the leftmost index where the pattern matches; no match before it, or none at all |
| `Backend.MatchIsCapture` | be/src/index.ts:48 | every match is an allowed capture spelled out at its index |
| `Backend.CaptureIsMatch` | be/src/index.ts:48 | wherever an allowed capture is spelled out, that is the match, so the match at an index is unique |
| `Backend.CeilIsCeiling` | be/src/index.ts:49-54 | the delay is the least integer at or above the captured decimal number |
| `Backend.RetryDelayFirst` | be/src/index.ts:48-54 | when the first match starts at any index `i`, the delay is that match's ceiling, whatever later matches say |
| `Backend.RetryDelayOfLeadingMatch` | be/src/index.ts:48-54 | a message that starts with a spelled delay yields that delay's ceiling |
| `Backend.RetryDelayRoundTrip` | be/src/index.ts:48-54 | "retry in Ns" yields N for every whole N |
| `Backend.RetryDelayFraction` | be/src/index.ts:48-54 | "retry in 5.2s" yields 6 |
| `Backend.RetryDelayWhole` | be/src/index.ts:48-54 | "retry in 5s" yields 5 |
| `Backend.RetryDelayDefault` | be/src/index.ts:48-49 | when the pattern matches at no index, there is no first match and the delay is 60 |
| `Backend.ErrorResponses` | be/src/index.ts:46-60 | 429 with the rate-limit body exactly for an `Error` whose message contains `429`; otherwise 500 "Internal server error" with the message or string form |
| `Backend.TemplateRouting` | be/src/index.ts:22-40 | `react`: BASE_PROMPT and the react artifact, UI react; `node`: one prompt from the react base, UI node; anything else 403 "You cant access this" |
| `Backend.RouteNormalisesAnswer` | be/src/index.ts:22 | " React\n" routes as react and "NODE" as node |
| `Text.Trim` | be/src/index.ts:22 | the result is a contiguous slice of the input with only white space before and after it, and neither starts nor ends with white space |
| `Text.Lower` | be/src/index.ts:22 | same length; every character lower-cased one by one |
| `Text.TrimEmptyIff` | frontend/src/pages/Builder.tsx:286 | a string trims to nothing exactly when all its characters are white space |
| `Text.DecimalRoundTrip` | frontend/src/components/PreviewFrame.tsx:74 | reading back a number written in decimal gives the number |
| `Backend.BuildPrompt` | be/src/index.ts:71-79 | the loop builds the system prompt, a blank line and the transcript |
| `Backend.TranscriptConcat` | be/src/index.ts:73-79 | the transcript of two message lists is the two transcripts concatenated |
| `Backend.TranscriptSkipsOthers` | be/src/index.ts:74-78 | messages whose role is neither user nor assistant leave no trace |
| `Backend.TranscriptGrows` | be/src/index.ts:74-78 | a user or assistant message adds exactly `User: c\n` or `Assistant: c\n` |

## Left out

- The plan parser `parseXml` lives in `frontend/src/steps`, which is not part of this model. Parsed steps are inputs.
- `frontend/src/hooks/useWebContainer.ts` is left out. Its only logic memoises one promise so that concurrent boots share it, and a sequential model has no concurrency to show.
- `frontend/src/pages/Home.tsx`, `frontend/src/components/TabView.tsx` and the JSX of every component are presentation.
- Sandbox calls are not modelled: `mount`, `spawn`, `fs.readdir`, output piping and the `server-ready` subscription. Their outcomes are transition inputs. The calls made are recorded as a list.
- Timers are not modelled:
  - the 1 s start delay and the 100 ms Retry delay;
  - `setInterval` itself: one tick is `Tick` and `n` ticks are `TickN`, so overlapping intervals from repeated 429s are not modelled;
  - the 15 s fallback in `startDevServer`, which reads `url` and `error` from a render-time closure and runs `ps aux`.
- React scheduling is only partly modelled. `console.log` and rendering are dropped. Between the two halves of `init` the file-tree effect may run (`InitWithSync`); every other transition runs to completion before the next starts.
- `Preview.Start`, `Preview.PreviewFrame.StartDevServer`, `Preview.StartOnce`: a start runs to completion as one transition, though `startDevServer` awaits at PreviewFrame.tsx:51, 63, 72 and 80. Not captured: new props or a Retry during one of those awaits reset the latch, so a second start can overlap the first, and a late failure of the first then sets its error and releases the latch the second one holds. `StartOnce` covers only completed starts.
- Object aliasing is not modelled. The file-tree effect copies only the top-level array and mutates nested `children` arrays and nodes shared with earlier state. The model computes the resulting forest value.
- Folders always have `children` here, because the builder always creates them with `[]`. So the `{}` branch for a folder without `children` (Builder.tsx:121) is not modelled.
- Nodes of a type other than file or folder are not modelled.
- Backend: the language model calls, Express, CORS, dotenv and the server start are left out. The prompt texts kept in other files are parameters (`Prompts`, the system prompt).
- `Backend.Ceil`: `parseFloat` and `Math.ceil` are modelled as an exact decimal ceiling. This differs from IEEE doubles only for fractions longer than a double holds, or numbers of 2^53 and beyond.
- `Text.Lower`: only ASCII letters are lower-cased. `toLowerCase` also maps non-ASCII letters.
- `Text.IntToDecimal`: JavaScript's exponent notation for magnitudes of 1e21 and beyond is not modelled.
- `Conversation.RetryAfter`: the `retryAfter` field is taken as a non-negative whole number, which is what the backend sends. Other JSON values are not modelled.

## Findings

| source | as written | input that shows it | evidently intended | confidence | as-written member | corrected member |
|---|---|---|---|---|---|---|
| frontend/src/pages/Builder.tsx:116 | every folder, at any depth, is also assigned as a top-level key of the shared mount dictionary, after its parent's earlier siblings | forest `lib/b` and `src/lib/a`: the nested `src/lib` overwrites the top-level `lib`, so `lib/b` is not mounted | a folder is written at the top level only when it is a root node, so the mount is a one-to-one projection of the tree in which every file is found under its own path (`MountFacts.IntendedLookup`, `MountFacts.IntendedMountKeepsFiles`) | not executed | `MountFacts.NestedFolderHidesTopLevel` | `Mount.CreateMountStructureFixed` |
