/**
 * The request handlers of the backend (be/src/index.ts): how `/template`
 * routes the classifier's answer, how both handlers turn a thrown error
 * into a 429 or 500 response, and how `/chat` flattens the conversation
 * into one prompt. The language model is not modelled: its answer, or what
 * it threw, is an input; the prompt texts kept in other files are
 * parameters.
 */
module Backend {
  import opened Wrappers
  import opened Text

  /** `BASE_PROMPT` and the base prompts of the react and node templates. */
  datatype Prompts = Prompts(basePrompt: string, reactBase: string, nodeBase: string)

  /** What a failed call threw: an `Error` with its message, or another value with its `String(…)` form. */
  datatype Thrown = ErrorObject(message: string) | OtherValue(asString: string)

  /** The JSON bodies the handlers send. */
  datatype Body =
    | Templates(prompts: seq<string>, uiPrompts: seq<string>)
    | Message(message: string)
    | RateLimited(message: string, error: string, retryAfter: nat, isRateLimit: bool)
    | ServerError(message: string, error: string)
    | Answer(response: string)

  datatype Response = Response(status: int, body: Body)

  const ClassifierInstruction := "Return either node or react based on what do you think this project should be. Only return a single word either 'node' or 'react'. Do not return anything extra"

  /** The text `/template` sends to the model for the user's `prompt`. */
  function ClassifierRequest(prompt: string): (r: string)
    ensures |r| >= |ClassifierInstruction| + |prompt|
    ensures r[..|ClassifierInstruction|] == ClassifierInstruction
    ensures r[|r| - |prompt|..] == prompt
  {
    ClassifierInstruction + "\n\nUser request: " + prompt
  }

  const ArtifactHead := "Here is an artifact that contains all files of the project visible to you.\nConsider the contents of ALL files in the project.\n\n"
  const ArtifactTail := "\n\nHere is a list of files that exist on the file system but are not being shown to you:\n\n  - .gitignore\n  - package-lock.json\n"

  /** The artifact prompt that shows the model a template's files. */
  function Artifact(base: string): string {
    ArtifactHead + base + ArtifactTail
  }

  /** `/template` once the model answered (lines 22-40): route on the trimmed, lower-cased answer. */
  function Route(p: Prompts, answer: string): (r: Response)
    ensures r.status == 200 || r == Response(403, Message("You cant access this"))
    ensures r.status == 200 ==> r.body.Templates? && |r.body.uiPrompts| == 1
  {
    var a := Lower(Trim(answer));
    if a == "react" then Response(200, Templates([p.basePrompt, Artifact(p.reactBase)], [p.reactBase]))
    else if a == "node" then Response(200, Templates([Artifact(p.reactBase)], [p.nodeBase]))
    else Response(403, Message("You cant access this"))
  }

  /*** The retry delay in a rate-limit message ***/

  const RetryPrefix := "retry in "

  /** The number of consecutive digits of `s` from index `i` on. */
  function DigitRun(s: string, i: nat): (n: nat)
    requires i <= |s|
    ensures i + n <= |s|
    ensures forall k :: i <= k < i + n ==> IsDigit(s[k])
    ensures i + n == |s| || !IsDigit(s[i + n])
    decreases |s| - i
  {
    if i < |s| && IsDigit(s[i]) then 1 + DigitRun(s, i + 1) else 0
  }

  /** The digits captured by `(\d+(?:\.\d+)?)`: the whole part and the fraction after the point, if any. */
  datatype Delay = Delay(whole: string, fraction: string)

  /** The text `retry in (\d+(?:\.\d+)?)s` matches when it captures `d`. */
  function Spelled(d: Delay): string {
    RetryPrefix + d.whole + (if d.fraction == [] then "" else "." + d.fraction) + "s"
  }

  /** `d` is a capture the pattern allows. */
  predicate Capture(d: Delay) {
    |d.whole| > 0 && AllDigits(d.whole) && AllDigits(d.fraction)
  }

  /** The match of `/retry in (\d+(?:\.\d+)?)s/` that starts at index `i`, if one does. */
  function MatchAt(s: string, i: nat): (r: Option<Delay>)
    requires i <= |s|
    ensures r.Some? ==> OccursAt(s, RetryPrefix, i) && Capture(r.value)
  {
    if !OccursAt(s, RetryPrefix, i) then None
    else
      var j := i + |RetryPrefix|;
      var k := j + DigitRun(s, j);
      if k == j then None
      else if k < |s| && s[k] == 's' then Some(Delay(s[j..k], ""))
      else if k < |s| && s[k] == '.' then
        var e := k + 1 + DigitRun(s, k + 1);
        if e > k + 1 && e < |s| && s[e] == 's' then Some(Delay(s[j..k], s[k + 1..e])) else None
      else None
  }

  /** The leftmost index from `from` on where the pattern matches. */
  function FirstMatch(s: string, from: nat): (r: Option<nat>)
    requires from <= |s|
    ensures r.Some? ==> from <= r.value <= |s| && MatchAt(s, r.value).Some?
    ensures r.Some? ==> forall j :: from <= j < r.value ==> MatchAt(s, j).None?
    ensures r.None? ==> forall j :: from <= j <= |s| ==> MatchAt(s, j).None?
    decreases |s| - from
  {
    if MatchAt(s, from).Some? then Some(from)
    else if from == |s| then None
    else FirstMatch(s, from + 1)
  }

  /** Some digit of `f` is not zero. */
  predicate HasNonZero(f: string) {
    exists k :: 0 <= k < |f| && f[k] != '0'
  }

  /** `Math.ceil(parseFloat(capture))`, exactly: the whole part, plus one when the fraction is not zero. */
  function Ceil(d: Delay): (r: nat)
    requires AllDigits(d.whole)
    ensures DecimalValue(d.whole) <= r <= DecimalValue(d.whole) + 1
    ensures d.fraction == "" ==> r == DecimalValue(d.whole)
  {
    DecimalValue(d.whole) + (if HasNonZero(d.fraction) then 1 else 0)
  }

  /** `retryAfter` for an error message: the ceiling of the first captured number, or 60 without a match. */
  function RetryDelay(message: string): (r: nat)
    ensures r == 60 || exists i :: 0 <= i <= |message| && MatchAt(message, i).Some?
                                    && Capture(MatchAt(message, i).value) && r == Ceil(MatchAt(message, i).value)
  {
    match FirstMatch(message, 0)
    case None => 60
    case Some(i) =>
      var d := MatchAt(message, i).value;
      MatchIsCapture(message, i);
      Ceil(d)
  }

  /** The `catch` block of both handlers (lines 46-60 and 92-106). */
  function ErrorResponse(t: Thrown): (r: Response)
    ensures r.status == 429 || r.status == 500
    ensures r.status == 429 <==> r.body.RateLimited?
    ensures r.status == 500 ==> r.body.ServerError? && r.body.message == "Internal server error"
  {
    match t
    case ErrorObject(m) =>
      if Includes(m, "429") then
        Response(429, RateLimited("Rate limit exceeded", "API quota exceeded. Please wait before making more requests.",
                                  RetryDelay(m), true))
      else Response(500, ServerError("Internal server error", m))
    case OtherValue(v) => Response(500, ServerError("Internal server error", v))
  }

  /** `/template`: the model's answer, or what it threw. */
  function TemplateHandler(p: Prompts, outcome: Result<string, Thrown>): (r: Response)
    ensures outcome.Ok? <==> r.status == 200 || r.status == 403
    ensures outcome.Err? <==> r.status == 429 || r.status == 500
    ensures r.status == 200 ==> r.body.Templates?
  {
    match outcome
    case Ok(answer) => Route(p, answer)
    case Err(t) => ErrorResponse(t)
  }

  /*** The chat transcript ***/

  /** One message of the `/chat` request body. */
  datatype ChatMessage = ChatMessage(role: string, content: string)

  /** The line a message contributes: `User: …` or `Assistant: …`, nothing for any other role. */
  function Line(m: ChatMessage): string {
    if m.role == "user" then "User: " + m.content + "\n"
    else if m.role == "assistant" then "Assistant: " + m.content + "\n"
    else ""
  }

  /** The messages' lines, in order. */
  function Transcript(messages: seq<ChatMessage>): (r: string)
    ensures r == [] || r[|r| - 1] == '\n'
    decreases |messages|
  {
    if messages == [] then ""
    else Transcript(messages[..|messages| - 1]) + Line(messages[|messages| - 1])
  }

  /** The prompt `/chat` sends: the system prompt, a blank line, then the transcript. */
  function ChatPrompt(system: string, messages: seq<ChatMessage>): (r: string)
    ensures |r| >= |system| + 2 && r[..|system| + 2] == system + "\n\n"
    ensures r[|system| + 2..] == Transcript(messages)
  {
    system + "\n\n" + Transcript(messages)
  }

  /** Lines 71-79: `fullPrompt` is built by appending each message's line to the system prompt. */
  method BuildPrompt(system: string, messages: seq<ChatMessage>) returns (fullPrompt: string)
    ensures fullPrompt == ChatPrompt(system, messages)
  {
    fullPrompt := system + "\n\n";
    var i := 0;
    while i < |messages|
      invariant 0 <= i <= |messages|
      invariant fullPrompt == system + "\n\n" + Transcript(messages[..i])
    {
      var msg := messages[i];
      TranscriptStep(messages, i);
      AppendAssoc(system + "\n\n", Transcript(messages[..i]), Line(msg));
      if msg.role == "user" {
        fullPrompt := fullPrompt + ("User: " + msg.content + "\n");
      } else if msg.role == "assistant" {
        fullPrompt := fullPrompt + ("Assistant: " + msg.content + "\n");
      }
      i := i + 1;
    }
    assert messages[..i] == messages;
  }

  lemma AppendAssoc(a: string, b: string, c: string)
    ensures (a + b) + c == a + (b + c)
  {
  }

  lemma TranscriptStep(messages: seq<ChatMessage>, i: nat)
    requires i < |messages|
    ensures Transcript(messages[..i + 1]) == Transcript(messages[..i]) + Line(messages[i])
  {
    assert messages[..i + 1][..i] == messages[..i];
  }

  /** `/chat`: the model's reply text, or what it threw. */
  function ChatHandler(outcome: Result<string, Thrown>): (r: Response)
    ensures outcome.Ok? <==> r.status == 200
    ensures outcome.Ok? ==> r.body == Answer(outcome.value)
    ensures outcome.Err? ==> r.status == 429 || r.status == 500
  {
    match outcome
    case Ok(text) => Response(200, Answer(text))
    case Err(t) => ErrorResponse(t)
  }

  /*** Properties ***/

  /** Every match is a capture the pattern allows, spelled out at its index. */
  lemma MatchIsCapture(s: string, i: nat)
    requires i <= |s| && MatchAt(s, i).Some?
    ensures Capture(MatchAt(s, i).value)
    ensures OccursAt(s, Spelled(MatchAt(s, i).value), i)
  {
    var d := MatchAt(s, i).value;
    var j := i + |RetryPrefix|;
    var k := j + DigitRun(s, j);
    DigitsSlice(s, j, k);
    if d.fraction == [] {
      assert d.whole == s[j..k] && s[k] == 's';
      AssembleWhole(s, i, j, k);
    } else {
      var e := k + 1 + DigitRun(s, k + 1);
      assert d.whole == s[j..k] && d.fraction == s[k + 1..e] && s[k] == '.' && s[e] == 's';
      DigitsSlice(s, k + 1, e);
      AssembleFraction(s, i, j, k, e);
    }
  }

  /** The text from `i` to an `s` at `k`, read as the prefix then digits. */
  lemma AssembleWhole(s: string, i: nat, j: nat, k: nat)
    requires i <= j <= k < |s| && s[i..j] == RetryPrefix && s[k] == 's'
    ensures s[i..k + 1] == Spelled(Delay(s[j..k], ""))
  {
    SliceSplit(s, i, j, k);
    SliceSplit(s, i, k, k + 1);
    assert s[k..k + 1] == "s";
  }

  /** The text from `i` to an `s` at `e`, read as the prefix, digits, a point and digits. */
  lemma AssembleFraction(s: string, i: nat, j: nat, k: nat, e: nat)
    requires i <= j <= k < e < |s| && s[i..j] == RetryPrefix && s[k] == '.' && s[e] == 's'
    requires s[k + 1..e] != []
    ensures s[i..e + 1] == Spelled(Delay(s[j..k], s[k + 1..e]))
  {
    SliceSplit(s, i, j, k);
    SliceSplit(s, i, k, k + 1);
    SliceSplit(s, i, k + 1, e);
    SliceSplit(s, i, e, e + 1);
    assert s[k..k + 1] == ".";
    assert s[e..e + 1] == "s";
  }

  lemma SliceSplit(s: string, a: nat, b: nat, c: nat)
    requires a <= b <= c <= |s|
    ensures s[a..c] == s[a..b] + s[b..c]
  {
  }

  lemma DigitsSlice(s: string, a: nat, b: nat)
    requires a <= b <= |s|
    requires forall q :: a <= q < b ==> IsDigit(s[q])
    ensures AllDigits(s[a..b])
  {
    forall q | 0 <= q < b - a ensures IsDigit(s[a..b][q]) {
      assert s[a..b][q] == s[a + q];
    }
  }

  /**
   * The match at an index is the only way to read the pattern there: where
   * `Spelled(d)` occurs for an allowed capture `d`, that is what matches,
   * so greedy matching and backtracking cannot disagree.
   */
  lemma CaptureIsMatch(s: string, i: nat, d: Delay)
    requires i <= |s| && Capture(d) && OccursAt(s, Spelled(d), i)
    ensures MatchAt(s, i) == Some(d)
  {
    SpelledWhole(s, i, d);
    if d.fraction == [] {
      WholeOfParts(s, i, d.whole);
    } else {
      SpelledFraction(s, i, d);
      FractionOfParts(s, i, d.whole, d.fraction);
    }
  }

  /** The prefix, the digits `w`, then an `s`: the match captures `w` alone. */
  lemma WholeOfParts(s: string, i: nat, w: string)
    requires |w| > 0 && AllDigits(w) && OccursAt(s, RetryPrefix, i)
    requires i + |RetryPrefix| + |w| < |s|
    requires s[i + |RetryPrefix|..i + |RetryPrefix| + |w|] == w
    requires s[i + |RetryPrefix| + |w|] == 's'
    ensures MatchAt(s, i) == Some(Delay(w, ""))
  {
    var j := i + |RetryPrefix|;
    DigitsAt(s, j, w);
    DigitRunIs(s, j, |w|);
    MatchWhole(s, i, |w|);
  }

  /** The prefix, the digits `w`, a point, the digits `f`, then an `s`: the match captures both. */
  lemma FractionOfParts(s: string, i: nat, w: string, f: string)
    requires |w| > 0 && |f| > 0 && AllDigits(w) && AllDigits(f) && OccursAt(s, RetryPrefix, i)
    requires i + |RetryPrefix| + |w| < |s|
    requires s[i + |RetryPrefix|..i + |RetryPrefix| + |w|] == w
    requires s[i + |RetryPrefix| + |w|] == '.'
    requires i + |RetryPrefix| + |w| + 1 + |f| < |s|
    requires s[i + |RetryPrefix| + |w| + 1..i + |RetryPrefix| + |w| + 1 + |f|] == f
    requires s[i + |RetryPrefix| + |w| + 1 + |f|] == 's'
    ensures MatchAt(s, i) == Some(Delay(w, f))
  {
    var j := i + |RetryPrefix|;
    var k := j + |w|;
    DigitsAt(s, j, w);
    DigitRunIs(s, j, |w|);
    DigitsAt(s, k + 1, f);
    DigitRunIs(s, k + 1, |f|);
    MatchFraction(s, i, |w|, |f|);
  }

  /** Where the digits `w` occur at `j`, each of those characters is a digit. */
  lemma DigitsAt(s: string, j: nat, w: string)
    requires j + |w| <= |s| && s[j..j + |w|] == w && AllDigits(w)
    ensures forall q :: j <= q < j + |w| ==> IsDigit(s[q])
  {
    forall q | j <= q < j + |w| ensures IsDigit(s[q]) {
      assert s[q] == w[q - j];
    }
  }

  lemma MatchWhole(s: string, i: nat, n: nat)
    requires OccursAt(s, RetryPrefix, i) && n > 0
    requires DigitRun(s, i + |RetryPrefix|) == n
    requires i + |RetryPrefix| + n < |s| && s[i + |RetryPrefix| + n] == 's'
    ensures MatchAt(s, i) == Some(Delay(s[i + |RetryPrefix|..i + |RetryPrefix| + n], ""))
  {
  }

  lemma MatchFraction(s: string, i: nat, n: nat, m: nat)
    requires OccursAt(s, RetryPrefix, i) && n > 0 && m > 0
    requires DigitRun(s, i + |RetryPrefix|) == n
    requires i + |RetryPrefix| + n < |s| && s[i + |RetryPrefix| + n] == '.'
    requires DigitRun(s, i + |RetryPrefix| + n + 1) == m
    requires i + |RetryPrefix| + n + 1 + m < |s| && s[i + |RetryPrefix| + n + 1 + m] == 's'
    ensures var j := i + |RetryPrefix|;
            MatchAt(s, i) == Some(Delay(s[j..j + n], s[j + n + 1..j + n + 1 + m]))
  {
  }

  /** Where `Spelled(d)` occurs, the prefix, then the whole part, then a point or an `s` are found. */
  lemma SpelledWhole(s: string, i: nat, d: Delay)
    requires i <= |s| && Capture(d) && OccursAt(s, Spelled(d), i)
    ensures OccursAt(s, RetryPrefix, i)
    ensures i + |RetryPrefix| + |d.whole| < |s|
    ensures s[i + |RetryPrefix|..i + |RetryPrefix| + |d.whole|] == d.whole
    ensures s[i + |RetryPrefix| + |d.whole|] == if d.fraction == [] then 's' else '.'
  {
    var lit := Spelled(d);
    var j := i + |RetryPrefix|;
    var k := j + |d.whole|;
    var tail := (if d.fraction == [] then "" else "." + d.fraction) + "s";
    assert lit == RetryPrefix + d.whole + tail;
    assert tail[0] == if d.fraction == [] then 's' else '.';
    var w := s[i..i + |lit|];
    assert w == lit;
    forall q | 0 <= q < |RetryPrefix| ensures s[i..j][q] == RetryPrefix[q] {
      assert s[i..j][q] == w[q] == lit[q];
    }
    forall q | 0 <= q < |d.whole| ensures s[j..k][q] == d.whole[q] {
      assert s[j..k][q] == w[|RetryPrefix| + q] == lit[|RetryPrefix| + q];
    }
    assert s[k] == w[k - i] == lit[k - i];
    assert lit[k - i] == tail[0];
  }

  /** Where `Spelled(d)` occurs with a fraction, the fraction follows the point, then an `s`. */
  lemma SpelledFraction(s: string, i: nat, d: Delay)
    requires i <= |s| && Capture(d) && d.fraction != [] && OccursAt(s, Spelled(d), i)
    ensures var f := i + |RetryPrefix| + |d.whole| + 1;
            && f + |d.fraction| < |s|
            && s[f..f + |d.fraction|] == d.fraction
            && s[f + |d.fraction|] == 's'
  {
    var lit := Spelled(d);
    var f := i + |RetryPrefix| + |d.whole| + 1;
    var e := f + |d.fraction|;
    var head := RetryPrefix + d.whole + ".";
    assert lit == head + d.fraction + "s";
    assert |head| == f - i && |lit| == e - i + 1;
    var w := s[i..i + |lit|];
    assert w == lit;
    forall q | 0 <= q < |d.fraction| ensures s[f..e][q] == d.fraction[q] {
      assert s[f..e][q] == s[f + q] == w[f - i + q];
      assert lit[|head| + q] == d.fraction[q];
    }
    assert s[e] == w[e - i];
    assert lit[e - i] == 's';
  }

  lemma {:induction false} DigitRunIs(s: string, i: nat, n: nat)
    requires i + n < |s|
    requires forall q :: i <= q < i + n ==> IsDigit(s[q])
    requires !IsDigit(s[i + n])
    ensures DigitRun(s, i) == n
    decreases n
  {
    if n > 0 {
      DigitRunIs(s, i + 1, n - 1);
    }
  }

  function Pow10(n: nat): (r: nat)
    ensures r >= 1
  {
    if n == 0 then 1 else 10 * Pow10(n - 1)
  }

  lemma {:induction false} DecimalBelow(ds: string)
    requires AllDigits(ds)
    ensures DecimalValue(ds) < Pow10(|ds|)
    decreases |ds|
  {
    if ds != [] {
      DecimalBelow(ds[..|ds| - 1]);
    }
  }

  lemma {:induction false} DecimalZero(ds: string)
    requires AllDigits(ds)
    ensures DecimalValue(ds) == 0 <==> !HasNonZero(ds)
    decreases |ds|
  {
    if ds != [] {
      var init := ds[..|ds| - 1];
      DecimalZero(init);
      if HasNonZero(init) {
        var k :| 0 <= k < |init| && init[k] != '0';
        assert ds[k] != '0';
      }
      if HasNonZero(ds) && !HasNonZero(init) {
        var k :| 0 <= k < |ds| && ds[k] != '0';
        assert k == |ds| - 1;
      }
    }
  }

  /**
   * `Ceil` is the ceiling of the captured decimal number: scaled by
   * `10^|fraction|`, the number lies above `Ceil - 1` and at most at `Ceil`.
   */
  lemma CeilIsCeiling(d: Delay)
    requires Capture(d)
    ensures var scale := Pow10(|d.fraction|);
            var scaled := DecimalValue(d.whole) * scale + DecimalValue(d.fraction);
            (Ceil(d) - 1) * scale < scaled <= Ceil(d) * scale
  {
    DecimalBelow(d.fraction);
    DecimalZero(d.fraction);
  }

  /** A message that spells a delay at its start yields that delay's ceiling. */
  lemma RetryDelayOfLeadingMatch(message: string, d: Delay)
    requires Capture(d) && OccursAt(message, Spelled(d), 0)
    ensures RetryDelay(message) == Ceil(d)
  {
    CaptureIsMatch(message, 0, d);
  }

  /** The first match decides the delay, wherever it starts: earlier indices must not match, later ones are ignored. */
  lemma RetryDelayFirst(message: string, i: nat)
    requires i <= |message| && MatchAt(message, i).Some?
    requires forall j :: 0 <= j < i ==> MatchAt(message, j).None?
    ensures RetryDelay(message) == Ceil(MatchAt(message, i).value)
  {
    assert FirstMatch(message, 0) == Some(i);
  }

  /** Writing a whole number of seconds and reading it back gives that number. */
  lemma RetryDelayRoundTrip(n: nat)
    ensures RetryDelay(RetryPrefix + NatToDecimal(n) + "s") == n
  {
    var d := Delay(NatToDecimal(n), "");
    assert Spelled(d) == RetryPrefix + NatToDecimal(n) + "s";
    RetryDelayOfLeadingMatch(Spelled(d), d);
    DecimalRoundTrip(n);
  }

  /** "retry in 5.2s" gives 6. */
  lemma RetryDelayFraction()
    ensures RetryDelay("retry in 5.2s") == 6
  {
    var d := Delay("5", "2");
    assert Spelled(d) == "retry in 5.2s";
    assert d.fraction[0] != '0';
    RetryDelayOfLeadingMatch("retry in 5.2s", d);
  }

  /** "retry in 5s" gives 5. */
  lemma RetryDelayWhole()
    ensures RetryDelay("retry in 5s") == 5
  {
    var e := Delay("5", "");
    assert Spelled(e) == "retry in 5s";
    RetryDelayOfLeadingMatch("retry in 5s", e);
  }

  /** Without a match the delay is 60 seconds. */
  lemma RetryDelayDefault(message: string)
    requires forall i :: 0 <= i <= |message| ==> MatchAt(message, i).None?
    ensures FirstMatch(message, 0).None?
    ensures RetryDelay(message) == 60
  {
    assert MatchAt(message, 0).None?;
  }

  /**
   * Error handling: an `Error` whose message contains `429` gets a 429 with
   * the rate-limit body and the extracted delay; every other thrown value
   * gets a 500 carrying its message or string form.
   */
  lemma ErrorResponses(t: Thrown)
    ensures ErrorResponse(t).status == 429 <==> t.ErrorObject? && Includes(t.message, "429")
    ensures ErrorResponse(t).status == 429 ==>
              ErrorResponse(t).body == RateLimited("Rate limit exceeded",
                "API quota exceeded. Please wait before making more requests.", RetryDelay(t.message), true)
    ensures ErrorResponse(t).status != 429 ==>
              ErrorResponse(t).status == 500
              && ErrorResponse(t).body.message == "Internal server error"
              && ErrorResponse(t).body.error == (if t.ErrorObject? then t.message else t.asString)
  {
  }

  /**
   * Routing: `react` gets two prompts with `BASE_PROMPT` first; `node` gets
   * one prompt, built from the react base prompt, and the node base prompt
   * for the UI; every other answer gets 403.
   */
  lemma TemplateRouting(p: Prompts, answer: string)
    ensures var r := Route(p, answer);
            && (Lower(Trim(answer)) == "react" ==>
                  r == Response(200, Templates([p.basePrompt, Artifact(p.reactBase)], [p.reactBase])))
            && (Lower(Trim(answer)) == "node" ==>
                  r.status == 200 && r.body.prompts == [Artifact(p.reactBase)] && r.body.uiPrompts == [p.nodeBase])
            && (r.status == 200 <==> Lower(Trim(answer)) in {"react", "node"})
            && (r.status != 200 ==> r == Response(403, Message("You cant access this")))
  {
  }

  /** A padded, capitalised answer still routes: " React\n" selects the react template, "NODE" the node one. */
  lemma RouteNormalisesAnswer(p: Prompts)
    ensures Route(p, " React\n") == Response(200, Templates([p.basePrompt, Artifact(p.reactBase)], [p.reactBase]))
    ensures Route(p, "NODE") == Response(200, Templates([Artifact(p.reactBase)], [p.nodeBase]))
  {
    TrimLowerReact();
    TrimLowerNode();
  }

  /**
   * Both handlers answer a throw with the same response, 429 or 500, and
   * succeed with 200 otherwise: `/chat` always, `/template` exactly when
   * the normalised answer is `react` or `node`, and 403 for any other answer.
   */
  lemma HandlerOutcomes(p: Prompts, outcome: Result<string, Thrown>)
    ensures outcome.Err? ==> TemplateHandler(p, outcome) == ChatHandler(outcome)
    ensures outcome.Err? ==> TemplateHandler(p, outcome).status in {429, 500}
    ensures ChatHandler(outcome).status == 200 <==> outcome.Ok?
    ensures outcome.Ok? ==> ChatHandler(outcome).body == Answer(outcome.value)
    ensures TemplateHandler(p, outcome).status == 200 <==> outcome.Ok? && Lower(Trim(outcome.value)) in {"react", "node"}
    ensures TemplateHandler(p, outcome).status == 403 <==> outcome.Ok? && Lower(Trim(outcome.value)) !in {"react", "node"}
  {
    match outcome
    case Ok(answer) => TemplateRouting(p, answer);
    case Err(t) => ErrorResponses(t);
  }

  lemma {:induction false} TranscriptConcat(a: seq<ChatMessage>, b: seq<ChatMessage>)
    ensures Transcript(a + b) == Transcript(a) + Transcript(b)
    decreases |b|
  {
    if b == [] {
      assert a + b == a;
    } else {
      var init, last := b[..|b| - 1], b[|b| - 1];
      assert b == init + [last];
      TranscriptConcat(a, init);
      SnocAssoc(a, init, last);
      TranscriptSnoc(a + init, last);
      TranscriptSnoc(init, last);
      AppendAssoc(Transcript(a), Transcript(init), Line(last));
    }
  }

  /** `b` is its front and its last element, also after `a`. */
  lemma SnocAssoc<T>(a: seq<T>, b: seq<T>, last: T)
    ensures a + (b + [last]) == (a + b) + [last]
  {
  }

  /** The transcript of a list ending in `m` is the earlier messages' transcript, then `m`'s line. */
  lemma TranscriptSnoc(messages: seq<ChatMessage>, m: ChatMessage)
    ensures Transcript(messages + [m]) == Transcript(messages) + Line(m)
  {
    assert (messages + [m])[..|messages|] == messages;
  }

  /** The messages whose role is `user` or `assistant`, in order. */
  function Known(messages: seq<ChatMessage>): (r: seq<ChatMessage>)
    ensures |r| <= |messages|
    ensures forall i :: 0 <= i < |r| ==> r[i].role in {"user", "assistant"}
  {
    if messages == [] then []
    else if messages[0].role in {"user", "assistant"} then [messages[0]] + Known(messages[1..])
    else Known(messages[1..])
  }

  /** Messages with any other role leave no trace in the transcript. */
  lemma {:induction false} TranscriptSkipsOthers(messages: seq<ChatMessage>)
    ensures Transcript(messages) == Transcript(Known(messages))
    decreases |messages|
  {
    if messages != [] {
      var m, rest := messages[0], messages[1..];
      TranscriptSkipsOthers(rest);
      assert messages == [m] + rest;
      TranscriptConcat([m], rest);
      TranscriptOne(m);
      if m.role in {"user", "assistant"} {
        assert Known(messages) == [m] + Known(rest);
        TranscriptConcat([m], Known(rest));
      } else {
        assert Known(messages) == Known(rest);
        assert Line(m) == "";
      }
    }
  }

  lemma TranscriptOne(m: ChatMessage)
    ensures Transcript([m]) == Line(m)
  {
    assert [m][..0] == [];
  }

  /** Each user or assistant message adds exactly its line: the role tag, the content and a newline. */
  lemma TranscriptGrows(messages: seq<ChatMessage>, m: ChatMessage)
    requires m.role in {"user", "assistant"}
    ensures Transcript(messages + [m])
         == Transcript(messages) + (if m.role == "user" then "User: " else "Assistant: ") + m.content + "\n"
  {
    var tag := if m.role == "user" then "User: " else "Assistant: ";
    TranscriptSnoc(messages, m);
    assert Line(m) == tag + m.content + "\n";
    AppendAssoc(Transcript(messages), tag + m.content, "\n");
    AppendAssoc(Transcript(messages), tag, m.content);
  }
}
