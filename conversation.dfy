/**
 * The conversation and rate-limit bookkeeping of the builder page
 * (frontend/src/pages/Builder.tsx: `init` at lines 171-234, the Send
 * button at lines 286-343 and the countdown updater inside both). Every
 * React state update becomes a field of a `Session` value; a request's
 * outcome is an input.
 */
module Conversation {
  import opened Wrappers
  import opened Text
  import opened Plan

  datatype Role = User | Assistant

  /** One entry of the chat history, `{role, content}`. */
  datatype Message = Message(role: Role, content: string)

  /**
   * How a request failed. `HttpError` is an axios error that carries a
   * response: its status, the response body's `retryAfter` and `message`
   * when present, and the error's own `message`. `NoResponse` is an axios
   * error without a response; `OtherError` is anything else thrown.
   */
  datatype Failure =
    | HttpError(status: int, retryAfter: Option<nat>, bodyMessage: Option<string>, errorMessage: string)
    | NoResponse(errorMessage: string)
    | OtherError

  /** A `/chat` request's outcome: the response text and the steps parsed from it, or a failure. */
  datatype Reply = Answered(response: string, parsed: seq<Step>) | Failed(failure: Failure)

  /** The `/template` request's outcome: the prompts and the steps parsed from the first UI prompt. */
  datatype TemplateReply = Template(prompts: seq<string>, uiSteps: seq<Step>) | TemplateFailed(failure: Failure)

  /** The page's conversation state; `alert` is the last message shown with `alert`. */
  datatype Session = Session(
    history: seq<Message>,
    steps: seq<Step>,
    prompt: string,
    loading: bool,
    templateSet: bool,
    rateLimit: Option<nat>,
    countdown: int,
    alert: Option<string>)

  /** The state the page starts in. */
  const Fresh := Session([], [], "", false, false, None, 0, None)

  const BlankPrompt := "Please enter a message"
  /** The alert for a failure that is not an axios error. */
  const Unexpected := "An unexpected error occurred." + " Please try again."

  /** `prompts.map(content => ({role: "user", content}))`. */
  function UserMessages(contents: seq<string>): (r: seq<Message>)
    ensures |r| == |contents|
    ensures forall i :: 0 <= i < |r| ==> r[i] == Message(User, contents[i])
  {
    seq(|contents|, i requires 0 <= i < |contents| => Message(User, contents[i]))
  }

  /** `data?.retryAfter || 60`: a missing or zero delay becomes 60 seconds. */
  function RetryAfter(given: Option<nat>): (r: nat)
    ensures r > 0
    ensures given.Some? && given.value != 0 ==> r == given.value
    ensures given.None? || given.value == 0 ==> r == 60
  {
    if given.Some? && given.value != 0 then given.value else 60
  }

  /** The alert text of a failure that is not a rate limit: the server's message when non-empty, else the error's. */
  function FailureAlert(f: Failure): (r: string)
    ensures r == Unexpected <==> f.OtherError?
    ensures !f.OtherError? ==> |r| >= 7 && r[..7] == "Error: "
  {
    match f
    case HttpError(_, _, body, err) =>
      var shown := if body.Some? && body.value != "" then body.value else err;
      ServerAlertNotUnexpected(shown);
      "Error: " + shown
    case NoResponse(err) =>
      ServerAlertNotUnexpected(err);
      "Error: " + err
    case OtherError => Unexpected
  }

  /** The `catch` block shared by `init` and Send: stop loading, then start a countdown on 429 or raise an alert. */
  function OnFailure(s: Session, f: Failure): (r: Session)
    ensures !r.loading
    ensures r.history == s.history && r.steps == s.steps && r.prompt == s.prompt && r.templateSet == s.templateSet
    ensures f.HttpError? && f.status == 429 ==> r.rateLimit == Some(r.countdown) && r.countdown > 0 && r.alert == s.alert
    ensures !(f.HttpError? && f.status == 429) ==>
              r.alert.Some? && r.rateLimit == s.rateLimit && r.countdown == s.countdown
  {
    var s' := s.(loading := false);
    if f.HttpError? && f.status == 429 then
      var wait := RetryAfter(f.retryAfter);
      s'.(rateLimit := Some(wait), countdown := wait)
    else
      s'.(alert := Some(FailureAlert(f)))
  }

  /** `setCountdown(prev => …)`: one second of the countdown; at 1 or below it stops at 0 and clears the limit. */
  function Tick(s: Session): (r: Session)
    ensures r.countdown >= 0
    ensures s.countdown > 0 ==> r.countdown == s.countdown - 1
    ensures r.rateLimit.None? <==> s.rateLimit.None? || s.countdown <= 1
    ensures r.(countdown := s.countdown, rateLimit := s.rateLimit) == s
  {
    if s.countdown <= 1 then s.(countdown := 0, rateLimit := None)
    else s.(countdown := s.countdown - 1)
  }

  /** The Send button is shown once the template is set and nothing is loading, and is enabled unless rate limited. */
  predicate CanSend(s: Session): (b: bool)
    ensures b ==> s.templateSet && !s.loading
    ensures s.rateLimit.Some? ==> !b
    ensures s.templateSet && !s.loading ==> (b <==> s.rateLimit.None?)
  {
    s.templateSet && !s.loading && s.rateLimit.None?
  }

  /** The messages a Send posts to `/chat`: the history, then the prompt as a user message. */
  function SendRequest(s: Session): seq<Message> {
    s.history + [Message(User, s.prompt)]
  }

  /** Pressing Send (Builder.tsx:286-338) with the request's outcome `reply`. */
  function Send(s: Session, reply: Reply): (r: Session)
    ensures !CanSend(s) ==> r == s
    ensures r.templateSet == s.templateSet && r.loading == s.loading
    ensures r.history == s.history || (reply.Answered? && r.history == SendRequest(s) + [Message(Assistant, reply.response)])
  {
    if !CanSend(s) then s
    else if Trim(s.prompt) == [] then s.(alert := Some(BlankPrompt))
    else match reply
      case Answered(response, parsed) =>
        s.(history := SendRequest(s) + [Message(Assistant, response)],
           steps := s.steps + WithStatus(parsed, Pending),
           prompt := "",
           loading := false)
      case Failed(f) => OnFailure(s, f)
  }

  /** The messages `init` posts to `/chat`: the template prompts, then the page's prompt, all as user messages. */
  function InitRequest(prompts: seq<string>, prompt: string): seq<Message> {
    UserMessages(prompts + [prompt])
  }

  /**
   * The first half of `init` (Builder.tsx:173-184), from the fresh state up
   * to the `/chat` await: on the template's answer the template is set, its
   * UI steps are pending and the page is loading.
   */
  function InitTemplate(template: TemplateReply): (r: Session)
    ensures r.history == [] && r.prompt == ""
    ensures r.templateSet <==> template.Template?
    ensures r.loading <==> template.Template?
  {
    match template
    case TemplateFailed(f) => OnFailure(Fresh, f)
    case Template(_, uiSteps) => Fresh.(templateSet := true, steps := WithStatus(uiSteps, Pending), loading := true)
  }

  /**
   * The second half of `init` (Builder.tsx:185-232), once `/chat` has
   * answered. It applies to the session as it stands after the await: the
   * file-tree effect may have run meanwhile, so the reply's steps are
   * appended to the steps of that moment, and the history is replaced by
   * the posted messages and the reply.
   */
  function InitChat(s: Session, prompts: seq<string>, prompt: string, chat: Reply): (r: Session)
    ensures !r.loading && r.templateSet == s.templateSet
    ensures s.steps <= r.steps
    ensures chat.Failed? ==> r.history == s.history
  {
    match chat
    case Answered(response, parsed) =>
      s.(loading := false,
         steps := s.steps + WithStatus(parsed, Pending),
         history := InitRequest(prompts, prompt) + [Message(Assistant, response)])
    case Failed(f) => OnFailure(s, f)
  }

  /*** Properties ***/

  /** A blank prompt is refused with an alert; nothing else changes. */
  lemma SendBlank(s: Session, reply: Reply)
    requires CanSend(s)
    requires forall i :: 0 <= i < |s.prompt| ==> IsSpace(s.prompt[i])
    ensures Send(s, reply) == s.(alert := Some(BlankPrompt))
  {
    TrimEmptyIff(s.prompt);
  }

  /**
   * A successful send grows the history by exactly the user message and the
   * response, appends the parsed steps as pending after the old ones, and
   * clears the prompt.
   */
  lemma SendAnswered(s: Session, response: string, parsed: seq<Step>)
    requires CanSend(s)
    requires exists i :: 0 <= i < |s.prompt| && !IsSpace(s.prompt[i])
    ensures var t := Send(s, Answered(response, parsed));
            && t.history == s.history + [Message(User, s.prompt), Message(Assistant, response)]
            && |t.steps| == |s.steps| + |parsed|
            && t.steps[..|s.steps|] == s.steps
            && (forall i :: 0 <= i < |parsed| ==> t.steps[|s.steps| + i] == parsed[i].(status := Pending))
            && t.prompt == "" && !t.loading && t.rateLimit == s.rateLimit && t.alert == s.alert
  {
    TrimEmptyIff(s.prompt);
    var t := Send(s, Answered(response, parsed));
    var added := WithStatus(parsed, Pending);
    assert t.history == s.history + [Message(User, s.prompt)] + [Message(Assistant, response)];
    assert t.steps == s.steps + added;
    assert t.steps[..|s.steps|] == s.steps;
    forall i | 0 <= i < |parsed| ensures t.steps[|s.steps| + i] == parsed[i].(status := Pending) {
      assert t.steps[|s.steps| + i] == added[i];
      assert added[i].(status := parsed[i].status) == parsed[i];
    }
  }

  /** The history after a successful send is exactly what was posted, followed by the response. */
  lemma SendRecordsRequest(s: Session, response: string, parsed: seq<Step>)
    requires CanSend(s) && Trim(s.prompt) != []
    ensures Send(s, Answered(response, parsed)).history == SendRequest(s) + [Message(Assistant, response)]
    ensures SendRequest(s)[..|s.history|] == s.history
  {
  }

  /** A failed send keeps the history, the steps and the prompt, and stops loading. */
  lemma SendFailed(s: Session, f: Failure)
    ensures var t := Send(s, Failed(f));
            && t.history == s.history && t.steps == s.steps && t.prompt == s.prompt
            && (CanSend(s) ==> !t.loading)
  {
    if CanSend(s) && Trim(s.prompt) != [] {
      assert Send(s, Failed(f)) == OnFailure(s, f);
    }
  }

  /** A 429 starts the countdown at the server's delay, or at 60 seconds when it gave none or zero; no alert is raised. */
  lemma RateLimited(s: Session, retryAfter: Option<nat>, body: Option<string>, err: string)
    requires CanSend(s) && Trim(s.prompt) != []
    ensures var t := Send(s, Failed(HttpError(429, retryAfter, body, err)));
            && t.rateLimit == Some(t.countdown)
            && t.countdown == (if retryAfter.Some? && retryAfter.value > 0 then retryAfter.value else 60)
            && t.alert == s.alert
            && !CanSend(t)
  {
  }

  /** Any other failure raises an alert and leaves the rate limit alone. */
  lemma OtherFailureAlerts(s: Session, f: Failure)
    requires CanSend(s) && Trim(s.prompt) != []
    requires !(f.HttpError? && f.status == 429)
    ensures var t := Send(s, Failed(f));
            && t.alert.Some?
            && t.rateLimit == s.rateLimit && t.countdown == s.countdown
            && (f.OtherError? <==> t.alert == Some(Unexpected))
  {
    assert Send(s, Failed(f)) == s.(loading := false, alert := Some(FailureAlert(f)));
    if !f.OtherError? {
      var body := if f.HttpError? && f.bodyMessage.Some? && f.bodyMessage.value != "" then f.bodyMessage.value else f.errorMessage;
      ServerAlertNotUnexpected(body);
    }
  }

  lemma ServerAlertNotUnexpected(body: string)
    ensures "Error: " + body != Unexpected
  {
    assert ("Error: " + body)[0] == 'E';
    assert Unexpected[0] == 'A';
  }

  /** Every transition keeps the old history and the old steps as a prefix. */
  lemma SendKeepsPrefix(s: Session, reply: Reply)
    ensures s.history <= Send(s, reply).history
    ensures s.steps <= Send(s, reply).steps
  {
    var t := Send(s, reply);
    if CanSend(s) && Trim(s.prompt) != [] && reply.Answered? {
      assert t.history == s.history + ([Message(User, s.prompt)] + [Message(Assistant, reply.response)]);
      assert t.steps == s.steps + WithStatus(reply.parsed, Pending);
    } else {
      assert t.history == s.history && t.steps == s.steps;
    }
  }

  /** `ticks` applications of the countdown updater. */
  function TickN(s: Session, ticks: nat): Session {
    if ticks == 0 then s else Tick(TickN(s, ticks - 1))
  }

  /**
   * Starting from a countdown of `c` seconds, the limit holds for the first
   * `c - 1` ticks with the countdown going down by one each time, and is
   * cleared with the countdown at 0 on tick `c` and after.
   */
  lemma {:induction false} CountdownRuns(s: Session, ticks: nat)
    requires s.countdown >= 1 && s.rateLimit.Some?
    ensures ticks < s.countdown ==> TickN(s, ticks) == s.(countdown := s.countdown - ticks)
    ensures ticks >= s.countdown ==> TickN(s, ticks) == s.(countdown := 0, rateLimit := None)
  {
    if ticks > 0 {
      CountdownRuns(s, ticks - 1);
    }
  }

  /** The bookkeeping invariant: the countdown is never negative, and the limit is set exactly while it is positive. */
  predicate Consistent(s: Session) {
    s.countdown >= 0 && (s.rateLimit.Some? <==> s.countdown > 0)
  }

  /** Once the template is set and nothing loads, the countdown's last tick enables Send again. */
  lemma CountdownReenablesSend(s: Session)
    requires Consistent(s) && s.templateSet && !s.loading
    ensures CanSend(TickN(s, s.countdown))
  {
    if s.countdown >= 1 {
      CountdownRuns(s, s.countdown);
    }
  }

  lemma FreshConsistent()
    ensures Consistent(Fresh)
  {
  }

  lemma TickConsistent(s: Session)
    requires Consistent(s)
    ensures Consistent(Tick(s))
    ensures s.countdown > 0 ==> Tick(s).countdown == s.countdown - 1
  {
  }

  lemma SendConsistent(s: Session, reply: Reply)
    requires Consistent(s)
    ensures Consistent(Send(s, reply))
  {
    var t := Send(s, reply);
    if CanSend(s) && Trim(s.prompt) != [] && reply.Failed? {
      assert t == OnFailure(s, reply.failure);
    } else {
      assert t.countdown == s.countdown && t.rateLimit == s.rateLimit;
    }
  }

  /** The template half of `init` establishes the invariant, and the chat half keeps it. */
  lemma InitConsistent(s: Session, template: TemplateReply, prompts: seq<string>, prompt: string, chat: Reply)
    requires Consistent(s)
    ensures Consistent(InitTemplate(template))
    ensures Consistent(InitChat(s, prompts, prompt, chat))
  {
  }

  /**
   * `init`: a failed template request sets nothing; an answered one sets the
   * template, makes its UI steps pending and starts loading. The chat half,
   * applied to whatever steps `during` the session holds when `/chat`
   * answers, keeps those steps and stops loading; on success it appends the
   * reply's steps as pending and sets the history to the posted user
   * messages followed by the response; on failure the history stays empty.
   */
  lemma InitOutcomes(prompt: string, template: TemplateReply, chat: Reply, during: seq<Step>)
    ensures var s := InitTemplate(template);
            && (template.TemplateFailed? ==> !s.templateSet && s.steps == [] && s.history == [] && !s.loading)
            && (template.Template? ==>
                  s.templateSet && s.loading && s.history == [] && s.steps == WithStatus(template.uiSteps, Pending))
    ensures template.Template? ==>
              var t := InitChat(InitTemplate(template).(steps := during), template.prompts, prompt, chat);
              && t.templateSet && !t.loading
              && t.steps[..|during|] == during
              && (chat.Answered? ==>
                    && t.history == UserMessages(template.prompts + [prompt]) + [Message(Assistant, chat.response)]
                    && |t.history| == |template.prompts| + 2
                    && t.history[|template.prompts|] == Message(User, prompt)
                    && t.steps == during + WithStatus(chat.parsed, Pending))
              && (chat.Failed? ==> t.history == [] && t.steps == during)
  {
    if template.Template? {
      var t := InitChat(InitTemplate(template).(steps := during), template.prompts, prompt, chat);
      if chat.Answered? {
        assert t.steps == during + WithStatus(chat.parsed, Pending);
      } else {
        assert t.steps == during;
      }
    }
  }

  /**
   * `init` as the page runs it: the template's steps are pending when the
   * `/chat` request goes out, the file-tree effect marks them completed
   * while it is in flight, and the reply's steps are then appended. The
   * steps end as the template's completed and the reply's pending, so the
   * next pass of the effect applies exactly the reply's steps.
   */
  lemma InitWithSync(prompt: string, prompts: seq<string>, uiSteps: seq<Step>, response: string, parsed: seq<Step>)
    ensures var s := InitTemplate(Template(prompts, uiSteps));
            var t := InitChat(s.(steps := WithStatus(s.steps, Completed)), prompts, prompt, Answered(response, parsed));
            && t.steps == WithStatus(uiSteps, Completed) + WithStatus(parsed, Pending)
            && PendingSteps(t.steps) == WithStatus(parsed, Pending)
  {
    var s := InitTemplate(Template(prompts, uiSteps));
    assert s.steps == WithStatus(uiSteps, Pending);
    WithStatusTwice(uiSteps, Pending, Completed);
    var done := WithStatus(uiSteps, Completed);
    var added := WithStatus(parsed, Pending);
    var t := InitChat(s.(steps := done), prompts, prompt, Answered(response, parsed));
    assert t.steps == done + added;
    CompletedThenPending(uiSteps, parsed);
  }
}
