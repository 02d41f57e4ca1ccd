/**
  One plan step: the bounded tool-call loop inside the bounded retry loop.  What the model will
  answer to the calls of a step, in order, is an arbitrary stream fixed in advance; every
  result below holds for all streams.
*/
module StepExecution {
  import opened Wrappers
  import opened Conversations

  datatype Settings = Settings(
    maxRetries: int, maxToolCalls: int, maxSteps: int, keep: int,
    models: map<string, string>, workerModel: string, reasonerModel: string)
  {
    function ModelFor(role: string): string {
      if role in models then models[role] else workerModel
    }

    /** The chat calls one pass of the tool-call loop can make. */
    function Turns(): nat {
      if maxToolCalls + 1 > 0 then maxToolCalls + 1 else 0
    }

    function Retries(): nat {
      if maxRetries > 0 then maxRetries else 0
    }

    /** The chat calls one execution of a step can make. */
    function StepBudget(): nat {
      Retries() * (Turns() + 1)
    }

    /** The steps that the sequential phase looks at. */
    function StepCap(): nat {
      if maxSteps > 1 then maxSteps else 1
    }
  }

  datatype StepStatus = Pending | Running | Complete | Failed

  /** The parsed reply that completed a step, or a DONE envelope converted into one. */
  datatype Output = FromReply(text: string) | FromDone(text: string)

  datatype Input = NoInput | Single(output: Output) | Many(outputs: seq<Output>)

  datatype Prompt = Prompt(model: string, messages: seq<Message>)

  /** What an attempt finds: whether memory must be compressed first, and the stored summary. */
  datatype Setup = Setup(compress: bool, summary: Option<string>)

  datatype LoopResult = NoResult | Completed(output: Output) | Reported(recoverable: bool) | Transport | Crash

  /** What _execute_step returns (True, False), or an exception of another kind that escapes it. */
  datatype StepOutcome = Succeeded | FailedStep | Crashed

  function LoopResultOf(r: Reply): LoopResult {
    match r
    case Said(text, parsed) => (
      match parsed
      case NotAnObject(_) => Crash
      case Enveloped(Done) => Completed(FromDone(text))
      case ToolCall(None) => Crash
      case Terminal => Completed(FromReply(text))
      case StepError(recoverable) => Reported(recoverable)
      case _ => NoResult)
    case HttpError => Transport
    case Exception => Crash
  }

  /** What the compression call leads to: anything but a failure lets the attempt go on. */
  function CompressResult(r: Reply): LoopResult {
    if r.HttpError? then Transport
    else if r.Exception? || r.parsed == NotAnObject(true) then Crash
    else NoResult
  }

  function CompressionPrompt(settings: Settings): Prompt {
    Prompt(settings.reasonerModel, [Message(User, "memory_compression")])
  }

  predicate Halts(r: Reply) {
    r.Said? && r.parsed.Enveloped? && (r.parsed.envelope == Block || r.parsed.envelope == ApprovalRequired)
  }

  predicate HandsOver(r: Reply) {
    r.Said? && r.parsed.Enveloped? && (r.parsed.envelope == Escalate || r.parsed.envelope == ScopeCreep)
  }

  predicate CallsTool(r: Reply) {
    r.Said? && r.parsed.ToolCall?
  }

  function EnvelopeIn(r: Reply): seq<Envelope> {
    if r.Said? && r.parsed.Enveloped? then [r.parsed.envelope] else []
  }

  function ToolCalls(replies: nat -> Reply, from: nat, n: nat): (count: nat)
    ensures count <= n
  {
    if n == 0 then 0
    else ToolCalls(replies, from, n - 1)
         + if CallsTool(replies(from + n - 1)) then 1 else 0
  }

  function Envelopes(replies: nat -> Reply, from: nat, n: nat): seq<Envelope> {
    if n == 0 then []
    else Envelopes(replies, from, n - 1)
         + EnvelopeIn(replies(from + n - 1))
  }

  /** No reply holds an envelope. */
  ghost predicate Quiet(replies: nat -> Reply) {
    forall k: nat :: EnvelopeIn(replies(k)) == []
  }

  /** The list of a trace and a step's own list have grown by the same envelopes. */
  ghost predicate Logged(
    trace: seq<Envelope>, own: seq<Envelope>, laterTrace: seq<Envelope>, laterOwn: seq<Envelope>)
  {
    own <= laterOwn && laterTrace == trace + laterOwn[|own|..]
  }

  lemma LoggedOnce(trace: seq<Envelope>, own: seq<Envelope>, more: seq<Envelope>)
    ensures Logged(trace, own, trace + more, own + more) && Logged(trace, own, trace, own)
  {
    assert (own + more)[|own|..] == more && own[|own|..] == [] && trace + [] == trace;
  }

  lemma LoggedBoth(
    trace: seq<Envelope>, own: seq<Envelope>, nextTrace: seq<Envelope>, nextOwn: seq<Envelope>,
    laterTrace: seq<Envelope>, laterOwn: seq<Envelope>)
    requires Logged(trace, own, nextTrace, nextOwn) && Logged(nextTrace, nextOwn, laterTrace, laterOwn)
    ensures Logged(trace, own, laterTrace, laterOwn)
  {
    assert laterOwn[|own|..] == nextOwn[|own|..] + laterOwn[|nextOwn|..];
    assert trace + (nextOwn[|own|..] + laterOwn[|nextOwn|..]) == (trace + nextOwn[|own|..]) + laterOwn[|nextOwn|..];
  }

  /** The model asked on turn n: the reasoner as soon as some earlier reply escalated. */
  function ModelAt(model: string, reasoner: string, replies: nat -> Reply, from: nat, n: nat): string {
    if n == 0 then model
    else if HandsOver(replies(from + n - 1)) then reasoner
    else ModelAt(model, reasoner, replies, from, n - 1)
  }

  function Initial(summary: Option<string>, delegation: string): (m: seq<Message>)
    ensures m != []
  {
    if summary.Some? && summary.value != ""
    then [Message(User, "[CONTEXT SUMMARY]\n" + summary.value + "\n[END SUMMARY]"), Message(User, delegation)]
    else [Message(User, delegation)]
  }

  /** The prompts of n turns: on every turn the whole conversation so far, pruned once. */
  ghost function Prompts(
    model: string, settings: Settings, initial: seq<Message>, replies: nat -> Reply, from: nat, n: nat): seq<Prompt>
    requires initial != [] && (n > 0 ==> GoesOn(replies, from, n - 1))
    decreases n
  {
    if n == 0 then []
    else
      Prompts(model, settings, initial, replies, from, n - 1)
      + [Prompt(ModelAt(model, settings.reasonerModel, replies, from, n - 1),
                Prune(Full(initial, replies, from, n - 1), settings.keep))]
  }

  ghost function Full(initial: seq<Message>, replies: nat -> Reply, from: nat, n: nat): (c: seq<Message>)
    requires initial != [] && GoesOn(replies, from, n)
    ensures c != []
  {
    ConversationGrows(initial, replies, from, n);
    Conversation(initial, replies, from, n)
  }

  // ----- a step as a function of its streams -----

  /** The fields of a step that executing it changes. */
  datatype Core = Core(
    status: StepStatus, output: Option<Output>, retries: nat, toolCallsMade: nat,
    asked: nat, attempts: nat, prompts: seq<Prompt>, received: seq<Envelope>)

  /** All that the course of a step depends on. */
  datatype Job = Job(
    settings: Settings, model: string, action: string, replies: nat -> Reply, setups: nat -> Setup)

  function Sent(c: Core, prompt: Prompt): Core {
    c.(asked := c.asked + 1, prompts := c.prompts + [prompt])
  }

  /** One turn: the prompt goes out, and the reply takes effect. */
  function Heard(c: Core, prompt: Prompt, reply: Reply): Core {
    Sent(c, prompt).(
      toolCallsMade := c.toolCallsMade + if CallsTool(reply) then 1 else 0,
      status := if Halts(reply) then Failed else c.status,
      received := c.received + EnvelopeIn(reply))
  }

  /** At most `left` more turns of the tool-call loop. */
  function RunTurns(job: Job, c: Core, model: string, messages: seq<Message>, left: nat): (Core, LoopResult)
    requires messages != []
    decreases left
  {
    if left == 0 then (c, NoResult)
    else
      var pruned := Prune(messages, job.settings.keep);
      var reply := job.replies(c.asked);
      var next := Heard(c, Prompt(model, pruned), reply);
      if Ends(reply) then (next, LoopResultOf(reply))
      else RunTurns(job, next, if HandsOver(reply) then job.settings.reasonerModel else model,
                    pruned + Exchange(reply), left - 1)
  }

  function Compressed(job: Job, c: Core): Core {
    Sent(c, CompressionPrompt(job.settings))
  }

  function RunLoop(job: Job, c: Core, summary: Option<string>): (Core, LoopResult) {
    RunTurns(job, c, job.model, Initial(summary, job.action), job.settings.Turns())
  }

  function RunAttempt(job: Job, c: Core): (Core, LoopResult) {
    var setup := job.setups(c.attempts);
    var begun := c.(attempts := c.attempts + 1);
    if setup.compress then RunCompression(job, begun, setup.summary) else RunLoop(job, begun, setup.summary)
  }

  function RunCompression(job: Job, c: Core, summary: Option<string>): (Core, LoopResult) {
    var r := CompressResult(job.replies(c.asked));
    if r != NoResult then (Compressed(job, c), r) else RunLoop(job, Compressed(job, c), summary)
  }

  /** What the retry loop makes of an attempt: the step is over, or (None) another attempt follows. */
  function Conclude(c: Core, r: LoopResult): (Core, Option<StepOutcome>) {
    match r
    case NoResult => (c.(retries := c.retries + 1), None)
    case Transport => (c.(retries := c.retries + 1), None)
    case Reported(true) => (c.(retries := c.retries + 1), None)
    case Reported(false) => (c.(retries := c.retries + 1, status := Failed), Some(FailedStep))
    case Completed(parsed) => (c.(output := Some(parsed), status := Complete), Some(Succeeded))
    case Crash => (c, Some(Crashed))
  }

  /** One pass of the retry loop. */
  function TriedOnce(job: Job, c: Core): (Core, Option<StepOutcome>) {
    var (after, r) := RunAttempt(job, c);
    Conclude(after, r)
  }

  function RunAttempts(job: Job, c: Core, left: nat): (Core, StepOutcome)
    decreases left, 0
  {
    if left == 0 then (c.(status := Failed), FailedStep)
    else var (after, r) := RunAttempt(job, c); RunOn(job, after, r, left - 1)
  }

  /** The rest of a step whose attempt has just given r. */
  function RunOn(job: Job, c: Core, r: LoopResult, left: nat): (Core, StepOutcome)
    decreases left, 1
  {
    var (after, over) := Conclude(c, r);
    if over.Some? then (after, over.value) else RunAttempts(job, after, left)
  }

  /** A whole execution of a step. */
  function RunCourse(job: Job, c: Core): (Core, StepOutcome) {
    RunAttempts(job, c.(status := Running), job.settings.Retries())
  }

  lemma TurnUnfolds(job: Job, c: Core, model: string, messages: seq<Message>, left: nat)
    requires messages != [] && left > 0
    ensures var pruned := Prune(messages, job.settings.keep);
            var reply := job.replies(c.asked);
            var next := Heard(c, Prompt(model, pruned), reply);
            && pruned != []
            && (!Ends(reply) ==> reply.Said?)
            && RunTurns(job, c, model, messages, left) ==
               if Ends(reply) then (next, LoopResultOf(reply))
               else RunTurns(job, next, if HandsOver(reply) then job.settings.reasonerModel else model,
                             pruned + Exchange(reply), left - 1)
  {
    hide LoopResultOf; hide Exchange;
  }

  lemma NoTurnsLeft(job: Job, c: Core, model: string, messages: seq<Message>)
    requires messages != []
    ensures RunTurns(job, c, model, messages, 0) == (c, NoResult)
  {
  }

  /** Envelopes are only ever added, and none if no reply holds one. */
  ghost predicate Adds(job: Job, before: Core, after: Core) {
    before.received <= after.received && (Quiet(job.replies) ==> after.received == before.received)
  }

  /** How an execution changes a step, whatever the replies are. */
  ghost predicate Advanced(job: Job, before: Core, after: Core, calls: nat, outcome: StepOutcome) {
    && Adds(job, before, after)
    && before.asked <= after.asked <= before.asked + calls
    && after.status != Pending
    && (outcome == Succeeded <==> after.status == Complete)
    && (if outcome == Succeeded then after.output.Some? else after.output == before.output)
    && (outcome == FailedStep ==> after.status == Failed)
  }

  lemma {:induction false} TurnsAdvance(job: Job, c: Core, model: string, messages: seq<Message>, left: nat)
    requires messages != []
    ensures var (after, _) := RunTurns(job, c, model, messages, left);
            && c.asked <= after.asked <= c.asked + left && after.output == c.output
            && (after.status == c.status || after.status == Failed) && Adds(job, c, after)
    decreases left
  {
    if left > 0 {
      hide Prune; hide Exchange; hide LoopResultOf; hide EnvelopeIn; hide RunTurns; hide Ends; hide HandsOver;
      TurnUnfolds(job, c, model, messages, left);
      var reply := job.replies(c.asked);
      var pruned := Prune(messages, job.settings.keep);
      if !Ends(reply) {
        var sender := if HandsOver(reply) then job.settings.reasonerModel else model;
        TurnsAdvance(job, Heard(c, Prompt(model, pruned), reply), sender, pruned + Exchange(reply), left - 1);
      }
    }
  }

  lemma AttemptAdvances(job: Job, c: Core)
    ensures var (after, _) := RunAttempt(job, c);
            && c.asked <= after.asked <= c.asked + job.settings.Turns() + 1 && after.output == c.output
            && (after.status == c.status || after.status == Failed) && Adds(job, c, after)
  {
    hide RunTurns; hide Initial; hide CompressResult; hide Quiet;
    var setup := job.setups(c.attempts);
    var begun := c.(attempts := c.attempts + 1);
    TurnsAdvance(job, begun, job.model, Initial(setup.summary, job.action), job.settings.Turns());
    TurnsAdvance(job, Compressed(job, begun), job.model, Initial(setup.summary, job.action), job.settings.Turns());
  }

  /** One attempt and what the retry loop makes of it. */
  lemma AdvancedOnce(
    job: Job, c: Core, after: Core, r: LoopResult, next: Core, over: Option<StepOutcome>, rest: nat, calls: nat)
    requires Adds(job, c, after) && c.status != Complete && c.status != Pending && (next, over) == Conclude(after, r)
    requires c.asked <= after.asked <= c.asked + calls && after.output == c.output
    requires after.status == c.status || after.status == Failed
    ensures over.Some? ==> Advanced(job, c, next, rest + calls, over.value)
    ensures over.None? ==> Adds(job, c, next)
    ensures over.None? ==> c.asked <= next.asked <= c.asked + calls && next.output == c.output
    ensures over.None? ==> next.status != Complete && next.status != Pending
  {
    hide Quiet;
  }

  lemma AdvancedBoth(job: Job, c: Core, next: Core, end: Core, rest: nat, calls: nat, outcome: StepOutcome)
    requires Adds(job, c, next) && c.asked <= next.asked <= c.asked + calls && next.output == c.output
    requires Advanced(job, next, end, rest, outcome)
    ensures Advanced(job, c, end, rest + calls, outcome)
  {
    hide Quiet;
  }

  lemma {:induction false} AttemptsAdvance(job: Job, c: Core, left: nat)
    requires c.status != Complete && c.status != Pending
    ensures var (after, outcome) := RunAttempts(job, c, left);
            Advanced(job, c, after, left * (job.settings.Turns() + 1), outcome)
    decreases left
  {
    if left == 0 {
      hide Quiet;
      StepRecord.AttemptsOut(job, c);
    } else {
      hide *;
      AttemptAdvances(job, c);
      StepRecord.AttemptsUnfold(job, c, left);
      var (after, r) := RunAttempt(job, c);
      StepRecord.OneMore(left - 1, job.settings.Turns());
      var (next, over) := Conclude(after, r);
      AdvancedOnce(job, c, after, r, next, over, (left - 1) * (job.settings.Turns() + 1), job.settings.Turns() + 1);
      if over.None? {
        AttemptsAdvance(job, next, left - 1);
        var (end, outcome) := RunAttempts(job, next, left - 1);
        AdvancedBoth(job, c, next, end, (left - 1) * (job.settings.Turns() + 1), job.settings.Turns() + 1, outcome);
      }
    }
  }

  /** An execution makes at most R * (M + 2) calls and succeeds exactly when it ends complete. */
  lemma CourseAdvances(job: Job, c: Core)
    ensures var (after, outcome) := RunCourse(job, c);
            Advanced(job, c, after, job.settings.StepBudget(), outcome)
  {
    AttemptsAdvance(job, c.(status := Running), job.settings.Retries());
    hide RunAttempts; hide Quiet;
  }

  // ----- how a step ends, by its last reply -----

  /** A reply that completes a step. */
  predicate Wins(r: Reply) {
    r.Said? && (r.parsed == Terminal || r.parsed == Enveloped(Done))
  }

  /** A reply that escapes the step as an exception; some do so only when a turn asked for them. */
  predicate Escapes(r: Reply, inTurn: bool) {
    || r == Exception || (r.Said? && r.parsed == NotAnObject(true))
    || (inTurn && r.Said? && (r.parsed == NotAnObject(false) || r.parsed == ToolCall(None)))
  }

  /** A reply that fails a step at once. */
  predicate GivesUp(r: Reply) {
    r.Said? && r.parsed == StepError(false)
  }

  function WonOutput(r: Reply): Output
    requires Wins(r)
  {
    if r.parsed == Terminal then FromReply(r.text) else FromDone(r.text)
  }

  /**
    The last reply decides how an execution of at most `left` attempts ends: it succeeds with
    the text of a completing reply, raises on an escaping one, and otherwise fails, early only
    on a reply that gives up.  Every attempt that neither succeeds nor raises costs a retry.
  */
  ghost predicate EndsByLastReply(job: Job, before: Core, after: Core, outcome: StepOutcome, left: nat) {
    var turns := job.settings.Turns() > 0;
    && before.asked <= after.asked
    && after.retries - before.retries + (if outcome == FailedStep then 0 else 1)
       == after.attempts - before.attempts <= left
    && if after.asked == before.asked
       then outcome == FailedStep && after.retries == before.retries + left
       else
         var last := job.replies(after.asked - 1);
         && (outcome == Succeeded <==> turns && Wins(last))
         && (outcome == Crashed <==> Escapes(last, turns))
         && (turns && GivesUp(last) ==> outcome == FailedStep)
         && (outcome == FailedStep && after.retries < before.retries + left ==> GivesUp(last))
         && (outcome == Succeeded ==> after.output == Some(WonOutput(last)))
  }

  /** The last reply of a pass decides its result. */
  lemma {:induction false} TurnsEnd(job: Job, c: Core, model: string, messages: seq<Message>, left: nat)
    requires messages != []
    ensures var (after, r) := RunTurns(job, c, model, messages, left);
            && (if left == 0 then after.asked == c.asked && r == NoResult
                else after.asked > c.asked
                     && var last := job.replies(after.asked - 1);
                        r == if Ends(last) then LoopResultOf(last) else NoResult)
            && after.retries == c.retries && after.attempts == c.attempts
    decreases left
  {
    if left == 0 {
      NoTurnsLeft(job, c, model, messages);
    } else {
      hide RunTurns; hide Prune; hide Exchange; hide LoopResultOf; hide Ends; hide HandsOver;
      TurnUnfolds(job, c, model, messages, left);
      var pruned, reply := Prune(messages, job.settings.keep), job.replies(c.asked);
      if !Ends(reply) {
        TurnsEnd(job, Heard(c, Prompt(model, pruned), reply),
                 if HandsOver(reply) then job.settings.reasonerModel else model, pruned + Exchange(reply), left - 1);
      }
    }
  }

  /** What the last reply of an attempt makes of it. */
  ghost predicate AttemptEnds(job: Job, c: Core, after: Core, r: LoopResult) {
    var turns := job.settings.Turns() > 0;
    && c.asked <= after.asked && after.retries == c.retries && after.attempts == c.attempts + 1
    && if after.asked == c.asked then r == NoResult
       else
         var last := job.replies(after.asked - 1);
         && (r.Completed? <==> turns && Wins(last)) && (r == Crash <==> Escapes(last, turns))
         && (r == Reported(false) ==> GivesUp(last)) && (turns && GivesUp(last) ==> r == Reported(false))
         && (r.Completed? ==> r.output == WonOutput(last))
  }

  lemma RepliesSort(r: Reply)
    ensures var result := if Ends(r) then LoopResultOf(r) else NoResult;
            && (result.Completed? <==> Wins(r)) && (result == Crash <==> Escapes(r, true))
            && (result == Reported(false) <==> GivesUp(r)) && (Wins(r) ==> result == Completed(WonOutput(r)))
    ensures CompressResult(r) == Crash <==> Escapes(r, false)
    ensures CompressResult(r) == NoResult || CompressResult(r) == Crash || CompressResult(r) == Transport
    ensures CompressResult(r) == Transport ==> r == HttpError
    ensures Escapes(r, false) ==> Escapes(r, true) && !Wins(r) && !GivesUp(r)
    ensures r == HttpError ==> !Wins(r) && !GivesUp(r) && !Escapes(r, true)
  {
  }

  lemma AttemptEnd(job: Job, c: Core)
    ensures var (after, r) := RunAttempt(job, c); AttemptEnds(job, c, after, r)
  {
    hide RunAttempt; hide RunTurns; hide Initial; hide CompressResult; hide Ends; hide LoopResultOf;
    hide Wins; hide Escapes; hide GivesUp; hide WonOutput;
    StepRecord.AttemptUnfolds(job, c);
    var setup, begun := job.setups(c.attempts), c.(attempts := c.attempts + 1);
    var initial := Initial(setup.summary, job.action);
    TurnsEnd(job, begun, job.model, initial, job.settings.Turns());
    TurnsEnd(job, Compressed(job, begun), job.model, initial, job.settings.Turns());
    RepliesSort(job.replies(c.asked));
    var after := RunAttempt(job, c).0;
    if after.asked > 0 {
      RepliesSort(job.replies(after.asked - 1));
    }
  }

  lemma {:induction false} AttemptsEnd(job: Job, c: Core, left: nat)
    ensures var (after, outcome) := RunAttempts(job, c, left); EndsByLastReply(job, c, after, outcome, left)
    decreases left
  {
    hide RunAttempt; hide RunAttempts; hide Wins; hide Escapes; hide GivesUp; hide WonOutput;
    if left == 0 {
      StepRecord.AttemptsOut(job, c);
    } else {
      AttemptEnd(job, c);
      StepRecord.AttemptsUnfold(job, c, left);
      var (after, r) := RunAttempt(job, c);
      if after.asked > c.asked {
        RepliesSort(job.replies(after.asked - 1));
      }
      var (next, over) := Conclude(after, r);
      if over.None? {
        AttemptsEnd(job, next, left - 1);
      }
    }
  }

  /** How a whole step ends, for every stream of replies. */
  lemma StepEndsByLastReply(job: Job, c: Core)
    ensures var (after, outcome) := RunCourse(job, c);
            EndsByLastReply(job, c, after, outcome, job.settings.Retries())
  {
    hide EndsByLastReply;
    AttemptsEnd(job, c.(status := Running), job.settings.Retries());
    hide RunAttempts;
    StepRecord.CourseUnfolds(job, c);
    var (after, outcome) := RunCourse(job, c);
    SameStart(job, c.(status := Running), c, after, outcome, job.settings.Retries());
  }

  /** No attempt of the step compresses memory. */
  ghost predicate NeverCompresses(job: Job) {
    forall k: nat :: !job.setups(k).compress
  }

  /** None of these replies could have ended the step; a compression call hears some of them without effect. */
  ghost predicate NoneEnds(job: Job, from: nat, to: int) {
    forall k: nat :: from <= k < to ==>
      !Escapes(job.replies(k), false)
      && (NeverCompresses(job) ==>
            !Wins(job.replies(k)) && !Escapes(job.replies(k), true) && !GivesUp(job.replies(k)))
  }

  lemma {:induction false} TurnsGoOn(job: Job, c: Core, model: string, messages: seq<Message>, left: nat)
    requires messages != []
    ensures NoneEnds(job, c.asked, RunTurns(job, c, model, messages, left).0.asked - 1)
    decreases left
  {
    hide NeverCompresses; hide Wins; hide Escapes; hide GivesUp;
    if left == 0 {
      NoTurnsLeft(job, c, model, messages);
    } else {
      hide RunTurns; hide Prune; hide Exchange; hide LoopResultOf; hide Ends; hide HandsOver;
      TurnUnfolds(job, c, model, messages, left);
      var pruned, reply := Prune(messages, job.settings.keep), job.replies(c.asked);
      RepliesSort(reply);
      if !Ends(reply) {
        TurnsGoOn(job, Heard(c, Prompt(model, pruned), reply),
                  if HandsOver(reply) then job.settings.reasonerModel else model, pruned + Exchange(reply), left - 1);
      }
    }
  }

  lemma AttemptGoesOn(job: Job, c: Core)
    ensures NoneEnds(job, c.asked, RunAttempt(job, c).0.asked - 1)
  {
    hide RunAttempt; hide RunTurns; hide Initial; hide CompressResult;
    hide Wins; hide Escapes; hide GivesUp;
    StepRecord.AttemptUnfolds(job, c);
    var setup, begun := job.setups(c.attempts), c.(attempts := c.attempts + 1);
    var initial := Initial(setup.summary, job.action);
    TurnsGoOn(job, begun, job.model, initial, job.settings.Turns());
    TurnsGoOn(job, Compressed(job, begun), job.model, initial, job.settings.Turns());
    RepliesSort(job.replies(c.asked));
  }

  lemma {:induction false} AttemptsGoOn(job: Job, c: Core, left: nat)
    ensures NoneEnds(job, c.asked, RunAttempts(job, c, left).0.asked - 1)
    decreases left
  {
    hide RunAttempt; hide RunAttempts; hide Wins; hide Escapes; hide GivesUp; hide WonOutput; hide NeverCompresses;
    if left == 0 {
      StepRecord.AttemptsOut(job, c);
    } else {
      AttemptEnd(job, c);
      AttemptGoesOn(job, c);
      StepRecord.AttemptsUnfold(job, c, left);
      var (after, r) := RunAttempt(job, c);
      var (next, over) := Conclude(after, r);
      if over.None? {
        if after.asked > c.asked {
          LastGoesOn(job, c, after, r);
        }
        AttemptsGoOn(job, next, left - 1);
      }
    }
  }

  /** The last reply of an attempt that is followed by another one. */
  lemma LastGoesOn(job: Job, c: Core, after: Core, r: LoopResult)
    requires (after, r) == RunAttempt(job, c) && AttemptEnds(job, c, after, r) && after.asked > c.asked
    requires !r.Completed? && r != Crash && r != Reported(false)
    ensures NoneEnds(job, after.asked - 1, after.asked)
  {
    hide RunAttempt; hide RunTurns; hide Wins; hide Escapes; hide GivesUp; hide WonOutput; hide Initial;
    var last := job.replies(after.asked - 1);
    RepliesSort(last);
    if job.settings.Turns() == 0 && NeverCompresses(job) {
      StepRecord.AttemptUnfolds(job, c);
      var setup := job.setups(c.attempts);
      NoTurnsLeft(job, c.(attempts := c.attempts + 1), job.model, Initial(setup.summary, job.action));
    }
  }

  /** So the reply that ends a step is the first one that could. */
  lemma NothingEndsEarlier(job: Job, c: Core)
    ensures NoneEnds(job, c.asked, RunCourse(job, c).0.asked - 1)
  {
    hide NoneEnds; hide RunAttempts;
    AttemptsGoOn(job, c.(status := Running), job.settings.Retries());
  }

  lemma SameStart(job: Job, c: Core, d: Core, after: Core, outcome: StepOutcome, left: nat)
    requires EndsByLastReply(job, c, after, outcome, left)
    requires c.asked == d.asked && c.retries == d.retries && c.attempts == d.attempts
    ensures EndsByLastReply(job, d, after, outcome, left)
  {
    hide Wins; hide Escapes; hide GivesUp; hide WonOutput;
  }

  const TOOL_CALL: Reply := Said("", ToolCall(Some("")))

  /** These calls are answered with a tool call each, and memory always wants compressing. */
  ghost predicate CallsTools(job: Job, from: nat, to: nat) {
    && (forall k: nat :: from <= k < to ==> job.replies(k) == TOOL_CALL)
    && (forall k: nat :: job.setups(k).compress)
  }

  lemma {:induction false} EveryTurnCallsTool(
    job: Job, c: Core, model: string, messages: seq<Message>, left: nat)
    requires CallsTools(job, c.asked, c.asked + left) && messages != []
    ensures var (after, r) := RunTurns(job, c, model, messages, left);
            && r == NoResult && after.attempts == c.attempts
            && after.toolCallsMade == c.toolCallsMade + left && after.asked == c.asked + left
    decreases left
  {
    if left > 0 {
      TurnUnfolds(job, c, model, messages, left);
      hide RunTurns; hide Prune; hide Exchange;
      var pruned, reply := Prune(messages, job.settings.keep), job.replies(c.asked);
      EveryTurnCallsTool(job, Heard(c, Prompt(model, pruned), reply), model, pruned + Exchange(reply), left - 1);
    }
  }

  /** One attempt on such replies: it calls tools to the end, and another attempt follows. */
  lemma AttemptCallsTools(job: Job, c: Core)
    requires CallsTools(job, c.asked, c.asked + job.settings.Turns() + 1)
    ensures var (after, r) := RunAttempt(job, c);
            && r == NoResult && after.asked == c.asked + job.settings.Turns() + 1
            && after.toolCallsMade == c.toolCallsMade + job.settings.Turns()
  {
    var begun := c.(attempts := c.attempts + 1);
    var initial := Initial(job.setups(c.attempts).summary, job.action);
    EveryTurnCallsTool(job, Compressed(job, begun), job.model, initial, job.settings.Turns());
    hide RunTurns; hide Initial;
  }

  lemma FewerCallTools(job: Job, from: nat, left: nat, calls: nat)
    requires left > 0 && CallsTools(job, from, from + left * calls)
    ensures CallsTools(job, from, from + calls) && CallsTools(job, from + calls, from + calls + (left - 1) * calls)
  {
    assert left * calls == (left - 1) * calls + calls;
  }

  lemma {:induction false} EveryAttemptCallsTools(job: Job, c: Core, left: nat)
    requires CallsTools(job, c.asked, c.asked + left * (job.settings.Turns() + 1))
    ensures var (after, outcome) := RunAttempts(job, c, left);
            && outcome == FailedStep && after.toolCallsMade == c.toolCallsMade + left * job.settings.Turns()
            && after.asked == c.asked + left * (job.settings.Turns() + 1) && after.status == Failed
    decreases left
  {
    if left == 0 {
      StepRecord.AttemptsOut(job, c);
    } else {
      hide RunAttempt; hide RunAttempts; hide Settings.Turns;
      StepRecord.OneMore(left - 1, job.settings.Turns());
      FewerCallTools(job, c.asked, left, job.settings.Turns() + 1);
      AttemptCallsTools(job, c);
      StepRecord.AttemptsUnfold(job, c, left);
      hide CallsTools;
      var after := RunAttempt(job, c).0;
      EveryAttemptCallsTools(job, after.(retries := after.retries + 1), left - 1);
    }
  }

  /**
    The bounds on an execution are reached, for all settings: such a step makes M + 1 tool
    calls in each of its R attempts, more than the cap M, and R * (M + 2) chat calls.
  */
  lemma CapsAreReached(job: Job, c: Core)
    requires CallsTools(job, c.asked, c.asked + job.settings.StepBudget())
    ensures var after := RunCourse(job, c).0;
            && after.toolCallsMade == c.toolCallsMade + job.settings.Retries() * job.settings.Turns()
            && after.asked == c.asked + job.settings.StepBudget() && after.status == Failed
    ensures RunCourse(job, c).1 == FailedStep
    ensures var after, retries, cap := RunCourse(job, c).0, job.settings.maxRetries, job.settings.maxToolCalls;
            if retries >= 0 && cap >= 0
            then after.toolCallsMade == c.toolCallsMade + retries * (cap + 1)
                 && after.asked == c.asked + retries * (cap + 2)
            else after.toolCallsMade == c.toolCallsMade
  {
    hide RunAttempts;
    EveryAttemptCallsTools(job, c.(status := Running), job.settings.Retries());
  }

  lemma KindsOfReply()
    ensures !Ends(TOOL_CALL) && !HandsOver(TOOL_CALL)
    ensures Ends(Said("", Terminal)) && LoopResultOf(Said("", Terminal)) == Completed(FromReply(""))
  {
  }

  lemma {:induction false} LastTurnCompletes(
    job: Job, c: Core, model: string, messages: seq<Message>, left: nat)
    requires messages != [] && left > 0 && CallsTools(job, c.asked, c.asked + left - 1)
    requires job.replies(c.asked + left - 1) == Said("", Terminal)
    ensures var (after, r) := RunTurns(job, c, model, messages, left);
            r == Completed(FromReply("")) && after.asked == c.asked + left
    decreases left
  {
    hide RunTurns; hide Prune; hide Exchange; hide Ends; hide LoopResultOf; hide Heard; hide HandsOver;
    TurnUnfolds(job, c, model, messages, left);
    var pruned, reply := Prune(messages, job.settings.keep), job.replies(c.asked);
    StepRecord.HeardIs(c, Prompt(model, pruned), reply);
    KindsOfReply();
    if left > 1 {
      assert reply == TOOL_CALL;
      LastTurnCompletes(job, Heard(c, Prompt(model, pruned), reply), model, pruned + Exchange(reply), left - 1);
    }
  }

  lemma LastAttemptCompletes(job: Job, c: Core)
    requires job.settings.Turns() > 0 && CallsTools(job, c.asked, c.asked + job.settings.Turns())
    requires job.replies(c.asked + job.settings.Turns()) == Said("", Terminal)
    ensures var (after, r) := RunAttempt(job, c);
            r == Completed(FromReply("")) && after.asked == c.asked + job.settings.Turns() + 1
  {
    var begun := c.(attempts := c.attempts + 1);
    var initial := Initial(job.setups(c.attempts).summary, job.action);
    LastTurnCompletes(job, Compressed(job, begun), job.model, initial, job.settings.Turns());
    hide RunTurns; hide Initial;
  }

  lemma {:induction false} AttemptsCompleteLast(job: Job, c: Core, left: nat)
    requires left > 0 && job.settings.Turns() > 0
    requires CallsTools(job, c.asked, c.asked + left * (job.settings.Turns() + 1) - 1)
    requires job.replies(c.asked + left * (job.settings.Turns() + 1) - 1) == Said("", Terminal)
    ensures var (after, outcome) := RunAttempts(job, c, left);
            outcome == Succeeded && after.asked == c.asked + left * (job.settings.Turns() + 1)
    decreases left
  {
    hide RunAttempt; hide RunAttempts;
    StepRecord.OneMore(left - 1, job.settings.Turns());
    StepRecord.AttemptsUnfold(job, c, left);
    if left == 1 {
      LastAttemptCompletes(job, c);
    } else {
      StepRecord.OneMore(left - 2, job.settings.Turns());
      AttemptCallsTools(job, c);
      var after := RunAttempt(job, c).0;
      AttemptsCompleteLast(job, after.(retries := after.retries + 1), left - 1);
    }
  }

  /** A step can also spend its whole budget and succeed on its last call, if an attempt has turns. */
  lemma SucceedsOnLastCall(job: Job, c: Core)
    requires job.settings.Retries() > 0 && job.settings.Turns() > 0
    requires CallsTools(job, c.asked, c.asked + job.settings.StepBudget() - 1)
    requires job.replies(c.asked + job.settings.StepBudget() - 1) == Said("", Terminal)
    ensures RunCourse(job, c).1 == Succeeded && RunCourse(job, c).0.asked == c.asked + job.settings.StepBudget()
  {
    hide RunAttempts;
    AttemptsCompleteLast(job, c.(status := Running), job.settings.Retries());
  }

  /** Without a turn in any attempt no step succeeds. */
  lemma {:induction false} NoTurnsNoSuccess(job: Job, c: Core, left: nat)
    requires job.settings.Turns() == 0
    ensures RunAttempts(job, c, left).1 != Succeeded
    decreases left
  {
    if left == 0 {
      StepRecord.AttemptsOut(job, c);
    } else {
      hide RunAttempt; hide RunAttempts;
      StepRecord.AttemptUnfolds(job, c);
      StepRecord.AttemptsUnfold(job, c, left);
      var (after, r) := RunAttempt(job, c);
      NoTurnsNoSuccess(job, Conclude(after, r).0, left - 1);
    }
  }

  /** A model that gives this reply to every call, and memory that never wants compressing. */
  ghost predicate AlwaysSays(job: Job, reply: Reply) {
    && (forall k: nat :: job.replies(k) == reply)
    && (forall k: nat :: !job.setups(k).compress)
  }

  /** A reply that no turn of the loop turns into a result. */
  predicate NeverCompletes(reply: Reply) {
    !Ends(reply) || LoopResultOf(reply) == NoResult
  }

  /** What a pass of the loop leaves of such a reply: no result, and its envelope if there was a turn at all. */
  lemma {:induction false} NoTurnSucceeds(
    job: Job, c: Core, model: string, messages: seq<Message>, left: nat, reply: Reply)
    requires AlwaysSays(job, reply) && NeverCompletes(reply) && messages != []
    ensures var (after, r) := RunTurns(job, c, model, messages, left);
            && r == NoResult
            && forall e :: e in after.received <==> e in c.received || (left > 0 && EnvelopeIn(reply) == [e])
    decreases left
  {
    if left > 0 {
      TurnUnfolds(job, c, model, messages, left);
      hide RunTurns; hide Prune; hide Exchange; hide LoopResultOf;
      var pruned := Prune(messages, job.settings.keep);
      if !Ends(reply) {
        NoTurnSucceeds(job, Heard(c, Prompt(model, pruned), reply), if HandsOver(reply) then
                         job.settings.reasonerModel else model, pruned + Exchange(reply), left - 1, reply);
      }
    }
  }

  lemma {:induction false} NoAttemptSucceeds(job: Job, c: Core, left: nat, reply: Reply)
    requires AlwaysSays(job, reply) && NeverCompletes(reply)
    ensures var (after, outcome) := RunAttempts(job, c, left);
            && outcome == FailedStep && after.status == Failed
            && forall e :: e in after.received <==>
                 e in c.received || (left > 0 && job.settings.Turns() > 0 && EnvelopeIn(reply) == [e])
    decreases left
  {
    hide EnvelopeIn; hide NeverCompletes;
    if left == 0 {
      StepRecord.AttemptsOut(job, c);
    } else {
      hide RunAttempt; hide RunAttempts; hide RunTurns; hide Initial;
      var begun := c.(attempts := c.attempts + 1);
      NoTurnSucceeds(
        job, begun, job.model, Initial(job.setups(c.attempts).summary, job.action), job.settings.Turns(), reply);
      StepRecord.AttemptUnfolds(job, c);
      StepRecord.AttemptsUnfold(job, c, left);
      var after := RunAttempt(job, c).0;
      NoAttemptSucceeds(job, after.(retries := after.retries + 1), left - 1, reply);
    }
  }

  /** Such a step fails, for all settings, and has received the envelope exactly if it made a call. */
  lemma AlwaysFails(job: Job, c: Core, reply: Reply)
    requires AlwaysSays(job, reply) && NeverCompletes(reply)
    ensures var (after, outcome) := RunCourse(job, c);
            && outcome == FailedStep && after.status == Failed
            && forall e :: e in after.received <==>
                 e in c.received
                 || (job.settings.Retries() > 0 && job.settings.Turns() > 0 && EnvelopeIn(reply) == [e])
  {
    hide RunAttempts; hide EnvelopeIn;
    NoAttemptSucceeds(job, c.(status := Running), job.settings.Retries(), reply);
  }

  /** These replies all call a tool, and each call but perhaps the last gives a result to go on with. */
  ghost predicate AllToolCalls(replies: nat -> Reply, from: nat, n: nat) {
    forall i: nat :: from <= i < from + n ==>
      CallsTool(replies(i)) && (i < from + n - 1 ==> replies(i).parsed.toolResult.Some?)
  }

  // ----- a step suspended at its chat calls -----

  /** Where the execution of a step stands between two of its chat calls. */
  datatype Course =
    | Waiting
    | Compressing(summary: Option<string>, left: nat)
    | Turning(model: string, messages: seq<Message>, turns: nat, left: nat)
    | Over(outcome: StepOutcome)
  {
    ghost predicate Valid() {
      Turning? ==> messages != [] && turns > 0
    }
  }

  /** How it will end from there. */
  ghost function Rest(job: Job, at: Course, c: Core): (Core, StepOutcome)
    requires at.Valid()
  {
    match at
    case Waiting => RunCourse(job, c)
    case Compressing(summary, left) => var (after, r) := RunCompression(job, c, summary); RunOn(job, after, r, left)
    case Turning(model, messages, turns, left) =>
      var (after, r) := RunTurns(job, c, model, messages, turns); RunOn(job, after, r, left)
    case Over(outcome) => (c, outcome)
  }

  /** An upper bound for the slices that are left. */
  function SlicesLeft(settings: Settings, at: Course): nat {
    match at
    case Waiting => settings.Retries() * (settings.Turns() + 1) + 1
    case Compressing(_, left) => (left + 1) * (settings.Turns() + 1)
    case Turning(_, _, turns, left) => left * (settings.Turns() + 1) + turns
    case Over(_) => 0
  }

  class Trace {
    var escalations: seq<Envelope>

    constructor ()
      ensures escalations == []
    {
      escalations := [];
    }
  }

  class StepRecord {
    const stepId: int
    const action: string
    const replies: nat -> Reply
    const setups: nat -> Setup

    var agent: string
    var status: StepStatus
    var input: Input
    var output: Option<Output>
    var retries: nat
    var toolCallsMade: nat

    // What the environment sees of the step: calls made, attempts begun, prompts sent, envelopes received.
    var asked: nat
    var attempts: nat
    var prompts: seq<Prompt>
    var received: seq<Envelope>

    constructor (stepId: int, action: string, agent: string, replies: nat -> Reply, setups: nat -> Setup)
      ensures this.stepId == stepId && this.action == action && this.agent == agent
      ensures this.replies == replies && this.setups == setups
      ensures status == Pending && input == NoInput && output == None
      ensures retries == 0 && toolCallsMade == 0 && asked == 0 && attempts == 0 && prompts == [] && received == []
    {
      this.stepId, this.action, this.agent, this.replies, this.setups := stepId, action, agent, replies, setups;
      status, input, output, retries, toolCallsMade := Pending, NoInput, None, 0, 0;
      asked, attempts, prompts, received := 0, 0, [], [];
    }

    ghost function Snapshot(): Core
      reads this
    {
      Core(status, output, retries, toolCallsMade, asked, attempts, prompts, received)
    }

    function JobWith(settings: Settings, model: string): Job {
      Job(settings, model, action, replies, setups)
    }

    lemma SnapshotIs()
      ensures Snapshot() == Core(status, output, retries, toolCallsMade, asked, attempts, prompts, received)
    {
    }

    static lemma HeardIs(c: Core, prompt: Prompt, reply: Reply)
      ensures Heard(c, prompt, reply) ==
              Core(if Halts(reply) then Failed else c.status, c.output, c.retries,
                   c.toolCallsMade + (if CallsTool(reply) then 1 else 0), c.asked + 1, c.attempts, c.prompts + [prompt],
                   c.received + EnvelopeIn(reply))
    {
      hide Halts; hide CallsTool; hide EnvelopeIn;
    }

    method Chat(model: string, messages: seq<Message>) returns (r: Reply)
      modifies this`asked, this`prompts
      ensures r == replies(old(asked)) && asked == old(asked) + 1
      ensures prompts == old(prompts) + [Prompt(model, messages)]
    {
      r := replies(asked);
      asked, prompts := asked + 1, prompts + [Prompt(model, messages)];
    }

    /** The outcome of n turns that began at `from`. */
    ghost predicate LoopOutcome(settings: Settings, from: nat, n: nat, r: LoopResult) {
      && n <= settings.Turns()
      && (n > 0 ==> GoesOn(replies, from, n - 1))
      && (if n > 0 && Ends(replies(from + n - 1))
          then r == LoopResultOf(replies(from + n - 1))
          else n == settings.Turns() && GoesOn(replies, from, n) && r == NoResult)
    }

    /**
      The tool-call loop: at most one turn more than the tool-call cap, every prompt the pruned
      conversation so far, and a result decided by the first reply that ends the loop.
    */
    method ExecuteToolCallLoop(trace: Trace, settings: Settings, model: string, initial: seq<Message>)
      returns (r: LoopResult)
      requires initial != []
      modifies trace, this`asked, this`prompts, this`status, this`toolCallsMade, this`received
      ensures old(asked) <= asked && LoopOutcome(settings, old(asked), asked - old(asked), r)
      ensures old(prompts) <= prompts
      ensures settings.keep >= 1 ==>
                prompts == old(prompts) + Prompts(model, settings, initial, replies, old(asked), asked - old(asked))
      ensures toolCallsMade == old(toolCallsMade) + ToolCalls(replies, old(asked), asked - old(asked))
      ensures trace.escalations == old(trace.escalations) + Envelopes(replies, old(asked), asked - old(asked))
      ensures received == old(received) + Envelopes(replies, old(asked), asked - old(asked))
      ensures status == if asked > old(asked) && Halts(replies(asked - 1)) then Failed else old(status)
      ensures (Snapshot(), r) ==
              RunTurns(JobWith(settings, model), old(Snapshot()), model, initial, settings.Turns())
    {
      hide *;
      var messages := initial;
      var currentModel := model;
      ghost var from, job, start := asked, JobWith(settings, model), Snapshot();
      JobIs(settings, model);
      FirstTurn(model, settings, initial, replies, from);
      ToldNothing(trace.escalations, received);
      for n := 0 to settings.Turns()
        invariant asked == from + n && GoesOn(replies, from, n) && (n > 0 ==> GoesOn(replies, from, n - 1))
        invariant messages != [] && currentModel == ModelAt(model, settings.reasonerModel, replies, from, n)
        invariant settings.keep >= 1 ==>
                    Prune(messages, settings.keep) == Prune(Full(initial, replies, from, n), settings.keep)
                    && prompts == old(prompts) + Prompts(model, settings, initial, replies, from, n)
        invariant old(prompts) <= prompts
        invariant toolCallsMade == old(toolCallsMade) + ToolCalls(replies, from, n)
        invariant Told(old(trace.escalations), old(received), trace.escalations, received, Envelopes(replies, from, n))
        invariant status == old(status)
        invariant n > 0 ==> !Halts(replies(asked - 1)) && !Ends(replies(asked - 1))
        invariant RunTurns(job, Snapshot(), currentModel, messages, settings.Turns() - n) ==
                  RunTurns(job, start, model, initial, settings.Turns())
      {
        SnapshotIs();
        TurnUnfolds(job, Snapshot(), currentModel, messages, settings.Turns() - n);
        NextPrompt(model, settings, initial, replies, from, n);
        ghost var before, heard := messages, replies(asked);
        ToldStep(old(trace.escalations), old(received), trace.escalations, received,
                 Envelopes(replies, from, n), EnvelopeIn(heard));
        var ended, result;
        ended, result, currentModel, messages := TakeTurn(trace, settings, currentModel, messages);
        if ended {
          ToldIs(old(trace.escalations), old(received), trace.escalations, received, Envelopes(replies, from, n + 1));
          Returns(settings, from, n + 1, result);
          return result;
        }
        NextTurn(settings.keep, initial, replies, from, n, before);
      }
      ToldIs(old(trace.escalations), old(received), trace.escalations, received,
             Envelopes(replies, from, settings.Turns()));
      RunsOut(settings, from);
      NoTurnsLeft(job, Snapshot(), currentModel, messages);
      return NoResult;
    }

    /** Both lists have grown by these envelopes. */
    static ghost predicate Told(
      trace: seq<Envelope>, own: seq<Envelope>, laterTrace: seq<Envelope>, laterOwn: seq<Envelope>,
      envelopes: seq<Envelope>)
    {
      laterTrace == trace + envelopes && laterOwn == own + envelopes
    }

    static lemma ToldNothing(trace: seq<Envelope>, own: seq<Envelope>)
      ensures Told(trace, own, trace, own, [])
    {
    }

    static lemma ToldStep(
      trace: seq<Envelope>, own: seq<Envelope>, laterTrace: seq<Envelope>, laterOwn: seq<Envelope>,
      envelopes: seq<Envelope>, more: seq<Envelope>)
      requires Told(trace, own, laterTrace, laterOwn, envelopes)
      ensures Told(trace, own, laterTrace + more, laterOwn + more, envelopes + more)
    {
      assert (trace + envelopes) + more == trace + (envelopes + more);
      assert (own + envelopes) + more == own + (envelopes + more);
    }

    static lemma ToldIs(
      trace: seq<Envelope>, own: seq<Envelope>, laterTrace: seq<Envelope>, laterOwn: seq<Envelope>,
      envelopes: seq<Envelope>)
      requires Told(trace, own, laterTrace, laterOwn, envelopes)
      ensures laterTrace == trace + envelopes && laterOwn == own + envelopes
    {
    }

    /** One turn of the loop: prune, ask, react; and the conversation for the next turn. */
    method TakeTurn(trace: Trace, settings: Settings, model: string, messages: seq<Message>)
      returns (ended: bool, result: LoopResult, nextModel: string, nextMessages: seq<Message>)
      requires messages != []
      modifies trace, this`asked, this`prompts, this`status, this`toolCallsMade, this`received
      ensures asked == old(asked) + 1 && prompts == old(prompts) + [Prompt(model, Prune(messages, settings.keep))]
      ensures var reply := replies(old(asked));
              && (ended <==> Ends(reply)) && (ended ==> result == LoopResultOf(reply))
              && (!ended ==> reply.Said? && nextMessages == Prune(messages, settings.keep) + Exchange(reply))
              && nextModel == (if HandsOver(reply) then settings.reasonerModel else model)
              && toolCallsMade == old(toolCallsMade) + (if CallsTool(reply) then 1 else 0)
              && trace.escalations == old(trace.escalations) + EnvelopeIn(reply)
              && received == old(received) + EnvelopeIn(reply)
              && status == (if Halts(reply) then Failed else old(status))
              && Snapshot() == Heard(old(Snapshot()), Prompt(model, Prune(messages, settings.keep)), reply)
      ensures nextMessages != []
    {
      hide *;
      ghost var core := Snapshot();
      SnapshotIs();
      PruneNonEmpty(messages, settings.keep);
      var pruned := Prune(messages, settings.keep);
      var reply := Chat(model, pruned);
      ended, result, nextModel := React(trace, settings, reply, model);
      SnapshotIs();
      HeardIs(core, Prompt(model, pruned), reply);
      EndsUnlessSaid(reply);
      nextMessages := if ended then pruned else pruned + Exchange(reply);
    }

    static lemma EndsUnlessSaid(reply: Reply)
      ensures Ends(reply) || reply.Said?
    {
    }

    lemma JobIs(settings: Settings, model: string)
      ensures var job := JobWith(settings, model);
              && job.settings == settings && job.model == model && job.action == action
              && job.replies == replies && job.setups == setups
    {
    }

    /** A pass of the loop exceeds the cap M exactly if its first M + 1 replies all call tools. */
    lemma ExceedsCapIff(settings: Settings, from: nat, n: nat, r: LoopResult)
      requires settings.maxToolCalls >= 0 && LoopOutcome(settings, from, n, r)
      ensures ToolCalls(replies, from, n) > settings.maxToolCalls <==>
              AllToolCalls(replies, from, settings.maxToolCalls + 1)
    {
      ToolCallsFull(replies, from, n);
    }

    static lemma {:induction false} ToolCallsFull(replies: nat -> Reply, from: nat, n: nat)
      ensures ToolCalls(replies, from, n) == n <==> forall i: nat :: from <= i < from + n ==> CallsTool(replies(i))
    {
      if n > 0 {
        ToolCallsFull(replies, from, n - 1);
        if ToolCalls(replies, from, n) == n {
          forall i: nat | from <= i < from + n ensures CallsTool(replies(i)) {
            assert i < from + n - 1 || i == from + n - 1;
          }
        }
      }
    }

    lemma Returns(settings: Settings, from: nat, n: nat, r: LoopResult)
      requires 0 < n <= settings.Turns() && GoesOn(replies, from, n - 1)
      requires Ends(replies(from + n - 1)) && r == LoopResultOf(replies(from + n - 1))
      ensures LoopOutcome(settings, from, n, r)
    {
    }

    lemma RunsOut(settings: Settings, from: nat)
      requires GoesOn(replies, from, settings.Turns())
      ensures LoopOutcome(settings, from, settings.Turns(), NoResult)
    {
      var n := settings.Turns();
      if n > 0 {
        assert !Ends(replies(from + n - 1));
      }
    }

    /** The branches of the loop body on one reply: return, raise, or go on. */
    method React(trace: Trace, settings: Settings, reply: Reply, currentModel: string)
      returns (ended: bool, result: LoopResult, nextModel: string)
      modifies trace, this`status, this`toolCallsMade, this`received
      ensures ended <==> Ends(reply)
      ensures ended ==> result == LoopResultOf(reply)
      ensures reply.Said? && reply.parsed == Terminal ==> ended && result == Completed(FromReply(reply.text))
      ensures reply.Said? && reply.parsed == Enveloped(Done) ==> ended && result == Completed(FromDone(reply.text))
      ensures reply.Said? && reply.parsed.StepError? ==> ended && result == Reported(reply.parsed.recoverable)
      ensures reply == HttpError ==> ended && result == Transport
      ensures Escapes(reply, true) ==> ended && result == Crash
      ensures reply.Said? && (reply.parsed == Enveloped(Block) || reply.parsed == Enveloped(ApprovalRequired)) ==>
                ended && result == NoResult && status == Failed
      ensures nextModel == if HandsOver(reply) then settings.reasonerModel else currentModel
      ensures toolCallsMade == old(toolCallsMade) + if CallsTool(reply) then 1 else 0
      ensures trace.escalations == old(trace.escalations) + EnvelopeIn(reply)
      ensures received == old(received) + EnvelopeIn(reply)
      ensures status == if Halts(reply) then Failed else old(status)
    {
      nextModel := currentModel;
      if !reply.Said? {
        return true, if reply.HttpError? then Transport else Crash, nextModel;
      }
      match reply.parsed {
        case NotJson =>
        case NotAnObject(_) =>
          return true, Crash, nextModel;
        case Enveloped(envelope) =>
          trace.escalations, received := trace.escalations + [envelope], received + [envelope];
          match envelope {
            case Block =>
              status := Failed;
              return true, NoResult, nextModel;
            case ApprovalRequired =>
              status := Failed;
              return true, NoResult, nextModel;
            case Done =>
              return true, Completed(FromDone(reply.text)), nextModel;
            case Clarify =>
            case Escalate =>
              nextModel := settings.reasonerModel;
            case ScopeCreep =>
              nextModel := settings.reasonerModel;
          }
        case ToolCall(toolResult) =>
          toolCallsMade := toolCallsMade + 1;
          if toolResult.None? {
            return true, Crash, nextModel;
          }
        case Terminal =>
          return true, Completed(FromReply(reply.text)), nextModel;
        case StepError(recoverable) =>
          return true, Reported(recoverable), nextModel;
        case Unknown =>
      }
      return false, NoResult, nextModel;
    }

    static lemma PruneNonEmpty(msgs: seq<Message>, keep: int)
      requires msgs != []
      ensures Prune(msgs, keep) != []
    {
    }

    static lemma FirstTurn(
      model: string, settings: Settings, initial: seq<Message>, replies: nat -> Reply, from: nat)
      requires initial != []
      ensures GoesOn(replies, from, 0) && Full(initial, replies, from, 0) == initial
      ensures Prompts(model, settings, initial, replies, from, 0) == []
      ensures ModelAt(model, settings.reasonerModel, replies, from, 0) == model
      ensures ToolCalls(replies, from, 0) == 0 && Envelopes(replies, from, 0) == []
    {
    }

    static lemma NextPrompt(
      model: string, settings: Settings, initial: seq<Message>, replies: nat -> Reply, from: nat, n: nat)
      requires initial != [] && GoesOn(replies, from, n)
      ensures n > 0 ==> GoesOn(replies, from, n - 1)
      ensures Prompts(model, settings, initial, replies, from, n + 1) ==
              Prompts(model, settings, initial, replies, from, n)
              + [Prompt(ModelAt(model, settings.reasonerModel, replies, from, n),
                        Prune(Full(initial, replies, from, n), settings.keep))]
      ensures ModelAt(model, settings.reasonerModel, replies, from, n + 1) ==
              if HandsOver(replies(from + n)) then settings.reasonerModel
              else ModelAt(model, settings.reasonerModel, replies, from, n)
      ensures ToolCalls(replies, from, n + 1) ==
              ToolCalls(replies, from, n) + if CallsTool(replies(from + n)) then 1 else 0
      ensures Envelopes(replies, from, n + 1) == Envelopes(replies, from, n) + EnvelopeIn(replies(from + n))
    {
      hide Prune; hide Full;
    }

    static lemma NextTurn(
      keep: int, initial: seq<Message>, replies: nat -> Reply, from: nat, n: nat, msgs: seq<Message>)
      requires initial != [] && msgs != [] && GoesOn(replies, from, n) && !Ends(replies(from + n))
      requires keep >= 1 ==> Prune(msgs, keep) == Prune(Full(initial, replies, from, n), keep)
      ensures replies(from + n).Said? && !Halts(replies(from + n))
      ensures GoesOn(replies, from, n + 1)
      ensures keep >= 1 ==>
                Prune(Prune(msgs, keep) + Exchange(replies(from + n)), keep) ==
                Prune(Full(initial, replies, from, n + 1), keep)
    {
      hide Prune;
      if keep >= 1 {
        PruneThenAppend(Full(initial, replies, from, n), Exchange(replies(from + n)), keep);
      }
    }

    /** One chat call that may refresh the stored summary; its reply can also raise. */
    method CompressMemory(settings: Settings) returns (r: LoopResult)
      modifies this`asked, this`prompts
      ensures asked == old(asked) + 1 && r == CompressResult(replies(old(asked)))
      ensures prompts == old(prompts) + [CompressionPrompt(settings)]
      ensures Snapshot() == Sent(old(Snapshot()), CompressionPrompt(settings))
    {
      var reply := Chat(settings.reasonerModel, [Message(User, "memory_compression")]);
      match reply {
        case HttpError => r := Transport;
        case Exception => r := Crash;
        case Said(_, parsed) => r := if parsed == NotAnObject(true) then Crash else NoResult;
      }
    }

    /** The last reply received ended the loop with r. */
    ghost predicate EndedBy(before: nat, r: LoopResult)
      reads this`asked
    {
      before < asked && Ends(replies(asked - 1)) && LoopResultOf(replies(asked - 1)) == r
    }

    /** What one attempt does with its setup: the calls it makes, in order, what it is told, and its result. */
    ghost predicate AttemptOutcome(
      settings: Settings, model: string, setup: Setup, from: nat, to: nat, sent: seq<Prompt>,
      envelopes: seq<Envelope>, r: LoopResult)
    {
      var lead := if setup.compress then 1 else 0;
      if setup.compress && CompressResult(replies(from)) != NoResult
      then to == from + 1 && sent == [CompressionPrompt(settings)] && r == CompressResult(replies(from))
           && envelopes == []
      else
        && from + lead <= to && LoopOutcome(settings, from + lead, to - from - lead, r)
        && envelopes == Envelopes(replies, from + lead, to - from - lead)
        && (settings.keep >= 1 ==>
              sent ==
              (if setup.compress then [CompressionPrompt(settings)] else [])
              + Prompts(model, settings, Initial(setup.summary, action), replies, from + lead, to - from - lead))
    }

    /** One attempt: compress if asked to, then the tool-call loop on a fresh conversation. */
    method Attempt(trace: Trace, settings: Settings, model: string) returns (r: LoopResult)
      modifies trace, this`asked, this`prompts, this`status, this`toolCallsMade, this`received, this`attempts
      ensures attempts == old(attempts) + 1 && old(prompts) <= prompts && old(received) <= received
      ensures AttemptOutcome(settings, model, setups(old(attempts)), old(asked), asked, prompts[|old(prompts)|..],
                             received[|old(received)|..], r)
      ensures old(asked) <= asked <= old(asked) + settings.Turns() + 1
      ensures old(toolCallsMade) <= toolCallsMade <= old(toolCallsMade) + settings.Turns()
      ensures r.Completed? || r.Reported? ==> EndedBy(old(asked), r)
      ensures status == old(status) || status == Failed
      ensures Logged(old(trace.escalations), old(received), trace.escalations, received)
      ensures (Snapshot(), r) == RunAttempt(JobWith(settings, model), old(Snapshot()))
    {
      hide *;
      var setup := setups(attempts);
      ghost var job, core := JobWith(settings, model), Snapshot();
      SnapshotIs();
      JobIs(settings, model);
      AttemptUnfolds(job, core);
      attempts := attempts + 1;
      SnapshotIs();
      ghost var first, sent := asked, prompts;
      AttemptStarts(settings, model, setup, first);
      CompressedIs(job, Snapshot());
      LoggedOnce(trace.escalations, received, []);
      if setup.compress {
        r := CompressMemory(settings);
        if r != NoResult {
          SnapshotIs();
          assert prompts[|sent|..] == [CompressionPrompt(settings)];
          assert received[|received|..] == [];
          return r;
        }
      }
      ghost var from, before, own := asked, prompts, received;
      r := ExecuteToolCallLoop(trace, settings, model, Initial(setup.summary, action));
      LoggedOnce(old(trace.escalations), own, Envelopes(replies, from, asked - from));
      assert received[|own|..] == Envelopes(replies, from, asked - from);
      assert prompts[|sent|..] == before[|sent|..] + prompts[|before|..];
      AttemptRan(settings, model, setup, first, from, asked, before[|sent|..], prompts[|before|..], r);
      EndedByIs(r);
    }

    lemma EndedByIs(r: LoopResult)
      ensures forall before: nat :: EndedBy(before, r) <==>
                before < asked && Ends(replies(asked - 1)) && LoopResultOf(replies(asked - 1)) == r
    {
      hide Ends; hide LoopResultOf;
    }

    static lemma CompressedIs(job: Job, c: Core)
      ensures Compressed(job, c) == Sent(c, CompressionPrompt(job.settings))
    {
    }

    static lemma AttemptUnfolds(job: Job, c: Core)
      ensures var setup := job.setups(c.attempts);
              var begun := c.(attempts := c.attempts + 1);
              var asked, initial := Compressed(job, begun), Initial(setup.summary, job.action);
              RunAttempt(job, c) ==
              if !setup.compress then RunTurns(job, begun, job.model, initial, job.settings.Turns())
              else if CompressResult(job.replies(c.asked)) != NoResult
              then (asked, CompressResult(job.replies(c.asked)))
              else RunTurns(job, asked, job.model, initial, job.settings.Turns())
    {
      hide RunTurns; hide Initial; hide CompressResult;
    }

    lemma AttemptStarts(settings: Settings, model: string, setup: Setup, first: nat)
      ensures setup.compress && CompressResult(replies(first)) != NoResult ==>
                AttemptOutcome(settings, model, setup, first, first + 1, [CompressionPrompt(settings)], [],
                               CompressResult(replies(first)))
      ensures CompressResult(replies(first)).Completed? == false && CompressResult(replies(first)).Reported? == false
    {
      hide Prompts;
    }

    lemma AttemptRan(
      settings: Settings, model: string, setup: Setup, first: nat, from: nat, to: nat,
      lead: seq<Prompt>, turns: seq<Prompt>, r: LoopResult)
      requires setup.compress ==> CompressResult(replies(first)) == NoResult
      requires from == first + if setup.compress then 1 else 0
      requires lead == if setup.compress then [CompressionPrompt(settings)] else []
      requires from <= to && LoopOutcome(settings, from, to - from, r)
      requires settings.keep >= 1 ==>
                 turns == Prompts(model, settings, Initial(setup.summary, action), replies, from, to - from)
      ensures AttemptOutcome(settings, model, setup, first, to, lead + turns, Envelopes(replies, from, to - from), r)
      ensures to - from <= settings.Turns()
      ensures r.Completed? || r.Reported? ==> from < to && Ends(replies(to - 1)) && LoopResultOf(replies(to - 1)) == r
    {
      hide Prompts;
    }

    /** What the retry loop makes of an attempt's result: the step is over, or (None) it goes on. */
    method Settle(r: LoopResult) returns (over: Option<StepOutcome>)
      modifies this`status, this`retries, this`output
      ensures (Snapshot(), over) == Conclude(old(Snapshot()), r)
      ensures over == match r
                      case Completed(_) => Some(Succeeded)
                      case Reported(false) => Some(FailedStep)
                      case Crash => Some(Crashed)
                      case _ => None
      ensures retries == old(retries) + if r.Completed? || r == Crash then 0 else 1
      ensures output == if r.Completed? then Some(r.output) else old(output)
      ensures status == if r.Completed? then Complete else if r == Reported(false) then Failed else old(status)
    {
      match r {
        case NoResult =>
          retries := retries + 1;
        case Transport =>
          retries := retries + 1;
        case Reported(recoverable) =>
          retries := retries + 1;
          if !recoverable {
            status := Failed;
            return Some(FailedStep);
          }
        case Completed(parsed) =>
          output := Some(parsed);
          status := Complete;
          return Some(Succeeded);
        case Crash =>
          return Some(Crashed);
      }
      return None;
    }

    static lemma AttemptsUnfold(job: Job, c: Core, left: nat)
      requires left > 0
      ensures var (next, over) := TriedOnce(job, c);
              RunAttempts(job, c, left) ==
              if over.Some? then (next, over.value) else RunAttempts(job, next, left - 1)
    {
      hide RunAttempt; hide Conclude;
    }

    static lemma CourseUnfolds(job: Job, c: Core)
      ensures RunCourse(job, c) == RunAttempts(job, c.(status := Running), job.settings.Retries())
    {
    }

    static lemma AttemptsOut(job: Job, c: Core)
      ensures RunAttempts(job, c, 0) == (c.(status := Failed), FailedStep)
    {
    }

    /** One pass of the retry loop: an attempt, and what is made of it. */
    method TryOnce(trace: Trace, settings: Settings, model: string) returns (over: Option<StepOutcome>)
      modifies trace, this`asked, this`prompts, this`status, this`toolCallsMade
      modifies this`received, this`attempts, this`retries, this`output
      ensures attempts == old(attempts) + 1
      ensures retries == old(retries) + if over == Some(Succeeded) || over == Some(Crashed) then 0 else 1
      ensures old(asked) <= asked <= old(asked) + settings.Turns() + 1
      ensures old(toolCallsMade) <= toolCallsMade <= old(toolCallsMade) + settings.Turns()
      ensures over == Some(Succeeded) ==>
                status == Complete && output.Some? && EndedBy(old(asked), Completed(output.value))
      ensures over != Some(Succeeded) ==> output == old(output) && (status == old(status) || status == Failed)
      ensures over == Some(FailedStep) ==> status == Failed && EndedBy(old(asked), Reported(false))
      ensures Logged(old(trace.escalations), old(received), trace.escalations, received)
      ensures (Snapshot(), over) == TriedOnce(JobWith(settings, model), old(Snapshot()))
    {
      hide *;
      ghost var job, core := JobWith(settings, model), Snapshot();
      TriedIs(job, core);
      ghost var from := asked;
      var result := Attempt(trace, settings, model);
      EndedByIs(result);
      over := Settle(result);
      EndedByIs(result);
    }

    static lemma TriedIs(job: Job, c: Core)
      ensures var (after, r) := RunAttempt(job, c); TriedOnce(job, c) == Conclude(after, r)
    {
      hide RunAttempt; hide Conclude;
    }

    /**
      The retry loop.  Every attempt but a successful last one costs a retry; the step succeeds
      exactly when it ends complete, with the output of the reply that ended the loop.
    */
    method ExecuteStep(trace: Trace, settings: Settings) returns (r: StepOutcome)
      modifies trace, this`asked, this`prompts, this`status, this`toolCallsMade
      modifies this`received, this`attempts, this`retries, this`output
      ensures 0 <= attempts - old(attempts) <= settings.Retries()
      ensures r != Crashed ==>
                attempts - old(attempts) == retries - old(retries) + if r == Succeeded then 1 else 0
      ensures 0 <= toolCallsMade - old(toolCallsMade) <= (attempts - old(attempts)) * settings.Turns()
      ensures 0 <= asked - old(asked) <= (attempts - old(attempts)) * (settings.Turns() + 1)
      ensures r == Succeeded <==> status == Complete
      ensures r == Succeeded ==> output.Some? && EndedBy(old(asked), Completed(output.value))
      ensures r != Succeeded ==> output == old(output)
      ensures r == FailedStep ==> status == Failed
      ensures status != Pending
      ensures r == FailedStep ==>
                attempts - old(attempts) == settings.Retries() || EndedBy(old(asked), Reported(false))
      ensures Logged(old(trace.escalations), old(received), trace.escalations, received)
      ensures (Snapshot(), r) == RunCourse(JobWith(settings, settings.ModelFor(agent)), old(Snapshot()))
      ensures EndsByLastReply(
                JobWith(settings, settings.ModelFor(agent)), old(Snapshot()), Snapshot(), r, settings.Retries())
    {
      hide *;
      StepEndsByLastReply(JobWith(settings, settings.ModelFor(agent)), Snapshot());
      CourseUnfolds(JobWith(settings, settings.ModelFor(agent)), Snapshot());
      SnapshotIs();
      status := Running;
      SnapshotIs();
      var model := settings.ModelFor(agent);
      ghost var job, start, first := JobWith(settings, model), Snapshot(), asked;
      JobIs(settings, model);
      NothingSpent(settings.Turns());
      LoggedOnce(trace.escalations, received, []);
      for attempt := 0 to settings.Retries()
        invariant attempts == old(attempts) + attempt && retries == old(retries) + attempt
        invariant first <= asked && Spent(attempt, settings.Turns(), toolCallsMade - old(toolCallsMade), asked - first)
        invariant status != Complete && status != Pending && output == old(output)
        invariant Logged(old(trace.escalations), old(received), trace.escalations, received)
        invariant RunAttempts(job, Snapshot(), settings.Retries() - attempt) ==
                  RunAttempts(job, start, settings.Retries())
      {
        AttemptsUnfold(job, Snapshot(), settings.Retries() - attempt);
        ghost var from, before, own, tools := asked, trace.escalations, received, toolCallsMade;
        var over := TryOnce(trace, settings, model);
        LoggedBoth(old(trace.escalations), old(received), before, own, trace.escalations, received);
        EndedEarlier(first, from);
        SpentMore(attempt, settings.Turns(), tools - old(toolCallsMade), from - first,
                  toolCallsMade - old(toolCallsMade), asked - first);
        if over.Some? {
          return over.value;
        }
      }
      SpentIs(settings.Retries(), settings.Turns(), toolCallsMade - old(toolCallsMade), asked - first);
      SnapshotIs();
      AttemptsOut(job, Snapshot());
      status := Failed;
      SnapshotIs();
      return FailedStep;
    }

    /** k attempts stay within k times the caps of one. */
    static ghost predicate Spent(k: nat, turns: nat, tools: int, calls: int) {
      0 <= tools <= k * turns && 0 <= calls <= k * (turns + 1)
    }

    static lemma NothingSpent(turns: nat)
      ensures Spent(0, turns, 0, 0)
    {
    }

    static lemma SpentMore(k: nat, turns: nat, tools: int, calls: int, moreTools: int, moreCalls: int)
      requires Spent(k, turns, tools, calls)
      requires tools <= moreTools <= tools + turns && calls <= moreCalls <= calls + turns + 1
      ensures Spent(k + 1, turns, moreTools, moreCalls)
      ensures 0 <= moreTools <= (k + 1) * turns && 0 <= moreCalls <= (k + 1) * (turns + 1)
    {
      OneMore(k, turns);
    }

    static lemma SpentIs(k: nat, turns: nat, tools: int, calls: int)
      requires Spent(k, turns, tools, calls)
      ensures 0 <= tools <= k * turns && 0 <= calls <= k * (turns + 1)
    {
    }

    lemma EndedEarlier(first: nat, from: nat)
      requires first <= from
      ensures forall r :: EndedBy(from, r) ==> EndedBy(first, r)
    {
      hide Ends; hide LoopResultOf;
    }

    // ----- the same execution, a slice at a time -----

    /** From the top of the retry loop to the next chat call, or to the end. */
    method BeginAttempts(settings: Settings, model: string, left: nat) returns (at: Course)
      modifies this`status, this`attempts, this`retries, this`output
      ensures at.Valid() && SlicesLeft(settings, at) <= left * (settings.Turns() + 1)
      ensures Rest(JobWith(settings, model), at, Snapshot()) ==
              RunAttempts(JobWith(settings, model), old(Snapshot()), left)
    {
      hide RunTurns; hide Initial; hide RunAttempts;
      ghost var job, start := JobWith(settings, model), Snapshot();
      var more: nat := left;
      while more > 0
        invariant more <= left && RunAttempts(job, Snapshot(), more) == RunAttempts(job, start, left)
      {
        ghost var core := Snapshot();
        BeginUnfolds(job, core, more);
        MoreSlices(more - 1, left, settings.Turns());
        var setup := setups(attempts);
        attempts, more := attempts + 1, more - 1;
        if setup.compress {
          return Compressing(setup.summary, more);
        }
        if settings.Turns() > 0 {
          return Turning(model, Initial(setup.summary, action), settings.Turns(), more);
        }
        NoTurnsLeft(job, Snapshot(), model, Initial(setup.summary, action));
        var over := Settle(NoResult);
      }
      AttemptsOut(job, Snapshot());
      status := Failed;
      return Over(FailedStep);
    }

    static lemma BeginUnfolds(job: Job, c: Core, left: nat)
      requires left > 0
      ensures var setup := job.setups(c.attempts);
              var begun := c.(attempts := c.attempts + 1);
              var (after, r) := if setup.compress then RunCompression(job, begun, setup.summary)
                                else RunTurns(job, begun, job.model, Initial(setup.summary, job.action),
                                              job.settings.Turns());
              RunAttempts(job, c, left) == RunOn(job, after, r, left - 1)
    {
      hide RunTurns; hide RunOn; hide RunCompression; hide Initial;
    }

    static lemma MoreSlices(more: nat, left: nat, turns: nat)
      requires more < left
      ensures (more + 1) * (turns + 1) <= left * (turns + 1)
      ensures more * (turns + 1) + turns < (more + 1) * (turns + 1)
    {
    }

    /** From the end of an attempt to the next chat call, or to the end. */
    method EndAttempt(settings: Settings, model: string, r: LoopResult, left: nat) returns (at: Course)
      modifies this`status, this`attempts, this`retries, this`output
      ensures at.Valid() && SlicesLeft(settings, at) <= left * (settings.Turns() + 1)
      ensures Rest(JobWith(settings, model), at, Snapshot()) ==
              RunOn(JobWith(settings, model), old(Snapshot()), r, left)
    {
      hide RunAttempts; hide Conclude;
      var over := Settle(r);
      if over.Some? {
        return Over(over.value);
      }
      at := BeginAttempts(settings, model, left);
    }

    static lemma CompressionUnfolds(job: Job, c: Core, summary: Option<string>)
      ensures Compressed(job, c) == Sent(c, CompressionPrompt(job.settings))
      ensures var r := CompressResult(job.replies(c.asked));
              RunCompression(job, c, summary) ==
              if r != NoResult then (Compressed(job, c), r)
              else RunTurns(job, Compressed(job, c), job.model, Initial(summary, job.action), job.settings.Turns())
    {
      hide RunTurns; hide Initial; hide CompressResult;
    }

    /**
      One slice: the reply to the pending chat call arrives, and the step runs on to its next
      chat call.  How the step will end is never changed by taking a slice.
    */
    method Resume(trace: Trace, settings: Settings, at: Course) returns (next: Course)
      requires at.Valid() && !at.Over?
      modifies trace, this`asked, this`prompts, this`status, this`toolCallsMade
      modifies this`received, this`attempts, this`retries, this`output
      ensures next.Valid() && SlicesLeft(settings, next) < SlicesLeft(settings, at)
      ensures var job := JobWith(settings, settings.ModelFor(agent));
              Rest(job, next, Snapshot()) == Rest(job, at, old(Snapshot()))
      ensures Logged(old(trace.escalations), old(received), trace.escalations, received)
    {
      hide RunTurns; hide Initial; hide RunAttempts; hide RunOn; hide Exchange; hide Prune; hide CompressResult;
      hide Ends; hide Halts; hide CallsTool; hide HandsOver; hide LoopResultOf; hide EnvelopeIn;
      hide Logged; hide Heard; hide RunCourse; hide RunCompression; hide Compressed; hide Sent;
      CourseUnfolds(JobWith(settings, settings.ModelFor(agent)), Snapshot());
      var model := settings.ModelFor(agent);
      ghost var job, core := JobWith(settings, model), Snapshot();
      LoggedOnce(trace.escalations, received, []);
      match at {
        case Waiting =>
          status := Running;
          next := BeginAttempts(settings, model, settings.Retries());
        case Compressing(summary, left) =>
          OneMore(left, settings.Turns());
          CompressionUnfolds(job, core, summary);
          var r := CompressMemory(settings);
          if r == NoResult && settings.Turns() > 0 {
            return Turning(model, Initial(summary, action), settings.Turns(), left);
          }
          NoTurnsLeft(job, Snapshot(), model, Initial(summary, action));
          next := EndAttempt(settings, model, r, left);
        case Turning(sender, messages, turns, left) =>
          TurnUnfolds(job, core, sender, messages, turns);
          LoggedOnce(trace.escalations, received, EnvelopeIn(replies(asked)));
          var ended, result, nextModel, nextMessages := TakeTurn(trace, settings, sender, messages);
          if ended {
            next := EndAttempt(settings, model, result, left);
          } else if turns == 1 {
            NoTurnsLeft(job, Snapshot(), nextModel, nextMessages);
            next := EndAttempt(settings, model, NoResult, left);
          } else {
            next := Turning(nextModel, nextMessages, turns - 1, left);
          }
      }
    }

    static lemma OneMore(a: nat, turns: nat)
      ensures (a + 1) * turns == a * turns + turns
      ensures (a + 1) * (turns + 1) == a * (turns + 1) + turns + 1
    {
    }
  }
}
