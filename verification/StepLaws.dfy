/**
  What each kind of reply does to a step, kind by kind: a step that stands at a chat call, the
  reply that arrives, and how the step goes on or ends.
*/
module StepLaws {
  import opened Wrappers
  import opened Conversations
  import opened StepExecution

  /** The core once the prompt of a turn is out and its reply is there. */
  function Prompted(job: Job, at: Course, c: Core): Core
    requires at.Turning? && at.messages != []
  {
    c.(asked := c.asked + 1, prompts := c.prompts + [Prompt(at.model, Prune(at.messages, job.settings.keep))])
  }

  /** A turn unfolds into its reply and what is made of it. */
  lemma TurnRest(job: Job, at: Course, c: Core)
    requires at.Turning? && at.Valid()
    ensures var reply, pruned := job.replies(c.asked), Prune(at.messages, job.settings.keep);
            var next := Heard(c, Prompt(at.model, pruned), reply);
            && (!Ends(reply) ==> reply.Said?)
            && Rest(job, at, c) ==
               if Ends(reply) then RunOn(job, next, LoopResultOf(reply), at.left)
               else if at.turns == 1 then RunOn(job, next, NoResult, at.left)
               else Rest(job, Turning(if HandsOver(reply) then job.settings.reasonerModel else at.model,
                                      pruned + Exchange(reply), at.turns - 1, at.left), next)
  {
    hide LoopResultOf; hide Exchange; hide RunTurns; hide RunOn; hide Prune; hide Heard; hide Ends;
    TurnUnfolds(job, c, at.model, at.messages, at.turns);
    var reply, pruned := job.replies(c.asked), Prune(at.messages, job.settings.keep);
    if !Ends(reply) && at.turns == 1 {
      NoTurnsLeft(job, Heard(c, Prompt(at.model, pruned), reply),
                  if HandsOver(reply) then job.settings.reasonerModel else at.model, pruned + Exchange(reply));
    }
  }

  /** A result, or a DONE envelope, completes the step with the text of that reply. */
  lemma ResultCompletes(job: Job, at: Course, c: Core, text: string)
    requires at.Turning? && at.Valid()
    ensures job.replies(c.asked) == Said(text, Terminal) ==>
              Rest(job, at, c) ==
              (Prompted(job, at, c).(output := Some(FromReply(text)), status := Complete), Succeeded)
    ensures job.replies(c.asked) == Said(text, Enveloped(Done)) ==>
              Rest(job, at, c) ==
              (Prompted(job, at, c).(output := Some(FromDone(text)), status := Complete,
                                     received := c.received + [Done]), Succeeded)
  {
    hide RunTurns; hide RunAttempts; hide Prune; hide Exchange; hide Rest;
    TurnRest(job, at, c);
    assert c.received + [] == c.received;
  }

  /** An exception, JSON that is no object, and a tool call that raises escape the step. */
  lemma ExceptionEscapes(job: Job, at: Course, c: Core, text: string, truthy: bool)
    requires at.Turning? && at.Valid()
    ensures job.replies(c.asked) == Exception || job.replies(c.asked) == Said(text, NotAnObject(truthy)) ==>
              Rest(job, at, c) == (Prompted(job, at, c), Crashed)
    ensures job.replies(c.asked) == Said(text, ToolCall(None)) ==>
              Rest(job, at, c) == (Prompted(job, at, c).(toolCallsMade := c.toolCallsMade + 1), Crashed)
  {
    hide RunTurns; hide RunAttempts; hide Prune; hide Exchange; hide Rest;
    TurnRest(job, at, c);
    assert c.received + [] == c.received;
  }

  /** A step error fails the step at once exactly if it is not recoverable; otherwise it costs an attempt. */
  lemma StepErrorFailsUnlessRecoverable(job: Job, at: Course, c: Core, text: string, recoverable: bool)
    requires at.Turning? && at.Valid() && job.replies(c.asked) == Said(text, StepError(recoverable))
    ensures var once := Prompted(job, at, c).(retries := c.retries + 1);
            Rest(job, at, c) ==
            if recoverable then RunAttempts(job, once, at.left) else (once.(status := Failed), FailedStep)
  {
    hide RunTurns; hide RunAttempts; hide Prune; hide Exchange; hide Rest;
    TurnRest(job, at, c);
    assert c.received + [] == c.received;
  }

  /** A transport error costs an attempt; so do BLOCK and APPROVAL_REQUIRED, which also mark the step failed. */
  lemma TroubleCostsAnAttempt(job: Job, at: Course, c: Core, text: string, e: Envelope)
    requires at.Turning? && at.Valid()
    ensures job.replies(c.asked) == HttpError ==>
              Rest(job, at, c) == RunAttempts(job, Prompted(job, at, c).(retries := c.retries + 1), at.left)
    ensures job.replies(c.asked) == Said(text, Enveloped(e)) && (e == Block || e == ApprovalRequired) ==>
              Rest(job, at, c) ==
              RunAttempts(job, Prompted(job, at, c).(retries := c.retries + 1, status := Failed,
                                                     received := c.received + [e]), at.left)
  {
    hide RunTurns; hide RunAttempts; hide Prune; hide Exchange; hide Rest;
    TurnRest(job, at, c);
    assert c.received + [] == c.received;
  }

  /** The step goes on with its next turn; after the last turn the attempt is spent. */
  ghost predicate GoesOnWith(
    job: Job, at: Course, c: Core, next: Core, model: string, text: string, answer: string)
    requires at.Turning? && at.Valid()
  {
    Rest(job, at, c) ==
    if at.turns > 1
    then Rest(job, Turning(model, Prune(at.messages, job.settings.keep)
                                  + [Message(Assistant, text), Message(User, answer)], at.turns - 1, at.left), next)
    else RunAttempts(job, next.(retries := next.retries + 1), at.left)
  }

  /** Tool results and hints are answered in the same conversation, with the same model. */
  lemma ConversationGoesOn(job: Job, at: Course, c: Core, text: string, output: string)
    requires at.Turning? && at.Valid()
    ensures job.replies(c.asked) == Said(text, ToolCall(Some(output))) ==>
              GoesOnWith(job, at, c, Prompted(job, at, c).(toolCallsMade := c.toolCallsMade + 1),
                         at.model, text, output)
    ensures job.replies(c.asked) == Said(text, NotJson) ==>
              GoesOnWith(job, at, c, Prompted(job, at, c), at.model, text, "retry_hint")
    ensures job.replies(c.asked) == Said(text, Unknown) ==>
              GoesOnWith(job, at, c, Prompted(job, at, c), at.model, text, "format_hint")
    ensures job.replies(c.asked) == Said(text, Enveloped(Clarify)) ==>
              GoesOnWith(job, at, c, Prompted(job, at, c).(received := c.received + [Clarify]),
                         at.model, text, "clarification_response")
  {
    hide RunTurns; hide RunAttempts; hide Prune; hide Rest;
    TurnRest(job, at, c);
    assert c.received + [] == c.received;
  }

  /** ESCALATE and SCOPE_CREEP hand the conversation over to the reasoner. */
  lemma ReasonerTakesOver(job: Job, at: Course, c: Core, text: string, e: Envelope)
    requires at.Turning? && at.Valid() && (e == Escalate || e == ScopeCreep)
    requires job.replies(c.asked) == Said(text, Enveloped(e))
    ensures GoesOnWith(job, at, c, Prompted(job, at, c).(received := c.received + [e]),
                       job.settings.reasonerModel, text, "escalation_handoff")
  {
    hide RunTurns; hide RunAttempts; hide Prune; hide Rest;
    TurnRest(job, at, c);
  }

  /** Within a pass the reasoner is asked exactly if some earlier reply was one of the two. */
  lemma {:induction false} ReasonerIff(
    model: string, reasoner: string, replies: nat -> Reply, from: nat, n: nat)
    ensures ModelAt(model, reasoner, replies, from, n) ==
            if exists i: nat :: from <= i < from + n && replies(i).Said?
                                && (replies(i).parsed == Enveloped(Escalate)
                                    || replies(i).parsed == Enveloped(ScopeCreep))
            then reasoner else model
  {
    if n > 0 {
      ReasonerIff(model, reasoner, replies, from, n - 1);
      var last := replies(from + n - 1);
    }
  }

  /** Before an attempt: none left, and the step fails; otherwise it stands at its first chat call. */
  lemma AttemptBegins(job: Job, c: Core, left: nat)
    ensures RunCourse(job, c) == RunAttempts(job, c.(status := Running), job.settings.Retries())
    ensures left == 0 ==> RunAttempts(job, c, left) == (c.(status := Failed), FailedStep)
    ensures left > 0 ==>
              var setup, begun := job.setups(c.attempts), c.(attempts := c.attempts + 1);
              RunAttempts(job, c, left) ==
              if setup.compress then Rest(job, Compressing(setup.summary, left - 1), begun)
              else LoopBegins(job, begun, setup.summary, left - 1)
  {
    hide RunTurns; hide Initial; hide RunCourse; hide RunOn; hide RunCompression;
    StepRecord.CourseUnfolds(job, c);
    StepRecord.AttemptsOut(job, c);
    if left > 0 {
      StepRecord.BeginUnfolds(job, c, left);
      LoopIs(job, c.(attempts := c.attempts + 1), job.setups(c.attempts).summary, left - 1);
    }
  }

  /** The tool-call loop begins on a fresh conversation, or is over if it has no turns. */
  ghost function LoopBegins(job: Job, c: Core, summary: Option<string>, left: nat): (Core, StepOutcome) {
    if job.settings.Turns() > 0
    then Rest(job, Turning(job.model, Initial(summary, job.action), job.settings.Turns(), left), c)
    else RunAttempts(job, c.(retries := c.retries + 1), left)
  }

  lemma LoopIs(job: Job, c: Core, summary: Option<string>, left: nat)
    ensures var (after, r) := RunTurns(job, c, job.model, Initial(summary, job.action), job.settings.Turns());
            RunOn(job, after, r, left) == LoopBegins(job, c, summary, left)
  {
    hide Initial; hide RunAttempts;
    if job.settings.Turns() == 0 {
      NoTurnsLeft(job, c, job.model, Initial(summary, job.action));
    }
  }

  /**
    The reply to a compression call: a transport error costs the attempt, an exception or a
    truthy value that is no object escapes, and after anything else the loop begins.
  */
  lemma CompressionReply(job: Job, summary: Option<string>, left: nat, c: Core, text: string)
    ensures var reply, at := job.replies(c.asked), Compressing(summary, left);
            var compression := Prompt(job.settings.reasonerModel, [Message(User, "memory_compression")]);
            var sent := c.(asked := c.asked + 1, prompts := c.prompts + [compression]);
            && (reply == HttpError ==> Rest(job, at, c) == RunAttempts(job, sent.(retries := c.retries + 1), left))
            && (reply == Exception || reply == Said(text, NotAnObject(true)) ==>
                  Rest(job, at, c) == (sent, Crashed))
            && (reply.Said? && reply.parsed != NotAnObject(true) ==>
                  Rest(job, at, c) == LoopBegins(job, sent, summary, left))
  {
    hide RunTurns; hide Initial; hide RunAttempts; hide LoopBegins;
    StepRecord.CompressionUnfolds(job, c, summary);
    LoopIs(job, Compressed(job, c), summary, left);
  }

  // ----- models and conversations -----

  /** A role has its own model if one is configured, and the worker's otherwise. */
  lemma RoleModel(settings: Settings, role: string, model: string)
    ensures role !in settings.models ==> settings.ModelFor(role) == settings.workerModel
    ensures settings.(models := settings.models[role := model]).ModelFor(role) == model
    ensures forall other :: other != role ==>
              settings.(models := settings.models[role := model]).ModelFor(other) == settings.ModelFor(other)
  {
  }

  /** Every attempt's conversation ends with the delegation; before it stands the summary, if there is one. */
  lemma FreshConversation(summary: Option<string>, delegation: string)
    ensures var m := Initial(summary, delegation);
            && m[|m| - 1] == Message(User, delegation)
            && (|m| == 2 <==> summary.Some? && summary.value != "")
            && (|m| == 2 ==> m[0] == Message(User, "[CONTEXT SUMMARY]\n" + summary.value + "\n[END SUMMARY]"))
            && (|m| != 2 ==> |m| == 1)
  {
  }
}
