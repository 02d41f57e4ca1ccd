/**
  The conversation of one step with its model, and the pruning applied to it on every turn.
*/
module Conversations {
  import opened Wrappers
  import opened Slices

  datatype Role = User | Assistant

  datatype Message = Message(role: Role, content: string)

  datatype Envelope = Escalate | Block | Clarify | Done | ApprovalRequired | ScopeCreep

  /** What a reply parses to, in the order in which the loop tests it. */
  datatype Parsed =
    | NotJson
    | NotAnObject(truthy: bool)
    | Enveloped(envelope: Envelope)
    | ToolCall(toolResult: Option<string>)   // the text fed back, or None if dispatching or encoding it raises
    | Terminal
    | StepError(recoverable: bool)
    | Unknown

  /** What awaiting the model gives: a reply, a transport error, or any other exception. */
  datatype Reply = Said(text: string, parsed: Parsed) | HttpError | Exception

  /** The loop returns, or raises, on this reply. */
  predicate Ends(r: Reply) {
    match r
    case Said(_, parsed) => (
      match parsed
      case NotAnObject(_) => true
      case Enveloped(e) => e == Block || e == ApprovalRequired || e == Done
      case ToolCall(result) => result.None?
      case Terminal => true
      case StepError(_) => true
      case _ => false)
    case _ => true
  }

  /** What the loop says back before the next turn. */
  function Answer(parsed: Parsed): string {
    match parsed
    case NotJson => "retry_hint"
    case Enveloped(Clarify) => "clarification_response"
    case Enveloped(_) => "escalation_handoff"
    case ToolCall(Some(result)) => result
    case _ => "format_hint"
  }

  function Exchange(r: Reply): seq<Message>
    requires r.Said?
  {
    [Message(Assistant, r.text), Message(User, Answer(r.parsed))]
  }

  /** The t replies from index `from` on let the loop go on. */
  ghost predicate GoesOn(replies: nat -> Reply, from: nat, t: nat) {
    forall i: nat :: from <= i < from + t ==> !Ends(replies(i))
  }

  /** The unpruned conversation after the first t replies of a stream, none of which ended it. */
  ghost function Conversation(initial: seq<Message>, replies: nat -> Reply, from: nat, t: nat): seq<Message>
    requires GoesOn(replies, from, t)
  {
    if t == 0 then initial
    else
      assert !Ends(replies(from + t - 1));
      Conversation(initial, replies, from, t - 1) + Exchange(replies(from + t - 1))
  }

  lemma {:induction false} ConversationGrows(initial: seq<Message>, replies: nat -> Reply, from: nat, t: nat)
    requires GoesOn(replies, from, t)
    ensures initial <= Conversation(initial, replies, from, t)
    ensures |Conversation(initial, replies, from, t)| == |initial| + 2 * t
  {
    if t > 0 {
      ConversationGrows(initial, replies, from, t - 1);
    }
  }

  // ----- pruning -----

  /** Keep the first message and the last `keep`. */
  function Prune<T>(msgs: seq<T>, keep: int): seq<T>
    requires msgs != []
  {
    if |msgs| <= keep + 1 then msgs else [msgs[0]] + LastSlice(msgs, keep)
  }

  /** Pruning before and after an append equals pruning once, at the end. */
  lemma PruneThenAppend<T>(msgs: seq<T>, more: seq<T>, keep: int)
    requires msgs != [] && keep >= 1
    ensures Prune(Prune(msgs, keep) + more, keep) == Prune(msgs + more, keep)
  {
    if |msgs| > keep + 1 {
      LastSliceAppend(msgs, msgs[0], more, keep);
      assert Prune(msgs, keep) == [msgs[0]] + LastSlice(msgs, keep);
    } else {
      assert Prune(msgs, keep) == msgs;
    }
  }

  lemma LastSliceAppend<T>(xs: seq<T>, x: T, more: seq<T>, keep: int)
    requires 1 <= keep <= |xs|
    ensures LastSlice([x] + LastSlice(xs, keep) + more, keep) == LastSlice(xs + more, keep)
  {
    var all, cut := xs + more, [x] + LastSlice(xs, keep) + more;
    var i, j := |all| - keep, |cut| - keep;
    forall k | i <= k < |all| ensures all[k] == cut[k - i + j] {
      if k < |xs| {
        assert cut[k - i + j] == LastSlice(xs, keep)[k - i + j - 1];
      } else {
        assert all[k] == more[k - |xs|];
      }
    }
    assert all[i..] == cut[j..];
  }

  ghost predicate PruningIsIncremental(keep: int) {
    forall msgs: seq<Message>, more: seq<Message> :: msgs != [] ==>
      Prune(Prune(msgs, keep) + more, keep) == Prune(msgs + more, keep)
  }

  /**
    That law is exactly the settings of at least one, and the setting -1, where pruning does
    nothing; with 0 the prompt grows, below -1 messages vanish twice.
  */
  lemma IncrementalIff(keep: int)
    ensures PruningIsIncremental(keep) <==> keep >= 1 || keep == -1
  {
    if keep >= 1 {
      forall msgs: seq<Message>, more: seq<Message> | msgs != []
        ensures Prune(Prune(msgs, keep) + more, keep) == Prune(msgs + more, keep)
      {
        PruneThenAppend(msgs, more, keep);
      }
    } else if keep == -1 {
      forall msgs: seq<Message> | msgs != [] ensures Prune(msgs, -1) == msgs {
        assert msgs == [msgs[0]] + msgs[1..];
      }
    } else {
      NotIncremental(keep);
    }
  }

  lemma NotIncremental(keep: int)
    requires keep == 0 || keep < -1
    ensures !PruningIsIncremental(keep)
  {
    var m := Message(User, "");
    var n := if keep == 0 then 2 else -2 * keep;
    var msgs := seq(n, i => m);
    var once := Prune(msgs, keep);
    assert |once| == if keep == 0 then 3 else -keep + 1;
    assert |Prune(once, keep)| != |once|;
    assert once + [] == once && msgs + [] == msgs;
  }

  /** No prompt is longer than keep + 1 messages, and it ends like the whole conversation. */
  lemma PruneBound<T>(msgs: seq<T>, keep: int)
    requires msgs != [] && keep >= 1
    ensures |Prune(msgs, keep)| <= keep + 1
    ensures |Prune(msgs, keep)| == if |msgs| <= keep + 1 then |msgs| else keep + 1
    ensures Prune(msgs, keep)[0] == msgs[0]
    ensures forall i :: 1 <= i < |Prune(msgs, keep)| ==> Prune(msgs, keep)[i] == msgs[|msgs| - |Prune(msgs, keep)| + i]
  {
    if |msgs| > keep + 1 {
      assert Prune(msgs, keep) == [msgs[0]] + LastSlice(msgs, keep);
      hide Prune;
      HeadAndTail(msgs, keep, Prune(msgs, keep));
    }
  }

  lemma HeadAndTail<T>(msgs: seq<T>, keep: nat, p: seq<T>)
    requires 1 <= keep < |msgs| && p == [msgs[0]] + LastSlice(msgs, keep)
    ensures |p| == keep + 1 && p[0] == msgs[0]
    ensures forall i :: 1 <= i < |p| ==> p[i] == msgs[|msgs| - |p| + i]
  {
    var tail := msgs[|msgs| - keep..];
    assert p == [msgs[0]] + tail;
    hide LastSlice;
    forall i | 1 <= i < |p| ensures p[i] == msgs[|msgs| - |p| + i] {
      assert p[i] == tail[i - 1];
    }
  }

  // ----- roles -----

  /** Neighbours from index `low` on have different roles. */
  ghost predicate Alternating(msgs: seq<Message>, low: nat) {
    forall i, j :: low <= i < j < |msgs| && j == i + 1 ==> msgs[i].role != msgs[j].role
  }

  /** Strict alternation that starts and ends with the user. */
  ghost predicate Alternates(msgs: seq<Message>) {
    && msgs != [] && msgs[0].role == User && msgs[|msgs| - 1].role == User
    && Alternating(msgs, 0)
  }

  lemma {:induction false} ConversationRoles(initial: seq<Message>, replies: nat -> Reply, from: nat, t: nat)
    requires GoesOn(replies, from, t) && initial != [] && initial[|initial| - 1].role == User
    ensures var c := Conversation(initial, replies, from, t);
            && |c| == |initial| + 2 * t && initial <= c
            && c[|c| - 1].role == User && Alternating(c, |initial| - 1)
  {
    if t > 0 {
      ConversationRoles(initial, replies, from, t - 1);
    }
  }

  /** Counting back from the user message that ends an alternation. */
  lemma {:induction false} RoleFromEnd(c: seq<Message>, back: nat)
    requires Alternates(c) && back < |c|
    ensures c[|c| - 1 - back].role == if back % 2 == 0 then User else Assistant
  {
    if back > 0 {
      RoleFromEnd(c, back - 1);
      assert c[|c| - 1 - back].role != c[|c| - back].role;
    }
  }

  /** From a single delegation, prompts alternate exactly while unpruned or when keep is even. */
  lemma AlternatesIff(delegation: string, replies: nat -> Reply, from: nat, t: nat, keep: int)
    requires keep >= 1 && GoesOn(replies, from, t)
    ensures Alternates(Prune(Conversation([Message(User, delegation)], replies, from, t), keep)) <==>
            2 * t <= keep || keep % 2 == 0
  {
    var initial := [Message(User, delegation)];
    ConversationRoles(initial, replies, from, t);
    hide Conversation; hide Prune; hide GoesOn;
    var c := Conversation(initial, replies, from, t);
    assert c[0] == initial[0];
    AlternatingIff(c, keep);
  }

  lemma AlternatingIff(c: seq<Message>, keep: int)
    requires Alternates(c) && keep >= 1
    ensures Alternates(Prune(c, keep)) <==> |c| <= keep + 1 || keep % 2 == 0
  {
    UnprunedIs(c, keep);
    hide *;
    if |c| > keep + 1 {
      PrunedAlternates(c, keep);
      RoleAt(c, keep);
    }
  }

  lemma UnprunedIs(c: seq<Message>, keep: int)
    requires Alternates(c)
    ensures c != [] && (|c| <= keep + 1 ==> Prune(c, keep) == c)
  {
  }

  lemma RoleAt(c: seq<Message>, keep: nat)
    requires Alternates(c) && 1 <= keep <= |c|
    ensures c[|c| - keep].role != User <==> keep % 2 == 0
  {
    RoleFromEnd(c, keep - 1);
  }

  lemma PrunedAlternates(c: seq<Message>, keep: nat)
    requires Alternates(c) && 1 <= keep && keep + 1 < |c|
    ensures Alternates(Prune(c, keep)) <==> c[|c| - keep].role != User
  {
    PruneBound(c, keep);
    hide Prune;
    hide Alternates;
    TailAlternates(c, Prune(c, keep));
  }

  lemma TailAlternates(c: seq<Message>, p: seq<Message>)
    requires Alternates(c) && 2 <= |p| < |c| && p[0] == c[0]
    requires forall i :: 1 <= i < |p| ==> p[i] == c[|c| - |p| + i]
    ensures Alternates(p) <==> p[1].role != User
  {
    forall i, j | 1 <= i < j < |p| && j == i + 1 ensures p[i].role != p[j].role {
      assert p[i] == c[|c| - |p| + i] && p[j] == c[|c| - |p| + j];
    }
    if p[1].role != User {
      forall i, j | 0 <= i < j < |p| && j == i + 1 ensures p[i].role != p[j].role {
        assert i == 0 || 1 <= i;
      }
    }
  }

  /**
    After a context summary the first message is that summary, not the delegation: once the
    prompt is pruned at all, it is the summary and the last `keep` messages of the turns.
  */
  lemma DelegationIsPruned(
    summary: Message, delegation: Message, replies: nat -> Reply, from: nat, t: nat, keep: int)
    requires keep >= 1 && GoesOn(replies, from, t)
    ensures var c := Conversation([summary, delegation], replies, from, t);
            Prune(c, keep) == if 2 * t + 1 <= keep then c else [summary] + LastSlice(c[2..], keep)
  {
    ConversationGrows([summary, delegation], replies, from, t);
    hide Conversation; hide GoesOn; hide Prune;
    var c := Conversation([summary, delegation], replies, from, t);
    assert c[0] == [summary, delegation][0];
    SecondIsPruned(c, keep);
  }

  lemma SecondIsPruned(c: seq<Message>, keep: int)
    requires |c| >= 2 && keep >= 1
    ensures Prune(c, keep) == if |c| <= keep + 1 then c else [c[0]] + LastSlice(c[2..], keep)
  {
    if |c| > keep + 1 {
      assert c[|c| - keep..] == c[2..][|c| - 2 - keep..];
    }
  }
}
