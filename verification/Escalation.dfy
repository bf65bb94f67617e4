/** `Chain.Resolve` (`internal/usecase/escalation/chain.go`): cache, then ever more capable models, then a human. */
module Escalation {
  import opened Text
  import opened Models

  const MAX_ANSWER_BYTES := 800

  datatype LLMReply = CallFailed | Content(text: string)
  datatype HumanReply = AskFailed | Answered(answer: string) | Expired | TimedOut
  datatype Attempt = Failed | Declined | Confident(answer: string)

  datatype EscalationResult = EscalationResult(answer: string, answeredBy: string, resolved: bool, needsHuman: bool)
  datatype Outcome = Error | Ok(result: EscalationResult)

  /** What the collaborators will say: cache, each model, and the human. */
  datatype World = World(cache: Option<string>, replies: string -> LLMReply, human: HumanReply)

  /** How one model's reply counts. */
  function TryAt(reply: LLMReply): Attempt {
    match reply
    case CallFailed => Failed
    case Content(text) =>
      var content := TrimSpace(text);
      if HasPrefixUpper(content, "ESCALATE") || ByteLen(content) > MAX_ANSWER_BYTES then Declined else Confident(content)
  }

  /** The three shapes of a result. */
  function ResolvedBy(answer: string, model: string): Outcome {
    Ok(EscalationResult(answer, model, true, false))
  }

  const WAITING_FOR_HUMAN := Ok(EscalationResult("", "", false, true))

  /** None of the first `n` levels answers. */
  ghost predicate NobodyConfident(w: World, chain: seq<string>, n: nat)
    requires n <= |chain|
  {
    forall k :: 0 <= k < n ==> !TryAt(w.replies(chain[k])).Confident?
  }

  function HumanOutcome(h: HumanReply): Outcome {
    match h
    case AskFailed => Error
    case Expired => Error
    case TimedOut => WAITING_FOR_HUMAN
    case Answered(a) => ResolvedBy(a, HUMAN)
  }

  /** The models in `consulted`, the bottom of the agent's ladder, decide the outcome: the last of them is
      the first to answer, or all models declined and the human decides. */
  ghost predicate Decided(w: World, chain: seq<string>, consulted: seq<string>, r: Outcome) {
    var n := |consulted|;
    && n < |chain| && consulted == chain[..n]
    && (|| (n > 0 && NobodyConfident(w, chain, n - 1) && TryAt(w.replies(chain[n - 1])).Confident?
            && r == ResolvedBy(TryAt(w.replies(chain[n - 1])).answer, chain[n - 1]))
        || (n == |chain| - 1 && NobodyConfident(w, chain, n) && r == HumanOutcome(w.human)))
  }

  /** The `i`-th level is the first to answer. */
  lemma FirstConfident(w: World, chain: seq<string>, i: nat)
    requires i < |chain| - 1 && NobodyConfident(w, chain, i) && TryAt(w.replies(chain[i])).Confident?
    ensures Decided(w, chain, chain[..i + 1], ResolvedBy(TryAt(w.replies(chain[i])).answer, chain[i]))
  {
  }

  lemma StillNobody(w: World, chain: seq<string>, i: nat)
    requires i < |chain| && NobodyConfident(w, chain, i) && !TryAt(w.replies(chain[i])).Confident?
    ensures NobodyConfident(w, chain, i + 1)
  {
  }

  /** The human stands at the end of a ladder and nowhere else. */
  lemma HumanIsLast(chain: seq<string>, i: nat)
    requires IsLadder(chain) && i < |chain|
    ensures chain[i] == HUMAN <==> i == |chain| - 1
  {
  }

  lemma OverwriteKey(m: map<string, string>, k: string, v: string)
    ensures m[k := v] == (m - {k})[k := v]
    ensures m[k := v] - {k} == m - {k}
  {
  }

  /** The text starts with ESCALATE, in any mixture of letter cases; the long s counts as an S. */
  predicate SaysEscalate(s: string) {
    && |s| >= 8
    && s[0] in "Ee" && s[1] in ['S', 's', '\U{017F}'] && s[2] in "Cc" && s[3] in "Aa"
    && s[4] in "Ll" && s[5] in "Aa" && s[6] in "Tt" && s[7] in "Ee"
  }

  /** A model that is no help: the call failed, or the trimmed reply starts with ESCALATE or has more than 800 bytes. */
  predicate NoHelp(reply: LLMReply) {
    reply.CallFailed? || SaysEscalate(TrimSpace(reply.text)) || ByteLen(TrimSpace(reply.text)) > 800
  }

  lemma EscalatePrefix(s: string)
    ensures HasPrefixUpper(s, "ESCALATE") <==> SaysEscalate(s)
  {
    var p := "ESCALATE";
    assert |p| == 8;
    if |s| >= 8 {
      assert HasPrefixUpper(s, p) <==>
        Upper(s[0]) == p[0] && Upper(s[1]) == p[1] && Upper(s[2]) == p[2] && Upper(s[3]) == p[3]
        && Upper(s[4]) == p[4] && Upper(s[5]) == p[5] && Upper(s[6]) == p[6] && Upper(s[7]) == p[7];
    }
  }

  /** A model answers exactly when it is a help, with its trimmed reply. */
  lemma AnswersIff(reply: LLMReply)
    ensures TryAt(reply).Confident? <==> !NoHelp(reply)
    ensures TryAt(reply).Confident? ==> TryAt(reply).answer == TrimSpace(reply.text)
  {
    if reply.Content? {
      EscalatePrefix(TrimSpace(reply.text));
    }
  }

  /** How a question goes that the cache does not answer, in terms of what was said: every model consulted but the last
      was no help; the last one either answers, with its trimmed reply, or was no help too, and then all models of
      the ladder were asked and the human decides. */
  ghost predicate Told(w: World, agentModel: string, consulted: seq<string>, r: Outcome) {
    var models := LadderOf(agentModel)[..|LadderOf(agentModel)| - 1];
    var n := |consulted|;
    && consulted <= models
    && (forall k :: 0 <= k < n - 1 ==> NoHelp(w.replies(consulted[k])))
    && if n > 0 && !NoHelp(w.replies(consulted[n - 1])) then
         r == Ok(EscalationResult(TrimSpace(w.replies(consulted[n - 1]).text), consulted[n - 1], true, false))
       else
         && consulted == models
         && match w.human
            case Answered(a) => r == Ok(EscalationResult(a, "human", true, false))
            case TimedOut => r == Ok(EscalationResult("", "", false, true))
            case AskFailed => r == Error
            case Expired => r == Error
  }

  lemma DecidedIsTold(w: World, agentModel: string, chain: seq<string>, consulted: seq<string>, r: Outcome)
    requires IsLadder(chain) && chain[0] == EscalationTarget(agentModel) && Decided(w, chain, consulted, r)
    ensures Told(w, agentModel, consulted, r)
  {
    LadderByName(agentModel, chain);
    forall k | 0 <= k < |consulted|
      ensures consulted[k] == chain[k]
      ensures TryAt(w.replies(consulted[k])).Confident? <==> !NoHelp(w.replies(consulted[k]))
      ensures TryAt(w.replies(consulted[k])).Confident? ==> TryAt(w.replies(consulted[k])).answer == TrimSpace(w.replies(consulted[k]).text)
    {
      AnswersIff(w.replies(consulted[k]));
    }
  }

  class Chain {
    var checkpoints: map<string, string>  // task -> the level its pending question was last sent to
    var learned: seq<(string, string)>    // question/answer pairs saved to the cache, oldest first

    constructor ()
      ensures checkpoints == map[] && learned == []
    {
      checkpoints, learned := map[], [];
    }

    /** An answer arrived: remember it and clear the task's checkpoint. */
    method Settle(question: string, answer: string, taskID: string)
      modifies this
      ensures checkpoints == old(checkpoints) - {taskID} && learned == old(learned) + [(question, answer)]
    {
      learned := learned + [(question, answer)];
      checkpoints := checkpoints - {taskID};
    }

    /** The loop over the model levels; Error here means that no level answered. */
    method AskModels(question: string, taskID: string, w: World, chain: seq<string>)
      returns (r: Outcome, consulted: seq<string>)
      requires IsLadder(chain)
      modifies this
      ensures r.Ok? ==> r.result.resolved && !r.result.needsHuman && Decided(w, chain, consulted, r)
      ensures r.Ok? ==> checkpoints == old(checkpoints) - {taskID} && learned == old(learned) + [(question, r.result.answer)]
      ensures r.Error? ==> consulted == chain[..|chain| - 1] && NobodyConfident(w, chain, |chain| - 1)
      ensures r.Error? ==> checkpoints - {taskID} == old(checkpoints) - {taskID} && learned == old(learned)
    {
      consulted := [];
      var i := 0;
      while chain[i] != HUMAN
        invariant 0 <= i < |chain| && consulted == chain[..i]
        invariant NobodyConfident(w, chain, i)
        invariant checkpoints - {taskID} == old(checkpoints) - {taskID} && learned == old(learned)
        decreases |chain| - i
      {
        HumanIsLast(chain, i);
        var level := chain[i];
        OverwriteKey(checkpoints, taskID, level);
        checkpoints := checkpoints[taskID := level];
        consulted := consulted + [level];
        assert consulted == chain[..i + 1];
        var attempt := TryAt(w.replies(level));
        if attempt.Confident? {
          FirstConfident(w, chain, i);
          Settle(question, attempt.answer, taskID);
          return ResolvedBy(attempt.answer, level), consulted;
        }
        StillNobody(w, chain, i);
        i := i + 1;
      }
      HumanIsLast(chain, i);
      r := Error;
    }

    /** Resolve a question: from the cache, else from the first confident model of the ladder, else from the
        human. It answers, waits for the human or fails, and nothing else. The cache leaves the task's checkpoint
        alone; an answer from a level removes it; without an answer it says that the human is asked.
        `consulted` lists the models called, in order. */
    method Resolve(question: string, agentModel: string, taskID: string, w: World)
      returns (r: Outcome, consulted: seq<string>)
      modifies this
      ensures w.cache.Some? ==>
        r == Ok(EscalationResult(w.cache.value, "cache", true, false)) && consulted == [] && checkpoints == old(checkpoints) && learned == old(learned)
      ensures w.cache.None? ==>
        exists chain :: IsLadder(chain) && chain[0] == EscalationTarget(agentModel) && Decided(w, chain, consulted, r)
      ensures w.cache.None? ==> Told(w, agentModel, consulted, r)
      ensures r.Ok? ==> r.result.resolved != r.result.needsHuman
      ensures w.cache.None? && r.Ok? && r.result.resolved ==>
        checkpoints == old(checkpoints) - {taskID} && learned == old(learned) + [(question, r.result.answer)]
      ensures !(r.Ok? && r.result.resolved) ==>
        checkpoints == old(checkpoints)[taskID := HUMAN] && learned == old(learned)
    {
      consulted := [];
      if w.cache.Some? {
        return ResolvedBy(w.cache.value, CACHE), [];
      }
      var chain := EscalationChain(agentModel);
      r, consulted := AskModels(question, taskID, w, chain);
      if r.Error? {
        OverwriteKey(checkpoints, taskID, HUMAN);
        OverwriteKey(old(checkpoints), taskID, HUMAN);
        checkpoints := checkpoints[taskID := HUMAN];
        r := HumanOutcome(w.human);
        if r.Ok? && r.result.resolved {
          Settle(question, r.result.answer, taskID);
        }
      }
      DecidedIsTold(w, agentModel, chain, consulted, r);
    }
  }
}
