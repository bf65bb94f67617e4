/** The phase handlers, the runner and the review loop as they update a task in place
    (`internal/usecase/phase`, `internal/usecase/orchestrator/loop.go`), proved against `PhaseSpec`. */
module PhaseRunner {
  import opened Text
  import opened Models
  import opened Escalation
  import opened PhaseSpec
  import PhaseProofs

  class Task {
    var phase: Phase
    var description: string
    var understanding: string
    var questions: seq<Question>
    var plan: string
    var approvedBy: string
    var redirects: int
    var output: string
    var inputTokens: int
    var outputTokens: int
    var cost: real

    ghost function State(): TaskState
      reads this
    {
      TaskState(phase, description, understanding, questions, plan, approvedBy, redirects, output, inputTokens, outputTokens, cost)
    }

    constructor (description: string)
      ensures State() == TaskState(Unset, description, "", [], "", "", 0, "", 0, 0, 0.0)
    {
      this.description, phase, understanding, questions, plan := description, Unset, "", [], "";
      approvedBy, redirects, output, inputTokens, outputTokens, cost := "", 0, "", 0, 0, 0.0;
    }
  }

  function Saved(ok: bool, r: PhaseResult): PhaseResult {
    if ok then r else PhaseFailed(Collaborator)
  }

  method CallWithRetry(replies: nat -> Json<Analysis>) returns (out: Option<Analysis>)
    ensures out == Analysed(replies)
  {
    for attempt := 0 to 2
      invariant attempt == 1 ==> replies(0) == BadJson
      invariant attempt < 2
    {
      match replies(attempt) {
        case CallFailed => return None;
        case Parsed(a) => return Some(a);
        case BadJson =>
          if attempt == 1 {
            return None;
          }
      }
    }
  }

  method RunUnderstand(task: Task, restored: string, w: Script) returns (r: PhaseResult)
    modifies task
    ensures (task.State(), r) == UnderstandStep(old(task.State()), restored, w)
  {
    if restored != "" {
      task.understanding := restored;
    }
    var out := CallWithRetry(w.analyses);
    if out.None? {
      return PhaseFailed(Collaborator);
    }
    var a := out.value;
    task.understanding := a.understanding;
    if |a.questions| > 0 {
      var added: seq<Question> := [];
      for i := 0 to |a.questions|
        invariant added == Asked(a.questions)[..i]
        invariant task.questions == old(task.questions) + added
        invariant task.State() == old(task.State()).(understanding := a.understanding, questions := task.questions)
      {
        var q := Question(i, a.questions[i], "", "", false);
        added := added + [q];
        task.questions := task.questions + [q];
      }
      assert added == Asked(a.questions);
      task.phase := Clarify;
    } else {
      assert old(task.questions) + Asked(a.questions) == old(task.questions);
      task.phase := Plan;
    }
    r := Saved(w.saves(0), PhaseDone(None));
  }

  method RunClarify(task: Task, w: Script) returns (r: PhaseResult)
    modifies task
    ensures (task.State(), r) == ClarifyFrom(old(task.State()), 0, w)
  {
    for i := 0 to |task.questions|
      invariant |task.questions| == |old(task.questions)|
      invariant ClarifyFrom(task.State(), i, w) == ClarifyFrom(old(task.State()), 0, w)
    {
      var q := task.questions[i];
      if !q.resolved {
        var reply := w.escalate(i);
        if reply.Error? {
          return PhaseFailed(Collaborator);
        }
        if reply.result.needsHuman {
          return Suspended;
        }
        if reply.result.resolved {
          task.questions := task.questions[i := Answer(q, reply.result)];
          if !w.saves(i) {
            return PhaseFailed(Collaborator);
          }
        }
      }
    }
    task.phase := Plan;
    r := Saved(w.saves(|task.questions|), PhaseDone(None));
  }

  method RunPlan(task: Task, model: string, w: Script) returns (r: PhaseResult)
    modifies task
    ensures (task.State(), r) == PlanStep(old(task.State()), model, w)
  {
    if !w.plan.Parsed? {
      return PhaseFailed(Collaborator);
    }
    task.plan := w.plan.value;
    if w.review.ReviewFailed? {
      return PhaseFailed(Collaborator);
    }
    if w.review.Approved? {
      task.approvedBy := SupervisorModel(model);
      task.phase := Implement;
      return Saved(w.saves(0), PhaseDone(None));
    }
    task.redirects := task.redirects + 1;
    if task.redirects >= MAX_REDIRECTS {
      return PhaseFailed(PlanRejected);
    }
    task.plan := "";
    task.phase := Plan;
    r := Saved(w.saves(0), Restarted);
  }

  method RunImplement(task: Task, w: Script) returns (r: PhaseResult)
    modifies task
    ensures (task.State(), r) == ImplementStep(old(task.State()), w)
  {
    if w.implement.ImplFailed? {
      return PhaseFailed(Collaborator);
    }
    var reply := w.implement.result;
    task.output := reply.output;
    task.phase := Done;
    task.inputTokens := task.inputTokens + reply.inputTokens;
    task.outputTokens := task.outputTokens + reply.outputTokens;
    task.cost := task.cost + reply.cost;
    r := Saved(w.saves(0), PhaseDone(Some(reply)));
  }

  /** The runner: at most four phases, until completion, suspension or error. */
  method RunPhases(task: Task, restored: string, model: string, ws: Scripts) returns (outcome: RunOutcome)
    modifies task
    ensures
      var run := RunTask(old(task.State()), restored, model, ws);
      task.State() == run.state && outcome == run.outcome
  {
    if task.phase == Unset {
      task.phase := Understand;
    }
    var checkpoint := restored;
    for i := 0 to MAX_ITERATIONS
      invariant RunFrom(task.State(), checkpoint, model, ws, i) == RunTask(old(task.State()), restored, model, ws)
    {
      match task.phase {
        case Understand =>
          var r := RunUnderstand(task, checkpoint, ws(i));
          if r.PhaseFailed? {
            return Aborted(r.error);
          }
          checkpoint := "";
        case Clarify =>
          PhaseProofs.ClarifyEffect(task.State(), 0, ws(i));
          var r := RunClarify(task, ws(i));
          if r.PhaseFailed? {
            return Aborted(r.error);
          }
          if r.Suspended? {
            return Parked;
          }
        case Plan =>
          var r := RunPlan(task, model, ws(i));
          if r.PhaseFailed? {
            return Aborted(r.error);
          }
          checkpoint := "";
        case Implement =>
          var r := RunImplement(task, ws(i));
          if r.PhaseFailed? {
            return Aborted(r.error);
          }
          return Finished(r.result.value);
        case Done =>
          return Aborted(AlreadyDone);
        case _ =>
          return Aborted(UnknownPhase);
      }
    }
    outcome := Aborted(LoopExceeded);
  }

  /** The review loop: run, review, and rewind to implement with the reviewer's feedback. */
  method RunLoop(task: Task, model: string, maxLoops: nat, ws: nat -> AttemptScript) returns (outcome: LoopOutcome)
    modifies task
    ensures
      var loop := LoopFrom(old(task.State()), model, maxLoops, ws, 1);
      task.State() == loop.state && outcome == loop.outcome
  {
    for attempt := 1 to maxLoops + 1
      invariant
        var rest, loop := LoopFrom(task.State(), model, maxLoops, ws, attempt), LoopFrom(old(task.State()), model, maxLoops, ws, 1);
        rest.state == loop.state && rest.outcome == loop.outcome
    {
      var w := ws(attempt);
      var run := RunPhases(task, w.restored, model, w.runs);
      if !run.Finished? {
        return RunFailed(run);
      }
      match w.review {
        case LoopReviewFailed => return ReviewCallFailed;
        case LoopApproved => return Delivered(run.result);
        case Improve(guidance) =>
          task.description := task.description + "\n\n---\n" + Feedback(attempt, guidance);
          task.phase := Implement;
          task.plan := task.plan + "\n\n" + Feedback(attempt, guidance);
          if !w.saved {
            return SaveFailed;
          }
      }
    }
    outcome := NotApproved;
  }
}
