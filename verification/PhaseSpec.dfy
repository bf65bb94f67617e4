/** What the phases of a task do (`internal/usecase/phase`): a task state machine whose LLM calls, stores
    and escalator are arbitrary, given by a script. */
module PhaseSpec {
  import opened Text
  import opened Models
  import opened Escalation

  const MAX_ITERATIONS := 4
  const MAX_REDIRECTS := 3

  datatype Phase = Unset | Understand | Clarify | Plan | Implement | Done | Unknown(name: string)

  datatype Question = Question(id: nat, text: string, answer: string, answeredBy: string, resolved: bool)

  datatype TaskState = TaskState(
    phase: Phase, description: string, understanding: string, questions: seq<Question>, plan: string,
    approvedBy: string, redirects: int, output: string, inputTokens: int, outputTokens: int, cost: real)

  datatype TaskResult = TaskResult(output: string, inputTokens: int, outputTokens: int, cost: real)

  datatype PhaseResult = PhaseDone(result: Option<TaskResult>) | Suspended | Restarted | PhaseFailed(error: RunError)

  datatype RunError = Collaborator | PlanRejected | LoopExceeded | AlreadyDone | UnknownPhase

  /** A JSON reply: the call failed, the text did not parse, or it did. */
  datatype Json<T> = CallFailed | BadJson | Parsed(value: T)
  datatype Analysis = Analysis(understanding: string, questions: seq<string>)
  datatype Review = ReviewFailed | Approved | Redirected
  datatype ImplReply = ImplFailed | Implemented(result: TaskResult)

  /** What the collaborators do during one iteration of the phase loop; `saves(k)` is the k-th SaveTask. */
  datatype Script = Script(
    analyses: nat -> Json<Analysis>, escalate: nat -> Outcome, plan: Json<string>, review: Review,
    implement: ImplReply, saves: nat -> bool)

  // ---------- Understand ----------

  /** callWithRetry: one retry, and only after a parse failure. */
  function Analysed(replies: nat -> Json<Analysis>): Option<Analysis> {
    match replies(0)
    case Parsed(a) => Some(a)
    case CallFailed => None
    case BadJson => match replies(1) { case Parsed(a) => Some(a) case _ => None }
  }

  function Asked(texts: seq<string>): seq<Question> {
    seq(|texts|, i requires 0 <= i < |texts| => Question(i, texts[i], "", "", false))
  }

  function UnderstandStep(s0: TaskState, restored: string, w: Script): (TaskState, PhaseResult) {
    var s := if restored != "" then s0.(understanding := restored) else s0;
    match Analysed(w.analyses)
    case None => (s, PhaseFailed(Collaborator))
    case Some(a) =>
      var s' := s.(understanding := a.understanding, questions := s.questions + Asked(a.questions),
                   phase := if a.questions != [] then Clarify else Plan);
      (s', if w.saves(0) then PhaseDone(None) else PhaseFailed(Collaborator))
  }

  // ---------- Clarify ----------

  function Answer(q: Question, r: EscalationResult): Question {
    q.(answer := r.answer, answeredBy := r.answeredBy, resolved := true)
  }

  /** The question loop from index `i` on. */
  function ClarifyFrom(s: TaskState, i: nat, w: Script): (TaskState, PhaseResult)
    requires i <= |s.questions|
    decreases |s.questions| - i
  {
    if i == |s.questions| then
      (s.(phase := Plan), if w.saves(i) then PhaseDone(None) else PhaseFailed(Collaborator))
    else if s.questions[i].resolved then ClarifyFrom(s, i + 1, w)
    else match w.escalate(i)
      case Error => (s, PhaseFailed(Collaborator))
      case Ok(r) =>
        if r.needsHuman then (s, Suspended)
        else if r.resolved then
          var s' := s.(questions := s.questions[i := Answer(s.questions[i], r)]);
          if w.saves(i) then ClarifyFrom(s', i + 1, w) else (s', PhaseFailed(Collaborator))
        else ClarifyFrom(s, i + 1, w)
  }

  // ---------- Plan ----------

  function PlanStep(s: TaskState, model: string, w: Script): (TaskState, PhaseResult) {
    match w.plan
    case CallFailed => (s, PhaseFailed(Collaborator))
    case BadJson => (s, PhaseFailed(Collaborator))
    case Parsed(plan) =>
      var s := s.(plan := plan);
      match w.review
      case ReviewFailed => (s, PhaseFailed(Collaborator))
      case Approved =>
        (s.(approvedBy := SupervisorModel(model), phase := Implement),
         if w.saves(0) then PhaseDone(None) else PhaseFailed(Collaborator))
      case Redirected =>
        var s := s.(redirects := s.redirects + 1);
        if s.redirects >= MAX_REDIRECTS then (s, PhaseFailed(PlanRejected))
        else (s.(plan := "", phase := Plan), if w.saves(0) then Restarted else PhaseFailed(Collaborator))
  }

  // ---------- Implement ----------

  function ImplementStep(s: TaskState, w: Script): (TaskState, PhaseResult) {
    match w.implement
    case ImplFailed => (s, PhaseFailed(Collaborator))
    case Implemented(r) =>
      (s.(output := r.output, phase := Done, inputTokens := s.inputTokens + r.inputTokens,
          outputTokens := s.outputTokens + r.outputTokens, cost := s.cost + r.cost),
       if w.saves(0) then PhaseDone(Some(r)) else PhaseFailed(Collaborator))
  }

  // ---------- The runner ----------

  /** One iteration of the phase loop. */
  function Step(s: TaskState, restored: string, model: string, w: Script): (TaskState, PhaseResult) {
    match s.phase
    case Understand => UnderstandStep(s, restored, w)
    case Clarify => ClarifyFrom(s, 0, w)
    case Plan => PlanStep(s, model, w)
    case Implement => ImplementStep(s, w)
    case Done => (s, PhaseFailed(AlreadyDone))
    case _ => (s, PhaseFailed(UnknownPhase))
  }

  /** The checkpoint's understanding survives only the clarify phase. */
  function NextRestored(s: TaskState, restored: string): string {
    if s.phase == Clarify then restored else ""
  }

  datatype RunOutcome = Finished(result: TaskResult) | Parked | Aborted(error: RunError)

  /** `steps` counts the phases executed. */
  datatype Run = Run(state: TaskState, outcome: RunOutcome, steps: nat)

  type Scripts = nat -> Script

  function RunFrom(s: TaskState, restored: string, model: string, ws: Scripts, i: nat): Run
    requires i <= MAX_ITERATIONS
    decreases MAX_ITERATIONS - i
  {
    if i == MAX_ITERATIONS then Run(s, Aborted(LoopExceeded), i)
    else
      var (s', r) := Step(s, restored, model, ws(i));
      match r
      case PhaseFailed(e) => Run(s', Aborted(e), i + 1)
      case Suspended => Run(s', Parked, i + 1)
      case PhaseDone(Some(result)) => Run(s', Finished(result), i + 1)
      case _ => RunFrom(s', NextRestored(s, restored), model, ws, i + 1)
  }

  function Started(s: TaskState): TaskState {
    if s.phase == Unset then s.(phase := Understand) else s
  }

  function RunTask(s: TaskState, restored: string, model: string, ws: Scripts): Run {
    RunFrom(Started(s), restored, model, ws, 0)
  }

  // ---------- The review loop around the runner ----------

  datatype LoopReview = LoopReviewFailed | LoopApproved | Improve(guidance: string)

  /** One attempt: the run's checkpoint and scripts, the reviewer's verdict and the save that may follow. */
  datatype AttemptScript = AttemptScript(restored: string, runs: Scripts, review: LoopReview, saved: bool)

  datatype LoopOutcome = Delivered(result: TaskResult) | RunFailed(run: RunOutcome) | ReviewCallFailed | SaveFailed | NotApproved

  /** `paid` are the results produced on the way, `steps` the phases each attempt executed. */
  datatype Loop = Loop(state: TaskState, outcome: LoopOutcome, paid: seq<TaskResult>, steps: seq<nat>)

  function Feedback(attempt: nat, guidance: string): string {
    "Opus feedback (attempt " + Decimal(attempt) + "):\n" + guidance
  }

  function Rewound(s: TaskState, attempt: nat, guidance: string): TaskState {
    s.(description := s.description + "\n\n---\n" + Feedback(attempt, guidance),
       phase := Implement,
       plan := s.plan + "\n\n" + Feedback(attempt, guidance))
  }

  function LoopFrom(s: TaskState, model: string, maxLoops: nat, ws: nat -> AttemptScript, attempt: nat): Loop
    decreases maxLoops + 1 - attempt
  {
    if attempt > maxLoops then Loop(s, NotApproved, [], [])
    else
      var w := ws(attempt);
      var run := RunTask(s, w.restored, model, w.runs);
      if !run.outcome.Finished? then Loop(run.state, RunFailed(run.outcome), [], [run.steps])
      else
        var r := run.outcome.result;
        match w.review
        case LoopReviewFailed => Loop(run.state, ReviewCallFailed, [r], [run.steps])
        case LoopApproved => Loop(run.state, Delivered(r), [r], [run.steps])
        case Improve(guidance) =>
          var s' := Rewound(run.state, attempt, guidance);
          if !w.saved then Loop(s', SaveFailed, [r], [run.steps])
          else
            var rest := LoopFrom(s', model, maxLoops, ws, attempt + 1);
            rest.(paid := [r] + rest.paid, steps := [run.steps] + rest.steps)
  }
}
