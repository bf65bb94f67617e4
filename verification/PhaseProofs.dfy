/** Properties of every run, and of every sequence of runs, of the phase machine. */
module PhaseProofs {
  import opened Text
  import opened Models
  import opened Escalation
  import opened PhaseSpec

  // ---------- Safety over all sequences of runs ----------

  ghost predicate AllResolved(qs: seq<Question>) {
    forall i :: 0 <= i < |qs| ==> qs[i].resolved
  }

  /** Questions are open only while clarifying, and nothing is implemented without the supervisor's approval. */
  ghost predicate Safe(s: TaskState) {
    && (s.phase in {Unset, Understand, Plan, Implement, Done} ==> AllResolved(s.questions))
    && (s.phase in {Implement, Done} ==> s.approvedBy == OPUS)
  }

  /** What `Chain.Resolve` guarantees: an answer, a wait for the human, or an error, and nothing else. */
  ghost predicate Decisive(w: Script) {
    forall i :: w.escalate(i).Ok? ==> w.escalate(i).result.resolved != w.escalate(i).result.needsHuman
  }

  function Settled(q: Question, reply: Outcome): Question {
    if !q.resolved && reply.Ok? && reply.result.resolved then Answer(q, reply.result) else q
  }

  /** The clarify loop parks on an open question, or fails where it stands, or reaches the plan phase with
      every remaining question settled by the escalator's reply to it. */
  lemma {:induction false} ClarifyEffect(s: TaskState, i: nat, w: Script)
    requires i <= |s.questions| && s.phase == Clarify
    ensures
      var (s', r) := ClarifyFrom(s, i, w);
      && s' == s.(phase := s'.phase, questions := s'.questions) && |s'.questions| == |s.questions|
      && s'.phase in {Clarify, Plan}
      && (s'.phase == Clarify ==> r.Suspended? || r.PhaseFailed?)
      && (r.Suspended? ==> s'.phase == Clarify && !AllResolved(s'.questions))
      && (r.Suspended? || r.PhaseFailed? || r == PhaseDone(None))
      && (r.PhaseFailed? ==> r.error == Collaborator)
      && (s'.phase == Plan ==> forall k :: 0 <= k < |s.questions| ==>
            s'.questions[k] == if k < i then s.questions[k] else Settled(s.questions[k], w.escalate(k)))
    decreases |s.questions| - i
  {
    if i == |s.questions| {
    } else {
      var q := s.questions[i];
      if q.resolved {
        ClarifyEffect(s, i + 1, w);
      } else if w.escalate(i).Ok? {
        var r := w.escalate(i).result;
        if r.needsHuman {
        } else if r.resolved {
          ClarifyEffect(s.(questions := s.questions[i := Answer(q, r)]), i + 1, w);
        } else {
          ClarifyEffect(s, i + 1, w);
        }
      }
    }
  }

  /** Whatever the escalator, clarify moves on with every question resolved exactly when each open question
      got a resolving reply; a reply that neither resolves nor waits would let an open question through. */
  lemma ClarifyResolvesIff(s: TaskState, w: Script)
    requires s.phase == Clarify && ClarifyFrom(s, 0, w).1.PhaseDone?
    ensures AllResolved(ClarifyFrom(s, 0, w).0.questions) <==>
      forall k :: 0 <= k < |s.questions| && !s.questions[k].resolved ==> w.escalate(k).Ok? && w.escalate(k).result.resolved
  {
    ClarifyEffect(s, 0, w);
    var s' := ClarifyFrom(s, 0, w).0;
    forall k | 0 <= k < |s.questions|
      ensures s'.questions[k].resolved <==>
        s.questions[k].resolved || (w.escalate(k).Ok? && w.escalate(k).result.resolved)
    {
    }
  }

  /** Reaching the end of the loop needs a reply to every open question that does not wait for the human. */
  lemma {:induction false} ClarifyPassedReplies(s: TaskState, i: nat, w: Script)
    requires i <= |s.questions| && s.phase == Clarify && ClarifyFrom(s, i, w).0.phase == Plan
    ensures forall k :: i <= k < |s.questions| && !s.questions[k].resolved ==> w.escalate(k).Ok? && !w.escalate(k).result.needsHuman
    decreases |s.questions| - i
  {
    if i == |s.questions| {
    } else {
      var q := s.questions[i];
      if !q.resolved && w.escalate(i).Ok? && !w.escalate(i).result.needsHuman && w.escalate(i).result.resolved {
        var s' := s.(questions := s.questions[i := Answer(q, w.escalate(i).result)]);
        ClarifyPassedReplies(s', i + 1, w);
        assert forall k :: i < k < |s.questions| ==> s'.questions[k] == s.questions[k];
      } else if q.resolved || (w.escalate(i).Ok? && !w.escalate(i).result.needsHuman) {
        ClarifyPassedReplies(s, i + 1, w);
      }
    }
  }

  lemma StepKeepsSafe(s: TaskState, restored: string, model: string, w: Script)
    requires Safe(s) && Decisive(w)
    ensures Safe(Step(s, restored, model, w).0)
  {
    match s.phase
    case Understand =>
    case Clarify =>
      ClarifyEffect(s, 0, w);
      var s' := ClarifyFrom(s, 0, w).0;
      if s'.phase == Plan {
        ClarifyPassedReplies(s, 0, w);
        forall k | 0 <= k < |s'.questions|
          ensures s'.questions[k].resolved
        {
        }
      }
    case _ =>
  }

  ghost predicate DecisiveScripts(ws: Scripts) {
    forall i: nat :: Decisive(ws(i))
  }

  lemma {:induction false} RunStepsBound(s: TaskState, restored: string, model: string, ws: Scripts, i: nat)
    requires i <= MAX_ITERATIONS
    ensures i <= RunFrom(s, restored, model, ws, i).steps <= MAX_ITERATIONS
    decreases MAX_ITERATIONS - i
  {
    if i == MAX_ITERATIONS {
    } else {
      var (s', r) := Step(s, restored, model, ws(i));
      RunStepsBound(s', NextRestored(s, restored), model, ws, i + 1);
    }
  }

  lemma StepResult(s: TaskState, restored: string, model: string, w: Script)
    ensures
      var (s', r) := Step(s, restored, model, w);
      && (r.PhaseDone? && r.result.Some? ==> s'.phase == Done && s'.output == r.result.value.output)
      && (r.Suspended? ==> s'.phase == Clarify && !AllResolved(s'.questions))
  {
    if s.phase == Clarify {
      ClarifyEffect(s, 0, w);
    }
  }

  /** A run returns a result only when the task is done, with that output; and it parks only while
      clarifying, with an open question. */
  lemma {:induction false} FinishedMeansDone(s: TaskState, restored: string, model: string, ws: Scripts, i: nat)
    requires i <= MAX_ITERATIONS
    ensures
      var run := RunFrom(s, restored, model, ws, i);
      && (run.outcome.Finished? ==> run.state.phase == Done && run.state.output == run.outcome.result.output)
      && (run.outcome.Parked? ==> run.state.phase == Clarify && !AllResolved(run.state.questions))
    decreases MAX_ITERATIONS - i
  {
    if i == MAX_ITERATIONS {
    } else {
      StepResult(s, restored, model, ws(i));
      var (s', r) := Step(s, restored, model, ws(i));
      FinishedMeansDone(s', NextRestored(s, restored), model, ws, i + 1);
    }
  }

  lemma {:induction false} RunKeepsSafe(s: TaskState, restored: string, model: string, ws: Scripts, i: nat)
    requires i <= MAX_ITERATIONS && Safe(s) && DecisiveScripts(ws)
    ensures Safe(RunFrom(s, restored, model, ws, i).state)
    decreases MAX_ITERATIONS - i
  {
    if i == MAX_ITERATIONS {
    } else {
      StepKeepsSafe(s, restored, model, ws(i));
      var (s', r) := Step(s, restored, model, ws(i));
      RunKeepsSafe(s', NextRestored(s, restored), model, ws, i + 1);
    }
  }

  lemma {:induction false} LoopKeepsSafe(s: TaskState, model: string, maxLoops: nat, ws: nat -> AttemptScript, attempt: nat)
    requires Safe(s) && forall k: nat :: DecisiveScripts(ws(k).runs)
    ensures Safe(LoopFrom(s, model, maxLoops, ws, attempt).state)
    decreases maxLoops + 1 - attempt
  {
    if attempt > maxLoops {
    } else {
      var w := ws(attempt);
      RunKeepsSafe(Started(s), w.restored, model, w.runs, 0);
      var run := RunTask(s, w.restored, model, w.runs);
      if run.outcome.Finished? {
        FinishedMeansDone(Started(s), w.restored, model, w.runs, 0);
        if w.review.Improve? {
          LoopKeepsSafe(Rewound(run.state, attempt, w.review.guidance), model, maxLoops, ws, attempt + 1);
        }
      }
    }
  }

  /** One use of a task: a plain run, or a run under the review loop. */
  datatype Call = PlainRun(restored: string, ws: Scripts) | ReviewLoop(maxLoops: nat, attempts: nat -> AttemptScript)

  ghost predicate DecisiveCall(c: Call) {
    match c
    case PlainRun(_, ws) => DecisiveScripts(ws)
    case ReviewLoop(_, attempts) => forall k: nat :: DecisiveScripts(attempts(k).runs)
  }

  function AfterCall(s: TaskState, model: string, c: Call): TaskState {
    match c
    case PlainRun(restored, ws) => RunTask(s, restored, model, ws).state
    case ReviewLoop(maxLoops, attempts) => LoopFrom(s, model, maxLoops, attempts, 1).state
  }

  function AfterCalls(s: TaskState, model: string, calls: seq<Call>): TaskState {
    if calls == [] then s else AfterCall(AfterCalls(s, model, calls[..|calls| - 1]), model, calls[|calls| - 1])
  }

  ghost predicate FreshTask(s: TaskState) {
    s.phase == Unset && s.questions == [] && s.redirects == 0
  }

  /** After any sequence of runs, suspensions, errors and review-loop rewinds of a fresh task, it is planned
      only with every question resolved and implemented only under a plan the supervisor approved. */
  lemma {:induction false} AlwaysSafe(s: TaskState, model: string, calls: seq<Call>)
    requires FreshTask(s) && forall i :: 0 <= i < |calls| ==> DecisiveCall(calls[i])
    ensures Safe(AfterCalls(s, model, calls))
  {
    if calls == [] {
    } else {
      var before, c := AfterCalls(s, model, calls[..|calls| - 1]), calls[|calls| - 1];
      AlwaysSafe(s, model, calls[..|calls| - 1]);
      match c
      case PlainRun(restored, ws) => RunKeepsSafe(Started(before), restored, model, ws, 0);
      case ReviewLoop(maxLoops, attempts) => LoopKeepsSafe(before, model, maxLoops, attempts, 1);
    }
  }

  // ---------- The plan that is implemented ----------

  /** From the implement phase on, the plan stays and there is no way back. */
  lemma {:induction false} ImplementKeepsPlan(s: TaskState, restored: string, model: string, ws: Scripts, i: nat)
    requires i <= MAX_ITERATIONS && s.phase in {Implement, Done}
    ensures
      var after := RunFrom(s, restored, model, ws, i).state;
      after.plan == s.plan && after.phase in {Implement, Done}
    decreases MAX_ITERATIONS - i
  {
    if i == MAX_ITERATIONS {
    } else {
      var (s', r) := Step(s, restored, model, ws(i));
      ImplementKeepsPlan(s', NextRestored(s, restored), model, ws, i + 1);
    }
  }

  /** The task as iteration `k` of the run finds it. */
  function StateAt(s: TaskState, restored: string, model: string, ws: Scripts, i: nat, k: nat): TaskState
    requires i <= k
    decreases k - i
  {
    if i == k then s else StateAt(Step(s, restored, model, ws(i)).0, NextRestored(s, restored), model, ws, i + 1, k)
  }

  /** Iteration `k` of the run, an executed one, moves the task from the plan phase to implement: there `plan` was
      written and the supervisor approved it. */
  ghost predicate ApprovedAt(s: TaskState, restored: string, model: string, ws: Scripts, i: nat, k: nat, plan: string)
    requires i <= k && i <= MAX_ITERATIONS
  {
    var after := StateAt(s, restored, model, ws, i, k + 1);
    && k < RunFrom(s, restored, model, ws, i).steps
    && StateAt(s, restored, model, ws, i, k).phase == Plan && after.phase == Implement
    && ws(k).review == Approved && ws(k).plan == Parsed(plan)
    && after.plan == plan && after.approvedBy == SupervisorModel(model)
  }

  ghost predicate ApprovedFrom(s: TaskState, restored: string, model: string, ws: Scripts, i: nat, plan: string)
    requires i <= MAX_ITERATIONS
  {
    exists k: nat :: i <= k && ApprovedAt(s, restored, model, ws, i, k, plan)
  }

  /** What happened after one step of a run happened in the run. */
  lemma LaterApproval(s: TaskState, restored: string, model: string, ws: Scripts, i: nat, plan: string)
    requires
      var (s', r) := Step(s, restored, model, ws(i));
      && i < MAX_ITERATIONS && (r == PhaseDone(None) || r.Restarted?)
      && ApprovedFrom(s', NextRestored(s, restored), model, ws, i + 1, plan)
    ensures ApprovedFrom(s, restored, model, ws, i, plan)
  {
    var s' := Step(s, restored, model, ws(i)).0;
    var k: nat :| i < k && ApprovedAt(s', NextRestored(s, restored), model, ws, i + 1, k, plan);
    assert ApprovedAt(s, restored, model, ws, i, k, plan);
  }

  /** A run that brings a task to the implement phase, or past it, leaves it with the very plan that was written
      and approved in the iteration that moved it there. */
  lemma {:induction false} ImplementsApprovedPlan(s: TaskState, restored: string, model: string, ws: Scripts, i: nat)
    requires i <= MAX_ITERATIONS && s.phase in {Understand, Clarify, Plan}
    ensures
      var run := RunFrom(s, restored, model, ws, i);
      run.state.phase in {Implement, Done} ==> ApprovedFrom(s, restored, model, ws, i, run.state.plan)
    decreases MAX_ITERATIONS - i
  {
    if i == MAX_ITERATIONS {
    } else {
      if s.phase == Clarify {
        ClarifyEffect(s, 0, ws(i));
      }
      var (s', r) := Step(s, restored, model, ws(i));
      RunStepsBound(s', NextRestored(s, restored), model, ws, i + 1);
      if s'.phase == Implement {
        ImplementKeepsPlan(s', NextRestored(s, restored), model, ws, i + 1);
        assert StateAt(s, restored, model, ws, i, i + 1) == s';
        assert ApprovedAt(s, restored, model, ws, i, i, s'.plan);
      } else {
        ImplementsApprovedPlan(s', NextRestored(s, restored), model, ws, i + 1);
        var run := RunFrom(s, restored, model, ws, i);
        if run.state.phase in {Implement, Done} {
          LaterApproval(s, restored, model, ws, i, run.state.plan);
        }
      }
    }
  }

  /** What a review loop appends to the plan on an attempt. */
  function Note(f: (nat, string)): string {
    "\n\n" + Feedback(f.0, f.1)
  }

  function Fed(fs: seq<(nat, string)>): string {
    if fs == [] then "" else Note(fs[0]) + Fed(fs[1..])
  }

  lemma {:induction false} FedConcat(a: seq<(nat, string)>, b: seq<(nat, string)>)
    ensures Fed(a + b) == Fed(a) + Fed(b)
  {
    if a == [] {
      assert a + b == b;
    } else {
      FedConcat(a[1..], b);
      assert (a + b)[1..] == a[1..] + b;
      ConcatAssoc(Note(a[0]), Fed(a[1..]), Fed(b));
    }
  }

  lemma FedFirst(plan: string, f: (nat, string), rest: seq<(nat, string)>)
    ensures (plan + Note(f)) + Fed(rest) == plan + Fed([f] + rest)
  {
    assert ([f] + rest)[1..] == rest;
    ConcatAssoc(plan, Note(f), Fed(rest));
  }

  /** The feedback a review loop gives from `attempt` on. */
  function LoopFeedback(s: TaskState, model: string, maxLoops: nat, ws: nat -> AttemptScript, attempt: nat): seq<(nat, string)>
    decreases maxLoops + 1 - attempt
  {
    if attempt > maxLoops then []
    else
      var w := ws(attempt);
      var run := RunTask(s, w.restored, model, w.runs);
      if !run.outcome.Finished? || !w.review.Improve? then []
      else
        var rest := if w.saved then LoopFeedback(Rewound(run.state, attempt, w.review.guidance), model, maxLoops, ws, attempt + 1) else [];
        [(attempt, w.review.guidance)] + rest
  }

  /** In the review loop, a plan once implemented grows by exactly the feedback given. */
  lemma {:induction false} LoopExtendsPlan(s: TaskState, model: string, maxLoops: nat, ws: nat -> AttemptScript, attempt: nat)
    requires s.phase in {Implement, Done}
    ensures
      var after := LoopFrom(s, model, maxLoops, ws, attempt).state;
      after.plan == s.plan + Fed(LoopFeedback(s, model, maxLoops, ws, attempt)) && after.phase in {Implement, Done}
    decreases maxLoops + 1 - attempt
  {
    if attempt > maxLoops {
    } else {
      var w := ws(attempt);
      ImplementKeepsPlan(s, w.restored, model, w.runs, 0);
      LoopAddsFeedback(s, model, maxLoops, ws, attempt);
    }
  }

  /** Whatever a first attempt leaves as the plan, the loop adds its feedback to it. */
  lemma {:induction false} LoopAddsFeedback(s: TaskState, model: string, maxLoops: nat, ws: nat -> AttemptScript, attempt: nat)
    requires attempt <= maxLoops
    ensures
      var run := RunTask(s, ws(attempt).restored, model, ws(attempt).runs);
      var after := LoopFrom(s, model, maxLoops, ws, attempt).state;
      && after.plan == run.state.plan + Fed(LoopFeedback(s, model, maxLoops, ws, attempt))
      && (run.state.phase in {Implement, Done} ==> after.phase in {Implement, Done})
      && (after.phase in {Implement, Done} ==> run.state.phase in {Implement, Done})
    decreases maxLoops + 1 - attempt, 0
  {
    var w := ws(attempt);
    var run := RunTask(s, w.restored, model, w.runs);
    FinishedMeansDone(Started(s), w.restored, model, w.runs, 0);
    if run.outcome.Finished? && w.review.Improve? {
      var s' := Rewound(run.state, attempt, w.review.guidance);
      var rest := if w.saved then LoopFeedback(s', model, maxLoops, ws, attempt + 1) else [];
      FedFirst(run.state.plan, (attempt, w.review.guidance), rest);
      ConcatAssoc(run.state.plan, "\n\n", Feedback(attempt, w.review.guidance));
      if w.saved {
        LoopExtendsPlan(s', model, maxLoops, ws, attempt + 1);
      } else {
        assert s'.plan + "" == s'.plan;
      }
    } else {
      assert run.state.plan + "" == run.state.plan;
    }
  }

  lemma {:induction false} ClarifyKeepsDescription(s: TaskState, i: nat, w: Script)
    requires i <= |s.questions|
    ensures ClarifyFrom(s, i, w).0.description == s.description
    decreases |s.questions| - i
  {
    if i == |s.questions| {
    } else {
      ClarifyKeepsDescription(s, i + 1, w);
      if w.escalate(i).Ok? {
        ClarifyKeepsDescription(s.(questions := s.questions[i := Answer(s.questions[i], w.escalate(i).result)]), i + 1, w);
      }
    }
  }

  lemma {:induction false} RunKeepsDescription(s: TaskState, restored: string, model: string, ws: Scripts, i: nat)
    requires i <= MAX_ITERATIONS
    ensures RunFrom(s, restored, model, ws, i).state.description == s.description
    decreases MAX_ITERATIONS - i
  {
    if i == MAX_ITERATIONS {
    } else {
      ClarifyKeepsDescription(s, 0, ws(i));
      RunKeepsDescription(Step(s, restored, model, ws(i)).0, NextRestored(s, restored), model, ws, i + 1);
    }
  }

  /** What a review loop adds to the task's description: each guidance in full, under the number of its attempt. */
  function Described(fs: seq<(nat, string)>): string {
    if fs == [] then ""
    else "\n\n---\nOpus feedback (attempt " + Decimal(fs[0].0) + "):\n" + fs[0].1 + Described(fs[1..])
  }

  lemma DescribedFirst(description: string, f: (nat, string), rest: seq<(nat, string)>)
    ensures
      (description + "\n\n---\n" + Feedback(f.0, f.1)) + Described(rest) == description + Described([f] + rest)
  {
    var note := "\n\n---\nOpus feedback (attempt " + Decimal(f.0) + "):\n" + f.1;
    assert ([f] + rest)[1..] == rest;
    assert description + "\n\n---\n" + Feedback(f.0, f.1) == description + note;
    ConcatAssoc(description, note, Described(rest));
  }

  /** In the review loop the description grows by exactly that, for the feedback given. */
  lemma {:induction false} LoopDescribes(s: TaskState, model: string, maxLoops: nat, ws: nat -> AttemptScript, attempt: nat)
    ensures
      LoopFrom(s, model, maxLoops, ws, attempt).state.description == s.description + Described(LoopFeedback(s, model, maxLoops, ws, attempt))
    decreases maxLoops + 1 - attempt
  {
    if attempt > maxLoops {
      assert s.description + "" == s.description;
    } else {
      var w := ws(attempt);
      RunKeepsDescription(Started(s), w.restored, model, w.runs, 0);
      var run := RunTask(s, w.restored, model, w.runs);
      if run.outcome.Finished? && w.review.Improve? {
        var s' := Rewound(run.state, attempt, w.review.guidance);
        var rest := if w.saved then LoopFeedback(s', model, maxLoops, ws, attempt + 1) else [];
        DescribedFirst(s.description, (attempt, w.review.guidance), rest);
        if w.saved {
          LoopDescribes(s', model, maxLoops, ws, attempt + 1);
        } else {
          assert s'.description + "" == s'.description;
        }
      } else {
        assert s.description + "" == s.description;
      }
    }
  }

  /** The note a review loop appends to the plan. */
  lemma NotesHoldGuidance(attempt: nat, guidance: string)
    ensures Note((attempt, guidance)) == "\n\nOpus feedback (attempt " + Decimal(attempt) + "):\n" + guidance
  {
  }

  /** `plan` is approved in a run of the task from state `s`. */
  ghost predicate ApprovedInRun(s: TaskState, restored: string, model: string, ws: Scripts, plan: string) {
    ApprovedFrom(Started(s), restored, model, ws, 0, plan)
  }

  ghost predicate ApprovedIn(s: TaskState, model: string, c: Call, plan: string) {
    match c
    case PlainRun(restored, ws) => ApprovedInRun(s, restored, model, ws, plan)
    case ReviewLoop(maxLoops, attempts) => maxLoops >= 1 && ApprovedInRun(s, attempts(1).restored, model, attempts(1).runs, plan)
  }

  function CallFeedback(s: TaskState, model: string, c: Call): seq<(nat, string)> {
    match c
    case PlainRun(_, _) => []
    case ReviewLoop(maxLoops, attempts) => LoopFeedback(s, model, maxLoops, attempts, 1)
  }

  /** One call that starts before the implement phase and ends in it, or past it. */
  lemma CallImplementsApproved(s: TaskState, model: string, c: Call)
    requires s.phase !in {Implement, Done} && AfterCall(s, model, c).phase in {Implement, Done}
    ensures exists p :: AfterCall(s, model, c).plan == p + Fed(CallFeedback(s, model, c)) && ApprovedIn(s, model, c, p)
  {
    var after := AfterCall(s, model, c).plan;
    match c
    case PlainRun(restored, ws) =>
      ImplementsApprovedPlan(Started(s), restored, model, ws, 0);
      assert after + "" == after && ApprovedIn(s, model, c, after);
    case ReviewLoop(maxLoops, attempts) =>
      if maxLoops >= 1 {
        var w := attempts(1);
        LoopAddsFeedback(s, model, maxLoops, attempts, 1);
        ImplementsApprovedPlan(Started(s), w.restored, model, w.runs, 0);
        assert ApprovedIn(s, model, c, RunTask(s, w.restored, model, w.runs).state.plan);
      }
  }

  /** A call on a task that has been implemented adds its feedback to the plan and nothing else. */
  lemma CallExtendsPlan(s: TaskState, model: string, c: Call)
    requires s.phase in {Implement, Done}
    ensures AfterCall(s, model, c).plan == s.plan + Fed(CallFeedback(s, model, c))
    ensures AfterCall(s, model, c).phase in {Implement, Done}
  {
    match c
    case PlainRun(restored, ws) =>
      ImplementKeepsPlan(s, restored, model, ws, 0);
      assert s.plan + "" == s.plan;
    case ReviewLoop(maxLoops, attempts) => LoopExtendsPlan(s, model, maxLoops, attempts, 1);
  }

  /** All feedback given in the calls from the `j`-th on, in order. */
  function FeedbackSince(s: TaskState, model: string, calls: seq<Call>, j: nat): seq<(nat, string)>
    decreases |calls|
  {
    if |calls| <= j then []
    else
      var before := calls[..|calls| - 1];
      FeedbackSince(s, model, before, j) + CallFeedback(AfterCalls(s, model, before), model, calls[|calls| - 1])
  }

  /** The plan is `p`, approved in the `j`-th call, followed by all feedback since. */
  ghost predicate PlanFrom(s: TaskState, model: string, calls: seq<Call>, j: nat, p: string)
    requires j < |calls|
  {
    && ApprovedIn(AfterCalls(s, model, calls[..j]), model, calls[j], p)
    && AfterCalls(s, model, calls).plan == p + Fed(FeedbackSince(s, model, calls, j))
  }

  lemma PlanGrows(plan: string, earlier: seq<(nat, string)>, later: seq<(nat, string)>)
    ensures plan + Fed(earlier) + Fed(later) == plan + Fed(earlier + later)
  {
    FedConcat(earlier, later);
    ConcatAssoc(plan, Fed(earlier), Fed(later));
  }

  lemma MoreFeedback(s: TaskState, model: string, calls: seq<Call>, j: nat, p: string)
    requires calls != [] && j < |calls| - 1 && AfterCalls(s, model, calls[..|calls| - 1]).phase in {Implement, Done}
    requires AfterCalls(s, model, calls[..|calls| - 1]).plan == p + Fed(FeedbackSince(s, model, calls[..|calls| - 1], j))
    ensures AfterCalls(s, model, calls).plan == p + Fed(FeedbackSince(s, model, calls, j))
  {
    var n := |calls| - 1;
    var before := AfterCalls(s, model, calls[..n]);
    CallExtendsPlan(before, model, calls[n]);
    PlanGrows(p, FeedbackSince(s, model, calls[..n], j), CallFeedback(before, model, calls[n]));
  }

  lemma MoreCalls(s: TaskState, model: string, calls: seq<Call>, j: nat, p: string)
    requires calls != [] && j < |calls| - 1 && PlanFrom(s, model, calls[..|calls| - 1], j, p)
    requires AfterCalls(s, model, calls[..|calls| - 1]).phase in {Implement, Done}
    ensures PlanFrom(s, model, calls, j, p)
  {
    var earlier := calls[..|calls| - 1];
    assert earlier[..j] == calls[..j] && earlier[j] == calls[j];
    MoreFeedback(s, model, calls, j, p);
  }

  /** Over every sequence of calls on a fresh task: a plan that is being, or was, implemented is one that was approved
      in one of the calls, followed by exactly the feedback of the review loops from that call on. */
  lemma {:induction false} PlansWereApproved(s: TaskState, model: string, calls: seq<Call>)
    requires FreshTask(s)
    ensures AfterCalls(s, model, calls).phase in {Implement, Done} ==>
      exists j, p :: 0 <= j < |calls| && PlanFrom(s, model, calls, j, p)
  {
    if calls == [] {
    } else {
      var n := |calls| - 1;
      var before, after := AfterCalls(s, model, calls[..n]), AfterCalls(s, model, calls);
      PlansWereApproved(s, model, calls[..n]);
      if before.phase in {Implement, Done} {
        var j, p :| 0 <= j < n && PlanFrom(s, model, calls[..n], j, p);
        MoreCalls(s, model, calls, j, p);
      } else if after.phase in {Implement, Done} {
        CallImplementsApproved(before, model, calls[n]);
        var p :| after.plan == p + Fed(CallFeedback(before, model, calls[n])) && ApprovedIn(before, model, calls[n], p);
        assert FeedbackSince(s, model, calls[..n], n) == [];
        assert [] + CallFeedback(before, model, calls[n]) == CallFeedback(before, model, calls[n]);
        assert PlanFrom(s, model, calls, n, p);
      }
    }
  }

  // There is only one approval to speak of.

  lemma {:induction false} ImplementNeverPlans(s: TaskState, restored: string, model: string, ws: Scripts, i: nat, k: nat)
    requires i <= k && s.phase in {Implement, Done}
    ensures StateAt(s, restored, model, ws, i, k).phase in {Implement, Done}
    decreases k - i
  {
    if i == k {
    } else {
      ImplementNeverPlans(Step(s, restored, model, ws(i)).0, NextRestored(s, restored), model, ws, i + 1, k);
    }
  }

  lemma {:induction false} OneIteration(s: TaskState, restored: string, model: string, ws: Scripts, i: nat, k: nat, m: nat)
    requires i <= k < m && StateAt(s, restored, model, ws, i, k + 1).phase == Implement
    ensures StateAt(s, restored, model, ws, i, m).phase in {Implement, Done}
    decreases k - i
  {
    var s' := Step(s, restored, model, ws(i)).0;
    if i == k {
      ImplementNeverPlans(s', NextRestored(s, restored), model, ws, i + 1, m);
    } else {
      OneIteration(s', NextRestored(s, restored), model, ws, i + 1, k, m);
    }
  }

  /** A run has at most one approval, and none when it starts in the implement phase or past it. */
  lemma OneApprovalPerRun(s: TaskState, restored: string, model: string, ws: Scripts, i: nat, k: nat, p: string, m: nat, q: string)
    requires i <= k && i <= m && i <= MAX_ITERATIONS
    requires ApprovedAt(s, restored, model, ws, i, k, p) && ApprovedAt(s, restored, model, ws, i, m, q)
    ensures k == m && p == q && s.phase !in {Implement, Done}
  {
    if k < m {
      OneIteration(s, restored, model, ws, i, k, m);
    } else if m < k {
      OneIteration(s, restored, model, ws, i, m, k);
    }
    if s.phase in {Implement, Done} {
      ImplementNeverPlans(s, restored, model, ws, i, k);
    }
  }

  /** After a run with an approval the task is in the implement phase or past it. */
  lemma {:induction false} ApprovedRunImplements(s: TaskState, restored: string, model: string, ws: Scripts, i: nat, k: nat, p: string)
    requires i <= k && i <= MAX_ITERATIONS && ApprovedAt(s, restored, model, ws, i, k, p)
    ensures RunFrom(s, restored, model, ws, i).state.phase in {Implement, Done}
    decreases MAX_ITERATIONS - i
  {
    if i == MAX_ITERATIONS {
    } else {
      var (s', r) := Step(s, restored, model, ws(i));
      if i == k {
        assert StateAt(s, restored, model, ws, i, i + 1) == s';
        ImplementKeepsPlan(s', NextRestored(s, restored), model, ws, i + 1);
      } else {
        ApprovedRunImplements(s', NextRestored(s, restored), model, ws, i + 1, k, p);
      }
    }
  }

  /** A call with an approval starts before the implement phase and ends in it, or past it. */
  lemma ApprovingCall(s: TaskState, model: string, c: Call, p: string)
    requires ApprovedIn(s, model, c, p)
    ensures s.phase !in {Implement, Done} && AfterCall(s, model, c).phase in {Implement, Done}
  {
    var (restored, ws) := if c.PlainRun? then (c.restored, c.ws) else (c.attempts(1).restored, c.attempts(1).runs);
    var k: nat :| ApprovedAt(Started(s), restored, model, ws, 0, k, p);
    OneApprovalPerRun(Started(s), restored, model, ws, 0, k, p, k, p);
    ApprovedRunImplements(Started(s), restored, model, ws, 0, k, p);
    if c.ReviewLoop? {
      LoopAddsFeedback(s, model, c.maxLoops, c.attempts, 1);
    }
  }

  ghost predicate PastPlanning(s: TaskState) {
    s.phase in {Implement, Done}
  }

  lemma CallStaysPast(s: TaskState, model: string, c: Call, after: TaskState)
    requires PastPlanning(s) && after == AfterCall(s, model, c)
    ensures PastPlanning(after)
  {
    CallExtendsPlan(s, model, c);
  }

  lemma {:induction false} StaysImplemented(s: TaskState, model: string, calls: seq<Call>, j: nat)
    requires j <= |calls| && PastPlanning(AfterCalls(s, model, calls[..j]))
    ensures PastPlanning(AfterCalls(s, model, calls))
    decreases |calls|
  {
    if j == |calls| {
      assert calls[..j] == calls;
    } else {
      var n := |calls| - 1;
      var before := calls[..n];
      assert before[..j] == calls[..j];
      StaysImplemented(s, model, before, j);
      CallStaysPast(AfterCalls(s, model, before), model, calls[n], AfterCalls(s, model, calls));
    }
  }

  lemma OneApprovalPerCall(s: TaskState, model: string, c: Call, p: string, q: string)
    requires ApprovedIn(s, model, c, p) && ApprovedIn(s, model, c, q)
    ensures p == q
  {
    var (restored, ws) := if c.PlainRun? then (c.restored, c.ws) else (c.attempts(1).restored, c.attempts(1).runs);
    var k: nat :| ApprovedAt(Started(s), restored, model, ws, 0, k, p);
    var l: nat :| ApprovedAt(Started(s), restored, model, ws, 0, l, q);
    OneApprovalPerRun(Started(s), restored, model, ws, 0, k, p, l, q);
  }

  /** A task's plan is approved in at most one of its calls, once. */
  lemma OneApproval(s: TaskState, model: string, calls: seq<Call>, j: nat, p: string, m: nat, q: string)
    requires j <= m < |calls|
    requires ApprovedIn(AfterCalls(s, model, calls[..j]), model, calls[j], p)
    requires ApprovedIn(AfterCalls(s, model, calls[..m]), model, calls[m], q)
    ensures j == m && p == q
  {
    if j < m {
      ApprovingCall(AfterCalls(s, model, calls[..j]), model, calls[j], p);
      assert calls[..j + 1][..j] == calls[..j] && calls[..j + 1][j] == calls[j];
      assert calls[..m][..j + 1] == calls[..j + 1];
      StaysImplemented(s, model, calls[..m], j + 1);
      ApprovingCall(AfterCalls(s, model, calls[..m]), model, calls[m], q);
    } else {
      OneApprovalPerCall(AfterCalls(s, model, calls[..m]), model, calls[m], p, q);
    }
  }

  // ---------- Progress and bounds ----------

  function Rank(p: Phase): nat {
    match p
    case Unset => 0
    case Understand => 1
    case Clarify => 2
    case Plan => 3
    case Implement => 4
    case Done => 5
    case Unknown(_) => 6
  }

  /** Every step after which the loop continues, or finishes, moves to a later phase or uses up a redirect. */
  lemma ContinuingStepAdvances(s: TaskState, restored: string, model: string, w: Script)
    requires Step(s, restored, model, w).1.PhaseDone? || Step(s, restored, model, w).1.Restarted?
    ensures
      var s' := Step(s, restored, model, w).0;
      || Rank(s'.phase) > Rank(s.phase)
      || (s'.phase == s.phase == Plan && s'.redirects == s.redirects + 1 < MAX_REDIRECTS)
  {
    if s.phase == Clarify {
      ClarifyEffect(s, 0, w);
    }
  }

  /** Collaborators that succeed and never make the task wait; the reviewer may still redirect. */
  ghost predicate Helpful(w: Script) {
    && Analysed(w.analyses).Some? && w.plan.Parsed? && !w.review.ReviewFailed? && w.implement.Implemented?
    && (forall k :: w.saves(k))
    && (forall k :: w.escalate(k).Ok? && w.escalate(k).result.resolved && !w.escalate(k).result.needsHuman)
  }

  ghost predicate HelpfulScripts(ws: Scripts) {
    forall i: nat :: Helpful(ws(i))
  }

  /** The longest way to go with helpful collaborators, in phases. */
  function Potential(s: TaskState): int {
    match s.phase
    case Understand => 6
    case Clarify => 5
    case Plan => 4 - s.redirects
    case Implement => 1
    case _ => 0
  }

  ghost predicate OnTheWay(s: TaskState) {
    s.phase in {Understand, Clarify, Plan, Implement} && 0 <= s.redirects < MAX_REDIRECTS && (s.phase in {Understand, Clarify} ==> s.redirects == 0)
  }

  lemma {:induction false} HelpfulClarify(s: TaskState, i: nat, w: Script)
    requires i <= |s.questions| && Helpful(w)
    ensures ClarifyFrom(s, i, w).1 == PhaseDone(None)
    ensures ClarifyFrom(s, i, w).0.phase == Plan && ClarifyFrom(s, i, w).0.redirects == s.redirects
    decreases |s.questions| - i
  {
    if i == |s.questions| {
    } else {
      var q := s.questions[i];
      if q.resolved {
        HelpfulClarify(s, i + 1, w);
      } else {
        HelpfulClarify(s.(questions := s.questions[i := Answer(q, w.escalate(i).result)]), i + 1, w);
      }
    }
  }

  lemma HelpfulStep(s: TaskState, restored: string, model: string, w: Script)
    requires OnTheWay(s) && Helpful(w)
    ensures
      var (s', r) := Step(s, restored, model, w);
      || (r.PhaseDone? && r.result.Some?)
      || r == PhaseFailed(PlanRejected)
      || ((r == PhaseDone(None) || r.Restarted?) && OnTheWay(s') && Potential(s') < Potential(s))
  {
    if s.phase == Clarify {
      HelpfulClarify(s, 0, w);
    }
  }

  /** A helpful run finishes, is rejected for good, or is cut off after four phases with less to go. */
  lemma {:induction false} HelpfulRun(s: TaskState, restored: string, model: string, ws: Scripts, i: nat)
    requires i <= MAX_ITERATIONS && OnTheWay(s) && HelpfulScripts(ws)
    ensures
      var run := RunFrom(s, restored, model, ws, i);
      if run.outcome == Aborted(LoopExceeded) then
        run.steps == MAX_ITERATIONS && OnTheWay(run.state) && Potential(run.state) <= Potential(s) - (MAX_ITERATIONS - i)
      else
        (run.outcome.Finished? || run.outcome == Aborted(PlanRejected)) && i < run.steps <= i + Potential(s)
    decreases MAX_ITERATIONS - i
  {
    if i == MAX_ITERATIONS {
    } else {
      HelpfulStep(s, restored, model, ws(i));
      var (s', r) := Step(s, restored, model, ws(i));
      if r == PhaseDone(None) || r.Restarted? {
        HelpfulRun(s', NextRestored(s, restored), model, ws, i + 1);
      }
    }
  }

  /** From a fresh task, with helpful collaborators, at most two runs and six phases lead to Done or to the
      third plan rejection. */
  lemma TwoRunsSuffice(s: TaskState, model: string, cp1: string, ws1: Scripts, cp2: string, ws2: Scripts)
    requires FreshTask(s) && HelpfulScripts(ws1) && HelpfulScripts(ws2)
    ensures
      var run1 := RunTask(s, cp1, model, ws1);
      var run2 := RunTask(run1.state, cp2, model, ws2);
      || ((run1.outcome.Finished? || run1.outcome == Aborted(PlanRejected)) && run1.steps <= 4)
      || (&& run1.outcome == Aborted(LoopExceeded)
          && (run2.outcome.Finished? || run2.outcome == Aborted(PlanRejected))
          && run1.steps + run2.steps <= 6)
  {
    HelpfulRun(Started(s), cp1, model, ws1, 0);
    RunStepsBound(Started(s), cp1, model, ws1, 0);
    var run1 := RunTask(s, cp1, model, ws1);
    if run1.outcome == Aborted(LoopExceeded) {
      HelpfulRun(run1.state, cp2, model, ws2, 0);
    }
  }

  /** The bound is reached: two rejections use up the first run, the second run replans and implements. */
  lemma SixPhasesHappen(s: TaskState, model: string) returns (ws1: Scripts, ws2: Scripts)
    requires FreshTask(s)
    ensures HelpfulScripts(ws1) && HelpfulScripts(ws2)
    ensures
      var run1 := RunTask(s, "", model, ws1);
      var run2 := RunTask(run1.state, "", model, ws2);
      run1.outcome == Aborted(LoopExceeded) && run2.outcome.Finished? && run1.steps + run2.steps == 6
  {
    var result := TaskResult("out", 1, 1, 0.0);
    var script := (review: Review) =>
      Script(_ => Parsed(Analysis("u", ["q"])), _ => ResolvedBy("a", SONNET), Parsed("p"), review, Implemented(result), _ => true);
    ws1, ws2 := _ => script(Redirected), _ => script(Approved);
    var s1, s2 := Started(s), Step(Started(s), "", model, ws1(0)).0;
    HelpfulClarify(s2, 0, ws1(1));
    var s3 := ClarifyFrom(s2, 0, ws1(1)).0;
    var s4 := PlanStep(s3, model, ws1(2)).0;
    var s5 := PlanStep(s4, model, ws1(3)).0;
    assert RunFrom(s5, "", model, ws1, 4) == Run(s5, Aborted(LoopExceeded), 4);
    assert RunFrom(s4, "", model, ws1, 3) == Run(s5, Aborted(LoopExceeded), 4);
    assert RunFrom(s3, "", model, ws1, 2) == Run(s5, Aborted(LoopExceeded), 4);
    assert RunFrom(s2, "", model, ws1, 1) == Run(s5, Aborted(LoopExceeded), 4);
  }

  // ---------- Exactly how long a run goes on ----------

  /** The loop gives up after four phases. */
  lemma {:induction false} CutOffAfterFour(s: TaskState, restored: string, model: string, ws: Scripts, i: nat)
    requires i <= MAX_ITERATIONS
    ensures RunFrom(s, restored, model, ws, i).outcome == Aborted(LoopExceeded) ==> RunFrom(s, restored, model, ws, i).steps == 4
    decreases MAX_ITERATIONS - i
  {
    if i == MAX_ITERATIONS {
    } else {
      if s.phase == Clarify {
        ClarifyEffect(s, 0, ws(i));
      }
      var s' := Step(s, restored, model, ws(i)).0;
      CutOffAfterFour(s', NextRestored(s, restored), model, ws, i + 1);
    }
  }

  /** The phases to go from the plan phase on, when iteration `i` is next: plans until one is approved, which leaves
      the implementation, or until the third is rejected. */
  function PlanPhases(ws: Scripts, i: nat, rejected: nat): nat
    decreases 3 - rejected
  {
    if ws(i).review == Approved then 2
    else if rejected >= 2 then 1
    else 1 + PlanPhases(ws, i + 1, rejected + 1)
  }

  /** One of the plans to come is approved. */
  predicate SomePlanApproved(ws: Scripts, i: nat, rejected: nat)
    decreases 3 - rejected
  {
    ws(i).review == Approved || (rejected < 2 && SomePlanApproved(ws, i + 1, rejected + 1))
  }

  /** The first analysis that parses asks something. */
  predicate AsksQuestions(w: Script) {
    match w.analyses(0)
    case Parsed(a) => a.questions != []
    case CallFailed => false
    case BadJson => w.analyses(1).Parsed? && w.analyses(1).value.questions != []
  }

  /** A helpful run with `togo` phases ahead of it: it is cut off after the fourth, or ends with the last of them. */
  ghost predicate GoesOn(run: Run, i: nat, togo: nat, approved: bool, ws: Scripts) {
    if i + togo > 4 then run.outcome == Aborted(LoopExceeded) && run.steps == 4
    else
      && run.steps == i + togo && togo > 0
      && if approved then run.outcome.Finished? && ws(i + togo - 1).implement == Implemented(run.outcome.result)
         else run.outcome == Aborted(PlanRejected)
  }

  lemma ImplementRun(s: TaskState, restored: string, model: string, ws: Scripts, i: nat)
    requires i <= 4 && s.phase == Implement && Helpful(ws(i))
    ensures GoesOn(RunFrom(s, restored, model, ws, i), i, 1, true, ws)
  {
  }

  lemma {:induction false} PlanRun(s: TaskState, restored: string, model: string, ws: Scripts, i: nat)
    requires i <= 4 && s.phase == Plan && 0 <= s.redirects <= 2 && HelpfulScripts(ws)
    ensures GoesOn(RunFrom(s, restored, model, ws, i), i, PlanPhases(ws, i, s.redirects), SomePlanApproved(ws, i, s.redirects), ws)
    decreases 3 - s.redirects
  {
    assert Helpful(ws(i));
    if i == 4 {
    } else {
      var (s', r) := Step(s, restored, model, ws(i));
      if ws(i).review == Approved {
        assert Helpful(ws(i + 1));
        ImplementRun(s', "", model, ws, i + 1);
      } else if s.redirects < 2 {
        PlanRun(s', "", model, ws, i + 1);
      }
    }
  }

  /** The phases a fresh task takes with helpful collaborators. */
  function PhasesToGo(ws: Scripts): nat {
    if AsksQuestions(ws(0)) then 2 + PlanPhases(ws, 2, 0) else 1 + PlanPhases(ws, 1, 0)
  }

  predicate PlanAccepted(ws: Scripts) {
    SomePlanApproved(ws, if AsksQuestions(ws(0)) then 2 else 1, 0)
  }

  /** Exactly how the first run of a fresh task with helpful collaborators ends: it is cut off when there are more than
      four phases to go, and otherwise takes them all, to the implementation's result or the third rejection. */
  lemma FirstRun(s: TaskState, cp: string, model: string, ws: Scripts)
    requires FreshTask(s) && HelpfulScripts(ws)
    ensures GoesOn(RunTask(s, cp, model, ws), 0, PhasesToGo(ws), PlanAccepted(ws), ws)
  {
    assert Helpful(ws(0)) && Helpful(ws(1));
    var s1 := Step(Started(s), cp, model, ws(0)).0;
    if AsksQuestions(ws(0)) {
      HelpfulClarify(s1, 0, ws(1));
      var s2 := ClarifyFrom(s1, 0, ws(1)).0;
      PlanRun(s2, NextRestored(s1, ""), model, ws, 2);
      assert RunFrom(s1, "", model, ws, 1) == RunFrom(s2, NextRestored(s1, ""), model, ws, 2);
    } else {
      PlanRun(s1, "", model, ws, 1);
    }
  }

  /** In particular an ordinary task finishes in its first run: in four phases with questions, in three without. */
  lemma OrdinaryTaskFinishes(s: TaskState, cp: string, model: string, ws: Scripts)
    requires FreshTask(s) && HelpfulScripts(ws) && ws(if AsksQuestions(ws(0)) then 2 else 1).review == Approved
    ensures
      var run := RunTask(s, cp, model, ws);
      run.outcome.Finished? && run.state.phase == Done && run.steps == if AsksQuestions(ws(0)) then 4 else 3
  {
    FirstRun(s, cp, model, ws);
    FinishedMeansDone(Started(s), cp, model, ws, 0);
  }

  /** A task that is done is not run again. */
  lemma DoneStaysDone(s: TaskState, cp: string, model: string, ws: Scripts)
    requires s.phase == Done
    ensures RunTask(s, cp, model, ws) == Run(s, Aborted(AlreadyDone), 1)
  {
  }

  // ---------- What the phases write down ----------

  /** The analysis is the first reply if it parses, or the second if the first came but did not parse. */
  lemma AnalysisIsFirstParsed(replies: nat -> Json<Analysis>, a: Analysis)
    ensures Analysed(replies) == Some(a) <==> replies(0) == Parsed(a) || (replies(0) == BadJson && replies(1) == Parsed(a))
  {
  }

  /** Understanding appends each question asked, open and unanswered, and goes on to clarify exactly when there is one;
      a failed analysis leaves the task in its phase, with the understanding of the checkpoint if that has one. */
  lemma UnderstandRecords(s: TaskState, restored: string, w: Script)
    requires s.phase == Understand
    ensures
      var (s', r) := UnderstandStep(s, restored, w);
      match Analysed(w.analyses)
      case Some(a) =>
        var m := |s.questions|;
        && s'.understanding == a.understanding && |s'.questions| == m + |a.questions| && s'.questions[..m] == s.questions
        && (forall k :: 0 <= k < |a.questions| ==>
              var q := s'.questions[m + k];
              q.text == a.questions[k] && q.id == k && !q.resolved && q.answer == "" && q.answeredBy == "")
        && s'.phase == (if a.questions == [] then Plan else Clarify)
        && (r == PhaseDone(None) <==> w.saves(0))
      case None =>
        r == PhaseFailed(Collaborator) && s' == s.(understanding := if restored == "" then s.understanding else restored)
  {
  }

  /** A clarify phase that goes on to the plan has written each answer, and who gave it, to the question it answers;
      everything else about the questions is as before. */
  lemma ClarifyRecords(s: TaskState, w: Script, k: nat)
    requires s.phase == Clarify && ClarifyFrom(s, 0, w).0.phase == Plan && k < |s.questions|
    ensures |ClarifyFrom(s, 0, w).0.questions| == |s.questions|
    ensures
      var q, q' := s.questions[k], ClarifyFrom(s, 0, w).0.questions[k];
      && q'.id == q.id && q'.text == q.text
      && (if !q.resolved && w.escalate(k).Ok? && w.escalate(k).result.resolved then
            q'.resolved && q'.answer == w.escalate(k).result.answer && q'.answeredBy == w.escalate(k).result.answeredBy
          else q' == q)
  {
    ClarifyEffect(s, 0, w);
  }

  /** A third rejection ends the run and keeps the plan; an earlier one clears it for the next attempt. */
  lemma RejectionsCount(s: TaskState, model: string, w: Script)
    requires s.phase == Plan && w.plan.Parsed? && w.review == Redirected
    ensures
      var (s', r) := PlanStep(s, model, w);
      && s'.phase == Plan && s'.redirects == s.redirects + 1 && s'.questions == s.questions && s'.understanding == s.understanding
      && (if s.redirects >= 2 then r == PhaseFailed(PlanRejected) && s'.plan == w.plan.value
          else s'.plan == "" && (r == Restarted <==> w.saves(0)))
  {
  }

  /** The reply to question `k`, if it is open, does not stop the clarify loop. */
  predicate Passes(s: TaskState, w: Script, k: nat)
    requires k < |s.questions|
  {
    s.questions[k].resolved || (w.escalate(k).Ok? && !w.escalate(k).result.needsHuman)
  }

  /** With saves that succeed, the first open question whose reply is not an answer decides: a wait for the human
      suspends the task, an error fails the phase; without one the phase is done. */
  lemma {:induction false} ClarifyEnds(s: TaskState, i: nat, w: Script, k: nat)
    requires i <= k <= |s.questions| && (forall j :: w.saves(j)) && forall j :: i <= j < k ==> Passes(s, w, j)
    requires k < |s.questions| ==> !Passes(s, w, k)
    ensures ClarifyFrom(s, i, w).1 ==
      if k == |s.questions| then PhaseDone(None)
      else if w.escalate(k).Error? then PhaseFailed(Collaborator)
      else Suspended
    decreases k - i
  {
    if i == k {
    } else {
      var q := s.questions[i];
      assert Passes(s, w, i);
      if !q.resolved && w.escalate(i).result.resolved {
        var s' := s.(questions := s.questions[i := Answer(q, w.escalate(i).result)]);
        assert forall j :: i < j < |s.questions| ==> (Passes(s', w, j) <==> Passes(s, w, j));
        ClarifyEnds(s', i + 1, w, k);
      } else {
        ClarifyEnds(s, i + 1, w, k);
      }
    }
  }

  lemma {:induction false} UnsavedClarify(s: TaskState, i: nat, w: Script)
    requires i <= |s.questions| && forall k :: !w.saves(k)
    ensures ClarifyFrom(s, i, w).1.PhaseFailed? || ClarifyFrom(s, i, w).1.Suspended?
    decreases |s.questions| - i
  {
    if i == |s.questions| {
    } else {
      UnsavedClarify(s, i + 1, w);
    }
  }

  /** A phase that could not save the task fails. */
  lemma UnsavedIsNotDone(s: TaskState, restored: string, model: string, w: Script)
    requires forall k :: !w.saves(k)
    ensures var r := Step(s, restored, model, w).1; r.PhaseFailed? || r.Suspended?
  {
    if s.phase == Clarify {
      UnsavedClarify(s, 0, w);
    }
  }

  /** A failed model call leaves the task as it was, up to a plan already written. */
  lemma FailedCallsKeep(s: TaskState, model: string, w: Script)
    ensures w.implement.ImplFailed? ==> ImplementStep(s, w) == (s, PhaseFailed(Collaborator))
    ensures !w.plan.Parsed? ==> PlanStep(s, model, w) == (s, PhaseFailed(Collaborator))
    ensures w.plan.Parsed? && w.review.ReviewFailed? ==>
      PlanStep(s, model, w) == (s.(plan := w.plan.value), PhaseFailed(Collaborator))
  {
  }

  lemma {:induction false} DeliveredPaysLast(s: TaskState, model: string, maxLoops: nat, ws: nat -> AttemptScript, attempt: nat)
    ensures LoopFrom(s, model, maxLoops, ws, attempt).outcome.Delivered? ==> LoopFrom(s, model, maxLoops, ws, attempt).paid != []
    decreases maxLoops + 1 - attempt
  {
  }

  /** What one attempt of a review loop comes to: a run that does not finish ends the loop; else the reviewer's approval
      delivers its result, a failed review or save ends the loop too, and guidance leads to the next attempt. */
  lemma AttemptEnds(s: TaskState, model: string, maxLoops: nat, ws: nat -> AttemptScript, attempt: nat)
    requires attempt <= maxLoops
    ensures
      var w := ws(attempt);
      var run := RunTask(s, w.restored, model, w.runs);
      var loop := LoopFrom(s, model, maxLoops, ws, attempt);
      && (!run.outcome.Finished? ==> loop.outcome == RunFailed(run.outcome) && loop.state == run.state)
      && (run.outcome.Finished? && w.review == LoopApproved ==>
            loop.outcome == Delivered(run.outcome.result) && loop.state == run.state)
      && (run.outcome.Finished? && w.review == LoopReviewFailed ==> loop.outcome == ReviewCallFailed && loop.state == run.state)
      && (run.outcome.Finished? && w.review.Improve? && !w.saved ==> loop.outcome == SaveFailed)
      && (run.outcome.Finished? && w.review.Improve? && w.saved && attempt == maxLoops ==> loop.outcome == NotApproved)
  {
  }

  /** A review loop delivers exactly what its reviewer approved: the last attempt was approved, and each earlier one was
      sent back, saved and run again. */
  lemma {:induction false} DeliveredWasApproved(s: TaskState, model: string, maxLoops: nat, ws: nat -> AttemptScript, attempt: nat, k: nat)
    requires var loop := LoopFrom(s, model, maxLoops, ws, attempt); loop.outcome.Delivered? && k < |loop.paid|
    ensures
      var loop := LoopFrom(s, model, maxLoops, ws, attempt);
      if k == |loop.paid| - 1 then ws(attempt + k).review.LoopApproved? && loop.outcome.result == loop.paid[k]
      else ws(attempt + k).review.Improve? && ws(attempt + k).saved
    decreases k
  {
    var w := ws(attempt);
    var run := RunTask(s, w.restored, model, w.runs);
    if w.review.Improve? && k > 0 {
      DeliveredWasApproved(Rewound(run.state, attempt, w.review.guidance), model, maxLoops, ws, attempt + 1, k - 1);
    } else if w.review.Improve? {
      var s' := Rewound(run.state, attempt, w.review.guidance);
      DeliveredPaysLast(s', model, maxLoops, ws, attempt + 1);
    }
  }

  // ---------- What a run and a review loop cost ----------

  /** Only a step that delivers a result, or fails after implementing, changes the counters. */
  lemma StepLedger(s: TaskState, restored: string, model: string, w: Script)
    requires !Step(s, restored, model, w).1.PhaseFailed?
    ensures
      var (s', r) := Step(s, restored, model, w);
      if r.PhaseDone? && r.result.Some? then
        && s'.inputTokens == s.inputTokens + r.result.value.inputTokens
        && s'.outputTokens == s.outputTokens + r.result.value.outputTokens
        && s'.cost == s.cost + r.result.value.cost
      else s'.inputTokens == s.inputTokens && s'.outputTokens == s.outputTokens && s'.cost == s.cost
  {
    if s.phase == Clarify {
      ClarifyEffect(s, 0, w);
    }
  }

  /** Tokens and cost grow by exactly the delivered result. */
  lemma {:induction false} RunLedger(s: TaskState, restored: string, model: string, ws: Scripts, i: nat)
    requires i <= MAX_ITERATIONS
    ensures
      var run := RunFrom(s, restored, model, ws, i);
      run.outcome.Finished? ==>
        && run.state.inputTokens == s.inputTokens + run.outcome.result.inputTokens
        && run.state.outputTokens == s.outputTokens + run.outcome.result.outputTokens
        && run.state.cost == s.cost + run.outcome.result.cost
    decreases MAX_ITERATIONS - i
  {
    if i == MAX_ITERATIONS {
    } else {
      var (s', r) := Step(s, restored, model, ws(i));
      if !r.PhaseFailed? {
        StepLedger(s, restored, model, ws(i));
      }
      RunLedger(s', NextRestored(s, restored), model, ws, i + 1);
    }
  }

  function InputSum(rs: seq<TaskResult>): int {
    if rs == [] then 0 else rs[0].inputTokens + InputSum(rs[1..])
  }

  function OutputSum(rs: seq<TaskResult>): int {
    if rs == [] then 0 else rs[0].outputTokens + OutputSum(rs[1..])
  }

  function CostSum(rs: seq<TaskResult>): real {
    if rs == [] then 0.0 else rs[0].cost + CostSum(rs[1..])
  }

  /** Under the review loop the task's counters grow by the sum of all attempts' results, unless the last
      run failed; at most `maxLoops` results are produced; and the delivered one is the last and the task's output. */
  lemma {:induction false} LoopLedger(s: TaskState, model: string, maxLoops: nat, ws: nat -> AttemptScript, attempt: nat)
    requires attempt >= 1
    ensures
      var loop := LoopFrom(s, model, maxLoops, ws, attempt);
      && (attempt <= maxLoops + 1 ==> |loop.paid| <= maxLoops + 1 - attempt)
      && (loop.outcome.NotApproved? && attempt <= maxLoops + 1 ==> |loop.paid| == maxLoops + 1 - attempt)
      && (!loop.outcome.RunFailed? ==>
            && loop.state.inputTokens == s.inputTokens + InputSum(loop.paid)
            && loop.state.outputTokens == s.outputTokens + OutputSum(loop.paid)
            && loop.state.cost == s.cost + CostSum(loop.paid))
      && (loop.outcome.Delivered? ==>
            && loop.state.phase == Done && loop.paid != [] && loop.paid[|loop.paid| - 1] == loop.outcome.result
            && loop.state.output == loop.outcome.result.output)
    decreases maxLoops + 1 - attempt
  {
    if attempt > maxLoops {
    } else {
      var w := ws(attempt);
      RunLedger(Started(s), w.restored, model, w.runs, 0);
      FinishedMeansDone(Started(s), w.restored, model, w.runs, 0);
      var run := RunTask(s, w.restored, model, w.runs);
      if run.outcome.Finished? {
        var r := run.outcome.result;
        assert [r][1..] == [];
        if w.review.Improve? && w.saved {
          var s' := Rewound(run.state, attempt, w.review.guidance);
          LoopLedger(s', model, maxLoops, ws, attempt + 1);
          var rest := LoopFrom(s', model, maxLoops, ws, attempt + 1);
          assert ([r] + rest.paid)[1..] == rest.paid;
        }
      }
    }
  }

  /** Every attempt after the first executes one phase, and the first at most four. */
  lemma {:induction false} RewindsOnlyImplement(s: TaskState, model: string, maxLoops: nat, ws: nat -> AttemptScript, attempt: nat)
    ensures
      var steps := LoopFrom(s, model, maxLoops, ws, attempt).steps;
      && (attempt <= maxLoops ==> 0 < |steps| <= maxLoops + 1 - attempt && steps[0] <= MAX_ITERATIONS)
      && (forall k :: 0 < k < |steps| ==> steps[k] == 1)
      && (s.phase == Implement && steps != [] ==> steps[0] == 1)
    decreases maxLoops + 1 - attempt
  {
    if attempt > maxLoops {
    } else {
      var w := ws(attempt);
      RunStepsBound(Started(s), w.restored, model, w.runs, 0);
      var run := RunTask(s, w.restored, model, w.runs);
      if s.phase == Implement {
        assert run.steps == 1;
      }
      if run.outcome.Finished? && w.review.Improve? && w.saved {
        var s' := Rewound(run.state, attempt, w.review.guidance);
        RewindsOnlyImplement(s', model, maxLoops, ws, attempt + 1);
        var rest := LoopFrom(s', model, maxLoops, ws, attempt + 1).steps;
        assert forall k :: 0 < k < |rest| + 1 ==> ([run.steps] + rest)[k] == rest[k - 1];
      }
    }
  }
}
