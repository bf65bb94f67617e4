/** Waiting for task results (`internal/infra/task/waiter.go`): every interleaving of registrations, event
    handlers, waits, cancellations and Stop. */
module Waiter {
  import opened Text

  datatype Result = Completed(output: string) | TaskFailed(reason: string) | WaiterStopped

  /** A call of RegisterAndWait: turned away, waiting, holding a received result or a cancellation before its
      deferred clean-up, or finished. */
  datatype Progress = Rejected | Waiting | Received(result: Result) | Cancelled | Returned(outcome: Option<Result>)

  /** `buffer` is the channel's one slot; `first` remembers the first result ever sent to it. */
  datatype Call = Call(task: string, progress: Progress, buffer: Option<Result>, first: Option<Result>)

  /** A handler that looked up a channel and has yet to send to it. */
  datatype Delivery = Delivery(call: nat, result: Result)

  datatype Sys = Sys(waiters: map<string, nat>, closed: bool, calls: seq<Call>, pending: multiset<Delivery>)

  datatype Action =
    | Register(task: string)
    | Lookup(task: string, result: Result)
    | Deliver(d: Delivery)
    | Receive(call: nat)
    | Cancel(call: nat)
    | CleanUp(call: nat)
    | Stop

  const INITIAL := Sys(map[], false, [], multiset{})

  predicate Is(s: Sys, id: nat, p: Progress) {
    id < |s.calls| && s.calls[id].progress == p
  }

  predicate Enabled(s: Sys, a: Action) {
    match a
    case Register(_) => true
    case Lookup(_, _) => true
    case Deliver(d) => d in s.pending && d.call < |s.calls|
    case Receive(id) => Is(s, id, Waiting) && s.calls[id].buffer.Some?
    case Cancel(id) => Is(s, id, Waiting)
    case CleanUp(id) => Is(s, id, Cancelled) || (id < |s.calls| && s.calls[id].progress.Received?)
    case Stop => true
  }

  /** A send that gives up on a full buffer. */
  function TrySend(c: Call, r: Result): Call {
    if c.buffer.Some? then c else c.(buffer := Some(r), first := if c.first.Some? then c.first else Some(r))
  }

  function Apply(s: Sys, a: Action): Sys
    requires Enabled(s, a)
  {
    match a
    case Register(t) =>
      if s.closed then s.(calls := s.calls + [Call(t, Rejected, None, None)])
      else s.(calls := s.calls + [Call(t, Waiting, None, None)], waiters := s.waiters[t := |s.calls|])
    case Lookup(t, r) =>
      if t in s.waiters then s.(pending := s.pending + multiset{Delivery(s.waiters[t], r)}) else s
    case Deliver(d) =>
      s.(calls := s.calls[d.call := TrySend(s.calls[d.call], d.result)], pending := s.pending - multiset{d})
    case Receive(id) =>
      s.(calls := s.calls[id := s.calls[id].(progress := Received(s.calls[id].buffer.value), buffer := None)])
    case Cancel(id) => s.(calls := s.calls[id := s.calls[id].(progress := Cancelled)])
    case CleanUp(id) =>
      var c := s.calls[id];
      var outcome := if c.progress.Received? then Some(c.progress.result) else None;
      s.(calls := s.calls[id := c.(progress := Returned(outcome))], waiters := s.waiters - {c.task})
    case Stop =>
      s.(closed := true,
         calls := seq(|s.calls|, i requires 0 <= i < |s.calls| =>
           if s.calls[i].task in s.waiters && s.waiters[s.calls[i].task] == i then TrySend(s.calls[i], WaiterStopped)
           else s.calls[i]))
  }

  ghost predicate StepAt(acts: seq<Action>, trace: seq<Sys>, i: nat)
    requires i < |acts| && |trace| == |acts| + 1
  {
    Enabled(trace[i], acts[i]) && trace[i + 1] == Apply(trace[i], acts[i])
  }

  /** Nobody registers a task that is being waited for. */
  predicate NewTask(s: Sys, a: Action) {
    a.Register? ==> s.closed || a.task !in s.waiters
  }

  /** `trace` lists the states from `s` on, each reached from the previous by the next action. */
  ghost predicate Continues(s: Sys, acts: seq<Action>, trace: seq<Sys>) {
    && |trace| == |acts| + 1 && trace[0] == s
    && forall i :: 0 <= i < |acts| ==> StepAt(acts, trace, i)
  }

  ghost predicate IsRun(acts: seq<Action>, trace: seq<Sys>) {
    Continues(INITIAL, acts, trace)
  }

  ghost predicate DistinctWaits(acts: seq<Action>, trace: seq<Sys>) {
    |trace| == |acts| + 1 && forall i {:trigger acts[i]} :: 0 <= i < |acts| ==> NewTask(trace[i], acts[i])
  }

  // ---------- What always holds ----------

  /** Between registration and clean-up. */
  predicate Live(p: Progress) {
    p.Waiting? || p.Received? || p.Cancelled?
  }

  /** The call's slot and result agree with the first thing sent, and a stopped waiter leaves nobody blocked. */
  ghost predicate CallOk(s: Sys, id: nat)
    requires id < |s.calls|
  {
    var c := s.calls[id];
    && (Live(c.progress) <==> c.task in s.waiters && s.waiters[c.task] == id)
    && (c.progress.Waiting? ==> c.buffer == c.first)
    && (c.progress.Received? ==> c.first == Some(c.progress.result))
    && (c.progress.Returned? && c.progress.outcome.Some? ==> c.first == c.progress.outcome)
    && (s.closed && c.progress.Waiting? ==> c.buffer.Some?)
  }

  ghost predicate Inv(s: Sys) {
    && (forall id :: 0 <= id < |s.calls| ==> CallOk(s, id))
    && (forall t :: t in s.waiters ==> s.waiters[t] < |s.calls| && s.calls[s.waiters[t]].task == t)
    && (forall d :: d in s.pending ==> d.call < |s.calls|)
  }

  /** A registration keeps this exactly when the task is not being waited for, or the waiter is stopped. */
  lemma RegisterInvIff(s: Sys, t: string)
    requires Inv(s)
    ensures Inv(Apply(s, Register(t))) <==> NewTask(s, Register(t))
  {
    var s' := Apply(s, Register(t));
    if NewTask(s, Register(t)) {
      forall id | 0 <= id < |s'.calls|
        ensures CallOk(s', id)
      {
        if id < |s.calls| {
          assert CallOk(s, id);
        }
      }
    } else {
      var id := s.waiters[t];
      assert CallOk(s, id) && !CallOk(s', id);
    }
  }

  lemma StopKeepsInv(s: Sys)
    requires Inv(s)
    ensures Inv(Apply(s, Stop))
  {
    var s' := Apply(s, Stop);
    forall id | 0 <= id < |s'.calls|
      ensures CallOk(s', id)
    {
      assert CallOk(s, id);
    }
  }

  /** The steps that touch one call. */
  lemma CallStepKeepsInv(s: Sys, a: Action)
    requires Inv(s) && Enabled(s, a) && (a.Deliver? || a.Receive? || a.Cancel? || a.CleanUp?)
    ensures Inv(Apply(s, a))
  {
    var s' := Apply(s, a);
    var it := if a.Deliver? then a.d.call else a.call;
    assert CallOk(s, it);
    assert s'.calls == s.calls[it := s'.calls[it]] && s'.calls[it].task == s.calls[it].task;
    forall id | 0 <= id < |s'.calls|
      ensures CallOk(s', id)
    {
      assert CallOk(s, id);
    }
  }

  lemma StepKeepsInv(s: Sys, a: Action)
    requires Inv(s) && Enabled(s, a) && NewTask(s, a)
    ensures Inv(Apply(s, a))
  {
    match a
    case Register(t) => RegisterInvIff(s, t);
    case Stop => StopKeepsInv(s);
    case Lookup(t, r) =>
      forall id | 0 <= id < |s.calls|
        ensures CallOk(Apply(s, a), id)
      {
        assert CallOk(s, id);
      }
    case _ => CallStepKeepsInv(s, a);
  }

  lemma {:induction false} ContinuesInv(s: Sys, acts: seq<Action>, trace: seq<Sys>, n: nat)
    requires Inv(s) && Continues(s, acts, trace) && DistinctWaits(acts, trace) && n < |trace|
    ensures Inv(trace[n])
  {
    if n == 0 {
    } else {
      ContinuesInv(s, acts, trace, n - 1);
      assert StepAt(acts, trace, n - 1);
      assert NewTask(trace[n - 1], acts[n - 1]);
      StepKeepsInv(trace[n - 1], acts[n - 1]);
    }
  }

  lemma AlwaysInv(acts: seq<Action>, trace: seq<Sys>, n: nat)
    requires IsRun(acts, trace) && DistinctWaits(acts, trace) && n < |trace|
    ensures Inv(trace[n])
  {
    ContinuesInv(INITIAL, acts, trace, n);
  }

  /** What a call returns is the first result sent to its channel. */
  lemma FirstSentIsReturned(acts: seq<Action>, trace: seq<Sys>, n: nat, id: nat)
    requires IsRun(acts, trace) && DistinctWaits(acts, trace) && n < |trace| && id < |trace[n].calls|
    requires trace[n].calls[id].progress.Returned? && trace[n].calls[id].progress.outcome.Some?
    ensures trace[n].calls[id].progress.outcome == trace[n].calls[id].first
  {
    AlwaysInv(acts, trace, n);
    assert CallOk(trace[n], id);
  }

  lemma {:induction false} StaysClosed(acts: seq<Action>, trace: seq<Sys>, i: nat, n: nat)
    requires IsRun(acts, trace) && i < n < |trace| && acts[i] == Stop
    ensures trace[n].closed
    decreases n
  {
    assert StepAt(acts, trace, n - 1);
    if n - 1 == i {
    } else {
      StaysClosed(acts, trace, i, n - 1);
    }
  }

  /** After Stop no call can block: whoever still waits finds something in its channel. */
  lemma NobodyBlocksAfterStop(acts: seq<Action>, trace: seq<Sys>, i: nat, n: nat, id: nat)
    requires IsRun(acts, trace) && DistinctWaits(acts, trace) && i < n < |trace| && acts[i] == Stop
    requires Is(trace[n], id, Waiting)
    ensures Enabled(trace[n], Receive(id))
  {
    AlwaysInv(acts, trace, n);
    StaysClosed(acts, trace, i, n);
    assert CallOk(trace[n], id);
  }

  /** Calls keep their task, and a first result once sent stays the first. */
  lemma {:induction false} FirstStays(acts: seq<Action>, trace: seq<Sys>, i: nat, n: nat, id: nat)
    requires IsRun(acts, trace) && i <= n < |trace| && id < |trace[i].calls|
    ensures id < |trace[n].calls| && trace[n].calls[id].task == trace[i].calls[id].task
    ensures trace[i].calls[id].first.Some? ==> trace[n].calls[id].first == trace[i].calls[id].first
    decreases n
  {
    if n == i {
    } else {
      FirstStays(acts, trace, i, n - 1, id);
      assert StepAt(acts, trace, n - 1);
    }
  }

  /** A full buffer means that something was sent. */
  lemma {:induction false} FullMeansSent(acts: seq<Action>, trace: seq<Sys>, n: nat, id: nat)
    requires IsRun(acts, trace) && n < |trace| && id < |trace[n].calls| && trace[n].calls[id].buffer.Some?
    ensures trace[n].calls[id].first.Some?
  {
    if n == 0 {
    } else {
      assert StepAt(acts, trace, n - 1);
      if id < |trace[n - 1].calls| && trace[n - 1].calls[id].buffer.Some? {
        FullMeansSent(acts, trace, n - 1, id);
        FirstStays(acts, trace, n - 1, n, id);
      }
    }
  }

  lemma SendLeavesFirst(acts: seq<Action>, trace: seq<Sys>, j: nat, id: nat)
    requires IsRun(acts, trace) && j < |acts| && id < |trace[j].calls| && acts[j].Deliver? && acts[j].d.call == id
    ensures id < |trace[j + 1].calls| && trace[j + 1].calls[id].first.Some?
  {
    assert StepAt(acts, trace, j);
    if trace[j].calls[id].buffer.Some? {
      FullMeansSent(acts, trace, j, id);
    }
  }

  /** A delivery stays under way until it is made. */
  lemma {:induction false} StillOnItsWay(acts: seq<Action>, trace: seq<Sys>, i: nat, n: nat, d: Delivery)
    requires IsRun(acts, trace) && i <= n < |trace| && d in trace[i].pending && d.call < |trace[i].calls|
    ensures d.call < |trace[n].calls| && (d in trace[n].pending || trace[n].calls[d.call].first.Some?)
    decreases n
  {
    if n == i {
    } else {
      StillOnItsWay(acts, trace, i, n - 1, d);
      assert StepAt(acts, trace, n - 1);
      FirstStays(acts, trace, n - 1, n, d.call);
      if acts[n - 1] == Deliver(d) {
        SendLeavesFirst(acts, trace, n - 1, d.call);
      }
    }
  }

  /** A result handled while the call is registered is never lost: in every later state its delivery to the call's
      channel is still under way, or the channel has had a first result, which a waiting call can receive. */
  lemma HandledIsNeverLost(acts: seq<Action>, trace: seq<Sys>, i: nat, n: nat, id: nat)
    requires IsRun(acts, trace) && DistinctWaits(acts, trace) && i < n < |trace|
    requires Is(trace[i], id, Waiting) && acts[i].Lookup? && acts[i].task == trace[i].calls[id].task
    ensures id < |trace[n].calls|
    ensures Delivery(id, acts[i].result) in trace[n].pending || trace[n].calls[id].first.Some?
    ensures Is(trace[n], id, Waiting) && trace[n].calls[id].first.Some? ==>
      Enabled(trace[n], Receive(id)) && trace[n].calls[id].buffer == trace[n].calls[id].first
  {
    AlwaysInv(acts, trace, i);
    assert StepAt(acts, trace, i) && CallOk(trace[i], id);
    StillOnItsWay(acts, trace, i + 1, n, Delivery(id, acts[i].result));
    AlwaysInv(acts, trace, n);
    assert CallOk(trace[n], id);
  }

  // ---------- Where results come from ----------

  /** One of the first `n` actions handled this result for the task; or it is the notice of Stop. */
  ghost predicate Reported(acts: seq<Action>, n: nat, task: string, r: Result)
    requires n <= |acts|
  {
    if r == WaiterStopped then exists j :: 0 <= j < n && (acts[j] == Stop || acts[j] == Lookup(task, r))
    else exists j :: 0 <= j < n && acts[j] == Lookup(task, r)
  }

  /** The results a call has in its channel, or has received or returned, were reported for its task. */
  ghost predicate CallReported(acts: seq<Action>, n: nat, c: Call)
    requires n <= |acts|
  {
    && (c.buffer.Some? ==> Reported(acts, n, c.task, c.buffer.value))
    && (c.progress.Received? ==> Reported(acts, n, c.task, c.progress.result))
    && (c.progress.Returned? && c.progress.outcome.Some? ==> Reported(acts, n, c.task, c.progress.outcome.value))
  }

  ghost predicate Registered(s: Sys, t: string)
    requires t in s.waiters
  {
    s.waiters[t] < |s.calls| && s.calls[s.waiters[t]].task == t
  }

  ghost predicate DeliveryReported(acts: seq<Action>, n: nat, s: Sys, d: Delivery)
    requires n <= |acts|
  {
    d.call < |s.calls| && Reported(acts, n, s.calls[d.call].task, d.result)
  }

  ghost predicate AllReported(acts: seq<Action>, n: nat, s: Sys)
    requires n <= |acts|
  {
    && (forall t :: t in s.waiters ==> Registered(s, t))
    && (forall d :: d in s.pending ==> DeliveryReported(acts, n, s, d))
    && (forall id :: 0 <= id < |s.calls| ==> CallReported(acts, n, s.calls[id]))
  }

  lemma ReportedLater(acts: seq<Action>, n: nat, task: string, r: Result)
    requires n < |acts| && Reported(acts, n, task, r)
    ensures Reported(acts, n + 1, task, r)
  {
  }

  /** Calls keep their places and tasks. */
  lemma StepKeepsTasks(s: Sys, a: Action)
    requires Enabled(s, a)
    ensures |s.calls| <= |Apply(s, a).calls|
    ensures forall id :: 0 <= id < |s.calls| ==> Apply(s, a).calls[id].task == s.calls[id].task
  {
  }

  lemma OneCallReported(acts: seq<Action>, n: nat, s: Sys, id: nat)
    requires n < |acts| && Enabled(s, acts[n]) && AllReported(acts, n, s) && id < |s.calls|
    ensures id < |Apply(s, acts[n]).calls| && CallReported(acts, n + 1, Apply(s, acts[n]).calls[id])
  {
    var a, c := acts[n], s.calls[id];
    assert CallReported(acts, n, c);
    forall r: Result | Reported(acts, n, c.task, r)
      ensures Reported(acts, n + 1, c.task, r)
    {
      ReportedLater(acts, n, c.task, r);
    }
    if a == Stop {
      assert Reported(acts, n + 1, c.task, WaiterStopped);
    } else if a.Deliver? && a.d.call == id {
      assert DeliveryReported(acts, n, s, a.d);
    }
  }

  lemma OneDeliveryReported(acts: seq<Action>, n: nat, s: Sys, d: Delivery)
    requires n < |acts| && Enabled(s, acts[n]) && AllReported(acts, n, s) && d in Apply(s, acts[n]).pending
    ensures DeliveryReported(acts, n + 1, Apply(s, acts[n]), d)
  {
    StepKeepsTasks(s, acts[n]);
    if d in s.pending {
      assert DeliveryReported(acts, n, s, d);
      ReportedLater(acts, n, s.calls[d.call].task, d.result);
    } else {
      assert Registered(s, acts[n].task) && acts[n] == Lookup(acts[n].task, d.result);
    }
  }

  lemma RegistrationsKept(s: Sys, a: Action)
    requires Enabled(s, a) && forall t :: t in s.waiters ==> Registered(s, t)
    ensures forall t :: t in Apply(s, a).waiters ==> Registered(Apply(s, a), t)
  {
    StepKeepsTasks(s, a);
    forall t | t in Apply(s, a).waiters
      ensures Registered(Apply(s, a), t)
    {
      assert t in s.waiters ==> Registered(s, t);
    }
  }

  lemma StepReported(acts: seq<Action>, n: nat, s: Sys)
    requires n < |acts| && Enabled(s, acts[n]) && AllReported(acts, n, s)
    ensures AllReported(acts, n + 1, Apply(s, acts[n]))
  {
    var s' := Apply(s, acts[n]);
    RegistrationsKept(s, acts[n]);
    forall id | 0 <= id < |s'.calls|
      ensures CallReported(acts, n + 1, s'.calls[id])
    {
      if id < |s.calls| {
        OneCallReported(acts, n, s, id);
      }
    }
    forall d | d in s'.pending
      ensures DeliveryReported(acts, n + 1, s', d)
    {
      OneDeliveryReported(acts, n, s, d);
    }
  }

  lemma NextReported(acts: seq<Action>, n: nat, s: Sys, next: nat, s': Sys)
    requires n < |acts| && Enabled(s, acts[n]) && AllReported(acts, n, s) && next == n + 1 && s' == Apply(s, acts[n])
    ensures AllReported(acts, next, s')
  {
    StepReported(acts, n, s);
  }

  lemma {:induction false} AlwaysReported(acts: seq<Action>, trace: seq<Sys>, n: nat)
    requires IsRun(acts, trace) && n < |trace|
    ensures AllReported(acts, n, trace[n])
  {
    if n == 0 {
    } else {
      AlwaysReported(acts, trace, n - 1);
      assert StepAt(acts, trace, n - 1);
      NextReported(acts, n - 1, trace[n - 1], n, trace[n]);
    }
  }

  /** Whatever IDs the callers use: a result that a call returns was handled for its own task earlier, or is the notice
      of a Stop. */
  lemma ReturnedWasReported(acts: seq<Action>, trace: seq<Sys>, n: nat, id: nat, r: Result)
    requires IsRun(acts, trace) && n < |trace| && Is(trace[n], id, Returned(Some(r)))
    ensures Reported(acts, n, trace[n].calls[id].task, r)
  {
    AlwaysReported(acts, trace, n);
    assert CallReported(acts, n, trace[n].calls[id]);
  }

  /** And a call that received a result returns it; one that was cancelled returns nothing. */
  lemma {:induction false} ReceivedIsReturned(acts: seq<Action>, trace: seq<Sys>, i: nat, n: nat, id: nat)
    requires IsRun(acts, trace) && i < n < |trace| && acts[i] in {Receive(id), Cancel(id)}
    ensures id < |trace[i].calls| && id < |trace[n].calls| && (acts[i] == Receive(id) ==> trace[i].calls[id].buffer.Some?)
    ensures trace[n].calls[id].progress in
      if acts[i] == Receive(id) then {Received(trace[i].calls[id].buffer.value), Returned(trace[i].calls[id].buffer)}
      else {Cancelled, Returned(None)}
    decreases n
  {
    assert StepAt(acts, trace, i) && StepAt(acts, trace, n - 1);
    if n == i + 1 {
    } else {
      ReceivedIsReturned(acts, trace, i, n - 1, id);
    }
  }

  /** A registration starts a call that waits on an empty channel, or one that is turned away once stopped; a delivery
      fills the channel if it is empty. */
  lemma StartsAndDeliveries(acts: seq<Action>, trace: seq<Sys>, n: nat)
    requires IsRun(acts, trace) && n < |acts|
    ensures acts[n].Register? ==>
      trace[n + 1].calls == trace[n].calls + [Call(acts[n].task, if trace[n].closed then Rejected else Waiting, None, None)]
    ensures acts[n].Deliver? ==>
      var id := acts[n].d.call;
      && id < |trace[n].calls| == |trace[n + 1].calls|
      && trace[n + 1].calls[id].buffer == if trace[n].calls[id].buffer.None? then Some(acts[n].d.result) else trace[n].calls[id].buffer
  {
    assert StepAt(acts, trace, n);
  }

  // ---------- Exactly when a registration can leave a call blocked ----------

  /** The waiter is stopped, but the call waits on an empty channel. */
  predicate Blocked(s: Sys, id: nat) {
    s.closed && Is(s, id, Waiting) && s.calls[id].buffer.None?
  }

  lemma InvLeavesNobodyBlocked(s: Sys, id: nat)
    requires Inv(s)
    ensures !Blocked(s, id)
  {
    if id < |s.calls| {
      assert CallOk(s, id);
    }
  }

  /** The call got no result, and nothing can reach its channel any more. */
  ghost predicate Abandoned(s: Sys, id: nat) {
    && s.closed && id < |s.calls| && s.calls[id].buffer.None?
    && s.calls[id].progress in {Waiting, Cancelled, Returned(None)}
    && id !in s.waiters.Values
    && forall d :: d in s.pending ==> d.call != id
  }

  lemma StepKeepsAbandoned(s: Sys, a: Action, id: nat)
    requires Abandoned(s, id) && Enabled(s, a)
    ensures Abandoned(Apply(s, a), id)
  {
    var s' := Apply(s, a);
    assert forall t :: t in s'.waiters ==> t in s.waiters && s'.waiters[t] == s.waiters[t];
    assert forall d :: d in s'.pending ==> d in s.pending || (a.Lookup? && d.call in s.waiters.Values);
  }

  /** An abandoned call is blocked for good: whatever happens, nothing but a cancellation ends its wait. */
  lemma {:induction false} AbandonedForGood(s: Sys, acts: seq<Action>, trace: seq<Sys>, id: nat, n: nat)
    requires Abandoned(s, id) && Continues(s, acts, trace) && n < |trace|
    ensures Abandoned(trace[n], id) && !Enabled(trace[n], Receive(id))
  {
    if n == 0 {
    } else {
      AbandonedForGood(s, acts, trace, id, n - 1);
      assert StepAt(acts, trace, n - 1);
      StepKeepsAbandoned(trace[n - 1], acts[n - 1], id);
    }
  }

  /** Some continuation in which nobody else registers a task that is being waited for blocks a call. */
  ghost predicate CanBlock(s: Sys) {
    exists acts, trace, n: nat, id :: Continues(s, acts, trace) && DistinctWaits(acts, trace) && n < |trace| && Blocked(trace[n], id)
  }

  /** And does so for good. */
  ghost predicate CanAbandon(s: Sys) {
    exists acts, trace, n: nat, id ::
      && Continues(s, acts, trace) && DistinctWaits(acts, trace) && n < |trace|
      && Blocked(trace[n], id) && Abandoned(trace[n], id)
  }

  /** The earlier caller returns, its clean-up takes the later caller's registration along, and Stop misses that one. */
  lemma CleanUpAndStop(s: Sys, earlier: nat, id: nat) returns (acts: seq<Action>, trace: seq<Sys>)
    requires Enabled(s, CleanUp(earlier)) && earlier != id && Is(s, id, Waiting) && s.calls[id].buffer.None?
    requires s.calls[earlier].task == s.calls[id].task
    requires forall t :: t in s.waiters && s.waiters[t] == id ==> t == s.calls[id].task
    requires forall d :: d in s.pending ==> d.call != id
    ensures acts == [CleanUp(earlier), Stop] && Continues(s, acts, trace) && DistinctWaits(acts, trace)
    ensures Blocked(trace[2], id) && Abandoned(trace[2], id)
  {
    acts := [CleanUp(earlier), Stop];
    var s1 := Apply(s, CleanUp(earlier));
    trace := [s, s1, Apply(s1, Stop)];
    assert StepAt(acts, trace, 0) && StepAt(acts, trace, 1);
  }

  /** The earlier caller gives up first, if it still waits. */
  lemma LaterAbandoned(s: Sys, earlier: nat, id: nat)
    requires earlier < |s.calls| && Live(s.calls[earlier].progress)
    requires earlier != id && Is(s, id, Waiting) && s.calls[id].buffer.None?
    requires s.calls[earlier].task == s.calls[id].task
    requires forall t :: t in s.waiters && s.waiters[t] == id ==> t == s.calls[id].task
    requires forall d :: d in s.pending ==> d.call != id
    ensures CanAbandon(s)
  {
    if s.calls[earlier].progress.Waiting? {
      var s1 := Apply(s, Cancel(earlier));
      var acts1, trace1 := CleanUpAndStop(s1, earlier, id);
      var acts: seq<Action>, trace := [Cancel(earlier), CleanUp(earlier), Stop], [s, s1, trace1[1], trace1[2]];
      assert StepAt(acts1, trace1, 0) && StepAt(acts1, trace1, 1);
      assert StepAt(acts, trace, 0) && StepAt(acts, trace, 1) && StepAt(acts, trace, 2);
      assert Continues(s, acts, trace) && DistinctWaits(acts, trace);
      assert Blocked(trace[3], id) && Abandoned(trace[3], id);
    } else {
      var acts, trace := CleanUpAndStop(s, earlier, id);
      assert Blocked(trace[2], id) && Abandoned(trace[2], id);
    }
  }

  /** A registration opens the way to a blocked call, and to one blocked for good, exactly when its task is
      being waited for already. */
  lemma RegisterBlocksIff(s: Sys, t: string)
    requires Inv(s) && !s.closed
    ensures CanBlock(Apply(s, Register(t))) <==> t in s.waiters
    ensures CanAbandon(Apply(s, Register(t))) <==> t in s.waiters
  {
    var s' := Apply(s, Register(t));
    if t in s.waiters {
      var earlier := s.waiters[t];
      assert CallOk(s, earlier);
      LaterAbandoned(s', earlier, |s.calls|);
    } else {
      RegisterInvIff(s, t);
      if CanBlock(s') {
        var acts, trace, n: nat, id :|
          Continues(s', acts, trace) && DistinctWaits(acts, trace) && n < |trace| && Blocked(trace[n], id);
        ContinuesInv(s', acts, trace, n);
        InvLeavesNobodyBlocked(trace[n], id);
      }
    }
  }

  /** Either caller can be the one. With two registrations of one task, Stop at once abandons the earlier call. */
  lemma DuplicateTaskCanBlock(t: string) returns (acts: seq<Action>, trace: seq<Sys>)
    ensures IsRun(acts, trace) && acts == [Register(t), Register(t), Stop]
    ensures Blocked(trace[3], 0) && Abandoned(trace[3], 0)
  {
    acts := [Register(t), Register(t), Stop];
    var s1 := Apply(INITIAL, Register(t));
    var s2 := Apply(s1, Register(t));
    trace := [INITIAL, s1, s2, Apply(s2, Stop)];
    assert StepAt(acts, trace, 0) && StepAt(acts, trace, 1) && StepAt(acts, trace, 2);
  }

  /** Stop after the earlier call was cancelled abandons the later one. */
  lemma LaterCallerCanBlock(t: string) returns (acts: seq<Action>, trace: seq<Sys>)
    ensures IsRun(acts, trace) && acts == [Register(t), Register(t), Cancel(0), CleanUp(0), Stop]
    ensures Blocked(trace[5], 1) && Abandoned(trace[5], 1)
  {
    var s1 := Apply(INITIAL, Register(t));
    var s2 := Apply(s1, Register(t));
    var s3 := Apply(s2, Cancel(0));
    var acts1, trace1 := CleanUpAndStop(s3, 0, 1);
    acts := [Register(t), Register(t), Cancel(0)] + acts1;
    trace := [INITIAL, s1, s2] + trace1;
    assert StepAt(acts, trace, 0) && StepAt(acts, trace, 1) && StepAt(acts, trace, 2);
    assert StepAt(acts1, trace1, 0) && StepAt(acts1, trace1, 1);
    assert StepAt(acts, trace, 3) && StepAt(acts, trace, 4);
  }

  // ---------- The object ----------

  class ResultChan {
    var buffer: Option<Result>

    constructor ()
      ensures buffer == None
    {
      buffer := None;
    }

    method TrySend(r: Result)
      modifies this
      ensures buffer == if old(buffer).Some? then old(buffer) else Some(r)
    {
      if buffer.None? {
        buffer := Some(r);
      }
    }
  }

  class EventWaiter {
    var waiters: map<string, ResultChan>
    var closed: bool

    constructor ()
      ensures waiters == map[] && !closed
    {
      waiters, closed := map[], false;
    }

    /** The synchronous part of RegisterAndWait; no channel when the waiter is stopped. */
    method Register(taskID: string) returns (ch: ResultChan?)
      modifies this
      ensures ch == null <==> old(closed)
      ensures ch != null ==> fresh(ch) && ch.buffer == None && waiters == old(waiters)[taskID := ch]
      ensures ch == null ==> waiters == old(waiters)
      ensures closed == old(closed)
    {
      if closed {
        return null;
      }
      var made := new ResultChan();
      waiters := waiters[taskID := made];
      ch := made;
    }

    /** handleDone and handleFailed: look up the task's channel, then send. */
    method Handle(taskID: string, r: Result)
      modifies waiters.Values
      ensures waiters == old(waiters) && closed == old(closed)
      ensures taskID in waiters ==>
        waiters[taskID].buffer == if old(waiters[taskID].buffer).Some? then old(waiters[taskID].buffer) else Some(r)
      ensures forall ch :: ch in waiters.Values && !(taskID in waiters && ch == waiters[taskID]) ==> ch.buffer == old(ch.buffer)
    {
      if taskID in waiters {
        var ch := waiters[taskID];
        assert ch in waiters.Values;
        ch.TrySend(r);
      }
    }

    /** Stop: refuse new registrations and put something into every registered channel that is still empty. */
    method Stop()
      modifies this, waiters.Values
      ensures closed && waiters == old(waiters)
      ensures forall t :: t in waiters ==>
        waiters[t].buffer == if old(waiters[t].buffer).Some? then old(waiters[t].buffer) else Some(WaiterStopped)
    {
      closed := true;
      var todo := waiters.Keys;
      while todo != {}
        invariant todo <= waiters.Keys && waiters == old(waiters) && closed
        invariant forall ch :: ch in waiters.Values ==>
          ch.buffer == old(ch.buffer) || (old(ch.buffer).None? && ch.buffer == Some(WaiterStopped))
        invariant forall t :: t in waiters && t !in todo ==> waiters[t].buffer.Some?
      {
        var t :| t in todo;
        var ch := waiters[t];
        assert ch in waiters.Values;
        ch.TrySend(WaiterStopped);
        todo := todo - {t};
      }
      assert forall t :: t in waiters ==> waiters[t] in waiters.Values;
    }
  }
}
