/** Interleavings of the queue's critical sections, channel sends and worker wake-ups
    (`internal/queue/queue.go`), over the atomic effects of `QueueSpec`. */
module QueueWakeup {
  import opened PriorityHeap
  import opened QueueSpec

  /** A worker is outside Pop, about to scan, or waiting on its channels after a scan found nothing. */
  datatype Worker = Idle | Scanning | Blocked

  datatype Send = ToRole(role: string) | ToGlobal

  datatype Choice = Found(task: TaskInfo) | NothingReady

  /** `pending` has, for each thread that left its critical section, the sends it has not done yet;
      `roleTokens` are the role channels holding a token; `calls` are the MarkDone calls so far. */
  datatype Sys = Sys(q: State, workers: map<nat, Worker>, roleTokens: set<string>, globalToken: bool,
                     pending: multiset<seq<Send>>, calls: seq<string>)

  datatype Action =
    | PushLock(task: TaskInfo)
    | DoneLock(id: string, heapOrder: seq<TaskInfo>)
    | ForgetLock(id: string)             // first critical section of MarkFailed; its Push follows
    | DoSend(sends: seq<Send>)           // the next send of a thread with these sends left
    | EnterPop(worker: nat)
    | Scan(worker: nat, choice: Choice)
    | WakeByRole(worker: nat)
    | WakeByGlobal(worker: nat)
    | Cancel(worker: nat)

  /** The role of every worker. */
  type Config = map<nat, string>

  ghost predicate OneWorkerPerRole(cfg: Config) {
    && (forall w :: w in cfg ==> cfg[w] != "")
    && (forall v, w :: v in cfg && w in cfg && cfg[v] == cfg[w] ==> v == w)
  }

  function RoleSends(roles: seq<string>): seq<Send> {
    seq(|roles|, i requires 0 <= i < |roles| => ToRole(roles[i]))
  }

  predicate In(cfg: Config, s: Sys, w: nat, state: Worker) {
    w in cfg && w in s.workers && s.workers[w] == state
  }

  ghost predicate Enabled(cfg: Config, s: Sys, a: Action) {
    match a
    case PushLock(_) => true
    case DoneLock(_, order) => multiset(order) == s.q.waiting
    case ForgetLock(_) => true
    case DoSend(sends) => sends in s.pending && sends != []
    case EnterPop(w) => In(cfg, s, w, Idle)
    case Scan(w, Found(t)) => In(cfg, s, w, Scanning) && Best(s.q, cfg[w], t)
    case Scan(w, NothingReady) => In(cfg, s, w, Scanning) && !HasReady(s.q, cfg[w])
    case WakeByRole(w) => In(cfg, s, w, Blocked) && cfg[w] in s.roleTokens
    case WakeByGlobal(w) => In(cfg, s, w, Blocked) && s.globalToken
    case Cancel(w) => In(cfg, s, w, Blocked)
  }

  function Sent(s: Sys, send: Send): Sys {
    match send
    case ToRole(r) => s.(roleTokens := s.roleTokens + {r})
    case ToGlobal => s.(globalToken := true)
  }

  function Move(s: Sys, w: nat, to: Worker): Sys {
    s.(workers := s.workers[w := to])
  }

  ghost function Apply(cfg: Config, s: Sys, a: Action): Sys
    requires Enabled(cfg, s, a)
  {
    match a
    case PushLock(t) =>
      if Accepts(s.q, t) then s.(q := Pushed(s.q, t), pending := s.pending + multiset{[ToRole(t.role), ToGlobal]})
      else s
    case DoneLock(id, order) =>
      s.(q := MarkedDone(s.q, id), calls := s.calls + [id],
         pending := s.pending + multiset{RoleSends(DependentRoles(order, id)) + [ToGlobal]})
    case ForgetLock(id) => s.(q := Forgotten(s.q, id))
    case DoSend(sends) =>
      Sent(s, sends[0]).(pending := s.pending - multiset{sends} + multiset{sends[1..]})
    case EnterPop(w) => Move(s, w, Scanning)
    case Scan(w, Found(t)) => Move(s, w, Idle).(q := Taken(s.q, t))
    case Scan(w, NothingReady) => Move(s, w, Blocked)
    case WakeByRole(w) => Move(s, w, Scanning).(roleTokens := s.roleTokens - {cfg[w]})
    case WakeByGlobal(w) => Move(s, w, Scanning).(globalToken := false)
    case Cancel(w) => Move(s, w, Idle)
  }

  ghost predicate Initial(s: Sys) {
    && s.q == EMPTY && s.calls == [] && s.pending == multiset{}
    && s.roleTokens == {} && !s.globalToken
    && forall w :: w in s.workers ==> s.workers[w] == Idle
  }

  /** Action `i` leads from state `i` to the next. */
  ghost predicate StepAt(cfg: Config, acts: seq<Action>, trace: seq<Sys>, i: nat)
    requires i < |acts| && |trace| == |acts| + 1
  {
    Enabled(cfg, trace[i], acts[i]) && trace[i + 1] == Apply(cfg, trace[i], acts[i])
  }

  /** `trace` lists the states of a run: from an initial one, each reached from the previous by the next action. */
  ghost predicate IsRun(cfg: Config, acts: seq<Action>, trace: seq<Sys>) {
    && |trace| == |acts| + 1
    && Initial(trace[0])
    && forall i :: 0 <= i < |acts| ==> StepAt(cfg, acts, trace, i)
  }

  // ---------- No lost wake-up ----------

  ghost predicate SendPending(s: Sys, role: string) {
    exists sends :: sends in s.pending && ToRole(role) in sends
  }

  /** The role's channel holds a token, or one is on its way. */
  ghost predicate RoleAssured(s: Sys, role: string) {
    role in s.roleTokens || SendPending(s, role)
  }

  /** A blocked worker whose role has a ready task will be woken through its role's channel. */
  ghost predicate WakeupAssured(cfg: Config, s: Sys) {
    forall w :: In(cfg, s, w, Blocked) && HasReady(s.q, cfg[w]) ==> RoleAssured(s, cfg[w])
  }

  lemma PendingKept(s: Sys, s': Sys, role: string)
    requires s.pending <= s'.pending && SendPending(s, role)
    ensures SendPending(s', role)
  {
    var sends :| sends in s.pending && ToRole(role) in sends;
    assert sends in s'.pending;
  }

  lemma PushAssures(cfg: Config, s: Sys, t: TaskInfo)
    requires OneWorkerPerRole(cfg) && WakeupAssured(cfg, s)
    ensures WakeupAssured(cfg, Apply(cfg, s, PushLock(t)))
  {
    var s' := Apply(cfg, s, PushLock(t));
    if Accepts(s.q, t) {
      forall w | In(cfg, s', w, Blocked) && HasReady(s'.q, cfg[w])
        ensures RoleAssured(s', cfg[w])
      {
        assert In(cfg, s, w, Blocked);
        var u :| Candidate(s'.q, cfg[w], u);
        if u == t {
          var sends := [ToRole(t.role), ToGlobal];
          assert sends in s'.pending && sends[0] == ToRole(cfg[w]);
        } else {
          assert Candidate(s.q, cfg[w], u);
          if cfg[w] !in s.roleTokens {
            PendingKept(s, s', cfg[w]);
          }
        }
      }
    }
  }

  lemma RecordedMembers(done: seq<string>, id: string)
    ensures forall d :: d in Recorded(done, id) ==> d in done || d == id
  {
    assert forall d :: d in Recorded(done, id) ==> d in done + [id];
  }

  lemma DoneAssures(cfg: Config, s: Sys, id: string, order: seq<TaskInfo>)
    requires OneWorkerPerRole(cfg) && WakeupAssured(cfg, s) && multiset(order) == s.q.waiting
    ensures WakeupAssured(cfg, Apply(cfg, s, DoneLock(id, order)))
  {
    var s' := Apply(cfg, s, DoneLock(id, order));
    forall w | In(cfg, s', w, Blocked) && HasReady(s'.q, cfg[w])
      ensures RoleAssured(s', cfg[w])
    {
      assert In(cfg, s, w, Blocked);
      var u :| Candidate(s'.q, cfg[w], u);
      if Candidate(s.q, cfg[w], u) {
        if cfg[w] !in s.roleTokens {
          PendingKept(s, s', cfg[w]);
        }
      } else {
        RecordedMembers(s.q.done, id);
        assert id in u.dependsOn;
        assert u in multiset(order);
        DependentIsSignalled(order, id, u);
        var roles := DependentRoles(order, id);
        var k :| 0 <= k < |roles| && roles[k] == u.role;
        var sends := RoleSends(roles) + [ToGlobal];
        assert sends[k] == ToRole(cfg[w]) && sends in s'.pending;
      }
    }
  }

  lemma SendAssures(cfg: Config, s: Sys, sends: seq<Send>)
    requires WakeupAssured(cfg, s) && sends in s.pending && sends != []
    ensures WakeupAssured(cfg, Apply(cfg, s, DoSend(sends)))
  {
    var s' := Apply(cfg, s, DoSend(sends));
    forall w | In(cfg, s', w, Blocked) && HasReady(s'.q, cfg[w])
      ensures RoleAssured(s', cfg[w])
    {
      assert In(cfg, s, w, Blocked);
      if cfg[w] !in s'.roleTokens {
        var some :| some in s.pending && ToRole(cfg[w]) in some;
        if some == sends {
          assert sends == [sends[0]] + sends[1..];
          assert sends[1..] in s'.pending;
        } else {
          assert some in s'.pending;
        }
      }
    }
  }

  lemma WorkerAssures(cfg: Config, s: Sys, a: Action)
    requires OneWorkerPerRole(cfg) && WakeupAssured(cfg, s) && Enabled(cfg, s, a)
    requires a.EnterPop? || a.Scan? || a.WakeByRole? || a.WakeByGlobal? || a.Cancel? || a.ForgetLock?
    ensures WakeupAssured(cfg, Apply(cfg, s, a))
  {
    var s' := Apply(cfg, s, a);
    forall w | In(cfg, s', w, Blocked) && HasReady(s'.q, cfg[w])
      ensures RoleAssured(s', cfg[w])
    {
      var u :| Candidate(s'.q, cfg[w], u);
      assert Candidate(s.q, cfg[w], u);
      assert In(cfg, s, w, Blocked);
      if cfg[w] !in s'.roleTokens {
        PendingKept(s, s', cfg[w]);
      }
    }
  }

  lemma StepAssures(cfg: Config, s: Sys, a: Action)
    requires OneWorkerPerRole(cfg) && WakeupAssured(cfg, s) && Enabled(cfg, s, a)
    ensures WakeupAssured(cfg, Apply(cfg, s, a))
  {
    match a
    case PushLock(t) => PushAssures(cfg, s, t);
    case DoneLock(id, order) => DoneAssures(cfg, s, id, order);
    case DoSend(sends) => SendAssures(cfg, s, sends);
    case _ => WorkerAssures(cfg, s, a);
  }

  /** With one worker per role, no interleaving loses a wake-up. */
  lemma {:induction false} NoLostWakeup(cfg: Config, acts: seq<Action>, trace: seq<Sys>, n: nat)
    requires OneWorkerPerRole(cfg) && IsRun(cfg, acts, trace) && n < |trace|
    ensures WakeupAssured(cfg, trace[n])
  {
    if n == 0 {
    } else {
      NoLostWakeup(cfg, acts, trace, n - 1);
      assert StepAt(cfg, acts, trace, n - 1);
      StepAssures(cfg, trace[n - 1], acts[n - 1]);
    }
  }

  /** Hence once all sends are done, a worker left blocked without a token has nothing to do. */
  lemma QuiescentMeansIdle(cfg: Config, acts: seq<Action>, trace: seq<Sys>, n: nat, w: nat)
    requires OneWorkerPerRole(cfg) && IsRun(cfg, acts, trace) && n < |trace|
    requires forall sends :: sends in trace[n].pending ==> sends == []
    requires In(cfg, trace[n], w, Blocked) && cfg[w] !in trace[n].roleTokens
    ensures !HasReady(trace[n].q, cfg[w])
  {
    NoLostWakeup(cfg, acts, trace, n);
  }

  // ---------- Exactly which pools of workers can be stranded ----------

  /** Ready work for a blocked worker, nobody about to scan, and nothing left that could wake this worker. */
  ghost predicate Stranded(cfg: Config, s: Sys, w: nat) {
    && In(cfg, s, w, Blocked) && HasReady(s.q, cfg[w])
    && (forall x :: !In(cfg, s, x, Scanning))
    && cfg[w] !in s.roleTokens && !s.globalToken
    && forall sends :: sends in s.pending ==> sends == []
  }

  ghost predicate CanStrand(cfg: Config) {
    exists acts, trace, n: nat, w :: IsRun(cfg, acts, trace) && n < |trace| && Stranded(cfg, trace[n], w)
  }

  /** Two workers on one role, and a third worker, whatever its role. */
  ghost predicate SharedRole(cfg: Config) {
    |cfg| >= 3 && exists v, w :: v in cfg && w in cfg && v != w && cfg[v] == cfg[w]
  }

  /** A worker that accepts every task, and another worker. */
  ghost predicate Overheard(cfg: Config) {
    |cfg| >= 2 && exists w :: w in cfg && cfg[w] == ""
  }

  ghost predicate Crowded(cfg: Config) {
    SharedRole(cfg) || Overheard(cfg)
  }

  // Two workers on their own: the role channel wakes one of them, the global channel the other.

  ghost predicate GlobalPending(s: Sys) {
    exists sends :: sends in s.pending && ToGlobal in sends
  }

  ghost predicate GlobalAssured(s: Sys) {
    s.globalToken || GlobalPending(s)
  }

  /** The workers are `a` and `b`, both on `role`. */
  ghost predicate Pair(cfg: Config, a: nat, b: nat, role: string) {
    role != "" && forall w :: w in cfg ==> (w == a || w == b) && cfg[w] == role
  }

  /** With work ready, one blocked worker has one way to be woken, and two blocked workers have both. */
  ghost predicate PairAssured(cfg: Config, s: Sys, a: nat, b: nat, role: string) {
    HasReady(s.q, role) ==>
      && (In(cfg, s, a, Blocked) || In(cfg, s, b, Blocked) ==> RoleAssured(s, role) || GlobalAssured(s))
      && (In(cfg, s, a, Blocked) && In(cfg, s, b, Blocked) && a != b ==> RoleAssured(s, role) && GlobalAssured(s))
  }

  lemma AssuredKept(s: Sys, s': Sys, role: string)
    requires s.pending <= s'.pending && s.roleTokens <= s'.roleTokens && (s.globalToken ==> s'.globalToken)
    ensures RoleAssured(s, role) ==> RoleAssured(s', role)
    ensures GlobalAssured(s) ==> GlobalAssured(s')
  {
    if SendPending(s, role) {
      PendingKept(s, s', role);
    }
    if GlobalPending(s) {
      var sends :| sends in s.pending && ToGlobal in sends;
      assert sends in s'.pending;
    }
  }

  lemma SendKeepsAssured(s: Sys, sends: seq<Send>, s': Sys, role: string)
    requires sends in s.pending && sends != []
    requires s' == Sent(s, sends[0]).(pending := s.pending - multiset{sends} + multiset{sends[1..]})
    ensures RoleAssured(s, role) ==> RoleAssured(s', role)
    ensures GlobalAssured(s) ==> GlobalAssured(s')
  {
    assert sends == [sends[0]] + sends[1..];
    assert sends[1..] in s'.pending;
    if SendPending(s, role) && role !in s'.roleTokens {
      var some :| some in s.pending && ToRole(role) in some;
      assert some != sends ==> some in s'.pending;
    }
    if GlobalPending(s) && !s'.globalToken {
      var some :| some in s.pending && ToGlobal in some;
      assert some != sends ==> some in s'.pending;
    }
  }

  lemma PairPush(cfg: Config, s: Sys, a: nat, b: nat, role: string, t: TaskInfo)
    requires Pair(cfg, a, b, role) && PairAssured(cfg, s, a, b, role)
    ensures PairAssured(cfg, Apply(cfg, s, PushLock(t)), a, b, role)
  {
    var s' := Apply(cfg, s, PushLock(t));
    if Accepts(s.q, t) && HasReady(s'.q, role) {
      var u :| Candidate(s'.q, role, u);
      if u == t {
        var sends := [ToRole(t.role), ToGlobal];
        assert sends in s'.pending && sends[0] == ToRole(role) && sends[1] == ToGlobal;
      } else {
        assert Candidate(s.q, role, u);
        AssuredKept(s, s', role);
      }
    }
  }

  lemma PairDone(cfg: Config, s: Sys, a: nat, b: nat, role: string, id: string, order: seq<TaskInfo>)
    requires Pair(cfg, a, b, role) && PairAssured(cfg, s, a, b, role) && multiset(order) == s.q.waiting
    ensures PairAssured(cfg, Apply(cfg, s, DoneLock(id, order)), a, b, role)
  {
    var s' := Apply(cfg, s, DoneLock(id, order));
    if HasReady(s'.q, role) {
      var u :| Candidate(s'.q, role, u);
      if Candidate(s.q, role, u) {
        AssuredKept(s, s', role);
      } else {
        RecordedMembers(s.q.done, id);
        assert u in multiset(order);
        DependentIsSignalled(order, id, u);
        var roles := DependentRoles(order, id);
        var k :| 0 <= k < |roles| && roles[k] == u.role;
        var sends := RoleSends(roles) + [ToGlobal];
        assert sends[k] == ToRole(role) && sends[|roles|] == ToGlobal && sends in s'.pending;
      }
    }
  }

  lemma PairWorker(cfg: Config, s: Sys, a: nat, b: nat, role: string, act: Action)
    requires Pair(cfg, a, b, role) && PairAssured(cfg, s, a, b, role) && Enabled(cfg, s, act)
    requires !act.PushLock? && !act.DoneLock? && !act.DoSend?
    ensures PairAssured(cfg, Apply(cfg, s, act), a, b, role)
  {
    var s' := Apply(cfg, s, act);
    if u :| Candidate(s'.q, role, u) {
      assert Candidate(s.q, role, u);
    }
  }

  lemma PairStep(cfg: Config, s: Sys, a: nat, b: nat, role: string, act: Action)
    requires Pair(cfg, a, b, role) && PairAssured(cfg, s, a, b, role) && Enabled(cfg, s, act)
    ensures PairAssured(cfg, Apply(cfg, s, act), a, b, role)
  {
    match act
    case PushLock(t) => PairPush(cfg, s, a, b, role, t);
    case DoneLock(id, order) => PairDone(cfg, s, a, b, role, id, order);
    case DoSend(sends) => SendKeepsAssured(s, sends, Apply(cfg, s, act), role);
    case _ => PairWorker(cfg, s, a, b, role, act);
  }

  lemma {:induction false} PairAlwaysAssured(cfg: Config, acts: seq<Action>, trace: seq<Sys>, n: nat, a: nat, b: nat, role: string)
    requires Pair(cfg, a, b, role) && IsRun(cfg, acts, trace) && n < |trace|
    ensures PairAssured(cfg, trace[n], a, b, role)
  {
    if n == 0 {
    } else {
      PairAlwaysAssured(cfg, acts, trace, n - 1, a, b, role);
      assert StepAt(cfg, acts, trace, n - 1);
      PairStep(cfg, trace[n - 1], a, b, role, acts[n - 1]);
    }
  }

  lemma OnlyTwo(keys: set<nat>, u: nat, v: nat)
    requires u in keys && v in keys && u != v && |keys| < 3
    ensures keys == {u, v}
  {
    assert |keys - {u, v}| == |keys| - 2;
  }

  // A worker on its own that accepts every task: nobody else spends the global token.

  ghost predicate SoloAssured(cfg: Config, s: Sys, w: nat) {
    In(cfg, s, w, Blocked) && HasReady(s.q, cfg[w]) ==> GlobalAssured(s)
  }

  lemma SoloStep(cfg: Config, s: Sys, w: nat, act: Action)
    requires cfg.Keys == {w} && SoloAssured(cfg, s, w) && Enabled(cfg, s, act)
    ensures SoloAssured(cfg, Apply(cfg, s, act), w)
  {
    var s', role := Apply(cfg, s, act), cfg[w];
    if act.PushLock? && Accepts(s.q, act.task) {
      var sends := [ToRole(act.task.role), ToGlobal];
      assert sends in s'.pending && sends[1] == ToGlobal;
    } else if act.DoneLock? {
      var sends := RoleSends(DependentRoles(act.heapOrder, act.id)) + [ToGlobal];
      assert sends in s'.pending && sends[|sends| - 1] == ToGlobal;
    } else if act.DoSend? {
      SendKeepsAssured(s, act.sends, s', role);
    } else if u :| Candidate(s'.q, role, u) {
      assert Candidate(s.q, role, u);
    }
  }

  lemma {:induction false} SoloAlwaysAssured(cfg: Config, acts: seq<Action>, trace: seq<Sys>, n: nat, w: nat)
    requires cfg.Keys == {w} && IsRun(cfg, acts, trace) && n < |trace|
    ensures SoloAssured(cfg, trace[n], w)
  {
    if n == 0 {
    } else {
      SoloAlwaysAssured(cfg, acts, trace, n - 1, w);
      assert StepAt(cfg, acts, trace, n - 1);
      SoloStep(cfg, trace[n - 1], w, acts[n - 1]);
    }
  }

  lemma OnlyOne(keys: set<nat>, w: nat)
    requires w in keys && |keys| < 2
    ensures keys == {w}
  {
    assert |keys - {w}| == |keys| - 1;
  }

  lemma UncrowdedIsSafe(cfg: Config, acts: seq<Action>, trace: seq<Sys>, n: nat, w: nat)
    requires !Crowded(cfg) && IsRun(cfg, acts, trace) && n < |trace|
    ensures !Stranded(cfg, trace[n], w)
  {
    if v :| v in cfg && cfg[v] == "" {
      OnlyOne(cfg.Keys, v);
      SoloAlwaysAssured(cfg, acts, trace, n, v);
    } else if u, v :| u in cfg && v in cfg && u != v && cfg[u] == cfg[v] {
      OnlyTwo(cfg.Keys, u, v);
      PairAlwaysAssured(cfg, acts, trace, n, u, v, cfg[u]);
    } else {
      NoLostWakeup(cfg, acts, trace, n);
    }
  }

  // Crowded pools: three tasks of one role arrive and leave one token in the role's channel and one in the global one.

  ghost predicate Segment(cfg: Config, acts: seq<Action>, trace: seq<Sys>) {
    |trace| == |acts| + 1 && forall i :: 0 <= i < |acts| ==> StepAt(cfg, acts, trace, i)
  }

  lemma Extend(cfg: Config, acts: seq<Action>, trace: seq<Sys>, a: Action)
    returns (acts': seq<Action>, trace': seq<Sys>, s: Sys)
    requires Segment(cfg, acts, trace) && Enabled(cfg, trace[|acts|], a)
    ensures s == Apply(cfg, trace[|acts|], a) && acts' == acts + [a]
    ensures Segment(cfg, acts', trace') && trace'[0] == trace[0] && trace'[|acts'|] == s
  {
    s := Apply(cfg, trace[|acts|], a);
    acts', trace' := acts + [a], trace + [s];
    forall i | 0 <= i < |acts| + 1
      ensures StepAt(cfg, acts', trace', i)
    {
      assert i < |acts| ==> StepAt(cfg, acts, trace, i);
    }
  }

  /** An idle worker scans in vain and blocks. */
  lemma Block(cfg: Config, acts0: seq<Action>, trace0: seq<Sys>, w: nat)
    returns (acts: seq<Action>, trace: seq<Sys>, s: Sys)
    requires Segment(cfg, acts0, trace0) && In(cfg, trace0[|acts0|], w, Idle) && !HasReady(trace0[|acts0|].q, cfg[w])
    ensures Segment(cfg, acts, trace) && trace[0] == trace0[0] && trace[|acts|] == s
    ensures s == Move(trace0[|acts0|], w, Blocked)
  {
    acts, trace, s := Extend(cfg, acts0, trace0, EnterPop(w));
    acts, trace, s := Extend(cfg, acts, trace, Scan(w, NothingReady));
    assert trace0[|acts0|].workers[w := Scanning][w := Blocked] == trace0[|acts0|].workers[w := Blocked];
  }

  /** A task arrives and its two sends are done before anyone wakes. */
  lemma Arrive(cfg: Config, acts0: seq<Action>, trace0: seq<Sys>, t: TaskInfo)
    returns (acts: seq<Action>, trace: seq<Sys>, s: Sys)
    requires Segment(cfg, acts0, trace0) && Accepts(trace0[|acts0|].q, t)
    ensures Segment(cfg, acts, trace) && trace[0] == trace0[0] && trace[|acts|] == s
    ensures
      var before := trace0[|acts0|];
      s == before.(q := Pushed(before.q, t), roleTokens := before.roleTokens + {t.role}, globalToken := true,
                   pending := before.pending + multiset{[]})
  {
    var both: seq<Send> := [ToRole(t.role), ToGlobal];
    acts, trace, s := Extend(cfg, acts0, trace0, PushLock(t));
    acts, trace, s := Extend(cfg, acts, trace, DoSend(both));
    assert both[1..] == [ToGlobal] && [ToGlobal][1..] == [];
    acts, trace, s := Extend(cfg, acts, trace, DoSend([ToGlobal]));
  }

  function SomeTask(id: string, role: string): TaskInfo {
    TaskInfo(id, role, 50, [])
  }

  function ThreeTasks(role: string): State {
    State(multiset{SomeTask("1", role), SomeTask("2", role), SomeTask("3", role)}, {"1", "2", "3"}, [])
  }

  /** Any of them is best, for a worker that accepts every task too; the third stays ready while the others go; and no
      other role has work. */
  lemma AllAreBest(role: string)
    ensures Best(ThreeTasks(role), "", SomeTask("2", role)) && HasReady(ThreeTasks(role), "")
    ensures HasReady(Taken(ThreeTasks(role), SomeTask("2", role)), "")
    ensures Best(ThreeTasks(role), role, SomeTask("1", role)) && Best(ThreeTasks(role), role, SomeTask("2", role))
    ensures Best(Taken(ThreeTasks(role), SomeTask("2", role)), role, SomeTask("1", role))
    ensures HasReady(Taken(ThreeTasks(role), SomeTask("1", role)), role)
    ensures HasReady(Taken(Taken(ThreeTasks(role), SomeTask("2", role)), SomeTask("1", role)), role)
    ensures forall other :: other != "" && other != role ==> !HasReady(ThreeTasks(role), other)
  {
    var t1, t2, t3 := SomeTask("1", role), SomeTask("2", role), SomeTask("3", role);
    assert Candidate(ThreeTasks(role), "", t3) && Candidate(Taken(ThreeTasks(role), t2), "", t3);
    assert Candidate(Taken(ThreeTasks(role), t1), role, t3);
    assert Candidate(Taken(Taken(ThreeTasks(role), t2), t1), role, t3);
  }

  /** Workers `v` and `w` block on the empty queue. */
  lemma BlockTwo(cfg: Config, v: nat, w: nat)
    returns (acts: seq<Action>, trace: seq<Sys>, workers: map<nat, Worker>)
    requires v in cfg && w in cfg && v != w
    ensures Segment(cfg, acts, trace) && Initial(trace[0])
    ensures trace[|acts|] == Sys(EMPTY, workers, {}, false, multiset{}, [])
    ensures workers.Keys == cfg.Keys && forall x :: x in cfg ==> workers[x] == if x in {v, w} then Blocked else Idle
  {
    var s := Sys(EMPTY, map x | x in cfg :: Idle, {}, false, multiset{}, []);
    acts, trace := [], [s];
    acts, trace, s := Block(cfg, acts, trace, v);
    acts, trace, s := Block(cfg, acts, trace, w);
    workers := s.workers;
  }

  /** Three tasks for one role arrive, and their sends leave one token in each of two channels. */
  lemma ArriveThree(cfg: Config, acts0: seq<Action>, trace0: seq<Sys>, workers: map<nat, Worker>, role: string)
    returns (acts: seq<Action>, trace: seq<Sys>)
    requires Segment(cfg, acts0, trace0) && trace0[|acts0|] == Sys(EMPTY, workers, {}, false, multiset{}, [])
    ensures Segment(cfg, acts, trace) && trace[0] == trace0[0]
    ensures trace[|acts|] == Sys(ThreeTasks(role), workers, {role}, true, multiset{[], [], []}, [])
  {
    var s: Sys;
    acts, trace, s := Arrive(cfg, acts0, trace0, SomeTask("1", role));
    acts, trace, s := Arrive(cfg, acts, trace, SomeTask("2", role));
    acts, trace, s := Arrive(cfg, acts, trace, SomeTask("3", role));
    assert s.q.waiting == ThreeTasks(role).waiting && s.q.inQueue == ThreeTasks(role).inQueue;
    assert s.roleTokens == {role};
  }

  /** A worker wakes and takes a task. */
  lemma WakeAndTake(cfg: Config, acts0: seq<Action>, trace0: seq<Sys>, wake: Action, t: TaskInfo)
    returns (acts: seq<Action>, trace: seq<Sys>, s: Sys)
    requires Segment(cfg, acts0, trace0) && (wake.WakeByRole? || wake.WakeByGlobal?)
    requires Enabled(cfg, trace0[|acts0|], wake) && Best(trace0[|acts0|].q, cfg[wake.worker], t)
    ensures Segment(cfg, acts, trace) && trace[0] == trace0[0] && trace[|acts|] == s
    ensures
      var woken := Apply(cfg, trace0[|acts0|], wake);
      s == Move(woken, wake.worker, Idle).(q := Taken(woken.q, t))
    ensures s.workers == trace0[|acts0|].workers[wake.worker := Idle]
  {
    acts, trace, s := Extend(cfg, acts0, trace0, wake);
    acts, trace, s := Extend(cfg, acts, trace, Scan(wake.worker, Found(t)));
  }

  /** A worker wakes, finds nothing and blocks again. */
  lemma WakeInVain(cfg: Config, acts0: seq<Action>, trace0: seq<Sys>, u: nat)
    returns (acts: seq<Action>, trace: seq<Sys>, s: Sys)
    requires Segment(cfg, acts0, trace0) && Enabled(cfg, trace0[|acts0|], WakeByGlobal(u))
    requires !HasReady(trace0[|acts0|].q, cfg[u])
    ensures Segment(cfg, acts, trace) && trace[0] == trace0[0] && trace[|acts|] == s
    ensures s == Move(trace0[|acts0|], u, Blocked).(globalToken := false)
  {
    acts, trace, s := Extend(cfg, acts0, trace0, WakeByGlobal(u));
    acts, trace, s := Extend(cfg, acts, trace, Scan(u, NothingReady));
    assert s.workers == trace0[|acts0|].workers[u := Blocked];
  }

  /** A worker spends the global token, whether or not there is something for it. */
  lemma OneWakes(cfg: Config, acts0: seq<Action>, trace0: seq<Sys>, u: nat, role: string)
    returns (acts: seq<Action>, trace: seq<Sys>, s: Sys)
    requires Segment(cfg, acts0, trace0) && In(cfg, trace0[|acts0|], u, Blocked)
    requires trace0[|acts0|].q == ThreeTasks(role) && trace0[|acts0|].globalToken
    ensures Segment(cfg, acts, trace) && trace[0] == trace0[0] && trace[|acts|] == s
    ensures
      var before := trace0[|acts0|];
      && s == before.(q := s.q, workers := s.workers, globalToken := false)
      && (s.q == ThreeTasks(role) || s.q == Taken(ThreeTasks(role), SomeTask("2", role)))
      && (s.workers == before.workers[u := Idle] || s.workers == before.workers[u := Blocked])
      && HasReady(s.q, "")
  {
    AllAreBest(role);
    if cfg[u] == role || cfg[u] == "" {
      acts, trace, s := WakeAndTake(cfg, acts0, trace0, WakeByGlobal(u), SomeTask("2", role));
    } else {
      acts, trace, s := WakeInVain(cfg, acts0, trace0, u);
    }
  }

  /** One worker spends the role's token on the first task; the third task is still there. */
  lemma FirstWakes(cfg: Config, acts0: seq<Action>, trace0: seq<Sys>, v: nat, role: string)
    returns (acts: seq<Action>, trace: seq<Sys>, s: Sys)
    requires Segment(cfg, acts0, trace0) && In(cfg, trace0[|acts0|], v, Blocked) && cfg[v] == role
    requires trace0[|acts0|].roleTokens == {role}
    requires trace0[|acts0|].q == ThreeTasks(role) || trace0[|acts0|].q == Taken(ThreeTasks(role), SomeTask("2", role))
    ensures Segment(cfg, acts, trace) && trace[0] == trace0[0] && trace[|acts|] == s
    ensures s == trace0[|acts0|].(q := s.q, workers := s.workers, roleTokens := {})
    ensures s.workers == trace0[|acts0|].workers[v := Idle] && HasReady(s.q, role)
  {
    AllAreBest(role);
    acts, trace, s := WakeAndTake(cfg, acts0, trace0, WakeByRole(v), SomeTask("1", role));
  }

  /** The third worker takes the global token, the first one the role's, and the second stays behind. */
  lemma SharedRoleStrands(cfg: Config, v: nat, w: nat, u: nat) returns (acts: seq<Action>, trace: seq<Sys>)
    requires v in cfg && w in cfg && u in cfg && v != w && u != v && u != w && cfg[v] == cfg[w]
    requires cfg[w] != ""
    ensures IsRun(cfg, acts, trace) && Stranded(cfg, trace[|acts|], w)
  {
    var workers: map<nat, Worker>;
    var s: Sys;
    acts, trace, workers := BlockTwo(cfg, v, w);
    acts, trace, s := Block(cfg, acts, trace, u);
    acts, trace := ArriveThree(cfg, acts, trace, s.workers, cfg[w]);
    acts, trace, s := OneWakes(cfg, acts, trace, u, cfg[w]);
    acts, trace, s := FirstWakes(cfg, acts, trace, v, cfg[w]);
  }

  /** Worker `x` takes the global token, and the role's goes where `w`, which accepts every task, does not listen. */
  lemma OverheardStrands(cfg: Config, w: nat, x: nat, role: string) returns (acts: seq<Action>, trace: seq<Sys>)
    requires w in cfg && x in cfg && w != x && cfg[w] == "" && role != ""
    ensures IsRun(cfg, acts, trace) && Stranded(cfg, trace[|acts|], w)
  {
    var workers: map<nat, Worker>;
    var s: Sys;
    acts, trace, workers := BlockTwo(cfg, w, x);
    acts, trace := ArriveThree(cfg, acts, trace, workers, role);
    acts, trace, s := OneWakes(cfg, acts, trace, x, role);
  }

  lemma CrowdedStrands(cfg: Config) returns (acts: seq<Action>, trace: seq<Sys>, w: nat)
    requires Crowded(cfg)
    ensures IsRun(cfg, acts, trace) && Stranded(cfg, trace[|acts|], w)
  {
    if Overheard(cfg) {
      w :| w in cfg && cfg[w] == "";
      assert cfg.Keys == {w} ==> |cfg.Keys| == 1;
      var x :| x in cfg.Keys && x != w;
      acts, trace := OverheardStrands(cfg, w, x, "coding");
    } else {
      var v: nat;
      v, w :| v in cfg && w in cfg && v != w && cfg[v] == cfg[w];
      assert cfg.Keys == {v, w} ==> |cfg.Keys| == 2;
      var u :| u in cfg.Keys && u != v && u != w;
      acts, trace := SharedRoleStrands(cfg, v, w, u);
    }
  }

  /** For every pool of workers: some run leaves a worker blocked next to a ready task, with nothing on its way to wake
      it, exactly when two workers share a role and there is a third worker, or a worker accepts every task and there
      is another worker. */
  lemma StrandsIffCrowded(cfg: Config)
    ensures CanStrand(cfg) <==> Crowded(cfg)
  {
    if Crowded(cfg) {
      var acts, trace, w := CrowdedStrands(cfg);
      assert Stranded(cfg, trace[|acts|], w);
    } else if CanStrand(cfg) {
      var acts, trace, n: nat, w :| IsRun(cfg, acts, trace) && n < |trace| && Stranded(cfg, trace[n], w);
      UncrowdedIsSafe(cfg, acts, trace, n, w);
    }
  }

  /** Nothing that could wake worker `w` is there or on its way. */
  ghost predicate Unheard(cfg: Config, s: Sys, w: nat) {
    w in cfg && cfg[w] !in s.roleTokens && !s.globalToken && forall sends :: sends in s.pending ==> sends == []
  }

  /** From then on, whatever the other workers do, only another push or completion can wake the worker. */
  lemma {:induction false} StrandedUntilNews(cfg: Config, acts: seq<Action>, trace: seq<Sys>, i: nat, n: nat, w: nat)
    requires IsRun(cfg, acts, trace) && i <= n < |trace| && Stranded(cfg, trace[i], w)
    requires forall k :: i <= k < n ==> !acts[k].PushLock? && !acts[k].DoneLock?
    ensures Unheard(cfg, trace[n], w)
    ensures !Enabled(cfg, trace[n], WakeByRole(w)) && !Enabled(cfg, trace[n], WakeByGlobal(w))
    decreases n
  {
    if n == i {
    } else {
      StrandedUntilNews(cfg, acts, trace, i, n - 1, w);
      assert StepAt(cfg, acts, trace, n - 1);
      assert !acts[n - 1].PushLock? && !acts[n - 1].DoneLock?;
    }
  }

  // ---------- Dependencies ----------

  /** `id` was marked done by one of the first `n` actions. */
  ghost predicate DoneBefore(acts: seq<Action>, n: nat, id: string)
    requires n <= |acts|
  {
    exists i :: 0 <= i < n && acts[i].DoneLock? && acts[i].id == id
  }

  /** Only MarkDone changes the calls, and what is remembered of them. */
  lemma CallsStep(cfg: Config, s: Sys, a: Action)
    requires Enabled(cfg, s, a)
    ensures
      var s' := Apply(cfg, s, a);
      if a.DoneLock? then s'.calls == s.calls + [a.id] && s'.q.done == Recorded(s.q.done, a.id)
      else s'.calls == s.calls && s'.q.done == s.q.done
  {
  }

  lemma DoneAfterOneMore(calls: seq<string>, id: string)
    ensures DoneAfter(calls + [id]) == Recorded(DoneAfter(calls), id)
  {
    assert (calls + [id])[..|calls + [id]| - 1] == calls;
  }

  lemma {:induction false} DoneFollowsCalls(cfg: Config, acts: seq<Action>, trace: seq<Sys>, n: nat)
    requires IsRun(cfg, acts, trace) && n < |trace|
    ensures trace[n].q.done == DoneAfter(trace[n].calls)
    ensures forall id :: id in trace[n].calls ==> DoneBefore(acts, n, id)
  {
    if n == 0 {
    } else {
      DoneFollowsCalls(cfg, acts, trace, n - 1);
      assert StepAt(cfg, acts, trace, n - 1);
      var before, a := trace[n - 1], acts[n - 1];
      CallsStep(cfg, before, a);
      if a.DoneLock? {
        DoneAfterOneMore(before.calls, a.id);
      }
      forall id | id in trace[n].calls
        ensures DoneBefore(acts, n, id)
      {
        if id in before.calls {
          assert DoneBefore(acts, n - 1, id);
        }
      }
    }
  }

  /** Whatever a worker pops, each of its dependencies was marked done earlier in the run. */
  lemma PoppedAfterDependencies(cfg: Config, acts: seq<Action>, trace: seq<Sys>, n: nat, d: string)
    requires IsRun(cfg, acts, trace) && n < |acts|
    requires acts[n].Scan? && acts[n].choice.Found? && d in acts[n].choice.task.dependsOn
    ensures DoneBefore(acts, n, d)
  {
    DoneFollowsCalls(cfg, acts, trace, n);
    assert StepAt(cfg, acts, trace, n);
    assert DepsDone(acts[n].choice.task, trace[n].q.done);
    DoneWereCalled(trace[n].calls, d);
  }

  /** A waiting task is ready for its role while each of its dependencies is among the newest 5 001 completions. */
  lemma RecentDependenciesAreReady(cfg: Config, acts: seq<Action>, trace: seq<Sys>, n: nat, role: string, t: TaskInfo)
    requires IsRun(cfg, acts, trace) && n < |trace| && t in trace[n].q.waiting && Matches(role, t)
    requires forall d :: d in t.dependsOn ==> d in Newest(Unrepeated(trace[n].calls))
    ensures Candidate(trace[n].q, role, t)
  {
    DoneFollowsCalls(cfg, acts, trace, n);
    RecentDependenciesAreDone(trace[n].calls, t);
  }

  // ---------- Consistency over runs ----------

  /** Callers mark done, or failed, only tasks that are not waiting. */
  ghost predicate Disciplined(s: Sys, a: Action) {
    (a.DoneLock? || a.ForgetLock?) ==> !Waiting(s.q, a.id)
  }

  lemma StepConsistent(cfg: Config, s: Sys, a: Action)
    requires Enabled(cfg, s, a) && Disciplined(s, a) && Consistent(s.q)
    ensures Consistent(Apply(cfg, s, a).q)
  {
    match a
    case PushLock(t) => PushKeepsConsistent(s.q, t);
    case DoneLock(id, _) => MarkDoneConsistentIff(s.q, id);
    case ForgetLock(id) => assert Forgotten(s.q, id) == s.q;
    case Scan(_, Found(t)) => TakeKeepsConsistent(s.q, t);
    case _ =>
  }

  ghost predicate DisciplinedRun(acts: seq<Action>, trace: seq<Sys>) {
    |trace| == |acts| + 1 && forall i {:trigger acts[i]} :: 0 <= i < |acts| ==> Disciplined(trace[i], acts[i])
  }

  /** Such callers always find distinct waiting IDs, an exact dedup set, and no waiting task that is done. */
  lemma {:induction false} AlwaysConsistent(cfg: Config, acts: seq<Action>, trace: seq<Sys>, n: nat)
    requires IsRun(cfg, acts, trace) && DisciplinedRun(acts, trace) && n < |trace|
    ensures Consistent(trace[n].q)
  {
    if n == 0 {
    } else {
      AlwaysConsistent(cfg, acts, trace, n - 1);
      assert StepAt(cfg, acts, trace, n - 1);
      assert Disciplined(trace[n - 1], acts[n - 1]);
      StepConsistent(cfg, trace[n - 1], acts[n - 1]);
    }
  }

  // ---------- Who is in the queue ----------

  /** A pushed task is waiting afterwards, unless a task with its ID was waiting already or is remembered as done;
      then the push changes nothing. */
  lemma PushedGetsIn(cfg: Config, acts: seq<Action>, trace: seq<Sys>, n: nat)
    requires IsRun(cfg, acts, trace) && DisciplinedRun(acts, trace) && n < |acts| && acts[n].PushLock?
    ensures
      var t, q, q' := acts[n].task, trace[n].q, trace[n + 1].q;
      if (exists u :: u in q.waiting && u.id == t.id) || t.id in DoneAfter(trace[n].calls) then trace[n + 1] == trace[n]
      else q'.waiting == q.waiting + multiset{t}
  {
    AlwaysConsistent(cfg, acts, trace, n);
    DoneFollowsCalls(cfg, acts, trace, n);
    assert StepAt(cfg, acts, trace, n);
    var t, q := acts[n].task, trace[n].q;
    if t.id in q.inQueue {
      assert Waiting(q, t.id);
    }
  }

  /** Nothing enters but a task that is pushed, and nothing leaves but a task that a worker found. */
  lemma OnlyPushesAndPops(cfg: Config, acts: seq<Action>, trace: seq<Sys>, n: nat)
    requires IsRun(cfg, acts, trace) && n < |acts|
    ensures
      var waiting, waiting' := trace[n].q.waiting, trace[n + 1].q.waiting;
      match acts[n]
      case PushLock(t) => waiting' == waiting || waiting' == waiting + multiset{t}
      case Scan(_, Found(t)) => t in waiting && waiting' == waiting - multiset{t}
      case _ => waiting' == waiting
  {
    assert StepAt(cfg, acts, trace, n);
  }

  /** A worker takes a waiting task its role accepts, with every dependency remembered as done, and none of higher
      priority like that was waiting; a worker finds nothing only when no task is like that. */
  lemma PopsTheBest(cfg: Config, acts: seq<Action>, trace: seq<Sys>, n: nat, u: TaskInfo)
    requires IsRun(cfg, acts, trace) && n < |acts| && acts[n].Scan?
    ensures acts[n].worker in cfg
    ensures
      var role, q := cfg[acts[n].worker], trace[n].q;
      var ready := u in q.waiting && (role == "" || u.role == role) && forall d :: d in u.dependsOn ==> d in q.done;
      match acts[n].choice
      case Found(t) =>
        && t in q.waiting && (role == "" || t.role == role) && (forall d :: d in t.dependsOn ==> d in q.done)
        && (ready ==> u.priority <= t.priority)
      case NothingReady => !ready
  {
    assert StepAt(cfg, acts, trace, n);
    var role, q := cfg[acts[n].worker], trace[n].q;
    if u in q.waiting && (role == "" || u.role == role) && forall d :: d in u.dependsOn ==> d in q.done {
      assert Candidate(q, role, u);
    }
  }

  /** What enters and does not leave stays: until a worker finds it, a waiting task waits. */
  lemma {:induction false} WaitsUntilFound(cfg: Config, acts: seq<Action>, trace: seq<Sys>, i: nat, n: nat, t: TaskInfo)
    requires IsRun(cfg, acts, trace) && i <= n < |trace| && t in trace[i].q.waiting
    requires forall k :: i <= k < n ==> !(acts[k].Scan? && acts[k].choice == Found(t))
    ensures t in trace[n].q.waiting
    decreases n
  {
    if n == i {
    } else {
      WaitsUntilFound(cfg, acts, trace, i, n - 1, t);
      OnlyPushesAndPops(cfg, acts, trace, n - 1);
      assert !(acts[n - 1].Scan? && acts[n - 1].choice == Found(t));
    }
  }
}
