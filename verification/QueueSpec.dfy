/** What the task queue means, without its heap and indexes: a bag of waiting
    tasks, the IDs it refuses to enqueue again, and the completions it still remembers. */
module QueueSpec {
  import opened PriorityHeap

  const MAX_DONE_IDS: nat := 10_000

  /** `done` lists the remembered completions, oldest first. */
  datatype State = State(waiting: multiset<TaskInfo>, inQueue: set<string>, done: seq<string>)

  const EMPTY := State(multiset{}, {}, [])

  ghost predicate NoDup<T>(s: seq<T>) {
    forall i, j :: 0 <= i < j < |s| ==> s[i] != s[j]
  }

  // ---------- Which task a worker may take ----------

  /** The empty role accepts every task. */
  predicate Matches(role: string, t: TaskInfo) {
    role == "" || t.role == role
  }

  predicate DepsDone(t: TaskInfo, done: seq<string>) {
    forall d :: d in t.dependsOn ==> d in done
  }

  ghost predicate Candidate(s: State, role: string, t: TaskInfo) {
    t in s.waiting && Matches(role, t) && DepsDone(t, s.done)
  }

  ghost predicate HasReady(s: State, role: string) {
    exists t :: Candidate(s, role, t)
  }

  ghost predicate Best(s: State, role: string, t: TaskInfo) {
    Candidate(s, role, t) && forall u :: Candidate(s, role, u) ==> u.priority <= t.priority
  }

  // ---------- The atomic effects of the operations ----------

  predicate Accepts(s: State, t: TaskInfo) {
    t.id !in s.inQueue && t.id !in s.done
  }

  function Pushed(s: State, t: TaskInfo): State {
    if Accepts(s, t) then s.(waiting := s.waiting + multiset{t}, inQueue := s.inQueue + {t.id}) else s
  }

  function Taken(s: State, t: TaskInfo): State {
    s.(waiting := s.waiting - multiset{t}, inQueue := s.inQueue - {t.id})
  }

  /** Remember `id`; beyond the cap forget the oldest half. */
  function Recorded(done: seq<string>, id: string): seq<string> {
    if id in done then done
    else if |done| + 1 > MAX_DONE_IDS then (done + [id])[MAX_DONE_IDS / 2..]
    else done + [id]
  }

  function MarkedDone(s: State, id: string): State {
    s.(done := Recorded(s.done, id), inQueue := s.inQueue - {id})
  }

  function Forgotten(s: State, id: string): State {
    s.(inQueue := s.inQueue - {id})
  }

  /** MarkFailed: forget and push again while retries remain, otherwise drop. */
  function Retried(s: State, t: TaskInfo, retry: bool): State {
    if retry then Pushed(Forgotten(s, t.id), t) else s
  }

  /** The roles, in heap order, of the tasks that depend on `id`: MarkDone signals each of them. */
  function DependentRoles(tasks: seq<TaskInfo>, id: string): seq<string> {
    if tasks == [] then []
    else
      var last := tasks[|tasks| - 1];
      DependentRoles(tasks[..|tasks| - 1], id) + if id in last.dependsOn then [last.role] else []
  }

  lemma {:induction false} DependentIsSignalled(tasks: seq<TaskInfo>, id: string, t: TaskInfo)
    requires t in tasks && id in t.dependsOn
    ensures t.role in DependentRoles(tasks, id)
  {
    var n := |tasks| - 1;
    assert tasks == tasks[..n] + [tasks[n]];
    if t != tasks[n] {
      DependentIsSignalled(tasks[..n], id, t);
    }
  }

  /** And no other role is. */
  lemma {:induction false} OnlyDependentsAreSignalled(tasks: seq<TaskInfo>, id: string, role: string)
    requires role in DependentRoles(tasks, id)
    ensures exists t :: t in tasks && id in t.dependsOn && t.role == role
  {
    if tasks == [] {
    } else {
      var n := |tasks| - 1;
      assert tasks == tasks[..n] + [tasks[n]];
      if role in DependentRoles(tasks[..n], id) {
        OnlyDependentsAreSignalled(tasks[..n], id, role);
      } else {
        assert tasks[n] in tasks;
      }
    }
  }

  // ---------- Consistency between the three parts ----------

  ghost predicate Waiting(s: State, id: string) {
    exists t :: t in s.waiting && t.id == id
  }

  /** Waiting tasks have distinct IDs, `inQueue` holds exactly those, and none of them is done. */
  ghost predicate Consistent(s: State) {
    && (forall t :: t in s.waiting ==> s.waiting[t] == 1)
    && (forall t, u :: t in s.waiting && u in s.waiting && t.id == u.id ==> t == u)
    && (forall t :: t in s.waiting ==> t.id in s.inQueue && t.id !in s.done)
    && (forall id :: id in s.inQueue ==> Waiting(s, id))
  }

  lemma PushKeepsConsistent(s: State, t: TaskInfo)
    requires Consistent(s)
    ensures Consistent(Pushed(s, t))
  {
    var s' := Pushed(s, t);
    if s' != s {
      assert t !in s.waiting;
      forall id | id in s'.inQueue
        ensures Waiting(s', id)
      {
        if id == t.id {
          assert t in s'.waiting;
        } else {
          assert Waiting(s, id);
          var u :| u in s.waiting && u.id == id;
          assert u in s'.waiting;
        }
      }
    }
  }

  lemma TakeKeepsConsistent(s: State, t: TaskInfo)
    requires Consistent(s) && t in s.waiting
    ensures Consistent(Taken(s, t)) && !Waiting(Taken(s, t), t.id)
  {
    var s' := Taken(s, t);
    forall u | u in s'.waiting
      ensures u in s.waiting && s'.waiting[u] == 1 && u.id in s'.inQueue && u.id !in s.done
    {
      assert s.waiting[u] == 1 && u != t;
      assert u.id == t.id ==> u == t;
    }
    forall id | id in s'.inQueue
      ensures Waiting(s', id)
    {
      assert Waiting(s, id);
      var u :| u in s.waiting && u.id == id;
      assert u in s'.waiting;
    }
  }

  /** Marking a task done keeps the queue consistent exactly when that task is not waiting. */
  lemma MarkDoneConsistentIff(s: State, id: string)
    requires Consistent(s)
    ensures Consistent(MarkedDone(s, id)) <==> !Waiting(s, id)
  {
    var s' := MarkedDone(s, id);
    assert forall x :: x in s'.done ==> x in s.done || x == id;
    if Waiting(s, id) {
      var t :| t in s.waiting && t.id == id;
      assert t in s'.waiting && t.id !in s'.inQueue;
    } else {
      forall x | x in s'.inQueue
        ensures Waiting(s', x)
      {
        var u :| u in s.waiting && u.id == x;
        assert u in s'.waiting;
      }
    }
  }

  /** Retrying a failed task keeps the queue consistent exactly when it is dropped or not waiting. */
  lemma RetryConsistentIff(s: State, t: TaskInfo, retry: bool)
    requires Consistent(s)
    ensures Consistent(Retried(s, t, retry)) <==> !retry || !Waiting(s, t.id)
  {
    if retry {
      var f := Forgotten(s, t.id);
      if Waiting(s, t.id) {
        var u :| u in s.waiting && u.id == t.id;
        var s' := Pushed(f, t);
        assert t in s'.waiting && u in s'.waiting;
        assert t == u ==> s'.waiting[t] == 2;
      } else {
        assert f == s;
        PushKeepsConsistent(s, t);
      }
    }
  }

  /** Marking done remembers the ID and frees it in the dedup set; no other ID is affected there, and nobody who waits. */
  lemma MarkedDoneFrees(s: State, id: string)
    ensures
      var s' := MarkedDone(s, id);
      && id in s'.done && id !in s'.inQueue && s'.waiting == s.waiting
      && (forall x :: x != id ==> (x in s'.inQueue <==> x in s.inQueue))
  {
    if id !in s.done {
      var longer := s.done + [id];
      assert longer[|s.done|] == id;
      if |longer| > MAX_DONE_IDS {
        assert longer[MAX_DONE_IDS / 2..][|s.done| - MAX_DONE_IDS / 2] == id;
      }
    }
  }

  /** A retried task that is not done waits once more than before, whatever the dedup set says; nothing else
      changes. A task whose retries are used up changes nothing. */
  lemma RetriedWaits(s: State, t: TaskInfo)
    ensures Retried(s, t, false) == s
    ensures Retried(s, t, true).waiting == if t.id in s.done then s.waiting else s.waiting + multiset{t}
    ensures Retried(s, t, true).done == s.done
    ensures Retried(s, t, true).inQueue == if t.id in s.done then s.inQueue - {t.id} else s.inQueue + {t.id}
  {
    assert s.inQueue - {t.id} + {t.id} == s.inQueue + {t.id};
  }

  // ---------- The bounded memory of completions ----------

  /** The remembered completions after `calls`, a history of completed task IDs. */
  function DoneAfter(calls: seq<string>): seq<string> {
    if calls == [] then [] else Recorded(DoneAfter(calls[..|calls| - 1]), calls[|calls| - 1])
  }

  /** The calls of that history that were not recognised as repeats. */
  function Unrepeated(calls: seq<string>): seq<string> {
    if calls == [] then []
    else
      var before, id := calls[..|calls| - 1], calls[|calls| - 1];
      if id in DoneAfter(before) then Unrepeated(before) else Unrepeated(before) + [id]
  }

  /** `done` is the newest part of `news`, without repeats: within the cap, and everything or more than half a cap. */
  ghost predicate NewestOf(done: seq<string>, news: seq<string>) {
    && NoDup(done)
    && |done| <= MAX_DONE_IDS
    && |done| <= |news| && done == news[|news| - |done|..]
    && (|done| == |news| || |done| >= MAX_DONE_IDS / 2 + 1)
  }

  lemma SuffixOf(s: seq<string>, whole: seq<string>, k: nat)
    requires k <= |s| <= |whole| && NoDup(s) && s == whole[|whole| - |s|..]
    ensures NoDup(s[k..]) && s[k..] == whole[|whole| - |s[k..]|..]
  {
  }

  lemma RecordKeepsNewest(done: seq<string>, news: seq<string>, id: string)
    requires NewestOf(done, news) && id !in done
    ensures NewestOf(Recorded(done, id), news + [id])
  {
    var longer := done + [id];
    assert NoDup(longer);
    assert longer == (news + [id])[|news| - |done|..];
    if |longer| > MAX_DONE_IDS {
      SuffixOf(longer, news + [id], MAX_DONE_IDS / 2);
    }
  }

  /** Over any history the queue remembers at most 10 000 completions: the newest ones,
      without repeats, and at least the newest 5 001 (or all, when there were fewer). */
  lemma {:induction false} DoneIsNewest(calls: seq<string>)
    ensures NewestOf(DoneAfter(calls), Unrepeated(calls))
  {
    if calls == [] {
      assert NewestOf([], []);
    } else {
      var before, id := calls[..|calls| - 1], calls[|calls| - 1];
      DoneIsNewest(before);
      var done, news := DoneAfter(before), Unrepeated(before);
      if id in done {
        assert DoneAfter(calls) == done && Unrepeated(calls) == news;
      } else {
        RecordKeepsNewest(done, news, id);
        assert DoneAfter(calls) == Recorded(done, id) && Unrepeated(calls) == news + [id];
      }
    }
  }

  /** Only completed tasks are remembered. */
  lemma {:induction false} DoneWereCalled(calls: seq<string>, id: string)
    requires id in DoneAfter(calls)
    ensures id in calls
  {
    var before, last := calls[..|calls| - 1], calls[|calls| - 1];
    assert calls == before + [last];
    if id != last {
      assert id in DoneAfter(before) + [last];
      DoneWereCalled(before, id);
    }
  }

  /** In figures: at most 10 000 are remembered, at least 5 001 of more than 10 000, and all of up to 10 000. */
  lemma DoneInFigures(calls: seq<string>)
    ensures
      var done, news := DoneAfter(calls), Unrepeated(calls);
      && |done| <= 10_000 && |done| <= |news| && done == news[|news| - |done|..] && (|done| < |news| ==> |done| >= 5_001)
  {
    DoneIsNewest(calls);
  }

  // ---------- What that means for dependents ----------

  /** The newest 5 001 recorded completions, or all of them. */
  function Newest(news: seq<string>): seq<string> {
    if |news| <= 5_001 then news else news[|news| - 5_001..]
  }

  lemma LongerSuffix(s: seq<string>, p: nat, q: nat, x: string)
    requires q <= p <= |s| && x in s[p..]
    ensures x in s[q..]
  {
    assert s[q..] == s[q..p] + s[p..];
  }

  /** A waiting task is ready if each of its dependencies is among the newest 5 001 completions. */
  lemma RecentDependenciesAreDone(calls: seq<string>, t: TaskInfo)
    requires forall d :: d in t.dependsOn ==> d in Newest(Unrepeated(calls))
    ensures DepsDone(t, DoneAfter(calls))
  {
    var news, done := Unrepeated(calls), DoneAfter(calls);
    DoneIsNewest(calls);
    forall d | d in t.dependsOn
      ensures d in done
    {
      LongerSuffix(news, |news| - |Newest(news)|, |news| - |done|, d);
    }
  }

  /** What is forgotten stays so until it is marked done again. */
  lemma {:induction false} ForgottenForGood(calls: seq<string>, later: seq<string>, id: string)
    requires id !in DoneAfter(calls) && id !in later
    ensures id !in DoneAfter(calls + later)
  {
    if later == [] {
      assert calls + later == calls;
    } else {
      var n := |later| - 1;
      assert (calls + later)[..|calls + later| - 1] == calls + later[..n];
      ForgottenForGood(calls, later[..n], id);
      assert forall d :: d in Recorded(DoneAfter(calls + later[..n]), later[n]) ==> d in DoneAfter(calls + later[..n]) + [later[n]];
    }
  }

  /** Up to the cap, completions without repeats are all remembered. */
  lemma {:induction false} FewAreRemembered(calls: seq<string>)
    requires NoDup(calls) && |calls| <= MAX_DONE_IDS
    ensures DoneAfter(calls) == calls
  {
    if calls == [] {
    } else {
      var before, id := calls[..|calls| - 1], calls[|calls| - 1];
      FewAreRemembered(before);
      assert id !in before;
      assert before + [id] == calls;
    }
  }

  /** One completion more than the cap, without repeats, and the first is forgotten: a task that depends on it is not
      ready although all its dependencies were marked done, and never will be unless one is marked done again. */
  lemma OneTooMany(calls: seq<string>, t: TaskInfo, later: seq<string>)
    requires NoDup(calls) && |calls| == 10_001
    requires t.dependsOn == [calls[0]] && calls[0] !in later
    ensures !DepsDone(t, DoneAfter(calls)) && !DepsDone(t, DoneAfter(calls + later))
  {
    var before, id := calls[..MAX_DONE_IDS], calls[MAX_DONE_IDS];
    FewAreRemembered(before);
    assert id !in before && before + [id] == calls;
    assert DoneAfter(calls) == calls[MAX_DONE_IDS / 2..];
    ForgottenForGood(calls, later, calls[0]);
    assert calls[0] in t.dependsOn;
  }

  /** The oldest 5 000 are forgotten at once. */
  lemma HalfIsForgotten(calls: seq<string>)
    requires NoDup(calls) && |calls| == 10_001
    ensures DoneAfter(calls) == calls[5_000..]
  {
    var before, id := calls[..10_000], calls[10_000];
    FewAreRemembered(before);
    assert id !in before && before + [id] == calls;
  }

  /** There are such histories. */
  lemma ManyCompletions() returns (calls: seq<string>)
    ensures NoDup(calls) && |calls| == 10_001
  {
    calls := seq(10_001, (i: nat) => seq(i, _ => 'x'));
    forall i, j | 0 <= i < j < |calls|
      ensures calls[i] != calls[j]
    {
      assert |calls[i]| == i && |calls[j]| == j;
    }
  }
}
