/** The priority queue of `internal/queue/queue.go` under its mutex: every method is one
    critical section (with the sends that follow it), proved against `QueueSpec`. */
module TaskQueue {
  import opened PriorityHeap
  import opened QueueSpec

  function Infos(items: seq<Item>): seq<TaskInfo> {
    seq(|items|, i requires 0 <= i < |items| => items[i].task.info)
  }

  lemma InfosWithout(items: seq<Item>, k: nat)
    requires k < |items|
    ensures multiset(items) == multiset{items[k]} + multiset(items[..k] + items[k + 1..])
    ensures multiset(Infos(items)) == multiset{items[k].task.info} + multiset(Infos(items[..k] + items[k + 1..]))
  {
    var p, q := items[..k], items[k + 1..];
    assert items == p + [items[k]] + q;
    assert Infos(items) == Infos(p) + [items[k].task.info] + Infos(q);
    assert Infos(p + q) == Infos(p) + Infos(q);
  }

  lemma Cancel<T>(x: multiset<T>, a: multiset<T>, b: multiset<T>)
    requires x + a == x + b
    ensures a == b
  {
    assert a == (x + a) - x == (x + b) - x == b;
  }

  lemma InBag(a: seq<Item>, b: seq<Item>, it: Item)
    requires multiset(a) == multiset(b) && it in a
    ensures it in b
  {
    assert it in multiset(a);
  }

  /** The bag of tasks in a heap does not depend on the order of its entries. */
  lemma {:induction false} PermutedInfos(a: seq<Item>, b: seq<Item>)
    requires multiset(a) == multiset(b)
    ensures multiset(Infos(a)) == multiset(Infos(b))
    decreases |a|
  {
    if a == [] {
      assert |multiset(b)| == 0;
      assert a == b;
    } else {
      InBag(a, b, a[0]);
      var k :| 0 <= k < |b| && b[k] == a[0];
      InfosWithout(a, 0);
      InfosWithout(b, k);
      var c, d := a[..0] + a[0 + 1..], b[..k] + b[k + 1..];
      Cancel(multiset{a[0]}, multiset(c), multiset(d));
      PermutedInfos(c, d);
    }
  }

  /** Adding one entry adds its task to the bag. */
  lemma InfosAfterPush(before: seq<Item>, after: seq<Item>, it: Item)
    requires multiset(after) == multiset(before) + multiset{it}
    ensures multiset(Infos(after)) == multiset(Infos(before)) + multiset{it.task.info}
  {
    PermutedInfos(after, before + [it]);
    assert Infos(before + [it]) == Infos(before) + [it.task.info];
  }

  lemma InfoMember(items: seq<Item>, t: TaskInfo)
    ensures t in multiset(Infos(items)) <==> exists i :: 0 <= i < |items| && items[i].task.info == t
  {
    assert t in multiset(Infos(items)) <==> t in Infos(items);
    forall i | 0 <= i < |items|
      ensures items[i].task.info in Infos(items)
    {
      assert Infos(items)[i] == items[i].task.info;
    }
  }

  lemma SwapTruncate(s: seq<Item>, i: nat)
    requires i < |s| && NoDup(s)
    ensures NoDup(s[i := s[|s| - 1]][..|s| - 1])
    ensures forall x :: x in s[i := s[|s| - 1]][..|s| - 1] <==> x in s && x != s[i]
  {
    var n := |s| - 1;
    var t := s[i := s[n]][..n];
    forall x | x in s && x != s[i]
      ensures x in t
    {
      var k :| 0 <= k < |s| && s[k] == x;
      assert t[if k == n then i else k] == x;
    }
  }

  /** The roles whose channel holds a token. */
  function Tokens(channels: map<string, bool>): set<string> {
    set r | r in channels && channels[r]
  }

  lemma TokensAfterSend(channels: map<string, bool>, role: string)
    ensures Tokens(channels[role := true]) == Tokens(channels) + {role}
  {
  }

  function Elements(roles: seq<string>): set<string> {
    set r | r in roles
  }

  class Queue {
    const heap: PQ
    var doneIDs: set<string>
    var doneSeq: seq<string>
    var inQueue: set<string>
    var roleIndex: map<string, seq<Item>>
    var notify: bool                    // token in the global channel
    var roleNotify: map<string, bool>   // token in each role channel created so far
    ghost var Repr: set<Item>           // every item of the heap or of a role's list

    function Bucket(role: string): seq<Item>
      reads this`roleIndex
    {
      if role in roleIndex then roleIndex[role] else []
    }

    ghost predicate HeapValid()
      reads this`Repr, heap, heap.Repr, Repr
    {
      && heap.Valid() && heap.Repr <= Repr
      && (forall it :: it in Repr ==> (it.index >= 0 <==> it in heap.Repr))
    }

    /** A role's list holds items of that role, each once; an item with a negative index is stale. */
    ghost predicate ListValid(role: string, items: seq<Item>)
      reads this`Repr
    {
      NoDup(items) && forall it :: it in items ==> it in Repr && it.task.info.role == role
    }

    ghost predicate IndexValid()
      reads this`roleIndex, this`Repr, heap`Repr
    {
      && (forall role :: role in roleIndex ==> ListValid(role, roleIndex[role]))
      && (forall it :: it in heap.Repr ==> it in Bucket(it.task.info.role))
    }

    ghost predicate DoneValid()
      reads this`doneIDs, this`doneSeq
    {
      NoDup(doneSeq) && |doneSeq| <= MAX_DONE_IDS && forall id :: id in doneIDs <==> id in doneSeq
    }

    ghost predicate Valid()
      reads this`roleIndex, this`doneIDs, this`doneSeq, this`Repr, heap, heap.Repr, Repr
    {
      HeapValid() && IndexValid() && DoneValid()
    }

    /** No role's list keeps an item that has left the heap. */
    ghost predicate NoStale()
      reads this`roleIndex, heap`Repr
    {
      forall role :: role in roleIndex ==> forall it :: it in roleIndex[role] ==> it in heap.Repr
    }

    /** `it` is the only such item. */
    ghost predicate OnlyStale(it: Item)
      reads this`roleIndex, heap`Repr
    {
      forall role :: role in roleIndex ==> forall x :: x in roleIndex[role] ==> x in heap.Repr || x == it
    }

    /** The same for one role's list. */
    ghost predicate AllLive(role: string)
      reads this`roleIndex, heap`Repr
    {
      forall it :: it in Bucket(role) ==> it in heap.Repr
    }

    ghost predicate AllLiveBut(role: string, it: Item)
      reads this`roleIndex, heap`Repr
    {
      forall x :: x in Bucket(role) ==> x in heap.Repr || x == it
    }

    ghost function Abs(): State
      reads this`inQueue, this`doneSeq, heap`items
    {
      State(multiset(Infos(heap.items)), inQueue, doneSeq)
    }

    constructor ()
      ensures Valid() && NoStale() && fresh(heap) && Repr == {} && Abs() == EMPTY
      ensures !notify && roleNotify == map[]
    {
      heap := new PQ();
      doneIDs, doneSeq, inQueue, roleIndex := {}, [], {}, map[];
      notify, roleNotify := false, map[];
      Repr := {};
    }

    /** Create a role's wake-up channel on first use. */
    method RoleChannel(role: string)
      modifies this`roleNotify
      ensures roleNotify == if role in old(roleNotify) then old(roleNotify) else old(roleNotify)[role := false]
    {
      if role !in roleNotify {
        roleNotify := roleNotify[role := false];
      }
    }

    /** The sends that follow the critical section of Push. */
    method Signal(role: string)
      modifies this`roleNotify, this`notify
      ensures notify && roleNotify == old(roleNotify)[role := true]
    {
      RoleChannel(role);
      roleNotify := roleNotify[role := true];
      notify := true;
    }

    method Enter(it: Item)
      requires Valid() && it !in Repr
      modifies this`roleIndex, this`Repr, heap, heap.Repr, it
      ensures Valid() && Repr == old(Repr) + {it} && (old(NoStale()) ==> NoStale())
      ensures multiset(Infos(heap.items)) == old(multiset(Infos(heap.items))) + multiset{it.task.info}
    {
      ghost var before := heap.items;
      var role := it.task.info.role;
      heap.Push(it);
      InfosAfterPush(before, heap.items, it);
      roleIndex := roleIndex[role := Bucket(role) + [it]];
      Repr := Repr + {it};
    }

    /** The critical section of Push once the ID is known to be new. */
    method Enqueue(task: Task)
      requires Valid()
      modifies this`inQueue, this`roleIndex, this`Repr, heap, Repr
      ensures Valid() && fresh(Repr - old(Repr)) && (old(NoStale()) ==> NoStale())
      ensures inQueue == old(inQueue) + {task.info.id}
      ensures multiset(Infos(heap.items)) == old(multiset(Infos(heap.items))) + multiset{task.info}
    {
      inQueue := inQueue + {task.info.id};
      var it := new Item(task);
      Enter(it);
    }

    /** Push: dropped when the ID is queued or done; otherwise enqueued, and the role's worker signalled. */
    method Push(task: Task)
      requires Valid()
      modifies this, heap, Repr
      ensures Valid() && fresh(Repr - old(Repr)) && (old(NoStale()) ==> NoStale())
      ensures Abs() == Pushed(old(Abs()), task.info)
      ensures multiset(Infos(heap.items)) == old(multiset(Infos(heap.items)))
        + if task.info.id in old(inQueue) || task.info.id in old(doneSeq) then multiset{} else multiset{task.info}
      ensures Accepts(old(Abs()), task.info) ==> notify && roleNotify == old(roleNotify)[task.info.role := true]
      ensures !Accepts(old(Abs()), task.info) ==> notify == old(notify) && roleNotify == old(roleNotify)
    {
      if task.info.id in inQueue || task.info.id in doneIDs {
        return;
      }
      Enqueue(task);
      Signal(task.info.role);
    }

    /** Slide the live entries of a list to its front, in place, and cut off the rest. */
    method LiveEntries(was: seq<Item>) returns (live: seq<Item>)
      requires HeapValid() && NoDup(was) && forall it :: it in was ==> it in Repr
      ensures NoDup(live) && forall it :: it in live <==> it in was && it in heap.Repr
    {
      var items, n := was, 0;
      for i := 0 to |items|
        invariant 0 <= n <= i <= |items| == |was|
        invariant forall k :: i <= k < |was| ==> items[k] == was[k]
        invariant NoDup(items[..n])
        invariant forall it :: it in items[..n] <==> it in was[..i] && it in heap.Repr
      {
        assert was[..i + 1] == was[..i] + [was[i]];
        if items[i].index >= 0 {
          items := items[n := items[i]];
          assert items[..n + 1] == items[..n] + [was[i]];
          n := n + 1;
        }
      }
      assert was[..|was|] == was;
      live := items[..n];
    }

    /** Drop the stale entries of a role's list. */
    method CompactRoleIndex(role: string)
      requires Valid()
      modifies this`roleIndex
      ensures Valid() && (old(NoStale()) ==> NoStale())
      ensures forall r :: r in old(roleIndex) && r != role ==> r in roleIndex && roleIndex[r] == old(roleIndex[r])
      ensures forall it :: it in Bucket(role) <==> it in old(Bucket(role)) && it in heap.Repr
    {
      var items := LiveEntries(Bucket(role));
      roleIndex := roleIndex[role := items];
    }

    /** Drop an item that left the heap from its role's list: swap with the last and truncate. */
    method RemoveFromRoleIndex(role: string, it: Item)
      requires Valid() && it !in heap.Repr && role == it.task.info.role
      modifies this`roleIndex
      ensures Valid() && (old(OnlyStale(it)) ==> NoStale()) && (old(AllLiveBut(role, it)) ==> AllLive(role))
      ensures forall r :: r in old(roleIndex) && r != role ==> r in roleIndex && roleIndex[r] == old(roleIndex[r])
      ensures forall x :: x in Bucket(role) <==> x in old(Bucket(role)) && x != it
    {
      var items := Bucket(role);
      for i := 0 to |items|
        invariant roleIndex == old(roleIndex)
        invariant it !in items[..i]
      {
        if items[i] == it {
          SwapTruncate(items, i);
          var last := |items| - 1;
          roleIndex := roleIndex[role := items[i := items[last]][..last]];
          return;
        }
      }
      assert items[..|items|] == items;
    }

    // ---------- findReady ----------

    ghost predicate Eligible(it: Item)
      reads this`doneSeq, heap`Repr
    {
      it in heap.Repr && DepsDone(it.task.info, doneSeq)
    }

    /** The slice findReady scans: one role's list, or the whole heap for the empty role. */
    function Candidates(role: string): seq<Item>
      reads this`roleIndex, heap`items
    {
      if role != "" then Bucket(role) else heap.items
    }

    method DepsAllDone(t: Task) returns (ok: bool)
      requires DoneValid()
      ensures ok <==> DepsDone(t.info, doneSeq)
    {
      var deps := t.info.dependsOn;
      for i := 0 to |deps|
        invariant forall d :: d in deps[..i] ==> d in doneSeq
      {
        if deps[i] !in doneIDs {
          return false;
        }
      }
      assert deps[..|deps|] == deps;
      return true;
    }

    /** Among the first `n` items, `best` is the first eligible one of maximal priority, at position `at`; null if
        none is eligible. */
    ghost predicate FirstBest(items: seq<Item>, n: nat, best: Item?, at: nat)
      requires n <= |items|
      reads this`doneSeq, heap`Repr
    {
      if best == null then forall k :: 0 <= k < n ==> !Eligible(items[k])
      else
        && at < n && items[at] == best && Eligible(best)
        && (forall k :: 0 <= k < at && Eligible(items[k]) ==> Pri(items[k]) < Pri(best))
        && (forall k :: at <= k < n && Eligible(items[k]) ==> Pri(items[k]) <= Pri(best))
    }

    lemma BestStays(items: seq<Item>, n: nat, best: Item?, at: nat)
      requires n < |items| && FirstBest(items, n, best, at)
      requires Eligible(items[n]) ==> best != null && Pri(items[n]) <= Pri(best)
      ensures FirstBest(items, n + 1, best, at)
    {
    }

    lemma BestReplaced(items: seq<Item>, n: nat, best: Item?, at: nat)
      requires n < |items| && FirstBest(items, n, best, at)
      requires Eligible(items[n]) && (best == null || Pri(best) < Pri(items[n]))
      ensures FirstBest(items, n + 1, items[n], n)
    {
    }

    /** How many of the first `n` items have left the heap. */
    ghost function Stale(items: seq<Item>, n: nat): nat
      requires n <= |items|
      reads heap`Repr
    {
      if n == 0 then 0 else Stale(items, n - 1) + if items[n - 1] in heap.Repr then 0 else 1
    }

    lemma {:induction false} NoneStaleIff(items: seq<Item>, n: nat)
      requires n <= |items|
      ensures Stale(items, n) == 0 <==> forall k :: 0 <= k < n ==> items[k] in heap.Repr
    {
      if n == 0 {
      } else {
        NoneStaleIff(items, n - 1);
      }
    }

    /** As long as no list keeps a stale item, the scan finds none and compaction has no work. */
    lemma NothingToCompact(role: string)
      requires Valid() && NoStale()
      ensures Stale(Candidates(role), |Candidates(role)|) == 0
    {
      NoneStaleIff(Candidates(role), |Candidates(role)|);
    }

    /** Whether an item is stale, and if not, whether its task's dependencies are done. */
    method Examine(it: Item) returns (gone: bool, ok: bool)
      requires Valid() && it in Repr
      ensures gone <==> it !in heap.Repr
      ensures ok <==> Eligible(it)
    {
      if it.index < 0 {
        return true, false;
      }
      ok := DepsAllDone(it.task);
      gone := false;
    }

    lemma CandidatesKnown(role: string)
      requires Valid()
      ensures forall it :: it in Candidates(role) ==> it in Repr
    {
    }

    /** The scan of findReady: the first eligible candidate of maximal priority, and how many were stale. */
    method Scan(role: string) returns (best: Item?, stale: nat, ghost at: nat)
      requires Valid()
      ensures FirstBest(Candidates(role), |Candidates(role)|, best, at)
      ensures stale == Stale(Candidates(role), |Candidates(role)|)
    {
      CandidatesKnown(role);
      var candidates := Candidates(role);
      best, stale, at := null, 0, 0;
      for i := 0 to |candidates|
        invariant FirstBest(candidates, i, best, at)
        invariant stale == Stale(candidates, i)
      {
        var it := candidates[i];
        var gone, ok := Examine(it);
        if gone {
          stale := stale + 1;
        }
        if ok && (best == null || it.task.info.priority > best.task.info.priority) {
          BestReplaced(candidates, i, best, at);
          best, at := it, i;
        } else {
          BestStays(candidates, i, best, at);
        }
      }
    }

    /** A task that is a candidate is carried by an eligible item in the scanned slice. */
    lemma ScanCovers(role: string, t: TaskInfo)
      requires Valid()
      ensures Candidate(Abs(), role, t) ==> exists it :: it in Candidates(role) && Eligible(it) && it.task.info == t
    {
      if Candidate(Abs(), role, t) {
        InfoMember(heap.items, t);
        var k :| 0 <= k < |heap.items| && heap.items[k].task.info == t;
        assert heap.items[k] in heap.Repr;
        assert heap.items[k] in Candidates(role);
      }
    }

    /** And every such item carries a candidate. */
    lemma ScanSound(role: string, it: Item)
      requires Valid() && it in Candidates(role) && Eligible(it)
      ensures Candidate(Abs(), role, it.task.info)
    {
      assert heap.items[it.index] == it;
      InfoMember(heap.items, it.task.info);
      assert role != "" ==> it in roleIndex[role];
    }

    /** The scan finds nothing exactly when no task is ready, and otherwise finds a best one. */
    method Select(role: string) returns (best: Item?, stale: nat)
      requires Valid()
      ensures best == null <==> !HasReady(Abs(), role)
      ensures best != null ==> best in heap.Repr && Best(Abs(), role, best.task.info)
      ensures stale == Stale(Candidates(role), |Candidates(role)|)
    {
      ghost var at: nat;
      best, stale, at := Scan(role);
      if best != null {
        ScanSound(role, best);
      }
      forall t | Candidate(Abs(), role, t)
        ensures best != null && t.priority <= Pri(best)
      {
        ScanCovers(role, t);
      }
    }

    /** Compact a role's list when more than a quarter of it is stale. */
    method CompactIfStale(role: string, stale: nat)
      requires Valid() && stale == Stale(Candidates(role), |Candidates(role)|)
      modifies this`roleIndex
      ensures Valid() && (old(NoStale()) ==> NoStale())
      ensures if role != "" && stale * 4 > old(|Bucket(role)|) then AllLive(role) else roleIndex == old(roleIndex)
    {
      if role != "" && stale > 0 && stale * 4 > |Candidates(role)| {
        CompactRoleIndex(role);
      }
    }

    method Detach(it: Item)
      requires Valid() && it in heap.Repr
      modifies heap, heap.Repr
      ensures Valid() && (old(NoStale()) ==> OnlyStale(it))
      ensures old(AllLive(it.task.info.role)) ==> AllLiveBut(it.task.info.role, it)
      ensures heap.Repr == old(heap.Repr) - {it}
      ensures multiset(Infos(heap.items)) == old(multiset(Infos(heap.items))) - multiset{it.task.info}
    {
      ghost var before := heap.items;
      heap.Remove(it.index);
      InfosAfterPush(heap.items, before, it);
    }

    method Forget(it: Item)
      requires Valid() && it !in heap.Repr
      modifies this`roleIndex, this`inQueue
      ensures Valid() && (old(OnlyStale(it)) ==> NoStale())
      ensures old(AllLiveBut(it.task.info.role, it)) ==> AllLive(it.task.info.role)
      ensures inQueue == old(inQueue) - {it.task.info.id}
    {
      RemoveFromRoleIndex(it.task.info.role, it);
      inQueue := inQueue - {it.task.info.id};
    }

    /** Remove a found item from the heap, its role's list and the dedup set. */
    method Extract(it: Item)
      requires Valid() && it in heap.Repr
      modifies this`roleIndex, this`inQueue, heap, heap.Repr
      ensures Valid() && (old(NoStale()) ==> NoStale())
      ensures Abs() == Taken(old(Abs()), it.task.info)
      ensures heap.Repr == old(heap.Repr) - {it}
      ensures old(AllLive(it.task.info.role)) ==> AllLive(it.task.info.role)
    {
      Detach(it);
      Forget(it);
    }

    /** findReady: take a task of maximal priority among the waiting tasks the role accepts whose
        dependencies are done; nil exactly when there is none. Nothing else leaves the queue. */
    method FindReady(role: string) returns (task: Task?)
      requires Valid()
      modifies this`roleIndex, this`inQueue, heap, heap.Repr
      ensures Valid() && (old(NoStale()) ==> NoStale())
      ensures task == null <==> !HasReady(old(Abs()), role)
      ensures task == null ==> Abs() == old(Abs())
      ensures task != null ==> Best(old(Abs()), role, task.info) && Abs() == Taken(old(Abs()), task.info)
      ensures task != null ==> exists it :: it in old(heap.Repr) && it.task == task && heap.Repr == old(heap.Repr) - {it}
      ensures role != "" && old(Stale(Bucket(role), |Bucket(role)|) * 4 > |Bucket(role)|) ==> AllLive(role)
    {
      var best, stale := Select(role);
      CompactIfStale(role, stale);
      if best == null {
        return null;
      }
      assert Best(Abs(), role, best.task.info);
      Extract(best);
      return best.task;
    }

    // ---------- Completions and retries ----------

    /** recordDone: remember a completion, evicting the oldest half beyond the cap. */
    method RecordDone(id: string)
      requires DoneValid()
      modifies this`doneIDs, this`doneSeq
      ensures DoneValid() && doneSeq == Recorded(old(doneSeq), id)
    {
      if id in doneIDs {
        return;
      }
      doneIDs, doneSeq := doneIDs + {id}, doneSeq + [id];
      if |doneSeq| > MAX_DONE_IDS {
        var half := MAX_DONE_IDS / 2;
        var evict := doneSeq[..half];
        for k := 0 to |evict|
          invariant doneSeq == old(doneSeq) + [id]
          invariant forall x :: x in doneIDs <==> x in doneSeq[k..]
        {
          assert doneSeq[k..] == [doneSeq[k]] + doneSeq[k + 1..];
          doneIDs := doneIDs - {evict[k]};
        }
        doneSeq := doneSeq[half..];
      }
    }

    method Complete(taskID: string)
      requires Valid()
      modifies this`doneIDs, this`doneSeq, this`inQueue
      ensures Valid() && Abs() == MarkedDone(old(Abs()), taskID)
    {
      RecordDone(taskID);
      inQueue := inQueue - {taskID};
    }

    /** The sends that follow the critical section of MarkDone. */
    method SignalAll(roles: seq<string>)
      modifies this`notify, this`roleNotify
      ensures notify && Tokens(roleNotify) == Tokens(old(roleNotify)) + Elements(roles)
    {
      for i := 0 to |roles|
        invariant Tokens(roleNotify) == Tokens(old(roleNotify)) + Elements(roles[..i])
      {
        TokensAfterSend(roleNotify, roles[i]);
        assert roles[..i + 1] == roles[..i] + [roles[i]];
        assert Elements(roles[..i + 1]) == Elements(roles[..i]) + {roles[i]};
        roleNotify := roleNotify[roles[i] := true];
      }
      assert roles[..|roles|] == roles;
      notify := true;
    }

    /** The heap scan of MarkDone; it creates the channels it returns. */
    method DependentsOf(taskID: string) returns (roles: seq<string>)
      modifies this`roleNotify
      ensures roles == DependentRoles(Infos(heap.items), taskID)
      ensures Tokens(roleNotify) == Tokens(old(roleNotify))
    {
      roles := [];
      ghost var tasks := Infos(heap.items);
      for i := 0 to |heap.items|
        invariant roles == DependentRoles(tasks[..i], taskID)
        invariant Tokens(roleNotify) == Tokens(old(roleNotify))
      {
        assert tasks[..i + 1][..i] == tasks[..i];
        var t := heap.items[i].task;
        if taskID in t.info.dependsOn {
          RoleChannel(t.info.role);
          roles := roles + [t.info.role];
        }
      }
      assert tasks[..|tasks|] == tasks;
    }

    /** The rest of MarkDone: find the roles of the dependents and signal them. */
    method Notify(taskID: string)
      modifies this`notify, this`roleNotify
      ensures notify
      ensures Tokens(roleNotify) == Tokens(old(roleNotify)) + Elements(DependentRoles(Infos(heap.items), taskID))
    {
      var rolesToNotify := DependentsOf(taskID);
      SignalAll(rolesToNotify);
    }

    /** MarkDone: record the completion, then signal the roles of all waiting dependents and the global channel. */
    method MarkDone(taskID: string)
      requires Valid()
      modifies this`doneIDs, this`doneSeq, this`inQueue, this`notify, this`roleNotify
      ensures Valid() && (old(NoStale()) ==> NoStale())
      ensures Abs() == MarkedDone(old(Abs()), taskID)
      ensures notify
      ensures Tokens(roleNotify) == Tokens(old(roleNotify)) + Elements(DependentRoles(Infos(heap.items), taskID))
    {
      Complete(taskID);
      Notify(taskID);
    }

    /** The second half of MarkFailed: forget the ID, and push the task again. */
    method Requeue(task: Task)
      requires Valid()
      modifies this, heap, Repr
      ensures Valid() && fresh(Repr - old(Repr)) && (old(NoStale()) ==> NoStale())
      ensures Abs() == Retried(old(Abs()), task.info, true)
      ensures
        if task.info.id in old(doneSeq) then notify == old(notify) && roleNotify == old(roleNotify)
        else notify && roleNotify == old(roleNotify)[task.info.role := true]
    {
      inQueue := inQueue - {task.info.id};
      Push(task);
    }

    /** MarkFailed: count the attempt; while retries remain, queue the task again. */
    method MarkFailed(task: Task, maxRetries: int)
      requires Valid()
      modifies this, heap, Repr, task
      ensures Valid() && fresh(Repr - old(Repr)) && (old(NoStale()) ==> NoStale())
      ensures task.retries == old(task.retries) + 1
      ensures Abs() == Retried(old(Abs()), task.info, task.retries <= maxRetries)
      ensures multiset(Infos(heap.items)) == old(multiset(Infos(heap.items)))
        + if task.retries <= maxRetries && task.info.id !in old(doneSeq) then multiset{task.info} else multiset{}
      ensures
        if task.retries <= maxRetries && task.info.id !in old(doneSeq) then notify && roleNotify == old(roleNotify)[task.info.role := true]
        else notify == old(notify) && roleNotify == old(roleNotify)
      ensures task.status == if task.retries <= maxRetries then Queued else old(task.status)
    {
      RetriedWaits(Abs(), task.info);
      task.retries := task.retries + 1;
      var shouldRetry := task.retries <= maxRetries;
      if shouldRetry {
        task.status := Queued;
        Requeue(task);
      }
    }
  }
}
