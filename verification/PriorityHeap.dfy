/** The intrusive max-heap under the queue: tasks, heap items, and the heap
    primitives that `internal/queue/queue.go` obtains from Go's `container/heap`. */
module PriorityHeap {
  /** The fields of a task the queue reads; none of them changes while the task is queued. */
  datatype TaskInfo = TaskInfo(id: string, role: string, priority: int, dependsOn: seq<string>)

  datatype TaskStatus = Pending | Queued | Running | Finished | Failed | Cancelled

  class Task {
    const info: TaskInfo
    var retries: int
    var status: TaskStatus

    constructor (info: TaskInfo)
      ensures this.info == info && retries == 0 && status == Pending
    {
      this.info, retries, status := info, 0, Pending;
    }
  }

  /** One heap entry; `index` is its position in the heap, or -1 once it was removed. */
  class Item {
    const task: Task
    var index: int

    constructor (task: Task)
      ensures this.task == task
    {
      this.task := task;
      index := 0;
    }
  }

  function Pri(it: Item): int {
    it.task.info.priority
  }

  function Parent(k: nat): nat {
    if k == 0 then 0 else (k - 1) / 2
  }

  /** Entry `k` does not outrank its parent. */
  ghost predicate Above(s: seq<Item>, k: nat)
    requires k < |s|
  {
    Pri(s[Parent(k)]) >= Pri(s[k])
  }

  /** Entry `k` does not outrank its grandparent. */
  ghost predicate FarAbove(s: seq<Item>, k: nat)
    requires k < |s|
  {
    Pri(s[Parent(Parent(k))]) >= Pri(s[k])
  }

  /** Max-heap order of the first `n` entries. */
  ghost predicate Ordered(s: seq<Item>, n: nat)
    requires n <= |s|
  {
    forall k :: 0 < k < n ==> Above(s, k)
  }

  /** Heap order except between `hole` and its parent. */
  ghost predicate OrderedBelow(s: seq<Item>, n: nat, hole: nat)
    requires n <= |s|
  {
    && (forall k :: 0 < k < n && k != hole ==> Above(s, k))
    && (forall k :: 0 < k < n && 0 < hole && Parent(k) == hole ==> FarAbove(s, k))
  }

  /** Heap order except around `hole`: neither above it nor directly below it. */
  ghost predicate OrderedAround(s: seq<Item>, n: nat, hole: nat)
    requires n <= |s|
  {
    && (forall k :: 0 < k < n && k != hole && Parent(k) != hole ==> Above(s, k))
    && (forall k :: 0 < k < n && 0 < hole && Parent(k) == hole ==> FarAbove(s, k))
  }

  /** In a heap no entry outranks the root. */
  lemma {:induction false} RootIsMaximal(s: seq<Item>, n: nat, k: nat)
    requires k < n <= |s| && Ordered(s, n)
    ensures Pri(s[0]) >= Pri(s[k])
  {
    if k == 0 {
    } else {
      assert Above(s, k);
      RootIsMaximal(s, n, Parent(k));
    }
  }

  function Swapped(s: seq<Item>, i: nat, j: nat): seq<Item>
    requires i < |s| && j < |s|
  {
    s[i := s[j]][j := s[i]]
  }

  /** Same entries, each as often. */
  ghost predicate Permuted(s: seq<Item>, t: seq<Item>) {
    |s| == |t| && multiset(s) == multiset(t)
  }

  lemma SwapParts(a: seq<Item>, x: Item, m: seq<Item>, y: Item, z: seq<Item>)
    ensures multiset(a + [y] + m + [x] + z) == multiset(a + [x] + m + [y] + z)
  {
  }

  lemma SwapPermutesOrdered(s: seq<Item>, i: nat, j: nat)
    requires i < j < |s|
    ensures Permuted(Swapped(s, i, j), s)
  {
    var a, m, z := s[..i], s[i + 1..j], s[j + 1..];
    assert s == a + [s[i]] + m + [s[j]] + z;
    assert Swapped(s, i, j) == a + [s[j]] + m + [s[i]] + z;
    SwapParts(a, s[i], m, s[j], z);
  }

  lemma SwapPermutes(s: seq<Item>, i: nat, j: nat)
    requires i < |s| && j < |s|
    ensures Permuted(Swapped(s, i, j), s)
  {
    if i < j {
      SwapPermutesOrdered(s, i, j);
    } else if j < i {
      SwapPermutesOrdered(s, j, i);
      assert Swapped(s, i, j) == Swapped(s, j, i);
    } else {
      assert Swapped(s, i, j) == s;
    }
  }

  /** One sift-up swap moves the hole to the parent. */
  lemma UpStep(s: seq<Item>, n: nat, j: nat)
    requires 0 < j < n <= |s| && OrderedBelow(s, n, j) && Pri(s[j]) > Pri(s[Parent(j)])
    ensures OrderedBelow(Swapped(s, j, Parent(j)), n, Parent(j))
  {
    var i, t := Parent(j), Swapped(s, j, Parent(j));
    forall k | 0 < k < n && k != i
      ensures Above(t, k)
    {
      assert k != j ==> Above(s, k);
      assert Parent(k) == j ==> FarAbove(s, k);
    }
    forall k | 0 < k < n && 0 < i && Parent(k) == i
      ensures FarAbove(t, k)
    {
      assert Above(s, i);
      assert k != j ==> Above(s, k);
    }
  }

  lemma UpStop(s: seq<Item>, n: nat, j: nat)
    requires j < n <= |s| && OrderedBelow(s, n, j) && (0 < j ==> Pri(s[j]) <= Pri(s[Parent(j)]))
    ensures Ordered(s, n)
  {
    forall k | 0 < k < n
      ensures Above(s, k)
    {
      assert k != j ==> Above(s, k);
    }
  }

  /** `j` is the child of `i` that sift-down would promote. */
  ghost predicate TopChild(s: seq<Item>, n: nat, i: nat, j: nat)
    requires n <= |s|
  {
    && i < j < n && Parent(j) == i
    && (2 * i + 1 < n ==> Pri(s[j]) >= Pri(s[2 * i + 1]))
    && (2 * i + 2 < n ==> Pri(s[j]) >= Pri(s[2 * i + 2]))
  }

  /** One sift-down swap with the larger child moves the hole there and closes the gap above it. */
  lemma DownStep(s: seq<Item>, n: nat, i: nat, j: nat)
    requires i < j < n <= |s| && OrderedAround(s, n, i) && TopChild(s, n, i, j)
    requires Pri(s[j]) > Pri(s[i])
    ensures OrderedAround(Swapped(s, j, i), n, j)
    ensures Above(Swapped(s, j, i), j)
  {
    var t := Swapped(s, j, i);
    forall k | 0 < k < n && k != j && Parent(k) != j
      ensures Above(t, k)
    {
      if k == i {
        assert FarAbove(s, j);
      } else if Parent(k) == i {
        assert k == 2 * i + 1 || k == 2 * i + 2;
      } else {
        assert Above(s, k);
      }
    }
    forall k | 0 < k < n && Parent(k) == j
      ensures FarAbove(t, k)
    {
      assert Above(s, k);
    }
  }

  lemma DownStop(s: seq<Item>, n: nat, i: nat)
    requires i < n <= |s| && OrderedAround(s, n, i)
    requires 2 * i + 1 < n ==> exists j: nat :: j < n && TopChild(s, n, i, j) && Pri(s[j]) <= Pri(s[i])
    ensures OrderedBelow(s, n, i)
    ensures 0 < i && Above(s, i) ==> Ordered(s, n)
  {
    forall k | 0 < k < n && k != i
      ensures Above(s, k)
    {
      if Parent(k) == i {
        assert k == 2 * i + 1 || k == 2 * i + 2;
      } else {
        assert Above(s, k);
      }
    }
  }

  /** Moving the last entry into position `i` leaves a heap except around `i`. */
  lemma RemovalHole(s: seq<Item>, i: nat)
    requires i < |s| - 1 && Ordered(s, |s|)
    ensures OrderedAround(Swapped(s, i, |s| - 1), |s| - 1, i)
  {
    var n, t := |s| - 1, Swapped(s, i, |s| - 1);
    forall k | 0 < k < n && k != i && Parent(k) != i
      ensures Above(t, k)
    {
      assert Above(s, k);
    }
    forall k | 0 < k < n && 0 < i && Parent(k) == i
      ensures FarAbove(t, k)
    {
      assert Above(s, k) && Above(s, i);
    }
  }

  lemma PrefixStaysOrdered(s: seq<Item>, n: nat)
    requires n <= |s| && Ordered(s, n)
    ensures Ordered(s[..n], n)
  {
    forall k | 0 < k < n
      ensures Above(s[..n], k)
    {
      assert Above(s, k);
    }
  }

  class PQ {
    var items: seq<Item>
    ghost var Repr: set<Item>  // the entries of the heap

    /** Back-indices: every entry knows its position (so no entry occurs twice). */
    ghost predicate Indexed()
      reads this, Repr
    {
      && (forall i :: 0 <= i < |items| ==> items[i] in Repr && items[i].index == i)
      && (forall it :: it in Repr ==> 0 <= it.index < |items| && items[it.index] == it)
    }

    ghost predicate Valid()
      reads this, Repr
    {
      Indexed() && Ordered(items, |items|)
    }

    constructor ()
      ensures Valid() && items == [] && Repr == {}
    {
      items, Repr := [], {};
    }

    method Less(i: nat, j: nat) returns (less: bool)
      requires i < |items| && j < |items|
      ensures less <==> Pri(items[i]) > Pri(items[j])
    {
      less := items[i].task.info.priority > items[j].task.info.priority;
    }

    method Swap(i: nat, j: nat)
      requires i < |items| && j < |items| && Indexed()
      modifies this`items, Repr
      ensures Indexed() && items == Swapped(old(items), i, j) && Permuted(items, old(items))
    {
      SwapPermutes(items, i, j);
      items := Swapped(items, i, j);
      items[i].index := i;
      items[j].index := j;
    }

    /** Sift the entry at `start`, one of the first `n`, towards the root. */
    method Up(start: nat, ghost n: nat)
      requires start < n <= |items| && Indexed() && OrderedBelow(items, n, start)
      modifies this`items, Repr
      ensures Permuted(items, old(items)) && items[n..] == old(items[n..])
      ensures Indexed() && Ordered(items, n)
    {
      var j := start;
      while true
        invariant 0 <= j < n && Permuted(items, old(items)) && items[n..] == old(items[n..])
        invariant Indexed() && OrderedBelow(items, n, j)
        decreases j
      {
        var i := if j == 0 then 0 else (j - 1) / 2;
        if i == j {
          break;
        }
        var less := Less(j, i);
        if !less {
          break;
        }
        UpStep(items, n, j);
        Swap(j, i);
        j := i;
      }
      UpStop(items, n, j);
    }

    /** The child of `i` that sift-down compares with. */
    method LargerChild(i: nat, n: nat) returns (j: nat)
      requires 2 * i + 1 < n <= |items|
      ensures TopChild(items, n, i, j)
    {
      j := 2 * i + 1;
      var j2 := j + 1;
      if j2 < n {
        var rightFirst := Less(j2, j);
        if rightFirst {
          j := j2;
        }
      }
    }

    /** Sift the entry at `start` towards the leaves of the first `n` entries;
        `moved` tells whether it went anywhere. */
    method Down(start: nat, n: nat) returns (moved: bool)
      requires start < n <= |items| && Indexed() && OrderedAround(items, n, start)
      modifies this`items, Repr
      ensures Permuted(items, old(items)) && items[n..] == old(items[n..])
      ensures Indexed()
      ensures if moved then Ordered(items, n) else OrderedBelow(items, n, start)
    {
      var i := start;
      while 2 * i + 1 < n
        invariant start <= i < n && Permuted(items, old(items)) && items[n..] == old(items[n..])
        invariant Indexed() && OrderedAround(items, n, i)
        invariant i > start ==> Above(items, i)
        decreases n - i
      {
        var j := LargerChild(i, n);
        var less := Less(j, i);
        if !less {
          break;
        }
        DownStep(items, n, i, j);
        Swap(j, i);
        i := j;
      }
      DownStop(items, n, i);
      moved := i > start;
    }

    /** heap.Push: append, then restore order. */
    method Push(it: Item)
      requires Valid() && it !in Repr
      modifies this, Repr, it
      ensures Valid()
      ensures multiset(items) == old(multiset(items)) + multiset{it}
      ensures Repr == old(Repr) + {it}
    {
      it.index := |items|;
      items, Repr := items + [it], Repr + {it};
      assert forall k :: 0 < k < |items| - 1 ==> Above(old(items), k) ==> Above(items, k);
      Up(|items| - 1, |items|);
    }

    method Resift(i: nat, n: nat)
      requires i < n < |items| && Indexed() && OrderedAround(items, n, i)
      modifies this`items, Repr
      ensures Permuted(items, old(items)) && items[n] == old(items[n])
      ensures Indexed() && Ordered(items, n)
    {
      ghost var last := items[n..];
      assert last[0] == items[n];
      var moved := Down(i, n);
      if !moved {
        Up(i, n);
      }
      assert items[n..] == last && items[n..][0] == items[n];
    }

    /** The part of heap.Remove before the pop: swap with the last entry and re-sift. */
    method SwapOut(i: nat)
      requires Valid() && i < |items| - 1
      modifies this`items, Repr
      ensures Permuted(items, old(items)) && items[|items| - 1] == old(items[i])
      ensures Indexed() && Ordered(items, |items| - 1)
    {
      var n := |items| - 1;
      RemovalHole(items, i);
      Swap(i, n);
      Resift(i, n);
    }

    /** pq.Pop: drop the last entry and mark it removed. */
    method PopLast()
      requires Indexed() && |items| > 0
      modifies this, Repr
      ensures Indexed() && items == old(items[..|items| - 1])
      ensures multiset(items) + multiset{old(items[|items| - 1])} == old(multiset(items))
      ensures old(items[|items| - 1]).index == -1
      ensures Repr == old(Repr) - {old(items[|items| - 1])}
    {
      var n := |items| - 1;
      var it := items[n];
      assert items == items[..n] + [it];
      it.index := -1;
      items, Repr := items[..n], Repr - {it};
    }

    /** heap.Remove: swap with the last entry, re-sift, drop the last entry and mark it removed. */
    method Remove(i: nat)
      requires Valid() && i < |items|
      modifies this, Repr
      ensures Valid()
      ensures old(items[i]).index == -1
      ensures multiset(items) + multiset{old(items[i])} == old(multiset(items))
      ensures Repr == old(Repr) - {old(items[i])}
    {
      ghost var gone := items[i];
      var n := |items| - 1;
      if n != i {
        SwapOut(i);
      }
      PrefixStaysOrdered(items, n);
      PopLast();
    }
  }
}
