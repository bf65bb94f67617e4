/** The two indexes of the reply store (`internal/agent/reply_store.go`), over any type of answer channel. */
module ReplySpec {
  datatype Entry<C> = Entry(ch: C, taskID: string, questionID: string)

  datatype Store<C> = Store(byMsg: map<int, Entry<C>>, byTask: map<string, seq<int>>)

  type TaskIndex = map<string, seq<int>>

  function Listed(index: TaskIndex, t: string): seq<int> {
    if t in index then index[t] else []
  }

  function RemoveFirst(s: seq<int>, x: int): seq<int> {
    if s == [] then [] else if s[0] == x then s[1..] else [s[0]] + RemoveFirst(s[1..], x)
  }

  function ReplaceFirst(s: seq<int>, x: int, y: int): seq<int> {
    if s == [] then [] else if s[0] == x then [y] + s[1..] else [s[0]] + ReplaceFirst(s[1..], x, y)
  }

  /** A list written back to the index; an empty one is dropped. */
  function WithList(index: TaskIndex, t: string, list: seq<int>): TaskIndex {
    if list == [] then index - {t} else index[t := list]
  }

  // ---------- The operations ----------

  function Registered<C>(st: Store<C>, m: int, t: string, q: string, ch: C): Store<C> {
    Store(st.byMsg[m := Entry(ch, t, q)], st.byTask[t := Listed(st.byTask, t) + [m]])
  }

  /** Resolve and UnregisterByMsgID on a known message. */
  function Removed<C>(st: Store<C>, m: int): Store<C>
    requires m in st.byMsg
  {
    var t := st.byMsg[m].taskID;
    Store(st.byMsg - {m}, WithList(st.byTask, t, RemoveFirst(Listed(st.byTask, t), m)))
  }

  /** ResolveByTask on a task with a listed message. */
  function TakenFirst<C>(st: Store<C>, t: string): Store<C>
    requires Listed(st.byTask, t) != []
  {
    var list := Listed(st.byTask, t);
    Store(st.byMsg - {list[0]}, WithList(st.byTask, t, list[1..]))
  }

  function Unregistered<C>(st: Store<C>, m: int, t: string): Store<C> {
    Store(st.byMsg - {m}, WithList(st.byTask, t, RemoveFirst(Listed(st.byTask, t), m)))
  }

  function Reregistered<C>(st: Store<C>, o: int, n: int, t: string, q: string): Store<C> {
    if o !in st.byMsg then st
    else Store((st.byMsg - {o})[n := Entry(st.byMsg[o].ch, t, q)],
               if t in st.byTask then st.byTask[t := ReplaceFirst(st.byTask[t], o, n)] else st.byTask)
  }

  // ---------- The indexes are mutually inverse ----------

  ghost predicate NoDup(s: seq<int>) {
    forall i, j :: 0 <= i < j < |s| ==> s[i] != s[j]
  }

  ghost predicate ListOk<C>(st: Store<C>, t: string)
    requires t in st.byTask
  {
    st.byTask[t] != [] && NoDup(st.byTask[t]) && forall m :: m in st.byTask[t] ==> m in st.byMsg && st.byMsg[m].taskID == t
  }

  /** Every entry is listed under its task; every listed message has an entry of that task; lists are
      non-empty and without repeats. */
  ghost predicate Inverse<C>(st: Store<C>) {
    && (forall m :: m in st.byMsg ==> m in Listed(st.byTask, st.byMsg[m].taskID))
    && (forall t :: t in st.byTask ==> ListOk(st, t))
  }

  /** Then a message is listed for a task exactly when some entry is of that task. */
  lemma ListedIffPending<C>(st: Store<C>, t: string)
    ensures Inverse(st) ==> (Listed(st.byTask, t) != [] <==> exists m :: m in st.byMsg && st.byMsg[m].taskID == t)
  {
    if Inverse(st) && t in st.byTask {
      assert ListOk(st, t);
      assert st.byTask[t][0] in st.byTask[t];
    }
  }

  lemma PrependFresh(x: int, s: seq<int>)
    requires NoDup(s) && x !in s
    ensures NoDup([x] + s)
  {
  }

  lemma {:induction false} RemoveFirstOnce(s: seq<int>, x: int)
    requires NoDup(s)
    ensures NoDup(RemoveFirst(s, x))
    ensures forall y :: y in RemoveFirst(s, x) <==> y in s && y != x
  {
    if s == [] {
    } else {
      var tail := s[1..];
      RemoveFirstOnce(tail, x);
      assert s[0] !in tail;
      var r := RemoveFirst(tail, x);
      if s[0] != x {
        PrependFresh(s[0], r);
      }
      forall y
        ensures y in RemoveFirst(s, x) <==> y in s && y != x
      {
        assert y in s <==> y == s[0] || y in tail;
      }
    }
  }

  lemma {:induction false} ReplaceFirstAt(s: seq<int>, x: int, y: int, k: nat)
    requires NoDup(s) && k < |s|
    ensures |ReplaceFirst(s, x, y)| == |s|
    ensures ReplaceFirst(s, x, y)[k] == if s[k] == x then y else s[k]
  {
    if s[0] != x {
      if k > 0 {
        ReplaceFirstAt(s[1..], x, y, k - 1);
      } else if |s| > 1 {
        ReplaceFirstAt(s[1..], x, y, 0);
      }
    }
  }

  /** Registering keeps the indexes inverse exactly when the message ID is new. */
  lemma RegisterInverseIff<C>(st: Store<C>, m: int, t: string, q: string, ch: C)
    requires Inverse(st)
    ensures Inverse(Registered(st, m, t, q, ch)) <==> m !in st.byMsg
  {
    var st' := Registered(st, m, t, q, ch);
    var list := Listed(st.byTask, t);
    assert st'.byTask[t] == list + [m];
    if m in st.byMsg {
      var u := st.byMsg[m].taskID;
      assert m in Listed(st.byTask, u);
      if u == t {
        var k :| 0 <= k < |list| && list[k] == m;
        assert st'.byTask[t][k] == m && st'.byTask[t][|list|] == m;
        assert !ListOk(st', t);
      } else {
        assert m in st'.byTask[u] && !ListOk(st', u);
      }
    } else {
      assert t in st.byTask ==> ListOk(st, t);
      forall u | u in st'.byTask
        ensures ListOk(st', u)
      {
        assert u != t ==> ListOk(st, u);
      }
    }
  }

  lemma RemoveKeepsInverse<C>(st: Store<C>, m: int)
    requires Inverse(st) && m in st.byMsg
    ensures Inverse(Removed(st, m))
  {
    var t, st' := st.byMsg[m].taskID, Removed(st, m);
    assert ListOk(st, t);
    RemoveFirstOnce(st.byTask[t], m);
    forall u | u in st'.byTask
      ensures ListOk(st', u)
    {
      assert ListOk(st, u);
    }
  }

  lemma TakeFirstIsRemove<C>(st: Store<C>, t: string)
    requires Inverse(st) && t in st.byTask
    ensures Listed(st.byTask, t) != [] && Listed(st.byTask, t)[0] in st.byMsg
    ensures TakenFirst(st, t) == Removed(st, Listed(st.byTask, t)[0])
  {
    assert ListOk(st, t);
    var first := st.byTask[t][0];
    assert first in st.byTask[t];
    assert first in st.byMsg;
  }

  /** Unregistering keeps the indexes inverse exactly when the message is unknown or belongs to that task. */
  lemma UnregisterInverseIff<C>(st: Store<C>, m: int, t: string)
    requires Inverse(st)
    ensures Inverse(Unregistered(st, m, t)) <==> m !in st.byMsg || st.byMsg[m].taskID == t
  {
    var st' := Unregistered(st, m, t);
    assert t in st.byTask ==> ListOk(st, t);
    if m !in st.byMsg {
      RemoveFirstOnce(Listed(st.byTask, t), m);
      forall u | u in st'.byTask
        ensures ListOk(st', u)
      {
        assert ListOk(st, u);
      }
    } else if st.byMsg[m].taskID == t {
      RemoveKeepsInverse(st, m);
    } else {
      var u := st.byMsg[m].taskID;
      assert m in st'.byTask[u] && !ListOk(st', u);
    }
  }

  lemma ReregisterKeeps<C>(st: Store<C>, o: int, n: int, t: string, q: string)
    requires Inverse(st) && o in st.byMsg && st.byMsg[o].taskID == t && (n == o || n !in st.byMsg)
    ensures Inverse(Reregistered(st, o, n, t, q))
  {
    var st' := Reregistered(st, o, n, t, q);
    assert ListOk(st, t);
    var list := st.byTask[t];
    var list' := ReplaceFirst(list, o, n);
    forall k | 0 <= k < |list|
      ensures |list'| == |list| && list'[k] == if list[k] == o then n else list[k]
    {
      ReplaceFirstAt(list, o, n, k);
    }
    assert |list'| == |list|;
    forall u | u in st'.byTask
      ensures ListOk(st', u)
    {
      assert ListOk(st, u);
      if u == t {
        assert forall k :: 0 <= k < |list| ==> list[k] in list && list[k] in st.byMsg;
      }
    }
    forall m | m in st'.byMsg
      ensures m in Listed(st'.byTask, st'.byMsg[m].taskID)
    {
      var x := if m == n then o else m;
      assert x in st.byMsg && x in Listed(st.byTask, st.byMsg[x].taskID);
      if st.byMsg[x].taskID == t {
        var k :| 0 <= k < |list| && list[k] == x;
        assert list'[k] == m;
      }
    }
  }

  lemma ReregisterBreaks<C>(st: Store<C>, o: int, n: int, t: string, q: string)
    requires Inverse(st) && o in st.byMsg && !(st.byMsg[o].taskID == t && (n == o || n !in st.byMsg))
    ensures !Inverse(Reregistered(st, o, n, t, q))
  {
    var st' := Reregistered(st, o, n, t, q);
    var u := st.byMsg[o].taskID;
    assert o in st.byTask[u];
    if u != t {
      assert !ListOk(st', u);
    } else {
      var list := st.byTask[t];
      assert ListOk(st, t);
      var v := st.byMsg[n].taskID;
      assert n in st.byTask[v];
      if v == t {
        var i :| 0 <= i < |list| && list[i] == o;
        var j :| 0 <= j < |list| && list[j] == n;
        ReplaceFirstAt(list, o, n, i);
        ReplaceFirstAt(list, o, n, j);
        assert !NoDup(st'.byTask[t]);
      } else {
        assert !ListOk(st', v);
      }
    }
  }

  /** Reregistering keeps the indexes inverse exactly when the old message is unknown, or belongs to that
      task while the new one is unused. */
  lemma ReregisterInverseIff<C>(st: Store<C>, o: int, n: int, t: string, q: string)
    requires Inverse(st)
    ensures Inverse(Reregistered(st, o, n, t, q)) <==>
      o !in st.byMsg || (st.byMsg[o].taskID == t && (n == o || n !in st.byMsg))
  {
    if o in st.byMsg {
      if st.byMsg[o].taskID == t && (n == o || n !in st.byMsg) {
        ReregisterKeeps(st, o, n, t, q);
      } else {
        ReregisterBreaks(st, o, n, t, q);
      }
    }
  }

  // ---------- Other questions ----------

  /** The message is pending for the task. */
  ghost predicate PendingFor<C>(st: Store<C>, t: string, m: int) {
    m in st.byMsg && st.byMsg[m].taskID == t && m in Listed(st.byTask, t)
  }

  /** The two messages are listed for the task, the one before the other. */
  ghost predicate ListedBefore(list: seq<int>, m: int, n: int) {
    exists i, j :: 0 <= i < j < |list| && list[i] == m && list[j] == n
  }

  lemma ListedBeforeSplit(s: seq<int>, m: int, n: int)
    requires s != []
    ensures ListedBefore(s, m, n) <==> (s[0] == m && n in s[1..]) || ListedBefore(s[1..], m, n)
  {
    if s[0] == m && n in s[1..] {
      var j :| 0 <= j < |s[1..]| && s[1..][j] == n;
      assert s[0] == m && s[j + 1] == n;
    }
    if ListedBefore(s[1..], m, n) {
      var i, j :| 0 <= i < j < |s[1..]| && s[1..][i] == m && s[1..][j] == n;
      assert s[i + 1] == m && s[j + 1] == n;
    }
    if ListedBefore(s, m, n) {
      var i, j :| 0 <= i < j < |s| && s[i] == m && s[j] == n;
      assert s[1..][j - 1] == n;
      if i > 0 {
        assert s[1..][i - 1] == m;
      }
    }
  }

  lemma {:induction false} RemovalKeepsOrder(s: seq<int>, x: int, m: int, n: int)
    requires NoDup(s) && m != x && n != x
    ensures ListedBefore(RemoveFirst(s, x), m, n) <==> ListedBefore(s, m, n)
  {
    if s == [] {
    } else {
      var tail, r := s[1..], RemoveFirst(s, x);
      RemovalKeepsOrder(tail, x, m, n);
      RemoveFirstOnce(tail, x);
      ListedBeforeSplit(s, m, n);
      if s[0] != x {
        ListedBeforeSplit(r, m, n);
        assert r[1..] == RemoveFirst(tail, x);
      }
    }
  }

  /** Answering or giving up on one message leaves every other as it was: the same entry, pending for the same task, and
      in the same order with the others of that task; the message itself is gone from both indexes. */
  lemma OthersStayPending<C>(st: Store<C>, m: int, x: int, y: int, t: string)
    requires Inverse(st) && m in st.byMsg && x != m && y != m
    ensures
      var st' := Removed(st, m);
      && m !in st'.byMsg && (forall u :: m !in Listed(st'.byTask, u))
      && (x in st'.byMsg <==> x in st.byMsg) && (x in st.byMsg ==> st'.byMsg[x] == st.byMsg[x])
      && (PendingFor(st', t, x) <==> PendingFor(st, t, x))
      && (ListedBefore(Listed(st'.byTask, t), x, y) <==> ListedBefore(Listed(st.byTask, t), x, y))
  {
    var u, st' := st.byMsg[m].taskID, Removed(st, m);
    assert ListOk(st, u);
    var list := st.byTask[u];
    RemoveFirstOnce(list, m);
    RemovalKeepsOrder(list, m, x, y);
    assert Listed(st'.byTask, u) == RemoveFirst(list, m);
    RemoveKeepsInverse(st, m);
    forall v
      ensures m !in Listed(st'.byTask, v)
    {
      if v in st'.byTask {
        assert ListOk(st', v);
      }
    }
  }

  /** Registering adds one entry, with its channel, task and question, at the end of the task's list. */
  lemma RegisteredLast<C>(st: Store<C>, m: int, t: string, q: string, ch: C, x: int, u: string)
    ensures
      var st' := Registered(st, m, t, q, ch);
      && m in st'.byMsg && st'.byMsg[m].ch == ch && st'.byMsg[m].taskID == t && st'.byMsg[m].questionID == q
      && (x != m ==> (x in st'.byMsg <==> x in st.byMsg) && (x in st.byMsg ==> st'.byMsg[x] == st.byMsg[x]))
      && Listed(st'.byTask, u) == Listed(st.byTask, u) + if u == t then [m] else []
  {
  }

  /** Reregistering moves one entry: the same channel under the new message, in the same place of the list. */
  lemma ReregisteredInPlace<C>(st: Store<C>, o: int, n: int, t: string, q: string, x: int, k: nat)
    requires Inverse(st) && o in st.byMsg && st.byMsg[o].taskID == t && n !in st.byMsg
    ensures
      var st' := Reregistered(st, o, n, t, q);
      && o !in st'.byMsg && n in st'.byMsg
      && st'.byMsg[n].ch == st.byMsg[o].ch && st'.byMsg[n].taskID == t && st'.byMsg[n].questionID == q
      && (x != o && x != n ==> (x in st'.byMsg <==> x in st.byMsg) && (x in st.byMsg ==> st'.byMsg[x] == st.byMsg[x]))
      && |Listed(st'.byTask, t)| == |Listed(st.byTask, t)|
      && (k < |Listed(st.byTask, t)| ==>
            Listed(st'.byTask, t)[k] == if Listed(st.byTask, t)[k] == o then n else Listed(st.byTask, t)[k])
  {
    assert ListOk(st, t);
    var list := st.byTask[t];
    ReplaceFirstAt(list, o, n, 0);
    if k < |list| {
      ReplaceFirstAt(list, o, n, k);
    }
  }
}
