/** Interleavings of the reply store's critical sections with the channel sends and closes that follow them
    (`internal/agent/reply_store.go`). Channels are numbered in the order they are created. */
module ReplyRaces {
  import opened ReplySpec

  /** How often a channel was sent to and closed. */
  datatype Chan = Chan(sent: nat, closed: nat)

  /** What a thread still has to do after its critical section. */
  datatype Op = Send(ch: nat, answer: string) | Close(ch: nat)

  datatype Sys = Sys(store: Store<nat>, chans: seq<Chan>, pending: multiset<Op>)

  datatype Action =
    | Register(m: int, t: string, q: string)
    | Resolve(m: int, answer: string)
    | ResolveByTask(t: string, answer: string)
    | UnregisterByMsgID(m: int)
    | Unregister(m: int, t: string)
    | Reregister(o: int, n: int, t: string, q: string)
    | Perform(op: Op)

  const INITIAL := Sys(Store(map[], map[]), [], multiset{})

  predicate Enabled(s: Sys, a: Action) {
    a.Perform? ==> a.op in s.pending && a.op.ch < |s.chans|
  }

  function Performed(chans: seq<Chan>, op: Op): seq<Chan>
    requires op.ch < |chans|
  {
    var c := chans[op.ch];
    chans[op.ch := if op.Send? then c.(sent := c.sent + 1) else c.(closed := c.closed + 1)]
  }

  function Apply(s: Sys, a: Action): Sys
    requires Enabled(s, a)
  {
    match a
    case Register(m, t, q) =>
      s.(store := Registered(s.store, m, t, q, |s.chans|), chans := s.chans + [Chan(0, 0)])
    case Resolve(m, answer) =>
      if m !in s.store.byMsg then s
      else s.(store := Removed(s.store, m), pending := s.pending + multiset{Send(s.store.byMsg[m].ch, answer)})
    case ResolveByTask(t, answer) =>
      var list := Listed(s.store.byTask, t);
      if list == [] then s
      else s.(store := TakenFirst(s.store, t),
              pending := if list[0] in s.store.byMsg then s.pending + multiset{Send(s.store.byMsg[list[0]].ch, answer)}
                         else s.pending)  // a dangling ID yields the zero entry, whose nil channel takes no answer
    case UnregisterByMsgID(m) =>
      if m !in s.store.byMsg then s
      else s.(store := Removed(s.store, m), pending := s.pending + multiset{Close(s.store.byMsg[m].ch)})
    case Unregister(m, t) => s.(store := Unregistered(s.store, m, t))
    case Reregister(o, n, t, q) => s.(store := Reregistered(s.store, o, n, t, q))
    case Perform(op) => s.(chans := Performed(s.chans, op), pending := s.pending - multiset{op})
  }

  ghost predicate StepAt(acts: seq<Action>, trace: seq<Sys>, i: nat)
    requires i < |acts| && |trace| == |acts| + 1
  {
    Enabled(trace[i], acts[i]) && trace[i + 1] == Apply(trace[i], acts[i])
  }

  ghost predicate IsRun(acts: seq<Action>, trace: seq<Sys>) {
    && |trace| == |acts| + 1 && trace[0] == INITIAL
    && forall i :: 0 <= i < |acts| ==> StepAt(acts, trace, i)
  }

  // ---------- Every channel has a single owner ----------

  ghost predicate Untouched(s: Sys, c: nat) {
    c < |s.chans| && s.chans[c] == Chan(0, 0)
  }

  /** A channel in an entry, or in a pending operation, is in no other and was never used; a used one was
      sent to or closed once. */
  ghost predicate SingleOwner(s: Sys) {
    && (forall m :: m in s.store.byMsg ==> Untouched(s, s.store.byMsg[m].ch))
    && (forall m, n :: m in s.store.byMsg && n in s.store.byMsg && s.store.byMsg[m].ch == s.store.byMsg[n].ch ==> m == n)
    && (forall op :: op in s.pending ==> Untouched(s, op.ch) && s.pending[op] == 1)
    && (forall op, m :: op in s.pending && m in s.store.byMsg ==> s.store.byMsg[m].ch != op.ch)
    && (forall op, p :: op in s.pending && p in s.pending && op.ch == p.ch ==> op == p)
    && (forall c :: 0 <= c < |s.chans| ==> s.chans[c].sent + s.chans[c].closed <= 1)
  }

  /** Handing the channel of one entry over to a pending operation. */
  lemma HandOver(s: Sys, s': Sys, m: int, op: Op)
    requires SingleOwner(s) && m in s.store.byMsg && op.ch == s.store.byMsg[m].ch
    requires s'.store.byMsg == s.store.byMsg - {m} && s'.chans == s.chans && s'.pending == s.pending + multiset{op}
    ensures SingleOwner(s')
  {
    assert op !in s.pending;
    assert forall p :: p in s'.pending <==> p in s.pending || p == op;
  }

  lemma RegisterKeepsOwner(s: Sys, m: int, t: string, q: string)
    requires SingleOwner(s)
    ensures SingleOwner(Apply(s, Register(m, t, q)))
  {
    var s' := Apply(s, Register(m, t, q));
    forall c: nat | Untouched(s, c)
      ensures Untouched(s', c)
    {
    }
  }

  /** No entry and no pending operation has the channel. */
  ghost predicate Unheld(s: Sys, c: nat) {
    && (forall op :: op in s.pending ==> op.ch != c)
    && (forall m :: m in s.store.byMsg ==> s.store.byMsg[m].ch != c)
  }

  /** Nobody else holds the channel of a pending operation. */
  lemma DropPending(s: Sys, s': Sys, op: Op)
    requires SingleOwner(s) && op in s.pending && s' == s.(pending := s.pending - multiset{op})
    ensures SingleOwner(s') && Unheld(s', op.ch) && Untouched(s, op.ch)
  {
    forall p | p in s'.pending
      ensures p in s.pending && p != op && s'.pending[p] == s.pending[p]
    {
    }
  }

  lemma UseUnheld(s: Sys, s': Sys, c: nat, used: Chan)
    requires SingleOwner(s) && Unheld(s, c) && c < |s.chans| && used.sent + used.closed <= 1
    requires s' == s.(chans := s.chans[c := used])
    ensures SingleOwner(s')
  {
  }

  lemma PerformKeepsOwner(s: Sys, op: Op)
    requires SingleOwner(s) && op in s.pending && op.ch < |s.chans|
    ensures SingleOwner(Apply(s, Perform(op)))
  {
    var s1 := s.(pending := s.pending - multiset{op});
    var used := if op.Send? then Chan(1, 0) else Chan(0, 1);
    DropPending(s, s1, op);
    UseUnheld(s1, Apply(s, Perform(op)), op.ch, used);
  }

  /** Dropping entries endangers no channel. */
  lemma FewerEntries(s: Sys, s': Sys)
    requires SingleOwner(s) && s'.chans == s.chans && s'.pending == s.pending
    requires forall m :: m in s'.store.byMsg ==> m in s.store.byMsg && s'.store.byMsg[m] == s.store.byMsg[m]
    ensures SingleOwner(s')
  {
  }

  lemma ReregisterKeepsOwner(s: Sys, o: int, n: int, t: string, q: string)
    requires SingleOwner(s)
    ensures SingleOwner(Apply(s, Reregister(o, n, t, q)))
  {
    var s' := Apply(s, Reregister(o, n, t, q));
    if o in s.store.byMsg {
      forall m | m in s'.store.byMsg
        ensures var m' := if m == n then o else m; m' in s.store.byMsg && s'.store.byMsg[m].ch == s.store.byMsg[m'].ch
      {
      }
    }
  }

  lemma StepKeepsOwner(s: Sys, a: Action)
    requires SingleOwner(s) && Enabled(s, a)
    ensures SingleOwner(Apply(s, a))
  {
    var s' := Apply(s, a);
    match a
    case Register(m, t, q) => RegisterKeepsOwner(s, m, t, q);
    case Resolve(m, answer) =>
      if m in s.store.byMsg {
        HandOver(s, s', m, Send(s.store.byMsg[m].ch, answer));
      }
    case ResolveByTask(t, answer) =>
      var list := Listed(s.store.byTask, t);
      if list != [] && list[0] in s.store.byMsg {
        HandOver(s, s', list[0], Send(s.store.byMsg[list[0]].ch, answer));
      } else {
        FewerEntries(s, s');
      }
    case UnregisterByMsgID(m) =>
      if m in s.store.byMsg {
        HandOver(s, s', m, Close(s.store.byMsg[m].ch));
      }
    case Unregister(m, t) => FewerEntries(s, s');
    case Reregister(o, n, t, q) => ReregisterKeepsOwner(s, o, n, t, q);
    case Perform(op) => PerformKeepsOwner(s, op);
  }

  lemma {:induction false} AlwaysSingleOwner(acts: seq<Action>, trace: seq<Sys>, n: nat)
    requires IsRun(acts, trace) && n < |trace|
    ensures SingleOwner(trace[n])
  {
    if n == 0 {
    } else {
      AlwaysSingleOwner(acts, trace, n - 1);
      assert StepAt(acts, trace, n - 1);
      StepKeepsOwner(trace[n - 1], acts[n - 1]);
    }
  }

  /** In no interleaving, whatever IDs the callers use, is a channel sent to or closed after it was already
      used: no send on a closed channel, no double close, and the one answer always fits the buffer. */
  lemma UsedAtMostOnce(acts: seq<Action>, trace: seq<Sys>, n: nat)
    requires IsRun(acts, trace) && n < |acts| && acts[n].Perform?
    ensures acts[n].op.ch < |trace[n].chans| && trace[n].chans[acts[n].op.ch] == Chan(0, 0)
  {
    AlwaysSingleOwner(acts, trace, n);
    assert StepAt(acts, trace, n);
    assert Untouched(trace[n], acts[n].op.ch);
  }

  // ---------- First asked, first answered ----------

  ghost predicate Known(byMsg: map<int, Entry<nat>>, list: seq<int>) {
    forall i :: 0 <= i < |list| ==> list[i] in byMsg
  }

  /** The channels behind a list of messages. */
  function Channels(byMsg: map<int, Entry<nat>>, list: seq<int>): seq<int>
    requires Known(byMsg, list)
  {
    seq(|list|, i requires 0 <= i < |list| => byMsg[list[i]].ch)
  }

  ghost predicate Increasing(c: seq<int>) {
    forall i, j :: 0 <= i < j < |c| ==> c[i] < c[j]
  }

  /** Along the list the channels were created in order. */
  ghost predicate Ascending(byMsg: map<int, Entry<nat>>, list: seq<int>) {
    Known(byMsg, list) && Increasing(Channels(byMsg, list))
  }

  ghost predicate Chronological(s: Sys) {
    && Inverse(s.store)
    && (forall t :: t in s.store.byTask ==> Ascending(s.store.byMsg, s.store.byTask[t]))
    && (forall m :: m in s.store.byMsg ==> s.store.byMsg[m].ch < |s.chans|)
  }

  /** Fresh message IDs, and task IDs that match the entry. */
  predicate Disciplined(s: Sys, a: Action) {
    var byMsg := s.store.byMsg;
    match a
    case Register(m, _, _) => m !in byMsg
    case Unregister(m, t) => m in byMsg ==> byMsg[m].taskID == t
    case Reregister(o, n, t, _) => o in byMsg ==> byMsg[o].taskID == t && (n == o || n !in byMsg)
    case _ => true
  }

  lemma {:induction false} RemoveFirstCuts(s: seq<int>, p: nat)
    requires NoDup(s) && p < |s|
    ensures RemoveFirst(s, s[p]) == s[..p] + s[p + 1..]
  {
    if p == 0 {
    } else {
      RemoveFirstCuts(s[1..], p - 1);
      assert [s[0]] + s[1..][..p - 1] == s[..p];
    }
  }

  lemma CutIncreasing(c: seq<int>, p: nat)
    requires p < |c| && Increasing(c)
    ensures Increasing(c[..p] + c[p + 1..])
  {
  }

  /** The channels of a list without its entry at `p`. */
  lemma ChannelsCut(byMsg: map<int, Entry<nat>>, s: seq<int>, p: nat)
    requires Known(byMsg, s) && NoDup(s) && p < |s|
    ensures Known(byMsg - {s[p]}, s[..p] + s[p + 1..])
    ensures Channels(byMsg - {s[p]}, s[..p] + s[p + 1..]) == Channels(byMsg, s)[..p] + Channels(byMsg, s)[p + 1..]
  {
    var byMsg', cut := byMsg - {s[p]}, s[..p] + s[p + 1..];
    forall k | 0 <= k < |cut|
      ensures cut[k] == s[if k < p then k else k + 1] && cut[k] in byMsg'
    {
      assert cut[k] == s[if k < p then k else k + 1];
      assert cut[k] != s[p];
    }
    var left, right := Channels(byMsg', cut), Channels(byMsg, s)[..p] + Channels(byMsg, s)[p + 1..];
    forall k | 0 <= k < |cut|
      ensures left[k] == right[k]
    {
      assert cut[k] == s[if k < p then k else k + 1];
    }
  }

  lemma RemoveFirstAscending(byMsg: map<int, Entry<nat>>, s: seq<int>, x: int)
    requires Ascending(byMsg, s) && NoDup(s) && x in s
    ensures Ascending(byMsg - {x}, RemoveFirst(s, x))
  {
    var p :| 0 <= p < |s| && s[p] == x;
    RemoveFirstCuts(s, p);
    ChannelsCut(byMsg, s, p);
    CutIncreasing(Channels(byMsg, s), p);
  }

  /** Dropping an entry leaves lists without it as they are. */
  lemma OtherListAscending(st: Store<nat>, st': Store<nat>, m: int, u: string)
    requires u in st.byTask && ListOk(st, u) && Ascending(st.byMsg, st.byTask[u])
    requires m in st.byMsg && st.byMsg[m].taskID != u && st'.byMsg == st.byMsg - {m}
    ensures Ascending(st'.byMsg, st.byTask[u])
  {
    var list := st.byTask[u];
    forall k | 0 <= k < |list|
      ensures list[k] in st'.byMsg
    {
      assert list[k] in list;
    }
    assert Channels(st'.byMsg, list) == Channels(st.byMsg, list);
  }

  lemma RemovedChronological(s: Sys, s': Sys, m: int)
    requires Chronological(s) && m in s.store.byMsg && s'.store == Removed(s.store, m) && |s'.chans| == |s.chans|
    ensures Chronological(s')
  {
    var st, st', t := s.store, s'.store, s.store.byMsg[m].taskID;
    RemoveKeepsInverse(st, m);
    assert ListOk(st, t);
    RemoveFirstAscending(st.byMsg, st.byTask[t], m);
    forall u | u in st'.byTask
      ensures Ascending(st'.byMsg, st'.byTask[u])
    {
      if u != t {
        assert ListOk(st, u) && st'.byTask[u] == st.byTask[u];
        OtherListAscending(st, st', m, u);
      }
    }
  }

  lemma ReplacedAscending(st: Store<nat>, o: int, n: int, t: string, q: string)
    requires o in st.byMsg && t in st.byTask && Ascending(st.byMsg, st.byTask[t]) && ListOk(st, t)
    requires n == o || n !in st.byMsg
    ensures Ascending(Reregistered(st, o, n, t, q).byMsg, ReplaceFirst(st.byTask[t], o, n))
  {
    var st' := Reregistered(st, o, n, t, q);
    var list := st.byTask[t];
    var list' := ReplaceFirst(list, o, n);
    forall k | 0 <= k < |list|
      ensures |list'| == |list| && list'[k] in st'.byMsg && st'.byMsg[list'[k]].ch == st.byMsg[list[k]].ch
    {
      ReplaceFirstAt(list, o, n, k);
      assert list[k] in list;
    }
    assert |list'| == |list|;
    assert Channels(st'.byMsg, list') == Channels(st.byMsg, list);
  }

  lemma ReregisterChronological(s: Sys, o: int, n: int, t: string, q: string)
    requires Chronological(s) && Disciplined(s, Reregister(o, n, t, q)) && o in s.store.byMsg
    ensures Chronological(s.(store := Reregistered(s.store, o, n, t, q)))
  {
    var st, st' := s.store, Reregistered(s.store, o, n, t, q);
    ReregisterInverseIff(st, o, n, t, q);
    forall u | u in st'.byTask
      ensures Ascending(st'.byMsg, st'.byTask[u])
    {
      assert ListOk(st, u) && ListOk(st', u) && Ascending(st.byMsg, st.byTask[u]);
      if u == t {
        ReplacedAscending(st, o, n, t, q);
      } else {
        assert forall k :: 0 <= k < |st.byTask[u]| ==> st.byTask[u][k] in st.byTask[u];
        assert forall m :: m in st.byTask[u] ==> m != n && m != o;
        assert Channels(st'.byMsg, st'.byTask[u]) == Channels(st.byMsg, st.byTask[u]);
      }
    }
  }

  lemma RegisteredAscending(s: Sys, m: int, t: string, q: string, u: string)
    requires Chronological(s) && m !in s.store.byMsg && u in Registered(s.store, m, t, q, |s.chans|).byTask
    ensures Ascending(Registered(s.store, m, t, q, |s.chans|).byMsg, Registered(s.store, m, t, q, |s.chans|).byTask[u])
  {
    var st, st' := s.store, Registered(s.store, m, t, q, |s.chans|);
    var list, list' := Listed(st.byTask, u), st'.byTask[u];
    if u in st.byTask {
      assert ListOk(st, u) && Ascending(st.byMsg, list);
      assert forall k :: 0 <= k < |list| ==> list[k] in list;
    }
    assert Known(st'.byMsg, list');
    assert Channels(st'.byMsg, list') == Channels(st.byMsg, list) + if u == t then [|s.chans|] else [];
  }

  lemma RegisterChronological(s: Sys, m: int, t: string, q: string)
    requires Chronological(s) && m !in s.store.byMsg
    ensures Chronological(Apply(s, Register(m, t, q)))
  {
    RegisterInverseIff(s.store, m, t, q, |s.chans|);
    forall u | u in Registered(s.store, m, t, q, |s.chans|).byTask
      ensures Ascending(Registered(s.store, m, t, q, |s.chans|).byMsg, Registered(s.store, m, t, q, |s.chans|).byTask[u])
    {
      RegisteredAscending(s, m, t, q, u);
    }
  }

  lemma {:induction false} AbsentRemove(s: seq<int>, x: int)
    requires x !in s
    ensures RemoveFirst(s, x) == s
  {
    if s == [] {
    } else {
      AbsentRemove(s[1..], x);
    }
  }

  lemma UnknownUnregister(st: Store<nat>, m: int, t: string)
    requires Inverse(st) && m !in st.byMsg
    ensures Unregistered(st, m, t) == st
  {
    assert t in st.byTask ==> ListOk(st, t);
    AbsentRemove(Listed(st.byTask, t), m);
  }

  lemma StepChronological(s: Sys, a: Action)
    requires Chronological(s) && Enabled(s, a) && Disciplined(s, a)
    ensures Chronological(Apply(s, a))
  {
    var s' := Apply(s, a);
    match a
    case Register(m, t, q) => RegisterChronological(s, m, t, q);
    case Resolve(m, _) =>
      if m in s.store.byMsg {
        RemovedChronological(s, s', m);
      }
    case ResolveByTask(t, _) =>
      if t in s.store.byTask {
        TakeFirstIsRemove(s.store, t);
        RemovedChronological(s, s', s.store.byTask[t][0]);
      }
    case UnregisterByMsgID(m) =>
      if m in s.store.byMsg {
        RemovedChronological(s, s', m);
      }
    case Unregister(m, t) =>
      if m in s.store.byMsg {
        RemovedChronological(s, s', m);
      } else {
        UnknownUnregister(s.store, m, t);
      }
    case Reregister(o, n, t, q) =>
      if o in s.store.byMsg {
        ReregisterChronological(s, o, n, t, q);
      }
    case Perform(_) =>
  }

  ghost predicate DisciplinedRun(acts: seq<Action>, trace: seq<Sys>) {
    |trace| == |acts| + 1 && forall i {:trigger acts[i]} :: 0 <= i < |acts| ==> Disciplined(trace[i], acts[i])
  }

  /** For callers with fresh message IDs and matching task IDs the two indexes stay mutually inverse. */
  lemma {:induction false} AlwaysChronological(acts: seq<Action>, trace: seq<Sys>, n: nat)
    requires IsRun(acts, trace) && DisciplinedRun(acts, trace) && n < |trace|
    ensures Chronological(trace[n])
  {
    if n == 0 {
    } else {
      AlwaysChronological(acts, trace, n - 1);
      assert StepAt(acts, trace, n - 1);
      assert Disciplined(trace[n - 1], acts[n - 1]);
      StepChronological(trace[n - 1], acts[n - 1]);
    }
  }

  /** Such callers' ResolveByTask answers the oldest pending question of the task, if there is one. */
  lemma OldestFirst(acts: seq<Action>, trace: seq<Sys>, n: nat)
    requires IsRun(acts, trace) && DisciplinedRun(acts, trace) && n < |acts| && acts[n].ResolveByTask?
    ensures
      var byMsg, t := trace[n].store.byMsg, acts[n].t;
      if exists m :: m in byMsg && byMsg[m].taskID == t then
        exists first :: first in byMsg && byMsg[first].taskID == t
          && (forall m :: m in byMsg && byMsg[m].taskID == t ==> byMsg[first].ch <= byMsg[m].ch)
          && trace[n + 1].store == Removed(trace[n].store, first)
          && trace[n + 1].pending == trace[n].pending + multiset{Send(byMsg[first].ch, acts[n].answer)}
      else trace[n + 1] == trace[n]
  {
    AlwaysChronological(acts, trace, n);
    assert StepAt(acts, trace, n);
    var st, t := trace[n].store, acts[n].t;
    if t in st.byTask {
      TakeFirstIsRemove(st, t);
      assert ListOk(st, t);
      var first := st.byTask[t][0];
      assert first in st.byTask[t];
      forall m | m in st.byMsg && st.byMsg[m].taskID == t
        ensures st.byMsg[first].ch <= st.byMsg[m].ch
      {
        var k :| 0 <= k < |st.byTask[t]| && st.byTask[t][k] == m;
        assert Ascending(st.byMsg, st.byTask[t]);
        var c := Channels(st.byMsg, st.byTask[t]);
        assert c[0] == st.byMsg[first].ch && c[k] == st.byMsg[m].ch;
      }
    }
  }

  // ---------- What reaches a channel ----------

  /** Answering a known message leaves exactly one new operation to do, the send of this answer to its channel; giving up on
      it the close of its channel; and neither disturbs another message. */
  lemma AnswersAreSent(acts: seq<Action>, trace: seq<Sys>, n: nat)
    requires IsRun(acts, trace) && n < |acts|
    ensures
      var byMsg := trace[n].store.byMsg;
      match acts[n]
      case Resolve(m, answer) =>
        trace[n + 1].pending == trace[n].pending + if m in byMsg then multiset{Send(byMsg[m].ch, answer)} else multiset{}
      case UnregisterByMsgID(m) =>
        trace[n + 1].pending == trace[n].pending + if m in byMsg then multiset{Close(byMsg[m].ch)} else multiset{}
      case Perform(op) =>
        && op in trace[n].pending && trace[n + 1].pending == trace[n].pending - multiset{op} && trace[n + 1].store == trace[n].store
        && op.ch < |trace[n].chans| == |trace[n + 1].chans|
        && trace[n + 1].chans[op.ch].sent == trace[n].chans[op.ch].sent + (if op.Send? then 1 else 0)
        && trace[n + 1].chans[op.ch].closed == trace[n].chans[op.ch].closed + (if op.Close? then 1 else 0)
      case ResolveByTask(_, _) => |trace[n + 1].pending| <= |trace[n].pending| + 1
      case _ => trace[n + 1].pending == trace[n].pending
  {
    assert StepAt(acts, trace, n);
  }
}
