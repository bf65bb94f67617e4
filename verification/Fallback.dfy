/** The fallback chain of worker models with retries (`internal/llm/fallback.go`, `internal/llm/provider.go`). */
module Fallback {
  import opened Text

  const PROVIDERS := {"opus", "sonnet", "haiku", "minimax", "kimi", "glm5", "glm-flash"}
  const WORKER_CHAIN := ["minimax", "kimi", "glm5"]
  const RETRY_INTERVALS := [10, 30, 60]
  const MAX_RETRIES := 3

  datatype Reply = Served | Transient(err: string) | Permanent(err: string)

  /** What each call, and each wait before a retry, will come to; by position in the chain and attempt. */
  datatype World = World(reply: (nat, nat) -> Reply, cancelled: (nat, nat) -> bool)

  /** What happens, in order: notifications sent, calls made, delays waited out. */
  datatype Item =
    | Triggered(pos: nat, from: string, to: string)
    | Called(pos: nat, model: string, attempt: nat, reply: Reply)
    | Waited(pos: nat, attempt: nat, seconds: nat)
    | ExhaustedSent(from: string, err: string)

  /** `NilError` is the crash on reading the text of a last error that never happened. */
  datatype Outcome = Response(modelUsed: string) | Cancelled | Exhausted(err: string) | NilError

  datatype Tried = Got | GaveUp(err: string) | Stopped

  function UsedName(model: string): string {
    model + "(fallback)"
  }

  // ---------- What the loops do ----------

  /** The attempts at one model from attempt `k` on. */
  function Attempts(chain: seq<string>, p: nat, k: nat, w: World): (seq<Item>, Tried)
    requires p < |chain| && k < MAX_RETRIES
    decreases MAX_RETRIES - k, 1
  {
    var call := Called(p, chain[p], k, w.reply(p, k));
    match w.reply(p, k)
    case Served => ([call], Got)
    case Permanent(e) => ([call], GaveUp(e))
    case Transient(e) =>
      var (rest, tried) := Retry(chain, p, k, e, w);
      ([call] + rest, tried)
  }

  /** What follows a transient failure of attempt `k`. */
  function Retry(chain: seq<string>, p: nat, k: nat, e: string, w: World): (seq<Item>, Tried)
    requires p < |chain| && k < MAX_RETRIES
    decreases MAX_RETRIES - k, 0
  {
    if k + 1 == MAX_RETRIES then ([], GaveUp(e))
    else if w.cancelled(p, k + 1) then ([], Stopped)
    else
      var (rest, tried) := Attempts(chain, p, k + 1, w);
      ([Waited(p, k + 1, RETRY_INTERVALS[k])] + rest, tried)
  }

  function From(chain: seq<string>, p: nat, prev: string, lastErr: Option<string>, w: World): (seq<Item>, Outcome)
    requires p <= |chain|
    decreases |chain| - p
  {
    if p == |chain| then
      match lastErr
      case None => ([], NilError)
      case Some(e) => ([ExhaustedSent(prev, e)], Exhausted(e))
    else if chain[p] !in PROVIDERS then From(chain, p + 1, prev, lastErr, w)
    else
      var (items, tried) := Attempts(chain, p, 0, w);
      var block := [Triggered(p, prev, chain[p])] + items;
      match tried
      case Got => (block, Response(UsedName(chain[p])))
      case Stopped => (block, Cancelled)
      case GaveUp(e) =>
        var (rest, outcome) := From(chain, p + 1, chain[p], Some(e), w);
        (block + rest, outcome)
  }

  /** The attempt loop for one model. */
  method TryModel(chain: seq<string>, p: nat, w: World) returns (tried: Tried, items: seq<Item>)
    requires p < |chain|
    ensures (items, tried) == Attempts(chain, p, 0, w)
  {
    items := [];
    var lastErr := "";
    for attempt := 0 to MAX_RETRIES
      invariant attempt == 0 ==> items == []
      invariant attempt > 0 ==>
        var (rest, end) := Retry(chain, p, attempt - 1, lastErr, w);
        Attempts(chain, p, 0, w) == (items + rest, end)
    {
      if attempt > 0 {
        if w.cancelled(p, attempt) {
          assert items + [] == items;
          return Stopped, items;
        }
        ConcatAssoc(items, [Waited(p, attempt, RETRY_INTERVALS[attempt - 1])], Attempts(chain, p, attempt, w).0);
        items := items + [Waited(p, attempt, RETRY_INTERVALS[attempt - 1])];
      }
      var call := Called(p, chain[p], attempt, w.reply(p, attempt));
      assert attempt == 0 ==> items + Attempts(chain, p, 0, w).0 == Attempts(chain, p, 0, w).0;
      assert Attempts(chain, p, 0, w) == (items + Attempts(chain, p, attempt, w).0, Attempts(chain, p, attempt, w).1);
      if w.reply(p, attempt).Transient? {
        ConcatAssoc(items, [call], Retry(chain, p, attempt, w.reply(p, attempt).err, w).0);
      }
      items := items + [call];
      match w.reply(p, attempt) {
        case Served => return Got, items;
        case Permanent(e) => return GaveUp(e), items;
        case Transient(e) => lastErr := e;
      }
    }
    assert items + [] == items;
    tried := GaveUp(lastErr);
  }

  /** callWithFallback: try the models of the chain in turn. `log` records the visible steps. */
  method CallWithFallback(model0: string, chain: seq<string>, w: World) returns (log: seq<Item>, outcome: Outcome)
    ensures (log, outcome) == From(chain, 0, model0, None, w)
  {
    var lastErr: Option<string> := None;
    var prevModel := model0;
    log := [];
    for p := 0 to |chain|
      invariant
        var (all, end) := From(chain, 0, model0, None, w);
        var (rest, o) := From(chain, p, prevModel, lastErr, w);
        all == log + rest && end == o
    {
      var model := chain[p];
      if model in PROVIDERS {
        var tried, items := TryModel(chain, p, w);
        log := log + ([Triggered(p, prevModel, model)] + items);
        match tried {
          case Got => return log, Response(UsedName(model));
          case Stopped => return log, Cancelled;
          case GaveUp(err) => lastErr := Some(err);
        }
        prevModel := model;
      }
    }
    assert log + [] == log;
    if lastErr.None? {
      return log, NilError;
    }
    log := log + [ExhaustedSent(prevModel, lastErr.value)];
    outcome := Exhausted(lastErr.value);
  }

  // ---------- The log, item by item ----------

  ghost predicate NextKnown(chain: seq<string>, p: nat, q: nat) {
    p <= q < |chain| && chain[q] in PROVIDERS && forall k :: p <= k < q ==> chain[k] !in PROVIDERS
  }

  ghost predicate NoneKnown(chain: seq<string>, p: nat) {
    forall k :: p <= k < |chain| ==> chain[k] !in PROVIDERS
  }

  /** Giving up on `model`, tried at position `p - 1`: on to the next known model, or the exhaustion notice. */
  ghost predicate MovesOn(chain: seq<string>, p: nat, model: string, err: string, y: Item) {
    || (y.Triggered? && y.from == model && NextKnown(chain, p, y.pos) && y.to == chain[y.pos])
    || (y == ExhaustedSent(model, err) && NoneKnown(chain, p))
  }

  /** Which item may follow which. */
  ghost predicate Continues(chain: seq<string>, x: Item, y: Item) {
    match x
    case Triggered(p, _, to) => y.Called? && y.pos == p && y.model == to && y.attempt == 0
    case Called(p, m, k, Served) => false
    case Called(p, m, k, Permanent(e)) => MovesOn(chain, p + 1, m, e, y)
    case Called(p, m, k, Transient(e)) =>
      if k + 1 < MAX_RETRIES then y.Waited? && y.pos == p && y.attempt == k + 1 && y.seconds == RETRY_INTERVALS[k]
      else MovesOn(chain, p + 1, m, e, y)
    case Waited(p, k, _) => y.Called? && y.pos == p && p < |chain| && y.model == chain[p] && y.attempt == k
    case ExhaustedSent(_, _) => false
  }

  ghost predicate Linked(chain: seq<string>, s: seq<Item>) {
    forall i :: 0 <= i < |s| - 1 ==> Continues(chain, s[i], s[i + 1])
  }

  /** The last item tells how the whole thing ends. */
  ghost predicate EndsWith(s: seq<Item>, outcome: Outcome) {
    match outcome
    case NilError => s == []
    case Response(name) => s != [] && s[|s| - 1].Called? && s[|s| - 1].reply == Served && name == UsedName(s[|s| - 1].model)
    case Exhausted(e) => s != [] && s[|s| - 1].ExhaustedSent? && s[|s| - 1].err == e
    case Cancelled => s != [] && s[|s| - 1].Called? && s[|s| - 1].reply.Transient? && s[|s| - 1].attempt + 1 < MAX_RETRIES
  }

  lemma LinkedConcat(chain: seq<string>, a: seq<Item>, b: seq<Item>)
    requires Linked(chain, a) && Linked(chain, b)
    requires a != [] && b != [] ==> Continues(chain, a[|a| - 1], b[0])
    ensures Linked(chain, a + b)
  {
    forall i | 0 <= i < |a + b| - 1
      ensures Continues(chain, (a + b)[i], (a + b)[i + 1])
    {
      if i >= |a| {
        assert Continues(chain, b[i - |a|], b[i - |a| + 1]);
      }
    }
  }

  /** The attempts at one model form a linked piece that starts with the call and ends as the result says. */
  ghost predicate Piece(chain: seq<string>, p: nat, k: nat, s: seq<Item>, tried: Tried)
    requires p < |chain|
  {
    && s != [] && Linked(chain, s)
    && s[0].Called? && s[0].pos == p && s[0].model == chain[p] && s[0].attempt == k
    && var last := s[|s| - 1];
       && last.Called? && last.pos == p && last.model == chain[p]
       && match tried
          case Got => last.reply == Served
          case Stopped => last.reply.Transient? && last.attempt + 1 < MAX_RETRIES
          case GaveUp(e) => last.reply == Permanent(e) || (last.reply == Transient(e) && last.attempt + 1 == MAX_RETRIES)
  }

  lemma {:induction false} AttemptsPiece(chain: seq<string>, p: nat, k: nat, w: World)
    requires p < |chain| && k < MAX_RETRIES
    ensures Piece(chain, p, k, Attempts(chain, p, k, w).0, Attempts(chain, p, k, w).1)
    decreases MAX_RETRIES - k
  {
    var (items, tried) := Attempts(chain, p, k, w);
    if w.reply(p, k).Transient? && k + 1 < MAX_RETRIES && !w.cancelled(p, k + 1) {
      AttemptsPiece(chain, p, k + 1, w);
      var rest := Attempts(chain, p, k + 1, w).0;
      var call := Called(p, chain[p], k, w.reply(p, k));
      var wait := Waited(p, k + 1, RETRY_INTERVALS[k]);
      LinkedConcat(chain, [call], [wait]);
      LinkedConcat(chain, [call] + [wait], rest);
      assert items == [call] + [wait] + rest;
    }
  }

  /** How the log from position `p` on begins. */
  ghost predicate Begins(chain: seq<string>, p: nat, prev: string, lastErr: Option<string>, s: seq<Item>)
    requires p <= |chain|
  {
    if NoneKnown(chain, p) then s == match lastErr { case None => [] case Some(e) => [ExhaustedSent(prev, e)] }
    else s != [] && s[0].Triggered? && s[0].from == prev && NextKnown(chain, p, s[0].pos) && s[0].to == chain[s[0].pos]
  }

  lemma {:induction false} FromIsLinked(chain: seq<string>, p: nat, prev: string, lastErr: Option<string>, w: World)
    requires p <= |chain|
    ensures
      var (s, outcome) := From(chain, p, prev, lastErr, w);
      Begins(chain, p, prev, lastErr, s) && Linked(chain, s) && EndsWith(s, outcome)
      && (outcome.NilError? <==> lastErr.None? && NoneKnown(chain, p))
    decreases |chain| - p
  {
    var (s, outcome) := From(chain, p, prev, lastErr, w);
    if p == |chain| {
    } else {
      if chain[p] !in PROVIDERS {
        FromIsLinked(chain, p + 1, prev, lastErr, w);
        assert NoneKnown(chain, p) <==> NoneKnown(chain, p + 1);
      } else {
        AttemptsPiece(chain, p, 0, w);
        var (items, tried) := Attempts(chain, p, 0, w);
        var trigger := Triggered(p, prev, chain[p]);
        LinkedConcat(chain, [trigger], items);
        if tried.GaveUp? {
          FromIsLinked(chain, p + 1, chain[p], Some(tried.err), w);
          var rest := From(chain, p + 1, chain[p], Some(tried.err), w).0;
          LinkedConcat(chain, [trigger] + items, rest);
        }
      }
    }
  }

  /** Every log: nothing at all exactly when no model of the chain is known, which is also when the missing
      last error is read; otherwise it starts by handing over from the requested model to the first known one,
      goes on only as `Continues` allows, and its last item shows the outcome. */
  lemma FallbackLog(model: string, chain: seq<string>, w: World)
    ensures
      var (s, outcome) := From(chain, 0, model, None, w);
      && Linked(chain, s) && EndsWith(s, outcome)
      && (outcome == NilError <==> NoneKnown(chain, 0))
      && (s == [] <==> NoneKnown(chain, 0))
      && (s != [] ==> s[0].Triggered? && s[0].from == model && NextKnown(chain, 0, s[0].pos) && s[0].to == chain[s[0].pos])
  {
    FromIsLinked(chain, 0, model, None, w);
  }

  // ---------- Consequences ----------

  lemma {:induction false} ExhaustedFrom(chain: seq<string>, p: nat, prev: string, lastErr: Option<string>, w: World)
    requires p <= |chain|
    ensures From(chain, p, prev, lastErr, w).1.Exhausted? <==>
      && (lastErr.Some? || !NoneKnown(chain, p))
      && forall q :: p <= q < |chain| && chain[q] in PROVIDERS ==> Attempts(chain, q, 0, w).1.GaveUp?
    decreases |chain| - p
  {
    if p == |chain| {
    } else {
      if chain[p] !in PROVIDERS {
        ExhaustedFrom(chain, p + 1, prev, lastErr, w);
        assert NoneKnown(chain, p) <==> NoneKnown(chain, p + 1);
      } else if Attempts(chain, p, 0, w).1.GaveUp? {
        ExhaustedFrom(chain, p + 1, chain[p], Some(Attempts(chain, p, 0, w).1.err), w);
      }
    }
  }

  /** The chain is exhausted, and says so as the last thing, exactly when some model is known and each known one
      gave up, that is, failed three times transiently or once permanently. */
  lemma ExhaustedIff(model: string, chain: seq<string>, w: World)
    ensures
      var (s, outcome) := From(chain, 0, model, None, w);
      && (outcome.Exhausted? <==>
            !NoneKnown(chain, 0) && forall q :: 0 <= q < |chain| && chain[q] in PROVIDERS ==> Attempts(chain, q, 0, w).1.GaveUp?)
      && (outcome.Exhausted? <==> s != [] && s[|s| - 1].ExhaustedSent?)
  {
    ExhaustedFrom(chain, 0, model, None, w);
    FallbackLog(model, chain, w);
  }

  /** Position in the chain and progress within one model. */
  function Stage(chain: seq<string>, x: Item): (nat, nat) {
    match x
    case Triggered(p, _, _) => (p, 0)
    case Called(p, _, k, _) => (p, 2 * k + 1)
    case Waited(p, k, _) => (p, 2 * k)
    case ExhaustedSent(_, _) => (|chain|, 0)
  }

  predicate Before(a: (nat, nat), b: (nat, nat)) {
    a.0 < b.0 || (a.0 == b.0 && a.1 < b.1)
  }

  ghost predicate Sane(chain: seq<string>, x: Item) {
    match x
    case Triggered(p, _, to) => p < |chain| && to == chain[p]
    case Called(p, m, k, _) => p < |chain| && m == chain[p] && k < MAX_RETRIES
    case Waited(p, k, _) => p < |chain| && 0 < k < MAX_RETRIES
    case ExhaustedSent(_, _) => true
  }

  lemma {:induction false} LinkedIsSane(chain: seq<string>, s: seq<Item>, i: nat)
    requires Linked(chain, s) && i < |s| && Sane(chain, s[0])
    ensures Sane(chain, s[i])
  {
    if i == 0 {
    } else {
      LinkedIsSane(chain, s, i - 1);
      assert Continues(chain, s[i - 1], s[i - 1 + 1]);
    }
  }

  /** The log only moves forward: positions never go back and no call is repeated, so at each position its model is
      called at most three times, in a row; and the exhaustion notice is sent at most once, as the last item. */
  lemma {:induction false} LogAdvances(model: string, chain: seq<string>, w: World, i: nat, j: nat)
    requires i < j < |From(chain, 0, model, None, w).0|
    ensures
      var s := From(chain, 0, model, None, w).0;
      && Sane(chain, s[i]) && Sane(chain, s[j])
      && Before(Stage(chain, s[i]), Stage(chain, s[j])) && !s[i].ExhaustedSent?
    decreases j - i
  {
    FallbackLog(model, chain, w);
    var s := From(chain, 0, model, None, w).0;
    LinkedIsSane(chain, s, i);
    LinkedIsSane(chain, s, j);
    assert Continues(chain, s[i], s[i + 1]);
    if j == i + 1 {
    } else {
      LogAdvances(model, chain, w, i + 1, j);
      LinkedIsSane(chain, s, i + 1);
    }
  }

  /** How often a model is called. */
  function Calls(s: seq<Item>, model: string): nat {
    if s == [] then 0 else (if s[0].Called? && s[0].model == model then 1 else 0) + Calls(s[1..], model)
  }

  lemma {:induction false} CallsConcat(a: seq<Item>, b: seq<Item>, model: string)
    ensures Calls(a + b, model) == Calls(a, model) + Calls(b, model)
  {
    if a == [] {
      assert a + b == b;
    } else {
      CallsConcat(a[1..], b, model);
      assert (a + b)[1..] == a[1..] + b;
    }
  }

  lemma {:induction false} AttemptsCalls(chain: seq<string>, p: nat, k: nat, w: World, model: string)
    requires p < |chain| && k < MAX_RETRIES
    ensures Calls(Attempts(chain, p, k, w).0, model) <= if chain[p] == model then MAX_RETRIES - k else 0
    decreases MAX_RETRIES - k
  {
    var call := Called(p, chain[p], k, w.reply(p, k));
    assert [call][1..] == [];
    if w.reply(p, k).Transient? && k + 1 < MAX_RETRIES && !w.cancelled(p, k + 1) {
      AttemptsCalls(chain, p, k + 1, w, model);
      var wait, rest := Waited(p, k + 1, RETRY_INTERVALS[k]), Attempts(chain, p, k + 1, w).0;
      assert ([wait] + rest)[1..] == rest;
      CallsConcat([call], [wait] + rest, model);
    } else if w.reply(p, k).Transient? {
      assert [call] + [] == [call];
    }
  }

  lemma {:induction false} FromCalls(chain: seq<string>, p: nat, prev: string, lastErr: Option<string>, w: World, model: string)
    requires p <= |chain|
    ensures Calls(From(chain, p, prev, lastErr, w).0, model) <= MAX_RETRIES * multiset(chain[p..])[model]
    decreases |chain| - p
  {
    if p == |chain| {
      match lastErr
      case None =>
      case Some(e) => assert [ExhaustedSent(prev, e)][1..] == [];
    } else {
      assert chain[p..] == [chain[p]] + chain[p + 1..];
      if chain[p] !in PROVIDERS {
        FromCalls(chain, p + 1, prev, lastErr, w, model);
      } else {
        var (items, tried) := Attempts(chain, p, 0, w);
        var block := [Triggered(p, prev, chain[p])] + items;
        AttemptsCalls(chain, p, 0, w, model);
        assert block[1..] == items;
        if tried.GaveUp? {
          FromCalls(chain, p + 1, chain[p], Some(tried.err), w, model);
          CallsConcat(block, From(chain, p + 1, chain[p], Some(tried.err), w).0, model);
        }
      }
    }
  }

  /** A model is called at most three times for each time the chain names it. */
  lemma CallsBound(model0: string, chain: seq<string>, w: World, model: string)
    ensures Calls(From(chain, 0, model0, None, w).0, model) <= MAX_RETRIES * multiset(chain)[model]
  {
    assert chain[0..] == chain;
    FromCalls(chain, 0, model0, None, w, model);
  }

  /** The world in which every call fails transiently. */
  function Failing(e: string): World {
    World((_, _) => Transient(e), (_, _) => false)
  }

  lemma FailingCalls(chain: seq<string>, p: nat, e: string, model: string)
    requires p < |chain|
    ensures Attempts(chain, p, 0, Failing(e)).1 == GaveUp(e)
    ensures Calls(Attempts(chain, p, 0, Failing(e)).0, model) == if chain[p] == model then MAX_RETRIES else 0
  {
    var w, t := Failing(e), Transient(e);
    var c0, c1, c2 := Called(p, chain[p], 0, t), Called(p, chain[p], 1, t), Called(p, chain[p], 2, t);
    var w1, w2 := Waited(p, 1, RETRY_INTERVALS[0]), Waited(p, 2, RETRY_INTERVALS[1]);
    assert Attempts(chain, p, 2, w).0 == [c2];
    assert Attempts(chain, p, 1, w).0 == [c1, w2, c2];
    assert Attempts(chain, p, 0, w).0 == [c0, w1, c1, w2, c2];
    assert [c0, w1, c1, w2, c2] == [c0] + ([w1] + ([c1] + ([w2] + [c2])));
    CallsConcat([c0], [w1] + ([c1] + ([w2] + [c2])), model);
    CallsConcat([w1], [c1] + ([w2] + [c2]), model);
    CallsConcat([c1], [w2] + [c2], model);
    CallsConcat([w2], [c2], model);
  }

  /** That bound is reached: when every call fails transiently, known models are called exactly that often. */
  lemma {:induction false} CallsBoundReached(chain: seq<string>, p: nat, prev: string, lastErr: Option<string>, e: string, model: string)
    requires p <= |chain| && forall k :: 0 <= k < |chain| ==> chain[k] in PROVIDERS
    ensures Calls(From(chain, p, prev, lastErr, Failing(e)).0, model) == MAX_RETRIES * multiset(chain[p..])[model]
    decreases |chain| - p
  {
    if p == |chain| {
      match lastErr
      case None =>
      case Some(e') => assert [ExhaustedSent(prev, e')][1..] == [];
    } else {
      assert chain[p..] == [chain[p]] + chain[p + 1..];
      FailingCalls(chain, p, e, model);
      CallsBoundReached(chain, p + 1, chain[p], Some(e), e, model);
      var block := [Triggered(p, prev, chain[p])] + Attempts(chain, p, 0, Failing(e)).0;
      assert block[1..] == Attempts(chain, p, 0, Failing(e)).0;
      CallsConcat(block, From(chain, p + 1, chain[p], Some(e), Failing(e)).0, model);
    }
  }

  // ---------- The chains the router uses ----------

  /** The models after `model` in the worker chain; none for the last one and for others. */
  method FallbackChainFrom(model: string) returns (rest: seq<string>)
    ensures rest == if model == "minimax" then ["kimi", "glm5"] else if model == "kimi" then ["glm5"] else []
    ensures rest == [] || exists i :: 0 <= i < |WORKER_CHAIN| - 1 && WORKER_CHAIN[i] == model && rest == WORKER_CHAIN[i + 1..]
    ensures rest == [] <==> model !in WORKER_CHAIN[..|WORKER_CHAIN| - 1]
  {
    for i := 0 to |WORKER_CHAIN|
      invariant forall k :: 0 <= k < i && k < |WORKER_CHAIN| - 1 ==> WORKER_CHAIN[k] != model
    {
      if WORKER_CHAIN[i] == model && i + 1 < |WORKER_CHAIN| {
        assert WORKER_CHAIN[1..] == ["kimi", "glm5"] && WORKER_CHAIN[2..] == ["glm5"];
        return WORKER_CHAIN[i + 1..];
      }
    }
    assert WORKER_CHAIN[0] == "minimax" && WORKER_CHAIN[1] == "kimi";
    return [];
  }

  /** For every chain the router passes on, some model is known, so the last error is never missing; and the
      model that just failed is not tried again. */
  lemma WorkerChainsAreSafe(model: string, i: nat, w: World)
    requires i < |WORKER_CHAIN| - 1 && WORKER_CHAIN[i] == model
    ensures From(WORKER_CHAIN[i + 1..], 0, model, None, w).1 != NilError
    ensures model !in WORKER_CHAIN[i + 1..]
  {
    var chain := WORKER_CHAIN[i + 1..];
    assert chain[0] in PROVIDERS;
    FallbackLog(model, chain, w);
  }

  // ---------- In figures and names ----------

  /** A model that fails transiently throughout is called three times, with pauses of 10 and 30 seconds. */
  lemma ThreeCallsTwoPauses(chain: seq<string>, p: nat, w: World)
    requires p < |chain| && (forall k: nat :: w.reply(p, k).Transient?) && (forall k: nat :: !w.cancelled(p, k))
    ensures
      var m := chain[p];
      Attempts(chain, p, 0, w) ==
        ([Called(p, m, 0, w.reply(p, 0)), Waited(p, 1, 10), Called(p, m, 1, w.reply(p, 1)), Waited(p, 2, 30),
          Called(p, m, 2, w.reply(p, 2))],
         GaveUp(w.reply(p, 2).err))
  {
    var c0, c1, c2 := Called(p, chain[p], 0, w.reply(p, 0)), Called(p, chain[p], 1, w.reply(p, 1)), Called(p, chain[p], 2, w.reply(p, 2));
    assert w.reply(p, 0).Transient? && w.reply(p, 1).Transient? && w.reply(p, 2).Transient?;
    assert !w.cancelled(p, 1) && !w.cancelled(p, 2);
    assert [c2] + [] == [c2];
    assert Attempts(chain, p, 2, w) == ([c2], GaveUp(w.reply(p, 2).err));
    assert [c1] + ([Waited(p, 2, 30)] + [c2]) == [c1, Waited(p, 2, 30), c2];
    assert Attempts(chain, p, 1, w) == ([c1, Waited(p, 2, 30), c2], GaveUp(w.reply(p, 2).err));
    assert [c0] + ([Waited(p, 1, 10)] + [c1, Waited(p, 2, 30), c2]) == [c0, Waited(p, 1, 10), c1, Waited(p, 2, 30), c2];
  }

  /** A cancellation during a pause ends everything: no further call, no further model, no exhaustion. */
  lemma CancelEnds(chain: seq<string>, model: string, w: World)
    requires chain != [] && chain[0] in PROVIDERS && w.reply(0, 0).Transient? && w.cancelled(0, 1)
    ensures From(chain, 0, model, None, w) ==
      ([Triggered(0, model, chain[0]), Called(0, chain[0], 0, w.reply(0, 0))], Cancelled)
  {
    var call := Called(0, chain[0], 0, w.reply(0, 0));
    assert [call] + [] == [call];
    assert Attempts(chain, 0, 0, w) == ([call], Stopped);
    assert [Triggered(0, model, chain[0])] + [call] == [Triggered(0, model, chain[0]), call];
  }

  /** A model that fails permanently is called once, and one that serves is not called again. */
  lemma OneCallDecides(chain: seq<string>, p: nat, w: World)
    requires p < |chain| && !w.reply(p, 0).Transient?
    ensures Attempts(chain, p, 0, w).0 == [Called(p, chain[p], 0, w.reply(p, 0))]
    ensures Attempts(chain, p, 0, w).1 == if w.reply(p, 0).Served? then Got else GaveUp(w.reply(p, 0).err)
  {
  }

  /** A permanent failure of minimax hands over to kimi, and of kimi to glm5; when all fail for good, that is announced
      on behalf of the last one, with its error. */
  lemma WorkersInTurn(w: World, e: string, f: string)
    requires w.reply(0, 0) == Permanent(e) && w.reply(1, 0) == Permanent(f)
    ensures From(["kimi", "glm5"], 0, "minimax", None, w) ==
      ([Triggered(0, "minimax", "kimi"), Called(0, "kimi", 0, Permanent(e)),
        Triggered(1, "kimi", "glm5"), Called(1, "glm5", 0, Permanent(f)), ExhaustedSent("glm5", f)], Exhausted(f))
  {
    var chain := ["kimi", "glm5"];
    var t0, c0 := Triggered(0, "minimax", "kimi"), Called(0, "kimi", 0, Permanent(e));
    var t1, c1, x := Triggered(1, "kimi", "glm5"), Called(1, "glm5", 0, Permanent(f)), ExhaustedSent("glm5", f);
    assert From(chain, 2, "glm5", Some(f), w) == ([x], Exhausted(f));
    OneCallDecides(chain, 1, w);
    assert [t1] + [c1] + [x] == [t1, c1, x];
    assert From(chain, 1, "kimi", Some(e), w) == ([t1, c1, x], Exhausted(f));
    OneCallDecides(chain, 0, w);
    assert [t0] + [c0] + [t1, c1, x] == [t0, c0, t1, c1, x];
  }

  /** All seven model names are known, and no others. */
  lemma KnownModels(model: string, w: World)
    ensures From([model], 0, "", None, w).1 == NilError <==>
      model !in ["opus", "sonnet", "haiku", "minimax", "kimi", "glm5", "glm-flash"]
  {
    FallbackLog("", [model], w);
    assert NoneKnown([model], 0) <==> [model][0] !in PROVIDERS;
  }

  /** A response tells which model of the chain served it: its name, marked as a fallback. */
  lemma ResponseNamesServer(model: string, chain: seq<string>, w: World)
    ensures
      var (s, outcome) := From(chain, 0, model, None, w);
      outcome.Response? ==>
        s != [] && s[|s| - 1].Called? && s[|s| - 1].reply == Served && outcome.modelUsed == s[|s| - 1].model + "(fallback)"
  {
    FallbackLog(model, chain, w);
  }
}
