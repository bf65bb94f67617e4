/** Trimming an agent's memory context to a token budget (`internal/memory/store.go`). */
module Budget {
  type Bytes = seq<bv8>

  /** "... [truncated]" */
  const MARKER: Bytes := [46, 46, 46, 32, 91, 116, 114, 117, 110, 99, 97, 116, 101, 100, 93]
  const MIN_DOC_TOKENS := 200

  /** One token is about four bytes. */
  function EstimateTokens(s: Bytes): nat {
    (|s| + 3) / 4
  }

  function TruncateToTokens(s: Bytes, maxTokens: nat): Bytes {
    if |s| <= maxTokens * 4 then s else s[..maxTokens * 4] + MARKER
  }

  datatype Context = Context(projectDoc: Bytes, agentDoc: Bytes, relevantCode: seq<Bytes>, adrs: seq<Bytes>)

  function TokenSum(list: seq<Bytes>): nat {
    if list == [] then 0 else TokenSum(list[..|list| - 1]) + EstimateTokens(list[|list| - 1])
  }

  function Total(c: Context): nat {
    EstimateTokens(c.projectDoc) + EstimateTokens(c.agentDoc) + TokenSum(c.relevantCode) + TokenSum(c.adrs)
  }

  // ---------- What trimming computes ----------

  /** Drop entries from the end while there is excess. */
  function Kept(list: seq<Bytes>, excess: int): seq<Bytes> {
    if list == [] || excess <= 0 then list
    else Kept(list[..|list| - 1], excess - EstimateTokens(list[|list| - 1]))
  }

  function ExcessAfter(list: seq<Bytes>, excess: int): int {
    excess - (TokenSum(list) - TokenSum(Kept(list, excess)))
  }

  /** How many tokens a document gives up. */
  function TrimAmount(doc: Bytes, excess: int): nat {
    var current := EstimateTokens(doc);
    if excess <= 0 || current <= MIN_DOC_TOKENS then 0
    else if current - MIN_DOC_TOKENS > excess then excess else current - MIN_DOC_TOKENS
  }

  function TrimmedDoc(doc: Bytes, excess: int): Bytes {
    if TrimAmount(doc, excess) == 0 then doc else TruncateToTokens(doc, EstimateTokens(doc) - TrimAmount(doc, excess))
  }

  function Cut(c: Context, e0: int): Context {
    var e1 := ExcessAfter(c.adrs, e0);
    var e2 := ExcessAfter(c.relevantCode, e1);
    var e3 := e2 - TrimAmount(c.projectDoc, e2);
    Context(TrimmedDoc(c.projectDoc, e2), TrimmedDoc(c.agentDoc, e3), Kept(c.relevantCode, e1), Kept(c.adrs, e0))
  }

  function Enforced(c: Context, budget: int): Context {
    if Total(c) <= budget then c else Cut(c, Total(c) - budget)
  }

  // ---------- Lists ----------

  lemma {:induction false} KeptIsPrefix(list: seq<Bytes>, excess: int)
    ensures |Kept(list, excess)| <= |list| && Kept(list, excess) == list[..|Kept(list, excess)|]
  {
    if list == [] || excess <= 0 {
    } else {
      KeptIsPrefix(list[..|list| - 1], excess - EstimateTokens(list[|list| - 1]));
    }
  }

  lemma {:induction false} TokenSumMonotone(list: seq<Bytes>, k: nat)
    requires k <= |list|
    ensures TokenSum(list[..k]) <= TokenSum(list)
  {
    if k < |list| {
      TokenSumMonotone(list[..|list| - 1], k);
      assert list[..|list| - 1][..k] == list[..k];
    } else {
      assert list[..k] == list;
    }
  }

  /** Trimming a list stops as soon as the excess is gone: what it leaves fits, or nothing is left; and
      keeping one entry more would not have fitted. */
  lemma {:induction false} KeptIsMaximal(list: seq<Bytes>, excess: int)
    ensures
      var n := |Kept(list, excess)|;
      && n <= |list| && Kept(list, excess) == list[..n] && TokenSum(list[..n]) <= TokenSum(list)
      && (n > 0 ==> ExcessAfter(list, excess) <= 0)
      && (n < |list| ==> excess - (TokenSum(list) - TokenSum(list[..n + 1])) > 0)
    decreases |list|
  {
    KeptIsPrefix(list, excess);
    TokenSumMonotone(list, |Kept(list, excess)|);
    if list != [] && excess > 0 {
      var shorter := list[..|list| - 1];
      var rest := excess - EstimateTokens(list[|list| - 1]);
      KeptIsMaximal(shorter, rest);
      var n := |Kept(shorter, rest)|;
      assert shorter[..n] == list[..n];
      if n < |shorter| {
        assert shorter[..n + 1] == list[..n + 1];
      } else {
        assert list[..n + 1] == list;
      }
    } else {
      assert list[..|list|] == list;
    }
  }

  // ---------- Documents ----------

  /** A trimmed document is a prefix of at least 800 bytes with the marker, four tokens over what was booked. */
  lemma TrimmedDocTokens(doc: Bytes, excess: int)
    ensures
      var t, d := TrimAmount(doc, excess), TrimmedDoc(doc, excess);
      && (t == 0 ==> d == doc)
      && (t > 0 ==> d == doc[..4 * (EstimateTokens(doc) - t)] + MARKER && EstimateTokens(doc) - t >= MIN_DOC_TOKENS
                    && EstimateTokens(d) == EstimateTokens(doc) - t + 4)
      && (excess - t > 0 ==> EstimateTokens(d) <= MIN_DOC_TOKENS + 4 && (EstimateTokens(doc) <= MIN_DOC_TOKENS || t > 0))
  {
  }

  // ---------- The budget ----------

  function Max(a: int, b: int): int {
    if a >= b then a else b
  }

  /** What is left of the excess after both lists, and after the project document. */
  function AfterLists(c: Context, e0: int): int {
    ExcessAfter(c.relevantCode, ExcessAfter(c.adrs, e0))
  }

  function Overspent(trimmed: nat): nat {
    if trimmed > 0 then 4 else 0
  }

  /** The balance of a cut: what the lists could not save is saved by the documents, which overspend their markers; and
      there is something left to save only once both lists are empty. */
  lemma CutBalance(c: Context, e0: int)
    requires e0 > 0
    ensures
      var e2 := AfterLists(c, e0);
      var t2 := TrimAmount(c.projectDoc, e2);
      var t3 := TrimAmount(c.agentDoc, e2 - t2);
      && Total(Cut(c, e0)) == Total(c) - e0 + (e2 - t2 - t3) + Overspent(t2) + Overspent(t3)
      && (e2 > 0 ==> EstimateTokens(c.projectDoc) + EstimateTokens(c.agentDoc) == Total(c) - e0 + e2)
      && (e2 <= 0 ==> EstimateTokens(c.projectDoc) + EstimateTokens(c.agentDoc) <= Total(c) - e0)
  {
    var e1 := ExcessAfter(c.adrs, e0);
    var e2 := AfterLists(c, e0);
    KeptIsMaximal(c.adrs, e0);
    KeptIsMaximal(c.relevantCode, e1);
    TrimmedDocTokens(c.projectDoc, e2);
    TrimmedDocTokens(c.agentDoc, e2 - TrimAmount(c.projectDoc, e2));
  }

  /** Documents that leave an excess are down to their minimum. */
  lemma LeftoverMeansMinimum(doc: Bytes, excess: int)
    requires excess - TrimAmount(doc, excess) > 0
    ensures EstimateTokens(doc) - TrimAmount(doc, excess) <= MIN_DOC_TOKENS
  {
  }

  /** After trimming, the estimate exceeds the budget, or 400 if that is more, by at most four tokens per document. */
  lemma BudgetBound(c: Context, budget: int)
    ensures Total(Enforced(c, budget)) <= Max(budget, 2 * MIN_DOC_TOKENS) + 8
  {
    var e0 := Total(c) - budget;
    if e0 > 0 {
      CutBalance(c, e0);
      var e2 := AfterLists(c, e0);
      var e3 := e2 - TrimAmount(c.projectDoc, e2);
      if e3 - TrimAmount(c.agentDoc, e3) > 0 {
        LeftoverMeansMinimum(c.projectDoc, e2);
        LeftoverMeansMinimum(c.agentDoc, e3);
      }
    }
  }

  /** Trimming fits the budget exactly when the two documents already fit it on their own: dropping list entries
      always helps, while the marker of a trimmed document costs more than was booked. */
  lemma FitsIff(c: Context, budget: int)
    ensures Total(Enforced(c, budget)) <= budget <==> EstimateTokens(c.projectDoc) + EstimateTokens(c.agentDoc) <= budget
  {
    if Total(c) > budget {
      CutBalance(c, Total(c) - budget);
    }
  }

  /** The eight tokens are really used: 402 tokens of documents, asked to fit in 400, end up as 408. */
  lemma BudgetBoundIsTight()
    ensures exists c :: Total(Enforced(c, 400)) == 408
  {
    var doc: Bytes := seq(804, _ => 120);
    var c := Context(doc, doc, [], []);
    assert EstimateTokens(doc) == 201;
    assert Total(c) == 402;
    TrimmedDocTokens(doc, 2);
    TrimmedDocTokens(doc, 1);
    assert Total(Enforced(c, 400)) == 408;
  }

  /** Trimming a document again, to make good for the marker, gives the same document. */
  lemma TrimmedDocStable(doc: Bytes, excess: int, again: int)
    requires TrimAmount(doc, excess) > 0
    requires again == 4 || (again >= 4 && EstimateTokens(doc) - TrimAmount(doc, excess) == MIN_DOC_TOKENS)
    ensures TrimAmount(TrimmedDoc(doc, excess), again) == 4
    ensures TrimmedDoc(TrimmedDoc(doc, excess), again) == TrimmedDoc(doc, excess)
  {
    TrimmedDocTokens(doc, excess);
    var k := EstimateTokens(doc) - TrimAmount(doc, excess);
    var d := TrimmedDoc(doc, excess);
    assert d[..4 * k] == doc[..4 * k];
  }

  /** So does trimming both documents again by what is then left over. */
  lemma DocsStable(project: Bytes, agent: Bytes, e2: int)
    requires e2 > 0
    ensures
      var t2 := TrimAmount(project, e2);
      var t3 := TrimAmount(agent, e2 - t2);
      var project', agent' := TrimmedDoc(project, e2), TrimmedDoc(agent, e2 - t2);
      var again := e2 - t2 - t3 + (if t2 > 0 then 4 else 0) + (if t3 > 0 then 4 else 0);
      && TrimmedDoc(project', again) == project'
      && TrimmedDoc(agent', again - TrimAmount(project', again)) == agent'
  {
    var t2 := TrimAmount(project, e2);
    var e3 := e2 - t2;
    var t3 := TrimAmount(agent, e3);
    var again := e3 - t3 + (if t2 > 0 then 4 else 0) + (if t3 > 0 then 4 else 0);
    if t2 > 0 {
      TrimmedDocStable(project, e2, again);
    }
    if t3 > 0 {
      TrimmedDocStable(agent, e3, if t2 > 0 then again - 4 else again);
    }
  }

  lemma DocsOnlyStable(r: Context, budget: int)
    requires r.adrs == [] && r.relevantCode == []
    requires var e := Total(r) - budget;
      TrimmedDoc(r.projectDoc, e) == r.projectDoc && TrimmedDoc(r.agentDoc, e - TrimAmount(r.projectDoc, e)) == r.agentDoc
    ensures Enforced(r, budget) == r
  {
  }

  lemma OverBudgetStable(c: Context, budget: int, e0: int, e1: int, e2: int)
    requires e0 == Total(c) - budget > 0 && e1 == ExcessAfter(c.adrs, e0) && e2 == ExcessAfter(c.relevantCode, e1) > 0
    requires Kept(c.adrs, e0) == [] && Kept(c.relevantCode, e1) == []
    ensures Enforced(Cut(c, e0), budget) == Cut(c, e0)
  {
    var t2 := TrimAmount(c.projectDoc, e2);
    var t3 := TrimAmount(c.agentDoc, e2 - t2);
    var r := Cut(c, e0);
    CutBalance(c, e0);
    assert Total(r) - budget == e2 - t2 - t3 + (if t2 > 0 then 4 else 0) + (if t3 > 0 then 4 else 0);
    DocsStable(c.projectDoc, c.agentDoc, e2);
    DocsOnlyStable(r, budget);
  }

  /** A context within budget is left alone, and trimming a second time changes nothing, even when the
      markers keep the estimate above the budget. */
  lemma EnforceIsIdempotent(c: Context, budget: int)
    ensures Total(c) <= budget ==> Enforced(c, budget) == c
    ensures Enforced(Enforced(c, budget), budget) == Enforced(c, budget)
  {
    var e0 := Total(c) - budget;
    if e0 > 0 {
      var e1 := ExcessAfter(c.adrs, e0);
      var e2 := ExcessAfter(c.relevantCode, e1);
      KeptIsMaximal(c.adrs, e0);
      KeptIsMaximal(c.relevantCode, e1);
      if e2 > 0 {
        OverBudgetStable(c, budget, e0, e1, e2);
      } else {
        assert Total(Cut(c, e0)) <= budget;
      }
    }
  }

  /** Sections are cut strictly in order: code only once no ADR is left, the project document only once no
      code is left, the agent document only once the project document is down to its minimum; lists are cut
      to prefixes and documents to prefixes of at least 800 bytes. */
  lemma CutInOrder(c: Context, budget: int)
    ensures
      var r := Enforced(c, budget);
      && r.adrs <= c.adrs && r.relevantCode <= c.relevantCode
      && (r.relevantCode != c.relevantCode ==> r.adrs == [])
      && (r.projectDoc != c.projectDoc ==> r.adrs == [] && r.relevantCode == [])
      && (r.agentDoc != c.agentDoc ==>
            r.adrs == [] && r.relevantCode == [] && EstimateTokens(r.projectDoc) <= MIN_DOC_TOKENS + 4)
      && (forall pair :: pair in [(c.projectDoc, r.projectDoc), (c.agentDoc, r.agentDoc)] && pair.0 != pair.1 ==>
            exists k :: 4 * MIN_DOC_TOKENS <= k <= |pair.0| && pair.1 == pair.0[..k] + MARKER)
  {
    var e0 := Total(c) - budget;
    if e0 > 0 {
      var e1 := ExcessAfter(c.adrs, e0);
      var e2 := ExcessAfter(c.relevantCode, e1);
      var e3 := e2 - TrimAmount(c.projectDoc, e2);
      KeptIsMaximal(c.adrs, e0);
      KeptIsMaximal(c.relevantCode, e1);
      TrimmedDocTokens(c.projectDoc, e2);
      TrimmedDocTokens(c.agentDoc, e3);
    }
  }

  /** No more of a list is dropped than needed: with one more ADR, or one more code entry, kept in front of
      the untouched rest, the estimate would exceed the budget. */
  lemma CutsAreNeeded(c: Context, budget: int)
    ensures
      var r := Enforced(c, budget);
      && (|r.adrs| < |c.adrs| ==> Total(c.(adrs := c.adrs[..|r.adrs| + 1])) > budget)
      && (|r.relevantCode| < |c.relevantCode| ==>
            Total(c.(adrs := [], relevantCode := c.relevantCode[..|r.relevantCode| + 1])) > budget)
  {
    var e0 := Total(c) - budget;
    if e0 > 0 {
      var e1 := ExcessAfter(c.adrs, e0);
      KeptIsMaximal(c.adrs, e0);
      KeptIsMaximal(c.relevantCode, e1);
    }
  }

  // ---------- The budget in bytes ----------

  function ByteSum(list: seq<Bytes>): nat {
    if list == [] then 0 else ByteSum(list[..|list| - 1]) + |list[|list| - 1]|
  }

  function TotalBytes(c: Context): nat {
    |c.projectDoc| + |c.agentDoc| + ByteSum(c.relevantCode) + ByteSum(c.adrs)
  }

  /** The texts of a context; each may cost up to three bytes more than it has. */
  function Pieces(c: Context): nat {
    2 + |c.relevantCode| + |c.adrs|
  }

  lemma TokenBytes(s: Bytes)
    ensures |s| <= 4 * EstimateTokens(s) <= |s| + 3
  {
  }

  lemma {:induction false} SumBytes(list: seq<Bytes>)
    ensures ByteSum(list) <= 4 * TokenSum(list) <= ByteSum(list) + 3 * |list|
  {
    if list == [] {
    } else {
      SumBytes(list[..|list| - 1]);
      TokenBytes(list[|list| - 1]);
    }
  }

  /** Four bytes a token, up to rounding. */
  lemma TotalInBytes(c: Context)
    ensures TotalBytes(c) <= 4 * Total(c) <= TotalBytes(c) + 3 * Pieces(c)
  {
    TokenBytes(c.projectDoc);
    TokenBytes(c.agentDoc);
    SumBytes(c.relevantCode);
    SumBytes(c.adrs);
  }

  /** After trimming, a context has at most four bytes for each token of the budget, or of 400 if that is more, and
      thirty-two bytes on top. */
  lemma BoundInBytes(c: Context, budget: int)
    ensures TotalBytes(Enforced(c, budget)) <= 4 * (Max(budget, 400) + 8)
  {
    BudgetBound(c, budget);
    TotalInBytes(Enforced(c, budget));
  }

  /** And no more is cut than needed: a context that fits in bytes, with three to spare for each text, is left alone;
      when list entries go, one more of them would have brought the context to the budget, up to that rounding. */
  lemma CutsInBytes(c: Context, budget: int)
    ensures
      var r := Enforced(c, budget);
      && (TotalBytes(c) + 3 * Pieces(c) <= 4 * budget ==> r == c)
      && (|r.adrs| < |c.adrs| ==>
            var more := c.(adrs := c.adrs[..|r.adrs| + 1]);
            TotalBytes(more) + 3 * Pieces(more) > 4 * budget)
      && (|r.relevantCode| < |c.relevantCode| ==>
            var more := c.(adrs := [], relevantCode := c.relevantCode[..|r.relevantCode| + 1]);
            TotalBytes(more) + 3 * Pieces(more) > 4 * budget)
  {
    var r := Enforced(c, budget);
    TotalInBytes(c);
    CutsAreNeeded(c, budget);
    CutInOrder(c, budget);
    if |r.adrs| < |c.adrs| {
      TotalInBytes(c.(adrs := c.adrs[..|r.adrs| + 1]));
    }
    if |r.relevantCode| < |c.relevantCode| {
      TotalInBytes(c.(adrs := [], relevantCode := c.relevantCode[..|r.relevantCode| + 1]));
    }
  }

  /** A list that is trimmed by a positive excess loses an entry, if it has one. */
  lemma PositiveExcessCuts(list: seq<Bytes>, excess: int)
    requires excess > 0 && list != []
    ensures |Kept(list, excess)| < |list|
  {
    KeptIsPrefix(list[..|list| - 1], excess - EstimateTokens(list[|list| - 1]));
  }

  /** A context with more bytes than the budget has in tokens loses entries, if it has any: ADRs first, and all of them
      and code next while what is left still has too many bytes. */
  lemma OversizeIsCut(c: Context, budget: int)
    requires TotalBytes(c) > 4 * budget
    ensures
      var r := Enforced(c, budget);
      && (c.adrs != [] ==> |r.adrs| < |c.adrs|)
      && (TotalBytes(c.(adrs := [])) > 4 * budget ==>
            r.adrs == [] && (c.relevantCode != [] ==> |r.relevantCode| < |c.relevantCode|))
  {
    var e0 := Total(c) - budget;
    var e1 := ExcessAfter(c.adrs, e0);
    TotalInBytes(c);
    if c.adrs != [] {
      PositiveExcessCuts(c.adrs, e0);
    }
    if TotalBytes(c.(adrs := [])) > 4 * budget {
      TotalInBytes(c.(adrs := []));
      KeptIsMaximal(c.adrs, e0);
      assert e1 > 0;
      if c.relevantCode != [] {
        PositiveExcessCuts(c.relevantCode, e1);
      }
    }
  }

  /** A trimmed document keeps at least its first 800 bytes, in whole tokens, followed by "... [truncated]". */
  lemma TrimmedDocBytes(doc: Bytes, excess: int)
    requires TrimmedDoc(doc, excess) != doc
    ensures exists k ::
      && 800 <= 4 * k < |doc|
      && TrimmedDoc(doc, excess) == doc[..4 * k] + [46, 46, 46, 32, 91, 116, 114, 117, 110, 99, 97, 116, 101, 100, 93]
  {
    TrimmedDocTokens(doc, excess);
    var k := EstimateTokens(doc) - TrimAmount(doc, excess);
    assert 800 <= 4 * k < |doc|;
  }

  // ---------- The code ----------

  class MemoryContext {
    var projectDoc: Bytes
    var agentDoc: Bytes
    var relevantCode: seq<Bytes>
    var adrs: seq<Bytes>

    ghost function Value(): Context
      reads this
    {
      Context(projectDoc, agentDoc, relevantCode, adrs)
    }
  }

  method SumTokens(list: seq<Bytes>) returns (total: nat)
    ensures total == TokenSum(list)
  {
    total := 0;
    for i := 0 to |list|
      invariant total == TokenSum(list[..i])
    {
      assert list[..i + 1][..i] == list[..i];
      total := total + EstimateTokens(list[i]);
    }
    assert list[..|list|] == list;
  }

  /** Cut a list from the end while there is excess. */
  method TrimList(list: seq<Bytes>, excess0: int) returns (cut: seq<Bytes>, excess: int)
    ensures cut == Kept(list, excess0) && excess == ExcessAfter(list, excess0)
  {
    cut, excess := list, excess0;
    var i := |list| - 1;
    while i >= 0 && excess > 0
      invariant -1 <= i < |list| && cut == list[..i + 1]
      invariant Kept(list, excess0) == Kept(cut, excess)
      invariant excess == excess0 - (TokenSum(list) - TokenSum(cut))
    {
      var tokens := EstimateTokens(cut[i]);
      assert cut[..|cut| - 1] == cut[..i] == list[..i];
      cut := cut[..i];
      excess := excess - tokens;
      i := i - 1;
    }
  }

  /** One round of the loop over the document sections. */
  method TrimSection(doc: Bytes, excess0: int) returns (cut: Bytes, excess: int)
    ensures cut == TrimmedDoc(doc, excess0) && excess == excess0 - TrimAmount(doc, excess0)
  {
    cut, excess := doc, excess0;
    if excess <= 0 {
      return;
    }
    var current := EstimateTokens(doc);
    if current <= MIN_DOC_TOKENS {
      return;
    }
    var trimAmount := current - MIN_DOC_TOKENS;
    if trimAmount > excess {
      trimAmount := excess;
    }
    cut := TruncateToTokens(doc, current - trimAmount);
    excess := excess - trimAmount;
  }

  method TrimSections(ctx: MemoryContext, excess0: int)
    requires excess0 > 0
    modifies ctx
    ensures ctx.Value() == Cut(old(ctx.Value()), excess0)
  {
    var excess := excess0;
    ctx.adrs, excess := TrimList(ctx.adrs, excess);
    ctx.relevantCode, excess := TrimList(ctx.relevantCode, excess);
    ctx.projectDoc, excess := TrimSection(ctx.projectDoc, excess);
    ctx.agentDoc, excess := TrimSection(ctx.agentDoc, excess);
  }

  /** The estimate for a whole context. */
  method EstimateContext(ctx: MemoryContext) returns (total: nat)
    ensures total == Total(ctx.Value())
  {
    var code := SumTokens(ctx.relevantCode);
    var adrs := SumTokens(ctx.adrs);
    total := EstimateTokens(ctx.projectDoc) + EstimateTokens(ctx.agentDoc) + code + adrs;
  }

  /** Trim a context in place; the document sections come in the order of their priorities, project document first. */
  method EnforceTokenBudget(ctx: MemoryContext, budget: int)
    modifies ctx
    ensures ctx.Value() == Enforced(old(ctx.Value()), budget)
    ensures TotalBytes(ctx.Value()) <= 4 * (Max(budget, 400) + 8)
    ensures old(TotalBytes(ctx.Value()) + 3 * Pieces(ctx.Value())) <= 4 * budget ==> ctx.Value() == old(ctx.Value())
  {
    BoundInBytes(ctx.Value(), budget);
    CutsInBytes(ctx.Value(), budget);
    var total := EstimateContext(ctx);
    if total <= budget {
      return;
    }
    TrimSections(ctx, total - budget);
  }
}
