/** Learning from reflections and pruning a role's skills (`internal/state/skills.go`). Rates and days are
    reals. */
module Skills {
  import opened Text

  const MAX_SKILLS := 30

  datatype Skill = Skill(
    id: string, title: string, summary: string, description: string, pattern: string, antiPattern: string,
    examples: seq<string>, detailFile: string, learnedFrom: string, rate: real, usage: nat, updated: real)

  datatype Reflection = Reflection(
    taskID: string, success: bool, used: seq<string>, lessons: seq<string>, patterns: seq<string>, antiPatterns: seq<string>)

  /** How a role numbers a skill, shortens a title, cuts a text to a length, and prints a skill's last lines. */
  datatype Wording = Wording(
    newID: (nat, string) -> string, title: string -> string, cut: (string, nat) -> string,
    footer: (real, nat, string) -> string)

  predicate IsAnti(sk: Skill) {
    sk.antiPattern != ""
  }

  // ---------- Scores ----------

  function Score(sk: Skill, now: real): real {
    if IsAnti(sk) then 100.0
    else
      var usage := (if sk.usage > 10 then 10 else sk.usage) as real / 10.0;
      var days := now - sk.updated;
      var recency := if days > 30.0 then 30.0 / days else 1.0;
      sk.rate * 0.5 + usage * 0.3 + recency * 0.2
  }

  ghost predicate UnitRates(skills: seq<Skill>) {
    forall i :: 0 <= i < |skills| ==> 0.0 <= skills[i].rate <= 1.0
  }

  lemma ScoreOrdersAnti(sk: Skill, now: real)
    requires 0.0 <= sk.rate <= 1.0
    ensures IsAnti(sk) <==> Score(sk, now) == 100.0
    ensures !IsAnti(sk) ==> 0.0 <= Score(sk, now) <= 1.0
  {
    var days := now - sk.updated;
    if days > 30.0 {
      assert 0.0 < 30.0 / days < 1.0;
    }
  }

  /** What a score is made of, for a skill that is no anti-pattern: half its rate, three hundredths for each of its first
      ten uses, and a fifth while it is fresh, shrinking with age after thirty days. */
  lemma ScoreParts(sk: Skill, now: real)
    requires !IsAnti(sk)
    ensures sk.usage <= 10 && now - sk.updated <= 30.0 ==> Score(sk, now) == sk.rate / 2.0 + 0.03 * sk.usage as real + 0.2
    ensures sk.usage >= 10 && now - sk.updated <= 30.0 ==> Score(sk, now) == sk.rate / 2.0 + 0.5
    ensures sk.usage <= 10 && now - sk.updated > 30.0 ==>
      Score(sk, now) == sk.rate / 2.0 + 0.03 * sk.usage as real + 6.0 / (now - sk.updated)
    ensures sk.usage >= 10 && now - sk.updated > 30.0 ==> Score(sk, now) == sk.rate / 2.0 + 0.3 + 6.0 / (now - sk.updated)
  {
    var days := now - sk.updated;
    if days > 30.0 {
      assert 30.0 / days * 0.2 == 6.0 / days;
    }
  }

  // ---------- Pruning ----------

  /** What sort.Slice delivers: the indices in descending order of score, ties in any order. */
  ghost predicate Ranking(order: seq<nat>, skills: seq<Skill>, now: real) {
    && |order| == |skills|
    && (forall k :: 0 <= k < |order| ==> order[k] < |skills|)
    && (forall j, k :: 0 <= j < k < |order| ==> order[j] != order[k])
    && (forall i :: 0 <= i < |skills| ==> i in order)
    && (forall j, k :: 0 <= j < k < |order| ==> Score(skills[order[j]], now) >= Score(skills[order[k]], now))
  }

  /** The kept skills, by rank. */
  function Pruned(skills: seq<Skill>, maxN: nat, order: seq<nat>): (kept: seq<Skill>)
    requires |order| == |skills| && forall k :: 0 <= k < |order| ==> order[k] < |skills|
    ensures |kept| == if |skills| <= maxN then |skills| else maxN
  {
    if |skills| <= maxN then skills else seq(maxN, k requires 0 <= k < maxN => skills[order[k]])
  }

  method PruneSkills(skills: seq<Skill>, maxN: nat, order: seq<nat>, ghost now: real) returns (kept: seq<Skill>)
    requires Ranking(order, skills, now)
    ensures kept == Pruned(skills, maxN, order)
  {
    if |skills| <= maxN {
      return skills;
    }
    kept := [];
    for k := 0 to maxN
      invariant |kept| == k && forall j :: 0 <= j < k ==> kept[j] == skills[order[j]]
    {
      kept := kept + [skills[order[k]]];
    }
  }

  /** Skill `i` is among the kept ones. */
  ghost predicate KeptIndex(i: nat, maxN: nat, order: seq<nat>) {
    if |order| <= maxN then i < |order| else i in order[..maxN]
  }

  /** Nothing is dropped in favour of something with a lower score; in particular no anti-pattern is dropped
      while a skill that is none is kept. */
  lemma WorstAreDropped(skills: seq<Skill>, maxN: nat, order: seq<nat>, now: real, i: nat, d: nat)
    requires Ranking(order, skills, now) && UnitRates(skills)
    requires i < |skills| && d < |skills| && KeptIndex(i, maxN, order) && !KeptIndex(d, maxN, order)
    ensures Score(skills[i], now) >= Score(skills[d], now)
    ensures IsAnti(skills[d]) ==> IsAnti(skills[i])
    ensures skills[i] in Pruned(skills, maxN, order)
  {
    var j :| 0 <= j < maxN && order[j] == i;
    assert d in order;
    var k :| 0 <= k < |order| && order[k] == d;
    assert forall m :: 0 <= m < maxN ==> order[..maxN][m] == order[m];
    ScoreOrdersAnti(skills[i], now);
    ScoreOrdersAnti(skills[d], now);
    assert Pruned(skills, maxN, order)[j] == skills[i];
  }

  function AntiIndices(skills: seq<Skill>): set<nat> {
    set i: nat | i < |skills| && IsAnti(skills[i])
  }

  function ToSet(s: seq<nat>): set<nat> {
    set x | x in s
  }

  lemma {:induction false} DistinctSize(s: seq<nat>)
    requires forall j, k :: 0 <= j < k < |s| ==> s[j] != s[k]
    ensures |ToSet(s)| == |s|
  {
    if s == [] {
    } else {
      var n := |s| - 1;
      DistinctSize(s[..n]);
      assert s == s[..n] + [s[n]];
      assert ToSet(s) == ToSet(s[..n]) + {s[n]};
      assert s[n] !in s[..n];
    }
  }

  lemma {:induction false} SubsetSize(a: set<nat>, b: set<nat>)
    requires a <= b
    ensures |a| <= |b|
  {
    if a == {} {
    } else {
      var x :| x in a;
      SubsetSize(a - {x}, b - {x});
    }
  }

  /** Pruning keeps every anti-pattern exactly when there are at most `maxN` of them; beyond that it drops some. */
  lemma AllAntiKeptIff(skills: seq<Skill>, maxN: nat, order: seq<nat>, now: real)
    requires Ranking(order, skills, now) && UnitRates(skills)
    ensures (forall i :: i in AntiIndices(skills) ==> KeptIndex(i, maxN, order)) <==> |AntiIndices(skills)| <= maxN
  {
    var anti := AntiIndices(skills);
    var top := ToSet(if |order| <= maxN then order else order[..maxN]);
    DistinctSize(if |order| <= maxN then order else order[..maxN]);
    if forall i :: i in anti ==> KeptIndex(i, maxN, order) {
      assert anti <= top;
      SubsetSize(anti, top);
    } else {
      var d :| d in anti && !KeptIndex(d, maxN, order);
      forall x | x in top
        ensures x in anti
      {
        WorstAreDropped(skills, maxN, order, now, x, d);
      }
      assert d !in top;
      SubsetSize(top + {d}, anti);
    }
  }

  /** So of thirty-one anti-patterns one is dropped. */
  lemma ThirtyOneAntiPatterns(sk: Skill, now: real) returns (skills: seq<Skill>, order: seq<nat>)
    requires IsAnti(sk) && 0.0 <= sk.rate <= 1.0
    ensures |skills| == 31 && (forall i :: 0 <= i < 31 ==> skills[i] == sk)
    ensures Ranking(order, skills, now) && !KeptIndex(30, MAX_SKILLS, order)
  {
    skills := seq(31, _ => sk);
    order := seq(31, (i: nat) => i);
    forall i: nat | i < 31
      ensures i in order
    {
      assert order[i] == i;
    }
    assert 30 !in order[..30];
  }

  // ---------- Reflection ----------

  /** The exponential moving average of successes. */
  function Averaged(rate: real, success: bool): real {
    rate * 0.7 + (if success then 0.3 else 0.0)
  }

  /** The last skill with this ID, as the index map holds it. */
  function LastIndex(skills: seq<Skill>, id: string): Option<nat> {
    if skills == [] then None
    else if skills[|skills| - 1].id == id then Some(|skills| - 1)
    else LastIndex(skills[..|skills| - 1], id)
  }

  lemma {:induction false} LastIndexInRange(skills: seq<Skill>, id: string)
    ensures LastIndex(skills, id).Some? ==> LastIndex(skills, id).value < |skills| && skills[LastIndex(skills, id).value].id == id
  {
    if skills == [] {
    } else if skills[|skills| - 1].id != id {
      LastIndexInRange(skills[..|skills| - 1], id);
    }
  }

  /** One use of the named skill, if it exists. */
  function Used(skills: seq<Skill>, id: string, success: bool, now: real): seq<Skill> {
    match LastIndex(skills, id)
    case None => skills
    case Some(i) =>
      if i >= |skills| then skills
      else
        var sk := skills[i];
        skills[i := sk.(usage := sk.usage + 1, rate := Averaged(sk.rate, success), updated := now)]
  }

  function UsedAll(skills: seq<Skill>, ids: seq<string>, success: bool, now: real): seq<Skill> {
    if ids == [] then skills else Used(UsedAll(skills, ids[..|ids| - 1], success, now), ids[|ids| - 1], success, now)
  }

  ghost predicate SameBut(sk: Skill, after: Skill) {
    after == sk.(usage := after.usage, rate := after.rate, updated := after.updated) && after.usage >= sk.usage
  }

  /** `after` are the same skills; those not in `ids` are unchanged, the others at most in their counters. */
  ghost predicate OnlyUsed(skills: seq<Skill>, after: seq<Skill>, ids: seq<string>) {
    && UnitRates(after) && |after| == |skills|
    && (forall i :: 0 <= i < |skills| ==> SameBut(skills[i], after[i]) && (skills[i].id !in ids ==> after[i] == skills[i]))
  }

  lemma UseKeepsRates(skills: seq<Skill>, before: seq<Skill>, ids: seq<string>, id: string, success: bool, now: real)
    requires OnlyUsed(skills, before, ids)
    ensures OnlyUsed(skills, Used(before, id, success, now), ids + [id])
  {
    LastIndexInRange(before, id);
    var after := Used(before, id, success, now);
    forall i | 0 <= i < |skills|
      ensures SameBut(skills[i], after[i]) && (skills[i].id !in ids + [id] ==> after[i] == skills[i])
    {
      assert SameBut(skills[i], before[i]);
    }
  }

  /** Uses keep rates between 0 and 1, and touch only the counters of the named skills. */
  lemma {:induction false} UsesKeepRates(skills: seq<Skill>, ids: seq<string>, success: bool, now: real)
    requires UnitRates(skills)
    ensures OnlyUsed(skills, UsedAll(skills, ids, success, now), ids)
  {
    if ids == [] {
    } else {
      var n := |ids| - 1;
      UsesKeepRates(skills, ids[..n], success, now);
      assert ids == ids[..n] + [ids[n]];
      UseKeepsRates(skills, UsedAll(skills, ids[..n], success, now), ids[..n], ids[n], success, now);
    }
  }

  // ---------- What uses count ----------

  /** A rate after `n` uses: each keeps seven tenths of it, and a success adds the other three. */
  function RateAfter(rate: real, n: nat, success: bool): real {
    if n == 0 then rate else 0.7 * RateAfter(rate, n - 1, success) + (if success then 0.3 else 0.0)
  }

  /** `after` is `sk` with `n` more uses. */
  predicate UsedTimes(sk: Skill, after: Skill, n: nat, success: bool, now: real) {
    after == sk.(usage := sk.usage + n, rate := RateAfter(sk.rate, n, success), updated := if n == 0 then sk.updated else now)
  }

  /** No later skill has the same ID. */
  ghost predicate LastOfName(skills: seq<Skill>, i: nat)
    requires i < |skills|
  {
    forall j :: i < j < |skills| ==> skills[j].id != skills[i].id
  }

  /** How often `ids` name skill `i`: a name means the last skill that has it. */
  ghost function Named(skills: seq<Skill>, i: nat, ids: seq<string>): nat
    requires i < |skills|
  {
    if LastOfName(skills, i) then multiset(ids)[skills[i].id] else 0
  }

  /** Each skill has as many more uses as it was named. */
  ghost predicate UsesCounted(skills: seq<Skill>, after: seq<Skill>, ids: seq<string>, success: bool, now: real) {
    && |after| == |skills|
    && forall i :: 0 <= i < |skills| ==>
         UsedTimes(skills[i], after[i], Named(skills, i, ids), success, now)
  }

  lemma {:induction false} LastIndexIff(skills: seq<Skill>, id: string)
    ensures match LastIndex(skills, id)
      case None => forall j :: 0 <= j < |skills| ==> skills[j].id != id
      case Some(i) => i < |skills| && skills[i].id == id && LastOfName(skills, i)
  {
    if skills == [] {
    } else {
      LastIndexIff(skills[..|skills| - 1], id);
    }
  }

  /** The skills keep their IDs, so the last of each name stays the last. */
  lemma SameNames(skills: seq<Skill>, after: seq<Skill>, i: nat)
    requires |after| == |skills| && i < |skills| && forall j :: 0 <= j < |skills| ==> after[j].id == skills[j].id
    ensures LastOfName(after, i) <==> LastOfName(skills, i)
  {
  }

  /** The index is the last one of that name. */
  lemma LastIndexIs(skills: seq<Skill>, id: string, i: nat)
    requires i < |skills|
    ensures LastIndex(skills, id) == Some(i) <==> skills[i].id == id && LastOfName(skills, i)
  {
    LastIndexIff(skills, id);
  }

  ghost predicate SameIDs(skills: seq<Skill>, after: seq<Skill>) {
    |after| == |skills| && forall j :: 0 <= j < |skills| ==> after[j].id == skills[j].id
  }

  lemma OneMoreAt(skills: seq<Skill>, before: seq<Skill>, ids: seq<string>, id: string, success: bool, now: real, i: nat)
    requires i < |skills| && SameIDs(skills, before)
    requires UsedTimes(skills[i], before[i], Named(skills, i, ids), success, now)
    ensures |Used(before, id, success, now)| == |skills|
    ensures UsedTimes(skills[i], Used(before, id, success, now)[i], Named(skills, i, ids + [id]), success, now)
  {
    SameNames(skills, before, i);
    LastIndexIs(before, id, i);
    LastIndexIff(before, id);
    assert multiset(ids + [id]) == multiset(ids) + multiset{id};
  }

  lemma CountedKeepIDs(skills: seq<Skill>, after: seq<Skill>, ids: seq<string>, success: bool, now: real)
    requires UsesCounted(skills, after, ids, success, now)
    ensures SameIDs(skills, after)
  {
    forall j | 0 <= j < |skills|
      ensures after[j].id == skills[j].id
    {
      assert UsedTimes(skills[j], after[j], Named(skills, j, ids), success, now);
    }
  }

  lemma UsedLength(skills: seq<Skill>, id: string, success: bool, now: real)
    ensures |Used(skills, id, success, now)| == |skills|
  {
  }

  lemma OneMoreUse(skills: seq<Skill>, before: seq<Skill>, ids: seq<string>, id: string, success: bool, now: real)
    requires UsesCounted(skills, before, ids, success, now)
    ensures UsesCounted(skills, Used(before, id, success, now), ids + [id], success, now)
  {
    CountedKeepIDs(skills, before, ids, success, now);
    UsedLength(before, id, success, now);
    forall i | 0 <= i < |skills|
      ensures UsedTimes(skills[i], Used(before, id, success, now)[i], Named(skills, i, ids + [id]), success, now)
    {
      OneMoreAt(skills, before, ids, id, success, now, i);
    }
  }

  /** Over any uses: the last skill with an ID gains as many uses as it was named, its rate moves with each, and its
      time is now if it was named; nothing else about the skills changes. */
  lemma {:induction false} UsesAreCounted(skills: seq<Skill>, ids: seq<string>, success: bool, now: real)
    ensures UsesCounted(skills, UsedAll(skills, ids, success, now), ids, success, now)
  {
    if ids == [] {
    } else {
      var n := |ids| - 1;
      UsesAreCounted(skills, ids[..n], success, now);
      OneMoreUse(skills, UsedAll(skills, ids[..n], success, now), ids[..n], ids[n], success, now);
      assert ids == ids[..n] + [ids[n]];
    }
  }

  /** `x` times seven tenths, `n` times over. */
  function Shrunk(x: real, n: nat): real {
    if n == 0 then x else 0.7 * Shrunk(x, n - 1)
  }

  /** In closed form: with successes the distance to one shrinks by the factor 0.7 each time, with failures the rate. */
  lemma {:induction false} RatesConverge(rate: real, n: nat)
    ensures RateAfter(rate, n, true) == 1.0 - Shrunk(1.0 - rate, n)
    ensures RateAfter(rate, n, false) == Shrunk(rate, n)
  {
    if n == 0 {
    } else {
      RatesConverge(rate, n - 1);
    }
  }

  // ---------- What is learned ----------

  datatype Kind = Lesson | Pattern | AntiPattern

  function NewSkill(kind: Kind, t: string, taskID: string, id: string, wd: Wording, now: real): Skill {
    match kind
    case Lesson => Skill(id, wd.title(t), wd.cut(t, 120), t, "", "", [], "", taskID, 0.5, 0, now)
    case Pattern => Skill(id, wd.title(t), wd.cut(t, 120), "", t, "", [], "", taskID, 0.7, 0, now)
    case AntiPattern => Skill(id, "AVOID: " + wd.title(t), "AVOID: " + wd.cut(t, 110), "", "", t, [], "", taskID, 0.0, 0, now)
  }

  /** A skill for every text that is not blank, in order, numbered from `firstID`. */
  function Learned(texts: seq<string>, kind: Kind, taskID: string, firstID: nat, wd: Wording, now: real): seq<Skill> {
    if texts == [] then []
    else
      var n := |texts| - 1;
      var before := Learned(texts[..n], kind, taskID, firstID, wd, now);
      if Blank(texts[n]) then before
      else before + [NewSkill(kind, texts[n], taskID, wd.newID(firstID + |before|, texts[n]), wd, now)]
  }

  /** The texts that are worth learning: those with something in them. */
  function Worthwhile(texts: seq<string>): seq<string> {
    if texts == [] then []
    else Worthwhile(texts[..|texts| - 1]) + if TrimSpace(texts[|texts| - 1]) == "" then [] else [texts[|texts| - 1]]
  }

  /** `sk` is unused and teaches `t`, in the field of its kind and no other, with the rate new skills of that kind have. */
  predicate Teaches(sk: Skill, kind: Kind, t: string, taskID: string, now: real) {
    && sk.usage == 0 && sk.updated == now && sk.learnedFrom == taskID && sk.examples == [] && sk.detailFile == ""
    && match kind
       case Lesson => sk.description == t && sk.pattern == "" && sk.antiPattern == "" && sk.rate == 0.5
       case Pattern => sk.pattern == t && sk.description == "" && sk.antiPattern == "" && sk.rate == 0.7
       case AntiPattern => sk.antiPattern == t && sk.description == "" && sk.pattern == "" && sk.rate == 0.0
  }

  /** There is one skill for each such text, in order, with numbers that count on. */
  lemma {:induction false} LearnedInOrder(texts: seq<string>, kind: Kind, taskID: string, firstID: nat, wd: Wording, now: real)
    ensures
      var added, from := Learned(texts, kind, taskID, firstID, wd, now), Worthwhile(texts);
      && |added| == |from|
      && forall k :: 0 <= k < |added| ==>
           Teaches(added[k], kind, from[k], taskID, now) && added[k].id == wd.newID(firstID + k, from[k])
  {
    if texts == [] {
    } else {
      var n := |texts| - 1;
      LearnedInOrder(texts[..n], kind, taskID, firstID, wd, now);
      BlankIff(texts[n]);
      var before, after := Learned(texts[..n], kind, taskID, firstID, wd, now), Learned(texts, kind, taskID, firstID, wd, now);
      var from := Worthwhile(texts[..n]);
      forall k | 0 <= k < |after|
        ensures k < |Worthwhile(texts)|
        ensures Teaches(after[k], kind, Worthwhile(texts)[k], taskID, now) && after[k].id == wd.newID(firstID + k, Worthwhile(texts)[k])
      {
        if k < |before| {
          assert after[k] == before[k] && Worthwhile(texts)[k] == from[k];
        }
      }
    }
  }

  /** New skills appended, numbered on from the skill count. */
  function Grown(s: seq<Skill>, texts: seq<string>, kind: Kind, taskID: string, wd: Wording, now: real): seq<Skill> {
    s + Learned(texts, kind, taskID, |s| + 1, wd, now)
  }

  /** The skills before pruning. */
  function Reflected(skills: seq<Skill>, r: Reflection, wd: Wording, now: real): seq<Skill> {
    var s0 := UsedAll(skills, r.used, r.success, now);
    var s1 := Grown(s0, r.lessons, Lesson, r.taskID, wd, now);
    var s2 := Grown(s1, r.patterns, Pattern, r.taskID, wd, now);
    Grown(s2, r.antiPatterns, AntiPattern, r.taskID, wd, now)
  }

  /** From position `at` on there is one skill for each worthwhile text, in order, teaching it, numbered by position. */
  ghost predicate TaughtAt(all: seq<Skill>, at: nat, texts: seq<string>, kind: Kind, taskID: string, wd: Wording, now: real) {
    var from := Worthwhile(texts);
    && at + |from| <= |all|
    && forall i :: at <= i < at + |from| ==>
         Teaches(all[i], kind, from[i - at], taskID, now) && all[i].id == wd.newID(i + 1, from[i - at])
  }

  /** `after` is `before` with the skills those texts teach behind it. */
  ghost predicate Adds(before: seq<Skill>, after: seq<Skill>, texts: seq<string>, kind: Kind, taskID: string, wd: Wording, now: real) {
    && |after| == |before| + |Worthwhile(texts)| && before <= after
    && TaughtAt(after, |before|, texts, kind, taskID, wd, now)
  }

  lemma GrownTeaches(s: seq<Skill>, texts: seq<string>, kind: Kind, taskID: string, wd: Wording, now: real)
    ensures Adds(s, Grown(s, texts, kind, taskID, wd, now), texts, kind, taskID, wd, now)
  {
    LearnedInOrder(texts, kind, taskID, |s| + 1, wd, now);
    var added, all := Learned(texts, kind, taskID, |s| + 1, wd, now), Grown(s, texts, kind, taskID, wd, now);
    forall i | |s| <= i < |all|
      ensures all[i] == added[i - |s|]
    {
    }
  }

  lemma TaughtStays(all: seq<Skill>, longer: seq<Skill>, at: nat, texts: seq<string>, kind: Kind, taskID: string, wd: Wording, now: real)
    requires TaughtAt(all, at, texts, kind, taskID, wd, now) && all <= longer
    ensures TaughtAt(longer, at, texts, kind, taskID, wd, now)
  {
    forall i | at <= i < at + |Worthwhile(texts)|
      ensures longer[i] == all[i]
    {
    }
  }

  /** What a reflection makes of the skills before pruning: the known ones with their uses counted, then every lesson, from
      `patterns` on every pattern, and from `antis` on every anti-pattern that is not blank, each taught by one new
      skill, and nothing else. */
  lemma ReflectionTeaches(skills: seq<Skill>, r: Reflection, wd: Wording, now: real) returns (patterns: nat, antis: nat)
    ensures patterns == |skills| + |Worthwhile(r.lessons)| && antis == patterns + |Worthwhile(r.patterns)|
    ensures
      var all := Reflected(skills, r, wd, now);
      && |all| == antis + |Worthwhile(r.antiPatterns)|
      && UsesCounted(skills, all[..|skills|], r.used, r.success, now)
      && TaughtAt(all, |skills|, r.lessons, Lesson, r.taskID, wd, now)
      && TaughtAt(all, patterns, r.patterns, Pattern, r.taskID, wd, now)
      && TaughtAt(all, antis, r.antiPatterns, AntiPattern, r.taskID, wd, now)
  {
    var s0 := UsedAll(skills, r.used, r.success, now);
    var s1 := Grown(s0, r.lessons, Lesson, r.taskID, wd, now);
    var s2 := Grown(s1, r.patterns, Pattern, r.taskID, wd, now);
    var all := Reflected(skills, r, wd, now);
    patterns, antis := |s1|, |s2|;
    UsesAreCounted(skills, r.used, r.success, now);
    GrownTeaches(s0, r.lessons, Lesson, r.taskID, wd, now);
    GrownTeaches(s1, r.patterns, Pattern, r.taskID, wd, now);
    GrownTeaches(s2, r.antiPatterns, AntiPattern, r.taskID, wd, now);
    assert s0 <= s1 <= s2 <= all && all[..|s0|] == s0;
    TaughtStays(s1, all, |s0|, r.lessons, Lesson, r.taskID, wd, now);
    TaughtStays(s2, all, |s1|, r.patterns, Pattern, r.taskID, wd, now);
  }

  ghost predicate HasAnti(skills: seq<Skill>, t: string) {
    exists d :: 0 <= d < |skills| && skills[d].antiPattern == t
  }

  ghost predicate AllAnti(skills: seq<Skill>) {
    forall i :: 0 <= i < |skills| ==> IsAnti(skills[i])
  }

  lemma AntiInFront(a: seq<Skill>, b: seq<Skill>, t: string)
    requires HasAnti(a, t)
    ensures HasAnti(a + b, t)
  {
    var i :| 0 <= i < |a| && a[i].antiPattern == t;
    assert (a + b)[i].antiPattern == t;
  }

  lemma {:induction false} LearnedFacts(texts: seq<string>, kind: Kind, taskID: string, firstID: nat, wd: Wording, now: real)
    ensures
      var added := Learned(texts, kind, taskID, firstID, wd, now);
      && UnitRates(added)
      && (kind == AntiPattern ==> forall t :: t in texts && !Blank(t) ==> HasAnti(added, t))
  {
    if texts == [] {
    } else {
      var n := |texts| - 1;
      LearnedFacts(texts[..n], kind, taskID, firstID, wd, now);
      assert texts == texts[..n] + [texts[n]];
      var before, after := Learned(texts[..n], kind, taskID, firstID, wd, now), Learned(texts, kind, taskID, firstID, wd, now);
      forall t | kind == AntiPattern && t in texts && !Blank(t)
        ensures HasAnti(after, t)
      {
        if t in texts[..n] {
          AntiInFront(before, after[|before|..], t);
        } else {
          assert after[|after| - 1].antiPattern == t;
        }
      }
    }
  }

  lemma AntiInTail(a: seq<Skill>, b: seq<Skill>, t: string)
    requires HasAnti(b, t)
    ensures HasAnti(a + b, t)
  {
    var i :| 0 <= i < |b| && b[i].antiPattern == t;
    assert (a + b)[|a| + i].antiPattern == t;
  }

  lemma GrownFacts(s: seq<Skill>, texts: seq<string>, kind: Kind, taskID: string, wd: Wording, now: real)
    requires UnitRates(s)
    ensures
      var grown := Grown(s, texts, kind, taskID, wd, now);
      && UnitRates(grown)
      && (forall t :: HasAnti(s, t) ==> HasAnti(grown, t))
      && (kind == AntiPattern ==> forall t :: t in texts && !Blank(t) ==> HasAnti(grown, t))
  {
    var added := Learned(texts, kind, taskID, |s| + 1, wd, now);
    LearnedFacts(texts, kind, taskID, |s| + 1, wd, now);
    forall t | HasAnti(s, t)
      ensures HasAnti(s + added, t)
    {
      AntiInFront(s, added, t);
    }
    forall t | kind == AntiPattern && t in texts && !Blank(t)
      ensures HasAnti(s + added, t)
    {
      AntiInTail(s, added, t);
    }
  }

  lemma UsesKeepAnti(skills: seq<Skill>, ids: seq<string>, success: bool, now: real)
    requires UnitRates(skills)
    ensures forall t :: HasAnti(skills, t) ==> HasAnti(UsedAll(skills, ids, success, now), t)
  {
    var after := UsedAll(skills, ids, success, now);
    UsesKeepRates(skills, ids, success, now);
    forall t | HasAnti(skills, t)
      ensures HasAnti(after, t)
    {
      var i :| 0 <= i < |skills| && skills[i].antiPattern == t;
      assert after[i].antiPattern == t;
    }
  }

  /** Before pruning, known anti-patterns are still there and the new ones have been learned. */
  lemma ReflectedFacts(skills: seq<Skill>, r: Reflection, wd: Wording, now: real)
    requires UnitRates(skills)
    ensures
      var all := Reflected(skills, r, wd, now);
      && UnitRates(all)
      && (forall t :: HasAnti(skills, t) ==> HasAnti(all, t))
      && (forall t :: t in r.antiPatterns && !Blank(t) ==> HasAnti(all, t))
  {
    var s0 := UsedAll(skills, r.used, r.success, now);
    var s1 := Grown(s0, r.lessons, Lesson, r.taskID, wd, now);
    var s2 := Grown(s1, r.patterns, Pattern, r.taskID, wd, now);
    UsesKeepRates(skills, r.used, r.success, now);
    UsesKeepAnti(skills, r.used, r.success, now);
    GrownFacts(s0, r.lessons, Lesson, r.taskID, wd, now);
    GrownFacts(s1, r.patterns, Pattern, r.taskID, wd, now);
    GrownFacts(s2, r.antiPatterns, AntiPattern, r.taskID, wd, now);
  }

  /** An anti-pattern is kept by pruning, or everything kept is one. */
  lemma KeptOrCrowded(all: seq<Skill>, order: seq<nat>, now: real, t: string)
    requires UnitRates(all) && Ranking(order, all, now) && t != "" && HasAnti(all, t)
    ensures HasAnti(Pruned(all, MAX_SKILLS, order), t) || AllAnti(Pruned(all, MAX_SKILLS, order))
  {
    var kept := Pruned(all, MAX_SKILLS, order);
    var d :| 0 <= d < |all| && all[d].antiPattern == t;
    if |all| > MAX_SKILLS {
      if KeptIndex(d, MAX_SKILLS, order) {
        var k :| 0 <= k < MAX_SKILLS && order[..MAX_SKILLS][k] == d;
        assert kept[k].antiPattern == t;
      } else {
        forall i | 0 <= i < |kept|
          ensures IsAnti(kept[i])
        {
          assert order[..MAX_SKILLS][i] == order[i];
          WorstAreDropped(all, MAX_SKILLS, order, now, order[i], d);
        }
      }
    }
  }
}
