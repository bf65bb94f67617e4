/** Saving a role's skills, with the bodies of long ones in files of their own (`internal/state/skills.go`), and the
    skills over any history of reflections. */
module SkillFiles {
  import opened Text
  import opened Skills

  const MAX_SKILL_LINES := 150

  // ---------- Saving ----------

  function Section(heading: string, body: string): string {
    if body == "" then "" else heading + body + "\n\n"
  }

  function Examples(examples: seq<string>): string {
    if examples == [] then ""
    else
      var n := |examples|;
      Examples(examples[..n - 1]) + "### Example " + Decimal(n) + "\n\n" + examples[n - 1] + "\n\n"
  }

  /** renderSkillBody */
  function Rendered(sk: Skill, wd: Wording): string {
    "# " + sk.title + "\n\n" + Section("**Summary:** ", sk.summary) + Section("## Description\n\n", sk.description)
    + Section("## Pattern (Do)\n\n", sk.pattern) + Section("## Anti-Pattern (Don't)\n\n", sk.antiPattern)
    + (if sk.examples == [] then "" else "## Examples\n\n" + Examples(sk.examples))
    + wd.footer(sk.rate, sk.usage, sk.learnedFrom)
  }

  function Newlines(s: string): nat {
    if s == "" then 0 else (if s[0] == '\n' then 1 else 0) + Newlines(s[1..])
  }

  /** Too long for the index. */
  predicate Long(sk: Skill, wd: Wording) {
    Newlines(Rendered(sk, wd)) + 1 > MAX_SKILL_LINES
  }

  function Summary(sk: Skill, wd: Wording): string {
    if sk.summary != "" then sk.summary
    else if sk.antiPattern != "" then "AVOID: " + wd.cut(sk.antiPattern, 120)
    else if sk.pattern != "" then wd.cut(sk.pattern, 120)
    else wd.cut(sk.description, 120)
  }

  /** How saving decides which skills are too long for the index, and fills in a summary. */
  datatype Splitting = Splitting(long: Skill -> bool, summary: Skill -> string)

  /** The rules of autoSplit: more than 150 rendered lines. */
  function SplittingBy(wd: Wording): Splitting {
    Splitting(sk => Long(sk, wd), sk => Summary(sk, wd))
  }

  /** Neither depends on the name of the detail file, and a summary once filled in stays. */
  ghost predicate Settled(sp: Splitting) {
    forall sk: Skill, file ::
      && sp.long(sk.(detailFile := file)) == sp.long(sk)
      && sp.summary(sk.(summary := sp.summary(sk), detailFile := file)) == sp.summary(sk)
  }

  lemma AutoSplitIsSettled(wd: Wording)
    ensures Settled(SplittingBy(wd))
  {
  }

  function WithoutBody(sk: Skill): Skill {
    sk.(description := "", pattern := "", antiPattern := "", examples := [])
  }

  /** autoSplit, in the index: a long skill keeps its summary and the name of a file, not its body. */
  function Stored(sk: Skill, sp: Splitting): Skill {
    var sk' := sk.(summary := sp.summary(sk));
    if sp.long(sk) then WithoutBody(sk').(detailFile := sk.id + ".md") else sk'.(detailFile := "")
  }

  function StoredAll(skills: seq<Skill>, sp: Splitting): seq<Skill> {
    seq(|skills|, i requires 0 <= i < |skills| => Stored(skills[i], sp))
  }

  /** The detail files, each given by the skill whose rendering it holds. */
  type Details = map<string, Skill>

  /** autoSplit, on disk. */
  function Filed(details: Details, sk: Skill, sp: Splitting): Details {
    if sp.long(sk) then details[sk.id + ".md" := sk] else details
  }

  function FiledAll(details: Details, skills: seq<Skill>, sp: Splitting): Details {
    if skills == [] then details
    else Filed(FiledAll(details, skills[..|skills| - 1], sp), skills[|skills| - 1], sp)
  }

  /** So pruning protects a saved skill exactly when it was an anti-pattern of at most 150 lines. */
  lemma ProtectedIff(sk: Skill, wd: Wording, now: real)
    requires 0.0 <= sk.rate <= 1.0
    ensures Score(Stored(sk, SplittingBy(wd)), now) > 1.0 <==> IsAnti(sk) && Newlines(Rendered(sk, wd)) + 1 <= 150
  {
    ScoreOrdersAnti(Stored(sk, SplittingBy(wd)), now);
  }

  /** Saving fills in a missing summary from the first part of the anti-pattern, else the pattern, else the description,
      and leaves title, counters and a short skill's body alone. */
  lemma StoredKeeps(sk: Skill, wd: Wording)
    ensures
      var entry := Stored(sk, SplittingBy(wd));
      && entry == entry.(id := sk.id, title := sk.title, rate := sk.rate, usage := sk.usage, updated := sk.updated, learnedFrom := sk.learnedFrom)
      && entry.summary == (if sk.summary != "" then sk.summary
                           else if sk.antiPattern != "" then "AVOID: " + wd.cut(sk.antiPattern, 120)
                           else wd.cut(if sk.pattern != "" then sk.pattern else sk.description, 120))
      && (entry.detailFile == "" ==> entry == sk.(summary := entry.summary, detailFile := ""))
      && (entry.detailFile != "" ==> entry.detailFile == sk.id + ".md")
      && (entry.detailFile != "" <==> Newlines(Rendered(sk, wd)) + 1 > 150)
  {
    assert |sk.id + ".md"| > 0;
  }

  // ---------- What remains readable ----------

  /** What a skill teaches. */
  function Body(sk: Skill): (string, string, string, seq<string>) {
    (sk.description, sk.pattern, sk.antiPattern, sk.examples)
  }

  const NO_BODY: (string, string, string, seq<string>) := ("", "", "", [])

  /** The skill whose text a reader gets: from the detail file if there is one, else from the index. */
  function Readable(sk: Skill, details: Details): Skill {
    if sk.detailFile != "" && sk.detailFile in details then details[sk.detailFile] else sk
  }

  /** The last long skill with this ID: the one its detail file is left with. */
  function LastLong(skills: seq<Skill>, id: string, sp: Splitting): Option<Skill> {
    if skills == [] then None
    else
      var sk := skills[|skills| - 1];
      if sk.id == id && sp.long(sk) then Some(sk) else LastLong(skills[..|skills| - 1], id, sp)
  }

  lemma SameFileSameID(a: string, b: string)
    requires a + ".md" == b + ".md"
    ensures a == b
  {
    assert (a + ".md")[..|a + ".md"| - 3] == a;
    assert (b + ".md")[..|b + ".md"| - 3] == b;
  }

  /** After a save, the file of an ID holds the last long skill of that ID, or what it held before. */
  lemma {:induction false} FileHoldsLast(details: Details, skills: seq<Skill>, id: string, sp: Splitting)
    ensures
      var file, after, last := id + ".md", FiledAll(details, skills, sp), LastLong(skills, id, sp);
      if last.Some? then file in after && after[file] == last.value
      else (file in after <==> file in details) && (file in details ==> after[file] == details[file])
  {
    if skills == [] {
    } else {
      var n := |skills| - 1;
      FileHoldsLast(details, skills[..n], id, sp);
      if skills[n].id != id && skills[n].id + ".md" == id + ".md" {
        SameFileSameID(skills[n].id, id);
      }
    }
  }

  lemma {:induction false} LongHasLast(skills: seq<Skill>, i: nat, sp: Splitting)
    requires i < |skills| && sp.long(skills[i])
    ensures LastLong(skills, skills[i].id, sp).Some?
  {
    var n := |skills| - 1;
    if i == n {
    } else {
      LongHasLast(skills[..n], i, sp);
    }
  }

  /** A save leaves the body of a skill readable exactly when the skill is short, or the last long skill with its ID
      has the same body. */
  lemma ReadableIff(skills: seq<Skill>, details: Details, sp: Splitting, i: nat)
    requires i < |skills|
    ensures
      var last := LastLong(skills, skills[i].id, sp);
      Body(Readable(Stored(skills[i], sp), FiledAll(details, skills, sp))) == Body(skills[i])
      <==> !sp.long(skills[i]) || (last.Some? && Body(last.value) == Body(skills[i]))
  {
    if sp.long(skills[i]) {
      LongHasLast(skills, i, sp);
      FileHoldsLast(details, skills, skills[i].id, sp);
    }
  }

  ghost predicate DistinctIDs(skills: seq<Skill>) {
    forall i, j :: 0 <= i < j < |skills| ==> skills[i].id != skills[j].id
  }

  lemma {:induction false} NoLongNamesake(skills: seq<Skill>, id: string, sp: Splitting)
    requires forall i :: 0 <= i < |skills| ==> skills[i].id != id
    ensures LastLong(skills, id, sp) == None
  {
    if skills == [] {
    } else {
      NoLongNamesake(skills[..|skills| - 1], id, sp);
    }
  }

  lemma {:induction false} OwnFile(skills: seq<Skill>, i: nat, sp: Splitting)
    requires i < |skills| && DistinctIDs(skills)
    ensures LastLong(skills, skills[i].id, sp) == if sp.long(skills[i]) then Some(skills[i]) else None
  {
    var n := |skills| - 1;
    if i == n {
      NoLongNamesake(skills[..n], skills[n].id, sp);
    } else {
      OwnFile(skills[..n], i, sp);
    }
  }

  lemma StoredAt(skills: seq<Skill>, sp: Splitting, i: nat)
    requires i < |skills|
    ensures |StoredAll(skills, sp)| == |skills|
    ensures StoredAll(skills, sp)[i] == Stored(skills[i], sp) && StoredAll(skills, sp)[i].id == skills[i].id
  {
  }

  /** So one save of a list without repeated IDs keeps every body readable. */
  lemma DistinctStaysReadable(skills: seq<Skill>, details: Details, sp: Splitting, i: nat)
    requires i < |skills| && DistinctIDs(skills)
    ensures Body(Readable(StoredAll(skills, sp)[i], FiledAll(details, skills, sp))) == Body(skills[i])
  {
    StoredAt(skills, sp, i);
    OwnFile(skills, i, sp);
    ReadableIff(skills, details, sp, i);
  }

  // ---------- Saving again and again ----------

  /** The index and the detail files after saving `n` times. */
  function Saved(skills: seq<Skill>, details: Details, sp: Splitting, n: nat): (seq<Skill>, Details) {
    if n == 0 then (skills, details)
    else
      var (skills', details') := Saved(skills, details, sp, n - 1);
      (StoredAll(skills', sp), FiledAll(details', skills', sp))
  }

  /** The same for one skill on its own. */
  function Resaved(sk: Skill, details: Details, sp: Splitting, n: nat): (Skill, Details) {
    if n == 0 then (sk, details)
    else
      var (sk', details') := Resaved(sk, details, sp, n - 1);
      (Stored(sk', sp), Filed(details', sk', sp))
  }

  lemma {:induction false} SavedLength(skills: seq<Skill>, details: Details, sp: Splitting, n: nat)
    ensures |Saved(skills, details, sp, n).0| == |skills|
  {
    if n == 0 {
    } else {
      SavedLength(skills, details, sp, n - 1);
    }
  }

  /** In a list, index entries fare as on their own, and keep their IDs. */
  lemma {:induction false} EntriesResave(skills: seq<Skill>, details: Details, sp: Splitting, n: nat, i: nat)
    requires i < |skills| && i < |Saved(skills, details, sp, n).0|
    ensures Saved(skills, details, sp, n).0[i] == Resaved(skills[i], details, sp, n).0
    ensures Saved(skills, details, sp, n).0[i].id == skills[i].id
  {
    if n == 0 {
    } else {
      SavedLength(skills, details, sp, n - 1);
      EntriesResave(skills, details, sp, n - 1, i);
      StoredAt(Saved(skills, details, sp, n - 1).0, sp, i);
    }
  }

  lemma StoredDistinct(skills: seq<Skill>, sp: Splitting)
    requires DistinctIDs(skills)
    ensures DistinctIDs(StoredAll(skills, sp))
  {
    forall i, j | 0 <= i < j < |skills|
      ensures StoredAll(skills, sp)[i].id != StoredAll(skills, sp)[j].id
    {
      StoredAt(skills, sp, i);
      StoredAt(skills, sp, j);
    }
  }

  /** Both hold the same under a file name, or nothing. */
  ghost predicate SameFile(a: Details, b: Details, file: string) {
    (file in a <==> file in b) && (file in a ==> a[file] == b[file])
  }

  /** What one save does to the file of an ID that only one skill has is what it does for that skill alone. */
  lemma OneFile(skills: seq<Skill>, details: Details, own: Details, sp: Splitting, i: nat, sk: Skill, file: string)
    requires i < |skills| && DistinctIDs(skills) && skills[i] == sk && file == sk.id + ".md" && SameFile(details, own, file)
    ensures SameFile(FiledAll(details, skills, sp), Filed(own, sk, sp), file)
  {
    FileHoldsLast(details, skills, sk.id, sp);
    OwnFile(skills, i, sp);
  }

  /** Entry `i` of a list without repeated IDs, and its file, are as for `own`, the skill on its own. */
  ghost predicate Twin(list: (seq<Skill>, Details), own: (Skill, Details), i: nat) {
    && i < |list.0| && list.0[i] == own.0 && DistinctIDs(list.0)
    && SameFile(list.1, own.1, own.0.id + ".md")
  }

  lemma TwinStep(list: (seq<Skill>, Details), own: (Skill, Details), sp: Splitting, i: nat)
    requires Twin(list, own, i)
    ensures Twin((StoredAll(list.0, sp), FiledAll(list.1, list.0, sp)), (Stored(own.0, sp), Filed(own.1, own.0, sp)), i)
  {
    StoredAt(list.0, sp, i);
    StoredDistinct(list.0, sp);
    OneFile(list.0, list.1, own.1, sp, i, own.0, own.0.id + ".md");
  }

  /** When all IDs differ, each entry and its file fare as the skill would on its own. */
  lemma {:induction false} FilesResave(skills: seq<Skill>, details: Details, sp: Splitting, n: nat, i: nat)
    requires i < |skills| && DistinctIDs(skills)
    ensures Twin(Saved(skills, details, sp, n), Resaved(skills[i], details, sp, n), i)
  {
    if n == 0 {
    } else {
      FilesResave(skills, details, sp, n - 1, i);
      TwinStep(Saved(skills, details, sp, n - 1), Resaved(skills[i], details, sp, n - 1), sp, i);
    }
  }

  /** Short with the summary that saving fills in. */
  predicate StaysShort(sk: Skill, sp: Splitting) {
    !sp.long(sk) && !sp.long(sk.(summary := sp.summary(sk)))
  }

  /** A short skill only gets its summary, and never a file. */
  lemma {:induction false} ShortIsStable(sk: Skill, details: Details, sp: Splitting, n: nat)
    requires Settled(sp) && StaysShort(sk, sp) && n >= 1
    ensures Resaved(sk, details, sp, n) == (sk.(summary := sp.summary(sk), detailFile := ""), details)
  {
    if n == 1 {
      assert Resaved(sk, details, sp, 0) == (sk, details);
    } else {
      ShortIsStable(sk, details, sp, n - 1);
    }
  }

  /** Any other skill has no body in the index after two saves. */
  lemma {:induction false} LongIsEmptied(sk: Skill, details: Details, sp: Splitting, n: nat)
    requires Settled(sp) && n >= 2 && !StaysShort(sk, sp)
    ensures Body(Resaved(sk, details, sp, n).0) == NO_BODY
  {
    if n == 2 {
      assert Resaved(sk, details, sp, 0) == (sk, details);
      var sk1 := Resaved(sk, details, sp, 1).0;
      assert sk1 == Stored(sk, sp);
      assert sp.long(sk) || sp.long(sk1);
    } else {
      LongIsEmptied(sk, details, sp, n - 1);
    }
  }

  lemma {:induction false} LastLongIndex(skills: seq<Skill>, id: string, sp: Splitting) returns (k: nat)
    requires LastLong(skills, id, sp).Some?
    ensures k < |skills| && skills[k] == LastLong(skills, id, sp).value && sp.long(skills[k])
  {
    k := |skills| - 1;
    if skills[k].id == id && sp.long(skills[k]) {
    } else {
      k := LastLongIndex(skills[..k], id, sp);
    }
  }

  lemma LongIsBodiless(sk: Skill, details: Details, sp: Splitting, n: nat)
    requires Settled(sp) && n >= 2 && sp.long(Resaved(sk, details, sp, n).0)
    ensures Body(Resaved(sk, details, sp, n).0) == NO_BODY
  {
    if StaysShort(sk, sp) {
      ShortIsStable(sk, details, sp, n);
    } else {
      LongIsEmptied(sk, details, sp, n);
    }
  }

  /** So from the third save on, no file written holds a body. */
  lemma LastLongIsEmpty(skills: seq<Skill>, details: Details, sp: Splitting, n: nat, id: string)
    requires Settled(sp) && n >= 2
    ensures
      var last := LastLong(Saved(skills, details, sp, n).0, id, sp);
      last.Some? ==> Body(last.value) == NO_BODY
  {
    var now := Saved(skills, details, sp, n).0;
    if LastLong(now, id, sp).Some? {
      var k := LastLongIndex(now, id, sp);
      SavedLength(skills, details, sp, n);
      EntriesResave(skills, details, sp, n, k);
      LongIsBodiless(skills[k], details, sp, n);
    }
  }

  /** After three or more saves of any list of skills, a skill's body is readable exactly when the skill is and stays
      short, or had no body: for others the index forgets the file, or the file is overwritten without the body. */
  lemma BodySurvivesIff(skills: seq<Skill>, details: Details, sp: Splitting, n: nat, i: nat)
    requires Settled(sp) && n >= 3 && i < |skills|
    ensures
      var (now, files) := Saved(skills, details, sp, n);
      && |now| == |skills|
      && (Body(Readable(now[i], files)) == Body(skills[i]) <==> StaysShort(skills[i], sp) || Body(skills[i]) == NO_BODY)
  {
    SavedLength(skills, details, sp, n);
    EntriesResave(skills, details, sp, n, i);
    if StaysShort(skills[i], sp) {
      ShortIsStable(skills[i], details, sp, n);
    } else {
      LongIsEmptied(skills[i], details, sp, n);
      LongIsEmptied(skills[i], details, sp, n - 1);
      SavedLength(skills, details, sp, n - 1);
      EntriesResave(skills, details, sp, n - 1, i);
      var (before, files) := Saved(skills, details, sp, n - 1);
      LastLongIsEmpty(skills, details, sp, n - 1, skills[i].id);
      FileHoldsLast(files, before, skills[i].id, sp);
      if sp.long(before[i]) {
        LongHasLast(before, i, sp);
      }
    }
  }

  // ---------- Over any history of reflections ----------

  type Sort = (seq<Skill>, real) -> seq<nat>

  ghost predicate Sorts(sort: Sort) {
    forall skills, now :: Ranking(sort(skills, now), skills, now)
  }

  /** One reflection with the time and the sorting it is applied with. */
  datatype Round = Round(r: Reflection, now: real, sort: Sort)

  /** What pruning leaves of the skills after one more reflection. */
  ghost function Kept(before: seq<Skill>, x: Round, wd: Wording): seq<Skill>
    requires Sorts(x.sort)
  {
    var all := Reflected(before, x.r, wd, x.now);
    assert Ranking(x.sort(all, x.now), all, x.now);
    Pruned(all, MAX_SKILLS, x.sort(all, x.now))
  }

  ghost predicate AllSort(rounds: seq<Round>) {
    forall i :: 0 <= i < |rounds| ==> Sorts(rounds[i].sort)
  }

  /** The index after a history of reflections. */
  ghost function After(rounds: seq<Round>, wd: Wording, sp: Splitting): seq<Skill>
    requires AllSort(rounds)
  {
    if rounds == [] then [] else StoredAll(Kept(After(rounds[..|rounds| - 1], wd, sp), rounds[|rounds| - 1], wd), sp)
  }

  /** After any reflection at most thirty skills are kept, with rates between 0 and 1; and each anti-pattern, known or
      new, is kept, unless nothing but anti-patterns is. */
  lemma ReflectionKeepsOrder(before: seq<Skill>, x: Round, wd: Wording)
    requires Sorts(x.sort) && UnitRates(before)
    ensures
      var kept := Kept(before, x, wd);
      && |kept| <= MAX_SKILLS && UnitRates(kept)
      && forall t :: t != "" && (HasAnti(before, t) || (t in x.r.antiPatterns && !Blank(t))) ==> HasAnti(kept, t) || AllAnti(kept)
  {
    var all := Reflected(before, x.r, wd, x.now);
    var order := x.sort(all, x.now);
    assert Ranking(order, all, x.now);
    ReflectedFacts(before, x.r, wd, x.now);
    forall t | t != "" && (HasAnti(before, t) || (t in x.r.antiPatterns && !Blank(t)))
      ensures HasAnti(Pruned(all, MAX_SKILLS, order), t) || AllAnti(Pruned(all, MAX_SKILLS, order))
    {
      KeptOrCrowded(all, order, x.now, t);
    }
  }

  lemma StoredRates(skills: seq<Skill>, sp: Splitting)
    requires UnitRates(skills)
    ensures UnitRates(StoredAll(skills, sp))
  {
    forall i | 0 <= i < |skills|
      ensures 0.0 <= StoredAll(skills, sp)[i].rate <= 1.0
    {
      assert StoredAll(skills, sp)[i] == Stored(skills[i], sp);
    }
  }

  /** After any history of reflections there are at most thirty skills, with rates between 0 and 1. */
  lemma {:induction false} AlwaysBounded(rounds: seq<Round>, wd: Wording, sp: Splitting)
    requires AllSort(rounds)
    ensures |After(rounds, wd, sp)| <= MAX_SKILLS && UnitRates(After(rounds, wd, sp))
  {
    if rounds == [] {
    } else {
      var before, x := After(rounds[..|rounds| - 1], wd, sp), rounds[|rounds| - 1];
      AlwaysBounded(rounds[..|rounds| - 1], wd, sp);
      ReflectionKeepsOrder(before, x, wd);
      StoredRates(Kept(before, x, wd), sp);
    }
  }

  lemma StoredAnti(skills: seq<Skill>, sp: Splitting, t: string)
    requires t != ""
    ensures HasAnti(StoredAll(skills, sp), t) <==> exists i :: 0 <= i < |skills| && skills[i].antiPattern == t && !sp.long(skills[i])
  {
    var after := StoredAll(skills, sp);
    forall i | 0 <= i < |skills|
      ensures after[i].antiPattern == t <==> skills[i].antiPattern == t && !sp.long(skills[i])
    {
      assert after[i] == Stored(skills[i], sp);
    }
  }

  /** In figures: one more reflection leaves all skills, up to thirty, and exactly thirty of more. */
  lemma ThirtyAreKept(rounds: seq<Round>, x: Round, wd: Wording, sp: Splitting)
    requires AllSort(rounds + [x]) && AllSort(rounds)
    ensures
      var all := Reflected(After(rounds, wd, sp), x.r, wd, x.now);
      |After(rounds + [x], wd, sp)| == if |all| <= 30 then |all| else 30
  {
    assert (rounds + [x])[|rounds|] == x && (rounds + [x])[..|rounds|] == rounds;
    var all := Reflected(After(rounds, wd, sp), x.r, wd, x.now);
    assert Ranking(x.sort(all, x.now), all, x.now);
  }

  /** In every round of every history: each anti-pattern that was in the index, and each new one, is kept, or
      everything kept is one; and a kept one is in the index afterwards exactly when a short skill holds it. */
  lemma AntiPatternsStay(rounds: seq<Round>, x: Round, wd: Wording, sp: Splitting, t: string)
    requires AllSort(rounds + [x]) && AllSort(rounds) && t != ""
    requires HasAnti(After(rounds, wd, sp), t) || (t in x.r.antiPatterns && !Blank(t))
    ensures Sorts(x.sort)
    ensures
      var kept := Kept(After(rounds, wd, sp), x, wd);
      && (HasAnti(kept, t) || AllAnti(kept))
      && (HasAnti(After(rounds + [x], wd, sp), t) <==> exists i :: 0 <= i < |kept| && kept[i].antiPattern == t && !sp.long(kept[i]))
  {
    assert (rounds + [x])[|rounds|] == x && (rounds + [x])[..|rounds|] == rounds;
    var before := After(rounds, wd, sp);
    AlwaysBounded(rounds, wd, sp);
    ReflectionKeepsOrder(before, x, wd);
    StoredAnti(Kept(before, x, wd), sp, t);
  }

  /** A skill that names a file has no body in the index. */
  ghost predicate SplitBodiless(skills: seq<Skill>) {
    forall i :: 0 <= i < |skills| && skills[i].detailFile != "" ==> Body(skills[i]) == NO_BODY
  }

  lemma StoredSplitBodiless(skills: seq<Skill>, sp: Splitting)
    ensures SplitBodiless(StoredAll(skills, sp))
  {
    forall i | 0 <= i < |skills| && StoredAll(skills, sp)[i].detailFile != ""
      ensures Body(StoredAll(skills, sp)[i]) == NO_BODY
    {
      StoredAt(skills, sp, i);
    }
  }

  ghost predicate WithoutFiles(skills: seq<Skill>) {
    forall i :: 0 <= i < |skills| ==> skills[i].detailFile == ""
  }

  lemma {:induction false} LearnedWithoutFiles(texts: seq<string>, kind: Kind, taskID: string, firstID: nat, wd: Wording, now: real)
    ensures WithoutFiles(Learned(texts, kind, taskID, firstID, wd, now))
  {
    if texts == [] {
    } else {
      var n := |texts| - 1;
      LearnedWithoutFiles(texts[..n], kind, taskID, firstID, wd, now);
      var before, after := Learned(texts[..n], kind, taskID, firstID, wd, now), Learned(texts, kind, taskID, firstID, wd, now);
      forall i | 0 <= i < |after|
        ensures after[i].detailFile == ""
      {
        assert i < |before| ==> after[i] == before[i];
      }
    }
  }

  lemma GrownSplitBodiless(s: seq<Skill>, texts: seq<string>, kind: Kind, taskID: string, wd: Wording, now: real)
    requires SplitBodiless(s)
    ensures SplitBodiless(Grown(s, texts, kind, taskID, wd, now))
  {
    var added := Learned(texts, kind, taskID, |s| + 1, wd, now);
    LearnedWithoutFiles(texts, kind, taskID, |s| + 1, wd, now);
    forall i | 0 <= i < |s + added|
      ensures (s + added)[i].detailFile != "" ==> Body((s + added)[i]) == NO_BODY
    {
      assert (s + added)[i] == if i < |s| then s[i] else added[i - |s|];
    }
  }

  lemma ReflectedSplitBodiless(skills: seq<Skill>, r: Reflection, wd: Wording, now: real)
    requires UnitRates(skills) && SplitBodiless(skills)
    ensures SplitBodiless(Reflected(skills, r, wd, now))
  {
    var s0 := UsedAll(skills, r.used, r.success, now);
    UsesKeepRates(skills, r.used, r.success, now);
    assert forall i :: 0 <= i < |skills| ==> SameBut(skills[i], s0[i]);
    var s1 := Grown(s0, r.lessons, Lesson, r.taskID, wd, now);
    GrownSplitBodiless(s0, r.lessons, Lesson, r.taskID, wd, now);
    var s2 := Grown(s1, r.patterns, Pattern, r.taskID, wd, now);
    GrownSplitBodiless(s1, r.patterns, Pattern, r.taskID, wd, now);
    GrownSplitBodiless(s2, r.antiPatterns, AntiPattern, r.taskID, wd, now);
  }

  lemma KeptSplitBodiless(before: seq<Skill>, x: Round, wd: Wording)
    requires Sorts(x.sort) && UnitRates(before) && SplitBodiless(before)
    ensures SplitBodiless(Kept(before, x, wd))
  {
    var all := Reflected(before, x.r, wd, x.now);
    ReflectedSplitBodiless(before, x.r, wd, x.now);
    assert Ranking(x.sort(all, x.now), all, x.now);
  }

  lemma AfterSplitBodiless(rounds: seq<Round>, wd: Wording, sp: Splitting)
    requires AllSort(rounds)
    ensures SplitBodiless(After(rounds, wd, sp))
  {
    if rounds != [] {
      StoredSplitBodiless(Kept(After(rounds[..|rounds| - 1], wd, sp), rounds[|rounds| - 1], wd), sp);
    }
  }

  /** In every round of every history: the body of a kept skill is readable afterwards exactly when the skill is short
      or the last long skill with its ID has the same body. A kept skill that was split off in an earlier round has no
      body left to save, so unless such a namesake lends it one, what is readable is empty. */
  lemma BodiesAfterRound(rounds: seq<Round>, x: Round, details: Details, wd: Wording, sp: Splitting, k: nat)
    requires AllSort(rounds + [x]) && AllSort(rounds) && Sorts(x.sort) && k < |Kept(After(rounds, wd, sp), x, wd)|
    ensures
      var kept := Kept(After(rounds, wd, sp), x, wd);
      var index, files := After(rounds + [x], wd, sp), FiledAll(details, kept, sp);
      var last := LastLong(kept, kept[k].id, sp);
      && |index| == |kept|
      && (Body(Readable(index[k], files)) == Body(kept[k])
          <==> !sp.long(kept[k]) || (last.Some? && Body(last.value) == Body(kept[k])))
      && (kept[k].detailFile != "" ==> Body(kept[k]) == NO_BODY)
  {
    assert (rounds + [x])[|rounds|] == x && (rounds + [x])[..|rounds|] == rounds;
    var before := After(rounds, wd, sp);
    var kept := Kept(before, x, wd);
    AlwaysBounded(rounds, wd, sp);
    AfterSplitBodiless(rounds, wd, sp);
    KeptSplitBodiless(before, x, wd);
    StoredAt(kept, sp, k);
    ReadableIff(kept, details, sp, k);
  }

  // ---------- Skills that are lost ----------

  lemma {:induction false} NewlinesConcat(a: string, b: string)
    ensures Newlines(a + b) == Newlines(a) + Newlines(b)
  {
    if a == "" {
      assert a + b == b;
    } else {
      NewlinesConcat(a[1..], b);
      assert (a + b)[1..] == a[1..] + b;
    }
  }

  lemma {:induction false} OnlyNewlines(s: string)
    requires forall i :: 0 <= i < |s| ==> s[i] == '\n'
    ensures Newlines(s) == |s|
  {
    if s == "" {
    } else {
      OnlyNewlines(s[1..]);
    }
  }

  /** The lines that a part of the body takes up, under a heading of `heading` line ends. */
  function PartLines(heading: nat, body: string): nat {
    if body == "" then 0 else heading + Newlines(body) + 2
  }

  function ExampleLines(examples: seq<string>): nat {
    if examples == [] then 0 else ExampleLines(examples[..|examples| - 1]) + 4 + Newlines(examples[|examples| - 1])
  }

  lemma SectionLines(heading: string, body: string)
    ensures Newlines(Section(heading, body)) == PartLines(Newlines(heading), body)
  {
    NewlinesConcat(heading, body);
    NewlinesConcat(heading + body, "\n\n");
  }

  lemma {:induction false} NoNewlines(s: string)
    requires '\n' !in s
    ensures Newlines(s) == 0
  {
    if s == "" {
    } else {
      NoNewlines(s[1..]);
    }
  }

  /** A heading line, an empty line and the body. */
  lemma HeadedLines(title: string, body: string)
    requires '\n' !in title
    ensures Newlines(Section(title + "\n\n", body)) == PartLines(2, body) && Newlines(title + "\n\n") == 2
  {
    NoNewlines(title);
    NewlinesConcat(title, "\n\n");
    SectionLines(title + "\n\n", body);
  }

  lemma DigitsAreOneLine(n: nat)
    ensures Newlines(Decimal(n)) == 0
  {
    DecimalIsNumber(n);
    NoNewlines(Decimal(n));
  }

  lemma {:induction false} ExamplesLines(examples: seq<string>)
    ensures Newlines(Examples(examples)) == ExampleLines(examples)
  {
    if examples == [] {
    } else {
      var n := |examples|;
      var front, last := Examples(examples[..n - 1]), examples[n - 1];
      ExamplesLines(examples[..n - 1]);
      DigitsAreOneLine(n);
      NoNewlines("### Example ");
      NewlinesConcat(front, "### Example ");
      NewlinesConcat(front + "### Example ", Decimal(n));
      NewlinesConcat(front + "### Example " + Decimal(n), "\n\n");
      NewlinesConcat(front + "### Example " + Decimal(n) + "\n\n", last);
      NewlinesConcat(front + "### Example " + Decimal(n) + "\n\n" + last, "\n\n");
    }
  }

  lemma SumOfParts(t: string, a: string, b: string, c: string, d: string, e: string, f: string)
    ensures Newlines(t + a + b + c + d + e + f)
         == Newlines(t) + Newlines(a) + Newlines(b) + Newlines(c) + Newlines(d) + Newlines(e) + Newlines(f)
  {
    NewlinesConcat(t, a);
    NewlinesConcat(t + a, b);
    NewlinesConcat(t + a + b, c);
    NewlinesConcat(t + a + b + c, d);
    NewlinesConcat(t + a + b + c + d, e);
    NewlinesConcat(t + a + b + c + d + e, f);
  }

  lemma TitleLines(title: string)
    ensures Newlines("# " + title + "\n\n") == Newlines(title) + 2
  {
    NoNewlines("# ");
    NewlinesConcat("# ", title);
    NewlinesConcat("# " + title, "\n\n");
  }

  lemma SummaryLines(summary: string)
    ensures Newlines(Section("**Summary:** ", summary)) == PartLines(0, summary)
  {
    NoNewlines("**Summary:** ");
    SectionLines("**Summary:** ", summary);
  }

  lemma BodyLines(sk: Skill)
    ensures Newlines(Section("## Description\n\n", sk.description)) == PartLines(2, sk.description)
    ensures Newlines(Section("## Pattern (Do)\n\n", sk.pattern)) == PartLines(2, sk.pattern)
    ensures Newlines(Section("## Anti-Pattern (Don't)\n\n", sk.antiPattern)) == PartLines(2, sk.antiPattern)
  {
    assert "## Description" + "\n\n" == "## Description\n\n";
    assert "## Pattern (Do)" + "\n\n" == "## Pattern (Do)\n\n";
    assert "## Anti-Pattern (Don't)" + "\n\n" == "## Anti-Pattern (Don't)\n\n";
    HeadedLines("## Description", sk.description);
    HeadedLines("## Pattern (Do)", sk.pattern);
    HeadedLines("## Anti-Pattern (Don't)", sk.antiPattern);
  }

  lemma ExamplesPart(examples: seq<string>)
    requires examples != []
    ensures Newlines("## Examples\n\n" + Examples(examples)) == 2 + ExampleLines(examples)
  {
    assert "## Examples" + "\n\n" == "## Examples\n\n";
    HeadedLines("## Examples", "");
    NewlinesConcat("## Examples\n\n", Examples(examples));
    ExamplesLines(examples);
  }

  /** How many lines a rendering has, part by part: every part of the skill is in it. */
  lemma RenderedParts(sk: Skill, wd: Wording)
    ensures Newlines(Rendered(sk, wd)) ==
      Newlines(sk.title) + 2 + PartLines(0, sk.summary) + PartLines(2, sk.description) + PartLines(2, sk.pattern)
      + PartLines(2, sk.antiPattern) + (if sk.examples == [] then 0 else 2 + ExampleLines(sk.examples))
      + Newlines(wd.footer(sk.rate, sk.usage, sk.learnedFrom))
  {
    TitleLines(sk.title);
    SummaryLines(sk.summary);
    BodyLines(sk);
    if sk.examples != [] {
      ExamplesPart(sk.examples);
    }
    SumOfParts("# " + sk.title + "\n\n", Section("**Summary:** ", sk.summary), Section("## Description\n\n", sk.description),
               Section("## Pattern (Do)\n\n", sk.pattern), Section("## Anti-Pattern (Don't)\n\n", sk.antiPattern),
               if sk.examples == [] then "" else "## Examples\n\n" + Examples(sk.examples),
               wd.footer(sk.rate, sk.usage, sk.learnedFrom));
  }

  /** Whatever the wording, an anti-pattern of `lines` empty lines is long. */
  lemma LongAntiPattern(id: string, lines: nat, wd: Wording) returns (sk: Skill)
    requires lines >= MAX_SKILL_LINES
    ensures sk.id == id && IsAnti(sk) && sk.rate == 0.0 && |sk.antiPattern| == lines
    ensures Long(sk, wd) && Body(sk) != NO_BODY
  {
    sk := Skill(id, "AVOID", "AVOID", "", "", seq(lines, _ => '\n'), [], "", "task", 0.0, 0, 0.0);
    OnlyNewlines(sk.antiPattern);
    RenderedParts(sk, wd);
  }

  /** Such a skill is no longer protected after a save, and its body is gone after three. */
  lemma LongAntiPatternIsLost(details: Details, wd: Wording, now: real) returns (sk: Skill)
    ensures IsAnti(sk) && Score(sk, now) == 100.0 && Score(Stored(sk, SplittingBy(wd)), now) <= 1.0
    ensures
      var (after, files) := Saved([sk], details, SplittingBy(wd), 3);
      |after| == 1 && Body(Readable(after[0], files)) != Body(sk)
  {
    sk := LongAntiPattern("skill", MAX_SKILL_LINES, wd);
    ScoreOrdersAnti(sk, now);
    ProtectedIff(sk, wd, now);
    AutoSplitIsSettled(wd);
    BodySurvivesIff([sk], details, SplittingBy(wd), 3, 0);
  }

  /** Two of them with one ID: already the first save loses the body of the first. */
  lemma NamesakeIsLost(details: Details, wd: Wording) returns (a: Skill, b: Skill)
    ensures a.id == b.id
    ensures Body(Readable(StoredAll([a, b], SplittingBy(wd))[0], FiledAll(details, [a, b], SplittingBy(wd)))) != Body(a)
  {
    a := LongAntiPattern("skill", MAX_SKILL_LINES, wd);
    b := LongAntiPattern("skill", MAX_SKILL_LINES + 1, wd);
    ReadableIff([a, b], details, SplittingBy(wd), 0);
    assert LastLong([a, b], a.id, SplittingBy(wd)) == Some(b);
    assert |a.antiPattern| != |b.antiPattern|;
  }
}
