/** The skills of one role as reflections change them in place (`internal/state/skills.go`), proved against `Skills`
    and `SkillFiles`. */
module SkillStores {
  import opened Text
  import opened Skills
  import opened SkillFiles

  /** Append a skill for every text that is not blank, in order. */
  method Learn(before: seq<Skill>, texts: seq<string>, kind: Kind, taskID: string, firstID: nat, wd: Wording, now: real)
    returns (skills: seq<Skill>, nextID: nat)
    requires firstID == |before| + 1
    ensures skills == Grown(before, texts, kind, taskID, wd, now)
    ensures nextID == |skills| + 1
  {
    skills, nextID := before, firstID;
    for n := 0 to |texts|
      invariant skills == before + Learned(texts[..n], kind, taskID, firstID, wd, now)
      invariant nextID == |skills| + 1
    {
      assert texts[..n + 1][..n] == texts[..n];
      BlankIff(texts[n]);
      if TrimSpace(texts[n]) != "" {
        var sk := NewSkill(kind, texts[n], taskID, wd.newID(nextID, texts[n]), wd, now);
        ConcatAssoc(before, Learned(texts[..n], kind, taskID, firstID, wd, now), [sk]);
        skills := skills + [sk];
        nextID := nextID + 1;
      }
    }
    assert texts[..|texts|] == texts;
  }

  /** The first `i` of the skills are saved, the others not yet. */
  ghost predicate Halfway(was: seq<Skill>, files: Details, i: nat, skills: seq<Skill>, details: Details, wd: Wording) {
    && |skills| == |was| && i <= |was|
    && (forall k :: 0 <= k < i ==> skills[k] == Stored(was[k], SplittingBy(wd)))
    && (forall k :: i <= k < |was| ==> skills[k] == was[k])
    && details == FiledAll(files, was[..i], SplittingBy(wd))
  }

  lemma OneMore(was: seq<Skill>, files: Details, i: nat, skills: seq<Skill>, details: Details, entry: Skill, details': Details, wd: Wording)
    requires i < |was| && Halfway(was, files, i, skills, details, wd)
    requires entry == Stored(was[i], SplittingBy(wd)) && details' == Filed(details, was[i], SplittingBy(wd))
    ensures Halfway(was, files, i + 1, skills[i := entry], details', wd)
  {
    assert was[..i + 1][..i] == was[..i];
  }

  lemma AllTheWay(was: seq<Skill>, files: Details, skills: seq<Skill>, details: Details, wd: Wording)
    requires Halfway(was, files, |was|, skills, details, wd)
    ensures skills == StoredAll(was, SplittingBy(wd)) && details == FiledAll(files, was, SplittingBy(wd))
  {
    assert was[..|was|] == was;
  }

  class SkillSet {
    const wd: Wording
    var skills: seq<Skill>
    var details: Details

    constructor (wd: Wording)
      ensures this.wd == wd && skills == [] && details == map[]
    {
      this.wd := wd;
      skills, details := [], map[];
    }

    /** Count a use of each named skill that exists. */
    method MarkUsed(used: seq<string>, success: bool, now: real)
      modifies this`skills
      ensures skills == UsedAll(old(skills), used, success, now)
      ensures UsesCounted(old(skills), skills, used, success, now)
    {
      ghost var was := skills;
      for n := 0 to |used|
        invariant skills == UsedAll(was, used[..n], success, now)
      {
        assert used[..n + 1][..n] == used[..n];
        var found := LastIndex(skills, used[n]);
        LastIndexInRange(skills, used[n]);
        if found.Some? {
          var sk := skills[found.value];
          skills := skills[found.value := sk.(usage := sk.usage + 1, rate := Averaged(sk.rate, success), updated := now)];
        }
      }
      assert used[..|used|] == used;
      UsesAreCounted(was, used, success, now);
    }

    /** ApplyReflection up to the pruning. */
    method Reflect(r: Reflection, now: real)
      modifies this`skills
      ensures skills == Reflected(old(skills), r, wd, now)
    {
      MarkUsed(r.used, r.success, now);
      var nextID := |skills| + 1;
      skills, nextID := Learn(skills, r.lessons, Lesson, r.taskID, nextID, wd, now);
      skills, nextID := Learn(skills, r.patterns, Pattern, r.taskID, nextID, wd, now);
      skills, nextID := Learn(skills, r.antiPatterns, AntiPattern, r.taskID, nextID, wd, now);
    }

    /** Move the body of a skill to a file of its own if the index entry is too long. */
    method AutoSplit(sk: Skill) returns (entry: Skill)
      modifies this`details
      ensures entry == Stored(sk, SplittingBy(wd)) && details == Filed(old(details), sk, SplittingBy(wd))
    {
      var filled := sk.(summary := Summary(sk, wd));
      if Newlines(Rendered(sk, wd)) + 1 <= MAX_SKILL_LINES {
        return filled.(detailFile := "");
      }
      details := details[sk.id + ".md" := sk];
      entry := WithoutBody(filled.(detailFile := sk.id + ".md"));
    }

    /** Save splits off the bodies of long skills, one after the other. */
    method Save()
      modifies this
      ensures skills == StoredAll(old(skills), SplittingBy(wd))
      ensures details == FiledAll(old(details), old(skills), SplittingBy(wd))
    {
      ghost var was, files := skills, details;
      assert Halfway(was, files, 0, skills, details, wd);
      for i := 0 to |skills|
        invariant |skills| == |was| && Halfway(was, files, i, skills, details, wd)
      {
        ghost var before := details;
        assert skills[i] == was[i];
        var entry := AutoSplit(skills[i]);
        OneMore(was, files, i, skills, before, entry, details, wd);
        skills := skills[i := entry];
      }
      AllTheWay(was, files, skills, details, wd);
    }

    /** ApplyReflection: count uses, learn lessons, patterns and anti-patterns, prune to thirty skills, and save. */
    method ApplyReflection(r: Reflection, now: real, order: seq<nat>)
      requires Ranking(order, Reflected(skills, r, wd, now), now)
      modifies this
      ensures
        var kept := Pruned(Reflected(old(skills), r, wd, now), MAX_SKILLS, order);
        skills == StoredAll(kept, SplittingBy(wd)) && details == FiledAll(old(details), kept, SplittingBy(wd))
    {
      Reflect(r, now);
      skills := PruneSkills(skills, MAX_SKILLS, order, now);
      Save();
    }
  }
}
