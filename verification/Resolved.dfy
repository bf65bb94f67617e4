/** The store of error patterns (`internal/state/resolved.go`): a cached slice and its file. `hash` stands for
    the first six hex digits of the SHA-256 of a pattern. */
module ResolvedStores {
  import opened Text

  datatype ErrorPattern = ErrorPattern(
    id: string, pattern: string, roles: seq<string>, summary: string, count: int, firstSeen: int, lastSeen: int,
    detailFile: string, resolved: bool)

  type Patterns = seq<ErrorPattern>
  type Hash = string -> string

  /** The first entry with this ID. */
  function Find(ps: Patterns, id: string): (r: Option<nat>)
    ensures r.Some? ==> r.value < |ps| && ps[r.value].id == id
    ensures r.None? ==> forall i :: 0 <= i < |ps| ==> ps[i].id != id
  {
    if ps == [] then None
    else if ps[0].id == id then Some(0)
    else match Find(ps[1..], id) { case None => None case Some(i) => Some(i + 1) }
  }

  // ---------- Union of role lists ----------

  function Merged(a: seq<string>, b: seq<string>): seq<string> {
    if b == [] then a
    else
      var m := Merged(a, b[..|b| - 1]);
      if b[|b| - 1] in m then m else m + [b[|b| - 1]]
  }

  ghost predicate NoDup(s: seq<string>) {
    forall i, j :: 0 <= i < j < |s| ==> s[i] != s[j]
  }

  /** The union: all of `a` first, then what is new in `b`, once each. */
  lemma {:induction false} MergedIsUnion(a: seq<string>, b: seq<string>)
    ensures a <= Merged(a, b)
    ensures forall x :: x in Merged(a, b) <==> x in a || x in b
    ensures NoDup(a) ==> NoDup(Merged(a, b))
  {
    if b == [] {
    } else {
      MergedIsUnion(a, b[..|b| - 1]);
      assert b == b[..|b| - 1] + [b[|b| - 1]];
    }
  }

  method MergeStrings(a: seq<string>, b: seq<string>) returns (out: seq<string>)
    ensures out == Merged(a, b)
  {
    var seen := set x | x in a;
    out := a;
    for i := 0 to |b|
      invariant out == Merged(a, b[..i])
      invariant forall x :: x in seen <==> x in out
    {
      assert b[..i + 1][..i] == b[..i];
      if b[i] !in seen {
        seen := seen + {b[i]};
        out := out + [b[i]];
      }
    }
    assert b[..|b|] == b;
  }

  // ---------- What Save and MarkResolved do to the list ----------

  /** A repeated occurrence of an entry. */
  function Again(e: ErrorPattern, p: ErrorPattern, now: int): ErrorPattern {
    e.(count := e.count + 1, lastSeen := now, roles := Merged(e.roles, p.roles),
          summary := if p.summary != "" then p.summary else e.summary)
  }

  function NewEntry(p: ErrorPattern, id: string, now: int): ErrorPattern {
    p.(id := id, count := 1, firstSeen := now, lastSeen := now, detailFile := id + ".md")
  }

  function Saved(ps: Patterns, p: ErrorPattern, id: string, now: int): Patterns {
    match Find(ps, id)
    case Some(i) => ps[i := Again(ps[i], p, now)]
    case None => ps + [NewEntry(p, id, now)]
  }

  function MarkedResolved(ps: Patterns, id: string): Patterns {
    match Find(ps, id)
    case Some(i) => ps[i := ps[i].(resolved := true)]
    case None => ps
  }

  class ResolvedStore {
    const hash: Hash
    var cache: Option<Patterns>         // None until first loaded
    var index: Patterns                 // what index.json holds
    var details: map<string, string>    // the detail files

    /** What the store answers from. */
    function View(): Patterns
      reads this
    {
      if cache.Some? then cache.value else index
    }

    /** A store over an existing index, loaded on first use, or over a new empty one. */
    constructor (hash: Hash, existing: Option<Patterns>)
      ensures this.hash == hash && index == View() && details == map[]
      ensures View() == match existing { case None => [] case Some(ps) => ps }
    {
      this.hash := hash;
      details := map[];
      match existing {
        case None => cache, index := Some([]), [];
        case Some(ps) => cache, index := None, ps;
      }
    }

    /** Record an occurrence. An existing entry is changed in the cached slice at once, so it stays changed there
        even when a write fails; a new entry appears only once the index is written. */
    method Save(p: ErrorPattern, fullDetail: string, now: int, detailOk: bool, indexOk: bool) returns (ok: bool)
      modifies this
      ensures ok <==> detailOk && indexOk
      ensures
        var id := hash(p.pattern);
        var after := Saved(old(View()), p, id, now);
        && (ok ==> View() == after && index == after)
        && (!ok ==> index == old(index) && View() == if Find(old(View()), id).Some? then after else old(View()))
        && details == if detailOk then old(details)[id + ".md" := fullDetail] else old(details)
    {
      var id := hash(p.pattern);
      var patterns := View();
      cache := Some(patterns);
      var found := Find(patterns, id);
      match found {
        case Some(i) =>
          var roles := MergeStrings(patterns[i].roles, p.roles);
          var e := patterns[i].(count := patterns[i].count + 1, lastSeen := now, roles := roles);
          if p.summary != "" {
            e := e.(summary := p.summary);
          }
          patterns := patterns[i := e];
          cache := Some(patterns);
        case None =>
          patterns := patterns + [p.(id := id, count := 1, firstSeen := now, lastSeen := now, detailFile := id + ".md")];
      }
      if !detailOk {
        return false;
      }
      details := details[id + ".md" := fullDetail];
      if !indexOk {
        return false;
      }
      index := patterns;
      cache := Some(patterns);
      return true;
    }

    method MarkResolved(id: string, indexOk: bool) returns (ok: bool)
      modifies this
      ensures ok <==> indexOk && Find(old(View()), id).Some?
      ensures View() == MarkedResolved(old(View()), id)
      ensures index == if ok then MarkedResolved(old(View()), id) else old(index)
      ensures details == old(details)
    {
      var patterns := View();
      cache := Some(patterns);
      var found := Find(patterns, id);
      if found.None? {
        return false;
      }
      patterns := patterns[found.value := patterns[found.value].(resolved := true)];
      cache := Some(patterns);
      if indexOk {
        index := patterns;
      }
      return indexOk;
    }
  }

  // ---------- Over any history of successful operations ----------

  datatype Op = SaveOp(p: ErrorPattern, now: int) | ResolveOp(id: string)

  function After(hash: Hash, ops: seq<Op>): Patterns {
    if ops == [] then []
    else
      var before := After(hash, ops[..|ops| - 1]);
      match ops[|ops| - 1]
      case SaveOp(p, now) => Saved(before, p, hash(p.pattern), now)
      case ResolveOp(id) => MarkedResolved(before, id)
  }

  predicate IsSave(hash: Hash, op: Op, id: string) {
    op.SaveOp? && hash(op.p.pattern) == id
  }

  function Occurrences(hash: Hash, ops: seq<Op>, id: string): nat {
    if ops == [] then 0
    else Occurrences(hash, ops[..|ops| - 1], id) + if IsSave(hash, ops[|ops| - 1], id) then 1 else 0
  }

  /** The roles of all saves under an ID. */
  function RolesOf(hash: Hash, ops: seq<Op>, id: string): set<string> {
    if ops == [] then {}
    else
      var last := ops[|ops| - 1];
      RolesOf(hash, ops[..|ops| - 1], id) + if IsSave(hash, last, id) then set r | r in last.p.roles else {}
  }

  /** When an ID was saved first and last. */
  function FirstSave(hash: Hash, ops: seq<Op>, id: string): int {
    if ops == [] then 0
    else
      var before := ops[..|ops| - 1];
      if IsSave(hash, ops[|ops| - 1], id) && Occurrences(hash, before, id) == 0 then ops[|ops| - 1].now
      else FirstSave(hash, before, id)
  }

  function LastSave(hash: Hash, ops: seq<Op>, id: string): int {
    if ops == [] then 0
    else if IsSave(hash, ops[|ops| - 1], id) then ops[|ops| - 1].now
    else LastSave(hash, ops[..|ops| - 1], id)
  }

  /** The last summary saved under an ID that is not empty. */
  function LastSummary(hash: Hash, ops: seq<Op>, id: string): string {
    if ops == [] then ""
    else
      var last := ops[|ops| - 1];
      if IsSave(hash, last, id) && last.p.summary != "" then last.p.summary else LastSummary(hash, ops[..|ops| - 1], id)
  }

  /** The pattern an ID was first saved for. */
  function FirstPattern(hash: Hash, ops: seq<Op>, id: string): string {
    if ops == [] then ""
    else
      var before, last := ops[..|ops| - 1], ops[|ops| - 1];
      if IsSave(hash, last, id) && Occurrences(hash, before, id) == 0 then last.p.pattern else FirstPattern(hash, before, id)
  }

  /** The ID was first saved as resolved, or marked resolved at any time after that. */
  predicate WasResolved(hash: Hash, ops: seq<Op>, id: string) {
    ops != []
    && var before, last := ops[..|ops| - 1], ops[|ops| - 1];
       || WasResolved(hash, before, id)
       || (last == ResolveOp(id) && Occurrences(hash, before, id) > 0)
       || (IsSave(hash, last, id) && Occurrences(hash, before, id) == 0 && last.p.resolved)
  }

  /** An entry says what the history says about its ID. */
  ghost predicate Faithful(hash: Hash, ops: seq<Op>, e: ErrorPattern) {
    && e.count == Occurrences(hash, ops, e.id) > 0
    && (set r | r in e.roles) == RolesOf(hash, ops, e.id)
    && e.firstSeen == FirstSave(hash, ops, e.id) && e.lastSeen == LastSave(hash, ops, e.id)
    && e.summary == LastSummary(hash, ops, e.id) && e.pattern == FirstPattern(hash, ops, e.id)
    && (e.resolved <==> WasResolved(hash, ops, e.id))
    && e.detailFile == e.id + ".md"
  }

  ghost predicate DistinctIDs(ps: Patterns) {
    forall i, j :: 0 <= i < j < |ps| ==> ps[i].id != ps[j].id
  }

  ghost predicate Listed(ps: Patterns, id: string) {
    exists i :: 0 <= i < |ps| && ps[i].id == id
  }

  /** IDs are distinct, an ID is listed exactly when it was saved, and each entry counts its saves, unites their
      roles, and carries the times of the first and the last. */
  ghost predicate FaithfulList(hash: Hash, ops: seq<Op>, ps: Patterns) {
    && DistinctIDs(ps)
    && (forall i :: 0 <= i < |ps| ==> Faithful(hash, ops, ps[i]))
    && (forall id :: Occurrences(hash, ops, id) > 0 ==> Listed(ps, id))
  }

  /** Saving changes the one entry with that ID, or appends one. */
  lemma SavedShape(ps: Patterns, p: ErrorPattern, id: string, now: int)
    requires DistinctIDs(ps)
    ensures
      var ps' := Saved(ps, p, id, now);
      && DistinctIDs(ps') && |ps'| == |ps| + (if Listed(ps, id) then 0 else 1)
      && (forall i :: 0 <= i < |ps| ==> ps'[i] == if ps[i].id == id then Again(ps[i], p, now) else ps[i])
      && (!Listed(ps, id) ==> ps'[|ps|] == NewEntry(p, id, now))
  {
    assert Listed(ps, id) <==> Find(ps, id).Some?;
  }

  /** What one more save means for one entry. */
  lemma SaveOneEntry(hash: Hash, ops: seq<Op>, e: ErrorPattern)
    requires ops != [] && ops[|ops| - 1].SaveOp? && Faithful(hash, ops[..|ops| - 1], e)
    ensures
      var op := ops[|ops| - 1];
      Faithful(hash, ops, if e.id == hash(op.p.pattern) then Again(e, op.p, op.now) else e)
  {
    MergedIsUnion(e.roles, ops[|ops| - 1].p.roles);
  }

  lemma {:induction false} NeverSaved(hash: Hash, ops: seq<Op>, id: string)
    requires Occurrences(hash, ops, id) == 0
    ensures RolesOf(hash, ops, id) == {} && LastSummary(hash, ops, id) == "" && !WasResolved(hash, ops, id)
  {
    if ops == [] {
    } else {
      NeverSaved(hash, ops[..|ops| - 1], id);
    }
  }

  lemma SaveNewEntry(hash: Hash, ops: seq<Op>)
    requires ops != [] && ops[|ops| - 1].SaveOp?
    requires Occurrences(hash, ops[..|ops| - 1], hash(ops[|ops| - 1].p.pattern)) == 0
    ensures
      var (p, now) := (ops[|ops| - 1].p, ops[|ops| - 1].now);
      var id := hash(p.pattern);
      Faithful(hash, ops, NewEntry(p, id, now))
  {
    NeverSaved(hash, ops[..|ops| - 1], hash(ops[|ops| - 1].p.pattern));
  }

  lemma SavedEntry(hash: Hash, ops: seq<Op>, ps: Patterns, i: nat)
    requires ops != [] && ops[|ops| - 1].SaveOp? && FaithfulList(hash, ops[..|ops| - 1], ps)
    requires i < |Saved(ps, ops[|ops| - 1].p, hash(ops[|ops| - 1].p.pattern), ops[|ops| - 1].now)|
    ensures Faithful(hash, ops, Saved(ps, ops[|ops| - 1].p, hash(ops[|ops| - 1].p.pattern), ops[|ops| - 1].now)[i])
  {
    var op := ops[|ops| - 1];
    var id := hash(op.p.pattern);
    SavedShape(ps, op.p, id, op.now);
    if i < |ps| {
      SaveOneEntry(hash, ops, ps[i]);
    } else {
      assert !Listed(ps, id);
      SaveNewEntry(hash, ops);
    }
  }

  lemma SavedLists(ps: Patterns, p: ErrorPattern, id: string, now: int, x: string)
    requires DistinctIDs(ps) && (Listed(ps, x) || x == id)
    ensures Listed(Saved(ps, p, id, now), x)
  {
    SavedShape(ps, p, id, now);
    var ps' := Saved(ps, p, id, now);
    if Listed(ps, x) {
      var i :| 0 <= i < |ps| && ps[i].id == x;
      assert ps'[i].id == x;
    } else {
      assert ps'[|ps|].id == x;
    }
  }

  lemma SaveIsFaithful(hash: Hash, ops: seq<Op>, ps: Patterns)
    requires ops != [] && ops[|ops| - 1].SaveOp? && FaithfulList(hash, ops[..|ops| - 1], ps)
    ensures FaithfulList(hash, ops, Saved(ps, ops[|ops| - 1].p, hash(ops[|ops| - 1].p.pattern), ops[|ops| - 1].now))
  {
    var before, op := ops[..|ops| - 1], ops[|ops| - 1];
    var id := hash(op.p.pattern);
    var ps' := Saved(ps, op.p, id, op.now);
    SavedShape(ps, op.p, id, op.now);
    forall i | 0 <= i < |ps'|
      ensures Faithful(hash, ops, ps'[i])
    {
      SavedEntry(hash, ops, ps, i);
    }
    forall x | Occurrences(hash, ops, x) > 0
      ensures Listed(ps', x)
    {
      assert x != id ==> Occurrences(hash, before, x) > 0;
      SavedLists(ps, op.p, id, op.now, x);
    }
  }

  lemma ResolveIsFaithful(hash: Hash, ops: seq<Op>, ps: Patterns)
    requires ops != [] && ops[|ops| - 1].ResolveOp? && FaithfulList(hash, ops[..|ops| - 1], ps)
    ensures FaithfulList(hash, ops, MarkedResolved(ps, ops[|ops| - 1].id))
  {
    var before, ps' := ops[..|ops| - 1], MarkedResolved(ps, ops[|ops| - 1].id);
    forall i | 0 <= i < |ps'|
      ensures Faithful(hash, ops, ps'[i])
    {
      assert Faithful(hash, before, ps[i]);
    }
    forall x | Occurrences(hash, ops, x) > 0
      ensures Listed(ps', x)
    {
      assert Listed(ps, x);
      var i :| 0 <= i < |ps| && ps[i].id == x;
      assert ps'[i].id == x;
    }
  }

  lemma {:induction false} HistoryIsFaithful(hash: Hash, ops: seq<Op>)
    ensures FaithfulList(hash, ops, After(hash, ops))
  {
    if ops == [] {
    } else {
      var before := ops[..|ops| - 1];
      HistoryIsFaithful(hash, before);
      match ops[|ops| - 1]
      case SaveOp(p, now) => SaveIsFaithful(hash, ops, After(hash, before));
      case ResolveOp(id) => ResolveIsFaithful(hash, ops, After(hash, before));
    }
  }
}
