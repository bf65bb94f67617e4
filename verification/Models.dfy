/** Model tiers and the escalation order (`internal/domain/model.go`). */
module Models {
  const OPUS := "opus"
  const SONNET := "sonnet"
  const HAIKU := "haiku"
  const MINIMAX := "minimax"
  const MINIMAX_HS := "minimax-highspeed"
  const KIMI := "kimi"
  const GLM5 := "glm5"
  const GLM_FLASH := "glm-flash"
  const HUMAN := "human"
  const CACHE := "cache"

  const TIER_FLASH := 10
  const TIER_WORKER := 20
  const TIER_SMART := 30
  const TIER_EXPERT := 40
  const TIER_HUMAN := 50

  function TierFor(model: string): int {
    if model == GLM_FLASH then TIER_FLASH
    else if model in {HAIKU, GLM5, MINIMAX, MINIMAX_HS, KIMI} then TIER_WORKER
    else if model == SONNET then TIER_SMART
    else if model == OPUS then TIER_EXPERT
    else if model == HUMAN then TIER_HUMAN
    else TIER_WORKER
  }

  function EscalationTarget(model: string): string {
    var tier := TierFor(model);
    if tier <= TIER_WORKER then SONNET
    else if tier == TIER_SMART then OPUS
    else HUMAN
  }

  function NextEscalationLevel(level: string): string {
    if level == SONNET then OPUS else HUMAN
  }

  function SupervisorModel(workerModel: string): string {
    if TierFor(workerModel) <= TIER_SMART then OPUS else OPUS
  }

  /** A ladder of models: each level is the next one after its predecessor, and the human comes last, once. */
  ghost predicate IsLadder(chain: seq<string>) {
    && chain != [] && chain[|chain| - 1] == HUMAN
    && (forall i :: 0 <= i < |chain| - 1 ==> chain[i] != HUMAN)
    && (forall i :: 0 <= i < |chain| - 1 ==> chain[i + 1] == NextEscalationLevel(chain[i]))
  }

  /** The models to consult on behalf of `fromModel`. */
  method EscalationChain(fromModel: string) returns (chain: seq<string>)
    ensures IsLadder(chain) && chain[0] == EscalationTarget(fromModel)
  {
    var target := EscalationTarget(fromModel);
    if target == HUMAN {
      return [HUMAN];
    }
    chain := [];
    var level := target;
    while level != HUMAN
      invariant chain + [level] != [] && (chain + [level])[0] == target
      invariant forall i :: 0 <= i < |chain| ==> chain[i] != HUMAN
      invariant forall i :: 0 <= i < |chain| ==> (chain + [level])[i + 1] == NextEscalationLevel(chain[i])
      decreases TIER_HUMAN - TierFor(level)
    {
      chain := chain + [level];
      level := NextEscalationLevel(level);
    }
    chain := chain + [HUMAN];
  }

  /** Tiers strictly climb along a ladder that starts at an escalation target, so at most three levels
      are consulted; the first lies above the asking model unless a human asks. */
  lemma {:induction false} LadderClimbs(fromModel: string, chain: seq<string>, i: nat, j: nat)
    requires IsLadder(chain) && chain[0] == EscalationTarget(fromModel) && i < j < |chain|
    ensures TierFor(chain[i]) < TierFor(chain[j])
    ensures |chain| <= 3
    decreases j - i
  {
    assert |chain| > 1 ==> chain[0 + 1] == NextEscalationLevel(chain[0]);
    assert |chain| > 2 ==> chain[1 + 1] == NextEscalationLevel(chain[1]);
    if j == i + 1 {
      assert chain[i + 1] == NextEscalationLevel(chain[i]);
    } else {
      LadderClimbs(fromModel, chain, i, j - 1);
      LadderClimbs(fromModel, chain, j - 1, j);
    }
  }

  lemma TargetOutranks(fromModel: string)
    ensures TierFor(EscalationTarget(fromModel)) > TierFor(fromModel) <==> fromModel != HUMAN
  {
  }

  /** The ladders by name. */
  function LadderOf(model: string): seq<string> {
    if model == "sonnet" then ["opus", "human"]
    else if model == "opus" || model == "human" then ["human"]
    else ["sonnet", "opus", "human"]
  }

  /** There is one ladder for each model, and this is it. */
  lemma LadderByName(model: string, chain: seq<string>)
    requires IsLadder(chain) && chain[0] == EscalationTarget(model)
    ensures chain == LadderOf(model)
  {
    assert |chain| > 1 ==> chain[0 + 1] == NextEscalationLevel(chain[0]);
    assert |chain| > 2 ==> chain[1 + 1] == NextEscalationLevel(chain[1]);
  }
}
