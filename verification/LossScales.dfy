/** The staged scaling of a batch, in place, and the order in which the stages may be applied. */
module LossScales {
  import opened Grouping
  import opened Sequences
  import opened LossWeights

  datatype Stage = Group | Agent | Turn

  datatype Outcome = Applied | AssertionFailed | ZeroDivision

  const FULL_ORDER: seq<Stage> := [Group, Agent, Turn]

  // ---------- the order of the stages ----------

  /** The assertion at the head of each stage. */
  predicate Allowed(folding: seq<Stage>, stage: Stage) {
    match stage
    case Group => Group !in folding
    case Agent => Group in folding && Agent !in folding
    case Turn => Group in folding && Agent in folding && Turn !in folding
  }

  function After(folding: seq<Stage>, stage: Stage): seq<Stage> {
    if Allowed(folding, stage) then folding + [stage] else folding
  }

  /** The stages recorded after a run of calls, allowed or not. */
  function Recorded(calls: seq<Stage>): seq<Stage> {
    if calls == [] then [] else After(Recorded(calls[..|calls| - 1]), calls[|calls| - 1])
  }

  ghost predicate InOrder(folding: seq<Stage>) {
    folding <= FULL_ORDER
  }

  lemma InOrderIs(folding: seq<Stage>)
    ensures InOrder(folding) <==> folding in [[], [Group], [Group, Agent], FULL_ORDER]
  {
    assert FULL_ORDER[..0] == [] && FULL_ORDER[..1] == [Group] && FULL_ORDER[..2] == [Group, Agent];
    assert FULL_ORDER[..3] == FULL_ORDER;
    if InOrder(folding) {
      assert folding == FULL_ORDER[..|folding|];
    }
  }

  /** A stage is allowed exactly when it is the next one in the full order. */
  lemma AllowedIsNext(folding: seq<Stage>, stage: Stage)
    requires InOrder(folding)
    ensures Allowed(folding, stage) <==> InOrder(folding + [stage])
    ensures InOrder(After(folding, stage))
  {
    InOrderIs(folding);
    InOrderIs(folding + [stage]);
    if |folding| == 0 {
      assert folding + [stage] == [stage];
    } else if |folding| == 1 {
      assert folding + [stage] == [Group, stage];
    } else if |folding| == 2 {
      assert folding + [stage] == [Group, Agent, stage];
    }
  }

  /** Whatever is called, the stages applied are a prefix of group, agent, turn. */
  lemma {:induction false} RecordedInOrder(calls: seq<Stage>)
    ensures InOrder(Recorded(calls))
  {
    if calls == [] {
    } else {
      RecordedInOrder(calls[..|calls| - 1]);
      AllowedIsNext(Recorded(calls[..|calls| - 1]), calls[|calls| - 1]);
    }
  }

  /** A configuration whose stages are all allowed is a prefix of group, agent, turn, and conversely. */
  lemma {:induction false} NoneRefusedIff(calls: seq<Stage>)
    ensures Recorded(calls) == calls <==> InOrder(calls)
  {
    if calls == [] {
    } else {
      var before, last := calls[..|calls| - 1], calls[|calls| - 1];
      NoneRefusedIff(before);
      RecordedInOrder(before);
      RecordedLength(before);
      assert calls == before + [last];
      AllowedIsNext(Recorded(before), last);
    }
  }

  lemma {:induction false} RecordedLength(calls: seq<Stage>)
    ensures |Recorded(calls)| <= |calls|
  {
    if calls == [] {
    } else {
      RecordedLength(calls[..|calls| - 1]);
    }
  }

  // ---------- the batch ----------

  /** The weights a batch carries, besides what identifies its turns. */
  class Batch {
    const turns: Turns
    const lossScales: array<real>
    const advantages: array<real>

    ghost predicate Valid() {
      |turns.trajs| == |turns.agents| == |turns.tokens| == lossScales.Length && lossScales != advantages
    }

    constructor (turns: Turns, advantages: array<real>)
      requires Shaped(turns)
      ensures Valid() && fresh(lossScales) && this.turns == turns && this.advantages == advantages
      ensures forall i :: 0 <= i < lossScales.Length ==> lossScales[i] == 1.0
    {
      this.turns, this.advantages := turns, advantages;
      this.lossScales := new real[|turns.trajs|](i => 1.0);
    }
  }

  class Context {
    const worldSize: nat
    const actorGlobalBatchSize: real
    var foldingScale: seq<Stage>

    constructor (worldSize: nat, actorGlobalBatchSize: real)
      ensures this.worldSize == worldSize && this.actorGlobalBatchSize == actorGlobalBatchSize
      ensures foldingScale == []
    {
      this.worldSize, this.actorGlobalBatchSize, foldingScale := worldSize, actorGlobalBatchSize, [];
    }
  }

  // ---------- grouping ----------

  ghost predicate GroupsOf(groups: map<int, seq<nat>>, idxs: seq<nat>, keys: seq<int>)
    requires Indices(idxs, |keys|)
  {
    groups.Keys == KeysOf(idxs, keys) && forall k :: k in groups ==> groups[k] == Pick(idxs, keys, k)
  }

  lemma GroupsOfStep(groups: map<int, seq<nat>>, idxs: seq<nat>, i: nat, keys: seq<int>)
    requires Indices(idxs, |keys|) && i < |keys| && GroupsOf(groups, idxs, keys)
    ensures Indices(idxs + [i], |keys|)
    ensures GroupsOf(groups[keys[i] := (if keys[i] in groups then groups[keys[i]] else []) + [i]], idxs + [i], keys)
  {
    hide Pick;
    hide KeysOf;
    KeysAppend(idxs, i, keys);
    var k := keys[i];
    var next := groups[k := (if k in groups then groups[k] else []) + [i]];
    if k !in groups { PickNone(idxs, keys, k); }
    forall j | j in next ensures next[j] == Pick(idxs + [i], keys, j) {
      PickAppend(idxs, i, keys, j);
      PickOne(i, keys, j);
      assert j != k ==> Pick(idxs, keys, j) + [] == Pick(idxs, keys, j);
    }
  }

  /** The dictionary from each key to its indices, with the keys in the order of first use. */
  method GroupBy(idxs: seq<nat>, keys: seq<int>) returns (order: seq<int>, groups: map<int, seq<nat>>)
    requires Indices(idxs, |keys|)
    ensures GroupsOf(groups, idxs, keys)
    ensures forall k :: k in groups <==> k in order
    ensures forall x, y :: 0 <= x < y < |order| ==> order[x] != order[y]
    ensures |groups| == |KeysOf(idxs, keys)|
  {
    hide Pick;
    hide KeysOf;
    order, groups := [], map[];
    KeysOfNone(keys);
    assert idxs[..0] == [];
    for m := 0 to |idxs|
      invariant Indices(idxs[..m], |keys|) && GroupsOf(groups, idxs[..m], keys)
      invariant forall k :: k in groups <==> k in order
      invariant forall x, y :: 0 <= x < y < |order| ==> order[x] != order[y]
    {
      assert idxs[..m + 1] == idxs[..m] + [idxs[m]];
      GroupsOfStep(groups, idxs[..m], idxs[m], keys);
      var k := keys[idxs[m]];
      if k !in groups {
        order, groups := order + [k], groups[k := []];
      }
      groups := groups[k := groups[k] + [idxs[m]]];
    }
    assert idxs[..|idxs|] == idxs;
    assert |groups| == |groups.Keys|;
  }

  // ---------- scaling in place ----------

  /** The entries in done were multiplied by their factor, the others kept. */
  ghost predicate ScaledOn(before: seq<real>, after: seq<real>, f: seq<real>, done: set<nat>) {
    |before| == |after| == |f| &&
    forall i :: 0 <= i < |f| ==> after[i] == if i in done then before[i] * f[i] else before[i]
  }

  lemma ScaledOnJoin(s0: seq<real>, s1: seq<real>, s2: seq<real>, f: seq<real>, a: set<nat>, b: set<nat>)
    requires ScaledOn(s0, s1, f, a) && ScaledOn(s1, s2, f, b) && a !! b
    ensures ScaledOn(s0, s2, f, a + b)
  {
  }

  function Members(idxs: seq<nat>): (r: set<nat>)
    ensures forall i :: i in r <==> i in idxs
  {
    set i | i in idxs
  }

  method ScaleUniformly(scales: array<real>, idxs: seq<nat>, weight: real, ghost f: seq<real>)
    requires Indices(idxs, scales.Length) && Increasing(idxs) && |f| == scales.Length
    requires forall i :: 0 <= i < |idxs| ==> f[idxs[i]] == weight
    modifies scales
    ensures ScaledOn(old(scales[..]), scales[..], f, Members(idxs))
  {
    for m := 0 to |idxs|
      invariant ScaledOn(old(scales[..]), scales[..], f, Members(idxs[..m]))
    {
      assert idxs[m] !in idxs[..m];
      assert idxs[..m + 1] == idxs[..m] + [idxs[m]];
      ghost var before := scales[..];
      scales[idxs[m]] := scales[idxs[m]] * weight;
      assert ScaledOn(before, scales[..], f, {idxs[m]});
      ScaledOnJoin(old(scales[..]), before, scales[..], f, Members(idxs[..m]), {idxs[m]});
      assert Members(idxs[..m + 1]) == Members(idxs[..m]) + {idxs[m]};
    }
    assert idxs[..|idxs|] == idxs;
  }

  /** Counts each turn's tokens and multiplies by its share; fails when there is no token at all. */
  method ScaleByTokens(scales: array<real>, b: Turns, idxs: seq<nat>, ghost f: seq<real>) returns (ok: bool)
    requires |b.tokens| == scales.Length == |f| && Indices(idxs, scales.Length) && Increasing(idxs)
    requires TokensOf(b, idxs) >= 1 ==>
      forall i :: 0 <= i < |idxs| ==> f[idxs[i]] == TokenWeight(|idxs|, b.tokens[idxs[i]], TokensOf(b, idxs))
    modifies scales
    ensures ok <==> TokensOf(b, idxs) >= 1
    ensures ok ==> ScaledOn(old(scales[..]), scales[..], f, Members(idxs))
  {
    hide TokenWeight;
    var counts, total := CountTokens(b, idxs);
    ok := total >= 1;
    if ok {
      for m := 0 to |idxs|
        invariant ScaledOn(old(scales[..]), scales[..], f, Members(idxs[..m]))
      {
        assert idxs[m] !in idxs[..m];
        assert idxs[..m + 1] == idxs[..m] + [idxs[m]];
        ghost var before := scales[..];
        scales[idxs[m]] := scales[idxs[m]] * TokenWeight(|idxs|, counts[m], total);
        assert ScaledOn(before, scales[..], f, {idxs[m]});
        ScaledOnJoin(old(scales[..]), before, scales[..], f, Members(idxs[..m]), {idxs[m]});
        assert Members(idxs[..m + 1]) == Members(idxs[..m]) + {idxs[m]};
      }
      assert idxs[..|idxs|] == idxs;
    }
  }

  lemma {:induction false} TokensOfAppend(b: Turns, idxs: seq<nat>, i: nat)
    requires Indices(idxs, |b.tokens|) && i < |b.tokens|
    ensures TokensOf(b, idxs + [i]) == TokensOf(b, idxs) + b.tokens[i]
  {
    if idxs == [] {
      assert [] + [i] == [i] && [i][1..] == [];
    } else {
      assert (idxs + [i])[1..] == idxs[1..] + [i];
      TokensOfAppend(b, idxs[1..], i);
    }
  }

  method CountTokens(b: Turns, idxs: seq<nat>) returns (counts: seq<nat>, total: nat)
    requires Indices(idxs, |b.tokens|)
    ensures |counts| == |idxs| && forall i :: 0 <= i < |idxs| ==> counts[i] == b.tokens[idxs[i]]
    ensures total == TokensOf(b, idxs)
  {
    counts, total := [], 0;
    for m := 0 to |idxs|
      invariant |counts| == m && forall i :: 0 <= i < m ==> counts[i] == b.tokens[idxs[i]]
      invariant total == TokensOf(b, idxs[..m])
    {
      assert idxs[..m + 1] == idxs[..m] + [idxs[m]];
      TokensOfAppend(b, idxs[..m], idxs[m]);
      counts := counts + [b.tokens[idxs[m]]];
      total := total + b.tokens[idxs[m]];
    }
    assert idxs[..|idxs|] == idxs;
  }

  // ---------- one trajectory ----------

  lemma TrajTurnsIff(b: Turns, traj: int, i: nat)
    requires i < |b.trajs|
    ensures i in TrajTurns(b, traj) <==> b.trajs[i] == traj
  {
    PickIff(Range(|b.trajs|), b.trajs, traj, i);
    assert Range(|b.trajs|)[i] == i;
  }

  lemma TurnsIncrease(b: Turns, traj: int, agent: int)
    requires Shaped(b)
    ensures Increasing(AgentTurns(b, traj, agent))
  {
    PickIncreasing(Range(|b.trajs|), b.trajs, traj);
    PickIncreasing(TrajTurns(b, traj), b.agents, agent);
  }

  ghost function AgentFactors(b: Turns): (f: seq<real>)
    requires Shaped(b)
    ensures |f| == |b.trajs| && forall i :: 0 <= i < |f| ==> f[i] == AgentFactor(b, i)
  {
    seq(|b.trajs|, i requires 0 <= i < |b.trajs| => AgentFactor(b, i))
  }

  ghost function TurnFactors(b: Turns): (f: seq<real>)
    requires Shaped(b)
    ensures |f| == |b.trajs| && forall i :: 0 <= i < |f| ==> f[i] == if Silent(b, i) then 0.0 else TurnFactor(b, i)
  {
    seq(|b.trajs|, i requires 0 <= i < |b.trajs| => if Silent(b, i) then 0.0 else TurnFactor(b, i))
  }

  lemma AgentFactorsAre(b: Turns, traj: int, agent: int)
    requires Shaped(b) && agent in AgentsOf(b, traj)
    ensures var turns, agents := AgentTurns(b, traj, agent), |AgentsOf(b, traj)|;
            |turns| >= 1 && agents >= 1 &&
            forall i :: 0 <= i < |turns| ==> AgentFactors(b)[turns[i]] == UniformWeight(agents, |turns|)
  {
    hide AgentTurns;
    hide AgentsOf;
    hide AgentFactors;
    hide UniformWeight;
    AgentTurnsAre(b, traj, agent);
  }

  lemma TurnFactorsAre(b: Turns, traj: int, agent: int)
    requires Shaped(b) && agent in AgentsOf(b, traj)
    ensures var turns := AgentTurns(b, traj, agent);
            var total := TokensOf(b, turns);
            |turns| >= 1 && forall i :: 0 <= i < |turns| ==>
              (Silent(b, turns[i]) <==> total == 0) &&
              (total >= 1 ==> TurnFactors(b)[turns[i]] == TokenWeight(|turns|, b.tokens[turns[i]], total))
  {
    hide AgentTurns;
    hide AgentsOf;
    hide TurnFactors;
    hide TokenWeight;
    hide TokensOf;
    AgentTurnsAre(b, traj, agent);
  }

  /** The turns of the first agents, and those of the next one. */
  lemma NextAgent(b: Turns, traj: int, order: seq<int>, m: nat, done: set<nat>)
    requires Shaped(b) && m < |order| && forall x, y :: 0 <= x < y < |order| ==> order[x] != order[y]
    requires forall i :: i in done <==> i in TrajTurns(b, traj) && b.agents[i] in order[..m]
    ensures done !! Members(AgentTurns(b, traj, order[m]))
    ensures forall i :: i in done + Members(AgentTurns(b, traj, order[m])) <==>
                        i in TrajTurns(b, traj) && b.agents[i] in order[..m + 1]
  {
    hide TrajTurns;
    hide Pick;
    var idxs, group := TrajTurns(b, traj), AgentTurns(b, traj, order[m]);
    assert order[..m + 1] == order[..m] + [order[m]];
    assert order[m] !in order[..m];
    forall i: nat | i < |b.trajs| ensures i in group <==> i in idxs && b.agents[i] == order[m] {
      PickIff(idxs, b.agents, order[m], i);
    }
    assert forall i :: i in group ==> i < |b.trajs|;
    assert forall i :: i in idxs ==> i < |b.trajs|;
  }

  ghost predicate AllOf(order: seq<int>, b: Turns, traj: int)
    requires Shaped(b)
  {
    forall k :: k in AgentsOf(b, traj) <==> k in order
  }

  lemma EveryAgentDone(b: Turns, traj: int, order: seq<int>, done: set<nat>)
    requires Shaped(b) && AllOf(order, b, traj)
    requires forall i :: i in done <==> i in TrajTurns(b, traj) && b.agents[i] in order
    ensures done == Members(TrajTurns(b, traj))
  {
    hide TrajTurns;
    var idxs := TrajTurns(b, traj);
    forall i | i in idxs ensures b.agents[i] in order {
      var m :| 0 <= m < |idxs| && idxs[m] == i;
      var k := b.agents[idxs[m]];
      assert k in AgentsOf(b, traj);
      assert k in order;
    }
  }

  method ScaleTrajectoryUniformly(batch: Batch, ghost traj: int, idxs: seq<nat>)
    requires batch.Valid() && idxs == TrajTurns(batch.turns, traj)
    modifies batch.lossScales
    ensures ScaledOn(old(batch.lossScales[..]), batch.lossScales[..], AgentFactors(batch.turns), Members(idxs))
  {
    hide TrajTurns;
    hide AgentFactors;
    hide UniformWeight;
    hide ScaledOn;
    hide Pick;
    hide KeysOf;
    hide Increasing;
    var b, scales := batch.turns, batch.lossScales;
    var order, groups := GroupBy(idxs, b.agents);
    ghost var f, done: set<nat> := AgentFactors(b), {};
    ScaledOnNone(scales[..], f);
    for m := 0 to |order|
      invariant ScaledOn(old(scales[..]), scales[..], f, done)
      invariant forall i :: i in done <==> i in idxs && b.agents[i] in order[..m]
    {
      var k := order[m];
      assert k in order;
      assert k in groups;
      var group := groups[k];
      assert group == AgentTurns(b, traj, order[m]) && order[m] in AgentsOf(b, traj);
      AgentFactorsAre(b, traj, order[m]);
      TurnsIncrease(b, traj, order[m]);
      NextAgent(b, traj, order, m, done);
      ghost var before := scales[..];
      ScaleUniformly(scales, group, UniformWeight(|groups|, |group|), f);
      ScaledOnJoin(old(scales[..]), before, scales[..], f, done, Members(group));
      done := done + Members(group);
    }
    assert order[..|order|] == order;
    EveryAgentDone(b, traj, order, done);
  }

  lemma ScaledOnNone(s: seq<real>, f: seq<real>)
    requires |s| == |f|
    ensures ScaledOn(s, s, f, {})
  {
  }

  method ScaleTrajectoryByTokens(batch: Batch, ghost traj: int, idxs: seq<nat>) returns (ok: bool)
    requires batch.Valid() && idxs == TrajTurns(batch.turns, traj)
    modifies batch.lossScales
    ensures ok <==> forall i :: 0 <= i < |idxs| ==> !Silent(batch.turns, idxs[i])
    ensures ok ==>
      ScaledOn(old(batch.lossScales[..]), batch.lossScales[..], TurnFactors(batch.turns), Members(idxs))
  {
    hide TrajTurns;
    hide TurnFactors;
    hide TokenWeight;
    hide ScaledOn;
    hide Pick;
    hide KeysOf;
    hide Increasing;
    hide Silent;
    hide TokensOf;
    var b, scales := batch.turns, batch.lossScales;
    var order, groups := GroupBy(idxs, b.agents);
    ghost var f, done: set<nat> := TurnFactors(b), {};
    ScaledOnNone(scales[..], f);
    for m := 0 to |order|
      invariant ScaledOn(old(scales[..]), scales[..], f, done)
      invariant forall i :: i in done <==> i in idxs && b.agents[i] in order[..m]
      invariant forall i :: i in done ==> !Silent(b, i)
    {
      var k := order[m];
      assert k in order;
      assert k in groups;
      var group := groups[k];
      assert group == AgentTurns(b, traj, order[m]) && order[m] in AgentsOf(b, traj);
      TurnFactorsAre(b, traj, order[m]);
      TurnsIncrease(b, traj, order[m]);
      NextAgent(b, traj, order, m, done);
      ghost var before := scales[..];
      var some := ScaleByTokens(scales, b, group, f);
      if !some {
        assert group[0] in done + Members(group);
        return false;
      }
      ScaledOnJoin(old(scales[..]), before, scales[..], f, done, Members(group));
      done := done + Members(group);
    }
    assert order[..|order|] == order;
    EveryAgentDone(b, traj, order, done);
    ok := true;
  }

  // ---------- the stages ----------

  /** Every agent of every trajectory has a valid token. */
  ghost predicate NoneSilent(b: Turns)
    requires Shaped(b)
  {
    forall i :: 0 <= i < |b.trajs| ==> !Silent(b, i)
  }

  lemma {:induction false} SomeTokens(b: Turns, idxs: seq<nat>)
    requires Indices(idxs, |b.tokens|)
    ensures TokensOf(b, idxs) > 0 <==> exists j :: 0 <= j < |idxs| && b.tokens[idxs[j]] > 0
  {
    if idxs == [] {
    } else {
      SomeTokens(b, idxs[1..]);
      if j :| 0 <= j < |idxs| && b.tokens[idxs[j]] > 0 {
        assert j > 0 ==> idxs[1..][j - 1] == idxs[j];
      }
      if j :| 0 <= j < |idxs[1..]| && b.tokens[idxs[1..][j]] > 0 {
        assert idxs[j + 1] == idxs[1..][j];
      }
    }
  }

  /** The agent of turn i has a turn in that trajectory with a valid token. */
  ghost predicate Speaks(b: Turns, i: nat)
    requires Shaped(b) && i < |b.trajs|
  {
    exists j :: 0 <= j < |b.trajs| && b.trajs[j] == b.trajs[i] && b.agents[j] == b.agents[i] && b.tokens[j] > 0
  }

  lemma SilentIff(b: Turns, i: nat)
    requires Shaped(b) && i < |b.trajs|
    ensures !Silent(b, i) <==> Speaks(b, i)
  {
    hide TokensOf;
    hide AgentTurns;
    hide AgentsOf;
    TurnHasAgent(b, i);
    var turns := AgentTurns(b, b.trajs[i], b.agents[i]);
    AgentTurnsAre(b, b.trajs[i], b.agents[i]);
    SomeTokens(b, turns);
    if !Silent(b, i) {
      var m :| 0 <= m < |turns| && b.tokens[turns[m]] > 0;
      assert b.trajs[turns[m]] == b.trajs[i] && b.agents[turns[m]] == b.agents[i];
    }
    if j :| 0 <= j < |b.trajs| && b.trajs[j] == b.trajs[i] && b.agents[j] == b.agents[i] && b.tokens[j] > 0 {
      TurnHasAgent(b, j);
      assert j in turns;
    }
  }

  /** No agent is silent exactly when every turn's agent has a valid token in some turn of that trajectory. */
  lemma NoneSilentIff(b: Turns)
    requires Shaped(b)
    ensures NoneSilent(b) <==> forall i :: 0 <= i < |b.trajs| ==> Speaks(b, i)
  {
    hide Silent;
    hide Speaks;
    forall i | 0 <= i < |b.trajs| ensures !Silent(b, i) <==> Speaks(b, i) {
      SilentIff(b, i);
    }
  }

  lemma NextTrajectory(b: Turns, order: seq<int>, m: nat, done: set<nat>)
    requires Shaped(b) && m < |order| && forall x, y :: 0 <= x < y < |order| ==> order[x] != order[y]
    requires forall i: nat :: i in done <==> i < |b.trajs| && b.trajs[i] in order[..m]
    ensures done !! Members(TrajTurns(b, order[m]))
    ensures forall i: nat ::
              i in done + Members(TrajTurns(b, order[m])) <==> i < |b.trajs| && b.trajs[i] in order[..m + 1]
  {
    hide Pick;
    assert order[..m + 1] == order[..m] + [order[m]];
    assert order[m] !in order[..m];
    var idxs := TrajTurns(b, order[m]);
    forall i: nat | i < |b.trajs| ensures i in idxs <==> b.trajs[i] == order[m] {
      TrajTurnsIff(b, order[m], i);
    }
    assert forall i :: i in idxs ==> i < |b.trajs|;
  }

  lemma EveryTurnDone(b: Turns, order: seq<int>, done: set<nat>)
    requires Shaped(b) && forall k :: k in KeysOf(Range(|b.trajs|), b.trajs) <==> k in order
    requires forall i: nat :: i in done <==> i < |b.trajs| && b.trajs[i] in order
    ensures forall i :: 0 <= i < |b.trajs| ==> i in done
  {
    forall i | 0 <= i < |b.trajs| ensures i in done {
      var k := b.trajs[Range(|b.trajs|)[i]];
      assert k in KeysOf(Range(|b.trajs|), b.trajs);
      assert k in order;
    }
  }

  method AgentScale(context: Context, batch: Batch) returns (outcome: Outcome)
    requires batch.Valid()
    modifies context, batch.lossScales
    ensures context.foldingScale == After(old(context.foldingScale), Agent)
    ensures outcome == if Allowed(old(context.foldingScale), Agent) then Applied else AssertionFailed
    ensures outcome.AssertionFailed? ==> batch.lossScales[..] == old(batch.lossScales[..])
    ensures outcome.Applied? ==> forall i :: 0 <= i < batch.lossScales.Length ==>
      batch.lossScales[i] == old(batch.lossScales[i]) * AgentFactor(batch.turns, i)
  {
    hide Pick;
    hide KeysOf;
    hide TrajTurns;
    hide AgentFactor;
    if !Allowed(context.foldingScale, Agent) {
      return AssertionFailed;
    }
    context.foldingScale := context.foldingScale + [Agent];
    var b, scales := batch.turns, batch.lossScales;
    var order, groups := GroupBy(Range(|b.trajs|), b.trajs);
    ghost var f, done: set<nat> := AgentFactors(b), {};
    for m := 0 to |order|
      invariant context.foldingScale == old(context.foldingScale) + [Agent]
      invariant ScaledOn(old(scales[..]), scales[..], f, done)
      invariant forall i: nat :: i in done <==> i < |b.trajs| && b.trajs[i] in order[..m]
    {
      var traj := order[m];
      assert traj in order;
      assert traj in groups;
      assert groups[traj] == TrajTurns(b, traj) by { TrajTurnsIs(b, traj); }
      NextTrajectory(b, order, m, done);
      ghost var before := scales[..];
      ScaleTrajectoryUniformly(batch, traj, groups[traj]);
      ScaledOnJoin(old(scales[..]), before, scales[..], f, done, Members(groups[traj]));
      done := done + Members(groups[traj]);
    }
    assert order[..|order|] == order;
    EveryTurnDone(b, order, done);
    outcome := Applied;
  }

  lemma TrajTurnsIs(b: Turns, traj: int)
    ensures TrajTurns(b, traj) == Pick(Range(|b.trajs|), b.trajs, traj)
  {
  }

  method TurnScale(context: Context, batch: Batch) returns (outcome: Outcome)
    requires batch.Valid()
    modifies context, batch.lossScales
    ensures context.foldingScale == After(old(context.foldingScale), Turn)
    ensures outcome.AssertionFailed? <==> !Allowed(old(context.foldingScale), Turn)
    ensures outcome.AssertionFailed? ==> batch.lossScales[..] == old(batch.lossScales[..])
    ensures outcome.Applied? <==> Allowed(old(context.foldingScale), Turn) && NoneSilent(batch.turns)
    ensures outcome.Applied? ==> forall i :: 0 <= i < batch.lossScales.Length ==>
      !Silent(batch.turns, i) && batch.lossScales[i] == old(batch.lossScales[i]) * TurnFactor(batch.turns, i)
  {
    hide Pick;
    hide KeysOf;
    hide TrajTurns;
    hide TurnFactor;
    hide Silent;
    if !Allowed(context.foldingScale, Turn) {
      return AssertionFailed;
    }
    context.foldingScale := context.foldingScale + [Turn];
    var b, scales := batch.turns, batch.lossScales;
    var order, groups := GroupBy(Range(|b.trajs|), b.trajs);
    ghost var f, done: set<nat> := TurnFactors(b), {};
    for m := 0 to |order|
      invariant context.foldingScale == old(context.foldingScale) + [Turn]
      invariant ScaledOn(old(scales[..]), scales[..], f, done)
      invariant forall i: nat :: i in done <==> i < |b.trajs| && b.trajs[i] in order[..m]
      invariant forall i :: i in done ==> !Silent(b, i)
    {
      var traj := order[m];
      assert traj in order;
      assert traj in groups;
      var idxs := groups[traj];
      assert idxs == TrajTurns(b, traj) by { TrajTurnsIs(b, traj); }
      NextTrajectory(b, order, m, done);
      ghost var before := scales[..];
      var ok := ScaleTrajectoryByTokens(batch, traj, idxs);
      if !ok {
        return ZeroDivision;
      }
      ScaledOnJoin(old(scales[..]), before, scales[..], f, done, Members(idxs));
      done := done + Members(idxs);
    }
    assert order[..|order|] == order;
    EveryTurnDone(b, order, done);
    outcome := Applied;
  }

  /** Each entry afterwards, times the batch size, is the entry before times turns times ranks. */
  ghost predicate Rescaled(before: seq<real>, after: seq<real>, turns: nat, worldSize: nat, batchSize: real) {
    |after| == |before| &&
    forall i :: 0 <= i < |after| ==> after[i] * batchSize == before[i] * (turns * worldSize) as real
  }

  lemma QuotientUndone(x: real, n: real, d: real)
    requires d != 0.0
    ensures (x * (n / d)) * d == x * n
  {
    assert n / d * d == n;
    assert (x * (n / d)) * d == x * (n / d * d);
  }

  method GroupScale(context: Context, batch: Batch) returns (outcome: Outcome)
    requires batch.Valid()
    modifies context, batch.advantages
    ensures context.foldingScale == After(old(context.foldingScale), Group)
    ensures outcome.AssertionFailed? <==> !Allowed(old(context.foldingScale), Group)
    ensures outcome.Applied? <==> Allowed(old(context.foldingScale), Group) && context.actorGlobalBatchSize != 0.0
    ensures !outcome.Applied? ==> batch.advantages[..] == old(batch.advantages[..])
    ensures outcome.Applied? ==> Rescaled(old(batch.advantages[..]), batch.advantages[..],
      |batch.turns.trajs|, context.worldSize, context.actorGlobalBatchSize)
  {
    if !Allowed(context.foldingScale, Group) {
      return AssertionFailed;
    }
    context.foldingScale := context.foldingScale + [Group];
    if context.actorGlobalBatchSize == 0.0 {
      return ZeroDivision;
    }
    var a := batch.advantages;
    ghost var before := a[..];
    var places, size := (|batch.turns.trajs| * context.worldSize) as real, context.actorGlobalBatchSize;
    var factor := places / size;
    for i := 0 to a.Length
      invariant context.foldingScale == old(context.foldingScale) + [Group]
      invariant forall j :: 0 <= j < a.Length ==> a[j] == if j < i then before[j] * factor else before[j]
    {
      a[i] := a[i] * factor;
    }
    forall i | 0 <= i < a.Length ensures (before[i] * factor) * size == before[i] * places {
      QuotientUndone(before[i], places, size);
    }
    outcome := Applied;
  }

  // ---------- a whole run ----------

  /** What n stages, in order, do to the weights of the turns. */
  ghost predicate Weighted(b: Turns, before: seq<real>, after: seq<real>, n: nat)
    requires Shaped(b)
  {
    |before| == |after| == |b.trajs| && forall i :: 0 <= i < |after| ==>
      after[i] == if n < 2 then before[i]
                  else if n == 2 then before[i] * AgentFactor(b, i)
                  else if Silent(b, i) then 0.0
                  else before[i] * (AgentFactor(b, i) * TurnFactor(b, i))
  }

  /** What one stage does to the weights of the turns. */
  ghost predicate Effect(b: Turns, stage: Stage, before: seq<real>, after: seq<real>)
    requires Shaped(b)
  {
    |before| == |after| == |b.trajs| &&
    match stage
    case Group => before == after
    case Agent => forall i :: 0 <= i < |after| ==> after[i] == before[i] * AgentFactor(b, i)
    case Turn => forall i :: 0 <= i < |after| ==> !Silent(b, i) && after[i] == before[i] * TurnFactor(b, i)
  }

  method ApplyStage(context: Context, batch: Batch, stage: Stage) returns (outcome: Outcome)
    requires batch.Valid()
    modifies context, batch.lossScales, batch.advantages
    ensures context.foldingScale == After(old(context.foldingScale), stage)
    ensures outcome.Applied? <==> Allowed(old(context.foldingScale), stage) &&
                                  (stage.Group? ==> context.actorGlobalBatchSize != 0.0) &&
                                  (stage.Turn? ==> NoneSilent(batch.turns))
    ensures outcome.Applied? ==> Effect(batch.turns, stage, old(batch.lossScales[..]), batch.lossScales[..])
    ensures outcome.Applied? && stage.Group? ==> Rescaled(old(batch.advantages[..]), batch.advantages[..],
      |batch.turns.trajs|, context.worldSize, context.actorGlobalBatchSize)
    ensures outcome.Applied? && !stage.Group? ==> batch.advantages[..] == old(batch.advantages[..])
  {
    hide AgentFactor;
    hide TurnFactor;
    hide Rescaled;
    hide Silent;
    ghost var scales, advantages := batch.lossScales[..], batch.advantages[..];
    match stage
    case Group =>
      outcome := GroupScale(context, batch);
      assert batch.lossScales[..] == scales;
    case Agent =>
      outcome := AgentScale(context, batch);
      assert batch.advantages[..] == advantages;
    case Turn =>
      outcome := TurnScale(context, batch);
      assert batch.advantages[..] == advantages;
  }

  lemma WeightedStep(b: Turns, s0: seq<real>, s1: seq<real>, s2: seq<real>, n: nat)
    requires Shaped(b) && n < 3 && Weighted(b, s0, s1, n) && Effect(b, FULL_ORDER[n], s1, s2)
    ensures Weighted(b, s0, s2, n + 1)
  {
    hide AgentFactor;
    hide TurnFactor;
    hide TokensOf;
    hide AgentTurns;
    if n == 2 {
      forall i | 0 <= i < |s2| ensures !Silent(b, i) && s2[i] == s0[i] * (AgentFactor(b, i) * TurnFactor(b, i)) {
        Regroup(s0[i], AgentFactor(b, i), TurnFactor(b, i));
      }
    }
  }

  lemma Regroup(x: real, y: real, z: real)
    ensures x * y * z == x * (y * z)
  {
  }

  lemma WeightedOnes(b: Turns, before: seq<real>, after: seq<real>, n: nat)
    requires Shaped(b) && 2 <= n <= 3 && Weighted(b, before, after, n) && (n == 3 ==> NoneSilent(b))
    requires forall i :: 0 <= i < |before| ==> before[i] == 1.0
    ensures AgentStage(b, after) || TurnStage(b, after)
    ensures forall traj :: traj in b.trajs ==> SumAt(after, TrajTurns(b, traj)) == 1.0
  {
    hide AgentFactor;
    hide TurnFactor;
    hide Silent;
    hide TrajTurns;
    hide SumAt;
    if n == 2 {
      assert AgentStage(b, after);
    } else {
      assert TurnStage(b, after);
    }
    forall traj | traj in b.trajs ensures SumAt(after, TrajTurns(b, traj)) == 1.0 {
      TrajectoryTotal(b, after, traj);
    }
  }

  /**
    The configured stages applied one after the other to a fresh context. They all apply exactly when they are a
    prefix of group, agent, turn and no divisor is zero; every trajectory then weighs 1 from the agent stage on.
  */
  method ApplyStages(context: Context, batch: Batch, stages: seq<Stage>) returns (outcome: Outcome)
    requires batch.Valid() && context.foldingScale == []
    modifies context, batch.lossScales, batch.advantages
    ensures InOrder(context.foldingScale)
    ensures outcome.Applied? <==> InOrder(stages) && (stages != [] ==> context.actorGlobalBatchSize != 0.0) &&
                                  (|stages| == 3 ==> NoneSilent(batch.turns))
    ensures outcome.Applied? ==> context.foldingScale == stages
    ensures outcome.Applied? ==> Weighted(batch.turns, old(batch.lossScales[..]), batch.lossScales[..], |stages|)
    ensures outcome.Applied? && |stages| >= 2 &&
            (forall i :: 0 <= i < batch.lossScales.Length ==> old(batch.lossScales[i]) == 1.0) ==>
      forall traj :: traj in batch.turns.trajs ==> SumAt(batch.lossScales[..], TrajTurns(batch.turns, traj)) == 1.0
    ensures outcome.Applied? && stages == [] ==> batch.advantages[..] == old(batch.advantages[..])
    ensures outcome.Applied? && stages != [] ==> Rescaled(old(batch.advantages[..]), batch.advantages[..],
      |batch.turns.trajs|, context.worldSize, context.actorGlobalBatchSize)
  {
    hide AgentFactor;
    hide TurnFactor;
    hide Rescaled;
    hide Silent;
    hide SumAt;
    hide TrajTurns;
    hide Allowed;
    hide Weighted;
    hide Effect;
    ghost var b, s0, a0 := batch.turns, batch.lossScales[..], batch.advantages[..];
    WeightedNone(b, s0);
    assert stages[..0] == [];
    for m := 0 to |stages|
      invariant context.foldingScale == stages[..m] && InOrder(stages[..m])
      invariant m > 0 ==> context.actorGlobalBatchSize != 0.0
      invariant m == 3 ==> NoneSilent(b)
      invariant Weighted(b, s0, batch.lossScales[..], m)
      invariant m == 0 ==> batch.advantages[..] == a0
      invariant m > 0 ==>
        Rescaled(a0, batch.advantages[..], |b.trajs|, context.worldSize, context.actorGlobalBatchSize)
    {
      assert stages[..m + 1] == stages[..m] + [stages[m]];
      AllowedIsNext(stages[..m], stages[m]);
      NextStageIs(stages[..m], stages[m]);
      PrefixOfOrder(stages, m + 1);
      ghost var s1 := batch.lossScales[..];
      outcome := ApplyStage(context, batch, stages[m]);
      if outcome != Applied {
        return;
      }
      WeightedStep(b, s0, s1, batch.lossScales[..], m);
    }
    assert stages[..|stages|] == stages;
    outcome := Applied;
    if |stages| >= 2 && forall i :: 0 <= i < |s0| ==> s0[i] == 1.0 {
      WeightedOnes(b, s0, batch.lossScales[..], |stages|);
    }
  }

  lemma WeightedNone(b: Turns, s: seq<real>)
    requires Shaped(b) && |s| == |b.trajs|
    ensures Weighted(b, s, s, 0)
  {
  }

  lemma PrefixOfOrder(stages: seq<Stage>, m: nat)
    requires m <= |stages|
    ensures InOrder(stages) ==> InOrder(stages[..m])
  {
  }

  lemma NextStageIs(folding: seq<Stage>, stage: Stage)
    requires InOrder(folding)
    ensures InOrder(folding + [stage]) <==> |folding| < 3 && stage == FULL_ORDER[|folding|]
  {
    var longer := folding + [stage];
    assert longer[|folding|] == stage;
    assert longer[..|folding|] == folding;
    if |folding| < 3 && stage == FULL_ORDER[|folding|] {
      assert FULL_ORDER[..|folding| + 1] == FULL_ORDER[..|folding|] + [stage];
    }
  }
}
