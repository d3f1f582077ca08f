/** The weights that the agent and turn stages give to the turns of a batch, and what they add up to. */
module LossWeights {
  import opened Grouping
  import opened Sequences

  /** The flattened turns: trajectory, agent within the trajectory, and valid response tokens of each. */
  datatype Turns = Turns(trajs: seq<int>, agents: seq<int>, tokens: seq<nat>)

  ghost predicate Shaped(b: Turns) {
    |b.trajs| == |b.agents| == |b.tokens|
  }

  /** The turns of a trajectory. */
  function TrajTurns(b: Turns, traj: int): (r: seq<nat>)
    ensures Indices(r, |b.trajs|)
  {
    PickAre(Range(|b.trajs|), b.trajs, traj);
    Pick(Range(|b.trajs|), b.trajs, traj)
  }

  /** The turns of one agent of a trajectory. */
  function AgentTurns(b: Turns, traj: int, agent: int): (r: seq<nat>)
    requires |b.agents| == |b.trajs|
    ensures Indices(r, |b.trajs|)
  {
    PickAre(TrajTurns(b, traj), b.agents, agent);
    Pick(TrajTurns(b, traj), b.agents, agent)
  }

  /** The agents of a trajectory. */
  function AgentsOf(b: Turns, traj: int): set<int>
    requires |b.agents| == |b.trajs|
  {
    KeysOf(TrajTurns(b, traj), b.agents)
  }

  lemma TurnHasAgent(b: Turns, i: nat)
    requires Shaped(b) && i < |b.trajs|
    ensures i in TrajTurns(b, b.trajs[i]) && i in AgentTurns(b, b.trajs[i], b.agents[i])
    ensures b.agents[i] in AgentsOf(b, b.trajs[i])
    ensures |AgentsOf(b, b.trajs[i])| >= 1 && |AgentTurns(b, b.trajs[i], b.agents[i])| >= 1
  {
    var turns := TrajTurns(b, b.trajs[i]);
    PickHas(Range(|b.trajs|), b.trajs, i);
    assert Range(|b.trajs|)[i] == i;
    var m :| 0 <= m < |turns| && turns[m] == i;
    PickHas(turns, b.agents, m);
  }

  function TokensOf(b: Turns, idxs: seq<nat>): (t: nat)
    requires forall i :: 0 <= i < |idxs| ==> idxs[i] < |b.tokens|
  {
    if idxs == [] then 0 else b.tokens[idxs[0]] + TokensOf(b, idxs[1..])
  }

  // ---------- the factors ----------

  /** `1 / A / T`. */
  function UniformWeight(agents: nat, turns: nat): real
    requires agents >= 1 && turns >= 1
  {
    1.0 / agents as real / turns as real
  }

  /** `1 * T * tokens / total`. */
  function TokenWeight(turns: nat, tokens: nat, total: nat): real
    requires total >= 1
  {
    (turns * tokens) as real / total as real
  }

  function AgentFactor(b: Turns, i: nat): real
    requires |b.trajs| == |b.agents| == |b.tokens| && i < |b.trajs|
  {
    TurnHasAgent(b, i);
    UniformWeight(|AgentsOf(b, b.trajs[i])|, |AgentTurns(b, b.trajs[i], b.agents[i])|)
  }

  /** Some agent has no valid token: the stage would divide by zero. */
  ghost predicate Silent(b: Turns, i: nat)
    requires Shaped(b) && i < |b.trajs|
  {
    TokensOf(b, AgentTurns(b, b.trajs[i], b.agents[i])) == 0
  }

  function TurnFactor(b: Turns, i: nat): real
    requires |b.trajs| == |b.agents| == |b.tokens| && i < |b.trajs|
    requires TokensOf(b, AgentTurns(b, b.trajs[i], b.agents[i])) >= 1
  {
    var turns := AgentTurns(b, b.trajs[i], b.agents[i]);
    TokenWeight(|turns|, b.tokens[i], TokensOf(b, turns))
  }

  /** The factor of a turn after both stages is 1 / A times its share of the agent's tokens. */
  function ShareWeight(agents: nat, tokens: nat, total: nat): real
    requires agents >= 1 && total >= 1
  {
    1.0 / agents as real * (tokens as real / total as real)
  }

  lemma WeightsCombine(agents: nat, turns: nat, tokens: nat, total: nat)
    requires agents >= 1 && turns >= 1 && total >= 1
    ensures UniformWeight(agents, turns) * TokenWeight(turns, tokens, total) == ShareWeight(agents, tokens, total)
  {
    var a, t, k, s := agents as real, turns as real, tokens as real, total as real;
    assert (turns * tokens) as real == t * k;
    var u := 1.0 / a;
    assert u / t * t == u;
    assert (t * k) / s == t * (k / s);
    assert (u / t) * (t * (k / s)) == (u / t * t) * (k / s);
  }

  lemma FactorsCombine(b: Turns, i: nat)
    requires Shaped(b) && i < |b.trajs| && !Silent(b, i)
    ensures |AgentsOf(b, b.trajs[i])| >= 1
    ensures AgentFactor(b, i) * TurnFactor(b, i)
         == ShareWeight(|AgentsOf(b, b.trajs[i])|, b.tokens[i], TokensOf(b, AgentTurns(b, b.trajs[i], b.agents[i])))
  {
    hide UniformWeight;
    hide TokenWeight;
    hide ShareWeight;
    hide AgentTurns;
    hide AgentsOf;
    TurnHasAgent(b, i);
    var turns := AgentTurns(b, b.trajs[i], b.agents[i]);
    WeightsCombine(|AgentsOf(b, b.trajs[i])|, |turns|, b.tokens[i], TokensOf(b, turns));
  }

  // ---------- conservation ----------

  /** The sum of w over the listed turns. */
  function SumAt(w: seq<real>, idxs: seq<nat>): real
    requires forall i :: 0 <= i < |idxs| ==> idxs[i] < |w|
  {
    if idxs == [] then 0.0 else w[idxs[0]] + SumAt(w, idxs[1..])
  }

  function Others(idxs: seq<nat>, keys: seq<int>, k: int): seq<nat>
    requires forall i :: 0 <= i < |idxs| ==> idxs[i] < |keys|
  {
    if idxs == [] then []
    else (if keys[idxs[0]] != k then [idxs[0]] else []) + Others(idxs[1..], keys, k)
  }

  lemma {:induction false} OthersIndices(idxs: seq<nat>, keys: seq<int>, k: int)
    requires Indices(idxs, |keys|)
    ensures Indices(Others(idxs, keys, k), |keys|)
  {
    if idxs == [] {
    } else {
      OthersIndices(idxs[1..], keys, k);
    }
  }

  lemma {:induction false} KeysOfOthers(idxs: seq<nat>, keys: seq<int>, k: int)
    requires Indices(idxs, |keys|) && Indices(Others(idxs, keys, k), |keys|)
    ensures KeysOf(Others(idxs, keys, k), keys) == KeysOf(idxs, keys) - {k}
  {
    hide KeysOf;
    if idxs == [] {
      KeysOfNone(keys);
    } else {
      OthersIndices(idxs[1..], keys, k);
      KeysOfOthers(idxs[1..], keys, k);
      KeysHead(idxs, keys);
      var rest := Others(idxs[1..], keys, k);
      if keys[idxs[0]] != k {
        KeysHead([idxs[0]] + rest, keys);
        assert ([idxs[0]] + rest)[1..] == rest;
      } else {
        assert [] + rest == rest;
      }
    }
  }

  lemma SumAtCons(w: seq<real>, i: nat, rest: seq<nat>)
    requires i < |w| && Indices(rest, |w|)
    ensures SumAt(w, [i] + rest) == w[i] + SumAt(w, rest)
  {
    assert ([i] + rest)[1..] == rest;
  }

  /** Each listed turn has key k or not. */
  lemma {:induction false} SumAtSplit(idxs: seq<nat>, keys: seq<int>, k: int, w: seq<real>)
    requires Indices(idxs, |keys|) && |w| == |keys|
    requires Indices(Others(idxs, keys, k), |w|) && Indices(Pick(idxs, keys, k), |w|)
    ensures SumAt(w, idxs) == SumAt(w, Pick(idxs, keys, k)) + SumAt(w, Others(idxs, keys, k))
  {
    if idxs == [] {
    } else {
      OthersIndices(idxs[1..], keys, k);
      PickAre(idxs[1..], keys, k);
      SumAtSplit(idxs[1..], keys, k, w);
      var same, rest := Pick(idxs[1..], keys, k), Others(idxs[1..], keys, k);
      assert [] + same == same && [] + rest == rest;
      if keys[idxs[0]] != k {
        SumAtCons(w, idxs[0], rest);
      } else {
        SumAtCons(w, idxs[0], same);
      }
    }
  }

  lemma {:induction false} PickOthers(idxs: seq<nat>, keys: seq<int>, k: int, j: int)
    requires Indices(idxs, |keys|) && j != k && Indices(Others(idxs, keys, k), |keys|)
    ensures Pick(Others(idxs, keys, k), keys, j) == Pick(idxs, keys, j)
  {
    if idxs == [] {
    } else {
      OthersIndices(idxs[1..], keys, k);
      PickOthers(idxs[1..], keys, k, j);
      var rest := Others(idxs[1..], keys, k);
      if keys[idxs[0]] != k {
        PickCons(idxs[0], rest, keys, j);
      } else {
        assert [] + rest == rest;
        assert [] + Pick(idxs[1..], keys, j) == Pick(idxs[1..], keys, j);
      }
    }
  }

  ghost predicate WeighEach(idxs: seq<nat>, keys: seq<int>, w: seq<real>, v: real)
    requires Indices(idxs, |keys|)
  {
    forall k :: k in KeysOf(idxs, keys) ==> Indices(Pick(idxs, keys, k), |w|) && SumAt(w, Pick(idxs, keys, k)) == v
  }

  lemma WeighOthers(idxs: seq<nat>, keys: seq<int>, w: seq<real>, v: real, k: int)
    requires Indices(idxs, |keys|) && |w| == |keys| && WeighEach(idxs, keys, w, v)
    requires Indices(Others(idxs, keys, k), |keys|)
    ensures WeighEach(Others(idxs, keys, k), keys, w, v)
  {
    hide KeysOf;
    KeysOfOthers(idxs, keys, k);
    forall j | j in KeysOf(Others(idxs, keys, k), keys)
      ensures Indices(Pick(Others(idxs, keys, k), keys, j), |w|) && SumAt(w, Pick(Others(idxs, keys, k), keys, j)) == v
    {
      PickOthers(idxs, keys, k, j);
    }
  }

  /** If every key's turns weigh v together, all turns weigh v times the number of keys. */
  lemma {:induction false} EqualShares(idxs: seq<nat>, keys: seq<int>, w: seq<real>, v: real)
    requires Indices(idxs, |keys|) && |w| == |keys| && WeighEach(idxs, keys, w, v)
    ensures SumAt(w, idxs) == |KeysOf(idxs, keys)| as real * v
    decreases |KeysOf(idxs, keys)|
  {
    hide KeysOf;
    hide Pick;
    hide Others;
    if idxs == [] {
      KeysOfNone(keys);
    } else {
      var all, k := KeysOf(idxs, keys), keys[idxs[0]];
      KeysHead(idxs, keys);
      PickAre(idxs, keys, k);
      OthersIndices(idxs, keys, k);
      SumAtSplit(idxs, keys, k, w);
      WeighOthers(idxs, keys, w, v, k);
      KeysOfOthers(idxs, keys, k);
      EqualShares(Others(idxs, keys, k), keys, w, v);
      OneShareMore(|all - {k}|, v);
    }
  }

  lemma OneShareMore(n: nat, v: real)
    ensures (n + 1) as real * v == v + n as real * v
  {
    assert (n + 1) as real == n as real + 1.0;
  }

  lemma {:induction false} SumAtConstant(w: seq<real>, idxs: seq<nat>, v: real)
    requires Indices(idxs, |w|) && forall i :: 0 <= i < |idxs| ==> w[idxs[i]] == v
    ensures SumAt(w, idxs) == |idxs| as real * v
  {
    if idxs == [] {
    } else {
      SumAtConstant(w, idxs[1..], v);
      OneShareMore(|idxs| - 1, v);
    }
  }

  lemma {:induction false} SumAtShares(b: Turns, w: seq<real>, idxs: seq<nat>, agents: nat, total: nat)
    requires |w| == |b.tokens| && Indices(idxs, |w|) && agents >= 1 && total >= 1
    requires forall i :: 0 <= i < |idxs| ==> w[idxs[i]] == ShareWeight(agents, b.tokens[idxs[i]], total)
    ensures SumAt(w, idxs) == ShareWeight(agents, TokensOf(b, idxs), total)
  {
    if idxs == [] {
      ShareZero(agents, total);
    } else {
      SumAtShares(b, w, idxs[1..], agents, total);
      ShareAdds(agents, b.tokens[idxs[0]], TokensOf(b, idxs[1..]), total);
    }
  }

  lemma ShareZero(agents: nat, total: nat)
    requires agents >= 1 && total >= 1
    ensures ShareWeight(agents, 0, total) == 0.0
  {
  }

  lemma ShareAdds(agents: nat, x: nat, y: nat, total: nat)
    requires agents >= 1 && total >= 1
    ensures ShareWeight(agents, x, total) + ShareWeight(agents, y, total) == ShareWeight(agents, x + y, total)
  {
    var u, s := 1.0 / agents as real, total as real;
    assert (x + y) as real == x as real + y as real;
    assert (x as real + y as real) / s == x as real / s + y as real / s;
    assert u * (x as real / s) + u * (y as real / s) == u * (x as real / s + y as real / s);
  }

  lemma UniformTotal(agents: nat, turns: nat)
    requires agents >= 1 && turns >= 1
    ensures turns as real * UniformWeight(agents, turns) == 1.0 / agents as real
  {
  }

  lemma ShareTotal(agents: nat, total: nat)
    requires agents >= 1 && total >= 1
    ensures ShareWeight(agents, total, total) == 1.0 / agents as real
  {
    assert total as real / total as real == 1.0;
  }

  lemma WholeTotal(agents: nat)
    requires agents >= 1
    ensures agents as real * (1.0 / agents as real) == 1.0
  {
  }

  ghost predicate AgentStage(b: Turns, w: seq<real>)
    requires Shaped(b)
  {
    |w| == |b.trajs| && forall i :: 0 <= i < |w| ==> w[i] == AgentFactor(b, i)
  }

  ghost predicate TurnStage(b: Turns, w: seq<real>)
    requires Shaped(b)
  {
    |w| == |b.trajs| && forall i :: 0 <= i < |w| ==> !Silent(b, i) && w[i] == AgentFactor(b, i) * TurnFactor(b, i)
  }

  lemma AgentStageTotal(b: Turns, w: seq<real>, traj: int, agent: int)
    requires Shaped(b) && AgentStage(b, w) && agent in AgentsOf(b, traj)
    ensures |AgentsOf(b, traj)| >= 1 && Indices(AgentTurns(b, traj, agent), |w|)
    ensures SumAt(w, AgentTurns(b, traj, agent)) == 1.0 / |AgentsOf(b, traj)| as real
  {
    hide UniformWeight;
    hide AgentTurns;
    hide AgentsOf;
    hide SumAt;
    var turns, agents := AgentTurns(b, traj, agent), |AgentsOf(b, traj)|;
    AgentTurnsAre(b, traj, agent);
    SumAtConstant(w, turns, UniformWeight(agents, |turns|));
    UniformTotal(agents, |turns|);
  }

  lemma SharedFactors(b: Turns, w: seq<real>, traj: int, agent: int)
    requires Shaped(b) && TurnStage(b, w) && agent in AgentsOf(b, traj)
    ensures var turns, agents := AgentTurns(b, traj, agent), |AgentsOf(b, traj)|;
            agents >= 1 && Indices(turns, |w|) && TokensOf(b, turns) >= 1 &&
            forall i :: 0 <= i < |turns| ==> w[turns[i]] == ShareWeight(agents, b.tokens[turns[i]], TokensOf(b, turns))
  {
    hide ShareWeight;
    hide AgentTurns;
    hide AgentsOf;
    hide AgentFactor;
    hide TurnFactor;
    hide TokensOf;
    var turns, agents := AgentTurns(b, traj, agent), |AgentsOf(b, traj)|;
    AgentTurnsAre(b, traj, agent);
    assert !Silent(b, turns[0]);
    forall i | 0 <= i < |turns|
      ensures w[turns[i]] == ShareWeight(agents, b.tokens[turns[i]], TokensOf(b, turns))
    {
      assert !Silent(b, turns[i]);
      FactorsCombine(b, turns[i]);
    }
  }

  lemma TurnStageTotal(b: Turns, w: seq<real>, traj: int, agent: int)
    requires Shaped(b) && TurnStage(b, w) && agent in AgentsOf(b, traj)
    ensures |AgentsOf(b, traj)| >= 1 && Indices(AgentTurns(b, traj, agent), |w|)
    ensures SumAt(w, AgentTurns(b, traj, agent)) == 1.0 / |AgentsOf(b, traj)| as real
  {
    hide ShareWeight;
    hide AgentTurns;
    hide AgentsOf;
    hide AgentFactor;
    hide TurnFactor;
    hide TokensOf;
    hide SumAt;
    hide Silent;
    var turns, agents := AgentTurns(b, traj, agent), |AgentsOf(b, traj)|;
    SharedFactors(b, w, traj, agent);
    SumAtShares(b, w, turns, agents, TokensOf(b, turns));
    ShareTotal(agents, TokensOf(b, turns));
  }

  /** After the agent stage, and after the turn stage too, the turns of each agent weigh 1 / A together. */
  lemma AgentTotal(b: Turns, w: seq<real>, traj: int, agent: int)
    requires Shaped(b) && (AgentStage(b, w) || TurnStage(b, w)) && agent in AgentsOf(b, traj)
    ensures |AgentsOf(b, traj)| >= 1 && Indices(AgentTurns(b, traj, agent), |w|)
    ensures SumAt(w, AgentTurns(b, traj, agent)) == 1.0 / |AgentsOf(b, traj)| as real
  {
    hide AgentTurns;
    hide AgentsOf;
    hide SumAt;
    hide AgentStage;
    hide TurnStage;
    if AgentStage(b, w) {
      AgentStageTotal(b, w, traj, agent);
    } else {
      TurnStageTotal(b, w, traj, agent);
    }
  }

  lemma AgentTurnsAre(b: Turns, traj: int, agent: int)
    requires Shaped(b) && agent in AgentsOf(b, traj)
    ensures var turns := AgentTurns(b, traj, agent);
            |turns| >= 1 && |AgentsOf(b, traj)| >= 1 &&
            forall i :: 0 <= i < |turns| ==> b.trajs[turns[i]] == traj && b.agents[turns[i]] == agent
  {
    var all, turns := TrajTurns(b, traj), AgentTurns(b, traj, agent);
    PickAre(Range(|b.trajs|), b.trajs, traj);
    PickAre(all, b.agents, agent);
    var m :| 0 <= m < |all| && b.agents[all[m]] == agent;
    PickHas(all, b.agents, m);
    forall i | 0 <= i < |turns| ensures b.trajs[turns[i]] == traj {
      var j :| 0 <= j < |all| && all[j] == turns[i];
    }
  }

  lemma TrajectoryHasAgents(b: Turns, traj: int)
    requires Shaped(b) && traj in b.trajs
    ensures |AgentsOf(b, traj)| >= 1
  {
    var i :| 0 <= i < |b.trajs| && b.trajs[i] == traj;
    TurnHasAgent(b, i);
  }

  /** ... and the turns of every trajectory weigh 1 together. */
  lemma TrajectoryTotal(b: Turns, w: seq<real>, traj: int)
    requires Shaped(b) && (AgentStage(b, w) || TurnStage(b, w)) && traj in b.trajs
    ensures Indices(TrajTurns(b, traj), |w|) && SumAt(w, TrajTurns(b, traj)) == 1.0
  {
    hide AgentStage;
    hide TurnStage;
    hide TrajTurns;
    hide SumAt;
    hide KeysOf;
    hide Pick;
    TrajectoryHasAgents(b, traj);
    var agents := AgentsOf(b, traj);
    WeightsLength(b, w);
    forall a | a in agents
      ensures Indices(AgentTurns(b, traj, a), |w|) && SumAt(w, AgentTurns(b, traj, a)) == 1.0 / |agents| as real
    {
      AgentTotal(b, w, traj, a);
    }
    assert WeighEach(TrajTurns(b, traj), b.agents, w, 1.0 / |agents| as real);
    EqualShares(TrajTurns(b, traj), b.agents, w, 1.0 / |agents| as real);
    WholeTotal(|agents|);
  }

  lemma WeightsLength(b: Turns, w: seq<real>)
    requires Shaped(b) && (AgentStage(b, w) || TurnStage(b, w))
    ensures |w| == |b.trajs|
  {
  }
}
