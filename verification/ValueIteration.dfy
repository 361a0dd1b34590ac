/** Value iteration over the exploration graph: what the strategy computation reaches, and when it stops. */
module ValueIteration {

  /** A transition: where it leads, how probable it is, and the action it stands for. */
  datatype Edge = Edge(target: nat, prob: real, action: int)

  /** A configuration: what the objective function estimates for it, and the transitions out of it. */
  datatype Vertex = Vertex(worth: real, out: seq<Edge>)

  /** The vertices in topological order, sources first, with non-negative probabilities. */
  ghost predicate Valid(g: seq<Vertex>) {
    forall v :: 0 <= v < |g| ==> ValidOut(g, v)
  }

  ghost predicate ValidOut(g: seq<Vertex>, v: nat)
    requires v < |g|
  {
    forall k :: 0 <= k < |g[v].out| ==> v < g[v].out[k].target < |g| && g[v].out[k].prob >= 0.0
  }

  /** Longest path to a leaf over the first `k` transitions of a vertex. */
  ghost function Height(g: seq<Vertex>, v: nat, k: nat): (h: nat)
    requires Valid(g) && v < |g| && k <= |g[v].out|
    decreases |g| - v, k
  {
    if k == 0 then 0
    else
      assert ValidOut(g, v);
      var t := g[v].out[k - 1].target;
      Max(Height(g, v, k - 1), 1 + Height(g, t, |g[t].out|))
  }

  function Max(x: nat, y: nat): (m: nat) { if x > y then x else y }

  ghost function HeightOf(g: seq<Vertex>, v: nat): (h: nat)
    requires Valid(g) && v < |g|
  {
    Height(g, v, |g[v].out|)
  }

  /** The greatest height among the vertices from `v` on. */
  ghost function Depth(g: seq<Vertex>, v: nat): (h: nat)
    requires Valid(g) && v <= |g|
    decreases |g| - v
  {
    if v == |g| then 0 else Max(HeightOf(g, v), Depth(g, v + 1))
  }

  lemma {:induction false} DepthCovers(g: seq<Vertex>, from: nat, v: nat)
    requires Valid(g) && from <= v < |g|
    ensures HeightOf(g, v) <= Depth(g, from)
    decreases v - from
  {
    if from < v {
      DepthCovers(g, from + 1, v);
    }
  }

  lemma {:induction false} HeightDrops(g: seq<Vertex>, v: nat, k: nat, j: nat)
    requires Valid(g) && v < |g| && j < k <= |g[v].out|
    ensures g[v].out[j].target < |g|
    ensures HeightOf(g, g[v].out[j].target) < Height(g, v, k)
    decreases k
  {
    assert ValidOut(g, v);
    if j < k - 1 {
      HeightDrops(g, v, k - 1, j);
    }
  }

  function Gain(prob: real, reward: real, gamma: real, value: real): (r: real) {
    prob * (reward + gamma * value)
  }

  /** The discounted return of a transition. */
  function Return(g: seq<Vertex>, gamma: real, val: seq<real>, v: nat, e: Edge): (r: real)
    requires v < |g| == |val| && e.target < |g|
  {
    Gain(e.prob, g[v].worth - g[e.target].worth, gamma, val[e.target])
  }

  /** The best return of the first `k` transitions, at least zero. */
  ghost function Best(g: seq<Vertex>, gamma: real, val: seq<real>, v: nat, k: nat): (r: real)
    requires Valid(g) && v < |g| == |val| && k <= |g[v].out|
    ensures r >= 0.0
    decreases k
  {
    if k == 0 then 0.0
    else
      assert ValidOut(g, v);
      var r, b := Return(g, gamma, val, v, g[v].out[k - 1]), Best(g, gamma, val, v, k - 1);
      if r > b then r else b
  }

  ghost function BestOf(g: seq<Vertex>, gamma: real, val: seq<real>, v: nat): (r: real)
    requires Valid(g) && v < |g| == |val|
    ensures r >= 0.0
  {
    Best(g, gamma, val, v, |g[v].out|)
  }

  lemma {:induction false} BestCovers(g: seq<Vertex>, gamma: real, val: seq<real>, v: nat, k: nat, j: nat)
    requires Valid(g) && v < |g| == |val| && j < k <= |g[v].out|
    ensures g[v].out[j].target < |g| && Return(g, gamma, val, v, g[v].out[j]) <= Best(g, gamma, val, v, k)
    decreases k
  {
    assert ValidOut(g, v);
    hide Return;
    if j < k - 1 {
      BestCovers(g, gamma, val, v, k - 1, j);
    }
  }

  ghost predicate Below(x: seq<real>, y: seq<real>) {
    |x| == |y| && forall v :: 0 <= v < |x| ==> x[v] <= y[v]
  }

  lemma GainMonotone(prob: real, reward: real, gamma: real, x: real, y: real)
    requires prob >= 0.0 && gamma >= 0.0 && x <= y
    ensures Gain(prob, reward, gamma, x) <= Gain(prob, reward, gamma, y)
  {
    assert gamma * x <= gamma * y;
  }

  /** Better values of the later vertices give no worse returns. */
  lemma {:induction false} BestMonotone(g: seq<Vertex>, gamma: real, x: seq<real>, y: seq<real>, v: nat, k: nat)
    requires Valid(g) && gamma >= 0.0 && v < |g| == |x| == |y| && k <= |g[v].out|
    requires forall u :: v < u < |g| ==> x[u] <= y[u]
    ensures Best(g, gamma, x, v, k) <= Best(g, gamma, y, v, k)
    decreases k
  {
    hide Gain;
    if k > 0 {
      assert ValidOut(g, v);
      var e := g[v].out[k - 1];
      BestMonotone(g, gamma, x, y, v, k - 1);
      GainMonotone(e.prob, g[v].worth - g[e.target].worth, gamma, x[e.target], y[e.target]);
    }
  }

  /** A vertex's best return depends on the values of lower vertices only. */
  lemma {:induction false} BestLocal(g: seq<Vertex>, gamma: real, x: seq<real>, y: seq<real>, v: nat, k: nat)
    requires Valid(g) && v < |g| == |x| == |y| && k <= |g[v].out|
    requires forall u :: v < u < |g| && HeightOf(g, u) < Height(g, v, k) ==> x[u] == y[u]
    ensures Best(g, gamma, x, v, k) == Best(g, gamma, y, v, k)
    decreases k
  {
    hide Gain;
    if k > 0 {
      assert ValidOut(g, v);
      BestLocal(g, gamma, x, y, v, k - 1);
      HeightDrops(g, v, k, k - 1);
    }
  }

  // ----- The optimum -----

  /** The value of a vertex under the best choice everywhere: the solution of the Bellman equations. */
  ghost function Optimal(g: seq<Vertex>, gamma: real, v: nat, k: nat): (r: real)
    requires Valid(g) && v < |g| && k <= |g[v].out|
    ensures r >= 0.0
    decreases |g| - v, k
  {
    if k == 0 then 0.0
    else
      assert ValidOut(g, v);
      var e := g[v].out[k - 1];
      var r := Gain(e.prob, g[v].worth - g[e.target].worth, gamma, Optimal(g, gamma, e.target, |g[e.target].out|));
      var b := Optimal(g, gamma, v, k - 1);
      if r > b then r else b
  }

  ghost function OptimalOf(g: seq<Vertex>, gamma: real, v: nat): (r: real)
    requires Valid(g) && v < |g|
    ensures r >= 0.0
  {
    Optimal(g, gamma, v, |g[v].out|)
  }

  /** Values that do not exceed their best returns do not exceed the optimum. */
  lemma {:induction false} AtMostOptimal(g: seq<Vertex>, gamma: real, val: seq<real>, v: nat, k: nat)
    requires Valid(g) && gamma >= 0.0 && v < |g| == |val| && k <= |g[v].out|
    requires forall u :: v < u < |g| ==> val[u] <= BestOf(g, gamma, val, u)
    ensures Best(g, gamma, val, v, k) <= Optimal(g, gamma, v, k)
    decreases |g| - v, k
  {
    hide Gain;
    if k > 0 {
      assert ValidOut(g, v);
      var e := g[v].out[k - 1];
      AtMostOptimal(g, gamma, val, v, k - 1);
      AtMostOptimal(g, gamma, val, e.target, |g[e.target].out|);
      GainMonotone(e.prob, g[v].worth - g[e.target].worth, gamma, val[e.target], OptimalOf(g, gamma, e.target));
    }
  }

  /** The Bellman equations have one solution. */
  lemma {:induction false} FixpointIsOptimal(g: seq<Vertex>, gamma: real, val: seq<real>, v: nat, k: nat)
    requires Valid(g) && v < |g| == |val| && k <= |g[v].out|
    requires forall u :: v < u < |g| ==> val[u] == BestOf(g, gamma, val, u)
    ensures Best(g, gamma, val, v, k) == Optimal(g, gamma, v, k)
    decreases |g| - v, k
  {
    hide Gain;
    if k > 0 {
      assert ValidOut(g, v);
      var e := g[v].out[k - 1];
      FixpointIsOptimal(g, gamma, val, v, k - 1);
      FixpointIsOptimal(g, gamma, val, e.target, |g[e.target].out|);
    }
  }
}
