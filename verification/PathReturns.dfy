/**
 * What the values of the strategy computation are in terms of the worths alone: the best discounted descent along any
 * path of transitions.
 */
module PathReturns {
  import opened ValueIteration
  import opened StrategySolver

  // ----- Paths -----

  /** Transitions that follow each other from a vertex, each given by its number. */
  ghost predicate IsPath(g: seq<Vertex>, v: nat, ks: seq<nat>)
    requires Valid(g) && v < |g|
    decreases |ks|
  {
    ks == [] || (ks[0] < |g[v].out| && IsPath(g, Next(g, v, ks[0]), ks[1..]))
  }

  /** Where a transition leads. */
  ghost function Next(g: seq<Vertex>, v: nat, k: nat): (t: nat)
    requires Valid(g) && v < |g| && k < |g[v].out|
    ensures v < t < |g|
  {
    assert ValidOut(g, v);
    g[v].out[k].target
  }

  ghost function EndOf(g: seq<Vertex>, v: nat, ks: seq<nat>): (t: nat)
    requires Valid(g) && v < |g| && IsPath(g, v, ks)
    ensures v <= t < |g|
    decreases |ks|
  {
    if ks == [] then v else EndOf(g, Next(g, v, ks[0]), ks[1..])
  }

  /**
   * What is collected on a path: the descent in worth of each transition, weighted by its probability and by the
   * probabilities and discounts of all transitions before it.
   */
  ghost function Collected(g: seq<Vertex>, gamma: real, v: nat, ks: seq<nat>, weight: real): (r: real)
    requires Valid(g) && v < |g| && IsPath(g, v, ks)
    decreases |ks|
  {
    if ks == [] then 0.0
    else
      var e, t := g[v].out[ks[0]], Next(g, v, ks[0]);
      Weighed(weight, e.prob, g[v].worth - g[t].worth) + Collected(g, gamma, t, ks[1..], Weighed(weight, e.prob, gamma))
  }

  function Weighed(weight: real, prob: real, x: real): (r: real) { weight * prob * x }

  lemma WeighedMoves(a: real, b: real, p: real, x: real)
    ensures Weighed(Weighted(a, b), p, x) == Weighted(a, Weighed(b, p, x))
  {
    assert (a * b) * p * x == a * (b * p * x);
  }

  lemma ProductSplits(a: real, x: real, y: real)
    ensures Weighted(a, x + y) == Weighted(a, x) + Weighted(a, y)
  {}

  /** The weight is a factor of all that is collected. */
  lemma {:induction false} CollectedScales(g: seq<Vertex>, gamma: real, v: nat, ks: seq<nat>, a: real, b: real)
    requires Valid(g) && v < |g| && IsPath(g, v, ks)
    ensures Collected(g, gamma, v, ks, Weighted(a, b)) == Weighted(a, Collected(g, gamma, v, ks, b))
    decreases |ks|
  {
    ProductSplits(a, 0.0, 0.0);
    if ks != [] {
      var p, t := g[v].out[ks[0]].prob, Next(g, v, ks[0]);
      var d, rest := g[v].worth - g[t].worth, ks[1..];
      hide Weighed, Weighted;
      WeighedMoves(a, b, p, d);
      WeighedMoves(a, b, p, gamma);
      CollectedScales(g, gamma, t, rest, a, Weighed(b, p, gamma));
      ProductSplits(a, Weighed(b, p, d), Collected(g, gamma, t, rest, Weighed(b, p, gamma)));
    }
  }

  /** The first transition, and what follows it. */
  lemma CollectedFirst(g: seq<Vertex>, gamma: real, v: nat, ks: seq<nat>)
    requires Valid(g) && v < |g| && IsPath(g, v, ks) && ks != []
    ensures var e, t := g[v].out[ks[0]], Next(g, v, ks[0]);
      Collected(g, gamma, v, ks, 1.0)
      == Gain(e.prob, g[v].worth - g[t].worth, gamma, Collected(g, gamma, t, ks[1..], 1.0))
  {
    var p, t := g[v].out[ks[0]].prob, Next(g, v, ks[0]);
    var d, c := g[v].worth - g[t].worth, Collected(g, gamma, t, ks[1..], 1.0);
    hide Weighed, Weighted, Gain;
    CollectedScales(g, gamma, t, ks[1..], Weighed(1.0, p, gamma), 1.0);
    TimesOne(Weighed(1.0, p, gamma));
    FirstStep(p, d, gamma, c);
  }

  lemma TimesOne(x: real)
    ensures Weighted(x, 1.0) == x
  {}

  lemma FirstStep(p: real, d: real, gamma: real, c: real)
    ensures Weighed(1.0, p, d) + Weighted(Weighed(1.0, p, gamma), c) == Gain(p, d, gamma, c)
  {
    assert p * (gamma * c) == (p * gamma) * c;
    ProductSplits(p, d, gamma * c);
  }

  lemma {:induction false} OptimalCovers(g: seq<Vertex>, gamma: real, v: nat, k: nat, j: nat)
    requires Valid(g) && v < |g| && j < k <= |g[v].out|
    ensures Gain(g[v].out[j].prob, g[v].worth - g[Next(g, v, j)].worth, gamma, OptimalOf(g, gamma, Next(g, v, j)))
      <= Optimal(g, gamma, v, k)
    decreases k
  {
    hide Gain;
    if j < k - 1 {
      OptimalCovers(g, gamma, v, k - 1, j);
    }
  }

  /** No path collects more than the optimum. */
  lemma {:induction false} PathAtMostOptimal(g: seq<Vertex>, gamma: real, v: nat, ks: seq<nat>)
    requires Valid(g) && gamma >= 0.0 && v < |g| && IsPath(g, v, ks)
    ensures Collected(g, gamma, v, ks, 1.0) <= OptimalOf(g, gamma, v)
    decreases |ks|
  {
    if ks != [] {
      var e, t := g[v].out[ks[0]], Next(g, v, ks[0]);
      PathAtMostOptimal(g, gamma, t, ks[1..]);
      CollectedFirst(g, gamma, v, ks);
      assert ValidOut(g, v);
      hide Gain, Collected, Optimal;
      var c := Collected(g, gamma, t, ks[1..], 1.0);
      GainMonotone(e.prob, g[v].worth - g[t].worth, gamma, c, OptimalOf(g, gamma, t));
      OptimalCovers(g, gamma, v, |g[v].out|, ks[0]);
    }
  }

  /** Some path collects the optimum. */
  lemma {:induction false} OptimalPath(g: seq<Vertex>, gamma: real, v: nat, k: nat) returns (ks: seq<nat>)
    requires Valid(g) && v < |g| && k <= |g[v].out|
    ensures IsPath(g, v, ks) && Collected(g, gamma, v, ks, 1.0) == Optimal(g, gamma, v, k)
    decreases |g| - v, k
  {
    if k == 0 {
      ks := [];
    } else {
      var e, t := g[v].out[k - 1], Next(g, v, k - 1);
      var r := Gain(e.prob, g[v].worth - g[t].worth, gamma, OptimalOf(g, gamma, t));
      hide Gain;
      if r > Optimal(g, gamma, v, k - 1) {
        var rest := OptimalPath(g, gamma, t, |g[t].out|);
        ks := [k - 1] + rest;
        assert ks[1..] == rest;
        CollectedFirst(g, gamma, v, ks);
      } else {
        ks := OptimalPath(g, gamma, v, k - 1);
      }
    }
  }

  /** The optimum of a vertex is the most that any path from it collects. */
  lemma OptimalIsBestPath(g: seq<Vertex>, gamma: real, v: nat)
    requires Valid(g) && gamma >= 0.0 && v < |g|
    ensures forall ks :: IsPath(g, v, ks) ==> Collected(g, gamma, v, ks, 1.0) <= OptimalOf(g, gamma, v)
    ensures exists ks :: IsPath(g, v, ks) && Collected(g, gamma, v, ks, 1.0) == OptimalOf(g, gamma, v)
  {
    hide Collected, Optimal, IsPath;
    forall ks | IsPath(g, v, ks)
      ensures Collected(g, gamma, v, ks, 1.0) <= OptimalOf(g, gamma, v)
    {
      PathAtMostOptimal(g, gamma, v, ks);
    }
    var best := OptimalPath(g, gamma, v, |g[v].out|);
  }

  // ----- Certain, undiscounted transitions -----

  ghost predicate Certain(g: seq<Vertex>) {
    forall v, k :: 0 <= v < |g| && 0 <= k < |g[v].out| ==> g[v].out[k].prob == 1.0
  }

  /** Then a path collects the whole descent from its start to its end. */
  lemma {:induction false} Telescopes(g: seq<Vertex>, v: nat, ks: seq<nat>)
    requires Valid(g) && Certain(g) && v < |g| && IsPath(g, v, ks)
    ensures Collected(g, 1.0, v, ks, 1.0) == g[v].worth - g[EndOf(g, v, ks)].worth
    decreases |ks|
  {
    if ks != [] {
      Telescopes(g, Next(g, v, ks[0]), ks[1..]);
      assert g[v].out[ks[0]].prob == 1.0;
    }
  }

  /** So the optimum is the worth of the vertex less the least worth that can be reached from it. */
  lemma OptimalIsDescent(g: seq<Vertex>, v: nat)
    requires Valid(g) && Certain(g) && v < |g|
    ensures forall ks :: IsPath(g, v, ks) ==> g[v].worth - OptimalOf(g, 1.0, v) <= g[EndOf(g, v, ks)].worth
    ensures exists ks :: IsPath(g, v, ks) && g[v].worth - OptimalOf(g, 1.0, v) == g[EndOf(g, v, ks)].worth
  {
    hide Collected, Optimal, IsPath, EndOf;
    forall ks | IsPath(g, v, ks)
      ensures g[v].worth - OptimalOf(g, 1.0, v) <= g[EndOf(g, v, ks)].worth
    {
      PathAtMostOptimal(g, 1.0, v, ks);
      Telescopes(g, v, ks);
    }
    var best := OptimalPath(g, 1.0, v, |g[v].out|);
    Telescopes(g, v, best);
  }

  // ----- Who has a strategy -----

  /** A vertex with a possible transition to one of lower worth gets a strategy. */
  lemma DescentHasStrategy(g: seq<Vertex>, gamma: real, eps: real, val: seq<real>, strategy: map<nat, Edge>, v: nat,
                           k: nat)
    requires Valid(g) && gamma >= 0.0 && eps >= 0.0 && |val| == |g| && v < |g| && Consistent(g, gamma, val, strategy)
    requires forall u :: 0 <= u < |g| ==> BestOf(g, gamma, val, u) <= val[u] * (1.0 + eps)
    requires k < |g[v].out| && g[v].out[k].prob > 0.0 && g[Next(g, v, k)].worth < g[v].worth
    ensures v in strategy && val[v] > 0.0
  {
    var e, t := g[v].out[k], Next(g, v, k);
    assert 0.0 <= val[t] && 0.0 <= val[v];
    PositiveGain(e.prob, g[v].worth - g[t].worth, gamma, val[t]);
    BestCovers(g, gamma, val, v, |g[v].out|, k);
    assert BestOf(g, gamma, val, v) <= val[v] * (1.0 + eps);
  }

  lemma PositiveGain(prob: real, reward: real, gamma: real, value: real)
    requires prob > 0.0 && reward > 0.0 && gamma >= 0.0 && value >= 0.0
    ensures Gain(prob, reward, gamma, value) > 0.0
  {
    assert gamma * value >= 0.0;
  }

  /** No path from the vertex leads over a transition that descends. */
  ghost predicate NoDescent(g: seq<Vertex>, v: nat)
    requires Valid(g) && v < |g|
  {
    forall ks, k: nat :: IsPath(g, v, ks) && k < |g[EndOf(g, v, ks)].out| ==>
      g[EndOf(g, v, ks)].worth <= g[Next(g, EndOf(g, v, ks), k)].worth
  }

  lemma NoDescentNext(g: seq<Vertex>, v: nat, k: nat)
    requires Valid(g) && v < |g| && k < |g[v].out| && NoDescent(g, v)
    ensures g[v].worth <= g[Next(g, v, k)].worth && NoDescent(g, Next(g, v, k))
  {
    assert IsPath(g, v, []) && EndOf(g, v, []) == v;
    var t := Next(g, v, k);
    forall ks, j: nat | IsPath(g, t, ks) && j < |g[EndOf(g, t, ks)].out|
      ensures g[EndOf(g, t, ks)].worth <= g[Next(g, EndOf(g, t, ks), j)].worth
    {
      var longer := [k] + ks;
      assert longer[1..] == ks;
      assert IsPath(g, v, longer) && EndOf(g, v, longer) == EndOf(g, t, ks);
    }
  }

  lemma NoGain(prob: real, reward: real, gamma: real)
    requires prob >= 0.0 && reward <= 0.0
    ensures Gain(prob, reward, gamma, 0.0) <= 0.0
  {}

  lemma {:induction false} NoDescentNoReturn(g: seq<Vertex>, gamma: real, v: nat, k: nat)
    requires Valid(g) && v < |g| && k <= |g[v].out| && NoDescent(g, v)
    ensures Optimal(g, gamma, v, k) == 0.0
    decreases |g| - v, k
  {
    hide NoDescent, Gain;
    if k > 0 {
      var t := Next(g, v, k - 1);
      NoDescentNext(g, v, k - 1);
      NoDescentNoReturn(g, gamma, v, k - 1);
      NoDescentNoReturn(g, gamma, t, |g[t].out|);
      assert ValidOut(g, v);
      NoGain(g[v].out[k - 1].prob, g[v].worth - g[t].worth, gamma);
    }
  }

  /** A vertex from which nothing descends has the value zero and no strategy. */
  lemma NoDescentNoStrategy(g: seq<Vertex>, gamma: real, val: seq<real>, strategy: map<nat, Edge>, v: nat)
    requires Valid(g) && gamma >= 0.0 && |val| == |g| && v < |g| && Consistent(g, gamma, val, strategy)
    requires NoDescent(g, v)
    ensures val[v] == 0.0 && v !in strategy
  {
    hide NoDescent;
    NoDescentNoReturn(g, gamma, v, |g[v].out|);
    ValuesAtMostOptimal(g, gamma, val, strategy, v);
  }
}
