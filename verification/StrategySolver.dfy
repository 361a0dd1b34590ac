/** The sweeps of the strategy computation. */
module StrategySolver {
  import opened ValueIteration

  /** What the strategy computation promises of the values and the chosen actions. */
  ghost predicate Consistent(g: seq<Vertex>, gamma: real, val: seq<real>, strategy: map<nat, Edge>)
    requires Valid(g) && |val| == |g|
  {
    && (forall v :: 0 <= v < |g| ==> 0.0 <= val[v] <= BestOf(g, gamma, val, v))
    && (forall v: nat :: v in strategy <==> v < |g| && val[v] > 0.0)
    && (forall v: nat :: v in strategy && v < |g| ==> Chosen(g, gamma, val, v, strategy[v]))
  }

  /** A transition out of the vertex whose return is at least the vertex's value. */
  ghost predicate Chosen(g: seq<Vertex>, gamma: real, val: seq<real>, v: nat, e: Edge)
    requires Valid(g) && v < |g| == |val|
  {
    e in g[v].out && e.target < |g| && e.prob >= 0.0 && v < e.target && Return(g, gamma, val, v, e) >= val[v]
  }

  /** The value would not be changed by another visit. */
  ghost predicate Settled(g: seq<Vertex>, gamma: real, eps: real, val: seq<real>, v: nat)
    requires Valid(g) && v < |g| == |val|
  {
    BestOf(g, gamma, val, v) <= val[v] * (1.0 + eps)
  }

  lemma Raised(x: real, eps: real, y: real)
    requires x >= 0.0 && eps >= 0.0 && y > x * (1.0 + eps)
    ensures y > x && y <= y * (1.0 + eps)
  {
    assert x * eps >= 0.0;
    assert y * eps >= 0.0;
  }

  /** Raising one value keeps the values within their best returns and the chosen transitions good. */
  lemma ConsistentAfter(g: seq<Vertex>, gamma: real, val: seq<real>, strategy: map<nat, Edge>, v: nat, e: Edge)
    requires Valid(g) && gamma >= 0.0 && |val| == |g| && v < |g| && Consistent(g, gamma, val, strategy)
    requires e in g[v].out && e.target < |g| && Return(g, gamma, val, v, e) == BestOf(g, gamma, val, v) > val[v]
    ensures Consistent(g, gamma, val[v := BestOf(g, gamma, val, v)], strategy[v := e])
  {
    hide Return, BestOf;
    var next := val[v := BestOf(g, gamma, val, v)];
    forall u | 0 <= u < |g|
      ensures next[u] <= BestOf(g, gamma, next, u)
    {
      BestRises(g, gamma, val, v, u);
    }
    var k :| 0 <= k < |g[v].out| && g[v].out[k] == e;
    assert ValidOut(g, v);
    var chosen := strategy[v := e];
    forall u: nat | u in chosen
      ensures u < |g| && Chosen(g, gamma, next, u, chosen[u])
    {
      if u == v {
        ReturnRises(g, gamma, val, v, u, e);
      } else {
        assert Chosen(g, gamma, val, u, strategy[u]);
        ReturnRises(g, gamma, val, v, u, strategy[u]);
      }
    }
  }

  lemma BestRises(g: seq<Vertex>, gamma: real, val: seq<real>, v: nat, u: nat)
    requires Valid(g) && gamma >= 0.0 && |val| == |g| && v < |g| && u < |g| && BestOf(g, gamma, val, v) >= val[v]
    ensures BestOf(g, gamma, val, u) <= BestOf(g, gamma, val[v := BestOf(g, gamma, val, v)], u)
  {
    BestMonotone(g, gamma, val, val[v := BestOf(g, gamma, val, v)], u, |g[u].out|);
  }

  lemma ReturnRises(g: seq<Vertex>, gamma: real, val: seq<real>, v: nat, u: nat, e: Edge)
    requires Valid(g) && gamma >= 0.0 && |val| == |g| && v < |g| && u < |g| && BestOf(g, gamma, val, v) >= val[v]
    requires e.target < |g| && e.prob >= 0.0
    ensures Return(g, gamma, val, u, e) <= Return(g, gamma, val[v := BestOf(g, gamma, val, v)], u, e)
  {
    hide Gain;
    var next := val[v := BestOf(g, gamma, val, v)];
    GainMonotone(e.prob, g[u].worth - g[e.target].worth, gamma, val[e.target], next[e.target]);
  }

  /** Raising a value leaves every vertex settled that is no higher. */
  lemma SettledAfter(g: seq<Vertex>, gamma: real, eps: real, val: seq<real>, v: nat, x: real, u: nat)
    requires Valid(g) && |val| == |g| && v < |g| && u < |g| && u != v
    requires HeightOf(g, u) <= HeightOf(g, v) && Settled(g, gamma, eps, val, u)
    ensures Settled(g, gamma, eps, val[v := x], u)
  {
    BestLocal(g, gamma, val, val[v := x], u, |g[u].out|);
  }

  lemma SettledSelf(g: seq<Vertex>, gamma: real, eps: real, val: seq<real>, v: nat)
    requires Valid(g) && |val| == |g| && v < |g| && eps >= 0.0
    ensures Settled(g, gamma, eps, val[v := BestOf(g, gamma, val, v)], v)
  {
    hide Gain;
    var b := BestOf(g, gamma, val, v);
    BestLocal(g, gamma, val, val[v := b], v, |g[v].out|);
    Grows(b, eps);
  }

  lemma Grows(b: real, eps: real)
    requires b >= 0.0 && eps >= 0.0
    ensures b <= b * (1.0 + eps)
  {
    assert b * eps >= 0.0;
  }

  /**
   * What sweep number `sweep` knows at vertex `v`: lower vertices were settled before it, those passed are settled
   * up to its own height, all of those passed if it has changed nothing yet; and it changes nothing above the depth.
   */
  ghost predicate SweepState(g: seq<Vertex>, gamma: real, eps: real, val: seq<real>, sweep: nat, v: nat, changed: bool)
    requires Valid(g) && |val| == |g| && v <= |g|
  {
    && (forall u :: 0 <= u < |g| && HeightOf(g, u) < sweep ==> Settled(g, gamma, eps, val, u))
    && (forall u :: 0 <= u < v && HeightOf(g, u) <= sweep ==> Settled(g, gamma, eps, val, u))
    && (!changed ==> forall u :: 0 <= u < v ==> Settled(g, gamma, eps, val, u))
    && (changed ==> sweep <= Depth(g, 0))
  }

  lemma FirstSweep(g: seq<Vertex>, gamma: real, eps: real, val: seq<real>)
    requires Valid(g) && |val| == |g| && forall v :: 0 <= v < |g| ==> val[v] == 0.0
    ensures SweepState(g, gamma, eps, val, 1, 0, false)
  {
    forall u | 0 <= u < |g| && HeightOf(g, u) < 1
      ensures Settled(g, gamma, eps, val, u)
    {
      if |g[u].out| > 0 {
        HeightDrops(g, u, |g[u].out|, 0);
      }
    }
  }

  lemma NextSweep(g: seq<Vertex>, gamma: real, eps: real, val: seq<real>, sweep: nat)
    requires Valid(g) && |val| == |g| && SweepState(g, gamma, eps, val, sweep, |g|, true)
    ensures SweepState(g, gamma, eps, val, sweep + 1, 0, false)
  {
    hide Settled, HeightOf;
  }

  /** A visit that changes the value, which happens to unsettled vertices only. */
  lemma VisitRaises(g: seq<Vertex>, gamma: real, eps: real, val: seq<real>, sweep: nat, v: nat, changed: bool)
    requires Valid(g) && |val| == |g| && v < |g| && eps >= 0.0 && SweepState(g, gamma, eps, val, sweep, v, changed)
    requires !Settled(g, gamma, eps, val, v)
    ensures SweepState(g, gamma, eps, val[v := BestOf(g, gamma, val, v)], sweep, v + 1, true)
  {
    hide Settled, HeightOf, BestOf;
    DepthCovers(g, 0, v);
    var next := val[v := BestOf(g, gamma, val, v)];
    SettledSelf(g, gamma, eps, val, v);
    forall u | 0 <= u < |g| && u != v && HeightOf(g, u) <= HeightOf(g, v) && Settled(g, gamma, eps, val, u)
      ensures Settled(g, gamma, eps, next, u)
    {
      SettledAfter(g, gamma, eps, val, v, BestOf(g, gamma, val, v), u);
    }
  }

  lemma VisitKeeps(g: seq<Vertex>, gamma: real, eps: real, val: seq<real>, sweep: nat, v: nat, changed: bool)
    requires Valid(g) && |val| == |g| && v < |g| && SweepState(g, gamma, eps, val, sweep, v, changed)
    requires Settled(g, gamma, eps, val, v)
    ensures SweepState(g, gamma, eps, val, sweep, v + 1, changed)
  {
    hide Settled, HeightOf;
  }

  // ----- The sweeps as functions -----

  /** The values after a visit: the best return, when it exceeds the value by more than the threshold. */
  ghost function Visited(g: seq<Vertex>, gamma: real, eps: real, val: seq<real>, v: nat): (r: seq<real>)
    requires Valid(g) && v < |g| == |val|
    ensures |r| == |g|
  {
    if BestOf(g, gamma, val, v) > val[v] * (1.0 + eps) then val[v := BestOf(g, gamma, val, v)] else val
  }

  /** After visits of the first `n` vertices, in their order. */
  ghost function Swept(g: seq<Vertex>, gamma: real, eps: real, val: seq<real>, n: nat): (r: seq<real>)
    requires Valid(g) && |val| == |g| && n <= |g|
    ensures |r| == |g|
  {
    if n == 0 then val else Visited(g, gamma, eps, Swept(g, gamma, eps, val, n - 1), n - 1)
  }

  /** After `n` sweeps from zero. */
  ghost function AfterSweeps(g: seq<Vertex>, gamma: real, eps: real, n: nat): (r: seq<real>)
    requires Valid(g)
    ensures |r| == |g|
  {
    if n == 0 then seq(|g|, _ => 0.0) else Swept(g, gamma, eps, AfterSweeps(g, gamma, eps, n - 1), |g|)
  }

  /** The last of `n` sweeps, and no other, has changed nothing. */
  ghost predicate FirstIdle(g: seq<Vertex>, gamma: real, eps: real, n: nat)
    requires Valid(g)
  {
    && n > 0 && AfterSweeps(g, gamma, eps, n) == AfterSweeps(g, gamma, eps, n - 1)
    && forall k :: 0 < k < n ==> AfterSweeps(g, gamma, eps, k) != AfterSweeps(g, gamma, eps, k - 1)
  }

  /** No value has become smaller, and one has become greater if anything has changed. */
  ghost predicate Risen(start: seq<real>, val: seq<real>, changed: bool) {
    && |start| == |val| && (forall u :: 0 <= u < |val| ==> start[u] <= val[u])
    && (if changed then exists u :: 0 <= u < |val| && start[u] < val[u] else start == val)
  }

  lemma RisenMore(start: seq<real>, val: seq<real>, changed: bool, v: nat, x: real)
    requires Risen(start, val, changed) && v < |val| && val[v] < x
    ensures Risen(start, val[v := x], true)
  {
    var next := val[v := x];
    assert start[v] < next[v];
  }

  /** A transition that attains a positive best return, none before it doing so. */
  ghost predicate FirstBest(g: seq<Vertex>, gamma: real, val: seq<real>, v: nat, r: real, e: Edge)
    requires Valid(g) && v < |g| == |val|
  {
    exists k :: 0 <= k < |g[v].out| && FirstAt(g, gamma, val, v, r, e, k)
  }

  ghost predicate FirstAt(g: seq<Vertex>, gamma: real, val: seq<real>, v: nat, r: real, e: Edge, k: nat)
    requires Valid(g) && v < |g| == |val| && k < |g[v].out|
  {
    && g[v].out[k] == e && e.target < |g| && Return(g, gamma, val, v, e) == r
    && forall j :: 0 <= j < k && g[v].out[j].target < |g| ==> Return(g, gamma, val, v, g[v].out[j]) < r
  }

  class MDPSolver {
    /** For each vertex with a positive return, the transition whose action is to be performed. */
    var strategy: map<nat, Edge>

    constructor ()
      ensures strategy == map[]
    {
      strategy := map[];
    }

    /** The best transition out of a vertex, and its return; zero if none has a positive one. */
    static method BestEdge(g: seq<Vertex>, gamma: real, value: array<real>, v: nat)
      returns (expReturn: real, best: Edge)
      requires Valid(g) && v < |g| == value.Length && |g[v].out| > 0
      ensures expReturn == BestOf(g, gamma, value[..], v)
      ensures best in g[v].out && best.target < |g|
      ensures expReturn > 0.0 ==> Return(g, gamma, value[..], v, best) == expReturn
      ensures expReturn > 0.0 ==> FirstBest(g, gamma, value[..], v, expReturn, best)
    {
      hide Gain;
      assert ValidOut(g, v);
      expReturn, best := 0.0, g[v].out[0];
      ghost var first := 0;
      var k := 0;
      while k < |g[v].out|
        invariant 0 <= k <= |g[v].out|
        invariant expReturn == Best(g, gamma, value[..], v, k)
        invariant best in g[v].out && best.target < |g|
        invariant expReturn > 0.0 ==> first < k && FirstAt(g, gamma, value[..], v, expReturn, best, first)
        invariant forall j :: 0 <= j < k && g[v].out[j].target < |g| ==>
          Return(g, gamma, value[..], v, g[v].out[j]) <= expReturn
      {
        var e := g[v].out[k];
        var curReturn := Gain(e.prob, g[v].worth - g[e.target].worth, gamma, value[e.target]);
        if curReturn > expReturn {
          expReturn, best, first := curReturn, e, k;
        }
        k := k + 1;
      }
    }

    /**
     * Sweeps over the vertices until a sweep changes nothing. At the end every value lies between its best return
     * divided by 1 + eps and that return, and no more sweeps were made than the graph is high, plus one.
     */
    method ComputeStrategy(g: seq<Vertex>, gamma: real, eps: real) returns (value: array<real>, ghost sweeps: nat)
      requires Valid(g) && gamma >= 0.0 && eps >= 0.0
      modifies this
      ensures fresh(value) && value.Length == |g|
      ensures sweeps <= Depth(g, 0) + 1
      ensures value[..] == AfterSweeps(g, gamma, eps, sweeps) && FirstIdle(g, gamma, eps, sweeps)
      ensures Consistent(g, gamma, value[..], strategy)
      ensures forall v :: 0 <= v < |g| ==> value[v] <= BestOf(g, gamma, value[..], v) <= value[v] * (1.0 + eps)
    {
      hide Settled, HeightOf, BestOf, Return, Consistent, SweepState, Swept, Visited, AfterSweeps, Risen, FirstBest;
      strategy := map[];
      value := new real[|g|](_ => 0.0);
      sweeps := 0;
      StartConsistent(g, gamma, value[..]);
      FirstSweep(g, gamma, eps, value[..]);
      NoSweeps(g, gamma, eps, value[..]);
      var keepLoop := true;
      while keepLoop
        invariant keepLoop ==> SweepState(g, gamma, eps, value[..], sweeps + 1, 0, false) && sweeps <= Depth(g, 0)
        invariant !keepLoop ==> sweeps <= Depth(g, 0) + 1 && SweepState(g, gamma, eps, value[..], sweeps, |g|, false)
        invariant Consistent(g, gamma, value[..], strategy)
        invariant value[..] == AfterSweeps(g, gamma, eps, sweeps)
        invariant forall k :: 0 < k <= sweeps ==>
          (AfterSweeps(g, gamma, eps, k) == AfterSweeps(g, gamma, eps, k - 1) <==> !keepLoop && k == sweeps)
        invariant !keepLoop ==> sweeps > 0
        decreases Depth(g, 0) + 1 - sweeps, if keepLoop then 1 else 0
      {
        ghost var start := value[..];
        SweepBegins(g, gamma, eps, start);
        sweeps := sweeps + 1;
        keepLoop := false;
        var v := 0;
        while v < |g|
          invariant 0 <= v <= |g|
          invariant SweepState(g, gamma, eps, value[..], sweeps, v, keepLoop)
          invariant Consistent(g, gamma, value[..], strategy)
          invariant value[..] == Swept(g, gamma, eps, start, v) && Risen(start, value[..], keepLoop)
        {
          ghost var val := value[..];
          SweepStep(g, gamma, eps, start, v);
          if |g[v].out| == 0 {
            LeafSettled(g, gamma, eps, val, strategy, v);
            SettledVisit(g, gamma, eps, val, v);
            VisitKeeps(g, gamma, eps, val, sweeps, v, keepLoop);
          } else {
            var expReturn, best := BestEdge(g, gamma, value, v);
            SettledIff(g, gamma, eps, val, v);
            if expReturn > value[v] * (1.0 + eps) {
              ValueNonNegative(g, gamma, val, strategy, v);
              Raised(value[v], eps, expReturn);
              ConsistentAfter(g, gamma, val, strategy, v, best);
              VisitRaises(g, gamma, eps, val, sweeps, v, keepLoop);
              RisenMore(start, val, keepLoop, v, expReturn);
              keepLoop := true;
              strategy := strategy[v := best];
              value[v] := expReturn;
              assert value[..] == val[v := expReturn];
            } else {
              VisitKeeps(g, gamma, eps, val, sweeps, v, keepLoop);
            }
          }
          v := v + 1;
        }
        SweepEnds(g, gamma, eps, start, value[..], sweeps, keepLoop);
        if keepLoop {
          NextSweep(g, gamma, eps, value[..], sweeps);
          ChangedBelowDepth(g, gamma, eps, value[..], sweeps);
        }
      }
      AllSettled(g, gamma, eps, value[..], strategy, sweeps);
    }
  }

  lemma NoSweeps(g: seq<Vertex>, gamma: real, eps: real, val: seq<real>)
    requires Valid(g) && |val| == |g| && forall v :: 0 <= v < |g| ==> val[v] == 0.0
    ensures val == AfterSweeps(g, gamma, eps, 0)
  {}

  lemma SweepBegins(g: seq<Vertex>, gamma: real, eps: real, val: seq<real>)
    requires Valid(g) && |val| == |g|
    ensures Swept(g, gamma, eps, val, 0) == val && Risen(val, val, false)
  {}

  lemma SweepStep(g: seq<Vertex>, gamma: real, eps: real, start: seq<real>, v: nat)
    requires Valid(g) && |start| == |g| && v < |g|
    ensures var val := Swept(g, gamma, eps, start, v);
      Swept(g, gamma, eps, start, v + 1) == if BestOf(g, gamma, val, v) > val[v] * (1.0 + eps)
        then val[v := BestOf(g, gamma, val, v)] else val
  {
    hide BestOf;
  }

  lemma SettledVisit(g: seq<Vertex>, gamma: real, eps: real, val: seq<real>, v: nat)
    requires Valid(g) && |val| == |g| && v < |g| && Settled(g, gamma, eps, val, v)
    ensures BestOf(g, gamma, val, v) <= val[v] * (1.0 + eps)
  {}

  lemma SweepEnds(g: seq<Vertex>, gamma: real, eps: real, start: seq<real>, val: seq<real>, sweeps: nat, changed: bool)
    requires Valid(g) && sweeps > 0 && start == AfterSweeps(g, gamma, eps, sweeps - 1)
    requires val == Swept(g, gamma, eps, start, |g|) && Risen(start, val, changed)
    ensures val == AfterSweeps(g, gamma, eps, sweeps) && (val == start <==> !changed)
  {
    hide Swept;
  }

  lemma StartConsistent(g: seq<Vertex>, gamma: real, val: seq<real>)
    requires Valid(g) && |val| == |g| && forall v :: 0 <= v < |g| ==> val[v] == 0.0
    ensures Consistent(g, gamma, val, map[])
  {}

  lemma LeafSettled(g: seq<Vertex>, gamma: real, eps: real, val: seq<real>, strategy: map<nat, Edge>, v: nat)
    requires Valid(g) && |val| == |g| && v < |g| && |g[v].out| == 0 && Consistent(g, gamma, val, strategy)
    ensures Settled(g, gamma, eps, val, v)
  {
    assert val[v] == 0.0;
  }

  lemma SettledIff(g: seq<Vertex>, gamma: real, eps: real, val: seq<real>, v: nat)
    requires Valid(g) && |val| == |g| && v < |g|
    ensures Settled(g, gamma, eps, val, v) <==> BestOf(g, gamma, val, v) <= val[v] * (1.0 + eps)
  {}

  lemma ValueNonNegative(g: seq<Vertex>, gamma: real, val: seq<real>, strategy: map<nat, Edge>, v: nat)
    requires Valid(g) && |val| == |g| && v < |g| && Consistent(g, gamma, val, strategy)
    ensures 0.0 <= val[v] <= BestOf(g, gamma, val, v)
  {}

  lemma ChangedBelowDepth(g: seq<Vertex>, gamma: real, eps: real, val: seq<real>, sweep: nat)
    requires Valid(g) && |val| == |g| && SweepState(g, gamma, eps, val, sweep, |g|, true)
    ensures sweep <= Depth(g, 0)
  {}

  lemma AllSettled(g: seq<Vertex>, gamma: real, eps: real, val: seq<real>, strategy: map<nat, Edge>, sweep: nat)
    requires Valid(g) && |val| == |g| && SweepState(g, gamma, eps, val, sweep, |g|, false)
      && Consistent(g, gamma, val, strategy)
    ensures forall v :: 0 <= v < |g| ==> val[v] <= BestOf(g, gamma, val, v) <= val[v] * (1.0 + eps)
  {
    hide BestOf;
    forall v | 0 <= v < |g|
      ensures BestOf(g, gamma, val, v) <= val[v] * (1.0 + eps)
    {
      assert Settled(g, gamma, eps, val, v);
    }
  }

  // ----- What the values mean -----

  /** The values never exceed the optimum. */
  lemma ValuesAtMostOptimal(g: seq<Vertex>, gamma: real, val: seq<real>, strategy: map<nat, Edge>, v: nat)
    requires Valid(g) && gamma >= 0.0 && |val| == |g| && v < |g| && Consistent(g, gamma, val, strategy)
    ensures val[v] <= OptimalOf(g, gamma, v)
  {
    AtMostOptimal(g, gamma, val, v, |g[v].out|);
  }

  /** With eps = 0 the values are the optimum, and each chosen transition attains its vertex's value. */
  lemma ExactValues(g: seq<Vertex>, gamma: real, val: seq<real>, strategy: map<nat, Edge>, v: nat)
    requires Valid(g) && gamma >= 0.0 && |val| == |g| && v < |g| && Consistent(g, gamma, val, strategy)
    requires forall u :: 0 <= u < |g| ==> BestOf(g, gamma, val, u) <= val[u] * (1.0 + 0.0)
    ensures val[v] == OptimalOf(g, gamma, v)
    ensures v in strategy <==> OptimalOf(g, gamma, v) > 0.0
    ensures v in strategy ==>
      && strategy[v] in g[v].out && strategy[v].target < |g|
      && Return(g, gamma, val, v, strategy[v]) == OptimalOf(g, gamma, v)
  {
    hide Return;
    forall u | 0 <= u < |g|
      ensures val[u] == BestOf(g, gamma, val, u)
    {
      assert BestOf(g, gamma, val, u) <= val[u] * (1.0 + 0.0);
    }
    FixpointIsOptimal(g, gamma, val, v, |g[v].out|);
    if v in strategy {
      assert Chosen(g, gamma, val, v, strategy[v]);
      var k :| 0 <= k < |g[v].out| && g[v].out[k] == strategy[v];
      BestCovers(g, gamma, val, v, |g[v].out|, k);
    }
  }

  // ----- How far the values stay from the optimum -----

  function Weighted(q: real, x: real): (r: real) { q * x }

  /** What the transitions of a vertex of height `h` hand on, each level weakened by `q`, when every vertex adds `d`. */
  function HandedOn(h: nat, q: real, d: real): (x: real)
    decreases h, 0
  {
    if h == 0 then 0.0 else Weighted(q, Loss(h - 1, q, d))
  }

  /** What is lost at a vertex of height `h`. */
  function Loss(h: nat, q: real, d: real): (x: real)
    decreases h, 1
  {
    if h == 0 then 0.0 else d + HandedOn(h, q, d)
  }

  lemma WeightedMonotone(q: real, x: real, y: real)
    requires q >= 0.0 && 0.0 <= x <= y
    ensures 0.0 <= Weighted(q, x) <= Weighted(q, y)
  {}

  lemma {:induction false} LossMonotone(h: nat, k: nat, q: real, d: real)
    requires h <= k && q >= 0.0 && d >= 0.0
    ensures 0.0 <= Loss(h, q, d) <= Loss(k, q, d) && 0.0 <= HandedOn(h, q, d) <= HandedOn(k, q, d)
    decreases k
  {
    hide Weighted;
    if 0 < k {
      LossMonotone(0, k - 1, q, d);
      WeightedMonotone(q, 0.0, Loss(k - 1, q, d));
      if 0 < h {
        LossMonotone(h - 1, k - 1, q, d);
        WeightedMonotone(q, 0.0, Loss(h - 1, q, d));
        WeightedMonotone(q, Loss(h - 1, q, d), Loss(k - 1, q, d));
      }
    }
  }

  /** No transition weighs what follows by more than `q`. */
  ghost predicate Weighs(g: seq<Vertex>, gamma: real, q: real) {
    forall v, k :: 0 <= v < |g| && 0 <= k < |g[v].out| ==> g[v].out[k].prob * gamma <= q
  }

  lemma GainLoss(prob: real, reward: real, gamma: real, x: real, y: real, q: real, loss: real)
    requires prob >= 0.0 && gamma >= 0.0 && prob * gamma <= q && y <= x + loss && loss >= 0.0
    ensures Gain(prob, reward, gamma, y) <= Gain(prob, reward, gamma, x) + Weighted(q, loss)
  {
    assert (prob * gamma) * loss <= q * loss;
    GainMonotone(prob, reward, gamma, y, x + loss);
    calc {
      Gain(prob, reward, gamma, x + loss);
      prob * (reward + gamma * (x + loss));
      { assert gamma * (x + loss) == gamma * x + gamma * loss; }
      prob * ((reward + gamma * x) + gamma * loss);
      prob * (reward + gamma * x) + prob * (gamma * loss);
      { assert prob * (gamma * loss) == (prob * gamma) * loss; }
      Gain(prob, reward, gamma, x) + (prob * gamma) * loss;
    }
  }

  /** No value is more than `d` below its best return. */
  ghost predicate Nearly(g: seq<Vertex>, gamma: real, val: seq<real>, d: real)
    requires Valid(g) && |val| == |g|
  {
    forall u :: 0 <= u < |g| ==> 0.0 <= val[u] && BestOf(g, gamma, val, u) <= val[u] + d
  }

  /** One transition more. */
  lemma EdgeLoss(g: seq<Vertex>, gamma: real, q: real, val: seq<real>, v: nat, k: nat, t: nat, loss: real)
    requires Valid(g) && gamma >= 0.0 && v < |g| == |val| && 0 < k <= |g[v].out| && Weighs(g, gamma, q) && loss >= 0.0
    requires t == g[v].out[k - 1].target && t < |g| && OptimalOf(g, gamma, t) <= val[t] + loss
    requires Optimal(g, gamma, v, k - 1) <= Best(g, gamma, val, v, k - 1) + Weighted(q, loss)
    ensures Optimal(g, gamma, v, k) <= Best(g, gamma, val, v, k) + Weighted(q, loss)
  {
    assert ValidOut(g, v);
    var e := g[v].out[k - 1];
    assert e.prob * gamma <= q;
    hide Gain, Weighs, Valid, Weighted;
    GainLoss(e.prob, g[v].worth - g[t].worth, gamma, val[t], OptimalOf(g, gamma, t), q, loss);
  }

  lemma HeightStep(g: seq<Vertex>, v: nat, k: nat)
    requires Valid(g) && v < |g| && 0 < k <= |g[v].out|
    ensures v < g[v].out[k - 1].target < |g| && HeightOf(g, g[v].out[k - 1].target) < Height(g, v, k)
    ensures Height(g, v, k - 1) <= Height(g, v, k)
  {
    assert ValidOut(g, v);
  }

  lemma {:induction false} BestLoss(g: seq<Vertex>, gamma: real, q: real, d: real, val: seq<real>, v: nat, k: nat)
    requires Valid(g) && gamma >= 0.0 && q >= 0.0 && d >= 0.0 && v < |g| == |val| && k <= |g[v].out|
    requires Weighs(g, gamma, q) && Nearly(g, gamma, val, d)
    ensures Optimal(g, gamma, v, k) <= Best(g, gamma, val, v, k) + HandedOn(Height(g, v, k), q, d)
    decreases |g| - v, k, 0
  {
    if k > 0 {
      hide Valid, Nearly, Weighs, Weighted, Height, Optimal, Best;
      HeightStep(g, v, k);
      var t, h := g[v].out[k - 1].target, Height(g, v, k) - 1;
      BestLoss(g, gamma, q, d, val, v, k - 1);
      ValueLoss(g, gamma, q, d, val, t);
      LossMonotone(0, h, q, d);
      LossMonotone(HeightOf(g, t), h, q, d);
      LossMonotone(Height(g, v, k - 1), h + 1, q, d);
      EdgeLoss(g, gamma, q, val, v, k, t, Loss(h, q, d));
    }
  }

  /** Each level of a vertex's height costs `d` at most, weakened by the weight of the transitions in between. */
  lemma {:induction false} ValueLoss(g: seq<Vertex>, gamma: real, q: real, d: real, val: seq<real>, v: nat)
    requires Valid(g) && gamma >= 0.0 && q >= 0.0 && d >= 0.0 && v < |g| == |val|
    requires Weighs(g, gamma, q) && Nearly(g, gamma, val, d)
    ensures OptimalOf(g, gamma, v) <= val[v] + Loss(HeightOf(g, v), q, d)
    decreases |g| - v, |g[v].out|, 1
  {
    hide Weighs, Valid, Weighted;
    assert 0.0 <= val[v] && BestOf(g, gamma, val, v) <= val[v] + d;
    if |g[v].out| > 0 {
      hide Nearly, Height, Optimal, Best;
      HeightStep(g, v, |g[v].out|);
      BestLoss(g, gamma, q, d, val, v, |g[v].out|);
    }
  }

  /** With weights of at most one the loss is at most `d` for each level. */
  lemma {:induction false} LossLinear(h: nat, q: real, d: real)
    requires 0.0 <= q <= 1.0 && d >= 0.0
    ensures 0.0 <= Loss(h, q, d) <= h as real * d
  {
    if h > 0 {
      LossLinear(h - 1, q, d);
      AtMostOne(q, Loss(h - 1, q, d));
      OneLevel(h, d);
    }
  }

  lemma AtMostOne(q: real, x: real)
    requires 0.0 <= q <= 1.0 && x >= 0.0
    ensures 0.0 <= Weighted(q, x) <= x
  {
    assert x - q * x == (1.0 - q) * x >= 0.0;
  }

  lemma OneLevel(h: nat, d: real)
    requires h > 0
    ensures h as real * d == (h - 1) as real * d + d
  {}

  /**
   * What the threshold of the sweeps costs: when no value is above `top`, a vertex of height h is at most h times
   * eps times `top` below the optimum if no transition weighs more than one, and always within the weighted loss.
   */
  lemma ThresholdLoss(g: seq<Vertex>, gamma: real, eps: real, q: real, top: real, val: seq<real>, v: nat)
    requires Valid(g) && gamma >= 0.0 && eps >= 0.0 && q >= 0.0 && v < |g| == |val| && Weighs(g, gamma, q)
    requires forall u :: 0 <= u < |g| ==> 0.0 <= val[u] <= top && BestOf(g, gamma, val, u) <= val[u] * (1.0 + eps)
    ensures OptimalOf(g, gamma, v) - val[v] <= Loss(HeightOf(g, v), q, eps * top)
    ensures q <= 1.0 ==> OptimalOf(g, gamma, v) - val[v] <= HeightOf(g, v) as real * (eps * top)
  {
    hide BestOf, Weighs, Loss, HeightOf, OptimalOf;
    forall u | 0 <= u < |g|
      ensures 0.0 <= val[u] && BestOf(g, gamma, val, u) <= val[u] + eps * top
    {
      VertexLoss(val[u], eps, top);
    }
    VertexLoss(val[v], eps, top);
    ValueLoss(g, gamma, q, eps * top, val, v);
    if q <= 1.0 {
      LossLinear(HeightOf(g, v), q, eps * top);
    }
  }

  lemma VertexLoss(value: real, eps: real, top: real)
    requires 0.0 <= value <= top && eps >= 0.0
    ensures value * (1.0 + eps) <= value + eps * top && eps * top >= 0.0
  {}
}
