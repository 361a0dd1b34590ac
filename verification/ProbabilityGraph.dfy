/** Building the probability tree of an action, sampling it, and reading its outcomes. */
module ProbabilityGraph {
  import opened Sequences
  import opened MetricPartition
  import opened ProbabilityTree
  import opened OutcomePaths

  class ProbGraph {
    var nodes: seq<Node>

    ghost predicate Valid()
      reads this
    {
      WellFormed(nodes)
    }

    /** A root on its own. */
    constructor ()
      ensures Valid() && nodes == [Node(-1, (0.0, 0.0), "", [], 0.0, 0)]
    {
      nodes := [Node(-1, (0.0, 0.0), "", [], 0.0, 0)];
    }

    /** Gives one leaf a child for each interval of a metric, and changes nothing else. */
    method Branch(leaf: nat, metric: Metric) returns (added: seq<int>)
      requires Valid() && leaf < |nodes| && nodes[leaf].children == [] && |metric.intervals| > 0
      requires forall v :: 0 <= v < leaf ==> nodes[v].children != []
      modifies this
      ensures Valid() && SameShape(old(nodes), nodes)
      ensures Leaves(old(nodes), |old(nodes)|) != []
      ensures Leaves(nodes, |nodes|) == Leaves(old(nodes), |old(nodes)|)[1..] + added
      ensures Vertices(nodes, added)
      ensures CellsOf(nodes, added) == Branches(CellOf(old(nodes), leaf), metric.name, metric.intervals)
      ensures forall v :: 0 <= v <= leaf ==> nodes[v].children != []
      ensures Grown(old(nodes), nodes, leaf, metric, |metric.intervals|)
    {
      hide Branched, WellFormed, SameShape, Grown;
      ghost var start := nodes;
      added := [];
      var i := 0;
      BranchStart(start, leaf, metric);
      while i < |metric.intervals|
        invariant 0 <= i <= |metric.intervals| && leaf < |nodes| && Branched(start, nodes, leaf, metric, added, i)
        invariant Grown(start, nodes, leaf, metric, i)
      {
        GrownStep(start, nodes, leaf, metric, i);
        BranchStep(start, nodes, leaf, metric, added, i);
        nodes := Attached(nodes, leaf, metric.name, metric.intervals[i]);
        added := added + [|nodes| - 1];
        i := i + 1;
      }
      BranchDone(start, nodes, leaf, metric, added);
    }

    /** One level: every leaf gets the branches of a metric. */
    method Level(curLeaves: seq<int>, metric: Metric, ghost metrics: seq<Metric>, ghost cells: seq<Cell>)
      returns (newLeaves: seq<int>)
      requires Valid() && |metric.intervals| > 0 && curLeaves == Leaves(nodes, |nodes|) && Vertices(nodes, curLeaves)
      requires CellsOf(nodes, curLeaves) == cells && Regular(nodes, metrics)
      modifies this
      ensures Valid() && newLeaves == Leaves(nodes, |nodes|) && CellsOf(nodes, newLeaves) == Extended(cells, metric)
      ensures Regular(nodes, metrics + [metric])
    {
      hide WellFormed, SameShape, Branches, Leaves, Graded, Grown, Regular;
      ghost var start := nodes;
      newLeaves := [];
      var i := 0;
      LevelStart(start, curLeaves, metric, cells);
      GradedStart(start, curLeaves, metrics, metric);
      while i < |curLeaves|
        invariant 0 <= i <= |curLeaves| && LevelState(start, nodes, curLeaves, metric, cells, newLeaves, i)
        invariant Graded(start, nodes, curLeaves, metrics, metric, i)
      {
        ghost var t := nodes;
        LevelNext(start, t, curLeaves, metric, cells, newLeaves, i);
        var added := Branch(curLeaves[i], metric);
        LevelStep(start, t, nodes, curLeaves, metric, cells, newLeaves, added, i);
        GradeNext(start, t, nodes, curLeaves, metrics, metric, i);
        newLeaves := newLeaves + added;
        i := i + 1;
      }
      assert cells[..i] == cells && curLeaves[i..] + newLeaves == newLeaves;
      GradedDone(start, nodes, metrics, metric);
    }

    /**
     * Grows the tree level by level from its root and spreads the probability evenly: the leaves are the
     * combinations of intervals, each once, and their probabilities sum to one.
     */
    method CreateUniformGraph(metrics: seq<Metric>, virtualSample: nat)
      requires Valid() && nodes == [Node(-1, (0.0, 0.0), "", [], 0.0, 0)] && Proper(metrics)
      modifies this
      ensures Valid() && CellsOf(nodes, Leaves(nodes, |nodes|)) == Product(metrics)
      ensures forall v :: 0 <= v < |nodes| && nodes[v].children == [] ==>
        nodes[v].probability == 1.0 / |Product(metrics)| as real && nodes[v].virtualSamples == virtualSample
      ensures TotalProbability(nodes, |nodes|) == 1.0
      ensures Regular(nodes, metrics)
    {
      hide WellFormed, Product, CellsOf, Leaves, Regular;
      var curLeaves := [0];
      RootAlone(nodes);
      var k := 0;
      assert metrics[..0] == [];
      while k < |metrics|
        invariant 0 <= k <= |metrics| && Valid() && curLeaves == Leaves(nodes, |nodes|)
        invariant CellsOf(nodes, curLeaves) == Product(metrics[..k]) && Regular(nodes, metrics[..k])
      {
        ProductStep(metrics, k);
        curLeaves := Level(curLeaves, metrics[k], metrics[..k], Product(metrics[..k]));
        k := k + 1;
      }
      assert metrics[..k] == metrics;
      ProductNonEmpty(metrics);
      ghost var grown := nodes;
      SetUniform(curLeaves, virtualSample);
      RegularKept(grown, nodes, metrics);
      UniformTotal(nodes, |nodes|, 1.0 / |Product(metrics)| as real);
      WholeOfParts(|Product(metrics)|);
    }

    /** Gives every leaf the same probability and number of samples. */
    method SetUniform(curLeaves: seq<int>, virtualSample: nat)
      requires Valid() && curLeaves == Leaves(nodes, |nodes|) && |curLeaves| > 0
      modifies this
      ensures Valid() && SameTree(old(nodes), nodes)
      ensures Leaves(nodes, |nodes|) == curLeaves && CellsOf(nodes, curLeaves) == old(CellsOf(nodes, curLeaves))
      ensures forall v :: 0 <= v < |nodes| && nodes[v].children == [] ==>
        nodes[v].probability == 1.0 / |curLeaves| as real && nodes[v].virtualSamples == virtualSample
    {
      hide WellFormed, CellsOf, Leaves;
      ghost var start := nodes;
      var i := 0;
      while i < |curLeaves|
        invariant 0 <= i <= |curLeaves| && SameTree(start, nodes)
        invariant forall j :: 0 <= j < i ==>
          nodes[curLeaves[j]].probability == 1.0 / |curLeaves| as real
            && nodes[curLeaves[j]].virtualSamples == virtualSample
      {
        var v := curLeaves[i];
        nodes := nodes[v := nodes[v].(probability := 1.0 / |curLeaves| as real, virtualSamples := virtualSample)];
        i := i + 1;
      }
      SameTreeKept(start, nodes);
      AllLeaves(nodes, curLeaves);
    }

    /** The leaves with their outcomes and probabilities. */
    method GetNewVertices() returns (outcomes: seq<(Cell, real)>)
      requires Valid()
      ensures var ls := Leaves(nodes, |nodes|);
        |outcomes| == |ls| && forall i :: 0 <= i < |ls| ==>
          outcomes[i] == (CellOf(nodes, ls[i]), nodes[ls[i]].probability)
    {
      hide Leaves, CellOf, WellFormed;
      var leafVertices := Leaves(nodes, |nodes|);
      outcomes := [];
      var i := 0;
      while i < |leafVertices|
        invariant 0 <= i <= |leafVertices| && |outcomes| == i
        invariant forall j :: 0 <= j < i ==>
          outcomes[j] == (CellOf(nodes, leafVertices[j]), nodes[leafVertices[j]].probability)
      {
        var metrics := WalkUp(leafVertices[i]);
        outcomes := outcomes + [(metrics, nodes[leafVertices[i]].probability)];
        i := i + 1;
      }
    }

    /** Collects the intervals on the way from a vertex up to the root. */
    method WalkUp(v: nat) returns (metrics: Cell)
      requires Valid() && v < |nodes|
      ensures metrics == CellOf(nodes, v)
    {
      hide WellFormed, CellOf;
      var curVert: nat := v;
      metrics := map[];
      ghost var whole := CellOf(nodes, v);
      while nodes[curVert].father >= 0
        invariant curVert < |nodes| && metrics + CellOf(nodes, curVert) == whole
        decreases curVert
      {
        var father := nodes[curVert].father;
        CellStep(nodes, curVert);
        var name, x := nodes[father].metricName, nodes[curVert].arrived;
        Overridden(metrics, name, x, CellOf(nodes, father));
        metrics := metrics[name := x];
        curVert := father;
      }
      RootCell(nodes, curVert);
      assert metrics + map[] == metrics;
    }

    /** The branch of a vertex that an outcome takes. */
    method FindBranch(v: nat, current: Cell) returns (child: nat)
      requires Valid() && v < |nodes| && HasBranch(nodes, v, current)
      ensures child == Taken(nodes, v, current)
    {
      hide WellFormed;
      var x, children := Value(current, nodes[v].metricName), nodes[v].children;
      ChildrenVertices(nodes, v);
      var k := 0;
      while nodes[children[k]].arrived != x
        invariant 0 <= k < |children| && (exists c :: c in children[k..] && nodes[c].arrived == x)
        invariant FirstArrived(nodes, children[k..], x) == FirstArrived(nodes, children, x)
        decreases |children| - k
      {
        NotFirst(nodes, children, k, x);
        k := k + 1;
      }
      child := children[k];
    }

    /** Follows an outcome from the root to a leaf. */
    method FindLeaf(current: Cell) returns (leaf: nat)
      requires Valid() && Followable(nodes, 0, current)
      ensures leaf == Reached(nodes, 0, current)
    {
      hide WellFormed, HasBranch, Taken;
      RootFather(nodes);
      leaf := 0;
      while |nodes[leaf].children| > 0
        invariant leaf < |nodes| && Followable(nodes, leaf, current)
        invariant Reached(nodes, leaf, current) == Reached(nodes, 0, current)
        decreases |nodes| - leaf
      {
        leaf := FindBranch(leaf, current);
      }
    }

    /**
     * Adds the samples of one outcome and rescales: each leaf's share of all samples. Outcomes that lead to a leaf
     * still do, and the combinations a regular tree is made of still lead to their own.
     */
    method AddVirtualSample(current: Cell, virtualSample: nat) returns (samples: nat)
      requires Valid() && Followable(nodes, 0, current) && virtualSample > 0
      modifies this
      ensures Valid() && SameTree(old(nodes), nodes)
      ensures Sampled(old(nodes), nodes, old(Reached(nodes, 0, current)), virtualSample)
      ensures samples == nodes[old(Reached(nodes, 0, current))].virtualSamples
      ensures TotalSamples(nodes, |nodes|) == old(TotalSamples(nodes, |nodes|)) + virtualSample
      ensures TotalProbability(nodes, |nodes|) == 1.0
      ensures forall v :: 0 <= v < |nodes| && nodes[v].children == [] ==>
        nodes[v].probability == Share(nodes[v].virtualSamples, TotalSamples(nodes, |nodes|))
      ensures forall metrics :: Regular(old(nodes), metrics) ==> Regular(nodes, metrics)
    {
      hide WellFormed, SameTree, TotalSamples, TotalProbability, Share, Followable, Reached, Regular, Sampled;
      ghost var start := nodes;
      var found := FindLeaf(current);
      nodes := nodes[found := nodes[found].(virtualSamples := nodes[found].virtualSamples + virtualSample)];
      ghost var sampled := nodes;
      OneCarries(start, sampled, found, virtualSample);
      MoreSamples(start, sampled, |start|, found, virtualSample);
      Rescale();
      TreeTransitive(start, sampled, nodes);
      SampledSame(start, sampled, nodes, found, virtualSample);
      samples := nodes[found].virtualSamples;
      forall metrics | Regular(start, metrics)
        ensures Regular(nodes, metrics)
      {
        RegularKept(start, nodes, metrics);
      }
    }

    /** Gives each leaf its share of all samples as probability. */
    method Rescale()
      requires Valid() && TotalSamples(nodes, |nodes|) > 0
      modifies this
      ensures Valid() && SameTree(old(nodes), nodes)
        && TotalSamples(nodes, |nodes|) == old(TotalSamples(nodes, |nodes|))
      ensures forall v :: 0 <= v < |nodes| ==> nodes[v].virtualSamples == old(nodes)[v].virtualSamples
      ensures forall v :: 0 <= v < |nodes| && nodes[v].children == [] ==>
        nodes[v].probability == Share(nodes[v].virtualSamples, TotalSamples(nodes, |nodes|))
      ensures TotalProbability(nodes, |nodes|) == 1.0
    {
      hide WellFormed, Leaves, Share, TotalSamples, TotalProbability;
      ghost var start := nodes;
      var leafVertices := Leaves(nodes, |nodes|);
      var total := TotalSamples(nodes, |nodes|);
      var i := 0;
      while i < |leafVertices|
        invariant 0 <= i <= |leafVertices| && SameTree(start, nodes)
        invariant forall v :: 0 <= v < |nodes| ==> nodes[v].virtualSamples == start[v].virtualSamples
        invariant forall j :: 0 <= j < i ==>
          nodes[leafVertices[j]].probability == Share(nodes[leafVertices[j]].virtualSamples, total)
      {
        var v := leafVertices[i];
        nodes := nodes[v := nodes[v].(probability := Share(nodes[v].virtualSamples, total))];
        i := i + 1;
      }
      SameTreeKept(start, nodes);
      AllLeaves(nodes, leafVertices);
      SamplesKept(start, nodes, |nodes|);
      ScaledTotal(nodes, |nodes|, total);
      ShareSum(0, 0, total);
    }
  }

  // ----- Levels -----

  lemma RootAlone(t: seq<Node>)
    requires t == [Node(-1, (0.0, 0.0), "", [], 0.0, 0)]
    ensures WellFormed(t) && Leaves(t, |t|) == [0] && CellsOf(t, [0]) == Product([]) && Regular(t, [])
  {
    hide WellFormed, Leaves, CellsOf, Product;
    OneWellFormed(t);
    OneLeaf(t);
    OneCell(t);
  }

  lemma OneLeaf(t: seq<Node>)
    requires |t| == 1 && t[0].children == []
    ensures Leaves(t, 1) == [0]
  {
    assert Leaves(t, 0) == [];
  }

  lemma OneCell(t: seq<Node>)
    requires WellFormed(t) && |t| == 1
    ensures CellsOf(t, [0]) == Product([])
  {
    RootFather(t);
    RootCell(t, 0);
    hide WellFormed, CellOf;
    assert CellsOf(t, [0]) == [map[]];
  }

  lemma OneWellFormed(t: seq<Node>)
    requires |t| == 1 && t[0].father == -1 && t[0].children == []
    ensures WellFormed(t)
  {}

  lemma ProductStep(metrics: seq<Metric>, k: nat)
    requires k < |metrics|
    ensures Product(metrics[..k + 1]) == Extended(Product(metrics[..k]), metrics[k])
    ensures metrics[..k + 1] == metrics[..k] + [metrics[k]]
  {
    assert metrics[..k + 1][..k] == metrics[..k];
  }

  lemma WholeOfParts(n: nat)
    requires n > 0
    ensures Times(n, 1.0 / n as real) == 1.0
  {}

  /** Where a level stands after the first `i` of its leaves have been branched. */
  ghost predicate LevelState(start: seq<Node>, t: seq<Node>, curLeaves: seq<int>, metric: Metric, cells: seq<Cell>,
                             newLeaves: seq<int>, i: nat) {
    && WellFormed(start) && WellFormed(t) && SameShape(start, t) && i <= |curLeaves| == |cells|
    && (forall j :: 0 <= j < |curLeaves| ==> 0 <= curLeaves[j] < |start| && CellOf(start, curLeaves[j]) == cells[j])
    && (Vertices(t, newLeaves))
    && Leaves(t, |t|) == curLeaves[i..] + newLeaves
    && CellsOf(t, newLeaves) == Extended(cells[..i], metric)
  }

  lemma LevelStart(start: seq<Node>, curLeaves: seq<int>, metric: Metric, cells: seq<Cell>)
    requires WellFormed(start) && curLeaves == Leaves(start, |start|) && CellsOf(start, curLeaves) == cells
    ensures LevelState(start, start, curLeaves, metric, cells, [], 0)
  {
    hide WellFormed;
    ShapeSelf(start);
    assert curLeaves[0..] + [] == curLeaves;
    assert cells[..0] == [];
    forall j | 0 <= j < |curLeaves|
      ensures CellOf(start, curLeaves[j]) == cells[j]
    {
      assert CellsOf(start, curLeaves)[j] == cells[j];
    }
  }

  /** The next leaf of the level is the first leaf of the tree. */
  lemma LevelNext(start: seq<Node>, t: seq<Node>, curLeaves: seq<int>, metric: Metric, cells: seq<Cell>,
                  newLeaves: seq<int>, i: nat)
    requires i < |curLeaves| && LevelState(start, t, curLeaves, metric, cells, newLeaves, i)
    ensures 0 <= curLeaves[i] < |t| && t[curLeaves[i]].children == []
    ensures forall v :: 0 <= v < curLeaves[i] ==> t[v].children != []
    ensures CellOf(t, curLeaves[i]) == cells[i]
  {
    hide WellFormed, SameShape;
    var ls := Leaves(t, |t|);
    assert ls[0] == curLeaves[i];
    forall v | 0 <= v < curLeaves[i]
      ensures t[v].children != []
    {
      assert v !in ls;
    }
    ShapeLength(start, t);
    CellKept(start, t, curLeaves[i]);
  }

  lemma ShapeLength(t: seq<Node>, u: seq<Node>)
    requires SameShape(t, u)
    ensures |t| <= |u|
  {}

  lemma CellsJoined(t: seq<Node>, vs: seq<int>, ws: seq<int>)
    requires WellFormed(t) && Vertices(t, vs) && Vertices(t, ws)
    ensures Vertices(t, vs + ws) && CellsOf(t, vs + ws) == CellsOf(t, vs) + CellsOf(t, ws)
  {
    hide WellFormed;
  }

  lemma ExtendedStep(cells: seq<Cell>, metric: Metric, i: nat)
    requires i < |cells|
    ensures Extended(cells[..i + 1], metric)
      == Extended(cells[..i], metric) + Branches(cells[i], metric.name, metric.intervals)
  {
    assert cells[..i + 1][..i] == cells[..i];
  }

  lemma LevelStep(start: seq<Node>, t: seq<Node>, u: seq<Node>, curLeaves: seq<int>, metric: Metric, cells: seq<Cell>,
                  newLeaves: seq<int>, added: seq<int>, i: nat)
    requires i < |curLeaves| && LevelState(start, t, curLeaves, metric, cells, newLeaves, i)
    requires 0 <= curLeaves[i] < |t| && WellFormed(u) && SameShape(t, u)
      && Leaves(u, |u|) == Leaves(t, |t|)[1..] + added
    requires CellOf(t, curLeaves[i]) == cells[i] && Vertices(u, added)
    requires CellsOf(u, added) == Branches(cells[i], metric.name, metric.intervals)
    ensures LevelState(start, u, curLeaves, metric, cells, newLeaves + added, i + 1)
  {
    hide WellFormed, SameShape, Branches, Leaves, CellsOf, CellOf, Extended;
    ShapeTransitive(start, t, u);
    ShapeLength(t, u);
    CellsKept(t, u, newLeaves);
    DropOfConcat(curLeaves[i..], newLeaves, 1);
    assert curLeaves[i..][1..] == curLeaves[i + 1..];
    Associative(curLeaves[i + 1..], newLeaves, added);
    CellsJoined(u, newLeaves, added);
    ExtendedStep(cells, metric, i);
  }

  // ----- Sampling -----

  /** The tree with the samples of one leaf increased. */
  ghost predicate Sampled(t: seq<Node>, u: seq<Node>, leaf: nat, virtualSample: nat) {
    && |t| == |u| && leaf < |t| && t[leaf].children == []
    && u[leaf].virtualSamples == t[leaf].virtualSamples + virtualSample
    && forall v :: 0 <= v < |t| && v != leaf ==> u[v].virtualSamples == t[v].virtualSamples
  }

  lemma NotFirst(t: seq<Node>, vs: seq<int>, k: nat, x: Interval)
    requires Vertices(t, vs) && k < |vs| && t[vs[k]].arrived != x && exists c :: c in vs[k..] && t[c].arrived == x
    ensures k + 1 < |vs| && (exists c :: c in vs[k + 1..] && t[c].arrived == x)
    ensures FirstArrived(t, vs[k + 1..], x) == FirstArrived(t, vs[k..], x)
  {
    var c :| c in vs[k..] && t[c].arrived == x;
    assert vs[k..][1..] == vs[k + 1..] && vs[k..] == [vs[k]] + vs[k + 1..];
    assert c in vs[k + 1..];
  }

  /** One leaf more of a level under way. */
  lemma GradeNext(start: seq<Node>, t: seq<Node>, u: seq<Node>, curLeaves: seq<int>, metrics: seq<Metric>, m: Metric,
                  i: nat)
    requires i < |curLeaves| && 0 <= curLeaves[i] < |start| && Graded(start, t, curLeaves, metrics, m, i)
    requires curLeaves[i] < |t| && t[curLeaves[i]].children == [] && |m.intervals| > 0
    requires WellFormed(u) && SameShape(t, u) && Grown(t, u, curLeaves[i], m, |m.intervals|)
    ensures Graded(start, u, curLeaves, metrics, m, i + 1)
  {
    ShapeTransitive(start, t, u);
    GradedStep(start, t, u, curLeaves, metrics, m, i);
  }

  lemma CellStep(t: seq<Node>, v: nat)
    requires WellFormed(t) && v < |t| && t[v].father >= 0
    ensures t[v].father < v && CellOf(t, v) == map[t[t[v].father].metricName := t[v].arrived] + CellOf(t, t[v].father)
  {}

  lemma RootCell(t: seq<Node>, v: nat)
    requires WellFormed(t) && v < |t| && t[v].father < 0
    ensures CellOf(t, v) == map[]
  {}

  lemma Overridden(c: Cell, name: string, x: Interval, d: Cell)
    ensures c + (map[name := x] + d) == c[name := x] + d
  {}

  lemma RootFather(t: seq<Node>)
    requires WellFormed(t)
    ensures |t| > 0 && t[0].father == -1
  {}

  /** Changing what one leaf carries leaves the tree the same. */
  lemma OneCarries(t: seq<Node>, u: seq<Node>, leaf: nat, more: nat)
    requires WellFormed(t) && leaf < |t| && t[leaf].children == []
    requires u == t[leaf := t[leaf].(virtualSamples := t[leaf].virtualSamples + more)]
    ensures WellFormed(u) && SameTree(t, u) && Sampled(t, u, leaf, more)
  {
    OneSame(t, u, leaf, more);
    hide SameTree, SameShape, WellFormed;
    SameTreeKept(t, u);
  }

  lemma OneSame(t: seq<Node>, u: seq<Node>, leaf: nat, more: nat)
    requires leaf < |t| && u == t[leaf := t[leaf].(virtualSamples := t[leaf].virtualSamples + more)]
    ensures SameTree(t, u)
  {}

  lemma SampledSame(t: seq<Node>, u: seq<Node>, w: seq<Node>, leaf: nat, more: nat)
    requires Sampled(t, u, leaf, more) && |u| == |w|
    requires forall v :: 0 <= v < |u| ==> w[v].virtualSamples == u[v].virtualSamples
    ensures Sampled(t, w, leaf, more)
  {}

  lemma TreeTransitive(t: seq<Node>, u: seq<Node>, w: seq<Node>)
    requires SameTree(t, u) && SameTree(u, w)
    ensures SameTree(t, w)
  {}

  lemma AllLeaves(t: seq<Node>, ls: seq<int>)
    requires ls == Leaves(t, |t|)
    ensures forall v :: 0 <= v < |t| && t[v].children == [] ==> v in ls
  {}

  lemma {:induction false} MoreSamples(t: seq<Node>, u: seq<Node>, n: nat, leaf: nat, more: nat)
    requires leaf < |t| && t[leaf].children == [] && n <= |t|
    requires u == t[leaf := t[leaf].(virtualSamples := t[leaf].virtualSamples + more)]
    ensures TotalSamples(u, n) == TotalSamples(t, n) + if leaf < n then more else 0
  {
    if n > 0 {
      MoreSamples(t, u, n - 1, leaf, more);
    }
  }

  lemma {:induction false} SamplesKept(t: seq<Node>, u: seq<Node>, n: nat)
    requires SameTree(t, u) && n <= |t| && forall v :: 0 <= v < |t| ==> u[v].virtualSamples == t[v].virtualSamples
    ensures TotalSamples(u, n) == TotalSamples(t, n)
  {
    if n > 0 {
      SamplesKept(t, u, n - 1);
      assert t[n - 1].children == u[n - 1].children;
    }
  }

  // ----- Branches -----

  /** The tree `t` after `leaf` of the tree `start` has got its first `i` children, the vertices `added`. */
  ghost predicate Branched(start: seq<Node>, t: seq<Node>, leaf: nat, metric: Metric, added: seq<int>, i: nat)
    requires WellFormed(start) && leaf < |start|
  {
    hide WellFormed, SameShape, CellOf, CellsOf, Branches;
    && i <= |metric.intervals| && |added| == i && |start| <= |t|
    && WellFormed(t) && SameShape(start, t) && CellOf(t, leaf) == CellOf(start, leaf)
    && (if i == 0 then t == start else t[leaf].children != [] && t[leaf].metricName == metric.name)
    && (forall v :: 0 <= v < leaf ==> t[v].children != [])
    && Vertices(t, added)
    && Leaves(start, |start|) != []
    && Leaves(t, |t|) == (if i == 0 then Leaves(start, |start|) else Leaves(start, |start|)[1..] + added)
    && CellsOf(t, added) == Branches(CellOf(start, leaf), metric.name, metric.intervals[..i])
  }

  lemma BranchStart(start: seq<Node>, leaf: nat, metric: Metric)
    requires WellFormed(start) && leaf < |start| && start[leaf].children == []
    requires forall v :: 0 <= v < leaf ==> start[v].children != []
    ensures Branched(start, start, leaf, metric, [], 0) && Grown(start, start, leaf, metric, 0)
  {
    ShapeSelf(start);
    assert leaf in Leaves(start, |start|);
  }

  lemma LeavesAttached(t: seq<Node>, leaf: nat, name: string, x: Interval)
    requires leaf < |t| && forall v :: 0 <= v < leaf ==> t[v].children != []
    ensures var u := Attached(t, leaf, name, x);
      if t[leaf].children == [] then Leaves(t, |t|) != [] && Leaves(u, |u|) == Leaves(t, |t|)[1..] + [|t|]
      else Leaves(u, |u|) == Leaves(t, |t|) + [|t|]
  {
    hide Attached, Leaves;
    var u := Attached(t, leaf, name, x);
    AttachedLeaves(t, leaf, name, x);
    LastLeaf(t, leaf, name, x);
    TailOfConcat(leaf as int, Leaves(u, |t|));
    EmptyAround(Leaves(u, |t|));
  }

  lemma BranchLeaves(start: seq<Node>, t: seq<Node>, leaf: nat, metric: Metric, added: seq<int>, i: nat)
    requires WellFormed(start) && leaf < |start| && start[leaf].children == [] && i < |metric.intervals|
    requires Branched(start, t, leaf, metric, added, i)
    ensures var u := Attached(t, leaf, metric.name, metric.intervals[i]);
      Leaves(u, |u|) == Leaves(start, |start|)[1..] + (added + [|t|])
  {
    hide WellFormed, SameShape, Attached, Leaves, CellsOf, CellOf, Branches;
    LeavesAttached(t, leaf, metric.name, metric.intervals[i]);
  }

  lemma BranchesStep(cell: Cell, metric: Metric, i: nat)
    requires i < |metric.intervals|
    ensures Branches(cell, metric.name, metric.intervals[..i + 1])
      == Branches(cell, metric.name, metric.intervals[..i]) + [map[metric.name := metric.intervals[i]] + cell]
  {}

  lemma BranchCells(start: seq<Node>, t: seq<Node>, leaf: nat, metric: Metric, added: seq<int>, i: nat)
    requires WellFormed(start) && leaf < |start| && start[leaf].children == [] && i < |metric.intervals|
    requires Branched(start, t, leaf, metric, added, i)
    ensures var u := Attached(t, leaf, metric.name, metric.intervals[i]);
      && WellFormed(u) && SameShape(start, u) && CellOf(u, leaf) == CellOf(start, leaf)
      && Vertices(u, added + [|t|])
      && CellsOf(u, added + [|t|]) == Branches(CellOf(start, leaf), metric.name, metric.intervals[..i + 1])
  {
    hide WellFormed, SameShape, Attached, Leaves;
    var x := metric.intervals[i];
    var u := Attached(t, leaf, metric.name, x);
    AttachedCells(t, leaf, metric.name, x);
    ShapeTransitive(start, t, u);
    CellKept(t, u, leaf);
    CellsKept(t, u, added);
    CellsJoined(u, added, [|t|]);
    assert CellsOf(u, [|t|]) == [CellOf(u, |t|)];
    BranchesStep(CellOf(start, leaf), metric, i);
  }

  lemma BranchStep(start: seq<Node>, t: seq<Node>, leaf: nat, metric: Metric, added: seq<int>, i: nat)
    requires WellFormed(start) && leaf < |start| && start[leaf].children == [] && i < |metric.intervals|
    requires Branched(start, t, leaf, metric, added, i)
    ensures Branched(start, Attached(t, leaf, metric.name, metric.intervals[i]), leaf, metric, added + [|t|], i + 1)
  {
    hide WellFormed, SameShape, CellOf, CellsOf, Leaves, Branches;
    BranchLeaves(start, t, leaf, metric, added, i);
    BranchCells(start, t, leaf, metric, added, i);
  }

  lemma BranchDone(start: seq<Node>, t: seq<Node>, leaf: nat, metric: Metric, added: seq<int>)
    requires WellFormed(start) && leaf < |start| && |metric.intervals| > 0
    requires Branched(start, t, leaf, metric, added, |metric.intervals|)
    ensures WellFormed(t) && SameShape(start, t)
    ensures Leaves(t, |t|) == Leaves(start, |start|)[1..] + added
    ensures Vertices(t, added)
    ensures CellsOf(t, added) == Branches(CellOf(start, leaf), metric.name, metric.intervals)
    ensures forall v :: 0 <= v <= leaf ==> t[v].children != []
  {
    hide WellFormed, SameShape, CellOf, CellsOf, Leaves, Branches;
    TakeAll(metric.intervals);
  }

  lemma ShapeSelf(t: seq<Node>)
    ensures SameShape(t, t)
  {}

  lemma ShapeTransitive(t: seq<Node>, u: seq<Node>, w: seq<Node>)
    requires WellFormed(t) && WellFormed(u) && SameShape(t, u) && SameShape(u, w)
    ensures SameShape(t, w)
  {
    forall v | 0 <= v < |t| && t[v].children != []
      ensures u[v].children != []
    {
      ShapeInner(t, u, v);
    }
  }
}
