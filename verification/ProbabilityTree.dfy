/** The probability tree of an action's outcomes: one level a metric, one branch an interval. */
module ProbabilityTree {
  import opened Sequences
  import opened MetricPartition

  /** An outcome: an interval for each metric. */
  type Cell = map<string, Interval>

  datatype Metric = Metric(name: string, intervals: seq<Interval>)

  /**
   * A vertex: its father (-1 at the root), the interval of the edge it hangs on, the metric its own edges are about.
   */
  datatype Node = Node(father: int, arrived: Interval, metricName: string, children: seq<int>,
                       probability: real, virtualSamples: nat)

  // ----- The outcomes an action can have -----

  /** A cell extended by each interval of a metric. */
  function Branches(cell: Cell, name: string, intervals: seq<Interval>): (r: seq<Cell>)
    ensures |r| == |intervals|
  {
    seq(|intervals|, i requires 0 <= i < |intervals| => map[name := intervals[i]] + cell)
  }

  function Extended(cells: seq<Cell>, m: Metric): (r: seq<Cell>) {
    if cells == [] then []
    else Extended(cells[..|cells| - 1], m) + Branches(cells[|cells| - 1], m.name, m.intervals)
  }

  /** All combinations of intervals, in the order the tree is grown. */
  function Product(metrics: seq<Metric>): (cells: seq<Cell>) {
    if metrics == [] then [map[]] else Extended(Product(metrics[..|metrics| - 1]), metrics[|metrics| - 1])
  }

  /** A combination: an interval of its own list for each metric, and nothing else. */
  ghost predicate Combines(cell: Cell, metrics: seq<Metric>) {
    && (forall i :: 0 <= i < |metrics| ==> metrics[i].name in cell && cell[metrics[i].name] in metrics[i].intervals)
    && (forall n :: n in cell ==> Named(metrics, n))
  }

  ghost predicate Named(metrics: seq<Metric>, n: string) {
    exists i :: 0 <= i < |metrics| && metrics[i].name == n
  }

  ghost predicate Distinct<T(!new)>(s: seq<T>) {
    forall i, j :: 0 <= i < j < |s| ==> s[i] != s[j]
  }

  /** Metrics with names of their own, each with at least one interval. */
  ghost predicate Proper(metrics: seq<Metric>) {
    && (forall i, j :: 0 <= i < j < |metrics| ==> metrics[i].name != metrics[j].name)
    && (forall i :: 0 <= i < |metrics| ==> |metrics[i].intervals| > 0)
  }

  /** A cell made of one of the given cells and an interval of the metric. */
  ghost predicate Extends(cells: seq<Cell>, m: Metric, c: Cell) {
    exists b, x :: Extension(cells, m, c, b, x)
  }

  predicate Extension(cells: seq<Cell>, m: Metric, c: Cell, b: Cell, x: Interval) {
    b in cells && x in m.intervals && c == map[m.name := x] + b
  }

  lemma InBranches(b: Cell, m: Metric, c: Cell)
    ensures c in Branches(b, m.name, m.intervals) <==> Extends([b], m, c)
  {
    var bs := Branches(b, m.name, m.intervals);
    if c in bs {
      var i :| 0 <= i < |m.intervals| && bs[i] == c;
      assert Extension([b], m, c, b, m.intervals[i]);
    }
    if d, x :| Extension([b], m, c, d, x) {
      var i :| 0 <= i < |m.intervals| && m.intervals[i] == x;
      assert bs[i] == c;
    }
  }

  lemma {:induction false} InExtended(cells: seq<Cell>, m: Metric, c: Cell)
    ensures c in Extended(cells, m) <==> Extends(cells, m, c)
  {
    hide Branches;
    if cells != [] {
      var n := |cells| - 1;
      InExtended(cells[..n], m, c);
      InBranches(cells[n], m, c);
      if b, x :| Extension(cells[..n], m, c, b, x) {
        assert Extension(cells, m, c, b, x);
      }
      if b, x :| Extension([cells[n]], m, c, b, x) {
        assert Extension(cells, m, c, b, x);
      }
      if b, x :| Extension(cells, m, c, b, x) {
        assert Extension(if b in cells[..n] then cells[..n] else [cells[n]], m, c, b, x);
      }
    }
  }

  /** The product enumerates exactly the combinations. */
  lemma {:induction false} ProductComplete(metrics: seq<Metric>, c: Cell)
    requires Proper(metrics)
    ensures c in Product(metrics) <==> Combines(c, metrics)
  {
    hide Combines, Extended;
    if metrics == [] {
      NothingCombined(c);
    } else {
      var n := |metrics| - 1;
      var before, m := metrics[..n], metrics[n];
      assert metrics == before + [m];
      InExtended(Product(before), m, c);
      if b, x :| Extension(Product(before), m, c, b, x) {
        ProductComplete(before, b);
        CombinesMore(before, m, b, x);
      }
      if Combines(c, metrics) {
        var b := map k | k in c && k != m.name :: c[k];
        CombinesLess(metrics, c, b);
        ProductComplete(before, b);
        assert c == map[m.name := c[m.name]] + b;
        assert Extension(Product(before), m, c, b, c[m.name]);
      }
    }
  }

  lemma NothingCombined(c: Cell)
    ensures c in Product([]) <==> Combines(c, [])
  {
    if Combines(c, []) {
      assert c.Keys == {};
      assert c == map[];
    }
  }

  lemma FreshName(before: seq<Metric>, m: Metric)
    requires Proper(before + [m])
    ensures !Named(before, m.name)
  {
    var metrics := before + [m];
    forall i | 0 <= i < |before|
      ensures before[i].name != m.name
    {
      assert metrics[i] == before[i] && metrics[|before|] == m;
    }
  }

  lemma CombinesMore(before: seq<Metric>, m: Metric, b: Cell, x: Interval)
    requires Proper(before + [m]) && Combines(b, before) && x in m.intervals
    ensures Combines(map[m.name := x] + b, before + [m])
  {
    var metrics, c := before + [m], map[m.name := x] + b;
    FreshName(before, m);
    forall i | 0 <= i < |metrics|
      ensures metrics[i].name in c && c[metrics[i].name] in metrics[i].intervals
    {
      if i < |before| {
        assert metrics[i] == before[i];
      }
    }
    forall k | k in c
      ensures Named(metrics, k)
    {
      if k in b {
        var i :| 0 <= i < |before| && before[i].name == k;
        assert metrics[i].name == k;
      } else {
        assert metrics[|before|].name == k;
      }
    }
  }

  lemma CombinesLess(metrics: seq<Metric>, c: Cell, b: Cell)
    requires metrics != [] && Proper(metrics) && Combines(c, metrics)
    requires b == map k | k in c && k != metrics[|metrics| - 1].name :: c[k]
    ensures Combines(b, metrics[..|metrics| - 1])
    ensures metrics[|metrics| - 1].name in c && c[metrics[|metrics| - 1].name] in metrics[|metrics| - 1].intervals
  {
    var n := |metrics| - 1;
    forall k | k in b
      ensures Named(metrics[..n], k)
    {
      var i :| 0 <= i < |metrics| && metrics[i].name == k;
      assert metrics[..n][i].name == k;
    }
  }

  /** The order of the enumeration: the intervals of the last metric change fastest. */
  lemma {:induction false} ExtendedAt(cells: seq<Cell>, m: Metric, j: nat, r: nat)
    requires j < |cells| && r < |m.intervals|
    ensures |Extended(cells, m)| == |cells| * |m.intervals| && j * |m.intervals| + r < |cells| * |m.intervals|
    ensures Extended(cells, m)[j * |m.intervals| + r] == map[m.name := m.intervals[r]] + cells[j]
    decreases |cells|
  {
    var n, k := |cells| - 1, |m.intervals|;
    ExtendedSize(cells[..n], m);
    ExtendedSize(cells, m);
    PlaceBelow(j, n, k, r);
    if j < n {
      ExtendedAt(cells[..n], m, j, r);
    }
  }

  lemma {:induction false} ExtendedSize(cells: seq<Cell>, m: Metric)
    ensures |Extended(cells, m)| == |cells| * |m.intervals|
  {
    if cells != [] {
      ExtendedSize(cells[..|cells| - 1], m);
    }
  }

  lemma PlaceBelow(j: nat, n: nat, k: nat, r: nat)
    requires j <= n && r < k
    ensures j * k + r < (n + 1) * k && (j < n ==> j * k + r < n * k)
  {
    assert j * k <= n * k;
    if j < n {
      assert (j + 1) * k <= n * k;
    }
  }

  lemma {:induction false} ExtendedDistinct(cells: seq<Cell>, m: Metric)
    requires Distinct(cells) && Distinct(m.intervals) && forall c :: c in cells ==> m.name !in c
    ensures Distinct(Extended(cells, m))
  {
    if cells != [] {
      var n := |cells| - 1;
      var last := cells[n];
      ExtendedDistinct(cells[..n], m);
      var r, t := Extended(cells[..n], m), Branches(last, m.name, m.intervals);
      forall i, j | 0 <= i < j < |t|
        ensures t[i] != t[j]
      {
        assert t[i][m.name] == m.intervals[i] && t[j][m.name] == m.intervals[j];
      }
      forall i, j | 0 <= i < |r| && 0 <= j < |t|
        ensures r[i] != t[j]
      {
        InExtended(cells[..n], m, r[i]);
        var b, x :| Extension(cells[..n], m, r[i], b, x);
        if r[i] == t[j] {
          SameBase(b, last, m.name, x, m.intervals[j]);
        }
      }
    }
  }

  lemma SameBase(b: Cell, d: Cell, name: string, x: Interval, y: Interval)
    requires name !in b && name !in d && map[name := x] + b == map[name := y] + d
    ensures b == d
  {
    var c := map[name := x] + b;
    assert b.Keys == c.Keys - {name} && d.Keys == c.Keys - {name};
    forall k | k in b
      ensures b[k] == d[k]
    {
      assert c[k] == b[k] && c[k] == d[k];
    }
  }

  /** No combination is enumerated twice unless an interval is listed twice. */
  lemma {:induction false} ProductDistinct(metrics: seq<Metric>)
    requires Proper(metrics) && forall i :: 0 <= i < |metrics| ==> Distinct(metrics[i].intervals)
    ensures Distinct(Product(metrics))
  {
    if metrics != [] {
      var n := |metrics| - 1;
      ProductDistinct(metrics[..n]);
      forall c | c in Product(metrics[..n])
        ensures metrics[n].name !in c
      {
        ProductComplete(metrics[..n], c);
      }
      ExtendedDistinct(Product(metrics[..n]), metrics[n]);
    }
  }

  lemma {:induction false} ProductNonEmpty(metrics: seq<Metric>)
    requires Proper(metrics)
    ensures |Product(metrics)| > 0
  {
    if metrics != [] {
      var n := |metrics| - 1;
      ProductNonEmpty(metrics[..n]);
      var cells := Product(metrics[..n]);
      var c := map[metrics[n].name := metrics[n].intervals[0]] + cells[0];
      InExtended(cells, metrics[n], c);
      assert Extension(cells, metrics[n], c, cells[0], metrics[n].intervals[0]);
    }
  }

  // ----- Trees -----

  /** Every vertex but the root hangs on an earlier one, of which it is a child, and children come later. */
  ghost predicate WellFormed(t: seq<Node>) {
    && |t| > 0 && t[0].father == -1
    && (forall v :: 0 < v < |t| ==> 0 <= t[v].father < v && v in t[t[v].father].children)
    && (forall v :: 0 <= v < |t| ==> forall c :: c in t[v].children ==> v < c < |t| && t[c].father == v)
  }

  /** The outcome a vertex stands for: the intervals on the way from the root. */
  ghost function CellOf(t: seq<Node>, v: nat): (c: Cell)
    requires WellFormed(t) && v < |t|
    decreases v
  {
    if t[v].father < 0 then map[]
    else map[t[t[v].father].metricName := t[v].arrived] + CellOf(t, t[v].father)
  }

  /** The vertices without children, in order. */
  function Leaves(t: seq<Node>, n: nat): (ls: seq<int>)
    requires n <= |t|
    ensures forall i :: 0 <= i < |ls| ==> 0 <= ls[i] < n && t[ls[i]].children == []
    ensures forall i, j :: 0 <= i < j < |ls| ==> ls[i] < ls[j]
    ensures forall v :: 0 <= v < n && t[v].children == [] ==> v in ls
  {
    if n == 0 then []
    else if t[n - 1].children == [] then Leaves(t, n - 1) + [n - 1]
    else Leaves(t, n - 1)
  }

  predicate Vertices(t: seq<Node>, vs: seq<int>) {
    forall i :: 0 <= i < |vs| ==> 0 <= vs[i] < |t|
  }

  ghost function CellsOf(t: seq<Node>, vs: seq<int>): (cells: seq<Cell>)
    requires WellFormed(t) && Vertices(t, vs)
    ensures |cells| == |vs|
  {
    seq(|vs|, i requires 0 <= i < |vs| => CellOf(t, vs[i]))
  }

  /** Sum of the probabilities of the leaves among the first `n` vertices. */
  function TotalProbability(t: seq<Node>, n: nat): (p: real)
    requires n <= |t|
  {
    if n == 0 then 0.0 else TotalProbability(t, n - 1) + (if t[n - 1].children == [] then t[n - 1].probability else 0.0)
  }

  function TotalSamples(t: seq<Node>, n: nat): (s: nat)
    requires n <= |t|
  {
    if n == 0 then 0 else TotalSamples(t, n - 1) + (if t[n - 1].children == [] then t[n - 1].virtualSamples else 0)
  }

  /** The same tree up to what the leaves carry and what childless vertices are about. */
  ghost predicate SameShape(t: seq<Node>, u: seq<Node>) {
    |t| <= |u| && forall v :: 0 <= v < |t| ==>
      && t[v].father == u[v].father && t[v].arrived == u[v].arrived
      && (t[v].children != [] ==> t[v].metricName == u[v].metricName)
  }

  lemma {:induction false} CellKept(t: seq<Node>, u: seq<Node>, v: nat)
    requires WellFormed(t) && WellFormed(u) && SameShape(t, u) && v < |t|
    ensures CellOf(t, v) == CellOf(u, v)
    decreases v
  {
    if t[v].father >= 0 {
      CellKept(t, u, t[v].father);
    }
  }

  /** A part of a positive total. */
  function Share(samples: nat, total: nat): (p: real)
    requires total > 0
  {
    samples as real / total as real
  }

  lemma ShareSum(x: nat, y: nat, total: nat)
    requires total > 0
    ensures Share(x, total) + Share(y, total) == Share(x + y, total)
    ensures Share(0, total) == 0.0 && Share(total, total) == 1.0
  {}

  /** The share is the part of the total that the samples are. */
  lemma ShareIs(samples: nat, total: nat)
    requires total > 0
    ensures Share(samples, total) * total as real == samples as real
  {}

  lemma {:induction false} ScaledTotal(t: seq<Node>, n: nat, total: nat)
    requires n <= |t| && total > 0
    requires forall v :: 0 <= v < n && t[v].children == [] ==> t[v].probability == Share(t[v].virtualSamples, total)
    ensures TotalProbability(t, n) == Share(TotalSamples(t, n), total)
  {
    hide Share;
    ShareSum(0, 0, total);
    if n > 0 {
      ScaledTotal(t, n - 1, total);
      ShareSum(TotalSamples(t, n - 1), t[n - 1].virtualSamples, total);
    }
  }

  // ----- Growing a tree -----

  /** The tree with a new vertex hanging on `leaf`. */
  function Attached(t: seq<Node>, leaf: nat, name: string, x: Interval): (u: seq<Node>)
    requires leaf < |t|
    ensures |u| == |t| + 1
  {
    t[leaf := t[leaf].(metricName := name, children := t[leaf].children + [|t|])] + [Node(leaf, x, "", [], 0.0, 0)]
  }

  lemma AttachedShape(t: seq<Node>, leaf: nat, name: string, x: Interval)
    requires leaf < |t| && (t[leaf].children == [] || t[leaf].metricName == name)
    ensures SameShape(t, Attached(t, leaf, name, x))
  {}

  lemma AttachedFathers(t: seq<Node>, leaf: nat, name: string, x: Interval, v: nat)
    requires WellFormed(t) && leaf < |t| && 0 < v <= |t|
    ensures var u := Attached(t, leaf, name, x); 0 <= u[v].father < v && v in u[u[v].father].children
  {
    var u := Attached(t, leaf, name, x);
    if v < |t| {
      assert v in t[t[v].father].children;
      hide WellFormed, Attached;
      AttachedKeeps(t, leaf, name, x, v, t[v].father);
    } else {
      hide WellFormed;
      assert u[v].father == leaf;
    }
  }

  lemma AttachedKeeps(t: seq<Node>, leaf: nat, name: string, x: Interval, v: nat, f: nat)
    requires leaf < |t| && v < |t| && f < |t| && v in t[f].children
    ensures var u := Attached(t, leaf, name, x); |u| == |t| + 1 && u[v].father == t[v].father && v in u[f].children
  {}

  lemma AttachedChildren(t: seq<Node>, leaf: nat, name: string, x: Interval, v: nat, c: int)
    requires WellFormed(t) && leaf < |t| && v <= |t| && c in Attached(t, leaf, name, x)[v].children
    ensures v < c <= |t| && Attached(t, leaf, name, x)[c].father == v
  {
    if v < |t| && c < |t| {
      assert c in t[v].children;
    }
  }

  lemma AttachedRoot(t: seq<Node>, leaf: nat, name: string, x: Interval)
    requires WellFormed(t) && leaf < |t|
    ensures |Attached(t, leaf, name, x)| == |t| + 1 && Attached(t, leaf, name, x)[0].father == -1
  {}

  lemma AttachedWell(t: seq<Node>, leaf: nat, name: string, x: Interval)
    requires WellFormed(t) && leaf < |t|
    ensures WellFormed(Attached(t, leaf, name, x))
  {
    hide Attached;
    var u := Attached(t, leaf, name, x);
    AttachedRoot(t, leaf, name, x);
    forall v | 0 < v < |u|
      ensures 0 <= u[v].father < v && v in u[u[v].father].children
    {
      AttachedFathers(t, leaf, name, x, v);
    }
    forall v | 0 <= v < |u|
      ensures forall c :: c in u[v].children ==> v < c < |u| && u[c].father == v
    {
      forall c | c in u[v].children
        ensures v < c < |u| && u[c].father == v
      {
        AttachedChildren(t, leaf, name, x, v, c);
      }
    }
  }

  lemma AttachedCells(t: seq<Node>, leaf: nat, name: string, x: Interval)
    requires WellFormed(t) && leaf < |t| && (t[leaf].children == [] || t[leaf].metricName == name)
    ensures WellFormed(Attached(t, leaf, name, x)) && SameShape(t, Attached(t, leaf, name, x))
    ensures CellOf(Attached(t, leaf, name, x), |t|) == map[name := x] + CellOf(t, leaf)
  {
    hide WellFormed, SameShape;
    AttachedWell(t, leaf, name, x);
    AttachedShape(t, leaf, name, x);
    CellKept(t, Attached(t, leaf, name, x), leaf);
  }

  lemma AttachedVertex(t: seq<Node>, leaf: nat, name: string, x: Interval, v: nat)
    requires v < |t| && leaf < |t|
    ensures var u := Attached(t, leaf, name, x);
      |u| == |t| + 1 && (u[v].children == [] <==> t[v].children == [] && v != leaf)
  {}

  lemma {:induction false} NoLeaves(t: seq<Node>, n: nat)
    requires n <= |t| && forall v :: 0 <= v < n ==> t[v].children != []
    ensures Leaves(t, n) == []
  {
    if n > 0 {
      NoLeaves(t, n - 1);
    }
  }

  lemma {:induction false} SameLeaves(t: seq<Node>, u: seq<Node>, n: nat)
    requires n <= |t| && n <= |u| && forall v :: 0 <= v < n ==> (t[v].children == [] <==> u[v].children == [])
    ensures Leaves(t, n) == Leaves(u, n)
  {
    if n > 0 {
      SameLeaves(t, u, n - 1);
    }
  }

  lemma LeavesStep(t: seq<Node>, n: nat)
    requires n < |t|
    ensures Leaves(t, n + 1) == Leaves(t, n) + if t[n].children == [] then [n] else []
  {}

  lemma FirstLeaf(t: seq<Node>, u: seq<Node>, leaf: nat)
    requires leaf < |t| && leaf < |u| && t[leaf].children == [] && u[leaf].children != []
    requires forall v :: 0 <= v < leaf ==> t[v].children != [] && u[v].children != []
    ensures Leaves(t, leaf + 1) == [leaf] + Leaves(u, leaf + 1)
  {
    hide Leaves;
    var none: seq<int>, one: seq<int> := [], [leaf];
    calc {
      Leaves(t, leaf + 1);
      { LeavesStep(t, leaf); }
      Leaves(t, leaf) + one;
      { NoLeaves(t, leaf); }
      none + one;
      { EmptyAround(one); }
      one + none;
      { NoLeaves(u, leaf + 1); }
      one + Leaves(u, leaf + 1);
    }
  }

  lemma LaterLeaf(t: seq<Node>, u: seq<Node>, leaf: nat, n: nat)
    requires n < |t| && n < |u| && (u[n].children == [] <==> t[n].children == [])
    requires Leaves(t, n) == [leaf] + Leaves(u, n)
    ensures Leaves(t, n + 1) == [leaf] + Leaves(u, n + 1)
  {
    hide Leaves;
    var last: seq<int> := if t[n].children == [] then [n] else [];
    calc {
      Leaves(t, n + 1);
      { LeavesStep(t, n); }
      Leaves(t, n) + last;
      ([leaf] + Leaves(u, n)) + last;
      { Associative([leaf as int], Leaves(u, n), last); }
      [leaf] + (Leaves(u, n) + last);
      { LeavesStep(u, n); }
      [leaf] + Leaves(u, n + 1);
    }
  }

  /** Taking the first leaf away. */
  lemma {:induction false} LeafGone(t: seq<Node>, u: seq<Node>, leaf: nat, n: nat)
    requires leaf < n <= |t| && n <= |u| && t[leaf].children == [] && forall v :: 0 <= v < leaf ==> t[v].children != []
    requires forall v :: 0 <= v < n ==> (u[v].children == [] <==> t[v].children == [] && v != leaf)
    ensures Leaves(t, n) == [leaf] + Leaves(u, n)
  {
    hide Leaves;
    if n == leaf + 1 {
      FirstLeaf(t, u, leaf);
    } else {
      LeafGone(t, u, leaf, n - 1);
      LaterLeaf(t, u, leaf, n - 1);
    }
  }

  /** When the first leaf gets a child it is no longer a leaf; the child is the last one. */
  lemma AttachedLeaves(t: seq<Node>, leaf: nat, name: string, x: Interval)
    requires leaf < |t| && forall v :: 0 <= v < leaf ==> t[v].children != []
    ensures var u := Attached(t, leaf, name, x);
      Leaves(t, |t|) == (if t[leaf].children == [] then [leaf] else []) + Leaves(u, |t|)
  {
    hide Attached, Leaves;
    var u := Attached(t, leaf, name, x);
    forall v | 0 <= v < |t|
      ensures |u| == |t| + 1 && (u[v].children == [] <==> t[v].children == [] && v != leaf)
    {
      AttachedVertex(t, leaf, name, x, v);
    }
    if t[leaf].children == [] {
      LeafGone(t, u, leaf, |t|);
    } else {
      AttachedLength(t, leaf, name, x);
      SameLeaves(t, u, |t|);
    }
  }

  lemma AttachedLength(t: seq<Node>, leaf: nat, name: string, x: Interval)
    requires leaf < |t|
    ensures |Attached(t, leaf, name, x)| == |t| + 1
  {}

  lemma LastLeaf(t: seq<Node>, leaf: nat, name: string, x: Interval)
    requires leaf < |t|
    ensures var u := Attached(t, leaf, name, x); Leaves(u, |u|) == Leaves(u, |t|) + [|t|]
  {
    hide Attached, Leaves;
    AttachedLast(t, leaf, name, x);
    LeavesStep(Attached(t, leaf, name, x), |t|);
  }

  lemma AttachedLast(t: seq<Node>, leaf: nat, name: string, x: Interval)
    requires leaf < |t|
    ensures var u := Attached(t, leaf, name, x); |u| == |t| + 1 && u[|t|].children == []
  {}

  lemma CellsKept(t: seq<Node>, u: seq<Node>, vs: seq<int>)
    requires WellFormed(t) && WellFormed(u) && SameShape(t, u) && Vertices(t, vs)
    ensures Vertices(u, vs) && CellsOf(t, vs) == CellsOf(u, vs)
  {
    forall i | 0 <= i < |vs|
      ensures CellOf(t, vs[i]) == CellOf(u, vs[i])
    {
      CellKept(t, u, vs[i]);
    }
  }

  /** Trees that differ only in what their vertices carry. */
  ghost predicate SameTree(t: seq<Node>, u: seq<Node>) {
    |t| == |u| && forall v :: 0 <= v < |t| ==>
      t[v].(probability := 0.0, virtualSamples := 0) == u[v].(probability := 0.0, virtualSamples := 0)
  }

  lemma {:induction false} LeavesKept(t: seq<Node>, u: seq<Node>, n: nat)
    requires SameTree(t, u) && n <= |t|
    ensures Leaves(t, n) == Leaves(u, n)
  {
    if n > 0 {
      LeavesKept(t, u, n - 1);
      assert t[n - 1].children == u[n - 1].children;
    }
  }

  lemma SameTreeShape(t: seq<Node>, u: seq<Node>)
    requires WellFormed(t) && SameTree(t, u)
    ensures WellFormed(u) && SameShape(t, u)
  {
    forall v | 0 <= v < |t|
      ensures t[v].father == u[v].father && t[v].arrived == u[v].arrived
      ensures t[v].metricName == u[v].metricName && t[v].children == u[v].children
    {
      assert t[v].(probability := 0.0, virtualSamples := 0).father == t[v].father;
      assert u[v].(probability := 0.0, virtualSamples := 0).father == u[v].father;
    }
  }

  lemma SameTreeKept(t: seq<Node>, u: seq<Node>)
    requires WellFormed(t) && SameTree(t, u)
    ensures WellFormed(u) && SameShape(t, u) && Leaves(u, |u|) == Leaves(t, |t|)
    ensures CellsOf(u, Leaves(u, |u|)) == CellsOf(t, Leaves(t, |t|))
  {
    SameTreeShape(t, u);
    LeavesKept(t, u, |t|);
    hide WellFormed, SameShape, CellsOf;
    CellsKept(t, u, Leaves(t, |t|));
  }

  lemma {:induction false} UniformTotal(t: seq<Node>, n: nat, p: real)
    requires n <= |t| && forall v :: 0 <= v < n && t[v].children == [] ==> t[v].probability == p
    ensures TotalProbability(t, n) == Times(|Leaves(t, n)|, p)
  {
    hide Times;
    MorePieces(p, 0);
    if n > 0 {
      UniformTotal(t, n - 1, p);
      MorePieces(p, |Leaves(t, n - 1)|);
    }
  }
}
