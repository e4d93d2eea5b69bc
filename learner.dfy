/**
 * Attribute selection (`decision_attr`, ID3.py lines 111-119) and tree
 * construction (`decision_tree`, lines 74-84, with `Node.add_edge`, lines
 * 55-61). The information gain is a parameter: its floating-point body is
 * not part of the model.
 */
module Learner {
  import opened Wrappers
  import opened Samples
  import opened Domains
  import opened Trees

  /** `gain(data, attr, possible_values)` for the one domain of a build. */
  type GainFn = (seq<Sample>, Attr) -> real

  /**
   * Why building fails: a KeyError while computing a gain, `max()` of no
   * gains, or (standing for non-termination) exhausted fuel.
   */
  datatype BuildError = SampleLacksAttribute | NoAttributes | OutOfFuel

  // ---------------------------------------------------------------------
  // decision_attr

  /**
   * `gain(data, a, d)` returns instead of raising: it looks `a` up in every
   * sample once per listed value, so it raises exactly when `a` has values
   * and some sample lacks `a`.
   */
  predicate GainDefined(data: seq<Sample>, d: Domain, a: Attr) {
    d.ValuesOf(a) == [] || forall i :: 0 <= i < |data| ==> HasAttr(data[i].features, a)
  }

  /** The position of the first key whose gain raises, `|keys|` when none does. */
  function FirstUndefined(data: seq<Sample>, d: Domain, keys: seq<Attr>): (k: nat)
    ensures k <= |keys|
    ensures k < |keys| ==> !GainDefined(data, d, keys[k])
    ensures forall j :: 0 <= j < k ==> GainDefined(data, d, keys[j])
  {
    if keys == [] then 0
    else if !GainDefined(data, d, keys[0]) then 0
    else
      var k := 1 + FirstUndefined(data, d, keys[1..]);
      assert forall j :: 1 <= j < |keys| ==> keys[j] == keys[1..][j - 1];
      k
  }

  /** The dictionary `attr_gain`: the gain of each key, in key order. */
  function Gains(data: seq<Sample>, keys: seq<Attr>, gain: GainFn): (r: seq<real>)
    ensures |r| == |keys| && forall i :: 0 <= i < |keys| ==> r[i] == gain(data, keys[i])
  {
    seq(|keys|, i requires 0 <= i < |keys| => gain(data, keys[i]))
  }

  /** `max(xs)`. */
  function Max(xs: seq<real>): (m: real)
    requires xs != []
    ensures m in xs
    ensures forall i :: 0 <= i < |xs| ==> xs[i] <= m
  {
    if |xs| == 1 then xs[0]
    else
      var rest := Max(xs[1..]);
      assert forall i :: 1 <= i < |xs| ==> xs[i] == xs[1..][i - 1];
      if xs[0] >= rest then xs[0] else rest
  }

  /** `next(i for i, x in enumerate(xs) if x == m)`, or `|xs|` when no entry matches. */
  function FirstIndexOf(xs: seq<real>, m: real): (i: nat)
    ensures i <= |xs|
    ensures i < |xs| ==> xs[i] == m
    ensures forall j :: 0 <= j < i ==> xs[j] != m
    ensures m in xs ==> i < |xs|
  {
    if xs == [] then 0
    else if xs[0] == m then 0
    else
      var i := 1 + FirstIndexOf(xs[1..], m);
      assert forall j :: 1 <= j < |xs| ==> xs[j] == xs[1..][j - 1];
      i
  }

  /**
   * The result of `decision_attr(data, d)`: the first key, in key order,
   * whose gain is the largest. `data` is non-empty because `gain` divides
   * by `len(data)`.
   */
  function BestAttr(data: seq<Sample>, d: Domain, gain: GainFn): Result<Attr, BuildError>
    requires data != []
  {
    if FirstUndefined(data, d, d.keys) < |d.keys| then Err(SampleLacksAttribute)
    else if d.keys == [] then Err(NoAttributes)
    else
      var gains := Gains(data, d.keys, gain);
      Ok(d.keys[FirstIndexOf(gains, Max(gains))])
  }

  /** A selected attribute is a key of the domain whose gain is defined. */
  lemma BestAttrIsKey(data: seq<Sample>, d: Domain, gain: GainFn)
    requires data != []
    ensures BestAttr(data, d, gain).Ok? ==>
      BestAttr(data, d, gain).value in d.keys && GainDefined(data, d, BestAttr(data, d, gain).value)
  {
  }

  /**
   * `decision_attr` raises a KeyError exactly when some gain does, raises on
   * `max()` of nothing exactly when there are no keys, and otherwise (and
   * only then) returns a key whose gain is the largest, with every earlier
   * key's gain smaller.
   */
  lemma BestAttrIsFirstMax(data: seq<Sample>, d: Domain, gain: GainFn)
    requires data != []
    ensures var r := BestAttr(data, d, gain);
      && (r == Err(SampleLacksAttribute) <==> exists k :: 0 <= k < |d.keys| && !GainDefined(data, d, d.keys[k]))
      && (r == Err(NoAttributes) <==> d.keys == [])
      && (r.Ok? <==> d.keys != [] && forall k :: 0 <= k < |d.keys| ==> GainDefined(data, d, d.keys[k]))
      && (r.Ok? ==> GainDefined(data, d, r.value))
      && (r.Ok? ==> exists k :: (0 <= k < |d.keys| && d.keys[k] == r.value
            && (forall j :: 0 <= j < |d.keys| ==> gain(data, d.keys[j]) <= gain(data, r.value))
            && (forall j :: 0 <= j < k ==> gain(data, d.keys[j]) < gain(data, r.value))))
  {
    var r := BestAttr(data, d, gain);
    if r.Ok? {
      var gains := Gains(data, d.keys, gain);
      var k := FirstIndexOf(gains, Max(gains));
      assert d.keys[k] == r.value;
    }
  }

  /** `max(gains)`, by a scan. */
  method MaxOf(gains: seq<real>) returns (m: real)
    requires gains != []
    ensures m == Max(gains)
  {
    m := gains[0];
    for k := 1 to |gains|
      invariant m in gains[..k]
      invariant forall j :: 0 <= j < k ==> gains[j] <= m
    {
      if gains[k] > m {
        m := gains[k];
      }
    }
  }

  /** The scan of `next(...)` at line 119: the first position holding `m`. */
  method IndexOf(gains: seq<real>, m: real) returns (i: nat)
    requires m in gains
    ensures i == FirstIndexOf(gains, m)
  {
    i := 0;
    while gains[i] != m
      invariant i < |gains|
      invariant forall j :: 0 <= j < i ==> gains[j] != m
      decreases |gains| - i
    {
      i := i + 1;
    }
  }

  /** `decision_attr`: fill `attr_gain` in key order, take its maximum, return the first key reaching it. */
  method DecisionAttr(data: seq<Sample>, d: Domain, gain: GainFn) returns (r: Result<Attr, BuildError>)
    requires data != []
    ensures r == BestAttr(data, d, gain)
  {
    var gains: seq<real> := [];
    for k := 0 to |d.keys|
      invariant |gains| == k
      invariant forall j :: 0 <= j < k ==> GainDefined(data, d, d.keys[j]) && gains[j] == gain(data, d.keys[j])
    {
      if !GainDefined(data, d, d.keys[k]) {
        assert FirstUndefined(data, d, d.keys) == k;
        return Err(SampleLacksAttribute);
      }
      gains := gains + [gain(data, d.keys[k])];
    }
    assert gains == Gains(data, d.keys, gain);
    if gains == [] {
      return Err(NoAttributes);
    }
    var maxGain := MaxOf(gains);
    var i := IndexOf(gains, maxGain);
    r := Ok(d.keys[i]);
  }

  // ---------------------------------------------------------------------
  // decision_tree

  /**
   * The result of `decision_tree(data, d)` when no path of the recursion is
   * longer than `fuel` splits; `Err(OutOfFuel)` otherwise.
   */
  function Build(data: seq<Sample>, d: Domain, gain: GainFn, fuel: nat): Result<Tree, BuildError>
    decreases fuel, 0
  {
    if IsPure(data) then Ok(Leaf(LeafValue(data)))
    else if fuel == 0 then Err(OutOfFuel)
    else
      match BestAttr(data, d, gain)
      case Err(e) => Err(e)
      case Ok(a) =>
        match BuildEdges(data, d, gain, fuel - 1, a, d.ValuesOf(a))
        case Err(e) => Err(e)
        case Ok(edges) => Ok(Internal(a, edges))
  }

  /** The edges the loop of lines 80-82 adds for the values `vs`, one child per value, in order. */
  function BuildEdges(data: seq<Sample>, d: Domain, gain: GainFn, fuel: nat, a: Attr, vs: seq<Value>)
    : Result<seq<Edge>, BuildError>
    decreases fuel, |vs| + 1
  {
    if vs == [] then Ok([])
    else
      match BuildEdges(data, d, gain, fuel, a, vs[..|vs| - 1])
      case Err(e) => Err(e)
      case Ok(edges) =>
        var v := vs[|vs| - 1];
        match Build(SelectSamples(data, a, v), d, gain, fuel)
        case Err(e) => Err(e)
        case Ok(child) => Ok(edges + [Edge(v, child)])
  }

  /** An internal node while its edges are being added. */
  class Node {
    const attr: Attr
    var edges: seq<Edge>

    constructor (attr: Attr)
      ensures this.attr == attr && edges == []
    {
      this.attr := attr;
      edges := [];
    }

    /** `add_edge`. */
    method AddEdge(e: Edge)
      modifies this
      ensures edges == old(edges) + [e]
    {
      edges := edges + [e];
    }
  }

  /** An edge list under construction fails once one of its prefixes has failed. */
  lemma {:induction false} BuildEdgesPrefixErr(data: seq<Sample>, d: Domain, gain: GainFn, fuel: nat, a: Attr,
                                               vs: seq<Value>, n: nat)
    requires n <= |vs| && BuildEdges(data, d, gain, fuel, a, vs[..n]).Err?
    ensures BuildEdges(data, d, gain, fuel, a, vs) == BuildEdges(data, d, gain, fuel, a, vs[..n])
    decreases |vs| - n
  {
    if n < |vs| {
      assert vs[..n + 1][..n] == vs[..n];
      BuildEdgesPrefixErr(data, d, gain, fuel, a, vs, n + 1);
    } else {
      assert vs[..n] == vs;
    }
  }

  /** One more value of the loop of lines 80-82: its edge is appended, or its failure is the loop's. */
  lemma BuildEdgesStep(data: seq<Sample>, d: Domain, gain: GainFn, fuel: nat, a: Attr,
                       vs: seq<Value>, i: nat, edges: seq<Edge>)
    requires i < |vs| && BuildEdges(data, d, gain, fuel, a, vs[..i]) == Ok(edges)
    ensures BuildEdges(data, d, gain, fuel, a, vs[..i + 1]) ==
      match Build(SelectSamples(data, a, vs[i]), d, gain, fuel)
      case Err(e) => Err(e)
      case Ok(child) => Ok(edges + [Edge(vs[i], child)])
  {
    assert vs[..i + 1][..i] == vs[..i];
  }

  /** `decision_tree`, with `fuel` bounding the depth of the recursion. */
  method DecisionTree(data: seq<Sample>, d: Domain, gain: GainFn, fuel: nat) returns (r: Result<Tree, BuildError>)
    ensures r == Build(data, d, gain, fuel)
    decreases fuel
  {
    if IsPure(data) {
      return Ok(Leaf(LeafValue(data)));
    }
    if fuel == 0 {
      return Err(OutOfFuel);
    }
    var best := DecisionAttr(data, d, gain);
    if best.Err? {
      return Err(best.error);
    }
    var node := new Node(best.value);
    var values := d.ValuesOf(node.attr);
    for i := 0 to |values|
      invariant BuildEdges(data, d, gain, fuel - 1, node.attr, values[..i]) == Ok(node.edges)
    {
      var subset := SelectSamples(data, node.attr, values[i]);
      var child := DecisionTree(subset, d, gain, fuel - 1);
      BuildEdgesStep(data, d, gain, fuel - 1, node.attr, values, i, node.edges);
      if child.Err? {
        BuildEdgesPrefixErr(data, d, gain, fuel - 1, node.attr, values, i + 1);
        return Err(child.error);
      }
      node.AddEdge(Edge(values[i], child.value));
    }
    assert values[..|values|] == values;
    r := Ok(Internal(node.attr, node.edges));
  }

  // ---------------------------------------------------------------------
  // Properties of the builder

  /**
   * `edges` are the edges lines 80-82 add for the values `vs`: edge i is
   * labelled `vs[i]` and leads to the tree built from the samples having it.
   */
  ghost predicate EdgesBuilt(data: seq<Sample>, d: Domain, gain: GainFn, fuel: nat, a: Attr,
                             vs: seq<Value>, edges: seq<Edge>)
  {
    && |edges| == |vs|
    && forall i :: 0 <= i < |vs| ==>
         edges[i].value == vs[i] && Build(SelectSamples(data, a, vs[i]), d, gain, fuel) == Ok(edges[i].child)
  }

  lemma {:induction false} BuildEdgesShape(data: seq<Sample>, d: Domain, gain: GainFn, fuel: nat, a: Attr,
                                           vs: seq<Value>, edges: seq<Edge>)
    requires BuildEdges(data, d, gain, fuel, a, vs) == Ok(edges)
    ensures EdgesBuilt(data, d, gain, fuel, a, vs, edges)
    decreases |vs|
  {
    if vs != [] {
      var init := vs[..|vs| - 1];
      var prefix := BuildEdges(data, d, gain, fuel, a, init).value;
      BuildEdgesShape(data, d, gain, fuel, a, init, prefix);
      assert edges == prefix + [edges[|edges| - 1]];
    }
  }

  /**
   * On pure data the builder returns the leaf carrying `leaf_value`; on
   * other data an internal node on `decision_attr`, with one edge per value
   * of the attribute, in domain order, each child built from the samples
   * having that value.
   */
  lemma BuildShape(data: seq<Sample>, d: Domain, gain: GainFn, fuel: nat, t: Tree)
    requires Build(data, d, gain, fuel) == Ok(t)
    ensures IsPure(data) ==> t == Leaf(LeafValue(data))
    ensures !IsPure(data) ==>
      && fuel > 0 && data != [] && t.Internal?
      && BestAttr(data, d, gain) == Ok(t.attr)
      && EdgesBuilt(data, d, gain, fuel - 1, t.attr, d.ValuesOf(t.attr), t.edges)
  {
    if !IsPure(data) {
      var a := BestAttr(data, d, gain).value;
      var edges := BuildEdges(data, d, gain, fuel - 1, a, d.ValuesOf(a)).value;
      assert t == Internal(a, edges);
      BuildEdgesShape(data, d, gain, fuel - 1, a, d.ValuesOf(a), edges);
    }
  }

  /**
   * Fuel only bounds the recursion: once a build finishes (with a tree or a
   * KeyError/ValueError), more fuel gives the same result.
   */
  lemma {:induction false} BuildFuelMonotone(data: seq<Sample>, d: Domain, gain: GainFn, fuel: nat, more: nat)
    requires fuel <= more && Build(data, d, gain, fuel) != Err(OutOfFuel)
    ensures Build(data, d, gain, more) == Build(data, d, gain, fuel)
    decreases fuel, 0
  {
    if !IsPure(data) {
      assert fuel > 0;
      var best := BestAttr(data, d, gain);
      if best.Ok? {
        var a := best.value;
        var edges := BuildEdges(data, d, gain, fuel - 1, a, d.ValuesOf(a));
        assert edges != Err(OutOfFuel);
        BuildEdgesFuelMonotone(data, d, gain, fuel - 1, more - 1, a, d.ValuesOf(a));
      }
    }
  }

  lemma {:induction false} BuildEdgesFuelMonotone(data: seq<Sample>, d: Domain, gain: GainFn, fuel: nat, more: nat,
                                                  a: Attr, vs: seq<Value>)
    requires fuel <= more && BuildEdges(data, d, gain, fuel, a, vs) != Err(OutOfFuel)
    ensures BuildEdges(data, d, gain, more, a, vs) == BuildEdges(data, d, gain, fuel, a, vs)
    decreases fuel, |vs| + 1
  {
    if vs != [] {
      var init := vs[..|vs| - 1];
      BuildEdgesFuelMonotone(data, d, gain, fuel, more, a, init);
      if BuildEdges(data, d, gain, fuel, a, init).Ok? {
        BuildFuelMonotone(SelectSamples(data, a, vs[|vs| - 1]), d, gain, fuel, more);
      }
    }
  }

  /** Every tree the builder returns has, at each internal node, one edge per domain value of its attribute. */
  lemma {:induction false} BuildConforms(data: seq<Sample>, d: Domain, gain: GainFn, fuel: nat, t: Tree)
    requires Build(data, d, gain, fuel) == Ok(t)
    ensures Conforms(t, d)
    decreases fuel, 0
  {
    if !IsPure(data) {
      BestAttrIsKey(data, d, gain);
      var a := BestAttr(data, d, gain).value;
      var edges := BuildEdges(data, d, gain, fuel - 1, a, d.ValuesOf(a)).value;
      BuildEdgesConform(data, d, gain, fuel - 1, a, d.ValuesOf(a), edges);
      assert t == Internal(a, edges);
    }
  }

  lemma {:induction false} BuildEdgesConform(data: seq<Sample>, d: Domain, gain: GainFn, fuel: nat, a: Attr,
                                             vs: seq<Value>, edges: seq<Edge>)
    requires BuildEdges(data, d, gain, fuel, a, vs) == Ok(edges)
    ensures |edges| == |vs|
    ensures forall i :: 0 <= i < |vs| ==> edges[i].value == vs[i] && Conforms(edges[i].child, d)
    decreases fuel, |vs| + 1
  {
    if vs != [] {
      var init := vs[..|vs| - 1];
      var prefix := BuildEdges(data, d, gain, fuel, a, init).value;
      BuildEdgesConform(data, d, gain, fuel, a, init, prefix);
      var last := vs[|vs| - 1];
      var child := Build(SelectSamples(data, a, last), d, gain, fuel).value;
      BuildConforms(SelectSamples(data, a, last), d, gain, fuel, child);
      assert edges == prefix + [Edge(last, child)];
    }
  }

  /** Two samples with the same attributes and opposite categories. */
  function Twins(): seq<Sample> {
    var f := [("outlook", "sunny")];
    [Sample(f, true), Sample(f, false)]
  }

  /** The domain lines 27-31 build from the twins: the one attribute with its one value. */
  lemma TwinsDomainOf()
    ensures DomainOf(Twins()) == Domain(["outlook"], map["outlook" := ["sunny"]])
  {
    var data := Twins();
    var d := Domain(["outlook"], map["outlook" := ["sunny"]]);
    assert Get(data[0].features, "outlook") == Some("sunny");
    assert Get(data[1].features, "outlook") == Some("sunny");
    assert [] + ["sunny"] == ["sunny"] && [] + ["outlook"] == ["outlook"];
    assert DomainOfPrefix(data, 1) == Insert(EMPTY, "outlook", "sunny") == d;
    assert DomainOfPrefix(data, 2) == Insert(d, "outlook", "sunny") == d;
  }

  /** The twins are impure, and splitting them on `outlook = sunny` gives both back. */
  lemma TwinsSplit()
    ensures !IsPure(Twins())
    ensures SelectSamples(Twins(), "outlook", "sunny") == Twins()
  {
    var data := Twins();
    assert Get(data[0].features, "outlook") == Some("sunny");
    assert Get(data[1].features, "outlook") == Some("sunny");
    assert CountLabel(data, true) == 1 && CountLabel(data, false) == 1;
  }

  /** Whatever the gains, `decision_attr` picks `outlook`, the only attribute. */
  lemma TwinsBestAttr(gain: GainFn)
    ensures BestAttr(Twins(), Domain(["outlook"], map["outlook" := ["sunny"]]), gain) == Ok("outlook")
  {
    var data := Twins();
    var d := Domain(["outlook"], map["outlook" := ["sunny"]]);
    assert Get(data[0].features, "outlook") == Some("sunny");
    assert Get(data[1].features, "outlook") == Some("sunny");
    assert GainDefined(data, d, "outlook");
    BestAttrIsFirstMax(data, d, gain);
  }

  /**
   * `decision_tree` need not terminate: two samples with the same attribute
   * values and opposite categories split into themselves again, whatever
   * the gains, so every fuel runs out.
   */
  lemma {:induction false} ContradictoryRowsDiverge(gain: GainFn, fuel: nat)
    ensures Build(Twins(), DomainOf(Twins()), gain, fuel) == Err(OutOfFuel)
  {
    TwinsDomainOf();
    TwinsSplit();
    TwinsBestAttr(gain);
    var d := DomainOf(Twins());
    if fuel > 0 {
      ContradictoryRowsDiverge(gain, fuel - 1);
      assert d.ValuesOf("outlook") == ["sunny"];
      assert ["sunny"][..0] == [];
      assert BuildEdges(Twins(), d, gain, fuel - 1, "outlook", ["sunny"]) == Err(OutOfFuel);
    }
  }
}
