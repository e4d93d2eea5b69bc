/**
 * The decision tree of ID3.py (`Node`, `Edge`) as a value, and `classify`
 * (ID3.py, lines 87-97).
 */
module Trees {
  import opened Wrappers
  import opened Samples
  import opened Domains

  /**
   * A node is a leaf holding its category, or an internal node holding the
   * attribute it splits on and its outgoing edges in the order they were added.
   */
  datatype Tree = Leaf(value: bool) | Internal(attr: Attr, edges: seq<Edge>)

  /** An edge labelled with `value`, a value of its parent's attribute, leading to `child`. */
  datatype Edge = Edge(value: Value, child: Tree)

  /** Why `classify` raises: a KeyError on the sample, or a StopIteration from `next`. */
  datatype ClassifyError = MissingAttribute(attr: Attr) | NoMatchingEdge(attr: Attr)

  /** `next(e for e in edges if e.value == v)`: the index of the first edge labelled `v`. */
  function FindEdge(edges: seq<Edge>, v: Value): (r: Option<nat>)
    ensures r.Some? ==> r.value < |edges| && edges[r.value].value == v
    ensures r.Some? ==> forall j :: 0 <= j < r.value ==> edges[j].value != v
    ensures r.None? ==> forall j :: 0 <= j < |edges| ==> edges[j].value != v
  {
    if edges == [] then None
    else if edges[0].value == v then Some(0)
    else
      var r := FindEdge(edges[1..], v);
      assert forall j :: 1 <= j < |edges| ==> edges[j] == edges[1..][j - 1];
      match r
      case None => None
      case Some(i) => Some(i + 1)
  }

  /**
   * `classify(sample, node)`. The generator evaluates `sample[attr]` once per
   * edge it tries, so a node without edges raises StopIteration before any
   * lookup can raise a KeyError.
   */
  function Classify(f: Features, t: Tree): Result<bool, ClassifyError> {
    match t
    case Leaf(b) => Ok(b)
    case Internal(a, edges) =>
      if edges == [] then Err(NoMatchingEdge(a))
      else
        match Get(f, a)
        case None => Err(MissingAttribute(a))
        case Some(v) =>
          match FindEdge(edges, v)
          case None => Err(NoMatchingEdge(a))
          case Some(i) => Classify(f, edges[i].child)
  }

  /**
   * `classify` returns a leaf's category; at an internal node it raises a
   * KeyError when the sample lacks the node's attribute and the node has an
   * edge to try, and a StopIteration when no edge carries the sample's value.
   */
  lemma ClassifyOutcomes(f: Features, t: Tree)
    ensures t.Leaf? ==> Classify(f, t) == Ok(t.value)
    ensures t.Internal? && t.edges != [] && !HasAttr(f, t.attr) ==> Classify(f, t) == Err(MissingAttribute(t.attr))
    ensures t.Internal? && t.edges == [] ==> Classify(f, t) == Err(NoMatchingEdge(t.attr))
    ensures t.Internal? && HasAttr(f, t.attr) && (forall i :: 0 <= i < |t.edges| ==> t.edges[i].value != Get(f, t.attr).value)
      ==> Classify(f, t) == Err(NoMatchingEdge(t.attr))
  {
  }

  /** Otherwise `classify` descends along the first edge labelled with the sample's value. */
  lemma ClassifyDescends(f: Features, t: Tree, i: nat)
    requires t.Internal? && HasAttr(f, t.attr)
    requires i < |t.edges| && t.edges[i].value == Get(f, t.attr).value
    requires forall j :: 0 <= j < i ==> t.edges[j].value != Get(f, t.attr).value
    ensures Classify(f, t) == Classify(f, t.edges[i].child)
  {
  }

  /**
   * Every internal node splits on a key of `d` and has one edge per value of
   * that key, labelled with the values in the domain's order.
   */
  ghost predicate Conforms(t: Tree, d: Domain) {
    match t
    case Leaf(_) => true
    case Internal(a, edges) =>
      && a in d.keys
      && |edges| == |d.ValuesOf(a)|
      && forall i :: 0 <= i < |edges| ==> edges[i].value == d.ValuesOf(a)[i] && Conforms(edges[i].child, d)
  }

  /** The sample gives every key of `d` one of the values the domain lists for it. */
  ghost predicate InDomain(f: Features, d: Domain) {
    forall k :: 0 <= k < |d.keys| ==> HasAttr(f, d.keys[k]) && Get(f, d.keys[k]).value in d.ValuesOf(d.keys[k])
  }

  /**
   * Classification fails only on samples outside the domain: on a tree that
   * conforms to `d`, a sample inside `d` always gets a category.
   */
  lemma {:induction false} ClassifyTotal(f: Features, t: Tree, d: Domain)
    requires Conforms(t, d) && InDomain(f, d)
    ensures Classify(f, t).Ok?
  {
    match t
    case Leaf(_) =>
    case Internal(a, edges) =>
      var k :| 0 <= k < |d.keys| && d.keys[k] == a;
      var v := Get(f, a).value;
      var vs := d.ValuesOf(a);
      var i :| 0 <= i < |vs| && vs[i] == v;
      assert edges[i].value == v;
      var j := FindEdge(edges, v).value;
      ClassifyTotal(f, edges[j].child, d);
  }
}
