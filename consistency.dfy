/**
 * What `decision_tree` and `classify` promise together (ID3.py, lines
 * 74-97): a tree built from the training data, once the build finishes,
 * gives every training sample its own category.
 */
module Consistency {
  import opened Wrappers
  import opened Samples
  import opened Domains
  import opened Trees
  import opened Learner

  /** Every value `f` has lies in the domain's list for its attribute. */
  ghost predicate ValuesListed(f: Features, d: Domain) {
    forall a :: HasAttr(f, a) ==> Get(f, a).value in d.ValuesOf(a)
  }

  /** The part of a domain's validity the argument needs: every key lists a value. */
  ghost predicate KeysHaveValues(d: Domain) {
    forall k :: 0 <= k < |d.keys| ==> d.ValuesOf(d.keys[k]) != []
  }

  /** On pure data, the leaf `leaf_value` gives is the category of every sample. */
  lemma PureLeafClassifies(data: seq<Sample>, d: Domain, gain: GainFn, fuel: nat, t: Tree, s: Sample)
    requires Build(data, d, gain, fuel) == Ok(t) && IsPure(data) && s in data
    ensures Classify(s.features, t) == Ok(s.category)
  {
    BuildShape(data, d, gain, fuel, t);
    LeafValueMajority(data);
    var m :| 0 <= m < |data| && data[m] == s;
  }

  /**
   * On impure data a sample whose values the domain lists has the split
   * attribute (its gain was defined), so `classify` follows the edge of its
   * value, which leads to the tree built from a subset the sample is in.
   */
  lemma SplitStep(data: seq<Sample>, d: Domain, gain: GainFn, fuel: nat, t: Tree, s: Sample)
    returns (subset: seq<Sample>, child: Tree)
    requires KeysHaveValues(d) && Build(data, d, gain, fuel) == Ok(t) && !IsPure(data)
    requires s in data && ValuesListed(s.features, d)
    ensures fuel > 0 && Build(subset, d, gain, fuel - 1) == Ok(child) && s in subset
    ensures Classify(s.features, t) == Classify(s.features, child)
  {
    BuildShape(data, d, gain, fuel, t);
    BestAttrIsKey(data, d, gain);
    var m :| 0 <= m < |data| && data[m] == s;
    var a := t.attr;
    var vs := d.ValuesOf(a);
    assert vs != [];
    assert HasAttr(data[m].features, a);
    var v := Get(s.features, a).value;
    var i :| 0 <= i < |vs| && vs[i] == v;
    assert t.edges[i].value == v;
    var j := FindEdge(t.edges, v).value;
    SelectSamplesMembers(data, a, v);
    subset, child := SelectSamples(data, a, v), t.edges[j].child;
  }

  /**
   * A sample of the data a tree was built from, whose values the domain
   * lists, is classified with its own category.
   */
  lemma {:induction false} BuildClassifiesMembers(data: seq<Sample>, d: Domain, gain: GainFn, fuel: nat,
                                                  t: Tree, s: Sample)
    requires KeysHaveValues(d) && Build(data, d, gain, fuel) == Ok(t)
    requires s in data && ValuesListed(s.features, d)
    ensures Classify(s.features, t) == Ok(s.category)
    decreases fuel, 1
  {
    if IsPure(data) {
      PureLeafClassifies(data, d, gain, fuel, t, s);
    } else {
      var subset, child := SplitStep(data, d, gain, fuel, t, s);
      ChildClassifies(subset, d, gain, fuel, child, s);
    }
  }

  /** The induction step: a child built with one split less classifies the samples selected into it. */
  lemma {:induction false} ChildClassifies(subset: seq<Sample>, d: Domain, gain: GainFn, fuel: nat, child: Tree, s: Sample)
    requires fuel > 0 && KeysHaveValues(d) && Build(subset, d, gain, fuel - 1) == Ok(child)
    requires s in subset && ValuesListed(s.features, d)
    ensures Classify(s.features, child) == Ok(s.category)
    decreases fuel, 0
  {
    BuildClassifiesMembers(subset, d, gain, fuel - 1, child, s);
  }

  /**
   * Training consistency: when `decision_tree(data, possible_values)`
   * returns, with the domain built from the same data, classifying any
   * training sample gives back its category.
   */
  lemma TrainingConsistency(data: seq<Sample>, gain: GainFn, fuel: nat, t: Tree)
    requires Build(data, DomainOf(data), gain, fuel) == Ok(t)
    ensures forall i :: 0 <= i < |data| ==> Classify(data[i].features, t) == Ok(data[i].category)
  {
    var d := DomainOf(data);
    DomainOfValid(data);
    DomainOfCovers(data);
    assert KeysHaveValues(d);
    forall i | 0 <= i < |data| ensures Classify(data[i].features, t) == Ok(data[i].category) {
      assert ValuesListed(data[i].features, d);
      BuildClassifiesMembers(data, d, gain, fuel, t, data[i]);
    }
  }

  /**
   * A tree built on a domain classifies, without raising, every sample that
   * has a listed value for each key of that domain.
   */
  lemma BuildClassifiesTotal(data: seq<Sample>, d: Domain, gain: GainFn, fuel: nat, t: Tree, f: Features)
    requires Build(data, d, gain, fuel) == Ok(t) && InDomain(f, d)
    ensures Classify(f, t).Ok?
  {
    BuildConforms(data, d, gain, fuel, t);
    ClassifyTotal(f, t, d);
  }
}
