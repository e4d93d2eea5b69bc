/**
 * Training samples and the pure helpers of ID3.py that only look at them:
 * attribute lookup, `select_samples`, the label counts shared by `entropy`
 * and `leaf_value`, the purity test and the majority rule.
 */
module Samples {
  import opened Wrappers

  type Attr = string
  type Value = string

  /** A sample's attribute dictionary: (attribute, value) pairs in insertion order. */
  type Features = seq<(Attr, Value)>

  /** A labelled training sample, the pair `(features, category)` of the source. */
  datatype Sample = Sample(features: Features, category: bool)

  /** Dictionary lookup `features[a]`; `None` stands for a KeyError. */
  function Get(f: Features, a: Attr): Option<Value> {
    if f == [] then None
    else if f[0].0 == a then Some(f[0].1)
    else Get(f[1..], a)
  }

  /** The lookup raises exactly when no pair has attribute `a`, and otherwise returns a value paired with `a`. */
  lemma {:induction false} GetSpec(f: Features, a: Attr)
    ensures Get(f, a).None? <==> forall k :: 0 <= k < |f| ==> f[k].0 != a
    ensures Get(f, a).Some? ==> (a, Get(f, a).value) in f
  {
    if f != [] && f[0].0 != a {
      GetSpec(f[1..], a);
      assert forall k :: 1 <= k < |f| ==> f[k] == f[1..][k - 1];
    }
  }

  /** Looking up the attribute of any pair succeeds. */
  lemma GetFound(f: Features, k: nat)
    requires k < |f|
    ensures Get(f, f[k].0).Some?
  {
    GetSpec(f, f[k].0);
  }

  /** The lookup finds the first pair whose attribute is `a`. */
  lemma {:induction false} GetFirst(f: Features, a: Attr, k: nat)
    requires k < |f| && f[k].0 == a
    requires forall j :: 0 <= j < k ==> f[j].0 != a
    ensures Get(f, a) == Some(f[k].1)
  {
    if k > 0 {
      assert forall j :: 0 <= j < k - 1 ==> f[1..][j] == f[j + 1];
      GetFirst(f[1..], a, k - 1);
    }
  }

  predicate HasAttr(f: Features, a: Attr) {
    Get(f, a).Some?
  }

  /**
   * `select_samples(data, attr, value)`: the samples whose `attr` is `value`,
   * in their original order.
   */
  function SelectSamples(data: seq<Sample>, a: Attr, v: Value): (r: seq<Sample>)
    ensures |r| <= |data|
  {
    if data == [] then []
    else (if Get(data[0].features, a) == Some(v) then [data[0]] else []) + SelectSamples(data[1..], a, v)
  }

  /** The selected samples are exactly the samples of `data` whose attribute `a` is `v`. */
  lemma {:induction false} SelectSamplesMembers(data: seq<Sample>, a: Attr, v: Value)
    ensures forall s :: s in SelectSamples(data, a, v) <==> s in data && Get(s.features, a) == Some(v)
  {
    if data != [] {
      SelectSamplesMembers(data[1..], a, v);
    }
  }

  /** Selection distributes over concatenation: it keeps the samples in their original order. */
  lemma {:induction false} SelectSamplesAppend(x: seq<Sample>, y: seq<Sample>, a: Attr, v: Value)
    ensures SelectSamples(x + y, a, v) == SelectSamples(x, a, v) + SelectSamples(y, a, v)
  {
    if x == [] {
      assert x + y == y;
    } else {
      assert (x + y)[0] == x[0];
      assert (x + y)[1..] == x[1..] + y;
      SelectSamplesAppend(x[1..], y, a, v);
      var head := if Get(x[0].features, a) == Some(v) then [x[0]] else [];
      assert head + (SelectSamples(x[1..], a, v) + SelectSamples(y, a, v))
          == (head + SelectSamples(x[1..], a, v)) + SelectSamples(y, a, v);
    }
  }

  /** Selecting from a single sample keeps it exactly when it has the value. */
  lemma SelectSamplesSingleton(s: Sample, a: Attr, v: Value)
    ensures SelectSamples([s], a, v) == if Get(s.features, a) == Some(v) then [s] else []
  {
    assert [s][1..] == [];
  }

  /** The number of samples in category `b` (`pos` for `true`, `neg` for `false`). */
  function CountLabel(data: seq<Sample>, b: bool): (n: nat)
    ensures n <= |data|
  {
    if data == [] then 0
    else (if data[0].category == b then 1 else 0) + CountLabel(data[1..], b)
  }

  /** The count is the whole data exactly when all samples are in `b`, and zero exactly when none is. */
  lemma {:induction false} CountLabelExtremes(data: seq<Sample>, b: bool)
    ensures CountLabel(data, b) == |data| <==> forall i :: 0 <= i < |data| ==> data[i].category == b
    ensures CountLabel(data, b) == 0 <==> forall i :: 0 <= i < |data| ==> data[i].category != b
  {
    if data != [] {
      CountLabelExtremes(data[1..], b);
      assert forall i :: 1 <= i < |data| ==> data[i] == data[1..][i - 1];
    }
  }

  /** Every sample is counted once, as positive or as negative. */
  lemma {:induction false} CountLabelsSum(data: seq<Sample>)
    ensures CountLabel(data, true) + CountLabel(data, false) == |data|
  {
    if data != [] {
      CountLabelsSum(data[1..]);
    }
  }

  /**
   * The test `entropy(data) == 0.0`: `entropy` returns 0.0 exactly when
   * `pos == total or neg == total`, and does so before any logarithm.
   */
  predicate IsPure(data: seq<Sample>) {
    var total := |data|;
    CountLabel(data, true) == total || CountLabel(data, false) == total
  }

  /** The purity test holds exactly when all categories agree, the empty data included. */
  lemma PureIffUniform(data: seq<Sample>)
    ensures IsPure(data) <==> forall i, j :: 0 <= i < |data| && 0 <= j < |data| ==> data[i].category == data[j].category
  {
    CountLabelExtremes(data, true);
    CountLabelExtremes(data, false);
    if data != [] && forall i, j :: 0 <= i < |data| && 0 <= j < |data| ==> data[i].category == data[j].category {
      assert forall i :: 0 <= i < |data| ==> data[i].category == data[0].category;
    }
  }

  /** `leaf_value`: true exactly when there are more positive than negative samples. */
  function LeafValue(data: seq<Sample>): bool {
    var pos := CountLabel(data, true);
    var neg := CountLabel(data, false);
    pos > neg
  }

  /**
   * The leaf value is the strict majority category: ties and the empty data give
   * false, and on pure non-empty data it is the common category.
   */
  lemma LeafValueMajority(data: seq<Sample>)
    ensures LeafValue(data) <==> 2 * CountLabel(data, true) > |data|
    ensures data == [] ==> !LeafValue(data)
    ensures IsPure(data) && data != [] ==> forall i :: 0 <= i < |data| ==> LeafValue(data) == data[i].category
  {
    CountLabelsSum(data);
    PureIffUniform(data);
    CountLabelExtremes(data, true);
    CountLabelExtremes(data, false);
  }

  /** The number of entries of `vs` that are `o`'s value. */
  function Occurrences(vs: seq<Value>, o: Option<Value>): nat {
    if vs == [] then 0 else (if o == Some(vs[0]) then 1 else 0) + Occurrences(vs[1..], o)
  }

  /** A value occurs once in a list without duplicates that holds it. */
  lemma {:induction false} OccurrencesOnce(vs: seq<Value>, v: Value)
    requires Distinct(vs) && v in vs
    ensures Occurrences(vs, Some(v)) == 1
  {
    if vs[0] == v {
      OccurrencesNone(vs[1..], v);
    } else {
      assert v in vs[1..];
      OccurrencesOnce(vs[1..], v);
    }
  }

  lemma {:induction false} OccurrencesNone(vs: seq<Value>, v: Value)
    requires v !in vs
    ensures Occurrences(vs, Some(v)) == 0
  {
    if vs != [] {
      OccurrencesNone(vs[1..], v);
    }
  }

  /** The total size of the subsets `select_samples(data, a, v)` for `v` in `vs`. */
  function SubsetSizes(data: seq<Sample>, a: Attr, vs: seq<Value>): nat {
    if vs == [] then 0 else |SelectSamples(data, a, vs[0])| + SubsetSizes(data, a, vs[1..])
  }

  lemma {:induction false} SubsetSizesFirst(data: seq<Sample>, a: Attr, vs: seq<Value>)
    requires data != []
    ensures SubsetSizes(data, a, vs) == Occurrences(vs, Get(data[0].features, a)) + SubsetSizes(data[1..], a, vs)
  {
    if vs != [] {
      SubsetSizesFirst(data, a, vs[1..]);
    }
  }

  /**
   * Splitting on `a` over a duplicate-free value list that covers every sample
   * partitions the data: the subset sizes add up to `|data|`.
   */
  lemma {:induction false} PartitionSizes(data: seq<Sample>, a: Attr, vs: seq<Value>)
    requires Distinct(vs)
    requires forall i :: 0 <= i < |data| ==> HasAttr(data[i].features, a) && Get(data[i].features, a).value in vs
    ensures SubsetSizes(data, a, vs) == |data|
  {
    if data == [] {
      SubsetSizesEmpty(a, vs);
    } else {
      SubsetSizesFirst(data, a, vs);
      OccurrencesOnce(vs, Get(data[0].features, a).value);
      assert forall i :: 0 <= i < |data[1..]| ==> data[1..][i] == data[i + 1];
      PartitionSizes(data[1..], a, vs);
    }
  }

  lemma {:induction false} SubsetSizesEmpty(a: Attr, vs: seq<Value>)
    ensures SubsetSizes([], a, vs) == 0
  {
    if vs != [] {
      SubsetSizesEmpty(a, vs[1..]);
    }
  }
}
