/**
 * The attribute domain `possible_values` built at the start of `main`
 * (ID3.py, lines 27-31): for each attribute, the values it takes in the
 * training data, without duplicates, in order of first appearance.
 */
module Domains {
  import opened Wrappers
  import opened Samples

  /**
   * An insertion-ordered dictionary from attribute to value list: `keys` is
   * the dictionary's iteration order, `values` its contents.
   */
  datatype Domain = Domain(keys: seq<Attr>, values: map<Attr, seq<Value>>) {
    /** `possible_values[a]`, which is the empty list for an absent key. */
    function ValuesOf(a: Attr): seq<Value> {
      if a in values then values[a] else []
    }

    /**
     * The shape of every domain built from data: distinct keys that are
     * exactly the dictionary's keys, each with a non-empty duplicate-free list.
     */
    ghost predicate Valid() {
      && Distinct(keys)
      && (forall k :: 0 <= k < |keys| ==> keys[k] in values)
      && (forall a :: a in values ==> a in keys && values[a] != [] && Distinct(values[a]))
    }
  }

  const EMPTY: Domain := Domain([], map[])

  /** One step of the inner loop: record value `v` for attribute `a` unless already present. */
  function Insert(d: Domain, a: Attr, v: Value): Domain {
    var list := d.ValuesOf(a);
    if v in list then d
    else Domain(if a in d.values then d.keys else d.keys + [a], d.values[a := list + [v]])
  }

  /** The domain after the inner loop has visited the first `k` attributes of `f`. */
  function AddFeatures(d: Domain, f: Features, k: nat): Domain
    requires k <= |f|
  {
    if k == 0 then d
    else
      var a := f[k - 1].0;
      GetFound(f, k - 1);
      Insert(AddFeatures(d, f, k - 1), a, Get(f, a).value)
  }

  /** The domain after the outer loop has visited the first `n` samples. */
  function DomainOfPrefix(data: seq<Sample>, n: nat): Domain
    requires n <= |data|
  {
    if n == 0 then EMPTY
    else
      var f := data[n - 1].features;
      AddFeatures(DomainOfPrefix(data, n - 1), f, |f|)
  }

  /** The domain lines 27-31 build from the whole training data. */
  function DomainOf(data: seq<Sample>): Domain {
    DomainOfPrefix(data, |data|)
  }

  /** Lines 27-31: the nested loops that fill `possible_values`. */
  method BuildDomain(data: seq<Sample>) returns (d: Domain)
    ensures d == DomainOf(data)
  {
    var keys: seq<Attr> := [];
    var values: map<Attr, seq<Value>> := map[];
    for i := 0 to |data|
      invariant Domain(keys, values) == DomainOfPrefix(data, i)
    {
      var f := data[i].features;
      for j := 0 to |f|
        invariant Domain(keys, values) == AddFeatures(DomainOfPrefix(data, i), f, j)
      {
        var attr := f[j].0;
        GetFound(f, j);
        var value := Get(f, attr).value;
        var list := if attr in values then values[attr] else [];
        if value !in list {
          if attr !in values {
            keys := keys + [attr];
          }
          values := values[attr := list + [value]];
        }
      }
    }
    d := Domain(keys, values);
  }

  // ---------------------------------------------------------------------
  // The dictionary invariant

  lemma InsertValid(d: Domain, a: Attr, v: Value)
    requires d.Valid()
    ensures Insert(d, a, v).Valid()
  {
    var list := d.ValuesOf(a);
    if v !in list {
      var r := Insert(d, a, v);
      assert Distinct(list + [v]);
      if a !in d.values {
        assert a !in d.keys;
      }
    }
  }

  lemma {:induction false} AddFeaturesValid(d: Domain, f: Features, k: nat)
    requires k <= |f| && d.Valid()
    ensures AddFeatures(d, f, k).Valid()
  {
    if k > 0 {
      AddFeaturesValid(d, f, k - 1);
      GetFound(f, k - 1);
      InsertValid(AddFeatures(d, f, k - 1), f[k - 1].0, Get(f, f[k - 1].0).value);
    }
  }

  lemma {:induction false} DomainOfPrefixValid(data: seq<Sample>, n: nat)
    requires n <= |data|
    ensures DomainOfPrefix(data, n).Valid()
  {
    if n > 0 {
      DomainOfPrefixValid(data, n - 1);
      AddFeaturesValid(DomainOfPrefix(data, n - 1), data[n - 1].features, |data[n - 1].features|);
    }
  }

  /** The built domain is a well-formed dictionary whose value lists are duplicate-free and non-empty. */
  lemma DomainOfValid(data: seq<Sample>)
    ensures DomainOf(data).Valid()
  {
    DomainOfPrefixValid(data, |data|);
  }

  // ---------------------------------------------------------------------
  // What the inner loop does to one attribute's list and to the key order

  /** Attribute `a` is among the first `k` pairs of `f`. */
  ghost predicate InPrefix(f: Features, k: nat, a: Attr)
    requires k <= |f|
  {
    exists p :: 0 <= p < k && f[p].0 == a
  }

  /** The inner loop appends `f[a]` to the list of `a` when `a` occurs and its value is new. */
  lemma {:induction false} AddFeaturesValues(d: Domain, f: Features, k: nat, a: Attr)
    requires k <= |f|
    ensures InPrefix(f, k, a) ==> HasAttr(f, a)
    ensures AddFeatures(d, f, k).ValuesOf(a)
         == if InPrefix(f, k, a) && Get(f, a).value !in d.ValuesOf(a)
            then d.ValuesOf(a) + [Get(f, a).value]
            else d.ValuesOf(a)
  {
    GetSpec(f, a);
    if k > 0 {
      AddFeaturesValues(d, f, k - 1, a);
      if f[k - 1].0 != a {
        if InPrefix(f, k, a) {
          var p :| 0 <= p < k && f[p].0 == a;
          assert p < k - 1;
        }
      } else {
        assert InPrefix(f, k, a);
      }
    }
  }

  /** The inner loop keeps the old keys as a prefix and adds only attributes of `f` that were absent. */
  lemma {:induction false} AddFeaturesKeys(d: Domain, f: Features, k: nat)
    requires k <= |f|
    ensures var r := AddFeatures(d, f, k);
      && |d.keys| <= |r.keys| && r.keys[..|d.keys|] == d.keys
      && (forall i :: |d.keys| <= i < |r.keys| ==> HasAttr(f, r.keys[i]) && r.keys[i] !in d.values)
      && (forall a :: a in r.values <==> a in d.values || InPrefix(f, k, a))
  {
    if k > 0 {
      AddFeaturesKeys(d, f, k - 1);
      var prev := AddFeatures(d, f, k - 1);
      var a := f[k - 1].0;
      var r := AddFeatures(d, f, k);
      GetFound(f, k - 1);
      assert r == Insert(prev, a, Get(f, a).value);
      assert HasAttr(f, a);
      forall b ensures b in r.values <==> b in d.values || InPrefix(f, k, b) {
        if InPrefix(f, k, b) && b != a {
          var p :| 0 <= p < k && f[p].0 == b;
          assert InPrefix(f, k - 1, b);
        }
        if InPrefix(f, k - 1, b) {
          var p :| 0 <= p < k - 1 && f[p].0 == b;
          assert InPrefix(f, k, b);
        }
        if b == a {
          assert InPrefix(f, k, b);
        }
      }
    }
  }

  // ---------------------------------------------------------------------
  // Coverage, soundness and first-appearance order

  /** The index of the first sample giving attribute `a` the value `v` (`|data|` if none does). */
  function FirstSeen(data: seq<Sample>, a: Attr, v: Value): (r: nat)
    ensures r <= |data|
    ensures r < |data| ==> Get(data[r].features, a) == Some(v)
    ensures forall m :: 0 <= m < r ==> Get(data[m].features, a) != Some(v)
  {
    if data == [] then 0
    else if Get(data[0].features, a) == Some(v) then 0
    else
      var r := 1 + FirstSeen(data[1..], a, v);
      assert forall m :: 1 <= m < |data| ==> data[m] == data[1..][m - 1];
      r
  }

  /** The index of the first sample that has attribute `a` (`|data|` if none has). */
  function FirstWith(data: seq<Sample>, a: Attr): (r: nat)
    ensures r <= |data|
    ensures r < |data| ==> HasAttr(data[r].features, a)
    ensures forall m :: 0 <= m < r ==> !HasAttr(data[m].features, a)
  {
    if data == [] then 0
    else if HasAttr(data[0].features, a) then 0
    else
      var r := 1 + FirstWith(data[1..], a);
      assert forall m :: 1 <= m < |data| ==> data[m] == data[1..][m - 1];
      r
  }

  ghost predicate ValuesInvariant(data: seq<Sample>, n: nat, a: Attr)
    requires n <= |data|
  {
    var vs := DomainOfPrefix(data, n).ValuesOf(a);
    && (forall i :: 0 <= i < |vs| ==> FirstSeen(data, a, vs[i]) < n)
    && (forall m :: 0 <= m < n && HasAttr(data[m].features, a) ==> Get(data[m].features, a).value in vs)
    && (forall i, j :: 0 <= i < j < |vs| ==> FirstSeen(data, a, vs[i]) < FirstSeen(data, a, vs[j]))
  }

  /** One sample's effect on a value list keeps the three facts of `ValuesInvariant`. */
  lemma ValuesStep(data: seq<Sample>, k: nat, a: Attr, old_: seq<Value>, vs: seq<Value>)
    requires k < |data|
    requires vs == old_ || (HasAttr(data[k].features, a) && Get(data[k].features, a).value !in old_
                            && vs == old_ + [Get(data[k].features, a).value])
    requires HasAttr(data[k].features, a) ==> Get(data[k].features, a).value in vs
    requires forall i :: 0 <= i < |old_| ==> FirstSeen(data, a, old_[i]) < k
    requires forall m :: 0 <= m < k && HasAttr(data[m].features, a) ==> Get(data[m].features, a).value in old_
    requires forall i, j :: 0 <= i < j < |old_| ==> FirstSeen(data, a, old_[i]) < FirstSeen(data, a, old_[j])
    ensures forall i :: 0 <= i < |vs| ==> FirstSeen(data, a, vs[i]) < k + 1
    ensures forall m :: 0 <= m < k + 1 && HasAttr(data[m].features, a) ==> Get(data[m].features, a).value in vs
    ensures forall i, j :: 0 <= i < j < |vs| ==> FirstSeen(data, a, vs[i]) < FirstSeen(data, a, vs[j])
  {
    if vs != old_ {
      var v := Get(data[k].features, a).value;
      assert FirstSeen(data, a, v) == k;
      assert forall i :: 0 <= i < |old_| ==> vs[i] == old_[i];
    }
  }

  lemma {:induction false} ValuesInvariantHolds(data: seq<Sample>, n: nat, a: Attr)
    requires n <= |data|
    ensures ValuesInvariant(data, n, a)
  {
    if n > 0 {
      var k := n - 1;
      ValuesInvariantHolds(data, k, a);
      var old_ := DomainOfPrefix(data, k).ValuesOf(a);
      var vs := DomainOfPrefix(data, n).ValuesOf(a);
      var f := data[k].features;
      AddFeaturesValues(DomainOfPrefix(data, k), f, |f|, a);
      GetSpec(f, a);
      if HasAttr(f, a) {
        var p :| 0 <= p < |f| && f[p] == (a, Get(f, a).value);
        assert InPrefix(f, |f|, a);
      }
      ValuesStep(data, k, a, old_, vs);
    }
  }

  /**
   * The value list of every attribute holds every value the attribute takes in
   * `data` and only such values, without duplicates, ordered by the index of
   * the sample where each first appears.
   */
  lemma DomainOfValues(data: seq<Sample>, a: Attr)
    ensures var vs := DomainOf(data).ValuesOf(a);
      && Distinct(vs)
      && (forall m :: 0 <= m < |data| && HasAttr(data[m].features, a) ==> Get(data[m].features, a).value in vs)
      && (forall i :: 0 <= i < |vs| ==> FirstSeen(data, a, vs[i]) < |data|)
      && (forall i, j :: 0 <= i < j < |vs| ==> FirstSeen(data, a, vs[i]) < FirstSeen(data, a, vs[j]))
  {
    ValuesInvariantHolds(data, |data|, a);
    DomainOfValid(data);
  }

  /** The position of the first pair of `f` whose attribute is `a` (`|f|` if none is). */
  function FirstPos(f: Features, a: Attr): (p: nat)
    ensures p <= |f|
    ensures p < |f| ==> f[p].0 == a
    ensures forall q :: 0 <= q < p ==> f[q].0 != a
  {
    if f == [] then 0
    else if f[0].0 == a then 0
    else
      var p := 1 + FirstPos(f[1..], a);
      assert forall q :: 1 <= q < |f| ==> f[q] == f[1..][q - 1];
      p
  }

  /**
   * Attribute `a` first appears in `data` before `b` does: in an earlier
   * sample, or in the same sample at an earlier position of its dictionary.
   */
  ghost predicate SeenBefore(data: seq<Sample>, a: Attr, b: Attr) {
    var m := FirstWith(data, a);
    || m < FirstWith(data, b)
    || (m == FirstWith(data, b) && m < |data| && FirstPos(data[m].features, a) < FirstPos(data[m].features, b))
  }

  /** The keys the inner loop adds for `f` are in the order of their first position in `f`. */
  lemma {:induction false} AddFeaturesKeyOrder(d: Domain, f: Features, k: nat)
    requires k <= |f|
    ensures var r := AddFeatures(d, f, k);
      && (forall i :: |d.keys| <= i < |r.keys| ==> FirstPos(f, r.keys[i]) < k)
      && (forall i, j :: |d.keys| <= i < j < |r.keys| ==> FirstPos(f, r.keys[i]) < FirstPos(f, r.keys[j]))
  {
    if k > 0 {
      AddFeaturesKeyOrder(d, f, k - 1);
      var prev := AddFeatures(d, f, k - 1);
      var a := f[k - 1].0;
      var r := AddFeatures(d, f, k);
      GetFound(f, k - 1);
      assert r == Insert(prev, a, Get(f, a).value);
      if a in prev.values || Get(f, a).value in prev.ValuesOf(a) {
        assert r.keys == prev.keys;
      } else {
        assert r.keys == prev.keys + [a];
        AbsentNotSeen(d, f, k - 1, a);
        FirstPosOfNew(f, k - 1);
      }
    }
  }

  /** An attribute the inner loop has not recorded after `k` pairs is not among them. */
  lemma AbsentNotSeen(d: Domain, f: Features, k: nat, a: Attr)
    requires k <= |f| && a !in AddFeatures(d, f, k).values
    ensures !InPrefix(f, k, a)
  {
    AddFeaturesKeys(d, f, k);
  }

  /** An attribute not among the first `k` pairs has its first position at `k` when pair `k` carries it. */
  lemma FirstPosOfNew(f: Features, k: nat)
    requires k < |f| && !InPrefix(f, k, f[k].0)
    ensures FirstPos(f, f[k].0) == k
  {
  }

  ghost predicate KeysInvariant(data: seq<Sample>, n: nat)
    requires n <= |data|
  {
    var d := DomainOfPrefix(data, n);
    && (forall i :: 0 <= i < |d.keys| ==> FirstWith(data, d.keys[i]) < n)
    && (forall m, b :: 0 <= m < n && HasAttr(data[m].features, b) ==> b in d.values)
    && (forall i, j :: 0 <= i < j < |d.keys| ==> SeenBefore(data, d.keys[i], d.keys[j]))
  }

  lemma {:induction false} KeysInvariantHolds(data: seq<Sample>, n: nat)
    requires n <= |data|
    ensures KeysInvariant(data, n)
  {
    if n > 0 {
      var k := n - 1;
      KeysInvariantHolds(data, k);
      var prev := DomainOfPrefix(data, k);
      var d := DomainOfPrefix(data, n);
      var f := data[k].features;
      AddFeaturesKeys(prev, f, |f|);
      AddFeaturesKeyOrder(prev, f, |f|);
      assert d == AddFeatures(prev, f, |f|);
      forall i | |prev.keys| <= i < |d.keys| ensures FirstWith(data, d.keys[i]) == k {
        var b := d.keys[i];
        assert HasAttr(data[k].features, b) && b !in prev.values;
        assert forall m :: 0 <= m < k ==> !HasAttr(data[m].features, b);
      }
      forall m, b | 0 <= m < n && HasAttr(data[m].features, b) ensures b in d.values {
        if m == k {
          GetSpec(f, b);
          var p :| 0 <= p < |f| && f[p] == (b, Get(f, b).value);
          assert InPrefix(f, |f|, b);
        }
      }
      assert forall i :: 0 <= i < |prev.keys| ==> d.keys[i] == prev.keys[i];
      forall i, j | 0 <= i < j < |d.keys| ensures SeenBefore(data, d.keys[i], d.keys[j]) {
        if j < |prev.keys| {
          assert d.keys[i] == prev.keys[i] && d.keys[j] == prev.keys[j];
        } else if i < |prev.keys| {
          assert d.keys[i] == prev.keys[i];
        }
      }
    }
  }

  /**
   * The keys are exactly the attributes occurring in `data`, in the order of
   * their first appearance: by the sample in which each first occurs, and
   * within that sample by its position in the sample's dictionary.
   */
  lemma DomainOfKeys(data: seq<Sample>)
    ensures forall a :: a in DomainOf(data).keys <==> FirstWith(data, a) < |data|
    ensures var ks := DomainOf(data).keys;
      forall i, j :: 0 <= i < j < |ks| ==> SeenBefore(data, ks[i], ks[j])
  {
    KeysInvariantHolds(data, |data|);
    DomainOfValid(data);
    var d := DomainOf(data);
    forall a | a in d.keys ensures FirstWith(data, a) < |data| {
      var i :| 0 <= i < |d.keys| && d.keys[i] == a;
    }
  }

  /** Every attribute value of every training sample is listed in the built domain. */
  lemma DomainOfCovers(data: seq<Sample>)
    ensures forall m, a :: 0 <= m < |data| && HasAttr(data[m].features, a) ==>
      Get(data[m].features, a).value in DomainOf(data).ValuesOf(a)
  {
    forall m, a | 0 <= m < |data| && HasAttr(data[m].features, a)
      ensures Get(data[m].features, a).value in DomainOf(data).ValuesOf(a)
    {
      DomainOfValues(data, a);
    }
  }

  /**
   * Splitting the training data on an attribute every sample has, over the
   * values the built domain lists for it, partitions the data: the subset
   * sizes add up to `|data|`.
   */
  lemma DomainPartition(data: seq<Sample>, a: Attr)
    requires forall i :: 0 <= i < |data| ==> HasAttr(data[i].features, a)
    ensures SubsetSizes(data, a, DomainOf(data).ValuesOf(a)) == |data|
  {
    DomainOfValues(data, a);
    PartitionSizes(data, a, DomainOf(data).ValuesOf(a));
  }
}
