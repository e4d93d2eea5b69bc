# ID3 decision-tree learner, modelled in Dafny

This project models the learner and classifier of `ID3.py`, an
implementation of the ID3 decision-tree algorithm over categorical
attributes with Boolean categories, and proves properties of the model.
The model covers:

- the attribute domain `possible_values` built at the start of `main`: for
  each attribute, the values it takes, without duplicates, in first-seen order;
- `select_samples`;
- the purity test inside `entropy` and the majority rule `leaf_value`;
- `decision_attr`, with the information gain passed in as a function;
- `decision_tree`, which builds a `Node` and adds its edges with `add_edge`;
- `classify`.

Modules, one per part of the program:

- `Wrappers` holds `Option`, `Result` and `Distinct`.
- `Samples` holds samples, dictionary lookup, `select_samples`, the label
  counts, purity and the majority rule.
- `Domains` holds the domain. `DomainOf` states it as a fold. The method
  `BuildDomain` runs the nested loops of lines 27-31 and is proved to give that fold.
- `Trees` holds the tree as a value and `classify`.
- `Learner` holds `decision_attr` and `decision_tree`:
  - `BestAttr` and `Build` are their specification functions;
  - `DecisionAttr` and `DecisionTree` are the loops, proved equal to them;
  - `DecisionTree` fills a `Node` object through `AddEdge`.
- `Consistency` proves that a finished build classifies every training
  sample with that sample's own category.

How the program is represented:

- A sample's attribute dictionary is a sequence of `(attribute, value)`
  pairs in insertion order. A lookup returns the first pair's value, or
  `None` where Python raises a KeyError.
- The domain is an insertion-ordered dictionary: a key sequence plus a map.
- Python exceptions become `Err` results:
  - a KeyError in `gain`, or `max()` of no gains, in `decision_attr`;
  - a KeyError or a StopIteration in `classify`.
- `decision_tree` need not terminate: it never removes the split attribute
  from the domain (ID3.py:79-82), so a subset can reproduce its parent.
  `Build` therefore carries a fuel bound on the depth of the recursion and
  returns `Err(OutOfFuel)` when that bound runs out. `Err(OutOfFuel)` stands
  for unbounded recursion, which CPython ends with a `RecursionError` after
  about a thousand nested calls. `BuildFuelMonotone` shows the bound only
  truncates:
  - any finished result stays the same with more fuel;
  - `ContradictoryRowsDiverge` shows two samples with equal attributes and
    opposite categories exhaust every fuel.
- `gain` divides by `len(data)` (ID3.py:138, 142). That is safe only
  because `decision_tree` calls `decision_attr` on impure, hence non-empty,
  data (ID3.py:76-79). Accordingly `BestAttr` requires non-empty data.

## Model

| member | source | states |
|---|---|---|
| `Samples.GetSpec` | ID3.py:125 | a dictionary lookup raises exactly when no pair carries the attribute, and otherwise returns a value paired with it |
| `Samples.GetFirst` | ID3.py:125 | the lookup returns the value of the first pair carrying the attribute |
| `Samples.SelectSamplesMembers` | ID3.py:124-125 | `select_samples` keeps exactly the samples of `data` whose attribute has the value |
| `Samples.SelectSamplesAppend` | ID3.py:124-125 | selection distributes over concatenation, so it keeps the samples in their original order |
| `Samples.CountLabelExtremes` | ID3.py:152-155 | the positive (negative) count equals `len(data)` exactly when every sample is positive (negative), and is 0 exactly when none is |
| `Samples.CountLabelsSum` | ID3.py:102-103 | `pos + neg == len(data)` |
| `Samples.PureIffUniform` | ID3.py:148-159 | `entropy` returns 0.0 (`pos == total or neg == total`) exactly when all categories agree, the empty data included |
| `Samples.LeafValueMajority` | ID3.py:101-107 | `leaf_value` is true exactly when the positives are a strict majority, so ties and empty data give false; on pure non-empty data it is the common category |
| `Samples.PartitionSizes` | ID3.py:140-142 | over a duplicate-free value list covering every sample, the sizes of the `select_samples` subsets add up to `len(data)` |
| `Domains.BuildDomain` | ID3.py:27-31 | the nested loops build exactly the domain `DomainOf(data)` |
| `Domains.DomainOfValid` | ID3.py:27-31 | the built domain has distinct keys, each with a non-empty list without duplicates |
| `Domains.DomainOfValues` | ID3.py:27-31 | each list has no duplicates, holds every value its attribute takes in `data` and no other, and is ordered by the index of the sample where each value first appears |
| `Domains.DomainOfKeys` | ID3.py:27-31 | the keys are exactly the attributes occurring in `data`, in order of first appearance: by the sample in which each first occurs, and within that sample by its position in the sample's dictionary |
| `Domains.DomainOfCovers` | ID3.py:27-31 | every attribute value of every training sample is listed in the domain |
| `Domains.DomainPartition` | ID3.py:80-82 | splitting the training data on an attribute every sample has, over the domain's values for it, partitions the data |
| `Trees.FindEdge` | ID3.py:94 | `next(...)` over the edges finds the first edge labelled with the value, and fails exactly when none is |
| `Trees.ClassifyOutcomes` | ID3.py:87-97 | `classify` returns a leaf's category, raises a KeyError when the sample lacks the attribute of a node with edges, and a StopIteration when no edge matches (a node without edges included) |
| `Trees.ClassifyDescends` | ID3.py:94-95 | otherwise `classify` continues below the first edge labelled with the sample's value |
| `Trees.ClassifyTotal` | ID3.py:87-97 | on a tree whose nodes have one edge per domain value, a sample with a listed value for every key is classified without raising |
| `Learner.Max` | ID3.py:118 | `max()` returns an element that no element exceeds |
| `Learner.FirstIndexOf` | ID3.py:119 | the index returned is the first entry equal to the maximum |
| `Learner.BestAttrIsKey` | ID3.py:111-119 | a selected attribute is a key of the domain whose gain is defined |
| `Learner.BestAttrIsFirstMax` | ID3.py:111-119 | `decision_attr` raises a KeyError exactly when some key's gain raises, fails on `max()` exactly when there are no keys, and otherwise, and only then, returns an attribute: a key with the largest gain such that every earlier key's gain is smaller |
| `Learner.MaxOf` | ID3.py:118 | the loop computes `max()` of the gains |
| `Learner.IndexOf` | ID3.py:119 | the search stops at the first gain equal to the maximum |
| `Learner.DecisionAttr` | ID3.py:111-119 | the loop filling `attr_gain` and the lookup of the maximum give the result of `BestAttr` |
| `Learner.Node.constructor` | ID3.py:56-59 | a new internal node has its attribute and no edges |
| `Learner.Node.AddEdge` | ID3.py:60-61 | `add_edge` appends the edge and changes nothing else |
| `Learner.BuildEdgesStep` | ID3.py:80-82 | one more turn of the edge loop appends the edge for the next value, or fails with the child's failure |
| `Learner.BuildEdgesPrefixErr` | ID3.py:80-82 | once the edge loop has failed on a prefix of the values, the whole loop fails in the same way |
| `Learner.DecisionTree` | ID3.py:74-84 | the recursive builder with its `Node` and edge loop returns exactly `Build(data, d, gain, fuel)` |
| `Learner.BuildEdgesShape` | ID3.py:80-82 | the edge loop yields one edge per value, in order, the edge for `v` leading to the tree built from `select_samples(data, attr, v)` |
| `Learner.BuildShape` | ID3.py:74-84 | on pure data the result is the leaf `leaf_value(data)`; otherwise an internal node on `decision_attr`'s choice, with one edge per domain value of it, in domain order, each child built from the samples having that value |
| `Learner.BuildFuelMonotone` | ID3.py:74-84 | a build that finishes, with a tree or an error, with some fuel gives the same result with more fuel |
| `Learner.BuildConforms` | ID3.py:79-82 | every internal node of a built tree splits on a key of the domain and has one edge per domain value of that key |
| `Learner.TwinsDomainOf` | ID3.py:27-31 | two samples with the same single attribute value yield the domain with that one attribute and value |
| `Learner.TwinsBestAttr` | ID3.py:111-119 | on that domain `decision_attr` picks its only attribute, whatever the gains |
| `Learner.ContradictoryRowsDiverge` | ID3.py:74-84 | on two samples with equal attributes and opposite categories, the recursion of `decision_tree` is unbounded (CPython stops it with a `RecursionError`): every fuel runs out |
| `Consistency.BuildClassifiesMembers` | ID3.py:76-95 | a sample of the data a tree was built from, whose values the domain lists, is classified with its own category |
| `Consistency.TrainingConsistency` | ID3.py:74-97 | whenever `decision_tree(data, possible_values)` finishes with the domain built from `data`, `classify` gives every training sample its own category |
| `Consistency.BuildClassifiesTotal` | ID3.py:87-97 | a built tree classifies, without raising, every sample with a listed value for each key of the domain |

## Left out

- The floating-point bodies of `entropy` and `gain` (ID3.py:161-164, 128-145) are not modelled. The gain is an arbitrary real-valued function argument. So nothing is proved about gain values, and the weather data's root split is not derived.
- The model treats `entropy(data) == 0.0` as exactly the count test of line 158. It relies on the logarithm formula never rounding to 0.0 on impure data.
- `Learner.Max`: compares exact reals, so NaN and the ordering quirks of Python floats in `max()` are not modelled.
- The hardcoded dataset, the demo classifications and all printing in `main` (ID3.py:6-21, 33-49) are left out, being console I/O.
- `print_tree` (ID3.py:167-187) is left out. It only prints.
- The `Edge.tail` back-pointer (ID3.py:67-70) is left out, since nothing reads it. A tree is a value, with children held by their edges.
- `defaultdict` auto-insertion is replaced by an explicit ordered domain.
  - In lines 27-31 a key is inserted together with its first value.
  - The empty list of an absent key is returned without inserting it.
  - Line 80 looks up only keys that exist.
- General termination of `decision_tree` is not claimed. `Build` bounds the recursion depth by fuel, and `Learner.ContradictoryRowsDiverge` exhibits an input on which the recursion is unbounded.
- The interpreter's recursion limit is not modelled. CPython raises `RecursionError` once `decision_tree` nests about a thousand calls deep. With enough fuel, `Build` returns `Ok` even on a build that deep.
- `Samples.SelectSamples`: skips a sample that lacks the attribute instead of raising a KeyError. Inside a build this cannot be observed:
  - `gain` has already selected on the same data and attribute, and would have raised (`Learner.GainDefined`);
  - when the attribute has no listed value, the edge loop does not run.
- Python objects have identity and can be shared. The tree here is a value. Only the node under construction is an object (`Learner.Node`), and its edges are added in place.
