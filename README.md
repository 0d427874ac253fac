# P-WL in Dafny

A model of the core of P-WL, the persistent Weisfeiler–Lehman graph features of
BorgwardtLab/P-WL. The pipeline it models:

1. **Relabelling** (`weisfeiler_lehman.py`, `LabelGenerator.py`). In every
   Weisfeiler–Lehman iteration each vertex forms the list of its own label followed by
   the sorted labels of its neighbours. The list is joined into one string without a
   separator. A wrapping label counter started at `str(n)` hands out one label per vertex,
   `str(n)`, …, `str(2n-1)` in vertex order, and the dictionary maps each string to the
   label drawn at its last occurrence. Vertices get the label of their string.
2. **Edge weights** (`WeightAssigner` in `src/features.py`, `features.py` and
   `weight_assigner.py`). Each edge gets a weight: a distance between the label
   multisets of its endpoints (Sørensen, Hamming, Jaccard, Canberra or uniform), plus
   a mismatch term for the primary labels and a base weight. Jaccard is `_jaccard` as
   written, which agrees with the multiset Jaccard distance only on label lists without
   repetitions (see Findings).
3. **Zero-dimensional persistence** (`topology.py`). A union–find structure runs over
   the edges in the order of their filtration values. It yields one
   (creation, destruction) pair per vertex, the edges that close cycles, and the number
   of connected components.
4. **Feature matrices** (`src/features.py`):
   - `PersistenceFeaturesGenerator` turns each graph's diagram into one row. A row may
     hold the infinity norm, the total persistence, per-label persistence, per-label
     vertex counts and per-label cycle persistence.
   - `get_subtree_feature_vectors` builds plain label histograms.
   - `FeatureSelector` keeps the columns of the first iterations.

Each module is one file:

| file | module | what it holds |
|---|---|---|
| wrappers.dfy | Wrappers | `Option`, `Result`, the Python exceptions that can be raised, `OkPrefix` |
| decimal.dfy | Decimal | `str()` of integers, its injectivity and prefix-freeness |
| label_generator.dfy | LabelGenerator | the class `LabelGenerator` |
| string_order.dfy | StringOrder | the order of Python strings, `sorted` |
| weisfeiler_lehman.dfy | WeisfeilerLehman | the class `WL`, the iteration as a function, refinement |
| label_vectors.dfy | LabelVectors | `WeightAssigner._to_vectors` |
| distances.dfy | Distances | the distances on count vectors |
| weight_assignment.dfy | WeightAssignment | the label lists, the primary-label mismatch and the edge loop shared by the assigners |
| feature_weights.dfy | FeatureWeights | `WeightAssigner` of `src/features.py` |
| base_weights.dfy | BaseWeights | `WeightAssigner` of `features.py` |
| similarity_weights.dfy | SimilarityWeights | `WeightAssigner` of `weight_assigner.py` |
| union_find.dfy | UnionFind | the class `UnionFind` of `topology.py` |
| topology.dfy | Topology | `PersistenceDiagram`, `PersistenceDiagramCalculator`, the diagram as a function |
| feature_matrix.dfy | FeatureMatrix | the label-set check and the per-label accumulation |
| persistence_features.dfy | PersistenceFeatures | `PersistenceFeaturesGenerator` of `src/features.py` |
| subtree_features.dfy | SubtreeFeatures | `get_subtree_feature_vectors`, `FeatureSelector` |
| root_features.dfy | RootFeatures | `PersistenceFeaturesGenerator` of `features.py` |

Code that changes state in place is modelled by classes and loop methods:

- `LabelGenerator`, `WL`, `UnionFind`, `PersistenceDiagram` and both
  `PersistenceFeaturesGenerator`s are classes;
- the weight assignment, the edge loop of the diagram calculation, the per-label
  accumulations and the filling of the feature matrix are loop methods.

Each such method is proved against a specification function. The lemmas beside that
function state what the source promises about it.

## Model

Specification functions that carry no `ensures` of their own (for example
`Distances.Sorensen`, `Distances.Jaccard`, `Topology.Step`,
`RootFeatures.PersistenceFeaturesGenerator.NumColumns`) have no row; the rows of the lemmas
that state their properties cover them (`Distances.SorensenProperties`,
`Distances.JaccardProperties`, `Topology.RunInvariant`,
`RootFeatures.PersistenceFeaturesGenerator.SameWidthAsGenerator`).

| member | source | states |
|---|---|---|
| LabelGenerator.Range | LabelGenerator.py:9 | `np.arange(lo, hi, 1)` has `hi - lo` entries, or none when `hi <= lo`, and entry i is `lo + i` |
| LabelGenerator.NthLabelDistinct | LabelGenerator.py:11-19 | within one round of `length` calls no label `NthLabel` hands out repeats |
| LabelGenerator.NthLabelPeriodic | LabelGenerator.py:15-19 | after `length` calls the generator starts over: `NthLabel` of call k + length is that of call k |
| LabelGenerator.CounterStep | LabelGenerator.py:12-18 | the counter after a number of calls (`CounterAfter`): below `length` it is the call count modulo `length` and goes up by one; at `length` it restarts at 1 |
| LabelGenerator.LabelGenerator.constructor | LabelGenerator.py:5-9 | a generator exists only for a positive length, since `np.nditer` refuses the empty range with ValueError; stores start and length, and the counter and the number of calls are 0 |
| LabelGenerator.LabelGenerator.GetNextLabel | LabelGenerator.py:11-19 | call k hands out `NthLabel`, that is `str(start + k mod length)`, restarting after `length` calls; the counter stays in 1..length |
| Decimal.NatToString | LabelGenerator.py:14 | `str(n)` is a non-empty string of digits that starts with '0' only for 0 and has at least two digits from 10 on |
| Decimal.IntToString | LabelGenerator.py:14 | `str(i)` is non-empty and starts with '-' exactly for negative i |
| Decimal.NatToStringInjective | LabelGenerator.py:14 | different natural numbers have different decimal strings |
| Decimal.IntToStringInjective | LabelGenerator.py:14 | different integers have different `str` values |
| Decimal.DecimalRangePrefixFree | weisfeiler_lehman.py:50 | the strings of n, …, 2n-1, the labels of one iteration, are a prefix-free code |
| StringOrder.LexLeqReflexive | weisfeiler_lehman.py:86 | the string order `sorted` uses is reflexive |
| StringOrder.LexLeqTotal | weisfeiler_lehman.py:86 | any two strings are comparable |
| StringOrder.LexLeqAntisymmetric | weisfeiler_lehman.py:86 | strings that are each at most the other are equal |
| StringOrder.LexLeqTransitive | weisfeiler_lehman.py:86 | the order is transitive |
| StringOrder.Insert | weisfeiler_lehman.py:86 | inserting adds exactly one copy of the element |
| StringOrder.Sort | weisfeiler_lehman.py:86 | `sorted` returns a permutation of its argument |
| StringOrder.InsertSorted | weisfeiler_lehman.py:86 | inserting into an ascending list keeps it ascending |
| StringOrder.SortSorted | weisfeiler_lehman.py:86 | `sorted` returns an ascending list |
| StringOrder.SortedUnique | weisfeiler_lehman.py:86 | two ascending lists with the same elements are equal |
| StringOrder.SortDependsOnMultiset | weisfeiler_lehman.py:86 | lists with the same elements sort to the same list |
| WeisfeilerLehman.NeighborsAscending | weisfeiler_lehman.py:82 | `X.neighbors(v)` lists vertices of the graph in increasing id order |
| WeisfeilerLehman.MultiplicityCounts | weisfeiler_lehman.py:82 | `Multiplicity(edges, v, u)` (u counted once per edge joining it to v, twice per loop) is the number of times u occurs among v's neighbours taken edge by edge |
| WeisfeilerLehman.NeighborsCount | weisfeiler_lehman.py:82 | `X.neighbors(v)` holds each vertex exactly as often as it is a neighbour of v |
| WeisfeilerLehman.NeighborsPermuteIncident | weisfeiler_lehman.py:82 | the neighbours in id order are a permutation of the neighbours taken edge by edge |
| WeisfeilerLehman.NeighborLabels | weisfeiler_lehman.py:82-88 | a vertex has one neighbour label per neighbour in `X.neighbors(v)`, in that order |
| WeisfeilerLehman.EdgeOrderNeighbors | weisfeiler_lehman.py:82-88 | with edges [(0,2),(0,1)] and labels a, c, b the unsorted neighbour labels of vertex 0 are c then b: id order, not edge order |
| WeisfeilerLehman.Merged | weisfeiler_lehman.py:59 | one merged list per vertex |
| WeisfeilerLehman.Keys | weisfeiler_lehman.py:71 | one dictionary key per merged list |
| WeisfeilerLehman.Drawn | weisfeiler_lehman.py:74-79 | the labels drawn for m lists are m labels |
| WeisfeilerLehman.DrawNext | weisfeiler_lehman.py:76-77 | drawing for one more list extends the drawn labels by the generator's next label and adds or overwrites that list's key |
| WeisfeilerLehman.DrawnDictInjective | weisfeiler_lehman.py:74-79 | while one round of the generator suffices, distinct keys get distinct labels |
| WeisfeilerLehman.FreshDrawn | weisfeiler_lehman.py:50 | a fresh `LabelGenerator(n, n)` hands out `str(n)`, …, `str(2n-1)` on its first n calls |
| WeisfeilerLehman.FreshDrawnDictGivesStepLabels | weisfeiler_lehman.py:50-66 | with a fresh generator, the dictionary maps each vertex's key to the label the iteration gives that vertex |
| WeisfeilerLehman.RelabelGraph | weisfeiler_lehman.py:70-72 | relabelling keeps a well-formed graph |
| WeisfeilerLehman.StepLabels | weisfeiler_lehman.py:63-66 | one new label per vertex |
| WeisfeilerLehman.StepLabelsEqualIffKeysEqual | weisfeiler_lehman.py:63-72 | two vertices get the same new label exactly when their keys are equal |
| WeisfeilerLehman.StepLabelRange | weisfeiler_lehman.py:50 | every new label is `str(k)` for some k in n..2n-1 |
| WeisfeilerLehman.WLStep | weisfeiler_lehman.py:48-67 | an iteration keeps the vertices and edges |
| WeisfeilerLehman.Iterate | weisfeiler_lehman.py:48-67 | any number of iterations keep the vertices and edges |
| WeisfeilerLehman.WLStepEqualIffKeysEqual | weisfeiler_lehman.py:53-72 | in a graph, two vertices share a new label exactly when their joined merged lists agree |
| WeisfeilerLehman.StepDistinctLabelsAtMostN | weisfeiler_lehman.py:50 | an iteration produces at most n distinct labels |
| WeisfeilerLehman.JoinInjective | weisfeiler_lehman.py:71 | `''.join` of lists of words from a prefix-free code is injective |
| WeisfeilerLehman.StepLabelsPrefixFree | weisfeiler_lehman.py:50 | the labels an iteration produces form a prefix-free code |
| WeisfeilerLehman.RefinesWhenPrefixFree | weisfeiler_lehman.py:59-71 | with prefix-free labels, vertices that share a new label had the same merged list, so the same old label |
| WeisfeilerLehman.RefinementFromSecondIteration | weisfeiler_lehman.py:48-67 | from the second iteration on, vertices that share a label shared one in the previous iteration |
| WeisfeilerLehman.FirstIterationCanMerge | weisfeiler_lehman.py:71 | the first iteration need not refine: labels "1", "23", "12", "3" give two vertices with different labels the key "123" |
| WeisfeilerLehman.RelabelWithFreshDict | weisfeiler_lehman.py:63-66 | relabelling with the dictionary of a fresh generator is one iteration |
| WeisfeilerLehman.RoundIsStep | weisfeiler_lehman.py:50-66 | neighbour lists, prepending, the dictionary and the relabelling together compute one iteration |
| WeisfeilerLehman.NeighborLists | weisfeiler_lehman.py:82-89 | one list per vertex: its neighbours' labels in neighbour-id order, sorted on request |
| WeisfeilerLehman.Prepend | weisfeiler_lehman.py:59 | one merged list per vertex |
| WeisfeilerLehman.MergedFromNeighborLists | weisfeiler_lehman.py:56-59 | each vertex's own label prepended to its sorted neighbour labels gives the merged lists |
| WeisfeilerLehman.WL.constructor | weisfeiler_lehman.py:38-40 | empty `_multisets` and `_graphs` |
| WeisfeilerLehman.WL.GetNeighborLabels | weisfeiler_lehman.py:81-89 | the neighbour label list of every vertex, in neighbour-id order or sorted when `sort` is set |
| WeisfeilerLehman.WL.NeighborListOf | weisfeiler_lehman.py:84-88 | the labels of one vertex's neighbours, in neighbour-id order or sorted when `sort` is set |
| WeisfeilerLehman.WL.GenerateLabelDict | weisfeiler_lehman.py:74-79 | draws one label per list in order, a repeated key keeping its last label; the generator advances by one call per list |
| WeisfeilerLehman.WL.Round | weisfeiler_lehman.py:49-67 | on a graph without vertices `LabelGenerator(0, 0)` raises ValueError and nothing is stored; otherwise the round computes one iteration and stores the merged lists and the new graph under its number |
| WeisfeilerLehman.WL.Relabel | weisfeiler_lehman.py:52-67 | with a fresh `LabelGenerator(n, n)`, the merged lists, the label dictionary and the relabelling give exactly one iteration of the step function, stored under the round's number |
| WeisfeilerLehman.WL.FitTransform | weisfeiler_lehman.py:45-68 | the input is stored under 0; with at least one iteration a graph without vertices raises ValueError; otherwise the result is the graph after `num_iterations` iterations and iteration k is stored under k |
| Wrappers.OkPrefix | src/features.py:56-78 | the number of leading loop steps that succeeded: all steps before it succeed and the step at it, if any, fails |
| Wrappers.OkPrefixAt | src/features.py:56-78 | a loop that ran k successful steps and then failed, or ended, stopped at `OkPrefix` |
| LabelVectors.DistinctProperties | src/features.py:179-184 | the label numbering has no duplicates and holds exactly the labels of A + B |
| LabelVectors.DistinctSnoc | src/features.py:181-184 | a label gets a new index exactly when it was not seen before, after all earlier ones |
| LabelVectors.IndexOf | src/features.py:183 | the index of a label is a position that holds it |
| LabelVectors.IndexOfUnique | src/features.py:179-184 | in a duplicate-free numbering every position is the index of its own label |
| LabelVectors.IndexOfSnoc | src/features.py:182-184 | a new label gets the next index and earlier labels keep theirs |
| LabelVectors.NumberedSnoc | src/features.py:182-184 | `label_to_index[label] = index` keeps the dictionary a numbering of the labels seen so far |
| LabelVectors.IndexLabels | src/features.py:179-184 | the dictionary numbers the distinct labels of A + B in order of first occurrence; `index` ends at their number |
| LabelVectors.CountVector | src/features.py:186-193 | one count per numbered label |
| LabelVectors.CountVectorSnoc | src/features.py:190 | one more occurrence of a label increments exactly that label's entry |
| LabelVectors.CountInto | src/features.py:189-193 | the counting loop turns the zero vector into the count vector of its list |
| LabelVectors.ToVectors | src/features.py:161-195 | fresh arrays a and b holding the counts of A and B over the labels of A + B in first-occurrence order |
| LabelVectors.VectorSums | src/features.py:186-193 | both vectors have one entry per distinct label; their sums are len(A) and len(B) |
| LabelVectors.VectorsCover | src/features.py:179-184 | every label counted occurs in A or in B, so a[i] + b[i] >= 1 and `_canberra` never divides by zero |
| LabelVectors.VectorsEqualIffSameMultiset | src/features.py:161-195 | the two vectors are equal exactly when A and B hold the same labels the same number of times |
| LabelVectors.DocstringExample | src/features.py:165-167 | {a, a, b} and {a, c, c} become (2, 1, 0) and (1, 0, 2) |
| LabelVectors.DocstringKeys | src/features.py:179-184 | the docstring example numbers a, b, c in that order |
| Distances.SorensenProperties | src/features.py:148-159 | `_sorensen` lies in [0, 1], is 0 exactly for equal multisets and is symmetric |
| Distances.SorensenDenominator | src/features.py:151 | `sum(a + b)` is len(A) + len(B) |
| Distances.HammingIsSorensen | features.py:91-108 | the `Counter`-based `_hamming` equals `_sorensen` |
| Distances.HammingProperties | features.py:98-108 | `_hamming` is 0.0 for two empty lists, lies in [0, 1], is 0 exactly for equal multisets and is symmetric |
| Distances.CanberraProperties | src/features.py:107-109 | `_canberra` lies between 0 and the number of distinct labels, is 0 exactly for equal multisets and is symmetric |
| Distances.CanberraOfSum | src/features.py:107-109 | `_canberra` is a sum of per-label terms over the labels of A + B |
| Distances.JaccardAsWrittenOnSets | src/features.py:111-121 | on lists without repeated labels `_jaccard` as written is the multiset Jaccard distance |
| Distances.JaccardAsWrittenNegative | src/features.py:111-121 | `_jaccard(["x","x","x"], ["x","x"])` as written is -1.0; the multiset Jaccard distance is 1/3 |
| Distances.RepeatedLabelVectors | src/features.py:112-115 | the vectors of that input are (3) and (2), so the denominator is 1 - (1-3)(1-2) = -1 |
| Distances.JaccardProperties | src/features.py:111-121 | the corrected Jaccard distance lies in [0, 1], is 0 exactly for equal multisets and is symmetric |
| Distances.JaccardAsWrittenSymmetric | src/features.py:111-121 | `_jaccard` as written is symmetric in its two label lists |
| Distances.JaccardAsWrittenZero | src/features.py:111-121 | `_jaccard(["x","x","y"], ["x","x","x"])` as written is 0.0 although the multisets differ; the multiset Jaccard distance is 1/2 |
| Distances.SumOverPermutation | src/features.py:181-193 | a per-label sum does not depend on the order in which labels were numbered |
| Distances.SumOverSymmetric | src/features.py:161-195 | swapping A and B permutes the numbering and leaves per-label sums of symmetric terms unchanged |
| Distances.AbsDiffZeroIff | src/features.py:159 | `sum(abs(a - b))` is 0 exactly when a == b |
| Distances.AbsDiffAtMostSum | src/features.py:159 | `sum(abs(a - b)) <= sum(a + b)` for counts |
| Distances.AbsDiffAtMostMax | src/features.py:121 | `sum(abs(a - b))` is at most the summed larger counts |
| Distances.ProductSumOnZeroOne | src/features.py:115 | for 0/1 vectors `n - sum((1-a)(1-b))` is the size of the union |
| WeightAssignment.Split | src/features.py:59-65 | `labels[0]` and `labels[1:]` exist exactly for a non-empty list; otherwise IndexError |
| WeightAssignment.SplitJoin | src/features.py:62-65 | the primary label followed by the secondary labels is the whole list |
| WeightAssignment.SplitScalar | src/features.py:82-92 | a single label is wrapped: it is the primary label and there are no secondary labels |
| WeightAssignment.Mismatch | src/features.py:71 | `(source_label != target_label)` is 0 exactly for equal labels and 1 otherwise |
| WeightAssignment.EdgeResults | src/features.py:56-65 | one weight or exception per edge, in edge order: entry e is the outcome for the labels of edge e's endpoints |
| WeightAssignment.AssignWeights | src/features.py:56-78 | the edge loop succeeds exactly when every edge's weight does; the edges before the first failing one get their weight (added to the old one in smooth mode), the others keep theirs, and the exception is that edge's |
| FeatureWeights.Lookup | src/features.py:33-51 | a found metric carries the name looked up; no metric carries a name that is not found |
| FeatureWeights.LookupName | src/features.py:33-42 | every metric is found under its own name |
| FeatureWeights.New | src/features.py:27-52 | the constructor succeeds exactly for the eight metric names and stores p, tau and smooth; RuntimeError otherwise |
| FeatureWeights.WeightAssigner.FitTransform | src/features.py:54-80 | succeeds exactly when every edge's labels are non-empty, and otherwise raises IndexError; the edges before the first failure are assigned their weight (added to the old one with `smooth`) and the others keep theirs |
| FeatureWeights.UniformWeight | src/features.py:65-70 | with the uniform metric every weight is exactly 1.0, without tau or mismatch |
| FeatureWeights.DistanceProperties | src/features.py:107-159 | Canberra and Sørensen, and Jaccard on label lists without repetitions, are non-negative, symmetric and 0 exactly for equal multisets; Jaccard and Sørensen are at most 1 |
| FeatureWeights.DistanceSymmetric | src/features.py:107-159 | every modelled distance, `_jaccard` as written included, is symmetric |
| FeatureWeights.WeightBounds | src/features.py:65-71 | a weight lies between tau and tau + 2 (Canberra: tau + 1 + the number of distinct labels); for Jaccard on secondary labels without repetitions |
| FeatureWeights.WeightIsTauIff | src/features.py:65-71 | a weight is exactly tau when the primary labels agree and the secondary labels are the same multiset; for Jaccard on secondary labels without repetitions |
| FeatureWeights.JaccardWeightBelowTau | src/features.py:57-71 | with 'jaccard', the labels ["p","x","x","x"] and ["p","x","x"] get weight tau - 1.0, below the lower bound of the other metrics |
| FeatureWeights.JaccardWeightIsTau | src/features.py:57-71 | with 'jaccard', the labels ["p","x","x","y"] and ["p","x","x","x"] get weight exactly tau although their secondary multisets differ |
| FeatureWeights.JaccardWeightSameHead | src/features.py:57-71 | with 'jaccard' and equal primary labels the weight is `_jaccard` as written of the secondary labels plus tau |
| FeatureWeights.WeightSymmetric | src/features.py:56-71 | swapping the endpoints changes neither success nor weight |
| FeatureWeights.ScalarLabelsWeight | src/features.py:59-71 | for single labels the weight is the mismatch plus tau |
| BaseWeights.Lookup | features.py:30-42 | a found metric carries the name looked up; no metric carries a name that is not found |
| BaseWeights.LookupName | features.py:30-37 | every metric is found under its own name |
| BaseWeights.New | features.py:23-42 | the constructor succeeds exactly for the six metric names and stores the base weight; RuntimeError otherwise |
| BaseWeights.DefaultAssigner | features.py:23 | the defaults are 'hamming' with base weight 1.0 |
| BaseWeights.DistanceProperties | features.py:87-140 | Canberra, Hamming and Sørensen, and Jaccard on label lists without repetitions, are non-negative, symmetric and 0 exactly for equal multisets; all but Canberra are at most 1 |
| BaseWeights.DistanceSymmetric | features.py:87-140 | every modelled distance, `_jaccard` as written included, is symmetric |
| BaseWeights.WeightAssigner.FitTransform | features.py:44-60 | succeeds exactly when every edge's labels are non-empty, and otherwise raises IndexError; the edges before the first failure are overwritten with their weight and the others keep theirs |
| BaseWeights.WeightBounds | features.py:55-57 | a weight lies between the base weight and the base weight + 2 (Canberra: + 1 + the number of distinct labels); for Jaccard on secondary labels without repetitions |
| BaseWeights.WeightIsBaseIff | features.py:55-57 | a weight is exactly the base weight when the primary labels agree and the secondary labels are the same multiset; for Jaccard on secondary labels without repetitions |
| BaseWeights.JaccardWeightBelowBase | features.py:47-57 | with 'jaccard', the labels ["p","x","x","x"] and ["p","x","x"] get the base weight - 1.0, below the lower bound of the other metrics |
| BaseWeights.JaccardWeightIsBase | features.py:47-57 | with 'jaccard', the labels ["p","x","x","y"] and ["p","x","x","x"] get exactly the base weight although their secondary multisets differ |
| BaseWeights.JaccardWeightSameHead | features.py:47-57 | with 'jaccard' and equal primary labels the weight is `_jaccard` as written of the secondary labels plus the base weight |
| BaseWeights.WeightSymmetric | features.py:46-57 | swapping the endpoints changes neither success nor weight |
| BaseWeights.ScalarLabelsWeight | features.py:49-57 | for single labels the weight is the mismatch plus the base weight |
| SimilarityWeights.New | weight_assigner.py:12-24 | the constructor succeeds exactly for 'hamming' and 'jaccard'; RuntimeError otherwise |
| SimilarityWeights.WeightAssigner.FitTransform | weight_assigner.py:26-41 | the edges before the first failing edge are overwritten with a weight that depends on the labels alone, so a second call writes the same weights; the others keep theirs; the error is that edge's |
| SimilarityWeights.WeightRange | weight_assigner.py:37-72 | a Hamming weight lies in [0, 2] and is 0 exactly when the primary labels agree and the secondary labels are the same multiset |
| SimilarityWeights.WeightSymmetric | weight_assigner.py:29-38 | swapping the endpoints changes neither the outcome nor the weight |
| SimilarityWeights.JaccardRaises | weight_assigner.py:74 | `_jaccard` is declared without `self`, so the 'jaccard' measure raises TypeError on every edge with non-empty labels |
| SimilarityWeights.ScalarLabelsWeight | weight_assigner.py:31-53 | for single labels the Hamming weight is exactly the primary-label mismatch |
| UnionFind.Root | topology.py:127-137 | the root `find` reaches is its own parent, of higher rank than any other vertex on the way |
| UnionFind.Comps | topology.py:127-137 | one root per vertex; a vertex is its own root exactly when it is its own parent |
| UnionFind.FixpointsAreFixed | topology.py:148-156 | the roots are exactly the self-parented vertices, in increasing order |
| UnionFind.FixpointsSnoc | topology.py:154-156 | one more vertex is yielded exactly when it is its own parent |
| UnionFind.RelinkSame | topology.py:145 | merging a component into itself changes nothing |
| UnionFind.Relink | topology.py:139-146 | the component map after a merge has one entry per vertex |
| UnionFind.Fixpoints | topology.py:148-156 | there are at most as many roots as vertices |
| UnionFind.RedirectToRoot | topology.py:136 | pointing a vertex at its root keeps a forest and every vertex's root |
| UnionFind.HangRoot | topology.py:146 | hanging one root below another keeps a forest; the first root's component joins the second's |
| UnionFind.UnionFind.constructor | topology.py:119-125 | every vertex is its own component |
| UnionFind.UnionFind.Find | topology.py:127-137 | returns u's root, leaves u pointing at it and changes no vertex's root |
| UnionFind.UnionFind.Merge | topology.py:139-146 | u's component joins v's root; no other component changes |
| UnionFind.UnionFind.Roots | topology.py:148-156 | the self-parented vertices, in increasing order |
| Topology.Abs | topology.py:58 | `abs(x)` is non-negative and is x or -x |
| Topology.Persistence | topology.py:58-65 | the persistence of a pair is non-negative |
| Topology.PowerSum | topology.py:58 | the summed persistence is non-negative |
| Topology.PowerSumBound | topology.py:58 | the sum is at least each pair's persistence |
| Topology.MaxPersistence | topology.py:65 | `max` is attained by a pair and bounds all others |
| Topology.OffDiagonalMembers | topology.py:67-73 | a pair survives exactly when its creation and destruction differ |
| Topology.OffDiagonalConcat | topology.py:73 | the filter works pair by pair, so the order of the survivors is kept |
| Topology.OffDiagonalIdempotent | topology.py:67-73 | removing the diagonal twice is removing it once |
| Topology.PersistenceDiagram.constructor | topology.py:21-23 | no pairs and no Betti number |
| Topology.PersistenceDiagram.Get | topology.py:32-37 | Python indexing: a pair of the diagram for -len <= index < len, IndexError otherwise |
| Topology.PersistenceDiagram.GetNegative | topology.py:32-37 | a negative index counts from the end |
| Topology.PersistenceDiagram.Append | topology.py:39-51 | one pair (x, y, index) is added at the end |
| Topology.PersistenceDiagram.RemoveDiagonal | topology.py:67-73 | the pairs become the off-diagonal ones, in order |
| Topology.PersistenceDiagram.SetBetti | topology.py:84-102 | accepts exactly values up to the number of pairs; RuntimeError leaves the Betti number as it was |
| Topology.PersistenceDiagram.InfinityNorm | topology.py:60-65 | ValueError for an empty diagram, otherwise the largest persistence of a pair |
| Topology.PersistenceDiagram.TotalPersistence | topology.py:53-58 | non-negative and at least each pair's persistence |
| Topology.RootedTotalBelowInfinityNorm | topology.py:52-65 | for p = 2 and one pair (0.0, 2.0) the summed powers are 4.0 = 2.0 * 2.0, so the rooted total is 2.0, below the infinity norm 4.0 |
| Topology.NewCalculator | topology.py:165-191 | accepts exactly 'sublevel' and 'superlevel', storing the options; RuntimeError otherwise |
| Topology.ArgSortPrefixSorts | topology.py:214-216 | the argsort of the first k keys holds indices below k in stable order |
| Topology.FiltrationOrder | topology.py:213-216 | one edge index per edge |
| Topology.FiltrationOrderIsStableSort | topology.py:213-216 | the order is a permutation of the edge indices, sorted by weight (negated for superlevel) with ties in index order |
| Topology.FiltrationOrderMonotone | topology.py:213-216 | weights ascend for sublevel and descend for superlevel; equal weights keep edge order |
| Topology.StepCycle | topology.py:233-240 | an edge inside one component is recorded as a cycle edge and changes nothing else |
| Topology.StepMerge | topology.py:242-259 | an edge between roots y < o hangs y below o and records (birth of y, edge weight, y): the smaller root dies, whatever the comment says |
| Topology.Run | topology.py:226-259 | the edge loop keeps a component map and records only edge indices |
| Topology.RunInvariant | topology.py:226-259 | after k edges the pairs' vertices and the roots together are every vertex once, and pairs plus cycle edges number k |
| Topology.StepKeepsInvariant | topology.py:228-259 | one edge keeps that counting invariant |
| Topology.StepKeepsComponentMap | topology.py:228-259 | one edge step (`Step`) keeps a component map over all vertices and records only edge indices |
| Topology.FixpointsRelinkAll | topology.py:242-259 | merging root a into another root removes exactly a from the roots |
| Topology.Diagram | topology.py:193-290 | fails exactly for a graph without edges or a configured vertex attribute the graph lacks |
| Topology.DiagramOfEdgeLoop | topology.py:226-290 | the diagram is the loop's pairs followed by one pair per root, the Betti number is the number of roots, the cycles are the loop's |
| Topology.DiagramIndicesArePermutation | topology.py:226-290 | every vertex is the index of exactly one pair, so there are as many pairs as vertices |
| Topology.DiagramBetti | topology.py:271-288 | the Betti number is the number of roots, between 1 and the vertex count |
| Topology.DiagramEuler | topology.py:226-290 | the number of cycle edges is edges - vertices + Betti number |
| Topology.UnpairedValueIsExtreme | topology.py:261-266 | the default unpaired value is a weight of the graph, the largest for sublevel and the smallest for superlevel |
| Topology.RootsNonEmpty | topology.py:271-283 | a graph with a vertex has a root |
| Topology.ProcessEdge | topology.py:228-259 | one iteration of the edge loop performs one step of the specification on the union–find and the diagram |
| Topology.EdgeLoopMethod | topology.py:226-259 | the loop leaves the union–find, the pairs and the cycle list as the specification's run over all edges |
| Topology.AppendRoots | topology.py:271-288 | appends one pair per root and sets the Betti number to the number of roots |
| Topology.FitTransform | topology.py:193-290 | returns a fresh diagram with the pairs and Betti number of `Diagram`, and its cycle edges; fails exactly when `Diagram` does |
| Topology.Covered | topology.py:318-326 | the edges before it have both endpoint values and the edge at it, if any, lacks one |
| Topology.CoveredAt | topology.py:318-326 | a loop that stops at the first edge lacking an endpoint value stops at `Covered` |
| Topology.AssignFiltrationValues | topology.py:293-328 | Ok exactly when every edge has both endpoint values, else IndexError; each edge before the failing one has one endpoint's value, the larger for sublevel and the smaller otherwise, and every later edge keeps its old weight |
| FeatureMatrix.Elements | src/features.py:248-249 | `labels.update(...)` adds exactly the list's labels |
| FeatureMatrix.LabelSetMembers | src/features.py:246-249 | the label set holds exactly the labels of some vertex of some graph |
| FeatureMatrix.CollectLabels | src/features.py:246-249 | the loop collects the label set |
| FeatureMatrix.NumLabels | src/features.py:251-256 | ValueError for no labels, AssertionError when the labels are not contiguous; otherwise the number of labels, at least 1 |
| FeatureMatrix.Range | src/features.py:255-256 | 0..n-1 has n members |
| FeatureMatrix.NumLabelsIff | src/features.py:251-256 | the checks pass exactly when the labels are 0..num_labels-1 |
| FeatureMatrix.LabelingsBelow | src/features.py:255-256 | once the checks pass every label indexes a column of the block |
| FeatureMatrix.Accumulate | src/features.py:296-301 | the accumulated vector has one entry per label |
| FeatureMatrix.AccumulateEntry | src/features.py:296-301 | entry l is the sum of the values of the keys equal to l |
| FeatureMatrix.CountEntry | src/features.py:310-314 | adding 1 per key gives entry l the number of keys equal to l |
| FeatureMatrix.SumAccumulate | src/features.py:296-301 | the accumulated vector sums to the sum of the values |
| FeatureMatrix.AccumulatePrefix | src/features.py:298-301 | one more key adds its value to its own entry only |
| FeatureMatrix.AddAt | src/features.py:301 | `x[label] += value` changes only that entry |
| FeatureMatrix.SetRow | src/features.py:344-348 | `X[index, :] = row` writes that row and no other |
| PersistenceFeatures.DiagramIndexed | src/features.py:284-299 | every pair of a graph's diagram is indexed by one of its vertices, and every cycle entry is one of its edges |
| PersistenceFeatures.PairLabels | src/features.py:298-313 | the label looked up for each pair is the label of its index vertex |
| PersistenceFeatures.PairLabelsArePermutation | src/features.py:309-314 | the labels looked up over the diagram are the graph's vertex labels, each vertex once |
| PersistenceFeatures.LabelsOfPermutation | src/features.py:298-299 | looking up the labels of a permuted vertex list permutes the labels |
| PersistenceFeatures.Persistences | src/features.py:300 | one `abs(x - y)**p` per pair |
| PersistenceFeatures.SumPersistences | src/features.py:300 | these add up to the unrooted total persistence of the diagram |
| PersistenceFeatures.CycleLabels | src/features.py:338-342 | two label keys per cycle edge |
| PersistenceFeatures.CyclePowers | src/features.py:341-342 | two values per cycle edge |
| PersistenceFeatures.CycleEntries | src/features.py:332-342 | cycle edge i adds weight**p to the bucket of its source and then of its target |
| PersistenceFeatures.SumCyclePowers | src/features.py:336-342 | the cycle block adds every cycle edge's weight**p twice |
| PersistenceFeatures.CycleLabelsBelow | src/features.py:338-342 | every endpoint label indexes a column of the block |
| PersistenceFeatures.Labelings | src/features.py:248-249 | the vertex labels of every graph, in graph order |
| PersistenceFeatures.LabelsBelowCount | src/features.py:251-256 | once the label checks pass every vertex label indexes a column |
| PersistenceFeatures.PersistenceFeaturesGenerator.constructor | src/features.py:205-219 | stores the five options, store_persistence_diagrams and p |
| PersistenceFeatures.PersistenceFeaturesGenerator.New | src/features.py:205-222 | the constructor succeeds exactly for p > 0; RuntimeError otherwise |
| PersistenceFeatures.PersistenceFeaturesGenerator.ScalarColumns | src/features.py:287-293 | one column each for the infinity norm and the total persistence when requested |
| PersistenceFeatures.PersistenceFeaturesGenerator.LabelBlock | src/features.py:295-301 | `num_labels` entries |
| PersistenceFeatures.PersistenceFeaturesGenerator.OriginalBlock | src/features.py:309-314 | `num_labels` entries |
| PersistenceFeatures.PersistenceFeaturesGenerator.CycleBlock | src/features.py:319-342 | `num_labels` entries |
| PersistenceFeatures.PersistenceFeaturesGenerator.LabelColumns | src/features.py:295-301 | as wide as the label-persistence part of `num_columns` |
| PersistenceFeatures.PersistenceFeaturesGenerator.OriginalColumns | src/features.py:309-314 | as wide as the original-features part of `num_columns` |
| PersistenceFeatures.PersistenceFeaturesGenerator.CycleColumns | src/features.py:319-342 | as wide as the cycle-persistence part of `num_columns` |
| PersistenceFeatures.PersistenceFeaturesGenerator.BlockColumns | src/features.py:344-348 | the three blocks together are as wide as `num_columns` without the scalar columns |
| PersistenceFeatures.PersistenceFeaturesGenerator.Features | src/features.py:344-348 | the concatenated row is exactly `num_columns` wide |
| PersistenceFeatures.PersistenceFeaturesGenerator.RowOf | src/features.py:287-348 | a row built from a diagram is `num_columns` wide |
| PersistenceFeatures.PersistenceFeaturesGenerator.Row | src/features.py:284-348 | a graph's row is `num_columns` wide |
| PersistenceFeatures.PersistenceFeaturesGenerator.Rows | src/features.py:274-348 | one row or exception per graph |
| PersistenceFeatures.PersistenceFeaturesGenerator.ScalarLayout | src/features.py:287-293 | column 0 is the infinity norm and the last scalar column the total persistence, when requested |
| PersistenceFeatures.PersistenceFeaturesGenerator.LabelLayout | src/features.py:344-348 | the label block starts after the scalar columns |
| PersistenceFeatures.PersistenceFeaturesGenerator.OriginalLayout | src/features.py:344-348 | the original-features block follows the label block |
| PersistenceFeatures.PersistenceFeaturesGenerator.CycleLayout | src/features.py:344-348 | the cycle block comes last |
| PersistenceFeatures.PersistenceFeaturesGenerator.LabelBlockTotal | src/features.py:295-301 | the label-persistence block adds up to the total of `abs(x - y)**p` over the diagram |
| PersistenceFeatures.PersistenceFeaturesGenerator.OriginalBlockCounts | src/features.py:309-314 | entry l counts the pairs whose vertex is labelled l |
| PersistenceFeatures.PersistenceFeaturesGenerator.OriginalBlockTotal | src/features.py:309-314 | the original-features block adds up to the number of pairs |
| PersistenceFeatures.PersistenceFeaturesGenerator.CycleBlockTotal | src/features.py:330-342 | the cycle block adds up to twice the summed weight**p of the cycle edges |
| PersistenceFeatures.PersistenceFeaturesGenerator.InfinityNormAtMostTotal | src/features.py:287-293 | with both scalar columns the infinity norm is at most the unrooted total, the sum of the powers |
| PersistenceFeatures.PersistenceFeaturesGenerator.RowErrors | src/features.py:284-285 | a graph's row fails exactly when the graph has no edges, with the IndexError of the diagram calculation |
| PersistenceFeatures.PersistenceFeaturesGenerator.RowOriginalFeatures | src/features.py:309-314 | in a graph's row, original-features entry l is the number of its vertices labelled l |
| PersistenceFeatures.PersistenceFeaturesGenerator.CountLabels | src/features.py:243-256 | the label count and its exception; once it succeeds every label indexes a column |
| PersistenceFeatures.PersistenceFeaturesGenerator.LabelPersistence | src/features.py:295-301 | the loop builds the label-persistence block |
| PersistenceFeatures.PersistenceFeaturesGenerator.OriginalFeatures | src/features.py:309-314 | the loop builds the original-features block |
| PersistenceFeatures.PersistenceFeaturesGenerator.CyclePersistence | src/features.py:329-342 | the loop builds the cycle block |
| PersistenceFeatures.PersistenceFeaturesGenerator.ScalarFeatures | src/features.py:287-293 | the scalar columns, or ValueError for the infinity norm of an empty diagram |
| PersistenceFeatures.PersistenceFeaturesGenerator.BlockFeatures | src/features.py:295-342 | the three blocks; TypeError without a Betti number and AssertionError when the cycle count is not edges - pairs + Betti number; the diagram is stored when asked |
| PersistenceFeatures.PersistenceFeaturesGenerator.DiagramRow | src/features.py:287-348 | the row of a computed diagram, and the diagrams stored |
| PersistenceFeatures.PersistenceFeaturesGenerator.ComputeRow | src/features.py:278-348 | one loop iteration computes the graph's row and stores its diagram when asked |
| PersistenceFeatures.PersistenceFeaturesGenerator.WriteRow | src/features.py:344-348 | writing row `index` extends the filled prefix of X by one row |
| PersistenceFeatures.PersistenceFeaturesGenerator.FillRow | src/features.py:274-348 | one iteration fills row `index` or stops at its exception |
| PersistenceFeatures.PersistenceFeaturesGenerator.FillRows | src/features.py:274-348 | the loop fills every row or stops at the first exception |
| PersistenceFeatures.PersistenceFeaturesGenerator.FitTransform | src/features.py:224-350 | the label check's exception, or the first failing graph's exception, or a fresh matrix of one row per graph, `num_columns` wide, holding each graph's row; the diagrams stored are those of the graphs visited |
| SubtreeFeatures.CountRow | src/features.py:547-558 | one count per label |
| SubtreeFeatures.CountRowEntry | src/features.py:547-558 | entry l is the number of vertices labelled l |
| SubtreeFeatures.CountRowSum | src/features.py:547-558 | a row adds up to the graph's number of vertices |
| SubtreeFeatures.CountLabels | src/features.py:548-556 | the per-vertex counting loop builds that row |
| SubtreeFeatures.SubtreeRows | src/features.py:524-560 | one row per graph |
| SubtreeFeatures.SubtreeRowsErrors | src/features.py:528-538 | the rows exist exactly when all labels together are 0..n-1 for some n > 0, each row n wide; otherwise ValueError or AssertionError |
| SubtreeFeatures.SubtreeRowCounts | src/features.py:545-558 | row i counts graph i's vertices by label and adds up to its vertex count |
| SubtreeFeatures.GetSubtreeFeatureVectors | src/features.py:524-560 | the exception of the label check, or a fresh matrix, one row per graph and one column per label, holding the counts |
| SubtreeFeatures.ColumnsThrough | src/features.py:637-639 | a missing iteration raises KeyError |
| SubtreeFeatures.ColumnsThroughDefined | src/features.py:637-639 | the column count exists exactly when every iteration 0..k has an entry |
| SubtreeFeatures.ColumnsThroughMonotone | src/features.py:637-641 | fewer iterations keep no more columns, so their selection is a prefix |
| SubtreeFeatures.FeatureSelector.constructor | src/features.py:619-620 | stores the column counts; `num_iterations` is unset |
| SubtreeFeatures.FeatureSelector.SetNumIterations | src/features.py:622-624 | sets `num_iterations` |
| SubtreeFeatures.FeatureSelector.LastColumn | src/features.py:636-639 | the loop computes the number of columns of iterations 0..k, or KeyError |
| SubtreeFeatures.FeatureSelector.TakeColumns | src/features.py:641 | the first `last_column` columns of every row, or all of them when there are fewer |
| SubtreeFeatures.FeatureSelector.FitTransform | src/features.py:632-641 | AttributeError before `set_params`, KeyError for an iteration without a count, otherwise the leading columns of iterations 0..num_iterations |
| RootFeatures.PersistenceFeaturesGenerator.constructor | features.py:184-192 | stores the three options and sets p to 1.0 |
| RootFeatures.PersistenceFeaturesGenerator.New | features.py:184-195 | RuntimeError exactly for p <= 0; any accepted power is replaced by 1.0 |
| RootFeatures.PersistenceFeaturesGenerator.SameWidthAsGenerator | features.py:222-225 | `num_columns` counts the infinity norm, the total persistence and `num_labels` label columns, as the generator of src/features.py does with the same options |

## Left out

- I/O and numerics outside the modelled code: reading graphs, `print`, numpy and igraph
  themselves. Graphs are values: a vertex count, an edge list, vertex labels and edge weights.
- Floating point: reals are exact. `abs(x - y)**p` is modelled for a natural power p only. The
  `**(1.0 / p)` root of `total_persistence` (topology.py:58) is left out, so
  `Topology.PersistenceDiagram.TotalPersistence` is the sum of powers.
- Topology.PersistenceDiagram.TotalPersistence: does not take the 1/p-th root, because
  fractional powers of reals are not modelled.
- PersistenceFeatures.PersistenceFeaturesGenerator.InfinityNormAtMostTotal: holds of the
  model's unrooted total column only. With the root that `total_persistence` takes, the
  inequality holds at p = 1 and can fail at p >= 2; `Topology.RootedTotalBelowInfinityNorm`
  gives a pair that breaks it at p = 2.
- PersistenceFeatures.PersistenceFeaturesGenerator.constructor: p is a positive natural
  number, not a float; a fractional power cannot be configured.
- PersistenceFeatures.PersistenceFeaturesGenerator.New: p is a natural number, so the
  check `p <= 0.0` of src/features.py:221-222 rejects only 0; a fractional or negative p cannot
  be passed.
- FeatureWeights.WeightAssigner.FitTransform: every edge has a weight, so the KeyError that
  `edge['weight'] += weight` (src/features.py:75) raises in smooth mode on an edge without
  a weight is not modelled.
- Topology.FitTransform: a `WeightedGraph` always carries one weight per edge, so the
  KeyError of `graph.es['weight']` (topology.py:209) on an unweighted graph is not modelled.
- FeatureWeights.DistanceProperties, FeatureWeights.WeightBounds, FeatureWeights.WeightIsTauIff,
  BaseWeights.DistanceProperties, BaseWeights.WeightBounds and BaseWeights.WeightIsBaseIff:
  for 'jaccard' these hold only on label lists without repetitions, because `_jaccard` as
  written is not a distance on multisets; FeatureWeights.JaccardWeightBelowTau,
  FeatureWeights.JaccardWeightIsTau, BaseWeights.JaccardWeightBelowBase and
  BaseWeights.JaccardWeightIsBase show the weights that break them otherwise.
- The metrics 'angular', 'minkowski', 'kullback_leibler' and 'jensen_shannon' (square roots,
  arccos, logarithms). Their value is a parameter `numeric` of the weight functions. This
  includes the Minkowski order fixed at 2 in features.py:122-127.
- `PersistenceDiagram.__repr__` and `__len__`; `len` is the length of the pair list.
- `ignore_label_order`: stored and never read (features.py:24, weight_assigner.py:13).
- `assign_filtration_values` with `normalize=True` (topology.py:312-314): division by the
  largest or smallest attribute is left out; the model divides by 1.0.
- The unused `total_cycle_persistence` accumulator (src/features.py:330, 336).
- Stored persistence diagrams are kept as their pair lists, not as diagram objects.
- `FeatureSelector.set_params` with keys other than `num_iterations`, and the `fit` and
  `transform` aliases (src/features.py:626-630). `X[:, :k]` is modelled as a copy, not as a
  numpy view.
- SubtreeFeatures.GetSubtreeFeatureVectors: takes each graph's list of compressed labels
  rather than the graph, because nothing else of the graph is read.
- The `fit_transform` of the top-level features.py (features.py:197-256) treats the
  (diagram, cycles) tuple of topology.py:290 as a diagram (features.py:236). Only its
  constructor and column count are modelled.
- `PersistentWeisfeilerLehman.transform` and `WeisfeilerLehmanSubtree.transform`
  (src/features.py:385-522) depend on a collection-level `WeisfeilerLehman` class that is not
  part of this model. `WeisfeilerLehmanAttributePropagation` averages floating-point
  attributes.
- WL.py does not parse; the model follows weisfeiler_lehman.py. The copy of `LabelGenerator`
  in weisfeiler_lehman.py:12-28 is identical to LabelGenerator.py and is modelled once.
- Python string order: `sorted` on labels is the lexicographic order of code points. Labels
  are strings throughout.

## Findings

| source | as written | input that shows it | evidently intended | confidence | as-written member | corrected member |
|---|---|---|---|---|---|---|
| src/features.py:111-121 (also features.py:110-120) | `_jaccard` divides by `len(a) - sum((1 - a) * (1 - b))`, which is the size of the union only for 0/1 count vectors | A = ["x", "x", "x"], B = ["x", "x"]: a = (3), b = (2), the denominator is 1 - 2 = -1 and the distance is -1.0 | the multiset Jaccard distance `sum(abs(a - b)) / sum(max(a, b))`, here 1/3, always in [0, 1] | not executed | Distances.JaccardAsWrittenNegative | Distances.JaccardProperties |
| src/features.py:111-121 (also features.py:110-120) | the same denominator can be 0 for different multisets, and `_jaccard` then returns 0.0 | A = ["x", "x", "y"], B = ["x", "x", "x"]: a = (2, 1), b = (3, 0), the denominator is 2 - ((-1)(-2) + 0) = 0 and the distance is 0.0 | the multiset Jaccard distance, here 2/4 = 1/2 | not executed | Distances.JaccardAsWrittenZero | Distances.JaccardProperties |

The weight assigners keep `_jaccard` as written, as both `WeightAssigner` classes do, so the
weights they compute include these values. The corrected distance `Distances.Jaccard` and
the properties proved about it stand beside them.
