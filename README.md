# Three-group n-gram overlap (Venn regions), modelled in Dafny

The program reads a store of per-individual, per-group n-gram observations and
compares three groups. For each group it gathers the n-grams observed and, per
n-gram, the list of individuals who exhibited it (`gen_set`). It then splits
the n-grams into the seven regions of a three-circle Venn diagram: the triple
region, three pair regions and three single regions. Each n-gram in a region
carries a count of the individuals that exhibit it in every group the region
names (`all_set_count`, `two_set_count`, `one_set_count`). `top` lists a
region's n-grams by non-increasing count, and the export pads the seven region
columns to equal length.

Files and modules:

- `aggregator.dfy` (`Aggregator`): record keys, the `ec`/`eo` normalisation,
  and `gen_set` as the method `GenSet`. Its nested loops are the methods
  `ScanGroup` (individuals), `ScanIndividual` (suffix variants), `ScanKey`
  (one lookup) and `AppendRecord` (one record). They are proved against the
  specification functions `Hits`, `SuffixHits` and `GroupHits`. The store is
  a map from key strings to records. A record maps the n-gram length, as the
  text of the JSON object key, to a sequence of n-grams. A present record
  without that length raises `KeyError` in the program. The model returns
  `MissingLength` for it.
- `partition.dfy` (`Partition`): the counting loop `CountRegion`, which all
  three count operations share. It also holds the three count operations,
  the seven-region specification `Regions`, the region computation
  `ComputeRegions`, and the exclusion, containment and completeness lemmas.
- `scenarios.dfy` (`Scenarios`): concrete inputs. They show the triple case,
  the empty case and the two ways the regions overlap.
- `ranking.dfy` (`Ranking`): `top`.
- `export.dfy` (`Export`): the column padding before the CSV export.
- `pipeline.dfy` (`Pipeline`): the three `gen_set` calls followed by the
  region computation.

The source's comments describe the pair sets as the n-grams "existent in
exactly 2 groups" and the single sets as those "existent in exactly 1 group",
which reads as a partition. The model follows the code, which does not
produce one:

- The regions are not pairwise disjoint. A pair region drops only the triple
  set, and a single region drops only the triple set and its own two pair
  sets. An n-gram shared by two groups but never by the same individual gets
  count 0 in the pair, so it is dropped there and lands in both single
  regions (`Scenarios.SharedWithoutCoOccurrence`). An n-gram can also be in
  two pair regions at once (`Scenarios.PairRegionsOverlap`). What the code
  does guarantee is stated as `Partition.Exclusive`.
- Completeness does hold whenever the three
  aggregates come from `gen_set` over the same individuals used for counting
  (`Partition.RegionsCover`, `Pipeline.Run`).

`one_set_count` reads the module-level `inds`. In the model it is an explicit
parameter, and the region computation passes the same `inds` to all seven
counts. The count functions have no side effects: sets and maps are values in
Dafny, so their inputs cannot change. Likewise, two `GenSet` calls on the same
inputs give equal results. On success the set and every list are fixed by
`GroupHits`. On failure the key is that of the first lookup, in
individual-then-suffix order, that raises (`FirstFailure`), and only one
lookup can be first.

## Model

| member | source | states |
|---|---|---|
| `Aggregator.GenSet` | szo_venn/gen_venn.py:22-35 | fails exactly when a matched record lacks length `n`, with the key of the first such lookup in individual-then-suffix order (every earlier lookup loads); otherwise the n-gram set equals the dictionary's key set, every list is non-empty and holds only individuals of `inds`, and each n-gram's list is the individuals appended in individual, suffix, record order (`GroupHits`) |
| `Aggregator.ScanGroup` | szo_venn/gen_venn.py:27-35 | the loop over individuals for a fixed lookup pattern: the same failure and success conditions, the same first failing key and the same lists as `GenSet` |
| `Aggregator.LoadsBeforeFailure` | szo_venn/gen_venn.py:27-32 | every lookup scanned before the failing one (an earlier individual, or the same individual with an earlier suffix) loads, so the program raises at exactly that lookup |
| `Aggregator.ScanIndividual` | szo_venn/gen_venn.py:29-34 | the loop over suffix variants of one individual fails iff one of its keys is present without length `n`, at the first such suffix (all earlier suffixes load); otherwise each list grows by exactly that individual's hits (`SuffixHits`) and the set stays the key set |
| `Aggregator.ScanKey` | szo_venn/gen_venn.py:30-34 | one lookup: an absent key changes nothing, a present record without length `n` fails with that key, a present record appends the individual once per occurrence and adds its n-grams to the set |
| `Aggregator.LoadsAllIff` | szo_venn/gen_venn.py:27-32 | the success condition holds iff every key built from `inds` and the suffix variants is absent or holds length `n` |
| `Aggregator.AppendRecord` | szo_venn/gen_venn.py:33-34 | after scanning a record, each n-gram's list is the old list plus one copy of the individual per occurrence; the keys grow by exactly the record's n-grams |
| `Aggregator.HitsAreOccurrences` | szo_venn/gen_venn.py:33-34 | the individual is appended once per occurrence of the n-gram in the record; duplicates are kept |
| `Aggregator.GroupHitsMember` | szo_venn/gen_venn.py:27-34 | an individual is on an n-gram's list iff it is one of `inds` and some record looked up for it (any suffix) holds the n-gram; absent keys contribute nothing |
| `Aggregator.CollapsedGroupKeys` | szo_venn/gen_venn.py:25-30 | for `ec`/`eo` exactly one key per individual is looked up, `C{pad}{i}_R3_{group}_{t}`, whatever the prefix and suffix selectors |
| `Aggregator.Decimal` | szo_venn/gen_venn.py:30 | the individual's text is non-empty, all digits, without a leading zero for positive numbers |
| `Aggregator.KeyNamesIndividual` | szo_venn/gen_venn.py:28-30 | the zero-padded individual number is read back from every key built for it |
| `Aggregator.KeyInjective` | szo_venn/gen_venn.py:28-30 | two individuals that share a lookup key are the same individual |
| `Partition.CountIsPositions` | szo_venn/gen_venn.py:53-57 | a count is the number of positions of `inds` whose individual is on the n-gram's list in every required dictionary |
| `Partition.CountAtMost` | szo_venn/gen_venn.py:53-57 | a count never exceeds the number of entries of `inds` |
| `Partition.CountPositive` | szo_venn/gen_venn.py:53-58 | a count is at least 1 iff some entry of `inds` qualifies |
| `Partition.RegionFacts` | szo_venn/gen_venn.py:50-58 | every n-gram of a count table is a candidate, is exhibited by some entry of `inds`, and has a count in [1, \|inds\|] |
| `Partition.RegionKeys` | szo_venn/gen_venn.py:54-56 | every n-gram of a count table is a key of each dictionary the region requires |
| `Partition.CountRegion` | szo_venn/gen_venn.py:72-79 | the loop over candidates and individuals builds exactly the table of positive counts (`RegionOf`) |
| `Partition.AllSetCount` | szo_venn/gen_venn.py:46-58 | the triple table over `set1 ∪ set2 ∪ set3`; its set is its key set, every n-gram is a key of all three maps, every count is in [1, \|inds\|] |
| `Partition.TwoSetCount` | szo_venn/gen_venn.py:68-79 | the pair table over `(set1 ∪ set2) − three_set`; its set avoids `three_set`, lies in both maps' keys, counts in [1, \|inds\|] |
| `Partition.OneSetCount` | szo_venn/gen_venn.py:87-94 | the single table over `set1 − (three_set ∪ two_set1 ∪ two_set2)`; its set lies in `set1`, avoids the three excluded sets, counts in [1, \|inds\|] |
| `Partition.RegionsExclusive` | szo_venn/gen_venn.py:164-174 | pair regions avoid the triple region; each single region avoids the triple region and its own two pair regions |
| `Partition.RegionsWithinGroups` | szo_venn/gen_venn.py:164-174 | with aggregates from `gen_set`, each region lies inside every group it names |
| `Partition.ExhibitedByOne` | szo_venn/gen_venn.py:31-34 | every n-gram of an aggregate from `gen_set` has a positive single-group count over the same `inds` |
| `Partition.RegionsCover` | szo_venn/gen_venn.py:164-174 | with aggregates from `gen_set` over the same `inds`, the union of the seven regions equals `set1 ∪ set2 ∪ set3` |
| `Partition.ComputeRegions` | szo_venn/gen_venn.py:164-174 | runs triple, three pairs, three singles; the result satisfies the exclusions, and with `gen_set` aggregates it is contained in and covers the three groups |
| `Pipeline.Run` | szo_venn/gen_venn.py:148-174 | fails iff some matched record lacks length `n`, with the first failing key of the first group that fails; otherwise the three aggregates are those of `gen_set`, the result is exactly `Regions` of them, the exclusions and containment in the named groups hold, and an n-gram is in some region iff it was observed for one of the three groups |
| `Scenarios.SharedWithoutCoOccurrence` | szo_venn/gen_venn.py:68-94 | n-grams shared by two groups but by no single individual: empty pair region, both single regions hold them with count 1 |
| `Scenarios.PairRegionsOverlap` | szo_venn/gen_venn.py:167-168 | an n-gram missing from the triple region can be in two pair regions with count 1 each |
| `Scenarios.SharedByAllThree` | szo_venn/gen_venn.py:164-174 | one individual with the same n-gram in all three groups: triple region with count 1, every other region empty |
| `Scenarios.NoData` | szo_venn/gen_venn.py:164-174 | empty groups give empty regions |
| `Ranking.Top` | szo_venn/gen_venn.py:97-100 | the result lists distinct keys by non-increasing count and no omitted key outranks a listed one; with `q == 0` it lists every key exactly once, otherwise `min(q, \|counts\|)` keys |
| `Ranking.TopIsPrefix` | szo_venn/gen_venn.py:97-100 | `top(counts, q)` is a prefix of `top(counts, 0)` |
| `Ranking.RankingLength` | szo_venn/gen_venn.py:99 | a full ranking has exactly as many entries as the table has keys |
| `Ranking.RankingExists` | szo_venn/gen_venn.py:99 | every count table has an ordering by non-increasing count, so `top` is defined on every table |
| `Export.Widest` | szo_venn/gen_venn.py:232-234 | the computed maximum is at least every column's length |
| `Export.WidestIsReached` | szo_venn/gen_venn.py:232-234 | the maximum is 0 or the length of some column |
| `Export.PadColumns` | szo_venn/gen_venn.py:232-236 | every column keeps its contents and is extended with `""` placeholders to the common maximum length |

## Left out

- Argument parsing and defaults (lines 111-132) are not modelled. The selectors are plain parameters. A suffix list given with `-S` as a string is iterated character by character in the program. The model takes the suffix list as already split.
- Individuals are natural numbers. The program formats whatever it was given: an individual given with `-I` as text such as `05` would be formatted as typed. This model covers numeric individuals only.
- Loading the JSON file (lines 144-145) is I/O and is not modelled. The store is a parameter.
- The `canPrint` heuristic, `PRINT`/`PPRINT` and all printing are logging and are not modelled.
- The Venn diagram rendering, label ids, figure save and show are not modelled. They belong to the plotting library.
- The DataFrame construction and the CSV write are not modelled. They belong to the table library and are I/O. Only the padding of the columns is modelled, on an array of columns in their order.
- Column names that collide when two selected groups share a name are not modelled. That is a property of the export dictionary.
- Ranking.Top: does not fix the order among equal counts. `Counter.most_common` orders ties by insertion order, and that comes from hash-based set iteration. Its output is an input constrained only to be a ranking.
- Ranking.Top: requires `q >= 0`. With a negative `q` the program's slice would drop the tail. That only happens through an unvalidated command-line value.
- The per-n-gram iteration order of the count loops is a nondeterministic choice from a set. The results do not depend on it.
