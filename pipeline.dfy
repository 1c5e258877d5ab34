/**
 The core run of the program: aggregate the three selected groups from the
 store, then compute the seven regions from the three aggregates.
 */
module Pipeline {
  import opened Aggregator
  import opened Partition

  datatype RunOutcome = Computed(venn: Venn) | Failed(key: string)

  /** Aggregates groups `g1`, `g2`, `g3` with the same selectors and the same
      individuals, then computes the regions of the three aggregates `a1`,
      `a2`, `a3`. The first group whose lookups fail stops the run with the
      key of its first failing lookup. */
  method Run(data: Store, g1: string, g2: string, g3: string, prefix: string, suffix: seq<string>,
             inds: seq<Ind>, t: string, n: string)
    returns (r: RunOutcome, ghost a1: Aggregate, ghost a2: Aggregate, ghost a3: Aggregate)
    ensures var p1 := PatternFor(g1, prefix, suffix, t, n);
            var p2 := PatternFor(g2, prefix, suffix, t, n);
            var p3 := PatternFor(g3, prefix, suffix, t, n);
      && (r.Computed? <==> LoadsAll(data, p1, inds) && LoadsAll(data, p2, inds) && LoadsAll(data, p3, inds))
      && (r.Failed? ==>
            && r.key in data && n !in data[r.key]
            && if !LoadsAll(data, p1, inds) then RaisesWith(data, p1, inds, r.key)
               else if !LoadsAll(data, p2, inds) then RaisesWith(data, p2, inds, r.key)
               else RaisesWith(data, p3, inds, r.key))
      && (r.Computed? ==>
            && AggregateOf(data, p1, inds, a1)
            && AggregateOf(data, p2, inds, a2)
            && AggregateOf(data, p3, inds, a3)
            && r.venn == Regions(a1, a2, a3, inds)
            && Exclusive(r.venn)
            && WithinGroups(r.venn, a1.ngrams, a2.ngrams, a3.ngrams)
            && forall g :: g in r.venn.Placed()
                 <==> Observed(data, p1, inds, g) || Observed(data, p2, inds, g) || Observed(data, p3, inds, g))
  {
    a1, a2, a3 := Aggregate({}, map[]), Aggregate({}, map[]), Aggregate({}, map[]);
    var o1, at1, fs1 := GenSet(data, g1, prefix, suffix, inds, t, n);
    if o1.MissingLength? {
      return Failed(o1.key), a1, a2, a3;
    }
    var o2, at2, fs2 := GenSet(data, g2, prefix, suffix, inds, t, n);
    if o2.MissingLength? {
      return Failed(o2.key), a1, a2, a3;
    }
    var o3, at3, fs3 := GenSet(data, g3, prefix, suffix, inds, t, n);
    if o3.MissingLength? {
      return Failed(o3.key), a1, a2, a3;
    }
    var v := ComputeRegions(o1.agg, o2.agg, o3.agg, inds);
    a1, a2, a3 := o1.agg, o2.agg, o3.agg;
    r := Computed(v);
  }
}
