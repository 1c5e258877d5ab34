/**
 The region partitioner: from three group aggregates it computes the seven
 regions of a three-circle Venn diagram (the triple, three pairs, three
 singles), each with a per-n-gram count of the individuals that exhibit the
 n-gram in every group the region names.
 */
module Partition {
  import opened Aggregator

  /** A region: the count table (a Counter, so only positive counts are keys)
      and its key set. */
  datatype Region = Region(counts: map<NGram, nat>, ngrams: set<NGram>)

  /** The seven regions, named by the groups (1, 2, 3) they require. */
  datatype Venn = Venn(r123: Region, r12: Region, r13: Region, r23: Region, r1: Region, r2: Region, r3: Region)
  {
    /** Every n-gram placed in some region. */
    function Placed(): set<NGram> {
      r123.ngrams + r12.ngrams + r13.ngrams + r23.ngrams + r1.ngrams + r2.ngrams + r3.ngrams
    }
  }

  // ---------------------------------------------------------------------------
  // Specification of a count

  /** `g` is a key of `m` and `i` is on its list (the key test comes first, so
      the defaultdict never grows). */
  predicate Present(m: IndMap, g: NGram, i: Ind) {
    g in m && i in m[g]
  }

  /** `i` exhibits `g` in every one of the dictionaries `ms`. */
  predicate InAll(ms: seq<IndMap>, g: NGram, i: Ind) {
    forall k :: 0 <= k < |ms| ==> Present(ms[k], g, i)
  }

  /** The number of entries of `inds` that exhibit `g` in every dictionary of `ms`. */
  function Count(inds: seq<Ind>, ms: seq<IndMap>, g: NGram): nat {
    if inds == [] then 0
    else Count(inds[..|inds| - 1], ms, g) + (if InAll(ms, g, inds[|inds| - 1]) then 1 else 0)
  }

  /** The positions of `inds` whose individual exhibits `g` in every dictionary. */
  function Positions(inds: seq<Ind>, ms: seq<IndMap>, g: NGram): set<nat> {
    set j | 0 <= j < |inds| && InAll(ms, g, inds[j])
  }

  /** The count table a region holds for candidate n-grams `cands`: the
      positive counts only. */
  function RegionOf(cands: set<NGram>, ms: seq<IndMap>, inds: seq<Ind>): map<NGram, nat> {
    map g | g in cands && Count(inds, ms, g) >= 1 :: Count(inds, ms, g)
  }

  function MakeRegion(counts: map<NGram, nat>): Region {
    Region(counts, counts.Keys)
  }

  // ---------------------------------------------------------------------------
  // Properties of a count

  /** The count is the number of qualifying positions of `inds`. */
  lemma {:induction false} CountIsPositions(inds: seq<Ind>, ms: seq<IndMap>, g: NGram)
    ensures Count(inds, ms, g) == |Positions(inds, ms, g)|
  {
    if inds != [] {
      var init := inds[..|inds| - 1];
      var last := |inds| - 1;
      CountIsPositions(init, ms, g);
      assert Positions(inds, ms, g)
          == Positions(init, ms, g) + (if InAll(ms, g, inds[last]) then {last} else {});
    }
  }

  lemma {:induction false} CountAtMost(inds: seq<Ind>, ms: seq<IndMap>, g: NGram)
    ensures Count(inds, ms, g) <= |inds|
  {
    if inds != [] {
      CountAtMost(inds[..|inds| - 1], ms, g);
    }
  }

  /** A count is positive exactly when some entry of `inds` qualifies. */
  lemma {:induction false} CountPositive(inds: seq<Ind>, ms: seq<IndMap>, g: NGram)
    ensures Count(inds, ms, g) >= 1 <==> exists j :: 0 <= j < |inds| && InAll(ms, g, inds[j])
  {
    if inds != [] {
      var init := inds[..|inds| - 1];
      CountPositive(init, ms, g);
      if exists j :: 0 <= j < |inds| && InAll(ms, g, inds[j]) {
        var j :| 0 <= j < |inds| && InAll(ms, g, inds[j]);
        if j < |init| {
          assert init[j] == inds[j];
        }
      }
      if exists j :: 0 <= j < |init| && InAll(ms, g, init[j]) {
        var j :| 0 <= j < |init| && InAll(ms, g, init[j]);
        assert inds[j] == init[j];
      }
    }
  }

  /** Every n-gram of a region is a candidate, is exhibited by some entry of
      `inds` in every dictionary the region requires, and has a count in
      [1, |inds|]. */
  lemma RegionFacts(cands: set<NGram>, ms: seq<IndMap>, inds: seq<Ind>)
    ensures forall g :: g in RegionOf(cands, ms, inds) ==>
      && g in cands
      && 1 <= RegionOf(cands, ms, inds)[g] <= |inds|
      && (exists j :: 0 <= j < |inds| && InAll(ms, g, inds[j]))
  {
    forall g | g in RegionOf(cands, ms, inds)
      ensures 1 <= RegionOf(cands, ms, inds)[g] <= |inds|
      ensures exists j :: 0 <= j < |inds| && InAll(ms, g, inds[j])
    {
      CountAtMost(inds, ms, g);
      CountPositive(inds, ms, g);
    }
  }

  /** An n-gram of a region is a key of each dictionary the region requires. */
  lemma RegionKeys(cands: set<NGram>, ms: seq<IndMap>, inds: seq<Ind>)
    ensures forall g :: g in RegionOf(cands, ms, inds) ==> g in cands && forall k :: 0 <= k < |ms| ==> g in ms[k]
  {
    RegionFacts(cands, ms, inds);
    forall g, k | g in RegionOf(cands, ms, inds) && 0 <= k < |ms|
      ensures g in ms[k]
    {
      var j :| 0 <= j < |inds| && InAll(ms, g, inds[j]);
      assert Present(ms[k], g, inds[j]);
    }
  }

  // ---------------------------------------------------------------------------
  // The counting loop shared by all_set_count, two_set_count and one_set_count

  function Get(counts: map<NGram, nat>, g: NGram): nat {
    if g in counts then counts[g] else 0
  }

  lemma RegionAdd(done: set<NGram>, g: NGram, ms: seq<IndMap>, inds: seq<Ind>)
    requires g !in done
    ensures RegionOf(done + {g}, ms, inds)
         == if Count(inds, ms, g) >= 1 then RegionOf(done, ms, inds)[g := Count(inds, ms, g)]
            else RegionOf(done, ms, inds)
  {
  }

  /** For every candidate n-gram and every entry of `inds`, adds one to the
      n-gram's counter when the individual exhibits it in all of `ms`. */
  method CountRegion(cands: set<NGram>, ms: seq<IndMap>, inds: seq<Ind>) returns (counts: map<NGram, nat>)
    ensures counts == RegionOf(cands, ms, inds)
  {
    counts := map[];
    var rest := cands;
    while rest != {}
      invariant rest <= cands
      invariant counts == RegionOf(cands - rest, ms, inds)
      decreases |rest|
    {
      var g :| g in rest;
      ghost var before := counts;
      var j := 0;
      while j < |inds|
        invariant 0 <= j <= |inds|
        invariant counts == if Count(inds[..j], ms, g) >= 1 then before[g := Count(inds[..j], ms, g)] else before
      {
        assert inds[..j + 1][..j] == inds[..j];
        if InAll(ms, g, inds[j]) {
          counts := counts[g := Get(counts, g) + 1];
        }
        j := j + 1;
      }
      assert inds[..j] == inds;
      RegionAdd(cands - rest, g, ms, inds);
      assert cands - rest + {g} == cands - (rest - {g});
      rest := rest - {g};
    }
  }

  // ---------------------------------------------------------------------------
  // The three count operations

  /** all_set_count: the n-grams some individual exhibits in all three groups. */
  method AllSetCount(set1: set<NGram>, set2: set<NGram>, set3: set<NGram>,
                     map1: IndMap, map2: IndMap, map3: IndMap, inds: seq<Ind>)
    returns (counts: map<NGram, nat>, ngrams: set<NGram>)
    ensures counts == RegionOf(set1 + set2 + set3, [map1, map2, map3], inds)
    ensures ngrams == counts.Keys
    ensures forall g :: g in ngrams ==>
      && g in set1 + set2 + set3
      && g in map1 && g in map2 && g in map3
      && 1 <= counts[g] <= |inds|
  {
    var allSet := set1 + (set2 + set3);
    counts := CountRegion(allSet, [map1, map2, map3], inds);
    ngrams := counts.Keys;
    assert allSet == set1 + set2 + set3;
    RegionFacts(allSet, [map1, map2, map3], inds);
    RegionKeys(allSet, [map1, map2, map3], inds);
    forall g | g in ngrams
      ensures g in map1 && g in map2 && g in map3
    {
      var ms := [map1, map2, map3];
      assert g in ms[0] && g in ms[1] && g in ms[2];
    }
  }

  /** two_set_count: the n-grams of two groups, outside the triple set, that
      some individual exhibits in both groups. */
  method TwoSetCount(set1: set<NGram>, set2: set<NGram>, map1: IndMap, map2: IndMap,
                     threeSet: set<NGram>, inds: seq<Ind>)
    returns (counts: map<NGram, nat>, ngrams: set<NGram>)
    ensures counts == RegionOf((set1 + set2) - threeSet, [map1, map2], inds)
    ensures ngrams == counts.Keys
    ensures ngrams !! threeSet
    ensures forall g :: g in ngrams ==>
      && g in set1 + set2
      && g in map1 && g in map2
      && 1 <= counts[g] <= |inds|
  {
    var allSet := set1 + set2;
    allSet := allSet - threeSet;
    counts := CountRegion(allSet, [map1, map2], inds);
    ngrams := counts.Keys;
    RegionFacts(allSet, [map1, map2], inds);
    RegionKeys(allSet, [map1, map2], inds);
    forall g | g in ngrams
      ensures g in map1 && g in map2
    {
      var ms := [map1, map2];
      assert g in ms[0] && g in ms[1];
    }
  }

  /** one_set_count: the n-grams of one group outside the triple set and the
      group's two pair sets that some individual exhibits in the group. */
  method OneSetCount(set1: set<NGram>, map1: IndMap, threeSet: set<NGram>,
                     twoSet1: set<NGram>, twoSet2: set<NGram>, inds: seq<Ind>)
    returns (counts: map<NGram, nat>, ngrams: set<NGram>)
    ensures counts == RegionOf(set1 - (threeSet + twoSet1 + twoSet2), [map1], inds)
    ensures ngrams == counts.Keys
    ensures ngrams <= set1
    ensures ngrams !! threeSet + twoSet1 + twoSet2
    ensures forall g :: g in ngrams ==> g in map1 && 1 <= counts[g] <= |inds|
  {
    var allSet := set1 - (threeSet + (twoSet1 + twoSet2));
    assert allSet == set1 - (threeSet + twoSet1 + twoSet2);
    counts := CountRegion(allSet, [map1], inds);
    ngrams := counts.Keys;
    RegionFacts(allSet, [map1], inds);
    RegionKeys(allSet, [map1], inds);
    forall g | g in ngrams
      ensures g in map1
    {
      assert g in [map1][0];
    }
  }

  // ---------------------------------------------------------------------------
  // The seven regions

  /** The seven regions in the order the program computes them: triple first,
      then the pairs without the triple set, then each single without the
      triple set and its own two pair sets. */
  function Regions(g1: Aggregate, g2: Aggregate, g3: Aggregate, inds: seq<Ind>): Venn {
    var s1, s2, s3 := g1.ngrams, g2.ngrams, g3.ngrams;
    var m1, m2, m3 := g1.individuals, g2.individuals, g3.individuals;
    var r123 := RegionOf(s1 + s2 + s3, [m1, m2, m3], inds);
    var r12 := RegionOf((s1 + s2) - r123.Keys, [m1, m2], inds);
    var r13 := RegionOf((s1 + s3) - r123.Keys, [m1, m3], inds);
    var r23 := RegionOf((s2 + s3) - r123.Keys, [m2, m3], inds);
    var r1 := RegionOf(s1 - (r123.Keys + r12.Keys + r13.Keys), [m1], inds);
    var r2 := RegionOf(s2 - (r123.Keys + r12.Keys + r23.Keys), [m2], inds);
    var r3 := RegionOf(s3 - (r123.Keys + r13.Keys + r23.Keys), [m3], inds);
    Venn(MakeRegion(r123), MakeRegion(r12), MakeRegion(r13), MakeRegion(r23),
         MakeRegion(r1), MakeRegion(r2), MakeRegion(r3))
  }

  /** The exclusions the program enforces: pairs avoid the triple set, and
      each single avoids the triple set and its own two pairs. Nothing more
      (see SharedWithoutCoOccurrence and PairRegionsOverlap). */
  predicate Exclusive(v: Venn) {
    && v.r12.ngrams !! v.r123.ngrams
    && v.r13.ngrams !! v.r123.ngrams
    && v.r23.ngrams !! v.r123.ngrams
    && v.r1.ngrams !! v.r123.ngrams + v.r12.ngrams + v.r13.ngrams
    && v.r2.ngrams !! v.r123.ngrams + v.r12.ngrams + v.r23.ngrams
    && v.r3.ngrams !! v.r123.ngrams + v.r13.ngrams + v.r23.ngrams
  }

  /** Every region holds only n-grams of the groups it names. */
  predicate WithinGroups(v: Venn, s1: set<NGram>, s2: set<NGram>, s3: set<NGram>) {
    && v.r123.ngrams <= s1 * s2 * s3
    && v.r12.ngrams <= s1 * s2
    && v.r13.ngrams <= s1 * s3
    && v.r23.ngrams <= s2 * s3
    && v.r1.ngrams <= s1
    && v.r2.ngrams <= s2
    && v.r3.ngrams <= s3
  }

  lemma RegionsExclusive(g1: Aggregate, g2: Aggregate, g3: Aggregate, inds: seq<Ind>)
    ensures Exclusive(Regions(g1, g2, g3, inds))
  {
  }

  /** A region over the n-grams of two groups lies inside both groups. */
  lemma PairWithin(s1: set<NGram>, s2: set<NGram>, m1: IndMap, m2: IndMap, cands: set<NGram>, inds: seq<Ind>)
    requires s1 == m1.Keys && s2 == m2.Keys
    ensures RegionOf(cands, [m1, m2], inds).Keys <= s1 * s2
  {
    RegionKeys(cands, [m1, m2], inds);
    forall g | g in RegionOf(cands, [m1, m2], inds)
      ensures g in s1 * s2
    {
      assert g in [m1, m2][0] && g in [m1, m2][1];
    }
  }

  /** With consistent aggregates, each region lies inside the groups it names. */
  lemma RegionsWithinGroups(g1: Aggregate, g2: Aggregate, g3: Aggregate, inds: seq<Ind>)
    requires Consistent(g1, inds) && Consistent(g2, inds) && Consistent(g3, inds)
    ensures WithinGroups(Regions(g1, g2, g3, inds), g1.ngrams, g2.ngrams, g3.ngrams)
  {
    var s1, s2, s3 := g1.ngrams, g2.ngrams, g3.ngrams;
    var m1, m2, m3 := g1.individuals, g2.individuals, g3.individuals;
    var v := Regions(g1, g2, g3, inds);
    var ms := [m1, m2, m3];
    RegionKeys(s1 + s2 + s3, ms, inds);
    forall g | g in v.r123.ngrams
      ensures g in s1 * s2 * s3
    {
      assert g in ms[0] && g in ms[1] && g in ms[2];
    }
    PairWithin(s1, s2, m1, m2, (s1 + s2) - v.r123.ngrams, inds);
    PairWithin(s1, s3, m1, m3, (s1 + s3) - v.r123.ngrams, inds);
    PairWithin(s2, s3, m2, m3, (s2 + s3) - v.r123.ngrams, inds);
  }

  /** Every n-gram of a consistent aggregate is exhibited by some entry of `inds`. */
  lemma ExhibitedByOne(g: Aggregate, inds: seq<Ind>)
    requires Consistent(g, inds)
    ensures forall x :: x in g.ngrams ==> Count(inds, [g.individuals], x) >= 1
  {
    forall x | x in g.ngrams
      ensures Count(inds, [g.individuals], x) >= 1
    {
      var i := g.individuals[x][0];
      assert i in g.individuals[x];
      assert i in inds;
      var j :| 0 <= j < |inds| && inds[j] == i;
      assert InAll([g.individuals], x, inds[j]);
      CountPositive(inds, [g.individuals], x);
    }
  }

  /** A single region loses only the excluded n-grams of its group when every
      n-gram of the group has a positive count. */
  lemma SingleCovers(s: set<NGram>, m: IndMap, excl: set<NGram>, inds: seq<Ind>)
    requires forall x :: x in s ==> Count(inds, [m], x) >= 1
    ensures s <= excl + RegionOf(s - excl, [m], inds).Keys
  {
  }

  lemma CoverAlgebra(s1: set<NGram>, s2: set<NGram>, s3: set<NGram>, v: Venn)
    requires WithinGroups(v, s1, s2, s3)
    requires s1 <= v.r123.ngrams + v.r12.ngrams + v.r13.ngrams + v.r1.ngrams
    requires s2 <= v.r123.ngrams + v.r12.ngrams + v.r23.ngrams + v.r2.ngrams
    requires s3 <= v.r123.ngrams + v.r13.ngrams + v.r23.ngrams + v.r3.ngrams
    ensures v.Placed() == s1 + s2 + s3
  {
  }

  /** Completeness: with aggregates built over the same individuals, the seven
      regions together hold exactly the n-grams of the three groups. */
  lemma RegionsCover(g1: Aggregate, g2: Aggregate, g3: Aggregate, inds: seq<Ind>)
    requires Consistent(g1, inds) && Consistent(g2, inds) && Consistent(g3, inds)
    ensures Regions(g1, g2, g3, inds).Placed() == g1.ngrams + g2.ngrams + g3.ngrams
  {
    var v := Regions(g1, g2, g3, inds);
    RegionsWithinGroups(g1, g2, g3, inds);
    ExhibitedByOne(g1, inds);
    ExhibitedByOne(g2, inds);
    ExhibitedByOne(g3, inds);
    SingleCovers(g1.ngrams, g1.individuals, v.r123.ngrams + v.r12.ngrams + v.r13.ngrams, inds);
    SingleCovers(g2.ngrams, g2.individuals, v.r123.ngrams + v.r12.ngrams + v.r23.ngrams, inds);
    SingleCovers(g3.ngrams, g3.individuals, v.r123.ngrams + v.r13.ngrams + v.r23.ngrams, inds);
    CoverAlgebra(g1.ngrams, g2.ngrams, g3.ngrams, v);
  }

  /** The region computation of the program: triple, then the three pairs,
      then the three singles. */
  method ComputeRegions(g1: Aggregate, g2: Aggregate, g3: Aggregate, inds: seq<Ind>) returns (v: Venn)
    ensures v == Regions(g1, g2, g3, inds)
    ensures Exclusive(v)
    ensures Consistent(g1, inds) && Consistent(g2, inds) && Consistent(g3, inds) ==>
      && WithinGroups(v, g1.ngrams, g2.ngrams, g3.ngrams)
      && v.Placed() == g1.ngrams + g2.ngrams + g3.ngrams
  {
    var set1, set2, set3 := g1.ngrams, g2.ngrams, g3.ngrams;
    var map1, map2, map3 := g1.individuals, g2.individuals, g3.individuals;
    var allCnt, allSet := AllSetCount(set1, set2, set3, map1, map2, map3, inds);
    var cnt12, set12 := TwoSetCount(set1, set2, map1, map2, allSet, inds);
    var cnt13, set13 := TwoSetCount(set1, set3, map1, map3, allSet, inds);
    var cnt23, set23 := TwoSetCount(set2, set3, map2, map3, allSet, inds);
    var cnt1, only1 := OneSetCount(set1, map1, allSet, set12, set13, inds);
    var cnt2, only2 := OneSetCount(set2, map2, allSet, set12, set23, inds);
    var cnt3, only3 := OneSetCount(set3, map3, allSet, set13, set23, inds);
    v := Venn(Region(allCnt, allSet), Region(cnt12, set12), Region(cnt13, set13), Region(cnt23, set23),
              Region(cnt1, only1), Region(cnt2, only2), Region(cnt3, only3));
    RegionsExclusive(g1, g2, g3, inds);
    if Consistent(g1, inds) && Consistent(g2, inds) && Consistent(g3, inds) {
      RegionsWithinGroups(g1, g2, g3, inds);
      RegionsCover(g1, g2, g3, inds);
    }
  }
}
