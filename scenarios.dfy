/**
 Concrete inputs that show what the region computation does, including the
 two ways in which its seven regions fail to be pairwise disjoint.
 */
module Scenarios {
  import opened Aggregator
  import opened Partition

  /** The count over two individuals adds their two contributions. */
  lemma CountOfTwo(a: Ind, b: Ind, ms: seq<IndMap>, g: NGram)
    ensures Count([a, b], ms, g) == (if InAll(ms, g, a) then 1 else 0) + (if InAll(ms, g, b) then 1 else 0)
  {
    assert [a, b][..1] == [a];
    assert [a][..0] == [];
    assert Count([a], ms, g) == (if InAll(ms, g, a) then 1 else 0);
  }

  /** A region is empty when no individual qualifies for any candidate. */
  lemma RegionNone(cands: set<NGram>, ms: seq<IndMap>, inds: seq<Ind>)
    requires forall g, j :: g in cands && 0 <= j < |inds| ==> !InAll(ms, g, inds[j])
    ensures RegionOf(cands, ms, inds) == map[]
  {
    forall g | g in cands
      ensures Count(inds, ms, g) == 0
    {
      CountPositive(inds, ms, g);
    }
  }

  const ab: NGram := "ab"
  const cd: NGram := "cd"
  const x: NGram := "x"

  // ---------------------------------------------------------------------------
  // Individual 1 has `ab` and `cd` in group 1 only, individual 2 in group 2
  // only, and group 3 has no data.

  const onlyIn1: IndMap := map[ab := [1], cd := [1]]
  const onlyIn2: IndMap := map[ab := [2], cd := [2]]
  const none: IndMap := map[]
  const both: set<NGram> := {ab, cd}

  lemma SharedNoTripleNoPair()
    ensures RegionOf(both + both + {}, [onlyIn1, onlyIn2, none], [1, 2]) == map[]
    ensures RegionOf((both + both) - {}, [onlyIn1, onlyIn2], [1, 2]) == map[]
    ensures RegionOf((both + {}) - {}, [onlyIn1, none], [1, 2]) == map[]
    ensures RegionOf((both + {}) - {}, [onlyIn2, none], [1, 2]) == map[]
  {
    var inds: seq<Ind> := [1, 2];
    forall g, j | g in both && 0 <= j < |inds|
      ensures !InAll([onlyIn1, onlyIn2, none], g, inds[j])
      ensures !InAll([onlyIn1, onlyIn2], g, inds[j])
      ensures !InAll([onlyIn1, none], g, inds[j]) && !InAll([onlyIn2, none], g, inds[j])
    {
      assert !Present([onlyIn1, onlyIn2, none][2], g, inds[j]);
      assert !Present([onlyIn1, none][1], g, inds[j]);
      assert !Present([onlyIn2, none][1], g, inds[j]);
      if j == 0 {
        assert !Present([onlyIn1, onlyIn2][1], g, inds[j]);
      } else {
        assert !Present([onlyIn1, onlyIn2][0], g, inds[j]);
      }
    }
    assert both + both + {} == both && (both + both) - {} == both && (both + {}) - {} == both;
    RegionNone(both, [onlyIn1, onlyIn2, none], inds);
    RegionNone(both, [onlyIn1, onlyIn2], inds);
    RegionNone(both, [onlyIn1, none], inds);
    RegionNone(both, [onlyIn2, none], inds);
  }

  lemma SharedSingles()
    ensures RegionOf(both, [onlyIn1], [1, 2]) == map[ab := 1, cd := 1]
    ensures RegionOf(both, [onlyIn2], [1, 2]) == map[ab := 1, cd := 1]
  {
    forall g | g in both
      ensures Count([1, 2], [onlyIn1], g) == 1 && Count([1, 2], [onlyIn2], g) == 1
    {
      assert InAll([onlyIn1], g, 1) && InAll([onlyIn2], g, 2);
      assert !Present([onlyIn1][0], g, 2) && !Present([onlyIn2][0], g, 1);
      CountOfTwo(1, 2, [onlyIn1], g);
      CountOfTwo(1, 2, [onlyIn2], g);
    }
  }

  /** Two groups share n-grams, but no individual has them in both groups:
      the pair region is empty and both single regions hold both n-grams with
      count 1, so the two single regions overlap. */
  lemma SharedWithoutCoOccurrence()
    ensures var v := Regions(Aggregate(both, onlyIn1), Aggregate(both, onlyIn2), Aggregate({}, none), [1, 2]);
      && v.r123.ngrams == {} && v.r12.ngrams == {}
      && v.r1.counts == map[ab := 1, cd := 1]
      && v.r2.counts == map[ab := 1, cd := 1]
      && v.r1.ngrams * v.r2.ngrams == {ab, cd}
  {
    SharedNoTripleNoPair();
    SharedSingles();
    var empty: map<NGram, nat> := map[];
    assert both - (empty.Keys + empty.Keys + empty.Keys) == both;
  }

  // ---------------------------------------------------------------------------
  // Individual 1 has `x` in groups 1 and 2, individual 2 in groups 1 and 3.

  const x12: IndMap := map[x := [1, 2]]
  const x1: IndMap := map[x := [1]]
  const x2: IndMap := map[x := [2]]

  lemma OverlapCounts()
    ensures Count([1, 2], [x12, x1, x2], x) == 0
    ensures Count([1, 2], [x12, x1], x) == 1
    ensures Count([1, 2], [x12, x2], x) == 1
  {
    assert !Present([x12, x1, x2][2], x, 1) && !Present([x12, x1, x2][1], x, 2);
    assert InAll([x12, x1], x, 1) && !Present([x12, x1][1], x, 2);
    assert InAll([x12, x2], x, 2) && !Present([x12, x2][1], x, 1);
    CountOfTwo(1, 2, [x12, x1, x2], x);
    CountOfTwo(1, 2, [x12, x1], x);
    CountOfTwo(1, 2, [x12, x2], x);
  }

  /** No individual has `x` in all three groups, so it is not in the triple
      region; it then lands in both pair regions that involve group 1, so two
      pair regions overlap. */
  lemma PairRegionsOverlap()
    ensures var v := Regions(Aggregate({x}, x12), Aggregate({x}, x1), Aggregate({x}, x2), [1, 2]);
      && v.r123.ngrams == {}
      && v.r12.counts == map[x := 1]
      && v.r13.counts == map[x := 1]
      && v.r12.ngrams * v.r13.ngrams == {x}
  {
    OverlapCounts();
    assert {x} + {x} + {x} == {x} && ({x} + {x}) - {} == {x};
  }

  /** One individual with the same n-gram in all three groups: the n-gram is
      in the triple region with count 1 and in no other region. */
  lemma SharedByAllThree()
    ensures var v := Regions(Aggregate({x}, x1), Aggregate({x}, x1), Aggregate({x}, x1), [1]);
      && v.r123.counts == map[x := 1]
      && v.r12.ngrams == {} && v.r13.ngrams == {} && v.r23.ngrams == {}
      && v.r1.ngrams == {} && v.r2.ngrams == {} && v.r3.ngrams == {}
  {
    assert [1][..0] == [];
    assert InAll([x1, x1, x1], x, 1);
    assert Count([1], [x1, x1, x1], x) == 1;
    assert {x} + {x} + {x} == {x} && ({x} + {x}) - {x} == {};
  }

  /** With no n-grams in any group every region is empty, whatever the
      individuals. */
  lemma NoData(inds: seq<Ind>)
    ensures var v := Regions(Aggregate({}, none), Aggregate({}, none), Aggregate({}, none), inds);
      && v.Placed() == {}
      && v.r123.counts == map[] && v.r12.counts == map[] && v.r13.counts == map[] && v.r23.counts == map[]
      && v.r1.counts == map[] && v.r2.counts == map[] && v.r3.counts == map[]
  {
    var v := Regions(Aggregate({}, none), Aggregate({}, none), Aggregate({}, none), inds);
    assert v.r123.ngrams == {} && v.r12.ngrams == {} && v.r13.ngrams == {} && v.r23.ngrams == {};
  }
}
