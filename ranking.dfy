/**
 `top`: the n-grams of a count table in order of non-increasing count, all of
 them or only the first `q`. The order among equal counts is whatever the
 Counter's `most_common` produces; the model takes that listing as an input
 and assumes only that it is a ranking.
 */
module Ranking {
  import opened Aggregator

  type Counts = map<NGram, nat>

  predicate Distinct(r: seq<NGram>) {
    forall i, j :: 0 <= i < j < |r| ==> r[i] != r[j]
  }

  /** Counts along `r` never increase. */
  predicate NonIncreasing(counts: Counts, r: seq<NGram>)
    requires forall k :: 0 <= k < |r| ==> r[k] in counts
  {
    forall i, j :: 0 <= i < j < |r| ==> counts[r[i]] >= counts[r[j]]
  }

  /** `r` lists every key of `counts` exactly once, by non-increasing count. */
  predicate IsRanking(counts: Counts, r: seq<NGram>) {
    && Distinct(r)
    && (forall k :: 0 <= k < |r| ==> r[k] in counts)
    && (forall g :: g in counts ==> g in r)
    && NonIncreasing(counts, r)
  }

  /** `r` lists distinct keys by non-increasing count, and no key left out
      has a larger count than a key listed. */
  predicate IsTopSelection(counts: Counts, r: seq<NGram>) {
    && Distinct(r)
    && (forall k :: 0 <= k < |r| ==> r[k] in counts)
    && NonIncreasing(counts, r)
    && (forall g, k :: g in counts && g !in r && 0 <= k < |r| ==> counts[g] <= counts[r[k]])
  }

  /** A list of distinct elements has as many elements as its element set. */
  lemma {:induction false} DistinctCardinality(r: seq<NGram>)
    requires Distinct(r)
    ensures |set g | g in r| == |r|
  {
    if r != [] {
      var tail := r[1..];
      DistinctCardinality(tail);
      assert (set g | g in r) == (set g | g in tail) + {r[0]};
      forall k | 0 <= k < |tail|
        ensures tail[k] != r[0]
      {
        assert tail[k] == r[k + 1];
      }
    }
  }

  /** A ranking lists as many n-grams as the table has keys. */
  lemma RankingLength(counts: Counts, r: seq<NGram>)
    requires IsRanking(counts, r)
    ensures |r| == |counts|
  {
    DistinctCardinality(r);
    assert (set g | g in r) == counts.Keys;
  }

  /** A non-empty set of keys of a table holds a key of largest count. */
  lemma {:induction false} MaxKeyExists(counts: Counts, keys: set<NGram>)
    requires keys != {} && forall g :: g in keys ==> g in counts
    ensures exists m :: m in keys && forall g :: g in keys ==> counts[g] <= counts[m]
  {
    var g0 :| g0 in keys;
    var rest := keys - {g0};
    if rest == {} {
      forall g | g in keys
        ensures counts[g] <= counts[g0]
      {
        assert g !in rest;
      }
    } else {
      MaxKeyExists(counts, rest);
      var m :| m in rest && forall g :: g in rest ==> counts[g] <= counts[m];
      var best := if counts[g0] > counts[m] then g0 else m;
      forall g | g in keys
        ensures counts[g] <= counts[best]
      {
        if g != g0 {
          assert g in rest;
        }
      }
    }
  }

  /** Every count table has a ranking, so `most_common` always has an answer
      for `top` to cut. */
  lemma {:induction false} RankingExists(counts: Counts)
    ensures exists r :: IsRanking(counts, r)
    decreases |counts|
  {
    if counts == map[] {
      assert IsRanking(counts, []);
    } else {
      MaxKeyExists(counts, counts.Keys);
      var m :| m in counts && forall g :: g in counts ==> counts[g] <= counts[m];
      var rest := counts - {m};
      assert |rest| < |counts| by {
        assert rest.Keys == counts.Keys - {m};
      }
      RankingExists(rest);
      var r :| IsRanking(rest, r);
      RankingCons(counts, m, r);
    }
  }

  /** A key of largest count followed by a ranking of the other keys is a
      ranking. */
  lemma RankingCons(counts: Counts, m: NGram, r: seq<NGram>)
    requires m in counts && forall g :: g in counts ==> counts[g] <= counts[m]
    requires IsRanking(counts - {m}, r)
    ensures IsRanking(counts, [m] + r)
  {
    var rest := counts - {m};
    var r' := [m] + r;
    forall k | 0 <= k < |r'|
      ensures r'[k] in counts
      ensures k > 0 ==> r'[k] == r[k - 1] && r'[k] != m && counts[r'[k]] <= counts[m]
      ensures k > 0 ==> counts[r'[k]] == rest[r[k - 1]]
    {
      if k > 0 {
        assert r[k - 1] in rest;
      }
    }
    forall g | g in counts
      ensures g in r'
    {
      if g != m {
        assert g in rest;
      }
    }
    forall i, j | 0 <= i < j < |r'|
      ensures r'[i] != r'[j] && counts[r'[i]] >= counts[r'[j]]
    {
      if i > 0 {
        assert r[i - 1] != r[j - 1] && rest[r[i - 1]] >= rest[r[j - 1]];
      }
    }
  }

  function Min(a: nat, b: nat): nat {
    if a <= b then a else b
  }

  /** top: with q == 0 every n-gram of the ranking, otherwise its first q. */
  function Top(counts: Counts, ranked: seq<NGram>, q: nat): (r: seq<NGram>)
    requires IsRanking(counts, ranked)
    ensures IsTopSelection(counts, r)
    ensures q == 0 ==> IsRanking(counts, r)
    ensures |r| == if q == 0 then |counts| else Min(q, |counts|)
  {
    RankingLength(counts, ranked);
    if q == 0 then ranked else ranked[..Min(q, |ranked|)]
  }

  /** A cut-off `top` is a prefix of the full `top`. */
  lemma TopIsPrefix(counts: Counts, ranked: seq<NGram>, q: nat)
    requires IsRanking(counts, ranked)
    ensures Top(counts, ranked, q) <= Top(counts, ranked, 0)
  {
    var full := Top(counts, ranked, 0);
    assert full == ranked;
  }
}
