/**
 The group aggregator: for one group it scans the record store for every
 (individual, suffix) lookup key and collects the n-grams found, together with
 the list of individuals that exhibited each n-gram.
 */
module Aggregator {

  /** N-grams are opaque strings (they are joined with newlines when rendered). */
  type NGram = string

  /** Individuals are numbered; default configuration uses 1..26. */
  type Ind = nat

  /** A record maps an n-gram length (as text, the JSON object key) to n-grams. */
  type Record = map<string, seq<NGram>>

  /** The loaded JSON store: composite record key to record. */
  type Store = map<string, Record>

  /** The n-gram to individuals dictionary. */
  type IndMap = map<NGram, seq<Ind>>

  datatype Aggregate = Aggregate(ngrams: set<NGram>, individuals: IndMap)

  /** `MissingLength` stands for the KeyError raised when a record exists but
      holds no n-grams of the requested length. */
  datatype Outcome = Aggregated(agg: Aggregate) | MissingLength(key: string)

  /** The fixed parts of the lookup keys of one group, after the `ec`/`eo`
      normalisation, plus the observation type and the n-gram length. */
  datatype Pattern = Pattern(prefix: string, group: string, suffixes: seq<string>, t: string, n: string)
  {
    /** `C{pad}{i}_R{prefix}_{group}{s}_{t}` */
    function Key(i: Ind, s: string): string {
      "C" + (Digits(i) + Tail(s))
    }

    /** The part of a key after the individual number. */
    function Tail(s: string): string {
      "_R" + prefix + "_" + group + s + "_" + t
    }
  }

  // ---------------------------------------------------------------------------
  // Key formatting

  predicate IsDigit(c: char) { '0' <= c <= '9' }

  predicate AllDigits(s: string) { forall k :: 0 <= k < |s| ==> IsDigit(s[k]) }

  function DigitChar(d: nat): (c: char)
    requires d < 10
    ensures IsDigit(c) && c as int - '0' as int == d
  {
    ('0' as int + d) as char
  }

  /** Decimal text of `i`, as Python's f-string formats an int. */
  function Decimal(i: nat): (r: string)
    ensures |r| >= 1 && AllDigits(r)
    ensures i >= 1 ==> r[0] != '0'
  {
    if i < 10 then [DigitChar(i)] else Decimal(i / 10) + [DigitChar(i % 10)]
  }

  /** Single-digit individuals get a leading zero in keys. */
  function Pad(i: Ind): string {
    if i >= 10 then "" else "0"
  }

  /** The individual number as it appears in a key. */
  function Digits(i: Ind): string {
    Pad(i) + Decimal(i)
  }

  /** Value of a string of decimal digits (leading zeros allowed). */
  function ParseDecimal(s: string): nat
    requires AllDigits(s)
  {
    if s == [] then 0 else 10 * ParseDecimal(s[..|s| - 1]) + (s[|s| - 1] as int - '0' as int)
  }

  /** The longest run of digits at the start of `s`. */
  function LeadingDigits(s: string): (r: string)
    ensures AllDigits(r) && r <= s
  {
    if s == [] || !IsDigit(s[0]) then [] else [s[0]] + LeadingDigits(s[1..])
  }

  /** The individual a record key names: the digits between `C` and `_`. */
  function IndividualOf(key: string): Ind {
    if key == [] || key[0] != 'C' then 0 else ParseDecimal(LeadingDigits(key[1..]))
  }

  lemma {:induction false} ParseDecimalOfDecimal(i: nat)
    ensures ParseDecimal(Decimal(i)) == i
  {
    if i >= 10 {
      var d := Decimal(i);
      ParseDecimalOfDecimal(i / 10);
      assert d[..|d| - 1] == Decimal(i / 10);
    }
  }

  lemma {:induction false} ParseDecimalLeadingZero(s: string)
    requires AllDigits(s)
    ensures AllDigits("0" + s) && ParseDecimal("0" + s) == ParseDecimal(s)
  {
    if s != [] {
      var z := "0" + s;
      assert z[..|z| - 1] == "0" + s[..|s| - 1];
      ParseDecimalLeadingZero(s[..|s| - 1]);
    }
  }

  lemma {:induction false} LeadingDigitsOfDigits(d: string, rest: string)
    requires AllDigits(d)
    requires rest != [] && !IsDigit(rest[0])
    ensures LeadingDigits(d + rest) == d
  {
    if d != [] {
      assert (d + rest)[1..] == d[1..] + rest;
      LeadingDigitsOfDigits(d[1..], rest);
    } else {
      assert d + rest == rest;
    }
  }

  /** The padded individual number is recovered from every key built for it,
      so distinct individuals never share a lookup key. */
  lemma KeyNamesIndividual(p: Pattern, i: Ind, s: string)
    ensures IndividualOf(p.Key(i, s)) == i
  {
    var digits := Digits(i);
    var rest := p.Tail(s);
    assert p.Key(i, s)[1..] == digits + rest;
    LeadingDigitsOfDigits(digits, rest);
    ParseDecimalOfDecimal(i);
    if i < 10 {
      ParseDecimalLeadingZero(Decimal(i));
    } else {
      assert digits == Decimal(i);
    }
  }

  lemma KeyInjective(p: Pattern, i: Ind, j: Ind, s: string, s': string)
    requires p.Key(i, s) == p.Key(j, s')
    ensures i == j
  {
    KeyNamesIndividual(p, i, s);
    KeyNamesIndividual(p, j, s');
  }

  // ---------------------------------------------------------------------------
  // The lookup pattern of a group

  predicate IsCollapsed(group: string) { group == "ec" || group == "eo" }

  /** Groups `ec` and `eo` ignore the suffix and prefix selectors: one empty
      suffix and the fixed prefix `3`. */
  function PatternFor(group: string, prefix: string, suffix: seq<string>, t: string, n: string): (p: Pattern)
    ensures p.group == group && p.t == t && p.n == n
    ensures IsCollapsed(group) ==> p.suffixes == [""] && p.prefix == "3"
    ensures !IsCollapsed(group) ==> p.suffixes == suffix && p.prefix == prefix
  {
    var gsuffs := if IsCollapsed(group) then [""] else suffix;
    var pfx := if IsCollapsed(group) then "3" else prefix;
    Pattern(pfx, group, gsuffs, t, n)
  }

  /** The keys looked up for one individual, in suffix order. */
  function KeysOf(p: Pattern, i: Ind): (keys: seq<string>)
    ensures |keys| == |p.suffixes|
    ensures forall k :: 0 <= k < |keys| ==> keys[k] == p.Key(i, p.suffixes[k])
  {
    seq(|p.suffixes|, k requires 0 <= k < |p.suffixes| => p.Key(i, p.suffixes[k]))
  }

  /** For `ec` and `eo` exactly one key is looked up per individual, and it does
      not depend on the prefix and suffix selectors. */
  lemma CollapsedGroupKeys(group: string, prefix: string, suffix: seq<string>, t: string, n: string, i: Ind)
    requires IsCollapsed(group)
    ensures KeysOf(PatternFor(group, prefix, suffix, t, n), i)
         == ["C" + Pad(i) + Decimal(i) + "_R3_" + group + "_" + t]
  {
    var p := PatternFor(group, prefix, suffix, t, n);
    assert p.Tail("") == "_R3_" + group + "_" + t by {
      assert "_R" + "3" + "_" == "_R3_";
      assert group + "" == group;
    }
    assert p.Key(i, "") == "C" + Pad(i) + Decimal(i) + "_R3_" + group + "_" + t;
  }

  // ---------------------------------------------------------------------------
  // Specification of the aggregate

  /** The n-grams a lookup contributes; absent keys contribute nothing. */
  function Lookup(data: Store, key: string, n: string): seq<NGram> {
    if key in data && n in data[key] then data[key][n] else []
  }

  /** A key that is present must hold n-grams of length `n`, else KeyError. */
  predicate Loads(data: Store, p: Pattern, i: Ind, s: string) {
    p.Key(i, s) in data ==> p.n in data[p.Key(i, s)]
  }

  /** Every key of individual `i` with one of the suffixes `sfx` loads. */
  predicate SuffixesLoad(data: Store, p: Pattern, i: Ind, sfx: seq<string>) {
    sfx == [] || (SuffixesLoad(data, p, i, sfx[..|sfx| - 1]) && Loads(data, p, i, sfx[|sfx| - 1]))
  }

  /** Every key looked up for the individuals `inds` loads. */
  predicate LoadsAll(data: Store, p: Pattern, inds: seq<Ind>) {
    inds == [] || (LoadsAll(data, p, inds[..|inds| - 1]) && SuffixesLoad(data, p, inds[|inds| - 1], p.suffixes))
  }

  lemma {:induction false} SuffixesLoadMember(data: Store, p: Pattern, i: Ind, sfx: seq<string>, s: string)
    requires SuffixesLoad(data, p, i, sfx) && s in sfx
    ensures Loads(data, p, i, s)
  {
    var init := sfx[..|sfx| - 1];
    if s != sfx[|sfx| - 1] {
      assert sfx == init + [sfx[|sfx| - 1]];
      SuffixesLoadMember(data, p, i, init, s);
    }
  }

  lemma {:induction false} LoadsAllMember(data: Store, p: Pattern, inds: seq<Ind>, i: Ind)
    requires LoadsAll(data, p, inds) && i in inds
    ensures SuffixesLoad(data, p, i, p.suffixes)
  {
    var init := inds[..|inds| - 1];
    if i != inds[|inds| - 1] {
      assert inds == init + [inds[|inds| - 1]];
      LoadsAllMember(data, p, init, i);
    }
  }

  /** gen_set succeeds exactly when every key it builds is absent or holds
      n-grams of length `n`. */
  lemma {:induction false} LoadsAllIff(data: Store, p: Pattern, inds: seq<Ind>)
    ensures LoadsAll(data, p, inds)
        <==> forall i, s :: i in inds && s in p.suffixes ==> Loads(data, p, i, s)
  {
    if LoadsAll(data, p, inds) {
      forall i, s | i in inds && s in p.suffixes
        ensures Loads(data, p, i, s)
      {
        LoadsAllMember(data, p, inds, i);
        SuffixesLoadMember(data, p, i, p.suffixes, s);
      }
    } else {
      LoadsAllFails(data, p, inds);
    }
  }

  lemma {:induction false} LoadsAllFails(data: Store, p: Pattern, inds: seq<Ind>)
    requires !LoadsAll(data, p, inds)
    ensures exists i, s :: i in inds && s in p.suffixes && !Loads(data, p, i, s)
  {
    var init := inds[..|inds| - 1];
    var last := inds[|inds| - 1];
    assert inds == init + [last];
    if !LoadsAll(data, p, init) {
      LoadsAllFails(data, p, init);
      var i, s :| i in init && s in p.suffixes && !Loads(data, p, i, s);
      assert i in inds;
    } else {
      SuffixesLoadFails(data, p, last, p.suffixes);
    }
  }

  lemma {:induction false} SuffixesLoadFails(data: Store, p: Pattern, i: Ind, sfx: seq<string>)
    requires !SuffixesLoad(data, p, i, sfx)
    ensures exists s :: s in sfx && !Loads(data, p, i, s)
  {
    var init := sfx[..|sfx| - 1];
    var last := sfx[|sfx| - 1];
    assert sfx == init + [last];
    if !SuffixesLoad(data, p, i, init) {
      SuffixesLoadFails(data, p, i, init);
      var s :| s in init && !Loads(data, p, i, s);
      assert s in sfx;
    }
  }

  /** The individual list of a dictionary, empty for a missing key (defaultdict). */
  function ListOf(m: IndMap, g: NGram): seq<Ind> {
    if g in m then m[g] else []
  }

  /** What scanning one record `xs` for individual `i` appends to the list of `g`. */
  function Hits(i: Ind, xs: seq<NGram>, g: NGram): seq<Ind> {
    if xs == [] then [] else Hits(i, xs[..|xs| - 1], g) + (if xs[|xs| - 1] == g then [i] else [])
  }

  /** What the suffix variants `sfx` of individual `i` append to the list of `g`. */
  function SuffixHits(data: Store, p: Pattern, i: Ind, sfx: seq<string>, g: NGram): seq<Ind> {
    if sfx == [] then []
    else SuffixHits(data, p, i, sfx[..|sfx| - 1], g) + Hits(i, Lookup(data, p.Key(i, sfx[|sfx| - 1]), p.n), g)
  }

  /** The full list of `g` after scanning individuals `inds`. */
  function GroupHits(data: Store, p: Pattern, inds: seq<Ind>, g: NGram): seq<Ind> {
    if inds == [] then []
    else GroupHits(data, p, inds[..|inds| - 1], g) + SuffixHits(data, p, inds[|inds| - 1], p.suffixes, g)
  }

  /** A group aggregate as the counting stage relies on it: the set is the
      dictionary's key set, no list is empty, and every listed individual is
      one of `inds`. */
  predicate Consistent(agg: Aggregate, inds: seq<Ind>) {
    && agg.ngrams == agg.individuals.Keys
    && (forall g :: g in agg.individuals ==> agg.individuals[g] != [])
    && (forall g, x :: g in agg.individuals && x in agg.individuals[g] ==> x in inds)
  }

  /** An n-gram observed for pattern `p` in some record of one of `inds`. */
  predicate Observed(data: Store, p: Pattern, inds: seq<Ind>, g: NGram) {
    GroupHits(data, p, inds, g) != []
  }

  /** `agg` is the aggregate gen_set builds for pattern `p`: consistent, its
      lists are the specification's, and its set holds exactly the observed
      n-grams. */
  ghost predicate AggregateOf(data: Store, p: Pattern, inds: seq<Ind>, agg: Aggregate) {
    && Consistent(agg, inds)
    && (forall g :: ListOf(agg.individuals, g) == GroupHits(data, p, inds, g))
    && (forall g :: g in agg.ngrams <==> Observed(data, p, inds, g))
  }

  function Repeat(i: Ind, k: nat): (r: seq<Ind>)
    ensures |r| == k && forall j :: 0 <= j < k ==> r[j] == i
  {
    if k == 0 then [] else Repeat(i, k - 1) + [i]
  }

  /** One copy of the individual per occurrence of the n-gram in the record:
      repeats are kept, not merged. */
  lemma {:induction false} HitsAreOccurrences(i: Ind, xs: seq<NGram>, g: NGram)
    ensures Hits(i, xs, g) == Repeat(i, multiset(xs)[g])
  {
    if xs != [] {
      var init := xs[..|xs| - 1];
      assert xs == init + [xs[|xs| - 1]];
      assert multiset(xs) == multiset(init) + multiset{xs[|xs| - 1]};
      HitsAreOccurrences(i, init, g);
    }
  }

  lemma HitsSnoc(i: Ind, xs: seq<NGram>, x: NGram, g: NGram)
    ensures Hits(i, xs + [x], g) == Hits(i, xs, g) + (if x == g then [i] else [])
  {
    assert (xs + [x])[..|xs|] == xs;
  }

  /** One step of the append loop, for one n-gram `g`. */
  lemma AppendStep(indMap: IndMap, m: IndMap, i: Ind, xs: seq<NGram>, c: nat, g: NGram)
    requires c < |xs|
    requires ListOf(m, g) == ListOf(indMap, g) + Hits(i, xs[..c], g)
    ensures ListOf(m[xs[c] := ListOf(m, xs[c]) + [i]], g) == ListOf(indMap, g) + Hits(i, xs[..c + 1], g)
  {
    assert xs[..c + 1] == xs[..c] + [xs[c]];
    HitsSnoc(i, xs[..c], xs[c], g);
  }

  lemma {:induction false} HitsMember(i: Ind, xs: seq<NGram>, g: NGram, x: Ind)
    ensures x in Hits(i, xs, g) <==> x == i && g in xs
  {
    if xs != [] {
      var init := xs[..|xs| - 1];
      assert xs == init + [xs[|xs| - 1]];
      HitsMember(i, init, g, x);
    }
  }

  lemma {:induction false} SuffixHitsMember(data: Store, p: Pattern, i: Ind, sfx: seq<string>, g: NGram, x: Ind)
    ensures x in SuffixHits(data, p, i, sfx, g)
        <==> x == i && exists s :: s in sfx && g in Lookup(data, p.Key(i, s), p.n)
  {
    if sfx != [] {
      var init := sfx[..|sfx| - 1];
      var last := sfx[|sfx| - 1];
      assert sfx == init + [last];
      SuffixHitsMember(data, p, i, init, g, x);
      HitsMember(i, Lookup(data, p.Key(i, last), p.n), g, x);
      if x == i && exists s :: s in sfx && g in Lookup(data, p.Key(i, s), p.n) {
        var s :| s in sfx && g in Lookup(data, p.Key(i, s), p.n);
        if s != last {
          assert s in init;
        }
      }
    }
  }

  /** An individual is on the list of `g` exactly when it is one of `inds` and
      some record looked up for it holds `g`. */
  lemma {:induction false} GroupHitsMember(data: Store, p: Pattern, inds: seq<Ind>, g: NGram, x: Ind)
    ensures x in GroupHits(data, p, inds, g)
        <==> x in inds && exists s :: s in p.suffixes && g in Lookup(data, p.Key(x, s), p.n)
  {
    if inds != [] {
      var init := inds[..|inds| - 1];
      var last := inds[|inds| - 1];
      assert inds == init + [last];
      GroupHitsMember(data, p, init, g, x);
      SuffixHitsMember(data, p, last, p.suffixes, g, x);
    }
  }

  // ---------------------------------------------------------------------------
  // gen_set

  /** With non-empty lists, an n-gram has a list after the record exactly when
      it had one before or occurs in the record. */
  lemma RecordKey(indMap: IndMap, m: IndMap, i: Ind, xs: seq<NGram>, g: NGram)
    requires g in indMap ==> indMap[g] != []
    requires g in m ==> m[g] != []
    requires ListOf(m, g) == ListOf(indMap, g) + Hits(i, xs, g)
    ensures g in m <==> g in indMap || g in xs
  {
    HitsMember(i, xs, g, i);
    if Hits(i, xs, g) != [] {
      HitsMember(i, xs, g, Hits(i, xs, g)[0]);
    }
  }

  /** The inner loop of gen_set: appends individual `i` to the list of every
      n-gram of record `xs`, once per occurrence. */
  method AppendRecord(indMap: IndMap, i: Ind, xs: seq<NGram>) returns (m: IndMap)
    requires forall g :: g in indMap ==> indMap[g] != []
    ensures forall g :: g in m <==> g in indMap || g in xs
    ensures forall g :: g in m ==> m[g] != []
    ensures forall g :: ListOf(m, g) == ListOf(indMap, g) + Hits(i, xs, g)
  {
    m := indMap;
    var c := 0;
    while c < |xs|
      invariant 0 <= c <= |xs|
      invariant forall g :: g in m ==> m[g] != []
      invariant forall g :: ListOf(m, g) == ListOf(indMap, g) + Hits(i, xs[..c], g)
    {
      var x := xs[c];
      forall g
        ensures ListOf(m[x := ListOf(m, x) + [i]], g) == ListOf(indMap, g) + Hits(i, xs[..c + 1], g)
      {
        AppendStep(indMap, m, i, xs, c, g);
      }
      m := m[x := ListOf(m, x) + [i]];
      c := c + 1;
    }
    assert xs[..c] == xs;
    forall g
      ensures g in m <==> g in indMap || g in xs
    {
      RecordKey(indMap, m, i, xs, g);
    }
  }

  /** One suffix variant of the individual loop, for one n-gram `g`. */
  lemma SuffixStep(data: Store, p: Pattern, i: Ind, sfx: seq<string>, s: string,
                   base: IndMap, m: IndMap, m': IndMap, g: NGram)
    requires ListOf(m, g) == ListOf(base, g) + SuffixHits(data, p, i, sfx, g)
    requires ListOf(m', g) == ListOf(m, g) + Hits(i, Lookup(data, p.Key(i, s), p.n), g)
    ensures ListOf(m', g) == ListOf(base, g) + SuffixHits(data, p, i, sfx + [s], g)
  {
    assert (sfx + [s])[..|sfx|] == sfx;
  }

  /** One suffix variant of gen_set: builds the key of individual `i` and
      suffix `s`; a present record is merged into the aggregate, a record
      without length `n` fails, an absent key changes nothing. */
  method ScanKey(data: Store, p: Pattern, i: Ind, s: string, acc: Aggregate) returns (r: Outcome)
    requires forall g :: g in acc.ngrams <==> g in acc.individuals
    requires forall g :: g in acc.individuals ==> acc.individuals[g] != []
    ensures r.Aggregated? <==> Loads(data, p, i, s)
    ensures r.MissingLength? ==> r.key == p.Key(i, s) && r.key in data && p.n !in data[r.key]
    ensures r.Aggregated? ==>
      && (forall g :: g in r.agg.ngrams <==> g in r.agg.individuals)
      && (forall g :: g in r.agg.individuals ==> r.agg.individuals[g] != [])
      && (forall g :: ListOf(r.agg.individuals, g)
                      == ListOf(acc.individuals, g) + Hits(i, Lookup(data, p.Key(i, s), p.n), g))
  {
    var key := p.Key(i, s);
    if key in data {
      if p.n !in data[key] {
        return MissingLength(key);
      }
      var xs := data[key][p.n];
      var ret := acc.ngrams + set x | x in xs;
      var indMap := AppendRecord(acc.individuals, i, xs);
      forall g
        ensures g in ret <==> g in indMap
      {
        assert g in ret <==> g in acc.ngrams || g in xs;
      }
      r := Aggregated(Aggregate(ret, indMap));
    } else {
      r := Aggregated(acc);
    }
  }

  /** The suffix loop of gen_set for one individual `i`: scans every suffix
      variant in order and stops at the first failing one. */
  method ScanIndividual(data: Store, p: Pattern, i: Ind, acc: Aggregate) returns (r: Outcome, ghost fs: nat)
    requires forall g :: g in acc.ngrams <==> g in acc.individuals
    requires forall g :: g in acc.individuals ==> acc.individuals[g] != []
    ensures r.Aggregated? <==> SuffixesLoad(data, p, i, p.suffixes)
    ensures r.MissingLength? ==>
      && r.key in data && p.n !in data[r.key]
      && fs < |p.suffixes| && r.key == p.Key(i, p.suffixes[fs])
      && SuffixesLoad(data, p, i, p.suffixes[..fs])
    ensures r.Aggregated? ==>
      && (forall g :: g in r.agg.ngrams <==> g in r.agg.individuals)
      && (forall g :: g in r.agg.individuals ==> r.agg.individuals[g] != [])
      && (forall g :: ListOf(r.agg.individuals, g)
                      == ListOf(acc.individuals, g) + SuffixHits(data, p, i, p.suffixes, g))
  {
    var gsuffs := p.suffixes;
    var cur := acc;
    var b := 0;
    while b < |gsuffs|
      invariant 0 <= b <= |gsuffs|
      invariant forall g :: g in cur.ngrams <==> g in cur.individuals
      invariant forall g :: g in cur.individuals ==> cur.individuals[g] != []
      invariant forall g :: ListOf(cur.individuals, g) == ListOf(acc.individuals, g) + SuffixHits(data, p, i, gsuffs[..b], g)
      invariant SuffixesLoad(data, p, i, gsuffs[..b])
    {
      var s := gsuffs[b];
      assert gsuffs[..b + 1] == gsuffs[..b] + [s];
      var o := ScanKey(data, p, i, s, cur);
      if o.MissingLength? {
        if SuffixesLoad(data, p, i, p.suffixes) {
          SuffixesLoadMember(data, p, i, p.suffixes, s);
        }
        return o, b;
      }
      forall g
        ensures ListOf(o.agg.individuals, g) == ListOf(acc.individuals, g) + SuffixHits(data, p, i, gsuffs[..b + 1], g)
      {
        SuffixStep(data, p, i, gsuffs[..b], s, acc.individuals, cur.individuals, o.agg.individuals, g);
      }
      cur := o.agg;
      b := b + 1;
    }
    assert gsuffs[..b] == gsuffs;
    r, fs := Aggregated(cur), 0;
  }

  /** Finishing an individual extends the scanned prefix of `inds`, for one
      n-gram `g`. */
  lemma IndividualStep(data: Store, p: Pattern, inds: seq<Ind>, a: nat, m: IndMap, g: NGram)
    requires a < |inds|
    requires ListOf(m, g) == GroupHits(data, p, inds[..a], g) + SuffixHits(data, p, inds[a], p.suffixes, g)
    ensures ListOf(m, g) == GroupHits(data, p, inds[..a + 1], g)
  {
    assert inds[..a + 1][..a] == inds[..a];
  }

  /** An aggregate whose lists are those of the specification is consistent,
      and its set holds exactly the n-grams with a non-empty list. */
  lemma GroupAggregate(data: Store, p: Pattern, inds: seq<Ind>, agg: Aggregate)
    requires forall g :: g in agg.ngrams <==> g in agg.individuals
    requires forall g :: g in agg.individuals ==> agg.individuals[g] != []
    requires forall g :: ListOf(agg.individuals, g) == GroupHits(data, p, inds, g)
    ensures AggregateOf(data, p, inds, agg)
  {
    assert agg.ngrams == agg.individuals.Keys;
    forall g, x | g in agg.individuals && x in agg.individuals[g]
      ensures x in inds
    {
      GroupHitsMember(data, p, inds, g, x);
    }
  }

  /** Finishing an individual whose keys all load extends the loaded prefix. */
  lemma LoadsStep(data: Store, p: Pattern, inds: seq<Ind>, a: nat)
    requires a < |inds|
    requires LoadsAll(data, p, inds[..a]) && SuffixesLoad(data, p, inds[a], p.suffixes)
    ensures LoadsAll(data, p, inds[..a + 1])
  {
    assert inds[..a + 1][..a] == inds[..a];
  }

  /** The lookup of individual `inds[at]` with suffix `p.suffixes[fs]` fails,
      and every lookup before it, in individual-then-suffix order, loads. */
  predicate FirstFailure(data: Store, p: Pattern, inds: seq<Ind>, at: nat, fs: nat) {
    && at < |inds| && fs < |p.suffixes|
    && LoadsAll(data, p, inds[..at])
    && SuffixesLoad(data, p, inds[at], p.suffixes[..fs])
    && !Loads(data, p, inds[at], p.suffixes[fs])
  }

  /** `key` is the key of the first lookup that fails. */
  predicate RaisesWith(data: Store, p: Pattern, inds: seq<Ind>, key: string) {
    exists at, fs :: 0 <= at < |inds| && 0 <= fs < |p.suffixes|
      && FirstFailure(data, p, inds, at, fs) && key == p.Key(inds[at], p.suffixes[fs])
  }

  /** Every lookup scanned before the first failing one loads, so the failing
      lookup is the first in scan order. */
  lemma LoadsBeforeFailure(data: Store, p: Pattern, inds: seq<Ind>, at: nat, fs: nat, a: nat, b: nat)
    requires FirstFailure(data, p, inds, at, fs)
    requires b < |p.suffixes|
    requires a < at || (a == at && b < fs)
    ensures Loads(data, p, inds[a], p.suffixes[b])
  {
    if a < at {
      assert inds[a] in inds[..at];
      LoadsAllMember(data, p, inds[..at], inds[a]);
      SuffixesLoadMember(data, p, inds[a], p.suffixes, p.suffixes[b]);
    } else {
      assert p.suffixes[b] in p.suffixes[..fs];
      SuffixesLoadMember(data, p, inds[at], p.suffixes[..fs], p.suffixes[b]);
    }
  }

  /** The individual loop of gen_set for lookup pattern `p`. On failure `at`
      and `fs` locate the lookup that raised. */
  method ScanGroup(data: Store, p: Pattern, inds: seq<Ind>)
    returns (r: Outcome, ghost at: nat, ghost fs: nat)
    ensures r.Aggregated? <==> LoadsAll(data, p, inds)
    ensures r.MissingLength? ==>
      && FirstFailure(data, p, inds, at, fs)
      && r.key == p.Key(inds[at], p.suffixes[fs]) && r.key in data && p.n !in data[r.key]
    ensures r.Aggregated? ==> AggregateOf(data, p, inds, r.agg)
  {
    var acc := Aggregate({}, map[]);
    var a := 0;
    while a < |inds|
      invariant 0 <= a <= |inds|
      invariant forall g :: g in acc.ngrams <==> g in acc.individuals
      invariant forall g :: g in acc.individuals ==> acc.individuals[g] != []
      invariant forall g :: ListOf(acc.individuals, g) == GroupHits(data, p, inds[..a], g)
      invariant LoadsAll(data, p, inds[..a])
    {
      var i := inds[a];
      var o, b := ScanIndividual(data, p, i, acc);
      if o.MissingLength? {
        if LoadsAll(data, p, inds) {
          LoadsAllMember(data, p, inds, i);
        }
        return o, a, b;
      }
      forall g
        ensures ListOf(o.agg.individuals, g) == GroupHits(data, p, inds[..a + 1], g)
      {
        IndividualStep(data, p, inds, a, o.agg.individuals, g);
      }
      LoadsStep(data, p, inds, a);
      acc := o.agg;
      a := a + 1;
    }
    assert inds[..a] == inds;
    GroupAggregate(data, p, inds, acc);
    r, at, fs := Aggregated(acc), 0, 0;
  }

  /** Builds the n-gram set and the n-gram to individuals dictionary of one
      group, or fails with the key of the first lookup that raises. */
  method GenSet(data: Store, group: string, prefix: string, suffix: seq<string>, inds: seq<Ind>, t: string, n: string)
    returns (r: Outcome, ghost at: nat, ghost fs: nat)
    ensures var p := PatternFor(group, prefix, suffix, t, n);
      && (r.Aggregated? <==> LoadsAll(data, p, inds))
      && (r.MissingLength? ==>
            && FirstFailure(data, p, inds, at, fs)
            && r.key == p.Key(inds[at], p.suffixes[fs]) && r.key in data && n !in data[r.key])
      && (r.Aggregated? ==> AggregateOf(data, p, inds, r.agg))
  {
    var p := PatternFor(group, prefix, suffix, t, n);
    r, at, fs := ScanGroup(data, p, inds);
  }
}
