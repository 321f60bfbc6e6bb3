/** The search as the source runs it, proved to compute the clipped prefix of the
    page-independent result `Found`. */
module SearchLoops {
  import opened Wrappers
  import opened Catalog
  import opened Search

  // --- the residue merge -------------------------------------------------------------

  /** Numbers below `k` whose residue is wanted, in order. */
  function WithResidue(residues: set<nat>, k: nat): seq<nat> {
    if k == 0 then []
    else WithResidue(residues, k - 1) + if (k - 1) % SERIES_COUNT in residues then [k - 1] else []
  }

  lemma {:induction false} NoneBetween(residues: set<nat>, lo: nat, hi: nat)
    requires lo <= hi && forall k :: lo <= k < hi ==> k % SERIES_COUNT !in residues
    ensures WithResidue(residues, hi) == WithResidue(residues, lo)
  {
    if lo < hi {
      NoneBetween(residues, lo, hi - 1);
    }
  }

  /** Each residue's next number, all of them the least ones from `bound` on. */
  ghost predicate Heads(residues: set<nat>, heads: map<nat, nat>, bound: nat) {
    && heads.Keys == residues
    && forall r :: r in residues ==>
         r < SERIES_COUNT && heads[r] % SERIES_COUNT == r && bound <= heads[r] < bound + SERIES_COUNT
  }

  lemma SameResidueFar(k: nat, h: nat)
    requires k < h && k % SERIES_COUNT == h % SERIES_COUNT
    ensures h >= k + SERIES_COUNT
  {
    assert h - k == SERIES_COUNT * (h / SERIES_COUNT - k / SERIES_COUNT);
  }

  lemma HeadIsLeast(residues: set<nat>, heads: map<nat, nat>, bound: nat, head: nat)
    requires Heads(residues, heads, bound)
    requires forall r :: r in residues ==> head <= heads[r]
    ensures forall k :: bound <= k < head ==> k % SERIES_COUNT !in residues
  {
    forall k | bound <= k < head ensures k % SERIES_COUNT !in residues {
      if k % SERIES_COUNT in residues {
        var h := heads[k % SERIES_COUNT];
        SameResidueFar(k, h);
      }
    }
  }

  lemma SameResidue(h: nat)
    ensures (h + SERIES_COUNT) % SERIES_COUNT == h % SERIES_COUNT
  {
  }

  /** Taking the least head and stepping it by the stride keeps all heads least. */
  lemma AdvanceHead(residues: set<nat>, heads: map<nat, nat>, bound: nat, r: nat)
    requires Heads(residues, heads, bound) && r in residues
    requires forall x :: x in residues ==> heads[r] <= heads[x]
    ensures Heads(residues, heads[r := heads[r] + SERIES_COUNT], heads[r] + 1)
  {
    var next := heads[r] + SERIES_COUNT;
    assert next % SERIES_COUNT == r by { SameResidue(heads[r]); }
    forall x | x in residues && x != r ensures heads[r] + 1 <= heads[x] < heads[r] + 1 + SERIES_COUNT {
      assert heads[x] != heads[r];
    }
  }

  method LeastHead(residues: set<nat>, heads: map<nat, nat>, limit: nat) returns (least: Option<nat>)
    requires heads.Keys == residues && forall r :: r in residues ==> r < SERIES_COUNT
    ensures least.None? ==> forall r :: r in residues ==> heads[r] >= limit
    ensures least.Some? ==> least.value in residues && heads[least.value] < limit
    ensures least.Some? ==> forall r :: r in residues ==> heads[least.value] <= heads[r]
  {
    least := None;
    for r := 0 to SERIES_COUNT
      invariant least.None? ==> forall x :: x in residues && x < r ==> heads[x] >= limit
      invariant least.Some? ==> least.value in residues && heads[least.value] < limit
      invariant least.Some? ==> forall x :: x in residues && x < r ==> heads[least.value] <= heads[x]
    {
      if r in heads && heads[r] < limit && (least.None? || heads[r] < heads[least.value]) {
        least := Some(r);
      }
    }
  }

  /** `heapq.merge(*(range(r, models_per_pair, SERIES_COUNT) for r in sorted(residues)))` */
  method MergeResidues(residues: set<nat>, limit: nat) returns (merged: seq<nat>)
    requires forall r :: r in residues ==> r < SERIES_COUNT
    ensures merged == WithResidue(residues, limit)
  {
    var heads: map<nat, nat> := map r: nat | r in residues :: r;
    merged := [];
    ghost var bound: nat := 0;
    while true
      invariant Heads(residues, heads, bound)
      invariant bound <= limit && merged == WithResidue(residues, bound)
      decreases limit - bound
    {
      var least := LeastHead(residues, heads, limit);
      if least.None? {
        HeadIsLeast(residues, heads, bound, limit);
        NoneBetween(residues, bound, limit);
        return;
      }
      var r := least.value;
      HeadIsLeast(residues, heads, bound, heads[r]);
      NoneBetween(residues, bound, heads[r]);
      AdvanceHead(residues, heads, bound, r);
      merged := merged + [heads[r]];
      bound := heads[r] + 1;
      heads := heads[r := heads[r] + SERIES_COUNT];
    }
  }

  // --- the model list -------------------------------------------------------------------

  /** The residues the plan and the series filter leave; none of them may mean no restriction. */
  method SeriesResidues(f: Frame, q: Query) returns (residues: set<nat>, restricted: bool)
    requires f.Valid() && forall r :: r in q.seriesIds ==> r < SERIES_COUNT
    ensures forall r :: r in residues ==> r < SERIES_COUNT
    ensures forall r :: 0 <= r < SERIES_COUNT ==> (ResidueOk(f, q, r) <==> !restricted || r in residues)
  {
    residues := q.seriesIds;
    restricted := q.seriesIds != {};
    var seriesFilter := Lookup(q.filters, SERIES_KEY);
    if seriesFilter.Some? {
      var wanted := set r: nat | r < SERIES_COUNT && f.seriesWords[r] in seriesFilter.value;
      residues := if residues == {} then wanted else residues * wanted;
      restricted := true;
    }
  }

  /** A plain pair's models are those of the merge, if its brand passes. */
  lemma {:induction false} PlainModels(f: Frame, q: Query, c: Category, pair: nat, residues: set<nat>,
                                       restricted: bool, k: nat)
    requires f.Valid() && c.styles.None?
    requires Admits(Lookup(q.filters, BRAND_KEY), f.brands[pair % BRAND_COUNT])
    requires forall r :: 0 <= r < SERIES_COUNT ==> (ResidueOk(f, q, r) <==> !restricted || r in residues)
    ensures Models(f, q, c, pair, k) == if restricted then WithResidue(residues, k) else seq(k, i => i)
  {
    if k > 0 {
      PlainModels(f, q, c, pair, residues, restricted, k - 1);
    }
  }

  lemma {:induction false} NoModels(f: Frame, q: Query, c: Category, pair: nat, k: nat)
    requires f.Valid() && (c.styles.Some? ==> k <= |c.styles.value|)
    requires forall m :: 0 <= m < k ==> !SlotOk(f, q, c, pair, m)
    ensures Models(f, q, c, pair, k) == []
  {
    if k > 0 {
      NoModels(f, q, c, pair, k - 1);
    }
  }

  /** The scanned models of one pair: brand skip, residue merge, style skips. */
  method PlanModels(f: Frame, t: Table, q: Query, pair: nat) returns (models: seq<nat>)
    requires Ready(f, t, q) && pair < t.pairCount
    ensures models == Models(f, q, CategoryOfPair(t, pair), pair, SlotLimit(t, CategoryOfPair(t, pair)))
  {
    hide Partition, WellFormed, Admits, Lookup;
    var c := CategoryOfPair(t, pair);
    var brandFilter := Lookup(q.filters, BRAND_KEY);
    if c.styles.Some? {
      models := [];
      for m := 0 to |c.styles.value|
        invariant models == Models(f, q, c, pair, m)
      {
        var style := c.styles.value[m];
        if Admits(brandFilter, style.brand) && Admits(Lookup(q.filters, SERIES_KEY), style.series) {
          models := models + [m];
        }
      }
    } else {
      if !Admits(brandFilter, f.brands[pair % BRAND_COUNT]) {
        NoModels(f, q, c, pair, t.modelsPerPair);
        return [];
      }
      var residues, restricted := SeriesResidues(f, q);
      PlainModels(f, q, c, pair, residues, restricted, t.modelsPerPair);
      if restricted {
        models := MergeResidues(residues, t.modelsPerPair);
      } else {
        models := seq(t.modelsPerPair, i => i);
      }
    }
  }

  // --- the per-pair attribute checks ------------------------------------------------------

  datatype Check = Check(ordinal: nat, vocab: seq<string>, allowed: set<string>)

  predicate CheckAll(checks: seq<Check>, model: nat)
    requires forall k :: k in checks ==> k.vocab != []
  {
    forall k :: k in checks ==> k.vocab[(model + 3 * k.ordinal) % |k.vocab|] in k.allowed
  }

  lemma NothingChecked()
    ensures forall model: nat :: CheckAll([], model)
  {
  }

  lemma SpecialPasses(c: Category, flt: Filter)
    requires WellFormed(c) && Special(c, flt.key)
    ensures forall model: nat :: CheckPasses(c, flt, model)
  {
    hide Special;
  }

  lemma CheckNext(c: Category, flt: Filter, checks: seq<Check>, check: Check, model: nat)
    requires WellFormed(c) && !Special(c, flt.key) && (forall k :: k in checks ==> k.vocab != [])
    requires var ordinal := Ordinal(c.attributes, flt.key);
             ordinal.Some? && check == Check(ordinal.value, c.attributes[ordinal.value].values, flt.allowed)
    ensures CheckAll(checks + [check], model) <==> CheckAll(checks, model) && CheckPasses(c, flt, model)
  {
    hide Ordinal, Special;
    assert forall k :: k in checks + [check] <==> k in checks || k == check;
  }

  /** The check list of one pair; none when a filter names an unknown attribute. */
  method PlanChecks(q: Query, c: Category) returns (r: Option<seq<Check>>)
    requires WellFormed(c)
    ensures r.Some? <==> KeysKnown(q, c)
    ensures r.Some? ==> forall k :: k in r.value ==> k.vocab != []
    ensures r.Some? ==> forall model: nat :: CheckAll(r.value, model) <==> ChecksPass(q, c, model)
  {
    hide CheckAll, CheckPasses;
    var checks: seq<Check> := [];
    assert forall model: nat :: CheckAll(checks, model) by { NothingChecked(); }
    for i := 0 to |q.filters|
      invariant forall j :: 0 <= j < i ==> Special(c, q.filters[j].key) || Ordinal(c.attributes, q.filters[j].key).Some?
      invariant forall k :: k in checks ==> k.vocab != []
      invariant forall model: nat ::
        CheckAll(checks, model) <==> forall j :: 0 <= j < i ==> CheckPasses(c, q.filters[j], model)
    {
      var flt := q.filters[i];
      if !Special(c, flt.key) {
        var ordinal := Ordinal(c.attributes, flt.key);
        if ordinal.None? { return None; }
        var check := Check(ordinal.value, c.attributes[ordinal.value].values, flt.allowed);
        forall model: nat
          ensures CheckAll(checks + [check], model) <==> CheckAll(checks, model) && CheckPasses(c, flt, model)
        {
          CheckNext(c, flt, checks, check, model);
        }
        checks := checks + [check];
      } else {
        SpecialPasses(c, flt);
      }
    }
    return Some(checks);
  }

  // --- the loops ---------------------------------------------------------------------------

  /** The variant loop of one slot. */
  method ScanVariants(f: Frame, t: Table, q: Query, c: Category, pair: nat, model: nat, before: seq<nat>)
    returns (matches: seq<nat>)
    requires |c.variantValues| == VARIANTS_PER_MODEL
    ensures matches == before + Variants(f, t, q, c, pair, model, VARIANTS_PER_MODEL)
  {
    matches := before;
    var allowed := Lookup(q.filters, c.variantKey);
    for v := 0 to VARIANTS_PER_MODEL
      invariant matches == before + Variants(f, t, q, c, pair, model, v)
    {
      var n := Compose(t.modelsPerPair, pair, model, v);
      if Admits(allowed, c.variantValues[v]) {
        var available := BaseAvailability(f, n) + q.delta(n);
        if !(q.inStock && available <= 0) && q.text(n) {
          matches := matches + [n];
        }
      }
    }
  }

  /** One scanned slot: attribute checks, price, then its variants. */
  method ScanSlot(f: Frame, t: Table, q: Query, pair: nat, model: nat, checks: seq<Check>, before: seq<nat>)
    returns (matches: seq<nat>)
    requires f.Valid() && Partition(t) && pair < t.pairCount && WellFormed(CategoryOfPair(t, pair))
    requires forall k :: k in checks ==> k.vocab != []
    requires CheckAll(checks, model) <==> ChecksPass(q, CategoryOfPair(t, pair), model)
    ensures matches == before + Hits(f, t, q, (pair, model))
  {
    hide CheckAll, ChecksPass, Partition, Variants;
    var c := CategoryOfPair(t, pair);
    if !CheckAll(checks, model) { return before; }
    var price := UnitPrice(f, c, pair, model);
    if q.priceMin.Some? && price < q.priceMin.value { return before; }
    if q.priceMax.Some? && price > q.priceMax.value { return before; }
    matches := ScanVariants(f, t, q, c, pair, model, before);
  }

  /** Slots scanned so far and what they yielded. */
  ghost predicate Progress(f: Frame, t: Table, q: Query, slots: seq<(nat, nat)>, scanned: nat, matches: seq<nat>) {
    && scanned == |slots| <= SCAN_LIMIT
    && f.Valid() && SlotsOk(t, slots) && matches == Flat(f, t, q, slots)
  }

  /** The model loop of one pair. `stop` tells a full window or a spent budget. */
  method ScanPair(f: Frame, t: Table, q: Query, pair: nat, needed: nat,
                  ghost slots: seq<(nat, nat)>, before: seq<nat>, scannedBefore: nat)
    returns (matches: seq<nat>, scanned: nat, exhausted: bool, ghost extra: seq<(nat, nat)>)
    requires Ready(f, t, q) && pair < t.pairCount
    requires Progress(f, t, q, slots, scannedBefore, before) && |before| < needed
    ensures extra <= PairCandidates(f, t, q, pair)
    ensures Progress(f, t, q, slots + extra, scanned, matches)
    ensures exhausted ==> scanned == SCAN_LIMIT && extra != PairCandidates(f, t, q, pair)
    ensures !exhausted && |matches| < needed ==> extra == PairCandidates(f, t, q, pair)
  {
    hide Partition, Models, Hits, Flat, SlotsOk, CheckAll, ChecksPass, KeysKnown, WellFormed, Lookup;
    PairOk(f, t, q, pair);
    var c := CategoryOfPair(t, pair);
    matches, scanned, exhausted, extra := before, scannedBefore, false, [];
    assert slots + extra == slots;
    var plan := PlanChecks(q, c);
    if plan.None? { return; }
    var models := PlanModels(f, t, q, pair);
    var i := 0;
    while i < |models|
      invariant 0 <= i <= |models|
      invariant extra == PairCandidates(f, t, q, pair)[..i]
      invariant Progress(f, t, q, slots + extra, scanned, matches)
      invariant |matches| < needed
    {
      if scanned + 1 > SCAN_LIMIT {
        exhausted := true;
        return;
      }
      scanned := scanned + 1;
      var slot := (pair, models[i]);
      matches := ScanSlot(f, t, q, pair, models[i], plan.value, matches);
      NextSlot(f, t, q, slots, extra, slot);
      assert PairCandidates(f, t, q, pair)[i] == slot;
      extra := extra + [slot];
      i := i + 1;
      if |matches| >= needed { return; }
    }
  }

  lemma NextSlot(f: Frame, t: Table, q: Query, slots: seq<(nat, nat)>, extra: seq<(nat, nat)>, slot: (nat, nat))
    requires f.Valid() && SlotsOk(t, slots + extra)
    requires Partition(t) && slot.0 < t.pairCount && WellFormed(CategoryOfPair(t, slot.0))
    ensures SlotsOk(t, slots + (extra + [slot]))
    ensures Flat(f, t, q, slots + (extra + [slot])) == Flat(f, t, q, slots + extra) + Hits(f, t, q, slot)
  {
    hide Flat, Hits, SlotsOk, Partition, WellFormed;
    ExtendProgress(f, t, q, slots + extra, slot);
    assert slots + (extra + [slot]) == slots + extra + [slot];
  }

  lemma ExtendProgress(f: Frame, t: Table, q: Query, slots: seq<(nat, nat)>, slot: (nat, nat))
    requires f.Valid() && SlotsOk(t, slots)
    requires Partition(t) && slot.0 < t.pairCount && WellFormed(CategoryOfPair(t, slot.0))
    ensures SlotsOk(t, slots + [slot])
    ensures Flat(f, t, q, slots + [slot]) == Flat(f, t, q, slots) + Hits(f, t, q, slot)
  {
    assert (slots + [slot])[..|slots|] == slots;
  }

  /** `_search`'s matching window: the first `needed` of what the budget allows. */
  method SearchWindow(f: Frame, t: Table, q: Query, needed: nat) returns (matches: seq<nat>)
    requires Ready(f, t, q) && needed > 0
    ensures matches == Clip(Found(f, t, q), needed)
  {
    hide Partition, Flat, PairCandidates, WellFormed;
    var scanned: nat := 0;
    ghost var slots: seq<(nat, nat)> := [];
    matches := [];
    assert Progress(f, t, q, [], 0, []) by { EmptyFlat(f, t, q); }
    var i := 0;
    while i < |q.pairs|
      invariant 0 <= i <= |q.pairs|
      invariant slots == Candidates(f, t, q, i)
      invariant Progress(f, t, q, slots, scanned, matches) && |matches| < needed
    {
      ghost var extra;
      var exhausted;
      matches, scanned, exhausted, extra := ScanPair(f, t, q, q.pairs[i], needed, slots, matches, scanned);
      ghost var all := Candidates(f, t, q, |q.pairs|);
      CandidatesPrefix(f, t, q, i + 1, |q.pairs|);
      CandidatesOk(f, t, q, |q.pairs|);
      assert slots + extra <= all;
      slots := slots + extra;
      if |matches| >= needed || exhausted {
        assert slots == all[..scanned];
        StopEarly(f, t, q, scanned, needed);
        matches := matches[..if needed < |matches| then needed else |matches|];
        return;
      }
      i := i + 1;
    }
    assert slots[..Min(SCAN_LIMIT, |slots|)] == slots;
  }

  lemma EmptyFlat(f: Frame, t: Table, q: Query)
    requires f.Valid()
    ensures SlotsOk(t, []) && Flat(f, t, q, []) == []
  {
  }

  /** Stopping once the window is full or the budget spent loses nothing of the window. */
  lemma StopEarly(f: Frame, t: Table, q: Query, scanned: nat, needed: nat)
    requires Ready(f, t, q)
    requires scanned <= SCAN_LIMIT && scanned <= |Candidates(f, t, q, |q.pairs|)|
    requires SlotsOk(t, Candidates(f, t, q, |q.pairs|)[..scanned])
    requires scanned == SCAN_LIMIT || |Flat(f, t, q, Candidates(f, t, q, |q.pairs|)[..scanned])| >= needed
    ensures Clip(Flat(f, t, q, Candidates(f, t, q, |q.pairs|)[..scanned]), needed) == Clip(Found(f, t, q), needed)
  {
    hide Flat, Partition, WellFormed, PairCandidates;
    CandidatesOk(f, t, q, |q.pairs|);
    var all := Candidates(f, t, q, |q.pairs|);
    var slots := all[..Min(SCAN_LIMIT, |all|)];
    assert slots[..scanned] == all[..scanned];
    FlatPrefix(f, t, q, slots, scanned);
  }
}
