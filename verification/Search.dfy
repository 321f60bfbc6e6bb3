/** `_search` of catalog.py: nested loops over planned pairs, models and variants,
    with skips, a residue merge, a scan budget and early exits. */
module Search {
  import opened Wrappers
  import opened Catalog

  const SCAN_LIMIT: nat := 30_000

  datatype Filter = Filter(key: string, allowed: set<string>)

  /** A planned query: the pairs and series of the token plan, the attribute filters
      in dictionary order, and opaque answers for the text terms and stock deltas. */
  datatype Query = Query(
    pairs: seq<nat>, seriesIds: set<nat>, filters: seq<Filter>,
    priceMin: Option<nat>, priceMax: Option<nat>, inStock: bool,
    text: nat -> bool, delta: nat -> int)

  /** `filters.attributes.get(key)` */
  function Lookup(filters: seq<Filter>, key: string): Option<set<string>> {
    if filters == [] then None
    else if filters[0].key == key then Some(filters[0].allowed)
    else Lookup(filters[1..], key)
  }

  predicate Admits(allowed: Option<set<string>>, value: string) {
    allowed.None? || value in allowed.value
  }

  /** What a search may rely on: a partitioned table of well-formed categories whose
      style matrices fit a pair, a sorted plan in range, and a dictionary of filters. */
  ghost predicate Ready(f: Frame, t: Table, q: Query) {
    && f.Valid() && Partition(t)
    && (forall c :: c in t.categories ==> WellFormed(c) && Fits(t, c))
    && (forall i :: 0 <= i < |q.pairs| ==> q.pairs[i] < t.pairCount)
    && (forall i, j :: 0 <= i < j < |q.pairs| ==> q.pairs[i] < q.pairs[j])
    && (forall i, j :: 0 <= i < j < |q.filters| ==> q.filters[i].key != q.filters[j].key)
    && (forall r :: r in q.seriesIds ==> r < SERIES_COUNT)
  }

  ghost predicate Fits(t: Table, c: Category) {
    c.styles.Some? ==> |c.styles.value| <= t.modelsPerPair
  }

  // --- what the loops test --------------------------------------------------------

  /** `next(i for i, (attr_key, _) in enumerate(...) if attr_key == key)` */
  function Ordinal(attrs: seq<Attribute>, key: string): (r: Option<nat>)
    ensures r.Some? ==> r.value < |attrs| && attrs[r.value].name == key
    ensures r.Some? ==> forall i :: 0 <= i < r.value ==> attrs[i].name != key
    ensures r.None? ==> forall i :: 0 <= i < |attrs| ==> attrs[i].name != key
  {
    if attrs == [] then None
    else if attrs[0].name == key then Some(0)
    else
      match Ordinal(attrs[1..], key)
      case None => None
      case Some(i) => Some(i + 1)
  }

  predicate Special(c: Category, key: string) {
    key == BRAND_KEY || key == SERIES_KEY || key == c.variantKey
  }

  /** Every ordinary filter key is an attribute of the category. */
  predicate KeysKnown(q: Query, c: Category) {
    forall i :: 0 <= i < |q.filters| ==> Special(c, q.filters[i].key) || Ordinal(c.attributes, q.filters[i].key).Some?
  }

  predicate CheckPasses(c: Category, flt: Filter, model: nat)
    requires forall a :: a in c.attributes ==> a.values != []
  {
    Special(c, flt.key) ||
    match Ordinal(c.attributes, flt.key)
    case None => false
    case Some(i) => Vocabulary(c.attributes[i], model, i) in flt.allowed
  }

  predicate ChecksPass(q: Query, c: Category, model: nat)
    requires forall a :: a in c.attributes ==> a.values != []
  {
    forall i :: 0 <= i < |q.filters| ==> CheckPasses(c, q.filters[i], model)
  }

  predicate ResidueOk(f: Frame, q: Query, r: nat)
    requires f.Valid() && r < SERIES_COUNT
  {
    && (q.seriesIds == {} || r in q.seriesIds)
    && Admits(Lookup(q.filters, SERIES_KEY), f.seriesWords[r])
  }

  /** The slot survives the brand skip, the residue merge and the style skips. */
  predicate SlotOk(f: Frame, q: Query, c: Category, pair: nat, model: nat)
    requires f.Valid() && (c.styles.Some? ==> model < |c.styles.value|)
  {
    if c.styles.Some? then
      && Admits(Lookup(q.filters, BRAND_KEY), c.styles.value[model].brand)
      && Admits(Lookup(q.filters, SERIES_KEY), c.styles.value[model].series)
    else
      && Admits(Lookup(q.filters, BRAND_KEY), f.brands[pair % BRAND_COUNT])
      && ResidueOk(f, q, model % SERIES_COUNT)
  }

  predicate PriceOk(q: Query, price: nat) {
    && (q.priceMin.Some? ==> price >= q.priceMin.value)
    && (q.priceMax.Some? ==> price <= q.priceMax.value)
  }

  predicate VariantOk(f: Frame, q: Query, c: Category, variant: nat, n: nat)
    requires |c.variantValues| == VARIANTS_PER_MODEL && variant < VARIANTS_PER_MODEL
  {
    && Admits(Lookup(q.filters, c.variantKey), c.variantValues[variant])
    && (q.inStock ==> BaseAvailability(f, n) + q.delta(n) > 0)
    && q.text(n)
  }

  // --- what the loops compute ---------------------------------------------------------

  function SlotLimit(t: Table, c: Category): nat {
    if c.styles.Some? then |c.styles.value| else t.modelsPerPair
  }

  /** Scanned models below `k`, in order. */
  function Models(f: Frame, q: Query, c: Category, pair: nat, k: nat): seq<nat>
    requires f.Valid() && (c.styles.Some? ==> k <= |c.styles.value|)
  {
    if k == 0 then []
    else Models(f, q, c, pair, k - 1) + if SlotOk(f, q, c, pair, k - 1) then [k - 1] else []
  }

  function Tag(pair: nat, models: seq<nat>): seq<(nat, nat)> {
    seq(|models|, i requires 0 <= i < |models| => (pair, models[i]))
  }

  function PairCandidates(f: Frame, t: Table, q: Query, pair: nat): seq<(nat, nat)>
    requires f.Valid() && Partition(t) && pair < t.pairCount
  {
    var c := CategoryOfPair(t, pair);
    if KeysKnown(q, c) then Tag(pair, Models(f, q, c, pair, SlotLimit(t, c))) else []
  }

  /** The stream of scanned (pair, model) slots over the first `k` planned pairs. */
  function Candidates(f: Frame, t: Table, q: Query, k: nat): seq<(nat, nat)>
    requires f.Valid() && Partition(t) && k <= |q.pairs|
    requires forall i :: 0 <= i < k ==> q.pairs[i] < t.pairCount
  {
    if k == 0 then [] else Candidates(f, t, q, k - 1) + PairCandidates(f, t, q, q.pairs[k - 1])
  }

  function Variants(f: Frame, t: Table, q: Query, c: Category, pair: nat, model: nat, k: nat): seq<nat>
    requires |c.variantValues| == VARIANTS_PER_MODEL && k <= VARIANTS_PER_MODEL
  {
    if k == 0 then []
    else
      var n := Compose(t.modelsPerPair, pair, model, k - 1);
      Variants(f, t, q, c, pair, model, k - 1) + if VariantOk(f, q, c, k - 1, n) then [n] else []
  }

  /** The matching indices of one slot. */
  function Hits(f: Frame, t: Table, q: Query, slot: (nat, nat)): seq<nat>
    requires f.Valid() && Partition(t) && slot.0 < t.pairCount && WellFormed(CategoryOfPair(t, slot.0))
  {
    var c := CategoryOfPair(t, slot.0);
    if ChecksPass(q, c, slot.1) && PriceOk(q, UnitPrice(f, c, slot.0, slot.1)) then
      Variants(f, t, q, c, slot.0, slot.1, VARIANTS_PER_MODEL)
    else []
  }

  ghost predicate GoodSlot(t: Table, slot: (nat, nat)) {
    Partition(t) && slot.0 < t.pairCount && WellFormed(CategoryOfPair(t, slot.0))
  }

  ghost predicate SlotsOk(t: Table, slots: seq<(nat, nat)>) {
    forall i :: 0 <= i < |slots| ==> GoodSlot(t, slots[i])
  }

  function Flat(f: Frame, t: Table, q: Query, slots: seq<(nat, nat)>): seq<nat>
    requires f.Valid() && SlotsOk(t, slots)
  {
    if slots == [] then [] else Flat(f, t, q, slots[..|slots| - 1]) + Hits(f, t, q, slots[|slots| - 1])
  }

  function Min(a: nat, b: nat): nat { if a < b then a else b }

  function Clip(s: seq<nat>, k: nat): seq<nat> { s[..Min(k, |s|)] }

  lemma {:induction false} CandidatesOk(f: Frame, t: Table, q: Query, k: nat)
    requires Ready(f, t, q) && k <= |q.pairs|
    ensures SlotsOk(t, Candidates(f, t, q, k))
  {
    hide WellFormed, Models, KeysKnown, Partition;
    if k > 0 {
      CandidatesOk(f, t, q, k - 1);
      PairOk(f, t, q, q.pairs[k - 1]);
    }
  }

  lemma PairOk(f: Frame, t: Table, q: Query, pair: nat)
    requires Ready(f, t, q) && pair < t.pairCount
    ensures WellFormed(CategoryOfPair(t, pair)) && Fits(t, CategoryOfPair(t, pair))
  {
    assert CategoryOfPair(t, pair) in t.categories;
  }

  /** Everything the scan budget allows, before clipping: independent of the page. */
  function Found(f: Frame, t: Table, q: Query): seq<nat>
    requires Ready(f, t, q)
  {
    CandidatesOk(f, t, q, |q.pairs|);
    var slots := Candidates(f, t, q, |q.pairs|);
    Flat(f, t, q, slots[..Min(SCAN_LIMIT, |slots|)])
  }

  lemma {:induction false} FlatPrefix(f: Frame, t: Table, q: Query, slots: seq<(nat, nat)>, k: nat)
    requires f.Valid() && SlotsOk(t, slots) && k <= |slots|
    ensures Flat(f, t, q, slots[..k]) <= Flat(f, t, q, slots)
    decreases |slots|
  {
    if k < |slots| {
      FlatPrefix(f, t, q, slots[..|slots| - 1], k);
      assert slots[..|slots| - 1][..k] == slots[..k];
    } else {
      assert slots[..k] == slots;
    }
  }

  lemma {:induction false} CandidatesPrefix(f: Frame, t: Table, q: Query, j: nat, k: nat)
    requires Ready(f, t, q) && j <= k <= |q.pairs|
    ensures Candidates(f, t, q, j) <= Candidates(f, t, q, k)
  {
    hide PairCandidates;
    if j < k {
      CandidatesPrefix(f, t, q, j, k - 1);
    }
  }
}
