/** The search loops yield an initial segment of a declarative filter over all
    indices, read off the described item itself: for exactly those tables whose items
    show the values the loops test. */
module SearchExact {
  import opened Wrappers
  import opened Catalog
  import opened Search
  import P = TokenPlan

  // --- the declarative side ---------------------------------------------------------

  /** Every filter key is an attribute of the described item, with an allowed value. */
  ghost predicate Satisfies(filters: seq<Filter>, attributes: map<string, string>) {
    forall i :: 0 <= i < |filters| ==>
      filters[i].key in attributes && attributes[filters[i].key] in filters[i].allowed
  }

  /** The item at index `n`, as `materialize` describes it, satisfies the query. */
  ghost predicate Wanted(f: Frame, t: Table, q: Query, n: nat)
    requires Ready(f, t, q) && Listed(t, n)
  {
    var (pair, model, variant) := Decompose(t.modelsPerPair, n);
    var c := CategoryOfPair(t, pair);
    var item := Describe(f, c, pair, model, variant);
    && pair in q.pairs
    && (!c.Styled() && q.seriesIds != {} ==> model % SERIES_COUNT in q.seriesIds)
    && item.Some? && Satisfies(q.filters, item.value.attributes)
    && (q.priceMin.Some? ==> q.priceMin.value <= ItemAt(f, t, n).price)
    && (q.priceMax.Some? ==> ItemAt(f, t, n).price <= q.priceMax.value)
    && (q.inStock ==> BaseAvailability(f, n) + q.delta(n) > 0)
    && q.text(n)
  }

  // --- what an item must show ------------------------------------------------------------

  /** The described attributes show, under every key the loops test, the value they test:
      brand, series, variant, and for any other name its first attribute of that name. */
  ghost predicate Shows(c: Category, attributes: map<string, string>, style: Style, model: nat, variant: nat)
    requires WellFormed(c) && variant < VARIANTS_PER_MODEL
  {
    && ShowsAt(attributes, BRAND_KEY, style.brand)
    && ShowsAt(attributes, SERIES_KEY, style.series)
    && ShowsAt(attributes, c.variantKey, c.variantValues[variant])
    && forall i :: 0 <= i < |c.attributes| ==> ShowsFirst(c, attributes, model, i)
  }

  ghost predicate ShowsAt(attributes: map<string, string>, key: string, value: string) {
    key in attributes && attributes[key] == value
  }

  ghost predicate ShowsFirst(c: Category, attributes: map<string, string>, model: nat, i: nat)
    requires WellFormed(c) && i < |c.attributes|
  {
    !Special(c, c.attributes[i].name) && Ordinal(c.attributes, c.attributes[i].name) == Some(i) ==>
      ShowsAt(attributes, c.attributes[i].name, Vocabulary(c.attributes[i], model, i))
  }

  /** The slot has no item, or its item shows what the loops test. A category with an
      empty style matrix is never scanned although its items exist. */
  ghost predicate Honest(f: Frame, c: Category, pair: nat, model: nat, variant: nat)
    requires f.Valid() && WellFormed(c) && variant < VARIANTS_PER_MODEL
  {
    match Describe(f, c, pair, model, variant)
    case None => true
    case Some(item) =>
      && c.styles != Some([])
      && SlotStyle(f, c, pair, model).Some?
      && Shows(c, item.attributes, SlotStyle(f, c, pair, model).value, model, variant)
  }

  ghost predicate HonestAt(f: Frame, t: Table, n: nat)
    requires f.Valid() && Listed(t, n)
  {
    var (pair, model, variant) := Decompose(t.modelsPerPair, n);
    Honest(f, CategoryOfPair(t, pair), pair, model, variant)
  }

  /** Every item of the query's pairs is honest. */
  ghost predicate HonestFor(f: Frame, t: Table, q: Query)
    requires Ready(f, t, q)
  {
    forall n: nat :: n < t.totalSkus && Listed(t, n) && Decompose(t.modelsPerPair, n).0 in q.pairs ==> HonestAt(f, t, n)
  }

  /** A sufficient choice of names: attribute names are distinct and reserved names are
      not reused; a style matrix, if present, is not empty. */
  ghost predicate WellNamed(c: Category) {
    && (forall i, j :: 0 <= i < j < |c.attributes| ==> c.attributes[i].name != c.attributes[j].name)
    && (forall i :: 0 <= i < |c.attributes| ==>
          c.attributes[i].name != BRAND_KEY && c.attributes[i].name != SERIES_KEY)
    && c.variantKey != BRAND_KEY && c.variantKey != SERIES_KEY
    && c.styles != Some([])
  }

  lemma ReadyListed(f: Frame, t: Table, q: Query, n: nat)
    requires Ready(f, t, q) && n < t.totalSkus
    ensures Listed(t, n) && Fits(t, CategoryOfPair(t, Decompose(t.modelsPerPair, n).0))
  {
    InRange(t, n);
  }

  /** All matching indices below `k`, in order. */
  ghost function Matches(f: Frame, t: Table, q: Query, k: nat): seq<nat>
    requires Ready(f, t, q) && k <= t.totalSkus
  {
    if k == 0 then []
    else
      ReadyListed(f, t, q, k - 1);
      Matches(f, t, q, k - 1) + if Wanted(f, t, q, k - 1) then [k - 1] else []
  }

  /** It is strictly increasing and holds exactly the wanted indices. */
  lemma {:induction false} MatchesExactly(f: Frame, t: Table, q: Query, k: nat)
    requires Ready(f, t, q) && k <= t.totalSkus
    ensures var r := Matches(f, t, q, k);
            && (forall i, j :: 0 <= i < j < |r| ==> r[i] < r[j])
            && (forall n :: n in r ==> n < k)
            && (forall n: nat :: n < k ==> Listed(t, n) && (n in r <==> Wanted(f, t, q, n)))
  {
    hide Wanted, Listed, Ready;
    if k > 0 {
      ReadyListed(f, t, q, k - 1);
      MatchesExactly(f, t, q, k - 1);
      var r := Matches(f, t, q, k - 1);
      assert forall i :: 0 <= i < |r| ==> r[i] in r;
    }
  }

  // --- the loops' own test, index by index --------------------------------------------

  ghost predicate Hit(f: Frame, t: Table, q: Query, n: nat)
    requires Ready(f, t, q) && Listed(t, n)
  {
    var (pair, model, variant) := Decompose(t.modelsPerPair, n);
    var c := CategoryOfPair(t, pair);
    && pair in q.pairs
    && KeysKnown(q, c)
    && model < SlotLimit(t, c) && SlotOk(f, q, c, pair, model)
    && ChecksPass(q, c, model)
    && PriceOk(q, UnitPrice(f, c, pair, model))
    && VariantOk(f, q, c, variant, n)
  }

  lemma {:induction false} LookupMeans(filters: seq<Filter>, key: string, value: string)
    requires forall i, j :: 0 <= i < j < |filters| ==> filters[i].key != filters[j].key
    ensures Admits(Lookup(filters, key), value) <==>
            forall i :: 0 <= i < |filters| && filters[i].key == key ==> value in filters[i].allowed
  {
    if filters != [] && filters[0].key != key {
      LookupMeans(filters[1..], key, value);
      assert forall i :: 0 < i < |filters| ==> filters[i] == filters[1..][i - 1];
    }
  }

  /** A key that names no attribute keeps what the base says of it. */
  lemma {:induction false} AssignElsewhere(c: Category, base: map<string, string>, model: nat, k: nat, key: string)
    requires k <= |c.attributes| && forall a :: a in c.attributes ==> a.values != []
    requires forall i :: 0 <= i < k ==> c.attributes[i].name != key
    ensures var m := Assign(c, base, model, k);
            (key in m <==> key in base) && (key in m ==> m[key] == base[key])
  {
    hide Vocabulary;
    if k > 0 {
      AssignElsewhere(c, base, model, k - 1, key);
    }
  }

  /** When attribute names differ, each shows its own value. */
  lemma {:induction false} AssignAt(c: Category, base: map<string, string>, model: nat, k: nat, i: nat)
    requires i < k <= |c.attributes| && forall a :: a in c.attributes ==> a.values != []
    requires forall i, j :: 0 <= i < j < |c.attributes| ==> c.attributes[i].name != c.attributes[j].name
    ensures var m := Assign(c, base, model, k);
            c.attributes[i].name in m && m[c.attributes[i].name] == Vocabulary(c.attributes[i], model, i)
  {
    hide Vocabulary;
    if i < k - 1 {
      AssignAt(c, base, model, k - 1, i);
    }
  }

  /** Its keys, whatever the names. */
  lemma {:induction false} AssignKeys(c: Category, base: map<string, string>, model: nat, k: nat)
    requires k <= |c.attributes| && forall a :: a in c.attributes ==> a.values != []
    ensures forall key :: key in Assign(c, base, model, k)
              <==> key in base || exists i :: 0 <= i < k && c.attributes[i].name == key
  {
    hide Vocabulary;
    if k > 0 {
      AssignKeys(c, base, model, k - 1);
    }
  }

  function BaseAttributes(c: Category, style: Style, variant: nat): map<string, string>
    requires |c.variantValues| == VARIANTS_PER_MODEL && variant < VARIANTS_PER_MODEL
  {
    map[BRAND_KEY := style.brand][SERIES_KEY := style.series][c.variantKey := c.variantValues[variant]]
  }

  lemma DescribedAttributes(f: Frame, c: Category, pair: nat, model: nat, variant: nat)
    requires f.Valid() && WellFormed(c) && variant < VARIANTS_PER_MODEL
    requires Describe(f, c, pair, model, variant).Some?
    ensures SlotStyle(f, c, pair, model).Some?
    ensures Describe(f, c, pair, model, variant).value.attributes
            == Assign(c, BaseAttributes(c, SlotStyle(f, c, pair, model).value, variant), model, |c.attributes|)
  {
    hide SlotStyle, Assign;
  }

  lemma DescribedKeys(f: Frame, c: Category, pair: nat, model: nat, variant: nat)
    requires f.Valid() && WellFormed(c) && variant < VARIANTS_PER_MODEL
    requires Describe(f, c, pair, model, variant).Some?
    ensures forall key :: key in Describe(f, c, pair, model, variant).value.attributes
              <==> Special(c, key) || exists i :: 0 <= i < |c.attributes| && c.attributes[i].name == key
  {
    hide Describe, SlotStyle, Assign;
    DescribedAttributes(f, c, pair, model, variant);
    AssignKeys(c, BaseAttributes(c, SlotStyle(f, c, pair, model).value, variant), model, |c.attributes|);
  }

  lemma WellNamedShows(c: Category, style: Style, model: nat, variant: nat)
    requires WellFormed(c) && WellNamed(c) && variant < VARIANTS_PER_MODEL
    ensures Shows(c, Assign(c, BaseAttributes(c, style, variant), model, |c.attributes|), style, model, variant)
  {
    hide Vocabulary, Ordinal, Assign;
    var base := BaseAttributes(c, style, variant);
    assert BRAND_KEY != SERIES_KEY;
    assert forall i :: 0 <= i < |c.attributes| ==> c.attributes[i] in c.attributes;
    AssignElsewhere(c, base, model, |c.attributes|, BRAND_KEY);
    AssignElsewhere(c, base, model, |c.attributes|, SERIES_KEY);
    AssignElsewhere(c, base, model, |c.attributes|, c.variantKey);
    forall i | 0 <= i < |c.attributes| ensures ShowsFirst(c, Assign(c, base, model, |c.attributes|), model, i) {
      AssignAt(c, base, model, |c.attributes|, i);
    }
  }

  /** Well-chosen names make every slot honest. */
  lemma WellNamedHonest(f: Frame, c: Category, pair: nat, model: nat, variant: nat)
    requires f.Valid() && WellFormed(c) && WellNamed(c) && variant < VARIANTS_PER_MODEL
    ensures Honest(f, c, pair, model, variant)
  {
    hide Describe, SlotStyle, Assign, Shows, BaseAttributes;
    if Describe(f, c, pair, model, variant).Some? {
      DescribedAttributes(f, c, pair, model, variant);
      WellNamedShows(c, SlotStyle(f, c, pair, model).value, model, variant);
    }
  }

  /** One filter: where the item is honest, the loops' reading of it is the item's. */
  lemma FilterAgrees(f: Frame, c: Category, flt: Filter, pair: nat, model: nat, variant: nat, style: Style)
    requires f.Valid() && WellFormed(c) && variant < VARIANTS_PER_MODEL
    requires SlotStyle(f, c, pair, model) == Some(style) && Describe(f, c, pair, model, variant).Some?
    requires Honest(f, c, pair, model, variant)
    ensures var m := Describe(f, c, pair, model, variant).value.attributes;
            (flt.key in m && m[flt.key] in flt.allowed) <==>
              (&& (Special(c, flt.key) || Ordinal(c.attributes, flt.key).Some?)
               && CheckPasses(c, flt, model)
               && (flt.key == BRAND_KEY ==> style.brand in flt.allowed)
               && (flt.key == SERIES_KEY ==> style.series in flt.allowed)
               && (flt.key == c.variantKey ==> c.variantValues[variant] in flt.allowed))
  {
    hide Describe, SlotStyle, Vocabulary, Ordinal;
    DescribedKeys(f, c, pair, model, variant);
    var o := Ordinal(c.attributes, flt.key);
    if !Special(c, flt.key) && o.Some? {
      assert ShowsFirst(c, Describe(f, c, pair, model, variant).value.attributes, model, o.value);
    }
  }

  lemma HitSlot(f: Frame, q: Query, t: Table, c: Category, pair: nat, model: nat)
    requires f.Valid() && c.styles != Some([]) && model < t.modelsPerPair
    requires forall i, j :: 0 <= i < j < |q.filters| ==> q.filters[i].key != q.filters[j].key
    ensures (model < SlotLimit(t, c) && SlotOk(f, q, c, pair, model)) <==>
            (&& SlotStyle(f, c, pair, model).Some?
             && (!c.Styled() && q.seriesIds != {} ==> model % SERIES_COUNT in q.seriesIds)
             && (forall i :: 0 <= i < |q.filters| && q.filters[i].key == BRAND_KEY ==>
                   SlotStyle(f, c, pair, model).value.brand in q.filters[i].allowed)
             && (forall i :: 0 <= i < |q.filters| && q.filters[i].key == SERIES_KEY ==>
                   SlotStyle(f, c, pair, model).value.series in q.filters[i].allowed))
  {
    hide Lookup, Admits;
    if SlotStyle(f, c, pair, model).Some? {
      LookupMeans(q.filters, BRAND_KEY, SlotStyle(f, c, pair, model).value.brand);
      LookupMeans(q.filters, SERIES_KEY, SlotStyle(f, c, pair, model).value.series);
    }
  }

  /** Where an item of the query's pairs is honest, the loops' test of it is the item's. */
  lemma HitIsWanted(f: Frame, t: Table, q: Query, n: nat)
    requires Ready(f, t, q) && Listed(t, n) && n < t.totalSkus
    requires Decompose(t.modelsPerPair, n).0 in q.pairs ==> HonestAt(f, t, n)
    ensures Hit(f, t, q, n) <==> Wanted(f, t, q, n)
  {
    hide Partition, SlotOk, SlotStyle, SlotLimit, Lookup, Admits, Describe, UnitPrice, Ordinal, CheckPasses;
    hide Shows;
    InRange(t, n);
    var (pair, model, variant) := Decompose(t.modelsPerPair, n);
    var c := CategoryOfPair(t, pair);
    if pair !in q.pairs { return; }
    if c.styles == Some([]) {
      EmptyMatrixDescribed(f, c, pair, model, variant);
      return;
    }
    HitSlot(f, q, t, c, pair, model);
    LookupMeans(q.filters, c.variantKey, c.variantValues[variant]);
    DescribedIffStyled(f, c, pair, model, variant);
    if SlotStyle(f, c, pair, model).Some? {
      var style := SlotStyle(f, c, pair, model).value;
      SatisfiesSplits(f, q, c, pair, model, variant, style);
    }
  }

  lemma EmptyMatrixDescribed(f: Frame, c: Category, pair: nat, model: nat, variant: nat)
    requires f.Valid() && WellFormed(c) && variant < VARIANTS_PER_MODEL && c.styles == Some([])
    ensures Describe(f, c, pair, model, variant).Some?
  {
  }

  lemma DescribedIffStyled(f: Frame, c: Category, pair: nat, model: nat, variant: nat)
    requires f.Valid() && WellFormed(c) && variant < VARIANTS_PER_MODEL
    ensures Describe(f, c, pair, model, variant).Some? <==> SlotStyle(f, c, pair, model).Some?
  {
  }

  /** The described attributes satisfy the filters exactly if the four kinds of loop test pass. */
  lemma SatisfiesSplits(f: Frame, q: Query, c: Category, pair: nat, model: nat, variant: nat, style: Style)
    requires f.Valid() && WellFormed(c) && variant < VARIANTS_PER_MODEL && Honest(f, c, pair, model, variant)
    requires SlotStyle(f, c, pair, model) == Some(style) && Describe(f, c, pair, model, variant).Some?
    ensures Satisfies(q.filters, Describe(f, c, pair, model, variant).value.attributes) <==>
            (&& KeysKnown(q, c) && ChecksPass(q, c, model)
             && (forall i :: 0 <= i < |q.filters| && q.filters[i].key == BRAND_KEY ==>
                   style.brand in q.filters[i].allowed)
             && (forall i :: 0 <= i < |q.filters| && q.filters[i].key == SERIES_KEY ==>
                   style.series in q.filters[i].allowed)
             && (forall i :: 0 <= i < |q.filters| && q.filters[i].key == c.variantKey ==>
                   c.variantValues[variant] in q.filters[i].allowed))
  {
    hide Describe, SlotStyle, Ordinal, Vocabulary, Honest;
    forall i | 0 <= i < |q.filters|
      ensures var flt := q.filters[i];
              var m := Describe(f, c, pair, model, variant).value.attributes;
              (flt.key in m && m[flt.key] in flt.allowed) <==>
                (&& (Special(c, flt.key) || Ordinal(c.attributes, flt.key).Some?)
                 && CheckPasses(c, flt, model)
                 && (flt.key == BRAND_KEY ==> style.brand in flt.allowed)
                 && (flt.key == SERIES_KEY ==> style.series in flt.allowed)
                 && (flt.key == c.variantKey ==> c.variantValues[variant] in flt.allowed))
    {
      FilterAgrees(f, c, q.filters[i], pair, model, variant, style);
    }
  }

  // --- the condition is necessary --------------------------------------------------------

  /** A table every planned query may rely on. */
  ghost predicate Served(f: Frame, t: Table) {
    f.Valid() && Partition(t) && forall c :: c in t.categories ==> WellFormed(c) && Fits(t, c)
  }

  lemma ServedListed(f: Frame, t: Table, n: nat)
    requires Served(f, t) && n < t.totalSkus
    ensures Listed(t, n)
  {
    InRange(t, n);
  }

  function AllPairs(t: Table): (pairs: seq<nat>)
    ensures |pairs| == t.pairCount && forall i :: 0 <= i < |pairs| ==> pairs[i] == i
  {
    seq(t.pairCount, i requires 0 <= i => i)
  }

  lemma AllPairsHold(t: Table)
    ensures forall p: nat :: p in AllPairs(t) <==> p < t.pairCount
  {
    forall p: nat ensures p in AllPairs(t) <==> p < t.pairCount {
      if p < t.pairCount { assert AllPairs(t)[p] == p; }
    }
  }

  /** No words, at most one filter, nothing else asked. */
  function Probe(t: Table, filters: seq<Filter>): Query {
    Query(AllPairs(t), {}, filters, None, None, false, _ => true, _ => 0)
  }

  lemma ProbeReady(f: Frame, t: Table, filters: seq<Filter>)
    requires Served(f, t) && |filters| <= 1
    ensures Ready(f, t, Probe(t, filters))
    ensures forall p: nat :: p in Probe(t, filters).pairs <==> p < t.pairCount
  {
    hide Partition, WellFormed, AllPairs;
    AllPairsHold(t);
  }

  /** It is the plan of the empty text. */
  lemma ProbePlanned(f: Frame, t: Table, lex: P.Lexicon, filters: seq<Filter>)
    requires Served(f, t) && |filters| <= 1
    ensures P.PlannedFor(f, t, lex, [], Probe(t, filters))
  {
    hide Partition, WellFormed, P.Survives, P.PlansSeries, P.TextTerms, AllPairs;
    ProbeReady(f, t, filters);
    P.Unplanned(f, t, lex);
  }

  /** The loops find the item and the filter does not want it, or the other way round. */
  ghost predicate Misjudges(f: Frame, t: Table, q: Query, n: nat) {
    Ready(f, t, q) && Listed(t, n) && (Hit(f, t, q, n) <==> !Wanted(f, t, q, n))
  }

  /** What one shown value decides: an item showing `v` under the key is wanted by the probe for `v`. */
  lemma ProbeWants(f: Frame, t: Table, n: nat, key: string)
    requires Served(f, t) && n < t.totalSkus && Listed(t, n)
    requires var (pair, model, variant) := Decompose(t.modelsPerPair, n);
             var item := Describe(f, CategoryOfPair(t, pair), pair, model, variant);
             item.Some? && key in item.value.attributes
    ensures var (pair, model, variant) := Decompose(t.modelsPerPair, n);
            var v := Describe(f, CategoryOfPair(t, pair), pair, model, variant).value.attributes[key];
            var q := Probe(t, [Filter(key, {v})]);
            Ready(f, t, q) && Wanted(f, t, q, n)
  {
    hide Partition, WellFormed, Describe, Fits;
    ProbeReady(f, t, [Filter(key, {})]);
    var (pair, model, variant) := Decompose(t.modelsPerPair, n);
    var v := Describe(f, CategoryOfPair(t, pair), pair, model, variant).value.attributes[key];
    ProbeReady(f, t, [Filter(key, {v})]);
  }

  /** A key the loops test for another value than the item shows. */
  ghost predicate TestsOther(f: Frame, c: Category, pair: nat, model: nat, variant: nat, key: string, v: string)
    requires f.Valid() && WellFormed(c) && variant < VARIANTS_PER_MODEL
  {
    var style := SlotStyle(f, c, pair, model);
    || (key == BRAND_KEY && style.Some? && style.value.brand != v)
    || (key == SERIES_KEY && style.Some? && style.value.series != v)
    || (key == c.variantKey && c.variantValues[variant] != v)
    || (&& !Special(c, key) && Ordinal(c.attributes, key).Some?
        && Vocabulary(c.attributes[Ordinal(c.attributes, key).value], model, Ordinal(c.attributes, key).value) != v)
  }

  /** The loops' own tests refuse the probe for a value they do not test for. */
  lemma ProbeRefused(f: Frame, t: Table, c: Category, pair: nat, model: nat, variant: nat, key: string, v: string,
                     n: nat)
    requires f.Valid() && WellFormed(c) && variant < VARIANTS_PER_MODEL && c.styles != Some([])
    requires (c.styles.Some? ==> model < |c.styles.value|) && TestsOther(f, c, pair, model, variant, key, v)
    ensures var q := Probe(t, [Filter(key, {v})]);
            !(SlotOk(f, q, c, pair, model) && ChecksPass(q, c, model) && VariantOk(f, q, c, variant, n))
  {
    hide Ordinal, Vocabulary;
    var q := Probe(t, [Filter(key, {v})]);
    assert Lookup(q.filters, key) == Some({v});
    assert q.filters[0] == Filter(key, {v});
  }

  /** A dishonest item is misjudged: the probe for a value it shows wants it, and the loops pass it over. */
  lemma DishonestMisjudged(f: Frame, t: Table, n: nat)
    requires Served(f, t) && n < t.totalSkus && Listed(t, n) && !HonestAt(f, t, n)
    ensures exists filters :: |filters| <= 1 && Misjudges(f, t, Probe(t, filters), n)
  {
    hide Partition, Fits, SlotOk, ChecksPass, VariantOk, Describe, SlotStyle, Ordinal, Vocabulary, Wanted, UnitPrice;
    var (pair, model, variant) := Decompose(t.modelsPerPair, n);
    var c := CategoryOfPair(t, pair);
    InRange(t, n);
    if c.styles == Some([]) {
      ProbeReady(f, t, []);
      EmptyMatrixWanted(f, t, n);
      assert Misjudges(f, t, Probe(t, []), n);
    } else {
      var key := DishonestKey(f, c, pair, model, variant);
      var v := Describe(f, c, pair, model, variant).value.attributes[key];
      ProbeWants(f, t, n, key);
      ProbeRefused(f, t, c, pair, model, variant, key, v, n);
      assert Misjudges(f, t, Probe(t, [Filter(key, {v})]), n);
    }
  }

  lemma EmptyMatrixWanted(f: Frame, t: Table, n: nat)
    requires Served(f, t) && n < t.totalSkus && Listed(t, n)
    requires CategoryOfPair(t, Decompose(t.modelsPerPair, n).0).styles == Some([])
    ensures var q := Probe(t, []);
            Ready(f, t, q) && Wanted(f, t, q, n) && !Hit(f, t, q, n)
  {
    hide Partition, WellFormed, Describe, Fits;
    var (pair, model, variant) := Decompose(t.modelsPerPair, n);
    InRange(t, n);
    ProbeReady(f, t, []);
    EmptyMatrixDescribed(f, CategoryOfPair(t, pair), pair, model, variant);
  }

  /** A key under which a dishonest item shows another value. */
  lemma DishonestKey(f: Frame, c: Category, pair: nat, model: nat, variant: nat) returns (key: string)
    requires f.Valid() && WellFormed(c) && variant < VARIANTS_PER_MODEL && c.styles != Some([])
    requires !Honest(f, c, pair, model, variant)
    ensures Describe(f, c, pair, model, variant).Some?
    ensures key in Describe(f, c, pair, model, variant).value.attributes
    ensures TestsOther(f, c, pair, model, variant, key, Describe(f, c, pair, model, variant).value.attributes[key])
    ensures c.styles.Some? ==> model < |c.styles.value|
  {
    hide Describe, Ordinal, Vocabulary;
    DescribedIffStyled(f, c, pair, model, variant);
    DescribedKeys(f, c, pair, model, variant);
    var m := Describe(f, c, pair, model, variant).value.attributes;
    var style := SlotStyle(f, c, pair, model).value;
    if !ShowsAt(m, BRAND_KEY, style.brand) { return BRAND_KEY; }
    if !ShowsAt(m, SERIES_KEY, style.series) { return SERIES_KEY; }
    if !ShowsAt(m, c.variantKey, c.variantValues[variant]) { return c.variantKey; }
    var i :| 0 <= i < |c.attributes| && !ShowsFirst(c, m, model, i);
    return c.attributes[i].name;
  }

  /** Per index, exactly: the loops judge an item as its description does, for every
      query any words and filters give, if and only if the item shows what the loops test. */
  lemma HonestExactly(f: Frame, t: Table, lex: P.Lexicon, n: nat)
    requires Served(f, t) && n < t.totalSkus && Listed(t, n)
    ensures (forall tokens, q :: P.PlannedFor(f, t, lex, tokens, q) ==> !Misjudges(f, t, q, n)) <==> HonestAt(f, t, n)
  {
    hide Hit, Wanted, HonestAt, Ready, Partition, P.PlannedFor, Probe;
    if HonestAt(f, t, n) {
      forall tokens, q | P.PlannedFor(f, t, lex, tokens, q) ensures !Misjudges(f, t, q, n) {
        if Ready(f, t, q) { HitIsWanted(f, t, q, n); }
      }
    } else {
      DishonestMisjudged(f, t, n);
      var filters :| |filters| <= 1 && Misjudges(f, t, Probe(t, filters), n);
      ProbePlanned(f, t, lex, filters);
    }
  }

  // --- from indices to the loops -------------------------------------------------------

  /** Indices below `k` that pass the loops' test, in order. */
  ghost function HitsBelow(f: Frame, t: Table, q: Query, k: nat): seq<nat>
    requires Ready(f, t, q) && k <= t.totalSkus
  {
    if k == 0 then []
    else
      ReadyListed(f, t, q, k - 1);
      HitsBelow(f, t, q, k - 1) + if Hit(f, t, q, k - 1) then [k - 1] else []
  }

  /** The index of a slot's variant is in range, and its test is the slot's. */
  lemma HitOfSlot(f: Frame, t: Table, q: Query, pair: nat, model: nat, variant: nat)
    requires Ready(f, t, q) && pair < t.pairCount && model < t.modelsPerPair && variant < VARIANTS_PER_MODEL
    ensures var n := Compose(t.modelsPerPair, pair, model, variant);
            var c := CategoryOfPair(t, pair);
            && n < t.totalSkus && Listed(t, n) && WellFormed(c)
            && (Hit(f, t, q, n) <==>
                  && pair in q.pairs && KeysKnown(q, c)
                  && model < SlotLimit(t, c) && SlotOk(f, q, c, pair, model)
                  && ChecksPass(q, c, model) && PriceOk(q, UnitPrice(f, c, pair, model))
                  && VariantOk(f, q, c, variant, n))
  {
    hide Partition, KeysKnown, SlotLimit, SlotOk, ChecksPass, PriceOk, UnitPrice, VariantOk, WellFormed;
    var n := Compose(t.modelsPerPair, pair, model, variant);
    DecomposeOfCompose(t.modelsPerPair, pair, model, variant);
    ComposeOfDecompose(t.modelsPerPair, t.pairCount, n);
    PairOk(f, t, q, pair);
    assert t.totalSkus == t.pairCount * t.modelsPerPair * VARIANTS_PER_MODEL by { PartitionTotal(t); }
  }

  lemma PartitionTotal(t: Table)
    requires Partition(t)
    ensures t.totalSkus == t.pairCount * t.modelsPerPair * VARIANTS_PER_MODEL
  {
  }

  /** Start of a slot's four indices. */
  function Base(t: Table, pair: nat, model: nat): nat {
    Compose(t.modelsPerPair, pair, model, 0)
  }

  lemma BaseInRange(t: Table, pair: nat, model: nat)
    requires Partition(t) && pair < t.pairCount && model <= t.modelsPerPair
    ensures Base(t, pair, model) <= t.totalSkus
    ensures Base(t, pair, t.modelsPerPair) == Base(t, pair + 1, 0)
    ensures model < t.modelsPerPair ==>
      Base(t, pair, model) + VARIANTS_PER_MODEL == Base(t, pair, model + 1) <= t.totalSkus
  {
    hide Partition;
    PartitionTotal(t);
    PairFits(pair, t.pairCount, t.modelsPerPair);
  }

  lemma PairFits(pair: nat, pairCount: nat, models: nat)
    requires pair < pairCount
    ensures (pair + 1) * models == pair * models + models <= pairCount * models
  {
    assert (pairCount - (pair + 1)) * models >= 0;
    assert pairCount * models == (pair + 1) * models + (pairCount - (pair + 1)) * models;
  }

  /** A slot contributes exactly what the variant loop appends. */
  ghost function SlotHits(f: Frame, t: Table, q: Query, pair: nat, model: nat): seq<nat>
    requires Ready(f, t, q) && pair < t.pairCount && model < t.modelsPerPair
  {
    PairOk(f, t, q, pair);
    var c := CategoryOfPair(t, pair);
    if pair in q.pairs && KeysKnown(q, c) && model < SlotLimit(t, c) && SlotOk(f, q, c, pair, model)
    then Hits(f, t, q, (pair, model)) else []
  }

  lemma {:induction false} HitsOfVariants(f: Frame, t: Table, q: Query, pair: nat, model: nat, k: nat)
    requires Ready(f, t, q) && pair < t.pairCount && model < t.modelsPerPair && k <= VARIANTS_PER_MODEL
    requires Base(t, pair, model) + VARIANTS_PER_MODEL <= t.totalSkus
    requires WellFormed(CategoryOfPair(t, pair))
    ensures var c := CategoryOfPair(t, pair);
            HitsBelow(f, t, q, Base(t, pair, model) + k) == HitsBelow(f, t, q, Base(t, pair, model)) +
              (if pair in q.pairs && KeysKnown(q, c) && model < SlotLimit(t, c) && SlotOk(f, q, c, pair, model)
                  && ChecksPass(q, c, model) && PriceOk(q, UnitPrice(f, c, pair, model))
               then Variants(f, t, q, c, pair, model, k) else [])
  {
    hide Ready, Partition, KeysKnown, SlotLimit, SlotOk, ChecksPass, PriceOk, UnitPrice, VariantOk, WellFormed, Hit,
        Listed;
    if k > 0 {
      HitsOfVariants(f, t, q, pair, model, k - 1);
      HitOfSlot(f, t, q, pair, model, k - 1);
      assert Compose(t.modelsPerPair, pair, model, k - 1) == Base(t, pair, model) + (k - 1);
    }
  }

  lemma HitsOfSlot(f: Frame, t: Table, q: Query, pair: nat, model: nat)
    requires Ready(f, t, q) && pair < t.pairCount && model < t.modelsPerPair
    ensures Base(t, pair, model) <= t.totalSkus && Base(t, pair, model + 1) <= t.totalSkus
    ensures HitsBelow(f, t, q, Base(t, pair, model + 1))
            == HitsBelow(f, t, q, Base(t, pair, model)) + SlotHits(f, t, q, pair, model)
  {
    BaseInRange(t, pair, model);
    PairOk(f, t, q, pair);
    hide Partition, KeysKnown, SlotLimit, SlotOk, ChecksPass, PriceOk, UnitPrice, Variants, Base;
    HitsOfVariants(f, t, q, pair, model, VARIANTS_PER_MODEL);
  }

  lemma SlotsOkParts(t: Table, a: seq<(nat, nat)>, b: seq<(nat, nat)>)
    requires SlotsOk(t, a) && SlotsOk(t, b)
    ensures SlotsOk(t, a + b) && (b != [] ==> SlotsOk(t, b[..|b| - 1]))
  {
    hide GoodSlot;
  }

  lemma {:induction false} FlatConcat(f: Frame, t: Table, q: Query, a: seq<(nat, nat)>, b: seq<(nat, nat)>)
    requires f.Valid() && SlotsOk(t, a) && SlotsOk(t, b)
    ensures SlotsOk(t, a + b) && Flat(f, t, q, a + b) == Flat(f, t, q, a) + Flat(f, t, q, b)
  {
    hide Hits, SlotsOk, GoodSlot;
    SlotsOkParts(t, a, b);
    if b == [] {
      assert a + b == a;
    } else {
      assert (a + b)[..|a + b| - 1] == a + b[..|b| - 1];
      SlotsOkParts(t, a, b);
      FlatConcat(f, t, q, a, b[..|b| - 1]);
    }
  }

  /** One more model of a planned pair: the stream and its hits grow alike. */
  lemma ModelsStep(f: Frame, t: Table, q: Query, pair: nat, k: nat)
    requires Ready(f, t, q) && pair < t.pairCount && pair in q.pairs
    requires var c := CategoryOfPair(t, pair);
             KeysKnown(q, c) && k < SlotLimit(t, c) <= t.modelsPerPair
    ensures ModelHits(f, t, q, pair, k + 1) == ModelHits(f, t, q, pair, k) + SlotHits(f, t, q, pair, k)
  {
    PairOk(f, t, q, pair);
    hide Partition, KeysKnown, SlotOk, Hits, WellFormed, Ready;
    var c := CategoryOfPair(t, pair);
    var before := Tag(pair, Models(f, q, c, pair, k));
    var slots := Tag(pair, Models(f, q, c, pair, k + 1));
    if SlotOk(f, q, c, pair, k) {
      assert slots == before + [(pair, k)];
      assert slots[..|slots| - 1] == before;
    } else {
      assert slots == before;
    }
  }

  /** What the stream yields for the first `k` models of a planned pair. */
  ghost function ModelHits(f: Frame, t: Table, q: Query, pair: nat, k: nat): seq<nat>
    requires Ready(f, t, q) && pair < t.pairCount && k <= SlotLimit(t, CategoryOfPair(t, pair))
  {
    PairOk(f, t, q, pair);
    var slots := Tag(pair, Models(f, q, CategoryOfPair(t, pair), pair, k));
    assert SlotsOk(t, slots);
    Flat(f, t, q, slots)
  }

  lemma NoModelHits(f: Frame, t: Table, q: Query, pair: nat)
    requires Ready(f, t, q) && pair < t.pairCount
    ensures ModelHits(f, t, q, pair, 0) == []
  {
    assert Tag(pair, Models(f, q, CategoryOfPair(t, pair), pair, 0)) == [];
  }

  lemma Extend(a: seq<nat>, b: seq<nat>, c: seq<nat>, d: seq<nat>, e: seq<nat>, g: seq<nat>)
    requires b == a + c && d == b + e && g == c + e
    ensures d == a + g
  {
  }

  lemma ModelsExtend(f: Frame, t: Table, q: Query, pair: nat, k: nat, start: seq<nat>)
    requires Ready(f, t, q) && pair < t.pairCount && pair in q.pairs
    requires var c := CategoryOfPair(t, pair);
             KeysKnown(q, c) && k < SlotLimit(t, c) <= t.modelsPerPair
    requires Base(t, pair, k) <= t.totalSkus && Base(t, pair, k + 1) <= t.totalSkus
    requires HitsBelow(f, t, q, Base(t, pair, k)) == start + ModelHits(f, t, q, pair, k)
    ensures HitsBelow(f, t, q, Base(t, pair, k + 1)) == start + ModelHits(f, t, q, pair, k + 1)
  {
    HitsOfSlot(f, t, q, pair, k);
    ModelsStep(f, t, q, pair, k);
    hide *;
    Extend(start, HitsBelow(f, t, q, Base(t, pair, k)), ModelHits(f, t, q, pair, k),
           HitsBelow(f, t, q, Base(t, pair, k + 1)), SlotHits(f, t, q, pair, k), ModelHits(f, t, q, pair, k + 1));
  }

  /** The hits within the first `k` models of a planned pair are the stream's. */
  lemma {:induction false} HitsOfModels(f: Frame, t: Table, q: Query, pair: nat, k: nat)
    requires Ready(f, t, q) && pair < t.pairCount && pair in q.pairs
    requires KeysKnown(q, CategoryOfPair(t, pair)) && k <= SlotLimit(t, CategoryOfPair(t, pair))
    ensures SlotLimit(t, CategoryOfPair(t, pair)) <= t.modelsPerPair
    ensures Base(t, pair, 0) <= t.totalSkus && Base(t, pair, k) <= t.totalSkus
    ensures HitsBelow(f, t, q, Base(t, pair, k)) == HitsBelow(f, t, q, Base(t, pair, 0)) + ModelHits(f, t, q, pair, k)
  {
    hide Partition, Base, HitsBelow, ModelHits, KeysKnown, WellFormed;
    PairOk(f, t, q, pair);
    BaseInRange(t, pair, 0);
    BaseInRange(t, pair, k);
    if k == 0 {
      NoModelHits(f, t, q, pair);
    } else {
      HitsOfModels(f, t, q, pair, k - 1);
      ModelsExtend(f, t, q, pair, k - 1, HitsBelow(f, t, q, Base(t, pair, 0)));
    }
  }

  /** The slots of one pair yield nothing beyond its candidates. */
  lemma {:induction false} HitsPastLimit(f: Frame, t: Table, q: Query, pair: nat, lo: nat, hi: nat)
    requires Ready(f, t, q) && pair < t.pairCount && lo <= hi <= t.modelsPerPair
    requires var c := CategoryOfPair(t, pair);
             pair !in q.pairs || !KeysKnown(q, c) || lo >= SlotLimit(t, c)
    ensures Base(t, pair, lo) <= t.totalSkus && Base(t, pair, hi) <= t.totalSkus
    ensures HitsBelow(f, t, q, Base(t, pair, hi)) == HitsBelow(f, t, q, Base(t, pair, lo))
  {
    hide Partition, KeysKnown, SlotOk, Hits, Base, WellFormed, HitsBelow;
    BaseInRange(t, pair, lo);
    BaseInRange(t, pair, hi);
    if lo < hi {
      HitsPastLimit(f, t, q, pair, lo, hi - 1);
      HitsOfSlot(f, t, q, pair, hi - 1);
    }
  }

  lemma HitsOfPair(f: Frame, t: Table, q: Query, pair: nat)
    requires Ready(f, t, q) && pair < t.pairCount
    ensures Base(t, pair, 0) <= t.totalSkus && Base(t, pair + 1, 0) <= t.totalSkus
    ensures SlotsOk(t, PairCandidates(f, t, q, pair))
    ensures HitsBelow(f, t, q, Base(t, pair + 1, 0)) == HitsBelow(f, t, q, Base(t, pair, 0)) +
              if pair in q.pairs then Flat(f, t, q, PairCandidates(f, t, q, pair)) else []
  {
    PairOk(f, t, q, pair);
    BaseInRange(t, pair, 0);
    hide Base, Models, KeysKnown, WellFormed, HitsBelow, Hits;
    var c := CategoryOfPair(t, pair);
    if pair in q.pairs && KeysKnown(q, c) {
      HitsOfModels(f, t, q, pair, SlotLimit(t, c));
      HitsPastLimit(f, t, q, pair, SlotLimit(t, c), t.modelsPerPair);
    } else {
      HitsPastLimit(f, t, q, pair, 0, t.modelsPerPair);
    }
  }

  /** Pairs outside the plan yield nothing. */
  lemma {:induction false} HitsOfGap(f: Frame, t: Table, q: Query, lo: nat, hi: nat)
    requires Ready(f, t, q) && lo <= hi <= t.pairCount
    requires forall p :: lo <= p < hi ==> p !in q.pairs
    ensures Base(t, lo, 0) <= t.totalSkus && Base(t, hi, 0) <= t.totalSkus
    ensures HitsBelow(f, t, q, Base(t, hi, 0)) == HitsBelow(f, t, q, Base(t, lo, 0))
  {
    PartitionTotal(t);
    if lo < hi {
      hide Partition, Base, HitsBelow;
      HitsOfGap(f, t, q, lo, hi - 1);
      HitsOfPair(f, t, q, hi - 1);
    } else if lo < t.pairCount {
      BaseInRange(t, lo, 0);
    }
  }

  /** What the stream yields for the first `k` planned pairs. */
  ghost function PlanHits(f: Frame, t: Table, q: Query, k: nat): seq<nat>
    requires Ready(f, t, q) && k <= |q.pairs|
  {
    CandidatesOk(f, t, q, k);
    Flat(f, t, q, Candidates(f, t, q, k))
  }

  lemma PlanHitsStep(f: Frame, t: Table, q: Query, k: nat)
    requires Ready(f, t, q) && k < |q.pairs|
    ensures SlotsOk(t, PairCandidates(f, t, q, q.pairs[k]))
    ensures PlanHits(f, t, q, k + 1) == PlanHits(f, t, q, k) + Flat(f, t, q, PairCandidates(f, t, q, q.pairs[k]))
  {
    CandidatesOk(f, t, q, k);
    HitsOfPair(f, t, q, q.pairs[k]);
    hide Base, HitsBelow, PairCandidates, Flat, Hits, SlotsOk, GoodSlot;
    FlatConcat(f, t, q, Candidates(f, t, q, k), PairCandidates(f, t, q, q.pairs[k]));
  }

  lemma PlanStep(f: Frame, t: Table, q: Query, k: nat)
    requires Ready(f, t, q) && k < |q.pairs|
    ensures Base(t, q.pairs[k], 0) <= t.totalSkus && Base(t, q.pairs[k] + 1, 0) <= t.totalSkus
    ensures HitsBelow(f, t, q, Base(t, q.pairs[k], 0)) == PlanHits(f, t, q, k) ==>
            HitsBelow(f, t, q, Base(t, q.pairs[k] + 1, 0)) == PlanHits(f, t, q, k + 1)
  {
    hide Base, HitsBelow, PairCandidates, Flat, SlotsOk, PlanHits, Partition;
    HitsOfPair(f, t, q, q.pairs[k]);
    PlanHitsStep(f, t, q, k);
  }

  /** The stream over the first `k` planned pairs holds all hits before the next one. */
  lemma {:induction false} HitsOfPlan(f: Frame, t: Table, q: Query, k: nat, next: nat)
    requires Ready(f, t, q) && k <= |q.pairs| && next <= t.pairCount
    requires forall i :: 0 <= i < |q.pairs| ==> (i < k ==> q.pairs[i] < next) && (i >= k ==> next <= q.pairs[i])
    ensures Base(t, next, 0) <= t.totalSkus
    ensures PlanHits(f, t, q, k) == HitsBelow(f, t, q, Base(t, next, 0))
  {
    hide Partition, HitsBelow, PlanHits, Base;
    if k == 0 {
      NothingYet(f, t, q);
      HitsOfGap(f, t, q, 0, next);
    } else {
      var pair := q.pairs[k - 1];
      HitsOfPlan(f, t, q, k - 1, pair);
      PlanStep(f, t, q, k - 1);
      forall p | pair + 1 <= p < next ensures p !in q.pairs {
        assert forall i :: k <= i < |q.pairs| ==> q.pairs[i] > p;
        assert forall i :: 0 <= i < k ==> q.pairs[i] <= pair;
      }
      HitsOfGap(f, t, q, pair + 1, next);
    }
  }

  lemma NothingYet(f: Frame, t: Table, q: Query)
    requires Ready(f, t, q)
    ensures Base(t, 0, 0) == 0 && HitsBelow(f, t, q, 0) == [] && PlanHits(f, t, q, 0) == []
  {
  }

  // --- the result -----------------------------------------------------------------------

  lemma {:induction false} HitsAreMatches(f: Frame, t: Table, q: Query, k: nat)
    requires Ready(f, t, q) && k <= t.totalSkus && HonestFor(f, t, q)
    ensures HitsBelow(f, t, q, k) == Matches(f, t, q, k)
  {
    hide Hit, Wanted, HonestAt;
    if k > 0 {
      HitsAreMatches(f, t, q, k - 1);
      ReadyListed(f, t, q, k - 1);
      InRange(t, k - 1);
      HitIsWanted(f, t, q, k - 1);
    }
  }

  /** The whole stream, unbounded, is the declarative filter. */
  lemma StreamIsMatches(f: Frame, t: Table, q: Query)
    requires Ready(f, t, q) && HonestFor(f, t, q)
    ensures PlanHits(f, t, q, |q.pairs|) == Matches(f, t, q, t.totalSkus)
  {
    hide HitsBelow, Matches, HonestFor, PlanHits;
    HitsOfPlan(f, t, q, |q.pairs|, t.pairCount);
    HitsAreMatches(f, t, q, t.totalSkus);
    PartitionTotal(t);
  }

  /** The window a search returns is an initial segment of all matching indices, in
      increasing order; it is the first `needed` of them unless the scan budget ran out. */
  lemma WindowExact(f: Frame, t: Table, q: Query, needed: nat)
    requires Ready(f, t, q) && HonestFor(f, t, q)
    ensures var all := Matches(f, t, q, t.totalSkus);
            var window := Clip(Found(f, t, q), needed);
            && window <= all
            && (|Candidates(f, t, q, |q.pairs|)| <= 30_000 || |Found(f, t, q)| >= needed ==>
                  window == Clip(all, needed))
  {
    hide Matches, HonestFor, Candidates, Flat;
    StreamIsMatches(f, t, q);
    CandidatesOk(f, t, q, |q.pairs|);
    var slots := Candidates(f, t, q, |q.pairs|);
    FlatPrefix(f, t, q, slots, Min(SCAN_LIMIT, |slots|));
    assert |slots| <= SCAN_LIMIT ==> slots[..Min(SCAN_LIMIT, |slots|)] == slots;
  }

  /** What a search finds has passed the loops' test. */
  lemma FoundIsHit(f: Frame, t: Table, q: Query, n: nat)
    requires Ready(f, t, q) && n in Found(f, t, q)
    ensures n < t.totalSkus && Listed(t, n) && Hit(f, t, q, n)
  {
    hide Hit, PlanHits, HitsBelow, Candidates, Flat, Partition, Base;
    var slots := Candidates(f, t, q, |q.pairs|);
    CandidatesOk(f, t, q, |q.pairs|);
    FlatPrefix(f, t, q, slots, Min(SCAN_LIMIT, |slots|));
    assert n in PlanHits(f, t, q, |q.pairs|) by { PlanHitsFlat(f, t, q); }
    PlanIsAllHits(f, t, q);
    HitsExactly(f, t, q, t.totalSkus);
  }

  function AnyPrice(q: Query): Query { q.(priceMin := None, priceMax := None) }

  /** Price decides exactly by the band: an index passes if and only if it would at any
      price and its item's price lies within the bounds that are set. */
  lemma PriceBandExactly(f: Frame, t: Table, q: Query, n: nat)
    requires Ready(f, t, q) && Listed(t, n)
    ensures Ready(f, t, AnyPrice(q))
    ensures Hit(f, t, q, n) <==>
            && Hit(f, t, AnyPrice(q), n)
            && (q.priceMin.Some? ==> q.priceMin.value <= ItemAt(f, t, n).price)
            && (q.priceMax.Some? ==> ItemAt(f, t, n).price <= q.priceMax.value)
  {
    hide Partition, WellFormed, Describe, UnitPrice, Lookup;
  }

  /** Whatever a search finds lies in the price band asked for. */
  lemma FoundInBand(f: Frame, t: Table, q: Query, n: nat)
    requires Ready(f, t, q) && n in Found(f, t, q)
    ensures Listed(t, n)
    ensures q.priceMin.Some? ==> q.priceMin.value <= ItemAt(f, t, n).price
    ensures q.priceMax.Some? ==> ItemAt(f, t, n).price <= q.priceMax.value
  {
    hide Hit, Found, Partition, ItemAt;
    FoundIsHit(f, t, q, n);
    PriceBandExactly(f, t, q, n);
  }

  lemma PlanHitsFlat(f: Frame, t: Table, q: Query)
    requires Ready(f, t, q)
    ensures SlotsOk(t, Candidates(f, t, q, |q.pairs|))
    ensures PlanHits(f, t, q, |q.pairs|) == Flat(f, t, q, Candidates(f, t, q, |q.pairs|))
  {
    CandidatesOk(f, t, q, |q.pairs|);
  }

  lemma PlanIsAllHits(f: Frame, t: Table, q: Query)
    requires Ready(f, t, q)
    ensures PlanHits(f, t, q, |q.pairs|) == HitsBelow(f, t, q, t.totalSkus)
  {
    hide PlanHits, HitsBelow, Partition;
    HitsOfPlan(f, t, q, |q.pairs|, t.pairCount);
    PartitionTotal(t);
    BaseAll(t);
  }

  /** Well-chosen names make every query exact. */
  lemma WellNamedHonestFor(f: Frame, t: Table, q: Query)
    requires Ready(f, t, q) && forall c :: c in t.categories ==> WellNamed(c)
    ensures HonestFor(f, t, q)
  {
    hide Honest, WellNamed, Partition;
    forall n: nat | n < t.totalSkus && Listed(t, n) ensures HonestAt(f, t, n) {
      InRange(t, n);
      var (pair, model, variant) := Decompose(t.modelsPerPair, n);
      WellNamedHonest(f, CategoryOfPair(t, pair), pair, model, variant);
    }
  }

  /** Indices below `k` the loops find: strictly what passes their test. */
  lemma {:induction false} HitsExactly(f: Frame, t: Table, q: Query, k: nat)
    requires Ready(f, t, q) && k <= t.totalSkus
    ensures forall n: nat :: n < k ==> Listed(t, n) && (n in HitsBelow(f, t, q, k) <==> Hit(f, t, q, n))
    ensures forall n: nat :: n in HitsBelow(f, t, q, k) ==> n < k
  {
    hide Hit, Listed, Ready;
    if k > 0 {
      ReadyListed(f, t, q, k - 1);
      HitsExactly(f, t, q, k - 1);
    }
  }

  ghost predicate StreamExact(f: Frame, t: Table, q: Query) {
    Ready(f, t, q) ==> PlanHits(f, t, q, |q.pairs|) == Matches(f, t, q, t.totalSkus)
  }

  /** For a whole table, exactly: the stream of every query any words and filters give is
      the declarative filter if and only if every item shows what the loops test. */
  lemma SearchExactly(f: Frame, t: Table, lex: P.Lexicon)
    requires Served(f, t)
    ensures (forall tokens, q :: P.PlannedFor(f, t, lex, tokens, q) ==> StreamExact(f, t, q))
            <==> forall n: nat :: n < t.totalSkus && Listed(t, n) ==> HonestAt(f, t, n)
  {
    hide HonestAt, Partition, Hit, Wanted, Ready, Matches, PlanHits, HitsBelow, WellFormed, P.PlannedFor, Probe;
    if n: nat :| n < t.totalSkus && Listed(t, n) && !HonestAt(f, t, n) {
      DishonestMisjudged(f, t, n);
      var filters :| |filters| <= 1 && Misjudges(f, t, Probe(t, filters), n);
      ProbePlanned(f, t, lex, filters);
      Separates(f, t, Probe(t, filters), n);
    } else {
      forall tokens, q | P.PlannedFor(f, t, lex, tokens, q) ensures StreamExact(f, t, q) {
        if Ready(f, t, q) { StreamIsMatches(f, t, q); }
      }
    }
  }

  lemma Separates(f: Frame, t: Table, q: Query, n: nat)
    requires n < t.totalSkus && Misjudges(f, t, q, n)
    ensures !StreamExact(f, t, q)
  {
    hide HonestAt, Hit, Wanted, Matches, PlanHits, HitsBelow, Partition;
    PlanIsAllHits(f, t, q);
    HitsExactly(f, t, q, t.totalSkus);
    MatchesExactly(f, t, q, t.totalSkus);
  }

  lemma BaseAll(t: Table)
    requires Partition(t)
    ensures Base(t, t.pairCount, 0) == t.totalSkus
  {
  }
}
