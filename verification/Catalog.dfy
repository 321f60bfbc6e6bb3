/** The virtual catalog's address space (catalog.py): every fact of a SKU is a
    function of its index, and minted categories extend the index range. */
module Catalog {
  import opened Wrappers
  import opened Digits
  import opened Division

  const BRAND_COUNT: nat := 32
  const SERIES_COUNT: nat := 8
  const VARIANTS_PER_MODEL: nat := 4
  const TOTAL_SKUS: nat := 154_624

  const BRAND_KEY := "品牌"
  const SERIES_KEY := "系列"

  datatype Attribute = Attribute(name: string, values: seq<string>)

  datatype Style = Style(brand: string, series: string)

  datatype Category = Category(
    id: string, name: string, description: string, domain: string,
    attributes: seq<Attribute>, variantKey: string, variantValues: seq<string>,
    basePrice: Option<nat>, styles: Option<seq<Style>>)
  {
    /** `if category.brand_styles`: an empty matrix counts as none. */
    predicate Styled() { styles.Some? && styles.value != [] }
  }

  /** The static naming grid and the functions left opaque: name normalization,
      the price formulas and the stable hash. */
  datatype Frame = Frame(
    brands: seq<string>,
    seriesWords: seq<string>,
    normalize: string -> string,
    stylePrice: (Category, nat) -> nat,
    gridPrice: (Category, nat, nat) -> nat,
    stockDigest: nat -> nat,
    capDigest: nat -> nat)
  {
    ghost predicate Valid() {
      && |brands| == BRAND_COUNT
      && |seriesWords| == SERIES_COUNT
      && forall w :: w in seriesWords ==> w != []
    }
  }

  /** The fields of `VirtualCatalog`. */
  datatype Table = Table(
    categories: seq<Category>,
    pairCategory: seq<nat>,
    pairStart: seq<nat>,
    pairWidth: seq<nat>,
    pairCount: nat,
    modelsPerPair: nat,
    totalSkus: nat,
    dynamicCount: nat)

  // --- addressing -------------------------------------------------------------

  function Compose(modelsPerPair: nat, pair: nat, model: nat, variant: nat): nat {
    (pair * modelsPerPair + model) * VARIANTS_PER_MODEL + variant
  }

  function Decompose(modelsPerPair: nat, n: nat): (nat, nat, nat)
    requires modelsPerPair > 0
  {
    var (pair, rest) := DivMod(n, modelsPerPair * VARIANTS_PER_MODEL);
    var (model, variant) := DivMod(rest, VARIANTS_PER_MODEL);
    (pair, model, variant)
  }

  /** Composing then decomposing gives the coordinates back. */
  lemma DecomposeOfCompose(modelsPerPair: nat, pair: nat, model: nat, variant: nat)
    requires model < modelsPerPair && variant < VARIANTS_PER_MODEL
    ensures Decompose(modelsPerPair, Compose(modelsPerPair, pair, model, variant)) == (pair, model, variant)
  {
    hide DivMod;
    var stride := modelsPerPair * VARIANTS_PER_MODEL;
    var rest := model * VARIANTS_PER_MODEL + variant;
    Associate(pair, modelsPerPair, VARIANTS_PER_MODEL);
    assert Compose(modelsPerPair, pair, model, variant) == pair * stride + rest;
    DivModUnique(pair, rest, stride);
    DivModUnique(model, variant, VARIANTS_PER_MODEL);
  }

  /** Decomposing then composing gives the index back, within the bounds of each
      coordinate; the pair is in range exactly when the index is. */
  lemma ComposeOfDecompose(modelsPerPair: nat, pairCount: nat, n: nat)
    requires modelsPerPair > 0
    ensures var (pair, model, variant) := Decompose(modelsPerPair, n);
            && Compose(modelsPerPair, pair, model, variant) == n
            && model < modelsPerPair && variant < VARIANTS_PER_MODEL
            && (pair < pairCount <==> n < pairCount * modelsPerPair * VARIANTS_PER_MODEL)
  {
    hide DivMod;
    var stride := modelsPerPair * VARIANTS_PER_MODEL;
    var (pair, rest) := DivMod(n, stride);
    Associate(pair, modelsPerPair, VARIANTS_PER_MODEL);
    Associate(pairCount, modelsPerPair, VARIANTS_PER_MODEL);
    QuotientBound(pair, rest, stride, pairCount);
  }

  // --- facts ---------------------------------------------------------------------

  datatype Described = Described(name: string, attributes: map<string, string>)

  function Vocabulary(attr: Attribute, model: nat, ordinal: nat): string
    requires attr.values != []
  {
    attr.values[(model + 3 * ordinal) % |attr.values|]
  }

  ghost predicate WellFormed(c: Category) {
    && |c.variantValues| == VARIANTS_PER_MODEL
    && c.variantKey !in (set a | a in c.attributes :: a.name)
    && forall a :: a in c.attributes ==> a.values != []
  }

  /** The first `k` attribute assignments of `_describe`, later ones overriding. */
  function Assign(c: Category, base: map<string, string>, model: nat, k: nat): map<string, string>
    requires k <= |c.attributes| && forall a :: a in c.attributes ==> a.values != []
  {
    if k == 0 then base
    else Assign(c, base, model, k - 1)[c.attributes[k - 1].name := Vocabulary(c.attributes[k - 1], model, k - 1)]
  }

  /** Brand and series of a slot; none where a style matrix has no such slot. */
  function SlotStyle(f: Frame, c: Category, pair: nat, model: nat): Option<Style>
    requires f.Valid()
  {
    if c.Styled() then
      if model < |c.styles.value| then Some(c.styles.value[model]) else None
    else Some(Style(f.brands[pair % BRAND_COUNT], f.seriesWords[model % SERIES_COUNT]))
  }

  /** `_describe` */
  function Describe(f: Frame, c: Category, pair: nat, model: nat, variant: nat): Option<Described>
    requires f.Valid() && WellFormed(c) && variant < VARIANTS_PER_MODEL
  {
    match SlotStyle(f, c, pair, model)
    case None => None
    case Some(style) =>
      assert !c.Styled() ==> style.series in f.seriesWords;
      var name := if c.Styled() then style.brand + " " + style.series + " " + c.name
                  else style.brand + " " + style.series + " " + [style.series[0]] + Padded(model, 4) + " " + c.name;
      var base := map[BRAND_KEY := style.brand][SERIES_KEY := style.series][c.variantKey := c.variantValues[variant]];
      Some(Described(name, Assign(c, base, model, |c.attributes|)))
  }

  function UnitPrice(f: Frame, c: Category, pair: nat, model: nat): nat {
    if c.Styled() then f.stylePrice(c, model) else f.gridPrice(c, pair % BRAND_COUNT, model)
  }

  function BaseAvailability(f: Frame, n: nat): nat {
    var digest := f.stockDigest(n);
    if digest % 41 == 0 then 0 else 5 + digest % 60
  }

  function MaxOrderQuantity(f: Frame, n: nat): nat {
    1 + f.capDigest(n) % 10
  }

  // --- the table and its growth -----------------------------------------------------

  /** Start, width and pair-to-category entries describe one contiguous partition
      of the pair range into blocks, one block a category. */
  ghost predicate Partition(t: Table) {
    && |t.pairStart| == |t.categories| && |t.pairWidth| == |t.categories| && |t.pairCategory| == t.pairCount
    && t.modelsPerPair > 0
    && t.totalSkus == t.pairCount * t.modelsPerPair * VARIANTS_PER_MODEL
    && (forall i :: 0 <= i < |t.categories| ==> t.pairWidth[i] > 0)
    && (forall i :: 0 <= i < |t.categories| ==> Contiguous(t, i))
    && (if |t.categories| > 0 then t.pairStart[0] == 0 else t.pairCount == 0)
    && (forall p :: 0 <= p < t.pairCount ==> t.pairCategory[p] < |t.categories| && InBlock(t, t.pairCategory[p], p))
    && (forall i, p :: 0 <= i < |t.categories| && 0 <= p < t.pairCount && InBlock(t, i, p) ==> t.pairCategory[p] == i)
  }

  /** A block ends where the next begins, the last one at the end of the range. */
  ghost predicate Contiguous(t: Table, i: nat)
    requires i < |t.pairStart| && i < |t.pairWidth|
  {
    t.pairStart[i] + t.pairWidth[i] == if i + 1 < |t.pairStart| then t.pairStart[i + 1] else t.pairCount
  }

  predicate InBlock(t: Table, i: nat, p: nat)
    requires i < |t.pairStart| && i < |t.pairWidth|
  {
    t.pairStart[i] <= p < t.pairStart[i] + t.pairWidth[i]
  }

  function CategoryOfPair(t: Table, pair: nat): Category
    requires Partition(t) && pair < t.pairCount
  {
    t.categories[t.pairCategory[pair]]
  }

  /** `VirtualCatalog.__init__` on the active generated categories. */
  function Static(categories: seq<Category>): Table
    requires categories != []
  {
    var pairCount := |categories| * BRAND_COUNT;
    var models := TOTAL_SKUS / (pairCount * VARIANTS_PER_MODEL);
    var modelsPerPair := if models < 1 then 1 else models;
    Table(categories,
          seq(pairCount, p requires 0 <= p => p / BRAND_COUNT),
          seq(|categories|, i requires 0 <= i => i * BRAND_COUNT),
          seq(|categories|, _ => BRAND_COUNT),
          pairCount, modelsPerPair, pairCount * modelsPerPair * VARIANTS_PER_MODEL, 0)
  }

  lemma StaticPartition(categories: seq<Category>)
    requires categories != []
    ensures Partition(Static(categories))
  {
  }

  /** The static grid fills the intended size: at least one model a pair, and beyond that
      as many as keep the catalog within it. */
  lemma StaticSize(categories: seq<Category>)
    requires categories != []
    ensures var t := Static(categories);
            && t.modelsPerPair >= 1
            && (t.modelsPerPair > 1 ==> t.totalSkus <= 154_624)
            && 154_624 < t.pairCount * (t.modelsPerPair + 1) * 4
  {
    var t := Static(categories);
    var stride := t.pairCount * VARIANTS_PER_MODEL;
    var (models, rest) := DivMod(TOTAL_SKUS, stride);
    assert t.pairCount * t.modelsPerPair * VARIANTS_PER_MODEL == t.modelsPerPair * stride;
    assert t.pairCount * (t.modelsPerPair + 1) * VARIANTS_PER_MODEL == (t.modelsPerPair + 1) * stride;
    assert (t.modelsPerPair + 1) * stride == t.modelsPerPair * stride + stride;
  }

  /** `find_category_by_name`: the first category whose normalized name agrees. */
  function FindName(f: Frame, cs: seq<Category>, name: string): (r: Option<Category>)
    ensures r.Some? ==> r.value in cs && f.normalize(r.value.name) == f.normalize(name)
    ensures r.None? <==> forall i :: 0 <= i < |cs| ==> f.normalize(cs[i].name) != f.normalize(name)
  {
    if cs == [] then None
    else if f.normalize(cs[0].name) == f.normalize(name) then Some(cs[0])
    else FindName(f, cs[1..], name)
  }

  /** The checks of `register_dynamic`. */
  predicate Registrable(f: Frame, t: Table, c: Category) {
    && (forall i :: 0 <= i < |t.categories| ==> t.categories[i].id != c.id)
    && |c.variantValues| == VARIANTS_PER_MODEL
    && (forall i :: 0 <= i < |c.attributes| ==> c.attributes[i].name != c.variantKey)
    && (c.Styled() ==> |c.styles.value| <= t.modelsPerPair)
    && (forall i :: 0 <= i < |t.categories| ==> f.normalize(t.categories[i].name) != f.normalize(c.name))
  }

  function PairsAdded(c: Category): nat {
    if c.Styled() then 1 else BRAND_COUNT
  }

  function Append(t: Table, c: Category): Table {
    var pairs := t.pairCount + PairsAdded(c);
    Table(t.categories + [c],
          t.pairCategory + seq(PairsAdded(c), _ => |t.categories|),
          t.pairStart + [t.pairCount],
          t.pairWidth + [PairsAdded(c)],
          pairs, t.modelsPerPair, pairs * t.modelsPerPair * VARIANTS_PER_MODEL, t.dynamicCount + 1)
  }

  /** `register_dynamic`: a refused category leaves the table as it was. */
  function Register(f: Frame, t: Table, c: Category): Table {
    if Registrable(f, t, c) then Append(t, c) else t
  }

  function RegisterAll(f: Frame, t: Table, cs: seq<Category>): Table {
    if cs == [] then t else Register(f, RegisterAll(f, t, cs[..|cs| - 1]), cs[|cs| - 1])
  }

  lemma AppendPartition(t: Table, c: Category)
    requires Partition(t)
    ensures Partition(Append(t, c))
  {
    var u := Append(t, c);
    var k := |t.categories|;
    forall i | 0 <= i < |u.categories| ensures Contiguous(u, i) {
      assert i < k ==> Contiguous(t, i);
    }
    forall p | 0 <= p < u.pairCount
      ensures u.pairCategory[p] < |u.categories| && InBlock(u, u.pairCategory[p], p)
    {
      if p < t.pairCount { assert InBlock(t, t.pairCategory[p], p); }
    }
    forall i, p | 0 <= i < |u.categories| && 0 <= p < u.pairCount && InBlock(u, i, p)
      ensures u.pairCategory[p] == i
    {
      if i < k {
        BlockEnds(t, i);
        assert InBlock(t, i, p);
      }
    }
  }

  /** Every block ends within the pair range. */
  lemma {:induction false} BlockEnds(t: Table, i: nat)
    requires Partition(t) && i < |t.categories|
    ensures t.pairStart[i] + t.pairWidth[i] <= t.pairCount
    decreases |t.categories| - i
  {
    assert Contiguous(t, i);
    if i + 1 < |t.categories| {
      BlockEnds(t, i + 1);
    }
  }

  /** What growth never changes: an index in the old range keeps its coordinates
      and its category, and so everything computed from them. */
  ghost predicate Extends(t: Table, u: Table) {
    && t.modelsPerPair == u.modelsPerPair
    && t.pairCount <= u.pairCount && t.totalSkus <= u.totalSkus
    && t.categories <= u.categories && t.pairStart <= u.pairStart && t.pairWidth <= u.pairWidth
    && t.pairCategory <= u.pairCategory
  }

  /** Any sequence of registrations, accepted or refused, keeps the partition and
      extends the table; it adds one pair per styled and 32 per plain category accepted. */
  lemma {:induction false} Growth(f: Frame, t: Table, cs: seq<Category>)
    requires Partition(t)
    ensures var u := RegisterAll(f, t, cs);
            && Partition(u) && Extends(t, u)
            && u.dynamicCount - t.dynamicCount == |u.categories| - |t.categories|
            && u.pairCount == t.pairCount + Width(u.categories[|t.categories|..])
  {
    hide Registrable, Partition;
    if cs == [] {
      assert t.categories[|t.categories|..] == [];
    } else {
      var mid := RegisterAll(f, t, cs[..|cs| - 1]);
      var c := cs[|cs| - 1];
      Growth(f, t, cs[..|cs| - 1]);
      AppendPartition(mid, c);
      AppendExtends(mid, c);
      assert Append(mid, c).categories[|t.categories|..] == mid.categories[|t.categories|..] + [c];
    }
  }

  lemma AppendExtends(t: Table, c: Category)
    requires Partition(t)
    ensures Extends(t, Append(t, c))
  {
    var u := Append(t, c);
    assert u.pairCount * t.modelsPerPair == t.pairCount * t.modelsPerPair + PairsAdded(c) * t.modelsPerPair;
  }

  function Width(cs: seq<Category>): nat {
    if cs == [] then 0 else Width(cs[..|cs| - 1]) + PairsAdded(cs[|cs| - 1])
  }

  lemma SameCategory(t: Table, u: Table, pair: nat)
    requires Partition(t) && Partition(u) && Extends(t, u) && pair < t.pairCount
    ensures CategoryOfPair(u, pair) == CategoryOfPair(t, pair)
  {
    assert u.pairCategory[pair] == t.pairCategory[pair];
    assert u.categories[t.pairCategory[pair]] == t.categories[t.pairCategory[pair]];
  }

  datatype Item = Item(coordinates: (nat, nat, nat), category: Category, described: Option<Described>, price: nat)

  /** The index is in range and its category is well formed. */
  ghost predicate Listed(t: Table, n: nat) {
    && Partition(t) && n < t.totalSkus
    && Decompose(t.modelsPerPair, n).0 < t.pairCount && Decompose(t.modelsPerPair, n).2 < VARIANTS_PER_MODEL
    && WellFormed(CategoryOfPair(t, Decompose(t.modelsPerPair, n).0))
  }

  function ItemAt(f: Frame, t: Table, n: nat): Item
    requires f.Valid() && Listed(t, n)
  {
    var (pair, model, variant) := Decompose(t.modelsPerPair, n);
    var c := CategoryOfPair(t, pair);
    Item((pair, model, variant), c, Describe(f, c, pair, model, variant), UnitPrice(f, c, pair, model))
  }

  /** Every index sold before keeps its decomposition, category, name, attributes and price. */
  lemma GrowthKeepsItems(f: Frame, t: Table, cs: seq<Category>, n: nat)
    requires f.Valid() && Partition(t) && n < t.totalSkus
    requires forall c :: c in t.categories ==> WellFormed(c)
    ensures Listed(t, n) && Listed(RegisterAll(f, t, cs), n)
    ensures ItemAt(f, RegisterAll(f, t, cs), n) == ItemAt(f, t, n)
  {
    hide Describe, UnitPrice, RegisterAll, Partition, WellFormed;
    Growth(f, t, cs);
    InRange(t, n);
    SameCategory(t, RegisterAll(f, t, cs), Decompose(t.modelsPerPair, n).0);
  }

  lemma InRange(t: Table, n: nat)
    requires Partition(t) && n < t.totalSkus
    ensures Decompose(t.modelsPerPair, n).0 < t.pairCount
    ensures Decompose(t.modelsPerPair, n).1 < t.modelsPerPair
    ensures Decompose(t.modelsPerPair, n).2 < VARIANTS_PER_MODEL
    ensures CategoryOfPair(t, Decompose(t.modelsPerPair, n).0) in t.categories
  {
    ComposeOfDecompose(t.modelsPerPair, t.pairCount, n);
  }

  // --- brand tokens --------------------------------------------------------------------

  function StyledCount(cs: seq<Category>): nat {
    if cs == [] then 0 else StyledCount(cs[..|cs| - 1]) + if cs[|cs| - 1].Styled() then 1 else 0
  }

  lemma {:induction false} WidthModulo(cs: seq<Category>)
    ensures Width(cs) % BRAND_COUNT == StyledCount(cs) % BRAND_COUNT
  {
    if cs != [] {
      WidthModulo(cs[..|cs| - 1]);
    }
  }

  /** `_plan_tokens` takes pair `start + b` for a token naming brand `b`; the item
      there carries brand `start + b` modulo 32. For a plain category minted on top
      of a static table the two agree, for every brand, exactly when the number of
      styled categories minted before it is a multiple of 32. */
  lemma BrandTokenExact(f: Frame, t: Table, cs: seq<Category>, c: Category, b: nat)
    requires Partition(t) && t.pairCount % BRAND_COUNT == 0 && b < BRAND_COUNT
    requires !c.Styled()
    ensures var mid := RegisterAll(f, t, cs);
            && |t.categories| <= |mid.categories|
            && (Registrable(f, mid, c) ==>
                  && |Register(f, mid, c).pairStart| == |mid.categories| + 1
                  && var start := Register(f, mid, c).pairStart[|mid.categories|];
                     && start + b < |Register(f, mid, c).pairCategory|
                     && Register(f, mid, c).pairCategory[start + b] == |mid.categories|
                     && ((start + b) % BRAND_COUNT == b <==>
                           StyledCount(mid.categories[|t.categories|..]) % BRAND_COUNT == 0))
  {
    hide Registrable, RegisterAll, Width, StyledCount, Partition;
    Growth(f, t, cs);
    var mid := RegisterAll(f, t, cs);
    var added := mid.categories[|t.categories|..];
    WidthModulo(added);
    assert |mid.pairStart| == |mid.categories| by { PartitionSizes(mid); }
    assert |mid.pairCategory| == mid.pairCount by { PartitionSizes(mid); }
    Aligned(t.pairCount, Width(added), StyledCount(added), b);
  }

  lemma PartitionSizes(t: Table)
    requires Partition(t)
    ensures |t.pairStart| == |t.categories| && |t.pairCategory| == t.pairCount
  {
  }

  lemma Aligned(count: nat, width: nat, styled: nat, b: nat)
    requires count % BRAND_COUNT == 0 && width % BRAND_COUNT == styled % BRAND_COUNT && b < BRAND_COUNT
    ensures (count + width + b) % BRAND_COUNT == b <==> styled % BRAND_COUNT == 0
  {
    var k := styled % BRAND_COUNT;
    assert count + width + b == BRAND_COUNT * (count / BRAND_COUNT + width / BRAND_COUNT) + (k + b);
    if k + b < BRAND_COUNT {
      DivModUnique(count / BRAND_COUNT + width / BRAND_COUNT, k + b, BRAND_COUNT);
    } else {
      DivModUnique(count / BRAND_COUNT + width / BRAND_COUNT + 1, k + b - BRAND_COUNT, BRAND_COUNT);
    }
  }

  // --- what the facts mean -----------------------------------------------------------------

  /** The first attribute walks through its values in order, model by model, and starts
      again; each further attribute is three models ahead of the one before. */
  lemma VocabularyCycles(attr: Attribute, model: nat, ordinal: nat)
    requires attr.values != []
    ensures model < |attr.values| ==> Vocabulary(attr, model, 0) == attr.values[model]
    ensures Vocabulary(attr, model + |attr.values|, ordinal) == Vocabulary(attr, model, ordinal)
    ensures Vocabulary(attr, model, ordinal + 1) == Vocabulary(attr, model + 3, ordinal)
  {
    var d := |attr.values|;
    var (q, r) := DivMod(model + 3 * ordinal, d);
    DivModIs(model + 3 * ordinal, d);
    DivModIs(model + d + 3 * ordinal, d);
    DivModUnique(q + 1, r, d);
    assert (q + 1) * d + r == model + d + 3 * ordinal;
    if model < d {
      DivModUnique(0, model, d);
      DivModIs(model, d);
      assert 0 * d + model == model;
    }
  }

  /** A name shows brand and series first and the category last; between them the items of a
      plain category carry the series' initial and a numeral that reads back to the model. */
  lemma NameReadsBack(f: Frame, c: Category, pair: nat, model: nat, variant: nat)
    requires f.Valid() && WellFormed(c) && variant < VARIANTS_PER_MODEL
    requires Describe(f, c, pair, model, variant).Some?
    ensures var name := Describe(f, c, pair, model, variant).value.name;
            var style := SlotStyle(f, c, pair, model).value;
            var front := style.brand + " " + style.series + " ";
            if c.Styled() then style == c.styles.value[model] && name == front + c.name
            else
              style == Style(f.brands[pair % 32], f.seriesWords[model % 8]) &&
              exists code: string ::
                |code| >= 4 && Number(AsciiDigit, code) == Some(model)
                && style.series != [] && name == front + [style.series[0]] + code + " " + c.name
  {
    hide Number, Padded;
    if !c.Styled() {
      var style := SlotStyle(f, c, pair, model).value;
      assert style.series in f.seriesWords;
      NumberOfPadded(AsciiDigit, model, 4);
      var code := Padded(model, 4);
      var front := style.brand + " " + style.series + " ";
      assert front + [style.series[0]] + code + " " + c.name
             == style.brand + " " + style.series + " " + [style.series[0]] + code + " " + c.name;
    }
  }

  /** A price belongs to the model: no variant changes it; a styled model costs the same
      wherever its category lies, a plain one the same at the same brand place. */
  lemma PriceOfModel(f: Frame, c: Category, pair: nat, other: nat, model: nat)
    ensures c.Styled() ==> UnitPrice(f, c, pair, model) == UnitPrice(f, c, other, model)
    ensures pair % BRAND_COUNT == other % BRAND_COUNT ==> UnitPrice(f, c, pair, model) == UnitPrice(f, c, other, model)
    ensures c.Styled() ==> UnitPrice(f, c, pair, model) == f.stylePrice(c, model)
    ensures !c.Styled() && pair < BRAND_COUNT ==> UnitPrice(f, c, pair, model) == f.gridPrice(c, pair, model)
  {
  }

  /** Base stock is none, exactly for every forty-first digest, or from 5 to 64 in step
      with the digest; a purchase cap is from 1 to 10 in step with its own. */
  lemma StockAndCaps(f: Frame, n: nat)
    ensures BaseAvailability(f, n) == 0 <==> f.stockDigest(n) % 41 == 0
    ensures BaseAvailability(f, n) != 0 ==>
              && 5 <= BaseAvailability(f, n) <= 64
              && exists q: nat :: f.stockDigest(n) == q * 60 + BaseAvailability(f, n) - 5
    ensures 1 <= MaxOrderQuantity(f, n) <= 10
    ensures exists q: nat :: f.capDigest(n) == q * 10 + MaxOrderQuantity(f, n) - 1
  {
    var digest, cap := f.stockDigest(n), f.capDigest(n);
    assert digest == digest / 60 * 60 + digest % 60;
    assert cap == cap / 10 * 10 + cap % 10;
  }

  /** No two categories share an id or a normalized name. */
  ghost predicate Unambiguous(f: Frame, cs: seq<Category>) {
    forall i, j :: 0 <= i < j < |cs| ==> cs[i].id != cs[j].id && f.normalize(cs[i].name) != f.normalize(cs[j].name)
  }

  /** However the catalog grows, ids and names stay unambiguous, each new category has a
      value for each variant and no attribute called like the axis, and its styles fit. */
  lemma {:induction false} GrowthUnambiguous(f: Frame, t: Table, cs: seq<Category>)
    requires Unambiguous(f, t.categories)
    ensures var u := RegisterAll(f, t, cs);
            && Unambiguous(f, u.categories) && t.categories <= u.categories && u.modelsPerPair == t.modelsPerPair
            && forall i :: |t.categories| <= i < |u.categories| ==>
                 var c := u.categories[i];
                 && |c.variantValues| == 4 && (forall a :: a in c.attributes ==> a.name != c.variantKey)
                 && (c.styles.Some? ==> |c.styles.value| <= t.modelsPerPair)
  {
    if cs != [] {
      GrowthUnambiguous(f, t, cs[..|cs| - 1]);
    }
  }
}
