/** The catalog object of catalog.py, whose registration updates its tables in place. */
module VirtualCatalogs {
  import opened Wrappers
  import opened Catalog

  /** What the constructor asks of each active generated category. */
  predicate Constructible(blank: string -> bool, c: Category) {
    && !blank(c.variantKey)
    && |c.variantValues| == VARIANTS_PER_MODEL
    && forall i :: 0 <= i < |c.attributes| ==> c.attributes[i].name != c.variantKey
  }

  class VirtualCatalog {
    const frame: Frame
    const modelsPerPair: nat
    var categories: seq<Category>
    var pairCategory: seq<nat>
    var pairStart: seq<nat>
    var pairWidth: seq<nat>
    var pairCount: nat
    var totalSkus: nat
    var dynamicCount: nat

    function View(): Table
      reads this
    {
      Table(categories, pairCategory, pairStart, pairWidth, pairCount, modelsPerPair, totalSkus, dynamicCount)
    }

    /** `__init__` with its refusals: no category, a blank variant axis, another number of
        variant values than a model has, or an axis named like an attribute. */
    static method Create(frame: Frame, blank: string -> bool, static_: seq<Category>)
      returns (r: Option<VirtualCatalog>)
      ensures r.Some? <==> static_ != [] && forall i :: 0 <= i < |static_| ==> Constructible(blank, static_[i])
      ensures r.Some? ==> fresh(r.value) && r.value.frame == frame
                          && r.value.View() == Static(static_) && Partition(r.value.View())
    {
      hide Partition;
      if static_ == [] { return None; }
      for i := 0 to |static_|
        invariant forall j :: 0 <= j < i ==> Constructible(blank, static_[j])
      {
        var c := static_[i];
        if blank(c.variantKey) { return None; }
        if |c.variantValues| != VARIANTS_PER_MODEL { return None; }
        for k := 0 to |c.attributes|
          invariant forall j :: 0 <= j < k ==> c.attributes[j].name != c.variantKey
        {
          if c.attributes[k].name == c.variantKey { return None; }
        }
      }
      var catalog := new VirtualCatalog(frame, static_);
      return Some(catalog);
    }

    /** The tables of an accepted taxonomy. */
    constructor (frame: Frame, static_: seq<Category>)
      requires static_ != []
      ensures View() == Static(static_) && Partition(View()) && this.frame == frame
    {
      this.frame := frame;
      var pairs := |static_| * BRAND_COUNT;
      var models := TOTAL_SKUS / (pairs * VARIANTS_PER_MODEL);
      modelsPerPair := if models < 1 then 1 else models;
      categories := static_;
      pairCategory := seq(pairs, p requires 0 <= p => p / BRAND_COUNT);
      pairStart := seq(|static_|, i requires 0 <= i => i * BRAND_COUNT);
      pairWidth := seq(|static_|, _ => BRAND_COUNT);
      pairCount := pairs;
      totalSkus := pairs * (if models < 1 then 1 else models) * VARIANTS_PER_MODEL;
      dynamicCount := 0;
      new;
      StaticPartition(static_);
    }

    /** `find_category_by_name` */
    method FindByName(name: string) returns (r: Option<Category>)
      ensures r == FindName(frame, categories, name)
    {
      for i := 0 to |categories|
        invariant FindName(frame, categories, name) == FindName(frame, categories[i..], name)
      {
        if frame.normalize(categories[i].name) == frame.normalize(name) {
          return Some(categories[i]);
        }
        assert categories[i..][1..] == categories[i + 1..];
      }
      return None;
    }

    /** `register_dynamic` */
    method RegisterDynamic(c: Category) returns (ok: bool)
      modifies this
      ensures ok == Registrable(frame, old(View()), c)
      ensures View() == Register(frame, old(View()), c)
    {
      hide Partition, FindName;
      for i := 0 to |categories|
        invariant View() == old(View())
        invariant forall j :: 0 <= j < i ==> categories[j].id != c.id
      {
        if categories[i].id == c.id { return false; }
      }
      if |c.variantValues| != VARIANTS_PER_MODEL { return false; }
      for i := 0 to |c.attributes|
        invariant View() == old(View())
        invariant forall j :: 0 <= j < i ==> c.attributes[j].name != c.variantKey
      {
        if c.attributes[i].name == c.variantKey { return false; }
      }
      if c.Styled() && |c.styles.value| > modelsPerPair { return false; }
      var twin := FindByName(c.name);
      if twin.Some? { return false; }
      var pairsAdded: nat := if c.Styled() then 1 else BRAND_COUNT;
      var newIndex := |categories|;
      categories := categories + [c];
      pairStart := pairStart + [pairCount];
      pairWidth := pairWidth + [pairsAdded];
      pairCategory := pairCategory + seq(pairsAdded, _ => newIndex);
      dynamicCount := dynamicCount + 1;
      pairCount := pairCount + pairsAdded;
      totalSkus := pairCount * modelsPerPair * VARIANTS_PER_MODEL;
      return true;
    }
  }
}
