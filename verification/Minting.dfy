/** Validation of a proposed category (minting.py), and what it does and does not
    guarantee about registering the committed row. */
module Minting {
  import opened Wrappers
  import opened Catalog
  import opened Sku

  const FALLBACK_DOMAIN := "general"
  const MAX_NAME: nat := 32
  const MAX_DESCRIPTION: nat := 200
  const MAX_ATTRIBUTES: nat := 5
  const MAX_ATTRIBUTE_VALUES: nat := 4
  const MAX_ATTRIBUTE_NAME: nat := 16
  const MAX_VALUE: nat := 24
  const MIN_BASE_PRICE: int := 100
  const MAX_BASE_PRICE: int := 1_000_000
  const MIN_STYLES: nat := 4
  const MAX_STYLES: nat := 8
  const MIN_BRANDS: nat := 2
  const MAX_BRAND_OR_SERIES: nat := 16

  /** White space, case folding of a whole text, and the blocklist search. */
  datatype Rules = Rules(space: char -> bool, lower: string -> string, blocked: string -> bool)

  datatype Proposal = Proposal(
    name: string, description: string, domain: string,
    attributes: seq<Attribute>, variantKey: string, variantValues: seq<string>,
    basePrice: int, styles: Option<seq<Style>>)

  function Trim(r: Rules, s: string): string { Strip(r.space, s) }

  function Squeeze(space: char -> bool, s: string): string {
    if s == [] then [] else (if space(s[0]) then [] else [s[0]]) + Squeeze(space, s[1..])
  }

  /** `"".join(s.split()).lower()` */
  function Compact(r: Rules, s: string): string { r.lower(Squeeze(r.space, s)) }

  function TrimAll(r: Rules, ss: seq<string>): seq<string> {
    seq(|ss|, i requires 0 <= i < |ss| => Trim(r, ss[i]))
  }

  predicate Sized(s: string, max: nat) { s != [] && |s| <= max }

  predicate DistinctCompact(r: Rules, ss: seq<string>) {
    forall i, j :: 0 <= i < j < |ss| ==> Compact(r, ss[i]) != Compact(r, ss[j])
  }

  // --- what is accepted ---------------------------------------------------------------

  predicate AttributeOk(r: Rules, a: Attribute) {
    && Sized(Trim(r, a.name), MAX_ATTRIBUTE_NAME)
    && 1 <= |a.values| <= MAX_ATTRIBUTE_VALUES
    && (forall i :: 0 <= i < |a.values| ==> Sized(Trim(r, a.values[i]), MAX_VALUE))
    && DistinctCompact(r, TrimAll(r, a.values))
  }

  predicate AttributesOk(r: Rules, attrs: seq<Attribute>) {
    && (forall i :: 0 <= i < |attrs| ==> AttributeOk(r, attrs[i]))
    && (forall i, j :: 0 <= i < j < |attrs| ==>
        Compact(r, Trim(r, attrs[i].name)) != Compact(r, Trim(r, attrs[j].name)))
  }

  predicate StyleOk(r: Rules, s: Style) {
    && Sized(Trim(r, s.brand), MAX_BRAND_OR_SERIES) && Sized(Trim(r, s.series), MAX_BRAND_OR_SERIES)
    && !r.blocked(Trim(r, s.brand)) && !r.blocked(Trim(r, s.series))
  }

  function StyleKey(r: Rules, s: Style): (string, string) {
    (Compact(r, Trim(r, s.brand)), Compact(r, Trim(r, s.series)))
  }

  predicate StylesOk(r: Rules, styles: seq<Style>) {
    && MIN_STYLES <= |styles| <= MAX_STYLES
    && (forall i :: 0 <= i < |styles| ==> StyleOk(r, styles[i]))
    && (forall i, j :: 0 <= i < j < |styles| ==> StyleKey(r, styles[i]) != StyleKey(r, styles[j]))
    && (exists i, j :: 0 <= i < j < |styles| && Trim(r, styles[i].brand) != Trim(r, styles[j].brand))
  }

  /** Every rule of `validate_proposal`. The variant key is compared with the
      attribute names as sent, before they are trimmed. */
  predicate Acceptable(r: Rules, domains: set<string>, p: Proposal) {
    && Sized(Trim(r, p.name), MAX_NAME) && |Trim(r, p.description)| <= MAX_DESCRIPTION
    && !r.blocked(Trim(r, p.name)) && !r.blocked(Trim(r, p.description))
    && p.domain in domains
    && Sized(Trim(r, p.variantKey), MAX_ATTRIBUTE_NAME)
    && |p.variantValues| == VARIANTS_PER_MODEL
    && (forall i :: 0 <= i < |p.variantValues| ==>
        Trim(r, p.variantValues[i]) != [] && |p.variantValues[i]| <= MAX_VALUE)
    && MIN_BASE_PRICE <= p.basePrice <= MAX_BASE_PRICE
    && DistinctCompact(r, p.variantValues)
    && 1 <= |p.attributes| <= MAX_ATTRIBUTES
    && (forall i :: 0 <= i < |p.attributes| ==> p.attributes[i].name != Trim(r, p.variantKey))
    && AttributesOk(r, p.attributes)
    && (p.styles.Some? ==> StylesOk(r, p.styles.value))
  }

  // --- what is constructed ---------------------------------------------------------------

  function TrimAttribute(r: Rules, a: Attribute): Attribute {
    Attribute(Trim(r, a.name), TrimAll(r, a.values))
  }

  function TrimAttributes(r: Rules, attrs: seq<Attribute>): seq<Attribute> {
    seq(|attrs|, i requires 0 <= i < |attrs| => TrimAttribute(r, attrs[i]))
  }

  function TrimStyles(r: Rules, styles: seq<Style>): seq<Style> {
    seq(|styles|, i requires 0 <= i < |styles| => Style(Trim(r, styles[i].brand), Trim(r, styles[i].series)))
  }

  /** `RegistryCategory(category_id=..., **fields)` */
  function Normalized(r: Rules, p: Proposal, id: string): Category
    requires p.basePrice >= 0
  {
    Category(id, Trim(r, p.name), Trim(r, p.description), p.domain, TrimAttributes(r, p.attributes),
             Trim(r, p.variantKey), p.variantValues, Some(p.basePrice),
             match p.styles case None => None case Some(styles) => Some(TrimStyles(r, styles)))
  }

  // --- the loops -------------------------------------------------------------------------

  method CleanValues(r: Rules, values: seq<string>) returns (ok: bool, cleaned: seq<string>)
    ensures ok <==> (forall i :: 0 <= i < |values| ==> Sized(Trim(r, values[i]), MAX_VALUE))
                    && DistinctCompact(r, TrimAll(r, values))
    ensures ok ==> cleaned == TrimAll(r, values)
  {
    hide Trim, Compact;
    cleaned := [];
    for i := 0 to |values|
      invariant cleaned == TrimAll(r, values)[..i]
      invariant forall j :: 0 <= j < i ==> Sized(Trim(r, values[j]), MAX_VALUE)
    {
      var value := Trim(r, values[i]);
      if !Sized(value, MAX_VALUE) { return false, []; }
      cleaned := cleaned + [value];
    }
    var keys := seq(|cleaned|, i requires 0 <= i < |cleaned| => Compact(r, cleaned[i]));
    ok := AllDistinct(keys);
    SameDistinct(r, cleaned, keys);
  }

  lemma SameDistinct(r: Rules, ss: seq<string>, keys: seq<string>)
    requires |keys| == |ss| && forall i :: 0 <= i < |ss| ==> keys[i] == Compact(r, ss[i])
    ensures DistinctCompact(r, ss) <==> forall i, j :: 0 <= i < j < |keys| ==> keys[i] != keys[j]
  {
    hide Compact;
    if i, j :| 0 <= i < j < |keys| && keys[i] == keys[j] {
      assert Compact(r, ss[i]) == Compact(r, ss[j]);
    }
  }

  /** `len({...}) == len(...)` */
  method AllDistinct(keys: seq<string>) returns (distinct: bool)
    ensures distinct <==> forall i, j :: 0 <= i < j < |keys| ==> keys[i] != keys[j]
  {
    var seen: set<string> := {};
    for i := 0 to |keys|
      invariant forall k :: k in seen <==> exists j :: 0 <= j < i && keys[j] == k
      invariant forall a, b :: 0 <= a < b < i ==> keys[a] != keys[b]
    {
      if keys[i] in seen { return false; }
      seen := seen + {keys[i]};
    }
    return true;
  }

  method NormalizeAttributes(r: Rules, attrs: seq<Attribute>) returns (normalized: Option<seq<Attribute>>)
    ensures normalized.Some? <==> AttributesOk(r, attrs)
    ensures normalized.Some? ==> normalized.value == TrimAttributes(r, attrs)
  {
    hide Trim, Compact, TrimAll, DistinctCompact;
    var seen: set<string> := {};
    var out: seq<Attribute> := [];
    for i := 0 to |attrs|
      invariant out == TrimAttributes(r, attrs)[..i]
      invariant forall k :: k in seen <==> exists j :: 0 <= j < i && Compact(r, Trim(r, attrs[j].name)) == k
      invariant AttributesOk(r, attrs[..i])
    {
      var name := Trim(r, attrs[i].name);
      var key := Compact(r, name);
      var ok, cleaned := CleanValues(r, attrs[i].values);
      if !Sized(name, MAX_ATTRIBUTE_NAME) || key in seen
         || attrs[i].values == [] || |attrs[i].values| > MAX_ATTRIBUTE_VALUES || !ok
      {
        return None;
      }
      seen := seen + {key};
      out := out + [Attribute(name, cleaned)];
      assert attrs[..i + 1] == attrs[..i] + [attrs[i]];
    }
    assert attrs[..|attrs|] == attrs;
    return Some(out);
  }

  /** `_validate_brand_styles` on a matrix that is present. */
  method NormalizeStyles(r: Rules, styles: seq<Style>) returns (normalized: Option<seq<Style>>)
    ensures normalized.Some? <==> StylesOk(r, styles)
    ensures normalized.Some? ==> normalized.value == TrimStyles(r, styles)
  {
    hide Trim, Compact;
    if !(MIN_STYLES <= |styles| <= MAX_STYLES) { return None; }
    var seen: set<(string, string)> := {};
    var out: seq<Style> := [];
    var brands: set<string> := {};
    for i := 0 to |styles|
      invariant out == TrimStyles(r, styles)[..i]
      invariant forall k :: k in seen <==> exists j :: 0 <= j < i && StyleKey(r, styles[j]) == k
      invariant forall k :: k in brands <==> exists j :: 0 <= j < i && Trim(r, styles[j].brand) == k
      invariant forall a :: 0 <= a < i ==> StyleOk(r, styles[a])
      invariant forall a, b :: 0 <= a < b < i ==> StyleKey(r, styles[a]) != StyleKey(r, styles[b])
    {
      if !StyleOk(r, styles[i]) || StyleKey(r, styles[i]) in seen { return None; }
      seen := seen + {StyleKey(r, styles[i])};
      brands := brands + {Trim(r, styles[i].brand)};
      out := out + [Style(Trim(r, styles[i].brand), Trim(r, styles[i].series))];
    }
    TwoBrands(r, styles, brands);
    if |brands| < MIN_BRANDS { return None; }
    return Some(out);
  }

  lemma TwoBrands(r: Rules, styles: seq<Style>, brands: set<string>)
    requires styles != []
    requires forall k :: k in brands <==> exists j :: 0 <= j < |styles| && Trim(r, styles[j].brand) == k
    ensures |brands| >= MIN_BRANDS <==>
            exists i, j :: 0 <= i < j < |styles| && Trim(r, styles[i].brand) != Trim(r, styles[j].brand)
  {
    hide Trim;
    var first := Trim(r, styles[0].brand);
    assert first in brands;
    var others := brands - {first};
    assert |brands| == |others| + 1;
    if others != {} {
      var b :| b in others;
      var j :| 0 <= j < |styles| && Trim(r, styles[j].brand) == b;
      assert j != 0;
    } else {
      forall j | 0 <= j < |styles| ensures Trim(r, styles[j].brand) == first {
        assert Trim(r, styles[j].brand) in brands;
      }
    }
  }

  /** `validate_proposal`: it accepts exactly the acceptable and normalizes them. */
  method ValidateProposal(r: Rules, domains: set<string>, p: Proposal, id: string) returns (fields: Option<Category>)
    ensures fields.Some? <==> Acceptable(r, domains, p)
    ensures fields.Some? ==> fields.value == Normalized(r, p, id)
  {
    hide Trim, Compact, AttributesOk, StylesOk, TrimAttributes, TrimStyles;
    var name, description, variantKey := Trim(r, p.name), Trim(r, p.description), Trim(r, p.variantKey);
    if !Sized(name, MAX_NAME) || |description| > MAX_DESCRIPTION { return None; }
    if r.blocked(name) || r.blocked(description) || p.domain !in domains { return None; }
    if !Sized(variantKey, MAX_ATTRIBUTE_NAME) || |p.variantValues| != VARIANTS_PER_MODEL { return None; }
    for i := 0 to |p.variantValues|
      invariant forall j :: 0 <= j < i ==> Trim(r, p.variantValues[j]) != [] && |p.variantValues[j]| <= MAX_VALUE
    {
      if Trim(r, p.variantValues[i]) == [] || |p.variantValues[i]| > MAX_VALUE { return None; }
    }
    if !(MIN_BASE_PRICE <= p.basePrice <= MAX_BASE_PRICE) { return None; }
    var keys := seq(|p.variantValues|, i requires 0 <= i < |p.variantValues| => Compact(r, p.variantValues[i]));
    var distinct := AllDistinct(keys);
    SameDistinct(r, p.variantValues, keys);
    if !distinct { return None; }
    if p.attributes == [] || |p.attributes| > MAX_ATTRIBUTES { return None; }
    for i := 0 to |p.attributes|
      invariant forall j :: 0 <= j < i ==> p.attributes[j].name != variantKey
    {
      if p.attributes[i].name == variantKey { return None; }
    }
    var attributes := NormalizeAttributes(r, p.attributes);
    if attributes.None? { return None; }
    var styles: Option<seq<Style>> := None;
    if p.styles.Some? {
      styles := NormalizeStyles(r, p.styles.value);
      if styles.None? { return None; }
    }
    return Some(Category(id, name, description, p.domain, attributes.value, variantKey, p.variantValues,
                         Some(p.basePrice), styles));
  }

  // --- what an accepted proposal guarantees ------------------------------------------------------------

  /** No trimmed attribute name is the trimmed variant key. */
  predicate NoClash(r: Rules, p: Proposal) {
    forall i :: 0 <= i < |p.attributes| ==> Trim(r, p.attributes[i].name) != Trim(r, p.variantKey)
  }

  /** What registration asks of a category beyond a new id and a new name. */
  predicate ShapeOk(t: Table, c: Category) {
    && |c.variantValues| == VARIANTS_PER_MODEL
    && (forall i :: 0 <= i < |c.attributes| ==> c.attributes[i].name != c.variantKey)
    && (c.Styled() ==> |c.styles.value| <= t.modelsPerPair)
  }

  /** An accepted proposal yields a category that can be registered, once its id and
      name are new, exactly if trimming makes no attribute name the variant key and
      its style matrix fits a pair. Its names are distinct and its values not empty. */
  lemma AcceptedShape(r: Rules, domains: set<string>, p: Proposal, id: string, t: Table)
    requires Acceptable(r, domains, p)
    ensures var c := Normalized(r, p, id);
            && (ShapeOk(t, c) <==> NoClash(r, p) && (p.styles.Some? ==> |p.styles.value| <= t.modelsPerPair))
            && (forall i, j :: 0 <= i < j < |c.attributes| ==> c.attributes[i].name != c.attributes[j].name)
            && (forall i :: 0 <= i < |c.attributes| ==> c.attributes[i].values != [])
            && c.styles != Some([])
  {
    hide Trim, Compact, TrimAll, DistinctCompact, StyleOk, StyleKey;
    var c := Normalized(r, p, id);
    assert forall i :: 0 <= i < |p.attributes| ==> AttributeOk(r, p.attributes[i]);
    assert forall i :: 0 <= i < |p.attributes| ==> c.attributes[i].name == Trim(r, p.attributes[i].name);
    assert ShapeOk(t, c) ==> NoClash(r, p) by {
      if ShapeOk(t, c) {
        forall i | 0 <= i < |p.attributes| ensures Trim(r, p.attributes[i].name) != Trim(r, p.variantKey) {
          assert c.attributes[i].name != c.variantKey;
        }
      }
    }
    forall i | 0 <= i < |c.attributes| ensures c.attributes[i].values != [] {
      assert |TrimAll(r, p.attributes[i].values)| == |p.attributes[i].values| by {
        TrimAllLength(r, p.attributes[i].values);
      }
    }
  }

  lemma TrimAllLength(r: Rules, ss: seq<string>)
    ensures |TrimAll(r, ss)| == |ss|
  {
  }

  /** Names sent already trimmed never clash. */
  lemma TrimmedNamesSuffice(r: Rules, domains: set<string>, p: Proposal)
    requires Acceptable(r, domains, p)
    requires forall i :: 0 <= i < |p.attributes| ==> Trim(r, p.attributes[i].name) == p.attributes[i].name
    ensures NoClash(r, p)
  {
    hide Trim, Compact, AttributesOk, StylesOk;
  }

  lemma {:induction false} SqueezeConcat(space: char -> bool, a: string, b: string)
    ensures Squeeze(space, a + b) == Squeeze(space, a) + Squeeze(space, b)
  {
    if a == [] {
      assert a + b == b;
    } else {
      assert (a + b)[1..] == a[1..] + b;
      SqueezeConcat(space, a[1..], b);
    }
  }

  /** White space anywhere in a text does not tell it from another; and a text without any
      is compared as its lower case. */
  lemma CompactIgnoresSpace(r: Rules, a: string, c: char, b: string)
    requires r.space(c)
    ensures Compact(r, a + [c] + b) == Compact(r, a + b)
    ensures (forall x :: x in a ==> !r.space(x)) ==> Compact(r, a) == r.lower(a)
  {
    SqueezeConcat(r.space, a, b);
    SqueezeConcat(r.space, a + [c], b);
    SqueezeConcat(r.space, a, [c]);
    assert Squeeze(r.space, [c]) == [];
    assert Squeeze(r.space, a) + [] == Squeeze(r.space, a);
    if forall x :: x in a ==> !r.space(x) { SqueezeNothing(r.space, a); }
  }

  lemma {:induction false} SqueezeNothing(space: char -> bool, s: string)
    requires forall x :: x in s ==> !space(x)
    ensures Squeeze(space, s) == s
  {
    if s != [] {
      assert s[0] in s && forall x :: x in s[1..] ==> x in s;
      SqueezeNothing(space, s[1..]);
      assert s == [s[0]] + s[1..];
    }
  }

  /** Two styles count as one exactly if brand and series both agree but for spacing and case. */
  lemma StylesAlikeExactly(r: Rules, a: Style, b: Style)
    ensures StyleKey(r, a) == StyleKey(r, b) <==>
            && r.lower(Squeeze(r.space, Trim(r, a.brand))) == r.lower(Squeeze(r.space, Trim(r, b.brand)))
            && r.lower(Squeeze(r.space, Trim(r, a.series))) == r.lower(Squeeze(r.space, Trim(r, b.series)))
  {
    hide Trim, Squeeze;
  }

  /** An accepted proposal keeps within the limits of the catalog's shape; and of the prices
      exactly those from 100 to 1000000 would be accepted in it. */
  lemma AcceptedLimits(r: Rules, domains: set<string>, p: Proposal, price: int)
    requires Acceptable(r, domains, p)
    ensures 1 <= |Trim(r, p.name)| <= 32 && |Trim(r, p.description)| <= 200 && 1 <= |Trim(r, p.variantKey)| <= 16
    ensures |p.variantValues| == 4 && (forall v :: v in p.variantValues ==> 1 <= |v| <= 24) && 1 <= |p.attributes| <= 5
    ensures forall a :: a in p.attributes ==> 1 <= |Trim(r, a.name)| <= 16 && 1 <= |a.values| <= 4
    ensures p.styles.Some? ==> 4 <= |p.styles.value| <= 8
    ensures !r.blocked(Trim(r, p.name)) && !r.blocked(Trim(r, p.description)) && p.domain in domains
    ensures Acceptable(r, domains, p.(basePrice := price)) <==> 100 <= price <= 1_000_000
  {
    hide Trim, Compact, DistinctCompact, StyleOk, StyleKey;
    forall a | a in p.attributes ensures 1 <= |Trim(r, a.name)| <= 16 && 1 <= |a.values| <= 4 {
      assert AttributeOk(r, a);
    }
    forall v | v in p.variantValues ensures 1 <= |v| <= 24 {
      if v == [] { TrimOfNothing(r); }
    }
  }

  lemma TrimOfNothing(r: Rules)
    ensures Trim(r, []) == []
  {
  }

  /** What is trimmed already is stored as sent. */
  lemma TrimmedIsKept(r: Rules, p: Proposal, id: string)
    requires p.basePrice >= 0 && Trim(r, p.variantKey) == p.variantKey
    requires Trim(r, p.name) == p.name && Trim(r, p.description) == p.description
    requires forall a :: a in p.attributes ==>
               Trim(r, a.name) == a.name && forall v :: v in a.values ==> Trim(r, v) == v
    requires p.styles.Some? ==>
               forall s :: s in p.styles.value ==> Trim(r, s.brand) == s.brand && Trim(r, s.series) == s.series
    ensures Normalized(r, p, id) == Category(id, p.name, p.description, p.domain, p.attributes, p.variantKey,
                                             p.variantValues, Some(p.basePrice), p.styles)
  {
    hide Trim;
    forall i | 0 <= i < |p.attributes| ensures TrimAttribute(r, p.attributes[i]) == p.attributes[i] {
      assert p.attributes[i] in p.attributes;
      assert TrimAll(r, p.attributes[i].values) == p.attributes[i].values;
    }
    assert TrimAttributes(r, p.attributes) == p.attributes;
    if p.styles.Some? { assert TrimStyles(r, p.styles.value) == p.styles.value; }
  }

  const BLANKS := Rules(c => c == ' ', s => s, s => false)

  lemma ExampleText()
    ensures Trim(BLANKS, "") == "" && Trim(BLANKS, "u") == "u" && Trim(BLANKS, "k") == "k"
    ensures Trim(BLANKS, " k") == "k" && Trim(BLANKS, "v") == "v"
  {
    assert " k"[1..] == "k";
  }

  lemma ExampleVariants(c: char)
    requires c != ' '
    ensures Trim(BLANKS, [c]) == [c] && Compact(BLANKS, [c]) == [c]
  {
    assert [c][1..] == [];
    assert Squeeze(BLANKS.space, [c]) == [c];
  }

  /** An accepted proposal that clashes: the variant key "k" beside the attribute name " k". */
  lemma ClashExample(domains: set<string>)
    requires FALLBACK_DOMAIN in domains
    ensures var p := Proposal("u", "", FALLBACK_DOMAIN, [Attribute(" k", ["v"])], "k", ["a", "b", "c", "d"], 500, None);
            Acceptable(BLANKS, domains, p) && !NoClash(BLANKS, p)
  {
    hide Trim, Compact;
    ExampleText();
    ExampleVariants('a');
    ExampleVariants('b');
    ExampleVariants('c');
    ExampleVariants('d');
    var attrs := [Attribute(" k", ["v"])];
    assert Trim(BLANKS, attrs[0].name) == Trim(BLANKS, "k");
    assert TrimAll(BLANKS, ["v"]) == ["v"];
    assert " k" != "k" by { assert |" k"| != |"k"|; }
    var vs := ["a", "b", "c", "d"];
    assert forall i :: 0 <= i < 4 ==> Trim(BLANKS, vs[i]) == vs[i] && Compact(BLANKS, vs[i]) == vs[i];
  }
}
