/** `_plan_tokens` of catalog.py: query words resolve to pairs, series or free text. */
module TokenPlan {
  import opened Catalog
  import Search

  /** Lower-casing, the further names of a category, the brand slugs, and the
      searchable text of a slot's variant. */
  datatype Lexicon = Lexicon(
    lower: string -> string, aliases: Category -> seq<string>, slugs: seq<string>,
    blob: (Category, nat, nat, nat) -> string)

  datatype Plan = Plan(pairs: seq<nat>, series: set<nat>, text: seq<string>)

  /** Plain categories own one pair a brand. */
  ghost predicate Gridded(t: Table) {
    && Partition(t)
    && forall i :: 0 <= i < |t.categories| && !t.categories[i].Styled() ==> t.pairWidth[i] == BRAND_COUNT
  }

  lemma StaticGridded(categories: seq<Category>)
    requires categories != []
    ensures Gridded(Static(categories))
  {
    StaticPartition(categories);
  }

  /** Any registrations keep it. */
  lemma {:induction false} GrowthGridded(f: Frame, t: Table, cs: seq<Category>)
    requires Gridded(t)
    ensures Gridded(RegisterAll(f, t, cs))
  {
    hide Registrable, Partition;
    if cs != [] {
      GrowthGridded(f, t, cs[..|cs| - 1]);
      AppendPartition(RegisterAll(f, t, cs[..|cs| - 1]), cs[|cs| - 1]);
      PartitionSizes(RegisterAll(f, t, cs[..|cs| - 1]));
      Sizes(RegisterAll(f, t, cs[..|cs| - 1]));
    }
  }

  lemma Sizes(t: Table)
    requires Partition(t)
    ensures |t.pairWidth| == |t.categories|
  {
  }

  // --- what a word names ------------------------------------------------------------

  /** `needle in hay` */
  predicate Contains(hay: string, needle: string) {
    exists i :: 0 <= i <= |hay| - |needle| && OccursAt(hay, needle, i)
  }

  predicate OccursAt(hay: string, needle: string, i: nat)
    requires i + |needle| <= |hay|
  {
    hay[i..i + |needle|] == needle
  }

  predicate WordMatches(lex: Lexicon, token: string, raw: string) {
    var candidate := lex.lower(raw);
    token == candidate || (|token| >= 2 && (Contains(candidate, token) || Contains(token, candidate)))
  }

  /** `_token_matches` */
  predicate TokenMatches(lex: Lexicon, token: string, candidates: seq<string>) {
    exists i :: 0 <= i < |candidates| && WordMatches(lex, token, candidates[i])
  }

  predicate NamesCategory(lex: Lexicon, token: string, c: Category) {
    TokenMatches(lex, token, [c.name] + lex.aliases(c))
  }

  predicate NamesBrand(f: Frame, lex: Lexicon, token: string, b: int) {
    && 0 <= b < |f.brands| && b < |lex.slugs|
    && TokenMatches(lex, token, [f.brands[b], lex.slugs[b]])
  }

  predicate NamesStyle(lex: Lexicon, token: string, c: Category) {
    && c.Styled()
    && exists k :: 0 <= k < |c.styles.value| &&
         TokenMatches(lex, token, [c.styles.value[k].brand, c.styles.value[k].series])
  }

  /** The category owning a pair has the word for a name. */
  predicate ByCategory(t: Table, lex: Lexicon, token: string, p: nat)
    requires Partition(t) && p < t.pairCount
  {
    NamesCategory(lex, token, CategoryOfPair(t, p))
  }

  /** The pair of a plain category stands at the place of a brand the word names. */
  predicate ByBrand(f: Frame, t: Table, lex: Lexicon, token: string, p: nat)
    requires Partition(t) && p < t.pairCount
  {
    !CategoryOfPair(t, p).Styled() && NamesBrand(f, lex, token, Place(t, p))
  }

  /** Where the pair stands in its category's block. */
  function Place(t: Table, p: nat): (r: nat)
    requires Partition(t) && p < t.pairCount
    ensures r < t.pairWidth[t.pairCategory[p]]
  {
    assert InBlock(t, t.pairCategory[p], p);
    p - t.pairStart[t.pairCategory[p]]
  }

  predicate ByStyle(t: Table, lex: Lexicon, token: string, p: nat)
    requires Partition(t) && p < t.pairCount
  {
    NamesStyle(lex, token, CategoryOfPair(t, p))
  }

  /** The word names the pair: its category, its place among the category's brands,
      or a style of its category. */
  predicate NamesPair(f: Frame, t: Table, lex: Lexicon, token: string, p: nat)
    requires Partition(t) && p < t.pairCount
  {
    ByCategory(t, lex, token, p) || ByBrand(f, t, lex, token, p) || ByStyle(t, lex, token, p)
  }

  ghost predicate NamesSomePair(f: Frame, t: Table, lex: Lexicon, token: string)
    requires Partition(t)
  {
    exists p: nat :: p < t.pairCount && NamesPair(f, t, lex, token, p)
  }

  predicate NamesSeries(f: Frame, lex: Lexicon, token: string, r: nat) {
    r < |f.seriesWords| && TokenMatches(lex, token, [f.seriesWords[r]])
  }

  predicate NamesSomeSeries(f: Frame, lex: Lexicon, token: string) {
    exists r: nat :: r < |f.seriesWords| && NamesSeries(f, lex, token, r)
  }

  /** The words left as free text, in query order. */
  ghost function TextTerms(f: Frame, t: Table, lex: Lexicon, tokens: seq<string>): seq<string>
    requires Partition(t)
  {
    if tokens == [] then []
    else
      var token := tokens[|tokens| - 1];
      TextTerms(f, t, lex, tokens[..|tokens| - 1])
      + if NamesSomePair(f, t, lex, token) || NamesSomeSeries(f, lex, token) then [] else [token]
  }

  /** A pair survives the words: each word that names any pair names this one. */
  ghost predicate Survives(f: Frame, t: Table, lex: Lexicon, tokens: seq<string>, p: nat)
    requires Partition(t) && p < t.pairCount
  {
    forall k :: 0 <= k < |tokens| && NamesSomePair(f, t, lex, tokens[k]) ==> NamesPair(f, t, lex, tokens[k], p)
  }

  ghost predicate PlansSeries(f: Frame, t: Table, lex: Lexicon, tokens: seq<string>, r: nat)
    requires Partition(t)
  {
    exists k :: 0 <= k < |tokens| && !NamesSomePair(f, t, lex, tokens[k]) && NamesSeries(f, lex, tokens[k], r)
  }

  ghost predicate SortedSet(s: seq<nat>) {
    forall i, j :: 0 <= i < j < |s| ==> s[i] < s[j]
  }

  // --- the planning loops --------------------------------------------------------------

  /** Blocks are exactly the pairs of their category. */
  lemma BlockPairs(t: Table, i: nat, p: nat)
    requires Partition(t) && i < |t.categories|
    ensures InBlock(t, i, p) <==> p < t.pairCount && t.pairCategory[p] == i
  {
    BlockEnds(t, i);
    if p < t.pairCount { assert InBlock(t, t.pairCategory[p], p); }
  }

  /** `_category_pairs` */
  method CategoryPairs(t: Table, i: nat) returns (pairs: set<nat>)
    requires Partition(t) && i < |t.categories|
    ensures forall p: nat :: p in pairs <==> p < t.pairCount && t.pairCategory[p] == i
  {
    pairs := {};
    var start, width := t.pairStart[i], t.pairWidth[i];
    for k := 0 to width
      invariant forall p: nat :: p in pairs <==> start <= p < start + k
    {
      pairs := pairs + {start + k};
    }
    forall p: nat ensures p in pairs <==> p < t.pairCount && t.pairCategory[p] == i {
      BlockPairs(t, i, p);
    }
  }

  lemma Ranges(t: Table)
    requires Partition(t)
    ensures |t.pairWidth| == |t.categories| && |t.pairStart| == |t.categories| && |t.pairCategory| == t.pairCount
    ensures forall p: nat :: 0 <= p < t.pairCount ==> t.pairCategory[p] < |t.categories|
  {
  }

  /** The first loop: every pair of each category the word names. */
  method MatchCategories(t: Table, lex: Lexicon, token: string) returns (r: set<nat>)
    requires Partition(t)
    ensures forall p: nat :: p in r <==> p < t.pairCount && ByCategory(t, lex, token, p)
  {
    hide NamesCategory, Partition;
    Ranges(t);
    r := {};
    for i := 0 to |t.categories|
      invariant forall p: nat :: p in r <==> p < t.pairCount && t.pairCategory[p] < i && ByCategory(t, lex, token, p)
    {
      if NamesCategory(lex, token, t.categories[i]) {
        var pairs := CategoryPairs(t, i);
        r := r + pairs;
      }
    }
  }

  /** The third loop: every pair of each category with a style the word names. */
  method MatchStyles(t: Table, lex: Lexicon, token: string, before: set<nat>) returns (r: set<nat>)
    requires Partition(t)
    ensures forall p: nat :: p in r <==> p in before || (p < t.pairCount && ByStyle(t, lex, token, p))
  {
    hide NamesStyle, Partition;
    Ranges(t);
    r := before;
    for i := 0 to |t.categories|
      invariant forall p: nat :: p in r <==>
        p in before || (p < t.pairCount && t.pairCategory[p] < i && ByStyle(t, lex, token, p))
    {
      if NamesStyle(lex, token, t.categories[i]) {
        var pairs := CategoryPairs(t, i);
        r := r + pairs;
      }
    }
  }

  /** The pair at a place of a plain category's block. */
  lemma PairAtPlace(t: Table, i: nat, b: nat)
    requires Gridded(t) && i < |t.categories| && !t.categories[i].Styled() && b < BRAND_COUNT
    ensures var p := t.pairStart[i] + b;
            && p < t.pairCount && t.pairCategory[p] == i && Place(t, p) == b
            && forall x: nat :: x < t.pairCount && t.pairCategory[x] == i && Place(t, x) == b ==> x == p
  {
    BlockPairs(t, i, t.pairStart[i] + b);
  }

  lemma PlaceOnGrid(t: Table, p: nat)
    requires Gridded(t) && p < t.pairCount && !CategoryOfPair(t, p).Styled()
    ensures Place(t, p) < BRAND_COUNT
  {
  }

  /** The second loop: the brand's place in every plain category. */
  method MatchBrands(f: Frame, t: Table, lex: Lexicon, token: string, before: set<nat>) returns (r: set<nat>)
    requires f.Valid() && |lex.slugs| == BRAND_COUNT && Gridded(t)
    ensures forall p: nat :: p in r <==> p in before || (p < t.pairCount && ByBrand(f, t, lex, token, p))
  {
    hide NamesBrand, Partition, Gridded, Place;
    GridRanges(t);
    r := before;
    for b := 0 to BRAND_COUNT
      invariant forall p: nat :: p in r <==>
        p in before || (p < t.pairCount && ByBrand(f, t, lex, token, p) && Place(t, p) < b)
    {
      if NamesBrand(f, lex, token, b) {
        var outer := r;
        for i := 0 to |t.categories|
          invariant forall p: nat :: p in r <==>
            p in outer || (p < t.pairCount && t.pairCategory[p] < i && ByBrand(f, t, lex, token, p) && Place(t, p) == b)
        {
          if !t.categories[i].Styled() {
            PairAtPlace(t, i, b);
            r := r + {t.pairStart[i] + b};
          }
        }
      }
    }
    forall p: nat | p < t.pairCount && ByBrand(f, t, lex, token, p) ensures Place(t, p) < BRAND_COUNT {
      PlaceOnGrid(t, p);
    }
  }

  lemma GridRanges(t: Table)
    requires Gridded(t)
    ensures Partition(t)
    ensures |t.pairStart| == |t.categories| && |t.pairCategory| == t.pairCount
    ensures forall p: nat :: 0 <= p < t.pairCount ==> t.pairCategory[p] < |t.categories|
  {
  }

  /** All pairs one word names. */
  method MatchPairs(f: Frame, t: Table, lex: Lexicon, token: string) returns (r: set<nat>)
    requires f.Valid() && |lex.slugs| == BRAND_COUNT && Gridded(t)
    ensures forall p: nat :: p in r <==> p < t.pairCount && NamesPair(f, t, lex, token, p)
  {
    hide Partition, ByCategory, ByBrand, ByStyle;
    GridRanges(t);
    r := MatchCategories(t, lex, token);
    r := MatchBrands(f, t, lex, token, r);
    r := MatchStyles(t, lex, token, r);
  }

  method MatchSeries(f: Frame, lex: Lexicon, token: string) returns (r: set<nat>)
    requires f.Valid()
    ensures forall x: nat :: x in r <==> NamesSeries(f, lex, token, x)
    ensures forall x: nat :: x in r ==> x < |f.seriesWords|
  {
    hide TokenMatches;
    r := {};
    for x := 0 to SERIES_COUNT
      invariant forall y: nat :: y in r <==> y < x && NamesSeries(f, lex, token, y)
    {
      if NamesSeries(f, lex, token, x) { r := r + {x}; }
    }
  }

  /** `tuple(sorted(pairs))` */
  method Sorted(pairs: set<nat>, bound: nat) returns (s: seq<nat>)
    requires forall p: nat :: p in pairs ==> p < bound
    ensures SortedSet(s) && forall p: nat :: p in s <==> p in pairs
  {
    s := [];
    for p := 0 to bound
      invariant SortedSet(s) && forall x: nat :: x in s <==> x in pairs && x < p
    {
      if p in pairs {
        assert forall i :: 0 <= i < |s| ==> s[i] in s;
        s := s + [p];
      }
    }
  }

  /** `frozenset.intersection(*pair_sets) if pair_sets else frozenset(range(pair_count))` */
  method Intersect(pairSets: seq<set<nat>>, bound: nat) returns (pairs: set<nat>)
    requires forall k, p: nat :: 0 <= k < |pairSets| && p in pairSets[k] ==> p < bound
    ensures forall p: nat :: p in pairs <==> p < bound && InAll(pairSets, p)
  {
    if pairSets == [] {
      pairs := {};
      for p := 0 to bound
        invariant forall x: nat :: x in pairs <==> x < p
      {
        pairs := pairs + {p};
      }
    } else {
      pairs := pairSets[0];
      for k := 1 to |pairSets|
        invariant forall p: nat :: p in pairs <==> forall j :: 0 <= j < k ==> p in pairSets[j]
      {
        pairs := pairs * pairSets[k];
      }
    }
  }

  lemma TextStep(f: Frame, t: Table, lex: Lexicon, tokens: seq<string>, k: nat)
    requires Partition(t) && k < |tokens|
    ensures TextTerms(f, t, lex, tokens[..k + 1]) == TextTerms(f, t, lex, tokens[..k])
              + if NamesSomePair(f, t, lex, tokens[k]) || NamesSomeSeries(f, lex, tokens[k]) then [] else [tokens[k]]
  {
    assert tokens[..k + 1][..k] == tokens[..k];
  }

  lemma PlanStep(f: Frame, t: Table, lex: Lexicon, tokens: seq<string>, k: nat)
    requires Partition(t) && k < |tokens|
    ensures forall p: nat :: p < t.pairCount ==>
              (Survives(f, t, lex, tokens[..k + 1], p) <==>
                Survives(f, t, lex, tokens[..k], p)
                && (NamesSomePair(f, t, lex, tokens[k]) ==> NamesPair(f, t, lex, tokens[k], p)))
    ensures forall r: nat :: PlansSeries(f, t, lex, tokens[..k + 1], r) <==>
              PlansSeries(f, t, lex, tokens[..k], r)
              || (!NamesSomePair(f, t, lex, tokens[k]) && NamesSeries(f, lex, tokens[k], r))
  {
    hide Partition, NamesPair, NamesSeries, NamesSomePair;
    var before, after := tokens[..k], tokens[..k + 1];
    assert forall i :: 0 <= i < k ==> after[i] == before[i];
    assert after[k] == tokens[k];
    forall r: nat | PlansSeries(f, t, lex, before, r) ensures PlansSeries(f, t, lex, after, r) {
      var i :| 0 <= i < |before| && !NamesSomePair(f, t, lex, before[i]) && NamesSeries(f, lex, before[i], r);
      assert after[i] == before[i];
    }
  }

  ghost predicate InAll(pairSets: seq<set<nat>>, p: nat) {
    forall j :: 0 <= j < |pairSets| ==> p in pairSets[j]
  }

  lemma InAllStep(pairSets: seq<set<nat>>, named: set<nat>)
    ensures forall p: nat :: InAll(pairSets + [named], p) <==> InAll(pairSets, p) && p in named
  {
    forall p: nat ensures InAll(pairSets + [named], p) <==> InAll(pairSets, p) && p in named {
      var all := pairSets + [named];
      assert all[|pairSets|] == named;
      assert forall j :: 0 <= j < |pairSets| ==> all[j] == pairSets[j];
    }
  }

  /** `_plan_tokens`: the plan's pairs are those named by every word that names any
      pair; a word naming no pair restricts the series; a word naming neither stays text. */
  method PlanTokens(f: Frame, t: Table, lex: Lexicon, tokens: seq<string>) returns (plan: Plan)
    requires f.Valid() && |lex.slugs| == BRAND_COUNT && Gridded(t)
    ensures SortedSet(plan.pairs)
    ensures forall p: nat :: p in plan.pairs <==> p < t.pairCount && Survives(f, t, lex, tokens, p)
    ensures forall r: nat :: r in plan.series <==> PlansSeries(f, t, lex, tokens, r)
    ensures plan.text == TextTerms(f, t, lex, tokens)
  {
    hide Partition, NamesPair, NamesSeries, Gridded, TextTerms, Survives, PlansSeries, InAll;
    GridRanges(t);
    Unplanned(f, t, lex);
    assert tokens[..0] == [];
    var pairSets: seq<set<nat>> := [];
    var series: set<nat> := {};
    var text: seq<string> := [];
    for k := 0 to |tokens|
      invariant forall j, p: nat :: 0 <= j < |pairSets| && p in pairSets[j] ==> p < t.pairCount
      invariant forall p: nat :: p < t.pairCount ==>
        (InAll(pairSets, p) <==> Survives(f, t, lex, tokens[..k], p))
      invariant forall r: nat :: r in series <==> PlansSeries(f, t, lex, tokens[..k], r)
      invariant text == TextTerms(f, t, lex, tokens[..k])
    {
      var token := tokens[k];
      TextStep(f, t, lex, tokens, k);
      PlanStep(f, t, lex, tokens, k);
      var named := MatchPairs(f, t, lex, token);
      assert NamesSomePair(f, t, lex, token) <==> named != {};
      if named != {} {
        InAllStep(pairSets, named);
        pairSets := pairSets + [named];
      } else {
        var matched := MatchSeries(f, lex, token);
        assert NamesSomeSeries(f, lex, token) <==> matched != {};
        if matched != {} {
          series := series + matched;
        } else {
          text := text + [token];
        }
      }
    }
    assert tokens[..|tokens|] == tokens;
    var pairs := Intersect(pairSets, t.pairCount);
    var sorted := Sorted(pairs, t.pairCount);
    return Plan(sorted, series, text);
  }

  /** No words: every pair, no series, no text. */
  lemma Unplanned(f: Frame, t: Table, lex: Lexicon)
    requires Partition(t)
    ensures TextTerms(f, t, lex, []) == []
    ensures forall p: nat :: InAll([], p) && (p < t.pairCount ==> Survives(f, t, lex, [], p))
    ensures forall r: nat :: !PlansSeries(f, t, lex, [], r)
  {
  }

  /** A planned query over well-formed, fitting categories with distinct filter keys is
      what the search relies on. */
  lemma PlannedIsReady(f: Frame, t: Table, lex: Lexicon, tokens: seq<string>, plan: Plan, q: Search.Query)
    requires f.Valid() && Gridded(t)
    requires forall c :: c in t.categories ==> WellFormed(c) && Search.Fits(t, c)
    requires SortedSet(plan.pairs)
    requires forall p: nat :: p in plan.pairs <==> p < t.pairCount && Survives(f, t, lex, tokens, p)
    requires forall r: nat :: r in plan.series <==> PlansSeries(f, t, lex, tokens, r)
    requires q.pairs == plan.pairs && q.seriesIds == plan.series
    requires forall i, j :: 0 <= i < j < |q.filters| ==> q.filters[i].key != q.filters[j].key
    ensures Search.Ready(f, t, q)
  {
    hide Partition, NamesPair, TokenMatches, WellFormed;
    GridRanges(t);
    forall r | r in q.seriesIds ensures r < SERIES_COUNT {
      assert PlansSeries(f, t, lex, tokens, r);
    }
    forall i | 0 <= i < |q.pairs| ensures q.pairs[i] < t.pairCount {
      assert q.pairs[i] in plan.pairs;
    }
  }

  /** The free text of a query: every term occurs in the searchable text of the index. */
  ghost predicate TextOk(t: Table, lex: Lexicon, terms: seq<string>, n: nat)
    requires Listed(t, n)
  {
    var (pair, model, variant) := Decompose(t.modelsPerPair, n);
    forall k :: 0 <= k < |terms| ==> Contains(lex.blob(CategoryOfPair(t, pair), pair, model, variant), terms[k])
  }

  /** The query is the plan of its words: pairs, series and text terms, with one filter a key. */
  ghost predicate PlannedFor(f: Frame, t: Table, lex: Lexicon, tokens: seq<string>, q: Search.Query)
    requires Partition(t)
  {
    && SortedSet(q.pairs)
    && (forall p: nat :: p in q.pairs <==> p < t.pairCount && Survives(f, t, lex, tokens, p))
    && (forall r: nat :: r in q.seriesIds <==> PlansSeries(f, t, lex, tokens, r))
    && (forall n: nat :: Listed(t, n) ==> (q.text(n) <==> TextOk(t, lex, TextTerms(f, t, lex, tokens), n)))
    && forall i, j :: 0 <= i < j < |q.filters| ==> q.filters[i].key != q.filters[j].key
  }

  // --- what words name, spelled out ------------------------------------------------------

  /** `needle` stands somewhere in `hay`. */
  ghost predicate Infix(hay: string, needle: string) { exists a, b :: hay == a + needle + b }

  lemma ContainsIsInfix(hay: string, needle: string)
    ensures Contains(hay, needle) <==> Infix(hay, needle)
  {
    if Contains(hay, needle) {
      var i :| 0 <= i <= |hay| - |needle| && OccursAt(hay, needle, i);
      assert hay == hay[..i] + needle + hay[i + |needle|..];
    }
    if Infix(hay, needle) {
      var a, b :| hay == a + needle + b;
      assert OccursAt(hay, needle, |a|);
    }
  }

  /** The word is the text in lower case, or one of the two is part of the other and the
      word has two letters. */
  ghost predicate Says(lex: Lexicon, token: string, text: string) {
    || token == lex.lower(text)
    || (|token| >= 2 && (Infix(lex.lower(text), token) || Infix(token, lex.lower(text))))
  }

  lemma SaysIsMatch(lex: Lexicon, token: string, text: string)
    ensures WordMatches(lex, token, text) <==> Says(lex, token, text)
  {
    hide Contains, Infix;
    ContainsIsInfix(lex.lower(text), token);
    ContainsIsInfix(token, lex.lower(text));
  }

  lemma SomeSays(lex: Lexicon, token: string, texts: seq<string>)
    ensures TokenMatches(lex, token, texts) <==> exists i :: 0 <= i < |texts| && Says(lex, token, texts[i])
  {
    hide WordMatches, Says;
    forall i | 0 <= i < |texts| ensures WordMatches(lex, token, texts[i]) <==> Says(lex, token, texts[i]) {
      SaysIsMatch(lex, token, texts[i]);
    }
  }

  /** A word names a pair exactly if it says the name or a further name of the pair's
      category, or in a plain category the brand at the pair's place or its slug, or the
      brand or series of a style. */
  lemma NamesPairExactly(f: Frame, t: Table, lex: Lexicon, token: string, p: nat)
    requires f.Valid() && Partition(t) && p < t.pairCount
    ensures var c := CategoryOfPair(t, p);
            NamesPair(f, t, lex, token, p) <==>
            || Says(lex, token, c.name)
            || (exists i :: 0 <= i < |lex.aliases(c)| && Says(lex, token, lex.aliases(c)[i]))
            || (&& !c.Styled() && Place(t, p) < |f.brands| && Place(t, p) < |lex.slugs|
                && (Says(lex, token, f.brands[Place(t, p)]) || Says(lex, token, lex.slugs[Place(t, p)])))
            || (&& c.Styled()
                && exists k :: 0 <= k < |c.styles.value|
                     && (Says(lex, token, c.styles.value[k].brand) || Says(lex, token, c.styles.value[k].series)))
  {
    hide TokenMatches, Says, Partition, Place;
    var c := CategoryOfPair(t, p);
    NamedByName(lex, token, c);
    if Place(t, p) < |f.brands| && Place(t, p) < |lex.slugs| {
      EitherSays(lex, token, f.brands[Place(t, p)], lex.slugs[Place(t, p)]);
    }
    if c.Styled() {
      forall k | 0 <= k < |c.styles.value|
        ensures TokenMatches(lex, token, [c.styles.value[k].brand, c.styles.value[k].series]) <==>
                Says(lex, token, c.styles.value[k].brand) || Says(lex, token, c.styles.value[k].series)
      {
        EitherSays(lex, token, c.styles.value[k].brand, c.styles.value[k].series);
      }
    }
  }

  lemma NamedByName(lex: Lexicon, token: string, c: Category)
    ensures NamesCategory(lex, token, c) <==>
            Says(lex, token, c.name) || exists i :: 0 <= i < |lex.aliases(c)| && Says(lex, token, lex.aliases(c)[i])
  {
    hide Says, TokenMatches;
    var texts := [c.name] + lex.aliases(c);
    SomeSays(lex, token, texts);
    assert texts[0] == c.name && forall i :: 0 <= i < |lex.aliases(c)| ==> texts[i + 1] == lex.aliases(c)[i];
  }

  lemma EitherSays(lex: Lexicon, token: string, x: string, y: string)
    ensures TokenMatches(lex, token, [x, y]) <==> Says(lex, token, x) || Says(lex, token, y)
  {
    hide Says, TokenMatches;
    SomeSays(lex, token, [x, y]);
    assert [x, y][0] == x && [x, y][1] == y;
  }

  /** And a series exactly if it says the series' word. */
  lemma NamesSeriesExactly(f: Frame, lex: Lexicon, token: string, r: nat)
    ensures NamesSeries(f, lex, token, r) <==> r < |f.seriesWords| && Says(lex, token, f.seriesWords[r])
  {
    hide Says, TokenMatches;
    if r < |f.seriesWords| {
      SomeSays(lex, token, [f.seriesWords[r]]);
      assert [f.seriesWords[r]][0] == f.seriesWords[r];
    }
  }
}
