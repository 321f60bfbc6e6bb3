/** The minted catalog behind search and checkout: what any run of the mint log
    guarantees to a query, and to a quote made before the catalog grew. */
module Storefront {
  import opened Wrappers
  import opened Catalog
  import opened Minting
  import L = MintLog
  import P = TokenPlan
  import Search
  import SearchExact
  import Paging
  import M = CommerceModel
  import H = CommerceHistory
  import CommerceStock
  import Sku

  // --- what committed rows look like ------------------------------------------------

  /** Attribute names differ, every attribute has a value, a style matrix is not empty. */
  ghost predicate WellMade(c: Category) {
    && (forall i, j :: 0 <= i < j < |c.attributes| ==> c.attributes[i].name != c.attributes[j].name)
    && (forall i :: 0 <= i < |c.attributes| ==> c.attributes[i].values != [])
    && c.styles != Some([])
  }

  ghost predicate RowsWellMade(rows: seq<L.Row>) {
    forall i :: 0 <= i < |rows| ==> WellMade(rows[i].category)
  }

  lemma ProposeWellMade(w: L.World, s: L.Mint, owner: int, key: string, p: Proposal, source: string, dies: bool)
    requires s.live.Some? && RowsWellMade(s.rows)
    ensures RowsWellMade(L.ProposeStep(w, s, s.live.value, owner, key, p, source, dies).0.rows)
  {
    hide Trim, Acceptable, L.RowFits, L.Envelope, L.Arguments, L.Source, WellMade, Normalized;
    var t := s.live.value;
    var s' := L.ProposeStep(w, s, t, owner, key, p, source, dies).0;
    if s'.rows != s.rows {
      L.AcceptablePrice(w.rules, L.Domains(t.categories), p);
      NormalizedWellMade(w.rules, L.Domains(t.categories), p, L.DynId(L.MaxSeq(s.rows) + 1), t);
      assert s'.rows == s.rows + [L.NextRow(w, s.rows, p)];
    }
  }

  lemma NormalizedWellMade(r: Rules, domains: set<string>, p: Proposal, id: string, t: Table)
    requires Acceptable(r, domains, p)
    ensures p.basePrice >= 0 && WellMade(Normalized(r, p, id))
  {
    AcceptedShape(r, domains, p, id, t);
  }

  /** Every row any run commits is well made. */
  lemma {:induction false} RunWellMade(w: L.World, labels: seq<L.Label>)
    ensures RowsWellMade(L.Run(w, labels).rows)
  {
    if labels != [] {
      hide L.ProposeStep, L.Load, RowsWellMade;
      RunWellMade(w, labels[..|labels| - 1]);
      var s := L.Run(w, labels[..|labels| - 1]);
      match labels[|labels| - 1]
      case Propose(owner, key, p, source, dies) =>
        if s.live.Some? { ProposeWellMade(w, s, owner, key, p, source, dies); }
      case _ =>
    } else {
      assert L.Run(w, labels).rows == [];
    }
  }

  // --- the live catalog ---------------------------------------------------------------

  /** The built-in table is the static one of a taxonomy the constructor accepts, with
      values for every attribute and no style matrix larger than a pair. */
  ghost predicate GoodBuiltin(w: L.World, taxonomy: seq<Category>) {
    && w.frame.Valid() && taxonomy != [] && w.builtin == Static(taxonomy)
    && forall c :: c in taxonomy ==> WellFormed(c) && Search.Fits(w.builtin, c)
  }

  /** The catalog any run leaves live. */
  ghost predicate LiveAfter(w: L.World, labels: seq<L.Label>, t: Table) {
    L.Run(w, labels).live == Some(t)
  }

  lemma {:induction false} RebuiltGridded(w: L.World, rows: seq<L.Row>)
    requires P.Gridded(w.builtin)
    ensures P.Gridded(L.Rebuilt(w, rows))
  {
    hide Partition, L.Loadable;
    if rows != [] {
      var front := rows[..|rows| - 1];
      RebuiltGridded(w, front);
      AppendPartition(L.Rebuilt(w, front), rows[|rows| - 1].category);
      P.Sizes(L.Rebuilt(w, front));
    }
  }

  lemma MintedWellFormed(w: L.World, c: Category)
    requires WellMade(c) && L.Loadable(w, c)
    ensures WellFormed(c) && (c.styles.Some? ==> |c.styles.value| <= w.builtin.modelsPerPair)
  {
  }

  /** Every category of a rebuilt catalog is static or a loadable row's. */
  lemma RebuiltFrom(w: L.World, rows: seq<L.Row>, c: Category)
    requires c in L.Rebuilt(w, rows).categories
    ensures c in w.builtin.categories || exists j :: 0 <= j < |rows| && rows[j].category == c && L.Loadable(w, c)
  {
    hide L.Loadable, L.Rebuilt;
    L.RebuiltHolds(w, rows);
    L.RebuiltAllLoadable(w, rows);
    var t := L.Rebuilt(w, rows);
    var i :| 0 <= i < |t.categories| && t.categories[i] == c;
    if i < |w.builtin.categories| {
      assert w.builtin.categories[i] == c;
    } else {
      var j :| 0 <= j < |rows| && t.categories[i] == rows[j].category;
      assert rows[j].category == c;
    }
  }

  /** Over any run the live catalog is partitioned, on the brand grid, and all its
      categories are well formed and fit their pairs. */
  lemma LiveIsGood(w: L.World, taxonomy: seq<Category>, labels: seq<L.Label>, t: Table)
    requires GoodBuiltin(w, taxonomy) && LiveAfter(w, labels, t)
    ensures P.Gridded(t) && SearchExact.Served(w.frame, t)
  {
    hide L.Run, L.Rebuilt, WellFormed, P.Gridded, WellMade, L.Loadable, Partition;
    P.StaticGridded(taxonomy);
    L.Reachable(w, labels);
    RunWellMade(w, labels);
    var rows := L.Run(w, labels).rows;
    RebuiltGridded(w, rows);
    L.RebuiltHolds(w, rows);
    assert Partition(t) by { P.GridRanges(t); }
    forall c | c in t.categories ensures WellFormed(c) && Search.Fits(t, c) {
      RebuiltFrom(w, rows, c);
      if c !in w.builtin.categories {
        MintedWellFormed(w, c);
      }
    }
  }

  // --- search ------------------------------------------------------------------------------

  /** No proposal along the run used a reserved key for an attribute or the variant. */
  ghost predicate NoReserved(rows: seq<L.Row>) {
    forall i, a :: 0 <= i < |rows| && 0 <= a < |rows[i].category.attributes| ==>
      rows[i].category.attributes[a].name != BRAND_KEY && rows[i].category.attributes[a].name != SERIES_KEY
  }

  ghost predicate NoReservedVariant(rows: seq<L.Row>) {
    forall i :: 0 <= i < |rows| ==>
      rows[i].category.variantKey != BRAND_KEY && rows[i].category.variantKey != SERIES_KEY
  }

  lemma LiveIsWellNamed(w: L.World, labels: seq<L.Label>, t: Table)
    requires LiveAfter(w, labels, t)
    requires forall c :: c in w.builtin.categories ==> SearchExact.WellNamed(c)
    requires NoReserved(L.Run(w, labels).rows) && NoReservedVariant(L.Run(w, labels).rows)
    ensures forall c :: c in t.categories ==> SearchExact.WellNamed(c)
  {
    hide L.Run, L.Rebuilt, L.Loadable;
    L.Reachable(w, labels);
    RunWellMade(w, labels);
    var rows := L.Run(w, labels).rows;
    forall c | c in t.categories ensures SearchExact.WellNamed(c) {
      RebuiltFrom(w, rows, c);
      if c !in w.builtin.categories {
        var j :| 0 <= j < |rows| && rows[j].category == c;
        assert WellMade(rows[j].category);
      }
    }
  }

  /** After any run of proposals, retries, deaths and restarts a planned query is ready.
      If its pairs' items show what the loops test, its pages list, in order, a prefix of
      exactly the items the query describes; each holds every text term. */
  lemma SearchAfterMinting(w: L.World, taxonomy: seq<Category>, labels: seq<L.Label>, t: Table, lex: P.Lexicon,
                           tokens: seq<string>, q: Search.Query, size: nat, k: nat)
    requires GoodBuiltin(w, taxonomy) && LiveAfter(w, labels, t)
    requires Partition(t) && P.PlannedFor(w.frame, t, lex, tokens, q)
    requires 0 < size <= Paging.MAX_PAGE_SIZE
    ensures Search.Ready(w.frame, t, q)
    ensures SearchExact.HonestFor(w.frame, t, q) && Paging.Follow(Search.Found(w.frame, t, q), size, k).Some? ==>
              Paging.PagesUpTo(Search.Found(w.frame, t, q), size, k) <= SearchExact.Matches(w.frame, t, q, t.totalSkus)
    ensures forall n: nat :: n in SearchExact.Matches(w.frame, t, q, t.totalSkus) ==>
              Listed(t, n) && P.TextOk(t, lex, P.TextTerms(w.frame, t, lex, tokens), n)
  {
    hide L.Run, Search.Found, SearchExact.Matches, WellFormed, Search.Fits, P.Gridded, Partition, P.TextOk, Listed;
    hide P.Survives, P.PlansSeries, P.TextTerms, Paging.Follow, Paging.PagesUpTo, SearchExact.HonestFor;
    LiveIsGood(w, taxonomy, labels, t);
    P.PlannedIsReady(w.frame, t, lex, tokens, P.Plan(q.pairs, q.seriesIds, []), q);
    SearchExact.MatchesExactly(w.frame, t, q, t.totalSkus);
    if SearchExact.HonestFor(w.frame, t, q) && Paging.Follow(Search.Found(w.frame, t, q), size, k).Some? {
      Paging.PagesListMatches(w.frame, t, q, size, k);
    }
  }

  /** On the catalog any run leaves live, every query words and filters give is exact if and only if every item
      shows what the loops test; names as `WellNamed` asks, static and minted, suffice. */
  lemma LiveSearchExactly(w: L.World, taxonomy: seq<Category>, labels: seq<L.Label>, t: Table,
                          lex: P.Lexicon)
    requires GoodBuiltin(w, taxonomy) && LiveAfter(w, labels, t)
    ensures SearchExact.Served(w.frame, t)
    ensures (forall tokens, q :: P.PlannedFor(w.frame, t, lex, tokens, q) ==> SearchExact.StreamExact(w.frame, t, q))
            <==> forall n: nat :: n < t.totalSkus && Listed(t, n) ==> SearchExact.HonestAt(w.frame, t, n)
    ensures (forall c :: c in taxonomy ==> SearchExact.WellNamed(c))
            && NoReserved(L.Run(w, labels).rows) && NoReservedVariant(L.Run(w, labels).rows) ==>
              forall q :: SearchExact.StreamExact(w.frame, t, q)
  {
    hide L.Run, SearchExact.StreamExact, SearchExact.HonestAt, SearchExact.WellNamed, P.Gridded, Listed, WellFormed;
    hide NoReserved, NoReservedVariant, SearchExact.Served, Search.Fits, P.PlannedFor;
    LiveIsGood(w, taxonomy, labels, t);
    SearchExact.SearchExactly(w.frame, t, lex);
    if (forall c :: c in taxonomy ==> SearchExact.WellNamed(c))
       && NoReserved(L.Run(w, labels).rows) && NoReservedVariant(L.Run(w, labels).rows)
    {
      LiveIsWellNamed(w, labels, t);
      forall q ensures SearchExact.StreamExact(w.frame, t, q) {
        NamedStream(w.frame, t, q);
      }
    }
  }

  lemma NamedStream(f: Frame, t: Table, q: Search.Query)
    requires forall c :: c in t.categories ==> SearchExact.WellNamed(c)
    ensures SearchExact.StreamExact(f, t, q)
  {
    hide SearchExact.WellNamed, SearchExact.HonestFor, Search.Ready, SearchExact.PlanHits, SearchExact.Matches;
    if Search.Ready(f, t, q) {
      SearchExact.WellNamedHonestFor(f, t, q);
      SearchExact.StreamIsMatches(f, t, q);
    }
  }

  // --- checkout ----------------------------------------------------------------------------------

  /** The price of an index as `materialize` gives it; none where it raises. */
  ghost function PriceAt(f: Frame, t: Table, n: nat): Option<nat>
    requires f.Valid()
  {
    if Listed(t, n) && ItemAt(f, t, n).described.Some? then Some(ItemAt(f, t, n).price) else None
  }

  /** The catalog as checkout sees it. */
  ghost function ShelfOf(f: Frame, t: Table): M.Shelf
    requires f.Valid()
  {
    M.Shelf(t.totalSkus, (n: nat) => PriceAt(f, t, n))
  }

  lemma ParseGrows(r: Sku.TextRules, total: nat, more: nat, text: string)
    requires total <= more && Sku.ParseSkuId(r, total, text).Some?
    ensures Sku.ParseSkuId(r, more, text) == Sku.ParseSkuId(r, total, text)
    ensures Sku.ParseSkuId(r, total, text).value < total
  {
  }

  /** At any two moments of a run with a process live, a line that could be bought at
      its quoted price on the earlier catalog still can on the later one: minting and
      restarting never spoil an open quote. */
  lemma MintingKeepsQuotes(w: L.World, taxonomy: seq<Category>, labels: seq<L.Label>, k: nat,
                           before: Table, after: Table, m: M.Market, deltas: seq<M.Delta>, line: M.Line)
    requires GoodBuiltin(w, taxonomy) && k <= |labels|
    requires LiveAfter(w, labels[..k], before) && LiveAfter(w, labels, after)
    requires H.StillOffered(m, ShelfOf(w.frame, before), deltas, line)
    ensures H.StillOffered(m, ShelfOf(w.frame, after), deltas, line)
  {
    hide L.Run, Sku.ParseSkuId, M.Sum, L.Rebuilt, Listed, ItemAt, Partition;
    StaticPartition(taxonomy);
    L.Reachable(w, labels[..k]);
    L.Reachable(w, labels);
    L.RunRowsGrow(w, labels, k);
    L.LogsExtend(w, L.Run(w, labels[..k]).rows, L.Run(w, labels).rows);
    ParseGrows(m.rules, before.totalSkus, after.totalSkus, line.sku);
    var n := Sku.ParseSkuId(m.rules, before.totalSkus, line.sku).value;
    L.SkusKeepMeaning(w, labels, k, n);
  }

  /** What the run theorems call a market, as the catalog computes it. */
  function MarketOf(f: Frame, rules: Sku.TextRules, quoteTtl: nat): M.Market {
    M.Market(rules, n => BaseAvailability(f, n), n => MaxOrderQuantity(f, n), quoteTtl)
  }

  /** What a search for goods in stock finds can be bought: given the present stock rows,
      checkout's validation takes one unit of anything with an eight-digit index the loops list. */
  lemma InStockIsSellable(f: Frame, t: Table, q: Search.Query, rules: Sku.TextRules, quoteTtl: nat,
                          deltas: seq<M.Delta>, n: nat)
    requires Sku.Faithful(rules) && Search.Ready(f, t, q) && q.inStock && n < Sku.LIMIT
    requires n in Search.Found(f, t, q) && q.delta(n) == M.Sum(deltas, Sku.SkuId(n))
    ensures CommerceStock.Sellable(MarketOf(f, rules, quoteTtl), ShelfOf(f, t), deltas,
                                   [M.Selection(Sku.SkuId(n), 1)], 0)
  {
    hide M.Sum, Sku.SkuId, Sku.ParseSkuId, Search.Ready, Search.Found, Listed, UnitPrice, SearchExact.Hit;
    SearchExact.FoundIsHit(f, t, q, n);
    HitIsStocked(f, t, q, n);
    Sku.ParseOfSkuId(rules, t.totalSkus, n);
  }

  /** An index the loops take has an item, and with stock asked for, stock. */
  lemma HitIsStocked(f: Frame, t: Table, q: Search.Query, n: nat)
    requires Search.Ready(f, t, q) && Listed(t, n) && SearchExact.Hit(f, t, q, n)
    ensures ItemAt(f, t, n).described.Some?
    ensures q.inStock ==> BaseAvailability(f, n) + q.delta(n) > 0
  {
    hide Describe, Search.Lookup, Search.ChecksPass, Search.KeysKnown, UnitPrice, Search.PriceOk;
    var (pair, model, variant) := Decompose(t.modelsPerPair, n);
    SearchExact.DescribedIffStyled(f, CategoryOfPair(t, pair), pair, model, variant);
  }
}
