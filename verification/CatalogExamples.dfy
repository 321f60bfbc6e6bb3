/** Two concrete catalogs. A proposal that validation accepts and search misjudges: its
    attribute is called like the brand key, so the minted item shows the attribute's
    value there while the loops test the brand. And a brand word that picks a pair of
    another brand. */
module CatalogExamples {
  import opened Wrappers
  import opened Catalog
  import opened Minting
  import L = MintLog
  import S = Storefront
  import Search
  import SearchExact
  import P = TokenPlan

  const VARIANTS := ["a", "b", "c", "d"]

  const TAXONOMY := [Category("c", "n", "", FALLBACK_DOMAIN, [], "k", VARIANTS, None, None)]

  const PROPOSAL := Proposal("u", "", FALLBACK_DOMAIN, [Attribute(BRAND_KEY, ["v"])], "k", VARIANTS, 500, None)

  function Naming(): Frame {
    Frame(seq(BRAND_COUNT, i requires 0 <= i < BRAND_COUNT => [('A' as int + i) as char]), seq(SERIES_COUNT, _ => "s"),
          s => s, (_, _) => 0, (_, _, _) => 0, _ => 0, _ => 0)
  }

  /** One plain static category, room for one minted one. */
  function World(): L.World { L.World(Naming(), BLANKS, Static(TAXONOMY), 1) }

  const LABELS := [L.Propose(1, "r", PROPOSAL, "", false)]

  /** What the proposal becomes. */
  function Minted(): Category {
    Category(L.DynId(1), "u", "", FALLBACK_DOMAIN, [Attribute(BRAND_KEY, ["v"])], "k", VARIANTS, Some(500), None)
  }

  lemma TrimmedTexts()
    ensures Trim(BLANKS, "") == "" && Trim(BLANKS, "u") == "u" && Trim(BLANKS, "k") == "k" && Trim(BLANKS, "v") == "v"
    ensures Trim(BLANKS, BRAND_KEY) == BRAND_KEY && |BRAND_KEY| == 2
  {
    ExampleText();
    assert BRAND_KEY == ['品', '牌'];
  }

  lemma Accepted(domains: set<string>)
    requires FALLBACK_DOMAIN in domains
    ensures Acceptable(BLANKS, domains, PROPOSAL)
  {
    hide Trim, Compact;
    TrimmedTexts();
    ExampleVariants('a');
    ExampleVariants('b');
    ExampleVariants('c');
    ExampleVariants('d');
    assert TrimAll(BLANKS, ["v"]) == ["v"];
    assert BRAND_KEY != "k" by { assert |BRAND_KEY| != |"k"|; }
    assert forall i :: 0 <= i < 4 ==>
      Trim(BLANKS, VARIANTS[i]) == VARIANTS[i] && Compact(BLANKS, VARIANTS[i]) == VARIANTS[i];
  }

  lemma NormalizedIsMinted()
    ensures Normalized(BLANKS, PROPOSAL, L.DynId(1)) == Minted()
  {
    hide Trim, L.DynId;
    TrimmedTexts();
    assert TrimAll(BLANKS, ["v"]) == ["v"];
    assert TrimAttributes(BLANKS, PROPOSAL.attributes) == PROPOSAL.attributes;
  }

  lemma GoodWorld()
    ensures S.GoodBuiltin(World(), TAXONOMY) && World().builtin.pairCount == BRAND_COUNT
    ensures forall c :: c in TAXONOMY ==> SearchExact.WellNamed(c)
  {
    assert BRAND_KEY != "k" by { assert |BRAND_KEY| != |"k"|; }
    assert SERIES_KEY != "k" by { assert |SERIES_KEY| != |"k"|; }
    StaticSize(TAXONOMY);
  }

  lemma MintedRegistrable()
    ensures Registrable(World().frame, World().builtin, Minted())
    ensures FindName(World().frame, World().builtin.categories, "u").None?
  {
    assert |L.DynId(1)| >= 4;
    assert "c" != L.DynId(1) by { assert |"c"| == 1; }
    assert BRAND_KEY != "k" by { assert |BRAND_KEY| != |"k"|; }
    assert "n"[0] != "u"[0];
  }

  /** One proposal on the static catalog: accepted, committed and live. */
  lemma Committed()
    ensures L.Run(World(), LABELS).live == Some(Append(World().builtin, Minted()))
  {
    hide Trim, Acceptable, Registrable, Append, Normalized, Static, L.DynId, L.Arguments, L.Source;
    var start := L.Mint([], map[], Some(World().builtin));
    assert L.Run(World(), []) == start;
    assert LABELS[..0] == [];
    TrimmedTexts();
    Accepted(L.Domains(World().builtin.categories));
    NormalizedIsMinted();
    MintedRegistrable();
  }

  /** The first index of the minted category. */
  function FirstIndex(): nat { Compose(World().builtin.modelsPerPair, BRAND_COUNT, 0, 0) }

  /** On the catalog this run leaves live, the query for the value the item shows wants
      it, and the loops pass it over. */
  lemma AcceptedYetMisjudged()
    ensures var t := Append(World().builtin, Minted());
            var q := SearchExact.Probe(t, [Search.Filter(BRAND_KEY, {"v"})]);
            && S.LiveAfter(World(), LABELS, t)
            && FirstIndex() < t.totalSkus && Search.Ready(World().frame, t, q) && Listed(t, FirstIndex())
            && SearchExact.Wanted(World().frame, t, q, FirstIndex())
            && !SearchExact.Hit(World().frame, t, q, FirstIndex())
            && forall lex :: P.PlannedFor(World().frame, t, lex, [], q)
  {
    hide L.Run, Registrable, SearchExact.Wanted, SearchExact.Hit, Search.Ready;
    hide Partition, WellFormed, SearchExact.Served, SearchExact.Probe, P.PlannedFor;
    Committed();
    GoodWorld();
    var t := Append(World().builtin, Minted());
    S.LiveIsGood(World(), TAXONOMY, LABELS, t);
    ItemShows(t);
    SearchExact.ProbeWants(World().frame, t, FirstIndex(), BRAND_KEY);
    NotFound(t);
    var filters := [Search.Filter(BRAND_KEY, {"v"})];
    forall lex ensures P.PlannedFor(World().frame, t, lex, [], SearchExact.Probe(t, filters)) {
      SearchExact.ProbePlanned(World().frame, t, lex, filters);
    }
  }

  lemma FirstPair(t: Table)
    requires t == Append(World().builtin, Minted()) && SearchExact.Served(World().frame, t)
    ensures FirstIndex() < t.totalSkus && Listed(t, FirstIndex())
    ensures Decompose(t.modelsPerPair, FirstIndex()) == (BRAND_COUNT, 0, 0)
    ensures BRAND_COUNT < t.pairCount && CategoryOfPair(t, BRAND_COUNT) == Minted()
  {
    GoodWorld();
    StaticSize(TAXONOMY);
    DecomposeOfCompose(t.modelsPerPair, BRAND_COUNT, 0, 0);
    ComposeOfDecompose(t.modelsPerPair, t.pairCount, FirstIndex());
    SearchExact.ServedListed(World().frame, t, FirstIndex());
  }

  lemma ItemShows(t: Table)
    requires t == Append(World().builtin, Minted()) && SearchExact.Served(World().frame, t)
    ensures FirstIndex() < t.totalSkus && Listed(t, FirstIndex())
    ensures Decompose(t.modelsPerPair, FirstIndex()) == (BRAND_COUNT, 0, 0)
    ensures var item := Describe(World().frame, CategoryOfPair(t, BRAND_COUNT), BRAND_COUNT, 0, 0);
            item.Some? && BRAND_KEY in item.value.attributes && item.value.attributes[BRAND_KEY] == "v"
  {
    hide Partition, L.DynId, Append;
    FirstPair(t);
    var c := Minted();
    var base := SearchExact.BaseAttributes(c, SlotStyle(World().frame, c, BRAND_COUNT, 0).value, 0);
    assert Assign(c, base, 0, 1) == Assign(c, base, 0, 0)[BRAND_KEY := Vocabulary(c.attributes[0], 0, 0)];
    SearchExact.DescribedAttributes(World().frame, c, BRAND_COUNT, 0, 0);
  }

  lemma NotFound(t: Table)
    requires t == Append(World().builtin, Minted()) && SearchExact.Served(World().frame, t)
    ensures var q := SearchExact.Probe(t, [Search.Filter(BRAND_KEY, {"v"})]);
            && Listed(t, FirstIndex()) && Search.Ready(World().frame, t, q)
            && !SearchExact.Hit(World().frame, t, q, FirstIndex())
  {
    hide Partition, L.DynId, Append, Search.SlotOk, Search.ChecksPass, Search.VariantOk;
    FirstPair(t);
    SearchExact.ProbeReady(World().frame, t, [Search.Filter(BRAND_KEY, {"v"})]);
    SearchExact.ProbeRefused(World().frame, t, Minted(), BRAND_COUNT, 0, 0, BRAND_KEY, "v", FirstIndex());
  }

  // --- a brand word ---------------------------------------------------------------------

  const STYLED := Category("x", "x", "", FALLBACK_DOMAIN, [], "k", VARIANTS, Some(500), Some([Style("y", "z")]))

  const PLAIN := Category("p", "p", "", FALLBACK_DOMAIN, [], "k", VARIANTS, Some(500), None)

  lemma BothRegistrable()
    ensures Registrable(Naming(), Static(TAXONOMY), STYLED)
    ensures Registrable(Naming(), Append(Static(TAXONOMY), STYLED), PLAIN)
  {
    hide Partition;
    StaticSize(TAXONOMY);
    assert "c"[0] != "x"[0] && "n"[0] != "x"[0] && "c"[0] != "p"[0] && "n"[0] != "p"[0] && "x"[0] != "p"[0];
  }

  /** After one styled category is minted, the word for the first brand picks in the next
      plain category a pair whose items carry the second brand. */
  lemma BrandWordPicksAnother(model: nat)
    ensures var t := RegisterAll(Naming(), Static(TAXONOMY), [STYLED, PLAIN]);
            && Partition(t) && BRAND_COUNT + 1 < t.pairCount
            && CategoryOfPair(t, BRAND_COUNT + 1) == PLAIN && P.Place(t, BRAND_COUNT + 1) == 0
            && SlotStyle(Naming(), PLAIN, BRAND_COUNT + 1, model).Some?
            && SlotStyle(Naming(), PLAIN, BRAND_COUNT + 1, model).value.brand == Naming().brands[1]
            && Naming().brands[1] != Naming().brands[0]
  {
    hide Registrable, Partition;
    BothRegistrable();
    var both := [STYLED, PLAIN];
    assert both[..1] == [STYLED] && [STYLED][..0] == [];
    var t0 := Static(TAXONOMY);
    var t := Append(Append(t0, STYLED), PLAIN);
    assert RegisterAll(Naming(), t0, [STYLED]) == Append(t0, STYLED);
    assert RegisterAll(Naming(), t0, both) == t;
    StaticPartition(TAXONOMY);
    AppendPartition(t0, STYLED);
    AppendPartition(Append(t0, STYLED), PLAIN);
    assert t.pairCategory[BRAND_COUNT + 1] == 2 && t.pairStart[2] == BRAND_COUNT + 1;
    assert Naming().brands[1] == "B" && Naming().brands[0] == "A";
  }
}
