/** Minting as the provider performs it: rows and receipts updated in place, and the
    live catalog object extended (core.py, `propose_category` and `load_dynamic_categories`). */
module MintStore {
  import opened Wrappers
  import opened Catalog
  import opened Minting
  import opened MintLog
  import opened VirtualCatalogs

  class MintProvider {
    const world: World
    const catalog: VirtualCatalog
    var rows: seq<Row>
    var receipts: map<string, MintReceipt>

    ghost function Snapshot(): Mint
      reads this, catalog
    {
      Mint(rows, receipts, Some(catalog.View()))
    }

    constructor (world: World, catalog: VirtualCatalog, rows: seq<Row>, receipts: map<string, MintReceipt>)
      ensures this.world == world && this.catalog == catalog && this.rows == rows && this.receipts == receipts
    {
      this.world, this.catalog, this.rows, this.receipts := world, catalog, rows, receipts;
    }

    /** Rows in order; a name the catalog already has is skipped, and a category the
        catalog refuses stops the start. */
    method LoadDynamicCategories() returns (ok: bool)
      requires catalog.frame == world.frame
      modifies catalog
      ensures match Load(world, old(catalog.View()), rows)
              case Some(t) => ok && catalog.View() == t
              case None => !ok
    {
      hide Registrable, Append, Catalog.FindName;
      for i := 0 to |rows|
        invariant Load(world, old(catalog.View()), rows) == Load(world, catalog.View(), rows[i..])
      {
        assert rows[i..][0] == rows[i] && rows[i..][1..] == rows[i + 1..];
        var twin := catalog.FindByName(rows[i].category.name);
        if twin.None? {
          var registered := catalog.RegisterDynamic(rows[i].category);
          if !registered { return false; }
        }
      }
      return true;
    }

    /** The `envelope` closure. */
    method Answer(c: Category) returns (reply: Reply)
      requires catalog.frame == world.frame
      modifies catalog
      ensures (catalog.View(), reply) == Envelope(world, old(catalog.View()), c)
    {
      hide Registrable, Append;
      var found := catalog.FindByName(c.name);
      if found.Some? && found.value.id == c.id { return NewCategory(found.value); }
      var registered := catalog.RegisterDynamic(c);
      return if registered then NewCategory(c) else Refused;
    }

    method NextNumber() returns (n: nat)
      ensures n == MaxSeq(rows) + 1
    {
      n := 0;
      for i := 0 to |rows|
        invariant n == MaxSeq(rows[..i])
      {
        assert rows[..i + 1][..i] == rows[..i];
        if rows[i].seqNo > n { n := rows[i].seqNo; }
      }
      assert rows[..|rows|] == rows;
      n := n + 1;
    }

    method Fits(row: Row) returns (fits: bool)
      ensures fits == RowFits(rows, row)
    {
      for i := 0 to |rows|
        invariant forall j :: 0 <= j < i ==>
          rows[j].category.id != row.category.id && rows[j].normalized != row.normalized && rows[j].seqNo != row.seqNo
      {
        if rows[i].category.id == row.category.id || rows[i].normalized == row.normalized
           || rows[i].seqNo == row.seqNo
        {
          return false;
        }
      }
      return true;
    }

    method Propose(owner: int, key: string, p: Proposal, source: string) returns (reply: Reply)
      requires catalog.frame == world.frame
      modifies this, catalog
      ensures (Snapshot(), reply) ==
              ProposeStep(world, old(Snapshot()), old(catalog.View()), owner, key, p, source, false)
    {
      hide Acceptable, Normalized, Registrable, Append, Catalog.FindName, Envelope, RowFits, MaxSeq, Trim, Arguments,
          Source;
      if owner <= 0 { return Refused; }
      var n := NextNumber();
      var fields := ValidateProposal(world.rules, Domains(catalog.categories), p, DynId(n));
      if fields.None? { return Refused; }
      AcceptablePrice(world.rules, Domains(catalog.categories), p);
      if key in receipts {
        var receipt := receipts[key];
        if receipt.OtherOperation? || receipt.owner != owner
           || receipt.arguments != Arguments(world.rules, p) || receipt.source != Source(world.rules, source)
        {
          return Conflicting;
        }
        reply := Answer(Normalized(world.rules, p, receipt.id));
        return;
      }
      var existing := catalog.FindByName(Trim(world.rules, p.name));
      if existing.Some? { return Existing(existing.value); }
      if |rows| >= world.limit { return Refused; }
      var row := Row(fields.value, world.frame.normalize(Trim(world.rules, p.name)), n);
      RowIsNext(row, p, n);
      var fits := Fits(row);
      if !fits { return Conflicting; }
      rows := rows + [row];
      receipts := receipts[key := Minted(owner, Arguments(world.rules, p), Source(world.rules, source),
          row.category.id)];
      reply := Answer(row.category);
    }

    lemma RowIsNext(row: Row, p: Proposal, n: nat)
      requires p.basePrice >= 0 && n == MaxSeq(rows) + 1
      requires row == Row(Normalized(world.rules, p, DynId(n)), world.frame.normalize(Trim(world.rules, p.name)), n)
      ensures row == NextRow(world, rows, p) && row.category.id == DynId(n)
    {
    }
  }
}
