/** The durable log of minted categories (core.py, `propose_category` and
    `load_dynamic_categories`) and the in-memory catalog rebuilt from it. The mint
    lock makes each proposal one step; a process may die after its commit. */
module MintLog {
  import opened Wrappers
  import opened Digits
  import opened Catalog
  import opened Minting

  /** A row of `dynamic_categories`. */
  datatype Row = Row(category: Category, normalized: string, seqNo: nat)

  /** The digest of the arguments is taken to be injective, so the arguments and the
      source query stand for it. Keys of other operations live in the same table. */
  datatype MintReceipt = Minted(owner: int, arguments: Proposal, source: string, id: string) | OtherOperation

  const MAX_SOURCE := 200

  /** What is hashed: fields as validated, attributes as sent. */
  function Arguments(r: Rules, p: Proposal): Proposal {
    p.(name := Trim(r, p.name), description := Trim(r, p.description), variantKey := Trim(r, p.variantKey),
       styles := match p.styles case None => None case Some(styles) => Some(TrimStyles(r, styles)))
  }

  /** `source_query.strip()[:200]` */
  function Source(r: Rules, source: string): string {
    var s := Trim(r, source);
    if |s| > MAX_SOURCE then s[..MAX_SOURCE] else s
  }

  /** The category those arguments describe. */
  function FromArguments(r: Rules, a: Proposal, id: string): Category
    requires a.basePrice >= 0
  {
    Category(id, a.name, a.description, a.domain, TrimAttributes(r, a.attributes), a.variantKey, a.variantValues,
             Some(a.basePrice), a.styles)
  }

  lemma ArgumentsDescribe(r: Rules, p: Proposal, id: string)
    requires p.basePrice >= 0
    ensures FromArguments(r, Arguments(r, p), id) == Normalized(r, p, id)
  {
    hide Trim, TrimStyles, TrimAttributes;
  }

  /** `live` is the running process's catalog, none while no process runs. */
  datatype Mint = Mint(rows: seq<Row>, receipts: map<string, MintReceipt>, live: Option<Table>)

  datatype World = World(frame: Frame, rules: Rules, builtin: Table, limit: nat)

  datatype Reply = NewCategory(category: Category) | Existing(category: Category) | Refused | Conflicting | NoReply

  datatype Label =
    | Propose(owner: int, key: string, proposal: Proposal, source: string, dies: bool)
    | OtherMutation(key: string)
    | Die
    | Restart

  function DynId(n: nat): string { "dyn_" + Padded(n, 4) }

  function Categories(rows: seq<Row>): seq<Category> {
    seq(|rows|, i requires 0 <= i < |rows| => rows[i].category)
  }

  /** `COALESCE(MAX(seq), 0)` */
  function MaxSeq(rows: seq<Row>): nat {
    if rows == [] then 0
    else
      var m := MaxSeq(rows[..|rows| - 1]);
      if rows[|rows| - 1].seqNo > m then rows[|rows| - 1].seqNo else m
  }

  /** The fixed frame: domains of the published categories, and the fallback. */
  function Domains(cs: seq<Category>): set<string> {
    (set c | c in cs :: c.domain) + {FALLBACK_DOMAIN}
  }

  /** The unique columns of the table: key, normalized name and number. */
  predicate RowFits(rows: seq<Row>, row: Row) {
    forall i :: 0 <= i < |rows| ==>
      rows[i].category.id != row.category.id && rows[i].normalized != row.normalized && rows[i].seqNo != row.seqNo
  }

  function NextRow(w: World, rows: seq<Row>, p: Proposal): Row
    requires p.basePrice >= 0
  {
    var n := MaxSeq(rows) + 1;
    Row(Normalized(w.rules, p, DynId(n)), w.frame.normalize(Trim(w.rules, p.name)), n)
  }

  /** The answer and catalog after a commit or a replay: register unless registered. */
  function Envelope(w: World, t: Table, c: Category): (Table, Reply) {
    var found := FindName(w.frame, t.categories, c.name);
    if found.Some? && found.value.id == c.id then (t, NewCategory(found.value))
    else if Registrable(w.frame, t, c) then (Append(t, c), NewCategory(c))
    else (t, Refused)
  }

  /** `propose_category` while a process runs with catalog `t`. */
  function ProposeStep(w: World, s: Mint, t: Table, owner: int, key: string, p: Proposal, source: string, dies: bool)
    : (Mint, Reply)
  {
    if owner <= 0 || !Acceptable(w.rules, Domains(t.categories), p) then (s, Refused)
    else if key in s.receipts then
      match s.receipts[key]
      case OtherOperation => (s, Conflicting)
      case Minted(o, a, src, id) =>
        if o != owner || a != Arguments(w.rules, p) || src != Source(w.rules, source) then (s, Conflicting)
        else
          var (t', reply) := Envelope(w, t, Normalized(w.rules, p, id));
          (s.(live := Some(t')), reply)
    else
      var found := FindName(w.frame, t.categories, Trim(w.rules, p.name));
      if found.Some? then (s, Existing(found.value))
      else if |s.rows| >= w.limit then (s, Refused)
      else
        var row := NextRow(w, s.rows, p);
        if !RowFits(s.rows, row) then (s, Conflicting)
        else
          var committed := s.(rows := s.rows + [row],
                              receipts := s.receipts[key := Minted(owner, Arguments(w.rules, p),
                                                                   Source(w.rules, source), row.category.id)]);
          if dies then (committed.(live := None), NoReply)
          else
            var (t', reply) := Envelope(w, t, row.category);
            (committed.(live := Some(t')), reply)
  }

  /** `load_dynamic_categories` into a fresh catalog; none if registration raises. */
  function Load(w: World, t: Table, rows: seq<Row>): Option<Table>
    decreases |rows|
  {
    if rows == [] then Some(t)
    else if FindName(w.frame, t.categories, rows[0].category.name).Some? then Load(w, t, rows[1..])
    else if Registrable(w.frame, t, rows[0].category) then Load(w, Append(t, rows[0].category), rows[1..])
    else None
  }

  function Step(w: World, s: Mint, l: Label): Mint {
    match l
    case Propose(owner, key, p, source, dies) =>
      if s.live.None? then s else ProposeStep(w, s, s.live.value, owner, key, p, source, dies).0
    case OtherMutation(key) => if key in s.receipts then s else s.(receipts := s.receipts[key := OtherOperation])
    case Die => s.(live := None)
    case Restart => s.(live := Load(w, w.builtin, s.rows))
  }

  function Run(w: World, labels: seq<Label>): Mint {
    if labels == [] then Mint([], map[], Some(w.builtin))
    else Step(w, Run(w, labels[..|labels| - 1]), labels[|labels| - 1])
  }

  // --- the invariant --------------------------------------------------------------

  /** Rows are numbered 1..k without gaps, named and keyed accordingly, new by name. */
  ghost predicate RowsInv(w: World, rows: seq<Row>) {
    && |rows| <= w.limit
    && (forall i :: 0 <= i < |rows| ==> RowAt(w, rows[i], i + 1))
    && (forall i, j :: 0 <= i < j < |rows| ==> rows[i].normalized != rows[j].normalized)
    && (forall i, j :: 0 <= i < |rows| && 0 <= j < |w.builtin.categories| ==>
          rows[i].normalized != w.frame.normalize(w.builtin.categories[j].name))
  }

  ghost predicate RowAt(w: World, row: Row, n: nat) {
    && row.seqNo == n && row.category.id == DynId(n)
    && row.normalized == w.frame.normalize(row.category.name)
  }

  /** Registration takes the row on top of the static catalog. */
  predicate Loadable(w: World, c: Category) {
    && ShapeOk(w.builtin, c)
    && forall j :: 0 <= j < |w.builtin.categories| ==> w.builtin.categories[j].id != c.id
  }

  /** The catalog holding exactly the loadable rows, in their order. */
  function Rebuilt(w: World, rows: seq<Row>): Table {
    if rows == [] then w.builtin
    else
      var t := Rebuilt(w, rows[..|rows| - 1]);
      var c := rows[|rows| - 1].category;
      if Loadable(w, c) then Append(t, c) else t
  }

  /** The receipt's arguments are what row `i` was made from. */
  ghost predicate MintedAt(w: World, s: Mint, r: MintReceipt, i: int) {
    && r.Minted? && 0 <= i < |s.rows| && r.arguments.basePrice >= 0
    && s.rows[i].category == FromArguments(w.rules, r.arguments, r.id)
  }

  ghost predicate ReceiptsInv(w: World, s: Mint) {
    forall k :: k in s.receipts && s.receipts[k].Minted? ==> exists i :: MintedAt(w, s, s.receipts[k], i)
  }

  ghost predicate MintInv(w: World, s: Mint) {
    && RowsInv(w, s.rows)
    && ReceiptsInv(w, s)
    && (s.live.Some? ==> s.live.value == Rebuilt(w, s.rows))
  }

  /** The rebuilt catalog's categories: the static ones, then loadable rows. */
  lemma {:induction false} RebuiltHolds(w: World, rows: seq<Row>)
    ensures var t := Rebuilt(w, rows);
            && w.builtin.categories <= t.categories && t.modelsPerPair == w.builtin.modelsPerPair
            && (forall i :: |w.builtin.categories| <= i < |t.categories| ==>
                  exists j :: 0 <= j < |rows| && t.categories[i] == rows[j].category)
            && (forall j :: 0 <= j < |rows| && Loadable(w, rows[j].category) ==> rows[j].category in t.categories)
  {
    hide Loadable;
    if rows != [] {
      var front := rows[..|rows| - 1];
      RebuiltHolds(w, front);
      var t := Rebuilt(w, rows);
      forall i | |w.builtin.categories| <= i < |t.categories|
        ensures exists j :: 0 <= j < |rows| && t.categories[i] == rows[j].category
      {
        if i < |Rebuilt(w, front).categories| {
          var j :| 0 <= j < |front| && Rebuilt(w, front).categories[i] == front[j].category;
          assert rows[j].category == t.categories[i];
        } else {
          assert t.categories[i] == rows[|rows| - 1].category;
        }
      }
      forall j | 0 <= j < |rows| && Loadable(w, rows[j].category) ensures rows[j].category in t.categories {
        if j < |front| { assert front[j] == rows[j]; }
      }
    }
  }

  /** A category new by id and name is registrable on the rebuilt catalog exactly if loadable. */
  lemma RegistrableIsLoadable(w: World, rows: seq<Row>, c: Category)
    requires forall i :: 0 <= i < |rows| ==> rows[i].category.id != c.id
    requires FindName(w.frame, Rebuilt(w, rows).categories, c.name).None?
    ensures Registrable(w.frame, Rebuilt(w, rows), c) <==> Loadable(w, c)
  {
    RebuiltHolds(w, rows);
    var t := Rebuilt(w, rows);
    assert forall j :: 0 <= j < |w.builtin.categories| ==> t.categories[j] == w.builtin.categories[j];
  }

  lemma DynIdInjective(a: nat, b: nat)
    requires DynId(a) == DynId(b)
    ensures a == b
  {
    assert DynId(a)[4..] == Padded(a, 4) && DynId(b)[4..] == Padded(b, 4);
    PaddedInjective(a, b, 4);
  }

  lemma {:induction false} MaxSeqIsCount(w: World, rows: seq<Row>)
    requires forall i :: 0 <= i < |rows| ==> RowAt(w, rows[i], i + 1)
    ensures MaxSeq(rows) == |rows|
  {
    if rows != [] {
      MaxSeqIsCount(w, rows[..|rows| - 1]);
    }
  }

  /** A row already in the log under this name keeps the name out of the log again. */
  lemma NameInCatalog(w: World, rows: seq<Row>, name: string)
    requires RowsInv(w, rows) && FindName(w.frame, Rebuilt(w, rows).categories, name).None?
    ensures forall j :: 0 <= j < |w.builtin.categories| ==>
              w.frame.normalize(w.builtin.categories[j].name) != w.frame.normalize(name)
  {
    RebuiltHolds(w, rows);
    var t := Rebuilt(w, rows);
    assert forall j :: 0 <= j < |w.builtin.categories| ==> t.categories[j] == w.builtin.categories[j];
  }

  /** Answering for a committed row leaves the rebuilt catalog of a log ending in, or holding, it. */
  lemma EnvelopeOfLogged(w: World, rows: seq<Row>, i: nat)
    requires RowsInv(w, rows) && i < |rows|
    ensures Envelope(w, Rebuilt(w, rows), rows[i].category).0 == Rebuilt(w, rows)
    ensures Envelope(w, Rebuilt(w, rows), rows[i].category).1 ==
            if Loadable(w, rows[i].category) then NewCategory(rows[i].category) else Refused
  {
    hide ShapeOk;
    var t := Rebuilt(w, rows);
    var c := rows[i].category;
    RebuiltHolds(w, rows);
    var found := FindName(w.frame, t.categories, c.name);
    assert RowAt(w, rows[i], i + 1);
    if found.Some? {
      SameNameSameRow(w, rows, i, found.value);
      if !Loadable(w, c) { UnloadableAbsent(w, rows, i); }
    } else {
      UnregistrableWhenAbsent(w, rows, i);
    }
  }

  lemma SameNameSameRow(w: World, rows: seq<Row>, i: nat, c: Category)
    requires RowsInv(w, rows) && i < |rows| && c in Rebuilt(w, rows).categories
    requires w.frame.normalize(c.name) == w.frame.normalize(rows[i].category.name)
    ensures c == rows[i].category
  {
    RebuiltHolds(w, rows);
    var t := Rebuilt(w, rows);
    assert RowAt(w, rows[i], i + 1);
    var k :| 0 <= k < |t.categories| && t.categories[k] == c;
    assert forall j :: 0 <= j < |w.builtin.categories| ==> t.categories[j] == w.builtin.categories[j];
    if k >= |w.builtin.categories| {
      var j :| 0 <= j < |rows| && t.categories[k] == rows[j].category;
      assert RowAt(w, rows[j], j + 1);
    }
  }

  lemma {:induction false} UnloadableAbsent(w: World, rows: seq<Row>, i: nat)
    requires RowsInv(w, rows) && i < |rows| && !Loadable(w, rows[i].category)
    ensures rows[i].category !in Rebuilt(w, rows).categories
  {
    RebuiltAllLoadable(w, rows);
    var t := Rebuilt(w, rows);
    assert RowAt(w, rows[i], i + 1);
    RebuiltHolds(w, rows);
    assert forall j :: 0 <= j < |w.builtin.categories| ==> t.categories[j] == w.builtin.categories[j];
  }

  lemma {:induction false} RebuiltAllLoadable(w: World, rows: seq<Row>)
    ensures forall k :: |w.builtin.categories| <= k < |Rebuilt(w, rows).categories| ==>
        Loadable(w, Rebuilt(w, rows).categories[k])
  {
    hide Loadable;
    if rows != [] {
      RebuiltAllLoadable(w, rows[..|rows| - 1]);
    }
  }

  lemma UnregistrableWhenAbsent(w: World, rows: seq<Row>, i: nat)
    requires RowsInv(w, rows) && i < |rows|
    requires FindName(w.frame, Rebuilt(w, rows).categories, rows[i].category.name).None?
    ensures !Loadable(w, rows[i].category) && !Registrable(w.frame, Rebuilt(w, rows), rows[i].category)
  {
    RebuiltHolds(w, rows);
    var c := rows[i].category;
    var t := Rebuilt(w, rows);
    assert Loadable(w, c) ==> c in t.categories;
    assert forall j :: 0 <= j < |w.builtin.categories| ==> t.categories[j] == w.builtin.categories[j];
  }

  // --- one step ---------------------------------------------------------------------

  /** A new row under a name the catalog does not know keeps the log in order. */
  lemma CommitKeeps(w: World, rows: seq<Row>, p: Proposal)
    requires RowsInv(w, rows) && |rows| < w.limit && p.basePrice >= 0
    requires FindName(w.frame, Rebuilt(w, rows).categories, Trim(w.rules, p.name)).None?
    requires RowFits(rows, NextRow(w, rows, p))
    ensures RowsInv(w, rows + [NextRow(w, rows, p)])
    ensures var c := NextRow(w, rows, p).category;
            && Envelope(w, Rebuilt(w, rows), c).0 == Rebuilt(w, rows + [NextRow(w, rows, p)])
            && Envelope(w, Rebuilt(w, rows), c).1 == if Loadable(w, c) then NewCategory(c) else Refused
  {
    hide Trim, Loadable, Registrable;
    var row := NextRow(w, rows, p);
    MaxSeqIsCount(w, rows);
    NameInCatalog(w, rows, row.category.name);
    var rows' := rows + [row];
    assert RowAt(w, row, |rows| + 1);
    assert rows'[..|rows'| - 1] == rows;
    forall i | 0 <= i < |rows'| ensures RowAt(w, rows'[i], i + 1) {
      assert i < |rows| ==> RowAt(w, rows[i], i + 1);
    }
    RegistrableIsLoadable(w, rows, row.category);
  }

  /** The keys of a new row can only be taken by name: its number and id are always free. */
  lemma OnlyNamesCollide(w: World, rows: seq<Row>, p: Proposal)
    requires RowsInv(w, rows) && p.basePrice >= 0
    ensures RowFits(rows, NextRow(w, rows, p)) <==>
            forall i :: 0 <= i < |rows| ==> rows[i].normalized != NextRow(w, rows, p).normalized
  {
    hide Trim;
    MaxSeqIsCount(w, rows);
    var row := NextRow(w, rows, p);
    forall i | 0 <= i < |rows| ensures rows[i].category.id != row.category.id && rows[i].seqNo != row.seqNo {
      assert RowAt(w, rows[i], i + 1);
      if DynId(i + 1) == DynId(|rows| + 1) { DynIdInjective(i + 1, |rows| + 1); }
    }
  }

  lemma ProposeKeeps(w: World, s: Mint, owner: int, key: string, p: Proposal, source: string, dies: bool)
    requires MintInv(w, s) && s.live.Some?
    ensures MintInv(w, ProposeStep(w, s, s.live.value, owner, key, p, source, dies).0)
    ensures s.rows <= ProposeStep(w, s, s.live.value, owner, key, p, source, dies).0.rows
  {
    hide Trim, Acceptable, Loadable, RowFits, Rebuilt, RowsInv, Envelope, Arguments, Source;
    var t := s.live.value;
    var s' := ProposeStep(w, s, t, owner, key, p, source, dies).0;
    if s' != s {
      assert p.basePrice >= 0 by { AcceptablePrice(w.rules, Domains(t.categories), p); }
      if key in s.receipts {
        var i :| MintedAt(w, s, s.receipts[key], i);
        ArgumentsDescribe(w.rules, p, s.receipts[key].id);
        EnvelopeOfLogged(w, s.rows, i);
      } else {
        ArgumentsDescribe(w.rules, p, NextRow(w, s.rows, p).category.id);
        RowsBelow(w, s.rows);
        CommitKeeps(w, s.rows, p);
        forall k | k in s'.receipts && s'.receipts[k].Minted? ensures exists i :: MintedAt(w, s', s'.receipts[k], i) {
          if k == key {
            assert MintedAt(w, s', s'.receipts[k], |s.rows|);
          } else {
            var i :| MintedAt(w, s, s.receipts[k], i);
            assert MintedAt(w, s', s'.receipts[k], i);
          }
        }
      }
    }
  }

  /** Repeating a committed request, even after mints and restarts, gives the answer
      its own row decides, and changes nothing. */
  lemma RetryIsStable(w: World, s: Mint, owner: int, key: string, p: Proposal, source: string, dies: bool)
    requires MintInv(w, s) && s.live.Some? && owner > 0
    requires Acceptable(w.rules, Domains(s.live.value.categories), p)
    requires key in s.receipts && s.receipts[key].Minted?
    requires var r := s.receipts[key];
             r.owner == owner && r.arguments == Arguments(w.rules, p) && r.source == Source(w.rules, source)
    ensures exists i :: MintedAt(w, s, s.receipts[key], i)
              && ProposeStep(w, s, s.live.value, owner, key, p, source, dies)
                 == (s, if Loadable(w, s.rows[i].category) then NewCategory(s.rows[i].category) else Refused)
  {
    hide Trim, Acceptable, Loadable, RowFits, Rebuilt, RowsInv, Envelope, Arguments, Source;
    AcceptablePrice(w.rules, Domains(s.live.value.categories), p);
    var i :| MintedAt(w, s, s.receipts[key], i);
    ArgumentsDescribe(w.rules, p, s.receipts[key].id);
    EnvelopeOfLogged(w, s.rows, i);
    assert MintedAt(w, s, s.receipts[key], i);
  }

  /** An acceptable proposal under a used key, exactly: it is a conflict, changing nothing,
      if and only if the key belongs to another operation or owner or to other arguments or
      another source. */
  lemma UsedKeyExactly(w: World, s: Mint, owner: int, key: string, p: Proposal, source: string, dies: bool)
    requires MintInv(w, s) && s.live.Some? && owner > 0 && key in s.receipts
    requires Acceptable(w.rules, Domains(s.live.value.categories), p)
    ensures var (s', reply) := ProposeStep(w, s, s.live.value, owner, key, p, source, dies);
            var r := s.receipts[key];
            && s' == s
            && (reply == Conflicting <==>
                  r.OtherOperation? || r.owner != owner || r.arguments != Arguments(w.rules, p)
                  || r.source != Source(w.rules, source))
  {
    hide Trim, Acceptable, Rebuilt, RowFits, Envelope, Arguments, Source, Normalized, MintInv, Loadable;
    var r := s.receipts[key];
    if r.Minted? {
      AcceptablePrice(w.rules, Domains(s.live.value.categories), p);
      if r.owner == owner && r.arguments == Arguments(w.rules, p) && r.source == Source(w.rules, source) {
        RetryIsStable(w, s, owner, key, p, source, dies);
      }
    }
  }

  /** The texts agree in their first `n` characters, and on where they end before that. */
  ghost predicate AgreeUpTo(x: string, y: string, n: nat) {
    && (|x| < n || |y| < n ==> |x| == |y|)
    && forall i :: 0 <= i < n && i < |x| && i < |y| ==> x[i] == y[i]
  }

  lemma CutsAgree(x: string, y: string, n: nat)
    ensures (if |x| > n then x[..n] else x) == (if |y| > n then y[..n] else y) <==> AgreeUpTo(x, y, n)
  {
    var a, b := if |x| > n then x[..n] else x, if |y| > n then y[..n] else y;
    assert forall i :: 0 <= i < |a| ==> a[i] == x[i];
    assert forall i :: 0 <= i < |b| ==> b[i] == y[i];
  }

  /** Sources count as one exactly if, trimmed, they agree in their first two hundred characters. */
  lemma SourcesAlikeExactly(r: Rules, a: string, b: string)
    ensures Source(r, a) == Source(r, b) <==> AgreeUpTo(Trim(r, a), Trim(r, b), 200)
  {
    hide Trim, AgreeUpTo;
    CutsAgree(Trim(r, a), Trim(r, b), 200);
  }

  /** A proposal may use the domain of any published category, or "general", and no other. */
  lemma DomainsExactly(cs: seq<Category>, domain: string)
    ensures domain in Domains(cs) <==> domain == "general" || exists c :: c in cs && c.domain == domain
  {
  }

  /** The live catalog has a category of this name. */
  ghost predicate NameTaken(w: World, t: Table, name: string) {
    exists c :: c in t.categories && w.frame.normalize(c.name) == w.frame.normalize(name)
  }

  /** A row of the log has this name; the catalog need not know it. */
  ghost predicate NameLogged(w: World, rows: seq<Row>, name: string) {
    exists i :: 0 <= i < |rows| && rows[i].normalized == w.frame.normalize(name)
  }

  /** An acceptable proposal under a new key, exactly: it is answered with an existing
      category if and only if one in the catalog has its name, and then that category has;
      it is a conflict if and only if only the log has the name; it is committed if and
      only if nobody has and there is room. */
  lemma NewProposalExactly(w: World, s: Mint, owner: int, key: string, p: Proposal, source: string, dies: bool)
    requires MintInv(w, s) && s.live.Some? && owner > 0 && key !in s.receipts
    requires Acceptable(w.rules, Domains(s.live.value.categories), p)
    ensures var (s', reply) := ProposeStep(w, s, s.live.value, owner, key, p, source, dies);
            var t, name := s.live.value, Trim(w.rules, p.name);
            && (reply.Existing? <==> NameTaken(w, t, name))
            && (reply.Existing? ==>
                  s' == s && reply.category in t.categories
                  && w.frame.normalize(reply.category.name) == w.frame.normalize(name))
            && (reply == Conflicting <==> !NameTaken(w, t, name) && |s.rows| < w.limit && NameLogged(w, s.rows, name))
            && (s'.rows != s.rows <==> !NameTaken(w, t, name) && |s.rows| < w.limit && !NameLogged(w, s.rows, name))
            && (s'.rows != s.rows ==>
                  |s'.rows| == |s.rows| + 1 && s'.rows[|s.rows|].normalized == w.frame.normalize(name))
  {
    hide Trim, Acceptable, Rebuilt, RowFits, Envelope, Arguments, Source, Normalized;
    AcceptablePrice(w.rules, Domains(s.live.value.categories), p);
    OnlyNamesCollide(w, s.rows, p);
    NeverConflicts(w, s.live.value, NextRow(w, s.rows, p).category);
  }

  lemma NeverConflicts(w: World, t: Table, c: Category)
    ensures Envelope(w, t, c).1 != Conflicting && !Envelope(w, t, c).1.Existing?
  {
    hide Registrable, Append;
  }

  lemma AcceptablePrice(r: Rules, domains: set<string>, p: Proposal)
    requires Acceptable(r, domains, p)
    ensures p.basePrice >= 0
  {
  }

  lemma RowsBelow(w: World, rows: seq<Row>)
    requires RowsInv(w, rows)
    ensures |rows| <= w.limit
  {
  }

  // --- loading ----------------------------------------------------------------------------

  /** Loading the rest of a log on top of what its beginning built. */
  lemma {:induction false} LoadFrom(w: World, rows: seq<Row>, k: nat)
    requires RowsInv(w, rows) && k <= |rows|
    requires forall i :: 0 <= i < k ==> Loadable(w, rows[i].category)
    ensures Load(w, Rebuilt(w, rows[..k]), rows[k..]) ==
            if forall i :: 0 <= i < |rows| ==> Loadable(w, rows[i].category) then Some(Rebuilt(w, rows)) else None
    decreases |rows| - k
  {
    hide Loadable, Registrable, Rebuilt;
    if k == |rows| {
      assert rows[..k] == rows;
    } else {
      RowNotYetIn(w, rows, k);
      assert rows[k..][1..] == rows[k + 1..] && rows[k..][0] == rows[k];
      if Loadable(w, rows[k].category) {
        RebuiltStep(w, rows, k);
        LoadFrom(w, rows, k + 1);
      }
    }
  }

  lemma RebuiltStep(w: World, rows: seq<Row>, k: nat)
    requires k < |rows| && Loadable(w, rows[k].category)
    ensures Rebuilt(w, rows[..k + 1]) == Append(Rebuilt(w, rows[..k]), rows[k].category)
  {
    assert rows[..k + 1][..k] == rows[..k];
  }

  lemma RowNotYetIn(w: World, rows: seq<Row>, k: nat)
    requires RowsInv(w, rows) && k < |rows|
    ensures FindName(w.frame, Rebuilt(w, rows[..k]).categories, rows[k].category.name).None?
    ensures Registrable(w.frame, Rebuilt(w, rows[..k]), rows[k].category) <==> Loadable(w, rows[k].category)
  {
    var front := rows[..k];
    var t := Rebuilt(w, front);
    var c := rows[k].category;
    RebuiltHolds(w, front);
    assert RowAt(w, rows[k], k + 1);
    forall i | 0 <= i < |t.categories| ensures w.frame.normalize(t.categories[i].name) != w.frame.normalize(c.name) {
      if i < |w.builtin.categories| {
        assert t.categories[i] == w.builtin.categories[i];
      } else {
        var j :| 0 <= j < |front| && t.categories[i] == front[j].category;
        assert RowAt(w, rows[j], j + 1);
      }
    }
    forall i | 0 <= i < |front| ensures front[i].category.id != c.id {
      assert RowAt(w, rows[i], i + 1);
      if DynId(i + 1) == DynId(k + 1) { DynIdInjective(i + 1, k + 1); }
    }
    RegistrableIsLoadable(w, front, c);
  }

  /** A restart succeeds exactly if every committed row is loadable, and then
      rebuilds the catalog that registering the rows one by one had built. */
  lemma ReloadExactly(w: World, rows: seq<Row>)
    requires RowsInv(w, rows)
    ensures Load(w, w.builtin, rows) ==
            if forall i :: 0 <= i < |rows| ==> Loadable(w, rows[i].category) then Some(Rebuilt(w, rows)) else None
  {
    LoadFrom(w, rows, 0);
    assert rows[..0] == [] && rows[0..] == rows;
  }

  // --- every run -----------------------------------------------------------------------------

  lemma StepKeeps(w: World, s: Mint, l: Label)
    requires MintInv(w, s)
    ensures MintInv(w, Step(w, s, l)) && s.rows <= Step(w, s, l).rows
  {
    hide Load, ProposeStep, Rebuilt, RowsInv;
    match l
    case Propose(owner, key, p, source, dies) =>
      if s.live.Some? { ProposeKeeps(w, s, owner, key, p, source, dies); }
    case OtherMutation(key) => SameRows(w, s, Step(w, s, l));
    case Die => SameRows(w, s, Step(w, s, l));
    case Restart =>
      SameRows(w, s, Step(w, s, l));
      ReloadExactly(w, s.rows);
  }

  lemma SameRows(w: World, s: Mint, t: Mint)
    requires ReceiptsInv(w, s) && t.rows == s.rows
    requires forall k :: k in t.receipts && t.receipts[k].Minted? ==> k in s.receipts && s.receipts[k] == t.receipts[k]
    ensures ReceiptsInv(w, t)
  {
    forall k | k in t.receipts && t.receipts[k].Minted? ensures exists i :: MintedAt(w, t, t.receipts[k], i) {
      var i :| MintedAt(w, s, s.receipts[k], i);
      assert MintedAt(w, t, t.receipts[k], i);
    }
  }

  lemma {:induction false} Reachable(w: World, labels: seq<Label>)
    ensures MintInv(w, Run(w, labels))
  {
    if labels != [] {
      hide MintInv, Step;
      Reachable(w, labels[..|labels| - 1]);
      StepKeeps(w, Run(w, labels[..|labels| - 1]), labels[|labels| - 1]);
    } else {
      assert Run(w, labels).rows == [];
    }
  }

  /** Over any run of proposals, retries, deaths and restarts: numbers run 1..k with k
      within the limit, normalized names never repeat, and a running catalog is the
      built-in one followed by exactly the committed loadable rows in order; a restart
      now would succeed exactly if all rows are loadable, with that same catalog. */
  lemma LogReplay(w: World, labels: seq<Label>)
    ensures var s := Run(w, labels);
            && |s.rows| <= w.limit
            && (forall i :: 0 <= i < |s.rows| ==> RowAt(w, s.rows[i], i + 1))
            && (forall i, j :: 0 <= i < j < |s.rows| ==> s.rows[i].normalized != s.rows[j].normalized)
            && (s.live.Some? ==> s.live.value == Rebuilt(w, s.rows))
            && Step(w, s, Restart).live ==
               if forall i :: 0 <= i < |s.rows| ==> Loadable(w, s.rows[i].category)
               then Some(Rebuilt(w, s.rows)) else None
  {
    hide Rebuilt, Load, Loadable, Run, ReceiptsInv, ProposeStep;
    Reachable(w, labels);
    ReloadExactly(w, Run(w, labels).rows);
  }

  /** When all rows are loadable the dynamic categories are exactly the rows. */
  lemma {:induction false} RebuiltExactly(w: World, rows: seq<Row>)
    requires forall i :: 0 <= i < |rows| ==> Loadable(w, rows[i].category)
    ensures Rebuilt(w, rows).categories == w.builtin.categories + Categories(rows)
    ensures Partition(w.builtin) ==> Partition(Rebuilt(w, rows)) && Extends(w.builtin, Rebuilt(w, rows))
  {
    hide Loadable, Partition;
    if rows == [] {
      assert Categories(rows) == [];
    } else {
      var front := rows[..|rows| - 1];
      RebuiltExactly(w, front);
      assert Categories(rows) == Categories(front) + [rows[|rows| - 1].category];
      if Partition(w.builtin) {
        AppendPartition(Rebuilt(w, front), rows[|rows| - 1].category);
        AppendExtends(Rebuilt(w, front), rows[|rows| - 1].category);
      }
    }
  }

  /** A longer log only extends the catalog a shorter one rebuilds, so every SKU
      index keeps its meaning across mints and restarts. */
  lemma {:induction false} LogsExtend(w: World, short: seq<Row>, rows: seq<Row>)
    requires Partition(w.builtin) && short <= rows
    ensures Partition(Rebuilt(w, rows)) && Partition(Rebuilt(w, short))
    ensures Extends(Rebuilt(w, short), Rebuilt(w, rows))
    decreases |rows|
  {
    hide Partition, Loadable;
    if rows == [] {
    } else {
      var front := rows[..|rows| - 1];
      if |short| == |rows| {
        assert short == rows;
        LogsExtend(w, front, front);
      } else {
        assert short <= front;
        LogsExtend(w, short, front);
      }
      AppendPartition(Rebuilt(w, front), rows[|rows| - 1].category);
      AppendExtends(Rebuilt(w, front), rows[|rows| - 1].category);
    }
  }

  lemma {:induction false} RunRowsGrow(w: World, labels: seq<Label>, k: nat)
    requires k <= |labels|
    ensures Run(w, labels[..k]).rows <= Run(w, labels).rows
  {
    if k < |labels| {
      hide Step, MintInv;
      var front := labels[..|labels| - 1];
      Reachable(w, front);
      StepKeeps(w, Run(w, front), labels[|labels| - 1]);
      RunRowsGrow(w, front, k);
      assert front[..k] == labels[..k];
    } else {
      assert labels[..k] == labels;
    }
  }

  /** At any two moments of a run at which a process is live, every index of the
      earlier catalog denotes the same item in the later one. */
  lemma SkusKeepMeaning(w: World, labels: seq<Label>, k: nat, n: nat)
    requires w.frame.Valid() && Partition(w.builtin) && k <= |labels|
    requires Run(w, labels[..k]).live.Some? && Run(w, labels).live.Some?
    requires Listed(Run(w, labels[..k]).live.value, n)
    ensures Listed(Run(w, labels).live.value, n)
    ensures ItemAt(w.frame, Run(w, labels).live.value, n) == ItemAt(w.frame, Run(w, labels[..k]).live.value, n)
  {
    hide Run, Rebuilt, Describe, UnitPrice, WellFormed;
    Reachable(w, labels[..k]);
    Reachable(w, labels);
    RunRowsGrow(w, labels, k);
    LogsExtend(w, Run(w, labels[..k]).rows, Run(w, labels).rows);
    var t := Run(w, labels[..k]).live.value;
    SameCategory(t, Run(w, labels).live.value, Decompose(t.modelsPerPair, n).0);
  }

  /** A clashing proposal commits and is refused in one answer, and no later restart succeeds. */
  lemma ClashStopsRestart(w: World, s: Mint, owner: int, key: string, p: Proposal, source: string)
    requires MintInv(w, s) && s.live.Some? && owner > 0 && key !in s.receipts && |s.rows| < w.limit
    requires Acceptable(w.rules, Domains(s.live.value.categories), p) && !NoClash(w.rules, p)
    requires FindName(w.frame, s.live.value.categories, Trim(w.rules, p.name)).None?
    requires RowFits(s.rows, NextRow(w, s.rows, p))
    ensures var (s', reply) := ProposeStep(w, s, s.live.value, owner, key, p, source, false);
            && reply == Refused && s'.rows == s.rows + [NextRow(w, s.rows, p)] && s'.live == s.live
            && forall later :: s'.rows <= later && RowsInv(w, later) ==> Load(w, w.builtin, later).None?
  {
    hide Trim, Acceptable, RowFits, Rebuilt, RowsInv, Envelope, Load, ShapeOk, NoClash, Normalized, Arguments, Source;
    AcceptablePrice(w.rules, Domains(s.live.value.categories), p);
    var row := NextRow(w, s.rows, p);
    CommitKeeps(w, s.rows, p);
    AcceptedShape(w.rules, Domains(s.live.value.categories), p, DynId(MaxSeq(s.rows) + 1), w.builtin);
    assert !Loadable(w, row.category);
    RefusedLeavesTable(w, Rebuilt(w, s.rows), s.rows, row);
    forall later | s.rows + [row] <= later && RowsInv(w, later) ensures Load(w, w.builtin, later).None? {
      ReloadExactly(w, later);
      assert later[|s.rows|] == row;
    }
  }

  lemma RefusedLeavesTable(w: World, t: Table, rows: seq<Row>, row: Row)
    requires t == Rebuilt(w, rows) && !Loadable(w, row.category)
    ensures Rebuilt(w, rows + [row]) == t
  {
    assert (rows + [row])[..|rows|] == rows;
  }
}
