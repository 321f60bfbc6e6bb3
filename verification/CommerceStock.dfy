/** Sums over stock rows and order lines, and what validated lines guarantee. */
module CommerceStock {
  import opened Wrappers
  import opened CommerceModel
  import Sku

  lemma {:induction false} SumConcat(a: seq<Delta>, b: seq<Delta>, sku: string)
    ensures Sum(a + b, sku) == Sum(a, sku) + Sum(b, sku)
  {
    if b == [] {
      assert a + b == a;
    } else {
      assert (a + b)[..|a + b| - 1] == a + b[..|b| - 1];
      SumConcat(a, b[..|b| - 1], sku);
    }
  }

  /** The rows an order inserts take out exactly its lines' quantities. */
  lemma {:induction false} SumOfStockRows(lines: seq<Line>, orderId: Id, sku: string)
    ensures Sum(StockRows(lines, orderId), sku) == 0 - Quantity(lines, sku)
  {
    if lines != [] {
      var k := |lines| - 1;
      assert StockRows(lines, orderId)[..k] == StockRows(lines[..k], orderId);
      SumOfStockRows(lines[..k], orderId, sku);
    }
  }

  ghost predicate DistinctSkus(lines: seq<Line>) {
    forall i, j :: 0 <= i < j < |lines| ==> lines[i].sku != lines[j].sku
  }

  lemma {:induction false} QuantityOfAbsent(lines: seq<Line>, sku: string)
    requires forall i :: 0 <= i < |lines| ==> lines[i].sku != sku
    ensures Quantity(lines, sku) == 0
  {
    if lines != [] {
      QuantityOfAbsent(lines[..|lines| - 1], sku);
    }
  }

  lemma {:induction false} QuantityOfDistinct(lines: seq<Line>, i: nat)
    requires DistinctSkus(lines) && i < |lines|
    ensures Quantity(lines, lines[i].sku) == lines[i].quantity
  {
    var k := |lines| - 1;
    if i == k {
      QuantityOfAbsent(lines[..k], lines[i].sku);
    } else {
      QuantityOfDistinct(lines[..k], i);
    }
  }

  /** A line carries a canonical SKU of an eight-digit index. */
  ghost predicate Canonical(line: Line) {
    exists n: nat :: n < Sku.LIMIT && line.sku == Sku.SkuId(n)
  }

  ghost predicate AllCanonical(lines: seq<Line>) {
    forall i :: 0 <= i < |lines| ==> Canonical(lines[i])
  }

  /** Each validated line: parsed, described, within cap and within stock as
      seen under the caller's spelling, priced now, and renamed canonically. */
  lemma {:induction false} ValidatedAt(m: Market, shelf: Shelf, deltas: seq<Delta>, sels: seq<Selection>, i: nat)
    requires i < |sels| && ValidatedLines(m, shelf, deltas, sels).Ok?
    ensures var lines := ValidatedLines(m, shelf, deltas, sels).value;
            ValidatedLine(m, shelf, deltas, sels[..i], sels[i]) == Ok(lines[i])
  {
    hide ValidatedLine;
    var k := |sels| - 1;
    if i < k {
      ValidatedAt(m, shelf, deltas, sels[..k], i);
      assert sels[..k][..i] == sels[..i];
    }
  }

  /** The line respects its SKU's purchase cap. */
  ghost predicate WithinCap(m: Market, line: Line) {
    forall n: nat :: line.sku == Sku.SkuId(n) ==> line.quantity <= m.cap(n)
  }

  ghost predicate AllWithinCap(m: Market, lines: seq<Line>) {
    forall i :: 0 <= i < |lines| ==> WithinCap(m, lines[i])
  }

  lemma ValidatedWithinCap(m: Market, shelf: Shelf, deltas: seq<Delta>, sels: seq<Selection>)
    requires ValidatedLines(m, shelf, deltas, sels).Ok?
    ensures AllWithinCap(m, ValidatedLines(m, shelf, deltas, sels).value)
  {
    hide Sku.SkuId, Sku.ParseSkuId, Sum, ValidatedLines;
    var lines := ValidatedLines(m, shelf, deltas, sels).value;
    forall i | 0 <= i < |lines| ensures WithinCap(m, lines[i]) {
      ValidatedAt(m, shelf, deltas, sels, i);
      forall n: nat | lines[i].sku == Sku.SkuId(n) ensures lines[i].quantity <= m.cap(n) {
        Sku.SkuIdInjective(n, Sku.ParseSkuId(m.rules, shelf.total, sels[i].sku).value);
      }
    }
  }

  /** What validation asks of one selection among its predecessors. */
  ghost predicate Sellable(m: Market, shelf: Shelf, deltas: seq<Delta>, sels: seq<Selection>, i: nat)
    requires i < |sels|
  {
    var index := Sku.ParseSkuId(m.rules, shelf.total, sels[i].sku);
    && index.Some?
    && shelf.price(index.value).Some?
    && sels[i].quantity <= m.cap(index.value)
    && sels[i].quantity <= Max0(m.base(index.value) + Sum(deltas, sels[i].sku))
    && forall j :: 0 <= j < i ==> sels[j].sku != sels[i].sku
  }

  /** The line one sellable selection becomes. */
  function SoldAs(m: Market, shelf: Shelf, sel: Selection): Option<Line> {
    match Sku.ParseSkuId(m.rules, shelf.total, sel.sku)
    case None => None
    case Some(n) =>
      match shelf.price(n)
      case None => None
      case Some(price) => Some(Line(Sku.SkuId(n), sel.quantity, price))
  }

  lemma SellableLine(m: Market, shelf: Shelf, deltas: seq<Delta>, sels: seq<Selection>, i: nat)
    requires i < |sels|
    ensures var r := ValidatedLine(m, shelf, deltas, sels[..i], sels[i]);
            && (r.Ok? <==> Sellable(m, shelf, deltas, sels, i))
            && (r.Ok? ==> SoldAs(m, shelf, sels[i]) == Some(r.value))
  {
    hide Sku.SkuId, Sku.ParseSkuId, Sum;
    assert forall j :: 0 <= j < i ==> sels[..i][j] == sels[j];
  }

  /** Validation succeeds exactly if every selection is sellable and no spelling is
      repeated, and then yields one line each: canonical name, the asked quantity, the
      price now. Spellings are compared and looked up in stock as the caller wrote them. */
  lemma {:induction false} ValidationExactly(m: Market, shelf: Shelf, deltas: seq<Delta>, sels: seq<Selection>)
    ensures var r := ValidatedLines(m, shelf, deltas, sels);
            && (r.Ok? <==> forall i :: 0 <= i < |sels| ==> Sellable(m, shelf, deltas, sels, i))
            && (r.Ok? ==> forall i :: 0 <= i < |sels| ==> SoldAs(m, shelf, sels[i]) == Some(r.value[i]))
  {
    hide ValidatedLine, SoldAs, Sellable;
    if sels != [] {
      var k := |sels| - 1;
      ValidationExactly(m, shelf, deltas, sels[..k]);
      SellableLine(m, shelf, deltas, sels, k);
      forall i | 0 <= i < k
        ensures Sellable(m, shelf, deltas, sels[..k], i) <==> Sellable(m, shelf, deltas, sels, i)
      {
        SellablePrefix(m, shelf, deltas, sels, k, i);
      }
      assert forall i :: 0 <= i < k ==> sels[..k][i] == sels[i];
    }
  }

  lemma SellablePrefix(m: Market, shelf: Shelf, deltas: seq<Delta>, sels: seq<Selection>, k: nat, i: nat)
    requires i < k <= |sels|
    ensures Sellable(m, shelf, deltas, sels[..k], i) <==> Sellable(m, shelf, deltas, sels, i)
  {
    hide Sku.ParseSkuId, Sum;
    assert forall j :: 0 <= j <= i ==> sels[..k][j] == sels[j];
  }

  lemma ValidatedCanonical(m: Market, shelf: Shelf, deltas: seq<Delta>, sels: seq<Selection>)
    requires Sku.Faithful(m.rules)
    requires ValidatedLines(m, shelf, deltas, sels).Ok?
    ensures AllCanonical(ValidatedLines(m, shelf, deltas, sels).value)
    ensures forall i, j :: 0 <= i < j < |sels| ==> sels[i].sku != sels[j].sku
  {
    var lines := ValidatedLines(m, shelf, deltas, sels).value;
    forall i | 0 <= i < |lines| ensures Canonical(lines[i]) {
      ValidatedAt(m, shelf, deltas, sels, i);
      Sku.SkuIdOfParse(m.rules, shelf.total, sels[i].sku);
    }
    forall i, j | 0 <= i < j < |sels| ensures sels[i].sku != sels[j].sku {
      ValidatedAt(m, shelf, deltas, sels, j);
      assert sels[..j][i] == sels[i];
    }
  }

  ghost predicate InStock(m: Market, deltas: seq<Delta>, line: Line) {
    forall n: nat :: n < Sku.LIMIT && line.sku == Sku.SkuId(n) ==>
      line.quantity <= Max0(m.base(n) + Sum(deltas, line.sku))
  }

  lemma InStockByIndex(m: Market, deltas: seq<Delta>, line: Line, n: nat)
    requires line.sku == Sku.SkuId(n) && line.quantity <= Max0(m.base(n) + Sum(deltas, line.sku))
    ensures InStock(m, deltas, line)
  {
    forall k: nat | k < Sku.LIMIT && line.sku == Sku.SkuId(k)
      ensures line.quantity <= Max0(m.base(k) + Sum(deltas, line.sku))
    {
      Sku.SkuIdInjective(k, n);
    }
  }

  lemma ValidatedCanonicalText(m: Market, shelf: Shelf, deltas: seq<Delta>, earlier: seq<Selection>, sel: Selection)
    requires Sku.Faithful(m.rules)
    requires exists n: nat :: n < Sku.LIMIT && sel.sku == Sku.SkuId(n)
    requires ValidatedLine(m, shelf, deltas, earlier, sel).Ok?
    ensures var line := ValidatedLine(m, shelf, deltas, earlier, sel).value;
            line.sku == sel.sku && line.quantity == sel.quantity && InStock(m, deltas, line)
  {
    var n: nat :| n < Sku.LIMIT && sel.sku == Sku.SkuId(n);
    Sku.ParseOfSkuId(m.rules, shelf.total, n);
    InStockByIndex(m, deltas, ValidatedLine(m, shelf, deltas, earlier, sel).value, n);
  }

  lemma RevalidatedAt(m: Market, shelf: Shelf, deltas: seq<Delta>, stored: seq<Line>, i: nat)
    requires Sku.Faithful(m.rules)
    requires i < |stored| && Canonical(stored[i])
    requires ValidatedLines(m, shelf, deltas, Selections(stored)).Ok?
    ensures var line := ValidatedLines(m, shelf, deltas, Selections(stored)).value[i];
            line.sku == stored[i].sku && line.quantity == stored[i].quantity && InStock(m, deltas, line)
  {
    var sels := Selections(stored);
    ValidatedAt(m, shelf, deltas, sels, i);
    ValidatedCanonicalText(m, shelf, deltas, sels[..i], sels[i]);
  }

  /** Validating lines that are already canonical: names and quantities come
      back unchanged, names are distinct, and each quantity is in stock. */
  lemma Revalidated(m: Market, shelf: Shelf, deltas: seq<Delta>, stored: seq<Line>)
    requires Sku.Faithful(m.rules)
    requires AllCanonical(stored)
    requires ValidatedLines(m, shelf, deltas, Selections(stored)).Ok?
    ensures var lines := ValidatedLines(m, shelf, deltas, Selections(stored)).value;
            && |lines| == |stored|
            && DistinctSkus(lines)
            && (SamePrices(stored, lines) ==> lines == stored)
            && (forall i :: 0 <= i < |lines| ==> InStock(m, deltas, lines[i]))
  {
    var sels := Selections(stored);
    var lines := ValidatedLines(m, shelf, deltas, sels).value;
    forall i | 0 <= i < |lines|
      ensures lines[i].sku == stored[i].sku && lines[i].quantity == stored[i].quantity
      ensures InStock(m, deltas, lines[i])
    {
      RevalidatedAt(m, shelf, deltas, stored, i);
    }
    assert DistinctSkus(lines) by {
      ValidatedCanonical(m, shelf, deltas, sels);
      forall i, j | 0 <= i < j < |lines| ensures lines[i].sku != lines[j].sku {
        assert sels[i].sku == stored[i].sku && sels[j].sku == stored[j].sku;
      }
    }
    if SamePrices(stored, lines) {
      assert forall i :: 0 <= i < |lines| ==> lines[i] == stored[i];
    }
  }

  // --- amounts ----------------------------------------------------------------------------

  /** The price of every single unit, line after line. */
  function UnitPrices(lines: seq<Line>): seq<nat> {
    if lines == [] then [] else seq(lines[0].quantity, _ => lines[0].unitPrice) + UnitPrices(lines[1..])
  }

  function Total(prices: seq<nat>): nat { if prices == [] then 0 else prices[0] + Total(prices[1..]) }

  lemma {:induction false} TotalConcat(a: seq<nat>, b: seq<nat>)
    ensures Total(a + b) == Total(a) + Total(b)
  {
    if a == [] {
      assert a + b == b;
    } else {
      assert (a + b)[1..] == a[1..] + b;
      TotalConcat(a[1..], b);
    }
  }

  lemma {:induction false} TotalRepeated(price: nat, n: nat)
    ensures Total(seq(n, _ => price)) == n * price
  {
    if n > 0 {
      assert seq(n, _ => price)[1..] == seq(n - 1, _ => price);
      TotalRepeated(price, n - 1);
      assert n * price == (n - 1) * price + price;
    } else {
      assert 0 * price == 0;
    }
  }

  lemma {:induction false} UnitPricesSnoc(lines: seq<Line>, l: Line)
    ensures UnitPrices(lines + [l]) == UnitPrices(lines) + seq(l.quantity, _ => l.unitPrice)
  {
    if lines == [] {
      assert [] + [l] == [l] && [l][1..] == [];
    } else {
      assert (lines + [l])[1..] == lines[1..] + [l];
      UnitPricesSnoc(lines[1..], l);
    }
  }

  /** A subtotal charges every unit of every line its price, and nothing else. */
  lemma {:induction false} SubtotalIsTotal(lines: seq<Line>)
    ensures Subtotal(lines) == Total(UnitPrices(lines))
  {
    if lines != [] {
      var front, l := lines[..|lines| - 1], lines[|lines| - 1];
      SubtotalIsTotal(front);
      assert front + [l] == lines;
      UnitPricesSnoc(front, l);
      TotalConcat(UnitPrices(front), seq(l.quantity, _ => l.unitPrice));
      TotalRepeated(l.unitPrice, l.quantity);
    }
  }

  /** One more unit of a line costs exactly its price more. */
  lemma {:induction false} OneMoreUnit(lines: seq<Line>, i: nat)
    requires i < |lines|
    ensures Subtotal(lines[i := lines[i].(quantity := lines[i].quantity + 1)]) == Subtotal(lines) + lines[i].unitPrice
  {
    var more := lines[i := lines[i].(quantity := lines[i].quantity + 1)];
    var k := |lines| - 1;
    if i < k {
      assert more[..k] == lines[..k][i := lines[i].(quantity := lines[i].quantity + 1)];
      OneMoreUnit(lines[..k], i);
    } else {
      assert more[..k] == lines[..k];
      var l := lines[i];
      assert (l.quantity + 1) * l.unitPrice == l.quantity * l.unitPrice + l.unitPrice;
    }
  }

  /** Lines of no units cost nothing. */
  lemma {:induction false} NoUnitsCostNothing(lines: seq<Line>)
    requires forall i :: 0 <= i < |lines| ==> lines[i].quantity == 0
    ensures Subtotal(lines) == 0
  {
    if lines != [] {
      NoUnitsCostNothing(lines[..|lines| - 1]);
    }
  }

  /** The SKU of every single unit, line after line. */
  function Units(lines: seq<Line>): seq<string> {
    if lines == [] then [] else seq(lines[0].quantity, _ => lines[0].sku) + Units(lines[1..])
  }

  lemma {:induction false} RepeatedCount(sku: string, n: nat, x: string)
    ensures multiset(seq(n, _ => sku))[x] == if x == sku then n else 0
  {
    if n > 0 {
      assert seq(n, _ => sku) == seq(n - 1, _ => sku) + [sku];
      RepeatedCount(sku, n - 1, x);
    }
  }

  lemma {:induction false} UnitsSnoc(lines: seq<Line>, l: Line)
    ensures Units(lines + [l]) == Units(lines) + seq(l.quantity, _ => l.sku)
  {
    if lines == [] {
      assert [] + [l] == [l] && [l][1..] == [];
    } else {
      assert (lines + [l])[1..] == lines[1..] + [l];
      UnitsSnoc(lines[1..], l);
    }
  }

  /** A SKU's quantity in the lines is the number of units of it they name. */
  lemma {:induction false} QuantityIsUnits(lines: seq<Line>, sku: string)
    ensures Quantity(lines, sku) == multiset(Units(lines))[sku]
  {
    if lines != [] {
      var front, l := lines[..|lines| - 1], lines[|lines| - 1];
      QuantityIsUnits(front, sku);
      assert front + [l] == lines;
      UnitsSnoc(front, l);
      RepeatedCount(l.sku, l.quantity, sku);
    }
  }

  // --- why validation refuses ----------------------------------------------------------------

  /** Selection `i` is the first that cannot be sold. */
  ghost predicate FirstUnsellable(m: Market, shelf: Shelf, deltas: seq<Delta>, sels: seq<Selection>, i: nat) {
    i < |sels| && !Sellable(m, shelf, deltas, sels, i) && forall j :: 0 <= j < i ==> Sellable(m, shelf, deltas, sels, j)
  }

  /** Validation refuses for the first selection that cannot be sold: it is not found if its
      spelling names no SKU of the catalog, and rejected for any other reason. */
  lemma {:induction false} RefusedForFirst(m: Market, shelf: Shelf, deltas: seq<Delta>, sels: seq<Selection>, i: nat)
    requires FirstUnsellable(m, shelf, deltas, sels, i)
    ensures ValidatedLines(m, shelf, deltas, sels) ==
            Err(if Sku.ParseSkuId(m.rules, shelf.total, sels[i].sku).None? then NotFound else Rejected)
  {
    hide Sellable, ValidatedLine, FirstUnsellable, Sku.ParseSkuId, SoldAs;
    var k := |sels| - 1;
    assert i <= k by { UnsellableWithin(m, shelf, deltas, sels, i); }
    if i < k {
      StillFirst(m, shelf, deltas, sels, i);
      RefusedForFirst(m, shelf, deltas, sels[..k], i);
    } else {
      FrontSellable(m, shelf, deltas, sels, k);
      UnsellableLine(m, shelf, deltas, sels, k);
    }
  }

  lemma UnsellableWithin(m: Market, shelf: Shelf, deltas: seq<Delta>, sels: seq<Selection>, i: nat)
    requires FirstUnsellable(m, shelf, deltas, sels, i)
    ensures i < |sels| && !Sellable(m, shelf, deltas, sels, i)
  {
  }

  lemma StillFirst(m: Market, shelf: Shelf, deltas: seq<Delta>, sels: seq<Selection>, i: nat)
    requires FirstUnsellable(m, shelf, deltas, sels, i) && i < |sels| - 1
    ensures FirstUnsellable(m, shelf, deltas, sels[..|sels| - 1], i)
  {
    hide Sellable;
    var front := sels[..|sels| - 1];
    forall j | 0 <= j <= i ensures Sellable(m, shelf, deltas, front, j) <==> Sellable(m, shelf, deltas, sels, j) {
      SellablePrefix(m, shelf, deltas, sels, |sels| - 1, j);
    }
  }

  lemma FrontSellable(m: Market, shelf: Shelf, deltas: seq<Delta>, sels: seq<Selection>, i: nat)
    requires FirstUnsellable(m, shelf, deltas, sels, i)
    ensures i < |sels| && !Sellable(m, shelf, deltas, sels, i) && ValidatedLines(m, shelf, deltas, sels[..i]).Ok?
  {
    hide Sellable, ValidatedLines, SoldAs;
    forall j | 0 <= j < i ensures Sellable(m, shelf, deltas, sels[..i], j) {
      SellablePrefix(m, shelf, deltas, sels, i, j);
    }
    ValidationExactly(m, shelf, deltas, sels[..i]);
  }

  lemma UnsellableLine(m: Market, shelf: Shelf, deltas: seq<Delta>, sels: seq<Selection>, i: nat)
    requires i < |sels| && !Sellable(m, shelf, deltas, sels, i)
    ensures ValidatedLine(m, shelf, deltas, sels[..i], sels[i]) ==
            Err(if Sku.ParseSkuId(m.rules, shelf.total, sels[i].sku).None? then NotFound else Rejected)
  {
    hide Sku.SkuId, Sku.ParseSkuId, Sum;
    assert forall j :: 0 <= j < i ==> sels[..i][j] == sels[j];
  }
}
