/** Documents over their rows: what they must name, what they are worth, and what each accepted edit leaves. */
module DocumentRules {
  import opened Common
  import opened Stock
  import D = Documents
  import B = Books
  import Engine
  import Money
  import opened Sums

  // ------------------------------------------------------------ what a document must name

  /** A purchase is from a supplier, a sale to a customer, a transfer with nobody, an adjustment with anybody. */
  predicate PartnerFits(dir: D.Directory, docType: DocType, partner: Option<int>)
  {
    match docType
    case Incoming =>
      partner.Some? && partner.value in dir.partners && dir.partners[partner.value] in {D.Supplier, D.Both}
    case Outgoing =>
      partner.Some? && partner.value in dir.partners && dir.partners[partner.value] in {D.Customer, D.Both}
    case Adjustment => true
    case Transfer => partner.None?
  }

  /** The warehouses a draft may name so far. */
  predicate DraftPlacesFit(dir: D.Directory, docType: DocType, warehouse: Option<int>, destination: Option<int>)
  {
    && (warehouse.Some? ==> warehouse.value in dir.warehouses)
    && (destination.Some? ==> docType.Transfer? && destination.value in dir.warehouses && destination != warehouse)
  }

  /** A known warehouse, and a known other one as the destination of a transfer and of nothing else. */
  predicate PlacesFit(dir: D.Directory, content: Content)
  {
    && content.warehouse.Some? && content.warehouse.value in dir.warehouses
    && (if content.docType.Transfer?
        then content.destination.Some? && content.destination.value in dir.warehouses
             && content.destination.value != content.warehouse.value
        else content.destination.None?)
  }

  /** An active product and some quantity of it; only a count may be zero. */
  predicate LineFits(dir: D.Directory, docType: DocType, line: Line)
  {
    && line.product in dir.products && dir.products[line.product]
    && (if docType.Adjustment? then line.quantity >= 0 else line.quantity > 0)
  }

  predicate LinesFit(dir: D.Directory, docType: DocType, lines: seq<Line>)
  {
    forall i :: 0 <= i < |lines| ==> LineFits(dir, docType, lines[i])
  }

  lemma PartnerExactly(dir: D.Directory, docType: DocType, partner: Option<int>)
    ensures D.CheckPartner(dir, docType, partner).None? <==> PartnerFits(dir, docType, partner)
  {
  }

  lemma PlacesExactly(dir: D.Directory, content: Content)
    ensures D.CheckReferences(dir, content).None?
       <==> DraftPlacesFit(dir, content.docType, content.warehouse, content.destination)
    ensures D.CheckWarehouses(dir, content).None? <==> PlacesFit(dir, content)
  {
  }

  lemma LineExactly(dir: D.Directory, docType: DocType, line: Line)
    ensures D.CheckLine(dir, docType, line).None? <==> LineFits(dir, docType, line)
  {
  }

  lemma {:induction false} LinesExactly(dir: D.Directory, docType: DocType, lines: seq<Line>)
    ensures D.CheckLines(dir, docType, lines).None? <==> LinesFit(dir, docType, lines)
  {
    if |lines| > 0 {
      var n := |lines| - 1;
      LinesExactly(dir, docType, lines[..n]);
      LineExactly(dir, docType, lines[n]);
      if LinesFit(dir, docType, lines) {
        forall i | 0 <= i < n ensures LineFits(dir, docType, lines[..n][i]) {
          assert LineFits(dir, docType, lines[i]);
        }
        assert LineFits(dir, docType, lines[n]);
      }
      if LinesFit(dir, docType, lines[..n]) && LineFits(dir, docType, lines[n]) {
        forall i | 0 <= i < |lines| ensures LineFits(dir, docType, lines[i]) {
          if i < n {
            assert LineFits(dir, docType, lines[..n][i]);
          }
        }
      }
    }
  }

  /** What a document must be to be posted, or to replace a posted one. */
  predicate Fits(dir: D.Directory, content: Content)
  {
    && PartnerFits(dir, content.docType, content.partner) && PlacesFit(dir, content)
    && |content.lines| > 0 && LinesFit(dir, content.docType, content.lines)
  }

  lemma FitsExactly(dir: D.Directory, content: Content)
    ensures D.CheckBeforePost(dir, content).None? <==> Fits(dir, content)
    ensures |content.lines| > 0 ==> (D.CheckCandidate(dir, content).None? <==> Fits(dir, content))
  {
    PartnerExactly(dir, content.docType, content.partner);
    PlacesExactly(dir, content);
    LinesExactly(dir, content.docType, content.lines);
  }

  // ------------------------------------------------------------ totals

  /** A line costs quantity times price, in cents: at most half a cent off, and on a tie the even cent. */
  lemma LineTotalExactly(line: Line)
    ensures var off := 1000 * D.LineTotal(line) - line.quantity * line.price;
      -500 <= off <= 500 && (off == 500 || off == -500 ==> D.LineTotal(line) % 2 == 0)
  {
  }

  function Cents(): Line -> int
  {
    (line: Line) => RoundHalfEven(line.quantity * line.price, 1000)
  }

  lemma {:induction false} TotalIsSum(lines: seq<Line>)
    ensures D.Total(lines) == SeqSum(lines, Cents())
  {
    if |lines| > 0 {
      TotalIsSum(lines[..|lines| - 1]);
    }
  }

  function Worth(): Line -> int
  {
    (line: Line) => line.quantity * line.price
  }

  /** A document's total is off by at most half a cent a line. */
  lemma {:induction false} TotalIsClose(lines: seq<Line>)
    ensures -500 * |lines| <= 1000 * D.Total(lines) - SeqSum(lines, Worth()) <= 500 * |lines|
  {
    if |lines| > 0 {
      TotalIsClose(lines[..|lines| - 1]);
      LineTotalExactly(lines[|lines| - 1]);
    }
  }

  // ------------------------------------------------------------ drafts

  /** Only the documents of the store change, and of them only this one. */
  function WithDocument(b: B.Books, id: int, doc: D.Document): B.Books
  {
    b.(store := b.store.(docs := b.store.docs[id := doc]))
  }

  predicate IsDraft(b: B.Books, id: int)
  {
    id in b.store.docs && b.store.docs[id].status == D.Draft
  }

  lemma DraftedExactly(b: B.Books, id: int, content: Content)
    ensures B.CreateDraft(b, id, content).Ok? <==>
      && id !in b.store.docs && content.lines == []
      && PartnerFits(b.dir, content.docType, content.partner)
      && DraftPlacesFit(b.dir, content.docType, content.warehouse, content.destination)
    ensures B.CreateDraft(b, id, content).Ok? ==>
      B.CreateDraft(b, id, content).value == WithDocument(b, id, D.Document(content, D.Draft, 0, 0))
  {
    PartnerExactly(b.dir, content.docType, content.partner);
    PlacesExactly(b.dir, content);
  }

  /** The draft with these lines and their total. */
  function WithLines(b: B.Books, id: int, lines: seq<Line>): B.Books
    requires id in b.store.docs
  {
    var doc := b.store.docs[id];
    WithDocument(b, id, doc.(content := doc.content.(lines := lines), total := D.Total(lines)))
  }

  lemma LineAddedExactly(b: B.Books, id: int, line: Line)
    ensures B.AddLine(b, id, line).Ok? <==>
      IsDraft(b, id) && line.price >= 0 && LineFits(b.dir, b.store.docs[id].content.docType, line)
    ensures B.AddLine(b, id, line).Ok? ==>
      B.AddLine(b, id, line).value == WithLines(b, id, b.store.docs[id].content.lines + [line])
  {
    assert [line][0] == line;
    if id in b.store.docs {
      LineExactly(b.dir, b.store.docs[id].content.docType, line);
    }
  }

  /** The line of a draft a change makes: product and quantity stay unless they are given, the price is given. */
  predicate ChangesTo(patch: B.LinePatch, before: Line, after: Line)
  {
    && (if patch.product.Some? then after.product == patch.product.value else after.product == before.product)
    && (if patch.quantity.Some? then after.quantity == patch.quantity.value else after.quantity == before.quantity)
    && after.price == patch.price
  }

  lemma LineChangedExactly(b: B.Books, id: int, n: int, patch: B.LinePatch, line: Line)
    requires IsDraft(b, id) && 0 <= n < |b.store.docs[id].content.lines| ==>
      ChangesTo(patch, b.store.docs[id].content.lines[n], line)
    ensures B.ChangeLine(b, id, n, patch).Ok? <==>
      && IsDraft(b, id) && 0 <= n < |b.store.docs[id].content.lines|
      && line.price >= 0 && LineFits(b.dir, b.store.docs[id].content.docType, line)
    ensures B.ChangeLine(b, id, n, patch).Ok? ==>
      B.ChangeLine(b, id, n, patch).value == WithLines(b, id, b.store.docs[id].content.lines[n := line])
  {
    if id in b.store.docs {
      LineExactly(b.dir, b.store.docs[id].content.docType, line);
    }
  }

  lemma LineDeletedExactly(b: B.Books, id: int, n: int)
    ensures B.DeleteLine(b, id, n).Ok? <==> IsDraft(b, id) && 0 <= n < |b.store.docs[id].content.lines|
    ensures B.DeleteLine(b, id, n).Ok? ==>
      var lines := b.store.docs[id].content.lines;
      B.DeleteLine(b, id, n).value == WithLines(b, id, lines[..n] + lines[n + 1..])
  {
  }

  /** The content a changed header makes of a draft: what it does not give stays, and the lines are priced again. */
  predicate HeaderChangesTo(patch: B.HeaderPatch, prices: seq<int>, before: Content, after: Content)
  {
    && (if patch.docType.Some? then after.docType == patch.docType.value else after.docType == before.docType)
    && (if patch.date.Some? then after.date == patch.date.value else after.date == before.date)
    && (if patch.partner.Some? then after.partner == patch.partner.value else after.partner == before.partner)
    && (if patch.warehouse.Some? then after.warehouse == patch.warehouse.value
        else after.warehouse == before.warehouse)
    && (if patch.destination.Some? then after.destination == patch.destination.value
        else after.destination == before.destination)
    && |after.lines| == |before.lines| == |prices|
    && (forall i :: 0 <= i < |prices| ==>
          after.lines[i] == Line(before.lines[i].product, before.lines[i].quantity, prices[i]))
  }

  lemma PatchedExactly(patch: B.HeaderPatch, prices: seq<int>, before: Content, after: Content)
    requires |prices| == |before.lines| && HeaderChangesTo(patch, prices, before, after)
    ensures B.PatchedHeader(before, patch, prices) == after
  {
    assert B.Repriced(before.lines, prices) == after.lines;
  }

  lemma HeaderChangedExactly(b: B.Books, id: int, patch: B.HeaderPatch, prices: seq<int>, content: Content)
    requires IsDraft(b, id) && |prices| == |b.store.docs[id].content.lines| ==>
      HeaderChangesTo(patch, prices, b.store.docs[id].content, content)
    ensures B.ChangeHeader(b, id, patch, prices).Ok? <==>
      && IsDraft(b, id) && |prices| == |b.store.docs[id].content.lines|
      && (forall i :: 0 <= i < |prices| ==> prices[i] >= 0)
      && PartnerFits(b.dir, content.docType, content.partner)
      && DraftPlacesFit(b.dir, content.docType, content.warehouse, content.destination)
      && LinesFit(b.dir, content.docType, content.lines)
    ensures B.ChangeHeader(b, id, patch, prices).Ok? ==>
      B.ChangeHeader(b, id, patch, prices).value
      == WithDocument(b, id, b.store.docs[id].(content := content, total := D.Total(content.lines)))
  {
    if IsDraft(b, id) && |prices| == |b.store.docs[id].content.lines| {
      PatchedExactly(patch, prices, b.store.docs[id].content, content);
      PartnerExactly(b.dir, content.docType, content.partner);
      PlacesExactly(b.dir, content);
      LinesExactly(b.dir, content.docType, content.lines);
    }
  }

  lemma DraftDeletedExactly(b: B.Books, id: int)
    ensures B.DeleteDraft(b, id).Ok? <==> IsDraft(b, id)
    ensures B.DeleteDraft(b, id).Err? ==>
      B.DeleteDraft(b, id).fault == if id in b.store.docs then Conflict else NotFound
    ensures B.DeleteDraft(b, id).Ok? ==>
      var after := B.DeleteDraft(b, id).value;
      && after == b.(store := b.store.(docs := after.store.docs))
      && after.store.docs.Keys == b.store.docs.Keys - {id}
      && forall d :: d in after.store.docs ==> after.store.docs[d] == b.store.docs[d]
  {
  }

  // ------------------------------------------------------------ opening debts

  /** An opening debt: a sale when the partner owes, a purchase when we do, without lines and worth the amount. */
  predicate OpensWith(doc: D.Document, date: int, row: B.Debt)
  {
    && doc.status == D.Posted && doc.version == 0
    && doc.content == Content(if row.balance > 0 then Outgoing else Incoming, date, Some(row.partner), None, None, [])
    && doc.total == (if row.balance > 0 then row.balance else -row.balance)
  }

  predicate Matters(rows: seq<B.Debt>, i: int)
  {
    0 <= i < |rows| && rows[i].balance != 0
  }

  /** The rows that matter have ids of their own. */
  ghost predicate FreshRows(docs: map<int, D.Document>, rows: seq<B.Debt>)
  {
    && (forall i :: Matters(rows, i) ==> rows[i].id !in docs)
    && (forall i, j :: Matters(rows, i) && Matters(rows, j) && i < j ==> rows[i].id != rows[j].id)
  }

  /** The documents after the import: the old ones, and one for every row that matters. */
  ghost predicate Opened(before: map<int, D.Document>, after: map<int, D.Document>, date: int, rows: seq<B.Debt>)
  {
    && (forall d :: d in before ==> d in after && after[d] == before[d])
    && (forall i :: Matters(rows, i) ==> rows[i].id in after && OpensWith(after[rows[i].id], date, rows[i]))
    && (forall d :: d in after && d !in before ==> exists i :: Matters(rows, i) && rows[i].id == d)
  }

  lemma FreshRowsStep(docs: map<int, D.Document>, rows: seq<B.Debt>)
    requires |rows| > 0
    ensures var n := |rows| - 1;
      FreshRows(docs, rows) <==>
        && FreshRows(docs, rows[..n])
        && (Matters(rows, n) ==>
              rows[n].id !in docs && forall i :: Matters(rows[..n], i) ==> rows[i].id != rows[n].id)
  {
    var n := |rows| - 1;
    assert forall i :: Matters(rows[..n], i) <==> Matters(rows, i) && i < n;
  }

  lemma OpenedStep(before: map<int, D.Document>, now: map<int, D.Document>, date: int, rows: seq<B.Debt>,
                   after: map<int, D.Document>)
    requires |rows| > 0 && Opened(before, now, date, rows[..|rows| - 1])
    requires if rows[|rows| - 1].balance == 0 then after == now
             else rows[|rows| - 1].id !in now
                  && after == now[rows[|rows| - 1].id :=
                      B.OpeningDocument(date, rows[|rows| - 1].partner, rows[|rows| - 1].balance)]
    ensures Opened(before, after, date, rows)
  {
    var n := |rows| - 1;
    assert forall i :: Matters(rows, i) <==> Matters(rows[..n], i) || (i == n && rows[n].balance != 0);
    forall d | d in after && d !in before ensures exists i :: Matters(rows, i) && rows[i].id == d {
      if d in now {
        var i :| Matters(rows[..n], i) && rows[..n][i].id == d;
        assert Matters(rows, i);
      } else {
        assert Matters(rows, n);
      }
    }
  }

  lemma {:induction false} DebtsExactly(docs: map<int, D.Document>, date: int, rows: seq<B.Debt>)
    ensures B.ImportDebts(docs, date, rows).Ok? <==> FreshRows(docs, rows)
    ensures B.ImportDebts(docs, date, rows).Ok? ==> Opened(docs, B.ImportDebts(docs, date, rows).value, date, rows)
  {
    if |rows| > 0 {
      var n := |rows| - 1;
      DebtsExactly(docs, date, rows[..n]);
      FreshRowsStep(docs, rows);
      var now := B.ImportDebts(docs, date, rows[..n]);
      if now.Ok? {
        TakenIds(docs, now.value, date, rows[..n], rows[n].id);
        if B.ImportDebts(docs, date, rows).Ok? {
          OpenedStep(docs, now.value, date, rows, B.ImportDebts(docs, date, rows).value);
        }
      }
    }
  }

  lemma TakenIds(before: map<int, D.Document>, after: map<int, D.Document>, date: int, rows: seq<B.Debt>, id: int)
    requires Opened(before, after, date, rows)
    ensures id in after <==> id in before || exists i :: Matters(rows, i) && rows[i].id == id
  {
  }

  /** Opening debts are imported exactly when every partner is known and every id is free. */
  lemma DebtsImportedExactly(b: B.Books, date: int, rows: seq<B.Debt>)
    ensures B.ImportOpeningBalances(b, date, rows).Ok? <==>
      (forall i :: 0 <= i < |rows| ==> rows[i].partner in b.dir.partners) && FreshRows(b.store.docs, rows)
    ensures B.ImportOpeningBalances(b, date, rows).Ok? ==>
      var after := B.ImportOpeningBalances(b, date, rows).value;
      after == b.(store := b.store.(docs := after.store.docs)) && Opened(b.store.docs, after.store.docs, date, rows)
  {
    DebtsExactly(b.store.docs, date, rows);
  }

  // ------------------------------------------------------------ opening stock

  /** Counts are imported exactly when every row names a known product and warehouse and no less than nothing. */
  lemma CountsImportedExactly(b: B.Books, rows: seq<B.Count>, k: Key)
    ensures B.ImportOpeningStock(b, rows).Ok? <==>
      forall i :: 0 <= i < |rows| ==>
        rows[i].key.product in b.dir.products && rows[i].key.warehouse in b.dir.warehouses && rows[i].quantity >= 0
    ensures B.ImportOpeningStock(b, rows).Ok? ==>
      var after := B.ImportOpeningStock(b, rows).value;
      && after == b.(store := after.store) && after.store.docs == b.store.docs
      && Balance(after.store.balances, k) == Engine.LastCount(rows, k, Balance(b.store.balances, k))
  {
    if B.ImportOpeningStock(b, rows).Ok? {
      Engine.ImportedBalances(b.store, rows, k);
      Money.CountsKeepDocuments(b.store, rows);
    }
  }
}
