/** What the line-by-line plan amounts to, stated without running it. */
module Planning {
  import opened Stock

  /** The total quantity a document asks of one product. */
  function Demand(lines: seq<Line>, product: int): int
  {
    if |lines| == 0 then 0 else
      var last := lines[|lines| - 1];
      Demand(lines[..|lines| - 1], product) + (if last.product == product then last.quantity else 0)
  }

  /** The quantity on the last line of a product, or the given quantity when there is none. */
  function LastQuantity(lines: seq<Line>, product: int, otherwise: int): int
  {
    if |lines| == 0 then otherwise else
      var last := lines[|lines| - 1];
      if last.product == product then last.quantity else LastQuantity(lines[..|lines| - 1], product, otherwise)
  }

  predicate NonnegativeLines(lines: seq<Line>)
  {
    forall i :: 0 <= i < |lines| ==> lines[i].quantity >= 0
  }

  /** Each product's whole demand is in stock at the source before the first line runs. */
  predicate InStock(lines: seq<Line>, src: int, start: map<Key, int>)
    requires Covers(start, Outgoing, src, src, lines)
  {
    forall i :: 0 <= i < |lines| ==> Demand(lines, lines[i].product) <= start[Key(lines[i].product, src)]
  }

  /** The final quantity of a balance, in closed form. */
  function Final(docType: DocType, src: int, dst: int, lines: seq<Line>, start: map<Key, int>, k: Key): int
    requires k in start
  {
    match docType
    case Incoming => start[k] + (if k.warehouse == src then Demand(lines, k.product) else 0)
    case Outgoing => start[k] - (if k.warehouse == src then Demand(lines, k.product) else 0)
    case Adjustment => if k.warehouse == src then LastQuantity(lines, k.product, start[k]) else start[k]
    case Transfer =>
      start[k] - (if k.warehouse == src then Demand(lines, k.product) else 0)
      + (if k.warehouse == dst then Demand(lines, k.product) else 0)
  }

  function FinalQuantities(docType: DocType, src: int, dst: int, lines: seq<Line>, start: map<Key, int>): map<Key, int>
  {
    map k | k in start :: Final(docType, src, dst, lines, start, k)
  }

  lemma InStockStep(lines: seq<Line>, src: int, start: map<Key, int>)
    requires |lines| > 0
    requires NonnegativeLines(lines)
    requires Covers(start, Outgoing, src, src, lines)
    ensures var last := lines[|lines| - 1];
      InStock(lines, src, start) <==>
        InStock(lines[..|lines| - 1], src, start)
        && Demand(lines[..|lines| - 1], last.product) + last.quantity <= start[Key(last.product, src)]
  {
    var n := |lines| - 1;
    var rest, last := lines[..n], lines[n];
    forall i | 0 <= i < n
      ensures rest[i] == lines[i]
      ensures Demand(rest, rest[i].product) <= Demand(lines, lines[i].product)
    {
    }
    if InStock(rest, src, start) && Demand(rest, last.product) + last.quantity <= start[Key(last.product, src)] {
      forall i | 0 <= i < |lines| ensures Demand(lines, lines[i].product) <= start[Key(lines[i].product, src)] {
        if lines[i].product != last.product {
          assert rest[i] == lines[i];
        }
      }
    }
    if InStock(lines, src, start) {
      assert Demand(lines, lines[n].product) <= start[Key(lines[n].product, src)];
      forall i | 0 <= i < n ensures Demand(rest, rest[i].product) <= start[Key(rest[i].product, src)] {
        assert Demand(lines, lines[i].product) <= start[Key(lines[i].product, src)];
      }
    }
  }

  lemma OneLine(line: Line, product: int, otherwise: int)
    ensures Demand([line], product) == if line.product == product then line.quantity else 0
    ensures LastQuantity([line], product, otherwise) == if line.product == product then line.quantity else otherwise
  {
    assert [line][..0] == [];
    assert Demand([line][..0], product) == 0;
    assert LastQuantity([line][..0], product, otherwise) == otherwise;
  }

  /** One planned line moves a balance the way one more line moves the closed form. */
  lemma PlanLineMoves(docType: DocType, src: int, dst: int, plan: Plan, line: Line, k: Key)
    requires Covers(plan.quantities, docType, src, dst, [line])
    requires docType.Transfer? ==> src != dst
    requires k in plan.quantities
    ensures var r := PlanLine(docType, src, dst, plan, line);
      r.Ok? ==> r.value.quantities[k] == Final(docType, src, dst, [line], plan.quantities, k)
  {
    OneLine(line, k.product, plan.quantities[k]);
    assert k == Key(k.product, k.warehouse);
  }

  lemma FinalExtends(docType: DocType, src: int, dst: int, lines: seq<Line>, start: map<Key, int>, now: map<Key,
                     int>, k: Key)
    requires |lines| > 0
    requires k in start && k in now
    requires now[k] == Final(docType, src, dst, lines[..|lines| - 1], start, k)
    ensures Final(docType, src, dst, [lines[|lines| - 1]], now, k) == Final(docType, src, dst, lines, start, k)
  {
    OneLine(lines[|lines| - 1], k.product, now[k]);
  }

  lemma {:induction false} PlanReachesFinalAt(docType: DocType, src: int, dst: int, lines: seq<Line>,
                                              start: map<Key, int>, k: Key)
    requires Covers(start, docType, src, dst, lines)
    requires docType.Transfer? ==> src != dst
    requires k in start
    ensures var r := PlanLines(docType, src, dst, lines, start);
      r.Ok? ==> r.value.quantities[k] == Final(docType, src, dst, lines, start, k)
  {
    if |lines| > 0 {
      var rest, line := lines[..|lines| - 1], lines[|lines| - 1];
      PlanReachesFinalAt(docType, src, dst, rest, start, k);
      var before := PlanLines(docType, src, dst, rest, start);
      if before.Ok? {
        PlanLineMoves(docType, src, dst, before.value, line, k);
        FinalExtends(docType, src, dst, lines, start, before.value.quantities, k);
      }
    }
  }

  /** Where the plan succeeds it ends at the closed form, for every balance it loaded. */
  lemma PlanReachesFinal(docType: DocType, src: int, dst: int, lines: seq<Line>, start: map<Key, int>)
    requires Covers(start, docType, src, dst, lines)
    requires docType.Transfer? ==> src != dst
    ensures var r := PlanLines(docType, src, dst, lines, start);
      r.Ok? ==> r.value.quantities == FinalQuantities(docType, src, dst, lines, start)
  {
    forall k | k in start
      ensures var r := PlanLines(docType, src, dst, lines, start);
        r.Ok? ==> r.value.quantities[k] == Final(docType, src, dst, lines, start, k)
    {
      PlanReachesFinalAt(docType, src, dst, lines, start, k);
    }
  }

  /** Shipping succeeds exactly when the whole demand was there at the start. */
  lemma {:induction false} ShipsIffInStock(docType: DocType, src: int, dst: int, lines: seq<Line>, start: map<Key, int>)
    requires docType in {Outgoing, Transfer}
    requires docType.Transfer? ==> src != dst
    requires NonnegativeLines(lines)
    requires Covers(start, docType, src, dst, lines)
    ensures PlanLines(docType, src, dst, lines, start).Ok? <==> InStock(lines, src, start)
  {
    if |lines| > 0 {
      var rest := lines[..|lines| - 1];
      ShipsIffInStock(docType, src, dst, rest, start);
      InStockStep(lines, src, start);
      PlanReachesFinal(docType, src, dst, rest, start);
    }
  }

  lemma {:induction false} ReceivesAlways(docType: DocType, src: int, dst: int, lines: seq<Line>, start: map<Key, int>)
    requires docType in {Incoming, Adjustment}
    requires Covers(start, docType, src, dst, lines)
    ensures PlanLines(docType, src, dst, lines, start).Ok?
  {
    if |lines| > 0 {
      ReceivesAlways(docType, src, dst, lines[..|lines| - 1], start);
    }
  }

  /** The plan against its aggregate specification: when it succeeds, and with what quantities. */
  lemma PlanMeetsAggregate(docType: DocType, src: int, dst: int, lines: seq<Line>, start: map<Key, int>)
    requires docType.Transfer? ==> src != dst
    requires NonnegativeLines(lines)
    requires Covers(start, docType, src, dst, lines)
    ensures var r := PlanDocument(docType, src, dst, lines, start);
      && (r.Ok? <==>
            (docType in {Outgoing, Transfer} ==> InStock(lines, src, start))
            && AllNonnegative(FinalQuantities(docType, src, dst, lines, start)))
      && (r.Ok? ==> r.value.quantities == FinalQuantities(docType, src, dst, lines, start))
  {
    PlanReachesFinal(docType, src, dst, lines, start);
    if docType in {Outgoing, Transfer} {
      ShipsIffInStock(docType, src, dst, lines, start);
    } else {
      ReceivesAlways(docType, src, dst, lines, start);
    }
  }

  lemma PlanLineAccounts(docType: DocType, src: int, dst: int, plan: Plan, line: Line, k: Key)
    requires Covers(plan.quantities, docType, src, dst, [line])
    ensures var r := PlanLine(docType, src, dst, plan, line);
      r.Ok? ==>
        Sum(r.value.changes, k)
        == Sum(plan.changes, k) + (if k in plan.quantities then r.value.quantities[k] - plan.quantities[k] else 0)
  {
    var r := PlanLine(docType, src, dst, plan, line);
    if r.Ok? {
      assert [line][0] == line;
      var taken := plan.changes + [r.value.changes[|plan.changes|]];
      SumAppend(plan.changes, r.value.changes[|plan.changes|], k);
      if docType.Transfer? {
        SumAppend(taken, Change(Key(line.product, dst), line.quantity), k);
      }
    }
  }

  /** The recorded changes account for every quantity: final minus start, balance by balance. */
  lemma {:induction false} ChangesAccountForQuantities(docType: DocType, src: int, dst: int, lines: seq<Line>,
                                                       start: map<Key, int>, k: Key)
    requires Covers(start, docType, src, dst, lines)
    ensures var r := PlanLines(docType, src, dst, lines, start);
      r.Ok? ==> Sum(r.value.changes, k) == (if k in start then r.value.quantities[k] - start[k] else 0)
  {
    if |lines| > 0 {
      var n := |lines| - 1;
      ChangesAccountForQuantities(docType, src, dst, lines[..n], start, k);
      var before := PlanLines(docType, src, dst, lines[..n], start);
      if before.Ok? {
        PlanLineAccounts(docType, src, dst, before.value, lines[n], k);
      }
    }
  }

  /** The net change of one product over all warehouses. */
  function ProductNet(changes: seq<Change>, product: int): int
  {
    if |changes| == 0 then 0 else
      var last := changes[|changes| - 1];
      ProductNet(changes[..|changes| - 1], product) + (if last.key.product == product then last.delta else 0)
  }

  /** A transfer neither creates nor loses stock of any product. */
  lemma {:induction false} TransferConserves(src: int, dst: int, lines: seq<Line>, start: map<Key, int>, product: int)
    requires Covers(start, Transfer, src, dst, lines)
    ensures var r := PlanLines(Transfer, src, dst, lines, start);
      r.Ok? ==> ProductNet(r.value.changes, product) == 0
  {
    if |lines| > 0 {
      var n := |lines| - 1;
      TransferConserves(src, dst, lines[..n], start, product);
      var before := PlanLines(Transfer, src, dst, lines[..n], start);
      var after := PlanLines(Transfer, src, dst, lines, start);
      if after.Ok? {
        var a, b := before.value.changes, after.value.changes;
        var one := Change(Key(lines[n].product, src), -lines[n].quantity);
        assert b == a + [one] + [Change(Key(lines[n].product, dst), lines[n].quantity)];
        assert b[..|b| - 1] == a + [one];
        assert b[..|b| - 1][..|a|] == a;
      }
    }
  }

  lemma {:induction false} DemandSplit(lines: seq<Line>, i: nat, product: int)
    requires i < |lines|
    ensures Demand(lines, product)
         == Demand(lines[..i] + lines[i + 1..], product)
            + (if lines[i].product == product then lines[i].quantity else 0)
    decreases |lines|
  {
    var n := |lines| - 1;
    if i == n {
      assert lines[..i] + lines[i + 1..] == lines[..n];
    } else {
      DemandSplit(lines[..n], i, product);
      var rest := lines[..i] + lines[i + 1..];
      assert rest[..|rest| - 1] == lines[..n][..i] + lines[..n][i + 1..];
      assert rest[|rest| - 1] == lines[n];
    }
  }

  lemma {:induction false} DemandIgnoresOrder(a: seq<Line>, b: seq<Line>, product: int)
    requires multiset(a) == multiset(b)
    ensures Demand(a, product) == Demand(b, product)
    decreases |a|
  {
    if |a| == 0 {
      assert |multiset(b)| == 0;
    } else {
      var x := a[|a| - 1];
      assert x in multiset(b);
      var i :| 0 <= i < |b| && b[i] == x;
      var rest := b[..i] + b[i + 1..];
      assert b == b[..i] + [x] + b[i + 1..];
      assert a == a[..|a| - 1] + [x];
      assert multiset(b) == multiset(rest) + multiset{x};
      assert multiset(rest) == multiset(b) - multiset{x} == multiset(a[..|a| - 1]);
      DemandIgnoresOrder(a[..|a| - 1], rest, product);
      DemandSplit(b, i, product);
    }
  }

  /** Except for adjustments, the order of the lines changes neither the verdict nor the quantities. */
  lemma PlanIgnoresLineOrder(docType: DocType, src: int, dst: int, a: seq<Line>, b: seq<Line>, start: map<Key, int>)
    requires !docType.Adjustment?
    requires docType.Transfer? ==> src != dst
    requires multiset(a) == multiset(b)
    requires NonnegativeLines(a) && NonnegativeLines(b)
    requires Covers(start, docType, src, dst, a) && Covers(start, docType, src, dst, b)
    ensures var r, s := PlanDocument(docType, src, dst, a, start), PlanDocument(docType, src, dst, b, start);
      (r.Ok? <==> s.Ok?) && (r.Ok? ==> r.value.quantities == s.value.quantities)
  {
    PlanMeetsAggregate(docType, src, dst, a, start);
    PlanMeetsAggregate(docType, src, dst, b, start);
    forall product ensures Demand(a, product) == Demand(b, product) {
      DemandIgnoresOrder(a, b, product);
    }
    forall k | k in start
      ensures Final(docType, src, dst, a, start, k) == Final(docType, src, dst, b, start, k)
    {
    }
    if InStock(a, src, start) {
      SameStock(a, b, src, start);
    }
    if InStock(b, src, start) {
      SameStock(b, a, src, start);
    }
  }

  lemma SameStock(a: seq<Line>, b: seq<Line>, src: int, start: map<Key, int>)
    requires multiset(a) == multiset(b)
    requires forall product :: Demand(a, product) == Demand(b, product)
    requires Covers(start, Outgoing, src, src, a) && Covers(start, Outgoing, src, src, b)
    requires InStock(a, src, start)
    ensures InStock(b, src, start)
  {
    forall i | 0 <= i < |b| ensures Demand(b, b[i].product) <= start[Key(b[i].product, src)] {
      assert b[i] in multiset(a);
      var j :| 0 <= j < |a| && a[j] == b[i];
      assert Demand(a, a[j].product) <= start[Key(a[j].product, src)];
    }
  }
}
