/** The cash ledger over its rows: what may be recorded, what may be cancelled, and in what order it is listed. */
module LedgerRules {
  import opened Common
  import opened Cash
  import opened CashBook
  import opened Ordering
  import Sums

  /** What a row does to the cash: nothing once cancelled; out by type or by a correction's direction, else in. */
  function Signed(row: CashOp): int
  {
    if row.status == Cancelled then 0
    else if row.opType.CashOut? || (row.opType.Correction? && row.direction == Out) then -row.amount
    else row.amount
  }

  /** The cash after every live row dated before a day, or on it and numbered at most n. */
  function CashAt(ops: seq<CashOp>, day: int, n: int): int
  {
    if |ops| == 0 then 0 else
      var row := ops[|ops| - 1];
      CashAt(ops[..|ops| - 1], day, n) + (if row.date < day || (row.date == day && |ops| <= n) then Signed(row) else 0)
  }

  /** All the cash there is. */
  function Till(ops: seq<CashOp>): int
  {
    if |ops| == 0 then 0 else Till(ops[..|ops| - 1]) + Signed(ops[|ops| - 1])
  }

  lemma {:induction false} CashAtIsUpTo(ops: seq<CashOp>, day: int, n: int)
    ensures CashAt(ops, day, n) == UpTo(Entries(ops), Stamp(day, 0, n))
  {
    if |ops| > 0 {
      var rest, last := ops[..|ops| - 1], ops[|ops| - 1];
      CashAtIsUpTo(rest, day, n);
      AppendedUpTo(rest, last, Stamp(day, 0, n));
      assert ops == rest + [last];
    }
  }

  lemma {:induction false} TillIsBalance(ops: seq<CashOp>)
    ensures Till(ops) == Balance(ops)
  {
    if |ops| > 0 {
      var rest, last := ops[..|ops| - 1], ops[|ops| - 1];
      TillIsBalance(rest);
      BalanceAppend(rest, last);
      assert ops == rest + [last];
    } else {
      assert Entries(ops) == [];
    }
  }

  /** Any cut of the book falls on a day and a number. */
  lemma CutsAreDays(ops: seq<CashOp>, cut: Stamp)
    ensures UpTo(Entries(ops), cut)
         == CashAt(ops, cut.date, if cut.rank < 0 then 0 else if cut.rank > 0 then |ops| else cut.id)
  {
    var n := if cut.rank < 0 then 0 else if cut.rank > 0 then |ops| else cut.id;
    UpToSameCut(Entries(ops), cut, Stamp(cut.date, 0, n));
    CashAtIsUpTo(ops, cut.date, n);
  }

  /** On no day and after no row is the cash short. */
  ghost predicate NeverShort(ops: seq<CashOp>)
  {
    forall day, n :: CashAt(ops, day, n) >= 0
  }

  lemma SafeIsNeverShort(ops: seq<CashOp>)
    requires Safe(Entries(ops))
    ensures NeverShort(ops)
  {
    forall day, n ensures CashAt(ops, day, n) >= 0 {
      CashAtIsUpTo(ops, day, n);
    }
  }

  lemma NeverShortIsSafe(ops: seq<CashOp>)
    requires NeverShort(ops)
    ensures Safe(Entries(ops))
  {
    forall cut: Stamp ensures UpTo(Entries(ops), cut) >= 0 {
      CutsAreDays(ops, cut);
    }
  }

  /** The ledger check looks at every day and every number. */
  lemma NeverNegativeExactly(ops: seq<CashOp>)
    ensures NeverNegative(ops) <==> NeverShort(ops)
  {
    if NeverNegative(ops) {
      SafeIsNeverShort(ops);
    }
    if NeverShort(ops) {
      NeverShortIsSafe(ops);
    }
  }

  // ------------------------------------------------------------ recording and cancelling

  /** A request that is complete: a positive amount, or a counted target with its reason. */
  predicate Bookable(request: Request)
  {
    if request.opType.Correction? then request.amount >= 0 && request.noted else request.amount > 0
  }

  /** The row it becomes: a correction moves the cash from what there is to its target. */
  function RowFor(request: Request, till: int): CashOp
  {
    match request.opType
    case CashIn =>
      CashOp(request.date, CashIn, In, Live, request.amount, None, request.partner, request.document, request.payment)
    case CashOut =>
      CashOp(request.date, CashOut, Out, Live, request.amount, None, request.partner, request.document, request.payment)
    case Correction =>
      CashOp(request.date, Correction,
             if request.amount > till then In else if request.amount < till then Out else Neutral,
             Live, if request.amount > till then request.amount - till else till - request.amount,
             Some(request.amount), request.partner, request.document, request.payment)
  }

  /** An operation is recorded exactly when with its row the cash is never short, on no day and after no row. */
  lemma CreatedExactly(ops: seq<CashOp>, request: Request)
    ensures Create(ops, request).Ok? <==>
      Bookable(request) && NeverShort(ops + [RowFor(request, Till(ops))])
    ensures Create(ops, request).Ok? ==> Create(ops, request).value == ops + [RowFor(request, Till(ops))]
    ensures Create(ops, request).Err? ==>
      Create(ops, request).fault == if Bookable(request) then Conflict else Unprocessable
  {
    TillIsBalance(ops);
    NeverNegativeExactly(ops + [RowFor(request, Till(ops))]);
  }

  /** A live row is cancelled exactly when without it the cash is never short. */
  lemma CancelledExactly(ops: seq<CashOp>, id: int)
    ensures Cancel(ops, id).Ok? <==>
      && 1 <= id <= |ops| && ops[id - 1].status == Live
      && NeverShort(ops[id - 1 := ops[id - 1].(status := Cancelled)])
    ensures Cancel(ops, id).Ok? ==> Cancel(ops, id).value == ops[id - 1 := ops[id - 1].(status := Cancelled)]
    ensures Cancel(ops, id).Err? ==> Cancel(ops, id).fault == if 1 <= id <= |ops| then Conflict else NotFound
  {
    if 1 <= id <= |ops| {
      var after := ops[id - 1 := ops[id - 1].(status := Cancelled)];
      assert Without(ops, {id}) == after;
      NeverNegativeExactly(after);
    }
  }

  /** The ledger with every row of a payment cancelled. */
  function WithoutPayment(ops: seq<CashOp>, payment: int): (after: seq<CashOp>)
    ensures |after| == |ops|
    ensures forall i :: 0 <= i < |ops| ==>
      after[i] == if ops[i].payment == Some(payment) then ops[i].(status := Cancelled) else ops[i]
  {
    seq(|ops|, i requires 0 <= i < |ops| =>
      if ops[i].payment == Some(payment) then ops[i].(status := Cancelled) else ops[i])
  }

  /** A payment's rows are cancelled exactly when without all of them the cash is never short. */
  lemma PaymentCancelledExactly(ops: seq<CashOp>, payment: int)
    ensures CancelPayment(ops, payment).Ok? <==> NeverShort(WithoutPayment(ops, payment))
    ensures CancelPayment(ops, payment).Ok? ==> CancelPayment(ops, payment).value == WithoutPayment(ops, payment)
  {
    var live := LiveRowsOf(ops, payment);
    forall i | 0 <= i < |ops| ensures Without(ops, live)[i] == WithoutPayment(ops, payment)[i] {
      assert Id(i) in live <==> ops[i].payment == Some(payment) && ops[i].status == Live;
    }
    assert Without(ops, live) == WithoutPayment(ops, payment);
    NeverNegativeExactly(WithoutPayment(ops, payment));
  }

  // ------------------------------------------------------------ the book

  /** A line of the book names a row of the ledger and the cash after it. */
  predicate Lists(ops: seq<CashOp>, row: Row)
  {
    && 1 <= row.id <= |ops|
    && row.balance == CashAt(ops, ops[row.id - 1].date, row.id)
  }

  /** Earlier in the book: an earlier day, or the same day and a smaller number. */
  predicate Earlier(ops: seq<CashOp>, a: Row, b: Row)
    requires 1 <= a.id <= |ops| && 1 <= b.id <= |ops|
  {
    ops[a.id - 1].date < ops[b.id - 1].date || (ops[a.id - 1].date == ops[b.id - 1].date && a.id < b.id)
  }

  lemma EntryOfRow(ops: seq<CashOp>, i: nat) returns (j: nat)
    requires i < |InOrder(ops)|
    ensures j < |ops| && InOrder(ops)[i] == EntryOf(ops[j], Id(j))
  {
    SortKeepsRows(Entries(ops));
    assert InOrder(ops)[i] in multiset(InOrder(ops));
    assert InOrder(ops)[i] in multiset(Entries(ops));
    j :| 0 <= j < |Entries(ops)| && Entries(ops)[j] == InOrder(ops)[i];
  }

  lemma BookLineLists(ops: seq<CashOp>, i: nat)
    requires i < |InOrder(ops)|
    ensures Lists(ops, Book(InOrder(ops))[i])
    ensures InOrder(ops)[i].stamp == Stamp(ops[Book(InOrder(ops))[i].id - 1].date, 0, Book(InOrder(ops))[i].id)
  {
    var sorted := InOrder(ops);
    var j := EntryOfRow(ops, i);
    BookIsSorted(ops);
    RunningAtRow(sorted, i);
    SortKeepsSums(Entries(ops), sorted[i].stamp);
    CashAtIsUpTo(ops, ops[j].date, Id(j));
  }

  /** The full book has one line for every row, by day and number, each with the cash after it. */
  lemma BookIsByDate(ops: seq<CashOp>)
    ensures var book := Book(InOrder(ops));
      && |book| == |ops|
      && (forall i :: 0 <= i < |book| ==> Lists(ops, book[i]))
      && (forall i, j :: 0 <= i < j < |book| ==> Earlier(ops, book[i], book[j]))
  {
    BookIsSorted(ops);
    var sorted, book := InOrder(ops), Book(InOrder(ops));
    forall i | 0 <= i < |book|
      ensures Lists(ops, book[i]) && sorted[i].stamp == Stamp(ops[book[i].id - 1].date, 0, book[i].id)
    {
      BookLineLists(ops, i);
    }
    forall i, j | 0 <= i < j < |book| ensures Earlier(ops, book[i], book[j]) {
      assert Precedes(sorted[i].stamp, sorted[j].stamp);
    }
  }
}
