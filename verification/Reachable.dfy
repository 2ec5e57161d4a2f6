/** What can be read off any state the services can reach from an empty database. */
module Reachable {
  import opened Common
  import opened Books
  import Engine
  import Money
  import S = Stock
  import D = Documents
  import V = Versions
  import L = Logistics
  import P = Payments
  import C = Cash
  import R = Reconciliation
  import O = Ordering
  import Sums

  ghost function Reached(dir: D.Directory, commands: seq<Command>): Books
  {
    Run(Empty(dir), commands)
  }

  lemma ReachedIsInOrder(dir: D.Directory, commands: seq<Command>)
    ensures Engine.InOrder(Reached(dir, commands), true)
  {
    Engine.EmptyIsInOrder(dir);
    Engine.RunKeeps(Empty(dir), commands, true);
  }

  /** Every balance is the sum of its movements, and never below zero. */
  lemma BalancesAreTheLog(dir: D.Directory, commands: seq<Command>, k: S.Key)
    ensures var store := Reached(dir, commands).store;
      S.Balance(store.balances, k) == S.Net(store.log, k) && S.Balance(store.balances, k) >= 0
  {
    ReachedIsInOrder(dir, commands);
  }

  /** A document's movements net to its current version's while it is posted, and to nothing otherwise. */
  lemma DocumentsNetToTheirVersion(dir: D.Directory, commands: seq<Command>, doc: int, k: S.Key)
    requires doc in Reached(dir, commands).store.docs
    ensures var store := Reached(dir, commands).store;
      && V.DocumentNet(store.log, doc, k)
         == (if store.docs[doc].status == D.Posted then S.Sum(D.ActiveChanges(store, doc), k) else 0)
      && (store.docs[doc].status == D.Posted && store.docs[doc].version > 0 ==> D.ActiveChanges(store, doc) != [])
  {
    ReachedIsInOrder(dir, commands);
    V.DocumentNetEffect(Reached(dir, commands).store, doc, k);
  }

  /** A document has exactly the revisions one to its version, the last of which is what it says now. */
  lemma RevisionsAreExact(dir: D.Directory, commands: seq<Command>, p: Posting)
    ensures var b := Reached(dir, commands);
      && (p in b.revisions <==> p.doc in b.store.docs && 1 <= p.version <= b.store.docs[p.doc].version)
      && (p in b.revisions && p.version == b.store.docs[p.doc].version ==>
            b.revisions[p] == Revision(b.store.docs[p.doc].content, D.Posted, b.store.docs[p.doc].total))
  {
    ReachedIsInOrder(dir, commands);
    var b := Reached(dir, commands);
    if p in b.revisions && p.version == b.store.docs[p.doc].version {
      assert Engine.RecordsNow(b.revisions, p.doc, b.store.docs[p.doc]);
    }
  }

  /** Open items less advances, on both sides of the trade. */
  ghost function Net(docs: P.DocTable, payments: P.PayTable, partner: int): int
  {
    R.OutstandingSum(docs, payments, partner, S.Outgoing) - R.OutstandingSum(docs, payments, partner, S.Incoming)
    - R.UnallocatedSum(payments, partner, P.CustomerPayment) + R.UnallocatedSum(payments, partner, P.SupplierPayment)
  }

  /** Payments of the supported types, each with its partner. */
  predicate AllSupported(payments: P.PayTable)
  {
    forall id :: id in payments ==> !payments[id].payType.Refund? && payments[id].partner.Some?
  }

  /** Every form goes through the payer check, which refuses refunds and empty partners; neither changes later. */
  lemma {:induction false} OnlySupportedPaymentsEnter(dir: D.Directory, commands: seq<Command>)
    ensures AllSupported(Reached(dir, commands).payments)
  {
    if |commands| > 0 {
      OnlySupportedPaymentsEnter(dir, commands[..|commands| - 1]);
      var b := Reached(dir, commands[..|commands| - 1]);
      match commands[|commands| - 1] {
        case ForDocuments(document) => DocumentsKeepOff(b, document);
        case ForPayments(payment) => PaymentStepBringsSupported(b, payment);
        case _ =>
      }
    }
  }

  lemma CreatingBringsSupported(b: Books, id: int, form: Form)
    requires AllSupported(b.payments)
    ensures CreatePayment(b, id, form).Ok? ==> AllSupported(CreatePayment(b, id, form).value.payments)
  {
  }

  lemma UpdatingBringsSupported(b: Books, id: int, patch: Patch)
    requires AllSupported(b.payments)
    ensures UpdatePayment(b, id, patch).Ok? ==> AllSupported(UpdatePayment(b, id, patch).value.payments)
  {
  }

  lemma PostingBringsSupported(b: Books, id: int)
    requires AllSupported(b.payments)
    ensures PostPayment(b, id).Ok? ==> AllSupported(PostPayment(b, id).value.payments)
  {
  }

  lemma ReplacingBringsSupported(b: Books, id: int, allocations: seq<P.Allocation>)
    requires AllSupported(b.payments)
    ensures ReplaceAllocations(b, id, allocations).Ok? ==>
      AllSupported(ReplaceAllocations(b, id, allocations).value.payments)
  {
  }

  lemma CancellingBringsSupported(b: Books, id: int)
    requires AllSupported(b.payments)
    ensures CancelPayment(b, id).Ok? ==> AllSupported(CancelPayment(b, id).value.payments)
  {
  }

  lemma PaymentStepBringsSupported(b: Books, command: PaymentCommand)
    requires AllSupported(b.payments)
    ensures PaymentStep(b, command).Ok? ==> AllSupported(PaymentStep(b, command).value.payments)
  {
    match command
    case CreatingPayment(id, form) => CreatingBringsSupported(b, id, form);
    case UpdatingPayment(id, patch) => UpdatingBringsSupported(b, id, patch);
    case DeletingPayment(_) =>
    case PostingPayment(id) => PostingBringsSupported(b, id);
    case ReplacingAllocations(id, allocations) => ReplacingBringsSupported(b, id, allocations);
    case CancellingPayment(id) => CancellingBringsSupported(b, id);
    case CreatingCash(_) =>
    case CancellingCash(_) =>
  }

  lemma NoRefundsSumToNothing(payments: P.PayTable, partner: int)
    requires AllSupported(payments)
    ensures Sums.MapSum(payments, R.AmountRow(partner, P.Refund)) == 0
  {
    forall id | id in payments ensures R.AmountRow(partner, P.Refund)(id, payments[id]) == 0 {
      assert !payments[id].payType.Refund?;
    }
    Sums.MapSumZero(payments, R.AmountRow(partner, P.Refund));
  }

  /**
   A partner's balance is what is open on sales less what is open on purchases, less customer advances and
   plus supplier advances, none of them negative.
   */
  lemma EveryBalanceReconciles(dir: D.Directory, commands: seq<Command>, partner: int)
    ensures var b := Reached(dir, commands);
      var docs, payments := b.store.docs, b.payments;
      && R.PartnerBalance(docs, payments, partner) == Net(docs, payments, partner)
      && R.OutstandingSum(docs, payments, partner, S.Outgoing) >= 0
      && R.OutstandingSum(docs, payments, partner, S.Incoming) >= 0
      && R.UnallocatedSum(payments, partner, P.CustomerPayment) >= 0
      && R.UnallocatedSum(payments, partner, P.SupplierPayment) >= 0
  {
    ReachedIsInOrder(dir, commands);
    OnlySupportedPaymentsEnter(dir, commands);
    var b := Reached(dir, commands);
    R.BalanceDecomposes(b.store.docs, b.payments, partner);
    NoRefundsSumToNothing(b.payments, partner);
    R.OpenItemsAreNonnegative(b.store.docs, b.payments, partner, S.Outgoing, P.CustomerPayment);
    R.OpenItemsAreNonnegative(b.store.docs, b.payments, partner, S.Incoming, P.SupplierPayment);
  }

  /** No document is ever over-paid, so the clamp at zero in the outstanding amount changes nothing. */
  lemma ClampNeverBites(dir: D.Directory, commands: seq<Command>, doc: int)
    requires doc in Reached(dir, commands).store.docs
    ensures var b := Reached(dir, commands);
      P.Outstanding(b.store.docs, b.payments, doc) == b.store.docs[doc].total - P.Allocated(b.payments, doc)
  {
    ReachedIsInOrder(dir, commands);
  }

  lemma SameEffectSameBalance(docs: P.DocTable, payments: P.PayTable, id: int, p: P.Payment, partner: int)
    requires id in payments
    requires (p.partner, p.payType, p.status, p.amount)
          == (payments[id].partner, payments[id].payType, payments[id].status, payments[id].amount)
    ensures R.PartnerBalance(docs, payments[id := p], partner) == R.PartnerBalance(docs, payments, partner)
  {
    Sums.MapSumUpdate(payments, id, p, R.PaymentEffectOn(partner));
  }

  lemma RelinkedEntries(ops: seq<C.CashOp>, payment: int, link: Option<int>)
    ensures C.Entries(Relinked(ops, payment, link)) == C.Entries(ops)
  {
  }

  /** Moving a posted payment's allocations around moves no partner's balance and no cash. */
  lemma ReallocationMovesNoMoney(b: Books, id: int, allocations: seq<P.Allocation>, partner: int)
    requires ReplaceAllocations(b, id, allocations).Ok?
    ensures var after := ReplaceAllocations(b, id, allocations).value;
      && R.PartnerBalance(after.store.docs, after.payments, partner)
         == R.PartnerBalance(b.store.docs, b.payments, partner)
      && C.Entries(after.cash) == C.Entries(b.cash)
      && after.store == b.store
  {
    var p := b.payments[id].(allocations := allocations, document := Link(allocations));
    SameEffectSameBalance(b.store.docs, b.payments, id, p, partner);
    RelinkedEntries(b.cash, id, Link(allocations));
  }

  /** Two sets of payments with the same balance and the same refunds differ in debt as they do in advances. */
  lemma SameBalanceSameNet(docs: P.DocTable, payments: P.PayTable, after: P.PayTable, partner: int)
    requires P.Bounded(docs, payments) && P.Typed(docs, payments)
    requires P.Bounded(docs, after) && P.Typed(docs, after)
    requires R.PartnerBalance(docs, after, partner) == R.PartnerBalance(docs, payments, partner)
    requires Sums.MapSum(after, R.AmountRow(partner, P.Refund)) == Sums.MapSum(payments, R.AmountRow(partner, P.Refund))
    ensures Net(docs, after, partner) == Net(docs, payments, partner)
  {
    R.BalanceDecomposes(docs, payments, partner);
    R.BalanceDecomposes(docs, after, partner);
  }

  lemma ReallocationKeepsTypes(b: Books, id: int, allocations: seq<P.Allocation>)
    requires Money.AllocationsInOrder(b.store.docs, b.payments, true)
    requires ReplaceAllocations(b, id, allocations).Ok?
    ensures Money.AllocationsInOrder(b.store.docs, ReplaceAllocations(b, id, allocations).value.payments, true)
  {
    Money.ReplaceKeepsAllocations(b, id, allocations, true);
  }

  lemma SameAmountSameRefunds(payments: P.PayTable, id: int, p: P.Payment, partner: int)
    requires id in payments
    requires (p.partner, p.payType, p.status, p.amount)
          == (payments[id].partner, payments[id].payType, payments[id].status, payments[id].amount)
    ensures Sums.MapSum(payments[id := p], R.AmountRow(partner, P.Refund))
         == Sums.MapSum(payments, R.AmountRow(partner, P.Refund))
  {
    Sums.MapSumUpdate(payments, id, p, R.AmountRow(partner, P.Refund));
  }

  /** So what reallocating takes off the open items it gives back as an advance, to the cent. */
  lemma ReallocationTradesDebtForAdvance(b: Books, id: int, allocations: seq<P.Allocation>, partner: int)
    requires Money.AllocationsInOrder(b.store.docs, b.payments, true)
    requires ReplaceAllocations(b, id, allocations).Ok?
    ensures var after := ReplaceAllocations(b, id, allocations).value;
      Net(after.store.docs, after.payments, partner) == Net(b.store.docs, b.payments, partner)
  {
    var after := ReplaceAllocations(b, id, allocations).value;
    ReallocationKeepsTypes(b, id, allocations);
    ReallocationMovesNoMoney(b, id, allocations, partner);
    SameAmountSameRefunds(b.payments, id, after.payments[id], partner);
    SameBalanceSameNet(b.store.docs, b.payments, after.payments, partner);
  }

  /** The cash book never dips below zero, whatever was back-dated or cancelled. */
  lemma CashBookNeverDips(dir: D.Directory, commands: seq<Command>, n: nat)
    requires n <= |Reached(dir, commands).cash|
    ensures var sorted := O.Sort(C.Entries(Reached(dir, commands).cash));
      n <= |sorted| && O.Running(sorted, n) >= 0
  {
    ReachedIsInOrder(dir, commands);
    var entries := C.Entries(Reached(dir, commands).cash);
    O.SortSorts(entries);
    O.SortKeepsLength(entries);
    C.SafeWhenSorted(entries);
    O.RunningDecidesSafety(O.Sort(entries));
  }

  /** A cash row made for a payment repeats it, is the only one, and is in force only while the payment is posted. */
  lemma CashRowsMirrorPayments(dir: D.Directory, commands: seq<Command>, i: nat)
    requires i < |Reached(dir, commands).cash|
    ensures var b := Reached(dir, commands);
      var row := b.cash[i];
      row.payment.Some? ==>
        && row.payment.value in b.payments
        && row.amount == b.payments[row.payment.value].amount && row.date == b.payments[row.payment.value].date
        && row.document == b.payments[row.payment.value].document
        && (b.payments[row.payment.value].status != D.Posted ==> row.status == C.Cancelled && C.Effect(row) == 0)
        && forall j :: 0 <= j < |b.cash| && j != i ==> b.cash[j].payment != row.payment
  {
    ReachedIsInOrder(dir, commands);
    var b := Reached(dir, commands);
    assert Money.Mirrors(b.payments, b.cash[i]);
    forall j | 0 <= j < |b.cash| && j != i && b.cash[i].payment.Some? ensures b.cash[j].payment != b.cash[i].payment {
      if j < i && b.cash[j].payment.Some? {
        assert b.cash[j].payment != b.cash[i].payment;
      }
    }
  }

  /** Every payment that was ever posted is in the ledger. */
  lemma PostedPaymentsAreBooked(dir: D.Directory, commands: seq<Command>, id: int)
    requires id in Reached(dir, commands).payments
    ensures var b := Reached(dir, commands);
      b.payments[id].status != D.Draft <==> exists i :: 0 <= i < |b.cash| && b.cash[i].payment == Some(id)
  {
    ReachedIsInOrder(dir, commands);
    var b := Reached(dir, commands);
    if b.payments[id].status == D.Draft {
      Money.NoRowForDraft(b.payments, b.cash, id);
    } else {
      assert Money.HasRow(b.cash, id);
    }
  }

  /** Every posting in force has each of its tasks exactly once. */
  lemma PostingsHaveTheirTasks(dir: D.Directory, commands: seq<Command>, id: int, n: nat)
    requires id in Reached(dir, commands).store.docs
    requires n < |L.Specs(Reached(dir, commands).store.docs[id].content)|
    ensures var b := Reached(dir, commands);
      var doc, spec := b.store.docs[id], L.Specs(b.store.docs[id].content)[n];
      && (doc.status == D.Posted && doc.version >= 1 ==>
            L.Exists(b.tasks, id, doc.version, spec.warehouse, spec.kind))
      && forall i, j :: 0 <= i < j < |b.tasks| ==>
           !(L.SamePosting(b.tasks[i], b.tasks[j]) && b.tasks[i].kind == b.tasks[j].kind)
  {
    ReachedIsInOrder(dir, commands);
    var b := Reached(dir, commands);
    assert L.Covered(b.tasks, id, b.store.docs[id]);
  }

  /** An open task belongs to the posting in force, and nothing is received before it was dispatched. */
  lemma TasksFollowPostings(dir: D.Directory, commands: seq<Command>, i: nat)
    requires i < |Reached(dir, commands).tasks|
    ensures var b := Reached(dir, commands);
      var task := b.tasks[i];
      && task.doc in b.store.docs
      && (L.Active(task) ==>
            b.store.docs[task.doc].status == D.Posted && b.store.docs[task.doc].version == task.version)
      && (task.kind == L.TransferReceive ==>
            && i > 0
            && L.SamePosting(b.tasks[i - 1], task) && b.tasks[i - 1].kind == L.TransferDispatch
            && (task.status == L.Blocked ==> L.Active(b.tasks[i - 1]))
            && (task.status !in {L.Blocked, L.Cancelled} ==> b.tasks[i - 1].status == L.Completed))
      && (task.status == L.Completed ==>
            forall n :: 0 <= n < |task.lines| ==> task.lines[n].actual == Some(task.lines[n].expected))
      && L.Replays(task)
  {
    ReachedIsInOrder(dir, commands);
    var b := Reached(dir, commands);
    assert L.Current(b.store.docs, b.tasks[i]) && L.Gated(b.tasks, i) && L.Sound(b.tasks[i]);
  }

  /** What a posted payment may be allocated to, and how much of it. */
  lemma AllocationsAreValid(dir: D.Directory, commands: seq<Command>, id: int)
    requires id in Reached(dir, commands).payments
    requires Reached(dir, commands).payments[id].status == D.Posted
    ensures var b := Reached(dir, commands);
      var p := b.payments[id];
      && P.DistinctDocs(p.allocations)
      && P.AllocatedTotal(p.allocations) <= p.amount
      && forall i :: 0 <= i < |p.allocations| ==>
           var a := p.allocations[i];
           && a.amount > 0 && a.doc in b.store.docs
           && b.store.docs[a.doc].status == D.Posted
           && b.store.docs[a.doc].content.partner == p.partner
           && Some(b.store.docs[a.doc].content.docType) == P.ExpectedType(p.payType)
           && P.Allocated(b.payments, a.doc) <= b.store.docs[a.doc].total
  {
    ReachedIsInOrder(dir, commands);
    var b := Reached(dir, commands);
    assert P.WithinPayment(b.store.docs, b.payments[id]) && P.WellTyped(b.store.docs, b.payments[id]);
  }

  // ------------------------------------------------------------ conservation

  /** One partner's balance gives up what the till gains, or the other way round, and no other partner's moves. */
  ghost predicate OnlyTrades(before: Books, after: Books, partner: Option<int>)
  {
    forall q :: R.PartnerBalance(after.store.docs, after.payments, q)
      == R.PartnerBalance(before.store.docs, before.payments, q)
         + (if partner == Some(q) then C.Balance(before.cash) - C.Balance(after.cash) else 0)
  }

  lemma PaymentRowMoves(docs: P.DocTable, payments: P.PayTable, id: int, p: P.Payment, q: int)
    requires id in payments && payments[id].partner == p.partner
    ensures R.PartnerBalance(docs, payments[id := p], q) == R.PartnerBalance(docs, payments, q)
      + (if p.partner == Some(q) then R.PaymentEffect(p) - R.PaymentEffect(payments[id]) else 0)
  {
    Sums.MapSumUpdate(payments, id, p, R.PaymentEffectOn(q));
  }

  /** Posting a payment only moves money between its partner and the till. */
  lemma PostingPaymentConserves(b: Books, id: int)
    requires PostPayment(b, id).Ok?
    ensures b.payments[id].partner.Some?
    ensures OnlyTrades(b, PostPayment(b, id).value, b.payments[id].partner)
  {
    var p := b.payments[id];
    forall q {
      PaymentRowMoves(b.store.docs, b.payments, id, p.(status := D.Posted, document := Link(p.allocations)), q);
    }
    C.RecordedBalance(b.cash, CashRequest(id, p));
  }

  lemma OnlyLiveRow(payments: P.PayTable, cash: seq<C.CashOp>, id: int, i: nat)
    requires Money.Mirrored(payments, cash)
    requires i < |cash| && cash[i].payment == Some(id)
    ensures C.LiveRowsOf(cash, id) == if cash[i].status == C.Live then {C.Id(i)} else {}
  {
    assert forall j :: 0 <= j < |cash| && cash[j].payment == Some(id) ==> j == i;
    assert cash[i].status == C.Live ==> C.Id(i) in C.LiveRowsOf(cash, id);
  }

  /** Cancelling a payment whose cash row is still in force takes the same money back. */
  lemma CancellingPaymentConserves(b: Books, id: int, i: nat)
    requires Money.Mirrored(b.payments, b.cash)
    requires CancelPayment(b, id).Ok?
    requires i < |b.cash| && b.cash[i].payment == Some(id) && b.cash[i].status == C.Live
    ensures OnlyTrades(b, CancelPayment(b, id).value, b.payments[id].partner)
  {
    forall q {
      PaymentRowMoves(b.store.docs, b.payments, id, b.payments[id].(status := D.Cancelled), q);
    }
    OnlyLiveRow(b.payments, b.cash, id, i);
    C.BalanceWithoutOne(b.cash, i);
    assert Money.Mirrors(b.payments, b.cash[i]);
  }

  function BalanceFor(partner: int): Debt -> int
  {
    (row: Debt) => if row.partner == partner then row.balance else 0
  }

  lemma {:induction false} DebtsCount(docs: P.DocTable, payments: P.PayTable, date: int, rows: seq<Debt>, partner: int)
    requires ImportDebts(docs, date, rows).Ok?
    ensures R.PartnerBalance(ImportDebts(docs, date, rows).value, payments, partner)
         == R.PartnerBalance(docs, payments, partner) + Sums.SeqSum(rows, BalanceFor(partner))
  {
    if |rows| > 0 {
      var rest, row := rows[..|rows| - 1], rows[|rows| - 1];
      DebtsCount(docs, payments, date, rest, partner);
      if row.balance != 0 {
        Sums.MapSumUpdate(ImportDebts(docs, date, rest).value, row.id,
                          OpeningDocument(date, row.partner, row.balance), R.DocumentEffectOn(partner));
      }
    }
  }

  /** What is imported for a partner, row by row, is what the partner's balance grows by. */
  lemma OpeningBalancesCount(b: Books, date: int, rows: seq<Debt>, partner: int)
    requires ImportOpeningBalances(b, date, rows).Ok?
    ensures var after := ImportOpeningBalances(b, date, rows).value;
      R.PartnerBalance(after.store.docs, after.payments, partner)
      == R.PartnerBalance(b.store.docs, b.payments, partner) + Sums.SeqSum(rows, BalanceFor(partner))
  {
    DebtsCount(b.store.docs, b.payments, date, rows, partner);
  }
}
