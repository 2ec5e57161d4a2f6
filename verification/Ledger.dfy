/** What becomes of the rows of the cash ledger over a run. */
module Ledger {
  import opened Common
  import opened Books
  import opened Reachable
  import D = Documents
  import C = Cash
  import H = History
  import Money
  import O = Ordering
  import P = Payments
  import Sums

  /** Command k of a run is an accepted manual cancellation of this row. */
  ghost predicate Cancels(dir: D.Directory, commands: seq<Command>, k: nat, id: int)
    requires k < |commands|
  {
    commands[k] == ForPayments(CancellingCash(id)) && CancelCash(Reached(dir, commands[..k]), id).Ok?
  }

  ghost predicate CancelledByHand(dir: D.Directory, commands: seq<Command>, id: int)
  {
    exists k :: 0 <= k < |commands| && Cancels(dir, commands, k, id)
  }

  predicate PaymentCancelled(payments: P.PayTable, row: C.CashOp)
  {
    row.payment.Some? && row.payment.value in payments && payments[row.payment.value].status == D.Cancelled
  }

  /** A row is only ever cancelled by hand, or together with its payment. */
  lemma StepCancels(b: Books, command: Command, i: nat)
    requires i < |Next(b, command).cash| && Next(b, command).cash[i].status == C.Cancelled
    ensures
      || (i < |b.cash| && b.cash[i].status == C.Cancelled)
      || (command == ForPayments(CancellingCash(C.Id(i))) && CancelCash(b, C.Id(i)).Ok?)
      || PaymentCancelled(Next(b, command).payments, Next(b, command).cash[i])
  {
    match command
    case ForDocuments(document) => DocumentsKeepOff(b, document);
    case ForPayments(payment) =>
      if PaymentStep(b, payment).Ok? {
        PaymentStepCancels(b, payment, i);
      }
    case _ =>
  }

  lemma PaymentStepCancels(b: Books, command: PaymentCommand, i: nat)
    requires PaymentStep(b, command).Ok?
    requires i < |PaymentStep(b, command).value.cash| && PaymentStep(b, command).value.cash[i].status == C.Cancelled
    ensures var after := PaymentStep(b, command).value;
      || (i < |b.cash| && b.cash[i].status == C.Cancelled)
      || command == CancellingCash(C.Id(i))
      || PaymentCancelled(after.payments, after.cash[i])
  {
  }

  predicate RowCancelled(cash: seq<C.CashOp>, i: int)
  {
    0 <= i < |cash| && cash[i].status == C.Cancelled
  }

  lemma LastOrBefore(dir: D.Directory, commands: seq<Command>, id: int)
    requires |commands| > 0
    ensures var n := |commands| - 1;
      CancelledByHand(dir, commands, id) <==> CancelledByHand(dir, commands[..n], id) || Cancels(dir, commands, n, id)
  {
    var n := |commands| - 1;
    forall k | 0 <= k < n ensures Cancels(dir, commands[..n], k, id) <==> Cancels(dir, commands, k, id) {
      assert commands[..n][..k] == commands[..k];
    }
  }

  lemma ExtendedStaysCancelled(payments: P.PayTable, cash: seq<C.CashOp>, payments': P.PayTable,
                               cash': seq<C.CashOp>, i: nat)
    requires H.PaymentsExtend(payments, payments') && H.CashExtends(cash, cash')
    requires RowCancelled(cash, i)
    ensures RowCancelled(cash', i)
    ensures PaymentCancelled(payments, cash[i]) ==> PaymentCancelled(payments', cash'[i])
  {
    assert cash'[i] == cash[i].(status := cash'[i].status, document := cash'[i].document);
    if PaymentCancelled(payments, cash[i]) {
      var id := cash[i].payment.value;
      assert id in payments && payments[id].status != D.Draft;
      assert id in payments';
    }
  }

  lemma MoneyExtends(b: Books, command: Command)
    ensures H.PaymentsExtend(b.payments, Next(b, command).payments) && H.CashExtends(b.cash, Next(b, command).cash)
  {
    H.StepExtends(b, command);
  }

  lemma CancelledStays(b: Books, command: Command, i: nat)
    requires RowCancelled(b.cash, i)
    ensures var after := Next(b, command);
      && RowCancelled(after.cash, i)
      && (PaymentCancelled(b.payments, b.cash[i]) ==> PaymentCancelled(after.payments, after.cash[i]))
  {
    var after := Next(b, command);
    MoneyExtends(b, command);
    ExtendedStaysCancelled(b.payments, b.cash, after.payments, after.cash, i);
  }

  lemma HandCancels(b: Books, id: int)
    requires CancelCash(b, id).Ok?
    ensures RowCancelled(Next(b, ForPayments(CancellingCash(id))).cash, id - 1)
  {
  }

  lemma LastCancels(dir: D.Directory, commands: seq<Command>, id: int)
    requires |commands| > 0 && Cancels(dir, commands, |commands| - 1, id)
    ensures RowCancelled(Reached(dir, commands).cash, id - 1)
  {
    HandCancels(Reached(dir, commands[..|commands| - 1]), id);
    OneMore(dir, commands);
  }

  lemma OneMore(dir: D.Directory, commands: seq<Command>)
    requires |commands| > 0
    ensures Reached(dir, commands) == Next(Reached(dir, commands[..|commands| - 1]), commands[|commands| - 1])
  {
  }

  lemma CancelledStaysOneMore(dir: D.Directory, commands: seq<Command>, i: int)
    requires |commands| > 0 && RowCancelled(Reached(dir, commands[..|commands| - 1]).cash, i)
    ensures RowCancelled(Reached(dir, commands).cash, i)
  {
    OneMore(dir, commands);
    CancelledStays(Reached(dir, commands[..|commands| - 1]), commands[|commands| - 1], i);
  }

  lemma CancelsInPrefix(dir: D.Directory, commands: seq<Command>, k: nat, id: int)
    requires k < |commands| - 1 && Cancels(dir, commands, k, id)
    ensures Cancels(dir, commands[..|commands| - 1], k, id)
  {
    assert commands[..|commands| - 1][..k] == commands[..k];
  }

  lemma {:induction false} CancelledSince(dir: D.Directory, commands: seq<Command>, k: nat, id: int)
    requires k < |commands| && Cancels(dir, commands, k, id)
    ensures RowCancelled(Reached(dir, commands).cash, id - 1)
    decreases |commands|
  {
    if k == |commands| - 1 {
      LastCancels(dir, commands, id);
    } else {
      CancelsInPrefix(dir, commands, k, id);
      CancelledSince(dir, commands[..|commands| - 1], k, id);
      CancelledStaysOneMore(dir, commands, id - 1);
    }
  }

  lemma HandCancelledIsCancelled(dir: D.Directory, commands: seq<Command>, id: int)
    requires CancelledByHand(dir, commands, id)
    ensures RowCancelled(Reached(dir, commands).cash, id - 1)
  {
    var k :| 0 <= k < |commands| && Cancels(dir, commands, k, id);
    CancelledSince(dir, commands, k, id);
  }

  lemma {:induction false} CancelledForAReason(dir: D.Directory, commands: seq<Command>, i: nat)
    requires RowCancelled(Reached(dir, commands).cash, i)
    ensures CancelledByHand(dir, commands, C.Id(i))
         || PaymentCancelled(Reached(dir, commands).payments, Reached(dir, commands).cash[i])
  {
    if |commands| > 0 {
      var n := |commands| - 1;
      var b := Reached(dir, commands[..n]);
      OneMore(dir, commands);
      LastOrBefore(dir, commands, C.Id(i));
      StepCancels(b, commands[n], i);
      if RowCancelled(b.cash, i) {
        CancelledForAReason(dir, commands[..n], i);
        CancelledStays(b, commands[n], i);
      }
    }
  }

  /**
   A manual row is cancelled exactly when somebody cancelled it. The row of a payment is cancelled exactly
   when somebody cancelled it or the payment was cancelled, so a posted payment's is live exactly while
   nobody cancelled the row.
   */
  lemma CancelledExactly(dir: D.Directory, commands: seq<Command>, i: nat)
    requires i < |Reached(dir, commands).cash|
    ensures var b := Reached(dir, commands);
      var row := b.cash[i];
      && (row.status == C.Cancelled <==>
            CancelledByHand(dir, commands, C.Id(i)) || PaymentCancelled(b.payments, row))
      && (row.payment.Some? ==> row.payment.value in b.payments)
      && (row.payment.Some? && b.payments[row.payment.value].status == D.Posted ==>
            (row.status == C.Live <==> !CancelledByHand(dir, commands, C.Id(i))))
  {
    ReachedIsInOrder(dir, commands);
    var b := Reached(dir, commands);
    assert Money.Mirrors(b.payments, b.cash[i]);
    if CancelledByHand(dir, commands, C.Id(i)) {
      HandCancelledIsCancelled(dir, commands, C.Id(i));
    }
    if b.cash[i].status == C.Cancelled {
      CancelledForAReason(dir, commands, i);
    }
  }

  // ------------------------------------------------------------ a posted payment without a live row

  function Deposit(partner: int): Form
  {
    Form(Some(partner), 0, P.CustomerPayment, true, 40, [], None)
  }

  /** Take a payment in, post it, and cancel its cash row by hand. */
  function TakeAndCancelRow(partner: int): seq<Command>
  {
    [ForPayments(CreatingPayment(9, Deposit(partner))), ForPayments(PostingPayment(9)), ForPayments(CancellingCash(1))]
  }

  lemma RunOfThree(b: Books, x: Command, y: Command, z: Command)
    ensures Run(b, [x, y, z]) == Next(Next(Next(b, x), y), z)
  {
    assert Run(b, [x]) == Next(b, x) by {
      assert [x][..0] == [];
    }
    assert Run(b, [x, y]) == Next(Run(b, [x]), y) by {
      assert [x, y][..1] == [x];
    }
    assert [x, y, z][..2] == [x, y];
  }

  lemma OneRowNeverDips(op: C.CashOp)
    requires C.Effect(op) >= 0
    ensures C.NeverNegative([op])
  {
    var entry := C.EntryOf(op, C.Id(0));
    assert C.Entries([op]) == [entry];
    forall cut: O.Stamp ensures O.UpTo([entry], cut) >= 0 {
      Sums.SeqSumOfOne(entry, O.AmountUpTo(cut));
    }
  }

  lemma TakenIn(dir: D.Directory, partner: int)
    requires partner in dir.partners && dir.partners[partner] != D.Supplier
    ensures Next(Empty(dir), ForPayments(CreatingPayment(9, Deposit(partner))))
         == Empty(dir).(payments := map[9 := Drafted(Deposit(partner), [])])
  {
  }

  /** The row posting the deposit makes. */
  function DepositRow(partner: int): C.CashOp
  {
    C.CashOp(0, C.CashIn, C.In, C.Live, 40, None, Some(partner), None, Some(9))
  }

  lemma ThenPosted(b: Books, partner: int)
    requires partner in b.dir.partners && b.dir.partners[partner] != D.Supplier
    requires b.payments == map[9 := Drafted(Deposit(partner), [])] && b.cash == []
    ensures var after := Next(b, ForPayments(PostingPayment(9)));
      && 9 in after.payments && after.payments[9].status == D.Posted
      && after.cash == [DepositRow(partner)]
  {
    OneRowNeverDips(DepositRow(partner));
    assert [] + [DepositRow(partner)] == [DepositRow(partner)];
  }

  lemma ThenCancelled(b: Books, row: C.CashOp)
    requires b.cash == [row] && row.status == C.Live
    ensures Next(b, ForPayments(CancellingCash(1))) == b.(cash := [row.(status := C.Cancelled)])
  {
    OneRowNeverDips(row.(status := C.Cancelled));
    assert C.Without([row], {1}) == [row.(status := C.Cancelled)];
  }

  /** The payment stays posted while its money is no longer in the till. */
  lemma PostedWithoutLiveRow(dir: D.Directory, partner: int)
    requires partner in dir.partners && dir.partners[partner] != D.Supplier
    ensures var b := Reached(dir, TakeAndCancelRow(partner));
      && 9 in b.payments && b.payments[9].status == D.Posted
      && b.cash == [DepositRow(partner).(status := C.Cancelled)]
  {
    var commands := TakeAndCancelRow(partner);
    RunOfThree(Empty(dir), commands[0], commands[1], commands[2]);
    var taken := Next(Empty(dir), commands[0]);
    TakenIn(dir, partner);
    ThenPosted(taken, partner);
    ThenCancelled(Next(taken, commands[1]), DepositRow(partner));
  }
}
