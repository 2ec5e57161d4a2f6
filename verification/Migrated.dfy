/** A database whose old payments were just given their allocation rows, and every run after that. */
module Migrated {
  import opened Common
  import opened Books
  import Engine
  import F = Backfill
  import Money
  import P = Payments
  import R = Reconciliation
  import Reachable
  import S = Stock
  import Sums
  import C = Cash
  import D = Documents

  /** The books after the migration let the payments of a list have their turns. */
  function Migrate(b: Books, order: seq<int>): Books
  {
    b.(payments := F.Run(b.store.docs, F.Progress(b.payments, F.Opening(b.store.docs)), order).payments)
  }

  /** What the tables guarantee of the documents and payments it runs on. */
  predicate Ready(b: Books, order: seq<int>)
  {
    Money.AllSane(b.store.docs) && F.CleanSlate(b.store.docs, b.payments) && F.OnceEach(b.payments, order)
  }

  /** No payment whose turn finds some debt is linked to a document of a type it may not pay. */
  predicate EveryTypeFits(b: Books, order: seq<int>)
    requires F.OnceEach(b.payments, order)
  {
    forall i :: 0 <= i < |order| ==> F.TypeFits(b.store.docs, b.payments, order, i)
  }

  lemma MigrationAllocates(b: Books, order: seq<int>, typed: bool)
    requires Ready(b, order)
    requires typed ==> EveryTypeFits(b, order)
    ensures Money.AllocationsInOrder(b.store.docs, Migrate(b, order).payments, typed)
  {
    F.MigrationIsBounded(b.store.docs, b.payments, order);
    F.MigrationTypesExactly(b.store.docs, b.payments, order);
  }

  /**
   The bounds the migration sets up hold after every later run, whatever the types and whatever state the
   stock side is in: earlier opening debts, which another migration numbered as version one, included.
   */
  lemma MigratedStaysBounded(b: Books, order: seq<int>, commands: seq<Command>)
    requires Ready(b, order)
    ensures var after := Run(Migrate(b, order), commands);
      P.Bounded(after.store.docs, after.payments)
  {
    MigrationAllocates(b, order, false);
    Money.RunKeepsAllocations(Migrate(b, order), commands, false);
  }

  /** Where every type fits, the reconciliation identity holds after every later run. */
  lemma MigratedReconciles(b: Books, order: seq<int>, commands: seq<Command>, partner: int)
    requires Ready(b, order) && EveryTypeFits(b, order)
    ensures var after := Run(Migrate(b, order), commands);
      var docs, payments := after.store.docs, after.payments;
      && R.PartnerBalance(docs, payments, partner)
         == Reachable.Net(docs, payments, partner) + Sums.MapSum(payments, R.AmountRow(partner, P.Refund))
      && R.OutstandingSum(docs, payments, partner, S.Outgoing) >= 0
      && R.OutstandingSum(docs, payments, partner, S.Incoming) >= 0
      && R.UnallocatedSum(payments, partner, P.CustomerPayment) >= 0
      && R.UnallocatedSum(payments, partner, P.SupplierPayment) >= 0
  {
    var after := Run(Migrate(b, order), commands);
    MigrationAllocates(b, order, true);
    Money.RunKeepsAllocations(Migrate(b, order), commands, true);
    R.BalanceDecomposes(after.store.docs, after.payments, partner);
    R.OpenItemsAreNonnegative(after.store.docs, after.payments, partner, S.Outgoing, P.CustomerPayment);
    R.OpenItemsAreNonnegative(after.store.docs, after.payments, partner, S.Incoming, P.SupplierPayment);
  }

  lemma LedgerIgnoresAllocations(before: P.PayTable, after: P.PayTable, cash: seq<C.CashOp>)
    requires F.SameButAllocations(before, after)
    requires Money.LedgerInOrder(before, cash)
    ensures Money.LedgerInOrder(after, cash)
  {
    forall id | id in after && after[id].status != D.Draft ensures Money.HasRow(cash, id) {
      assert after[id] == before[id].(allocations := after[id].allocations);
    }
    forall i | 0 <= i < |cash| ensures Money.Mirrors(after, cash[i]) {
      assert Money.Mirrors(before, cash[i]);
      if cash[i].payment.Some? {
        var id := cash[i].payment.value;
        assert after[id] == before[id].(allocations := after[id].allocations);
      }
    }
  }

  /** Where stock and ledger were in order before, everything is in order after every later run. */
  lemma MigratedStaysInOrder(b: Books, order: seq<int>, commands: seq<Command>, typed: bool)
    requires Engine.DocumentsInOrder(b) && Money.LedgerInOrder(b.payments, b.cash)
    requires F.CleanSlate(b.store.docs, b.payments) && F.OnceEach(b.payments, order)
    requires typed ==> EveryTypeFits(b, order)
    ensures Engine.InOrder(Run(Migrate(b, order), commands), typed)
  {
    assert Ready(b, order) by {
      forall d | d in b.store.docs ensures Money.Sane(b.store.docs[d]) {
        assert Engine.Worth(b.store.docs[d]);
      }
    }
    MigrationAllocates(b, order, typed);
    F.RunFillsAllocations(b.store.docs, F.Progress(b.payments, F.Opening(b.store.docs)), order);
    LedgerIgnoresAllocations(b.payments, Migrate(b, order).payments, b.cash);
    Engine.RunKeeps(Migrate(b, order), commands, typed);
  }
}
