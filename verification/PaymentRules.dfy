/** Payments over their rows: who may pay, what may be paid, and what each accepted call leaves. */
module PaymentRules {
  import opened Common
  import opened Books
  import S = Stock
  import D = Documents
  import P = Payments
  import C = Cash
  import R = LedgerRules
  import O = Ordering
  import opened Sums
  import Distribution

  // ------------------------------------------------------------ who may pay

  /** In cash, and from a customer for sales or to a supplier for purchases. */
  predicate PayerFits(dir: D.Directory, payType: P.PayType, cash: bool, partner: Option<int>)
  {
    && cash && partner.Some? && partner.value in dir.partners
    && match payType
       case CustomerPayment => dir.partners[partner.value] in {D.Customer, D.Both}
       case SupplierPayment => dir.partners[partner.value] in {D.Supplier, D.Both}
       case Refund => false
  }

  lemma PayerExactly(dir: D.Directory, payType: P.PayType, cash: bool, partner: Option<int>)
    ensures CheckPayer(dir, payType, cash, partner).None? <==> PayerFits(dir, payType, cash, partner)
  {
  }

  // ------------------------------------------------------------ what may be paid

  function To(doc: int): P.Allocation -> int
  {
    (a: P.Allocation) => if a.doc == doc then a.amount else 0
  }

  function Share(): P.Allocation -> int
  {
    (a: P.Allocation) => a.amount
  }

  ghost function Pays(doc: int): (int, P.Payment) -> int
  {
    (id: int, p: P.Payment) => if p.status == D.Posted then SeqSum(p.allocations, To(doc)) else 0
  }

  /** What posted payments took of a document, allocation by allocation. */
  ghost function Taken(payments: P.PayTable, doc: int): int
  {
    MapSum(payments, Pays(doc))
  }

  lemma {:induction false} AmountToIsSum(allocations: seq<P.Allocation>, doc: int)
    ensures P.AmountTo(allocations, doc) == SeqSum(allocations, To(doc))
  {
    if |allocations| > 0 {
      AmountToIsSum(allocations[..|allocations| - 1], doc);
    }
  }

  lemma {:induction false} AllocatedTotalIsSum(allocations: seq<P.Allocation>)
    ensures P.AllocatedTotal(allocations) == SeqSum(allocations, Share())
  {
    if |allocations| > 0 {
      AllocatedTotalIsSum(allocations[..|allocations| - 1]);
    }
  }

  /** What the services sum up is what was taken. */
  lemma TakenIsAllocated(payments: P.PayTable, doc: int)
    ensures Taken(payments, doc) == P.Allocated(payments, doc)
  {
    forall id | id in payments ensures Pays(doc)(id, payments[id]) == P.PostedTo(doc)(id, payments[id]) {
      AmountToIsSum(payments[id].allocations, doc);
    }
    MapSumSame(payments, Pays(doc), P.PostedTo(doc));
  }

  /** A positive amount for a posted document of the partner and of the matching type, within what is left of it. */
  ghost predicate AllocationFits(docs: P.DocTable, payments: P.PayTable, payType: P.PayType, partner: Option<int>,
                                 a: P.Allocation)
  {
    && a.amount > 0
    && a.doc in docs && docs[a.doc].status == D.Posted && docs[a.doc].content.partner == partner
    && (match payType
        case CustomerPayment => docs[a.doc].content.docType == S.Outgoing
        case SupplierPayment => docs[a.doc].content.docType == S.Incoming
        case Refund => false)
    && a.amount <= docs[a.doc].total - Taken(payments, a.doc)
  }

  /** Allocations that fit, on distinct documents, within the payment. */
  ghost predicate AllocationsFit(docs: P.DocTable, payments: P.PayTable, payType: P.PayType, partner: Option<int>,
                                 amount: int, allocations: seq<P.Allocation>)
  {
    && (forall i :: 0 <= i < |allocations| ==> AllocationFits(docs, payments, payType, partner, allocations[i]))
    && (forall i, j :: 0 <= i < j < |allocations| ==> allocations[i].doc != allocations[j].doc)
    && SeqSum(allocations, Share()) <= amount
  }

  lemma AllocationExactly(docs: P.DocTable, payments: P.PayTable, payType: P.PayType, partner: Option<int>,
                          a: P.Allocation)
    requires a.amount > 0 && !payType.Refund?
    ensures P.CheckAllocation(docs, payments, payType, partner, a).None?
       <==> AllocationFits(docs, payments, payType, partner, a)
  {
    TakenIsAllocated(payments, a.doc);
  }

  /** The validation accepts exactly the allocations that fit. */
  lemma AllocationsExactly(docs: P.DocTable, payments: P.PayTable, payType: P.PayType, partner: Option<int>,
                           amount: int, allocations: seq<P.Allocation>)
    ensures P.CheckAllocations(docs, payments, payType, partner, amount, allocations).None?
       <==> AllocationsFit(docs, payments, payType, partner, amount, allocations)
  {
    AllocatedTotalIsSum(allocations);
    if P.PositiveAmounts(allocations) && !payType.Refund? {
      forall i | 0 <= i < |allocations|
        ensures P.CheckAllocation(docs, payments, payType, partner, allocations[i]).None?
           <==> AllocationFits(docs, payments, payType, partner, allocations[i])
      {
        AllocationExactly(docs, payments, payType, partner, allocations[i]);
      }
    }
    if AllocationsFit(docs, payments, payType, partner, amount, allocations) {
      forall i | 0 <= i < |allocations| ensures allocations[i].amount > 0 && !payType.Refund? {
        assert AllocationFits(docs, payments, payType, partner, allocations[i]);
      }
    }
  }

  // ------------------------------------------------------------ what a paid document may become

  /** A posted payment with an allocation to the document. */
  predicate Names(p: P.Payment, doc: int)
  {
    p.status == D.Posted && exists i :: 0 <= i < |p.allocations| && p.allocations[i].doc == doc
  }

  predicate Unpaid(payments: P.PayTable, doc: int)
  {
    forall id :: id in payments ==> !Names(payments[id], doc)
  }

  predicate PaidOnlyBy(payments: P.PayTable, doc: int, payType: P.PayType)
  {
    forall id :: id in payments && Names(payments[id], doc) ==> payments[id].payType == payType
  }

  /** Paid by somebody, it keeps its partner, is of the type its payments pay for, and worth what they took. */
  ghost predicate MayBecome(payments: P.PayTable, doc: int, before: S.Content, after: S.Content, total: int)
  {
    || Unpaid(payments, doc)
    || (&& after.partner == before.partner
        && (|| (after.docType.Outgoing? && PaidOnlyBy(payments, doc, P.CustomerPayment))
            || (after.docType.Incoming? && PaidOnlyBy(payments, doc, P.SupplierPayment)))
        && Taken(payments, doc) <= total)
  }

  lemma UnpaidExactly(payments: P.PayTable, doc: int)
    ensures P.HasActive(payments, doc) <==> !Unpaid(payments, doc)
  {
    forall id | id in payments ensures P.Touches(payments[id], doc) <==> Names(payments[id], doc) {
    }
    if !Unpaid(payments, doc) {
      var id :| id in payments && Names(payments[id], doc);
      assert P.Touches(payments[id], doc);
    }
  }

  lemma PaidOnlyByExactly(payments: P.PayTable, doc: int, payType: P.PayType)
    ensures PaidOnlyBy(payments, doc, payType)
       <==> !exists id :: id in payments && P.Touches(payments[id], doc) && payments[id].payType != payType
  {
    forall id | id in payments ensures P.Touches(payments[id], doc) <==> Names(payments[id], doc) {
    }
    if !PaidOnlyBy(payments, doc, payType) {
      var id :| id in payments && Names(payments[id], doc) && payments[id].payType != payType;
      assert P.Touches(payments[id], doc);
    }
  }

  /** The check of a correction against posted payments passes exactly when the document may become that. */
  lemma MayBecomeExactly(payments: P.PayTable, doc: int, before: S.Content, after: S.Content, total: int)
    ensures var fault := P.CheckRepostAllocations(payments, doc, before, after, total);
      (fault.None? <==> MayBecome(payments, doc, before, after, total)) && (fault.Some? ==> fault.value == Conflict)
  {
    UnpaidExactly(payments, doc);
    PaidOnlyByExactly(payments, doc, P.CustomerPayment);
    PaidOnlyByExactly(payments, doc, P.SupplierPayment);
    TakenIsAllocated(payments, doc);
  }

  // ------------------------------------------------------------ drafts

  /** The one document the allocations name, if it is just one. */
  function OnlyDocument(allocations: seq<P.Allocation>): Option<int>
  {
    if |allocations| == 1 then Some(allocations[0].doc) else None
  }

  /** Allocations as given; a bare document takes the whole amount. */
  function Asked(allocations: seq<P.Allocation>, document: Option<int>, amount: int): seq<P.Allocation>
  {
    if |allocations| > 0 then allocations
    else match document
      case Some(doc) => [P.Allocation(doc, amount)]
      case None => []
  }

  /** A draft as the service writes it. */
  function DraftOf(partner: Option<int>, date: int, payType: P.PayType, amount: int,
                   allocations: seq<P.Allocation>): P.Payment
  {
    P.Payment(partner, date, payType, true, D.Draft, amount, allocations, OnlyDocument(allocations))
  }

  /** A payment draft is accepted exactly when payer, amount and allocations fit. */
  lemma CreatedExactly(b: Books, id: int, form: Form)
    ensures var asked := Asked(form.allocations, form.document, form.amount);
      && (CreatePayment(b, id, form).Ok? <==>
            && id !in b.payments && form.amount > 0
            && PayerFits(b.dir, form.payType, form.cash, form.partner)
            && AllocationsFit(b.store.docs, b.payments, form.payType, form.partner, form.amount, asked))
      && (CreatePayment(b, id, form).Ok? ==>
            CreatePayment(b, id, form).value
            == b.(payments := b.payments[id := DraftOf(form.partner, form.date, form.payType, form.amount, asked)]))
  {
    PayerExactly(b.dir, form.payType, form.cash, form.partner);
    AllocationsExactly(b.store.docs, b.payments, form.payType, form.partner, form.amount,
                       Asked(form.allocations, form.document, form.amount));
  }

  /** What a patch leaves of a draft: what it names is replaced, a document link replaces the allocations. */
  predicate Patches(patch: Patch, p: P.Payment, partner: Option<int>, date: int, payType: P.PayType, cash: bool,
                    amount: int, allocations: seq<P.Allocation>)
  {
    && (if patch.partner.Some? then partner == patch.partner.value else partner == p.partner)
    && (if patch.date.Some? then date == patch.date.value else date == p.date)
    && (if patch.payType.Some? then payType == patch.payType.value else payType == p.payType)
    && (if patch.cash.Some? then cash == patch.cash.value else cash == p.cash)
    && (if patch.amount.Some? then amount == patch.amount.value else amount == p.amount)
    && (if patch.allocations.Some? then allocations == patch.allocations.value
        else if patch.document.Some? then allocations == Asked([], patch.document.value, amount)
        else allocations == p.allocations)
  }

  /** A patch is accepted exactly when the draft it makes would be. */
  lemma UpdatedExactly(b: Books, id: int, patch: Patch, partner: Option<int>, date: int, payType: P.PayType,
                       cash: bool, amount: int, allocations: seq<P.Allocation>)
    requires id in b.payments ==>
      Patches(patch, b.payments[id], partner, date, payType, cash, amount, allocations)
    ensures UpdatePayment(b, id, patch).Ok? <==>
      && id in b.payments && b.payments[id].status == D.Draft
      && amount > 0 && PayerFits(b.dir, payType, cash, partner)
      && AllocationsFit(b.store.docs, b.payments, payType, partner, amount, allocations)
    ensures UpdatePayment(b, id, patch).Ok? ==>
      UpdatePayment(b, id, patch).value
      == b.(payments := b.payments[id := DraftOf(partner, date, payType, amount, allocations)])
  {
    PayerExactly(b.dir, payType, cash, partner);
    AllocationsExactly(b.store.docs, b.payments, payType, partner, amount, allocations);
  }

  lemma DeletedExactly(b: Books, id: int)
    ensures DeletePayment(b, id).Ok? <==> id in b.payments && b.payments[id].status == D.Draft
    ensures DeletePayment(b, id).Err? ==>
      DeletePayment(b, id).fault == if id in b.payments then Conflict else NotFound
    ensures DeletePayment(b, id).Ok? ==>
      var after := DeletePayment(b, id).value;
      after == b.(payments := after.payments)
      && after.payments.Keys == b.payments.Keys - {id}
      && forall p :: p in after.payments ==> after.payments[p] == b.payments[p]
  {
  }

  // ------------------------------------------------------------ posting

  /** The cash row of a payment: a customer's money comes in, a supplier's goes out. */
  function CashRow(id: int, p: P.Payment): C.CashOp
  {
    C.CashOp(p.date,
             if p.payType.CustomerPayment? then C.CashIn else C.CashOut,
             if p.payType.CustomerPayment? then C.In else C.Out,
             C.Live, p.amount, None, p.partner, OnlyDocument(p.allocations), Some(id))
  }

  /**
   A draft is posted exactly when its payer and its allocations fit, it is of some amount, and with its row
   the cash is never short.
   */
  lemma PostedExactly(b: Books, id: int)
    ensures PostPayment(b, id).Ok? <==>
      && id in b.payments && b.payments[id].status == D.Draft
      && PayerFits(b.dir, b.payments[id].payType, b.payments[id].cash, b.payments[id].partner)
      && AllocationsFit(b.store.docs, b.payments, b.payments[id].payType, b.payments[id].partner,
                        b.payments[id].amount, b.payments[id].allocations)
      && b.payments[id].amount > 0
      && R.NeverShort(b.cash + [CashRow(id, b.payments[id])])
    ensures PostPayment(b, id).Ok? ==>
      var p := b.payments[id];
      PostPayment(b, id).value
      == b.(payments := b.payments[id := p.(status := D.Posted, document := OnlyDocument(p.allocations))],
            cash := b.cash + [CashRow(id, p)])
    ensures PostPayment(b, id).Err? ==>
      && (id !in b.payments ==> PostPayment(b, id).fault == NotFound)
      && (id in b.payments && b.payments[id].status != D.Draft ==> PostPayment(b, id).fault == Conflict)
  {
    if id in b.payments {
      var p := b.payments[id];
      PayerExactly(b.dir, p.payType, p.cash, p.partner);
      AllocationsExactly(b.store.docs, b.payments, p.payType, p.partner, p.amount, p.allocations);
      R.CreatedExactly(b.cash, CashRequest(id, p));
      assert R.RowFor(CashRequest(id, p), R.Till(b.cash)) == CashRow(id, p) || p.payType.Refund?;
    }
  }

  // ------------------------------------------------------------ reallocating and cancelling

  /** The rows of a payment name another document; nothing else of the ledger changes. */
  predicate RowsFollow(before: seq<C.CashOp>, after: seq<C.CashOp>, payment: int, document: Option<int>)
  {
    |after| == |before|
    && forall i :: 0 <= i < |before| ==>
         after[i] == if before[i].payment == Some(payment) then before[i].(document := document) else before[i]
  }

  /** A posted payment is reallocated exactly when the new allocations fit beside the other payments. */
  lemma ReallocatedExactly(b: Books, id: int, allocations: seq<P.Allocation>)
    ensures ReplaceAllocations(b, id, allocations).Ok? <==>
      && id in b.payments && b.payments[id].status == D.Posted && b.payments[id].partner.Some?
      && AllocationsFit(b.store.docs, b.payments - {id}, b.payments[id].payType, b.payments[id].partner,
                        b.payments[id].amount, allocations)
    ensures ReplaceAllocations(b, id, allocations).Ok? ==>
      var p, after := b.payments[id], ReplaceAllocations(b, id, allocations).value;
      && after.payments == b.payments[id := p.(allocations := allocations, document := OnlyDocument(allocations))]
      && RowsFollow(b.cash, after.cash, id, OnlyDocument(allocations))
      && after == b.(payments := after.payments, cash := after.cash)
  {
    if id in b.payments {
      AllocationsExactly(b.store.docs, b.payments - {id}, b.payments[id].payType, b.payments[id].partner,
                         b.payments[id].amount, allocations);
    }
  }

  /** A posted payment is cancelled, with all its rows, exactly when without them the cash is never short. */
  lemma CancelledExactly(b: Books, id: int)
    ensures CancelPayment(b, id).Ok? <==>
      id in b.payments && b.payments[id].status == D.Posted && R.NeverShort(R.WithoutPayment(b.cash, id))
    ensures CancelPayment(b, id).Err? ==>
      CancelPayment(b, id).fault == if id in b.payments then Conflict else NotFound
    ensures CancelPayment(b, id).Ok? ==>
      CancelPayment(b, id).value
      == b.(payments := b.payments[id := b.payments[id].(status := D.Cancelled)],
            cash := R.WithoutPayment(b.cash, id))
  {
    R.PaymentCancelledExactly(b.cash, id);
  }

  // ------------------------------------------------------------ manual cash operations

  /** A manual operation names no payment, and only a partner and a document that are there. */
  lemma ManualExactly(b: Books, request: C.Request)
    ensures CreateCash(b, request).Ok? <==>
      && request.payment.None?
      && (request.partner.Some? ==> request.partner.value in b.dir.partners)
      && (request.document.Some? ==> request.document.value in b.store.docs)
      && R.Bookable(request)
      && R.NeverShort(b.cash + [R.RowFor(request, R.Till(b.cash))])
    ensures CreateCash(b, request).Ok? ==>
      CreateCash(b, request).value == b.(cash := b.cash + [R.RowFor(request, R.Till(b.cash))])
  {
    R.CreatedExactly(b.cash, request);
  }

  lemma ManualCancelledExactly(b: Books, id: int)
    ensures CancelCash(b, id).Ok? <==>
      && 1 <= id <= |b.cash| && b.cash[id - 1].status == C.Live
      && R.NeverShort(b.cash[id - 1 := b.cash[id - 1].(status := C.Cancelled)])
    ensures CancelCash(b, id).Ok? ==>
      CancelCash(b, id).value == b.(cash := b.cash[id - 1 := b.cash[id - 1].(status := C.Cancelled)])
  {
    R.CancelledExactly(b.cash, id);
  }

  // ------------------------------------------------------------ options

  /** An option is a document a payment of the type could be allocated to, with all that is left of it. */
  lemma OfferedExactly(docs: P.DocTable, payments: P.PayTable, payType: P.PayType, partner: int, e: O.Entry)
    ensures Distribution.Offers(docs, payments, payType, partner, e) <==>
      && e.stamp.id in docs
      && e.stamp == O.Stamp(docs[e.stamp.id].content.date, 0, e.stamp.id)
      && e.amount == docs[e.stamp.id].total - Taken(payments, e.stamp.id)
      && AllocationFits(docs, payments, payType, Some(partner), P.Allocation(e.stamp.id, e.amount))
  {
    TakenIsAllocated(payments, e.stamp.id);
  }
}
