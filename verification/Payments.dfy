/** Payments, their allocations to documents, and the bounds both services keep together. */
module Payments {
  import opened Common
  import opened Sums
  import Stock
  import Docs = Documents

  datatype PayType = CustomerPayment | SupplierPayment | Refund

  datatype Allocation = Allocation(doc: int, amount: int)

  datatype Payment = Payment(
    partner: Option<int>,
    date: int,
    payType: PayType,
    cash: bool,
    status: Docs.Status,
    amount: int,
    allocations: seq<Allocation>,
    document: Option<int>)

  type DocTable = map<int, Docs.Document>
  type PayTable = map<int, Payment>

  // ------------------------------------------------------------ allocation arithmetic

  function AllocatedTotal(allocations: seq<Allocation>): int
  {
    if |allocations| == 0 then 0 else
      AllocatedTotal(allocations[..|allocations| - 1]) + allocations[|allocations| - 1].amount
  }

  function AmountTo(allocations: seq<Allocation>, doc: int): int
  {
    if |allocations| == 0 then 0 else
      var last := allocations[|allocations| - 1];
      AmountTo(allocations[..|allocations| - 1], doc) + (if last.doc == doc then last.amount else 0)
  }

  /** What one payment row takes off a document's debt. */
  function PostedTo(doc: int): (int, Payment) -> int
  {
    (id: int, p: Payment) => if p.status == Docs.Posted then AmountTo(p.allocations, doc) else 0
  }

  /** The posted allocations of a document, over all payments. */
  ghost function Allocated(payments: PayTable, doc: int): int
  {
    MapSum(payments, PostedTo(doc))
  }

  predicate DistinctDocs(allocations: seq<Allocation>)
  {
    forall i, j :: 0 <= i < j < |allocations| ==> allocations[i].doc != allocations[j].doc
  }

  predicate PositiveAmounts(allocations: seq<Allocation>)
  {
    forall i :: 0 <= i < |allocations| ==> allocations[i].amount > 0
  }

  lemma {:induction false} AmountToAbsent(allocations: seq<Allocation>, doc: int)
    requires forall i :: 0 <= i < |allocations| ==> allocations[i].doc != doc
    ensures AmountTo(allocations, doc) == 0
  {
    if |allocations| > 0 {
      AmountToAbsent(allocations[..|allocations| - 1], doc);
    }
  }

  lemma {:induction false} AmountToPresent(allocations: seq<Allocation>, i: nat)
    requires i < |allocations| && DistinctDocs(allocations)
    ensures AmountTo(allocations, allocations[i].doc) == allocations[i].amount
  {
    var n := |allocations| - 1;
    if i < n {
      AmountToPresent(allocations[..n], i);
    } else {
      AmountToAbsent(allocations[..n], allocations[i].doc);
    }
  }

  lemma {:induction false} AmountToNonneg(allocations: seq<Allocation>, doc: int)
    requires PositiveAmounts(allocations)
    ensures AmountTo(allocations, doc) >= 0
  {
    if |allocations| > 0 {
      AmountToNonneg(allocations[..|allocations| - 1], doc);
    }
  }

  // ------------------------------------------------------------ validation

  function ExpectedType(payType: PayType): Option<Stock.DocType>
  {
    match payType
    case CustomerPayment => Some(Stock.Outgoing)
    case SupplierPayment => Some(Stock.Incoming)
    case Refund => None
  }

  ghost function Outstanding(docs: DocTable, payments: PayTable, doc: int): int
    requires doc in docs
  {
    Max(docs[doc].total - Allocated(payments, doc), 0)
  }

  /** The fault of one allocation, checked against the payments already posted. */
  ghost function CheckAllocation(docs: DocTable, payments: PayTable, payType: PayType, partner: Option<int>,
                                 a: Allocation): Option<Fault>
  {
    if a.doc !in docs then Some(NotFound)
    else if docs[a.doc].status != Docs.Posted then Some(Conflict)
    else if docs[a.doc].content.partner != partner then Some(Conflict)
    else if ExpectedType(payType).Some? && docs[a.doc].content.docType != ExpectedType(payType).value
    then Some(Conflict)
    else if a.amount > Outstanding(docs, payments, a.doc) then Some(Conflict)
    else None
  }

  ghost function FirstBadAllocation(docs: DocTable, payments: PayTable, payType: PayType, partner: Option<int>,
                                    allocations: seq<Allocation>): (fault: Option<Fault>)
    ensures fault.None? <==>
      forall i :: 0 <= i < |allocations| ==> CheckAllocation(docs, payments, payType, partner, allocations[i]).None?
  {
    if |allocations| == 0 then None else
      var n := |allocations| - 1;
      var earlier := FirstBadAllocation(docs, payments, payType, partner, allocations[..n]);
      if earlier.Some? then earlier else CheckAllocation(docs, payments, payType, partner, allocations[n])
  }

  /** The whole validation; payments are the ones whose posted rows count. */
  ghost function CheckAllocations(docs: DocTable, payments: PayTable, payType: PayType, partner: Option<int>,
                                  amount: int, allocations: seq<Allocation>): (fault: Option<Fault>)
  {
    if !PositiveAmounts(allocations) then Some(Unprocessable)
    else if payType.Refund? && |allocations| > 0 then Some(Unprocessable)
    else if !DistinctDocs(allocations) then Some(Unprocessable)
    else if AllocatedTotal(allocations) > amount then Some(Conflict)
    else FirstBadAllocation(docs, payments, payType, partner, allocations)
  }

  // ------------------------------------------------------------ the joint invariant

  /** A posted payment stays within its amount, on distinct posted documents of its partner. */
  predicate WithinPayment(docs: DocTable, p: Payment)
  {
    p.status == Docs.Posted ==>
      && DistinctDocs(p.allocations) && PositiveAmounts(p.allocations)
      && AllocatedTotal(p.allocations) <= p.amount
      && forall i :: 0 <= i < |p.allocations| ==>
           && p.allocations[i].doc in docs
           && docs[p.allocations[i].doc].status == Docs.Posted
           && docs[p.allocations[i].doc].content.partner == p.partner
  }

  /** The amounts: no payment over-spent, no document over-paid. */
  ghost predicate Bounded(docs: DocTable, payments: PayTable)
  {
    && (forall id :: id in payments ==> WithinPayment(docs, payments[id]))
    && (forall d :: d in docs ==> Allocated(payments, d) <= docs[d].total)
  }

  /** The types: customer money on sales, supplier money on purchases, refunds on nothing. */
  predicate WellTyped(docs: DocTable, p: Payment)
  {
    p.status == Docs.Posted ==>
      && (p.payType.Refund? ==> |p.allocations| == 0)
      && forall i :: 0 <= i < |p.allocations| && p.allocations[i].doc in docs ==>
           Some(docs[p.allocations[i].doc].content.docType) == ExpectedType(p.payType)
  }

  predicate Typed(docs: DocTable, payments: PayTable)
  {
    forall id :: id in payments ==> WellTyped(docs, payments[id])
  }

  /** A row's posted amount to a document does not count once the row is left out. */
  lemma AllocatedWithout(payments: PayTable, id: int, doc: int)
    ensures Allocated(payments, doc)
         == Allocated(payments - {id}, doc) + (if id in payments then PostedTo(doc)(id, payments[id]) else 0)
  {
    if id in payments {
      MapSumRemove(payments, id, PostedTo(doc));
    } else {
      assert payments - {id} == payments;
    }
  }

  lemma AllocatedWith(payments: PayTable, id: int, p: Payment, doc: int)
    ensures Allocated(payments[id := p], doc) == Allocated(payments - {id}, doc) + PostedTo(doc)(id, p)
  {
    AllocatedWithout(payments[id := p], id, doc);
    assert payments[id := p] - {id} == payments - {id};
  }

  /** Leaving a payment out can only free up debt. */
  lemma BoundedWithout(docs: DocTable, payments: PayTable, id: int)
    requires Bounded(docs, payments)
    ensures Bounded(docs, payments - {id})
    ensures Typed(docs, payments) ==> Typed(docs, payments - {id})
  {
    forall d | d in docs ensures Allocated(payments - {id}, d) <= docs[d].total {
      AllocatedWithout(payments, id, d);
      if id in payments && payments[id].status == Docs.Posted {
        AmountToNonneg(payments[id].allocations, d);
      }
    }
  }

  /** Accepted allocations name posted documents of the right partner and type. */
  lemma AcceptedNames(docs: DocTable, others: PayTable, p: Payment)
    requires CheckAllocations(docs, others, p.payType, p.partner, p.amount, p.allocations).None?
    ensures WithinPayment(docs, p) && WellTyped(docs, p)
  {
    forall i | 0 <= i < |p.allocations|
      ensures p.allocations[i].doc in docs
      ensures docs[p.allocations[i].doc].status == Docs.Posted
      ensures docs[p.allocations[i].doc].content.partner == p.partner
      ensures Some(docs[p.allocations[i].doc].content.docType) == ExpectedType(p.payType)
    {
      assert CheckAllocation(docs, others, p.payType, p.partner, p.allocations[i]).None?;
    }
  }

  /** Accepted allocations fit into what the other payments left of each document. */
  lemma AcceptedFits(docs: DocTable, others: PayTable, p: Payment, d: int)
    requires CheckAllocations(docs, others, p.payType, p.partner, p.amount, p.allocations).None?
    requires d in docs && Allocated(others, d) <= docs[d].total
    ensures Allocated(others, d) + AmountTo(p.allocations, d) <= docs[d].total
  {
    if i :| 0 <= i < |p.allocations| && p.allocations[i].doc == d {
      AmountToPresent(p.allocations, i);
      assert CheckAllocation(docs, others, p.payType, p.partner, p.allocations[i]).None?;
    } else {
      AmountToAbsent(p.allocations, d);
    }
  }

  lemma PutPaymentAmounts(docs: DocTable, payments: PayTable, id: int, p: Payment, d: int)
    requires Bounded(docs, payments) && d in docs
    requires p.status == Docs.Posted ==>
      CheckAllocations(docs, payments - {id}, p.payType, p.partner, p.amount, p.allocations).None?
    ensures Allocated(payments[id := p], d) <= docs[d].total
  {
    BoundedWithout(docs, payments, id);
    AllocatedWith(payments, id, p, d);
    if p.status == Docs.Posted {
      AcceptedFits(docs, payments - {id}, p, d);
    }
  }

  /** Writing a payment row that is not posted, or that passed validation against the others, keeps the invariant. */
  lemma PutPaymentKeeps(docs: DocTable, payments: PayTable, id: int, p: Payment)
    requires Bounded(docs, payments)
    requires p.status == Docs.Posted ==>
      CheckAllocations(docs, payments - {id}, p.payType, p.partner, p.amount, p.allocations).None?
    ensures Bounded(docs, payments[id := p])
    ensures Typed(docs, payments) ==> Typed(docs, payments[id := p])
  {
    if p.status == Docs.Posted {
      AcceptedNames(docs, payments - {id}, p);
    }
    forall d | d in docs ensures Allocated(payments[id := p], d) <= docs[d].total {
      PutPaymentAmounts(docs, payments, id, p, d);
    }
  }

  // ------------------------------------------------------------ the documents' half

  /** Some posted payment is allocated to the document. */
  predicate HasActive(payments: PayTable, doc: int)
  {
    exists id :: id in payments && Touches(payments[id], doc)
  }

  predicate Touches(p: Payment, doc: int)
  {
    p.status == Docs.Posted && exists i :: 0 <= i < |p.allocations| && p.allocations[i].doc == doc
  }

  lemma NoActiveNothingAllocated(payments: PayTable, doc: int)
    requires !HasActive(payments, doc)
    ensures Allocated(payments, doc) == 0
  {
    forall id | id in payments ensures PostedTo(doc)(id, payments[id]) == 0 {
      assert !Touches(payments[id], doc);
      if payments[id].status == Docs.Posted {
        AmountToAbsent(payments[id].allocations, doc);
      }
    }
    MapSumZero(payments, PostedTo(doc));
  }

  /** What a correction may not do to a document that payments are allocated to. */
  ghost function CheckRepostAllocations(payments: PayTable, doc: int, before: Stock.Content, after: Stock.Content,
                                        total: int): Option<Fault>
  {
    var expected := match after.docType
      case Outgoing => Some(CustomerPayment)
      case Incoming => Some(SupplierPayment)
      case _ => None;
    if !HasActive(payments, doc) then None
    else if after.partner != before.partner || expected.None? then Some(Conflict)
    else if exists id :: id in payments && Touches(payments[id], doc) && payments[id].payType != expected.value
    then Some(Conflict)
    else if Allocated(payments, doc) > total then Some(Conflict)
    else None
  }

  /** Replacing a document keeps the invariant if it may stand in for the old one wherever money is allocated to it. */
  lemma PutDocumentKeeps(docs: DocTable, payments: PayTable, id: int, d: Docs.Document)
    requires Bounded(docs, payments)
    requires HasActive(payments, id) ==>
      d.status == Docs.Posted && id in docs && d.content.partner == docs[id].content.partner
    requires Allocated(payments, id) <= d.total
    ensures Bounded(docs[id := d], payments)
    ensures Typed(docs, payments)
      && (forall p :: p in payments && Touches(payments[p], id) ==>
            Some(d.content.docType) == ExpectedType(payments[p].payType))
      ==> Typed(docs[id := d], payments)
  {
    var after := docs[id := d];
    forall p | p in payments ensures WithinPayment(after, payments[p]) {
      assert WithinPayment(docs, payments[p]);
      if payments[p].status == Docs.Posted {
        forall i | 0 <= i < |payments[p].allocations|
          ensures payments[p].allocations[i].doc in after
          ensures after[payments[p].allocations[i].doc].status == Docs.Posted
          ensures after[payments[p].allocations[i].doc].content.partner == payments[p].partner
        {
          if payments[p].allocations[i].doc == id {
            assert Touches(payments[p], id);
          }
        }
      }
    }
    if Typed(docs, payments)
       && (forall p :: p in payments && Touches(payments[p], id) ==>
             Some(d.content.docType) == ExpectedType(payments[p].payType)) {
      forall p | p in payments ensures WellTyped(after, payments[p]) {
        assert WellTyped(docs, payments[p]);
        assert WithinPayment(docs, payments[p]);
      }
    }
  }

  /** Taking away a document nobody has paid towards. */
  lemma DropDocumentKeeps(docs: DocTable, payments: PayTable, id: int)
    requires Bounded(docs, payments)
    requires id in docs ==> docs[id].status != Docs.Posted
    ensures Bounded(docs - {id}, payments)
    ensures Typed(docs, payments) ==> Typed(docs - {id}, payments)
  {
    forall p | p in payments ensures WithinPayment(docs - {id}, payments[p]) {
      assert WithinPayment(docs, payments[p]);
    }
    if Typed(docs, payments) {
      forall p | p in payments ensures WellTyped(docs - {id}, payments[p]) {
        assert WellTyped(docs, payments[p]);
      }
    }
  }

  /** Money is only ever allocated to posted documents. */
  lemma OnlyPostedArePaid(docs: DocTable, payments: PayTable, id: int)
    requires Bounded(docs, payments)
    requires id in docs ==> docs[id].status != Docs.Posted
    ensures !HasActive(payments, id)
  {
    forall p | p in payments ensures !Touches(payments[p], id) {
      assert WithinPayment(docs, payments[p]);
    }
  }

  /** An accepted correction keeps the allocations valid. */
  lemma RepostKeepsAllocations(docs: DocTable, payments: PayTable, id: int, d: Docs.Document)
    requires Bounded(docs, payments)
    requires id in docs && d.status == Docs.Posted && d.total >= 0
    requires CheckRepostAllocations(payments, id, docs[id].content, d.content, d.total).None?
    ensures Bounded(docs[id := d], payments)
    ensures Typed(docs, payments) ==> Typed(docs[id := d], payments)
  {
    if !HasActive(payments, id) {
      NoActiveNothingAllocated(payments, id);
    }
    PutDocumentKeeps(docs, payments, id, d);
  }

  /** A document without active allocations may become anything that is not over-paid. */
  lemma UnpaidDocumentKeeps(docs: DocTable, payments: PayTable, id: int, d: Docs.Document)
    requires Bounded(docs, payments)
    requires !HasActive(payments, id) && d.total >= 0
    ensures Bounded(docs[id := d], payments)
    ensures Typed(docs, payments) ==> Typed(docs[id := d], payments)
  {
    NoActiveNothingAllocated(payments, id);
    PutDocumentKeeps(docs, payments, id, d);
  }
}
