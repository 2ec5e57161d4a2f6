/** Partner balances: the aggregate, what it decomposes into, and the statement that spells it out. */
module Reconciliation {
  import opened Common
  import opened Sums
  import opened Payments
  import opened Ordering
  import Stock
  import Docs = Documents

  // ------------------------------------------------------------ the aggregate

  function DocumentEffect(d: Docs.Document): int
  {
    if d.status != Docs.Posted then 0 else
      match d.content.docType
      case Outgoing => d.total
      case Incoming => -d.total
      case _ => 0
  }

  function PaymentEffect(p: Payment): int
  {
    if p.status != Docs.Posted then 0 else
      match p.payType
      case CustomerPayment => -p.amount
      case SupplierPayment => p.amount
      case Refund => p.amount
  }

  function DocumentEffectOn(partner: int): (int, Docs.Document) -> int
  {
    (id: int, d: Docs.Document) => if d.content.partner == Some(partner) then DocumentEffect(d) else 0
  }

  function PaymentEffectOn(partner: int): (int, Payment) -> int
  {
    (id: int, p: Payment) => if p.partner == Some(partner) then PaymentEffect(p) else 0
  }

  /** The grouped aggregate: positive when the partner owes us. */
  ghost function PartnerBalance(docs: DocTable, payments: PayTable, partner: int): int
  {
    MapSum(docs, DocumentEffectOn(partner)) + MapSum(payments, PaymentEffectOn(partner))
  }

  // ------------------------------------------------------------ open items

  predicate InClass(d: Docs.Document, partner: int, docType: Stock.DocType)
  {
    d.status == Docs.Posted && d.content.docType == docType && d.content.partner == Some(partner)
  }

  predicate PaysClass(p: Payment, partner: int, payType: PayType)
  {
    p.status == Docs.Posted && p.payType == payType && p.partner == Some(partner)
  }

  ghost function OutstandingRow(payments: PayTable, partner: int, docType: Stock.DocType): (int, Docs.Document) -> int
  {
    (id: int, d: Docs.Document) => if InClass(d, partner, docType) then d.total - Allocated(payments, id) else 0
  }

  function UnallocatedRow(partner: int, payType: PayType): (int, Payment) -> int
  {
    (id: int, p: Payment) => if PaysClass(p, partner, payType) then p.amount - AllocatedTotal(p.allocations) else 0
  }

  /** What is still owed on a partner's posted documents of one type. */
  ghost function OutstandingSum(docs: DocTable, payments: PayTable, partner: int, docType: Stock.DocType): int
  {
    MapSum(docs, OutstandingRow(payments, partner, docType))
  }

  /** What a partner's posted payments of one type have not been allocated to. */
  ghost function UnallocatedSum(payments: PayTable, partner: int, payType: PayType): int
  {
    MapSum(payments, UnallocatedRow(partner, payType))
  }

  // ------------------------------------------------------------ double counting the allocations

  function TotalRow(partner: int, docType: Stock.DocType): (int, Docs.Document) -> int
  {
    (id: int, d: Docs.Document) => if InClass(d, partner, docType) then d.total else 0
  }

  function AmountRow(partner: int, payType: PayType): (int, Payment) -> int
  {
    (id: int, p: Payment) => if PaysClass(p, partner, payType) then p.amount else 0
  }

  function AllocatedRow(partner: int, payType: PayType): (int, Payment) -> int
  {
    (id: int, p: Payment) => if PaysClass(p, partner, payType) then AllocatedTotal(p.allocations) else 0
  }

  ghost function PaidRow(payments: PayTable, partner: int, docType: Stock.DocType): (int, Docs.Document) -> int
  {
    (id: int, d: Docs.Document) => if InClass(d, partner, docType) then Allocated(payments, id) else 0
  }

  function PaidByRow(allocations: seq<Allocation>, partner: int, docType: Stock.DocType): (int, Docs.Document) -> int
  {
    (id: int, d: Docs.Document) => if InClass(d, partner, docType) then AmountTo(allocations, id) else 0
  }

  function OneRow(a: Allocation, partner: int, docType: Stock.DocType): (int, Docs.Document) -> int
  {
    (id: int, d: Docs.Document) => if InClass(d, partner, docType) && id == a.doc then a.amount else 0
  }

  lemma OneAllocation(docs: DocTable, a: Allocation, partner: int, docType: Stock.DocType)
    requires a.doc in docs
    ensures MapSum(docs, OneRow(a, partner, docType)) == if InClass(docs[a.doc], partner, docType) then a.amount else 0
  {
    MapSumRemove(docs, a.doc, OneRow(a, partner, docType));
    MapSumZero(docs - {a.doc}, OneRow(a, partner, docType));
  }

  /** One payment's allocations, summed along the documents of a class. */
  lemma {:induction false} OnePaymentPays(docs: DocTable, allocations: seq<Allocation>, partner: int,
                                          docType: Stock.DocType, inside: bool)
    requires forall i :: 0 <= i < |allocations| ==>
      allocations[i].doc in docs && (InClass(docs[allocations[i].doc], partner, docType) <==> inside)
    ensures MapSum(docs, PaidByRow(allocations, partner, docType)) == if inside then AllocatedTotal(allocations) else 0
  {
    if |allocations| == 0 {
      MapSumZero(docs, PaidByRow(allocations, partner, docType));
    } else {
      var n := |allocations| - 1;
      OnePaymentPays(docs, allocations[..n], partner, docType, inside);
      OneAllocation(docs, allocations[n], partner, docType);
      MapSumAdd(docs, PaidByRow(allocations[..n], partner, docType), OneRow(allocations[n], partner, docType),
                PaidByRow(allocations, partner, docType));
    }
  }

  /** The documents of a class are exactly the ones the matching payments of the partner may pay. */
  lemma PaymentMatchesClass(docs: DocTable, p: Payment, partner: int, docType: Stock.DocType, payType: PayType)
    requires WithinPayment(docs, p) && WellTyped(docs, p)
    requires ExpectedType(payType) == Some(docType)
    requires p.status == Docs.Posted
    ensures forall i :: 0 <= i < |p.allocations| ==>
      p.allocations[i].doc in docs
      && (InClass(docs[p.allocations[i].doc], partner, docType) <==> PaysClass(p, partner, payType))
  {
  }

  /** What a payment counts towards the documents it names. */
  function Counting(p: Payment): seq<Allocation>
  {
    if p.status == Docs.Posted then p.allocations else []
  }

  /** Counted by document, one more payment adds what it allocates in that class. */
  lemma PaidRowGrows(docs: DocTable, payments: PayTable, k: int, partner: int, docType: Stock.DocType)
    requires k in payments
    ensures MapSum(docs, PaidRow(payments, partner, docType))
         == MapSum(docs, PaidRow(payments - {k}, partner, docType))
            + MapSum(docs, PaidByRow(Counting(payments[k]), partner, docType))
  {
    var rest, posted := payments - {k}, Counting(payments[k]);
    forall id | id in docs
      ensures PaidRow(payments, partner, docType)(id, docs[id])
           == PaidRow(rest, partner, docType)(id, docs[id]) + PaidByRow(posted, partner, docType)(id, docs[id])
    {
      MapSumRemove(payments, k, PostedTo(id));
    }
    MapSumAdd(docs, PaidRow(rest, partner, docType), PaidByRow(posted, partner, docType),
              PaidRow(payments, partner, docType));
  }

  /** One payment's allocations in a class are all of its allocations, or none. */
  lemma PaymentCountsInClass(docs: DocTable, p: Payment, partner: int, docType: Stock.DocType, payType: PayType)
    requires WithinPayment(docs, p) && WellTyped(docs, p)
    requires ExpectedType(payType) == Some(docType)
    ensures MapSum(docs, PaidByRow(Counting(p), partner, docType))
         == if PaysClass(p, partner, payType) then AllocatedTotal(p.allocations) else 0
  {
    if p.status == Docs.Posted {
      PaymentMatchesClass(docs, p, partner, docType, payType);
    }
    OnePaymentPays(docs, Counting(p), partner, docType, PaysClass(p, partner, payType));
  }

  /** Allocations counted by document and counted by payment are the same money. */
  lemma {:induction false} CountedTwice(docs: DocTable, payments: PayTable, partner: int, docType: Stock.DocType,
                                        payType: PayType)
    requires forall id :: id in payments ==> WithinPayment(docs, payments[id]) && WellTyped(docs, payments[id])
    requires ExpectedType(payType) == Some(docType)
    ensures MapSum(docs, PaidRow(payments, partner, docType)) == MapSum(payments, AllocatedRow(partner, payType))
    decreases |payments|
  {
    if |payments| == 0 {
      MapSumZero(docs, PaidRow(payments, partner, docType));
    } else {
      var k := Pick(payments);
      assert WithinPayment(docs, payments[k]) && WellTyped(docs, payments[k]);
      CountedTwice(docs, payments - {k}, partner, docType, payType);
      MapSumRemove(payments, k, AllocatedRow(partner, payType));
      PaidRowGrows(docs, payments, k, partner, docType);
      PaymentCountsInClass(docs, payments[k], partner, docType, payType);
    }
  }

  lemma OutstandingSplits(docs: DocTable, payments: PayTable, partner: int, docType: Stock.DocType)
    ensures MapSum(docs, TotalRow(partner, docType))
         == OutstandingSum(docs, payments, partner, docType) + MapSum(docs, PaidRow(payments, partner, docType))
  {
    MapSumAdd(docs, OutstandingRow(payments, partner, docType), PaidRow(payments, partner, docType),
              TotalRow(partner, docType));
  }

  lemma UnallocatedSplits(payments: PayTable, partner: int, payType: PayType)
    ensures MapSum(payments, AmountRow(partner, payType))
         == UnallocatedSum(payments, partner, payType) + MapSum(payments, AllocatedRow(partner, payType))
  {
    MapSumAdd(payments, UnallocatedRow(partner, payType), AllocatedRow(partner, payType), AmountRow(partner, payType));
  }

  function NegatedTotalRow(partner: int): (int, Docs.Document) -> int
  {
    (id: int, d: Docs.Document) => if InClass(d, partner, Stock.Incoming) then -d.total else 0
  }

  function NegatedAmountRow(partner: int): (int, Payment) -> int
  {
    (id: int, p: Payment) => if PaysClass(p, partner, CustomerPayment) then -p.amount else 0
  }

  function PaidOutRow(partner: int): (int, Payment) -> int
  {
    (id: int, p: Payment) =>
      if PaysClass(p, partner, SupplierPayment) || PaysClass(p, partner, Refund) then p.amount else 0
  }

  lemma {:induction false} MapSumNegated<K, V>(m: map<K, V>, f: (K, V) -> int, g: (K, V) -> int)
    requires forall k :: k in m ==> g(k, m[k]) == -f(k, m[k])
    ensures MapSum(m, g) == -MapSum(m, f)
    decreases |m|
  {
    if |m| > 0 {
      MapSumNegated(m - {Pick(m)}, f, g);
    }
  }

  lemma DocumentsSplit(docs: DocTable, partner: int)
    ensures MapSum(docs, DocumentEffectOn(partner))
         == MapSum(docs, TotalRow(partner, Stock.Outgoing)) - MapSum(docs, TotalRow(partner, Stock.Incoming))
  {
    MapSumAdd(docs, TotalRow(partner, Stock.Outgoing), NegatedTotalRow(partner), DocumentEffectOn(partner));
    MapSumNegated(docs, TotalRow(partner, Stock.Incoming), NegatedTotalRow(partner));
  }

  lemma PaymentsSplit(payments: PayTable, partner: int)
    ensures MapSum(payments, PaymentEffectOn(partner))
         == MapSum(payments, AmountRow(partner, SupplierPayment)) + MapSum(payments, AmountRow(partner, Refund))
            - MapSum(payments, AmountRow(partner, CustomerPayment))
  {
    MapSumAdd(payments, PaidOutRow(partner), NegatedAmountRow(partner), PaymentEffectOn(partner));
    MapSumAdd(payments, AmountRow(partner, SupplierPayment), AmountRow(partner, Refund), PaidOutRow(partner));
    MapSumNegated(payments, AmountRow(partner, CustomerPayment), NegatedAmountRow(partner));
  }

  /**
   The reconciliation identity: a partner's balance is what is open on sales, less what is open on
   purchases, less customer advances, plus supplier advances and historical refunds.
   */
  lemma BalanceDecomposes(docs: DocTable, payments: PayTable, partner: int)
    requires Bounded(docs, payments) && Typed(docs, payments)
    ensures PartnerBalance(docs, payments, partner)
         == OutstandingSum(docs, payments, partner, Stock.Outgoing)
            - OutstandingSum(docs, payments, partner, Stock.Incoming)
            - UnallocatedSum(payments, partner, CustomerPayment)
            + UnallocatedSum(payments, partner, SupplierPayment)
            + MapSum(payments, AmountRow(partner, Refund))
  {
    DocumentsSplit(docs, partner);
    PaymentsSplit(payments, partner);
    OutstandingSplits(docs, payments, partner, Stock.Outgoing);
    OutstandingSplits(docs, payments, partner, Stock.Incoming);
    UnallocatedSplits(payments, partner, CustomerPayment);
    UnallocatedSplits(payments, partner, SupplierPayment);
    CountedTwice(docs, payments, partner, Stock.Outgoing, CustomerPayment);
    CountedTwice(docs, payments, partner, Stock.Incoming, SupplierPayment);
  }

  /** Every open item and every advance in the identity is non-negative: the clamp at zero never bites. */
  lemma OpenItemsAreNonnegative(docs: DocTable, payments: PayTable, partner: int, docType: Stock.DocType,
                                payType: PayType)
    requires Bounded(docs, payments)
    ensures OutstandingSum(docs, payments, partner, docType) >= 0
    ensures UnallocatedSum(payments, partner, payType) >= 0
    ensures forall d :: d in docs ==> Outstanding(docs, payments, d) == docs[d].total - Allocated(payments, d)
  {
    MapSumNonneg(docs, OutstandingRow(payments, partner, docType));
    forall id | id in payments ensures UnallocatedRow(partner, payType)(id, payments[id]) >= 0 {
      assert WithinPayment(docs, payments[id]);
    }
    MapSumNonneg(payments, UnallocatedRow(partner, payType));
  }

  // ------------------------------------------------------------ the statement

  /** One printed row of a partner statement. */
  datatype StatementRow = StatementRow(stamp: Stamp, debit: int, credit: int, balance: int)

  const DOCUMENT_RANK := 0
  const PAYMENT_RANK := 1

  function DocumentEntry(id: int, d: Docs.Document): Entry
  {
    Entry(Stamp(d.content.date, DOCUMENT_RANK, id), DocumentEffect(d))
  }

  function PaymentEntry(id: int, p: Payment): Entry
  {
    Entry(Stamp(p.date, PAYMENT_RANK, id), PaymentEffect(p))
  }

  ghost predicate ListsDocument(docs: DocTable, partner: int, e: Entry)
  {
    e.stamp.id in docs && docs[e.stamp.id].content.partner == Some(partner)
    && e == DocumentEntry(e.stamp.id, docs[e.stamp.id])
  }

  ghost predicate ListsPayment(payments: PayTable, partner: int, e: Entry)
  {
    e.stamp.id in payments && payments[e.stamp.id].partner == Some(partner)
    && e == PaymentEntry(e.stamp.id, payments[e.stamp.id])
  }

  /** The rows a partner's statement must list: every document and payment of the partner, no other. */
  ghost predicate Lists(docs: DocTable, payments: PayTable, partner: int, e: Entry)
  {
    ListsDocument(docs, partner, e) || ListsPayment(payments, partner, e)
  }

  lemma SeqSumSnoc(s: seq<Entry>, e: Entry)
    ensures SeqSum(s + [e], Amount()) == SeqSum(s, Amount()) + e.amount
  {
    assert (s + [e])[..|s|] == s;
  }

  lemma FreshStamp(entries: seq<Entry>, e: Entry)
    requires DistinctStamps(entries)
    requires forall x: Entry :: x in entries ==> x.stamp != e.stamp
    ensures DistinctStamps(entries + [e])
  {
    forall i | 0 <= i < |entries| ensures entries[i].stamp != e.stamp {
      assert entries[i] in entries;
    }
  }

  /** Read the partner's documents in whatever order the database gives them. */
  method CollectDocuments(docs: DocTable, partner: int) returns (entries: seq<Entry>)
    ensures DistinctStamps(entries)
    ensures forall e: Entry :: e in entries <==> ListsDocument(docs, partner, e)
    ensures SeqSum(entries, Amount()) == MapSum(docs, DocumentEffectOn(partner))
  {
    entries := [];
    var left := docs;
    while |left| > 0
      invariant forall id :: id in left ==> id in docs && left[id] == docs[id]
      invariant DistinctStamps(entries)
      invariant forall e: Entry :: e in entries <==> ListsDocument(docs, partner, e) && e.stamp.id !in left
      invariant SeqSum(entries, Amount()) + MapSum(left, DocumentEffectOn(partner))
             == MapSum(docs, DocumentEffectOn(partner))
      decreases |left|
    {
      ghost var first := Pick(left);
      assert first in left.Keys;
      var id :| id in left.Keys;
      MapSumRemove(left, id, DocumentEffectOn(partner));
      if docs[id].content.partner == Some(partner) {
        SeqSumSnoc(entries, DocumentEntry(id, docs[id]));
        FreshStamp(entries, DocumentEntry(id, docs[id]));
        entries := entries + [DocumentEntry(id, docs[id])];
      }
      left := left - {id};
    }
  }

  method CollectPayments(payments: PayTable, partner: int) returns (entries: seq<Entry>)
    ensures DistinctStamps(entries)
    ensures forall e: Entry :: e in entries <==> ListsPayment(payments, partner, e)
    ensures SeqSum(entries, Amount()) == MapSum(payments, PaymentEffectOn(partner))
  {
    entries := [];
    var left := payments;
    while |left| > 0
      invariant forall id :: id in left ==> id in payments && left[id] == payments[id]
      invariant DistinctStamps(entries)
      invariant forall e: Entry :: e in entries <==> ListsPayment(payments, partner, e) && e.stamp.id !in left
      invariant SeqSum(entries, Amount()) + MapSum(left, PaymentEffectOn(partner))
             == MapSum(payments, PaymentEffectOn(partner))
      decreases |left|
    {
      ghost var first := Pick(left);
      assert first in left.Keys;
      var id :| id in left.Keys;
      MapSumRemove(left, id, PaymentEffectOn(partner));
      if payments[id].partner == Some(partner) {
        SeqSumSnoc(entries, PaymentEntry(id, payments[id]));
        FreshStamp(entries, PaymentEntry(id, payments[id]));
        entries := entries + [PaymentEntry(id, payments[id])];
      }
      left := left - {id};
    }
  }

  lemma JoinedRows(docs: DocTable, payments: PayTable, partner: int, documents: seq<Entry>, received: seq<Entry>)
    requires DistinctStamps(documents) && DistinctStamps(received)
    requires forall e: Entry :: e in documents <==> ListsDocument(docs, partner, e)
    requires forall e: Entry :: e in received <==> ListsPayment(payments, partner, e)
    ensures DistinctStamps(documents + received)
    ensures forall e: Entry :: e in documents + received <==> Lists(docs, payments, partner, e)
  {
    forall i, j | 0 <= i < |documents| && 0 <= j < |received| ensures documents[i].stamp != received[j].stamp {
      assert documents[i] in documents && received[j] in received;
    }
  }

  /** A statement row says what its entry does and where the balance stands after it. */
  ghost predicate Prints(sorted: seq<Entry>, i: nat, row: StatementRow)
    requires i < |sorted|
  {
    && row.stamp == sorted[i].stamp
    && row.debit - row.credit == sorted[i].amount
    && row.debit >= 0 && row.credit >= 0 && (row.debit == 0 || row.credit == 0)
    && row.balance == Running(sorted, i + 1)
  }

  method PrintStatement(sorted: seq<Entry>) returns (rows: seq<StatementRow>)
    ensures |rows| == |sorted|
    ensures forall i :: 0 <= i < |rows| ==> Prints(sorted, i, rows[i])
  {
    rows := [];
    var balance := 0;
    var i := 0;
    while i < |sorted|
      invariant 0 <= i <= |sorted| && |rows| == i
      invariant balance == Running(sorted, i)
      invariant forall j :: 0 <= j < i ==> Prints(sorted, j, rows[j])
    {
      RunningStep(sorted, i);
      var effect := sorted[i].amount;
      var debit := if effect > 0 then effect else 0;
      var credit := if effect < 0 then -effect else 0;
      balance := balance + (debit - credit);
      rows := rows + [StatementRow(sorted[i].stamp, debit, credit, balance)];
      i := i + 1;
    }
  }

  lemma SortKeepsMembers(s: seq<Entry>)
    ensures forall e: Entry :: e in Sort(s) <==> e in s
  {
    SortKeepsRows(s);
    forall e: Entry ensures e in Sort(s) <==> e in s {
      assert e in Sort(s) <==> e in multiset(Sort(s));
      assert e in s <==> e in multiset(s);
    }
  }

  /** The statement: sorted by date, source and id, each row carrying the balance so far, ending at the aggregate. */
  method GetPartnerStatement(docs: DocTable, payments: PayTable, partner: int)
    returns (rows: seq<StatementRow>, sorted: seq<Entry>)
    ensures StrictlySorted(sorted) && |rows| == |sorted|
    ensures forall e: Entry :: e in sorted <==> Lists(docs, payments, partner, e)
    ensures forall i :: 0 <= i < |rows| ==> Prints(sorted, i, rows[i])
    ensures (if |rows| == 0 then 0 else rows[|rows| - 1].balance) == PartnerBalance(docs, payments, partner)
  {
    var documents := CollectDocuments(docs, partner);
    var received := CollectPayments(payments, partner);
    var entries := documents + received;
    JoinedRows(docs, payments, partner, documents, received);
    SeqSumConcat(documents, received, Amount());
    sorted := Sort(entries);
    SortSorts(entries);
    SortKeepsMembers(entries);
    SortKeepsSums(entries, Stamp(0, 0, 0));
    rows := PrintStatement(sorted);
    assert sorted[..|sorted|] == sorted;
  }

  // ------------------------------------------------------------ the grouped aggregate

  predicate Wanted(ids: Option<set<int>>, partner: int)
  {
    ids.None? || partner in ids.value
  }

  function ValueOf(sums: map<int, int>, partner: int): int
  {
    if partner in sums then sums[partner] else 0
  }

  /** The document effects, summed by partner. */
  method GroupDocumentEffects(docs: DocTable, ids: Option<set<int>>) returns (sums: map<int, int>)
    ensures forall q :: q in sums ==> Wanted(ids, q)
    ensures forall q :: Wanted(ids, q) ==> ValueOf(sums, q) == MapSum(docs, DocumentEffectOn(q))
  {
    sums := map[];
    var left := docs;
    while |left| > 0
      invariant forall q :: q in sums ==> Wanted(ids, q)
      invariant forall q :: Wanted(ids, q) ==>
        ValueOf(sums, q) + MapSum(left, DocumentEffectOn(q)) == MapSum(docs, DocumentEffectOn(q))
      decreases |left|
    {
      ghost var first := Pick(left);
      assert first in left.Keys;
      var id :| id in left.Keys;
      var d := left[id];
      forall q
        ensures MapSum(left, DocumentEffectOn(q))
             == DocumentEffectOn(q)(id, d) + MapSum(left - {id}, DocumentEffectOn(q))
      {
        MapSumRemove(left, id, DocumentEffectOn(q));
      }
      if d.content.partner.Some? && Wanted(ids, d.content.partner.value) {
        var q := d.content.partner.value;
        sums := sums[q := ValueOf(sums, q) + DocumentEffect(d)];
      }
      left := left - {id};
    }
  }

  method GroupPaymentEffects(payments: PayTable, ids: Option<set<int>>) returns (sums: map<int, int>)
    ensures forall q :: q in sums ==> Wanted(ids, q)
    ensures forall q :: Wanted(ids, q) ==> ValueOf(sums, q) == MapSum(payments, PaymentEffectOn(q))
  {
    sums := map[];
    var left := payments;
    while |left| > 0
      invariant forall q :: q in sums ==> Wanted(ids, q)
      invariant forall q :: Wanted(ids, q) ==>
        ValueOf(sums, q) + MapSum(left, PaymentEffectOn(q)) == MapSum(payments, PaymentEffectOn(q))
      decreases |left|
    {
      ghost var first := Pick(left);
      assert first in left.Keys;
      var id :| id in left.Keys;
      var p := left[id];
      forall q
        ensures MapSum(left, PaymentEffectOn(q)) == PaymentEffectOn(q)(id, p) + MapSum(left - {id}, PaymentEffectOn(q))
      {
        MapSumRemove(left, id, PaymentEffectOn(q));
      }
      if p.partner.Some? && Wanted(ids, p.partner.value) {
        var q := p.partner.value;
        sums := sums[q := ValueOf(sums, q) + PaymentEffect(p)];
      }
      left := left - {id};
    }
  }

  /** Balances of all partners at once, or of the ones asked for; a partner without rows has none. */
  method GetPartnerBalanceValues(docs: DocTable, payments: PayTable, ids: Option<set<int>>)
    returns (balances: map<int, int>)
    ensures forall q :: q in balances ==> Wanted(ids, q)
    ensures forall q :: Wanted(ids, q) ==> ValueOf(balances, q) == PartnerBalance(docs, payments, q)
  {
    balances := GroupDocumentEffects(docs, ids);
    var sums := GroupPaymentEffects(payments, ids);
    balances := AddSums(balances, sums);
  }

  /** Add each partner's second sum to the first. */
  method AddSums(first: map<int, int>, second: map<int, int>) returns (sums: map<int, int>)
    ensures forall q :: q in sums ==> q in first || q in second
    ensures forall q :: ValueOf(sums, q) == ValueOf(first, q) + ValueOf(second, q)
  {
    sums := first;
    var left := second.Keys;
    while left != {}
      invariant left <= second.Keys
      invariant forall q :: q in sums ==> q in first || q in second
      invariant forall q :: ValueOf(sums, q) == ValueOf(first, q) + (if q in left then 0 else ValueOf(second, q))
      decreases |left|
    {
      ghost var some := Member(left);
      var q :| q in left;
      sums := sums[q := ValueOf(sums, q) + second[q]];
      left := left - {q};
    }
  }
}
