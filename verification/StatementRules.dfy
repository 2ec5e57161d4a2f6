/** Balances and statements over the rows: what each document and payment counts for, and in what order it is listed. */
module StatementRules {
  import opened Common
  import opened Sums
  import S = Stock
  import D = Documents
  import P = Payments
  import R = Reconciliation
  import O = Ordering

  /** A posted sale is owed to us, a posted purchase is owed by us; nothing else counts. */
  function Owed(d: D.Document): int
  {
    if d.status == D.Posted && d.content.docType.Outgoing? then d.total
    else if d.status == D.Posted && d.content.docType.Incoming? then -d.total
    else 0
  }

  /** A posted customer payment pays off what is owed to us, any other posted payment what is owed by us. */
  function Paid(p: P.Payment): int
  {
    if p.status != D.Posted then 0 else if p.payType.CustomerPayment? then -p.amount else p.amount
  }

  function OwedBy(partner: int): (int, D.Document) -> int
  {
    (id: int, d: D.Document) => if d.content.partner == Some(partner) then Owed(d) else 0
  }

  function PaidBy(partner: int): (int, P.Payment) -> int
  {
    (id: int, p: P.Payment) => if p.partner == Some(partner) then Paid(p) else 0
  }

  /** A partner's balance is what the rows of that partner count for. */
  lemma BalanceIsSum(docs: P.DocTable, payments: P.PayTable, partner: int)
    ensures R.PartnerBalance(docs, payments, partner)
         == MapSum(docs, OwedBy(partner)) + MapSum(payments, PaidBy(partner))
  {
    MapSumSame(docs, R.DocumentEffectOn(partner), OwedBy(partner));
    MapSumSame(payments, R.PaymentEffectOn(partner), PaidBy(partner));
  }

  /** A statement lists documents and payments of the partner, each under its own date with what it counts for. */
  lemma ListedExactly(docs: P.DocTable, payments: P.PayTable, partner: int, e: O.Entry)
    ensures R.Lists(docs, payments, partner, e) <==>
      var id := e.stamp.id;
      || (&& e.stamp.rank == 0 && id in docs && docs[id].content.partner == Some(partner)
          && e.stamp.date == docs[id].content.date && e.amount == Owed(docs[id]))
      || (&& e.stamp.rank == 1 && id in payments && payments[id].partner == Some(partner)
          && e.stamp.date == payments[id].date && e.amount == Paid(payments[id]))
  {
  }

  /** Sorted is by date, on a day documents before payments, and then by number. */
  lemma SortedExactly(sorted: seq<O.Entry>)
    ensures O.StrictlySorted(sorted) <==>
      forall i, j :: 0 <= i < j < |sorted| ==>
        var a, b := sorted[i].stamp, sorted[j].stamp;
        a.date < b.date || (a.date == b.date && (a.rank < b.rank || (a.rank == b.rank && a.id < b.id)))
  {
    forall i, j | 0 <= i < j < |sorted|
      ensures O.Precedes(sorted[i].stamp, sorted[j].stamp) <==>
        var a, b := sorted[i].stamp, sorted[j].stamp;
        a.date < b.date || (a.date == b.date && (a.rank < b.rank || (a.rank == b.rank && a.id < b.id)))
    {
    }
  }
}
