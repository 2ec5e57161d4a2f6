/** The migration that turned the one-document link of old payments into allocation rows. */
module Backfill {
  import opened Common
  import opened Sums
  import opened Ordering
  import opened Payments
  import Reconciliation
  import Stock
  import Docs = Documents

  predicate Selected(p: Payment)
  {
    p.document.Some? && p.status != Docs.Cancelled
  }

  /** The debt that is left to give away. */
  function Opening(docs: DocTable): map<int, int>
  {
    map d | d in docs && docs[d].status == Docs.Posted :: docs[d].total
  }

  datatype Progress = Progress(payments: PayTable, remaining: map<int, int>)

  /** One payment row of the migration. */
  function Step(docs: DocTable, now: Progress, id: int): Progress
    requires id in now.payments && Selected(now.payments[id])
  {
    var p := now.payments[id];
    var d := p.document.value;
    var available := if d in now.remaining then now.remaining[d] else 0;
    if d !in docs || available <= 0 || docs[d].content.partner != p.partner then now
    else if Min(p.amount, available) <= 0 then now
    else
      var amount := Min(p.amount, available);
      Progress(
        now.payments[id := p.(allocations := [Allocation(d, amount)])],
        if p.status == Docs.Posted then now.remaining[d := available - amount] else now.remaining)
  }

  /** What the remaining debts mean, and that nothing is over-paid so far. */
  ghost predicate OnCourse(docs: DocTable, now: Progress)
  {
    && now.remaining.Keys == Opening(docs).Keys
    && (forall id :: id in now.payments ==> WithinPayment(docs, now.payments[id]))
    && (forall d :: d in now.remaining ==>
          now.remaining[d] == docs[d].total - Allocated(now.payments, d) && now.remaining[d] >= 0)
  }

  lemma AmountToOne(doc: int, amount: int, d: int)
    ensures AmountTo([Allocation(doc, amount)], d) == if d == doc then amount else 0
    ensures AmountTo([], d) == 0
    ensures AllocatedTotal([Allocation(doc, amount)]) == amount
  {
    assert [Allocation(doc, amount)][..0] == [];
  }

  lemma StepStaysOnCourse(docs: DocTable, now: Progress, id: int)
    requires OnCourse(docs, now)
    requires id in now.payments && Selected(now.payments[id]) && now.payments[id].allocations == []
    ensures OnCourse(docs, Step(docs, now, id))
  {
    var next := Step(docs, now, id);
    var p := now.payments[id];
    if next != now {
      var doc, amount := p.document.value, next.payments[id].allocations[0].amount;
      AmountToOne(doc, amount, doc);
      forall d | d in next.remaining
        ensures next.remaining[d] == docs[d].total - Allocated(next.payments, d) && next.remaining[d] >= 0
      {
        AllocatedWith(now.payments, id, next.payments[id], d);
        AllocatedWithout(now.payments, id, d);
        AmountToOne(doc, amount, d);
      }
    }
  }

  /** The migration as a fold over the selected rows. */
  function Run(docs: DocTable, start: Progress, order: seq<int>): Progress
  {
    if |order| == 0 then start else
      var before := Run(docs, start, order[..|order| - 1]);
      var id := order[|order| - 1];
      if id in before.payments && Selected(before.payments[id]) then Step(docs, before, id) else before
  }

  /** The same payments, their allocations aside. */
  predicate SameButAllocations(before: PayTable, after: PayTable)
  {
    after.Keys == before.Keys
    && forall id :: id in after ==> after[id] == before[id].(allocations := after[id].allocations)
  }

  /** Only allocations are filled in. */
  lemma {:induction false} RunFillsAllocations(docs: DocTable, start: Progress, order: seq<int>)
    ensures SameButAllocations(start.payments, Run(docs, start, order).payments)
  {
    if |order| > 0 {
      RunFillsAllocations(docs, start, order[..|order| - 1]);
    }
  }

  lemma StartsOnCourse(docs: DocTable, payments: PayTable)
    requires CleanSlate(docs, payments)
    ensures OnCourse(docs, Progress(payments, Opening(docs)))
  {
    forall d ensures Allocated(payments, d) == 0 {
      forall id | id in payments ensures PostedTo(d)(id, payments[id]) == 0 {
        assert payments[id].allocations == [];
      }
      MapSumZero(payments, PostedTo(d));
    }
  }

  lemma OnCourseIsBounded(docs: DocTable, now: Progress)
    requires OnCourse(docs, now)
    requires forall d :: d in docs ==> docs[d].total >= 0
    ensures Bounded(docs, now.payments)
  {
    forall d | d in docs ensures Allocated(now.payments, d) <= docs[d].total {
      if d in now.remaining {
        assert now.remaining[d] == docs[d].total - Allocated(now.payments, d);
      } else {
        forall id | id in now.payments ensures PostedTo(d)(id, now.payments[id]) == 0 {
          assert WithinPayment(docs, now.payments[id]);
          if now.payments[id].status == Docs.Posted {
            AmountToAbsent(now.payments[id].allocations, d);
          }
        }
        MapSumZero(now.payments, PostedTo(d));
      }
    }
  }

  /** What the tables guarantee before the migration: no allocation rows yet, positive payments, no negative totals. */
  predicate CleanSlate(docs: DocTable, payments: PayTable)
  {
    && (forall id :: id in payments ==> payments[id].allocations == [] && payments[id].amount > 0)
    && (forall d :: d in docs ==> docs[d].total >= 0)
  }

  /** Selected payments, each once. */
  predicate OnceEach(payments: PayTable, order: seq<int>)
  {
    && (forall i :: 0 <= i < |order| ==> order[i] in payments && Selected(payments[order[i]]))
    && (forall i, j :: 0 <= i < j < |order| ==> order[i] != order[j])
  }

  /** Selected payments by date and id. */
  predicate ByDate(payments: PayTable, order: seq<int>)
    requires OnceEach(payments, order)
  {
    forall i, j :: 0 <= i < j < |order| ==>
      Precedes(Stamp(payments[order[i]].date, 0, order[i]), Stamp(payments[order[j]].date, 0, order[j]))
  }

  /** A payment that has not had its turn is as it was. */
  lemma {:induction false} NotYet(docs: DocTable, start: Progress, order: seq<int>, id: int)
    requires id !in order
    ensures id in start.payments <==> id in Run(docs, start, order).payments
    ensures id in start.payments ==> Run(docs, start, order).payments[id] == start.payments[id]
  {
    if |order| > 0 {
      NotYet(docs, start, order[..|order| - 1], id);
    }
  }

  lemma {:induction false} RunStaysOnCourse(docs: DocTable, payments: PayTable, order: seq<int>)
    requires CleanSlate(docs, payments) && OnceEach(payments, order)
    ensures OnCourse(docs, Run(docs, Progress(payments, Opening(docs)), order))
  {
    var start := Progress(payments, Opening(docs));
    if |order| == 0 {
      StartsOnCourse(docs, payments);
    } else {
      var n := |order| - 1;
      RunStaysOnCourse(docs, payments, order[..n]);
      NotYet(docs, start, order[..n], order[n]);
      StepStaysOnCourse(docs, Run(docs, start, order[..n]), order[n]);
    }
  }

  /** In whatever order the payments take their turns, none is over-spent and no document over-paid. */
  lemma MigrationIsBounded(docs: DocTable, payments: PayTable, order: seq<int>)
    requires CleanSlate(docs, payments) && OnceEach(payments, order)
    ensures Bounded(docs, Run(docs, Progress(payments, Opening(docs)), order).payments)
  {
    RunStaysOnCourse(docs, payments, order);
    OnCourseIsBounded(docs, Run(docs, Progress(payments, Opening(docs)), order));
  }

  // ------------------------------------------------------------ who gets an allocation

  /** A posted payment that is linked to a posted document with the same partner, or with none like itself. */
  predicate Claims(docs: DocTable, p: Payment, d: int)
  {
    && p.status == Docs.Posted && p.document == Some(d)
    && d in docs && docs[d].status == Docs.Posted && docs[d].content.partner == p.partner
  }

  /** What the payments of a list ask of a document, all together. */
  function Claimed(docs: DocTable, payments: PayTable, order: seq<int>, d: int): int
  {
    if |order| == 0 then 0 else
      var id := order[|order| - 1];
      Claimed(docs, payments, order[..|order| - 1], d)
      + (if id in payments && Claims(docs, payments[id], d) then payments[id].amount else 0)
  }

  /** Payment i asks for something its document still owes when its turn comes. */
  predicate Gets(docs: DocTable, payments: PayTable, order: seq<int>, i: nat)
    requires OnceEach(payments, order) && i < |order|
  {
    var p := payments[order[i]];
    Claims(docs, p, p.document.value)
    && Claimed(docs, payments, order[..i], p.document.value) < docs[p.document.value].total
  }

  /** One turn takes a claim off what is left, as far as it goes. */
  lemma StepTakesClaim(docs: DocTable, now: Progress, id: int, d: int)
    requires id in now.payments && Selected(now.payments[id]) && now.payments[id].amount > 0
    requires d in docs && docs[d].status == Docs.Posted && d in now.remaining && now.remaining[d] >= 0
    ensures var left := Step(docs, now, id).remaining;
      d in left && left[d]
        == Max(now.remaining[d] - (if Claims(docs, now.payments[id], d) then now.payments[id].amount else 0), 0)
  {
  }

  /** What is left of a document's debt is its total less everything asked of it, down to zero. */
  lemma {:induction false} RemainingDebt(docs: DocTable, payments: PayTable, order: seq<int>, d: int)
    requires CleanSlate(docs, payments) && OnceEach(payments, order)
    requires d in docs && docs[d].status == Docs.Posted
    ensures var remaining := Run(docs, Progress(payments, Opening(docs)), order).remaining;
      d in remaining && remaining[d] == Max(docs[d].total - Claimed(docs, payments, order, d), 0)
  {
    if |order| > 0 {
      var n := |order| - 1;
      RemainingDebt(docs, payments, order[..n], d);
      NotYet(docs, Progress(payments, Opening(docs)), order[..n], order[n]);
      StepTakesClaim(docs, Run(docs, Progress(payments, Opening(docs)), order[..n]), order[n], d);
    }
  }

  /** When a turn gives an allocation. */
  lemma StepAllocates(docs: DocTable, now: Progress, id: int)
    requires id in now.payments && Selected(now.payments[id])
    requires now.payments[id].allocations == [] && now.payments[id].amount > 0
    requires now.remaining.Keys <= docs.Keys
    ensures var p, next := now.payments[id], Step(docs, now, id).payments;
      var d := p.document.value;
      var given := d in now.remaining && now.remaining[d] > 0 && docs[d].content.partner == p.partner;
      && id in next && |next[id].allocations| == (if given then 1 else 0)
      && (given ==> next[id].allocations[0].doc == d)
  {
  }

  /** A payment has one allocation if it gets one, to its own document, and none otherwise. */
  predicate HasWhatItGets(docs: DocTable, payments: PayTable, order: seq<int>, i: nat, filled: PayTable)
    requires OnceEach(payments, order) && i < |order|
  {
    && order[i] in filled
    && |filled[order[i]].allocations| == (if Gets(docs, payments, order, i) then 1 else 0)
    && (Gets(docs, payments, order, i) ==> filled[order[i]].allocations[0].doc == payments[order[i]].document.value)
  }

  lemma LastAllocatedIffGets(docs: DocTable, payments: PayTable, order: seq<int>, before: Progress)
    requires CleanSlate(docs, payments) && OnceEach(payments, order) && |order| > 0
    requires before == Run(docs, Progress(payments, Opening(docs)), order[..|order| - 1])
    requires payments[order[|order| - 1]].status == Docs.Posted
    ensures var id := order[|order| - 1];
      && id in before.payments && before.payments[id] == payments[id]
      && HasWhatItGets(docs, payments, order, |order| - 1, Step(docs, before, id).payments)
  {
    var n := |order| - 1;
    NotYet(docs, Progress(payments, Opening(docs)), order[..n], order[n]);
    RunStaysOnCourse(docs, payments, order[..n]);
    StepAllocates(docs, before, order[n]);
    var d := payments[order[n]].document.value;
    if d in docs && docs[d].status == Docs.Posted {
      RemainingDebt(docs, payments, order[..n], d);
    }
  }

  lemma LaterTurnsLeave(docs: DocTable, payments: PayTable, order: seq<int>, i: nat, before: PayTable, after: PayTable)
    requires OnceEach(payments, order) && i < |order| - 1
    requires HasWhatItGets(docs, payments, order[..|order| - 1], i, before)
    requires order[i] in after && after[order[i]] == before[order[i]]
    ensures HasWhatItGets(docs, payments, order, i, after)
  {
    assert order[..|order| - 1][..i] == order[..i];
  }

  /** A posted payment ends with an allocation exactly when it gets one, and then to its own document. */
  lemma {:induction false} AllocatedIffGets(docs: DocTable, payments: PayTable, order: seq<int>, i: nat)
    requires CleanSlate(docs, payments) && OnceEach(payments, order)
    requires i < |order| && payments[order[i]].status == Docs.Posted
    ensures HasWhatItGets(docs, payments, order, i, Run(docs, Progress(payments, Opening(docs)), order).payments)
    decreases |order|
  {
    var start, n := Progress(payments, Opening(docs)), |order| - 1;
    var before := Run(docs, start, order[..n]);
    if i < n {
      AllocatedIffGets(docs, payments, order[..n], i);
      LaterTurnsLeave(docs, payments, order, i, before.payments, Run(docs, start, order).payments);
    } else {
      LastAllocatedIffGets(docs, payments, order, before);
    }
  }

  /** What payment i finds unpaid of its document when its turn comes, if it may have any of it. */
  function Found(docs: DocTable, payments: PayTable, order: seq<int>, i: nat): int
    requires OnceEach(payments, order) && i < |order|
  {
    var p := payments[order[i]];
    var d := p.document.value;
    if d in docs && docs[d].status == Docs.Posted && docs[d].content.partner == p.partner
    then docs[d].total - Claimed(docs, payments, order[..i], d)
    else 0
  }

  /** It takes all it asks for or all it finds. */
  predicate Filled(docs: DocTable, payments: PayTable, order: seq<int>, i: nat, filled: PayTable)
    requires OnceEach(payments, order) && i < |order|
  {
    var p, found := payments[order[i]], Found(docs, payments, order, i);
    && order[i] in filled
    && filled[order[i]]
       == p.(allocations := if found > 0 then [Allocation(p.document.value, Min(p.amount, found))] else [])
  }

  lemma LastFilled(docs: DocTable, payments: PayTable, order: seq<int>, before: Progress)
    requires CleanSlate(docs, payments) && OnceEach(payments, order) && |order| > 0
    requires before == Run(docs, Progress(payments, Opening(docs)), order[..|order| - 1])
    ensures var id := order[|order| - 1];
      && id in before.payments && before.payments[id] == payments[id]
      && Filled(docs, payments, order, |order| - 1, Step(docs, before, id).payments)
  {
    var n := |order| - 1;
    NotYet(docs, Progress(payments, Opening(docs)), order[..n], order[n]);
    RunStaysOnCourse(docs, payments, order[..n]);
    var d := payments[order[n]].document.value;
    if d in docs && docs[d].status == Docs.Posted {
      RemainingDebt(docs, payments, order[..n], d);
    }
  }

  /** Every payment of the migration, draft or posted, ends with exactly what it found. */
  lemma {:induction false} FilledExactly(docs: DocTable, payments: PayTable, order: seq<int>, i: nat)
    requires CleanSlate(docs, payments) && OnceEach(payments, order) && i < |order|
    ensures Filled(docs, payments, order, i, Run(docs, Progress(payments, Opening(docs)), order).payments)
    decreases |order|
  {
    var start, n := Progress(payments, Opening(docs)), |order| - 1;
    var before := Run(docs, start, order[..n]);
    LastFilled(docs, payments, order, before);
    if i < n {
      FilledExactly(docs, payments, order[..n], i);
      assert order[..n][..i] == order[..i];
    }
  }

  /** The document type a payment that gets an allocation must find. */
  predicate TypeFits(docs: DocTable, payments: PayTable, order: seq<int>, i: nat)
    requires OnceEach(payments, order) && i < |order|
  {
    Gets(docs, payments, order, i) ==>
      Some(docs[payments[order[i]].document.value].content.docType) == ExpectedType(payments[order[i]].payType)
  }

  /** One migrated payment is well typed exactly when it gets nothing or finds the right type. */
  lemma WellTypedIffFits(docs: DocTable, payments: PayTable, order: seq<int>, i: nat)
    requires CleanSlate(docs, payments) && OnceEach(payments, order) && i < |order|
    ensures var filled := Run(docs, Progress(payments, Opening(docs)), order).payments;
      order[i] in filled && (WellTyped(docs, filled[order[i]]) <==> TypeFits(docs, payments, order, i))
  {
    RunFillsAllocations(docs, Progress(payments, Opening(docs)), order);
    var filled := Run(docs, Progress(payments, Opening(docs)), order).payments;
    assert filled[order[i]] == payments[order[i]].(allocations := filled[order[i]].allocations);
    if payments[order[i]].status == Docs.Posted {
      AllocatedIffGets(docs, payments, order, i);
    }
  }

  /**
   When the migration types its rows correctly: exactly when every posted payment whose turn finds something
   unpaid, on a document with its partner or without one like itself, is linked to a document of the type it
   may pay. A refund may pay none.
   */
  lemma MigrationTypesExactly(docs: DocTable, payments: PayTable, order: seq<int>)
    requires CleanSlate(docs, payments) && OnceEach(payments, order)
    ensures Typed(docs, Run(docs, Progress(payments, Opening(docs)), order).payments)
      <==> forall i :: 0 <= i < |order| ==> TypeFits(docs, payments, order, i)
  {
    var filled := Run(docs, Progress(payments, Opening(docs)), order).payments;
    forall i | 0 <= i < |order|
      ensures order[i] in filled && (WellTyped(docs, filled[order[i]]) <==> TypeFits(docs, payments, order, i))
    {
      WellTypedIffFits(docs, payments, order, i);
    }
    forall id | id in filled && id !in order ensures WellTyped(docs, filled[id]) {
      NotYet(docs, Progress(payments, Opening(docs)), order, id);
    }
  }

  // ------------------------------------------------------------ the loop

  /** The migration: payments by date and id, each taking what is left of its document's debt. */
  method BackfillAllocations(docs: DocTable, payments: PayTable) returns (filled: PayTable, ghost order: seq<int>)
    requires CleanSlate(docs, payments)
    ensures OnceEach(payments, order) && ByDate(payments, order)
    ensures forall id :: id in order <==>
      id in payments && payments[id].document.Some? && payments[id].status != Docs.Cancelled
    ensures filled == Run(docs, Progress(payments, Opening(docs)), order).payments
    ensures Bounded(docs, filled)
    ensures Typed(docs, filled) <==> forall i :: 0 <= i < |order| ==> TypeFits(docs, payments, order, i)
  {
    var rows := SelectRows(payments);
    filled := payments;
    var remaining := Opening(docs);
    ghost var start := Progress(payments, remaining);
    order := [];
    var i := 0;
    while i < |rows|
      invariant 0 <= i <= |rows| && |order| == i
      invariant forall j :: 0 <= j < i ==> order[j] == rows[j].stamp.id
      invariant Progress(filled, remaining) == Run(docs, start, order)
    {
      var id := rows[i].stamp.id;
      NotYet(docs, start, order, id);
      assert (order + [id])[..|order|] == order;
      order := order + [id];
      filled, remaining := FillPayment(docs, filled, remaining, id);
      i := i + 1;
    }
    OrderCoversRows(payments, rows, order);
    MigrationIsBounded(docs, payments, order);
    MigrationTypesExactly(docs, payments, order);
  }

  /** What there is of the linked document's debt, at most the payment's amount. */
  predicate GivenRight(p: Payment, remaining: map<int, int>, given: int)
  {
    && p.document.Some? && p.document.value in remaining
    && given == Min(p.amount, remaining[p.document.value])
  }

  /**
   One turn of the loop. The payment gets all it asks for or all there is, or nothing if it may have none;
   its document's debt shrinks by what a posted payment gets, and nothing else changes.
   */
  method FillPayment(docs: DocTable, payments: PayTable, remaining: map<int, int>, id: int)
    returns (filled: PayTable, left: map<int, int>)
    requires id in payments && Selected(payments[id]) && payments[id].allocations == []
    ensures Progress(filled, left) == Step(docs, Progress(payments, remaining), id)
    ensures forall x :: x in payments && x != id ==> x in filled && filled[x] == payments[x]
    ensures var given := AllocatedTotal(filled[id].allocations);
      0 <= given && (given > 0 ==> GivenRight(payments[id], remaining, given))
    ensures forall d :: d in remaining ==> d in left && left[d] == remaining[d] - PostedTo(d)(id, filled[id])
  {
    filled, left := payments, remaining;
    var p := payments[id];
    var doc := p.document.value;
    var available := if doc in remaining then remaining[doc] else 0;
    if doc !in docs || available <= 0 || docs[doc].content.partner != p.partner {
      return;
    }
    var amount := if p.amount <= available then p.amount else available;
    if amount <= 0 {
      return;
    }
    filled := filled[id := p.(allocations := [Allocation(doc, amount)])];
    AmountToOne(doc, amount, doc);
    forall d ensures AmountTo([Allocation(doc, amount)], d) == if d == doc then amount else 0 {
      AmountToOne(doc, amount, d);
    }
    if p.status == Docs.Posted {
      left := left[doc := available - amount];
    }
  }

  predicate HasTurn(rows: seq<Entry>, id: int)
  {
    exists i :: 0 <= i < |rows| && rows[i].stamp.id == id
  }

  lemma OrderCoversRows(payments: PayTable, rows: seq<Entry>, order: seq<int>)
    requires |order| == |rows| && forall j :: 0 <= j < |rows| ==> order[j] == rows[j].stamp.id
    requires forall id :: id in payments && Selected(payments[id]) ==> HasTurn(rows, id)
    requires forall i, j :: 0 <= i < j < |rows| ==> rows[i].stamp.id != rows[j].stamp.id
    requires StrictlySorted(rows) && forall i :: 0 <= i < |rows| ==> RowOf(payments, rows[i])
    ensures OnceEach(payments, order) && ByDate(payments, order)
    ensures forall id :: id in order <==> id in payments && Selected(payments[id])
  {
    forall i, j | 0 <= i < j < |order|
      ensures Precedes(Stamp(payments[order[i]].date, 0, order[i]), Stamp(payments[order[j]].date, 0, order[j]))
    {
      assert RowOf(payments, rows[i]) && RowOf(payments, rows[j]);
      assert Precedes(rows[i].stamp, rows[j].stamp);
    }
    forall id ensures id in order <==> id in payments && Selected(payments[id]) {
      if id in order {
        var j :| 0 <= j < |order| && order[j] == id;
      }
      if id in payments && Selected(payments[id]) {
        var j :| 0 <= j < |rows| && rows[j].stamp.id == id;
        assert order[j] == id;
      }
    }
  }

  /** The linked, uncancelled payments by date and id. */
  method SelectRows(payments: PayTable) returns (rows: seq<Entry>)
    ensures forall i, j :: 0 <= i < j < |rows| ==> rows[i].stamp.id != rows[j].stamp.id
    ensures StrictlySorted(rows)
    ensures forall i :: 0 <= i < |rows| ==> RowOf(payments, rows[i])
    ensures forall id :: id in payments && Selected(payments[id]) ==> HasTurn(rows, id)
  {
    var found: seq<Entry> := [];
    var left := payments;
    while |left| > 0
      invariant forall id :: id in left ==> id in payments && left[id] == payments[id]
      invariant DistinctStamps(found)
      invariant forall e: Entry :: e in found <==> RowOf(payments, e) && e.stamp.id !in left
      decreases |left|
    {
      ghost var first := Pick(left);
      assert first in left.Keys;
      var id :| id in left.Keys;
      if Selected(payments[id]) {
        var row := Entry(Stamp(payments[id].date, 0, id), 0);
        Reconciliation.FreshStamp(found, row);
        found := found + [row];
      }
      left := left - {id};
    }
    SortSorts(found);
    Reconciliation.SortKeepsMembers(found);
    rows := Sort(found);
    SortedRows(payments, rows);
  }

  predicate RowOf(payments: PayTable, e: Entry)
  {
    e.stamp.id in payments && Selected(payments[e.stamp.id])
    && e == Entry(Stamp(payments[e.stamp.id].date, 0, e.stamp.id), 0)
  }

  lemma SortedRows(payments: PayTable, rows: seq<Entry>)
    requires StrictlySorted(rows)
    requires forall e: Entry :: e in rows <==> RowOf(payments, e)
    ensures forall i, j :: 0 <= i < j < |rows| ==> rows[i].stamp.id != rows[j].stamp.id
    ensures forall i :: 0 <= i < |rows| ==> RowOf(payments, rows[i])
    ensures forall id :: id in payments && Selected(payments[id]) ==> HasTurn(rows, id)
  {
    forall i | 0 <= i < |rows| ensures RowOf(payments, rows[i]) {
      assert rows[i] in rows;
    }
    forall i, j | 0 <= i < j < |rows| ensures rows[i].stamp.id != rows[j].stamp.id {
      assert RowOf(payments, rows[i]) && RowOf(payments, rows[j]);
      assert Precedes(rows[i].stamp, rows[j].stamp);
    }
    forall id | id in payments && Selected(payments[id]) ensures HasTurn(rows, id) {
      var e := Entry(Stamp(payments[id].date, 0, id), 0);
      assert RowOf(payments, e);
      var i :| 0 <= i < |rows| && rows[i] == e;
    }
  }

  /** One purchase, posted for 100, and one old payment of 40 linked to it. */
  function OneLinked(payType: PayType, partner: Option<int>): (DocTable, PayTable)
  {
    (map[1 := Docs.Document(Stock.Content(Stock.Incoming, 0, partner, None, None, []), Docs.Posted, 0, 100)],
     map[9 := Payment(partner, 0, payType, true, Docs.Posted, 40, [], Some(1))])
  }

  /**
   The migration looks at the partner but not at the document type, so it can leave a refund, or a
   customer payment, on a purchase; such a row is within bounds but not well typed.
   */
  lemma BackfillCanMistype(payType: PayType, partner: Option<int>)
    ensures var (docs, payments) := OneLinked(payType, partner);
      && CleanSlate(docs, payments) && OnceEach(payments, [9])
      && (Typed(docs, Run(docs, Progress(payments, Opening(docs)), [9]).payments) <==> payType == SupplierPayment)
  {
    var (docs, payments) := OneLinked(payType, partner);
    MigrationTypesExactly(docs, payments, [9]);
    assert [9][..0] == [];
    assert Claimed(docs, payments, [9][..0], 1) == 0;
    assert Gets(docs, payments, [9], 0);
    assert TypeFits(docs, payments, [9], 0) <==> payType == SupplierPayment;
  }
}
