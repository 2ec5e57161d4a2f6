/** The cash ledger: dated operations, and the check that it never goes negative. */
module Cash {
  import opened Common
  import opened Sums
  import opened Ordering

  datatype OpType = CashIn | CashOut | Correction

  datatype Direction = In | Out | Neutral

  datatype OpStatus = Live | Cancelled

  datatype CashOp = CashOp(
    date: int,
    opType: OpType,
    direction: Direction,
    status: OpStatus,
    amount: int,
    target: Option<int>,
    partner: Option<int>,
    document: Option<int>,
    payment: Option<int>)

  /** What a caller may ask for. */
  datatype Request = Request(
    date: int,
    opType: OpType,
    amount: int,
    partner: Option<int>,
    document: Option<int>,
    payment: Option<int>,
    noted: bool)

  /** The signed effect of an operation on the cash balance. */
  function Effect(op: CashOp): int
  {
    if op.status == Cancelled then 0 else
      match op.opType
      case CashIn => op.amount
      case CashOut => -op.amount
      case Correction => if op.direction == Out then -op.amount else op.amount
  }

  /** Operations are numbered from one in the order they were recorded. */
  function Id(i: nat): int
  {
    i + 1
  }

  function EntryOf(op: CashOp, id: int): Entry
  {
    Entry(Stamp(op.date, 0, id), Effect(op))
  }

  /** Every operation as a book entry, in recording order. */
  function Entries(ops: seq<CashOp>): (r: seq<Entry>)
    ensures |r| == |ops|
    ensures forall i :: 0 <= i < |ops| ==> r[i] == EntryOf(ops[i], Id(i))
  {
    seq(|ops|, i requires 0 <= i < |ops| => EntryOf(ops[i], Id(i)))
  }

  ghost function Balance(ops: seq<CashOp>): int
  {
    SeqSum(Entries(ops), Amount())
  }

  /** At no point of the book, in date and id order, is the cash negative. */
  ghost predicate NeverNegative(ops: seq<CashOp>)
  {
    Safe(Entries(ops))
  }

  // ------------------------------------------------------------ the ledger check

  const PLACEHOLDER: int := 0x7FFF_FFFF_FFFF_FFFF

  function Without(ops: seq<CashOp>, excluded: set<int>): (r: seq<CashOp>)
    ensures |r| == |ops|
  {
    seq(|ops|, i requires 0 <= i < |ops| => if Id(i) in excluded then ops[i].(status := Cancelled) else ops[i])
  }

  function Appended(ops: seq<CashOp>, pending: Option<CashOp>): seq<CashOp>
  {
    ops + (if pending.Some? then [pending.value] else [])
  }

  /** The live rows the check looks at. */
  function Kept(ops: seq<CashOp>, excluded: set<int>): seq<Entry>
  {
    if |ops| == 0 then [] else
      var n := |ops| - 1;
      Kept(ops[..n], excluded)
      + (if Id(n) !in excluded && ops[n].status == Live then [EntryOf(ops[n], Id(n))] else [])
  }

  function Checked(ops: seq<CashOp>, excluded: set<int>, pending: Option<CashOp>): seq<Entry>
  {
    Kept(ops, excluded) + (if pending.Some? then [EntryOf(pending.value, PLACEHOLDER)] else [])
  }

  lemma {:induction false} KeptIds(ops: seq<CashOp>, excluded: set<int>)
    ensures forall i :: 0 <= i < |Kept(ops, excluded)| ==> 1 <= Kept(ops, excluded)[i].stamp.id <= |ops|
    ensures DistinctStamps(Kept(ops, excluded))
  {
    if |ops| > 0 {
      KeptIds(ops[..|ops| - 1], excluded);
    }
  }

  lemma {:induction false} KeptUpTo(ops: seq<CashOp>, excluded: set<int>, cut: Stamp)
    ensures UpTo(Kept(ops, excluded), cut) == UpTo(Entries(Without(ops, excluded)), cut)
  {
    if |ops| > 0 {
      var n := |ops| - 1;
      KeptUpTo(ops[..n], excluded, cut);
      var after := Entries(Without(ops, excluded));
      assert after[..n] == Entries(Without(ops[..n], excluded));
      var last := if Id(n) !in excluded && ops[n].status == Live then [EntryOf(ops[n], Id(n))] else [];
      SeqSumConcat(Kept(ops[..n], excluded), last, AmountUpTo(cut));
      SeqSumOfOne(EntryOf(ops[n], Id(n)), AmountUpTo(cut));
    }
  }

  /** Cuts that tell ids apart the same way sum the same. */
  lemma {:induction false} UpToSameCut(s: seq<Entry>, a: Stamp, b: Stamp)
    requires forall i :: 0 <= i < |s| ==> (AtOrBefore(s[i].stamp, a) <==> AtOrBefore(s[i].stamp, b))
    ensures UpTo(s, a) == UpTo(s, b)
  {
    if |s| > 0 {
      UpToSameCut(s[..|s| - 1], a, b);
    }
  }

  lemma AppendedUpTo(ops: seq<CashOp>, op: CashOp, cut: Stamp)
    ensures UpTo(Entries(ops + [op]), cut) == UpTo(Entries(ops), cut) + AmountUpTo(cut)(EntryOf(op, Id(|ops|)))
  {
    assert Entries(ops + [op]) == Entries(ops) + [EntryOf(op, Id(|ops|))];
    SeqSumConcat(Entries(ops), [EntryOf(op, Id(|ops|))], AmountUpTo(cut));
    SeqSumOfOne(EntryOf(op, Id(|ops|)), AmountUpTo(cut));
  }

  lemma CheckedUpTo(ops: seq<CashOp>, excluded: set<int>, op: CashOp, cut: Stamp)
    ensures UpTo(Checked(ops, excluded, Some(op)), cut)
         == UpTo(Entries(Without(ops, excluded)), cut) + AmountUpTo(cut)(EntryOf(op, PLACEHOLDER))
  {
    KeptUpTo(ops, excluded, cut);
    SeqSumConcat(Kept(ops, excluded), [EntryOf(op, PLACEHOLDER)], AmountUpTo(cut));
    SeqSumOfOne(EntryOf(op, PLACEHOLDER), AmountUpTo(cut));
  }

  /** The row a cut through the placeholder stands for, and back. */
  function RealCut(cut: Stamp, rows: nat): Stamp
  {
    if cut.rank < 0 then cut
    else if cut.rank > 0 || cut.id >= PLACEHOLDER then Stamp(cut.date, 0, Id(rows))
    else Stamp(cut.date, 0, Min(cut.id, rows))
  }

  function CheckCut(cut: Stamp, rows: nat): Stamp
  {
    if cut.rank == 0 && cut.id >= Id(rows) then Stamp(cut.date, 0, PLACEHOLDER) else cut
  }

  lemma RowCuts(s: seq<Entry>, rows: nat, cut: Stamp)
    requires rows < PLACEHOLDER - 1
    requires forall i :: 0 <= i < |s| ==> s[i].stamp.rank == 0 && 1 <= s[i].stamp.id <= rows
    ensures UpTo(s, RealCut(cut, rows)) == UpTo(s, cut)
    ensures UpTo(s, CheckCut(cut, rows)) == UpTo(s, cut)
  {
    UpToSameCut(s, RealCut(cut, rows), cut);
    UpToSameCut(s, CheckCut(cut, rows), cut);
  }

  /**
   The placeholder id sorts the pending row where its real id will fall: the list the check looks at
   is safe exactly when the ledger with the row recorded never goes negative.
   */
  lemma PlaceholderIsFaithful(ops: seq<CashOp>, excluded: set<int>, pending: Option<CashOp>)
    requires |ops| < PLACEHOLDER - 1
    ensures Safe(Checked(ops, excluded, pending)) <==> NeverNegative(Appended(Without(ops, excluded), pending))
  {
    var base := Without(ops, excluded);
    if pending.None? {
      assert Checked(ops, excluded, pending) == Kept(ops, excluded);
      assert Appended(base, pending) == base;
      forall cut: Stamp ensures UpTo(Checked(ops, excluded, pending), cut) == UpTo(Entries(base), cut) {
        KeptUpTo(ops, excluded, cut);
      }
    } else {
      var op := pending.value;
      forall cut: Stamp
        ensures UpTo(Checked(ops, excluded, pending), cut) == UpTo(Entries(base + [op]), RealCut(cut, |ops|))
        ensures UpTo(Entries(base + [op]), cut) == UpTo(Checked(ops, excluded, pending), CheckCut(cut, |ops|))
      {
        RowCuts(Entries(base), |ops|, cut);
        CheckedUpTo(ops, excluded, op, cut);
        CheckedUpTo(ops, excluded, op, CheckCut(cut, |ops|));
        AppendedUpTo(base, op, cut);
        AppendedUpTo(base, op, RealCut(cut, |ops|));
      }
    }
  }

  /** Rebuild the book without the excluded rows and with the pending one, and walk it. */
  method AssertNonnegativeLedger(ops: seq<CashOp>, excluded: set<int>, pending: Option<CashOp>) returns (r: Result<()>)
    requires |ops| < PLACEHOLDER - 1
    ensures r.Ok? <==> NeverNegative(Appended(Without(ops, excluded), pending))
    ensures r.Err? ==> r.fault == Conflict
  {
    var entries: seq<Entry> := [];
    var i := 0;
    while i < |ops|
      invariant 0 <= i <= |ops|
      invariant entries == Kept(ops[..i], excluded)
    {
      assert ops[..i + 1][..i] == ops[..i];
      if Id(i) !in excluded && ops[i].status == Live {
        entries := entries + [EntryOf(ops[i], Id(i))];
      }
      i := i + 1;
    }
    assert ops[..i] == ops;
    KeptIds(ops, excluded);
    if pending.Some? {
      entries := entries + [EntryOf(pending.value, PLACEHOLDER)];
    }
    assert entries == Checked(ops, excluded, pending);
    var safe := WalkBook(entries);
    PlaceholderIsFaithful(ops, excluded, pending);
    return if safe then Ok(()) else Err(Conflict);
  }

  /** Stop at the first negative running balance. */
  method WalkSorted(sorted: seq<Entry>) returns (safe: bool)
    ensures safe <==> forall n :: 0 <= n <= |sorted| ==> Running(sorted, n) >= 0
  {
    var balance := 0;
    var i := 0;
    while i < |sorted|
      invariant 0 <= i <= |sorted|
      invariant balance == Running(sorted, i)
      invariant forall n :: 0 <= n <= i ==> Running(sorted, n) >= 0
    {
      RunningStep(sorted, i);
      balance := balance + sorted[i].amount;
      if balance < 0 {
        assert Running(sorted, i + 1) < 0;
        return false;
      }
      i := i + 1;
    }
    return true;
  }

  /** Sort the entries and walk them. */
  method WalkBook(entries: seq<Entry>) returns (safe: bool)
    requires DistinctStamps(entries)
    ensures safe <==> Safe(entries)
  {
    var sorted := Sort(entries);
    SortSorts(entries);
    RunningDecidesSafety(sorted);
    SafeWhenSorted(entries);
    safe := WalkSorted(sorted);
  }

  lemma SafeWhenSorted(s: seq<Entry>)
    ensures Safe(Sort(s)) <==> Safe(s)
  {
    forall cut: Stamp ensures UpTo(Sort(s), cut) == UpTo(s, cut) {
      SortKeepsSums(s, cut);
    }
  }

  // ------------------------------------------------------------ recording and cancelling

  /** The row a request is turned into; a correction is booked as the difference to its target. */
  function Booked(request: Request, balance: int): Result<CashOp>
  {
    if request.amount < 0 then Err(Unprocessable)
    else if request.opType.Correction? then
      if !request.noted then Err(Unprocessable) else
        var difference := request.amount - balance;
        var direction := if difference > 0 then In else if difference < 0 then Out else Neutral;
        Ok(CashOp(request.date, Correction, direction, Live, if difference < 0 then -difference else difference,
                  Some(request.amount), request.partner, request.document, request.payment))
    else if request.amount == 0 then Err(Unprocessable)
    else
      Ok(CashOp(request.date, request.opType, if request.opType.CashIn? then In else Out, Live, request.amount,
                None, request.partner, request.document, request.payment))
  }

  ghost function Create(ops: seq<CashOp>, request: Request): Result<seq<CashOp>>
  {
    var op :- Booked(request, Balance(ops));
    if NeverNegative(ops + [op]) then Ok(ops + [op]) else Err(Conflict)
  }

  ghost function Cancel(ops: seq<CashOp>, id: int): Result<seq<CashOp>>
  {
    if !(1 <= id <= |ops|) then Err(NotFound)
    else if ops[id - 1].status != Live then Err(Conflict)
    else if NeverNegative(Without(ops, {id})) then Ok(Without(ops, {id}))
    else Err(Conflict)
  }

  /** The live rows a payment put into the ledger. */
  function LiveRowsOf(ops: seq<CashOp>, payment: int): set<int>
  {
    set i | 0 <= i < |ops| && ops[i].payment == Some(payment) && ops[i].status == Live :: Id(i)
  }

  ghost function CancelPayment(ops: seq<CashOp>, payment: int): Result<seq<CashOp>>
  {
    var after := Without(ops, LiveRowsOf(ops, payment));
    if NeverNegative(after) then Ok(after) else Err(Conflict)
  }

  lemma BalanceAppend(ops: seq<CashOp>, op: CashOp)
    ensures Balance(ops + [op]) == Balance(ops) + Effect(op)
  {
    assert Entries(ops + [op]) == Entries(ops) + [EntryOf(op, Id(|ops|))];
    SeqSumConcat(Entries(ops), [EntryOf(op, Id(|ops|))], Amount());
    SeqSumOfOne(EntryOf(op, Id(|ops|)), Amount());
  }

  /** Cancelling one row takes its effect off the balance. */
  lemma {:induction false} BalanceWithoutOne(ops: seq<CashOp>, i: nat)
    requires i < |ops|
    ensures Balance(Without(ops, {Id(i)})) == Balance(ops) - Effect(ops[i])
    decreases |ops|
  {
    var n := |ops| - 1;
    var after := Without(ops, {Id(i)});
    assert ops == ops[..n] + [ops[n]] && after == after[..n] + [after[n]];
    BalanceAppend(ops[..n], ops[n]);
    BalanceAppend(after[..n], after[n]);
    if i < n {
      assert after[..n] == Without(ops[..n], {Id(i)});
      BalanceWithoutOne(ops[..n], i);
    } else {
      assert after[..n] == ops[..n];
    }
  }

  /** A correction ends exactly at its target; any other request moves the balance by its amount. */
  lemma RecordedBalance(ops: seq<CashOp>, request: Request)
    requires Create(ops, request).Ok?
    ensures var after := Create(ops, request).value;
      Balance(after) == match request.opType
        case CashIn => Balance(ops) + request.amount
        case CashOut => Balance(ops) - request.amount
        case Correction => request.amount
  {
    BalanceAppend(ops, Booked(request, Balance(ops)).value);
  }

  /** The ledger total the database reports. */
  method CashBalance(ops: seq<CashOp>) returns (balance: int)
    ensures balance == Balance(ops)
  {
    balance := 0;
    var i := 0;
    while i < |ops|
      invariant 0 <= i <= |ops|
      invariant balance == Balance(ops[..i])
    {
      assert ops[..i + 1] == ops[..i] + [ops[i]];
      BalanceAppend(ops[..i], ops[i]);
      balance := balance + (
        if ops[i].status == Cancelled then 0
        else if ops[i].opType == CashIn then ops[i].amount
        else if ops[i].opType == CashOut then -ops[i].amount
        else if ops[i].direction == Out then -ops[i].amount
        else ops[i].amount);
      i := i + 1;
    }
    assert ops[..i] == ops;
  }

  /** The cash table. */
  class CashTable {
    var ops: seq<CashOp>

    constructor ()
      ensures ops == []
    {
      ops := [];
    }

    method CreateCashOperation(request: Request) returns (r: Result<int>)
      requires |ops| < PLACEHOLDER - 1
      modifies this
      ensures r.Ok? <==> Create(old(ops), request).Ok?
      ensures r.Ok? ==> ops == Create(old(ops), request).value && r.value == Id(|old(ops)|)
      ensures r.Err? ==> ops == old(ops) && r.fault == Create(old(ops), request).fault
    {
      var balance := CashBalance(ops);
      var op :- Booked(request, balance);
      assert Without(ops, {}) == ops;
      var checked := AssertNonnegativeLedger(ops, {}, Some(op));
      if checked.Err? {
        return Err(checked.fault);
      }
      ops := ops + [op];
      return Ok(Id(|ops| - 1));
    }

    method CancelCashOperation(id: int) returns (r: Result<()>)
      requires |ops| < PLACEHOLDER - 1
      modifies this
      ensures r.Ok? <==> Cancel(old(ops), id).Ok?
      ensures r.Ok? ==> ops == Cancel(old(ops), id).value
      ensures r.Err? ==> ops == old(ops) && r.fault == Cancel(old(ops), id).fault
    {
      if !(1 <= id <= |ops|) {
        return Err(NotFound);
      }
      if ops[id - 1].status != Live {
        return Err(Conflict);
      }
      assert Appended(Without(ops, {id}), None) == Without(ops, {id});
      var checked := AssertNonnegativeLedger(ops, {id}, None);
      if checked.Err? {
        return Err(checked.fault);
      }
      ops := ops[id - 1 := ops[id - 1].(status := Cancelled)];
      assert ops == Without(old(ops), {id});
      return Ok(());
    }

    method CancelPaymentCashOperations(payment: int) returns (r: Result<()>)
      requires |ops| < PLACEHOLDER - 1
      modifies this
      ensures r.Ok? <==> CancelPayment(old(ops), payment).Ok?
      ensures r.Ok? ==> ops == CancelPayment(old(ops), payment).value
      ensures r.Err? ==> ops == old(ops) && r.fault == CancelPayment(old(ops), payment).fault
    {
      var live := LiveRowsOf(ops, payment);
      assert Appended(Without(ops, live), None) == Without(ops, live);
      var checked := AssertNonnegativeLedger(ops, live, None);
      if checked.Err? {
        return Err(checked.fault);
      }
      var i := 0;
      while i < |ops|
        invariant 0 <= i <= |ops| && |ops| == |old(ops)|
        invariant forall j :: 0 <= j < i ==> ops[j] == Without(old(ops), live)[j]
        invariant forall j :: i <= j < |ops| ==> ops[j] == old(ops)[j]
      {
        if ops[i].payment == Some(payment) && ops[i].status == Live {
          ops := ops[i := ops[i].(status := Cancelled)];
        }
        i := i + 1;
      }
      assert ops == Without(old(ops), live);
      return Ok(());
    }
  }
}
