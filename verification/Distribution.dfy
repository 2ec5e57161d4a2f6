/** Validating, offering and distributing allocations: the loops of the payment service and its form. */
module Distribution {
  import opened Common
  import opened Sums
  import opened Ordering
  import opened Payments
  import Reconciliation
  import Docs = Documents

  function Excluding(payments: PayTable, excluded: Option<int>): PayTable
  {
    if excluded.Some? then payments - {excluded.value} else payments
  }

  /** The posted amount of a document, summed by the database. */
  method PostedAllocatedAmount(payments: PayTable, doc: int, excluded: Option<int>) returns (total: int)
    ensures total == Allocated(Excluding(payments, excluded), doc)
  {
    total := 0;
    var left := Excluding(payments, excluded);
    while |left| > 0
      invariant total + MapSum(left, PostedTo(doc)) == Allocated(Excluding(payments, excluded), doc)
      decreases |left|
    {
      ghost var first := Pick(left);
      assert first in left.Keys;
      var id :| id in left.Keys;
      MapSumRemove(left, id, PostedTo(doc));
      if left[id].status == Docs.Posted {
        var part := SumTo(left[id].allocations, doc);
        total := total + part;
      }
      left := left - {id};
    }
  }

  method SumTo(allocations: seq<Allocation>, doc: int) returns (total: int)
    ensures total == AmountTo(allocations, doc)
  {
    total := 0;
    var i := 0;
    while i < |allocations|
      invariant 0 <= i <= |allocations|
      invariant total == AmountTo(allocations[..i], doc)
    {
      assert allocations[..i + 1][..i] == allocations[..i];
      if allocations[i].doc == doc {
        total := total + allocations[i].amount;
      }
      i := i + 1;
    }
    assert allocations[..i] == allocations;
  }

  method AllocationSum(allocations: seq<Allocation>) returns (total: int)
    ensures total == AllocatedTotal(allocations)
  {
    total := 0;
    var i := 0;
    while i < |allocations|
      invariant 0 <= i <= |allocations|
      invariant total == AllocatedTotal(allocations[..i])
    {
      assert allocations[..i + 1][..i] == allocations[..i];
      total := total + allocations[i].amount;
      i := i + 1;
    }
    assert allocations[..i] == allocations;
  }

  /** Duplicate documents are found by comparing the list with its set. */
  method HasDuplicates(allocations: seq<Allocation>) returns (duplicated: bool)
    ensures duplicated <==> !DistinctDocs(allocations)
  {
    var seen: set<int> := {};
    var i := 0;
    while i < |allocations|
      invariant 0 <= i <= |allocations|
      invariant forall d :: d in seen <==> exists j :: 0 <= j < i && allocations[j].doc == d
      invariant DistinctDocs(allocations[..i])
    {
      if allocations[i].doc in seen {
        return true;
      }
      seen := seen + {allocations[i].doc};
      i := i + 1;
    }
    assert allocations[..i] == allocations;
    return false;
  }

  lemma {:induction false} EarlierFaultStands(docs: DocTable, payments: PayTable, payType: PayType,
                                              partner: Option<int>, allocations: seq<Allocation>, i: nat)
    requires i < |allocations|
    requires FirstBadAllocation(docs, payments, payType, partner, allocations[..i + 1]).Some?
    ensures FirstBadAllocation(docs, payments, payType, partner, allocations)
         == FirstBadAllocation(docs, payments, payType, partner, allocations[..i + 1])
    decreases |allocations|
  {
    if i + 1 == |allocations| {
      assert allocations[..i + 1] == allocations;
    } else {
      var rest := allocations[..|allocations| - 1];
      assert rest[..i + 1] == allocations[..i + 1];
      EarlierFaultStands(docs, payments, payType, partner, rest, i);
    }
  }

  lemma NextFault(docs: DocTable, payments: PayTable, payType: PayType, partner: Option<int>,
                  allocations: seq<Allocation>, i: nat)
    requires i < |allocations| && FirstBadAllocation(docs, payments, payType, partner, allocations[..i]).None?
    ensures FirstBadAllocation(docs, payments, payType, partner, allocations[..i + 1])
         == CheckAllocation(docs, payments, payType, partner, allocations[i])
  {
    assert allocations[..i + 1][..i] == allocations[..i];
  }

  method ValidateAllocations(docs: DocTable, payments: PayTable, payType: PayType, partner: Option<int>, amount: int,
                             allocations: seq<Allocation>, excluded: Option<int>)
    returns (fault: Option<Fault>)
    ensures fault == CheckAllocations(docs, Excluding(payments, excluded), payType, partner, amount, allocations)
  {
    if !PositiveAmounts(allocations) {
      return Some(Unprocessable);
    }
    if payType.Refund? && |allocations| > 0 {
      return Some(Unprocessable);
    }
    var duplicated := HasDuplicates(allocations);
    if duplicated {
      return Some(Unprocessable);
    }
    var total := AllocationSum(allocations);
    if total > amount {
      return Some(Conflict);
    }
    fault := FindBadAllocation(docs, payments, payType, partner, allocations, excluded);
  }

  /** Check the allocations one by one until one fails. */
  method FindBadAllocation(docs: DocTable, payments: PayTable, payType: PayType, partner: Option<int>,
                           allocations: seq<Allocation>, excluded: Option<int>)
    returns (fault: Option<Fault>)
    ensures fault == FirstBadAllocation(docs, Excluding(payments, excluded), payType, partner, allocations)
  {
    ghost var others := Excluding(payments, excluded);
    var i := 0;
    while i < |allocations|
      invariant 0 <= i <= |allocations|
      invariant FirstBadAllocation(docs, others, payType, partner, allocations[..i]).None?
    {
      NextFault(docs, others, payType, partner, allocations, i);
      fault := ValidateAllocation(docs, payments, payType, partner, allocations[i], excluded);
      if fault.Some? {
        EarlierFaultStands(docs, others, payType, partner, allocations, i);
        return;
      }
      i := i + 1;
    }
    assert allocations[..i] == allocations;
    return None;
  }

  method ValidateAllocation(docs: DocTable, payments: PayTable, payType: PayType, partner: Option<int>, a: Allocation,
                            excluded: Option<int>)
    returns (fault: Option<Fault>)
    ensures fault == CheckAllocation(docs, Excluding(payments, excluded), payType, partner, a)
  {
    if a.doc !in docs {
      return Some(NotFound);
    }
    var d := docs[a.doc];
    if d.status != Docs.Posted || d.content.partner != partner {
      return Some(Conflict);
    }
    var expected := ExpectedType(payType);
    if expected.Some? && d.content.docType != expected.value {
      return Some(Conflict);
    }
    var already := PostedAllocatedAmount(payments, a.doc, excluded);
    return if a.amount > Max(d.total - already, 0) then Some(Conflict) else None;
  }

  // ------------------------------------------------------------ options

  /** An option: an open document of the partner with what is left to pay on it. */
  ghost predicate Offers(docs: DocTable, payments: PayTable, payType: PayType, partner: int, e: Entry)
  {
    && ExpectedType(payType).Some?
    && e.stamp.id in docs
    && Reconciliation.InClass(docs[e.stamp.id], partner, ExpectedType(payType).value)
    && e.stamp == Stamp(docs[e.stamp.id].content.date, 0, e.stamp.id)
    && e.amount == Outstanding(docs, payments, e.stamp.id) > 0
  }

  /** Exactly the options outside what is left have been found. */
  ghost predicate FoundOutside(docs: DocTable, payments: PayTable, payType: PayType, partner: int, left: set<int>,
                               found: seq<Entry>)
  {
    forall e: Entry :: e in found <==> Offers(docs, payments, payType, partner, e) && e.stamp.id !in left
  }

  lemma OptionFound(docs: DocTable, payments: PayTable, payType: PayType, partner: int, left: set<int>,
                    found: seq<Entry>, option: Entry)
    requires FoundOutside(docs, payments, payType, partner, left, found)
    requires option.stamp.id in left && Offers(docs, payments, payType, partner, option)
    ensures FoundOutside(docs, payments, payType, partner, left - {option.stamp.id}, found + [option])
  {
    forall e: Entry
      ensures e in found + [option]
         <==> Offers(docs, payments, payType, partner, e) && e.stamp.id !in left - {option.stamp.id}
    {
      assert e in found + [option] <==> e in found || e == option;
    }
  }

  lemma NoOptionThere(docs: DocTable, payments: PayTable, payType: PayType, partner: int, left: set<int>,
                      found: seq<Entry>, id: int)
    requires FoundOutside(docs, payments, payType, partner, left, found)
    requires forall e: Entry :: e.stamp.id == id ==> !Offers(docs, payments, payType, partner, e)
    ensures FoundOutside(docs, payments, payType, partner, left - {id}, found)
  {
  }

  /** The open documents, in whatever order the database gives them. */
  method CollectOptions(docs: DocTable, payments: PayTable, payType: PayType, partner: int, excluded: Option<int>)
    returns (found: seq<Entry>)
    requires ExpectedType(payType).Some?
    ensures DistinctStamps(found)
    ensures forall e: Entry :: e in found <==> Offers(docs, Excluding(payments, excluded), payType, partner, e)
  {
    found := [];
    var left := docs.Keys;
    while left != {}
      invariant left <= docs.Keys && DistinctStamps(found)
      invariant FoundOutside(docs, Excluding(payments, excluded), payType, partner, left, found)
      decreases |left|
    {
      ghost var first := Member(left);
      var id :| id in left;
      var option := OptionOf(docs, payments, payType, partner, excluded, id);
      if option.Some? {
        Reconciliation.FreshStamp(found, option.value);
        OptionFound(docs, Excluding(payments, excluded), payType, partner, left, found, option.value);
        found := found + [option.value];
      } else {
        NoOptionThere(docs, Excluding(payments, excluded), payType, partner, left, found, id);
      }
      left := left - {id};
    }
  }

  /** The option a document is, if it is one. */
  method OptionOf(docs: DocTable, payments: PayTable, payType: PayType, partner: int, excluded: Option<int>, id: int)
    returns (option: Option<Entry>)
    requires ExpectedType(payType).Some? && id in docs
    ensures option.Some? ==>
      option.value.stamp.id == id && Offers(docs, Excluding(payments, excluded), payType, partner, option.value)
    ensures option.None? ==>
      forall e: Entry :: e.stamp.id == id ==> !Offers(docs, Excluding(payments, excluded), payType, partner, e)
  {
    if !Reconciliation.InClass(docs[id], partner, ExpectedType(payType).value) {
      return None;
    }
    var already := PostedAllocatedAmount(payments, id, excluded);
    var outstanding := Max(docs[id].total - already, 0);
    return if outstanding > 0 then Some(Entry(Stamp(docs[id].content.date, 0, id), outstanding)) else None;
  }

  /** The open documents by date and id; there are none to offer for a refund. */
  method GetAllocationOptions(docs: DocTable, payments: PayTable, payType: PayType, partner: int, excluded: Option<int>)
    returns (r: Result<seq<Entry>>)
    ensures payType.Refund? ==> r == Err(Unprocessable)
    ensures !payType.Refund? ==>
      && r.Ok? && StrictlySorted(r.value)
      && forall e: Entry :: e in r.value <==> Offers(docs, Excluding(payments, excluded), payType, partner, e)
  {
    if ExpectedType(payType).None? {
      return Err(Unprocessable);
    }
    var found := CollectOptions(docs, payments, payType, partner, excluded);
    SortSorts(found);
    Reconciliation.SortKeepsMembers(found);
    return Ok(Sort(found));
  }

  // ------------------------------------------------------------ oldest-first distribution

  /** The sum of the first n options. */
  function Offered(options: seq<Entry>, n: nat): int
    requires n <= |options|
  {
    if n == 0 then 0 else Offered(options, n - 1) + options[n - 1].amount
  }

  /** What oldest-first gives to option i: as much as fits of what the earlier ones left. */
  function Share(amount: int, options: seq<Entry>, i: nat): int
    requires i < |options|
  {
    Max(Min(amount - Offered(options, i), options[i].amount), 0)
  }

  function PositiveRow(): (int, int) -> int
  {
    (id: int, value: int) => if value > 0 then value else 0
  }

  ghost predicate ValidOptions(options: seq<Entry>)
  {
    && (forall i :: 0 <= i < |options| ==> options[i].amount > 0)
    && (forall i, j :: 0 <= i < j < |options| ==> options[i].stamp.id != options[j].stamp.id)
  }

  lemma {:induction false} OfferedNonneg(options: seq<Entry>, n: nat)
    requires n <= |options| && forall i :: 0 <= i < |options| ==> options[i].amount > 0
    ensures Offered(options, n) >= 0
  {
    if n > 0 {
      OfferedNonneg(options, n - 1);
    }
  }

  lemma {:induction false} OfferedGrows(options: seq<Entry>, m: nat, n: nat)
    requires m <= n <= |options| && forall i :: 0 <= i < |options| ==> options[i].amount > 0
    ensures Offered(options, m) <= Offered(options, n)
  {
    if m < n {
      OfferedGrows(options, m, n - 1);
    }
  }

  /** The positive shares of the first n options, by document. */
  function Shares(amount: int, options: seq<Entry>, n: nat): map<int, int>
    requires n <= |options|
  {
    if n == 0 then map[] else
      var before := Shares(amount, options, n - 1);
      var share := Share(amount, options, n - 1);
      if share > 0 then before[options[n - 1].stamp.id := share] else before
  }

  /** Every entry of the distribution is some option's positive share. */
  lemma {:induction false} ShareOfEntry(amount: int, options: seq<Entry>, n: nat, id: int) returns (i: nat)
    requires n <= |options| && id in Shares(amount, options, n)
    ensures i < n && options[i].stamp.id == id
    ensures Shares(amount, options, n)[id] == Share(amount, options, i) > 0
  {
    if Share(amount, options, n - 1) > 0 && options[n - 1].stamp.id == id {
      i := n - 1;
    } else {
      i := ShareOfEntry(amount, options, n - 1, id);
    }
  }

  /** Every option's positive share is in the distribution. */
  lemma {:induction false} EntryOfShare(amount: int, options: seq<Entry>, n: nat, i: nat)
    requires ValidOptions(options) && i < n <= |options|
    ensures options[i].stamp.id in Shares(amount, options, n) <==> Share(amount, options, i) > 0
    ensures Share(amount, options, i) > 0 ==>
      Shares(amount, options, n)[options[i].stamp.id] == Share(amount, options, i)
  {
    if i < n - 1 {
      EntryOfShare(amount, options, n - 1, i);
    } else {
      NotYetShared(amount, options, i, i);
    }
  }

  lemma {:induction false} NotYetShared(amount: int, options: seq<Entry>, n: nat, i: nat)
    requires ValidOptions(options) && n <= i < |options|
    ensures options[i].stamp.id !in Shares(amount, options, n)
  {
    if n > 0 {
      NotYetShared(amount, options, n - 1, i);
    }
  }

  /** What oldest-first has given after one more option of this size. */
  lemma OneMoreShare(amount: int, given: int, offered: nat, size: nat)
    requires given == Max(Min(amount, offered), 0)
    ensures given + Max(Min(amount - offered, size), 0) == Max(Min(amount, offered + size), 0)
  {
  }

  /** What the shares of the first n options add up to. */
  ghost function SharedTotal(amount: int, options: seq<Entry>, n: nat): int
    requires n <= |options|
  {
    MapSum(Shares(amount, options, n), PositiveRow())
  }

  lemma SharesGrow(amount: int, options: seq<Entry>, n: nat)
    requires ValidOptions(options) && 0 < n <= |options|
    ensures SharedTotal(amount, options, n) == SharedTotal(amount, options, n - 1) + Share(amount, options, n - 1)
  {
    NotYetShared(amount, options, n - 1, n - 1);
    MapSumUpdate(Shares(amount, options, n - 1), options[n - 1].stamp.id, Share(amount, options, n - 1), PositiveRow());
  }

  lemma NothingShared(amount: int, options: seq<Entry>)
    ensures SharedTotal(amount, options, 0) == 0
    ensures Offered(options, 0) == 0
  {
  }

  /** The shares add up to the money there is, or to everything there is to pay. */
  lemma {:induction false} SharesTotal(amount: int, options: seq<Entry>, n: nat)
    requires ValidOptions(options) && n <= |options|
    ensures SharedTotal(amount, options, n) == Max(Min(amount, Offered(options, n)), 0)
  {
    if n == 0 {
      NothingShared(amount, options);
    } else {
      SharesTotal(amount, options, n - 1);
      SharesGrow(amount, options, n);
      OfferedNonneg(options, n - 1);
      OneMoreShare(amount, SharedTotal(amount, options, n - 1), Offered(options, n - 1), options[n - 1].amount);
    }
  }

  /** Once the money is spent every later share is zero. */
  lemma {:induction false} SharesExhausted(amount: int, options: seq<Entry>, i: nat, n: nat)
    requires ValidOptions(options) && i <= n <= |options|
    requires amount <= Offered(options, i)
    ensures Shares(amount, options, n) == Shares(amount, options, i)
  {
    if i < n {
      SharesExhausted(amount, options, i, n - 1);
      OfferedGrows(options, i, n - 1);
    }
  }

  method DistributeAutomatically(amount: int, options: seq<Entry>) returns (next: map<int, int>)
    requires ValidOptions(options)
    ensures next == Shares(amount, options, |options|)
    ensures MapSum(next, PositiveRow()) == Max(Min(amount, Offered(options, |options|)), 0)
  {
    var remainder := amount;
    next := map[];
    var i := 0;
    while i < |options|
      invariant 0 <= i <= |options|
      invariant remainder == amount - Max(Min(amount, Offered(options, i)), 0)
      invariant next == Shares(amount, options, i)
    {
      OfferedNonneg(options, i);
      if remainder <= 0 {
        SharesExhausted(amount, options, i, |options|);
        break;
      }
      var allocation := Min(remainder, options[i].amount);
      if allocation > 0 {
        next := next[options[i].stamp.id := allocation];
        remainder := remainder - allocation;
      }
      i := i + 1;
    }
    SharesTotal(amount, options, |options|);
  }

  /** An option that is not filled leaves nothing for any later one. */
  lemma NothingAfterShort(amount: int, options: seq<Entry>, i: nat, j: nat)
    requires ValidOptions(options) && i < j < |options|
    ensures Share(amount, options, i) < options[i].amount ==> Share(amount, options, j) == 0
  {
    OfferedGrows(options, i + 1, j);
  }

  /** The first option, from i on, that is not filled completely. */
  function FirstShort(amount: int, options: seq<Entry>, i: nat): (n: nat)
    requires i <= |options|
    ensures i <= n <= |options|
    ensures forall j :: i <= j < n ==> Share(amount, options, j) >= options[j].amount
    ensures n < |options| ==> Share(amount, options, n) < options[n].amount
    decreases |options| - i
  {
    if i == |options| || Share(amount, options, i) < options[i].amount then i else FirstShort(amount, options, i + 1)
  }

  /** Oldest first: a prefix of the options is filled completely, at most the next one in part, none after it. */
  lemma DistributionFillsPrefix(amount: int, options: seq<Entry>)
    requires ValidOptions(options)
    ensures var n, given := FirstShort(amount, options, 0), Shares(amount, options, |options|);
      && (forall i :: 0 <= i < n ==> options[i].stamp.id in given && given[options[i].stamp.id] == options[i].amount)
      && (n < |options| && options[n].stamp.id in given ==> 0 < given[options[n].stamp.id] < options[n].amount)
      && (forall i :: n < i < |options| ==> options[i].stamp.id !in given)
  {
    var n := FirstShort(amount, options, 0);
    forall i | 0 <= i < |options|
      ensures options[i].stamp.id in Shares(amount, options, |options|) <==> Share(amount, options, i) > 0
      ensures Share(amount, options, i) > 0 ==>
        Shares(amount, options, |options|)[options[i].stamp.id] == Share(amount, options, i)
      ensures i < n ==> Share(amount, options, i) == options[i].amount
      ensures i > n ==> Share(amount, options, i) == 0
    {
      EntryOfShare(amount, options, |options|, i);
      if n < i {
        NothingAfterShort(amount, options, n, i);
      }
    }
  }

  lemma OneMoreInput(inputs: seq<Allocation>, a: Allocation)
    requires DistinctDocs(inputs) && PositiveAmounts(inputs) && a.amount > 0
    requires forall b: Allocation :: b in inputs ==> b.doc != a.doc
    ensures DistinctDocs(inputs + [a]) && PositiveAmounts(inputs + [a])
    ensures AllocatedTotal(inputs + [a]) == AllocatedTotal(inputs) + a.amount
  {
    assert (inputs + [a])[..|inputs|] == inputs;
    forall i | 0 <= i < |inputs| ensures inputs[i].doc != a.doc {
      assert inputs[i] in inputs;
    }
  }

  /** The positive values, in whatever order the object lists its keys; anything else typed in is dropped. */
  method AllocationInputs(values: map<int, int>) returns (inputs: seq<Allocation>)
    ensures DistinctDocs(inputs) && PositiveAmounts(inputs)
    ensures forall a: Allocation :: a in inputs <==> a.doc in values && a.amount == values[a.doc] > 0
    ensures AllocatedTotal(inputs) == MapSum(values, PositiveRow())
  {
    inputs := [];
    var left := values;
    while |left| > 0
      invariant forall id :: id in left ==> id in values && left[id] == values[id]
      invariant DistinctDocs(inputs) && PositiveAmounts(inputs)
      invariant forall a: Allocation ::
        a in inputs <==> a.doc in values && a.doc !in left && a.amount == values[a.doc] > 0
      invariant AllocatedTotal(inputs) + MapSum(left, PositiveRow()) == MapSum(values, PositiveRow())
      decreases |left|
    {
      ghost var first := Pick(left);
      assert first in left.Keys;
      var id :| id in left.Keys;
      MapSumRemove(left, id, PositiveRow());
      if values[id] > 0 {
        OneMoreInput(inputs, Allocation(id, values[id]));
        inputs := inputs + [Allocation(id, values[id])];
      }
      left := left - {id};
    }
  }

  /** A share of an offered document, once submitted, passes the check of that document. */
  lemma OneShareIsAccepted(docs: DocTable, payments: PayTable, payType: PayType, partner: int, amount: int,
                           options: seq<Entry>, a: Allocation)
    requires forall e: Entry :: e in options ==> Offers(docs, payments, payType, partner, e)
    requires a.doc in Shares(amount, options, |options|) && a.amount == Shares(amount, options, |options|)[a.doc]
    ensures CheckAllocation(docs, payments, payType, Some(partner), a).None?
  {
    var i := ShareOfEntry(amount, options, |options|, a.doc);
    assert options[i] in options;
  }

  /** What the form distributes over the options it was offered is accepted in the same state. */
  lemma {:induction false} DistributionIsAccepted(docs: DocTable, payments: PayTable, payType: PayType, partner: int,
                                                  amount: int, options: seq<Entry>, inputs: seq<Allocation>)
    requires ValidOptions(options)
    requires forall e: Entry :: e in options ==> Offers(docs, payments, payType, partner, e)
    requires DistinctDocs(inputs) && PositiveAmounts(inputs)
    requires forall a: Allocation :: a in inputs ==>
      a.doc in Shares(amount, options, |options|) && a.amount == Shares(amount, options, |options|)[a.doc]
    requires AllocatedTotal(inputs) == MapSum(Shares(amount, options, |options|), PositiveRow())
    requires amount >= 0 && !payType.Refund?
    ensures CheckAllocations(docs, payments, payType, Some(partner), amount, inputs).None?
  {
    SharesTotal(amount, options, |options|);
    OfferedNonneg(options, |options|);
    forall k | 0 <= k < |inputs| ensures CheckAllocation(docs, payments, payType, Some(partner), inputs[k]).None? {
      assert inputs[k] in inputs;
      OneShareIsAccepted(docs, payments, payType, partner, amount, options, inputs[k]);
    }
  }

  /** Offer, distribute, submit: the whole path allocates as much as there is to allocate and is accepted. */
  method DistributeAndSubmit(docs: DocTable, payments: PayTable, payType: PayType, partner: int, amount: int,
                             excluded: Option<int>)
    returns (inputs: seq<Allocation>, fault: Option<Fault>, options: seq<Entry>)
    requires amount >= 0 && !payType.Refund?
    ensures fault.None?
    ensures StrictlySorted(options)
    ensures forall e: Entry :: e in options <==> Offers(docs, Excluding(payments, excluded), payType, partner, e)
    ensures AllocatedTotal(inputs) == Min(amount, Offered(options, |options|))
  {
    var offered := GetAllocationOptions(docs, payments, payType, partner, excluded);
    options := offered.value;
    OptionsAreValid(docs, Excluding(payments, excluded), payType, partner, options);
    var next := DistributeAutomatically(amount, options);
    OfferedNonneg(options, |options|);
    inputs := AllocationInputs(next);
    DistributionIsAccepted(docs, Excluding(payments, excluded), payType, partner, amount, options, inputs);
    fault := ValidateAllocations(docs, payments, payType, Some(partner), amount, inputs, excluded);
  }

  lemma OptionsAreValid(docs: DocTable, payments: PayTable, payType: PayType, partner: int, options: seq<Entry>)
    requires StrictlySorted(options)
    requires forall e: Entry :: e in options ==> Offers(docs, payments, payType, partner, e)
    ensures ValidOptions(options)
  {
    forall i | 0 <= i < |options| ensures Offers(docs, payments, payType, partner, options[i]) {
      assert options[i] in options;
    }
    forall i, j | 0 <= i < j < |options| ensures options[i].stamp.id != options[j].stamp.id {
      assert Offers(docs, payments, payType, partner, options[i]);
      assert Offers(docs, payments, payType, partner, options[j]);
      assert Precedes(options[i].stamp, options[j].stamp);
    }
  }
}
