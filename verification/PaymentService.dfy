/** Payments and manual cash operations on the database in place. */
module PaymentService {
  import opened Common
  import opened Database
  import B = Books
  import D = Documents
  import P = Payments
  import C = Cash
  import Distribution
  import opened Ordering

  /** The checks a draft goes through whenever it is written. */
  method ValidateDraft(db: Db, form: B.Form, inputs: seq<P.Allocation>) returns (fault: Option<Fault>)
    ensures fault == B.CheckDraft(db.Contents(), form, inputs)
  {
    if form.amount <= 0 {
      return Some(Unprocessable);
    }
    fault := B.CheckPayer(db.dir, form.payType, form.cash, form.partner);
    if fault.Some? {
      return;
    }
    fault := Distribution.ValidateAllocations(db.docs, db.payments, form.payType, form.partner, form.amount, inputs,
                                              None);
  }

  /** The open documents a payment may be allocated to, oldest first. */
  method GetPaymentAllocationOptions(db: Db, partner: int, payType: P.PayType, excluded: Option<int>)
    returns (r: Result<seq<Entry>>)
    ensures r.Err? <==> B.CheckPayer(db.dir, payType, true, Some(partner)).Some?
    ensures r.Err? ==> Some(r.fault) == B.CheckPayer(db.dir, payType, true, Some(partner))
    ensures r.Ok? ==> StrictlySorted(r.value)
    ensures r.Ok? ==> forall e: Entry :: e in r.value <==>
      Distribution.Offers(db.docs, Distribution.Excluding(db.payments, excluded), payType, partner, e)
  {
    var fault := B.CheckPayer(db.dir, payType, true, Some(partner));
    if fault.Some? {
      return Err(fault.value);
    }
    r := Distribution.GetAllocationOptions(db.docs, db.payments, payType, partner, excluded);
  }

  method CreatePayment(db: Db, id: int, form: B.Form) returns (r: Result<()>)
    modifies db`payments
    ensures Answers(B.CreatePayment(old(db.Contents()), id, form), r, old(db.Contents()), db.Contents())
  {
    if id in db.payments {
      return Err(Conflict);
    }
    var inputs := B.Inputs(form);
    var fault := ValidateDraft(db, form, inputs);
    if fault.Some? {
      return Err(fault.value);
    }
    db.payments := db.payments[id := P.Payment(form.partner, form.date, form.payType, form.cash, D.Draft, form.amount,
                                               inputs, B.Link(inputs))];
    return Ok(());
  }

  method UpdatePayment(db: Db, id: int, patch: B.Patch) returns (r: Result<()>)
    modifies db`payments
    ensures Answers(B.UpdatePayment(old(db.Contents()), id, patch), r, old(db.Contents()), db.Contents())
  {
    if id !in db.payments {
      return Err(NotFound);
    }
    if db.payments[id].status != D.Draft {
      return Err(Conflict);
    }
    var form := B.Patched(db.payments[id], patch);
    var fault := ValidateDraft(db, form, form.allocations);
    if fault.Some? {
      return Err(fault.value);
    }
    db.payments := db.payments[id := P.Payment(form.partner, form.date, form.payType, form.cash, D.Draft, form.amount,
                                               form.allocations, B.Link(form.allocations))];
    return Ok(());
  }

  method DeleteDraftPayment(db: Db, id: int) returns (r: Result<()>)
    modifies db`payments
    ensures Answers(B.DeletePayment(old(db.Contents()), id), r, old(db.Contents()), db.Contents())
  {
    if id !in db.payments {
      return Err(NotFound);
    }
    if db.payments[id].status != D.Draft {
      return Err(Conflict);
    }
    db.payments := db.payments - {id};
    return Ok(());
  }

  /** Post the payment, then its cash row; if the cash book refuses the row the payment is a draft again. */
  method PostPayment(db: Db, id: int) returns (r: Result<()>)
    requires |db.cash.ops| < C.PLACEHOLDER - 1
    modifies db`payments, db.cash
    ensures Answers(B.PostPayment(old(db.Contents()), id), r, old(db.Contents()), db.Contents())
  {
    if id !in db.payments {
      return Err(NotFound);
    }
    var p := db.payments[id];
    if p.status != D.Draft {
      return Err(Conflict);
    }
    var fault := B.CheckPayer(db.dir, p.payType, p.cash, p.partner);
    if fault.None? {
      fault := Distribution.ValidateAllocations(db.docs, db.payments, p.payType, p.partner, p.amount, p.allocations,
                                                None);
    }
    if fault.Some? {
      return Err(fault.value);
    }
    var saved := db.payments;
    db.payments := db.payments[id := p.(status := D.Posted, document := B.Link(p.allocations))];
    var booked := db.cash.CreateCashOperation(B.CashRequest(id, p));
    if booked.Err? {
      db.payments := saved;
      return Err(booked.fault);
    }
    return Ok(());
  }

  /** A payment's cash rows follow its document link. */
  method RelinkCash(cash: C.CashTable, payment: int, link: Option<int>)
    modifies cash
    ensures cash.ops == B.Relinked(old(cash.ops), payment, link)
  {
    var i := 0;
    while i < |cash.ops|
      invariant 0 <= i <= |cash.ops| == |old(cash.ops)|
      invariant forall j :: 0 <= j < i ==> cash.ops[j] == B.Relinked(old(cash.ops), payment, link)[j]
      invariant forall j :: i <= j < |cash.ops| ==> cash.ops[j] == old(cash.ops)[j]
    {
      if cash.ops[i].payment == Some(payment) {
        cash.ops := cash.ops[i := cash.ops[i].(document := link)];
      }
      i := i + 1;
    }
  }

  method ReplacePostedPaymentAllocations(db: Db, id: int, allocations: seq<P.Allocation>) returns (r: Result<()>)
    modifies db`payments, db.cash
    ensures Answers(B.ReplaceAllocations(old(db.Contents()), id, allocations), r, old(db.Contents()), db.Contents())
  {
    if id !in db.payments {
      return Err(NotFound);
    }
    var p := db.payments[id];
    if p.status != D.Posted {
      return Err(Conflict);
    }
    if p.partner.None? {
      return Err(Unprocessable);
    }
    var fault := Distribution.ValidateAllocations(db.docs, db.payments, p.payType, p.partner, p.amount, allocations,
                                                  Some(id));
    if fault.Some? {
      return Err(fault.value);
    }
    db.payments := db.payments[id := p.(allocations := allocations, document := B.Link(allocations))];
    RelinkCash(db.cash, id, B.Link(allocations));
    return Ok(());
  }

  /** Take the payment's cash back first; only then is it cancelled. */
  method CancelPayment(db: Db, id: int) returns (r: Result<()>)
    requires |db.cash.ops| < C.PLACEHOLDER - 1
    modifies db`payments, db.cash
    ensures Answers(B.CancelPayment(old(db.Contents()), id), r, old(db.Contents()), db.Contents())
  {
    if id !in db.payments {
      return Err(NotFound);
    }
    if db.payments[id].status != D.Posted {
      return Err(Conflict);
    }
    var taken := db.cash.CancelPaymentCashOperations(id);
    if taken.Err? {
      return Err(taken.fault);
    }
    db.payments := db.payments[id := db.payments[id].(status := D.Cancelled)];
    return Ok(());
  }

  // ------------------------------------------------------------ manual cash operations

  method CreateCashOperation(db: Db, request: C.Request) returns (r: Result<()>)
    requires |db.cash.ops| < C.PLACEHOLDER - 1
    modifies db.cash
    ensures Answers(B.CreateCash(old(db.Contents()), request), r, old(db.Contents()), db.Contents())
  {
    if request.payment.Some? {
      return Err(Unprocessable);
    }
    if request.partner.Some? && request.partner.value !in db.dir.partners {
      return Err(NotFound);
    }
    if request.document.Some? && request.document.value !in db.docs {
      return Err(NotFound);
    }
    var booked := db.cash.CreateCashOperation(request);
    return if booked.Ok? then Ok(()) else Err(booked.fault);
  }

  method CancelCashOperation(db: Db, id: int) returns (r: Result<()>)
    requires |db.cash.ops| < C.PLACEHOLDER - 1
    modifies db.cash
    ensures Answers(B.CancelCash(old(db.Contents()), id), r, old(db.Contents()), db.Contents())
  {
    r := db.cash.CancelCashOperation(id);
  }
}
