/** How posting, cancelling and correcting a document relate to one another. */
module Corrections {
  import opened Common
  import opened Stock
  import opened Documents
  import opened Planning
  import Versions
  import B = Books
  import Payments

  // ------------------------------------------------------------ correcting refines cancel-then-post

  lemma {:induction false} ProductAbsent(lines: seq<Line>, product: int, otherwise: int)
    requires forall i :: 0 <= i < |lines| ==> lines[i].product != product
    ensures Demand(lines, product) == 0
    ensures LastQuantity(lines, product, otherwise) == otherwise
  {
    if |lines| > 0 {
      ProductAbsent(lines[..|lines| - 1], product, otherwise);
    }
  }

  /** A document leaves every balance outside its own keys where it was. */
  lemma FinalElsewhere(content: Content, start: map<Key, int>, k: Key)
    requires content.warehouse.Some?
    requires k in start && k !in StockKeys(content)
    ensures Final(content.docType, Source(content), Target(content), content.lines, start, k) == start[k]
  {
    var lines := content.lines;
    if k.warehouse == Source(content) || (content.docType.Transfer? && k.warehouse == Target(content)) {
      forall i | 0 <= i < |lines| ensures lines[i].product != k.product {
        assert Key(lines[i].product, Source(content)) in LineKeys(lines, Source(content));
        assert Key(lines[i].product, Target(content)) in LineKeys(lines, Target(content));
        assert k == Key(k.product, k.warehouse);
      }
      ProductAbsent(lines, k.product, start[k]);
    }
  }

  /** When a document can be planned on some balances, and where it leaves them. */
  lemma PlanContentExactly(content: Content, start: map<Key, int>)
    requires Ready(content)
    requires StockKeys(content) <= start.Keys
    ensures Covers(start, content.docType, Source(content), Target(content), content.lines)
    ensures var r := PlanContent(content, start);
      var final := FinalQuantities(content.docType, Source(content), Target(content), content.lines, start);
      && (r.Ok? <==>
            (content.docType in {Outgoing, Transfer} ==> InStock(content.lines, Source(content), start))
            && AllNonnegative(final))
      && (r.Ok? ==> r.value.quantities == final)
  {
    StockKeysCover(content, start);
    PlanMeetsAggregate(content.docType, Source(content), Target(content), content.lines, start);
  }

  /** The wide balances agree with the narrow ones, and the others are not negative. */
  predicate Widens(narrow: map<Key, int>, wide: map<Key, int>)
  {
    && narrow.Keys <= wide.Keys
    && (forall k :: k in narrow ==> narrow[k] == wide[k])
    && (forall k :: k in wide && k !in narrow ==> wide[k] >= 0)
  }

  lemma FinalIsLocal(content: Content, narrow: map<Key, int>, wide: map<Key, int>, k: Key)
    requires Ready(content) && narrow.Keys == StockKeys(content) && Widens(narrow, wide)
    requires k in wide
    ensures Final(content.docType, Source(content), Target(content), content.lines, wide, k)
         == if k in narrow then Final(content.docType, Source(content), Target(content), content.lines, narrow, k)
            else wide[k]
  {
    if k !in narrow {
      FinalElsewhere(content, wide, k);
    }
  }

  lemma StockIsLocal(content: Content, narrow: map<Key, int>, wide: map<Key, int>)
    requires Ready(content) && Widens(narrow, wide)
    requires Covers(narrow, Outgoing, Source(content), Source(content), content.lines)
    requires InStock(content.lines, Source(content), narrow)
    ensures Covers(wide, Outgoing, Source(content), Source(content), content.lines)
    ensures InStock(content.lines, Source(content), wide)
  {
    forall i | 0 <= i < |content.lines|
      ensures Key(content.lines[i].product, Source(content)) in wide
      ensures Demand(content.lines, content.lines[i].product) <= wide[Key(content.lines[i].product, Source(content))]
    {
      assert Key(content.lines[i].product, Source(content)) in narrow;
    }
  }

  /** A plan only looks at the document's own balances; the others just have to be non-negative. */
  lemma PlanIsLocal(content: Content, narrow: map<Key, int>, wide: map<Key, int>)
    requires Ready(content)
    requires narrow.Keys == StockKeys(content) && Widens(narrow, wide)
    requires PlanContent(content, narrow).Ok?
    ensures PlanContent(content, wide).Ok?
    ensures forall k :: k in wide ==>
      PlanContent(content, wide).value.quantities[k]
      == if k in narrow then PlanContent(content, narrow).value.quantities[k] else wide[k]
  {
    PlanContentExactly(content, narrow);
    PlanContentExactly(content, wide);
    forall k | k in wide
      ensures Final(content.docType, Source(content), Target(content), content.lines, wide, k)
           == if k in narrow then Final(content.docType, Source(content), Target(content), content.lines, narrow, k)
              else wide[k]
    {
      FinalIsLocal(content, narrow, wide, k);
    }
    if content.docType in {Outgoing, Transfer} {
      StockIsLocal(content, narrow, wide);
    }
  }

  /** The store with one more draft. */
  function WithDraft(s: Store, id: int, content: Content): Store
  {
    s.(docs := s.docs[id := Document(content, Draft, 0, Total(content.lines))])
  }

  /** The quantities a correction plans on. */
  function CorrectionBase(s: Store, id: int, content: Content): map<Key, int>
    requires id in s.docs && content.warehouse.Some?
  {
    Baseline(Load(s.balances, Keys(ActiveChanges(s, id)) + StockKeys(content)), ActiveChanges(s, id))
  }

  /** Where cancelling works, a correction plans on the cancelled balances. */
  lemma BaseIsCancelled(s: Store, id: int, content: Content, k: Key)
    requires id in s.docs && content.warehouse.Some?
    requires Cancel(s, id).Ok?
    requires k in CorrectionBase(s, id, content)
    ensures CorrectionBase(s, id, content)[k] == Balance(Cancel(s, id).value.balances, k)
    ensures k !in StockKeys(content) ==> CorrectionBase(s, id, content)[k] >= 0
  {
    CancelMovesBalances(s, id, k);
  }

  /** The plan of a correction against the plan of a posting after cancelling. */
  lemma RefinedPlan(s: Store, id: int, content: Content)
    requires id in s.docs && Ready(content)
    requires Cancel(s, id).Ok?
    requires PlanContent(content, Load(Cancel(s, id).value.balances, StockKeys(content))).Ok?
    ensures var narrow := PlanContent(content, Load(Cancel(s, id).value.balances, StockKeys(content))).value.quantities;
      var wide := PlanContent(content, CorrectionBase(s, id, content));
      && wide.Ok?
      && forall k :: k in wide.value.quantities ==>
           wide.value.quantities[k] == Balance(Cancel(s, id).value.balances + narrow, k)
  {
    forall k | k in CorrectionBase(s, id, content)
      ensures CorrectionBase(s, id, content)[k] == Balance(Cancel(s, id).value.balances, k)
      ensures k !in StockKeys(content) ==> CorrectionBase(s, id, content)[k] >= 0
    {
      BaseIsCancelled(s, id, content, k);
    }
    PlanIsLocal(content, Load(Cancel(s, id).value.balances, StockKeys(content)), CorrectionBase(s, id, content));
  }

  lemma PostedBalances(s: Store, id: int)
    requires id in s.docs && Ready(s.docs[id].content)
    ensures var plan := PlanContent(s.docs[id].content, Load(s.balances, StockKeys(s.docs[id].content)));
      && (Post(s, id).Ok? <==> plan.Ok?)
      && (plan.Ok? ==> Post(s, id).value.balances == s.balances + plan.value.quantities)
  {
  }

  lemma RepostedBalances(s: Store, id: int, content: Content)
    requires id in s.docs && Ready(content) && ActiveChanges(s, id) != []
    ensures var plan := PlanContent(content, CorrectionBase(s, id, content));
      && (Repost(s, id, content).Ok? <==> plan.Ok?)
      && (plan.Ok? ==> Repost(s, id, content).value.balances == s.balances + plan.value.quantities)
  {
  }

  /** When a correction goes through: the new content must fit on the balances without the old posting. */
  lemma CorrectionSucceedsExactly(s: Store, id: int, content: Content)
    requires id in s.docs && Ready(content) && ActiveChanges(s, id) != []
    ensures Covers(CorrectionBase(s, id, content), content.docType, Source(content), Target(content), content.lines)
    ensures Repost(s, id, content).Ok? <==>
      && (content.docType in {Outgoing, Transfer} ==>
            InStock(content.lines, Source(content), CorrectionBase(s, id, content)))
      && AllNonnegative(FinalQuantities(content.docType, Source(content), Target(content), content.lines,
                                        CorrectionBase(s, id, content)))
  {
    RepostedBalances(s, id, content);
    PlanContentExactly(content, CorrectionBase(s, id, content));
  }

  lemma RefinedBalance(s: Store, id: int, content: Content, wide: map<Key, int>, narrow: map<Key, int>, k: Key)
    requires id in s.docs && Ready(content) && Cancel(s, id).Ok?
    requires wide.Keys == CorrectionBase(s, id, content).Keys && narrow.Keys == StockKeys(content)
    requires forall x :: x in wide ==> wide[x] == Balance(Cancel(s, id).value.balances + narrow, x)
    ensures Balance(s.balances + wide, k) == Balance(Cancel(s, id).value.balances + narrow, k)
  {
    if k !in wide {
      CancelMovesBalances(s, id, k);
      SumElsewhere(ActiveChanges(s, id), k);
    }
  }

  /** Whenever cancelling and then posting the new content works, correcting works and leaves the same balances. */
  lemma RepostRefinesCancelThenPost(s: Store, id: int, content: Content, freshId: int)
    requires id in s.docs && freshId !in s.docs && Ready(content)
    requires Cancel(s, id).Ok?
    requires Post(WithDraft(Cancel(s, id).value, freshId, content), freshId).Ok?
    ensures Repost(s, id, content).Ok?
    ensures forall k: Key ::
      Balance(Repost(s, id, content).value.balances, k)
      == Balance(Post(WithDraft(Cancel(s, id).value, freshId, content), freshId).value.balances, k)
  {
    CancelWrites(s, id);
    PostedBalances(WithDraft(Cancel(s, id).value, freshId, content), freshId);
    RepostedBalances(s, id, content);
    RefinedPlan(s, id, content);
    var wide := PlanContent(content, CorrectionBase(s, id, content)).value.quantities;
    var narrow := PlanContent(content, Load(Cancel(s, id).value.balances, StockKeys(content))).value.quantities;
    forall k: Key ensures Balance(s.balances + wide, k) == Balance(Cancel(s, id).value.balances + narrow, k) {
      RefinedBalance(s, id, content, wide, narrow, k);
    }
  }

  /** A document that passes the checks before posting passes those of a correction. */
  lemma PostableIsCandidate(dir: Directory, content: Content)
    requires CheckBeforePost(dir, content).None?
    ensures CheckCandidate(dir, content).None? && Ready(content)
  {
  }

  lemma CancelledAnswer(b: B.Books, id: int)
    requires B.CancelDocument(b, id).Ok?
    ensures id in b.store.docs && b.store.docs[id].status == Posted && !Payments.HasActive(b.payments, id)
    ensures Cancel(b.store, id).Ok? && B.CancelDocument(b, id).value.store == Cancel(b.store, id).value
    ensures B.CancelDocument(b, id).value.dir == b.dir
  {
  }

  lemma PostedAnswer(b: B.Books, id: int)
    requires B.PostDocument(b, id).Ok?
    ensures id in b.store.docs && CheckBeforePost(b.dir, b.store.docs[id].content).None?
    ensures Post(b.store, id).Ok? && B.PostDocument(b, id).value.store == Post(b.store, id).value
  {
  }

  lemma CorrectedAnswer(b: B.Books, id: int, content: Content, reason: nat)
    requires id in b.store.docs && b.store.docs[id].status == Posted && !Payments.HasActive(b.payments, id)
    requires reason >= 3 && B.PricedLines(content.lines) && Ready(content)
    requires CheckCandidate(b.dir, content).None? && Repost(b.store, id, content).Ok?
    ensures var r := B.RepostDocument(b, id, content, reason);
      r.Ok? && r.value.store == Repost(b.store, id, content).value
  {
  }

  /**
   The same for the service with all its checks: where a document can be cancelled and its new content
   posted as a fresh one, the correction is accepted and leaves the same balances.
   */
  lemma CorrectingRefines(b: B.Books, id: int, content: Content, reason: nat, freshId: int)
    requires freshId !in b.store.docs && reason >= 3 && B.PricedLines(content.lines)
    requires B.CancelDocument(b, id).Ok?
    requires var cancelled := B.CancelDocument(b, id).value;
      B.PostDocument(cancelled.(store := WithDraft(cancelled.store, freshId, content)), freshId).Ok?
    ensures var cancelled := B.CancelDocument(b, id).value;
      var posted := B.PostDocument(cancelled.(store := WithDraft(cancelled.store, freshId, content)), freshId).value;
      var r := B.RepostDocument(b, id, content, reason);
      && r.Ok?
      && forall k: Key :: Balance(r.value.store.balances, k) == Balance(posted.store.balances, k)
  {
    var cancelled := B.CancelDocument(b, id).value;
    CancelledAnswer(b, id);
    PostedAnswer(cancelled.(store := WithDraft(cancelled.store, freshId, content)), freshId);
    PostableIsCandidate(b.dir, content);
    RepostRefinesCancelThenPost(b.store, id, content, freshId);
    CorrectedAnswer(b, id, content, reason);
  }

  // ------------------------------------------------------------ when cancelling works

  /** Undone up to and including change i, the balance it touches is not below zero. */
  predicate StaysUp(prior: seq<Change>, start: map<Key, int>, i: nat)
    requires i < |prior|
  {
    prior[i].key in start && start[prior[i].key] - Sum(prior[..i + 1], prior[i].key) >= 0
  }

  /** No partial undo dips below zero at the balance it touches. */
  predicate NeverDips(prior: seq<Change>, start: map<Key, int>)
  {
    forall i :: 0 <= i < |prior| ==> StaysUp(prior, start, i)
  }

  lemma StaysUpInPrefix(prior: seq<Change>, start: map<Key, int>, i: nat)
    requires i < |prior| - 1
    ensures StaysUp(prior[..|prior| - 1], start, i) <==> StaysUp(prior, start, i)
  {
    assert prior[..|prior| - 1][..i + 1] == prior[..i + 1];
  }

  lemma NeverDipsStep(prior: seq<Change>, start: map<Key, int>)
    requires |prior| > 0
    ensures var n := |prior| - 1;
      NeverDips(prior, start) <==>
        NeverDips(prior[..n], start) && prior[n].key in start && start[prior[n].key] - Sum(prior, prior[n].key) >= 0
  {
    var n := |prior| - 1;
    assert prior[..n + 1] == prior;
    forall i | 0 <= i < n ensures StaysUp(prior[..n], start, i) <==> StaysUp(prior, start, i) {
      StaysUpInPrefix(prior, start, i);
    }
    assert StaysUp(prior, start, n) <==> prior[n].key in start && start[prior[n].key] - Sum(prior, prior[n].key) >= 0;
  }

  /** Undoing a list of changes goes through exactly when no partial undo dips. */
  lemma {:induction false} UndoExactly(prior: seq<Change>, start: map<Key, int>)
    requires Keys(prior) <= start.Keys
    ensures Undo(prior, start).Ok? <==> NeverDips(prior, start)
  {
    if |prior| > 0 {
      var n := |prior| - 1;
      KeysOfPrefix(prior);
      UndoExactly(prior[..n], start);
      UndoneQuantitiesAt(prior[..n], start, prior[n].key);
      NeverDipsStep(prior, start);
      SumLast(prior, prior[n].key);
    }
  }

  lemma SumLast(changes: seq<Change>, k: Key)
    requires |changes| > 0
    ensures var n := |changes| - 1;
      Sum(changes, k) == Sum(changes[..n], k) + (if changes[n].key == k then changes[n].delta else 0)
  {
  }

  lemma UndoneQuantitiesAt(prior: seq<Change>, start: map<Key, int>, k: Key)
    requires Keys(prior) <= start.Keys && k in start
    ensures Undo(prior, start).Ok? ==> Undo(prior, start).value[k] == start[k] - Sum(prior, k)
  {
    UndoneQuantities(prior, start, k);
  }

  predicate Agree(a: Change, b: Change)
  {
    a.key == b.key ==> (a.delta >= 0 && b.delta >= 0) || (a.delta <= 0 && b.delta <= 0)
  }

  /** On each balance the changes all point the same way. */
  predicate SameSigned(changes: seq<Change>)
  {
    forall i, j :: 0 <= i < j < |changes| ==> Agree(changes[i], changes[j])
  }

  /** No change on a balance is negative; or, mirrored, none is positive. */
  predicate NoneBelow(changes: seq<Change>, k: Key)
  {
    forall i :: 0 <= i < |changes| && changes[i].key == k ==> changes[i].delta >= 0
  }

  predicate NoneAbove(changes: seq<Change>, k: Key)
  {
    forall i :: 0 <= i < |changes| && changes[i].key == k ==> changes[i].delta <= 0
  }

  lemma {:induction false} SumSign(changes: seq<Change>, k: Key)
    ensures NoneBelow(changes, k) ==> Sum(changes, k) >= 0
    ensures NoneAbove(changes, k) ==> Sum(changes, k) <= 0
  {
    if |changes| > 0 {
      var rest := changes[..|changes| - 1];
      assert forall i :: 0 <= i < |rest| ==> rest[i] == changes[i];
      SumSign(rest, k);
    }
  }

  lemma OneSign(changes: seq<Change>, k: Key)
    requires SameSigned(changes)
    ensures NoneBelow(changes, k) || NoneAbove(changes, k)
  {
    if i :| 0 <= i < |changes| && changes[i].key == k && changes[i].delta < 0 {
      forall j | 0 <= j < |changes| && changes[j].key == k ensures changes[j].delta <= 0 {
        assert i < j ==> Agree(changes[i], changes[j]);
        assert j < i ==> Agree(changes[j], changes[i]);
      }
    }
  }

  lemma SignsOfParts(changes: seq<Change>, n: nat, k: Key)
    requires n <= |changes|
    ensures NoneAbove(changes, k) ==> NoneAbove(changes[..n], k)
    ensures NoneBelow(changes, k) ==> NoneBelow(changes[n..], k)
  {
  }

  lemma PartialSumBounded(changes: seq<Change>, i: nat)
    requires SameSigned(changes) && i < |changes|
    ensures var k := changes[i].key;
      var part, whole := Sum(changes[..i + 1], k), Sum(changes, k);
      part <= 0 || part <= whole
  {
    var k, head, tail := changes[i].key, changes[..i + 1], changes[i + 1..];
    assert changes == head + tail;
    SumConcat(head, tail, k);
    OneSign(changes, k);
    SignsOfParts(changes, i + 1, k);
    SumSign(head, k);
    SumSign(tail, k);
  }

  /** For changes of one sign per balance only the final balances matter. */
  lemma UndoOfSameSigned(prior: seq<Change>, start: map<Key, int>)
    requires Keys(prior) <= start.Keys
    requires SameSigned(prior) && AllNonnegative(start)
    ensures Undo(prior, start).Ok? <==> forall k :: k in Keys(prior) ==> start[k] - Sum(prior, k) >= 0
  {
    UndoExactly(prior, start);
    if Undo(prior, start).Ok? {
      forall k | k in Keys(prior) ensures start[k] - Sum(prior, k) >= 0 {
        UndoneQuantities(prior, start, k);
      }
    } else {
      forall i | 0 <= i < |prior| ensures prior[i].key in start {
        assert prior[i].key in Keys(prior);
      }
      var i :| 0 <= i < |prior| && start[prior[i].key] - Sum(prior[..i + 1], prior[i].key) < 0;
      PartialSumBounded(prior, i);
      assert prior[i].key in Keys(prior);
      assert start[prior[i].key] >= 0;
    }
  }

  /** Stock comes in at an incoming document's warehouse and a transfer's destination, and goes out elsewhere. */
  predicate OneWay(docType: DocType, dst: int, c: Change)
  {
    if docType.Incoming? || (docType.Transfer? && c.key.warehouse == dst) then c.delta >= 0 else c.delta <= 0
  }

  predicate AllOneWay(docType: DocType, dst: int, changes: seq<Change>)
  {
    forall i :: 0 <= i < |changes| ==> OneWay(docType, dst, changes[i])
  }

  lemma PlanLineOneWay(docType: DocType, src: int, dst: int, plan: Plan, line: Line)
    requires !docType.Adjustment? && line.quantity >= 0
    requires docType.Transfer? ==> src != dst
    requires Covers(plan.quantities, docType, src, dst, [line])
    requires AllOneWay(docType, dst, plan.changes)
    ensures var r := PlanLine(docType, src, dst, plan, line);
      r.Ok? ==> AllOneWay(docType, dst, r.value.changes)
  {
  }

  lemma {:induction false} PlanSigns(docType: DocType, src: int, dst: int, lines: seq<Line>, start: map<Key, int>)
    requires !docType.Adjustment?
    requires docType.Transfer? ==> src != dst
    requires NonnegativeLines(lines)
    requires Covers(start, docType, src, dst, lines)
    ensures var r := PlanLines(docType, src, dst, lines, start);
      r.Ok? ==> AllOneWay(docType, dst, r.value.changes)
  {
    if |lines| > 0 {
      var n := |lines| - 1;
      PlanSigns(docType, src, dst, lines[..n], start);
      var before := PlanLines(docType, src, dst, lines[..n], start);
      if before.Ok? {
        PlanLineOneWay(docType, src, dst, before.value, lines[n]);
      }
    }
  }

  lemma OneWayIsSameSigned(docType: DocType, dst: int, changes: seq<Change>)
    requires AllOneWay(docType, dst, changes)
    ensures SameSigned(changes)
  {
    forall i, j | 0 <= i < j < |changes| ensures Agree(changes[i], changes[j]) {
      assert OneWay(docType, dst, changes[i]) && OneWay(docType, dst, changes[j]);
    }
  }

  /** Everything except an adjustment moves each balance in one direction only. */
  lemma PlansAreSameSigned(content: Content, start: map<Key, int>)
    requires Ready(content) && !content.docType.Adjustment?
    requires StockKeys(content) <= start.Keys
    ensures PlanContent(content, start).Ok? ==> SameSigned(PlanContent(content, start).value.changes)
  {
    StockKeysCover(content, start);
    PlanSigns(content.docType, Source(content), Target(content), content.lines, start);
    var r := PlanLines(content.docType, Source(content), Target(content), content.lines, start);
    if PlanContent(content, start).Ok? {
      assert PlanContent(content, start) == r;
      OneWayIsSameSigned(content.docType, Target(content), r.value.changes);
    }
  }

  // ------------------------------------------------------------ cancelling right after posting

  /** An adjustment is never refused line by line, and each line records one change after the earlier ones. */
  lemma {:induction false} AdjustmentSteps(src: int, lines: seq<Line>, start: map<Key, int>)
    requires Covers(start, Adjustment, src, src, lines)
    ensures var r := PlanLines(Adjustment, src, src, lines, start);
      && r.Ok? && |r.value.changes| == |lines|
      && (|lines| > 0 ==>
            var before := PlanLines(Adjustment, src, src, lines[..|lines| - 1], start);
            before.Ok? && before.value.changes == r.value.changes[..|lines| - 1])
  {
    if |lines| > 0 {
      AdjustmentSteps(src, lines[..|lines| - 1], start);
    }
  }

  /** Its first changes are those of its first lines. */
  lemma {:induction false} AdjustmentPrefixPlan(src: int, lines: seq<Line>, start: map<Key, int>, n: nat)
    requires Covers(start, Adjustment, src, src, lines)
    requires n <= |lines|
    ensures var r := PlanLines(Adjustment, src, src, lines, start);
      var prefix := PlanLines(Adjustment, src, src, lines[..n], start);
      && r.Ok? && prefix.Ok?
      && |r.value.changes| == |lines| && |prefix.value.changes| == n
      && r.value.changes[..n] == prefix.value.changes
    decreases |lines|
  {
    AdjustmentSteps(src, lines, start);
    if n == |lines| {
      assert lines[..n] == lines;
    } else {
      AdjustmentPrefixPlan(src, lines[..|lines| - 1], start, n);
      assert lines[..|lines| - 1][..n] == lines[..n];
    }
  }

  lemma AdjustmentPrefix(src: int, lines: seq<Line>, start: map<Key, int>, i: nat)
    requires Covers(start, Adjustment, src, src, lines)
    requires i < |lines|
    ensures var r := PlanLines(Adjustment, src, src, lines, start);
      var k := Key(lines[i].product, src);
      && r.Ok?
      && |r.value.changes| == |lines|
      && r.value.changes[i].key == k
      && Sum(r.value.changes[..i + 1], k) == lines[i].quantity - start[k]
  {
    var k := Key(lines[i].product, src);
    AdjustmentPrefixPlan(src, lines, start, i + 1);
    ChangesAccountForQuantities(Adjustment, src, src, lines[..i + 1], start, k);
    AdjustmentLast(src, lines[..i + 1], start);
    var r := PlanLines(Adjustment, src, src, lines, start);
    assert r.value.changes[i] == r.value.changes[..i + 1][i];
  }

  lemma AdjustmentLast(src: int, lines: seq<Line>, start: map<Key, int>)
    requires Covers(start, Adjustment, src, src, lines)
    requires |lines| > 0
    ensures var r, last := PlanLines(Adjustment, src, src, lines, start), lines[|lines| - 1];
      r.Ok? ==>
        && |r.value.changes| > 0
        && r.value.changes[|r.value.changes| - 1].key == Key(last.product, src)
        && r.value.quantities[Key(last.product, src)] == last.quantity
  {
  }

  /** A line does not lift its balance above where it started and where the last line leaves it, together. */
  predicate LineFits(content: Content, balances: map<Key, int>, i: nat)
    requires content.warehouse.Some? && i < |content.lines|
  {
    var line := content.lines[i];
    line.quantity
    <= LastQuantity(content.lines, line.product, 0) + Balance(balances, Key(line.product, Source(content)))
  }

  predicate NoLineOvershoots(content: Content, balances: map<Key, int>)
    requires content.warehouse.Some?
  {
    forall i :: 0 <= i < |content.lines| ==> LineFits(content, balances, i)
  }

  lemma {:induction false} LastQuantityPresent(lines: seq<Line>, i: nat, a: int, b: int)
    requires i < |lines|
    ensures LastQuantity(lines, lines[i].product, a) == LastQuantity(lines, lines[i].product, b)
  {
    if i < |lines| - 1 {
      LastQuantityPresent(lines[..|lines| - 1], i, a, b);
    }
  }

  lemma PostThenActive(s: Store, id: int)
    requires Versions.Versioned(s)
    requires id in s.docs && s.docs[id].status == Draft && Ready(s.docs[id].content)
    requires Post(s, id).Ok?
    ensures ActiveChanges(Post(s, id).value, id) == PostedChanges(s, id)
    ensures PostedChanges(s, id) != []
  {
    PostWrites(s, id);
    Versions.PostedChangesNotEmpty(s, id);
    SelectAppend(s.log, Some(Origin(id, 1, Apply)), PostedChanges(s, id), Origin(id, 1, Apply));
    assert Select(s.log, Origin(id, 1, Apply)) == [];
  }

  lemma CancelIsUndo(t: Store, id: int)
    requires id in t.docs && ActiveChanges(t, id) != []
    ensures Cancel(t, id).Ok? <==> Undo(ActiveChanges(t, id), Load(t.balances, Keys(ActiveChanges(t, id)))).Ok?
  {
  }

  lemma ShippingCanBeCancelled(s: Store, id: int)
    requires CacheExact(s) && Versions.Versioned(s)
    requires id in s.docs && s.docs[id].status == Draft && Ready(s.docs[id].content)
    requires !s.docs[id].content.docType.Adjustment?
    requires Post(s, id).Ok?
    ensures Cancel(Post(s, id).value, id).Ok?
  {
    var t, changes := Post(s, id).value, PostedChanges(s, id);
    PostThenActive(s, id);
    PlansAreSameSigned(s.docs[id].content, Load(s.balances, StockKeys(s.docs[id].content)));
    var start := Load(t.balances, Keys(changes));
    PostKeepsCache(s, id);
    forall k | k in start ensures start[k] >= 0 && start[k] - Sum(changes, k) >= 0 {
      PostMovesBalances(s, id, k);
      assert Balance(s.balances, k) >= 0 && Balance(t.balances, k) >= 0;
    }
    UndoOfSameSigned(changes, start);
    CancelIsUndo(t, id);
  }

  /** What is left on a line's balance when an adjustment is undone up to and including that line. */
  lemma AdjustmentLeft(content: Content, balances: map<Key, int>, changes: seq<Change>, i: nat)
    requires Ready(content) && content.docType.Adjustment?
    requires PlanContent(content, Load(balances, StockKeys(content))).Ok?
    requires changes == PlanContent(content, Load(balances, StockKeys(content))).value.changes
    requires i < |content.lines|
    ensures |changes| == |content.lines|
    ensures var k := Key(content.lines[i].product, Source(content));
      && changes[i].key == k
      && Balance(balances, k) + Sum(changes, k) - Sum(changes[..i + 1], k)
         == LastQuantity(content.lines, content.lines[i].product, 0) + Balance(balances, k) - content.lines[i].quantity
  {
    var lines, src := content.lines, Source(content);
    var loaded := Load(balances, StockKeys(content));
    var k := Key(lines[i].product, src);
    StockKeysCover(content, loaded);
    AdjustmentIgnoresTarget(src, Target(content), lines, loaded);
    AdjustmentPrefix(src, lines, loaded, i);
    PlanReachesFinalAt(Adjustment, src, src, lines, loaded, k);
    ChangesAccountForQuantities(Adjustment, src, src, lines, loaded, k);
    LastQuantityPresent(lines, i, 0, loaded[k]);
  }

  lemma AdjustmentCancelled(s: Store, id: int)
    requires Versions.Versioned(s)
    requires id in s.docs && s.docs[id].status == Draft && Ready(s.docs[id].content)
    requires s.docs[id].content.docType.Adjustment?
    requires Post(s, id).Ok?
    ensures Cancel(Post(s, id).value, id).Ok? <==> NoLineOvershoots(s.docs[id].content, s.balances)
  {
    var content := s.docs[id].content;
    var t, changes := Post(s, id).value, PostedChanges(s, id);
    PostThenActive(s, id);
    var start := Load(t.balances, Keys(changes));
    CancelIsUndo(t, id);
    UndoExactly(changes, start);
    AdjustmentLeft(content, s.balances, changes, 0);
    forall i | 0 <= i < |changes| ensures StaysUp(changes, start, i) <==> LineFits(content, s.balances, i) {
      AdjustmentLeft(content, s.balances, changes, i);
      assert changes[i].key in Keys(changes);
      PostMovesBalances(s, id, changes[i].key);
    }
  }

  lemma {:induction false} AdjustmentIgnoresTarget(src: int, dst: int, lines: seq<Line>, start: map<Key, int>)
    requires Covers(start, Adjustment, src, dst, lines)
    ensures Covers(start, Adjustment, src, src, lines)
    ensures PlanLines(Adjustment, src, dst, lines, start) == PlanLines(Adjustment, src, src, lines, start)
  {
    if |lines| > 0 {
      AdjustmentIgnoresTarget(src, dst, lines[..|lines| - 1], start);
    }
  }

  /**
   Cancelling straight after posting. It restores every balance when it goes through, and it goes
   through for every document except an adjustment in which some line overshoots.
   */
  lemma CancelUndoesPost(s: Store, id: int)
    requires CacheExact(s) && Versions.Versioned(s)
    requires id in s.docs && s.docs[id].status == Draft && Ready(s.docs[id].content)
    requires Post(s, id).Ok?
    ensures var r := Cancel(Post(s, id).value, id);
      && (r.Ok? <==>
            (s.docs[id].content.docType.Adjustment? ==> NoLineOvershoots(s.docs[id].content, s.balances)))
      && (r.Ok? ==> forall k: Key :: Balance(r.value.balances, k) == Balance(s.balances, k))
  {
    if s.docs[id].content.docType.Adjustment? {
      AdjustmentCancelled(s, id);
    } else {
      ShippingCanBeCancelled(s, id);
    }
    var t := Post(s, id).value;
    if Cancel(t, id).Ok? {
      PostThenActive(s, id);
      forall k: Key ensures Balance(Cancel(t, id).value.balances, k) == Balance(s.balances, k) {
        PostMovesBalances(s, id, k);
        CancelMovesBalances(t, id, k);
      }
    }
  }

  /** One draft on empty stock. */
  function DraftAlone(content: Content): Store
  {
    Store(map[1 := Document(content, Draft, 0, 0)], map[], [])
  }

  /** Set a product to 10 and then to 3 in one adjustment. */
  function CountedTwice(): Content
  {
    Content(Adjustment, 0, None, Some(1), None, [Line(7, 10, 0), Line(7, 3, 0)])
  }

  lemma DraftAloneIsVersioned(content: Content)
    ensures Versions.Versioned(DraftAlone(content))
  {
    assert forall o: Origin :: Select([], o) == [];
  }

  lemma CountedTwicePosts()
    ensures Ready(CountedTwice()) && Post(DraftAlone(CountedTwice()), 1).Ok?
  {
    var content, s := CountedTwice(), DraftAlone(CountedTwice());
    var loaded := Load(s.balances, StockKeys(content));
    PlanContentExactly(content, loaded);
    PostedBalances(s, 1);
    forall k | k in loaded ensures Final(Adjustment, 1, 1, content.lines, loaded, k) >= 0 {
      LastOfTwo(k.product, loaded[k]);
    }
  }

  lemma LastOfTwo(product: int, otherwise: int)
    ensures LastQuantity(CountedTwice().lines, product, otherwise) == if product == 7 then 3 else otherwise
  {
    var lines := CountedTwice().lines;
    assert lines[..1] == [Line(7, 10, 0)];
    OneLine(Line(7, 10, 0), product, otherwise);
  }

  /** The exception is real: that adjustment posts and cannot be cancelled. */
  lemma AdjustmentThatCannotBeCancelled()
    ensures var s := DraftAlone(CountedTwice());
      Ready(CountedTwice()) && Post(s, 1).Ok? && Cancel(Post(s, 1).value, 1).Err?
  {
    CountedTwicePosts();
    DraftAloneIsVersioned(CountedTwice());
    AdjustmentCancelled(DraftAlone(CountedTwice()), 1);
    LastOfTwo(7, 0);
    assert !LineFits(CountedTwice(), map[], 0);
  }
}
