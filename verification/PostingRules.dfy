/** Postings over their rows: where posting, correcting and cancelling leave every balance, and when they go through. */
module PostingRules {
  import opened Common
  import opened Stock
  import D = Documents
  import B = Books
  import P = Payments
  import R = PaymentRules
  import opened DocumentRules
  import opened Planning
  import Corrections
  import Locks
  import Reachable
  import opened Sums

  // ------------------------------------------------------------ where a document leaves a balance

  /** Where a document leaves a balance that held this much. */
  function Ends(content: Content, held: int, k: Key): int
    requires content.warehouse.Some? && (content.docType.Transfer? ==> content.destination.Some?)
  {
    if k.warehouse == content.warehouse.value then
      match content.docType
      case Incoming => held + Demand(content.lines, k.product)
      case Outgoing => held - Demand(content.lines, k.product)
      case Adjustment => LastQuantity(content.lines, k.product, held)
      case Transfer => held - Demand(content.lines, k.product)
    else if content.docType.Transfer? && k.warehouse == content.destination.value then
      held + Demand(content.lines, k.product)
    else held
  }

  lemma EndsIsFinal(content: Content, start: map<Key, int>, k: Key)
    requires D.Ready(content) && k in start
    ensures Ends(content, start[k], k)
         == Final(content.docType, D.Source(content), D.Target(content), content.lines, start, k)
  {
  }

  /** A product the document does not name is left alone. */
  lemma EndsElsewhere(content: Content, held: int, k: Key)
    requires D.Ready(content) && k !in D.StockKeys(content)
    ensures Ends(content, held, k) == held
  {
    EndsIsFinal(content, map[k := held], k);
    Corrections.FinalElsewhere(content, map[k := held], k);
  }

  /** A balance less what some changes put into it. */
  function Base(balances: map<Key, int>, prior: seq<Change>, k: Key): int
  {
    Balance(balances, k) - Sum(prior, k)
  }

  /** What leaves a warehouse was there, each product as a whole. */
  predicate Shippable(content: Content, balances: map<Key, int>, prior: seq<Change>)
    requires content.warehouse.Some?
  {
    content.docType in {Outgoing, Transfer} ==>
      forall i :: 0 <= i < |content.lines| ==>
        Demand(content.lines, content.lines[i].product)
        <= Base(balances, prior, Key(content.lines[i].product, content.warehouse.value))
  }

  /** No balance ends below zero. */
  predicate NoneBelowZero(content: Content, balances: map<Key, int>, prior: seq<Change>, keys: set<Key>)
    requires content.warehouse.Some? && (content.docType.Transfer? ==> content.destination.Some?)
  {
    forall k :: k in keys ==> Ends(content, Base(balances, prior, k), k) >= 0
  }

  /** The quantities a plan starts from are the balances less the changes. */
  predicate StartsFrom(start: map<Key, int>, balances: map<Key, int>, prior: seq<Change>)
  {
    forall k :: k in start ==> start[k] == Base(balances, prior, k)
  }

  lemma ShippableExactly(content: Content, start: map<Key, int>, balances: map<Key, int>, prior: seq<Change>)
    requires D.Ready(content) && D.StockKeys(content) <= start.Keys && StartsFrom(start, balances, prior)
    ensures Covers(start, content.docType, D.Source(content), D.Target(content), content.lines)
    ensures (content.docType in {Outgoing, Transfer} ==> InStock(content.lines, D.Source(content), start))
       <==> Shippable(content, balances, prior)
  {
    D.StockKeysCover(content, start);
    if content.docType in {Outgoing, Transfer} {
      forall i | 0 <= i < |content.lines|
        ensures start[Key(content.lines[i].product, content.warehouse.value)]
             == Base(balances, prior, Key(content.lines[i].product, content.warehouse.value))
      {
      }
    }
  }

  lemma EndsAreFinals(content: Content, start: map<Key, int>, balances: map<Key, int>, prior: seq<Change>)
    requires D.Ready(content) && StartsFrom(start, balances, prior)
    ensures var final := FinalQuantities(content.docType, D.Source(content), D.Target(content), content.lines, start);
      && (AllNonnegative(final) <==> NoneBelowZero(content, balances, prior, start.Keys))
      && forall k :: k in start ==> final[k] == Ends(content, Base(balances, prior, k), k)
  {
    var final := FinalQuantities(content.docType, D.Source(content), D.Target(content), content.lines, start);
    forall k | k in start ensures final[k] == Ends(content, Base(balances, prior, k), k) {
      EndsIsFinal(content, start, k);
    }
    if AllNonnegative(final) {
      forall k | k in start.Keys ensures Ends(content, Base(balances, prior, k), k) >= 0 {
        assert final[k] >= 0;
      }
    }
  }

  /** A plan succeeds exactly when what it ships is there and nothing ends below zero, and ends as said. */
  lemma PlanExactly(content: Content, start: map<Key, int>, balances: map<Key, int>, prior: seq<Change>)
    requires D.Ready(content) && D.StockKeys(content) <= start.Keys && StartsFrom(start, balances, prior)
    ensures var plan := D.PlanContent(content, start);
      && (plan.Ok? <==>
            Shippable(content, balances, prior) && NoneBelowZero(content, balances, prior, start.Keys))
      && (plan.Ok? ==> forall k :: k in start ==>
            plan.value.quantities[k] == Ends(content, Base(balances, prior, k), k))
  {
    Corrections.PlanContentExactly(content, start);
    ShippableExactly(content, start, balances, prior);
    EndsAreFinals(content, start, balances, prior);
  }

  /** The balances a posting loads, and with them the ones a correction takes back. */
  function Loaded(content: Content, prior: seq<Change>): set<Key>
    requires content.warehouse.Some?
  {
    Keys(prior) + D.StockKeys(content)
  }

  /** Balances that are not loaded are not changed, so none of them ends below zero. */
  lemma OthersStand(content: Content, balances: map<Key, int>, prior: seq<Change>, k: Key)
    requires D.Ready(content) && k !in Loaded(content, prior)
    ensures Ends(content, Base(balances, prior, k), k) == Balance(balances, k)
  {
    SumElsewhere(prior, k);
    EndsElsewhere(content, Base(balances, prior, k), k);
  }

  /** What the table guarantees of balances, and every run keeps. */
  ghost predicate NoNegative(balances: map<Key, int>)
  {
    forall k: Key :: Balance(balances, k) >= 0
  }

  lemma NoRunLeavesNegative(dir: D.Directory, commands: seq<B.Command>)
    ensures NoNegative(Reachable.Reached(dir, commands).store.balances)
  {
    forall k: Key ensures Balance(Reachable.Reached(dir, commands).store.balances, k) >= 0 {
      Reachable.BalancesAreTheLog(dir, commands, k);
    }
  }

  /** Every balance ends as the document says. */
  ghost predicate AllEnd(content: Content, balances: map<Key, int>, prior: seq<Change>, after: map<Key, int>)
    requires content.warehouse.Some? && (content.docType.Transfer? ==> content.destination.Some?)
  {
    forall k: Key :: Balance(after, k) == Ends(content, Base(balances, prior, k), k)
  }

  ghost predicate AllAboveZero(content: Content, balances: map<Key, int>, prior: seq<Change>)
    requires content.warehouse.Some? && (content.docType.Transfer? ==> content.destination.Some?)
  {
    forall k: Key :: Ends(content, Base(balances, prior, k), k) >= 0
  }

  /** Planning on the loaded balances decides for all of them. */
  lemma LoadedPlanExactly(content: Content, balances: map<Key, int>, prior: seq<Change>, start: map<Key, int>)
    requires D.Ready(content) && NoNegative(balances)
    requires start.Keys == Loaded(content, prior) && StartsFrom(start, balances, prior)
    ensures var plan := D.PlanContent(content, start);
      && (plan.Ok? <==> Shippable(content, balances, prior) && AllAboveZero(content, balances, prior))
      && (plan.Ok? ==> AllEnd(content, balances, prior, balances + plan.value.quantities))
  {
    PlanExactly(content, start, balances, prior);
    forall k | k !in start.Keys ensures Ends(content, Base(balances, prior, k), k) == Balance(balances, k) {
      OthersStand(content, balances, prior, k);
    }
    if NoneBelowZero(content, balances, prior, start.Keys) {
      forall k: Key ensures Ends(content, Base(balances, prior, k), k) >= 0 {
        assert k in start.Keys || Balance(balances, k) >= 0;
      }
    }
  }

  // ------------------------------------------------------------ posting

  /** The only fault of a plan is a shortage. */
  lemma {:induction false} ShortageIsConflict(docType: DocType, src: int, dst: int, lines: seq<Line>,
                                              start: map<Key, int>)
    requires Covers(start, docType, src, dst, lines)
    ensures PlanLines(docType, src, dst, lines, start).Err? ==>
      PlanLines(docType, src, dst, lines, start).fault == Conflict
  {
    if |lines| > 0 {
      ShortageIsConflict(docType, src, dst, lines[..|lines| - 1], start);
    }
  }

  lemma PlanFault(content: Content, start: map<Key, int>)
    requires D.Ready(content) && D.StockKeys(content) <= start.Keys
    ensures D.PlanContent(content, start).Err? ==> D.PlanContent(content, start).fault == Conflict
  {
    D.StockKeysCover(content, start);
    ShortageIsConflict(content.docType, D.Source(content), D.Target(content), content.lines, start);
  }

  /** What leaves the warehouse is there, each product as a whole. */
  predicate Enough(content: Content, balances: map<Key, int>)
    requires content.warehouse.Some?
  {
    content.docType in {Outgoing, Transfer} ==>
      forall i :: 0 <= i < |content.lines| ==>
        Demand(content.lines, content.lines[i].product)
        <= Balance(balances, Key(content.lines[i].product, content.warehouse.value))
  }

  lemma {:induction false} DemandOf(lines: seq<Line>, product: int, otherwise: int)
    requires NonnegativeLines(lines) && otherwise >= 0
    ensures Demand(lines, product) >= 0 && LastQuantity(lines, product, otherwise) >= 0
    ensures Demand(lines, product) > 0 ==> exists i :: 0 <= i < |lines| && lines[i].product == product
  {
    if |lines| > 0 {
      var rest := lines[..|lines| - 1];
      DemandOf(rest, product, otherwise);
      if Demand(rest, product) > 0 {
        var i :| 0 <= i < |rest| && rest[i].product == product;
        assert lines[i].product == product;
      } else if Demand(lines, product) > 0 {
        assert lines[|lines| - 1].product == product;
      }
    }
  }

  /** What is there can be shipped without any balance ending below zero. */
  lemma EnoughEndsAboveZero(content: Content, balances: map<Key, int>, k: Key)
    requires D.Ready(content) && NoNegative(balances) && Enough(content, balances)
    ensures Ends(content, Balance(balances, k), k) >= 0
  {
    DemandOf(content.lines, k.product, Balance(balances, k));
    if Demand(content.lines, k.product) > 0 {
      var i :| 0 <= i < |content.lines| && content.lines[i].product == k.product;
      assert k == Key(content.lines[i].product, k.warehouse);
    }
  }

  lemma LoadsAll(content: Content, balances: map<Key, int>)
    requires D.Ready(content)
    ensures StartsFrom(Load(balances, D.StockKeys(content)), balances, [])
    ensures D.StockKeys(content) == Loaded(content, [])
    ensures Shippable(content, balances, []) <==> Enough(content, balances)
  {
  }

  /** A posting can be planned exactly when what it ships is there. */
  lemma PostPlanExactly(content: Content, balances: map<Key, int>)
    requires D.Ready(content) && NoNegative(balances)
    ensures var plan := D.PlanContent(content, Load(balances, D.StockKeys(content)));
      && (plan.Ok? <==> Enough(content, balances))
      && (plan.Ok? ==> AllEnd(content, balances, [], balances + plan.value.quantities))
  {
    LoadsAll(content, balances);
    LoadedPlanExactly(content, balances, [], Load(balances, D.StockKeys(content)));
    if Enough(content, balances) {
      forall k: Key ensures Ends(content, Base(balances, [], k), k) >= 0 {
        EnoughEndsAboveZero(content, balances, k);
      }
    }
  }

  /** Where a posting leaves the documents and every balance. */
  ghost predicate Posted(before: D.Store, after: D.Store, id: int)
    requires id in before.docs && before.docs[id].content.warehouse.Some?
    requires before.docs[id].content.docType.Transfer? ==> before.docs[id].content.destination.Some?
  {
    var doc := before.docs[id];
    && (forall k: Key :: Balance(after.balances, k) == Ends(doc.content, Balance(before.balances, k), k))
    && after.docs == before.docs[id := doc.(status := D.Posted, version := doc.version + 1)]
  }

  lemma PostStockExactly(s: D.Store, id: int)
    requires id in s.docs && D.Ready(s.docs[id].content) && NoNegative(s.balances)
    ensures D.Post(s, id).Ok? <==> Enough(s.docs[id].content, s.balances)
    ensures D.Post(s, id).Ok? ==> Posted(s, D.Post(s, id).value, id)
  {
    PostPlanExactly(s.docs[id].content, s.balances);
    Corrections.PostedBalances(s, id);
    if D.Post(s, id).Ok? {
      forall k: Key ensures Ends(s.docs[id].content, Base(s.balances, [], k), k)
                         == Ends(s.docs[id].content, Balance(s.balances, k), k) {
      }
      D.PostWrites(s, id);
    }
  }

  /**
   A draft is posted exactly when it names what it must and what it ships is there. Its warehouse gives the
   demand on a sale or a transfer and takes it on a purchase, a count is what its last line says, a transfer's
   destination takes the demand, and every other balance stands.
   */
  lemma PostedExactly(b: B.Books, id: int)
    requires NoNegative(b.store.balances)
    ensures B.PostDocument(b, id).Ok? <==>
      && id in b.store.docs && b.store.docs[id].status == D.Draft
      && Fits(b.dir, b.store.docs[id].content)
      && Enough(b.store.docs[id].content, b.store.balances)
    ensures B.PostDocument(b, id).Ok? ==>
      Fits(b.dir, b.store.docs[id].content) && Posted(b.store, B.PostDocument(b, id).value.store, id)
  {
    if id in b.store.docs {
      FitsExactly(b.dir, b.store.docs[id].content);
      if D.CheckBeforePost(b.dir, b.store.docs[id].content).None? {
        PostStockExactly(b.store, id);
      }
    }
  }

  /** A document that is not there is not found; one that is no draft, or finds too little stock, conflicts. */
  lemma PostingRefused(b: B.Books, id: int)
    requires B.PostDocument(b, id).Err?
    ensures id !in b.store.docs ==> B.PostDocument(b, id).fault == NotFound
    ensures id in b.store.docs && (b.store.docs[id].status != D.Draft || Fits(b.dir, b.store.docs[id].content)) ==>
      B.PostDocument(b, id).fault == Conflict
  {
    if id in b.store.docs && Fits(b.dir, b.store.docs[id].content) {
      var content := b.store.docs[id].content;
      FitsExactly(b.dir, content);
      PlanFault(content, Load(b.store.balances, D.StockKeys(content)));
    }
  }

  // ------------------------------------------------------------ correcting

  function OneOf(id: int, version: int, k: Key): Movement -> int
  {
    (m: Movement) => if m.origin == Some(Origin(id, version, Apply)) && m.change.key == k then m.change.delta else 0
  }

  /** What the rows a document applied under a version put into a balance. */
  ghost function Put(log: seq<Movement>, id: int, version: int, k: Key): int
  {
    SeqSum(log, OneOf(id, version, k))
  }

  predicate HasRows(log: seq<Movement>, id: int, version: int)
  {
    exists i :: 0 <= i < |log| && log[i].origin == Some(Origin(id, version, Apply))
  }

  lemma {:induction false} SelectedIsPut(log: seq<Movement>, id: int, version: int, k: Key)
    ensures Sum(Select(log, Origin(id, version, Apply)), k) == Put(log, id, version, k)
  {
    if |log| > 0 {
      var rest, last := log[..|log| - 1], log[|log| - 1];
      SelectedIsPut(rest, id, version, k);
      if last.origin == Some(Origin(id, version, Apply)) {
        SumAppend(Select(rest, Origin(id, version, Apply)), last.change, k);
      } else {
        assert Select(rest, Origin(id, version, Apply)) + [] == Select(rest, Origin(id, version, Apply));
      }
    }
  }

  lemma {:induction false} SelectedIsThere(log: seq<Movement>, id: int, version: int)
    ensures Select(log, Origin(id, version, Apply)) != [] <==> HasRows(log, id, version)
  {
    if |log| > 0 {
      var rest, last := log[..|log| - 1], log[|log| - 1];
      SelectedIsThere(rest, id, version);
      if HasRows(rest, id, version) {
        var i :| 0 <= i < |rest| && rest[i].origin == Some(Origin(id, version, Apply));
        assert log[i] == rest[i];
      }
      if HasRows(log, id, version) && last.origin != Some(Origin(id, version, Apply)) {
        var i :| 0 <= i < |log| && log[i].origin == Some(Origin(id, version, Apply));
        assert rest[i] == log[i];
      }
    }
  }

  /** A balance without what the document put into it. */
  ghost function Left(s: D.Store, id: int, k: Key): int
    requires id in s.docs
  {
    Balance(s.balances, k) - Put(s.log, id, s.docs[id].version, k)
  }

  lemma LeftIsBase(s: D.Store, id: int, k: Key)
    requires id in s.docs
    ensures Base(s.balances, D.ActiveChanges(s, id), k) == Left(s, id, k)
  {
    SelectedIsPut(s.log, id, s.docs[id].version, k);
  }

  /** Without the old posting there is enough of everything, and the new one leaves nothing below zero. */
  ghost predicate FitsOnTheRest(s: D.Store, id: int, content: Content)
    requires id in s.docs && content.warehouse.Some? && (content.docType.Transfer? ==> content.destination.Some?)
  {
    && (content.docType in {Outgoing, Transfer} ==>
          forall i :: 0 <= i < |content.lines| ==>
            Demand(content.lines, content.lines[i].product)
            <= Left(s, id, Key(content.lines[i].product, content.warehouse.value)))
    && forall k: Key :: Ends(content, Left(s, id, k), k) >= 0
  }

  lemma FitsOnTheRestExactly(s: D.Store, id: int, content: Content)
    requires id in s.docs && D.Ready(content)
    ensures FitsOnTheRest(s, id, content) <==>
      && Shippable(content, s.balances, D.ActiveChanges(s, id))
      && AllAboveZero(content, s.balances, D.ActiveChanges(s, id))
    ensures forall k: Key ::
      Ends(content, Base(s.balances, D.ActiveChanges(s, id), k), k) == Ends(content, Left(s, id, k), k)
  {
    forall k: Key ensures Base(s.balances, D.ActiveChanges(s, id), k) == Left(s, id, k) {
      LeftIsBase(s, id, k);
    }
  }

  lemma BaselineStarts(s: D.Store, id: int, content: Content)
    requires id in s.docs && D.Ready(content)
    ensures var prior := D.ActiveChanges(s, id);
      && Corrections.CorrectionBase(s, id, content).Keys == Loaded(content, prior)
      && StartsFrom(Corrections.CorrectionBase(s, id, content), s.balances, prior)
  {
  }

  /** The stock side of a correction. */
  lemma RepostPlanExactly(s: D.Store, id: int, content: Content)
    requires id in s.docs && D.Ready(content) && NoNegative(s.balances)
    ensures var r := D.Repost(s, id, content);
      && (r.Ok? <==> HasRows(s.log, id, s.docs[id].version) && FitsOnTheRest(s, id, content))
      && (r.Ok? ==> forall k: Key :: Balance(r.value.balances, k) == Ends(content, Left(s, id, k), k))
      && (r.Err? ==> r.fault == Conflict)
  {
    SelectedIsThere(s.log, id, s.docs[id].version);
    if D.ActiveChanges(s, id) != [] {
      BaselineStarts(s, id, content);
      LoadedPlanExactly(content, s.balances, D.ActiveChanges(s, id), Corrections.CorrectionBase(s, id, content));
      PlanFault(content, Corrections.CorrectionBase(s, id, content));
      Corrections.RepostedBalances(s, id, content);
      FitsOnTheRestExactly(s, id, content);
    }
  }

  /** A correction that passes the checks is the stock side of it. */
  lemma CheckedCorrection(b: B.Books, id: int, content: Content)
    requires id in b.store.docs && |content.lines| > 0
    ensures D.CheckCandidate(b.dir, content).None? ==> D.Ready(content)
    ensures B.Corrected(b, id, content).Ok? <==>
      && D.CheckCandidate(b.dir, content).None?
      && P.CheckRepostAllocations(b.payments, id, b.store.docs[id].content, content, D.Total(content.lines)).None?
      && D.Repost(b.store, id, content).Ok?
    ensures B.Corrected(b, id, content).Ok? ==>
      B.Corrected(b, id, content).value.store == D.Repost(b.store, id, content).value
  {
  }

  /** What a correction must be: it names what it must, what was paid allows it, and it fits on the rest. */
  ghost predicate MayReplace(b: B.Books, id: int, content: Content)
    requires id in b.store.docs
  {
    && Fits(b.dir, content)
    && R.MayBecome(b.payments, id, b.store.docs[id].content, content, D.Total(content.lines))
    && HasRows(b.store.log, id, b.store.docs[id].version)
    && FitsOnTheRest(b.store, id, content)
  }

  /** Where it leaves the documents and every balance. */
  ghost predicate Replaced(before: D.Store, after: D.Store, id: int, content: Content)
    requires id in before.docs && content.warehouse.Some? && (content.docType.Transfer? ==> content.destination.Some?)
  {
    && (forall k: Key :: Balance(after.balances, k) == Ends(content, Left(before, id, k), k))
    && after.docs
       == before.docs[id := D.Document(content, D.Posted, before.docs[id].version + 1, D.Total(content.lines))]
  }

  lemma CorrectedStockExactly(b: B.Books, id: int, content: Content)
    requires NoNegative(b.store.balances)
    requires id in b.store.docs && b.store.docs[id].status == D.Posted && |content.lines| > 0
    ensures B.Corrected(b, id, content).Ok? <==> MayReplace(b, id, content)
    ensures B.Corrected(b, id, content).Ok? ==>
      MayReplace(b, id, content) && Replaced(b.store, B.Corrected(b, id, content).value.store, id, content)
  {
    FitsExactly(b.dir, content);
    R.MayBecomeExactly(b.payments, id, b.store.docs[id].content, content, D.Total(content.lines));
    CheckedCorrection(b, id, content);
    if D.CheckCandidate(b.dir, content).None? {
      RepostPlanExactly(b.store, id, content);
      if D.Repost(b.store, id, content).Ok? {
        D.RepostWrites(b.store, id, content);
      }
    }
  }

  /**
   A posted document is corrected exactly when the reason is long enough, no price is below zero, the new
   content names what it must, what was paid allows it, and it fits on the balances without the old posting;
   every balance then ends as the new content says on those.
   */
  lemma CorrectedExactly(b: B.Books, id: int, content: Content, reason: nat)
    requires NoNegative(b.store.balances)
    ensures B.RepostDocument(b, id, content, reason).Ok? <==>
      && id in b.store.docs && b.store.docs[id].status == D.Posted && reason >= 3
      && (forall i :: 0 <= i < |content.lines| ==> content.lines[i].price >= 0)
      && MayReplace(b, id, content)
    ensures B.RepostDocument(b, id, content, reason).Ok? ==>
      Replaced(b.store, B.RepostDocument(b, id, content, reason).value.store, id, content)
  {
    if id in b.store.docs && b.store.docs[id].status == D.Posted && |content.lines| > 0 {
      CorrectedStockExactly(b, id, content);
      if Fits(b.dir, content) {
        PricesAreLeft(b.dir, content);
      }
    }
  }

  /** Lines that fit have no quantity below zero, so only their prices are left to check. */
  lemma PricesAreLeft(dir: D.Directory, content: Content)
    requires Fits(dir, content)
    ensures B.PricedLines(content.lines) <==> forall i :: 0 <= i < |content.lines| ==> content.lines[i].price >= 0
  {
    forall i | 0 <= i < |content.lines| ensures content.lines[i].quantity >= 0 {
      assert LineFits(dir, content.docType, content.lines[i]);
    }
  }

  // ------------------------------------------------------------ cancelling

  /** Taken back in log order, no row leaves its balance below zero. */
  predicate TakenBack(balances: map<Key, int>, prior: seq<Change>)
  {
    forall i :: 0 <= i < |prior| ==> Balance(balances, prior[i].key) - Sum(prior[..i + 1], prior[i].key) >= 0
  }

  lemma TakenBackExactly(balances: map<Key, int>, prior: seq<Change>)
    ensures D.Undo(prior, Load(balances, Keys(prior))).Ok? <==> TakenBack(balances, prior)
  {
    Corrections.UndoExactly(prior, Load(balances, Keys(prior)));
    forall i | 0 <= i < |prior|
      ensures Corrections.StaysUp(prior, Load(balances, Keys(prior)), i)
         <==> Balance(balances, prior[i].key) - Sum(prior[..i + 1], prior[i].key) >= 0
    {
      assert prior[i].key in Keys(prior);
    }
  }

  /** If row i is one the document applied, its balance covers all of them up to it. */
  ghost predicate GoesBack(balances: map<Key, int>, log: seq<Movement>, id: int, version: int, i: nat)
    requires i < |log|
  {
    var k := log[i].change.key;
    log[i].origin == Some(Origin(id, version, Apply)) ==> Balance(balances, k) >= Put(log[..i + 1], id, version, k)
  }

  /** Taken back in log order, none of the document's rows leaves its balance below zero. */
  ghost predicate AllGoBack(balances: map<Key, int>, log: seq<Movement>, id: int, version: int)
  {
    forall i :: 0 <= i < |log| ==> GoesBack(balances, log, id, version, i)
  }

  lemma AllGoBackStep(balances: map<Key, int>, log: seq<Movement>, id: int, version: int)
    requires |log| > 0
    ensures var n := |log| - 1;
      AllGoBack(balances, log, id, version) <==>
        AllGoBack(balances, log[..n], id, version) && GoesBack(balances, log, id, version, n)
  {
    var n := |log| - 1;
    forall i | 0 <= i < n
      ensures GoesBack(balances, log[..n], id, version, i) <==> GoesBack(balances, log, id, version, i)
    {
      assert log[..n][..i + 1] == log[..i + 1];
    }
  }

  lemma TakenBackStep(balances: map<Key, int>, prior: seq<Change>, c: Change)
    ensures TakenBack(balances, prior + [c]) <==>
      TakenBack(balances, prior) && Balance(balances, c.key) - Sum(prior + [c], c.key) >= 0
  {
    var all, n := prior + [c], |prior|;
    assert all[..n + 1] == all;
    forall i | 0 <= i < n ensures all[i] == prior[i] && all[..i + 1] == prior[..i + 1] {
    }
    if TakenBack(balances, all) {
      forall i | 0 <= i < n ensures Balance(balances, prior[i].key) - Sum(prior[..i + 1], prior[i].key) >= 0 {
        assert Balance(balances, all[i].key) - Sum(all[..i + 1], all[i].key) >= 0;
      }
      assert Balance(balances, all[n].key) - Sum(all[..n + 1], all[n].key) >= 0;
    }
  }

  lemma {:induction false} RowsGoBackExactly(balances: map<Key, int>, log: seq<Movement>, id: int, version: int)
    ensures TakenBack(balances, Select(log, Origin(id, version, Apply))) <==> AllGoBack(balances, log, id, version)
  {
    if |log| > 0 {
      var n := |log| - 1;
      var prior, last := Select(log[..n], Origin(id, version, Apply)), log[n].change;
      RowsGoBackExactly(balances, log[..n], id, version);
      AllGoBackStep(balances, log, id, version);
      assert log[..n + 1] == log;
      if log[n].origin == Some(Origin(id, version, Apply)) {
        TakenBackStep(balances, prior, last);
        SelectedIsPut(log, id, version, last.key);
      } else {
        assert prior + [] == prior;
      }
    }
  }

  lemma CancelStockExactly(s: D.Store, id: int)
    requires id in s.docs
    ensures var r := D.Cancel(s, id);
      && (r.Ok? <==>
            && HasRows(s.log, id, s.docs[id].version)
            && AllGoBack(s.balances, s.log, id, s.docs[id].version))
      && (r.Ok? ==>
            && (forall k: Key :: Balance(r.value.balances, k) == Left(s, id, k))
            && r.value.docs == s.docs[id := s.docs[id].(status := D.Cancelled)])
  {
    SelectedIsThere(s.log, id, s.docs[id].version);
    TakenBackExactly(s.balances, D.ActiveChanges(s, id));
    RowsGoBackExactly(s.balances, s.log, id, s.docs[id].version);
    if D.Cancel(s, id).Ok? {
      forall k: Key ensures Balance(D.Cancel(s, id).value.balances, k) == Left(s, id, k) {
        D.CancelMovesBalances(s, id, k);
        SelectedIsPut(s.log, id, s.docs[id].version, k);
      }
    }
  }

  /**
   A posted document is cancelled exactly when nobody paid for it, its warehouses are still there, and its rows
   can be taken back; every balance is then left without them.
   */
  lemma CancelledExactly(b: B.Books, id: int)
    ensures B.CancelDocument(b, id).Ok? <==>
      && id in b.store.docs && b.store.docs[id].status == D.Posted
      && R.Unpaid(b.payments, id) && PlacesFit(b.dir, b.store.docs[id].content)
      && HasRows(b.store.log, id, b.store.docs[id].version)
      && AllGoBack(b.store.balances, b.store.log, id, b.store.docs[id].version)
    ensures B.CancelDocument(b, id).Ok? ==>
      var after := B.CancelDocument(b, id).value.store;
      && (forall k: Key :: Balance(after.balances, k) == Left(b.store, id, k))
      && after.docs == b.store.docs[id := b.store.docs[id].(status := D.Cancelled)]
  {
    if id in b.store.docs {
      R.UnpaidExactly(b.payments, id);
      PlacesExactly(b.dir, b.store.docs[id].content);
      CancelStockExactly(b.store, id);
    }
  }

  // ------------------------------------------------------------ the transactions of the lock layer

  /** What a service call does to the stock is what its transaction does when it runs alone. */
  lemma PostingPerforms(b: B.Books, id: int)
    requires B.PostDocument(b, id).Ok?
    ensures Locks.Perform(b.store, Locks.Posting(id)) == Ok(B.PostDocument(b, id).value.store)
  {
    Corrections.PostedAnswer(b, id);
  }

  lemma CorrectingPerforms(b: B.Books, id: int, content: Content, reason: nat)
    requires B.RepostDocument(b, id, content, reason).Ok?
    ensures Locks.Perform(b.store, Locks.Reposting(id, content))
         == Ok(B.RepostDocument(b, id, content, reason).value.store)
  {
    CheckedCorrection(b, id, content);
    D.RepostWrites(b.store, id, content);
  }

  lemma CancellingPerforms(b: B.Books, id: int)
    requires B.CancelDocument(b, id).Ok?
    ensures Locks.Perform(b.store, Locks.Cancelling(id)) == Ok(B.CancelDocument(b, id).value.store)
  {
    Corrections.CancelledAnswer(b, id);
    D.CancelWrites(b.store, id);
  }
}
