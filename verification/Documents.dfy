/** Documents, balances and the movement log as one value, and the three posting operations on it. */
module Documents {
  import opened Common
  import opened Stock
  import Planning

  datatype PartnerKind = Customer | Supplier | Both

  /** The reference data documents point into; a product is mapped to whether it is active. */
  datatype Directory = Directory(partners: map<int, PartnerKind>, products: map<int, bool>, warehouses: set<int>)

  datatype Status = Draft | Posted | Cancelled

  datatype Document = Document(content: Content, status: Status, version: nat, total: int)

  datatype Store = Store(docs: map<int, Document>, balances: map<Key, int>, log: seq<Movement>)

  // ------------------------------------------------------------ totals

  function LineTotal(line: Line): int
  {
    RoundHalfEven(line.quantity * line.price, 1000)
  }

  function Total(lines: seq<Line>): int
  {
    if |lines| == 0 then 0 else Total(lines[..|lines| - 1]) + LineTotal(lines[|lines| - 1])
  }

  // ------------------------------------------------------------ validation

  function CheckPartner(dir: Directory, docType: DocType, partner: Option<int>): Option<Fault>
  {
    if docType.Transfer? then (if partner.Some? then Some(Unprocessable) else None)
    else if docType.Adjustment? then None
    else if partner.None? then Some(Unprocessable)
    else if partner.value !in dir.partners then Some(NotFound)
    else
      var kind := dir.partners[partner.value];
      if docType.Incoming? && kind == Customer then Some(Conflict)
      else if docType.Outgoing? && kind == Supplier then Some(Conflict)
      else None
  }

  function CheckReferences(dir: Directory, content: Content): Option<Fault>
  {
    if content.warehouse.Some? && content.warehouse.value !in dir.warehouses then Some(NotFound)
    else if content.destination.Some? && content.destination.value !in dir.warehouses then Some(NotFound)
    else if !content.docType.Transfer? && content.destination.Some? then Some(Unprocessable)
    else if content.warehouse.Some? && content.destination == content.warehouse then Some(Unprocessable)
    else None
  }

  function CheckWarehouses(dir: Directory, content: Content): Option<Fault>
  {
    if content.warehouse.None? then Some(Unprocessable)
    else if CheckReferences(dir, content).Some? then CheckReferences(dir, content)
    else if content.docType.Transfer? && content.destination.None? then Some(Unprocessable)
    else None
  }

  function CheckLine(dir: Directory, docType: DocType, line: Line): Option<Fault>
  {
    if line.product !in dir.products then Some(NotFound)
    else if !dir.products[line.product] then Some(Conflict)
    else if !docType.Adjustment? && line.quantity <= 0 then Some(Unprocessable)
    else if line.quantity < 0 then Some(Unprocessable)
    else None
  }

  /** The fault of the first line that has one. */
  function CheckLines(dir: Directory, docType: DocType, lines: seq<Line>): (fault: Option<Fault>)
    ensures fault.None? ==> forall i :: 0 <= i < |lines| ==> CheckLine(dir, docType, lines[i]).None?
  {
    if |lines| == 0 then None else
      var earlier := CheckLines(dir, docType, lines[..|lines| - 1]);
      if earlier.Some? then earlier else CheckLine(dir, docType, lines[|lines| - 1])
  }

  function First(a: Option<Fault>, b: Option<Fault>): Option<Fault>
  {
    if a.Some? then a else b
  }

  function CheckBeforePost(dir: Directory, content: Content): (fault: Option<Fault>)
    ensures fault.None? ==> Ready(content)
  {
    First(CheckWarehouses(dir, content),
    First(if |content.lines| == 0 then Some(Unprocessable) else None,
    First(CheckPartner(dir, content.docType, content.partner),
          CheckLines(dir, content.docType, content.lines))))
  }

  function CheckCandidate(dir: Directory, content: Content): (fault: Option<Fault>)
    ensures fault.None? && |content.lines| > 0 ==> Ready(content)
  {
    First(CheckPartner(dir, content.docType, content.partner),
    First(CheckReferences(dir, content),
    First(CheckWarehouses(dir, content),
          CheckLines(dir, content.docType, content.lines))))
  }

  /** Content that passed validation: it can be planned. */
  predicate Ready(content: Content)
  {
    && content.warehouse.Some?
    && (content.docType.Transfer? ==> content.destination.Some? && content.destination != content.warehouse)
    && |content.lines| > 0
    && Planning.NonnegativeLines(content.lines)
  }

  // ------------------------------------------------------------ keys

  function Source(content: Content): int
    requires content.warehouse.Some?
  {
    content.warehouse.value
  }

  function Target(content: Content): int
    requires content.warehouse.Some?
  {
    if content.destination.Some? then content.destination.value else content.warehouse.value
  }

  function LineKeys(lines: seq<Line>, warehouse: int): set<Key>
  {
    set i | 0 <= i < |lines| :: Key(lines[i].product, warehouse)
  }

  function StockKeys(content: Content): set<Key>
    requires content.warehouse.Some?
  {
    LineKeys(content.lines, Source(content))
    + (if content.docType.Transfer? then LineKeys(content.lines, Target(content)) else {})
  }

  /** No lookup of the plan misses: the document's own keys are all it reads. */
  lemma StockKeysCover(content: Content, quantities: map<Key, int>)
    requires content.warehouse.Some?
    requires StockKeys(content) <= quantities.Keys
    ensures Covers(quantities, content.docType, Source(content), Target(content), content.lines)
  {
    forall i | 0 <= i < |content.lines|
      ensures Key(content.lines[i].product, Source(content)) in quantities
      ensures content.docType.Transfer? ==> Key(content.lines[i].product, Target(content)) in quantities
    {
      assert Key(content.lines[i].product, Source(content)) in LineKeys(content.lines, Source(content));
      assert Key(content.lines[i].product, Target(content)) in LineKeys(content.lines, Target(content));
    }
  }

  function PlanContent(content: Content, quantities: map<Key, int>): (r: Result<Plan>)
    requires content.warehouse.Some?
    requires StockKeys(content) <= quantities.Keys
    ensures r.Ok? ==> r.value.quantities.Keys == quantities.Keys
  {
    StockKeysCover(content, quantities);
    PlanDocument(content.docType, Source(content), Target(content), content.lines, quantities)
  }

  // ------------------------------------------------------------ the three operations

  function ActiveChanges(s: Store, id: int): seq<Change>
    requires id in s.docs
  {
    Select(s.log, Origin(id, s.docs[id].version, Apply))
  }

  function Post(s: Store, id: int): Result<Store>
    requires id in s.docs && Ready(s.docs[id].content)
  {
    var doc := s.docs[id];
    var plan :- PlanContent(doc.content, Load(s.balances, StockKeys(doc.content)));
    Ok(Store(
      s.docs[id := doc.(status := Posted, version := doc.version + 1)],
      s.balances + plan.quantities,
      s.log + Stamped(Some(Origin(id, doc.version + 1, Apply)), plan.changes)))
  }

  /** The balances without a posting; they may be negative for a moment. */
  function Baseline(quantities: map<Key, int>, prior: seq<Change>): map<Key, int>
  {
    map k | k in quantities :: quantities[k] - Sum(prior, k)
  }

  /** The log after a correction: the version in force taken back, the next one applied. */
  function CorrectedLog(log: seq<Movement>, id: int, version: int, prior: seq<Change>,
                        changes: seq<Change>): seq<Movement>
  {
    log
    + (Stamped(Some(Origin(id, version, Reverse)), Reversed(prior))
       + Stamped(Some(Origin(id, version + 1, Apply)), changes))
  }

  function Repost(s: Store, id: int, content: Content): Result<Store>
    requires id in s.docs && Ready(content)
  {
    var doc := s.docs[id];
    var prior := ActiveChanges(s, id);
    if |prior| == 0 then Err(Conflict) else
      var current := Load(s.balances, Keys(prior) + StockKeys(content));
      var plan :- PlanContent(content, Baseline(current, prior));
      Ok(Store(
        s.docs[id := Document(content, doc.status, doc.version + 1, Total(content.lines))],
        s.balances + plan.quantities,
        CorrectedLog(s.log, id, doc.version, prior, plan.changes)))
  }

  /** Undo changes one by one, refusing as soon as a balance would be negative. */
  function Undo(prior: seq<Change>, start: map<Key, int>): (r: Result<map<Key, int>>)
    requires Keys(prior) <= start.Keys
    ensures r.Ok? ==> r.value.Keys == start.Keys
  {
    if |prior| == 0 then Ok(start) else
      var rest, last := prior[..|prior| - 1], prior[|prior| - 1];
      assert last.key in Keys(prior);
      assert Keys(rest) <= Keys(prior) by {
        forall k | k in Keys(rest) ensures k in Keys(prior) {
          var i :| 0 <= i < |rest| && rest[i].key == k;
          assert prior[i].key == k;
        }
      }
      var quantities :- Undo(rest, start);
      var left := quantities[last.key] - last.delta;
      if left < 0 then Err(Conflict) else Ok(quantities[last.key := left])
  }

  function Cancel(s: Store, id: int): Result<Store>
    requires id in s.docs
  {
    var doc := s.docs[id];
    var prior := ActiveChanges(s, id);
    if |prior| == 0 then Err(Conflict) else
      var quantities :- Undo(prior, Load(s.balances, Keys(prior)));
      Ok(Store(
        s.docs[id := doc.(status := Cancelled)],
        s.balances + quantities,
        s.log + Stamped(Some(Origin(id, doc.version, Reverse)), Reversed(prior))))
  }

  // ------------------------------------------------------------ what the operations write

  /** The changes a successful posting applies. */
  function PostedChanges(s: Store, id: int): seq<Change>
    requires id in s.docs && Ready(s.docs[id].content)
    requires Post(s, id).Ok?
  {
    PlanContent(s.docs[id].content, Load(s.balances, StockKeys(s.docs[id].content))).value.changes
  }

  function RepostedChanges(s: Store, id: int, content: Content): seq<Change>
    requires id in s.docs && Ready(content)
    requires Repost(s, id, content).Ok?
  {
    var prior := ActiveChanges(s, id);
    PlanContent(content, Baseline(Load(s.balances, Keys(prior) + StockKeys(content)), prior)).value.changes
  }

  lemma PostWrites(s: Store, id: int)
    requires id in s.docs && Ready(s.docs[id].content)
    requires Post(s, id).Ok?
    ensures var t, version := Post(s, id).value, s.docs[id].version;
      && t.docs == s.docs[id := s.docs[id].(status := Posted, version := version + 1)]
      && t.log == s.log + Stamped(Some(Origin(id, version + 1, Apply)), PostedChanges(s, id))
  {
  }

  lemma RepostWrites(s: Store, id: int, content: Content)
    requires id in s.docs && Ready(content)
    requires Repost(s, id, content).Ok?
    ensures var t, version := Repost(s, id, content).value, s.docs[id].version;
      && ActiveChanges(s, id) != []
      && t.docs == s.docs[id := Document(content, s.docs[id].status, version + 1, Total(content.lines))]
      && t.log == CorrectedLog(s.log, id, version, ActiveChanges(s, id), RepostedChanges(s, id, content))
  {
  }

  lemma CancelWrites(s: Store, id: int)
    requires id in s.docs
    requires Cancel(s, id).Ok?
    ensures var t := Cancel(s, id).value;
      && ActiveChanges(s, id) != []
      && t.docs == s.docs[id := s.docs[id].(status := Cancelled)]
      && t.log == s.log + Stamped(Some(Origin(id, s.docs[id].version, Reverse)), Reversed(ActiveChanges(s, id)))
  {
  }

  // ------------------------------------------------------------ what the operations do to balances

  /** The changes of a plan, key by key: what it adds to the quantities it was given. */
  lemma PlanChanges(content: Content, quantities: map<Key, int>, k: Key)
    requires content.warehouse.Some?
    requires StockKeys(content) <= quantities.Keys
    ensures var r := PlanContent(content, quantities);
      r.Ok? ==>
        && Sum(r.value.changes, k) == (if k in quantities then r.value.quantities[k] - quantities[k] else 0)
        && (k in quantities ==> r.value.quantities[k] >= 0)
  {
    StockKeysCover(content, quantities);
    Planning.ChangesAccountForQuantities(content.docType, Source(content), Target(content), content.lines, quantities,
                                         k);
  }

  lemma {:induction false} UndoneQuantities(prior: seq<Change>, start: map<Key, int>, k: Key)
    requires Keys(prior) <= start.Keys
    requires k in start
    ensures var r := Undo(prior, start);
      r.Ok? ==> r.value[k] == start[k] - Sum(prior, k) && (k in Keys(prior) ==> r.value[k] >= 0)
  {
    if |prior| > 0 {
      var rest := prior[..|prior| - 1];
      assert prior[|prior| - 1].key in Keys(prior);
      KeysOfPrefix(prior);
      UndoneQuantities(rest, start, k);
    }
  }

  lemma KeysOfPrefix(prior: seq<Change>)
    requires |prior| > 0
    ensures Keys(prior) == Keys(prior[..|prior| - 1]) + {prior[|prior| - 1].key}
  {
    var rest := prior[..|prior| - 1];
    forall k | k in Keys(rest) ensures k in Keys(prior) {
      var i :| 0 <= i < |rest| && rest[i].key == k;
      assert prior[i].key == k;
    }
    forall k | k in Keys(prior) && k != prior[|prior| - 1].key ensures k in Keys(rest) {
      var i :| 0 <= i < |prior| && prior[i].key == k;
      assert rest[i].key == k;
    }
  }

  lemma PostMovesBalances(s: Store, id: int, k: Key)
    requires id in s.docs && Ready(s.docs[id].content)
    ensures var r := Post(s, id);
      r.Ok? ==>
        && Balance(r.value.balances, k) == Balance(s.balances, k) + Sum(PostedChanges(s, id), k)
        && (k in StockKeys(s.docs[id].content) ==> Balance(r.value.balances, k) >= 0)
  {
    PlanChanges(s.docs[id].content, Load(s.balances, StockKeys(s.docs[id].content)), k);
  }

  /** Correction in general: today's balances, less the old posting, plus the new plan. */
  lemma RepostMovesBalances(s: Store, id: int, content: Content, k: Key)
    requires id in s.docs && Ready(content)
    ensures var r := Repost(s, id, content);
      r.Ok? ==>
        && Balance(r.value.balances, k)
           == Balance(s.balances, k) - Sum(ActiveChanges(s, id), k) + Sum(RepostedChanges(s, id, content), k)
        && (k in Keys(ActiveChanges(s, id)) + StockKeys(content) ==> Balance(r.value.balances, k) >= 0)
  {
    var prior := ActiveChanges(s, id);
    if |prior| > 0 {
      PlanChanges(content, Baseline(Load(s.balances, Keys(prior) + StockKeys(content)), prior), k);
      if k !in Keys(prior) {
        SumElsewhere(prior, k);
      }
    }
  }

  lemma CancelMovesBalances(s: Store, id: int, k: Key)
    requires id in s.docs
    ensures var r := Cancel(s, id);
      r.Ok? ==>
        && Balance(r.value.balances, k) == Balance(s.balances, k) - Sum(ActiveChanges(s, id), k)
        && (k in Keys(ActiveChanges(s, id)) ==> Balance(r.value.balances, k) >= 0)
  {
    var prior := ActiveChanges(s, id);
    if k in Keys(prior) {
      UndoneQuantities(prior, Load(s.balances, Keys(prior)), k);
    } else {
      SumElsewhere(prior, k);
    }
  }

  // ------------------------------------------------------------ the balances are a cache of the log

  ghost predicate CacheExact(s: Store)
  {
    forall k: Key :: Balance(s.balances, k) == Net(s.log, k) && Balance(s.balances, k) >= 0
  }

  lemma NetOfAppended(log: seq<Movement>, after: seq<Movement>, origin: Option<Origin>, changes: seq<Change>, k: Key)
    requires after == log + Stamped(origin, changes)
    ensures Net(after, k) == Net(log, k) + Sum(changes, k)
  {
    NetAppend(log, origin, changes, k);
  }

  lemma PostMovesLog(s: Store, id: int, k: Key)
    requires id in s.docs && Ready(s.docs[id].content) && Post(s, id).Ok?
    ensures Net(Post(s, id).value.log, k) == Net(s.log, k) + Sum(PostedChanges(s, id), k)
  {
    PostWrites(s, id);
    NetOfAppended(s.log, Post(s, id).value.log, Some(Origin(id, s.docs[id].version + 1, Apply)), PostedChanges(s, id),
                  k);
  }

  lemma PostKeepsBalanceExact(s: Store, id: int, k: Key)
    requires id in s.docs && Ready(s.docs[id].content) && Post(s, id).Ok?
    requires Balance(s.balances, k) == Net(s.log, k) && Balance(s.balances, k) >= 0
    ensures var t := Post(s, id).value;
      Balance(t.balances, k) == Net(t.log, k) && Balance(t.balances, k) >= 0
  {
    PostMovesBalances(s, id, k);
    PostMovesLog(s, id, k);
    if k !in StockKeys(s.docs[id].content) {
      PlanChanges(s.docs[id].content, Load(s.balances, StockKeys(s.docs[id].content)), k);
    }
  }

  lemma PostKeepsCache(s: Store, id: int)
    requires id in s.docs && Ready(s.docs[id].content)
    requires CacheExact(s)
    ensures Post(s, id).Ok? ==> CacheExact(Post(s, id).value)
  {
    if Post(s, id).Ok? {
      var t := Post(s, id).value;
      forall k: Key ensures Balance(t.balances, k) == Net(t.log, k) && Balance(t.balances, k) >= 0 {
        PostKeepsBalanceExact(s, id, k);
      }
    }
  }

  lemma CorrectedInTurn(log: seq<Movement>, id: int, version: int, prior: seq<Change>, changes: seq<Change>)
    ensures CorrectedLog(log, id, version, prior, changes)
         == log + Stamped(Some(Origin(id, version, Reverse)), Reversed(prior))
            + Stamped(Some(Origin(id, version + 1, Apply)), changes)
  {
  }

  lemma CorrectedNet(log: seq<Movement>, id: int, version: int, prior: seq<Change>, changes: seq<Change>, k: Key)
    ensures Net(CorrectedLog(log, id, version, prior, changes), k) == Net(log, k) - Sum(prior, k) + Sum(changes, k)
  {
    var reversed := log + Stamped(Some(Origin(id, version, Reverse)), Reversed(prior));
    CorrectedInTurn(log, id, version, prior, changes);
    NetAppend(log, Some(Origin(id, version, Reverse)), Reversed(prior), k);
    SumReversed(prior, k);
    NetAppend(reversed, Some(Origin(id, version + 1, Apply)), changes, k);
  }

  /** The log moves with the balances: the reverse rows, then the new rows. */
  lemma RepostMovesLog(s: Store, id: int, content: Content, k: Key)
    requires id in s.docs && Ready(content)
    requires Repost(s, id, content).Ok?
    ensures Net(Repost(s, id, content).value.log, k)
         == Net(s.log, k) - Sum(ActiveChanges(s, id), k) + Sum(RepostedChanges(s, id, content), k)
  {
    RepostWrites(s, id, content);
    CorrectedNet(s.log, id, s.docs[id].version, ActiveChanges(s, id), RepostedChanges(s, id, content), k);
  }

  lemma RepostLeavesAlone(s: Store, id: int, content: Content, k: Key)
    requires id in s.docs && Ready(content)
    requires Repost(s, id, content).Ok?
    requires k !in Keys(ActiveChanges(s, id)) + StockKeys(content)
    ensures Balance(Repost(s, id, content).value.balances, k) == Balance(s.balances, k)
  {
  }

  lemma RepostKeepsCache(s: Store, id: int, content: Content)
    requires id in s.docs && Ready(content)
    requires CacheExact(s)
    ensures Repost(s, id, content).Ok? ==> CacheExact(Repost(s, id, content).value)
  {
    var r := Repost(s, id, content);
    if r.Ok? {
      forall k: Key ensures Balance(r.value.balances, k) == Net(r.value.log, k) && Balance(r.value.balances, k) >= 0 {
        assert Balance(s.balances, k) == Net(s.log, k) && Balance(s.balances, k) >= 0;
        RepostMovesBalances(s, id, content, k);
        RepostMovesLog(s, id, content, k);
        if k !in Keys(ActiveChanges(s, id)) + StockKeys(content) {
          RepostLeavesAlone(s, id, content, k);
        }
      }
    }
  }

  lemma CancelKeepsCache(s: Store, id: int)
    requires id in s.docs
    requires CacheExact(s)
    ensures Cancel(s, id).Ok? ==> CacheExact(Cancel(s, id).value)
  {
    var r := Cancel(s, id);
    if r.Ok? {
      var prior := ActiveChanges(s, id);
      forall k: Key ensures Balance(r.value.balances, k) == Net(r.value.log, k) && Balance(r.value.balances, k) >= 0 {
        CancelMovesBalances(s, id, k);
        if k !in Keys(prior) {
          SumElsewhere(prior, k);
        }
        NetAppend(s.log, Some(Origin(id, s.docs[id].version, Reverse)), Reversed(prior), k);
        SumReversed(prior, k);
      }
    }
  }
}
