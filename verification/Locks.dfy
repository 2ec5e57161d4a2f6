/**
 Concurrent postings: each transaction locks its document, then its stock keys in sorted order, one at
 a time, reads the balances, plans on what it read, and publishes absolute balances when it commits.
 Locks are held to the end. Uncommitted writes are seen by nobody else.
 */
module Locks {
  import opened Common
  import opened Stock
  import opened Documents
  import Versions
  import opened Sums

  datatype Request = Posting(id: int) | Reposting(id: int, content: Content) | Cancelling(id: int)

  // ------------------------------------------------------------ one transaction alone

  /** The request can be carried out on this document with these movements in force. */
  predicate Fits(r: Request, doc: Document, prior: seq<Change>)
  {
    match r
    case Posting(_) => doc.status == Draft && Ready(doc.content)
    case Reposting(_, content) => doc.status == Posted && Ready(content) && prior != []
    case Cancelling(_) => doc.status == Posted && prior != []
  }

  predicate Admits(s: Store, r: Request)
  {
    r.id in s.docs && Fits(r, s.docs[r.id], ActiveChanges(s, r.id))
  }

  /** The request executed alone. */
  function Perform(s: Store, r: Request): Result<Store>
  {
    if !Admits(s, r) then Err(Conflict) else
      match r
      case Posting(id) => Post(s, id)
      case Reposting(id, content) => Repost(s, id, content)
      case Cancelling(id) => Cancel(s, id)
  }

  function After(s: Store, r: Request): Store
  {
    var result := Perform(s, r);
    if result.Ok? then result.value else s
  }

  // ------------------------------------------------------------ one transaction on its own copies

  /** The stock keys a request has to lock. */
  function Wanted(r: Request, doc: Document, prior: seq<Change>): set<Key>
    requires Fits(r, doc, prior)
  {
    match r
    case Posting(_) => StockKeys(doc.content)
    case Reposting(_, content) => Keys(prior) + StockKeys(content)
    case Cancelling(_) => Keys(prior)
  }

  /** What a transaction is about to write. */
  datatype Writes = Writes(doc: Document, quantities: map<Key, int>, rows: seq<Movement>)

  function Outcome(r: Request, doc: Document, prior: seq<Change>, loaded: map<Key, int>): (w: Result<Writes>)
    requires Fits(r, doc, prior) && Wanted(r, doc, prior) <= loaded.Keys
    ensures w.Ok? ==> w.value.quantities.Keys == loaded.Keys
  {
    match r
    case Posting(id) =>
      var plan :- PlanContent(doc.content, loaded);
      Ok(Writes(doc.(status := Posted, version := doc.version + 1), plan.quantities,
                Stamped(Some(Origin(id, doc.version + 1, Apply)), plan.changes)))
    case Reposting(id, content) =>
      var plan :- PlanContent(content, Baseline(loaded, prior));
      Ok(Writes(Document(content, doc.status, doc.version + 1, Total(content.lines)), plan.quantities,
                Stamped(Some(Origin(id, doc.version, Reverse)), Reversed(prior))
                + Stamped(Some(Origin(id, doc.version + 1, Apply)), plan.changes)))
    case Cancelling(id) =>
      var quantities :- Undo(prior, loaded);
      Ok(Writes(doc.(status := Cancelled), quantities,
                Stamped(Some(Origin(id, doc.version, Reverse)), Reversed(prior))))
  }

  function Publish(s: Store, id: int, w: Writes): Store
  {
    Store(s.docs[id := w.doc], s.balances + w.quantities, s.log + w.rows)
  }

  /** What comes of a transaction: its writes published, or its refusal. */
  function Committed(s: Store, id: int, w: Result<Writes>): Result<Store>
  {
    if w.Err? then Err(w.fault) else Ok(Publish(s, id, w.value))
  }

  lemma PostingOutcome(s: Store, id: int)
    requires Admits(s, Posting(id))
    ensures var doc := s.docs[id];
      Post(s, id) == Committed(s, id,
        Outcome(Posting(id), doc, ActiveChanges(s, id), Load(s.balances, StockKeys(doc.content))))
  {
  }

  lemma RepostingOutcome(s: Store, id: int, content: Content)
    requires Admits(s, Reposting(id, content))
    ensures var prior := ActiveChanges(s, id);
      Repost(s, id, content) == Committed(s, id,
        Outcome(Reposting(id, content), s.docs[id], prior, Load(s.balances, Keys(prior) + StockKeys(content))))
  {
  }

  lemma CancellingOutcome(s: Store, id: int)
    requires Admits(s, Cancelling(id))
    ensures var prior := ActiveChanges(s, id);
      Cancel(s, id) == Committed(s, id, Outcome(Cancelling(id), s.docs[id], prior, Load(s.balances, Keys(prior))))
  {
  }

  /** On fresh copies the transaction answers and writes what it would have done alone. */
  lemma OutcomeIsPerform(s: Store, r: Request, loaded: map<Key, int>)
    requires Admits(s, r)
    requires loaded == Load(s.balances, Wanted(r, s.docs[r.id], ActiveChanges(s, r.id)))
    ensures var w := Outcome(r, s.docs[r.id], ActiveChanges(s, r.id), loaded);
      && (w.Ok? <==> Perform(s, r).Ok?)
      && (w.Ok? ==> Publish(s, r.id, w.value) == Perform(s, r).value)
  {
    match r
    case Posting(id) => PostingOutcome(s, id);
    case Reposting(id, content) => RepostingOutcome(s, id, content);
    case Cancelling(id) => CancellingOutcome(s, id);
  }

  lemma {:induction false} SelectOther(log: seq<Movement>, rows: seq<Movement>, o: Origin)
    requires forall i :: 0 <= i < |rows| ==> rows[i].origin != Some(o)
    ensures Select(log + rows, o) == Select(log, o)
    decreases |rows|
  {
    if |rows| == 0 {
      assert log + rows == log;
    } else {
      assert (log + rows)[..|log + rows| - 1] == log + rows[..|rows| - 1];
      SelectOther(log, rows[..|rows| - 1], o);
    }
  }

  lemma OutcomeRows(r: Request, doc: Document, prior: seq<Change>, loaded: map<Key, int>)
    requires Fits(r, doc, prior) && Wanted(r, doc, prior) <= loaded.Keys
    requires Outcome(r, doc, prior, loaded).Ok?
    ensures var rows := Outcome(r, doc, prior, loaded).value.rows;
      forall i :: 0 <= i < |rows| ==> rows[i].origin.Some? && rows[i].origin.value.doc == r.id
  {
  }

  /** Publishing leaves every other document, its movements and every unlocked balance alone. */
  lemma PublishLeavesOthers(s: Store, id: int, w: Writes, other: int)
    requires forall i :: 0 <= i < |w.rows| ==> w.rows[i].origin.Some? && w.rows[i].origin.value.doc == id
    requires other != id && other in s.docs
    ensures Publish(s, id, w).docs[other] == s.docs[other]
    ensures ActiveChanges(Publish(s, id, w), other) == ActiveChanges(s, other)
    ensures forall k: Key :: k !in w.quantities ==> Balance(Publish(s, id, w).balances, k) == Balance(s.balances, k)
  {
    SelectOther(s.log, w.rows, Origin(other, s.docs[other].version, Apply));
  }

  // ------------------------------------------------------------ the order of the keys

  predicate Below(a: Key, b: Key)
  {
    a.product < b.product || (a.product == b.product && a.warehouse < b.warehouse)
  }

  predicate Increasing(keys: seq<Key>)
  {
    forall i, j :: 0 <= i < j < |keys| ==> Below(keys[i], keys[j])
  }

  predicate Tops(top: Key, keys: set<Key>)
  {
    top in keys && forall k :: k in keys && k != top ==> Below(k, top)
  }

  lemma {:induction false} GreatestExists(keys: set<Key>)
    requires keys != {}
    ensures exists top :: Tops(top, keys)
    decreases |keys|
  {
    var one :| one in keys;
    if keys == {one} {
      assert Tops(one, keys);
    } else {
      assert keys - {one} != {};
      GreatestExists(keys - {one});
      var rest :| Tops(rest, keys - {one});
      if Below(rest, one) {
        forall k | k in keys && k != one ensures Below(k, one) {
          assert k in keys - {one};
        }
        assert Tops(one, keys);
      } else {
        assert one == Key(one.product, one.warehouse) && rest == Key(rest.product, rest.warehouse);
        assert Tops(rest, keys);
      }
    }
  }

  ghost function Greatest(keys: set<Key>): (top: Key)
    requires keys != {}
    ensures Tops(top, keys)
  {
    GreatestExists(keys);
    var top :| Tops(top, keys);
    top
  }

  /** The keys in the order they are locked. */
  ghost function Sorted(keys: set<Key>): (r: seq<Key>)
    ensures Increasing(r)
    ensures forall k :: k in r <==> k in keys
    decreases |keys|
  {
    if keys == {} then [] else
      var top := Greatest(keys);
      Sorted(keys - {top}) + [top]
  }

  // ------------------------------------------------------------ the machine

  /** A transaction, with the copies it has read so far. */
  datatype Txn =
    | Waiting(req: Request)
    | Working(req: Request, doc: Document, prior: seq<Change>, wanted: seq<Key>, taken: nat, loaded: map<Key, int>)
    | Finished

  /** The answer a transaction was given, in the order the answers were given. */
  datatype Answer = Answer(req: Request, granted: bool)

  datatype State = State(store: Store, txns: map<int, Txn>, history: seq<Answer>)

  datatype Action =
    | Begin(t: int, req: Request)
    | LockDocument(t: int)
    | LockKey(t: int)
    | ReadBalance(t: int, key: Key)
    | Finish(t: int)
    | Abort(t: int)

  /** A document lock is held from when it is taken until the transaction ends. */
  predicate HoldsDocument(txn: Txn, doc: int)
  {
    txn.Working? && txn.req.id == doc
  }

  /** The stock keys locked so far are the first ones of the sorted list. */
  predicate HoldsKey(txn: Txn, k: Key)
  {
    txn.Working? && exists i :: 0 <= i < |txn.wanted| && i < txn.taken && txn.wanted[i] == k
  }

  predicate DocumentFree(s: State, doc: int)
  {
    forall t :: t in s.txns ==> !HoldsDocument(s.txns[t], doc)
  }

  predicate KeyFree(s: State, k: Key)
  {
    forall t :: t in s.txns ==> !HoldsKey(s.txns[t], k)
  }

  /** Everything a transaction wanted to read, it has read. */
  predicate HasAll(txn: Txn)
  {
    && txn.Working?
    && txn.taken == |txn.wanted|
    && Fits(txn.req, txn.doc, txn.prior)
    && Wanted(txn.req, txn.doc, txn.prior) == txn.loaded.Keys
  }

  predicate Enabled(s: State, a: Action)
  {
    if a.Begin? then a.t !in s.txns else
      a.t in s.txns &&
      var txn := s.txns[a.t];
      match a
      case Begin(_, _) => false
      case LockDocument(_) => txn.Waiting? && DocumentFree(s, txn.req.id)
      case LockKey(_) => txn.Working? && txn.taken < |txn.wanted| && KeyFree(s, txn.wanted[txn.taken])
      case ReadBalance(_, key) =>
        txn.Working? && txn.taken == |txn.wanted| && key in txn.wanted && key !in txn.loaded
      case Finish(_) => HasAll(txn)
      case Abort(_) => !txn.Finished?
  }

  /** The copies a transaction takes once it holds its document. */
  ghost function Opened(store: Store, r: Request): Txn
    requires Admits(store, r)
  {
    var doc, prior := store.docs[r.id], ActiveChanges(store, r.id);
    Working(r, doc, prior, Sorted(Wanted(r, doc, prior)), 0, map[])
  }

  /** The transaction ends: its writes are published, or it is refused; its locks go with it. */
  function Ended(s: State, t: int): State
    requires t in s.txns && HasAll(s.txns[t])
  {
    var txn := s.txns[t];
    var w := Outcome(txn.req, txn.doc, txn.prior, txn.loaded);
    State(if w.Ok? then Publish(s.store, txn.req.id, w.value) else s.store,
          s.txns[t := Finished],
          s.history + [Answer(txn.req, w.Ok?)])
  }

  ghost function Take(s: State, a: Action): State
    requires Enabled(s, a)
  {
    match a
    case Begin(t, req) => s.(txns := s.txns[t := Waiting(req)])
    case LockDocument(t) =>
      var req := s.txns[t].req;
      if Admits(s.store, req) then s.(txns := s.txns[t := Opened(s.store, req)])
      else s.(txns := s.txns[t := Finished], history := s.history + [Answer(req, false)])
    case LockKey(t) => s.(txns := s.txns[t := s.txns[t].(taken := s.txns[t].taken + 1)])
    case ReadBalance(t, key) =>
      s.(txns := s.txns[t := s.txns[t].(loaded := s.txns[t].loaded[key := Balance(s.store.balances, key)])])
    case Finish(t) => Ended(s, t)
    case Abort(t) => s.(txns := s.txns[t := Finished])
  }

  /** Any interleaving; an action that is not possible is not taken. */
  ghost function Interleaved(start: Store, actions: seq<Action>): State
  {
    if |actions| == 0 then State(start, map[], []) else
      var before := Interleaved(start, actions[..|actions| - 1]);
      var a := actions[|actions| - 1];
      if Enabled(before, a) then Take(before, a) else before
  }

  // ------------------------------------------------------------ the serial execution

  /** The answered requests one after another, each alone. */
  function Serial(start: Store, history: seq<Answer>): Store
  {
    if |history| == 0 then start else
      After(Serial(start, history[..|history| - 1]), history[|history| - 1].req)
  }

  /** The serial execution gives every request the same answer. */
  predicate SameAnswers(start: Store, history: seq<Answer>)
  {
    |history| > 0 ==>
      var last := history[|history| - 1];
      SameAnswers(start, history[..|history| - 1])
      && last.granted == Perform(Serial(start, history[..|history| - 1]), last.req).Ok?
  }

  // ------------------------------------------------------------ the invariant

  /** A working transaction's copies are still what the database says. */
  ghost predicate Fresh(store: Store, txn: Txn)
  {
    txn.Working? ==>
      && Admits(store, txn.req)
      && txn.doc == store.docs[txn.req.id]
      && txn.prior == ActiveChanges(store, txn.req.id)
      && txn.wanted == Sorted(Wanted(txn.req, txn.doc, txn.prior))
      && txn.taken <= |txn.wanted|
      && (txn.loaded != map[] ==> txn.taken == |txn.wanted|)
      && (forall k :: k in txn.loaded ==> k in txn.wanted && txn.loaded[k] == Balance(store.balances, k))
  }

  /** No two transactions hold the same document or the same key. */
  ghost predicate Apart(a: Txn, b: Txn)
  {
    a.Working? && b.Working? ==> a.req.id != b.req.id && forall k: Key :: !(HoldsKey(a, k) && HoldsKey(b, k))
  }

  ghost predicate Good(start: Store, s: State)
  {
    && (forall t :: t in s.txns ==> Fresh(s.store, s.txns[t]))
    && (forall t, u :: t in s.txns && u in s.txns && t != u ==> Apart(s.txns[t], s.txns[u]))
    && s.store == Serial(start, s.history)
    && SameAnswers(start, s.history)
  }

  /** In the place of transaction t this one would be apart from all others. */
  ghost predicate ApartFromOthers(s: State, t: int, txn: Txn)
  {
    forall u :: u in s.txns && u != t ==> Apart(txn, s.txns[u])
  }

  /** A step that only changes one transaction. */
  lemma OneTxnKeeps(start: Store, s: State, t: int, txn: Txn)
    requires Good(start, s)
    requires Fresh(s.store, txn)
    requires ApartFromOthers(s, t, txn)
    ensures Good(start, s.(txns := s.txns[t := txn]))
  {
  }

  lemma AnsweredSerially(start: Store, history: seq<Answer>, answer: Answer)
    requires SameAnswers(start, history)
    requires answer.granted == Perform(Serial(start, history), answer.req).Ok?
    ensures SameAnswers(start, history + [answer])
    ensures Serial(start, history + [answer]) == After(Serial(start, history), answer.req)
  {
    assert (history + [answer])[..|history|] == history;
  }

  lemma LockDocumentKeeps(start: Store, s: State, t: int)
    requires Good(start, s) && Enabled(s, LockDocument(t))
    ensures Good(start, Take(s, LockDocument(t)))
  {
    var req := s.txns[t].req;
    if Admits(s.store, req) {
      forall u | u in s.txns && u != t ensures Apart(Opened(s.store, req), s.txns[u]) {
        assert !HoldsDocument(s.txns[u], req.id);
      }
      OneTxnKeeps(start, s, t, Opened(s.store, req));
    } else {
      OneTxnKeeps(start, s, t, Finished);
      AnsweredSerially(start, s.history, Answer(req, false));
    }
  }

  /** A key nobody holds can be taken without touching what another transaction holds. */
  lemma NextKeyIsApart(txn: Txn, other: Txn)
    requires txn.Working? && txn.taken < |txn.wanted|
    requires Apart(txn, other)
    requires other.Working? ==> !HoldsKey(other, txn.wanted[txn.taken])
    ensures Apart(txn.(taken := txn.taken + 1), other)
  {
    var next := txn.(taken := txn.taken + 1);
    forall k: Key | HoldsKey(next, k) && other.Working? ensures !HoldsKey(other, k) {
      if k != txn.wanted[txn.taken] {
        var i :| 0 <= i < |next.wanted| && i < next.taken && next.wanted[i] == k;
        assert HoldsKey(txn, k);
      }
    }
  }

  lemma NextKeyIsFresh(store: Store, txn: Txn)
    requires Fresh(store, txn) && txn.Working? && txn.taken < |txn.wanted|
    ensures Fresh(store, txn.(taken := txn.taken + 1))
  {
  }

  lemma TakingKeyKeeps(start: Store, s: State, t: int, txn: Txn, after: State)
    requires Good(start, s) && t in s.txns && txn == s.txns[t]
    requires txn.Working? && txn.taken < |txn.wanted| && KeyFree(s, txn.wanted[txn.taken])
    requires after == s.(txns := s.txns[t := txn.(taken := txn.taken + 1)])
    ensures Good(start, after)
  {
    var next := txn.(taken := txn.taken + 1);
    NextKeyIsFresh(s.store, txn);
    forall u | u in s.txns && u != t ensures Apart(next, s.txns[u]) {
      assert Apart(txn, s.txns[u]);
      NextKeyIsApart(txn, s.txns[u]);
    }
    OneTxnKeeps(start, s, t, next);
  }

  lemma LockedNextKey(s: State, t: int)
    requires Enabled(s, LockKey(t))
    ensures t in s.txns && s.txns[t].Working? && s.txns[t].taken < |s.txns[t].wanted|
    ensures KeyFree(s, s.txns[t].wanted[s.txns[t].taken])
    ensures Take(s, LockKey(t)) == s.(txns := s.txns[t := s.txns[t].(taken := s.txns[t].taken + 1)])
  {
  }

  lemma LockKeyKeeps(start: Store, s: State, t: int)
    requires Good(start, s) && Enabled(s, LockKey(t))
    ensures Good(start, Take(s, LockKey(t)))
  {
    LockedNextKey(s, t);
    TakingKeyKeeps(start, s, t, s.txns[t], Take(s, LockKey(t)));
  }

  lemma ReadBalanceKeeps(start: Store, s: State, t: int, key: Key)
    requires Good(start, s) && Enabled(s, ReadBalance(t, key))
    ensures Good(start, Take(s, ReadBalance(t, key)))
  {
    var txn := s.txns[t];
    var next := txn.(loaded := txn.loaded[key := Balance(s.store.balances, key)]);
    assert Fresh(s.store, txn);
    forall u | u in s.txns && u != t ensures Apart(next, s.txns[u]) {
      assert Apart(txn, s.txns[u]);
      forall k: Key | HoldsKey(next, k) ensures HoldsKey(txn, k) {
        var i :| 0 <= i < |next.wanted| && i < next.taken && next.wanted[i] == k;
      }
    }
    OneTxnKeeps(start, s, t, next);
  }

  /** What one transaction publishes is out of sight of every other: it is on keys and a document it holds alone. */
  lemma OthersStayFresh(store: Store, txn: Txn, other: Txn)
    requires Fresh(store, txn) && Fresh(store, other) && Apart(txn, other)
    requires HasAll(txn)
    requires Outcome(txn.req, txn.doc, txn.prior, txn.loaded).Ok?
    ensures Fresh(Publish(store, txn.req.id, Outcome(txn.req, txn.doc, txn.prior, txn.loaded).value), other)
  {
    if other.Working? {
      var w := Outcome(txn.req, txn.doc, txn.prior, txn.loaded).value;
      OutcomeRows(txn.req, txn.doc, txn.prior, txn.loaded);
      PublishLeavesOthers(store, txn.req.id, w, other.req.id);
      forall k | k in other.loaded ensures k !in w.quantities {
        if k in w.quantities {
          BothHold(txn, other, k);
        }
      }
    }
  }

  lemma BothHold(txn: Txn, other: Txn, k: Key)
    requires txn.Working? && other.Working?
    requires k in txn.wanted && txn.taken == |txn.wanted|
    requires k in other.wanted && other.taken == |other.wanted|
    ensures HoldsKey(txn, k) && HoldsKey(other, k)
  {
  }

  lemma EndingKeeps(start: Store, s: State, t: int)
    requires Good(start, s) && t in s.txns && HasAll(s.txns[t])
    ensures Good(start, Ended(s, t))
  {
    var txn := s.txns[t];
    var next := Ended(s, t);
    assert Fresh(s.store, txn);
    assert txn.loaded == Load(s.store.balances, Wanted(txn.req, txn.doc, txn.prior));
    OutcomeIsPerform(s.store, txn.req, txn.loaded);
    AnsweredSerially(start, s.history, next.history[|s.history|]);
    forall u | u in next.txns ensures Fresh(next.store, next.txns[u]) {
      if u != t {
        assert Fresh(s.store, s.txns[u]) && Apart(txn, s.txns[u]);
        if Outcome(txn.req, txn.doc, txn.prior, txn.loaded).Ok? {
          OthersStayFresh(s.store, txn, s.txns[u]);
        }
      }
    }
  }

  lemma FinishKeeps(start: Store, s: State, t: int)
    requires Good(start, s) && Enabled(s, Finish(t))
    ensures Good(start, Take(s, Finish(t)))
  {
    EndingKeeps(start, s, t);
    assert Take(s, Finish(t)) == Ended(s, t);
  }

  lemma ActionKeeps(start: Store, s: State, a: Action)
    requires Good(start, s) && Enabled(s, a)
    ensures Good(start, Take(s, a))
  {
    match a
    case Begin(t, req) => OneTxnKeeps(start, s, t, Waiting(req));
    case LockDocument(t) => LockDocumentKeeps(start, s, t);
    case LockKey(t) => LockKeyKeeps(start, s, t);
    case ReadBalance(t, key) => ReadBalanceKeeps(start, s, t, key);
    case Finish(t) => FinishKeeps(start, s, t);
    case Abort(t) => OneTxnKeeps(start, s, t, Finished);
  }

  lemma {:induction false} InterleavedIsGood(start: Store, actions: seq<Action>)
    ensures Good(start, Interleaved(start, actions))
  {
    if |actions| > 0 {
      InterleavedIsGood(start, actions[..|actions| - 1]);
      var before := Interleaved(start, actions[..|actions| - 1]);
      if Enabled(before, actions[|actions| - 1]) {
        ActionKeeps(start, before, actions[|actions| - 1]);
      }
    }
  }

  /**
   Serial equivalence: whatever the interleaving and whoever aborts, the committed documents, balances
   and movements are those of running the answered requests one at a time in the order they ended, and
   each got the answer it gets there. No absolute write loses another's.
   */
  lemma SerialEquivalence(start: Store, actions: seq<Action>)
    ensures var s := Interleaved(start, actions);
      s.store == Serial(start, s.history) && SameAnswers(start, s.history)
  {
    InterleavedIsGood(start, actions);
  }

  lemma PerformKeeps(s: Store, r: Request)
    requires CacheExact(s) && Versions.Versioned(s)
    ensures CacheExact(After(s, r)) && Versions.Versioned(After(s, r))
  {
    if Perform(s, r).Ok? {
      match r
      case Posting(id) =>
        PostKeepsCache(s, id);
        Versions.PostKeepsVersions(s, id);
      case Reposting(id, content) =>
        RepostKeepsCache(s, id, content);
        Versions.RepostKeepsVersions(s, id, content);
      case Cancelling(id) =>
        CancelKeepsCache(s, id);
        Versions.CancelKeepsVersions(s, id);
    }
  }

  lemma {:induction false} SerialKeeps(start: Store, history: seq<Answer>)
    requires CacheExact(start) && Versions.Versioned(start)
    ensures CacheExact(Serial(start, history)) && Versions.Versioned(Serial(start, history))
  {
    if |history| > 0 {
      SerialKeeps(start, history[..|history| - 1]);
      PerformKeeps(Serial(start, history[..|history| - 1]), history[|history| - 1].req);
    }
  }

  /** So under any interleaving the balances stay the sums of the log, and the versions stay settled. */
  lemma InterleavingKeepsBooks(start: Store, actions: seq<Action>)
    requires CacheExact(start) && Versions.Versioned(start)
    ensures CacheExact(Interleaved(start, actions).store) && Versions.Versioned(Interleaved(start, actions).store)
  {
    SerialEquivalence(start, actions);
    SerialKeeps(start, Interleaved(start, actions).history);
  }

  // ------------------------------------------------------------ no deadlock

  /** A transaction still short of keys. */
  predicate Short(txn: Txn)
  {
    txn.Working? && txn.taken < |txn.wanted|
  }

  /** The key each such transaction asks for next. */
  function NextKeys(s: State): set<Key>
  {
    set t | t in s.txns && Short(s.txns[t]) :: s.txns[t].wanted[s.txns[t].taken]
  }

  /** Whoever holds a key asks for a greater one next, so nobody holds the greatest key asked for. */
  lemma GreatestNextIsFree(start: Store, s: State, top: Key)
    requires Good(start, s)
    requires forall t :: t in s.txns && s.txns[t].Working? ==> Short(s.txns[t])
    requires Tops(top, NextKeys(s))
    ensures KeyFree(s, top)
  {
    forall u | u in s.txns && s.txns[u].Working? ensures !HoldsKey(s.txns[u], top) {
      var txn := s.txns[u];
      assert Fresh(s.store, txn) && Short(txn);
      var next := txn.wanted[txn.taken];
      assert next in NextKeys(s);
      forall i | 0 <= i < txn.taken ensures txn.wanted[i] != top {
        assert Below(txn.wanted[i], next);
      }
    }
  }

  /** A transaction with all its keys reads on, or ends. */
  lemma FullTxnMoves(start: Store, s: State, t: int) returns (a: Action)
    requires Good(start, s)
    requires t in s.txns && s.txns[t].Working? && !Short(s.txns[t])
    ensures Enabled(s, a) && (a.ReadBalance? || a.Finish?)
  {
    var txn := s.txns[t];
    assert Fresh(s.store, txn);
    if key :| key in txn.wanted && key !in txn.loaded {
      a := ReadBalance(t, key);
    } else {
      assert Wanted(txn.req, txn.doc, txn.prior) == txn.loaded.Keys;
      a := Finish(t);
    }
  }

  /**
   Deadlock freedom: as long as a transaction is unfinished some transaction can move on, without anyone
   giving up and without anyone new.
   */
  lemma SomeoneCanMove(start: Store, s: State, waiting: int) returns (a: Action)
    requires Good(start, s)
    requires waiting in s.txns && !s.txns[waiting].Finished?
    ensures Enabled(s, a) && !a.Begin? && !a.Abort?
  {
    if t :| t in s.txns && s.txns[t].Working? && !Short(s.txns[t]) {
      a := FullTxnMoves(start, s, t);
    } else if t :| t in s.txns && Short(s.txns[t]) {
      assert s.txns[t].wanted[s.txns[t].taken] in NextKeys(s);
      var top := Greatest(NextKeys(s));
      GreatestNextIsFree(start, s, top);
      var u :| u in s.txns && Short(s.txns[u]) && s.txns[u].wanted[s.txns[u].taken] == top;
      a := LockKey(u);
    } else {
      a := LockDocument(waiting);
    }
  }

  // ------------------------------------------------------------ no endless run either

  function WaitRow(): (int, Txn) -> int
  {
    (t: int, txn: Txn) => if txn.Waiting? then 1 else 0
  }

  function KeysOf(keys: seq<Key>): set<Key>
  {
    set i | 0 <= i < |keys| :: keys[i]
  }

  function WorkLeft(txn: Txn): nat
  {
    if txn.Working? then 1 + (if txn.taken < |txn.wanted| then |txn.wanted| - txn.taken else 0)
                           + |KeysOf(txn.wanted) - txn.loaded.Keys|
    else 0
  }

  function WorkRow(): (int, Txn) -> int
  {
    (t: int, txn: Txn) => WorkLeft(txn)
  }

  ghost function Waits(s: State): nat
  {
    MapSumNonneg(s.txns, WaitRow());
    MapSum(s.txns, WaitRow())
  }

  ghost function Work(s: State): nat
  {
    MapSumNonneg(s.txns, WorkRow());
    MapSum(s.txns, WorkRow())
  }

  lemma ReadingShrinks(wanted: seq<Key>, loaded: map<Key, int>, key: Key, quantity: int)
    requires key in wanted && key !in loaded
    ensures |KeysOf(wanted) - loaded[key := quantity].Keys| < |KeysOf(wanted) - loaded.Keys|
  {
    assert key in KeysOf(wanted);
    assert KeysOf(wanted) - loaded[key := quantity].Keys == KeysOf(wanted) - loaded.Keys - {key};
  }

  /** The transaction that moves stops waiting, or has less to do. */
  lemma MoverShrinks(s: State, a: Action)
    requires Enabled(s, a) && !a.Begin?
    ensures a.t in Take(s, a).txns
    ensures var now, next := s.txns[a.t], Take(s, a).txns[a.t];
      !next.Waiting? && (now.Waiting? || WorkLeft(next) < WorkLeft(now))
  {
    if a.ReadBalance? {
      ReadingShrinks(s.txns[a.t].wanted, s.txns[a.t].loaded, a.key, Balance(s.store.balances, a.key));
    }
  }

  /** Every move of a transaction leaves fewer waiting, or as many and less work: without newcomers all of them end. */
  lemma EveryMoveShrinks(s: State, a: Action)
    requires Enabled(s, a) && !a.Begin?
    ensures Waits(Take(s, a)) < Waits(s) || (Waits(Take(s, a)) == Waits(s) && Work(Take(s, a)) < Work(s))
  {
    MoverShrinks(s, a);
    OneTxnMoves(s, a);
    var next := Take(s, a).txns[a.t];
    MapSumUpdate(s.txns, a.t, next, WaitRow());
    MapSumUpdate(s.txns, a.t, next, WorkRow());
  }

  lemma OneTxnMoves(s: State, a: Action)
    requires Enabled(s, a) && !a.Begin?
    ensures a.t in s.txns && a.t in Take(s, a).txns
    ensures Take(s, a).txns == s.txns[a.t := Take(s, a).txns[a.t]]
  {
  }

  /** What a list of actions, taken one after another where possible, makes of a state. */
  ghost function Taken(s: State, actions: seq<Action>): State
    decreases |actions|
  {
    if |actions| == 0 then s else
      Taken(if Enabled(s, actions[0]) then Take(s, actions[0]) else s, actions[1..])
  }

  /** These actions bring everybody to an end, without newcomers and without anyone giving up. */
  ghost predicate Ends(s: State, actions: seq<Action>)
  {
    && (forall i :: 0 <= i < |actions| ==> !actions[i].Begin? && !actions[i].Abort?)
    && (forall t :: t in Taken(s, actions).txns ==> Taken(s, actions).txns[t].Finished?)
  }

  lemma EndsAfterMove(s: State, a: Action, rest: seq<Action>)
    requires Enabled(s, a) && !a.Begin? && !a.Abort?
    requires Ends(Take(s, a), rest)
    ensures Ends(s, [a] + rest)
  {
    assert ([a] + rest)[1..] == rest;
  }

  /** From every good state there is a way on in which nobody gives up and everybody ends. */
  lemma {:induction false} EveryoneCanFinish(start: Store, s: State) returns (actions: seq<Action>)
    requires Good(start, s)
    ensures Ends(s, actions)
    decreases Waits(s), Work(s)
  {
    if t :| t in s.txns && !s.txns[t].Finished? {
      var a := SomeoneCanMove(start, s, t);
      ActionKeeps(start, s, a);
      EveryMoveShrinks(s, a);
      var rest := EveryoneCanFinish(start, Take(s, a));
      EndsAfterMove(s, a, rest);
      actions := [a] + rest;
    } else {
      actions := [];
    }
  }

  lemma {:induction false} TakenContinues(start: Store, actions: seq<Action>, more: seq<Action>)
    ensures Interleaved(start, actions + more) == Taken(Interleaved(start, actions), more)
    decreases |more|
  {
    if |more| == 0 {
      assert actions + more == actions;
    } else {
      assert actions + more == (actions + [more[0]]) + more[1..];
      assert (actions + [more[0]])[..|actions|] == actions;
      TakenContinues(start, actions + [more[0]], more[1..]);
    }
  }

  /** Whatever was interleaved so far, while a transaction is unfinished some transaction can move on. */
  lemma InterleavingNeverStops(start: Store, actions: seq<Action>, waiting: int) returns (a: Action)
    requires var s := Interleaved(start, actions);
      waiting in s.txns && !s.txns[waiting].Finished?
    ensures Enabled(Interleaved(start, actions), a) && !a.Begin? && !a.Abort?
  {
    InterleavedIsGood(start, actions);
    a := SomeoneCanMove(start, Interleaved(start, actions), waiting);
  }

  /** Every interleaving can be continued, without newcomers and without anyone giving up, until all have ended. */
  lemma InterleavingCanFinish(start: Store, actions: seq<Action>) returns (more: seq<Action>)
    ensures forall i :: 0 <= i < |more| ==> !more[i].Begin? && !more[i].Abort?
    ensures var s := Interleaved(start, actions + more);
      forall t :: t in s.txns ==> s.txns[t].Finished?
  {
    InterleavedIsGood(start, actions);
    more := EveryoneCanFinish(start, Interleaved(start, actions));
    TakenContinues(start, actions, more);
  }
}
