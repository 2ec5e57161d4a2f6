/** The versioned movement log: what each version applied, what took it back, and what a document nets to. */
module Versions {
  import opened Common
  import opened Stock
  import opened Documents

  function Applied(log: seq<Movement>, doc: int, version: int): seq<Change>
  {
    Select(log, Origin(doc, version, Apply))
  }

  function TakenBack(log: seq<Movement>, doc: int, version: int): seq<Change>
  {
    Select(log, Origin(doc, version, Reverse))
  }

  /** Movements only exist for known postings of known documents. */
  ghost predicate Accounted(s: Store)
  {
    forall o: Origin :: Select(s.log, o) != [] ==> o.doc in s.docs && 1 <= o.version <= s.docs[o.doc].version
  }

  /** A version that is no longer in force was taken back exactly, row for row; the one in force was not. */
  ghost predicate Settled(s: Store, doc: int, version: int)
    requires doc in s.docs
  {
    && Applied(s.log, doc, version) != []
    && TakenBack(s.log, doc, version)
       == if version == s.docs[doc].version && s.docs[doc].status == Posted then []
          else Reversed(Applied(s.log, doc, version))
  }

  ghost predicate Versioned(s: Store)
  {
    && Accounted(s)
    && (forall d :: d in s.docs && s.docs[d].status == Draft ==> s.docs[d].version == 0)
    && (forall d, v :: d in s.docs && 1 <= v <= s.docs[d].version ==> Settled(s, d, v))
  }

  lemma {:induction false} PlanIsNotEmpty(docType: DocType, src: int, dst: int, lines: seq<Line>, start: map<Key, int>)
    requires Covers(start, docType, src, dst, lines)
    ensures var r := PlanLines(docType, src, dst, lines, start);
      r.Ok? ==> |r.value.changes| >= |lines|
  {
    if |lines| > 0 {
      PlanIsNotEmpty(docType, src, dst, lines[..|lines| - 1], start);
    }
  }

  lemma ContentPlanIsNotEmpty(content: Content, quantities: map<Key, int>)
    requires Ready(content)
    requires StockKeys(content) <= quantities.Keys
    ensures var r := PlanContent(content, quantities);
      r.Ok? ==> r.value.changes != []
  {
    StockKeysCover(content, quantities);
    PlanIsNotEmpty(content.docType, Source(content), Target(content), content.lines, quantities);
  }

  /** A correction takes back something and applies something. */
  lemma RepostShape(s: Store, id: int, content: Content)
    requires id in s.docs && Ready(content)
    requires Repost(s, id, content).Ok?
    ensures var t, version := Repost(s, id, content).value, s.docs[id].version;
      && t.docs == s.docs[id := Document(content, s.docs[id].status, version + 1, Total(content.lines))]
      && t.log == CorrectedLog(s.log, id, version, ActiveChanges(s, id), RepostedChanges(s, id, content))
    ensures ActiveChanges(s, id) != [] && RepostedChanges(s, id, content) != []
  {
    RepostWrites(s, id, content);
    RepostedChangesNotEmpty(s, id, content);
  }

  lemma RepostedChangesNotEmpty(s: Store, id: int, content: Content)
    requires id in s.docs && Ready(content)
    requires Repost(s, id, content).Ok?
    ensures RepostedChanges(s, id, content) != []
  {
    var prior := ActiveChanges(s, id);
    ContentPlanIsNotEmpty(content, Baseline(Load(s.balances, Keys(prior) + StockKeys(content)), prior));
  }

  lemma PostedChangesNotEmpty(s: Store, id: int)
    requires id in s.docs && Ready(s.docs[id].content)
    requires Post(s, id).Ok?
    ensures PostedChanges(s, id) != []
  {
    ContentPlanIsNotEmpty(s.docs[id].content, Load(s.balances, StockKeys(s.docs[id].content)));
  }

  /** Every step of a document's life writes its log rows in one of these two ways. */
  lemma AppendedRows(log: seq<Movement>, origin: Origin, changes: seq<Change>)
    ensures forall o: Origin ::
      Select(log + Stamped(Some(origin), changes), o) == Select(log, o) + (if o == origin then changes else [])
  {
    forall o: Origin
      ensures Select(log + Stamped(Some(origin), changes), o) == Select(log, o) + (if o == origin then changes else [])
    {
      SelectAppend(log, Some(origin), changes, o);
    }
  }

  /** A step that touches one document only has that document left to account for. */
  lemma OtherDocumentsKeep(s: Store, t: Store, id: int)
    requires Versioned(s)
    requires id in t.docs && t.docs.Keys == s.docs.Keys + {id}
    requires forall d :: d in s.docs && d != id ==> t.docs[d] == s.docs[d]
    requires forall o: Origin :: o.doc != id ==> Select(t.log, o) == Select(s.log, o)
    requires forall o: Origin :: o.doc == id && Select(t.log, o) != [] ==> 1 <= o.version <= t.docs[id].version
    requires t.docs[id].status == Draft ==> t.docs[id].version == 0
    requires forall v :: 1 <= v <= t.docs[id].version ==> Settled(t, id, v)
    ensures Versioned(t)
  {
    forall d, v | d in t.docs && 1 <= v <= t.docs[d].version ensures Settled(t, d, v) {
      if d != id {
        assert Settled(s, d, v);
      }
    }
  }

  lemma PostKeepsVersions(s: Store, id: int)
    requires id in s.docs && Ready(s.docs[id].content) && s.docs[id].status == Draft
    requires Versioned(s)
    ensures Post(s, id).Ok? ==> Versioned(Post(s, id).value)
  {
    if Post(s, id).Ok? {
      PostWrites(s, id);
      PostedChangesNotEmpty(s, id);
      FirstPostingSettles(s, Post(s, id).value, id, PostedChanges(s, id));
    }
  }

  /** Rows appended for a first posting of a draft. */
  lemma FirstPostingSettles(s: Store, t: Store, id: int, changes: seq<Change>)
    requires Versioned(s)
    requires id in s.docs && s.docs[id].status == Draft && changes != []
    requires t.docs == s.docs[id := s.docs[id].(status := Posted, version := 1)]
    requires t.log == s.log + Stamped(Some(Origin(id, 1, Apply)), changes)
    ensures Versioned(t)
  {
    AppendedRows(s.log, Origin(id, 1, Apply), changes);
    assert Select(s.log, Origin(id, 1, Apply)) == [];
    assert Select(s.log, Origin(id, 1, Reverse)) == [];
    assert Settled(t, id, 1);
    OtherDocumentsKeep(s, t, id);
  }

  lemma CancelKeepsVersions(s: Store, id: int)
    requires id in s.docs && s.docs[id].status == Posted
    requires Versioned(s)
    ensures Cancel(s, id).Ok? ==> Versioned(Cancel(s, id).value)
  {
    if Cancel(s, id).Ok? {
      CancelWrites(s, id);
      CancellationSettles(s, Cancel(s, id).value, id);
    }
  }

  /** What the reversed rows of one version add to the rows of any. */
  lemma ReversedRows(log: seq<Movement>, t: seq<Movement>, id: int, version: int, prior: seq<Change>, v: int)
    requires t == log + Stamped(Some(Origin(id, version, Reverse)), Reversed(prior))
    ensures Applied(t, id, v) == Applied(log, id, v)
    ensures v != version ==> TakenBack(t, id, v) == TakenBack(log, id, v)
    ensures v == version && TakenBack(log, id, v) == [] ==> TakenBack(t, id, v) == Reversed(prior)
  {
    var origin := Origin(id, version, Reverse);
    SelectAppend(log, Some(origin), Reversed(prior), Origin(id, v, Apply));
    SelectAppend(log, Some(origin), Reversed(prior), Origin(id, v, Reverse));
  }

  lemma CancelledVersionSettles(s: Store, t: Store, id: int, v: int)
    requires Versioned(s)
    requires id in s.docs && s.docs[id].status == Posted && 1 <= v <= s.docs[id].version
    requires t.docs == s.docs[id := s.docs[id].(status := Cancelled)]
    requires t.log == s.log + Stamped(Some(Origin(id, s.docs[id].version, Reverse)), Reversed(ActiveChanges(s, id)))
    ensures Settled(t, id, v)
  {
    assert Settled(s, id, v);
    ReversedRows(s.log, t.log, id, s.docs[id].version, ActiveChanges(s, id), v);
  }

  /** Rows appended that take back the version in force. */
  lemma CancellationSettles(s: Store, t: Store, id: int)
    requires Versioned(s)
    requires id in s.docs && s.docs[id].status == Posted && ActiveChanges(s, id) != []
    requires t.docs == s.docs[id := s.docs[id].(status := Cancelled)]
    requires t.log == s.log + Stamped(Some(Origin(id, s.docs[id].version, Reverse)), Reversed(ActiveChanges(s, id)))
    ensures Versioned(t)
  {
    AppendedRows(s.log, Origin(id, s.docs[id].version, Reverse), Reversed(ActiveChanges(s, id)));
    forall v | 1 <= v <= s.docs[id].version ensures Settled(t, id, v) {
      CancelledVersionSettles(s, t, id, v);
    }
    OtherDocumentsKeep(s, t, id);
  }

  lemma CorrectedRows(log: seq<Movement>, id: int, version: int, prior: seq<Change>, changes: seq<Change>, o: Origin)
    ensures Select(CorrectedLog(log, id, version, prior, changes), o)
         == Select(log, o)
            + (if o == Origin(id, version, Reverse) then Reversed(prior) else [])
            + (if o == Origin(id, version + 1, Apply) then changes else [])
  {
    var p, q := Origin(id, version, Reverse), Origin(id, version + 1, Apply);
    CorrectedInTurn(log, id, version, prior, changes);
    SelectAppend(log, Some(p), Reversed(prior), o);
    SelectAppend(log + Stamped(Some(p), Reversed(prior)), Some(q), changes, o);
  }

  /** The rows a correction leaves behind, posting by posting. */
  lemma RepostedRows(s: Store, id: int, content: Content, o: Origin)
    requires id in s.docs && Ready(content)
    requires Repost(s, id, content).Ok?
    ensures Select(Repost(s, id, content).value.log, o)
         == Select(s.log, o)
            + (if o == Origin(id, s.docs[id].version, Reverse) then Reversed(ActiveChanges(s, id)) else [])
            + (if o == Origin(id, s.docs[id].version + 1, Apply) then RepostedChanges(s, id, content) else [])
  {
    RepostWrites(s, id, content);
    CorrectedRows(s.log, id, s.docs[id].version, ActiveChanges(s, id), RepostedChanges(s, id, content), o);
  }

  lemma CorrectionSettles(s: Store, t: Store, id: int, changes: seq<Change>, v: int)
    requires Versioned(s)
    requires id in s.docs && s.docs[id].status == Posted
    requires id in t.docs && t.docs[id].status == Posted && t.docs[id].version == s.docs[id].version + 1
    requires changes != []
    requires 1 <= v <= t.docs[id].version
    requires Applied(t.log, id, v) == Applied(s.log, id, v) + (if v == s.docs[id].version + 1 then changes else [])
    requires TakenBack(t.log, id, v)
          == TakenBack(s.log, id, v) + (if v == s.docs[id].version then Reversed(ActiveChanges(s, id)) else [])
    ensures Settled(t, id, v)
  {
    var before, back := Applied(s.log, id, v), TakenBack(s.log, id, v);
    assert before + [] == before && back + [] == back;
    if v <= s.docs[id].version {
      assert Settled(s, id, v);
      assert [] + Reversed(before) == Reversed(before);
    } else {
      assert Select(s.log, Origin(id, v, Apply)) == [];
      assert Select(s.log, Origin(id, v, Reverse)) == [];
      assert Applied(t.log, id, v) == [] + changes == changes;
    }
  }

  lemma RepostKeepsVersions(s: Store, id: int, content: Content)
    requires id in s.docs && s.docs[id].status == Posted && Ready(content)
    requires Versioned(s)
    ensures Repost(s, id, content).Ok? ==> Versioned(Repost(s, id, content).value)
  {
    var r := Repost(s, id, content);
    if r.Ok? {
      RepostShape(s, id, content);
      var version := s.docs[id].version;
      assert Select(s.log, Origin(id, version, Apply)) != [];
      forall o: Origin
        ensures o.doc != id ==> Select(r.value.log, o) == Select(s.log, o)
        ensures o.doc == id && Select(r.value.log, o) != [] ==> 1 <= o.version <= version + 1
      {
        RepostedRows(s, id, content, o);
      }
      forall v | 1 <= v <= version + 1 ensures Settled(r.value, id, v) {
        RepostedRows(s, id, content, Origin(id, v, Apply));
        RepostedRows(s, id, content, Origin(id, v, Reverse));
        CorrectionSettles(s, r.value, id, RepostedChanges(s, id, content), v);
      }
      OtherDocumentsKeep(s, r.value, id);
    }
  }

  // ------------------------------------------------------------ net effect of a document

  /** Everything a document ever did to one balance. */
  function DocumentNet(log: seq<Movement>, doc: int, k: Key): int
  {
    if |log| == 0 then 0 else
      var last := log[|log| - 1];
      DocumentNet(log[..|log| - 1], doc, k)
      + (if last.origin.Some? && last.origin.value.doc == doc && last.change.key == k then last.change.delta else 0)
  }

  function VersionNet(log: seq<Movement>, doc: int, version: int, k: Key): int
  {
    Sum(Applied(log, doc, version), k) + Sum(TakenBack(log, doc, version), k)
  }

  function VersionsNet(log: seq<Movement>, doc: int, upTo: nat, k: Key): int
  {
    if upTo == 0 then 0 else VersionsNet(log, doc, upTo - 1, k) + VersionNet(log, doc, upTo, k)
  }

  lemma SelectLast(log: seq<Movement>, o: Origin, k: Key)
    requires |log| > 0
    ensures var rest, last := log[..|log| - 1], log[|log| - 1];
      Sum(Select(log, o), k)
      == Sum(Select(rest, o), k) + (if last.origin == Some(o) && last.change.key == k then last.change.delta else 0)
  {
    var rest, last := log[..|log| - 1], log[|log| - 1];
    if last.origin == Some(o) {
      assert [last.change][..0] == [];
      assert Sum([last.change][..0], k) == 0;
      SumConcat(Select(rest, o), [last.change], k);
    } else {
      assert Select(rest, o) + [] == Select(rest, o);
    }
  }

  lemma {:induction false} VersionsNetLast(log: seq<Movement>, doc: int, upTo: nat, k: Key)
    requires |log| > 0
    ensures var rest, last := log[..|log| - 1], log[|log| - 1];
      VersionsNet(log, doc, upTo, k)
      == VersionsNet(rest, doc, upTo, k)
         + (if last.origin.Some? && last.origin.value.doc == doc && 1 <= last.origin.value.version <= upTo
               && last.change.key == k then last.change.delta else 0)
  {
    if upTo > 0 {
      VersionsNetLast(log, doc, upTo - 1, k);
      SelectLast(log, Origin(doc, upTo, Apply), k);
      SelectLast(log, Origin(doc, upTo, Reverse), k);
      var last := log[|log| - 1];
      if last.origin.Some? {
        var o := last.origin.value;
        match o.kind {
          case Apply => assert o == Origin(o.doc, o.version, Apply);
          case Reverse => assert o == Origin(o.doc, o.version, Reverse);
        }
        assert (o.doc == doc && o.version == upTo)
          <==> (o == Origin(doc, upTo, Apply) || o == Origin(doc, upTo, Reverse));
      }
    }
  }

  /** Versions partition a document's movements. */
  lemma {:induction false} DocumentNetByVersion(log: seq<Movement>, doc: int, upTo: nat, k: Key)
    requires forall i :: 0 <= i < |log| && log[i].origin.Some? && log[i].origin.value.doc == doc ==>
      1 <= log[i].origin.value.version <= upTo
    ensures DocumentNet(log, doc, k) == VersionsNet(log, doc, upTo, k)
  {
    if |log| == 0 {
      EmptyLogNet(doc, upTo, k);
      assert log == [];
    } else {
      DocumentNetByVersion(log[..|log| - 1], doc, upTo, k);
      VersionsNetLast(log, doc, upTo, k);
    }
  }

  lemma {:induction false} EmptyLogNet(doc: int, upTo: nat, k: Key)
    ensures VersionsNet([], doc, upTo, k) == 0
  {
    if upTo > 0 {
      EmptyLogNet(doc, upTo - 1, k);
    }
  }

  lemma {:induction false} RowIsSelected(log: seq<Movement>, i: nat)
    requires i < |log| && log[i].origin.Some?
    ensures Select(log, log[i].origin.value) != []
  {
    if i < |log| - 1 {
      RowIsSelected(log[..|log| - 1], i);
    }
  }

  lemma {:induction false} RetiredVersionsCancel(s: Store, doc: int, upTo: nat, k: Key)
    requires Versioned(s) && doc in s.docs && upTo <= s.docs[doc].version
    requires s.docs[doc].status == Posted ==> upTo < s.docs[doc].version
    ensures VersionsNet(s.log, doc, upTo, k) == 0
  {
    if upTo > 0 {
      RetiredVersionsCancel(s, doc, upTo - 1, k);
      assert Settled(s, doc, upTo);
      SumReversed(Applied(s.log, doc, upTo), k);
    }
  }

  /** All versions together are everything the document moved. */
  lemma NetIsOfItsVersions(s: Store, doc: int, k: Key)
    requires Versioned(s) && doc in s.docs
    ensures s.docs[doc].version >= 0
    ensures DocumentNet(s.log, doc, k) == VersionsNet(s.log, doc, s.docs[doc].version, k)
  {
    var version := s.docs[doc].version;
    forall i | 0 <= i < |s.log| && s.log[i].origin.Some? && s.log[i].origin.value.doc == doc
      ensures 1 <= s.log[i].origin.value.version <= version
    {
      RowIsSelected(s.log, i);
    }
    DocumentNetByVersion(s.log, doc, version, k);
  }

  lemma PostedVersionsNet(s: Store, doc: int, k: Key)
    requires Versioned(s) && doc in s.docs && s.docs[doc].status == Posted && s.docs[doc].version > 0
    ensures VersionsNet(s.log, doc, s.docs[doc].version, k) == Sum(ActiveChanges(s, doc), k)
    ensures ActiveChanges(s, doc) != []
  {
    assert Settled(s, doc, s.docs[doc].version);
    RetiredVersionsCancel(s, doc, s.docs[doc].version - 1, k);
  }

  lemma UnversionedNet(s: Store, doc: int, k: Key)
    requires Versioned(s) && doc in s.docs && s.docs[doc].status == Posted && s.docs[doc].version == 0
    ensures VersionsNet(s.log, doc, 0, k) == 0 == Sum(ActiveChanges(s, doc), k)
  {
    assert Applied(s.log, doc, 0) == [];
  }

  /**
   What a document nets to: the version in force and nothing else while it is posted,
   and nothing at all once it is cancelled or while it is a draft.
   */
  lemma DocumentNetEffect(s: Store, doc: int, k: Key)
    requires Versioned(s) && doc in s.docs
    ensures DocumentNet(s.log, doc, k)
         == if s.docs[doc].status == Posted then Sum(ActiveChanges(s, doc), k) else 0
    ensures s.docs[doc].status == Posted && s.docs[doc].version > 0 ==> ActiveChanges(s, doc) != []
  {
    NetIsOfItsVersions(s, doc, k);
    if s.docs[doc].status != Posted {
      RetiredVersionsCancel(s, doc, s.docs[doc].version, k);
    } else if s.docs[doc].version > 0 {
      PostedVersionsNet(s, doc, k);
    } else {
      UnversionedNet(s, doc, k);
    }
  }
}
