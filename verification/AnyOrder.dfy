/** Cancelling when the database hands a posting's rows back in another order than they were written. */
module AnyOrder {
  import opened Common
  import opened Corrections
  import opened Documents
  import opened Stock
  import Sums
  import Versions

  predicate Shuffle(a: seq<Change>, b: seq<Change>)
  {
    multiset(a) == multiset(b)
  }

  /** These rows, undone in this order, never dip below zero. */
  predicate CanUndo(rows: seq<Change>, start: map<Key, int>)
  {
    Keys(rows) <= start.Keys && Undo(rows, start).Ok?
  }

  function DeltaOn(k: Key): Change -> int
  {
    (c: Change) => if c.key == k then c.delta else 0
  }

  function RiseOn(k: Key): Change -> int
  {
    (c: Change) => if c.key == k && c.delta > 0 then c.delta else 0
  }

  /** Everything a list of changes adds to a balance, not counting what it takes away. */
  ghost function Raised(changes: seq<Change>, k: Key): int
  {
    Sums.SeqSum(changes, RiseOn(k))
  }

  lemma {:induction false} SumIsSeqSum(changes: seq<Change>, k: Key)
    ensures Sum(changes, k) == Sums.SeqSum(changes, DeltaOn(k))
  {
    if |changes| > 0 {
      SumIsSeqSum(changes[..|changes| - 1], k);
    }
  }

  lemma ShuffledSums(a: seq<Change>, b: seq<Change>, k: Key)
    requires Shuffle(a, b)
    ensures Sum(a, k) == Sum(b, k) && Raised(a, k) == Raised(b, k)
  {
    SumIsSeqSum(a, k);
    SumIsSeqSum(b, k);
    Sums.SeqSumPermutation(a, b, DeltaOn(k));
    Sums.SeqSumPermutation(a, b, RiseOn(k));
  }

  lemma ShuffledMembers(a: seq<Change>, b: seq<Change>)
    requires Shuffle(a, b)
    ensures forall c :: c in a <==> c in b
    ensures Keys(a) == Keys(b)
  {
    forall c ensures c in a <==> c in b {
      assert c in a <==> c in multiset(a);
      assert c in b <==> c in multiset(b);
    }
    forall k ensures k in Keys(a) <==> k in Keys(b) {
      KeyOfMember(a, k);
      KeyOfMember(b, k);
    }
  }

  lemma KeyOfMember(changes: seq<Change>, k: Key)
    ensures k in Keys(changes) <==> exists c :: c in changes && c.key == k
  {
    if c :| c in changes && c.key == k {
      var i :| 0 <= i < |changes| && changes[i] == c;
      assert changes[i].key == k;
    }
  }

  /** Whatever the order, the quantities left are the same. */
  lemma OrderLeavesTheSame(a: seq<Change>, b: seq<Change>, start: map<Key, int>)
    requires Shuffle(a, b) && CanUndo(a, start) && CanUndo(b, start)
    ensures Undo(a, start).value == Undo(b, start).value
  {
    forall k | k in start ensures Undo(a, start).value[k] == Undo(b, start).value[k] {
      UndoneQuantitiesAt(a, start, k);
      UndoneQuantitiesAt(b, start, k);
      ShuffledSums(a, b, k);
    }
  }

  /** Of changes of one sign per balance, one order can be undone exactly when every order can. */
  lemma OneSignAnyOrder(a: seq<Change>, b: seq<Change>, start: map<Key, int>)
    requires Shuffle(a, b) && SameSigned(a) && AllNonnegative(start) && Keys(a) <= start.Keys
    ensures CanUndo(a, start) <==> CanUndo(b, start)
  {
    ShuffledMembers(a, b);
    ShuffledSigns(a, b);
    UndoOfSameSigned(a, start);
    UndoOfSameSigned(b, start);
    forall k ensures Sum(a, k) == Sum(b, k) {
      ShuffledSums(a, b, k);
    }
  }

  lemma ShuffledSigns(a: seq<Change>, b: seq<Change>)
    requires Shuffle(a, b) && SameSigned(a)
    ensures SameSigned(b)
  {
    ShuffledMembers(a, b);
    forall i, j | 0 <= i < j < |b| ensures Agree(b[i], b[j]) {
      assert b[i] in a && b[j] in a;
      var x :| 0 <= x < |a| && a[x] == b[i];
      var y :| 0 <= y < |a| && a[y] == b[j];
      if x < y {
        assert Agree(a[x], a[y]);
      } else if y < x {
        assert Agree(a[y], a[x]);
      }
    }
  }

  // ------------------------------------------------------------ the best and the worst order

  function Rises(changes: seq<Change>): (r: seq<Change>)
    ensures forall i :: 0 <= i < |r| ==> r[i].delta > 0
  {
    if |changes| == 0 then [] else
      var last := changes[|changes| - 1];
      Rises(changes[..|changes| - 1]) + (if last.delta > 0 then [last] else [])
  }

  function Falls(changes: seq<Change>): (r: seq<Change>)
    ensures forall i :: 0 <= i < |r| ==> r[i].delta <= 0
  {
    if |changes| == 0 then [] else
      var last := changes[|changes| - 1];
      Falls(changes[..|changes| - 1]) + (if last.delta > 0 then [] else [last])
  }

  lemma OneMoreRow(a: multiset<Change>, b: multiset<Change>, x: multiset<Change>)
    ensures (a + x) + b == (a + b) + x && a + (b + x) == (a + b) + x
  {
  }

  lemma {:induction false} PartsAddUp(changes: seq<Change>)
    ensures multiset(Falls(changes)) + multiset(Rises(changes)) == multiset(changes)
  {
    if |changes| > 0 {
      var rest, last := changes[..|changes| - 1], changes[|changes| - 1];
      PartsAddUp(rest);
      Sums.AllButLast(changes);
      OneMoreRow(multiset(Falls(rest)), multiset(Rises(rest)), multiset{last});
      if last.delta > 0 {
        Sums.RowsAndLast(Rises(rest), last);
        assert Falls(changes) == Falls(rest);
      } else {
        Sums.RowsAndLast(Falls(rest), last);
        assert Rises(changes) == Rises(rest);
      }
    }
  }

  lemma PartsMakeTheWhole(changes: seq<Change>)
    ensures Shuffle(Falls(changes) + Rises(changes), changes)
    ensures Shuffle(Rises(changes) + Falls(changes), changes)
  {
    PartsAddUp(changes);
  }

  lemma {:induction false} RaisedByRises(changes: seq<Change>, k: Key)
    ensures Sum(Rises(changes), k) == Raised(changes, k)
  {
    if |changes| > 0 {
      var rest, last := changes[..|changes| - 1], changes[|changes| - 1];
      RaisedByRises(rest, k);
      if last.delta > 0 {
        SumAppend(Rises(rest), last, k);
      } else {
        assert Rises(changes) == Rises(rest);
      }
    }
  }

  /** No part of a list adds more to a balance than all its rises do. */
  lemma {:induction false} PartAtMostRaised(changes: seq<Change>, n: nat, k: Key)
    requires n <= |changes|
    ensures Sum(changes[..n], k) <= Raised(changes, k)
    decreases |changes|
  {
    if |changes| > 0 {
      var rest := changes[..|changes| - 1];
      if n < |changes| {
        assert rest[..n] == changes[..n];
        PartAtMostRaised(rest, n, k);
      } else {
        assert changes[..n] == changes && rest[..|rest|] == rest;
        PartAtMostRaised(rest, |rest|, k);
      }
    }
  }

  lemma {:induction false} UndoStaysNonnegative(rows: seq<Change>, start: map<Key, int>)
    requires CanUndo(rows, start) && AllNonnegative(start)
    ensures AllNonnegative(Undo(rows, start).value)
  {
    if |rows| > 0 {
      KeysOfPrefix(rows);
      UndoStaysNonnegative(rows[..|rows| - 1], start);
    }
  }

  lemma {:induction false} UndoStartsWith(a: seq<Change>, b: seq<Change>, start: map<Key, int>)
    requires CanUndo(a + b, start)
    ensures CanUndo(a, start)
    decreases |b|
  {
    if |b| == 0 {
      assert a + b == a;
    } else {
      KeysOfPrefix(a + b);
      assert (a + b)[..|a + b| - 1] == a + b[..|b| - 1];
      UndoStartsWith(a, b[..|b| - 1], start);
    }
  }

  /** What every order needs: a balance covers all its rises even before any of its falls is undone. */
  ghost predicate CoversRises(changes: seq<Change>, start: map<Key, int>, k: Key)
  {
    k in start && start[k] >= Raised(changes, k)
  }

  lemma StartOfFirst<T>(a: seq<T>, b: seq<T>, n: nat)
    requires n <= |a|
    ensures (a + b)[..n] == a[..n]
  {
  }

  lemma RestOfSecond<T>(a: seq<T>, b: seq<T>, n: nat)
    requires n <= |b|
    ensures (a + b)[|a| + n..] == b[n..]
  {
  }

  lemma SumCut(changes: seq<Change>, n: nat, k: Key)
    requires n <= |changes|
    ensures Sum(changes, k) == Sum(changes[..n], k) + Sum(changes[n..], k)
  {
    assert changes == changes[..n] + changes[n..];
    SumConcat(changes[..n], changes[n..], k);
  }

  lemma SmallStart(rows: seq<Change>, n: nat, k: Key)
    requires n <= |rows| && NoneAbove(rows[..n], k)
    ensures Sum(rows[..n], k) <= 0
  {
    SumSign(rows[..n], k);
  }

  lemma GrowingRest(rows: seq<Change>, n: nat, k: Key)
    requires n <= |rows| && NoneBelow(rows[n..], k)
    ensures Sum(rows[..n], k) <= Sum(rows, k)
  {
    SumCut(rows, n, k);
    SumSign(rows[n..], k);
  }

  /** The rows up to a fall are all falls, the rows after a rise all rises. */
  lemma FallsThenRises(falls: seq<Change>, rises: seq<Change>, rows: seq<Change>, n: nat, k: Key)
    requires rows == falls + rises && n <= |rows|
    requires NoneAbove(falls, k) && NoneBelow(rises, k)
    ensures n <= |falls| ==> NoneAbove(rows[..n], k)
    ensures n >= |falls| ==> NoneBelow(rows[n..], k)
  {
    if n <= |falls| {
      StartOfFirst(falls, rises, n);
    }
    if n >= |falls| {
      RestOfSecond(falls, rises, n - |falls|);
    }
  }

  lemma PartsMove(changes: seq<Change>, i: nat)
    requires i < |Falls(changes) + Rises(changes)|
    ensures var rows := Falls(changes) + Rises(changes);
      var part, whole := Sum(rows[..i + 1], rows[i].key), Sum(rows, rows[i].key);
      part <= 0 || part <= whole
  {
    var falls, rises := Falls(changes), Rises(changes);
    var rows := falls + rises;
    FallsThenRises(falls, rises, rows, i + 1, rows[i].key);
    if i < |falls| {
      SmallStart(rows, i + 1, rows[i].key);
    } else {
      GrowingRest(rows, i + 1, rows[i].key);
    }
  }

  lemma FallsFirstUndoes(changes: seq<Change>, start: map<Key, int>)
    requires Keys(changes) <= start.Keys && AllNonnegative(start)
    requires forall k :: k in Keys(changes) ==> start[k] - Sum(changes, k) >= 0
    ensures CanUndo(Falls(changes) + Rises(changes), start)
  {
    var rows := Falls(changes) + Rises(changes);
    PartsMakeTheWhole(changes);
    ShuffledMembers(rows, changes);
    UndoExactly(rows, start);
    forall i | 0 <= i < |rows| ensures StaysUp(rows, start, i) {
      assert rows[i].key in Keys(rows);
      PartsMove(changes, i);
      ShuffledSums(rows, changes, rows[i].key);
    }
  }

  /** There is an order that can be undone exactly when nothing ends below zero: the falls first. */
  lemma SomeOrderExactly(changes: seq<Change>, start: map<Key, int>)
    requires Keys(changes) <= start.Keys && AllNonnegative(start)
    ensures (exists rows :: Shuffle(rows, changes) && CanUndo(rows, start))
       <==> forall k :: k in Keys(changes) ==> start[k] - Sum(changes, k) >= 0
  {
    if rows :| Shuffle(rows, changes) && CanUndo(rows, start) {
      UndoStaysNonnegative(rows, start);
      forall k | k in Keys(changes) ensures start[k] - Sum(changes, k) >= 0 {
        UndoneQuantitiesAt(rows, start, k);
        ShuffledSums(rows, changes, k);
      }
    }
    if forall k :: k in Keys(changes) ==> start[k] - Sum(changes, k) >= 0 {
      FallsFirstUndoes(changes, start);
      PartsMakeTheWhole(changes);
    }
  }

  lemma RisesFirstDecides(changes: seq<Change>, start: map<Key, int>)
    requires Keys(changes) <= start.Keys && AllNonnegative(start)
    requires CanUndo(Rises(changes) + Falls(changes), start)
    ensures forall k :: k in Keys(changes) ==> CoversRises(changes, start, k)
  {
    UndoStartsWith(Rises(changes), Falls(changes), start);
    UndoStaysNonnegative(Rises(changes), start);
    forall k | k in Keys(changes) ensures CoversRises(changes, start, k) {
      UndoneQuantitiesAt(Rises(changes), start, k);
      RaisedByRises(changes, k);
    }
  }

  lemma CoveredUndoes(changes: seq<Change>, rows: seq<Change>, start: map<Key, int>)
    requires Shuffle(rows, changes)
    requires forall k :: k in Keys(changes) ==> CoversRises(changes, start, k)
    ensures CanUndo(rows, start)
  {
    ShuffledMembers(rows, changes);
    forall k | k in Keys(rows) ensures k in start {
      assert CoversRises(changes, start, k);
    }
    UndoExactly(rows, start);
    forall i | 0 <= i < |rows| ensures StaysUp(rows, start, i) {
      assert rows[i].key in Keys(rows);
      assert CoversRises(changes, start, rows[i].key);
      PartAtMostRaised(rows, i + 1, rows[i].key);
      ShuffledSums(rows, changes, rows[i].key);
    }
  }

  /** Every order can be undone exactly when each balance covers all its rises. */
  lemma EveryOrderExactly(changes: seq<Change>, start: map<Key, int>)
    requires Keys(changes) <= start.Keys && AllNonnegative(start)
    ensures (forall rows :: Shuffle(rows, changes) ==> CanUndo(rows, start))
       <==> forall k :: k in Keys(changes) ==> CoversRises(changes, start, k)
  {
    PartsMakeTheWhole(changes);
    if forall rows :: Shuffle(rows, changes) ==> CanUndo(rows, start) {
      assert CanUndo(Rises(changes) + Falls(changes), start);
      RisesFirstDecides(changes, start);
    }
    if forall k :: k in Keys(changes) ==> CoversRises(changes, start, k) {
      forall rows | Shuffle(rows, changes) ensures CanUndo(rows, start) {
        CoveredUndoes(changes, rows, start);
      }
    }
  }

  // ------------------------------------------------------------ cancelling right after posting

  /** What the balances of the posting in force hold. */
  function Held(s: Store, id: int): map<Key, int>
    requires id in s.docs && Ready(s.docs[id].content) && Post(s, id).Ok?
  {
    Load(Post(s, id).value.balances, Keys(PostedChanges(s, id)))
  }

  lemma HeldIsEnough(s: Store, id: int)
    requires CacheExact(s)
    requires id in s.docs && s.docs[id].status == Draft && Ready(s.docs[id].content)
    requires Post(s, id).Ok?
    ensures AllNonnegative(Held(s, id))
    ensures forall k :: k in Keys(PostedChanges(s, id)) ==> Held(s, id)[k] - Sum(PostedChanges(s, id), k) >= 0
  {
    PostKeepsCache(s, id);
    forall k | k in Held(s, id) ensures Held(s, id)[k] >= 0 && Held(s, id)[k] - Sum(PostedChanges(s, id), k) >= 0 {
      PostMovesBalances(s, id, k);
      assert Balance(s.balances, k) >= 0 && Balance(Post(s, id).value.balances, k) >= 0;
    }
  }

  /**
   Cancelling straight after posting, the rows coming back in any order. Some order always works. For
   everything except an adjustment every order works; for an adjustment every order works exactly when no
   balance would have to give back more than it holds.
   */
  lemma CancelInAnyOrder(s: Store, id: int)
    requires CacheExact(s) && Versions.Versioned(s)
    requires id in s.docs && s.docs[id].status == Draft && Ready(s.docs[id].content)
    requires Post(s, id).Ok?
    ensures ActiveChanges(Post(s, id).value, id) == PostedChanges(s, id)
    ensures exists rows :: Shuffle(rows, PostedChanges(s, id)) && CanUndo(rows, Held(s, id))
    ensures !s.docs[id].content.docType.Adjustment? ==>
      forall rows :: Shuffle(rows, PostedChanges(s, id)) ==> CanUndo(rows, Held(s, id))
    ensures (forall rows :: Shuffle(rows, PostedChanges(s, id)) ==> CanUndo(rows, Held(s, id)))
       <==> forall k :: k in Keys(PostedChanges(s, id)) ==> CoversRises(PostedChanges(s, id), Held(s, id), k)
  {
    PostThenActive(s, id);
    HeldIsEnough(s, id);
    SomeOrderExactly(PostedChanges(s, id), Held(s, id));
    EveryOrderExactly(PostedChanges(s, id), Held(s, id));
    if !s.docs[id].content.docType.Adjustment? {
      PlansAreSameSigned(s.docs[id].content, Load(s.balances, StockKeys(s.docs[id].content)));
      UndoOfSameSigned(PostedChanges(s, id), Held(s, id));
      forall rows | Shuffle(rows, PostedChanges(s, id)) ensures CanUndo(rows, Held(s, id)) {
        OneSignAnyOrder(PostedChanges(s, id), rows, Held(s, id));
      }
    }
  }
}
