/** Dated entries in book order: sorting them, and running balances against order-free sums. */
module Ordering {
  import opened Sums

  /** The sort key of a book row: date first, then the kind of source, then the row id. */
  datatype Stamp = Stamp(date: int, rank: int, id: int)

  datatype Entry = Entry(stamp: Stamp, amount: int)

  predicate Precedes(a: Stamp, b: Stamp)
  {
    a.date < b.date || (a.date == b.date && (a.rank < b.rank || (a.rank == b.rank && a.id < b.id)))
  }

  predicate AtOrBefore(a: Stamp, b: Stamp)
  {
    a == b || Precedes(a, b)
  }

  predicate StrictlySorted(s: seq<Entry>)
  {
    forall i, j :: 0 <= i < j < |s| ==> Precedes(s[i].stamp, s[j].stamp)
  }

  predicate DistinctStamps(s: seq<Entry>)
  {
    forall i, j :: 0 <= i < j < |s| ==> s[i].stamp != s[j].stamp
  }

  /** A stable sort by stamp, as a function. */
  function Sort(s: seq<Entry>): seq<Entry>
  {
    if |s| == 0 then [] else Insert(s[|s| - 1], Sort(s[..|s| - 1]))
  }

  function Insert(x: Entry, s: seq<Entry>): seq<Entry>
  {
    if |s| > 0 && Precedes(x.stamp, s[|s| - 1].stamp)
    then Insert(x, s[..|s| - 1]) + [s[|s| - 1]]
    else s + [x]
  }

  lemma {:induction false} InsertKeepsRows(x: Entry, s: seq<Entry>)
    ensures multiset(Insert(x, s)) == multiset(s) + multiset{x}
  {
    if |s| > 0 && Precedes(x.stamp, s[|s| - 1].stamp) {
      InsertKeepsRows(x, s[..|s| - 1]);
      assert s == s[..|s| - 1] + [s[|s| - 1]];
    }
  }

  lemma {:induction false} SortKeepsRows(s: seq<Entry>)
    ensures multiset(Sort(s)) == multiset(s)
  {
    if |s| > 0 {
      var rest, last := s[..|s| - 1], s[|s| - 1];
      SortKeepsRows(rest);
      InsertKeepsRows(last, Sort(rest));
      AllButLast(s);
    }
  }

  lemma {:induction false} InsertAddsOne(x: Entry, s: seq<Entry>)
    ensures |Insert(x, s)| == |s| + 1
  {
    if |s| > 0 && Precedes(x.stamp, s[|s| - 1].stamp) {
      InsertAddsOne(x, s[..|s| - 1]);
    }
  }

  lemma {:induction false} SortKeepsLength(s: seq<Entry>)
    ensures |Sort(s)| == |s|
  {
    if |s| > 0 {
      SortKeepsLength(s[..|s| - 1]);
      InsertAddsOne(s[|s| - 1], Sort(s[..|s| - 1]));
    }
  }

  lemma {:induction false} InsertKeepsOrder(x: Entry, s: seq<Entry>)
    requires StrictlySorted(s)
    requires forall i :: 0 <= i < |s| ==> s[i].stamp != x.stamp
    ensures StrictlySorted(Insert(x, s))
  {
    if |s| > 0 && Precedes(x.stamp, s[|s| - 1].stamp) {
      var rest, last := s[..|s| - 1], s[|s| - 1];
      InsertKeepsOrder(x, rest);
      InsertKeepsRows(x, rest);
      var t := Insert(x, rest);
      forall i | 0 <= i < |t| ensures Precedes(t[i].stamp, last.stamp) {
        assert t[i] in multiset(t);
        if t[i] != x {
          assert t[i] in multiset(rest);
          var j :| 0 <= j < |rest| && rest[j] == t[i];
          assert s[j] == t[i];
        }
      }
    } else if |s| > 0 {
      forall i | 0 <= i < |s| ensures Precedes(s[i].stamp, x.stamp) {
        assert i == |s| - 1 || Precedes(s[i].stamp, s[|s| - 1].stamp);
      }
    }
  }

  lemma {:induction false} SortSorts(s: seq<Entry>)
    requires DistinctStamps(s)
    ensures StrictlySorted(Sort(s))
  {
    if |s| > 0 {
      var rest, last := s[..|s| - 1], s[|s| - 1];
      SortSorts(rest);
      SortKeepsRows(rest);
      var t := Sort(rest);
      forall i | 0 <= i < |t| ensures t[i].stamp != last.stamp {
        assert t[i] in multiset(t);
        assert t[i] in multiset(rest);
        var j :| 0 <= j < |rest| && rest[j] == t[i];
        assert s[j] == t[i];
      }
      InsertKeepsOrder(last, t);
    }
  }

  // ------------------------------------------------------------ sums

  function Amount(): Entry -> int
  {
    (e: Entry) => e.amount
  }

  function AmountUpTo(cut: Stamp): Entry -> int
  {
    (e: Entry) => if AtOrBefore(e.stamp, cut) then e.amount else 0
  }

  /** The running balance after the first n rows. */
  ghost function Running(s: seq<Entry>, n: nat): int
    requires n <= |s|
  {
    SeqSum(s[..n], Amount())
  }

  /** The sum of everything stamped at or before a cut, whatever the order of the list. */
  ghost function UpTo(s: seq<Entry>, cut: Stamp): int
  {
    SeqSum(s, AmountUpTo(cut))
  }

  lemma RunningStep(s: seq<Entry>, n: nat)
    requires n < |s|
    ensures Running(s, n + 1) == Running(s, n) + s[n].amount
  {
    assert s[..n + 1][..n] == s[..n];
  }

  lemma {:induction false} UpToOfEarlier(s: seq<Entry>, cut: Stamp)
    requires forall i :: 0 <= i < |s| ==> AtOrBefore(s[i].stamp, cut)
    ensures UpTo(s, cut) == SeqSum(s, Amount())
  {
    if |s| > 0 {
      UpToOfEarlier(s[..|s| - 1], cut);
    }
  }

  lemma {:induction false} UpToOfLater(s: seq<Entry>, cut: Stamp)
    requires forall i :: 0 <= i < |s| ==> Precedes(cut, s[i].stamp)
    ensures UpTo(s, cut) == 0
  {
    if |s| > 0 {
      UpToOfLater(s[..|s| - 1], cut);
    }
  }

  /** In a sorted list the sum up to a cut is the running balance of the rows before it. */
  lemma UpToIsRunning(s: seq<Entry>, n: nat, cut: Stamp)
    requires n <= |s|
    requires forall i :: 0 <= i < n ==> AtOrBefore(s[i].stamp, cut)
    requires forall i :: n <= i < |s| ==> Precedes(cut, s[i].stamp)
    ensures UpTo(s, cut) == Running(s, n)
  {
    assert s == s[..n] + s[n..];
    SeqSumConcat(s[..n], s[n..], AmountUpTo(cut));
    UpToOfEarlier(s[..n], cut);
    UpToOfLater(s[n..], cut);
  }

  lemma RunningAtRow(s: seq<Entry>, n: nat)
    requires StrictlySorted(s) && n < |s|
    ensures UpTo(s, s[n].stamp) == Running(s, n + 1)
  {
    UpToIsRunning(s, n + 1, s[n].stamp);
  }

  /** How many rows of a sorted list lie at or before a cut. */
  function Rows(s: seq<Entry>, cut: Stamp): (n: nat)
    ensures n <= |s|
  {
    if |s| == 0 then 0
    else if AtOrBefore(s[|s| - 1].stamp, cut) then |s|
    else Rows(s[..|s| - 1], cut)
  }

  lemma {:induction false} RowsSplit(s: seq<Entry>, cut: Stamp)
    requires StrictlySorted(s)
    ensures forall i :: 0 <= i < Rows(s, cut) ==> AtOrBefore(s[i].stamp, cut)
    ensures forall i :: Rows(s, cut) <= i < |s| ==> Precedes(cut, s[i].stamp)
  {
    if |s| > 0 {
      if AtOrBefore(s[|s| - 1].stamp, cut) {
        forall i | 0 <= i < |s| ensures AtOrBefore(s[i].stamp, cut) {
          assert i == |s| - 1 || Precedes(s[i].stamp, s[|s| - 1].stamp);
        }
      } else {
        RowsSplit(s[..|s| - 1], cut);
      }
    }
  }

  /** No cut of the list sums to less than zero. */
  ghost predicate Safe(s: seq<Entry>)
  {
    forall cut: Stamp :: UpTo(s, cut) >= 0
  }

  /** Checking every running balance of the sorted list checks every cut. */
  lemma RunningDecidesSafety(s: seq<Entry>)
    requires StrictlySorted(s)
    ensures Safe(s) <==> forall n :: 0 <= n <= |s| ==> Running(s, n) >= 0
  {
    if Safe(s) {
      forall n | 0 <= n <= |s| ensures Running(s, n) >= 0 {
        if n > 0 {
          RunningAtRow(s, n - 1);
        }
      }
    }
    if forall n :: 0 <= n <= |s| ==> Running(s, n) >= 0 {
      forall cut: Stamp ensures UpTo(s, cut) >= 0 {
        RowsSplit(s, cut);
        UpToIsRunning(s, Rows(s, cut), cut);
      }
    }
  }

  lemma SortKeepsSums(s: seq<Entry>, cut: Stamp)
    ensures UpTo(Sort(s), cut) == UpTo(s, cut)
    ensures SeqSum(Sort(s), Amount()) == SeqSum(s, Amount())
  {
    SortKeepsRows(s);
    SeqSumPermutation(Sort(s), s, AmountUpTo(cut));
    SeqSumPermutation(Sort(s), s, Amount());
  }
}
