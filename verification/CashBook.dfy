/** The full cash book and its pages. */
module CashBook {
  import opened Common
  import opened Sums
  import opened Ordering
  import opened Cash

  /** One printed row: which operation, and the balance after it. */
  datatype Row = Row(id: int, balance: int)

  datatype Page = Page(items: seq<Row>, total: int, current: int, opening: int, closing: int)

  /** The operations in book order. */
  function InOrder(ops: seq<CashOp>): seq<Entry>
  {
    Sort(Entries(ops))
  }

  lemma BookIsSorted(ops: seq<CashOp>)
    ensures StrictlySorted(InOrder(ops)) && |InOrder(ops)| == |ops|
    ensures Running(InOrder(ops), |ops|) == Balance(ops)
  {
    SortSorts(Entries(ops));
    SortKeepsLength(Entries(ops));
    SortKeepsSums(Entries(ops), Stamp(0, 0, 0));
    assert InOrder(ops)[..|ops|] == InOrder(ops);
  }

  /** The full book: a running balance from the oldest operation on. */
  ghost function Book(sorted: seq<Entry>): (rows: seq<Row>)
    ensures |rows| == |sorted|
    ensures forall i :: 0 <= i < |rows| ==> rows[i] == Row(sorted[i].stamp.id, Running(sorted, i + 1))
  {
    seq(|sorted|, i requires 0 <= i < |sorted| => Row(sorted[i].stamp.id, Running(sorted, i + 1)))
  }

  function Backwards<T>(s: seq<T>): (r: seq<T>)
    ensures |r| == |s|
    ensures forall i :: 0 <= i < |s| ==> r[i] == s[|s| - 1 - i]
  {
    seq(|s|, i requires 0 <= i < |s| => s[|s| - 1 - i])
  }

  /** Rows from offset on, at most limit of them. */
  function Slice<T>(s: seq<T>, offset: nat, limit: nat): (r: seq<T>)
    ensures |r| == if offset >= |s| then 0 else Min(limit, |s| - offset)
    ensures forall j :: 0 <= j < |r| ==> r[j] == s[offset + j]
  {
    if offset >= |s| then [] else if offset + limit >= |s| then s[offset..] else s[offset..offset + limit]
  }

  /** Walk the operations in order, carrying the balance. */
  method PrintUp(sorted: seq<Entry>) returns (rows: seq<Row>)
    ensures rows == Book(sorted)
  {
    rows := [];
    var balance := 0;
    var i := 0;
    while i < |sorted|
      invariant 0 <= i <= |sorted|
      invariant balance == Running(sorted, i)
      invariant |rows| == i && forall j :: 0 <= j < i ==> rows[j] == Book(sorted)[j]
    {
      RunningStep(sorted, i);
      balance := balance + sorted[i].amount;
      rows := rows + [Row(sorted[i].stamp.id, balance)];
      i := i + 1;
    }
  }

  /** The full book ends at the cash balance. */
  method GetCashBook(ops: seq<CashOp>) returns (rows: seq<Row>)
    ensures rows == Book(InOrder(ops))
    ensures |rows| == |ops|
    ensures |rows| > 0 ==> rows[|rows| - 1].balance == Balance(ops)
  {
    BookIsSorted(ops);
    rows := PrintUp(InOrder(ops));
  }

  /** The closing balance of a page, summed by the database over everything up to its newest row. */
  method BalanceUpTo(ops: seq<CashOp>, newest: Stamp) returns (balance: int)
    ensures balance == UpTo(Entries(ops), newest)
  {
    balance := 0;
    var i := 0;
    while i < |ops|
      invariant 0 <= i <= |ops|
      invariant balance == UpTo(Entries(ops[..i]), newest)
    {
      assert ops[..i + 1] == ops[..i] + [ops[i]];
      AppendedUpTo(ops[..i], ops[i], newest);
      if AtOrBefore(Stamp(ops[i].date, 0, Id(i)), newest) {
        balance := balance + Effect(ops[i]);
      }
      i := i + 1;
    }
    assert ops[..i] == ops;
  }

  /** What a page must show, read off the full book. */
  ghost function PageOf(sorted: seq<Entry>, offset: nat, limit: nat): Page
  {
    var book := Book(sorted);
    var items := Slice(Backwards(book), offset, limit);
    var current := Running(sorted, |sorted|);
    if |items| == 0 then Page([], |sorted|, current, current, current) else
      var below := |book| - offset - |items|;
      Page(items, |sorted|, current, if below == 0 then 0 else book[below - 1].balance, items[0].balance)
  }

  /** Each row shows the closing balance less the amounts of the rows above it. */
  ghost predicate CountedDown(chosen: seq<Entry>, closing: int, rows: seq<Row>)
  {
    |rows| == |chosen|
    && forall j :: 0 <= j < |rows| ==> rows[j] == Row(chosen[j].stamp.id, closing - SeqSum(chosen[..j], Amount()))
  }

  /** Walk down from a closing balance, giving each row the balance it left. */
  method PrintDown(chosen: seq<Entry>, closing: int) returns (rows: seq<Row>, opening: int)
    ensures CountedDown(chosen, closing, rows)
    ensures opening == closing - SeqSum(chosen, Amount())
  {
    opening := closing;
    rows := [];
    var j := 0;
    while j < |chosen|
      invariant 0 <= j <= |chosen| && |rows| == j
      invariant opening == closing - SeqSum(chosen[..j], Amount())
      invariant forall m :: 0 <= m < j ==>
        rows[m] == Row(chosen[m].stamp.id, closing - SeqSum(chosen[..m], Amount()))
    {
      assert chosen[..j + 1][..j] == chosen[..j];
      rows := rows + [Row(chosen[j].stamp.id, opening)];
      opening := opening - chosen[j].amount;
      j := j + 1;
    }
    assert chosen[..j] == chosen;
  }

  /** Taking rows off the top of the book takes their amounts off the running balance. */
  lemma {:induction false} DownFromTop(sorted: seq<Entry>, offset: nat, j: nat)
    requires offset + j <= |sorted|
    ensures SeqSum(Backwards(sorted)[offset..offset + j], Amount())
         == Running(sorted, |sorted| - offset) - Running(sorted, |sorted| - offset - j)
  {
    if j > 0 {
      DownFromTop(sorted, offset, j - 1);
      var s := Backwards(sorted)[offset..offset + j];
      assert s[..j - 1] == Backwards(sorted)[offset..offset + j - 1];
      RunningStep(sorted, |sorted| - offset - j);
    } else {
      assert Backwards(sorted)[offset..offset] == [];
    }
  }

  lemma SliceStart<T>(s: seq<T>, offset: nat, limit: nat, j: nat)
    requires j <= |Slice(s, offset, limit)|
    ensures offset <= |s| ==> offset + j <= |s| && Slice(s, offset, limit)[..j] == s[offset..offset + j]
  {
  }

  /** The n-th row of the full book from the top. */
  lemma BookRow(sorted: seq<Entry>, n: nat)
    requires n < |sorted|
    ensures Backwards(Book(sorted))[n] == Row(Backwards(sorted)[n].stamp.id, Running(sorted, |sorted| - n))
  {
    assert Backwards(Book(sorted))[n] == Book(sorted)[|sorted| - 1 - n];
  }

  lemma SliceAt<T>(s: seq<T>, offset: nat, limit: nat, j: nat)
    requires j < |Slice(s, offset, limit)|
    ensures offset + j < |s| && Slice(s, offset, limit)[j] == s[offset + j]
  {
  }

  lemma PageAmounts(sorted: seq<Entry>, offset: nat, limit: nat, j: nat)
    requires j < |Slice(Backwards(sorted), offset, limit)|
    ensures SeqSum(Slice(Backwards(sorted), offset, limit)[..j], Amount())
         == Running(sorted, |sorted| - offset) - Running(sorted, |sorted| - offset - j)
  {
    SliceStart(Backwards(sorted), offset, limit, j);
    DownFromTop(sorted, offset, j);
  }

  lemma PageItem(sorted: seq<Entry>, offset: nat, limit: nat, j: nat)
    requires j < |Slice(Backwards(sorted), offset, limit)|
    ensures Slice(Backwards(Book(sorted)), offset, limit)[j]
         == Row(Slice(Backwards(sorted), offset, limit)[j].stamp.id, Running(sorted, |sorted| - offset - j))
  {
    SliceAt(Backwards(sorted), offset, limit, j);
    SliceAt(Backwards(Book(sorted)), offset, limit, j);
    BookRow(sorted, offset + j);
  }

  lemma PageRow(sorted: seq<Entry>, offset: nat, limit: nat, j: nat)
    requires j < |Slice(Backwards(sorted), offset, limit)|
    ensures var chosen := Slice(Backwards(sorted), offset, limit);
      Slice(Backwards(Book(sorted)), offset, limit)[j]
      == Row(chosen[j].stamp.id, Running(sorted, |sorted| - offset) - SeqSum(chosen[..j], Amount()))
  {
    PageItem(sorted, offset, limit, j);
    PageAmounts(sorted, offset, limit, j);
  }

  /** Rows counted down from the right closing balance are the rows the full book has there. */
  lemma RowsFromClosing(sorted: seq<Entry>, offset: nat, limit: nat, rows: seq<Row>)
    requires offset <= |sorted|
    requires CountedDown(Slice(Backwards(sorted), offset, limit), Running(sorted, |sorted| - offset), rows)
    ensures rows == Slice(Backwards(Book(sorted)), offset, limit)
  {
    forall j | 0 <= j < |rows| ensures rows[j] == Slice(Backwards(Book(sorted)), offset, limit)[j] {
      PageRow(sorted, offset, limit, j);
    }
  }

  /** What is left below the page. */
  lemma OpeningBelow(sorted: seq<Entry>, offset: nat, limit: nat)
    requires offset <= |sorted|
    ensures var chosen := Slice(Backwards(sorted), offset, limit);
      && offset + |chosen| <= |sorted|
      && Running(sorted, |sorted| - offset) - SeqSum(chosen, Amount()) == Running(sorted, |sorted| - offset - |chosen|)
  {
    var chosen := Slice(Backwards(sorted), offset, limit);
    SliceStart(Backwards(sorted), offset, limit, |chosen|);
    assert chosen[..|chosen|] == chosen;
    DownFromTop(sorted, offset, |chosen|);
  }

  lemma RunningOfNone(sorted: seq<Entry>)
    ensures Running(sorted, 0) == 0
  {
    assert sorted[..0] == [];
  }

  /** A page closes at the balance after its newest row and opens at the one before its oldest. */
  lemma PageEnds(sorted: seq<Entry>, offset: nat, limit: nat)
    requires limit > 0 && offset < |sorted|
    ensures var page := PageOf(sorted, offset, limit);
      && |page.items| == Min(limit, |sorted| - offset)
      && page.closing == Running(sorted, |sorted| - offset)
      && page.opening == Running(sorted, |sorted| - offset - |page.items|)
  {
    BookRow(sorted, offset);
    SliceAt(Backwards(Book(sorted)), offset, limit, 0);
    RunningOfNone(sorted);
  }

  /** The page with these rows is the one read off the full book. */
  lemma PageFromClosing(sorted: seq<Entry>, offset: nat, limit: nat, rows: seq<Row>, closing: int, opening: int)
    requires offset <= |sorted| && |rows| > 0
    requires rows == Slice(Backwards(Book(sorted)), offset, limit)
    requires closing == Running(sorted, |sorted| - offset)
    requires opening == Running(sorted, |sorted| - offset - |rows|)
    ensures PageOf(sorted, offset, limit) == Page(rows, |sorted|, Running(sorted, |sorted|), opening, closing)
  {
    PageEnds(sorted, offset, limit);
  }

  lemma UpToNewest(ops: seq<CashOp>, offset: nat)
    requires offset < |ops|
    ensures |InOrder(ops)| == |ops|
    ensures UpTo(Entries(ops), InOrder(ops)[|ops| - 1 - offset].stamp) == Running(InOrder(ops), |ops| - offset)
  {
    BookIsSorted(ops);
    SortKeepsSums(Entries(ops), InOrder(ops)[|ops| - 1 - offset].stamp);
    RunningAtRow(InOrder(ops), |ops| - 1 - offset);
  }

  /** The balance at the top of a page: the current one, or a total up to the page's newest row. */
  method ClosingBalance(ops: seq<CashOp>, offset: nat, current: int) returns (closing: int)
    requires offset < |ops| && current == Balance(ops)
    ensures |InOrder(ops)| == |ops|
    ensures closing == Running(InOrder(ops), |ops| - offset)
  {
    BookIsSorted(ops);
    if offset == 0 {
      return current;
    }
    UpToNewest(ops, offset);
    closing := BalanceUpTo(ops, InOrder(ops)[|ops| - 1 - offset].stamp);
  }

  /** The rows of a page and the balance below them. */
  method PrintPage(sorted: seq<Entry>, offset: nat, limit: nat, closing: int) returns (rows: seq<Row>, opening: int)
    requires offset <= |sorted| && closing == Running(sorted, |sorted| - offset)
    ensures rows == Slice(Backwards(Book(sorted)), offset, limit)
    ensures offset + |rows| <= |sorted| && opening == Running(sorted, |sorted| - offset - |rows|)
  {
    var chosen := Slice(Backwards(sorted), offset, limit);
    rows, opening := PrintDown(chosen, closing);
    RowsFromClosing(sorted, offset, limit, rows);
    OpeningBelow(sorted, offset, limit);
  }

  lemma EmptyPage(sorted: seq<Entry>, offset: nat, limit: nat)
    requires offset >= |sorted| || limit == 0
    ensures PageOf(sorted, offset, limit)
         == Page([], |sorted|, Running(sorted, |sorted|), Running(sorted, |sorted|), Running(sorted, |sorted|))
  {
  }

  /** A page that is not empty. */
  method PrintFullPage(ops: seq<CashOp>, offset: nat, limit: nat, current: int) returns (page: Page)
    requires offset < |ops| && limit > 0 && current == Balance(ops)
    ensures page == PageOf(InOrder(ops), offset, limit)
  {
    var closing := ClosingBalance(ops, offset, current);
    var rows, opening := PrintPage(InOrder(ops), offset, limit, closing);
    BookIsSorted(ops);
    PageFromClosing(InOrder(ops), offset, limit, rows, closing, opening);
    page := Page(rows, |ops|, current, opening, closing);
  }

  /** A page, printed backwards from a total of everything up to its newest row, is a slice of the full book. */
  method GetCashBookPage(ops: seq<CashOp>, offset: nat, limit: nat) returns (page: Page)
    ensures page == PageOf(InOrder(ops), offset, limit)
    ensures page.total == |ops| && page.current == Balance(ops)
  {
    BookIsSorted(ops);
    var current := CashBalance(ops);
    if offset >= |ops| || limit == 0 {
      EmptyPage(InOrder(ops), offset, limit);
      page := Page([], |ops|, current, current, current);
    } else {
      page := PrintFullPage(ops, offset, limit, current);
    }
  }

  lemma LastPageOpensAtZero(sorted: seq<Entry>, offset: nat, limit: nat)
    requires limit > 0 && offset < |sorted|
    ensures offset + limit >= |sorted| ==> PageOf(sorted, offset, limit).opening == 0
  {
    PageEnds(sorted, offset, limit);
    RunningOfNone(sorted);
  }

  /** A page with rows is inside the book and closes at the balance there. */
  lemma PageCloses(sorted: seq<Entry>, offset: nat, limit: nat)
    ensures |PageOf(sorted, offset, limit).items| > 0 ==> offset < |sorted|
    ensures |PageOf(sorted, offset, limit).items| > 0 ==>
      PageOf(sorted, offset, limit).closing == RunningBelow(sorted, offset)
  {
    if |PageOf(sorted, offset, limit).items| > 0 {
      PageEnds(sorted, offset, limit);
    }
  }

  /** The balance with this many rows taken off the top. */
  ghost function RunningBelow(sorted: seq<Entry>, rows: nat): int
  {
    if rows <= |sorted| then Running(sorted, |sorted| - rows) else 0
  }

  lemma PageOpens(sorted: seq<Entry>, offset: nat, limit: nat)
    requires limit > 0 && offset < |sorted|
    ensures PageOf(sorted, offset, limit).opening == RunningBelow(sorted, offset + limit)
  {
    PageEnds(sorted, offset, limit);
    RunningOfNone(sorted);
  }

  lemma PageClosesAt(sorted: seq<Entry>, offset: nat, limit: nat, balance: int)
    requires balance == RunningBelow(sorted, offset)
    ensures |PageOf(sorted, offset, limit).items| > 0 ==> balance == PageOf(sorted, offset, limit).closing
  {
    PageCloses(sorted, offset, limit);
  }

  lemma NextPageMeets(sorted: seq<Entry>, offset: nat, limit: nat, after: nat)
    requires limit > 0 && offset < |sorted|
    ensures |PageOf(sorted, offset + limit, after).items| > 0 ==>
      PageOf(sorted, offset, limit).opening == PageOf(sorted, offset + limit, after).closing
  {
    PageOpens(sorted, offset, limit);
    PageClosesAt(sorted, offset + limit, after, PageOf(sorted, offset, limit).opening);
  }

  lemma PageHasRows(sorted: seq<Entry>, offset: nat, limit: nat)
    requires limit > 0 && offset < |sorted|
    ensures |PageOf(sorted, offset, limit).items| > 0
  {
    PageEnds(sorted, offset, limit);
  }

  /** Turning the page: where one page opens the next one closes, and the last one opens at zero. */
  lemma PagesMeet(sorted: seq<Entry>, offset: nat, limit: nat, after: nat)
    requires limit > 0 && offset < |sorted|
    ensures |PageOf(sorted, offset, limit).items| > 0
    ensures |PageOf(sorted, offset + limit, after).items| > 0 ==>
      PageOf(sorted, offset, limit).opening == PageOf(sorted, offset + limit, after).closing
    ensures offset + limit >= |sorted| ==> PageOf(sorted, offset, limit).opening == 0
  {
    PageHasRows(sorted, offset, limit);
    LastPageOpensAtZero(sorted, offset, limit);
    NextPageMeets(sorted, offset, limit, after);
  }

  /** The offset of a page, counting pages from zero. */
  function StartOf(page: nat, limit: nat): nat
  {
    if page == 0 then 0 else StartOf(page - 1, limit) + limit
  }

  /** The first pages of one size, one after another. */
  ghost function PagesJoined(sorted: seq<Entry>, limit: nat, pages: nat): seq<Row>
  {
    if pages == 0 then [] else
      PagesJoined(sorted, limit, pages - 1) + PageOf(sorted, StartOf(pages - 1, limit), limit).items
  }

  lemma SliceSplit<T>(s: seq<T>, done: nat, limit: nat)
    ensures Slice(s, 0, done + limit) == Slice(s, 0, done) + Slice(s, done, limit)
  {
  }

  lemma PageItems(sorted: seq<Entry>, offset: nat, limit: nat)
    ensures PageOf(sorted, offset, limit).items == Slice(Backwards(Book(sorted)), offset, limit)
  {
  }

  /** Read in turn, the pages are the whole book backwards: no row is lost or shown twice. */
  lemma {:induction false} PagesCoverBook(sorted: seq<Entry>, limit: nat, pages: nat)
    ensures PagesJoined(sorted, limit, pages) == Slice(Backwards(Book(sorted)), 0, StartOf(pages, limit))
  {
    if pages > 0 {
      PagesCoverBook(sorted, limit, pages - 1);
      PageItems(sorted, StartOf(pages - 1, limit), limit);
      SliceSplit(Backwards(Book(sorted)), StartOf(pages - 1, limit), limit);
    }
  }
}
