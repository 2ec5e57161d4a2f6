/**
 Stock movements and the line-by-line plan a document makes of them.

 Quantities are thousandths, prices and totals are cents.
 */
module Stock {
  import opened Common

  /** A stock balance row: one product in one warehouse. */
  datatype Key = Key(product: int, warehouse: int)

  datatype DocType = Incoming | Outgoing | Adjustment | Transfer

  datatype Line = Line(product: int, quantity: int, price: int)

  /** What a document says, apart from its life cycle. */
  datatype Content = Content(
    docType: DocType,
    date: int,
    partner: Option<int>,
    warehouse: Option<int>,
    destination: Option<int>,
    lines: seq<Line>)

  /** A signed change of one balance. */
  datatype Change = Change(key: Key, delta: int)

  datatype Kind = Apply | Reverse

  /** The posting a movement belongs to. */
  datatype Origin = Origin(doc: int, version: int, kind: Kind)

  /** A row of the append-only movement log; imports have no origin. */
  datatype Movement = Movement(origin: Option<Origin>, change: Change)

  // ------------------------------------------------------------ changes

  /** The net effect of a list of changes on one balance. */
  function Sum(changes: seq<Change>, k: Key): int
  {
    if |changes| == 0 then 0 else
      var last := changes[|changes| - 1];
      Sum(changes[..|changes| - 1], k) + (if last.key == k then last.delta else 0)
  }

  /** The changes that undo a list of changes. */
  function Reversed(changes: seq<Change>): (undo: seq<Change>)
    ensures |undo| == |changes|
    ensures forall i :: 0 <= i < |changes| ==> undo[i] == Change(changes[i].key, -changes[i].delta)
  {
    seq(|changes|, i requires 0 <= i < |changes| => Change(changes[i].key, -changes[i].delta))
  }

  function Keys(changes: seq<Change>): set<Key>
  {
    set i | 0 <= i < |changes| :: changes[i].key
  }

  lemma {:induction false} SumConcat(a: seq<Change>, b: seq<Change>, k: Key)
    ensures Sum(a + b, k) == Sum(a, k) + Sum(b, k)
    decreases |b|
  {
    if |b| == 0 {
      assert a + b == a;
    } else {
      assert (a + b)[..|a + b| - 1] == a + b[..|b| - 1];
      SumConcat(a, b[..|b| - 1], k);
    }
  }

  lemma {:induction false} SumReversed(changes: seq<Change>, k: Key)
    ensures Sum(Reversed(changes), k) == -Sum(changes, k)
  {
    if |changes| > 0 {
      assert Reversed(changes)[..|changes| - 1] == Reversed(changes[..|changes| - 1]);
      SumReversed(changes[..|changes| - 1], k);
    }
  }

  lemma {:induction false} SumElsewhere(changes: seq<Change>, k: Key)
    requires k !in Keys(changes)
    ensures Sum(changes, k) == 0
  {
    if |changes| > 0 {
      assert changes[|changes| - 1].key in Keys(changes);
      forall x | x in Keys(changes[..|changes| - 1]) ensures x in Keys(changes) {
        var i :| 0 <= i < |changes| - 1 && changes[..|changes| - 1][i].key == x;
        assert changes[i].key == x;
      }
      SumElsewhere(changes[..|changes| - 1], k);
    }
  }

  // ------------------------------------------------------------ the log

  /** The sum of every movement on one balance. */
  function Net(log: seq<Movement>, k: Key): int
  {
    if |log| == 0 then 0 else
      var last := log[|log| - 1].change;
      Net(log[..|log| - 1], k) + (if last.key == k then last.delta else 0)
  }

  /** The changes recorded under one posting, in log order. */
  function Select(log: seq<Movement>, origin: Origin): seq<Change>
  {
    if |log| == 0 then [] else
      Select(log[..|log| - 1], origin)
      + (if log[|log| - 1].origin == Some(origin) then [log[|log| - 1].change] else [])
  }

  /** Changes written to the log under one posting. */
  function Stamped(origin: Option<Origin>, changes: seq<Change>): (rows: seq<Movement>)
    ensures |rows| == |changes|
    ensures forall i :: 0 <= i < |changes| ==> rows[i] == Movement(origin, changes[i])
  {
    seq(|changes|, i requires 0 <= i < |changes| => Movement(origin, changes[i]))
  }

  lemma {:induction false} NetAppend(log: seq<Movement>, origin: Option<Origin>, changes: seq<Change>, k: Key)
    ensures Net(log + Stamped(origin, changes), k) == Net(log, k) + Sum(changes, k)
    decreases |changes|
  {
    var rows := Stamped(origin, changes);
    if |changes| == 0 {
      assert log + rows == log;
    } else {
      assert (log + rows)[..|log + rows| - 1] == log + Stamped(origin, changes[..|changes| - 1]);
      NetAppend(log, origin, changes[..|changes| - 1], k);
    }
  }

  lemma {:induction false} SelectAppend(log: seq<Movement>, origin: Option<Origin>, changes: seq<Change>, o: Origin)
    ensures Select(log + Stamped(origin, changes), o)
         == Select(log, o) + (if origin == Some(o) then changes else [])
    decreases |changes|
  {
    var rows := Stamped(origin, changes);
    if |changes| == 0 {
      assert log + rows == log;
    } else {
      assert (log + rows)[..|log + rows| - 1] == log + Stamped(origin, changes[..|changes| - 1]);
      SelectAppend(log, origin, changes[..|changes| - 1], o);
      assert changes == changes[..|changes| - 1] + [changes[|changes| - 1]];
    }
  }

  // ------------------------------------------------------------ balances

  /** A missing balance row counts as zero. */
  function Balance(balances: map<Key, int>, k: Key): int
  {
    if k in balances then balances[k] else 0
  }

  function Load(balances: map<Key, int>, keys: set<Key>): map<Key, int>
  {
    map k | k in keys :: Balance(balances, k)
  }

  // ------------------------------------------------------------ the plan

  datatype Plan = Plan(changes: seq<Change>, quantities: map<Key, int>)

  /** Every line finds its balance rows in the loaded quantities. */
  predicate Covers(quantities: map<Key, int>, docType: DocType, src: int, dst: int, lines: seq<Line>)
  {
    forall i :: 0 <= i < |lines| ==>
      && Key(lines[i].product, src) in quantities
      && (docType.Transfer? ==> Key(lines[i].product, dst) in quantities)
  }

  /** One line of the plan: refuse a shortage, otherwise record the change and move the quantities. */
  function PlanLine(docType: DocType, src: int, dst: int, plan: Plan, line: Line): (r: Result<Plan>)
    requires Covers(plan.quantities, docType, src, dst, [line])
    ensures r.Ok? ==> r.value.quantities.Keys == plan.quantities.Keys
  {
    assert [line][0] == line;
    var source := Key(line.product, src);
    var current := plan.quantities[source];
    if docType in {Outgoing, Transfer} && current < line.quantity then Err(Conflict) else
      var delta := match docType
        case Incoming => line.quantity
        case Outgoing => -line.quantity
        case Adjustment => line.quantity - current
        case Transfer => -line.quantity;
      var taken := plan.quantities[source := current + delta];
      var changes := plan.changes + [Change(source, delta)];
      if docType.Transfer? then
        var target := Key(line.product, dst);
        Ok(Plan(changes + [Change(target, line.quantity)], taken[target := taken[target] + line.quantity]))
      else
        Ok(Plan(changes, taken))
  }

  function PlanLines(docType: DocType, src: int, dst: int, lines: seq<Line>, start: map<Key, int>): (r: Result<Plan>)
    requires Covers(start, docType, src, dst, lines)
    ensures r.Ok? ==> r.value.quantities.Keys == start.Keys
  {
    if |lines| == 0 then Ok(Plan([], start)) else
      var plan :- PlanLines(docType, src, dst, lines[..|lines| - 1], start);
      PlanLine(docType, src, dst, plan, lines[|lines| - 1])
  }

  predicate AllNonnegative(quantities: map<Key, int>)
  {
    forall k :: k in quantities ==> quantities[k] >= 0
  }

  function PlanDocument(docType: DocType, src: int, dst: int, lines: seq<Line>, start: map<Key, int>): (r: Result<Plan>)
    requires Covers(start, docType, src, dst, lines)
    ensures r.Ok? ==> r.value.quantities.Keys == start.Keys && AllNonnegative(r.value.quantities)
  {
    var plan :- PlanLines(docType, src, dst, lines, start);
    if AllNonnegative(plan.quantities) then Ok(plan) else Err(Conflict)
  }

  /** What one line adds to a balance, given what its source holds. */
  function Moved(docType: DocType, src: int, dst: int, line: Line, held: int, k: Key): int
  {
    (if k != Key(line.product, src) then 0
     else if docType.Incoming? then line.quantity
     else if docType.Adjustment? then line.quantity - held
     else -line.quantity)
    + (if docType.Transfer? && k == Key(line.product, dst) then line.quantity else 0)
  }

  /** Every quantity moves by what the line adds to it, and the new movements add up to the same. */
  ghost predicate LineMoves(docType: DocType, src: int, dst: int, line: Line, before: Plan, after: Plan)
  {
    var held := Balance(before.quantities, Key(line.product, src));
    && before.changes <= after.changes
    && after.quantities.Keys == before.quantities.Keys
    && (forall k :: k in before.quantities ==>
          && k in after.quantities
          && after.quantities[k] == before.quantities[k] + Moved(docType, src, dst, line, held, k))
    && (forall k: Key :: Sum(after.changes, k) == Sum(before.changes, k) + Moved(docType, src, dst, line, held, k))
  }

  lemma SumAppend(changes: seq<Change>, c: Change, k: Key)
    ensures Sum(changes + [c], k) == Sum(changes, k) + (if c.key == k then c.delta else 0)
  {
    assert (changes + [c])[..|changes|] == changes;
  }

  lemma PlanLineMovesSums(docType: DocType, src: int, dst: int, before: Plan, line: Line, k: Key)
    requires Covers(before.quantities, docType, src, dst, [line])
    requires PlanLine(docType, src, dst, before, line).Ok?
    ensures var held := Balance(before.quantities, Key(line.product, src));
      Sum(PlanLine(docType, src, dst, before, line).value.changes, k)
      == Sum(before.changes, k) + Moved(docType, src, dst, line, held, k)
  {
    assert [line][0] == line;
    var source := Key(line.product, src);
    var given := Moved(docType, src, src, line, Balance(before.quantities, source), source);
    var first := Change(source, if docType.Transfer? then -line.quantity else given);
    SumAppend(before.changes, first, k);
    SumAppend(before.changes + [first], Change(Key(line.product, dst), line.quantity), k);
  }

  lemma LineIsAccountedFor(docType: DocType, src: int, dst: int, before: Plan, line: Line)
    requires Covers(before.quantities, docType, src, dst, [line])
    requires PlanLine(docType, src, dst, before, line).Ok?
    ensures LineMoves(docType, src, dst, line, before, PlanLine(docType, src, dst, before, line).value)
  {
    assert [line][0] == line;
    forall k: Key {
      PlanLineMovesSums(docType, src, dst, before, line, k);
    }
  }

  /** One turn of the planning loop: refused exactly when more is to leave than is there. */
  method PlanMovement(docType: DocType, src: int, dst: int, line: Line, before: Plan) returns (r: Result<Plan>)
    requires Covers(before.quantities, docType, src, dst, [line])
    ensures r.Err? <==>
      docType in {Outgoing, Transfer} && Balance(before.quantities, Key(line.product, src)) < line.quantity
    ensures r.Ok? ==> LineMoves(docType, src, dst, line, before, r.value)
    ensures r == PlanLine(docType, src, dst, before, line)
  {
    assert [line][0] == line;
    var quantities, changes := before.quantities, before.changes;
    var source := Key(line.product, src);
    var current := quantities[source];
    var delta := line.quantity;
    match docType {
      case Incoming =>
      case Outgoing | Transfer =>
        if current < line.quantity {
          return Err(Conflict);
        }
        delta := -line.quantity;
      case Adjustment =>
        delta := line.quantity - current;
    }
    quantities := quantities[source := quantities[source] + delta];
    changes := changes + [Change(source, delta)];
    if docType.Transfer? {
      var target := Key(line.product, dst);
      quantities := quantities[target := quantities[target] + line.quantity];
      changes := changes + [Change(target, line.quantity)];
    }
    r := Ok(Plan(changes, quantities));
    assert r == PlanLine(docType, src, dst, before, line);
    LineIsAccountedFor(docType, src, dst, before, line);
  }

  /** The planning loop: one pass over the lines, then one look at every final quantity. */
  method PlanDocumentMovements(docType: DocType, src: int, dst: int, lines: seq<Line>, start: map<Key, int>)
    returns (r: Result<Plan>)
    requires Covers(start, docType, src, dst, lines)
    ensures r == PlanDocument(docType, src, dst, lines, start)
  {
    var plan := Plan([], start);
    var i := 0;
    while i < |lines|
      invariant 0 <= i <= |lines|
      invariant plan.quantities.Keys == start.Keys
      invariant PlanLines(docType, src, dst, lines[..i], start) == Ok(plan)
    {
      assert lines[..i + 1][..i] == lines[..i];
      var next := PlanMovement(docType, src, dst, lines[i], plan);
      if next.Err? {
        ShortageStops(docType, src, dst, lines, start, i);
        return next;
      }
      plan := next.value;
      i := i + 1;
    }
    assert lines[..i] == lines;
    if exists k :: k in plan.quantities && plan.quantities[k] < 0 {
      return Err(Conflict);
    }
    return Ok(plan);
  }

  lemma {:induction false} ShortageStops(docType: DocType, src: int, dst: int, lines: seq<Line>, start: map<Key,
                                         int>, i: nat)
    requires Covers(start, docType, src, dst, lines)
    requires i < |lines|
    requires PlanLines(docType, src, dst, lines[..i + 1], start) == Err(Conflict)
    ensures PlanLines(docType, src, dst, lines, start) == Err(Conflict)
    decreases |lines|
  {
    if i + 1 == |lines| {
      assert lines[..i + 1] == lines;
    } else {
      assert lines[..|lines| - 1][..i + 1] == lines[..i + 1];
      ShortageStops(docType, src, dst, lines[..|lines| - 1], start, i);
    }
  }
}
