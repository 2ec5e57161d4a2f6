/** The product page's view of the groups: memoised descendants, the indented option list, subtree counts. */
module GroupTree {
  import opened Common
  import opened Groups
  import opened Sums

  datatype Node = Node(id: int, parent: Option<int>)

  predicate DistinctIds(nodes: seq<Node>)
  {
    forall i, j :: 0 <= i < j < |nodes| ==> nodes[i].id != nodes[j].id
  }

  /** The table the list of groups stands for. */
  function TableOf(nodes: seq<Node>): Table
  {
    if |nodes| == 0 then map[] else
      var last := nodes[|nodes| - 1];
      TableOf(nodes[..|nodes| - 1])[last.id := Group("", last.parent)]
  }

  /** The ids of a group's children, in list order. */
  function ChildrenOf(nodes: seq<Node>, parent: int): seq<int>
  {
    if |nodes| == 0 then [] else
      var last := nodes[|nodes| - 1];
      ChildrenOf(nodes[..|nodes| - 1], parent) + (if last.parent == Some(parent) then [last.id] else [])
  }

  lemma {:induction false} TableHas(nodes: seq<Node>)
    requires DistinctIds(nodes)
    ensures forall i :: 0 <= i < |nodes| ==>
      nodes[i].id in TableOf(nodes) && TableOf(nodes)[nodes[i].id].parent == nodes[i].parent
    ensures forall x :: x in TableOf(nodes) ==> exists i :: 0 <= i < |nodes| && nodes[i].id == x
  {
    if |nodes| > 0 {
      var n := |nodes| - 1;
      TableHas(nodes[..n]);
      forall x | x in TableOf(nodes) ensures exists i :: 0 <= i < |nodes| && nodes[i].id == x {
        if x != nodes[n].id {
          var i :| 0 <= i < n && nodes[..n][i].id == x;
          assert nodes[i].id == x;
        }
      }
      forall i | 0 <= i < n ensures nodes[..n][i] == nodes[i] && nodes[i].id != nodes[n].id {
      }
    }
  }

  lemma {:induction false} ChildrenAre(nodes: seq<Node>, parent: int)
    requires DistinctIds(nodes)
    ensures forall c ::
      c in ChildrenOf(nodes, parent) <==> c in TableOf(nodes) && TableOf(nodes)[c].parent == Some(parent)
    ensures forall i, j :: 0 <= i < j < |ChildrenOf(nodes, parent)| ==>
      ChildrenOf(nodes, parent)[i] != ChildrenOf(nodes, parent)[j]
  {
    if |nodes| > 0 {
      var n := |nodes| - 1;
      ChildrenAre(nodes[..n], parent);
      TableHas(nodes[..n]);
      assert nodes[n].id !in TableOf(nodes[..n]);
      var before := ChildrenOf(nodes[..n], parent);
      forall i | 0 <= i < |before| ensures before[i] != nodes[n].id {
        assert before[i] in before;
      }
    }
  }

  // ------------------------------------------------------------ strict descendants

  ghost predicate Descends(m: Table, x: int, g: int)
  {
    exists k: nat :: k > 0 && Up(m, x, k) == Some(g)
  }

  ghost function Descendants(m: Table, g: int): set<int>
  {
    set x | x in m && Descends(m, x, g)
  }

  /** A descendant is a child or a descendant of a child. */
  lemma ThroughChild(m: Table, x: int, g: int) returns (c: int)
    requires x in m && Descends(m, x, g)
    ensures c in m && m[c].parent == Some(g) && (x == c || Descends(m, x, c))
  {
    var k: nat :| k > 0 && Up(m, x, k) == Some(g);
    UpNext(m, x, k - 1);
    c := Up(m, x, k - 1).value;
    if k - 1 > 0 {
      assert Up(m, x, k - 1) == Some(c);
    } else {
      assert Up(m, x, 0) == Some(x);
    }
  }

  lemma ChildDescends(m: Table, x: int, c: int, g: int)
    requires c in m && m[c].parent == Some(g)
    requires x == c || Descends(m, x, c)
    ensures Descends(m, x, g)
  {
    if x == c {
      assert Up(m, g, 0) == Some(g);
      assert Up(m, x, 1) == Some(g);
    } else {
      var k: nat :| k > 0 && Up(m, x, k) == Some(c);
      UpNext(m, x, k);
      assert Up(m, x, k + 1) == Some(g);
    }
  }

  /** The first n children and everything below them. */
  ghost function Under(m: Table, children: seq<int>, n: nat): set<int>
    requires n <= |children|
  {
    if n == 0 then {} else Under(m, children, n - 1) + {children[n - 1]} + Descendants(m, children[n - 1])
  }

  lemma {:induction false} UnderHas(m: Table, children: seq<int>, n: nat)
    requires n <= |children|
    ensures forall x :: x in Under(m, children, n) <==>
      exists i :: 0 <= i < n && (x == children[i] || x in Descendants(m, children[i]))
  {
    if n > 0 {
      UnderHas(m, children, n - 1);
    }
  }

  lemma UnderAll(nodes: seq<Node>, g: int)
    requires DistinctIds(nodes)
    ensures Under(TableOf(nodes), ChildrenOf(nodes, g), |ChildrenOf(nodes, g)|) == Descendants(TableOf(nodes), g)
  {
    var m, children := TableOf(nodes), ChildrenOf(nodes, g);
    ChildrenAre(nodes, g);
    UnderHas(m, children, |children|);
    forall x | x in Under(m, children, |children|) ensures x in Descendants(m, g) {
      var i :| 0 <= i < |children| && (x == children[i] || x in Descendants(m, children[i]));
      assert children[i] in children;
      ChildDescends(m, x, children[i], g);
    }
    forall x | x in Descendants(m, g) ensures x in Under(m, children, |children|) {
      var c := ThroughChild(m, x, g);
      assert c in children;
      var i :| 0 <= i < |children| && children[i] == c;
    }
  }

  /** Climbs compose. */
  lemma DescendsFurther(m: Table, x: int, g: int, c: int)
    requires Descends(m, g, x)
    requires c in m && m[c].parent == Some(g)
    ensures Descends(m, c, x)
  {
    var k: nat :| k > 0 && Up(m, g, k) == Some(x);
    assert Up(m, c, k + 1) == Up(m, g, k);
  }

  lemma NotBelowItself(m: Table, g: int)
    requires Forest(m) && g in m
    ensures !Descends(m, g, g)
  {
    forall k: nat | k > 0 ensures Up(m, g, k) != Some(g) {
      NoCycles(m, g, k);
    }
  }

  /** Children listed under their parent, groups in list order. */
  method ChildrenByParent(nodes: seq<Node>) returns (children: map<int, seq<int>>)
    ensures forall p :: Listed(children, p) == ChildrenOf(nodes, p)
  {
    children := map[];
    var i := 0;
    while i < |nodes|
      invariant 0 <= i <= |nodes|
      invariant forall p :: Listed(children, p) == ChildrenOf(nodes[..i], p)
    {
      assert nodes[..i + 1][..i] == nodes[..i];
      if nodes[i].parent.Some? {
        var p := nodes[i].parent.value;
        children := children[p := Listed(children, p) + [nodes[i].id]];
      }
      i := i + 1;
    }
    assert nodes[..i] == nodes;
  }

  function Listed(children: map<int, seq<int>>, p: int): seq<int>
  {
    if p in children then children[p] else []
  }

  /** A group that is below itself. */
  ghost predicate OnCycle(m: Table, g: int)
  {
    Descends(m, g, g)
  }

  /**
   One entry of the memo: only groups below this one, all of them unless the parents run in a circle here,
   and never the group itself.
   */
  ghost predicate Right(m: Table, g: int, below: set<int>)
  {
    below <= Descendants(m, g) && g !in below && (!OnCycle(m, g) ==> below == Descendants(m, g))
  }

  /** Every entry is right, and whoever is in one has an entry. */
  ghost predicate Remembered(m: Table, result: map<int, set<int>>)
  {
    forall g :: g in result ==> Right(m, g, result[g]) && result[g] <= result.Keys
  }

  lemma MemoGrows(m: Table, result: map<int, set<int>>, g: int, below: set<int>)
    requires Remembered(m, result) && Right(m, g, below) && below <= result.Keys
    ensures Remembered(m, result[g := below])
  {
  }

  /** The groups being worked on: all of them above this one, and none of them done. */
  ghost predicate Chain(m: Table, group: int, lineage: set<int>, result: map<int, set<int>>)
  {
    && group in m && lineage <= m.Keys && lineage !! result.Keys
    && forall a :: a in lineage ==> Descends(m, group, a)
  }

  /** What the pass over a group's children has gathered after n of them. */
  ghost predicate Gathered(m: Table, group: int, list: seq<int>, n: nat, descendants: set<int>, done: set<int>)
    requires n <= |list|
  {
    && descendants <= Under(m, list, n) && descendants <= done
    && (!OnCycle(m, group) ==> descendants == Under(m, list, n))
  }

  lemma GatherChild(m: Table, group: int, list: seq<int>, n: nat, descendants: set<int>,
                    below: set<int>, done: set<int>)
    requires n < |list| && Gathered(m, group, list, n, descendants, descendants)
    requires descendants <= done && list[n] in done && below <= done
    requires Right(m, list[n], below)
    requires !OnCycle(m, group) ==> !OnCycle(m, list[n])
    ensures Gathered(m, group, list, n + 1, descendants + {list[n]} + below, done)
  {
  }

  /** The memo of descendants, filled as it is asked. */
  class DescendantMap {
    const nodes: seq<Node>
    const children: map<int, seq<int>>
    var result: map<int, set<int>>

    ghost predicate Ready()
    {
      DistinctIds(nodes) && forall p :: Listed(children, p) == ChildrenOf(nodes, p)
    }

    ghost predicate Valid()
      reads this
    {
      Ready() && Remembered(TableOf(nodes), result)
    }

    constructor (nodes: seq<Node>, children: map<int, seq<int>>)
      requires DistinctIds(nodes)
      requires forall p :: Listed(children, p) == ChildrenOf(nodes, p)
      ensures Valid() && this.nodes == nodes && result == map[]
    {
      this.nodes := nodes;
      this.children := children;
      result := map[];
    }

    /** Ask for one group; the lineage is the chain of groups being worked on above it. */
    method CollectDescendants(group: int, lineage: set<int>) returns (descendants: set<int>)
      requires Valid() && Chain(TableOf(nodes), group, lineage, result)
      modifies this`result
      ensures Valid() && old(result).Keys <= result.Keys && lineage !! result.Keys
      ensures group !in lineage ==> group in result && result[group] == descendants
      ensures group in lineage ==> descendants == {}
      decreases |TableOf(nodes).Keys - lineage|, 0
    {
      if group in result {
        return result[group];
      }
      descendants := {};
      if group in lineage {
        return;
      }
      assert TableOf(nodes).Keys - (lineage + {group}) == TableOf(nodes).Keys - lineage - {group};
      descendants := CollectBelow(group, lineage);
      MemoGrows(TableOf(nodes), result, group, descendants);
      result := result[group := descendants];
    }

    /** One child of the pass: skipped if it is being worked on, otherwise it joins with everything below it. */
    method CollectChild(group: int, lineage: set<int>, i: nat, before: set<int>) returns (descendants: set<int>)
      requires Valid() && Chain(TableOf(nodes), group, lineage, result) && group !in result
      requires i < |ChildrenOf(nodes, group)|
      requires Gathered(TableOf(nodes), group, ChildrenOf(nodes, group), i, before, result.Keys)
      modifies this`result
      ensures Valid() && old(result).Keys <= result.Keys && lineage + {group} !! result.Keys
      ensures Gathered(TableOf(nodes), group, ChildrenOf(nodes, group), i + 1, descendants, result.Keys)
      decreases |TableOf(nodes).Keys - (lineage + {group})|, 1
    {
      var next, child := lineage + {group}, Listed(children, group)[i];
      descendants := before;
      BelowLineage(nodes, group, i, lineage, result);
      if child !in next {
        var below := CollectDescendants(child, next);
        GatherChild(TableOf(nodes), group, ChildrenOf(nodes, group), i, before, below, result.Keys);
        descendants := before + {child} + below;
      }
    }

    /** The pass over a group's children. */
    method CollectBelow(group: int, lineage: set<int>) returns (descendants: set<int>)
      requires Valid() && Chain(TableOf(nodes), group, lineage, result) && group !in result
      modifies this`result
      ensures Valid() && old(result).Keys <= result.Keys && lineage + {group} !! result.Keys
      ensures Right(TableOf(nodes), group, descendants) && descendants <= result.Keys
      decreases |TableOf(nodes).Keys - (lineage + {group})|, 2
    {
      ghost var list := ChildrenOf(nodes, group);
      descendants := {};
      var i := 0;
      while i < |Listed(children, group)|
        invariant 0 <= i <= |list|
        invariant Valid() && old(result).Keys <= result.Keys && lineage + {group} !! result.Keys
        invariant Gathered(TableOf(nodes), group, list, i, descendants, result.Keys)
      {
        descendants := CollectChild(group, lineage, i, descendants);
        i := i + 1;
      }
      UnderAll(nodes, group);
    }

    /** Ask for every group. */
    method CollectAll()
      requires Valid()
      modifies this`result
      ensures Valid()
      ensures forall g :: g in TableOf(nodes) ==> g in result
    {
      TableHas(nodes);
      var i := 0;
      while i < |nodes|
        invariant 0 <= i <= |nodes|
        invariant Valid()
        invariant forall j :: 0 <= j < i ==> nodes[j].id in result
      {
        var _ := CollectDescendants(nodes[i].id, {});
        i := i + 1;
      }
    }
  }

  /**
   The finished memo, for whatever parents the table holds. A group's entry has only groups strictly below it
   and never the group itself, and it has all of them exactly when the group is on no cycle.
   */
  method DescendantsByGroup(nodes: seq<Node>) returns (descendants: map<int, set<int>>)
    requires DistinctIds(nodes)
    ensures forall g :: g in TableOf(nodes) ==>
      && g in descendants
      && descendants[g] <= Descendants(TableOf(nodes), g) && g !in descendants[g]
      && (descendants[g] == Descendants(TableOf(nodes), g) <==> !OnCycle(TableOf(nodes), g))
  {
    var children := ChildrenByParent(nodes);
    var memo := new DescendantMap(nodes, children);
    memo.CollectAll();
    descendants := memo.result;
    forall g | g in TableOf(nodes) ensures Right(TableOf(nodes), g, descendants[g]) {
      assert g in memo.result;
    }
  }

  /** A child is below the lineage; a child that is also above its parent puts the parent on a cycle. */
  lemma BelowLineage(nodes: seq<Node>, group: int, i: nat, lineage: set<int>, result: map<int, set<int>>)
    requires DistinctIds(nodes) && Chain(TableOf(nodes), group, lineage, map[])
    requires i < |ChildrenOf(nodes, group)|
    ensures var m, child := TableOf(nodes), ChildrenOf(nodes, group)[i];
      && (lineage + {group} !! result.Keys ==> Chain(m, child, lineage + {group}, result))
      && (!OnCycle(m, group) ==> child !in lineage + {group} && !OnCycle(m, child))
  {
    var m, child := TableOf(nodes), ChildrenOf(nodes, group)[i];
    ChildrenAre(nodes, group);
    assert child in ChildrenOf(nodes, group);
    forall a | a in lineage + {group} ensures Descends(m, child, a) {
      if a == group {
        ChildDescends(m, child, child, group);
      } else {
        DescendsFurther(m, a, group, child);
      }
    }
    if child in lineage {
      ChildDescends(m, group, child, group);
    }
    if OnCycle(m, child) {
      CycleGoesUp(m, child);
    }
  }

  /** Whoever has a parent and is on a cycle, the parent is on it too. */
  lemma CycleGoesUp(m: Table, child: int)
    requires child in m && m[child].parent.Some? && OnCycle(m, child)
    ensures OnCycle(m, m[child].parent.value)
  {
    var k: nat :| k > 0 && Up(m, child, k) == Some(child);
    var g := m[child].parent.value;
    assert Up(m, child, k) == Up(m, g, k - 1);
    UpNext(m, g, k - 1);
    assert Up(m, g, k) == Some(g);
  }

  // ------------------------------------------------------------ the indented option list

  /** A line of the list: a group and its indentation. */
  datatype Row = Row(id: int, depth: nat)

  ghost function Ids(rows: seq<Row>): set<int>
  {
    set i | 0 <= i < |rows| :: rows[i].id
  }

  ghost predicate OnceEach(rows: seq<Row>)
  {
    forall i, j :: 0 <= i < j < |rows| ==> rows[i].id != rows[j].id
  }

  /** A row may be added: at the top, or one deeper than its parent's row, which is there already. */
  predicate Placed(m: Table, row: Row, rows: seq<Row>)
  {
    row.id in m && (row.depth > 0 ==> m[row.id].parent.Some? && Row(m[row.id].parent.value, row.depth - 1) in rows)
  }

  // ------------------------------------------------------------ visiting, as a function

  datatype Listing = Listing(rows: seq<Row>, visited: set<int>)

  lemma SmallerLeft(all: set<int>, visited: set<int>, seen: set<int>)
    requires visited <= seen
    ensures |all - seen| <= |all - visited|
  {
    var left, more := all - seen, (all - visited) * seen;
    assert all - visited == left + more && left !! more;
  }

  lemma OneFewerLeft(all: set<int>, visited: set<int>, group: int)
    requires group in all && group !in visited
    ensures |all - (visited + {group})| < |all - visited|
  {
    assert all - (visited + {group}) == all - visited - {group};
  }

  /** List a group, unless it is listed, and then its children. */
  function Visited(nodes: seq<Node>, now: Listing, group: int, depth: nat): (r: Listing)
    requires DistinctIds(nodes) && group in TableOf(nodes)
    ensures now.visited + {group} <= r.visited <= now.visited + TableOf(nodes).Keys
    decreases |TableOf(nodes).Keys - now.visited|, 1, 0
  {
    if group in now.visited then now else
      OneFewerLeft(TableOf(nodes).Keys, now.visited, group);
      VisitedChildren(nodes, Placing(now, group, depth), group, depth, |ChildrenOf(nodes, group)|)
  }

  function Placing(now: Listing, group: int, depth: nat): Listing
  {
    Listing(now.rows + [Row(group, depth)], now.visited + {group})
  }

  /** List the first n children of a group. */
  function VisitedChildren(nodes: seq<Node>, now: Listing, group: int, depth: nat, n: nat): (r: Listing)
    requires DistinctIds(nodes) && n <= |ChildrenOf(nodes, group)|
    ensures now.visited <= r.visited <= now.visited + TableOf(nodes).Keys
    decreases |TableOf(nodes).Keys - now.visited|, 2, n
  {
    if n == 0 then now else
      var before := VisitedChildren(nodes, now, group, depth, n - 1);
      var child := ChildrenOf(nodes, group)[n - 1];
      ChildrenAre(nodes, group);
      assert child in ChildrenOf(nodes, group);
      SmallerLeft(TableOf(nodes).Keys, now.visited, before.visited);
      Visited(nodes, before, child, depth + 1)
  }

  /** Visit a list of groups at the top level. */
  function VisitedAll(nodes: seq<Node>, now: Listing, groups: seq<int>): (r: Listing)
    requires DistinctIds(nodes) && forall i :: 0 <= i < |groups| ==> groups[i] in TableOf(nodes)
    ensures now.visited <= r.visited <= now.visited + TableOf(nodes).Keys
  {
    if |groups| == 0 then now else
      Visited(nodes, VisitedAll(nodes, now, groups[..|groups| - 1]), groups[|groups| - 1], 0)
  }

  // ---- each group once

  ghost predicate Once(now: Listing)
  {
    OnceEach(now.rows) && now.visited == Ids(now.rows)
  }

  lemma OnceMore(now: Listing, group: int, depth: nat)
    requires Once(now) && group !in now.visited
    ensures Once(Placing(now, group, depth))
  {
    var after := now.rows + [Row(group, depth)];
    forall i | 0 <= i < |now.rows| ensures after[i].id != group && after[i].id in Ids(after) {
      assert now.rows[i].id in Ids(now.rows);
      assert after[i].id == now.rows[i].id;
    }
    assert after[|now.rows|].id in Ids(after);
    forall x | x in Ids(now.rows) ensures x in Ids(after) {
      var i :| 0 <= i < |now.rows| && now.rows[i].id == x;
      assert after[i].id == x;
    }
  }

  lemma {:induction false} VisitedOnce(nodes: seq<Node>, now: Listing, group: int, depth: nat)
    requires DistinctIds(nodes) && group in TableOf(nodes) && Once(now)
    ensures Once(Visited(nodes, now, group, depth))
    decreases |TableOf(nodes).Keys - now.visited|, 1, 0
  {
    if group !in now.visited {
      OnceMore(now, group, depth);
      OneFewerLeft(TableOf(nodes).Keys, now.visited, group);
      VisitedChildrenOnce(nodes, Placing(now, group, depth), group, depth, |ChildrenOf(nodes, group)|);
    }
  }

  lemma {:induction false} VisitedChildrenOnce(nodes: seq<Node>, now: Listing, group: int, depth: nat, n: nat)
    requires DistinctIds(nodes) && n <= |ChildrenOf(nodes, group)| && Once(now)
    ensures Once(VisitedChildren(nodes, now, group, depth, n))
    decreases |TableOf(nodes).Keys - now.visited|, 2, n
  {
    if n > 0 {
      var before := VisitedChildren(nodes, now, group, depth, n - 1);
      var child := ChildrenOf(nodes, group)[n - 1];
      VisitedChildrenOnce(nodes, now, group, depth, n - 1);
      ChildrenAre(nodes, group);
      assert child in ChildrenOf(nodes, group);
      SmallerLeft(TableOf(nodes).Keys, now.visited, before.visited);
      VisitedOnce(nodes, before, child, depth + 1);
    }
  }

  // ---- whole families

  /** Whatever was listed in between has its children listed too. */
  ghost predicate Families(nodes: seq<Node>, visited: set<int>, seen: set<int>)
    requires DistinctIds(nodes)
  {
    forall g, i :: g in seen && g !in visited && 0 <= i < |ChildrenOf(nodes, g)| ==> ChildrenOf(nodes, g)[i] in seen
  }

  lemma FamiliesJoin(nodes: seq<Node>, visited: set<int>, seen: set<int>, all: set<int>)
    requires DistinctIds(nodes) && visited <= seen <= all
    requires Families(nodes, visited, seen) && Families(nodes, seen, all)
    ensures Families(nodes, visited, all)
  {
    forall g, i | g in all && g !in visited && 0 <= i < |ChildrenOf(nodes, g)| ensures ChildrenOf(nodes, g)[i] in all {
      if g in seen {
        assert ChildrenOf(nodes, g)[i] in seen;
      }
    }
  }

  lemma {:induction false} VisitedFamilies(nodes: seq<Node>, now: Listing, group: int, depth: nat)
    requires DistinctIds(nodes) && group in TableOf(nodes)
    ensures Families(nodes, now.visited, Visited(nodes, now, group, depth).visited)
    decreases |TableOf(nodes).Keys - now.visited|, 1, 0
  {
    if group !in now.visited {
      OneFewerLeft(TableOf(nodes).Keys, now.visited, group);
      VisitedChildrenFamilies(nodes, Placing(now, group, depth), group, depth, |ChildrenOf(nodes, group)|);
    }
  }

  lemma {:induction false} VisitedChildrenFamilies(nodes: seq<Node>, now: Listing, group: int, depth: nat, n: nat)
    requires DistinctIds(nodes) && n <= |ChildrenOf(nodes, group)|
    ensures var r := VisitedChildren(nodes, now, group, depth, n);
      && Families(nodes, now.visited, r.visited)
      && forall i :: 0 <= i < n ==> ChildrenOf(nodes, group)[i] in r.visited
    decreases |TableOf(nodes).Keys - now.visited|, 2, n
  {
    if n > 0 {
      var before := VisitedChildren(nodes, now, group, depth, n - 1);
      var child := ChildrenOf(nodes, group)[n - 1];
      VisitedChildrenFamilies(nodes, now, group, depth, n - 1);
      ChildrenAre(nodes, group);
      assert child in ChildrenOf(nodes, group);
      SmallerLeft(TableOf(nodes).Keys, now.visited, before.visited);
      VisitedFamilies(nodes, before, child, depth + 1);
      FamiliesJoin(nodes, now.visited, before.visited, Visited(nodes, before, child, depth + 1).visited);
    }
  }

  // ---- every row under its parent's

  /** The rows were only added to, each addition one deeper than its parent's row, the first one aside. */
  ghost predicate Nests(m: Table, rows: seq<Row>, after: seq<Row>)
  {
    rows <= after && forall i :: |rows| <= i < |after| ==> Placed(m, after[i], after[..i]) && after[i].depth > 0
  }

  lemma NestsJoin(m: Table, rows: seq<Row>, middle: seq<Row>, after: seq<Row>)
    requires Nests(m, rows, middle) && Nests(m, middle, after)
    ensures Nests(m, rows, after)
  {
    forall i | |rows| <= i < |after| ensures Placed(m, after[i], after[..i]) && after[i].depth > 0 {
      if i < |middle| {
        assert after[i] == middle[i] && after[..i] == middle[..i];
      }
    }
  }

  lemma NestsFrom(m: Table, rows: seq<Row>, row: Row, after: seq<Row>)
    requires Placed(m, row, rows) && row.depth > 0 && Nests(m, rows + [row], after)
    ensures Nests(m, rows, after)
  {
    assert (rows + [row])[..|rows|] == rows;
    assert after[..|rows|] == rows && after[|rows|] == row;
  }

  lemma PlacedChild(m: Table, rows: seq<Row>, after: seq<Row>, group: int, depth: nat, child: int)
    requires Row(group, depth) in rows && rows <= after
    requires child in m && m[child].parent == Some(group)
    ensures Placed(m, Row(child, depth + 1), after)
  {
    var i :| 0 <= i < |rows| && rows[i] == Row(group, depth);
    assert after[i] == Row(group, depth);
  }

  lemma {:induction false} VisitedNests(nodes: seq<Node>, now: Listing, group: int, depth: nat)
    requires DistinctIds(nodes) && group in TableOf(nodes)
    requires depth > 0 ==> Placed(TableOf(nodes), Row(group, depth), now.rows)
    ensures depth > 0 || group in now.visited ==>
      Nests(TableOf(nodes), now.rows, Visited(nodes, now, group, depth).rows)
    ensures depth == 0 && group !in now.visited ==>
      Nests(TableOf(nodes), now.rows + [Row(group, 0)], Visited(nodes, now, group, depth).rows)
    decreases |TableOf(nodes).Keys - now.visited|, 1, 0
  {
    if group !in now.visited {
      var start := Placing(now, group, depth);
      OneFewerLeft(TableOf(nodes).Keys, now.visited, group);
      VisitedChildrenNest(nodes, start, group, depth, |ChildrenOf(nodes, group)|);
      if depth > 0 {
        NestsFrom(TableOf(nodes), now.rows, Row(group, depth), Visited(nodes, now, group, depth).rows);
      }
    }
  }

  lemma {:induction false} VisitedChildrenNest(nodes: seq<Node>, now: Listing, group: int, depth: nat, n: nat)
    requires DistinctIds(nodes) && n <= |ChildrenOf(nodes, group)|
    requires Row(group, depth) in now.rows
    ensures Nests(TableOf(nodes), now.rows, VisitedChildren(nodes, now, group, depth, n).rows)
    decreases |TableOf(nodes).Keys - now.visited|, 2, n
  {
    if n > 0 {
      var before := VisitedChildren(nodes, now, group, depth, n - 1);
      var child := ChildrenOf(nodes, group)[n - 1];
      VisitedChildrenNest(nodes, now, group, depth, n - 1);
      ChildrenAre(nodes, group);
      assert child in ChildrenOf(nodes, group);
      SmallerLeft(TableOf(nodes).Keys, now.visited, before.visited);
      PlacedChild(TableOf(nodes), now.rows, before.rows, group, depth, child);
      VisitedNests(nodes, before, child, depth + 1);
      NestsJoin(TableOf(nodes), now.rows, before.rows, Visited(nodes, before, child, depth + 1).rows);
    }
  }

  // ---- the two passes

  /** The groups without a parent, or with one that is not in the list. */
  function RootsOf(nodes: seq<Node>, m: Table): seq<int>
  {
    if |nodes| == 0 then [] else
      var last := nodes[|nodes| - 1];
      RootsOf(nodes[..|nodes| - 1], m)
      + (if last.parent.None? || last.parent.value !in m then [last.id] else [])
  }

  function IdsOf(nodes: seq<Node>): (ids: seq<int>)
    ensures |ids| == |nodes| && forall i :: 0 <= i < |nodes| ==> ids[i] == nodes[i].id
  {
    seq(|nodes|, i requires 0 <= i < |nodes| => nodes[i].id)
  }

  lemma {:induction false} RootsAre(nodes: seq<Node>, m: Table)
    ensures forall g :: g in RootsOf(nodes, m) <==>
      exists i :: 0 <= i < |nodes| && nodes[i].id == g && (nodes[i].parent.None? || nodes[i].parent.value !in m)
  {
    if |nodes| > 0 {
      var n := |nodes| - 1;
      RootsAre(nodes[..n], m);
      forall g | g in RootsOf(nodes, m)
        ensures exists i ::
          0 <= i < |nodes| && nodes[i].id == g && (nodes[i].parent.None? || nodes[i].parent.value !in m)
      {
        if g in RootsOf(nodes[..n], m) {
          var i :| 0 <= i < n && nodes[..n][i].id == g
            && (nodes[..n][i].parent.None? || nodes[..n][i].parent.value !in m);
          assert nodes[i] == nodes[..n][i];
        }
      }
      forall i | 0 <= i < |nodes| && (nodes[i].parent.None? || nodes[i].parent.value !in m)
        ensures nodes[i].id in RootsOf(nodes, m)
      {
        if i < n {
          assert nodes[..n][i] == nodes[i];
        }
      }
    }
  }

  lemma RootsKnown(nodes: seq<Node>)
    requires DistinctIds(nodes)
    ensures forall i :: 0 <= i < |RootsOf(nodes, TableOf(nodes))| ==>
      RootsOf(nodes, TableOf(nodes))[i] in TableOf(nodes)
    ensures forall i :: 0 <= i < |nodes| ==> IdsOf(nodes)[i] in TableOf(nodes)
  {
    TableHas(nodes);
    var roots := RootsOf(nodes, TableOf(nodes));
    RootsAre(nodes, TableOf(nodes));
    forall i | 0 <= i < |roots| ensures roots[i] in TableOf(nodes) {
      assert roots[i] in roots;
      var j :| 0 <= j < |nodes| && nodes[j].id == roots[i];
    }
  }

  /** The roots with everything below them, and then whatever was not reached. */
  function Options(nodes: seq<Node>): Listing
    requires DistinctIds(nodes)
  {
    RootsKnown(nodes);
    VisitedAll(nodes, VisitedAll(nodes, Listing([], {}), RootsOf(nodes, TableOf(nodes))), IdsOf(nodes))
  }

  lemma {:induction false} VisitedAllOnce(nodes: seq<Node>, now: Listing, groups: seq<int>)
    requires DistinctIds(nodes) && (forall i :: 0 <= i < |groups| ==> groups[i] in TableOf(nodes)) && Once(now)
    ensures Once(VisitedAll(nodes, now, groups))
    ensures forall i :: 0 <= i < |groups| ==> groups[i] in VisitedAll(nodes, now, groups).visited
  {
    if |groups| > 0 {
      var n := |groups| - 1;
      VisitedAllOnce(nodes, now, groups[..n]);
      VisitedOnce(nodes, VisitedAll(nodes, now, groups[..n]), groups[n], 0);
      forall i | 0 <= i < |groups| ensures groups[i] in VisitedAll(nodes, now, groups).visited {
        assert i < n ==> groups[..n][i] == groups[i];
      }
    }
  }

  /** Whatever the parents say, even in circles, the list shows every group exactly once. */
  lemma OptionsShowEachOnce(nodes: seq<Node>)
    requires DistinctIds(nodes)
    ensures OnceEach(Options(nodes).rows)
    ensures Ids(Options(nodes).rows) == TableOf(nodes).Keys
  {
    RootsKnown(nodes);
    var first := VisitedAll(nodes, Listing([], {}), RootsOf(nodes, TableOf(nodes)));
    VisitedAllOnce(nodes, Listing([], {}), RootsOf(nodes, TableOf(nodes)));
    VisitedAllOnce(nodes, first, IdsOf(nodes));
    TableHas(nodes);
    forall x | x in TableOf(nodes) ensures x in Options(nodes).visited {
      var i :| 0 <= i < |nodes| && nodes[i].id == x;
      assert IdsOf(nodes)[i] == x;
    }
  }

  // ---- on a forest

  lemma {:induction false} VisitedAllFamilies(nodes: seq<Node>, now: Listing, groups: seq<int>)
    requires DistinctIds(nodes) && forall i :: 0 <= i < |groups| ==> groups[i] in TableOf(nodes)
    ensures Families(nodes, now.visited, VisitedAll(nodes, now, groups).visited)
  {
    if |groups| > 0 {
      var n := |groups| - 1;
      var before := VisitedAll(nodes, now, groups[..n]);
      VisitedAllFamilies(nodes, now, groups[..n]);
      VisitedFamilies(nodes, before, groups[n], 0);
      FamiliesJoin(nodes, now.visited, before.visited, VisitedAll(nodes, now, groups).visited);
    }
  }

  /** Roots and whole families are everything there is. */
  lemma {:induction false} RootedAreSeen(nodes: seq<Node>, seen: set<int>, g: int, n: nat)
    requires DistinctIds(nodes) && Families(nodes, {}, seen)
    requires forall i :: 0 <= i < |RootsOf(nodes, TableOf(nodes))| ==> RootsOf(nodes, TableOf(nodes))[i] in seen
    requires Rooted(TableOf(nodes), g, n)
    ensures g in seen
    decreases n
  {
    var m := TableOf(nodes);
    TableHas(nodes);
    if n == 0 {
      var i :| 0 <= i < |nodes| && nodes[i].id == g;
      RootsAre(nodes, m);
      assert g in RootsOf(nodes, m);
    } else {
      var parent := m[g].parent.value;
      RootedAreSeen(nodes, seen, parent, n - 1);
      ChildrenAre(nodes, parent);
      assert g in ChildrenOf(nodes, parent);
      var i :| 0 <= i < |ChildrenOf(nodes, parent)| && ChildrenOf(nodes, parent)[i] == g;
    }
  }

  lemma {:induction false} NothingLeftToVisit(nodes: seq<Node>, now: Listing, groups: seq<int>)
    requires DistinctIds(nodes) && forall i :: 0 <= i < |groups| ==> groups[i] in TableOf(nodes)
    requires forall i :: 0 <= i < |groups| ==> groups[i] in now.visited
    ensures VisitedAll(nodes, now, groups) == now
  {
    if |groups| > 0 {
      NothingLeftToVisit(nodes, now, groups[..|groups| - 1]);
    }
  }

  /** Every row has the depth of its group, under its parent's row, and only roots are at the top. */
  ghost predicate InOrder(m: Table, rows: seq<Row>)
  {
    forall i :: 0 <= i < |rows| ==>
      Placed(m, rows[i], rows[..i]) && (rows[i].depth == 0 ==> m[rows[i].id].parent.None?)
  }

  lemma NestsInOrder(m: Table, rows: seq<Row>, after: seq<Row>)
    requires InOrder(m, rows) && Nests(m, rows, after)
    ensures InOrder(m, after)
  {
    forall i | 0 <= i < |rows| ensures after[i] == rows[i] && after[..i] == rows[..i] {
    }
  }

  lemma RootInOrder(m: Table, rows: seq<Row>, root: int)
    requires InOrder(m, rows) && root in m && m[root].parent.None?
    ensures InOrder(m, rows + [Row(root, 0)])
  {
    var after := rows + [Row(root, 0)];
    forall i | 0 <= i < |rows| ensures after[i] == rows[i] && after[..i] == rows[..i] {
    }
  }

  lemma {:induction false} RootsInOrder(nodes: seq<Node>, now: Listing, groups: seq<int>)
    requires DistinctIds(nodes) && InOrder(TableOf(nodes), now.rows)
    requires forall i :: 0 <= i < |groups| ==> groups[i] in TableOf(nodes) && TableOf(nodes)[groups[i]].parent.None?
    ensures InOrder(TableOf(nodes), VisitedAll(nodes, now, groups).rows)
  {
    if |groups| > 0 {
      var n := |groups| - 1;
      var before := VisitedAll(nodes, now, groups[..n]);
      RootsInOrder(nodes, now, groups[..n]);
      VisitedNests(nodes, before, groups[n], 0);
      RootInOrder(TableOf(nodes), before.rows, groups[n]);
      NestsInOrder(TableOf(nodes),
                   if groups[n] in before.visited then before.rows else before.rows + [Row(groups[n], 0)],
                   VisitedAll(nodes, now, groups).rows);
    }
  }

  lemma ForestRoots(nodes: seq<Node>)
    requires DistinctIds(nodes) && Forest(TableOf(nodes))
    ensures forall i :: 0 <= i < |RootsOf(nodes, TableOf(nodes))| ==>
      && RootsOf(nodes, TableOf(nodes))[i] in TableOf(nodes)
      && TableOf(nodes)[RootsOf(nodes, TableOf(nodes))[i]].parent.None?
  {
    var m := TableOf(nodes);
    RootsKnown(nodes);
    RootsAre(nodes, m);
    TableHas(nodes);
    NoDanglingParent(m);
    forall i | 0 <= i < |RootsOf(nodes, m)| ensures m[RootsOf(nodes, m)[i]].parent.None? {
      var g := RootsOf(nodes, m)[i];
      assert g in RootsOf(nodes, m);
      var j :| 0 <= j < |nodes| && nodes[j].id == g && (nodes[j].parent.None? || nodes[j].parent.value !in m);
      assert m[g].parent == nodes[j].parent;
    }
  }

  /** On a forest the list is the hierarchy: each group under its parent, indented by its depth. */
  lemma OptionsFollowHierarchy(nodes: seq<Node>)
    requires DistinctIds(nodes) && Forest(TableOf(nodes))
    ensures InOrder(TableOf(nodes), Options(nodes).rows)
  {
    var m := TableOf(nodes);
    RootsKnown(nodes);
    ForestRoots(nodes);
    var roots := RootsOf(nodes, m);
    var first := VisitedAll(nodes, Listing([], {}), roots);
    RootsInOrder(nodes, Listing([], {}), roots);
    VisitedAllFamilies(nodes, Listing([], {}), roots);
    VisitedAllOnce(nodes, Listing([], {}), roots);
    forall i | 0 <= i < |nodes| ensures IdsOf(nodes)[i] in first.visited {
      var n: nat :| Rooted(m, IdsOf(nodes)[i], n);
      RootedAreSeen(nodes, first.visited, IdsOf(nodes)[i], n);
    }
    NothingLeftToVisit(nodes, first, IdsOf(nodes));
  }

  lemma RowAbove(m: Table, rows: seq<Row>, i: nat) returns (j: nat)
    requires i < |rows| && rows[i].depth > 0 && Placed(m, rows[i], rows[..i])
    ensures rows[i].id in m && m[rows[i].id].parent.Some?
    ensures j < i && rows[j] == Row(m[rows[i].id].parent.value, rows[i].depth - 1)
  {
    var above := Row(m[rows[i].id].parent.value, rows[i].depth - 1);
    j :| 0 <= j < i && rows[..i][j] == above;
  }

  lemma {:induction false} IndentedByDepth(m: Table, rows: seq<Row>, i: nat)
    requires InOrder(m, rows) && i < |rows|
    ensures Rooted(m, rows[i].id, rows[i].depth)
    decreases i
  {
    if rows[i].depth > 0 {
      var j := RowAbove(m, rows, i);
      IndentedByDepth(m, rows, j);
    }
  }

  /** The option list under construction. */
  class OptionList {
    const nodes: seq<Node>
    const children: map<int, seq<int>>
    var rows: seq<Row>
    var visited: set<int>

    ghost predicate Ready()
    {
      DistinctIds(nodes) && forall p :: Listed(children, p) == ChildrenOf(nodes, p)
    }

    constructor (nodes: seq<Node>, children: map<int, seq<int>>)
      requires DistinctIds(nodes)
      requires forall p :: Listed(children, p) == ChildrenOf(nodes, p)
      ensures Ready() && this.nodes == nodes && rows == [] && visited == {}
    {
      this.nodes := nodes;
      this.children := children;
      rows := [];
      visited := {};
    }

    function Now(): Listing
      reads this
    {
      Listing(rows, visited)
    }

    method Visit(group: int, depth: nat)
      requires Ready() && group in TableOf(nodes)
      modifies this`rows, this`visited
      ensures Now() == Visited(nodes, old(Now()), group, depth)
      decreases |TableOf(nodes).Keys - visited|, 1
    {
      if group in visited {
        return;
      }
      OneFewerLeft(TableOf(nodes).Keys, visited, group);
      visited := visited + {group};
      rows := rows + [Row(group, depth)];
      VisitChildren(group, depth);
    }

    /** The pass over a group's children. */
    method VisitChildren(group: int, depth: nat)
      requires Ready()
      modifies this`rows, this`visited
      ensures Now() == VisitedChildren(nodes, old(Now()), group, depth, |ChildrenOf(nodes, group)|)
      decreases |TableOf(nodes).Keys - visited|, 2
    {
      ChildrenAre(nodes, group);
      var list := Listed(children, group);
      var i := 0;
      while i < |list|
        invariant 0 <= i <= |list|
        invariant Now() == VisitedChildren(nodes, old(Now()), group, depth, i)
      {
        assert list[i] in list;
        SmallerLeft(TableOf(nodes).Keys, old(visited), visited);
        Visit(list[i], depth + 1);
        i := i + 1;
      }
    }

    /** Visit a list of groups at the top level. */
    method VisitEach(groups: seq<int>)
      requires Ready() && forall i :: 0 <= i < |groups| ==> groups[i] in TableOf(nodes)
      modifies this`rows, this`visited
      ensures Now() == VisitedAll(nodes, old(Now()), groups)
    {
      var i := 0;
      while i < |groups|
        invariant 0 <= i <= |groups|
        invariant Now() == VisitedAll(nodes, old(Now()), groups[..i])
      {
        assert groups[..i + 1][..i] == groups[..i];
        Visit(groups[i], 0);
        i := i + 1;
      }
      assert groups[..i] == groups;
    }
  }

  /** The list the page shows: every group once, and on a forest each under its parent at its depth. */
  method GroupOptions(nodes: seq<Node>) returns (rows: seq<Row>)
    requires DistinctIds(nodes)
    ensures OnceEach(rows) && Ids(rows) == TableOf(nodes).Keys
    ensures Forest(TableOf(nodes)) ==> InOrder(TableOf(nodes), rows)
  {
    var children := ChildrenByParent(nodes);
    var list := new OptionList(nodes, children);
    RootsKnown(nodes);
    list.VisitEach(RootsOf(nodes, TableOf(nodes)));
    list.VisitEach(IdsOf(nodes));
    rows := list.rows;
    assert list.Now() == Options(nodes);
    OptionsShowEachOnce(nodes);
    if Forest(TableOf(nodes)) {
      OptionsFollowHierarchy(nodes);
    }
  }

  // ------------------------------------------------------------ subtree counts

  function Direct(counts: map<int, int>): int -> int
  {
    (g: int) => if g in counts then counts[g] else 0
  }

  /** What the page shows for a group: its own products and those of everything below it. */
  ghost function SubtreeCount(m: Table, counts: map<int, int>, g: int): int
  {
    Direct(counts)(g) + SetSum(Descendants(m, g), Direct(counts))
  }

  /** The sum of the first n children's subtree counts. */
  ghost function ChildCounts(m: Table, counts: map<int, int>, children: seq<int>, n: nat): int
    requires n <= |children|
  {
    if n == 0 then 0 else ChildCounts(m, counts, children, n - 1) + SubtreeCount(m, counts, children[n - 1])
  }

  /** Two children of one group have nothing below them in common. */
  lemma SiblingsApart(m: Table, g: int, c: int, d: int, x: int)
    requires Forest(m) && x in m && g in m && c != d
    requires c in m && m[c].parent == Some(g) && d in m && m[d].parent == Some(g)
    requires x == c || Descends(m, x, c)
    ensures x != d && !Descends(m, x, d)
  {
    var n: nat :| Rooted(m, x, n);
    RootedStops(m, x, n);
    var i: nat := StepsTo(m, x, c);
    UpNext(m, x, i);
    forall k: nat ensures Up(m, x, k) != Some(d) {
      if Up(m, x, k) == Some(d) {
        UpNext(m, x, k);
        StopsNoRepeat(m, x, n, i + 1, k + 1);
      }
    }
    assert Up(m, x, 0) == Some(x);
  }

  lemma StepsTo(m: Table, x: int, c: int) returns (i: nat)
    requires x == c || Descends(m, x, c)
    ensures Up(m, x, i) == Some(c)
  {
    if x == c {
      i := 0;
    } else {
      i :| i > 0 && Up(m, x, i) == Some(c);
    }
  }

  lemma ListedSiblingsApart(nodes: seq<Node>, g: int, i: nat, n: nat, x: int)
    requires DistinctIds(nodes) && Forest(TableOf(nodes)) && g in TableOf(nodes)
    requires i < n < |ChildrenOf(nodes, g)|
    requires x == ChildrenOf(nodes, g)[i] || x in Descendants(TableOf(nodes), ChildrenOf(nodes, g)[i])
    ensures x != ChildrenOf(nodes, g)[n] && !Descends(TableOf(nodes), x, ChildrenOf(nodes, g)[n])
  {
    var children := ChildrenOf(nodes, g);
    ChildrenAre(nodes, g);
    assert children[i] in children && children[n] in children;
    SiblingsApart(TableOf(nodes), g, children[i], children[n], x);
  }

  lemma LastChildApart(nodes: seq<Node>, g: int, n: nat)
    requires DistinctIds(nodes) && Forest(TableOf(nodes)) && g in TableOf(nodes)
    requires n < |ChildrenOf(nodes, g)|
    ensures var c := ChildrenOf(nodes, g)[n];
      c !in Descendants(TableOf(nodes), c)
      && Under(TableOf(nodes), ChildrenOf(nodes, g), n) !! {c} + Descendants(TableOf(nodes), c)
  {
    var m, children := TableOf(nodes), ChildrenOf(nodes, g);
    ChildrenAre(nodes, g);
    assert children[n] in children;
    NotBelowItself(m, children[n]);
    UnderHas(m, children, n);
    forall x | x in Under(m, children, n) ensures x != children[n] && !Descends(m, x, children[n]) {
      var i :| 0 <= i < n && (x == children[i] || x in Descendants(m, children[i]));
      ListedSiblingsApart(nodes, g, i, n, x);
    }
  }

  lemma OneMorePart(sofar: set<int>, c: int, below: set<int>, f: int -> int)
    requires sofar !! {c} + below && c !in below
    ensures SetSum(sofar + {c} + below, f) == SetSum(sofar, f) + f(c) + SetSum(below, f)
  {
    SetSumUnion(sofar + {c}, below, f);
    SetSumRemove(sofar + {c}, c, f);
    assert sofar + {c} - {c} == sofar;
  }

  lemma UnderGrows(nodes: seq<Node>, counts: map<int, int>, g: int, n: nat)
    requires DistinctIds(nodes) && Forest(TableOf(nodes)) && g in TableOf(nodes)
    requires 0 < n <= |ChildrenOf(nodes, g)|
    ensures SetSum(Under(TableOf(nodes), ChildrenOf(nodes, g), n), Direct(counts))
         == SetSum(Under(TableOf(nodes), ChildrenOf(nodes, g), n - 1), Direct(counts))
            + SubtreeCount(TableOf(nodes), counts, ChildrenOf(nodes, g)[n - 1])
  {
    var m, children := TableOf(nodes), ChildrenOf(nodes, g);
    LastChildApart(nodes, g, n - 1);
    OneMorePart(Under(m, children, n - 1), children[n - 1], Descendants(m, children[n - 1]), Direct(counts));
  }

  lemma {:induction false} UnderSums(nodes: seq<Node>, counts: map<int, int>, g: int, n: nat)
    requires DistinctIds(nodes) && Forest(TableOf(nodes)) && g in TableOf(nodes)
    requires n <= |ChildrenOf(nodes, g)|
    ensures SetSum(Under(TableOf(nodes), ChildrenOf(nodes, g), n), Direct(counts))
         == ChildCounts(TableOf(nodes), counts, ChildrenOf(nodes, g), n)
  {
    if n == 0 {
      assert Under(TableOf(nodes), ChildrenOf(nodes, g), 0) == {};
    } else {
      UnderSums(nodes, counts, g, n - 1);
      UnderGrows(nodes, counts, g, n);
    }
  }

  /** A group counts its own products and what its children count: no product is missed or counted twice. */
  lemma CountsAddUp(nodes: seq<Node>, counts: map<int, int>, g: int)
    requires DistinctIds(nodes) && Forest(TableOf(nodes)) && g in TableOf(nodes)
    ensures SubtreeCount(TableOf(nodes), counts, g)
         == Direct(counts)(g)
            + ChildCounts(TableOf(nodes), counts, ChildrenOf(nodes, g), |ChildrenOf(nodes, g)|)
  {
    UnderAll(nodes, g);
    UnderSums(nodes, counts, g, |ChildrenOf(nodes, g)|);
  }

  /** What a memo says is below a group, nothing if it says nothing. */
  function Below(descendants: map<int, set<int>>, g: int): set<int>
  {
    if g in descendants then descendants[g] else {}
  }

  /** What the page shows for a group when its memo has these groups below it. */
  ghost function Shown(counts: map<int, int>, g: int, below: set<int>): int
  {
    Direct(counts)(g) + SetSum(below, Direct(counts))
  }

  lemma ListedIsInTable(nodes: seq<Node>, i: nat)
    requires DistinctIds(nodes) && i < |nodes|
    ensures nodes[i].id in TableOf(nodes)
  {
    TableHas(nodes);
  }

  lemma InTableIsListed(nodes: seq<Node>, done: set<int>)
    requires DistinctIds(nodes) && forall j :: 0 <= j < |nodes| ==> nodes[j].id in done
    ensures TableOf(nodes).Keys <= done
  {
    TableHas(nodes);
    forall g | g in TableOf(nodes) ensures g in done {
      var j :| 0 <= j < |nodes| && nodes[j].id == g;
    }
  }

  /** The counting loops over a memo: where the memo has everything below a group, its whole subtree is counted. */
  method ProductCountByGroup(nodes: seq<Node>, counts: map<int, int>, descendants: map<int, set<int>>)
    returns (totals: map<int, int>)
    requires DistinctIds(nodes)
    ensures totals.Keys == TableOf(nodes).Keys
    ensures forall g :: g in totals ==>
      && totals[g] == Shown(counts, g, Below(descendants, g))
      && (Below(descendants, g) == Descendants(TableOf(nodes), g) ==>
            totals[g] == SubtreeCount(TableOf(nodes), counts, g))
  {
    totals := map[];
    var i := 0;
    while i < |nodes|
      invariant 0 <= i <= |nodes|
      invariant totals.Keys <= TableOf(nodes).Keys
      invariant forall g :: g in totals ==> totals[g] == Shown(counts, g, Below(descendants, g))
      invariant forall j :: 0 <= j < i ==> nodes[j].id in totals
    {
      var g := nodes[i].id;
      ListedIsInTable(nodes, i);
      var below := CountSet(Below(descendants, g), counts);
      totals := totals[g := Direct(counts)(g) + below];
      i := i + 1;
    }
    InTableIsListed(nodes, totals.Keys);
  }

  method CountSet(groups: set<int>, counts: map<int, int>) returns (count: int)
    ensures count == SetSum(groups, Direct(counts))
  {
    count := 0;
    var left := groups;
    while left != {}
      invariant count + SetSum(left, Direct(counts)) == SetSum(groups, Direct(counts))
      decreases |left|
    {
      ghost var first := Member(left);
      var g :| g in left;
      SetSumRemove(left, g, Direct(counts));
      count := count + Direct(counts)(g);
      left := left - {g};
    }
  }
}
