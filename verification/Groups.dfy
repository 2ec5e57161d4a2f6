/** Product groups: a parent relation that every service call keeps a forest. */
module Groups {
  import opened Common

  datatype Group = Group(name: string, parent: Option<int>)

  type Table = map<int, Group>

  // ------------------------------------------------------------ climbing

  /** The n-th ancestor, if the climb gets that far. */
  function Up(m: Table, g: int, n: nat): Option<int>
    decreases n
  {
    if n == 0 then Some(g)
    else if g in m && m[g].parent.Some? then Up(m, m[g].parent.value, n - 1)
    else None
  }

  /** The climb from g stops after exactly n steps: at a root, or at an id that is not in the table. */
  predicate Stops(m: Table, g: int, n: nat)
    decreases n
  {
    if n == 0 then g !in m || m[g].parent.None?
    else g in m && m[g].parent.Some? && Stops(m, m[g].parent.value, n - 1)
  }

  /** The climb from g ends at a root after n steps without leaving the table. */
  predicate Rooted(m: Table, g: int, n: nat)
    decreases n
  {
    g in m && if n == 0 then m[g].parent.None? else m[g].parent.Some? && Rooted(m, m[g].parent.value, n - 1)
  }

  /** Every group has a root above it: no cycle, no dangling parent. */
  ghost predicate Forest(m: Table)
  {
    forall g :: g in m ==> exists n: nat :: Rooted(m, g, n)
  }

  lemma {:induction false} StopsOnce(m: Table, g: int, n: nat, k: nat)
    requires Stops(m, g, n) && Stops(m, g, k)
    ensures n == k
    decreases n
  {
    if n > 0 && k > 0 {
      StopsOnce(m, m[g].parent.value, n - 1, k - 1);
    }
  }

  lemma {:induction false} RootedStops(m: Table, g: int, n: nat)
    requires Rooted(m, g, n)
    ensures Stops(m, g, n)
    decreases n
  {
    if n > 0 {
      RootedStops(m, m[g].parent.value, n - 1);
    }
  }

  /** One more step up. */
  lemma {:induction false} UpNext(m: Table, g: int, n: nat)
    ensures Up(m, g, n + 1)
         == (if Up(m, g, n).Some? && Up(m, g, n).value in m then m[Up(m, g, n).value].parent else None)
    decreases n
  {
    if n > 0 && g in m && m[g].parent.Some? {
      UpNext(m, m[g].parent.value, n - 1);
    } else if n == 0 && g in m && m[g].parent.Some? {
      assert Up(m, m[g].parent.value, 0) == m[g].parent;
    }
  }

  lemma {:induction false} StopsAbove(m: Table, g: int, n: nat, k: nat)
    requires Stops(m, g, n) && Up(m, g, k).Some?
    ensures k <= n && Stops(m, Up(m, g, k).value, n - k)
    decreases n
  {
    if k > 0 {
      StopsAbove(m, m[g].parent.value, n - 1, k - 1);
    }
  }

  /** A climb that stops never passes the same group twice. */
  lemma StopsNoRepeat(m: Table, g: int, n: nat, j: nat, k: nat)
    requires Stops(m, g, n)
    requires Up(m, g, j).Some? && Up(m, g, j) == Up(m, g, k)
    ensures j == k
  {
    StopsAbove(m, g, n, j);
    StopsAbove(m, g, n, k);
    StopsOnce(m, Up(m, g, j).value, n - j, n - k);
  }

  /** In a forest nothing is its own ancestor. */
  lemma NoCycles(m: Table, g: int, k: nat)
    requires Forest(m) && g in m && k > 0
    ensures Up(m, g, k) != Some(g)
  {
    var n: nat :| Rooted(m, g, n);
    RootedStops(m, g, n);
    if Up(m, g, k) == Some(g) {
      StopsNoRepeat(m, g, n, 0, k);
    }
  }

  lemma NoDanglingParent(m: Table)
    requires Forest(m)
    ensures forall g :: g in m && m[g].parent.Some? ==> m[g].parent.value in m
  {
    forall g | g in m && m[g].parent.Some? ensures m[g].parent.value in m {
      var n: nat :| Rooted(m, g, n);
      assert Rooted(m, m[g].parent.value, n - 1);
    }
  }

  // ------------------------------------------------------------ the check

  /** The first n ancestors of p, p included, do not include the group. */
  ghost predicate Avoids(m: Table, p: int, n: nat, group: Option<int>)
  {
    forall k: nat :: k <= n && group.Some? ==> Up(m, p, k) != group
  }

  /** The ancestors of p, p included, are in the table, end at a root and do not include the group. */
  ghost predicate Clear(m: Table, p: int, group: Option<int>)
  {
    exists n: nat :: Rooted(m, p, n) && Avoids(m, p, n, group)
  }

  /** The climb from p leaves the table before it meets the group. */
  ghost predicate Dangles(m: Table, p: int, group: Option<int>)
  {
    exists n: nat :: Stops(m, p, n) && !Rooted(m, p, n) && Avoids(m, p, n, group)
  }

  lemma {:induction false} StopRooted(m: Table, p: int, n: nat)
    requires Stops(m, p, n)
    ensures Up(m, p, n).Some?
    ensures Rooted(m, p, n) <==> Up(m, p, n).value in m
    decreases n
  {
    if n > 0 {
      StopRooted(m, m[p].parent.value, n - 1);
    }
  }

  /** Having climbed n steps inside the table, the climb stops here if there is no further parent. */
  lemma {:induction false} StopsHere(m: Table, p: int, n: nat)
    requires Up(m, p, n).Some?
    requires Up(m, p, n).value !in m || m[Up(m, p, n).value].parent.None?
    ensures Stops(m, p, n)
    decreases n
  {
    if n > 0 {
      StopsHere(m, m[p].parent.value, n - 1);
    }
  }

  /** Meeting the group, or a group already met, settles that the parent is neither clear nor dangling. */
  lemma MeetsGroup(m: Table, p: int, group: Option<int>, k: nat)
    requires group.Some? && Up(m, p, k) == group && group.value in m
    ensures !Clear(m, p, group) && !Dangles(m, p, group)
  {
    forall n: nat | Stops(m, p, n) ensures k <= n {
      StopsAbove(m, p, n, k);
    }
    forall n: nat | Rooted(m, p, n) ensures k <= n {
      RootedStops(m, p, n);
    }
  }

  lemma MeetsAgain(m: Table, p: int, group: Option<int>, j: nat, k: nat)
    requires j < k && Up(m, p, j).Some? && Up(m, p, j) == Up(m, p, k)
    ensures !Clear(m, p, group) && !Dangles(m, p, group)
  {
    forall n: nat ensures !Stops(m, p, n) {
      if Stops(m, p, n) {
        StopsNoRepeat(m, p, n, j, k);
      }
    }
    forall n: nat ensures !Rooted(m, p, n) {
      if Rooted(m, p, n) {
        RootedStops(m, p, n);
      }
    }
  }

  lemma ReachesRoot(m: Table, p: int, group: Option<int>, n: nat)
    requires Up(m, p, n).Some? && Up(m, p, n).value in m && m[Up(m, p, n).value].parent.None?
    requires Avoids(m, p, n, group)
    ensures Clear(m, p, group) && !Dangles(m, p, group)
  {
    StopsHere(m, p, n);
    StopRooted(m, p, n);
    forall k: nat | Stops(m, p, k) ensures k == n {
      StopsOnce(m, p, n, k);
    }
  }

  lemma LeavesTable(m: Table, p: int, group: Option<int>, n: nat)
    requires Up(m, p, n).Some? && Up(m, p, n).value !in m
    requires Avoids(m, p, n, group)
    ensures Dangles(m, p, group) && !Clear(m, p, group)
  {
    StopsHere(m, p, n);
    StopRooted(m, p, n);
    forall k: nat | Rooted(m, p, k) ensures k == n {
      RootedStops(m, p, k);
      StopsOnce(m, p, n, k);
    }
  }

  /** Climb from the proposed parent, remembering every group passed. */
  method EnsureParentExists(m: Table, parent: Option<int>, group: Option<int>) returns (fault: Option<Fault>)
    requires group.Some? ==> group.value in m
    ensures fault.None? <==> parent.None? || Clear(m, parent.value, group)
    ensures fault == Some(NotFound) <==> parent.Some? && Dangles(m, parent.value, group)
    ensures fault.Some? ==> fault.value in {NotFound, Conflict}
  {
    if parent.None? {
      return None;
    }
    ghost var p := parent.value;
    if parent == group {
      MeetsGroup(m, p, group, 0);
      return Some(Conflict);
    }
    if parent.value !in m {
      LeavesTable(m, p, group, 0);
      return Some(NotFound);
    }
    var at := parent.value;
    var visited: set<int> := {};
    ghost var n: nat := 0;
    while true
      invariant at in m && Up(m, p, n) == Some(at)
      invariant visited <= m.Keys
      invariant forall v :: v in visited ==> exists k: nat :: k < n && Up(m, p, k) == Some(v)
      invariant n > 0 ==> Avoids(m, p, n - 1, group)
      decreases |m.Keys - visited|
    {
      if group == Some(at) {
        MeetsGroup(m, p, group, n);
        return Some(Conflict);
      }
      if at in visited {
        ghost var j: nat :| j < n && Up(m, p, j) == Some(at);
        MeetsAgain(m, p, group, j, n);
        return Some(Conflict);
      }
      ghost var left := m.Keys - visited;
      visited := visited + {at};
      assert m.Keys - visited == left - {at};
      if m[at].parent.None? {
        ReachesRoot(m, p, group, n);
        return None;
      }
      UpNext(m, p, n);
      at := m[at].parent.value;
      n := n + 1;
      if at !in m {
        LeavesTable(m, p, group, n);
        return Some(NotFound);
      }
    }
  }

  // ------------------------------------------------------------ the three writes

  /** A path that avoids a changed group is still there afterwards. */
  lemma {:induction false} SamePath(m: Table, after: Table, changed: int, g: int, n: nat)
    requires Rooted(m, g, n)
    requires forall k: nat :: k <= n ==> Up(m, g, k) != Some(changed)
    requires forall x :: x in m && x != changed ==> x in after && after[x].parent == m[x].parent
    ensures Rooted(after, g, n)
    decreases n
  {
    assert Up(m, g, 0) == Some(g);
    if n > 0 {
      var parent := m[g].parent.value;
      forall k: nat | k <= n - 1 ensures Up(m, parent, k) != Some(changed) {
        assert Up(m, g, k + 1) == Up(m, parent, k);
      }
      SamePath(m, after, changed, parent, n - 1);
    }
  }

  /** If the changed group is rooted afterwards, so is everything that was rooted before. */
  lemma {:induction false} StillRooted(m: Table, after: Table, changed: int, g: int, n: nat)
    requires Rooted(m, g, n)
    requires forall x :: x in m && x != changed ==> x in after && after[x].parent == m[x].parent
    requires changed in m ==> exists k: nat :: Rooted(after, changed, k)
    ensures exists k: nat :: Rooted(after, g, k)
    decreases n
  {
    if g != changed {
      if n == 0 {
        assert Rooted(after, g, 0);
      } else {
        StillRooted(m, after, changed, m[g].parent.value, n - 1);
        var k: nat :| Rooted(after, m[g].parent.value, k);
        assert Rooted(after, g, k + 1);
      }
    }
  }

  /** Hanging a group, new or old, under a parent the check accepted keeps the forest. */
  lemma HangingKeepsForest(m: Table, g: int, name: string, parent: Option<int>)
    requires Forest(m)
    requires parent.None? || Clear(m, parent.value, Some(g)) || (g !in m && Clear(m, parent.value, None))
    ensures Forest(m[g := Group(name, parent)])
  {
    var after := m[g := Group(name, parent)];
    if parent.None? {
      assert Rooted(after, g, 0);
    } else {
      var n: nat :| Rooted(m, parent.value, n) && (g !in m || Avoids(m, parent.value, n, Some(g)));
      if g !in m {
        AvoidsMissing(m, parent.value, n, g);
      }
      SamePath(m, after, g, parent.value, n);
      assert Rooted(after, g, n + 1);
    }
    forall x | x in after ensures exists k: nat :: Rooted(after, x, k) {
      if x != g {
        var n: nat :| Rooted(m, x, n);
        StillRooted(m, after, g, x, n);
      }
    }
  }

  lemma {:induction false} AvoidsMissing(m: Table, p: int, n: nat, g: int)
    requires Rooted(m, p, n) && g !in m
    ensures forall k: nat :: k <= n ==> Up(m, p, k) != Some(g)
    decreases n
  {
    if n > 0 {
      AvoidsMissing(m, m[p].parent.value, n - 1, g);
      forall k: nat | k <= n ensures Up(m, p, k) != Some(g) {
        if k > 0 {
          assert Up(m, p, k) == Up(m, m[p].parent.value, k - 1);
        }
      }
    }
  }

  lemma {:induction false} AvoidsChildless(m: Table, p: int, n: nat, g: int)
    requires Rooted(m, p, n) && p != g
    requires forall x :: x in m ==> m[x].parent != Some(g)
    ensures Rooted(m - {g}, p, n)
    decreases n
  {
    if n > 0 {
      AvoidsChildless(m, m[p].parent.value, n - 1, g);
    }
  }

  /** The product-group table with the products' links into it. */
  class GroupTable {
    var groups: Table
    var products: map<int, Option<int>>

    ghost predicate Valid()
      reads this
    {
      Forest(groups)
      && forall p :: p in products && products[p].Some? ==> products[p].value in groups
    }

    constructor ()
      ensures Valid() && groups == map[]
    {
      groups := map[];
      products := map[];
    }

    predicate NameIsFree(name: string, exclude: Option<int>)
      reads this
    {
      forall g :: g in groups && Some(g) != exclude ==> groups[g].name != name
    }

    method CreateProductGroup(id: int, name: string, parent: Option<int>) returns (r: Result<()>)
      requires Valid() && id !in groups
      modifies this
      ensures Valid() && products == old(products)
      ensures r.Ok? <==>
        && name != "" && (forall g :: g in old(groups) ==> old(groups)[g].name != name)
        && (parent.None? || parent.value in old(groups))
      ensures groups == if r.Ok? then old(groups)[id := Group(name, parent)] else old(groups)
    {
      if name == "" {
        return Err(Unprocessable);
      }
      if !NameIsFree(name, None) {
        return Err(Conflict);
      }
      var fault := EnsureParentExists(groups, parent, None);
      if parent.Some? && parent.value in groups {
        assert exists n: nat :: Rooted(groups, parent.value, n);
      }
      if fault.Some? {
        return Err(fault.value);
      }
      HangingKeepsForest(groups, id, name, parent);
      groups := groups[id := Group(name, parent)];
      return Ok(());
    }

    /** An edit of the name, of the parent, or of both; the parent may be cleared. */
    method UpdateProductGroup(id: int, name: Option<string>, parent: Option<Option<int>>) returns (r: Result<()>)
      requires Valid() && id in groups
      modifies this
      ensures Valid() && products == old(products)
      ensures r.Ok? <==>
        && (name.Some? ==>
              name.value != "" && forall g :: g in old(groups) && g != id ==> old(groups)[g].name != name.value)
        && (parent.Some? && parent.value.Some? ==>
              && parent.value.value in old(groups)
              && forall k: nat :: Up(old(groups), parent.value.value, k) != Some(id))
      ensures r.Err? ==> groups == old(groups)
      ensures r.Ok? ==> groups == old(groups)[id := Group(
        if name.Some? then name.value else old(groups)[id].name,
        if parent.Some? then parent.value else old(groups)[id].parent)]
    {
      if name.Some? {
        if name.value == "" {
          return Err(Unprocessable);
        }
        if !NameIsFree(name.value, Some(id)) {
          return Err(Conflict);
        }
      }
      if parent.Some? {
        var fault := EnsureParentExists(groups, parent.value, Some(id));
        if parent.value.Some? {
          ClearMeansNoAncestor(groups, parent.value.value, id);
        }
        if fault.Some? {
          return Err(fault.value);
        }
      }
      var next := Group(if name.Some? then name.value else groups[id].name,
                        if parent.Some? then parent.value else groups[id].parent);
      if parent.Some? {
        HangingKeepsForest(groups, id, next.name, next.parent);
      } else {
        RenamingKeepsForest(groups, id, next.name);
      }
      groups := groups[id := next];
      return Ok(());
    }

    method DeleteProductGroup(id: int) returns (r: Result<()>)
      requires Valid() && id in groups
      modifies this
      ensures Valid() && products == old(products)
      ensures r.Ok? <==>
        && (forall p :: p in old(products) ==> old(products)[p] != Some(id))
        && (forall g :: g in old(groups) ==> old(groups)[g].parent != Some(id))
      ensures groups == if r.Ok? then old(groups) - {id} else old(groups)
    {
      if (exists p :: p in products && products[p] == Some(id))
         || (exists g :: g in groups && groups[g].parent == Some(id)) {
        return Err(Conflict);
      }
      DeletingKeepsForest(groups, id);
      groups := groups - {id};
      return Ok(());
    }
  }

  lemma RenamingKeepsForest(m: Table, g: int, name: string)
    requires Forest(m) && g in m
    ensures Forest(m[g := Group(name, m[g].parent)])
  {
    var after := m[g := Group(name, m[g].parent)];
    forall x | x in after ensures exists k: nat :: Rooted(after, x, k) {
      var n: nat :| Rooted(m, x, n);
      SameParents(m, after, x, n);
    }
  }

  lemma {:induction false} SameParents(m: Table, after: Table, x: int, n: nat)
    requires Rooted(m, x, n)
    requires m.Keys == after.Keys && forall g :: g in m ==> after[g].parent == m[g].parent
    ensures Rooted(after, x, n)
    decreases n
  {
    if n > 0 {
      SameParents(m, after, m[x].parent.value, n - 1);
    }
  }

  lemma DeletingKeepsForest(m: Table, g: int)
    requires Forest(m)
    requires forall x :: x in m ==> m[x].parent != Some(g)
    ensures Forest(m - {g})
  {
    forall x | x in m - {g} ensures exists k: nat :: Rooted(m - {g}, x, k) {
      var n: nat :| Rooted(m, x, n);
      AvoidsChildless(m, x, n, g);
    }
  }

  /** On a forest the check says exactly this: the parent exists and the group is not above it. */
  lemma ClearMeansNoAncestor(m: Table, p: int, group: int)
    requires Forest(m) && group in m
    ensures Clear(m, p, Some(group)) <==> p in m && forall k: nat :: Up(m, p, k) != Some(group)
  {
    if Clear(m, p, Some(group)) {
      var n: nat :| Rooted(m, p, n) && Avoids(m, p, n, Some(group));
      RootedStops(m, p, n);
      forall k: nat ensures Up(m, p, k) != Some(group) {
        if Up(m, p, k).Some? {
          StopsAbove(m, p, n, k);
        }
      }
    } else if p in m {
      var n: nat :| Rooted(m, p, n);
      var k: nat :| k <= n && Up(m, p, k) == Some(group);
      assert Up(m, p, k) == Some(group);
    }
  }
}
