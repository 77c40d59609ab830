/** The department tree: parent links that every create and update keep free of cycles. */
module Departments {
  import opened Base

  datatype Department = Department(id: string, name: string, code: string, parentId: string)

  type Tree = map<string, Department>

  datatype Error = NameRequired | CodeRequired | NotFound | SelfParent | ParentNotFound | CycleFound | CodeTaken

  /** The parent of a department; unknown departments have none. */
  function Parent(m: Tree, id: string): string { if id in m then m[id].parentId else "" }

  /** Where n parent links lead from a department. */
  function Walk(m: Tree, id: string, n: nat): string
    decreases n
  {
    if n == 0 then id else Walk(m, Parent(m, id), n - 1)
  }

  /** Following parents ends after n links. */
  ghost predicate Ends(m: Tree, id: string, n: nat) { Walk(m, id, n) == "" }

  /** From every department the way up ends. */
  ghost predicate Acyclic(m: Tree)
  {
    forall id :: id in m ==> exists n: nat :: Ends(m, id, n)
  }

  ghost predicate NoCycle(m: Tree)
  {
    forall id, n: nat :: id in m && n >= 1 ==> Walk(m, id, n) != id
  }

  /** One or more parent links lead from the first to the second. */
  ghost predicate Above(m: Tree, below: string, above: string)
  {
    exists k: nat :: k >= 1 && Walk(m, below, k) == above
  }

  ghost predicate ParentsKnown(m: Tree)
  {
    forall id :: id in m ==> m[id].id == id && id != "" && (m[id].parentId == "" || m[id].parentId in m)
  }

  ghost predicate CodesUnique(m: Tree)
  {
    forall a, b :: a in m && b in m && m[a].code == m[b].code ==> a == b
  }

  ghost predicate Valid(m: Tree) { Acyclic(m) && ParentsKnown(m) && CodesUnique(m) }

  // ---- Walks ----

  lemma {:induction false} WalkSplit(m: Tree, id: string, a: nat, b: nat)
    ensures Walk(m, id, a + b) == Walk(m, Walk(m, id, a), b)
    decreases a
  {
    if a > 0 {
      WalkSplit(m, Parent(m, id), a - 1, b);
    }
  }

  lemma {:induction false} WalkFromRoot(m: Tree, n: nat)
    requires "" !in m
    ensures Walk(m, "", n) == ""
  {
    if n > 0 {
      WalkFromRoot(m, n - 1);
    }
  }

  /** A cycle never ends. */
  lemma {:induction false} CycleNeverEnds(m: Tree, id: string, n: nat, k: nat)
    requires "" !in m && id in m && k >= 1 && Walk(m, id, k) == id
    ensures !Ends(m, id, n)
    decreases n
  {
    if n < k {
      if Ends(m, id, n) {
        WalkSplit(m, id, n, k - n);
        WalkFromRoot(m, k - n);
        assert false;
      }
    } else {
      WalkSplit(m, id, k, n - k);
      CycleNeverEnds(m, id, n - k, k);
    }
  }

  /** The way up runs into a cycle. */
  ghost predicate BelowCycle(m: Tree, id: string)
  {
    exists j: nat :: OnCycle(m, Walk(m, id, j))
  }

  ghost predicate OnCycle(m: Tree, id: string) { id in m && Above(m, id, id) }

  lemma ParentNotBelow(m: Tree, id: string)
    requires !BelowCycle(m, id)
    ensures !BelowCycle(m, Parent(m, id)) && !OnCycle(m, id)
  {
    forall j: nat
      ensures !OnCycle(m, Walk(m, Parent(m, id), j))
    {
      assert !OnCycle(m, Walk(m, id, j + 1));
    }
    assert !OnCycle(m, Walk(m, id, 0));
  }

  /** Off every cycle the departments already passed never come back, so the walk runs out of departments. */
  lemma {:induction false} WalkRunsOut(m: Tree, id: string, passed: set<string>) returns (n: nat)
    requires !BelowCycle(m, id) && passed <= m.Keys
    requires forall p :: p in passed ==> Above(m, p, id)
    ensures Ends(m, id, n)
    decreases |m.Keys - passed|
  {
    hide BelowCycle;
    ParentNotBelow(m, id);
    if id == "" {
      n := 0;
    } else if id !in m {
      assert Walk(m, id, 1) == Walk(m, "", 0);
      n := 1;
    } else {
      assert id !in passed;
      var more := passed + {id};
      forall p | p in more
        ensures Above(m, p, Parent(m, id))
      {
        assert Walk(m, id, 1) == Walk(m, Parent(m, id), 0);
        if p != id {
          var k: nat :| k >= 1 && Walk(m, p, k) == id;
          WalkSplit(m, p, k, 1);
          assert Walk(m, p, k + 1) == Parent(m, id);
        }
      }
      assert m.Keys - more == (m.Keys - passed) - {id};
      var rest := WalkRunsOut(m, Parent(m, id), more);
      n := rest + 1;
    }
  }

  /** The ancestor walk from a department returns exactly when it does not run into a cycle. */
  lemma WalkReturnsExactly(m: Tree, id: string)
    requires "" !in m
    ensures (exists n: nat :: Ends(m, id, n)) <==> !BelowCycle(m, id)
  {
    if !BelowCycle(m, id) {
      var n := WalkRunsOut(m, id, {});
    } else {
      forall n: nat
        ensures !Ends(m, id, n)
      {
        NeverReturns(m, id, n);
      }
    }
  }

  lemma NeverReturns(m: Tree, id: string, n: nat)
    requires "" !in m && BelowCycle(m, id)
    ensures !Ends(m, id, n)
  {
    var j: nat :| OnCycle(m, Walk(m, id, j));
    var y := Walk(m, id, j);
    var k: nat :| k >= 1 && Walk(m, y, k) == y;
    if n >= j {
      WalkSplit(m, id, j, n - j);
      CycleNeverEnds(m, y, n - j, k);
    } else {
      WalkSplit(m, id, n, j - n);
      if Ends(m, id, n) {
        WalkFromRoot(m, j - n);
        assert false;
      }
    }
  }

  /** The way up ends everywhere exactly when no department is its own ancestor. */
  lemma AcyclicMeansNoCycle(m: Tree)
    requires "" !in m
    ensures Acyclic(m) <==> NoCycle(m)
  {
    if Acyclic(m) {
      forall id, k: nat | id in m && k >= 1
        ensures Walk(m, id, k) != id
      {
        var n: nat :| Ends(m, id, n);
        if Walk(m, id, k) == id {
          CycleNeverEnds(m, id, n, k);
        }
      }
    }
    if NoCycle(m) {
      forall id | id in m
        ensures exists n: nat :: Ends(m, id, n)
      {
        NoCycleNotBelow(m, id);
        var n := WalkRunsOut(m, id, {});
      }
    }
  }

  lemma NoCycleNotBelow(m: Tree, id: string)
    requires NoCycle(m)
    ensures !BelowCycle(m, id)
  {
  }

  // ---- Relinking one department ----

  /** The walk from x of n links never stands on id. */
  ghost predicate Avoids(m: Tree, x: string, id: string, n: nat)
  {
    forall k: nat :: k <= n ==> Walk(m, x, k) != id
  }

  lemma {:induction false} WalkUnchanged(m: Tree, id: string, d: Department, x: string, n: nat)
    requires Avoids(m, x, id, n)
    ensures Walk(m[id := d], x, n) == Walk(m, x, n)
    decreases n
  {
    if n > 0 {
      assert Walk(m, x, 0) != id;
      forall k: nat | k <= n - 1
        ensures Walk(m, Parent(m, x), k) != id
      {
        assert Walk(m, x, k + 1) != id;
      }
      WalkUnchanged(m, id, d, Parent(m, x), n - 1);
    }
  }

  /** From any place the relinked way up ends, given that it ends from the relinked department. */
  lemma {:induction false} EndsAfterRelink(m: Tree, id: string, d: Department, x: string, n: nat,
      fromId: nat)
    returns (r: nat)
    requires id in m && Ends(m, x, n) && Ends(m[id := d], id, fromId)
    ensures Ends(m[id := d], x, r)
    decreases n
  {
    if x == id {
      r := fromId;
    } else if n == 0 {
      r := 0;
    } else {
      var rest := EndsAfterRelink(m, id, d, Parent(m, x), n - 1, fromId);
      r := rest + 1;
    }
  }

  /**
   Putting a department under a parent whose way up ends keeps the tree acyclic exactly when the
   department is not on that way up.
   */
  lemma RelinkExactly(m: Tree, d: Department, n: nat)
    requires Acyclic(m) && "" !in m && d.id in m && Ends(m, d.parentId, n)
    ensures Acyclic(m[d.id := d]) <==> Avoids(m, d.parentId, d.id, n)
  {
    var t := m[d.id := d];
    if Avoids(m, d.parentId, d.id, n) {
      WalkUnchanged(m, d.id, d, d.parentId, n);
      assert Ends(t, d.id, n + 1);
      forall x | x in t
        ensures exists r: nat :: Ends(t, x, r)
      {
        var k: nat :| Ends(m, x, k);
        var r := EndsAfterRelink(m, d.id, d, x, k, n + 1);
      }
    } else {
      RelinkedCycle(m, d, n);
      AcyclicMeansNoCycle(t);
    }
  }

  lemma RelinkedCycle(m: Tree, d: Department, n: nat)
    requires d.id in m && !Avoids(m, d.parentId, d.id, n)
    ensures !NoCycle(m[d.id := d])
  {
    var t := m[d.id := d];
    var k := FirstMeeting(m, d.parentId, d.id, n);
    if k > 0 {
      WalkUnchangedBefore(m, d.id, d, d.parentId, k);
    }
    assert Walk(t, d.id, k + 1) == Walk(t, d.parentId, k) == d.id;
  }

  /** The first time the walk meets id. */
  lemma FirstMeeting(m: Tree, x: string, id: string, n: nat) returns (k: nat)
    requires !Avoids(m, x, id, n)
    ensures k <= n && Walk(m, x, k) == id && (k > 0 ==> Avoids(m, x, id, k - 1))
    decreases n
  {
    if n > 0 && !Avoids(m, x, id, n - 1) {
      k := FirstMeeting(m, x, id, n - 1);
    } else {
      k := n;
    }
  }

  lemma WalkUnchangedBefore(m: Tree, id: string, d: Department, x: string, k: nat)
    requires k > 0 && Avoids(m, x, id, k - 1)
    ensures Walk(m[id := d], x, k) == Walk(m, x, k)
  {
    var t := m[id := d];
    WalkUnchanged(m, id, d, x, k - 1);
    WalkSplit(m, x, k - 1, 1);
    WalkSplit(t, x, k - 1, 1);
    var y := Walk(m, x, k - 1);
    assert y != id;
    assert Walk(t, y, 1) == Walk(t, Parent(t, y), 0) && Walk(m, y, 1) == Walk(m, Parent(m, y), 0);
  }

  /** A new department nobody refers to leaves every other way up as it was. */
  lemma AddLeaf(m: Tree, d: Department)
    requires Valid(m) && d.id !in m && d.id != "" && (d.parentId == "" || d.parentId in m)
    ensures Acyclic(m[d.id := d]) && ParentsKnown(m[d.id := d])
  {
    var t := m[d.id := d];
    forall x | x in t
      ensures exists n: nat :: Ends(t, x, n)
    {
      if x != d.id {
        var n: nat :| Ends(m, x, n);
        NeverMeets(m, d.id, x, n);
        WalkUnchanged(m, d.id, d, x, n);
        assert Ends(t, x, n);
      } else if d.parentId == "" {
        assert Walk(t, d.id, 1) == Walk(t, "", 0);
        assert Ends(t, d.id, 1);
      } else {
        var n: nat :| Ends(m, d.parentId, n);
        NeverMeets(m, d.id, d.parentId, n);
        WalkUnchanged(m, d.id, d, d.parentId, n);
        assert Ends(t, d.id, n + 1);
      }
    }
  }

  lemma {:induction false} NeverMeets(m: Tree, id: string, x: string, n: nat)
    requires ParentsKnown(m) && id !in m && id != "" && (x == "" || x in m)
    ensures Avoids(m, x, id, n)
  {
    forall k: nat | k <= n
      ensures Walk(m, x, k) != id
    {
      StaysKnown(m, x, k);
    }
  }

  lemma {:induction false} StaysKnown(m: Tree, x: string, k: nat)
    requires ParentsKnown(m) && (x == "" || x in m)
    ensures Walk(m, x, k) == "" || Walk(m, x, k) in m
    decreases k
  {
    if k > 0 {
      StaysKnown(m, Parent(m, x), k - 1);
    }
  }

  /** Departments of a valid tree reach the root, and so does the empty parent. */
  lemma ParentEnds(m: Tree, parentId: string) returns (n: nat)
    requires Valid(m) && (parentId == "" || parentId in m)
    ensures Ends(m, parentId, n)
  {
    if parentId == "" {
      n := 0;
    } else {
      n :| Ends(m, parentId, n);
    }
  }

  // ---- Interleaved saves ----

  /** No number of parent links leads from the department's new parent to the department. */
  ghost predicate OffTheWayUp(m: Tree, d: Department)
  {
    forall k: nat :: Walk(m, d.parentId, k) != d.id
  }

  ghost predicate Savable(m: Tree, d: Department) { d.id in m && (d.parentId == "" || d.parentId in m) }

  ghost predicate Linked(m: Tree) { Acyclic(m) && ParentsKnown(m) }

  /** Saving a relinked department keeps the tree acyclic exactly when it is off its parent's way up at that time. */
  lemma SaveExactly(m: Tree, d: Department)
    requires Linked(m) && Savable(m, d)
    ensures Acyclic(m[d.id := d]) <==> OffTheWayUp(m, d)
    ensures ParentsKnown(m[d.id := d])
  {
    var n: nat := 0;
    if d.parentId != "" {
      n :| Ends(m, d.parentId, n);
    }
    RelinkExactly(m, d, n);
    if Avoids(m, d.parentId, d.id, n) {
      forall k: nat
        ensures Walk(m, d.parentId, k) != d.id
      {
        AvoidsBeyond(m, d.parentId, d.id, n, if k > n then k else n);
      }
    }
  }

  /** Saves in the order they reach the repository, whenever each of them was checked. */
  ghost function Saved(m: Tree, saves: seq<Department>): Tree
    decreases |saves|
  {
    if saves == [] then m else Saved(m[saves[0].id := saves[0]], saves[1..])
  }

  ghost predicate AlwaysAcyclic(m: Tree, saves: seq<Department>)
    decreases |saves|
  {
    Acyclic(m) && (saves == [] || AlwaysAcyclic(m[saves[0].id := saves[0]], saves[1..]))
  }

  /** Every save finds its department off the way up of the tree as it is then. */
  ghost predicate AllOff(m: Tree, saves: seq<Department>)
    decreases |saves|
  {
    saves == [] || (OffTheWayUp(m, saves[0]) && AllOff(m[saves[0].id := saves[0]], saves[1..]))
  }

  /** Interleaved updates keep the tree acyclic at all times exactly when each save is off the way up when it lands. */
  lemma {:induction false} InterleavedExactly(m: Tree, saves: seq<Department>)
    requires Linked(m) && forall i :: 0 <= i < |saves| ==> Savable(m, saves[i])
    ensures AlwaysAcyclic(m, saves) <==> AllOff(m, saves)
    decreases |saves|
  {
    hide Acyclic, ParentsKnown, OffTheWayUp;
    if saves != [] {
      SaveExactly(m, saves[0]);
      if Acyclic(m[saves[0].id := saves[0]]) {
        InterleavedExactly(m[saves[0].id := saves[0]], saves[1..]);
      }
    }
  }

  /** What the check saw is still true at the save if no department on the parent's way up was relinked in between. */
  lemma {:induction false} CheckStillHolds(checked: Tree, m: Tree, d: Department)
    requires OffTheWayUp(checked, d)
    requires forall k: nat :: Parent(m, Walk(checked, d.parentId, k)) == Parent(checked, Walk(checked, d.parentId, k))
    ensures OffTheWayUp(m, d)
  {
    forall k: nat
      ensures Walk(m, d.parentId, k) != d.id
    {
      SameWalk(checked, m, d.parentId, k);
      assert Walk(checked, d.parentId, k) != d.id;
    }
  }

  lemma {:induction false} SameWalk(checked: Tree, m: Tree, x: string, k: nat)
    requires forall i: nat :: Parent(m, Walk(checked, x, i)) == Parent(checked, Walk(checked, x, i))
    ensures Walk(m, x, k) == Walk(checked, x, k)
    decreases k
  {
    if k > 0 {
      SameWalk(checked, m, x, k - 1);
      WalkSplit(m, x, k - 1, 1);
      WalkSplit(checked, x, k - 1, 1);
      var y := Walk(checked, x, k - 1);
      assert Walk(m, y, 1) == Walk(m, Parent(m, y), 0) && Walk(checked, y, 1) == Walk(checked, Parent(checked, y), 0);
    }
  }

  const ROOTS: Tree := map["a" := Department("a", "A", "A", ""), "b" := Department("b", "B", "B", "")]
  const A_UNDER_B := Department("a", "A", "A", "b")
  const B_UNDER_A := Department("b", "B", "B", "a")

  lemma RootsValid()
    ensures Valid(ROOTS)
  {
    assert Walk(ROOTS, "a", 1) == Walk(ROOTS, "", 0) && Walk(ROOTS, "b", 1) == Walk(ROOTS, "", 0);
    assert Ends(ROOTS, "a", 1) && Ends(ROOTS, "b", 1);
  }

  /** One root under another root is no cycle. */
  lemma OneUnderAnother(t: Tree, low: string, high: string)
    requires t.Keys == {low, high} && t[low].parentId == high && t[high].parentId == ""
    ensures Acyclic(t)
  {
    hide Acyclic;
    assert Walk(t, high, 1) == Walk(t, "", 0);
    assert Walk(t, low, 2) == Walk(t, high, 1);
    assert Ends(t, high, 1) && Ends(t, low, 2);
    TwoEnds(t, low, high);
  }

  lemma TwoEnds(t: Tree, low: string, high: string)
    requires t.Keys == {low, high} && Ends(t, high, 1) && Ends(t, low, 2)
    ensures Acyclic(t)
  {
  }

  lemma TwoInACircle(t: Tree, a: string, b: string)
    requires "" !in t && a in t && b in t && t[a].parentId == b && t[b].parentId == a
    ensures !Acyclic(t) && Walk(t, a, 2) == a
  {
    hide Acyclic;
    assert Walk(t, b, 1) == Walk(t, a, 0);
    assert Walk(t, a, 2) == Walk(t, b, 1);
    AcyclicMeansNoCycle(t);
  }

  /** Two updates, each acceptable to the tree both were checked against, close a cycle when both are saved. */
  lemma InterleavedCycle()
    ensures Valid(ROOTS) && Acyclic(ROOTS["a" := A_UNDER_B]) && Acyclic(ROOTS["b" := B_UNDER_A])
    ensures !Acyclic(Saved(ROOTS, [A_UNDER_B, B_UNDER_A]))
    ensures forall n: nat :: !Ends(Saved(ROOTS, [A_UNDER_B, B_UNDER_A]), "a", n)
  {
    hide Acyclic, Valid;
    RootsValid();
    var t, u := ROOTS["a" := A_UNDER_B], ROOTS["b" := B_UNDER_A];
    OneUnderAnother(t, "a", "b");
    OneUnderAnother(u, "b", "a");
    var both := t["b" := B_UNDER_A];
    TwoInACircle(both, "a", "b");
    forall n: nat
      ensures !Ends(both, "a", n)
    {
      CycleNeverEnds(both, "a", n, 2);
    }
    assert [A_UNDER_B, B_UNDER_A][1..] == [B_UNDER_A] && [B_UNDER_A][1..] == [];
    assert Saved(t, [B_UNDER_A]) == Saved(both, []);
  }

  // ---- The service ----

  class DepartmentService {
    var departments: Tree

    constructor ()
      ensures departments == map[] && Valid(departments)
    {
      departments := map[];
    }

    /**
     For an existing department, the check accepts a parent exactly when the parent is empty, or is
     known and putting the department under it keeps the tree acyclic. For a new one (empty id) it
     accepts every known parent. The ancestor walk ends because the remaining way up shrinks.
     */
    method ValidateParent(currentId: string, parentId: string) returns (error: Option<Error>)
      requires Valid(departments) && (currentId == "" || currentId in departments)
      ensures currentId == "" ==> (error == None <==> parentId == "" || parentId in departments)
      ensures currentId != "" ==>
                (error == None <==>
                   && (parentId == "" || parentId in departments)
                   && Acyclic(departments[currentId := departments[currentId].(id := currentId, parentId := parentId)]))
    {
      hide CodesUnique;
      ghost var m := departments;
      ghost var d := if currentId == "" then Department("", "", "", "")
          else m[currentId].(id := currentId, parentId := parentId);
      if parentId == "" {
        if currentId != "" {
          RelinkExactly(m, d, 0);
        }
        return None;
      }
      ghost var depth: nat := 0;
      if parentId in m {
        depth := ParentEnds(m, parentId);
        if currentId != "" {
          RelinkExactly(m, d, depth);
        }
      }
      if currentId != "" && parentId == currentId {
        assert Walk(m, parentId, 0) == currentId;
        return Some(SelfParent);
      }
      if parentId !in departments {
        return Some(ParentNotFound);
      }
      var cursor := parentId;
      ghost var gone: nat := 0;
      while cursor != ""
        invariant gone <= depth && cursor == Walk(m, parentId, gone) && (cursor == "" || cursor in m)
        invariant currentId != "" ==> Avoids(m, parentId, currentId, gone)
        decreases depth - gone
      {
        var parent := departments[cursor];
        WalkSplit(m, parentId, gone, 1);
        assert Walk(m, cursor, 1) == Walk(m, parent.parentId, 0);
        assert gone != depth;
        if currentId != "" && parent.parentId == currentId {
          return Some(CycleFound);
        }
        cursor := parent.parentId;
        gone := gone + 1;
      }
      if currentId != "" {
        AvoidsBeyond(m, parentId, currentId, gone, depth);
      }
      return None;
    }

    method EnsureUniqueCode(currentId: string, code: string) returns (error: Option<Error>)
      requires Valid(departments)
      ensures error == None <==> forall id :: id in departments && id != currentId ==> departments[id].code != code
    {
      hide Acyclic;
      var rest := departments.Keys;
      while rest != {}
        invariant rest <= departments.Keys
        invariant forall id :: id in departments && id !in rest && id != currentId ==> departments[id].code != code
        decreases |rest|
      {
        var id :| id in rest;
        if departments[id].code == code && departments[id].id != currentId {
          return Some(CodeTaken);
        }
        rest := rest - {id};
      }
      return None;
    }

    /** Create keeps the tree valid and adds exactly the new department, or changes nothing. */
    method CreateDepartment(name: string, code: string, parentId: string, newId: string) returns (error: Option<Error>)
      requires Valid(departments) && newId != "" && newId !in departments
      modifies this
      ensures Valid(departments)
      ensures error == None <==>
                && name != "" && code != "" && (parentId == "" || parentId in old(departments))
                && forall id :: id in old(departments) ==> old(departments)[id].code != code
      ensures departments == if error == None then old(departments)[newId := Department(newId, name, code, parentId)]
                else old(departments)
    {
      hide Acyclic;
      if name == "" {
        return Some(NameRequired);
      }
      if code == "" {
        return Some(CodeRequired);
      }
      error := ValidateParent("", parentId);
      if error.Some? {
        return;
      }
      error := EnsureUniqueCode("", code);
      if error.Some? {
        return;
      }
      AddLeaf(departments, Department(newId, name, code, parentId));
      departments := departments[newId := Department(newId, name, code, parentId)];
    }

    /** Update relinks exactly the named department, or changes nothing; the tree stays acyclic either way. */
    method UpdateDepartment(id: string, name: string, code: string, parentId: string) returns (error: Option<Error>)
      requires Valid(departments)
      modifies this
      ensures Valid(departments)
      ensures error == None <==>
                && id in old(departments) && name != "" && code != "" &&
                     (parentId == "" || parentId in old(departments))
                && Acyclic(old(departments)[id := old(departments)[id].(id := id, parentId := parentId)])
                && forall x :: x in old(departments) && x != id ==> old(departments)[x].code != code
      ensures departments == if error == None then old(departments)[id := Department(id, name, code, parentId)]
                else old(departments)
    {
      if id !in departments {
        return Some(NotFound);
      }
      if name == "" {
        return Some(NameRequired);
      }
      if code == "" {
        return Some(CodeRequired);
      }
      error := ValidateParent(id, parentId);
      if error.Some? {
        return;
      }
      error := EnsureUniqueCode(id, code);
      if error.Some? {
        return;
      }
      RelinkValid(departments, departments[id].(id := id, parentId := parentId), Department(id, name, code, parentId));
      departments := departments[id := Department(id, name, code, parentId)];
    }
  }

  lemma {:induction false} AvoidsBeyond(m: Tree, x: string, id: string, gone: nat, depth: nat)
    requires "" !in m && id != "" && gone <= depth && Walk(m, x, gone) == "" && Avoids(m, x, id, gone)
    ensures Avoids(m, x, id, depth)
  {
    forall k: nat | k <= depth
      ensures Walk(m, x, k) != id
    {
      if k > gone {
        WalkSplit(m, x, gone, k - gone);
        WalkFromRoot(m, k - gone);
      }
    }
  }

  lemma {:induction false} WalkSameParents(m: Tree, t: Tree, x: string, n: nat)
    requires forall y :: Parent(m, y) == Parent(t, y)
    ensures Walk(m, x, n) == Walk(t, x, n)
    decreases n
  {
    if n > 0 {
      WalkSameParents(m, t, Parent(m, x), n - 1);
    }
  }

  /** Names and codes do not matter to the shape of the tree. */
  lemma RelinkValid(m: Tree, linked: Department, d: Department)
    requires Valid(m) && d.id in m && linked.id == d.id && linked.parentId == d.parentId
    requires (d.parentId == "" || d.parentId in m)
    requires Acyclic(m[d.id := linked]) && forall x :: x in m && x != d.id ==> m[x].code != d.code
    ensures Valid(m[d.id := d])
  {
    var s, t := m[d.id := linked], m[d.id := d];
    forall x | x in t
      ensures exists n: nat :: Ends(t, x, n)
    {
      assert x in s;
      var n: nat :| Ends(s, x, n);
      WalkSameParents(s, t, x, n);
      assert Ends(t, x, n);
    }
  }
}
