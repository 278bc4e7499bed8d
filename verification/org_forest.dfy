/** Organisation units and their parents: ancestor chains, loops, and the tree drawn from them. */
module OrgForest {
  import opened Common

  datatype Unit = Unit(code: string, name: string, kind: string, parentId: Option<string>)

  type Units = map<string, Unit>

  /** An absent parent and the empty string both mean a root. */
  function Parent(parentId: Option<string>): Option<string> { if parentId == Some("") then None else parentId }

  function ParentOf(units: Units, id: string): Option<string> {
    if id in units then Parent(units[id].parentId) else None
  }

  /** The ancestor n levels up, while there is one. */
  function Up(units: Units, id: string, n: nat): Option<string> {
    if n == 0 then Some(id) else
      match Up(units, id, n - 1) case None => None case Some(a) => ParentOf(units, a)
  }

  ghost predicate Reaches(units: Units, id: string, target: string) {
    exists n: nat :: Up(units, id, n) == Some(target)
  }

  /** The chain of ancestors ends. */
  ghost predicate Ends(units: Units, id: string) { exists n: nat :: Up(units, id, n) == None }

  ghost predicate Forest(units: Units) {
    && "" !in units
    && (forall id :: id in units ==> Ends(units, id))
    && (forall id :: id in units && ParentOf(units, id).Some? ==> ParentOf(units, id).value in units)
  }

  // ---- chains -------------------------------------------------------------------------------------

  lemma {:induction false} UpAdds(units: Units, id: string, a: string, m: nat, n: nat)
    requires Up(units, id, m) == Some(a)
    ensures Up(units, id, m + n) == Up(units, a, n)
  {
    if n <= 0 {
    } else {
      UpAdds(units, id, a, m, n - 1);
    }
  }

  lemma {:induction false} UpStaysNone(units: Units, id: string, m: nat, n: nat)
    requires m <= n && Up(units, id, m) == None
    ensures Up(units, id, n) == None
    decreases n
  {
    if m >= n {
    } else {
      UpStaysNone(units, id, m, n - 1);
    }
  }

  /** A chain that comes back to a unit never ends and never leaves what it has seen. */
  lemma {:induction false} LoopRepeats(units: Units, id: string, i: nat, j: nat, n: nat) returns (k: nat)
    requires i < j && Up(units, id, i) == Up(units, id, j) && Up(units, id, i).Some?
    ensures k < j && Up(units, id, k) == Up(units, id, n)
    decreases n
  {
    if n < j {
      k := n;
    } else {
      var a := Up(units, id, i).value;
      UpAdds(units, id, a, i, n - j);
      UpAdds(units, id, a, j, n - j);
      k := LoopRepeats(units, id, i, j, i + (n - j));
    }
  }

  lemma LoopNeverEnds(units: Units, id: string, i: nat, j: nat)
    requires i < j && Up(units, id, i) == Up(units, id, j) && Up(units, id, i).Some?
    ensures !Ends(units, id)
  {
    forall n ensures Up(units, id, n).Some? {
      var k := LoopRepeats(units, id, i, j, n);
      if Up(units, id, k).None? { UpStaysNone(units, id, k, j); }
    }
  }

  /** No unit of a forest is its own ancestor. */
  lemma ForestHasNoLoop(units: Units, id: string, n: nat)
    requires Forest(units) && id in units && n > 0
    ensures Up(units, id, n) != Some(id)
  {
    if Up(units, id, n) == Some(id) { LoopNeverEnds(units, id, 0, n); }
  }

  /** The first n units of a chain. */
  ghost function Seen(units: Units, id: string, n: nat): set<string> {
    if n == 0 then {} else
      Seen(units, id, n - 1) + match Up(units, id, n - 1) case None => {} case Some(a) => {a}
  }

  lemma SeenNext(units: Units, id: string, n: nat, a: string)
    requires Up(units, id, n) == Some(a)
    ensures Seen(units, id, n + 1) == Seen(units, id, n) + {a} && Up(units, id, n + 1) == ParentOf(units, a)
    ensures Reaches(units, id, a)
  {
  }

  lemma {:induction false} SeenHas(units: Units, id: string, i: nat, n: nat)
    requires i < n && Up(units, id, i).Some?
    ensures Up(units, id, i).value in Seen(units, id, n)
    decreases n
  {
    if i >= n - 1 {
    } else {
      SeenHas(units, id, i, n - 1);
    }
  }

  lemma {:induction false} SeenAt(units: Units, id: string, n: nat, a: string) returns (i: nat)
    requires a in Seen(units, id, n)
    ensures i < n && Up(units, id, i) == Some(a)
  {
    if a in Seen(units, id, n - 1) { i := SeenAt(units, id, n - 1, a); } else { i := n - 1; }
  }

  /** A walk that has ended, or come back to a unit already seen, has met every unit the chain reaches. */
  lemma SeenAll(units: Units, id: string, n: nat, target: string)
    requires Up(units, id, n).Some? ==> Up(units, id, n).value in Seen(units, id, n)
    ensures Reaches(units, id, target) <==> target in Seen(units, id, n)
  {
    if target in Seen(units, id, n) { var i := SeenAt(units, id, n, target); }
    if Reaches(units, id, target) {
      var k: nat :| Up(units, id, k) == Some(target);
      if k >= n {
        if Up(units, id, n).None? {
          UpStaysNone(units, id, n, k);
        } else {
          var i := SeenAt(units, id, n, Up(units, id, n).value);
          k := LoopRepeats(units, id, i, n, k);
        }
      }
      SeenHas(units, id, k, n);
    }
  }

  ghost function Unseen(units: Units, id: string, n: nat): nat { |units.Keys - Seen(units, id, n)| }

  /** Each step of a walk that meets a new unit leaves fewer unseen, or leaves the table. */
  lemma UnseenShrinks(units: Units, id: string, n: nat)
    requires Up(units, id, n).Some? && Up(units, id, n).value !in Seen(units, id, n)
    ensures Unseen(units, id, n + 1) < Unseen(units, id, n)
            || (Unseen(units, id, n + 1) == Unseen(units, id, n) && Up(units, id, n + 1).None?)
  {
    var a := Up(units, id, n).value;
    if a in units {
      assert units.Keys - Seen(units, id, n) == units.Keys - Seen(units, id, n + 1) + {a};
    } else {
      assert units.Keys - Seen(units, id, n) == units.Keys - Seen(units, id, n + 1);
    }
  }

  ghost predicate Loops(units: Units, id: string) {
    exists i: nat, j: nat :: i < j && Up(units, id, i).Some? && Up(units, id, j) == Up(units, id, i)
  }

  /** A chain ends exactly when it does not come back on itself. */
  lemma EndsOrLoops(units: Units, id: string)
    ensures Ends(units, id) <==> !Loops(units, id)
  {
    if Loops(units, id) {
      var i: nat, j: nat :| i < j && Up(units, id, i).Some? && Up(units, id, j) == Up(units, id, i);
      LoopNeverEnds(units, id, i, j);
    } else {
      var n := WalkUp(units, id, 0);
      if Up(units, id, n).Some? { var i := SeenAt(units, id, n, Up(units, id, n).value); }
    }
  }

  /** Walking up reaches the end or a unit already seen. */
  lemma WalkUp(units: Units, id: string, n: nat) returns (m: nat)
    ensures Up(units, id, m).Some? ==> Up(units, id, m).value in Seen(units, id, m)
    decreases Unseen(units, id, n), if Up(units, id, n).Some? then 1 else 0
  {
    m := n;
    if Up(units, id, n).Some? && Up(units, id, n).value !in Seen(units, id, n) {
      UnseenShrinks(units, id, n);
      m := WalkUp(units, id, n + 1);
    }
  }

  // ---- changes ------------------------------------------------------------------------------------

  function WithParent(units: Units, id: string, parentId: Option<string>): Units
    requires id in units
  {
    units[id := units[id].(parentId := parentId)]
  }

  /** Chains that do not pass through a unit are the same under any parent of it. */
  lemma {:induction false} SameChain(units: Units, units': Units, id: string, x: string, n: nat)
    requires forall a :: a != id ==> ParentOf(units', a) == ParentOf(units, a)
    requires forall i :: 0 <= i < n ==> Up(units, x, i) != Some(id)
    ensures Up(units', x, n) == Up(units, x, n)
  {
    if n <= 0 {
    } else {
      SameChain(units, units', id, x, n - 1);
    }
  }

  lemma {:induction false} FirstVisit(units: Units, x: string, id: string, k: nat) returns (n: nat)
    requires Up(units, x, k) == Some(id)
    ensures n <= k && Up(units, x, n) == Some(id) && forall i :: 0 <= i < n ==> Up(units, x, i) != Some(id)
    decreases k
  {
    if exists i :: 0 <= i < k && Up(units, x, i) == Some(id) {
      var i :| 0 <= i < k && Up(units, x, i) == Some(id);
      n := FirstVisit(units, x, id, i);
    } else {
      n := k;
    }
  }

  lemma EndsAbove(units: Units, x: string, k: nat, a: string)
    requires Up(units, x, k) == Some(a) && Ends(units, a)
    ensures Ends(units, x)
  {
    var n: nat :| Up(units, a, n) == None;
    UpAdds(units, x, a, k, n);
    assert Up(units, x, k + n) == None;
  }

  /** A chain that never meets the changed unit still ends. */
  lemma EndsUnmet(units: Units, units': Units, id: string, x: string)
    requires forall a :: a != id ==> ParentOf(units', a) == ParentOf(units, a)
    requires Ends(units, x) && !Reaches(units, x, id)
    ensures Ends(units', x)
  {
    var n: nat :| Up(units, x, n) == None;
    SameChain(units, units', id, x, n);
    assert Up(units', x, n) == None;
  }

  lemma ReparentEnds(units: Units, id: string, parentId: Option<string>, x: string)
    requires Forest(units) && id in units && x in units
    requires Parent(parentId).Some? ==> Parent(parentId).value in units && !Reaches(units, Parent(parentId).value, id)
    ensures Ends(WithParent(units, id, parentId), x)
  {
    var units' := WithParent(units, id, parentId);
    assert ParentOf(units', id) == Parent(parentId);
    assert Ends(units', id) by {
      assert Up(units', id, 0) == Some(id);
      assert Up(units', id, 1) == Parent(parentId);
      if Parent(parentId).Some? {
        EndsUnmet(units, units', id, Parent(parentId).value);
        EndsAbove(units', id, 1, Parent(parentId).value);
      }
    }
    if Reaches(units, x, id) {
      var k: nat :| Up(units, x, k) == Some(id);
      k := FirstVisit(units, x, id, k);
      SameChain(units, units', id, x, k);
      EndsAbove(units', x, k, id);
    } else {
      EndsUnmet(units, units', id, x);
    }
  }

  /** A move keeps the forest exactly when the new parent exists and is neither the unit nor below it. */
  lemma ReparentKeepsForest(units: Units, id: string, parentId: Option<string>)
    requires Forest(units) && id in units
    ensures Forest(WithParent(units, id, parentId)) <==>
            (Parent(parentId).Some? ==> Parent(parentId).value in units && !Reaches(units, Parent(parentId).value, id))
  {
    var units' := WithParent(units, id, parentId);
    assert ParentOf(units', id) == Parent(parentId);
    if Parent(parentId).Some? && Reaches(units, Parent(parentId).value, id) {
      var p := Parent(parentId).value;
      var k: nat :| Up(units, p, k) == Some(id);
      k := FirstVisit(units, p, id, k);
      SameChain(units, units', id, p, k);
      assert Up(units', id, 0) == Some(id);
      assert Up(units', id, 1) == Some(p);
      UpAdds(units', id, p, 1, k);
      LoopNeverEnds(units', id, 0, 1 + k);
    } else if Parent(parentId).Some? ==> Parent(parentId).value in units {
      forall x | x in units' ensures Ends(units', x) { ReparentEnds(units, id, parentId, x); }
      assert forall x :: x != id ==> ParentOf(units', x) == ParentOf(units, x);
    }
  }

  lemma {:induction false} StaysInside(units: Units, x: string, n: nat)
    requires Forest(units) && x in units
    ensures Up(units, x, n).Some? ==> Up(units, x, n).value in units
  {
    if n <= 0 {
    } else {
      StaysInside(units, x, n - 1);
    }
  }

  lemma AddKeepsForest(units: Units, id: string, u: Unit)
    requires Forest(units) && id !in units && id != ""
    requires Parent(u.parentId).Some? ==> Parent(u.parentId).value in units
    ensures Forest(units[id := u])
  {
    var units' := units[id := u];
    forall x | x in units ensures Ends(units', x) {
      forall n ensures Up(units, x, n) != Some(id) { StaysInside(units, x, n); }
      EndsUnmet(units, units', id, x);
    }
    assert forall x :: x != id ==> ParentOf(units', x) == ParentOf(units, x);
    assert Up(units', id, 0) == Some(id);
    assert Up(units', id, 1) == Parent(u.parentId);
    if Parent(u.parentId).Some? { EndsAbove(units', id, 1, Parent(u.parentId).value); }
  }

  lemma {:induction false} LeafUnmet(units: Units, id: string, x: string, n: nat)
    requires x != id && forall c :: c in units ==> units[c].parentId != Some(id)
    ensures Up(units, x, n) != Some(id)
  {
    if n <= 0 {
    } else {
      LeafUnmet(units, id, x, n - 1);
    }
  }

  lemma RemoveKeepsForest(units: Units, id: string)
    requires Forest(units) && forall c :: c in units ==> units[c].parentId != Some(id)
    ensures Forest(units - {id})
  {
    var units' := units - {id};
    assert forall x :: x != id ==> ParentOf(units', x) == ParentOf(units, x);
    forall x | x in units' ensures Ends(units', x) {
      forall n ensures Up(units, x, n) != Some(id) { LeafUnmet(units, id, x, n); }
      EndsUnmet(units, units', id, x);
    }
  }

  /** Renaming changes no chain. */
  lemma SameParentsKeepForest(units: Units, units': Units)
    requires Forest(units) && units.Keys == units'.Keys && forall a :: ParentOf(units', a) == ParentOf(units, a)
    ensures Forest(units')
  {
    forall x | x in units' ensures Ends(units', x) {
      forall n ensures Up(units, x, n) != Some("") { StaysInside(units, x, n); }
      EndsUnmet(units, units', "", x);
    }
  }
}
