/** The tree the organisation chart draws: roots first, each unit under its parent when that is present. */
module OrgTree {
  import opened Common
  import opened OrgForest

  datatype Drawing = Drawing(roots: seq<string>, children: map<string, seq<string>>)

  /** The database's listing of every unit, by code. */
  ghost predicate ListsUnits(listing: seq<string>, units: Units) {
    NoDuplicates(listing) && forall id :: id in listing <==> id in units
  }

  /** The unit another is drawn under: its parent, when the parent exists. */
  function DrawnUnder(units: Units, id: string): Option<string> {
    match ParentOf(units, id) case None => None case Some(p) => if p in units then Some(p) else None
  }

  /** The units of a listing drawn under a place, in listing order. */
  function Under(listing: seq<string>, units: Units, place: Option<string>): seq<string> {
    if listing == [] then [] else
      Under(listing[..|listing| - 1], units, place)
      + if DrawnUnder(units, listing[|listing| - 1]) == place then [listing[|listing| - 1]] else []
  }

  lemma {:induction false} UnderIs(listing: seq<string>, units: Units, place: Option<string>)
    requires NoDuplicates(listing)
    ensures NoDuplicates(Under(listing, units, place))
    ensures forall id :: id in Under(listing, units, place) <==> id in listing && DrawnUnder(units, id) == place
  {
    if listing == [] {
    } else {
      var n := |listing| - 1;
      assert listing == listing[..n] + [listing[n]] && listing[n] !in listing[..n];
      UnderIs(listing[..n], units, place);
    }
  }

  ghost function Drawn(listing: seq<string>, units: Units): Drawing {
    Drawing(Under(listing, units, None), map p | p in units :: Under(listing, units, Some(p)))
  }

  lemma UnderNext(listing: seq<string>, units: Units, i: nat, place: Option<string>)
    requires i < |listing|
    ensures Under(listing[..i + 1], units, place)
            == if DrawnUnder(units, listing[i]) == place then Under(listing[..i], units, place) + [listing[i]]
               else Under(listing[..i], units, place)
  {
    assert listing[..i + 1][..i] == listing[..i];
  }

  lemma DrawnNext(listing: seq<string>, units: Units, i: nat)
    requires i < |listing|
    ensures var d, id := Drawn(listing[..i], units), listing[i];
            Drawn(listing[..i + 1], units)
            == match DrawnUnder(units, id)
               case None => d.(roots := d.roots + [id])
               case Some(p) => d.(children := d.children[p := d.children[p] + [id]])
  {
    var before, after, id := Drawn(listing[..i], units), Drawn(listing[..i + 1], units), listing[i];
    UnderNext(listing, units, i, None);
    forall p | p in units
      ensures after.children[p] == if DrawnUnder(units, id) == Some(p) then before.children[p] + [id]
              else before.children[p]
    {
      UnderNext(listing, units, i, Some(p));
    }
    match DrawnUnder(units, id)
    case None => assert after.children == before.children;
    case Some(p) => assert after.children == before.children[p := before.children[p] + [id]];
  }

  /** Each unit goes to its parent's children or to the roots, in one pass over the listing. */
  method OrgUnitTree(listing: seq<string>, units: Units) returns (d: Drawing)
    requires ListsUnits(listing, units)
    ensures d == Drawn(listing, units)
  {
    var roots, children := [], map p | p in units :: [];
    for i := 0 to |listing|
      invariant Drawing(roots, children) == Drawn(listing[..i], units)
    {
      assert listing[i] in listing;
      DrawnNext(listing, units, i);
      roots, children := Place(units, listing[i], roots, children);
    }
    assert listing[..|listing|] == listing;
    d := Drawing(roots, children);
  }

  method Place(units: Units, id: string, roots0: seq<string>, children0: map<string, seq<string>>)
    returns (roots: seq<string>, children: map<string, seq<string>>)
    requires id in units && children0.Keys == units.Keys
    ensures roots == if DrawnUnder(units, id) == None then roots0 + [id] else roots0
    ensures children == match DrawnUnder(units, id)
                        case None => children0 case Some(p) => children0[p := children0[p] + [id]]
  {
    roots, children := roots0, children0;
    var parentId := Parent(units[id].parentId);
    if parentId.Some? && parentId.value in units {
      children := children[parentId.value := children[parentId.value] + [id]];
    } else {
      roots := roots + [id];
    }
  }

  /** Listed among the roots, or among a unit's children. */
  predicate ListedAt(d: Drawing, place: Option<string>, id: string) {
    match place
    case None => id in d.roots
    case Some(p) => p in d.children && id in d.children[p]
  }

  /** Each unit is listed where it belongs and nowhere else. */
  ghost predicate Faithful(d: Drawing, units: Units) {
    forall place, id :: ListedAt(d, place, id) <==> id in units && DrawnUnder(units, id) == place
  }

  lemma DrawnFaithful(listing: seq<string>, units: Units)
    requires ListsUnits(listing, units)
    ensures Faithful(Drawn(listing, units), units)
  {
    forall place, id
      ensures ListedAt(Drawn(listing, units), place, id) <==> id in units && DrawnUnder(units, id) == place
    {
      UnderIs(listing, units, place);
    }
  }

  /** No list holds a unit twice. */
  lemma ListedOnce(listing: seq<string>, units: Units, p: string)
    requires ListsUnits(listing, units)
    ensures NoDuplicates(Drawn(listing, units).roots)
    ensures p in units ==> NoDuplicates(Drawn(listing, units).children[p])
  {
    UnderIs(listing, units, None);
    UnderIs(listing, units, Some(p));
  }

  /** A way from a root down to a unit; its last unit is one occurrence in the tree. */
  ghost predicate TreePath(d: Drawing, path: seq<string>) {
    path != [] &&
    var n := |path| - 1;
    if n == 0 then ListedAt(d, None, path[0])
    else TreePath(d, path[..n]) && ListedAt(d, Some(path[n - 1]), path[n])
  }

  lemma ExtendPath(d: Drawing, id: string, above: seq<string>)
    requires if above == [] then ListedAt(d, None, id)
             else TreePath(d, above) && ListedAt(d, Some(above[|above| - 1]), id)
    ensures TreePath(d, above + [id])
  {
    assert (above + [id])[..|above|] == above;
  }

  lemma {:induction false} PathUnique(d: Drawing, units: Units, path: seq<string>, other: seq<string>)
    requires Faithful(d, units) && TreePath(d, path) && TreePath(d, other)
    requires path[|path| - 1] == other[|other| - 1]
    ensures path == other
    decreases |path|
  {
    var n, m := |path| - 1, |other| - 1;
    if n <= 0 {
    } else {
      assert DrawnUnder(units, path[n]) == Some(path[n - 1]);
      PathUnique(d, units, path[..n], other[..m]);
      assert path == path[..n] + [path[n]] && other == other[..m] + [other[m]];
    }
  }

  lemma {:induction false} PathEnds(d: Drawing, units: Units, path: seq<string>)
    requires Faithful(d, units) && TreePath(d, path)
    ensures path[|path| - 1] in units && Ends(units, path[|path| - 1])
    decreases |path|
  {
    var n := |path| - 1;
    assert Up(units, path[n], 0) == Some(path[n]);
    assert Up(units, path[n], 1) == ParentOf(units, path[n]);
    if n > 0 {
      PathEnds(d, units, path[..n]);
      EndsAbove(units, path[n], 1, path[n - 1]);
    } else {
      assert Up(units, path[n], 2) == None;
    }
  }

  lemma ParentCloser(units: Units, id: string, n: nat, p: string)
    requires ParentOf(units, id) == Some(p) && Up(units, id, n) == None
    ensures n > 0 && Up(units, p, n - 1) == None
  {
    assert Up(units, id, 0) == Some(id);
    assert Up(units, id, 1) == Some(p);
    UpAdds(units, id, p, 1, n - 1);
  }

  lemma {:induction false} EndsPath(d: Drawing, units: Units, id: string, n: nat) returns (path: seq<string>)
    requires Faithful(d, units) && id in units && Up(units, id, n) == None
    ensures OccursBy(d, id, path)
    decreases n
  {
    var above := [];
    if DrawnUnder(units, id).None? {
    } else {
      var p := DrawnUnder(units, id).value;
      ParentCloser(units, id, n, p);
      above := EndsPath(d, units, p, n - 1);
    }
    ExtendPath(d, id, above);
    path := above + [id];
  }

  ghost predicate OccursBy(d: Drawing, id: string, path: seq<string>) { TreePath(d, path) && path[|path| - 1] == id }

  ghost predicate Occurs(d: Drawing, id: string) { exists path :: OccursBy(d, id, path) }

  /** A unit occurs in the tree exactly when its chain of parents ends, and then by one path only. */
  lemma OccursOnce(listing: seq<string>, units: Units, id: string)
    requires ListsUnits(listing, units) && id in units
    ensures Occurs(Drawn(listing, units), id) <==> Ends(units, id)
    ensures forall p, q :: OccursBy(Drawn(listing, units), id, p) && OccursBy(Drawn(listing, units), id, q) ==> p == q
  {
    var d := Drawn(listing, units);
    DrawnFaithful(listing, units);
    if Ends(units, id) {
      var n: nat :| Up(units, id, n) == None;
      var path := EndsPath(d, units, id, n);
    }
    if Occurs(d, id) {
      var path :| OccursBy(d, id, path);
      PathEnds(d, units, path);
    }
    forall p, q | OccursBy(d, id, p) && OccursBy(d, id, q) ensures p == q { PathUnique(d, units, p, q); }
  }

  /** In a forest every unit occurs. */
  lemma ForestOccurs(listing: seq<string>, units: Units, id: string)
    requires ListsUnits(listing, units) && Forest(units) && id in units
    ensures Occurs(Drawn(listing, units), id)
  {
    OccursOnce(listing, units, id);
  }
}
