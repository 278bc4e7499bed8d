/** Effective permissions from role bindings, the check with its amount ceilings, and the binding preview. */
module RoleBindings {
  import opened Common
  import opened PermissionMatch

  datatype Person = Person(id: string, userRef: Option<string>)

  datatype SubjectType = User | Position | Group | OrgUnit

  datatype Binding = Binding(subjectType: SubjectType, subjectId: string, roleCode: string)

  /** A policy's condition: none, or one that may carry a ceiling on amounts. */
  datatype Condition = Unconditional | Condition(maxAmount: Option<real>)

  datatype Policy = Policy(roleCode: string, permissions: seq<string>, condition: Condition)

  /** The tables as the database lists them; holders and members by position and group id. */
  datatype Tables = Tables(
    people: seq<Person>, holders: map<string, Option<string>>, members: map<string, set<string>>,
    bindings: seq<Binding>, policies: seq<Policy>)

  datatype Error = SubjectRequired | RoleRequired | UnknownRole | SubjectNotFound

  // ---- who a session user is -----------------------------------------------------------------------

  function FindPerson(people: seq<Person>, want: Person -> bool): Option<Person> {
    if people == [] then None else if want(people[0]) then Some(people[0]) else FindPerson(people[1..], want)
  }

  /** The first person whose external reference names the user, else the one whose id does. */
  function PersonForUser(people: seq<Person>, userId: string): Option<Person> {
    match FindPerson(people, (p: Person) => p.userRef == Some(userId))
    case Some(p) => Some(p)
    case None => FindPerson(people, (p: Person) => p.id == userId)
  }

  // ---- effective permissions -----------------------------------------------------------------------

  predicate Applies(t: Tables, personId: string, b: Binding) {
    match b.subjectType
    case User => b.subjectId == personId
    case Position => b.subjectId in t.holders && t.holders[b.subjectId] == Some(personId)
    case Group => b.subjectId in t.members && personId in t.members[b.subjectId]
    case OrgUnit => false
  }

  ghost function RolesOf(t: Tables, personId: string): set<string> {
    set b | b in t.bindings && Applies(t, personId, b) :: b.roleCode
  }

  ghost function PermissionsOf(policies: seq<Policy>, roles: set<string>): set<string> {
    set p, perm | p in policies && p.roleCode in roles && perm in p.permissions :: perm
  }

  /** The last listed policy of a role that has a condition gives the role's condition. */
  function ConditionOf(policies: seq<Policy>, role: string): Condition {
    if policies == [] then Unconditional else
      var p := policies[|policies| - 1];
      if p.roleCode == role && p.condition.Condition? then p.condition
      else ConditionOf(policies[..|policies| - 1], role)
  }

  ghost function Ceilings(policies: seq<Policy>, roles: set<string>): set<real> {
    set role | role in roles && ConditionOf(policies, role).Condition? && ConditionOf(policies, role).maxAmount.Some?
      :: ConditionOf(policies, role).maxAmount.value
  }

  /** The roles of a session user: none when no person maps to it. */
  ghost function RolesFor(t: Tables, userId: string): set<string> {
    match PersonForUser(t.people, userId) case None => {} case Some(p) => RolesOf(t, p.id)
  }

  ghost function Effective(t: Tables, userId: string): set<string> { PermissionsOf(t.policies, RolesFor(t, userId)) }

  ghost predicate WithinCeilings(ceilings: set<real>, amount: Option<real>) {
    amount.None? || ceilings == {} || exists c :: c in ceilings && amount.value <= c
  }

  /** The check: a granted permission, and an amount some ceiling allows when there are any. */
  ghost predicate Can(t: Tables, userId: string, permission: string, amount: Option<real>) {
    Matches(Effective(t, userId), permission) && WithinCeilings(Ceilings(t.policies, RolesFor(t, userId)), amount)
  }

  // ---- a new binding -------------------------------------------------------------------------------

  function Bound(t: Tables, b: Binding): Tables { t.(bindings := t.bindings + [b]) }

  ghost function RolePermissions(t: Tables, role: string): set<string> { PermissionsOf(t.policies, {role}) }

  lemma RolesBound(t: Tables, b: Binding, userId: string)
    ensures RolesFor(Bound(t, b), userId)
            == match PersonForUser(t.people, userId)
               case Some(p) => if Applies(t, p.id, b) then RolesFor(t, userId) + {b.roleCode} else RolesFor(t, userId)
               case None => {}
  {
    var t' := Bound(t, b);
    if PersonForUser(t.people, userId).Some? {
      var id := PersonForUser(t.people, userId).value.id;
      forall c
        ensures c in t'.bindings && Applies(t', id, c)
                <==> (c in t.bindings && Applies(t, id, c)) || (c == b && Applies(t, id, b))
      {
      }
      forall r ensures r in RolesOf(t', id) <==> r in RolesOf(t, id) || (r == b.roleCode && Applies(t, id, b)) {
        if r in RolesOf(t', id) { var c :| c in t'.bindings && Applies(t', id, c) && c.roleCode == r; }
        if r in RolesOf(t, id) {
          var c :| c in t.bindings && Applies(t, id, c) && c.roleCode == r;
          assert c in t'.bindings && Applies(t', id, c);
        }
        if r == b.roleCode && Applies(t, id, b) { assert b in t'.bindings && Applies(t', id, b); }
      }
    }
  }

  lemma PermissionsUnion(policies: seq<Policy>, roles: set<string>, role: string)
    ensures PermissionsOf(policies, roles + {role}) == PermissionsOf(policies, roles) + PermissionsOf(policies, {role})
  {
    forall perm
      ensures perm in PermissionsOf(policies, roles + {role}) <==>
              perm in PermissionsOf(policies, roles) || perm in PermissionsOf(policies, {role})
    {
    }
  }

  /** After a binding a user of its subject holds the role's permissions besides the old ones; every other
      user is untouched. */
  lemma BindingAnswers(t: Tables, b: Binding, userId: string, requested: string)
    ensures Matches(Effective(Bound(t, b), userId), requested) <==>
            Matches(Effective(t, userId), requested)
            || (PersonForUser(t.people, userId).Some? && Applies(t, PersonForUser(t.people, userId).value.id, b)
                && Matches(RolePermissions(t, b.roleCode), requested))
  {
    RolesBound(t, b, userId);
    if PersonForUser(t.people, userId).Some? && Applies(t, PersonForUser(t.people, userId).value.id, b) {
      PermissionsUnion(t.policies, RolesFor(t, userId), b.roleCode);
      MatchesUnion(Effective(t, userId), RolePermissions(t, b.roleCode), requested);
    }
  }

  lemma CeilingsUnion(policies: seq<Policy>, roles: set<string>, role: string)
    ensures Ceilings(policies, roles + {role}) == Ceilings(policies, roles) + Ceilings(policies, {role})
  {
    forall c
      ensures c in Ceilings(policies, roles + {role})
              <==> c in Ceilings(policies, roles) || c in Ceilings(policies, {role})
    {
      if c in Ceilings(policies, roles + {role}) {
        var r :| r in roles + {role} && ConditionOf(policies, r) == Condition(Some(c));
        assert r in roles || r in {role};
      }
      if c in Ceilings(policies, roles) {
        var r :| r in roles && ConditionOf(policies, r) == Condition(Some(c));
        assert r in roles + {role};
      }
      if c in Ceilings(policies, {role}) { assert role in roles + {role} && role in {role}; }
    }
  }

  // ---- the preview ---------------------------------------------------------------------------------

  datatype Preview = Preview(rolePermissions: seq<string>, willAdd: seq<string>, alreadyHas: seq<string>)

  function Elements(s: seq<string>): set<string> { set x | x in s }

  ghost predicate NoNetChange(t: Tables, subjectId: string, role: string) {
    AllHeld(Effective(t, subjectId), RolePermissions(t, role))
  }

  /** When the preview promises no change for a person it looked up as itself, and that person's patterns
      are closed, binding the role to it changes no permission answer of any session user. */
  lemma NoNetChangeHolds(t: Tables, subject: Person, role: string, userId: string, requested: string)
    requires PersonForUser(t.people, subject.id) == Some(subject) && NoNetChange(t, subject.id, role)
    requires Closed(Effective(t, subject.id))
    ensures Matches(Effective(Bound(t, Binding(User, subject.id, role)), userId), requested)
            <==> Matches(Effective(t, userId), requested)
  {
    var b := Binding(User, subject.id, role);
    BindingAnswers(t, b, userId, requested);
    if PersonForUser(t.people, userId).Some? && Applies(t, PersonForUser(t.people, userId).value.id, b) {
      assert RolesFor(t, userId) == RolesFor(t, subject.id);
      HeldChangesNothing(Effective(t, subject.id));
      var held, more := Effective(t, subject.id), RolePermissions(t, role);
      assert SameAnswers(held, held + more);
      MatchesUnion(held, more, requested);
    }
  }

  predicate DistinctIds(people: seq<Person>) { forall i, j :: 0 <= i < j < |people| ==> people[i].id != people[j].id }

  lemma {:induction false} FoundPerson(people: seq<Person>, want: Person -> bool)
    ensures FindPerson(people, want).Some?
            ==> FindPerson(people, want).value in people && want(FindPerson(people, want).value)
    ensures FindPerson(people, want).None? ==> forall p :: p in people ==> !want(p)
  {
    if people == [] {
    } else {
      FoundPerson(people[1..], want);
      assert people == [people[0]] + people[1..];
    }
  }

  /** A user leads to a person through that person's reference or id. */
  lemma UserLeadsTo(people: seq<Person>, userId: string)
    ensures PersonForUser(people, userId).Some?
            ==> var p := PersonForUser(people, userId).value;
                p in people && (p.userRef == Some(userId) || p.id == userId)
    ensures PersonForUser(people, userId).None? ==> forall p :: p in people ==> p.id != userId
  {
    FoundPerson(people, (p: Person) => p.userRef == Some(userId));
    FoundPerson(people, (p: Person) => p.id == userId);
  }

  lemma SameId(people: seq<Person>, p: Person, q: Person)
    requires DistinctIds(people) && p in people && q in people && p.id == q.id
    ensures p == q
  {
  }

  /** Binding the role to the person changes the answer to no one, when the preview says no net change. */
  ghost predicate PromiseKept(t: Tables, subjectId: string, role: string, userId: string, requested: string) {
    NoNetChange(t, subjectId, role) && Closed(Effective(t, subjectId)) ==>
      (Matches(Effective(Bound(t, Binding(User, subjectId, role)), userId), requested)
       <==> Matches(Effective(t, userId), requested))
  }

  ghost predicate AlwaysKept(people: seq<Person>, subjectId: string) {
    forall t: Tables, role, userId, requested :: t.people == people
        ==> PromiseKept(t, subjectId, role, userId, requested)
  }

  /** Someone else is found under the person's id, and the person under its own reference. */
  predicate Shadowed(people: seq<Person>, s: Person) {
    PersonForUser(people, s.id) != Some(s) && s.userRef.Some? && PersonForUser(people, s.userRef.value) == Some(s)
  }

  /** The preview of a binding to a person keeps its promise, for all tables, roles, users and permissions,
      exactly when the person is not shadowed. */
  lemma PromiseExactly(people: seq<Person>, s: Person)
    requires s in people && DistinctIds(people)
    ensures AlwaysKept(people, s.id) <==> !Shadowed(people, s)
  {
    if Shadowed(people, s) {
      var t := ShadowTables(people, s);
      assert t.people == people && !PromiseKept(t, s.id, "R", s.userRef.value, "x");
    } else {
      forall t: Tables, role, userId, requested | t.people == people
        ensures PromiseKept(t, s.id, role, userId, requested)
      {
        if NoNetChange(t, s.id, role) && Closed(Effective(t, s.id)) { UnshadowedKept(t, s, role, userId, requested); }
      }
    }
  }

  lemma UnshadowedKept(t: Tables, s: Person, role: string, userId: string, requested: string)
    requires s in t.people && DistinctIds(t.people) && !Shadowed(t.people, s)
    requires NoNetChange(t, s.id, role) && Closed(Effective(t, s.id))
    ensures Matches(Effective(Bound(t, Binding(User, s.id, role)), userId), requested)
            <==> Matches(Effective(t, userId), requested)
  {
    if PersonForUser(t.people, s.id) == Some(s) {
      NoNetChangeHolds(t, s, role, userId, requested);
    } else {
      UserLeadsTo(t.people, userId);
      if PersonForUser(t.people, userId).Some? && PersonForUser(t.people, userId).value.id == s.id {
        SameId(t.people, PersonForUser(t.people, userId).value, s);
      }
      BindingAnswers(t, Binding(User, s.id, role), userId, requested);
    }
  }

  /** Tables in which the one found under the person's id holds the role already, and the person does not. */
  lemma ShadowTables(people: seq<Person>, s: Person) returns (t: Tables)
    requires s in people && DistinctIds(people) && Shadowed(people, s)
    ensures t.people == people && !PromiseKept(t, s.id, "R", s.userRef.value, "x")
  {
    UserLeadsTo(people, s.id);
    var other := PersonForUser(people, s.id).value;
    if other.id == s.id { SameId(people, other, s); }
    var policy, held := Policy("R", ["x"], Unconditional), Binding(User, other.id, "R");
    t := Tables(people, map[], map[], [held], [policy]);
    assert held in t.bindings && Applies(t, other.id, held);
    assert RolesOf(t, other.id) == {"R"} && RolesOf(t, s.id) == {};
    OnePolicy(policy, "x");
    assert Effective(t, s.id) == {"x"} == RolePermissions(t, "R") && Effective(t, s.userRef.value) == {};
    assert Match1("x", "x") && Matches({"x"}, "x");
    PlainClosed({"x"});
    BindingAnswers(t, Binding(User, s.id, "R"), s.userRef.value, "x");
  }

  lemma OnePolicy(policy: Policy, perm: string)
    requires policy.permissions == [perm]
    ensures PermissionsOf([policy], {policy.roleCode}) == {perm}
    ensures PermissionsOf([policy], {}) == {}
  {
    assert policy in [policy] && perm in policy.permissions;
    assert perm in PermissionsOf([policy], {policy.roleCode});
  }

  /** There are people to whom this happens: the reference of one is the id of another. */
  lemma ShadowedSubject()
    ensures var people := [Person("p1", Some("u1")), Person("p2", Some("p1"))];
            DistinctIds(people) && Shadowed(people, people[0]) && !AlwaysKept(people, "p1")
  {
    var people := [Person("p1", Some("u1")), Person("p2", Some("p1"))];
    assert "p1"[0] != "u1"[0] && "p1"[1] != "p2"[1];
    assert people[1..] == [Person("p2", Some("p1"))];
    assert PersonForUser(people, "p1") == Some(Person("p2", Some("p1")));
    assert PersonForUser(people, "u1") == Some(Person("p1", Some("u1")));
    PromiseExactly(people, people[0]);
  }

  /** A promised "no net change" can still take something away: the check with an amount turns from yes to
      no exactly when the role brings the person's first ceiling and the amount is above it. */
  lemma BindingMayForbid(t: Tables, subject: Person, role: string, permission: string, amount: Option<real>)
    requires PersonForUser(t.people, subject.id) == Some(subject)
    ensures (Can(t, subject.id, permission, amount)
             && !Can(Bound(t, Binding(User, subject.id, role)), subject.id, permission, amount))
            <==> Matches(Effective(t, subject.id), permission) && amount.Some?
                 && Ceilings(t.policies, RolesFor(t, subject.id)) == {}
                 && ConditionOf(t.policies, role).Condition? && ConditionOf(t.policies, role).maxAmount.Some?
                 && amount.value > ConditionOf(t.policies, role).maxAmount.value
  {
    var b := Binding(User, subject.id, role);
    var was, adds := Ceilings(t.policies, RolesFor(t, subject.id)), Ceilings(t.policies, {role});
    BindingAnswers(t, b, subject.id, permission);
    RolesBound(t, b, subject.id);
    CeilingsUnion(t.policies, RolesFor(t, subject.id), role);
    assert Ceilings(t.policies, RolesFor(Bound(t, b), subject.id)) == was + adds;
    OneCeiling(t.policies, role);
    CeilingAdded(was, adds, ConditionOf(t.policies, role), amount);
  }

  lemma OneCeiling(policies: seq<Policy>, role: string)
    ensures var c := ConditionOf(policies, role);
            Ceilings(policies, {role}) == if c.Condition? && c.maxAmount.Some? then {c.maxAmount.value} else {}
  {
    var c := ConditionOf(policies, role);
    if c.Condition? && c.maxAmount.Some? {
      assert role in {role};
      assert c.maxAmount.value in Ceilings(policies, {role});
    }
  }

  lemma CeilingAdded(was: set<real>, adds: set<real>, c: Condition, amount: Option<real>)
    requires adds == if c.Condition? && c.maxAmount.Some? then {c.maxAmount.value} else {}
    ensures WithinCeilings(was, amount) && !WithinCeilings(was + adds, amount)
            <==> amount.Some? && was == {} && c.Condition? && c.maxAmount.Some? && amount.value > c.maxAmount.value
  {
    if amount.Some? && was != {} && WithinCeilings(was, amount) {
      var x :| x in was && amount.value <= x;
      assert x in was + adds;
    }
    if was == {} { assert was + adds == adds; }
  }

  // ---- the service's own loops ---------------------------------------------------------------------

  method RoleCodesForPerson(t: Tables, personId: string) returns (codes: seq<string>)
    ensures Elements(codes) == RolesOf(t, personId)
  {
    var held := set p | p in t.holders && t.holders[p] == Some(personId);
    var memberOf := set g | g in t.members && personId in t.members[g];
    codes := [];
    for i := 0 to |t.bindings|
      invariant Elements(codes) == RolesOf(t.(bindings := t.bindings[..i]), personId)
    {
      var b := t.bindings[i];
      assert t.bindings[..i + 1] == t.bindings[..i] + [b];
      RoleNext(t, i, personId);
      if b.subjectType == User && b.subjectId == personId {
        codes := codes + [b.roleCode];
      } else if b.subjectType == Position && b.subjectId in held {
        codes := codes + [b.roleCode];
      } else if b.subjectType == Group && b.subjectId in memberOf {
        codes := codes + [b.roleCode];
      }
    }
    assert t.bindings[..|t.bindings|] == t.bindings;
  }

  lemma RoleNext(t: Tables, i: nat, personId: string)
    requires i < |t.bindings|
    ensures RolesOf(t.(bindings := t.bindings[..i + 1]), personId)
            == RolesOf(t.(bindings := t.bindings[..i]), personId)
               + if Applies(t, personId, t.bindings[i]) then {t.bindings[i].roleCode} else {}
  {
    var before, after, b := t.(bindings := t.bindings[..i]), t.(bindings := t.bindings[..i + 1]), t.bindings[i];
    assert after.bindings == before.bindings + [b];
    forall c ensures c in after.bindings && Applies(after, personId, c) <==>
                     (c in before.bindings && Applies(before, personId, c)) || (c == b && Applies(t, personId, c)) { }
    forall r
      ensures r in RolesOf(after, personId)
              <==> r in RolesOf(before, personId) || (r == b.roleCode && Applies(t, personId, b))
    {
      if r in RolesOf(after, personId) {
        var c :| c in after.bindings && Applies(after, personId, c) && c.roleCode == r;
      }
      if r in RolesOf(before, personId) {
        var c :| c in before.bindings && Applies(before, personId, c) && c.roleCode == r;
        assert c in after.bindings && Applies(after, personId, c);
      }
      if r == b.roleCode && Applies(t, personId, b) { assert b in after.bindings && Applies(after, personId, b); }
    }
  }

  method EffectivePermissions(t: Tables, userId: string)
    returns (permissions: set<string>, conditions: map<string, Condition>)
    ensures permissions == Effective(t, userId)
    ensures forall r :: r in conditions <==> r in RolesFor(t, userId) && ConditionOf(t.policies, r).Condition?
    ensures forall r :: r in conditions ==> conditions[r] == ConditionOf(t.policies, r)
  {
    permissions, conditions := {}, map[];
    var person := PersonForUser(t.people, userId);
    if person.None? { return; }
    var codes := RoleCodesForPerson(t, person.value.id);
    for i := 0 to |t.policies|
      invariant permissions == PermissionsOf(t.policies[..i], Elements(codes))
      invariant forall r :: r in conditions <==> r in codes && ConditionOf(t.policies[..i], r).Condition?
      invariant forall r :: r in conditions ==> conditions[r] == ConditionOf(t.policies[..i], r)
    {
      var p := t.policies[i];
      assert t.policies[..i + 1][..i] == t.policies[..i];
      PermissionsNext(t.policies, i, Elements(codes));
      if p.roleCode in codes {
        permissions := permissions + Elements(p.permissions);
        if p.condition.Condition? { conditions := conditions[p.roleCode := p.condition]; }
      }
    }
    assert t.policies[..|t.policies|] == t.policies;
  }

  lemma PermissionsNext(policies: seq<Policy>, i: nat, roles: set<string>)
    requires i < |policies|
    ensures PermissionsOf(policies[..i + 1], roles)
            == PermissionsOf(policies[..i], roles) + if policies[i].roleCode in roles
                then Elements(policies[i].permissions) else {}
  {
    assert policies[..i + 1] == policies[..i] + [policies[i]];
  }

  method CheckCan(t: Tables, userId: string, permission: string, amount: Option<real>) returns (allowed: bool)
    ensures allowed <==> Can(t, userId, permission, amount)
  {
    var permissions, conditions := EffectivePermissions(t, userId);
    if !(exists g :: g in permissions && Match1(g, permission)) { return false; }
    if amount.Some? {
      var ceilings := set r | r in conditions && conditions[r].Condition? && conditions[r].maxAmount.Some? ::
          conditions[r].maxAmount.value;
      assert ceilings == Ceilings(t.policies, RolesFor(t, userId));
      if ceilings != {} && !(exists c :: c in ceilings && amount.value <= c) { return false; }
    }
    allowed := true;
  }

  /** Splits the role's permissions by whether the subject already holds them. */
  method PreviewRoleBinding(t: Tables, subjectId: string, role: string) returns (r: Result<Preview, Error>)
    ensures r.Err? <==> subjectId == "" || role == "" || forall p :: p in t.policies ==> p.roleCode != role
    ensures r.Ok? ==> Elements(r.value.rolePermissions) == RolePermissions(t, role)
    ensures r.Ok? ==> forall x :: x in r.value.willAdd <==>
            x in r.value.rolePermissions && !Matches(Effective(t, subjectId), x)
    ensures r.Ok? ==> forall x :: x in r.value.alreadyHas <==>
            x in r.value.rolePermissions && Matches(Effective(t, subjectId), x)
    ensures r.Ok? ==> (|r.value.willAdd| == 0 <==> NoNetChange(t, subjectId, role))
  {
    if subjectId == "" { return Err(SubjectRequired); }
    if role == "" { return Err(RoleRequired); }
    if !exists p :: p in t.policies && p.roleCode == role { return Err(UnknownRole); }
    var rolePermissions := PermissionsForRole(t.policies, role);
    var permissions, _ := EffectivePermissions(t, subjectId);
    var willAdd, alreadyHas := [], [];
    for i := 0 to |rolePermissions|
      invariant forall x :: x in willAdd <==> x in rolePermissions[..i] && !Matches(permissions, x)
      invariant forall x :: x in alreadyHas <==> x in rolePermissions[..i] && Matches(permissions, x)
    {
      var x := rolePermissions[i];
      assert rolePermissions[..i + 1] == rolePermissions[..i] + [x];
      if exists g :: g in permissions && Match1(g, x) {
        alreadyHas := alreadyHas + [x];
      } else {
        willAdd := willAdd + [x];
      }
    }
    assert rolePermissions[..|rolePermissions|] == rolePermissions;
    assert |willAdd| != 0 ==> willAdd[0] in willAdd;
    r := Ok(Preview(rolePermissions, willAdd, alreadyHas));
  }

  /** The union of a role's permissions over all its policies, none twice. */
  method PermissionsForRole(policies: seq<Policy>, role: string) returns (permissions: seq<string>)
    ensures Elements(permissions) == PermissionsOf(policies, {role})
  {
    permissions := [];
    for i := 0 to |policies|
      invariant Elements(permissions) == PermissionsOf(policies[..i], {role})
    {
      PermissionsNext(policies, i, {role});
      if policies[i].roleCode == role { permissions := AddNew(permissions, policies[i].permissions); }
    }
    assert policies[..|policies|] == policies;
  }

  method AddNew(known: seq<string>, more: seq<string>) returns (all: seq<string>)
    ensures Elements(all) == Elements(known) + Elements(more)
  {
    all := known;
    for j := 0 to |more|
      invariant Elements(all) == Elements(known) + Elements(more[..j])
    {
      assert more[..j + 1] == more[..j] + [more[j]];
      assert Elements(more[..j + 1]) == Elements(more[..j]) + {more[j]};
      assert Elements(all + [more[j]]) == Elements(all) + {more[j]};
      if more[j] !in all { all := all + [more[j]]; }
    }
    assert more[..|more|] == more;
  }
}
