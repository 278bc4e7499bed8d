/** Who may do what, told from people, bindings, policies and patterns one by one. */
module RoleMeaning {
  import opened Common
  import opened PermissionMatch
  import opened RoleBindings

  // ---- patterns ----------------------------------------------------------------------------------------

  /** A pattern allows everything if it is a star, itself, and with a star after a dot what stands before that dot
      and everything that goes on from it with a dot. */
  predicate Allows(pattern: string, requested: string) {
    requested != ""
    && (pattern == "*" || pattern == requested
        || (|pattern| >= 2 && pattern[|pattern| - 2..] == ".*"
            && (requested == pattern[..|pattern| - 2]
                || (|requested| > |pattern| - 2 && requested[..|pattern| - 1] == pattern[..|pattern| - 1]))))
  }

  lemma AllowsIs(pattern: string, requested: string)
    ensures Match1(pattern, requested) <==> Allows(pattern, requested)
  {
    var n := |pattern|;
    if n >= 2 {
      assert Starred(pattern) <==> pattern[n - 2..] == ".*";
      if Starred(pattern) {
        assert Stem(pattern) + "." == pattern[..n - 1];
        assert StartsWith(requested, pattern[..n - 1])
               <==> |requested| >= n - 1 && requested[..n - 1] == pattern[..n - 1];
      }
    }
  }

  // ---- people ------------------------------------------------------------------------------------------

  /** The first listed person that the user's id names by reference; without one, the first whose own id it is. */
  ghost predicate IsUser(people: seq<Person>, userId: string, p: Person) {
    || (exists i :: 0 <= i < |people| && people[i] == p && p.userRef == Some(userId)
                    && forall j :: 0 <= j < i ==> people[j].userRef != Some(userId))
    || ((forall q :: q in people ==> q.userRef != Some(userId))
        && exists i :: 0 <= i < |people| && people[i] == p && p.id == userId
                       && forall j :: 0 <= j < i ==> people[j].id != userId)
  }

  lemma {:induction false} FindsFirst(people: seq<Person>, want: Person -> bool, p: Person)
    ensures FindPerson(people, want) == Some(p)
            <==> exists i :: 0 <= i < |people| && people[i] == p && want(p)
                             && forall j :: 0 <= j < i ==> !want(people[j])
    ensures FindPerson(people, want) == None <==> forall q :: q in people ==> !want(q)
  {
    if people == [] {
    } else {
      var rest := people[1..];
      FindsFirst(rest, want, p);
      assert people == [people[0]] + rest;
      if !want(people[0]) {
        if FindPerson(people, want) == Some(p) {
          var i :| 0 <= i < |rest| && rest[i] == p && want(p) && forall j :: 0 <= j < i ==> !want(rest[j]);
          forall j | 0 <= j < i + 1 ensures !want(people[j]) { if j > 0 { assert people[j] == rest[j - 1]; } }
          assert people[i + 1] == p;
        }
        if exists i :: 0 <= i < |people| && people[i] == p && want(p) && forall j :: 0 <= j < i ==> !want(people[j]) {
          var i :| 0 <= i < |people| && people[i] == p && want(p) && forall j :: 0 <= j < i ==> !want(people[j]);
          assert i > 0 && rest[i - 1] == p;
          forall j | 0 <= j < i - 1 ensures !want(rest[j]) { assert rest[j] == people[j + 1]; }
        }
      }
    }
  }

  lemma UserExactly(people: seq<Person>, userId: string, p: Person)
    ensures PersonForUser(people, userId) == Some(p) <==> IsUser(people, userId, p)
  {
    var byRef, byId := (q: Person) => q.userRef == Some(userId), (q: Person) => q.id == userId;
    FindsFirst(people, byRef, p);
    FindsFirst(people, byId, p);
    if FindPerson(people, byRef).Some? && FindPerson(people, byRef) != Some(p) {
      var q := FindPerson(people, byRef).value;
      FindsFirst(people, byRef, q);
      assert q in people;
    }
  }

  // ---- roles and permissions ---------------------------------------------------------------------------

  /** A binding is the person's by its own id, by holding the position, or by being in the group; bindings to units
      are no one's. */
  predicate Reaches(t: Tables, personId: string, b: Binding) {
    || (b.subjectType == User && b.subjectId == personId)
    || (b.subjectType == Position && b.subjectId in t.holders && t.holders[b.subjectId] == Some(personId))
    || (b.subjectType == Group && b.subjectId in t.members && personId in t.members[b.subjectId])
  }

  /** The user has the role through some binding. */
  ghost predicate HasRole(t: Tables, userId: string, role: string) {
    exists p, b :: IsUser(t.people, userId, p) && b in t.bindings && Reaches(t, p.id, b) && b.roleCode == role
  }

  lemma RolesExactly(t: Tables, userId: string, role: string)
    ensures role in RolesFor(t, userId) <==> HasRole(t, userId, role)
  {
    var found := PersonForUser(t.people, userId);
    if found.Some? {
      UserExactly(t.people, userId, found.value);
      if role in RolesFor(t, userId) {
        var b :| b in t.bindings && Applies(t, found.value.id, b) && b.roleCode == role;
        assert Reaches(t, found.value.id, b);
      }
    }
    if HasRole(t, userId, role) {
      var p, b :| IsUser(t.people, userId, p) && b in t.bindings && Reaches(t, p.id, b) && b.roleCode == role;
      UserExactly(t.people, userId, p);
      assert Applies(t, p.id, b);
    }
  }

  /** Some policy of some role of the user lists a pattern that allows the request. */
  ghost predicate Granted(t: Tables, userId: string, requested: string) {
    exists q, pattern :: q in t.policies && pattern in q.permissions && HasRole(t, userId, q.roleCode)
                         && Allows(pattern, requested)
  }

  lemma GrantedExactly(t: Tables, userId: string, requested: string)
    ensures Matches(Effective(t, userId), requested) <==> Granted(t, userId, requested)
  {
    if Matches(Effective(t, userId), requested) {
      var g :| g in Effective(t, userId) && Match1(g, requested);
      var q :| q in t.policies && q.roleCode in RolesFor(t, userId) && g in q.permissions;
      RolesExactly(t, userId, q.roleCode);
      AllowsIs(g, requested);
    }
    if Granted(t, userId, requested) {
      var q, pattern :| q in t.policies && pattern in q.permissions && HasRole(t, userId, q.roleCode)
                        && Allows(pattern, requested);
      RolesExactly(t, userId, q.roleCode);
      AllowsIs(pattern, requested);
      assert pattern in Effective(t, userId);
    }
  }

  // ---- ceilings ----------------------------------------------------------------------------------------

  /** The last listed policy of the role that has a condition sets this ceiling. */
  ghost predicate CeilingOf(policies: seq<Policy>, role: string, ceiling: real) {
    exists i :: 0 <= i < |policies| && policies[i].roleCode == role && policies[i].condition == Condition(Some(ceiling))
                && forall j :: i < j < |policies| && policies[j].roleCode == role
                    ==> policies[j].condition == Unconditional
  }

  lemma {:induction false} CeilingExactly(policies: seq<Policy>, role: string, ceiling: real)
    ensures ConditionOf(policies, role) == Condition(Some(ceiling)) <==> CeilingOf(policies, role, ceiling)
  {
    if policies == [] {
    } else {
      var n := |policies| - 1;
      var init, p := policies[..n], policies[n];
      CeilingExactly(init, role, ceiling);
      if p.roleCode == role && p.condition.Condition? {
        if CeilingOf(policies, role, ceiling) {
          var i :| 0 <= i < |policies| && policies[i].roleCode == role
                   && policies[i].condition == Condition(Some(ceiling))
                   && forall j :: i < j < |policies| && policies[j].roleCode == role
                        ==> policies[j].condition == Unconditional;
          assert i == n;
        }
      } else {
        CeilingInit(policies, role, ceiling);
      }
    }
  }

  lemma CeilingInit(policies: seq<Policy>, role: string, ceiling: real)
    requires policies != []
    requires var p := policies[|policies| - 1]; !(p.roleCode == role && p.condition.Condition?)
    ensures CeilingOf(policies, role, ceiling) <==> CeilingOf(policies[..|policies| - 1], role, ceiling)
  {
    var n := |policies| - 1;
    var init := policies[..n];
    if CeilingOf(init, role, ceiling) {
      var i :| 0 <= i < |init| && init[i].roleCode == role && init[i].condition == Condition(Some(ceiling))
               && forall j :: i < j < |init| && init[j].roleCode == role ==> init[j].condition == Unconditional;
      assert policies[i] == init[i];
      forall j | i < j < |policies| && policies[j].roleCode == role ensures policies[j].condition == Unconditional {
        if j < n { assert init[j] == policies[j]; }
      }
    }
    if CeilingOf(policies, role, ceiling) {
      var i :| 0 <= i < |policies| && policies[i].roleCode == role && policies[i].condition == Condition(Some(ceiling))
               && forall j :: i < j < |policies| && policies[j].roleCode == role
                   ==> policies[j].condition == Unconditional;
      assert i < n && init[i] == policies[i];
      forall j | i < j < |init| && init[j].roleCode == role ensures init[j].condition == Unconditional {
        assert init[j] == policies[j];
      }
    }
  }

  /** A ceiling that one of the user's roles sets. */
  ghost predicate HasCeiling(t: Tables, userId: string, ceiling: real) {
    exists role :: HasRole(t, userId, role) && CeilingOf(t.policies, role, ceiling)
  }

  lemma CeilingsExactly(t: Tables, userId: string, ceiling: real)
    ensures ceiling in Ceilings(t.policies, RolesFor(t, userId)) <==> HasCeiling(t, userId, ceiling)
  {
    if ceiling in Ceilings(t.policies, RolesFor(t, userId)) {
      var role :| role in RolesFor(t, userId) && ConditionOf(t.policies, role) == Condition(Some(ceiling));
      RolesExactly(t, userId, role);
      CeilingExactly(t.policies, role, ceiling);
    }
    if HasCeiling(t, userId, ceiling) {
      var role :| HasRole(t, userId, role) && CeilingOf(t.policies, role, ceiling);
      RolesExactly(t, userId, role);
      CeilingExactly(t.policies, role, ceiling);
    }
  }

  /** A user may do something exactly when a policy of one of the user's roles grants it and, if an amount is named
      and any of the roles sets a ceiling, some ceiling is no less than the amount. */
  lemma CanExactly(t: Tables, userId: string, permission: string, amount: Option<real>)
    ensures Can(t, userId, permission, amount)
            <==> Granted(t, userId, permission)
                 && (amount.None? || (forall c :: !HasCeiling(t, userId, c))
                     || exists c :: HasCeiling(t, userId, c) && amount.value <= c)
  {
    GrantedExactly(t, userId, permission);
    var ceilings := Ceilings(t.policies, RolesFor(t, userId));
    forall c ensures c in ceilings <==> HasCeiling(t, userId, c) { CeilingsExactly(t, userId, c); }
    if ceilings != {} { var c := Pick(ceilings); }
  }
}
