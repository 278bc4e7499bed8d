/** Wildcard permissions: what a granted pattern matches, and when one pattern stands for another. */
module PermissionMatch {
  import opened Common

  /** Ends in ".*". */
  predicate Starred(g: string) { |g| >= 2 && g[|g| - 2] == '.' && g[|g| - 1] == '*' }

  function Stem(g: string): string
    requires Starred(g)
  {
    g[..|g| - 2]
  }

  predicate StartsWith(s: string, prefix: string) { prefix <= s }

  /** One granted pattern against a requested permission. */
  predicate Match1(g: string, requested: string) {
    requested != ""
    && (g == "*" || g == requested
        || (Starred(g) && (requested == Stem(g) || StartsWith(requested, Stem(g) + "."))))
  }

  ghost predicate Matches(granted: set<string>, requested: string) { exists g :: g in granted && Match1(g, requested) }

  method PermissionMatches(granted: seq<string>, requested: string) returns (r: bool)
    ensures r <==> Matches((set g | g in granted), requested)
  {
    if requested == "" { return false; }
    for i := 0 to |granted|
      invariant forall j :: 0 <= j < i ==> !Match1(granted[j], requested)
    {
      var g := granted[i];
      if g == "*" || g == requested {
        assert Match1(g, requested);
        return true;
      }
      if Starred(g) {
        var prefix := Stem(g);
        if requested == prefix || StartsWith(requested, prefix + ".") {
          assert Match1(g, requested);
          return true;
        }
      }
    }
    r := false;
  }

  // ---- one pattern inside another ------------------------------------------------------------------

  /** Two stars at the end: the pattern also matches a pattern that says more than it does itself. */
  predicate DoubleStar(g: string) { Starred(g) && (Stem(g) == "*" || Starred(Stem(g))) }

  predicate TransitiveAt(g: string, p: string, r: string) { Match1(g, p) && Match1(p, r) ==> Match1(g, r) }

  /** The ways of matching a pattern, other than by being exactly its stem. */
  predicate Covers(h: string, p: string) { h == "*" || h == p || (Starred(h) && StartsWith(p, Stem(h) + ".")) }

  /** What a covered pattern matches, its cover matches. */
  lemma CoverMatches(h: string, p: string, r: string)
    requires Covers(h, p) && Match1(p, r)
    ensures Match1(h, r)
  {
    if h != "*" && h != p {
      var dotted := Stem(h) + ".";
      if p != r {
        assert p != "*" by { assert |p| >= |dotted| && p[|dotted| - 1] == '.'; }
        var stem := Stem(p);
        // dotted is a prefix of stem + ".*", so of stem + ".".
        assert stem + "." <= p;
        if |dotted| <= |stem| {
          assert dotted <= stem;
          assert stem <= r;
        } else {
          DottedEnds(dotted, stem, p);
          assert dotted == stem + ".";
        }
      }
    }
  }

  lemma DottedEnds(dotted: string, stem: string, p: string)
    requires dotted != [] && dotted[|dotted| - 1] == '.' && dotted <= p && p == stem + ".*" && |dotted| > |stem|
    ensures dotted == stem + "."
  {
    assert p[|p| - 1] == '*';
    assert |dotted| == |stem| + 1;
    assert dotted == p[..|stem| + 1];
  }

  /** A stem that is no pattern itself matches only itself. */
  lemma PlainStem(g: string, r: string)
    requires Starred(g) && !DoubleStar(g) && Match1(Stem(g), r)
    ensures r == Stem(g)
  {
  }

  /** Two-star patterns are exactly those whose matches do not compose. */
  lemma TransitiveExactly(g: string)
    ensures (forall p, r :: TransitiveAt(g, p, r)) <==> !DoubleStar(g)
  {
    if DoubleStar(g) {
      var p, r := Stem(g), InnerWitness(g, "x");
      InnerUnmatched(g, "x");
      assert !TransitiveAt(g, p, r);
    } else {
      forall p, r ensures TransitiveAt(g, p, r) {
        if Match1(g, p) && Match1(p, r) {
          if Covers(g, p) { CoverMatches(g, p, r); } else { PlainStem(g, r); }
        }
      }
    }
  }

  /** A permission the stem of a two-star pattern matches: any name for the stem "*", else one below it. */
  function InnerWitness(g: string, name: string): string
    requires DoubleStar(g)
  {
    if Stem(g) == "*" then name else Stem(Stem(g)) + "." + name
  }

  lemma InnerMatched(g: string, name: string)
    requires DoubleStar(g) && name != ""
    ensures Match1(Stem(g), InnerWitness(g, name)) && Match1(g, Stem(g))
  {
  }

  /** A name of letters x has no dots and no stars. */
  lemma InnerUnmatched(g: string, name: string)
    requires DoubleStar(g) && name != "" && forall c :: c in name ==> c == 'x'
    ensures Match1(Stem(g), InnerWitness(g, name)) && Match1(g, Stem(g)) && !Match1(g, InnerWitness(g, name))
  {
    var r, stem := InnerWitness(g, name), Stem(g);
    InnerMatched(g, name);
    assert name[0] in name && name[|name| - 1] in name;
    assert r[|r| - 1] == name[|name| - 1] == 'x';
    var k := |stem| - 1;
    assert (stem + ".")[k] == '*' && r[k] == name[0];
  }

  // ---- granted sets --------------------------------------------------------------------------------

  /** Every two-star pattern of the set has its stem covered by the set. */
  ghost predicate Closed(granted: set<string>) {
    forall g :: g in granted && DoubleStar(g) ==> exists h :: h in granted && Covers(h, Stem(g))
  }

  ghost predicate AllHeld(granted: set<string>, more: set<string>) { forall p :: p in more ==> Matches(granted, p) }

  ghost predicate SameAnswers(a: set<string>, b: set<string>) { forall r :: Matches(a, r) <==> Matches(b, r) }

  lemma ClosedAbsorbs(granted: set<string>, p: string, r: string)
    requires Closed(granted) && Matches(granted, p) && Match1(p, r)
    ensures Matches(granted, r)
  {
    var g :| g in granted && Match1(g, p);
    if Covers(g, p) {
      CoverMatches(g, p, r);
    } else if DoubleStar(g) {
      var h :| h in granted && Covers(h, Stem(g));
      CoverMatches(h, p, r);
    } else {
      PlainStem(g, r);
    }
  }

  lemma MatchesUnion(a: set<string>, b: set<string>, r: string)
    ensures Matches(a + b, r) <==> Matches(a, r) || Matches(b, r)
  {
    if Matches(a, r) { var g :| g in a && Match1(g, r); assert g in a + b; }
    if Matches(b, r) { var g :| g in b && Match1(g, r); assert g in a + b; }
  }

  lemma {:induction false} LongerThanAll(granted: set<string>) returns (n: nat)
    ensures n > 0 && forall g :: g in granted ==> |g| < n
    decreases |granted|
  {
    if granted == {} {
      n := 1;
    } else {
      var g := Pick(granted);
      var m := LongerThanAll(granted - {g});
      n := m + |g| + 1;
      forall h | h in granted ensures |h| < n { if h != g { assert h in granted - {g}; } }
    }
  }

  function Name(n: nat): string { seq(n, _ => 'x') }

  /** A dotted prefix of a base and a long dotless name lies in the base. */
  lemma PrefixInBase(dotted: string, base: string, n: nat)
    requires dotted != "" && dotted[|dotted| - 1] == '.' && dotted <= base + Name(n)
    ensures dotted <= base
  {
    var r, k := base + Name(n), |dotted| - 1;
    assert r[k] == '.' && forall i :: |base| <= i < |r| ==> r[i] == 'x';
    assert base == r[..|base|];
  }

  /** What matches a long name below a two-star pattern's stem covers the stem. */
  lemma LongNameCovered(h: string, g: string, n: nat)
    requires DoubleStar(g) && 0 < n && |h| < n && Match1(h, InnerWitness(g, Name(n)))
    ensures Covers(h, Stem(g))
  {
    if h != "*" {
      var dotted := Stem(h) + ".";
      var base := if Stem(g) == "*" then "" else Stem(Stem(g)) + ".";
      assert InnerWitness(g, Name(n)) == base + Name(n);
      PrefixInBase(dotted, base, n);
    }
  }

  /** Granting patterns that are all held already changes no answer, whatever they are, exactly when the
      granted set is closed. */
  lemma HeldChangesNothing(granted: set<string>)
    ensures (forall more :: AllHeld(granted, more) ==> SameAnswers(granted, granted + more)) <==> Closed(granted)
  {
    if Closed(granted) {
      forall more | AllHeld(granted, more) ensures SameAnswers(granted, granted + more) {
        forall r ensures Matches(granted, r) <==> Matches(granted + more, r) {
          MatchesUnion(granted, more, r);
          if Matches(more, r) {
            var p :| p in more && Match1(p, r);
            ClosedAbsorbs(granted, p, r);
          }
        }
      }
    } else {
      var g :| g in granted && DoubleStar(g) && forall h :: h in granted ==> !Covers(h, Stem(g));
      UncoveredShows(granted, g);
      assert !SameAnswers(granted, granted + {Stem(g)});
    }
  }

  lemma UncoveredShows(granted: set<string>, g: string)
    requires g in granted && DoubleStar(g) && forall h :: h in granted ==> !Covers(h, Stem(g))
    ensures AllHeld(granted, {Stem(g)}) && !SameAnswers(granted, granted + {Stem(g)})
  {
    var n := LongerThanAll(granted);
    var r := InnerWitness(g, Name(n));
    assert Name(n) != "";
    InnerMatched(g, Name(n));
    forall h | h in granted ensures !Match1(h, r) { if Match1(h, r) { LongNameCovered(h, g, n); } }
    assert Stem(g) in granted + {Stem(g)} && Match1(Stem(g), r);
    assert Matches(granted + {Stem(g)}, r) && !Matches(granted, r);
  }

  /** Without two-star patterns a set is closed. */
  lemma PlainClosed(granted: set<string>)
    requires forall g :: g in granted ==> !DoubleStar(g)
    ensures Closed(granted)
  {
  }
}
