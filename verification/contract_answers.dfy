/** What callers of the contract service are answered: which transitions, lines, signatures and bills are accepted. */
module ContractAnswers {
  import opened Common
  import opened Contracts

  /** The transitions a contract can be asked for. */
  predicate Leads(from: Status, to: Status) {
    || (from == Draft && to == Review)
    || (from == Review && (to == Negotiation || to == Approved))
    || (from == Negotiation && (to == Review || to == Approved))
    || (from == Approved && to == Signing)
    || (from == Signing && to == Effective)
    || (from == Effective && (to == Suspended || to == Terminated || to == Completed || to == Expired))
    || (from == Suspended && (to == Effective || to == Terminated))
  }

  /** A transition is accepted exactly along this table, to Effective only with a signature; it moves this
      contract alone and keeps its figures. */
  lemma TransitionsExactly(s: State, id: string, to: Status, ids: string -> string, now: int)
    requires Injective(ids)
    ensures TransitionStep(s, id, to, ids, now).Ok?
            <==> id in s.contracts && Leads(s.contracts[id].status, to)
                 && (to == Effective ==> exists x :: x in s.signatures && s.signatures[x] == id)
    ensures TransitionStep(s, id, to, ids, now).Ok? ==>
              var s' := TransitionStep(s, id, to, ids, now).value;
              && s'.contracts == s.contracts[id := s.contracts[id].(status := to)]
              && s'.lines == s.lines && s'.signatures == s.signatures && s'.requests == s.requests
  {
  }

  /** The first activation makes an obligation for every milestone line and no other, due thirty days after the
      contract takes effect, or after now when it names no day; a later one makes none. */
  lemma ActivationMakes(s: State, id: string, ids: string -> string, now: int, o: string)
    requires Injective(ids) && TransitionStep(s, id, Effective, ids, now).Ok? && forall l :: ids(l) !in s.obligations
    ensures var made := TransitionStep(s, id, Effective, ids, now).value.obligations;
            var c := s.contracts[id];
            var due := (if c.effectiveFrom.Some? then c.effectiveFrom.value else now) + 30 * 86_400_000;
            && (o in s.obligations ==> o in made && made[o] == s.obligations[o])
            && (o in made && o !in s.obligations ==>
                && (forall x :: x in s.obligations ==> s.obligations[x].contractId != id)
                && exists l ::
                    l in s.lines && s.lines[l].contractId == id && s.lines[l].billing == Milestone && o == ids(l)
                               && made[o] == Obligation(id, l, due, None, false, None, false))
            && ((forall x :: x in s.obligations ==> s.obligations[x].contractId != id) ==>
                forall l :: l in s.lines && s.lines[l].contractId == id && s.lines[l].billing == Milestone
                    ==> ids(l) in made)
  {
    var s' := TransitionStep(s, id, Effective, ids, now).value;
    if !HasObligations(s, id) {
      var made := MilestoneObligations(s, id, ids, DueDate(s.contracts[id], now));
      assert s'.obligations == s.obligations + made;
      if o in made {
        var l :| l in s.lines && IsMilestone(s, id, l) && o == ids(l);
        assert made[o] == Obligation(id, l, DueDate(s.contracts[id], now), None, false, None, false);
      }
      forall l | l in s.lines && s.lines[l].contractId == id && s.lines[l].billing == Milestone ensures ids(l) in made {
        assert IsMilestone(s, id, l);
      }
    }
  }

  /** A line is taken before signing alone, for a known catalogue item and with a value; it is stored as sent and
      the total becomes the sum of the contract's lines. */
  lemma LinesExactly(s: State, contractId: string, lineId: string, billing: Billing, catalogFound: bool,
                     value: Option<real>)
    ensures AddLineStep(s, contractId, lineId, billing, catalogFound, value).Ok?
            <==> && contractId in s.contracts && catalogFound && value.Some?
                 && (var st := s.contracts[contractId].status;
                     st == Draft || st == Review || st == Negotiation || st == Approved)
    ensures AddLineStep(s, contractId, lineId, billing, catalogFound, value).Ok? ==>
              var s' := AddLineStep(s, contractId, lineId, billing, catalogFound, value).value;
              && s'.lines == s.lines[lineId := Line(contractId, billing, value.value)]
              && s'.contracts
                 == s.contracts[contractId := s.contracts[contractId].(total := TotalOf(s'.lines, contractId))]
              && s'.obligations == s.obligations && s'.signatures == s.signatures && s'.requests == s.requests
  {
  }

  /** A signature is taken from an approved contract and from one in signing, and leaves it in signing. */
  lemma SignaturesExactly(s: State, id: string, signatureId: string)
    ensures SignStep(s, id, signatureId).Ok?
            <==> id in s.contracts && (s.contracts[id].status == Approved || s.contracts[id].status == Signing)
    ensures SignStep(s, id, signatureId).Ok? ==>
              SignStep(s, id, signatureId).value
              == s.(signatures := s.signatures[signatureId := id],
                    contracts := s.contracts[id := s.contracts[id].(status := Signing)])
  {
  }

  /** Once the contract has a signature, signing leads to Effective: what is signed can go live. */
  lemma SignedGoesLive(s: State, id: string, signatureId: string, ids: string -> string, now: int)
    requires SignStep(s, id, signatureId).Ok? && Injective(ids)
    ensures TransitionStep(SignStep(s, id, signatureId).value, id, Effective, ids, now).Ok?
  {
    var s' := SignStep(s, id, signatureId).value;
    assert s'.signatures[signatureId] == id;
  }

  /** A bill asks for the contract's total, or the share its obligation names, and is ready exactly when there is
      evidence; a key once used changes nothing. */
  lemma BillsExactly(s: State, o: string, key: string)
    ensures BillStep(s, o, key).Ok?
            <==> key != "" && o in s.obligations && (key in s.requests || s.obligations[o].contractId in s.contracts)
    ensures BillStep(s, o, key).Ok? && key in s.requests ==> BillStep(s, o, key).value == s
    ensures BillStep(s, o, key).Ok? && key !in s.requests ==>
              var ob := s.obligations[o];
              var total := s.contracts[ob.contractId].total;
              && BillStep(s, o, key).value.requests.Keys == s.requests.Keys + {key}
              && (forall x :: x in s.requests ==> BillStep(s, o, key).value.requests[x] == s.requests[x])
              && (var r := BillStep(s, o, key).value.requests[key];
                  && r.contractId == ob.contractId && r.lineId == ob.lineId && (r.ready <==> ob.evidence != None)
                  && (ob.percent == None || ob.percent == Some(0) ==> r.amount == total)
                  && (ob.percent != None && ob.percent != Some(0) ==>
                      r.amount * 100.0 == total * (ob.percent.value as real)))
              && BillStep(s, o, key).value.contracts == s.contracts
  {
  }

  /** An obligation is completed exactly with evidence, which it keeps; escalating marks it, and both leave all
      other obligations alone. */
  lemma ObligationsExactly(s: State, o: string, evidence: string)
    ensures CompleteStep(s, o, evidence).Ok? <==> o in s.obligations && evidence != ""
    ensures CompleteStep(s, o, evidence).Ok? ==>
              CompleteStep(s, o, evidence).value
              == s.(obligations := s.obligations[o := s.obligations[o].(completed := true, evidence := Some(evidence))])
    ensures EscalateStep(s, o).Ok? <==> o in s.obligations
    ensures EscalateStep(s, o).Ok? ==>
              EscalateStep(s, o).value == s.(obligations := s.obligations[o := s.obligations[o].(escalated := true)])
  {
  }

  lemma CreatesDraft(s: State, id: string, customerFound: bool, customerId: string, effectiveFrom: Option<int>)
    ensures CreateStep(s, id, customerFound, customerId, effectiveFrom).Ok? <==> customerFound
    ensures customerFound ==>
              CreateStep(s, id, customerFound, customerId, effectiveFrom).value
              == s.(contracts := s.contracts[id := Contract(customerId, Draft, 0.0, effectiveFrom)])
  {
  }
}
