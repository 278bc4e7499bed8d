/** The contract service's own steps over its tables. */
module ContractsService {
  import opened Common
  import opened Contracts

  /** Adds up lines, in whatever order they come. */
  method AddUp(lines: map<string, Line>) returns (total: real)
    ensures total == SumOver(lines, LineValue())
  {
    var rest := lines;
    total := 0.0;
    while rest.Keys != {}
      invariant total + SumOver(rest, LineValue()) == SumOver(lines, LineValue())
      decreases |rest.Keys|
    {
      var l := Any(rest.Keys);
      SumPick(rest, l, LineValue());
      TakeOut(rest.Keys, rest.Keys, l);
      total := total + rest[l].value;
      rest := rest - {l};
    }
    assert rest == map[];
  }

  ghost function Made(ls: set<string>, id: string, ids: string -> string, due: int): map<string, Obligation>
    requires Injective(ids)
  {
    map l | l in ls :: ids(l) := Obligation(id, l, due, None, false, None, false)
  }

  function Milestones(lines: map<string, Line>, id: string): set<string> {
    set l | l in lines && lines[l].contractId == id && lines[l].billing == Milestone
  }

  lemma MadeAll(s: State, id: string, ids: string -> string, due: int)
    requires Injective(ids)
    ensures MilestoneObligations(s, id, ids, due) == Made(Milestones(s.lines, id), id, ids, due)
  {
    var a, b := MilestoneObligations(s, id, ids, due), Made(Milestones(s.lines, id), id, ids, due);
    forall o ensures o in a <==> o in b
      ensures o in a ==> a[o] == b[o]
    {
      if o in a {
        var l :| l in s.lines && IsMilestone(s, id, l) && o == ids(l);
        MadeAt(Milestones(s.lines, id), l, id, ids, due);
      }
      if o in b {
        var l := MadeFrom(Milestones(s.lines, id), o, id, ids, due);
        assert IsMilestone(s, id, l);
      }
    }
  }

  lemma MadeAt(ls: set<string>, l: string, id: string, ids: string -> string, due: int)
    requires Injective(ids) && l in ls
    ensures ids(l) in Made(ls, id, ids, due)
    ensures Made(ls, id, ids, due)[ids(l)] == Obligation(id, l, due, None, false, None, false)
  {
  }

  lemma MadeFrom(ls: set<string>, o: string, id: string, ids: string -> string, due: int) returns (l: string)
    requires Injective(ids) && o in Made(ls, id, ids, due)
    ensures l in ls && o == ids(l)
  {
    l :| l in ls && o == ids(l);
  }

  lemma MadeNext(was: map<string, Obligation>, ls: set<string>, l: string, id: string, ids: string -> string, due: int)
    requires Injective(ids) && l !in ls
    ensures was + Made(ls + {l}, id, ids, due)
            == (was + Made(ls, id, ids, due))[ids(l) := Obligation(id, l, due, None, false, None, false)]
  {
    var a, b := Made(ls + {l}, id, ids, due), Made(ls, id, ids, due);
    MadeAt(ls + {l}, l, id, ids, due);
    forall o ensures o in a <==> o in b || o == ids(l)
      ensures o in b ==> o in a && a[o] == b[o]
    {
      if o in b {
        var m := MadeFrom(ls, o, id, ids, due);
        MadeAt(ls, m, id, ids, due);
        MadeAt(ls + {l}, m, id, ids, due);
      }
      if o in a && o != ids(l) {
        var m := MadeFrom(ls + {l}, o, id, ids, due);
        MadeAt(ls, m, id, ids, due);
      }
    }
  }

  /** One obligation per given line. */
  method MakeObligations(was: map<string, Obligation>, milestones: set<string>, id: string, ids: string -> string,
                         due: int)
    returns (obligations: map<string, Obligation>)
    requires Injective(ids)
    ensures obligations == was + Made(milestones, id, ids, due)
  {
    var rest := milestones;
    obligations := was;
    assert milestones - rest == {};
    assert Made({}, id, ids, due) == map[];
    while rest != {}
      invariant rest <= milestones && obligations == was + Made(milestones - rest, id, ids, due)
      decreases |rest|
    {
      var l := Any(rest);
      MadeNext(was, milestones - rest, l, id, ids, due);
      TakeOut(milestones, rest, l);
      obligations := obligations[ids(l) := Obligation(id, l, due, None, false, None, false)];
      rest := rest - {l};
    }
    assert milestones - rest == milestones;
  }

  class Service {
    var contracts: map<string, Contract>
    var lines: map<string, Line>
    var signatures: map<string, string>
    var obligations: map<string, Obligation>
    var requests: map<string, BillingRequest>

    constructor ()
      ensures Tables() == State(map[], map[], map[], map[], map[])
    {
      contracts, lines, signatures, obligations, requests := map[], map[], map[], map[], map[];
    }

    ghost function Tables(): State reads this { State(contracts, lines, signatures, obligations, requests) }

    ghost predicate Answered(before: State, step: Result<State, Error>, r: Result<(), Error>) reads this {
      if step.Ok? then r == Ok(()) && Tables() == step.value else r == Err(step.error) && Tables() == before
    }

    method CreateContract(id: string, customerFound: bool, customerId: string, effectiveFrom: Option<int>)
      returns (r: Result<(), Error>)
      modifies this`contracts
      ensures Answered(old(Tables()), CreateStep(old(Tables()), id, customerFound, customerId, effectiveFrom), r)
    {
      if !customerFound { return Err(CustomerNotFound); }
      contracts := contracts[id := Contract(customerId, Draft, 0.0, effectiveFrom)];
      r := Ok(());
    }

    method RecomputeTotal(contractId: string)
      requires contractId in contracts
      modifies this`contracts
      ensures contracts ==
                old(contracts)[contractId := old(contracts)[contractId].(total := TotalOf(lines, contractId))]
    {
      var total := AddUp(LinesOf(lines, contractId));
      contracts := contracts[contractId := contracts[contractId].(total := total)];
    }

    method AddLineTo(contractId: string, lineId: string, billing: Billing, catalogFound: bool, value: Option<real>)
      returns (r: Result<(), Error>)
      modifies this
      ensures Answered(old(Tables()), AddLineStep(old(Tables()), contractId, lineId, billing, catalogFound, value), r)
    {
      if contractId !in contracts { return Err(ContractNotFound); }
      if !PreSigning(contracts[contractId].status) { return Err(Immutable); }
      if !catalogFound { return Err(CatalogItemNotFound); }
      if value.None? { return Err(ValueRequired); }
      lines := lines[lineId := Line(contractId, billing, value.value)];
      RecomputeTotal(contractId);
      r := Ok(());
    }

    /** Moves the contract; the first time it goes live its milestone obligations are made. */
    method TransitionTo(id: string, to: Status, ids: string -> string, now: int) returns (r: Result<(), Error>)
      requires Injective(ids)
      modifies this
      ensures Answered(old(Tables()), TransitionStep(old(Tables()), id, to, ids, now), r)
    {
      if id !in contracts { return Err(ContractNotFound); }
      var c := contracts[id];
      if to !in Allowed(c.status) { return Err(IllegalTransition); }
      if to == Effective && !(exists x :: x in signatures && signatures[x] == id) { return Err(NotSigned); }
      contracts := contracts[id := c.(status := to)];
      if to == Effective && !(exists o :: o in obligations && obligations[o].contractId == id) {
        var milestones := Milestones(lines, id);
        obligations := MakeObligations(obligations, milestones, id, ids, DueDate(c, now));
        MadeAll(old(Tables()), id, ids, DueDate(c, now));
      }
      r := Ok(());
    }

    method SignContract(id: string, signatureId: string) returns (r: Result<(), Error>)
      modifies this`contracts, this`signatures
      ensures Answered(old(Tables()), SignStep(old(Tables()), id, signatureId), r)
    {
      if id !in contracts { return Err(ContractNotFound); }
      var c := contracts[id];
      if c.status != Approved && c.status != Signing { return Err(CannotSign); }
      signatures := signatures[signatureId := id];
      if c.status == Approved { contracts := contracts[id := c.(status := Signing)]; }
      assert contracts == old(contracts)[id := c.(status := Signing)];
      r := Ok(());
    }

    method CompleteObligation(o: string, evidence: string) returns (r: Result<(), Error>)
      modifies this`obligations
      ensures Answered(old(Tables()), CompleteStep(old(Tables()), o, evidence), r)
    {
      if o !in obligations { return Err(ObligationNotFound); }
      if evidence == "" { return Err(EvidenceRequired); }
      obligations := obligations[o := obligations[o].(completed := true, evidence := Some(evidence))];
      r := Ok(());
    }

    method EscalateObligation(o: string) returns (r: Result<(), Error>)
      modifies this`obligations
      ensures Answered(old(Tables()), EscalateStep(old(Tables()), o), r)
    {
      if o !in obligations { return Err(ObligationNotFound); }
      obligations := obligations[o := obligations[o].(escalated := true)];
      r := Ok(());
    }

    method GenerateBillingRequest(o: string, key: string) returns (r: Result<(), Error>)
      modifies this`requests
      ensures Answered(old(Tables()), BillStep(old(Tables()), o, key), r)
    {
      if key == "" { return Err(KeyRequired); }
      if o !in obligations { return Err(ObligationNotFound); }
      if key in requests { return Ok(()); }
      var ob := obligations[o];
      if ob.contractId !in contracts { return Err(ContractNotFound); }
      var total := contracts[ob.contractId].total;
      requests := requests[key := BillingRequest(ob.contractId, ob.lineId, ob.evidence.Some?,
                                                 Amount(total, ob.percent))];
      r := Ok(());
    }
  }
}
