/** Contracts: lines until signing, signatures, the milestone obligations of a contract that went live, and billing. */
module Contracts {
  import opened Common

  datatype Status =
    | Draft | Review | Negotiation | Approved | Signing | Effective | Suspended | Expired | Terminated | Completed

  datatype Billing = Advance | Milestone | TimeMaterial | Recurring | FixedCompletion

  datatype Contract = Contract(customerId: string, status: Status, total: real, effectiveFrom: Option<int>)

  datatype Line = Line(contractId: string, billing: Billing, value: real)

  datatype Obligation = Obligation(
    contractId: string, lineId: string, dueDate: int, percent: Option<int>, completed: bool, evidence: Option<string>,
    escalated: bool)

  datatype BillingRequest = BillingRequest(contractId: string, lineId: string, ready: bool, amount: real)

  datatype State = State(
    contracts: map<string, Contract>, lines: map<string, Line>, signatures: map<string, string>,
    obligations: map<string, Obligation>, requests: map<string, BillingRequest>)

  datatype Error =
    | CustomerNotFound | ContractNotFound | Immutable | CatalogItemNotFound | ValueRequired | IllegalTransition
    | NotSigned
    | CannotSign | ObligationNotFound | EvidenceRequired | KeyRequired

  // ---- the state machine ---------------------------------------------------------------------------

  predicate PreSigning(st: Status) { st.Draft? || st.Review? || st.Negotiation? || st.Approved? }

  function Allowed(from: Status): set<Status> {
    match from
    case Draft => {Review}
    case Review => {Negotiation, Approved}
    case Negotiation => {Review, Approved}
    case Approved => {Signing}
    case Signing => {Effective}
    case Effective => {Suspended, Terminated, Completed, Expired}
    case Suspended => {Effective, Terminated}
    case _ => {}
  }

  /** The states a contract can only be in once it has been effective. */
  predicate WentLive(st: Status) { !PreSigning(st) && !st.Signing? }

  /** No transition leads back before signing, nor back before going live; live states are entered through
      Effective alone. */
  lemma OneWay(from: Status, to: Status)
    requires to in Allowed(from)
    ensures !PreSigning(from) ==> !PreSigning(to)
    ensures WentLive(from) ==> WentLive(to)
    ensures !WentLive(from) && WentLive(to) ==> from == Signing && to == Effective
  {
  }

  // ---- steps ---------------------------------------------------------------------------------------

  function LinesOf(lines: map<string, Line>, contractId: string): map<string, Line> {
    map l | l in lines && lines[l].contractId == contractId :: lines[l]
  }

  function LineValue(): Line -> real { (l: Line) => l.value }

  ghost function TotalOf(lines: map<string, Line>, contractId: string): real {
    SumOver(LinesOf(lines, contractId), LineValue())
  }

  predicate IsMilestone(s: State, contractId: string, lineId: string) {
    lineId in s.lines && s.lines[lineId].contractId == contractId && s.lines[lineId].billing == Milestone
  }

  predicate Signed(s: State, contractId: string) { exists x :: x in s.signatures && s.signatures[x] == contractId }

  predicate HasObligations(s: State, contractId: string) {
    exists o :: o in s.obligations && s.obligations[o].contractId == contractId
  }

  const THIRTY_DAYS := 2_592_000_000

  function DueDate(c: Contract, now: int): int {
    (match c.effectiveFrom case None => now case Some(t) => t) + THIRTY_DAYS
  }

  ghost predicate Injective(ids: string -> string) { forall x, y :: ids(x) == ids(y) ==> x == y }

  /** One new obligation per milestone line, each with an id of its own. */
  ghost function MilestoneObligations(s: State, contractId: string, ids: string -> string, due: int)
    : map<string, Obligation>
    requires Injective(ids)
  {
    map l | l in s.lines && IsMilestone(s, contractId, l) ::
        ids(l) := Obligation(contractId, l, due, None, false, None, false)
  }

  datatype Op =
    | Create(id: string, customerFound: bool, customerId: string, effectiveFrom: Option<int>)
    | AddLine(contractId: string, lineId: string, billing: Billing, catalogFound: bool, value: Option<real>)
    | Transition(id: string, to: Status, ids: string -> string, now: int)
    | Sign(id: string, signatureId: string)
    | Complete(obligationId: string, evidence: string)
    | Escalate(obligationId: string)
    | Bill(obligationId: string, key: string)

  /** What the database supplies: new ids are not in use. */
  ghost predicate Supplied(s: State, op: Op) {
    match op
    case Create(id, _, _, _) => id !in s.contracts
    case AddLine(_, lineId, _, _, _) => lineId !in s.lines
    case Transition(_, _, ids, _) => Injective(ids) && forall l :: ids(l) !in s.obligations
    case Sign(_, signatureId) => signatureId !in s.signatures
    case Complete(_, _) => true
    case Escalate(_) => true
    case Bill(_, _) => true
  }

  function CreateStep(s: State, id: string, customerFound: bool, customerId: string,
                      effectiveFrom: Option<int>): Result<State, Error> {
    if !customerFound then Err(CustomerNotFound)
    else Ok(s.(contracts := s.contracts[id := Contract(customerId, Draft, 0.0, effectiveFrom)]))
  }

  /** The new line is added and the total computed again from all lines. */
  ghost function AddLineStep(s: State, contractId: string, lineId: string, billing: Billing, catalogFound: bool,
                             value: Option<real>)
    : Result<State, Error>
  {
    if contractId !in s.contracts then Err(ContractNotFound)
    else if !PreSigning(s.contracts[contractId].status) then Err(Immutable)
    else if !catalogFound then Err(CatalogItemNotFound)
    else if value.None? then Err(ValueRequired)
    else
      var lines := s.lines[lineId := Line(contractId, billing, value.value)];
      Ok(s.(lines := lines,
            contracts := s.contracts[contractId := s.contracts[contractId].(total := TotalOf(lines, contractId))]))
  }

  ghost function TransitionStep(s: State, id: string, to: Status, ids: string -> string, now: int): Result<State, Error>
    requires Injective(ids)
  {
    if id !in s.contracts then Err(ContractNotFound)
    else if to !in Allowed(s.contracts[id].status) then Err(IllegalTransition)
    else if to == Effective && !Signed(s, id) then Err(NotSigned)
    else
      var s' := s.(contracts := s.contracts[id := s.contracts[id].(status := to)]);
      Ok(if to == Effective && !HasObligations(s, id)
         then s'.(obligations := s.obligations + MilestoneObligations(s, id, ids, DueDate(s.contracts[id], now)))
         else s')
  }

  /** Signing an approved contract moves it to the signing state. */
  function SignStep(s: State, id: string, signatureId: string): Result<State, Error> {
    if id !in s.contracts then Err(ContractNotFound)
    else if s.contracts[id].status !in {Approved, Signing} then Err(CannotSign)
    else Ok(s.(signatures := s.signatures[signatureId := id],
               contracts := s.contracts[id := s.contracts[id].(status := Signing)]))
  }

  function CompleteStep(s: State, o: string, evidence: string): Result<State, Error> {
    if o !in s.obligations then Err(ObligationNotFound)
    else if evidence == "" then Err(EvidenceRequired)
    else Ok(s.(obligations := s.obligations[o := s.obligations[o].(completed := true, evidence := Some(evidence))]))
  }

  function EscalateStep(s: State, o: string): Result<State, Error> {
    if o !in s.obligations then Err(ObligationNotFound)
    else Ok(s.(obligations := s.obligations[o := s.obligations[o].(escalated := true)]))
  }

  /** A share of the contract's total when the obligation names one, else all of it. */
  function Amount(total: real, percent: Option<int>): real {
    if percent.Some? && percent.value != 0 then total * (percent.value as real) / 100.0 else total
  }

  /** A key already used gives back the request made for it. */
  function BillStep(s: State, o: string, key: string): Result<State, Error> {
    if key == "" then Err(KeyRequired)
    else if o !in s.obligations then Err(ObligationNotFound)
    else if key in s.requests then Ok(s)
    else
      var ob := s.obligations[o];
      if ob.contractId !in s.contracts then Err(ContractNotFound)
      else Ok(s.(requests := s.requests[key := BillingRequest(ob.contractId, ob.lineId, ob.evidence.Some?,
                                                              Amount(s.contracts[ob.contractId].total, ob.percent))]))
  }

  ghost function Step(s: State, op: Op): Result<State, Error>
    requires Supplied(s, op)
  {
    match op
    case Create(id, customerFound, customerId, effectiveFrom) =>
      CreateStep(s, id, customerFound, customerId, effectiveFrom)
    case AddLine(contractId, lineId, billing, catalogFound, value) =>
      AddLineStep(s, contractId, lineId, billing, catalogFound, value)
    case Transition(id, to, ids, now) => TransitionStep(s, id, to, ids, now)
    case Sign(id, signatureId) => SignStep(s, id, signatureId)
    case Complete(o, evidence) => CompleteStep(s, o, evidence)
    case Escalate(o) => EscalateStep(s, o)
    case Bill(o, key) => BillStep(s, o, key)
  }

  ghost function Next(s: State, op: Op): State
    requires Supplied(s, op)
  {
    match Step(s, op) case Ok(s') => s' case Err(_) => s
  }

  /** A run whose every operation is supplied with fresh ids, and its end. */
  ghost predicate Runs(s: State, ops: seq<Op>, end: State)
    decreases |ops|
  {
    if ops == [] then end == s else Supplied(s, ops[0]) && Runs(Next(s, ops[0]), ops[1..], end)
  }

  // ---- what every step keeps -----------------------------------------------------------------------

  predicate ForLine(s: State, o: string, contractId: string, lineId: string) {
    o in s.obligations && s.obligations[o].contractId == contractId && s.obligations[o].lineId == lineId
  }

  predicate HasFor(s: State, contractId: string, lineId: string) {
    exists o :: o in s.obligations && ForLine(s, o, contractId, lineId)
  }

  /** The contract's obligations and its milestone lines correspond one to one. */
  ghost predicate OneToOne(s: State, contractId: string) {
    && (forall l :: IsMilestone(s, contractId, l) ==> HasFor(s, contractId, l))
    && (forall o, l :: ForLine(s, o, contractId, l) ==> IsMilestone(s, contractId, l))
    && (forall o, p, l :: ForLine(s, o, contractId, l) && ForLine(s, p, contractId, l) ==> o == p)
  }

  ghost predicate NoneYet(s: State, contractId: string) { forall o, l :: !ForLine(s, o, contractId, l) }

  ghost predicate GoodContract(s: State, id: string)
    requires id in s.contracts
  {
    var c := s.contracts[id];
    && c.total == TotalOf(s.lines, id)
    && (WentLive(c.status) ==> Signed(s, id))
    && (if WentLive(c.status) then OneToOne(s, id) else NoneYet(s, id))
  }

  ghost predicate Valid(s: State) {
    && (forall id :: id in s.contracts ==> GoodContract(s, id))
    && (forall l :: l in s.lines ==> s.lines[l].contractId in s.contracts)
    && (forall o :: o in s.obligations ==>
        s.obligations[o].contractId in s.contracts && s.obligations[o].percent == None)
    && (forall k :: k in s.requests ==> GoodRequest(s, s.requests[k]))
  }

  /** Every request asks for the whole total of a contract that went live. */
  predicate GoodRequest(s: State, r: BillingRequest) {
    r.contractId in s.contracts && WentLive(s.contracts[r.contractId].status)
        && r.amount == s.contracts[r.contractId].total
  }

  /** What another contract's line leaves of a contract's lines. */
  lemma OtherLines(lines: map<string, Line>, lineId: string, l: Line, id: string)
    requires lineId !in lines && l.contractId != id
    ensures LinesOf(lines[lineId := l], id) == LinesOf(lines, id)
  {
  }

  lemma NewTotal(lines: map<string, Line>, lineId: string, l: Line)
    requires lineId !in lines
    ensures TotalOf(lines[lineId := l], l.contractId) == TotalOf(lines, l.contractId) + l.value
  {
    assert LinesOf(lines[lineId := l], l.contractId) == LinesOf(lines, l.contractId)[lineId := l];
    SumInsert(LinesOf(lines, l.contractId), lineId, l, LineValue());
  }

  /** A contract's own rows are the same. */
  lemma SameContract(s: State, s': State, id: string)
    requires id in s.contracts && id in s'.contracts && GoodContract(s, id)
    requires s'.contracts[id].total == s.contracts[id].total
    requires WentLive(s'.contracts[id].status) == WentLive(s.contracts[id].status)
    requires LinesOf(s'.lines, id) == LinesOf(s.lines, id)
    requires forall l :: IsMilestone(s', id, l) <==> IsMilestone(s, id, l)
    requires forall o, l :: ForLine(s', o, id, l) <==> ForLine(s, o, id, l)
    requires Signed(s, id) ==> Signed(s', id)
    ensures GoodContract(s', id)
  {
    forall l | IsMilestone(s', id, l) && WentLive(s.contracts[id].status) ensures HasFor(s', id, l) {
      var o :| o in s.obligations && ForLine(s, o, id, l);
      assert ForLine(s', o, id, l);
    }
  }

  lemma CreateKeeps(s: State, id: string, customerId: string, effectiveFrom: Option<int>)
    requires Valid(s) && id !in s.contracts
    ensures Valid(CreateStep(s, id, true, customerId, effectiveFrom).value)
  {
    var s' := CreateStep(s, id, true, customerId, effectiveFrom).value;
    assert LinesOf(s.lines, id) == map[];
    forall x | x in s.contracts ensures GoodContract(s', x) { SameContract(s, s', x); }
    forall k | k in s.requests ensures GoodRequest(s', s.requests[k]) { assert GoodRequest(s, s.requests[k]); }
  }

  lemma AddLineKeeps(s: State, contractId: string, lineId: string, billing: Billing, catalogFound: bool,
                     value: Option<real>)
    requires Valid(s) && lineId !in s.lines && AddLineStep(s, contractId, lineId, billing, catalogFound, value).Ok?
    ensures Valid(AddLineStep(s, contractId, lineId, billing, catalogFound, value).value)
  {
    var s' := AddLineStep(s, contractId, lineId, billing, catalogFound, value).value;
    assert GoodContract(s, contractId);
    forall x | x in s.contracts && x != contractId ensures GoodContract(s', x) {
      OtherLines(s.lines, lineId, s'.lines[lineId], x);
      SameContract(s, s', x);
    }
    assert GoodContract(s', contractId) by {
      forall o, l ensures !ForLine(s', o, contractId, l) { assert !ForLine(s, o, contractId, l); }
    }
    forall k | k in s.requests ensures GoodRequest(s', s.requests[k]) { assert GoodRequest(s, s.requests[k]); }
  }

  /** Going live the first time makes exactly the obligations of the milestone lines. */
  lemma FirstObligations(s: State, s': State, id: string, ids: string -> string, due: int)
    requires Injective(ids) && (forall l :: ids(l) !in s.obligations) && NoneYet(s, id)
    requires s'.lines == s.lines && s'.obligations == s.obligations + MilestoneObligations(s, id, ids, due)
    ensures OneToOne(s', id)
    ensures forall x, o, l :: x != id ==> (ForLine(s', o, x, l) <==> ForLine(s, o, x, l))
  {
    var made := MilestoneObligations(s, id, ids, due);
    forall o, l ensures ForLine(s', o, id, l) <==> IsMilestone(s, id, l) && o == ids(l) {
      if o in made { var m :| m in s.lines && IsMilestone(s, id, m) && o == ids(m) && made[o].lineId == m; }
      if IsMilestone(s, id, l) && o == ids(l) { assert o in made; }
      assert !ForLine(s, o, id, l);
    }
    forall l | IsMilestone(s', id, l) ensures HasFor(s', id, l) { assert ForLine(s', ids(l), id, l); }
    forall x, o, l | x != id ensures ForLine(s', o, x, l) <==> ForLine(s, o, x, l) {
      if o in made { var m :| m in s.lines && IsMilestone(s, id, m) && o == ids(m); }
    }
  }

  /** The contract that moved. */
  lemma MovedContract(s: State, id: string, to: Status, ids: string -> string, now: int)
    requires Valid(s) && Injective(ids) && (forall l :: ids(l) !in s.obligations)
    requires TransitionStep(s, id, to, ids, now).Ok?
    ensures GoodContract(TransitionStep(s, id, to, ids, now).value, id)
    ensures forall x, o, l :: x != id ==>
            (ForLine(TransitionStep(s, id, to, ids, now).value, o, x, l) <==> ForLine(s, o, x, l))
  {
    var s' := TransitionStep(s, id, to, ids, now).value;
    var from, due := s.contracts[id].status, DueDate(s.contracts[id], now);
    OneWay(from, to);
    assert GoodContract(s, id);
    NoneMeansNone(s, id);
    if to == Effective && !HasObligations(s, id) {
      FirstObligations(s, s', id, ids, due);
    } else {
      SameContract(s, s', id);
    }
  }

  lemma MadeObligations(s: State, id: string, to: Status, ids: string -> string, now: int)
    requires Valid(s) && Injective(ids) && TransitionStep(s, id, to, ids, now).Ok?
    ensures var made := TransitionStep(s, id, to, ids, now).value.obligations;
            forall o :: o in made ==> made[o].contractId in s.contracts && made[o].percent == None
  {
    var made := TransitionStep(s, id, to, ids, now).value.obligations;
    forall o | o in made ensures made[o].contractId in s.contracts && made[o].percent == None {
      if o !in s.obligations { var m :| m in s.lines && IsMilestone(s, id, m) && o == ids(m); }
    }
  }

  lemma TransitionKeeps(s: State, id: string, to: Status, ids: string -> string, now: int)
    requires Valid(s) && Injective(ids) && (forall l :: ids(l) !in s.obligations)
    requires TransitionStep(s, id, to, ids, now).Ok?
    ensures Valid(TransitionStep(s, id, to, ids, now).value)
  {
    var s' := TransitionStep(s, id, to, ids, now).value;
    OneWay(s.contracts[id].status, to);
    MovedContract(s, id, to, ids, now);
    forall x | x in s.contracts && x != id ensures GoodContract(s', x) { SameContract(s, s', x); }
    forall k | k in s.requests ensures GoodRequest(s', s.requests[k]) { assert GoodRequest(s, s.requests[k]); }
    MadeObligations(s, id, to, ids, now);
  }

  lemma NoneMeansNone(s: State, id: string)
    ensures NoneYet(s, id) <==> !HasObligations(s, id)
  {
    if HasObligations(s, id) {
      var o :| o in s.obligations && s.obligations[o].contractId == id;
      assert ForLine(s, o, id, s.obligations[o].lineId);
    }
  }

  lemma SignKeeps(s: State, id: string, signatureId: string)
    requires Valid(s) && signatureId !in s.signatures && SignStep(s, id, signatureId).Ok?
    ensures Valid(SignStep(s, id, signatureId).value)
  {
    var s' := SignStep(s, id, signatureId).value;
    forall x | x in s.contracts ensures GoodContract(s', x) {
      if Signed(s, x) {
        var y :| y in s.signatures && s.signatures[y] == x;
        assert s'.signatures[y] == x;
      }
      SameContract(s, s', x);
    }
    forall k | k in s.requests ensures GoodRequest(s', s.requests[k]) { assert GoodRequest(s, s.requests[k]); }
  }

  predicate SameOrigin(a: Obligation, b: Obligation) {
    a.contractId == b.contractId && a.lineId == b.lineId && a.percent == b.percent
  }

  /** Completing and escalating leave the correspondence alone. */
  lemma ObligationKeeps(s: State, s': State)
    requires Valid(s) && s'.contracts == s.contracts && s'.lines == s.lines
    requires s'.signatures == s.signatures && s'.requests == s.requests
    requires s'.obligations.Keys == s.obligations.Keys
    requires forall o :: o in s.obligations ==> SameOrigin(s.obligations[o], s'.obligations[o])
    ensures Valid(s')
  {
    forall x | x in s.contracts ensures GoodContract(s', x) { SameContract(s, s', x); }
    forall k | k in s.requests ensures GoodRequest(s', s.requests[k]) { assert GoodRequest(s, s.requests[k]); }
  }

  lemma BillKeeps(s: State, o: string, key: string)
    requires Valid(s) && BillStep(s, o, key).Ok?
    ensures Valid(BillStep(s, o, key).value)
  {
    var s' := BillStep(s, o, key).value;
    forall x | x in s.contracts ensures GoodContract(s', x) { SameContract(s, s', x); }
    assert ForLine(s, o, s.obligations[o].contractId, s.obligations[o].lineId);
    assert GoodContract(s, s.obligations[o].contractId);
    forall k | k in s'.requests ensures GoodRequest(s', s'.requests[k]) {
      if k in s.requests { assert GoodRequest(s, s.requests[k]); }
    }
  }

  lemma StepKeeps(s: State, op: Op)
    requires Valid(s) && Supplied(s, op)
    ensures Valid(Next(s, op))
  {
    if Step(s, op).Ok? {
      match op
      case Create(id, customerFound, customerId, effectiveFrom) => CreateKeeps(s, id, customerId, effectiveFrom);
      case AddLine(contractId, lineId, billing, catalogFound, value) =>
        AddLineKeeps(s, contractId, lineId, billing, catalogFound, value);
      case Transition(id, to, ids, now) => TransitionKeeps(s, id, to, ids, now);
      case Sign(id, signatureId) => SignKeeps(s, id, signatureId);
      case Complete(o, evidence) => ObligationKeeps(s, Next(s, op));
      case Escalate(o) => ObligationKeeps(s, Next(s, op));
      case Bill(o, key) => BillKeeps(s, o, key);
    }
  }

  /** In every run the total is the sum of the lines, a contract that went live is signed and has exactly one
      obligation per milestone line however often it was suspended, and others have none. */
  lemma {:induction false} RunKeeps(s: State, ops: seq<Op>, end: State)
    requires Valid(s) && Runs(s, ops, end)
    ensures Valid(end)
    decreases |ops|
  {
    if ops == [] {
    } else {
      StepKeeps(s, ops[0]);
      RunKeeps(Next(s, ops[0]), ops[1..], end);
    }
  }

  /** Once signing has begun the lines and the total of a contract never change. */
  ghost predicate FrozenFrom(s: State, s': State, id: string)
    requires id in s.contracts
  {
    id in s'.contracts && !PreSigning(s'.contracts[id].status) && s'.contracts[id].total == s.contracts[id].total
    && LinesOf(s'.lines, id) == LinesOf(s.lines, id)
  }

  lemma StepFreezes(s: State, op: Op, id: string)
    requires Supplied(s, op) && id in s.contracts && !PreSigning(s.contracts[id].status)
    ensures FrozenFrom(s, Next(s, op), id)
  {
    if op.Transition? && op.id in s.contracts && op.to in Allowed(s.contracts[op.id].status) {
      OneWay(s.contracts[op.id].status, op.to);
    }
    if op.AddLine? && Step(s, op).Ok? { OtherLines(s.lines, op.lineId, Next(s, op).lines[op.lineId], id); }
  }

  lemma {:induction false} RunFreezes(s: State, ops: seq<Op>, end: State, id: string)
    requires Runs(s, ops, end) && id in s.contracts && !PreSigning(s.contracts[id].status)
    ensures FrozenFrom(s, end, id)
    decreases |ops|
  {
    if ops == [] {
    } else {
      StepFreezes(s, ops[0], id);
      RunFreezes(Next(s, ops[0]), ops[1..], end, id);
    }
  }

  // ---- what is asked for ---------------------------------------------------------------------------

  function RequestsOf(s: State, contractId: string): map<string, BillingRequest> {
    map k | k in s.requests && s.requests[k].contractId == contractId :: s.requests[k]
  }

  function AmountAsked(): BillingRequest -> real { (r: BillingRequest) => r.amount }

  /** The sum of all billing requests made for a contract. */
  ghost function Asked(s: State, contractId: string): real { SumOver(RequestsOf(s, contractId), AmountAsked()) }

  lemma {:induction false} MoreThanOnce(n: nat, x: real)
    requires n > 0 && x > 0.0
    ensures Repeated(n, x) >= x && (Repeated(n, x) == x <==> n == 1)
  {
    if n == 1 {
      assert Repeated(1, x) == Repeated(0, x) + x;
    } else {
      MoreThanOnce(n - 1, x);
    }
  }

  lemma {:induction false} NoMoreThanOnce(n: nat, x: real)
    requires n > 0 && x <= 0.0
    ensures Repeated(n, x) <= x
  {
    if n == 1 {
      assert Repeated(1, x) == Repeated(0, x) + x;
    } else {
      NoMoreThanOnce(n - 1, x);
    }
  }

  lemma WithinOnce(n: nat, x: real)
    ensures Repeated(n, x) <= x <==> if n == 0 then x >= 0.0 else n == 1 || x <= 0.0
  {
    if n > 0 {
      if x > 0.0 { MoreThanOnce(n, x); } else { NoMoreThanOnce(n, x); }
    }
  }

  lemma AskedIs(s: State, contractId: string)
    requires Valid(s) && contractId in s.contracts
    ensures Asked(s, contractId) == Repeated(|RequestsOf(s, contractId)|, TotalOf(s.lines, contractId))
  {
    var rs, total := RequestsOf(s, contractId), TotalOf(s.lines, contractId);
    assert GoodContract(s, contractId);
    forall k | k in rs ensures AmountAsked()(rs[k]) == total { assert GoodRequest(s, s.requests[k]); }
    SumOfAlike(rs, AmountAsked(), total);
  }

  /** No obligation names a share, so every request asks for the whole total: together they ask for it as
      many times as there are requests, and stay within it just when at most one was made or the total is
      nothing (or negative). */
  lemma MilestonesOverBill(s: State, contractId: string)
    requires Valid(s) && contractId in s.contracts
    ensures Asked(s, contractId) == Repeated(|RequestsOf(s, contractId)|, TotalOf(s.lines, contractId))
    ensures Asked(s, contractId) <= TotalOf(s.lines, contractId)
            <==> if |RequestsOf(s, contractId)| == 0 then TotalOf(s.lines, contractId) >= 0.0
                 else |RequestsOf(s, contractId)| == 1 || TotalOf(s.lines, contractId) <= 0.0
  {
    AskedIs(s, contractId);
    WithinOnce(|RequestsOf(s, contractId)|, TotalOf(s.lines, contractId));
  }

  /** Adding a line raises the total by its value. */
  lemma AddLineRaisesTotal(s: State, contractId: string, lineId: string, billing: Billing, value: real)
    requires Valid(s) && lineId !in s.lines && contractId in s.contracts && PreSigning(s.contracts[contractId].status)
    ensures AddLineStep(s, contractId, lineId, billing, true, Some(value)).Ok?
    ensures var s' := AddLineStep(s, contractId, lineId, billing, true, Some(value)).value;
            s'.contracts[contractId].total == s.contracts[contractId].total + value
  {
    assert GoodContract(s, contractId);
    NewTotal(s.lines, lineId, Line(contractId, billing, value));
  }

  lemma {:induction false} OneMoreStep(s: State, ops: seq<Op>, m: State, op: Op)
    requires Runs(s, ops, m) && Supplied(m, op)
    ensures Runs(s, ops + [op], Next(m, op))
    decreases |ops|
  {
    if ops == [] {
      assert ops + [op] == [op] && [op][1..] == [];
    } else {
      OneMoreStep(Next(s, ops[0]), ops[1..], m, op);
      assert (ops + [op])[1..] == ops[1..] + [op];
    }
  }

  const EMPTY := State(map[], map[], map[], map[], map[])

  /** Some run from the empty tables ends here. */
  ghost predicate Reachable(s: State) { exists ops :: Runs(EMPTY, ops, s) }

  lemma Reached(s: State, op: Op) returns (s': State)
    requires Reachable(s) && Supplied(s, op)
    ensures s' == Next(s, op) && Reachable(s')
  {
    var ops :| Runs(EMPTY, ops, s);
    OneMoreStep(EMPTY, ops, s, op);
    s' := Next(s, op);
  }

  lemma ReachableValid(s: State)
    requires Reachable(s)
    ensures Valid(s)
  {
    var ops :| Runs(EMPTY, ops, s);
    RunKeeps(EMPTY, ops, s);
  }

  // A contract "c" with two milestone lines, "l" and "m", on its way to going live.

  predicate Open(s: State, st: Status, total: real) {
    && "c" in s.contracts && s.contracts["c"].status == st && s.contracts["c"].total == total
    && s.obligations == map[] && s.requests == map[]
  }

  predicate Ready(s: State, st: Status, total: real) {
    Open(s, st, total) && IsMilestone(s, "c", "l") && IsMilestone(s, "c", "m")
  }

  function Same(): string -> string { (x: string) => x }

  lemma Drafted() returns (s: State)
    ensures Reachable(s) && Open(s, Draft, 0.0) && s.lines == map[] && s.signatures == map[]
  {
    assert Runs(EMPTY, [], EMPTY);
    s := Reached(EMPTY, Create("c", true, "customer", None));
  }

  lemma HasMilestones(s: State) returns (s': State)
    requires Reachable(s) && Open(s, Draft, 0.0) && s.lines == map[] && s.signatures == map[]
    ensures Reachable(s') && Ready(s', Draft, 15.0) && s'.signatures == map[]
  {
    var m := Reached(s, AddLine("c", "l", Milestone, true, Some(10.0)));
    ReachableValid(s);
    AddLineRaisesTotal(s, "c", "l", Milestone, 10.0);
    s' := Reached(m, AddLine("c", "m", Milestone, true, Some(5.0)));
    ReachableValid(m);
    AddLineRaisesTotal(m, "c", "m", Milestone, 5.0);
  }

  lemma Approves(s: State) returns (s': State)
    requires Reachable(s) && Ready(s, Draft, 15.0) && s.signatures == map[]
    ensures Reachable(s') && Ready(s', Approved, 15.0) && s'.signatures == map[]
  {
    var m := Reached(s, Transition("c", Review, Same(), 0));
    s' := Reached(m, Transition("c", Approved, Same(), 0));
  }

  lemma Signs(s: State) returns (s': State)
    requires Reachable(s) && Ready(s, Approved, 15.0) && s.signatures == map[]
    ensures Reachable(s') && Ready(s', Signing, 15.0) && Signed(s', "c")
  {
    s' := Reached(s, Sign("c", "s"));
    assert s'.signatures["s"] == "c";
  }

  lemma GoesLive(s: State) returns (s': State)
    requires Reachable(s) && Ready(s, Signing, 15.0) && Signed(s, "c")
    ensures Reachable(s') && s'.requests == map[]
    ensures "c" in s'.contracts && s'.contracts["c"].total == 15.0
    ensures ForLine(s', "l", "c", "l") && ForLine(s', "m", "c", "m")
  {
    s' := Reached(s, Transition("c", Effective, Same(), 0));
    var made := MilestoneObligations(s, "c", Same(), DueDate(s.contracts["c"], 0));
    assert Same()("l") in made && Same()("m") in made;
  }

  lemma Bills(s: State, lineId: string, key: string) returns (s': State)
    requires Reachable(s) && "c" in s.contracts && ForLine(s, lineId, "c", lineId) && key != "" && key !in s.requests
    ensures Reachable(s')
    ensures s'.contracts == s.contracts && s'.obligations == s.obligations
    ensures s'.requests.Keys == s.requests.Keys + {key}
    ensures RequestsOf(s', "c").Keys == RequestsOf(s, "c").Keys + {key}
  {
    s' := Reached(s, Bill(lineId, key));
  }

  lemma TwoRequests(s: State)
    requires Reachable(s) && "c" in s.contracts
    requires s.contracts["c"].total == 15.0 && RequestsOf(s, "c").Keys == {"1", "2"}
    ensures Asked(s, "c") == 30.0
  {
    ReachableValid(s);
    MilestonesOverBill(s, "c");
    assert GoodContract(s, "c");
    var keys := {"1", "2"};
    assert "1"[0] != "2"[0];
    assert |keys| == 2 && |RequestsOf(s, "c")| == |RequestsOf(s, "c").Keys|;
    RepeatedIs(2, 15.0);
  }

  /** A state is reached in which a contract over 15 has 30 asked for: both its milestones were billed. */
  lemma OverBillingHappens()
    ensures exists s :: Reachable(s) && "c" in s.contracts && s.contracts["c"].total == 15.0 && Asked(s, "c") == 30.0
  {
    var s := Drafted();
    s := HasMilestones(s);
    s := Approves(s);
    s := Signs(s);
    s := GoesLive(s);
    s := Bills(s, "l", "1");
    s := Bills(s, "m", "2");
    TwoRequests(s);
  }
}
