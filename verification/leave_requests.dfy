/**
 * What a caller sees of leave requests: which submissions are accepted and what they store, which action is
 * accepted in which status and where it leads, and that a repeated key is answered without effect.
 */
module LeaveRequests {
  import opened Common
  import opened Calendar
  import opened LeaveSpec

  // ---- a repeated key --------------------------------------------------------------------------------

  /** Request id holds the key. */
  predicate Keyed(st: State, id: Id, key: string) { id in st.leaves && st.leaves[id].idempotencyKey == key }

  lemma KeyStays(cfg: Config, st: State, ops: seq<Op>, id: Id, key: string)
    requires Keyed(st, id, key)
    ensures Keyed(Run(cfg, st, ops), id, key)
  {
    RunEvolves(cfg, st, ops);
  }

  lemma ReplayedIs(st: State, key: string)
    ensures Replayed(st, key) <==> exists id :: Keyed(st, id, key)
  {
    if Replayed(st, key) {
      var id :| id in st.leaves && st.leaves[id].idempotencyKey == key;
      assert Keyed(st, id, key);
    }
    if exists id :: Keyed(st, id, key) {
      var id :| Keyed(st, id, key);
      assert st.leaves[id].idempotencyKey == key;
    }
  }

  /** An accepted submission of a fresh id leaves its key on some request. */
  lemma KeyTaken(cfg: Config, st: State, q: Request) returns (id: Id)
    requires q.id !in st.leaves && Decide(cfg, st, Submit(q)).Ok?
    ensures Keyed(Step(cfg, st, Submit(q)), id, q.idempotencyKey)
  {
    ReplayedIs(st, q.idempotencyKey);
    id := q.id;
    if Replayed(st, q.idempotencyKey) { id :| Keyed(st, id, q.idempotencyKey); }
  }

  /** Once a submission was accepted, at any later point of any run every submission with its key is accepted
      and changes nothing, whatever has become of the request and whatever else the second one asks for. */
  lemma ReplayIsSafe(cfg: Config, st: State, q: Request, ops: seq<Op>, again: Request)
    requires q.id !in st.leaves && Decide(cfg, st, Submit(q)).Ok? && again.idempotencyKey == q.idempotencyKey
    ensures var later := Run(cfg, Step(cfg, st, Submit(q)), ops);
            Decide(cfg, later, Submit(again)).Ok? && Step(cfg, later, Submit(again)) == later
  {
    var id := KeyTaken(cfg, st, q);
    var after := Step(cfg, st, Submit(q));
    KeyStays(cfg, after, ops, id, q.idempotencyKey);
    assert |q.idempotencyKey| >= 8;
    assert Replayed(Run(cfg, after, ops), again.idempotencyKey);
  }

  /** No two requests hold one key. */
  ghost predicate KeysApart(st: State) {
    forall i, j :: i in st.leaves && j in st.leaves && st.leaves[i].idempotencyKey == st.leaves[j].idempotencyKey
      ==> i == j
  }

  lemma StepKeysApart(cfg: Config, st: State, op: Op)
    requires KeysApart(st)
    ensures KeysApart(Step(cfg, st, op))
  {
    StepFollowsTable(cfg, st, op);
  }

  lemma {:induction false} RunKeysApart(cfg: Config, st: State, ops: seq<Op>)
    requires KeysApart(st)
    ensures KeysApart(Run(cfg, st, ops))
    decreases |ops|
  {
    if ops == [] {
    } else {
      StepKeysApart(cfg, st, ops[0]);
      RunKeysApart(cfg, Step(cfg, st, ops[0]), ops[1..]);
    }
  }

  // ---- submissions -----------------------------------------------------------------------------------

  /** Some request of the person that is neither rejected nor cancelled shares a day or an instant with the span. */
  ghost predicate Taken(st: State, personId: Id, startAt: int, endAt: int) {
    exists id :: id in st.leaves && st.leaves[id].personId == personId
                 && st.leaves[id].status != Rejected && st.leaves[id].status != Cancelled
                 && st.leaves[id].startAt <= endAt && startAt <= st.leaves[id].endAt
  }

  lemma TakenIsClash(st: State, personId: Id, startAt: int, endAt: int)
    ensures Taken(st, personId, startAt, endAt) <==> Clashes(st, personId, startAt, endAt)
  {
    if Clashes(st, personId, startAt, endAt) {
      var id :| id in st.leaves && st.leaves[id].personId == personId && Live(st.leaves[id].status)
                && Overlaps(st.leaves[id], startAt, endAt);
      assert st.leaves[id].status != Rejected;
    }
    if Taken(st, personId, startAt, endAt) {
      var id :| id in st.leaves && st.leaves[id].personId == personId
                && st.leaves[id].status != Rejected && st.leaves[id].status != Cancelled
                && st.leaves[id].startAt <= endAt && startAt <= st.leaves[id].endAt;
      assert Live(st.leaves[id].status) && Overlaps(st.leaves[id], startAt, endAt);
    }
  }

  /** What a new request must meet besides the balance. */
  ghost predicate Fits(cfg: Config, st: State, q: Request) {
    && cfg.leaveModeIsXOffice && q.personId.Some?
    && q.policyId in cfg.policies && cfg.policies[q.policyId].active
    && q.startAt.Some? && q.endAt.Some? && q.startAt.value <= q.endAt.value
    && !Taken(st, q.personId.value, q.startAt.value, q.endAt.value)
  }

  /** The days or hours a request asks for. */
  function Asked(cfg: Config, q: Request): real
    requires q.policyId in cfg.policies && q.startAt.Some? && q.endAt.Some? && q.startAt.value <= q.endAt.value
  {
    Duration(q.startAt.value, q.endAt.value, q.startPart, q.endPart, cfg.policies[q.policyId].unit)
  }

  /** The balance bounds requests of all policies but unpaid leave and those that may go negative. */
  ghost predicate Affordable(cfg: Config, st: State, q: Request)
    requires Fits(cfg, st, q)
  {
    var policy := cfg.policies[q.policyId];
    policy.code == "UNPAID" || policy.allowNegative
    || Asked(cfg, q) <= Latest(st.ledger, Key(q.personId.value, q.policyId, cfg.periodOf(q.startAt.value))).available
  }

  /** A submission is accepted exactly when its key has eight characters and is known, or the request fits and
      can be afforded. */
  lemma SubmitAcceptedExactly(cfg: Config, st: State, q: Request)
    ensures Decide(cfg, st, Submit(q)).Ok?
            <==> |q.idempotencyKey| >= 8
                 && ((exists id :: Keyed(st, id, q.idempotencyKey)) || (Fits(cfg, st, q) && Affordable(cfg, st, q)))
  {
    ReplayedIs(st, q.idempotencyKey);
    if q.personId.Some? && q.startAt.Some? && q.endAt.Some? {
      TakenIsClash(st, q.personId.value, q.startAt.value, q.endAt.value);
    }
  }

  /** An accepted new request is stored as asked for, and its duration booked as pending in its ledger. */
  lemma SubmitStores(cfg: Config, st: State, q: Request)
    requires q.id !in st.leaves && Decide(cfg, st, Submit(q)).Ok?
    requires forall id :: !Keyed(st, id, q.idempotencyKey)
    ensures Fits(cfg, st, q)
    ensures var st' := Step(cfg, st, Submit(q));
            var l := Leave(q.personId.value, q.policyId, q.orgUnitId, q.startAt.value, q.endAt.value, Asked(cfg, q),
                           Submitted, q.idempotencyKey);
            var k := Key(q.personId.value, q.policyId, cfg.periodOf(q.startAt.value));
            && st'.leaves == st.leaves[q.id := l]
            && Latest(st'.ledger, k).pending == Latest(st.ledger, k).pending + Asked(cfg, q)
            && Latest(st'.ledger, k).used == Latest(st.ledger, k).used
            && forall j :: j != k ==> Rows(st'.ledger, j) == Rows(st.ledger, j)
  {
    SubmitAcceptedExactly(cfg, st, q);
    ReplayedIs(st, q.idempotencyKey);
    var l := Decide(cfg, st, Submit(q)).value.leave;
    forall j ensures j != KeyOf(cfg, l) ==> Rows(Step(cfg, st, Submit(q)).ledger, j) == Rows(st.ledger, j) {
      PostedRows(st.ledger, KeyOf(cfg, l), l.duration, 0.0, 0.0, j);
    }
    PostedRows(st.ledger, KeyOf(cfg, l), l.duration, 0.0, 0.0, KeyOf(cfg, l));
  }

  /** Hours are the elapsed time itself. */
  lemma HoursElapsed(startAt: int, endAt: int, startPart: DayPart, endPart: DayPart)
    requires startAt <= endAt
    ensures Duration(startAt, endAt, startPart, endPart, Hour) * 3_600_000.0 == (endAt - startAt) as real
  {
  }

  // ---- actions ---------------------------------------------------------------------------------------

  /** Where each action leads from the statuses in which it is accepted. */
  function Outcome(a: Action, s: Status): Option<Status> {
    match a
    case Approve =>
      if s == Submitted || s == InReview || s == CancelRequested then Some(Approved) else None
    case Reject => if s == Submitted || s == InReview then Some(Rejected) else None
    case RequestChanges => if s == Submitted || s == InReview then Some(ChangesRequested) else None
    case Resubmit => if s == Draft || s == ChangesRequested then Some(Submitted) else None
    case Cancel =>
      if s == Approved then Some(CancelRequested)
      else if s == Draft || s == Submitted || s == InReview || s == ChangesRequested then Some(Cancelled)
      else None
    case CancelApprove =>
      if s == Approved || s == Rejected || s == Cancelled then None else Some(Cancelled)
  }

  /** The requester acts on resubmission and cancellation; on the others anyone whose scope is open or holds the
      request's unit. */
  predicate MayAct(a: Action, l: Leave, who: Actor) {
    if a == Resubmit || a == Cancel then who.personId == Some(l.personId)
    else who.scope == {} || (l.orgUnitId.Some? && l.orgUnitId.value in who.scope)
  }

  lemma EffectLeads(a: Action, s: Status)
    ensures match Outcome(a, s)
            case None => EffectOf(a, s).Refused?
            case Some(to) => !EffectOf(a, s).Refused? && EffectOf(a, s).to == to
  {
  }

  /** An action is accepted exactly from the listed statuses and callers, and sets the listed status on this
      request alone. */
  lemma ActsExactly(cfg: Config, st: State, a: Action, id: Id, who: Actor)
    ensures Decide(cfg, st, Act(a, id, who)).Ok?
            <==> id in st.leaves && MayAct(a, st.leaves[id], who) && Outcome(a, st.leaves[id].status).Some?
    ensures Decide(cfg, st, Act(a, id, who)).Ok? ==>
              Step(cfg, st, Act(a, id, who)).leaves
              == st.leaves[id := st.leaves[id].(status := Outcome(a, st.leaves[id].status).value)]
  {
    if id in st.leaves { EffectLeads(a, st.leaves[id].status); }
  }

  // ---- the ledger's numbers --------------------------------------------------------------------------

  /** Rows are numbered from one. */
  ghost predicate Numbered(rows: seq<Row>) { forall i :: 0 <= i < |rows| ==> rows[i].sequence == i + 1 }

  lemma {:induction false} NumbersGoOn(before: seq<Row>, after: seq<Row>, n: nat)
    requires Extends(before, after) && Numbered(before) && |before| <= n <= |after|
    ensures Numbered(after[..n])
    decreases n
  {
    if n <= |before| {
      assert after[..n] == before;
    } else {
      NumbersGoOn(before, after, n - 1);
      assert forall i :: 0 <= i < n - 1 ==> after[..n - 1][i] == after[..n][i];
      if n > 1 { assert Follows(after[n - 2], after[n - 1]) && after[..n - 1][n - 2].sequence == n - 1; }
    }
  }

  /** Every ledger that starts empty, or numbered from one, is numbered from one after every run. */
  lemma RunNumbered(cfg: Config, st: State, ops: seq<Op>, k: Key)
    requires Numbered(Rows(st.ledger, k))
    ensures Numbered(Rows(Run(cfg, st, ops).ledger, k))
  {
    var before, after := Rows(st.ledger, k), Rows(Run(cfg, st, ops).ledger, k);
    RunExtends(cfg, st, ops, k);
    if before == [] && after != [] {
      assert after[0].sequence == 1;
      assert Extends(after[..1], after);
      NumbersGoOn(after[..1], after, |after|);
    } else {
      NumbersGoOn(before, after, |after|);
    }
    assert after[..|after|] == after;
  }
}
