/**
 * The leave service: request rows and ledger rows updated in place, one method per endpoint.
 * Every method is one transaction, so a refused call leaves both tables as they were.
 */
module LeaveService {
  import opened Calendar
  import opened Common
  import opened LeaveSpec

  /** The server's duration of a request: whole days with half days taken off one after the other. */
  method ComputeLeaveDuration(startAt: int, endAt: int, startPart: DayPart, endPart: DayPart, unit: Unit)
    returns (r: Result<real, Error>)
    ensures r == if endAt < startAt then Err(EndBeforeStart)
                 else Ok(Duration(startAt, endAt, startPart, endPart, unit))
  {
    if endAt < startAt { return Err(EndBeforeStart); }
    if unit == Hour {
      var hours := (endAt - startAt) as real / MS_PER_HOUR as real;
      return Ok(if hours < 0.0 then 0.0 else hours);
    }
    var days := ((endAt - startAt) as real / MS_PER_DAY as real + 0.5).Floor + 1;
    var duration := days as real;
    if startPart != Full { duration := duration - 0.5; }
    if endPart != Full && endAt != startAt { duration := duration - 0.5; }
    if endPart != Full && endAt == startAt && startPart == Full { duration := duration - 0.5; }
    r := Ok(if duration < 0.5 then 0.5 else duration);
  }

  class Service {
    const cfg: Config
    var leaves: map<Id, Leave>
    var ledger: map<Key, seq<Row>>

    function Tables(): State
      reads this
    {
      State(leaves, ledger)
    }

    constructor (cfg: Config)
      ensures this.cfg == cfg && Tables() == State(map[], map[])
    {
      this.cfg := cfg;
      leaves, ledger := map[], map[];
    }

    /** The last row of a key; a key without rows gets its zero row first. */
    method LatestRow(k: Key) returns (r: Row)
      modifies this`ledger
      ensures ledger == Opened(old(ledger), k)
      ensures r == Latest(old(ledger), k)
    {
      if k in ledger && ledger[k] != [] {
        return ledger[k][|ledger[k]| - 1];
      }
      r := InitialRow;
      ledger := ledger[k := [r]];
    }

    /** Appends the row computed from the last one. */
    method Append(k: Key, pendingDelta: real, usedDelta: real, adjustedDelta: real)
      modifies this`ledger
      ensures ledger == Posted(old(ledger), k, pendingDelta, usedDelta, adjustedDelta)
    {
      var prev := LatestRow(k);
      var pending := prev.pending + pendingDelta;
      var used := prev.used + usedDelta;
      var adjusted := prev.adjusted + adjustedDelta;
      var available := prev.opening + prev.accrued + prev.carriedOver - used - pending + adjusted;
      var next := Row(prev.opening, prev.accrued, prev.carriedOver, used, pending, adjusted, available,
                      prev.sequence + 1);
      assert next == Moved(prev, pendingDelta, usedDelta, adjustedDelta);
      ledger := ledger[k := ledger[k] + [next]];
    }

    /** The current balance, as the self-service screen reads it. */
    method Current(k: Key) returns (r: Row)
      modifies this`ledger
      ensures Tables() == Step(cfg, old(Tables()), ReadBalance(k))
      ensures r == Latest(old(ledger), k) == Latest(ledger, k)
    {
      r := LatestRow(k);
      OpenedRows(old(ledger), k, k);
    }

    /** Create and submit in one call; the id is fresh. */
    method Create(q: Request) returns (r: Result<Leave, Error>)
      requires q.id !in leaves
      modifies this
      ensures Tables() == Step(cfg, old(Tables()), Submit(q))
      ensures match Decide(cfg, old(Tables()), Submit(q))
              case Err(e) => r == Err(e)
              case Ok(Inserts(_, l)) => r == Ok(l)
              case Ok(_) => r.Ok? && r.value.idempotencyKey == q.idempotencyKey
                            && exists id :: id in old(leaves) && old(leaves)[id] == r.value
    {
      if |q.idempotencyKey| < 8 { return Err(MissingIdempotencyKey); }
      if exists id :: id in leaves && leaves[id].idempotencyKey == q.idempotencyKey {
        var id :| id in leaves && leaves[id].idempotencyKey == q.idempotencyKey;
        return Ok(leaves[id]);
      }
      if !cfg.leaveModeIsXOffice { return Err(SorNotXOffice); }
      if q.personId.None? { return Err(NoActingPerson); }
      if q.policyId !in cfg.policies { return Err(PolicyNotFound); }
      var policy := cfg.policies[q.policyId];
      if !policy.active { return Err(PolicyRetired); }
      if q.startAt.None? || q.endAt.None? { return Err(InvalidDates); }
      var personId, startAt, endAt := q.personId.value, q.startAt.value, q.endAt.value;
      if Clashes(Tables(), personId, startAt, endAt) { return Err(LeaveOverlap); }

      var duration := ComputeLeaveDuration(startAt, endAt, q.startPart, q.endPart, policy.unit);
      if duration.Err? { return Err(duration.error); }
      var l := Leave(personId, q.policyId, q.orgUnitId, startAt, endAt, duration.value, Submitted, q.idempotencyKey);
      var k := KeyOf(cfg, l);
      if policy.code != "UNPAID" {
        // The zero row that reading a balance may create is undone with the rest of a refused call.
        if !policy.allowNegative && Latest(ledger, k).available < duration.value {
          return Err(InsufficientBalance);
        }
      }
      leaves := leaves[q.id := l];
      Append(k, duration.value, 0.0, 0.0);
      r := Ok(l);
    }

    method SetStatus(id: Id, to: Status) returns (l: Leave)
      requires id in leaves
      modifies this`leaves
      ensures l == old(leaves)[id].(status := to)
      ensures leaves == old(leaves)[id := l]
    {
      l := leaves[id].(status := to);
      leaves := leaves[id := l];
    }

    /** The approver's list of org units is empty (unrestricted) or holds the request's unit. */
    predicate InScope(l: Leave, who: Actor) {
      who.scope == {} || (l.orgUnitId.Some? && l.orgUnitId.value in who.scope)
    }

    method ApproveRequest(id: Id, who: Actor) returns (r: Result<Leave, Error>)
      modifies this
      ensures Tables() == Step(cfg, old(Tables()), Act(Approve, id, who))
      ensures Answers(old(Tables()), Approve, id, who, r)
    {
      if id !in leaves { return Err(NotFound); }
      var l := leaves[id];
      if !InScope(l, who) { return Err(OutOfScope); }
      if Approved !in Next(l.status) { return Err(InvalidTransition); }
      var updated := SetStatus(id, Approved);
      Append(KeyOf(cfg, l), -l.duration, l.duration, 0.0);
      r := Ok(updated);
    }

    method RejectRequest(id: Id, who: Actor) returns (r: Result<Leave, Error>)
      modifies this
      ensures Tables() == Step(cfg, old(Tables()), Act(Reject, id, who))
      ensures Answers(old(Tables()), Reject, id, who, r)
    {
      if id !in leaves { return Err(NotFound); }
      var l := leaves[id];
      if !InScope(l, who) { return Err(OutOfScope); }
      if Rejected !in Next(l.status) { return Err(InvalidTransition); }
      var updated := SetStatus(id, Rejected);
      Append(KeyOf(cfg, l), -l.duration, 0.0, 0.0);
      r := Ok(updated);
    }

    method AskForChanges(id: Id, who: Actor) returns (r: Result<Leave, Error>)
      modifies this
      ensures Tables() == Step(cfg, old(Tables()), Act(RequestChanges, id, who))
      ensures Answers(old(Tables()), RequestChanges, id, who, r)
    {
      if id !in leaves { return Err(NotFound); }
      var l := leaves[id];
      if !InScope(l, who) { return Err(OutOfScope); }
      if ChangesRequested !in Next(l.status) { return Err(InvalidTransition); }
      var updated := SetStatus(id, ChangesRequested);
      r := Ok(updated);
    }

    method ResubmitRequest(id: Id, who: Actor) returns (r: Result<Leave, Error>)
      modifies this
      ensures Tables() == Step(cfg, old(Tables()), Act(Resubmit, id, who))
      ensures Answers(old(Tables()), Resubmit, id, who, r)
    {
      if id !in leaves { return Err(NotFound); }
      var l := leaves[id];
      if who.personId.None? { return Err(NoActingPerson); }
      if who.personId.value != l.personId { return Err(NotFound); }
      if Submitted !in Next(l.status) { return Err(InvalidTransition); }
      var updated := SetStatus(id, Submitted);
      r := Ok(updated);
    }

    /** Withdraws an undecided request at once; an approved one only asks for its cancellation. */
    method CancelRequest(id: Id, who: Actor) returns (r: Result<Leave, Error>)
      modifies this
      ensures Tables() == Step(cfg, old(Tables()), Act(Cancel, id, who))
      ensures Answers(old(Tables()), Cancel, id, who, r)
    {
      if id !in leaves { return Err(NotFound); }
      var l := leaves[id];
      if who.personId.None? { return Err(NoActingPerson); }
      if who.personId.value != l.personId { return Err(NotFound); }
      if l.status !in {Draft, Submitted, InReview, ChangesRequested, Approved} { return Err(InvalidTransition); }
      var to := if l.status == Approved then CancelRequested else Cancelled;
      if to !in Next(l.status) { return Err(InvalidTransition); }
      var updated := SetStatus(id, to);
      if to == Cancelled {
        Append(KeyOf(cfg, l), -l.duration, 0.0, 0.0);
      }
      r := Ok(updated);
    }

    method ApproveCancellation(id: Id, who: Actor) returns (r: Result<Leave, Error>)
      modifies this
      ensures Tables() == Step(cfg, old(Tables()), Act(CancelApprove, id, who))
      ensures Answers(old(Tables()), CancelApprove, id, who, r)
    {
      if id !in leaves { return Err(NotFound); }
      var l := leaves[id];
      if !InScope(l, who) { return Err(OutOfScope); }
      if Cancelled !in Next(l.status) { return Err(InvalidTransition); }
      var updated := SetStatus(id, Cancelled);
      Append(KeyOf(cfg, l), 0.0, -l.duration, 0.0);
      r := Ok(updated);
    }

    /** The answer of an action: its error, or the request with the status it moved to. */
    ghost predicate Answers(st: State, a: Action, id: Id, who: Actor, r: Result<Leave, Error>)
    {
      match DecideAct(st, a, id, who)
      case Err(e) => r == Err(e)
      case Ok(c) =>
        r.Ok? && id in st.leaves && (c.Sets? || c.SetsAndPosts?) && r.value == st.leaves[id].(status := c.to)
    }
  }
}
