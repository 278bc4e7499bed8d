/**
 * Leave requests and the append-only balance ledger: the state, what one operation does to it,
 * and what holds over every run of operations.
 */
module LeaveSpec {
  import opened Calendar
  import opened Common

  type Id = string

  datatype Status =
    Draft | Submitted | InReview | ChangesRequested | Approved | CancelRequested | Rejected | Cancelled

  datatype DayPart = Full | Am | Pm

  datatype Unit = Day | Hour

  datatype Policy = Policy(code: string, unit: Unit, allowNegative: bool, active: bool)

  /** A ledger is kept per person, policy and period (the calendar year of the first day). */
  datatype Key = Key(personId: Id, policyId: Id, period: int)

  datatype Leave = Leave(
    personId: Id, policyId: Id, orgUnitId: Option<Id>,
    startAt: int, endAt: int, duration: real,
    status: Status, idempotencyKey: string)

  datatype Row = Row(
    opening: real, accrued: real, carriedOver: real,
    used: real, pending: real, adjusted: real,
    available: real, sequence: int)

  /** The part of the environment that leave operations only read; periodOf is the server's local year. */
  datatype Config = Config(policies: map<Id, Policy>, periodOf: int -> int, leaveModeIsXOffice: bool)

  /** ledger[k] lists the rows of key k in the order they were appended. */
  datatype State = State(leaves: map<Id, Leave>, ledger: map<Key, seq<Row>>)

  datatype Action = Approve | Reject | RequestChanges | Resubmit | Cancel | CancelApprove

  /** The caller: the person behind the session, and the org units of the caller's data scope. */
  datatype Actor = Actor(personId: Option<Id>, scope: set<Id>)

  datatype Request = Request(
    id: Id, idempotencyKey: string, personId: Option<Id>, policyId: Id, orgUnitId: Option<Id>,
    startAt: Option<int>, endAt: Option<int>, startPart: DayPart, endPart: DayPart)

  datatype Op =
    | Submit(request: Request)
    | Act(action: Action, id: Id, actor: Actor)
    | ReadBalance(key: Key)

  datatype Error =
    | MissingIdempotencyKey | SorNotXOffice | NoActingPerson | PolicyNotFound | PolicyRetired
    | InvalidDates | LeaveOverlap | EndBeforeStart | InsufficientBalance
    | NotFound | OutOfScope | InvalidTransition

  // ---- the transition table ---------------------------------------------------------------

  function Next(s: Status): set<Status> {
    match s
    case Draft => {Submitted, Cancelled}
    case Submitted => {InReview, Approved, Rejected, ChangesRequested, Cancelled}
    case InReview => {Approved, Rejected, ChangesRequested, Cancelled}
    case ChangesRequested => {Submitted, Cancelled}
    case Approved => {CancelRequested}
    case CancelRequested => {Cancelled, Approved}
    case Rejected => {}
    case Cancelled => {}
  }

  /** Live requests occupy their dates and count against the balance. */
  const LIVE := {Draft, Submitted, InReview, ChangesRequested, Approved, CancelRequested}

  predicate Live(s: Status) { s in LIVE }

  /** Statuses whose duration belongs in the ledger's pending column. */
  const AWAITING := {Draft, Submitted, InReview, ChangesRequested}

  /** Statuses whose duration belongs in the ledger's used column. */
  const GRANTED := {Approved, CancelRequested}

  // ---- duration ---------------------------------------------------------------------------

  /** The days a request counts: the elapsed time rounded to whole days, and one. */
  function CountedDays(startAt: int, endAt: int): int {
    ((endAt - startAt) as real / MS_PER_DAY as real + 0.5).Floor + 1
  }

  /** How many half days the day parts take off. */
  function HalfDaysOff(startAt: int, endAt: int, startPart: DayPart, endPart: DayPart): nat {
    if startAt == endAt then (if startPart != Full || endPart != Full then 1 else 0)
    else (if startPart != Full then 1 else 0) + (if endPart != Full then 1 else 0)
  }

  function Duration(startAt: int, endAt: int, startPart: DayPart, endPart: DayPart, unit: Unit): (d: real)
    requires startAt <= endAt
    ensures d >= 0.0
    ensures unit == Day ==> d >= 0.5
  {
    match unit
    case Hour => (endAt - startAt) as real / MS_PER_HOUR as real
    case Day =>
      var d := CountedDays(startAt, endAt) as real
               - 0.5 * HalfDaysOff(startAt, endAt, startPart, endPart) as real;
      if d < 0.5 then 0.5 else d
  }

  // ---- the ledger -------------------------------------------------------------------------

  const InitialRow := Row(0.0, 0.0, 0.0, 0.0, 0.0, 0.0, 0.0, 1)

  function Latest(ledger: map<Key, seq<Row>>, k: Key): Row {
    if k in ledger && ledger[k] != [] then ledger[k][|ledger[k]| - 1] else InitialRow
  }

  function Rows(ledger: map<Key, seq<Row>>, k: Key): seq<Row> {
    if k in ledger then ledger[k] else []
  }

  /** Reading the balance of a key that has no row yet creates its zero row. */
  function Opened(ledger: map<Key, seq<Row>>, k: Key): map<Key, seq<Row>> {
    if Rows(ledger, k) != [] then ledger else ledger[k := [InitialRow]]
  }

  function Balance(r: Row): real {
    r.opening + r.accrued + r.carriedOver - r.used - r.pending + r.adjusted
  }

  predicate Coherent(r: Row) { r.available == Balance(r) }

  /** The row after prev once the three columns moved by the given amounts. */
  function Moved(prev: Row, pendingDelta: real, usedDelta: real, adjustedDelta: real): Row {
    var r := prev.(pending := prev.pending + pendingDelta, used := prev.used + usedDelta,
                   adjusted := prev.adjusted + adjustedDelta, sequence := prev.sequence + 1);
    r.(available := Balance(r))
  }

  function Posted(ledger: map<Key, seq<Row>>, k: Key, pendingDelta: real, usedDelta: real, adjustedDelta: real)
    : map<Key, seq<Row>>
  {
    var ready := Opened(ledger, k);
    ready[k := Rows(ready, k) + [Moved(Latest(ledger, k), pendingDelta, usedDelta, adjustedDelta)]]
  }

  // ---- one operation ----------------------------------------------------------------------

  function KeyOf(cfg: Config, l: Leave): Key { Key(l.personId, l.policyId, cfg.periodOf(l.startAt)) }

  /** What an action does to a request: nothing, a status change, or one with a ledger entry of
      pendingSign and usedSign times the duration. */
  datatype Effect = Refused | Moves(to: Status) | MovesAndPosts(to: Status, pendingSign: Sign, usedSign: Sign)

  datatype Sign = Minus | Zero | Plus

  function Times(s: Sign, d: real): real { match s case Minus => -d case Zero => 0.0 case Plus => d }

  function EffectOf(a: Action, s: Status): Effect {
    match a
    case Approve => if Approved in Next(s) then MovesAndPosts(Approved, Minus, Plus) else Refused
    case Reject => if Rejected in Next(s) then MovesAndPosts(Rejected, Minus, Zero) else Refused
    case RequestChanges => if ChangesRequested in Next(s) then Moves(ChangesRequested) else Refused
    case Resubmit => if Submitted in Next(s) then Moves(Submitted) else Refused
    case Cancel =>
      if s == Approved then Moves(CancelRequested)
      else if (s in AWAITING) then MovesAndPosts(Cancelled, Minus, Zero)
      else Refused
    case CancelApprove => if Cancelled in Next(s) then MovesAndPosts(Cancelled, Zero, Minus) else Refused
  }

  /** Requester actions need the requester; the others need the request inside the caller's scope. */
  function Authorize(a: Action, l: Leave, who: Actor): Result<(), Error> {
    if a == Resubmit || a == Cancel then
      if who.personId.None? then Err(NoActingPerson)
      else if who.personId.value != l.personId then Err(NotFound)
      else Ok(())
    else if who.scope != {} && (l.orgUnitId.None? || l.orgUnitId.value !in who.scope) then Err(OutOfScope)
    else Ok(())
  }

  /** What an operation amounts to once every check has passed. */
  datatype Change =
    | Nothing
    | Opens(key: Key)
    | Inserts(id: Id, leave: Leave)
    | Sets(id: Id, to: Status)
    | SetsAndPosts(id: Id, to: Status, pendingSign: Sign, usedSign: Sign)

  function DecideAct(st: State, a: Action, id: Id, who: Actor): Result<Change, Error> {
    if id !in st.leaves then Err(NotFound) else
      match Authorize(a, st.leaves[id], who)
      case Err(e) => Err(e)
      case Ok(_) =>
        match EffectOf(a, st.leaves[id].status)
        case Refused => Err(InvalidTransition)
        case Moves(to) => Ok(Sets(id, to))
        case MovesAndPosts(to, p, u) => Ok(SetsAndPosts(id, to, p, u))
  }

  predicate Overlaps(l: Leave, startAt: int, endAt: int) { l.startAt <= endAt && startAt <= l.endAt }

  predicate Replayed(st: State, idempotencyKey: string) {
    exists id :: id in st.leaves && st.leaves[id].idempotencyKey == idempotencyKey
  }

  predicate Clashes(st: State, personId: Id, startAt: int, endAt: int) {
    exists id :: id in st.leaves && st.leaves[id].personId == personId && Live(st.leaves[id].status)
                 && Overlaps(st.leaves[id], startAt, endAt)
  }

  /** The row that a valid submission inserts, or why it is refused. */
  function Admit(cfg: Config, st: State, q: Request): Result<Leave, Error> {
    if !cfg.leaveModeIsXOffice then Err(SorNotXOffice)
    else if q.personId.None? then Err(NoActingPerson)
    else if q.policyId !in cfg.policies then Err(PolicyNotFound)
    else if !cfg.policies[q.policyId].active then Err(PolicyRetired)
    else if q.startAt.None? || q.endAt.None? then Err(InvalidDates)
    else if Clashes(st, q.personId.value, q.startAt.value, q.endAt.value) then Err(LeaveOverlap)
    else if q.endAt.value < q.startAt.value then Err(EndBeforeStart)
    else
      var policy := cfg.policies[q.policyId];
      var d := Duration(q.startAt.value, q.endAt.value, q.startPart, q.endPart, policy.unit);
      var l := Leave(q.personId.value, q.policyId, q.orgUnitId, q.startAt.value, q.endAt.value, d,
                     Submitted, q.idempotencyKey);
      if policy.code != "UNPAID" && !policy.allowNegative && Latest(st.ledger, KeyOf(cfg, l)).available < d
      then Err(InsufficientBalance)
      else Ok(l)
  }

  /** A submission with a known idempotency key answers with the stored row and changes nothing. */
  function DecideSubmit(cfg: Config, st: State, q: Request): Result<Change, Error> {
    if |q.idempotencyKey| < 8 then Err(MissingIdempotencyKey)
    else if Replayed(st, q.idempotencyKey) then Ok(Nothing)
    else
      match Admit(cfg, st, q)
      case Err(e) => Err(e)
      case Ok(l) => Ok(Inserts(q.id, l))
  }

  function Decide(cfg: Config, st: State, op: Op): Result<Change, Error> {
    match op
    case Submit(q) => DecideSubmit(cfg, st, q)
    case Act(a, id, who) => DecideAct(st, a, id, who)
    case ReadBalance(k) => Ok(Opens(k))
  }

  /** The change carried out; ids of inserted rows are fresh. */
  function Apply(cfg: Config, st: State, c: Change): State {
    match c
    case Nothing => st
    case Opens(k) => st.(ledger := Opened(st.ledger, k))
    case Inserts(id, l) =>
      if id in st.leaves then st else
        State(st.leaves[id := l], Posted(st.ledger, KeyOf(cfg, l), l.duration, 0.0, 0.0))
    case Sets(id, to) =>
      if id !in st.leaves then st else
        st.(leaves := st.leaves[id := st.leaves[id].(status := to)])
    case SetsAndPosts(id, to, p, u) =>
      if id !in st.leaves then st else
        var l := st.leaves[id];
        State(st.leaves[id := l.(status := to)],
              Posted(st.ledger, KeyOf(cfg, l), Times(p, l.duration), Times(u, l.duration), 0.0))
  }

  function Step(cfg: Config, st: State, op: Op): State {
    match Decide(cfg, st, op)
    case Ok(c) => Apply(cfg, st, c)
    case Err(_) => st
  }

  function Run(cfg: Config, st: State, ops: seq<Op>): State
    decreases |ops|
  {
    if ops == [] then st else Run(cfg, Step(cfg, st, ops[0]), ops[1..])
  }

  // ---- conservation -----------------------------------------------------------------------

  /** What the ledger says is committed for a key. */
  function Committed(st: State, k: Key): real { Latest(st.ledger, k).used + Latest(st.ledger, k).pending }

  function Weight(cfg: Config, k: Key, counts: set<Status>): Leave -> real {
    (l: Leave) => if l.status in counts && KeyOf(cfg, l) == k then l.duration else 0.0
  }

  /** The durations of key k's requests whose status counts. */
  ghost function Total(cfg: Config, st: State, k: Key, counts: set<Status>): real {
    SumOver(st.leaves, Weight(cfg, k, counts))
  }

  ghost predicate SameSources(r: Row, r': Row) {
    r'.opening == r.opening && r'.accrued == r.accrued && r'.carriedOver == r.carriedOver && r'.adjusted == r.adjusted
  }

  /** The amounts by which a change moves the two columns of key k, if it posts to k. */
  ghost function PostedTo(cfg: Config, st: State, c: Change, k: Key): Option<(real, real)> {
    match c
    case Inserts(id, l) => if id !in st.leaves && KeyOf(cfg, l) == k then Some((l.duration, 0.0)) else None
    case SetsAndPosts(id, _, p, u) =>
      if id in st.leaves && KeyOf(cfg, st.leaves[id]) == k
      then Some((Times(p, st.leaves[id].duration), Times(u, st.leaves[id].duration))) else None
    case _ => None
  }

  lemma OpenedRows(ledger: map<Key, seq<Row>>, k: Key, j: Key)
    ensures Rows(Opened(ledger, k), j) == if j == k && Rows(ledger, k) == [] then [InitialRow] else Rows(ledger, j)
    ensures Latest(Opened(ledger, k), j) == Latest(ledger, j)
  {
  }

  lemma PostedRows(ledger: map<Key, seq<Row>>, k: Key, p: real, u: real, a: real, j: Key)
    ensures Rows(Posted(ledger, k, p, u, a), j)
            == if j == k then Rows(Opened(ledger, k), k) + [Moved(Latest(ledger, k), p, u, a)] else Rows(ledger, j)
    ensures Latest(Posted(ledger, k, p, u, a), j) == if j == k then Moved(Latest(ledger, k), p, u, a)
            else Latest(ledger, j)
  {
  }

  lemma MovedFacts(r: Row, p: real, u: real)
    ensures var r' := Moved(r, p, u, 0.0);
            r'.pending == r.pending + p && r'.used == r.used + u && SameSources(r, r') && Coherent(r')
            && (Coherent(r) ==> r'.available == r.available - p - u)
  {
  }

  lemma ApplyLatest(cfg: Config, st: State, c: Change, k: Key)
    ensures Latest(Apply(cfg, st, c).ledger, k)
            == match PostedTo(cfg, st, c, k)
               case None => Latest(st.ledger, k)
               case Some(d) => Moved(Latest(st.ledger, k), d.0, d.1, 0.0)
  {
    if c.Opens? {
      OpenedRows(st.ledger, c.key, k);
    } else if c.Inserts? {
      PostedRows(st.ledger, KeyOf(cfg, c.leave), c.leave.duration, 0.0, 0.0, k);
    } else if c.SetsAndPosts? && c.id in st.leaves {
      var l := st.leaves[c.id];
      PostedRows(st.ledger, KeyOf(cfg, l), Times(c.pendingSign, l.duration), Times(c.usedSign, l.duration), 0.0, k);
    }
  }

  /** What a change does to the figures of key k's last row. */
  lemma ApplyPosts(cfg: Config, st: State, c: Change, k: Key)
    ensures var r, r', d := Latest(st.ledger, k), Latest(Apply(cfg, st, c).ledger, k), PostedTo(cfg, st, c, k);
            if d.None? then r' == r
            else r'.pending == r.pending + d.value.0 && r'.used == r.used + d.value.1
                 && SameSources(r, r') && Coherent(r')
                 && (Coherent(r) ==> r'.available == r.available - d.value.0 - d.value.1)
  {
    ApplyLatest(cfg, st, c, k);
    var d := PostedTo(cfg, st, c, k);
    if d.Some? { MovedFacts(Latest(st.ledger, k), d.value.0, d.value.1); }
  }

  /** The amount by which an operation changes the sum over the requests whose status counts. */
  ghost function TotalChange(cfg: Config, st: State, c: Change, k: Key, counts: set<Status>): real {
    match c
    case Inserts(id, l) => if id !in st.leaves then Weight(cfg, k, counts)(l) else 0.0
    case Sets(id, to) => if id in st.leaves then Reweighed(cfg, st.leaves[id], to, k, counts) else 0.0
    case SetsAndPosts(id, to, _, _) => if id in st.leaves then Reweighed(cfg, st.leaves[id], to, k, counts) else 0.0
    case _ => 0.0
  }

  ghost function Reweighed(cfg: Config, l: Leave, to: Status, k: Key, counts: set<Status>): real {
    if KeyOf(cfg, l) != k then 0.0
    else (if to in counts then l.duration else 0.0) - (if l.status in counts then l.duration else 0.0)
  }

  lemma ApplyTotal(cfg: Config, st: State, c: Change, k: Key, counts: set<Status>)
    ensures Total(cfg, Apply(cfg, st, c), k, counts)
            == Total(cfg, st, k, counts) + TotalChange(cfg, st, c, k, counts)
  {
    var w := Weight(cfg, k, counts);
    match c
    case Inserts(id, l) => if id !in st.leaves { SumInsert(st.leaves, id, l, w); }
    case Sets(id, to) => if id in st.leaves { SumUpdate(st.leaves, id, st.leaves[id].(status := to), w); }
    case SetsAndPosts(id, to, _, _) =>
      if id in st.leaves { SumUpdate(st.leaves, id, st.leaves[id].(status := to), w); }
    case _ =>
  }

  /** Policies whose requests are checked against the balance. */
  predicate Restricted(cfg: Config, k: Key) {
    k.policyId in cfg.policies && cfg.policies[k.policyId].code != "UNPAID" && !cfg.policies[k.policyId].allowNegative
  }

  /** What the checks guarantee about the change they let through. */
  ghost predicate Sound(cfg: Config, st: State, c: Change) {
    match c
    case Inserts(_, l) =>
      && l.startAt <= l.endAt && l.duration >= 0.0 && l.status == Submitted
      && !Clashes(st, l.personId, l.startAt, l.endAt)
      && (Restricted(cfg, KeyOf(cfg, l)) ==> l.duration <= Latest(st.ledger, KeyOf(cfg, l)).available)
    case Sets(id, to) =>
      && id in st.leaves && Live(to) && to in Next(st.leaves[id].status)
      && (to in AWAITING) == (st.leaves[id].status in AWAITING)
    case SetsAndPosts(id, to, p, u) =>
      && id in st.leaves && to in Next(st.leaves[id].status)
      && (if to == Approved then p == Minus && u == Plus
          else !Live(to) && ((p == Minus && u == Zero) || (p == Zero && u == Minus)))
    case _ => true
  }

  lemma DecideActIsSound(cfg: Config, st: State, a: Action, id: Id, who: Actor)
    ensures var d := DecideAct(st, a, id, who); d.Ok? ==> Sound(cfg, st, d.value)
  {
  }

  lemma DecideIsSound(cfg: Config, st: State, op: Op)
    ensures var d := Decide(cfg, st, op); d.Ok? ==> Sound(cfg, st, d.value)
  {
    if op.Act? { DecideActIsSound(cfg, st, op.action, op.id, op.actor); }
  }

  lemma ApplyConserves(cfg: Config, st: State, c: Change, k: Key)
    requires Sound(cfg, st, c)
    ensures var st' := Apply(cfg, st, c);
            Committed(st', k) - Committed(st, k) == Total(cfg, st', k, LIVE) - Total(cfg, st, k, LIVE)
  {
    ApplyPosts(cfg, st, c, k);
    ApplyTotal(cfg, st, c, k, LIVE);
  }

  lemma StepConserves(cfg: Config, st: State, op: Op, k: Key)
    ensures var st' := Step(cfg, st, op);
            Committed(st', k) - Committed(st, k) == Total(cfg, st', k, LIVE) - Total(cfg, st, k, LIVE)
  {
    DecideIsSound(cfg, st, op);
    if Decide(cfg, st, op).Ok? { ApplyConserves(cfg, st, Decide(cfg, st, op).value, k); }
  }

  /** Over every run, used + pending of a key grows by exactly the durations of its live requests. */
  lemma {:induction false} RunConserves(cfg: Config, st: State, ops: seq<Op>, k: Key)
    ensures var st' := Run(cfg, st, ops);
            Committed(st', k) - Committed(st, k) == Total(cfg, st', k, LIVE) - Total(cfg, st, k, LIVE)
    decreases |ops|
  {
    if ops == [] {
    } else {
      StepConserves(cfg, st, ops[0], k);
      RunConserves(cfg, Step(cfg, st, ops[0]), ops[1..], k);
    }
  }

  // ---- the ledger only grows, and its available column stays right --------------------------

  ghost predicate Follows(r: Row, r': Row) {
    r'.sequence == r.sequence + 1 && SameSources(r, r') && Coherent(r')
  }

  /** Earlier rows are never rewritten, each new row follows the one before it with the next sequence
      number and a coherent balance, and a new ledger opens with the zero row. */
  ghost predicate Extends(before: seq<Row>, after: seq<Row>) {
    && before <= after
    && (forall i, j :: |before| <= j < |after| && 0 <= i == j - 1 ==> Follows(after[i], after[j]))
    && (before == [] && after != [] ==> after[0] == InitialRow)
  }

  lemma StepExtends(cfg: Config, st: State, op: Op, k: Key)
    ensures Extends(Rows(st.ledger, k), Rows(Step(cfg, st, op).ledger, k))
  {
    if Decide(cfg, st, op).Ok? { ApplyExtends(cfg, st, Decide(cfg, st, op).value, k); }
  }

  lemma ApplyExtends(cfg: Config, st: State, c: Change, k: Key)
    ensures Extends(Rows(st.ledger, k), Rows(Apply(cfg, st, c).ledger, k))
  {
    if c.Opens? {
      OpenedRows(st.ledger, c.key, k);
    } else if c.Inserts? && c.id !in st.leaves {
      PostedExtends(st.ledger, KeyOf(cfg, c.leave), c.leave.duration, 0.0, k);
    } else if c.SetsAndPosts? && c.id in st.leaves {
      var l := st.leaves[c.id];
      PostedExtends(st.ledger, KeyOf(cfg, l), Times(c.pendingSign, l.duration), Times(c.usedSign, l.duration), k);
    }
  }

  lemma PostedExtends(ledger: map<Key, seq<Row>>, k: Key, p: real, u: real, j: Key)
    ensures Extends(Rows(ledger, j), Rows(Posted(ledger, k, p, u, 0.0), j))
  {
    PostedRows(ledger, k, p, u, 0.0, j);
    if j == k {
      OpenedRows(ledger, k, k);
      MovedFacts(Latest(ledger, k), p, u);
      AppendExtends(Rows(ledger, k), Latest(ledger, k), Moved(Latest(ledger, k), p, u, 0.0));
    }
  }

  lemma AppendExtends(before: seq<Row>, last: Row, next: Row)
    requires last == if before == [] then InitialRow else before[|before| - 1]
    requires Follows(last, next)
    ensures Extends(before, (if before == [] then [InitialRow] else before) + [next])
  {
  }

  lemma {:induction false} RunExtends(cfg: Config, st: State, ops: seq<Op>, k: Key)
    ensures Extends(Rows(st.ledger, k), Rows(Run(cfg, st, ops).ledger, k))
    decreases |ops|
  {
    if ops == [] {
    } else {
      var mid := Step(cfg, st, ops[0]);
      StepExtends(cfg, st, ops[0], k);
      RunExtends(cfg, mid, ops[1..], k);
      ExtendsTransitive(Rows(st.ledger, k), Rows(mid.ledger, k), Rows(Run(cfg, st, ops).ledger, k));
    }
  }

  lemma ExtendsTransitive(a: seq<Row>, b: seq<Row>, c: seq<Row>)
    requires Extends(a, b) && Extends(b, c)
    ensures Extends(a, c)
  {
    forall i, j | |a| <= j < |c| && 0 <= i == j - 1 ensures Follows(c[i], c[j]) {
      if j < |b| { assert c[i] == b[i] && c[j] == b[j]; }
    }
  }

  lemma {:induction false} SourcesFixed(before: seq<Row>, after: seq<Row>, n: nat)
    requires Extends(before, after) && before != [] && |before| <= n <= |after|
    ensures SameSources(before[|before| - 1], after[n - 1])
    ensures n > |before| ==> Coherent(after[n - 1])
    decreases n
  {
    if n <= |before| {
    } else {
      SourcesFixed(before, after, n - 1);
      assert Follows(after[n - 2], after[n - 1]);
    }
  }

  /** Over every run, available of a key's last row is its opening, accrued, carried-over and adjusted
      amounts less what was committed at the start and what the live requests added since. */
  lemma AvailableFormula(cfg: Config, st: State, ops: seq<Op>, k: Key)
    requires Coherent(Latest(st.ledger, k))
    ensures var st' := Run(cfg, st, ops);
            var r := Latest(st.ledger, k);
            Latest(st'.ledger, k).available
            == r.opening + r.accrued + r.carriedOver + r.adjusted
               - (Committed(st, k) + Total(cfg, st', k, LIVE) - Total(cfg, st, k, LIVE))
  {
    RunConserves(cfg, st, ops, k);
    RunExtends(cfg, st, ops, k);
    LastRow(Rows(st.ledger, k), Rows(Run(cfg, st, ops).ledger, k));
  }

  lemma LastRow(before: seq<Row>, after: seq<Row>)
    requires Extends(before, after)
    ensures var r := if before == [] then InitialRow else before[|before| - 1];
            var r' := if after == [] then InitialRow else after[|after| - 1];
            SameSources(r, r') && (Coherent(r) ==> Coherent(r'))
  {
    if before != [] {
      SourcesFixed(before, after, |after|);
    } else if after != [] {
      assert [InitialRow] <= after;
      assert Extends([InitialRow], after);
      SourcesFixed([InitialRow], after, |after|);
    }
  }

  // ---- the split between pending and used --------------------------------------------------

  /** The two table-legal steps that move the wrong ledger column. */
  ghost predicate OddStep(st: State, op: Op) {
    op.Act? && op.id in st.leaves && st.leaves[op.id].duration != 0.0
    && Authorize(op.action, st.leaves[op.id], op.actor).Ok?
    && var s := st.leaves[op.id].status;
       (op.action == Approve && s == CancelRequested)
       || (op.action == CancelApprove && (s in AWAITING))
  }

  ghost predicate SplitKept(cfg: Config, st: State, st': State, k: Key) {
    && Latest(st'.ledger, k).pending - Latest(st.ledger, k).pending
       == Total(cfg, st', k, AWAITING) - Total(cfg, st, k, AWAITING)
    && Latest(st'.ledger, k).used - Latest(st.ledger, k).used
       == Total(cfg, st', k, GRANTED) - Total(cfg, st, k, GRANTED)
  }

  /** Exactly the odd steps break the split of some key. */
  lemma StepSplit(cfg: Config, st: State, op: Op)
    ensures (forall k :: SplitKept(cfg, st, Step(cfg, st, op), k)) <==> !OddStep(st, op)
  {
    if OddStep(st, op) {
      var k := KeyOf(cfg, st.leaves[op.id]);
      StepSplitAt(cfg, st, op, k);
      assert !SplitKept(cfg, st, Step(cfg, st, op), k);
    } else {
      forall k ensures SplitKept(cfg, st, Step(cfg, st, op), k) { StepSplitAt(cfg, st, op, k); }
    }
  }

  /** A posted change keeps the split of k exactly when the columns it moves are those of the statuses
      it leaves and enters. */
  lemma ApplySplit(cfg: Config, st: State, c: Change, k: Key)
    requires Sound(cfg, st, c)
    ensures SplitKept(cfg, st, Apply(cfg, st, c), k)
            <==> !(c.SetsAndPosts? && KeyOf(cfg, st.leaves[c.id]) == k && st.leaves[c.id].duration != 0.0
                   && (st.leaves[c.id].status in AWAITING) != (c.pendingSign == Minus))
  {
    ApplyPosts(cfg, st, c, k);
    ApplyTotal(cfg, st, c, k, AWAITING);
    ApplyTotal(cfg, st, c, k, GRANTED);
  }

  lemma OddStepDecision(st: State, a: Action, id: Id, who: Actor)
    ensures var d := DecideAct(st, a, id, who);
            OddStep(st, Act(a, id, who))
            <==> d.Ok? && d.value.SetsAndPosts? && st.leaves[id].duration != 0.0
                 && (st.leaves[id].status in AWAITING) != (d.value.pendingSign == Minus)
  {
  }

  lemma StepSplitAt(cfg: Config, st: State, op: Op, k: Key)
    ensures SplitKept(cfg, st, Step(cfg, st, op), k)
            <==> !(OddStep(st, op) && KeyOf(cfg, st.leaves[op.id]) == k)
  {
    DecideIsSound(cfg, st, op);
    if op.Act? { OddStepDecision(st, op.action, op.id, op.actor); }
    if Decide(cfg, st, op).Ok? { ApplySplit(cfg, st, Decide(cfg, st, op).value, k); }
  }

  ghost predicate NoOddStep(cfg: Config, st: State, ops: seq<Op>)
    decreases |ops|
  {
    ops == [] || (!OddStep(st, ops[0]) && NoOddStep(cfg, Step(cfg, st, ops[0]), ops[1..]))
  }

  lemma {:induction false} RunSplit(cfg: Config, st: State, ops: seq<Op>, k: Key)
    requires NoOddStep(cfg, st, ops)
    ensures SplitKept(cfg, st, Run(cfg, st, ops), k)
    decreases |ops|
  {
    if ops == [] {
    } else {
      StepSplitAt(cfg, st, ops[0], k);
      RunSplit(cfg, Step(cfg, st, ops[0]), ops[1..], k);
    }
  }

  /** The failing family is not empty: approving a request out of CancelRequested is let through and
      books its duration as used a second time, leaving pending short by as much. */
  lemma ReapprovalMovesTheWrongColumn(cfg: Config, st: State, id: Id, who: Actor)
    requires id in st.leaves && st.leaves[id].status == CancelRequested && st.leaves[id].duration > 0.0
    requires who.scope == {}
    ensures var l := st.leaves[id];
            var r := Latest(st.ledger, KeyOf(cfg, l));
            var r' := Latest(Step(cfg, st, Act(Approve, id, who)).ledger, KeyOf(cfg, l));
            r'.pending == r.pending - l.duration && r'.used == r.used + l.duration
  {
    var c := SetsAndPosts(id, Approved, Minus, Plus);
    assert DecideAct(st, Approve, id, who) == Ok(c);
    ApplyLatest(cfg, st, c, KeyOf(cfg, st.leaves[id]));
  }

  // ---- available never drops below zero ----------------------------------------------------

  predicate InCredit(r: Row) { Coherent(r) && r.available >= 0.0 }

  ghost predicate Solvent(cfg: Config, st: State) {
    && (forall id :: id in st.leaves ==> st.leaves[id].duration >= 0.0)
    && (forall k :: Restricted(cfg, k) ==> InCredit(Latest(st.ledger, k)))
  }

  lemma StepSolvent(cfg: Config, st: State, op: Op)
    requires Solvent(cfg, st)
    ensures Solvent(cfg, Step(cfg, st, op))
  {
    DecideIsSound(cfg, st, op);
    if Decide(cfg, st, op).Ok? { ApplySolvent(cfg, st, Decide(cfg, st, op).value); }
  }

  lemma ApplySolvent(cfg: Config, st: State, c: Change)
    requires Solvent(cfg, st) && Sound(cfg, st, c)
    ensures Solvent(cfg, Apply(cfg, st, c))
  {
    forall k | Restricted(cfg, k)
      ensures InCredit(Latest(Apply(cfg, st, c).ledger, k))
    {
      ApplyInCredit(cfg, st, c, k);
    }
    ApplyDurations(cfg, st, c);
  }

  lemma ApplyInCredit(cfg: Config, st: State, c: Change, k: Key)
    requires Sound(cfg, st, c) && Restricted(cfg, k) && InCredit(Latest(st.ledger, k))
    requires forall id :: id in st.leaves ==> st.leaves[id].duration >= 0.0
    ensures InCredit(Latest(Apply(cfg, st, c).ledger, k))
  {
    ApplyLatest(cfg, st, c, k);
    PostedWithinBalance(cfg, st, c, k);
    MovedInCredit(Latest(st.ledger, k), PostedTo(cfg, st, c, k), Latest(Apply(cfg, st, c).ledger, k));
  }

  /** A submission of a restricted policy fits the balance; every other entry gives days back. */
  lemma PostedWithinBalance(cfg: Config, st: State, c: Change, k: Key)
    requires Sound(cfg, st, c) && Restricted(cfg, k) && Latest(st.ledger, k).available >= 0.0
    requires forall id :: id in st.leaves ==> st.leaves[id].duration >= 0.0
    ensures PostedTo(cfg, st, c, k).Some? ==>
              PostedTo(cfg, st, c, k).value.0 + PostedTo(cfg, st, c, k).value.1 <= Latest(st.ledger, k).available
  {
  }

  lemma MovedInCredit(r: Row, d: Option<(real, real)>, r': Row)
    requires InCredit(r) && (d.Some? ==> d.value.0 + d.value.1 <= r.available)
    requires r' == match d case None => r case Some(x) => Moved(r, x.0, x.1, 0.0)
    ensures InCredit(r')
  {
  }

  lemma ApplyDurations(cfg: Config, st: State, c: Change)
    requires Sound(cfg, st, c) && forall id :: id in st.leaves ==> st.leaves[id].duration >= 0.0
    ensures forall id :: id in Apply(cfg, st, c).leaves ==> Apply(cfg, st, c).leaves[id].duration >= 0.0
  {
  }

  /** On every run, odd steps included, a restricted policy's available balance stays non-negative. */
  lemma {:induction false} RunSolvent(cfg: Config, st: State, ops: seq<Op>)
    requires Solvent(cfg, st)
    ensures Solvent(cfg, Run(cfg, st, ops))
    decreases |ops|
  {
    if ops == [] {
    } else {
      StepSolvent(cfg, st, ops[0]);
      RunSolvent(cfg, Step(cfg, st, ops[0]), ops[1..]);
    }
  }

  // ---- live requests of one person never overlap -------------------------------------------

  ghost predicate NoOverlap(st: State) {
    && (forall id :: id in st.leaves ==> st.leaves[id].startAt <= st.leaves[id].endAt)
    && (forall i, j :: i in st.leaves && j in st.leaves && i != j
          && st.leaves[i].personId == st.leaves[j].personId
          && Live(st.leaves[i].status) && Live(st.leaves[j].status)
          ==> !Overlaps(st.leaves[i], st.leaves[j].startAt, st.leaves[j].endAt))
  }

  lemma ApplyNoOverlap(cfg: Config, st: State, c: Change)
    requires NoOverlap(st) && Sound(cfg, st, c)
    ensures NoOverlap(Apply(cfg, st, c))
  {
  }

  lemma StepNoOverlap(cfg: Config, st: State, op: Op)
    requires NoOverlap(st)
    ensures NoOverlap(Step(cfg, st, op))
  {
    DecideIsSound(cfg, st, op);
    if Decide(cfg, st, op).Ok? { ApplyNoOverlap(cfg, st, Decide(cfg, st, op).value); }
  }

  lemma {:induction false} RunNoOverlap(cfg: Config, st: State, ops: seq<Op>)
    requires NoOverlap(st)
    ensures NoOverlap(Run(cfg, st, ops))
    decreases |ops|
  {
    if ops == [] {
    } else {
      StepNoOverlap(cfg, st, ops[0]);
      RunNoOverlap(cfg, Step(cfg, st, ops[0]), ops[1..]);
    }
  }

  // ---- statuses follow the table -----------------------------------------------------------

  /** Requests are never dropped, never edited but for their status, and final statuses are final. */
  ghost predicate Evolves(before: map<Id, Leave>, after: map<Id, Leave>) {
    forall id :: id in before ==>
      && id in after
      && after[id] == before[id].(status := after[id].status)
      && (!Live(before[id].status) ==> after[id].status == before[id].status)
  }

  lemma StepFollowsTable(cfg: Config, st: State, op: Op)
    ensures var st' := Step(cfg, st, op);
            Evolves(st.leaves, st'.leaves)
            && forall id :: id in st.leaves && st'.leaves[id].status != st.leaves[id].status
                 ==> st'.leaves[id].status in Next(st.leaves[id].status)
  {
    DecideIsSound(cfg, st, op);
    if Decide(cfg, st, op).Ok? { ApplyFollowsTable(cfg, st, Decide(cfg, st, op).value); }
  }

  lemma ApplyFollowsTable(cfg: Config, st: State, c: Change)
    requires Sound(cfg, st, c)
    ensures var st' := Apply(cfg, st, c);
            Evolves(st.leaves, st'.leaves)
            && forall id :: id in st.leaves && st'.leaves[id].status != st.leaves[id].status
                 ==> st'.leaves[id].status in Next(st.leaves[id].status)
  {
  }

  lemma {:induction false} RunEvolves(cfg: Config, st: State, ops: seq<Op>)
    ensures Evolves(st.leaves, Run(cfg, st, ops).leaves)
    decreases |ops|
  {
    if ops == [] {
    } else {
      StepFollowsTable(cfg, st, ops[0]);
      RunEvolves(cfg, Step(cfg, st, ops[0]), ops[1..]);
    }
  }

  // ---- what a duration means ----------------------------------------------------------------

  /** The calendar days from start to end, both included, on a clock zone milliseconds ahead of UTC. */
  function DaysTouched(startAt: int, endAt: int, zone: int): int { DayOf(endAt + zone) - DayOf(startAt + zone) + 1 }

  const HALF_DAY := 43_200_000

  /** The end is at most half a day earlier on the clock than the start, and less than half a day later. */
  predicate ClocksAgree(startAt: int, endAt: int, zone: int) {
    -HALF_DAY <= TimeInDay(endAt + zone) - TimeInDay(startAt + zone) < HALF_DAY
  }

  lemma RoundedDays(days: int, time: int)
    requires -MS_PER_DAY < time < MS_PER_DAY
    ensures ((days * MS_PER_DAY + time) as real / MS_PER_DAY as real + 0.5).Floor
            == days + if time < -HALF_DAY then -1 else if time < HALF_DAY then 0 else 1
  {
    var x := time as real / MS_PER_DAY as real;
    assert (days * MS_PER_DAY + time) as real / MS_PER_DAY as real == days as real + x;
    assert -1.0 < x < 1.0 && (x < -0.5 <==> time < -HALF_DAY) && (x < 0.5 <==> time < HALF_DAY);
  }

  /** The count is one short, right or one too many, by the clocks alone. */
  lemma CountedDaysExactly(startAt: int, endAt: int, zone: int)
    ensures CountedDays(startAt, endAt) == DaysTouched(startAt, endAt, zone)
              + var d := TimeInDay(endAt + zone) - TimeInDay(startAt + zone);
                if d < -HALF_DAY then -1 else if d < HALF_DAY then 0 else 1
  {
    var s, e := startAt + zone, endAt + zone;
    var days, time := DayOf(e) - DayOf(s), TimeInDay(e) - TimeInDay(s);
    assert e - s == days * MS_PER_DAY + time;
    RoundedDays(days, time);
  }

  function Halves(startPart: DayPart, endPart: DayPart): real {
    (if startPart != Full then 0.5 else 0.0) + if endPart != Full then 0.5 else 0.0
  }

  /** A request counts the calendar days it touches less half a day for each half-day bound exactly when its
      clocks agree, and it is not one day with two half-day bounds, which counts half a day. */
  lemma DurationExactly(startAt: int, endAt: int, startPart: DayPart, endPart: DayPart, zone: int)
    requires startAt <= endAt
    ensures Duration(startAt, endAt, startPart, endPart, Day)
            == DaysTouched(startAt, endAt, zone) as real - Halves(startPart, endPart)
            <==> ClocksAgree(startAt, endAt, zone)
                 && !(DaysTouched(startAt, endAt, zone) == 1 && startPart != Full && endPart != Full)
  {
    CountedDaysExactly(startAt, endAt, zone);
    assert DaysTouched(startAt, endAt, zone) >= 1 && CountedDays(startAt, endAt) >= 1;
  }

  /** Over n whole days a request counts n + 1 days less the half-day bounds; two of them take half a day
      off a single day. */
  lemma WholeDayDuration(startAt: int, n: nat, startPart: DayPart, endPart: DayPart)
    ensures Duration(startAt, startAt + n * MS_PER_DAY, startPart, endPart, Day)
            == if n == 0 && startPart != Full && endPart != Full then 0.5
               else n as real + 1.0 - Halves(startPart, endPart)
  {
    RoundedDays(n, 0);
  }

  /** From eight in the morning to nine at night of one day is two days. */
  lemma EveningCountsTwice(day: int)
    ensures var eight, nine := MakeDate(day, 8 * MS_PER_HOUR), MakeDate(day, 21 * MS_PER_HOUR);
            DaysTouched(eight, nine, 0) == 1 && Duration(eight, nine, Full, Full, Day) == 2.0
  {
    RoundedDays(0, 13 * MS_PER_HOUR);
  }
}
