/** Account provisioning: bindings, the commands that carry them out through an adapter, retries and drift. */
module Provisioning {
  import opened Common

  datatype CommandStatus = Completed | Failed | Conflict

  datatype BindingStatus = Active | BindingFailed | BindingConflict

  /** The person and application of a binding. */
  datatype Key = Key(personId: string, app: string)

  /** A stored command: how often it was executed, and what its payload tells the adapter. */
  datatype Command = Command(key: Key, status: CommandStatus, attempts: nat, failUntil: int, simulateExisting: bool,
                             idempotencyKey: string)

  datatype Binding = Binding(status: BindingStatus, accountId: Option<string>)

  datatype State = State(
    enabled: set<string>, people: set<string>, commands: map<string, Command>, bindings: map<Key, Binding>,
    conflicts: map<string, string>)

  datatype Error = NotEnabled | UnknownPerson | CommandNotFound | BindingMissing

  // ---- the adapter ---------------------------------------------------------------------------------

  datatype Outcome = Created(accountId: string) | AlreadyExists | Transient

  /** One attempt, counted from one; account is the target's deterministic id for a person. */
  function Provision(account: Key -> string, key: Key, attempt: nat, failUntil: int, simulateExisting: bool): Outcome {
    if simulateExisting then AlreadyExists
    else if failUntil != 0 && attempt < failUntil then Transient
    else Created(account(key))
  }

  /** The number of executions a command needs when the target reports no existing account. */
  function Needed(failUntil: int): nat { if failUntil < 1 then 1 else failUntil }

  lemma ProvisionNeeds(account: Key -> string, key: Key, attempt: nat, failUntil: int)
    requires attempt >= 1
    ensures Provision(account, key, attempt, failUntil, false).Created? <==> attempt >= Needed(failUntil)
  {
  }

  // ---- steps ---------------------------------------------------------------------------------------

  datatype Op =
    | Bind(key: Key, idempotencyKey: string, failUntil: int, simulateExisting: bool, commandId: string,
           conflictId: string)
    | Retry(commandId: string, conflictId: string)

  predicate UsesKey(s: State, id: string, idempotencyKey: string) {
    id in s.commands && s.commands[id].idempotencyKey == idempotencyKey
  }

  /** Runs a command once and stores what came of it in the command, its binding and the conflict list. */
  function Execute(account: Key -> string, s: State, id: string, conflictId: string): Result<State, Error> {
    if id !in s.commands then Err(CommandNotFound)
    else
      var c := s.commands[id].(attempts := s.commands[id].attempts + 1);
      if c.key !in s.bindings then Err(BindingMissing) else
        match Provision(account, c.key, c.attempts, c.failUntil, c.simulateExisting)
        case Created(accountId) =>
          Ok(s.(commands := s.commands[id := c.(status := Completed)],
                bindings := s.bindings[c.key := Binding(Active, Some(accountId))]))
        case AlreadyExists =>
          Ok(s.(commands := s.commands[id := c.(status := Conflict)],
                bindings := s.bindings[c.key := s.bindings[c.key].(status := BindingConflict)],
                conflicts := s.conflicts[conflictId := id]))
        case Transient =>
          Ok(s.(commands := s.commands[id := c.(status := Failed)],
                bindings := s.bindings[c.key := s.bindings[c.key].(status := BindingFailed)]))
  }

  /** A repeated key replays; an active binding gives a conflict; otherwise a command is made and executed. */
  function BindStep(account: Key -> string, s: State, op: Op): Result<State, Error>
    requires op.Bind?
  {
    if exists c :: c in s.commands && UsesKey(s, c, op.idempotencyKey) then Ok(s)
    else if op.key.app !in s.enabled then Err(NotEnabled)
    else if op.key.personId !in s.people then Err(UnknownPerson)
    else if op.key in s.bindings && s.bindings[op.key].status == Active then
      Ok(s.(commands := s.commands[op.commandId := Command(op.key, Conflict, 0, op.failUntil, op.simulateExisting,
                                                           op.idempotencyKey)],
            conflicts := s.conflicts[op.conflictId := op.commandId]))
    else Execute(account, Prepared(s, op), op.commandId, op.conflictId)
  }

  /** The binding and the command before the first execution, which decides both statuses. */
  function Prepared(s: State, op: Op): State
    requires op.Bind?
  {
    s.(bindings := if op.key in s.bindings then s.bindings else s.bindings[op.key := Binding(BindingFailed, None)],
       commands := s.commands[op.commandId := Command(op.key, Failed, 0, op.failUntil, op.simulateExisting,
                                                      op.idempotencyKey)])
  }

  function RetryStep(account: Key -> string, s: State, id: string, conflictId: string): Result<State, Error> {
    if id !in s.commands then Err(CommandNotFound)
    else if s.commands[id].status == Completed then Ok(s)
    else Execute(account, s, id, conflictId)
  }

  function Step(account: Key -> string, s: State, op: Op): Result<State, Error> {
    match op
    case Bind(_, _, _, _, _, _) => BindStep(account, s, op)
    case Retry(id, conflictId) => RetryStep(account, s, id, conflictId)
  }

  function Next(account: Key -> string, s: State, op: Op): State {
    match Step(account, s, op) case Ok(s') => s' case Err(_) => s
  }

  function Run(account: Key -> string, s: State, ops: seq<Op>): State {
    if ops == [] then s else Next(account, Run(account, s, ops[..|ops| - 1]), ops[|ops| - 1])
  }

  predicate FreshIds(s: State, op: Op) {
    op.conflictId !in s.conflicts && (op.Bind? ==> op.commandId !in s.commands)
  }

  predicate AllFresh(account: Key -> string, s: State, ops: seq<Op>) {
    ops == [] || (AllFresh(account, s, ops[..|ops| - 1]) && FreshIds(Run(account, s, ops[..|ops| - 1]), ops[|ops| - 1]))
  }

  // ---- what every step keeps -----------------------------------------------------------------------

  predicate CompletedFor(s: State, id: string, key: Key) {
    id in s.commands && s.commands[id].key == key && s.commands[id].status == Completed
  }

  predicate IsBacked(s: State, key: Key) { exists id :: id in s.commands && CompletedFor(s, id, key) }

  /** What a stored status says about the executions so far. */
  predicate FitsStatus(c: Command) {
    match c.status
    case Completed => !c.simulateExisting && c.attempts == Needed(c.failUntil)
    case Failed => !c.simulateExisting && 1 <= c.attempts < Needed(c.failUntil)
    case Conflict => c.simulateExisting || c.attempts == 0
  }

  predicate Recorded(s: State, id: string) { exists x :: x in s.conflicts && s.conflicts[x] == id }

  /** An active binding has a completed command, and account ids are the target's own. */
  predicate BindingsOk(account: Key -> string, s: State) {
    forall k :: k in s.bindings ==>
      && (s.bindings[k].status == Active ==> IsBacked(s, k) && s.bindings[k].accountId.Some?)
      && (s.bindings[k].accountId.Some? ==> s.bindings[k].accountId.value == account(k))
  }

  /** Every command has its binding, and its status fits, except perhaps for one. */
  predicate CommandsOk(s: State, except: Option<string>) {
    forall id :: id in s.commands
        ==> s.commands[id].key in s.bindings && (Some(id) != except ==> FitsStatus(s.commands[id]))
  }

  predicate ConflictsOk(s: State, except: Option<string>) {
    forall id :: id in s.commands && s.commands[id].status == Conflict && Some(id) != except ==> Recorded(s, id)
  }

  predicate KeysOk(s: State) {
    forall a, b :: a in s.commands && b in s.commands && s.commands[a].idempotencyKey == s.commands[b].idempotencyKey
        ==> a == b
  }

  predicate Valid(account: Key -> string, s: State) {
    BindingsOk(account, s) && CommandsOk(s, None) && ConflictsOk(s, None) && KeysOk(s)
  }

  /** Valid, but for one command about to be executed. */
  predicate Ready(account: Key -> string, s: State, id: string) {
    && BindingsOk(account, s) && CommandsOk(s, Some(id)) && ConflictsOk(s, Some(id)) && KeysOk(s)
    && id in s.commands && s.commands[id].status != Completed
    && (s.commands[id].simulateExisting || s.commands[id].attempts < Needed(s.commands[id].failUntil))
  }

  /** Completed commands stay as they are. */
  predicate KeepsCompleted(s: State, s': State) {
    forall id :: id in s.commands && s.commands[id].status == Completed
        ==> id in s'.commands && s'.commands[id] == s.commands[id]
  }

  lemma BackedStays(s: State, s': State, key: Key)
    requires IsBacked(s, key) && KeepsCompleted(s, s')
    ensures IsBacked(s', key)
  {
    var id :| id in s.commands && CompletedFor(s, id, key);
    assert CompletedFor(s', id, key);
  }

  lemma RecordedStays(s: State, s': State, id: string)
    requires Recorded(s, id) && forall x :: x in s.conflicts ==> x in s'.conflicts && s'.conflicts[x] == s.conflicts[x]
    ensures Recorded(s', id)
  {
    var x :| x in s.conflicts && s.conflicts[x] == id;
    assert s'.conflicts[x] == id;
  }

  lemma ExecuteCommands(account: Key -> string, s: State, id: string, conflictId: string)
    requires Ready(account, s, id)
    ensures var r := Execute(account, s, id, conflictId);
            r.Ok? && KeepsCompleted(s, r.value) && CommandsOk(r.value, None) && KeysOk(r.value)
  {
    var c := s.commands[id];
    if !c.simulateExisting { ProvisionNeeds(account, c.key, c.attempts + 1, c.failUntil); }
  }

  lemma ExecuteBindings(account: Key -> string, s: State, id: string, conflictId: string)
    requires Ready(account, s, id)
    ensures var r := Execute(account, s, id, conflictId); r.Ok? && BindingsOk(account, r.value)
  {
    ExecuteCommands(account, s, id, conflictId);
    var s' := Execute(account, s, id, conflictId).value;
    forall k | k in s'.bindings && s'.bindings[k].status == Active ensures IsBacked(s', k) {
      if k == s.commands[id].key { assert CompletedFor(s', id, k); } else { BackedStays(s, s', k); }
    }
  }

  lemma ExecuteConflicts(account: Key -> string, s: State, id: string, conflictId: string)
    requires Ready(account, s, id) && conflictId !in s.conflicts
    ensures var r := Execute(account, s, id, conflictId); r.Ok? && ConflictsOk(r.value, None)
  {
    var s' := Execute(account, s, id, conflictId).value;
    forall x | x in s'.commands && s'.commands[x].status == Conflict ensures Recorded(s', x) {
      if x == id { assert s'.conflicts[conflictId] == id; } else { RecordedStays(s, s', x); }
    }
  }

  lemma ExecuteKeeps(account: Key -> string, s: State, id: string, conflictId: string)
    requires Ready(account, s, id) && conflictId !in s.conflicts
    ensures var r := Execute(account, s, id, conflictId); r.Ok? && Valid(account, r.value) && KeepsCompleted(s, r.value)
  {
    ExecuteCommands(account, s, id, conflictId);
    ExecuteBindings(account, s, id, conflictId);
    ExecuteConflicts(account, s, id, conflictId);
  }

  lemma NotCompletedReady(account: Key -> string, s: State, id: string)
    requires Valid(account, s) && id in s.commands && s.commands[id].status != Completed
    ensures Ready(account, s, id)
  {
  }

  lemma PreparedReady(account: Key -> string, s: State, op: Op)
    requires Valid(account, s) && op.Bind? && op.commandId !in s.commands
    requires op.key in s.bindings ==> s.bindings[op.key].status != Active
    requires forall c :: c in s.commands ==> !UsesKey(s, c, op.idempotencyKey)
    ensures Ready(account, Prepared(s, op), op.commandId) && KeepsCompleted(s, Prepared(s, op))
  {
    var s' := Prepared(s, op);
    forall k | k in s'.bindings && s'.bindings[k].status == Active ensures IsBacked(s', k) { BackedStays(s, s', k); }
    forall x | x in s.commands && s.commands[x].status == Conflict ensures Recorded(s', x) { RecordedStays(s, s', x); }
  }

  /** A new request for an active binding only adds a conflict. */
  lemma DuplicateKeeps(account: Key -> string, s: State, op: Op, s': State)
    requires Valid(account, s) && op.Bind? && FreshIds(s, op) && op.key in s.bindings
    requires forall c :: c in s.commands ==> !UsesKey(s, c, op.idempotencyKey)
    requires s' == s.(commands := s.commands[op.commandId := Command(op.key, Conflict, 0, op.failUntil,
                                                                     op.simulateExisting, op.idempotencyKey)],
                      conflicts := s.conflicts[op.conflictId := op.commandId])
    ensures Valid(account, s') && KeepsCompleted(s, s')
  {
    forall k | k in s'.bindings && s'.bindings[k].status == Active ensures IsBacked(s', k) { BackedStays(s, s', k); }
    forall x | x in s'.commands && s'.commands[x].status == Conflict ensures Recorded(s', x) {
      if x == op.commandId { assert s'.conflicts[op.conflictId] == x; } else { RecordedStays(s, s', x); }
    }
  }

  lemma BindKeeps(account: Key -> string, s: State, op: Op)
    requires Valid(account, s) && op.Bind? && FreshIds(s, op) && BindStep(account, s, op).Ok?
    ensures Valid(account, BindStep(account, s, op).value) && KeepsCompleted(s, BindStep(account, s, op).value)
  {
    if !(exists c :: c in s.commands && UsesKey(s, c, op.idempotencyKey)) {
      if op.key in s.bindings && s.bindings[op.key].status == Active {
        DuplicateKeeps(account, s, op, BindStep(account, s, op).value);
      } else {
        PreparedReady(account, s, op);
        ExecuteKeeps(account, Prepared(s, op), op.commandId, op.conflictId);
      }
    }
  }

  lemma StepKeeps(account: Key -> string, s: State, op: Op)
    requires Valid(account, s) && FreshIds(s, op)
    ensures Valid(account, Next(account, s, op)) && KeepsCompleted(s, Next(account, s, op))
  {
    match op
    case Bind(_, _, _, _, _, _) => if BindStep(account, s, op).Ok? { BindKeeps(account, s, op); }
    case Retry(id, conflictId) =>
      if id in s.commands && s.commands[id].status != Completed {
        NotCompletedReady(account, s, id);
        ExecuteKeeps(account, s, id, conflictId);
      }
  }

  /** In every run an active binding has a completed command, a completed command stays completed, and a
      stored status tells exactly how far its command has come. */
  lemma {:induction false} RunKeeps(account: Key -> string, s: State, ops: seq<Op>)
    requires Valid(account, s) && AllFresh(account, s, ops)
    ensures Valid(account, Run(account, s, ops)) && KeepsCompleted(s, Run(account, s, ops))
  {
    if ops == [] {
    } else {
      RunKeeps(account, s, ops[..|ops| - 1]);
      StepKeeps(account, Run(account, s, ops[..|ops| - 1]), ops[|ops| - 1]);
    }
  }

  // ---- retrying ------------------------------------------------------------------------------------

  /** The state after retrying one command n times; ids numbers the conflicts reported on the way. */
  function Retried(account: Key -> string, s: State, id: string, n: nat, ids: nat -> string): State {
    if n == 0 then s else Next(account, Retried(account, s, id, n - 1, ids), Retry(id, ids(n - 1)))
  }

  /** One more execution of a command the target does not refuse. */
  lemma RetryOnce(account: Key -> string, s: State, id: string, conflictId: string)
    requires id in s.commands && s.commands[id].key in s.bindings
    requires !s.commands[id].simulateExisting && s.commands[id].status != Completed
    ensures var c, s' := s.commands[id], Next(account, s, Retry(id, conflictId));
            && id in s'.commands && c.key in s'.bindings
            && s'.commands[id] == c.(attempts := c.attempts + 1,
                                     status := if c.attempts + 1 >= Needed(c.failUntil) then Completed else Failed)
            && (s'.commands[id].status == Completed ==> s'.bindings[c.key] == Binding(Active, Some(account(c.key))))
  {
    ProvisionNeeds(account, s.commands[id].key, s.commands[id].attempts + 1, s.commands[id].failUntil);
  }

  /** A command the target does not refuse completes on exactly the execution its payload asks for, however
      many it has behind it, and not before. */
  lemma {:induction false} RetryCompletes(account: Key -> string, s: State, id: string, n: nat, ids: nat -> string)
    requires id in s.commands && s.commands[id].key in s.bindings
    requires !s.commands[id].simulateExisting && s.commands[id].status != Completed
    requires 0 < n <= Needed(s.commands[id].failUntil) - s.commands[id].attempts
    ensures var c, s' := s.commands[id], Retried(account, s, id, n, ids);
            && id in s'.commands && c.key in s'.bindings
            && s'.commands[id] == c.(attempts := c.attempts + n,
                                     status := if c.attempts + n == Needed(c.failUntil) then Completed else Failed)
            && (s'.commands[id].status == Completed ==> s'.bindings[c.key] == Binding(Active, Some(account(c.key))))
  {
    if n <= 1 {
    } else {
      RetryCompletes(account, s, id, n - 1, ids);
    }
    RetryOnce(account, Retried(account, s, id, n - 1, ids), id, ids(n - 1));
  }

  // ---- reconciliation ------------------------------------------------------------------------------

  datatype Issue = ActiveWithoutCompleted(key: Key) | CompletedWithoutActive(key: Key)

  predicate IsActive(s: State, key: Key) { key in s.bindings && s.bindings[key].status == Active }

  /** No completed command is left without its active binding. */
  predicate NoDrift(s: State) {
    forall id :: id in s.commands && s.commands[id].status == Completed ==> IsActive(s, s.commands[id].key)
  }

  /** The report compares person and application as one text. */
  function TextKey(k: Key): string { k.personId + ":" + k.app }

  function CompletedTexts(s: State): set<string> {
    set id | id in s.commands && s.commands[id].status == Completed :: TextKey(s.commands[id].key)
  }

  function ActiveTexts(s: State): set<string> {
    set k | k in s.bindings && s.bindings[k].status == Active :: TextKey(k)
  }

  /** The active bindings, in the order listed, whose text no completed command has. */
  function UnbackedIssues(s: State, keys: seq<Key>): seq<Issue>
    requires forall k :: k in keys ==> k in s.bindings
  {
    if keys == [] then [] else
      var k := keys[|keys| - 1];
      UnbackedIssues(s, keys[..|keys| - 1])
      + if s.bindings[k].status == Active && TextKey(k) !in CompletedTexts(s) then [ActiveWithoutCompleted(k)] else []
  }

  /** The completed commands, in the order listed, whose text no active binding has. */
  function DriftIssues(s: State, ids: seq<string>): seq<Issue>
    requires forall id :: id in ids ==> id in s.commands
  {
    if ids == [] then [] else
      var c := s.commands[ids[|ids| - 1]];
      DriftIssues(s, ids[..|ids| - 1])
      + if c.status == Completed && TextKey(c.key) !in ActiveTexts(s) then [CompletedWithoutActive(c.key)] else []
  }

  /** The database's listings of bindings and commands. */
  ghost predicate Listings(s: State, keys: seq<Key>, ids: seq<string>) {
    && NoDuplicates(keys) && (forall k :: k in keys <==> k in s.bindings)
    && NoDuplicates(ids) && (forall id :: id in ids <==> id in s.commands)
  }

  /** Compares bindings with commands. */
  method Reconcile(s: State, keys: seq<Key>, ids: seq<string>) returns (issues: seq<Issue>)
    requires Listings(s, keys, ids)
    ensures issues == UnbackedIssues(s, keys) + DriftIssues(s, ids)
  {
    var completedKey, bindingKey := CompletedTexts(s), ActiveTexts(s);
    issues := [];
    for i := 0 to |keys|
      invariant forall k :: k in keys[..i] ==> k in s.bindings
      invariant issues == UnbackedIssues(s, keys[..i])
    {
      assert keys[..i + 1][..i] == keys[..i];
      var k := keys[i];
      if s.bindings[k].status == Active && TextKey(k) !in completedKey {
        issues := issues + [ActiveWithoutCompleted(k)];
      }
    }
    assert keys[..|keys|] == keys;
    for i := 0 to |ids|
      invariant forall id :: id in ids[..i] ==> id in s.commands
      invariant issues == UnbackedIssues(s, keys) + DriftIssues(s, ids[..i])
    {
      assert ids[..i + 1][..i] == ids[..i];
      var c := s.commands[ids[i]];
      if c.status == Completed && TextKey(c.key) !in bindingKey { issues := issues + [CompletedWithoutActive(c.key)]; }
    }
    assert ids[..|ids|] == ids;
  }

  lemma {:induction false} UnbackedMember(s: State, keys: seq<Key>, k: Key)
    requires forall x :: x in keys ==> x in s.bindings
    ensures ActiveWithoutCompleted(k) in UnbackedIssues(s, keys)
            <==> k in keys && IsActive(s, k) && TextKey(k) !in CompletedTexts(s)
    ensures CompletedWithoutActive(k) !in UnbackedIssues(s, keys)
  {
    if keys == [] {
    } else {
      UnbackedMember(s, keys[..|keys| - 1], k);
      assert keys == keys[..|keys| - 1] + [keys[|keys| - 1]];
    }
  }

  /** Which of the listed commands have this key, completed and in drift. */
  function Drifting(s: State, ids: seq<string>, k: Key): nat
    requires forall id :: id in ids ==> id in s.commands
  {
    if ids == [] then 0 else
      var drifts := CompletedFor(s, ids[|ids| - 1], k) && TextKey(k) !in ActiveTexts(s);
      Drifting(s, ids[..|ids| - 1], k) + if drifts then 1 else 0
  }

  /** One issue for every completed command without an active binding, so one per command and key. */
  lemma {:induction false} DriftMember(s: State, ids: seq<string>, k: Key)
    requires forall id :: id in ids ==> id in s.commands
    ensures multiset(DriftIssues(s, ids))[CompletedWithoutActive(k)] == Drifting(s, ids, k)
    ensures ActiveWithoutCompleted(k) !in DriftIssues(s, ids)
  {
    if ids == [] {
    } else {
      DriftMember(s, ids[..|ids| - 1], k);
      var c := s.commands[ids[|ids| - 1]];
      if c.status == Completed && TextKey(c.key) !in ActiveTexts(s) {
        var before := DriftIssues(s, ids[..|ids| - 1]);
        assert multiset(before + [CompletedWithoutActive(c.key)])
               == multiset(before) + multiset{CompletedWithoutActive(c.key)};
      }
    }
  }

  lemma {:induction false} SomeDrifting(s: State, ids: seq<string>, k: Key)
    requires forall id :: id in ids ==> id in s.commands
    ensures Drifting(s, ids, k) > 0
            <==> TextKey(k) !in ActiveTexts(s) && exists id :: id in ids && CompletedFor(s, id, k)
  {
    if ids == [] {
    } else {
      var n := |ids| - 1;
      SomeDrifting(s, ids[..n], k);
      assert ids == ids[..n] + [ids[n]];
      if id :| id in ids && CompletedFor(s, id, k) { assert id in ids[..n] || id == ids[n]; }
    }
  }

  /** Another active binding has the text of this key. */
  ghost predicate Masked(s: State, k: Key) { exists l :: IsActive(s, l) && l != k && TextKey(l) == TextKey(k) }

  /** A completed command for another key has the text of this one. */
  ghost predicate BackedElsewhere(s: State, k: Key) { exists l :: IsBacked(s, l) && l != k && TextKey(l) == TextKey(k) }

  lemma TextsMean(s: State, k: Key)
    ensures TextKey(k) in ActiveTexts(s) <==> IsActive(s, k) || Masked(s, k)
    ensures TextKey(k) in CompletedTexts(s) <==> IsBacked(s, k) || BackedElsewhere(s, k)
  {
    if TextKey(k) in ActiveTexts(s) {
      var l :| l in s.bindings && s.bindings[l].status == Active && TextKey(l) == TextKey(k);
      assert IsActive(s, l);
    }
    if TextKey(k) in CompletedTexts(s) {
      var id :| id in s.commands && s.commands[id].status == Completed && TextKey(s.commands[id].key) == TextKey(k);
      assert CompletedFor(s, id, s.commands[id].key) && IsBacked(s, s.commands[id].key);
    }
    forall l | IsBacked(s, l) ensures TextKey(l) in CompletedTexts(s) {
      var id :| id in s.commands && CompletedFor(s, id, l);
      assert TextKey(s.commands[id].key) in CompletedTexts(s);
    }
  }

  /** What the report names, whatever the ids and codes: the active bindings without a completed command and
      the completed commands without an active binding, but for those whose text another key has. */
  lemma ReportMeans(s: State, keys: seq<Key>, ids: seq<string>, k: Key)
    requires Listings(s, keys, ids)
    ensures var issues := UnbackedIssues(s, keys) + DriftIssues(s, ids);
            (ActiveWithoutCompleted(k) in issues <==> IsActive(s, k) && !IsBacked(s, k) && !BackedElsewhere(s, k))
            && (CompletedWithoutActive(k) in issues <==> IsBacked(s, k) && !IsActive(s, k) && !Masked(s, k))
  {
    UnbackedMember(s, keys, k);
    DriftMember(s, ids, k);
    SomeDrifting(s, ids, k);
    TextsMean(s, k);
    if IsBacked(s, k) {
      var id :| id in s.commands && CompletedFor(s, id, k);
      assert id in ids;
    }
  }

  /** A key with a completed command is reported exactly when it drifted, just when it has not drifted or no
      other active binding has its text. */
  lemma DriftSeenExactly(s: State, keys: seq<Key>, ids: seq<string>, k: Key)
    requires Listings(s, keys, ids) && IsBacked(s, k)
    ensures (CompletedWithoutActive(k) in UnbackedIssues(s, keys) + DriftIssues(s, ids) <==> !IsActive(s, k))
            <==> IsActive(s, k) || !Masked(s, k)
  {
    ReportMeans(s, keys, ids, k);
  }

  /** The last colon of a text is the one before an application code that has none. */
  lemma LastColon(k: Key)
    requires ':' !in k.app
    ensures TextKey(k)[|k.personId|] == ':'
    ensures forall i :: |k.personId| < i < |TextKey(k)| ==> TextKey(k)[i] != ':'
  {
    forall i | |k.personId| < i < |TextKey(k)| ensures TextKey(k)[i] != ':' {
      assert TextKey(k)[i] == k.app[i - |k.personId| - 1];
    }
  }

  /** So such a text tells its key, whatever the person's id. */
  lemma TextKeyInjective(k: Key, l: Key)
    requires ':' !in k.app && ':' !in l.app && TextKey(k) == TextKey(l)
    ensures k == l
  {
    LastColon(k);
    LastColon(l);
    var p, q := |k.personId|, |l.personId|;
    assert p == q;
    assert TextKey(k)[..p] == k.personId && TextKey(l)[..q] == l.personId;
    assert TextKey(k)[p + 1..] == k.app && TextKey(l)[q + 1..] == l.app;
  }

  /** Bindings and enabled applications are from the catalogue. */
  predicate FromCatalogue(s: State, catalogue: set<string>) {
    s.enabled <= catalogue && forall k :: k in s.bindings ==> k.app in catalogue
  }

  lemma {:induction false} RunFromCatalogue(account: Key -> string, s: State, ops: seq<Op>, catalogue: set<string>)
    requires FromCatalogue(s, catalogue)
    ensures FromCatalogue(Run(account, s, ops), catalogue)
  {
    if ops == [] {
    } else {
      RunFromCatalogue(account, s, ops[..|ops| - 1], catalogue);
      StepFromCatalogue(account, Run(account, s, ops[..|ops| - 1]), ops[|ops| - 1], catalogue);
    }
  }

  lemma StepFromCatalogue(account: Key -> string, s: State, op: Op, catalogue: set<string>)
    requires FromCatalogue(s, catalogue)
    ensures FromCatalogue(Next(account, s, op), catalogue)
  {
  }

  /** After any run the report is right: the applications of the catalogue have no colon in their codes, and
      on those it names exactly the completed commands without an active binding, and nothing else. */
  lemma ReportRight(account: Key -> string, s: State, ops: seq<Op>, catalogue: set<string>,
                    keys: seq<Key>, ids: seq<string>, issue: Issue)
    requires Valid(account, s) && AllFresh(account, s, ops) && FromCatalogue(s, catalogue)
    requires forall code :: code in catalogue ==> ':' !in code
    requires Listings(Run(account, s, ops), keys, ids)
    ensures var end := Run(account, s, ops);
            issue in UnbackedIssues(end, keys) + DriftIssues(end, ids)
            <==> issue.CompletedWithoutActive? && IsBacked(end, issue.key) && !IsActive(end, issue.key)
  {
    var end, k := Run(account, s, ops), issue.key;
    RunKeeps(account, s, ops);
    RunFromCatalogue(account, s, ops, catalogue);
    ReportMeans(end, keys, ids, k);
    NeverUnbacked(account, end, keys, ids, k);
    if IsBacked(end, k) {
      BackedBound(account, end, k);
      forall l | IsActive(end, l) && TextKey(l) == TextKey(k) ensures l == k { TextKeyInjective(k, l); }
    }
  }

  lemma BackedBound(account: Key -> string, s: State, k: Key)
    requires Valid(account, s) && IsBacked(s, k)
    ensures k in s.bindings
  {
    var id :| id in s.commands && CompletedFor(s, id, k);
  }

  /** The first kind of issue is never reported in a valid state. */
  lemma NeverUnbacked(account: Key -> string, s: State, keys: seq<Key>, ids: seq<string>, k: Key)
    requires Valid(account, s) && Listings(s, keys, ids)
    ensures ActiveWithoutCompleted(k) !in UnbackedIssues(s, keys) + DriftIssues(s, ids)
  {
    UnbackedMember(s, keys, k);
    DriftMember(s, ids, k);
    if IsActive(s, k) {
      var id :| id in s.commands && CompletedFor(s, id, k);
      assert TextKey(s.commands[id].key) in CompletedTexts(s);
    }
  }

  /** Whether an operation makes a command's attempt fail on a binding that another command completed. */
  predicate BreaksBinding(account: Key -> string, s: State, op: Op) {
    op.Retry? && op.commandId in s.commands && s.commands[op.commandId].status != Completed
    && IsBacked(s, s.commands[op.commandId].key)
    && !Provision(account, s.commands[op.commandId].key, s.commands[op.commandId].attempts + 1,
                  s.commands[op.commandId].failUntil, s.commands[op.commandId].simulateExisting).Created?
  }

  lemma Broken(account: Key -> string, s: State, op: Op)
    requires Valid(account, s) && BreaksBinding(account, s, op)
    ensures !NoDrift(Next(account, s, op))
  {
    var s', key := Next(account, s, op), s.commands[op.commandId].key;
    var id :| id in s.commands && CompletedFor(s, id, key);
    assert s'.commands[id].status == Completed && !IsActive(s', key);
  }

  /** The second kind of issue appears exactly when a retry fails on a binding some other command completed. */
  lemma DriftExactly(account: Key -> string, s: State, op: Op)
    requires Valid(account, s) && FreshIds(s, op) && NoDrift(s)
    ensures NoDrift(Next(account, s, op)) <==> !BreaksBinding(account, s, op)
  {
    var s' := Next(account, s, op);
    if BreaksBinding(account, s, op) {
      Broken(account, s, op);
    } else if op.Retry? && op.commandId in s.commands && s.commands[op.commandId].status != Completed {
      ExecuteNoDrift(account, s, op.commandId, op.conflictId);
    } else if op.Bind? && BindStep(account, s, op).Ok? && s' != s {
      BindNoDrift(account, s, op);
    }
  }

  const FRESH := State({"app"}, {"ann"}, map[], map[], map[])
  const ACCOUNT := Key("ann", "app")
  const FAILING := Bind(ACCOUNT, "1", 3, false, "c", "x")
  const SECOND := Bind(ACCOUNT, "2", 0, false, "d", "y")
  const AGAIN := Retry("c", "z")

  /** Drift is reached: a first request fails, a second one under another key completes, and the first one
      is retried, which fails again. */
  lemma DriftReached(account: Key -> string)
    ensures AllFresh(account, FRESH, [FAILING, SECOND, AGAIN])
    ensures var s := Run(account, FRESH, [FAILING, SECOND, AGAIN]);
            CompletedFor(s, "d", ACCOUNT) && !IsActive(s, ACCOUNT) && !NoDrift(s)
  {
    ThreeSteps(account, FRESH, FAILING, SECOND, AGAIN);
    FirstFails(account, FRESH);
    SecondCompletes(account, Next(account, FRESH, FAILING));
    RetryFails(account, Next(account, Next(account, FRESH, FAILING), SECOND));
  }

  lemma RunMore(account: Key -> string, s: State, ops: seq<Op>, op: Op)
    ensures Run(account, s, ops + [op]) == Next(account, Run(account, s, ops), op)
    ensures AllFresh(account, s, ops + [op]) <==> AllFresh(account, s, ops) && FreshIds(Run(account, s, ops), op)
  {
    assert (ops + [op])[..|ops|] == ops;
  }

  lemma ThreeSteps(account: Key -> string, s: State, a: Op, b: Op, c: Op)
    ensures var s1 := Next(account, s, a);
            var s2 := Next(account, s1, b);
            Run(account, s, [a, b, c]) == Next(account, s2, c)
            && (AllFresh(account, s, [a, b, c]) <==> FreshIds(s, a) && FreshIds(s1, b) && FreshIds(s2, c))
  {
    assert [a] == [] + [a] && [a, b] == [a] + [b] && [a, b, c] == [a, b] + [c];
    RunMore(account, s, [], a);
    RunMore(account, s, [a], b);
    RunMore(account, s, [a, b], c);
  }

  lemma FirstFails(account: Key -> string, s: State)
    requires s == FRESH
    ensures Next(account, s, FAILING)
            == s.(commands := map["c" := Command(ACCOUNT, Failed, 1, 3, false, "1")],
                  bindings := map[ACCOUNT := Binding(BindingFailed, None)])
  {
  }

  lemma SecondCompletes(account: Key -> string, s: State)
    requires s == FRESH.(commands := map["c" := Command(ACCOUNT, Failed, 1, 3, false, "1")],
                         bindings := map[ACCOUNT := Binding(BindingFailed, None)])
    ensures Next(account, s, SECOND)
            == s.(commands := s.commands["d" := Command(ACCOUNT, Completed, 1, 0, false, "2")],
                  bindings := map[ACCOUNT := Binding(Active, Some(account(ACCOUNT)))])
  {
    assert "c"[0] != "d"[0] && "1"[0] != "2"[0];
    forall x | x in s.commands ensures !UsesKey(s, x, "2") { }
  }

  lemma RetryFails(account: Key -> string, s: State)
    requires "c" in s.commands && s.commands["c"] == Command(ACCOUNT, Failed, 1, 3, false, "1") && ACCOUNT in s.bindings
    requires "d" in s.commands && CompletedFor(s, "d", ACCOUNT)
    ensures var s' := Next(account, s, AGAIN); CompletedFor(s', "d", ACCOUNT) && !IsActive(s', ACCOUNT) && !NoDrift(s')
  {
    assert "c"[0] != "d"[0];
    var s' := Next(account, s, AGAIN);
    assert s'.commands["d"].status == Completed && !IsActive(s', ACCOUNT);
  }

  /** An execution leaves no drift when it completes, or when no command was completed for its binding. */
  lemma ExecuteNoDrift(account: Key -> string, s: State, id: string, conflictId: string)
    requires NoDrift(s) && Execute(account, s, id, conflictId).Ok?
    requires var c := s.commands[id];
             !IsBacked(s, c.key) || Provision(account, c.key, c.attempts + 1, c.failUntil, c.simulateExisting).Created?
    ensures NoDrift(Execute(account, s, id, conflictId).value)
  {
    var s', key := Execute(account, s, id, conflictId).value, s.commands[id].key;
    forall x | x in s'.commands && s'.commands[x].status == Completed && x != id
      ensures IsActive(s', s'.commands[x].key)
    {
      assert IsActive(s, s.commands[x].key);
      if s.commands[x].key == key { assert CompletedFor(s, x, key); }
    }
  }

  lemma BindNoDrift(account: Key -> string, s: State, op: Op)
    requires Valid(account, s) && NoDrift(s) && op.Bind? && FreshIds(s, op) && BindStep(account, s, op).Ok?
    ensures NoDrift(BindStep(account, s, op).value)
  {
    if !IsActive(s, op.key) {
      forall id | id in s.commands ensures !CompletedFor(s, id, op.key) { }
      var s' := Prepared(s, op);
      forall id | id in s'.commands && s'.commands[id].status == Completed ensures IsActive(s', s'.commands[id].key) {
        assert IsActive(s, s.commands[id].key);
      }
      forall id | id in s'.commands ensures !CompletedFor(s', id, op.key) { }
      ExecuteNoDrift(account, s', op.commandId, op.conflictId);
    } else {
      forall id | id in s.commands && s.commands[id].status == Completed ensures IsActive(s, s.commands[id].key) { }
    }
  }

  // ---- the service ---------------------------------------------------------------------------------

  class Service {
    var enabled: set<string>
    var people: set<string>
    var commands: map<string, Command>
    var bindings: map<Key, Binding>
    var conflicts: map<string, string>
    const account: Key -> string

    constructor (enabled: set<string>, people: set<string>, account: Key -> string)
      ensures Tables() == State(enabled, people, map[], map[], map[]) && this.account == account
    {
      this.enabled, this.people, this.account := enabled, people, account;
      commands, bindings, conflicts := map[], map[], map[];
    }

    ghost function Tables(): State reads this { State(enabled, people, commands, bindings, conflicts) }

    ghost predicate Answered(before: State, step: Result<State, Error>, r: Result<(), Error>) reads this {
      if step.Ok? then r == Ok(()) && Tables() == step.value else r == Err(step.error) && Tables() == before
    }

    /** One execution: count it, ask the adapter, store the outcome. */
    method ExecuteCommand(id: string, conflictId: string) returns (r: Result<(), Error>)
      modifies this
      ensures Answered(old(Tables()), Execute(account, old(Tables()), id, conflictId), r)
    {
      if id !in commands { return Err(CommandNotFound); }
      var c := commands[id];
      if c.key !in bindings { return Err(BindingMissing); }
      var attempt := c.attempts + 1;
      commands := commands[id := c.(attempts := attempt)];
      var res := Provision(account, c.key, attempt, c.failUntil, c.simulateExisting);
      StoreOutcome(id, res, conflictId);
      r := Ok(());
    }

    method StoreOutcome(id: string, res: Outcome, conflictId: string)
      requires id in commands && commands[id].key in bindings
      modifies this
      ensures enabled == old(enabled) && people == old(people)
      ensures var c := old(commands)[id];
              commands == old(commands)[id := c.(status := match res
                 case Created(_) => Completed
                 case AlreadyExists => Conflict
                 case Transient => Failed)]
              && bindings == old(bindings)[c.key := match res
                 case Created(accountId) => Binding(Active, Some(accountId))
                 case AlreadyExists => old(bindings)[c.key].(status := BindingConflict)
                 case Transient => old(bindings)[c.key].(status := BindingFailed)]
      ensures conflicts == if res.AlreadyExists? then old(conflicts)[conflictId := id] else old(conflicts)
    {
      var c := commands[id];
      match res {
        case Created(accountId) =>
          commands := commands[id := c.(status := Completed)];
          bindings := bindings[c.key := Binding(Active, Some(accountId))];
        case AlreadyExists =>
          commands := commands[id := c.(status := Conflict)];
          bindings := bindings[c.key := bindings[c.key].(status := BindingConflict)];
          conflicts := conflicts[conflictId := id];
        case Transient =>
          commands := commands[id := c.(status := Failed)];
          bindings := bindings[c.key := bindings[c.key].(status := BindingFailed)];
      }
    }

    method CreateBinding(key: Key, idempotencyKey: string, failUntil: int, simulateExisting: bool, commandId: string,
                         conflictId: string)
      returns (r: Result<(), Error>)
      modifies this
      ensures Answered(old(Tables()),
                BindStep(account, old(Tables()),
                         Bind(key, idempotencyKey, failUntil, simulateExisting, commandId, conflictId)), r)
    {
      ghost var op := Bind(key, idempotencyKey, failUntil, simulateExisting, commandId, conflictId);
      ghost var before := Tables();
      assert forall c :: c in commands ==>
             (UsesKey(before, c, idempotencyKey) <==> commands[c].idempotencyKey == idempotencyKey);
      if exists c :: c in commands && commands[c].idempotencyKey == idempotencyKey { return Ok(()); }
      if key.app !in enabled { return Err(NotEnabled); }
      if key.personId !in people { return Err(UnknownPerson); }
      if key in bindings && bindings[key].status == Active {
        commands := commands[commandId := Command(key, Conflict, 0, failUntil, simulateExisting, idempotencyKey)];
        conflicts := conflicts[conflictId := commandId];
        return Ok(());
      }
      if key !in bindings { bindings := bindings[key := Binding(BindingFailed, None)]; }
      commands := commands[commandId := Command(key, Failed, 0, failUntil, simulateExisting, idempotencyKey)];
      assert Tables() == Prepared(before, op);
      r := ExecuteCommand(commandId, conflictId);
    }

    method RetryCommand(id: string, conflictId: string) returns (r: Result<(), Error>)
      modifies this
      ensures Answered(old(Tables()), RetryStep(account, old(Tables()), id, conflictId), r)
    {
      if id !in commands { return Err(CommandNotFound); }
      if commands[id].status == Completed { return Ok(()); }
      r := ExecuteCommand(id, conflictId);
    }
  }
}
