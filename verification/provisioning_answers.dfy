/** What a binding request and a retry come to, told from the request, the target and what is stored. */
module ProvisioningAnswers {
  import opened Common
  import opened Provisioning

  /** Some command was made for this key. */
  ghost predicate KeyKnown(s: State, key: string) { exists c :: UsesKey(s, c, key) }

  /** What an execution comes to: a target that already has the account reports a conflict; one that is down for the
      first attempts fails until then; otherwise the account is made. */
  function Verdict(simulateExisting: bool, failUntil: int, attempt: int): CommandStatus {
    if simulateExisting then Conflict
    else if attempt < failUntil then Failed
    else Completed
  }

  function BindingAfter(verdict: CommandStatus, account: string, before: Option<string>): Binding {
    match verdict
    case Completed => Binding(Active, Some(account))
    case Failed => Binding(BindingFailed, before)
    case Conflict => Binding(BindingConflict, before)
  }

  /** One execution counts an attempt and stores the verdict in the command, its binding and, for a conflict, the
      list of conflicts; nothing else changes. */
  lemma Executed(account: Key -> string, s: State, id: string, conflictId: string)
    requires id in s.commands && s.commands[id].key in s.bindings
    ensures var c := s.commands[id];
            var v := Verdict(c.simulateExisting, c.failUntil, c.attempts + 1);
            Execute(account, s, id, conflictId)
            == Ok(s.(commands := s.commands[id := c.(attempts := c.attempts + 1, status := v)],
                     bindings := s.bindings[c.key := BindingAfter(v, account(c.key), s.bindings[c.key].accountId)],
                     conflicts := if v == Conflict then s.conflicts[conflictId := id] else s.conflicts))
  {
  }

  /** A request is accepted exactly when its key is known, or its application is enabled and its person known. */
  lemma BindsExactly(account: Key -> string, s: State, op: Op)
    requires op.Bind?
    ensures Step(account, s, op).Ok?
            <==> KeyKnown(s, op.idempotencyKey) || (op.key.app in s.enabled && op.key.personId in s.people)
    ensures KeyKnown(s, op.idempotencyKey) ==> Step(account, s, op) == Ok(s)
  {
    if KeyKnown(s, op.idempotencyKey) {
      var c :| UsesKey(s, c, op.idempotencyKey);
      assert c in s.commands;
    }
  }

  /** A new request for an account that is active is recorded as a conflict without being executed; any other is
      executed once. */
  lemma BindsNew(account: Key -> string, s: State, op: Op)
    requires op.Bind? && Step(account, s, op).Ok? && !KeyKnown(s, op.idempotencyKey)
    ensures var made := Command(op.key, Conflict, 0, op.failUntil, op.simulateExisting, op.idempotencyKey);
            var v := Verdict(op.simulateExisting, op.failUntil, 1);
            Next(account, s, op)
            == if op.key in s.bindings && s.bindings[op.key].status == Active then
                 s.(commands := s.commands[op.commandId := made],
                    conflicts := s.conflicts[op.conflictId := op.commandId])
               else
                 s.(commands := s.commands[op.commandId := made.(attempts := 1, status := v)],
                    bindings := s.bindings[op.key := BindingAfter(v, account(op.key),
                                             if op.key in s.bindings then s.bindings[op.key].accountId else None)],
                    conflicts := if v == Conflict then s.conflicts[op.conflictId := op.commandId] else s.conflicts)
  {
    assert !(exists c :: c in s.commands && UsesKey(s, c, op.idempotencyKey));
    if !(op.key in s.bindings && s.bindings[op.key].status == Active) {
      Executed(account, Prepared(s, op), op.commandId, op.conflictId);
    }
  }

  /** A retry of a stored command leaves a completed one alone and executes any other once more. */
  lemma RetriesExactly(account: Key -> string, s: State, id: string, conflictId: string)
    requires Valid(account, s)
    ensures Step(account, s, Retry(id, conflictId)).Ok? <==> id in s.commands
    ensures id in s.commands && s.commands[id].status == Completed ==>
              Next(account, s, Retry(id, conflictId)) == s
    ensures id in s.commands && s.commands[id].status != Completed ==>
              var c := s.commands[id];
              var v := Verdict(c.simulateExisting, c.failUntil, c.attempts + 1);
              c.key in s.bindings
              && Next(account, s, Retry(id, conflictId))
                 == s.(commands := s.commands[id := c.(attempts := c.attempts + 1, status := v)],
                       bindings := s.bindings[c.key := BindingAfter(v, account(c.key), s.bindings[c.key].accountId)],
                       conflicts := if v == Conflict then s.conflicts[conflictId := id] else s.conflicts)
  {
    if id in s.commands { Executed(account, s, id, conflictId); }
  }

  lemma UsedStays(account: Key -> string, s: State, op: Op, key: string)
    requires FreshIds(s, op) && KeyKnown(s, key)
    ensures KeyKnown(Next(account, s, op), key)
  {
    var c :| UsesKey(s, c, key);
    assert UsesKey(Next(account, s, op), c, key);
  }

  lemma {:induction false} UsedStaysOn(account: Key -> string, s: State, ops: seq<Op>, key: string)
    requires AllFresh(account, s, ops) && KeyKnown(s, key)
    ensures KeyKnown(Run(account, s, ops), key)
  {
    if ops == [] {
    } else {
      UsedStaysOn(account, s, ops[..|ops| - 1], key);
      UsedStays(account, Run(account, s, ops[..|ops| - 1]), ops[|ops| - 1], key);
    }
  }

  /** Once accepted, a request with the same key changes nothing at any later point of any run, whatever it asks. */
  lemma ReplayIsSafe(account: Key -> string, s: State, op: Op, ops: seq<Op>, again: Op)
    requires op.Bind? && again.Bind? && again.idempotencyKey == op.idempotencyKey
    requires FreshIds(s, op) && Step(account, s, op).Ok? && AllFresh(account, Next(account, s, op), ops)
    ensures var later := Run(account, Next(account, s, op), ops); Step(account, later, again) == Ok(later)
  {
    if !KeyKnown(s, op.idempotencyKey) {
      BindsNew(account, s, op);
      assert UsesKey(Next(account, s, op), op.commandId, op.idempotencyKey);
    }
    UsedStaysOn(account, Next(account, s, op), ops, op.idempotencyKey);
    BindsExactly(account, Run(account, Next(account, s, op), ops), again);
  }
}
