# Office back end: a verified model

This project models the parts of the office and SaaS back end that keep real invariants, in Dafny, and proves
them for every input and every run. Each service is a class (or a few loops) whose methods are proved equal to
a step function on values; the lemmas then speak about the step functions and the runs built from them.

- **Leave** (`leave_spec.dfy`, `leave_requests.dfy`, `leave_service.dfy`): the request state machine, replays, the append-only balance ledger.
- **Floor-plan geometry** (`geometry.dfy`, `geometry_validation.dfy`, `geometry_answers.dfy`, `geometry_meaning.dfy`, `geometry_grid.dfy`,
  `geometry_limits.dfy`): shoelace area, simple polygons, the validator as a fixed point, where the crossing test is right and where it is not.
- **Backups** (`json_order.dfy`, `key_meaning.dfy`, `json.dfy`, `json_text.dfy`, `canonical.dfy`, `secret_scan.dfy`, `backup_bundle.dfy`): the
  order of keys, JSON printing and parsing, the canonical text, checksums, the secret scan.
- **Restore** (`restore_spec.dfy`, `restore_graph.dfy`, `restore_columns.dfy`, `restore_service.dfy`, `restore_in_place.dfy`,
  `backup_reset.dfy`, `row_columns.dfy`): the renamed image of a tenant, column by column, and the reset of a demo tenant from the text of its baseline.
- **Schedules** (`calendar.dfy`, `backup_schedule.dfy`, `backup_scheduler.dfy`, `backup_tick.dfy`): civil dates, the next run, the tick, retention.
- **Position holders** (`timeline_spec.dfy`, `timeline_cache.dfy`, `timeline_service.dfy`): effective-dated assignments and the cached holder.
- **Organisation chart** (`org_forest.dfy`, `org_tree.dfy`, `org_service.dfy`, `org_answers.dfy`): ancestor chains, the drawn tree, the edits.
- **Attendance** (`attendance_spec.dfy`, `attendance_theorems.dfy`, `attendance_verdict.dfy`, `attendance_service.dfy`): imports, rollbacks,
  materialised days, what they say of the clock times, corrections.
- **Permissions** (`permission_match.dfy`, `role_bindings.dfy`, `role_meaning.dfy`): wildcard matching, effective permissions, the binding preview.
- **Bookings** (`bookings.dfy`, `booking_answers.dfy`), **contracts** (`contracts.dfy`, `contract_answers.dfy`, `contracts_service.dfy`),
  **provisioning** (`provisioning.dfy`, `provisioning_answers.dfy`), **data layer** (`data_layer.dfy`, `data_filters.dfy`).
- **Published versions** (`version_log.dfy`): **dashboards** (`dashboards.dfy`, `dashboard_answers.dfy`) and the **twin studio**
  (`twin_studio.dfy`, `twin_studio_bindings.dfy`, `studio_answers.dfy`, `twin_studio_service.dfy`).

The files named after answers, and those on requests, columns, verdicts, caches, ticks, filters and the meaning of roles, state what the steps come
to by the names and constants of the code, not through the functions the steps are built from: which calls are accepted, and all they change.

`common.dfy` holds options, results, texts of digits, lists without repeats and sums over maps. `dafny verify dfyconfig.toml` checks the whole project.

## How the model reads the code

- Every request runs in one transaction, so every method is one atomic step and a refusal leaves the tables as they were.
- The clock, random ids, the database's answer to an ordered or unordered query, the hash and the host's upper-casing are parameters.
  Where the database may answer in any order, the results hold for every order.
- Instants are whole milliseconds since 1970; amounts and coordinates are real numbers, so floating-point rounding is not modelled.
- The calendar year of a leave balance is the server's local year and enters as a function of the first day.
- The defaults of the two Prisma schemas are used: version rows are published, opening ledger rows are zero, contract totals start at zero.

## Where the code does less than it says

- Leave: `approve` is let through from CANCEL_REQUESTED and `cancelApprove` from requests not yet approved; both pass the
  transition table and move the wrong ledger column. The total is kept, the split is not (`LeaveSpec.StepSplit` says exactly when).
- Leave: the days of a request are elapsed time rounded, not calendar days: 08:00 to 21:00 of one day counts two
  (`LeaveSpec.DurationExactly` says exactly when the documented count is met).
- Checksums: copying an object key by key loses a key named `__proto__`, so two values that differ only there have one
  canonical text and one checksum, and a bundle changed there verifies (`Canonical.EqualUpToOrder` says exactly which values
  are told apart, `BackupBundle.HiddenFieldVerifies` gives the family).
- Reset: the baseline is compared with the checksum in its own manifest only, not with the one its job recorded
  (`BackupReset.IntactVersusVerify`).
- Restore: only declared columns follow the renaming. `DuplicatePair.importJobId` and `AssignmentResolution.resolvedPersonId` are
  not declared and go on naming rows of the source tenant (`RestoreGraph.UndeclaredLeftBehind`).
- Geometry: the crossing test works with a fixed tolerance on cross products, so near tiny edges it misses crossings and reports some
  that are none (`GeometryLimits.EightAccepted`, `GeometryLimits.FiveRefused`). `GeometryMeaning.SharedPointSeen` says exactly which
  shared points are seen; plans drawn on a grid as fine as 1/31622 of a metre are judged rightly (`GeometryGrid.GridOutlineAccepted`).
- Twin studio: a zone is bound if the plan's draft has it, but a scene version carries the geometry of a published plan version and is
  not checked against it (`TwinStudioBindings.FrozenBindsOwnZones`, reached in `TwinStudioBindings.LateZoneFrozen`).
- Schedules: a weekly plan with a day of the week outside 0 to 6 is accepted and its loop never ends (`BackupSchedule.WeekdayComes`).
- Attendance: a clock-out at 24:00 is a valid instant of the next day, which the import does not recompute (`AttendanceTheorems.CommitCoherent`,
  reached in `AttendanceTheorems.MidnightGoesStale`).
- Attendance: leave that starts at the midnight ending a day marks that day too (`AttendanceTheorems.LeaveMarksTheDayBefore`).
- Permissions: patterns ending in two stars do not compose, so the preview can promise no change and be wrong
  (`PermissionMatch.HeldChangesNothing`), so can a preview for a person whose id is another's reference
  (`RoleBindings.PromiseExactly`), and a first amount ceiling can take an answer away (`RoleBindings.BindingMayForbid`).
  The comment on `personForUserId` names an email fallback; the code falls back to the person's id, and is followed.
- Positions: a window emptied by closing it within its first second still counts in the overlap test (`TimelineSpec.EmptyWindowConflicts`, reached in `TimelineSpec.EmptyWindowReached`).
- Provisioning: retrying an old command that fails again takes the active binding of a completed one away (`Provisioning.DriftExactly`,
  reached in `Provisioning.DriftReached`). The report compares keys joined by a colon, which is right because no application code of
  the catalogue has one (`Provisioning.ReportRight`; `Provisioning.DriftSeenExactly` for any keys).
- Contracts: obligations name no share, so each milestone bills the whole total (`Contracts.MilestonesOverBill`, reached in
  `Contracts.OverBillingHappens`).
- Data layer: of two filters on one column the later wins, filters on computed fields are skipped (the comment says they are applied
  in memory; nothing applies them), and a time window overwrites a filter on its own column (`DataLayer.IgnoredFilters` says exactly
  when nothing is lost).
- Bookings: the comment on the ownership check says rejection skips it; `transition` makes it, and the model follows the code.

## Model

| member | source | states |
|---|---|---|
| LeaveSpec.RunConserves | xhub-api/src/people/leave.service.ts:124-385 | over every run, odd branches included, used + pending of the last row of each person, policy and year grows by exactly the durations of that key's requests that are not rejected or cancelled |
| LeaveSpec.AvailableFormula | xhub-api/src/people/leave-balance.service.ts:52-91 | over every run, available of the last row is opening, accrued, carried-over and adjusted amounts less what was committed at the start and what live requests added |
| LeaveSpec.RunExtends | xhub-api/src/people/leave-balance.service.ts:52-91 | rows are only appended; each follows the one before with the next sequence number, the same source columns and a coherent balance; a new ledger opens with the zero row |
| LeaveSpec.StepSplit | xhub-api/src/people/leave.service.ts:248-385 | a step keeps pending equal to the waiting requests and used equal to the granted ones, for every key, exactly when it is not one of the two odd steps: approving out of CANCEL_REQUESTED, or approving a cancellation of a request not yet approved |
| LeaveSpec.RunSplit | xhub-api/src/people/leave.service.ts:248-385 | on runs without odd steps pending grows by the waiting and used by the granted durations |
| LeaveSpec.ReapprovalMovesTheWrongColumn | xhub-api/src/people/leave.service.ts:248-278 | the failing family is inhabited: re-approving out of CANCEL_REQUESTED books the duration as used again and takes it off pending |
| LeaveSpec.RunSolvent | xhub-api/src/people/leave.service.ts:159-166 | on every run the available balance of a policy that is neither UNPAID nor allowed to go negative stays at or above zero if it starts there |
| LeaveSpec.RunNoOverlap | xhub-api/src/people/leave.service.ts:148-157 | in every reachable state two live requests of one person never overlap as closed intervals |
| LeaveSpec.StepFollowsTable | xhub-api/src/people/people.constants.ts:17-33 | every status change is one of the transition table |
| LeaveSpec.RunEvolves | xhub-api/src/people/leave.service.ts:236-385 | requests are never dropped or edited but for their status, and rejected and cancelled ones stay so |
| LeaveSpec.CountedDaysExactly | xhub-api/src/people/people.helpers.ts:35-36 | the days counted are the calendar days touched, one less or one more, as the clock of the end is more than half a day before that of the start, or at least half a day after it; on a clock of any fixed offset |
| LeaveSpec.DurationExactly | xhub-api/src/people/people.helpers.ts:17-42 | the documented duration, calendar days less half a day per half-day bound, is what is computed exactly when the clocks agree in that sense and it is not one day with two half-day bounds |
| LeaveSpec.WholeDayDuration | xhub-api/src/people/people.helpers.ts:24-42 | over n whole days the duration is n + 1 less half a day per half-day bound, and half a day for one day with two of them |
| LeaveSpec.EveningCountsTwice | xhub-api/src/people/people.helpers.ts:35-36 | a concrete request from eight to nine at night of one day that counts two days |
| LeaveRequests.ReplayIsSafe | xhub-api/src/people/leave.service.ts:126-130 | once a submission was accepted, at any later point of any run every submission with its key is accepted and changes nothing, whatever became of the request |
| LeaveRequests.RunKeysApart | xhub-api/src/people/leave.service.ts:124-234 | no run gives two requests one key |
| LeaveRequests.SubmitAcceptedExactly | xhub-api/src/people/leave.service.ts:124-234 | a submission is accepted exactly when its key is long enough and known, or the request fits (person, active policy, dates in order, no live request of the person sharing an instant) and the policy lets it or the balance covers it |
| LeaveRequests.SubmitStores | xhub-api/src/people/leave.service.ts:168-200 | an accepted new request is stored as asked for and its duration booked as pending in the one ledger of its person, policy and year |
| LeaveRequests.HoursElapsed | xhub-api/src/people/people.helpers.ts:24-42 | in hours the duration is the elapsed time |
| LeaveRequests.ActsExactly | xhub-api/src/people/leave.service.ts:236-385 | each action is accepted exactly from its listed statuses and callers and leads to the listed status, of that request alone |
| LeaveRequests.RunNumbered | xhub-api/src/people/leave-balance.service.ts:52-91 | over every run the rows of a ledger are numbered from one without a gap |
| LeaveService.ComputeLeaveDuration | xhub-api/src/people/people.helpers.ts:24-42 | the step-by-step subtraction of half days computes that duration, or refuses an end before the start |
| LeaveService.Service.LatestRow | xhub-api/src/people/leave-balance.service.ts:23-42 | the last row of the key, or the zero row |
| LeaveService.Service.Append | xhub-api/src/people/leave-balance.service.ts:52-91 | the ledger gains exactly the row that moves the given columns of the last one |
| LeaveService.Service.Current | xhub-api/src/people/leave-balance.service.ts:44-50 | reading a balance opens its ledger and changes nothing else |
| LeaveService.Service.Create | xhub-api/src/people/leave.service.ts:124-234 | a submission is the specified step on requests and ledger, replays included; a refusal changes nothing |
| LeaveService.Service.ApproveRequest | xhub-api/src/people/leave.service.ts:248-278 | approval is the specified step: status, and pending to used |
| LeaveService.Service.RejectRequest | xhub-api/src/people/leave.service.ts:280-300 | rejection is the specified step: status, and pending given back |
| LeaveService.Service.AskForChanges | xhub-api/src/people/leave.service.ts:302-312 | asking for changes is the specified step and posts nothing |
| LeaveService.Service.ResubmitRequest | xhub-api/src/people/leave.service.ts:314-328 | resubmission by the requester is the specified step and posts nothing |
| LeaveService.Service.CancelRequest | xhub-api/src/people/leave.service.ts:330-363 | cancelling is the specified step: a waiting request gives pending back, an approved one only asks |
| LeaveService.Service.ApproveCancellation | xhub-api/src/people/leave.service.ts:365-385 | approving a cancellation is the specified step: used given back |
| Geometry.SignedArea2 | xhub-api/src/ioc/ioc.geometry.ts:51-59 | the accumulating loop computes the sum of the edge terms |
| Geometry.Area2Reverse | xhub-api/src/ioc/ioc.geometry.ts:51-59 | twice the signed area changes sign when the vertices are reversed |
| Geometry.Area2Rotate | xhub-api/src/ioc/ioc.geometry.ts:51-59 | it is the same from whichever vertex the list starts |
| Geometry.Area2Translate | xhub-api/src/ioc/ioc.geometry.ts:51-59 | it is the same after any translation |
| Geometry.SegmentsIntersectSymmetric | xhub-api/src/ioc/ioc.geometry.ts:81-92 | segment crossing does not depend on the order of the segments or of their end points |
| Geometry.IsSelfIntersecting | xhub-api/src/ioc/ioc.geometry.ts:95-111 | the nested loops find a crossing of two non-adjacent edges exactly when there is one |
| Geometry.SelfIntersectingReverse | xhub-api/src/ioc/ioc.geometry.ts:95-111 | reversing the vertices keeps a polygon simple or crossing |
| Geometry.SelfIntersectingRotate | xhub-api/src/ioc/ioc.geometry.ts:95-111 | so does starting from another vertex |
| Geometry.NormalizeClockwise | xhub-api/src/ioc/ioc.geometry.ts:113-118 | the result is the polygon or its reverse, wound the agreed way |
| Geometry.ClockwiseKeepsShape | xhub-api/src/ioc/ioc.geometry.ts:113-118 | normalising keeps the area and whether the outline crosses itself, gives the agreed winding, and a second time changes nothing |
| GeometryValidation.CheckPolygon | xhub-api/src/ioc/ioc.geometry.ts:121-172 | a polygon passes exactly when it has enough good vertices, no zero edge, no crossing and area; the first objection in the code's order otherwise |
| GeometryValidation.CheckedTwice | xhub-api/src/ioc/ioc.geometry.ts:121-172 | a polygon that passed passes again unchanged |
| GeometryMeaning.ClearTestIsRight | xhub-api/src/ioc/ioc.geometry.ts:66-92 | where no cross product is within the tolerance of zero the segment test says yes exactly when the segments share a point |
| GeometryMeaning.SharedPointSeen | xhub-api/src/ioc/ioc.geometry.ts:66-92 | a shared point is seen exactly when each segment has an end clear of the other's line, or an end touches |
| GeometryMeaning.SharePointExactly | xhub-api/src/ioc/ioc.geometry.ts:66-92 | with a tolerance of nothing the test would be right: two segments share a point exactly when it says yes, degenerate ones included |
| GeometryMeaning.SharpTestIsRight | xhub-api/src/ioc/ioc.geometry.ts:66-92 | as coded it is right wherever every cross product is exactly zero or beyond the tolerance, and the box test is not blurred either |
| GeometryMeaning.SharpPolygonIsRight | xhub-api/src/ioc/ioc.geometry.ts:95-111 | so a polygon all of whose far edges are so is called self-intersecting exactly when two edges that are no neighbours share a point |
| GeometryGrid.GridTestIsRight | xhub-api/src/ioc/ioc.geometry.ts:66-92 | for points on any grid of one n-th of a metre, n up to 31622 (whole millimetres, say), the test says yes exactly when the segments share a point |
| GeometryGrid.GridPolygonIsRight | xhub-api/src/ioc/ioc.geometry.ts:95-111 | any polygon drawn on such a grid, rooms with level edges included, is called self-intersecting exactly when two edges that are no neighbours share a point |
| GeometryGrid.GridOutlineAccepted | xhub-api/src/ioc/ioc.geometry.ts:136-150 | the validator accepts an outline on such a grid exactly when it has 3 to 200 points, no vertex repeated next to itself, no crossing and an area of a quarter of a square metre |
| GeometryLimits.EightAccepted | xhub-api/src/ioc/ioc.geometry.ts:66-150 | off such grids a crossing is missed: an outline of eight points in the shape of an eight crosses itself and is accepted |
| GeometryLimits.FiveRefused | xhub-api/src/ioc/ioc.geometry.ts:66-150 | and one is invented: an outline of five points that does not cross itself is refused as self-intersecting |
| GeometryValidation.CheckZone | xhub-api/src/ioc/ioc.geometry.ts:121-172 | a zone is accepted or refused for the code's first objection, a kind that is no text included |
| GeometryValidation.ValidateGeometry | xhub-api/src/ioc/ioc.geometry.ts:121-172 | the loops over zones and walls return the specified plan or the first error with its index |
| GeometryValidation.ValidatedTwice | xhub-api/src/ioc/ioc.geometry.ts:121-172 | whatever the validator returned validates again to the very same plan, so stored geometry passes at publication |
| GeometryAnswers.OutlinesExactly | xhub-api/src/ioc/ioc.geometry.ts:136-150 | an outline is accepted exactly with 3 to 200 vertices within a hundred kilometres, none within a billionth of the next, no two edges without a common vertex seen to cross, and a quarter of a square metre inside |
| GeometryAnswers.OutlinesStored | xhub-api/src/ioc/ioc.geometry.ts:113-118 | it is stored clockwise, its vertices in the order given or the opposite one |
| GeometryAnswers.WallExactly | xhub-api/src/ioc/ioc.geometry.ts:160-169 | a wall is accepted exactly with an id, two good points, half a metre of height and two centimetres of thickness, the defaults being three metres and fifteen centimetres |
| GeometryAnswers.PlansExactly | xhub-api/src/ioc/ioc.geometry.ts:121-172 | a plan is accepted exactly with at most 200 zones, each fine and under its own id, and fine walls; each is stored in its place |
| KeyOrder.KeyOrderTotal | xhub-api/src/common/document-guards.ts:42-52 | the order in which sorted keys are written is total: integer keys first by value, others by code unit |
| KeyOrder.KeyOrderTransitive | xhub-api/src/common/document-guards.ts:42-52 | that order is transitive |
| KeyMeaning.KeyOrderExactly | xhub-api/src/common/document-guards.ts:42-52 | array indices come before all other keys and by their numbers, the other keys by their UTF-16 code units |
| KeyMeaning.IndexExactly | xhub-api/src/common/document-guards.ts:42-52 | an index is a text of digits without leading zeros that writes a number below 2^32 - 1 |
| KeyMeaning.TextOrder | xhub-api/src/common/document-guards.ts:42-52 | comparing characters as the model does is comparing their code units, surrogate pairs included |
| Json.ParsePrint | xhub-api/src/backup/backup.service.ts:189-198 | reading back what was written gives the value again, dates as texts |
| Json.PrintInjective | xhub-api/src/common/document-guards.ts:38-40 | equal texts come only from equal values, up to dates written as texts |
| JsonText.WritesExactly | xhub-api/src/common/document-guards.ts:38-40 | lists are written as their items with commas between in square brackets, objects as their fields in braces, everything else by its own form |
| JsonText.NumeralsExactly | xhub-api/src/common/document-guards.ts:38-40 | the texts that stand for numbers |
| JsonText.EscapesExactly | xhub-api/src/common/document-guards.ts:38-40 | quotes, backslashes and control characters are escaped as the standard says, all else stands for itself |
| JsonText.QuotesExactly | xhub-api/src/common/document-guards.ts:38-40 | a text is written between quotes, character by character |
| Canonical.CanonicalizeIsMeaning | xhub-api/src/common/document-guards.ts:38-52 | two values have the same canonical text exactly when they mean the same once every field named __proto__ is left out, at every depth; key order aside, dates read as texts |
| Canonical.EqualUpToOrder | xhub-api/src/common/document-guards.ts:38-52 | two values are equal up to the order of keys exactly when they share their canonical text and their fields named __proto__ agree wherever both have an object |
| Canonical.CanonicalizeOfPlainKeys | xhub-api/src/common/document-guards.ts:38-52 | for values without such fields the texts are equal exactly when the values are, up to the order of keys |
| Canonical.HiddenFieldKeepsText | xhub-api/src/common/document-guards.ts:42-52 | any object can be given such a field, of any value, without its text changing |
| Canonical.EmptyObjects | xhub-api/src/common/document-guards.ts:42-52 | the concrete pair of an empty object and one with only such a field |
| Canonical.CanonicalizeAfterParse | xhub-api/src/common/document-guards.ts:38-57 | writing a value out and parsing it keeps its canonical text |
| Canonical.SortDeepLoop | xhub-api/src/common/document-guards.ts:42-52 | the recursive copy with its loop over sorted keys, one of which writes no property, computes the specified sort |
| SecretScan.AssertNoSecretFields | xhub-api/src/common/document-guards.ts:19-35 | the scan lets a value through exactly when no object at any depth has a forbidden key, counts every key it saw, and otherwise names a forbidden key that occurs |
| SecretScan.SecretExactly | xhub-api/src/common/document-guards.ts:13 | a key is forbidden exactly when one of the ten words stands in it, in any mix of big and small letters |
| SecretScan.KeysCounted | xhub-api/src/common/document-guards.ts:19-35 | the count the scan returns is that of all keys of all objects at any depth |
| BackupBundle.CreateBackup | xhub-api/src/backup/backup.service.ts:77-163 | a bundle is written exactly when no table mentions a forbidden key; it carries the checksum of its data |
| BackupBundle.ScannedKeys | xhub-api/src/backup/backup.service.ts:94-103 | the number of fields scanned is that of all keys of all tables |
| BackupBundle.UntouchedVerifies | xhub-api/src/backup/backup.service.ts:176-187 | an untouched bundle always verifies, dates included |
| BackupBundle.VerifyDetectsChange | xhub-api/src/backup/backup.service.ts:176-187 | with a hash that never collides, any readable bundle text verifies exactly when its manifest carries the checksum of the export or none, and its data shows what was exported, fields named __proto__ left out |
| BackupBundle.HiddenFieldVerifies | xhub-api/src/backup/backup.service.ts:176-187 | such a field slipped into the data of any bundle goes unnoticed |
| RestoreSpec.LoadIsImage | xhub-api/src/backup/backup.service.ts:306-416 | inserting the rewritten rows into the wiped database leaves other tenants as they were and the target holding exactly the renamed bundle |
| RestoreGraph.ReferencesFollow | xhub-api/src/backup/backup.tables.ts:79-96 | a loaded row points at the new name of x exactly when the bundle row points at x, for every declared scalar and array reference, external ones kept |
| RestoreGraph.SubjectFollows | xhub-api/src/backup/backup.tables.ts:98-104 | the polymorphic subject follows the renaming of the table its type names |
| RestoreGraph.UndeclaredLeftBehind | xhub-api/src/backup/backup.service.ts:352-373 | a column that is not declared goes on naming the old id, which is no row of the target, although the row it named was loaded under another id |
| RestoreGraph.PairKeepsOldJob | xhub-api/src/mdm/mdm.service.ts:196-208 | so a loaded duplicate pair names the source tenant's import job, not the target's copy of it |
| RestoreGraph.UndeclaredReferences | xhub-api/src/identity/assignment-resolver.service.ts:208-228 | the import job of a duplicate pair and the person of an assignment resolution are in such columns |
| RestoreGraph.NewNameInjective | xhub-api/src/backup/backup.service.ts:327-338 | no two ids get the same name |
| RestoreGraph.NothingInFlight | xhub-api/src/backup/backup.service.ts:368-373 | after the load no command of the target is pending or sent |
| RestoreGraph.DanglesAlike | xhub-api/src/backup/backup.service.ts:384-397 | a loaded position dangles exactly when its bundle row does |
| RestoreGraph.DanglingCount | xhub-api/src/backup/backup.service.ts:384-397 | danglingHolders counts exactly the bundle positions whose holder is not a bundle person |
| RestoreColumns.SchemaFollowed | xhub-api/src/backup/backup.tables.ts:79-96 | column by column of the schema: a loaded row whose bundle row named another bundle row names the copy of that one, which is in the target |
| RestoreColumns.MembersFollowed | xhub-api/src/backup/backup.tables.ts:86 | the members of a group come to be the copies of the persons it lists, in their places |
| RestoreColumns.SubjectsFollowed | xhub-api/src/backup/backup.tables.ts:98-104 | the subject of a role binding or data scope follows the table that the text of its type names; under any other type it is kept |
| RestoreColumns.OthersKept | xhub-api/src/backup/backup.service.ts:346-376 | every column outside these, the dates and the status and result of commands is loaded as it is |
| RestoreColumns.ParentsFirst | xhub-api/src/backup/backup.tables.ts:20-51 | every table is inserted after all other tables its columns name |
| RestoreColumns.DatesCoerced | xhub-api/src/backup/backup.service.ts:375-376 | in each of the sixteen date columns a text becomes a date, and nothing else changes |
| RestoreColumns.CommandsHeld | xhub-api/src/backup/backup.service.ts:368-373 | a pending or sent command is loaded as completed with a note added to its result; any other status and result are kept |
| RestoreService.AssignIds | xhub-api/src/backup/backup.service.ts:327-333 | every bundle row gets a fresh id of its own and nothing else does |
| RestoreService.RewriteRefs | xhub-api/src/backup/backup.service.ts:352-360 | the loop over the declared references rewrites exactly their columns |
| RestoreService.CoerceDates | xhub-api/src/backup/backup.service.ts:609-614 | the loop turns the texts of the listed columns into dates and touches no other column |
| RestoreService.LoadRow | xhub-api/src/backup/backup.service.ts:347-376 | one row is rewritten as specified, and reported held exactly when it was in flight |
| RestoreService.TenantLoader.Wipe | xhub-api/src/backup/backup.service.ts:322-325 | exactly the target's rows go |
| RestoreService.TenantLoader.InsertTables | xhub-api/src/backup/backup.service.ts:340-382 | all tables are inserted, with the counts of rows and held commands |
| RestoreService.TenantLoader.LoadIntoSandbox | xhub-api/src/backup/backup.service.ts:306-416 | the load refuses the live source tenant and otherwise leaves the target the image of the bundle under fresh distinct ids, other tenants untouched, with exact counts |
| RestoreService.ReportCounts | xhub-api/src/backup/backup.service.ts:340-381 | the report counts all rows of the bundle, and its commands that were pending or sent |
| RestoreInPlace.RowRoundTrip | xhub-api/src/backup/backup.service.ts:511-532 | exporting a row and loading it back gives it again exactly when the listed date columns hold its dates and no other column holds one |
| RestoreInPlace.ResetRestores | xhub-api/src/backup/backup.service.ts:458-532 | whatever happened since the baseline, a reset gives the tenant exactly the rows it had then |
| RestoreInPlace.ResetSparesOthers | xhub-api/src/backup/backup.service.ts:458-532 | every other tenant keeps the rows it has now |
| RestoreInPlace.Resetter.LoadInPlace | xhub-api/src/backup/backup.service.ts:511-532 | the loops wipe the tenant and insert the bundle's rows under their own ids, with the counts |
| BackupReset.WrittenExports | xhub-api/src/backup/backup.service.ts:88-103 | the rows read from the text of an export are the tenant's rows as exported, table by table |
| RowColumns.RowExactly | xhub-api/src/backup/backup.service.ts:88-103 | a row read from an exported object has its id and tenant and, under the column of every other key, the value of that key, and no further column |
| RowColumns.KeyTold | xhub-api/src/backup/backup.tables.ts:79-104 | no two keys share a column |
| RowColumns.NamedColumns | xhub-api/src/backup/backup.tables.ts:79-104 | the columns a load treats in some special way are those of the names in the code |
| BackupReset.ExportThenReset | xhub-api/src/backup/backup.service.ts:458-532 | whatever happened since a tenant was exported, a reset to the text written then is accepted, gives the tenant exactly the rows it had, and leaves all other tenants as they are |
| BackupReset.SafetyUndoesReset | xhub-api/src/backup/backup.service.ts:474-477 | the safety copy taken before a reset, to whatever baseline, takes the tenant back to where it was |
| BackupReset.IntactVersusVerify | xhub-api/src/backup/backup.service.ts:481-486 | what a reset accepts is what verifies, but for manifests that lost their checksum and for the checksum the job recorded |
| BackupReset.ReplacedDataIntact | xhub-api/src/backup/backup.service.ts:481-486 | data replaced together with its checksum is accepted by a reset although it does not verify |
| BackupReset.DemoTenants.ResetToBaseline | xhub-api/src/backup/backup.service.ts:458-504 | only a demo tenant with a baseline whose text is intact and whose own rows export cleanly is reset, after a safety copy; anything else changes no row |
| Calendar.DayRoundTrip | xhub-api/src/backup/backup-scheduler.service.ts:78-103 | taking a day apart into year, month and date and putting it together gives the day (section 21.4.1 of ECMA-262) |
| Calendar.DateRoundTrip | xhub-api/src/backup/backup-scheduler.service.ts:78-103 | a real date makes a day that has that year, month and date |
| Calendar.SetDateShifts | xhub-api/src/backup/backup-scheduler.service.ts:85-97 | setting the date moves an instant by whole days |
| Calendar.SetNextMonth | xhub-api/src/backup/backup-scheduler.service.ts:93-97 | setting month m + 1, even past December, lands in the next month |
| Calendar.MonthsHave | xhub-api/src/backup/backup-scheduler.service.ts:78-103 | months have the days the calendar gives them, February by the rule of leap years |
| Calendar.Epoch | xhub-api/src/backup/backup-scheduler.service.ts:78-103 | day 0 is 1 January 1970 |
| BackupSchedule.WeeklyMatch | xhub-api/src/backup/backup-scheduler.service.ts:87-90 | the day reached is the first target weekday, at most six days on |
| BackupSchedule.WeekdayComes | xhub-api/src/backup/backup-scheduler.service.ts:87-90 | the weekly loop meets its target exactly when that is 0 to 6 |
| BackupSchedule.MonthlyMatch | xhub-api/src/backup/backup-scheduler.service.ts:91-98 | the day reached is the first one with the clamped date, this month or the next |
| BackupSchedule.NextRunIsLeast | xhub-api/src/backup/backup-scheduler.service.ts:78-103 | the computed instant is the least one strictly after the given one at the hour and on the weekday or date |
| BackupSchedule.NextRunUnique | xhub-api/src/backup/backup-scheduler.service.ts:78-103 | there is only one such instant |
| BackupSchedule.SlotMeans | xhub-api/src/backup/backup-scheduler.service.ts:78-103 | a slot is at the hour, weekly on the day of the week (Sunday if none is set), monthly on the day of the month (the first if none is set, and kept within the 1st and the 28th) |
| BackupSchedule.RunsAfter | xhub-api/src/backup/backup-scheduler.service.ts:99-100 | the instant already lies ahead, so the last monthly correction never fires |
| BackupSchedule.ToFirstHour | xhub-api/src/backup/backup-scheduler.service.ts:82-85 | the setters reach the first run hour ahead |
| BackupSchedule.ToWeekday | xhub-api/src/backup/backup-scheduler.service.ts:87-90 | the loop reaches the weekday in (target - weekday) modulo 7 steps, at most six |
| BackupSchedule.ToDate | xhub-api/src/backup/backup-scheduler.service.ts:91-98 | the setters reach the clamped date in this month or the next |
| BackupSchedule.ComputeNextRunAt | xhub-api/src/backup/backup-scheduler.service.ts:78-103 | the setter-by-setter computation returns that least instant |
| BackupScheduler.Scheduler.RunDueBackups | xhub-api/src/backup/backup-scheduler.service.ts:109-190 | a tick changes every schedule and every tenant's jobs as its own outcome says, and reports each considered schedule under it |
| BackupScheduler.Scheduler.TakeTurn | xhub-api/src/backup/backup-scheduler.service.ts:131-187 | one tenant's turn changes its own schedule and jobs only, crash or not |
| BackupScheduler.Scheduler.Backup | xhub-api/src/backup/backup-scheduler.service.ts:146-151 | one backup and its pruning touch the tenant's own jobs only |
| BackupScheduler.Scheduler.PruneRetention | xhub-api/src/backup/backup-scheduler.service.ts:202-234 | the loop deletes exactly the prunable jobs older than the cutoff but the first of the newest-first listing, in one tenant |
| BackupScheduler.Scheduler.Upsert | xhub-api/src/backup/backup-schedule.service.ts:53-84 | a stored schedule gets the next run of its merged plan; a bad hour changes nothing |
| BackupScheduler.TickMovesOn | xhub-api/src/backup/backup-scheduler.service.ts:153-187 | every considered schedule then runs strictly after now, on the least slot of its plan when it was due |
| BackupScheduler.TickOncePerSlot | xhub-api/src/backup/backup-scheduler.service.ts:128-187 | until that next run further unforced ticks leave the tenant alone |
| BackupScheduler.SecondTickIdle | xhub-api/src/backup/backup-scheduler.service.ts:128-187 | a second unforced tick at the same instant runs nothing and changes no schedule |
| BackupScheduler.CrashesStayLocal | xhub-api/src/backup/backup-scheduler.service.ts:163-187 | other tenants' crashes change nothing about a tenant |
| BackupScheduler.CrashKeepsBackups | xhub-api/src/backup/backup-scheduler.service.ts:163-187 | a crash keeps the tenant's jobs, raises the alert and moves on as a completed run would |
| BackupScheduler.RunLeavesABackup | xhub-api/src/backup/backup-scheduler.service.ts:146-151 | after a run the tenant has a backup at least as new as the run, and every demo baseline it had |
| BackupScheduler.ReportedOnce | xhub-api/src/backup/backup-scheduler.service.ts:119-190 | every listed tenant is reported once, under its own outcome |
| BackupScheduler.OutcomesAddUp | xhub-api/src/backup/backup-scheduler.service.ts:119-190 | ran, failed, skipped and inactive share out the listing |
| BackupScheduler.PruneKeeps | xhub-api/src/backup/backup-scheduler.service.ts:202-234 | a newest backup survives, unprunable and recent jobs survive, every other survivor is recent |
| BackupScheduler.PruneIdempotent | xhub-api/src/backup/backup-scheduler.service.ts:202-234 | pruning again with the same cutoff removes nothing, whichever order ties are listed in |
| BackupScheduler.PruneCatchesUp | xhub-api/src/backup/backup-scheduler.service.ts:202-234 | pruning at an early and then a late cutoff leaves what pruning at the late one leaves |
| BackupScheduler.TickKeepsFit | xhub-api/src/backup/backup-scheduler.service.ts:153-187 | stored next runs stay slots of their own plans and alerts keep marking failed runs |
| BackupTick.OutcomeExactly | xhub-api/src/backup/backup-scheduler.service.ts:124-145 | a schedule is considered exactly when enabled and of an active tenant, and run exactly when forced, never run before or its next run is not ahead |
| BackupTick.RecordsExactly | xhub-api/src/backup/backup-scheduler.service.ts:153-175 | a run and a crash record their time, status and alert and the next run, and nothing else |
| BackupTick.JobsExactly | xhub-api/src/backup/backup-scheduler.service.ts:202-234 | a run adds one finished backup and deletes exactly the finished ones, no baselines, older than the days of retention, except the newest |
| BackupTick.NewestIsNewest | xhub-api/src/backup/backup-scheduler.service.ts:202-220 | the one kept whatever its age is a finished backup, no baseline, and none of those is newer |
| BackupTick.ReplansExactly | xhub-api/src/backup/backup-schedule.service.ts:61-82 | a change keeps what it does not name and computes the next run of the changed plan |
| TimelineSpec.RunDisjoint | xhub-api/src/identity/identity.service.ts:660-777 | in every run no instant of a position has two primary holders |
| TimelineSpec.StepDisjoint | xhub-api/src/identity/identity.service.ts:660-777 | every operation keeps this, and a refused one changes nothing |
| TimelineSpec.AddedTimeline | xhub-api/src/identity/identity.service.ts:691-712 | the whole timeline after a new primary: the newcomer alone on the new window, the outgoing holder gone from a second before it on, also after it ends, everyone else as before |
| TimelineSpec.ClosesAtMostOne | xhub-api/src/identity/identity.service.ts:691-705 | a new primary closes at most one assignment, the one holding its first instant |
| TimelineSpec.ActingTimeline | xhub-api/src/identity/identity.service.ts:707-712 | acting assignments never show on the timeline |
| TimelineSpec.DeletedTimeline | xhub-api/src/identity/identity.service.ts:731-739 | deleting an assignment vacates exactly what it held |
| TimelineSpec.ClearedTimeline | xhub-api/src/identity/identity.service.ts:758-768 | clearing vacates the seat from just after now on exactly when the active assignment is open-ended |
| TimelineSpec.ClearedCacheRight | xhub-api/src/identity/identity.service.ts:758-768 | when the emptied cache agrees with the timeline just after a clear: exactly when nobody but an open-ended active holder has that instant |
| TimelineSpec.RunSpares | xhub-api/src/identity/identity.service.ts:660-777 | over any run of appointments and clearances, who held a seat a second before any of them starts never changes |
| TimelineSpec.EmptyWindowConflicts | xhub-api/src/identity/identity.service.ts:692-700 | a window emptied by closing within its first second can still refuse a newcomer nobody stands in the way of |
| TimelineSpec.EmptyWindowReached | xhub-api/src/identity/identity.service.ts:660-739 | a run of two appointments and a deletion that ends with such a window and refuses an appointment to a seat vacant at all times |
| TimelineSpec.ConflictMeansHeld | xhub-api/src/identity/identity.service.ts:692-700 | apart from empty windows a refusal means that the other assignment holds its start inside the wanted window |
| TimelineCache.CacheFollows | xhub-api/src/identity/identity.service.ts:629-777 | after every accepted appointment or deletion of a primary holder the cached holder is the one of the timeline, clearing empties it, acting assignments leave it, and no other position is touched |
| TimelineCache.CacheStays | xhub-api/src/identity/identity.service.ts:660-777 | a right cache stays right through acting assignments and through operations on other positions |
| TimelineCache.CreateAcceptedExactly | xhub-api/src/identity/identity.service.ts:660-724 | an assignment is made exactly for a known position and person, a kind, a start and no end before it, and for a primary holder when none starts inside its window; it is stored as asked for |
| TimelineCache.OthersAcceptedExactly | xhub-api/src/identity/identity.service.ts:731-777 | a seat is set, cleared or an assignment deleted exactly where position, person and assignment fit |
| TimelineCache.StepTimeline | xhub-api/src/identity/identity.service.ts:660-777 | every accepted operation changes the whole timeline, at all positions and instants, in just the stated way |
| TimelineService.Service.ActivePrimary | xhub-api/src/identity/identity.service.ts:619-621 | the first listed match is a primary whose window holds the instant, or there is none |
| TimelineService.Service.SyncHolderCache | xhub-api/src/identity/identity.service.ts:629-637 | the cache becomes the holder at that instant, whatever order the rows come in |
| TimelineService.Service.FindOutgoing | xhub-api/src/identity/identity.service.ts:691-700 | the scan reports a conflict exactly when there is one and otherwise collects exactly the outgoing assignments |
| TimelineService.Service.CloseAll | xhub-api/src/identity/identity.service.ts:701-704 | exactly the collected assignments end at the given instant |
| TimelineService.Service.CreatePositionAssignment | xhub-api/src/identity/identity.service.ts:660-724 | scan, close, insert and re-derive are the specified step; a refusal changes nothing |
| TimelineService.Service.DeletePositionAssignment | xhub-api/src/identity/identity.service.ts:731-739 | deletion is the specified step and returns the re-derived holder |
| TimelineService.Service.SetPositionHolder | xhub-api/src/identity/identity.service.ts:748-777 | replacing or clearing a holder is the specified step |
| OrgForest.ReparentKeepsForest | xhub-api/src/identity/identity.service.ts:145-170 | moving a unit leaves a forest exactly when the new parent exists and is neither the unit nor below it |
| OrgForest.ForestHasNoLoop | xhub-api/src/identity/identity.service.ts:145-170 | no unit of a forest is its own ancestor |
| OrgForest.EndsOrLoops | xhub-api/src/identity/identity.service.ts:159-166 | a chain of parents ends exactly when it does not come back on itself |
| OrgForest.SeenAll | xhub-api/src/identity/identity.service.ts:159-166 | a walk that ended or met a seen unit has met everything the chain reaches |
| OrgForest.AddKeepsForest | xhub-api/src/identity/identity.service.ts:244-258 | a new unit under a present parent keeps the forest |
| OrgForest.RemoveKeepsForest | xhub-api/src/identity/identity.service.ts:264-275 | removing a unit without children keeps the forest |
| OrgService.ClimbsTo | xhub-api/src/identity/identity.service.ts:159-166 | the walk ends on every table, looping ones included, and reports the target exactly when the chain reaches it |
| OrgService.CheckParent | xhub-api/src/identity/identity.service.ts:203-218 | a parent is refused for being the unit itself, missing, or below the unit, in this order |
| OrgService.ReparentAcceptsForests | xhub-api/src/identity/identity.service.ts:145-170 | in a valid chart a move is accepted exactly when the result is a forest |
| OrgService.StepKeepsValid | xhub-api/src/identity/identity.service.ts:145-286 | every operation keeps acyclicity, present parents, unique codes and placed positions |
| OrgService.RunKeepsValid | xhub-api/src/identity/identity.service.ts:145-286 | so does every run |
| OrgAnswers.MovesUnitExactly | xhub-api/src/identity/identity.service.ts:145-170 | a unit is moved exactly to a present other unit that is not below it, or to the top, and nothing else changes |
| OrgAnswers.EditsUnitExactly | xhub-api/src/identity/identity.service.ts:179-238 | an edit is accepted exactly without empty texts, with a parent that fits and a free code for a head seat it has to make |
| OrgAnswers.EditsUnit | xhub-api/src/identity/identity.service.ts:179-238 | it changes the fields it names and puts the named head into the head seat, made for the first one |
| OrgAnswers.CreatesUnitExactly | xhub-api/src/identity/identity.service.ts:244-258 | a unit is made exactly with a code of its own, a name and a present parent if any, a department without a kind |
| OrgAnswers.DeletesUnitExactly | xhub-api/src/identity/identity.service.ts:264-275 | a unit is deleted exactly without units below it and positions in it |
| OrgAnswers.MovesPositionExactly | xhub-api/src/identity/identity.service.ts:278-286 | a position is moved exactly to a present unit |
| OrgService.Chart.ReparentOrgUnit | xhub-api/src/identity/identity.service.ts:145-170 | the move is the specified step |
| OrgService.Chart.UpdateOrgUnit | xhub-api/src/identity/identity.service.ts:179-238 | the edit of fields and head seat is the specified step, all or nothing |
| OrgService.Chart.CreateOrgUnit | xhub-api/src/identity/identity.service.ts:244-258 | creation is the specified step |
| OrgService.Chart.DeleteOrgUnit | xhub-api/src/identity/identity.service.ts:264-275 | deletion is refused with children or positions and otherwise removes exactly the unit |
| OrgService.Chart.MovePosition | xhub-api/src/identity/identity.service.ts:278-286 | the position moves to a present unit |
| OrgTree.OrgUnitTree | xhub-api/src/identity/identity.service.ts:120-131 | one pass puts each unit under its present parent or among the roots, in listing order |
| OrgTree.OccursOnce | xhub-api/src/identity/identity.service.ts:120-131 | a unit occurs in the tree exactly when its chain of parents ends, and then by one path only |
| OrgTree.ListedOnce | xhub-api/src/identity/identity.service.ts:120-131 | no list of the tree holds a unit twice |
| OrgTree.ForestOccurs | xhub-api/src/identity/identity.service.ts:120-131 | in a forest every unit occurs |
| AttendanceSpec.CheckRowChecks | xhub-api/src/people/attendance-import.service.ts:65-77 | a row that passes the preview and names instants has its clock-in before its clock-out within one day, 24:00 included |
| AttendanceSpec.ViewUnique | xhub-api/src/people/attendance-day.service.ts:28-111 | a day's events leave no choice of row |
| AttendanceTheorems.CommitCoherent | xhub-api/src/people/attendance-import.service.ts:102-126 | a commit leaves every uncorrected row equal to its recomputation exactly when no 24:00 clock-out spills into a live row the import does not recompute |
| AttendanceTheorems.RollbackCoherent | xhub-api/src/people/attendance-import.service.ts:128-142 | the same for a rollback |
| AttendanceTheorems.RollbackUndoesCommit | xhub-api/src/people/attendance-import.service.ts:102-142 | a rollback right after a commit restores the events; frozen, untouched and fresh rows are as before and days without a row keep one computed without the batch |
| AttendanceTheorems.RunKeeps | xhub-api/src/people/attendance-import.service.ts:48-142 | over every run of previews, commits, rollbacks and correction decisions with accepted times up to 23:59, events are exactly those of committed batches and every uncorrected row equals its recomputation |
| AttendanceTheorems.FrozenStays | xhub-api/src/people/attendance-day.service.ts:35 | a corrected row changes only by another approved correction of its day |
| AttendanceTheorems.RunFrozenStays | xhub-api/src/people/attendance-day.service.ts:35 | so over every run |
| AttendanceTheorems.WorkedMinutesBounded | xhub-api/src/people/attendance-day.service.ts:70-83 | uncorrected PRESENT, LATE and HALF_DAY rows have both clocks and between 1 and 1439 worked minutes |
| AttendanceTheorems.MidnightGoesStale | xhub-api/src/people/attendance-import.service.ts:102-126 | for any two days in a row: a run of two previews and two commits from empty tables whose last commit, a clock-out at 24:00, leaves the next day's row stale |
| AttendanceTheorems.SuchDays | xhub-api/src/people/attendance-import.service.ts:106-107 | there are such days: two concrete dates in a row |
| AttendanceTheorems.LeaveMarksTheDayBefore | xhub-api/src/people/attendance-day.service.ts:46-48 | a day is on leave without an instant of it being so exactly when the leave starts at the midnight that ends it |
| AttendanceTheorems.LaterIsNoBetter | xhub-api/src/people/attendance-day.service.ts:68-83 | with the same last clock-out a later first clock-in never gives more worked minutes, fewer late minutes or a milder status |
| AttendanceVerdict.AwayRow | xhub-api/src/people/attendance-day.service.ts:50-72 | a fresh row says leave before holiday, holiday before day off, and absent without a clock-in |
| AttendanceVerdict.WorkedRow | xhub-api/src/people/attendance-day.service.ts:73-83 | on a working day it counts the minutes from the first clock-in to the last clock-out; with a shift it is late exactly after start plus grace, by the minutes since the start, and half a day exactly under half the standard hours |
| AttendanceVerdict.RunWorkedRow | xhub-api/src/people/attendance-day.service.ts:28-111 | so do the uncorrected rows after every run of daytime imports, rollbacks and corrections |
| AttendanceVerdict.ShowsFirstIn | xhub-api/src/people/attendance-day.service.ts:37-41 | a fresh row shows the minute of the earliest clock-in of its person and day, and none exactly when there is none |
| AttendanceVerdict.ShowsLastOut | xhub-api/src/people/attendance-day.service.ts:42-43 | and the minute of the latest clock-out |
| AttendanceVerdict.RowAcceptedExactly | xhub-api/src/people/attendance-import.service.ts:64-76 | a previewed row passes exactly for a known person, a date and two times by their shape, the second later |
| AttendanceVerdict.TimeRead | xhub-api/src/people/attendance-import.service.ts:73-75 | a time reads as its hours times sixty and its minutes |
| AttendanceVerdict.DateRead | xhub-api/src/people/attendance-import.service.ts:67-72 | a date reads as its year, month and day, any month taking days up to the 31st |
| AttendanceVerdict.RunFilesApart | xhub-api/src/people/attendance-import.service.ts:53-55 | no run gives two batches of one file |
| AttendanceVerdict.RunDecidedStays | xhub-api/src/people/attendance-correction.service.ts:118-180 | a decided correction stays as it was decided over every run |
| AttendanceVerdict.ApprovedShows | xhub-api/src/people/attendance-correction.service.ts:118-151 | an approved correction shows what it asks for, keeps the rest of the row, freezes the day and changes no other |
| AttendanceService.FirstIn | xhub-api/src/people/attendance-day.service.ts:41 | the first clock-in of the ordered listing is the earliest |
| AttendanceService.LastOut | xhub-api/src/people/attendance-day.service.ts:42-43 | the last clock-out of the ordered listing is the latest |
| AttendanceService.JudgeDay | xhub-api/src/people/attendance-day.service.ts:53-84 | the step-by-step assignment of status and minutes computes the specified verdict |
| AttendanceService.Service.RecomputeDay | xhub-api/src/people/attendance-day.service.ts:28-111 | the day becomes the view of its events unless it is frozen |
| AttendanceService.Service.PreviewBatch | xhub-api/src/people/attendance-import.service.ts:48-95 | a preview stores checked rows and refuses a known checksum |
| AttendanceService.Service.CommitBatch | xhub-api/src/people/attendance-import.service.ts:102-126 | the loop writes two events per accepted row, then recomputes exactly the affected days; a row that names no instant rolls all back |
| AttendanceService.Service.RollbackBatch | xhub-api/src/people/attendance-import.service.ts:128-142 | exactly the batch's events go and its days are recomputed |
| AttendanceService.Service.ApproveCorrection | xhub-api/src/people/attendance-correction.service.ts:118-151 | wanted values overwrite the row, absent ones stay, and it is frozen |
| AttendanceService.Service.RejectCorrection | xhub-api/src/people/attendance-correction.service.ts:153-167 | a rejection touches the request only |
| PermissionMatch.PermissionMatches | xhub-api/src/identity/permission-match.ts:13-24 | the loop answers yes exactly when some granted pattern matches |
| PermissionMatch.TransitiveExactly | xhub-api/src/identity/permission-match.ts:13-24 | matches of a pattern compose with matches of what it matches exactly when it does not end in two stars |
| PermissionMatch.HeldChangesNothing | xhub-api/src/identity/permission-match.ts:13-24 | granting patterns already held never changes an answer exactly when every two-star pattern of the set has its stem covered by the set |
| PermissionMatch.PlainClosed | xhub-api/src/identity/permission-match.ts:13-24 | a set without two-star patterns is such a set |
| RoleMeaning.CanExactly | xhub-api/src/identity/identity.service.ts:415-434 | a user may do something exactly when a policy of one of the user's roles lists a pattern that allows it and some ceiling of those roles, if any sets one, is no less than the amount |
| RoleMeaning.GrantedExactly | xhub-api/src/identity/identity.service.ts:364-408 | a permission is held exactly through a person, a binding, a policy and a pattern |
| RoleMeaning.RolesExactly | xhub-api/src/identity/identity.service.ts:338-355 | a role is held exactly through a binding to the person, a position it holds or a group it is in |
| RoleMeaning.UserExactly | xhub-api/src/identity/identity.service.ts:316-323 | a user is the first person with that reference, or without one the first with that id |
| RoleMeaning.CeilingsExactly | xhub-api/src/identity/identity.service.ts:385-408 | a ceiling counts exactly when the last policy with a condition of one of the user's roles sets it |
| RoleMeaning.AllowsIs | xhub-api/src/identity/permission-match.ts:13-24 | a pattern allows everything, itself, or by a star after a dot its stem and what goes on from it |
| RoleBindings.BindingAnswers | xhub-api/src/identity/identity.service.ts:338-408 | after a binding a permission is held exactly when it was held before, or the user is of the subject and the role grants it |
| RoleBindings.NoNetChangeHolds | xhub-api/src/identity/identity.service.ts:520-543 | a promised "no net change" holds for every session user and requested permission, when the person was looked up as itself and its patterns are closed |
| RoleBindings.PromiseExactly | xhub-api/src/identity/identity.service.ts:316-323 | for people with distinct ids the preview of a binding to a person keeps its promise, for all tables, roles, users and permissions, exactly when the person is not shadowed: someone else found under its id while its own reference leads to it |
| RoleBindings.ShadowedSubject | xhub-api/src/identity/identity.service.ts:316-323 | two concrete people, one of whom is shadowed, so that the promise is broken |
| RoleBindings.BindingMayForbid | xhub-api/src/identity/identity.service.ts:415-434 | a binding turns a yes with an amount into a no exactly when the role brings the first ceiling and the amount is above it |
| RoleBindings.RoleCodesForPerson | xhub-api/src/identity/identity.service.ts:338-355 | the loop collects exactly the roles of the bindings that apply |
| RoleBindings.EffectivePermissions | xhub-api/src/identity/identity.service.ts:364-408 | the loop gathers exactly the permissions of the roles and each role's last condition |
| RoleBindings.CheckCan | xhub-api/src/identity/identity.service.ts:415-434 | the check is the specified decision, amount ceilings included |
| RoleBindings.PermissionsForRole | xhub-api/src/identity/identity.service.ts:452-457 | the loop gathers the permissions of all policies of a role |
| RoleBindings.PreviewRoleBinding | xhub-api/src/identity/identity.service.ts:520-543 | role permissions are split by whether the subject already holds them; no net change exactly when all are held |
| Bookings.RunKeeps | xhub-api/src/bookings/bookings.service.ts:162-356 | in every reachable state two active bookings of one resource never overlap as half-open intervals |
| Bookings.OneHolder | xhub-api/src/bookings/bookings.fsm.ts:36-37 | so a resource is held by one booking at most at every instant |
| Bookings.ConflictMeansHeld | xhub-api/src/bookings/bookings.service.ts:97-118 | a slot is refused exactly when some instant of it is held |
| Bookings.OverlapIsShared | xhub-api/src/bookings/bookings.fsm.ts:51-63 | non-empty windows overlap exactly when they share an instant |
| Bookings.ApproveNeverConflicts | xhub-api/src/bookings/bookings.service.ts:304-311 | the check repeated on approval never fires; approval succeeds exactly from REQUESTED |
| Bookings.TransitionsRunOut | xhub-api/src/bookings/bookings.fsm.ts:25-49 | the states with a transition left are exactly those that hold the slot, and every transition uses one up |
| Bookings.RunOf | xhub-api/src/bookings/bookings.service.ts:304-356 | over every run a booking keeps resource, window and key, takes no more transitions than it has left, and a finished one never changes |
| Bookings.ReplayIsSafe | xhub-api/src/bookings/bookings.service.ts:181-185 | a request repeated with its key, however much later, changes nothing |
| BookingAnswers.CreateAcceptedExactly | xhub-api/src/bookings/bookings.service.ts:162-232 | a booking is made exactly when its key is known or no instant of a proper window of a known resource is held, and is stored as asked for |
| BookingAnswers.ConflictsExactly | xhub-api/src/bookings/bookings.service.ts:304-311 | in any state approval is refused for a conflict exactly when another booking that holds its slot overlaps, and no other action is |
| BookingAnswers.ActsExactly | xhub-api/src/bookings/bookings.fsm.ts:25-49 | each action is accepted exactly from its listed statuses and sets the listed status and its own mark |
| Bookings.Service.AssertNoConflict | xhub-api/src/bookings/bookings.service.ts:97-118 | the search through the candidates reports a conflict exactly when there is one |
| Bookings.Service.CreateBooking | xhub-api/src/bookings/bookings.service.ts:162-232 | creation is the specified step, checks in the code's order |
| Bookings.Service.ActOn | xhub-api/src/bookings/bookings.service.ts:304-356 | approval, rejection, cancellation, check-in, check-out and no-show are the specified step |
| VersionLog.PublishKeeps | xhub-api/src/ioc/dashboard.service.ts:150-167 | publishing appends version n + 1 with its payload and checksum, serves it, and rewrites no earlier payload or checksum |
| VersionLog.PublishWellFormed | xhub-api/src/ioc/dashboard.service.ts:150-167 | numbers stay 1 to n, exactly version n is published, and the served number is absent exactly while n is 0 |
| VersionLog.RollbackKeeps | xhub-api/src/ioc/dashboard.service.ts:177-186 | a rollback keeps all versions and this form |
| VersionLog.AlwaysServed | xhub-api/src/ioc/dashboard.service.ts:200-202 | the active version is never missing, and there is one to serve exactly when something was published |
| Dashboards.ValidateWidgets | xhub-api/src/ioc/dashboard.service.ts:40-79 | the widgets are accepted with their fields, or refused for the code's first objection, and then only with known data layers |
| Dashboards.ValidatedAgain | xhub-api/src/ioc/dashboard.service.ts:40-79 | widgets that passed once pass again, to the same widgets, exactly while the layers they name are there |
| Dashboards.PublishSucceeds | xhub-api/src/ioc/dashboard.service.ts:145-149 | publication never fails on widgets: it succeeds exactly when the dashboard exists and has one |
| Dashboards.RunKeeps | xhub-api/src/ioc/dashboard.service.ts:92-186 | over every run of creations, edits, publications and rollbacks version logs keep their form, codes stay unique and nothing published is lost or rewritten |
| Dashboards.RollbackServes | xhub-api/src/ioc/dashboard.service.ts:177-202 | whatever happens later, a rollback to a version serves what was published under its number |
| Dashboards.ReadersServed | xhub-api/src/ioc/dashboard.service.ts:195-203 | readers never hear that the active version is missing, and are served exactly when something was published |
| DashboardAnswers.WidgetsExactly | xhub-api/src/ioc/dashboard.service.ts:40-79 | widgets are accepted exactly as a list of at most forty, each on a grid of twelve columns, with a type and without code, under ids of their own and with known layers; they are stored as sent |
| DashboardAnswers.FirstNamed | xhub-api/src/ioc/dashboard.service.ts:40-66 | an objection names the first widget that does not pass |
| DashboardAnswers.CreatesExactly | xhub-api/src/ioc/dashboard.service.ts:92-116 | a dashboard is made exactly with a free code, a name, a view, a known scene and good widgets, as a draft |
| DashboardAnswers.UpdatesExactly | xhub-api/src/ioc/dashboard.service.ts:118-143 | an edit is accepted exactly on its revision, with good contents and no direct publication; it changes what it names |
| DashboardAnswers.PublishesDraft | xhub-api/src/ioc/dashboard.service.ts:145-170 | a publication stores the dashboard as it stands under the next number and serves it |
| DashboardAnswers.RollsBackExactly | xhub-api/src/ioc/dashboard.service.ts:177-186 | a rollback serves an existing version and changes nothing else |
| Dashboards.Builder.CreateDashboard | xhub-api/src/ioc/dashboard.service.ts:92-116 | creation is the specified step |
| Dashboards.Builder.UpdateDashboard | xhub-api/src/ioc/dashboard.service.ts:118-143 | an edit is the specified step, stale revisions and direct publication refused |
| Dashboards.Builder.PublishDashboard | xhub-api/src/ioc/dashboard.service.ts:145-170 | validating again, superseding, appending and re-pointing are the specified publication |
| Dashboards.Builder.RollbackDashboard | xhub-api/src/ioc/dashboard.service.ts:177-186 | only the served number moves, to a version that exists, and the count of versions is returned |
| Dashboards.Builder.Runtime | xhub-api/src/ioc/dashboard.service.ts:195-203 | the reader gets the served version or the matching error |
| TwinStudio.RunKeeps | xhub-api/src/ioc/twin-studio.service.ts:109-413 | over every run of plan and scene operations published payloads and checksums stay, stored geometry stays settled, and every scene version names a plan version and carries its checksum and geometry |
| TwinStudio.GeometryRevalidates | xhub-api/src/ioc/twin-studio.service.ts:168-172 | publication never fails on geometry: it succeeds exactly when the plan exists and has a zone |
| TwinStudio.ReadersServed | xhub-api/src/ioc/twin-studio.service.ts:418-423 | readers of a scene never hear that its active version is missing; a scene without a pin always finds its plan version |
| TwinStudio.ValidatorSettles | xhub-api/src/ioc/twin-studio.service.ts:168-172 | the geometry validator meets what these results ask of it |
| StudioAnswers.PlansExactly | xhub-api/src/ioc/twin-studio.service.ts:109-138 | a plan is made exactly on a known floor with a name, a scale above zero and accepted geometry |
| StudioAnswers.EditsExactly | xhub-api/src/ioc/twin-studio.service.ts:140-166 | an edit is accepted exactly on its revision, with good contents and no direct publication; it changes what it names |
| StudioAnswers.PublishesPlan | xhub-api/src/ioc/twin-studio.service.ts:168-206 | a publication stores the plan as it stands under the next number and serves it |
| StudioAnswers.RollbacksExactly | xhub-api/src/ioc/twin-studio.service.ts:214-225 | rollbacks serve an existing version and change nothing else |
| StudioAnswers.ScenesExactly | xhub-api/src/ioc/twin-studio.service.ts:261-280 | a scene is made exactly with a name for a plan there is |
| StudioAnswers.BindsExactly | xhub-api/src/ioc/twin-studio.service.ts:307-348 | a zone is bound exactly when the draft of the plan has it and what it is bound to is there |
| StudioAnswers.Unbinds | xhub-api/src/ioc/twin-studio.service.ts:350-354 | unbinding takes away that binding alone |
| StudioAnswers.PublishesSceneExactly | xhub-api/src/ioc/twin-studio.service.ts:357-369 | a scene is published exactly with a binding on a plan that serves a version, when the version it pins is there |
| StudioAnswers.PublishesScene | xhub-api/src/ioc/twin-studio.service.ts:370-395 | it stores the bindings as they stand with number, checksum and geometry of that version |
| TwinStudioService.Studio.AddPlan | xhub-api/src/ioc/twin-studio.service.ts:109-134 | a plan is stored with its validated geometry |
| TwinStudioService.Studio.SavePlan | xhub-api/src/ioc/twin-studio.service.ts:140-165 | autosave refuses a stale revision and otherwise makes the specified changes |
| TwinStudioService.Studio.MakePlanVersion | xhub-api/src/ioc/twin-studio.service.ts:168-206 | publication of a plan is the specified step |
| TwinStudioService.Studio.ReactivatePlan | xhub-api/src/ioc/twin-studio.service.ts:214-223 | rollback of a plan is the specified step and counts the kept versions |
| TwinStudioService.Studio.UpsertBinding | xhub-api/src/ioc/twin-studio.service.ts:307-348 | a binding is stored exactly when its zone is in the plan and its targets exist |
| TwinStudioService.Studio.MakeSceneVersion | xhub-api/src/ioc/twin-studio.service.ts:357-395 | publication of a scene is the specified step, pinning the plan version's number and checksum |
| TwinStudioService.Studio.ReactivateScene | xhub-api/src/ioc/twin-studio.service.ts:402-411 | rollback of a scene is the specified step |
| TwinStudioBindings.FrozenBindsOwnZones | xhub-api/src/ioc/twin-studio.service.ts:357-395 | a scene publication binds zones of its own geometry only exactly when every bound zone is one of the pinned plan version |
| TwinStudioBindings.RunTidy | xhub-api/src/ioc/twin-studio.service.ts:109-413 | over every run in which no plan gains or loses a zone after it was made, all versions of all scenes bind zones of their own geometry |
| TwinStudioBindings.LateZoneFrozen | xhub-api/src/ioc/twin-studio.service.ts:307-395 | for any two accepted drawings, the second with a zone more: a run that publishes the first, saves the second, binds the new zone and publishes a scene version whose geometry lacks it |
| Contracts.RunKeeps | xhub-api/src/contracts/contracts.service.ts:52-248 | in every run the total is the sum of the lines, a contract that went live is signed and has exactly one obligation per milestone line however often it was suspended, others have none |
| Contracts.RunFreezes | xhub-api/src/contracts/contracts.service.ts:87-156 | once signing has begun the lines and total of a contract never change |
| Contracts.OneWay | xhub-api/src/contracts/contracts.service.ts:10-22 | no transition leads back before signing or before going live, and live states are entered through EFFECTIVE from SIGNING |
| Contracts.FirstObligations | xhub-api/src/contracts/contracts.service.ts:136-154 | going live makes exactly one obligation per milestone line and touches no other contract |
| Contracts.MilestonesOverBill | xhub-api/src/contracts/contracts.service.ts:220-247 | the requests of a contract together ask for its total as many times as there are requests, and stay within the total exactly when at most one was made or the total is not positive (a negative total is not met by none) |
| Contracts.OverBillingHappens | xhub-api/src/contracts/contracts.service.ts:52-247 | a state is reached in which both milestones of a contract over 15 are billed and 30 is asked for |
| Contracts.AddLineRaisesTotal | xhub-api/src/contracts/contracts.service.ts:81-119 | adding a line raises the total by its value |
| ContractAnswers.TransitionsExactly | xhub-api/src/contracts/contracts.service.ts:10-22 | a transition is accepted exactly along the table, to Effective only with a signature, and moves that contract alone |
| ContractAnswers.ActivationMakes | xhub-api/src/contracts/contracts.service.ts:136-154 | the first activation makes an obligation for every milestone line and no other, due thirty days after the effective day or now; a later one makes none |
| ContractAnswers.LinesExactly | xhub-api/src/contracts/contracts.service.ts:87-119 | a line is taken exactly before signing with a catalogue item and a value |
| ContractAnswers.SignaturesExactly | xhub-api/src/contracts/contracts.service.ts:159-182 | a signature is taken exactly from an approved contract or one in signing |
| ContractAnswers.SignedGoesLive | xhub-api/src/contracts/contracts.service.ts:121-131 | what is signed can go live |
| ContractAnswers.BillsExactly | xhub-api/src/contracts/contracts.service.ts:220-248 | a bill asks for the total or the share its obligation names, ready exactly with evidence; a used key changes nothing |
| ContractAnswers.ObligationsExactly | xhub-api/src/contracts/contracts.service.ts:185-203 | an obligation is completed exactly with evidence; escalation marks it |
| ContractAnswers.CreatesDraft | xhub-api/src/contracts/contracts.service.ts:52-79 | a contract is made exactly for a known customer, as a draft with a total of zero |
| ContractsService.AddUp | xhub-api/src/contracts/contracts.service.ts:81-85 | the running sum is the sum of the lines in whatever order they come |
| ContractsService.Service.CreateContract | xhub-api/src/contracts/contracts.service.ts:52-79 | creation is the specified step |
| ContractsService.MakeObligations | xhub-api/src/contracts/contracts.service.ts:140-152 | the loop adds one obligation per given line |
| ContractsService.Service.RecomputeTotal | xhub-api/src/contracts/contracts.service.ts:81-85 | the cached total becomes the sum of the contract's lines |
| ContractsService.Service.AddLineTo | xhub-api/src/contracts/contracts.service.ts:87-119 | adding a line is the specified step, refused after signing has begun |
| ContractsService.Service.TransitionTo | xhub-api/src/contracts/contracts.service.ts:121-156 | a transition is the specified step, with obligations on the first activation |
| ContractsService.Service.SignContract | xhub-api/src/contracts/contracts.service.ts:159-182 | signing is the specified step |
| ContractsService.Service.CompleteObligation | xhub-api/src/contracts/contracts.service.ts:185-195 | completion needs evidence |
| ContractsService.Service.EscalateObligation | xhub-api/src/contracts/contracts.service.ts:197-203 | escalation marks the obligation |
| ContractsService.Service.GenerateBillingRequest | xhub-api/src/contracts/contracts.service.ts:220-248 | billing is the specified step, a known key replaying |
| Provisioning.RunKeeps | xhub-api/src/controlplane/controlplane.service.ts:315-555 | in every reachable state an active binding has a completed command, completed commands never change, and a stored status tells exactly how far its command has come |
| Provisioning.RetryCompletes | xhub-api/src/controlplane/app-adapter.service.ts:82-88 | a command the target does not refuse completes on exactly the max(1, N)-th execution, for __failUntilAttempt = N, and not before |
| Provisioning.ProvisionNeeds | xhub-api/src/controlplane/app-adapter.service.ts:62-105 | an attempt creates the account exactly from the needed number on |
| Provisioning.NeverUnbacked | xhub-api/src/controlplane/controlplane.service.ts:589-594 | reconciliation never reports an active binding without a completed command |
| Provisioning.DriftExactly | xhub-api/src/controlplane/controlplane.service.ts:538-555 | a completed command loses its active binding exactly when a retry of another command for the same account fails |
| Provisioning.DriftReached | xhub-api/src/controlplane/controlplane.service.ts:315-555 | a run of two requests and a retry that ends with a completed command whose binding is no longer active |
| Provisioning.Reconcile | xhub-api/src/controlplane/controlplane.service.ts:571-613 | the report lists, in listing order, the active bindings whose text no completed command has and the completed commands whose text no active binding has |
| Provisioning.DriftMember | xhub-api/src/controlplane/controlplane.service.ts:596-604 | the second list has one issue for every such command |
| Provisioning.ReportMeans | xhub-api/src/controlplane/controlplane.service.ts:577-604 | in any state an issue is reported for exactly the active bindings without a completed command under the same text and the completed commands without an active binding under it |
| Provisioning.DriftSeenExactly | xhub-api/src/controlplane/controlplane.service.ts:596-604 | what is reported of a key with a completed command is right exactly when its binding is active or no other active binding has the same text |
| Provisioning.TextKeyInjective | xhub-api/src/controlplane/controlplane.service.ts:580-582 | keys whose application codes have no colon have different texts, whatever the ids of people |
| Provisioning.ReportRight | xhub-api/src/controlplane/controlplane.service.ts:571-613 | after any run, application codes coming from a catalogue without colons, the report names exactly the completed commands without an active binding and nothing else |
| ProvisioningAnswers.BindsExactly | xhub-api/src/controlplane/controlplane.service.ts:315-345 | a request is accepted exactly when its key is known or its application is enabled and its person known |
| ProvisioningAnswers.BindsNew | xhub-api/src/controlplane/controlplane.service.ts:346-441 | a new request for an active account becomes a conflict that is not executed; any other is executed once |
| ProvisioningAnswers.Executed | xhub-api/src/controlplane/controlplane.service.ts:447-524 | one execution counts an attempt and stores the verdict in command, binding and conflicts, and nothing else |
| ProvisioningAnswers.RetriesExactly | xhub-api/src/controlplane/controlplane.service.ts:538-555 | a retry leaves a completed command alone and executes any other once more |
| ProvisioningAnswers.ReplayIsSafe | xhub-api/src/controlplane/controlplane.service.ts:315-335 | once accepted, a request with the same key changes nothing at any later point of any run |
| Provisioning.Service.ExecuteCommand | xhub-api/src/controlplane/controlplane.service.ts:447-524 | one execution counts the attempt and stores the outcome in command, binding and conflict list |
| Provisioning.Service.CreateBinding | xhub-api/src/controlplane/controlplane.service.ts:315-441 | a binding request is the specified step: replay, conflict, or a command made and executed |
| Provisioning.Service.RetryCommand | xhub-api/src/controlplane/controlplane.service.ts:538-555 | a retry is the specified step; completed commands are left alone |
| DataLayer.QueryRecompiles | xhub-api/src/ioc/data-layer.service.ts:79-118 | a stored query compiles to the very query validated at creation |
| DataLayer.AggregationRecompiles | xhub-api/src/ioc/data-layer.service.ts:120-132 | so does a stored aggregation |
| DataLayer.ToPrismaWhere | xhub-api/src/ioc/data-layer.service.ts:256-279 | the loop builds the specified where object, from the tenant's entry on |
| DataLayer.WhereMeans | xhub-api/src/ioc/data-layer.service.ts:256-279 | for any filters the rows selected are exactly those that satisfy the last stored filter of every column, the tenant's own counting as the first of all |
| DataLayer.TenantOnly | xhub-api/src/ioc/data-layer.service.ts:256-279 | when no filter is on the tenant's column every row selected is the tenant's |
| DataLayer.CompiledTenantOnly | xhub-api/src/ioc/data-layer.service.ts:79-118 | every query that passes the compiler of an entity without a field on the tenant's column, as all in the catalogue are, selects rows of the tenant alone, with or without a time window |
| DataLayer.TenantOverwritten | xhub-api/src/ioc/data-layer.service.ts:257-260 | this rests on the catalogue: a hypothetical field on that column would let a filter take the tenant's entry away |
| DataLayer.WhereIsConjunction | xhub-api/src/ioc/data-layer.service.ts:256-279 | for stored filters on distinct columns they are exactly the tenant's rows that satisfy all filters |
| DataLayer.IgnoredFilters | xhub-api/src/ioc/data-layer.service.ts:256-279 | the selection is the conjunction of all filters on the tenant's rows, for every row, exactly when some column is ruled by a condition no cell meets, or every filter accepts each cell that the last stored filter of its column accepts |
| DataLayer.EmptyExactly | xhub-api/src/ioc/data-layer.service.ts:256-279 | the conditions no cell meets, by their form |
| DataLayer.SecondFilterWins | xhub-api/src/ioc/data-layer.service.ts:256-279 | a concrete pair of bounds of which the first is dropped |
| DataLayer.WindowMeans | xhub-api/src/ioc/data-layer.service.ts:410 | with a time window the filters on its own column are lost and all others count |
| DataLayer.ThreeWays | xhub-api/src/ioc/data-layer.service.ts:262-263 | equality, inequality and null split the rows three ways |
| DataLayer.BetweenIsBoth | xhub-api/src/ioc/data-layer.service.ts:270-274 | a range is its two bounds |
| DataFilters.HoldsMeans | xhub-api/src/ioc/data-layer.service.ts:256-279 | what each operator asks of a cell: among the values, outside them, equal, different, before, after, between, null, and the text true on a column of yes or no |
| DataFilters.SelectionMeans | xhub-api/src/ioc/data-layer.service.ts:256-279 | when no two stored filters share a column the rows selected are exactly the tenant's whose cells every filter asks for |
| DataFilters.SelectionMeansLast | xhub-api/src/ioc/data-layer.service.ts:256-279 | in general those whose cells the last stored filter of every column asks for |
| DataFilters.FilterCompilesExactly | xhub-api/src/ioc/data-layer.service.ts:79-118 | a filter compiles exactly for a field, an operator it allows, listed values, and a list or two bounds where they are needed |
| DataFilters.UnknownFieldRefused | xhub-api/src/ioc/data-layer.service.ts:79-118 | and never for a field the entity has not |
| DataFilters.QueryCompilesExactly | xhub-api/src/ioc/data-layer.service.ts:79-118 | a query compiles exactly with at most twenty filters that do, a window that is one, and one group of the entity's |
| DataLayer.FoldBuckets | xhub-api/src/ioc/data-layer.service.ts:356-378 | one pass puts each item's measure and person into its group's bucket |
| DataLayer.FoldConserves | xhub-api/src/ioc/data-layer.service.ts:356-383 | over the groups the counts add up to the number of items and the sums to the sum of all measures |
| DataLayer.PersonOrgMap | xhub-api/src/ioc/data-layer.service.ts:286-298 | a person counts for the unit of the last listed head seat, or without one of the first seat |
| DataLayer.OneDecides | xhub-api/src/ioc/data-layer.service.ts:286-298 | only one seat decides |

## Left out

- Controllers, guards, decorators, bootstrap, HTTP, Prisma and row-level-security plumbing, file writes, audit logs, events and notifications: no property of their own.
- Encryption, password hashing and sessions: foreign code; SHA-256 enters as a function, assumed free of collisions only where a lemma says so.
- Texts of error messages, trimming and upper-casing of inputs, CSV splitting: inputs arrive trimmed, errors are names.
- Strings with lone surrogates, and JSON texts with white space between tokens: the parser reads what the printer writes.
- BackupSchedule.ToWeekday: days of the week outside 0 to 6, on which the source's loop does not end, are a precondition.
- BackupSchedule.ComputeNextRunAt: the same, for weekly plans.
- BackupScheduler.Scheduler.Upsert: the same, for the stored plan, which the source does not check.
- BackupScheduler.Scheduler.RunDueBackups: only the backup step can fail; failures of the bookkeeping writes after it are not modelled, nor is the deletion of files.
- Attendance: creation of correction requests. Dates past the end of a month roll over into the next, as in the server's engine.
- Leave impact previews, approval tasks, overtime, HR adjustments of balances.
- Backup: the dry run, clearing demo data, and which job is the latest baseline (the text of its bundle is an input).
- Organisation chart: the coherence of the cached holder after a head is set through the unit editor, which writes it directly.
- Delegations, and the validation of a binding's input and subject in `createRoleBinding`.
- Twin studio: sites, floors, icons, revisions and themes of scenes, and the labels resolved at runtime.
- Dashboards: titles of widgets, looking a dashboard up by its code, and the execution of data layers at runtime.
- Bookings: listing, resources, comments and attachments; who may act enters as a flag.
- Contracts: contract numbers, source opportunities, currencies, alert statuses; line values are numbers already read from their texts.
- Provisioning: application instances, role mappings and the passing states `pending` and `sent`, which no transaction leaves behind.
- Data layer: filter values that are JSON null, the entity ban by name, visual mappings, thresholds, percentiles and rounding of results.
- MDM import, seeding, briefs, insights, template cloning, announcements, engagements, opportunities, backlog, defects and initiatives.
- Concurrent transactions: each method is atomic here, so races on unique keys are not modelled.
