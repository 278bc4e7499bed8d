/** What callers of the booking service are answered: which requests and actions are accepted, and what they store. */
module BookingAnswers {
  import opened Common
  import opened Bookings

  /** Where each action leads from the statuses in which it is accepted. */
  function Outcome(action: Action, from: Status): Option<Status> {
    if from == Requested && action == Approve then Some(Approved)
    else if from == Requested && action == Reject then Some(Rejected)
    else if from == Approved && action == CheckIn then Some(CheckedIn)
    else if from == Approved && action == MarkNoShow then Some(NoShow)
    else if from == CheckedIn && action == CheckOut then Some(CheckedOut)
    else if (from == Requested || from == Approved || from == CheckedIn) && action == Cancel then Some(Cancelled)
    else None
  }

  /** An action is accepted exactly from the listed statuses, for whoever may act on the booking; anyone with the
      permission may approve and mark a no-show. It sets the status and its own mark on this booking alone. */
  lemma ActsExactly(s: State, action: Action, id: string, allowed: bool, now: int)
    requires Valid(s)
    ensures ActStep(s, action, id, allowed, now).Ok?
            <==> id in s.rows && (allowed || action == Approve || action == MarkNoShow)
                 && Outcome(action, s.rows[id].status).Some?
    ensures ActStep(s, action, id, allowed, now).Ok? ==>
              var b := s.rows[id];
              ActStep(s, action, id, allowed, now).value
              == s.(rows := s.rows[id := b.(
                   status := Outcome(action, b.status).value,
                   checkedInAt := if action == CheckIn then Some(now) else b.checkedInAt,
                   checkedOutAt := if action == CheckOut then Some(now) else b.checkedOutAt,
                   noShow := b.noShow || action == MarkNoShow)])
  {
    ApproveNeverConflicts(s, id, allowed, now);
  }

  /** Approval checks for conflicts again, in any state: it is refused for one exactly when the booking waits and
      another one that holds its slot overlaps it; no other action is. */
  lemma ConflictsExactly(s: State, action: Action, id: string, allowed: bool, now: int)
    ensures ActStep(s, action, id, allowed, now) == Err(Conflict)
            <==> && action == Approve && id in s.rows && s.rows[id].status == Requested
                 && exists x :: x in s.rows && x != id && Against(s.rows[x], s.rows[id])
  {
    if id in s.rows {
      var b := s.rows[id];
      forall x | x in s.rows ensures Clashes(s.rows, x, b.resourceId, b.start, b.end) <==> Against(s.rows[x], b) { }
      if HasConflict(s.rows, b.resourceId, b.start, b.end, Some(id)) {
        var x :| x in s.rows && Some(x) != Some(id) && Clashes(s.rows, x, b.resourceId, b.start, b.end);
        assert Against(s.rows[x], b);
      }
      if exists x :: x in s.rows && x != id && Against(s.rows[x], b) {
        var x :| x in s.rows && x != id && Against(s.rows[x], b);
        assert Some(x) != Some(id) && Clashes(s.rows, x, b.resourceId, b.start, b.end);
      }
    }
  }

  /** One booking holds its slot of the other's resource, and each starts before the other ends. */
  predicate Against(x: Booking, b: Booking) {
    x.resourceId == b.resourceId && (x.status == Requested || x.status == Approved || x.status == CheckedIn)
    && x.start < b.end && b.start < x.end
  }

  /** The booking holds the resource at an instant: it is requested, approved or checked in. */
  predicate HeldBy(s: State, id: string, resourceId: string, t: int) {
    id in s.rows && s.rows[id].resourceId == resourceId
    && (s.rows[id].status == Requested || s.rows[id].status == Approved || s.rows[id].status == CheckedIn)
    && s.rows[id].start <= t < s.rows[id].end
  }

  /** Someone holds an instant of the wanted window. */
  ghost predicate Held(s: State, resourceId: string, start: int, end: int) {
    exists id, t :: HeldBy(s, id, resourceId, t) && InWindow(t, start, end)
  }

  lemma HeldIsConflict(s: State, resourceId: string, start: int, end: int)
    requires Valid(s) && start < end
    ensures Held(s, resourceId, start, end) <==> HasConflict(s.rows, resourceId, start, end, None)
  {
    ConflictMeansHeld(s, resourceId, start, end);
    if Held(s, resourceId, start, end) {
      var id, t :| HeldBy(s, id, resourceId, t) && InWindow(t, start, end);
      assert HoldsAt(s, id, resourceId, t);
    }
    if exists id, t :: HoldsAt(s, id, resourceId, t) && InWindow(t, start, end) {
      var id, t :| HoldsAt(s, id, resourceId, t) && InWindow(t, start, end);
      assert HeldBy(s, id, resourceId, t);
    }
  }

  /** What a new booking must meet. */
  ghost predicate Bookable(s: State, q: Request) {
    q.resourceId in s.resources && q.start.Some? && q.end.Some? && q.start.value < q.end.value
    && !Held(s, q.resourceId, q.start.value, q.end.value)
  }

  /** The request repeats the key of some booking. */
  predicate Known(s: State, q: Request) {
    q.key.Some? && q.key.value != "" && exists b :: b in s.rows && s.rows[b].key == q.key
  }

  lemma KnownIs(s: State, q: Request)
    ensures Known(s, q) <==> KeyOf(q).Some? && exists b :: b in s.rows && Keyed(s.rows, b, KeyOf(q).value)
  {
    if Known(s, q) {
      var b :| b in s.rows && s.rows[b].key == q.key;
      assert Keyed(s.rows, b, KeyOf(q).value);
    }
    if KeyOf(q).Some? && exists b :: b in s.rows && Keyed(s.rows, b, KeyOf(q).value) {
      var b :| b in s.rows && Keyed(s.rows, b, KeyOf(q).value);
      assert s.rows[b].key == q.key;
    }
  }

  /** A request is accepted exactly with its fields given, when its key is known or no instant of a proper
      window of a known resource is held; a new booking is stored as asked for. */
  lemma CreateAcceptedExactly(s: State, q: Request, id: string)
    requires Valid(s)
    ensures CreateStep(s, q, id).Ok?
            <==> q.title != "" && q.resourceId != "" && q.timesGiven && (Known(s, q) || Bookable(s, q))
    ensures CreateStep(s, q, id).Ok? && Known(s, q) ==> CreateStep(s, q, id).value == s
    ensures CreateStep(s, q, id).Ok? && !Known(s, q) ==>
              CreateStep(s, q, id).value
              == s.(rows := s.rows[id := Booking(q.resourceId, q.start.value, q.end.value, Requested,
                                                 if q.key == Some("") then None else q.key, None, None, false)])
  {
    KnownIs(s, q);
    if q.start.Some? && q.end.Some? && q.start.value < q.end.value {
      HeldIsConflict(s, q.resourceId, q.start.value, q.end.value);
    }
  }
}
