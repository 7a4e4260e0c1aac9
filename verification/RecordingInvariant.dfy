/** What every transaction keeps of an attempt's rows, and what follows: recovery can read every row the
    program writes, and a recorded stop decides the result. */
module RecordingInvariant {
  import opened Basics
  import opened RecordingModel
  import opened RecordingRows

  /** A segment whose file has not been closed yet. */
  predicate Unwritten(s: Segment) {
    && (s.state.SegPlanned? || s.state.SegWriting?) && s.availability.FilePlanned?
    && !s.fileSynced && !s.finalPublished && !s.directorySynced && s.integrity.None? && s.byteCount >= 0
  }

  predicate PlansDistinct(a: Attempt) {
    a.main.plan.partial != a.main.plan.final &&
    (a.oneSeg.Some? ==> a.oneSeg.value.plan.partial != a.oneSeg.value.plan.final)
  }

  predicate EarlyOk(a: Attempt) {
    && a.token.None? && a.plan.None? && a.terminalReason.None? && a.actualEnd.None?
    && Unwritten(a.main) && a.main.byteCount == a.byteCount
    && (a.state.Recording? <==> a.main.state.SegWriting?)
    && (a.state.Recording? <==> a.actualStart.Some?)
    && (a.oneSeg.Some? ==> Unwritten(a.oneSeg.value))
  }

  predicate FinalizingOk(a: Attempt) {
    && a.token.Some? && a.plan.Some? && a.plan.value.Valid(a.byteCount) && a.byteCount >= USEFUL_BYTES
    && a.terminalReason.None? && a.actualEnd.None? && a.actualStart.Some?
    && a.main.byteCount == a.byteCount && a.main.fileSynced && a.main.integrity.None?
    && ((a.main.state.SegPartial? && a.main.availability.FilePartial? && !a.main.directorySynced) || a.main.Finalized())
    && (a.oneSeg.Some? ==> ClosedOneSeg(a.oneSeg.value))
  }

  predicate ClosedOneSeg(s: Segment) {
    && OneSegAccepted(s) && (s.state.SegPartial? || s.state.SegFinalized?) && !s.availability.FilePlanned?
    && (s.state.SegFinalized? ==> s.Published())
  }

  predicate TerminalOk(a: Attempt) {
    && a.terminalReason.Some?
    && (a.state.Succeeded? ==> a.plan.Some? && a.plan.value.state.Succeeded?)
    && (a.plan.Some? ==> a.plan.value.Valid(USEFUL_BYTES))
    && (Selected(a) ==> Accepted(a) && a.main.Published() && (a.oneSeg.Some? ==> ClosedOneSeg(a.oneSeg.value)))
  }

  /** The recorded stop and the plan agree. */
  predicate StopDecides(a: Attempt) {
    a.plan.Some? ==> (a.plan.value.reason.UserRequestedStop? <==> a.stopRequested.Some?)
  }

  predicate RowOk(a: Attempt) {
    && 0 <= a.plannedStart < a.plannedEnd && PlansDistinct(a) && StopDecides(a)
    && (a.state.Early() ==> EarlyOk(a))
    && (a.state.Finalizing? ==> FinalizingOk(a))
    && (a.state.Terminal() ==> TerminalOk(a))
  }

  /** The one finish the store accepts that recovery cannot read afterwards: a finalizing attempt that is
      finished as an unpublished partial recording under the very reason its published plan names. */
  predicate Unpublishes(a: Attempt, f: FinishRequest, now: int) {
    && a.state.Finalizing? && f.state.Partial? && f.availability.FilePartial?
    && a.plan == Some(Plan(AttemptState.Partial, f.reason)) && f.byteCount % USEFUL_BYTES == 0
    && a.actualStart.Some? && now - a.actualStart.value >= 1_000
  }

  // ----- One transaction

  datatype Change =
    | ToStarting | ToRecording(now: int) | OneSegToWriting | ToProgress(bytes: int) | OneSegToProgress(bytes: int)
    | Stop(now: int) | Finalize(request: FinalizeRequest, token: nat, now: int)
    | Flagged(ordinal: Ordinal, flag: Flag) | OneSegOutcome(outcome: OneSegResult)
    | Finish(finish: FinishRequest, now: int)
    | Observe(availability: Availability, reason: Option<Reason>)
    | ObserveOneSeg(availability: Availability, reason: Option<Reason>)
    | Replan(end: int)

  /** A time change of the programme moves the planned end of an attempt that has not closed its file. */
  function Replanned(a: Attempt, end: int): Option<Attempt> {
    if a.state.Early() && end > a.plannedStart then Some(a.(plannedEnd := end)) else None
  }

  function Changed(a: Attempt, c: Change): Option<Attempt> {
    match c
    case ToStarting => Start(a)
    case ToRecording(now) => RecordingStarted(a, now)
    case OneSegToWriting => OneSegStarted(a)
    case ToProgress(bytes) => Progress(a, bytes)
    case OneSegToProgress(bytes) => OneSegProgress(a, bytes)
    case Stop(now) => RequestStop(a, now)
    case Finalize(request, token, now) => BeginFinalization(a, request, token, now)
    case Flagged(ordinal, flag) => Mark(a, ordinal, flag)
    case OneSegOutcome(outcome) => SetOneSegOutcome(a, outcome)
    case Finish(finish, now) => FinishAttempt(a, finish, now)
    case Observe(availability, reason) => SetAvailability(a, availability, reason)
    case ObserveOneSeg(availability, reason) => SetOneSegAvailability(a, availability, reason)
    case Replan(end) => Replanned(a, end)
  }

  /** A committed transaction: the change applies and the table constraints allow the new row. */
  function Committed(a: Attempt, c: Change): Option<Attempt> {
    var b := Changed(a, c);
    if b.Some? && ConstraintsAllow(a, b.value) then b else None
  }

  // ----- Every transaction keeps the rows in order

  /** A finish leaves a row recovery can read, or no row for recovery at all, exactly when it does not
      unpublish a finalized plan. */
  lemma FinishKeepsReadable(a: Attempt, f: FinishRequest, now: int)
    requires RowOk(a) && FinishAttempt(a, f, now).Some?
    ensures var b := FinishAttempt(a, f, now).value;
      ((Selected(b) ==> Accepted(b)) <==> !Unpublishes(a, f, now)) &&
      (!Unpublishes(a, f, now) ==> RowOk(b))
  {
  }

  /** A finalizing attempt with a concrete finish that the store accepts and recovery then refuses to
      read: from here on every start of the program fails. */
  lemma UnpublishedRowBlocksRecovery() returns (a: Attempt, f: FinishRequest)
    ensures RowOk(a) && Committed(a, Finish(f, 3_000)).Some?
    ensures var b := Committed(a, Finish(f, 3_000)).value; Selected(b) && !Accepted(b)
  {
    var main := Segment(FilePlan(1, 2), SegPartial, 376, true, false, false, FilePartial, None);
    a := Attempt(7, Finalizing, 0, 60_000, Some(1_000), None, 376, None, Some(9),
                 Some(Plan(AttemptState.Partial, StreamTimeout)), None, false, main, None);
    f := FinishRequest(AttemptState.Partial, StreamTimeout, 376, FilePartial, false, None);
  }

  /** Whether `c` is the one kind of change the program must not issue on `a`. */
  predicate Forbidden(a: Attempt, c: Change) { c.Finish? && Unpublishes(a, c.finish, c.now) }

  lemma FinalizeKeepsRow(a: Attempt, c: Change)
    requires RowOk(a) && (c.Finalize? || c.Flagged? || c.OneSegOutcome?) && Changed(a, c).Some?
    ensures RowOk(Changed(a, c).value)
  {
  }

  lemma ObserveKeepsRow(a: Attempt, c: Change)
    requires RowOk(a) && (c.Observe? || c.ObserveOneSeg?) && Changed(a, c).Some?
    ensures RowOk(Changed(a, c).value)
  {
  }

  lemma EarlyChangeKeepsRow(a: Attempt, c: Change)
    requires RowOk(a) && Changed(a, c).Some?
    requires c.ToStarting? || c.ToRecording? || c.OneSegToWriting? || c.ToProgress? || c.OneSegToProgress? ||
             c.Stop? || c.Replan?
    ensures RowOk(Changed(a, c).value)
  {
  }

  lemma ChangeKeepsRow(a: Attempt, c: Change)
    requires RowOk(a) && Changed(a, c).Some? && !Forbidden(a, c)
    ensures RowOk(Changed(a, c).value)
  {
    if c.Finish? {
      FinishKeepsReadable(a, c.finish, c.now);
    } else if c.Finalize? || c.Flagged? || c.OneSegOutcome? {
      FinalizeKeepsRow(a, c);
    } else if c.Observe? || c.ObserveOneSeg? {
      ObserveKeepsRow(a, c);
    } else {
      EarlyChangeKeepsRow(a, c);
    }
  }

  // ----- Whole histories of one attempt

  /** The row after a sequence of transactions, each committed or rolled back. */
  function History(a: Attempt, changes: seq<Change>): Attempt {
    if changes == [] then a
    else
      var before := History(a, changes[..|changes| - 1]);
      var after := Committed(before, changes[|changes| - 1]);
      if after.Some? then after.value else before
  }

  /** Recovery is never blocked: after any history free of the forbidden finish, a row recovery selects
      is one it accepts. */
  lemma {:induction false} HistoryStaysReadable(a: Attempt, changes: seq<Change>)
    requires RowOk(a)
    requires forall i | 0 <= i < |changes| :: !Forbidden(History(a, changes[..i]), changes[i])
    ensures RowOk(History(a, changes))
    ensures Selected(History(a, changes)) ==> Accepted(History(a, changes))
  {
    if changes != [] {
      var prefix := changes[..|changes| - 1];
      assert forall i | 0 <= i < |prefix| :: prefix[..i] == changes[..i] && prefix[i] == changes[i];
      HistoryStaysReadable(a, prefix);
      if Committed(History(a, prefix), changes[|changes| - 1]).Some? {
        ChangeKeepsRow(History(a, prefix), changes[|changes| - 1]);
      }
    }
  }

  /** What a stop needs of a row, whatever finish is issued. */
  predicate StopOk(a: Attempt) {
    && StopDecides(a) && (a.state.Early() ==> a.plan.None?) && (a.state.Finalizing? ==> a.plan.Some?)
    && (a.plan.Some? ==> (a.plan.value.state.Succeeded? ==> a.plan.value.reason.Successful()))
    && (a.state.Succeeded? ==> a.plan.Some? && a.plan.value.state.Succeeded?)
  }

  lemma ChangeKeepsStop(a: Attempt, c: Change)
    requires StopOk(a) && Committed(a, c).Some?
    ensures var b := Committed(a, c).value;
      && StopOk(b) && a.state.Rank() <= b.state.Rank() && (a.state.Terminal() ==> b.state == a.state)
      && (a.stopRequested.Some? ==> b.stopRequested == a.stopRequested)
      && (!a.state.Early() ==> b.stopRequested == a.stopRequested)
  {
  }

  /** The race between a stop and every other transaction, over any history from `a` on: states only move
      forward, a recorded stop is never lost and none is recorded once the result is settled, and then
      the settled result is a user stop exactly when a stop was recorded. */
  lemma {:induction false} StopWinsOrLosesForGood(a: Attempt, changes: seq<Change>)
    requires StopOk(a)
    ensures var b := History(a, changes);
      && StopOk(b) && a.state.Rank() <= b.state.Rank() && (a.state.Terminal() ==> b.state == a.state)
      && (a.stopRequested.Some? ==> b.stopRequested == a.stopRequested)
      && (!a.state.Early() ==> b.stopRequested == a.stopRequested)
  {
    if changes != [] {
      StopWinsOrLosesForGood(a, changes[..|changes| - 1]);
      var before := History(a, changes[..|changes| - 1]);
      if Committed(before, changes[|changes| - 1]).Some? { ChangeKeepsStop(before, changes[|changes| - 1]); }
    }
  }

  /** An acknowledged stop never ends in success, and a settled plan tells exactly whether one arrived. */
  lemma AcknowledgedStopNeverSucceeds(a: Attempt, changes: seq<Change>, now: int)
    requires StopOk(a) && Committed(a, Stop(now)).Some?
    ensures var b := History(Committed(a, Stop(now)).value, changes);
      !b.state.Succeeded? &&
      (b.plan.Some? ==> b.plan.value == Plan(b.plan.value.state, UserRequestedStop) && !b.plan.value.state.Succeeded?)
  {
    ChangeKeepsStop(a, Stop(now));
    StopWinsOrLosesForGood(Committed(a, Stop(now)).value, changes);
  }
}
