/** The rows of one recording attempt and what each store transaction makes of them. A transaction that
    fails is rolled back, so it is `None` here; a committed one yields the new row. */
module RecordingRows {
  import opened Basics
  import opened RecordingModel

  type Path = nat
  datatype FilePlan = FilePlan(partial: Path, final: Path)

  datatype Segment = Segment(
    plan: FilePlan, state: SegmentState, byteCount: int, fileSynced: bool, finalPublished: bool,
    directorySynced: bool, availability: Availability, integrity: Option<Reason>)
  {
    predicate Published() { state.SegFinalized? && fileSynced && finalPublished && directorySynced }
    predicate Finalized() { Published() && availability.FileFinal? && integrity.None? }
    predicate Settled() {
      && (state.SegPartial? || state.SegFinalized?) && integrity.Some?
      && (availability.FilePartial? || availability.FileMissing? || availability.FileMismatched?)
    }
  }

  datatype Attempt = Attempt(
    reservation: nat, state: AttemptState, plannedStart: int, plannedEnd: int,
    actualStart: Option<int>, actualEnd: Option<int>, byteCount: int, stopRequested: Option<int>,
    token: Option<nat>, plan: Option<Plan>, terminalReason: Option<Reason>, recovered: bool,
    main: Segment, oneSeg: Option<Segment>)

  datatype Ordinal = MainFile | OneSegFile
  datatype Flag = FinalPublished | DirectorySynced

  // ----- Transactions on one attempt

  function Start(a: Attempt): Option<Attempt> {
    if a.state.Claimed? then Some(a.(state := Starting)) else None
  }

  function RecordingStarted(a: Attempt, now: int): Option<Attempt> {
    if a.state.Starting? && a.main.state.SegPlanned? then
      Some(a.(state := Recording, actualStart := Some(now), main := a.main.(state := SegWriting)))
    else None
  }

  function OneSegStarted(a: Attempt): Option<Attempt> {
    if a.state.Recording? && a.oneSeg.Some? && a.oneSeg.value.state.SegPlanned? then
      Some(a.(oneSeg := Some(a.oneSeg.value.(state := SegWriting))))
    else None
  }

  function Progress(a: Attempt, byteCount: int): Option<Attempt> {
    if byteCount >= 0 && a.state.Recording? && a.byteCount <= byteCount && a.main.state.SegWriting? &&
       a.main.byteCount <= byteCount then
      Some(a.(byteCount := byteCount, main := a.main.(byteCount := byteCount)))
    else None
  }

  function OneSegProgress(a: Attempt, byteCount: int): Option<Attempt> {
    if byteCount >= 0 && a.state.Recording? && a.oneSeg.Some? && a.oneSeg.value.state.SegWriting? &&
       a.oneSeg.value.byteCount <= byteCount then
      Some(a.(oneSeg := Some(a.oneSeg.value.(byteCount := byteCount))))
    else None
  }

  /** A stop of a recording that has not reached its finalization; a second stop changes nothing. */
  function RequestStop(a: Attempt, now: int): Option<Attempt> {
    if !a.state.Early() then None
    else if a.stopRequested.Some? then Some(a)
    else Some(a.(stopRequested := Some(now)))
  }

  /** The guarded update that settles the result: a plan of a user stop needs a recorded stop, any other
      plan needs none, and a lost connection needs a second of recording. */
  predicate CanFinalize(a: Attempt, byteCount: int, plan: Plan, now: int) {
    && a.state.Recording? && a.byteCount <= byteCount
    && (plan.reason.UserRequestedStop? <==> a.stopRequested.Some?)
    && (plan.reason.Communication() ==> a.actualStart.Some? && now - a.actualStart.value >= 1_000)
  }

  /** The plan after a lost race against a stop: the stop wins over completion and lost connections. */
  function Resolve(a: Attempt, request: FinalizeRequest, now: int): Option<FinalizeRequest> {
    if CanFinalize(a, request.byteCount, request.plan, now) then Some(request)
    else if request.plan.reason.UserRequestedStop? then None
    else
      var stopped := Plan(AttemptState.Partial, UserRequestedStop);
      if CanFinalize(a, request.byteCount, stopped, now) then
        Some(request.(plan := stopped,
                      oneSeg := if request.oneSeg.Some? && request.oneSeg.value.publish
                                then Some(request.oneSeg.value.(reason := UserRequestedStop)) else request.oneSeg))
      else None
  }

  function FinalizeOneSeg(s: Segment, r: OneSegResult): Option<Segment> {
    if (s.state.SegPlanned? || s.state.SegWriting?) && s.byteCount <= r.byteCount then
      Some(s.(state := SegPartial, byteCount := r.byteCount, fileSynced := r.fileSynced,
              availability := r.availability, integrity := if r.publish then None else Some(r.reason)))
    else None
  }

  function BeginFinalization(a: Attempt, request: FinalizeRequest, token: nat, now: int): Option<Attempt> {
    if !request.Valid() then None else
      match Resolve(a, request, now)
      case None => None
      case Some(r) =>
        if !a.main.state.SegWriting? || a.main.byteCount > r.byteCount || r.oneSeg.Some? != a.oneSeg.Some? then None
        else
          var main := a.main.(state := SegPartial, byteCount := r.byteCount, fileSynced := true,
                              availability := FilePartial);
          var oneSeg := if r.oneSeg.Some? then FinalizeOneSeg(a.oneSeg.value, r.oneSeg.value) else None;
          if r.oneSeg.Some? && oneSeg.None? then None
          else Some(a.(state := Finalizing, byteCount := r.byteCount, token := Some(token), plan := Some(r.plan),
                       main := main, oneSeg := oneSeg))
  }

  function MarkSegment(s: Segment, flag: Flag): Option<Segment> {
    if !s.state.SegPartial? || !s.fileSynced || s.integrity.Some? then None
    else match flag
      case FinalPublished => Some(s.(finalPublished := true))
      case DirectorySynced =>
        if s.finalPublished then Some(s.(directorySynced := true, state := SegFinalized, availability := FileFinal))
        else None
  }

  function Mark(a: Attempt, ordinal: Ordinal, flag: Flag): Option<Attempt> {
    if !a.state.Finalizing? then None
    else match ordinal
      case MainFile =>
        var s := MarkSegment(a.main, flag);
        if s.Some? then Some(a.(main := s.value)) else None
      case OneSegFile =>
        var s := if a.oneSeg.Some? then MarkSegment(a.oneSeg.value, flag) else None;
        if s.Some? then Some(a.(oneSeg := s)) else None
  }

  function SettleSegment(s: Segment, r: OneSegResult): Segment {
    s.(state := SegPartial, byteCount := r.byteCount, fileSynced := r.fileSynced, finalPublished := false,
       directorySynced := false, availability := r.availability, integrity := Some(r.reason))
  }

  function SetOneSegOutcome(a: Attempt, r: OneSegResult): Option<Attempt> {
    if r.Valid() && !r.publish && a.state.Finalizing? && a.oneSeg.Some? then
      Some(a.(oneSeg := Some(SettleSegment(a.oneSeg.value, r))))
    else None
  }

  predicate FinishAllowed(a: Attempt, f: FinishRequest) {
    && f.Valid() && !a.state.Terminal()
    && (f.Publishes() ==>
        && a.state.Finalizing? && a.plan == Some(Plan(f.state, f.reason)) && a.main.Published()
        && a.main.availability.FileFinal? && f.oneSeg.None?
        && (a.oneSeg.Some? ==> a.oneSeg.value.Finalized() || a.oneSeg.value.Settled()))
    && (!f.Publishes() ==> (a.oneSeg.Some? == f.oneSeg.Some?))
    && (f.oneSeg.Some? ==> !f.oneSeg.value.publish)
  }

  function FinishAttempt(a: Attempt, f: FinishRequest, now: int): Option<Attempt> {
    if !FinishAllowed(a, f) || (a.actualStart.Some? && now < a.actualStart.value) then None
    else
      var finished := a.(state := f.state, actualEnd := if a.actualStart.Some? then Some(now) else None,
                         byteCount := f.byteCount, terminalReason := Some(f.reason), recovered := f.recovered);
      if f.Publishes() then Some(finished.(main := a.main.(byteCount := f.byteCount)))
      else
        var main := a.main.(state := if f.byteCount > 0 then SegPartial else a.main.state,
                            byteCount := f.byteCount, availability := f.availability);
        Some(finished.(main := main,
                       oneSeg := if f.oneSeg.Some? then Some(SettleSegment(a.oneSeg.value, f.oneSeg.value)) else a.oneSeg))
  }

  /** A published recording: the terminal rows whose files later checks still look after. */
  predicate Historical(a: Attempt) {
    || a.state.Succeeded?
    || (a.state.Partial? && a.terminalReason == Some(UserRequestedStop))
    || PublishedCommunication(a)
  }

  /** The SQL condition that tells a published lost-connection recording from an unpublished one. */
  predicate PublishedCommunication(a: Attempt) {
    && a.state.Partial? && a.terminalReason.Some? && a.terminalReason.value.Communication()
    && a.plan == Some(Plan(AttemptState.Partial, a.terminalReason.value)) && a.token.Some?
    && a.byteCount >= USEFUL_BYTES && a.byteCount % USEFUL_BYTES == 0
    && a.actualStart.Some? && a.actualEnd.Some? && a.actualEnd.value - a.actualStart.value >= 1_000
  }

  function SetAvailability(a: Attempt, availability: Availability, reason: Option<Reason>): Option<Attempt> {
    if (availability.FileFinal? && reason.None?) || (availability.FileMissing? && reason == Some(MissingFile)) ||
       (availability.FileMismatched? && reason == Some(FileIntegrityMismatch)) then
      if Historical(a) && a.main.state.SegFinalized? then
        Some(a.(main := a.main.(availability := availability, integrity := reason)))
      else Some(a)
    else None
  }

  function SetOneSegAvailability(a: Attempt, availability: Availability, reason: Option<Reason>): Option<Attempt> {
    if (availability.FileFinal? && reason.None?) || (availability.FilePartial? && reason.Some?) ||
       (availability.FileMissing? && reason == Some(MissingFile)) ||
       (availability.FileMismatched? && reason == Some(FileIntegrityMismatch)) then
      if Historical(a) && a.oneSeg.Some? &&
         (a.oneSeg.value.state.SegPartial? || a.oneSeg.value.state.SegFinalized?) &&
         (availability.FileFinal? ==> a.oneSeg.value.state.SegFinalized?) &&
         (availability.FilePartial? ==> a.oneSeg.value.state.SegPartial?) then
        Some(a.(oneSeg := Some(a.oneSeg.value.(availability := availability, integrity := reason))))
      else Some(a)
    else None
  }

  /** The table constraints and the trigger that guards stops and plans: an update they refuse is rolled
      back with its transaction. */
  predicate ConstraintsAllow(before: Attempt, after: Attempt) {
    && (before.stopRequested.Some? ==> after.stopRequested == before.stopRequested)
    && (after.stopRequested.Some? ==> !after.state.Succeeded? && !after.state.Missed?)
    && (after.plan.Some? ==>
        var p := after.plan.value;
        (p.state.Succeeded? && p.reason.Successful()) ||
        (p.state.Partial? && (p.reason.Communication() || (p.reason.UserRequestedStop? && after.stopRequested.Some?))))
    && (after.state.Finalizing? ==> after.plan.Some?)
    && (after.state.Succeeded? && after.plan.Some? ==> after.plan.value.state.Succeeded?)
    && (after.state.Partial? && after.plan.Some? ==> after.plan.value.state.Partial?)
    && (after.state.Cancelled? && after.stopRequested.Some? ==> after.terminalReason == Some(UserRequestedStop))
    && (after.state.Terminal() <==> after.terminalReason.Some?)
    && (after.actualEnd.Some? ==> after.actualStart.Some? && after.actualEnd.value >= after.actualStart.value)
    && after.plannedEnd > after.plannedStart >= 0
  }

  // ----- What recovery selects and what it refuses to read

  predicate Selected(a: Attempt) { a.state.Early() || a.state.Finalizing? || Historical(a) }

  /** `validateRecoveryValues`. */
  predicate MainAccepted(a: Attempt) {
    var evidence := a.state.Finalizing? || a.state.Succeeded? || a.state.Partial?;
    var m := a.main;
    && a.plannedStart >= 0 && a.plannedEnd > a.plannedStart && a.byteCount >= 0 && a.byteCount == m.byteCount
    && m.plan.partial != m.plan.final
    && (a.state.Early() || evidence)
    && (evidence ==> m.fileSynced && a.token.Some? && a.byteCount >= USEFUL_BYTES)
    && (m.directorySynced ==> m.finalPublished) && (m.finalPublished ==> m.fileSynced)
    && (a.state.Succeeded? || a.state.Partial? ==> m.finalPublished && m.directorySynced)
    && (a.state.Finalizing? ==> (m.state.SegPartial? && m.availability.FilePartial?) || m.Finalized())
    && (a.state.Succeeded? || a.state.Partial? ==>
        m.availability.FileFinal? || m.availability.FileMissing? || m.availability.FileMismatched?)
    && (!evidence ==> a.token.None? && !m.fileSynced && !m.finalPublished && !m.directorySynced)
    && (evidence ==> a.plan.Some? && a.plan.value.Valid(a.byteCount))
    && (a.state.Succeeded? ==> a.plan.value.state.Succeeded?)
    && (a.state.Partial? ==> a.plan.value.state.Partial?)
  }

  /** `validateRecoverySegment`. */
  predicate OneSegAccepted(s: Segment) {
    && s.plan.partial != s.plan.final && s.byteCount >= 0
    && (s.directorySynced ==> s.finalPublished) && (s.finalPublished ==> s.fileSynced)
    && (s.availability.FileFinal? ==> s.Finalized())
    && (s.availability.FilePlanned? ==> s.state.SegPlanned? || s.state.SegWriting?)
    && (!s.availability.FilePlanned? && !s.availability.FileFinal? ==>
        (s.availability.FilePartial? && s.state.SegPartial? && s.fileSynced && s.integrity.None?) || s.integrity.Some?)
  }

  predicate Accepted(a: Attempt) { MainAccepted(a) && (a.oneSeg.Some? ==> OneSegAccepted(a.oneSeg.value)) }
}
