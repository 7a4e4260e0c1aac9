/** The store's reservations and attempts together: claims, stops, finishes and programme time changes as
    transactions over both tables, and what every one of them keeps. */
module RecordingStore {
  import opened Basics
  import opened RecordingModel
  import opened RecordingRows
  import opened RecordingInvariant
  import opened EndTime

  datatype Reservation = Reservation(
    active: bool, enabled: bool, version: int, follow: bool, revision: nat, times: Times, hasOneSeg: bool)

  datatype Db = Db(reservations: map<nat, Reservation>, attempts: map<nat, Attempt>)

  datatype ClaimRequest = ClaimRequest(
    reservation: nat, version: int, attempt: nat, plan: FilePlan, oneSegPlan: Option<FilePlan>)
  {
    predicate Valid() {
      && plan.partial != plan.final
      && (oneSegPlan.Some? ==>
          oneSegPlan.value.partial != oneSegPlan.value.final &&
          {oneSegPlan.value.partial, oneSegPlan.value.final} !! {plan.partial, plan.final})
    }
  }

  datatype FollowRequest = FollowRequest(
    reservation: nat, version: int, revision: nat, targetRevision: nat, targetStart: int, targetDurationMS: int,
    verified: bool, extensionOnly: bool)

  // ----- Names

  function SegmentPaths(plan: FilePlan): set<Path> { {plan.partial, plan.final} }

  function Paths(a: Attempt): set<Path> {
    SegmentPaths(a.main.plan) + if a.oneSeg.Some? then SegmentPaths(a.oneSeg.value.plan) else {}
  }

  predicate FourNames(a: Attempt) {
    PlansDistinct(a) && (a.oneSeg.Some? ==> SegmentPaths(a.main.plan) !! SegmentPaths(a.oneSeg.value.plan))
  }

  predicate NameFree(db: Db, path: Path) { forall id | id in db.attempts :: path !in Paths(db.attempts[id]) }

  // ----- Transactions

  function NewSegment(plan: FilePlan): Segment { Segment(plan, SegPlanned, 0, false, false, false, FilePlanned, None) }

  function NewAttempt(request: ClaimRequest, planned: Planned): Attempt {
    Attempt(request.reservation, Claimed, planned.start, planned.end, None, None, 0, None, None, None, None, false,
            NewSegment(request.plan),
            if request.oneSegPlan.Some? then Some(NewSegment(request.oneSegPlan.value)) else None)
  }

  predicate HasAttempt(db: Db, reservation: nat) {
    exists id | id in db.attempts :: db.attempts[id].reservation == reservation
  }

  predicate ClaimAllowed(db: Db, request: ClaimRequest) {
    && request.Valid() && request.reservation in db.reservations
    && (var r := db.reservations[request.reservation];
        r.times.Readable() && r.active && r.enabled && r.version == request.version &&
        r.hasOneSeg == request.oneSegPlan.Some? && ClaimTimes(r.times).Some?)
    && !HasAttempt(db, request.reservation) && request.attempt !in db.attempts
    && NameFree(db, request.plan.partial) && NameFree(db, request.plan.final)
    && (request.oneSegPlan.Some? ==>
        NameFree(db, request.oneSegPlan.value.partial) && NameFree(db, request.oneSegPlan.value.final))
  }

  function Claim(db: Db, request: ClaimRequest): Option<Db> {
    if ClaimAllowed(db, request) then
      var attempt := NewAttempt(request, ClaimTimes(db.reservations[request.reservation].times).value);
      Some(db.(attempts := db.attempts[request.attempt := attempt]))
    else None
  }

  function Finished(r: Reservation): Reservation { r.(active := false, version := r.version + 1) }

  /** A transaction on one attempt; a finish also finishes the attempt's reservation, which must still be
      active. Stops and time changes have their own transactions. */
  function OnAttempt(db: Db, id: nat, c: Change): Option<Db> {
    if id !in db.attempts || c.Replan? || c.Stop? then None
    else
      var a := db.attempts[id];
      var b := Committed(a, c);
      if b.None? then None
      else
        var updated := db.(attempts := db.attempts[id := b.value]);
        if !c.Finish? then Some(updated)
        else if a.reservation in db.reservations && db.reservations[a.reservation].active then
          Some(updated.(reservations := db.reservations[a.reservation := Finished(db.reservations[a.reservation])]))
        else None
  }

  /** `StopReservation` for a reservation whose attempt, if any, is `id`. */
  function StopWith(db: Db, reservation: nat, id: Option<nat>, now: int): Option<Db> {
    if reservation !in db.reservations || !db.reservations[reservation].active then None
    else if id.None? then
      Some(db.(reservations := db.reservations[reservation := Finished(db.reservations[reservation])]))
    else if id.value in db.attempts then
      var b := Committed(db.attempts[id.value], Stop(now));
      if b.Some? then Some(db.(attempts := db.attempts[id.value := b.value])) else None
    else None
  }

  predicate OwnedBy(db: Db, reservation: nat, id: Option<nat>) {
    if id.None? then !HasAttempt(db, reservation)
    else id.value in db.attempts && db.attempts[id.value].reservation == reservation
  }

  /** The settings a reservation row may hold. */
  predicate SettingsAllow(t: Times) {
    && 0 <= t.start <= MAX_INT64 && 1 <= t.duration <= 86_400
    && -3_600 <= t.startMargin <= 3_600 && -3_600 <= t.endMargin <= 3_600
    && t.start - t.startMargin * 1_000 >= 0 && 1 <= t.duration + t.startMargin + t.endMargin <= 86_400
  }

  function TargetTimes(r: Reservation, q: FollowRequest): Times {
    r.times.(start := q.targetStart, duration := q.targetDurationMS / 1_000)
  }

  function Retimed(r: Reservation, q: FollowRequest): Reservation {
    r.(times := TargetTimes(r, q), revision := q.targetRevision, version := r.version + 1)
  }

  /** The evaluated reservation is unchanged and the target is the programme's newest listed revision. */
  predicate FollowMatches(r: Reservation, q: FollowRequest) {
    && r.active && r.follow && r.version == q.version && r.revision == q.revision && q.verified
    && q.targetStart >= 0 && 60_000 <= q.targetDurationMS <= 43_200_000 && q.targetDurationMS % 1_000 == 0
  }

  function FollowPending(db: Db, q: FollowRequest): Option<Db> {
    if q.reservation in db.reservations && FollowMatches(db.reservations[q.reservation], q) &&
       SettingsAllow(TargetTimes(db.reservations[q.reservation], q)) then
      Some(db.(reservations := db.reservations[q.reservation := Retimed(db.reservations[q.reservation], q)]))
    else None
  }

  /** The end a running recording gets from the target times, or None when it must not follow. */
  function FollowedEnd(r: Reservation, a: Attempt, q: FollowRequest): Option<int> {
    if !a.state.Early() || r.times.start < 0 || r.times.duration < 1 || r.times.duration > 86_400 ||
       !ValidFollowTime(q.targetStart, q.targetDurationMS / 1_000, r.times.startMargin, r.times.endMargin) then None
    else
      var targetEnd := ActiveFollowEnd(q.targetStart, q.targetDurationMS, r.times.endMargin, a.plannedStart);
      var currentEnd := ActiveFollowEnd(r.times.start, r.times.duration * 1_000, r.times.endMargin, a.plannedStart);
      if targetEnd.None? || currentEnd != Some(a.plannedEnd) then None
      else if q.extensionOnly && (q.targetStart != r.times.start || targetEnd.value <= a.plannedEnd) then None
      else targetEnd
  }

  function FollowActive(db: Db, q: FollowRequest, id: nat): Option<Db> {
    if q.reservation in db.reservations && id in db.attempts && FollowMatches(db.reservations[q.reservation], q) then
      var r, a := db.reservations[q.reservation], db.attempts[id];
      var end := FollowedEnd(r, a, q);
      var b := if end.Some? then Committed(a, Replan(end.value)) else None;
      if b.Some? && SettingsAllow(TargetTimes(r, q)) then
        Some(Db(db.reservations[q.reservation := Retimed(r, q)], db.attempts[id := b.value]))
      else None
    else None
  }

  // ----- What every transaction keeps

  /** While an attempt has not closed its file, its planned end is the follow arithmetic's answer for the
      reservation's current times, and it lies within a day after the start. */
  predicate EndOk(t: Times, a: Attempt) {
    a.state.Early() ==>
      && 0 <= a.plannedStart < a.plannedEnd <= MAX_INT64
      && a.plannedEnd - a.plannedStart <= MILLISECONDS_PER_DAY
      && (t.start + t.duration * 1_000 <= MAX_INT64 ==>
          ActiveFollowEnd(t.start, t.duration * 1_000, t.endMargin, a.plannedStart) == Some(a.plannedEnd))
  }

  predicate AttemptOk(db: Db, a: Attempt) {
    && RowOk(a) && FourNames(a) && a.reservation in db.reservations
    && (!a.state.Terminal() ==> db.reservations[a.reservation].active)
    && EndOk(db.reservations[a.reservation].times, a)
  }

  predicate Separate(a: Attempt, b: Attempt) { a.reservation != b.reservation && Paths(a) !! Paths(b) }

  predicate DbOk(db: Db) {
    && (forall id | id in db.attempts :: AttemptOk(db, db.attempts[id]))
    && (forall i, j | i in db.attempts && j in db.attempts && i != j :: Separate(db.attempts[i], db.attempts[j]))
    && (forall r | r in db.reservations :: SettingsAllow(db.reservations[r].times))
  }

  lemma NewRowOk(db: Db, request: ClaimRequest)
    requires ClaimAllowed(db, request)
    ensures var r := db.reservations[request.reservation];
      var a := NewAttempt(request, ClaimTimes(r.times).value);
      RowOk(a) && FourNames(a) && EndOk(r.times, a)
  {
    ClaimIsExact(db.reservations[request.reservation].times);
    ClaimMatchesFollow(db.reservations[request.reservation].times);
  }

  lemma NewRowIsSeparate(db: Db, request: ClaimRequest, planned: Planned, id: nat)
    requires ClaimAllowed(db, request) && id in db.attempts
    ensures Separate(db.attempts[id], NewAttempt(request, planned)) && Separate(NewAttempt(request, planned), db.attempts[id])
  {
    var other := db.attempts[id];
    assert request.plan.partial !in Paths(other) && request.plan.final !in Paths(other);
  }

  lemma AddingKeepsDb(db: Db, id: nat, a: Attempt)
    requires DbOk(db) && id !in db.attempts && AttemptOk(db, a)
    requires forall other | other in db.attempts :: Separate(db.attempts[other], a) && Separate(a, db.attempts[other])
    ensures DbOk(db.(attempts := db.attempts[id := a]))
  {
  }

  lemma ClaimKeepsDb(db: Db, request: ClaimRequest)
    requires DbOk(db) && Claim(db, request).Some?
    ensures DbOk(Claim(db, request).value)
  {
    var planned := ClaimTimes(db.reservations[request.reservation].times).value;
    NewRowOk(db, request);
    forall id | id in db.attempts
      ensures Separate(db.attempts[id], NewAttempt(request, planned)) && Separate(NewAttempt(request, planned), db.attempts[id])
    {
      NewRowIsSeparate(db, request, planned, id);
    }
    AddingKeepsDb(db, request.attempt, NewAttempt(request, planned));
  }

  /** Replacing one attempt's row keeps the database in order when the row keeps its names and its
      reservation. */
  lemma UpdateKeepsDb(db: Db, id: nat, b: Attempt)
    requires DbOk(db) && id in db.attempts && RowOk(b)
    requires b.reservation == db.attempts[id].reservation && Paths(b) == Paths(db.attempts[id]) && FourNames(b)
    requires db.attempts[id].state.Rank() <= b.state.Rank()
    requires EndOk(db.reservations[b.reservation].times, b)
    ensures DbOk(db.(attempts := db.attempts[id := b]))
  {
  }

  lemma FinishReservationKeepsDb(db: Db, id: nat)
    requires DbOk(db) && id in db.attempts && db.attempts[id].state.Terminal()
    ensures var r := db.attempts[id].reservation;
      DbOk(db.(reservations := db.reservations[r := Finished(db.reservations[r])]))
  {
  }

  lemma ChangeKeepsNames(a: Attempt, c: Change)
    requires Changed(a, c).Some?
    ensures var b := Changed(a, c).value;
      b.reservation == a.reservation && Paths(b) == Paths(a) && FourNames(b) == FourNames(a)
    ensures !c.Replan? ==> Changed(a, c).value.plannedStart == a.plannedStart && Changed(a, c).value.plannedEnd == a.plannedEnd
  {
  }

  lemma OnAttemptKeepsDb(db: Db, id: nat, c: Change)
    requires DbOk(db) && OnAttempt(db, id, c).Some? && !Forbidden(db.attempts[id], c)
    ensures DbOk(OnAttempt(db, id, c).value)
  {
    var a := db.attempts[id];
    var b := Committed(a, c).value;
    ChangeKeepsRow(a, c);
    ChangeKeepsNames(a, c);
    assert StopOk(a);
    ChangeKeepsStop(a, c);
    UpdateKeepsDb(db, id, b);
    UpdatedIsDone(db, id, c, b);
  }

  lemma UpdatedIsDone(db: Db, id: nat, c: Change, b: Attempt)
    requires OnAttempt(db, id, c).Some? && Committed(db.attempts[id], c) == Some(b)
    requires DbOk(db.(attempts := db.attempts[id := b])) && b.reservation == db.attempts[id].reservation
    requires c.Finish? ==> b.state.Terminal()
    ensures DbOk(OnAttempt(db, id, c).value)
  {
    hide DbOk, Committed, Finished;
    if c.Finish? { FinishReservationKeepsDb(db.(attempts := db.attempts[id := b]), id); }
  }

  lemma StopKeepsDb(db: Db, reservation: nat, id: Option<nat>, now: int)
    requires DbOk(db) && OwnedBy(db, reservation, id) && StopWith(db, reservation, id, now).Some?
    ensures DbOk(StopWith(db, reservation, id, now).value)
  {
    if id.Some? {
      ChangeKeepsRow(db.attempts[id.value], Stop(now));
      UpdateKeepsDb(db, id.value, Committed(db.attempts[id.value], Stop(now)).value);
    }
  }

  /** A time change gives the attempt an end that matches the new times; in extension-only mode it is a
      later one. */
  lemma FollowedEndOk(r: Reservation, a: Attempt, q: FollowRequest)
    requires RowOk(a) && EndOk(r.times, a) && SettingsAllow(r.times) && FollowMatches(r, q)
    requires FollowedEnd(r, a, q).Some?
    ensures var end := FollowedEnd(r, a, q).value;
      EndOk(TargetTimes(r, q), a.(plannedEnd := end)) && (q.extensionOnly ==> end > a.plannedEnd)
  {
    FollowEndInRange(q.targetStart, q.targetDurationMS, r.times.endMargin, a.plannedStart);
    assert q.targetDurationMS / 1_000 * 1_000 == q.targetDurationMS;
  }

  lemma RetimeKeepsDb(db: Db, reservation: nat, r: Reservation)
    requires DbOk(db) && reservation in db.reservations && SettingsAllow(r.times)
    requires r.active == db.reservations[reservation].active
    requires forall id | id in db.attempts && db.attempts[id].reservation == reservation :: EndOk(r.times, db.attempts[id])
    ensures DbOk(db.(reservations := db.reservations[reservation := r]))
  {
  }

  /** Changing a reservation together with its own attempt keeps everybody else's rows in order. */
  lemma BothRowsKeepDb(db: Db, id: nat, b: Attempt, r: Reservation)
    requires DbOk(db) && id in db.attempts && b.reservation == db.attempts[id].reservation
    requires RowOk(b) && FourNames(b) && Paths(b) == Paths(db.attempts[id])
    requires r.active && SettingsAllow(r.times) && EndOk(r.times, b) && db.reservations[b.reservation].active
    ensures DbOk(Db(db.reservations[b.reservation := r], db.attempts[id := b]))
  {
    var frozen := db.(attempts := db.attempts - {id});
    FrozenOk(db, id);
    RetimeKeepsDb(frozen, b.reservation, r);
    var retimed := frozen.(reservations := db.reservations[b.reservation := r]);
    forall other | other in retimed.attempts
      ensures Separate(retimed.attempts[other], b) && Separate(b, retimed.attempts[other])
    {
      assert Separate(db.attempts[other], db.attempts[id]) && Separate(db.attempts[id], db.attempts[other]);
    }
    AddingKeepsDb(retimed, id, b);
    assert retimed.attempts[id := b] == db.attempts[id := b];
  }

  lemma ReplannedRowOk(r: Reservation, a: Attempt, q: FollowRequest)
    requires RowOk(a) && EndOk(r.times, a) && SettingsAllow(r.times) && FollowMatches(r, q)
    requires FollowedEnd(r, a, q).Some?
    ensures var b := a.(plannedEnd := FollowedEnd(r, a, q).value);
      RowOk(b) && EndOk(TargetTimes(r, q), b) && Paths(b) == Paths(a) && FourNames(b) == FourNames(a)
  {
    FollowedEndOk(r, a, q);
    EarlyChangeKeepsRow(a, Replan(FollowedEnd(r, a, q).value));
  }

  lemma FollowKeepsDb(db: Db, q: FollowRequest, id: nat)
    requires DbOk(db) && OwnedBy(db, q.reservation, Some(id)) && FollowActive(db, q, id).Some?
    ensures DbOk(FollowActive(db, q, id).value)
  {
    var r, a := db.reservations[q.reservation], db.attempts[id];
    var end := FollowedEnd(r, a, q).value;
    ReplannedRowOk(r, a, q);
    BothRowsKeepDb(db, id, a.(plannedEnd := end), Retimed(r, q));
  }

  lemma FrozenOk(db: Db, id: nat)
    requires DbOk(db) && id in db.attempts
    ensures DbOk(db.(attempts := db.attempts - {id}))
    ensures forall other | other in db.attempts - {id} :: db.attempts[other].reservation != db.attempts[id].reservation
  {
    forall other | other in db.attempts - {id}
      ensures db.attempts[other].reservation != db.attempts[id].reservation
    {
      assert Separate(db.attempts[other], db.attempts[id]);
    }
  }

  // ----- Whole histories of the database

  datatype Transaction =
    | Reserve(id: nat, row: Reservation)
    | Edit(id: nat, row: Reservation)
    | ClaimFor(request: ClaimRequest)
    | Advance(id: nat, change: Change)
    | StopFor(reservation: nat, owner: Option<nat>, now: int)
    | FollowFor(follow: FollowRequest, owner: Option<nat>)

  /** New reservations and edits before any attempt exists. */
  function Settle(db: Db, id: nat, r: Reservation): Option<Db> {
    if r.active && SettingsAllow(r.times) && !HasAttempt(db, id) then Some(db.(reservations := db.reservations[id := r]))
    else None
  }

  function Result(db: Db, t: Transaction): Option<Db> {
    match t
    case Reserve(id, r) => if id in db.reservations then None else Settle(db, id, r)
    case Edit(id, r) => if id in db.reservations && db.reservations[id].active then Settle(db, id, r) else None
    case ClaimFor(request) => Claim(db, request)
    case Advance(id, change) => OnAttempt(db, id, change)
    case StopFor(reservation, owner, now) =>
      if OwnedBy(db, reservation, owner) then StopWith(db, reservation, owner, now) else None
    case FollowFor(q, owner) =>
      if !OwnedBy(db, q.reservation, owner) then None
      else if owner.None? then FollowPending(db, q) else FollowActive(db, q, owner.value)
  }

  function After(db: Db, t: Transaction): Db { if Result(db, t).Some? then Result(db, t).value else db }

  function Run(db: Db, ts: seq<Transaction>): Db {
    if ts == [] then db else After(Run(db, ts[..|ts| - 1]), ts[|ts| - 1])
  }

  predicate Disciplined(db: Db, t: Transaction) {
    t.Advance? && t.id in db.attempts ==> !Forbidden(db.attempts[t.id], t.change)
  }

  lemma UnclaimedKeepsDb(db: Db, id: nat, r: Reservation)
    requires DbOk(db) && Settle(db, id, r).Some?
    ensures DbOk(Settle(db, id, r).value)
  {
  }

  lemma PendingFollowKeepsDb(db: Db, q: FollowRequest)
    requires DbOk(db) && !HasAttempt(db, q.reservation) && FollowPending(db, q).Some?
    ensures DbOk(FollowPending(db, q).value)
  {
  }

  lemma StepKeepsDb(db: Db, t: Transaction)
    requires DbOk(db) && Disciplined(db, t)
    ensures DbOk(After(db, t))
  {
    if Result(db, t).Some? {
      match t {
        case Reserve(id, r) => UnclaimedKeepsDb(db, id, r);
        case Edit(id, r) => UnclaimedKeepsDb(db, id, r);
        case ClaimFor(request) => ClaimKeepsDb(db, request);
        case Advance(id, change) => OnAttemptKeepsDb(db, id, change);
        case StopFor(reservation, owner, now) => StopKeepsDb(db, reservation, owner, now);
        case FollowFor(q, owner) =>
          if owner.None? { PendingFollowKeepsDb(db, q); } else { FollowKeepsDb(db, q, owner.value); }
      }
    }
  }

  /** What order in the database means for recovery: a reservation has at most one attempt, no name is used
      twice, and every row recovery selects is one it accepts. */
  lemma OrderlyIsReadable(db: Db, id: nat, other: nat)
    requires DbOk(db) && id in db.attempts && other in db.attempts
    ensures Selected(db.attempts[id]) ==> Accepted(db.attempts[id])
    ensures db.attempts[id].reservation == db.attempts[other].reservation ==> id == other
    ensures id != other ==> Paths(db.attempts[id]) !! Paths(db.attempts[other])
  {
    assert AttemptOk(db, db.attempts[id]);
    if id != other { assert Separate(db.attempts[id], db.attempts[other]); }
  }

  /** After any history the database is in order, so recovery is never refused by what the program wrote. */
  lemma {:induction false} HistoryKeepsDb(db: Db, ts: seq<Transaction>)
    requires DbOk(db)
    requires forall i | 0 <= i < |ts| :: Disciplined(Run(db, ts[..i]), ts[i])
    ensures DbOk(Run(db, ts))
  {
    if ts != [] {
      var prefix := ts[..|ts| - 1];
      assert forall i | 0 <= i < |prefix| :: prefix[..i] == ts[..i] && prefix[i] == ts[i];
      HistoryKeepsDb(db, prefix);
      StepKeepsDb(Run(db, prefix), ts[|ts| - 1]);
    }
  }

  lemma AdvanceKeepsEnd(db: Db, other: nat, change: Change, id: nat)
    requires id in db.attempts && OnAttempt(db, other, change).Some?
    ensures var after := OnAttempt(db, other, change).value;
      id in after.attempts && after.attempts[id].plannedStart == db.attempts[id].plannedStart &&
      after.attempts[id].plannedEnd == db.attempts[id].plannedEnd
  {
    ChangeKeepsNames(db.attempts[other], change);
  }

  lemma FollowMovesEnd(db: Db, q: FollowRequest, owner: nat, id: nat)
    requires DbOk(db) && id in db.attempts && OwnedBy(db, q.reservation, Some(owner))
    requires FollowActive(db, q, owner).Some?
    ensures var after := FollowActive(db, q, owner).value;
      id in after.attempts && after.attempts[id].plannedStart == db.attempts[id].plannedStart &&
      (q.extensionOnly ==> after.attempts[id].plannedEnd >= db.attempts[id].plannedEnd)
  {
  }

  /** One transaction never moves an attempt's planned start, and moves its planned end only through a time
      change, which in extension-only mode is later. */
  lemma StepMovesEnd(db: Db, t: Transaction, id: nat)
    requires DbOk(db) && id in db.attempts
    ensures id in After(db, t).attempts
    ensures After(db, t).attempts[id].plannedStart == db.attempts[id].plannedStart
    ensures (t.FollowFor? ==> t.follow.extensionOnly) ==>
      After(db, t).attempts[id].plannedEnd >= db.attempts[id].plannedEnd
  {
    if Result(db, t).Some? {
      match t {
        case Advance(other, change) => AdvanceKeepsEnd(db, other, change, id);
        case FollowFor(q, owner) => if owner.Some? { FollowMovesEnd(db, q, owner.value, id); }
        case _ =>
      }
    }
  }

  /** The end a store transaction returns to the executor is one the executor accepts: after the planned
      start, within the day that bounds the attempt, and in extension-only mode never before an end it was
      given earlier. */
  lemma {:induction false} ReturnedEndsAreAccepted(db: Db, ts: seq<Transaction>, id: nat)
    requires DbOk(db) && id in db.attempts
    requires forall i | 0 <= i < |ts| :: Disciplined(Run(db, ts[..i]), ts[i])
    ensures id in Run(db, ts).attempts
    ensures var a, b := db.attempts[id], Run(db, ts).attempts[id];
      && b.plannedStart == a.plannedStart
      && (b.state.Early() ==> a.plannedStart < b.plannedEnd <= a.plannedStart + MILLISECONDS_PER_DAY)
      && ((forall i | 0 <= i < |ts| :: ts[i].FollowFor? ==> ts[i].follow.extensionOnly) ==> b.plannedEnd >= a.plannedEnd)
  {
    HistoryKeepsDb(db, ts);
    if ts != [] {
      var prefix := ts[..|ts| - 1];
      assert forall i | 0 <= i < |prefix| :: prefix[..i] == ts[..i] && prefix[i] == ts[i];
      ReturnedEndsAreAccepted(db, prefix, id);
      HistoryKeepsDb(db, prefix);
      StepMovesEnd(Run(db, prefix), ts[|ts| - 1], id);
    }
    if id in Run(db, ts).attempts {
      assert AttemptOk(Run(db, ts), Run(db, ts).attempts[id]);
    }
  }

  lemma HistoryOfFour(a: Attempt, changes: seq<Change>, b: Attempt, c: Attempt, d: Attempt, e: Attempt)
    requires |changes| == 4 && Committed(a, changes[0]) == Some(b) && Committed(b, changes[1]) == Some(c)
    requires Committed(c, changes[2]) == Some(d) && Committed(d, changes[3]) == Some(e)
    ensures History(a, changes[..0]) == a && History(a, changes[..1]) == b && History(a, changes[..2]) == c
    ensures History(a, changes[..3]) == d && History(a, changes) == e
  {
    hide Committed;
    assert changes[..1][..0] == [] && changes[..2][..1] == changes[..1] && changes[..3][..2] == changes[..2];
  }

  /** Claimed, recorded for two seconds, settled as a lost connection, finished unpublished. */
  lemma BlockedRow(a: Attempt) returns (changes: seq<Change>, b: Attempt, c: Attempt, d: Attempt, e: Attempt)
    requires a == NewAttempt(ClaimRequest(7, 1, 3, FilePlan(1, 2), None), Planned(10_000, 70_000))
    ensures |changes| == 4 && Committed(a, changes[0]) == Some(b) && Committed(b, changes[1]) == Some(c)
    ensures Committed(c, changes[2]) == Some(d) && Committed(d, changes[3]) == Some(e)
    ensures !changes[0].Finish? && !changes[1].Finish? && !changes[2].Finish? && Selected(e) && !Accepted(e)
  {
    var plan := Plan(AttemptState.Partial, StreamTimeout);
    changes := [ToStarting, ToRecording(10_000), Finalize(FinalizeRequest(376, plan, None), 9, 12_000),
                Change.Finish(FinishRequest(AttemptState.Partial, StreamTimeout, 376, FilePartial, false, None), 13_000)];
    b := a.(state := Starting);
    c := b.(state := Recording, actualStart := Some(10_000), main := a.main.(state := SegWriting));
    d := c.(state := Finalizing, byteCount := 376, token := Some(9), plan := Some(plan),
            main := c.main.(state := SegPartial, byteCount := 376, fileSynced := true, availability := FilePartial));
    e := d.(state := AttemptState.Partial, actualEnd := Some(13_000), terminalReason := Some(StreamTimeout));
  }

  /** The forbidden finish is within reach of a claim: nothing before it is forbidden, and after it recovery
      selects a row that it refuses. */
  lemma ClaimedRowBlocksRecovery() returns (db: Db, request: ClaimRequest, changes: seq<Change>)
    ensures DbOk(db) && db.attempts == map[] && Claim(db, request).Some? && |changes| == 4
    ensures var a := Claim(db, request).value.attempts[request.attempt];
      && (forall i | 0 <= i < 4 :: Committed(History(a, changes[..i]), changes[i]).Some?)
      && (forall i | 0 <= i < 3 :: !Forbidden(History(a, changes[..i]), changes[i]))
      && Selected(History(a, changes)) && !Accepted(History(a, changes))
  {
    db := Db(map[7 := Reservation(true, true, 1, false, 5, Times(10_000, 60, 0, 0), false)], map[]);
    request := ClaimRequest(7, 1, 3, FilePlan(1, 2), None);
    var a := NewAttempt(request, Planned(10_000, 70_000));
    assert Claim(db, request).value.attempts[3] == a && DbOk(db);
    hide Committed, Selected, Accepted, History, DbOk, Claim;
    var b, c, d, e;
    changes, b, c, d, e := BlockedRow(a);
    HistoryOfFour(a, changes, b, c, d, e);
    forall i | 0 <= i < 4 ensures Committed(History(a, changes[..i]), changes[i]).Some? {
      assert i == 0 || i == 1 || i == 2 || i == 3;
    }
    forall i | 0 <= i < 3 ensures !Forbidden(History(a, changes[..i]), changes[i]) {
      assert i == 0 || i == 1 || i == 2;
    }
  }

  /** A reservation whose programme ends beyond 64 bits never moves the end of its recording. */
  lemma BeyondNeverFollows(db: Db, q: FollowRequest, id: nat)
    requires q.reservation in db.reservations
    requires db.reservations[q.reservation].times.start + db.reservations[q.reservation].times.duration * 1_000 > MAX_INT64
    ensures FollowActive(db, q, id).None?
  {
    hide FollowMatches, SettingsAllow, ValidFollowTime;
  }
}
