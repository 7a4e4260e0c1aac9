/** The store's transactions as the program performs them: statement by statement on a working copy of the
    rows that replaces the table's rows only at the commit. Each equals the transaction the proofs speak
    about. */
module RecordingTransactions {
  import opened Basics
  import opened RecordingModel
  import opened RecordingRows
  import opened RecordingInvariant
  import opened RecordingStore
  import opened EndTime

  // ----- The statements on one attempt's rows

  /** The first statement of a finalization: one guarded update. */
  method MarkFinalizing(row: Attempt, byteCount: int, plan: Plan, token: nat, now: int)
    returns (count: nat, marked: Attempt)
    ensures count == if CanFinalize(row, byteCount, plan, now) then 1 else 0
    ensures marked == if count == 0 then row
                      else row.(state := Finalizing, byteCount := byteCount, token := Some(token), plan := Some(plan))
  {
    if CanFinalize(row, byteCount, plan, now) {
      return 1, row.(state := Finalizing, byteCount := byteCount, token := Some(token), plan := Some(plan));
    }
    return 0, row;
  }

  /** The plan is tried as requested and, when that loses against a stop, as a stopped recording. */
  method SettlePlan(before: Attempt, request: FinalizeRequest, token: nat, now: int)
    returns (settled: Option<FinalizeRequest>, row: Attempt)
    requires request.Valid()
    ensures settled == Resolve(before, request, now)
    ensures settled.Some? ==>
      row == before.(state := Finalizing, byteCount := settled.value.byteCount, token := Some(token),
                     plan := Some(settled.value.plan))
  {
    var candidate := request;
    var count;
    count, row := MarkFinalizing(before, candidate.byteCount, candidate.plan, token, now);
    if count == 0 && (request.plan.state.Succeeded? || (request.plan.state.Partial? && request.plan.reason.Communication())) {
      candidate := candidate.(plan := Plan(AttemptState.Partial, UserRequestedStop));
      if candidate.oneSeg.Some? && candidate.oneSeg.value.publish {
        candidate := candidate.(oneSeg := Some(candidate.oneSeg.value.(reason := UserRequestedStop)));
      }
      count, row := MarkFinalizing(before, candidate.byteCount, candidate.plan, token, now);
    }
    settled := if count == 1 then Some(candidate) else None;
  }

  /** `BeginFinalization` on the rows: the plan, then the main file, then the one-seg file. */
  method FinalizeRows(before: Attempt, request: FinalizeRequest, token: nat, now: int)
    returns (settled: Option<FinalizeRequest>, row: Attempt)
    ensures settled.Some? <==> BeginFinalization(before, request, token, now).Some?
    ensures settled.Some? ==>
      settled == Resolve(before, request, now) && Some(row) == BeginFinalization(before, request, token, now)
  {
    row := before;
    if !request.Valid() { return None, before; }
    settled, row := SettlePlan(before, request, token, now);
    if settled.None? { return; }
    var r := settled.value;
    if !row.main.state.SegWriting? || row.main.byteCount > r.byteCount { return None, before; }
    row := row.(main := row.main.(state := SegPartial, byteCount := r.byteCount, fileSynced := true,
                                  availability := FilePartial));
    if r.oneSeg.Some? != row.oneSeg.Some? { return None, before; }
    if r.oneSeg.Some? {
      var closed := FinalizeOneSeg(row.oneSeg.value, r.oneSeg.value);
      if closed.None? { return None, before; }
      row := row.(oneSeg := closed);
    }
  }

  /** `markSegmentFinalizationFlag` on the rows. */
  method FlagRows(before: Attempt, ordinal: Ordinal, flag: Flag) returns (row: Option<Attempt>)
    ensures row == Mark(before, ordinal, flag)
  {
    row := None;
    if ordinal.OneSegFile? && before.oneSeg.None? { return; }
    var segment := if ordinal.MainFile? then before.main else before.oneSeg.value;
    if !segment.state.SegPartial? || !segment.fileSynced || segment.integrity.Some? { return; }
    if flag.DirectorySynced? && !segment.finalPublished { return; }
    segment := if flag.FinalPublished? then segment.(finalPublished := true)
               else segment.(directorySynced := true, state := SegFinalized, availability := FileFinal);
    if !before.state.Finalizing? { return; }
    row := Some(if ordinal.MainFile? then before.(main := segment) else before.(oneSeg := Some(segment)));
  }

  /** The checks of `FinishAttempt`, in order. */
  method FinishChecks(row: Attempt, f: FinishRequest) returns (allowed: bool)
    ensures allowed == FinishAllowed(row, f)
  {
    if !f.Valid() || row.state.Terminal() { return false; }
    var successful := f.Publishes();
    if successful && !row.state.Finalizing? { return false; }
    if successful && row.plan != Some(Plan(f.state, f.reason)) { return false; }
    if successful && (!row.main.Published() || !row.main.availability.FileFinal?) { return false; }
    if (successful && f.oneSeg.Some?) || (f.oneSeg.Some? && f.oneSeg.value.publish) { return false; }
    if !successful && row.oneSeg.Some? != f.oneSeg.Some? { return false; }
    if successful && row.oneSeg.Some? && !row.oneSeg.value.Finalized() && !row.oneSeg.value.Settled() { return false; }
    return true;
  }

  method FinishRows(before: Attempt, f: FinishRequest, now: int) returns (row: Option<Attempt>)
    ensures row == FinishAttempt(before, f, now)
  {
    var allowed := FinishChecks(before, f);
    if !allowed || (before.actualStart.Some? && now < before.actualStart.value) { return None; }
    var a := before.(state := f.state, actualEnd := if before.actualStart.Some? then Some(now) else None,
                     byteCount := f.byteCount, terminalReason := Some(f.reason), recovered := f.recovered);
    if f.Publishes() {
      a := a.(main := a.main.(byteCount := f.byteCount));
    } else {
      a := a.(main := a.main.(state := if f.byteCount > 0 then SegPartial else a.main.state,
                              byteCount := f.byteCount, availability := f.availability));
      if f.oneSeg.Some? { a := a.(oneSeg := Some(SettleSegment(a.oneSeg.value, f.oneSeg.value))); }
    }
    row := Some(a);
  }

  lemma CommitIsAdvance(db: Db, id: nat, row: Attempt, c: Change)
    requires DbOk(db) && id in db.attempts && Changed(db.attempts[id], c) == Some(row)
    requires !c.Finish? && !c.Replan? && !c.Stop?
    ensures After(db, Advance(id, c)) ==
      if ConstraintsAllow(db.attempts[id], row) then db.(attempts := db.attempts[id := row]) else db
    ensures OnAttempt(db, id, c).Some? <==> ConstraintsAllow(db.attempts[id], row)
    ensures DbOk(After(db, Advance(id, c)))
  {
    if OnAttempt(db, id, c).Some? { OnAttemptKeepsDb(db, id, c); }
  }

  // ----- The store

  class Store {
    var db: Db

    ghost predicate Valid()
      reads this
    {
      DbOk(db)
    }

    constructor ()
      ensures Valid() && db == Db(map[], map[])
    {
      db := Db(map[], map[]);
    }

    /** Replaces an attempt's rows if the table constraints allow it. */
    method CommitRows(id: nat, row: Attempt, ghost c: Change) returns (ok: bool)
      requires Valid() && id in db.attempts && Changed(db.attempts[id], c) == Some(row)
      requires !c.Finish? && !c.Replan? && !c.Stop?
      modifies this
      ensures Valid() && db == After(old(db), Advance(id, c))
      ensures ok <==> OnAttempt(old(db), id, c).Some?
    {
      ok := ConstraintsAllow(db.attempts[id], row);
      CommitIsAdvance(db, id, row, c);
      if ok { db := db.(attempts := db.attempts[id := row]); }
    }

    /** What stands in the way of a claim in the attempts table: the reservation's own attempt, a used
        attempt identifier, or a name some segment already uses. */
    method ClaimConflicts(request: ClaimRequest) returns (blocked: bool)
      ensures blocked <==>
        HasAttempt(db, request.reservation) || request.attempt in db.attempts ||
        !NameFree(db, request.plan.partial) || !NameFree(db, request.plan.final) ||
        (request.oneSegPlan.Some? &&
          (!NameFree(db, request.oneSegPlan.value.partial) || !NameFree(db, request.oneSegPlan.value.final)))
    {
      var paths := [request.plan.partial, request.plan.final];
      if request.oneSegPlan.Some? {
        paths := paths + [request.oneSegPlan.value.partial, request.oneSegPlan.value.final];
        assert paths[2] == request.oneSegPlan.value.partial && paths[3] == request.oneSegPlan.value.final;
      }
      if HasAttempt(db, request.reservation) || request.attempt in db.attempts { return true; }
      for i := 0 to |paths|
        invariant forall j | 0 <= j < i :: NameFree(db, paths[j])
      {
        if !NameFree(db, paths[i]) { return true; }
      }
      assert NameFree(db, paths[0]) && NameFree(db, paths[1]);
      return false;
    }

    /** `ClaimRecording`: the reservation, the files and the planned times in one transaction. */
    method ClaimRecording(request: ClaimRequest) returns (attempt: Option<Attempt>)
      requires Valid()
      modifies this
      ensures Valid() && db == After(old(db), ClaimFor(request))
      ensures attempt.Some? <==> ClaimAllowed(old(db), request)
      ensures attempt.Some? ==> request.attempt in db.attempts && attempt.value == db.attempts[request.attempt]
    {
      attempt := None;
      if !request.Valid() || request.reservation !in db.reservations { return; }
      var reservation := db.reservations[request.reservation];
      if !reservation.times.Readable() || !reservation.active || !reservation.enabled ||
         reservation.version != request.version { return; }
      if reservation.hasOneSeg != request.oneSegPlan.Some? { return; }
      var blocked := ClaimConflicts(request);
      if blocked { return; }
      var planned := ClaimTimes(reservation.times);
      if planned.None? { return; }
      ClaimKeepsDb(db, request);
      attempt := Some(NewAttempt(request, planned.value));
      db := db.(attempts := db.attempts[request.attempt := attempt.value]);
    }

    /** The attempt of a reservation, if it has one. */
    method FindAttempt(reservation: nat) returns (owner: Option<nat>)
      ensures OwnedBy(db, reservation, owner)
    {
      var owners := set id | id in db.attempts && db.attempts[id].reservation == reservation;
      if owners == {} {
        assert forall id | id in db.attempts :: id !in owners;
        return None;
      }
      var id :| id in owners;
      return Some(id);
    }

    /** `StopReservation`: cancels a reservation without an attempt, records a stop of a running one, and
        refuses when the result is already being settled. */
    method StopReservation(reservation: nat, now: int) returns (accepted: bool, owner: Option<nat>)
      requires Valid()
      modifies this
      ensures Valid() && OwnedBy(old(db), reservation, owner)
      ensures db == After(old(db), StopFor(reservation, owner, now))
      ensures accepted <==> StopWith(old(db), reservation, owner, now).Some?
    {
      accepted := false;
      owner := FindAttempt(reservation);
      if reservation !in db.reservations || !db.reservations[reservation].active { return; }
      if owner.Some? {
        var row := db.attempts[owner.value];
        if !row.state.Claimed? && !row.state.Starting? && !row.state.Recording? { return; }
        if row.stopRequested.None? { row := row.(stopRequested := Some(now)); }
        if !ConstraintsAllow(db.attempts[owner.value], row) { return; }
        StopKeepsDb(db, reservation, owner, now);
        db := db.(attempts := db.attempts[owner.value := row]);
      } else {
        StopKeepsDb(db, reservation, owner, now);
        db := db.(reservations := db.reservations[reservation := Finished(db.reservations[reservation])]);
      }
      accepted := true;
    }

    /** `BeginFinalization`. */
    method BeginFinalizing(id: nat, request: FinalizeRequest, token: nat, now: int)
      returns (resolved: Option<FinalizeRequest>)
      requires Valid()
      modifies this
      ensures Valid() && db == After(old(db), Advance(id, Finalize(request, token, now)))
      ensures resolved.Some? ==> id in old(db).attempts && resolved == Resolve(old(db).attempts[id], request, now)
      ensures resolved.None? <==> OnAttempt(old(db), id, Finalize(request, token, now)).None?
    {
      if id !in db.attempts { return None; }
      var row;
      resolved, row := FinalizeRows(db.attempts[id], request, token, now);
      if resolved.Some? {
        var ok := CommitRows(id, row, Finalize(request, token, now));
        if !ok { resolved := None; }
      }
    }

    /** `MarkFinalPublished` and its three siblings. */
    method MarkFlag(id: nat, ordinal: Ordinal, flag: Flag) returns (ok: bool)
      requires Valid()
      modifies this
      ensures Valid() && db == After(old(db), Advance(id, Flagged(ordinal, flag)))
      ensures ok <==> OnAttempt(old(db), id, Flagged(ordinal, flag)).Some?
    {
      if id !in db.attempts { return false; }
      var row := FlagRows(db.attempts[id], ordinal, flag);
      if row.None? { return false; }
      ok := CommitRows(id, row.value, Flagged(ordinal, flag));
    }

    /** `FinishAttempt`: the attempt, its segments and its reservation end together. The database stays in
        order unless the finish takes back a settled publication. */
    method Finish(id: nat, f: FinishRequest, now: int) returns (ok: bool)
      requires Valid()
      modifies this
      ensures db == After(old(db), Advance(id, Change.Finish(f, now)))
      ensures id !in old(db).attempts || !Unpublishes(old(db).attempts[id], f, now) ==> Valid()
      ensures ok <==> OnAttempt(old(db), id, Change.Finish(f, now)).Some?
    {
      if id !in db.attempts { return false; }
      var before := db.attempts[id];
      var row := FinishRows(before, f, now);
      if row.None? || !ConstraintsAllow(before, row.value) { return false; }
      if before.reservation !in db.reservations || !db.reservations[before.reservation].active { return false; }
      if !Unpublishes(before, f, now) { OnAttemptKeepsDb(db, id, Change.Finish(f, now)); }
      db := Db(db.reservations[before.reservation := Finished(db.reservations[before.reservation])],
               db.attempts[id := row.value]);
      ok := true;
    }

    /** `ApplyReservationFollow`: a reservation without an attempt takes the target times; a running one
        moves its end as well. */
    method ApplyFollow(q: FollowRequest) returns (applied: bool, owner: Option<nat>)
      requires Valid()
      modifies this
      ensures Valid() && OwnedBy(old(db), q.reservation, owner)
      ensures db == After(old(db), FollowFor(q, owner))
      ensures applied <==> Result(old(db), FollowFor(q, owner)).Some?
    {
      applied := false;
      owner := FindAttempt(q.reservation);
      if q.reservation !in db.reservations { return; }
      var r := db.reservations[q.reservation];
      if !FollowMatches(r, q) || !SettingsAllow(TargetTimes(r, q)) { return; }
      if owner.None? {
        PendingFollowKeepsDb(db, q);
        db := db.(reservations := db.reservations[q.reservation := Retimed(r, q)]);
        return true, owner;
      }
      var a := db.attempts[owner.value];
      var end := FollowedEnd(r, a, q);
      if end.None? || !ConstraintsAllow(a, a.(plannedEnd := end.value)) { return; }
      applied := MoveEnd(q, owner.value, end.value);
    }

    method MoveEnd(q: FollowRequest, id: nat, end: int) returns (applied: bool)
      requires Valid() && OwnedBy(db, q.reservation, Some(id)) && q.reservation in db.reservations
      requires FollowMatches(db.reservations[q.reservation], q)
      requires SettingsAllow(TargetTimes(db.reservations[q.reservation], q))
      requires FollowedEnd(db.reservations[q.reservation], db.attempts[id], q) == Some(end)
      requires ConstraintsAllow(db.attempts[id], db.attempts[id].(plannedEnd := end))
      modifies this
      ensures Valid() && applied && Some(db) == FollowActive(old(db), q, id)
    {
      FollowedEndOk(db.reservations[q.reservation], db.attempts[id], q);
      FollowKeepsDb(db, q, id);
      db := Db(db.reservations[q.reservation := Retimed(db.reservations[q.reservation], q)],
               db.attempts[id := db.attempts[id].(plannedEnd := end)]);
      applied := true;
    }
  }
}
