/** The recording scheduler: one loop that starts recordings, counts them, collects their completions and
    decides on the power, while recordings end and users stop them at any point in between. */
module Scheduler {
  import opened Basics
  import opened SchedulerTrace

  /** The cancel functions of the recordings that run, by reservation. A cancel function is named by the
      attempt it cancels. */
  class StopRegistry {
    const maximum: nat
    var items: map<Id, nat>

    constructor (maximum: nat)
      ensures this.maximum == maximum && items == map[]
    {
      this.maximum := maximum;
      items := map[];
    }

    method Register(id: Id, cancel: nat) returns (ok: bool)
      modifies this
      ensures ok <==> id != ZERO_ID && id !in old(items) && |old(items)| < maximum
      ensures items == if ok then old(items)[id := cancel] else old(items)
    {
      ok := id != ZERO_ID && maximum >= 1 && id !in items && |items| < maximum;
      if ok { items := items[id := cancel]; }
    }

    /** The closure that `register` returns. */
    method Unregister(id: Id)
      modifies this
      ensures items == old(items) - {id}
    {
      items := items - {id};
    }

    /** The cancel function that is called, if any. */
    method Notify(id: Id) returns (called: Option<nat>)
      ensures called == if id != ZERO_ID && id in items then Some(items[id]) else None
    {
      called := if id != ZERO_ID && id in items then Some(items[id]) else None;
    }
  }

  // ----- The power candidate

  datatype Candidate = Candidate(mode: Mode, present: bool, conflict: bool) {
    function Add(m: Mode): Candidate {
      if !ChangesPower(m) then this
      else if present && mode != m then this.(conflict := true)
      else this.(mode := m, present := true)
    }

    /** What a candidate says about the modes it has seen. */
    predicate Stands(modes: set<Mode>) {
      && (present <==> modes != {})
      && (present ==> mode in modes && (conflict <==> exists m | m in modes :: m != mode))
      && (conflict ==> present)
    }
  }

  const NO_CANDIDATE := Candidate(0, false, false)

  lemma AddStands(c: Candidate, modes: set<Mode>, m: Mode)
    requires c.Stands(modes)
    ensures c.Add(m).Stands(if ChangesPower(m) then modes + {m} else modes)
  {
    var all := modes + {m};
    if ChangesPower(m) && c.present && c.mode != m {
      assert m in all;
    } else if ChangesPower(m) && !c.present {
      assert all == {m};
    } else if ChangesPower(m) {
      assert all == modes;
    }
  }

  lemma NothingStands()
    ensures NO_CANDIDATE.Stands({})
  {
  }

  lemma OnlyMode(c: Candidate, modes: set<Mode>)
    requires c.Stands(modes) && c.present
    ensures if c.conflict then exists a, b | a in modes && b in modes :: a != b else modes == {c.mode}
  {
    if c.conflict {
      var m :| m in modes && m != c.mode;
      assert c.mode in modes;
    }
  }

  // ----- The scheduler

  ghost predicate OwnCancel(items: map<Id, nat>, attempts: map<Id, nat>) {
    forall id | id in items :: id in attempts && items[id] == attempts[id]
  }

  ghost predicate Distinct(attempts: map<Id, nat>) {
    forall i, j | i in attempts && j in attempts && attempts[i] == attempts[j] :: i == j
  }

  /** How many recordings are active, which still run, and which wait to be collected. */
  datatype Tally = Tally(active: nat, running: set<Id>, sending: set<Id>)

  function Counted(h: Trace): Tally { Tally(|Active(h)|, Registered(h), Active(h) - Registered(h)) }

  ghost predicate Settled(h: Trace, begun: set<Id>, settled: set<Id>) {
    begun == Begun(h) && Begun(h) + Expired(h) <= settled && ZERO_ID !in Begun(h)
  }

  lemma OneBegun(maximum: nat, h: Trace, g: Trace, r: Reservation, now: int,
                 t: Tally, begun: set<Id>, settled: set<Id>)
    requires Lawful(maximum, h) && Allowed(maximum, h, Began(r, now)) && g == h + [Began(r, now)]
    requires Counted(h) == t && Settled(h, begun, settled) && r.id != ZERO_ID
    ensures Lawful(maximum, g) && SameModes(h, g)
    ensures Counted(g) == t.(active := t.active + 1, running := t.running + {r.id}) && Settled(g, begun + {r.id}, settled + {r.id})
  {
    hide Lawful, Active, Begun, Registered, Expired, SameModes, Allowed;
    AfterBegan(maximum, h, r, now, g);
  }

  lemma AnotherAttempt(items: map<Id, nat>, attempts: map<Id, nat>, id: Id, attempt: nat)
    requires OwnCancel(items, attempts) && Distinct(attempts) && attempt !in attempts.Values && id !in attempts
    ensures OwnCancel(items[id := attempt], attempts[id := attempt]) && Distinct(attempts[id := attempt])
    ensures items[id := attempt].Keys == items.Keys + {id} && attempts[id := attempt].Keys == attempts.Keys + {id}
  {
  }

  /** What the store or the executor answers. */
  datatype Answer<T> = Answered(value: T) | NotAvailable | ContextEnded | Broken

  /** What happens outside the loop: a recording returns, or a user's stop is passed on. */
  datatype Outside = Returns(id: Id, completion: Completion) | UserStop(id: Id)

  datatype Wakeup = ContextDone | Notified | TimerFired | Completed

  datatype Error = InvalidRun | InvalidClock | StoreFailed | InvalidTimer | MissFailed | ClaimFailed | RecordingFailed(code: nat)

  class Scheduler {
    const maximum: nat
    const stops: StopRegistry
    const hasPower: bool
    var active: nat
    var running: set<Id>                 // recordings that have not returned
    var sending: map<Id, Completion>     // those that have, and wait for their completion to be taken
    var attempts: map<Id, nat>
    var settled: set<Id>                 // what the store will not hand out again
    var cancelled: set<nat>
    ghost var h: Trace

    constructor (maximum: nat, hasPower: bool)
      ensures Valid() && h == [] && this.maximum == maximum && fresh(stops)
    {
      this.maximum, this.hasPower := maximum, hasPower;
      stops := new StopRegistry(maximum);
      active, running, sending, attempts, settled, cancelled := 0, {}, map[], map[], {}, {};
      h := [];
    }

    /** The loop's count is the number of recordings begun and not yet collected; the registry holds exactly
        those that still run, each with its own cancel function. */
    ghost predicate Valid()
      reads this, stops
    {
      && Lawful(maximum, h) && stops.maximum == maximum
      && Counted(h) == Tally(active, running, sending.Keys) && Settled(h, attempts.Keys, settled)
      && stops.items.Keys == running && OwnCancel(stops.items, attempts) && Distinct(attempts)
    }

    /** What the loop itself knows is the same. */
    twostate predicate Undisturbed()
      reads this
    {
      && active == old(active) && Active(h) == old(Active(h)) && Modes(h) == old(Modes(h))
      && FirstFailure(h) == old(FirstFailure(h)) && settled == old(settled) && attempts == old(attempts)
      && old(cancelled) <= cancelled
    }

    // ----- What goes on outside the loop

    /** A recording returns: it takes its registration away, its context ends, it offers its completion. */
    method Return(id: Id, completion: Completion)
      requires Valid() && id in running
      modifies this, stops
      ensures Valid() && Undisturbed()
      ensures running == old(running) - {id} && sending == old(sending)[id := completion]
      ensures cancelled == old(cancelled) + {attempts[id]}
    {
      hide Lawful, Active, Begun, Registered, Expired, Modes, FirstFailure, Allowed, TooLate;
      AfterLeft(maximum, h, id, h + [Event.Left(id)]);
      stops.Unregister(id);
      cancelled := cancelled + {attempts[id]};
      running := running - {id};
      sending := sending[id := completion];
      h := h + [Event.Left(id)];
    }

    /** `NotifyStop`: the recording of that reservation, if it runs, and no other. */
    method NotifyStop(id: Id)
      requires Valid()
      modifies this`cancelled
      ensures Valid()
      ensures cancelled == old(cancelled) + if id in running then {attempts[id]} else {}
    {
      hide Lawful, Active, Begun, Registered;
      var called := stops.Notify(id);
      InOrder(maximum, h);
      ZeroNeverRuns();
      if called.Some? { cancelled := cancelled + {called.value}; }
    }

    lemma ZeroNeverRuns()
      requires Valid()
      ensures ZERO_ID !in running
    {
    }

    /** Any number of outside events, in any order. */
    method Interfere()
      requires Valid()
      modifies this, stops
      ensures Valid() && Undisturbed()
    {
      hide Lawful, Active, Begun, Registered, Modes, FirstFailure;
      var events: seq<Outside> := *;
      for i := 0 to |events|
        invariant Valid() && Undisturbed()
      {
        match events[i]
        case Returns(id, completion) => if id in running { Return(id, completion); }
        case UserStop(id) => NotifyStop(id);
      }
    }

    // ----- Collecting completions

    method Receive() returns (completion: Completion)
      requires Valid() && sending.Keys != {}
      modifies this`active, this`sending, this`h
      ensures Valid() && active == old(active) - 1 && |Active(h)| == active && settled == old(settled)
      ensures Modes(h) == WithMode(old(Modes(h)), completion)
      ensures FirstFailure(h) == if old(FirstFailure(h)).Some? then old(FirstFailure(h)) else completion.error
    {
      hide Lawful, Active, Begun, Registered, Expired, Modes, FirstFailure, Allowed, TooLate;
      var id :| id in sending.Keys;
      completion := sending[id];
      AfterConsumed(maximum, h, id, completion, h + [Consumed(id, completion)]);
      active := active - 1;
      sending := sending - {id};
      h := h + [Consumed(id, completion)];
    }

    /** Blocking on the channel: if nobody has returned yet, somebody will. */
    method Await() returns (completion: Completion)
      requires Valid() && active > 0
      modifies this, stops
      ensures Valid() && active == old(active) - 1 && old(cancelled) <= cancelled
      ensures FirstFailure(h) == if old(FirstFailure(h)).Some? then old(FirstFailure(h)) else completion.error
    {
      hide Lawful, Begun, Active, Registered, Modes, FirstFailure, Settled, OwnCancel, Distinct;
      Interfere();
      if sending.Keys == {} {
        SomebodyRuns();
        var id :| id in running;
        var c: Completion := *;
        Return(id, c);
      }
      completion := Receive();
    }

    /** `stopExecutions`: cancel everything, then collect every completion that is still due. */
    method StopExecutions(first: Option<Error>) returns (r: Option<Error>)
      requires MayStop(first)
      modifies this, stops
      ensures Finished(r) && (first.Some? ==> r == first)
      ensures old(attempts).Values <= cancelled
    {
      hide Lawful, Active, Begun, Registered, Modes, FirstFailure, Counted, Settled, OwnCancel, Distinct;
      cancelled := cancelled + attempts.Values;
      r := first;
      while active > 0
        invariant MayStop(r) && (first.Some? ==> r == first) && old(attempts).Values <= cancelled
      {
        var completion := Await();
        if r.None? && completion.error.Some? { r := Some(RecordingFailed(completion.error.value)); }
      }
      NobodyLeft();
    }

    lemma SomebodyRuns()
      requires Valid() && active > 0 && sending.Keys == {}
      ensures running != {}
    {
      hide Lawful, Active, Registered;
      assert Active(h) != {};
      assert Active(h) <= (Active(h) - Registered(h)) + Registered(h);
    }

    lemma NobodyLeft()
      requires Valid() && active == 0
      ensures Active(h) == {} && running == {} && sending == map[] && stops.items == map[]
    {
      InOrder(maximum, h);
      hide Lawful, Begun;
    }

    /** Every recording that began was collected, nothing runs, nothing is registered; an end without an error
        means that no recording failed, and the failure reported is the first. */
    ghost predicate Finished(r: Option<Error>)
      reads this, stops
    {
      MayStop(r) && Active(h) == {} && running == {} && sending == map[] && stops.items == map[]
    }

    // ----- The power decision

    /** `executePendingPostRecordingPower`, with the answers of the store and the context. */
    method EvaluatePower(candidate: Candidate, now: int) returns (outcome: PowerOutcome)
      requires Valid() && active == 0 && candidate.present && candidate.Stands(Modes(h))
      modifies this
      ensures Valid() && active == 0 && Modes(h) == {} && FirstFailure(h) == old(FirstFailure(h))
      ensures exists next :: h == old(h) + [Evaluated(now, next, outcome)]
    {
      hide Lawful, Active, Begun, Registered, Expired, Modes, FirstFailure, PowerAllowed, Decide, NextOf, Candidate.Stands;
      var answer: Answer<Option<Reservation>> := *;
      var ended: bool := *;
      outcome := Decide(candidate, now, ended, answer);
      DecidesAsAllowed(candidate, Modes(h), now, ended, answer);
      NobodyLeft();
      var e := Evaluated(now, NextOf(answer), outcome);
      AfterEvaluated(maximum, h, e, h + [e]);
      h := h + [e];
    }

    /** `executePostRecordingPower`. A wake-up time that is too near is excluded by the idle time. */
    function Decide(candidate: Candidate, now: int, ended: bool, answer: Answer<Option<Reservation>>): PowerOutcome {
      if !answer.Answered? then (if ended then Cancelled else Unavailable)
      else if ended then Cancelled
      else if candidate.conflict then Conflict
      else if !hasPower then Unavailable
      else if answer.value.None? then Ran(candidate.mode, None)
      else if answer.value.value.start - now < POST_RECORDING_MINIMUM_IDLE then TooLateForPower
      else Ran(candidate.mode, Some(answer.value.value.start - POST_RECORDING_WAKE_MARGIN))
    }

    function NextOf(answer: Answer<Option<Reservation>>): Option<Reservation> {
      if answer.Answered? then answer.value else None
    }

    lemma DecidesAsAllowed(candidate: Candidate, modes: set<Mode>, now: int, ended: bool, answer: Answer<Option<Reservation>>)
      requires candidate.Stands(modes) && candidate.present
      ensures PowerAllowed(modes, now, NextOf(answer), Decide(candidate, now, ended, answer))
      ensures modes != {}
    {
      OnlyMode(candidate, modes);
    }

    // ----- Reservations

    /** The executor settles a reservation as missed, unless the store no longer has it. */
    method Miss(r: Reservation, reason: MissReason, now: int) returns (answer: Answer<()>)
      requires Valid() && r.start <= now
      requires if reason.LateStartExpired? then TooLate(r, now) else !TooLate(r, now) && active == maximum
      modifies this
      ensures Valid() && active == old(active) && Modes(h) == old(Modes(h)) && FirstFailure(h) == old(FirstFailure(h))
      ensures answer.Answered? ==> r.id in settled
    {
      hide Lawful, Active, Begun, Registered, Expired, Modes, FirstFailure, TooLate;
      answer := *;
      if r.id in settled { answer := NotAvailable; }
      if answer.Answered? {
        AfterMissed(maximum, h, r, reason, now, h + [Missed(r, reason, now)]);
        settled := settled + {r.id};
        h := h + [Missed(r, reason, now)];
      }
    }

    /** Below the maximum, a registration for a reservation the store still hands out cannot be refused. */
    lemma RoomToRegister(id: Id)
      requires Valid() && active < maximum && id !in settled
      ensures id !in stops.items && |stops.items| < maximum && id !in attempts
    {
      InOrder(maximum, h);
      NeverTooMany(maximum, h);
      hide Lawful, Active, Begun, Registered, Expired, OwnCancel, Distinct;
      assert |stops.items| == |stops.items.Keys|;
    }

    lemma MayBegin(r: Reservation, now: int)
      requires Valid() && r.start <= now && !TooLate(r, now) && active < maximum && r.id !in settled && r.id != ZERO_ID
      ensures Allowed(maximum, h, Began(r, now))
    {
      hide Lawful, Active, Begun, Registered, Expired, OwnCancel, Distinct, TooLate;
    }

    /** The books after a beginning. */
    lemma Beginning(r: Reservation, now: int, attempt: nat, g: Trace, alive: set<Id>)
      requires Valid() && Allowed(maximum, h, Began(r, now)) && g == h + [Began(r, now)] && alive == running + {r.id}
      requires r.id !in settled && r.id != ZERO_ID && attempt !in attempts.Values && active < maximum
      ensures r.id !in stops.items && |stops.items| < maximum
      ensures Lawful(maximum, g) && SameModes(h, g) && Counted(g) == Tally(active + 1, alive, sending.Keys)
      ensures Settled(g, attempts[r.id := attempt].Keys, settled + {r.id})
      ensures OwnCancel(stops.items[r.id := attempt], attempts[r.id := attempt]) && Distinct(attempts[r.id := attempt])
      ensures stops.items[r.id := attempt].Keys == alive
    {
      hide Lawful, Active, Begun, Registered, Expired, SameModes, OwnCancel, Distinct, Allowed, Counted, Settled;
      OneBegun(maximum, h, g, r, now, Counted(h), attempts.Keys, settled);
      RoomToRegister(r.id);
      AnotherAttempt(stops.items, attempts, r.id, attempt);
    }

    method Start(r: Reservation, now: int, attempt: nat)
      requires Valid() && Allowed(maximum, h, Began(r, now))
      requires r.id !in settled && r.id != ZERO_ID && attempt !in attempts.Values && active < maximum
      modifies this, stops
      ensures Valid() && SameModes(old(h), h) && active == old(active) + 1
      ensures r.id in settled && r.id in running && stops.items[r.id] == attempt
    {
      hide Lawful, Active, Begun, Registered, Expired, SameModes, OwnCancel, Distinct, Allowed, Counted, Settled;
      ghost var g := h + [Began(r, now)];
      var alive := running + {r.id};
      Beginning(r, now, attempt, g, alive);
      var registered := stops.Register(r.id, attempt);
      assert registered;
      settled, attempts, running, active := settled + {r.id}, attempts[r.id := attempt], alive, active + 1;
      h := g;
    }

    /** Claiming, registering the stop and starting the recording: the registration is never refused. */
    method Begin(r: Reservation, now: int) returns (answer: Answer<nat>)
      requires Valid() && r.start <= now && !TooLate(r, now) && active < maximum
      modifies this, stops
      ensures Valid() && Modes(h) == old(Modes(h)) && FirstFailure(h) == old(FirstFailure(h))
      ensures active == old(active) + (if answer.Answered? then 1 else 0)
      ensures answer.Answered? ==> r.id in settled && r.id in running && stops.items[r.id] == answer.value
    {
      hide Lawful, Active, Begun, Registered, Expired, Modes, FirstFailure, TooLate, OwnCancel, Distinct, Allowed;
      answer := *;
      if r.id in settled || r.id == ZERO_ID { answer := NotAvailable; }
      if answer.Answered? && answer.value in attempts.Values { answer := Broken; }
      if answer.Answered? {
        MayBegin(r, now);
        Start(r, now, answer.value);
      }
    }

    // ----- The loop

    /** What holds at every turn: no collected recording has failed, and the candidate stands for the modes
        collected since the last evaluation. */
    ghost predicate Looping(candidate: Candidate)
      reads this, stops
    {
      Valid() && maximum >= 1 && active <= maximum && FirstFailure(h).None? && candidate.Stands(Modes(h))
    }

    method Quiet(candidate: Candidate)
      requires Looping(candidate)
      modifies this, stops
      ensures Looping(candidate) && active == old(active)
    {
      hide Lawful, Active, Begun, Registered, Modes, FirstFailure, Candidate.Stands, Counted, Settled, OwnCancel, Distinct;
      Interfere();
    }

    /** Taking a completion in the loop; a failed one ends it. */
    method Collect(candidate: Candidate) returns (next: Candidate, failed: Option<Error>)
      requires Looping(candidate) && sending.Keys != {}
      modifies this, stops
      ensures Valid() && active == old(active) - 1
      ensures failed.None? ==> Looping(next)
      ensures failed.Some? ==> failed.value.RecordingFailed? && FirstFailure(h) == Some(failed.value.code)
    {
      AddNow(candidate, Modes(h));
      hide Lawful, Active, Begun, Registered, Modes, FirstFailure, Candidate.Stands, Candidate.Add, Counted, Settled, OwnCancel, Distinct;
      next, failed := candidate, None;
      var completion := Receive();
      if completion.error.Some? {
        failed := Some(RecordingFailed(completion.error.value));
      } else {
        next := candidate.Add(completion.mode);
      }
    }

    lemma AddNow(c: Candidate, modes: set<Mode>)
      requires c.Stands(modes)
      ensures forall m: Mode :: c.Add(m).Stands(WithMode(modes, Completion(m, None)))
    {
      forall m: Mode ensures c.Add(m).Stands(WithMode(modes, Completion(m, None))) {
        AddStands(c, modes, m);
      }
    }

    /** `wait`: the context, a notification, the timer, or a completion, whichever comes. */
    method Wait(candidate: Candidate, timed: bool) returns (next: Candidate, over: bool, failed: Option<Error>)
      requires Looping(candidate)
      modifies this, stops
      ensures Valid()
      ensures failed.None? ==> Looping(next)
      ensures failed.Some? ==> failed.value.RecordingFailed? && FirstFailure(h) == Some(failed.value.code)
      ensures over ==> failed.None?
    {
      hide Lawful, Active, Begun, Registered, Modes, FirstFailure, Candidate.Stands, Counted, Settled, OwnCancel, Distinct;
      next, over, failed := candidate, false, None;
      Quiet(candidate);
      var wakeup: Wakeup := *;
      if wakeup.ContextDone? {
        over := true;
      } else if wakeup.Completed? && sending.Keys != {} {
        next, failed := Collect(candidate);
      }
    }

    /** The loop may be left with this cause. */
    ghost predicate MayStop(cause: Option<Error>)
      reads this, stops
    {
      && Valid() && (cause.None? ==> FirstFailure(h).None?)
      && (cause.Some? && cause.value.RecordingFailed? ==> FirstFailure(h) == Some(cause.value.code))
    }

    /** A reservation whose start has come is settled, as missed or as begun, unless the store no longer has
        it or the loop ends. */
    method Attend(power: Candidate, reservation: Reservation, now: int)
      returns (next: Candidate, over: bool, cause: Option<Error>, ghost refused: bool)
      requires Looping(power) && reservation.start <= now
      modifies this, stops
      ensures if over then MayStop(cause) else Looping(next) && (refused || reservation.id in settled)
    {
      hide Lawful, Active, Begun, Registered, Candidate.Stands, TooLate, Modes, FirstFailure, Counted, Settled, OwnCancel, Distinct;
      next, over, cause, refused := power, false, None, false;
      if TooLate(reservation, now) {
        var missed := Miss(reservation, LateStartExpired, now);
        if !missed.Answered? && !missed.NotAvailable? { return power, true, Some(MissFailed), false; }
        refused := missed.NotAvailable?;
        return;
      }
      Quiet(power);
      if active >= maximum {
        if sending.Keys != {} {
          next, cause := Collect(power);
          if cause.Some? { return next, true, cause, false; }
        } else {
          var missed := Miss(reservation, RecordingSlotUnavailable, now);
          if !missed.Answered? && !missed.NotAvailable? { return power, true, Some(MissFailed), false; }
          refused := missed.NotAvailable?;
          return;
        }
      }
      var begun := Begin(reservation, now);
      if !begun.Answered? && !begun.NotAvailable? { return next, true, Some(ClaimFailed), false; }
      refused := begun.NotAvailable?;
    }

    /** Nothing to start: wait for the next start, the next deadline, or something else. */
    method Idle(power: Candidate, timed: bool) returns (next: Candidate, over: bool, cause: Option<Error>)
      requires Looping(power)
      modifies this, stops
      ensures if over then MayStop(cause) else Looping(next)
    {
      hide Lawful, Active, Begun, Registered, Candidate.Stands, Modes, FirstFailure, Counted, Settled, OwnCancel, Distinct;
      var timerWorks: bool := *;
      if timed && !timerWorks { return power, true, Some(InvalidTimer); }
      next, over, cause := Wait(power, timed);
      over := over || cause.Some?;
    }

    /** One turn of the loop. */
    method Turn(power: Candidate) returns (next: Candidate, over: bool, cause: Option<Error>)
      requires Looping(power)
      modifies this, stops
      ensures if over then MayStop(cause) else Looping(next)
    {
      hide Lawful, Active, Begun, Registered, Candidate.Stands, TooLate, Modes, FirstFailure, Counted, Settled, OwnCancel, Distinct;
      Quiet(power);
      next, over, cause := power, false, None;
      if sending.Keys != {} {
        next, cause := Collect(power);
        over := cause.Some?;
        return;
      }
      var now: int := *;
      if now < 0 { return power, true, Some(InvalidClock); }
      var expired: Answer<bool> := *;
      if !expired.Answered? { return power, true, if expired.ContextEnded? then None else Some(StoreFailed); }
      if expired.value { return; }
      var deadline: Answer<Option<int>> := *;
      if !deadline.Answered? { return power, true, if deadline.ContextEnded? then None else Some(StoreFailed); }
      var found: Answer<Option<Reservation>> := *;
      if !found.Answered? { return power, true, if found.ContextEnded? then None else Some(StoreFailed); }
      Quiet(power);
      if active == 0 && power.present {
        var _ := EvaluatePower(power, now);
        NothingStands();
        return NO_CANDIDATE, false, None;
      }
      var first := NextMoment(found.value, deadline.value);
      if first.None? {
        next, over, cause := Idle(power, false);
      } else if now < first.value || !found.value.Some? {
        next, over, cause := Idle(power, true);
      } else if first.value == found.value.value.start {
        ghost var refused;
        next, over, cause, refused := Attend(power, found.value.value, now);
      }
    }

    /** The next start, unless a disabled reservation's deadline comes before it. */
    function NextMoment(found: Option<Reservation>, deadline: Option<int>): Option<int> {
      if found.None? then deadline
      else if deadline.Some? && deadline.value < found.value.start then deadline
      else Some(found.value.start)
    }

    /** `Run`, for any number of turns until the context ends. */
    method Run(turns: nat) returns (r: Option<Error>)
      requires Valid() && h == []
      modifies this, stops
      ensures Finished(r)
      ensures maximum < 1 ==> r == Some(InvalidRun)
    {
      var power := NO_CANDIDATE;
      assert power.Stands(Modes(h)) && FirstFailure(h).None? && active == 0;
      if maximum < 1 {
        NobodyLeft();
        return Some(InvalidRun);
      }
      hide Lawful, Active, Begun, Registered, Candidate.Stands, Modes, FirstFailure, Counted, Settled, OwnCancel, Distinct;
      for turn := 0 to turns
        invariant Looping(power)
      {
        var over, cause;
        power, over, cause := Turn(power);
        if over {
          r := StopExecutions(cause);
          return;
        }
      }
      r := StopExecutions(None);
    }
  }
}
