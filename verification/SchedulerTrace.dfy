/** What the recording scheduler does, as a trace of everything that happens, and what every trace obeys. */
module SchedulerTrace {
  import opened Basics

  // In nanoseconds.
  const SECOND := 1_000_000_000
  const LATE_START_LIMIT := 300 * SECOND
  const MINIMUM_RUN_TIME := 60 * SECOND
  const POST_RECORDING_MINIMUM_IDLE := 600 * SECOND
  const POST_RECORDING_WAKE_MARGIN := 300 * SECOND

  type Id = nat
  const ZERO_ID: Id := 0

  type Mode = m: nat | m <= 6

  predicate ChangesPower(m: Mode) { 2 <= m }

  /** The planned start and end have the margins in them. */
  datatype Reservation = Reservation(id: Id, start: int, end: int, created: Option<int>)

  datatype MissReason = LateStartExpired | RecordingSlotUnavailable

  datatype Completion = Completion(mode: Mode, error: Option<nat>)

  datatype PowerOutcome = Ran(mode: Mode, wake: Option<int>) | Conflict | TooLateForPower | Cancelled | Unavailable

  datatype Event =
    | Began(r: Reservation, now: int)
    | Left(id: Id)                       // a recording has taken its stop registration away
    | Consumed(id: Id, completion: Completion)
    | Missed(r: Reservation, reason: MissReason, now: int)
    | Evaluated(now: int, next: Option<Reservation>, outcome: PowerOutcome)

  type Trace = seq<Event>

  // ----- Reading a trace

  function Begun(h: Trace): set<Id> {
    if h == [] then {} else
      var (p, e) := (h[..|h| - 1], h[|h| - 1]);
      if e.Began? then Begun(p) + {e.r.id} else Begun(p)
  }

  function Gone(h: Trace): set<Id> {
    if h == [] then {} else
      var (p, e) := (h[..|h| - 1], h[|h| - 1]);
      if e.Left? then Gone(p) + {e.id} else Gone(p)
  }

  function Done(h: Trace): set<Id> {
    if h == [] then {} else
      var (p, e) := (h[..|h| - 1], h[|h| - 1]);
      if e.Consumed? then Done(p) + {e.id} else Done(p)
  }

  function Expired(h: Trace): set<Id> {
    if h == [] then {} else
      var (p, e) := (h[..|h| - 1], h[|h| - 1]);
      if e.Missed? then Expired(p) + {e.r.id} else Expired(p)
  }

  /** Begun and not yet consumed; begun and still registered. */
  function Active(h: Trace): set<Id> { Begun(h) - Done(h) }
  function Registered(h: Trace): set<Id> { Begun(h) - Gone(h) }

  /** The power modes of the recordings that ended well since the last evaluation. */
  function Modes(h: Trace): set<Mode> {
    if h == [] then {} else
      var (p, e) := (h[..|h| - 1], h[|h| - 1]);
      if e.Evaluated? then {}
      else if e.Consumed? then WithMode(Modes(p), e.completion)
      else Modes(p)
  }

  function WithMode(modes: set<Mode>, c: Completion): set<Mode> {
    if c.error.None? && ChangesPower(c.mode) then modes + {c.mode} else modes
  }

  function FirstFailure(h: Trace): Option<nat> {
    if h == [] then None else
      var (p, e) := (h[..|h| - 1], h[|h| - 1]);
      if FirstFailure(p).Some? then FirstFailure(p) else if e.Consumed? then e.completion.error else None
  }

  // ----- What may happen next

  predicate Fresh(r: Reservation, now: int) {
    r.created.Some? && r.start <= r.created.value <= now && now - r.created.value <= LATE_START_LIMIT
  }

  predicate TooLate(r: Reservation, now: int) {
    (!Fresh(r, now) && now - r.start > LATE_START_LIMIT) || r.end - now < MINIMUM_RUN_TIME
  }

  predicate PowerAllowed(modes: set<Mode>, now: int, next: Option<Reservation>, outcome: PowerOutcome) {
    match outcome
    case Ran(mode, wake) =>
      && modes == {mode}
      && (if next.None? then wake.None?
          else next.value.start - now >= POST_RECORDING_MINIMUM_IDLE && wake == Some(next.value.start - POST_RECORDING_WAKE_MARGIN))
    case Conflict => exists a, b | a in modes && b in modes :: a != b
    case TooLateForPower => next.Some? && next.value.start - now < POST_RECORDING_MINIMUM_IDLE
    case Cancelled => true
    case Unavailable => true
  }

  predicate Allowed(maximum: nat, p: Trace, e: Event) {
    match e
    case Began(r, now) =>
      && r.id != ZERO_ID && r.id !in Begun(p) + Expired(p)
      && r.start <= now && !TooLate(r, now) && |Active(p)| < maximum
    case Left(id) => id in Registered(p)
    case Consumed(id, _) => id in Active(p) - Registered(p)
    case Missed(r, reason, now) =>
      && r.id !in Begun(p) + Expired(p) && r.start <= now
      && (if reason.LateStartExpired? then TooLate(r, now) else !TooLate(r, now) && |Active(p)| == maximum)
    case Evaluated(now, next, outcome) => Active(p) == {} && Modes(p) != {} && PowerAllowed(Modes(p), now, next, outcome)
  }

  predicate Lawful(maximum: nat, h: Trace) {
    h == [] || (Lawful(maximum, h[..|h| - 1]) && Allowed(maximum, h[..|h| - 1], h[|h| - 1]))
  }

  // ----- What every lawful trace obeys

  lemma Extended(maximum: nat, h: Trace, e: Event)
    requires Lawful(maximum, h) && Allowed(maximum, h, e)
    ensures Lawful(maximum, h + [e])
    ensures Begun(h + [e]) == if e.Began? then Begun(h) + {e.r.id} else Begun(h)
    ensures Gone(h + [e]) == if e.Left? then Gone(h) + {e.id} else Gone(h)
    ensures Done(h + [e]) == if e.Consumed? then Done(h) + {e.id} else Done(h)
    ensures Expired(h + [e]) == if e.Missed? then Expired(h) + {e.r.id} else Expired(h)
    ensures e.Evaluated? ==> Modes(h + [e]) == {}
    ensures e.Consumed? ==> Modes(h + [e]) == WithMode(Modes(h), e.completion)
    ensures !e.Evaluated? && !e.Consumed? ==> Modes(h + [e]) == Modes(h)
    ensures FirstFailure(h + [e]) ==
      if FirstFailure(h).Some? then FirstFailure(h) else if e.Consumed? then e.completion.error else None
  {
    hide Allowed;
    assert (h + [e])[..|h|] == h;
  }

  /** A recording is registered, then gone, then consumed. */
  lemma {:induction false} InOrder(maximum: nat, h: Trace)
    requires Lawful(maximum, h)
    ensures Done(h) <= Gone(h) <= Begun(h)
    ensures Registered(h) <= Active(h) <= Begun(h) && Begun(h) !! Expired(h)
  {
    if h != [] { InOrder(maximum, h[..|h| - 1]); }
  }

  lemma Smaller(s: set<Id>, t: set<Id>)
    requires s <= t
    ensures |s| <= |t|
  {
    assert t == s + (t - s);
    assert |t| == |s| + |t - s|;
  }

  lemma ActiveStep(maximum: nat, p: Trace, e: Event, h: Trace)
    requires h != [] && p == h[..|h| - 1] && e == h[|h| - 1] && Lawful(maximum, p) && Allowed(maximum, p, e)
    ensures if e.Began? then |Active(p)| < maximum && Active(h) == Active(p) + {e.r.id} else Active(h) <= Active(p)
  {
    InOrder(maximum, p);
    hide Lawful;
  }

  /** Registered recordings are active ones, and these are never more than the maximum: a registration is
      never refused for want of room. */
  lemma {:induction false} NeverTooMany(maximum: nat, h: Trace)
    requires Lawful(maximum, h)
    ensures |Registered(h)| <= |Active(h)| <= maximum
  {
    InOrder(maximum, h);
    Smaller(Registered(h), Active(h));
    if h != [] {
      var (p, e) := (h[..|h| - 1], h[|h| - 1]);
      NeverTooMany(maximum, p);
      ActiveStep(maximum, p, e, h);
      hide Active, Registered, Lawful, Allowed;
      if !e.Began? { Smaller(Active(h), Active(p)); }
    }
  }

  lemma {:induction false} EveryMoment(maximum: nat, h: Trace, i: nat)
    requires Lawful(maximum, h) && i < |h|
    ensures Lawful(maximum, h[..i]) && Allowed(maximum, h[..i], h[i])
  {
    if i < |h| - 1 {
      var p := h[..|h| - 1];
      EveryMoment(maximum, p, i);
      assert p[..i] == h[..i] && p[i] == h[i];
    }
  }

  lemma {:induction false} StaysDone(h: Trace, i: nat, j: nat)
    requires i <= j <= |h|
    ensures Done(h[..i]) <= Done(h[..j]) && Begun(h[..i]) <= Begun(h[..j]) && Expired(h[..i]) <= Expired(h[..j])
    decreases j - i
  {
    if i < j {
      StaysDone(h, i, j - 1);
      assert h[..j][..j - 1] == h[..j - 1];
    }
  }

  lemma Recorded(h: Trace, i: nat, j: nat)
    requires i < j <= |h|
    ensures h[i].Consumed? ==> h[i].id in Done(h[..j])
    ensures h[i].Began? ==> h[i].r.id in Begun(h[..j])
    ensures h[i].Missed? ==> h[i].r.id in Expired(h[..j])
  {
    StaysDone(h, i + 1, j);
    var p := h[..i + 1];
    assert p[..|p| - 1] == h[..i] && p[|p| - 1] == h[i];
  }

  /** No completion is consumed twice. */
  lemma ConsumedOnce(maximum: nat, h: Trace, i: nat, j: nat)
    requires Lawful(maximum, h) && i < j < |h| && h[i].Consumed? && h[j].Consumed?
    ensures h[i].id != h[j].id
  {
    EveryMoment(maximum, h, j);
    Recorded(h, i, j);
    hide Lawful, Done, Begun, Expired, Registered;
  }

  /** A reservation is begun or missed at most once, never both. */
  lemma SettledOnce(maximum: nat, h: Trace, i: nat, j: nat)
    requires Lawful(maximum, h) && i < j < |h|
    requires (h[i].Began? || h[i].Missed?) && (h[j].Began? || h[j].Missed?)
    ensures h[i].r.id != h[j].r.id
  {
    EveryMoment(maximum, h, j);
    Recorded(h, i, j);
    hide Lawful, Done, Begun, Expired, Active, TooLate;
  }

  /** The mode a power action runs with is the only one that recordings asked for since the last
      evaluation, nothing is being recorded, and nothing starts within ten minutes; the machine wakes five
      minutes before the next start and sleeps for at least five. */
  lemma PowerOnlyWhenIdle(maximum: nat, h: Trace, i: nat)
    requires Lawful(maximum, h) && i < |h| && h[i].Evaluated? && h[i].outcome.Ran?
    ensures Active(h[..i]) == {} && Registered(h[..i]) == {} && Modes(h[..i]) == {h[i].outcome.mode}
    ensures ChangesPower(h[i].outcome.mode)
    ensures h[i].next.Some? ==>
      && h[i].next.value.start >= h[i].now + POST_RECORDING_MINIMUM_IDLE
      && h[i].outcome.wake.Some? && h[i].now + POST_RECORDING_WAKE_MARGIN <= h[i].outcome.wake.value < h[i].next.value.start
  {
    EveryMoment(maximum, h, i);
    InOrder(maximum, h[..i]);
    OnlyPowerModes(h[..i]);
  }

  lemma {:induction false} OnlyPowerModes(h: Trace)
    ensures forall m | m in Modes(h) :: ChangesPower(m)
  {
    if h != [] { OnlyPowerModes(h[..|h| - 1]); }
  }

  /** Every mode counted was reported by a recording that ended well after the last evaluation. */
  lemma {:induction false} ModesWereReported(h: Trace, mode: Mode) returns (i: nat)
    requires mode in Modes(h)
    ensures i < |h| && h[i].Consumed? && h[i].completion == Completion(mode, None)
    ensures forall j | i <= j < |h| :: !h[j].Evaluated?
  {
    var (p, e) := (h[..|h| - 1], h[|h| - 1]);
    if e.Consumed? && e.completion == Completion(mode, None) {
      i := |h| - 1;
    } else {
      i := ModesWereReported(p, mode);
      assert forall j | i <= j < |p| :: h[j] == p[j];
    }
  }

  // ----- One more event

  ghost predicate SameModes(h: Trace, g: Trace) { Modes(g) == Modes(h) && FirstFailure(g) == FirstFailure(h) }

  lemma OneMore(s: set<Id>, id: Id, t: set<Id>)
    requires id !in s && t == s + {id}
    ensures |t| == |s| + 1 && s == t - {id}
  {
  }

  lemma AfterLeft(maximum: nat, h: Trace, id: Id, g: Trace)
    requires Lawful(maximum, h) && id in Registered(h) && g == h + [Event.Left(id)]
    ensures Lawful(maximum, g) && SameModes(h, g) && Begun(g) == Begun(h) && Expired(g) == Expired(h)
    ensures id in Active(h) && Active(g) == Active(h) && Registered(g) == Registered(h) - {id}
  {
    InOrder(maximum, h);
    hide Lawful, Begun, Gone, Done, Expired, Modes, FirstFailure;
    Extended(maximum, h, Event.Left(id));
  }

  lemma AfterConsumed(maximum: nat, h: Trace, id: Id, c: Completion, g: Trace)
    requires Lawful(maximum, h) && id in Active(h) - Registered(h) && g == h + [Consumed(id, c)]
    ensures Lawful(maximum, g) && Begun(g) == Begun(h) && Expired(g) == Expired(h)
    ensures Active(g) == Active(h) - {id} && |Active(g)| == |Active(h)| - 1 && Registered(g) == Registered(h)
    ensures Modes(g) == WithMode(Modes(h), c)
    ensures FirstFailure(g) == if FirstFailure(h).Some? then FirstFailure(h) else c.error
  {
    ghost var e := Consumed(id, c);
    assert Allowed(maximum, h, e);
    hide Lawful, Begun, Gone, Done, Expired, Modes, FirstFailure, Allowed, ChangesPower;
    Extended(maximum, h, e);
    assert Active(g) == Active(h) - {id};
    OneMore(Active(g), id, Active(h));
  }

  lemma AfterMissed(maximum: nat, h: Trace, r: Reservation, reason: MissReason, now: int, g: Trace)
    requires Lawful(maximum, h) && Allowed(maximum, h, Missed(r, reason, now)) && g == h + [Missed(r, reason, now)]
    ensures Lawful(maximum, g) && SameModes(h, g) && Begun(g) == Begun(h) && Expired(g) == Expired(h) + {r.id}
    ensures Active(g) == Active(h) && Registered(g) == Registered(h)
  {
    Extended(maximum, h, Missed(r, reason, now));
    hide Lawful, Begun, Gone, Done, Expired, Modes, FirstFailure, Allowed;
  }

  lemma AfterEvaluated(maximum: nat, h: Trace, e: Event, g: Trace)
    requires Lawful(maximum, h) && e.Evaluated? && Allowed(maximum, h, e) && g == h + [e]
    ensures Lawful(maximum, g) && Modes(g) == {} && FirstFailure(g) == FirstFailure(h)
    ensures Begun(g) == Begun(h) && Expired(g) == Expired(h) && Active(g) == Active(h) && Registered(g) == Registered(h)
  {
    Extended(maximum, h, e);
    hide Lawful, Begun, Gone, Done, Expired, Modes, FirstFailure, Allowed;
  }

  lemma AfterBegan(maximum: nat, h: Trace, r: Reservation, now: int, g: Trace)
    requires Lawful(maximum, h) && Allowed(maximum, h, Began(r, now)) && g == h + [Began(r, now)]
    ensures Lawful(maximum, g) && SameModes(h, g) && Begun(g) == Begun(h) + {r.id} && Expired(g) == Expired(h)
    ensures r.id !in Active(h) && Active(g) == Active(h) + {r.id} && |Active(g)| == |Active(h)| + 1
    ensures Registered(g) == Registered(h) + {r.id} && Active(g) - Registered(g) == Active(h) - Registered(h)
  {
    InOrder(maximum, h);
    var e := Began(r, now);
    hide Lawful, Begun, Gone, Done, Expired, Modes, FirstFailure, TooLate;
    assert r.id !in Begun(h);
    hide Allowed;
    Extended(maximum, h, e);
    assert Active(g) == Active(h) + {r.id};
    OneMore(Active(h), r.id, Active(g));
  }
}
