/** A candidate for the next segment boundary: what has been seen since a programme association table began. */
module HlsCandidate {
  import opened Basics
  import opened HlsSegments
  import opened HlsValidation
  import opened Mpegts
  import opened ProgramTables

  /** The clocks of one PID since the candidate began: first, last, and whether they ever failed to advance. */
  datatype Observed = Observed(pid: nat, clock: Clock, last: Clock, invalid: bool)

  datatype Candidate = Candidate(
    start: nat, pat: Option<Pat>, pmt: Option<Pmt>, videoPid: nat, videoKind: nat, clocks: seq<Observed>,
    clock: Clock, lastClock: Clock, clockKnown: bool, randomAccess: bool, pesStart: bool, discontinuity: bool)

  function NewCandidate(start: nat): Candidate {
    Candidate(start, None, None, 0, 0, [], 0, 0, false, false, false, false)
  }

  // ----- What the observations say about the packets

  ghost predicate ObservedHolds(o: Observed, window: Bytes) {
    var clocks := Clocks(window, o.pid);
    |clocks| > 0 && clocks[0] == o.clock && clocks[|clocks| - 1] == o.last && (o.invalid <==> !Steady(clocks))
  }

  predicate PidsDiffer(clocks: seq<Observed>) { forall i, j | 0 <= i < j < |clocks| :: clocks[i].pid != clocks[j].pid }

  predicate Lists(clocks: seq<Observed>, pid: nat) { exists i :: 0 <= i < |clocks| && clocks[i].pid == pid }

  /** Every PID that carried a clock is listed once, with what it carried. */
  ghost predicate Observes(clocks: seq<Observed>, window: Bytes) {
    && PidsDiffer(clocks) && (forall i | 0 <= i < |clocks| :: ObservedHolds(clocks[i], window))
    && (forall pid | Clocks(window, pid) != [] :: Lists(clocks, pid))
  }

  /** The candidate's own clock is the first of its clock PID, and that PID has advanced steadily since. */
  ghost predicate ClockHolds(c: Candidate, window: Bytes) {
    && (c.pmt.Some? ==> c.pmt.value.pcrPid != 0)
    && (c.clockKnown ==>
          c.pmt.Some? && ObservedHolds(Observed(c.pmt.value.pcrPid, c.clock, c.lastClock, false), window))
  }

  ghost predicate CandidateHolds(c: Candidate, data: Bytes) {
    && c.start % PACKET_BYTES == 0 && c.start + PACKET_BYTES <= |data| && StartsTable(PacketAt(data, c.start))
    && (c.discontinuity <==> Discontinuous(PacketAt(data, c.start))) && Quiet(data, c.start + PACKET_BYTES, |data|)
    && Observes(c.clocks, data[c.start..]) && ClockHolds(c, data[c.start..])
  }

  // ----- One more clock

  lemma SteadyGrows(clocks: seq<Clock>, c: Clock)
    requires |clocks| > 0
    ensures Steady(clocks + [c]) <==> Steady(clocks) && Advances(clocks[|clocks| - 1], c)
  {
    hide Advances;
    var all := clocks + [c];
    if Steady(all) {
      forall i | 0 < i < |clocks| ensures Advances(clocks[i - 1], clocks[i]) {
        assert Advances(all[i - 1], all[i]);
      }
      assert Advances(all[|clocks| - 1], all[|clocks|]);
    }
  }

  function Later(o: Observed, clock: Clock): Observed {
    o.(last := clock, invalid := o.invalid || !Advances(o.last, clock))
  }

  lemma LaterHolds(o: Observed, window: Bytes, packet: Bytes, clock: Clock)
    requires ObservedHolds(o, window) && |packet| == PACKET_BYTES && ClockOf(packet, o.pid) == Some(clock)
    ensures ObservedHolds(Later(o, clock), window + packet)
  {
    hide Steady, Advances, ClockOf;
    ClocksOfOneMore(window, packet, o.pid);
    SteadyGrows(Clocks(window, o.pid), clock);
  }

  lemma OthersHold(o: Observed, window: Bytes, packet: Bytes)
    requires ObservedHolds(o, window) && |packet| == PACKET_BYTES && ClockOf(packet, o.pid).None?
    ensures ObservedHolds(o, window + packet)
  {
    hide Steady, ClockOf;
    ClocksOfOneMore(window, packet, o.pid);
  }

  lemma OneClockPid(packet: Bytes, pid: nat, other: nat)
    requires ClockOf(packet, pid).Some? && other != pid
    ensures ClockOf(packet, other).None?
  {
  }

  lemma NewHolds(window: Bytes, packet: Bytes, pid: nat, clock: Clock)
    requires |packet| == PACKET_BYTES && ClockOf(packet, pid) == Some(clock) && Clocks(window, pid) == []
    ensures ObservedHolds(Observed(pid, clock, clock, false), window + packet)
  {
    hide ClockOf;
    ClocksOfOneMore(window, packet, pid);
  }

  /** A packet without a clock, or with one of a PID that is listed at `at`, or not listed. */
  lemma NoneObserved(clocks: seq<Observed>, window: Bytes, packet: Bytes)
    requires Observes(clocks, window) && |packet| == PACKET_BYTES && forall pid :: ClockOf(packet, pid).None?
    ensures Observes(clocks, window + packet)
  {
    hide ObservedHolds, Clocks, ClockOf;
    forall i | 0 <= i < |clocks| ensures ObservedHolds(clocks[i], window + packet) {
      OthersHold(clocks[i], window, packet);
    }
    forall pid | Clocks(window + packet, pid) != [] ensures Lists(clocks, pid) {
      ClocksOfOneMore(window, packet, pid);
    }
  }

  lemma OneObserved(clocks: seq<Observed>, window: Bytes, packet: Bytes, at: nat, clock: Clock)
    requires Observes(clocks, window) && |packet| == PACKET_BYTES && at < |clocks|
    requires ClockOf(packet, clocks[at].pid) == Some(clock)
    ensures Observes(clocks[at := Later(clocks[at], clock)], window + packet)
  {
    hide ObservedHolds, Clocks, ClockOf;
    var next := clocks[at := Later(clocks[at], clock)];
    forall i | 0 <= i < |next| ensures ObservedHolds(next[i], window + packet) {
      if i == at {
        LaterHolds(clocks[at], window, packet, clock);
      } else {
        OneClockPid(packet, clocks[at].pid, clocks[i].pid);
        OthersHold(clocks[i], window, packet);
      }
    }
    forall pid | Clocks(window + packet, pid) != [] ensures Lists(next, pid) {
      ListedStill(clocks, at, clock, pid);
      ClocksOfOneMore(window, packet, pid);
      if pid != clocks[at].pid { OneClockPid(packet, clocks[at].pid, pid); }
    }
  }

  lemma ListedStill(clocks: seq<Observed>, at: nat, clock: Clock, pid: nat)
    requires at < |clocks|
    ensures Lists(clocks, pid) || pid == clocks[at].pid ==> Lists(clocks[at := Later(clocks[at], clock)], pid)
  {
    var next := clocks[at := Later(clocks[at], clock)];
    assert next[at].pid == clocks[at].pid;
    if Lists(clocks, pid) {
      var i :| 0 <= i < |clocks| && clocks[i].pid == pid;
      assert next[i].pid == pid;
    }
  }

  lemma NewObserved(clocks: seq<Observed>, window: Bytes, packet: Bytes, pid: nat, clock: Clock)
    requires Observes(clocks, window) && |packet| == PACKET_BYTES && !Lists(clocks, pid)
    requires ClockOf(packet, pid) == Some(clock)
    ensures Observes(clocks + [Observed(pid, clock, clock, false)], window + packet)
  {
    hide ObservedHolds, Clocks, ClockOf;
    var next := clocks + [Observed(pid, clock, clock, false)];
    assert Clocks(window, pid) == [];
    forall i | 0 <= i < |next| ensures ObservedHolds(next[i], window + packet) {
      if i == |clocks| {
        NewHolds(window, packet, pid, clock);
      } else {
        OneClockPid(packet, pid, clocks[i].pid);
        OthersHold(clocks[i], window, packet);
      }
    }
    assert next[|clocks|].pid == pid;
    forall other | Clocks(window + packet, other) != [] ensures Lists(next, other) {
      if other != pid {
        OneClockPid(packet, pid, other);
        ClocksOfOneMore(window, packet, other);
        var i :| 0 <= i < |clocks| && clocks[i].pid == other;
        assert next[i].pid == other;
      }
    }
  }

  lemma Observation(clocks: seq<Observed>, window: Bytes, at: nat)
    requires Observes(clocks, window) && at < |clocks|
    ensures ObservedHolds(clocks[at], window)
  {
  }

  // ----- The operations on values

  /** The entry of a PID, looked for from an index on. */
  function ClockAt(clocks: seq<Observed>, pid: nat, from: nat): (at: Option<nat>)
    ensures at.Some? ==> at.value < |clocks| && clocks[at.value].pid == pid
    decreases |clocks| - from
  {
    if from >= |clocks| then None
    else if clocks[from].pid == pid then Some(from)
    else ClockAt(clocks, pid, from + 1)
  }

  /** The clock PID of the candidate's programme. */
  predicate Own(c: Candidate, pid: nat) { c.pmt.Some? && c.pmt.value.pcrPid == pid }

  function ClockSelected(c: Candidate): Checked<Candidate> {
    if c.pmt.None? || c.clockKnown then Good(c)
    else match ClockAt(c.clocks, c.pmt.value.pcrPid, 0)
      case None => Good(c)
      case Some(at) =>
        var o := c.clocks[at];
        if o.invalid then Bad(TimestampInvalid) else Good(c.(clock := o.clock, lastClock := o.last, clockKnown := true))
  }

  function ClockObserved(c: Candidate, pid: nat, clock: Clock): Checked<Candidate> {
    match ClockAt(c.clocks, pid, 0)
    case Some(at) =>
      var o := c.clocks[at];
      var next := c.(clocks := c.clocks[at := Later(o, clock)]);
      if !Advances(o.last, clock) && Own(c, pid) then Bad(TimestampInvalid)
      else Good(if c.clockKnown && Own(c, pid) then next.(lastClock := clock) else next)
    case None =>
      if |c.clocks| >= MAX_ELEMENTARY_STREAMS then Bad(TimestampInvalid)
      else ClockSelected(c.(clocks := c.clocks + [Observed(pid, clock, clock, false)]))
  }

  // ----- The operations

  /** The entry of a PID. */
  method FindClock(clocks: seq<Observed>, pid: nat) returns (at: Option<nat>)
    ensures at == ClockAt(clocks, pid, 0) && (at.None? <==> !Lists(clocks, pid))
  {
    var i := 0;
    while i < |clocks|
      invariant 0 <= i <= |clocks| && forall j | 0 <= j < i :: clocks[j].pid != pid
      invariant ClockAt(clocks, pid, 0) == ClockAt(clocks, pid, i)
    {
      if clocks[i].pid == pid { return Some(i); }
      i := i + 1;
    }
    at := None;
  }

  /** `selectClock`: once the programme table is known, its clock is the one observed first. */
  method SelectClock(c: Candidate, ghost window: Bytes) returns (r: Checked<Candidate>)
    requires Observes(c.clocks, window) && ClockHolds(c, window)
    ensures r == ClockSelected(c) && (r.Good? ==> ClockHolds(r.value, window))
    ensures r.Bad? <==> c.pmt.Some? && !c.clockKnown && !Steady(Clocks(window, c.pmt.value.pcrPid))
    ensures r.Good? ==> r.value == c.(clock := r.value.clock, lastClock := r.value.lastClock, clockKnown := r.value.clockKnown)
    ensures r.Good? && c.pmt.Some? ==> (r.value.clockKnown <==> c.clockKnown || Lists(c.clocks, c.pmt.value.pcrPid))
  {
    hide Clocks, Steady;
    if c.pmt.None? || c.clockKnown { return Good(c); }
    var at := FindClock(c.clocks, c.pmt.value.pcrPid);
    if at.None? {
      assert Clocks(window, c.pmt.value.pcrPid) == [];
      NothingIsSteady();
      return Good(c);
    }
    var o := c.clocks[at.value];
    assert ObservedHolds(o, window);
    if o.invalid { return Bad(TimestampInvalid); }
    r := Good(c.(clock := o.clock, lastClock := o.last, clockKnown := true));
  }

  lemma NothingIsSteady()
    ensures Steady([])
  {
  }

  /** `observeClock`, for the clock that the last packet of the window carries. It is refused if it does not
      advance the programme's own clock, or the clock list is full. */
  method ObserveClock(c: Candidate, pid: nat, clock: Clock, ghost window: Bytes, ghost packet: Bytes)
    returns (r: Checked<Candidate>)
    requires Observes(c.clocks, window) && ClockHolds(c, window) && |packet| == PACKET_BYTES
    requires ClockOf(packet, pid) == Some(clock)
    ensures r.Good? ==> Observes(r.value.clocks, window + packet) && ClockHolds(r.value, window + packet)
    ensures r == ClockObserved(c, pid, clock) && (r.Good? ==> SameTables(c, r.value))
    ensures var before := Clocks(window, pid);
      r.Bad? <==> if before != [] then Own(c, pid) && !Advances(before[|before| - 1], clock)
      else |c.clocks| >= MAX_ELEMENTARY_STREAMS ||
           (c.pmt.Some? && !c.clockKnown && !Steady(Clocks(window + packet, c.pmt.value.pcrPid)))
  {
    hide Clocks, ClockOf, Steady, Observes, ObservedHolds;
    var at := FindClock(c.clocks, pid);
    ListedIsSeen(c.clocks, window, pid);
    if at.Some? {
      var o := c.clocks[at.value];
      Observation(c.clocks, window, at.value);
      LastSeen(o, window);
      OneObserved(c.clocks, window, packet, at.value, clock);
      var next := c.(clocks := c.clocks[at.value := Later(o, clock)]);
      if !Advances(o.last, clock) && c.pmt.Some? && c.pmt.value.pcrPid == pid { return Bad(TimestampInvalid); }
      if c.clockKnown && c.pmt.value.pcrPid == pid { next := next.(lastClock := clock); }
      OwnClockMoves(c, next, o, window, packet, pid, clock);
      return Good(next);
    }
    if |c.clocks| >= MAX_ELEMENTARY_STREAMS { return Bad(TimestampInvalid); }
    NewObserved(c.clocks, window, packet, pid, clock);
    ClockUntouched(c, window, packet, pid);
    var next := c.(clocks := c.clocks + [Observed(pid, clock, clock, false)]);
    r := SelectClock(next, window + packet);
  }

  /** A PID is listed exactly if it carried a clock. */
  lemma ListedIsSeen(clocks: seq<Observed>, window: Bytes, pid: nat)
    requires Observes(clocks, window)
    ensures Lists(clocks, pid) <==> Clocks(window, pid) != []
  {
    hide Clocks, Steady;
    if Lists(clocks, pid) {
      var i :| 0 <= i < |clocks| && clocks[i].pid == pid;
      assert ObservedHolds(clocks[i], window);
    }
  }

  lemma LastSeen(o: Observed, window: Bytes)
    requires ObservedHolds(o, window)
    ensures var before := Clocks(window, o.pid); before != [] && before[|before| - 1] == o.last
  {
    hide Clocks, Steady;
  }

  /** An operation on clocks leaves everything else. */
  predicate SameTables(c: Candidate, d: Candidate) {
    && d.start == c.start && d.pat == c.pat && d.pmt == c.pmt && d.videoPid == c.videoPid && d.videoKind == c.videoKind
    && d.randomAccess == c.randomAccess && d.pesStart == c.pesStart && d.discontinuity == c.discontinuity
  }

  lemma OwnClockMoves(c: Candidate, next: Candidate, o: Observed, window: Bytes, packet: Bytes, pid: nat, clock: Clock)
    requires ClockHolds(c, window) && ObservedHolds(o, window) && o.pid == pid && |packet| == PACKET_BYTES
    requires ClockOf(packet, pid) == Some(clock)
    requires c.clockKnown && c.pmt.value.pcrPid == pid ==> Advances(o.last, clock)
    requires next.pmt == c.pmt && next.clock == c.clock && next.clockKnown == c.clockKnown
    requires next.lastClock == if c.clockKnown && c.pmt.value.pcrPid == pid then clock else c.lastClock
    ensures ClockHolds(next, window + packet)
  {
    if c.clockKnown {
      var own := Observed(c.pmt.value.pcrPid, c.clock, c.lastClock, false);
      if own.pid == pid {
        assert own.last == o.last;
        hide ObservedHolds, ClockOf;
        LaterHolds(own, window, packet, clock);
      } else {
        hide ObservedHolds, Advances;
        OneClockPid(packet, pid, own.pid);
        OthersHold(own, window, packet);
      }
    }
  }

  /** A PID that is not listed is not the candidate's own. */
  lemma ClockUntouched(c: Candidate, window: Bytes, packet: Bytes, pid: nat)
    requires Observes(c.clocks, window) && ClockHolds(c, window) && |packet| == PACKET_BYTES
    requires ClockOf(packet, pid).Some? && !Lists(c.clocks, pid)
    ensures ClockHolds(c, window + packet)
  {
    if c.clockKnown {
      var own := Observed(c.pmt.value.pcrPid, c.clock, c.lastClock, false);
      assert Clocks(window, own.pid) != [];
      hide ObservedHolds, Clocks;
      OneClockPid(packet, pid, own.pid);
      OthersHold(own, window, packet);
    }
  }

  lemma ClockStands(c: Candidate, window: Bytes, packet: Bytes)
    requires ClockHolds(c, window) && |packet| == PACKET_BYTES && forall pid :: ClockOf(packet, pid).None?
    ensures ClockHolds(c, window + packet)
  {
    hide ObservedHolds, ClockOf;
    if c.clockKnown { OthersHold(Observed(c.pmt.value.pcrPid, c.clock, c.lastClock, false), window, packet); }
  }
}
