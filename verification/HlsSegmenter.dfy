/** Cutting a live stream into segments at programme tables, one to two seconds apart. */
module HlsSegmenter {
  import opened Basics
  import opened HlsCandidate
  import opened HlsSegments
  import opened HlsStep
  import opened HlsValidation
  import opened Mpegts
  import opened ProgramTables
  import PsiCollector

  // ----- What holds between packets

  /** The clock of the open segment has advanced steadily, and the last one is remembered. */
  ghost predicate ActiveClock(b: Boundary, data: Bytes, last: LastClock) {
    var clocks := Clocks(data, b.pcrPid);
    b.pcrPid != 0 && |clocks| > 0 && Steady(clocks) && last == Some((clocks[|clocks| - 1], b.pcrPid))
  }

  function Until(candidate: Option<Candidate>, data: Bytes): nat {
    if candidate.Some? then candidate.value.start else |data|
  }

  ghost predicate ActiveHolds(h: History, data: Bytes, active: Option<Boundary>, candidate: Option<Candidate>, last: LastClock) {
    && (active.None? <==> h.marks == [])
    && (active.Some? ==>
          && active.value == h.marks[|h.marks| - 1].boundary && ActiveClock(active.value, data, last)
          && Quiet(data, PACKET_BYTES, Until(candidate, data)) && Until(candidate, data) >= PACKET_BYTES)
  }

  ghost predicate Whole(h: History, data: Bytes) {
    Faithful(h) && HeldIs(h, data) && |data| % PACKET_BYTES == 0 && |data| <= MAXIMUM_SEGMENT
  }

  ghost predicate HeldIs(h: History, data: Bytes) {
    (h.marks != [] ==> h.marks[|h.marks| - 1].offset <= |h.input|) && data == Held(h)
  }

  ghost predicate Standing(h: History, data: Bytes, active: Option<Boundary>, candidate: Option<Candidate>, last: LastClock) {
    && Whole(h, data) && ActiveHolds(h, data, active, candidate, last)
    && (candidate.Some? ==> CandidateHolds(candidate.value, data))
  }

  ghost predicate AllValidated(segments: seq<Segment>) { forall s | s in segments :: Validated(s.data) }

  // ----- Taking one packet

  lemma PacketTaken(h: History, data: Bytes, packet: Bytes)
    requires Whole(h, data) && |packet| == PACKET_BYTES
    ensures var g := h.(input := h.input + packet);
      Faithful(g) && HeldIs(g, data + packet) && |data + packet| % PACKET_BYTES == 0
  {
    hide Faithful;
    HeldInside(h);
    HistoryStays(h, packet);
  }

  lemma HeldInside(h: History)
    requires Faithful(h)
    ensures h.marks != [] ==> h.marks[|h.marks| - 1].offset <= |h.input|
  {
    hide Clocks, StartsTable;
    if h.marks != [] { MarkInside(h.input, h.marks[|h.marks| - 1]); }
  }

  /** While a discontinuity may only be announced where a table starts, the clock PID never jumps unseen. */
  lemma ClockTracked(b: Boundary, data: Bytes, last: LastClock, packet: Bytes, p: Packet)
    requires ActiveClock(b, data, last) && |packet| == PACKET_BYTES && ParsePacket(packet) == Result.Ok(p)
    requires p.discontinuity ==> p.pid == 0
    requires Track(Some(b), last, packet, p).Good?
    ensures ActiveClock(b, data + packet, Track(Some(b), last, packet, p).value)
  {
    ClocksOfOneMore(data, packet, b.pcrPid);
    if p.pid != b.pcrPid { assert ClockOf(packet, b.pcrPid).None?; }
    hide Clocks, Advances, ParsePacket, Steady;
    if ClockOf(packet, b.pcrPid).Some? {
      SteadyGrows(Clocks(data, b.pcrPid), ClockOf(packet, b.pcrPid).value);
    }
  }

  lemma QuietStays(data: Bytes, from: nat, to: nat, packet: Bytes)
    requires |packet| == PACKET_BYTES && to <= |data| && Quiet(data, from, to)
    ensures Quiet(data + packet, from, to)
  {
    hide Discontinuous;
    var all := data + packet;
    forall o | from <= o && o + PACKET_BYTES <= to && o + PACKET_BYTES <= |all| && o % PACKET_BYTES == 0
      ensures !Discontinuous(PacketAt(all, o))
    {
      assert PacketAt(all, o) == PacketAt(data, o);
    }
  }

  lemma QuietExtends(data: Bytes, from: nat, packet: Bytes)
    requires |packet| == PACKET_BYTES && |data| % PACKET_BYTES == 0 && Quiet(data, from, |data|) && !Discontinuous(packet)
    ensures Quiet(data + packet, from, |data + packet|)
  {
    hide Discontinuous;
    var all := data + packet;
    forall o | from <= o && o + PACKET_BYTES <= |all| && o % PACKET_BYTES == 0 ensures !Discontinuous(PacketAt(all, o)) {
      if o < |data| {
        assert o + PACKET_BYTES <= |data|;
        assert PacketAt(all, o) == PacketAt(data, o);
      } else {
        assert PacketAt(all, o) == packet;
      }
    }
  }

  /** Across a packet that announces nothing. */
  lemma QuietJoins(data: Bytes, from: nat, middle: nat, to: nat)
    requires middle % PACKET_BYTES == 0 && middle + PACKET_BYTES <= |data|
    requires Quiet(data, from, middle) && !Discontinuous(PacketAt(data, middle)) && Quiet(data, middle + PACKET_BYTES, to)
    ensures Quiet(data, from, to)
  {
    hide Discontinuous;
    forall o | from <= o && o + PACKET_BYTES <= to && o + PACKET_BYTES <= |data| && o % PACKET_BYTES == 0
      ensures !Discontinuous(PacketAt(data, o))
    {
      assert o + PACKET_BYTES <= middle || o == middle || o >= middle + PACKET_BYTES;
    }
  }

  /** What a candidate is after the packet: its window is one packet longer. */
  method TakeCandidate(c: Candidate, packet: Bytes, p: Packet, ghost front: Bytes) returns (r: Checked<Candidate>)
    requires |packet| == PACKET_BYTES && ParsePacket(packet) == Result.Ok(p) && |front| % PACKET_BYTES == 0
    requires if c == NewCandidate(|front|) then StartsTable(packet) else CandidateHolds(c, front) && !p.discontinuity
    ensures r == CandidateAfter(c, packet, p)
    ensures r.Good? ==> CandidateHolds(r.value, front + packet) && SameTables(c.(discontinuity := r.value.discontinuity), r.value)
  {
    hide Clocks, ParsePacket, Observes, ClockHolds, Quiet, StartsTable, ClockOf;
    ghost var window := front[c.start..];
    WindowBefore(c, front);
    WindowAfter(c, front, packet);
    var next := if p.discontinuity then c.(discontinuity := true) else c;
    if p.clock.Some? {
      ClockOfPacket(packet, p);
      r := ObserveClock(next, p.pid, ClockOf(packet, p.pid).value, window, packet);
    } else {
      NoClocks(packet, p);
      NoneObserved(c.clocks, window, packet);
      ClockStands(next, window, packet);
      r := Good(next);
    }
    if r.Good? { StartAndQuiet(c, front, packet, p); }
  }

  lemma ClockOfPacket(packet: Bytes, p: Packet)
    requires ParsePacket(packet) == Result.Ok(p) && p.clock.Some?
    ensures ClockOf(packet, p.pid).Some? && ClockOf(packet, p.pid).value == p.clock.value
  {
  }

  lemma NoClocks(packet: Bytes, p: Packet)
    requires ParsePacket(packet) == Result.Ok(p) && p.clock.None?
    ensures forall pid :: ClockOf(packet, pid).None?
  {
  }

  lemma WindowBefore(c: Candidate, front: Bytes)
    requires c == NewCandidate(|front|) || CandidateHolds(c, front)
    ensures c.start <= |front| && Observes(c.clocks, front[c.start..])
    ensures forall d: bool :: ClockHolds(c.(discontinuity := d), front[c.start..])
  {
    hide ObservedHolds, Quiet, StartsTable;
    if c == NewCandidate(|front|) { assert front[c.start..] == []; }
  }

  lemma WindowAfter(c: Candidate, front: Bytes, packet: Bytes)
    requires c.start <= |front|
    ensures (front + packet)[c.start..] == front[c.start..] + packet
  {
  }

  lemma StartAndQuiet(c: Candidate, front: Bytes, packet: Bytes, p: Packet)
    requires |packet| == PACKET_BYTES && ParsePacket(packet) == Result.Ok(p) && |front| % PACKET_BYTES == 0
    requires if c == NewCandidate(|front|) then StartsTable(packet) else CandidateHolds(c, front) && !p.discontinuity
    ensures var all := front + packet;
      && c.start % PACKET_BYTES == 0 && c.start + PACKET_BYTES <= |all| && StartsTable(PacketAt(all, c.start))
      && (Discontinuous(PacketAt(all, c.start)) <==> c.discontinuity || p.discontinuity)
      && Quiet(all, c.start + PACKET_BYTES, |all|)
  {
    hide Observes, ClockHolds, ParsePacket;
    var all := front + packet;
    if c == NewCandidate(|front|) {
      assert PacketAt(all, c.start) == packet;
    } else {
      assert PacketAt(all, c.start) == PacketAt(front, c.start);
      QuietExtends(front, c.start + PACKET_BYTES, packet);
    }
  }

  // ----- Accepting a boundary

  lemma QuietShifts(data: Bytes, start: nat, from: nat)
    requires start <= |data| && start % PACKET_BYTES == 0 && Quiet(data, start + from, |data|)
    ensures Quiet(data[start..], from, |data| - start)
  {
    hide Discontinuous;
    var rest := data[start..];
    forall o | from <= o && o + PACKET_BYTES <= |rest| && o % PACKET_BYTES == 0 ensures !Discontinuous(PacketAt(rest, o)) {
      assert PacketAt(data, start + o) == PacketAt(rest, o);
      assert (start + o) % PACKET_BYTES == 0;
    }
  }

  /** The candidate's window is the data of the segment that begins with it. */
  lemma WindowStands(c: Candidate, data: Bytes)
    requires CandidateHolds(c, data) && Complete(c) && |data| % PACKET_BYTES == 0
    ensures var (b, rest) := (BoundaryOf(c), data[c.start..]);
      && PACKET_BYTES <= |rest| <= |data| && |rest| % PACKET_BYTES == 0
      && ActiveClock(b, rest, Some((c.lastClock, b.pcrPid))) && Quiet(rest, PACKET_BYTES, |rest|)
      && Clocks(rest, b.pcrPid)[0] == c.clock
  {
    hide Clocks, Observes, StartsTable, Discontinuous;
    QuietShifts(data, c.start, PACKET_BYTES);
    hide Quiet, Steady;
  }

  lemma SameWindow(input: Bytes, base: nat, data: Bytes, start: nat)
    requires base <= |input| && data == input[base..] && start + PACKET_BYTES <= |data|
    ensures base + start + PACKET_BYTES <= |input| && input[base + start..] == data[start..]
    ensures PacketAt(input, base + start) == PacketAt(data, start)
  {
  }

  /** The mark of a candidate in the input, which the data ends. */
  lemma MarkOf(input: Bytes, base: nat, c: Candidate, data: Bytes, d: bool)
    requires CandidateHolds(c, data) && Complete(c) && |data| % PACKET_BYTES == 0
    requires base <= |input| && base % PACKET_BYTES == 0 && data == input[base..]
    ensures var m := Mark(base + c.start, BoundaryOf(c).(discontinuity := d));
      && m.offset + PACKET_BYTES <= |input| && input[m.offset..] == data[c.start..] && MarkHolds(input, m)
      && (Discontinuous(PacketAt(input, m.offset)) <==> c.discontinuity)
  {
    hide Clocks, StartsTable, Discontinuous, Observes, ClockHolds, Quiet;
    var at, pid := base + c.start, c.pmt.value.pcrPid;
    SameWindow(input, base, data, c.start);
    assert StartsTable(PacketAt(input, at)) && at % PACKET_BYTES == 0;
    FirstClock(c, data);
    hide CandidateHolds;
  }

  lemma FirstClock(c: Candidate, data: Bytes)
    requires CandidateHolds(c, data) && Complete(c)
    ensures |Clocks(data[c.start..], c.pmt.value.pcrPid)| > 0 && Clocks(data[c.start..], c.pmt.value.pcrPid)[0] == c.clock
    ensures Discontinuous(PacketAt(data, c.start)) <==> c.discontinuity
  {
    hide Clocks, Observes, StartsTable, Discontinuous, Quiet;
  }

  lemma LastMark(h: History)
    requires Faithful(h) && h.marks != []
    ensures MarkHolds(h.input, h.marks[|h.marks| - 1])
    ensures h.marks[|h.marks| - 1].offset % PACKET_BYTES == 0 && h.marks[|h.marks| - 1].offset + PACKET_BYTES <= |h.input|
  {
    hide Clocks, StartsTable, MarkFollows, SegmentHolds;
  }

  lemma InputIsData(h: History, data: Bytes)
    requires HeldIs(h, data) && h.marks == []
    ensures data == h.input && data == h.input[0..]
  {
  }

  lemma FirstBoundary(h: History, data: Bytes, c: Candidate)
    requires Whole(h, data) && h.marks == [] && CandidateHolds(c, data) && Complete(c)
    ensures var (b, rest) := (BoundaryOf(c), data[c.start..]);
      Standing(h.(marks := [Mark(c.start, b)]), rest, Some(b), None, Some((c.lastClock, b.pcrPid)))
  {
    hide MarkHolds, CandidateHolds;
    var m := Mark(c.start, BoundaryOf(c));
    InputIsData(h, data);
    MarkOf(h.input, 0, c, data, false);
    FirstMark(h, m);
    StandsAlone(h.(marks := [m]), data, c, BoundaryOf(c));
  }

  lemma SegmentIsGood(h: History, data: Bytes, a: Boundary, last: LastClock, c: Candidate, m: Mark)
    requires Whole(h, data) && ActiveHolds(h, data, Some(a), Some(c), last) && CandidateHolds(c, data)
    requires m.offset == h.marks[|h.marks| - 1].offset + c.start && m.boundary.clock == c.clock
    requires MINIMUM_TICKS <= Delta(a.clock, c.clock) <= MAXIMUM_TICKS
    ensures m.offset <= |h.input|
    ensures SegmentHolds(h.input, |h.segments|, SegmentBefore(|h.segments|, data, a, c), h.marks[|h.marks| - 1], m)
  {
    hide Clocks, Observes, StartsTable, Discontinuous, ClockHolds, MarkHolds, MarkFollows, Faithful;
    var (before, from) := (data[..c.start], h.marks[|h.marks| - 1].offset);
    LastMark(h);
    assert before == h.input[from..m.offset];
    ClocksInFront(data, c.start, a.pcrPid);
    SteadyInFront(Clocks(before, a.pcrPid), Clocks(data, a.pcrPid));
    forall o | PACKET_BYTES <= o && o + PACKET_BYTES <= |before| && o % PACKET_BYTES == 0
      ensures !Discontinuous(PacketAt(before, o))
    {
      assert PacketAt(before, o) == PacketAt(data, o);
    }
  }

  lemma NextBoundary(h: History, data: Bytes, a: Boundary, last: LastClock, c: Candidate, b: Boundary)
    requires Whole(h, data) && ActiveHolds(h, data, Some(a), Some(c), last) && CandidateHolds(c, data) && Complete(c)
    requires MINIMUM_TICKS <= Delta(a.clock, c.clock) <= MAXIMUM_TICKS
    requires b == BoundaryOf(c).(discontinuity := c.discontinuity || Changed(a, BoundaryOf(c)))
    ensures var (s, m) := (SegmentBefore(|h.segments|, data, a, c), Mark(h.marks[|h.marks| - 1].offset + c.start, b));
      Standing(h.(marks := h.marks + [m], segments := h.segments + [s]), data[c.start..], Some(b), None,
               Some((c.lastClock, b.pcrPid)))
  {
    var from := h.marks[|h.marks| - 1].offset;
    var m := Mark(from + c.start, b);
    LastMark(h);
    WindowStands(c, data);
    MarkOf(h.input, from, c, data, b.discontinuity);
    SegmentIsGood(h, data, a, last, c, m);
    BoundaryFollows(h, a, c, b, m);
    NextMark(h, SegmentBefore(|h.segments|, data, a, c), m);
    StandsAlone(h.(marks := h.marks + [m], segments := h.segments + [SegmentBefore(|h.segments|, data, a, c)]), data, c, b);
  }

  lemma BoundaryFollows(h: History, a: Boundary, c: Candidate, b: Boundary, m: Mark)
    requires Complete(c) && h.marks != [] && h.marks[|h.marks| - 1].boundary == a && c.start > 0
    requires b == BoundaryOf(c).(discontinuity := c.discontinuity || Changed(a, BoundaryOf(c)))
    requires m == Mark(h.marks[|h.marks| - 1].offset + c.start, b) && m.offset + PACKET_BYTES <= |h.input|
    requires Discontinuous(PacketAt(h.input, m.offset)) <==> c.discontinuity
    ensures MarkFollows(h.input, h.marks[|h.marks| - 1], m)
  {
    hide Discontinuous;
  }

  lemma StandsAlone(g: History, data: Bytes, c: Candidate, b: Boundary)
    requires CandidateHolds(c, data) && Complete(c) && |data| % PACKET_BYTES == 0 && |data| <= MAXIMUM_SEGMENT
    requires b == BoundaryOf(c).(discontinuity := b.discontinuity)
    requires g.marks != [] && g.marks[|g.marks| - 1].boundary == b && Faithful(g) && HeldIs(g, data[c.start..])
    ensures Standing(g, data[c.start..], Some(b), None, Some((c.lastClock, b.pcrPid)))
  {
    hide Faithful, HeldIs, Clocks, Quiet, Observes, ClockHolds, StartsTable, Discontinuous, Steady;
    WindowStands(c, data);
  }

  // ----- The segmenter

  class Segmenter {
    const sink: Sink
    var data: Bytes
    var sequence: nat
    var active: Option<Boundary>
    var candidate: Option<Candidate>
    var patCollector: Assembly
    var patTracker: Tracker
    var pmtCollector: Assembly
    var pmtTracker: Tracker
    var pmtPid: Option<nat>
    var lastPcr: LastClock
    ghost var h: History

    constructor (sink: Sink)
      ensures Live() && h == History([], [], []) && Value() == START && this.sink == sink
    {
      this.sink := sink;
      data, sequence, active, candidate := [], 0, None, None;
      patCollector, patTracker, pmtCollector, pmtTracker := NOTHING_ASSEMBLED, None, NOTHING_ASSEMBLED, None;
      pmtPid, lastPcr := None, None;
      h := History([], [], []);
    }

    function Value(): State
      reads this
    {
      State(data, sequence, active, candidate, patCollector, patTracker, pmtCollector, pmtTracker, pmtPid, lastPcr)
    }

    /** The fields, or the failure, are the ones the specification gives. */
    ghost predicate Agrees(err: Option<Reason>, expected: Checked<State>)
      reads this
    {
      match expected
      case Good(state) => err.None? && Value() == state
      case Bad(reason) => err == Some(reason)
    }

    /** And so are the segments that were published after the ones before. */
    ghost predicate Publishes(err: Option<Reason>, expected: Outcome, before: seq<Segment>)
      reads this
    {
      Agrees(err, expected.next) && h.segments == before + expected.emitted
    }

    ghost predicate Live()
      reads this
    {
      Standing(h, data, active, candidate, lastPcr) && sequence == |h.segments| && AllValidated(h.segments)
    }

    /** What has been published stays sound even when the rest is given up. */
    ghost predicate Sound()
      reads this
    {
      Faithful(h) && AllValidated(h.segments)
    }

    /** `releaseBuffers`. */
    method Release()
      modifies this
      ensures h == old(h)
    {
      data, active, candidate := [], None, None;
      patCollector, patTracker, pmtCollector, pmtTracker := NOTHING_ASSEMBLED, None, NOTHING_ASSEMBLED, None;
      pmtPid, lastPcr := None, None;
    }

    // ----- Programme tables

    /** One section of a programme association. */
    method ReadPat(section: Bytes) returns (err: Option<Reason>)
      modifies this`patTracker, this`pmtCollector, this`pmtTracker, this`pmtPid, this`candidate
      ensures candidate.Some? <==> old(candidate).Some?
      ensures candidate.Some? ==> candidate.value == old(candidate).value.(pat := candidate.value.pat)
      ensures Agrees(err, PatRead(old(Value()), section))
    {
      hide ParsePat, Accept;
      var pat := ParsePat(section);
      if pat.Err? { return Some(if pat.error == ErrSingleProgram then SingleProgramRequired else PsiInvalid); }
      var tracked := Accept(patTracker, pat.value.version, section);
      if tracked.None? { return Some(PsiInvalid); }
      patTracker := tracked.value.0;
      if pmtPid != Some(pat.value.pmtPid) {
        pmtPid, pmtCollector, pmtTracker := Some(pat.value.pmtPid), NOTHING_ASSEMBLED, None;
      }
      if candidate.Some? { candidate := Some(candidate.value.(pat := Some(pat.value))); }
      err := None;
    }

    /** `processPAT`: a candidate's programme association is the one thing it changes of it. */
    method ProcessPat(packet: Bytes) returns (err: Option<Reason>)
      modifies this`patCollector, this`patTracker, this`pmtCollector, this`pmtTracker, this`pmtPid, this`candidate
      ensures candidate.Some? <==> old(candidate).Some?
      ensures candidate.Some? ==> candidate.value == old(candidate).value.(pat := candidate.value.pat)
      ensures Agrees(err, PatPacket(old(Value()), packet))
    {
      hide PsiCollector.Fed, PatRead;
      var fed := PsiCollector.Fed(patCollector, packet);
      if fed.Err? { return Some(PsiInvalid); }
      patCollector := fed.value.0;
      var sections, i := fed.value.1, 0;
      while i < |sections|
        invariant i <= |sections| && (candidate.Some? <==> old(candidate).Some?)
        invariant candidate.Some? ==> candidate.value == old(candidate).value.(pat := candidate.value.pat)
        invariant PatsRead(Value(), sections[i..]) == PatPacket(old(Value()), packet)
      {
        err := ReadPat(sections[i]);
        if err.Some? { return; }
        i := i + 1;
      }
      err := None;
    }

    /** The first programme map of a candidate gives it its video and its clock; any further one must repeat it. */
    method ProcessPmt(packet: Bytes) returns (err: Option<Reason>)
      requires candidate.Some? ==> CandidateHolds(candidate.value, data)
      modifies this`pmtCollector, this`pmtTracker, this`candidate
      ensures candidate.Some? <==> old(candidate).Some?
      ensures candidate.Some? ==> CandidateHolds(candidate.value, data) && candidate.value.start == old(candidate).value.start
      ensures Agrees(err, PmtPacket(old(Value()), packet))
    {
      hide CandidateHolds, PsiCollector.Fed, ParsePmt, Accept, MapAdopted;
      var fed := PsiCollector.Fed(pmtCollector, packet);
      if fed.Err? { return Some(PsiInvalid); }
      pmtCollector := fed.value.0;
      var sections, i := fed.value.1, 0;
      while i < |sections|
        invariant i <= |sections| && (candidate.Some? <==> old(candidate).Some?)
        invariant candidate.Some? ==>
          CandidateHolds(candidate.value, data) && candidate.value.start == old(candidate).value.start
        invariant PmtsRead(Value(), sections[i..]) == PmtPacket(old(Value()), packet)
      {
        var pmt := ParsePmt(sections[i]);
        if pmt.Err? { return Some(if pmt.error == ErrProgramClock then TimestampInvalid else PsiInvalid); }
        var tracked := Accept(pmtTracker, pmt.value.version, sections[i]);
        if tracked.None? { return Some(PsiInvalid); }
        pmtTracker := tracked.value.0;
        if candidate.None? || candidate.value.pat.None? {
          if tracked.value.1 && active.Some? { return Some(PsiInvalid); }
        } else if candidate.value.pmt.Some? {
          if tracked.value.1 { return Some(PsiInvalid); }
        } else {
          if pmt.value.program != candidate.value.pat.value.program { return Some(PsiInvalid); }
          PcrPidGiven(sections[i]);
          var next := AdoptMap(candidate.value, pmt.value, data);
          if next.Bad? { return Some(next.reason); }
          candidate := Some(next.value);
        }
        i := i + 1;
      }
      err := None;
    }

    // ----- Boundaries

    /** The first boundary: what came before it is not published. */
    method OpenFirstSegment()
      requires Live() && candidate.Some? && Complete(candidate.value) && active.None?
      modifies this
      ensures Live() && h.input == old(h.input) && h.segments == old(h.segments)
      ensures Value() == Opened(old(Value()), old(candidate).value, BoundaryOf(old(candidate).value))
      ensures h.marks == [Mark(old(candidate).value.start, BoundaryOf(old(candidate).value))]
    {
      hide Standing, Faithful, AllValidated;
      var c := candidate.value;
      OpenFirst(h, data, c, lastPcr);
      var b := BoundaryOf(c);
      h := h.(marks := [Mark(c.start, b)]);
      data, active, lastPcr, candidate := data[c.start..], Some(b), Some((c.lastClock, b.pcrPid)), None;
    }

    /** The open segment ends where the candidate began. Its emission may be refused. */
    method Publish() returns (err: Option<Reason>)
      requires Live() && candidate.Some? && Complete(candidate.value) && active.Some?
      requires MINIMUM_TICKS <= Delta(active.value.clock, candidate.value.clock) <= MAXIMUM_TICKS
      modifies this
      ensures err.Some? ==> h == old(h)
      ensures err.None? ==> Live() && h.input == old(h.input) && old(h.marks) != []
      ensures var b := BoundaryAfter(old(active).value, old(candidate).value);
        err.None? ==>
          h.marks == old(h.marks) + [Mark(old(h.marks[|h.marks| - 1]).offset + old(candidate).value.start, b)]
      ensures Publishes(err, Published(old(Value()), old(active).value, old(candidate).value, sink), old(h.segments))
    {
      hide Standing, Faithful, AllValidated, Validated, Refusal;
      var (c, a) := (candidate.value, active.value);
      CandidateInside(h, data, active, c, lastPcr);
      var invalid := ValidateSegment(data[..c.start]);
      if invalid.Some? { return invalid; }
      if sequence == MAX_UINT64 { return Some(SessionEnded); }
      var next := BoundaryAfter(a, c);
      var segment := SegmentBefore(sequence, data, a, c);
      var refused := sink(segment);
      if refused.Some? { return Some(EmitRefused(refused.value)); }
      OpenNext(h, data, a, lastPcr, c, next);
      OneMoreValidated(h.segments, segment);
      ghost var m := Mark(h.marks[|h.marks| - 1].offset + c.start, next);
      h := h.(marks := h.marks + [m], segments := h.segments + [segment]);
      sequence := sequence + 1;
      data, active, lastPcr, candidate := data[c.start..], Some(next), Some((c.lastClock, next.pcrPid)), None;
      err := None;
    }

    /** `completeCandidate`. */
    method CompleteCandidate() returns (err: Option<Reason>)
      requires Live() && candidate.Some?
      modifies this
      ensures Publishes(err, Completed(old(Value()), sink), old(h.segments))
      ensures Sound() && h.input == old(h.input) && old(h.marks) <= h.marks
      ensures err.None? ==> Live()
    {
      hide Standing, Faithful, AllValidated, Published;
      var c := candidate.value;
      StandingIsFaithful(h, data, active, candidate, lastPcr);
      CandidateInside(h, data, active, c, lastPcr);
      if !Complete(c) { return None; }
      if active.None? {
        OpenFirstSegment();
      } else {
        var a := active.value;
        var delta := Delta(a.clock, c.clock);
        if delta == 0 || delta > MAXIMUM_TICKS { return Some(TimestampInvalid); }
        if delta < MINIMUM_TICKS {
          if c.discontinuity || Changed(a, BoundaryOf(c)) { return Some(TimestampInvalid); }
          CandidateDropped(h, data, a, c, lastPcr);
          candidate := None;
        } else {
          err := Publish();
          if err.Some? { return; }
        }
      }
      StandingIsFaithful(h, data, active, candidate, lastPcr);
      err := None;
    }

    // ----- One packet

    /** The packet joins the data; its clocks and its place in a candidate are noted. */
    method TakePacket(packet: Bytes) returns (r: Checked<Packet>)
      requires Live() && |packet| == PACKET_BYTES
      modifies this`data, this`lastPcr, this`candidate, this`h
      ensures Sound() && h == old(h).(input := old(h).input + packet)
      ensures r.Good? ==> Live() && ParsePacket(packet) == Result.Ok(r.value)
      ensures match Looked(old(Value()), packet)
        case Good((state, p)) => r == Good(p) && Value() == state
        case Bad(reason) => r == Bad(reason)
    {
      hide Standing, Faithful, AllValidated, CandidateHolds, Complete, RequiresBoundary, Track, ParsePacket, StartsTable,
        CandidateAfter;
      StandingIsFaithful(h, data, active, candidate, lastPcr);
      HistoryStays(h, packet);
      ghost var (front, was) := (data, h);
      h := h.(input := h.input + packet);
      var start := |data|;
      data := data + packet;
      if |data| > MAXIMUM_SEGMENT { return Bad(RandomAccessUnavailable); }
      var parsed := ParsePacket(packet);
      if parsed.Err? { return Bad(TsSyncUnavailable); }
      var p := parsed.value;
      var starts := p.pid == 0 && p.start;
      if p.discontinuity && !starts && (active.Some? || candidate.Some?) { return Bad(TimestampInvalid); }
      var tracked := Track(active, lastPcr, packet, p);
      if tracked.Bad? { return Bad(tracked.reason); }
      if starts && RequiresBoundary(active, candidate) { return Bad(RandomAccessUnavailable); }
      var taking := if starts then Some(NewCandidate(start)) else candidate;
      MayTake(was, front, active, candidate, lastPcr, packet, p, taking);
      var taken: Option<Candidate> := None;
      if taking.Some? {
        var next := TakeCandidate(taking.value, packet, p, front);
        if next.Bad? { return Bad(next.reason); }
        taken := Some(next.value);
      }
      PacketStands(was, front, active, candidate, lastPcr, packet, p, tracked.value, taken);
      lastPcr, candidate := tracked.value, taken;
      r := Good(p);
    }

    /** A random access point and the start of a PES packet in the candidate's video. */
    method FlagVideo(p: Packet)
      requires Live()
      modifies this`candidate
      ensures Live() && Value() == Flagged(old(Value()), p)
    {
      hide Standing, AllValidated, StartsPes;
      if candidate.Some? && candidate.value.pmt.Some? && p.pid == candidate.value.videoPid {
        var c := candidate.value;
        var access := c.randomAccess || p.randomAccess;
        var next := c.(randomAccess := access, pesStart := c.pesStart || (access && StartsPes(p)));
        TablesDoNotMatter(h, data, active, c, lastPcr, next);
        candidate := Some(next);
      }
    }

    /** The programme tables and the video in the packet. */
    method ReadPacket(packet: Bytes, p: Packet) returns (err: Option<Reason>)
      requires Live()
      modifies this`patCollector, this`patTracker, this`pmtCollector, this`pmtTracker, this`pmtPid, this`candidate
      ensures err.None? ==> Live()
      ensures Agrees(err, Read(old(Value()), packet, p))
    {
      hide Standing, AllValidated, CandidateHolds, PatPacket, PmtPacket, Flagged;
      ghost var first := candidate;
      if p.pid == 0 {
        err := ProcessPat(packet);
        if err.Some? { return; }
        if candidate.Some? { TablesDoNotMatter(h, data, active, first.value, lastPcr, candidate.value); }
      }
      if pmtPid == Some(p.pid) {
        StandingCandidate(h, data, active, candidate, lastPcr);
        ghost var before := candidate;
        err := ProcessPmt(packet);
        if err.Some? { return; }
        OtherCandidate(h, data, active, before, lastPcr, candidate);
      }
      FlagVideo(p);
      err := None;
    }

    /** `processPacket`. A failure leaves what was published. */
    method ProcessPacket(packet: Bytes) returns (err: Option<Reason>)
      requires Live() && |packet| == PACKET_BYTES
      modifies this
      ensures Publishes(err, Processed(old(Value()), packet, sink), old(h.segments))
      ensures Sound() && h.input == old(h.input) + packet && old(h.marks) <= h.marks
      ensures err.None? ==> Live()
    {
      hide Standing, Faithful, AllValidated, OutOfBounds, Looked, Read, Completed, ParsePacket, RequiresBoundary;
      var taken := TakePacket(packet);
      if taken.Bad? { return Some(taken.reason); }
      err := DecideOn(packet, taken.value);
    }

    /** What follows from a packet that was taken. */
    method DecideOn(packet: Bytes, p: Packet) returns (err: Option<Reason>)
      requires Live()
      modifies this
      ensures Publishes(err, Decided(old(Value()), packet, p, sink), old(h.segments))
      ensures Sound() && h.input == old(h.input) && old(h.marks) <= h.marks
      ensures err.None? ==> Live()
    {
      hide Standing, Faithful, AllValidated, OutOfBounds, Looked, Read, Completed, ParsePacket, RequiresBoundary;
      StandingIsFaithful(h, data, active, candidate, lastPcr);
      err := ReadPacket(packet, p);
      if err.Some? { return; }
      if candidate.Some? && candidate.value.pesStart {
        err := CompleteCandidate();
        if err.Some? { return; }
      }
      StandingIsFaithful(h, data, active, candidate, lastPcr);
      err := OutOfBounds(active, candidate, packet, p);
    }
  }

  // ----- What the methods rest on

  lemma PcrPidGiven(section: Bytes)
    ensures ParsePmt(section).Ok? ==> ParsePmt(section).value.pcrPid != 0
  {
    hide ParseStreams, WellFormedTable, StreamsStart;
  }

  method AdoptMap(c: Candidate, pmt: Pmt, ghost data: Bytes) returns (r: Checked<Candidate>)
    requires CandidateHolds(c, data) && c.pmt.None? && pmt.pcrPid != 0
    ensures r == MapAdopted(c, pmt) && (r.Good? ==> CandidateHolds(r.value, data) && r.value.start == c.start)
  {
    hide Observes, Quiet, StartsTable, Clocks, Discontinuous;
    var video := SelectVideo(pmt.streams);
    if video.Bad? { return Bad(video.reason); }
    var next := c.(pmt := Some(pmt), videoPid := video.value.0, videoKind := video.value.1);
    r := SelectClock(next, data[c.start..]);
  }

  lemma StandingIsFaithful(h: History, data: Bytes, active: Option<Boundary>, candidate: Option<Candidate>, last: LastClock)
    requires Standing(h, data, active, candidate, last)
    ensures Faithful(h)
  {
    hide Faithful, ActiveHolds, CandidateHolds;
  }

  lemma StandingCandidate(h: History, data: Bytes, active: Option<Boundary>, candidate: Option<Candidate>, last: LastClock)
    requires Standing(h, data, active, candidate, last)
    ensures candidate.Some? ==> CandidateHolds(candidate.value, data)
  {
    hide Faithful, ActiveHolds, CandidateHolds;
  }

  lemma CandidateInside(h: History, data: Bytes, active: Option<Boundary>, c: Candidate, last: LastClock)
    requires Standing(h, data, active, Some(c), last)
    ensures c.start <= |data| <= MAXIMUM_SEGMENT && (active.Some? <==> h.marks != [])
  {
    hide Faithful, Quiet, StartsTable, Observes, ClockHolds;
  }

  lemma OpenFirst(h: History, data: Bytes, c: Candidate, last: LastClock)
    requires Standing(h, data, None, Some(c), last) && Complete(c)
    ensures c.start <= |data|
    ensures var b := BoundaryOf(c);
      Standing(h.(marks := [Mark(c.start, b)]), data[c.start..], Some(b), None, Some((c.lastClock, b.pcrPid)))
  {
    CandidateInside(h, data, None, c, last);
    FirstBoundary(h, data, c);
    hide Faithful, Quiet, StartsTable, Observes, ClockHolds, CandidateHolds;
  }

  lemma OpenNext(h: History, data: Bytes, a: Boundary, last: LastClock, c: Candidate, b: Boundary)
    requires Standing(h, data, Some(a), Some(c), last) && Complete(c)
    requires MINIMUM_TICKS <= Delta(a.clock, c.clock) <= MAXIMUM_TICKS
    requires b == BoundaryOf(c).(discontinuity := c.discontinuity || Changed(a, BoundaryOf(c)))
    ensures c.start <= |data| && h.marks != []
    ensures var (s, m) := (SegmentBefore(|h.segments|, data, a, c), Mark(h.marks[|h.marks| - 1].offset + c.start, b));
      Standing(h.(marks := h.marks + [m], segments := h.segments + [s]), data[c.start..], Some(b), None,
               Some((c.lastClock, b.pcrPid)))
  {
    CandidateInside(h, data, Some(a), c, last);
    hide Faithful, Quiet, StartsTable, Observes, ClockHolds, CandidateHolds, ActiveHolds, Whole;
    NextBoundary(h, data, a, last, c, b);
  }

  /** Dropping a candidate that announced nothing: the open segment goes on. */
  lemma CandidateDropped(h: History, data: Bytes, a: Boundary, c: Candidate, last: LastClock)
    requires Standing(h, data, Some(a), Some(c), last) && !c.discontinuity
    ensures Standing(h, data, Some(a), None, last)
  {
    hide Faithful, ActiveClock, StartsTable, Observes, ClockHolds, Quiet;
    QuietJoins(data, PACKET_BYTES, c.start, |data|);
  }

  lemma OneMoreValidated(segments: seq<Segment>, s: Segment)
    requires AllValidated(segments) && Validated(s.data)
    ensures AllValidated(segments + [s])
  {
    hide Validated;
  }

  /** A new candidate replaces one only if that announced nothing. */
  lemma MayTake(h: History, front: Bytes, active: Option<Boundary>, candidate: Option<Candidate>, last: LastClock,
                packet: Bytes, p: Packet, taking: Option<Candidate>)
    requires Standing(h, front, active, candidate, last) && ParsePacket(packet) == Result.Ok(p)
    requires p.discontinuity && !(p.pid == 0 && p.start) ==> candidate.None?
    requires taking == if p.pid == 0 && p.start then Some(NewCandidate(|front|)) else candidate
    ensures |front| % PACKET_BYTES == 0
    ensures taking.Some? ==>
      if taking.value == NewCandidate(|front|) then StartsTable(packet)
      else CandidateHolds(taking.value, front) && !p.discontinuity
  {
    hide Faithful, ActiveHolds, Observes, ClockHolds, ParsePacket, Quiet;
  }

  lemma ActiveAfter(h: History, front: Bytes, active: Option<Boundary>, candidate: Option<Candidate>, last: LastClock,
                    packet: Bytes, p: Packet, tracked: LastClock, taken: Option<Candidate>)
    requires Standing(h, front, active, candidate, last) && |packet| == PACKET_BYTES && ParsePacket(packet) == Result.Ok(p)
    requires |front + packet| <= MAXIMUM_SEGMENT && Track(active, last, packet, p) == Good(tracked)
    requires p.discontinuity && !(p.pid == 0 && p.start) ==> active.None? && candidate.None?
    requires p.pid == 0 && p.start ==> !RequiresBoundary(active, candidate)
    requires taken.Some? ==> CandidateHolds(taken.value, front + packet)
    requires taken.Some? <==> (p.pid == 0 && p.start) || candidate.Some?
    requires taken.Some? ==> taken.value.start == if p.pid == 0 && p.start then |front| else candidate.value.start
    requires active.Some?
    ensures ActiveClock(active.value, front + packet, tracked)
    ensures Quiet(front + packet, PACKET_BYTES, Until(taken, front + packet)) && Until(taken, front + packet) >= PACKET_BYTES
  {
    hide Faithful, ActiveClock, CandidateHolds, Quiet, Track, ParsePacket, RequiresBoundary, Standing;
    ActiveParts(h, front, active, candidate, last);
    ClockTracked(active.value, front, last, packet, p);
    if p.pid == 0 && p.start && candidate.Some? { DroppedQuietly(front, candidate.value, active); }
    if !p.discontinuity { SaysNothing(packet, p); }
    StaysQuiet(front, candidate, packet, p.pid == 0 && p.start, taken);
  }

  lemma PacketStands(h: History, front: Bytes, active: Option<Boundary>, candidate: Option<Candidate>, last: LastClock,
                     packet: Bytes, p: Packet, tracked: LastClock, taken: Option<Candidate>)
    requires Standing(h, front, active, candidate, last) && |packet| == PACKET_BYTES && ParsePacket(packet) == Result.Ok(p)
    requires |front + packet| <= MAXIMUM_SEGMENT && Track(active, last, packet, p) == Good(tracked)
    requires p.discontinuity && !(p.pid == 0 && p.start) ==> active.None? && candidate.None?
    requires p.pid == 0 && p.start ==> !RequiresBoundary(active, candidate)
    requires taken.Some? ==> CandidateHolds(taken.value, front + packet)
    requires taken.Some? <==> (p.pid == 0 && p.start) || candidate.Some?
    requires taken.Some? ==> taken.value.start == if p.pid == 0 && p.start then |front| else candidate.value.start
    ensures Standing(h.(input := h.input + packet), front + packet, active, taken, tracked)
  {
    hide Faithful, ActiveClock, CandidateHolds, Quiet, Track, ParsePacket, RequiresBoundary, HeldIs;
    PacketTaken(h, front, packet);
    if active.Some? { ActiveAfter(h, front, active, candidate, last, packet, p, tracked, taken); }
  }

  /** Up to the candidate, or to the end, the open segment stays quiet. */
  lemma StaysQuiet(front: Bytes, candidate: Option<Candidate>, packet: Bytes, starts: bool, taken: Option<Candidate>)
    requires |packet| == PACKET_BYTES && |front| % PACKET_BYTES == 0 && PACKET_BYTES <= Until(candidate, front) <= |front|
    requires Quiet(front, PACKET_BYTES, if starts then |front| else Until(candidate, front))
    requires !starts ==> !Discontinuous(packet)
    requires taken.Some? <==> starts || candidate.Some?
    requires taken.Some? ==> taken.value.start == if starts then |front| else candidate.value.start
    ensures Quiet(front + packet, PACKET_BYTES, Until(taken, front + packet)) && Until(taken, front + packet) >= PACKET_BYTES
  {
    hide Quiet, Discontinuous;
    if starts {
      QuietStays(front, PACKET_BYTES, |front|, packet);
    } else if candidate.Some? {
      QuietStays(front, PACKET_BYTES, candidate.value.start, packet);
    } else {
      QuietExtends(front, PACKET_BYTES, packet);
    }
  }

  lemma SaysNothing(packet: Bytes, p: Packet)
    requires ParsePacket(packet) == Result.Ok(p) && !p.discontinuity
    ensures !Discontinuous(packet)
  {
  }

  lemma ActiveParts(h: History, front: Bytes, active: Option<Boundary>, candidate: Option<Candidate>, last: LastClock)
    requires Standing(h, front, active, candidate, last) && active.Some?
    ensures ActiveClock(active.value, front, last) && Quiet(front, PACKET_BYTES, Until(candidate, front))
    ensures candidate.Some? ==> CandidateHolds(candidate.value, front)
    ensures PACKET_BYTES <= Until(candidate, front) <= |front| && |front| % PACKET_BYTES == 0
  {
    hide Faithful, ActiveClock, Quiet, Observes, ClockHolds, StartsTable;
  }

  lemma DroppedQuietly(front: Bytes, c: Candidate, active: Option<Boundary>)
    requires CandidateHolds(c, front) && active.Some? && !RequiresBoundary(active, Some(c))
    requires Quiet(front, PACKET_BYTES, c.start)
    ensures Quiet(front, PACKET_BYTES, |front|)
  {
    hide Observes, ClockHolds, StartsTable, Quiet;
    QuietJoins(front, PACKET_BYTES, c.start, |front|);
  }

  /** What a candidate says of its window does not depend on its association table or its flags. */
  lemma TablesDoNotMatter(h: History, data: Bytes, active: Option<Boundary>, c: Candidate, last: LastClock, d: Candidate)
    requires Standing(h, data, active, Some(c), last)
    requires d == c.(pat := d.pat, randomAccess := d.randomAccess, pesStart := d.pesStart)
    ensures Standing(h, data, active, Some(d), last)
  {
    hide Faithful, ActiveClock, Quiet, Observes, StartsTable, ObservedHolds;
  }

  lemma OtherCandidate(h: History, data: Bytes, active: Option<Boundary>, c: Option<Candidate>, last: LastClock,
                       d: Option<Candidate>)
    requires Standing(h, data, active, c, last) && (c.Some? <==> d.Some?)
    requires d.Some? ==> CandidateHolds(d.value, data) && d.value.start == c.value.start
    ensures Standing(h, data, active, d, last)
  {
    hide Faithful, ActiveClock, Quiet, CandidateHolds;
  }
}
