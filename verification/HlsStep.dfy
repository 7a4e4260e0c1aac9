/** What one packet makes of a segmenter: its next state, the segment that is emitted, or the reason why the
    stream is given up. */
module HlsStep {
  import opened Basics
  import opened HlsCandidate
  import opened HlsSegments
  import opened HlsValidation
  import opened Mpegts
  import opened ProgramTables
  import PsiCollector

  const MAX_UINT64 := 0xffff_ffff_ffff_ffff

  type LastClock = Option<(Clock, nat)>

  /** The fields of an `hlsSegmenter` as a value. */
  datatype State = State(
    data: Bytes, sequence: nat, active: Option<Boundary>, candidate: Option<Candidate>, pats: Assembly,
    patTracker: Tracker, pmts: Assembly, pmtTracker: Tracker, pmtPid: Option<nat>, lastPcr: LastClock)

  const START := State([], 0, None, None, NOTHING_ASSEMBLED, None, NOTHING_ASSEMBLED, None, None, None)

  /** What the callback answers to a segment: None if it takes it. */
  type Sink = Segment -> Option<nat>

  datatype Outcome = Outcome(next: Checked<State>, emitted: seq<Segment>)

  function Going(s: State): Outcome { Outcome(Good(s), []) }
  function Refused(reason: Reason): Outcome { Outcome(Bad(reason), []) }

  // ----- The packet joins the data

  /** `trackProgramClock`. */
  function Track(active: Option<Boundary>, last: LastClock, packet: Bytes, p: Packet): Checked<LastClock> {
    var clock := ClockOf(packet, p.pid);
    if active.None? || clock.None? || p.pid != active.value.pcrPid then Good(last)
    else if p.discontinuity || last.None? || last.value.1 != p.pid then Good(Some((clock.value, p.pid)))
    else if !Advances(last.value.0, clock.value) then Bad(TimestampInvalid)
    else Good(Some((clock.value, p.pid)))
  }

  /** `candidateRequiresBoundary`. */
  predicate RequiresBoundary(active: Option<Boundary>, candidate: Option<Candidate>) {
    active.Some? && candidate.Some? &&
    var (a, c) := (active.value, candidate.value);
    || c.discontinuity
    || (c.pat.Some? &&
        (c.pat.value.version != a.patVersion || c.pat.value.program != a.program || c.pat.value.pmtPid != a.pmtPid))
    || (c.pmt.Some? &&
        (c.pmt.value.version != a.pmtVersion || c.pmt.value.pcrPid != a.pcrPid || c.videoPid != a.videoPid
         || c.videoKind != a.videoKind))
  }

  function CandidateAfter(c: Candidate, packet: Bytes, p: Packet): Checked<Candidate> {
    var next := if p.discontinuity then c.(discontinuity := true) else c;
    match ClockOf(packet, p.pid)
    case None => Good(next)
    case Some(clock) => ClockObserved(next, p.pid, clock)
  }

  /** The packet, its clocks and its place in a candidate. */
  function Taken(s: State, packet: Bytes, p: Packet): Checked<State> {
    var starts := p.pid == 0 && p.start;
    if p.discontinuity && !starts && (s.active.Some? || s.candidate.Some?) then Bad(TimestampInvalid)
    else
      var tracked := Track(s.active, s.lastPcr, packet, p);
      if tracked.Bad? then Bad(tracked.reason)
      else if starts && RequiresBoundary(s.active, s.candidate) then Bad(RandomAccessUnavailable)
      else
        var taking := if starts then Some(NewCandidate(|s.data|)) else s.candidate;
        var next := s.(data := s.data + packet, lastPcr := tracked.value);
        if taking.None? then Good(next)
        else
          var c := CandidateAfter(taking.value, packet, p);
          if c.Bad? then Bad(c.reason) else Good(next.(candidate := Some(c.value)))
  }

  // ----- The tables

  function PatRead(s: State, section: Bytes): Checked<State> {
    match ParsePat(section)
    case Err(error) => Bad(if error == ErrSingleProgram then SingleProgramRequired else PsiInvalid)
    case Ok(pat) =>
      match Accept(s.patTracker, pat.version, section)
      case None => Bad(PsiInvalid)
      case Some((tracker, changed)) =>
        var next := s.(
          patTracker := tracker,
          candidate := if s.candidate.Some? then Some(s.candidate.value.(pat := Some(pat))) else None);
        if s.pmtPid == Some(pat.pmtPid) then Good(next)
        else Good(next.(pmtPid := Some(pat.pmtPid), pmts := NOTHING_ASSEMBLED, pmtTracker := None))
  }

  function PatsRead(s: State, sections: seq<Bytes>): Checked<State>
    decreases |sections|
  {
    if sections == [] then Good(s)
    else
      var r := PatRead(s, sections[0]);
      if r.Bad? then r else PatsRead(r.value, sections[1..])
  }

  /** `processPAT`. */
  function PatPacket(s: State, packet: Bytes): Checked<State> {
    match PsiCollector.Fed(s.pats, packet)
    case Err(_) => Bad(PsiInvalid)
    case Ok((collector, sections)) => PatsRead(s.(pats := collector), sections)
  }

  /** The programme map of a candidate: its video and, if it was seen already, its clock. */
  function MapAdopted(c: Candidate, pmt: Pmt): Checked<Candidate> {
    var video := SelectVideo(pmt.streams);
    if video.Bad? then Bad(video.reason)
    else ClockSelected(c.(pmt := Some(pmt), videoPid := video.value.0, videoKind := video.value.1))
  }

  function PmtRead(s: State, section: Bytes): Checked<State> {
    match ParsePmt(section)
    case Err(error) => Bad(if error == ErrProgramClock then TimestampInvalid else PsiInvalid)
    case Ok(pmt) =>
      match Accept(s.pmtTracker, pmt.version, section)
      case None => Bad(PsiInvalid)
      case Some((tracker, changed)) =>
        var next := s.(pmtTracker := tracker);
        if s.candidate.None? || s.candidate.value.pat.None? then
          (if changed && s.active.Some? then Bad(PsiInvalid) else Good(next))
        else if s.candidate.value.pmt.Some? then (if changed then Bad(PsiInvalid) else Good(next))
        else if pmt.program != s.candidate.value.pat.value.program then Bad(PsiInvalid)
        else
          var c := MapAdopted(s.candidate.value, pmt);
          if c.Bad? then Bad(c.reason) else Good(next.(candidate := Some(c.value)))
  }

  function PmtsRead(s: State, sections: seq<Bytes>): Checked<State>
    decreases |sections|
  {
    if sections == [] then Good(s)
    else
      var r := PmtRead(s, sections[0]);
      if r.Bad? then r else PmtsRead(r.value, sections[1..])
  }

  /** `processPMT`. */
  function PmtPacket(s: State, packet: Bytes): Checked<State> {
    match PsiCollector.Fed(s.pmts, packet)
    case Err(_) => Bad(PsiInvalid)
    case Ok((collector, sections)) => PmtsRead(s.(pmts := collector), sections)
  }

  /** The video of a candidate: a random access point, and the start of a PES packet with it or after it. */
  function Flagged(s: State, p: Packet): State {
    if s.candidate.None? || s.candidate.value.pmt.None? || p.pid != s.candidate.value.videoPid then s
    else
      var c := s.candidate.value;
      var access := c.randomAccess || p.randomAccess;
      s.(candidate := Some(c.(randomAccess := access, pesStart := c.pesStart || (access && StartsPes(p)))))
  }

  /** The programme tables and the video in the packet. */
  function Read(s: State, packet: Bytes, p: Packet): Checked<State> {
    var pat := if p.pid == 0 then PatPacket(s, packet) else Good(s);
    if pat.Bad? then pat
    else
      var pmt := if pat.value.pmtPid == Some(p.pid) then PmtPacket(pat.value, packet) else pat;
      if pmt.Bad? then pmt else Good(Flagged(pmt.value, p))
  }

  // ----- Boundaries

  predicate Complete(c: Candidate) { c.pat.Some? && c.pmt.Some? && c.clockKnown }

  function BoundaryOf(c: Candidate): Boundary
    requires c.pat.Some? && c.pmt.Some?
  {
    Boundary(c.clock, c.pat.value.version, c.pmt.value.version, c.pat.value.program, c.pat.value.pmtPid,
             c.pmt.value.pcrPid, c.videoPid, c.videoKind, false)
  }

  /** The boundary after another one: it says so if its first packet did, or if the tables are others. */
  function BoundaryAfter(a: Boundary, c: Candidate): Boundary
    requires Complete(c)
  {
    BoundaryOf(c).(discontinuity := c.discontinuity || Changed(a, BoundaryOf(c)))
  }

  function Upto(data: Bytes, n: nat): Bytes { if n <= |data| then data[..n] else data }
  function From(data: Bytes, n: nat): Bytes { if n <= |data| then data[n..] else [] }

  /** The segment before a boundary. */
  function SegmentBefore(sequence: nat, data: Bytes, a: Boundary, c: Candidate): Segment {
    Segment(sequence, Upto(data, c.start), Delta(a.clock, c.clock) * SECOND / CLOCK_HZ, a.discontinuity)
  }

  /** A segment begins with the candidate. */
  function Opened(s: State, c: Candidate, b: Boundary): State {
    s.(data := From(s.data, c.start), active := Some(b), lastPcr := Some((c.lastClock, b.pcrPid)), candidate := None)
  }

  function Published(s: State, a: Boundary, c: Candidate, sink: Sink): Outcome
    requires Complete(c)
  {
    var segment := SegmentBefore(s.sequence, s.data, a, c);
    if Refusal(segment.data).Some? then Refused(Refusal(segment.data).value)
    else if s.sequence == MAX_UINT64 then Refused(SessionEnded)
    else if sink(segment).Some? then Refused(EmitRefused(sink(segment).value))
    else Outcome(Good(Opened(s, c, BoundaryAfter(a, c)).(sequence := s.sequence + 1)), [segment])
  }

  /** `completeCandidate`. */
  function Completed(s: State, sink: Sink): Outcome {
    if s.candidate.None? || !Complete(s.candidate.value) then Going(s)
    else
      var c := s.candidate.value;
      if s.active.None? then Going(Opened(s, c, BoundaryOf(c)))
      else
        var a := s.active.value;
        var delta := Delta(a.clock, c.clock);
        if delta == 0 || delta > MAXIMUM_TICKS then Refused(TimestampInvalid)
        else if delta >= MINIMUM_TICKS then Published(s, a, c, sink)
        else if c.discontinuity || Changed(a, BoundaryOf(c)) then Refused(TimestampInvalid)
        else Going(s.(candidate := None))
  }

  /** `checkBounds`. */
  function OutOfBounds(active: Option<Boundary>, candidate: Option<Candidate>, packet: Bytes, p: Packet): Option<Reason> {
    var known := candidate.Some? && candidate.value.clockKnown;
    if known && Delta(candidate.value.clock, candidate.value.lastClock) > MAXIMUM_TICKS then Some(RandomAccessUnavailable)
    else if active.None? then None
    else if known && !Advances(active.value.clock, candidate.value.clock) then Some(TimestampInvalid)
    else if p.pid == active.value.pcrPid && ClockOf(packet, p.pid).Some? &&
            Delta(active.value.clock, ClockOf(packet, p.pid).value) > MAXIMUM_TICKS then
      Some(RandomAccessUnavailable)
    else None
  }

  function Bounded(o: Outcome, packet: Bytes, p: Packet): Outcome {
    if o.next.Bad? then o
    else match OutOfBounds(o.next.value.active, o.next.value.candidate, packet, p)
      case None => o
      case Some(reason) => o.(next := Bad(reason))
  }

  /** Why a stream that ends now is not accepted, if so: `Finish` after the packets, and
      `initialBoundaryFailure`. */
  function Unfinished(s: State): Option<Reason> {
    if s.pats.section != [] || s.pmts.section != [] then Some(PsiInvalid)
    else if s.active.None? then
      (if s.candidate.None? || s.candidate.value.pat.None? || s.candidate.value.pmt.None? then Some(PsiInvalid)
       else if !s.candidate.value.clockKnown then Some(TimestampInvalid)
       else Some(RandomAccessUnavailable))
    else if RequiresBoundary(s.active, s.candidate) then Some(RandomAccessUnavailable)
    else None
  }

  // ----- One packet, and a run of them

  function Looked(s: State, packet: Bytes): Checked<(State, Packet)> {
    if |s.data + packet| > MAXIMUM_SEGMENT then Bad(RandomAccessUnavailable)
    else match ParsePacket(packet)
      case Err(_) => Bad(TsSyncUnavailable)
      case Ok(p) =>
        var taken := Taken(s, packet, p);
        if taken.Bad? then Bad(taken.reason) else Good((taken.value, p))
  }

  /** What follows from the tables: a candidate with a picture to start with is completed. */
  function Decided(s: State, packet: Bytes, p: Packet, sink: Sink): Outcome {
    var read := Read(s, packet, p);
    if read.Bad? then Refused(read.reason)
    else
      var due := read.value.candidate.Some? && read.value.candidate.value.pesStart;
      Bounded(if due then Completed(read.value, sink) else Going(read.value), packet, p)
  }

  /** `processPacket`. */
  function Processed(s: State, packet: Bytes, sink: Sink): Outcome {
    var looked := Looked(s, packet);
    if looked.Bad? then Refused(looked.reason) else Decided(looked.value.0, packet, looked.value.1, sink)
  }

  /** A run of packets, as far as it goes. */
  function Played(s: State, packets: seq<Bytes>, sink: Sink): Outcome
    decreases |packets|
  {
    if packets == [] then Going(s)
    else
      var first := Processed(s, packets[0], sink);
      if first.next.Bad? then first
      else
        var more := Played(first.next.value, packets[1..], sink);
        more.(emitted := first.emitted + more.emitted)
  }

  /** A run after what came before it. */
  function Then(o: Outcome, packets: seq<Bytes>, sink: Sink): Outcome {
    if o.next.Bad? then o
    else
      var more := Played(o.next.value, packets, sink);
      more.(emitted := o.emitted + more.emitted)
  }

  /** A run goes on where a run before it ended. */
  lemma {:induction false} PlayedJoins(s: State, a: seq<Bytes>, b: seq<Bytes>, sink: Sink)
    ensures Played(s, a + b, sink) == Then(Played(s, a, sink), b, sink)
    decreases |a|
  {
    hide Processed;
    if a == [] {
      assert a + b == b;
      assert [] + Played(s, b, sink).emitted == Played(s, b, sink).emitted;
    } else {
      assert (a + b)[0] == a[0] && (a + b)[1..] == a[1..] + b;
      var first := Processed(s, a[0], sink);
      if first.next.Good? {
        PlayedJoins(first.next.value, a[1..], b, sink);
        var rest := Played(first.next.value, a[1..], sink);
        if rest.next.Good? { Associates(first.emitted, rest.emitted, Played(rest.next.value, b, sink).emitted); }
      }
    }
  }

  lemma PlayedOneMore(s: State, packets: seq<Bytes>, packet: Bytes, sink: Sink)
    requires Played(s, packets, sink).next.Good?
    ensures var (before, step) := (Played(s, packets, sink), Processed(Played(s, packets, sink).next.value, packet, sink));
      Played(s, packets + [packet], sink) == step.(emitted := before.emitted + step.emitted)
  {
    hide Processed;
    var before := Played(s, packets, sink);
    PlayedJoins(s, packets, [packet], sink);
    var step := Processed(before.next.value, packet, sink);
    assert [packet][1..] == [] && step.emitted + [] == step.emitted;
    assert Played(before.next.value, [packet], sink) == step;
  }

  /** What happened in the front of a run stays: what was emitted, and a failure for good. */
  lemma PlayedInFront(s: State, a: seq<Bytes>, b: seq<Bytes>, sink: Sink)
    requires a <= b
    ensures Played(s, a, sink).next.Bad? ==> Played(s, b, sink) == Played(s, a, sink)
    ensures Played(s, a, sink).emitted <= Played(s, b, sink).emitted
  {
    hide Processed;
    assert b == a + b[|a|..];
    PlayedJoins(s, a, b[|a|..], sink);
  }
}
