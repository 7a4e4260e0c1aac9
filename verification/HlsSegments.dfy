/** What live segments are made of: program clocks in a run of packets, boundaries at programme tables, and
    the segments between them (sections 2.4.2.2 and 2.4.3.5 of ISO/IEC 13818-1 for the clock). */
module HlsSegments {
  import opened Basics
  import opened Mpegts

  const WRAP := 0x2_0000_0000 * 300
  const CLOCK_HZ := 27_000_000
  const MINIMUM_TICKS := CLOCK_HZ
  const MAXIMUM_TICKS := 2 * CLOCK_HZ
  const MAXIMUM_SEGMENT := 32 * 1024 * 1024
  const SECOND := 1_000_000_000

  type Clock = c: nat | c < WRAP

  // ----- The program clock

  /** `ProgramClockDelta`: the way forward from one clock to another, across the wrap. */
  function Delta(previous: Clock, next: Clock): (d: nat)
    ensures d < WRAP && (previous + d) % WRAP == next
  {
    if next >= previous then next - previous else WRAP - previous + next
  }

  lemma FourByteNumber(b: Bytes)
    requires |b| == 4
    ensures Number(b) < 0x1_0000_0000
  {
    var (c, d, e) := (b[..3], b[..2], b[..1]);
    assert c[..2] == d && d[..1] == e && e[..0] == [];
    assert Number(e) == b[0] as int && Number(d) == Number(e) * 256 + b[1] && Number(c) == Number(d) * 256 + b[2];
  }

  lemma ClockInRange(packet: Bytes)
    ensures ParsePacket(packet).Ok? && ParsePacket(packet).value.clock.Some? ==> ParsePacket(packet).value.clock.value < WRAP
  {
    if ParsePacket(packet).Ok? && ParsePacket(packet).value.clock.Some? { FourByteNumber(packet[6..12][..4]); }
  }

  /** The clock that a packet carries for `pid`. */
  function ClockOf(packet: Bytes, pid: nat): Option<Clock> {
    var parsed := ParsePacket(packet);
    if parsed.Ok? && parsed.value.pid == pid && parsed.value.clock.Some? then
      ClockInRange(packet);
      Some(parsed.value.clock.value)
    else None
  }

  /** The clocks of `pid` in a run of packets. */
  function Clocks(data: Bytes, pid: nat): seq<Clock> {
    if |data| < PACKET_BYTES then []
    else
      var (front, packet) := (data[..|data| - PACKET_BYTES], data[|data| - PACKET_BYTES..]);
      match ClockOf(packet, pid)
      case None => Clocks(front, pid)
      case Some(c) => Clocks(front, pid) + [c]
  }

  predicate Advances(a: Clock, b: Clock) { 0 < Delta(a, b) <= MAXIMUM_TICKS }

  /** Every clock is ahead of the one before by two seconds at most. */
  predicate Steady(clocks: seq<Clock>) { forall i | 0 < i < |clocks| :: Advances(clocks[i - 1], clocks[i]) }

  lemma ClocksOfOneMore(data: Bytes, packet: Bytes, pid: nat)
    requires |packet| == PACKET_BYTES
    ensures Clocks(data + packet, pid) ==
      if ClockOf(packet, pid).Some? then Clocks(data, pid) + [ClockOf(packet, pid).value] else Clocks(data, pid)
  {
    hide ClockOf;
    var all := data + packet;
    assert all[..|all| - PACKET_BYTES] == data && all[|all| - PACKET_BYTES..] == packet;
  }

  /** What is in front stays in front. */
  lemma {:induction false} ClocksInFront(data: Bytes, n: nat, pid: nat)
    requires n <= |data| && (|data| - n) % PACKET_BYTES == 0
    ensures Clocks(data[..n], pid) <= Clocks(data, pid)
  {
    hide ClockOf;
    if n < |data| {
      var front := data[..|data| - PACKET_BYTES];
      ClocksInFront(front, n, pid);
      assert front[..n] == data[..n];
    } else {
      assert data[..n] == data;
    }
  }

  lemma SteadyInFront(a: seq<Clock>, b: seq<Clock>)
    requires a <= b && Steady(b)
    ensures Steady(a)
  {
    forall i | 0 < i < |a| ensures Advances(a[i - 1], a[i]) {
      assert a[i - 1] == b[i - 1] && a[i] == b[i];
    }
  }

  // ----- Packets

  function PacketAt(data: Bytes, offset: nat): Bytes
    requires offset + PACKET_BYTES <= |data|
  {
    data[offset..offset + PACKET_BYTES]
  }

  /** A packet with which a programme association table starts. */
  predicate StartsTable(packet: Bytes) {
    ParsePacket(packet).Ok? && ParsePacket(packet).value.pid == 0 && ParsePacket(packet).value.start
  }

  predicate Discontinuous(packet: Bytes) { ParsePacket(packet).Ok? && ParsePacket(packet).value.discontinuity }

  /** No packet from one offset to another says that there is a discontinuity. */
  ghost predicate Quiet(data: Bytes, from: nat, to: nat) {
    forall o | from <= o && o + PACKET_BYTES <= to && o + PACKET_BYTES <= |data| && o % PACKET_BYTES == 0 ::
      !Discontinuous(PacketAt(data, o))
  }

  // ----- Boundaries and segments

  datatype Boundary = Boundary(
    clock: Clock, patVersion: nat, pmtVersion: nat, program: nat, pmtPid: nat, pcrPid: nat, videoPid: nat,
    videoKind: nat, discontinuity: bool)

  /** `hlsBoundaryChanged`. */
  predicate Changed(a: Boundary, b: Boundary) {
    || a.patVersion != b.patVersion || a.pmtVersion != b.pmtVersion || a.program != b.program || a.pmtPid != b.pmtPid
    || a.pcrPid != b.pcrPid || a.videoPid != b.videoPid || a.videoKind != b.videoKind
  }

  datatype Segment = Segment(sequence: nat, data: Bytes, duration: nat, discontinuity: bool)

  /** Where in the input a boundary was. */
  datatype Mark = Mark(offset: nat, boundary: Boundary)

  /** Every packet so far, the boundaries accepted in it, and the segments emitted. */
  datatype History = History(input: Bytes, marks: seq<Mark>, segments: seq<Segment>)

  function Ticks(a: Mark, b: Mark): nat { Delta(a.boundary.clock, b.boundary.clock) }

  /** A boundary is where a table starts, and its clock is the first one of its clock PID from there on. */
  ghost predicate MarkHolds(input: Bytes, m: Mark) {
    && m.offset % PACKET_BYTES == 0 && m.offset + PACKET_BYTES <= |input|
    && StartsTable(PacketAt(input, m.offset))
    && |Clocks(input[m.offset..], m.boundary.pcrPid)| > 0
    && Clocks(input[m.offset..], m.boundary.pcrPid)[0] == m.boundary.clock
  }

  /** The discontinuity flag of a boundary: its first packet says so, or the tables changed. */
  ghost predicate MarkFollows(input: Bytes, a: Mark, b: Mark)
    requires b.offset + PACKET_BYTES <= |input|
  {
    && a.offset < b.offset
    && (b.boundary.discontinuity <==> Discontinuous(PacketAt(input, b.offset)) || Changed(a.boundary, b.boundary))
  }

  /** A segment is what lies between two boundaries. Its duration, one to two seconds, is the difference of
      their clocks; inside it the clock is steady and nothing says that it jumps. */
  ghost predicate SegmentHolds(input: Bytes, sequence: nat, s: Segment, a: Mark, b: Mark)
    requires a.offset <= b.offset <= |input|
  {
    && s.sequence == sequence && s.data == input[a.offset..b.offset] && 0 < |s.data| <= MAXIMUM_SEGMENT
    && MINIMUM_TICKS <= Ticks(a, b) <= MAXIMUM_TICKS && s.duration == Ticks(a, b) * SECOND / CLOCK_HZ
    && SECOND <= s.duration <= 2 * SECOND
    && s.discontinuity == a.boundary.discontinuity
    && Steady(Clocks(s.data, a.boundary.pcrPid)) && Quiet(s.data, PACKET_BYTES, |s.data|)
  }

  ghost predicate MarksHold(h: History) {
    && (forall i | 0 <= i < |h.marks| :: MarkHolds(h.input, h.marks[i]))
    && (forall i | 0 < i < |h.marks| :: MarkFollows(h.input, h.marks[i - 1], h.marks[i]))
    && (|h.marks| > 0 ==> !h.marks[0].boundary.discontinuity)
  }

  ghost predicate Faithful(h: History) {
    && |h.input| % PACKET_BYTES == 0 && MarksHold(h)
    && |h.segments| == (if h.marks == [] then 0 else |h.marks| - 1)
    && (forall i | 0 <= i < |h.segments| :: SegmentHolds(h.input, i, h.segments[i], h.marks[i], h.marks[i + 1]))
  }

  /** What is held back: everything since the last boundary. */
  function Held(h: History): Bytes
    requires h.marks != [] ==> h.marks[|h.marks| - 1].offset <= |h.input|
  {
    if h.marks == [] then h.input else h.input[h.marks[|h.marks| - 1].offset..]
  }

  // ----- More input

  lemma FirstClockStays(data: Bytes, packet: Bytes, pid: nat)
    requires |packet| == PACKET_BYTES && |Clocks(data, pid)| > 0
    ensures |Clocks(data + packet, pid)| > 0 && Clocks(data + packet, pid)[0] == Clocks(data, pid)[0]
  {
    ClocksOfOneMore(data, packet, pid);
  }

  lemma MarkStays(input: Bytes, packet: Bytes, m: Mark)
    requires |packet| == PACKET_BYTES && MarkHolds(input, m)
    ensures MarkHolds(input + packet, m) && PacketAt(input + packet, m.offset) == PacketAt(input, m.offset)
  {
    hide Clocks, StartsTable;
    assert PacketAt(input + packet, m.offset) == PacketAt(input, m.offset);
    assert (input + packet)[m.offset..] == input[m.offset..] + packet;
    FirstClockStays(input[m.offset..], packet, m.boundary.pcrPid);
  }

  lemma HistoryStays(h: History, packet: Bytes)
    requires Faithful(h) && |packet| == PACKET_BYTES
    ensures Faithful(h.(input := h.input + packet))
    ensures Held(h.(input := h.input + packet)) == Held(h) + packet
  {
    hide Steady, Clocks, Quiet, Ticks, MarkHolds, Discontinuous, Changed;
    var g := h.(input := h.input + packet);
    forall i | 0 <= i < |h.marks| ensures MarkHolds(g.input, g.marks[i]) && h.marks[i].offset + PACKET_BYTES <= |h.input| {
      MarkInside(h.input, h.marks[i]);
      MarkStays(h.input, packet, h.marks[i]);
    }
    forall i | 0 < i < |h.marks| ensures MarkFollows(g.input, g.marks[i - 1], g.marks[i]) {
      MarkStays(h.input, packet, h.marks[i]);
    }
    forall i | 0 <= i < |h.segments| ensures SegmentHolds(g.input, i, g.segments[i], g.marks[i], g.marks[i + 1]) {
      assert g.input[g.marks[i].offset..g.marks[i + 1].offset] == h.input[h.marks[i].offset..h.marks[i + 1].offset];
    }
  }

  lemma MarkInside(input: Bytes, m: Mark)
    requires MarkHolds(input, m)
    ensures m.offset + PACKET_BYTES <= |input|
  {
  }

  // ----- One more boundary

  lemma FirstMark(h: History, m: Mark)
    requires Faithful(h) && h.marks == [] && MarkHolds(h.input, m) && !m.boundary.discontinuity
    ensures Faithful(h.(marks := [m])) && Held(h.(marks := [m])) == h.input[m.offset..]
  {
    hide MarkHolds;
    MarkInside(h.input, m);
  }

  lemma NextMark(h: History, s: Segment, m: Mark)
    requires Faithful(h) && h.marks != [] && MarkHolds(h.input, m)
    requires m.offset + PACKET_BYTES <= |h.input| && MarkFollows(h.input, h.marks[|h.marks| - 1], m)
    requires SegmentHolds(h.input, |h.segments|, s, h.marks[|h.marks| - 1], m)
    ensures var g := h.(marks := h.marks + [m], segments := h.segments + [s]);
      Faithful(g) && Held(g) == h.input[m.offset..]
  {
    hide MarkHolds, MarkFollows, SegmentHolds;
    var g := h.(marks := h.marks + [m], segments := h.segments + [s]);
    forall i | 0 <= i < |g.marks| ensures MarkHolds(g.input, g.marks[i]) {
      if i < |h.marks| { assert g.marks[i] == h.marks[i]; }
    }
  }

  // ----- What a history means

  function Joined(segments: seq<Segment>): Bytes {
    if segments == [] then [] else Joined(segments[..|segments| - 1]) + segments[|segments| - 1].data
  }

  function TotalTicks(marks: seq<Mark>): nat {
    if |marks| < 2 then 0 else TotalTicks(marks[..|marks| - 1]) + Ticks(marks[|marks| - 2], marks[|marks| - 1])
  }

  lemma ShorterHistory(h: History)
    requires Faithful(h) && |h.marks| >= 2
    ensures Faithful(h.(marks := h.marks[..|h.marks| - 1], segments := h.segments[..|h.segments| - 1]))
  {
    hide MarkHolds, MarkFollows, SegmentHolds;
  }

  lemma LastSegment(h: History, g: History)
    requires Faithful(h) && |h.marks| >= 2
    requires g == h.(marks := h.marks[..|h.marks| - 1], segments := h.segments[..|h.segments| - 1])
    ensures Faithful(g) && h.marks[|h.marks| - 1].offset <= |h.input| && g.marks[|g.marks| - 1].offset <= |h.input|
    ensures Held(g) == h.segments[|h.segments| - 1].data + Held(h)
  {
    hide MarkHolds;
    var n := |h.marks|;
    ShorterHistory(h);
    MarkInside(h.input, h.marks[n - 1]);
    MarkInside(h.input, h.marks[n - 2]);
    assert MarkFollows(h.input, h.marks[n - 2], h.marks[n - 1]);
    assert SegmentHolds(h.input, n - 2, h.segments[n - 2], h.marks[n - 2], h.marks[n - 1]);
  }

  /** No byte is lost or doubled: what came before the first boundary, the segments in order, and what is
      held are the input. */
  lemma {:induction false} NothingIsLost(h: History)
    requires Faithful(h) && h.marks != []
    ensures h.marks[0].offset <= |h.input| && h.marks[|h.marks| - 1].offset <= |h.input|
    ensures h.input == h.input[..h.marks[0].offset] + Joined(h.segments) + Held(h)
    decreases |h.marks|
  {
    if |h.marks| >= 2 {
      var g := h.(marks := h.marks[..|h.marks| - 1], segments := h.segments[..|h.segments| - 1]);
      LastSegment(h, g);
      NothingIsLost(g);
      hide Faithful, Held;
      var (first, s) := (h.input[..h.marks[0].offset], h.segments[|h.segments| - 1].data);
      Associates(first + Joined(g.segments), s, Held(h));
      Associates(first, Joined(g.segments), s);
    } else {
      MarkInside(h.input, h.marks[0]);
    }
  }

  lemma AddsUp(a: nat, b: nat, c: nat)
    ensures ((a + b) % WRAP + c) % WRAP == (a + b + c) % WRAP
  {
    var x := (a + b) % WRAP;
    var (q, p) := ((a + b) / WRAP, (x + c) / WRAP);
    assert a + b == WRAP * q + x;
    assert x + c == WRAP * p + (x + c) % WRAP;
    assert a + b + c == WRAP * (q + p) + (x + c) % WRAP;
  }

  /** The ticks of all segments add up to the way from the first clock to the last, modulo the wrap. */
  lemma {:induction false} TicksTelescope(marks: seq<Mark>)
    requires marks != []
    ensures (marks[0].boundary.clock + TotalTicks(marks)) % WRAP == marks[|marks| - 1].boundary.clock
  {
    var n := |marks|;
    if n >= 2 {
      var front := marks[..n - 1];
      TicksTelescope(front);
      AddsUp(marks[0].boundary.clock, TotalTicks(front), Ticks(marks[n - 2], marks[n - 1]));
    }
  }
}
