/** Checking a segment before it is published: it must be playable on its own. */
module HlsValidation {
  import opened Basics
  import opened HlsSegments
  import opened Mpegts
  import opened ProgramTables
  import PsiCollector

  datatype Reason =
    | TsSyncUnavailable | PsiInvalid | SingleProgramRequired | VideoUnsupported | RandomAccessUnavailable
    | TimestampInvalid | SessionEnded | EmitRefused(code: nat)

  datatype Checked<T> = Good(value: T) | Bad(reason: Reason)

  // ----- The version tracker

  datatype Adopted = Adopted(version: nat, section: Bytes)
  type Tracker = Option<Adopted>

  /** `VersionTracker.Accept`: the next tracker and whether the table changed; None if the version is the
      same and the content is not. */
  function Accept(t: Tracker, version: nat, section: Bytes): (r: Option<(Tracker, bool)>)
    ensures r.Some? ==> r.value.0 == Some(Adopted(version, section))
    ensures r.Some? ==> (!r.value.1 <==> t == r.value.0)
  {
    if version > 31 || section == [] then None
    else if t.Some? && t.value.version == version then
      if t.value.section != section then None else Some((t, false))
    else Some((Some(Adopted(version, section)), true))
  }

  // ----- The one video stream

  predicate Unsupported(kind: int) { kind == 0x01 || kind == 0x10 || kind == 0x24 || kind == 0x33 }
  predicate Video(kind: int) { kind == 0x02 || kind == 0x1b }

  function SelectFrom(streams: seq<Stream>, pid: nat, kind: nat): Checked<(nat, nat)> {
    if streams == [] then (if pid == 0 then Bad(VideoUnsupported) else Good((pid, kind)))
    else if Unsupported(streams[0].kind) then Bad(VideoUnsupported)
    else if !Video(streams[0].kind) then SelectFrom(streams[1..], pid, kind)
    else if pid != 0 then Bad(SingleProgramRequired)
    else SelectFrom(streams[1..], streams[0].pid, streams[0].kind)
  }

  /** `selectHLSVideo`. */
  function SelectVideo(streams: seq<Stream>): Checked<(nat, nat)> { SelectFrom(streams, 0, 0) }

  function Videos(streams: seq<Stream>): seq<Stream> {
    if streams == [] then []
    else if Video(streams[0].kind) then [streams[0]] + Videos(streams[1..])
    else Videos(streams[1..])
  }

  lemma {:induction false} SelectsFromExactly(streams: seq<Stream>, pid: nat, kind: nat)
    requires forall s | s in streams :: s.pid != 0
    ensures SelectFrom(streams, pid, kind).Good? <==>
      (forall s | s in streams :: !Unsupported(s.kind)) && |Videos(streams)| + (if pid == 0 then 0 else 1) == 1
    ensures SelectFrom(streams, pid, kind).Good? ==>
      SelectFrom(streams, pid, kind).value ==
        if pid != 0 then (pid, kind) else (Videos(streams)[0].pid, Videos(streams)[0].kind)
  {
    if streams != [] {
      var (s, rest) := (streams[0], streams[1..]);
      assert streams == [s] + rest;
      if !Unsupported(s.kind) {
        if Video(s.kind) { SelectsFromExactly(rest, s.pid, s.kind); } else { SelectsFromExactly(rest, pid, kind); }
      }
    }
  }

  /** The video is found exactly if there is one MPEG-2 or H.264 stream and no stream of an unsupported kind. */
  lemma SelectsExactly(streams: seq<Stream>)
    requires forall s | s in streams :: s.pid != 0
    ensures SelectVideo(streams).Good? <==> (forall s | s in streams :: !Unsupported(s.kind)) && |Videos(streams)| == 1
    ensures SelectVideo(streams).Good? ==> SelectVideo(streams).value == (Videos(streams)[0].pid, Videos(streams)[0].kind)
  {
    SelectsFromExactly(streams, 0, 0);
  }

  // ----- The examination

  type Assembly = s: PsiCollector.State | s.Valid() witness PsiCollector.State(None, [], 0, None)

  const NOTHING_ASSEMBLED: Assembly := PsiCollector.State(None, [], 0, None)

  datatype Exam = Exam(
    pats: Assembly, pmts: Assembly, patTracker: Tracker, pmtTracker: Tracker,
    pat: Option<Pat>, pmt: Option<Pmt>, seen: bool, access: bool)

  const NO_EXAM := Exam(NOTHING_ASSEMBLED, NOTHING_ASSEMBLED, None, None, None, None, false, false)

  function AdoptPats(e: Exam, sections: seq<Bytes>): Checked<Exam>
    decreases |sections|
  {
    if sections == [] then Good(e)
    else
      var parsed := ParsePat(sections[0]);
      if parsed.Err? then Bad(PsiInvalid)
      else
        var tracked := Accept(e.patTracker, parsed.value.version, sections[0]);
        if tracked.None? || (e.pat.Some? && tracked.value.1) then Bad(PsiInvalid)
        else AdoptPats(e.(patTracker := tracked.value.0, pat := Some(parsed.value)), sections[1..])
  }

  function AdoptPmts(e: Exam, sections: seq<Bytes>): Checked<Exam>
    decreases |sections|
  {
    if sections == [] then Good(e)
    else
      var parsed := ParsePmt(sections[0]);
      if parsed.Err? || e.pat.None? || parsed.value.program != e.pat.value.program then Bad(PsiInvalid)
      else
        var tracked := Accept(e.pmtTracker, parsed.value.version, sections[0]);
        if tracked.None? || (e.pmt.Some? && tracked.value.1) then Bad(PsiInvalid)
        else AdoptPmts(e.(pmtTracker := tracked.value.0, pmt := Some(parsed.value)), sections[1..])
  }

  function ExaminePat(e: Exam, packet: Bytes, p: Packet): Checked<Exam> {
    if p.pid != 0 then Good(e)
    else
      var fed := PsiCollector.Fed(e.pats, packet);
      if fed.Err? then Bad(PsiInvalid) else AdoptPats(e.(pats := fed.value.0), fed.value.1)
  }

  function ExaminePmt(e: Exam, packet: Bytes, p: Packet): Checked<Exam> {
    if e.pat.None? || p.pid != e.pat.value.pmtPid then Good(e)
    else
      var fed := PsiCollector.Fed(e.pmts, packet);
      if fed.Err? then Bad(PsiInvalid) else AdoptPmts(e.(pmts := fed.value.0), fed.value.1)
  }

  /** The start of a PES packet. */
  predicate StartsPes(p: Packet) { p.start && [0, 0, 1] <= p.payload }

  function ExamineVideo(e: Exam, p: Packet): Checked<Exam> {
    if e.pmt.None? then Good(e)
    else
      var video := SelectVideo(e.pmt.value.streams);
      if video.Bad? then Bad(video.reason)
      else if p.pid != video.value.0 then Good(e)
      else
        var seen := e.seen || p.randomAccess;
        Good(e.(seen := seen, access := e.access || (StartsPes(p) && seen)))
  }

  function ExaminePacket(e: Exam, packet: Bytes, first: bool): Checked<Exam> {
    var parsed := ParsePacket(packet);
    if parsed.Err? then Bad(TsSyncUnavailable)
    else if parsed.value.discontinuity && !first then Bad(TimestampInvalid)
    else
      var pat := ExaminePat(e, packet, parsed.value);
      if pat.Bad? then pat
      else
        var pmt := ExaminePmt(pat.value, packet, parsed.value);
        if pmt.Bad? then pmt else ExamineVideo(pmt.value, parsed.value)
  }

  /** The examination of the first `n` packets. */
  function Examined(data: Bytes, n: nat): Checked<Exam>
    requires n * PACKET_BYTES <= |data|
  {
    if n == 0 then Good(NO_EXAM)
    else
      var e := Examined(data, n - 1);
      if e.Bad? then e else ExaminePacket(e.value, PacketAt(data, (n - 1) * PACKET_BYTES), n == 1)
  }

  predicate Passed(e: Exam) {
    e.pats.section == [] && e.pmts.section == [] && e.pat.Some? && e.pmt.Some? && e.access
  }

  /** The check passes. */
  predicate Validated(data: Bytes) {
    && 0 < |data| <= MAXIMUM_SEGMENT && |data| % PACKET_BYTES == 0
    && Examined(data, |data| / PACKET_BYTES).Good? && Passed(Examined(data, |data| / PACKET_BYTES).value)
  }

  lemma {:induction false} ReasonStays(data: Bytes, m: nat, n: nat)
    requires m <= n && n * PACKET_BYTES <= |data| && Examined(data, m).Bad?
    ensures Examined(data, n) == Examined(data, m)
  {
    hide ExaminePacket;
    if m < n { ReasonStays(data, m, n - 1); }
  }

  method ExamineAll(data: Bytes, count: nat) returns (r: Checked<Exam>)
    requires count * PACKET_BYTES <= |data|
    ensures r == Examined(data, count)
  {
    hide ExaminePacket;
    r := Good(NO_EXAM);
    var n := 0;
    while n < count
      invariant n <= count && r.Good? && r == Examined(data, n)
    {
      r := ExaminePacket(r.value, PacketAt(data, n * PACKET_BYTES), n == 0);
      n := n + 1;
      if r.Bad? {
        ReasonStays(data, n, count);
        return;
      }
    }
  }

  /** `validateHLSSegment`: the reason why a segment is refused, if any. */
  method ValidateSegment(data: Bytes) returns (r: Option<Reason>)
    ensures r == Refusal(data) && (r.None? <==> Validated(data))
  {
    hide Examined, Passed, Verdict;
    if data == [] || |data| % PACKET_BYTES != 0 || |data| > MAXIMUM_SEGMENT { return Some(RandomAccessUnavailable); }
    var e := ExamineAll(data, |data| / PACKET_BYTES);
    r := if e.Bad? then Some(e.reason) else Verdict(e.value);
  }

  function Verdict(e: Exam): (r: Option<Reason>)
    ensures r.None? <==> Passed(e)
  {
    if e.pats.section != [] || e.pmts.section != [] then Some(PsiInvalid)
    else if e.pat.None? || e.pmt.None? || !e.access then Some(RandomAccessUnavailable)
    else None
  }

  function Refusal(data: Bytes): (r: Option<Reason>)
    ensures r.None? <==> Validated(data)
  {
    hide Examined, Passed, Verdict;
    if data == [] || |data| % PACKET_BYTES != 0 || |data| > MAXIMUM_SEGMENT then Some(RandomAccessUnavailable)
    else
      var e := Examined(data, |data| / PACKET_BYTES);
      if e.Bad? then Some(e.reason) else Verdict(e.value)
  }

  // ----- What passing means

  /** The tracker remembers the section its table was read from. */
  ghost predicate Remembers(e: Exam) {
    e.pmt.Some? ==> e.pmtTracker.Some? && ParsePmt(e.pmtTracker.value.section) == Ok(e.pmt.value)
  }

  lemma {:induction false} PmtStays(e: Exam, sections: seq<Bytes>)
    requires Remembers(e) && AdoptPmts(e, sections).Good?
    ensures Remembers(AdoptPmts(e, sections).value)
    ensures e.pmt.Some? ==> AdoptPmts(e, sections).value.pmt == e.pmt
    ensures AdoptPmts(e, sections).value.access == e.access && AdoptPmts(e, sections).value.seen == e.seen
    decreases |sections|
  {
    if sections != [] {
      hide ParsePmt;
      var parsed := ParsePmt(sections[0]);
      var tracked := Accept(e.pmtTracker, parsed.value.version, sections[0]);
      PmtStays(e.(pmtTracker := tracked.value.0, pmt := Some(parsed.value)), sections[1..]);
    }
  }

  lemma {:induction false} PatsLeave(e: Exam, sections: seq<Bytes>)
    requires AdoptPats(e, sections).Good?
    ensures var r := AdoptPats(e, sections).value;
      r.pmt == e.pmt && r.pmtTracker == e.pmtTracker && r.access == e.access && r.seen == e.seen
    decreases |sections|
  {
    hide ParsePat;
    if sections != [] {
      var parsed := ParsePat(sections[0]);
      var tracked := Accept(e.patTracker, parsed.value.version, sections[0]);
      PatsLeave(e.(patTracker := tracked.value.0, pat := Some(parsed.value)), sections[1..]);
    }
  }

  lemma TablesStay(e: Exam, packet: Bytes, p: Packet)
    requires Remembers(e) && ExaminePat(e, packet, p).Good?
    requires ExaminePmt(ExaminePat(e, packet, p).value, packet, p).Good?
    ensures var r := ExaminePmt(ExaminePat(e, packet, p).value, packet, p).value;
      Remembers(r) && (e.pmt.Some? ==> r.pmt == e.pmt) && r.access == e.access && r.seen == e.seen
  {
    hide PsiCollector.Fed, AdoptPats, AdoptPmts, ParsePmt;
    var mid := ExaminePat(e, packet, p).value;
    if p.pid == 0 {
      var fed := PsiCollector.Fed(e.pats, packet);
      PatsLeave(e.(pats := fed.value.0), fed.value.1);
    }
    assert Remembers(mid);
    if mid.pat.Some? && p.pid == mid.pat.value.pmtPid {
      var fed := PsiCollector.Fed(mid.pmts, packet);
      PmtStays(mid.(pmts := fed.value.0), fed.value.1);
    }
  }

  function VideoPid(pmt: Pmt): nat {
    if SelectVideo(pmt.streams).Good? then SelectVideo(pmt.streams).value.0 else 0
  }

  /** The packet at an offset belongs to the video of the table. */
  ghost predicate VideoPacket(data: Bytes, o: nat, pmt: Pmt)
    requires o + PACKET_BYTES <= |data|
  {
    && o % PACKET_BYTES == 0 && ParsePacket(PacketAt(data, o)).Ok?
    && ParsePacket(PacketAt(data, o)).value.pid == VideoPid(pmt)
  }

  ghost predicate AccessAt(data: Bytes, o: nat, pmt: Pmt)
    requires o + PACKET_BYTES <= |data|
  {
    VideoPacket(data, o, pmt) && ParsePacket(PacketAt(data, o)).value.randomAccess
  }

  ghost predicate PesAt(data: Bytes, o: nat, pmt: Pmt)
    requires o + PACKET_BYTES <= |data|
  {
    VideoPacket(data, o, pmt) && StartsPes(ParsePacket(PacketAt(data, o)).value)
  }

  ghost predicate SeenBy(data: Bytes, to: nat, pmt: Pmt)
    requires to <= |data|
  {
    exists o :: 0 <= o && o + PACKET_BYTES <= to && AccessAt(data, o, pmt)
  }

  /** A picture a player can start with: a video packet marked for random access, and with it or after it the
      start of a PES packet. */
  ghost predicate Startable(data: Bytes, to: nat, pmt: Pmt)
    requires to <= |data|
  {
    exists a, o :: 0 <= a <= o && o + PACKET_BYTES <= to && AccessAt(data, a, pmt) && PesAt(data, o, pmt)
  }

  /** What one packet may add to an examination. */
  ghost predicate Stepped(was: Exam, e: Exam, packet: Bytes, first: bool) {
    && ParsePacket(packet).Ok? && (Discontinuous(packet) ==> first) && Remembers(e)
    && (was.pmt.Some? ==> e.pmt == was.pmt)
    && (e.seen && !was.seen ==>
          e.pmt.Some? && ParsePacket(packet).value.pid == VideoPid(e.pmt.value) && ParsePacket(packet).value.randomAccess)
    && (e.access && !was.access ==>
          e.pmt.Some? && ParsePacket(packet).value.pid == VideoPid(e.pmt.value) && StartsPes(ParsePacket(packet).value) && e.seen)
  }

  lemma ExamSteps(was: Exam, packet: Bytes, first: bool)
    requires Remembers(was) && ExaminePacket(was, packet, first).Good?
    ensures Stepped(was, ExaminePacket(was, packet, first).value, packet, first)
  {
    hide ParsePacket, ExaminePat, ExaminePmt, SelectVideo, Remembers, StartsPes;
    var p := ParsePacket(packet).value;
    TablesStay(was, packet, p);
    var mid := ExaminePmt(ExaminePat(was, packet, p).value, packet, p).value;
    SameMemory(mid, ExaminePacket(was, packet, first).value);
  }

  lemma SeenGrows(data: Bytes, before: nat, to: nat, was: Exam, e: Exam)
    requires before % PACKET_BYTES == 0
    requires before + PACKET_BYTES == to <= |data| && Stepped(was, e, PacketAt(data, before), before == 0)
    requires was.seen ==> was.pmt.Some? && SeenBy(data, before, was.pmt.value)
    ensures e.seen ==> e.pmt.Some? && SeenBy(data, to, e.pmt.value)
  {
    hide ParsePacket, StartsPes, VideoPid, Remembers;
    if e.seen && !was.seen { assert AccessAt(data, before, e.pmt.value); }
  }

  lemma AccessGrows(data: Bytes, before: nat, to: nat, was: Exam, e: Exam)
    requires before % PACKET_BYTES == 0
    requires before + PACKET_BYTES == to <= |data| && Stepped(was, e, PacketAt(data, before), before == 0)
    requires was.access ==> was.pmt.Some? && Startable(data, before, was.pmt.value)
    requires e.seen ==> e.pmt.Some? && SeenBy(data, to, e.pmt.value)
    ensures e.access ==> e.pmt.Some? && Startable(data, to, e.pmt.value)
  {
    hide ParsePacket, StartsPes, VideoPid, Remembers, AccessAt;
    if e.access && !was.access {
      assert PesAt(data, before, e.pmt.value);
      var a :| 0 <= a && a + PACKET_BYTES <= to && AccessAt(data, a, e.pmt.value);
      assert a <= before;
    }
  }

  lemma QuietGrows(data: Bytes, before: nat, to: nat)
    requires before % PACKET_BYTES == 0 && before + PACKET_BYTES == to <= |data| && Quiet(data, PACKET_BYTES, before)
    requires Discontinuous(PacketAt(data, before)) ==> before == 0
    ensures Quiet(data, PACKET_BYTES, to)
  {
    hide Discontinuous;
  }

  lemma {:induction false} ExamMeans(data: Bytes, n: nat)
    requires n * PACKET_BYTES <= |data| && Examined(data, n).Good?
    ensures var (e, to) := (Examined(data, n).value, n * PACKET_BYTES);
      && Remembers(e) && Quiet(data, PACKET_BYTES, to)
      && (e.seen ==> e.pmt.Some? && SeenBy(data, to, e.pmt.value))
      && (e.access ==> e.pmt.Some? && Startable(data, to, e.pmt.value))
  {
    hide ExaminePacket, Stepped, SeenBy, Startable, Remembers, Quiet;
    if n == 0 {
      NothingRemembered();
    } else {
      ExamMeans(data, n - 1);
      var (was, e, before) := (Examined(data, n - 1).value, Examined(data, n).value, (n - 1) * PACKET_BYTES);
      ExamSteps(was, PacketAt(data, before), before == 0);
      StepOf(was, e, PacketAt(data, before), before == 0);
      SeenGrows(data, before, n * PACKET_BYTES, was, e);
      AccessGrows(data, before, n * PACKET_BYTES, was, e);
      QuietGrows(data, before, n * PACKET_BYTES);
    }
  }

  lemma StepOf(was: Exam, e: Exam, packet: Bytes, first: bool)
    requires Stepped(was, e, packet, first)
    ensures (Discontinuous(packet) ==> first) && Remembers(e)
  {
  }

  /** A segment that passes says nothing of a discontinuity after its first packet, and one programme table
      holds throughout, whose video has a picture to start with. */
  lemma ValidatedIsPlayable(data: Bytes) returns (pmt: Pmt)
    requires Validated(data)
    ensures Quiet(data, PACKET_BYTES, |data|) && Startable(data, |data|, pmt)
  {
    hide Examined, Quiet, Startable, Remembers;
    ExamMeans(data, |data| / PACKET_BYTES);
    pmt := Examined(data, |data| / PACKET_BYTES).value.pmt.value;
  }

  lemma NothingRemembered()
    ensures Remembers(NO_EXAM) && Quiet([], PACKET_BYTES, 0) && forall data: Bytes :: Quiet(data, PACKET_BYTES, 0)
  {
  }

  lemma SameMemory(a: Exam, b: Exam)
    requires a.pmt == b.pmt && a.pmtTracker == b.pmtTracker
    ensures Remembers(a) == Remembers(b)
  {
  }
}
