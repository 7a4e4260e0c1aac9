/** What a stream says about its own tables: a reading of the packets of PID 0 and of the program map PIDs
    they announce, which depends on the stream alone. */
module StreamTables {
  import opened Basics
  import opened Mpegts
  import opened ProgramTables
  import opened TsFraming
  import opened RecordingPsi

  predicate WellFormed(packet: Bytes) { |packet| == PACKET_BYTES && ParseRecording(packet).Ok? }

  function PidOf(packet: Bytes): nat { if |packet| == PACKET_BYTES then Pid(packet) else 0 }

  function ContinuityOf(packet: Bytes): nat { if |packet| == PACKET_BYTES then Low4(packet[3]) else 0 }

  predicate Tei(packet: Bytes) { |packet| == PACKET_BYTES && packet[1] >= 128 }

  // ----- Facts about packets

  lemma PayloadIsNotEmpty(packet: Bytes)
    requires ParsePacket(packet).Ok? && ParsePacket(packet).value.hasPayload
    ensures ParsePacket(packet).value.payload != []
  {
  }

  lemma Bits13InRange(high: Byte, low: Byte)
    ensures Bits13(high, low) <= NULL_PID
  {
  }

  lemma {:induction false} ProgramsInRange(data: Bytes, pat: Pat)
    requires |data| % 4 == 0 && pat.pmtPid <= NULL_PID && ParsePrograms(data, pat).Ok?
    ensures ParsePrograms(data, pat).value.pmtPid <= NULL_PID
    decreases |data|
  {
    hide Bits13;
    if data != [] {
      var (program, pid) := (U16(data[0], data[1]), Bits13(data[2], data[3]));
      Bits13InRange(data[2], data[3]);
      if program == 0 {
        ProgramsInRange(data[4..], pat);
      } else {
        ProgramsInRange(data[4..], pat.(program := program, pmtPid := pid));
      }
    }
  }

  lemma PmtPidInRange(section: Bytes)
    requires ParsePat(section).Ok?
    ensures 0 < ParsePat(section).value.pmtPid <= 0x1ffe
  {
    hide ValidCrc;
    var empty := Pat(U16(section[3], section[4]), 0, 0, SectionVersion(section));
    ProgramsInRange(section[8..|section| - 4], empty);
  }

  lemma ParsedPid(packet: Bytes)
    requires ParsePacket(packet).Ok?
    ensures ParsePacket(packet).value.pid == Pid(packet)
  {
  }

  lemma ParsedFacts(packet: Bytes)
    requires |packet| == PACKET_BYTES && ParseRecording(packet).Ok?
    ensures var p := ParseRecording(packet).value;
      WellFormed(packet) && PidOf(packet) == p.pid && (p.hasPayload ==> p.payload != [])
  {
    hide ParsePacket;
    ParsedPid(WithoutTei(packet));
    if ParseRecording(packet).value.hasPayload { PayloadIsNotEmpty(WithoutTei(packet)); }
  }

  // ----- Tables

  /** The program map PIDs that a set of PAT sections announces. */
  function AnnouncedBy(pats: set<Bytes>): set<nat> {
    set s | s in pats && ParsePat(s).Ok? :: ParsePat(s).value.pmtPid
  }

  function DroppedIn(section: Bytes, captions: bool, data: bool): set<nat> {
    if ParsePmt(section).Ok? then
      DroppedPids(ParsePmt(section).value.streams, ParsePmt(section).value.pcrPid, captions, data)
    else {}
  }

  /** The PIDs of the streams that a set of PMT sections lists and a selection leaves out. */
  function DroppedBy(pmts: set<Bytes>, captions: bool, data: bool): set<nat> {
    set s, pid | s in pmts && pid in DroppedIn(s, captions, data) :: pid
  }

  lemma MoreTables(pats: set<Bytes>, more: set<Bytes>, pmts: set<Bytes>, others: set<Bytes>, captions: bool, data: bool)
    requires pats <= more && pmts <= others
    ensures AnnouncedBy(pats) <= AnnouncedBy(more) && DroppedBy(pmts, captions, data) <= DroppedBy(others, captions, data)
  {
    hide ParsePat, DroppedIn;
  }

  // ----- Reading the stream

  type Assembled = psi: Psi | psi.Valid() witness Zero

  /** The sections being assembled on PID 0 and on the program map PID, the latest program map PID, and
      every section that was completed on the two. */
  datatype Look = Look(
    generation: nat, pat: Assembled, pmt: Assembled, pmtPid: Option<nat>, pats: set<Bytes>, pmts: set<Bytes>)

  const NOTHING_SEEN := Look(0, Zero, Zero, None, {}, {})

  /** A resynchronisation: both assemblers start over. */
  function Turned(l: Look, generation: nat): Look {
    if l.generation == generation then l else l.(generation := generation, pat := Reset, pmt := Reset)
  }

  /** PAT sections: each names the program map PID, and a change of it starts the assembly of the map over. */
  function Announced(l: Look, sections: seq<Bytes>): Look {
    if sections == [] then l
    else
      var (before, section) := (Announced(l, sections[..|sections| - 1]), sections[|sections| - 1]);
      var pat := ParsePat(section);
      if pat.Err? then before
      else
        var pid := Some(pat.value.pmtPid);
        before.(pmt := if before.pmtPid == pid then before.pmt else Reset, pmtPid := pid, pats := before.pats + {section})
  }

  /** A malformed packet, or one with a transport error, breaks the assembly of its table. */
  function Broken(l: Look, pid: nat): Look {
    if pid == 0 then l.(pat := Reset) else if l.pmtPid == Some(pid) then l.(pmt := Reset) else l
  }

  function LookPacket(l: Look, packet: Bytes): Look
    requires |packet| == PACKET_BYTES
  {
    var (parsed, pid) := (ParseRecording(packet), PidOf(packet));
    if parsed.Err? then Broken(l, pid)
    else
      ParsedFacts(packet);
      if Tei(packet) then Broken(l, pid)
      else if pid == 0 then
        var fed := FedPacket(l.pat, packet, parsed.value);
        Announced(l.(pat := fed.psi), fed.sections)
      else if l.pmtPid == Some(pid) then
        var fed := FedPacket(l.pmt, packet, parsed.value);
        l.(pmt := fed.psi, pmts := l.pmts + set s | s in fed.sections)
      else l
  }

  function LookAt(l: Look, e: Emission): Look {
    if |e.packet| == PACKET_BYTES then LookPacket(Turned(l, e.generation), e.packet) else l
  }

  /** Everything a stream says about its tables. */
  function Looked(stream: seq<Emission>): Look {
    if stream == [] then NOTHING_SEEN else LookAt(Looked(stream[..|stream| - 1]), stream[|stream| - 1])
  }

  /** The PIDs that were ever announced as a program map, and those that ever lost their stream. */
  datatype Excluded = Excluded(announced: set<nat>, dropped: set<nat>)

  /** The PIDs that the PAT sections of a stream announce as program maps, and those of the streams that its
      program maps list and a selection leaves out. */
  function ExcludedBy(stream: seq<Emission>, captions: bool, data: bool): Excluded {
    Excluded(AnnouncedBy(Looked(stream).pats), DroppedBy(Looked(stream).pmts, captions, data))
  }

  lemma {:induction false} AnnouncedGrows(l: Look, sections: seq<Bytes>)
    ensures l.pats <= Announced(l, sections).pats && Announced(l, sections).pmts == l.pmts
    ensures Announced(l, sections).generation == l.generation && Announced(l, sections).pat == l.pat
    ensures forall s | s in sections && ParsePat(s).Ok? :: s in Announced(l, sections).pats
  {
    hide ParsePat;
    if sections != [] {
      AnnouncedGrows(l, sections[..|sections| - 1]);
      assert sections == sections[..|sections| - 1] + [sections[|sections| - 1]];
    }
  }

  lemma LookGrows(l: Look, packet: Bytes)
    requires |packet| == PACKET_BYTES
    ensures l.pats <= LookPacket(l, packet).pats && l.pmts <= LookPacket(l, packet).pmts
    ensures LookPacket(l, packet).generation == l.generation
  {
    hide FedPacket, ParseRecording, PidOf;
    if ParseRecording(packet).Ok? && !Tei(packet) && PidOf(packet) == 0 {
      ParsedFacts(packet);
      var fed := FedPacket(l.pat, packet, ParseRecording(packet).value);
      AnnouncedGrows(l.(pat := fed.psi), fed.sections);
    }
  }

  lemma OneMoreEmission(stream: seq<Emission>, e: Emission)
    ensures Looked(stream + [e]) == LookAt(Looked(stream), e)
  {
    assert (stream + [e])[..|stream|] == stream;
  }

  /** PAT sections that all name the known program map PID change nothing but the record of them. */
  lemma {:induction false} SamePidAnnounced(l: Look, sections: seq<Bytes>)
    requires forall s | s in sections :: ParsePat(s).Ok? && l.pmtPid == Some(ParsePat(s).value.pmtPid)
    ensures var a := Announced(l, sections); a.pmt == l.pmt && a.pmtPid == l.pmtPid
  {
    hide ParsePat;
    if sections != [] { SamePidAnnounced(l, sections[..|sections| - 1]); }
  }

  lemma RepeatIsNothing(psi: Psi, packet: Bytes, p: Packet)
    requires psi.Valid() && (p.hasPayload ==> p.payload != [])
    requires psi.known && p.continuity == psi.cc && !p.discontinuity && packet == psi.previous
    ensures FedPacket(psi, packet, p).psi == psi
  {
  }
}
