/** The PSI assembler of a recording: it holds at most 1,024 bytes, tells repeated packets from lost ones,
    checks the CRC and starts over after every fault. */
module RecordingPsi {
  import opened Basics
  import opened Mpegts
  import opened ProgramTables

  const MAX_HELD := 1024

  datatype Issue = NoIssue | Continuity | Crc | Structure | Limit

  /** The fields of a `recordingPSI` as a value; `used` is the length of the section held. */
  datatype Psi = Psi(section: Bytes, want: nat, previous: Bytes, cc: nat, known: bool, waiting: bool)
  {
    predicate Valid() { Holds(section, want) }
  }

  const Zero := Psi([], 0, [], 0, false, false)
  const Reset := Zero.(waiting := true)

  function AllStuffing(data: Bytes): bool { forall i | 0 <= i < |data| :: data[i] == 0xff }

  // ----- Appending

  datatype Appended = Whole(completed: Bytes, rest: Bytes) | Held(section: Bytes, want: nat) | Bad(issue: Issue)

  predicate Holds(section: Bytes, want: nat) {
    (want == 0 ==> |section| < 3) && (want > 0 ==> 3 <= |section| < want && 12 <= want <= MAX_HELD)
  }

  /** Three bytes give the length; the rest follows up to it. */
  function Append(section: Bytes, want: nat, data: Bytes): (r: Appended)
    requires Holds(section, want)
    ensures r.Whole? ==> |r.rest| < |data| && 12 <= |r.completed| <= MAX_HELD && ValidCrc(r.completed)
    ensures r.Held? ==> Holds(r.section, r.want)
    ensures r.Bad? ==> !r.issue.NoIssue?
    decreases |data|
  {
    if data == [] then Held(section, want)
    else
      var target := if want > 0 then want else 3;
      var count := if |data| < target - |section| then |data| else target - |section|;
      var grown, rest := section + data[..count], data[count..];
      var length := if |grown| == 3 && want == 0 then 3 + Bits12(grown[1], grown[2]) else want;
      if |grown| == 3 && want == 0 && length > MAX_HELD then Bad(Limit)
      else if |grown| == 3 && want == 0 && length < 12 then Bad(Structure)
      else if length > 0 && |grown| == length then
        if ValidCrc(grown) then Whole(grown, rest) else Bad(Crc)
      else Append(grown, length, rest)
  }

  // ----- One packet

  datatype Fed = Fed(psi: Psi, sections: seq<Bytes>, duplicate: bool, issue: Issue)

  function Failed(issue: Issue): Fed { Fed(Reset, [], false, issue) }

  /** The sections that start or end in the rest of a packet; a fault loses them all. */
  function FedBody(psi: Psi, start: bool, data: Bytes): (r: Fed)
    requires psi.Valid()
    ensures r.psi.Valid()
    decreases |data|
  {
    if data == [] then Fed(psi, [], false, NoIssue)
    else if psi.section == [] && data[0] == 0xff then
      if AllStuffing(data) then Fed(psi, [], false, NoIssue) else Failed(Structure)
    else
      match Append(psi.section, psi.want, data)
      case Bad(issue) => Failed(issue)
      case Held(section, want) => Fed(psi.(section := section, want := want), [], false, NoIssue)
      case Whole(completed, rest) =>
        if !start && !AllStuffing(rest) then Failed(Structure)
        else
          var more := FedBody(psi.(section := [], want := 0), start, rest);
          if more.issue.NoIssue? then more.(sections := [completed] + more.sections) else more
  }

  function FedStart(psi: Psi, data: Bytes): (r: Fed)
    requires psi.Valid() && data != []
    ensures r.psi.Valid()
  {
    var pointer := data[0];
    if pointer > |data| - 1 then Failed(Structure)
    else
      var body := FedBody(psi.(section := [], want := 0, waiting := false), true, data[1 + pointer..]);
      if psi.section == [] then body
      else
        match Append(psi.section, psi.want, data[1..1 + pointer])
        case Bad(issue) => Failed(issue)
        case Held(_, _) => Failed(Structure)
        case Whole(completed, rest) =>
          if !AllStuffing(rest) then Failed(Structure)
          else if body.issue.NoIssue? then body.(sections := [completed] + body.sections)
          else body
  }

  /** `Feed`. */
  function FedPacket(psi: Psi, packet: Bytes, p: Packet): (r: Fed)
    requires psi.Valid() && (p.hasPayload ==> p.payload != [])
    ensures r.psi.Valid()
  {
    if !p.hasPayload then Fed(if p.discontinuity then Reset else psi, [], false, NoIssue)
    else if psi.known && !p.discontinuity && p.continuity == psi.cc && packet == psi.previous then Fed(psi, [], true, NoIssue)
    else if psi.known && !p.discontinuity && p.continuity != (psi.cc + 1) % 16 then Failed(Continuity)
    else
      var at := if p.discontinuity then Reset else psi;
      if at.waiting && !p.start then Fed(at, [], false, NoIssue)
      else
        var next := at.(known := true, cc := p.continuity, previous := packet);
        if p.start then FedStart(next, p.payload)
        else if next.section == [] then Fed(next, [], false, NoIssue)
        else FedBody(next, false, p.payload)
  }

  /** The assembler fed with raw packets; a fault ends the feeding. */
  function Step(psi: Psi, packet: Bytes): Result<(Psi, seq<Bytes>)> {
    var parsed := ParsePacket(packet);
    if !psi.Valid() || parsed.Err? || (parsed.value.hasPayload && parsed.value.payload == []) then Err(ErrPsi)
    else
      var fed := FedPacket(psi, packet, parsed.value);
      if fed.issue.NoIssue? then Ok((fed.psi, fed.sections)) else Err(ErrPsi)
  }

  // ----- Packetised sections come back

  predicate Acceptable(section: Bytes) { WellHeaded(section) && |section| <= MAX_HELD && ValidCrc(section) }

  /** Ready for the packet with this continuity counter. */
  predicate Expects(psi: Psi, continuity: nat) {
    psi.Valid() && (psi.known ==> psi.cc < 16 && (psi.cc + 1) % 16 == continuity % 16)
  }

  /** Data that ends before the open section does is all held. */
  lemma {:induction false} AppendHolds(section: Bytes, want: nat, data: Bytes, whole: Bytes)
    requires Holds(section, want) && Acceptable(whole) && section + data <= whole && section + data != whole
    requires want == 0 || want == |whole|
    ensures |section| + |data| >= 3 ==> Append(section, want, data) == Held(section + data, |whole|)
    ensures data == [] || |section| + |data| >= 3 || want == 0
    decreases |data|
  {
    if data == [] {
      assert section + data == section;
    } else {
      var target := if want > 0 then want else 3;
      var count := if |data| < target - |section| then |data| else target - |section|;
      assert section + data[..count] + data[count..] == section + data;
      var grown := section + data[..count];
      assert grown == whole[..|grown|];
      if |grown| >= 3 { AppendHolds(grown, |whole|, data[count..], whole); }
    }
  }

  lemma KnownCompletes(section: Bytes, data: Bytes, whole: Bytes)
    requires 3 <= |section| < |whole| && Acceptable(whole) && whole <= section + data
    ensures Append(section, |whole|, data) == Whole(whole, data[|whole| - |section|..])
  {
    assert section + data[..|whole| - |section|] == whole;
  }

  /** The third byte of a section opens the rest of it. */
  lemma ThirdByteOpens(section: Bytes, data: Bytes, whole: Bytes, grown: Bytes, rest: Bytes)
    requires |section| < 3 <= |section| + |data| && Acceptable(whole)
    requires grown == section + data[..3 - |section|] && rest == data[3 - |section|..] && grown == whole[..3]
    ensures Append(section, 0, data) == Append(grown, |whole|, rest)
  {
    assert grown[1] == whole[1] && grown[2] == whole[2];
    assert |data| >= 3 - |section|;
    var length := 3 + Bits12(grown[1], grown[2]);
    assert length == |whole|;
    assert Holds(section, 0) && Holds(grown, |whole|);
    assert data != [];
  }

  /** Data that reaches the end of the open section completes it. */
  lemma AppendCompletes(section: Bytes, want: nat, data: Bytes, whole: Bytes)
    requires Holds(section, want) && Acceptable(whole) && whole <= section + data && |section| < |whole|
    requires want == 0 || want == |whole|
    ensures Append(section, want, data) == Whole(whole, data[|whole| - |section|..])
  {
    if want > 0 {
      KnownCompletes(section, data, whole);
    } else {
      FreshCompletes(section, data, whole);
    }
  }

  lemma FreshCompletes(section: Bytes, data: Bytes, whole: Bytes)
    requires |section| < 3 && Acceptable(whole) && whole <= section + data
    ensures Append(section, 0, data) == Whole(whole, data[|whole| - |section|..])
  {
    var count := 3 - |section|;
    var grown, rest := section + data[..count], data[count..];
    assert grown + rest == section + data;
    assert grown == whole[..3];
    ThirdByteOpens(section, data, whole, grown, rest);
    KnownCompletes(grown, rest, whole);
    assert rest[|whole| - 3..] == data[|whole| - |section|..];
  }

  /** The state behind a packet that leaves `held` of a section open. */
  function Opened(packet: Bytes, continuity: nat, held: Bytes, want: nat): Psi {
    Psi(held, want, packet, continuity % 16, true, false)
  }

  /** What a packet makes of the state, given the part of `whole` held behind it. */
  function After(packet: Bytes, continuity: nat, held: Bytes, whole: Bytes): Fed {
    if held == whole then Fed(Opened(packet, continuity, [], 0), [whole], false, NoIssue)
    else Fed(Opened(packet, continuity, held, |whole|), [], false, NoIssue)
  }

  /** A packet with a part of a section, and stuffing if the section ends in it. */
  predicate Carries(whole: Bytes, held: Bytes, content: Bytes, fill: Bytes) {
    held + content <= whole && AllStuffing(fill) && (held + content != whole ==> fill == [])
  }

  lemma BodyFed(psi: Psi, start: bool, whole: Bytes, content: Bytes, fill: Bytes)
    requires psi.Valid() && Acceptable(whole) && Carries(whole, psi.section, content, fill) && content != []
    requires psi.want == 0 || psi.want == |whole|
    requires |psi.section| + |content| >= 3 && (psi.section == [] ==> content[0] == whole[0])
    ensures var held := psi.section + content;
      FedBody(psi, start, content + fill) ==
        if held == whole then Fed(psi.(section := [], want := 0), [whole], false, NoIssue)
        else Fed(psi.(section := held, want := |whole|), [], false, NoIssue)
  {
    var held := psi.section + content;
    if held == whole {
      assert psi.section + (content + fill) == whole + fill;
      AppendCompletes(psi.section, psi.want, content + fill, whole);
      assert (content + fill)[|content|..] == fill;
      assert [whole] + [] == [whole];
    } else {
      assert content + fill == content;
      AppendHolds(psi.section, psi.want, content, whole);
    }
  }

  /** The first packet of a section, as the parser reads it. */
  lemma FirstFed(psi: Psi, continuity: nat, whole: Bytes, packet: Bytes, p: Packet, content: Bytes, fill: Bytes)
    requires Expects(psi, continuity) && psi.section == [] && psi.want == 0 && Acceptable(whole)
    requires |content| >= 3 && Carries(whole, [], content, fill)
    requires p.start && p.hasPayload && !p.discontinuity && p.continuity == continuity % 16
    requires p.payload == [0] + (content + fill)
    ensures FedPacket(psi, packet, p) == After(packet, continuity, content, whole)
  {
    var at := psi.(known := true, cc := p.continuity, previous := packet, waiting := false);
    assert p.payload[1..] == content + fill;
    assert [] + content == content && content[0] == whole[..|content|][0];
    BodyFed(at, true, whole, content, fill);
  }

  lemma NextFed(psi: Psi, continuity: nat, whole: Bytes, packet: Bytes, p: Packet, content: Bytes, fill: Bytes)
    requires Expects(psi, continuity) && psi.known && !psi.waiting && psi.want == |whole| > |psi.section| >= 3
    requires Acceptable(whole) && content != [] && Carries(whole, psi.section, content, fill)
    requires !p.start && p.hasPayload && !p.discontinuity && p.continuity == continuity % 16
    requires p.payload == content + fill
    ensures FedPacket(psi, packet, p) == After(packet, continuity, psi.section + content, whole)
  {
    var at := psi.(known := true, cc := p.continuity, previous := packet);
    BodyFed(at, false, whole, content, fill);
  }

  lemma StepIs(psi: Psi, packet: Bytes, p: Packet, fed: Fed)
    requires psi.Valid() && ParsePacket(packet) == Ok(p) && (p.hasPayload ==> p.payload != [])
    requires FedPacket(psi, packet, p) == fed && fed.issue.NoIssue?
    ensures Step(psi, packet) == Ok((fed.psi, fed.sections))
  {
  }

  function PlainPacket(pid: nat, continuity: nat, start: bool, payload: Bytes): Packet {
    Packet(pid, start, continuity % 16, true, payload, false, false, None)
  }

  lemma FirstStep(psi: Psi, pid: nat, continuity: nat, whole: Bytes, content: Bytes, packet: Bytes)
    requires Expects(psi, continuity) && psi.section == [] && psi.want == 0 && Acceptable(whole) && pid <= 0x1ffe
    requires 3 <= |content| <= PACKET_BYTES - 5 && content <= whole
    requires content != whole ==> |content| == PACKET_BYTES - 5
    requires packet == Stuffed(Header(pid, continuity, true), [0] + content)
    ensures var fed := After(packet, continuity, content, whole); Step(psi, packet) == Ok((fed.psi, fed.sections))
  {
    hide ValidCrc, FedPacket, ParsePacket, Step;
    var fill := Fill(PACKET_BYTES - 5 - |content|);
    PlainPacketParses(pid, continuity, true, [0] + content);
    var p := PlainPacket(pid, continuity, true, [0] + content + fill);
    Associates([0], content, fill);
    FirstFed(psi, continuity, whole, packet, p, content, fill);
    StepIs(psi, packet, p, After(packet, continuity, content, whole));
  }

  lemma NextStep(psi: Psi, pid: nat, continuity: nat, whole: Bytes, content: Bytes, packet: Bytes)
    requires Expects(psi, continuity) && psi.known && !psi.waiting && psi.want == |whole| > |psi.section| >= 3
    requires Acceptable(whole) && pid <= 0x1ffe
    requires content != [] && |content| <= PACKET_BYTES - 4 && psi.section + content <= whole
    requires psi.section + content != whole ==> |content| == PACKET_BYTES - 4
    requires packet == Stuffed(Header(pid, continuity, false), content)
    ensures var fed := After(packet, continuity, psi.section + content, whole);
      Step(psi, packet) == Ok((fed.psi, fed.sections))
  {
    hide ValidCrc, FedPacket, ParsePacket, Step;
    var fill := Fill(PACKET_BYTES - 4 - |content|);
    PlainPacketParses(pid, continuity, false, content);
    var p := PlainPacket(pid, continuity, false, content + fill);
    NextFed(psi, continuity, whole, packet, p, content, fill);
    StepIs(psi, packet, p, After(packet, continuity, psi.section + content, whole));
  }

  /** Nothing is held, and the counter is the one of the last of `count` packets. */
  predicate Behind(psi: Psi, continuity: nat, count: nat)
    requires continuity + count > 0
  {
    psi.section == [] && psi.want == 0 && psi.known && psi.cc == (continuity + count - 1) % 16
  }

  lemma LastStep(psi: Psi, packets: seq<Bytes>, end: Psi, whole: Bytes)
    requires |packets| == 1 && Step(psi, packets[0]) == Ok((end, [whole]))
    ensures FeedAll(Step, psi, packets) == Ok((end, [whole]))
  {
    assert packets == [packets[0]];
    FeedOne(Step, psi, packets[0], end, [whole]);
  }

  lemma EarlierStep(psi: Psi, packets: seq<Bytes>, next: Psi, end: Psi, whole: Bytes)
    requires packets != [] && Step(psi, packets[0]) == Ok((next, [])) && FeedAll(Step, next, packets[1..]) == Ok((end, [whole]))
    ensures FeedAll(Step, psi, packets) == Ok((end, [whole]))
  {
    FeedNext(Step, psi, packets, next, end, [], [whole]);
    assert [] + [whole] == [whole];
  }

  /** The packets after the first complete the section. */
  lemma {:induction false} ContinuedFed(psi: Psi, pid: nat, continuity: nat, whole: Bytes, rest: Bytes) returns (end: Psi)
    requires Expects(psi, continuity) && psi.known && !psi.waiting && psi.want == |whole| > |psi.section| >= 3
    requires Acceptable(whole) && pid <= 0x1ffe && psi.section + rest == whole
    ensures var packets := Continued(pid, continuity, rest);
      packets != [] && Behind(end, continuity, |packets|) && FeedAll(Step, psi, packets) == Ok((end, [whole]))
    decreases |rest|
  {
    hide Step, ValidCrc, Stuffed, Header;
    var packets := Continued(pid, continuity, rest);
    if |rest| <= PACKET_BYTES - 4 {
      LastContinued(pid, continuity, rest);
      NextStep(psi, pid, continuity, whole, rest, packets[0]);
      end := Opened(packets[0], continuity, [], 0);
      LastStep(psi, packets, end, whole);
    } else {
      MoreContinued(pid, continuity, rest);
      var content, more := rest[..PACKET_BYTES - 4], rest[PACKET_BYTES - 4..];
      assert content + more == rest;
      Associates(psi.section, content, more);
      NextStep(psi, pid, continuity, whole, content, packets[0]);
      var next := Opened(packets[0], continuity, psi.section + content, |whole|);
      NextCounter(continuity);
      end := ContinuedFed(next, pid, continuity + 1, whole, more);
      EarlierStep(psi, packets, next, end, whole);
    }
  }

  lemma ShortSectionFed(psi: Psi, pid: nat, continuity: nat, whole: Bytes) returns (end: Psi)
    requires Expects(psi, continuity) && psi.section == [] && psi.want == 0 && Acceptable(whole) && pid <= 0x1ffe
    requires |whole| <= PACKET_BYTES - 5
    ensures var packets := Packets(pid, continuity, whole);
      Behind(end, continuity, |packets|) && FeedAll(Step, psi, packets) == Ok((end, [whole]))
  {
    hide Step, ValidCrc, Stuffed, Header;
    var packets := Packets(pid, continuity, whole);
    assert whole[|whole|..] == [] && whole[..|whole|] == whole && |packets| == 1;
    FirstStep(psi, pid, continuity, whole, whole, packets[0]);
    end := Opened(packets[0], continuity, [], 0);
    LastStep(psi, packets, end, whole);
  }

  lemma LongSectionFed(psi: Psi, pid: nat, continuity: nat, whole: Bytes) returns (end: Psi)
    requires Expects(psi, continuity) && psi.section == [] && psi.want == 0 && Acceptable(whole) && pid <= 0x1ffe
    requires |whole| > PACKET_BYTES - 5
    ensures var packets := Packets(pid, continuity, whole);
      Behind(end, continuity, |packets|) && FeedAll(Step, psi, packets) == Ok((end, [whole]))
  {
    hide Step, ValidCrc, Stuffed, Header;
    var packets := Packets(pid, continuity, whole);
    var content, rest := whole[..PACKET_BYTES - 5], whole[PACKET_BYTES - 5..];
    assert content + rest == whole;
    assert packets[1..] == Continued(pid, continuity + 1, rest);
    FirstStep(psi, pid, continuity, whole, content, packets[0]);
    var next := Opened(packets[0], continuity, content, |whole|);
    NextCounter(continuity);
    end := ContinuedFed(next, pid, continuity + 1, whole, rest);
    EarlierStep(psi, packets, next, end, whole);
  }

  lemma SectionFed(psi: Psi, pid: nat, continuity: nat, whole: Bytes) returns (end: Psi)
    requires Expects(psi, continuity) && psi.section == [] && psi.want == 0 && Acceptable(whole) && pid <= 0x1ffe
    ensures var packets := Packets(pid, continuity, whole);
      Behind(end, continuity, |packets|) && FeedAll(Step, psi, packets) == Ok((end, [whole]))
  {
    if |whole| <= PACKET_BYTES - 5 {
      end := ShortSectionFed(psi, pid, continuity, whole);
    } else {
      end := LongSectionFed(psi, pid, continuity, whole);
    }
  }

  /** Packetise and assemble: any list of sections with a valid CRC and at most 1,024 bytes comes back
      unchanged and in order, without an issue and with nothing left over. */
  lemma {:induction false} SectionsComeBack(psi: Psi, pid: nat, continuity: nat, sections: seq<Bytes>)
    requires Expects(psi, continuity) && psi.section == [] && psi.want == 0 && pid <= 0x1ffe
    requires forall i | 0 <= i < |sections| :: Acceptable(sections[i])
    ensures var r := FeedAll(Step, psi, SectionPackets(pid, continuity, sections));
      r.Ok? && r.value.0.section == [] && r.value.1 == sections
    decreases |sections|
  {
    hide Step, ValidCrc, Packets;
    if sections != [] {
      var packets := Packets(pid, continuity, sections[0]);
      var rest := SectionPackets(pid, continuity + |packets|, sections[1..]);
      var mid := SectionFed(psi, pid, continuity, sections[0]);
      NextCounter(continuity + |packets| - 1);
      SectionsComeBack(mid, pid, continuity + |packets|, sections[1..]);
      FeedJoins(Step, psi, packets, rest, mid, FeedAll(Step, mid, rest).value.0, [sections[0]], sections[1..]);
      assert [sections[0]] + sections[1..] == sections;
    }
  }

  // ----- The assembler itself

  class Buffer {
    const section: array<Byte>
    var used: nat
    var want: nat
    var previous: Bytes
    var cc: nat
    var known: bool
    var waiting: bool

    constructor ()
      ensures Valid() && Value() == Zero && fresh(section)
    {
      section := new Byte[MAX_HELD](_ => 0);
      used, want, previous, cc, known, waiting := 0, 0, [], 0, false, false;
    }

    ghost predicate Valid()
      reads this, section
    {
      section.Length == MAX_HELD && used <= MAX_HELD && Value().Valid()
    }

    function Value(): Psi
      requires section.Length == MAX_HELD && used <= MAX_HELD
      reads this, section
    {
      Psi(section[..used], want, previous, cc, known, waiting)
    }

    method Clear()
      requires section.Length == MAX_HELD
      modifies this
      ensures Valid() && Value() == Reset
    {
      used, want, previous, cc, known, waiting := 0, 0, [], 0, false, true;
    }

    /** Copies the next bytes into the fixed buffer. */
    method Copy(data: Bytes)
      requires section.Length == MAX_HELD && used + |data| <= MAX_HELD
      modifies this`used, section
      ensures used == old(used) + |data| && section[..used] == old(section[..used]) + data
    {
      var i := 0;
      ghost var before := section[..used];
      while i < |data|
        invariant 0 <= i <= |data| && used + |data| <= MAX_HELD && used == old(used)
        invariant section[..used + i] == before + data[..i]
      {
        section[used + i] := data[i];
        i := i + 1;
      }
      assert data[..|data|] == data;
      used := used + |data|;
    }

    /** Everything but the section that is being held. */
    twostate predicate OnlyHeld()
      reads this
    {
      previous == old(previous) && cc == old(cc) && known == old(known) && waiting == old(waiting)
    }

    /** One copy of `append`'s loop: up to the third byte, or up to the end of the section. */
    method AppendPart(data: Bytes) returns (rest: Bytes, issue: Issue, completed: Option<Bytes>)
      requires Valid() && data != []
      modifies this`used, this`want, section
      ensures OnlyHeld() && |rest| < |data| && section.Length == MAX_HELD && used <= MAX_HELD
      ensures issue.NoIssue? && completed.None? ==>
        Valid() && Append(section[..used], want, rest) == Append(old(section[..used]), old(want), data)
      ensures issue.NoIssue? && completed.Some? ==>
        used == 0 && want == 0 && Append(old(section[..used]), old(want), data) == Whole(completed.value, rest)
      ensures !issue.NoIssue? ==> Append(old(section[..used]), old(want), data) == Bad(issue)
    {
      hide ValidCrc;
      issue, completed := NoIssue, None;
      var target := if want > 0 then want else 3;
      var count := if |data| < target - used then |data| else target - used;
      Copy(data[..count]);
      rest := data[count..];
      if used == 3 && want == 0 {
        want := 3 + Bits12(section[1], section[2]);
        if want > MAX_HELD { return rest, Limit, None; }
        if want < 12 { return rest, Structure, None; }
      }
      if want > 0 && used == want {
        if !ValidCrc(section[..used]) { return rest, Crc, None; }
        completed := Some(section[..used]);
        used, want := 0, 0;
      }
    }

    /** `append`. */
    method AppendBytes(data: Bytes) returns (r: Appended)
      requires Valid()
      modifies this`used, this`want, section
      ensures r == Append(old(section[..used]), old(want), data) && OnlyHeld()
      ensures section.Length == MAX_HELD && used <= MAX_HELD && (!r.Bad? ==> Valid())
      ensures r.Held? ==> section[..used] == r.section && want == r.want
      ensures r.Whole? ==> used == 0 && want == 0
    {
      hide ValidCrc;
      var rest := data;
      while rest != []
        invariant Valid() && OnlyHeld()
        invariant Append(section[..used], want, rest) == Append(old(section[..used]), old(want), data)
        decreases |rest|
      {
        var issue, completed;
        rest, issue, completed := AppendPart(rest);
        if !issue.NoIssue? { return Bad(issue); }
        if completed.Some? { return Whole(completed.value, rest); }
      }
      r := Held(section[..used], want);
    }

    /** The loop of `Feed` over the rest of a packet. */
    method FeedBody(start: bool, data: Bytes) returns (sections: seq<Bytes>, issue: Issue)
      requires Valid()
      modifies this, section
      ensures Valid() && Fed(Value(), sections, false, issue) == FedBody(old(Value()), start, data)
    {
      hide ValidCrc, Append;
      var rest, more := data, true;
      sections := [];
      WithNothing(FedBody(Value(), start, data));
      while more && rest != []
        invariant Valid()
        invariant more ==> With(sections, FedBody(Value(), start, rest)) == FedBody(old(Value()), start, data)
        invariant !more ==> FedBody(old(Value()), start, data) == Fed(Value(), sections, false, NoIssue)
        decreases more, |rest|
      {
        if used == 0 && rest[0] == 0xff {
          if !AllStuffing(rest) {
            Clear();
            return [], Structure;
          }
          WithEnd(sections, Value());
          more := false;
        } else {
          var r := AppendBytes(rest);
          match r {
            case Bad(fault) =>
              Clear();
              return [], fault;
            case Held(_, _) =>
              WithEnd(sections, Value());
              more := false;
            case Whole(completed, tail) =>
              if !start && !AllStuffing(tail) {
                Clear();
                return [], Structure;
              }
              WithTwice(sections, completed, FedBody(Value(), start, tail));
              sections, rest := sections + [completed], tail;
          }
        }
      }
      if more { WithEnd(sections, Value()); }
      issue := NoIssue;
    }

    /** The part of `Feed` for a packet in which a section starts. */
    method FeedStart(data: Bytes) returns (sections: seq<Bytes>, issue: Issue)
      requires Valid() && data != []
      modifies this, section
      ensures Valid() && Fed(Value(), sections, false, issue) == FedStart(old(Value()), data)
    {
      hide ValidCrc, Append, FedBody;
      var pointer := data[0];
      if pointer > |data| - 1 {
        Clear();
        return [], Structure;
      }
      var first := [];
      if used != 0 {
        var r := AppendBytes(data[1..1 + pointer]);
        if !r.Whole? || !AllStuffing(r.rest) {
          Clear();
          return [], if r.Bad? then r.issue else Structure;
        }
        first := [r.completed];
      }
      used, want, waiting := 0, 0, false;
      sections, issue := FeedBody(true, data[1 + pointer..]);
      if issue.NoIssue? {
        assert [] + sections == sections;
        sections := first + sections;
      }
    }

    /** `Feed`. */
    method Feed(packet: Bytes, p: Packet) returns (sections: seq<Bytes>, duplicate: bool, issue: Issue)
      requires Valid() && (p.hasPayload ==> p.payload != [])
      modifies this, section
      ensures Valid() && Fed(Value(), sections, duplicate, issue) == FedPacket(old(Value()), packet, p)
    {
      hide ValidCrc, FedBody, FedStart;
      if !p.hasPayload {
        if p.discontinuity { Clear(); }
        return [], false, NoIssue;
      }
      if known && !p.discontinuity {
        if p.continuity == cc && packet == previous { return [], true, NoIssue; }
        if p.continuity != (cc + 1) % 16 {
          Clear();
          return [], false, Continuity;
        }
      }
      if p.discontinuity { Clear(); }
      if waiting && !p.start { return [], false, NoIssue; }
      known, cc, previous, duplicate := true, p.continuity, packet, false;
      if p.start {
        sections, issue := FeedStart(p.payload);
      } else if used == 0 {
        sections, issue := [], NoIssue;
      } else {
        sections, issue := FeedBody(false, p.payload);
      }
    }
  }

  function With(sections: seq<Bytes>, fed: Fed): Fed {
    if fed.issue.NoIssue? then fed.(sections := sections + fed.sections) else fed
  }

  lemma WithNothing(fed: Fed)
    ensures With([], fed) == fed
  {
    assert [] + fed.sections == fed.sections;
  }

  lemma WithEnd(sections: seq<Bytes>, psi: Psi)
    ensures With(sections, Fed(psi, [], false, NoIssue)) == Fed(psi, sections, false, NoIssue)
  {
    assert sections + [] == sections;
  }

  lemma WithTwice(sections: seq<Bytes>, completed: Bytes, fed: Fed)
    ensures With(sections + [completed], fed) == With(sections, With([completed], fed))
  {
    Associates(sections, [completed], fed.sections);
  }
}
