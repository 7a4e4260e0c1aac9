/** Assembling PSI sections from packets (ISO/IEC 13818-1 section 2.4.4): the strict collector, and the
    proof that it returns exactly the sections that were packetised. */
module PsiCollector {
  import opened Basics
  import opened Mpegts
  import opened ProgramTables

  /** The fields of a `PSICollector` as a value. */
  datatype State = State(pid: Option<nat>, section: Bytes, want: nat, continuity: Option<nat>)
  {
    predicate Valid() {
      && (want == 0 ==> |section| < 3) && (want > 0 ==> 3 <= |section| < want <= MAX_SECTION_BYTES)
      && (continuity.Some? ==> continuity.value < 16)
    }

    predicate Idle() { section == [] && want == 0 }
  }

  // ----- Appending bytes to the open section

  /** The length a section will have, once its first three bytes are there; 0 before that. */
  function Wanted(section: Bytes, want: nat): nat {
    if want == 0 && |section| >= 3 then 3 + Bits12(section[1], section[2]) else want
  }

  /** The open section after all of `data` could be appended. */
  function Grown(section: Bytes, want: nat, data: Bytes): Bytes
    requires want == 0 || |section| <= want
  {
    if want != 0 && |data| > want - |section| then section + data[..want - |section|] else section + data
  }

  predicate BadLength(section: Bytes, want: nat, data: Bytes)
    requires want == 0 || |section| <= want
  {
    var grown := Grown(section, want, data);
    want == 0 && |grown| >= 3 && !(12 <= Wanted(grown, 0) <= MAX_SECTION_BYTES)
  }

  /** What an append leaves behind: a section and the bytes after it, or a section that stays open. */
  datatype Appended = Done(completed: Bytes, rest: Bytes) | Open(section: Bytes, want: nat)

  function Append(s: State, data: Bytes): (r: Result<Appended>)
    requires s.Valid()
    ensures r.Ok? && r.value.Done? ==> |r.value.rest| < |data|
    ensures r.Ok? && r.value.Open? ==> s.(section := r.value.section, want := r.value.want).Valid()
  {
    if data == [] then Ok(Open(s.section, s.want))
    else if BadLength(s.section, s.want, data) then Err(ErrPsi)
    else
      var grown := Grown(s.section, s.want, data);
      var want := Wanted(grown, s.want);
      if want == 0 || |grown| < want then Ok(Open(grown, want))
      else Ok(Done(grown[..want], data[want - |s.section|..]))
  }

  // ----- One packet

  function AllStuffing(data: Bytes): bool { forall i | 0 <= i < |data| :: data[i] == 0xff }

  type Outcome = Result<(State, seq<Bytes>)>

  function FedSections(s: State, data: Bytes): (r: Outcome)
    requires s.Valid()
    ensures r.Ok? ==> r.value.0.Valid()
    decreases |data|
  {
    if data == [] || data[0] == 0xff then Ok((s, []))
    else
      var r := Append(s, data);
      if r.Err? then Err(r.error)
      else match r.value
        case Open(section, want) => Ok((s.(section := section, want := want), []))
        case Done(completed, rest) =>
          var more := FedSections(s.(section := [], want := 0), rest);
          if more.Err? then more else Ok((more.value.0, [completed] + more.value.1))
  }

  function FedContinuation(s: State, payload: Bytes): (r: Outcome)
    requires s.Valid()
    ensures r.Ok? ==> r.value.0.Valid()
  {
    if s.section == [] then Ok((s, []))
    else
      var r := Append(s, payload);
      if r.Err? then Err(r.error)
      else match r.value
        case Open(section, want) => Ok((s.(section := section, want := want), []))
        case Done(completed, rest) =>
          if AllStuffing(rest) then Ok((s.(section := [], want := 0), [completed])) else Err(ErrPsi)
  }

  function FedStart(s: State, payload: Bytes): (r: Outcome)
    requires s.Valid() && payload != []
    ensures r.Ok? ==> r.value.0.Valid()
  {
    var pointer := payload[0];
    if pointer > |payload| - 1 then Err(ErrPsi)
    else
      var r := if s.section == [] then Ok(Done([], [])) else Append(s, payload[1..1 + pointer]);
      var rest := payload[1 + pointer..];
      if r.Err? || r.value.Open? || r.value.rest != [] || rest == [] || rest[0] == 0xff then Err(ErrPsi)
      else
        var more := FedSections(s.(section := [], want := 0), rest);
        if more.Err? || s.section == [] then more else Ok((more.value.0, [r.value.completed] + more.value.1))
  }

  function Fed(s: State, packet: Bytes): (r: Outcome)
    requires s.Valid()
    ensures r.Ok? ==> r.value.0.Valid()
  {
    var parsed := ParsePacket(packet);
    if parsed.Err? then Err(parsed.error)
    else if s.pid.Some? && s.pid.value != parsed.value.pid then Err(ErrPsi)
    else if !parsed.value.hasPayload then Ok((s.(pid := Some(parsed.value.pid)), []))
    else if s.continuity.Some? && !parsed.value.discontinuity && parsed.value.continuity != (s.continuity.value + 1) % 16 then
      Err(ErrPsi)
    else
      var at := s.(pid := Some(parsed.value.pid), continuity := Some(parsed.value.continuity));
      if parsed.value.payload == [] then Err(ErrPsi)
      else if parsed.value.start then FedStart(at, parsed.value.payload)
      else FedContinuation(at, parsed.value.payload)
  }

  // ----- Packetised sections come back

  /** Ready for the packet with this continuity counter. */
  predicate Expects(s: State, pid: nat, continuity: nat) {
    && s.Valid() && (s.pid.Some? ==> s.pid.value == pid)
    && (s.continuity.Some? ==> (s.continuity.value + 1) % 16 == continuity % 16)
  }

  /** What the first packet of a section comes to: it completes it, or leaves it open with its length known. */
  function Begun(pid: nat, continuity: nat, section: Bytes): Outcome
    requires |section| >= 3
  {
    var at := State(Some(pid), [], 0, Some(continuity % 16));
    if |section| <= PACKET_BYTES - 5 then Ok((at, [section]))
    else Ok((at.(section := section[..PACKET_BYTES - 5], want := |section|), []))
  }

  lemma StartFed(s: State, continuity: nat, packet: Bytes, p: Packet)
    requires ParsePacket(packet) == Ok(p) && Expects(s, p.pid, continuity) && p.continuity == continuity % 16
    requires p.start && p.hasPayload && p.payload != []
    ensures Fed(s, packet) == FedStart(s.(pid := Some(p.pid), continuity := Some(p.continuity)), p.payload)
  {
    hide ParsePacket, FedStart;
  }

  lemma SameCounter(pid: nat, continuity: nat, section: Bytes)
    requires |section| >= 3
    ensures Begun(pid, continuity % 16, section) == Begun(pid, continuity, section)
  {
  }

  lemma FirstPacketFed(s: State, pid: nat, continuity: nat, section: Bytes)
    requires Expects(s, pid, continuity) && s.Idle() && pid <= 0x1ffe && WellHeaded(section)
    ensures Fed(s, Packets(pid, continuity, section)[0]) == Begun(pid, continuity, section)
  {
    hide Fed, FedStart, Begun, ParsePacket, Stuffed, Header, Fill;
    var count := if |section| < PACKET_BYTES - 5 then |section| else PACKET_BYTES - 5;
    var content := [0] + section[..count];
    var fill := Fill(PACKET_BYTES - 4 - |content|);
    var packet := Packets(pid, continuity, section)[0];
    PlainPacketParses(pid, continuity, true, content);
    var payload := content + fill;
    assert payload[1..] == section[..count] + fill;
    var p := Packet(pid, true, continuity % 16, true, payload, false, false, None);
    assert ParsePacket(packet) == Ok(p);
    StartFed(s, continuity, packet, p);
    var at := s.(pid := Some(pid), continuity := Some(continuity % 16));
    assert Fed(s, packet) == FedStart(at, payload);
    FirstPayloadFed(at, section, count, fill, payload);
    SameCounter(pid, continuity, section);
  }

  lemma FirstPayloadFed(at: State, section: Bytes, count: nat, fill: Bytes, payload: Bytes)
    requires at.Valid() && at.Idle() && at.pid.Some? && at.continuity.Some? && WellHeaded(section)
    requires count == if |section| < PACKET_BYTES - 5 then |section| else PACKET_BYTES - 5
    requires fill == Fill(PACKET_BYTES - 5 - count) && |payload| > 0 && payload[0] == 0 && payload[1..] == section[..count] + fill
    ensures FedStart(at, payload) == Begun(at.pid.value, at.continuity.value, section)
  {
    FirstBytesAppended(at, section, count, fill);
  }

  lemma FirstBytesAppended(at: State, section: Bytes, count: nat, fill: Bytes)
    requires at.Valid() && at.Idle() && WellHeaded(section) && 12 <= count <= |section|
    requires AllStuffing(fill) && (count < |section| ==> fill == [])
    ensures FedSections(at, section[..count] + fill) ==
      if count == |section| then Ok((at, [section])) else Ok((at.(section := section[..count], want := |section|), []))
  {
    var data := section[..count] + fill;
    assert at.section + data == data;
    assert data[1] == section[1] && data[2] == section[2] && data[0] == section[0];
    if count == |section| {
      assert data[..count] == section && data[count..] == fill;
      assert [section] + [] == [section];
    } else {
      assert data == section[..count];
    }
  }

  /** The state behind a packet that adds `content` to an open section, and what the packet completes. */
  function Grew(s: State, pid: nat, continuity: nat, section: Bytes, content: Bytes): State {
    var held := s.section + content;
    if |held| == |section| then State(Some(pid), [], 0, Some(continuity % 16))
    else State(Some(pid), held, |section|, Some(continuity % 16))
  }

  /** `content` is the next part of `section` behind the open part of `s`, as one packet carries it. */
  predicate NextPart(s: State, section: Bytes, content: Bytes) {
    && s.want == |section| > |s.section| && content != [] && s.section + content <= section
    && (|content| == PACKET_BYTES - 4 || (|content| < PACKET_BYTES - 4 && s.section + content == section))
  }

  lemma NextPacketFed(s: State, pid: nat, continuity: nat, section: Bytes, content: Bytes, packet: Bytes)
    requires Expects(s, pid, continuity) && pid <= 0x1ffe && NextPart(s, section, content)
    requires packet == Stuffed(Header(pid, continuity, false), content)
    ensures Fed(s, packet) ==
      Ok((Grew(s, pid, continuity, section, content), if s.section + content == section then [section] else []))
  {
    PlainPacketParses(pid, continuity, false, content);
    var payload := content + Fill(PACKET_BYTES - 4 - |content|);
    if s.section + content == section {
      assert payload[..|content|] == content;
      assert payload[|content|..] == Fill(PACKET_BYTES - 4 - |content|);
      assert section[..|section|] == section;
      assert Grown(s.section, s.want, payload) == section by {
        if |payload| == |content| { assert payload == content; }
      }
    } else {
      assert payload == content;
    }
  }

  /** The collector as an assembler; a state no collector reaches is refused. */
  function Step(s: State, packet: Bytes): Outcome { if s.Valid() then Fed(s, packet) else Err(ErrPsi) }

  /** The state behind the last of `count` packets. */
  function Behind(pid: nat, continuity: nat, count: nat): State
    requires continuity + count > 0
  {
    State(Some(pid), [], 0, Some((continuity + count - 1) % 16))
  }

  lemma OnePacketFed(s: State, packet: Bytes, end: State, out: seq<Bytes>)
    requires s.Valid() && Fed(s, packet) == Ok((end, out))
    ensures FeedAll(Step, s, [packet]) == Ok((end, out))
  {
    FeedOne(Step, s, packet, end, out);
  }

  lemma PacketFedFirst(s: State, packets: seq<Bytes>, mid: State, end: State, out: seq<Bytes>)
    requires s.Valid() && packets != [] && Fed(s, packets[0]) == Ok((mid, []))
    requires FeedAll(Step, mid, packets[1..]) == Ok((end, out))
    ensures FeedAll(Step, s, packets) == Ok((end, out))
  {
    FeedNext(Step, s, packets, mid, end, [], out);
    assert [] + out == out;
  }

  /** The packets after the first complete the section. */
  lemma {:induction false} ContinuedFed(s: State, pid: nat, continuity: nat, section: Bytes, rest: Bytes)
    requires Expects(s, pid, continuity) && pid <= 0x1ffe && s.want == |section| > |s.section|
    requires s.section + rest == section
    ensures var packets := Continued(pid, continuity, rest);
      packets != [] && FeedAll(Step, s, packets) == Ok((Behind(pid, continuity, |packets|), [section]))
    decreases |rest|
  {
    hide Step, Fed, Stuffed, Header;
    var packets := Continued(pid, continuity, rest);
    if |rest| <= PACKET_BYTES - 4 {
      LastContinued(pid, continuity, rest);
      NextPacketFed(s, pid, continuity, section, rest, packets[0]);
      OnePacketFed(s, packets[0], Behind(pid, continuity, 1), [section]);
    } else {
      MoreContinued(pid, continuity, rest);
      var content, more := rest[..PACKET_BYTES - 4], rest[PACKET_BYTES - 4..];
      NextPacketFed(s, pid, continuity, section, content, packets[0]);
      var next := Grew(s, pid, continuity, section, content);
      NextCounter(continuity);
      Associates(s.section, content, more);
      assert content + more == rest;
      ContinuedFed(next, pid, continuity + 1, section, more);
      PacketFedFirst(s, packets, next, Behind(pid, continuity + 1, |packets| - 1), [section]);
    }
  }

  lemma ShortSectionFed(s: State, pid: nat, continuity: nat, section: Bytes)
    requires Expects(s, pid, continuity) && s.Idle() && pid <= 0x1ffe && WellHeaded(section)
    requires |section| <= PACKET_BYTES - 5
    ensures var packets := Packets(pid, continuity, section);
      |packets| == 1 && FeedAll(Step, s, packets) == Ok((Behind(pid, continuity, 1), [section]))
  {
    hide Step, Fed, Stuffed, Header;
    var packets := Packets(pid, continuity, section);
    FirstPacketFed(s, pid, continuity, section);
    assert section[|section|..] == [] && packets == [packets[0]];
    OnePacketFed(s, packets[0], Behind(pid, continuity, 1), [section]);
  }

  lemma LongSectionFed(s: State, pid: nat, continuity: nat, section: Bytes)
    requires Expects(s, pid, continuity) && s.Idle() && pid <= 0x1ffe && WellHeaded(section)
    requires |section| > PACKET_BYTES - 5
    ensures var packets := Packets(pid, continuity, section);
      FeedAll(Step, s, packets) == Ok((Behind(pid, continuity, |packets|), [section]))
  {
    hide Step, Fed, Stuffed, Header;
    var packets := Packets(pid, continuity, section);
    var rest := section[PACKET_BYTES - 5..];
    var tail := Continued(pid, continuity + 1, rest);
    assert packets[1..] == tail;
    FirstPacketFed(s, pid, continuity, section);
    NextCounter(continuity);
    var next := State(Some(pid), section[..PACKET_BYTES - 5], |section|, Some(continuity % 16));
    assert section[..PACKET_BYTES - 5] + rest == section;
    ContinuedFed(next, pid, continuity + 1, section, rest);
    PacketFedFirst(s, packets, next, Behind(pid, continuity + 1, |tail|), [section]);
  }

  lemma SectionFed(s: State, pid: nat, continuity: nat, section: Bytes)
    requires Expects(s, pid, continuity) && s.Idle() && pid <= 0x1ffe && WellHeaded(section)
    ensures var packets := Packets(pid, continuity, section);
      FeedAll(Step, s, packets) == Ok((Behind(pid, continuity, |packets|), [section]))
  {
    if |section| <= PACKET_BYTES - 5 {
      ShortSectionFed(s, pid, continuity, section);
    } else {
      LongSectionFed(s, pid, continuity, section);
    }
  }

  lemma BehindExpects(pid: nat, continuity: nat, count: nat)
    requires count > 0
    ensures Expects(Behind(pid, continuity, count), pid, continuity + count) && Behind(pid, continuity, count).Idle()
  {
    NextCounter(continuity + count - 1);
  }

  /** Packetise and collect: any list of sections comes back unchanged and in order, with nothing left
      over, from a collector that has seen anything with the right counter before. */
  lemma {:induction false} SectionsComeBack(s: State, pid: nat, continuity: nat, sections: seq<Bytes>)
    requires Expects(s, pid, continuity) && s.Idle() && pid <= 0x1ffe
    requires forall i | 0 <= i < |sections| :: WellHeaded(sections[i])
    ensures var r := FeedAll(Step, s, SectionPackets(pid, continuity, sections));
      r.Ok? && r.value.0.Idle() && r.value.1 == sections
    decreases |sections|
  {
    hide Step, Packets;
    if sections != [] {
      var packets := Packets(pid, continuity, sections[0]);
      var rest := SectionPackets(pid, continuity + |packets|, sections[1..]);
      SectionFed(s, pid, continuity, sections[0]);
      var mid := Behind(pid, continuity, |packets|);
      BehindExpects(pid, continuity, |packets|);
      SectionsComeBack(mid, pid, continuity + |packets|, sections[1..]);
      FeedJoins(Step, s, packets, rest, mid, FeedAll(Step, mid, rest).value.0, [sections[0]], sections[1..]);
      assert [sections[0]] + sections[1..] == sections;
    }
  }

  // ----- The collector itself

  /** A collector that has reported an error is not fed again. */
  class Collector {
    var pid: Option<nat>
    var section: Bytes
    var want: nat
    var continuity: Option<nat>

    constructor ()
      ensures Value() == State(None, [], 0, None) && Value().Valid()
    {
      pid, section, want, continuity := None, [], 0, None;
    }

    function Value(): State
      reads this
    {
      State(pid, section, want, continuity)
    }

    /** `append`: cuts the data where the section ends. */
    method AppendBytes(data: Bytes) returns (r: Result<Appended>)
      requires Value().Valid()
      modifies this`section, this`want
      ensures r == Append(old(Value()), data)
      ensures r.Ok? ==>
        section == (if r.value.Open? then r.value.section else []) && want == (if r.value.Open? then r.value.want else 0)
    {
      if data == [] { return Ok(Open(section, want)); }
      var needed := |data|;
      if want != 0 && needed > want - |section| { needed := want - |section|; }
      ghost var before := section;
      section := section + data[..needed];
      if |section| >= 3 && want == 0 {
        assert data[..needed] == data;
        want := 3 + Bits12(section[1], section[2]);
        if want < 12 || want > MAX_SECTION_BYTES { return Err(ErrPsi); }
        if |section| > want {
          needed := needed - (|section| - want);
          section := section[..want];
        }
      }
      assert data[..|data|] == data;
      if want == 0 || |section| < want { return Ok(Open(section, want)); }
      var completed := section;
      section, want := [], 0;
      assert completed[..|completed|] == completed;
      r := Ok(Done(completed, data[needed..]));
    }

    /** The sections that start in this packet. */
    method FeedSections(data: Bytes) returns (r: Result<seq<Bytes>>)
      requires Value().Valid()
      modifies this`section, this`want
      ensures Agrees(r, FedSections(old(Value()), data))
    {
      var rest, sections, open := data, [], false;
      PrefixedByNothing([], FedSections(Value(), data), Value());
      while !open && rest != [] && rest[0] != 0xff
        invariant Value().Valid() && pid == old(pid) && continuity == old(continuity)
        invariant !open ==> Prefixed(sections, FedSections(Value(), rest)) == FedSections(old(Value()), data)
        invariant open ==> FedSections(old(Value()), data) == Ok((Value(), sections))
        decreases !open, |rest|
      {
        var appended := AppendBytes(rest);
        if appended.Err? { return Err(appended.error); }
        match appended.value {
          case Open(_, _) =>
            PrefixedByNothing(sections, Err(ErrPsi), Value());
            open := true;
          case Done(completed, more) =>
            PrefixedTwice(sections, completed, FedSections(Value(), more));
            sections, rest := sections + [completed], more;
        }
      }
      PrefixedByNothing(sections, Err(ErrPsi), Value());
      r := Ok(sections);
    }

    /** The state and the sections are the ones the specification gives. */
    ghost predicate Agrees(r: Result<seq<Bytes>>, expected: Outcome)
      reads this
    {
      match expected
      case Ok((state, sections)) => r == Ok(sections) && Value() == state && state.Valid()
      case Err(error) => r == Err(error)
    }

    /** `Feed`. */
    method Feed(packet: Bytes) returns (r: Result<seq<Bytes>>)
      requires Value().Valid()
      modifies this
      ensures Agrees(r, Fed(old(Value()), packet))
    {
      var parsed := ParsePacket(packet);
      if parsed.Err? { return Err(parsed.error); }
      var p := parsed.value;
      if pid.Some? && p.pid != pid.value { return Err(ErrPsi); }
      pid := Some(p.pid);
      if !p.hasPayload { return Ok([]); }
      if continuity.Some? && !p.discontinuity && p.continuity != (continuity.value + 1) % 16 { return Err(ErrPsi); }
      continuity := Some(p.continuity);
      if p.payload == [] { return Err(ErrPsi); }
      if p.start { r := FeedStart(p.payload); } else { r := FeedContinuation(p.payload); }
    }

    method FeedContinuation(payload: Bytes) returns (r: Result<seq<Bytes>>)
      requires Value().Valid()
      modifies this`section, this`want
      ensures Agrees(r, FedContinuation(old(Value()), payload))
    {
      if section == [] { return Ok([]); }
      var appended := AppendBytes(payload);
      if appended.Err? { return Err(appended.error); }
      match appended.value {
        case Open(_, _) => return Ok([]);
        case Done(completed, rest) =>
          if !AllStuffing(rest) { return Err(ErrPsi); }
          return Ok([completed]);
      }
    }

    method FeedStart(payload: Bytes) returns (r: Result<seq<Bytes>>)
      requires Value().Valid() && payload != []
      modifies this`section, this`want
      ensures Agrees(r, FedStart(old(Value()), payload))
    {
      var pointer := payload[0];
      if pointer > |payload| - 1 { return Err(ErrPsi); }
      var first := [];
      if section != [] {
        var appended := AppendBytes(payload[1..1 + pointer]);
        if appended.Err? || appended.value.Open? || appended.value.rest != [] { return Err(ErrPsi); }
        first := [appended.value.completed];
      }
      var rest := payload[1 + pointer..];
      if rest == [] || rest[0] == 0xff { return Err(ErrPsi); }
      r := FeedSections(rest);
      if r.Ok? {
        assert [] + r.value == r.value;
        r := Ok(first + r.value);
      }
    }
  }

  function Prefixed(sections: seq<Bytes>, r: Outcome): Outcome {
    if r.Err? then r else Ok((r.value.0, sections + r.value.1))
  }

  lemma PrefixedByNothing(sections: seq<Bytes>, r: Outcome, s: State)
    ensures Prefixed([], r) == r && Prefixed(sections, Ok((s, []))) == Ok((s, sections))
  {
    if r.Ok? { assert [] + r.value.1 == r.value.1; }
    assert sections + [] == sections;
  }

  lemma PrefixedTwice(sections: seq<Bytes>, completed: Bytes, r: Outcome)
    ensures Prefixed(sections + [completed], r) == Prefixed(sections, Prefixed([completed], r))
  {
    if r.Ok? { Associates(sections, [completed], r.value.1); }
  }
}
