/** The component filter of a recording: it looks for the program map, rewrites it, leaves out the streams
    that are not wanted, and falls back to writing everything when it cannot be sure. */
module ComponentFilter {
  import opened Basics
  import opened Mpegts
  import opened ProgramTables
  import opened TsFraming
  import opened RecordingPsi
  import opened StreamTables

  const MAX_PSI_BUFFER := 1_048_576

  // ----- What must not be lost

  function PacketsOf(stream: seq<Emission>): seq<Bytes> {
    seq(|stream|, i requires 0 <= i < |stream| => stream[i].packet)
  }

  predicate Within(a: Excluded, b: Excluded) { a.announced <= b.announced && a.dropped <= b.dropped }

  /** The packets no selection may touch. */
  predicate Protected(e: Excluded, packet: Bytes) {
    && WellFormed(packet) && PidOf(packet) !in e.announced && PidOf(packet) !in e.dropped
    && !(Tei(packet) && PidOf(packet) == 0)
  }

  function ProtectedOf(e: Excluded, packets: seq<Bytes>): seq<Bytes> {
    if packets == [] then []
    else
      var last := packets[|packets| - 1];
      ProtectedOf(e, packets[..|packets| - 1]) + if Protected(e, last) then [last] else []
  }

  function WellFormedOf(packets: seq<Bytes>): seq<Bytes> {
    if packets == [] then []
    else
      var last := packets[|packets| - 1];
      WellFormedOf(packets[..|packets| - 1]) + if WellFormed(last) then [last] else []
  }

  lemma {:induction false} ProtectedJoins(e: Excluded, a: seq<Bytes>, b: seq<Bytes>)
    ensures ProtectedOf(e, a + b) == ProtectedOf(e, a) + ProtectedOf(e, b)
  {
    hide Protected;
    if b == [] {
      assert a + b == a;
    } else {
      assert (a + b)[..|a + b| - 1] == a + b[..|b| - 1];
      ProtectedJoins(e, a, b[..|b| - 1]);
    }
  }

  /** Protected among the protected: a longer list of exclusions only thins the packets out further. */
  lemma {:induction false} ProtectedTwice(e: Excluded, wider: Excluded, packets: seq<Bytes>)
    requires Within(e, wider)
    ensures ProtectedOf(wider, ProtectedOf(e, packets)) == ProtectedOf(wider, packets)
  {
    if packets != [] {
      var front, last := packets[..|packets| - 1], packets[|packets| - 1];
      ProtectedTwice(e, wider, front);
      if Protected(e, last) {
        ProtectedJoins(wider, ProtectedOf(e, front), [last]);
        OneProtected(wider, last);
      } else {
        assert ProtectedOf(e, packets) == ProtectedOf(e, front) + [] == ProtectedOf(e, front);
        assert ProtectedOf(wider, packets) == ProtectedOf(wider, front) + [] == ProtectedOf(wider, front);
      }
    }
  }

  lemma OneProtected(e: Excluded, packet: Bytes)
    ensures ProtectedOf(e, [packet]) == if Protected(e, packet) then [packet] else []
  {
    assert [packet][..0] == [];
  }

  /** Two lists that agree on the protected packets still do when more is excluded. */
  lemma StillAgree(e: Excluded, wider: Excluded, a: seq<Bytes>, b: seq<Bytes>)
    requires Within(e, wider) && ProtectedOf(e, a) == ProtectedOf(e, b)
    ensures ProtectedOf(wider, a) == ProtectedOf(wider, b)
  {
    ProtectedTwice(e, wider, a);
    ProtectedTwice(e, wider, b);
  }

  // ----- Replaying what was held

  /** `writeSelectedWith` on the packet at `index` of the held ones, with the rewritten table in front of
      the packet its first part came in. */
  function ReplayAt(data: seq<Bytes>, first: nat, table: seq<Bytes>, pmtPid: nat, dropped: set<nat>, index: nat): seq<Bytes>
    requires index < |data|
  {
    var packet := data[index];
    (if index == first then table else []) +
    if (index >= first && PidOf(packet) == pmtPid) || PidOf(packet) in dropped then [] else [packet]
  }

  function Replayed(data: seq<Bytes>, first: nat, table: seq<Bytes>, pmtPid: nat, dropped: set<nat>, count: nat): seq<Bytes>
    requires count <= |data|
  {
    if count == 0 then []
    else Replayed(data, first, table, pmtPid, dropped, count - 1) + ReplayAt(data, first, table, pmtPid, dropped, count - 1)
  }

  /** A replay keeps every protected packet, in order, and adds none. */
  lemma {:induction false} ReplayIsLossless(e: Excluded, data: seq<Bytes>, first: nat, table: seq<Bytes>, pmtPid: nat,
                                            dropped: set<nat>, count: nat)
    requires count <= |data| && pmtPid in e.announced && dropped <= e.dropped
    requires forall i | 0 <= i < |table| :: |table[i]| == PACKET_BYTES && PidOf(table[i]) == pmtPid
    ensures ProtectedOf(e, Replayed(data, first, table, pmtPid, dropped, count)) == ProtectedOf(e, data[..count])
  {
    hide Protected, ReplayAt, PidOf, ProtectedOf;
    if count == 0 {
      assert data[..0] == [];
    } else {
      ReplayIsLossless(e, data, first, table, pmtPid, dropped, count - 1);
      var before := Replayed(data, first, table, pmtPid, dropped, count - 1);
      var packet := data[count - 1];
      ProtectedJoins(e, before, ReplayAt(data, first, table, pmtPid, dropped, count - 1));
      TableIsUnprotected(e, table, pmtPid);
      ReplayOne(e, data, first, table, pmtPid, dropped, count - 1);
      assert data[..count] == data[..count - 1] + [packet];
      ProtectedJoins(e, data[..count - 1], [packet]);
    }
  }

  lemma ReplayOne(e: Excluded, data: seq<Bytes>, first: nat, table: seq<Bytes>, pmtPid: nat, dropped: set<nat>, index: nat)
    requires index < |data| && pmtPid in e.announced && dropped <= e.dropped && ProtectedOf(e, table) == []
    ensures ProtectedOf(e, ReplayAt(data, first, table, pmtPid, dropped, index)) == ProtectedOf(e, [data[index]])
  {
    hide WellFormed;
    var packet := data[index];
    var head := if index == first then table else [];
    var tail := if (index >= first && PidOf(packet) == pmtPid) || PidOf(packet) in dropped then [] else [packet];
    ProtectedJoins(e, head, tail);
    OneProtected(e, packet);
    assert [] + ProtectedOf(e, tail) == ProtectedOf(e, tail);
  }

  lemma {:induction false} TableIsUnprotected(e: Excluded, table: seq<Bytes>, pmtPid: nat)
    requires pmtPid in e.announced
    requires forall i | 0 <= i < |table| :: |table[i]| == PACKET_BYTES && PidOf(table[i]) == pmtPid
    ensures ProtectedOf(e, table) == []
  {
    if table != [] { TableIsUnprotected(e, table[..|table| - 1], pmtPid); }
  }

  /** From the rewritten table on, a replay holds no other packet of the table's PID and none of a stream
      that was left out. */
  lemma ReplayIsSelective(data: seq<Bytes>, first: nat, table: seq<Bytes>, pmtPid: nat, dropped: set<nat>, count: nat)
    requires first <= count <= |data| && pmtPid !in dropped
    requires forall i | 0 <= i < |table| :: PidOf(table[i]) == pmtPid
    ensures var before := Replayed(data, first, table, pmtPid, dropped, first);
      var all := Replayed(data, first, table, pmtPid, dropped, count);
      && before <= all && (forall p | p in all :: PidOf(p) !in dropped)
      && (count > first ==> before + table <= all)
      && (count > first ==> forall i | |before| + |table| <= i < |all| :: PidOf(all[i]) != pmtPid)
  {
    hide PidOf, Replayed;
    NoneIsDropped(data, first, table, pmtPid, dropped, count);
    if count > first { NoOtherTable(data, first, table, pmtPid, dropped, count); }
  }

  lemma {:induction false} NoOtherTable(data: seq<Bytes>, first: nat, table: seq<Bytes>, pmtPid: nat,
                                        dropped: set<nat>, count: nat)
    requires first < count <= |data|
    ensures var before := Replayed(data, first, table, pmtPid, dropped, first);
      var all := Replayed(data, first, table, pmtPid, dropped, count);
      before + table <= all && forall i | |before| + |table| <= i < |all| :: PidOf(all[i]) != pmtPid
  {
    hide PidOf;
    var (packet, all) := (data[count - 1], Replayed(data, first, table, pmtPid, dropped, count - 1));
    var rest := if PidOf(packet) == pmtPid || PidOf(packet) in dropped then [] else [packet];
    if count - 1 > first {
      NoOtherTable(data, first, table, pmtPid, dropped, count - 1);
      assert ReplayAt(data, first, table, pmtPid, dropped, count - 1) == [] + rest == rest;
      OthersFollow(Replayed(data, first, table, pmtPid, dropped, first) + table, all, rest, pmtPid);
    } else {
      Associates(all, table, rest);
      OthersFollow(all + table, all + table, rest, pmtPid);
    }
  }

  lemma OthersFollow(front: seq<Bytes>, all: seq<Bytes>, rest: seq<Bytes>, pid: nat)
    requires front <= all && (forall i | |front| <= i < |all| :: PidOf(all[i]) != pid) && forall p | p in rest :: PidOf(p) != pid
    ensures front <= all + rest && forall i | |front| <= i < |all + rest| :: PidOf((all + rest)[i]) != pid
  {
    hide PidOf;
  }

  lemma {:induction false} NoneIsDropped(data: seq<Bytes>, first: nat, table: seq<Bytes>, pmtPid: nat,
                                         dropped: set<nat>, count: nat)
    requires count <= |data| && pmtPid !in dropped
    requires forall i | 0 <= i < |table| :: PidOf(table[i]) == pmtPid
    ensures forall p | p in Replayed(data, first, table, pmtPid, dropped, count) :: PidOf(p) !in dropped
  {
    hide PidOf;
    if count > 0 {
      NoneIsDropped(data, first, table, pmtPid, dropped, count - 1);
      assert forall p | p in ReplayAt(data, first, table, pmtPid, dropped, count - 1) :: PidOf(p) !in dropped;
    }
  }

  // ----- Facts about the parts

  lemma {:induction false} BodySections(psi: Psi, start: bool, data: Bytes)
    requires psi.Valid()
    ensures var r := FedBody(psi, start, data);
      (forall i | 0 <= i < |r.sections| :: 12 <= |r.sections[i]| <= MAX_HELD) &&
      (!r.issue.NoIssue? ==> r.psi.section == []) && !r.duplicate
    decreases |data|
  {
    hide ValidCrc;
    if data != [] && !(psi.section == [] && data[0] == 0xff) {
      var r := Append(psi.section, psi.want, data);
      if r.Whole? { BodySections(psi.(section := [], want := 0), start, r.rest); }
    }
  }

  /** A section ends, or stays open, only if it starts in this packet or was open before it. */
  lemma FedSections(psi: Psi, packet: Bytes, p: Packet)
    requires psi.Valid() && (p.hasPayload ==> p.payload != [])
    ensures var r := FedPacket(psi, packet, p);
      && (r.sections != [] || r.psi.section != [] ==> p.start || psi.section != [])
      && (r.duplicate ==> r.psi == psi && r.sections == []) && (!r.issue.NoIssue? ==> r.psi.section == [])
      && (forall i | 0 <= i < |r.sections| :: 12 <= |r.sections[i]| <= MAX_HELD)
  {
    hide ValidCrc, FedBody;
    var at := if p.discontinuity then Reset else psi;
    var next := at.(known := true, cc := p.continuity, previous := packet);
    if p.hasPayload && p.start && p.payload[0] <= |p.payload| - 1 {
      BodySections(next.(section := [], want := 0, waiting := false), true, p.payload[1 + p.payload[0]..]);
    }
    if p.hasPayload && !p.start { BodySections(next, false, p.payload); }
  }

  lemma {:induction false} ContinuedPids(pid: nat, continuity: nat, rest: Bytes)
    requires pid <= NULL_PID
    ensures forall p | p in Continued(pid, continuity, rest) :: |p| == PACKET_BYTES && PidOf(p) == pid
    decreases |rest|
  {
    if |rest| > 0 {
      var count := if |rest| < PACKET_BYTES - 4 then |rest| else PACKET_BYTES - 4;
      ContinuedPids(pid, continuity + 1, rest[count..]);
      HeaderPid(pid, continuity, false, rest[..count]);
    }
  }

  lemma HeaderPid(pid: nat, continuity: nat, start: bool, content: Bytes)
    requires pid <= NULL_PID && |content| <= PACKET_BYTES - 4
    ensures PidOf(Stuffed(Header(pid, continuity, start), content)) == pid
  {
    var packet := Stuffed(Header(pid, continuity, start), content);
    assert packet[..4] == Header(pid, continuity, start);
    assert packet[1] == packet[..4][1] && packet[2] == packet[..4][2];
  }

  lemma TablePids(pid: nat, continuity: nat, section: Bytes)
    requires Packetisable(pid, section)
    ensures forall i | 0 <= i < |Packets(pid, continuity, section)| ::
      |Packets(pid, continuity, section)[i]| == PACKET_BYTES && PidOf(Packets(pid, continuity, section)[i]) == pid
  {
    hide PidOf;
    var count := if |section| < PACKET_BYTES - 5 then |section| else PACKET_BYTES - 5;
    HeaderPid(pid, continuity, true, [0] + section[..count]);
    ContinuedPids(pid, continuity + 1, section[count..]);
  }

  /** `pmtIssue`: the shape of a program map before its content is read. */
  function EntriesIssue(data: Bytes, count: nat): Issue
    decreases |data|
  {
    if data == [] then NoIssue
    else if |data| < 5 then Structure
    else if count + 1 > MAX_ELEMENTARY_STREAMS then Limit
    else if EntrySize(data) > |data| then Structure
    else EntriesIssue(data[EntrySize(data)..], count + 1)
  }

  function PmtIssue(section: Bytes): Issue {
    if |section| < 16 || section[0] != 2 || StreamsStart(section) > |section| - 4 then Structure
    else EntriesIssue(section[StreamsStart(section)..|section| - 4], 0)
  }

  lemma {:induction false} EntriesAreNeeded(data: Bytes, count: nat)
    requires ParseStreams(data, count).Ok?
    ensures EntriesIssue(data, count).NoIssue?
    decreases |data|
  {
    if data != [] { EntriesAreNeeded(data[EntrySize(data)..], count + 1); }
  }

  /** The check before the parser refuses nothing the parser would accept. */
  lemma IssueIsNeeded(section: Bytes)
    requires ParsePmt(section).Ok?
    ensures PmtIssue(section).NoIssue?
  {
    EntriesAreNeeded(section[StreamsStart(section)..|section| - 4], 0);
  }

  /** What has been taken in, one packet later. */
  lemma OneMorePacket(before: Excluded, e: Excluded, held: seq<Bytes>, input: seq<Bytes>, packet: Bytes, next: seq<Bytes>)
    requires Within(before, e) && ProtectedOf(before, held) == ProtectedOf(before, input)
    requires ProtectedOf(e, next) == ProtectedOf(e, held + [packet])
    ensures ProtectedOf(e, next) == ProtectedOf(e, input + [packet])
  {
    StillAgree(before, e, held, input);
    ProtectedJoins(e, held, [packet]);
    ProtectedJoins(e, input, [packet]);
  }

  lemma AnnouncedIsThere(pats: set<Bytes>, section: Bytes)
    requires section in pats && ParsePat(section).Ok?
    ensures ParsePat(section).value.pmtPid in AnnouncedBy(pats)
  {
    hide ParsePat;
  }

  lemma DroppedIsThere(pmts: set<Bytes>, section: Bytes, captions: bool, data: bool)
    requires section in pmts
    ensures DroppedIn(section, captions, data) <= DroppedBy(pmts, captions, data)
  {
    hide DroppedIn;
  }

  // ----- The filter

  class Filter {
    const captions: bool
    const data: bool
    var initialized: bool
    var pmtKnown: bool
    var raw: bool
    var finished: bool
    var pmtPid: nat
    var pmtContinuity: nat
    var dropped: set<nat>
    var generation: nat
    var pat: Psi
    var pmt: Psi
    var discovery: seq<Bytes>
    var firstPmt: int
    var pending: seq<Bytes>
    var output: seq<Bytes>

    ghost const untouched: bool   // everything is kept from the start
    ghost var input: seq<Bytes>
    ghost var stream: seq<Emission>   // the packets with their generations
    ghost var look: Look              // what they say about their tables
    ghost var excluded: Excluded

    constructor (captions: bool, data: bool, unverified: bool)
      ensures Valid() && input == [] && output == [] && stream == [] && untouched == (unverified || (captions && data))
      ensures excluded == Excluded({}, {}) && !finished && this.captions == captions && this.data == data
    {
      this.captions, this.data, raw := captions, data, unverified;
      untouched := unverified || (captions && data);
      initialized, pmtKnown, finished, pmtPid, pmtContinuity, dropped, generation := false, false, false, 0, 0, {}, 0;
      pat, pmt, discovery, firstPmt, pending, output := Zero, Zero, [], -1, [], [];
      input, stream, look, excluded := [], [], NOTHING_SEEN, Excluded({}, {});
    }

    predicate Selecting() { !captions || !data }

    /** Everything taken in that may still matter, in order. */
    function Held(): seq<Bytes>
      reads this
    {
      output + discovery + pending
    }

    ghost predicate Tables()
      reads this
    {
      && pat.Valid() && pmt.Valid() && pmtContinuity < 16 && dropped <= excluded.dropped
      && (pmtKnown ==> 0 < pmtPid <= 0x1ffe) && (pmtKnown && Choosing() ==> pmtPid in excluded.announced)
      && (initialized ==> pmtKnown)
      && excluded.announced <= AnnouncedBy(look.pats) && excluded.dropped <= DroppedBy(look.pmts, captions, data)
    }

    /** As long as packets may still be left out. */
    predicate Choosing()
      reads this`raw
    {
      !raw && Selecting()
    }

    /** The tables are read as a look reads them. */
    ghost predicate At(l: Look)
      reads this`pat, this`pmt, this`pmtKnown, this`pmtPid
    {
      pat == l.pat && pmt == l.pmt && pmtKnown == l.pmtPid.Some? && (pmtKnown ==> pmtPid == l.pmtPid.value)
    }

    /** The tables are read as the stream so far says. */
    ghost predicate InStep()
      reads this
    {
      Choosing() ==> At(look) && generation == look.generation
    }

    ghost predicate Buffers()
      reads this
    {
      && (initialized ==> discovery == []) && (!initialized ==> pending == [])
      && (raw || !Selecting() ==> discovery == [] && pending == [])
      && -1 <= firstPmt && (!initialized && !raw ==> firstPmt < |discovery| || firstPmt == -1)
      && (!initialized && !raw && Selecting() && pmt.section != [] ==> firstPmt >= 0)
      && (untouched ==> raw || !Selecting())
    }

    ghost predicate Valid()
      reads this
    {
      && Tables() && Buffers() && InStep() && look == Looked(stream) && input == PacketsOf(stream)
      && ProtectedOf(excluded, Held()) == ProtectedOf(excluded, input) && (untouched ==> output == WellFormedOf(input))
    }

    // ----- Steps

    /** Nothing has been lost or added while more became excluded. */
    twostate predicate Kept(before: seq<Bytes>)
      reads this
    {
      Within(old(excluded), excluded) && ProtectedOf(excluded, Held()) == ProtectedOf(excluded, before)
    }

    method WritePacket(packet: Bytes)
      modifies this`output
      ensures output == old(output) + [packet]
    {
      output := output + [packet];
    }

    /** `fallback`: from here on everything is written, starting with what was held back. */
    method Fallback()
      modifies this`raw, this`output, this`discovery, this`pending
      ensures raw && output == old(Held()) && discovery == [] && pending == []
    {
      raw := true;
      output := output + discovery + pending;
      discovery, pending := [], [];
    }

    method ResetPsi()
      modifies this`pat, this`pmt
      ensures pat == Reset && pmt == Reset
    {
      pat, pmt := Reset, Reset;
    }

    /** The program map PID of one PAT section; a change starts the program map over. */
    method AdoptPat(pid: nat, discovering: bool)
      requires Tables() && 0 < pid <= 0x1ffe && (Choosing() ==> pid in AnnouncedBy(look.pats))
      modifies this`pmt, this`pmtPid, this`pmtKnown, this`firstPmt, this`excluded
      ensures Tables() && Within(old(excluded), excluded) && excluded.dropped == old(excluded.dropped)
      ensures pmtKnown && pmtPid == pid && (!Choosing() ==> excluded == old(excluded))
      ensures if old(pmtKnown && pmtPid == pid) then pmt == old(pmt) && firstPmt == old(firstPmt)
        else pmt == Reset && firstPmt == if discovering then -1 else old(firstPmt)
    {
      hide AnnouncedBy, DroppedBy;
      if !pmtKnown || pid != pmtPid {
        pmt := Reset;
        if discovering { firstPmt := -1; }
      }
      pmtPid, pmtKnown := pid, true;
      if Choosing() { excluded := excluded.(announced := excluded.announced + {pmtPid}); }
    }

    /** Adopts the program map PID of the last PAT among the sections. */
    method AdoptPats(sections: seq<Bytes>, discovering: bool, ghost l: Look)
      requires Tables() && (Choosing() ==> At(l) && look == Announced(l, sections))
      modifies this`pmt, this`pmtPid, this`pmtKnown, this`firstPmt, this`excluded
      ensures Tables() && Within(old(excluded), excluded) && excluded.dropped == old(excluded.dropped)
      ensures if Choosing() then At(Announced(l, sections)) else excluded == old(excluded)
      ensures (pmt == old(pmt) && firstPmt == old(firstPmt)) || (pmt == Reset && firstPmt == if discovering then -1 else old(firstPmt))
    {
      hide AnnouncedBy, DroppedBy, ParsePat;
      assert sections[..0] == [];
      for i := 0 to |sections|
        invariant Tables() && Within(old(excluded), excluded) && excluded.dropped == old(excluded.dropped)
        invariant if Choosing() then At(Announced(l, sections[..i])) else excluded == old(excluded)
        invariant (pmt == old(pmt) && firstPmt == old(firstPmt)) || (pmt == Reset && firstPmt == if discovering then -1 else old(firstPmt))
      {
        var parsed := ParsePat(sections[i]);
        assert sections[..i + 1][..i] == sections[..i];
        if parsed.Ok? {
          PmtPidInRange(sections[i]);
          if Choosing() {
            AnnouncedGrows(l, sections);
            AnnouncedIsThere(look.pats, sections[i]);
          }
          AdoptPat(parsed.value.pmtPid, discovering);
        }
      }
      assert sections[..|sections|] == sections;
    }

    /** `replay`. */
    method Replay(held: seq<Bytes>, first: nat, section: Bytes, without: set<nat>)
      requires pmtKnown && 0 < pmtPid <= 0x1ffe && 12 <= |section| <= MAX_HELD && pmtContinuity < 16
      requires pmtPid in excluded.announced && without <= excluded.dropped && first < |held|
      modifies this`output, this`pmtContinuity
      ensures pmtContinuity < 16
      ensures var table := Packets(pmtPid, old(pmtContinuity), section);
        output == old(output) + Replayed(held, first, table, pmtPid, without, |held|)
      ensures ProtectedOf(excluded, output) == ProtectedOf(excluded, old(output) + held)
    {
      hide Packets, PidOf, ProtectedOf;
      var packets := PacketizeSection(pmtPid, pmtContinuity, section);
      var table := packets.value;
      TablePids(pmtPid, pmtContinuity, section);
      ghost var before, continuity := output, pmtContinuity;
      assert before + [] == before;
      for index := 0 to |held|
        invariant output == before + Replayed(held, first, table, pmtPid, without, index)
        invariant pmtContinuity < 16
      {
        var packet := held[index];
        ghost var so := output;
        if index == first {
          output := output + table;
          pmtContinuity := (pmtContinuity + |table|) % 16;
        }
        if (index >= first && PidOf(packet) == pmtPid) || PidOf(packet) in without {
        } else {
          WritePacket(packet);
        }
        assert output == so + ReplayAt(held, first, table, pmtPid, without, index);
        Associates(before, Replayed(held, first, table, pmtPid, without, index), ReplayAt(held, first, table, pmtPid, without, index));
      }
      ReplayIsLossless(excluded, held, first, table, pmtPid, without, |held|);
      assert held[..|held|] == held;
      ProtectedJoins(excluded, before, Replayed(held, first, table, pmtPid, without, |held|));
      ProtectedJoins(excluded, before, held);
    }

    /** `observeTables`: in raw and in complete recordings the tables are only looked at. */
    method ObserveTables(packet: Bytes, p: Packet)
      requires Tables() && (p.hasPayload ==> p.payload != [])
      requires !Choosing()
      modifies this`pat, this`pmt, this`pmtPid, this`pmtKnown, this`firstPmt, this`excluded
      ensures Tables() && excluded == old(excluded) && firstPmt == old(firstPmt)
    {
      hide AnnouncedBy, DroppedBy, ProtectedOf;
      if p.pid == 0 {
        var fed := FedPacket(pat, packet, p);
        pat := fed.psi;
        AdoptPats(fed.sections, false, look);
      } else if pmtKnown && p.pid == pmtPid {
        pmt := FedPacket(pmt, packet, p).psi;
      }
    }

    /** Adopts a program map: from here on its streams decide what is written. The rewritten table stands
        where its first packet came in, and the first one takes over that packet's counter. */
    method AdoptPmt(section: Bytes, held: seq<Bytes>, first: nat, starting: bool) returns (adopted: bool)
      requires Tables() && Choosing() && pmtKnown && 12 <= |section| <= MAX_HELD && first < |held|
      requires section in look.pmts
      modifies this`dropped, this`output, this`pmtContinuity, this`excluded
      ensures Tables() && (adopted <==> ParsePmt(section).Ok?)
      ensures !adopted ==> output == old(output) && excluded == old(excluded)
      ensures adopted ==>
        excluded == old(excluded).(dropped := old(excluded).dropped + DroppedIn(section, captions, data))
      ensures adopted ==> ProtectedOf(excluded, output) == ProtectedOf(excluded, old(output) + held)
    {
      hide ParsePmt, ProtectedOf, AnnouncedBy, DroppedBy, Replayed, Packets, StreamsStart, Bits12, DroppedPids, ValidCrc;
      var rewritten := RewritePmt(section, captions, data);
      if rewritten.Err? { return false; }
      var (table, without) := rewritten.value;
      TableLength(table);
      DroppedIsThere(look.pmts, section, captions, data);
      excluded := excluded.(dropped := excluded.dropped + without);
      dropped := without;
      if starting { pmtContinuity := ContinuityOf(held[first]); }
      Replay(held, first, table, without);
      adopted := true;
    }

    /** The discovery of the program map among packets that are held back. */
    method DiscoverPmt(packet: Bytes, p: Packet)
      requires Tables() && Buffers() && !initialized && !raw && Selecting() && !untouched && pmtKnown && p.pid == pmtPid
      requires discovery != [] && discovery[|discovery| - 1] == packet && WellFormed(packet)
      requires p.hasPayload ==> p.payload != []
      requires look.pmt == FedPacket(pmt, packet, p).psi && At(look.(pmt := pmt))
      requires forall s | s in FedPacket(pmt, packet, p).sections :: s in look.pmts
      modifies this`pmt, this`firstPmt, this`initialized, this`raw, this`pmtContinuity, this`dropped, this`output,
               this`discovery, this`pending, this`excluded
      ensures Tables() && Buffers() && Kept(old(Held())) && (Choosing() ==> At(look))
    {
      hide ProtectedOf, WellFormed, AnnouncedBy, DroppedBy, ParsePmt, FedPacket, PmtIssue;
      var fed := FedPacket(pmt, packet, p);
      FedSections(pmt, packet, p);
      pmt := fed.psi;
      if fed.issue.Limit? { Fallback(); HeldIs(old(Held())); return; }
      if !fed.issue.NoIssue? { firstPmt := -1; return; }
      if p.start && !fed.duplicate { firstPmt := |discovery| - 1; }
      if fed.sections == [] { return; }
      var section := fed.sections[|fed.sections| - 1];
      if !PmtIssue(section).NoIssue? {
        if PmtIssue(section).Limit? { Fallback(); HeldIs(old(Held())); }
        return;
      }
      var adopted := AdoptPmt(section, discovery, firstPmt, true);
      if adopted {
        initialized, discovery := true, [];
        HeldIs(output);
        NothingPending(old(output), old(discovery));
      }
    }

    lemma HeldIs(all: seq<Bytes>)
      requires output == all && discovery == [] && pending == []
      ensures Held() == all
    {
    }

    /** `discover`. */
    method Discover(packet: Bytes, p: Packet, ghost l: Look)
      requires Tables() && Buffers() && !initialized && !raw && Selecting() && !untouched
      requires discovery != [] && discovery[|discovery| - 1] == packet && WellFormed(packet)
      requires p.hasPayload ==> p.payload != []
      requires At(l) && Read(packet, p) && look == LookPacket(l, packet) && !(Tei(packet) && IsControl(p.pid))
      modifies this`pat, this`pmt, this`pmtPid, this`pmtKnown, this`firstPmt, this`initialized, this`raw,
               this`pmtContinuity, this`dropped, this`output, this`discovery, this`pending, this`excluded
      ensures Tables() && Buffers() && Kept(old(Held())) && (Choosing() ==> At(look))
    {
      hide ProtectedOf, WellFormed, AnnouncedBy, DroppedBy, ParsePat, FedPacket;
      LookReads(l, packet, p);
      if p.pid == 0 {
        var fed := FedPacket(pat, packet, p);
        pat := fed.psi;
        if fed.issue.Limit? {
          Fallback();
          HeldIs(old(Held()));
          return;
        }
        AdoptPats(fed.sections, true, l.(pat := fed.psi));
        AnnouncedGrows(l.(pat := fed.psi), fed.sections);
        return;
      }
      if !pmtKnown || p.pid != pmtPid { return; }
      DiscoverPmt(packet, p);
    }

    /** The end of a program map update that cannot be trusted, or has outgrown its buffer. */
    method FallbackAndWrite(packet: Bytes)
      requires Tables() && Buffers()
      modifies this`raw, this`output, this`discovery, this`pending
      ensures Tables() && Buffers() && raw && Held() == old(Held()) + [packet]
    {
      hide AnnouncedBy, DroppedBy, ProtectedOf;
      Fallback();
      WritePacket(packet);
      HeldIs(old(Held()) + [packet]);
    }

    /** Whether a packet repeats the last one of the program map. */
    predicate RepeatsPmt(packet: Bytes, p: Packet)
      reads this
    {
      p.pid == pmtPid && pmt.known && p.continuity == pmt.cc && !p.discontinuity && packet == pmt.previous
    }

    /** The packets of a program map update are held back until it is complete. */
    method UpdatePmt(packet: Bytes, p: Packet)
      requires Tables() && Buffers() && initialized && !raw && Selecting() && !untouched && p.pid == pmtPid
      requires pending != [] && (p.hasPayload ==> p.payload != [])
      requires look.pmt == FedPacket(pmt, packet, p).psi && At(look.(pmt := pmt))
      requires forall s | s in FedPacket(pmt, packet, p).sections :: s in look.pmts
      modifies this`pmt, this`raw, this`pmtContinuity, this`dropped, this`output, this`discovery, this`pending,
               this`excluded
      ensures Tables() && Buffers() && Kept(old(Held())) && (Choosing() ==> At(look))
    {
      hide ProtectedOf, WellFormed, AnnouncedBy, DroppedBy, ParsePmt, FedPacket, PmtIssue;
      var fed := FedPacket(pmt, packet, p);
      FedSections(pmt, packet, p);
      pmt := fed.psi;
      if !fed.issue.NoIssue? { Fallback(); HeldIs(old(Held())); return; }
      if fed.sections == [] { return; }
      var section := fed.sections[|fed.sections| - 1];
      if !PmtIssue(section).NoIssue? { Fallback(); HeldIs(old(Held())); return; }
      var adopted := AdoptPmt(section, pending, 0, false);
      if adopted {
        NothingHeld(old(output), old(pending));
        pending := [];
        HeldIs(output);
      } else {
        Fallback();
        HeldIs(old(Held()));
      }
    }

    /** What an initialized filter makes of a packet. */
    twostate predicate Took(packet: Bytes)
      reads this
    {
      && Tables() && Buffers() && InStep() && Kept(old(Held()) + [packet]) && input == old(input)
      && finished == old(finished) && generation == old(generation) && stream == old(stream) && look == old(look)
    }

    /** A packet of an announced or dropped PID is not a protected one. */
    lemma SkippedIsUnprotected(packet: Bytes)
      requires PidOf(packet) in excluded.announced || PidOf(packet) in excluded.dropped
      ensures ProtectedOf(excluded, Held()) == ProtectedOf(excluded, Held() + [packet])
    {
      ProtectedJoins(excluded, Held(), [packet]);
      OneProtected(excluded, packet);
      assert !Protected(excluded, packet);
      assert ProtectedOf(excluded, Held()) + [] == ProtectedOf(excluded, Held());
    }

    /** A packet outside the program map, with no update under way. */
    method WriteSelected(packet: Bytes)
      requires Tables() && Buffers() && InStep() && initialized && pending == []
      modifies this`output
      ensures Took(packet)
      ensures output == if PidOf(packet) in dropped then old(output) else old(output) + [packet]
    {
      hide WellFormed, PidOf, ProtectedOf, AnnouncedBy, DroppedBy;
      HeldIs(output);
      if PidOf(packet) in dropped {
        SkippedIsUnprotected(packet);
      } else {
        WritePacket(packet);
        HeldIs(old(Held()) + [packet]);
      }
    }

    /** A packet of the program map without payload goes through. */
    method WriteEmpty(packet: Bytes, p: Packet)
      requires Tables() && Buffers() && initialized && Choosing() && pending == [] && !p.hasPayload
      requires look.pmt == FedPacket(pmt, packet, p).psi && At(look.(pmt := pmt)) && generation == look.generation
      modifies this`pmt, this`output
      ensures Took(packet)
    {
      hide ProtectedOf, AnnouncedBy, DroppedBy;
      pmt := FedPacket(pmt, packet, p).psi;
      WritePacket(packet);
      HeldIs(old(Held()) + [packet]);
    }

    /** One more packet behind a program map update that is under way. */
    method Postpone(packet: Bytes)
      requires Tables() && Buffers() && initialized && Choosing()
      modifies this`pending
      ensures Tables() && Buffers() && pending == old(pending) + [packet] && Held() == old(Held()) + [packet]
    {
      hide AnnouncedBy, DroppedBy, ProtectedOf;
      Associates(output + discovery, pending, [packet]);
      pending := pending + [packet];
    }

    /** `writeInitialized`. The program map PID is fed here; the look has been fed already. */
    method WriteInitialized(packet: Bytes, p: Packet, ghost l: Look)
      requires Tables() && Buffers() && initialized && !raw && Selecting() && !untouched
      requires PidOf(packet) == p.pid && (p.hasPayload ==> p.payload != []) && generation == look.generation
      requires if p.pid == pmtPid then At(l) && Read(packet, p) && look == LookPacket(l, packet) && !Tei(packet) else At(look)
      modifies this`pmt, this`raw, this`pmtContinuity, this`dropped, this`output, this`discovery, this`pending,
               this`excluded
      ensures Took(packet)
      ensures old(pending == []) && p.pid != old(pmtPid) ==>
        output == if p.pid in old(dropped) then old(output) else old(output) + [packet]
    {
      hide ProtectedOf, WellFormed, AnnouncedBy, DroppedBy, FedPacket, PidOf, LookPacket, PacketsOf;
      if p.pid == pmtPid { LookReads(l, packet, p); }
      if pending == [] && p.pid != pmtPid { WriteSelected(packet); return; }
      if pending == [] && !p.hasPayload { WriteEmpty(packet, p); return; }
      if RepeatsPmt(packet, p) {
        RepeatIsNothing(pmt, packet, p);
        SkippedIsUnprotected(packet);
        return;
      }
      if pending == [] && !p.start { FallbackAndWrite(packet); return; }
      if PACKET_BYTES * |pending| + PACKET_BYTES > MAX_PSI_BUFFER { FallbackAndWrite(packet); return; }
      Postpone(packet);
      if p.pid == pmtPid { UpdatePmt(packet, p); }
    }

    /** The packet is what the parser reads from it. */
    predicate Read(packet: Bytes, p: Packet) {
      |packet| == PACKET_BYTES && ParseRecording(packet) == Result.Ok(p) && PidOf(packet) == p.pid
    }

    /** What the look makes of a packet of a table, as seen from the filter. */
    lemma LookReads(l: Look, packet: Bytes, p: Packet)
      requires Read(packet, p) && (p.hasPayload ==> p.payload != []) && (pmtKnown ==> pmtPid > 0)
      requires At(l) && !(Tei(packet) && IsControl(p.pid))
      ensures p.pid == 0 ==>
        LookPacket(l, packet) == Announced(l.(pat := FedPacket(pat, packet, p).psi), FedPacket(pat, packet, p).sections)
      ensures p.pid != 0 && IsControl(p.pid) ==>
        LookPacket(l, packet) == l.(pmt := FedPacket(pmt, packet, p).psi, pmts := LookPacket(l, packet).pmts) &&
        forall s | s in FedPacket(pmt, packet, p).sections :: s in LookPacket(l, packet).pmts
      ensures !IsControl(p.pid) ==> LookPacket(l, packet) == l
    {
      hide FedPacket, ParseRecording, PidOf, Announced;
    }

    // ----- One packet

    /** After a resynchronisation the tables start over, and an update under way is given up. */
    method NewGeneration(current: nat)
      requires Tables() && Buffers() && InStep()
      modifies this`generation, this`pat, this`pmt, this`raw, this`output, this`discovery, this`pending, this`look
      ensures Tables() && Buffers() && InStep() && Held() == old(Held()) && generation == current
      ensures look == Turned(old(look), current)
      ensures old(pending) == [] ==> output == old(output) && raw == old(raw)
    {
      hide AnnouncedBy, DroppedBy, ProtectedOf;
      look := Turned(look, current);
      if generation == current { return; }
      generation := current;
      ResetPsi();
      if pending != [] {
        Fallback();
        HeldIs(old(Held()));
      }
    }

    predicate IsControl(pid: nat)
      reads this
    {
      pid == 0 || (pmtKnown && pid == pmtPid)
    }

    method ResetTable(pid: nat)
      requires Tables() && Buffers()
      modifies this`pat, this`pmt
      ensures Tables() && Buffers()
      ensures if pid == 0 then pat == Reset && pmt == old(pmt) else pmt == Reset && pat == old(pat)
    {
      hide AnnouncedBy, DroppedBy, ProtectedOf;
      if pid == 0 { pat := Reset; } else { pmt := Reset; }
    }

    lemma LeavesOut(packet: Bytes)
      requires !Protected(excluded, packet)
      ensures ProtectedOf(excluded, Held() + [packet]) == ProtectedOf(excluded, Held())
    {
      ProtectedJoins(excluded, Held(), [packet]);
      OneProtected(excluded, packet);
      assert ProtectedOf(excluded, Held()) + [] == ProtectedOf(excluded, Held());
    }

    /** As long as packets may be left out, the tables are read as they were before the packet came. */
    ghost predicate Behind(l: Look)
      reads this
    {
      Choosing() ==> At(l) && generation == look.generation
    }

    /** A packet that is left out: malformed, or a table packet with a transport error. */
    method LeaveOut(packet: Bytes, ghost l: Look)
      requires Tables() && Buffers() && !Protected(excluded, packet) && Behind(l) && look == Broken(l, PidOf(packet))
      modifies this
      ensures Took(packet) && (untouched ==> output == old(output))
    {
      hide ProtectedOf, Protected, PidOf, AnnouncedBy, DroppedBy;
      LeavesOut(packet);
      if IsControl(PidOf(packet)) {
        ResetTable(PidOf(packet));
        if initialized && Selecting() && !raw {
          Fallback();
          HeldIs(old(Held()));
        }
      }
    }

    /** A packet of a recording that keeps everything, or can no longer select. */
    method WriteThrough(packet: Bytes, p: Packet, tei: bool)
      requires Tables() && Buffers() && !Choosing() && (p.hasPayload ==> p.payload != [])
      modifies this
      ensures Took(packet) && output == old(output) + [packet]
    {
      hide ProtectedOf, FedPacket, AnnouncedBy, DroppedBy, WellFormedOf;
      if tei && IsControl(p.pid) { ResetTable(p.pid); } else { ObserveTables(packet, p); }
      WritePacket(packet);
      HeldIs(old(Held()) + [packet]);
    }

    /** A packet the selection has to look at, after the stream has been read up to it. */
    ghost predicate Facing(packet: Bytes, p: Packet, l: Look)
      reads this
    {
      && Tables() && Buffers() && Choosing() && !untouched && Behind(l) && Read(packet, p)
      && look == LookPacket(l, packet) && (p.hasPayload ==> p.payload != []) && !(Tei(packet) && IsControl(p.pid))
    }

    /** One more packet to look back to once the program map is found. */
    method LookBack(packet: Bytes)
      requires Tables() && Buffers() && !initialized && Choosing()
      modifies this`discovery
      ensures Tables() && Buffers() && discovery == old(discovery) + [packet] && Held() == old(Held()) + [packet]
    {
      hide AnnouncedBy, DroppedBy, ProtectedOf;
      Associates(output, discovery, [packet]);
      discovery := discovery + [packet];
      NothingPending(output, discovery);
      NothingPending(old(output), old(discovery));
    }

    /** A packet before the program map has been found. */
    method HoldBack(packet: Bytes, p: Packet, ghost l: Look)
      requires Facing(packet, p, l) && !initialized && WellFormed(packet)
      modifies this
      ensures Took(packet)
    {
      hide ProtectedOf, WellFormed, AnnouncedBy, DroppedBy, FedPacket, LookPacket;
      if PACKET_BYTES * |discovery| + PACKET_BYTES > MAX_PSI_BUFFER {
        FallbackAndWrite(packet);
      } else {
        LookBack(packet);
        Discover(packet, p, l);
      }
    }

    /** A packet once the program map is known: a changed or faulty PAT ends the selection. */
    method Select(packet: Bytes, p: Packet, ghost l: Look)
      requires Facing(packet, p, l) && initialized
      modifies this
      ensures Took(packet)
    {
      hide ProtectedOf, WellFormed, AnnouncedBy, DroppedBy, FedPacket, PidOf, ParsePat, LookPacket, Announced;
      LookReads(l, packet, p);
      if p.pid == 0 {
        var fed := FedPacket(pat, packet, p);
        pat := fed.psi;
        if !fed.issue.NoIssue? ||
           exists i | 0 <= i < |fed.sections| ::
             ParsePat(fed.sections[i]).Err? || ParsePat(fed.sections[i]).value.pmtPid != pmtPid {
          FallbackAndWrite(packet);
          return;
        }
        SamePidAnnounced(l.(pat := fed.psi), fed.sections);
        AnnouncedGrows(l.(pat := fed.psi), fed.sections);
      }
      WriteInitialized(packet, p, l);
    }

    /** `processPacket` on a well-formed packet. */
    method ProcessParsed(packet: Bytes, p: Packet, ghost l: Look)
      requires Tables() && Buffers() && Behind(l) && Read(packet, p) && look == LookPacket(l, packet)
      requires WellFormed(packet) && (p.hasPayload ==> p.payload != [])
      modifies this
      ensures Took(packet) && (untouched ==> output == old(output) + [packet])
    {
      hide ProtectedOf, WellFormed, AnnouncedBy, DroppedBy, FedPacket, PidOf;
      if raw || !Selecting() {
        WriteThrough(packet, p, Tei(packet));
      } else if Tei(packet) && IsControl(p.pid) {
        BrokenLook(l, packet, p);
        LeaveOut(packet, l);
      } else if !initialized {
        HoldBack(packet, p, l);
      } else {
        Select(packet, p, l);
      }
    }

    /** A table packet with a transport error breaks its table off and is not protected. */
    lemma BrokenLook(l: Look, packet: Bytes, p: Packet)
      requires Tables() && Choosing() && At(l) && Read(packet, p) && Tei(packet) && IsControl(p.pid)
      ensures LookPacket(l, packet) == Broken(l, PidOf(packet)) && !Protected(excluded, packet)
    {
      hide ParseRecording, PidOf, AnnouncedBy, DroppedBy, WellFormed;
    }

    /** `processPacket` after a change of generation has been dealt with. */
    method ProcessInGeneration(packet: Bytes)
      requires Tables() && Buffers() && InStep() && |packet| == PACKET_BYTES
      modifies this
      ensures Tables() && Buffers() && InStep() && Kept(old(Held()) + [packet]) && look == LookPacket(old(look), packet)
      ensures input == old(input) && stream == old(stream) && finished == old(finished)
      ensures untouched ==> output == old(output) + if WellFormed(packet) then [packet] else []
    {
      hide ProtectedOf, Protected, ParseRecording, PidOf, AnnouncedBy, DroppedBy, WellFormed, Broken, LookPacket;
      ghost var l := look;
      look := LookPacket(l, packet);
      LookGrows(l, packet);
      MoreTables(l.pats, look.pats, l.pmts, look.pmts, captions, data);
      var parsed := ParseRecording(packet);
      if parsed.Err? {
        NotProtected(packet);
        MalformedLook(l, packet);
        assert output + [] == output;
        LeaveOut(packet, l);
      } else {
        ParsedFacts(packet);
        ProcessParsed(packet, parsed.value, l);
      }
    }

    /** `processPacket`: nothing protected is lost, and a recording that keeps everything writes every
        well-formed packet. */
    method ProcessPacket(packet: Bytes, current: nat)
      requires Valid() && |packet| == PACKET_BYTES
      modifies this
      ensures Valid() && stream == old(stream) + [Emission(packet, current)] && finished == old(finished)
      ensures Within(old(excluded), excluded)
    {
      hide ProtectedOf, AnnouncedBy, DroppedBy, WellFormedOf, WellFormed, LookPacket, Turned, Looked;
      NewGeneration(current);
      ghost var held := Held();
      ProcessInGeneration(packet);
      OneMorePacket(old(excluded), excluded, held, input, packet, Held());
      OneMoreWellFormed(input, packet);
      OneMoreEmission(stream, Emission(packet, current));
      assert PacketsOf(stream + [Emission(packet, current)]) == input + [packet];
      stream, input := stream + [Emission(packet, current)], input + [packet];
    }

    /** `Finish`: with leave to write, whatever is still held back is written. */
    method Finish(allowBufferedWrite: bool)
      requires Valid() && !finished
      modifies this
      ensures finished && stream == old(stream)
      ensures untouched ==> output == WellFormedOf(PacketsOf(stream))
      ensures allowBufferedWrite ==> var e := ExcludedBy(stream, captions, data);
        ProtectedOf(e, output) == ProtectedOf(e, PacketsOf(stream))
    {
      hide ProtectedOf, AnnouncedBy, DroppedBy, WellFormedOf, Looked;
      finished := true;
      if Selecting() && (!initialized || pending != []) && allowBufferedWrite {
        Fallback();
      } else if allowBufferedWrite {
        HeldIs(output);
      }
      discovery, pending := [], [];
      if allowBufferedWrite { StillAgree(excluded, ExcludedBy(stream, captions, data), output, input); }
    }
  }

  lemma MalformedLook(l: Look, packet: Bytes)
    requires |packet| == PACKET_BYTES && ParseRecording(packet).Err?
    ensures LookPacket(l, packet) == Broken(l, PidOf(packet))
  {
    hide ParseRecording, PidOf, Broken;
  }

  lemma NotProtected(packet: Bytes)
    requires ParseRecording(packet).Err?
    ensures !WellFormed(packet) && forall e :: !Protected(e, packet)
  {
  }

  lemma OneMoreWellFormed(input: seq<Bytes>, packet: Bytes)
    ensures WellFormedOf(input + [packet]) == WellFormedOf(input) + if WellFormed(packet) then [packet] else []
  {
    assert (input + [packet])[..|input|] == input;
  }

  lemma NothingHeld(output: seq<Bytes>, pending: seq<Bytes>)
    ensures output + [] + pending == output + pending
  {
  }

  lemma NothingPending(output: seq<Bytes>, discovery: seq<Bytes>)
    ensures output + discovery + [] == output + discovery
  {
  }

  /** The parser accepts no table shorter than sixteen bytes. */
  lemma TableLength(section: Bytes)
    requires ParsePmt(section).Ok?
    ensures |section| >= 16
  {
  }

  /** A whole connection: every packet the framer hands on goes through the filter. Up to the PIDs that
      the stream's own tables announce as program maps or list among the streams to leave out, every packet
      is written exactly once, unchanged and in order; a recording that keeps everything is the sequence of
      its well-formed packets. */
  method RecordStream(captions: bool, data: bool, unverified: bool, stream: seq<Emission>) returns (output: seq<Bytes>)
    requires forall i | 0 <= i < |stream| :: |stream[i].packet| == PACKET_BYTES
    ensures var e := ExcludedBy(stream, captions, data);
      ProtectedOf(e, output) == ProtectedOf(e, PacketsOf(stream))
    ensures unverified || (captions && data) ==> output == WellFormedOf(PacketsOf(stream))
  {
    hide ProtectedOf, WellFormedOf, AnnouncedBy, DroppedBy, Looked;
    var filter := new Filter(captions, data, unverified);
    var i := 0;
    while i < |stream|
      invariant 0 <= i <= |stream| && filter.Valid() && !filter.finished && fresh(filter)
      invariant filter.stream == stream[..i] && filter.untouched == (unverified || (captions && data))
      invariant filter.captions == captions && filter.data == data
    {
      assert stream[..i + 1] == stream[..i] + [Emission(stream[i].packet, stream[i].generation)];
      filter.ProcessPacket(stream[i].packet, stream[i].generation);
      i := i + 1;
    }
    assert stream[..i] == stream;
    filter.Finish(true);
    output := filter.output;
  }
}
