/** The program association and program map tables, and the rewriting of a program map for a recording
    that leaves out captions or data. */
module ProgramTables {
  import opened Basics
  import opened Mpegts

  const PRIVATE_PES := 0x06   // carries captions
  const DATA_CAROUSEL := 0x0d

  datatype Pat = Pat(transportStream: nat, program: nat, pmtPid: nat, version: nat)
  datatype Stream = Stream(kind: Byte, pid: nat, descriptor: Bytes)
  datatype Pmt = Pmt(program: nat, pcrPid: nat, version: nat, streams: seq<Stream>)

  /** Twelve and thirteen bit numbers behind reserved bits. */
  function Bits12(high: Byte, low: Byte): nat { U16(high % 16, low) }
  function Bits13(high: Byte, low: Byte): nat { if high % 32 == 0 then low else U16(high % 32, low) }

  function SectionVersion(section: Bytes): nat
    requires |section| > 5
  {
    section[5] / 2 % 32
  }

  /** What a PAT and a PMT have in common: one current section with a true length and CRC. */
  predicate WellFormedTable(section: Bytes, table: Byte) {
    && |section| >= 16 && section[0] == table && section[1] >= 128
    && 3 + Bits12(section[1], section[2]) == |section|
    && section[5] % 2 == 1 && section[6] == 0 && section[7] == 0 && ValidCrc(section)
  }

  // ----- PAT

  /** The entries of a PAT from some position on, given the media program found before it. */
  function ParsePrograms(data: Bytes, pat: Pat): Result<Pat>
    requires |data| % 4 == 0
  {
    if data == [] then Ok(pat)
    else
      var program := U16(data[0], data[1]);
      if program == 0 then ParsePrograms(data[4..], pat)
      else if pat.program != 0 then Err(ErrSingleProgram)
      else ParsePrograms(data[4..], pat.(program := program, pmtPid := Bits13(data[2], data[3])))
  }

  function ParsePat(section: Bytes): Result<Pat> {
    if !WellFormedTable(section, 0) || (|section| - 12) % 4 != 0 then Err(ErrPsi)
    else
      var empty := Pat(U16(section[3], section[4]), 0, 0, SectionVersion(section));
      var parsed := ParsePrograms(section[8..|section| - 4], empty);
      if parsed.Err? then parsed
      else if parsed.value.program == 0 || parsed.value.pmtPid == 0 || parsed.value.pmtPid == NULL_PID then Err(ErrSingleProgram)
      else parsed
  }

  // ----- PMT

  /** One entry of a PMT at the start of `data`. */
  predicate EntryLeads(data: Bytes) {
    && |data| >= 5 && 5 + Bits12(data[3], data[4]) <= |data|
    && Bits13(data[1], data[2]) != 0 && Bits13(data[1], data[2]) != NULL_PID
  }

  function EntrySize(data: Bytes): nat
    requires |data| >= 5
  {
    5 + Bits12(data[3], data[4])
  }

  function EntryStream(data: Bytes): Stream
    requires EntryLeads(data)
  {
    Stream(data[0], Bits13(data[1], data[2]), data[5..EntrySize(data)])
  }

  function ParseStreams(data: Bytes, count: nat): Result<seq<Stream>> {
    if data == [] then Ok([])
    else if |data| < 5 || count >= MAX_ELEMENTARY_STREAMS || !EntryLeads(data) then Err(ErrPsi)
    else
      var rest := ParseStreams(data[EntrySize(data)..], count + 1);
      if rest.Err? then rest else Ok([EntryStream(data)] + rest.value)
  }

  function StreamsStart(section: Bytes): nat
    requires |section| >= 16
  {
    12 + Bits12(section[10], section[11])
  }

  function ParsePmt(section: Bytes): Result<Pmt> {
    if !WellFormedTable(section, 2) then Err(ErrPsi)
    else
      var program := U16(section[3], section[4]);
      var pcrPid := Bits13(section[8], section[9]);
      if program == 0 then Err(ErrPsi)
      else if pcrPid == 0 || pcrPid == NULL_PID then Err(ErrProgramClock)
      else if StreamsStart(section) > |section| - 4 then Err(ErrPsi)
      else
        var streams := ParseStreams(section[StreamsStart(section)..|section| - 4], 0);
        if streams.Err? then Err(streams.error)
        else Ok(Pmt(program, pcrPid, SectionVersion(section), streams.value))
  }

  lemma {:induction false} StreamCount(data: Bytes, count: nat)
    requires ParseStreams(data, count).Ok?
    ensures count + |ParseStreams(data, count).value| <= MAX_ELEMENTARY_STREAMS || data == []
    ensures data == [] <==> ParseStreams(data, count).value == []
  {
    if data != [] { StreamCount(data[EntrySize(data)..], count + 1); }
  }

  lemma LastEntry(entry: Bytes, count: nat)
    requires EntryLeads(entry) && |entry| == EntrySize(entry) && count < MAX_ELEMENTARY_STREAMS
    ensures ParseStreams(entry, count) == Ok([] + [EntryStream(entry)])
  {
    assert entry[EntrySize(entry)..] == [];
    assert [EntryStream(entry)] + [] == [] + [EntryStream(entry)];
  }

  /** An entry written behind others is read behind them. */
  lemma {:induction false} ParseAppended(data: Bytes, count: nat, entry: Bytes)
    requires ParseStreams(data, count).Ok? && EntryLeads(entry) && |entry| == EntrySize(entry)
    requires count + |ParseStreams(data, count).value| < MAX_ELEMENTARY_STREAMS
    ensures ParseStreams(data + entry, count) == Ok(ParseStreams(data, count).value + [EntryStream(entry)])
    decreases |data|
  {
    if data == [] {
      assert data + entry == entry;
      LastEntry(entry, count);
    } else {
      var size := EntrySize(data);
      assert (data + entry)[..5] == data[..5];
      assert (data + entry)[size..] == data[size..] + entry;
      assert (data + entry)[5..size] == data[5..size];
      ParseAppended(data[size..], count + 1, entry);
      Associates([EntryStream(data)], ParseStreams(data[size..], count + 1).value, [EntryStream(entry)]);
    }
  }

  // ----- What a rewritten table lists

  predicate StreamKept(s: Stream, captions: bool, data: bool) {
    !(s.kind == PRIVATE_PES && !captions) && !(s.kind == DATA_CAROUSEL && !data)
  }

  function KeptStreams(streams: seq<Stream>, captions: bool, data: bool): (kept: seq<Stream>)
    ensures |kept| <= |streams|
    ensures forall s :: s in kept <==> s in streams && StreamKept(s, captions, data)
  {
    if streams == [] then []
    else
      var last := streams[|streams| - 1];
      KeptStreams(streams[..|streams| - 1], captions, data) + if StreamKept(last, captions, data) then [last] else []
  }

  /** The PIDs of removed streams, except one that also carries the program clock. */
  function DroppedPids(streams: seq<Stream>, pcrPid: nat, captions: bool, data: bool): set<nat> {
    set s | s in streams && !StreamKept(s, captions, data) && s.pid != pcrPid :: s.pid
  }

  /** The program map a rewritten section means. */
  function Selected(pmt: Pmt, captions: bool, data: bool): Pmt {
    pmt.(version := (pmt.version + 1) % 32, streams := KeptStreams(pmt.streams, captions, data))
  }

  // ----- Rewriting

  function LengthHigh(was: Byte, length: nat): Byte
    requires length < 4096
  {
    was / 16 * 16 + length / 256
  }

  function NextVersion(was: Byte): Byte { was / 64 * 64 + (was / 2 % 32 + 1) % 32 * 2 + was % 2 }

  lemma LengthReads(was: Byte, length: nat)
    requires length < 4096
    ensures Bits12(LengthHigh(was, length), length % 256) == length
    ensures was >= 128 ==> LengthHigh(was, length) >= 128
  {
  }

  lemma VersionReads(was: Byte)
    ensures NextVersion(was) / 2 % 32 == (was / 2 % 32 + 1) % 32 && NextVersion(was) % 2 == was % 2
  {
    var (high, version, low) := (was / 64, (was / 2 % 32 + 1) % 32, was % 2);
    var next := NextVersion(was);
    assert next == 2 * (32 * high + version) + low;
    assert next / 2 == 32 * high + version;
  }

  /** The length and version fields of a section that will end four bytes behind `body`. */
  function Patched(body: Bytes): (section: Bytes)
    requires 12 <= |body| <= 4094
    ensures |section| == |body| && section[0] == body[0] && section[3..5] == body[3..5] && section[6..] == body[6..]
    ensures section[1] == LengthHigh(body[1], |body| + 1) && section[2] == (|body| + 1) % 256
    ensures section[5] == NextVersion(body[5])
  {
    body[1 := LengthHigh(body[1], |body| + 1)][2 := (|body| + 1) % 256][5 := NextVersion(body[5])]
  }

  function Closed(body: Bytes): (section: Bytes)
    requires 12 <= |body| <= 4094
    ensures |section| == |body| + 4 && section[..|body|] == Patched(body)
  {
    Patched(body) + CrcBytes(Crc32(Patched(body)))
  }

  lemma ClosedBytes(body: Bytes, i: nat)
    requires 12 <= |body| <= 4094 && i < |body| && i != 1 && i != 2 && i != 5
    ensures Closed(body)[i] == body[i]
  {
    assert Closed(body)[i] == Closed(body)[..|body|][i] == Patched(body)[i];
    if i >= 6 { assert Patched(body)[6..][i - 6] == body[6..][i - 6]; }
    if 3 <= i < 5 { assert Patched(body)[3..5][i - 3] == body[3..5][i - 3]; }
  }

  /** The fields that are patched say what is there. */
  lemma ClosedFields(body: Bytes)
    requires 12 <= |body| <= 4094 && body[1] >= 128
    ensures var section := Closed(body);
      && section[1] >= 128 && 3 + Bits12(section[1], section[2]) == |section| && ValidCrc(section)
      && section[5] / 2 % 32 == (body[5] / 2 % 32 + 1) % 32 && section[5] % 2 == body[5] % 2
  {
    var section := Closed(body);
    assert section[..|body|][1] == section[1] && section[..|body|][2] == section[2] && section[..|body|][5] == section[5];
    LengthReads(body[1], |body| + 1);
    VersionReads(body[5]);
    CrcCloses(Patched(body));
  }

  /** The head of a closed body: all fields but length and version are the body's. */
  lemma ClosedHead(original: Bytes, body: Bytes)
    requires 16 <= |original| && 12 <= |body| <= 4094 && body[..12] == original[..12]
    ensures var section := Closed(body);
      && section[0] == original[0] && section[3] == original[3] && section[4] == original[4]
      && section[6] == original[6] && section[7] == original[7] && section[8] == original[8]
      && section[9] == original[9] && section[10] == original[10] && section[11] == original[11]
      && body[1] == original[1] && body[5] == original[5]
  {
    forall i | i in {0, 1, 3, 4, 5, 6, 7, 8, 9, 10, 11} ensures body[i] == original[i] {
      assert body[..12][i] == original[..12][i];
    }
    forall i | i in {0, 3, 4, 6, 7, 8, 9, 10, 11} ensures Closed(body)[i] == body[i] { ClosedBytes(body, i); }
  }

  lemma ClosedTail(body: Bytes, start: nat)
    requires 12 <= |body| <= 4094 && 6 <= start <= |body|
    ensures Closed(body)[start..|Closed(body)| - 4] == body[start..] && Closed(body)[6..start] == body[6..start]
  {
    forall i | 6 <= i < |body| ensures Closed(body)[i] == body[i] { ClosedBytes(body, i); }
  }

  lemma PmtFromParts(section: Bytes, streams: seq<Stream>)
    requires WellFormedTable(section, 2) && U16(section[3], section[4]) != 0
    requires Bits13(section[8], section[9]) != 0 && Bits13(section[8], section[9]) != NULL_PID
    requires StreamsStart(section) <= |section| - 4
    requires ParseStreams(section[StreamsStart(section)..|section| - 4], 0) == Ok(streams)
    ensures ParsePmt(section) ==
      Ok(Pmt(U16(section[3], section[4]), Bits13(section[8], section[9]), SectionVersion(section), streams))
  {
  }

  /** A body with the head of an accepted table and a list of entries closes to an accepted table. */
  lemma ClosedParses(original: Bytes, body: Bytes, streams: seq<Stream>)
    requires ParsePmt(original).Ok? && var start := StreamsStart(original);
      start <= |body| <= 4094 && body[..start] == original[..start] &&
      ParseStreams(body[start..], 0) == Ok(streams)
    ensures var pmt := ParsePmt(original).value; var section := Closed(body);
      ParsePmt(section) == Ok(pmt.(version := (pmt.version + 1) % 32, streams := streams)) && ValidCrc(section) &&
      StreamsStart(section) == StreamsStart(original) &&
      section[6..StreamsStart(original)] == original[6..StreamsStart(original)]
  {
    hide Closed, ParseStreams, ValidCrc, U16;
    var start := StreamsStart(original);
    assert body[..12] == body[..start][..12] == original[..start][..12] == original[..12];
    ClosedHead(original, body);
    ClosedFields(body);
    ClosedTail(body, start);
    PmtFromParts(Closed(body), streams);
    assert body[6..start] == body[..start][6..] == original[6..start];
  }

  // ----- The rewriting loop

  /** Where the loop stands: the entries before `offset` are `done`, and the kept ones are written. */
  ghost predicate Rewriting(section: Bytes, start: nat, offset: nat, result: Bytes, done: seq<Stream>,
                            captions: bool, data: bool)
  {
    && start <= |result| <= offset <= |section| && result[..start] == section[..start]
    && ParseStreams(result[start..], 0) == Ok(KeptStreams(done, captions, data))
    && Reading(section, start, offset, done)
  }

  /** The entries from `start` on are `done` up to `offset`. */
  ghost predicate Reading(section: Bytes, start: nat, offset: nat, done: seq<Stream>) {
    && |section| >= 4 && start <= offset <= |section| - 4
    && var all, rest := ParseStreams(section[start..|section| - 4], 0), ParseStreams(section[offset..|section| - 4], |done|);
       all.Ok? && rest.Ok? && all.value == done + rest.value
  }

  /** What an entry adds to the body under construction. */
  function Written(result: Bytes, entry: Bytes, captions: bool, data: bool): Bytes
    requires EntryLeads(entry)
  {
    if StreamKept(EntryStream(entry), captions, data) then result + entry[..EntrySize(entry)] else result
  }

  lemma RewritingReads(section: Bytes, start: nat, offset: nat, done: seq<Stream>)
    requires Reading(section, start, offset, done) && offset < |section| - 4
    ensures var entry := section[offset..|section| - 4];
      EntryLeads(entry) && |done| < MAX_ELEMENTARY_STREAMS &&
      Reading(section, start, offset + EntrySize(entry), done + [EntryStream(entry)])
  {
    var entry := section[offset..|section| - 4];
    var next, stream := offset + EntrySize(entry), EntryStream(entry);
    assert entry[EntrySize(entry)..] == section[next..|section| - 4];
    Associates(done, [stream], ParseStreams(section[next..|section| - 4], |done| + 1).value);
  }

  lemma KeptGrows(done: seq<Stream>, s: Stream, captions: bool, data: bool)
    ensures KeptStreams(done + [s], captions, data) ==
      KeptStreams(done, captions, data) + if StreamKept(s, captions, data) then [s] else []
  {
    assert (done + [s])[..|done|] == done;
  }

  lemma SliceBehind(result: Bytes, cut: Bytes, start: nat)
    requires start <= |result|
    ensures (result + cut)[start..] == result[start..] + cut && (result + cut)[..start] == result[..start]
  {
  }

  lemma AppendedParses(kept: Bytes, streams: seq<Stream>, cut: Bytes, stream: Stream)
    requires ParseStreams(kept, 0) == Ok(streams) && |streams| < MAX_ELEMENTARY_STREAMS
    requires EntryLeads(cut) && |cut| == EntrySize(cut) && stream == EntryStream(cut)
    ensures ParseStreams(kept + cut, 0) == Ok(streams + [stream])
  {
    ParseAppended(kept, 0, cut);
  }

  lemma RewritingWrites(result: Bytes, start: nat, done: seq<Stream>, entry: Bytes, captions: bool, data: bool)
    requires start <= |result| && EntryLeads(entry) && |done| < MAX_ELEMENTARY_STREAMS
    requires ParseStreams(result[start..], 0) == Ok(KeptStreams(done, captions, data))
    ensures var written := Written(result, entry, captions, data);
      |written| >= start && written[..start] == result[..start] &&
      ParseStreams(written[start..], 0) == Ok(KeptStreams(done + [EntryStream(entry)], captions, data))
  {
    var kept := KeptStreams(done, captions, data);
    var stream := EntryStream(entry);
    KeptGrows(done, stream, captions, data);
    if StreamKept(stream, captions, data) {
      var cut := entry[..EntrySize(entry)];
      WrittenEntry(cut, entry);
      SliceBehind(result, cut, start);
      AppendedParses(result[start..], kept, cut, stream);
    } else {
      assert kept + [] == kept;
    }
  }

  lemma RewritingStep(section: Bytes, start: nat, offset: nat, result: Bytes, done: seq<Stream>, captions: bool, data: bool)
    requires Rewriting(section, start, offset, result, done, captions, data) && offset < |section| - 4
    ensures var entry := section[offset..|section| - 4];
      EntryLeads(entry) &&
      Rewriting(section, start, offset + EntrySize(entry), Written(result, entry, captions, data),
                done + [EntryStream(entry)], captions, data)
  {
    RewritingReads(section, start, offset, done);
    RewritingWrites(result, start, done, section[offset..|section| - 4], captions, data);
  }

  /** An entry cut out of the list reads the same. */
  lemma WrittenEntry(cut: Bytes, entry: Bytes)
    requires EntryLeads(entry) && cut == entry[..EntrySize(entry)]
    ensures EntryLeads(cut) && EntrySize(cut) == |cut| && EntryStream(cut) == EntryStream(entry)
  {
    assert cut[5..EntrySize(entry)] == entry[5..EntrySize(entry)];
  }

  lemma DroppedGrows(done: seq<Stream>, s: Stream, pcrPid: nat, captions: bool, data: bool)
    ensures DroppedPids(done + [s], pcrPid, captions, data) ==
      DroppedPids(done, pcrPid, captions, data) +
      if !StreamKept(s, captions, data) && s.pid != pcrPid then {s.pid} else {}
  {
  }

  lemma ReadingEnds(section: Bytes, start: nat, done: seq<Stream>)
    requires |section| >= 4 && Reading(section, start, |section| - 4, done)
    ensures ParseStreams(section[start..|section| - 4], 0) == Ok(done)
  {
    assert section[|section| - 4..|section| - 4] == [];
    assert done + [] == done;
  }

  lemma ReadingBegins(section: Bytes, captions: bool, data: bool)
    requires ParsePmt(section).Ok?
    ensures var start := StreamsStart(section); Rewriting(section, start, start, section[..start], [], captions, data)
  {
    var start := StreamsStart(section);
    assert section[..start][start..] == [];
    assert [] + ParsePmt(section).value.streams == ParsePmt(section).value.streams;
  }

  function NowDropped(dropped: set<nat>, s: Stream, pcrPid: nat, captions: bool, data: bool): set<nat> {
    dropped + if !StreamKept(s, captions, data) && s.pid != pcrPid then {s.pid} else {}
  }

  ghost predicate Keeping(section: Bytes, offset: nat, result: Bytes, dropped: set<nat>, done: seq<Stream>,
                          pcrPid: nat, captions: bool, data: bool)
  {
    && |section| >= 16 && Rewriting(section, StreamsStart(section), offset, result, done, captions, data)
    && dropped == DroppedPids(done, pcrPid, captions, data)
  }

  lemma KeepingStep(section: Bytes, offset: nat, result: Bytes, dropped: set<nat>, done: seq<Stream>,
                    pcrPid: nat, captions: bool, data: bool,
                    stream: Stream, next: nat, result': Bytes, dropped': set<nat>)
    requires Keeping(section, offset, result, dropped, done, pcrPid, captions, data) && offset < |section| - 4
    requires EntryKept(section, offset, result, dropped, pcrPid, captions, data, stream, next, result', dropped')
    ensures Keeping(section, next, result', dropped', done + [stream], pcrPid, captions, data)
  {
    hide Rewriting, DroppedPids, EntryLeads, EntryStream, EntrySize, Written, StreamKept, StreamsStart;
    RewritingStep(section, StreamsStart(section), offset, result, done, captions, data);
    DroppedGrows(done, stream, pcrPid, captions, data);
  }

  lemma KeepingReads(section: Bytes, offset: nat, result: Bytes, dropped: set<nat>, done: seq<Stream>,
                     pcrPid: nat, captions: bool, data: bool)
    requires Keeping(section, offset, result, dropped, done, pcrPid, captions, data) && offset < |section| - 4
    ensures EntryLeads(section[offset..|section| - 4])
  {
    RewritingReads(section, StreamsStart(section), offset, done);
  }

  /** One round of the loop on the entry at `offset`, which is `stream`. */
  ghost predicate EntryKept(section: Bytes, offset: nat, result: Bytes, dropped: set<nat>,
                            pcrPid: nat, captions: bool, data: bool,
                            stream: Stream, next: nat, result': Bytes, dropped': set<nat>)
  {
    && 4 <= |section| && offset <= |section| - 4 && EntryLeads(section[offset..|section| - 4])
    && var entry := section[offset..|section| - 4];
       && stream == EntryStream(entry) && next == offset + EntrySize(entry)
       && result' == Written(result, entry, captions, data)
       && dropped' == NowDropped(dropped, stream, pcrPid, captions, data)
  }

  lemma KeepingEnds(section: Bytes, result: Bytes, dropped: set<nat>, done: seq<Stream>,
                    pcrPid: nat, captions: bool, data: bool)
    requires ParsePmt(section).Ok? && Keeping(section, |section| - 4, result, dropped, done, pcrPid, captions, data)
    ensures Kept(section, result, dropped, pcrPid, captions, data)
  {
    ReadingEnds(section, StreamsStart(section), done);
  }

  /** The head and the kept entries of an accepted table, and the PIDs that lose their stream. */
  ghost predicate Kept(section: Bytes, result: Bytes, dropped: set<nat>, pcrPid: nat, captions: bool, data: bool)
    requires ParsePmt(section).Ok?
  {
    var start := StreamsStart(section);
    var streams := ParsePmt(section).value.streams;
    && start <= |result| <= |section| - 4 && result[..start] == section[..start]
    && ParseStreams(result[start..], 0) == Ok(KeptStreams(streams, captions, data))
    && dropped == DroppedPids(streams, pcrPid, captions, data)
  }

  method KeepEntry(section: Bytes, offset: nat, before: Bytes, droppedBefore: set<nat>, pcrPid: nat,
                   captions: bool, data: bool)
    returns (next: nat, result: Bytes, dropped: set<nat>, ghost stream: Stream)
    requires |section| >= 4 && offset <= |section| - 4 && EntryLeads(section[offset..|section| - 4])
    ensures EntryKept(section, offset, before, droppedBefore, pcrPid, captions, data, stream, next, result, dropped)
    ensures offset < next <= |section| - 4
  {
    ghost var entry := section[offset..|section| - 4];
    stream := EntryStream(entry);
    next := offset + 5 + Bits12(section[offset + 3], section[offset + 4]);
    var pid := Bits13(section[offset + 1], section[offset + 2]);
    var drop := (section[offset] == PRIVATE_PES && !captions) || (section[offset] == DATA_CAROUSEL && !data);
    result, dropped := before, droppedBefore;
    if !drop {
      assert section[offset..next] == entry[..EntrySize(entry)];
      result := before + section[offset..next];
    } else if pid != pcrPid {
      dropped := dropped + {pid};
    }
  }

  /** The loop of `rewritePMT`. */
  method KeepEntries(section: Bytes, pcrPid: nat, captions: bool, data: bool) returns (result: Bytes, dropped: set<nat>)
    requires ParsePmt(section).Ok?
    ensures Kept(section, result, dropped, pcrPid, captions, data)
  {
    var offset, end := StreamsStart(section), |section| - 4;
    result, dropped := section[..offset], {};
    ghost var done: seq<Stream> := [];
    ReadingBegins(section, captions, data);
    while offset < end
      invariant offset <= end && Keeping(section, offset, result, dropped, done, pcrPid, captions, data)
    {
      KeepingReads(section, offset, result, dropped, done, pcrPid, captions, data);
      var next, more, gone, stream := KeepEntry(section, offset, result, dropped, pcrPid, captions, data);
      KeepingStep(section, offset, result, dropped, done, pcrPid, captions, data, stream, next, more, gone);
      offset, result, dropped, done := next, more, gone, done + [stream];
    }
    KeepingEnds(section, result, dropped, done, pcrPid, captions, data);
  }

  lemma TableSize(section: Bytes)
    requires ParsePmt(section).Ok?
    ensures 16 <= |section| <= 4098 && 12 <= StreamsStart(section) <= |section| - 4
  {
    hide ParseStreams, ValidCrc;
  }

  /** `rewritePMT`: every table the parser accepts is rewritten into one that it accepts, with the same
      program, clock and program information, the next version, and the streams that are kept, in order. */
  method RewritePmt(section: Bytes, captions: bool, data: bool) returns (r: Result<(Bytes, set<nat>)>)
    ensures r.Ok? <==> ParsePmt(section).Ok?
    ensures r.Ok? ==>
      var pmt := ParsePmt(section).value; var (rewritten, dropped) := r.value;
      && ParsePmt(rewritten) == Ok(Selected(pmt, captions, data)) && ValidCrc(rewritten)
      && StreamsStart(rewritten) == StreamsStart(section)
      && rewritten[6..StreamsStart(section)] == section[6..StreamsStart(section)]
      && |rewritten| <= |section|
      && dropped == DroppedPids(pmt.streams, pmt.pcrPid, captions, data)
  {
    hide ParsePmt, ParseStreams, Closed, StreamsStart, KeptStreams, DroppedPids, ValidCrc;
    var parsed := ParsePmt(section);
    if parsed.Err? { return Err(parsed.error); }
    TableSize(section);
    var result, dropped := KeepEntries(section, parsed.value.pcrPid, captions, data);
    if |result| + 1 > 0x0fff { assert false; }
    ClosedParses(section, result, KeptStreams(parsed.value.streams, captions, data));
    r := Ok((Closed(result), dropped));
  }
}
