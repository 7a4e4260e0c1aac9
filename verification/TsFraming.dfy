/** The resynchronising packet framer of a recording. Its meaning is a scan of the whole input, byte by
    byte, without chunks or buffers; the framer with its fixed buffer is proved to compute it. */
module TsFraming {
  import opened Basics
  import opened Mpegts

  const SYNC_BUFFER := 65_536
  const RECOVERY_BYTES := 940   // five packets
  const SATURATED := 2_147_483_647

  // ----- Packets a recording accepts

  /** The packet without its transport error indicator. */
  function WithoutTei(packet: Bytes): Bytes {
    if |packet| == PACKET_BYTES && packet[1] >= 128 then packet[1 := packet[1] - 128] else packet
  }

  /** `parseRecordingPacket`. */
  function ParseRecording(packet: Bytes): Result<Packet> { ParsePacket(WithoutTei(packet)) }

  /** `n` well-formed packets in a row. */
  predicate PacketsLead(data: Bytes, n: nat) {
    n == 0 || (|data| >= PACKET_BYTES && ParseRecording(data[..PACKET_BYTES]).Ok? && PacketsLead(data[PACKET_BYTES..], n - 1))
  }

  predicate Aligned(data: Bytes) { |data| >= RECOVERY_BYTES && PacketsLead(data, 5) }

  // ----- Quality counters

  datatype Quality = Quality(
    degraded: bool, saturated: bool, losses: nat, discarded: nat, recovered: nat, trailing: nat)
  {
    predicate Valid() { losses <= SATURATED && discarded <= SATURATED && recovered <= SATURATED && trailing <= SATURATED }
  }

  /** `addQuality` on one counter: the sum, stopping at the largest value. */
  function Sum(counter: nat, count: nat): nat
    requires counter <= SATURATED
  {
    if count >= SATURATED - counter then SATURATED else counter + count
  }

  predicate Overflows(counter: nat, count: nat) { counter + count >= SATURATED && count > 0 }

  function AddDiscarded(q: Quality, count: nat): (r: Quality)
    requires q.Valid()
    ensures r.Valid() && r.discarded == (if q.discarded + count < SATURATED then q.discarded + count else SATURATED)
    ensures r.saturated <==> q.saturated || (count > 0 && q.discarded + count >= SATURATED)
  {
    if count == 0 then q
    else q.(degraded := true, saturated := q.saturated || Overflows(q.discarded, count), discarded := Sum(q.discarded, count))
  }

  function AddLoss(q: Quality): (r: Quality)
    requires q.Valid()
    ensures r.Valid() && r.losses == (if q.losses + 1 < SATURATED then q.losses + 1 else SATURATED)
    ensures r.saturated <==> q.saturated || q.losses + 1 >= SATURATED
  {
    q.(degraded := true, saturated := q.saturated || Overflows(q.losses, 1), losses := Sum(q.losses, 1))
  }

  function AddRecovered(q: Quality): (r: Quality)
    requires q.Valid()
    ensures r.Valid() && r.recovered == (if q.recovered + 1 < SATURATED then q.recovered + 1 else SATURATED)
    ensures r.saturated <==> q.saturated || q.recovered + 1 >= SATURATED
  {
    q.(degraded := true, saturated := q.saturated || Overflows(q.recovered, 1), recovered := Sum(q.recovered, 1))
  }

  function AddTrailing(q: Quality, count: nat): (r: Quality)
    requires q.Valid()
    ensures r.Valid() && r.trailing == (if q.trailing + count < SATURATED then q.trailing + count else SATURATED)
    ensures r.saturated <==> q.saturated || (count > 0 && q.trailing + count >= SATURATED)
  {
    if count == 0 then q
    else q.(degraded := true, saturated := q.saturated || Overflows(q.trailing, count), trailing := Sum(q.trailing, count))
  }

  // ----- The scan

  datatype Item = Framed(packet: Bytes) | Skipped(b: Byte) | Loss | Recovered
  datatype Scan = Scan(log: seq<Item>, rest: Bytes, lost: bool)

  function Cons(item: Item, scan: Scan): Scan { scan.(log := [item] + scan.log) }
  function Prefixed(log: seq<Item>, scan: Scan): Scan { scan.(log := log + scan.log) }

  /** In sync, packet by packet; after a byte that is not a sync byte, byte by byte until five packets
      follow each other. */
  function Scanned(data: Bytes, lost: bool): Scan
    decreases |data|, !lost, lost
  {
    if !lost then
      if |data| < PACKET_BYTES then Scan([], data, false)
      else if data[0] != 0x47 then Cons(Loss, ScannedLost(data))
      else Cons(Framed(data[..PACKET_BYTES]), Scanned(data[PACKET_BYTES..], false))
    else ScannedLost(data)
  }

  function ScannedLost(data: Bytes): Scan
    decreases |data|, false, false
  {
    if |data| < RECOVERY_BYTES then Scan([], data, true)
    else if Aligned(data) then Cons(Recovered, Cons(Framed(data[..PACKET_BYTES]), Scanned(data[PACKET_BYTES..], false)))
    else Cons(Skipped(data[0]), ScannedLost(data[1..]))
  }

  // ----- What the scan keeps

  /** The input bytes an item stands for. */
  function ItemBytes(item: Item): Bytes {
    match item case Framed(packet) => packet case Skipped(b) => [b] case _ => []
  }

  function LogBytes(log: seq<Item>): Bytes { if log == [] then [] else ItemBytes(log[0]) + LogBytes(log[1..]) }

  function PacketCount(log: seq<Item>): nat {
    if log == [] then 0 else (if log[0].Framed? then 1 else 0) + PacketCount(log[1..])
  }

  function SkipCount(log: seq<Item>): nat {
    if log == [] then 0 else (if log[0].Skipped? then 1 else 0) + SkipCount(log[1..])
  }

  /** Every byte of the input is in exactly one place, in order: in a packet, discarded, or held; and what
      is held is less than a packet, or less than five while out of sync. */
  ghost predicate Accounted(data: Bytes, s: Scan) {
    && LogBytes(s.log) + s.rest == data
    && |data| == PACKET_BYTES * PacketCount(s.log) + SkipCount(s.log) + |s.rest|
    && (if s.lost then |s.rest| < RECOVERY_BYTES else |s.rest| < PACKET_BYTES)
  }

  lemma ConsAccounts(item: Item, data: Bytes, tail: Bytes, s: Scan)
    requires Accounted(tail, s) && data == ItemBytes(item) + tail && (item.Framed? ==> |item.packet| == PACKET_BYTES)
    ensures Accounted(data, Cons(item, s))
  {
    assert ([item] + s.log)[1..] == s.log;
    Associates(ItemBytes(item), LogBytes(s.log), s.rest);
  }

  lemma FramedAccounts(data: Bytes, s: Scan)
    requires |data| >= PACKET_BYTES && Accounted(data[PACKET_BYTES..], s)
    ensures Accounted(data, Cons(Framed(data[..PACKET_BYTES]), s))
  {
    assert data[..PACKET_BYTES] + data[PACKET_BYTES..] == data;
    ConsAccounts(Framed(data[..PACKET_BYTES]), data, data[PACKET_BYTES..], s);
  }

  lemma EmptyAccounts(data: Bytes, item: Item, s: Scan)
    requires (item.Loss? || item.Recovered?) && Accounted(data, s)
    ensures Accounted(data, Cons(item, s))
  {
    assert [] + data == data;
    ConsAccounts(item, data, data, s);
  }

  lemma {:induction false} NoByteIsLost(data: Bytes, lost: bool)
    ensures Accounted(data, Scanned(data, lost))
    decreases |data|, !lost
  {
    hide Aligned, Accounted;
    if lost && |data| >= RECOVERY_BYTES && !Aligned(data) {
      NoByteIsLost(data[1..], true);
      assert [data[0]] + data[1..] == data;
      ConsAccounts(Skipped(data[0]), data, data[1..], Scanned(data[1..], true));
    } else if lost && |data| >= RECOVERY_BYTES {
      NoByteIsLost(data[PACKET_BYTES..], false);
      FramedAccounts(data, Scanned(data[PACKET_BYTES..], false));
      EmptyAccounts(data, Recovered, Cons(Framed(data[..PACKET_BYTES]), Scanned(data[PACKET_BYTES..], false)));
    } else if !lost && |data| >= PACKET_BYTES && data[0] != 0x47 {
      NoByteIsLost(data, true);
      EmptyAccounts(data, Loss, Scanned(data, true));
    } else if !lost && |data| >= PACKET_BYTES {
      NoByteIsLost(data[PACKET_BYTES..], false);
      FramedAccounts(data, Scanned(data[PACKET_BYTES..], false));
    } else {
      HeldAccounts(data, lost);
    }
  }

  lemma HeldAccounts(data: Bytes, lost: bool)
    requires if lost then |data| < RECOVERY_BYTES else |data| < PACKET_BYTES
    ensures Accounted(data, Scan([], data, lost))
  {
    assert [] + data == data;
  }

  // ----- The framer as a value

  /** A packet handed on, with the number of resynchronisations before it. */
  datatype Emission = Emission(packet: Bytes, generation: nat)

  datatype Frame = Frame(held: Bytes, lost: bool, generation: nat, quality: Quality, emitted: seq<Emission>)

  function Applied(f: Frame, item: Item): Frame
    requires f.quality.Valid()
  {
    match item
    case Framed(packet) => f.(emitted := f.emitted + [Emission(packet, f.generation)])
    case Skipped(_) => f.(quality := AddDiscarded(f.quality, 1))
    case Loss => f.(quality := AddLoss(f.quality))
    case Recovered => f.(generation := f.generation + 1, quality := AddRecovered(f.quality))
  }

  function AppliedAll(f: Frame, log: seq<Item>): Frame
    requires f.quality.Valid()
    decreases |log|
  {
    if log == [] then f else AppliedAll(Applied(f, log[0]), log[1..])
  }

  /** What the framer is to make of more input: the scan of everything it holds and gets. */
  function Written(f: Frame, data: Bytes): Frame
    requires f.quality.Valid()
  {
    var scan := Scanned(f.held + data, f.lost);
    AppliedAll(f, scan.log).(held := scan.rest, lost := scan.lost)
  }

  // ----- Chunks do not matter

  lemma {:induction false} ScanJoins(a: Bytes, b: Bytes, lost: bool)
    ensures var s := Scanned(a, lost); Scanned(a + b, lost) == Prefixed(s.log, Scanned(s.rest + b, s.lost))
    decreases |a|, !lost
  {
    hide Aligned;
    var s := Scanned(a, lost);
    if lost && |a| >= RECOVERY_BYTES && !Aligned(a) {
      SameAlignment(a, b);
      assert (a + b)[1..] == a[1..] + b;
      ScanJoins(a[1..], b, true);
      PrefixedCons(Skipped(a[0]), Scanned(a[1..], true).log, Scanned(s.rest + b, s.lost));
    } else if lost && |a| >= RECOVERY_BYTES {
      SameAlignment(a, b);
      PacketJoins(a, b);
      ScanJoins(a[PACKET_BYTES..], b, false);
      var tail := Scanned(a[PACKET_BYTES..], false);
      PrefixedCons(Framed(a[..PACKET_BYTES]), tail.log, Scanned(s.rest + b, s.lost));
      PrefixedCons(Recovered, [Framed(a[..PACKET_BYTES])] + tail.log, Scanned(s.rest + b, s.lost));
    } else if !lost && |a| >= PACKET_BYTES && a[0] != 0x47 {
      ScanJoins(a, b, true);
      PrefixedCons(Loss, Scanned(a, true).log, Scanned(s.rest + b, s.lost));
    } else if !lost && |a| >= PACKET_BYTES {
      PacketJoins(a, b);
      ScanJoins(a[PACKET_BYTES..], b, false);
      PrefixedCons(Framed(a[..PACKET_BYTES]), Scanned(a[PACKET_BYTES..], false).log, Scanned(s.rest + b, s.lost));
    } else {
      PrefixedNothing(Scanned(a + b, lost));
    }
  }

  lemma {:induction false} SameLead(a: Bytes, b: Bytes, n: nat)
    requires |a| >= PACKET_BYTES * n
    ensures PacketsLead(a + b, n) <==> PacketsLead(a, n)
  {
    hide ParseRecording;
    if n > 0 {
      PacketJoins(a, b);
      SameLead(a[PACKET_BYTES..], b, n - 1);
    }
  }

  lemma SameAlignment(a: Bytes, b: Bytes)
    requires |a| >= RECOVERY_BYTES
    ensures Aligned(a + b) <==> Aligned(a)
  {
    SameLead(a, b, 5);
  }

  lemma PacketJoins(a: Bytes, b: Bytes)
    requires |a| >= PACKET_BYTES
    ensures (a + b)[..PACKET_BYTES] == a[..PACKET_BYTES] && (a + b)[PACKET_BYTES..] == a[PACKET_BYTES..] + b
  {
  }

  lemma PrefixedCons(item: Item, log: seq<Item>, s: Scan)
    ensures Cons(item, Prefixed(log, s)) == Prefixed([item] + log, s)
  {
    Associates([item], log, s.log);
  }

  lemma PrefixedNothing(s: Scan)
    ensures Prefixed([], s) == s
  {
    assert [] + s.log == s.log;
  }

  /** Items change counters, generation and output, and never look at what is held. */
  lemma {:induction false} AppliedIgnoresHeld(f: Frame, held: Bytes, lost: bool, log: seq<Item>)
    requires f.quality.Valid()
    ensures AppliedAll(f.(held := held, lost := lost), log) == AppliedAll(f, log).(held := held, lost := lost)
    decreases |log|
  {
    if log != [] { AppliedIgnoresHeld(Applied(f, log[0]), held, lost, log[1..]); }
  }

  lemma {:induction false} AppliedJoins(f: Frame, a: seq<Item>, b: seq<Item>)
    requires f.quality.Valid()
    ensures AppliedAll(f, a).quality.Valid() && AppliedAll(f, a + b) == AppliedAll(AppliedAll(f, a), b)
    decreases |a|
  {
    if a == [] {
      assert a + b == b;
    } else {
      assert (a + b)[0] == a[0] && (a + b)[1..] == a[1..] + b;
      AppliedJoins(Applied(f, a[0]), a[1..], b);
    }
  }

  /** Chunks do not matter: packets, their generations, residue and saturating counters are the same
      however the input is cut. */
  lemma ChunksDoNotMatter(f: Frame, a: Bytes, b: Bytes)
    requires f.quality.Valid()
    ensures Written(f, a).quality.Valid() && Written(Written(f, a), b) == Written(f, a + b)
  {
    var s := Scanned(f.held + a, f.lost);
    var mid := AppliedAll(f, s.log);
    var t := Scanned(s.rest + b, s.lost);
    ScanJoins(f.held + a, b, f.lost);
    Associates(f.held, a, b);
    AppliedJoins(f, s.log, t.log);
    AppliedIgnoresHeld(mid, s.rest, s.lost, t.log);
  }

  // ----- One step of the framer's loop

  /** Nothing to do until more input comes. */
  predicate Settled(f: Frame) { if f.lost then |f.held| < RECOVERY_BYTES else |f.held| < PACKET_BYTES }

  lemma SettledWaits(f: Frame)
    requires f.quality.Valid() && Settled(f)
    ensures Written(f, []) == f
  {
    assert f.held + [] == f.held;
    assert Scanned(f.held, f.lost) == Scan([], f.held, f.lost);
    assert AppliedAll(f, []) == f;
  }

  lemma CopyStep(f: Frame, chunk: Bytes, more: Bytes)
    requires f.quality.Valid()
    ensures Written(f, chunk + more) == Written(f.(held := f.held + chunk), more)
  {
    Associates(f.held, chunk, more);
    AppliedIgnoresHeld(f, f.held + chunk, f.lost, Scanned(f.held + chunk + more, f.lost).log);
  }

  lemma EmitStep(f: Frame, data: Bytes)
    requires f.quality.Valid() && !f.lost && |f.held| >= PACKET_BYTES && f.held[0] == 0x47
    ensures var next := Applied(f, Framed(f.held[..PACKET_BYTES])).(held := f.held[PACKET_BYTES..]);
      Written(f, data) == Written(next, data)
  {
    PacketJoins(f.held, data);
    StepApplies(f, Framed(f.held[..PACKET_BYTES]), f.held[PACKET_BYTES..], false, data);
  }

  /** An item and then the rest of the log. */
  lemma StepApplies(f: Frame, item: Item, held: Bytes, lost: bool, data: Bytes)
    requires f.quality.Valid()
    requires Scanned(f.held + data, f.lost) == Cons(item, Scanned(held + data, lost))
    ensures Written(f, data) == Written(Applied(f, item).(held := held, lost := lost), data)
  {
    var tail := Scanned(held + data, lost);
    assert ([item] + tail.log)[1..] == tail.log;
    AppliedIgnoresHeld(Applied(f, item), held, lost, tail.log);
  }

  lemma LossStep(f: Frame, data: Bytes)
    requires f.quality.Valid() && !f.lost && |f.held| >= PACKET_BYTES && f.held[0] != 0x47
    ensures Written(f, data) == Written(Applied(f, Loss).(lost := true), data)
  {
    StepApplies(f, Loss, f.held, true, data);
  }

  lemma RecoverStep(f: Frame, data: Bytes)
    requires f.quality.Valid() && f.lost && Aligned(f.held)
    ensures Written(f, data) == Written(Applied(f, Recovered).(lost := false), data)
  {
    SameAlignment(f.held, data);
    PacketJoins(f.held, data);
    AlignedStarts(f.held);
    StepApplies(f, Recovered, f.held, false, data);
  }

  lemma AlignedStarts(data: Bytes)
    requires Aligned(data)
    ensures data[0] == 0x47
  {
    assert WithoutTei(data[..PACKET_BYTES])[0] == data[..PACKET_BYTES][0] == data[0];
  }

  lemma SkipStep(f: Frame, data: Bytes)
    requires f.quality.Valid() && f.lost && |f.held| >= RECOVERY_BYTES && !Aligned(f.held)
    ensures Written(f, data) == Written(f.(held := f.held[1..], quality := AddDiscarded(f.quality, 1)), data)
  {
    SameAlignment(f.held, data);
    assert (f.held + data)[1..] == f.held[1..] + data;
    StepApplies(f, Skipped(f.held[0]), f.held[1..], true, data);
  }

  lemma DiscardedTwice(q: Quality, a: nat, b: nat)
    requires q.Valid()
    ensures AddDiscarded(AddDiscarded(q, a), b) == AddDiscarded(q, a + b)
  {
  }

  /** One search discards all bytes before the first candidate at once. */
  lemma {:induction false} SkipSteps(f: Frame, count: nat, data: Bytes)
    requires f.quality.Valid() && f.lost && count <= |f.held|
    requires forall k | 0 <= k < count :: |f.held| - k >= RECOVERY_BYTES && !Aligned(f.held[k..])
    ensures Written(f, data) == Written(f.(held := f.held[count..], quality := AddDiscarded(f.quality, count)), data)
    decreases count
  {
    hide Aligned, Written;
    if count > 0 {
      assert f.held[0..] == f.held;
      SkipStep(f, data);
      var next := f.(held := f.held[1..], quality := AddDiscarded(f.quality, 1));
      forall k | 0 <= k < count - 1 ensures |next.held| - k >= RECOVERY_BYTES && !Aligned(next.held[k..]) {
        assert next.held[k..] == f.held[k + 1..];
      }
      SkipSteps(next, count - 1, data);
      assert next.held[count - 1..] == f.held[count..];
      DiscardedTwice(f.quality, 1, count - 1);
    } else {
      assert f.held[0..] == f.held;
    }
  }

  /** `Finish`: what is still held is discarded or incomplete. */
  function Finished(f: Frame): Frame
    requires f.quality.Valid()
  {
    f.(held := [], quality := if f.lost then AddDiscarded(f.quality, |f.held|) else AddTrailing(f.quality, |f.held|))
  }

  /** Whether the five packets of a candidate all parse. */
  method FiveParse(data: Bytes) returns (valid: bool)
    requires |data| == RECOVERY_BYTES
    ensures valid <==> Aligned(data)
  {
    hide ParseRecording;
    var i := 0;
    valid := true;
    assert data[0..] == data;
    while valid && i < 5
      invariant 0 <= i <= 5
      invariant PacketsLead(data, 5) <==> valid && PacketsLead(data[PACKET_BYTES * i..], 5 - i)
    {
      var rest := data[PACKET_BYTES * i..];
      assert data[PACKET_BYTES * i..PACKET_BYTES * (i + 1)] == rest[..PACKET_BYTES];
      assert data[PACKET_BYTES * (i + 1)..] == rest[PACKET_BYTES..];
      valid := ParseRecording(data[PACKET_BYTES * i..PACKET_BYTES * (i + 1)]).Ok?;
      i := i + 1;
    }
  }

  lemma OnlyFiveMatter(data: Bytes)
    requires |data| >= RECOVERY_BYTES
    ensures Aligned(data) <==> Aligned(data[..RECOVERY_BYTES])
  {
    assert data[..RECOVERY_BYTES] + data[RECOVERY_BYTES..] == data;
    SameAlignment(data[..RECOVERY_BYTES], data[RECOVERY_BYTES..]);
  }

  // ----- The framer itself

  /** `tsFramer`; `quality` and `emitted` stand for the summary and the callback it is given. */
  class Framer {
    const buffer: array<Byte>
    var used: nat
    var start: nat
    var lost: bool
    var generation: nat
    var quality: Quality
    var emitted: seq<Emission>

    constructor (quality: Quality)
      requires quality.Valid()
      ensures Valid() && Value() == Frame([], false, 0, quality, []) && fresh(buffer)
    {
      buffer := new Byte[SYNC_BUFFER](_ => 0);
      used, start, lost, generation, this.quality, emitted := 0, 0, false, 0, quality, [];
    }

    ghost predicate Valid()
      reads this
    {
      buffer.Length == SYNC_BUFFER && start + used <= SYNC_BUFFER && quality.Valid()
    }

    function Value(): Frame
      requires Valid()
      reads this, buffer
    {
      Frame(buffer[start..start + used], lost, generation, quality, emitted)
    }

    /** Moves what is held to the front of the buffer. */
    method Compact()
      requires Valid()
      modifies this`start, buffer
      ensures Valid() && start == 0 && Value() == old(Value())
    {
      ghost var held := buffer[start..start + used];
      forall i | 0 <= i < used {
        buffer[i] := buffer[start + i];
      }
      start := 0;
      assert buffer[0..used] == held;
    }

    method Fill(chunk: Bytes)
      requires Valid() && start == 0 && used + |chunk| <= SYNC_BUFFER
      modifies this`used, buffer
      ensures Valid() && Value() == old(Value()).(held := old(Value()).held + chunk)
    {
      ghost var held := buffer[0..used];
      forall i | 0 <= i < |chunk| {
        buffer[used + i] := chunk[i];
      }
      assert buffer[0..used + |chunk|] == held + chunk;
      used := used + |chunk|;
    }

    method Discard(count: nat)
      requires Valid() && count <= used
      modifies this`start, this`used
      ensures Valid() && Value() == old(Value()).(held := old(Value()).held[count..]) && used == old(used) - count
    {
      start, used := start + count, used - count;
    }

    /** The first offset at which five packets follow each other. */
    method FindPackets() returns (position: Option<nat>)
      requires Valid() && used >= RECOVERY_BYTES
      ensures position.Some? ==> position.value + RECOVERY_BYTES <= used && Aligned(Value().held[position.value..])
      ensures forall k | 0 <= k < (if position.Some? then position.value else used - (RECOVERY_BYTES - 1)) ::
        used - k >= RECOVERY_BYTES && !Aligned(Value().held[k..])
    {
      hide Aligned;
      var offset := 0;
      while offset + RECOVERY_BYTES <= used
        invariant offset + RECOVERY_BYTES <= used + 1
        invariant forall k | 0 <= k < offset :: !Aligned(Value().held[k..])
      {
        var valid := FiveParse(buffer[start + offset..start + offset + RECOVERY_BYTES]);
        OnlyFiveMatter(Value().held[offset..]);
        assert buffer[start + offset..start + offset + RECOVERY_BYTES] == Value().held[offset..][..RECOVERY_BYTES];
        if valid { return Some(offset); }
        offset := offset + 1;
      }
      return None;
    }

    /** The pass of the inner loop that looks for packets again. */
    method Resynchronise(ghost more: Bytes)
      requires Valid() && lost && used >= RECOVERY_BYTES
      modifies this
      ensures Valid() && Written(Value(), more) == Written(old(Value()), more)
      ensures used < old(used) || (used == old(used) && !lost)
      ensures lost ==> used < RECOVERY_BYTES
      ensures !lost ==> used >= RECOVERY_BYTES && Value().held[0] == 0x47
    {
      hide Written, Aligned, AddDiscarded, AddRecovered;
      var position := FindPackets();
      var drop := if position.None? then used - (RECOVERY_BYTES - 1) else position.value;
      SkipSteps(Value(), drop, more);
      quality := AddDiscarded(quality, drop);
      Discard(drop);
      if position.Some? { Resume(more); }
    }

    /** Back in sync: five packets lead what is held. */
    method Resume(ghost more: Bytes)
      requires Valid() && lost && used >= RECOVERY_BYTES && Aligned(Value().held)
      modifies this`lost, this`generation, this`quality
      ensures Valid() && !lost && Written(Value(), more) == Written(old(Value()), more) && Value().held[0] == 0x47
    {
      hide Written, Aligned, AddRecovered;
      RecoverStep(Value(), more);
      AlignedStarts(Value().held);
      lost, generation, quality := false, generation + 1, AddRecovered(quality);
    }

    /** The pass of the inner loop in sync: the next packet, or the loss of synchronisation. */
    method Frame188(ghost more: Bytes)
      requires Valid() && !lost && used >= PACKET_BYTES
      modifies this
      ensures Valid() && Written(Value(), more) == Written(old(Value()), more)
      ensures if old(Value()).held[0] == 0x47 then !lost && used < old(used) else lost && used == old(used)
    {
      hide Written;
      if buffer[start] != 0x47 {
        LossStep(Value(), more);
        lost, quality := true, AddLoss(quality);
      } else {
        EmitStep(Value(), more);
        assert Value().held[..PACKET_BYTES] == buffer[start..start + PACKET_BYTES];
        emitted := emitted + [Emission(buffer[start..start + PACKET_BYTES], generation)];
        Discard(PACKET_BYTES);
      }
    }

    /** The inner loop: it ends with less than a packet held, or less than five out of sync. */
    method Settle(ghost more: Bytes)
      requires Valid()
      modifies this
      ensures Valid() && Settled(Value()) && Written(Value(), more) == Written(old(Value()), more)
    {
      hide Written;
      while !Settled(Value())
        invariant Valid() && Written(Value(), more) == Written(old(Value()), more)
        decreases used, if lost then 1 else if used > 0 && buffer[start] == 0x47 then 0 else 2
      {
        if lost { Resynchronise(more); } else { Frame188(more); }
      }
    }

    /** `Write`: the outer loop fills the buffer and settles it until the data is used up. */
    method Write(data: Bytes)
      requires Valid() && Settled(Value())
      modifies this, buffer
      ensures Valid() && Settled(Value()) && Value() == Written(old(Value()), data)
    {
      hide Written;
      var rest := data;
      while rest != []
        invariant Valid() && Settled(Value())
        invariant Written(Value(), rest) == Written(old(Value()), data)
        decreases |rest|
      {
        if start > 0 { Compact(); }
        var count := if |rest| < SYNC_BUFFER - used then |rest| else SYNC_BUFFER - used;
        CopyStep(Value(), rest[..count], rest[count..]);
        assert rest[..count] + rest[count..] == rest;
        Fill(rest[..count]);
        rest := rest[count..];
        Settle(rest);
      }
      SettledWaits(Value());
    }

    /** `Finish`. */
    method Finish()
      requires Valid()
      modifies this
      ensures Valid() && Value() == Finished(old(Value()))
    {
      if lost { quality := AddDiscarded(quality, used); } else { quality := AddTrailing(quality, used); }
      used, start := 0, 0;
    }
  }
}
