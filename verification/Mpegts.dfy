/** MPEG-TS packets and PSI sections as bytes: the CRC of ISO/IEC 13818-1 Annex A, packet headers
    (section 2.4.3.2), and the program tables (section 2.4.4). */
module Mpegts {
  import opened Basics

  datatype Error = ErrPacket | ErrPsi | ErrSingleProgram | ErrProgramClock
  datatype Result<T> = Ok(value: T) | Err(error: Error)

  const PACKET_BYTES := 188
  const MAX_SECTION_BYTES := 4096
  const MAX_ELEMENTARY_STREAMS := 64
  const NULL_PID := 0x1fff

  // ----- CRC

  function Shifted(crc: bv32): bv32 { if crc & 0x80000000 != 0 then (crc << 1) ^ 0x04c11db7 else crc << 1 }

  function Shifts(crc: bv32, n: nat): bv32 { if n == 0 then crc else Shifted(Shifts(crc, n - 1)) }

  function Absorbed(crc: bv32, b: Byte): bv32 { Shifts(crc ^ ((b as bv32) << 24), 8) }

  function Crc32(data: Bytes): bv32 {
    if data == [] then 0xffffffff else Absorbed(Crc32(data[..|data| - 1]), data[|data| - 1])
  }

  predicate ValidCrc(section: Bytes) { |section| >= 4 && Crc32(section) == 0 }

  /** The four bytes that end a section, most significant first. */
  function CrcBytes(crc: bv32): (b: Bytes)
    ensures |b| == 4
  {
    [(crc >> 24) as int, ((crc >> 16) & 255) as int, ((crc >> 8) & 255) as int, (crc & 255) as int]
  }

  lemma EightShifts(x: bv32)
    ensures Shifts(x, 8) == Shifted(Shifted(Shifted(Shifted(Shifted(Shifted(Shifted(Shifted(x))))))))
  {
    assert Shifts(x, 1) == Shifted(x);
    assert Shifts(x, 2) == Shifted(Shifted(x));
    assert Shifts(x, 4) == Shifted(Shifted(Shifted(Shifted(x))));
    assert Shifts(x, 6) == Shifted(Shifted(Shifts(x, 4)));
  }

  lemma LowBitsShiftOut(crc: bv32)
    ensures Shifted(Shifted(Shifted(Shifted(Shifted(Shifted(Shifted(Shifted(crc & 0xffffff)))))))) == crc << 8
  {
  }

  lemma BitsOfByte(x: bv32)
    requires x <= 255
    ensures x as int < 256 && (x as int) as bv32 == x
  {
  }

  /** Fed its own top byte, the register only shifts. */
  lemma TopByteClears(crc: bv32, b: Byte)
    requires b == (crc >> 24) as int
    ensures Absorbed(crc, b) == crc << 8
  {
    BitsOfByte(crc >> 24);
    assert crc ^ ((crc >> 24) << 24) == crc & 0xffffff;
    EightShifts(crc & 0xffffff);
    LowBitsShiftOut(crc);
  }

  lemma RegisterMoves(crc: bv32, c1: bv32, c2: bv32, c3: bv32)
    requires c1 == crc << 8 && c2 == c1 << 8 && c3 == c2 << 8
    ensures c1 >> 24 == (crc >> 16) & 255 && c2 >> 24 == (crc >> 8) & 255 && c3 >> 24 == crc & 255 && c3 << 8 == 0
  {
  }

  function AbsorbedFour(crc: bv32, a: Byte, b: Byte, c: Byte, d: Byte): bv32 {
    Absorbed(Absorbed(Absorbed(Absorbed(crc, a), b), c), d)
  }

  lemma FourTopBytesClear(c0: bv32, c1: bv32, c2: bv32, c3: bv32, b0: Byte, b1: Byte, b2: Byte, b3: Byte)
    requires c1 == c0 << 8 && c2 == c1 << 8 && c3 == c2 << 8 && c3 << 8 == 0
    requires b0 == (c0 >> 24) as int && b1 == (c1 >> 24) as int && b2 == (c2 >> 24) as int && b3 == (c3 >> 24) as int
    ensures AbsorbedFour(c0, b0, b1, b2, b3) == 0
  {
    TopByteClears(c0, b0);
    TopByteClears(c1, b1);
    TopByteClears(c2, b2);
    TopByteClears(c3, b3);
  }

  /** Fed its own four bytes, the register empties. */
  lemma RegisterClears(crc: bv32, tail: Bytes)
    requires tail == CrcBytes(crc)
    ensures AbsorbedFour(crc, tail[0], tail[1], tail[2], tail[3]) == 0
  {
    var c1: bv32 := crc << 8;
    var c2: bv32 := c1 << 8;
    var c3: bv32 := c2 << 8;
    RegisterMoves(crc, c1, c2, c3);
    FourTopBytesClear(crc, c1, c2, c3, tail[0], tail[1], tail[2], tail[3]);
  }

  lemma CrcOfOneMore(data: Bytes, b: Byte)
    ensures Crc32(data + [b]) == Absorbed(Crc32(data), b)
  {
    assert (data + [b])[..|data|] == data;
  }

  lemma CrcOfFourMore(data: Bytes, a: Byte, b: Byte, c: Byte, d: Byte)
    ensures Crc32(data + [a, b, c, d]) == AbsorbedFour(Crc32(data), a, b, c, d)
  {
    CrcOfOneMore(data, a);
    CrcOfOneMore(data + [a], b);
    CrcOfOneMore(data + [a] + [b], c);
    CrcOfOneMore(data + [a] + [b] + [c], d);
    assert data + [a] + [b] + [c] + [d] == data + [a, b, c, d];
  }

  /** A section that ends in the CRC of the rest passes its check. */
  lemma CrcCloses(data: Bytes)
    ensures ValidCrc(data + CrcBytes(Crc32(data)))
  {
    var tail := CrcBytes(Crc32(data));
    CrcOfFourMore(data, tail[0], tail[1], tail[2], tail[3]);
    assert tail == [tail[0], tail[1], tail[2], tail[3]];
    RegisterClears(Crc32(data), tail);
  }

  // ----- Packets

  datatype Packet = Packet(
    pid: nat, start: bool, continuity: nat, hasPayload: bool, payload: Bytes, randomAccess: bool,
    discontinuity: bool, clock: Option<nat>)

  function U16(high: int, low: int): int { high * 256 + low }

  /** A byte without its top bits, one after the other. */
  function Low7(b: Byte): nat { if b >= 128 then b - 128 else b }
  function Low6(b: Byte): nat { if Low7(b) >= 64 then Low7(b) - 64 else Low7(b) }
  function Low5(b: Byte): nat { if Low6(b) >= 32 then Low6(b) - 32 else Low6(b) }
  function Low4(b: Byte): nat { if Low5(b) >= 16 then Low5(b) - 16 else Low5(b) }

  function Pid(packet: Bytes): nat
    requires |packet| >= 3
  {
    if Low5(packet[1]) == 0 then packet[2] else U16(Low5(packet[1]), packet[2])
  }

  /** A number in bytes, most significant first. */
  function Number(b: Bytes): nat { if b == [] then 0 else Number(b[..|b| - 1]) * 256 + b[|b| - 1] }

  /** The program clock reference, or None if its extension is out of range. */
  function ClockValue(v: Bytes): Option<nat>
    requires |v| == 6
  {
    var base := Number(v[..4]) * 2 + (if v[4] >= 128 then 1 else 0);
    var extension := U16(v[4] % 2, v[5]);
    if extension > 299 then None else Some(base * 300 + extension)
  }

  /** The adaptation field of a packet that has one: its length, and the packet with its flags. */
  function ParseAdaptation(packet: Bytes, parsed: Packet): Result<(nat, Packet)>
    requires |packet| == PACKET_BYTES
  {
    var length := packet[4];
    if length > PACKET_BYTES - 5 || (!parsed.hasPayload && length != PACKET_BYTES - 5) then Err(ErrPacket)
    else if length == 0 then Ok((5, parsed))
    else
      var flags := packet[5];
      var flagged := parsed.(discontinuity := flags >= 128, randomAccess := Low7(flags) >= 64);
      if Low5(flags) < 16 then Ok((5 + length, flagged))
      else if length < 7 then Err(ErrPacket)
      else
        var clock := ClockValue(packet[6..12]);
        if clock.None? then Err(ErrPacket) else Ok((5 + length, flagged.(clock := clock)))
  }

  function ParsePacket(packet: Bytes): Result<Packet> {
    if |packet| != PACKET_BYTES || packet[0] != 0x47 || packet[1] >= 128 || Low6(packet[3]) < 16 then Err(ErrPacket)
    else
      var parsed := Packet(Pid(packet), packet[1] >= 64, Low4(packet[3]), Low5(packet[3]) >= 16, [], false, false, None);
      var adapted := if Low6(packet[3]) >= 32 then ParseAdaptation(packet, parsed) else Ok((4, parsed));
      if adapted.Err? then Err(adapted.error)
      else
        var (offset, p) := adapted.value;
        if !p.hasPayload then Ok(p)
        else if offset >= PACKET_BYTES then Err(ErrPacket)
        else Ok(p.(payload := packet[offset..]))
  }

  // ----- Packetising a section

  function Fill(n: nat): Bytes { seq(n, _ => 0xff) }

  /** The header of a packet without an adaptation field. */
  function Header(pid: nat, continuity: nat, start: bool): Bytes {
    [0x47, pid / 256 % 32 + (if start then 64 else 0), pid % 256, 16 + continuity % 16]
  }

  function Stuffed(header: Bytes, content: Bytes): (packet: Bytes)
    requires |header| + |content| <= PACKET_BYTES
    ensures |packet| == PACKET_BYTES
  {
    header + content + Fill(PACKET_BYTES - |header| - |content|)
  }

  /** What the parser reads from a packet with a plain header. */
  lemma PlainPacketParses(pid: nat, continuity: nat, start: bool, content: Bytes)
    requires pid <= NULL_PID && |content| <= PACKET_BYTES - 4
    ensures ParsePacket(Stuffed(Header(pid, continuity, start), content)) ==
      Ok(Packet(pid, start, continuity % 16, true, content + Fill(PACKET_BYTES - 4 - |content|), false, false, None))
  {
    var packet := Stuffed(Header(pid, continuity, start), content);
    assert packet[..4] == Header(pid, continuity, start);
    assert packet[0] == 0x47 && packet[1] == pid / 256 % 32 + (if start then 64 else 0);
    assert packet[2] == pid % 256 && packet[3] == 16 + continuity % 16;
    assert packet[4..] == content + Fill(PACKET_BYTES - 4 - |content|);
  }

  function Continued(pid: nat, continuity: nat, rest: Bytes): seq<Bytes>
    decreases |rest|
  {
    if |rest| == 0 then []
    else
      var count := if |rest| < PACKET_BYTES - 4 then |rest| else PACKET_BYTES - 4;
      [Stuffed(Header(pid, continuity, false), rest[..count])] + Continued(pid, continuity + 1, rest[count..])
  }

  /** The packets that carry a section: a pointer field before its first byte, stuffing after its last. */
  function Packets(pid: nat, continuity: nat, section: Bytes): seq<Bytes> {
    var count := if |section| < PACKET_BYTES - 5 then |section| else PACKET_BYTES - 5;
    [Stuffed(Header(pid, continuity, true), [0] + section[..count])] + Continued(pid, continuity + 1, section[count..])
  }

  predicate Packetisable(pid: nat, section: Bytes) { pid <= 0x1ffe && 12 <= |section| <= MAX_SECTION_BYTES }

  lemma ContinuityWraps(pid: nat, continuity: nat, rest: Bytes)
    ensures Continued(pid, continuity % 16, rest) == Continued(pid, continuity, rest)
    decreases |rest|
  {
    if |rest| != 0 {
      var count := if |rest| < PACKET_BYTES - 4 then |rest| else PACKET_BYTES - 4;
      ContinuityWraps(pid, continuity % 16 + 1, rest[count..]);
      ContinuityWraps(pid, continuity + 1, rest[count..]);
      assert (continuity % 16 + 1) % 16 == (continuity + 1) % 16;
    }
  }

  lemma LastContinued(pid: nat, continuity: nat, rest: Bytes)
    requires 0 < |rest| <= PACKET_BYTES - 4
    ensures Continued(pid, continuity, rest) == [Stuffed(Header(pid, continuity, false), rest)]
  {
    assert rest[|rest|..] == [] && rest[..|rest|] == rest;
  }

  lemma MoreContinued(pid: nat, continuity: nat, rest: Bytes)
    requires |rest| > PACKET_BYTES - 4
    ensures var packets := Continued(pid, continuity, rest);
      packets != [] && packets[0] == Stuffed(Header(pid, continuity, false), rest[..PACKET_BYTES - 4]) &&
      packets[1..] == Continued(pid, continuity + 1, rest[PACKET_BYTES - 4..])
  {
  }

  lemma ContinuedStep(pid: nat, continuity: nat, rest: Bytes, done: seq<Bytes>, packet: Bytes, count: nat)
    requires |rest| > 0 && continuity < 16
    requires count == if |rest| < PACKET_BYTES - 4 then |rest| else PACKET_BYTES - 4
    requires packet == Stuffed(Header(pid, continuity, false), rest[..count])
    ensures done + Continued(pid, continuity, rest) ==
      done + [packet] + Continued(pid, (continuity + 1) % 16, rest[count..])
  {
    var tail := Continued(pid, continuity + 1, rest[count..]);
    assert Continued(pid, continuity, rest) == [packet] + tail;
    Associates(done, [packet], tail);
    ContinuityWraps(pid, continuity + 1, rest[count..]);
  }

  /** `PacketizeSection`. */
  method PacketizeSection(pid: nat, continuity: nat, section: Bytes) returns (r: Result<seq<Bytes>>)
    requires continuity < 16
    ensures r == if Packetisable(pid, section) then Ok(Packets(pid, continuity, section)) else Err(ErrPsi)
  {
    if pid > 0x1ffe || |section| < 12 || |section| > MAX_SECTION_BYTES { return Err(ErrPsi); }
    var remaining, first, cc, result := section, true, continuity, [];
    while |remaining| != 0
      invariant cc < 16
      invariant first ==> result == [] && remaining == section && cc == continuity
      invariant !first ==> result + Continued(pid, cc, remaining) == Packets(pid, continuity, section)
      decreases |remaining|
    {
      var start := if first then 5 else 4;
      var count := if |remaining| < PACKET_BYTES - start then |remaining| else PACKET_BYTES - start;
      var pointer: Bytes := if first then [0] else [];
      var packet := Stuffed(Header(pid, cc, first), pointer + remaining[..count]);
      if first {
        ContinuityWraps(pid, cc + 1, remaining[count..]);
      } else {
        assert pointer + remaining[..count] == remaining[..count];
        ContinuedStep(pid, cc, remaining, result, packet, count);
      }
      result, remaining, cc, first := result + [packet], remaining[count..], (cc + 1) % 16, false;
    }
    assert result + [] == result && Continued(pid, cc, remaining) == [];
    r := Ok(result);
  }

  // ----- Feeding packets to an assembler one after the other

  /** What an assembler in some state makes of a packet: its next state and the sections it completes. */
  type Assembler<!S> = (S, Bytes) -> Result<(S, seq<Bytes>)>

  function FeedAll<S>(feed: Assembler<S>, s: S, packets: seq<Bytes>): Result<(S, seq<Bytes>)>
    decreases |packets|
  {
    if packets == [] then Ok((s, []))
    else
      var r := feed(s, packets[0]);
      if r.Err? then r
      else
        var more := FeedAll(feed, r.value.0, packets[1..]);
        if more.Err? then more else Ok((more.value.0, r.value.1 + more.value.1))
  }

  lemma FeedOne<S>(feed: Assembler<S>, s: S, packet: Bytes, mid: S, out: seq<Bytes>)
    requires feed(s, packet) == Ok((mid, out))
    ensures FeedAll(feed, s, [packet]) == Ok((mid, out))
  {
    assert [packet][1..] == [];
    assert FeedAll(feed, mid, []) == Ok((mid, []));
    assert out + [] == out;
  }

  /** A step and then the rest. */
  lemma FeedNext<S>(feed: Assembler<S>, s: S, packets: seq<Bytes>, mid: S, end: S, out: seq<Bytes>, more: seq<Bytes>)
    requires packets != [] && feed(s, packets[0]) == Ok((mid, out)) && FeedAll(feed, mid, packets[1..]) == Ok((end, more))
    ensures FeedAll(feed, s, packets) == Ok((end, out + more))
  {
  }

  lemma {:induction false} FeedJoins<S>(feed: Assembler<S>, s: S, a: seq<Bytes>, b: seq<Bytes>, mid: S, end: S,
                                        out: seq<Bytes>, more: seq<Bytes>)
    requires FeedAll(feed, s, a) == Ok((mid, out)) && FeedAll(feed, mid, b) == Ok((end, more))
    ensures FeedAll(feed, s, a + b) == Ok((end, out + more))
    decreases |a|
  {
    if a == [] {
      assert a + b == b && [] + more == more;
    } else {
      var r := feed(s, a[0]).value;
      var rest := FeedAll(feed, r.0, a[1..]).value;
      FeedJoins(feed, r.0, a[1..], b, mid, end, rest.1, more);
      assert (a + b)[0] == a[0] && (a + b)[1..] == a[1..] + b;
      Associates(r.1, rest.1, more);
      FeedNext(feed, s, a + b, r.0, end, r.1, rest.1 + more);
    }
  }

  predicate WellHeaded(section: Bytes) {
    12 <= |section| <= MAX_SECTION_BYTES && section[0] != 0xff && 3 + U16(section[1] % 16, section[2]) == |section|
  }

  /** The packets of a list of sections, with one running continuity counter. */
  function SectionPackets(pid: nat, continuity: nat, sections: seq<Bytes>): seq<Bytes>
    decreases |sections|
  {
    if sections == [] then []
    else
      var packets := Packets(pid, continuity, sections[0]);
      packets + SectionPackets(pid, continuity + |packets|, sections[1..])
  }

  lemma NextCounter(continuity: nat)
    ensures (continuity % 16 + 1) % 16 == (continuity + 1) % 16
  {
  }
}
