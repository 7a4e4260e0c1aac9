/** Cutting a byte stream into packets without ever resynchronising: what is delivered depends on the bytes
    only, not on how they arrived. */
module Packetizer {
  import opened Basics
  import opened Mpegts

  const SYNC_PACKETS := 5
  const MAX_SYNC_SEARCH := 65_536
  const SEARCH_LIMIT := MAX_SYNC_SEARCH + (SYNC_PACKETS - 1) * PACKET_BYTES + 1

  predicate SyncAt(data: Bytes, p: nat)
    requires p + (SYNC_PACKETS - 1) * PACKET_BYTES < |data|
  {
    forall k | 0 <= k < SYNC_PACKETS :: data[p + k * PACKET_BYTES] == 0x47
  }

  /** The first position, from `p` on, where five packets in a row would start. */
  function SyncFrom(data: Bytes, p: nat): (r: Option<nat>)
    ensures r.Some? ==> p <= r.value <= MAX_SYNC_SEARCH && r.value + (SYNC_PACKETS - 1) * PACKET_BYTES < |data|
    decreases |data| - p
  {
    if p > MAX_SYNC_SEARCH || p + (SYNC_PACKETS - 1) * PACKET_BYTES >= |data| then None
    else if SyncAt(data, p) then Some(p)
    else SyncFrom(data, p + 1)
  }

  datatype Cut = Cut(packets: seq<Bytes>, rest: Bytes, broken: bool)

  /** Packets from the front; `broken` if one does not start with the sync byte. */
  function CutUp(b: Bytes): (c: Cut)
    ensures !c.broken ==> |c.rest| < PACKET_BYTES
    ensures forall p | p in c.packets :: |p| == PACKET_BYTES
  {
    if |b| < PACKET_BYTES then Cut([], b, false)
    else if b[0] != 0x47 then Cut([], b, true)
    else
      var c := CutUp(b[PACKET_BYTES..]);
      c.(packets := [b[..PACKET_BYTES]] + c.packets)
  }

  datatype Stream = Searching | NoSync | Running(cut: Cut)

  /** What a whole input amounts to. */
  function StreamOf(input: Bytes): Stream {
    var at := SyncFrom(input, 0);
    if at.Some? then Running(CutUp(input[at.value..]))
    else if |input| >= SEARCH_LIMIT then NoSync
    else Searching
  }

  function PacketsOf(s: Stream): seq<Bytes> { if s.Running? then s.cut.packets else [] }

  // ----- More input

  lemma SyncStays(a: Bytes, b: Bytes, p: nat)
    requires p + (SYNC_PACKETS - 1) * PACKET_BYTES < |a|
    ensures SyncAt(a + b, p) == SyncAt(a, p)
  {
    assert forall k | 0 <= k < SYNC_PACKETS :: (a + b)[p + k * PACKET_BYTES] == a[p + k * PACKET_BYTES];
  }

  /** A sync position that was found stays the first; a search that failed at its limit stays failed. */
  lemma {:induction false} SyncJoins(a: Bytes, b: Bytes, p: nat)
    ensures SyncFrom(a, p).Some? ==> SyncFrom(a + b, p) == SyncFrom(a, p)
    ensures SyncFrom(a, p).None? && |a| >= SEARCH_LIMIT ==> SyncFrom(a + b, p).None?
    decreases |a| - p
  {
    if p <= MAX_SYNC_SEARCH && p + (SYNC_PACKETS - 1) * PACKET_BYTES < |a| {
      SyncStays(a, b, p);
      if !SyncAt(a, p) { SyncJoins(a, b, p + 1); }
    }
  }

  /** What the cutting `c` of some bytes becomes when `b` follows. */
  function CutMore(c: Cut, b: Bytes): Cut {
    if c.broken then c.(rest := c.rest + b)
    else var more := CutUp(c.rest + b); more.(packets := c.packets + more.packets)
  }

  lemma NothingBefore(c: Cut)
    ensures c.(packets := [] + c.packets) == c
  {
    assert [] + c.packets == c.packets;
  }

  lemma OnePacketBefore(p: Bytes, c: Cut, b: Bytes)
    ensures CutMore(c.(packets := [p] + c.packets), b) == CutMore(c, b).(packets := [p] + CutMore(c, b).packets)
  {
    hide CutUp;
    if !c.broken { Associates([p], c.packets, CutUp(c.rest + b).packets); }
  }

  lemma {:induction false} CutJoins(a: Bytes, b: Bytes)
    ensures CutUp(a + b) == CutMore(CutUp(a), b)
  {
    if |a| < PACKET_BYTES {
      NothingBefore(CutUp(a + b));
    } else if a[0] == 0x47 {
      var (p, tail) := (a[..PACKET_BYTES], a[PACKET_BYTES..]);
      CutJoins(tail, b);
      assert (a + b)[..PACKET_BYTES] == p && (a + b)[PACKET_BYTES..] == tail + b;
      OnePacketBefore(p, CutUp(tail), b);
      hide CutMore;
    }
  }

  /** However the input is chunked: what was delivered stays delivered, and what follows depends on the
      bytes that are left over and on the new ones. */
  lemma ChunksDoNotMatter(a: Bytes, b: Bytes)
    ensures PacketsOf(StreamOf(a)) <= PacketsOf(StreamOf(a + b))
    ensures StreamOf(a).NoSync? ==> StreamOf(a + b).NoSync?
    ensures StreamOf(a).Running? && !StreamOf(a).cut.broken ==>
      StreamOf(a + b) == Running(CutMore(StreamOf(a).cut, b))
    ensures StreamOf(a).Running? && StreamOf(a).cut.broken ==>
      StreamOf(a + b).Running? && StreamOf(a + b).cut.broken && PacketsOf(StreamOf(a + b)) == PacketsOf(StreamOf(a))
  {
    SyncJoins(a, b, 0);
    var at := SyncFrom(a, 0);
    if at.Some? {
      assert (a + b)[at.value..] == a[at.value..] + b;
      CutJoins(a[at.value..], b);
    }
  }

  /** `findSync`. */
  method FindSync(data: Bytes) returns (r: Option<nat>)
    ensures r == SyncFrom(data, 0)
  {
    var position := 0;
    while position <= MAX_SYNC_SEARCH && position + (SYNC_PACKETS - 1) * PACKET_BYTES < |data|
      invariant SyncFrom(data, 0) == SyncFrom(data, position)
      decreases |data| - position
    {
      var matched, index := true, 0;
      while index < SYNC_PACKETS && matched
        invariant index <= SYNC_PACKETS
        invariant matched ==> forall k | 0 <= k < index :: data[position + k * PACKET_BYTES] == 0x47
        invariant !matched ==> !SyncAt(data, position)
      {
        if data[position + index * PACKET_BYTES] != 0x47 { matched := false; }
        index := index + 1;
      }
      if matched { return Some(position); }
      position := position + 1;
    }
    r := None;
  }
}
