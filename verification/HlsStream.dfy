/** A live stream as it is written: bytes in any chunks, packets, segments. */
module HlsStream {
  import opened Basics
  import opened HlsSegmenter
  import opened HlsSegments
  import opened HlsStep
  import opened HlsValidation
  import opened Mpegts
  import opened Packetizer

  function Flat(packets: seq<Bytes>): Bytes {
    if packets == [] then [] else Flat(packets[..|packets| - 1]) + packets[|packets| - 1]
  }

  lemma FlatOneMore(packets: seq<Bytes>, p: Bytes)
    ensures Flat(packets + [p]) == Flat(packets) + p
  {
    assert (packets + [p])[..|packets|] == packets;
  }

  /** The stream that was seen, as far as it is cut, and what is left over. */
  ghost predicate InStep(seen: Bytes, buffer: Bytes, synced: bool, taken: seq<Bytes>) {
    if synced then StreamOf(seen) == Running(Cut(taken, buffer, false))
    else StreamOf(seen).Searching? && buffer == seen && taken == []
  }

  /** In the middle of a write: packets are taken, and the rest of the input is still to be cut. */
  ghost predicate Cutting(seen: Bytes, buffer: Bytes, taken: seq<Bytes>) {
    StreamOf(seen).Running? && StreamOf(seen).cut == CutUp(buffer).(packets := taken + CutUp(buffer).packets)
  }

  lemma MoreToCut(seen: Bytes, buffer: Bytes, taken: seq<Bytes>, data: Bytes)
    requires InStep(seen, buffer, true, taken)
    ensures Cutting(seen + data, buffer + data, taken)
  {
    hide StreamOf, CutUp;
    ChunksDoNotMatter(seen, data);
  }

  lemma OnePacketCut(seen: Bytes, buffer: Bytes, taken: seq<Bytes>)
    requires Cutting(seen, buffer, taken) && |buffer| >= PACKET_BYTES && buffer[0] == 0x47
    ensures Cutting(seen, buffer[PACKET_BYTES..], taken + [buffer[..PACKET_BYTES]])
  {
    hide StreamOf;
    Associates(taken, [buffer[..PACKET_BYTES]], CutUp(buffer[PACKET_BYTES..]).packets);
  }

  lemma CutIsDone(seen: Bytes, buffer: Bytes, taken: seq<Bytes>)
    requires Cutting(seen, buffer, taken) && |buffer| < PACKET_BYTES
    ensures InStep(seen, buffer, true, taken)
  {
    hide StreamOf;
    assert taken + [] == taken;
  }

  lemma TakenSoFar(seen: Bytes, buffer: Bytes, taken: seq<Bytes>)
    requires Cutting(seen, buffer, taken)
    ensures taken <= PacketsOf(StreamOf(seen))
    ensures |buffer| >= PACKET_BYTES && buffer[0] == 0x47 ==> taken + [buffer[..PACKET_BYTES]] <= PacketsOf(StreamOf(seen))
  {
    hide StreamOf;
    if |buffer| >= PACKET_BYTES && buffer[0] == 0x47 { OnePacketCut(seen, buffer, taken); }
  }

  // ----- What a stream comes to

  datatype Broadcast = Broadcast(segments: seq<Segment>, failure: Option<Reason>)

  function FailureOf(next: Checked<State>): Option<Reason> { if next.Bad? then Some(next.reason) else None }

  /** The segments of a stream, and why it was given up, if so: a matter of its bytes alone. */
  function Aired(seen: Bytes, sink: Sink): Broadcast {
    match StreamOf(seen)
    case Searching => Broadcast([], None)
    case NoSync => Broadcast([], Some(TsSyncUnavailable))
    case Running(cut) =>
      var play := Played(START, cut.packets, sink);
      Broadcast(play.emitted, if play.next.Good? && cut.broken then Some(TsSyncUnavailable) else FailureOf(play.next))
  }

  /** Why a stream may not end where it does. */
  function Ending(seen: Bytes, sink: Sink): Option<Reason> {
    if Aired(seen, sink).failure.Some? then Aired(seen, sink).failure
    else match StreamOf(seen)
      case Running(cut) =>
        if cut.rest != [] then Some(TsSyncUnavailable) else Unfinished(Played(START, cut.packets, sink).next.value)
      case _ => Some(TsSyncUnavailable)
  }

  /** A failure is for good, whatever follows; until then, what follows only adds segments. */
  lemma MoreIsAired(seen: Bytes, more: Bytes, sink: Sink)
    ensures Aired(seen, sink).failure.Some? ==> Aired(seen + more, sink) == Aired(seen, sink)
    ensures Aired(seen, sink).segments <= Aired(seen + more, sink).segments
  {
    hide StreamOf, Played;
    ChunksDoNotMatter(seen, more);
    if StreamOf(seen).Running? {
      hide CutMore;
      PlayedInFront(START, PacketsOf(StreamOf(seen)), PacketsOf(StreamOf(seen + more)), sink);
    }
  }

  lemma AllAired(seen: Bytes, buffer: Bytes, synced: bool, taken: seq<Bytes>, state: State, segments: seq<Segment>, sink: Sink)
    requires InStep(seen, buffer, synced, taken) && Played(START, taken, sink) == Outcome(Good(state), segments)
    ensures Aired(seen, sink) == Broadcast(segments, None)
  {
    hide StreamOf, Processed;
  }

  lemma RefusalIsAired(seen: Bytes, taken: seq<Bytes>, sink: Sink)
    requires taken <= PacketsOf(StreamOf(seen)) && Played(START, taken, sink).next.Bad?
    ensures var play := Played(START, taken, sink); Aired(seen, sink) == Broadcast(play.emitted, Some(play.next.reason))
  {
    hide StreamOf, Processed;
    if StreamOf(seen).Running? {
      hide Played;
      PlayedInFront(START, taken, StreamOf(seen).cut.packets, sink);
    }
  }

  lemma LossIsAired(seen: Bytes, buffer: Bytes, taken: seq<Bytes>, sink: Sink)
    requires Cutting(seen, buffer, taken) && |buffer| >= PACKET_BYTES && buffer[0] != 0x47
    requires Played(START, taken, sink).next.Good?
    ensures Aired(seen, sink) == Broadcast(Played(START, taken, sink).emitted, Some(TsSyncUnavailable))
  {
    hide StreamOf, Played;
    assert taken + [] == taken;
  }

  // ----- The writer

  /** The segmenter is where the packets taken so far bring it. */
  ghost predicate Follows(s: Segmenter, taken: seq<Bytes>)
    reads s
  {
    s.Live() && Flat(taken) == s.h.input && Played(START, taken, s.sink) == Outcome(Good(s.Value()), s.h.segments)
  }

  class Writer {
    const segmenter: Segmenter
    var buffer: Bytes
    var synced: bool
    var failed: Option<Reason>
    var ended: bool
    var finishReason: Option<Reason>
    ghost var seen: Bytes
    ghost var taken: seq<Bytes>

    constructor (sink: Sink)
      ensures Valid() && fresh(segmenter) && segmenter.sink == sink && seen == [] && failed.None? && !ended
    {
      segmenter := new Segmenter(sink);
      buffer, synced, failed, ended, finishReason := [], false, None, false, None;
      seen, taken := [], [];
    }

    /** The segments that were published and the failure are those of all bytes written, in whatever chunks.
        Without a failure the segmenter has had all their packets, in order. */
    ghost predicate Valid()
      reads this, segmenter
    {
      && segmenter.Sound() && Flat(taken) == segmenter.h.input && taken <= PacketsOf(StreamOf(seen))
      && segmenter.h.segments == Aired(seen, segmenter.sink).segments
      && (if ended then finishReason == Ending(seen, segmenter.sink) else failed == Aired(seen, segmenter.sink).failure)
      && (failed.None? && !ended ==> Follows(segmenter, taken) && InStep(seen, buffer, synced, taken))
    }

    method Fail(reason: Reason)
      requires segmenter.Sound() && Flat(taken) == segmenter.h.input && taken <= PacketsOf(StreamOf(seen)) && !ended
      requires Aired(seen, segmenter.sink) == Broadcast(segmenter.h.segments, Some(reason))
      modifies this`buffer, this`synced, this`failed, segmenter
      ensures Valid() && failed == Some(reason) && segmenter.h == old(segmenter.h)
    {
      hide Aired, StreamOf, PacketsOf, Faithful, AllValidated, Flat, InStep, Ending, Follows;
      failed := Some(reason);
      segmenter.Release();
      buffer, synced := [], false;
    }

    /** `Packetizer.Feed` up to its loop: new bytes, and the search for packets if there were none yet. */
    method Accept(data: Bytes) returns (lost: bool)
      requires Valid() && failed.None? && !ended
      modifies this`buffer, this`synced, this`seen
      ensures seen == old(seen) + data && taken <= PacketsOf(StreamOf(seen))
      ensures lost ==> StreamOf(seen).NoSync? && taken == []
      ensures !lost && synced ==> Cutting(seen, buffer, taken)
      ensures !lost && !synced ==> InStep(seen, buffer, false, taken)
    {
      hide StreamOf, CutUp, Segmenter.Live, Segmenter.Sound, PacketsOf, Cutting, InStep, Aired, Follows, Ending;
      if synced { MoreToCut(seen, buffer, taken, data); } else { OnlySeen(seen, buffer, taken); }
      ChunksAdd(seen, data, taken);
      seen := seen + data;
      buffer := buffer + data;
      if synced { return false; }
      var position := FindSync(buffer);
      FirstSync(buffer, position);
      if position.None? { return |buffer| >= SEARCH_LIMIT; }
      buffer := buffer[position.value..];
      synced := true;
      lost := false;
    }

    /** One packet more, or the reason why the segmenter refuses it. */
    method TakeOne(packet: Bytes) returns (refused: Option<Reason>)
      requires Follows(segmenter, taken) && |packet| == PACKET_BYTES && taken + [packet] <= PacketsOf(StreamOf(seen))
      modifies this`taken, segmenter
      ensures taken == old(taken) + [packet] && Flat(taken) == segmenter.h.input && segmenter.Sound()
      ensures refused.None? ==> Follows(segmenter, taken)
      ensures refused.Some? ==> Aired(seen, segmenter.sink) == Broadcast(segmenter.h.segments, refused)
    {
      hide StreamOf, Flat, Segmenter.Live, Segmenter.Sound, PacketsOf, Aired, Played, Processed;
      FlatOneMore(taken, packet);
      PlayedOneMore(START, taken, packet, segmenter.sink);
      refused := segmenter.ProcessPacket(packet);
      taken := taken + [packet];
      if refused.Some? { RefusalIsAired(seen, taken, segmenter.sink); }
    }

    /** The loop of `Packetizer.Feed`. */
    method TakePackets()
      requires Follows(segmenter, taken) && Cutting(seen, buffer, taken)
      requires synced && !ended && failed.None?
      modifies this`buffer, this`synced, this`failed, this`taken, segmenter
      ensures Valid()
    {
      hide StreamOf, Flat, CutUp, Segmenter.Live, Segmenter.Sound, PacketsOf, Cutting, InStep, Aired, Played, Ending;
      while |buffer| >= PACKET_BYTES
        invariant Follows(segmenter, taken) && Cutting(seen, buffer, taken) && synced && failed.None?
        decreases |buffer|
      {
        TakenSoFar(seen, buffer, taken);
        LiveIsSound(segmenter);
        if buffer[0] != 0x47 {
          LossIsAired(seen, buffer, taken, segmenter.sink);
          Fail(TsSyncUnavailable);
          return;
        }
        OnePacketCut(seen, buffer, taken);
        var refused := TakeOne(buffer[..PACKET_BYTES]);
        if refused.Some? {
          Fail(refused.value);
          return;
        }
        buffer := buffer[PACKET_BYTES..];
      }
      TakenSoFar(seen, buffer, taken);
      CutIsDone(seen, buffer, taken);
      LiveIsSound(segmenter);
      AllAired(seen, buffer, synced, taken, segmenter.Value(), segmenter.h.segments, segmenter.sink);
    }

    /** `Write`: all of the bytes, whichever way they were chunked, or a failure that lasts. */
    method Write(data: Bytes) returns (err: Option<Reason>)
      requires Valid()
      modifies this, segmenter
      ensures Valid() && ended == old(ended) && old(segmenter.h.segments) <= segmenter.h.segments
      ensures old(ended) ==> err == Some(SessionEnded) && seen == old(seen)
      ensures !old(ended) ==> seen == old(seen) + data && failed == err
      ensures !old(ended) && old(failed).Some? ==> err == old(failed)
      ensures err.None? ==> taken == PacketsOf(StreamOf(seen))
    {
      hide StreamOf, Flat, CutUp, Segmenter.Live, Segmenter.Sound, PacketsOf, Cutting, InStep, Aired, Played, Ending;
      if ended { return Some(SessionEnded); }
      MoreIsAired(seen, data, segmenter.sink);
      if failed.Some? {
        ChunksAdd(seen, data, taken);
        seen := seen + data;
        return failed;
      }
      var lost := Accept(data);
      LiveIsSound(segmenter);
      if lost {
        NothingAired(seen, taken, segmenter.sink);
        Fail(TsSyncUnavailable);
      } else if synced {
        TakePackets();
      } else {
        AllAired(seen, buffer, synced, taken, segmenter.Value(), segmenter.h.segments, segmenter.sink);
      }
      if failed.None? { AllTaken(seen, buffer, synced, taken); }
      err := failed;
    }

    /** `Finish`: the bytes that were held are not published. It is without an error only if the input was
        whole packets, a boundary was found, and no announced change is waiting for one. */
    method Finish() returns (err: Option<Reason>)
      requires Valid()
      modifies this, segmenter
      ensures Valid() && ended && segmenter.h == old(segmenter.h) && seen == old(seen) && taken == old(taken)
      ensures err == finishReason && (old(ended) ==> err == old(finishReason))
      ensures !old(ended) && err.None? ==> StreamOf(seen) == Running(Cut(taken, [], false)) && segmenter.h.marks != []
    {
      hide StreamOf, Flat, PacketsOf, Segmenter.Sound, Segmenter.Live, Unfinished, Faithful, AllValidated, Aired, Played;
      if ended { return finishReason; }
      ended := true;
      if failed.Some? {
        err := failed;
      } else if !synced || buffer != [] {
        err := Some(TsSyncUnavailable);
      } else {
        ActiveIsMarked(segmenter);
        err := Unfinished(segmenter.Value());
      }
      failed, finishReason := err, err;
      SoundAlone(segmenter);
      segmenter.Release();
      SoundAlone(segmenter);
    }
  }

  lemma LiveIsSound(s: Segmenter)
    requires s.Live()
    ensures s.Sound()
  {
    hide Faithful, AllValidated, Standing;
    StandingIsFaithful(s.h, s.data, s.active, s.candidate, s.lastPcr);
  }

  lemma SoundAlone(s: Segmenter)
    ensures s.Sound() <==> Faithful(s.h) && AllValidated(s.h.segments)
  {
  }

  lemma ActiveIsMarked(s: Segmenter)
    requires s.Live()
    ensures Unfinished(s.Value()).None? ==> s.h.marks != []
  {
    hide Faithful, AllValidated, RequiresBoundary, ActiveClock, Quiet;
  }

  lemma ChunksAdd(seen: Bytes, data: Bytes, taken: seq<Bytes>)
    requires taken <= PacketsOf(StreamOf(seen))
    ensures taken <= PacketsOf(StreamOf(seen + data))
  {
    hide StreamOf, PacketsOf;
    ChunksDoNotMatter(seen, data);
  }

  lemma FirstSync(buffer: Bytes, position: Option<nat>)
    requires position == SyncFrom(buffer, 0)
    ensures position.Some? ==> Cutting(buffer, buffer[position.value..], [])
    ensures position.None? && |buffer| < SEARCH_LIMIT ==> InStep(buffer, buffer, false, [])
    ensures position.None? && |buffer| >= SEARCH_LIMIT ==> StreamOf(buffer).NoSync?
  {
    if position.Some? { NothingBefore(CutUp(buffer[position.value..])); }
  }

  lemma NothingAired(seen: Bytes, taken: seq<Bytes>, sink: Sink)
    requires StreamOf(seen).NoSync? && taken == []
    ensures Aired(seen, sink) == Broadcast([], Some(TsSyncUnavailable)) && Played(START, taken, sink) == Going(START)
  {
    hide StreamOf;
  }

  lemma OnlySeen(seen: Bytes, buffer: Bytes, taken: seq<Bytes>)
    requires InStep(seen, buffer, false, taken)
    ensures buffer == seen && taken == []
  {
  }

  lemma AllTaken(seen: Bytes, buffer: Bytes, synced: bool, taken: seq<Bytes>)
    requires InStep(seen, buffer, synced, taken)
    ensures taken == PacketsOf(StreamOf(seen))
  {
  }
}
