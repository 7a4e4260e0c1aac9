/** Byte accounting and reader protection of the live segment cache. Every method is one critical section
    or one file operation between two of them, so any order of calls is an interleaving of writers,
    readers, retention timers and stops. What the file system answers is a parameter. */
module LiveCache {

  // ----- Sums over tables

  ghost function Sum<K(!new)>(m: map<K, nat>): nat
    decreases |m|
  {
    if m == map[] then 0 else var k :| k in m; m[k] + Sum(m - {k})
  }

  lemma {:induction false} SumWithout<K(!new)>(m: map<K, nat>, k: K)
    requires k in m
    ensures Sum(m) == m[k] + Sum(m - {k})
    decreases |m|
  {
    var first :| first in m && Sum(m) == m[first] + Sum(m - {first});
    if first != k {
      SumWithout(m - {first}, k);
      SumWithout(m - {k}, first);
      assert m - {first} - {k} == m - {k} - {first};
    }
  }

  lemma SumWith<K(!new)>(m: map<K, nat>, k: K, v: nat)
    ensures Sum(m[k := v]) == v + (if k in m then Sum(m) - m[k] else Sum(m))
  {
    SumWithout(m[k := v], k);
    if k in m {
      SumWithout(m, k);
      assert m[k := v] - {k} == m - {k};
    } else {
      assert m[k := v] - {k} == m;
    }
  }

  lemma SumEmpty<K(!new)>(m: map<K, nat>)
    requires m == map[]
    ensures Sum(m) == 0
  {
  }

  // ----- Entries

  /** A segment being written: what is on disk, and what is reserved for the write under way. */
  datatype Partial = Partial(bytes: nat, inFlight: nat)

  datatype Segment = Segment(size: nat, readers: nat, retired: bool)

  datatype Generation = Generation(bytes: nat, closed: bool, partials: map<nat, Partial>, segments: map<nat, Segment>)
  {
    predicate Empty() { closed && partials == map[] && segments == map[] }
  }

  datatype Id = Id(slot: nat, number: nat)
  datatype Handle = Handle(id: Id, sequence: nat)
  datatype Limits = Limits(segment: nat, session: nat, total: nat)
  {
    predicate Valid() { 0 < segment <= session <= total }
  }

  function PartialBytes(partials: map<nat, Partial>): map<nat, nat> {
    map s | s in partials :: partials[s].bytes + partials[s].inFlight
  }

  function SegmentBytes(segments: map<nat, Segment>): map<nat, nat> { map s | s in segments :: segments[s].size }

  function GenerationBytes(generations: map<Id, Generation>): map<Id, nat> {
    map id | id in generations :: generations[id].bytes
  }

  /** Everything a generation holds, on disk or reserved, is in its count. */
  ghost predicate Counted(g: Generation, limits: Limits) {
    && g.bytes == Sum(PartialBytes(g.partials)) + Sum(SegmentBytes(g.segments)) && g.bytes <= limits.session
    && (forall s | s in g.partials :: g.partials[s].bytes + g.partials[s].inFlight <= limits.segment)
    && (forall s | s in g.segments :: 0 < g.segments[s].size <= limits.segment)
    && g.partials.Keys !! g.segments.Keys
  }

  /** The open handles on a segment. */
  function HandlesOn(handles: map<nat, Handle>, id: Id, sequence: nat): set<nat> {
    set h | h in handles && handles[h] == Handle(id, sequence)
  }

  ghost predicate Protected(generations: map<Id, Generation>, handles: map<nat, Handle>) {
    && (forall h | h in handles :: handles[h].id in generations && handles[h].sequence in generations[handles[h].id].segments)
    && (forall id, s | id in generations && s in generations[id].segments ::
        generations[id].segments[s].readers == |HandlesOn(handles, id, s)|)
  }

  ghost predicate Balanced(generations: map<Id, Generation>, total: nat, limits: Limits) {
    && limits.Valid() && total == Sum(GenerationBytes(generations)) && total <= limits.total
    && forall id | id in generations :: Counted(generations[id], limits)
  }

  /** `addWithin`. */
  predicate AddWithin(current: nat, added: nat, limit: nat) { current <= limit && added <= limit - current }

  // ----- One generation at a time

  lemma PartialChanges(g: Generation, s: nat, p: Partial)
    ensures Sum(PartialBytes(g.partials[s := p])) ==
      Sum(PartialBytes(g.partials)) + p.bytes + p.inFlight -
      (if s in g.partials then g.partials[s].bytes + g.partials[s].inFlight else 0)
  {
    SumWith(PartialBytes(g.partials), s, p.bytes + p.inFlight);
    assert PartialBytes(g.partials[s := p]) == PartialBytes(g.partials)[s := p.bytes + p.inFlight];
  }

  /** Bytes that land on disk are no longer in flight, and the generation counts the same. */
  lemma LandedIsCounted(g: Generation, limits: Limits, s: nat, p: Partial)
    requires Counted(g, limits) && s in g.partials && p.bytes + p.inFlight == g.partials[s].bytes + g.partials[s].inFlight
    ensures Counted(g.(partials := g.partials[s := p]), limits)
  {
    hide Sum;
    PartialChanges(g, s, p);
  }

  lemma PartialLeaves(g: Generation, s: nat)
    requires s in g.partials
    ensures Sum(PartialBytes(g.partials - {s})) == Sum(PartialBytes(g.partials)) - g.partials[s].bytes - g.partials[s].inFlight
  {
    SumWithout(PartialBytes(g.partials), s);
    assert PartialBytes(g.partials - {s}) == PartialBytes(g.partials) - {s};
  }

  lemma SegmentEnters(g: Generation, s: nat, segment: Segment)
    ensures Sum(SegmentBytes(g.segments[s := segment])) ==
      Sum(SegmentBytes(g.segments)) + segment.size - (if s in g.segments then g.segments[s].size else 0)
  {
    SumWith(SegmentBytes(g.segments), s, segment.size);
    assert SegmentBytes(g.segments[s := segment]) == SegmentBytes(g.segments)[s := segment.size];
  }

  lemma SegmentLeaves(g: Generation, s: nat)
    requires s in g.segments
    ensures Sum(SegmentBytes(g.segments - {s})) == Sum(SegmentBytes(g.segments)) - g.segments[s].size
  {
    SumWithout(SegmentBytes(g.segments), s);
    assert SegmentBytes(g.segments - {s}) == SegmentBytes(g.segments) - {s};
  }

  /** Replacing one generation moves the total by the difference of its bytes. */
  lemma GenerationChanges(generations: map<Id, Generation>, total: nat, limits: Limits, id: Id, g: Generation)
    requires Balanced(generations, total, limits) && id in generations && Counted(g, limits)
    requires total + g.bytes - generations[id].bytes <= limits.total
    ensures total + g.bytes - generations[id].bytes >= 0
    ensures Balanced(generations[id := g], total + g.bytes - generations[id].bytes, limits)
  {
    hide Counted, Sum;
    SumWith(GenerationBytes(generations), id, g.bytes);
    SumWithout(GenerationBytes(generations), id);
    assert GenerationBytes(generations[id := g]) == GenerationBytes(generations)[id := g.bytes];
  }

  lemma EmptyGenerationLeaves(generations: map<Id, Generation>, total: nat, limits: Limits, id: Id)
    requires Balanced(generations, total, limits) && id in generations && generations[id].Empty()
    ensures Balanced(generations - {id}, total, limits)
  {
    hide Sum;
    SumEmpty(PartialBytes(generations[id].partials));
    SumEmpty(SegmentBytes(generations[id].segments));
    SumWithout(GenerationBytes(generations), id);
    assert GenerationBytes(generations - {id}) == GenerationBytes(generations) - {id};
  }

  lemma GenerationEnters(generations: map<Id, Generation>, total: nat, limits: Limits, id: Id)
    requires Balanced(generations, total, limits) && id !in generations
    ensures Balanced(generations[id := Generation(0, false, map[], map[])], total, limits)
  {
    hide Counted, Sum;
    SumWith(GenerationBytes(generations), id, 0);
    assert GenerationBytes(generations[id := Generation(0, false, map[], map[])]) == GenerationBytes(generations)[id := 0];
    NewGenerationCounted(limits);
  }

  lemma NewGenerationCounted(limits: Limits)
    ensures Counted(Generation(0, false, map[], map[]), limits)
  {
    SumEmpty(PartialBytes(map[]));
    SumEmpty(SegmentBytes(map[]));
  }

  // ----- Handles

  lemma HandlesOnMore(handles: map<nat, Handle>, h: nat, handle: Handle, id: Id, s: nat)
    requires h !in handles
    ensures |HandlesOn(handles[h := handle], id, s)| == |HandlesOn(handles, id, s)| + if handle == Handle(id, s) then 1 else 0
  {
    if handle == Handle(id, s) {
      assert HandlesOn(handles[h := handle], id, s) == HandlesOn(handles, id, s) + {h};
    } else {
      assert HandlesOn(handles[h := handle], id, s) == HandlesOn(handles, id, s);
    }
  }

  lemma HandlesOnLess(handles: map<nat, Handle>, h: nat, id: Id, s: nat)
    requires h in handles
    ensures |HandlesOn(handles - {h}, id, s)| == |HandlesOn(handles, id, s)| - if handles[h] == Handle(id, s) then 1 else 0
  {
    if handles[h] == Handle(id, s) {
      assert HandlesOn(handles - {h}, id, s) == HandlesOn(handles, id, s) - {h};
    } else {
      assert HandlesOn(handles - {h}, id, s) == HandlesOn(handles, id, s);
    }
  }

  lemma NoHandle(handles: map<nat, Handle>, id: Id, s: nat)
    requires |HandlesOn(handles, id, s)| == 0
    ensures forall h | h in handles :: handles[h] != Handle(id, s)
  {
    assert HandlesOn(handles, id, s) == {};
    assert forall h :: h in HandlesOn(handles, id, s) <==> h in handles && handles[h] == Handle(id, s);
  }

  // ----- The cache

  class Cache {
    const limits: Limits
    var total: nat
    var generations: map<Id, Generation>
    var handles: map<nat, Handle>      // the open readers

    constructor (limits: Limits)
      requires limits.Valid()
      ensures Valid() && generations == map[] && handles == map[]
    {
      this.limits, total, generations, handles := limits, 0, map[], map[];
    }

    ghost predicate Valid()
      reads this
    {
      Balanced(generations, total, limits) && Protected(generations, handles)
    }

    predicate PartialIs(id: Id, sequence: nat, p: Partial)
      reads this
    {
      id in generations && sequence in generations[id].partials && generations[id].partials[sequence] == p
    }

    predicate SegmentIs(id: Id, sequence: nat, segment: Segment)
      reads this
    {
      id in generations && sequence in generations[id].segments && generations[id].segments[sequence] == segment
    }

    predicate HasSegment(id: Id, sequence: nat)
      reads this
    {
      id in generations && sequence in generations[id].segments
    }

    /** Every segment is as it was. */
    twostate predicate SegmentsKept()
      reads this
    {
      handles == old(handles) && forall id | id in old(generations) && old(generations)[id].segments != map[] ::
        id in generations && generations[id].segments == old(generations)[id].segments
    }

    /** `begin`. */
    method Begin(id: Id, created: bool) returns (ok: bool)
      requires Valid()
      modifies this`generations
      ensures Valid() && SegmentsKept() && (ok <==> id.slot <= 1 && id !in old(generations) && created)
      ensures generations == if ok then old(generations)[id := Generation(0, false, map[], map[])] else old(generations)
    {
      hide Balanced;
      if id.slot > 1 || id in generations || !created { return false; }
      GenerationEnters(generations, total, limits, id);
      generations := generations[id := Generation(0, false, map[], map[])];
      ok := true;
    }

    /** Replaces a generation whose segments and byte count stay within bounds. */
    method Put(id: Id, g: Generation)
      requires Valid() && id in generations && Counted(g, limits) && g.segments == generations[id].segments
      requires total + g.bytes - generations[id].bytes <= limits.total
      modifies this`generations, this`total
      ensures Valid() && generations == old(generations)[id := g] && SegmentsKept()
      ensures total == old(total) + g.bytes - old(generations)[id].bytes
    {
      hide Balanced, Counted, HandlesOn;
      GenerationChanges(generations, total, limits, id, g);
      total := total + g.bytes - generations[id].bytes;
      generations := generations[id := g];
    }

    /** `create`. */
    method Create(id: Id, sequence: nat, created: bool) returns (ok: bool)
      requires Valid()
      modifies this`generations, this`total
      ensures Valid() && total == old(total) && SegmentsKept()
      ensures ok <==>
        id in old(generations) && !old(generations)[id].closed && sequence !in old(generations)[id].partials &&
        sequence !in old(generations)[id].segments && created
      ensures if ok then PartialIs(id, sequence, Partial(0, 0)) else generations == old(generations)
    {
      if id !in generations { return false; }
      var g := generations[id];
      if g.closed || sequence in g.partials || sequence in g.segments || !created { return false; }
      PartialChanges(g, sequence, Partial(0, 0));
      Put(id, g.(partials := g.partials[sequence := Partial(0, 0)]));
      ok := true;
    }

    /** First half of `Write`: all three limits are checked and the bytes reserved at once. */
    method Reserve(id: Id, sequence: nat, added: nat) returns (ok: bool)
      requires Valid()
      requires id in generations && sequence in generations[id].partials ==> generations[id].partials[sequence].inFlight == 0
      modifies this`generations, this`total
      ensures Valid() && SegmentsKept() && total == old(total) + if ok then added else 0
      ensures ok <==>
        id in old(generations) && !old(generations)[id].closed && sequence in old(generations)[id].partials &&
        old(generations)[id].partials[sequence].bytes + added <= limits.segment &&
        old(generations)[id].bytes + added <= limits.session && old(total) + added <= limits.total
      ensures ok ==> PartialIs(id, sequence, old(generations)[id].partials[sequence].(inFlight := added))
    {
      if id !in generations { return false; }
      var g := generations[id];
      if g.closed || sequence !in g.partials { return false; }
      var p := g.partials[sequence];
      if !AddWithin(p.bytes, added, limits.segment) || !AddWithin(g.bytes, added, limits.session) ||
         !AddWithin(total, added, limits.total) { return false; }
      PartialChanges(g, sequence, p.(inFlight := added));
      Put(id, g.(bytes := g.bytes + added, partials := g.partials[sequence := p.(inFlight := added)]));
      ok := true;
    }

    lemma GenerationIsCounted(id: Id)
      requires Valid() && id in generations
      ensures Counted(generations[id], limits) && total <= limits.total
      ensures generations[id].partials.Keys !! generations[id].segments.Keys
    {
      hide Protected;
    }

    /** The file write between the two halves: part of the reservation is on disk now. */
    method Land(id: Id, sequence: nat, written: nat)
      requires Valid() && id in generations && sequence in generations[id].partials
      requires written <= generations[id].partials[sequence].inFlight
      modifies this`generations, this`total
      ensures Valid() && total == old(total) && SegmentsKept()
      ensures var p := old(generations)[id].partials[sequence];
        PartialIs(id, sequence, Partial(p.bytes + written, p.inFlight - written))
    {
      var g := generations[id];
      var p := g.partials[sequence];
      var landed := Partial(p.bytes + written, p.inFlight - written);
      GenerationIsCounted(id);
      LandedIsCounted(g, limits, sequence, landed);
      hide Balanced, Protected, Counted;
      Put(id, g.(partials := g.partials[sequence := landed]));
    }

    /** Second half of `Write`, after a short one: the rest of the reservation is given back. */
    method Release(id: Id, sequence: nat)
      requires Valid() && id in generations && sequence in generations[id].partials
      modifies this`generations, this`total
      ensures Valid() && SegmentsKept() && total == old(total) - old(generations)[id].partials[sequence].inFlight
      ensures PartialIs(id, sequence, old(generations)[id].partials[sequence].(inFlight := 0))
    {
      var g := generations[id];
      var p := g.partials[sequence];
      PartialChanges(g, sequence, p.(inFlight := 0));
      Put(id, g.(bytes := g.bytes - p.inFlight, partials := g.partials[sequence := p.(inFlight := 0)]));
    }

    /** `publish`: the whole partial file becomes a segment; a refused publication changes nothing here. */
    method Publish(id: Id, sequence: nat, published: bool) returns (ok: bool)
      requires Valid()
      requires id in generations && sequence in generations[id].partials ==> generations[id].partials[sequence].inFlight == 0
      modifies this`generations
      ensures Valid() && handles == old(handles)
      ensures ok <==>
        id in old(generations) && sequence in old(generations)[id].partials && !old(generations)[id].closed &&
        old(generations)[id].partials[sequence].bytes > 0 && published
      ensures !ok ==> generations == old(generations)
      ensures ok ==> id in generations && sequence !in generations[id].partials
      ensures ok ==> SegmentIs(id, sequence, Segment(old(generations)[id].partials[sequence].bytes, 0, false))
      ensures OthersKept(id, sequence)
    {
      hide Balanced, Protected, Counted, HandlesOn;
      if id !in generations { return false; }
      var g := generations[id];
      if sequence !in g.partials || g.closed || g.partials[sequence].bytes == 0 || !published { return false; }
      GenerationIsCounted(id);
      PartialIsNoSegment(g, sequence);
      var segment := Segment(g.partials[sequence].bytes, 0, false);
      PublishedIsCounted(g, limits, sequence);
      var next := g.(partials := g.partials - {sequence}, segments := g.segments[sequence := segment]);
      GenerationChanges(generations, total, limits, id, next);
      NoHandleYet(id, sequence);
      PublishProtects(generations, handles, id, sequence, next);
      generations := generations[id := next];
      ok := true;
    }

    lemma NoHandleYet(id: Id, sequence: nat)
      requires Protected(generations, handles) && (id in generations ==> sequence !in generations[id].segments)
      ensures |HandlesOn(handles, id, sequence)| == 0
    {
      assert HandlesOn(handles, id, sequence) == {};
    }

    /** `removeEmptyGenerationLocked`. */
    method RemoveEmptyGeneration(id: Id, removed: bool)
      requires Valid()
      modifies this`generations
      ensures Valid() && handles == old(handles)
      ensures generations ==
        if id in old(generations) && old(generations)[id].Empty() && removed then old(generations) - {id} else old(generations)
    {
      hide Counted, Sum, HandlesOn, Balanced, Protected;
      if id in generations && generations[id].closed && generations[id].partials == map[] && generations[id].segments == map[] && removed {
        EmptyGenerationLeaves(generations, total, limits, id);
        EmptyGenerationProtects(generations, handles, id);
        generations := generations - {id};
      }
    }

    /** `discard`: the reservation of a partial file comes back when the file is gone. */
    method Discard(id: Id, sequence: nat, removed: bool, emptied: bool) returns (ok: bool)
      requires Valid()
      requires id in generations && sequence in generations[id].partials ==> generations[id].partials[sequence].inFlight == 0
      modifies this`generations, this`total
      ensures Valid() && SegmentsKept()
      ensures ok <==> id in old(generations) && sequence in old(generations)[id].partials && removed
      ensures total == old(total) - if ok then old(generations)[id].partials[sequence].bytes else 0
      ensures ok ==> id in generations ==> sequence !in generations[id].partials
    {
      if id !in generations || sequence !in generations[id].partials || !removed { return false; }
      var g := generations[id];
      PartialLeaves(g, sequence);
      Put(id, g.(bytes := g.bytes - g.partials[sequence].bytes, partials := g.partials - {sequence}));
      RemoveEmptyGeneration(id, emptied);
      ok := true;
    }

    /** The first critical section of `stop`: no new segments. */
    method Close(id: Id)
      requires Valid() && id in generations
      modifies this`generations, this`total
      ensures Valid() && total == old(total) && SegmentsKept() && id in generations && generations[id].closed
    {
      Put(id, generations[id].(closed := true));
    }

    // ----- Readers and retirement

    /** Every other segment is as it was. */
    twostate predicate OthersKept(id: Id, sequence: nat)
      reads this
    {
      forall i, s | (i != id || s != sequence) && old(HasSegment(i, s)) :: SegmentIs(i, s, old(generations)[i].segments[s])
    }

    /** Changes a segment's readers or its retirement, together with the open handles. */
    method SetSegment(id: Id, sequence: nat, segment: Segment, ghost now: map<nat, Handle>)
      requires Balanced(generations, total, limits) && HasSegment(id, sequence)
      requires segment.size == generations[id].segments[sequence].size
      requires Protected(generations[id := generations[id].(segments := generations[id].segments[sequence := segment])], now)
      modifies this`generations
      ensures Balanced(generations, total, limits) && Protected(generations, now) && SegmentIs(id, sequence, segment)
      ensures OthersKept(id, sequence)
    {
      hide Counted, Sum;
      var g := generations[id];
      var next := g.(segments := g.segments[sequence := segment]);
      ResegmentedIsCounted(g, limits, sequence, segment);
      GenerationChanges(generations, total, limits, id, next);
      generations := generations[id := next];
    }

    /** `open`: a reader of a segment that has not been retired. */
    method Open(id: Id, sequence: nat, handle: nat, same: bool) returns (ok: bool)
      requires Valid() && handle !in handles
      modifies this`generations, this`handles
      ensures Valid() && total == old(total) && OthersKept(id, sequence)
      ensures ok <==> old(HasSegment(id, sequence)) && !old(generations)[id].segments[sequence].retired && same
      ensures handles == if ok then old(handles)[handle := Handle(id, sequence)] else old(handles)
      ensures ok ==> SegmentIs(id, sequence, WithReaders(old(generations)[id].segments[sequence], 1))
      ensures !ok ==> generations == old(generations)
    {
      hide Counted, Sum, HandlesOn;
      if id !in generations || sequence !in generations[id].segments { return false; }
      var segment := generations[id].segments[sequence];
      if segment.retired || !same { return false; }
      ghost var now := handles[handle := Handle(id, sequence)];
      OpenProtects(generations, handles, handle, id, sequence);
      SetSegment(id, sequence, WithReaders(segment, 1), now);
      handles := handles[handle := Handle(id, sequence)];
      ok := true;
    }

    /** `removeSegmentLocked`: only without readers. */
    method RemoveSegment(id: Id, sequence: nat, removed: bool, emptied: bool) returns (ok: bool)
      requires Valid() && HasSegment(id, sequence) && generations[id].segments[sequence].readers == 0
      modifies this`generations, this`total
      ensures Valid() && handles == old(handles) && OthersKept(id, sequence)
      ensures ok <==> removed
      ensures ok ==> !HasSegment(id, sequence) && total == old(total) - old(generations)[id].segments[sequence].size
      ensures !ok ==> generations == old(generations) && total == old(total)
    {
      hide Counted, Sum, HandlesOn, Balanced, Protected;
      if !removed { return false; }
      TakeAway(id, sequence);
      RemoveEmptyGeneration(id, emptied);
      ok := true;
    }

    /** The entry goes, and its bytes with it. */
    method TakeAway(id: Id, sequence: nat)
      requires Valid() && HasSegment(id, sequence) && generations[id].segments[sequence].readers == 0
      modifies this`generations, this`total
      ensures Valid() && OthersKept(id, sequence) && id in generations && sequence !in generations[id].segments
      ensures total == old(total) - old(generations)[id].segments[sequence].size
    {
      hide Counted, Sum;
      var g := generations[id];
      RemovedIsCounted(g, limits, sequence);
      var next := g.(bytes := g.bytes - g.segments[sequence].size, segments := g.segments - {sequence});
      NoHandle(handles, id, sequence);
      GenerationChanges(generations, total, limits, id, next);
      total := total - g.segments[sequence].size;
      generations := generations[id := next];
    }

    /** `retire`: takes the segment away now, or leaves it to its last reader. */
    method Retire(id: Id, sequence: nat, removed: bool, emptied: bool) returns (ok: bool)
      requires Valid()
      modifies this`generations, this`total
      ensures Valid() && handles == old(handles) && OthersKept(id, sequence)
      ensures !old(HasSegment(id, sequence)) ==> !ok && generations == old(generations)
      ensures old(HasSegment(id, sequence)) ==>
        var segment := old(generations)[id].segments[sequence];
        if segment.readers > 0 then ok && total == old(total) && SegmentIs(id, sequence, segment.(retired := true))
        else ok == removed && if removed then !HasSegment(id, sequence) else SegmentIs(id, sequence, segment.(retired := true))
    {
      hide Counted, Sum, HandlesOn;
      if id !in generations || sequence !in generations[id].segments { return false; }
      var segment := generations[id].segments[sequence];
      RetireProtects(generations, handles, id, sequence);
      SetSegment(id, sequence, segment.(retired := true), handles);
      if segment.readers > 0 { return true; }
      ok := RemoveSegment(id, sequence, removed, emptied);
    }

    /** `Close` of a reader: the last one takes a retired segment away; any other leaves it alone. */
    method CloseReader(handle: nat, removed: bool, emptied: bool)
      requires Valid()
      modifies this`generations, this`total, this`handles
      ensures Valid() && handles == old(handles) - {handle}
      ensures handle !in old(handles) ==> generations == old(generations) && total == old(total)
      ensures handle in old(handles) ==>
        var (id, s) := (old(handles)[handle].id, old(handles)[handle].sequence);
        && OthersKept(id, s) && old(HasSegment(id, s)) && old(generations)[id].segments[s].readers > 0
        && var segment := old(generations)[id].segments[s];
           if segment.retired && segment.readers == 1 && removed then
             !HasSegment(id, s) && total == old(total) - segment.size
           else total == old(total) && SegmentIs(id, s, WithReaders(segment, -1))
    {
      hide Counted, Sum, HandlesOn;
      if handle !in handles {
        assert handles - {handle} == handles;
        return;
      }
      var (id, sequence) := (handles[handle].id, handles[handle].sequence);
      var segment := generations[id].segments[sequence];
      CloseProtects(generations, handles, handle);
      SetSegment(id, sequence, WithReaders(segment, -1), handles - {handle});
      handles := handles - {handle};
      if segment.retired && segment.readers - 1 == 0 {
        var ok := RemoveSegment(id, sequence, removed, emptied);
      }
    }
  }

  lemma PublishedIsCounted(g: Generation, limits: Limits, sequence: nat)
    requires Counted(g, limits) && sequence in g.partials && g.partials[sequence].inFlight == 0 && g.partials[sequence].bytes > 0
    ensures var segment := Segment(g.partials[sequence].bytes, 0, false);
      Counted(g.(partials := g.partials - {sequence}, segments := g.segments[sequence := segment]), limits)
  {
    hide Sum;
    PartialLeaves(g, sequence);
    SegmentEnters(g, sequence, Segment(g.partials[sequence].bytes, 0, false));
  }

  lemma EmptyGenerationProtects(generations: map<Id, Generation>, handles: map<nat, Handle>, id: Id)
    requires Protected(generations, handles) && id in generations && generations[id].segments == map[]
    ensures Protected(generations - {id}, handles)
  {
    hide HandlesOn;
  }

  function WithReaders(s: Segment, change: int): Segment { if s.readers + change < 0 then s else s.(readers := s.readers + change) }

  lemma ResegmentedIsCounted(g: Generation, limits: Limits, sequence: nat, segment: Segment)
    requires Counted(g, limits) && sequence in g.segments && segment.size == g.segments[sequence].size
    ensures Counted(g.(segments := g.segments[sequence := segment]), limits)
  {
    hide Sum;
    SegmentEnters(g, sequence, segment);
  }

  lemma RemovedIsCounted(g: Generation, limits: Limits, sequence: nat)
    requires Counted(g, limits) && sequence in g.segments
    ensures g.bytes >= g.segments[sequence].size
    ensures Counted(g.(bytes := g.bytes - g.segments[sequence].size, segments := g.segments - {sequence}), limits)
  {
    hide Sum;
    SegmentLeaves(g, sequence);
  }

  function Resegmented(generations: map<Id, Generation>, id: Id, sequence: nat, segment: Segment): map<Id, Generation>
    requires id in generations
  {
    generations[id := generations[id].(segments := generations[id].segments[sequence := segment])]
  }

  lemma OpenProtects(generations: map<Id, Generation>, handles: map<nat, Handle>, handle: nat, id: Id, sequence: nat)
    requires Protected(generations, handles) && handle !in handles
    requires id in generations && sequence in generations[id].segments
    ensures Protected(Resegmented(generations, id, sequence, WithReaders(generations[id].segments[sequence], 1)),
                      handles[handle := Handle(id, sequence)])
  {
    hide HandlesOn;
    var next := Resegmented(generations, id, sequence, WithReaders(generations[id].segments[sequence], 1));
    forall i, s | i in next && s in next[i].segments
      ensures next[i].segments[s].readers == |HandlesOn(handles[handle := Handle(id, sequence)], i, s)|
    {
      HandlesOnMore(handles, handle, Handle(id, sequence), i, s);
    }
  }

  lemma PartialIsNoSegment(g: Generation, sequence: nat)
    requires sequence in g.partials && g.partials.Keys !! g.segments.Keys
    ensures sequence !in g.segments
  {
  }

  lemma PublishProtects(generations: map<Id, Generation>, handles: map<nat, Handle>, id: Id, sequence: nat, next: Generation)
    requires Protected(generations, handles) && id in generations && sequence !in generations[id].segments
    requires |HandlesOn(handles, id, sequence)| == 0 && sequence in next.segments && next.segments[sequence].readers == 0
    requires next.segments == generations[id].segments[sequence := next.segments[sequence]]
    ensures Protected(generations[id := next], handles)
  {
    hide HandlesOn;
  }

  lemma RetireProtects(generations: map<Id, Generation>, handles: map<nat, Handle>, id: Id, sequence: nat)
    requires Protected(generations, handles) && id in generations && sequence in generations[id].segments
    ensures Protected(Resegmented(generations, id, sequence, generations[id].segments[sequence].(retired := true)), handles)
  {
    hide HandlesOn;
  }

  lemma CloseProtects(generations: map<Id, Generation>, handles: map<nat, Handle>, handle: nat)
    requires Protected(generations, handles) && handle in handles
    ensures var (id, sequence) := (handles[handle].id, handles[handle].sequence);
      && generations[id].segments[sequence].readers > 0
      && Protected(Resegmented(generations, id, sequence, WithReaders(generations[id].segments[sequence], -1)),
                   handles - {handle})
  {
    var (id, sequence) := (handles[handle].id, handles[handle].sequence);
    assert handle in HandlesOn(handles, id, sequence);
    var next := Resegmented(generations, id, sequence, WithReaders(generations[id].segments[sequence], -1));
    forall i, s | i in next && s in next[i].segments
      ensures next[i].segments[s].readers == |HandlesOn(handles - {handle}, i, s)|
    {
      HandlesOnLess(handles, handle, i, s);
    }
  }
}
