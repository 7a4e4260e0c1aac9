/** The sliding media playlist of a live stream (RFC 8216 section 6.2.2): which segments it lists, how its
    sequence numbers move, and how long a segment has to stay available after it has left. */
module LivePlaylist {
  import opened Basics

  const MAX_UINT64 := 0xffff_ffff_ffff_ffff
  const TARGET_DURATION := 2_000_000_000        // nanoseconds
  const DEFAULT_MAXIMUM := 60_000_000_000
  const DEFAULT_MINIMUM := 6_000_000_000

  datatype Segment = Segment(sequence: nat, duration: nat, discontinuity: bool, longest: nat)
  datatype Retention = Retention(sequence: nat, retainFor: nat)

  function Total(segments: seq<Segment>): nat {
    if segments == [] then 0 else segments[0].duration + Total(segments[1..])
  }

  function Discontinuities(segments: seq<Segment>): nat {
    if segments == [] then 0 else (if segments[0].discontinuity then 1 else 0) + Discontinuities(segments[1..])
  }

  // ----- What clients have been shown

  /** One published state of the playlist: the sequence numbers from `first` up to but without `end`. */
  datatype Shown = Shown(first: nat, end: nat, total: nat)

  /** The longest published playlist that listed a segment. */
  function Longest(shown: seq<Shown>, sequence: nat): nat {
    if shown == [] then 0
    else
      var last := shown[|shown| - 1];
      var before := Longest(shown[..|shown| - 1], sequence);
      if last.first <= sequence < last.end && last.total > before then last.total else before
  }

  lemma LongestGrows(shown: seq<Shown>, next: Shown, sequence: nat)
    ensures Longest(shown + [next], sequence) ==
      if next.first <= sequence < next.end && next.total > Longest(shown, sequence) then next.total
      else Longest(shown, sequence)
  {
    assert (shown + [next])[..|shown|] == shown;
  }

  lemma {:induction false} TotalJoins(a: seq<Segment>, b: seq<Segment>)
    ensures Total(a + b) == Total(a) + Total(b) && Discontinuities(a + b) == Discontinuities(a) + Discontinuities(b)
    decreases |a|
  {
    if a == [] {
      assert a + b == b;
    } else {
      assert (a + b)[0] == a[0] && (a + b)[1..] == a[1..] + b;
      TotalJoins(a[1..], b);
    }
  }

  // ----- The window

  /** Whether the oldest segment of the window has to leave. */
  predicate OldestLeaves(segments: seq<Segment>, maximum: nat, minimum: nat) {
    |segments| > 1 && Total(segments) > maximum && Total(segments) - segments[0].duration >= minimum
  }

  /** How many segments leave a window. */
  function Leaving(segments: seq<Segment>, maximum: nat, minimum: nat): (n: nat)
    ensures n <= |segments| && (segments != [] ==> n < |segments|)
  {
    if OldestLeaves(segments, maximum, minimum) then 1 + Leaving(segments[1..], maximum, minimum) else 0
  }

  ghost predicate Short(segments: seq<Segment>) { forall i | 0 <= i < |segments| :: segments[i].duration <= TARGET_DURATION }

  lemma {:induction false} WindowAfterLeaving(segments: seq<Segment>, maximum: nat, minimum: nat)
    requires segments != []
    ensures var rest := segments[Leaving(segments, maximum, minimum)..];
      && !OldestLeaves(rest, maximum, minimum)
      && (Short(segments) && minimum + TARGET_DURATION <= maximum ==> Total(rest) <= maximum)
    decreases |segments|
  {
    if OldestLeaves(segments, maximum, minimum) {
      WindowAfterLeaving(segments[1..], maximum, minimum);
      assert segments[1..][Leaving(segments[1..], maximum, minimum)..] == segments[Leaving(segments, maximum, minimum)..];
    } else if |segments| == 1 {
      assert segments[1..] == [] && segments[0..] == segments;
    } else {
      assert segments[0..] == segments;
    }
  }

  function Noted(segments: seq<Segment>, total: nat): seq<Segment> {
    seq(|segments|, i requires 0 <= i < |segments| =>
      if total > segments[i].longest then segments[i].(longest := total) else segments[i])
  }

  lemma {:induction false} NotedTotal(segments: seq<Segment>, total: nat)
    ensures Total(Noted(segments, total)) == Total(segments)
    decreases |segments|
  {
    if segments != [] {
      NotedTotal(segments[1..], total);
      assert Noted(segments, total)[1..] == Noted(segments[1..], total);
    }
  }

  /** Each segment knows the longest published playlist that listed it. */
  ghost predicate Remembered(left: seq<Segment>, segments: seq<Segment>, shown: seq<Shown>) {
    && (forall i | 0 <= i < |segments| :: segments[i].longest == Longest(shown, |left| + i))
    && (forall i | 0 <= i < |left| :: left[i].longest == Longest(shown, i))
    && (forall i | 0 <= i < |shown| :: shown[i].end <= |left| + |segments|)
    && (forall i | 0 <= i < |segments| :: segments[i].longest >= Total(segments))
  }

  /** The window does not fall below its minimum again, and is no longer than it may be. */
  ghost predicate Windowed(left: seq<Segment>, segments: seq<Segment>, maximum: nat, minimum: nat) {
    && (forall i | 0 <= i < |segments| :: 0 < segments[i].duration <= TARGET_DURATION)
    && (left != [] ==> Total(segments) >= minimum)
    && !OldestLeaves(segments, maximum, minimum)
    && (minimum + TARGET_DURATION <= maximum ==> Total(segments) <= maximum)
  }

  /** The default window never holds more than a minute, and at least six seconds once it has. */
  lemma DefaultWindow(left: seq<Segment>, segments: seq<Segment>)
    requires Windowed(left, segments, DEFAULT_MAXIMUM, DEFAULT_MINIMUM)
    ensures Total(segments) <= DEFAULT_MAXIMUM
    ensures Total(left + segments) >= DEFAULT_MINIMUM ==> Total(segments) >= DEFAULT_MINIMUM
  {
    if left == [] { assert left + segments == segments; }
  }

  lemma {:induction false} NeverShown(shown: seq<Shown>, sequence: nat)
    requires forall i | 0 <= i < |shown| :: shown[i].end <= sequence
    ensures Longest(shown, sequence) == 0
  {
    if shown != [] { NeverShown(shown[..|shown| - 1], sequence); }
  }

  ghost predicate RememberedFrom(segments: seq<Segment>, base: nat, shown: seq<Shown>) {
    forall i | 0 <= i < |segments| :: segments[i].longest == Longest(shown, base + i)
  }

  lemma EnteringRemembered(left: seq<Segment>, segments: seq<Segment>, shown: seq<Shown>, entering: Segment)
    requires Remembered(left, segments, shown) && entering.longest == 0
    ensures RememberedFrom(segments + [entering], |left|, shown)
  {
    NeverShown(shown, |left| + |segments|);
  }

  lemma ListedRemembered(rest: seq<Segment>, base: nat, shown: seq<Shown>, total: nat)
    requires RememberedFrom(rest, base, shown)
    ensures RememberedFrom(Noted(rest, total), base, shown + [Shown(base, base + |rest|, total)])
  {
    forall i | 0 <= i < |rest|
      ensures Noted(rest, total)[i].longest == Longest(shown + [Shown(base, base + |rest|, total)], base + i)
    {
      LongestGrows(shown, Shown(base, base + |rest|, total), base + i);
    }
  }

  lemma GoneRemembered(gone: seq<Segment>, shown: seq<Shown>, next: Shown)
    requires RememberedFrom(gone, 0, shown) && next.first >= |gone|
    ensures RememberedFrom(gone, 0, shown + [next])
  {
    forall i | 0 <= i < |gone| ensures gone[i].longest == Longest(shown + [next], 0 + i) { LongestGrows(shown, next, i); }
  }

  /** Remembering across one append: the new segment has been in no playlist yet, the ones that leave are
      not in the next, and the others note it. */
  lemma StillRemembered(left: seq<Segment>, segments: seq<Segment>, shown: seq<Shown>, entering: Segment, n: nat)
    requires Remembered(left, segments, shown) && entering.longest == 0 && n < |segments| + 1
    ensures var was := segments + [entering];
      var rest := Noted(was[n..], Total(was[n..])); var gone := left + was[..n];
      Remembered(gone, rest, shown + [Shown(|gone|, |gone| + |rest|, Total(was[n..]))])
  {
    hide Longest, Total, Noted;
    var was := segments + [entering];
    var total := Total(was[n..]);
    var rest, gone := Noted(was[n..], total), left + was[..n];
    NotedTotal(was[n..], total);
    NotedLongest(was[n..], total);
    EnteringRemembered(left, segments, shown, entering);
    assert RememberedFrom(was[n..], |gone|, shown) by {
      forall i | 0 <= i < |was[n..]| ensures was[n..][i].longest == Longest(shown, |gone| + i) {
        assert was[n..][i] == was[n + i];
      }
    }
    assert RememberedFrom(gone, 0, shown) by {
      forall i | 0 <= i < |gone| ensures gone[i].longest == Longest(shown, 0 + i) {
        assert gone[i] == if i < |left| then left[i] else was[i - |left|];
      }
    }
    ListedRemembered(was[n..], |gone|, shown, total);
    GoneRemembered(gone, shown, Shown(|gone|, |gone| + |rest|, total));
  }

  lemma NotedLongest(segments: seq<Segment>, total: nat)
    ensures |Noted(segments, total)| == |segments|
    ensures forall i | 0 <= i < |segments| :: Noted(segments, total)[i].longest >= total && Same(Noted(segments, total)[i], segments[i])
  {
  }

  lemma StillWindowed(left: seq<Segment>, segments: seq<Segment>, maximum: nat, minimum: nat, entering: Segment)
    requires Windowed(left, segments, maximum, minimum) && 0 < entering.duration <= TARGET_DURATION
    ensures var was := segments + [entering]; var n := Leaving(was, maximum, minimum);
      Windowed(left + was[..n], Noted(was[n..], Total(was[n..])), maximum, minimum)
  {
    var was := segments + [entering];
    var n := Leaving(was, maximum, minimum);
    var rest := was[n..];
    var noted := Noted(rest, Total(rest));
    WindowAfterLeaving(was, maximum, minimum);
    NotedTotal(rest, Total(rest));
    TotalJoins(segments, [entering]);
    if n > 0 { LeavingKeepsMinimum(was, maximum, minimum); } else { assert rest == was && left + was[..0] == left; }
    forall i | 0 <= i < |noted| ensures 0 < noted[i].duration <= TARGET_DURATION { assert noted[i].duration == was[n + i].duration; }
  }

  lemma {:induction false} LeavingKeepsMinimum(segments: seq<Segment>, maximum: nat, minimum: nat)
    requires segments != [] && Leaving(segments, maximum, minimum) > 0
    ensures Total(segments[Leaving(segments, maximum, minimum)..]) >= minimum
    decreases |segments|
  {
    var n := Leaving(segments, maximum, minimum);
    assert segments[1..][n - 1..] == segments[n..];
    if n > 1 { LeavingKeepsMinimum(segments[1..], maximum, minimum); } else { assert segments[1..][0..] == segments[1..]; }
  }

  // ----- The playlist

  class MediaPlaylist {
    var segments: seq<Segment>
    var next: nat
    var exhausted: bool
    var discontinuitySequence: nat
    var terminal: bool
    const maximum: nat
    const minimum: nat

    ghost var all: seq<Segment>    // every segment as it entered
    ghost var left: seq<Segment>   // every segment that has left, oldest first
    ghost var shown: seq<Shown>    // every published state

    constructor (maximum: nat, minimum: nat)
      requires 0 < minimum <= maximum
      ensures Valid() && all == [] && segments == [] && left == [] && shown == [] && !terminal && next == 0
      ensures this.maximum == maximum && this.minimum == minimum
    {
      segments, next, exhausted, discontinuitySequence, terminal := [], 0, false, 0, false;
      this.maximum, this.minimum, all, left, shown := maximum, minimum, [], [], [];
    }

    /** What section 6.2.2 asks of the numbers: segments are numbered without gaps, the media sequence
        counts the segments that have left, the discontinuity sequence counts their discontinuities. */
    ghost predicate Numbered()
      reads this
    {
      && (forall i | 0 <= i < |left| :: left[i].sequence == i)
      && (forall i | 0 <= i < |segments| :: segments[i].sequence == |left| + i)
      && discontinuitySequence == Discontinuities(left)
      && |all| == |left| + |segments|
      && (forall i | 0 <= i < |left| :: Same(left[i], all[i]))
      && (forall i | 0 <= i < |segments| :: Same(segments[i], all[|left| + i]))
      && (forall i | 0 <= i < |all| :: 0 < all[i].duration <= TARGET_DURATION)
      && |all| == (if exhausted then MAX_UINT64 + 1 else next) && next <= MAX_UINT64
    }

    ghost predicate Valid()
      reads this
    {
      && 0 < minimum <= maximum && Numbered() && Remembered(left, segments, shown)
      && Windowed(left, segments, maximum, minimum)
    }

    /** `nextSequence`. */
    method NextSequence() returns (sequence: Option<nat>)
      requires Valid()
      ensures sequence == if terminal || exhausted then None else Some(next)
    {
      sequence := if terminal || exhausted then None else Some(next);
    }

    /** A new segment enters behind the others. */
    method Enter(s: Segment)
      requires Numbered() && !exhausted && s.sequence == next && 0 < s.duration <= TARGET_DURATION
      modifies this`segments, this`next, this`exhausted, this`all
      ensures Numbered() && segments == old(segments) + [s] && all == old(all) + [s]
    {
      segments, all := segments + [s], all + [s];
      if next == MAX_UINT64 { exhausted := true; } else { next := next + 1; }
    }

    /** The oldest segment leaves. */
    method DropOldest() returns (retention: Retention)
      requires Numbered() && |segments| > 1 && |left| + |segments| <= MAX_UINT64 + 1
      modifies this`segments, this`discontinuitySequence, this`left
      ensures Numbered() && segments == old(segments)[1..] && left == old(left) + [old(segments)[0]]
      ensures retention == RetentionOf(old(segments)[0])
    {
      var oldest := segments[0];
      DiscontinuitiesBounded(left);
      if oldest.discontinuity {
        if discontinuitySequence == MAX_UINT64 { assert false; }
        discontinuitySequence := discontinuitySequence + 1;
      }
      TotalJoins(left, [oldest]);
      OneDiscontinuity(oldest);
      left := left + [oldest];
      segments := segments[1..];
      retention := Retention(oldest.sequence, oldest.duration + oldest.longest);
    }

    /** The loop of `append`: the oldest segments leave, and each is to be kept for its own duration and
        that of the longest playlist that listed it. */
    method Slide() returns (retired: seq<Retention>)
      requires Numbered() && segments != [] && |left| + |segments| <= MAX_UINT64 + 1
      modifies this`segments, this`discontinuitySequence, this`left
      ensures Numbered() && segments == old(segments)[Leaving(old(segments), maximum, minimum)..]
      ensures left == old(left) + old(segments)[..Leaving(old(segments), maximum, minimum)]
      ensures retired == Retentions(old(segments)[..Leaving(old(segments), maximum, minimum)])
    {
      hide Numbered;
      ghost var was, n := segments, 0;
      retired := [];
      var total := Total(segments);
      assert was[0..] == was && left + was[..0] == left;
      while total > maximum && |segments| > 1 && total - segments[0].duration >= minimum
        invariant n < |was| && segments == was[n..] && left == old(left) + was[..n]
        invariant total == Total(segments) && retired == Retentions(was[..n])
        invariant n + Leaving(segments, maximum, minimum) == Leaving(was, maximum, minimum)
        invariant Numbered() && |left| + |segments| <= MAX_UINT64 + 1
        decreases |segments|
      {
        total := total - segments[0].duration;
        var retention := DropOldest();
        assert was[..n + 1] == was[..n] + [was[n]];
        retired, n := retired + [retention], n + 1;
      }
    }

    /** Every listed segment notes how long the new playlist is. */
    method NoteTotal()
      requires Numbered()
      modifies this`segments, this`shown
      ensures Numbered() && segments == Noted(old(segments), Total(old(segments))) && |segments| == |old(segments)|
      ensures Total(segments) == Total(old(segments))
      ensures shown == old(shown) + [Shown(|left|, |left| + |segments|, Total(segments))]
    {
      hide Total, Noted;
      var total := Total(segments);
      NotedLongest(segments, total);
      NotedTotal(segments, total);
      segments := Noted(segments, total);
      shown := shown + [Shown(|left|, |left| + |segments|, total)];
    }

    /** `append`: a completed segment enters, old ones leave, and every listed segment notes the new length. */
    method Append(sequence: nat, duration: int, discontinuity: bool) returns (r: Option<seq<Retention>>)
      requires Valid()
      modifies this
      ensures Valid() && terminal == old(terminal)
      ensures r.Some? <==> !old(terminal) && !old(exhausted) && sequence == old(next) && 0 < duration <= TARGET_DURATION
      ensures r.None? ==>
        segments == old(segments) && left == old(left) && shown == old(shown) && all == old(all) && next == old(next)
      ensures r.Some? ==>
        && all == old(all) + [Segment(sequence, duration, discontinuity, 0)]
        && |left| < |all| && old(left) <= left && r.value == Retentions(left[|old(left)|..])
        && shown == old(shown) + [Shown(|left|, |all|, Total(segments))]
    {
      hide Remembered, Windowed, Total, Noted, Leaving;
      if terminal || exhausted || sequence != next || duration <= 0 || duration > TARGET_DURATION { return None; }
      var entering := Segment(sequence, duration, discontinuity, 0);
      ghost var n := Leaving(segments + [entering], maximum, minimum);
      StillRemembered(left, segments, shown, entering, n);
      StillWindowed(left, segments, maximum, minimum, entering);
      Enter(entering);
      ghost var was := segments;
      var retired := Slide();
      assert left[|old(left)|..] == was[..n];
      NoteTotal();
      r := Some(retired);
    }

    /** `finish`: what is still listed stays for the longest playlist that listed it. */
    method Finish() returns (retained: seq<Retention>)
      requires Valid()
      modifies this`terminal
      ensures Valid() && terminal
      ensures retained == LastRetentions(segments)
    {
      terminal := true;
      retained := LastRetentions(segments);
    }
  }

  /** The same segment, whatever has been noted about it. */
  predicate Same(a: Segment, b: Segment) {
    a.sequence == b.sequence && a.duration == b.duration && a.discontinuity == b.discontinuity
  }

  function RetentionOf(s: Segment): Retention { Retention(s.sequence, s.duration + s.longest) }

  function LastRetentions(segments: seq<Segment>): seq<Retention> {
    seq(|segments|, i requires 0 <= i < |segments| => Retention(segments[i].sequence, segments[i].longest))
  }

  function Retentions(segments: seq<Segment>): seq<Retention> {
    seq(|segments|, i requires 0 <= i < |segments| => RetentionOf(segments[i]))
  }

  lemma OneDiscontinuity(s: Segment)
    ensures Discontinuities([s]) == if s.discontinuity then 1 else 0
  {
    assert [s][1..] == [];
  }

  lemma {:induction false} DiscontinuitiesBounded(segments: seq<Segment>)
    ensures Discontinuities(segments) <= |segments|
  {
    if segments != [] { DiscontinuitiesBounded(segments[1..]); }
  }
}
