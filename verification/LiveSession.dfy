/** When a live segment may be taken away. Timers run late, in any order, and after they were stopped; only
    the version of a segment's newest deadline can retire it. */
module LiveSession {
  import opened Basics
  import opened LivePlaylist

  const NO_DEADLINE := -1

  datatype Retained = Retained(deadline: int, version: nat)

  /** A callback that was registered and may still run, at its due time or any time later. */
  datatype Timer = Timer(sequence: nat, version: nat, due: int)

  /** What clients have been told: the segments, the playlists that were published, when segments left the
      window, and when the playlist got its end. */
  datatype Told = Told(all: seq<Segment>, shown: seq<Shown>, leftAt: map<nat, nat>, finishedAt: Option<nat>)
  {
    /** What section 6.2.2 asks: a segment that leaves the window stays for its own duration and that of the
        longest playlist that listed it; one still listed at the end stays for that longest playlist. Before
        either, it may not go at all. */
    ghost predicate MayGo(sequence: nat, time: int) {
      sequence < |all| &&
      if sequence in leftAt then time >= leftAt[sequence] + all[sequence].duration + Longest(shown, sequence)
      else finishedAt.Some? && time >= finishedAt.value + Longest(shown, sequence)
    }

    /** Every segment is still there or was taken away at a time it might go. */
    ghost predicate NoneGoneEarly(retained: map<nat, Retained>, retiredAt: map<nat, nat>) {
      forall s | 0 <= s < |all| :: s in retained || (s in retiredAt && MayGo(s, retiredAt[s]))
    }

    ghost predicate DeadlinesHold(retained: map<nat, Retained>) {
      forall s | s in retained :: s < |all| && (retained[s].version > 0 ==> MayGo(s, retained[s].deadline))
    }
  }

  lemma GoesInTime(told: Told, sequence: nat, deadline: int, time: int)
    requires told.MayGo(sequence, deadline) && deadline <= time
    ensures told.MayGo(sequence, time)
  {
  }

  /** A further playlist without a segment changes nothing about when it may go. */
  ghost predicate Continues(told: Told, next: Told) {
    && told.all <= next.all && next.finishedAt == told.finishedAt
    && (next.shown == told.shown || (next.shown != [] && next.shown[..|next.shown| - 1] == told.shown))
    && (forall s | s in told.leftAt :: s in next.leftAt && next.leftAt[s] == told.leftAt[s])
    && (forall s | s in told.leftAt && next.shown != told.shown :: s < next.shown[|next.shown| - 1].first)
  }

  lemma StillMayGo(told: Told, next: Told, sequence: nat, time: int)
    requires Continues(told, next) && sequence in told.leftAt && told.MayGo(sequence, time)
    ensures next.MayGo(sequence, time)
  {
    assert next.all[sequence] == told.all[sequence];
  }

  /** What one append means for everything that has a deadline already. */
  lemma EmitKeeps(told: Told, next: Told, kept: map<nat, Retained>, retiredAt: map<nat, nat>, sequence: nat)
    requires Continues(told, next) && |next.all| == |told.all| + 1 && sequence == |told.all|
    requires told.NoneGoneEarly(kept, retiredAt) && told.DeadlinesHold(kept)
    requires forall s | s in kept && s !in told.leftAt :: kept[s].version == 0
    requires forall s | 0 <= s < |told.all| && s !in told.leftAt :: s in kept
    ensures var retained := kept[sequence := Retained(NO_DEADLINE, 0)];
      next.NoneGoneEarly(retained, retiredAt) && next.DeadlinesHold(retained)
  {
    hide Longest;
    var retained := kept[sequence := Retained(NO_DEADLINE, 0)];
    forall s | 0 <= s < |next.all| ensures s in retained || (s in retiredAt && next.MayGo(s, retiredAt[s])) {
      if s !in retained { StillMayGo(told, next, s, retiredAt[s]); }
    }
    forall s | s in retained ensures s < |next.all| && (retained[s].version > 0 ==> next.MayGo(s, retained[s].deadline)) {
      if retained[s].version > 0 { StillMayGo(told, next, s, retained[s].deadline); }
    }
  }

  /** What the end of the playlist means for them: nothing. */
  lemma FinishKeeps(told: Told, next: Told, kept: map<nat, Retained>, retiredAt: map<nat, nat>)
    requires told.finishedAt.None? && next == told.(finishedAt := next.finishedAt)
    requires told.NoneGoneEarly(kept, retiredAt) && told.DeadlinesHold(kept)
    ensures next.NoneGoneEarly(kept, retiredAt) && next.DeadlinesHold(kept)
  {
    hide Longest;
  }

  lemma DeadlinesAreListed(told: Told, kept: map<nat, Retained>)
    requires told.DeadlinesHold(kept)
    ensures forall s | s in kept :: s < |told.all|
  {
  }

  lemma NewEntryHasNoTimer(retained: map<nat, Retained>, timers: set<Timer>, sequence: nat)
    requires TimersHold(retained, timers) && forall t | t in timers :: t.sequence < sequence
    ensures TimersHold(retained[sequence := Retained(NO_DEADLINE, 0)], timers)
  {
  }

  /** Only the newest timer of a segment is due at its deadline or later. */
  ghost predicate TimersHold(retained: map<nat, Retained>, timers: set<Timer>) {
    && (forall s | s in retained && retained[s].version == 0 :: retained[s].deadline == NO_DEADLINE)
    && (forall t | t in timers && t.sequence in retained ::
        0 < t.version <= retained[t.sequence].version &&
        (t.version == retained[t.sequence].version ==> t.due >= retained[t.sequence].deadline))
  }

  /** The same or a later deadline. */
  predicate Extends(a: Retained, b: Retained) { b.version >= a.version && b.deadline >= a.deadline }

  /** What taking one segment away in time means for the others: nothing. */
  lemma RetiringKeeps(told: Told, kept: map<nat, Retained>, retiredAt: map<nat, nat>, timers: set<Timer>, timer: Timer,
                      gone: nat, time: nat)
    requires told.NoneGoneEarly(kept, retiredAt) && told.DeadlinesHold(kept) && TimersHold(kept, timers)
    requires told.MayGo(gone, time)
    ensures told.NoneGoneEarly(kept - {gone}, retiredAt[gone := time])
    ensures told.DeadlinesHold(kept - {gone}) && TimersHold(kept - {gone}, timers - {timer})
  {
    hide Told.MayGo;
  }

  class Session {
    const playlist: MediaPlaylist
    var retained: map<nat, Retained>
    var published: nat
    var terminal: bool
    var timers: set<Timer>
    var clock: nat
    var accepting: bool                  // the controller still takes new timers

    ghost var leftAt: map<nat, nat>
    ghost var finishedAt: Option<nat>
    ghost var retiredAt: map<nat, nat>   // when a segment was taken away

    constructor (maximum: nat, minimum: nat)
      requires 0 < minimum <= maximum
      ensures Valid() && fresh(playlist) && !terminal && published == 0
      ensures leftAt == map[] && finishedAt.None? && retiredAt == map[]
    {
      playlist := new MediaPlaylist(maximum, minimum);
      retained, published, terminal, timers, clock, accepting := map[], 0, false, {}, 0, true;
      leftAt, finishedAt, retiredAt := map[], None, map[];
    }

    ghost function View(): Told
      reads this`leftAt, this`finishedAt, playlist
    {
      Told(playlist.all, playlist.shown, leftAt, finishedAt)
    }

    ghost predicate Consistent()
      reads this`published, this`terminal, this`leftAt, this`finishedAt, this`retained, this`timers, this`clock, playlist
    {
      && playlist.Valid() && published == |playlist.all| && terminal == playlist.terminal == finishedAt.Some?
      && (forall s :: s in leftAt <==> 0 <= s < |playlist.left|)
      && (!terminal ==> forall s | |playlist.left| <= s < |playlist.all| :: s in retained)
      && (forall s | s in retained && (terminal || s in leftAt) :: retained[s].version > 0)
      && (forall t | t in timers :: t.sequence < |playlist.all|)
      && (finishedAt.Some? ==> finishedAt.value <= clock)
    }

    ghost predicate Valid()
      reads this, playlist
    {
      && Consistent() && View().NoneGoneEarly(retained, retiredAt) && View().DeadlinesHold(retained)
      && TimersHold(retained, timers)
    }

    // ----- Steps

    method Tick(elapsed: nat)
      requires Valid()
      modifies this`clock
      ensures Valid() && clock == old(clock) + elapsed
    {
      clock := clock + elapsed;
    }

    /** `scheduleRetentionLocked`: a later deadline replaces an earlier one, never the other way round. */
    method ScheduleRetention(sequence: nat, retainFor: nat)
      requires TimersHold(retained, timers)
      modifies this`retained, this`timers
      ensures TimersHold(retained, timers) && retained.Keys == old(retained).Keys
      ensures forall s | s in retained && s != sequence :: retained[s] == old(retained)[s]
      ensures sequence in retained ==>
        retained[sequence] == old(retained)[sequence] ||
        (retained[sequence].deadline == clock + retainFor > old(retained)[sequence].deadline &&
         retained[sequence].version == old(retained)[sequence].version + 1)
      ensures sequence in retained && retainFor > 0 ==>
        retained[sequence].version > 0 && retained[sequence].deadline >= clock + retainFor
      ensures forall t | t in timers :: t in old(timers) || t.sequence in retained
    {
      if sequence !in retained || retainFor == 0 { return; }
      var entry := retained[sequence];
      var deadline := clock + retainFor;
      if deadline <= entry.deadline { return; }
      var version := entry.version + 1;
      retained := retained[sequence := Retained(deadline, version)];
      if accepting { timers := timers + {Timer(sequence, version, deadline)}; }
    }

    /** `retireSegment`: runs when a timer fires, however late; `removed` says whether the cache let go. */
    method RetireSegment(timer: Timer, removed: bool) returns (empty: bool)
      requires Valid() && timer in timers && timer.due <= clock
      modifies this`retained, this`timers, this`retiredAt
      ensures Valid()
      ensures timer.sequence in old(retained) && timer.sequence !in retained ==> View().MayGo(timer.sequence, clock)
      ensures var gone := old(timer.sequence in retained && retained[timer.sequence].version == timer.version) && removed;
        && retained == (if gone then old(retained) - {timer.sequence} else old(retained))
        && retiredAt == (if gone then old(retiredAt)[timer.sequence := clock] else old(retiredAt))
      ensures empty ==> terminal && retained == map[]
    {
      hide Told.MayGo, playlist.Valid, Longest, Total, Told.NoneGoneEarly, Told.DeadlinesHold;
      var sequence := timer.sequence;
      StaleTimer(timer);
      timers := timers - {timer};
      if sequence !in retained || retained[sequence].version != timer.version || !removed { return false; }
      ListedDoNotGo(sequence, clock);
      RetiringKeeps(View(), retained, retiredAt, timers, timer, sequence, clock);
      hide TimersHold;
      retiredAt := retiredAt[sequence := clock];
      retained := retained - {sequence};
      empty := terminal && |retained| == 0;
    }

    /** A timer with the newest version is not due before its segment may go. */
    lemma StaleTimer(timer: Timer)
      requires Valid() && timer in timers && timer.due <= clock
      ensures TimersHold(retained, timers - {timer})
      ensures timer.sequence in retained && retained[timer.sequence].version == timer.version ==>
        View().MayGo(timer.sequence, clock)
    {
      hide Told.MayGo, Told.NoneGoneEarly, playlist.Valid;
      if timer.sequence in retained && retained[timer.sequence].version == timer.version {
        GoesInTime(View(), timer.sequence, retained[timer.sequence].deadline, clock);
      }
    }

    lemma ListedDoNotGo(sequence: nat, time: int)
      requires Consistent() && View().MayGo(sequence, time)
      ensures terminal || sequence < |playlist.left|
    {
    }

    method ScheduleOne(retention: Retention)
      requires TimersHold(retained, timers) && View().DeadlinesHold(retained) && retention.retainFor > 0
      requires retention.sequence in retained ==>
        View().MayGo(retention.sequence, clock + retention.retainFor) || retained[retention.sequence].version > 0
      modifies this`retained, this`timers
      ensures TimersHold(retained, timers) && View().DeadlinesHold(retained) && retained.Keys == old(retained).Keys
      ensures retention.sequence in retained ==>
        retained[retention.sequence].version > 0 && retained[retention.sequence].deadline >= clock + retention.retainFor
      ensures forall s | s in retained :: Extends(old(retained)[s], retained[s])
      ensures forall t | t in timers :: t in old(timers) || t.sequence in retained
    {
      hide Told.MayGo, TimersHold;
      ghost var was := retained;
      var sequence := retention.sequence;
      ScheduleRetention(sequence, retention.retainFor);
      if sequence in retained && was[sequence].version > 0 {
        GoesInTime(View(), sequence, was[sequence].deadline, retained[sequence].deadline);
      }
    }

    /** Deadlines for a list of segments, each no earlier than the segment may go, or than it could before. */
    method ScheduleAll(retentions: seq<Retention>)
      requires TimersHold(retained, timers) && View().DeadlinesHold(retained)
      requires forall r | r in retentions :: r.retainFor > 0
      requires forall r | r in retentions && r.sequence in retained ::
        View().MayGo(r.sequence, clock + r.retainFor) || retained[r.sequence].version > 0
      modifies this`retained, this`timers
      ensures TimersHold(retained, timers) && View().DeadlinesHold(retained) && retained.Keys == old(retained).Keys
      ensures forall r | r in retentions && r.sequence in retained ::
        retained[r.sequence].version > 0 && retained[r.sequence].deadline >= clock + r.retainFor
      ensures forall s | s in retained :: Extends(old(retained)[s], retained[s])
      ensures forall t | t in timers :: t in old(timers) || t.sequence in retained
    {
      hide Told.MayGo, Told.DeadlinesHold, TimersHold;
      for i := 0 to |retentions|
        invariant TimersHold(retained, timers) && View().DeadlinesHold(retained) && retained.Keys == old(retained).Keys
        invariant forall s | s in retained :: Extends(old(retained)[s], retained[s])
        invariant forall t | t in timers :: t in old(timers) || t.sequence in retained
        invariant forall j | 0 <= j < i && retentions[j].sequence in retained ::
          retained[retentions[j].sequence].version > 0 &&
          retained[retentions[j].sequence].deadline >= clock + retentions[j].retainFor
      {
        assert retentions[i] in retentions;
        ScheduleOne(retentions[i]);
      }
    }

    /** A segment that leaves now may go when the playlist says. */
    lemma LeavesInTime(base: nat, r: Retention)
      requires playlist.Valid() && base <= |playlist.left|
      requires forall s | base <= s < |playlist.left| :: s in leftAt && leftAt[s] == clock
      requires r in Retentions(playlist.left[base..])
      ensures r.retainFor > 0 && base <= r.sequence < |playlist.left| && View().MayGo(r.sequence, clock + r.retainFor)
    {
      var i :| 0 <= i < |playlist.left[base..]| && r == RetentionOf(playlist.left[base..][i]);
      assert playlist.left[base..][i] == playlist.left[base + i];
      assert Same(playlist.left[base + i], playlist.all[base + i]);
    }

    lemma LeaverIsListed(base: nat, s: nat)
      requires base <= s < |playlist.left| && playlist.Valid()
      ensures exists r | r in Retentions(playlist.left[base..]) :: r.sequence == s
    {
      var retentions := Retentions(playlist.left[base..]);
      assert retentions[s - base] in retentions && retentions[s - base].sequence == playlist.left[s].sequence == s;
    }

    lemma PlaylistFacts()
      requires playlist.Valid()
      ensures |playlist.all| == |playlist.left| + |playlist.segments| && (!playlist.exhausted ==> playlist.next == |playlist.all|)
    {
    }

    /** The session's books before the playlist took its newest segment. */
    ghost predicate BooksBehind(told: Told)
      reads this, playlist
    {
      && playlist.Valid() && !terminal && terminal == playlist.terminal == finishedAt.Some?
      && told.leftAt == leftAt && told.finishedAt == finishedAt && published == |told.all|
      && |playlist.all| == |told.all| + 1 && told.all <= playlist.all
      && playlist.shown == told.shown + [Shown(|playlist.left|, |playlist.all|, Total(playlist.segments))]
      && (forall s | s in leftAt :: 0 <= s < |playlist.left|) && |playlist.left| < |playlist.all|
      && (forall s | 0 <= s < |told.all| && s !in leftAt :: s in retained && retained[s].version == 0)
      && (forall s | s in retained && s in leftAt :: retained[s].version > 0)
      && (forall t | t in timers :: t.sequence < |told.all|)
      && told.NoneGoneEarly(retained, retiredAt) && told.DeadlinesHold(retained) && TimersHold(retained, timers)
    }

    /** The books catch up: who has left, and the new segment without a deadline. */
    method CatchUp(sequence: nat, ghost told: Told)
      requires BooksBehind(told) && sequence == |told.all|
      modifies this`leftAt, this`retained, this`published
      ensures published == |playlist.all| && retained.Keys == old(retained).Keys + {sequence}
      ensures forall s :: s in leftAt <==> 0 <= s < |playlist.left|
      ensures forall s | s in leftAt :: leftAt[s] == if s in told.leftAt then told.leftAt[s] else clock
      ensures forall s | s in retained && s in told.leftAt :: retained[s].version > 0
      ensures View().NoneGoneEarly(retained, retiredAt) && View().DeadlinesHold(retained) && TimersHold(retained, timers)
    {
      hide playlist.Valid, Longest, Total, TimersHold, Told.NoneGoneEarly, Told.DeadlinesHold;
      ghost var kept := retained;
      DeadlinesAreListed(told, kept);
      leftAt := map s: nat | s < |playlist.left| :: if s in told.leftAt then told.leftAt[s] else clock;
      retained := retained[sequence := Retained(NO_DEADLINE, 0)];
      published := published + 1;
      EmitKeeps(told, View(), kept, retiredAt, sequence);
      NewEntryHasNoTimer(kept, timers, sequence);
    }

    /** The newest segment is the given one. */
    twostate predicate EntersLast(duration: int, discontinuity: bool)
      requires duration > 0
      reads playlist
    {
      playlist.all == old(playlist.all) + [Segment(|old(playlist.all)|, duration, discontinuity, 0)]
    }

    /** When a segment left does not change any more, and one that leaves does so now. */
    twostate predicate TimesStay()
      reads this
    {
      && (forall s | s in old(leftAt) :: s in leftAt && leftAt[s] == old(leftAt)[s])
      && (forall s | s in leftAt && s !in old(leftAt) :: leftAt[s] == clock)
    }

    /** The playlist takes the segment, and then the books follow. */
    method Enter(duration: int, discontinuity: bool) returns (retired: Option<seq<Retention>>)
      requires Valid()
      modifies playlist, this`leftAt, this`retained, this`published
      ensures playlist.Valid() && terminal == playlist.terminal == finishedAt.Some?
      ensures finishedAt.Some? ==> finishedAt.value <= clock
      ensures retired.None? ==>
        && Valid() && published == old(published) && retained == old(retained) && leftAt == old(leftAt)
        && playlist.all == old(playlist.all) && playlist.shown == old(playlist.shown)
      ensures retired.Some? <==> !terminal && !old(playlist.exhausted) && 0 < duration <= TARGET_DURATION
      ensures retired.Some? ==> EntersLast(duration, discontinuity) && TimesStay()
      ensures retired.Some? ==>
        && !terminal && published == |playlist.all| == old(published) + 1
        && |old(playlist.left)| <= |playlist.left| < |playlist.all|
        && retired.value == Retentions(playlist.left[|old(playlist.left)|..])
        && (forall s :: s in leftAt <==> 0 <= s < |playlist.left|)
        && (forall s | |old(playlist.left)| <= s < |playlist.left| :: leftAt[s] == clock)
        && (forall s | |playlist.left| <= s < |playlist.all| :: s in retained)
        && (forall s | s in retained && s < |old(playlist.left)| :: retained[s].version > 0)
        && (forall t | t in timers :: t.sequence < |playlist.all|)
        && View().NoneGoneEarly(retained, retiredAt) && View().DeadlinesHold(retained) && TimersHold(retained, timers)
    {
      hide playlist.Valid, Longest, Total, Told.NoneGoneEarly, TimersHold, Retentions;
      var sequence := playlist.NextSequence();
      if sequence.None? { return None; }
      ghost var told := View();
      PlaylistFacts();
      ListedWait();
      retired := playlist.Append(sequence.value, duration, discontinuity);
      if retired.None? { return; }
      CatchUp(sequence.value, told);
    }

    /** What is still listed is there and has no deadline. */
    lemma ListedWait()
      requires Valid()
      ensures forall s | 0 <= s < |playlist.all| && s !in leftAt && !terminal :: s in retained && retained[s].version == 0
    {
      hide Longest;
    }

    /** `emit`, once the cache has taken the segment: an entry in the playlist, and deadlines for the
        segments that leave it. */
    method Emit(duration: int, discontinuity: bool) returns (ok: bool)
      requires Valid()
      modifies this`leftAt, this`retained, this`published, this`timers, playlist
      ensures Valid() && published == old(published) + if ok then 1 else 0
      ensures ok <==> !terminal && !old(playlist.exhausted) && 0 < duration <= TARGET_DURATION
      ensures ok ==> EntersLast(duration, discontinuity) && TimesStay()
      ensures !ok ==>
        && retained == old(retained) && leftAt == old(leftAt) && timers == old(timers)
        && playlist.all == old(playlist.all) && playlist.shown == old(playlist.shown)
    {
      hide playlist.Valid, Longest, Told.MayGo, Told.NoneGoneEarly, Told.DeadlinesHold, TimersHold;
      ghost var base := |playlist.left|;
      var retired := Enter(duration, discontinuity);
      if retired.None? { return false; }
      forall r | r in retired.value
        ensures r.retainFor > 0 && base <= r.sequence < |playlist.left| && View().MayGo(r.sequence, clock + r.retainFor)
      {
        LeavesInTime(base, r);
      }
      ghost var kept := retained;
      ScheduleAll(retired.value);
      StillThere(kept);
      forall s | s in retained && base <= s < |playlist.left| ensures retained[s].version > 0 {
        LeaverIsListed(base, s);
      }
      ok := true;
    }

    /** Deadlines do not take segments away. */
    lemma StillThere(kept: map<nat, Retained>)
      requires View().NoneGoneEarly(kept, retiredAt) && kept.Keys == retained.Keys
      ensures View().NoneGoneEarly(retained, retiredAt)
      ensures View().DeadlinesHold(retained) ==> forall s | s in retained :: s < |playlist.all|
    {
      hide Told.MayGo;
      assert forall s :: s in kept <==> s in retained;
    }

    /** A segment that is listed at the end may go when the playlist says. */
    lemma EndsInTime(r: Retention)
      requires playlist.Valid() && finishedAt.Some? && finishedAt.value <= clock
      requires forall s :: s in leftAt <==> 0 <= s < |playlist.left|
      requires r in LastRetentions(playlist.segments)
      ensures r.retainFor > 0 && View().MayGo(r.sequence, clock + r.retainFor)
    {
      var i :| 0 <= i < |playlist.segments| && r == LastRetentions(playlist.segments)[i];
      assert Same(playlist.segments[i], playlist.all[|playlist.left| + i]);
      assert Total(playlist.segments) >= playlist.segments[0].duration;
    }

    lemma ListedIsLast(s: nat)
      requires playlist.Valid() && |playlist.left| <= s < |playlist.all|
      ensures exists r | r in LastRetentions(playlist.segments) :: r.sequence == s
    {
      var last := LastRetentions(playlist.segments);
      assert last[s - |playlist.left|] in last && last[s - |playlist.left|].sequence == s;
    }

    /** `finish`: the playlist gets its end, and what it still lists gets its deadline. */
    method Finish()
      requires Valid()
      modifies this`terminal, this`finishedAt, this`retained, this`timers, playlist
      ensures Valid() && terminal && retained.Keys == old(retained).Keys
      ensures finishedAt == if old(finishedAt).None? then Some(clock) else old(finishedAt)
      ensures playlist.all == old(playlist.all) && playlist.left == old(playlist.left) && playlist.shown == old(playlist.shown)
    {
      hide playlist.Valid, Longest, TimersHold, Told.MayGo, Told.DeadlinesHold, Told.NoneGoneEarly, LastRetentions;
      ghost var told, kept := View(), retained;
      terminal := true;
      var retentions := playlist.Finish();
      if finishedAt.None? {
        finishedAt := Some(clock);
        FinishKeeps(told, View(), retained, retiredAt);
      }
      forall r | r in retentions ensures r.retainFor > 0 && View().MayGo(r.sequence, clock + r.retainFor) { EndsInTime(r); }
      ScheduleAll(retentions);
      StillThere(kept);
      forall s | s in retained && |playlist.left| <= s ensures retained[s].version > 0 { ListedIsLast(s); }
    }

    lemma ListedNumbers()
      requires Valid()
      ensures forall i | 0 <= i < |playlist.segments| :: playlist.segments[i].sequence == |playlist.left| + i
      ensures !terminal ==> forall i | 0 <= i < |playlist.segments| :: playlist.segments[i].sequence in retained
      ensures terminal ==> forall s | s in retained :: retained[s].version > 0
      ensures playlist.segments != [] ==> Total(playlist.segments) > 0
    {
      hide Longest, Told.MayGo, TimersHold;
    }

    /** A finished playlist that is shown once more keeps its segments for as long as it takes to play. */
    method Extend()
      requires Valid() && terminal && playlist.segments != []
      modifies this`retained, this`timers
      ensures Valid() && retained.Keys == old(retained).Keys
      ensures forall i | 0 <= i < |playlist.segments| && playlist.segments[i].sequence in retained ::
        retained[playlist.segments[i].sequence].deadline >= clock + Total(playlist.segments)
    {
      hide playlist.Valid, Longest, TimersHold, Told.MayGo, Told.DeadlinesHold, Told.NoneGoneEarly;
      ListedNumbers();
      ghost var kept := retained;
      var total := Total(playlist.segments);
      var segments := playlist.segments;
      var retentions := seq(|segments|, i requires 0 <= i < |segments| => Retention(segments[i].sequence, total));
      ScheduleAll(retentions);
      StillThere(kept);
      forall i | 0 <= i < |segments| && segments[i].sequence in retained
        ensures retained[segments[i].sequence].deadline >= clock + total
      {
        assert retentions[i] in retentions && retentions[i].sequence == segments[i].sequence;
      }
    }

    /** `renderPlaylist`: a playlist of three or more segments that are still there. */
    method RenderPlaylist() returns (shown: bool)
      requires Valid()
      modifies this`retained, this`timers
      ensures Valid() && retained.Keys == old(retained).Keys
      ensures shown <==>
        |playlist.segments| >= 3 && forall i | 0 <= i < |playlist.segments| :: playlist.segments[i].sequence in retained
      ensures !terminal ==> retained == old(retained) && (shown <==> |playlist.segments| >= 3)
      ensures shown && terminal ==>
        forall i | 0 <= i < |playlist.segments| ::
          retained[playlist.segments[i].sequence].deadline >= clock + Total(playlist.segments)
    {
      hide playlist.Valid, Longest, TimersHold, Told.MayGo, Told.DeadlinesHold, Told.NoneGoneEarly;
      ListedNumbers();
      if |playlist.segments| < 3 { return false; }
      for i := 0 to |playlist.segments|
        invariant forall j | 0 <= j < i :: playlist.segments[j].sequence in retained
      {
        if playlist.segments[i].sequence !in retained { return false; }
      }
      shown := true;
      if terminal { Extend(); }
    }
  }
}
