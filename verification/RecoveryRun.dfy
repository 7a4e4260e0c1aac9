/** The outer loop of recovery: attempts are read in pages of a hundred behind an ID cursor while the loop
    itself finishes the attempts it has read; all of them keep their files in one directory. */
module RecoveryRun {
  import opened Publication
  import opened RecordingRows

  const MAX_RECOVERY_PAGE := 100

  datatype Row = Row(id: nat, attempt: Attempt)

  /** The attempts table in the order of its key. */
  type Table = seq<Row>

  ghost predicate Keyed(t: Table) { forall i, j | 0 <= i < j < |t| :: t[i].id < t[j].id }

  /** The IDs a recovery query returns, in order. */
  function Wanted(t: Table): seq<nat> {
    if t == [] then [] else Wanted(t[..|t| - 1]) + (if Selected(t[|t| - 1].attempt) then [t[|t| - 1].id] else [])
  }

  lemma {:induction false} WantedJoins(s: Table, t: Table)
    ensures Wanted(s + t) == Wanted(s) + Wanted(t)
  {
    if t == [] {
      assert s + t == s;
    } else {
      assert (s + t)[..|s + t| - 1] == s + t[..|t| - 1];
      WantedJoins(s, t[..|t| - 1]);
    }
  }

  lemma {:induction false} WantedIsExact(t: Table, id: nat)
    ensures id in Wanted(t) <==> exists i :: 0 <= i < |t| && t[i].id == id && Selected(t[i].attempt)
  {
    if t != [] {
      WantedIsExact(t[..|t| - 1], id);
      assert forall i | 0 <= i < |t| - 1 :: t[..|t| - 1][i] == t[i];
    }
  }

  lemma {:induction false} WantedAscends(t: Table)
    requires Keyed(t)
    ensures forall i, j | 0 <= i < j < |Wanted(t)| :: Wanted(t)[i] < Wanted(t)[j]
  {
    if t != [] {
      var front := t[..|t| - 1];
      WantedAscends(front);
      forall i | 0 <= i < |Wanted(front)| ensures Wanted(front)[i] < t[|t| - 1].id {
        WantedIsExact(front, Wanted(front)[i]);
      }
    }
  }

  /** The rows behind a cursor start at this position. */
  ghost predicate Cursor(t: Table, after: nat, k: nat) {
    k <= |t| && (forall i | 0 <= i < k :: t[i].id <= after) && (forall i | k <= i < |t| :: after < t[i].id)
  }

  /** `RecoveryAttempts`: the first `limit` attempts behind the cursor, by ID. `end` is the position of the
      first row behind the page. */
  method Page(t: Table, after: nat, limit: nat, ghost k: nat) returns (ids: seq<nat>, ghost end: nat)
    requires Keyed(t) && Cursor(t, after, k) && limit > 0
    ensures k <= end <= |t| && ids == Wanted(t[k..end]) && |ids| <= limit
    ensures |ids| == limit ==> ids[limit - 1] > after && Cursor(t, ids[limit - 1], end)
    ensures |ids| < limit ==> end == |t|
  {
    var i := 0;
    while i < |t| && t[i].id <= after
      invariant 0 <= i <= k
    {
      i := i + 1;
    }
    ids, end := [], k;
    assert t[k..k] == [];
    while i < |t| && |ids| < limit
      invariant i == end && k <= end <= |t| && |ids| <= limit && ids == Wanted(t[k..end])
      invariant |ids| == limit ==> end > k && t[end - 1].id == ids[limit - 1]
    {
      WantedGrows(t, k, i);
      if Selected(t[i].attempt) { ids := ids + [t[i].id]; }
      i, end := i + 1, end + 1;
    }
  }

  lemma WantedGrows(t: Table, k: nat, i: nat)
    requires k <= i < |t|
    ensures Wanted(t[k..i + 1]) == Wanted(t[k..i]) + if Selected(t[i].attempt) then [t[i].id] else []
  {
    assert t[k..i + 1][..i - k] == t[k..i];
  }

  lemma PageRows(t: Table, k: nat, end: nat, i: nat)
    requires Keyed(t) && k <= end <= |t| && i < |t|
    ensures t[i].id in Wanted(t[k..end]) <==> k <= i < end && Selected(t[i].attempt)
  {
    WantedIsExact(t[k..end], t[i].id);
    if k <= i < end { assert t[k..end][i - k] == t[i]; }
  }

  // ----- One attempt's files among those of others

  ghost predicate SameOwn(g: Ground, a: Directory, b: Directory) {
    forall p | g.Own(p) :: (p in a <==> p in b) && (p in a ==> a[p] == b[p])
  }

  ghost predicate SameOthers(g: Ground, a: Directory, b: Directory) {
    forall p | !g.Own(p) :: (p in a <==> p in b) && (p in a ==> a[p] == b[p])
  }

  /** The ground of an attempt when the others' files are where they are now. */
  ghost function Rebased(g: Ground, dir: Directory): Ground {
    g.(start := map p | p in g.start.Keys + dir.Keys && (if g.Own(p) then p in g.start else p in dir) ::
      if g.Own(p) then g.start[p] else dir[p])
  }

  ghost predicate Fits(g: Ground, a: Attempt, dir: Directory) {
    Rebased(g, dir).Sound(a, dir) && ConstraintsAllow(a, a)
  }

  /** An attempt's course does not depend on the files of others. */
  lemma OwnFilesDecide(g: Ground, h: Ground, a: Attempt, d: Directory, e: Directory)
    requires h.main == g.main && h.oneSeg == g.oneSeg && h.size == g.size && SameOwn(g, g.start, h.start) && SameOwn(g, d, e)
    requires g.Rows(a)
    ensures h.Rows(a) && (g.Truthful(a, d) <==> h.Truthful(a, e)) && (g.Decided(a, d) <==> h.Decided(a, e))
    ensures (g.Hopeful(a) <==> h.Hopeful(a)) && (g.Free(g.main) <==> h.Free(h.main))
    ensures g.Placed(d, g.main) <==> h.Placed(e, h.main)
    ensures g.oneSeg.Some? ==> (g.Placed(d, g.oneSeg.value) <==> h.Placed(e, h.oneSeg.value))
  {
    assert g.Own(g.main.partial) && g.Own(g.main.final);
    if g.oneSeg.Some? { assert g.Own(g.oneSeg.value.partial) && g.Own(g.oneSeg.value.final); }
  }

  lemma Others(g: Ground, dir: Directory)
    ensures var h := Rebased(g, dir);
      h.main == g.main && h.oneSeg == g.oneSeg && h.size == g.size && SameOwn(g, g.start, h.start) && SameOthers(g, dir, h.start)
    ensures forall p :: Rebased(g, dir).Own(p) <==> g.Own(p)
  {
  }

  /** Others may move their files. */
  lemma FitsElsewhere(g: Ground, a: Attempt, d: Directory, e: Directory)
    requires Fits(g, a, d) && SameOwn(g, d, e)
    ensures Fits(g, a, e)
  {
    Others(g, d);
    Others(g, e);
    var (h, k) := (Rebased(g, d), Rebased(g, e));
    OwnFilesDecide(h, k, a, d, e);
    forall p | !k.Own(p) ensures k.Unchanged(e, p) {}
  }

  /** What its own recovery leaves fits the ground again, and no other attempt's file has moved. */
  lemma FitsAfterwards(g: Ground, a: Attempt, d: Directory, e: Directory)
    requires Rebased(g, d).Sound(a, e) && ConstraintsAllow(a, a)
    ensures Fits(g, a, e) && SameOthers(g, d, e)
  {
    Others(g, d);
    Others(g, e);
    var (h, k) := (Rebased(g, d), Rebased(g, e));
    OwnFilesDecide(h, k, a, e, e);
    forall p | !g.Own(p) ensures (p in d <==> p in e) && (p in d ==> d[p] == e[p]) { assert h.Unchanged(e, p); }
    forall p | !k.Own(p) ensures k.Unchanged(e, p) {}
  }

  // ----- How far an attempt has come

  /** From what it was at the start, an attempt is where it was or at its end, or on the way of its
      finalization to the decided end. */
  ghost predicate OnTrack(g: Ground, was: Attempt, a: Attempt, dir: Directory) {
    && g.Rows(a)
    && (!was.state.Finalizing? ==> SameOwn(g, g.start, dir))
    && (was.state.Early() ==> a == was || CutOff(was, g.start, g.size, a))
    && (was.state.Terminal() ==> SameEnd(was, a))
    && (was.state.Finalizing? ==>
          g.Truthful(a, dir) && (a.state.Finalizing? || (a.state.Terminal() && g.Decided(a, dir))) &&
          (g.Hopeful(was) && g.Free(g.main) ==> g.Hopeful(a)))
  }

  /** The end of an attempt: what was cut off ends by what its names showed; a finalization ends as planned,
      with the original file alone under the final name, if and only if that name was free; the rest keeps
      its end. Files move only in a finalization. */
  ghost predicate AtItsEnd(g: Ground, was: Attempt, a: Attempt, dir: Directory) {
    && g.Rows(a) && a.state.Terminal() && SameIntent(was, a)
    && (was.state.Early() ==> CutOff(was, g.start, g.size, a) && SameOwn(g, g.start, dir))
    && (was.state.Terminal() ==> SameEnd(was, a) && SameOwn(g, g.start, dir))
    && (was.state.Finalizing? ==>
          g.Decided(a, dir) &&
          (g.Hopeful(was) && g.Free(g.main) ==> a.oneSeg.value.Finalized() && g.Moved(dir, g.oneSeg.value)))
  }

  lemma TrackElsewhere(g: Ground, was: Attempt, a: Attempt, d: Directory, e: Directory)
    requires OnTrack(g, was, a, d) && SameOwn(g, d, e)
    ensures OnTrack(g, was, a, e)
  {
    OwnFilesDecide(g, g, a, d, e);
  }

  /** What one recovery of the attempt itself does to its course, seen from its ground. */
  lemma TrackGoesOn(g: Ground, was: Attempt, a: Attempt, d: Directory, b: Attempt, e: Directory)
    requires OnTrack(g, was, a, d) && Fits(g, a, d) && Fits(g, b, e)
    requires a.state.Terminal() ==> SameEnd(a, b)
    requires a.state.Early() ==> b == a || CutOff(a, d, g.size, b)
    requires !a.state.Finalizing? ==> e == d
    requires var h := Rebased(g, d);
      h.Rows(a) && h.Rows(b) &&
      (h.Truthful(a, d) && (a.state.Finalizing? || (a.state.Terminal() && h.Decided(a, d))) ==>
        h.Truthful(b, e) && (b.state.Finalizing? || (b.state.Terminal() && h.Decided(b, e))) &&
        (h.Hopeful(a) && h.Free(h.main) ==> h.Hopeful(b)))
    ensures OnTrack(g, was, b, e)
  {
    Others(g, d);
    OwnFilesDecide(g, Rebased(g, d), a, d, d);
    OwnFilesDecide(g, Rebased(g, d), b, e, e);
    if was.state.Early() && a == was { SameSight(g, d, a.main.plan); }
  }

  lemma SameSight(g: Ground, d: Directory, plan: FilePlan)
    requires SameOwn(g, g.start, d) && plan == g.main
    ensures Observed(g.start, plan, g.size) == Observed(d, plan, g.size)
  {
    assert g.Own(plan.partial) && g.Own(plan.final);
  }

  // ----- Recovery

  /** No two attempts share a name. */
  ghost predicate Apart(gs: seq<Ground>) {
    forall i, j, p | 0 <= i < |gs| && 0 <= j < |gs| && i != j && gs[i].Own(p) :: !gs[j].Own(p)
  }

  predicate NoFaults(fates: seq<Fate>) { forall i | 0 <= i < |fates| :: fates[i].Fine? || fates[i].Crash? }

  predicate NoCrash(fates: seq<Fate>) { forall i | 0 <= i < |fates| :: fates[i] != Crash }

  class Recovery {
    var t: Table
    var dir: Directory
    var fates: seq<Fate>
    const size: Inode -> nat
    ghost const start: Table
    ghost const grounds: seq<Ground>

    constructor (t: Table, dir: Directory, size: Inode -> nat)
      requires Keyed(t) && Apart(seq(|t|, i requires 0 <= i < |t| => GroundOf(t[i].attempt, dir, size)))
      requires forall i | 0 <= i < |t| :: t[i].id > 0
      requires forall i | 0 <= i < |t| ::
        GroundOf(t[i].attempt, dir, size).Sound(t[i].attempt, dir) && ConstraintsAllow(t[i].attempt, t[i].attempt)
      ensures Sound() && this.t == t && this.dir == dir && this.size == size && start == t
      ensures forall i | 0 <= i < |t| :: grounds[i] == GroundOf(t[i].attempt, dir, size)
      ensures (forall i | 0 <= i < |t| && t[i].attempt.state.Finalizing? ::
          GroundOf(t[i].attempt, dir, size).Truthful(t[i].attempt, dir)) ==> AllOnTrack()
    {
      this.t, this.dir, this.size, fates, start := t, dir, size, [], t;
      grounds := seq(|t|, i requires 0 <= i < |t| => GroundOf(t[i].attempt, dir, size));
      new;
      hide Ground.Sound, ConstraintsAllow;
      forall i | 0 <= i < |t| ensures Fits(grounds[i], t[i].attempt, dir) { UnmovedFits(grounds[i], t[i].attempt, dir); }
    }

    /** Every attempt is sound among the files of all. */
    ghost predicate Sound()
      reads this
    {
      && Keyed(t) && |grounds| == |t| == |start| && Apart(grounds)
      && (forall i | 0 <= i < |t| :: t[i].id == start[i].id && t[i].id > 0 && SameIntent(start[i].attempt, t[i].attempt))
      && (forall i | 0 <= i < |t| :: grounds[i].size == size && Fits(grounds[i], t[i].attempt, dir))
    }

    ghost predicate AllOnTrack()
      reads this
    {
      |grounds| == |t| == |start| &&
      forall i | 0 <= i < |t| :: OnTrack(grounds[i], start[i].attempt, t[i].attempt, dir)
    }

    /** The clock has not gone back behind the start of any recording. */
    ghost predicate Timely(now: int)
    {
      forall i | 0 <= i < |start| :: start[i].attempt.actualStart.Some? ==> now >= start[i].attempt.actualStart.value
    }

    /** One attempt is handled; the others and their files stay as they are. */
    method RecoverAt(i: nat, now: int) returns (s: Step)
      requires Sound() && i < |t| && Timely(now)
      modifies this
      ensures Sound() && t == old(t)[i := Row(old(t)[i].id, t[i].attempt)] && s in {Ok, Error, Dead}
      ensures old(t[i].attempt.state.Terminal()) || s == Ok ==> t[i].attempt.state.Terminal()
      ensures old(NoFaults(fates) && AllOnTrack()) ==> NoFaults(fates) && AllOnTrack()
      ensures old(NoFaults(fates)) ==> NoFaults(fates)
      ensures old(NoCrash(fates)) ==> NoCrash(fates)
      ensures old(NoFaults(fates) && NoCrash(fates)) ==> s == Ok
    {
      hide Ground.Sound, Ground.Truthful, ConstraintsAllow, OnTrack, CutOff, SameOthers, Apart;
      var site := new Site.Among(t[i].attempt, dir, size, fates, Rebased(grounds[i], dir));
      s := site.RecoverItem(now);
      FitsAfterwards(grounds[i], site.row, dir, site.dir);
      ghost var next := t[i := t[i].(attempt := site.row)];
      AllFit(grounds, t, next, i, dir, site.dir);
      if NoFaults(fates) && AllOnTrack() {
        RowsAreFit(grounds[i], t[i].attempt, dir, site.row, site.dir);
        TrackGoesOn(grounds[i], start[i].attempt, t[i].attempt, dir, site.row, site.dir);
        AllTracked(grounds, start, t, next, i, dir, site.dir);
      }
      t, dir, fates := t[i := t[i].(attempt := site.row)], site.dir, site.fates;
    }

    /** Handles the attempts of a page one after the other; each is found by its ID. The first error ends it. */
    method HandlePage(ids: seq<nat>, now: int) returns (s: Step, done: nat)
      requires Sound() && Timely(now) && forall n | 0 <= n < |ids| :: Has(t, ids[n])
      modifies this
      ensures Sound() && |t| == |old(t)| && s in {Ok, Error, Dead} && done <= |ids| && (s == Ok ==> done == |ids|)
      ensures forall j | 0 <= j < |t| && t[j].id !in ids :: t[j] == old(t)[j]
      ensures forall j | 0 <= j < |t| && t[j].id in ids[..done] :: t[j].attempt.state.Terminal()
      ensures old(NoFaults(fates) && AllOnTrack()) ==> NoFaults(fates) && AllOnTrack()
      ensures old(NoFaults(fates) && NoCrash(fates)) ==> NoFaults(fates) && NoCrash(fates) && s == Ok
    {
      hide Fits, OnTrack, SameIntent, Apart;
      done := 0;
      while done < |ids|
        invariant Sound() && |t| == |old(t)| && done <= |ids|
        invariant forall j | 0 <= j < |t| && t[j].id !in ids[..done] :: t[j] == old(t)[j]
        invariant forall j | 0 <= j < |t| && t[j].id in ids[..done] :: t[j].attempt.state.Terminal()
        invariant old(NoFaults(fates) && AllOnTrack()) ==> NoFaults(fates) && AllOnTrack()
        invariant old(NoFaults(fates) && NoCrash(fates)) ==> NoFaults(fates) && NoCrash(fates)
      {
        var i := Find(t, ids[done]);
        s := RecoverAt(i, now);
        if s != Ok { return; }
        assert ids[..done + 1] == ids[..done] + [ids[done]];
        done := done + 1;
      }
      assert ids[..done] == ids;
      s := Ok;
    }

    /** `Recovery.Run`: without an error every attempt that was selected at the start is handled, in ID order
        and once, although handling it may take it out of the query. */
    method Run(now: int) returns (s: Step, visited: seq<nat>)
      requires Sound() && Timely(now)
      modifies this
      ensures Sound() && s in {Ok, Error, Dead} && visited <= Wanted(old(t))
      ensures s == Ok ==> visited == Wanted(old(t)) && forall j | 0 <= j < |t| :: t[j].attempt.state.Terminal()
      ensures old(NoFaults(fates) && AllOnTrack()) ==> NoFaults(fates) && AllOnTrack()
      ensures old(NoFaults(fates) && NoCrash(fates)) ==> s == Ok
    {
      hide Fits, OnTrack, SameIntent, Apart, Selected, Wanted;
      s, visited := Ok, [];
      var after, more := 0, true;
      ghost var k := 0;
      NothingWanted(t);
      while more
        invariant Sound() && Behind(old(t), t, k) && visited == Wanted(old(t)[..k])
        invariant if more then Cursor(t, after, k) else k == |t|
        invariant old(NoFaults(fates) && AllOnTrack()) ==> NoFaults(fates) && AllOnTrack()
        invariant old(NoFaults(fates) && NoCrash(fates)) ==> NoFaults(fates) && NoCrash(fates)
        decreases more, |old(t)| - k
      {
        ghost var end;
        var ids, done;
        ids, end := Page(t, after, MAX_RECOVERY_PAGE, k);
        PageIsThere(old(t), t, k, end);
        ghost var before := t;
        s, done := HandlePage(ids, now);
        WantedPrefix(old(t), k, end, ids, done);
        visited := visited + ids[..done];
        if s != Ok { return; }
        assert ids[..done] == ids;
        PageIsBehind(old(t), before, t, k, end);
        more := |ids| == MAX_RECOVERY_PAGE;
        if more {
          after := ids[|ids| - 1];
          CursorStays(before, t, after, end);
        }
        k := end;
      }
      assert old(t)[..k] == old(t);
      s := Ok;
    }

    /** Many attempts share a directory. Recoveries die anywhere, inside an attempt or between two, as often
        as they like; after one that does not, every attempt is at its end. */
    method RecoveriesConverge(schedules: seq<seq<Fate>>, now: int)
      requires Sound() && Timely(now) && AllOnTrack() && forall i | 0 <= i < |schedules| :: NoFaults(schedules[i])
      modifies this
      ensures Sound()
      ensures forall i | 0 <= i < |t| :: AtItsEnd(grounds[i], start[i].attempt, t[i].attempt, dir)
    {
      hide Fits, OnTrack, SameIntent, Apart, Selected, Wanted;
      var s, visited;
      for i := 0 to |schedules|
        invariant Sound() && AllOnTrack()
      {
        fates := schedules[i];
        s, visited := Run(now);
      }
      fates := [];
      s, visited := Run(now);
      forall i | 0 <= i < |t| ensures AtItsEnd(grounds[i], start[i].attempt, t[i].attempt, dir) {
        EndReached(grounds[i], start[i].attempt, t[i].attempt, dir);
      }
    }
  }

  ghost predicate Has(t: Table, id: nat) { exists j :: 0 <= j < |t| && t[j].id == id }

  method Find(t: Table, id: nat) returns (i: nat)
    requires Has(t, id)
    ensures i < |t| && t[i].id == id
  {
    i := 0;
    while t[i].id != id
      invariant i < |t| && exists j :: i <= j < |t| && t[j].id == id
      decreases |t| - i
    {
      i := i + 1;
    }
  }

  /** The rows before position `k` are at an end, and the others are as they were. */
  ghost predicate Behind(was: Table, t: Table, k: nat) {
    && k <= |was| == |t| && (forall i | 0 <= i < k :: t[i].attempt.state.Terminal()) && (forall i | k <= i < |t| :: t[i] == was[i])
  }

  lemma NothingWanted(t: Table)
    ensures t[..0] == [] && Wanted(t[..0]) == [] && Behind(t, t, 0)
  {
  }

  lemma PageIsThere(was: Table, t: Table, k: nat, end: nat)
    requires Keyed(t) && Behind(was, t, k) && k <= end <= |t|
    ensures t[k..end] == was[k..end] && forall n | 0 <= n < |Wanted(t[k..end])| :: Has(t, Wanted(t[k..end])[n])
  {
    hide Selected, Wanted;
    forall n | 0 <= n < |Wanted(t[k..end])| ensures Has(t, Wanted(t[k..end])[n]) {
      var id := Wanted(t[k..end])[n];
      WantedIsExact(t[k..end], id);
      var i :| 0 <= i < end - k && t[k..end][i].id == id;
      assert t[k + i].id == id;
    }
  }

  lemma WantedPrefix(was: Table, k: nat, end: nat, ids: seq<nat>, done: nat)
    requires k <= end <= |was| && ids == Wanted(was[k..end]) && done <= |ids|
    ensures Wanted(was[..k]) + ids[..done] <= Wanted(was)
    ensures Wanted(was[..end]) == Wanted(was[..k]) + ids
  {
    hide Selected, Wanted;
    WantedJoins(was[..k], was[k..end]);
    assert was[..end] == was[..k] + was[k..end];
    WantedJoins(was[..end], was[end..]);
    assert was == was[..end] + was[end..];
  }

  /** A page has been handled: its rows are at an end, selected or not. */
  lemma PageIsBehind(was: Table, before: Table, t: Table, k: nat, end: nat)
    requires Keyed(before) && Behind(was, before, k) && k <= end <= |before| == |t|
    requires forall j | 0 <= j < |t| :: t[j].id == before[j].id
    requires forall j | 0 <= j < |t| && t[j].id !in Wanted(before[k..end]) :: t[j] == before[j]
    requires forall j | 0 <= j < |t| && t[j].id in Wanted(before[k..end]) :: t[j].attempt.state.Terminal()
    ensures Behind(was, t, end)
  {
    hide Wanted, Keyed;
    forall i | 0 <= i < |t| ensures t[i].id in Wanted(before[k..end]) <==> k <= i < end && Selected(before[i].attempt) {
      PageRows(before, k, end, i);
    }
  }

  lemma CursorStays(t: Table, next: Table, after: nat, k: nat)
    requires Cursor(t, after, k) && |next| == |t| && forall i | 0 <= i < |t| :: next[i].id == t[i].id
    ensures Cursor(next, after, k)
  {
  }

  lemma EndReached(g: Ground, was: Attempt, a: Attempt, dir: Directory)
    requires OnTrack(g, was, a, dir) && a.state.Terminal() && SameIntent(was, a)
    ensures AtItsEnd(g, was, a, dir)
  {
  }

  lemma RowsAreFit(g: Ground, a: Attempt, d: Directory, b: Attempt, e: Directory)
    requires Fits(g, a, d) && Rebased(g, d).Sound(b, e)
    ensures Rebased(g, d).Rows(a) && Rebased(g, d).Rows(b)
  {
  }

  /** One attempt's recovery leaves the others fit. */
  lemma AllFit(gs: seq<Ground>, t: Table, next: Table, i: nat, d: Directory, e: Directory)
    requires Apart(gs) && |gs| == |t| && |next| == |t| && i < |t| && next == t[i := Row(t[i].id, next[i].attempt)]
    requires SameOthers(gs[i], d, e) && Fits(gs[i], next[i].attempt, e)
    requires forall j | 0 <= j < |t| :: Fits(gs[j], t[j].attempt, d)
    ensures forall j | 0 <= j < |t| :: Fits(gs[j], next[j].attempt, e)
  {
    hide Fits;
    forall j | 0 <= j < |t| ensures Fits(gs[j], next[j].attempt, e) {
      if j != i { FitsElsewhere(gs[j], t[j].attempt, d, e); }
    }
  }

  lemma AllTracked(gs: seq<Ground>, start: Table, t: Table, next: Table, i: nat, d: Directory, e: Directory)
    requires Apart(gs) && |gs| == |t| == |start| && |next| == |t| && i < |t| && next == t[i := Row(t[i].id, next[i].attempt)]
    requires SameOthers(gs[i], d, e) && OnTrack(gs[i], start[i].attempt, next[i].attempt, e)
    requires forall j | 0 <= j < |t| :: OnTrack(gs[j], start[j].attempt, t[j].attempt, d)
    ensures forall j | 0 <= j < |t| :: OnTrack(gs[j], start[j].attempt, next[j].attempt, e)
  {
    hide OnTrack;
    forall j | 0 <= j < |t| ensures OnTrack(gs[j], start[j].attempt, next[j].attempt, e) {
      if j != i { TrackElsewhere(gs[j], start[j].attempt, t[j].attempt, d, e); }
    }
  }

  lemma UnmovedFits(g: Ground, a: Attempt, dir: Directory)
    requires g.Sound(a, dir) && ConstraintsAllow(a, a) && g.start == dir
    ensures Fits(g, a, dir)
  {
    assert Rebased(g, dir).start == dir;
  }
}
