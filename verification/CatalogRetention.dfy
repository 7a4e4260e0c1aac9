/** Pruning the programme catalogue: six stages of rows that are no longer needed, deleted in batches. */
module CatalogRetention {
  import opened Basics

  const KEPT_GENERATIONS := 3
  const BATCH_ROWS := 1_000

  datatype SyncState = Running | Completed | Failed
  datatype Sync = Sync(backend: nat, state: SyncState, finished: int)
  datatype ProgramObservation = ProgramObservation(sync: nat, instance: Option<nat>, revision: Option<nat>)
  datatype ServiceObservation = ServiceObservation(sync: nat, service: nat)
  datatype Instance = Instance(service: nat, lastSeen: int)
  datatype Reservation = Reservation(instance: nat, revision: nat)

  /** The tables by row ID; a revision row names its instance, a service row when it was last seen. */
  datatype Catalog = Catalog(
    programObservations: map<nat, ProgramObservation>, serviceObservations: map<nat, ServiceObservation>,
    syncs: map<nat, Sync>, revisions: map<nat, nat>, instances: map<nat, Instance>, services: map<nat, int>,
    reservations: map<nat, Reservation>, matches: set<nat>)

  // ----- Generations

  /** The completed generations of the same backend that are newer. */
  function Newer(syncs: map<nat, Sync>, id: nat): set<nat>
    requires id in syncs
  {
    set n | n in syncs && syncs[n].state.Completed? && syncs[n].backend == syncs[id].backend && After(syncs, n, id)
  }

  predicate After(syncs: map<nat, Sync>, n: nat, id: nat)
    requires n in syncs && id in syncs
  {
    syncs[n].finished > syncs[id].finished || (syncs[n].finished == syncs[id].finished && n > id)
  }

  /** A generation whose observations are no longer needed: a failed one, or a completed one behind three
      newer ones. */
  predicate Outdated(syncs: map<nat, Sync>, id: nat) {
    && id in syncs
    && (syncs[id].state.Failed? || (syncs[id].state.Completed? && |Newer(syncs, id)| >= KEPT_GENERATIONS))
  }

  // ----- The six stages, as the sets their queries select

  predicate EligibleInstance(c: Catalog, id: nat, cutoff: int) {
    && id in c.instances && c.instances[id].lastSeen < cutoff
    && (forall o | o in c.programObservations :: c.programObservations[o].instance != Some(id))
    && (forall o | o in c.programObservations && c.programObservations[o].revision.Some? ::
          !RevisionOf(c, c.programObservations[o].revision.value, id))
    && (forall r | r in c.reservations :: c.reservations[r].instance != id)
    && (forall r | r in c.reservations :: !RevisionOf(c, c.reservations[r].revision, id))
    && id !in c.matches
  }

  predicate RevisionOf(c: Catalog, revision: nat, instance: nat) {
    revision in c.revisions && c.revisions[revision] == instance
  }

  predicate UnusedInstance(c: Catalog, id: nat, cutoff: int) {
    && id in c.instances && c.instances[id].lastSeen < cutoff
    && (forall r | r in c.revisions :: c.revisions[r] != id)
    && (forall o | o in c.programObservations :: c.programObservations[o].instance != Some(id))
    && (forall r | r in c.reservations :: c.reservations[r].instance != id)
    && id !in c.matches
  }

  predicate EmptyOldSync(c: Catalog, id: nat, cutoff: int) {
    && Outdated(c.syncs, id) && c.syncs[id].finished < cutoff
    && (forall o | o in c.serviceObservations :: c.serviceObservations[o].sync != id)
    && (forall o | o in c.programObservations :: c.programObservations[o].sync != id)
  }

  predicate UnusedService(c: Catalog, id: nat, cutoff: int) {
    && id in c.services && c.services[id] < cutoff
    && (forall o | o in c.serviceObservations :: c.serviceObservations[o].service != id)
    && (forall i | i in c.instances :: c.instances[i].service != id)
  }

  const STAGES := 6

  /** The rows a stage may delete. */
  function Rows(c: Catalog, stage: nat, cutoff: int): set<nat> {
    match stage
    case 0 => set o | o in c.programObservations && Outdated(c.syncs, c.programObservations[o].sync)
    case 1 => set o | o in c.serviceObservations && Outdated(c.syncs, c.serviceObservations[o].sync)
    case 2 => set s | s in c.syncs && EmptyOldSync(c, s, cutoff)
    case 3 => set r | r in c.revisions && EligibleInstance(c, c.revisions[r], cutoff)
    case 4 => set i | i in c.instances && UnusedInstance(c, i, cutoff)
    case 5 => set s | s in c.services && UnusedService(c, s, cutoff)
    case _ => {}
  }

  function Minus<T>(m: map<nat, T>, delete: bool, rows: set<nat>): map<nat, T> { if delete then m - rows else m }

  /** A stage touches its own table only. */
  function Without(c: Catalog, stage: nat, rows: set<nat>): Catalog {
    Catalog(Minus(c.programObservations, stage == 0, rows), Minus(c.serviceObservations, stage == 1, rows),
            Minus(c.syncs, stage == 2, rows), Minus(c.revisions, stage == 3, rows), Minus(c.instances, stage == 4, rows),
            Minus(c.services, stage == 5, rows), c.reservations, c.matches)
  }

  // ----- Staged deletion of everything

  /** Each stage's whole set, one stage after the other. */
  function Cleared(c: Catalog, stage: nat, cutoff: int): Catalog
    decreases STAGES - stage
  {
    if stage >= STAGES then c else Cleared(Without(c, stage, Rows(c, stage, cutoff)), stage + 1, cutoff)
  }

  // ----- The newest three generations stay the newest three

  ghost predicate Newest(syncs: map<nat, Sync>, among: set<nat>, id: nat)
    requires among <= syncs.Keys
  {
    id in among && forall other | other in among && other != id :: After(syncs, id, other)
  }

  lemma {:induction false} HasNewest(syncs: map<nat, Sync>, among: set<nat>) returns (id: nat)
    requires among <= syncs.Keys && among != {}
    ensures Newest(syncs, among, id)
    decreases |among|
  {
    var one :| one in among;
    var rest := among - {one};
    if rest == {} {
      assert among == {one};
      id := one;
    } else {
      var best := HasNewest(syncs, rest);
      id := if After(syncs, one, best) then one else best;
      assert forall other | other in among :: other == one || other in rest;
    }
  }

  lemma NothingAfter(syncs: map<nat, Sync>, among: set<nat>, id: nat)
    requires among <= syncs.Keys && Newest(syncs, among, id)
    ensures forall n | n in among :: !After(syncs, n, id)
  {
  }

  lemma NewerStill(syncs: map<nat, Sync>, id: nat, newer: nat)
    requires id in syncs && newer in Newer(syncs, id)
    ensures Newer(syncs, newer) <= Newer(syncs, id)
  {
  }

  lemma SizeOfOneLess(s: set<nat>, x: nat)
    requires x in s
    ensures |s - {x}| == |s| - 1
  {
  }

  lemma SmallSubset(s: set<nat>, t: set<nat>)
    requires s <= t
    ensures |s| <= |t|
  {
    if s != {} {
      var x :| x in s;
      SmallSubset(s - {x}, t - {x});
    }
  }

  /** Of the generations newer than one, the three newest have fewer than three newer ones themselves. */
  lemma ThreeNewest(syncs: map<nat, Sync>, id: nat) returns (top: set<nat>)
    requires id in syncs && |Newer(syncs, id)| >= KEPT_GENERATIONS
    ensures top <= Newer(syncs, id) && |top| == KEPT_GENERATIONS
    ensures forall n | n in top :: n in syncs && syncs[n].state.Completed? && |Newer(syncs, n)| < KEPT_GENERATIONS
  {
    var all := Newer(syncs, id);
    var a := HasNewest(syncs, all);
    SizeOfOneLess(all, a);
    var b := HasNewest(syncs, all - {a});
    SizeOfOneLess(all - {a}, b);
    var c := HasNewest(syncs, all - {a} - {b});
    top := {a, b, c};
    NewerStill(syncs, id, a);
    NewerStill(syncs, id, b);
    NewerStill(syncs, id, c);
    NothingAfter(syncs, all, a);
    NothingAfter(syncs, all - {a}, b);
    NothingAfter(syncs, all - {a} - {b}, c);
    assert Newer(syncs, a) <= {};
    assert Newer(syncs, b) <= {a};
    assert Newer(syncs, c) <= {a, b};
    SmallSubset(Newer(syncs, b), {a});
    SmallSubset(Newer(syncs, c), {a, b});
  }

  /** Deleting outdated generations neither makes another one outdated nor saves one. */
  lemma OutdatedIsStable(syncs: map<nat, Sync>, gone: set<nat>, id: nat)
    requires forall g | g in gone :: Outdated(syncs, g)
    ensures Outdated(syncs - gone, id) <==> Outdated(syncs, id) && id !in gone
  {
    if id in syncs && id !in gone {
      assert Newer(syncs - gone, id) <= Newer(syncs, id);
      SmallSubset(Newer(syncs - gone, id), Newer(syncs, id));
      if |Newer(syncs, id)| >= KEPT_GENERATIONS {
        var top := ThreeNewest(syncs, id);
        assert top <= Newer(syncs - gone, id);
        SmallSubset(top, Newer(syncs - gone, id));
      }
    }
  }

  // ----- Batches reach the staged deletion

  /** No stage before this one has anything left to delete. */
  predicate EmptyBefore(c: Catalog, stage: nat, cutoff: int) { forall j | 0 <= j < stage :: Rows(c, j, cutoff) == {} }

  /** A batch takes part of a stage whose predecessors are empty. */
  predicate IsBatch(c: Catalog, stage: nat, rows: set<nat>, cutoff: int) {
    stage < STAGES && EmptyBefore(c, stage, cutoff) && rows <= Rows(c, stage, cutoff)
  }

  lemma ObservationsRemain(c: Catalog, stage: nat, rows: set<nat>, cutoff: int)
    requires stage < 2 && rows <= Rows(c, stage, cutoff)
    ensures var next := Without(c, stage, rows);
      Rows(next, stage, cutoff) == Rows(c, stage, cutoff) - rows && (stage > 0 ==> Rows(next, 0, cutoff) == Rows(c, 0, cutoff))
  {
    hide Outdated;
  }

  lemma SyncsRemain(c: Catalog, rows: set<nat>, cutoff: int)
    requires rows <= Rows(c, 2, cutoff)
    ensures var next := Without(c, 2, rows);
      Rows(next, 2, cutoff) == Rows(c, 2, cutoff) - rows &&
      Rows(next, 0, cutoff) <= Rows(c, 0, cutoff) && Rows(next, 1, cutoff) <= Rows(c, 1, cutoff)
  {
    hide Outdated;
    forall id ensures Outdated(c.syncs - rows, id) <==> Outdated(c.syncs, id) && id !in rows { OutdatedIsStable(c.syncs, rows, id); }
    assert forall id | id in c.syncs && id !in rows :: (c.syncs - rows)[id] == c.syncs[id];
  }

  lemma RevisionsRemain(c: Catalog, rows: set<nat>, cutoff: int)
    requires rows <= Rows(c, 3, cutoff)
    ensures var next := Without(c, 3, rows);
      Rows(next, 3, cutoff) == Rows(c, 3, cutoff) - rows &&
      forall j | 0 <= j < 3 :: Rows(next, j, cutoff) == Rows(c, j, cutoff)
  {
    hide Outdated;
    var next := Without(c, 3, rows);
    forall id ensures EligibleInstance(next, id, cutoff) <==> EligibleInstance(c, id, cutoff) {
      EligibilityIsStable(c, rows, id, cutoff);
    }
    assert Rows(next, 2, cutoff) == Rows(c, 2, cutoff);
  }

  lemma EligibilityIsStable(c: Catalog, rows: set<nat>, id: nat, cutoff: int)
    requires rows <= Rows(c, 3, cutoff)
    ensures EligibleInstance(Without(c, 3, rows), id, cutoff) <==> EligibleInstance(c, id, cutoff)
  {
    var next := Without(c, 3, rows);
    forall r ensures RevisionOf(next, r, id) ==> RevisionOf(c, r, id) {}
    if EligibleInstance(next, id, cutoff) {
      forall o | o in c.programObservations && c.programObservations[o].revision.Some?
        ensures !RevisionOf(c, c.programObservations[o].revision.value, id)
      {
        StillReferenced(c, rows, c.programObservations[o].revision.value, id, cutoff);
      }
      forall r | r in c.reservations ensures !RevisionOf(c, c.reservations[r].revision, id) {
        StillReferenced(c, rows, c.reservations[r].revision, id, cutoff);
      }
    }
  }

  /** A revision something refers to is not deleted. */
  lemma StillReferenced(c: Catalog, rows: set<nat>, revision: nat, id: nat, cutoff: int)
    requires rows <= Rows(c, 3, cutoff)
    requires (exists o :: o in c.programObservations && c.programObservations[o].revision == Some(revision)) ||
             (exists r :: r in c.reservations && c.reservations[r].revision == revision)
    ensures RevisionOf(c, revision, id) <==> RevisionOf(Without(c, 3, rows), revision, id)
  {
    if revision in rows {
      assert EligibleInstance(c, c.revisions[revision], cutoff);
      assert RevisionOf(c, revision, c.revisions[revision]);
      assert false;
    }
  }

  lemma InstancesRemain(c: Catalog, rows: set<nat>, cutoff: int)
    requires rows <= Rows(c, 4, cutoff)
    ensures var next := Without(c, 4, rows);
      Rows(next, 4, cutoff) == Rows(c, 4, cutoff) - rows &&
      (forall j | 0 <= j < 3 :: Rows(next, j, cutoff) == Rows(c, j, cutoff)) && Rows(next, 3, cutoff) <= Rows(c, 3, cutoff)
  {
    hide Outdated;
    assert Rows(Without(c, 4, rows), 2, cutoff) == Rows(c, 2, cutoff);
  }

  lemma ServicesRemain(c: Catalog, rows: set<nat>, cutoff: int)
    requires rows <= Rows(c, 5, cutoff)
    ensures var next := Without(c, 5, rows);
      Rows(next, 5, cutoff) == Rows(c, 5, cutoff) - rows && forall j | 0 <= j < 5 :: Rows(next, j, cutoff) == Rows(c, j, cutoff)
  {
    hide Outdated;
    var next := Without(c, 5, rows);
    assert Rows(next, 2, cutoff) == Rows(c, 2, cutoff) && Rows(next, 3, cutoff) == Rows(c, 3, cutoff);
    assert Rows(next, 4, cutoff) == Rows(c, 4, cutoff);
  }

  /** A batch leaves the rest of its stage selected and the stages before it empty. */
  lemma BatchRemains(c: Catalog, stage: nat, rows: set<nat>, cutoff: int)
    requires IsBatch(c, stage, rows, cutoff)
    ensures var next := Without(c, stage, rows);
      EmptyBefore(next, stage, cutoff) && Rows(next, stage, cutoff) == Rows(c, stage, cutoff) - rows
  {
    hide Rows, Without;
    match stage {
      case 0 => ObservationsRemain(c, 0, rows, cutoff);
      case 1 => ObservationsRemain(c, 1, rows, cutoff);
      case 2 => SyncsRemain(c, rows, cutoff);
      case 3 => RevisionsRemain(c, rows, cutoff);
      case 4 => InstancesRemain(c, rows, cutoff);
      case _ => ServicesRemain(c, rows, cutoff);
    }
  }

  lemma RemovedTwice<T>(m: map<nat, T>, rows: set<nat>, all: set<nat>)
    requires rows <= all
    ensures m - rows - (all - rows) == m - all && m - {} == m
  {
  }

  lemma ClearingTwice(c: Catalog, stage: nat, rows: set<nat>, all: set<nat>)
    requires rows <= all
    ensures Without(Without(c, stage, rows), stage, all - rows) == Without(c, stage, all) && Without(c, stage, {}) == c
  {
    RemovedTwice(c.programObservations, rows, all);
    RemovedTwice(c.serviceObservations, rows, all);
    RemovedTwice(c.syncs, rows, all);
    RemovedTwice(c.revisions, rows, all);
    RemovedTwice(c.instances, rows, all);
    RemovedTwice(c.services, rows, all);
  }

  lemma {:induction false} EmptyStagesPass(c: Catalog, stage: nat, cutoff: int, from: nat)
    requires from <= stage <= STAGES && EmptyBefore(c, stage, cutoff)
    ensures Cleared(c, from, cutoff) == Cleared(c, stage, cutoff)
    decreases stage - from
  {
    hide Rows, Without;
    if from < stage {
      assert Rows(c, from, cutoff) == {};
      ClearingTwice(c, from, {}, {});
      EmptyStagesPass(c, stage, cutoff, from + 1);
    }
  }

  /** No batch changes what the staged deletion of everything leads to. */
  lemma BatchKeepsGoal(c: Catalog, stage: nat, rows: set<nat>, cutoff: int)
    requires IsBatch(c, stage, rows, cutoff)
    ensures Cleared(Without(c, stage, rows), 0, cutoff) == Cleared(c, 0, cutoff)
  {
    hide Rows, Without;
    var next := Without(c, stage, rows);
    BatchRemains(c, stage, rows, cutoff);
    EmptyStagesPass(c, stage, cutoff, 0);
    EmptyStagesPass(next, stage, cutoff, 0);
    ClearingTwice(c, stage, rows, Rows(c, stage, cutoff));
  }

  /** When nothing is left to delete, the goal is reached. */
  lemma NothingLeft(c: Catalog, cutoff: int)
    requires EmptyBefore(c, STAGES, cutoff)
    ensures Cleared(c, 0, cutoff) == c
  {
    hide Rows;
    EmptyStagesPass(c, STAGES, cutoff, 0);
  }

  // ----- What every batch leaves alone

  /** Every reference leads to a row. */
  ghost predicate Referential(c: Catalog) {
    && (forall o | o in c.programObservations :: var p := c.programObservations[o];
          p.sync in c.syncs && (p.instance.Some? ==> p.instance.value in c.instances) &&
          (p.revision.Some? ==> p.revision.value in c.revisions))
    && (forall o | o in c.serviceObservations :: c.serviceObservations[o].sync in c.syncs && c.serviceObservations[o].service in c.services)
    && (forall r | r in c.revisions :: c.revisions[r] in c.instances)
    && (forall i | i in c.instances :: c.instances[i].service in c.services)
    && (forall r | r in c.reservations :: c.reservations[r].instance in c.instances && c.reservations[r].revision in c.revisions)
    && c.matches <= c.instances.Keys
  }

  lemma ObservationsKeepReferences(c: Catalog, stage: nat, rows: set<nat>, cutoff: int)
    requires Referential(c) && stage < 2 && rows <= Rows(c, stage, cutoff)
    ensures Referential(Without(c, stage, rows))
  {
    hide Rows;
  }

  lemma ParentsKeepReferences(c: Catalog, stage: nat, rows: set<nat>, cutoff: int)
    requires Referential(c) && (stage == 2 || stage == 5) && rows <= Rows(c, stage, cutoff)
    ensures Referential(Without(c, stage, rows))
  {
    hide Outdated, EligibleInstance, UnusedInstance;
  }

  lemma RevisionsKeepReferences(c: Catalog, rows: set<nat>, cutoff: int)
    requires Referential(c) && rows <= Rows(c, 3, cutoff)
    ensures Referential(Without(c, 3, rows))
  {
    hide Rows, EligibleInstance;
    var next := Without(c, 3, rows);
    forall o | o in c.programObservations && c.programObservations[o].revision.Some?
      ensures c.programObservations[o].revision.value in next.revisions
    {
      var revision := c.programObservations[o].revision.value;
      StillReferenced(c, rows, revision, c.revisions[revision], cutoff);
    }
    forall r | r in c.reservations ensures c.reservations[r].revision in next.revisions {
      StillReferenced(c, rows, c.reservations[r].revision, c.revisions[c.reservations[r].revision], cutoff);
    }
  }

  lemma InstancesKeepReferences(c: Catalog, rows: set<nat>, cutoff: int)
    requires Referential(c) && rows <= Rows(c, 4, cutoff)
    ensures Referential(Without(c, 4, rows))
  {
    hide Outdated, EligibleInstance;
    var next := Without(c, 4, rows);
    assert forall i | i in rows :: UnusedInstance(c, i, cutoff);
  }

  /** A deletion never violates a restricting foreign key. */
  lemma BatchKeepsReferences(c: Catalog, stage: nat, rows: set<nat>, cutoff: int)
    requires Referential(c) && IsBatch(c, stage, rows, cutoff)
    ensures Referential(Without(c, stage, rows))
  {
    hide EmptyBefore, Rows, Referential, Without;
    match stage {
      case 3 => RevisionsKeepReferences(c, rows, cutoff);
      case 4 => InstancesKeepReferences(c, rows, cutoff);
      case 0 => ObservationsKeepReferences(c, 0, rows, cutoff);
      case 1 => ObservationsKeepReferences(c, 1, rows, cutoff);
      case _ => ParentsKeepReferences(c, stage, rows, cutoff);
    }
  }

  /** A generation that is not outdated keeps its row and all its observations, and nothing is added: a
      reader of the current catalogue sees what it saw before. */
  ghost predicate KeepsGeneration(c: Catalog, next: Catalog, id: nat)
    requires id in c.syncs
  {
    && id in next.syncs && next.syncs[id] == c.syncs[id] && !Outdated(next.syncs, id)
    && (forall o :: o in c.programObservations && c.programObservations[o].sync == id <==>
          o in next.programObservations && next.programObservations[o].sync == id)
    && (forall o :: o in c.serviceObservations && c.serviceObservations[o].sync == id <==>
          o in next.serviceObservations && next.serviceObservations[o].sync == id)
  }

  /** Rows are deleted, never changed or added, and reservations not at all. */
  ghost predicate Shrunk(c: Catalog, next: Catalog) {
    && Within(next.programObservations, c.programObservations) && Within(next.serviceObservations, c.serviceObservations)
    && Within(next.syncs, c.syncs) && Within(next.revisions, c.revisions) && Within(next.instances, c.instances)
    && Within(next.services, c.services) && next.reservations == c.reservations && next.matches == c.matches
  }

  ghost predicate Within<T(!new)>(m: map<nat, T>, n: map<nat, T>) { forall k | k in m :: k in n && m[k] == n[k] }

  ghost predicate KeepsCurrent(c: Catalog, next: Catalog) {
    Shrunk(c, next) && forall id | id in c.syncs && !Outdated(c.syncs, id) :: KeepsGeneration(c, next, id)
  }

  lemma BatchKeepsGeneration(c: Catalog, stage: nat, rows: set<nat>, cutoff: int, id: nat)
    requires IsBatch(c, stage, rows, cutoff) && id in c.syncs && !Outdated(c.syncs, id)
    ensures KeepsGeneration(c, Without(c, stage, rows), id)
  {
    hide EmptyBefore, Outdated, EligibleInstance, UnusedInstance, UnusedService;
    if stage == 2 { OutdatedIsStable(c.syncs, rows, id); }
  }

  lemma BatchShrinks(c: Catalog, stage: nat, rows: set<nat>)
    ensures Shrunk(c, Without(c, stage, rows))
  {
    hide Within;
    WithinWithout(c.programObservations, rows);
    WithinWithout(c.serviceObservations, rows);
    WithinWithout(c.syncs, rows);
    WithinWithout(c.revisions, rows);
    WithinWithout(c.instances, rows);
    WithinWithout(c.services, rows);
  }

  lemma WithinWithout<T(!new)>(m: map<nat, T>, rows: set<nat>)
    ensures Within(m - rows, m) && Within(m, m)
  {
  }

  /** No batch touches what the current catalogue and the reservations need. */
  lemma BatchKeepsCurrent(c: Catalog, stage: nat, rows: set<nat>, cutoff: int)
    requires IsBatch(c, stage, rows, cutoff)
    ensures KeepsCurrent(c, Without(c, stage, rows))
  {
    hide IsBatch, Outdated, KeepsGeneration, Shrunk;
    BatchShrinks(c, stage, rows);
    forall id | id in c.syncs && !Outdated(c.syncs, id) ensures KeepsGeneration(c, Without(c, stage, rows), id) {
      BatchKeepsGeneration(c, stage, rows, cutoff, id);
    }
  }

  lemma CurrentChains(a: Catalog, b: Catalog, c: Catalog)
    requires KeepsCurrent(a, b) && KeepsCurrent(b, c)
    ensures KeepsCurrent(a, c)
  {
    hide Outdated;
  }

  /** The three newest completed generations of a backend and every running one are never outdated. */
  lemma NewestAreCurrent(syncs: map<nat, Sync>, id: nat)
    requires id in syncs && (syncs[id].state.Running? || (syncs[id].state.Completed? && |Newer(syncs, id)| < KEPT_GENERATIONS))
    ensures !Outdated(syncs, id)
  {
  }

  /** Every row a kept programme observation refers to is still there, down to the service. */
  lemma CurrentKeepsItsProgrammes(c: Catalog, next: Catalog, o: nat)
    requires Referential(next) && KeepsCurrent(c, next)
    requires o in c.programObservations && c.programObservations[o].sync in c.syncs
    requires !Outdated(c.syncs, c.programObservations[o].sync)
    ensures o in next.programObservations && next.programObservations[o] == c.programObservations[o]
    ensures var p := c.programObservations[o];
      && (p.instance.Some? ==>
            && p.instance.value in next.instances && p.instance.value in c.instances
            && next.instances[p.instance.value] == c.instances[p.instance.value]
            && next.instances[p.instance.value].service in next.services)
      && (p.revision.Some? ==>
            && p.revision.value in next.revisions && p.revision.value in c.revisions
            && next.revisions[p.revision.value] == c.revisions[p.revision.value]
            && next.revisions[p.revision.value] in next.instances)
  {
    hide Outdated;
    assert KeepsGeneration(c, next, c.programObservations[o].sync);
  }

  /** So is the service of a kept service observation. */
  lemma CurrentKeepsItsServices(c: Catalog, next: Catalog, o: nat)
    requires Referential(next) && KeepsCurrent(c, next)
    requires o in c.serviceObservations && c.serviceObservations[o].sync in c.syncs
    requires !Outdated(c.syncs, c.serviceObservations[o].sync)
    ensures o in next.serviceObservations && next.serviceObservations[o] == c.serviceObservations[o]
    ensures var service := c.serviceObservations[o].service;
      service in next.services && service in c.services && next.services[service] == c.services[service]
  {
    hide Outdated;
    assert KeepsGeneration(c, next, c.serviceObservations[o].sync);
  }

  /** What a reservation refers to is still there, down to the service. */
  lemma ReservationsKeepTheirRows(c: Catalog, next: Catalog, r: nat)
    requires Referential(next) && Shrunk(c, next) && r in c.reservations
    ensures var reservation := c.reservations[r];
      && reservation.instance in next.instances && next.instances[reservation.instance] == c.instances[reservation.instance]
      && next.instances[reservation.instance].service in next.services
      && reservation.revision in next.revisions && next.revisions[reservation.revision] == c.revisions[reservation.revision]
      && next.revisions[reservation.revision] in next.instances
  {
  }
}
