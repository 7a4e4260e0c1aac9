/** Running the catalogue's garbage collection: batches with a fixed cutoff until nothing is left, the
    deadline passes or the caller cancels. */
module CatalogGc {
  import opened Basics
  import opened CatalogRetention

  const RETENTION_MS := 2_592_000_000   // thirty days

  datatype Batch = Batch(
    programObservations: nat, serviceObservations: nat, syncs: nat, revisions: nat, instances: nat, services: nat,
    allEmpty: bool)
  {
    function Total(): nat { programObservations + serviceObservations + syncs + revisions + instances + services }
  }

  const NO_ROWS := Batch(0, 0, 0, 0, 0, 0, false)

  function BatchOf(stage: nat, count: nat): Batch {
    Batch(At(stage == 0, count), At(stage == 1, count), At(stage == 2, count), At(stage == 3, count),
          At(stage == 4, count), At(stage == 5, count), false)
  }

  function At(here: bool, count: nat): nat { if here then count else 0 }

  /** `validBatch`. */
  predicate ValidBatch(b: Batch) { b.Total() <= BATCH_ROWS && (b.allEmpty <==> b.Total() == 0) }

  function Sizes(c: Catalog): Batch {
    Batch(|c.programObservations|, |c.serviceObservations|, |c.syncs|, |c.revisions|, |c.instances|, |c.services|, false)
  }

  predicate NoneMore(a: Batch, b: Batch) {
    && b.programObservations <= a.programObservations && b.serviceObservations <= a.serviceObservations
    && b.syncs <= a.syncs && b.revisions <= a.revisions && b.instances <= a.instances && b.services <= a.services
  }

  function Less(a: Batch, b: Batch): Batch
    requires NoneMore(a, b)
  {
    Batch(a.programObservations - b.programObservations, a.serviceObservations - b.serviceObservations, a.syncs - b.syncs,
          a.revisions - b.revisions, a.instances - b.instances, a.services - b.services, false)
  }

  predicate Smaller(c: Catalog, next: Catalog) { NoneMore(Sizes(c), Sizes(next)) }

  /** The rows that are gone. */
  function Difference(c: Catalog, next: Catalog): Batch
    requires Smaller(c, next)
  {
    Less(Sizes(c), Sizes(next))
  }

  function Sum(a: Batch, b: Batch): Batch {
    Batch(a.programObservations + b.programObservations, a.serviceObservations + b.serviceObservations, a.syncs + b.syncs,
          a.revisions + b.revisions, a.instances + b.instances, a.services + b.services, false)
  }

  lemma SizeWithout<T>(m: map<nat, T>, rows: set<nat>)
    requires rows <= m.Keys
    ensures |m - rows| == |m| - |rows|
  {
    assert (m - rows).Keys == m.Keys - rows;
    assert m.Keys == (m.Keys - rows) + rows;
    assert |m.Keys| == |m.Keys - rows| + |rows|;
    assert |(m - rows).Keys| == |m - rows| && |m.Keys| == |m|;
  }

  lemma SizeMinus<T>(m: map<nat, T>, delete: bool, rows: set<nat>)
    requires delete ==> rows <= m.Keys
    ensures |Minus(m, delete, rows)| == |m| - At(delete, |rows|)
  {
    if delete { SizeWithout(m, rows); }
  }

  lemma RowsExist(c: Catalog, stage: nat, cutoff: int)
    ensures var rows := Rows(c, stage, cutoff);
      && (stage == 0 ==> rows <= c.programObservations.Keys) && (stage == 1 ==> rows <= c.serviceObservations.Keys)
      && (stage == 2 ==> rows <= c.syncs.Keys) && (stage == 3 ==> rows <= c.revisions.Keys)
      && (stage == 4 ==> rows <= c.instances.Keys) && (stage == 5 ==> rows <= c.services.Keys)
  {
    hide Outdated, EligibleInstance, UnusedInstance, UnusedService, EmptyOldSync;
  }

  /** Six sizes of which only the stage's own has shrunk. */
  predicate OneLess(a: Batch, b: Batch, stage: nat, count: nat) {
    && b.programObservations + At(stage == 0, count) == a.programObservations
    && b.serviceObservations + At(stage == 1, count) == a.serviceObservations && b.syncs + At(stage == 2, count) == a.syncs
    && b.revisions + At(stage == 3, count) == a.revisions && b.instances + At(stage == 4, count) == a.instances
    && b.services + At(stage == 5, count) == a.services
  }

  lemma TableSizes(c: Catalog, next: Catalog, stage: nat, rows: set<nat>, cutoff: int)
    requires stage < STAGES && rows <= Rows(c, stage, cutoff) && next == Without(c, stage, rows)
    ensures OneLess(Sizes(c), Sizes(next), stage, |rows|)
  {
    RowsExist(c, stage, cutoff);
    hide Rows, Minus, At;
    SizeMinus(c.programObservations, stage == 0, rows);
    SizeMinus(c.serviceObservations, stage == 1, rows);
    SizeMinus(c.syncs, stage == 2, rows);
    SizeMinus(c.revisions, stage == 3, rows);
    SizeMinus(c.instances, stage == 4, rows);
    SizeMinus(c.services, stage == 5, rows);
  }

  lemma OneLessCounts(a: Batch, b: Batch, stage: nat, count: nat)
    requires stage < STAGES && OneLess(a, b, stage, count)
    ensures NoneMore(a, b) && Less(a, b) == BatchOf(stage, count)
    ensures !BatchOf(stage, count).allEmpty && BatchOf(stage, count).Total() == count && b.Total() + count == a.Total()
  {
    if stage == 0 {
    } else if stage == 1 {
    } else if stage == 2 {
    } else if stage == 3 {
    } else if stage == 4 {
    } else {
      assert stage == 5;
    }
  }

  lemma BatchSizes(c: Catalog, next: Catalog, stage: nat, rows: set<nat>, cutoff: int)
    requires stage < STAGES && rows <= Rows(c, stage, cutoff) && next == Without(c, stage, rows)
    ensures Smaller(c, next) && Difference(c, next) == BatchOf(stage, |rows|)
    ensures !BatchOf(stage, |rows|).allEmpty && BatchOf(stage, |rows|).Total() == |rows|
    ensures Sizes(next).Total() + |rows| == Sizes(c).Total()
  {
    hide Rows, Minus, Without, Sizes, OneLess, Less, NoneMore, BatchOf;
    TableSizes(c, next, stage, rows, cutoff);
    OneLessCounts(Sizes(c), Sizes(next), stage, |rows|);
  }

  /** Some rows of a set, as many as a batch may take. */
  method TakeRows(all: set<nat>, limit: nat) returns (rows: set<nat>)
    ensures rows <= all && |rows| == if |all| < limit then |all| else limit
  {
    rows := {};
    var rest := all;
    while |rows| < limit && rest != {}
      invariant rows <= all && rest == all - rows && |rows| <= limit && |rest| == |all| - |rows|
      decreases |rest|
    {
      var row :| row in rest;
      rows, rest := rows + {row}, rest - {row};
    }
  }

  datatype Reason = CompletedRun | DeadlinePassed | Cancelled | FailedRun

  /** What the caller and the clock say whenever they are asked: before and after every batch. */
  datatype Signal = Continue | Deadline | Cancel

  /** How the database ends a batch; an error at the commit may come after it. */
  datatype Commit = Commits | Fails(applied: bool)

  /** How a run that stops at a signal ends, or one that was not told to stop and ends as given. */
  function Ended(signal: Signal, otherwise: Reason): Reason {
    match signal case Continue => otherwise case Deadline => DeadlinePassed case Cancel => Cancelled
  }

  class Store {
    var catalog: Catalog

    constructor (catalog: Catalog)
      ensures this.catalog == catalog
    {
      this.catalog := catalog;
    }

    /** `PruneCatalogBatch`: the first stage that has rows loses up to a thousand of them. An error is no
        batch, whether or not the rows are gone. */
    method PruneBatch(cutoff: int, commit: Commit) returns (r: Option<Batch>, ghost stage: nat, ghost rows: set<nat>)
      modifies this
      ensures r.None? <==> cutoff < 0 || commit.Fails?
      ensures (cutoff < 0 ==> rows == {}) && (rows == {} ==> catalog == old(catalog))
      ensures rows != {} ==>
        IsBatch(old(catalog), stage, rows, cutoff) && catalog == Without(old(catalog), stage, rows) &&
        |rows| <= BATCH_ROWS && commit != Fails(false)
      ensures r.Some? && r.value.allEmpty ==>
        r.value == NO_ROWS.(allEmpty := true) && EmptyBefore(catalog, STAGES, cutoff) && rows == {}
      ensures r.Some? && !r.value.allEmpty ==> rows != {} && r.value == BatchOf(stage, |rows|)
    {
      hide Rows, Without;
      rows, stage := {}, 0;
      if cutoff < 0 || commit == Fails(false) { return None, 0, {}; }
      for i := 0 to STAGES
        invariant catalog == old(catalog) && EmptyBefore(catalog, i, cutoff)
      {
        var selected := Rows(catalog, i, cutoff);
        var taken := TakeRows(selected, BATCH_ROWS);
        if |taken| != 0 {
          catalog := Without(catalog, i, taken);
          return if commit.Fails? then None else Some(BatchOf(i, |taken|)), i, taken;
        }
        assert selected == {};
      }
      r := if commit.Fails? then None else Some(NO_ROWS.(allEmpty := true));
    }

    /** `Run`: whenever it ends, the goal is the same as before, references are intact and current
        generations are untouched; when it completes, the goal is reached. The counters say what has gone,
        up to one batch whose commit failed after it took effect. */
    method Run(now: int, signals: seq<Signal>, commits: seq<Commit>)
      returns (deleted: Batch, reason: Reason, ghost lost: Batch)
      requires Referential(catalog)
      modifies this
      ensures var cutoff := now - RETENTION_MS;
        && Cleared(catalog, 0, cutoff) == Cleared(old(catalog), 0, cutoff)
        && (reason.CompletedRun? ==> catalog == Cleared(old(catalog), 0, cutoff))
        && (reason.FailedRun? ==> cutoff < 0 || AnyFails(commits))
      ensures Referential(catalog) && KeepsCurrent(old(catalog), catalog)
      ensures Smaller(old(catalog), catalog) && Difference(old(catalog), catalog) == Sum(deleted, lost)
      ensures lost == NO_ROWS || (ValidBatch(lost) && !reason.CompletedRun? && Fails(true) in commits)
    {
      hide Rows, Without, Referential, KeepsCurrent, Sizes, BatchOf, Sum, Difference, Smaller;
      deleted, lost := NO_ROWS, NO_ROWS;
      NothingChanges(catalog);
      NothingIsLost(catalog, catalog);
      if now < 0 { return deleted, FailedRun, lost; }
      var cutoff, i := now - RETENTION_MS, 0;
      while true
        invariant Cleared(catalog, 0, cutoff) == Cleared(old(catalog), 0, cutoff)
        invariant Referential(catalog) && KeepsCurrent(old(catalog), catalog) && lost == NO_ROWS
        invariant Smaller(old(catalog), catalog) && deleted == Difference(old(catalog), catalog)
        decreases Sizes(catalog).Total()
      {
        NothingIsLost(old(catalog), catalog);
        var signal := if 2 * i < |signals| then signals[2 * i] else Continue;
        if !signal.Continue? { return deleted, Ended(signal, CompletedRun), lost; }
        ghost var before := catalog;
        var commit := if i < |commits| then commits[i] else Commits;
        var batch, stage, rows := PruneBatch(cutoff, commit);
        if rows != {} {
          BatchSizes(before, catalog, stage, rows, cutoff);
          BatchKeepsGoal(before, stage, rows, cutoff);
          BatchKeepsReferences(before, stage, rows, cutoff);
          BatchKeepsCurrent(before, stage, rows, cutoff);
          CurrentChains(old(catalog), before, catalog);
          DifferencesAdd(old(catalog), before, catalog);
        }
        signal := if 2 * i + 1 < |signals| then signals[2 * i + 1] else Continue;
        if batch.None? {
          if rows != {} {
            assert commit == commits[i] == Fails(true);
            lost := BatchOf(stage, |rows|);
          }
          return deleted, Ended(signal, FailedRun), lost;
        }
        if !ValidBatch(batch.value) { assert false; }
        deleted := Sum(deleted, batch.value);
        NothingIsLost(old(catalog), catalog);
        if !signal.Continue? { return deleted, Ended(signal, CompletedRun), lost; }
        if batch.value.allEmpty {
          NothingLeft(catalog, cutoff);
          return deleted, CompletedRun, lost;
        }
        i := i + 1;
      }
    }
  }

  predicate AnyFails(commits: seq<Commit>) { exists i :: 0 <= i < |commits| && commits[i].Fails? }

  lemma NothingIsLost(c: Catalog, next: Catalog)
    requires Smaller(c, next)
    ensures var b := Difference(c, next); Sum(b, NO_ROWS) == b && Sum(b, NO_ROWS.(allEmpty := true)) == b
  {
    hide Sizes;
  }

  lemma NothingChanges(c: Catalog)
    ensures KeepsCurrent(c, c) && Smaller(c, c) && Difference(c, c) == NO_ROWS
  {
    hide Outdated;
  }

  lemma DifferencesAdd(a: Catalog, b: Catalog, c: Catalog)
    requires Smaller(a, b) && Smaller(b, c)
    ensures Smaller(a, c) && Difference(a, c) == Sum(Difference(a, b), Difference(b, c))
  {
    hide Sizes;
  }
}
