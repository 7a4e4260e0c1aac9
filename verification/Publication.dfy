/** Publishing a finished recording and recovering it after a crash: one attempt's rows, the directory
    that holds its files, and a process that can die or meet an error at any effect.

    Every read or write of the directory and every store transaction consumes one fate of a schedule, so
    a claim about all schedules is a claim about every crash point. File contents no longer change here:
    a directory maps names to inodes, and an inode has one size. */
module Publication {
  import opened Basics
  import opened RecordingModel
  import opened RecordingRows
  import opened RecordingInvariant

  type Inode = nat
  type Directory = map<Path, Inode>

  /** What happens to the next effect: it succeeds, it reports an error (and may be done all the same), the
      file system does not know the operation, or the process dies before it. */
  datatype Fate = Fine | Fault(applied: bool) | Unsupported | Crash
  datatype Step = Ok | Error | Conflict | NotSupported | Dead

  /** `FileObservation` for regular files: the sizes under the two names and whether they are one file. */
  datatype Observation = Observation(partial: Option<nat>, final: Option<nat>, same: bool)

  /** What the attempt started its publication with: the directory, the names and the sizes. */
  datatype Ground = Ground(start: Directory, main: FilePlan, oneSeg: Option<FilePlan>, size: Inode -> nat)
  {
    ghost predicate Own(p: Path) {
      p in {main.partial, main.final} || (oneSeg.Some? && p in {oneSeg.value.partial, oneSeg.value.final})
    }

    ghost predicate Names() {
      main.partial != main.final &&
      (oneSeg.Some? ==>
        oneSeg.value.partial != oneSeg.value.final &&
        {oneSeg.value.partial, oneSeg.value.final} !! {main.partial, main.final})
    }

    /** No other file stands under the final name. */
    ghost predicate Free(plan: FilePlan) {
      plan.partial in start && (plan.final in start ==> start[plan.final] == start[plan.partial])
    }

    /** Both names are as they were. */
    ghost predicate Waiting(dir: Directory, plan: FilePlan) {
      Unchanged(dir, plan.partial) && Unchanged(dir, plan.final)
    }

    /** The file is under its final name and nowhere else. */
    ghost predicate Moved(dir: Directory, plan: FilePlan) {
      Free(plan) && plan.partial !in dir && plan.final in dir && dir[plan.final] == start[plan.partial]
    }

    ghost predicate Placed(dir: Directory, plan: FilePlan) { Waiting(dir, plan) || Moved(dir, plan) }

    ghost predicate Unchanged(dir: Directory, p: Path) {
      (p in dir <==> p in start) && (p in start ==> dir[p] == start[p])
    }

    /** A file of `byteCount` bytes is being published and the flags say how far it has come. */
    ghost predicate Publishing(dir: Directory, s: Segment, byteCount: int) {
      && s.plan.partial in start && size(start[s.plan.partial]) == byteCount
      && (s.finalPublished ==> Free(s.plan) && s.plan.final in dir)
      && (s.directorySynced ==> Moved(dir, s.plan))
    }

    /** The planned result, with the file under its final name. */
    ghost predicate Landed(row: Attempt, dir: Directory)
      requires Rows(row)
    {
      && AsPlanned(row) && Moved(dir, main) && size(start[main.partial]) == row.byteCount
      && (row.oneSeg.Some? && row.oneSeg.value.integrity.None? ==>
          Moved(dir, oneSeg.value) && size(start[oneSeg.value.partial]) == row.oneSeg.value.byteCount)
    }

    ghost predicate Rows(row: Attempt) {
      && row.main.plan == main && row.oneSeg.Some? == oneSeg.Some?
      && (row.oneSeg.Some? ==> row.oneSeg.value.plan == oneSeg.value)
      && (row.oneSeg.Some? && row.state.Finalizing? ==> OneSegRowOk(row.oneSeg.value))
    }

    /** Relative to the start, files have at most moved from a partial name to its free final name. */
    ghost predicate Files(dir: Directory) {
      && (forall p | !Own(p) :: Unchanged(dir, p))
      && Placed(dir, main) && (oneSeg.Some? ==> Placed(dir, oneSeg.value))
    }

    /** The one decided end: the planned result, if and only if the final name was free. */
    ghost predicate Decided(row: Attempt, dir: Directory)
      requires Rows(row)
    {
      if Free(main) then Landed(row, dir)
      else row.state.Failed? && row.terminalReason == Some(FileIntegrityMismatch) && Waiting(dir, main)
    }

    /** The one-seg file has not been given up and its final name is free. */
    ghost predicate Hopeful(row: Attempt) {
      row.oneSeg.Some? && row.oneSeg.value.integrity.None? && oneSeg.Some? && Free(oneSeg.value)
    }

    /** What every effect keeps, whatever files the start found. */
    ghost predicate Sound(row: Attempt, dir: Directory) {
      Names() && RowOk(row) && Rows(row) && Files(dir)
    }

    /** What every effect keeps when the start found the files the rows speak of. */
    ghost predicate Truthful(row: Attempt, dir: Directory)
      requires Rows(row)
    {
      && (row.state.Early() ==> Waiting(dir, main) && (oneSeg.Some? ==> Waiting(dir, oneSeg.value)))
      && (row.state.Finalizing? ==>
          Publishing(dir, row.main, row.byteCount) &&
          (row.oneSeg.Some? && row.oneSeg.value.integrity.None? ==>
            Publishing(dir, row.oneSeg.value, row.oneSeg.value.byteCount)))
      && (row.state.Terminal() ==> Landed(row, dir) || Waiting(dir, main))
    }
  }

  /** The result its finalization had settled on, with every name published. */
  predicate AsPlanned(row: Attempt) {
    && row.terminalReason.Some? && row.plan == Some(Plan(row.state, row.terminalReason.value))
    && row.main.Finalized() && row.main.byteCount == row.byteCount
    && (row.oneSeg.Some? ==> row.oneSeg.value.Finalized() || (row.oneSeg.value.Settled() && row.oneSeg.value.state.SegPartial?))
  }

  /** A one-seg file during a finalization: finished, still to be published, or given up. */
  predicate OneSegRowOk(s: Segment) {
    && (s.state.SegFinalized? ==> s.Finalized()) && (s.directorySynced ==> s.state.SegFinalized?)
    && (s.integrity.None? ==> s.byteCount >= USEFUL_BYTES)
  }

  /** The file is under its final name only. */
  predicate Alone(dir: Directory, plan: FilePlan) { plan.partial !in dir && plan.final in dir }

  function GroundOf(row: Attempt, dir: Directory, size: Inode -> nat): Ground {
    Ground(dir, row.main.plan, if row.oneSeg.Some? then Some(row.oneSeg.value.plan) else None, size)
  }

  /** Nothing but the two names of one file is different. */
  ghost predicate SameElsewhere(before: Directory, after: Directory, plan: FilePlan) {
    forall p | p != plan.partial && p != plan.final ::
      (p in before <==> p in after) && (p in before ==> after[p] == before[p])
  }

  // ----- The two names as a value

  function Observed(dir: Directory, plan: FilePlan, size: Inode -> nat): Observation {
    var partial := if plan.partial in dir then Some(size(dir[plan.partial])) else None;
    var final := if plan.final in dir then Some(size(dir[plan.final])) else None;
    Observation(partial, final, partial.Some? && final.Some? && dir[plan.partial] == dir[plan.final])
  }

  /** The file leaves its partial name and is under its final name. */
  function Renamed(dir: Directory, plan: FilePlan): Directory
    requires plan.partial in dir
  {
    (dir - {plan.partial})[plan.final := dir[plan.partial]]
  }

  /** The two ways a partial name is given up: the final name is free, or it already names the file. */
  lemma RenameKeepsFiles(g: Ground, row: Attempt, dir: Directory, plan: FilePlan)
    requires g.Sound(row, dir) && plan.partial in dir && (plan == g.main || g.oneSeg == Some(plan))
    requires plan.final in dir ==> dir[plan.final] == dir[plan.partial]
    ensures g.Sound(row, Renamed(dir, plan)) && Alone(Renamed(dir, plan), plan)
    ensures row.state.Finalizing? && g.Truthful(row, dir) ==> g.Truthful(row, Renamed(dir, plan))
    ensures g.Moved(Renamed(dir, plan), plan)
  {
    var after := Renamed(dir, plan);
    assert g.Waiting(dir, plan);
    forall p | !g.Own(p) ensures g.Unchanged(after, p) { assert g.Unchanged(dir, p); }
    OtherPlanKept(g, dir, plan);
  }

  ghost predicate SamePosition(g: Ground, before: Directory, after: Directory, plan: FilePlan) {
    (g.Waiting(before, plan) <==> g.Waiting(after, plan)) && (g.Moved(before, plan) <==> g.Moved(after, plan)) &&
    (plan.final in before <==> plan.final in after) && (plan.partial in before <==> plan.partial in after)
  }

  lemma OtherPlanKept(g: Ground, dir: Directory, plan: FilePlan)
    requires g.Names() && g.Files(dir) && plan.partial in dir && (plan == g.main || g.oneSeg == Some(plan))
    ensures plan != g.main ==> SamePosition(g, dir, Renamed(dir, plan), g.main)
    ensures g.oneSeg.Some? && plan != g.oneSeg.value ==> SamePosition(g, dir, Renamed(dir, plan), g.oneSeg.value)
  {
  }

  /** A flag that is set only after the directory shows what it says keeps the rows truthful. */
  lemma FlagFits(g: Ground, row: Attempt, dir: Directory, ordinal: Ordinal, flag: Flag)
    requires g.Sound(row, dir) && Mark(row, ordinal, flag).Some?
    ensures g.Sound(Mark(row, ordinal, flag).value, dir)
    ensures g.Truthful(row, dir) && Shown(g, dir, ordinal, flag) ==> g.Truthful(Mark(row, ordinal, flag).value, dir)
  {
    FinalizeKeepsRow(row, Flagged(ordinal, flag));
  }

  ghost predicate Shown(g: Ground, dir: Directory, ordinal: Ordinal, flag: Flag) {
    (ordinal.OneSegFile? ==> g.oneSeg.Some?) &&
    var plan := if ordinal.MainFile? then g.main else g.oneSeg.value;
    if flag.FinalPublished? then g.Free(plan) && plan.final in dir else g.Moved(dir, plan)
  }

  lemma OutcomeFits(g: Ground, row: Attempt, dir: Directory, r: OneSegResult)
    requires g.Sound(row, dir) && SetOneSegOutcome(row, r).Some?
    ensures g.Sound(SetOneSegOutcome(row, r).value, dir)
    ensures g.Truthful(row, dir) ==> g.Truthful(SetOneSegOutcome(row, r).value, dir)
  {
    FinalizeKeepsRow(row, OneSegOutcome(r));
  }

  /** The finishes a publication or a recovery asks for: a failure, the plan, or an interrupted recording. */
  predicate Ends(row: Attempt, f: FinishRequest) {
    f.state.Failed? || (f.Publishes() && f.byteCount == row.byteCount) || (f.state.Partial? && row.plan.None?)
  }

  lemma FinishIsAllowed(row: Attempt, f: FinishRequest, now: int)
    requires RowOk(row) && FinishAttempt(row, f, now).Some? && Ends(row, f)
    ensures ConstraintsAllow(row, FinishAttempt(row, f, now).value) && !Unpublishes(row, f, now)
  {
  }

  /** The settled plan and the recorded start never change again. */
  predicate SameIntent(a: Attempt, b: Attempt) { b.plan == a.plan && b.actualStart == a.actualStart }

  /** What a finish makes of the row. */
  predicate EndedBy(before: Attempt, after: Attempt, f: FinishRequest) {
    && after.state == f.state && after.terminalReason == Some(f.reason) && after.byteCount == f.byteCount
    && SameIntent(before, after) && after.main.availability == f.availability && after.recovered == f.recovered
    && (f.Publishes() ==> AsPlanned(after) && after.oneSeg == before.oneSeg)
  }

  lemma FinishFits(g: Ground, row: Attempt, dir: Directory, f: FinishRequest, now: int)
    requires g.Sound(row, dir) && FinishAttempt(row, f, now).Some? && Ends(row, f)
    ensures var next := FinishAttempt(row, f, now).value;
      && g.Sound(next, dir) && EndedBy(row, next, f)
      && (g.Truthful(row, dir) && (!f.Publishes() ==> g.Waiting(dir, g.main)) ==> g.Truthful(next, dir))
  {
    FinishIsAllowed(row, f, now);
    FinishKeepsReadable(row, f, now);
  }

  lemma FinalizingAllowed(row: Attempt, next: Attempt)
    requires RowOk(row) && RowOk(next) && row.state.Finalizing?
    requires next == row.(main := next.main, oneSeg := next.oneSeg)
    ensures ConstraintsAllow(row, next)
  {
  }

  // ----- Results recovery computes from what it sees

  /** `finalizationFailure`. */
  function FinalizationFailure(a: Attempt, reason: Reason, availability: Availability): FinishRequest {
    FinishRequest(AttemptState.Failed, reason, a.byteCount, availability, true, None)
  }

  /** `oneSegInterruptedResult`. */
  function OneSegInterrupted(s: Segment, seen: Observation, reason: Reason): OneSegResult {
    if seen.final.Some? then OneSegResult(s.byteCount, FileMismatched, FileIntegrityMismatch, false, false)
    else if seen.partial.Some? then OneSegResult(seen.partial.value, FilePartial, reason, false, false)
    else if s.availability.FileMismatched? then OneSegResult(0, FileMismatched, FileIntegrityMismatch, false, false)
    else OneSegResult(0, FileMissing, reason, false, false)
  }

  /** `oneSegMismatch`. */
  function OneSegMismatch(byteCount: int): OneSegResult {
    OneSegResult(byteCount, FileMismatched, FileIntegrityMismatch, false, false)
  }

  /** What the two names say about a file that is being published. */
  datatype Finding = ToLink | ToUnlink | ToComplete | Gone | Wrong

  function Classify(s: Segment, byteCount: int, seen: Observation): Finding {
    var partialMatches := seen.partial == Some(byteCount);
    var finalMatches := seen.final == Some(byteCount);
    if (seen.partial.Some? && !partialMatches) || (seen.final.Some? && !finalMatches) then Wrong
    else if partialMatches && seen.final.None? && !s.finalPublished && !s.directorySynced then ToLink
    else if partialMatches && finalMatches && seen.same && !s.directorySynced then ToUnlink
    else if seen.partial.None? && finalMatches then ToComplete
    else if seen.partial.None? && seen.final.None? then Gone
    else Wrong
  }

  /** When the files are the ones the rows speak of, only another file under the final name is wrong. */
  lemma TruthfulFinding(g: Ground, dir: Directory, s: Segment, byteCount: int)
    requires g.Publishing(dir, s, byteCount) && g.Placed(dir, s.plan)
    ensures var finding := Classify(s, byteCount, Observed(dir, s.plan, g.size));
      !finding.Gone? && (finding.Wrong? <==> !g.Free(s.plan)) && (finding.Wrong? ==> g.Waiting(dir, s.plan))
  {
  }

  /** The file under the final name is the whole recording and the partial name is gone. */
  ghost predicate InPlace(dir: Directory, plan: FilePlan, size: Inode -> nat, byteCount: int) {
    Alone(dir, plan) && size(dir[plan.final]) == byteCount
  }

  /** A finish that does not publish also says what became of the one-seg file. */
  function WithOneSeg(f: FinishRequest, a: Attempt, seen: Observation): FinishRequest {
    if a.oneSeg.Some? then f.(oneSeg := Some(OneSegInterrupted(a.oneSeg.value, seen, f.reason))) else f
  }

  /** `completedAvailability`: what a published file's two names say about it. */
  function CompletedAvailability(byteCount: int, seen: Observation): (Availability, Option<Reason>) {
    if seen.final.None? then
      if seen.partial.Some? then (FileMismatched, Some(FileIntegrityMismatch)) else (FileMissing, Some(MissingFile))
    else if seen.final.value != byteCount || seen.partial.Some? then (FileMismatched, Some(FileIntegrityMismatch))
    else (FileFinal, None)
  }

  /** `settledOneSegAvailability`. */
  function SettledAvailability(s: Segment, seen: Observation): (Availability, Option<Reason>) {
    if s.state.SegFinalized? || s.availability.FileFinal? then CompletedAvailability(s.byteCount, seen)
    else if s.availability.FileMismatched? then (FileMismatched, Some(FileIntegrityMismatch))
    else if seen.final.Some? || (seen.partial.Some? && seen.partial.value != s.byteCount) then
      (FileMismatched, Some(FileIntegrityMismatch))
    else if seen.partial.Some? then (FilePartial, s.integrity)
    else if s.availability.FileMissing? && s.integrity.Some? then (FileMissing, s.integrity)
    else (FileMissing, Some(MissingFile))
  }

  /** `interruptedMainResult`: how an attempt ends whose recording a crash cut off. */
  function InterruptedMain(a: Attempt, seen: Observation): FinishRequest {
    if seen.final.Some? then
      FinishRequest(AttemptState.Failed, FileIntegrityMismatch, a.byteCount, FileMismatched, true, None)
    else if seen.partial.Some? then
      FinishRequest(if seen.partial.value >= USEFUL_BYTES then AttemptState.Partial else AttemptState.Failed,
                    ProcessInterrupted, seen.partial.value, FilePartial, true, None)
    else FinishRequest(AttemptState.Failed, ProcessInterrupted, 0, FileMissing, true, None)
  }

  predicate SameEnd(a: Attempt, b: Attempt) {
    b.state == a.state && b.terminalReason == a.terminalReason && b.byteCount == a.byteCount
  }

  /** The end of an attempt whose recording a crash cut off, by the files it found. */
  predicate CutOff(before: Attempt, dir: Directory, size: Inode -> nat, after: Attempt) {
    var f := InterruptedMain(before, Observed(dir, before.main.plan, size));
    after.state == f.state && after.terminalReason == Some(f.reason) && after.byteCount == f.byteCount
  }

  lemma InterruptedIsAllowed(row: Attempt, seen: Observation, seenOneSeg: Observation)
    requires RowOk(row) && row.state.Early()
    ensures var f := WithOneSeg(InterruptedMain(row, seen), row, seenOneSeg); FinishAllowed(row, f) && Ends(row, f)
  {
  }

  /** The row of a published attempt after looking at its main file again. */
  function Rechecked(a: Attempt, seen: Observation): Attempt {
    var (availability, reason) := CompletedAvailability(a.byteCount, seen);
    a.(main := a.main.(availability := availability, integrity := reason))
  }

  lemma RecheckFits(g: Ground, row: Attempt, dir: Directory, seen: Observation)
    requires g.Sound(row, dir) && row.state.Terminal() && Historical(row) && ConstraintsAllow(row, row)
    ensures var (availability, reason) := CompletedAvailability(row.byteCount, seen);
      SetAvailability(row, availability, reason) == Some(Rechecked(row, seen))
    ensures g.Sound(Rechecked(row, seen), dir) && ConstraintsAllow(row, Rechecked(row, seen))
  {
    var (availability, reason) := CompletedAvailability(row.byteCount, seen);
    ObserveKeepsRow(row, Observe(availability, reason));
  }

  lemma LandedLooksFinal(g: Ground, row: Attempt, dir: Directory)
    requires g.Rows(row) && g.Landed(row, dir)
    ensures Rechecked(row, Observed(dir, g.main, g.size)) == row
  {
  }

  /** The row of a published attempt after looking at its one-seg file again. */
  function RecheckedOneSeg(a: Attempt, seen: Observation): Attempt
    requires a.oneSeg.Some?
  {
    var (availability, reason) := SettledAvailability(a.oneSeg.value, seen);
    a.(oneSeg := Some(a.oneSeg.value.(availability := availability, integrity := reason)))
  }

  lemma RecheckOneSegFits(g: Ground, row: Attempt, dir: Directory, seen: Observation)
    requires g.Sound(row, dir) && row.state.Terminal() && Historical(row) && ConstraintsAllow(row, row)
    requires row.oneSeg.Some?
    ensures var (availability, reason) := SettledAvailability(row.oneSeg.value, seen);
      RecheckedOneSeg(row, seen) == row || SetOneSegAvailability(row, availability, reason) == Some(RecheckedOneSeg(row, seen))
    ensures g.Sound(RecheckedOneSeg(row, seen), dir) && ConstraintsAllow(row, RecheckedOneSeg(row, seen))
  {
    var (availability, reason) := SettledAvailability(row.oneSeg.value, seen);
    if RecheckedOneSeg(row, seen) != row { ObserveKeepsRow(row, ObserveOneSeg(availability, reason)); }
  }

  /** A landed attempt stays landed: its published one-seg file looks final, and one that was given up is
      not taken for a published one again. */
  lemma LandedOneSegStays(g: Ground, row: Attempt, dir: Directory)
    requires g.Rows(row) && g.Landed(row, dir) && row.oneSeg.Some? && RowOk(row) && Historical(row)
    ensures var next := RecheckedOneSeg(row, Observed(dir, g.oneSeg.value, g.size));
      g.Landed(next, dir) && (row.oneSeg.value.integrity.None? ==> next == row)
  {
  }

  /** The files the executor has just closed are the ones its finalization speaks of. */
  ghost predicate Closed(g: Ground, request: FinalizeRequest) {
    && g.main.partial in g.start && g.size(g.start[g.main.partial]) == request.byteCount
    && (g.oneSeg.Some? && request.oneSeg.Some? && request.oneSeg.value.publish ==>
        g.oneSeg.value.partial in g.start && g.size(g.start[g.oneSeg.value.partial]) == request.oneSeg.value.byteCount)
  }

  /** The one-seg file as its finalization leaves it. */
  predicate OneSegBegun(s: Segment, r: OneSegResult) {
    && s.state.SegPartial? && (s.integrity.None? <==> r.publish) && (s.integrity.Some? ==> s.Settled())
    && (r.publish ==> s.byteCount == r.byteCount)
  }

  lemma BeginFits(g: Ground, row: Attempt, dir: Directory, request: FinalizeRequest, token: nat, now: int)
    requires g.Sound(row, dir) && g.Truthful(row, dir) && BeginFinalization(row, request, token, now).Some?
    requires Closed(g, request)
    ensures var next := BeginFinalization(row, request, token, now).value;
      && g.Sound(next, dir) && g.Truthful(next, dir) && ConstraintsAllow(row, next) && next.byteCount == request.byteCount
      && next.state.Finalizing? && !next.main.directorySynced && !next.main.finalPublished && g.Waiting(dir, g.main)
      && (next.oneSeg.Some? ==>
          request.oneSeg.Some? && OneSegBegun(next.oneSeg.value, request.oneSeg.value) && g.Waiting(dir, g.oneSeg.value))
  {
    FinalizeKeepsRow(row, Finalize(request, token, now));
  }

  /** Whatever happens, no name other than a partial one ever changes what it names, and the file of a
      partial name stays within reach: nothing is overwritten and nothing is lost. */
  lemma NothingIsOverwritten(g: Ground, dir: Directory, p: Path)
    requires g.Names() && g.Files(dir) && p in g.start
    ensures p != g.main.partial && (g.oneSeg.Some? ==> p != g.oneSeg.value.partial) ==> p in dir && dir[p] == g.start[p]
    ensures p == g.main.partial ==>
      (p in dir && dir[p] == g.start[p]) || (g.main.final in dir && dir[g.main.final] == g.start[p])
    ensures g.oneSeg.Some? && p == g.oneSeg.value.partial ==>
      (p in dir && dir[p] == g.start[p]) || (g.oneSeg.value.final in dir && dir[g.oneSeg.value.final] == g.start[p])
  {
    if !g.Own(p) { assert g.Unchanged(dir, p); }
  }

  /** Another file under the final name is neither overwritten nor removed. */
  lemma ForeignFileStays(g: Ground, dir: Directory, plan: FilePlan)
    requires g.Names() && g.Files(dir) && (plan == g.main || g.oneSeg == Some(plan))
    requires plan.final in g.start && (plan.partial in g.start ==> g.start[plan.final] != g.start[plan.partial])
    ensures plan.final in dir && dir[plan.final] == g.start[plan.final]
    ensures plan.partial in g.start ==> plan.partial in dir && dir[plan.partial] == g.start[plan.partial]
  {
    assert g.Placed(dir, plan);
  }

  // ----- One attempt and its directory

  class Site {
    var row: Attempt
    var dir: Directory
    var fates: seq<Fate>
    const size: Inode -> nat
    ghost const g: Ground

    constructor (row: Attempt, dir: Directory, size: Inode -> nat, schedule: seq<Fate>)
      requires GroundOf(row, dir, size).Sound(row, dir) && ConstraintsAllow(row, row)
      ensures Sound() && this.row == row && this.dir == dir && this.size == size && fates == schedule
      ensures g == GroundOf(row, dir, size)
    {
      this.row, this.dir, this.size, fates := row, dir, size, schedule;
      g := GroundOf(row, dir, size);
    }

    /** An attempt among others, whose files may have moved since its own ground was taken. */
    constructor Among(row: Attempt, dir: Directory, size: Inode -> nat, schedule: seq<Fate>, ghost g: Ground)
      requires g.size == size && g.Sound(row, dir) && ConstraintsAllow(row, row)
      ensures Sound() && this.row == row && this.dir == dir && this.size == size && fates == schedule && this.g == g
    {
      this.row, this.dir, this.size, fates := row, dir, size, schedule;
      this.g := g;
    }

    ghost predicate Sound()
      reads this
    {
      g.size == size && g.Sound(row, dir) && ConstraintsAllow(row, row)
    }

    ghost predicate Truthful()
      reads this
    {
      Sound() && g.Truthful(row, dir)
    }

    ghost predicate Faultless()
      reads this`fates
    {
      forall i | 0 <= i < |fates| :: fates[i].Fine? || fates[i].Crash?
    }

    ghost predicate Survives()
      reads this`fates
    {
      forall i | 0 <= i < |fates| :: fates[i] != Crash
    }

    /** The names of one of the attempt's two files. */
    ghost predicate OwnPlan(plan: FilePlan) { plan == g.main || g.oneSeg == Some(plan) }

    // ----- Effects

    method Next() returns (fate: Fate)
      modifies this`fates
      ensures old(Faultless()) ==> Faultless() && (fate.Fine? || fate.Crash?)
      ensures old(Survives()) ==> Survives() && fate != Crash
    {
      if fates == [] { return Fine; }
      fate := fates[0];
      fates := fates[1..];
    }

    /** A read or a directory sync: it may fail, but it changes nothing. */
    method Touch() returns (s: Step)
      modifies this`fates
      ensures s in {Ok, Error, Dead}
      ensures old(Faultless()) ==> Faultless() && s != Error
      ensures old(Survives()) ==> Survives() && s != Dead
    {
      var fate := Next();
      s := match fate case Fine => Ok case Crash => Dead case _ => Error;
    }

    method Inspect(plan: FilePlan) returns (s: Step, seen: Observation)
      modifies this`fates
      ensures s in {Ok, Error, Dead} && seen == Observed(dir, plan, size)
      ensures old(Faultless()) ==> Faultless() && s != Error
      ensures old(Survives()) ==> Survives() && s != Dead
    {
      s := Touch();
      seen := Observed(dir, plan, size);
    }

    /** A store transaction: committed as a whole, refused, or lost with the process. */
    method Commit(next: Option<Attempt>) returns (s: Step)
      modifies this`row, this`fates
      ensures s in {Ok, Error, Dead}
      ensures row == old(row) || (next == Some(row) && ConstraintsAllow(old(row), row))
      ensures s == Ok ==> next == Some(row)
      ensures s == Dead ==> row == old(row)
      ensures old(Faultless()) ==>
        Faultless() && (s == Error ==> row == old(row) && (next.None? || !ConstraintsAllow(row, next.value)))
      ensures old(Survives()) ==> Survives() && s != Dead
    {
      var fate := Next();
      var allowed := next.Some? && ConstraintsAllow(row, next.value);
      match fate {
        case Fine =>
          if allowed { row := next.value; }
          s := if allowed then Ok else Error;
        case Crash => s := Dead;
        case Fault(applied) =>
          if allowed && applied { row := next.value; }
          s := Error;
        case Unsupported => s := Error;
      }
    }

    /** `LinkFinal`: moves the partial name to the final name unless that name is taken. */
    method LinkFinal(plan: FilePlan) returns (s: Step)
      requires Sound() && row.state.Finalizing? && OwnPlan(plan)
      modifies this`dir, this`fates
      ensures Sound() && (old(Truthful()) ==> Truthful()) && SameElsewhere(old(dir), dir, plan)
      ensures dir == old(dir) ||
        (plan.partial in old(dir) && plan.final !in old(dir) && dir == Renamed(old(dir), plan) && g.Moved(dir, plan))
      ensures s == Ok ==> dir != old(dir)
      ensures s in {Conflict, NotSupported, Dead} ==> dir == old(dir)
      ensures s == Conflict ==> plan.final in dir
      ensures old(Faultless()) ==> Faultless() && s != NotSupported && (s == Error ==> plan.partial !in dir && dir == old(dir))
      ensures old(Survives()) ==> Survives() && s != Dead
    {
      var fate := Next();
      if fate == Crash { return Dead; }
      if plan.final in dir { return Conflict; }
      if plan.partial !in dir { return Error; }
      if fate == Unsupported { return NotSupported; }
      if fate != Fault(false) {
        RenameKeepsFiles(g, row, dir, plan);
        dir := Renamed(dir, plan);
      }
      s := if fate == Fine then Ok else Error;
    }

    /** `RemovePartial`: drops a partial name that the final name repeats; it never removes a file. */
    method RemovePartial(plan: FilePlan) returns (s: Step)
      requires Sound() && row.state.Finalizing? && OwnPlan(plan)
      modifies this`dir, this`fates
      ensures Sound() && (old(Truthful()) ==> Truthful()) && SameElsewhere(old(dir), dir, plan)
      ensures s in {Ok, Error, Dead}
      ensures dir == old(dir) || (Alone(dir, plan) && plan.final in old(dir) && dir[plan.final] == old(dir)[plan.final])
      ensures s == Ok ==> Alone(dir, plan)
      ensures s == Dead ==> dir == old(dir)
      ensures old(Faultless()) ==>
        Faultless() && (s == Error ==> plan.final !in dir || (plan.partial in dir && dir[plan.partial] != dir[plan.final]))
      ensures old(Survives()) ==> Survives() && s != Dead
    {
      var fate := Next();
      if fate == Crash { return Dead; }
      if fate == Fault(false) || fate == Unsupported { return Error; }
      if plan.final !in dir { return Error; }
      if plan.partial in dir {
        if dir[plan.partial] != dir[plan.final] { return Error; }
        RenameKeepsFiles(g, row, dir, plan);
        dir := Renamed(dir, plan);
      }
      s := if fate == Fine then Ok else Error;
    }

    /** `MarkFinalPublished` and its three siblings. */
    method Flag(ordinal: Ordinal, flag: Flag) returns (s: Step)
      requires Sound() && row.state.Finalizing?
      modifies this`row, this`fates
      ensures Sound() && (old(Truthful()) && Shown(g, dir, ordinal, flag) ==> Truthful()) && s in {Ok, Error, Dead}
      ensures row == old(row) || Some(row) == Mark(old(row), ordinal, flag)
      ensures s == Ok ==> Some(row) == Mark(old(row), ordinal, flag)
      ensures s == Dead ==> row == old(row)
      ensures old(Faultless()) ==> Faultless() && (s == Error ==> row == old(row) && Mark(row, ordinal, flag).None?)
      ensures old(Survives()) ==> Survives() && s != Dead
    {
      var next := Mark(row, ordinal, flag);
      if next.Some? {
        FlagFits(g, row, dir, ordinal, flag);
        FinalizingAllowed(row, next.value);
      }
      s := Commit(next);
    }

    /** `SetOneSegOutcome`. */
    method SaveOneSegOutcome(r: OneSegResult) returns (s: Step)
      requires Sound() && row.state.Finalizing? && row.oneSeg.Some? && r.Valid() && !r.publish
      modifies this`row, this`fates
      ensures Sound() && (old(Truthful()) ==> Truthful()) && s in {Ok, Error, Dead}
      ensures row == old(row) || Some(row) == SetOneSegOutcome(old(row), r)
      ensures s == Ok ==> Some(row) == SetOneSegOutcome(old(row), r)
      ensures s == Dead ==> row == old(row)
      ensures old(Faultless()) ==> Faultless() && s != Error
      ensures old(Survives()) ==> Survives() && s != Dead
    {
      var next := SetOneSegOutcome(row, r);
      OutcomeFits(g, row, dir, r);
      FinalizingAllowed(row, next.value);
      s := Commit(next);
    }

    /** `FinishAttempt`, with a clock that has not gone back behind the start of the recording. */
    method Finish(f: FinishRequest, now: int) returns (s: Step)
      requires Sound() && FinishAllowed(row, f) && Ends(row, f)
      requires row.actualStart.Some? ==> now >= row.actualStart.value
      modifies this`row, this`fates
      ensures Sound() && (old(Truthful()) && (!f.Publishes() ==> g.Waiting(dir, g.main)) ==> Truthful())
      ensures s in {Ok, Error, Dead}
      ensures row == old(row) || EndedBy(old(row), row, f)
      ensures s == Ok ==> EndedBy(old(row), row, f)
      ensures s == Dead ==> row == old(row)
      ensures old(Faultless()) ==> Faultless() && s != Error
      ensures old(Survives()) ==> Survives() && s != Dead
    {
      var next := FinishAttempt(row, f, now);
      FinishIsAllowed(row, f, now);
      FinishFits(g, row, dir, f, now);
      s := Commit(next);
    }

    /** `inspectOneSeg`: an attempt without a one-seg file has nothing to see. */
    method InspectOneSeg() returns (s: Step, seen: Observation)
      requires Sound()
      modifies this`fates
      ensures s in {Ok, Error, Dead} && (g.oneSeg.Some? ==> seen == Observed(dir, g.oneSeg.value, size))
      ensures old(Faultless()) ==> Faultless() && s != Error
      ensures old(Survives()) ==> Survives() && s != Dead
    {
      if row.oneSeg.None? { return Ok, Observation(None, None, false); }
      s, seen := Inspect(row.oneSeg.value.plan);
    }

    /** Makes the final name durable and then gives up the partial name, if it is still there: the last
        steps of every publication. An error comes with the reason it is reported under. */
    method SettleNames(plan: FilePlan, removePartial: bool) returns (s: Step, reason: Reason)
      requires Sound() && row.state.Finalizing? && OwnPlan(plan)
      requires plan.final in dir && (plan.partial in dir ==> removePartial && dir[plan.partial] == dir[plan.final])
      modifies this`dir, this`fates
      ensures Sound() && (old(Truthful()) ==> Truthful()) && SameElsewhere(old(dir), dir, plan)
      ensures s in {Ok, Error, Dead} && !reason.Successful()
      ensures plan.final in dir && dir[plan.final] == old(dir)[plan.final]
      ensures s == Ok ==> Alone(dir, plan)
      ensures old(Faultless()) ==> Faultless() && s != Error
      ensures old(Survives()) ==> Survives() && s != Dead
    {
      reason := FileSyncFailed;
      s := Touch();
      if s != Ok || !removePartial { return; }
      s := RemovePartial(plan);
      if s != Ok { return s, FinalPublicationFailed; }
      s := Touch();
    }

    // ----- Recovering the main file

    /** `completeMainPublication`. */
    method CompleteMain(removePartial: bool) returns (s: Step)
      requires Sound() && row.state.Finalizing? && row.main.finalPublished
      requires g.main.final in dir && (g.main.partial in dir ==> removePartial && dir[g.main.partial] == dir[g.main.final])
      modifies this
      ensures Sound() && (old(Truthful()) ==> Truthful())
      ensures row == old(row).(main := row.main) && SameElsewhere(old(dir), dir, g.main)
      ensures s in {Ok, Error, Dead}
      ensures s == Ok ==> row.main.Finalized() && Alone(dir, g.main) && dir[g.main.final] == old(dir)[g.main.final]
      ensures old(Faultless()) ==> Faultless() && s != Error
      ensures old(Survives()) ==> Survives() && s != Dead
    {
      var reason;
      s, reason := SettleNames(row.main.plan, removePartial);
      if s != Ok || row.main.directorySynced { return; }
      s := Flag(MainFile, DirectorySynced);
    }

    /** Marks a main file found under its final name and completes its publication. */
    method ResumeMain(removePartial: bool) returns (s: Step)
      requires Sound() && row.state.Finalizing? && !row.main.directorySynced
      requires g.main.final in dir && (g.main.partial in dir ==> removePartial && dir[g.main.partial] == dir[g.main.final])
      requires Truthful() ==> g.Free(g.main)
      modifies this
      ensures Sound() && (old(Truthful()) ==> Truthful())
      ensures row == old(row).(main := row.main) && SameElsewhere(old(dir), dir, g.main)
      ensures s in {Ok, Error, Dead}
      ensures s == Ok ==> row.main.Finalized() && Alone(dir, g.main) && dir[g.main.final] == old(dir)[g.main.final]
      ensures old(Faultless()) ==> Faultless() && s != Error
      ensures old(Survives()) ==> Survives() && s != Dead
    {
      if !row.main.finalPublished {
        s := Flag(MainFile, FinalPublished);
        if s != Ok { return; }
      }
      s := CompleteMain(removePartial);
    }

    /** Moves the main file to its free final name and completes the publication: what the executor does
        and what recovery does for a file that was never moved. */
    method LinkMain() returns (s: Step)
      requires Sound() && row.state.Finalizing? && !row.main.directorySynced
      modifies this
      ensures Sound() && (old(Truthful()) ==> Truthful())
      ensures row == old(row).(main := row.main) && SameElsewhere(old(dir), dir, g.main)
      ensures s == Ok ==>
        row.main.Finalized() && Alone(dir, g.main) && g.main.partial in old(dir) && g.main.final !in old(dir) &&
        dir[g.main.final] == old(dir)[g.main.partial]
      ensures s in {NotSupported, Conflict} ==> row == old(row) && dir == old(dir)
      ensures s == Conflict ==> g.main.final in dir
      ensures old(Faultless()) ==> Faultless() && s != NotSupported && (s == Error ==> g.main.partial !in old(dir))
      ensures old(Survives()) ==> Survives() && s != Dead
    {
      s := LinkFinal(row.main.plan);
      if s == Ok { s := ResumeMain(true); }
    }

    /** `recoverMainFinalization`: the main file is published, or a failure says why it cannot be. When
        the files are the ones the rows speak of, that happens exactly when another file holds the final
        name. */
    method RecoverMain(seen: Observation) returns (s: Step, failure: Option<FinishRequest>)
      requires Sound() && row.state.Finalizing? && seen == Observed(dir, g.main, size)
      modifies this
      ensures Sound() && (old(Truthful()) ==> Truthful())
      ensures row == old(row).(main := row.main) && SameElsewhere(old(dir), dir, g.main)
      ensures s in {Ok, Error, Dead}
      ensures s == Ok && failure.None? ==> row.main.Finalized() && InPlace(dir, g.main, size, row.byteCount)
      ensures failure.Some? ==>
        s == Ok && dir == old(dir) && row == old(row) && failure.value.Valid() && failure.value.state.Failed? &&
        failure.value.oneSeg.None?
      ensures failure.Some? && old(Truthful()) ==> g.Waiting(dir, g.main)
      ensures old(Faultless()) ==> Faultless() && s != Error
      ensures old(Truthful() && Faultless()) && s == Ok ==>
        (failure.None? <==> g.Free(g.main)) && (failure.Some? ==> failure.value.reason == FileIntegrityMismatch)
      ensures old(Survives()) ==> Survives() && s != Dead
    {
      var item := row;
      if item.token.None? || item.byteCount < USEFUL_BYTES || !item.main.fileSynced { assert false; }
      if Truthful() { TruthfulFinding(g, dir, item.main, item.byteCount); }
      failure := None;
      match Classify(item.main, item.byteCount, seen) {
        case ToLink =>
          s := LinkMain();
          if s == NotSupported { return Ok, Some(FinalizationFailure(item, FinalPublicationFailed, FilePartial)); }
          if s == Conflict { s := Error; }
        case ToUnlink => s := ResumeMain(true);
        case ToComplete =>
          if item.main.directorySynced { s := CompleteMain(false); } else { s := ResumeMain(false); }
        case Gone => return Ok, Some(FinalizationFailure(item, MissingFile, FileMissing));
        case Wrong => return Ok, Some(FinalizationFailure(item, FileIntegrityMismatch, FileMismatched));
      }
    }

    // ----- Recovering the one-seg file

    /** What every step on the one-seg file keeps of the rest. */
    twostate predicate OnlyOneSeg()
      reads this
    {
      && row == old(row).(oneSeg := row.oneSeg) && row.oneSeg.Some? && old(row.oneSeg.Some?)
      && g.oneSeg.Some? && SameElsewhere(old(dir), dir, g.oneSeg.value)
    }

    /** The one-seg file is finished under its final name, or given up for good. */
    ghost predicate OneSegEnded()
      reads this
    {
      && row.oneSeg.Some? && g.oneSeg.Some?
      && if row.oneSeg.value.integrity.Some? then row.oneSeg.value.Settled()
         else row.oneSeg.value.Finalized() && InPlace(dir, g.oneSeg.value, size, row.oneSeg.value.byteCount)
    }

    /** Gives the one-seg file up without touching it. */
    method GiveUpOneSeg(reason: Reason, availability: Availability) returns (s: Step)
      requires Sound() && row.state.Finalizing? && row.oneSeg.Some? && !availability.FileFinal? && !availability.FilePlanned?
      modifies this`row, this`fates
      ensures Sound() && (old(Truthful()) ==> Truthful()) && OnlyOneSeg() && s in {Ok, Error, Dead}
      ensures s == Ok ==> OneSegEnded() && row.oneSeg.value.integrity.Some?
      ensures s == Dead ==> row == old(row)
      ensures old(Faultless()) ==> Faultless() && s != Error
      ensures old(Survives()) ==> Survives() && s != Dead
    {
      var segment := row.oneSeg.value;
      var byteCount := if availability.FileMissing? then 0 else segment.byteCount;
      s := SaveOneSegOutcome(OneSegResult(byteCount, availability, reason, segment.fileSynced, false));
    }

    /** `completeOneSegPublication`, and the same steps of a finished file: an error gives the file up. */
    method CompleteOneSeg(removePartial: bool) returns (s: Step)
      requires Sound() && row.state.Finalizing? && row.oneSeg.Some? && row.oneSeg.value.integrity.None?
      requires row.oneSeg.value.finalPublished
      requires g.oneSeg.value.final in dir
      requires g.oneSeg.value.partial in dir ==> removePartial && dir[g.oneSeg.value.partial] == dir[g.oneSeg.value.final]
      requires size(dir[g.oneSeg.value.final]) == row.oneSeg.value.byteCount
      modifies this
      ensures Sound() && (old(Truthful()) ==> Truthful()) && OnlyOneSeg() && s in {Ok, Error, Dead}
      ensures s == Ok ==> OneSegEnded()
      ensures old(Faultless()) ==> Faultless() && s != Error && row.oneSeg.value.integrity.None?
      ensures old(Survives()) ==> Survives() && s != Dead
    {
      var reason;
      s, reason := SettleNames(row.oneSeg.value.plan, removePartial);
      if s == Dead { return; }
      if s == Error {
        s := GiveUpOneSeg(reason, FilePartial);
        return;
      }
      if !row.oneSeg.value.directorySynced { s := Flag(OneSegFile, DirectorySynced); }
    }

    /** Marks a one-seg file found under its final name and completes its publication. */
    method ResumeOneSeg(removePartial: bool) returns (s: Step)
      requires Sound() && row.state.Finalizing? && row.oneSeg.Some? && row.oneSeg.value.integrity.None?
      requires !row.oneSeg.value.directorySynced && g.oneSeg.value.final in dir
      requires g.oneSeg.value.partial in dir ==> removePartial && dir[g.oneSeg.value.partial] == dir[g.oneSeg.value.final]
      requires size(dir[g.oneSeg.value.final]) == row.oneSeg.value.byteCount
      requires Truthful() ==> g.Free(g.oneSeg.value)
      modifies this
      ensures Sound() && (old(Truthful()) ==> Truthful()) && OnlyOneSeg() && s in {Ok, Error, Dead}
      ensures s == Ok ==> OneSegEnded()
      ensures old(Faultless()) ==> Faultless() && s != Error && row.oneSeg.value.integrity.None?
      ensures old(Survives()) ==> Survives() && s != Dead
    {
      if !row.oneSeg.value.finalPublished {
        s := Flag(OneSegFile, FinalPublished);
        if s != Ok { return; }
      }
      s := CompleteOneSeg(removePartial);
    }

    /** `recoverFinalizedOneSeg`. */
    method RecheckOneSeg(seen: Observation) returns (s: Step)
      requires Sound() && row.state.Finalizing? && row.oneSeg.Some? && row.oneSeg.value.Finalized()
      requires seen == Observed(dir, g.oneSeg.value, size)
      modifies this
      ensures Sound() && (old(Truthful()) ==> Truthful()) && OnlyOneSeg() && s in {Ok, Error, Dead}
      ensures s == Ok ==> OneSegEnded()
      ensures old(Faultless()) ==> Faultless() && s != Error
      ensures old(Truthful() && Faultless()) ==> row.oneSeg.value.integrity.None?
      ensures old(Survives()) ==> Survives() && s != Dead
    {
      var segment := row.oneSeg.value;
      if seen.final.Some? && seen.final.value != segment.byteCount {
        s := SaveOneSegOutcome(OneSegMismatch(segment.byteCount));
      } else if seen.final.None? {
        s := GiveUpOneSeg(MissingFile, FileMissing);
      } else if seen.partial.Some? {
        if seen.partial.value != segment.byteCount || !seen.same {
          s := SaveOneSegOutcome(OneSegMismatch(segment.byteCount));
        } else {
          s := CompleteOneSeg(true);
        }
      } else {
        s := Ok;
      }
    }

    /** Moves the one-seg file to its free final name and completes the publication; an error gives it up. */
    method LinkOneSeg() returns (s: Step)
      requires Sound() && row.state.Finalizing? && row.oneSeg.Some? && row.oneSeg.value.integrity.None?
      requires row.oneSeg.value.state.SegPartial?
      requires g.oneSeg.value.partial in dir && size(dir[g.oneSeg.value.partial]) == row.oneSeg.value.byteCount
      modifies this
      ensures Sound() && (old(Truthful()) ==> Truthful()) && OnlyOneSeg() && s in {Ok, Error, Dead}
      ensures s == Ok ==> OneSegEnded()
      ensures old(Faultless()) ==> Faultless() && s != Error
      ensures old(Faultless()) && g.oneSeg.value.final !in old(dir) ==> row.oneSeg.value.integrity.None?
      ensures old(Survives()) ==> Survives() && s != Dead
    {
      s := LinkFinal(row.oneSeg.value.plan);
      if s == Dead { return; }
      if s == Ok {
        s := ResumeOneSeg(true);
      } else {
        s := GiveUpOneSeg(if s == Conflict then FinalNameConflict else FinalPublicationFailed,
                          if s == Conflict then FileMismatched else FilePartial);
      }
    }

    /** The publication part of `recoverOneSegFinalization`. */
    method PublishFoundOneSeg(seen: Observation) returns (s: Step)
      requires Sound() && row.state.Finalizing? && row.oneSeg.Some? && row.oneSeg.value.integrity.None?
      requires row.oneSeg.value.state.SegPartial? && seen == Observed(dir, g.oneSeg.value, size)
      modifies this
      ensures Sound() && (old(Truthful()) ==> Truthful()) && OnlyOneSeg() && s in {Ok, Error, Dead}
      ensures s == Ok ==> OneSegEnded()
      ensures old(Faultless()) ==> Faultless() && s != Error
      ensures old(Truthful() && Faultless()) && g.Free(g.oneSeg.value) ==> row.oneSeg.value.integrity.None?
      ensures old(Survives()) ==> Survives() && s != Dead
    {
      var segment := row.oneSeg.value;
      if Truthful() { TruthfulFinding(g, dir, segment, segment.byteCount); }
      match Classify(segment, segment.byteCount, seen) {
        case ToLink => s := LinkOneSeg();
        case ToUnlink => s := ResumeOneSeg(true);
        case ToComplete => s := ResumeOneSeg(false);
        case Gone => s := GiveUpOneSeg(MissingFile, FileMissing);
        case Wrong => s := SaveOneSegOutcome(OneSegMismatch(segment.byteCount));
      }
    }

    /** `reconcileSettledOneSeg` during a finalization. */
    method ReconcileOneSeg(seen: Observation) returns (s: Step)
      requires Sound() && row.state.Finalizing? && row.oneSeg.Some? && row.oneSeg.value.integrity.Some?
      modifies this`row, this`fates
      ensures Sound() && (old(Truthful()) ==> Truthful()) && OnlyOneSeg() && s in {Ok, Error, Dead}
      ensures s == Ok ==> OneSegEnded()
      ensures old(Faultless()) ==> Faultless() && s != Error
      ensures old(Survives()) ==> Survives() && s != Dead
    {
      var segment := row.oneSeg.value;
      var (availability, reason) := SettledAvailability(segment, seen);
      if segment.availability == availability && segment.integrity == reason { return Ok; }
      var byteCount := if availability.FileMissing? then 0 else segment.byteCount;
      s := SaveOneSegOutcome(OneSegResult(byteCount, availability, reason.value, segment.fileSynced, false));
    }

    /** `recoverOneSegFinalization`. Whatever it finds, it only touches the one-seg file and its row, and
        ends with that file finished or given up; a file whose final name is free is finished. */
    method RecoverOneSeg(seen: Observation) returns (s: Step)
      requires Sound() && row.state.Finalizing? && row.oneSeg.Some? && seen == Observed(dir, g.oneSeg.value, size)
      modifies this
      ensures Sound() && (old(Truthful()) ==> Truthful()) && OnlyOneSeg() && s in {Ok, Error, Dead}
      ensures s == Ok ==> OneSegEnded()
      ensures old(Faultless()) ==> Faultless() && s != Error
      ensures old(Truthful() && Faultless() && row.oneSeg.value.integrity.None?) && g.Free(g.oneSeg.value) ==>
        row.oneSeg.value.integrity.None?
      ensures old(Survives()) ==> Survives() && s != Dead
    {
      var segment := row.oneSeg.value;
      if segment.state.SegFinalized? && segment.availability.FileFinal? {
        s := RecheckOneSeg(seen);
      } else if segment.integrity.Some? {
        s := ReconcileOneSeg(seen);
      } else {
        if !segment.state.SegPartial? || !segment.availability.FilePartial? || !segment.fileSynced ||
           segment.byteCount < USEFUL_BYTES { assert false; }
        s := PublishFoundOneSeg(seen);
      }
    }

    // ----- Ending an attempt

    /** A truthful finalization without I/O errors has one possible end: the plan when the final name is
        free, and otherwise a failure that leaves both files alone. */
    ghost predicate Decided()
      reads this
      requires Sound()
    {
      g.Decided(row, dir)
    }

    /** The finish that publishes. */
    method FinishPlanned(recovered: bool, now: int) returns (s: Step)
      requires Sound() && row.state.Finalizing? && row.main.Finalized() && InPlace(dir, g.main, size, row.byteCount)
      requires row.oneSeg.Some? ==> OneSegEnded()
      requires row.actualStart.Some? ==> now >= row.actualStart.value
      modifies this`row, this`fates
      ensures Sound() && (old(Truthful()) ==> Truthful()) && s in {Ok, Error, Dead}
      ensures row == old(row) || (AsPlanned(row) && SameIntent(old(row), row) && row.byteCount == old(row.byteCount))
      ensures row.oneSeg == old(row.oneSeg)
      ensures s == Ok ==> row != old(row)
      ensures s == Dead ==> row == old(row)
      ensures old(Truthful()) && row != old(row) ==> g.Landed(row, dir)
      ensures old(Faultless()) ==> Faultless() && s != Error
      ensures old(Survives()) ==> Survives() && s != Dead
    {
      var plan := row.plan.value;
      s := Finish(FinishRequest(plan.state, plan.reason, row.byteCount, FileFinal, recovered, None), now);
    }

    /** The finish of a main file that cannot be published. */
    method FinishFailed(failure: FinishRequest, now: int) returns (s: Step)
      requires Sound() && row.state.Finalizing? && failure.Valid() && failure.state.Failed? && failure.oneSeg.None?
      requires row.actualStart.Some? ==> now >= row.actualStart.value
      modifies this`row, this`fates
      ensures Sound() && (old(Truthful()) && g.Waiting(dir, g.main) ==> Truthful()) && s in {Ok, Error, Dead}
      ensures row == old(row) || (row.state.Failed? && row.terminalReason == Some(failure.reason) && SameIntent(old(row), row))
      ensures s == Ok ==> row != old(row)
      ensures s == Dead ==> row == old(row)
      ensures old(Faultless()) ==> Faultless() && s != Error
      ensures old(Survives()) ==> Survives() && s != Dead
    {
      var seen;
      s, seen := InspectOneSeg();
      if s != Ok { return; }
      s := Finish(WithOneSeg(failure, row, seen), now);
    }

    /** The end of `recoverFinalizing`: the one-seg file, then the planned result. */
    method FinishRecovered(now: int) returns (s: Step)
      requires Sound() && row.state.Finalizing? && row.main.Finalized() && InPlace(dir, g.main, size, row.byteCount)
      requires row.actualStart.Some? ==> now >= row.actualStart.value
      modifies this
      ensures Sound() && (old(Truthful()) ==> Truthful()) && s in {Ok, Error, Dead} && SameIntent(old(row), row)
      ensures row.state.Finalizing? || (AsPlanned(row) && InPlace(dir, g.main, size, row.byteCount))
      ensures s == Ok ==> row.state.Terminal()
      ensures old(Truthful()) ==> row.state.Finalizing? || g.Landed(row, dir)
      ensures old(Truthful() && Faultless() && Hopeful()) ==> Hopeful()
      ensures old(Faultless()) ==> Faultless() && s != Error
      ensures old(Survives()) ==> Survives() && s != Dead
    {
      var seen;
      s, seen := InspectOneSeg();
      if s != Ok { return; }
      if row.oneSeg.Some? {
        s := RecoverOneSeg(seen);
        if s != Ok { return; }
      }
      s := FinishPlanned(true, now);
    }

    /** The one-seg file has not been given up and its final name is free. */
    ghost predicate Hopeful()
      reads this
    {
      g.Hopeful(row)
    }

    /** `recoverFinalizing`: it ends the attempt as a failure or as planned, the latter only with the whole
        file under its final name; and if the files are the ones the rows speak of, it ends it in the one
        decided way. */
    method RecoverFinalizing(now: int) returns (s: Step)
      requires Sound() && row.state.Finalizing?
      requires row.actualStart.Some? ==> now >= row.actualStart.value
      modifies this
      ensures Sound() && (old(Truthful()) ==> Truthful()) && s in {Ok, Error, Dead} && SameIntent(old(row), row)
      ensures row.state.Finalizing? || row.state.Failed? || (AsPlanned(row) && InPlace(dir, g.main, size, row.byteCount))
      ensures s == Ok ==> row.state.Terminal()
      ensures old(Truthful() && Faultless()) ==> row.state.Finalizing? || Decided()
      ensures old(Truthful() && Faultless() && Hopeful()) && g.Free(g.main) ==> Hopeful()
      ensures old(Faultless()) ==> Faultless() && s != Error
      ensures old(Survives()) ==> Survives() && s != Dead
    {
      var seen, failure;
      s, seen := Inspect(row.main.plan);
      if s != Ok { return; }
      s, failure := RecoverMain(seen);
      if s != Ok { return; }
      if failure.Some? {
        s := FinishFailed(failure.value, now);
      } else {
        s := FinishRecovered(now);
      }
    }

    /** `finishInterrupted`: an attempt whose recording was cut off ends by what is under its names. */
    method FinishInterrupted(now: int) returns (s: Step)
      requires Sound() && row.state.Early()
      requires row.actualStart.Some? ==> now >= row.actualStart.value
      modifies this`row, this`fates
      ensures Sound() && (old(Truthful()) ==> Truthful()) && s in {Ok, Error, Dead} && SameIntent(old(row), row)
      ensures row == old(row) ||
        (var f := InterruptedMain(old(row), Observed(dir, g.main, size));
         row.state == f.state && row.terminalReason == Some(f.reason) && row.byteCount == f.byteCount)
      ensures s == Ok ==> row.state.Terminal()
      ensures old(Faultless()) ==> Faultless() && s != Error
      ensures old(Survives()) ==> Survives() && s != Dead
    {
      var seen, seenOneSeg;
      s, seen := Inspect(row.main.plan);
      if s != Ok { return; }
      s, seenOneSeg := InspectOneSeg();
      if s != Ok { return; }
      InterruptedIsAllowed(row, seen, seenOneSeg);
      s := Finish(WithOneSeg(InterruptedMain(row, seen), row, seenOneSeg), now);
    }

    /** The main half of `reconcileSuccess`. */
    method ReconcileMain() returns (s: Step)
      requires Sound() && row.state.Terminal() && Historical(row)
      modifies this`row, this`fates
      ensures Sound() && s in {Ok, Error, Dead}
      ensures row == old(row) || row == Rechecked(old(row), Observed(dir, g.main, size))
      ensures s == Ok ==> row == Rechecked(old(row), Observed(dir, g.main, size))
      ensures old(Faultless()) ==> Faultless() && s != Error
      ensures old(Survives()) ==> Survives() && s != Dead
    {
      var seen;
      s, seen := Inspect(row.main.plan);
      if s != Ok { return; }
      var (availability, reason) := CompletedAvailability(row.byteCount, seen);
      RecheckFits(g, row, dir, seen);
      if row.main.availability != availability || row.main.integrity != reason {
        s := Commit(SetAvailability(row, availability, reason));
      }
    }

    /** The one-seg half of `reconcileSuccess`. */
    method ReconcileTerminalOneSeg() returns (s: Step)
      requires Sound() && row.state.Terminal() && Historical(row) && row.oneSeg.Some?
      modifies this`row, this`fates
      ensures Sound() && s in {Ok, Error, Dead}
      ensures row == old(row) || row == RecheckedOneSeg(old(row), Observed(dir, g.oneSeg.value, size))
      ensures s == Ok ==> row == RecheckedOneSeg(old(row), Observed(dir, g.oneSeg.value, size))
      ensures old(Faultless()) ==> Faultless() && s != Error
      ensures old(Survives()) ==> Survives() && s != Dead
    {
      var seen;
      s, seen := Inspect(row.oneSeg.value.plan);
      if s != Ok { return; }
      var (availability, reason) := SettledAvailability(row.oneSeg.value, seen);
      RecheckOneSegFits(g, row, dir, seen);
      if row.oneSeg.value.availability != availability || row.oneSeg.value.integrity != reason {
        s := Commit(SetOneSegAvailability(row, availability, reason));
      }
    }

    /** `reconcileSuccess`: looks at the files of a published attempt again. A landed attempt stays as it
        is, except for what is said about a one-seg file that was given up. */
    method ReconcileSuccess() returns (s: Step)
      requires Sound() && row.state.Terminal() && Historical(row)
      modifies this`row, this`fates
      ensures Sound() && s in {Ok, Error, Dead} && row.state == old(row.state) && SameIntent(old(row), row)
      ensures row.byteCount == old(row.byteCount)
      ensures row.terminalReason == old(row.terminalReason)
      ensures old(g.Landed(row, dir)) ==> g.Landed(row, dir) && row.main == old(row.main) && (old(Hopeful()) ==> Hopeful())
      ensures old(Faultless()) ==> Faultless() && s != Error
      ensures old(Survives()) ==> Survives() && s != Dead
    {
      if g.Landed(row, dir) { LandedLooksFinal(g, row, dir); }
      s := ReconcileMain();
      if s != Ok || row.oneSeg.None? { return; }
      if g.Landed(row, dir) { LandedOneSegStays(g, row, dir); }
      s := ReconcileTerminalOneSeg();
    }

    // ----- Whole runs

    /** On the way to the one decided end, or there. */
    ghost predicate OnCourse()
      reads this
    {
      Truthful() && (row.state.Finalizing? || (row.state.Terminal() && Decided()))
    }

    /** One attempt's part of `Recovery.Run`, with the rows its query selects. Whatever the files are, an
        error-free run that survives ends the attempt; and nothing it can meet takes an attempt off its
        course. */
    method RecoverItem(now: int) returns (s: Step)
      requires Sound() && (row.actualStart.Some? ==> now >= row.actualStart.value)
      modifies this
      ensures Sound() && s in {Ok, Error, Dead} && SameIntent(old(row), row)
      ensures old(row.state.Terminal()) ==> SameEnd(old(row), row)
      ensures old(row.state.Early()) ==> row == old(row) || CutOff(old(row), old(dir), size, row)
      ensures !old(row.state.Finalizing?) ==> dir == old(dir)
      ensures s == Ok ==> row.state.Terminal()
      ensures old(OnCourse() && Faultless()) ==> OnCourse()
      ensures old(Faultless()) ==> Faultless()
      ensures old(Survives()) ==> Survives() && s != Dead
      ensures old(OnCourse() && Faultless() && Hopeful()) && g.Free(g.main) ==> Hopeful()
      ensures old(Faultless() && Survives()) ==> s == Ok
    {
      if !Selected(row) { return Ok; }
      if row.state.Early() {
        s := FinishInterrupted(now);
      } else if row.state.Finalizing? {
        s := RecoverFinalizing(now);
      } else {
        s := ReconcileSuccess();
      }
    }

    /** Any number of recoveries that die at any effect, then one that does not: the attempt ends as its
        finalization planned, with the original file alone under the final name, if and only if that name
        was free; otherwise it fails and both files are where they were. */
    method CrashesConverge(schedules: seq<seq<Fate>>, now: int)
      requires OnCourse() && (row.actualStart.Some? ==> now >= row.actualStart.value)
      requires forall i, j | 0 <= i < |schedules| && 0 <= j < |schedules[i]| :: schedules[i][j].Fine? || schedules[i][j].Crash?
      modifies this
      ensures Sound() && SameIntent(old(row), row) && row.state.Terminal()
      ensures if g.Free(g.main) then g.Landed(row, dir)
              else row.state.Failed? && row.terminalReason == Some(FileIntegrityMismatch) && g.Waiting(dir, g.main)
      ensures old(Hopeful()) && g.Free(g.main) ==> row.oneSeg.value.Finalized() && g.Moved(dir, g.oneSeg.value)
    {
      var s;
      for i := 0 to |schedules|
        invariant OnCourse() && SameIntent(old(row), row) && (row.actualStart.Some? ==> now >= row.actualStart.value)
        invariant old(Hopeful()) && g.Free(g.main) ==> Hopeful()
      {
        fates := schedules[i];
        s := RecoverItem(now);
      }
      fates := [];
      s := RecoverItem(now);
    }

    // ----- The executor

    /** The finalization publishes a one-seg file whose final name is free. */
    ghost predicate OneSegReady(request: FinalizeRequest) {
      request.oneSeg.Some? && request.oneSeg.value.publish && g.oneSeg.Some? && g.oneSeg.value.final !in g.start
    }

    /** The failure of a file system that cannot rename without overwriting. */
    method FinishUnsupported(oneSeg: Option<OneSegResult>, now: int) returns (s: Step)
      requires Sound() && row.state.Finalizing? && row.oneSeg.Some? == oneSeg.Some?
      requires oneSeg.Some? ==> oneSeg.value.Valid()
      requires row.actualStart.Some? ==> now >= row.actualStart.value
      modifies this`row, this`fates
      ensures Sound() && (old(Truthful()) && g.Waiting(dir, g.main) ==> Truthful()) && s in {Ok, Error, Dead}
      ensures row == old(row) || (row.state.Failed? && row.terminalReason == Some(FinalPublicationFailed) && SameIntent(old(row), row))
      ensures s == Ok ==> row != old(row)
    {
      var joined := oneSeg;
      if oneSeg.Some? && oneSeg.value.publish {
        joined := Some(oneSeg.value.(publish := false, reason := FinalPublicationFailed, availability := FilePartial));
      }
      s := Finish(FinishRequest(AttemptState.Failed, FinalPublicationFailed, row.byteCount, FilePartial, false, joined), now);
    }

    /** The transaction that settles the result, before any name is published. */
    method Begin(request: FinalizeRequest, token: nat, now: int) returns (s: Step)
      requires Truthful() && row.state.Recording? && Closed(g, request)
      modifies this`row, this`fates
      ensures Truthful() && s in {Ok, Error, Dead}
      ensures row == old(row) || Some(row) == BeginFinalization(old(row), request, token, now)
      ensures row != old(row) ==>
        row.actualStart == old(row.actualStart) && request.Valid() && row.state.Finalizing? && !row.main.directorySynced && !row.main.finalPublished && row.byteCount == request.byteCount &&
        (g.oneSeg.Some? ==> request.oneSeg.Some? && OneSegBegun(row.oneSeg.value, request.oneSeg.value))
      ensures s == Ok ==> row != old(row)
      ensures s == Dead ==> row == old(row)
      ensures old(Faultless()) ==> Faultless() && (s == Error ==> row == old(row))
      ensures old(Survives()) ==> Survives() && s != Dead
    {
      var next := BeginFinalization(row, request, token, now);
      if next.Some? { BeginFits(g, row, dir, request, token, now); }
      s := Commit(next);
    }

    /** The one-seg file after the main one, then the planned result. */
    method PublishRest(publish: bool, now: int) returns (s: Step)
      requires Truthful() && row.state.Finalizing? && row.main.Finalized() && InPlace(dir, g.main, size, row.byteCount)
      requires row.actualStart.Some? ==> now >= row.actualStart.value
      requires row.oneSeg.Some? ==> OneSegWaits(publish)
      modifies this
      ensures Truthful() && s in {Ok, Error, Dead} && SameIntent(old(row), row)
      ensures row.state.Finalizing? || g.Landed(row, dir)
      ensures s == Ok ==> g.Landed(row, dir)
      ensures old(Faultless() && Hopeful()) && g.oneSeg.value.final !in g.start ==> Hopeful()
    {
      if row.oneSeg.Some? && publish {
        s := LinkOneSeg();
        if s != Ok { return; }
      }
      s := FinishPlanned(false, now);
    }

    /** The one-seg file has not been touched since its result was settled. */
    ghost predicate OneSegWaits(publish: bool)
      reads this
    {
      && row.oneSeg.Some? && g.oneSeg.Some? && row.oneSeg.value.state.SegPartial? && g.Waiting(dir, g.oneSeg.value)
      && if publish then row.oneSeg.value.integrity.None? else row.oneSeg.value.Settled()
    }

    /** `publishFinal` from the settled result on, with `oneSegCoordinator.publish` between the main file
        and the end. */
    method PublishSettled(oneSeg: Option<OneSegResult>, now: int) returns (s: Step)
      requires Truthful() && row.state.Finalizing? && !row.main.directorySynced
      requires g.Waiting(dir, g.main) && row.oneSeg.Some? == oneSeg.Some?
      requires row.actualStart.Some? ==> now >= row.actualStart.value
      requires oneSeg.Some? ==> oneSeg.value.Valid() && OneSegWaits(oneSeg.value.publish)
      modifies this
      ensures Truthful() && SameIntent(old(row), row)
      ensures s == Ok ==> row.state.Failed? || g.Landed(row, dir)
      ensures old(Faultless()) ==> OnCourse() && (s == Ok ==> g.Landed(row, dir))
      ensures old(Faultless() && Hopeful()) && g.oneSeg.value.final !in g.start ==> Hopeful()
    {
      s := LinkMain();
      if s == Ok {
        s := PublishRest(oneSeg.Some? && oneSeg.value.publish, now);
      } else if s == NotSupported {
        s := FinishUnsupported(oneSeg, now);
      }
    }

    /** `publishFinal`: whatever error or crash ends it early leaves the attempt on its course. */
    method Publish(request: FinalizeRequest, token: nat, now: int) returns (s: Step)
      requires Truthful() && row.state.Recording? && Closed(g, request)
      requires row.actualStart.Some? ==> now >= row.actualStart.value
      modifies this
      ensures Truthful() && row.actualStart == old(row.actualStart)
      ensures s == Ok ==> row.state.Failed? || g.Landed(row, dir)
      ensures old(Faultless()) ==> (row == old(row) || OnCourse()) && (s == Ok ==> g.Landed(row, dir))
      ensures old(Faultless()) && row != old(row) && OneSegReady(request) ==> Hopeful()
    {
      s := Begin(request, token, now);
      if s != Ok { return; }
      s := PublishSettled(if row.oneSeg.Some? then request.oneSeg else None, now);
    }

    /** A publication that dies anywhere and the recoveries after it, however often they die: once the
        result is settled, the attempt ends as planned if and only if the final name is free. */
    method PublicationSurvivesCrashes(request: FinalizeRequest, token: nat, schedules: seq<seq<Fate>>, now: int)
      requires Truthful() && row.state.Recording? && Closed(g, request) && Faultless()
      requires row.actualStart.Some? ==> now >= row.actualStart.value
      requires forall i, j | 0 <= i < |schedules| && 0 <= j < |schedules[i]| :: schedules[i][j].Fine? || schedules[i][j].Crash?
      modifies this
      ensures row == old(row) || row.state.Terminal()
      ensures row != old(row) ==>
        if g.Free(g.main) then AsPlanned(row) && g.Moved(dir, g.main) && size(dir[g.main.final]) == request.byteCount
        else row.state.Failed? && row.terminalReason == Some(FileIntegrityMismatch) && g.Waiting(dir, g.main)
      ensures row != old(row) && g.Free(g.main) && OneSegReady(request) ==>
        row.oneSeg.Some? && row.oneSeg.value.Finalized() && g.Moved(dir, g.oneSeg.value)
    {
      var s := Publish(request, token, now);
      if row.state.Recording? { return; }
      CrashesConverge(schedules, now);
    }
  }
}
