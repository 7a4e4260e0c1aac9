/** Planned times of a recording in 64-bit milliseconds: the times a claim stores, and the end a time
    change of the programme gives to a recording already claimed. */
module EndTime {
  import opened Basics
  import opened RecordingModel

  const MAX_INT64 := 0x7FFF_FFFF_FFFF_FFFF
  const TWO_64 := 0x1_0000_0000_0000_0000

  /** Two's-complement wrap-around of a 64-bit result. */
  function Wrap(x: int): int {
    var low := x % TWO_64;
    if low > MAX_INT64 then low - TWO_64 else low
  }

  predicate IsInt64(x: int) { -MAX_INT64 - 1 <= x <= MAX_INT64 }

  lemma WrapInRange(x: int)
    requires IsInt64(x)
    ensures Wrap(x) == x
  {
  }

  datatype Times = Times(start: int, duration: int, startMargin: int, endMargin: int)
  {
    /** What a stored reservation satisfies when it is read back. */
    predicate Readable() {
      && 0 <= start <= MAX_INT64 && 1 <= duration <= 86_400
      && -3_600 <= startMargin <= 3_600 && -3_600 <= endMargin <= 3_600
      && Wrap(start - startMargin * 1_000) >= 0
      && 1 <= duration + startMargin + endMargin <= 86_400
    }
  }

  datatype Planned = Planned(start: int, end: int)

  /** The planned times `ClaimRecording` stores, or its refusal. */
  function ClaimTimes(t: Times): (p: Option<Planned>)
  {
    var plannedStart := Wrap(t.start - t.startMargin * 1_000);
    var end := Wrap(t.start + Wrap((t.duration + t.endMargin) * 1_000));
    if t.start < 0 || t.duration < 1 || plannedStart < 0 || end <= plannedStart ||
       Wrap(end - plannedStart) > MILLISECONDS_PER_DAY then None
    else Some(Planned(plannedStart, end))
  }

  /** `activeFollowEnd`: the end for given programme times, never at or before the attempt's start. */
  function ActiveFollowEnd(startMS: int, durationMS: int, endMargin: int, attemptStart: int): Option<int> {
    if startMS < 0 || durationMS < 1 || attemptStart < 0 || endMargin < -3_600 || endMargin > 3_600 ||
       startMS > MAX_INT64 - durationMS then None
    else
      var end := startMS + durationMS;
      var margin := endMargin * 1_000;
      if (margin > 0 && end > MAX_INT64 - margin) || (margin < 0 && end < -margin) then None
      else if attemptStart == MAX_INT64 then None
      else
        var limited := if end + margin <= attemptStart then attemptStart + 1 else end + margin;
        if limited - attemptStart <= MILLISECONDS_PER_DAY then Some(limited) else None
  }

  /** `validFollowRecordingTime`. */
  predicate ValidFollowTime(startMS: int, duration: int, startMargin: int, endMargin: int) {
    && startMS >= 0 && duration >= 1 && -3_600 <= startMargin <= 3_600 && -3_600 <= endMargin <= 3_600
    && 1 <= duration + startMargin + endMargin <= 86_400
    && if startMargin > 0 then startMS >= startMargin * 1_000 else startMS <= MAX_INT64 + startMargin * 1_000
  }

  /** A refused or accepted claim never comes from a wrapped result: an accepted one is exact. */
  lemma ClaimIsExact(t: Times)
    requires t.Readable() && ClaimTimes(t).Some?
    ensures var p := ClaimTimes(t).value;
      && p.start == t.start - t.startMargin * 1_000
      && p.end == t.start + (t.duration + t.endMargin) * 1_000
      && 0 <= p.start < p.end <= MAX_INT64 && p.end - p.start <= MILLISECONDS_PER_DAY
  {
    WrapInRange((t.duration + t.endMargin) * 1_000);
  }

  /** The end a claim stores is the end the follow arithmetic gives the same times, unless the programme's
      own end lies beyond the 64-bit range. */
  lemma ClaimMatchesFollow(t: Times)
    requires t.Readable() && ClaimTimes(t).Some?
    ensures var p := ClaimTimes(t).value;
      ActiveFollowEnd(t.start, t.duration * 1_000, t.endMargin, p.start) == Some(p.end)
      <==> t.start + t.duration * 1_000 <= MAX_INT64
  {
    ClaimIsExact(t);
  }

  /** A claim the follow arithmetic does not recognise: a programme that ends past the range while its
      negative end margin pulls the recording back into it. */
  lemma ClaimBeyondFollow()
    ensures var t := Times(MAX_INT64 - 1_000, 10, 0, -9);
      t.Readable() && ClaimTimes(t) == Some(Planned(MAX_INT64 - 1_000, MAX_INT64)) &&
      ActiveFollowEnd(t.start, t.duration * 1_000, t.endMargin, MAX_INT64 - 1_000) == None
  {
  }

  /** An end that a follow stores lies within a day after the attempt's start and inside the range. */
  lemma FollowEndInRange(startMS: int, durationMS: int, endMargin: int, attemptStart: int)
    requires ActiveFollowEnd(startMS, durationMS, endMargin, attemptStart).Some? && attemptStart <= MAX_INT64
    ensures var end := ActiveFollowEnd(startMS, durationMS, endMargin, attemptStart).value;
      attemptStart < end <= MAX_INT64 && end - attemptStart <= MILLISECONDS_PER_DAY
  {
  }
}
