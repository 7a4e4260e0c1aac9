/** States, reasons and requests of one recording, with the validity rules the store applies to a
    request before it looks at any row. */
module RecordingModel {
  import opened Basics

  const USEFUL_BYTES := 188
  const MILLISECONDS_PER_DAY := 86_400_000

  datatype AttemptState =
    | Claimed | Starting | Recording | Finalizing | Succeeded | Partial | Failed | Cancelled | Missed
  {
    predicate Early() { Claimed? || Starting? || Recording? }
    predicate Terminal() { !Early() && !Finalizing? }

    /** States only ever move to a higher rank. */
    function Rank(): nat {
      match this case Claimed => 0 case Starting => 1 case Recording => 2 case Finalizing => 3 case _ => 4
    }
  }

  datatype SegmentState = SegPlanned | SegWriting | SegPartial | SegFinalized
  datatype Availability = FilePlanned | FilePartial | FileFinal | FileMissing | FileMismatched

  datatype Reason =
    | Completed | CompletedAfterReconnect | LateStartExpired | RecordingSlotUnavailable
    | StreamNotFound | StreamUnavailable | StreamTimeout | StreamEndedEarly | StreamCancelled
    | StreamReconnectExhausted | StreamFormatInvalid | FileCreateFailed | FileWriteFailed | FileSyncFailed
    | FinalNameConflict | FinalPublicationFailed | FinalDatabaseFailed | ProcessInterrupted
    | ProcessShutdown | UserRequestedStop | MissingFile | FileIntegrityMismatch
  {
    predicate Successful() { Completed? || CompletedAfterReconnect? }

    /** `IsCommunicationPartialReason`: the lost connections after which a recording is still published. */
    predicate Communication() { StreamEndedEarly? || StreamTimeout? || StreamReconnectExhausted? }
  }

  /** The result a finalization has settled on before any name is published. */
  datatype Plan = Plan(state: AttemptState, reason: Reason)
  {
    predicate Valid(byteCount: int) {
      || (state.Succeeded? && reason.Successful())
      || (state.Partial? && (reason.UserRequestedStop? || (reason.Communication() && byteCount % USEFUL_BYTES == 0)))
    }
  }

  datatype OneSegResult = OneSegResult(
    byteCount: int, availability: Availability, reason: Reason, fileSynced: bool, publish: bool)
  {
    predicate Valid() {
      byteCount >= 0 &&
      if publish then
        && byteCount >= USEFUL_BYTES && availability.FilePartial? && fileSynced
        && (reason.Successful() || reason.UserRequestedStop? ||
            (reason.Communication() && byteCount % USEFUL_BYTES == 0))
      else
        && (availability.FilePartial? || availability.FileMissing? || availability.FileMismatched?)
        && (availability.FileMissing? ==> byteCount == 0)
    }
  }

  datatype FinalizeRequest = FinalizeRequest(byteCount: int, plan: Plan, oneSeg: Option<OneSegResult>)
  {
    predicate Valid() {
      && byteCount >= USEFUL_BYTES && plan.Valid(byteCount)
      && (oneSeg.Some? ==> oneSeg.value.Valid())
    }
  }

  datatype FinishRequest = FinishRequest(
    state: AttemptState, reason: Reason, byteCount: int, availability: Availability, recovered: bool,
    oneSeg: Option<OneSegResult>)
  {
    predicate Valid() {
      && byteCount >= 0 && (oneSeg.Some? ==> oneSeg.value.Valid())
      && match state
         case Succeeded => reason.Successful() && byteCount >= USEFUL_BYTES && availability.FileFinal?
         case Partial =>
           if reason.UserRequestedStop? then byteCount >= USEFUL_BYTES && availability.FileFinal?
           else if availability.FileFinal? && reason.Communication() then
             byteCount >= USEFUL_BYTES && byteCount % USEFUL_BYTES == 0
           else !reason.Successful() && byteCount >= USEFUL_BYTES && availability.FilePartial?
         case Missed => !reason.Successful() && byteCount == 0 && availability.FileMissing?
         case _ =>
           (state.Failed? || state.Cancelled?) && !reason.Successful() &&
           (availability.FilePartial? || availability.FileMissing? || availability.FileMismatched?)
    }

    /** A finish that publishes: it needs a finalization with the same plan behind it. */
    predicate Publishes() {
      || state.Succeeded?
      || (state.Partial? && (reason.UserRequestedStop? || (reason.Communication() && availability.FileFinal?)))
    }
  }
}
