/** Outcomes shared by every component: the errors the Go code returns, as values. */
module Results {

  datatype Option<+T> = None | Some(value: T)

  datatype Error =
    | UnitNotFound
    | LockedOut
    | TargetOutOfRange
    | DischargeOutOfRange
    | UnknownAction
    | NoHealthyUnit
    | NoRunningUnit
    | OverVibration
    | CountMismatch
    | NoStore
    | StoreFailed
    | GroupNotFound
    | StationMismatch
    | PositionOutOfRange
    | ValveNotFound
    | ProtectionEngaged
    | NoZone
    | QuotaExceeded
    | NotFound
    | DecodeFailed
    | NoReadings
    | NegativeDelta
    | UnsupportedDirection

  datatype Result<+T> = Ok(value: T) | Err(error: Error)

  /** A call that only succeeds or fails. */
  type Outcome = Result<()>

  const Done: Outcome := Ok(())
}
