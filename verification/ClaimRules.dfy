/**
 The decision both diskmaker controllers take after asking for a device's creation lock.
 */
module ClaimRules {

  datatype Controller = LocalVolume | LocalVolumeSet

  datatype Decision = AlreadyOurs | Refuse | Proceed

  // `existing` is what the scan of the storage root found; a failed scan reports nothing.
  // Only the LocalVolume controller refuses when the scan failed.
  function Decide<T(==)>(who: Controller, locked: bool, scanOk: bool, existing: set<T>, target: T): Decision {
    if scanOk && existing != {} then
      if target in existing then AlreadyOurs else Refuse
    else if !locked then Refuse
    else if who == LocalVolume && !scanOk then Refuse
    else Proceed
  }
}
