/** The shared occupancy record (BathroomApp/Models/BathroomStatus.cs). */
module Models {
  import opened Wrappers

  /** The value of the four fields of a `BathroomStatus` at one moment: what a status broadcast
      carries and what the specification functions of the other modules work on. */
  datatype Snapshot = Snapshot(
    isOccupied: bool,
    occupiedBy: Option<string>,
    activity: string,               // "none", "peeing" or "pooping" by convention; not enforced
    occupiedSince: Option<string>)  // an ISO-8601 instant, kept opaque

  /** The free representation: the initial status and what every release leaves behind. */
  const FreeStatus := Snapshot(false, None, "none", None)

  /** Occupied exactly when there is an occupant and exactly when there is a start time. */
  predicate Consistent(s: Snapshot) {
    s.isOccupied == s.occupiedBy.Some? && s.isOccupied == s.occupiedSince.Some?
  }

  /** The mutable record itself: four settable properties, no logic of its own. */
  class BathroomStatus {
    var isOccupied: bool
    var occupiedBy: Option<string>
    var activity: string
    var occupiedSince: Option<string>

    /** `new BathroomStatus()`: every property at its declared default. */
    constructor ()
      ensures Value() == FreeStatus
    {
      isOccupied := false;
      occupiedBy := None;
      activity := "none";
      occupiedSince := None;
    }

    function Value(): Snapshot
      reads this
    {
      Snapshot(isOccupied, occupiedBy, activity, occupiedSince)
    }
  }

  lemma FreeStatusIsConsistent()
    ensures Consistent(FreeStatus) && !FreeStatus.isOccupied && FreeStatus.activity == "none"
  {
  }
}
