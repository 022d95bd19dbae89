/** The occupancy store (BathroomApp/Service/BathroomService.cs): a two-state machine, Free and
    Occupied, over one shared `BathroomStatus`. */
module Service {
  import opened Wrappers
  import opened Models

  /** What an operation of the store returns, and the status it leaves. */
  datatype Attempt = Attempt(ok: bool, status: Snapshot)

  /** `Occupy(userId)` on a status `s`, with `now` the formatted clock reading. */
  function OccupySpec(s: Snapshot, userId: string, now: string): Attempt {
    if s.isOccupied then Attempt(false, s)
    else Attempt(true, Snapshot(true, Some(userId), "none", Some(now)))
  }

  /** `Free(userId)` on a status `s`. */
  function FreeSpec(s: Snapshot, userId: string): Attempt {
    if !s.isOccupied then Attempt(false, s)
    else if s.occupiedBy != Some(userId) then Attempt(false, s)
    else Attempt(true, FreeStatus)
  }

  /** `ForceFree()` on a status `s`. */
  function ForceFreeSpec(s: Snapshot): Attempt {
    Attempt(true, FreeStatus)
  }

  class BathroomService {
    /** `Status`: created once, never replaced; its fields are written in place, here and by
        the controller. */
    const status: BathroomStatus

    ghost predicate Valid()
      reads status
    {
      Consistent(status.Value())
    }

    constructor ()
      ensures Valid() && fresh(status)
      ensures status.Value() == FreeStatus
    {
      var s := new BathroomStatus();
      s.isOccupied := false;
      s.occupiedBy := None;
      status := s;
    }

    method Occupy(userId: string, now: string) returns (ok: bool)
      requires Valid()
      modifies status
      ensures Valid()
      ensures Attempt(ok, status.Value()) == OccupySpec(old(status.Value()), userId, now)
    {
      if status.isOccupied {
        return false;
      }
      status.isOccupied := true;
      status.occupiedBy := Some(userId);
      status.activity := "none";
      status.occupiedSince := Some(now);
      return true;
    }

    method Free(userId: string) returns (ok: bool)
      requires Valid()
      modifies status
      ensures Valid()
      ensures Attempt(ok, status.Value()) == FreeSpec(old(status.Value()), userId)
    {
      if !status.isOccupied {
        return false;
      }
      if status.occupiedBy != Some(userId) {
        return false;
      }
      status.isOccupied := false;
      status.occupiedBy := None;
      status.activity := "none";
      status.occupiedSince := None;
      return true;
    }

    method ForceFree() returns (ok: bool)
      modifies status
      ensures Valid()
      ensures Attempt(ok, status.Value()) == ForceFreeSpec(old(status.Value()))
    {
      status.isOccupied := false;
      status.occupiedBy := None;
      status.activity := "none";
      status.occupiedSince := None;
      return true;
    }
  }

  lemma OccupyRefusedWhenOccupied(s: Snapshot, userId: string, now: string)
    requires s.isOccupied
    ensures OccupySpec(s, userId, now) == Attempt(false, s)
  {
  }

  lemma OccupySucceedsWhenFree(s: Snapshot, userId: string, now: string)
    requires !s.isOccupied
    ensures var r := OccupySpec(s, userId, now);
      r.ok && r.status.isOccupied && r.status.occupiedBy == Some(userId) &&
      r.status.activity == "none" && r.status.occupiedSince.Some?
  {
  }

  lemma FreeOnlyByOccupant(s: Snapshot, userId: string)
    ensures FreeSpec(s, userId).ok <==> s.isOccupied && s.occupiedBy == Some(userId)
    ensures !FreeSpec(s, userId).ok ==> FreeSpec(s, userId).status == s
    ensures FreeSpec(s, userId).ok ==> FreeSpec(s, userId).status == FreeStatus
  {
  }

  lemma ForceFreeAlwaysFrees(s: Snapshot)
    ensures ForceFreeSpec(s).ok && ForceFreeSpec(s).status == FreeStatus
    ensures ForceFreeSpec(ForceFreeSpec(s).status) == ForceFreeSpec(s)
  {
  }

  lemma OperationsPreserveConsistent(s: Snapshot, userId: string, now: string)
    requires Consistent(s)
    ensures Consistent(OccupySpec(s, userId, now).status)
    ensures Consistent(FreeSpec(s, userId).status)
    ensures Consistent(ForceFreeSpec(s).status)
  {
  }

  lemma OccupyThenFreeRestoresFree(s: Snapshot, userId: string, now: string)
    requires !s.isOccupied
    ensures FreeSpec(OccupySpec(s, userId, now).status, userId) == Attempt(true, FreeStatus)
  {
  }
}
