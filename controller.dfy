/** The request handlers (BathroomApp/Controllers/BathroomController.cs). Each runs a guard
    cascade, reports a failure to the caller's group before answering, and on success changes
    the shared status and broadcasts it. */
module Controller {
  import opened Wrappers
  import opened Models
  import opened Notifications
  import opened Service

  /** The HTTP result kinds the handlers return; response bodies and texts are not modelled. */
  datatype Outcome = Ok | Unauthorized | BadRequest | Forbid

  /** Body of an occupy request. */
  datatype BathroomStatusDto = BathroomStatusDto(occupied: bool, activity: string)

  /** `new BathroomStatusDto()`: what a body that names no activity binds to. */
  const DefaultStatusDto := BathroomStatusDto(false, "none")

  /** Body of an activity update. */
  datatype BathroomActivityDto = BathroomActivityDto(activity: string)

  /** The outcome of a request, the status it leaves and what it sent, in order. */
  datatype Response = Response(outcome: Outcome, status: Snapshot, sent: seq<Message>)

  /** `userId ?? "unknown"`: where a failure is reported. */
  function CallerGroup(userId: Option<string>): string {
    match userId
    case None => "unknown"
    case Some(u) => u
  }

  /** A refused request: the status is as before and exactly one error went to the caller. */
  predicate RefusedWith(r: Response, s: Snapshot, userId: Option<string>) {
    r.status == s && |r.sent| == 1 && r.sent[0].ErrorNotification? && r.sent[0].group == CallerGroup(userId)
  }

  function OccupyBathroomSpec(s: Snapshot, userId: Option<string>, dto: BathroomStatusDto, now: string): (r: Response)
    ensures r.outcome == Unauthorized <==> IsNullOrEmpty(userId)
    ensures r.outcome == BadRequest <==> !IsNullOrEmpty(userId) && s.isOccupied
    ensures r.outcome != Forbid
    ensures r.outcome != Ok ==> RefusedWith(r, s, userId)
    ensures r.outcome == Ok ==>
      r.status == Snapshot(true, userId, dto.activity, Some(now)) && r.sent == [StatusUpdate(r.status)]
    ensures Consistent(s) ==> Consistent(r.status)
  {
    if IsNullOrEmpty(userId) then Response(Unauthorized, s, [ErrorNotification(CallerGroup(userId), MissingUserId)])
    else
      var u := userId.value;
      if s.isOccupied then Response(BadRequest, s, [ErrorNotification(u, AlreadyOccupied)])
      else
        var a := OccupySpec(s, u, now);
        if !a.ok then Response(BadRequest, a.status, [ErrorNotification(u, OccupyFailed)])
        else
          var after := a.status.(activity := dto.activity);
          Response(Ok, after, [StatusUpdate(after)])
  }

  function FreeBathroomSpec(s: Snapshot, userId: Option<string>): (r: Response)
    ensures r.outcome == Unauthorized <==> IsNullOrEmpty(userId)
    ensures r.outcome == BadRequest <==> !IsNullOrEmpty(userId) && !s.isOccupied
    ensures r.outcome == Forbid <==> !IsNullOrEmpty(userId) && s.isOccupied && s.occupiedBy != userId
    ensures r.outcome != Ok ==> RefusedWith(r, s, userId)
    ensures r.outcome == Ok ==> r.status == FreeStatus && r.sent == [StatusUpdate(FreeStatus)]
  {
    if IsNullOrEmpty(userId) then Response(Unauthorized, s, [ErrorNotification(CallerGroup(userId), MissingUserId)])
    else
      var u := userId.value;
      if !s.isOccupied then Response(BadRequest, s, [ErrorNotification(u, AlreadyFree)])
      else if s.occupiedBy != Some(u) then Response(Forbid, s, [ErrorNotification(u, OnlyOccupantMayFree)])
      else
        var a := FreeSpec(s, u);
        if !a.ok then Response(BadRequest, a.status, [ErrorNotification(u, FreeFailed)])
        else
          var after := a.status.(activity := "none");
          Response(Ok, after, [StatusUpdate(after)])
  }

  function UpdateBathroomActivitySpec(s: Snapshot, userId: Option<string>, dto: BathroomActivityDto): (r: Response)
    ensures r.outcome == Unauthorized <==> IsNullOrEmpty(userId)
    ensures r.outcome == BadRequest <==> !IsNullOrEmpty(userId) && !s.isOccupied
    ensures r.outcome == Forbid <==> !IsNullOrEmpty(userId) && s.isOccupied && s.occupiedBy != userId
    ensures r.outcome != Ok ==> RefusedWith(r, s, userId)
    ensures r.outcome == Ok ==> r.status == s.(activity := dto.activity) && r.sent == [StatusUpdate(r.status)]
    ensures r.status.isOccupied == s.isOccupied && r.status.occupiedBy == s.occupiedBy &&
            r.status.occupiedSince == s.occupiedSince
  {
    if IsNullOrEmpty(userId) then Response(Unauthorized, s, [ErrorNotification(CallerGroup(userId), MissingUserId)])
    else
      var u := userId.value;
      if !s.isOccupied then Response(BadRequest, s, [ErrorNotification(u, NotOccupied)])
      else if s.occupiedBy != Some(u) then Response(Forbid, s, [ErrorNotification(u, OnlyOccupantMayChangeActivity)])
      else
        var after := s.(activity := dto.activity);
        Response(Ok, after, [StatusUpdate(after)])
  }

  function ForceFreeBathroomSpec(s: Snapshot): (r: Response)
    ensures r == Response(Ok, FreeStatus, [StatusUpdate(FreeStatus)])
  {
    var a := ForceFreeSpec(s);
    if !a.ok then Response(BadRequest, a.status, [])
    else
      var after := a.status.(activity := "none");
      Response(Ok, after, [StatusUpdate(after)])
  }

  class BathroomController {
    const service: BathroomService
    const hub: Hub

    constructor (service: BathroomService, hub: Hub)
      ensures this.service == service && this.hub == hub
    {
      this.service := service;
      this.hub := hub;
    }

    method GetBathroomStatus() returns (outcome: Outcome, status: Snapshot)
      ensures outcome == Ok && status == service.status.Value()
    {
      return Ok, service.status.Value();
    }

    method OccupyBathroom(userId: Option<string>, statusDto: BathroomStatusDto, now: string) returns (outcome: Outcome)
      requires service.Valid()
      modifies service.status, hub
      ensures service.Valid()
      ensures var r := OccupyBathroomSpec(old(service.status.Value()), userId, statusDto, now);
        outcome == r.outcome && service.status.Value() == r.status && hub.log == old(hub.log) + r.sent
    {
      if IsNullOrEmpty(userId) {
        hub.Send(ErrorNotification(CallerGroup(userId), MissingUserId));
        return Unauthorized;
      }
      var u := userId.value;
      if service.status.isOccupied {
        hub.Send(ErrorNotification(u, AlreadyOccupied));
        return BadRequest;
      }
      var result := service.Occupy(u, now);
      if !result {
        // The claim cannot be refused here: nothing runs between the check above and the claim.
        assert false;
      }
      service.status.activity := statusDto.activity;
      hub.Send(StatusUpdate(service.status.Value()));
      return Ok;
    }

    method FreeBathroom(userId: Option<string>) returns (outcome: Outcome)
      requires service.Valid()
      modifies service.status, hub
      ensures service.Valid()
      ensures var r := FreeBathroomSpec(old(service.status.Value()), userId);
        outcome == r.outcome && service.status.Value() == r.status && hub.log == old(hub.log) + r.sent
    {
      if IsNullOrEmpty(userId) {
        hub.Send(ErrorNotification(CallerGroup(userId), MissingUserId));
        return Unauthorized;
      }
      var u := userId.value;
      if !service.status.isOccupied {
        hub.Send(ErrorNotification(u, AlreadyFree));
        return BadRequest;
      }
      if service.status.occupiedBy != Some(u) {
        hub.Send(ErrorNotification(u, OnlyOccupantMayFree));
        return Forbid;
      }
      var result := service.Free(u);
      if !result {
        // The release cannot be refused here: both of its conditions were checked just above.
        assert false;
      }
      service.status.activity := "none";
      hub.Send(StatusUpdate(service.status.Value()));
      return Ok;
    }

    method UpdateBathroomActivity(userId: Option<string>, activityDto: BathroomActivityDto) returns (outcome: Outcome)
      requires service.Valid()
      modifies service.status, hub
      ensures service.Valid()
      ensures var r := UpdateBathroomActivitySpec(old(service.status.Value()), userId, activityDto);
        outcome == r.outcome && service.status.Value() == r.status && hub.log == old(hub.log) + r.sent
    {
      if IsNullOrEmpty(userId) {
        hub.Send(ErrorNotification(CallerGroup(userId), MissingUserId));
        return Unauthorized;
      }
      var u := userId.value;
      if !service.status.isOccupied {
        hub.Send(ErrorNotification(u, NotOccupied));
        return BadRequest;
      }
      if service.status.occupiedBy != Some(u) {
        hub.Send(ErrorNotification(u, OnlyOccupantMayChangeActivity));
        return Forbid;
      }
      service.status.activity := activityDto.activity;
      hub.Send(StatusUpdate(service.status.Value()));
      return Ok;
    }

    method ForceFreeBathroom() returns (outcome: Outcome)
      modifies service.status, hub
      ensures service.Valid()
      ensures var r := ForceFreeBathroomSpec(old(service.status.Value()));
        outcome == r.outcome && service.status.Value() == r.status && hub.log == old(hub.log) + r.sent
    {
      var result := service.ForceFree();
      if !result {
        // ForceFree never refuses.
        assert false;
      }
      service.status.activity := "none";
      hub.Send(StatusUpdate(service.status.Value()));
      return Ok;
    }
  }

  /** An occupy request whose body names no activity leaves the activity "none". */
  lemma OccupyWithDefaultBody(s: Snapshot, userId: Option<string>, now: string)
    requires !IsNullOrEmpty(userId) && !s.isOccupied
    ensures OccupyBathroomSpec(s, userId, DefaultStatusDto, now).outcome == Ok
    ensures OccupyBathroomSpec(s, userId, DefaultStatusDto, now).status.activity == "none"
  {
  }

  /** The activity set by a successful occupy request replaces the "none" the store wrote. */
  lemma OccupyActivityOverridesStore(s: Snapshot, u: string, dto: BathroomStatusDto, now: string)
    requires u != "" && !s.isOccupied
    ensures OccupySpec(s, u, now).status.activity == "none"
    ensures OccupyBathroomSpec(s, Some(u), dto, now).status == OccupySpec(s, u, now).status.(activity := dto.activity)
  {
  }

  /** Every handler keeps the status consistent. */
  lemma HandlersPreserveConsistent(s: Snapshot, userId: Option<string>, sd: BathroomStatusDto,
                                   ad: BathroomActivityDto, now: string)
    requires Consistent(s)
    ensures Consistent(OccupyBathroomSpec(s, userId, sd, now).status)
    ensures Consistent(FreeBathroomSpec(s, userId).status)
    ensures Consistent(UpdateBathroomActivitySpec(s, userId, ad).status)
    ensures Consistent(ForceFreeBathroomSpec(s).status)
  {
  }
}
