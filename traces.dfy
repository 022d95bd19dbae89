/** The controller and the monitor working on the one shared status, one request or one monitor
    pass at a time. */
module Traces {
  import opened Wrappers
  import opened Models
  import opened Notifications
  import opened Service
  import opened Monitor
  import opened Controller

  /** The shared status and the monitor's private `_lastNotifiedThreshold`. */
  datatype World = World(status: Snapshot, last: Option<int>)

  datatype Event =
    | OccupyRequest(userId: Option<string>, statusDto: BathroomStatusDto, now: string)
    | FreeRequest(userId: Option<string>)
    | ActivityRequest(userId: Option<string>, activityDto: BathroomActivityDto)
    | ForceFreeRequest
    | MonitorPass(elapsed: int)  // `DateTime.UtcNow - OccupiedSince`, in ticks

  datatype Trace = Trace(world: World, sent: seq<Message>)

  const Start := World(FreeStatus, None)

  function StepSpec(cfg: Thresholds, w: World, e: Event): (t: Trace)
    requires Consistent(w.status)
    ensures Consistent(t.world.status)
    ensures !e.MonitorPass? ==> t.world.last == w.last
  {
    match e
    case OccupyRequest(userId, dto, now) =>
      var r := OccupyBathroomSpec(w.status, userId, dto, now); Trace(World(r.status, w.last), r.sent)
    case FreeRequest(userId) =>
      var r := FreeBathroomSpec(w.status, userId); Trace(World(r.status, w.last), r.sent)
    case ActivityRequest(userId, dto) =>
      var r := UpdateBathroomActivitySpec(w.status, userId, dto); Trace(World(r.status, w.last), r.sent)
    case ForceFreeRequest =>
      var r := ForceFreeBathroomSpec(w.status); Trace(World(r.status, w.last), r.sent)
    case MonitorPass(elapsed) =>
      var r := TickSpec(cfg, w.last, w.status, MinutesComponent(elapsed)); Trace(World(r.status, r.last), r.sent)
  }

  /** Events in order; every message sent, in order. */
  function Run(cfg: Thresholds, w: World, events: seq<Event>): (t: Trace)
    requires Consistent(w.status)
    ensures Consistent(t.world.status)
    decreases |events|
  {
    if events == [] then Trace(w, [])
    else
      var first := StepSpec(cfg, w, events[0]);
      var rest := Run(cfg, first.world, events[1..]);
      Trace(rest.world, first.sent + rest.sent)
  }

  /** One event, then the rest of the run. */
  lemma RunStep(cfg: Thresholds, w: World, events: seq<Event>, first: Trace, rest: seq<Event>, tail: Trace)
    requires Consistent(w.status) && events != []
    requires StepSpec(cfg, w, events[0]) == first && events[1..] == rest
    requires Run(cfg, first.world, rest) == tail
    ensures Run(cfg, w, events) == Trace(tail.world, first.sent + tail.sent)
  {
  }

  /** A run of monitor passes alone is the monitor's own run over the minutes they read. */
  lemma {:induction false} PassesAloneAreTicks(cfg: Thresholds, w: World, elapsed: seq<int>)
    requires Consistent(w.status)
    ensures var events := seq(|elapsed|, i requires 0 <= i < |elapsed| => MonitorPass(elapsed[i]));
      var minutes := seq(|elapsed|, i requires 0 <= i < |elapsed| => MinutesComponent(elapsed[i]));
      var t := Run(cfg, w, events);
      var m := RunTicks(cfg, w.last, w.status, minutes);
      t.world == World(m.status, m.last) && t.sent == m.sent
    decreases |elapsed|
  {
    var events := seq(|elapsed|, i requires 0 <= i < |elapsed| => MonitorPass(elapsed[i]));
    var minutes := seq(|elapsed|, i requires 0 <= i < |elapsed| => MinutesComponent(elapsed[i]));
    if elapsed != [] {
      var first := StepSpec(cfg, w, events[0]);
      PassesAloneAreTicks(cfg, first.world, elapsed[1..]);
      assert events[1..] == seq(|elapsed[1..]|, i requires 0 <= i < |elapsed[1..]| => MonitorPass(elapsed[1..][i]));
      assert minutes[1..] == seq(|elapsed[1..]|, i requires 0 <= i < |elapsed[1..]| => MinutesComponent(elapsed[1..][i]));
    }
  }

  function Minutes(n: nat): int {
    n * TicksPerMinute
  }

  lemma MinutesOfPasses()
    ensures MinutesComponent(0) == 0
    ensures forall n | n in {9, 10, 20, 25, 31} :: MinutesComponent(Minutes(n)) == n
  {
    forall n | n in {9, 10, 20, 25, 31} ensures MinutesComponent(Minutes(n)) == n {
      MinutesComponentOfWholeMinutes(n, 0);
    }
  }

  function Occupant(u: string, since: string): Snapshot {
    Snapshot(true, Some(u), "none", Some(since))
  }

  /** With the default thresholds: alice is reminded at 10, 20 and 25 minutes with rising
      urgency, once each, and at 31 minutes the bathroom is freed and the free status
      broadcast. */
  lemma DefaultEpisode()
    ensures Run(DefaultThresholds, Start,
                [OccupyRequest(Some("alice"), DefaultStatusDto, "T0"), MonitorPass(Minutes(9)), MonitorPass(Minutes(10)), MonitorPass(Minutes(10)), MonitorPass(Minutes(20)), MonitorPass(Minutes(25)), MonitorPass(Minutes(31))]) ==
            Trace(Start,
              [StatusUpdate(Occupant("alice", "T0")), Reminder("alice", OccupiedFor(10, None), Normal, "alice"), Reminder("alice", OccupiedFor(20, None), Strong, "alice"), Reminder("alice", OccupiedFor(25, Some(5)), VeryStrong, "alice"), StatusUpdate(FreeStatus)])
  {
    var cfg := DefaultThresholds;
    MinutesOfPasses();
    var a := Occupant("alice", "T0");
    var e6 := [MonitorPass(Minutes(31))];
    var e5 := [MonitorPass(Minutes(25))] + e6;
    var e4 := [MonitorPass(Minutes(20))] + e5;
    var e3 := [MonitorPass(Minutes(10))] + e4;
    var e2 := [MonitorPass(Minutes(10))] + e3;
    var e1 := [MonitorPass(Minutes(9))] + e2;
    var e0 := [OccupyRequest(Some("alice"), DefaultStatusDto, "T0")] + e1;
    var t7 := Trace(Start, []);
    RunStep(cfg, World(a, Some(25)), e6, Trace(Start, [StatusUpdate(FreeStatus)]), [], t7);
    var t6 := Trace(Start, [StatusUpdate(FreeStatus)] + t7.sent);
    RunStep(cfg, World(a, Some(20)), e5, Trace(World(a, Some(25)), [Reminder("alice", OccupiedFor(25, Some(5)), VeryStrong, "alice")]), e6, t6);
    var t5 := Trace(Start, [Reminder("alice", OccupiedFor(25, Some(5)), VeryStrong, "alice")] + t6.sent);
    RunStep(cfg, World(a, Some(10)), e4, Trace(World(a, Some(20)), [Reminder("alice", OccupiedFor(20, None), Strong, "alice")]), e5, t5);
    var t4 := Trace(Start, [Reminder("alice", OccupiedFor(20, None), Strong, "alice")] + t5.sent);
    RunStep(cfg, World(a, Some(10)), e3, Trace(World(a, Some(10)), []), e4, t4);
    var t3 := Trace(Start, [] + t4.sent);
    RunStep(cfg, World(a, None), e2, Trace(World(a, Some(10)), [Reminder("alice", OccupiedFor(10, None), Normal, "alice")]), e3, t3);
    var t2 := Trace(Start, [Reminder("alice", OccupiedFor(10, None), Normal, "alice")] + t3.sent);
    RunStep(cfg, World(a, None), e1, Trace(World(a, None), []), e2, t2);
    var t1 := Trace(Start, [] + t2.sent);
    RunStep(cfg, Start, e0, Trace(World(a, None), [StatusUpdate(a)]), e1, t1);
    assert e0 == [OccupyRequest(Some("alice"), DefaultStatusDto, "T0"), MonitorPass(Minutes(9)), MonitorPass(Minutes(10)), MonitorPass(Minutes(10)), MonitorPass(Minutes(20)), MonitorPass(Minutes(25)), MonitorPass(Minutes(31))];
  }

  /** The announced threshold is forgotten only when a pass sees the bathroom free. When bob
      occupies it after alice has released it and before the next pass, the threshold
      announced to alice still stands: bob is not reminded at 10 or 20 minutes, only at 25. */
  lemma ThresholdCarriesOverWithoutAFreePass()
    ensures Run(DefaultThresholds, Start,
                [OccupyRequest(Some("alice"), DefaultStatusDto, "T0"), MonitorPass(Minutes(20)), FreeRequest(Some("alice")), OccupyRequest(Some("bob"), DefaultStatusDto, "T1"), MonitorPass(Minutes(10)), MonitorPass(Minutes(20)), MonitorPass(Minutes(25))]) ==
            Trace(World(Occupant("bob", "T1"), Some(25)),
              [StatusUpdate(Occupant("alice", "T0")), Reminder("alice", OccupiedFor(20, None), Strong, "alice"), StatusUpdate(FreeStatus), StatusUpdate(Occupant("bob", "T1")), Reminder("bob", OccupiedFor(25, Some(5)), VeryStrong, "bob")])
  {
    var cfg := DefaultThresholds;
    MinutesOfPasses();
    var a := Occupant("alice", "T0");
    var b := Occupant("bob", "T1");
    var e6 := [MonitorPass(Minutes(25))];
    var e5 := [MonitorPass(Minutes(20))] + e6;
    var e4 := [MonitorPass(Minutes(10))] + e5;
    var e3 := [OccupyRequest(Some("bob"), DefaultStatusDto, "T1")] + e4;
    var e2 := [FreeRequest(Some("alice"))] + e3;
    var e1 := [MonitorPass(Minutes(20))] + e2;
    var e0 := [OccupyRequest(Some("alice"), DefaultStatusDto, "T0")] + e1;
    var t7 := Trace(World(b, Some(25)), []);
    RunStep(cfg, World(b, Some(20)), e6, Trace(World(b, Some(25)), [Reminder("bob", OccupiedFor(25, Some(5)), VeryStrong, "bob")]), [], t7);
    var t6 := Trace(World(b, Some(25)), [Reminder("bob", OccupiedFor(25, Some(5)), VeryStrong, "bob")] + t7.sent);
    RunStep(cfg, World(b, Some(20)), e5, Trace(World(b, Some(20)), []), e6, t6);
    var t5 := Trace(World(b, Some(25)), [] + t6.sent);
    RunStep(cfg, World(b, Some(20)), e4, Trace(World(b, Some(20)), []), e5, t5);
    var t4 := Trace(World(b, Some(25)), [] + t5.sent);
    RunStep(cfg, World(FreeStatus, Some(20)), e3, Trace(World(b, Some(20)), [StatusUpdate(b)]), e4, t4);
    var t3 := Trace(World(b, Some(25)), [StatusUpdate(b)] + t4.sent);
    RunStep(cfg, World(a, Some(20)), e2, Trace(World(FreeStatus, Some(20)), [StatusUpdate(FreeStatus)]), e3, t3);
    var t2 := Trace(World(b, Some(25)), [StatusUpdate(FreeStatus)] + t3.sent);
    RunStep(cfg, World(a, None), e1, Trace(World(a, Some(20)), [Reminder("alice", OccupiedFor(20, None), Strong, "alice")]), e2, t2);
    var t1 := Trace(World(b, Some(25)), [Reminder("alice", OccupiedFor(20, None), Strong, "alice")] + t2.sent);
    RunStep(cfg, Start, e0, Trace(World(a, None), [StatusUpdate(a)]), e1, t1);
    assert e0 == [OccupyRequest(Some("alice"), DefaultStatusDto, "T0"), MonitorPass(Minutes(20)), FreeRequest(Some("alice")), OccupyRequest(Some("bob"), DefaultStatusDto, "T1"), MonitorPass(Minutes(10)), MonitorPass(Minutes(20)), MonitorPass(Minutes(25))];
  }

  /** With a pass between the release and the next claim, the next occupant is reminded
      from the first threshold again. */
  lemma FreePassStartsAfresh()
    ensures Run(DefaultThresholds, Start,
                [OccupyRequest(Some("alice"), DefaultStatusDto, "T0"), MonitorPass(Minutes(20)), FreeRequest(Some("alice")), MonitorPass(0), OccupyRequest(Some("bob"), DefaultStatusDto, "T1"), MonitorPass(Minutes(10))]) ==
            Trace(World(Occupant("bob", "T1"), Some(10)),
              [StatusUpdate(Occupant("alice", "T0")), Reminder("alice", OccupiedFor(20, None), Strong, "alice"), StatusUpdate(FreeStatus), StatusUpdate(Occupant("bob", "T1")), Reminder("bob", OccupiedFor(10, None), Normal, "bob")])
  {
    var cfg := DefaultThresholds;
    MinutesOfPasses();
    var a := Occupant("alice", "T0");
    var b := Occupant("bob", "T1");
    var e5 := [MonitorPass(Minutes(10))];
    var e4 := [OccupyRequest(Some("bob"), DefaultStatusDto, "T1")] + e5;
    var e3 := [MonitorPass(0)] + e4;
    var e2 := [FreeRequest(Some("alice"))] + e3;
    var e1 := [MonitorPass(Minutes(20))] + e2;
    var e0 := [OccupyRequest(Some("alice"), DefaultStatusDto, "T0")] + e1;
    var t6 := Trace(World(b, Some(10)), []);
    RunStep(cfg, World(b, None), e5, Trace(World(b, Some(10)), [Reminder("bob", OccupiedFor(10, None), Normal, "bob")]), [], t6);
    var t5 := Trace(World(b, Some(10)), [Reminder("bob", OccupiedFor(10, None), Normal, "bob")] + t6.sent);
    RunStep(cfg, Start, e4, Trace(World(b, None), [StatusUpdate(b)]), e5, t5);
    var t4 := Trace(World(b, Some(10)), [StatusUpdate(b)] + t5.sent);
    RunStep(cfg, World(FreeStatus, Some(20)), e3, Trace(Start, []), e4, t4);
    var t3 := Trace(World(b, Some(10)), [] + t4.sent);
    RunStep(cfg, World(a, Some(20)), e2, Trace(World(FreeStatus, Some(20)), [StatusUpdate(FreeStatus)]), e3, t3);
    var t2 := Trace(World(b, Some(10)), [StatusUpdate(FreeStatus)] + t3.sent);
    RunStep(cfg, World(a, None), e1, Trace(World(a, Some(20)), [Reminder("alice", OccupiedFor(20, None), Strong, "alice")]), e2, t2);
    var t1 := Trace(World(b, Some(10)), [Reminder("alice", OccupiedFor(20, None), Strong, "alice")] + t2.sent);
    RunStep(cfg, Start, e0, Trace(World(a, None), [StatusUpdate(a)]), e1, t1);
    assert e0 == [OccupyRequest(Some("alice"), DefaultStatusDto, "T0"), MonitorPass(Minutes(20)), FreeRequest(Some("alice")), MonitorPass(0), OccupyRequest(Some("bob"), DefaultStatusDto, "T1"), MonitorPass(Minutes(10))];
  }

  // ---- One occupancy episode ----

  /** Every occupy request in the run finds the bathroom occupied and is refused: the run stays
      within one occupancy episode, while any other request may arrive between the passes. */
  predicate OneEpisode(cfg: Thresholds, w: World, events: seq<Event>)
    requires Consistent(w.status)
    decreases |events|
  {
    events == [] ||
    ((events[0].OccupyRequest? ==> w.status.isOccupied) &&
     OneEpisode(cfg, StepSpec(cfg, w, events[0]).world, events[1..]))
  }

  /** A request of the episode announces no threshold, leaves the monitor's threshold alone and
      never makes an unwatched status watched. */
  lemma RequestAnnouncesNothing(cfg: Thresholds, w: World, e: Event)
    requires Consistent(w.status) && !e.MonitorPass?
    requires e.OccupyRequest? ==> w.status.isOccupied
    ensures var t := StepSpec(cfg, w, e);
      Announced(t.sent) == [] && t.world.last == w.last &&
      (Watching(t.world.status) ==> Watching(w.status))
  {
    var t := StepSpec(cfg, w, e);
    assert |t.sent| == 1 && !t.sent[0].Reminder?;
    assert Announced(t.sent) == [] + Announced(t.sent[1..]);
  }

  /** Once the status is unwatched, the rest of the episode announces nothing. */
  lemma {:induction false} UnwatchedEpisodeIsSilent(cfg: Thresholds, w: World, events: seq<Event>)
    requires Consistent(w.status) && !Watching(w.status) && OneEpisode(cfg, w, events)
    ensures Announced(Run(cfg, w, events).sent) == []
    decreases |events|
  {
    if events != [] {
      var first := StepSpec(cfg, w, events[0]);
      if events[0].MonitorPass? {
        TickWhenNotWatchedResets(cfg, w.last, w.status, MinutesComponent(events[0].elapsed));
      } else {
        RequestAnnouncesNothing(cfg, w, events[0]);
      }
      UnwatchedEpisodeIsSilent(cfg, first.world, events[1..]);
      AnnouncedAppend(first.sent, Run(cfg, first.world, events[1..]).sent);
    }
  }

  /** What one event of an episode adds to the announced thresholds: nothing, keeping the
      threshold or leaving the status unwatched; or one new threshold, which becomes the
      announced one. */
  lemma StepAnnouncement(cfg: Thresholds, w: World, e: Event)
    requires Consistent(w.status) && (e.OccupyRequest? ==> w.status.isOccupied)
    ensures var t := StepSpec(cfg, w, e);
      var xs := Announced(t.sent);
      (xs == [] && (t.world.last == w.last || !Watching(t.world.status))) ||
      (|xs| == 1 && t.world.last == Some(xs[0]) && NotYetAnnounced(w.last, xs[0]) &&
       xs[0] in {cfg.first, cfg.second, cfg.third})
  {
    if e.MonitorPass? {
      TickAnnouncement(cfg, w.last, w.status, MinutesComponent(e.elapsed));
    } else {
      RequestAnnouncesNothing(cfg, w, e);
    }
  }

  /** Announcing nothing, or one new threshold, in front of an escalation that starts from the
      resulting threshold still escalates. */
  lemma PrependAnnouncement(last: Option<int>, head: seq<int>, next: Option<int>, tail: seq<int>, values: set<int>)
    requires (head == [] && next == last) ||
             (|head| == 1 && next == Some(head[0]) && NotYetAnnounced(last, head[0]) && head[0] in values)
    requires StrictlyIncreasing(tail)
    requires forall i | 0 <= i < |tail| :: NotYetAnnounced(next, tail[i]) && tail[i] in values
    ensures var xs := head + tail;
      StrictlyIncreasing(xs) &&
      (forall i | 0 <= i < |xs| :: NotYetAnnounced(last, xs[i]) && xs[i] in values)
  {
    if head != [] {
      var xs := head + tail;
      forall i | 1 <= i < |xs|
        ensures xs[0] < xs[i] && NotYetAnnounced(last, xs[i])
      {
        assert xs[i] == tail[i - 1];
      }
    }
  }

  /** Escalation without repeats over a whole episode, with requests interleaved between the
      passes: the announced thresholds strictly increase, all lie above the one announced
      before, and each is one of the first three thresholds. */
  lemma {:induction false} EpisodeEscalatesWithoutRepeats(cfg: Thresholds, w: World, events: seq<Event>)
    requires Consistent(w.status) && OneEpisode(cfg, w, events)
    ensures var xs := Announced(Run(cfg, w, events).sent);
      StrictlyIncreasing(xs) &&
      (forall i | 0 <= i < |xs| :: NotYetAnnounced(w.last, xs[i]) && xs[i] in {cfg.first, cfg.second, cfg.third})
    decreases |events|
  {
    if events != [] {
      var first := StepSpec(cfg, w, events[0]);
      var rest := Run(cfg, first.world, events[1..]);
      AnnouncedAppend(first.sent, rest.sent);
      StepAnnouncement(cfg, w, events[0]);
      var head, tail := Announced(first.sent), Announced(rest.sent);
      var values := {cfg.first, cfg.second, cfg.third};
      if !Watching(first.world.status) {
        UnwatchedEpisodeIsSilent(cfg, first.world, events[1..]);
        PrependAnnouncement(w.last, head, if head == [] then w.last else first.world.last, [], values);
      } else {
        EpisodeEscalatesWithoutRepeats(cfg, first.world, events[1..]);
        PrependAnnouncement(w.last, head, first.world.last, tail, values);
      }
    }
  }

  /** However requests and passes interleave, an episode brings at most three reminders. */
  lemma EpisodeAtMostThreeReminders(cfg: Thresholds, w: World, events: seq<Event>)
    requires Consistent(w.status) && OneEpisode(cfg, w, events)
    ensures |Announced(Run(cfg, w, events).sent)| <= 3
  {
    EpisodeEscalatesWithoutRepeats(cfg, w, events);
    var three := {cfg.first, cfg.second, cfg.third};
    assert |{cfg.first, cfg.second}| <= 2;
    assert |three| <= 3;
    IncreasingWithin(Announced(Run(cfg, w, events).sent), three);
  }

  // ---- Requests alone ----

  /** Without monitor passes, requests never send a reminder and never change the monitor's
      threshold, whatever they are and in whatever order they come. */
  lemma {:induction false} RequestsAloneNeverRemind(cfg: Thresholds, w: World, events: seq<Event>)
    requires Consistent(w.status)
    requires forall i | 0 <= i < |events| :: !events[i].MonitorPass?
    ensures forall m | m in Run(cfg, w, events).sent :: !m.Reminder?
    ensures Run(cfg, w, events).world.last == w.last
    decreases |events|
  {
    if events != [] {
      var first := StepSpec(cfg, w, events[0]);
      assert |first.sent| == 1 && !first.sent[0].Reminder?;
      RequestsAloneNeverRemind(cfg, first.world, events[1..]);
    }
  }
}
