/** The background monitor (BathroomApp/Service/BathroomMonitorService.cs): threshold defaulting
    and one pass of its polling loop, which reminds the occupant at escalating thresholds and frees
    the bathroom at the final one. */
module Monitor {
  import opened Wrappers
  import opened Models
  import opened Notifications
  import opened Service

  /** `TimeSpan` ticks (100 ns) in one minute. */
  const TicksPerMinute := 600_000_000

  /** `TimeSpan.Minutes` of a span of `elapsed` ticks: whole minutes with C#'s truncating
      division, then the remainder modulo 60 that truncates too. */
  function MinutesComponent(elapsed: int): (m: int)
    ensures -60 < m < 60
    ensures elapsed >= 0 ==> m >= 0
    ensures elapsed <= 0 ==> m <= 0
  {
    if elapsed >= 0 then (elapsed / TicksPerMinute) % 60
    else -((-elapsed / TicksPerMinute) % 60)
  }

  /** The component starts again from zero every hour. */
  lemma MinutesComponentWrapsHourly(elapsed: int)
    requires elapsed >= 0
    ensures MinutesComponent(elapsed + 60 * TicksPerMinute) == MinutesComponent(elapsed)
  {
    var q := elapsed / TicksPerMinute;
    assert elapsed + 60 * TicksPerMinute == (q + 60) * TicksPerMinute + elapsed % TicksPerMinute;
    assert (elapsed + 60 * TicksPerMinute) / TicksPerMinute == q + 60;
  }

  /** After `n` whole minutes of occupation the loop reads `n % 60`, not `n`. */
  lemma MinutesComponentOfWholeMinutes(n: nat, seconds: nat)
    requires seconds < 60
    ensures MinutesComponent(n * TicksPerMinute + seconds * 10_000_000) == n % 60
  {
    var e := n * TicksPerMinute + seconds * 10_000_000;
    assert 0 <= seconds * 10_000_000 < TicksPerMinute;
    assert e / TicksPerMinute == n;
  }

  /** The four thresholds, in minutes. */
  datatype Thresholds = Thresholds(first: int, second: int, third: int, final: int)

  const DefaultThresholds := Thresholds(10, 20, 25, 30)

  /** A configured threshold when it is positive, the built-in one otherwise. */
  function OrDefault(configured: int, fallback: int): (t: int)
    requires fallback > 0
    ensures t > 0
    ensures configured > 0 ==> t == configured
    ensures configured <= 0 ==> t == fallback
  {
    if configured > 0 then configured else fallback
  }

  function Configure(first: int, second: int, third: int, final: int): (t: Thresholds)
    ensures t.first > 0 && t.second > 0 && t.third > 0 && t.final > 0
    ensures first > 0 ==> t.first == first
    ensures second > 0 ==> t.second == second
    ensures third > 0 ==> t.third == third
    ensures final > 0 ==> t.final == final
    ensures first <= 0 ==> t.first == 10
    ensures second <= 0 ==> t.second == 20
    ensures third <= 0 ==> t.third == 25
    ensures final <= 0 ==> t.final == 30
  {
    Thresholds(
      OrDefault(first, DefaultThresholds.first),
      OrDefault(second, DefaultThresholds.second),
      OrDefault(third, DefaultThresholds.third),
      OrDefault(final, DefaultThresholds.final))
  }

  /** The loop looks at the clock only while this holds. */
  predicate Watching(s: Snapshot) {
    s.isOccupied && !IsNullOrEmpty(s.occupiedSince)
  }

  /** `_lastNotifiedThreshold == null || _lastNotifiedThreshold < t` */
  predicate NotYetAnnounced(last: Option<int>, t: int) {
    last.None? || last.value < t
  }

  /** The targeted message sent after an automatic release, addressed to whoever the status
      names as occupant at that moment. */
  function AutoReleaseNotice(occupant: Option<string>, final: int): seq<Message> {
    if IsNullOrEmpty(occupant) then []
    else [Reminder(occupant.value, AutoReleasedAfter(final), VeryStrong, occupant.value)]
  }

  /** The "released in M minutes" part of the third reminder, present when M is positive. */
  function ReleaseIn(cfg: Thresholds): Option<int> {
    if cfg.final - cfg.third > 0 then Some(cfg.final - cfg.third) else None
  }

  datatype TickResult = TickResult(last: Option<int>, status: Snapshot, sent: seq<Message>)

  /** One pass of the loop: the new `_lastNotifiedThreshold`, the new status and what was sent. */
  function TickSpec(cfg: Thresholds, last: Option<int>, s: Snapshot, elapsedMinutes: int): (r: TickResult)
    requires Consistent(s)
    ensures Consistent(r.status)
    ensures |r.sent| <= 1
  {
    if !Watching(s) then TickResult(None, s, [])
    else if elapsedMinutes >= cfg.final then
      var freed := ForceFreeSpec(s).status;
      TickResult(None, freed, [StatusUpdate(freed)] + AutoReleaseNotice(freed.occupiedBy, cfg.final))
    else
      var occupant := s.occupiedBy.value;
      if elapsedMinutes >= cfg.third && NotYetAnnounced(last, cfg.third) then
        TickResult(Some(cfg.third), s, [Reminder(occupant, OccupiedFor(cfg.third, ReleaseIn(cfg)), VeryStrong, occupant)])
      else if elapsedMinutes >= cfg.second && NotYetAnnounced(last, cfg.second) then
        TickResult(Some(cfg.second), s, [Reminder(occupant, OccupiedFor(cfg.second, None), Strong, occupant)])
      else if elapsedMinutes >= cfg.first && NotYetAnnounced(last, cfg.first) then
        TickResult(Some(cfg.first), s, [Reminder(occupant, OccupiedFor(cfg.first, None), Normal, occupant)])
      else
        TickResult(last, s, [])
  }

  class BathroomMonitor {
    const service: BathroomService
    const hub: Hub
    const firstAlert: int
    const secondAlert: int
    const thirdAlert: int
    const finalAlert: int
    var lastNotifiedThreshold: Option<int>

    function Config(): Thresholds {
      Thresholds(firstAlert, secondAlert, thirdAlert, finalAlert)
    }

    /** The four arguments are the raw configured values, 0 when absent. */
    constructor (service: BathroomService, hub: Hub,
                 configuredFirst: int, configuredSecond: int, configuredThird: int, configuredFinal: int)
      ensures this.service == service && this.hub == hub
      ensures Config() == Configure(configuredFirst, configuredSecond, configuredThird, configuredFinal)
      ensures lastNotifiedThreshold == None
    {
      this.service := service;
      this.hub := hub;
      firstAlert := OrDefault(configuredFirst, DefaultThresholds.first);
      secondAlert := OrDefault(configuredSecond, DefaultThresholds.second);
      thirdAlert := OrDefault(configuredThird, DefaultThresholds.third);
      finalAlert := OrDefault(configuredFinal, DefaultThresholds.final);
      lastNotifiedThreshold := None;
    }

    method NotifyAutoRelease(occupant: Option<string>)
      modifies hub
      ensures hub.log == old(hub.log) + AutoReleaseNotice(occupant, finalAlert)
    {
      if !IsNullOrEmpty(occupant) {
        hub.Send(Reminder(occupant.value, AutoReleasedAfter(finalAlert), VeryStrong, occupant.value));
      }
    }

    /** One pass of the body of the `ExecuteAsync` loop. `elapsed` is `DateTime.UtcNow` minus the
        parsed `OccupiedSince`, in ticks; it is looked at only while the status is watched. */
    method Tick(elapsed: int)
      requires service.Valid()
      modifies this`lastNotifiedThreshold, service.status, hub
      ensures service.Valid()
      ensures var r := TickSpec(Config(), old(lastNotifiedThreshold), old(service.status.Value()),
                                MinutesComponent(elapsed));
        lastNotifiedThreshold == r.last && service.status.Value() == r.status &&
        hub.log == old(hub.log) + r.sent
    {
      if service.status.isOccupied && !IsNullOrEmpty(service.status.occupiedSince) {
        var elapsedMinutes := MinutesComponent(elapsed);
        if elapsedMinutes >= finalAlert {
          var _ := service.ForceFree();
          hub.Send(StatusUpdate(service.status.Value()));
          NotifyAutoRelease(service.status.occupiedBy);
          lastNotifiedThreshold := None;
        } else {
          var occupant := service.status.occupiedBy.value;
          if elapsedMinutes >= thirdAlert && NotYetAnnounced(lastNotifiedThreshold, thirdAlert) {
            var minutesLeft := finalAlert - thirdAlert;
            var releaseIn := if minutesLeft > 0 then Some(minutesLeft) else None;
            hub.Send(Reminder(occupant, OccupiedFor(thirdAlert, releaseIn), VeryStrong, occupant));
            lastNotifiedThreshold := Some(thirdAlert);
          } else if elapsedMinutes >= secondAlert && NotYetAnnounced(lastNotifiedThreshold, secondAlert) {
            hub.Send(Reminder(occupant, OccupiedFor(secondAlert, None), Strong, occupant));
            lastNotifiedThreshold := Some(secondAlert);
          } else if elapsedMinutes >= firstAlert && NotYetAnnounced(lastNotifiedThreshold, firstAlert) {
            hub.Send(Reminder(occupant, OccupiedFor(firstAlert, None), Normal, occupant));
            lastNotifiedThreshold := Some(firstAlert);
          }
        }
      } else {
        lastNotifiedThreshold := None;
      }
    }
  }

  // ---- One pass ----

  /** A free bathroom, or one without a start time, is not watched: nothing is sent, the status
      stays as it is and the announced threshold is forgotten. */
  lemma TickWhenNotWatchedResets(cfg: Thresholds, last: Option<int>, s: Snapshot, elapsedMinutes: int)
    requires Consistent(s) && !Watching(s)
    ensures TickSpec(cfg, last, s, elapsedMinutes) == TickResult(None, s, [])
  {
  }

  /** At the final threshold the bathroom is freed whoever holds it, the new status is broadcast
      once and the announced threshold is forgotten. The targeted "released automatically"
      reminder is not among the messages: the occupant is read after the release has already
      cleared it. */
  lemma TickAtFinalAutoReleases(cfg: Thresholds, last: Option<int>, s: Snapshot, elapsedMinutes: int)
    requires Consistent(s) && Watching(s) && elapsedMinutes >= cfg.final
    ensures TickSpec(cfg, last, s, elapsedMinutes) == TickResult(None, FreeStatus, [StatusUpdate(FreeStatus)])
  {
  }

  /** No pass, in any state, sends the auto-release reminder. */
  lemma AutoReleaseReminderNeverSent(cfg: Thresholds, last: Option<int>, s: Snapshot, elapsedMinutes: int)
    requires Consistent(s)
    ensures forall m | m in TickSpec(cfg, last, s, elapsedMinutes).sent :: !(m.Reminder? && m.text.AutoReleasedAfter?)
  {
  }

  /** A reminder goes to the occupant, for a threshold that has been reached and is above the one
      announced before; the announced threshold becomes that one, and the status is unchanged.
      Among the eligible thresholds the third wins over the second and the second over the first. */
  lemma TickReminderIsDueAndNew(cfg: Thresholds, last: Option<int>, s: Snapshot, elapsedMinutes: int)
    requires Consistent(s)
    requires TickSpec(cfg, last, s, elapsedMinutes).sent != []
    requires TickSpec(cfg, last, s, elapsedMinutes).sent[0].Reminder?
    ensures var r := TickSpec(cfg, last, s, elapsedMinutes);
      var m := r.sent[0];
      m.text.OccupiedFor? && s.occupiedBy == Some(m.group) && m.occupantToken == m.group &&
      elapsedMinutes >= m.text.minutes && NotYetAnnounced(last, m.text.minutes) &&
      r.last == Some(m.text.minutes) && r.status == s &&
      (m.text.minutes == cfg.third || m.text.minutes == cfg.second || m.text.minutes == cfg.first)
    ensures var m := TickSpec(cfg, last, s, elapsedMinutes).sent[0];
      (m.vibration == Strong || m.vibration == Normal) ==>
        !(elapsedMinutes >= cfg.third && NotYetAnnounced(last, cfg.third))
    ensures var m := TickSpec(cfg, last, s, elapsedMinutes).sent[0];
      m.vibration == Normal ==>
        !(elapsedMinutes >= cfg.second && NotYetAnnounced(last, cfg.second))
  {
  }

  /** Urgency follows rank: very strong for the third threshold, strong for the second, normal
      for the first. Only the third reminder says when the release will come, and it always
      does, since it is sent only below the final threshold. */
  lemma TickReminderVibration(cfg: Thresholds, last: Option<int>, s: Snapshot, elapsedMinutes: int)
    requires Consistent(s)
    requires TickSpec(cfg, last, s, elapsedMinutes).sent != []
    requires TickSpec(cfg, last, s, elapsedMinutes).sent[0].Reminder?
    ensures var m := TickSpec(cfg, last, s, elapsedMinutes).sent[0];
      match m.vibration
      case VeryStrong => m.text.minutes == cfg.third && m.text.releaseIn == Some(cfg.final - cfg.third) &&
                         cfg.final - cfg.third > 0
      case Strong => m.text.minutes == cfg.second && m.text.releaseIn == None
      case Normal => m.text.minutes == cfg.first && m.text.releaseIn == None
  {
  }

  /** A watched pass that neither frees nor reminds keeps the announced threshold, and it does so
      exactly when no threshold is both reached and new. */
  lemma TickSilentKeepsThreshold(cfg: Thresholds, last: Option<int>, s: Snapshot, elapsedMinutes: int)
    requires Consistent(s) && Watching(s) && elapsedMinutes < cfg.final
    ensures TickSpec(cfg, last, s, elapsedMinutes).sent == [] <==>
      (forall t | t in [cfg.first, cfg.second, cfg.third] :: !(elapsedMinutes >= t && NotYetAnnounced(last, t)))
    ensures TickSpec(cfg, last, s, elapsedMinutes).sent == [] ==> TickSpec(cfg, last, s, elapsedMinutes) == TickResult(last, s, [])
  {
  }

  /** Since the loop reads only the minutes component, a final threshold of an hour or more is
      never reached and the bathroom is never freed automatically. */
  lemma FinalBeyondAnHourNeverFrees(cfg: Thresholds, last: Option<int>, s: Snapshot, elapsed: int)
    requires Consistent(s) && cfg.final >= 60
    ensures TickSpec(cfg, last, s, MinutesComponent(elapsed)).status == s
  {
  }

  // ---- Successive passes over one status ----

  /** Passes in a row, with nothing but the monitor touching the status in between. */
  function RunTicks(cfg: Thresholds, last: Option<int>, s: Snapshot, minutes: seq<int>): (r: TickResult)
    requires Consistent(s)
    ensures Consistent(r.status)
    decreases |minutes|
  {
    if minutes == [] then TickResult(last, s, [])
    else
      var t := TickSpec(cfg, last, s, minutes[0]);
      var rest := RunTicks(cfg, t.last, t.status, minutes[1..]);
      TickResult(rest.last, rest.status, t.sent + rest.sent)
  }

  /** The thresholds announced by the reminders of a log, in order. */
  function Announced(log: seq<Message>): seq<int> {
    if log == [] then []
    else
      var head := if log[0].Reminder? && log[0].text.OccupiedFor? then [log[0].text.minutes] else [];
      head + Announced(log[1..])
  }

  predicate StrictlyIncreasing(xs: seq<int>) {
    forall i, j | 0 <= i < j < |xs| :: xs[i] < xs[j]
  }

  lemma {:induction false} AnnouncedAppend(a: seq<Message>, b: seq<Message>)
    ensures Announced(a + b) == Announced(a) + Announced(b)
  {
    if a == [] {
      assert a + b == b;
    } else {
      assert (a + b)[1..] == a[1..] + b;
      AnnouncedAppend(a[1..], b);
    }
  }

  /** An unwatched status stays as it is and the monitor stays silent, however many passes. */
  lemma {:induction false} UnwatchedRunIsSilent(cfg: Thresholds, last: Option<int>, s: Snapshot, minutes: seq<int>)
    requires Consistent(s) && !Watching(s)
    ensures RunTicks(cfg, last, s, minutes).sent == [] && RunTicks(cfg, last, s, minutes).status == s
    decreases |minutes|
  {
    if minutes != [] {
      UnwatchedRunIsSilent(cfg, None, s, minutes[1..]);
    }
  }

  /** What one pass adds to the announced thresholds: nothing, keeping the threshold or leaving
      the status unwatched; or one new threshold, which becomes the announced one. */
  lemma TickAnnouncement(cfg: Thresholds, last: Option<int>, s: Snapshot, elapsedMinutes: int)
    requires Consistent(s)
    ensures var t := TickSpec(cfg, last, s, elapsedMinutes);
      var xs := Announced(t.sent);
      (xs == [] && (t.last == last || !Watching(t.status))) ||
      (|xs| == 1 && t.last == Some(xs[0]) && NotYetAnnounced(last, xs[0]) &&
       xs[0] in {cfg.first, cfg.second, cfg.third})
  {
    var t := TickSpec(cfg, last, s, elapsedMinutes);
    if t.sent != [] && t.sent[0].Reminder? {
      TickReminderIsDueAndNew(cfg, last, s, elapsedMinutes);
      assert Announced(t.sent) == [t.sent[0].text.minutes];
    }
  }

  /** Escalation without repeats: over any run of passes the announced thresholds strictly
      increase, all lie above the one announced before the run, and each is one of the first
      three thresholds, so no reminder is sent twice and there are at most three. */
  lemma {:induction false} RunEscalatesWithoutRepeats(cfg: Thresholds, last: Option<int>, s: Snapshot, minutes: seq<int>)
    requires Consistent(s)
    ensures var xs := Announced(RunTicks(cfg, last, s, minutes).sent);
      StrictlyIncreasing(xs) &&
      (forall i | 0 <= i < |xs| :: NotYetAnnounced(last, xs[i])) &&
      (forall i | 0 <= i < |xs| :: xs[i] in {cfg.first, cfg.second, cfg.third})
    decreases |minutes|
  {
    if minutes != [] {
      var t := TickSpec(cfg, last, s, minutes[0]);
      var rest := RunTicks(cfg, t.last, t.status, minutes[1..]);
      AnnouncedAppend(t.sent, rest.sent);
      TickAnnouncement(cfg, last, s, minutes[0]);
      var head, tail := Announced(t.sent), Announced(rest.sent);
      if !Watching(t.status) {
        UnwatchedRunIsSilent(cfg, t.last, t.status, minutes[1..]);
        assert tail == [];
      } else {
        RunEscalatesWithoutRepeats(cfg, t.last, t.status, minutes[1..]);
      }
      assert Announced(RunTicks(cfg, last, s, minutes).sent) == head + tail;
    }
  }

  /** A strictly increasing sequence drawn from a finite set is no longer than the set. */
  lemma {:induction false} IncreasingWithin(xs: seq<int>, values: set<int>)
    requires StrictlyIncreasing(xs)
    requires forall i | 0 <= i < |xs| :: xs[i] in values
    ensures |xs| <= |values|
    decreases |xs|
  {
    if xs != [] {
      var rest := values - {xs[0]};
      forall i | 0 <= i < |xs[1..]|
        ensures xs[1..][i] in rest
      {
        assert xs[0] < xs[i + 1];
      }
      IncreasingWithin(xs[1..], rest);
    }
  }

  lemma AtMostThreeReminders(cfg: Thresholds, last: Option<int>, s: Snapshot, minutes: seq<int>)
    requires Consistent(s)
    ensures |Announced(RunTicks(cfg, last, s, minutes).sent)| <= 3
  {
    RunEscalatesWithoutRepeats(cfg, last, s, minutes);
    var three := {cfg.first, cfg.second, cfg.third};
    assert |{cfg.first, cfg.second}| <= 2;
    assert |three| <= 3;
    IncreasingWithin(Announced(RunTicks(cfg, last, s, minutes).sent), three);
  }
}
