# Bathroom occupancy: a Dafny model

This project models the occupancy logic of the BathroomApp back end, a service that tracks who
holds the one shared bathroom. The code also has a background monitor. It would remind the
occupant at escalating thresholds and free the bathroom automatically at a final one. The
application's startup does not host that monitor, though (see "## Left out"). The project has four
parts, one module each:

- `Models` (`models.dfy`): the mutable `BathroomStatus` record, with four fields: `isOccupied`,
  `occupiedBy`, `activity` and `occupiedSince`. `Snapshot` is the value of those four fields at
  one moment. It is what a status broadcast carries and what the specification functions take.
  `Consistent` is the store's invariant: occupied ⇔ an occupant is set ⇔ a start time is set.
- `Service` (`service.dfy`): `BathroomService`, a class that owns the one status object.
  `Occupy`, `Free` and `ForceFree` are guarded in-place writes. Each method is proved against a
  pure function (`OccupySpec`, `FreeSpec`, `ForceFreeSpec`).
- `Monitor` (`monitor.dfy`): `BathroomMonitor`, which holds the four thresholds and
  `lastNotifiedThreshold`. `Tick` is one pass of the body of the background loop, proved against
  `TickSpec`. The module also has lemmas over runs of successive passes (`RunTicks`).
- `Controller` (`controller.dfy`): the four PUT handlers and the GET, as methods of
  `BathroomController`. Each is proved against a pure function (`…Spec`) that returns the outcome,
  the new status and the messages sent.

`Notifications` (`notifications.dfy`) describes what is pushed to clients. `Hub.log` is a ghost
record of every send, in order. `Traces` (`traces.dfy`) puts requests and monitor passes together
on the one shared status, with concrete episodes as lemmas. `Wrappers` holds `Option`, which
stands for a C# `null`able reference, and `IsNullOrEmpty`.

Some behaviours of the code are easy to miss:

- The monitor reads `elapsed.Minutes`, the minutes *component* of the elapsed `TimeSpan`, not the
  total number of minutes. `MinutesComponent` models this with C#'s truncating division. Its
  result lies between -59 and 59 and starts again from 0 every hour
  (`MinutesComponentWrapsHourly`). So a final threshold of 60 or more never frees the bathroom
  (`FinalBeyondAnHourNeverFrees`).
- `lastNotifiedThreshold` is cleared only by a pass that finds the bathroom unwatched (free, or
  with no start time), or by a pass that frees it. It is not cleared at the moment of release. If someone occupies the bathroom
  again before the next pass, the old threshold carries over. The next occupant then misses the
  reminders at or below it (`ThresholdCarriesOverWithoutAFreePass`; compare
  `FreePassStartsAfresh`).
- The monitor calls `ForceFree` before it reads `OccupiedBy` to address the "released
  automatically" reminder. That reminder is therefore never sent (`TickAtFinalAutoReleases`,
  `AutoReleaseReminderNeverSent`).
- Every refusal other than a missing id or a wrong occupant answers `BadRequest` (400), including
  a claim on an occupied bathroom. The activity update exists only in the controller. It writes `Status.Activity` directly and does not go through the store.
- Nothing checks that the thresholds are ordered. With ordered thresholds the reminders rise in
  urgency. Whatever the order, the announced thresholds still strictly increase
  (`RunEscalatesWithoutRepeats`). This holds for a whole occupancy episode too, with requests
  arriving between the passes (`EpisodeEscalatesWithoutRepeats`).

## Model

| member | source | states |
|---|---|---|
| `Models.BathroomStatus.constructor` | BathroomApp/Models/BathroomStatus.cs:3-9 | a new status is free: not occupied, no occupant, activity "none", no start time |
| `Models.FreeStatusIsConsistent` | BathroomApp/Models/BathroomStatus.cs:5-8 | the free representation satisfies the occupancy invariant |
| `Service.BathroomService.constructor` | BathroomApp/Service/BathroomService.cs:17 | the service starts with a fresh status in the free representation, and the invariant holds |
| `Service.BathroomService.Occupy` | BathroomApp/Service/BathroomService.cs:19-29 | the new status and the result are those of `OccupySpec`; the invariant is kept |
| `Service.BathroomService.Free` | BathroomApp/Service/BathroomService.cs:31-43 | the new status and the result are those of `FreeSpec`; the invariant is kept |
| `Service.BathroomService.ForceFree` | BathroomApp/Service/BathroomService.cs:45-52 | the new status and the result are those of `ForceFreeSpec`, from any state; afterwards the invariant holds |
| `Service.OccupyRefusedWhenOccupied` | BathroomApp/Service/BathroomService.cs:21-22 | occupy on an occupied bathroom returns false and changes nothing |
| `Service.OccupySucceedsWhenFree` | BathroomApp/Service/BathroomService.cs:23-28 | occupy on a free bathroom returns true and sets occupied, the occupant, activity "none" and a start time |
| `Service.FreeOnlyByOccupant` | BathroomApp/Service/BathroomService.cs:31-42 | free succeeds iff the bathroom is occupied by the caller; on failure nothing changes; on success the status is the free representation |
| `Service.ForceFreeAlwaysFrees` | BathroomApp/Service/BathroomService.cs:45-52 | force-free always succeeds, always leaves the free representation, and doing it twice is the same as doing it once |
| `Service.OperationsPreserveConsistent` | BathroomApp/Service/BathroomService.cs:17-52 | occupy, free and force-free each keep occupied ⇔ occupant set ⇔ start time set |
| `Service.OccupyThenFreeRestoresFree` | BathroomApp/Service/BathroomService.cs:19-43 | occupy by u and then free by u on a free bathroom returns the status to the free representation |
| `Monitor.MinutesComponent` | BathroomApp/Service/BathroomMonitorService.cs:38 | the minutes read lie strictly between -60 and 60, and they are not negative for a span that is not negative |
| `Monitor.MinutesComponentWrapsHourly` | BathroomApp/Service/BathroomMonitorService.cs:38 | one more hour of occupation gives the same minutes reading |
| `Monitor.MinutesComponentOfWholeMinutes` | BathroomApp/Service/BathroomMonitorService.cs:38 | after n whole minutes (plus under 60 seconds) the loop reads n mod 60 |
| `Monitor.OrDefault` | BathroomApp/Service/BathroomMonitorService.cs:24-27 | a threshold is the configured value when that is positive, and the fallback otherwise; it is always positive |
| `Monitor.Configure` | BathroomApp/Service/BathroomMonitorService.cs:24-27 | all four thresholds are positive; each positive configured value is kept; each threshold configured as 0 or less falls back on its own built-in value: 10, 20, 25 and 30 |
| `Monitor.BathroomMonitor.constructor` | BathroomApp/Service/BathroomMonitorService.cs:15-28 | the thresholds are `Configure` of the configured values, and no threshold has been announced |
| `Monitor.TickSpec` | BathroomApp/Service/BathroomMonitorService.cs:34-103 | one pass keeps the status consistent and sends at most one message |
| `Monitor.BathroomMonitor.NotifyAutoRelease` | BathroomApp/Service/BathroomMonitorService.cs:45-54 | the "released automatically" reminder goes to the occupant's group only when an occupant is named |
| `Monitor.BathroomMonitor.Tick` | BathroomApp/Service/BathroomMonitorService.cs:34-103 | the new threshold, the new status and the messages are those of `TickSpec` on the minutes component of the elapsed span; the invariant is kept |
| `Monitor.TickWhenNotWatchedResets` | BathroomApp/Service/BathroomMonitorService.cs:34-103 | when the bathroom is free or has no start time, a pass sends nothing, leaves the status alone and forgets the threshold |
| `Monitor.TickAtFinalAutoReleases` | BathroomApp/Service/BathroomMonitorService.cs:41-56 | at or past the final threshold, a pass frees the bathroom, broadcasts the free status once, sends nothing else and forgets the threshold |
| `Monitor.AutoReleaseReminderNeverSent` | BathroomApp/Service/BathroomMonitorService.cs:43-54 | no pass, in any state, sends the "released automatically" reminder |
| `Monitor.TickReminderIsDueAndNew` | BathroomApp/Service/BathroomMonitorService.cs:60-96 | a reminder goes to the occupant. Its threshold is one of the three, has been reached, is above the announced one and becomes the announced one. The status is unchanged. The third threshold is tried before the second, and the second before the first |
| `Monitor.TickReminderVibration` | BathroomApp/Service/BathroomMonitorService.cs:62-93 | vibration is very-strong for the third threshold, strong for the second and normal for the first. Only the third reminder names the minutes left, and it always does, with a positive count |
| `Monitor.TickSilentKeepsThreshold` | BathroomApp/Service/BathroomMonitorService.cs:57-97 | on a watched bathroom below the final threshold, a pass sends nothing exactly when no threshold is both reached and new; then the announced threshold is kept |
| `Monitor.FinalBeyondAnHourNeverFrees` | BathroomApp/Service/BathroomMonitorService.cs:38-43 | with a final threshold of 60 or more, no pass changes the status |
| `Monitor.RunTicks` | BathroomApp/Service/BathroomMonitorService.cs:32-105 | any number of passes in a row keep the status consistent |
| `Monitor.UnwatchedRunIsSilent` | BathroomApp/Service/BathroomMonitorService.cs:99-103 | passes over a free bathroom, or one without a start time, never send anything or change the status |
| `Monitor.TickAnnouncement` | BathroomApp/Service/BathroomMonitorService.cs:60-96 | a pass announces nothing, or announces one new threshold that becomes the announced one |
| `Monitor.RunEscalatesWithoutRepeats` | BathroomApp/Service/BathroomMonitorService.cs:60-96 | over any run of passes, the announced thresholds strictly increase, all lie above the threshold announced before the run, and each is one of the three; so none repeats |
| `Monitor.AtMostThreeReminders` | BathroomApp/Service/BathroomMonitorService.cs:60-96 | any run of passes sends at most three threshold reminders |
| `Controller.OccupyBathroomSpec` | BathroomApp/Controllers/BathroomController.cs:29-59 | Unauthorized iff the id is null or empty. BadRequest iff there is an id and the bathroom is occupied. Never Forbid. A refusal changes nothing and sends one error to the caller's group ("unknown" for a null id). Success sets the caller as occupant, with the body's activity and a start time, and broadcasts that status once |
| `Controller.BathroomController.OccupyBathroom` | BathroomApp/Controllers/BathroomController.cs:29-59 | the outcome, the new status and the sends are those of `OccupyBathroomSpec`; the invariant is kept |
| `Controller.FreeBathroomSpec` | BathroomApp/Controllers/BathroomController.cs:62-98 | Unauthorized iff no id. BadRequest iff the bathroom is free; this is checked before the occupant. Forbid iff someone else occupies it. A refusal changes nothing and sends one error to the caller. Success leaves the free representation and broadcasts it |
| `Controller.BathroomController.FreeBathroom` | BathroomApp/Controllers/BathroomController.cs:62-98 | the outcome, the new status and the sends are those of `FreeBathroomSpec`; the invariant is kept |
| `Controller.UpdateBathroomActivitySpec` | BathroomApp/Controllers/BathroomController.cs:101-129 | Unauthorized iff no id. BadRequest iff the bathroom is free. Forbid iff someone else occupies it. A refusal changes nothing and sends one error to the caller. Success changes only the activity and broadcasts. Occupancy, occupant and start time never change |
| `Controller.BathroomController.UpdateBathroomActivity` | BathroomApp/Controllers/BathroomController.cs:101-129 | the outcome, the new status and the sends are those of `UpdateBathroomActivitySpec`; the invariant is kept |
| `Controller.ForceFreeBathroomSpec` | BathroomApp/Controllers/BathroomController.cs:131-145 | with no caller check, the answer is always Ok, the status is the free representation with activity "none", and it is broadcast once |
| `Controller.BathroomController.ForceFreeBathroom` | BathroomApp/Controllers/BathroomController.cs:131-145 | the outcome, the new status and the sends are those of `ForceFreeBathroomSpec`; afterwards the invariant holds |
| `Controller.BathroomController.GetBathroomStatus` | BathroomApp/Controllers/BathroomController.cs:22-26 | always Ok, with the current status |
| `Controller.BathroomController.constructor` | BathroomApp/Controllers/BathroomController.cs:15-19 | the controller works on the given service and hub |
| `Controller.OccupyWithDefaultBody` | BathroomApp/Controllers/BathroomController.cs:150-155 | an occupy body with no activity binds to "none", and a successful occupy then leaves activity "none" |
| `Controller.OccupyActivityOverridesStore` | BathroomApp/Controllers/BathroomController.cs:47-58 | the store sets activity "none"; the handler then replaces it with the body's activity and changes nothing else |
| `Controller.HandlersPreserveConsistent` | BathroomApp/Controllers/BathroomController.cs:29-145 | every handler, on every path, keeps the occupancy invariant, including the direct writes to `Activity` |
| `Traces.StepSpec` | BathroomApp/Controllers/BathroomController.cs:29-145 | any request or monitor pass keeps the status consistent; requests never touch the monitor's threshold |
| `Traces.Run` | BathroomApp/Service/BathroomService.cs:17-52 | the status stays consistent over any sequence of requests and monitor passes |
| `Traces.PassesAloneAreTicks` | BathroomApp/Service/BathroomMonitorService.cs:32-105 | a run made only of monitor passes is the monitor's own run over the minutes those passes read |
| `Traces.DefaultEpisode` | BathroomApp/Service/BathroomMonitorService.cs:41-96 | with the defaults, an occupant is reminded once each at 10, 20 and 25 minutes (normal, strong, very strong; the last says 5 minutes are left). At 31 minutes the bathroom is freed and that is broadcast |
| `Traces.ThresholdCarriesOverWithoutAFreePass` | BathroomApp/Service/BathroomMonitorService.cs:60-102 | when a new occupant arrives before any pass has seen the bathroom free, they get no reminder at 10 or 20 minutes, only at 25 |
| `Traces.FreePassStartsAfresh` | BathroomApp/Service/BathroomMonitorService.cs:99-102 | after a pass has seen the bathroom free, the next occupant is reminded again from the first threshold |
| `Traces.RequestAnnouncesNothing` | BathroomApp/Controllers/BathroomController.cs:29-145 | a request that cannot start a new occupation sends no reminder, leaves the monitor's threshold alone and never makes an unwatched status watched |
| `Traces.UnwatchedEpisodeIsSilent` | BathroomApp/Service/BathroomMonitorService.cs:34-103 | once the status is unwatched, no later pass or request of the same episode sends a reminder |
| `Traces.StepAnnouncement` | BathroomApp/Service/BathroomMonitorService.cs:60-103 | one request or pass of an episode announces nothing, or one new threshold from the three that becomes the announced one |
| `Traces.EpisodeEscalatesWithoutRepeats` | BathroomApp/Service/BathroomMonitorService.cs:60-96 | over one occupancy episode, with any requests interleaved between passes (every claim finds the bathroom occupied), the announced thresholds strictly increase, lie above the one announced before, and each is one of the three |
| `Traces.EpisodeAtMostThreeReminders` | BathroomApp/Service/BathroomMonitorService.cs:60-96 | an occupancy episode, however requests and passes interleave, brings at most three threshold reminders |
| `Traces.RequestsAloneNeverRemind` | BathroomApp/Controllers/BathroomController.cs:29-145 | requests without monitor passes (the application as its startup wires it) never send a reminder and never change the monitor's threshold |

## Left out

- `Outcome` is the kind of result a handler returns, not the HTTP status the client sees. The handlers pass their message to `Forbid(...)` as an authentication scheme name, and no such scheme is registered. So a `Forbid` result may reach the client as a server error rather than 403. Executing results is not modelled.
- Delivery of messages (SignalR `Clients.All` / `Clients.Group(...).SendAsync`) is not modelled. Each send is appended to the ghost `Hub.log`, in order. Groups, connections and `BathroomHub.JoinGroup` are not modelled.
- The clock and time parsing are left out: `DateTime.UtcNow`, `ToString("o")` and `DateTime.Parse`. `Occupy` takes the formatted start time as a parameter. `Tick` takes the elapsed span, in `TimeSpan` ticks, as a parameter. The start time is kept as an opaque string.
- The `while` loop, the 30-second `Task.Delay`, cancellation and async/await are left out. The model has one pass (`Tick`) and runs of passes (`RunTicks`, `Traces.Run`).
- Concurrency is left out. Everything is modelled as running one step at a time. Under that assumption, the handlers' branches for "the store refused" cannot be reached: `OccupyBathroom` lines 48-53, `FreeBathroom` lines 87-92 and `ForceFreeBathroom` lines 136-139. They hold `assert false` in the methods. The specification functions keep them as values. The occupy and free branches matter only when another request interleaves, and that is not modelled. The force-free branch cannot run under any interleaving, because `ForceFree` returns true on every path (BathroomService.cs line 51).
- The configuration service is left out. The monitor's constructor takes the four raw configured integers, 0 for a missing key.
- HTTP is left out: header extraction, model binding and validation of the request bodies, and the `IActionResult` bodies and message texts. Outcomes are an enumeration, and error and reminder texts are datatypes.
- The message text of a reminder is modelled as its numbers: the threshold, and the minutes left when present.
- The startup code (`Program.cs`) registers only the store. It does not host the monitor with `AddHostedService`, and it does not register the configuration service that the monitor's constructor needs. So in the application as wired, no monitor pass ever runs. `Monitor`, and the `MonitorPass` events of `Traces`, describe the loop as it would behave if it were hosted. A run of requests alone is what the wired application does, and such a run sends no reminder (`RequestsAloneNeverRemind`).
- The rest of the application wiring (dependency injection, CORS, Swagger) is not part of this model.
