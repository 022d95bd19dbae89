/** What the controller and the monitor push through the real-time hub. Delivery itself is not
    modelled: every send is recorded, in order, in the hub's log. */
module Notifications {
  import opened Wrappers
  import opened Models

  datatype Vibration = Normal | Strong | VeryStrong

  /** Which error text an `errorNotification` carries. */
  datatype ErrorKind =
    | MissingUserId                  // no X-User-Id header
    | AlreadyOccupied                // occupy on an occupied bathroom
    | OccupyFailed                   // the store refused the claim
    | AlreadyFree                    // free on a free bathroom
    | OnlyOccupantMayFree            // free by someone else
    | FreeFailed                     // the store refused the release
    | NotOccupied                    // activity update on a free bathroom
    | OnlyOccupantMayChangeActivity  // activity update by someone else

  /** The `message` text of a reminder. */
  datatype ReminderText =
    | OccupiedFor(minutes: int, releaseIn: Option<int>)  // "You have been in for N minutes.[ Released in M.]"
    | AutoReleasedAfter(minutes: int)                    // "Released automatically after N minutes."

  datatype Message =
    | StatusUpdate(status: Snapshot)                    // Clients.All, "bathroomStatusUpdate"
    | ErrorNotification(group: string, error: ErrorKind) // Clients.Group(group), "errorNotification"
    | Reminder(group: string, text: ReminderText, vibration: Vibration, occupantToken: string)
                                                        // Clients.Group(group), "bathroomReminder"

  /** The hub context shared by the controller and the monitor. */
  class Hub {
    ghost var log: seq<Message>

    constructor ()
      ensures log == []
    {
      log := [];
    }

    method Send(m: Message)
      modifies this
      ensures log == old(log) + [m]
    {
      log := log + [m];
    }
  }
}
