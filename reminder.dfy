/**
 * The morning reminder: when the screen loads it works out how long it
 * is until 07:30:00.000 today and arms a one-shot timer only if that time
 * is still ahead; the reminder itself is shown only with notification
 * permission. Clock readings are milliseconds since local midnight.
 */
module Reminder {
  import opened Wrappers

  const MsPerDay: int := 24 * 60 * 60 * 1000

  /** A wall-clock reading: milliseconds since local midnight. */
  type MsOfDay = n: int | 0 <= n < MsPerDay

  /** Where Date.prototype.setHours(h, m, s, ms) puts the clock within the day. */
  function TimeOfDay(h: nat, m: nat, s: nat, ms: nat): int {
    ((h * 60 + m) * 60 + s) * 1000 + ms
  }

  /** The fixed reminder time, 07:30:00.000. */
  const ReminderTime: int := TimeOfDay(7, 30, 0, 0)

  /** The timer's delay: waiting it from `now` lands exactly on the reminder time. */
  function ReminderDelay(now: MsOfDay): (delay: int)
    ensures now + delay == ReminderTime
    ensures -MsPerDay < delay <= ReminderTime
  {
    ReminderTime - now
  }

  /**
   * The timer is armed exactly when the reminder time is still ahead
   * today, and then its delay is positive and at most the whole span from
   * midnight to 07:30.
   */
  function ShouldArm(now: MsOfDay): (armed: bool)
    ensures armed <==> now < ReminderTime
    ensures armed ==> 0 < ReminderDelay(now) <= 27000000
  {
    ReminderDelay(now) > 0
  }

  /** Loading at 06:00 arms a 90-minute timer; at 07:30 itself or at 08:00 nothing is armed. */
  lemma ArmingExamples()
    ensures ShouldArm(TimeOfDay(6, 0, 0, 0)) && ReminderDelay(TimeOfDay(6, 0, 0, 0)) == 90 * 60 * 1000
    ensures !ShouldArm(TimeOfDay(7, 30, 0, 0))
    ensures !ShouldArm(TimeOfDay(8, 0, 0, 0))
  {
  }

  /** The tri-state notification permission of the browser. */
  datatype Permission = Granted | Denied | Undecided

  /** A system notification. */
  datatype Notice = Notice(title: string, body: string)

  /** The reminder's notification. */
  const MorningNotice: Notice := Notice("Morning Checklist", "Have you finished your morning routine?")

  /** sendReminder: the notification is shown only when permission is granted, and it is always the same one. */
  function SendReminder(p: Permission): (shown: Option<Notice>)
    ensures shown.Some? <==> p == Granted
    ensures shown.Some? ==> shown.value.title == "Morning Checklist"
  {
    if p == Granted then Some(MorningNotice) else None
  }

  /** On load, permission is asked for unless it is already granted. */
  function AsksPermission(p: Permission): (asks: bool)
    ensures asks <==> SendReminder(p).None?
  {
    p != Granted
  }
}
