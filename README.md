# Morning Checklist — a Dafny model

The Morning Checklist is a single-screen widget. It keeps a list of morning
tasks that can be checked off, added and removed, and a streak: the number
of mornings on which the routine was completed. A one-shot timer, armed when
the screen loads, reminds the user at 07:30.

This project models the logic inside the component `MorningChecklistApp`:

- `items.dfy` (module `ChecklistItems`) holds the item record and the
  default list, and the list operations as pure functions. These are
  toggle (a `map`), add (an append guarded by `String.prototype.trim`),
  remove (a `filter`), all-done (an `every`) and the reset done by
  completing a day. It also holds the lemmas about them. The trim follows
  the WhiteSpace and LineTerminator code points of ECMA-262.
- `streak.dfy` (module `Streak`) holds the component's three state fields
  as one value, and the `completeDay` transition on it. Its lemmas cover one
  completion, two completions and any run of completions.
- `reminder.dfy` (module `Reminder`) holds the arming rule of the reminder
  timer as integer milliseconds since local midnight. It also holds the
  permission guards around the notification.
- `app.dfy` (module `ChecklistApp`) holds the class `Checklist`, whose
  fields are the component's state, including the text of the "add" box.
  Each handler is a method that replaces those fields. The file ends with a
  client session built only from the class's contracts.
- `wrappers.dfy` (module `Wrappers`) holds `Option`.

Clock readings are inputs. `Date.now()` becomes the new item's id,
`toDateString()` becomes an opaque day label compared only by equality, and
the current time of day is a number of milliseconds.

Three points about the code shape the model:

- Item ids come from `Date.now()`, and nothing stops two items sharing one.
  So `Toggle` and `Remove` act on every item with the id, and neither the
  operations nor their general lemmas assume ids are unique. Only
  `RemoveAfterAdd` and the client session (`CheckingOffFive`,
  `CheckOffFive`, `FirstMorning`) require the new item's id to be fresh.
- Only the button's visibility checks that all items are done
  (MorningChecklistApp.tsx:121-122). `completeDay` itself does not, so
  `CompleteDay` has no such requires.
- The streak's guard compares today only with the last recorded day. So
  "at most once per day" holds only while the clock's days arrive in
  order, which is the requires of `StreakCountsNewDays`. If the clock goes
  back to an earlier day, that day raises the streak again;
  `CompleteDaysBounds` is the statement that holds for every run.
- A blank "add" leaves the typed text in the box. Only a successful add
  clears it (MorningChecklistApp.tsx:46-48). `Checklist.AddItem` says so.

## Model

| member | source | states |
|---|---|---|
| `ChecklistItems.DefaultItemsShape` | MorningChecklistApp.tsx:7-12 | the default list has four items with ids 1 to 4, none done, so it is not all done |
| `ChecklistItems.TrimStart` | MorningChecklistApp.tsx:46 | leading trim keeps a suffix that is empty or starts with a non-whitespace character; everything dropped is whitespace |
| `ChecklistItems.TrimEnd` | MorningChecklistApp.tsx:46 | trailing trim keeps a prefix that is empty or ends with a non-whitespace character; everything dropped is whitespace |
| `ChecklistItems.TrimIsInnerSlice` | MorningChecklistApp.tsx:46 | trim returns a contiguous slice of the text; only whitespace lies outside it, and a non-empty result starts and ends with non-whitespace |
| `ChecklistItems.BlankIffAllWhitespace` | MorningChecklistApp.tsx:46 | the add guard rejects a text exactly when every character of it is whitespace (so the empty text too) |
| `ChecklistItems.Toggle` | MorningChecklistApp.tsx:41-43 | length, order, ids and texts are kept; `done` is flipped exactly on the items whose id equals the argument; every other item is unchanged |
| `ChecklistItems.ToggleTwice` | MorningChecklistApp.tsx:42 | toggling the same id twice returns the original list |
| `ChecklistItems.ToggleAbsent` | MorningChecklistApp.tsx:42 | toggling an id no item carries leaves the list unchanged |
| `ChecklistItems.ToggleCommutes` | MorningChecklistApp.tsx:42 | toggles of two ids give the same list in either order |
| `ChecklistItems.ApplyTogglesParity` | MorningChecklistApp.tsx:41-43 | after any run of toggle clicks, length, order, ids and texts are kept, and an item is done iff it started done XOR its id was clicked an odd number of times |
| `ChecklistItems.Add` | MorningChecklistApp.tsx:45-47 | a text that is blank after trimming leaves the list unchanged; otherwise the result is the old list followed by exactly one item with the given id, the untrimmed text and `done` false |
| `ChecklistItems.RemoveAfterAdd` | MorningChecklistApp.tsx:45-53 | adding an item with an id not yet in use and then removing that id gives back the original list |
| `ChecklistItems.Remove` | MorningChecklistApp.tsx:51-53 | an item is in the result iff it is in the list with a different id; no item with the id remains; the result is a subsequence of the list (order kept) and is shorter by the number of items with the id |
| `ChecklistItems.RemoveAbsent` | MorningChecklistApp.tsx:52 | removing an id no item carries is the identity |
| `ChecklistItems.RemoveTwice` | MorningChecklistApp.tsx:52 | removing the same id twice is the same as removing it once |
| `ChecklistItems.RemoveConcat` | MorningChecklistApp.tsx:52 | remove distributes over concatenation, so it decides item by item |
| `ChecklistItems.AllDone` | MorningChecklistApp.tsx:55 | holds iff every item is done, so it holds for the empty list |
| `ChecklistItems.ResetDone` | MorningChecklistApp.tsx:63 | length, order, ids and texts are kept and no item is done |
| `ChecklistItems.ResetDoneNotAllDone` | MorningChecklistApp.tsx:63 | after the reset the list is all done only if it is empty |
| `ChecklistItems.ResetDoneTwice` | MorningChecklistApp.tsx:63 | the reset is idempotent |
| `Streak.CompleteDay` | MorningChecklistApp.tsx:57-64 | the recorded day becomes today; the streak rises by one iff the recorded day was not today and is otherwise unchanged; every item is unchecked while length, order, ids and texts are kept, whether or not the streak changed |
| `Streak.CompleteDayIdempotent` | MorningChecklistApp.tsx:57-64 | completing again on the same day changes nothing |
| `Streak.CompleteDayTwiceSameDay` | MorningChecklistApp.tsx:59-62 | two completions on a new day raise the streak by exactly one in total |
| `Streak.CompleteDayTwoDays` | MorningChecklistApp.tsx:59-62 | completions on two different days, the first not already recorded, raise the streak by exactly two and record the second day |
| `Streak.CompleteDaysBounds` | MorningChecklistApp.tsx:57-64 | over any run of completions the streak never falls and rises by at most the run's length; the item count is kept; after a non-empty run the recorded day is the last one |
| `Streak.StreakCountsNewDays` | MorningChecklistApp.tsx:58-62 | over a run of completions in day order, the streak rises by exactly the number of distinct days in the run other than the day already recorded, so once per day and never twice |
| `Reminder.ReminderDelay` | MorningChecklistApp.tsx:75-79 | waiting the delay from the current time lands exactly on 07:30:00.000; the delay is at most 27000000 ms and more than minus one day |
| `Reminder.ShouldArm` | MorningChecklistApp.tsx:79-81 | the timer is armed iff the current time is before 07:30, and then its delay lies in (0, 27000000] |
| `Reminder.ArmingExamples` | MorningChecklistApp.tsx:76-80 | loading at 06:00 arms a 90-minute timer; loading at 07:30 or at 08:00 arms nothing |
| `Reminder.SendReminder` | MorningChecklistApp.tsx:66-72 | the notification is shown iff permission is granted, and it is the "Morning Checklist" one |
| `Reminder.AsksPermission` | MorningChecklistApp.tsx:35-39 | on load, permission is requested exactly when a reminder could not be shown yet |
| `ChecklistApp.Checklist.constructor` | MorningChecklistApp.tsx:7-21 | first use starts from the default list, streak 0, no recorded day and an empty box |
| `ChecklistApp.Checklist.SetNewItem` | MorningChecklistApp.tsx:116 | typing replaces the box's text and leaves the three state fields alone |
| `ChecklistApp.Checklist.ToggleItem` | MorningChecklistApp.tsx:41-43 | the list becomes `Toggle` of the old list; streak, recorded day and box are unchanged |
| `ChecklistApp.Checklist.AddItem` | MorningChecklistApp.tsx:45-49 | the list becomes `Add` of the old list and box text; the box is cleared only when the text was accepted; streak and recorded day are unchanged |
| `ChecklistApp.Checklist.RemoveItem` | MorningChecklistApp.tsx:51-53 | the list becomes `Remove` of the old list; streak, recorded day and box are unchanged |
| `ChecklistApp.Checklist.IsAllDone` | MorningChecklistApp.tsx:55 | the flag holds iff every item in the current list is done |
| `ChecklistApp.Checklist.CompleteDay` | MorningChecklistApp.tsx:57-64 | the three state fields move exactly as `Streak.CompleteDay` says; the box is unchanged |
| `ChecklistApp.CheckingOffFive` | MorningChecklistApp.tsx:41-55 | clicking each of five unchecked items with different ids once makes the list all done |
| `ChecklistApp.PackLunchNotBlank` | MorningChecklistApp.tsx:46 | the text "Pack lunch" passes the add guard |
| `ChecklistApp.AddToDefaults` | MorningChecklistApp.tsx:45-49 | from first use, adding a non-blank task gives exactly the four default items followed by the new unchecked one, clears the box, and leaves streak 0 and no recorded day |
| `ChecklistApp.CheckOffFive` | MorningChecklistApp.tsx:41-43 | clicking each of those five items once makes the list all done and keeps the streak |
| `ChecklistApp.FirstMorning` | MorningChecklistApp.tsx:41-64 | add any task the add guard accepts, check off all five items, complete the day twice on the same day: the streak is 1 after each completion, the recorded day is today, and five unchecked items remain |

## Left out

- Rendering, the React hooks and the `useEffect` plumbing (MorningChecklistApp.tsx:14-39, 86-130) are display glue. The model keeps only the state they hold and the handlers that replace it.
- Persistence to `localStorage` is browser I/O and library serialisation (MorningChecklistApp.tsx:15-33). This covers `JSON.parse`/`JSON.stringify` of the list, the decimal streak with its `Number(...) || 0` fallback, and the recorded day stored as `""` when absent. So is loading saved state on start, and malformed saved data, whose behaviour the code leaves undefined. The constructor models only the default start.
- The Notification API is a foreign browser call: creating the notification and requesting permission. Only the guards are modelled (`SendReminder`, `AsksPermission`).
- `setTimeout`/`clearTimeout`, the timer firing and its cancellation are event-loop behaviour (MorningChecklistApp.tsx:81-82). Only the arming decision and the delay are modelled.
- Real `Date` semantics are clock and library behaviour: time zones, daylight-saving days, whether `toDateString` is unique per day, and `Date.now()` collisions. The reading is an input: an `int` id, a `Day` label, or a `MsOfDay` in [0, 86400000). So `ReminderDelay` is a difference of times of day, which a daylight-saving change on the day would make differ from the real `getTime()` difference.
- ShouldArm: uses a single clock reading, whereas the code reads the clock twice (`now` at MorningChecklistApp.tsx:75 and `reminderTime` at :76). If the two readings fall on either side of midnight (say `now` at 23:59:59.999 and the second at 00:00:00.000), `setHours` puts the reminder at 07:30 of the next day, the delay is about 7.5 hours and the code arms the timer, while `ShouldArm(86399999)` is false. Two clock readings within one call are a race the model does not capture.
- Text is a sequence of Unicode scalar values, not of UTF-16 code units. This matters only for the trim test, and every code point the trim strips is a single code unit.
