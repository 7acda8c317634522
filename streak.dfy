/**
 * The component's state as a value (the item list, the streak and the
 * day the routine was last completed) and the completeDay transition on
 * it. The calendar-day string of the clock is an input: days are only
 * ever compared for equality.
 */
module Streak {
  import opened Wrappers
  import opened ChecklistItems

  /** A calendar-day label (what Date.prototype.toDateString returns); only compared by equality. */
  type Day = string

  /** The three state fields the component keeps. */
  datatype AppState = AppState(items: seq<Item>, streak: nat, lastCompleted: Option<Day>)

  /** The state on first use: the default list, no streak, never completed. */
  const InitialState: AppState := AppState(DefaultItems, 0, None)

  /**
   * completeDay: the first completion on a given day raises the streak by
   * one and records the day; a repeat on the same day leaves both alone.
   * Either way every item comes back unchecked.
   */
  function CompleteDay(s: AppState, today: Day): (r: AppState)
    ensures r.lastCompleted == Some(today)
    ensures r.streak == if s.lastCompleted == Some(today) then s.streak else s.streak + 1
    ensures |r.items| == |s.items|
    ensures forall k :: 0 <= k < |s.items| ==>
      r.items[k].id == s.items[k].id && r.items[k].text == s.items[k].text && !r.items[k].done
  {
    if s.lastCompleted != Some(today) then
      AppState(ResetDone(s.items), s.streak + 1, Some(today))
    else
      AppState(ResetDone(s.items), s.streak, s.lastCompleted)
  }

  /** Completing the day again on the same day changes nothing at all. */
  lemma CompleteDayIdempotent(s: AppState, today: Day)
    ensures CompleteDay(CompleteDay(s, today), today) == CompleteDay(s, today)
  {
    ResetDoneTwice(s.items);
  }

  /** Two completions on the same day raise the streak by exactly one in total. */
  lemma CompleteDayTwiceSameDay(s: AppState, today: Day)
    requires s.lastCompleted != Some(today)
    ensures CompleteDay(CompleteDay(s, today), today).streak == s.streak + 1
  {
  }

  /** Completions on two different days raise the streak by exactly two. */
  lemma CompleteDayTwoDays(s: AppState, d1: Day, d2: Day)
    requires s.lastCompleted != Some(d1) && d1 != d2
    ensures CompleteDay(CompleteDay(s, d1), d2).streak == s.streak + 2
    ensures CompleteDay(CompleteDay(s, d1), d2).lastCompleted == Some(d2)
  {
  }

  /** A run of completions, one per entry of `days`, in order. */
  function CompleteDays(s: AppState, days: seq<Day>): AppState
    decreases |days|
  {
    if days == [] then s else CompleteDays(CompleteDay(s, days[0]), days[1..])
  }

  /** The distinct days in a run. */
  ghost function DaySet(days: seq<Day>): set<Day> {
    set d | d in days
  }

  /** The last completed day, as a set of zero or one days. */
  ghost function LastSet(last: Option<Day>): set<Day> {
    if last.Some? then {last.value} else {}
  }

  /**
   * The days arrive as a clock would give them: once the run has moved
   * past a day it never comes back to it, and the day already recorded
   * as last completed can only recur at the very start of the run.
   */
  ghost predicate InDayOrder(last: Option<Day>, days: seq<Day>) {
    (forall i, j, k :: 0 <= i < j < k < |days| && days[i] == days[k] ==> days[j] == days[i]) &&
    (last.Some? ==> forall j, k :: 0 <= j <= k < |days| && days[k] == last.value ==> days[j] == last.value)
  }

  /** Whatever the days, a run of n completions raises the streak by at most n, and never lowers it. */
  lemma {:induction false} CompleteDaysBounds(s: AppState, days: seq<Day>)
    ensures s.streak <= CompleteDays(s, days).streak <= s.streak + |days|
    ensures days != [] ==> CompleteDays(s, days).lastCompleted == Some(days[|days| - 1])
    ensures days == [] ==> CompleteDays(s, days) == s
    ensures |CompleteDays(s, days).items| == |s.items|
    decreases |days|
  {
    if days != [] {
      CompleteDaysBounds(CompleteDay(s, days[0]), days[1..]);
    }
  }

  /** Day order survives taking one completion off the front of the run. */
  lemma InDayOrderTail(last: Option<Day>, days: seq<Day>)
    requires days != [] && InDayOrder(last, days)
    ensures InDayOrder(Some(days[0]), days[1..])
  {
    var e, rest := days[0], days[1..];
    forall i, j, k | 0 <= i < j < k < |rest| && rest[i] == rest[k]
      ensures rest[j] == rest[i]
    {
      assert days[i + 1] == days[k + 1];
    }
    forall j, k | 0 <= j <= k < |rest| && rest[k] == e
      ensures rest[j] == e
    {
      if last == Some(e) {
        assert days[k + 1] == last.value;
      } else if j < k {
        assert days[0] == days[k + 1] && 0 < j + 1 < k + 1;
      }
    }
  }

  /** The distinct days of a run are its first day and the distinct days after it. */
  lemma DaySetCons(days: seq<Day>)
    requires days != []
    ensures DaySet(days) == {days[0]} + DaySet(days[1..])
  {
    assert days == [days[0]] + days[1..];
  }

  /** When the run starts on a new day, the recorded day does not occur in it at all. */
  lemma RecordedDayAbsent(last: Option<Day>, days: seq<Day>)
    requires days != [] && InDayOrder(last, days) && last != Some(days[0])
    ensures LastSet(last) !! DaySet(days)
  {
  }

  /** A first completion on a new day counts that day once. */
  lemma NewDayCounted(last: Option<Day>, days: seq<Day>)
    requires days != [] && DaySet(days) == {days[0]} + DaySet(days[1..])
    requires last != Some(days[0]) ==> LastSet(last) !! DaySet(days)
    ensures last == Some(days[0]) ==>
      DaySet(days) - LastSet(last) == DaySet(days[1..]) - {days[0]}
    ensures last != Some(days[0]) ==>
      |DaySet(days) - LastSet(last)| == 1 + |DaySet(days[1..]) - {days[0]}|
  {
    var e, rest := days[0], DaySet(days[1..]) - {days[0]};
    if last != Some(e) {
      assert DaySet(days) - LastSet(last) == rest + {e};
      assert e !in rest;
    }
  }

  /**
   * At most once per day, and exactly once per day: over a run of
   * completions in day order the streak rises by the number of distinct
   * days in the run other than the one already recorded.
   */
  lemma {:induction false} StreakCountsNewDays(s: AppState, days: seq<Day>)
    requires InDayOrder(s.lastCompleted, days)
    ensures CompleteDays(s, days).streak == s.streak + |DaySet(days) - LastSet(s.lastCompleted)|
    decreases |days|
  {
    if days == [] {
      assert DaySet(days) == {};
    } else {
      InDayOrderTail(s.lastCompleted, days);
      DaySetCons(days);
      if s.lastCompleted != Some(days[0]) {
        RecordedDayAbsent(s.lastCompleted, days);
      }
      NewDayCounted(s.lastCompleted, days);
      StreakCountsNewDays(CompleteDay(s, days[0]), days[1..]);
    }
  }
}
