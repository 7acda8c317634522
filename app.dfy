/**
 * The checklist component's state holder: the item list, the streak,
 * the day last completed and the text typed into the "add" box, replaced
 * by its event handlers. Clock readings (the new item's id, today's day
 * label) are parameters of the handlers that read the clock.
 */
module ChecklistApp {
  import opened Wrappers
  import opened ChecklistItems
  import opened Streak

  class Checklist {
    var items: seq<Item>
    var streak: nat
    var lastCompleted: Option<Day>
    /** The text in the "Add new task" box. */
    var newItem: string

    /** The three persisted fields as one value. */
    function State(): AppState
      reads this
    {
      AppState(items, streak, lastCompleted)
    }

    /** First use: the default list, a zero streak, no completed day, an empty box. */
    constructor ()
      ensures State() == InitialState && newItem == ""
    {
      items := DefaultItems;
      streak := 0;
      lastCompleted := None;
      newItem := "";
    }

    /** The "Add new task" box changed. */
    method SetNewItem(text: string)
      modifies this
      ensures newItem == text && State() == old(State())
    {
      newItem := text;
    }

    /** The checkbox of item `id` was clicked. */
    method ToggleItem(id: int)
      modifies this
      ensures items == Toggle(old(items), id)
      ensures streak == old(streak) && lastCompleted == old(lastCompleted) && newItem == old(newItem)
    {
      items := Toggle(items, id);
    }

    /**
     * "Add" was clicked at clock reading `now`: a blank box changes
     * nothing (the box keeps its text); otherwise the box's text becomes
     * a new item and the box is cleared.
     */
    method AddItem(now: int)
      modifies this
      ensures items == Add(old(items), old(newItem), now)
      ensures newItem == if IsBlank(old(newItem)) then old(newItem) else ""
      ensures streak == old(streak) && lastCompleted == old(lastCompleted)
    {
      if IsBlank(newItem) {
        return;
      }
      items := Add(items, newItem, now);
      newItem := "";
    }

    /** The remove button of item `id` was clicked. */
    method RemoveItem(id: int)
      modifies this
      ensures items == Remove(old(items), id)
      ensures streak == old(streak) && lastCompleted == old(lastCompleted) && newItem == old(newItem)
    {
      items := Remove(items, id);
    }

    /** Whether the completion button is shown: every item is checked off. */
    function IsAllDone(): (r: bool)
      reads this
      ensures r <==> forall k :: 0 <= k < |items| ==> items[k].done
    {
      AllDone(items)
    }

    /** The completion button was clicked on calendar day `today`. */
    method CompleteDay(today: Day)
      modifies this
      ensures State() == Streak.CompleteDay(old(State()), today)
      ensures newItem == old(newItem)
    {
      if lastCompleted != Some(today) {
        streak := streak + 1;
        lastCompleted := Some(today);
      }
      items := ResetDone(items);
    }
  }

  /** Clicking each of the five items of the extended default list once checks all of them off. */
  lemma CheckingOffFive(items: seq<Item>, now: int)
    requires |items| == 5 && now != 1 && now != 2 && now != 3 && now != 4
    requires items[0].id == 1 && items[1].id == 2 && items[2].id == 3 && items[3].id == 4 && items[4].id == now
    requires forall k :: 0 <= k < 5 ==> !items[k].done
    ensures AllDone(Toggle(Toggle(Toggle(Toggle(Toggle(items, 1), 2), 3), 4), now))
  {
    var r := Toggle(Toggle(Toggle(Toggle(Toggle(items, 1), 2), 3), 4), now);
    forall k | 0 <= k < 5 ensures r[k].done {
      assert k == 0 || k == 1 || k == 2 || k == 3 || k == 4;
    }
  }

  /** "Pack lunch" is accepted by the add handler. */
  lemma PackLunchNotBlank()
    ensures !IsBlank("Pack lunch")
  {
    assert TrimStart("Pack lunch") == "Pack lunch";
  }

  /**
   * The first half of a first session: from the default state, add a
   * task at clock reading `now`; the list is then the four default items
   * followed by the new one, none of them checked.
   */
  method AddToDefaults(now: int, text: string) returns (app: Checklist)
    requires !IsBlank(text)
    ensures fresh(app) && app.streak == 0 && app.lastCompleted == None && app.newItem == ""
    ensures app.items == DefaultItems + [Item(now, text, false)]
    ensures |app.items| == 5 && app.items[4].text == text
    ensures app.items[0].id == 1 && app.items[1].id == 2 && app.items[2].id == 3
    ensures app.items[3].id == 4 && app.items[4].id == now
    ensures forall k :: 0 <= k < 5 ==> !app.items[k].done
  {
    app := new Checklist();
    app.SetNewItem(text);
    app.AddItem(now);
    assert app.items == DefaultItems + [Item(now, text, false)];
  }

  /** Clicking each of the five items once checks all of them off, and nothing else changes. */
  method CheckOffFive(app: Checklist, now: int)
    requires now != 1 && now != 2 && now != 3 && now != 4
    requires |app.items| == 5
    requires app.items[0].id == 1 && app.items[1].id == 2 && app.items[2].id == 3
    requires app.items[3].id == 4 && app.items[4].id == now
    requires forall k :: 0 <= k < 5 ==> !app.items[k].done
    modifies app
    ensures app.IsAllDone() && |app.items| == 5 && app.items[4].text == old(app.items[4].text)
    ensures app.streak == old(app.streak) && app.lastCompleted == old(app.lastCompleted)
  {
    ghost var before := app.items;
    app.ToggleItem(1);
    app.ToggleItem(2);
    app.ToggleItem(3);
    app.ToggleItem(4);
    app.ToggleItem(now);
    CheckingOffFive(before, now);
  }

  /**
   * A first session: add a task (such as "Pack lunch") at a clock
   * reading past the default ids, check off all five items, complete the
   * day, then complete it again the same day.
   * The streak is 1 after both completions, the day is recorded, and the
   * list keeps its five items, all unchecked.
   */
  method FirstMorning(now: int, text: string, today: Day) returns (first: nat, second: nat, recorded: Option<Day>, left: seq<Item>)
    requires now > 4
    requires !IsBlank(text)
    ensures first == 1 && second == 1 && recorded == Some(today)
    ensures |left| == 5 && left[4].text == text
    ensures forall k :: 0 <= k < |left| ==> !left[k].done
  {
    var app := AddToDefaults(now, text);
    CheckOffFive(app, now);
    app.CompleteDay(today);
    first := app.streak;
    app.CompleteDay(today);
    second := app.streak;
    recorded := app.lastCompleted;
    left := app.items;
  }
}
