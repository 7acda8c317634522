/**
 * The checklist's item list and the whole-list transformations the
 * component's handlers apply to it: toggle (a map), add (an append
 * guarded by a trim test), remove (a filter), all-done (an every) and
 * the reset that completing a day performs (a map).
 *
 * Item ids come from the wall clock when an item is added, so nothing
 * here assumes they are unique: toggle and remove act on EVERY item
 * whose id matches.
 */
module ChecklistItems {

  /** One checklist entry. */
  datatype Item = Item(id: int, text: string, done: bool)

  /** The list shown on first use: four routine tasks, none done. */
  const DefaultItems: seq<Item> := [
    Item(1, "Get washed", false),
    Item(2, "Brush teeth", false),
    Item(3, "Today's clothes", false),
    Item(4, "Bag", false)
  ]

  /** Some item in the list carries this id. */
  predicate HasId(items: seq<Item>, id: int) {
    exists k :: 0 <= k < |items| && items[k].id == id
  }

  /** How many items carry this id. */
  function CountId(items: seq<Item>, id: int): nat {
    if items == [] then 0
    else (if items[0].id == id then 1 else 0) + CountId(items[1..], id)
  }

  /** `a` is `b` with some elements dropped, the rest kept in order. */
  ghost predicate IsSubsequence<T>(a: seq<T>, b: seq<T>)
    decreases |b|
  {
    a == [] ||
    (b != [] && ((a[0] == b[0] && IsSubsequence(a[1..], b[1..])) || IsSubsequence(a, b[1..])))
  }

  // ---------------------------------------------------------------------
  // String.prototype.trim
  // ---------------------------------------------------------------------

  /**
   * The code points String.prototype.trim strips: the WhiteSpace
   * production of ECMA-262 (tab, vertical tab, form feed, zero width
   * no-break space and every space separator of Unicode category Zs)
   * and its LineTerminator production (LF, CR, line and paragraph
   * separator).
   */
  predicate IsWhitespace(c: char) {
    // tab, line feed, vertical tab, form feed, carriage return
    ('\U{0009}' <= c <= '\U{000D}') ||
    // space, no-break space, ogham space mark
    c == '\U{0020}' || c == '\U{00A0}' || c == '\U{1680}' ||
    // en quad to hair space
    ('\U{2000}' <= c <= '\U{200A}') ||
    // line separator, paragraph separator
    c == '\U{2028}' || c == '\U{2029}' ||
    // narrow no-break space, medium mathematical space, ideographic space
    c == '\U{202F}' || c == '\U{205F}' || c == '\U{3000}' ||
    // zero width no-break space
    c == '\U{FEFF}'
  }

  /** Drops the leading whitespace: what is left is a suffix that starts with a non-blank. */
  function TrimStart(s: string): (r: string)
    ensures |r| <= |s| && r == s[|s| - |r|..]
    ensures forall i :: 0 <= i < |s| - |r| ==> IsWhitespace(s[i])
    ensures r == [] || !IsWhitespace(r[0])
  {
    if s != [] && IsWhitespace(s[0]) then TrimStart(s[1..]) else s
  }

  /** Drops the trailing whitespace: what is left is a prefix that ends with a non-blank. */
  function TrimEnd(s: string): (r: string)
    ensures |r| <= |s| && r == s[..|r|]
    ensures forall i :: |r| <= i < |s| ==> IsWhitespace(s[i])
    ensures r == [] || !IsWhitespace(r[|r| - 1])
  {
    if s != [] && IsWhitespace(s[|s| - 1]) then TrimEnd(s[..|s| - 1]) else s
  }

  /** String.prototype.trim: both ends stripped. */
  function Trim(s: string): string {
    TrimEnd(TrimStart(s))
  }

  /** The add handler's guard: the text is falsy once trimmed. */
  predicate IsBlank(text: string) {
    Trim(text) == ""
  }

  /** A text is rejected exactly when every one of its characters is whitespace. */
  lemma BlankIffAllWhitespace(text: string)
    ensures IsBlank(text) <==> forall i :: 0 <= i < |text| ==> IsWhitespace(text[i])
  {
    var t := TrimStart(text);
    if !forall i :: 0 <= i < |text| ==> IsWhitespace(text[i]) {
      var i :| 0 <= i < |text| && !IsWhitespace(text[i]);
      assert |text| - |t| <= i;
      assert t[i - (|text| - |t|)] == text[i];
      assert TrimEnd(t) != [];
    }
  }

  /** Trimming keeps exactly the stretch of the text between its first and last non-blank. */
  lemma TrimIsInnerSlice(text: string) returns (lo: nat, hi: nat)
    ensures lo <= hi <= |text| && |Trim(text)| == hi - lo
    ensures forall i :: lo <= i < hi ==> Trim(text)[i - lo] == text[i]
    ensures forall i :: 0 <= i < lo ==> IsWhitespace(text[i])
    ensures forall i :: hi <= i < |text| ==> IsWhitespace(text[i])
    ensures Trim(text) == [] || (!IsWhitespace(Trim(text)[0]) && !IsWhitespace(Trim(text)[|Trim(text)| - 1]))
  {
    var t := TrimStart(text);
    var u := TrimEnd(t);
    lo := |text| - |t|;
    hi := lo + |u|;
    forall i | lo <= i < |text| ensures text[i] == t[i - lo] {
      assert t == text[lo..];
    }
    forall i | lo <= i < hi ensures u[i - lo] == text[i] {
      assert u == t[..|u|];
    }
    forall i | hi <= i < |text| ensures IsWhitespace(text[i]) {
      assert |u| <= i - lo < |t|;
    }
    if u != [] {
      assert u[0] == t[0] by {
        assert u == t[..|u|];
      }
    }
  }

  // ---------------------------------------------------------------------
  // The list operations
  // ---------------------------------------------------------------------

  /** toggleItem: flips `done` on every item with this id; everything else stays. */
  function Toggle(items: seq<Item>, id: int): (r: seq<Item>)
    ensures |r| == |items|
    ensures forall k :: 0 <= k < |items| ==>
      r[k].id == items[k].id && r[k].text == items[k].text &&
      (r[k].done <==> (if items[k].id == id then !items[k].done else items[k].done))
    ensures forall k :: 0 <= k < |items| && items[k].id != id ==> r[k] == items[k]
  {
    if items == [] then []
    else
      var head := if items[0].id == id then items[0].(done := !items[0].done) else items[0];
      [head] + Toggle(items[1..], id)
  }

  /** addItem: a blank text changes nothing; otherwise one new unchecked item, text as typed, goes last. */
  function Add(items: seq<Item>, text: string, id: int): (r: seq<Item>)
    ensures IsBlank(text) ==> r == items
    ensures !IsBlank(text) ==>
      |r| == |items| + 1 && r[..|items|] == items && r[|items|] == Item(id, text, false)
  {
    if IsBlank(text) then items else items + [Item(id, text, false)]
  }

  /** removeItem: keeps exactly the items whose id differs, in their order. */
  function Remove(items: seq<Item>, id: int): (r: seq<Item>)
    ensures forall x :: x in r <==> x in items && x.id != id
    ensures |r| == |items| - CountId(items, id)
    ensures !HasId(r, id)
    ensures IsSubsequence(r, items)
  {
    if items == [] then []
    else
      assert items == [items[0]] + items[1..];
      if items[0].id == id then Remove(items[1..], id)
      else [items[0]] + Remove(items[1..], id)
  }

  /** allDone: every item is checked off (so an empty list is all done). */
  function AllDone(items: seq<Item>): (r: bool)
    ensures r <==> forall k :: 0 <= k < |items| ==> items[k].done
  {
    items == [] || (items[0].done && AllDone(items[1..]))
  }

  /** The list completeDay leaves: every item unchecked, nothing else changed. */
  function ResetDone(items: seq<Item>): (r: seq<Item>)
    ensures |r| == |items|
    ensures forall k :: 0 <= k < |items| ==>
      r[k].id == items[k].id && r[k].text == items[k].text && !r[k].done
  {
    if items == [] then [] else [items[0].(done := false)] + ResetDone(items[1..])
  }

  // ---------------------------------------------------------------------
  // Properties of the operations
  // ---------------------------------------------------------------------

  /** The default list: ids 1 to 4, each once, none done. */
  lemma DefaultItemsShape()
    ensures |DefaultItems| == 4
    ensures forall k :: 0 <= k < 4 ==> DefaultItems[k].id == k + 1 && !DefaultItems[k].done
    ensures !AllDone(DefaultItems)
  {
  }

  /** Toggling the same id twice gives back the list. */
  lemma {:induction false} ToggleTwice(items: seq<Item>, id: int)
    ensures Toggle(Toggle(items, id), id) == items
  {
    var r := Toggle(Toggle(items, id), id);
    forall k | 0 <= k < |items| ensures r[k] == items[k] {
      assert r[k].id == items[k].id && r[k].text == items[k].text && r[k].done == items[k].done;
    }
  }

  /** Toggling an id nobody carries changes nothing. */
  lemma ToggleAbsent(items: seq<Item>, id: int)
    requires !HasId(items, id)
    ensures Toggle(items, id) == items
  {
    var r := Toggle(items, id);
    forall k | 0 <= k < |items| ensures r[k] == items[k] {
      assert items[k].id != id;
    }
  }

  /** Toggles of two ids commute, so only how often each id was toggled matters. */
  lemma ToggleCommutes(items: seq<Item>, a: int, b: int)
    ensures Toggle(Toggle(items, a), b) == Toggle(Toggle(items, b), a)
  {
    var r, q := Toggle(Toggle(items, a), b), Toggle(Toggle(items, b), a);
    forall k | 0 <= k < |items| ensures r[k] == q[k] {
      assert r[k].id == q[k].id && r[k].text == q[k].text && r[k].done == q[k].done;
    }
  }

  /** A run of toggle clicks, applied left to right. */
  function ApplyToggles(items: seq<Item>, ids: seq<int>): seq<Item>
    decreases |ids|
  {
    if ids == [] then items else ApplyToggles(Toggle(items, ids[0]), ids[1..])
  }

  /** How often `x` occurs in `ids`. */
  function Occurrences(ids: seq<int>, x: int): nat {
    if ids == [] then 0 else (if ids[0] == x then 1 else 0) + Occurrences(ids[1..], x)
  }

  /**
   * After any run of toggle clicks the list keeps its length, order, ids
   * and texts, and an item is done exactly when it started done XOR its id
   * was clicked an odd number of times.
   */
  lemma {:induction false} ApplyTogglesParity(items: seq<Item>, ids: seq<int>)
    ensures |ApplyToggles(items, ids)| == |items|
    ensures forall k :: 0 <= k < |items| ==>
      ApplyToggles(items, ids)[k].id == items[k].id &&
      ApplyToggles(items, ids)[k].text == items[k].text &&
      (ApplyToggles(items, ids)[k].done <==> (items[k].done != (Occurrences(ids, items[k].id) % 2 == 1)))
    decreases |ids|
  {
    if ids != [] {
      var t := Toggle(items, ids[0]);
      ApplyTogglesParity(t, ids[1..]);
    }
  }

  /** Adding an item with a fresh id and removing that id gives back the list. */
  lemma {:induction false} RemoveAfterAdd(items: seq<Item>, text: string, id: int)
    requires !HasId(items, id)
    ensures Remove(Add(items, text, id), id) == items
  {
    if !IsBlank(text) {
      RemoveConcat(items, [Item(id, text, false)], id);
    }
    RemoveAbsent(items, id);
  }

  /** Removing an id nobody carries changes nothing. */
  lemma {:induction false} RemoveAbsent(items: seq<Item>, id: int)
    requires !HasId(items, id)
    ensures Remove(items, id) == items
  {
    if items != [] {
      assert items[0].id != id;
      assert !HasId(items[1..], id) by {
        forall k | 0 <= k < |items[1..]| ensures items[1..][k].id != id {
          assert items[1..][k] == items[k + 1];
        }
      }
      RemoveAbsent(items[1..], id);
      assert items == [items[0]] + items[1..];
    }
  }

  /** Removing is idempotent. */
  lemma RemoveTwice(items: seq<Item>, id: int)
    ensures Remove(Remove(items, id), id) == Remove(items, id)
  {
    RemoveAbsent(Remove(items, id), id);
  }

  /** Remove works element by element: it distributes over concatenation. */
  lemma {:induction false} RemoveConcat(a: seq<Item>, b: seq<Item>, id: int)
    ensures Remove(a + b, id) == Remove(a, id) + Remove(b, id)
  {
    if a != [] {
      assert (a + b)[1..] == a[1..] + b;
      RemoveConcat(a[1..], b, id);
    } else {
      assert a + b == b;
    }
  }

  /** After completing a day nothing is done, so the list is all done only when empty. */
  lemma ResetDoneNotAllDone(items: seq<Item>)
    ensures AllDone(ResetDone(items)) <==> items == []
  {
    if items != [] {
      assert !ResetDone(items)[0].done;
    }
  }

  /** Resetting twice is the same as resetting once. */
  lemma ResetDoneTwice(items: seq<Item>)
    ensures ResetDone(ResetDone(items)) == ResetDone(items)
  {
    var r, q := ResetDone(ResetDone(items)), ResetDone(items);
    forall k | 0 <= k < |items| ensures r[k] == q[k] {
      assert r[k].id == q[k].id && r[k].text == q[k].text && r[k].done == q[k].done;
    }
  }
}
