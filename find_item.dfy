/** `find_list_item`: a paged linear search through a virtualised list.
    Each attempt looks the item up by title and ListItem control type with a
    short existence timeout; a miss (any exception) costs one click on the
    list's page-down button and a short pause. Absence is reported by
    returning None, never by raising.

    `lookup(i)` is what the lookup finds after `i` page-down clicks. */
module FindItem {
  import opened Common
  import opened Ui

  const DefaultAttempts: int := 20
  const LookupTimeoutMs: int := 200
  const PagePauseMs: int := 100

  /** The button that pages the list forward. */
  const DownButton: Locator := Locator("向下翻页", Some("DownPageButton"), Button)

  /** Items are always matched by their title and the ListItem type. */
  function ItemLocator(title: string): Locator {
    Locator(title, None, ListItem)
  }

  function LookupAction(title: string): Action {
    Lookup(ItemLocator(title), LookupTimeoutMs)
  }

  /** One failed attempt: the lookup, a page-down click, the pause. */
  function Miss(title: string): seq<Action> {
    [LookupAction(title), ClickInput(DownButton), Sleep(PagePauseMs)]
  }

  function Misses(title: string, n: nat): seq<Action> {
    if n == 0 then [] else Miss(title) + Misses(title, n - 1)
  }

  /** The search's return value, the final value of its `current_attempt`
      counter, and the actions it issued. */
  datatype Search = Search(item: Option<Element>, missed: nat, trace: seq<Action>)

  /** The search from the point where `i` attempts have missed. */
  function SearchFrom(lookup: nat -> Option<Element>, title: string, attempts: int, i: nat): Search
    decreases attempts - i
  {
    if i >= attempts then Search(None, i, [])
    else match lookup(i)
      case Some(e) => Search(Some(e), i, [LookupAction(title)])
      case None =>
        var rest := SearchFrom(lookup, title, attempts, i + 1);
        Search(rest.item, rest.missed, Miss(title) + rest.trace)
  }

  /** The search in closed form: it stops at the first page, from `i` on,
      where the lookup finds the item, and returns that item; it reports
      None exactly when no page before `attempts` has it, having then missed
      on every one of them; each miss issues one lookup, one page-down click
      and one pause, and a hit one more lookup. */
  lemma {:induction false} SearchOutcome(lookup: nat -> Option<Element>, title: string, attempts: int, i: nat)
    ensures SearchFrom(lookup, title, attempts, i).missed >= i
    ensures forall j :: i <= j < SearchFrom(lookup, title, attempts, i).missed ==> lookup(j).None?
    ensures var r := SearchFrom(lookup, title, attempts, i);
      r.item.Some? ==> r.missed < attempts && r.item == lookup(r.missed)
    ensures var r := SearchFrom(lookup, title, attempts, i);
      r.item.None? ==> r.missed == (if i < attempts then attempts else i)
    ensures SearchFrom(lookup, title, attempts, i).item.Some? <==> exists k :: i <= k < attempts && lookup(k).Some?
    ensures var r := SearchFrom(lookup, title, attempts, i);
      r.trace == Misses(title, r.missed - i) + (if r.item.Some? then [LookupAction(title)] else [])
    decreases attempts - i
  {
    if i < attempts && lookup(i).None? {
      SearchOutcome(lookup, title, attempts, i + 1);
    }
  }

  /** The loop as the source writes it; `missed` is `current_attempt`. */
  method FindListItem(lookup: nat -> Option<Element>, title: string, attempts: int := DefaultAttempts)
    returns (item: Option<Element>, missed: nat, trace: seq<Action>)
    ensures Search(item, missed, trace) == SearchFrom(lookup, title, attempts, 0)
    ensures missed <= (if attempts < 0 then 0 else attempts)
  {
    item := None;
    missed := 0;
    trace := [];
    var i := 0;
    ghost var spec := SearchFrom(lookup, title, attempts, 0);
    while i < attempts
      invariant missed == i
      invariant attempts >= 0 ==> i <= attempts
      invariant spec.item == SearchFrom(lookup, title, attempts, i).item
      invariant spec.missed == SearchFrom(lookup, title, attempts, i).missed
      invariant spec.trace == trace + SearchFrom(lookup, title, attempts, i).trace
      decreases attempts - i
    {
      var found := lookup(i);
      if found.Some? {
        item := found;
        trace := trace + [LookupAction(title)];
        break;
      }
      trace := trace + Miss(title);
      missed := missed + 1;
      i := i + 1;
    }
  }

  predicate IsLookup(a: Action) {
    a.Lookup?
  }

  predicate IsPageDown(a: Action) {
    a == ClickInput(DownButton)
  }

  /** k misses cost k lookups and k page-down clicks; a hit adds one lookup
      and no click. */
  lemma {:induction false} SearchCost(title: string, n: nat, hit: bool)
    ensures var t := Misses(title, n) + (if hit then [LookupAction(title)] else []);
      && Count(t, IsLookup) == n + (if hit then 1 else 0)
      && Count(t, IsPageDown) == n
      && |t| == 3 * n + (if hit then 1 else 0)
    decreases n
  {
    var tail: seq<Action> := if hit then [LookupAction(title)] else [];
    if n == 0 {
      assert Misses(title, n) + tail == tail;
    } else {
      SearchCost(title, n - 1, hit);
      assert Misses(title, n) + tail == Miss(title) + (Misses(title, n - 1) + tail);
      var m := Miss(title);
      assert m[1..][1..][1..] == [];
      assert Count(m[1..][1..], IsLookup) == 0 && Count(m[1..][1..], IsPageDown) == 0;
      assert Count(m[1..], IsLookup) == 0 && Count(m[1..], IsPageDown) == 1;
      assert Count(m, IsLookup) == 1 && Count(m, IsPageDown) == 1;
      CountAppend(Miss(title), Misses(title, n - 1) + tail, IsLookup);
      CountAppend(Miss(title), Misses(title, n - 1) + tail, IsPageDown);
    }
  }
}
