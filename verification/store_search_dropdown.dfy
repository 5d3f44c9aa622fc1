/**
 * The store picker of owner registration
 * (src/features/auth/components/StoreSearchDropdown.tsx) and the search it calls
 * (src/features/auth/services/CheckStoreNameAPI.tsx, the same endpoint as the
 * customer search but without removing duplicates).
 *
 * The 300 ms debounce and the 150 ms blur delay are not timed: each is one step that
 * runs when its timer fires, on the state at that moment.
 */
module StoreSearchDropdown {
  import opened Optional
  import JsText
  import StoreSearch

  const DebounceMs: nat := 300
  const BlurDelayMs: nat := 150
  const MinQueryLength: nat := 2

  /** The picker's state. A result entry is `None` where the search handed back `null`. */
  datatype Dropdown = Dropdown(
    query: string,
    results: seq<Option<StoreSearch.StoreData>>,
    isSearching: bool,
    show: bool,
    selected: Option<StoreSearch.StoreData>)

  const Initial: Dropdown := Dropdown("", [], false, false, None)

  /** Every store of `xs`, each present. */
  function Present(xs: seq<StoreSearch.StoreData>): (r: seq<Option<StoreSearch.StoreData>>)
    ensures |r| == |xs|
    ensures forall i :: 0 <= i < |xs| ==> r[i] == Some(xs[i])
  {
    seq(|xs|, i requires 0 <= i < |xs| => Some(xs[i]))
  }

  /** `searchStores` of the registration search: the wrapped payload on a success status,
      the empty list on any failure; it never rejects. A missing payload comes back as
      the one-entry list `[null]`, since nothing here reads a field of it. */
  function SearchNames(reply: StoreSearch.SearchReply): (stores: seq<Option<StoreSearch.StoreData>>)
    ensures StoreSearch.Delivered(reply) ==>
      |stores| == |StoreSearch.Wrap(reply.data)| &&
      forall i :: 0 <= i < |stores| ==> stores[i] == Some(StoreSearch.Wrap(reply.data)[i])
    ensures StoreSearch.Succeeded(reply) && reply.data.Missing? ==> stores == [None]
    ensures !StoreSearch.Succeeded(reply) ==> stores == []
  {
    if StoreSearch.Delivered(reply) then Present(StoreSearch.Wrap(reply.data))
    else if StoreSearch.Succeeded(reply) then [None]
    else []
  }

  /** Typing: only the query changes; the search waits for the debounce. */
  function SetQuery(d: Dropdown, text: string): (e: Dropdown)
    ensures e == d.(query := text)
  {
    d.(query := text)
  }

  /** The debounce timer fires: a query with at least two characters once trimmed starts
      a search for its trimmed form and the spinner shows; a shorter one clears and hides
      the list. Returns the state and the query sent, if any. */
  function Debounced(d: Dropdown): (r: (Dropdown, Option<string>))
    ensures |JsText.Trim(d.query)| >= MinQueryLength ==>
      r.1 == Some(JsText.Trim(d.query)) && r.0 == d.(isSearching := true)
    ensures |JsText.Trim(d.query)| < MinQueryLength ==>
      r.1.None? && r.0 == d.(results := [], show := false)
  {
    var t := JsText.Trim(d.query);
    if |t| >= MinQueryLength then (d.(isSearching := true), Some(t))
    else (d.(results := [], show := false), None)
  }

  /** `performSearch` once its request settles: the results replace the list, which shows
      only when non-empty; a rejection (`None`) empties and hides it; the spinner stops
      either way. */
  function PerformSearch(d: Dropdown, outcome: Option<seq<Option<StoreSearch.StoreData>>>): (e: Dropdown)
    ensures !e.isSearching
    ensures outcome.Some? ==> e.results == outcome.value && (e.show <==> outcome.value != [])
    ensures outcome.None? ==> e.results == [] && !e.show
    ensures e.query == d.query && e.selected == d.selected
  {
    match outcome
    case Some(results) => d.(results := results, show := |results| > 0, isSearching := false)
    case None => d.(results := [], show := false, isSearching := false)
  }

  /** `handleStoreSelect`: the store is selected, its name becomes the query, the list
      hides, and the store is handed to the parent. */
  function SelectStore(d: Dropdown, store: StoreSearch.StoreData): (r: (Dropdown, StoreSearch.StoreData))
    ensures r.0.selected == Some(store) && r.0.query == store.name && !r.0.show && r.1 == store
    ensures r.0.results == d.results && r.0.isSearching == d.isSearching
  {
    (d.(selected := Some(store), query := store.name, show := false), store)
  }

  /** `handleInputFocus`: reopen the list when it has results. */
  function Focus(d: Dropdown): (e: Dropdown)
    ensures d.results != [] ==> e == d.(show := true)
    ensures d.results == [] ==> e == d
  {
    if |d.results| > 0 then d.(show := true) else d
  }

  /** The blur timer fires: the list hides. */
  function BlurElapsed(d: Dropdown): (e: Dropdown)
    ensures e == d.(show := false)
  {
    d.(show := false)
  }

  /** The list is only ever shown with something in it. */
  predicate ShownWithResults(d: Dropdown) {
    d.show ==> |d.results| > 0
  }

  /** The list is drawn and one of its entries is absent: reading `storeId` of that
      entry for its key throws while rendering. */
  predicate RenderThrows(d: Dropdown) {
    d.show && |d.results| > 0 && None in d.results
  }

  datatype Event =
    | Type(text: string)
    | DebounceFires
    | SearchReturns(reply: StoreSearch.SearchReply)
    | Select(store: StoreSearch.StoreData)
    | FocusInput
    | BlurFires

  function Step(d: Dropdown, ev: Event): Dropdown {
    match ev
    case Type(t) => SetQuery(d, t)
    case DebounceFires => Debounced(d).0
    case SearchReturns(reply) => PerformSearch(d, Some(SearchNames(reply)))
    case Select(s) => SelectStore(d, s).0
    case FocusInput => Focus(d)
    case BlurFires => BlurElapsed(d)
  }

  function Replay(d: Dropdown, events: seq<Event>): Dropdown
    decreases |events|
  {
    if events == [] then d else Replay(Step(d, events[0]), events[1..])
  }

  /** Under any interleaving of typing, debounce and blur timers, search replies,
      selections and focus, a list that starts hidden or non-empty is never shown empty. */
  lemma {:induction false} NeverShownEmpty(d: Dropdown, events: seq<Event>)
    requires ShownWithResults(d)
    ensures ShownWithResults(Replay(d, events))
    decreases |events|
  {
    if events != [] {
      var e := Step(d, events[0]);
      assert ShownWithResults(e);
      NeverShownEmpty(e, events[1..]);
    }
  }

  /** Once a search has started, the spinner stays on through anything but a search
      reply; the first reply turns it off. */
  lemma {:induction false} SearchingUntilSettled(d: Dropdown, events: seq<Event>, reply: StoreSearch.SearchReply)
    requires d.isSearching
    requires forall i :: 0 <= i < |events| ==> !events[i].SearchReturns?
    ensures Replay(d, events).isSearching
    ensures !Step(Replay(d, events), SearchReturns(reply)).isSearching
    decreases |events|
  {
    if events != [] {
      assert !events[0].SearchReturns?;
      SearchingUntilSettled(Step(d, events[0]), events[1..], reply);
    }
  }

  /** A success reply without a payload opens the list on a single absent entry, whose
      rendering throws. */
  lemma NullPayloadBreaksList(d: Dropdown, reply: StoreSearch.SearchReply)
    requires StoreSearch.Succeeded(reply) && reply.data.Missing?
    ensures var e := Step(d, SearchReturns(reply));
      e.show && e.results == [None] && RenderThrows(e)
  {
  }

  lemma ReplayHead(d: Dropdown, events: seq<Event>)
    requires events != []
    ensures Replay(d, events) == Replay(Step(d, events[0]), events[1..])
  {
  }

  lemma ReplayThree(d: Dropdown, a: Event, b: Event, c: Event)
    ensures Replay(d, [a, b, c]) == Step(Step(Step(d, a), b), c)
  {
    var e1 := Step(d, a);
    var e2 := Step(e1, b);
    ReplayHead(d, [a, b, c]);
    assert [a, b, c][1..] == [b, c];
    ReplayHead(e1, [b, c]);
    assert [b, c][1..] == [c];
    ReplayHead(e2, [c]);
    assert [c][1..] == [];
  }

  lemma SelectThenSearch(d: Dropdown, store: StoreSearch.StoreData, reply: StoreSearch.SearchReply)
    ensures Replay(d, [Select(store), DebounceFires, SearchReturns(reply)])
      == PerformSearch(Debounced(SelectStore(d, store).0).0, Some(SearchNames(reply)))
  {
    ReplayThree(d, Select(store), DebounceFires, SearchReturns(reply));
    var e1 := Step(d, Select(store));
    StepSelect(d, store);
    var e2 := Step(e1, DebounceFires);
    StepDebounce(e1);
    StepReturns(e2, reply);
  }

  lemma StepSelect(d: Dropdown, store: StoreSearch.StoreData)
    ensures Step(d, Select(store)) == SelectStore(d, store).0
  {
  }

  lemma StepDebounce(d: Dropdown)
    ensures Step(d, DebounceFires) == Debounced(d).0
  {
  }

  lemma StepReturns(d: Dropdown, reply: StoreSearch.SearchReply)
    ensures Step(d, SearchReturns(reply)) == PerformSearch(d, Some(SearchNames(reply)))
  {
  }

  /** Selecting a store whose name differs from the query changes the query, so the
      debounce fires again, searches that name, and reopens the list when it is found. */
  lemma SelectionReopensList(d: Dropdown, store: StoreSearch.StoreData, reply: StoreSearch.SearchReply)
    requires d.query != store.name
    requires |JsText.Trim(store.name)| >= MinQueryLength
    requires StoreSearch.Delivered(reply) && StoreSearch.Wrap(reply.data) != []
    ensures var e := Replay(d, [Select(store), DebounceFires, SearchReturns(reply)]);
      e.show && e.selected == Some(store)
  {
    SelectThenSearch(d, store, reply);
    var e1 := SelectStore(d, store).0;
    assert |JsText.Trim(e1.query)| >= MinQueryLength;
    assert |SearchNames(reply)| > 0;
  }
}
