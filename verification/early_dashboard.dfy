/**
  The earlier dashboard controller of `frontend/src/pages/WeatherDashboard.tsx`:
  cards, loading flag and error only, no detail view. Unlike the later
  controller, a successful add does not clear the error.
 */
module EarlyDashboard {
  import opened Js
  import opened Weather

  /** The component's `useState` hooks. */
  datatype State = State(cards: seq<Card>, loading: bool, error: Option<string>)

  /** State on mount: no cards, loading, no error. */
  const Initial := State([], true, None)

  /** What the component renders below the search bar. */
  datatype Screen = Loading | ErrorBanner(message: string) | Grid(cards: seq<Card>)

  /** The three conditional blocks: "Loading..." while loading, otherwise the
      error if it is truthy, otherwise the grid of the current cards. */
  function Render(s: State): (v: Screen)
    ensures v.Loading? <==> s.loading
    ensures v.ErrorBanner? ==> s.error == Some(v.message) && v.message != ""
    ensures v.Grid? <==> !s.loading && !TruthyText(s.error)
    ensures v.Grid? ==> v.cards == s.cards
  {
    if s.loading then Loading
    else if TruthyText(s.error) then ErrorBanner(s.error.value)
    else Grid(s.cards)
  }

  /** The card grid is rendered. */
  predicate GridVisible(s: State) {
    Render(s).Grid?
  }

  /** The mount effect once `fetchAllWeatherFromCities` has settled. */
  function Load(s: State, batch: Fetch<seq<Card>>): (r: State)
    ensures !r.loading
    ensures batch.Resolved? ==> r.cards == batch.value && r.error == s.error
    ensures batch.Rejected? ==> r.cards == s.cards && r.error == Some(LoadFailed)
  {
    match batch
    case Resolved(data) => s.(cards := data, loading := false)
    case Rejected => s.(error := Some(LoadFailed), loading := false)
  }

  /** `handleAddCity(cityName)` once `fetchWeatherByName(cityName)` has
      settled with `found`; a blank name returns before any fetch. */
  function AddCity(s: State, cityName: string, found: Fetch<Card>): (r: State)
    ensures IsBlank(cityName) ==> r == s
    ensures !IsBlank(cityName) && found.Resolved? ==>
      && |r.cards| == |s.cards| + 1
      && r.cards[..|s.cards|] == s.cards
      && r.cards[|s.cards|] == found.value
      && r.error == s.error
    ensures !IsBlank(cityName) && found.Rejected? ==>
      r.cards == s.cards && r.error == Some(CityNotFound)
    ensures r.loading == s.loading
  {
    if IsBlank(cityName) then s
    else match found
      case Resolved(item) => s.(cards := s.cards + [item])
      case Rejected => s.(error := Some(CityNotFound))
  }

  /** `handleRemoveCity(id)`: the cards are filtered by id, nothing else moves. */
  function RemoveCity(s: State, id: string): (r: State)
    ensures r.cards == Without(s.cards, id)
    ensures forall c :: c in r.cards <==> c in s.cards && c.id != id
    ensures |r.cards| == |s.cards| - CountId(s.cards, id)
    ensures r.(cards := s.cards) == s
  {
    s.(cards := Without(s.cards, id))
  }

  /** One user action or settled fetch. */
  datatype Event =
    | Loaded(batch: Fetch<seq<Card>>)
    | SubmitCity(name: string, found: Fetch<Card>)
    | RemoveCard(id: string)

  function Step(s: State, e: Event): State {
    match e
    case Loaded(batch) => Load(s, batch)
    case SubmitCity(name, found) => AddCity(s, name, found)
    case RemoveCard(id) => RemoveCity(s, id)
  }

  /** The state after a sequence of events. */
  function Run(s: State, events: seq<Event>): State
    decreases |events|
  {
    if events == [] then s else Run(Step(s, events[0]), events[1..])
  }

  /** On mount the grid is hidden behind the loading text. */
  lemma InitialHidesGrid()
    ensures Initial.cards == [] && Initial.loading && Initial.error == None
    ensures !GridVisible(Initial)
  {
  }

  /** No handler clears the error: once one is shown the grid stays hidden
      for every later sequence of events, while the cards themselves keep
      changing underneath. */
  lemma {:induction false} ErrorIsSticky(s: State, events: seq<Event>)
    requires s.error.Some? && s.error.value in {LoadFailed, CityNotFound}
    ensures var r := Run(s, events);
      r.error.Some? && r.error.value in {LoadFailed, CityNotFound} && !GridVisible(r)
    decreases |events|
  {
    if events != [] {
      ErrorIsSticky(Step(s, events[0]), events[1..]);
    }
  }

  /** In every reachable state the error is unset or one of the two messages,
      so the grid is visible exactly when loading has finished and no error
      was ever set. */
  lemma {:induction false} ReachableGrid(s: State, events: seq<Event>)
    requires s.error.None? || s.error.value in {LoadFailed, CityNotFound}
    ensures var r := Run(s, events);
      GridVisible(r) <==> !r.loading && r.error.None?
    ensures s.error.Some? ==> Run(s, events).error.Some?
    decreases |events|
  {
    if events != [] {
      ReachableGrid(Step(s, events[0]), events[1..]);
    }
  }
}
