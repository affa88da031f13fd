/**
  The dashboard controller of `src/pages/WeatherDashboard.tsx`: the grid of
  city cards, the search bar's add action, removal, and the detail view of
  one city. Each handler is one atomic transition of the state record; the
  settled outcome of each remote fetch is an input.
 */
module Dashboard {
  import opened Js
  import opened Weather
  import SearchBar

  const DetailFailed := "Failed to load weather details"

  /** The component's `useState` hooks. */
  datatype State = State(
    cards: seq<Card>,
    loading: bool,
    error: Option<string>,
    selectedCity: Option<Detail>,
    loadingDetail: bool)

  /** State on mount: no cards, loading, no error, list view. */
  const Initial := State([], true, None, None, false)

  /** What the component renders, leaving out the fixed chrome (header,
      search bar, profile bar, footer). */
  datatype Screen =
    | LoadingDetails        // detail view, "Loading details..."
    | DetailView(detail: Detail)
    | Loading               // list view, "Loading..."
    | ErrorBanner(message: string)
    | Grid(cards: seq<Card>)

  /** The render of the component for state `s`. */
  function Render(s: State): (v: Screen)
    ensures (v.LoadingDetails? || v.DetailView?) <==> s.selectedCity.Some?
    ensures v.DetailView? <==> s.selectedCity.Some? && !s.loadingDetail
    ensures v.DetailView? ==> s.selectedCity == Some(v.detail)
    ensures v.Loading? <==> s.selectedCity.None? && s.loading
    ensures v.ErrorBanner? ==> s.error == Some(v.message) && v.message != ""
    ensures v.Grid? <==> s.selectedCity.None? && !s.loading && !TruthyText(s.error)
    ensures v.Grid? ==> v.cards == s.cards
  {
    if s.selectedCity.Some? then
      if s.loadingDetail then LoadingDetails else DetailView(s.selectedCity.value)
    else if s.loading then Loading
    else if TruthyText(s.error) then ErrorBanner(s.error.value)
    else Grid(s.cards)
  }

  /** The mount effect once `fetchAllWeatherFromCities` has settled. */
  function Load(s: State, batch: Fetch<seq<Card>>): (r: State)
    ensures !r.loading
    ensures batch.Resolved? ==> r.cards == batch.value && r.error == s.error
    ensures batch.Rejected? ==> r.cards == s.cards && r.error == Some(LoadFailed)
    ensures r.selectedCity == s.selectedCity && r.loadingDetail == s.loadingDetail
  {
    match batch
    case Resolved(data) => s.(cards := data, loading := false)
    case Rejected => s.(error := Some(LoadFailed), loading := false)
  }

  /** `handleAddCity(cityName)` once `fetchWeatherByName(cityName)` has
      settled with `found`; a blank name returns before any fetch. */
  function AddCity(s: State, cityName: string, found: Fetch<Card>): (r: State)
    ensures IsBlank(cityName) ==> r == s
    ensures !IsBlank(cityName) && found.Resolved? ==>
      && |r.cards| == |s.cards| + 1
      && r.cards[..|s.cards|] == s.cards
      && r.cards[|s.cards|] == found.value
      && r.error == None
    ensures !IsBlank(cityName) && found.Rejected? ==>
      r.cards == s.cards && r.error == Some(CityNotFound)
    ensures r.(cards := s.cards, error := s.error) == s
  {
    if IsBlank(cityName) then s
    else match found
      case Resolved(item) => s.(cards := s.cards + [item], error := None)
      case Rejected => s.(error := Some(CityNotFound))
  }

  /** `handleRemoveCity(id)`: the cards are filtered by id, nothing else moves. */
  function RemoveCity(s: State, id: string): (r: State)
    ensures r.cards == Without(s.cards, id)
    ensures forall c :: c in r.cards <==> c in s.cards && c.id != id
    ensures |r.cards| == |s.cards| - CountId(s.cards, id)
    ensures r.(cards := s.cards) == s
  {
    s.(cards := Without(s.cards, id))
  }

  /** `handleCardClick(cityId)` once `fetchDetailedWeatherById(cityId)` has
      settled with `detail`. The intermediate `loadingDetail = true` render is
      not a state of this model. */
  function CardClick(s: State, cityId: string, detail: Fetch<Detail>): (r: State)
    ensures !r.loadingDetail
    ensures detail.Resolved? ==> r.selectedCity == Some(detail.value) && r.error == s.error
    ensures detail.Rejected? ==>
      r.selectedCity == s.selectedCity && r.error == Some(DetailFailed)
    ensures r.cards == s.cards && r.loading == s.loading
  {
    match detail
    case Resolved(d) => s.(selectedCity := Some(d), loadingDetail := false)
    case Rejected => s.(error := Some(DetailFailed), loadingDetail := false)
  }

  /** `handleBack`: back to the list; nothing but the selection changes. */
  function Back(s: State): (r: State)
    ensures r.selectedCity == None
    ensures r.(selectedCity := s.selectedCity) == s
  {
    s.(selectedCity := None)
  }

  /** The detail view's `onRemove`: remove the shown city, then go back. The
      control exists only while a city is selected. */
  function RemoveSelected(s: State): (r: State)
    requires s.selectedCity.Some?
    ensures r.selectedCity == None
    ensures forall c :: c in r.cards ==> c.id != s.selectedCity.value.id
    ensures r == Back(RemoveCity(s, s.selectedCity.value.id))
  {
    var id := s.selectedCity.value.id;
    s.(cards := Without(s.cards, id), selectedCity := None)
  }

  /** One user action or settled fetch. */
  datatype Event =
    | Loaded(batch: Fetch<seq<Card>>)
    | SubmitCity(name: string, found: Fetch<Card>)
    | RemoveCard(id: string)
    | OpenCard(cityId: string, detail: Fetch<Detail>)
    | PressBack
    | RemoveShown

  /** The transition for one event. `RemoveShown` without a selection cannot
      be triggered, as its control is not rendered, and changes nothing. */
  function Step(s: State, e: Event): State {
    match e
    case Loaded(batch) => Load(s, batch)
    case SubmitCity(name, found) => AddCity(s, name, found)
    case RemoveCard(id) => RemoveCity(s, id)
    case OpenCard(cityId, detail) => CardClick(s, cityId, detail)
    case PressBack => Back(s)
    case RemoveShown => if s.selectedCity.Some? then RemoveSelected(s) else s
  }

  /** The state after a sequence of events. */
  function Run(s: State, events: seq<Event>): State
    decreases |events|
  {
    if events == [] then s else Run(Step(s, events[0]), events[1..])
  }

  /** The invariant of every state the component reaches: no detail load is
      pending between transitions, and the error, when set, is one of the
      three messages the handlers write. */
  predicate Settled(s: State) {
    && !s.loadingDetail
    && (s.error.None? || s.error.value in {LoadFailed, CityNotFound, DetailFailed})
  }

  /** On mount the list view shows "Loading...". */
  lemma InitialShowsLoading()
    ensures Initial.cards == [] && Initial.loading && Initial.error == None
    ensures Initial.selectedCity == None && !Initial.loadingDetail
    ensures Settled(Initial)
    ensures Render(Initial) == Loading
  {
  }

  /** Every transition keeps the invariant. */
  lemma StepKeepsSettled(s: State, e: Event)
    requires Settled(s)
    ensures Settled(Step(s, e))
  {
  }

  /** Every state reached from the initial one satisfies the invariant. */
  lemma {:induction false} RunKeepsSettled(s: State, events: seq<Event>)
    requires Settled(s)
    ensures Settled(Run(s, events))
    decreases |events|
  {
    if events != [] {
      StepKeepsSettled(s, events[0]);
      RunKeepsSettled(Step(s, events[0]), events[1..]);
    }
  }

  /** In every reachable state the detail view shows the selected city itself
      (never the loading text), and the grid is shown exactly when there is no
      selection, loading has finished and no error is set. */
  lemma ReachableScreens(events: seq<Event>)
    ensures var s := Run(Initial, events);
      && (Render(s).DetailView? <==> s.selectedCity.Some?)
      && (Render(s).Grid? <==> s.selectedCity.None? && !s.loading && s.error.None?)
  {
    RunKeepsSettled(Initial, events);
  }

  /** Only a successful add of a non-blank name clears an error; in
      particular a failed detail load hides the grid until such an add. */
  lemma OnlySuccessfulAddClearsError(s: State, e: Event)
    requires s.error.Some?
    ensures Step(s, e).error.None? <==>
      e.SubmitCity? && !IsBlank(e.name) && e.found.Resolved?
  {
  }

  /** Opening a card and going back returns to the list with the cards and
      the error exactly as a plain failed or successful open left them. */
  lemma OpenThenBack(s: State, cityId: string, detail: Fetch<Detail>)
    requires s.selectedCity.None? && !s.loadingDetail
    ensures Back(CardClick(s, cityId, detail))
         == (if detail.Resolved? then s else s.(error := Some(DetailFailed)))
  {
  }

  /** Every name the search bar hands to `handleAddCity` passes its blank
      guard, so a search submit either appends the fetched card or reports
      the city as not found. */
  lemma SearchSubmitReachesFetch(s: State, input: string, found: Fetch<Card>)
    ensures forall name :: name in SearchBar.Submit(input).added ==>
      AddCity(s, name, found).error ==
        (if found.Resolved? then None else Some(CityNotFound))
  {
  }
}
