# Skymate weather dashboard: a verified model of its client logic

Skymate is a single-page weather dashboard. The user adds and removes cities by name and opens a detailed view per city. Weather lookups are cached in the browser's local storage for five minutes. This project models the parts of the client that hold sequential logic:

- **Cache** (`cache.dfy`): `setCache` / `getCache` over a string-keyed storage. Each entry is the record `{data, time}` as `JSON.parse` sees it, or a malformed item, or the empty string. The clock and storage failures are parameters. Entries live 300000 ms with a strict `<` bound. An expired entry is evicted only when it is read, and every failure is swallowed.
- **Dashboard controllers**:
  - `Dashboard` (`dashboard.dfy`) models `src/pages/WeatherDashboard.tsx`.
  - `EarlyDashboard` (`early_dashboard.dfy`) models the earlier `frontend/src/pages/WeatherDashboard.tsx`.
  - Each handler is one pure transition of the component's state record. The settled outcome of each remote fetch is an input `Fetch<T>` (`Resolved(value)` or `Rejected`).
  - `Render` / `GridVisible` say what is on screen.
  - `Step` / `Run` replay event sequences, which lets the lemmas speak about every reachable state.
- **Forms**:
  - `SearchBar` (`search_bar.dfy`): the trim guard, the untrimmed argument given to `onAddCity`, and the reset of the input.
  - `RegisterForm` (`register_form.dfy`): the password-match check, what `onSubmit` receives, field updates, and error clearing.
- **Shared pieces**:
  - `Js` (`js.dfy`): JavaScript `null`, the truthiness of a nullable string, and `String.prototype.trim`. Its whitespace set is the WhiteSpace and LineTerminator productions of the ECMAScript language specification.
  - `Weather` (`weather.dfy`): cards, details, fetch outcomes, and `Without`, which is `cards.filter((c) => c.id !== id)`.

Behaviour of the code worth noting:

- A failed detail fetch keeps the previous `selectedCity`.
- `handleRemoveCity` does not touch the selection. Only the detail view's `onRemove` clears the selection, by calling `handleBack`.
- The cache lifetime is the 5 * 60 * 1000 ms of `src/utils/cache.ts`.
- A successful add clears the error only in the later controller.

## Model

| member | source | states |
|---|---|---|
| Js.TrimStart | src/components/SearchBar.tsx:14 | the result is a suffix of the input, everything dropped is whitespace, and it does not start with whitespace |
| Js.TrimEnd | src/components/SearchBar.tsx:14 | the result is a prefix of the input, everything dropped is whitespace, and it does not end with whitespace |
| Js.TrimEmptyIffAllWhitespace | src/components/SearchBar.tsx:14 | `s.trim()` is the empty string exactly when every character of `s` is whitespace |
| Js.IsBlank | src/pages/WeatherDashboard.tsx:38 | the guard `!cityName.trim()` holds exactly when every character of the name is whitespace; the empty string is one such case |
| Cache.SetCache | src/utils/cache.ts:5-12 | a successful write stores `{data, time: now}` under the key and overwrites any earlier entry; a failed write leaves storage unchanged; no other key changes |
| Cache.GetCache | src/utils/cache.ts:15-40 | a value is returned iff storage is readable and the key holds a record with `now - time < 300000`, and it is that record's data; storage changes iff the record is no longer young, and then only that key is removed |
| Cache.ReadBackWithinLifetime | src/utils/cache.ts:2-7 | after `setCache(k, v)` at t, `getCache(k)` at t' with 0 <= t' - t < 300000 returns v and leaves storage unchanged |
| Cache.ExpiredNeverReturned | src/utils/cache.ts:26 | once the age reaches 300000 ms the stored value is never returned |
| Cache.MissLeavesStorage | src/utils/cache.ts:17-20 | a missing item, or a stored empty string, reads as null and storage is unchanged |
| Cache.ExpiredReadEvictsOnlyKey | src/utils/cache.ts:32-35 | an expired read returns null and removes exactly its key; all other entries are kept; any later read of that key takes the not-found path |
| Cache.HitKeepsStorage | src/utils/cache.ts:26-29 | a hit returns the stored data and does not modify storage |
| Cache.WriteOverwritesOnlyKey | src/utils/cache.ts:7 | a second write under a key replaces the first; a write never changes what a read of another key returns |
| Cache.FailedWriteIsSwallowed | src/utils/cache.ts:6-11 | a failed write leaves storage, and every later read, exactly as before |
| Cache.UnreadableIsMiss | src/utils/cache.ts:36-39 | when storage access throws, the read returns null and changes nothing |
| Cache.MalformedStays | src/utils/cache.ts:23 | an item `JSON.parse` rejects reads as null and stays in storage |
| Cache.NaNAgeIsEvicted | src/utils/cache.ts:24-35 | a record whose `time` converts to NaN (missing, an object, a non-numeric string) has a NaN age; it is never returned and is removed like an expired entry |
| Cache.NegativeAgeIsHit | src/utils/cache.ts:24-26 | a record stamped later than the current clock still counts as young |
| Cache.ExpiryIsPermanent | src/utils/cache.ts:24-26 | once the age test `now - time < 300000` fails, it keeps failing at every later clock, a NaN age included |
| Cache.EvictionLosesNothing | src/utils/cache.ts:24-35 | the `removeItem` of an expired entry never drops a value: at any later clock, a read returns the same whether or not the entry was evicted |
| Cache.BackwardClockEvictionLoses | src/utils/cache.ts:24-35 | the previous promise needs a clock that does not go backwards: an entry stamped 0 is evicted by a read at 300000, but a read at 10 would have returned it |
| Cache.ScenarioFiveMinutes | src/utils/cache.ts:2-35 | write at 0, a hit at 30 s, null with eviction at 370 s, and null again on a repeated read |
| Weather.Without | src/pages/WeatherDashboard.tsx:50-52 | the survivors are exactly the cards whose id differs; the length drops by the number of cards carrying the id |
| Weather.WithoutAppend | src/pages/WeatherDashboard.tsx:51 | filtering distributes over concatenation, so survivors keep their relative order |
| Weather.WithoutAbsent | frontend/src/pages/WeatherDashboard.tsx:40-42 | removing an id that no card carries returns the cards unchanged |
| Weather.WithoutIdempotent | frontend/src/pages/WeatherDashboard.tsx:41 | removing the same id twice equals removing it once |
| Weather.WithoutUnique | src/pages/WeatherDashboard.tsx:50-52 | with a unique id, removal shortens the list by one and leaves no card with that id |
| Dashboard.Render | src/pages/WeatherDashboard.tsx:74-187 | the detail view is shown iff `selectedCity` is set, with the detail card iff `loadingDetail` is false and "Loading details..." otherwise; "Loading..." iff no selection and loading; the grid of the current cards iff no selection, not loading and no truthy error |
| Dashboard.Load | src/pages/WeatherDashboard.tsx:20-33 | on success the cards become the batch; on failure the error becomes the API-key message and the cards stay; loading is false either way |
| Dashboard.AddCity | src/pages/WeatherDashboard.tsx:37-47 | a blank name changes nothing; success appends the fetched card after all prior cards and clears the error; failure keeps the cards and sets "Could not find that city" |
| Dashboard.RemoveCity | src/pages/WeatherDashboard.tsx:50-52 | the cards become the order-preserving filter `Without` of the old cards (so `WithoutAppend` and `WithoutAbsent` apply): exactly the cards with that id are dropped, and no other field changes |
| Dashboard.CardClick | src/pages/WeatherDashboard.tsx:55-66 | success selects the detail; failure keeps the previous selection and sets the detail error; `loadingDetail` is false either way; cards are untouched |
| Dashboard.Back | src/pages/WeatherDashboard.tsx:69-71 | the selection is cleared and nothing else changes |
| Dashboard.RemoveSelected | src/pages/WeatherDashboard.tsx:103-106 | removing from the detail view equals `handleRemoveCity` of the shown id followed by `handleBack`; no card with that id remains |
| Dashboard.InitialShowsLoading | src/pages/WeatherDashboard.tsx:14-18 | the mount state has no cards, loading, no error, no selection, no detail load, satisfies the reachable-state invariant and renders "Loading..." |
| Dashboard.StepKeepsSettled | src/pages/WeatherDashboard.tsx:20-71 | every handler keeps `loadingDetail` false and the error either unset or one of the three messages |
| Dashboard.RunKeepsSettled | src/pages/WeatherDashboard.tsx:20-71 | the same invariant holds after any sequence of events |
| Dashboard.ReachableScreens | src/pages/WeatherDashboard.tsx:74-187 | in every reachable state the detail card view is shown iff a city is selected, and the grid iff no selection, not loading and no error |
| Dashboard.OnlySuccessfulAddClearsError | src/pages/WeatherDashboard.tsx:40-42 | a set error is cleared by exactly one kind of event: a successful add of a non-blank name |
| Dashboard.OpenThenBack | src/pages/WeatherDashboard.tsx:55-71 | opening a card then going back restores the list state, with the detail error added if the fetch failed |
| Dashboard.SearchSubmitReachesFetch | src/components/SearchBar.tsx:13-15 | every name the search bar submits passes the dashboard's blank guard |
| EarlyDashboard.Load | frontend/src/pages/WeatherDashboard.tsx:14-27 | on success the cards become the batch; on failure the API-key error is set; loading is false either way |
| EarlyDashboard.AddCity | frontend/src/pages/WeatherDashboard.tsx:29-38 | a blank name changes nothing; success appends the card after all prior cards and keeps any existing error; failure keeps the cards and sets "Could not find that city" |
| EarlyDashboard.RemoveCity | frontend/src/pages/WeatherDashboard.tsx:40-42 | the cards become the order-preserving filter `Without` of the old cards: exactly the cards with that id are dropped, and nothing else changes |
| EarlyDashboard.Render | frontend/src/pages/WeatherDashboard.tsx:71-85 | "Loading..." iff loading; otherwise the error if it is truthy; the grid of the current cards iff `!loading && !error` |
| EarlyDashboard.InitialHidesGrid | frontend/src/pages/WeatherDashboard.tsx:10-12 | the mount state has no cards, loading and no error, so the grid is not rendered |
| EarlyDashboard.ErrorIsSticky | frontend/src/pages/WeatherDashboard.tsx:29-42 | once an error is set, no sequence of events clears it and the grid stays hidden |
| EarlyDashboard.ReachableGrid | frontend/src/pages/WeatherDashboard.tsx:71-73 | in reachable states the grid is rendered iff loading has finished and no error is set |
| SearchBar.Submit | src/components/SearchBar.tsx:12-18 | a blank input calls nothing and keeps the input; a non-blank one calls `onAddCity` once with the untrimmed input and resets the input to "" |
| SearchBar.TypingReplacesInput | src/components/SearchBar.tsx:26-29 | a change event replaces the input: from a typed value on, a run of actions ends the same and makes the same calls whatever the input was before |
| SearchBar.RunAddsOnlyNonBlank | src/components/SearchBar.tsx:13-15 | over any sequence of actions, `onAddCity` never receives a blank name and is called at most once per press of the button |
| SearchBar.TypeAndPress | src/components/SearchBar.tsx:14-16 | typing a name and pressing calls `onAddCity` once with that name and empties the input; a second press calls nothing |
| RegisterForm.Submit | frontend/src/components/RegisterForm.tsx:24-35 | `onSubmit` is called iff password equals confirmation, with (name, email, password) and errors cleared; otherwise the mismatch error is set; fields are untouched |
| RegisterForm.Change | frontend/src/components/RegisterForm.tsx:37-43 | only the named field takes the new value; the error is cleared iff the confirmation is edited while an error shows |
| RegisterForm.ChangeFieldLaws | frontend/src/components/RegisterForm.tsx:38 | writing a field's own value back changes no field; a second write to a field overrides the first |
| RegisterForm.InitialFormIsEmpty | frontend/src/components/RegisterForm.tsx:16-22 | the form starts with four empty fields and no error |
| RegisterForm.SubmitsWithEmptyNameAndEmail | frontend/src/components/RegisterForm.tsx:24-35 | no validation besides the password match: empty name and email still submit |
| RegisterForm.MismatchThenFix | frontend/src/components/RegisterForm.tsx:28-42 | after a mismatch, editing another field keeps the error; retyping the confirmation clears it and the next submit goes through |
| RegisterForm.RunKeepsErrorSlot | frontend/src/components/RegisterForm.tsx:22-42 | across any sequence of edits and submits the error slot holds nothing or the mismatch message, and each action sends at most one registration |

## Left out

- Authentication is out of scope. This covers the identity-provider gate, redirect, login, logout and profile components, and both `App.tsx` files. They are wiring around an external identity provider with redirect side effects.
- The remote fetch functions are not part of this model: `fetchAllWeatherFromCities`, `fetchWeatherByName` and `fetchDetailedWeatherById`, along with the service module that defines them. Their settled outcomes are inputs, and what the fetched cards contain is not modelled.
- Field types of `DetailedWeather`: the service module that declares them is not part of this model. The fields take the types of the detail view's props in `src/pages/WeatherCardView.tsx`: the three temperatures are numbers, kept as opaque readings, and the other readings are text.
- Asynchrony is out. Each handler is one atomic transition, so interleavings of pending fetches, the functional `setCards` updater under concurrency, and the intermediate `loadingDetail = true` render are not modelled.
- Console logging and the `(age / 60000).toFixed(2)` formatting are out. They have no effect on state.
- Cache.GetCache: a storage failure is one all-or-nothing flag for the whole call. A `removeItem` that alone throws after a successful read is not distinguished.
- Cache.SetCache: the JSON round trip of `data` is taken to be exact. Values `JSON.stringify` alters (undefined fields, dates, functions) are not modelled.
- Cache.GetCache: `time` is modelled only by the result of its number conversion in `Date.now() - time`: an integral number of milliseconds, or NaN (missing, an object, a non-numeric string). The conversion itself is not modelled. That conversion maps `null`, `""` and `[]` to 0, `true` to 1, and numeric strings or one-element arrays to their number, which can give a negative age and so a hit. Non-integral and infinite stamps are not modelled either.
- Strings are sequences of Unicode scalar values, while JavaScript strings are sequences of UTF-16 code units. A string holding a lone surrogate cannot be written in the model. On every well-formed string, `trim`, `===` and `!==` behave the same in both.
- RegisterForm.Change: input names other than the four fields are not modelled. Only those four inputs are rendered.
- Presentation components are out: cards, the detail card, the icon lookup, the button and input wrappers, and the login form. They have no stateable logic.
- HTML `required` and `minLength` attributes are out. The browser enforces them, not the handlers.
- The password visibility toggle and the `isLoading` disabling of inputs are out. They are presentation only.
