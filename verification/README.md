# Weather dashboard core, modelled in Dafny

The weather dashboard keeps one optional **primary location** and an ordered
list of **additional cities**. It draws one forecast card per location and
offers a debounced city search and a dark/light theme switch. This project
models the deterministic logic behind that, as pure functions over immutable
values:

- `locations.dfy` (module `Locations`): the location store, `addLocation`,
  `removeCity`, and the geolocation callback's update of the primary.
- `persistence.dfy` (module `Persistence`): the two storage keys that hold the
  store, as an abstract snapshot that is saved and loaded.
- `weather_icons.dfy` (module `WeatherIcons`): the weather-code → icon table
  with its `❓` fallback.
- `render.dfy` (module `Render`): the card plan of `renderAllWeatherCards`, and
  the content of a card once its forecast request settles.
- `theme.dfy` (module `Theme`): `enableDarkMode`, `enableLightMode`,
  `toggleTheme`, `initTheme` and the system colour-scheme listener.
- `search.dfy` (module `Search`): the search box as a state machine. Events are
  keystrokes, the debounce timer firing, a geocoding reply, Enter, a click on a
  suggestion, a click on a card's remove button and a click elsewhere. It also holds the suggestion label.
- `js_text.dfy` (module `JsText`): the JavaScript string behaviour the search
  box depends on: `trim` and `length` in UTF-16 code units.
- `wrappers.dfy` (module `Wrappers`): `Option`, standing for `null` stored
  values and for absent fields of a geocoding result.

Behaviours of the code that the model keeps as written:

- The duplicate check of `addLocation` looks only at the additional cities.
  Adding the primary's own name again is not a duplicate: it is appended
  (`Locations.PrimaryNameIsNotADuplicate`, `Locations.Scenarios`).
- `removeCity` is a filter. It removes every additional city with that name,
  not only the first one.
- Enter adds the trimmed text as a location at coordinates (0, 0), without
  geocoding.
- The length gate uses the JavaScript `length`, which counts UTF-16 code
  units. A single emoji therefore already passes the two-character minimum
  (`JsText.ShortExactly`).
- `initTheme` always stores a theme. So the system colour-scheme listener,
  which acts only while no theme is stored, never changes anything after
  start-up (`Theme.SystemChangeIgnoredAfterInit`).
- Enter and a suggestion click do not cancel a pending debounced search.

Inputs the model takes as parameters: coordinates (reals), the system's
dark-mode preference, whether the geolocation request succeeded and where, a
card's forecast request (`Render.Fetch`) and a geocoding reply
(`Search.Reply`). The debounce timer firing is an event; its 500 ms delay is
not modelled.

## Model

| member | source | states |
|---|---|---|
| `Locations.AnyNamed` | script1.js:292 | The `some` test is true exactly when some city in the list has the given name. |
| `Locations.WithoutName` | script1.js:308 | The filter keeps exactly the cities whose name differs (membership in both directions). A list without the name is returned unchanged. If the name is present, the list gets shorter. |
| `Locations.AddLocation` | script1.js:286-305 | With no primary, the new location becomes the primary and the list is untouched (`SetPrimary`). The outcome is `Duplicate` exactly when there is a primary and an additional city already has the name; the store is then unchanged. Otherwise the location is appended at the end, with the earlier entries and the primary kept (`Added`). Every outcome keeps a valid store valid: no city list without a primary, no repeated names. |
| `Locations.RemoveCity` | script1.js:307-313 | The primary is never touched. Afterwards no additional city has the name. A city stays exactly when it was there and has a different name. A valid store stays valid. |
| `Locations.SetCurrentPosition` | script1.js:394-400 | The geolocation callback replaces the primary by the fixed current-position name and the given coordinates, whatever the primary was. The cities are unchanged and validity is kept. |
| `Locations.WithoutNameKeepsUnique` | script1.js:308 | Filtering a list without repeated names leaves a list without repeated names. |
| `Locations.WithoutNameDistributes` | script1.js:308 | The filter respects concatenation, so the surviving cities keep their original order. |
| `Locations.WithoutNameOfUniqueEntry` | script1.js:308 | In a list without repeated names, removing the name of entry j removes exactly entry j. |
| `Locations.RemoveCityIsIdempotent` | script1.js:308 | Removing a name twice gives the same store as removing it once. |
| `Locations.RemoveUnknownIsNoop` | script1.js:308 | Removing a name that no additional city has leaves the store unchanged. |
| `Locations.RemoveUndoesAdd` | script1.js:286-313 | When an add appended a city, removing that name gives back the store from before the add. |
| `Locations.PrimaryNameIsNotADuplicate` | script1.js:289-297 | A name that only the primary carries is appended, not rejected as a duplicate. |
| `Locations.Scenarios` | script1.js:286-313 | A first add of Paris sets the primary with no cities. Adding Paris again while it is the primary appends it. Removing Lyon from [Lyon] leaves the primary and an empty list. |
| `Persistence.Save` | script1.js:120-123 | Both keys are written on every save. Loading the saved snapshot gives the store back, whatever the in-memory store was before loading. |
| `Persistence.Load` | script1.js:125-130 | A key that is present replaces the in-memory value; a stored JSON null clears the primary. A missing key keeps the in-memory value. |
| `Persistence.LoadClearedIsInitial` | script1.js:125-130 | Loading from storage that was never written starts from the empty store. |
| `Persistence.ReloadKeepsValid` | script1.js:120-130 | A valid store is still valid after a save and a reload. |
| `WeatherIcons.IconFor` | script1.js:164 | A code gets the unknown icon exactly when the table has no entry for it. Any other icon is one whose code group contains the code. |
| `WeatherIcons.IconForInvertsCodesOf` | script1.js:9-18 | Every code listed under an icon maps back to that icon, so the table and its per-icon grouping agree in both directions. |
| `WeatherIcons.KnownCodes` | script1.js:12-17 | Code 95 is thunderstorm, and codes 45 and 48 are both fog. |
| `WeatherIcons.UnlistedCodes` | script1.js:164 | Codes 4 and 96, which the table lacks, get the unknown icon. |
| `WeatherIcons.GlyphsAreNonEmpty` | script1.js:9-18 | Every emoji in the table is a non-empty, truthy string, so the `||` fallback fires only for codes missing from the table. |
| `WeatherIcons.GlyphIsInjective` | script1.js:9-18 | Distinct icons have distinct emoji, so modelling icons as an enumeration loses nothing. |
| `Render.CityCards` | script1.js:237-239 | There is one card per additional city, in list order. Card i belongs to city i, is not primary, is headed by the city badge and the city's name, and its remove button removes that name. |
| `Render.RenderPlan` | script1.js:212-240 | The empty state shows exactly when there is no primary and no city. Otherwise the plan has one card for the primary (if any) plus one per city. The primary's card comes first, with the fixed current-location header and no remove button. The city cards follow, in list order. |
| `Render.EmptyStateIffNoPrimary` | script1.js:215-231 | For a valid store, the empty state shows exactly when there is no primary. |
| `Render.OnlyPrimaryIsPinned` | script1.js:147-153 | In any plan, a card has no remove button exactly when it is the primary's card. |
| `Render.AddedCityAppendsCard` | script1.js:297-301 | When an add appends a city, the new plan is the old plan plus one card for that city at the end. |
| `Render.RemoveButtonRemovesItsCard` | script1.js:148-151 | In a valid store, pressing card k's remove button gives the old plan with exactly card k taken out. |
| `Render.ShowCard` | script1.js:133-209 | A card shows the inline error exactly when its request failed. Otherwise it shows three days, labelled today and then two locale dates, with the icons of the first three weather codes; a day with no code gets the unknown icon. The primary location is always headed "current location" and has no remove button, whatever its stored name. Any other city is headed by the city badge and its name, and its remove button targets that name. |
| `Render.PlannedCardShowsItsHeader` | script1.js:133-150 | The list draws the primary with `isPrimary` true and each city with it false (lines 234 and 238). Rendering any card of the plan therefore shows the header and the remove button that the plan assigned to that position. |
| `JsText.TrimStart` | script1.js:436 | The result is the suffix of the input that starts at its first non-whitespace character; everything dropped was whitespace. |
| `JsText.TrimEnd` | script1.js:436 | The result is the prefix of the input that ends at its last non-whitespace character; everything dropped was whitespace. |
| `JsText.Trim` | script1.js:436 | The result is a contiguous slice of the input, surrounded only by ECMAScript whitespace, and neither starts nor ends with whitespace. |
| `JsText.TrimOfIsUnique` | script1.js:436 | Only one string satisfies the trim characterisation, so the contract of `Trim` determines it completely. |
| `JsText.TrimIsIdempotent` | script1.js:436 | Trimming a trimmed string changes nothing. |
| `JsText.Utf16Length` | script1.js:440 | The JavaScript length lies between the character count and twice that count. It equals the character count exactly when no character lies outside the Basic Multilingual Plane. |
| `JsText.ShortExactly` | script1.js:440 | A length below 2 means an empty string or a single BMP character; a lone emoji already has length 2. |
| `Theme.EnableDarkMode` | script1.js:79-85 | Afterwards the page is in dark mode, the body carries the dark class and storage holds "dark". |
| `Theme.EnableLightMode` | script1.js:87-93 | Afterwards the page is in light mode, the body lacks the dark class and storage holds "light". |
| `Theme.ToggleTheme` | script1.js:95-101 | Toggling flips the mode. Afterwards the body class and the stored value match the new mode. |
| `Theme.InitTheme` | script1.js:62-77 | A stored "dark" or "light" wins; any other stored value, or none, defers to the system preference. Either way the result is in sync and a value is persisted. |
| `Theme.SystemSchemeChanged` | script1.js:503-511 | A truthy stored value makes the listener a no-op. While the stored value is absent or empty, the page follows the system and persists the choice. |
| `Theme.ToggleTwiceRestores` | script1.js:95-101 | From a state whose page and storage agree, toggling twice restores the state exactly. |
| `Theme.ToggleTwiceRestoresMode` | script1.js:95-101 | From any state, toggling twice restores the mode. |
| `Theme.SystemChangeIgnoredAfterInit` | script1.js:503-511 | After start-up a system scheme change never alters the theme, because start-up always persists one. |
| `Search.SuggestionLabel` | script1.js:255 | The label starts with the name and ends with the country in parentheses ("undefined" when the country is missing). It has ", " right after the name exactly when the region is present and non-empty, and then the region follows. Its length is the sum of those parts. |
| `Search.LabelDeterminesRegion` | script1.js:255 | For the same name and country, equal labels mean the same region was shown, or none was. |
| `Search.Gate` | script1.js:436-445 | A keystroke leaves nothing pending exactly when its trimmed value is shorter than 2 UTF-16 code units. Otherwise the trimmed value is pending, and it is a ready query: trimmed and long enough. |
| `Search.OnInput` | script1.js:435-455 | Every keystroke replaces whatever was pending by the gate of the new value and hides the error label. A short value also hides the list. A long value leaves the list as it was. The suggestions are kept. |
| `Search.OnTimer` | script1.js:445-448 | When the timer fires, a search starts exactly when a query was pending, and it is for that query. The slot is empty afterwards and nothing else changes. |
| `Search.OnReply` | script1.js:242-282 | Zero results hide and clear the list and show "not found". Results show the list with those candidates and hide the error. A failed request only shows the connectivity error and leaves the list as it was. |
| `Search.Add` | script1.js:286-304 | The store changes exactly as `AddLocation` says. The error label shows "already added" exactly on a duplicate and is hidden otherwise. Nothing else in the UI changes. |
| `Search.OnEnter` | script1.js:458-465 | If the trimmed input has at least 2 code units, it is added as a location at (0, 0). Otherwise nothing changes. The pending search is kept. |
| `Search.OnPick` | script1.js:258-262 | Clicking a shown suggestion adds its name and coordinates, empties the input and hides the list, whether or not the add succeeded. A duplicate leaves the "already added" label showing (`addLocation`, lines 292-295); otherwise the label is hidden. The suggestions and every other UI field stay as they were. A click with no shown suggestion at that index changes nothing. The pending search is kept. |
| `Search.Step` | script1.js:435-472 | Each event applies its handler: a keystroke the input handler, the timer the timer handler (its effect included), a reply the reply handler, Enter the Enter handler, a suggestion click the pick handler. A card's remove button runs `removeCity` (line 151) and hides the list, since the click reaches the document listener outside the search box. A click elsewhere only hides the list. Hence only Enter, a suggestion click and a remove click change the store, and validity is kept. Only the timer starts a search, for the query that was pending, and a ready slot yields a ready query. Only keystrokes and the timer change the debounce slot. |
| `Search.RemoveClickRemovesItsCard` | script1.js:147-151 | In a valid store, clicking the remove button of drawn card k takes exactly card k off the page and hides the suggestion list. |
| `Search.RunKeepsInvariants` | script1.js:435-472 | Any sequence of UI events, remove-button clicks (line 151) included, keeps the store valid and the debounce slot ready. |
| `Search.BurstKeepsOnlyLatest` | script1.js:435-445 | A burst of keystrokes starts no search and leaves the store alone; afterwards only the gate of the last value is pending. |
| `Search.DebouncedBurstSearchesOnce` | script1.js:435-455 | A burst of keystrokes followed by the timer searches once for the last trimmed value if it is long enough, and not at all otherwise. |

## Left out

- DOM construction and clearing (`el`, `clearContainer`), CSS, animations, `showNotification`, and the theme button's text and tooltip: these only change presentation.
- `fetchWeather` and `searchCity`: network I/O and JSON parsing. A card's request is the input `Render.Fetch` (parsed weather codes, or a failure). A geocoding request is the effect `StartSearch`, and its outcome is the input `Search.Reply`. The request URLs are not modelled.
- Persistence.Load: the JSON round trip through `JSON.stringify`/`JSON.parse` is taken to return the same value. Non-finite coordinates becoming `null`, malformed stored JSON making start-up throw, and stored strings other than what `saveToLS` writes are not modelled.
- Search.SuggestionLabel: a geocoding result whose `country` is present but `null` would print "null"; `None` stands only for an absent country, which prints "undefined".
- Render.ShowCard: the rounded max/min temperatures (`Math.round` on floats) are not modelled at all; a forecast holds only its weather codes. The `toLocaleDateString` day labels are abstracted to `LocaleDate(i)`. These are floating-point and locale formatting.
- Geolocation: the `navigator.geolocation` request, its options and its failure branch (which only re-renders and notifies). Only the success callback's store update is modelled (`Locations.SetCurrentPosition`).
- `matchMedia`: the system preference is a boolean parameter of `Theme.InitTheme` and `Theme.SystemSchemeChanged`.
- `setTimeout` timing: the 500 ms debounce delay, the refresh delay of `refreshAllData` (which re-runs the same render plan), and animation delays. The timer firing is an event.
- Out-of-order completion of per-card fetches and late geocoding replies: concurrency between asynchronous callbacks. Each card's view depends only on its own card and its own request.
- `init` wiring (which handler is attached to which element, and the choice between geolocation and rendering at start-up) and the unused `state.isLoading` flag.
