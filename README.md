# WeatherExomind: the sequencing logic of the weather screen

WeatherExomind is a one-screen SwiftUI app. Its `WeatherView` polls a weather API for five
fixed cities, one city every ten seconds, and accumulates one record per response. While it
does so, it shows a progress bar that fills on its own clock and a rotating status message.
After a transport error it raises an alert and starts over. Around the view code sits a
small state machine over the `@State` variables, and that state machine is what this
project models and proves:

- the city cursor `cityIndex` and the fixed list of five cities;
- the accumulator `citiesWeather`;
- the message index `loadingMessageIndex` over three messages;
- the alert flag `showsAlertError`;
- the progress value `progress`.

It also models the bounds-checked lookup `Array.safelyAccessElement(at:)`.

Files:

- `wrappers.dfy`: `Option`, Swift's `T?`, with `??` as `GetOr`.
- `safe_access.dfy`: `SafelyAccessElement` and a recursive reference definition it is proved equal to.
- `json.dfy`: the decoded response body as a tree, with the subscripts used on line 135 of
  `ContentView.swift`. A missing key, an index out of range or the wrong kind of value gives `Null`.
  An `as?` cast succeeds only on a value of the matching kind.
- `sequencer.dfy`: the pure model. It has a `State` value and one transition per event: the
  city tick, the message tick, the progress tick, the completion handler with its four outcomes,
  and `reset()`. `Run` applies a sequence of events. The lemmas cover single events and whole
  runs.
- `content_view.dfy`: class `WeatherView`. Its fields are the `@State` variables and it has
  one method per event. Each method updates the fields in place, states its whole new state,
  and ties that state to the matching `Sequencer` transition.

Notes on the model:

- The response to a request is a `FetchOutcome`:
  - `TransportError`: `error` is non-nil.
  - `NoResponse`: neither an error nor data. The handler does nothing.
  - `Received(body)`: data that decodes.
  - `ParseFailure`: data the decoder rejects.
- A decoded body of the wrong shape still appends a record whose missing fields are `nil`
  (`DecodeWeather`, `MissingTemperature`). Only a body that is not JSON at all reaches the
  `catch` branch.
- The code appends records in arrival order, so the accumulator is a sequence.
- The alert flag is toggled, not set. A second error before anything else therefore clears the
  flag again (`ParseFailureTwiceRestores`). This is modelled as written. Tapping OK on the alert
  writes `false` into the flag through the alert's binding; that is the `AlertDismissed` event,
  after which the next error raises the alert again (`DismissThenErrorShowsAlert`).
- The reset button is displayed only while `progress >= 1.0`. For that reason the
  `ResetPressed` event has no effect below that value.

## Model

| member | source | states |
|---|---|---|
| `SafeAccess.SafelyAccessElement` | WeatherExomind/ContentView.swift:199-205 | total; `None` exactly when the index is negative or at least the count, otherwise `Some` of the element at that index |
| `SafeAccess.SafelyAccessIsElementAt` | WeatherExomind/ContentView.swift:199-205 | the guarded lookup equals an independent recursive list walk on every index, negative ones included |
| `Sequencer.InitialInv` | WeatherExomind/ContentView.swift:48-55 | the declared initial values satisfy the invariant of the machine |
| `Sequencer.Remainder` | WeatherExomind/ContentView.swift:108 | Swift's `%`: magnitude of the Euclidean remainder of the magnitudes, sign of the dividend, strictly inside `(-n, n)` |
| `Sequencer.RequestCity` | WeatherExomind/ContentView.swift:125 | the city in the request is `cities[cityIndex]` for an index in bounds, and `""` otherwise |
| `Sequencer.DecodeWeather` | WeatherExomind/ContentView.swift:135 | name, temperature and icon are each present exactly when `name`, `main.temp` and `weather[0].icon` exist with the right kind, and are then those values |
| `Sequencer.CityTickSaturates` | WeatherExomind/ContentView.swift:101-106 | below the end of the list: one fetch, for `cities[cityIndex]` read before the increment, and the cursor grows by 1. At the end: no fetch and no change. The cursor becomes `min(cursor + 1, 5)`, no other variable changes, and the invariant is kept |
| `Sequencer.MessageTickInBounds` | WeatherExomind/ContentView.swift:107-109 | the message index becomes `(index + 1) % 3` and stays in `[0, 3)` |
| `Sequencer.ProgressTickMonotone` | WeatherExomind/ContentView.swift:111-117 | at or past 1.0 the tick stops its timer and changes nothing; below 1.0 it strictly increases progress and changes nothing else |
| `Sequencer.ResetClears` | WeatherExomind/ContentView.swift:147-151 | whatever the prior state: progress 0, no records, message 0 and cursor 0; the alert flag is kept; resetting twice equals resetting once |
| `Sequencer.CompletedCases` | WeatherExomind/ContentView.swift:128-141 | transport error: flag flipped, then everything reset. Parse failure: only the flag flips, and records and cursor are kept. Decoded body: exactly one record appended at the end, earlier records kept, nothing else changes. No response: no change |
| `Sequencer.ParseFailureTwiceRestores` | WeatherExomind/ContentView.swift:137-140 | the flag is toggled, not set: one parse failure changes it, and two in a row restore the state exactly |
| `Sequencer.DismissThenErrorShowsAlert` | WeatherExomind/ContentView.swift:94-97 | dismissing the alert clears only the flag, and an error after a dismissal, of either kind, sets the flag |
| `Sequencer.StepKeepsInv` | WeatherExomind/ContentView.swift:100-154 | every event keeps the cursor in `[0, 5]`, the message index in `[0, 3)` and progress in `[0, 1 + 1/6)` |
| `Sequencer.RunKeepsInv` | WeatherExomind/ContentView.swift:54-61 | after any sequence of events the invariant holds; in particular `messages[loadingMessageIndex]` is in bounds |
| `Sequencer.RunFetchesListedCities` | WeatherExomind/ContentView.swift:125 | every fetch issued in any run is for a listed city; the `?? ""` fallback is never taken |
| `Sequencer.StepWithoutReset` | WeatherExomind/ContentView.swift:101-117 | one event other than a reset or a transport error does not decrease the cursor or progress and keeps earlier records. Its fetch, if any, is for `cities[old cursor]` |
| `Sequencer.RunWithoutReset` | WeatherExomind/ContentView.swift:101-117 | without a reset or a transport error, any run keeps earlier records as a prefix. The cursor and progress do not decrease. The fetches issued are exactly `cities[old cursor..new cursor]` in order |
| `Sequencer.FetchesFromStartAtMostCities` | WeatherExomind/ContentView.swift:101-106 | from the initial state and without resets, at most 5 fetches are issued, and they form a prefix of the city list |
| `Sequencer.CityTicksSaturate` | WeatherExomind/ContentView.swift:101-106 | after `n` city ticks the cursor is `min(cursor + n, 5)`: it saturates and does not wrap. The fetches are the cities in between and nothing else changes |
| `Sequencer.MessageTicksRotate` | WeatherExomind/ContentView.swift:107-109 | `n` message ticks advance the index by `n` modulo 3 and change nothing else |
| `Sequencer.ParisResponse` | WeatherExomind/ContentView.swift:133-136 | a complete answer for Paris appends the record ("Paris", 12.5, "01d") |
| `Sequencer.MissingTemperature` | WeatherExomind/ContentView.swift:133-136 | an answer without `main.temp` still appends a record, whose temperature is absent |
| `ContentView.WeatherView.constructor` | WeatherExomind/ContentView.swift:48-55 | the fields start at their declared values, the object invariant holds and no request has been issued |
| `ContentView.WeatherView.CurrentMessage` | WeatherExomind/ContentView.swift:61 | the message shown is `messages[loadingMessageIndex]`, the index is in bounds, and it is one of the three messages |
| `ContentView.WeatherView.FetchWeatherData` | WeatherExomind/ContentView.swift:123-125 | issues exactly one request, for the city under the cursor as it is at call time |
| `ContentView.WeatherView.CityTick` | WeatherExomind/ContentView.swift:101-106 | in place: one request for `cities[cityIndex]` and the cursor plus 1 while in bounds, otherwise nothing. No other field changes. Equals `Sequencer.CityTick` |
| `ContentView.WeatherView.MessageTick` | WeatherExomind/ContentView.swift:107-109 | in place: `loadingMessageIndex = (old + 1) % 3`, in bounds, and nothing else changes |
| `ContentView.WeatherView.ProgressTick` | WeatherExomind/ContentView.swift:111-117 | in place: invalidates its timer exactly when progress is at least 1.0, otherwise adds `10/60`. Nothing else changes |
| `ContentView.WeatherView.Reset` | WeatherExomind/ContentView.swift:147-151 | in place: progress, records, message index and cursor are zeroed and the alert flag is kept |
| `ContentView.WeatherView.DismissAlert` | WeatherExomind/ContentView.swift:94-97 | in place: the alert's binding sets the flag to `false`; nothing else changes. Equals `Sequencer.DismissAlert` |
| `ContentView.WeatherView.FetchCompleted` | WeatherExomind/ContentView.swift:128-141 | in place: each of the four outcomes of the completion handler, with the fields each one leaves unchanged |

## Left out

- The SwiftUI views (`ContentView`, `ProgressBarView`, the alert's layout, the list, `AsyncImage` icon loading): presentation only. The alert's one write to state, clearing the flag on dismissal, is modelled as `AlertDismissed`.
- `URLSession`, the URL string and its embedded API key: network I/O. A fetch is the city it is issued for, logged in `requests` and returned by `Run`. Its response is a separate `FetchCompleted` event that may arrive in any state, including after a reset.
- Timers: scheduling, `RunLoop` registration, tolerance, `onAppear` starting them, `reset()` invalidating the message timer and calling `startProgress()` again, and the duplicate timers that follow. Each firing is an event. The progress tick reports that it invalidates its timer but does not remove it.
- Decoding response bytes (SwiftyJSON `JSON(data:)`): a foreign library. A body either decodes to a `Json` tree or is a `ParseFailure`. Swift's number bridging in `as? Double` (integers, booleans as numbers) is reduced to "a number casts".
- Sequencer.ProgressTickMonotone: progress and JSON numbers are exact `real`s where the source uses `Double`. In `Double`, six additions of `10.0/60.0` give 0.9999999999999999, so the source needs a seventh tick and stops at 1.1666666666666665, above 100 %. In the model six ticks from the initial state give exactly 1.0, so progress never overshoots and the reset button becomes reachable one tick earlier than in the source.
- The `UUID` identifier of `CityWeather`: it has no bearing on the logic.
- The `print` of the decoding error in the `catch` branch: diagnostic output.
- Swift's 64-bit `Int` with its overflow trap: the invariant keeps both indices below 6, so no trap can occur.
