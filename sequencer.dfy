/** The sequencing logic of `WeatherView` (ContentView.swift) as pure transitions on a
    snapshot of its `@State` variables. The class in content_view.dfy performs these
    transitions in place; this module states and proves what they do, one event at a
    time and over any sequence of events. */
module Sequencer {
  import opened Wrappers
  import opened SafeAccess
  import opened Json

  const Cities: seq<string> := ["Rennes", "Paris", "Nantes", "Bordeaux", "Lyon"]

  const Messages: seq<string> := [
    "Nous téléchargeons les données...",
    "C'est presque fini...",
    "Plus que quelques secondes avant d'avoir le résultat..."
  ]

  /** The amount the progress timer adds, `10.0 / 60.0`. */
  const ProgressStep: real := 10.0 / 60.0

  /** One accumulated record. Its `UUID` identifier is not modelled. */
  datatype CityWeather = CityWeather(name: Option<string>, temperature: Option<real>, weatherPictogram: Option<string>)

  /** How one issued request ends, as the completion handler distinguishes it. */
  datatype FetchOutcome =
    | TransportError          // `error` is non-nil
    | NoResponse              // neither an error nor data: the handler does nothing
    | Received(body: Json)    // data that decodes to a JSON value
    | ParseFailure            // data that the decoder rejects

  /** The `@State` variables that the logic reads and writes (the timer handle is not modelled). */
  datatype State = State(
    progress: real,
    citiesWeather: seq<CityWeather>,
    loadingMessageIndex: int,
    cityIndex: int,
    showsAlertError: bool)

  /** The declared initial values. */
  const Initial: State := State(0.0, [], 0, 0, false)

  /** What every reachable state satisfies: the cursor stays within the city list (it may
      equal its length), the message index addresses a message, and progress stays below
      one step past 1.0. */
  ghost predicate Inv(s: State) {
    && 0 <= s.cityIndex <= |Cities|
    && 0 <= s.loadingMessageIndex < |Messages|
    && 0.0 <= s.progress < 1.0 + ProgressStep
  }

  function Min(a: int, b: int): int {
    if a <= b then a else b
  }

  function Abs(a: int): nat {
    if a >= 0 then a else -a
  }

  /** Swift's `%` on `Int`: the quotient truncates toward zero, so the remainder has the
      magnitude of the Euclidean remainder of the magnitudes and the sign of the dividend. */
  function Remainder(a: int, n: int): (r: int)
    requires n > 0
    ensures Abs(r) == Abs(a) % n
    ensures a >= 0 ==> r >= 0
    ensures a < 0 ==> r <= 0
    ensures -n < r < n
  {
    if a >= 0 then a % n else -((-a) % n)
  }

  // ---------------------------------------------------------------------------
  // The transitions

  /** The city name in the request URL: `cities.safelyAccessElement(at: cityIndex) ?? ""`. */
  function RequestCity(cityIndex: int): (city: string)
    ensures 0 <= cityIndex < |Cities| ==> city == Cities[cityIndex]
    ensures cityIndex < 0 || cityIndex >= |Cities| ==> city == ""
  {
    SafelyAccessElement(Cities, cityIndex).GetOr("")
  }

  /** The city timer's closure: while the cursor is inside the list, issue one fetch for the
      city under the cursor (read before the increment) and advance the cursor. The second
      component is the city a fetch was issued for, if any. */
  function CityTick(s: State): (State, Option<string>) {
    if s.cityIndex < |Cities| then
      (s.(cityIndex := s.cityIndex + 1), Some(RequestCity(s.cityIndex)))
    else
      (s, None)
  }

  /** The message timer's closure: `(loadingMessageIndex + 1) % messages.count`. */
  function MessageTick(s: State): State {
    s.(loadingMessageIndex := Remainder(s.loadingMessageIndex + 1, |Messages|))
  }

  /** The progress timer's closure. The second component says whether the tick invalidates
      its own timer. */
  function ProgressTick(s: State): (State, bool) {
    if s.progress >= 1.0 then (s, true)
    else (s.(progress := s.progress + ProgressStep), false)
  }

  /** `reset()`: the alert flag is the one variable it leaves alone. */
  function Reset(s: State): State {
    s.(progress := 0.0, citiesWeather := [], loadingMessageIndex := 0, cityIndex := 0)
  }

  /** The alert's OK button: the binding sets the flag to `false`. */
  function DismissAlert(s: State): State {
    s.(showsAlertError := false)
  }

  /** The record built from a decoded body: `name`, `main.temp` and `weather[0].icon`,
      each present exactly when the path exists and holds a value of the expected kind. */
  function DecodeWeather(body: Json): (w: CityWeather)
    ensures w.name.Some? <==>
      body.Object? && "name" in body.fields && body.fields["name"].Str?
    ensures w.name.Some? ==> w.name.value == body.fields["name"].s
    ensures w.temperature.Some? <==>
      body.Object? && "main" in body.fields && body.fields["main"].Object?
      && "temp" in body.fields["main"].fields && body.fields["main"].fields["temp"].Number?
    ensures w.temperature.Some? ==> w.temperature.value == body.fields["main"].fields["temp"].n
    ensures w.weatherPictogram.Some? <==>
      body.Object? && "weather" in body.fields && body.fields["weather"].Array?
      && |body.fields["weather"].items| > 0 && body.fields["weather"].items[0].Object?
      && "icon" in body.fields["weather"].items[0].fields
      && body.fields["weather"].items[0].fields["icon"].Str?
    ensures w.weatherPictogram.Some? ==>
      w.weatherPictogram.value == body.fields["weather"].items[0].fields["icon"].s
  {
    CityWeather(
      AsString(Member(body, "name")),
      AsDouble(Member(Member(body, "main"), "temp")),
      AsString(Member(Element(Member(body, "weather"), 0), "icon")))
  }

  /** The completion handler of the request. */
  function Completed(s: State, outcome: FetchOutcome): State {
    match outcome
    case TransportError => Reset(s.(showsAlertError := !s.showsAlertError))
    case NoResponse => s
    case Received(body) => s.(citiesWeather := s.citiesWeather + [DecodeWeather(body)])
    case ParseFailure => s.(showsAlertError := !s.showsAlertError)
  }

  /** Everything that can happen to the screen. The reset button is only on screen while
      `progress >= 1.0`, so pressing it is possible only then. Tapping OK on the alert
      writes `false` into `showsAlertError` through the alert's binding. */
  datatype Event =
    | CityTimerFired
    | MessageTimerFired
    | ProgressTimerFired
    | FetchCompleted(outcome: FetchOutcome)
    | ResetPressed
    | AlertDismissed

  /** One event: the new state and the cities fetches were issued for. */
  function Step(s: State, e: Event): (State, seq<string>) {
    match e
    case CityTimerFired =>
      var (t, request) := CityTick(s);
      (t, if request.Some? then [request.value] else [])
    case MessageTimerFired => (MessageTick(s), [])
    case ProgressTimerFired => (ProgressTick(s).0, [])
    case FetchCompleted(outcome) => (Completed(s, outcome), [])
    case ResetPressed => (if s.progress >= 1.0 then Reset(s) else s, [])
    case AlertDismissed => (DismissAlert(s), [])
  }

  /** A sequence of events, in order: the final state and every fetch issued on the way. */
  function Run(s: State, es: seq<Event>): (State, seq<string>)
    decreases |es|
  {
    if es == [] then (s, [])
    else
      var (t, f) := Step(s, es[0]);
      var (u, g) := Run(t, es[1..]);
      (u, f + g)
  }

  /** The events that clear the accumulator and rewind the cursor. */
  predicate Resets(e: Event) {
    e.ResetPressed? || (e.FetchCompleted? && e.outcome.TransportError?)
  }

  // ---------------------------------------------------------------------------
  // One event at a time

  /** The initial state is a state of the machine. */
  lemma InitialInv()
    ensures Inv(Initial)
  {
  }

  /** The city tick: below the end of the list, exactly one fetch, for the city under the
      cursor, and the cursor grows by one; at the end, nothing happens. No other variable
      changes, and the cursor saturates at the length of the list. */
  lemma CityTickSaturates(s: State)
    requires Inv(s)
    ensures var (t, request) := CityTick(s);
      && Inv(t)
      && t == s.(cityIndex := t.cityIndex)
      && t.cityIndex == Min(s.cityIndex + 1, |Cities|)
      && (request.Some? <==> s.cityIndex < |Cities|)
      && (request.Some? ==> request.value == Cities[s.cityIndex])
  {
  }

  /** The message tick rotates the index through the three messages. */
  lemma MessageTickInBounds(s: State)
    requires 0 <= s.loadingMessageIndex < |Messages|
    ensures MessageTick(s) == s.(loadingMessageIndex := (s.loadingMessageIndex + 1) % |Messages|)
    ensures 0 <= MessageTick(s).loadingMessageIndex < |Messages|
  {
  }

  /** The progress tick: at or past 1.0 it changes nothing and stops its timer; below 1.0
      it strictly increases progress and changes nothing else. */
  lemma ProgressTickMonotone(s: State)
    ensures var (t, invalidate) := ProgressTick(s);
      && (invalidate <==> s.progress >= 1.0)
      && (invalidate ==> t == s)
      && (!invalidate ==> t.progress > s.progress && t == s.(progress := t.progress))
      && (Inv(s) ==> Inv(t))
  {
  }

  /** `reset()` yields the initial values, whatever the prior state, except for the alert
      flag, which it keeps; resetting twice is resetting once. */
  lemma ResetClears(s: State)
    ensures Reset(s) == Initial.(showsAlertError := s.showsAlertError)
    ensures Inv(Reset(s))
    ensures Reset(Reset(s)) == Reset(s)
  {
  }

  /** A transport error flips the alert flag and clears everything; a parse failure flips
      the flag and keeps the accumulator and the cursor; a decoded body appends exactly one
      record at the end and keeps the earlier ones; no response changes nothing. */
  lemma CompletedCases(s: State, body: Json)
    ensures Completed(s, TransportError) == Initial.(showsAlertError := !s.showsAlertError)
    ensures Completed(s, ParseFailure) == s.(showsAlertError := !s.showsAlertError)
    ensures var t := Completed(s, Received(body));
      && |t.citiesWeather| == |s.citiesWeather| + 1
      && t.citiesWeather[..|s.citiesWeather|] == s.citiesWeather
      && t.citiesWeather[|s.citiesWeather|] == DecodeWeather(body)
      && t == s.(citiesWeather := t.citiesWeather)
    ensures Completed(s, NoResponse) == s
  {
  }

  /** The flag is toggled, not set: a second parse failure before anything else hides the
      alert again and restores the prior state exactly. */
  lemma ParseFailureTwiceRestores(s: State)
    ensures Completed(Completed(s, ParseFailure), ParseFailure) == s
    ensures Completed(s, ParseFailure).showsAlertError != s.showsAlertError
  {
  }

  /** Dismissing the alert clears only the flag; an error that follows a dismissal then
      raises the alert, whatever the flag was before. */
  lemma DismissThenErrorShowsAlert(s: State)
    ensures DismissAlert(s) == s.(showsAlertError := false)
    ensures Completed(DismissAlert(s), ParseFailure).showsAlertError
    ensures Completed(DismissAlert(s), TransportError).showsAlertError
  {
  }

  /** Every single event keeps the invariant. */
  lemma StepKeepsInv(s: State, e: Event)
    requires Inv(s)
    ensures Inv(Step(s, e).0)
  {
  }

  // ---------------------------------------------------------------------------
  // Sequences of events

  /** The invariant holds after any sequence of events; in particular
      `messages[loadingMessageIndex]` is always in bounds. */
  lemma {:induction false} RunKeepsInv(s: State, es: seq<Event>)
    requires Inv(s)
    ensures Inv(Run(s, es).0)
    decreases |es|
  {
    if es != [] {
      StepKeepsInv(s, es[0]);
      RunKeepsInv(Step(s, es[0]).0, es[1..]);
    }
  }

  /** No request is ever issued with the empty city name the `?? ""` fallback would give:
      every fetch issued from a state of the machine is for a listed city. */
  lemma {:induction false} RunFetchesListedCities(s: State, es: seq<Event>)
    requires Inv(s)
    ensures forall k :: 0 <= k < |Run(s, es).1| ==> Run(s, es).1[k] in Cities
    decreases |es|
  {
    if es != [] {
      StepKeepsInv(s, es[0]);
      RunFetchesListedCities(Step(s, es[0]).0, es[1..]);
      var (t, f) := Step(s, es[0]);
      var (u, g) := Run(t, es[1..]);
      assert Run(s, es).1 == f + g;
      forall k | 0 <= k < |f| ensures f[k] in Cities {
        assert es[0].CityTimerFired? && s.cityIndex < |Cities| && f[k] == Cities[s.cityIndex];
      }
    }
  }

  /** One event other than a reset or a transport error moves only forward, and the
      fetch it issues, if any, is for the city under the old cursor. */
  lemma StepWithoutReset(s: State, e: Event)
    requires Inv(s)
    requires !Resets(e)
    ensures var (t, f) := Step(s, e);
      && s.cityIndex <= t.cityIndex <= |Cities|
      && f == Cities[s.cityIndex..t.cityIndex]
      && s.progress <= t.progress
      && s.citiesWeather <= t.citiesWeather
  {
  }

  /** Between resets the run only moves forward: the cursor and progress do not decrease,
      earlier records stay where they are, and the fetches issued are exactly the cities
      from the old cursor up to the new one, in list order, each once. */
  lemma {:induction false} RunWithoutReset(s: State, es: seq<Event>)
    requires Inv(s)
    requires forall k :: 0 <= k < |es| ==> !Resets(es[k])
    ensures var (t, f) := Run(s, es);
      && s.cityIndex <= t.cityIndex <= |Cities|
      && f == Cities[s.cityIndex..t.cityIndex]
      && s.progress <= t.progress
      && s.citiesWeather <= t.citiesWeather
    decreases |es|
  {
    if es != [] {
      var (t, f) := Step(s, es[0]);
      StepWithoutReset(s, es[0]);
      StepKeepsInv(s, es[0]);
      var rest := es[1..];
      assert forall k :: 0 <= k < |rest| ==> !Resets(rest[k]) by {
        forall k | 0 <= k < |rest| ensures !Resets(rest[k]) {
          assert rest[k] == es[k + 1];
        }
      }
      RunWithoutReset(t, rest);
      var (u, g) := Run(t, rest);
      assert Run(s, es) == (u, f + g);
      assert Cities[s.cityIndex..t.cityIndex] + Cities[t.cityIndex..u.cityIndex] == Cities[s.cityIndex..u.cityIndex];
    }
  }

  /** From the initial state, however the events interleave, as long as nothing resets:
      at most five fetches, for a prefix of the city list, each city at most once. */
  lemma FetchesFromStartAtMostCities(es: seq<Event>)
    requires forall k :: 0 <= k < |es| ==> !Resets(es[k])
    ensures var (t, f) := Run(Initial, es);
      && 0 <= t.cityIndex <= |Cities|
      && |f| <= |Cities|
      && f == Cities[..t.cityIndex]
  {
    InitialInv();
    RunWithoutReset(Initial, es);
  }

  /** The same event `n` times. */
  function Repeat(e: Event, n: nat): (es: seq<Event>)
    ensures |es| == n
    ensures forall k :: 0 <= k < n ==> es[k] == e
  {
    seq(n, _ => e)
  }

  /** `n` city ticks in a row: the cursor is `min(cursor + n, 5)` (it saturates, it does not
      wrap), the fetches are the cities in between, and nothing else changes. */
  lemma {:induction false} CityTicksSaturate(s: State, n: nat)
    requires Inv(s)
    ensures var (t, f) := Run(s, Repeat(CityTimerFired, n));
      && t == s.(cityIndex := Min(s.cityIndex + n, |Cities|))
      && f == Cities[s.cityIndex..Min(s.cityIndex + n, |Cities|)]
    decreases n
  {
    var es := Repeat(CityTimerFired, n);
    if n > 0 {
      assert es[0] == CityTimerFired;
      assert es[1..] == Repeat(CityTimerFired, n - 1);
      var (t, f) := CityTick(s);
      CityTickSaturates(s);
      CityTicksSaturate(t, n - 1);
      if s.cityIndex < |Cities| {
        var m := Min(s.cityIndex + n, |Cities|);
        assert Cities[s.cityIndex..m] == [Cities[s.cityIndex]] + Cities[s.cityIndex + 1..m];
      }
    }
  }

  /** `n` message ticks in a row advance the index by `n` modulo the number of messages. */
  lemma {:induction false} MessageTicksRotate(s: State, n: nat)
    requires Inv(s)
    ensures Run(s, Repeat(MessageTimerFired, n)) ==
      (s.(loadingMessageIndex := (s.loadingMessageIndex + n) % |Messages|), [])
    decreases n
  {
    var es := Repeat(MessageTimerFired, n);
    if n > 0 {
      assert es[0] == MessageTimerFired;
      assert es[1..] == Repeat(MessageTimerFired, n - 1);
      var t := MessageTick(s);
      MessageTickInBounds(s);
      assert Step(s, es[0]) == (t, []);
      MessageTicksRotate(t, n - 1);
      assert ((s.loadingMessageIndex + 1) % 3 + (n - 1)) % 3 == (s.loadingMessageIndex + n) % 3;
      assert Run(s, es).1 == [] + Run(t, es[1..]).1;
    }
  }

  // ---------------------------------------------------------------------------
  // Two example responses

  const ParisBody: Json := Object(map[
    "name" := Str("Paris"),
    "main" := Object(map["temp" := Number(12.5)]),
    "weather" := Array([Object(map["icon" := Str("01d")])])
  ])

  /** A complete answer for Paris yields the record ("Paris", 12.5, "01d"). */
  lemma ParisResponse(s: State)
    ensures Completed(s, Received(ParisBody)).citiesWeather ==
      s.citiesWeather + [CityWeather(Some("Paris"), Some(12.5), Some("01d"))]
  {
  }

  /** An answer without `main.temp` still appends a record, with no temperature. */
  lemma MissingTemperature(s: State)
    ensures var body := Object(map["name" := Str("Paris"), "weather" := Array([])]);
      Completed(s, Received(body)).citiesWeather ==
        s.citiesWeather + [CityWeather(Some("Paris"), None, None)]
  {
  }
}
