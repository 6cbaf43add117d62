/** `WeatherView` of ContentView.swift as an object whose fields are its `@State`
    variables. Each timer closure, the completion handler and `reset()` is a method that
    updates the fields in place; every method states its whole new state and ties it to
    the transition of the same name in module Sequencer, where the properties of runs are
    proved. */
module ContentView {
  import opened Wrappers
  import opened Sequencer

  class WeatherView {
    var progress: real
    var citiesWeather: seq<CityWeather>
    var loadingMessageIndex: int
    var cityIndex: int
    var showsAlertError: bool

    /** The cities of every request issued so far, in order: the network side of
        `fetchWeatherData()`, kept as a log. */
    ghost var requests: seq<string>

    const cities: seq<string>
    const messages: seq<string>

    /** The fields as a value of the pure model. */
    function Snapshot(): State
      reads this
    {
      State(progress, citiesWeather, loadingMessageIndex, cityIndex, showsAlertError)
    }

    ghost predicate Valid()
      reads this
    {
      cities == Cities && messages == Messages && Inv(Snapshot())
    }

    /** The declared initial values. */
    constructor ()
      ensures Valid()
      ensures Snapshot() == Initial && requests == []
    {
      progress := 0.0;
      citiesWeather := [];
      loadingMessageIndex := 0;
      cityIndex := 0;
      showsAlertError := false;
      requests := [];
      cities := Cities;
      messages := Messages;
    }

    /** The message shown above the progress bar; always in bounds. */
    function CurrentMessage(): (m: string)
      reads this
      requires Valid()
      ensures m == Messages[loadingMessageIndex]
      ensures m in Messages
    {
      messages[loadingMessageIndex]
    }

    /** `fetchWeatherData()`: issues one request for the city under the cursor, read now.
        The response arrives later, through `FetchCompleted`. */
    method FetchWeatherData() returns (city: string)
      requires Valid()
      modifies this`requests
      ensures city == RequestCity(cityIndex)
      ensures 0 <= cityIndex < |Cities| ==> city == cities[cityIndex]
      ensures requests == old(requests) + [city]
    {
      city := RequestCity(cityIndex);
      requests := requests + [city];
    }

    /** The city timer's closure. */
    method CityTick() returns (request: Option<string>)
      requires Valid()
      modifies this
      ensures Valid()
      ensures (Snapshot(), request) == Sequencer.CityTick(old(Snapshot()))
      ensures old(cityIndex) < |cities| ==>
        request == Some(cities[old(cityIndex)]) && cityIndex == old(cityIndex) + 1
      ensures old(cityIndex) >= |cities| ==> request == None && cityIndex == old(cityIndex)
      ensures progress == old(progress) && citiesWeather == old(citiesWeather)
      ensures loadingMessageIndex == old(loadingMessageIndex)
      ensures showsAlertError == old(showsAlertError)
      ensures requests == old(requests) + (if request.Some? then [request.value] else [])
    {
      if cityIndex < |cities| {
        var city := FetchWeatherData();
        request := Some(city);
        cityIndex := cityIndex + 1;
      } else {
        request := None;
      }
    }

    /** The message timer's closure. */
    method MessageTick()
      requires Valid()
      modifies this
      ensures Valid()
      ensures Snapshot() == Sequencer.MessageTick(old(Snapshot()))
      ensures loadingMessageIndex == (old(loadingMessageIndex) + 1) % |messages|
      ensures 0 <= loadingMessageIndex < |messages|
      ensures progress == old(progress) && citiesWeather == old(citiesWeather)
      ensures cityIndex == old(cityIndex) && showsAlertError == old(showsAlertError)
      ensures requests == old(requests)
    {
      loadingMessageIndex := Remainder(loadingMessageIndex + 1, |messages|);
    }

    /** The progress timer's closure; `invalidate` says that it stops its own timer. */
    method ProgressTick() returns (invalidate: bool)
      requires Valid()
      modifies this
      ensures Valid()
      ensures (Snapshot(), invalidate) == Sequencer.ProgressTick(old(Snapshot()))
      ensures invalidate <==> old(progress) >= 1.0
      ensures invalidate ==> progress == old(progress)
      ensures !invalidate ==> progress == old(progress) + ProgressStep && progress > old(progress)
      ensures citiesWeather == old(citiesWeather) && loadingMessageIndex == old(loadingMessageIndex)
      ensures cityIndex == old(cityIndex) && showsAlertError == old(showsAlertError)
      ensures requests == old(requests)
    {
      if progress >= 1.0 {
        invalidate := true;
      } else {
        invalidate := false;
        progress := progress + ProgressStep;
      }
    }

    /** `reset()`. Restarting the timers is not modelled. */
    method Reset()
      requires Valid()
      modifies this
      ensures Valid()
      ensures Snapshot() == Sequencer.Reset(old(Snapshot()))
      ensures progress == 0.0 && citiesWeather == [] && loadingMessageIndex == 0 && cityIndex == 0
      ensures showsAlertError == old(showsAlertError)
      ensures requests == old(requests)
    {
      progress := 0.0;
      citiesWeather := [];
      loadingMessageIndex := 0;
      cityIndex := 0;
    }

    /** Tapping OK on the alert: the alert's binding writes `false` into the flag. */
    method DismissAlert()
      requires Valid()
      modifies this
      ensures Valid()
      ensures Snapshot() == Sequencer.DismissAlert(old(Snapshot()))
      ensures !showsAlertError
      ensures progress == old(progress) && citiesWeather == old(citiesWeather)
      ensures loadingMessageIndex == old(loadingMessageIndex) && cityIndex == old(cityIndex)
      ensures requests == old(requests)
    {
      showsAlertError := false;
    }

    /** The completion handler of a request issued by `FetchWeatherData`. */
    method FetchCompleted(outcome: FetchOutcome)
      requires Valid()
      modifies this
      ensures Valid()
      ensures Snapshot() == Completed(old(Snapshot()), outcome)
      ensures outcome.TransportError? ==>
        && showsAlertError == !old(showsAlertError)
        && progress == 0.0 && citiesWeather == [] && loadingMessageIndex == 0 && cityIndex == 0
      ensures outcome.ParseFailure? ==>
        && showsAlertError == !old(showsAlertError)
        && progress == old(progress) && citiesWeather == old(citiesWeather)
        && loadingMessageIndex == old(loadingMessageIndex) && cityIndex == old(cityIndex)
      ensures outcome.Received? ==>
        && citiesWeather == old(citiesWeather) + [DecodeWeather(outcome.body)]
        && showsAlertError == old(showsAlertError)
        && progress == old(progress) && loadingMessageIndex == old(loadingMessageIndex)
        && cityIndex == old(cityIndex)
      ensures outcome.NoResponse? ==> Snapshot() == old(Snapshot())
      ensures requests == old(requests)
    {
      match outcome
      case TransportError =>
        showsAlertError := !showsAlertError;
        Reset();
      case NoResponse =>
      case Received(body) =>
        citiesWeather := citiesWeather + [DecodeWeather(body)];
      case ParseFailure =>
        showsAlertError := !showsAlertError;
    }
  }
}
