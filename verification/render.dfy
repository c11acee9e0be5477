/** What the card grid shows for a store: the plan of `renderAllWeatherCards`
    and the content of each card once its forecast request settles. */
module Render {
  import opened Wrappers
  import opened Locations
  import opened WeatherIcons

  /** The header of the primary card, whatever the primary is called. */
  const CurrentLocationLabel: string := "\U{1F30D} Текущее местоположение"

  /** The badge in front of an additional city's name. */
  const CityBadge: string := "\U{1F3D9}\U{FE0F} "

  /** The inline message of a card whose forecast could not be loaded. */
  const LoadErrorMessage: string := "\U{26A0}\U{FE0F} Ошибка загрузки данных о погоде"

  /** The number of forecast days on every card: today and the next two. */
  const ForecastDays: nat := 3

  /** One card: the location it fetches, whether it is the primary, its header
      label, and the name its remove button passes to `removeCity` (none on
      the primary card, which has no such button). */
  datatype Card = Card(location: Location, isPrimary: bool, header: string, removeTarget: Option<string>)

  datatype Plan = EmptyState | Cards(cards: seq<Card>)

  function PrimaryCard(loc: Location): Card {
    Card(loc, true, CurrentLocationLabel, None)
  }

  function CityCard(loc: Location): Card {
    Card(loc, false, CityBadge + loc.name, Some(loc.name))
  }

  /** `state.additionalCities.forEach(city => renderWeatherCard(city, false))`. */
  function CityCards(cities: seq<Location>): (cards: seq<Card>)
    ensures |cards| == |cities|
    ensures forall i :: 0 <= i < |cities| ==> cards[i] == CityCard(cities[i])
  {
    if |cities| == 0 then [] else [CityCard(cities[0])] + CityCards(cities[1..])
  }

  /** The number of cards a store yields. */
  function CardCount(s: Store): nat {
    (if s.primary.Some? then 1 else 0) + |s.additional|
  }

  /** `renderAllWeatherCards`: the empty-state placeholder when there is
      nothing to show, otherwise the primary card first and then one
      removable card per additional city, in list order. */
  function RenderPlan(s: Store): (plan: Plan)
    ensures plan.EmptyState? <==> s.primary.None? && s.additional == []
    ensures plan.Cards? ==> |plan.cards| == CardCount(s)
    ensures plan.Cards? && s.primary.Some? ==> plan.cards[0] == PrimaryCard(s.primary.value)
    ensures plan.Cards? ==> plan.cards[CardCount(s) - |s.additional|..] == CityCards(s.additional)
  {
    if s.primary.None? && |s.additional| == 0 then EmptyState
    else
      Cards(Head(s) + CityCards(s.additional))
  }

  /** For a store every operation can reach, the placeholder shows exactly
      when there is no primary. */
  lemma EmptyStateIffNoPrimary(s: Store)
    requires Valid(s)
    ensures RenderPlan(s).EmptyState? <==> s.primary.None?
  {
  }

  /** The cards in front of the city cards: the primary's, if there is one. */
  function Head(s: Store): seq<Card> {
    if s.primary.Some? then [PrimaryCard(s.primary.value)] else []
  }

  lemma PlanIsHeadThenCities(s: Store)
    requires RenderPlan(s).Cards?
    ensures RenderPlan(s).cards == Head(s) + CityCards(s.additional)
  {
  }

  /** Only the primary card lacks a remove button. */
  lemma OnlyPrimaryIsPinned(s: Store, k: int)
    requires RenderPlan(s).Cards? && 0 <= k < |RenderPlan(s).cards|
    ensures RenderPlan(s).cards[k].isPrimary <==> RenderPlan(s).cards[k].removeTarget.None?
  {
    var cards := RenderPlan(s).cards;
    var offset := |Head(s)|;
    if k >= offset {
      PlanIsHeadThenCities(s);
      assert cards[k] == CityCards(s.additional)[k - offset];
    }
  }

  lemma {:induction false} CityCardsAppend(cities: seq<Location>, loc: Location)
    ensures CityCards(cities + [loc]) == CityCards(cities) + [CityCard(loc)]
  {
    var lhs, rhs := CityCards(cities + [loc]), CityCards(cities) + [CityCard(loc)];
    assert |lhs| == |rhs|;
    forall i | 0 <= i < |lhs| ensures lhs[i] == rhs[i] {
      assert (cities + [loc])[i] == if i < |cities| then cities[i] else loc;
    }
  }

  lemma {:induction false} CityCardsRemoveAt(cities: seq<Location>, j: int)
    requires 0 <= j < |cities|
    ensures CityCards(cities[..j] + cities[j + 1..]) == CityCards(cities)[..j] + CityCards(cities)[j + 1..]
  {
    var rest := cities[..j] + cities[j + 1..];
    var lhs, rhs := CityCards(rest), CityCards(cities)[..j] + CityCards(cities)[j + 1..];
    assert |lhs| == |rhs|;
    forall i | 0 <= i < |lhs| ensures lhs[i] == rhs[i] {
      assert rest[i] == if i < j then cities[i] else cities[i + 1];
    }
  }

  /** Appending a city appends its card and leaves the other cards alone. */
  lemma AddedCityAppendsCard(s: Store, name: string, lat: real, lon: real)
    requires AddLocation(s, name, lat, lon).outcome == Added
    ensures RenderPlan(AddLocation(s, name, lat, lon).store)
            == Cards(RenderPlan(s).cards + [CityCard(Location(name, lat, lon))])
  {
    var loc := Location(name, lat, lon);
    var s' := AddLocation(s, name, lat, lon).store;
    assert s'.additional == s.additional + [loc];
    PlanIsHeadThenCities(s);
    PlanIsHeadThenCities(s');
    CityCardsAppend(s.additional, loc);
  }

  /** Pressing the remove button of a card takes away exactly that card. */
  lemma RemoveButtonRemovesItsCard(s: Store, k: int)
    requires Valid(s)
    requires RenderPlan(s).Cards? && 0 <= k < |RenderPlan(s).cards|
    requires RenderPlan(s).cards[k].removeTarget.Some?
    ensures var cards := RenderPlan(s).cards;
            RenderPlan(RemoveCity(s, cards[k].removeTarget.value)) == Cards(cards[..k] + cards[k + 1..])
  {
    PlanIsHeadThenCities(s);
    assert s.primary.Some?;
    var j := k - 1;
    WithoutNameOfUniqueEntry(s.additional, j);
    RemovingOneCityDropsOneCard(s, j);
  }

  lemma RemovingOneCityDropsOneCard(s: Store, j: int)
    requires s.primary.Some? && 0 <= j < |s.additional|
    requires WithoutName(s.additional, s.additional[j].name) == s.additional[..j] + s.additional[j + 1..]
    ensures var cards := RenderPlan(s).cards;
            && cards[j + 1].removeTarget == Some(s.additional[j].name)
            && RenderPlan(RemoveCity(s, s.additional[j].name)) == Cards(cards[..j + 1] + cards[j + 2..])
  {
    var cards := RenderPlan(s).cards;
    PlanIsHeadThenCities(s);
    assert cards[j + 1] == CityCards(s.additional)[j];
    RemainingPlan(s, j);
    SlicesAroundEntry(Head(s), CityCards(s.additional), j);
  }

  /** The plan after the city at `j` is gone, in terms of the old pieces. */
  lemma RemainingPlan(s: Store, j: int)
    requires s.primary.Some? && 0 <= j < |s.additional|
    requires WithoutName(s.additional, s.additional[j].name) == s.additional[..j] + s.additional[j + 1..]
    ensures var tail := CityCards(s.additional);
            RenderPlan(RemoveCity(s, s.additional[j].name)) == Cards(Head(s) + (tail[..j] + tail[j + 1..]))
  {
    var s' := RemoveCity(s, s.additional[j].name);
    assert Head(s') == Head(s);
    PlanIsHeadThenCities(s');
    CityCardsRemoveAt(s.additional, j);
  }

  /** Cutting entry `n` of `b` out of `a + b`. */
  lemma SlicesAroundEntry<T>(a: seq<T>, b: seq<T>, n: int)
    requires 0 <= n < |b|
    ensures (a + b)[..|a| + n] + (a + b)[|a| + n + 1..] == a + (b[..n] + b[n + 1..])
  {
    assert (a + b)[..|a| + n] == a + b[..n];
    assert (a + b)[|a| + n + 1..] == b[n + 1..];
  }

  /** The daily arrays of a successful forecast response; only the weather
      codes reach the model. */
  datatype Forecast = Forecast(weatherCodes: seq<int>)

  /** How a card's forecast request settled: a parsed response, or a failure
      (a non-success status or a payload without the daily arrays). */
  datatype Fetch = Fetched(forecast: Forecast) | FetchFailed

  /** Day 0 is labelled "today"; the others get a locale date label. */
  datatype DayLabel = Today | LocaleDate(day: nat)

  datatype Day = Day(caption: DayLabel, icon: Icon)

  datatype CardView =
    | Shown(title: string, removeTarget: Option<string>, days: seq<Day>)
    | Failed(message: string)

  /** The icon of forecast day `i`; a missing code is `undefined` in the
      source, which the table does not hold. */
  function DayIcon(codes: seq<int>, i: nat): Icon {
    if i < |codes| then IconFor(codes[i]) else Unknown
  }

  /** `renderWeatherCard(location, isPrimary)` after its request settles: the
      header and three days on success, the inline error otherwise. A card's
      view depends on its own location and its own request only. */
  function ShowCard(location: Location, isPrimary: bool, fetch: Fetch): (view: CardView)
    ensures view.Failed? <==> fetch.FetchFailed?
    ensures view.Failed? ==> view.message == LoadErrorMessage
    ensures view.Shown? ==>
              && (isPrimary ==> view.title == CurrentLocationLabel && view.removeTarget.None?)
              && (!isPrimary ==> view.title == CityBadge + location.name && view.removeTarget == Some(location.name))
              && |view.days| == ForecastDays
              && view.days[0].caption == Today
              && (forall i :: 0 < i < ForecastDays ==> view.days[i].caption == LocaleDate(i))
              && (forall i :: 0 <= i < ForecastDays ==>
                    var codes := fetch.forecast.weatherCodes;
                    view.days[i].icon == if i < |codes| then IconFor(codes[i]) else Unknown)
  {
    match fetch
    case FetchFailed => Failed(LoadErrorMessage)
    case Fetched(forecast) =>
      var codes := forecast.weatherCodes;
      var title := if isPrimary then CurrentLocationLabel else CityBadge + location.name;
      Shown(title, if isPrimary then None else Some(location.name),
            [Day(Today, DayIcon(codes, 0)), Day(LocaleDate(1), DayIcon(codes, 1)), Day(LocaleDate(2), DayIcon(codes, 2))])
  }

  /** Every card of a plan, once its forecast arrives, shows the header and
      the remove button the plan gave it. */
  lemma PlannedCardShowsItsHeader(s: Store, k: int, forecast: Forecast)
    requires RenderPlan(s).Cards? && 0 <= k < |RenderPlan(s).cards|
    ensures var card := RenderPlan(s).cards[k];
            var view := ShowCard(card.location, card.isPrimary, Fetched(forecast));
            view.Shown? && view.title == card.header && view.removeTarget == card.removeTarget
  {
    var cards := RenderPlan(s).cards;
    PlanIsHeadThenCities(s);
    if k >= |Head(s)| {
      assert cards[k] == CityCards(s.additional)[k - |Head(s)|];
    }
  }
}
