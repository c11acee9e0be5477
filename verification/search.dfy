/** The search box: the debounced input handler, the Enter shortcut, the
    suggestion list and its labels, as a state machine over UI events. The
    network request itself is an effect the machine emits; its reply comes
    back as another event. */
module Search {
  import opened Wrappers
  import opened JsText
  import opened Locations
  import opened Render

  /** Queries shorter than this (in UTF-16 code units, after trimming) are
      neither searched nor added. */
  const MinQueryLength: nat := 2

  /** What a template literal prints for a missing field. */
  const UndefinedText: string := "undefined"

  /** One geocoding result; the region and country may be missing. `None`
      stands for an absent field: a missing country prints as "undefined".
      For the region, a `null` behaves like an absent one, since both are
      falsy. */
  datatype Candidate = Candidate(name: string, admin1: Option<string>, country: Option<string>,
                                 latitude: real, longitude: real)

  /** `city.admin1 ? … : ''`: the region shows only when it is truthy, that
      is present and non-empty. */
  predicate ShowsRegion(c: Candidate) {
    c.admin1.Some? && c.admin1.value != ""
  }

  function CountryText(c: Candidate): string {
    c.country.GetOr(UndefinedText)
  }

  /** The text of a suggestion: the name, then ", region" when the region is
      truthy, then the country in parentheses. */
  function SuggestionLabel(c: Candidate): (text: string)
    ensures |c.name| + 2 <= |text| && text[..|c.name|] == c.name
    ensures text[|c.name|..|c.name| + 2] == ", " <==> ShowsRegion(c)
    ensures ShowsRegion(c) ==>
              |c.name| + 2 + |c.admin1.value| <= |text|
              && text[|c.name| + 2..|c.name| + 2 + |c.admin1.value|] == c.admin1.value
    ensures var closing := " (" + CountryText(c) + ")";
            |closing| <= |text| && text[|text| - |closing|..] == closing
    ensures |text| == |c.name| + (if ShowsRegion(c) then |c.admin1.value| + 2 else 0) + |CountryText(c)| + 3
  {
    var region := if ShowsRegion(c) then ", " + c.admin1.value else "";
    var closing := " (" + CountryText(c) + ")";
    var text := c.name + region + closing;
    assert text[..|c.name|] == c.name;
    assert text[|text| - |closing|..] == closing;
    assert text[|c.name|..|c.name| + 2] == (region + closing)[..2];
    assert !ShowsRegion(c) ==> text[|c.name|..|c.name| + 2][0] == ' ';
    assert ShowsRegion(c) ==> text[|c.name| + 2..|c.name| + 2 + |c.admin1.value|] == c.admin1.value;
    text
  }

  /** With the name and country fixed, the label tells whether a region was
      shown and which. */
  lemma LabelDeterminesRegion(c1: Candidate, c2: Candidate)
    requires c1.name == c2.name && CountryText(c1) == CountryText(c2)
    requires SuggestionLabel(c1) == SuggestionLabel(c2)
    ensures ShowsRegion(c1) <==> ShowsRegion(c2)
    ensures ShowsRegion(c1) ==> c1.admin1 == c2.admin1
  {
    var n := |c1.name|;
    var t := SuggestionLabel(c1);
    if ShowsRegion(c1) {
      assert |c1.admin1.value| == |c2.admin1.value|;
      assert c1.admin1.value == t[n + 2..n + 2 + |c1.admin1.value|];
    }
  }

  /** The texts of the error label. */
  datatype ErrorLabel = NotFound | SearchFailed | AlreadyAdded

  /** How a geocoding request came back: a (possibly empty) result list, or a
      failure of the request or of its payload. */
  datatype Reply = Results(candidates: seq<Candidate>) | RequestFailed

  datatype Event =
    | Typed(value: string)
    | TimerFired
    | SearchReplied(reply: Reply)
    | EnterPressed
    | SuggestionClicked(index: nat)
    | RemoveClicked(name: string)
    | ClickedOutside

  /** A geocoding request the machine starts. */
  datatype Effect = NoEffect | StartSearch(query: string)

  /** The input's value, the debounce slot (the query a pending timer will
      search, if any), the suggestion list and the error label. */
  datatype Ui = Ui(input: string, pending: Option<string>, listShown: bool,
                   suggestions: seq<Candidate>, error: Option<ErrorLabel>)

  datatype App = App(store: Store, ui: Ui)

  datatype StepResult = StepResult(app: App, effect: Effect)

  /** What a keystroke leaves in the debounce slot: the trimmed value, unless
      it is shorter than the minimum. */
  function Gate(value: string): (slot: Option<string>)
    ensures slot.None? <==> Utf16Length(Trim(value)) < MinQueryLength
    ensures slot.Some? ==> slot.value == Trim(value)
    ensures slot.Some? ==> ReadyQuery(slot.value)
  {
    var query := Trim(value);
    TrimIsIdempotent(value);
    if Utf16Length(query) < MinQueryLength then None else Some(query)
  }

  /** A query that may be searched: already trimmed and long enough. */
  predicate ReadyQuery(q: string) {
    Trim(q) == q && Utf16Length(q) >= MinQueryLength
  }

  /** Whatever waits in the debounce slot may be searched. */
  predicate PendingReady(ui: Ui) {
    ui.pending.Some? ==> ReadyQuery(ui.pending.value)
  }

  /** The input handler: every keystroke cancels the pending search and hides
      the error label; a short query hides the list and leaves nothing
      pending, a long one becomes the only pending query. */
  function OnInput(ui: Ui, value: string): (r: Ui)
    ensures r.input == value && r.error.None?
    ensures r.pending == Gate(value)
    ensures r.pending.None? ==> !r.listShown
    ensures r.pending.Some? ==> r.listShown == ui.listShown
    ensures r.suggestions == ui.suggestions
    ensures PendingReady(r)
  {
    var cleared := ui.(input := value, pending := None, error := None);
    var slot := Gate(value);
    if slot.None? then cleared.(listShown := false) else cleared.(pending := slot)
  }

  /** The debounce timer elapses: the pending query, if any, is searched and
      the slot is empty again. */
  function OnTimer(ui: Ui): (r: (Ui, Effect))
    ensures r.0 == ui.(pending := None)
    ensures r.1.StartSearch? <==> ui.pending.Some?
    ensures r.1.StartSearch? ==> r.1.query == ui.pending.value
    ensures r.1.StartSearch? && PendingReady(ui) ==> ReadyQuery(r.1.query)
  {
    var done := ui.(pending := None);
    match ui.pending
    case None => (done, NoEffect)
    case Some(q) => (done, StartSearch(q))
  }

  /** `showSuggestions`, or the catch of the timer callback. */
  function OnReply(ui: Ui, reply: Reply): (r: Ui)
    ensures r.input == ui.input && r.pending == ui.pending
    ensures reply == Results([]) ==> !r.listShown && r.suggestions == [] && r.error == Some(NotFound)
    ensures reply.Results? && reply.candidates != [] ==>
              r.listShown && r.suggestions == reply.candidates && r.error.None?
    ensures reply.RequestFailed? ==> r == ui.(error := Some(SearchFailed))
  {
    match reply
    case RequestFailed => ui.(error := Some(SearchFailed))
    case Results(cs) =>
      if |cs| == 0 then ui.(listShown := false, suggestions := [], error := Some(NotFound))
      else ui.(listShown := true, suggestions := cs, error := None)
  }

  /** `addLocation` as the search box sees it: the store changes as
      `AddLocation` says, and the error label shows the duplicate message or
      is hidden. */
  function Add(a: App, name: string, lat: real, lon: real): (r: App)
    ensures r.store == AddLocation(a.store, name, lat, lon).store
    ensures r.ui.error == Some(AlreadyAdded) <==> AddLocation(a.store, name, lat, lon).outcome == Duplicate
    ensures r.ui.error.None? <==> AddLocation(a.store, name, lat, lon).outcome != Duplicate
    ensures r.ui == a.ui.(error := r.ui.error)
  {
    var added := AddLocation(a.store, name, lat, lon);
    App(added.store, a.ui.(error := if added.outcome == Duplicate then Some(AlreadyAdded) else None))
  }

  /** The Enter handler: a trimmed value of at least two code units is added
      as a location at (0, 0), with no geocoding; anything shorter is
      ignored. The pending search is not cancelled. */
  function OnEnter(a: App): (r: App)
    ensures var q := Trim(a.ui.input);
            && (Utf16Length(q) >= MinQueryLength ==> r == Add(a, q, 0.0, 0.0))
            && (Utf16Length(q) < MinQueryLength ==> r == a)
    ensures r.ui.pending == a.ui.pending
  {
    var query := Trim(a.ui.input);
    if Utf16Length(query) >= MinQueryLength then Add(a, query, 0.0, 0.0) else a
  }

  /** A click on a shown suggestion adds that place, empties the input and
      hides the list, whether or not the add succeeded; a duplicate leaves the
      "already added" label showing and the suggestions stay as they were. */
  function OnPick(a: App, index: nat): (r: App)
    ensures a.ui.listShown && index < |a.ui.suggestions| ==>
              var c := a.ui.suggestions[index];
              var added := AddLocation(a.store, c.name, c.latitude, c.longitude);
              && r.store == added.store
              && r.ui == a.ui.(input := "", listShown := false,
                               error := if added.outcome == Duplicate then Some(AlreadyAdded) else None)
    ensures !(a.ui.listShown && index < |a.ui.suggestions|) ==> r == a
    ensures r.ui.pending == a.ui.pending
  {
    if a.ui.listShown && index < |a.ui.suggestions| then
      var c := a.ui.suggestions[index];
      var added := Add(a, c.name, c.latitude, c.longitude);
      added.(ui := added.ui.(input := "", listShown := false))
    else a
  }

  /** One UI event. Only Enter, a suggestion click and a card's remove button
      touch the store, only the timer starts a search, and every query it
      starts is ready. The remove button lies outside the search box, so its
      click also reaches the document listener that hides the list. */
  function Step(a: App, e: Event): (r: StepResult)
    ensures PendingReady(a.ui) ==> PendingReady(r.app.ui)
    ensures r.app.store != a.store ==> e.EnterPressed? || e.SuggestionClicked? || e.RemoveClicked?
    ensures Valid(a.store) ==> Valid(r.app.store)
    ensures r.effect.StartSearch? ==>
              e.TimerFired? && a.ui.pending == Some(r.effect.query)
    ensures r.effect.StartSearch? && PendingReady(a.ui) ==> ReadyQuery(r.effect.query)
    ensures r.app.ui.pending != a.ui.pending ==> e.Typed? || e.TimerFired?
    ensures e.Typed? ==> r.app == a.(ui := OnInput(a.ui, e.value))
    ensures e.TimerFired? ==> r.app == a.(ui := OnTimer(a.ui).0) && r.effect == OnTimer(a.ui).1
    ensures e.SearchReplied? ==> r.app == a.(ui := OnReply(a.ui, e.reply))
    ensures e.EnterPressed? ==> r.app == OnEnter(a)
    ensures e.SuggestionClicked? ==> r.app == OnPick(a, e.index)
    ensures e.RemoveClicked? ==>
              r.app.store == RemoveCity(a.store, e.name) && r.app.ui == a.ui.(listShown := false)
    ensures e.ClickedOutside? ==> r.app == a.(ui := a.ui.(listShown := false))
  {
    match e
    case Typed(value) => StepResult(a.(ui := OnInput(a.ui, value)), NoEffect)
    case TimerFired =>
      var fired := OnTimer(a.ui);
      StepResult(a.(ui := fired.0), fired.1)
    case SearchReplied(reply) => StepResult(a.(ui := OnReply(a.ui, reply)), NoEffect)
    case EnterPressed => StepResult(OnEnter(a), NoEffect)
    case SuggestionClicked(index) => StepResult(OnPick(a, index), NoEffect)
    case RemoveClicked(name) =>
      StepResult(App(RemoveCity(a.store, name), a.ui.(listShown := false)), NoEffect)
    case ClickedOutside => StepResult(a.(ui := a.ui.(listShown := false)), NoEffect)
  }

  /** Clicking the remove button of a drawn card takes exactly that card off
      the page and hides the suggestion list. */
  lemma RemoveClickRemovesItsCard(a: App, k: int)
    requires Valid(a.store)
    requires RenderPlan(a.store).Cards? && 0 <= k < |RenderPlan(a.store).cards|
    requires RenderPlan(a.store).cards[k].removeTarget.Some?
    ensures var cards := RenderPlan(a.store).cards;
            var after := Step(a, RemoveClicked(cards[k].removeTarget.value)).app;
            && RenderPlan(after.store) == Cards(cards[..k] + cards[k + 1..])
            && !after.ui.listShown
  {
    RemoveButtonRemovesItsCard(a.store, k);
  }

  datatype Trace = Trace(app: App, effects: seq<Effect>)

  /** Runs a sequence of events through a step function, collecting the
      effects in order. */
  function RunWith(step: (App, Event) -> StepResult, a: App, events: seq<Event>): Trace
    decreases |events|
  {
    if |events| == 0 then Trace(a, [])
    else
      var first := step(a, events[0]);
      var rest := RunWith(step, first.app, events[1..]);
      Trace(rest.app, [first.effect] + rest.effects)
  }

  /** Runs a sequence of UI events. */
  function Run(a: App, events: seq<Event>): Trace
  {
    RunWith(Step, a, events)
  }

  /** Every run keeps the store reachable and the debounce slot searchable. */
  lemma {:induction false} RunKeepsInvariants(a: App, events: seq<Event>)
    decreases |events|
    ensures Valid(a.store) ==> Valid(Run(a, events).app.store)
    ensures PendingReady(a.ui) ==> PendingReady(Run(a, events).app.ui)
  {
    if |events| > 0 {
      var first := Step(a, events[0]);
      RunKeepsInvariants(first.app, events[1..]);
      assert Run(a, events).app == Run(first.app, events[1..]).app;
    }
  }

  /** The queries of the searches among some effects, in order. */
  function Searches(effects: seq<Effect>): seq<string> {
    if |effects| == 0 then []
    else (if effects[0].StartSearch? then [effects[0].query] else []) + Searches(effects[1..])
  }

  lemma {:induction false} SearchesAppend(xs: seq<Effect>, ys: seq<Effect>)
    ensures Searches(xs + ys) == Searches(xs) + Searches(ys)
  {
    if |xs| > 0 {
      assert (xs + ys)[1..] == xs[1..] + ys;
      SearchesAppend(xs[1..], ys);
    } else {
      assert xs + ys == ys;
    }
  }

  /** Running two event sequences one after the other is running their
      concatenation. */
  lemma {:induction false} RunWithAppend(step: (App, Event) -> StepResult, a: App, xs: seq<Event>, ys: seq<Event>)
    decreases |xs|
    ensures var first := RunWith(step, a, xs);
            var second := RunWith(step, first.app, ys);
            RunWith(step, a, xs + ys) == Trace(second.app, first.effects + second.effects)
  {
    if |xs| == 0 {
      assert xs + ys == ys;
    } else {
      assert (xs + ys)[0] == xs[0];
      assert (xs + ys)[1..] == xs[1..] + ys;
      RunWithAppend(step, step(a, xs[0]).app, xs[1..], ys);
    }
  }

  /** A burst of keystrokes, each giving the input's new value. */
  function Burst(values: seq<string>): (events: seq<Event>)
    ensures |events| == |values|
    ensures forall i :: 0 <= i < |values| ==> events[i] == Typed(values[i])
  {
    if |values| == 0 then [] else [Typed(values[0])] + Burst(values[1..])
  }

  /** During a burst of keystrokes nothing is searched and the store is left
      alone; afterwards only the last value is pending. */
  lemma {:induction false} BurstKeepsOnlyLatest(a: App, values: seq<string>)
    requires |values| > 0
    decreases |values|
    ensures var t := Run(a, Burst(values));
            && t.app.ui.pending == Gate(values[|values| - 1])
            && Searches(t.effects) == []
            && t.app.store == a.store
  {
    var events := Burst(values);
    assert events[0] == Typed(values[0]);
    var first := Step(a, Typed(values[0]));
    TypedStep(a, values[0]);
    assert events[1..] == Burst(values[1..]);
    var rest := Run(first.app, events[1..]);
    assert Run(a, events) == Trace(rest.app, [NoEffect] + rest.effects);
    assert ([NoEffect] + rest.effects)[1..] == rest.effects;
    if |values| > 1 {
      BurstKeepsOnlyLatest(first.app, values[1..]);
    }
  }

  /** What a keystroke does to the whole application. */
  lemma TypedStep(a: App, value: string)
    ensures Step(a, Typed(value)) == StepResult(a.(ui := OnInput(a.ui, value)), NoEffect)
  {
  }

  /** Debouncing: a burst of keystrokes followed by the timer searches at most
      once, and only for the last value (if it is long enough). */
  lemma DebouncedBurstSearchesOnce(a: App, values: seq<string>)
    requires |values| > 0
    ensures var last := Gate(values[|values| - 1]);
            Searches(Run(a, Burst(values) + [TimerFired]).effects)
              == (if last.Some? then [last.value] else [])
  {
    var burst := Run(a, Burst(values));
    BurstKeepsOnlyLatest(a, values);
    RunWithAppend(Step, a, Burst(values), [TimerFired]);
    RunWithSingle(Step, burst.app, TimerFired);
    var fired := Step(burst.app, TimerFired);
    TimerStep(burst.app);
    SearchesAppend(burst.effects, [fired.effect]);
    assert Searches([fired.effect]) == if fired.effect.StartSearch? then [fired.effect.query] else [] by {
      assert [fired.effect][1..] == [];
    }
  }

  lemma RunWithSingle(step: (App, Event) -> StepResult, a: App, e: Event)
    ensures RunWith(step, a, [e]) == Trace(step(a, e).app, [step(a, e).effect])
  {
    assert [e][1..] == [];
  }

  /** What the timer does to the whole application. */
  lemma TimerStep(a: App)
    ensures Step(a, TimerFired).effect == (if a.ui.pending.Some? then StartSearch(a.ui.pending.value) else NoEffect)
  {
  }
}
