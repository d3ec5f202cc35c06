/** The state of the main window and how each of its slots changes it, as
    pure functions. The window's Qt plumbing becomes explicit events: a click,
    a worker's `result` signal, and its thread's `finished` signal, delivered
    one at a time in the order the workers emit them (result, then finished). */
module Session {
  import opened Wrappers
  import opened Cursor
  import CardSearch

  /** A downloaded card picture, shown as it arrives. */
  type Image = seq<bv8>

  /** Which worker thread is running and which of its signals is due next. */
  datatype Stage =
    | Idle                              // no worker in flight
    | Searching(query: string)          // a card search runs; its result is due
    | SearchFinishing                   // the result was handled; the search thread's finish is due
    | Loading(imageUrl: string)         // an image download runs; its result is due
    | LoadFinishing(imageUrl: string)   // the image was shown; the image thread's finish is due

  /** The exceptions `load_image` can raise while reading `card_urls[cur_image_id]`. */
  datatype Fault =
    | MissingCursor     // `cur_image_id` was never assigned (AttributeError)
    | IndexOutOfRange   // the cursor does not index `card_urls` (IndexError)

  datatype State = State(
    cardName: string,            // the text of the name field
    cardUrls: seq<string>,       // the result set of the last search
    curImageId: Option<int>,     // the cursor, absent until a search has results
    searchEnabled: bool,
    nameEnabled: bool,
    previousEnabled: bool,
    nextEnabled: bool,
    message: Option<string>,     // the text of the last message box
    image: Option<Image>,        // the picture on the image label
    stage: Stage)

  /** What a slot that may raise leaves behind. */
  datatype Reaction = Reaction(state: State, raised: Option<Fault>)

  const EmptyQueryMessage: string := "Enter the name of the card first"

  /** The no-results text; the `$` before the name is part of the window's text. */
  function NoCardsMessage(name: string): string {
    "No cards with name $" + name + " found!"
  }

  /** The window as built: empty name field, search enabled, navigation disabled. */
  function Initial(): State {
    State("", [], None, true, true, false, false, None, None, Idle)
  }

  /** The state with all four controls disabled, as both dispatches leave it. */
  function Disabled(s: State): State {
    s.(searchEnabled := false, previousEnabled := false, nextEnabled := false, nameEnabled := false)
  }

  /** `search_cards_button_click`, with `text` the content of the name field. */
  function SearchClicked(s: State, text: string): State
    requires s.searchEnabled
  {
    if |text| == 0 then s.(cardName := text, message := Some(EmptyQueryMessage))
    else Disabled(s.(cardName := text, stage := Searching(text)))
  }

  /** `handle_card_urls`: the search worker's `result` signal. */
  function CardUrlsHandled(s: State, urls: seq<string>): State
    requires s.stage.Searching?
  {
    var t := s.(cardUrls := urls, stage := SearchFinishing);
    if |urls| == 0 then t.(message := Some(NoCardsMessage(s.cardName)))
    else t.(curImageId := Some(0))
  }

  /** Python's `xs[i]`, negative indices counting from the end. */
  function PyIndex(xs: seq<string>, i: int): (r: Option<string>)
    ensures r.Some? <==> -|xs| <= i < |xs|
    ensures 0 <= i < |xs| ==> r == Some(xs[i])
  {
    if 0 <= i < |xs| then Some(xs[i])
    else if -|xs| <= i < 0 then Some(xs[|xs| + i])
    else None
  }

  /** An image download dispatched for `url`. */
  function Loaded(s: State, url: string): State {
    Disabled(s.(stage := Loading(url)))
  }

  /** `load_image`: download `card_urls[cur_image_id]`, or raise. */
  function LoadImage(s: State): Result<State, Fault> {
    if s.curImageId.None? then Failure(MissingCursor)
    else match PyIndex(s.cardUrls, s.curImageId.value)
      case None => Failure(IndexOutOfRange)
      case Some(url) => Success(Loaded(s, url))
  }

  /** The search thread's `finished` signal, connected to `load_image`. */
  function SearchThreadFinished(s: State): Reaction
    requires s.stage.SearchFinishing?
  {
    var done := s.(stage := Idle);
    match LoadImage(done)
    case Success(t) => Reaction(t, None)
    case Failure(f) => Reaction(done, Some(f))
  }

  /** `handle_image`: the image worker's `result` signal. */
  function ImageHandled(s: State, img: Image): State
    requires s.stage.Loading?
  {
    var t := s.(image := Some(img), stage := LoadFinishing(s.stage.imageUrl));
    if |s.cardUrls| > 1 then t.(previousEnabled := true, nextEnabled := true) else t
  }

  /** The image thread's `finished` signal: search and name field re-enabled. */
  function LoadFinished(s: State): State
    requires s.stage.LoadFinishing?
  {
    s.(searchEnabled := true, nameEnabled := true, stage := Idle)
  }

  /** The invariant every state reachable from `Initial()` keeps. */
  ghost predicate Valid(s: State) {
    && (s.curImageId.Some? ==> s.curImageId.value >= 0)
    && (|s.cardUrls| > 0 ==> s.curImageId.Some? && s.curImageId.value < |s.cardUrls|)
    && s.searchEnabled == s.nameEnabled
    && s.previousEnabled == s.nextEnabled
    && (s.previousEnabled ==> |s.cardUrls| > 1)
    && (!s.stage.Idle? ==> !s.searchEnabled)
    && (s.stage.Searching? ==> s.stage.query == s.cardName && |s.cardName| > 0)
    && (s.stage.SearchFinishing? && |s.cardUrls| > 0 ==> s.curImageId == Some(0))
    && (s.stage.Searching? || s.stage.SearchFinishing? || s.stage.Loading? ==> !s.previousEnabled)
    && (s.stage.Loading? || s.stage.LoadFinishing? ==>
          |s.cardUrls| > 0 && s.stage.imageUrl == s.cardUrls[s.curImageId.value])
    && (s.stage.LoadFinishing? ==> s.previousEnabled == (|s.cardUrls| > 1))
    && (s.stage.Idle? ==> s.previousEnabled == (s.searchEnabled && |s.cardUrls| > 1))
  }

  /** `previous_button_click`: step the cursor back, wrapping, and load. */
  function PreviousClicked(s: State): State
    requires Valid(s) && s.previousEnabled && s.stage.Idle?
  {
    var i := Predecessor(s.curImageId.value, |s.cardUrls|);
    PredecessorInRange(s.curImageId.value, |s.cardUrls|);
    Loaded(s.(curImageId := Some(i)), s.cardUrls[i])
  }

  /** `next_button_click`: step the cursor forward, wrapping, and load. */
  function NextClicked(s: State): State
    requires Valid(s) && s.nextEnabled && s.stage.Idle?
  {
    var i := Successor(s.curImageId.value, |s.cardUrls|);
    SuccessorInRange(s.curImageId.value, |s.cardUrls|);
    Loaded(s.(curImageId := Some(i)), s.cardUrls[i])
  }

  lemma InitialValid()
    ensures Valid(Initial())
  {
  }

  /** An empty query only sets the message; with a query, a search is
      dispatched for it and every control is disabled. */
  lemma SearchClickedEffect(s: State, text: string)
    requires Valid(s) && s.searchEnabled
    ensures var r := SearchClicked(s, text);
      && Valid(r)
      && r.cardName == text
      && r.cardUrls == s.cardUrls && r.curImageId == s.curImageId && r.image == s.image
      && (|text| == 0 ==>
            && r.message == Some(EmptyQueryMessage) && r.stage == s.stage
            && r.searchEnabled == s.searchEnabled && r.nameEnabled == s.nameEnabled
            && r.previousEnabled == s.previousEnabled && r.nextEnabled == s.nextEnabled)
      && (|text| > 0 ==>
            && r.message == s.message && r.stage == Searching(text)
            && !r.searchEnabled && !r.nameEnabled && !r.previousEnabled && !r.nextEnabled)
  {
  }

  /** The search result always replaces the result set. With results the
      cursor moves to the first; without, the cursor is left as it was and the
      no-results message names the query. Every control stays disabled. */
  lemma CardUrlsHandledEffect(s: State, urls: seq<string>)
    requires Valid(s) && s.stage.Searching?
    ensures var r := CardUrlsHandled(s, urls);
      && Valid(r)
      && r.cardUrls == urls && r.stage == SearchFinishing
      && (|urls| > 0 ==> r.curImageId == Some(0) && r.message == s.message)
      && (|urls| == 0 ==> r.curImageId == s.curImageId && r.message == Some(NoCardsMessage(s.stage.query)))
      && !r.searchEnabled && !r.nameEnabled && !r.previousEnabled && !r.nextEnabled
  {
  }

  /** `load_image` raises exactly when the cursor is unset or does not index
      the result set; otherwise it dispatches the download of the URL under
      the cursor and disables every control. */
  lemma LoadImageOutcome(s: State)
    ensures LoadImage(s).Failure? <==>
            s.curImageId.None? || !(-|s.cardUrls| <= s.curImageId.value < |s.cardUrls|)
    ensures LoadImage(s) == Failure(MissingCursor) <==> s.curImageId.None?
    ensures LoadImage(s).Success? ==>
      var r := LoadImage(s).value;
      && r.stage.Loading? && PyIndex(s.cardUrls, s.curImageId.value) == Some(r.stage.imageUrl)
      && !r.searchEnabled && !r.nameEnabled && !r.previousEnabled && !r.nextEnabled
      && r.cardUrls == s.cardUrls && r.curImageId == s.curImageId
  {
  }

  /** Once the search thread finishes, the download goes ahead exactly when
      the search had results; it then fetches the first URL. */
  lemma SearchThreadFinishedEffect(s: State)
    requires Valid(s) && s.stage.SearchFinishing?
    ensures var r := SearchThreadFinished(s);
      && Valid(r.state)
      && (r.raised.None? <==> |s.cardUrls| > 0)
      && (r.raised.None? ==> r.state.stage == Loading(s.cardUrls[0]))
  {
  }

  /** A control the user could still use: without one, no event can reach the
      window again. */
  predicate Live(s: State) {
    !s.stage.Idle? || s.searchEnabled || s.previousEnabled || s.nextEnabled
  }

  /** A search that finds no image-bearing card leaves `load_image` to read
      an empty result set: it raises, and the window is left with every control
      disabled and nothing in flight. It raises AttributeError if no earlier
      search had results, IndexError otherwise. */
  lemma EmptyResultRaises(s: State)
    requires Valid(s) && s.stage.Searching?
    ensures var r := SearchThreadFinished(CardUrlsHandled(s, []));
      && r.raised.Some?
      && (r.raised == Some(MissingCursor) <==> s.curImageId.None?)
      && r.state.message == Some(NoCardsMessage(s.cardName))
      && !Live(r.state) && !r.state.nameEnabled
  {
  }

  /** After an image arrives, Previous and Next are enabled exactly when there
      is more than one result; search and name field stay disabled. */
  lemma ImageHandledEnablement(s: State, img: Image)
    requires Valid(s) && s.stage.Loading?
    ensures var r := ImageHandled(s, img);
      && Valid(r)
      && r.image == Some(img) && r.stage == LoadFinishing(s.stage.imageUrl)
      && r.previousEnabled == (|s.cardUrls| > 1) && r.nextEnabled == (|s.cardUrls| > 1)
      && !r.searchEnabled && !r.nameEnabled
      && r.cardUrls == s.cardUrls && r.curImageId == s.curImageId
  {
  }

  /** When the image thread finishes, search and name field are enabled
      again, and navigation is enabled exactly with more than one result. */
  lemma LoadFinishedEnablement(s: State)
    requires Valid(s) && s.stage.LoadFinishing?
    ensures var r := LoadFinished(s);
      && Valid(r) && r.stage == Idle
      && r.searchEnabled && r.nameEnabled
      && r.previousEnabled == (|r.cardUrls| > 1) && r.nextEnabled == (|r.cardUrls| > 1)
  {
  }

  /** Previous moves the cursor one place back around the ring and loads the
      URL there. */
  lemma PreviousClickedEffect(s: State)
    requires Valid(s) && s.previousEnabled && s.stage.Idle?
    ensures var r := PreviousClicked(s);
      && Valid(r)
      && r.curImageId == Some(Predecessor(s.curImageId.value, |s.cardUrls|))
      && 0 <= r.curImageId.value < |r.cardUrls| && r.cardUrls == s.cardUrls
      && r.stage == Loading(r.cardUrls[r.curImageId.value])
      && !r.searchEnabled && !r.nameEnabled && !r.previousEnabled && !r.nextEnabled
  {
    PredecessorInRange(s.curImageId.value, |s.cardUrls|);
  }

  /** Next moves the cursor one place forward around the ring and loads the
      URL there. */
  lemma NextClickedEffect(s: State)
    requires Valid(s) && s.nextEnabled && s.stage.Idle?
    ensures var r := NextClicked(s);
      && Valid(r)
      && r.curImageId == Some(Successor(s.curImageId.value, |s.cardUrls|))
      && 0 <= r.curImageId.value < |r.cardUrls| && r.cardUrls == s.cardUrls
      && r.stage == Loading(r.cardUrls[r.curImageId.value])
      && !r.searchEnabled && !r.nameEnabled && !r.previousEnabled && !r.nextEnabled
  {
    SuccessorInRange(s.curImageId.value, |s.cardUrls|);
  }

  /** One round of Next: the click, the image, the thread's finish. */
  function NextRound(s: State, img: Image): State
    requires Valid(s) && s.nextEnabled && s.stage.Idle?
  {
    NextClickedEffect(s);
    var t := ImageHandled(NextClicked(s), img);
    ImageHandledEnablement(NextClicked(s), img);
    LoadFinished(t)
  }

  /** A round of Next leaves Previous usable, and a round of Previous then
      brings the cursor back. */
  lemma NextThenPrevious(s: State, img1: Image, img2: Image)
    requires Valid(s) && s.nextEnabled && s.stage.Idle?
    ensures var t := NextRound(s, img1);
      && Valid(t) && t.previousEnabled && t.stage.Idle?
      && LoadFinished(ImageHandled(PreviousClicked(t), img2)).curImageId == s.curImageId
  {
    var n := |s.cardUrls|;
    NextClickedEffect(s);
    ImageHandledEnablement(NextClicked(s), img1);
    var t := NextRound(s, img1);
    LoadFinishedEnablement(ImageHandled(NextClicked(s), img1));
    PreviousClickedEffect(t);
    PredecessorSuccessor(s.curImageId.value, n);
  }

  /** The rounds of Next that `k` presses make. */
  function NextRounds(s: State, k: nat, img: Image): (r: State)
    requires Valid(s) && s.nextEnabled && s.stage.Idle?
    ensures Valid(r) && r.nextEnabled && r.stage.Idle? && r.cardUrls == s.cardUrls
    ensures r.curImageId == Some(NextTimes(s.curImageId.value, |s.cardUrls|, k))
  {
    if k == 0 then s
    else
      var t := NextRounds(s, k - 1, img);
      NextClickedEffect(t);
      ImageHandledEnablement(NextClicked(t), img);
      LoadFinishedEnablement(ImageHandled(NextClicked(t), img));
      NextRound(t, img)
  }

  /** As many rounds of Next as there are results bring the cursor back to
      where it started. */
  lemma NextRoundsFullCircle(s: State, img: Image)
    requires Valid(s) && s.nextEnabled && s.stage.Idle?
    ensures NextRounds(s, |s.cardUrls|, img).curImageId == s.curImageId
  {
    NextFullCircle(s.curImageId.value, |s.cardUrls|);
  }

  /** What can reach the window: a click, a worker's result, a thread's finish. */
  datatype Event =
    | SearchClick(text: string)
    | SearchResult(cards: seq<CardSearch.Record>)
    | SearchThreadDone
    | ImageResult(img: Image)
    | ImageThreadDone
    | PreviousClick
    | NextClick

  /** Whether `e` can be delivered in `s`: a click needs its control enabled,
      a signal needs its worker. Clicks wait for the image thread's finish. */
  predicate Enabled(s: State, e: Event) {
    match e
    case SearchClick(_) => s.searchEnabled
    case SearchResult(_) => s.stage.Searching?
    case SearchThreadDone => s.stage.SearchFinishing?
    case ImageResult(_) => s.stage.Loading?
    case ImageThreadDone => s.stage.LoadFinishing?
    case PreviousClick => s.previousEnabled && s.stage.Idle?
    case NextClick => s.nextEnabled && s.stage.Idle?
  }

  /** The window's slot for `e`. */
  function Apply(s: State, e: Event): State
    requires Valid(s) && Enabled(s, e)
  {
    match e
    case SearchClick(text) => SearchClicked(s, text)
    case SearchResult(cards) => CardUrlsHandled(s, CardSearch.ImageUrls(cards))
    case SearchThreadDone => SearchThreadFinished(s).state
    case ImageResult(img) => ImageHandled(s, img)
    case ImageThreadDone => LoadFinished(s)
    case PreviousClick => PreviousClicked(s)
    case NextClick => NextClicked(s)
  }

  lemma ApplyValid(s: State, e: Event)
    requires Valid(s) && Enabled(s, e)
    ensures Valid(Apply(s, e))
  {
    match e
    case SearchClick(text) => SearchClickedEffect(s, text);
    case SearchResult(cards) => CardUrlsHandledEffect(s, CardSearch.ImageUrls(cards));
    case SearchThreadDone => SearchThreadFinishedEffect(s);
    case ImageResult(img) => ImageHandledEnablement(s, img);
    case ImageThreadDone => LoadFinishedEnablement(s);
    case PreviousClick => PreviousClickedEffect(s);
    case NextClick => NextClickedEffect(s);
  }

  /** The window after the events `events`, or None if one of them could not
      have been delivered. */
  function Run(s: State, events: seq<Event>): (r: Option<State>)
    requires Valid(s)
    ensures r.Some? ==> Valid(r.value)
    decreases |events|
  {
    if events == [] then Some(s)
    else if !Enabled(s, events[0]) then None
    else
      ApplyValid(s, events[0]);
      Run(Apply(s, events[0]), events[1..])
  }

  /** In every window reachable from the initial one, the cursor indexes the
      result set whenever that is non-empty, Previous and Next are enabled
      only together and only with at least two results, and no control is
      enabled while a search or a download is in flight. */
  lemma {:induction false} ReachableInvariant(events: seq<Event>)
    ensures Run(Initial(), events).Some? ==>
      var s := Run(Initial(), events).value;
      && (|s.cardUrls| > 0 ==> s.curImageId.Some? && 0 <= s.curImageId.value < |s.cardUrls|)
      && (s.previousEnabled || s.nextEnabled ==> s.previousEnabled && s.nextEnabled && |s.cardUrls| >= 2)
      && (s.stage.Searching? || s.stage.SearchFinishing? || s.stage.Loading? ==>
            !s.searchEnabled && !s.nameEnabled && !s.previousEnabled && !s.nextEnabled)
  {
    InitialValid();
  }

  /** The intended reaction to the search thread's finish: with no results,
      give the name field and the search button back instead of reading an
      empty result set. */
  function SearchThreadFinishedCorrected(s: State): (r: State)
    requires Valid(s) && s.stage.SearchFinishing?
    ensures Valid(r) && Live(r)
    ensures |s.cardUrls| == 0 ==> r.stage.Idle? && r.searchEnabled && r.nameEnabled && r.cardUrls == s.cardUrls
    ensures |s.cardUrls| > 0 ==> r == SearchThreadFinished(s).state && SearchThreadFinished(s).raised.None?
  {
    if |s.cardUrls| == 0 then s.(stage := Idle, searchEnabled := true, nameEnabled := true)
    else Loaded(s.(stage := Idle), s.cardUrls[s.curImageId.value])
  }

  /** The window's slots with the search thread's finish corrected. */
  function ApplyCorrected(s: State, e: Event): State
    requires Valid(s) && Enabled(s, e)
  {
    if e.SearchThreadDone? then SearchThreadFinishedCorrected(s) else Apply(s, e)
  }

  /** With the correction, every event keeps the invariant and keeps a usable
      control: the window can always be reached again. */
  lemma CorrectedStaysLive(s: State, e: Event)
    requires Valid(s) && Live(s) && Enabled(s, e)
    ensures Valid(ApplyCorrected(s, e)) && Live(ApplyCorrected(s, e))
  {
    ApplyValid(s, e);
    match e
    case SearchClick(text) => SearchClickedEffect(s, text);
    case SearchResult(cards) => CardUrlsHandledEffect(s, CardSearch.ImageUrls(cards));
    case SearchThreadDone =>
    case ImageResult(img) => ImageHandledEnablement(s, img);
    case ImageThreadDone => LoadFinishedEnablement(s);
    case PreviousClick => PreviousClickedEffect(s);
    case NextClick => NextClickedEffect(s);
  }

  /** With the correction, no sequence of events from the initial window
      leaves it without a usable control. */
  function RunCorrected(s: State, events: seq<Event>): (r: Option<State>)
    requires Valid(s) && Live(s)
    ensures r.Some? ==> Valid(r.value) && Live(r.value)
    decreases |events|
  {
    if events == [] then Some(s)
    else if !Enabled(s, events[0]) then None
    else
      CorrectedStaysLive(s, events[0]);
      RunCorrected(ApplyCorrected(s, events[0]), events[1..])
  }

  /** A search for a name no card has: the message keeps its `$`, and once the
      search thread finishes, no control of the window is usable again. The
      corrected reaction gives back the search button and the name field. */
  lemma NoCardsScenario()
    ensures var events := [SearchClick("zzzznotacard"), SearchResult([]), SearchThreadDone];
      && Run(Initial(), events).Some?
      && Run(Initial(), events).value.message == Some("No cards with name $zzzznotacard found!")
      && !Live(Run(Initial(), events).value)
      && RunCorrected(Initial(), events).Some?
      && RunCorrected(Initial(), events).value.searchEnabled
      && RunCorrected(Initial(), events).value.nameEnabled
  {
    var s0 := Initial();
    var s1 := SearchClicked(s0, "zzzznotacard");
    var s2 := CardUrlsHandled(s1, []);
    assert CardSearch.ImageUrls([]) == [];
    assert NoCardsMessage("zzzznotacard") == "No cards with name $zzzznotacard found!";
    assert Run(s2, [SearchThreadDone]) == Some(SearchThreadFinished(s2).state);
    assert [SearchClick("zzzznotacard"), SearchResult([]), SearchThreadDone][1..] == [SearchResult([]), SearchThreadDone];
    assert [SearchResult([]), SearchThreadDone][1..] == [SearchThreadDone];
  }

  lemma RunStep(s: State, e: Event, rest: seq<Event>)
    requires Valid(s) && Enabled(s, e)
    ensures Valid(Apply(s, e))
    ensures Run(s, [e] + rest) == Run(Apply(s, e), rest)
  {
    ApplyValid(s, e);
    assert ([e] + rest)[1..] == rest;
  }

  /** A search for "Shivan Dragon" answered with three records, two of them
      with an image: two results, the first one shown, Previous and Next
      enabled; two rounds of Next come back to the first result. */
  lemma ShivanDragonScenario(img: Image)
    ensures var events := [SearchClick("Shivan Dragon"), SearchResult(CardSearch.ShivanDragonCards()),
                           SearchThreadDone, ImageResult(img), ImageThreadDone];
      var r := Run(Initial(), events);
      && r.Some?
      && r.value.cardUrls == ["u1", "u2"] && r.value.curImageId == Some(0)
      && r.value.image == Some(img)
      && r.value.previousEnabled && r.value.nextEnabled
      && r.value.searchEnabled && r.value.nameEnabled
      && NextRounds(r.value, 2, img).curImageId == Some(0)
  {
    var cards := CardSearch.ShivanDragonCards();
    CardSearch.ShivanDragonUrls();
    var rest4 := [ImageThreadDone];
    var rest3 := [ImageResult(img)] + rest4;
    var rest2 := [SearchThreadDone] + rest3;
    var rest1 := [SearchResult(cards)] + rest2;
    var events := [SearchClick("Shivan Dragon")] + rest1;
    assert events == [SearchClick("Shivan Dragon"), SearchResult(cards), SearchThreadDone, ImageResult(img), ImageThreadDone];

    var s0 := Initial();
    InitialValid();
    var s1 := Apply(s0, SearchClick("Shivan Dragon"));
    RunStep(s0, SearchClick("Shivan Dragon"), rest1);
    var s2 := Apply(s1, SearchResult(cards));
    assert s2.cardUrls == ["u1", "u2"] && s2.curImageId == Some(0);
    RunStep(s1, SearchResult(cards), rest2);
    var s3 := Apply(s2, SearchThreadDone);
    RunStep(s2, SearchThreadDone, rest3);
    var s4 := Apply(s3, ImageResult(img));
    RunStep(s3, ImageResult(img), rest4);
    var s5 := Apply(s4, ImageThreadDone);
    RunStep(s4, ImageThreadDone, []);
    assert rest4 == [ImageThreadDone] + [];
    assert Run(s0, events) == Some(s5);
    NextRoundsFullCircle(s5, img);
  }
}
