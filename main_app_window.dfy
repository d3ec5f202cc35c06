/** The main window's controller: the fields its slots update in place, and
    one method per slot. Widgets, threads and HTTP are not modelled; a worker
    thread's progress is the `stage` field, and its signals are the methods
    `HandleCardUrls`, `SearchThreadFinished`, `HandleImage` and `LoadFinished`.
    Each method is proved to change the window exactly as the slot function of
    the same name in `Session` says. */
module MainWindow {
  import opened Wrappers
  import opened Cursor
  import opened Session

  class MainAppWindow {
    var cardName: string
    var cardUrls: seq<string>
    var curImageId: Option<int>
    var searchEnabled: bool
    var nameEnabled: bool
    var previousEnabled: bool
    var nextEnabled: bool
    var message: Option<string>
    var image: Option<Image>
    var stage: Stage

    /** The window's state as a value. */
    function Snapshot(): State
      reads this
    {
      State(cardName, cardUrls, curImageId, searchEnabled, nameEnabled,
            previousEnabled, nextEnabled, message, image, stage)
    }

    ghost predicate Valid()
      reads this
    {
      Session.Valid(Snapshot())
    }

    /** `__init__`/`initUI`: an empty name field, Previous and Next disabled. */
    constructor ()
      ensures Snapshot() == Initial() && Valid()
    {
      cardName := "";
      cardUrls := [];
      curImageId := None;
      searchEnabled, nameEnabled := true, true;
      previousEnabled, nextEnabled := false, false;
      message := None;
      image := None;
      stage := Idle;
      InitialValid();
    }

    /** `search_cards_button_click`, the name field holding `text`. */
    method SearchClick(text: string)
      requires Valid() && searchEnabled
      modifies this
      ensures Snapshot() == SearchClicked(old(Snapshot()), text) && Valid()
      ensures |text| == 0 ==> message == Some(EmptyQueryMessage) && stage == old(stage)
      ensures |text| == 0 ==> cardUrls == old(cardUrls) && curImageId == old(curImageId)
      ensures |text| == 0 ==> searchEnabled && nameEnabled
      ensures |text| == 0 ==> previousEnabled == old(previousEnabled) && nextEnabled == old(nextEnabled)
      ensures |text| > 0 ==> stage == Searching(text)
      ensures |text| > 0 ==> !searchEnabled && !previousEnabled && !nextEnabled && !nameEnabled
    {
      ghost var s := Snapshot();
      SearchClickedEffect(s, text);
      cardName := text;
      if |cardName| == 0 {
        message := Some(EmptyQueryMessage);
        return;
      }
      stage := Searching(cardName);
      searchEnabled := false;
      previousEnabled := false;
      nextEnabled := false;
      nameEnabled := false;
    }

    /** `handle_card_urls`: the search worker's result. */
    method HandleCardUrls(urls: seq<string>)
      requires Valid() && stage.Searching?
      modifies this
      ensures Snapshot() == CardUrlsHandled(old(Snapshot()), urls) && Valid()
      ensures cardUrls == urls
      ensures |urls| > 0 ==> curImageId == Some(0)
      ensures |urls| == 0 ==> curImageId == old(curImageId) && message == Some(NoCardsMessage(old(cardName)))
    {
      CardUrlsHandledEffect(Snapshot(), urls);
      stage := SearchFinishing;
      cardUrls := urls;
      if |urls| == 0 {
        message := Some(NoCardsMessage(cardName));
        return;
      }
      curImageId := Some(0);
    }

    /** `load_image`: dispatch the download of `card_urls[cur_image_id]`,
        or raise before anything changes. */
    method LoadImage() returns (raised: Option<Fault>)
      modifies this
      ensures raised.None? ==> Session.LoadImage(old(Snapshot())) == Success(Snapshot())
      ensures raised.Some? ==> Session.LoadImage(old(Snapshot())) == Failure(raised.value)
      ensures raised.Some? ==> Snapshot() == old(Snapshot())
    {
      if curImageId.None? {
        return Some(MissingCursor);
      }
      var i := curImageId.value;
      if !(-|cardUrls| <= i < |cardUrls|) {
        return Some(IndexOutOfRange);
      }
      var url := if i < 0 then cardUrls[|cardUrls| + i] else cardUrls[i];
      stage := Loading(url);
      searchEnabled := false;
      previousEnabled := false;
      nextEnabled := false;
      nameEnabled := false;
      raised := None;
    }

    /** The search thread's finish, connected to `load_image`; `raised` is
        the exception that escapes it. */
    method SearchThreadFinished() returns (raised: Option<Fault>)
      requires Valid() && stage.SearchFinishing?
      modifies this
      ensures Reaction(Snapshot(), raised) == Session.SearchThreadFinished(old(Snapshot())) && Valid()
      ensures raised.None? <==> |cardUrls| > 0
    {
      SearchThreadFinishedEffect(Snapshot());
      stage := Idle;
      raised := LoadImage();
    }

    /** The search thread's finish as intended: with no results, the search
        button and the name field come back. */
    method SearchThreadFinishedCorrected()
      requires Valid() && stage.SearchFinishing?
      modifies this
      ensures Snapshot() == Session.SearchThreadFinishedCorrected(old(Snapshot())) && Valid()
      ensures Live(Snapshot())
    {
      stage := Idle;
      if |cardUrls| == 0 {
        searchEnabled := true;
        nameEnabled := true;
      } else {
        var raised := LoadImage();
        assert raised.None?;
      }
    }

    /** `handle_image`: the image worker's result. */
    method HandleImage(img: Image)
      requires Valid() && stage.Loading?
      modifies this
      ensures Snapshot() == ImageHandled(old(Snapshot()), img) && Valid()
      ensures image == Some(img)
      ensures previousEnabled == nextEnabled == (|cardUrls| > 1)
    {
      ImageHandledEnablement(Snapshot(), img);
      image := Some(img);
      stage := LoadFinishing(stage.imageUrl);
      if |cardUrls| > 1 {
        previousEnabled := true;
        nextEnabled := true;
      }
    }

    /** The image thread's finish: search button and name field re-enabled. */
    method LoadFinished()
      requires Valid() && stage.LoadFinishing?
      modifies this
      ensures Snapshot() == Session.LoadFinished(old(Snapshot())) && Valid()
      ensures searchEnabled && nameEnabled
    {
      LoadFinishedEnablement(Snapshot());
      stage := Idle;
      searchEnabled := true;
      nameEnabled := true;
    }

    /** `previous_button_click`. */
    method PreviousClick()
      requires Valid() && previousEnabled && stage.Idle?
      modifies this
      ensures Snapshot() == PreviousClicked(old(Snapshot())) && Valid()
      ensures curImageId == Some(Predecessor(old(curImageId).value, |cardUrls|))
      ensures 0 <= curImageId.value < |cardUrls|
    {
      ghost var s := Snapshot();
      PreviousClickedEffect(s);
      PredecessorInRange(curImageId.value, |cardUrls|);
      curImageId := Some(curImageId.value - 1);
      if curImageId.value < 0 {
        curImageId := Some(|cardUrls| - 1);
      }
      var raised := LoadImage();
      assert raised.None?;
    }

    /** `next_button_click`. */
    method NextClick()
      requires Valid() && nextEnabled && stage.Idle?
      modifies this
      ensures Snapshot() == NextClicked(old(Snapshot())) && Valid()
      ensures curImageId == Some(Successor(old(curImageId).value, |cardUrls|))
      ensures 0 <= curImageId.value < |cardUrls|
    {
      ghost var s := Snapshot();
      NextClickedEffect(s);
      SuccessorInRange(curImageId.value, |cardUrls|);
      curImageId := Some(curImageId.value + 1);
      if curImageId.value == |cardUrls| {
        curImageId := Some(0);
      }
      var raised := LoadImage();
      assert raised.None?;
    }
  }
}
