# MTG Card Searcher: session controller and result extraction

This project models the core of a small PyQt desktop client for a public
Magic: The Gathering card database. The user types a card name and presses
Search. A background worker (`CardSearcher`) queries the search endpoint and
keeps the `imageUrl` of every returned card record. The main window
(`MainAppWindow`) stores that list of URLs and a cursor into it. It then has a
second worker (`ImageLoader`) download the picture under the cursor. The
Previous and Next buttons move the cursor around the list, wrapping at both
ends. While a worker runs, the window disables its controls.

The model has five modules:

- `CardSearch` (`card_search.dfy`): the URL filter of `CardSearcher.run`. A
  specification function `ImageUrls`, the loop `ExtractImageUrls` proved
  against it, and lemmas saying which URLs come out and in what order.
- `Cursor` (`cursor.dfy`): the wrap-around arithmetic of the two navigation
  buttons and its properties.
- `Session` (`session.dfy`): the window's state as a value `State`, and one
  pure function per slot. It also holds the invariant `Valid` that every
  reachable state keeps, the slot lemmas, runs of events from the initial
  window, and two concrete sessions.
- `MainWindow` (`main_app_window.dfy`): the class `MainAppWindow`. It has the
  fields the slots mutate, and one method per slot. Each method is proved to
  change the fields exactly as the slot function in `Session` says.
- `Wrappers` (`wrappers.dfy`): `Option` and `Result`.

Qt's signal plumbing becomes explicit events. These are a click, a worker's
`result` signal and its thread's `finished` signal. They arrive one at a time,
and each worker's `result` comes before its `finished`, as the workers emit
them. The field `stage` records which worker is in flight and which of its
signals is due next. It stands for the window's `thread`/`worker` attributes.

Message boxes are kept as the text of the last one shown. The no-results text
keeps the literal `$` that the window puts before the name:
`No cards with name $<name> found!`.

`load_image` reads `card_urls[cur_image_id]` with Python's indexing, which
accepts negative indices. It can raise, and the model keeps that as a `Fault`
outcome rather than ruling it out. A search with no image-bearing results
reaches exactly this failure (see Findings).

## Model

| member | source | states |
|---|---|---|
| `CardSearch.ExtractImageUrls` | src/main.py:22-25 | the loop builds exactly `ImageUrls(cards)`: the `imageUrl` of each record that has one, appended in record order |
| `CardSearch.ImageUrlsAppend` | src/main.py:22-25 | extraction distributes over concatenation: the URLs of `a + b` are those of `a` followed by those of `b` |
| `CardSearch.ImageUrlsSingle` | src/main.py:24-25 | one record contributes its `imageUrl` if it has the key, and nothing otherwise |
| `CardSearch.ImageUrlsMembership` | src/main.py:23-25 | a URL is extracted if and only if some record carries it under `imageUrl` |
| `CardSearch.ImageUrlsLength` | src/main.py:23-25 | the number of URLs equals the number of records that have `imageUrl`, so none is dropped or duplicated |
| `CardSearch.ShivanDragonUrls` | src/main.py:23-25 | of three records where the second has no image, the URLs of the first and third come out, in that order |
| `Cursor.SuccessorInRange` | src/main.py:153-156 | for a cursor in `[0, n)`, `(i + 1) mod n` stays in range and equals the source's "increment, reset to 0 at `n`" |
| `Cursor.PredecessorInRange` | src/main.py:147-150 | for a cursor in `[0, n)`, `(i - 1 + n) mod n` stays in range and equals the source's "decrement, reset to `n - 1` below 0" |
| `Cursor.PredecessorSuccessor` | src/main.py:147-156 | Previous undoes Next and Next undoes Previous |
| `Cursor.NextTimesForward` | src/main.py:153-156 | while it does not pass the end, `k` presses of Next move the cursor `k` places |
| `Cursor.NextFullCircle` | src/main.py:153-156 | `n` presses of Next return the cursor to its start |
| `Cursor.NavigateInRange` | src/main.py:147-156 | any sequence of Previous/Next presses keeps a cursor in `[0, n)` |
| `Cursor.NavigateUndo` | src/main.py:147-156 | any sequence of presses followed by its mirror image in reverse order returns the cursor to its start |
| `Session.PyIndex` | src/main.py:121 | Python's `card_urls[i]` yields a value exactly for `-len <= i < len`, and the plain element for a non-negative index |
| `Session.InitialValid` | src/main.py:58-83 | the freshly built window (empty name field, Previous and Next disabled, no results) satisfies the invariant |
| `Session.SearchClickedEffect` | src/main.py:85-103 | an empty query only sets "Enter the name of the card first": results, cursor, stage and all four enabled flags are unchanged; a non-empty query dispatches a search for it and disables search, Previous, Next and name field |
| `Session.CardUrlsHandledEffect` | src/main.py:111-117 | the result always replaces `card_urls`; with results the cursor becomes 0, without them the cursor is left as it was and the message names the query with its `$`; every control stays disabled |
| `Session.LoadImageOutcome` | src/main.py:119-133 | `load_image` raises exactly when the cursor is unset (AttributeError) or outside Python's index range (IndexError); otherwise it downloads the URL under the cursor with all four controls disabled |
| `Session.SearchThreadFinishedEffect` | src/main.py:109-121 | when the search thread finishes, the download proceeds exactly when the search had results, and then fetches the first URL |
| `Session.EmptyResultRaises` | src/main.py:111-121 | after a search without results, `load_image` raises (AttributeError exactly when no earlier search had results), and the window is left with every control disabled and nothing in flight |
| `Session.ImageHandledEnablement` | src/main.py:141-145 | after an image arrives it is shown, and Previous and Next are enabled exactly when there are more than one result; otherwise they stay disabled from the dispatch |
| `Session.LoadFinishedEnablement` | src/main.py:138-139 | when the image thread finishes, the search button and the name field are re-enabled, and navigation is enabled exactly with more than one result |
| `Session.PreviousClickedEffect` | src/main.py:147-151 | Previous moves the cursor to `(i - 1 + n) mod n`, within range, and dispatches the download of that URL with all controls disabled |
| `Session.NextClickedEffect` | src/main.py:153-157 | Next moves the cursor to `(i + 1) mod n`, within range, and dispatches the download of that URL with all controls disabled |
| `Session.NextThenPrevious` | src/main.py:147-157 | after a full round of Next (click, image, finish), Previous is enabled, and a round of Previous restores the original cursor |
| `Session.NextRounds` | src/main.py:153-157 | `k` full rounds of Next keep the invariant and the results, and leave the cursor `k` presses of Next further on |
| `Session.NextRoundsFullCircle` | src/main.py:153-157 | as many rounds of Next as there are results bring the cursor back to where it started |
| `Session.Run` | src/main.py:85-157 | every state reached from a valid state by deliverable events satisfies the invariant |
| `Session.ReachableInvariant` | src/main.py:85-157 | in every window reachable when clicks wait for the image thread's finish, the cursor indexes the results when there are any, Previous and Next are enabled only together and only with two or more results, and no control is enabled while a search or a download is in flight |
| `Session.SearchThreadFinishedCorrected` | src/main.py:109-117 | the corrected finish: without results, the search button and name field come back; with results, it behaves as written and does not raise; either way a control stays usable |
| `Session.CorrectedStaysLive` | src/main.py:85-157 | with the corrected finish, every event keeps the invariant and keeps a usable control |
| `Session.RunCorrected` | src/main.py:85-157 | with the corrected finish, no sequence of events leaves the window without a usable control |
| `Session.NoCardsScenario` | src/main.py:111-121 | a search for "zzzznotacard" with no records shows "No cards with name $zzzznotacard found!"; as written it leaves no usable control, and corrected it re-enables search and name field |
| `Session.ShivanDragonScenario` | src/main.py:85-157 | a search for "Shivan Dragon" returning three records, two with images, gives two results, cursor 0, the image shown and navigation enabled; two rounds of Next return the cursor to 0 |
| `MainWindow.MainAppWindow.constructor` | src/main.py:58-83 | the window starts with an empty name field, search enabled, Previous and Next disabled and no results |
| `MainWindow.MainAppWindow.SearchClick` | src/main.py:85-109 | the fields change as `SearchClicked` says: an empty query only sets the message; otherwise a search is dispatched and all four controls are disabled |
| `MainWindow.MainAppWindow.HandleCardUrls` | src/main.py:111-117 | the fields change as `CardUrlsHandled` says: results replaced; cursor 0, or the no-results message |
| `MainWindow.MainAppWindow.LoadImage` | src/main.py:119-133 | either dispatches the download of the URL under the cursor, as `Session.LoadImage` succeeds, or raises the fault `Session.LoadImage` names and changes nothing |
| `MainWindow.MainAppWindow.SearchThreadFinished` | src/main.py:109 | the search thread's finish runs `load_image`; it raises exactly when the results are empty |
| `MainWindow.MainAppWindow.SearchThreadFinishedCorrected` | src/main.py:109-117 | the corrected finish, proved to leave a usable control |
| `MainWindow.MainAppWindow.HandleImage` | src/main.py:141-145 | the image is shown, and Previous and Next are enabled exactly when there are more than one result |
| `MainWindow.MainAppWindow.LoadFinished` | src/main.py:138-139 | the search button and name field are re-enabled |
| `MainWindow.MainAppWindow.PreviousClick` | src/main.py:147-151 | the source's decrement-and-wrap yields `(i - 1 + n) mod n` within range, then the download of that URL is dispatched |
| `MainWindow.MainAppWindow.NextClick` | src/main.py:153-157 | the source's increment-and-wrap yields `(i + 1) mod n` within range, then the download of that URL is dispatched |

## Left out

- Widget construction, geometry, style sheets, window title, `QMessageBox` display and `window()` with the application's event loop (src/main.py:44-83, 159-169) are UI. Only the message text is kept.
- The modal message box runs a nested event loop, so other signals can arrive while it is open. This is not modelled: a message is only a text field.
- `QThread` creation, `moveToThread`, signal/slot connections, `deleteLater` and thread lifetimes are concurrency plumbing. Each worker is the `stage` field, and each signal is a sequential method call.
- `SearchClick` connects the search thread's `finished` signal only after `start()` (src/main.py:107-109). The model assumes the connection is in place before the thread ends. If it were not, `load_image` would never run.
- `MainWindow.MainAppWindow.PreviousClick`: requires the image thread to have finished (`stage` is `Idle`). In the source, Previous and Next are already enabled between the image worker's `result` and its thread's `finished`, and that short window of clicks is not modelled.
- `MainWindow.MainAppWindow.NextClick`: requires the image thread to have finished, for the same reason as `PreviousClick`.
- `Session.PreviousClickedEffect`: requires `stage` to be `Idle`, like `PreviousClick`. A click in the source between the image worker's `result` (src/main.py:143-145 enables the button) and its thread's `finished` starts a second download while the first thread's finish is still pending.
- `Session.NextClickedEffect`: requires `stage` to be `Idle`, for the same reason as `Session.PreviousClickedEffect`.
- `Session.ReachableInvariant`: holds for the runs the model delivers, where clicks wait for the image thread's finish. In the source, a Previous or Next click in the gap above is followed by the old thread's finish, which re-enables the search button and the name field (src/main.py:138-139) while the new download runs. So "no control is enabled while a download is in flight" can fail in the source, and overlapping requests are possible. Modelling this would need the stage to count pending finishes of earlier threads; the model does not.
- `requests.get`, `r.json()` and the lookup `data['cards']` (src/main.py:17-21, 39) are network I/O and foreign JSON decoding. The model starts from the decoded list of records. A record is a map from string keys to string values, because only `imageUrl` is read. A response without `cards` and transport or decoding errors are not modelled.
- `QImage.loadFromData` and `QPixmap` (src/main.py:38-39, 142) are a foreign image library. An image is an opaque byte sequence, and a picture that fails to decode is shown like any other.
- What PyQt does with an exception that escapes a slot (print it, or abort the process, depending on its version) is not modelled. The model reports the fault and keeps the window's state.
- Before the first search result arrives, the window has no `card_urls` attribute. The model starts it as the empty list, which no slot reads before the first search result.
- A search without results does not re-enable the search button or the name field (see Findings). Previous and Next stay disabled while a worker is in flight, even with two or more results. The model follows the code.

## Findings

| source | as written | input that shows it | evidently intended | confidence | as-written member | corrected member |
|---|---|---|---|---|---|---|
| src/main.py:109-121 | the search thread's finish always runs `load_image`. That reads `card_urls[cur_image_id]` even when `handle_card_urls` stored an empty list and left the cursor alone, so it raises AttributeError on a first search, IndexError later. The search button and name field, disabled at dispatch, are never enabled again | query "zzzznotacard", answered with no card records | after the no-results message, skip the download and re-enable the search button and name field | not executed; high | `Session.EmptyResultRaises` | `Session.SearchThreadFinishedCorrected` |
