/** The search worker's result extraction (`CardSearcher.run`): from the
    decoded search response, the list of card records, keep the `imageUrl`
    of every record that has one, in the server's order. The HTTP request and
    the JSON decoding happen before this point and are not modelled. */
module CardSearch {

  /** A decoded card record: a JSON object, of which only the string-valued
      fields matter here. */
  type Record = map<string, string>

  const ImageUrlKey: string := "imageUrl"

  predicate HasImage(card: Record) {
    ImageUrlKey in card
  }

  /** The URLs the worker emits for `cards`, defined the way the worker
      builds them: by appending, record after record. */
  function ImageUrls(cards: seq<Record>): (urls: seq<string>)
    ensures |urls| <= |cards|
  {
    if cards == [] then []
    else
      var last := cards[|cards| - 1];
      ImageUrls(cards[..|cards| - 1]) + (if HasImage(last) then [last[ImageUrlKey]] else [])
  }

  /** The loop of `CardSearcher.run`: `card_urls += [card['imageUrl']]` for
      each record carrying the key. */
  method ExtractImageUrls(cards: seq<Record>) returns (cardUrls: seq<string>)
    ensures cardUrls == ImageUrls(cards)
  {
    cardUrls := [];
    var i := 0;
    while i < |cards|
      invariant 0 <= i <= |cards|
      invariant cardUrls == ImageUrls(cards[..i])
    {
      var card := cards[i];
      if ImageUrlKey in card {
        cardUrls := cardUrls + [card[ImageUrlKey]];
      }
      assert cards[..i + 1][..i] == cards[..i];
      i := i + 1;
    }
    assert cards[..i] == cards;
  }

  /** Extraction distributes over concatenation of responses: what a record
      contributes depends on that record alone, and the order is kept. */
  lemma {:induction false} ImageUrlsAppend(a: seq<Record>, b: seq<Record>)
    ensures ImageUrls(a + b) == ImageUrls(a) + ImageUrls(b)
  {
    if b == [] {
      assert a + b == a;
    } else {
      var b' := b[..|b| - 1];
      assert (a + b)[..|a + b| - 1] == a + b';
      ImageUrlsAppend(a, b');
    }
  }

  /** A single record contributes its URL if it has one, and nothing otherwise. */
  lemma ImageUrlsSingle(card: Record)
    ensures ImageUrls([card]) == if HasImage(card) then [card[ImageUrlKey]] else []
  {
    assert [card][..0] == [];
  }

  /** A URL is emitted exactly when some record carries it under `imageUrl`. */
  lemma {:induction false} ImageUrlsMembership(cards: seq<Record>, url: string)
    ensures url in ImageUrls(cards) <==>
            exists i :: 0 <= i < |cards| && HasImage(cards[i]) && cards[i][ImageUrlKey] == url
  {
    if cards != [] {
      var init := cards[..|cards| - 1];
      ImageUrlsMembership(init, url);
      if exists i :: 0 <= i < |init| && HasImage(init[i]) && init[i][ImageUrlKey] == url {
        var i :| 0 <= i < |init| && HasImage(init[i]) && init[i][ImageUrlKey] == url;
        assert cards[i] == init[i];
      }
      if exists i :: 0 <= i < |cards| && HasImage(cards[i]) && cards[i][ImageUrlKey] == url {
        var i :| 0 <= i < |cards| && HasImage(cards[i]) && cards[i][ImageUrlKey] == url;
        if i < |init| {
          assert init[i] == cards[i];
        }
      }
    }
  }

  /** The number of records that carry an image URL. */
  function CountWithImage(cards: seq<Record>): nat {
    if cards == [] then 0
    else CountWithImage(cards[1..]) + (if HasImage(cards[0]) then 1 else 0)
  }

  /** One URL per image-bearing record: none is dropped and none duplicated. */
  lemma {:induction false} ImageUrlsLength(cards: seq<Record>)
    ensures |ImageUrls(cards)| == CountWithImage(cards)
  {
    if cards != [] {
      ImageUrlsLength(cards[1..]);
      ImageUrlsAppend([cards[0]], cards[1..]);
      ImageUrlsSingle(cards[0]);
      assert [cards[0]] + cards[1..] == cards;
    }
  }

  /** Three records for one name, the second without an image. */
  function ShivanDragonCards(): seq<Record> {
    [map["name" := "Shivan Dragon", "imageUrl" := "u1"],
     map["name" := "Shivan Dragon"],
     map["name" := "Shivan Dragon", "imageUrl" := "u2"]]
  }

  /** The record without an image is skipped; the other two keep their order. */
  lemma ShivanDragonUrls()
    ensures ImageUrls(ShivanDragonCards()) == ["u1", "u2"]
  {
    var cards := ShivanDragonCards();
    assert "imageUrl" != "name";
    assert cards[..2][..1] == [cards[0]] && [cards[0]][..0] == [];
    assert HasImage(cards[0]) && !HasImage(cards[1]) && HasImage(cards[2]);
  }
}
