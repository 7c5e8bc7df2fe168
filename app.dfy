/** The entry point (main.go): extract the deck id from a deck page URL and
    build the export request URL. The URL is returned rather than printed. */
module App {

  import opened Endpoints

  /** `GetDeckListFromScryfall(url)`: the export URL for the leftmost
      UUID-shaped substring of `url`, or for the empty id when there is none.
      `GetDeckList` builds its request URL the same way before fetching. */
  function GetDeckListFromScryfall(url: string): (r: string)
    ensures (forall j :: !MatchAt(url, j)) ==> r == "https://api.scryfall.com/decks//export/json"
    ensures forall j :: IsLeftmostMatch(url, j) ==> r == DeckExportUrl(url[j..j + UuidLength])
  {
    DeckExportUrl(FindDeckId(url))
  }

  const ExampleDeckId := "2ca4c348-b07a-4930-8b4e-3496db97199e"
  /** The deck page URL hard-coded in `main`. */
  const ExampleDeckPage := "https://scryfall.com/@Pacobart/decks/" + ExampleDeckId

  /** The hard-coded deck page yields its own deck id and the matching export URL. */
  lemma ExampleDeckPageId()
    ensures FindDeckId(ExampleDeckPage) == ExampleDeckId
    ensures GetDeckListFromScryfall(ExampleDeckPage) ==
      "https://api.scryfall.com/decks/" + "2ca4c348-b07a-4930-8b4e-3496db97199e" + "/export/json"
  {
    var s := ExampleDeckPage;
    var n := |"https://scryfall.com/@Pacobart/decks/"|;
    assert s[n..n + UuidLength] == ExampleDeckId;
    assert MatchAt(s, n);
    assert s[n - 1] == '/';
    NoMatchAcross(s, n - 1);
    assert s[0] == 'h';
    NoMatchAcross(s, 0);
    assert IsLeftmostMatch(s, n);
  }

  /** No word boundaries: in "a2ca4c348-..." the window at index 0 fails
      (its ninth character is '8', not '-'), so the id starts at index 1. */
  lemma MatchNeedsNoBoundary()
    ensures FindDeckId("a" + ExampleDeckId) == ExampleDeckId
  {
    var s := "a" + ExampleDeckId;
    assert s[1..1 + UuidLength] == ExampleDeckId;
    assert MatchAt(s, 1);
    assert ExampleDeckId[7] == '8';
    assert s[8] == ExampleDeckId[7];
    assert s[0..UuidLength][8] == s[8];
    assert !MatchAt(s, 0);
    assert IsLeftmostMatch(s, 1);
  }
}
