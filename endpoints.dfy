/** Deck-id extraction and the two API endpoint URLs
    (internal/scryfall/scryfall.go and main.go). The regular expression
    `[0-9A-Fa-f]{8}-[0-9A-Fa-f]{4}-[0-9A-Fa-f]{4}-[0-9A-Fa-f]{4}-[0-9A-Fa-f]{12}`
    has one fixed length, so a match is a 36-character window. */
module Endpoints {

  import opened Types

  const UuidLength: nat := 36

  predicate IsHexDigit(c: char) {
    '0' <= c <= '9' || 'a' <= c <= 'f' || 'A' <= c <= 'F'
  }

  /** The positions of the four `-` separators of an 8-4-4-4-12 identifier. */
  predicate IsSeparatorPos(k: int) {
    k == 8 || k == 13 || k == 18 || k == 23
  }

  /** `w` matches the deck-id pattern exactly. */
  predicate IsUuid(w: string) {
    |w| == UuidLength &&
    forall k :: 0 <= k < UuidLength ==> if IsSeparatorPos(k) then w[k] == '-' else IsHexDigit(w[k])
  }

  /** The pattern matches `s` starting at index `i`. */
  predicate MatchAt(s: string, i: int) {
    0 <= i && i + UuidLength <= |s| && IsUuid(s[i..i + UuidLength])
  }

  /** `j` is the first index at or after `i` at which the pattern matches. */
  ghost predicate IsFirstMatchFrom(s: string, i: int, j: int) {
    i <= j && MatchAt(s, j) && forall m :: i <= m < j ==> !MatchAt(s, m)
  }

  /** `j` is the leftmost index at which the pattern matches. */
  ghost predicate IsLeftmostMatch(s: string, j: int) {
    IsFirstMatchFrom(s, 0, j)
  }

  /** The start of the first match at or after index `i`, if any. */
  function FirstMatchFrom(s: string, i: nat): (r: Option<nat>)
    requires i <= |s|
    decreases |s| - i
    ensures r.None? <==> forall j :: i <= j ==> !MatchAt(s, j)
    ensures r.Some? ==> IsFirstMatchFrom(s, i, r.value)
  {
    if |s| < i + UuidLength then None
    else if MatchAt(s, i) then Some(i)
    else FirstMatchFrom(s, i + 1)
  }

  /** `deckRegex.FindString(url)`: the leftmost UUID-shaped substring,
      returned exactly as it appears, or "" when there is none. */
  function FindDeckId(s: string): (id: string)
    ensures id == "" <==> forall j :: !MatchAt(s, j)
    ensures id != "" ==> IsUuid(id)
    ensures forall j :: IsLeftmostMatch(s, j) ==> id == s[j..j + UuidLength]
  {
    match FirstMatchFrom(s, 0)
    case None => ""
    case Some(j) => s[j..j + UuidLength]
  }

  /** A character that is neither a hex digit nor `-` rules out every
      window that covers it: the pattern has no word boundaries, only this. */
  lemma NoMatchAcross(s: string, p: int)
    requires 0 <= p < |s| && !IsHexDigit(s[p]) && s[p] != '-'
    ensures forall j :: j <= p < j + UuidLength ==> !MatchAt(s, j)
  {
    forall j | j <= p < j + UuidLength
      ensures !MatchAt(s, j)
    {
      if 0 <= j && j + UuidLength <= |s| {
        assert s[j..j + UuidLength][p - j] == s[p];
      }
    }
  }

  const DeckApiPrefix := "https://api.scryfall.com/decks/"
  const DeckApiSuffix := "/export/json"
  const CardApiPrefix := "https://api.scryfall.com/cards/"
  const CardApiSuffix := "?format=json&pretty=true"

  /** The deck export endpoint for a deck id (the id is not validated). */
  function DeckExportUrl(deckId: string): (url: string) {
    DeckApiPrefix + deckId + DeckApiSuffix
  }

  /** The single-card endpoint for a card id. */
  function CardUrl(cardId: string): (url: string) {
    CardApiPrefix + cardId + CardApiSuffix
  }

  /** Infix `x` of `p + x + q` is recoverable from the whole when `p` and `q` are fixed. */
  lemma InfixInjective(p: string, q: string, x: string, y: string)
    requires p + x + q == p + y + q
    ensures x == y
  {
    var u, v := p + x + q, p + y + q;
    assert |x| == |y|;
    forall k | 0 <= k < |x|
      ensures x[k] == y[k]
    {
      assert u[|p| + k] == x[k];
      assert v[|p| + k] == y[k];
    }
  }

  /** Distinct deck ids give distinct export URLs. */
  lemma DeckExportUrlInjective(a: string, b: string)
    requires DeckExportUrl(a) == DeckExportUrl(b)
    ensures a == b
  {
    InfixInjective(DeckApiPrefix, DeckApiSuffix, a, b);
  }

  /** Distinct card ids give distinct card URLs. */
  lemma CardUrlInjective(a: string, b: string)
    requires CardUrl(a) == CardUrl(b)
    ensures a == b
  {
    InfixInjective(CardApiPrefix, CardApiSuffix, a, b);
  }

  /** Round trip: the deck id extracted from an export URL is the id it was built from. */
  lemma DeckIdOfExportUrl(deckId: string)
    requires IsUuid(deckId)
    ensures FindDeckId(DeckExportUrl(deckId)) == deckId
  {
    var url := DeckExportUrl(deckId);
    var n := |DeckApiPrefix|;
    assert url[n..n + UuidLength] == deckId by {
      assert url == DeckApiPrefix + (deckId + DeckApiSuffix);
    }
    assert MatchAt(url, n);
    assert url[n - 1] == '/';
    NoMatchAcross(url, n - 1);
    assert IsLeftmostMatch(url, n);
  }
}
