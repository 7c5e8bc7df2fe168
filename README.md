# MTG deck legality checker — Dafny model

This project models the core of a small Go utility. The utility fetches a
Magic: The Gathering deck list from the Scryfall API. It flattens the deck's
sections into one list of card entries and fetches each card. It then
decides, for one requested game format, whether each card is legal there.

The model covers five parts of `internal/scryfall/scryfall.go` and `main.go`:

- **Deck-id extraction and endpoint URLs** (`endpoints.dfy`, `app.dfy`). The
  regular expression `[0-9A-Fa-f]{8}-…-[0-9A-Fa-f]{12}` has a fixed length. A
  match is therefore a 36-character window: 8-4-4-4-12 hex digits, with `-` at
  offsets 8, 13, 18 and 23. `FindDeckId` returns the leftmost such window,
  exactly as it appears, or `""` when there is none. The deck export URL and
  the card URL are string concatenations. Both are proved injective, and the
  id is proved to round-trip through the export URL.
- **Deck flattening** (`flatten.dfy`). `GetCards` appends the six sections in
  the order a Go map iteration visits them. The language leaves that order
  unspecified, so the model picks the next unvisited section with `:|` and
  records the visiting order in a ghost out-parameter. The unnamed entries
  are then dropped in place in an `array`, with a read index `r` and a write
  index `w <= r`. The result is the order-preserving filter `Named` of the
  concatenation. Lemmas show three more things. The filter keeps exactly the
  named entries, as a multiset. Inside each section the source order is kept.
  The multiset does not depend on the section order.
- **Legality lookup** (`legality.dfy`). The source finds the format with
  reflection (`FieldByName`) on the legality struct. The model searches the
  struct's 22 Go field names, listed once in declaration order. The match is
  exact and case-sensitive: `"Commander"` reads the commander field, and
  `"commander"` names nothing. A card is legal only when the field exists
  and holds exactly `"legal"`.
- **Verdict construction** (`legality.dfy`). The verdict takes its id and
  legality from the fetched card. Its name is the card's name, or
  `"UNKNOWN NAME: " + id` when that name is empty, so the name is never
  empty. The receiving entry is ignored.
- **The fan-out** (`fanout.dfy`). The goroutines become a sequential loop.
  At each step any pending entry may be the next to deliver its verdict,
  again chosen with `:|`. The result has exactly one verdict per entry. As a
  multiset it equals the verdicts taken in input order. The card fetch is
  the function parameter `getCard: string -> Card`.

`types.dfy` holds the decoded records. `seqs.dfy` holds two small sequence
facts shared by the flattening and fan-out models.

The code matches case-sensitively on the Go field name, and the model
follows the code.

## Model

| member | source | states |
|---|---|---|
| `Endpoints.FirstMatchFrom` | internal/scryfall/scryfall.go:98-99 | the result is None iff no window at or after `i` matches the pattern; otherwise it is the first matching start at or after `i` |
| `Endpoints.FindDeckId` | internal/scryfall/scryfall.go:98-99 | the id is `""` iff no UUID-shaped window occurs anywhere; a non-empty id is UUID-shaped (36 characters, `-` at 8, 13, 18, 23, hex elsewhere) and is the leftmost match, returned verbatim |
| `Endpoints.NoMatchAcross` | main.go:9 | a character that is neither a hex digit nor `-` rules out every window covering it |
| `Endpoints.DeckIdOfExportUrl` | internal/scryfall/scryfall.go:98-100 | extracting the deck id from the export URL built for a UUID-shaped id gives back that id |
| `Endpoints.DeckExportUrlInjective` | internal/scryfall/scryfall.go:100 | distinct deck ids give distinct export URLs |
| `Endpoints.CardUrlInjective` | internal/scryfall/scryfall.go:203 | distinct card ids give distinct card URLs |
| `App.GetDeckListFromScryfall` | main.go:8-13 | with no UUID-shaped substring the URL is `https://api.scryfall.com/decks//export/json`; otherwise it is the export URL of the leftmost match |
| `App.ExampleDeckPageId` | main.go:15-16 | the hard-coded deck page yields id `2ca4c348-b07a-4930-8b4e-3496db97199e` and the matching export URL |
| `App.MatchNeedsNoBoundary` | main.go:9-10 | in `"a2ca4c348-…"` the match starts at index 1, the first index where a full window matches |
| `Legality.LookupByName` | internal/scryfall/scryfall.go:226-227 | a lookup finds nothing iff the name is absent; otherwise it yields the value paired with the first occurrence of the name |
| `Legality.FieldByNameReadsField` | internal/scryfall/scryfall.go:62-85 | looking up a format fails iff the format is not one of the 22 field names; a field name reads exactly its own field's value |
| `Legality.IsCardLegalForFormat` | internal/scryfall/scryfall.go:222-239 | the result is false for any name that is not a field name; for a field name it is true iff that field holds exactly `"legal"` |
| `Legality.UnknownFormatNotLegal` | internal/scryfall/scryfall.go:235-237 | corollary of `IsCardLegalForFormat`, stated on its own: an unknown format name gives false, not an error |
| `Legality.OtherStatusNotLegal` | internal/scryfall/scryfall.go:230-234 | corollary of `IsCardLegalForFormat`, stated on its own: a known field holding anything other than `"legal"` gives false |
| `Legality.FieldNamesDistinct` | internal/scryfall/scryfall.go:63-84 | the 22 legality field names are pairwise distinct |
| `Legality.FieldNamesCapitalised` | internal/scryfall/scryfall.go:63-84 | every legality field name starts with an upper-case letter |
| `Legality.LookupIsCaseSensitive` | internal/scryfall/scryfall.go:226 | `"Commander"` is legal iff the commander field is `"legal"`; `"commander"` is never legal |
| `Legality.CheckCardForFormatLegal` | internal/scryfall/scryfall.go:183-199 | the verdict's id is the card's id and its legality is the lookup's; its name is the card's name, or `"UNKNOWN NAME: " + id` when that is empty; the name is never empty |
| `Legality.VerdictIgnoresEntry` | internal/scryfall/scryfall.go:183-190 | the verdict does not depend on the receiving entry |
| `Legality.CommanderCardScenario` | internal/scryfall/scryfall.go:222-239 | a card whose commander field is legal and pauper field is not_legal is legal for `"Commander"` and not for `"Pauper"` or `"Nonexistent"` |
| `Flatten.NamedMembers` | internal/scryfall/scryfall.go:139-144 | an entry is in the filtered list iff it is in the input and has a non-empty digest name |
| `Flatten.NamedAppend` | internal/scryfall/scryfall.go:139-144 | filtering a concatenation is concatenating the filtered parts, so no kept entry moves past another |
| `Flatten.NamedMultiset` | internal/scryfall/scryfall.go:139-144 | as a multiset the filter keeps each named entry as often as it occurs and no unnamed entry |
| `Flatten.NamedIdempotent` | internal/scryfall/scryfall.go:139-144 | filtering twice is filtering once |
| `Flatten.ConcatAppend` | internal/scryfall/scryfall.go:133-135 | appending sections in two runs is appending them in one run |
| `Flatten.ConcatRemoveAt` | internal/scryfall/scryfall.go:133-135 | taking one section out of the visiting order takes exactly its entries out, as a multiset |
| `Flatten.ConcatPermutation` | internal/scryfall/scryfall.go:122-135 | the multiset of appended entries does not depend on the order the sections are visited in |
| `Flatten.NamedConcat` | internal/scryfall/scryfall.go:122-144 | the flattened list is the filtered sections laid end to end in visiting order, so each section keeps its source order |
| `Flatten.FlattenedMultiset` | internal/scryfall/scryfall.go:120-151 | for any visiting order, the flattened list holds each named entry of the six sections as often as it occurs there, and no unnamed entry |
| `Flatten.GetCards` | internal/scryfall/scryfall.go:120-151 | the result is the named entries of the six sections; the sections come in some order that visits each once, and each section keeps its source order; as a multiset it holds each named entry of the six sections as often as it occurs there, and no unnamed entry |
| `Flatten.AppendSections` | internal/scryfall/scryfall.go:131-135 | the loop visits each of the six sections exactly once, in an order it chooses, and its result is those sections appended whole in that order; as a multiset it is every entry of every section |
| `Flatten.DropUnnamed` | internal/scryfall/scryfall.go:139-144 | after the in-place read/write loop, the array's first `w` cells are the order-preserving filter of its old contents, and the cells from `w` on still hold their old values |
| `FanOut.CheckCardsForFormatLegal` | internal/scryfall/scryfall.go:153-181 | exactly one verdict per input entry; as a multiset they equal the per-entry verdicts, in an order that is not guaranteed |
| `FanOut.CollectedIds` | internal/scryfall/scryfall.go:159-178 | when every fetch returns the card it was asked for, the multiset of verdict ids equals the multiset of entry digest ids |
| `FanOut.CollectedNamesNonEmpty` | internal/scryfall/scryfall.go:175-180 | every collected verdict has a non-empty name |

## Left out

- HTTP and JSON: `http.Get`, `io.ReadAll` and `json.Unmarshal` in `GetDeckList` and `GetCard` are network I/O and library decoding. A deck is modelled as already decoded. The card fetch is the parameter `getCard`. `GetDeckList` is modelled only through the URL it builds, which is the URL of `App.GetDeckListFromScryfall`.
- Transport and decode errors: the source panics on transport errors through `helpers.Check`, which the model does not represent. A decode failure gives a zero-valued or partly filled record: on a type mismatch `json.Unmarshal` still fills the other fields, and the source ignores its error (internal/scryfall/scryfall.go:113-115 and 215-217). The model's types can already hold such a record (for example an empty card name).
- Concurrency: the goroutines, the `sync.WaitGroup` and the channel are not modelled. The model keeps only their visible contract: one verdict per entry, in any order.
- Regular expressions: only the single fixed pattern is modelled, as a 36-character window predicate. Strings are sequences of characters. Go matches on UTF-8 text, but the pattern is ASCII, so the extracted id is the same.
- Debug output: `helpers.Debug`, the `fmt.Println` banners in `GetCards` and the `fmt.Print` in `main` only print. `GetDeckListFromScryfall` returns the URL instead of printing it.
- Unused record fields: `Object`, `URI`, `ScryfallURI`, `ReleasedAt`, `Rarity`, `Layout`, `Description`, `Trashed` and `InCompliance` are dropped.
- Report aggregation into legal and illegal name lists does not exist in the code, so it is not modelled.
- The Go test file compares a `DeckList` with a byte slice and calls the live API. It asserts nothing that could be modelled.
- `FanOut.CollectedIds` holds only under the assumption that a fetch returns the card it was asked for. The source does not promise this: a failed decode gives an empty id.
- Deterministic fetch: modelling the fetch as a function `getCard: string -> Card` assumes that two fetches of the same id return the same card. The source sends one unthrottled request per entry (internal/scryfall/scryfall.go:159-167), so a rate-limited reply can decode to an empty card for one entry and not for another entry with the same id. The model does not capture that difference.
