/** The records decoded from the card-database API (internal/scryfall/scryfall.go),
    keeping only the fields the legality pipeline reads. */
module Types {

  datatype Option<+T> = None | Some(value: T)

  /** Abbreviated card identity embedded in a deck entry. */
  datatype CardDigest = CardDigest(id: string, name: string)

  /** One line of a deck list. */
  datatype CardEntry = CardEntry(id: string, deckId: string, count: int, cardDigest: CardDigest)

  /** The six sections of a deck export, as named in the JSON schema. */
  datatype Entries = Entries(
    maybeboard: seq<CardEntry>,
    nonlands: seq<CardEntry>,
    outside: seq<CardEntry>,
    commanders: seq<CardEntry>,
    lands: seq<CardEntry>,
    mainboard: seq<CardEntry>)

  /** A decoded deck export. */
  datatype DeckList = DeckList(id: string, name: string, format: string, entries: Entries)

  /** The legality table of a card: one status string per format field. */
  datatype Legalities = Legalities(
    standard: string,
    future: string,
    historic: string,
    timeless: string,
    gladiator: string,
    pioneer: string,
    explorer: string,
    modern: string,
    legacy: string,
    pauper: string,
    vintage: string,
    penny: string,
    commander: string,
    oathbreaker: string,
    standardbrawl: string,
    brawl: string,
    alchemy: string,
    paupercommander: string,
    duel: string,
    oldschool: string,
    premodern: string,
    predh: string)

  /** A card record fetched by identifier. */
  datatype Card = Card(id: string, name: string, legalities: Legalities)

  /** The per-card verdict for one requested format. */
  datatype CardLegalForFormat = CardLegalForFormat(id: string, name: string, legal: bool)
}
