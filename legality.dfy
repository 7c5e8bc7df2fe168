/** Legality lookup and the per-card verdict (internal/scryfall/scryfall.go).
    The source looks the format up by reflection on the Go field name of the
    legality struct; here the 22 field names are listed once, in declaration
    order, and the lookup is an explicit case-sensitive match on them. */
module Legality {

  import opened Types

  /** The Go field names of the legality struct, in declaration order. */
  const FormatFieldNames: seq<string> := [
    "Standard", "Future", "Historic", "Timeless", "Gladiator", "Pioneer",
    "Explorer", "Modern", "Legacy", "Pauper", "Vintage", "Penny",
    "Commander", "Oathbreaker", "Standardbrawl", "Brawl", "Alchemy",
    "Paupercommander", "Duel", "Oldschool", "Premodern", "Predh"]

  /** The values of the legality struct, in the same order as FormatFieldNames. */
  function FieldValues(l: Legalities): (vs: seq<string>)
    ensures |vs| == |FormatFieldNames|
  {
    [l.standard, l.future, l.historic, l.timeless, l.gladiator, l.pioneer,
     l.explorer, l.modern, l.legacy, l.pauper, l.vintage, l.penny,
     l.commander, l.oathbreaker, l.standardbrawl, l.brawl, l.alchemy,
     l.paupercommander, l.duel, l.oldschool, l.premodern, l.predh]
  }

  /** The value paired with the first occurrence of `name` in `names`, or
      None when `name` does not occur: a search of the fields by name. */
  function LookupByName(names: seq<string>, values: seq<string>, name: string): (r: Option<string>)
    requires |names| == |values|
    ensures r.None? <==> name !in names
    ensures forall k :: 0 <= k < |names| && names[k] == name && name !in names[..k] ==> r == Some(values[k])
  {
    if names == [] then None
    else if names[0] == name then Some(values[0])
    else LookupByName(names[1..], values[1..], name)
  }

  /** `reflect.ValueOf(l).FieldByName(format)`: the status held by the field
      named exactly `format`, or None when no field has that name. */
  function FieldByName(l: Legalities, format: string): (status: Option<string>) {
    LookupByName(FormatFieldNames, FieldValues(l), format)
  }

  /** Each field name reads its own field, and nothing else is a field name. */
  lemma FieldByNameReadsField(l: Legalities, format: string)
    ensures FieldByName(l, format).None? <==> format !in FormatFieldNames
    ensures forall k :: 0 <= k < |FormatFieldNames| && FormatFieldNames[k] == format ==>
      FieldByName(l, format) == Some(FieldValues(l)[k])
  {
    forall k | 0 <= k < |FormatFieldNames| && FormatFieldNames[k] == format
      ensures FieldByName(l, format) == Some(FieldValues(l)[k])
    {
      FieldNamesDistinct();
      assert format !in FormatFieldNames[..k];
    }
  }

  const LegalStatus := "legal"

  /** A card is legal in `format` exactly when `format` names one of the
      legality fields and that field holds "legal"; an unknown format is
      not an error, only false. */
  function IsCardLegalForFormat(card: Card, format: string): (legal: bool)
    ensures format !in FormatFieldNames ==> !legal
    ensures forall k :: 0 <= k < |FormatFieldNames| && FormatFieldNames[k] == format ==>
      (legal <==> FieldValues(card.legalities)[k] == LegalStatus)
  {
    FieldByNameReadsField(card.legalities, format);
    match FieldByName(card.legalities, format)
    case Some(status) => status == LegalStatus
    case None => false
  }

  const UnknownNamePrefix := "UNKNOWN NAME: "

  /** The verdict for one card. It depends on the fetched card only: the
      receiving entry is not consulted. */
  function CheckCardForFormatLegal(entry: CardEntry, format: string, card: Card): (v: CardLegalForFormat)
    ensures v.id == card.id
    ensures v.legal == IsCardLegalForFormat(card, format)
    ensures v.name != ""
    ensures card.name != "" ==> v.name == card.name
    ensures card.name == "" ==> v.name == UnknownNamePrefix + card.id
  {
    var name := if card.name != "" then card.name else UnknownNamePrefix + card.id;
    CardLegalForFormat(card.id, name, IsCardLegalForFormat(card, format))
  }

  /** Two entries that resolve to the same card get the same verdict. */
  lemma VerdictIgnoresEntry(e1: CardEntry, e2: CardEntry, format: string, card: Card)
    ensures CheckCardForFormatLegal(e1, format, card) == CheckCardForFormatLegal(e2, format, card)
  {
  }

  /** A format name that is not a field name is never legal. */
  lemma UnknownFormatNotLegal(card: Card, format: string)
    requires format !in FormatFieldNames
    ensures !IsCardLegalForFormat(card, format)
  {
  }

  /** A known field holding anything other than "legal" ("not_legal",
      "banned", "restricted", "") gives false. */
  lemma OtherStatusNotLegal(card: Card, k: nat)
    requires k < |FormatFieldNames| && FieldValues(card.legalities)[k] != LegalStatus
    ensures !IsCardLegalForFormat(card, FormatFieldNames[k])
  {
    FieldNamesDistinct();
  }

  /** No two legality fields share a name. */
  lemma FieldNamesDistinct()
    ensures forall i, j :: 0 <= i < j < |FormatFieldNames| ==> FormatFieldNames[i] != FormatFieldNames[j]
  {
  }

  /** Every field name starts with an upper-case letter, as exported Go fields do. */
  lemma FieldNamesCapitalised()
    ensures forall k :: 0 <= k < |FormatFieldNames| ==>
      FormatFieldNames[k] != "" && 'A' <= FormatFieldNames[k][0] <= 'Z'
  {
  }

  /** Matching is on the exact, capitalised field name: "Commander" reads the
      commander field, while "commander" names no field at all. */
  lemma LookupIsCaseSensitive(card: Card)
    ensures IsCardLegalForFormat(card, "Commander") <==> card.legalities.commander == LegalStatus
    ensures !IsCardLegalForFormat(card, "commander")
  {
    assert FormatFieldNames[12] == "Commander";
    FieldNamesCapitalised();
    assert "commander"[0] == 'c';
  }

  /** A legality table whose JSON object had none of the format keys:
      every field keeps Go's zero value. */
  const NoLegalities := Legalities("", "", "", "", "", "", "", "", "", "", "",
                                   "", "", "", "", "", "", "", "", "", "", "")

  /** A commander-legal, pauper-illegal card, looked up under three format names. */
  lemma CommanderCardScenario(entry: CardEntry, id: string)
    ensures var card := Card(id, "Judith, Carnage Connoisseur",
                             NoLegalities.(standard := "legal", commander := "legal", pauper := "not_legal"));
      CheckCardForFormatLegal(entry, "Commander", card) == CardLegalForFormat(id, "Judith, Carnage Connoisseur", true) &&
      !CheckCardForFormatLegal(entry, "Pauper", card).legal &&
      !CheckCardForFormatLegal(entry, "Nonexistent", card).legal
  {
    var card := Card(id, "Judith, Carnage Connoisseur",
                     NoLegalities.(standard := "legal", commander := "legal", pauper := "not_legal"));
    assert FormatFieldNames[12] == "Commander";
    assert FormatFieldNames[9] == "Pauper";
    assert FieldValues(card.legalities)[9] == "not_legal";
    FieldNamesCapitalised();
    assert "Nonexistent" !in FormatFieldNames;
  }
}
