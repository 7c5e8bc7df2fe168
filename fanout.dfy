/** The legality fan-out: `CheckCardsForFormatLegal`
    (internal/scryfall/scryfall.go). One task per entry fetches the card and
    sends its verdict on a channel; the verdicts are collected in the order
    the tasks finish. Here the tasks run one at a time, and which pending
    task finishes next is an unspecified choice. The card fetch is the
    parameter `getCard`. */
module FanOut {

  import opened Types
  import opened Seqs
  import opened Legality

  /** The verdict the task for `entry` produces. */
  function EntryVerdict(format: string, getCard: string -> Card, entry: CardEntry): (v: CardLegalForFormat) {
    CheckCardForFormatLegal(entry, format, getCard(entry.cardDigest.id))
  }

  /** One verdict per entry, in input order: the reference the collected
      verdicts are compared against. */
  function Verdicts(format: string, getCard: string -> Card, cards: seq<CardEntry>): (vs: seq<CardLegalForFormat>)
  {
    seq(|cards|, i requires 0 <= i < |cards| => EntryVerdict(format, getCard, cards[i]))
  }

  /** Dropping one entry drops exactly its verdict. */
  lemma VerdictsRemoveAt(format: string, getCard: string -> Card, cards: seq<CardEntry>, k: nat)
    requires k < |cards|
    ensures multiset(Verdicts(format, getCard, RemoveAt(cards, k))) + multiset{EntryVerdict(format, getCard, cards[k])}
            == multiset(Verdicts(format, getCard, cards))
  {
    var vs := Verdicts(format, getCard, cards);
    assert Verdicts(format, getCard, RemoveAt(cards, k)) == RemoveAt(vs, k);
  }

  /** `CheckCardsForFormatLegal(format, cards)`: exactly one verdict per
      entry, in an order that is not guaranteed. */
  method CheckCardsForFormatLegal(format: string, cards: seq<CardEntry>, getCard: string -> Card)
    returns (verdicts: seq<CardLegalForFormat>)
    ensures |verdicts| == |cards|
    ensures multiset(verdicts) == multiset(Verdicts(format, getCard, cards))
  {
    var pending := cards;
    verdicts := [];
    while pending != []
      invariant |verdicts| + |pending| == |cards|
      invariant multiset(verdicts) + multiset(Verdicts(format, getCard, pending))
                == multiset(Verdicts(format, getCard, cards))
      decreases |pending|
    {
      // any task still running may be the next to deliver its verdict
      var k :| 0 <= k < |pending|;
      var entry := pending[k];
      var card := getCard(entry.cardDigest.id);
      var verdict := CheckCardForFormatLegal(entry, format, card);
      VerdictsRemoveAt(format, getCard, pending, k);
      verdicts := verdicts + [verdict];
      pending := RemoveAt(pending, k);
    }
  }

  function VerdictIds(vs: seq<CardLegalForFormat>): (ids: seq<string>)
  {
    seq(|vs|, i requires 0 <= i < |vs| => vs[i].id)
  }

  function DigestIds(cards: seq<CardEntry>): (ids: seq<string>)
  {
    seq(|cards|, i requires 0 <= i < |cards| => cards[i].cardDigest.id)
  }

  /** Reordering the verdicts reorders their ids the same way. */
  lemma {:induction false} VerdictIdsPermutation(a: seq<CardLegalForFormat>, b: seq<CardLegalForFormat>)
    requires multiset(a) == multiset(b)
    ensures multiset(VerdictIds(a)) == multiset(VerdictIds(b))
    decreases |a|
  {
    if a != [] {
      var n := |a| - 1;
      var x := a[n];
      assert x in multiset(b);
      var j :| 0 <= j < |b| && b[j] == x;
      assert a == a[..n] + [x];
      assert multiset(a[..n]) + multiset{x} == multiset(a);
      MultisetCancel(multiset(a[..n]), multiset(RemoveAt(b, j)), x);
      VerdictIdsPermutation(a[..n], RemoveAt(b, j));
      assert VerdictIds(a) == VerdictIds(a[..n]) + [x.id];
      assert VerdictIds(RemoveAt(b, j)) == RemoveAt(VerdictIds(b), j);
    }
  }

  /** When every fetch returns the card it was asked for, the collected
      verdicts carry, as a multiset, exactly the digest ids of the entries. */
  lemma CollectedIds(format: string, getCard: string -> Card, cards: seq<CardEntry>, verdicts: seq<CardLegalForFormat>)
    requires forall id :: getCard(id).id == id
    requires multiset(verdicts) == multiset(Verdicts(format, getCard, cards))
    ensures multiset(VerdictIds(verdicts)) == multiset(DigestIds(cards))
  {
    VerdictIdsPermutation(verdicts, Verdicts(format, getCard, cards));
    assert VerdictIds(Verdicts(format, getCard, cards)) == DigestIds(cards);
  }

  /** Every collected verdict has a display name, whatever the fetch returned. */
  lemma CollectedNamesNonEmpty(format: string, getCard: string -> Card, cards: seq<CardEntry>, verdicts: seq<CardLegalForFormat>)
    requires multiset(verdicts) == multiset(Verdicts(format, getCard, cards))
    ensures forall v :: v in verdicts ==> v.name != ""
  {
    forall v | v in verdicts
      ensures v.name != ""
    {
      assert v in multiset(Verdicts(format, getCard, cards));
    }
  }
}
