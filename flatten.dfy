/** Deck flattening: `DeckList.GetCards` (internal/scryfall/scryfall.go).
    The six sections are appended in the order a Go map iteration visits
    them, which the language leaves unspecified; the entries without a
    digest name are then dropped in place, keeping the order of the rest. */
module Flatten {

  import opened Types
  import opened Seqs

  /** An entry is resolvable when its digest carries a name. */
  predicate HasName(e: CardEntry) {
    e.cardDigest.name != ""
  }

  /** The entries of `s` that have a name, in their order in `s`. */
  function Named(s: seq<CardEntry>): (r: seq<CardEntry>)
    ensures |r| <= |s|
  {
    if s == [] then []
    else Named(s[..|s| - 1]) + (if HasName(s[|s| - 1]) then [s[|s| - 1]] else [])
  }

  /** An entry survives the filter iff it was there and has a name. */
  lemma {:induction false} NamedMembers(s: seq<CardEntry>)
    ensures forall e :: e in Named(s) <==> e in s && HasName(e)
  {
    if s != [] {
      var n := |s| - 1;
      NamedMembers(s[..n]);
      assert s == s[..n] + [s[n]];
    }
  }

  /** Filtering distributes over concatenation, so it never moves an entry
      across another. */
  lemma {:induction false} NamedAppend(a: seq<CardEntry>, b: seq<CardEntry>)
    ensures Named(a + b) == Named(a) + Named(b)
    decreases |b|
  {
    if b == [] {
      assert a + b == a;
    } else {
      var n := |b| - 1;
      assert (a + b)[..|a + b| - 1] == a + b[..n];
      NamedAppend(a, b[..n]);
    }
  }

  /** As a multiset, the filter keeps every named entry as often as it
      occurs and drops every unnamed one. */
  lemma {:induction false} NamedMultiset(s: seq<CardEntry>)
    ensures forall e :: multiset(Named(s))[e] == if HasName(e) then multiset(s)[e] else 0
  {
    if s != [] {
      var n := |s| - 1;
      NamedMultiset(s[..n]);
      assert s == s[..n] + [s[n]];
    }
  }

  /** Filtering twice is filtering once. */
  lemma {:induction false} NamedIdempotent(s: seq<CardEntry>)
    ensures Named(Named(s)) == Named(s)
  {
    if s != [] {
      var n := |s| - 1;
      NamedIdempotent(s[..n]);
      if HasName(s[n]) {
        NamedAppend(Named(s[..n]), [s[n]]);
        assert Named([s[n]]) == [s[n]] by { assert [s[n]][..0] == []; }
      } else {
        assert Named(s) == Named(s[..n]);
      }
    }
  }

  /** The six sections, in the order the source lists them in its map literal. */
  function Sections(d: DeckList): (secs: seq<seq<CardEntry>>)
    ensures |secs| == SectionCount
  {
    var e := d.entries;
    [e.commanders, e.lands, e.maybeboard, e.nonlands, e.outside, e.mainboard]
  }

  const SectionCount: nat := 6
  const SourceOrder: seq<nat> := [0, 1, 2, 3, 4, 5]

  /** `order` visits each of the six sections exactly once. */
  predicate IsSectionOrder(order: seq<nat>) {
    multiset(order) == multiset(SourceOrder)
  }

  /** Section `k`, or nothing when there is no such section. */
  function Section(secs: seq<seq<CardEntry>>, k: nat): (sec: seq<CardEntry>) {
    if k < |secs| then secs[k] else []
  }

  /** The sections named by `order`, laid end to end. */
  function Concat(secs: seq<seq<CardEntry>>, order: seq<nat>): (all: seq<CardEntry>) {
    if order == [] then []
    else Concat(secs, order[..|order| - 1]) + Section(secs, order[|order| - 1])
  }

  /** Visiting one more section appends its entries. */
  lemma ConcatSnoc(secs: seq<seq<CardEntry>>, o: seq<nat>, x: nat)
    ensures Concat(secs, o + [x]) == Concat(secs, o) + Section(secs, x)
  {
    assert (o + [x])[..|o|] == o;
  }

  /** Concat distributes over a split of the visiting order. */
  lemma {:induction false} ConcatAppend(secs: seq<seq<CardEntry>>, o1: seq<nat>, o2: seq<nat>)
    ensures Concat(secs, o1 + o2) == Concat(secs, o1) + Concat(secs, o2)
    decreases |o2|
  {
    if o2 == [] {
      assert o1 + o2 == o1;
    } else {
      var n := |o2| - 1;
      var x := o2[n];
      assert o2 == o2[..n] + [x];
      assert o1 + o2 == (o1 + o2[..n]) + [x];
      ConcatAppend(secs, o1, o2[..n]);
      ConcatSnoc(secs, o1 + o2[..n], x);
      ConcatSnoc(secs, o2[..n], x);
    }
  }

  /** Taking section `o[j]` out of the visiting order takes exactly its entries out. */
  lemma ConcatRemoveAt(secs: seq<seq<CardEntry>>, o: seq<nat>, j: nat)
    requires j < |o|
    ensures multiset(Concat(secs, RemoveAt(o, j))) + multiset(Section(secs, o[j])) == multiset(Concat(secs, o))
  {
    var x := o[j];
    assert o == o[..j] + [x] + o[j + 1..];
    ConcatAppend(secs, o[..j], [x]);
    ConcatAppend(secs, o[..j] + [x], o[j + 1..]);
    ConcatAppend(secs, o[..j], o[j + 1..]);
    assert Concat(secs, [x]) == Section(secs, x) by { assert [x][..0] == []; }
  }

  /** The multiset of entries does not depend on the order the sections are visited in. */
  lemma {:induction false} ConcatPermutation(secs: seq<seq<CardEntry>>, o1: seq<nat>, o2: seq<nat>)
    requires multiset(o1) == multiset(o2)
    ensures multiset(Concat(secs, o1)) == multiset(Concat(secs, o2))
    decreases |o1|
  {
    if o1 != [] {
      var n := |o1| - 1;
      var x := o1[n];
      assert x in multiset(o2);
      var j :| 0 <= j < |o2| && o2[j] == x;
      assert o1 == o1[..n] + [x];
      MultisetCancel(multiset(o1[..n]), multiset(RemoveAt(o2, j)), x);
      ConcatRemoveAt(secs, o2, j);
      ConcatPermutation(secs, o1[..n], RemoveAt(o2, j));
    }
  }

  /** The named entries of each section, section by section. */
  function NamedSections(secs: seq<seq<CardEntry>>): (r: seq<seq<CardEntry>>)
  {
    seq(|secs|, i requires 0 <= i < |secs| => Named(secs[i]))
  }

  /** Filtering the concatenation is concatenating the filtered sections: inside
      each section the kept entries stay in source order. */
  lemma {:induction false} NamedConcat(secs: seq<seq<CardEntry>>, order: seq<nat>)
    ensures Named(Concat(secs, order)) == Concat(NamedSections(secs), order)
  {
    if order != [] {
      var n := |order| - 1;
      NamedConcat(secs, order[..n]);
      NamedAppend(Concat(secs, order[..n]), Section(secs, order[n]));
    }
  }

  /** Whatever order the sections were visited in, the flattened deck holds
      each named entry of the six sections as often as it occurs there, and
      no unnamed entry. */
  lemma FlattenedMultiset(d: DeckList, order: seq<nat>)
    requires IsSectionOrder(order)
    ensures forall e :: multiset(Named(Concat(Sections(d), order)))[e] ==
                        (if HasName(e) then multiset(Concat(Sections(d), SourceOrder))[e] else 0)
  {
    NamedMultiset(Concat(Sections(d), order));
    ConcatPermutation(Sections(d), order, SourceOrder);
  }

  /** `d.GetCards()`: the named entries of the six sections, the sections
      taken in an unspecified order (ghost `order`) and each kept in source
      order. */
  method GetCards(d: DeckList) returns (cards: seq<CardEntry>, ghost order: seq<nat>)
    ensures IsSectionOrder(order)
    ensures cards == Named(Concat(Sections(d), order))
    ensures forall e :: multiset(cards)[e] ==
                        (if HasName(e) then multiset(Concat(Sections(d), SourceOrder))[e] else 0)
  {
    var all;
    all, order := AppendSections(Sections(d));
    var a := new CardEntry[|all|](i requires 0 <= i < |all| => all[i]);
    assert a[..] == all;
    var n := DropUnnamed(a);
    cards := a[..n];
    FlattenedMultiset(d, order);
  }

  /** The append loop over the section map: each section is visited once, in
      whatever order the iteration picks, and appended whole. */
  method AppendSections(sections: seq<seq<CardEntry>>) returns (all: seq<CardEntry>, ghost order: seq<nat>)
    requires |sections| == SectionCount
    ensures IsSectionOrder(order)
    ensures all == Concat(sections, order)
    ensures multiset(all) == multiset(Concat(sections, SourceOrder))
  {
    var remaining: seq<nat> := SourceOrder;
    all := [];
    order := [];
    while remaining != []
      invariant multiset(order) + multiset(remaining) == multiset(SourceOrder)
      invariant all == Concat(sections, order)
      decreases |remaining|
    {
      // the map iteration may visit any section not yet visited
      var k :| 0 <= k < |remaining|;
      var s := remaining[k];
      var rest := RemoveAt(remaining, k);
      assert multiset(rest) + multiset{s} == multiset(remaining);
      assert multiset(order + [s]) == multiset(order) + multiset{s};
      ConcatSnoc(sections, order, s);
      all := all + Section(sections, s);
      order := order + [s];
      remaining := rest;
    }
    ConcatPermutation(sections, order, SourceOrder);
  }

  /** The in-place filter: the named entries of the array are moved to its
      front, reading at `r` and writing at `w`; the count kept is returned. */
  method DropUnnamed(a: array<CardEntry>) returns (w: nat)
    modifies a
    ensures w <= a.Length
    ensures a[..w] == Named(old(a[..]))
    ensures a[w..] == old(a[..])[w..]
  {
    ghost var all := a[..];
    w := 0;
    for r := 0 to a.Length
      invariant w <= r
      invariant a[..w] == Named(all[..r])
      invariant forall i :: w <= i < a.Length ==> a[i] == all[i]
    {
      ghost var kept := a[..w];
      assert Named(all[..r + 1]) == kept + (if HasName(all[r]) then [all[r]] else []) by {
        assert all[..r + 1][..r] == all[..r];
      }
      if HasName(a[r]) {
        a[w] := a[r];
        w := w + 1;
        assert a[..w] == kept + [all[r]];
      }
    }
    assert all[..a.Length] == all;
  }
}
