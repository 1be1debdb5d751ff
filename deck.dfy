/** The draw pile of a game: class Deck of No_Thanks.py. The random sample that
    `build` takes from the cards 3 to 35 is an input here. */
module Decks {

  /** The lowest and highest card of the game, and how many of them are dealt. */
  const LowCard := 3
  const HighCard := 35
  const DeckSize := 24

  predicate Distinct(s: seq<int>)
  {
    forall i, j :: 0 <= i < j < |s| ==> s[i] != s[j]
  }

  /** What `random.sample(range(3, 36), 24)` can return: 24 different cards,
      each between 3 and 35. Such a list holds no card twice. */
  predicate IsSample(s: seq<int>): (r: bool)
    ensures r ==> forall c :: multiset(s)[c] <= 1
  {
    if |s| == DeckSize && Distinct(s) && forall i :: 0 <= i < |s| ==> LowCard <= s[i] <= HighCard then
      DistinctCountsAtMostOneEverywhere(s);
      true
    else
      false
  }

  lemma DistinctCountsAtMostOneEverywhere(s: seq<int>)
    requires Distinct(s)
    ensures forall c :: multiset(s)[c] <= 1
  {
    forall c {
      DistinctCountsAtMostOne(s, c);
    }
  }

  /** In a list without repeats every card occurs at most once. */
  lemma {:induction false} DistinctCountsAtMostOne(s: seq<int>, c: int)
    requires Distinct(s)
    ensures multiset(s)[c] <= 1
  {
    if s != [] {
      assert s == [s[0]] + s[1..];
      assert Distinct(s[1..]) by {
        forall i, j | 0 <= i < j < |s[1..]| ensures s[1..][i] != s[1..][j] {
          assert s[1..][i] == s[i + 1] && s[1..][j] == s[j + 1];
        }
      }
      DistinctCountsAtMostOne(s[1..], c);
      if s[0] == c {
        assert c !in s[1..] by {
          forall j | 0 <= j < |s[1..]| ensures s[1..][j] != c {
            assert s[1..][j] == s[j + 1];
          }
        }
      }
    }
  }

  class Deck {
    /** The cards still to be drawn; the top of the pile is the last element. */
    var cards: seq<int>

    constructor ()
      ensures cards == []
    {
      cards := [];
    }

    /** Appends the shuffled cards one by one. */
    method Build(sample: seq<int>)
      requires IsSample(sample)
      modifies this
      ensures cards == old(cards) + sample
    {
      for i := 0 to |sample|
        invariant cards == old(cards) + sample[..i]
      {
        cards := cards + [sample[i]];
      }
    }

    /** `list.pop()`: removes and returns the last card. */
    method Draw() returns (c: int)
      requires cards != []
      modifies this
      ensures c == old(cards)[|old(cards)| - 1]
      ensures cards == old(cards)[..|old(cards)| - 1]
    {
      c := cards[|cards| - 1];
      cards := cards[..|cards| - 1];
    }

    /** True exactly when no card is left. */
    method CheckEnd() returns (over: bool)
      ensures over <==> cards == []
    {
      over := cards == [];
    }
  }

  /** A deck built once from a fresh `Deck()` holds exactly the sample: 24
      different cards between 3 and 35. */
  method NewShuffledDeck(sample: seq<int>) returns (d: Deck)
    requires IsSample(sample)
    ensures fresh(d)
    ensures d.cards == sample
    ensures |d.cards| == DeckSize && Distinct(d.cards)
    ensures forall i :: 0 <= i < |d.cards| ==> LowCard <= d.cards[i] <= HighCard
  {
    d := new Deck();
    d.Build(sample);
  }
}
