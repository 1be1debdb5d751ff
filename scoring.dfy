/** Scoring of a hand, as Player.point_tally does it: the hand is sorted,
    reversed, and then walked with a `for` loop that removes every card whose
    predecessor is also held. Because the list is changed while it is walked,
    the card that slides into the removed card's position is never looked at.
 */
module Scoring {

  /** Python's built-in `sum` over a list of ints. */
  function Sum(s: seq<int>): int
  {
    if s == [] then 0 else s[0] + Sum(s[1..])
  }

  predicate Ascending(s: seq<int>)
  {
    forall i, j :: 0 <= i < j < |s| ==> s[i] <= s[j]
  }

  predicate Descending(s: seq<int>)
  {
    forall i, j :: 0 <= i < j < |s| ==> s[i] >= s[j]
  }

  /** Places `x` into an ascending list. */
  function Insert(x: int, s: seq<int>): (r: seq<int>)
    ensures |r| == |s| + 1
    ensures multiset(r) == multiset{x} + multiset(s)
  {
    if s == [] then [x]
    else if x <= s[0] then [x] + s
    else
      assert s == [s[0]] + s[1..];
      [s[0]] + Insert(x, s[1..])
  }

  lemma AscendingTail(a: seq<int>)
    requires Ascending(a) && a != []
    ensures Ascending(a[1..])
  {
  }

  lemma AscendingCons(a: int, s: seq<int>)
    requires Ascending(s) && (s != [] ==> a <= s[0])
    ensures Ascending([a] + s)
  {
    var r := [a] + s;
    forall i, j | 0 <= i < j < |r| ensures r[i] <= r[j] {
      assert r[j] == s[j - 1];
      if i > 0 {
        assert r[i] == s[i - 1];
      } else if j > 1 {
        assert s[0] <= s[j - 1];
      }
    }
  }

  lemma {:induction false} InsertKeepsAscending(x: int, s: seq<int>)
    requires Ascending(s)
    ensures Ascending(Insert(x, s))
    ensures Insert(x, s)[0] == x || (s != [] && Insert(x, s)[0] == s[0])
  {
    if s == [] {
      assert Insert(x, s) == [x];
    } else if x <= s[0] {
      assert Insert(x, s) == [x] + s;
      AscendingCons(x, s);
    } else {
      var t := s[1..];
      var rest := Insert(x, t);
      AscendingTail(s);
      InsertKeepsAscending(x, t);
      assert Insert(x, s) == [s[0]] + rest;
      assert t != [] ==> s[0] <= t[0];
      AscendingCons(s[0], rest);
    }
  }

  /** The list `list.sort()` leaves behind: the same cards in ascending order. */
  function SortAsc(s: seq<int>): (r: seq<int>)
    ensures multiset(r) == multiset(s)
  {
    if s == [] then []
    else
      assert s == [s[0]] + s[1..];
      Insert(s[0], SortAsc(s[1..]))
  }

  lemma {:induction false} SortAscIsAscending(s: seq<int>)
    ensures Ascending(SortAsc(s))
  {
    if s != [] {
      SortAscIsAscending(s[1..]);
      InsertKeepsAscending(s[0], SortAsc(s[1..]));
    }
  }

  /** The list `list.reverse()` leaves behind. */
  function Reverse(s: seq<int>): (r: seq<int>)
    ensures |r| == |s|
    ensures forall i :: 0 <= i < |s| ==> r[i] == s[|s| - 1 - i]
  {
    if s == [] then [] else Reverse(s[1..]) + [s[0]]
  }

  lemma {:induction false} ReversePermutes(s: seq<int>)
    ensures multiset(Reverse(s)) == multiset(s)
  {
    if s != [] {
      ReversePermutes(s[1..]);
      assert s == [s[0]] + s[1..];
    }
  }

  /** The position of the card `list.remove(x)` deletes: the first occurrence
      of `x`. */
  function IndexOf(s: seq<int>, x: int): (i: nat)
    requires x in s
    ensures i < |s| && s[i] == x
  {
    if s[0] == x then 0
    else
      assert s == [s[0]] + s[1..];
      IndexOf(s[1..], x) + 1
  }

  /** No occurrence of `x` comes before the one IndexOf finds. */
  lemma {:induction false} IndexOfIsFirst(s: seq<int>, x: int)
    requires x in s
    ensures forall j :: 0 <= j < IndexOf(s, x) ==> s[j] != x
  {
    if s[0] != x {
      assert s == [s[0]] + s[1..];
      IndexOfIsFirst(s[1..], x);
      forall j | 0 < j < IndexOf(s, x) ensures s[j] != x {
        assert s[j] == s[1..][j - 1];
      }
    }
  }

  /** What `list.remove(x)` leaves: the list without its first occurrence of `x`. */
  function RemoveFirst(s: seq<int>, x: int): (r: seq<int>)
    requires x in s
    ensures |r| == |s| - 1
    ensures multiset(r) == multiset(s) - multiset{x}
  {
    var i := IndexOf(s, x);
    assert s == s[..i] + [s[i]] + s[i + 1..];
    s[..i] + s[i + 1..]
  }

  lemma RemoveFirstKeepsDescending(s: seq<int>, x: int)
    requires x in s && Descending(s)
    ensures Descending(RemoveFirst(s, x))
  {
    var i, r := IndexOf(s, x), RemoveFirst(s, x);
    assert forall j :: 0 <= j < |r| ==> r[j] == s[if j < i then j else j + 1];
  }

  /** The removal loop of point_tally, from loop position `k` onwards, on the
      list `s` as it stands at that position: the card at `k` is removed when
      its predecessor is in the (current) list, and the position advances
      either way, so after a removal the next card is skipped. */
  function Sweep(s: seq<int>, k: nat): (r: seq<int>)
    ensures multiset(r) <= multiset(s)
    decreases |s| - k
  {
    if k >= |s| then s
    else if s[k] - 1 in s then Sweep(RemoveFirst(s, s[k]), k + 1)
    else Sweep(s, k + 1)
  }

  lemma {:induction false} SweepKeepsDescending(s: seq<int>, k: nat)
    requires Descending(s)
    ensures Descending(Sweep(s, k))
    decreases |s| - k
  {
    if k < |s| {
      if s[k] - 1 in s {
        RemoveFirstKeepsDescending(s, s[k]);
        SweepKeepsDescending(RemoveFirst(s, s[k]), k + 1);
      } else {
        SweepKeepsDescending(s, k + 1);
      }
    }
  }

  /** The hand point_tally leaves in `card_hand`. */
  function Scored(hand: seq<int>): (r: seq<int>)
    ensures multiset(r) <= multiset(hand)
  {
    var sorted := Reverse(SortAsc(hand));
    ReversePermutes(SortAsc(hand));
    Sweep(sorted, 0)
  }

  /** The hand point_tally leaves is in descending order and holds only cards
      of the original hand. */
  lemma ScoredIsDescendingSubHand(hand: seq<int>)
    ensures Descending(Scored(hand))
    ensures multiset(Scored(hand)) <= multiset(hand)
  {
    SortAscIsAscending(hand);
    SweepKeepsDescending(Reverse(SortAsc(hand)), 0);
  }

  /** The value point_tally returns: the cards left in the hand minus the
      chips. With cards that are not negative, as every card of the game is,
      collapsing runs never adds points: the value lies between minus the
      chips and the whole hand's sum minus the chips. */
  function Tally(hand: seq<int>, chips: int): (r: int)
    ensures NonNegative(hand) ==> -chips <= r <= Sum(hand) - chips
  {
    ScoredSumBound(hand);
    Sum(Scored(hand)) - chips
  }

  predicate NonNegative(s: seq<int>)
  {
    forall c :: c in multiset(s) ==> c >= 0
  }

  lemma {:induction false} SumNonNegative(s: seq<int>)
    requires NonNegative(s)
    ensures Sum(s) >= 0
  {
    if s != [] {
      assert s == [s[0]] + s[1..];
      assert multiset(s[1..]) <= multiset(s);
      assert s[0] in multiset(s);
      SumNonNegative(s[1..]);
    }
  }

  lemma {:induction false} SumConcat(a: seq<int>, b: seq<int>)
    ensures Sum(a + b) == Sum(a) + Sum(b)
  {
    if a == [] {
      assert a + b == b;
    } else {
      assert (a + b)[0] == a[0];
      assert (a + b)[1..] == a[1..] + b;
      SumConcat(a[1..], b);
    }
  }

  /** Removing one card lowers the sum by exactly that card. */
  lemma SumRemoveFirst(s: seq<int>, x: int)
    requires x in s
    ensures Sum(s) == x + Sum(RemoveFirst(s, x))
  {
    var i := IndexOf(s, x);
    assert s == s[..i] + ([x] + s[i + 1..]);
    SumConcat(s[..i], [x] + s[i + 1..]);
    SumConcat(s[..i], s[i + 1..]);
    assert ([x] + s[i + 1..])[1..] == s[i + 1..];
  }

  /** Of cards that are not negative, a part never sums to more than the whole. */
  lemma {:induction false} SumOfSubMultiset(r: seq<int>, s: seq<int>)
    requires multiset(r) <= multiset(s) && NonNegative(s)
    ensures Sum(r) <= Sum(s)
    decreases |r|
  {
    if r == [] {
      SumNonNegative(s);
    } else {
      var x := r[0];
      assert r == [x] + r[1..];
      assert x in multiset(s);
      var t := RemoveFirst(s, x);
      SumRemoveFirst(s, x);
      SubMultisetOfRemoved(r, s, t);
      SumOfSubMultiset(r[1..], t);
    }
  }

  lemma SubMultisetOfRemoved(r: seq<int>, s: seq<int>, t: seq<int>)
    requires r != [] && r[0] in s && multiset(r) <= multiset(s) && NonNegative(s)
    requires multiset(t) == multiset(s) - multiset{r[0]}
    ensures multiset(r[1..]) <= multiset(t) && NonNegative(t)
  {
    assert r == [r[0]] + r[1..];
  }

  lemma ScoredSumBound(hand: seq<int>)
    ensures NonNegative(hand) ==> 0 <= Sum(Scored(hand)) <= Sum(hand)
  {
    if NonNegative(hand) {
      var r := Scored(hand);
      SumOfSubMultiset(r, hand);
      assert NonNegative(r);
      SumNonNegative(r);
    }
  }

  /** The rule the game intends: of every run of consecutive cards only the
      lowest counts. This is the reference point_tally is compared to. */
  function RunMinima(hand: seq<int>): set<int>
  {
    set i | 0 <= i < |hand| && hand[i] - 1 !in hand :: hand[i]
  }

  lemma {:induction false} SweepRemovesOnlyCardsWithPredecessor(s: seq<int>, k: nat, c: int)
    ensures multiset(Sweep(s, k))[c] < multiset(s)[c] ==> c - 1 in s
    decreases |s| - k
  {
    if k < |s| {
      if s[k] - 1 in s {
        var t := RemoveFirst(s, s[k]);
        SweepRemovesOnlyCardsWithPredecessor(t, k + 1, c);
        if multiset(Sweep(s, k))[c] < multiset(s)[c] && c != s[k] {
          assert multiset(t)[c] == multiset(s)[c];
          assert c - 1 in multiset(t);
          assert c - 1 in multiset(s);
        }
      } else {
        SweepRemovesOnlyCardsWithPredecessor(s, k + 1, c);
      }
    }
  }

  lemma {:induction false} SweepKeepsCardsWithoutPredecessor(s: seq<int>, k: nat, c: int)
    requires c - 1 !in s
    ensures multiset(Sweep(s, k))[c] == multiset(s)[c]
    decreases |s| - k
  {
    if k < |s| {
      if s[k] - 1 in s {
        var t := RemoveFirst(s, s[k]);
        assert s[k] != c;
        assert c - 1 !in multiset(s);
        assert c - 1 !in t;
        SweepKeepsCardsWithoutPredecessor(t, k + 1, c);
      } else {
        SweepKeepsCardsWithoutPredecessor(s, k + 1, c);
      }
    }
  }

  lemma {:induction false} SweepWithoutPairsIsIdentity(s: seq<int>, k: nat)
    requires NoConsecutivePair(s)
    ensures Sweep(s, k) == s
    decreases |s| - k
  {
    if k < |s| {
      SweepWithoutPairsIsIdentity(s, k + 1);
    }
  }

  /** Every card that point_tally drops had its predecessor in the hand. */
  lemma ScoredDropsOnlyCardsWithPredecessor(hand: seq<int>, c: int)
    ensures multiset(Scored(hand))[c] < multiset(hand)[c] ==> c - 1 in hand
  {
    var sorted := Reverse(SortAsc(hand));
    ReversePermutes(SortAsc(hand));
    SweepRemovesOnlyCardsWithPredecessor(sorted, 0, c);
    if c - 1 in sorted {
      assert c - 1 in multiset(sorted);
    }
  }

  /** The lowest card of every run of consecutive cards survives point_tally. */
  lemma ScoredKeepsLowestOfEveryRun(hand: seq<int>, c: int)
    requires c - 1 !in hand
    ensures multiset(Scored(hand))[c] == multiset(hand)[c]
  {
    var sorted := Reverse(SortAsc(hand));
    ReversePermutes(SortAsc(hand));
    assert c - 1 !in multiset(sorted);
    SweepKeepsCardsWithoutPredecessor(sorted, 0, c);
  }

  /** The cards the intended run rule keeps are all still in the scored hand. */
  lemma RunMinimaSurviveScoring(hand: seq<int>)
    ensures forall c :: c in RunMinima(hand) ==> c in Scored(hand)
  {
    forall c | c in RunMinima(hand) ensures c in Scored(hand) {
      var i :| 0 <= i < |hand| && hand[i] - 1 !in hand && hand[i] == c;
      RunMinimumSurvives(hand, i);
    }
  }

  lemma RunMinimumSurvives(hand: seq<int>, i: nat)
    requires i < |hand| && hand[i] - 1 !in hand
    ensures hand[i] in Scored(hand)
  {
    assert hand[i] in multiset(hand);
    ScoredKeepsLowestOfEveryRun(hand, hand[i]);
    assert hand[i] in multiset(Scored(hand));
  }

  predicate NoConsecutivePair(s: seq<int>)
  {
    forall i :: 0 <= i < |s| ==> s[i] - 1 !in s
  }

  lemma NoConsecutivePairPermuted(a: seq<int>, b: seq<int>)
    requires multiset(a) == multiset(b) && NoConsecutivePair(a)
    ensures NoConsecutivePair(b)
  {
    forall i | 0 <= i < |b| ensures b[i] - 1 !in b {
      assert b[i] in multiset(a);
      var j :| 0 <= j < |a| && a[j] == b[i];
      assert b[i] - 1 !in multiset(a);
    }
  }

  /** A hand without two consecutive cards is only sorted into descending order. */
  lemma ScoredWithoutPairsKeepsAll(hand: seq<int>)
    requires NoConsecutivePair(hand)
    ensures Scored(hand) == Reverse(SortAsc(hand))
    ensures multiset(Scored(hand)) == multiset(hand)
  {
    var sorted := Reverse(SortAsc(hand));
    ReversePermutes(SortAsc(hand));
    NoConsecutivePairPermuted(hand, sorted);
    SweepWithoutPairsIsIdentity(sorted, 0);
  }

  lemma AscendingHeadIsLeast(a: seq<int>, x: int)
    requires Ascending(a) && x in a
    ensures a[0] <= x
  {
  }

  lemma SameTail(a: seq<int>, b: seq<int>)
    requires multiset(a) == multiset(b) && a != [] && b != [] && a[0] == b[0]
    ensures multiset(a[1..]) == multiset(b[1..])
  {
    var x, y, ta, tb := a[0], b[0], a[1..], b[1..];
    assert a == [x] + ta && b == [y] + tb;
    assert multiset(ta) == multiset(a) - multiset{x};
    assert multiset(tb) == multiset(b) - multiset{y};
  }

  /** Two ascending lists with the same cards are the same list. */
  lemma {:induction false} AscendingUnique(a: seq<int>, b: seq<int>)
    requires Ascending(a) && Ascending(b)
    requires multiset(a) == multiset(b)
    ensures a == b
  {
    assert |a| == |multiset(a)| == |multiset(b)| == |b|;
    if a != [] {
      assert a[0] in multiset(b) && b[0] in multiset(a);
      AscendingHeadIsLeast(a, b[0]);
      AscendingHeadIsLeast(b, a[0]);
      SameTail(a, b);
      AscendingTail(a);
      AscendingTail(b);
      AscendingUnique(a[1..], b[1..]);
      assert a == [a[0]] + a[1..] && b == [b[0]] + b[1..];
    }
  }

  /** point_tally depends only on which cards are held, not on the order in
      which they were taken. */
  lemma ScoredIgnoresOrder(h1: seq<int>, h2: seq<int>)
    requires multiset(h1) == multiset(h2)
    ensures Scored(h1) == Scored(h2)
  {
    SortAscIsAscending(h1);
    SortAscIsAscending(h2);
    AscendingUnique(SortAsc(h1), SortAsc(h2));
  }

  /** `list.sort()` yields the one ascending arrangement of the hand's cards. */
  lemma SortAscIsTheSortedPermutation(hand: seq<int>, sorted: seq<int>)
    requires Ascending(sorted) && multiset(hand) == multiset(sorted)
    ensures SortAsc(hand) == sorted
  {
    SortAscIsAscending(hand);
    AscendingUnique(SortAsc(hand), sorted);
  }

  // ---------------------------------------------------------------------
  // Worked hands

  lemma SumOfTwo(s: seq<int>)
    requires |s| == 2
    ensures Sum(s) == s[0] + s[1]
  {
    var t := s[1..];
    assert t[0] == s[1] && t[1..] == [];
    assert Sum(t) == t[0] + Sum(t[1..]);
  }

  lemma SumOfThree(s: seq<int>)
    requires |s| == 3
    ensures Sum(s) == s[0] + s[1] + s[2]
  {
    var t := s[1..];
    assert t[0] == s[1] && t[1] == s[2] && |t| == 2;
    SumOfTwo(t);
  }

  /** One pass of the `for` loop of point_tally when it removes the card. */
  lemma SweepRemoves(s: seq<int>, k: nat)
    requires k < |s| && s[k] - 1 in s
    ensures Sweep(s, k) == Sweep(RemoveFirst(s, s[k]), k + 1)
  {
  }

  /** One pass of the `for` loop of point_tally when it keeps the card. */
  lemma SweepKeeps(s: seq<int>, k: nat)
    requires k < |s| && s[k] - 1 !in s
    ensures Sweep(s, k) == Sweep(s, k + 1)
  {
  }

  /** On the sorted hand [5, 4, 3] the loop removes the 5; the 4 slides into
      position 0, the loop moves on to position 1 and never looks at it. */
  lemma RemovalLoopOnRunOfThree(s: seq<int>)
    requires s == [5, 4, 3]
    ensures Sweep(s, 0) == [4, 3]
  {
    assert s[0] - 1 in s;
    SweepRemoves(s, 0);
    RemoveFirstOfRunOfThree();
    RemovalLoopKeepsThree();
  }

  lemma RemoveFirstOfRunOfThree()
    ensures RemoveFirst([5, 4, 3], 5) == [4, 3]
  {
    assert IndexOf([5, 4, 3], 5) == 0;
  }

  /** The last pass of that loop: 2 is not held, so the 3 stays. */
  lemma RemovalLoopKeepsThree()
    ensures Sweep([4, 3], 1) == [4, 3]
  {
    assert 2 !in [4, 3];
  }

  lemma ScoredOfSorted(hand: seq<int>, sorted: seq<int>)
    requires Ascending(sorted) && multiset(hand) == multiset(sorted)
    ensures Scored(hand) == Sweep(Reverse(sorted), 0)
  {
    SortAscIsTheSortedPermutation(hand, sorted);
  }

  lemma ReverseRunOfThree()
    ensures Reverse([3, 4, 5]) == [5, 4, 3]
  {
    var r := Reverse([3, 4, 5]);
    assert r[0] == 5 && r[1] == 4 && r[2] == 3;
  }

  /** Whatever order they were taken in, the cards 3, 4 and 5 score 4 + 3 = 7. */
  lemma ScoredSkipsAfterRemoval(hand: seq<int>)
    requires multiset(hand) == multiset{3, 4, 5}
    ensures Scored(hand) == [4, 3]
  {
    ScoredOfSorted(hand, [3, 4, 5]);
    ReverseRunOfThree();
    RemovalLoopOnRunOfThree([5, 4, 3]);
  }

  lemma TallyOfRunOfThree(hand: seq<int>)
    requires multiset(hand) == multiset{3, 4, 5}
    ensures Tally(hand, 0) == 7
  {
    ScoredSkipsAfterRemoval(hand);
    SumOfTwo(Scored(hand));
  }

  /** The run rule would keep only the 3 of that hand. */
  lemma RunMinimaOfRunOfThree(hand: seq<int>)
    requires multiset(hand) == multiset{3, 4, 5}
    ensures RunMinima(hand) == {3}
  {
    assert 3 in multiset(hand);
    var i := IndexOf(hand, 3);
    assert 2 !in multiset(hand);
    forall c | c in RunMinima(hand) ensures c == 3 {
      var j :| 0 <= j < |hand| && hand[j] - 1 !in hand && hand[j] == c;
      assert hand[j] in multiset(hand);
      assert c == 4 ==> 3 in hand;
      assert c == 5 ==> 4 in multiset(hand);
    }
  }

  lemma ReversePair()
    ensures Reverse([3, 4]) == [4, 3]
  {
    var r := Reverse([3, 4]);
    assert r[0] == 4 && r[1] == 3;
  }

  lemma RemovalLoopOnPair()
    ensures Sweep([4, 3], 0) == [3]
  {
    assert IndexOf([4, 3], 4) == 0;
    assert RemoveFirst([4, 3], 4) == [3];
    assert Sweep([4, 3], 0) == Sweep([3], 1);
  }

  lemma ScoredPair()
    ensures Scored([4, 3]) == [3]
  {
    ScoredOfSorted([4, 3], [3, 4]);
    ReversePair();
    RemovalLoopOnPair();
  }

  /** Scoring the scored hand again changes it: the 4 the first run skipped
      is removed the second time. */
  lemma ScoredIsNotIdempotent(hand: seq<int>)
    requires multiset(hand) == multiset{3, 4, 5}
    ensures Scored(Scored(hand)) == [3] != Scored(hand)
  {
    ScoredSkipsAfterRemoval(hand);
    ScoredPair();
  }

  lemma ReverseSmallHand()
    ensures Reverse([3, 4, 10]) == [10, 4, 3]
  {
    var r := Reverse([3, 4, 10]);
    assert r[0] == 10 && r[1] == 4 && r[2] == 3;
  }

  lemma RemovalLoopOnSmallHand(s: seq<int>)
    requires s == [10, 4, 3]
    ensures Sweep(s, 0) == [10, 3]
  {
    assert s[0] - 1 !in s;
    SweepKeeps(s, 0);
    assert s[1] - 1 in s;
    SweepRemoves(s, 1);
    assert IndexOf(s, 4) == 1;
    assert RemoveFirst(s, 4) == [10, 3];
  }

  lemma ScoredSmallHand(hand: seq<int>)
    requires multiset(hand) == multiset{3, 4, 10}
    ensures Scored(hand) == [10, 3]
  {
    ScoredOfSorted(hand, [3, 4, 10]);
    ReverseSmallHand();
    RemovalLoopOnSmallHand([10, 4, 3]);
  }

  lemma TallyOfSmallHand(hand: seq<int>)
    requires multiset(hand) == multiset{3, 4, 10}
    ensures Tally(hand, 5) == 8
  {
    ScoredSmallHand(hand);
    SumOfTwo(Scored(hand));
  }

  lemma ReverseRunOfThreeAndTen()
    ensures Reverse([5, 6, 7, 10]) == [10, 7, 6, 5]
  {
    var r := Reverse([5, 6, 7, 10]);
    assert r[0] == 10 && r[1] == 7 && r[2] == 6 && r[3] == 5;
  }

  lemma RemoveFirstOfRun()
    ensures RemoveFirst([10, 7, 6, 5], 7) == [10, 6, 5]
  {
    assert IndexOf([10, 7, 6, 5], 7) == 1;
  }

  /** The last pass of that loop: 4 is not held, so the 5 stays. */
  lemma RemovalLoopKeepsFive()
    ensures Sweep([10, 6, 5], 2) == [10, 6, 5]
  {
    assert 4 !in [10, 6, 5];
  }

  /** On the sorted hand [10, 7, 6, 5] the loop keeps the 10, removes the 7,
      never looks at the 6 that slides into its place and keeps the 5. */
  lemma RemovalLoopOnRunOfThreeAndTen(s: seq<int>)
    requires s == [10, 7, 6, 5]
    ensures Sweep(s, 0) == [10, 6, 5]
  {
    assert s[0] - 1 !in s;
    SweepKeeps(s, 0);
    assert s[1] - 1 in s;
    SweepRemoves(s, 1);
    RemoveFirstOfRun();
    RemovalLoopKeepsFive();
  }

  lemma ScoredDiffersFromRunMinima(hand: seq<int>)
    requires multiset(hand) == multiset{5, 6, 7, 10}
    ensures Scored(hand) == [10, 6, 5]
  {
    ScoredOfSorted(hand, [5, 6, 7, 10]);
    ReverseRunOfThreeAndTen();
    RemovalLoopOnRunOfThreeAndTen([10, 7, 6, 5]);
  }

  lemma TallyOfRunOfThreeAndTen(hand: seq<int>)
    requires multiset(hand) == multiset{5, 6, 7, 10}
    ensures Tally(hand, 0) == 21
  {
    ScoredDiffersFromRunMinima(hand);
    SumOfThree(Scored(hand));
  }

  lemma RunMinimaOfRunOfThreeAndTen(hand: seq<int>)
    requires multiset(hand) == multiset{5, 6, 7, 10}
    ensures RunMinima(hand) == {5, 10}
  {
    assert 5 in multiset(hand) && 10 in multiset(hand);
    var i := IndexOf(hand, 5);
    var j := IndexOf(hand, 10);
    assert 4 !in multiset(hand) && 9 !in multiset(hand);
    forall c | c in RunMinima(hand) ensures c == 5 || c == 10 {
      var k :| 0 <= k < |hand| && hand[k] - 1 !in hand && hand[k] == c;
      assert hand[k] in multiset(hand);
      assert c == 6 ==> 5 in hand;
      assert c == 7 ==> 6 in multiset(hand);
    }
  }

  /** The run rule keeps the 3 and the 10 of that hand, the same cards
      point_tally keeps. */
  lemma RunMinimaOfSmallHand(hand: seq<int>)
    requires multiset(hand) == multiset{3, 4, 10}
    ensures RunMinima(hand) == {3, 10}
  {
    assert 3 in multiset(hand) && 10 in multiset(hand);
    var i := IndexOf(hand, 3);
    var j := IndexOf(hand, 10);
    assert 2 !in multiset(hand) && 9 !in multiset(hand);
    forall c | c in RunMinima(hand) ensures c == 3 || c == 10 {
      var k :| 0 <= k < |hand| && hand[k] - 1 !in hand && hand[k] == c;
      assert hand[k] in multiset(hand);
      assert c == 4 ==> 3 in hand;
    }
  }
}
