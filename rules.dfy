/** The turn engine of No_Thanks.py stated on values: what a turn, a round of
    the `while` loop of Run_Game, and a whole game do to the deck, the two
    pools and the players' hands and chips. The classes of module Game are
    proved to do exactly this; the invariants of the game are proved here.

    The random choices are inputs: the sample the deck is built from, and a
    list of decisions, one per call of rand_play (0 takes, 1 passes). A game
    that needs more decisions than it is given has no result (None).
 */
module Rules {
  import opened Decks
  import opened Scoring

  /** A value of `random.randint(0, 1)`. */
  type Bit = x: int | 0 <= x <= 1

  datatype Option<T> = None | Some(value: T)

  const Players := 3
  const StartChips := 11
  const ChipsInGame := Players * StartChips

  /** The deck and the globals card_pool and chip_pool. `pending` says that
      card_pool holds a drawn card nobody has taken yet: the source never
      clears card_pool, so after a take it still names the taken card. */
  datatype Board = Board(deck: seq<int>, cardPool: int, chipPool: int, pending: bool)

  /** One player's card_hand and chip_hand. */
  datatype Seat = Seat(hand: seq<int>, chips: int)

  /** Where one call of rand_play leaves the board and the player, and the
      decisions still unused. */
  datatype Move = Move(board: Board, seat: Seat, rest: seq<Bit>)

  datatype Table = Table(board: Board, seats: seq<Seat>)

  /** The final scores of the three players and the index of the winner:
      what Run_Game prints at the end. */
  datatype Outcome = Outcome(totals: seq<int>, winner: nat)

  /** draw_card: the top card of the deck goes into card_pool. */
  function Draw(b: Board): (r: Board)
    requires b.deck != []
    ensures r.deck + [r.cardPool] == b.deck && r.chipPool == b.chipPool && r.pending
  {
    Board(b.deck[..|b.deck| - 1], b.deck[|b.deck| - 1], b.chipPool, true)
  }

  /** take_card without its redraw: the card and chip_pool go to the player. */
  function Take(b: Board, s: Seat): (r: (Board, Seat))
    ensures r.1.hand == s.hand + [b.cardPool] && r.1.chips == s.chips + b.chipPool
    ensures r.0 == b.(chipPool := 0, pending := false)
    ensures r.1.chips + r.0.chipPool == s.chips + b.chipPool
  {
    (b.(chipPool := 0, pending := false), Seat(s.hand + [b.cardPool], s.chips + b.chipPool))
  }

  /** pass_card: one chip from the player into chip_pool. */
  function Pass(b: Board, s: Seat): (r: (Board, Seat))
    ensures r.1 == s.(chips := s.chips - 1) && r.0 == b.(chipPool := b.chipPool + 1)
    ensures r.1.chips + r.0.chipPool == s.chips + b.chipPool
  {
    (b.(chipPool := b.chipPool + 1), s.(chips := s.chips - 1))
  }

  /** rand_play and the chain take_card -> draw_card -> rand_play it starts:
      a take of a card while cards are left makes the same player draw and
      decide again; a pass, or a take of the last card, ends the chain. The
      test `chip_hand == 0` of the source has no effect, so a player without
      chips may pass. */
  function Play(b: Board, s: Seat, ds: seq<Bit>): (r: Option<Move>)
    ensures r.Some? ==> |r.value.rest| < |ds| && r.value.rest == ds[|ds| - |r.value.rest|..]
    decreases |ds|
  {
    if ds == [] then None
    else if ds[0] == 1 then
      var (b1, s1) := Pass(b, s);
      Some(Move(b1, s1, ds[1..]))
    else
      var (b1, s1) := Take(b, s);
      if b1.deck == [] then Some(Move(b1, s1, ds[1..]))
      else Play(Draw(b1), s1, ds[1..])
  }

  /** The player whose turn `turnNo` is: turns 1, 2, 3, 4, ... go to the
      first, second, third, first, ... player. */
  function SeatOf(turnNo: int): (p: nat)
    ensures p < Players && p == (turnNo - 1) % Players
  {
    if turnNo % 3 == 1 then 0
    else if turnNo % 3 == 2 then 1
    else 2
  }

  /** The `while` loop of Run_Game, entered with turn number `turnNo`. */
  function Rounds(b: Board, seats: seq<Seat>, turnNo: int, ds: seq<Bit>): (r: Option<Table>)
    requires |seats| == Players
    ensures r.Some? ==> r.value.board.deck == [] && |r.value.seats| == Players
    decreases |ds|
  {
    if b.deck == [] then Some(Table(b, seats))
    else
      var p := SeatOf(turnNo + 1);
      match Play(b, seats[p], ds)
      case None => None
      case Some(m) => Rounds(m.board, seats[p := m.seat], turnNo + 1, m.rest)
  }

  function StartSeats(): seq<Seat>
  {
    [Seat([], StartChips), Seat([], StartChips), Seat([], StartChips)]
  }

  /** Run_Game up to the end of the `while` loop: the deck is built from the
      sample, both pools start at 0, the first player draws and plays, and
      the loop runs from turn 1. */
  function EndOfPlay(sample: seq<int>, ds: seq<Bit>): (r: Option<Table>)
    requires sample != []
    ensures r.Some? ==> r.value.board.deck == [] && |r.value.seats| == Players
  {
    var b := Draw(Board(sample, 0, 0, false));
    var seats := StartSeats();
    match Play(b, seats[0], ds)
    case None => None
    case Some(m) => Rounds(m.board, seats[0 := m.seat], 1, m.rest)
  }

  /** Python's `min` of three numbers. */
  function Min(a: int, b: int, c: int): (m: int)
    ensures m <= a && m <= b && m <= c
    ensures m == a || m == b || m == c
  {
    if a <= b && a <= c then a else if b <= c then b else c
  }

  /** The `if`/`elif` chain that names the winner: the lowest total wins, and
      a tie goes to the player listed first. */
  function Winner(totals: seq<int>): (w: nat)
    requires |totals| == Players
    ensures w < Players
    ensures forall j :: 0 <= j < Players ==> totals[w] <= totals[j]
    ensures forall j :: 0 <= j < w ==> totals[j] > totals[w]
  {
    var m := Min(totals[0], totals[1], totals[2]);
    if m == totals[0] then 0
    else if m == totals[1] then 1
    else 2
  }

  /** point_tally of every player. */
  function Scores(seats: seq<Seat>): (totals: seq<int>)
    requires |seats| == Players
    ensures |totals| == Players
  {
    [Tally(seats[0].hand, seats[0].chips),
     Tally(seats[1].hand, seats[1].chips),
     Tally(seats[2].hand, seats[2].chips)]
  }

  /** A whole game. */
  function GameOutcome(sample: seq<int>, ds: seq<Bit>): (r: Option<Outcome>)
    requires sample != []
    ensures r.Some? ==> |r.value.totals| == Players && r.value.winner < Players
  {
    match EndOfPlay(sample, ds)
    case None => None
    case Some(t) =>
      var totals := Scores(t.seats);
      Some(Outcome(totals, Winner(totals)))
  }

  /** Taking every card ends a rand_play chain with the deck empty: each take
      draws the next card until none is left. */
  lemma {:induction false} TakesEndPlay(b: Board, s: Seat, ds: seq<Bit>)
    requires |ds| > |b.deck| && forall i :: 0 <= i < |ds| ==> ds[i] == 0
    ensures Play(b, s, ds).Some? && Play(b, s, ds).value.board.deck == []
    decreases |ds|
  {
    var (b1, s1) := Take(b, s);
    if b1.deck != [] {
      var rest := ds[1..];
      assert forall i :: 0 <= i < |rest| ==> rest[i] == ds[i + 1];
      TakesEndPlay(Draw(b1), s1, rest);
    }
  }

  /** A game in which every decision is a take, with as many decisions as
      cards, comes to an end: the first player takes the whole deck. */
  lemma AllTakesFinish(sample: seq<int>, ds: seq<Bit>)
    requires sample != [] && |ds| >= |sample| && forall i :: 0 <= i < |ds| ==> ds[i] == 0
    ensures GameOutcome(sample, ds).Some?
  {
    var b := Draw(Board(sample, 0, 0, false));
    TakesEndPlay(b, StartSeats()[0], ds);
  }

  // ---------------------------------------------------------------------
  // Invariants of a game

  function ChipTotal(t: Table): int
    requires |t.seats| == Players
  {
    t.seats[0].chips + t.seats[1].chips + t.seats[2].chips + t.board.chipPool
  }

  function PoolCards(b: Board): multiset<int>
  {
    if b.pending then multiset{b.cardPool} else multiset{}
  }

  function HandCards(seats: seq<Seat>): multiset<int>
    requires |seats| == Players
  {
    multiset(seats[0].hand) + multiset(seats[1].hand) + multiset(seats[2].hand)
  }

  /** Every card of the game: in the deck, waiting in card_pool, or in a hand. */
  function Placed(t: Table): multiset<int>
    requires |t.seats| == Players
  {
    multiset(t.board.deck) + PoolCards(t.board) + HandCards(t.seats)
  }

  /** Between two decisions of a turn there is always a card waiting while
      the deck is not empty. */
  predicate Ready(b: Board)
  {
    b.deck != [] ==> b.pending
  }

  /** One call of rand_play moves chips only between the player and
      chip_pool, moves cards only from the deck and card_pool into the
      player's hand, only ever takes cards off the top of the deck, and leaves
      a card waiting unless the deck is empty. */
  lemma {:induction false} PlayConserves(b: Board, s: Seat, ds: seq<Bit>)
    requires b.pending
    ensures Play(b, s, ds).Some? ==>
      var m := Play(b, s, ds).value;
      && m.board.chipPool + m.seat.chips == b.chipPool + s.chips
      && multiset(m.board.deck) + PoolCards(m.board) + multiset(m.seat.hand)
         == multiset(b.deck) + PoolCards(b) + multiset(s.hand)
      && m.board.deck <= b.deck
      && Ready(m.board)
    decreases |ds|
  {
    if ds != [] && ds[0] == 0 {
      var (b1, s1) := Take(b, s);
      if b1.deck != [] {
        var b2 := Draw(b1);
        assert Play(b, s, ds) == Play(b2, s1, ds[1..]);
        PlayConserves(b2, s1, ds[1..]);
        // Drawing moves the top card from the deck into card_pool.
        assert multiset(b.deck) == multiset(b2.deck) + PoolCards(b2) by {
          assert b.deck == b2.deck + [b2.cardPool];
        }
        assert multiset(s1.hand) == multiset(s.hand) + PoolCards(b);
      }
    }
  }

  /** The table-level form of PlayConserves for the seat whose turn it is. */
  lemma TurnConserves(b: Board, seats: seq<Seat>, p: nat, ds: seq<Bit>, m: Move)
    requires |seats| == Players && p < Players && b.pending
    requires Play(b, seats[p], ds) == Some(m)
    ensures var t := Table(m.board, seats[p := m.seat]);
      && ChipTotal(t) == ChipTotal(Table(b, seats))
      && Placed(t) == Placed(Table(b, seats))
      && m.board.deck <= b.deck
      && Ready(m.board)
  {
    PlayConserves(b, seats[p], ds);
    var t := Table(m.board, seats[p := m.seat]);
    SeatUpdate(seats, p, m.seat);
    var d1, p1, h1 := multiset(m.board.deck), PoolCards(m.board), HandCards(t.seats);
    var d0, p0, h0 := multiset(b.deck), PoolCards(b), HandCards(seats);
    var x, y := multiset(seats[p].hand), multiset(m.seat.hand);
    assert d1 + p1 + y == d0 + p0 + x;
    assert h1 + x == h0 + y;
    forall z ensures (d1 + p1 + h1)[z] == (d0 + p0 + h0)[z] {
      assert (d1 + p1 + y)[z] == (d0 + p0 + x)[z];
      assert (h1 + x)[z] == (h0 + y)[z];
    }
    assert d1 + p1 + h1 == d0 + p0 + h0;
  }

  /** What replacing one seat does to the cards in hand and the chips. */
  lemma SeatUpdate(seats: seq<Seat>, p: nat, x: Seat)
    requires |seats| == Players && p < Players
    ensures HandCards(seats[p := x]) + multiset(seats[p].hand) == HandCards(seats) + multiset(x.hand)
    ensures var u := seats[p := x];
      u[0].chips + u[1].chips + u[2].chips + seats[p].chips == seats[0].chips + seats[1].chips + seats[2].chips + x.chips
  {
    var u := seats[p := x];
    if p == 0 {
      assert u[1] == seats[1] && u[2] == seats[2];
    } else if p == 1 {
      assert u[0] == seats[0] && u[2] == seats[2];
    } else {
      assert u[0] == seats[0] && u[1] == seats[1];
    }
  }

  /** The `while` loop of Run_Game keeps the chips and the cards where they
      were and only shortens the deck. */
  lemma {:induction false} RoundsConserve(b: Board, seats: seq<Seat>, turnNo: int, ds: seq<Bit>)
    requires |seats| == Players && Ready(b)
    ensures Rounds(b, seats, turnNo, ds).Some? ==>
      var t := Rounds(b, seats, turnNo, ds).value;
      && ChipTotal(t) == ChipTotal(Table(b, seats))
      && Placed(t) == Placed(Table(b, seats))
    decreases |ds|
  {
    if b.deck != [] {
      var p := SeatOf(turnNo + 1);
      match Play(b, seats[p], ds)
      case None =>
      case Some(m) =>
        TurnConserves(b, seats, p, ds, m);
        assert Rounds(b, seats, turnNo, ds) == Rounds(m.board, seats[p := m.seat], turnNo + 1, m.rest);
        RoundsConserve(m.board, seats[p := m.seat], turnNo + 1, m.rest);
    }
  }

  /** At the end of play all 33 chips are still in the game and every card
      of the sample is in exactly one place: a hand, or (the last card, if it
      was passed) card_pool. */
  lemma EndOfPlayConserves(sample: seq<int>, ds: seq<Bit>)
    requires IsSample(sample)
    ensures EndOfPlay(sample, ds).Some? ==>
      var t := EndOfPlay(sample, ds).value;
      && ChipTotal(t) == ChipsInGame
      && Placed(t) == multiset(sample)
      && PoolCards(t.board) + HandCards(t.seats) == multiset(sample)
  {
    var b := Draw(Board(sample, 0, 0, false));
    var seats := StartSeats();
    var n := |sample|;
    assert sample == sample[..n - 1] + [sample[n - 1]];
    assert Placed(Table(b, seats)) == multiset(sample);
    match Play(b, seats[0], ds)
    case None =>
    case Some(m) =>
      TurnConserves(b, seats, 0, ds, m);
      RoundsConserve(m.board, seats[0 := m.seat], 1, m.rest);
  }

  lemma DisjointWhenAtMostOnce(a: multiset<int>, b: multiset<int>, c: multiset<int>)
    requires forall x :: (a + b + c)[x] <= 1
    ensures a !! b && a !! c && b !! c
  {
    forall x | x in a ensures x !in b && x !in c {
      assert (a + b + c)[x] == a[x] + b[x] + c[x];
    }
    forall x | x in b ensures x !in c {
      assert (a + b + c)[x] == a[x] + b[x] + c[x];
    }
  }

  lemma NoRepeatsWhenAtMostOnce(s: seq<int>)
    requires forall x :: multiset(s)[x] <= 1
    ensures Distinct(s)
  {
    forall i, j | 0 <= i < j < |s| ensures s[i] != s[j] {
      if s[i] == s[j] {
        RepeatCountsTwice(s, i, j);
      }
    }
  }

  lemma RepeatCountsTwice(s: seq<int>, i: nat, j: nat)
    requires i < j < |s| && s[i] == s[j]
    ensures multiset(s)[s[i]] >= 2
  {
    assert s == s[..j] + [s[j]] + s[j + 1..];
    assert s[i] in multiset(s[..j]) by {
      assert s[..j][i] == s[i];
    }
  }

  /** No card ends up twice in one hand or in two hands, and the hands and
      card_pool hold the 24 cards of the deck between them, so a game draws
      exactly 24 times. */
  lemma EndOfPlayDealsEachCardOnce(sample: seq<int>, ds: seq<Bit>)
    requires IsSample(sample)
    ensures EndOfPlay(sample, ds).Some? ==>
      var t := EndOfPlay(sample, ds).value;
      && (forall i :: 0 <= i < Players ==> Distinct(t.seats[i].hand))
      && multiset(t.seats[0].hand) !! multiset(t.seats[1].hand)
      && multiset(t.seats[0].hand) !! multiset(t.seats[2].hand)
      && multiset(t.seats[1].hand) !! multiset(t.seats[2].hand)
      && |t.seats[0].hand| + |t.seats[1].hand| + |t.seats[2].hand|
         + (if t.board.pending then 1 else 0) == DeckSize
  {
    EndOfPlayConserves(sample, ds);
    if EndOfPlay(sample, ds).Some? {
      var t := EndOfPlay(sample, ds).value;
      DealtOnce(PoolCards(t.board), t.seats, sample);
      assert |PoolCards(t.board)| == (if t.board.pending then 1 else 0);
    }
  }

  /** Cards shared out from a list without repeats are nowhere twice. */
  lemma DealtOnce(pool: multiset<int>, seats: seq<Seat>, sample: seq<int>)
    requires |seats| == Players && Distinct(sample)
    requires pool + HandCards(seats) == multiset(sample)
    ensures forall i :: 0 <= i < Players ==> Distinct(seats[i].hand)
    ensures multiset(seats[0].hand) !! multiset(seats[1].hand)
    ensures multiset(seats[0].hand) !! multiset(seats[2].hand)
    ensures multiset(seats[1].hand) !! multiset(seats[2].hand)
    ensures |seats[0].hand| + |seats[1].hand| + |seats[2].hand| + |pool| == |sample|
  {
    var h0, h1, h2 := multiset(seats[0].hand), multiset(seats[1].hand), multiset(seats[2].hand);
    forall x ensures (h0 + h1 + h2)[x] <= 1 {
      DistinctCountsAtMostOne(sample, x);
      assert (pool + (h0 + h1 + h2))[x] == pool[x] + (h0 + h1 + h2)[x];
    }
    DisjointWhenAtMostOnce(h0, h1, h2);
    forall i | 0 <= i < Players ensures Distinct(seats[i].hand) {
      forall x ensures multiset(seats[i].hand)[x] <= 1 {
        assert (h0 + h1 + h2)[x] == h0[x] + h1[x] + h2[x];
      }
      NoRepeatsWhenAtMostOnce(seats[i].hand);
    }
    assert |multiset(sample)| == |sample|;
  }

  /** The test `chip_hand == 0` in rand_play changes nothing: a player with
      no chips who decides to pass goes to -1 chips. */
  lemma PassWithoutChips(b: Board, s: Seat, ds: seq<Bit>)
    requires s.chips == 0 && ds != [] && ds[0] == 1
    ensures Play(b, s, ds) == Some(Move(b.(chipPool := b.chipPool + 1), s.(chips := -1), ds[1..]))
  {
  }

  /** A player who takes a card while one card is left draws it; if they pass
      it the game ends with that card still in card_pool, in nobody's hand and
      never scored. */
  lemma LastCardCanStayInPool(b: Board, seats: seq<Seat>, turnNo: int, ds: seq<Bit>)
    requires |seats| == Players && b.pending && |b.deck| == 1
    requires |ds| >= 2 && ds[0] == 0 && ds[1] == 1
    ensures Rounds(b, seats, turnNo, ds).Some?
    ensures var t := Rounds(b, seats, turnNo, ds).value;
      t.board.pending && t.board.cardPool == b.deck[0]
      && t.seats == seats[SeatOf(turnNo + 1) := Seat(seats[SeatOf(turnNo + 1)].hand + [b.cardPool],
                                                     seats[SeatOf(turnNo + 1)].chips + b.chipPool - 1)]
  {
    var p := SeatOf(turnNo + 1);
    var (b1, s1) := Take(b, seats[p]);
    var b2 := Draw(b1);
    assert b2.deck == [] && b2.cardPool == b.deck[0];
    var (b3, s3) := Pass(b2, s1);
    var rest := ds[1..];
    assert Play(b, seats[p], ds) == Play(b2, s1, rest);
    assert rest[0] == 1 && rest[1..] == ds[2..];
    assert Play(b2, s1, rest) == Some(Move(b3, s3, ds[2..]));
    assert Rounds(b, seats, turnNo, ds) == Rounds(b3, seats[p := s3], turnNo + 1, ds[2..]);
  }
}
