/** The objects of No_Thanks.py and the function Run_Game, as imperative code
    whose every step is proved to agree with module Rules. The globals
    card_pool and chip_pool are the fields of one Pool object that is passed
    to whoever changes them. */
module Game {
  import opened Decks
  import opened Scoring
  import opened Rules

  /** The globals card_pool and chip_pool. */
  class Pool {
    var cardPool: int
    var chipPool: int
    /** card_pool holds a drawn card that nobody has taken yet. */
    ghost var pending: bool

    constructor ()
      ensures cardPool == 0 && chipPool == 0 && !pending
    {
      cardPool := 0;
      chipPool := 0;
      pending := false;
    }
  }

  ghost function BoardOf(deck: Deck, pool: Pool): Board
    reads deck, pool
  {
    Board(deck.cards, pool.cardPool, pool.chipPool, pool.pending)
  }

  class Player {
    const name: string
    var cardHand: seq<int>
    var chipHand: int

    constructor (name: string)
      ensures this.name == name && cardHand == [] && chipHand == StartChips
    {
      this.name := name;
      cardHand := [];
      chipHand := StartChips;
    }

    ghost function AsSeat(): Seat
      reads this
    {
      Seat(cardHand, chipHand)
    }

    /** draw_card up to the rand_play it ends with: the top card of the deck
        becomes card_pool. */
    method DrawCard(deck: Deck, pool: Pool)
      requires deck.cards != []
      modifies deck, pool
      ensures pool.cardPool == old(deck.cards)[|old(deck.cards)| - 1]
      ensures deck.cards == old(deck.cards)[..|old(deck.cards)| - 1]
      ensures pool.chipPool == old(pool.chipPool) && pool.pending
      ensures BoardOf(deck, pool) == Draw(old(BoardOf(deck, pool)))
    {
      var card := deck.Draw();
      pool.cardPool := card;
      pool.pending := true;
    }

    /** take_card up to its redraw: the player takes card_pool and every chip
        of chip_pool; `drawAgain` is the test `deck.check_end() != True`. */
    method TakeCard(deck: Deck, pool: Pool) returns (drawAgain: bool)
      modifies this, pool
      ensures cardHand == old(cardHand) + [old(pool.cardPool)]
      ensures chipHand == old(chipHand) + old(pool.chipPool)
      ensures pool.chipPool == 0 && pool.cardPool == old(pool.cardPool) && !pool.pending
      ensures drawAgain <==> deck.cards != []
      ensures (BoardOf(deck, pool), AsSeat()) == Take(old(BoardOf(deck, pool)), old(AsSeat()))
    {
      cardHand := cardHand + [pool.cardPool];
      chipHand := chipHand + pool.chipPool;
      pool.chipPool := 0;
      pool.pending := false;
      var over := deck.CheckEnd();
      drawAgain := !over;
    }

    /** pass_card: one chip from the player to chip_pool, nothing else. */
    method PassCard(pool: Pool)
      modifies this, pool
      ensures chipHand == old(chipHand) - 1 && cardHand == old(cardHand)
      ensures pool.chipPool == old(pool.chipPool) + 1
      ensures pool.cardPool == old(pool.cardPool) && pool.pending == old(pool.pending)
    {
      chipHand := chipHand - 1;
      pool.chipPool := pool.chipPool + 1;
    }

    /** rand_play, with the take_card -> draw_card -> rand_play recursion
        written as a loop: each pass of the loop uses one decision from `ds`
        in place of `random.randint(0, 1)`. The source's test of `chip_hand
        == 0` only compares, so it is left out. None: `ds` ran out. */
    method RandPlay(deck: Deck, pool: Pool, ds: seq<Bit>) returns (rest: Option<seq<Bit>>)
      modifies this, deck, pool
      ensures match Play(old(BoardOf(deck, pool)), old(AsSeat()), ds)
        case None => rest == None
        case Some(m) => rest == Some(m.rest) && BoardOf(deck, pool) == m.board && AsSeat() == m.seat
    {
      ghost var goal := Play(BoardOf(deck, pool), AsSeat(), ds);
      var left := ds;
      while true
        invariant Play(BoardOf(deck, pool), AsSeat(), left) == goal
        decreases |left|
      {
        if left == [] {
          return None;
        }
        var decision := left[0];
        left := left[1..];
        if decision == 0 {
          var drawAgain := TakeCard(deck, pool);
          if !drawAgain {
            return Some(left);
          }
          DrawCard(deck, pool);
        }
        if decision == 1 {
          PassCard(pool);
          return Some(left);
        }
      }
    }

    /** point_tally: sorts card_hand, reverses it, runs the removal loop over
        it in place and returns the points of the cards left minus the chips.
        The loop of the source walks the list by position while removing from
        it, so `i` advances after a removal too. */
    method PointTally() returns (total: int)
      modifies this
      ensures cardHand == Scored(old(cardHand)) && chipHand == old(chipHand)
      ensures total == Tally(old(cardHand), old(chipHand))
    {
      cardHand := SortAsc(cardHand);
      cardHand := Reverse(cardHand);
      var i: nat := 0;
      while i < |cardHand|
        invariant chipHand == old(chipHand)
        invariant Sweep(cardHand, i) == Scored(old(cardHand))
        decreases |cardHand| - i
      {
        if cardHand[i] - 1 in cardHand {
          cardHand := RemoveFirst(cardHand, cardHand[i]);
        }
        i := i + 1;
      }
      assert Sweep(cardHand, i) == cardHand;
      var cardPoints := Sum(cardHand);
      var chipPoints := chipHand;
      total := cardPoints - chipPoints;
    }
  }

  /** One pass of the `while` loop of Run_Game after `turn_no` has been
      increased: the player that `turnNo % 3` names plays. */
  method TakeTurn(p1: Player, p2: Player, p3: Player, deck: Deck, pool: Pool, turnNo: int, left: seq<Bit>)
    returns (played: Option<seq<Bit>>)
    requires p1 != p2 && p1 != p3 && p2 != p3
    modifies p1, p2, p3, deck, pool
    ensures var seats := old([p1.AsSeat(), p2.AsSeat(), p3.AsSeat()]);
      var p := SeatOf(turnNo);
      match Play(old(BoardOf(deck, pool)), seats[p], left)
      case None => played == None
      case Some(m) =>
        && played == Some(m.rest)
        && BoardOf(deck, pool) == m.board
        && [p1.AsSeat(), p2.AsSeat(), p3.AsSeat()] == seats[p := m.seat]
  {
    if turnNo % 3 == 1 {
      played := p1.RandPlay(deck, pool, left);
    }
    if turnNo % 3 == 2 {
      played := p2.RandPlay(deck, pool, left);
    }
    if turnNo % 3 == 0 {
      played := p3.RandPlay(deck, pool, left);
    }
  }

  /** Run_Game: three players, a deck built from `sample`, the first draw by
      the first player, the `while` loop over turns, and the final tally. */
  method RunGame(player1: string, player2: string, player3: string, sample: seq<int>, ds: seq<Bit>)
    returns (r: Option<Outcome>)
    requires IsSample(sample)
    ensures r == GameOutcome(sample, ds)
  {
    var p1 := new Player(player1);
    var p2 := new Player(player2);
    var p3 := new Player(player3);
    var deck := new Deck();
    deck.Build(sample);
    var turnNo := 1;
    var pool := new Pool();
    p1.DrawCard(deck, pool);
    assert BoardOf(deck, pool) == Draw(Board(sample, 0, 0, false));
    OpeningThenRounds(sample, ds);
    var played := p1.RandPlay(deck, pool, ds);
    if played.None? {
      return None;
    }
    var left := played.value;
    var over := deck.CheckEnd();
    while !over
      invariant over <==> deck.cards == []
      invariant Rounds(BoardOf(deck, pool), [p1.AsSeat(), p2.AsSeat(), p3.AsSeat()], turnNo, left)
        == EndOfPlay(sample, ds)
      decreases |left|
    {
      turnNo := turnNo + 1;
      played := TakeTurn(p1, p2, p3, deck, pool, turnNo, left);
      if played.None? {
        return None;
      }
      left := played.value;
      over := deck.CheckEnd();
    }
    var outcome := FinalTally(p1, p2, p3);
    r := Some(outcome);
  }

  /** The `else` branch of Run_Game's loop: every player's point_tally, then
      the `if`/`elif` chain on `min` that names the winner. */
  method FinalTally(p1: Player, p2: Player, p3: Player) returns (outcome: Outcome)
    requires p1 != p2 && p1 != p3 && p2 != p3
    modifies p1, p2, p3
    ensures var totals := Scores(old([p1.AsSeat(), p2.AsSeat(), p3.AsSeat()]));
      outcome == Outcome(totals, Winner(totals))
    ensures p1.cardHand == Scored(old(p1.cardHand)) && p1.chipHand == old(p1.chipHand)
    ensures p2.cardHand == Scored(old(p2.cardHand)) && p2.chipHand == old(p2.chipHand)
    ensures p3.cardHand == Scored(old(p3.cardHand)) && p3.chipHand == old(p3.chipHand)
  {
    var total1 := p1.PointTally();
    var total2 := p2.PointTally();
    var total3 := p3.PointTally();
    var low := Min(total1, total2, total3);
    var winner: nat;
    if low == total1 {
      winner := 0;
    } else if low == total2 {
      winner := 1;
    } else {
      winner := 2;
    }
    outcome := Outcome([total1, total2, total3], winner);
  }

  /** The turn of the first player that Run_Game starts before its loop. */
  lemma OpeningThenRounds(sample: seq<int>, ds: seq<Bit>)
    requires sample != []
    ensures match Play(Draw(Board(sample, 0, 0, false)), Seat([], StartChips), ds)
      case None => EndOfPlay(sample, ds) == None
      case Some(m) =>
        EndOfPlay(sample, ds) == Rounds(m.board, [m.seat, Seat([], StartChips), Seat([], StartChips)], 1, m.rest)
  {
    match Play(Draw(Board(sample, 0, 0, false)), Seat([], StartChips), ds)
    case None =>
    case Some(m) =>
      assert StartSeats()[0 := m.seat] == [m.seat, Seat([], StartChips), Seat([], StartChips)];
  }
}
