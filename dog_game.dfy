/**
 * The Dog rules engine as far as it is written: the game state records, the initial
 * deal, the state accessors, the split of a player's marbles by their kennel flag,
 * and the action generator for a player whose marbles are all in the kennel.
 */
module DogGame {
  import opened Wrappers
  import opened DogCards
  import opened DogBoard

  /** A marble: its board cell, the "safe" flag and the kennel flag. */
  datatype Marble = Marble(pos: nat, isSave: bool, inKennel: bool)

  datatype PlayerState = PlayerState(name: string, colour: Colour, listCard: seq<Card>, listMarble: seq<Marble>)

  /** A move: the card played, optionally a source and target cell and a card to swap. */
  datatype Action = Action(card: Card, posFrom: Option<nat>, posTo: Option<nat>, cardSwap: Option<Card>)

  datatype GamePhase = Setup | Running | Finished

  datatype GameState = GameState(
    cntPlayer: int,
    phase: GamePhase,
    cntRound: int,
    boolCardExchanged: bool,
    idxPlayerStarted: int,
    idxPlayerActive: int,
    listPlayer: seq<PlayerState>,
    listCardDraw: seq<Card>,
    listCardDiscard: seq<Card>,
    cardActive: Option<Card>)

  /** The `ValueError` raised by `get_state` when no state is set. */
  datatype DogError = StateNotSet

  // ---------------------------------------------------------------------------
  // Initial deal

  /** The shuffle may leave the deck in any order, but keeps its cards. */
  predicate IsShuffledDeck(deck: seq<Card>) {
    |deck| == |ListCard()| && multiset(deck) == multiset(ListCard())
  }

  /** Number of cards dealt to each player in the first round. */
  const HandSize: nat := 6

  /** A player's marbles rest on that colour's kennel cells, in order, flagged in the kennel and not safe. */
  predicate MarblesAtHome(p: PlayerState) {
    |p.listMarble| == 4 &&
    forall j :: 0 <= j < 4 ==> p.listMarble[j] == Marble(Kennel(p.colour)[j], false, true)
  }

  /** The cards held by the players, hand after hand in seat order. */
  function AllHands(players: seq<PlayerState>): seq<Card> {
    if players == [] then []
    else AllHands(players[..|players| - 1]) + players[|players| - 1].listCard
  }

  /** A newly seated player holds the dealt hand and has every marble at home. */
  function NewPlayer(name: string, colour: Colour, hand: seq<Card>): (p: PlayerState)
    ensures p.name == name && p.colour == colour && p.listCard == hand && MarblesAtHome(p)
  {
    var cells := Kennel(colour);
    PlayerState(name, colour, hand,
      [Marble(cells[0], false, true), Marble(cells[1], false, true),
       Marble(cells[2], false, true), Marble(cells[3], false, true)])
  }

  /** Four hands dealt as consecutive slices of the deck hold, together, its first 24 cards. */
  lemma DealtHands(players: seq<PlayerState>, deck: seq<Card>)
    requires |players| == 4 && |deck| >= 4 * HandSize
    requires forall i :: 0 <= i < 4 ==> players[i].listCard == deck[HandSize * i..HandSize * i + HandSize]
    ensures AllHands(players) == deck[..4 * HandSize]
  {
    assert AllHands(players[..1]) == deck[..6] by {
      assert players[..1][..0] == [];
    }
    assert AllHands(players[..2]) == deck[..12] by {
      assert players[..2][..1] == players[..1];
      assert deck[..6] + deck[6..12] == deck[..12];
    }
    assert AllHands(players[..3]) == deck[..18] by {
      assert players[..3][..2] == players[..2];
      assert deck[..12] + deck[12..18] == deck[..18];
    }
    assert AllHands(players) == deck[..24] by {
      assert players[..3] == players[..|players| - 1];
      assert deck[..18] + deck[18..24] == deck[..24];
    }
  }

  /**
   * The state a new game starts in: four players blue, green, red, yellow, each dealt
   * the next six cards of the shuffled deck, the rest forming the draw pile.
   */
  function InitialState(deck: seq<Card>): (s: GameState)
    requires IsShuffledDeck(deck)
    ensures s.cntPlayer == 4 == |s.listPlayer|
    ensures s.listPlayer[0].name == "Tick" && s.listPlayer[1].name == "Trick"
    ensures s.listPlayer[2].name == "Track" && s.listPlayer[3].name == "Donald"
    ensures forall i :: 0 <= i < 4 ==>
      && s.listPlayer[i].colour == Colours[i]
      && s.listPlayer[i].listCard == deck[HandSize * i..HandSize * i + HandSize]
      && MarblesAtHome(s.listPlayer[i])
    ensures AllHands(s.listPlayer) + s.listCardDraw == deck
    ensures multiset(AllHands(s.listPlayer) + s.listCardDraw) == multiset(ListCard())
    ensures |s.listCardDraw| == |ListCard()| - 4 * HandSize == 86
    ensures s.phase == Running && s.cntRound == 1 && !s.boolCardExchanged
    ensures s.idxPlayerStarted == 0 && s.idxPlayerActive == 0
    ensures s.listCardDiscard == [] && s.cardActive == None
  {
    var players := [
      NewPlayer("Tick", Blue, deck[..6]),
      NewPlayer("Trick", Green, deck[6..12]),
      NewPlayer("Track", Red, deck[12..18]),
      NewPlayer("Donald", Yellow, deck[18..24])];
    DealtHands(players, deck);
    assert deck[..24] + deck[24..] == deck;
    GameState(4, Running, 1, false, 0, 0, players, deck[24..], [], None)
  }

  // ---------------------------------------------------------------------------
  // Marbles in the kennel and in play

  /** The marbles whose kennel flag equals `inKennel`, in their original order. */
  function MarblesWhere(ms: seq<Marble>, inKennel: bool): (r: seq<Marble>)
    ensures |r| <= |ms|
    ensures forall i :: 0 <= i < |r| ==> r[i].inKennel == inKennel
  {
    if ms == [] then []
    else
      var last := ms[|ms| - 1];
      MarblesWhere(ms[..|ms| - 1], inKennel) + (if last.inKennel == inKennel then [last] else [])
  }

  /** A marble is selected exactly when it is one of the player's marbles and has the requested flag. */
  lemma {:induction false} MarblesWhereMembers(ms: seq<Marble>, inKennel: bool)
    ensures forall m :: m in MarblesWhere(ms, inKennel) <==> m in ms && m.inKennel == inKennel
  {
    if ms != [] {
      var init, last := ms[..|ms| - 1], ms[|ms| - 1];
      MarblesWhereMembers(init, inKennel);
      assert ms == init + [last];
      assert forall m :: m in ms <==> m in init || m == last;
    }
  }

  /** Selecting marbles commutes with concatenation, so the relative order is kept. */
  lemma {:induction false} MarblesWhereAppend(a: seq<Marble>, b: seq<Marble>, inKennel: bool)
    ensures MarblesWhere(a + b, inKennel) == MarblesWhere(a, inKennel) + MarblesWhere(b, inKennel)
    decreases |b|
  {
    if b != [] {
      var init := b[..|b| - 1];
      assert (a + b)[..|a + b| - 1] == a + init;
      MarblesWhereAppend(a, init, inKennel);
    } else {
      assert a + b == a;
    }
  }

  /** The two selections split the marbles: together they hold each marble exactly once. */
  lemma {:induction false} PartitionConserves(ms: seq<Marble>)
    ensures |MarblesWhere(ms, false)| + |MarblesWhere(ms, true)| == |ms|
    ensures multiset(MarblesWhere(ms, false)) + multiset(MarblesWhere(ms, true)) == multiset(ms)
  {
    if ms != [] {
      var init, last := ms[..|ms| - 1], ms[|ms| - 1];
      PartitionConserves(init);
      assert ms == init + [last];
      var inPlay, inKennel := MarblesWhere(init, false), MarblesWhere(init, true);
      if last.inKennel {
        assert MarblesWhere(ms, false) == inPlay;
        assert MarblesWhere(ms, true) == inKennel + [last];
      } else {
        assert MarblesWhere(ms, false) == inPlay + [last];
        assert MarblesWhere(ms, true) == inKennel;
      }
    }
  }

  // ---------------------------------------------------------------------------
  // Actions when every marble is in the kennel

  /** Ranks that bring a marble out of the kennel: "JKR", "A", "K". */
  predicate IsStartRank(r: Rank) {
    r == Joker || r == Ace || r == King
  }

  predicate HasStartCard(hand: seq<Card>) {
    exists c :: c in hand && IsStartRank(c.rank)
  }

  /** The cards of a hand that can bring a marble out, in hand order and with repeats. */
  function StartCards(hand: seq<Card>): (r: seq<Card>)
    ensures forall c :: c in r <==> c in hand && IsStartRank(c.rank)
  {
    if hand == [] then []
    else
      var last := hand[|hand| - 1];
      assert hand == hand[..|hand| - 1] + [last];
      StartCards(hand[..|hand| - 1]) + (if IsStartRank(last.rank) then [last] else [])
  }

  /** Without a joker, ace or king in hand the selection is empty. */
  lemma {:induction false} NoStartCards(hand: seq<Card>)
    requires !HasStartCard(hand)
    ensures StartCards(hand) == []
  {
    if hand != [] {
      var init, last := hand[..|hand| - 1], hand[|hand| - 1];
      assert last in hand && forall c :: c in init ==> c in hand;
      NoStartCards(init);
    }
  }

  /** A start card is selected as often as the hand holds it; any other card not at all. */
  lemma {:induction false} StartCardsCount(hand: seq<Card>, c: Card)
    ensures multiset(StartCards(hand))[c] == if IsStartRank(c.rank) then multiset(hand)[c] else 0
  {
    if hand != [] {
      var init, last := hand[..|hand| - 1], hand[|hand| - 1];
      assert hand == init + [last];
      StartCardsCount(init, c);
      assert StartCards(hand) == StartCards(init) + (if IsStartRank(last.rank) then [last] else []);
    }
  }

  /** Selecting start cards commutes with concatenation, so they keep their hand order. */
  lemma {:induction false} StartCardsAppend(a: seq<Card>, b: seq<Card>)
    ensures StartCards(a + b) == StartCards(a) + StartCards(b)
    decreases |b|
  {
    if b != [] {
      var init, last := b[..|b| - 1], b[|b| - 1];
      var tail := if IsStartRank(last.rank) then [last] else [];
      assert (a + b)[..|a + b| - 1] == a + init && (a + b)[|a + b| - 1] == last;
      assert StartCards(a + b) == StartCards(a + init) + tail;
      assert StartCards(b) == StartCards(init) + tail;
      StartCardsAppend(a, init);
    } else {
      assert a + b == a;
    }
  }

  /** The cell numbers of a list of marbles. */
  function Positions(ms: seq<Marble>): (ps: seq<nat>)
    ensures |ps| == |ms| && forall i :: 0 <= i < |ms| ==> ps[i] == ms[i].pos
  {
    seq(|ms|, i requires 0 <= i < |ms| => ms[i].pos)
  }

  /** A two-digit cell number as the decimal text the source stores in `Marble.pos`. */
  function PosText(n: nat): string
    requires 10 <= n <= 99
  {
    [('0' as int + n / 10) as char, ('0' as int + n % 10) as char]
  }

  /** Python's `<` on strings: lexicographic by character code, a proper prefix first. */
  predicate StrLess(a: string, b: string) {
    b != [] && (a == [] || a[0] < b[0] || (a[0] == b[0] && StrLess(a[1..], b[1..])))
  }

  /**
   * On two-digit cell numbers the text order equals the numeric order, so the minimum
   * over the stored texts names the numerically least cell.
   */
  lemma TwoDigitOrder(a: nat, b: nat)
    requires 10 <= a <= 99 && 10 <= b <= 99
    ensures StrLess(PosText(a), PosText(b)) <==> a < b
  {
    var ta, tb := PosText(a), PosText(b);
    assert a == 10 * (a / 10) + a % 10 && b == 10 * (b / 10) + b % 10;
    assert ta[1..][1..] == [] && tb[1..][1..] == [];
    assert !StrLess(ta[1..][1..], tb[1..][1..]);
    assert StrLess(ta[1..], tb[1..]) <==> a % 10 < b % 10;
    assert a < b <==> a / 10 < b / 10 || (a / 10 == b / 10 && a % 10 < b % 10);
  }

  /** The least element of a non-empty list (Python's `min`). */
  function MinOf(xs: seq<nat>): (m: nat)
    requires xs != []
    ensures m in xs && forall x :: x in xs ==> m <= x
  {
    if |xs| == 1 then xs[0]
    else
      var init := xs[..|xs| - 1];
      var rest := MinOf(init);
      assert xs == init + [xs[|xs| - 1]];
      if xs[|xs| - 1] < rest then xs[|xs| - 1] else rest
  }

  /** The decimal texts of a list of two-digit cell numbers. */
  function PosTexts(ps: seq<nat>): (ts: seq<string>)
    requires forall i :: 0 <= i < |ps| ==> 10 <= ps[i] <= 99
    ensures |ts| == |ps| && forall i :: 0 <= i < |ps| ==> ts[i] == PosText(ps[i])
  {
    seq(|ps|, i requires 0 <= i < |ps| => PosText(ps[i]))
  }

  /** Python's `min` on a non-empty list of strings: a later text replaces the current one only if it is strictly less. */
  function StrMinOf(ts: seq<string>): (m: string)
    requires ts != []
    ensures m in ts
  {
    if |ts| == 1 then ts[0]
    else
      var rest := StrMinOf(ts[..|ts| - 1]);
      if StrLess(ts[|ts| - 1], rest) then ts[|ts| - 1] else rest
  }

  /**
   * On two-digit cells, `min` over the stored texts is the text of the numeric minimum,
   * so `MinOf` names the cell the source picks.
   */
  lemma {:induction false} TextMinIsNumericMin(ps: seq<nat>)
    requires ps != []
    requires forall i :: 0 <= i < |ps| ==> 10 <= ps[i] <= 99
    ensures StrMinOf(PosTexts(ps)) == PosText(MinOf(ps))
  {
    if |ps| > 1 {
      var init, last := ps[..|ps| - 1], ps[|ps| - 1];
      TextMinIsNumericMin(init);
      assert PosTexts(ps)[..|ps| - 1] == PosTexts(init);
      var m := MinOf(init);
      assert m in init;
      TwoDigitOrder(last, m);
    }
  }

  /**
   * One action per start card in hand, each taking the marble on the lowest kennel
   * cell to the colour's start cell; no action at all when no start card is held.
   */
  function IfAllMarblesInKennel(player: PlayerState, marblesInKennel: seq<Marble>): (r: seq<Action>)
    requires marblesInKennel != [] || !HasStartCard(player.listCard)
    ensures r == [] <==> !HasStartCard(player.listCard)
    ensures |r| == |StartCards(player.listCard)|
    ensures forall k :: 0 <= k < |r| ==>
      && r[k].card == StartCards(player.listCard)[k]
      && r[k].cardSwap == None
      && r[k].posTo == Some(Start(player.colour))
      && r[k].posFrom.Some?
      && (exists i :: 0 <= i < |marblesInKennel| && marblesInKennel[i].pos == r[k].posFrom.value)
      && (forall i :: 0 <= i < |marblesInKennel| ==> r[k].posFrom.value <= marblesInKennel[i].pos)
  {
    if !HasStartCard(player.listCard) then
      NoStartCards(player.listCard);
      []
    else
      var cards := StartCards(player.listCard);
      var positions := Positions(marblesInKennel);
      var from := MinOf(positions);
      assert forall i :: 0 <= i < |marblesInKennel| ==> from <= marblesInKennel[i].pos by {
        forall i | 0 <= i < |marblesInKennel| ensures from <= marblesInKennel[i].pos {
          assert positions[i] in positions;
        }
      }
      seq(|cards|, k requires 0 <= k < |cards| => Action(cards[k], Some(from), Some(Start(player.colour)), None))
  }

  /** `list_player[idx_player_active]` is defined for Python indices -n .. n-1. */
  predicate ValidActiveIndex(s: GameState) {
    -|s.listPlayer| <= s.idxPlayerActive < |s.listPlayer|
  }

  /** The active player, with Python's reading of a negative index from the end. */
  function ActivePlayer(s: GameState): PlayerState
    requires ValidActiveIndex(s)
  {
    if s.idxPlayerActive >= 0 then s.listPlayer[s.idxPlayerActive]
    else s.listPlayer[|s.listPlayer| + s.idxPlayerActive]
  }

  /**
   * The actions of the active player: the kennel generator's list when exactly four of
   * that player's marbles are flagged in the kennel, and nothing (`None`) otherwise.
   */
  function ListAction(s: GameState): (r: Option<seq<Action>>)
    requires ValidActiveIndex(s)
    ensures r.Some? <==> |MarblesWhere(ActivePlayer(s).listMarble, true)| == 4
    ensures r.Some? ==> (r.value == [] <==> !HasStartCard(ActivePlayer(s).listCard))
    ensures r.Some? ==> forall a :: a in r.value ==>
      && a.card in ActivePlayer(s).listCard
      && IsStartRank(a.card.rank)
      && a.posTo == Some(Start(ActivePlayer(s).colour))
      && (exists m :: m in ActivePlayer(s).listMarble && m.inKennel && Some(m.pos) == a.posFrom)
    ensures r.Some? ==> |r.value| == |StartCards(ActivePlayer(s).listCard)|
    ensures r.Some? ==> forall k :: 0 <= k < |r.value| ==>
      && r.value[k].card == StartCards(ActivePlayer(s).listCard)[k]
      && r.value[k].cardSwap == None
      && r.value[k].posFrom.Some?
      && (forall m :: m in ActivePlayer(s).listMarble && m.inKennel ==> r.value[k].posFrom.value <= m.pos)
  {
    var player := ActivePlayer(s);
    var inKennel := MarblesWhere(player.listMarble, true);
    if |inKennel| == 4 then
      var r := IfAllMarblesInKennel(player, inKennel);
      MarblesWhereMembers(player.listMarble, true);
      forall k, m | 0 <= k < |r| && m in player.listMarble && m.inKennel
        ensures r[k].posFrom.value <= m.pos
      {
        var i :| 0 <= i < |inKennel| && inKennel[i] == m;
      }
      forall a | a in r
        ensures a.card in player.listCard && IsStartRank(a.card.rank)
        ensures exists m :: m in player.listMarble && m.inKennel && Some(m.pos) == a.posFrom
      {
        var k :| 0 <= k < |r| && r[k] == a;
        assert a.card in StartCards(player.listCard);
        var i :| 0 <= i < |inKennel| && inKennel[i].pos == a.posFrom.value;
        assert inKennel[i] in inKennel;
      }
      Some(r)
    else None
  }

  /** When every marble carries the same kennel flag, the selection keeps all or none of them. */
  lemma {:induction false} UniformFlag(ms: seq<Marble>, inKennel: bool)
    requires forall m :: m in ms ==> m.inKennel == inKennel
    ensures MarblesWhere(ms, inKennel) == ms
    ensures MarblesWhere(ms, !inKennel) == []
  {
    if ms != [] {
      var init, last := ms[..|ms| - 1], ms[|ms| - 1];
      assert forall k :: 0 <= k < |init| ==> init[k] == ms[k];
      UniformFlag(init, inKennel);
      assert last in ms;
      assert MarblesWhere(ms, inKennel) == init + [last];
      assert ms == init + [last];
    }
  }

  /** Marbles placed at home are all flagged in the kennel, so none is left out of the selection. */
  lemma HomeMarblesInKennel(p: PlayerState)
    requires MarblesAtHome(p)
    ensures MarblesWhere(p.listMarble, true) == p.listMarble
    ensures MarblesWhere(p.listMarble, false) == []
  {
    var ms := p.listMarble;
    assert forall m :: m in ms ==> m.inKennel by {
      forall m | m in ms ensures m.inKennel {
        var j :| 0 <= j < 4 && ms[j] == m;
      }
    }
    UniformFlag(ms, true);
  }

  /**
   * A player whose marbles are at home gets, from the kennel generator, only moves from
   * the colour's first kennel cell to its start cell.
   */
  lemma HomeActions(p: PlayerState)
    requires MarblesAtHome(p)
    ensures forall a :: a in IfAllMarblesInKennel(p, p.listMarble) ==>
      a.posFrom == Some(Kennel(p.colour)[0]) && a.posTo == Some(Start(p.colour)) && a.cardSwap == None
  {
    var ms := p.listMarble;
    var first := Kennel(p.colour)[0];
    BoardLayout(p.colour);
    var r := IfAllMarblesInKennel(p, ms);
    forall k | 0 <= k < |r| ensures r[k].posFrom == Some(first) {
      var v := r[k].posFrom.value;
      assert v <= ms[0].pos == first;
      var i :| 0 <= i < |ms| && ms[i].pos == v;
      assert ms[i].pos == Kennel(p.colour)[i];
    }
  }

  /**
   * In a new game the first player has all marbles in the kennel: every generated
   * action moves from blue's first kennel cell 64 to blue's start cell 0, and there are
   * actions exactly when the first six cards of the deck hold a joker, ace or king.
   */
  lemma InitialListAction(deck: seq<Card>)
    requires IsShuffledDeck(deck)
    ensures ListAction(InitialState(deck)).Some?
    ensures ListAction(InitialState(deck)).value == [] <==> !HasStartCard(deck[..6])
    ensures forall a :: a in ListAction(InitialState(deck)).value ==>
      a.posFrom == Some(64) && a.posTo == Some(0) && a.cardSwap == None
  {
    var s := InitialState(deck);
    var p := s.listPlayer[0];
    assert ActivePlayer(s) == p && p.colour == Blue && p.listCard == deck[..6];
    HomeMarblesInKennel(p);
    HomeActions(p);
    assert ListAction(s) == Some(IfAllMarblesInKennel(p, p.listMarble));
  }

  /**
   * The Dog game engine. The state is optional so that the accessor's error case exists;
   * the constructor always sets it.
   */
  class Dog {
    var state: Option<GameState>

    /** Starts a game from a shuffle of the deck. */
    constructor (deck: seq<Card>)
      requires IsShuffledDeck(deck)
      ensures state == Some(InitialState(deck))
    {
      state := Some(InitialState(deck));
    }

    /** Replaces the whole state. */
    method SetState(s: GameState)
      modifies this
      ensures state == Some(s)
    {
      state := Some(s);
    }

    /** The stored state, or `StateNotSet` when there is none. */
    method GetState() returns (r: Result<GameState, DogError>)
      ensures r.Ok? <==> state.Some?
      ensures state.Some? ==> r.value == state.value
    {
      if state.Some? {
        r := Ok(state.value);
      } else {
        r := Err(StateNotSet);
      }
    }

    /** Splits a player's marbles into those in play and those in the kennel. */
    method MarblesInKennelAndInPlay(player: PlayerState) returns (inPlay: seq<Marble>, inKennel: seq<Marble>)
      ensures inPlay == MarblesWhere(player.listMarble, false)
      ensures inKennel == MarblesWhere(player.listMarble, true)
    {
      var marbles := player.listMarble;
      inPlay, inKennel := [], [];
      var i := 0;
      while i < |marbles|
        invariant 0 <= i <= |marbles|
        invariant inPlay == MarblesWhere(marbles[..i], false)
        invariant inKennel == MarblesWhere(marbles[..i], true)
      {
        var marble := marbles[i];
        ghost var seen := marbles[..i + 1];
        assert seen[..i] == marbles[..i] && seen[i] == marble;
        if !marble.inKennel {
          inPlay := inPlay + [marble];
        } else {
          inKennel := inKennel + [marble];
        }
        i := i + 1;
      }
      assert marbles[..i] == marbles;
    }

    /** The active player's actions, as far as the engine computes them. */
    method GetListAction() returns (r: Option<seq<Action>>)
      requires state.Some? && ValidActiveIndex(state.value)
      ensures r == ListAction(state.value)
    {
      var player := ActivePlayer(state.value);
      var inPlay, inKennel := MarblesInKennelAndInPlay(player);
      if |inKennel| == 4 {
        r := Some(IfAllMarblesInKennel(player, inKennel));
      } else {
        r := None;
      }
    }
  }
}
