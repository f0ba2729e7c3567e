/** The game state of regicidecardgame/main.py: the `Game` object that deals the opening hands, draws the
    first enemy and advances the turn, its combat read-outs, and `setup` with the two deck generators. */
module Regicide {
  import opened Wrappers
  import opened Suits
  import opened Cards
  import opened PyLists
  import opened Dealing
  import opened Turns
  import opened Combat

  class Game {
    var castleDeck: seq<Card>
    var tavernDeck: seq<Card>
    var discardPile: seq<Card>
    var handSize: int
    var playersHands: seq<Player<Card>>
    var numberOfPlayers: int
    var currentPlayerId: int
    var currentEnemy: Card
    var currentDamage: int
    var currentShield: int
    var isFinished: bool
    var isWon: Option<bool>

    /** The player count is the number of players, and the current id names one of them (it stays 0 at a
        table without players). */
    ghost predicate Valid()
      reads this
    {
      && numberOfPlayers == |playersHands|
      && 0 <= currentPlayerId
      && (currentPlayerId < numberOfPlayers || currentPlayerId == 0)
    }

    /** `Game.__init__`: deal each player in turn the last `hand_size` cards of the tavern deck, then pop
        the first enemy off the end of the castle deck; damage and shield start at 0. */
    constructor (castleDeck: seq<Card>, tavernDeck: seq<Card>, handSize: int, playerNames: seq<string>)
      requires |castleDeck| > 0
      ensures Valid()
      ensures playersHands == Deal(tavernDeck, handSize, playerNames).players
      ensures this.tavernDeck == Deal(tavernDeck, handSize, playerNames).tavern
      ensures this.castleDeck == castleDeck[..|castleDeck| - 1] && currentEnemy == castleDeck[|castleDeck| - 1]
      ensures discardPile == [] && this.handSize == handSize
      ensures numberOfPlayers == |playerNames| && currentPlayerId == 0
      ensures currentDamage == 0 && currentShield == 0
      ensures !isFinished && isWon == None
    {
      var tavern := tavernDeck;
      var players: seq<Player<Card>> := [];
      var i := 0;
      while i < |playerNames|
        invariant 0 <= i <= |playerNames|
        invariant Deal(tavernDeck, handSize, playerNames[..i]) == Dealt(players, tavern)
      {
        assert playerNames[..i + 1][..i] == playerNames[..i];
        var hand := Hand(TakeLast(tavern, handSize));
        tavern := DropLast(tavern, handSize);
        players := players + [Player(playerNames[i], hand)];
        i := i + 1;
      }
      assert playerNames[..i] == playerNames;
      this.castleDeck := castleDeck[..|castleDeck| - 1];
      this.tavernDeck := tavern;
      this.discardPile := [];
      this.handSize := handSize;
      this.playersHands := players;
      this.numberOfPlayers := |players|;
      this.currentPlayerId := 0;
      this.currentEnemy := castleDeck[|castleDeck| - 1];
      this.currentDamage := 0;
      this.currentShield := 0;
      this.isFinished := false;
      this.isWon := None;
    }

    /** `current_player`: the player whose turn it is; None (an IndexError) at a table without players. */
    function CurrentPlayer(): (r: Option<Player<Card>>)
      reads this
      requires Valid()
      ensures r.Some? <==> numberOfPlayers > 0
      ensures r.Some? ==> r.value == playersHands[currentPlayerId]
    {
      if currentPlayerId < |playersHands| then Some(playersHands[currentPlayerId]) else None
    }

    /** `enemy_health`: the enemy's starting health less the damage dealt, not clamped at zero. */
    function EnemyHealth(): (r: Option<int>)
      reads this
      ensures r.Some? <==> currentEnemy.name in RoyalNames
      ensures r.Some? ==> r.value + currentDamage == MaxHealth(currentEnemy.name).value
      ensures r.Some? && currentDamage > MaxHealth(currentEnemy.name).value ==> r.value < 0
    {
      match MaxHealth(currentEnemy.name)
      case None => None
      case Some(health) => Some(health - currentDamage)
    }

    /** `enemy_attack`: the damage the enemy deals, which is its own card's value. */
    function EnemyAttack(): (r: Option<int>)
      reads this
      ensures r.Some? <==> currentEnemy.name in RoyalNames
      ensures r.Some? ==> r == currentEnemy.Value() && 10 <= r.value <= 20
    {
      if currentEnemy.name in RoyalNames then EnemyTablesMatchValues(currentEnemy); Attack(currentEnemy.name)
      else None
    }

    /** `active_shield`: the accumulated shield, except that a Spade enemy ignores it. */
    function ActiveShield(): (r: int)
      reads this
      ensures currentEnemy.suit == Spades ==> r == 0
      ensures currentEnemy.suit != Spades ==> r == currentShield
    {
      if currentEnemy.suit != Spades then currentShield else 0
    }

    /** The state change of `play_turn`: the next player's turn, round robin. With no players Python's
        `%` raises ZeroDivisionError; then `ok` is false and nothing changes. The enemy re-draw under
        `if not self.current_enemy` never runs, since a card is always truthy, and the rest of the
        method is terminal input and output. */
    method PlayTurn() returns (ok: bool)
      requires Valid()
      modifies this`currentPlayerId
      ensures Valid()
      ensures ok <==> numberOfPlayers > 0
      ensures ok ==> currentPlayerId == NextPlayerId(old(currentPlayerId), numberOfPlayers)
      ensures !ok ==> currentPlayerId == old(currentPlayerId)
    {
      if numberOfPlayers == 0 {
        return false;
      }
      currentPlayerId := (currentPlayerId + 1) % numberOfPlayers;
      ok := true;
    }
  }

  /** `random.shuffle`: the cards come back in some order, none lost and none added. */
  method Shuffle(cards: seq<Card>) returns (shuffled: seq<Card>)
    ensures |shuffled| == |cards|
    ensures multiset(shuffled) == multiset(cards)
  {
    shuffled :| multiset(shuffled) == multiset(cards);
    assert |shuffled| == |multiset(shuffled)|;
  }

  /** The rank names of the castle deck, in generation order. */
  const CastleNames: seq<string> := ["King", "Queen", "Jack"]

  /** The rank names of the tavern deck, in generation order. */
  const TavernNames: seq<string> := ["Ace", "2", "3", "4", "5", "6", "7", "8", "9", "10"]

  /** The four cards of one rank, in suit order. */
  function SuitedCards(name: string): (r: seq<Card>)
    ensures |r| == 4
  {
    [Card(Diamonds, name), Card(Hearts, name), Card(Clubs, name), Card(Spades, name)]
  }

  /** The unshuffled castle deck: the four Kings, then the four Queens, then the four Jacks, each block in
      some order of the suits. */
  ghost predicate CastleLayout(deck: seq<Card>) {
    && |deck| == 12
    && multiset(deck[0..4]) == multiset(SuitedCards("King"))
    && multiset(deck[4..8]) == multiset(SuitedCards("Queen"))
    && multiset(deck[8..12]) == multiset(SuitedCards("Jack"))
  }

  /** The four cards of each castle rank, Kings first. */
  function CastleBlocksOf(): (r: seq<seq<Card>>)
    ensures |r| == |CastleNames|
  {
    seq(|CastleNames|, j requires 0 <= j < |CastleNames| => SuitedCards(CastleNames[j]))
  }

  /** The first `blocks` blocks of four in `deck` are reorderings of the first `blocks` targets. */
  ghost predicate BlocksDone<T>(deck: seq<T>, targets: seq<seq<T>>, blocks: nat) {
    && blocks <= |targets|
    && |deck| == 4 * blocks
    && forall j :: 0 <= j < blocks ==> multiset(deck[4 * j..4 * j + 4]) == multiset(targets[j])
  }

  /** `generate_castle_deck`: each rank's four cards are shuffled and appended, Kings first; with
      `randomize` the whole deck is shuffled once more. A shuffle is any reordering. */
  method GenerateCastleDeck(randomize: bool) returns (deck: seq<Card>)
    ensures |deck| == 12
    ensures multiset(deck) == multiset(SuitedCards("King") + SuitedCards("Queen") + SuitedCards("Jack"))
    ensures !randomize ==> CastleLayout(deck) && RanksInOrder(deck)
  {
    deck := [];
    var n := 0;
    while n < |CastleNames|
      invariant 0 <= n <= |CastleNames|
      invariant BlocksDone(deck, CastleBlocksOf(), n)
      invariant RanksInOrder(deck)
    {
      var name := CastleNames[n];
      var suitedValues: seq<Card> := [];
      var s := 0;
      while s < |AllSuits|
        invariant 0 <= s <= |AllSuits|
        invariant suitedValues == SuitedCards(name)[..s]
      {
        suitedValues := suitedValues + [Card(AllSuits[s], name)];
        s := s + 1;
      }
      assert suitedValues == SuitedCards(name);
      var shuffled := Shuffle(suitedValues);
      AppendBlock(deck, CastleBlocksOf(), shuffled, n);
      AppendRanks(deck, shuffled, n);
      deck := deck + shuffled;
      n := n + 1;
    }
    BlocksComplete(deck, CastleBlocksOf());
    if randomize {
      deck := Shuffle(deck);
    }
  }

  /** Appending a reordering of the next target puts one more block in place. */
  lemma AppendBlock<T>(deck: seq<T>, targets: seq<seq<T>>, block: seq<T>, n: nat)
    requires n < |targets| && BlocksDone(deck, targets, n)
    requires |block| == 4 && multiset(block) == multiset(targets[n])
    ensures BlocksDone(deck + block, targets, n + 1)
  {
    var after := deck + block;
    forall j | 0 <= j < n + 1
      ensures multiset(after[4 * j..4 * j + 4]) == multiset(targets[j])
    {
      if j < n {
        assert after[4 * j..4 * j + 4] == deck[4 * j..4 * j + 4];
      } else {
        assert after[4 * j..4 * j + 4] == block;
      }
    }
  }

  /** Three blocks in place hold the three targets, and the deck reorders their concatenation. */
  lemma BlocksComplete<T>(deck: seq<T>, targets: seq<seq<T>>)
    requires |targets| == 3 && BlocksDone(deck, targets, 3)
    ensures multiset(deck[0..4]) == multiset(targets[0])
    ensures multiset(deck[4..8]) == multiset(targets[1])
    ensures multiset(deck[8..12]) == multiset(targets[2])
    ensures multiset(deck) == multiset(targets[0] + targets[1] + targets[2])
  {
    var first, second, third := deck[0..4], deck[4..8], deck[8..12];
    assert multiset(deck[4 * 0..4 * 0 + 4]) == multiset(targets[0]);
    assert multiset(deck[4 * 1..4 * 1 + 4]) == multiset(targets[1]);
    assert multiset(deck[4 * 2..4 * 2 + 4]) == multiset(targets[2]);
    assert deck == first + second + third;
  }

  /** A member of a reordering of a list is a member of the list. */
  lemma InBlock<T>(block: seq<T>, target: seq<T>, c: T)
    requires multiset(block) == multiset(target) && c in block
    ensures c in target
  {
    assert c in multiset(block);
  }

  /** Every card of a block that reorders one rank's four cards has that rank. */
  lemma BlockNames(block: seq<Card>, name: string)
    requires multiset(block) == multiset(SuitedCards(name))
    ensures forall i :: 0 <= i < |block| ==> block[i].name == name
  {
    forall i | 0 <= i < |block|
      ensures block[i].name == name
    {
      InBlock(block, SuitedCards(name), block[i]);
    }
  }

  /** Card i of the unshuffled castle deck has the rank of block i / 4: Kings, then Queens, then Jacks. */
  predicate RanksInOrder(deck: seq<Card>) {
    && |deck| <= 4 * |CastleNames|
    && forall i :: 0 <= i < |deck| ==> deck[i].name == CastleNames[i / 4]
  }

  /** Appending a reordering of the next rank's four cards keeps the ranks in block order. */
  lemma AppendRanks(deck: seq<Card>, block: seq<Card>, n: nat)
    requires n < |CastleNames| && |deck| == 4 * n && RanksInOrder(deck)
    requires |block| == 4 && multiset(block) == multiset(SuitedCards(CastleNames[n]))
    ensures RanksInOrder(deck + block)
  {
    BlockNames(block, CastleNames[n]);
    var after := deck + block;
    forall i | 0 <= i < |after|
      ensures after[i].name == CastleNames[i / 4]
    {
      if i >= |deck| {
        assert after[i] == block[i - 4 * n];
        assert i / 4 == n;
      }
    }
  }

  /** A card of one rank's four cards has that rank. */
  lemma InSuited(c: Card, name: string)
    requires c in SuitedCards(name)
    ensures c.name == name
  {
  }

  /** Every card of a reordered castle deck is a King, a Queen or a Jack. */
  lemma CastleRoyal(deck: seq<Card>, c: Card)
    requires multiset(deck) == multiset(SuitedCards("King") + SuitedCards("Queen") + SuitedCards("Jack"))
    requires c in deck
    ensures c.name in RoyalNames
  {
    var kings, queens, jacks := SuitedCards("King"), SuitedCards("Queen"), SuitedCards("Jack");
    InBlock(deck, kings + queens + jacks, c);
    if c in kings {
      InSuited(c, "King");
    } else if c in queens {
      InSuited(c, "Queen");
    } else {
      assert c in jacks;
      InSuited(c, "Jack");
    }
  }

  /** `[Card(suit, name) for name in names for suit in suits]`: ten ranks, four suits each. */
  function TavernCards(): (r: seq<Card>)
    ensures |r| == 40
  {
    seq(40, i requires 0 <= i < 40 => Card(AllSuits[i % 4], TavernNames[i / 4]))
  }

  /** The k-th tavern rank is worth k + 1 and is not a royal name. */
  lemma TavernRank(k: nat, suit: Suit)
    requires k < |TavernNames|
    ensures Card(suit, TavernNames[k]).Value() == Some(k + 1)
    ensures TavernNames[k] !in RoyalNames
  {
    RankValues(suit);
  }

  /** Every tavern card is worth 1 to 10, and none of them can be an enemy. */
  lemma TavernValues()
    ensures forall c :: c in TavernCards() ==> c.Value().Some? && 1 <= c.Value().value <= 10
    ensures forall c :: c in TavernCards() ==> c.name !in RoyalNames
  {
    forall c | c in TavernCards()
      ensures c.Value().Some? && 1 <= c.Value().value <= 10 && c.name !in RoyalNames
    {
      var i :| 0 <= i < 40 && TavernCards()[i] == c;
      TavernRank(i / 4, c.suit);
    }
  }

  /** `generate_tavern_deck` without Jesters: the tavern cards in some shuffled order. */
  method GenerateTavernDeck() returns (deck: seq<Card>)
    ensures |deck| == 40
    ensures multiset(deck) == multiset(TavernCards())
  {
    deck := Shuffle(TavernCards());
  }

  /** `hand_size_lookup`: the hand size for each player count. */
  function HandSizeLookup(players: int): (r: Option<int>)
    ensures r.Some? <==> 1 <= players <= 4
    ensures r.Some? ==> r.value + players == 9
  {
    if players == 1 then Some(8)
    else if players == 2 then Some(7)
    else if players == 3 then Some(6)
    else if players == 4 then Some(5)
    else None
  }

  /** Dealing two or three players their hands from a full tavern deck gives everyone a full hand and
      loses no card. */
  lemma SetupDeal(tavern: seq<Card>, handSize: int, names: seq<string>)
    requires |tavern| == 40 && 1 < |names| < 4 && handSize == HandSizeLookup(|names|).value
    ensures var d := Deal(tavern, handSize, names);
            && |d.players| == |names|
            && (forall i :: 0 <= i < |names| ==> d.players[i].name == names[i] && |d.players[i].hand.cards| == handSize)
            && multiset(d.tavern) + multiset(Pile(d.players)) == multiset(tavern)
            && |d.tavern| == 40 - |names| * handSize
  {
    var d := Deal(tavern, handSize, names);
    TakenIsProduct(|names|, handSize);
    assert |names| * handSize <= 18;
    DealKeepsNames(tavern, handSize, names);
    DealConserves(tavern, handSize, names);
    DealTavernPrefix(tavern, handSize, names);
    forall i | 0 <= i < |names|
      ensures |d.players[i].hand.cards| == handSize
    {
      DealFullHands(tavern, handSize, names, i);
    }
  }

  /** `pop()` splits a list into the rest and its last element, losing nothing. */
  lemma PopConserves<T>(xs: seq<T>)
    requires |xs| > 0
    ensures multiset(xs[..|xs| - 1]) + multiset{xs[|xs| - 1]} == multiset(xs)
  {
    assert xs == xs[..|xs| - 1] + [xs[|xs| - 1]];
  }

  /** `setup`: only two or three players are accepted (any other count raises); the hand size comes from
      the table, the decks are generated, and the game is built from them. */
  method Setup(playerNames: seq<string>, randomEnemies: bool) returns (game: Option<Game>)
    ensures game.None? <==> !(1 < |playerNames| < 4)
    ensures game.Some? ==> fresh(game.value) && game.value.Valid()
    ensures game.Some? ==> game.value.handSize == (if |playerNames| == 2 then 7 else 6)
    ensures game.Some? ==> |game.value.playersHands| == |playerNames|
    ensures game.Some? ==>
              forall i :: 0 <= i < |playerNames| ==>
                game.value.playersHands[i].name == playerNames[i]
                && |game.value.playersHands[i].hand.cards| == game.value.handSize
    ensures game.Some? ==>
              multiset(game.value.tavernDeck) + multiset(Pile(game.value.playersHands)) == multiset(TavernCards())
    ensures game.Some? ==> |game.value.tavernDeck| == 40 - |playerNames| * game.value.handSize
    ensures game.Some? ==> |game.value.castleDeck| == 11 && game.value.currentEnemy.name in RoyalNames
    ensures game.Some? ==>
              multiset(game.value.castleDeck) + multiset{game.value.currentEnemy}
              == multiset(SuitedCards("King") + SuitedCards("Queen") + SuitedCards("Jack"))
    ensures game.Some? && !randomEnemies ==> game.value.currentEnemy.name == "Jack"
  {
    var players := |playerNames|;
    if !(1 < players < 4) {
      return None;
    }
    var handSize := HandSizeLookup(players).value;
    var castle := GenerateCastleDeck(randomEnemies);
    var tavern := GenerateTavernDeck();
    var g := new Game(castle, tavern, handSize, playerNames);
    SetupDeal(tavern, handSize, playerNames);
    CastleRoyal(castle, castle[11]);
    PopConserves(castle);
    if !randomEnemies {
      assert castle[11].name == CastleNames[11 / 4];
    }
    game := Some(g);
  }
}
