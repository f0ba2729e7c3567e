/** The earlier engine, main.py at the repository root. Its card stores a `value` field that the deck
    generators fill in with `get_value`. Its resolver differs from the later one: `can_combo` has no
    length check, and `combo` adds up damage, shield and effect card by card, doubling only the Clubs cards
    and keeping the Heart and Diamond suits as a list. The game object is the later one's over this card. */
module Earlier {
  import opened Wrappers
  import opened Suits
  import Cards
  import opened PyLists
  import opened Dealing
  import opened Turns
  import opened Combat

  datatype Card = Card(value: Option<int>, suit: Suit, name: string)

  /** `get_value`: the strength of a rank name, None where the `match` falls through. */
  function GetValue(name: string): (r: Option<int>)
    ensures r.Some? <==> name in Cards.RankNames
    ensures r.Some? ==> 0 <= r.value <= 20
  {
    if name in Cards.NumeralNames then Some(Cards.DecimalValue(name))
    else if name == "Ace" then Some(1)
    else if name == "Jack" then Some(10)
    else if name == "Queen" then Some(15)
    else if name == "King" then Some(20)
    else if name == "Jester" then Some(0)
    else None
  }

  /** `get_value` is the later `Card.value` table: the same strength for every name and suit. */
  lemma GetValueIsCardValue(suit: Suit, name: string)
    ensures GetValue(name) == Cards.Card(suit, name).Value()
  {
  }

  /** `effect_type`: a list of suits from `combo`, or from the single-card rule a bare suit string
      (or the empty list). */
  datatype EffectType = SuitList(suits: seq<Suit>) | SuitName(suit: Suit)

  datatype Play = Play(damage: int, shield: int, effect: int, effectType: EffectType)

  datatype Resolution = Resolved(play: Play) | Illegal | Fault

  /** `[card.name for card in cards]`. */
  function NameList(cards: seq<Card>): seq<string> {
    seq(|cards|, i requires 0 <= i < |cards| => cards[i].name)
  }

  predicate Valued(cards: seq<Card>) {
    forall i :: 0 <= i < |cards| ==> cards[i].value.Some?
  }

  /** `sum(values)`, or None when a card without a value is added. */
  function SumValues(cards: seq<Card>): (r: Option<int>)
    ensures r.Some? <==> Valued(cards)
    decreases |cards|
  {
    if cards == [] then Some(0)
    else match SumValues(cards[..|cards| - 1])
      case None => None
      case Some(s) =>
        match cards[|cards| - 1].value
        case None => None
        case Some(v) => Some(s + v)
  }

  /** `can_combo`: all cards of one name, worth at most 10 together; there is no length check, but the
      empty selection has no name and is no combo. None where the sum meets a card without a value. */
  function CanCombo(cards: seq<Card>): (r: Option<bool>)
    ensures r.None? <==> |cards| > 0 && AllEqual(NameList(cards)) && !Valued(cards)
    ensures r == Some(true) <==>
              |cards| > 0 && AllEqual(NameList(cards)) && Valued(cards) && SumValues(cards).value <= 10
  {
    SingleDistinct(NameList(cards));
    if |Distinct(NameList(cards))| != 1 then Some(false)
    else
      match SumValues(cards)
      case None => None
      case Some(s) => Some(s <= 10)
  }

  /** `can_companion`: exactly two cards, at least one of them named "Ace". */
  function CanCompanion(cards: seq<Card>): (r: bool)
    ensures r <==> |cards| == 2 && (cards[0].name == "Ace" || cards[1].name == "Ace")
  {
    if |cards| != 2 then false
    else
      assert NameList(cards) == [cards[0].name, cards[1].name];
      "Ace" in NameList(cards)
  }

  /** The extra damage `combo` adds: the value of every Clubs card, when the enemy is not a Club. */
  function ClubsBonus(cards: seq<Card>, enemy: Card): int
    decreases |cards|
  {
    if cards == [] then 0
    else
      var last := cards[|cards| - 1];
      ClubsBonus(cards[..|cards| - 1], enemy)
        + (if last.suit == Clubs && last.suit != enemy.suit && last.value.Some? then last.value.value else 0)
  }

  /** A Heart or Diamond card whose suit is not the enemy's: `combo` appends its suit to `effect_type`. */
  predicate Heals(card: Card, enemy: Card) {
    card.suit in {Hearts, Diamonds} && card.suit != enemy.suit
  }

  /** The suits `combo` appends to `effect_type`: one entry per Heart or Diamond card whose suit is not the
      enemy's, in card order and with repeats. */
  function HealingSuits(cards: seq<Card>, enemy: Card): seq<Suit>
    decreases |cards|
  {
    if cards == [] then []
    else
      var last := cards[|cards| - 1];
      HealingSuits(cards[..|cards| - 1], enemy) + (if Heals(last, enemy) then [last.suit] else [])
  }

  /** Every entry is a Heart or Diamond unlike the enemy, and the list is no longer than the cards. */
  lemma {:induction false} HealingSuitsSound(cards: seq<Card>, enemy: Card)
    ensures |HealingSuits(cards, enemy)| <= |cards|
    ensures forall k :: 0 <= k < |HealingSuits(cards, enemy)| ==>
              HealingSuits(cards, enemy)[k] in {Hearts, Diamonds} && HealingSuits(cards, enemy)[k] != enemy.suit
    decreases |cards|
  {
    if cards != [] {
      HealingSuitsSound(cards[..|cards| - 1], enemy);
    }
  }

  /** The positions of the cards of suit `s` that heal against `enemy`. */
  function HealingPositions(cards: seq<Card>, enemy: Card, s: Suit): set<int> {
    set i | 0 <= i < |cards| && cards[i].suit == s && Heals(cards[i], enemy)
  }

  /** One more card adds its own position when it is a healing card of suit `s`. */
  lemma HealingPositionsSnoc(cards: seq<Card>, enemy: Card, s: Suit)
    requires cards != []
    ensures var n := |cards|;
            HealingPositions(cards, enemy, s) ==
              HealingPositions(cards[..n - 1], enemy, s)
                + (if cards[n - 1].suit == s && Heals(cards[n - 1], enemy) then {n - 1} else {})
  {
    var n := |cards|;
    var init := cards[..n - 1];
    forall i | 0 <= i < n - 1
      ensures init[i] == cards[i]
    {
    }
  }

  /** Nothing is dropped: each suit occurs in the list exactly as often as cards of that suit heal. */
  lemma {:induction false} HealingSuitsCount(cards: seq<Card>, enemy: Card, s: Suit)
    ensures multiset(HealingSuits(cards, enemy))[s] == |HealingPositions(cards, enemy, s)|
    decreases |cards|
  {
    if cards != [] {
      var n := |cards|;
      var last := cards[n - 1];
      var init := cards[..n - 1];
      HealingSuitsCount(init, enemy, s);
      HealingPositionsSnoc(cards, enemy, s);
      assert n - 1 !in HealingPositions(init, enemy, s);
      CountStep(HealingSuits(init, enemy), last, enemy, s, HealingPositions(init, enemy, s), n - 1);
    }
  }

  /** One more card keeps the count: it adds its suit to the list exactly when it adds its position to
      the healing positions of that suit. */
  lemma CountStep(r0: seq<Suit>, last: Card, enemy: Card, s: Suit, ps: set<int>, k: int)
    requires k !in ps && multiset(r0)[s] == |ps|
    ensures multiset(r0 + (if Heals(last, enemy) then [last.suit] else []))[s]
            == |ps + (if last.suit == s && Heals(last, enemy) then {k} else {})|
  {
    if Heals(last, enemy) {
      assert multiset(r0 + [last.suit]) == multiset(r0) + multiset{last.suit};
    } else {
      assert r0 + [] == r0;
    }
  }

  /** One card contributes its suit exactly when it heals. */
  lemma HealingSuitsOne(card: Card, enemy: Card)
    ensures HealingSuits([card], enemy) == (if Heals(card, enemy) then [card.suit] else [])
  {
    assert [card][..0] == [];
  }

  /** The list keeps card order: the healing suits of two runs of cards are those of the first run followed
      by those of the second; with the one-card case this fixes the list completely. */
  lemma {:induction false} HealingSuitsAppend(a: seq<Card>, b: seq<Card>, enemy: Card)
    ensures HealingSuits(a + b, enemy) == HealingSuits(a, enemy) + HealingSuits(b, enemy)
    decreases |b|
  {
    if b == [] {
      assert a + b == a;
    } else {
      var m := |b|;
      HealingSuitsAppend(a, b[..m - 1], enemy);
      assert (a + b)[..|a + b| - 1] == a + b[..m - 1];
      assert (a + b)[|a + b| - 1] == b[m - 1];
    }
  }

  /** What the earlier `combo` (and so `companion`) computes: shield and effect are the value sum for every
      suit, and the damage is that sum plus once more the value of each Clubs card not matching the enemy. */
  function ComboPlay(cards: seq<Card>, enemy: Card): (r: Option<Play>)
    ensures r.Some? <==> Valued(cards)
    ensures r.Some? ==> r.value.shield == r.value.effect == SumValues(cards).value
    ensures r.Some? ==> r.value.damage == SumValues(cards).value + ClubsBonus(cards, enemy)
    ensures r.Some? ==> r.value.effectType == SuitList(HealingSuits(cards, enemy))
  {
    match SumValues(cards)
    case None => None
    case Some(sum) => Some(Play(sum + ClubsBonus(cards, enemy), sum, sum, SuitList(HealingSuits(cards, enemy))))
  }

  /** `combo` as the source runs it: one pass over the cards accumulating all four results. */
  method Combo(cards: seq<Card>, enemy: Card) returns (r: Option<Play>)
    ensures r == ComboPlay(cards, enemy)
  {
    var damage, shield, effect := 0, 0, 0;
    var effectType: seq<Suit> := [];
    var i := 0;
    while i < |cards|
      invariant 0 <= i <= |cards|
      invariant SumValues(cards[..i]) == Some(shield)
      invariant effect == shield
      invariant damage == shield + ClubsBonus(cards[..i], enemy)
      invariant effectType == HealingSuits(cards[..i], enemy)
    {
      var card := cards[i];
      if card.value.None? {
        assert !Valued(cards);
        return None;
      }
      assert cards[..i + 1][..i] == cards[..i];
      damage := damage + card.value.value;
      shield := shield + card.value.value;
      effect := effect + card.value.value;
      if card.suit == Clubs && card.suit != enemy.suit {
        damage := damage + card.value.value;
      }
      if Heals(card, enemy) {
        effectType := effectType + [card.suit];
      }
      i := i + 1;
    }
    assert cards[..i] == cards;
    r := Some(Play(damage, shield, effect, SuitList(effectType)));
  }

  /** The single-card rule, as in the later version except that a scoring Heart or Diamond reports its
      suit bare rather than in a list. */
  function SinglePlay(card: Card, enemy: Card): (r: Resolution)
    ensures r == Fault <==> card.value.None?
    ensures r.Resolved? <==> card.value.Some?
    ensures r.Resolved? ==>
              var v := card.value.value;
              && r.play.damage == (if card.suit == Clubs && enemy.suit != Clubs then 2 * v else v)
              && r.play.shield == (if card.suit == Spades then v else 0)
              && r.play.effect == (if card.suit in {Diamonds, Hearts} && card.suit != enemy.suit then v else 0)
              && r.play.effectType ==
                   (if card.suit in {Diamonds, Hearts} && card.suit != enemy.suit then SuitName(card.suit) else SuitList([]))
  {
    match card.value
    case None => Fault
    case Some(v) =>
      var damage := if card.suit == Clubs && enemy.suit != Clubs then v * 2 else v;
      var shield := if card.suit == Spades then v else 0;
      var heals := card.suit in {Diamonds, Hearts} && card.suit != enemy.suit;
      Resolved(Play(damage, shield, if heals then v else 0, if heals then SuitName(card.suit) else SuitList([])))
  }

  function FromCombo(p: Option<Play>): Resolution {
    match p
    case None => Fault
    case Some(play) => Resolved(play)
  }

  /** The earlier `calculate_play`: combo, then companion, then a single card, else illegal. A single card
      worth at most 10 already counts as a combo, so the single-card rule only scores cards worth more. */
  function CalculatePlay(cards: seq<Card>, enemy: Card): (r: Resolution)
    ensures cards == [] ==> r == Illegal
    ensures r == Illegal <==> |cards| != 1 && !CanCompanion(cards) && CanCombo(cards) == Some(false)
    ensures |cards| == 1 && cards[0].value.None? ==> r == Fault
    ensures |cards| == 1 && cards[0].value.Some? && cards[0].value.value <= 10 ==>
              r == FromCombo(ComboPlay(cards, enemy))
    ensures |cards| == 1 && cards[0].value.Some? && cards[0].value.value > 10 ==> r == SinglePlay(cards[0], enemy)
    ensures CanCombo(cards) == Some(true) ==> r == FromCombo(ComboPlay(cards, enemy))
    ensures CanCombo(cards).None? ==> r == Fault
    ensures CanCompanion(cards) ==> r == FromCombo(ComboPlay(cards, enemy))
    ensures r == Fault ==> !Valued(cards)
  {
    assert |cards| == 1 ==>
             && cards[..0] == [] && AllEqual(NameList(cards))
             && (cards[0].value.Some? ==> SumValues(cards) == cards[0].value);
    match CanCombo(cards)
    case None => Fault
    case Some(true) => FromCombo(ComboPlay(cards, enemy))
    case Some(false) =>
      if CanCompanion(cards) then FromCombo(ComboPlay(cards, enemy))
      else if |cards| != 1 then Illegal
      else SinglePlay(cards[0], enemy)
  }

  /** With values that are not negative, the Clubs bonus lies between nothing and the whole sum: it is
      nothing without a Clubs card that differs from the enemy, and the whole sum when every card is such
      a Club. */
  lemma {:induction false} ClubsBonusBounds(cards: seq<Card>, enemy: Card)
    requires Valued(cards) && forall i :: 0 <= i < |cards| ==> cards[i].value.value >= 0
    ensures 0 <= ClubsBonus(cards, enemy) <= SumValues(cards).value
    ensures (enemy.suit == Clubs || forall i :: 0 <= i < |cards| ==> cards[i].suit != Clubs) ==>
              ClubsBonus(cards, enemy) == 0
    ensures (enemy.suit != Clubs && forall i :: 0 <= i < |cards| ==> cards[i].suit == Clubs) ==>
              ClubsBonus(cards, enemy) == SumValues(cards).value
    decreases |cards|
  {
    if cards != [] {
      var init := cards[..|cards| - 1];
      assert forall i :: 0 <= i < |init| ==> init[i] == cards[i];
      ClubsBonusBounds(init, enemy);
    }
  }

  /** The Game object of main.py. Its text is the later `Game` class of regicidecardgame/main.py over this
      card, and the two classes are kept as two copies on purpose, one per source file: the dealing, the
      enemy draw, the read-outs and the turn rotation are the same, and only `EnemyAttack` is stated
      through `get_value`. */
  class Game {
    var castleDeck: seq<Card>
    var tavernDeck: seq<Card>
    var discardPile: seq<Card>
    var handSize: int
    var playersHands: seq<Cards.Player<Card>>
    var numberOfPlayers: int
    var currentPlayerId: int
    var currentEnemy: Card
    var currentDamage: int
    var currentShield: int
    var isFinished: bool
    var isWon: Option<bool>

    ghost predicate Valid()
      reads this
    {
      && numberOfPlayers == |playersHands|
      && 0 <= currentPlayerId
      && (currentPlayerId < numberOfPlayers || currentPlayerId == 0)
    }

    /** `Game.__init__`: the later constructor, line for line. */
    constructor (castleDeck: seq<Card>, tavernDeck: seq<Card>, handSize: int, playerNames: seq<string>)
      requires |castleDeck| > 0
      ensures Valid()
      ensures playersHands == Deal(tavernDeck, handSize, playerNames).players
      ensures this.tavernDeck == Deal(tavernDeck, handSize, playerNames).tavern
      ensures this.castleDeck == castleDeck[..|castleDeck| - 1] && currentEnemy == castleDeck[|castleDeck| - 1]
      ensures discardPile == [] && this.handSize == handSize
      ensures numberOfPlayers == |playerNames| && currentPlayerId == 0
      ensures currentDamage == 0 && currentShield == 0
      ensures !isFinished && isWon == None
    {
      var tavern := tavernDeck;
      var players: seq<Cards.Player<Card>> := [];
      var i := 0;
      while i < |playerNames|
        invariant 0 <= i <= |playerNames|
        invariant Deal(tavernDeck, handSize, playerNames[..i]) == Dealt(players, tavern)
      {
        assert playerNames[..i + 1][..i] == playerNames[..i];
        var hand := Cards.Hand(TakeLast(tavern, handSize));
        tavern := DropLast(tavern, handSize);
        players := players + [Cards.Player(playerNames[i], hand)];
        i := i + 1;
      }
      assert playerNames[..i] == playerNames;
      this.castleDeck := castleDeck[..|castleDeck| - 1];
      this.tavernDeck := tavern;
      this.discardPile := [];
      this.handSize := handSize;
      this.playersHands := players;
      this.numberOfPlayers := |players|;
      this.currentPlayerId := 0;
      this.currentEnemy := castleDeck[|castleDeck| - 1];
      this.currentDamage := 0;
      this.currentShield := 0;
      this.isFinished := false;
      this.isWon := None;
    }

    /** `current_player`; None (an IndexError) at a table without players. */
    function CurrentPlayer(): (r: Option<Cards.Player<Card>>)
      reads this
      requires Valid()
      ensures r.Some? <==> numberOfPlayers > 0
      ensures r.Some? ==> r.value == playersHands[currentPlayerId]
    {
      if currentPlayerId < |playersHands| then Some(playersHands[currentPlayerId]) else None
    }

    /** `enemy_health`: starting health less the damage dealt, not clamped at zero. */
    function EnemyHealth(): (r: Option<int>)
      reads this
      ensures r.Some? <==> currentEnemy.name in RoyalNames
      ensures r.Some? ==> r.value + currentDamage == MaxHealth(currentEnemy.name).value
      ensures r.Some? && currentDamage > MaxHealth(currentEnemy.name).value ==> r.value < 0
    {
      match MaxHealth(currentEnemy.name)
      case None => None
      case Some(health) => Some(health - currentDamage)
    }

    /** `enemy_attack`: the enemy's damage, which is `get_value` of its name. */
    function EnemyAttack(): (r: Option<int>)
      reads this
      ensures r.Some? <==> currentEnemy.name in RoyalNames
      ensures r.Some? ==> r == GetValue(currentEnemy.name) && 10 <= r.value <= 20
    {
      if currentEnemy.name in RoyalNames then
        EnemyTablesMatchValues(Cards.Card(currentEnemy.suit, currentEnemy.name));
        Attack(currentEnemy.name)
      else None
    }

    /** `active_shield`: a Spade enemy ignores the accumulated shield. */
    function ActiveShield(): (r: int)
      reads this
      ensures currentEnemy.suit == Spades ==> r == 0
      ensures currentEnemy.suit != Spades ==> r == currentShield
    {
      if currentEnemy.suit != Spades then currentShield else 0
    }

    /** The state change of `play_turn`: the next player's turn, round robin; with no players Python's
        `%` raises ZeroDivisionError, `ok` is false and nothing changes. */
    method PlayTurn() returns (ok: bool)
      requires Valid()
      modifies this`currentPlayerId
      ensures Valid()
      ensures ok <==> numberOfPlayers > 0
      ensures ok ==> currentPlayerId == NextPlayerId(old(currentPlayerId), numberOfPlayers)
      ensures !ok ==> currentPlayerId == old(currentPlayerId)
    {
      if numberOfPlayers == 0 {
        return false;
      }
      currentPlayerId := (currentPlayerId + 1) % numberOfPlayers;
      ok := true;
    }
  }

  /** `[Card(get_value(name), suit, name) for name in names for suit in suits]`. */
  function TavernCardsFrom(names: seq<string>): (r: seq<Card>)
    ensures |r| == 4 * |names|
  {
    seq(4 * |names|, i requires 0 <= i < 4 * |names| => Card(GetValue(names[i / 4]), AllSuits[i % 4], names[i / 4]))
  }

  /** Every generated card carries one of the names, valued by `get_value`, and every name comes in every
      suit. */
  lemma TavernCardsFromContents(names: seq<string>)
    ensures forall c :: c in TavernCardsFrom(names) ==> c.name in names && c.value == GetValue(c.name)
    ensures forall k, s :: 0 <= k < |names| ==> Card(GetValue(names[k]), s, names[k]) in TavernCardsFrom(names)
  {
    var r := TavernCardsFrom(names);
    forall c | c in r
      ensures c.name in names && c.value == GetValue(c.name)
    {
      var i :| 0 <= i < |r| && r[i] == c;
      assert c.name == names[i / 4];
    }
    forall k, s | 0 <= k < |names|
      ensures Card(GetValue(names[k]), s, names[k]) in r
    {
      var i := 4 * k + SuitIndex(s);
      assert i / 4 == k && i % 4 == SuitIndex(s);
      assert r[i] == Card(GetValue(names[k]), s, names[k]);
    }
  }

  /** The rank names main.py's `generate_tavern_deck` uses: "1" stands where the Ace belongs. */
  const TavernNamesAsWritten: seq<string> := ["1", "2", "3", "4", "5", "6", "7", "8", "9", "10"]

  /** The rank names with the Ace under the name `get_value` knows, as the later version has them. */
  const TavernNames: seq<string> := ["Ace", "2", "3", "4", "5", "6", "7", "8", "9", "10"]

  /** As written, the four "1" cards have no value: playing one alone raises in `can_combo`'s sum, and
      with no card named "Ace" no selection is ever a companion play. */
  lemma AsWrittenOnesFault(enemy: Card)
    ensures forall i :: 0 <= i < 4 ==> TavernCardsFrom(TavernNamesAsWritten)[i].value == None
    ensures forall i :: 0 <= i < 4 ==> CalculatePlay([TavernCardsFrom(TavernNamesAsWritten)[i]], enemy) == Fault
    ensures forall c :: c in TavernCardsFrom(TavernNamesAsWritten) ==> c.name != "Ace"
  {
    var deck := TavernCardsFrom(TavernNamesAsWritten);
    forall i | 0 <= i < 4
      ensures deck[i].value == None && CalculatePlay([deck[i]], enemy) == Fault
    {
      assert deck[i].name == "1";
    }
    forall c | c in deck
      ensures c.name != "Ace"
    {
      var i :| 0 <= i < 40 && deck[i] == c;
      assert c.name == TavernNamesAsWritten[i / 4];
    }
  }

  /** With the Ace named "Ace", every tavern card carries its `get_value` strength, 1 to 10, and any one of
      them played alone resolves, as a one-card combo. */
  lemma TavernPlaysResolve(enemy: Card)
    ensures forall c :: c in TavernCardsFrom(TavernNames) ==>
              c.value == GetValue(c.name) && c.value.Some? && 1 <= c.value.value <= 10
    ensures forall c :: c in TavernCardsFrom(TavernNames) ==>
              CalculatePlay([c], enemy) == FromCombo(ComboPlay([c], enemy)) && CalculatePlay([c], enemy).Resolved?
  {
    var deck := TavernCardsFrom(TavernNames);
    forall c | c in deck
      ensures c.value == GetValue(c.name) && c.value.Some? && 1 <= c.value.value <= 10
      ensures CalculatePlay([c], enemy) == FromCombo(ComboPlay([c], enemy)) && CalculatePlay([c], enemy).Resolved?
    {
      var i :| 0 <= i < 40 && deck[i] == c;
      Cards.RankValues(c.suit);
      GetValueIsCardValue(c.suit, c.name);
      assert [c][..0] == [];
    }
  }
}
