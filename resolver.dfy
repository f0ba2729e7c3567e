/** The play resolver of regicidecardgame/main.py: `Game.calculate_play` with `can_combo`, `combo`,
    `can_companion` and `companion`. A play yields (damage, shield, effect, effect types); `False` marks
    an illegal play. A card whose name has no value makes Python either raise a TypeError (when the value
    enters a sum or a doubling) or return a tuple holding None; both are `Fault` here. */
module Resolver {
  import opened Wrappers
  import opened Suits
  import opened Cards
  import opened PyLists

  datatype Play = Play(damage: int, shield: int, effect: int, effectTypes: set<Suit>)

  datatype Resolution = Resolved(play: Play) | Illegal | Fault

  /** `[card.name for card in cards]`. */
  function NameList(cards: seq<Card>): seq<string> {
    seq(|cards|, i requires 0 <= i < |cards| => cards[i].name)
  }

  /** Every card of the list has a value. */
  predicate Valued(cards: seq<Card>) {
    forall i :: 0 <= i < |cards| ==> cards[i].Value().Some?
  }

  /** `sum(values)`, or None when a card without a value is added. */
  function SumValues(cards: seq<Card>): Option<int>
    decreases |cards|
  {
    if cards == [] then Some(0)
    else match SumValues(cards[..|cards| - 1])
      case None => None
      case Some(s) =>
        match cards[|cards| - 1].Value()
        case None => None
        case Some(v) => Some(s + v)
  }

  /** Every value lies in 0..20, so the sum lies between 0 and 20 per card. */
  lemma {:induction false} SumValuesBounds(cards: seq<Card>)
    ensures SumValues(cards).Some? ==> 0 <= SumValues(cards).value <= 20 * |cards|
    decreases |cards|
  {
    if cards != [] {
      SumValuesBounds(cards[..|cards| - 1]);
      ValueDomain(cards[|cards| - 1]);
    }
  }

  /** The sum exists exactly when every card has a value. */
  lemma {:induction false} SumValuesDefined(cards: seq<Card>)
    ensures SumValues(cards).Some? <==> Valued(cards)
    decreases |cards|
  {
    if cards != [] {
      var init := cards[..|cards| - 1];
      SumValuesDefined(init);
      assert forall j :: 0 <= j < |init| ==> init[j] == cards[j];
    }
  }

  /** `can_combo`: more than one card, all of one name, worth at most 10 together. None where the sum
      meets a card without a value. */
  function CanCombo(cards: seq<Card>): (r: Option<bool>)
    ensures r.None? <==> |cards| > 1 && AllEqual(NameList(cards)) && !Valued(cards)
    ensures r == Some(true) <==>
              |cards| > 1 && AllEqual(NameList(cards)) && SumValues(cards).Some? && SumValues(cards).value <= 10
  {
    SingleDistinct(NameList(cards));
    SumValuesDefined(cards);
    if !(|cards| > 1) || |Distinct(NameList(cards))| != 1 then Some(false)
    else
      match SumValues(cards)
      case None => None
      case Some(s) => Some(s <= 10)
  }

  /** `can_companion`: exactly two cards, at least one of them an Ace. */
  function CanCompanion(cards: seq<Card>): (r: bool)
    ensures r <==> |cards| == 2 && (cards[0].name == "Ace" || cards[1].name == "Ace")
  {
    if |cards| != 2 then false
    else
      assert NameList(cards) == [cards[0].name, cards[1].name];
      "Ace" in NameList(cards)
  }

  /** Some card of suit `s` was played and the enemy's suit is not `s`, so that suit's power is active. */
  predicate Active(cards: seq<Card>, enemy: Card, s: Suit) {
    s != enemy.suit && exists i :: 0 <= i < |cards| && cards[i].suit == s
  }

  /** The suits of the played cards that differ from the enemy's: `list(set(effect_type))` after the loop. */
  function ActiveSuits(cards: seq<Card>, enemy: Card): set<Suit>
    decreases |cards|
  {
    if cards == [] then {}
    else
      var last := cards[|cards| - 1];
      ActiveSuits(cards[..|cards| - 1], enemy) + (if last.suit != enemy.suit then {last.suit} else {})
  }

  /** The collected suits are exactly the active ones. */
  lemma {:induction false} ActiveSuitsMeans(cards: seq<Card>, enemy: Card)
    ensures forall s :: s in ActiveSuits(cards, enemy) <==> Active(cards, enemy, s)
    decreases |cards|
  {
    if cards != [] {
      var init := cards[..|cards| - 1];
      ActiveSuitsMeans(init, enemy);
      assert forall j :: 0 <= j < |init| ==> init[j] == cards[j];
      forall s | Active(cards, enemy, s) && s != cards[|cards| - 1].suit
        ensures Active(init, enemy, s)
      {
        var j :| 0 <= j < |cards| && cards[j].suit == s;
        assert init[j].suit == s;
      }
    }
  }

  /** The suit rules `combo` applies once the values are summed and the active suits collected: an active
      Spade shields by the undoubled sum; the effect types are the active suits without Spades; an active
      Club doubles the damage; an active Diamond or Heart makes the final damage the effect. */
  function SuitRules(sum: int, active: set<Suit>): Play {
    var effectTypes := active - {Spades};
    var damage := if Clubs in effectTypes then 2 * sum else sum;
    Play(damage,
         if Spades in active then sum else 0,
         if Diamonds in effectTypes || Hearts in effectTypes then damage else 0,
         effectTypes)
  }

  /** What `combo` (and so `companion`) computes, for the whole play at once. */
  function ComboPlay(cards: seq<Card>, enemy: Card): (r: Option<Play>)
    ensures r.Some? <==> Valued(cards)
  {
    SumValuesDefined(cards);
    match SumValues(cards)
    case None => None
    case Some(sum) => Some(SuitRules(sum, ActiveSuits(cards, enemy)))
  }

  /** The combo rules: the value sum is the damage; an active Spade turns the undoubled sum into shield;
      an active Club doubles the damage; an active Diamond or Heart makes the final damage the effect.
      The effect types are the active suits other than Spades, Clubs included. */
  lemma ComboRules(cards: seq<Card>, enemy: Card)
    requires Valued(cards)
    ensures SumValues(cards).Some?
    ensures var sum := SumValues(cards).value;
            var play := ComboPlay(cards, enemy).value;
            && (forall s :: s in play.effectTypes <==> s != Spades && Active(cards, enemy, s))
            && play.shield == (if Active(cards, enemy, Spades) then sum else 0)
            && play.damage == (if Active(cards, enemy, Clubs) then 2 * sum else sum)
            && play.effect == (if Active(cards, enemy, Diamonds) || Active(cards, enemy, Hearts) then play.damage else 0)
  {
    SumValuesDefined(cards);
    ActiveSuitsMeans(cards, enemy);
  }

  /** `combo` as the source runs it: one pass adding up the values and collecting the suits that differ
      from the enemy's, then the suit rules applied to the collected set. */
  method Combo(cards: seq<Card>, enemy: Card) returns (r: Option<Play>)
    ensures r == ComboPlay(cards, enemy)
  {
    var damage := 0;
    var effectType: seq<Suit> := [];
    var i := 0;
    while i < |cards|
      invariant 0 <= i <= |cards|
      invariant SumValues(cards[..i]) == Some(damage)
      invariant SuitSet(effectType) == ActiveSuits(cards[..i], enemy)
    {
      var value := cards[i].Value();
      if value.None? {
        assert !Valued(cards);
        return None;
      }
      SumValuesSnoc(cards, i);
      ActiveSuitsSnoc(cards, i, enemy);
      damage := damage + value.value;
      if cards[i].suit != enemy.suit {
        SuitSetSnoc(effectType, cards[i].suit);
        effectType := effectType + [cards[i].suit];
      }
      i := i + 1;
    }
    assert cards[..i] == cards;
    var active := set s | s in effectType;
    assert active == SuitSet(effectType);
    ghost var sum, collected := damage, active;
    var shield := 0;
    if Spades in active {
      shield := damage;
      active := active - {Spades};
    }
    assert active == collected - {Spades};
    if Clubs in active {
      damage := damage * 2;
    }
    var effect := 0;
    if Diamonds in active || Hearts in active {
      effect := damage;
    }
    r := Some(Play(damage, shield, effect, active));
    assert r.value == SuitRules(sum, collected);
  }

  /** Adding one more valued card to the sum. */
  lemma SumValuesSnoc(cards: seq<Card>, i: nat)
    requires i < |cards| && SumValues(cards[..i]).Some? && cards[i].Value().Some?
    ensures SumValues(cards[..i + 1]) == Some(SumValues(cards[..i]).value + cards[i].Value().value)
  {
    assert cards[..i + 1][..i] == cards[..i];
  }

  /** One more card adds its suit to the active ones unless it is the enemy's. */
  lemma ActiveSuitsSnoc(cards: seq<Card>, i: nat, enemy: Card)
    requires i < |cards|
    ensures ActiveSuits(cards[..i + 1], enemy) ==
              ActiveSuits(cards[..i], enemy) + (if cards[i].suit != enemy.suit then {cards[i].suit} else {})
  {
    assert cards[..i + 1][..i] == cards[..i];
  }

  /** `set(xs)` for a list of suits. */
  function SuitSet(xs: seq<Suit>): set<Suit> {
    set s | s in xs
  }

  lemma SuitSetSnoc(xs: seq<Suit>, x: Suit)
    ensures SuitSet(xs + [x]) == SuitSet(xs) + {x}
  {
    assert forall s :: s in xs + [x] <==> s in xs || s == x;
  }

  /** The single-card rule: Clubs double the damage unless the enemy is a Club; a Spade's value is
      shield whatever the enemy's suit; a Diamond or Heart that is not the enemy's suit makes its value
      the effect and its suit the one effect type. */
  function SinglePlay(card: Card, enemy: Card): (r: Resolution)
    ensures r == Fault <==> card.Value().None?
    ensures r.Resolved? <==> card.Value().Some?
    ensures r.Resolved? ==>
              var v := card.Value().value;
              && r.play.damage == (if card.suit == Clubs && enemy.suit != Clubs then 2 * v else v)
              && r.play.shield == (if card.suit == Spades then v else 0)
              && r.play.effect == (if card.suit in {Diamonds, Hearts} && card.suit != enemy.suit then v else 0)
              && r.play.effectTypes == (if card.suit in {Diamonds, Hearts} && card.suit != enemy.suit then {card.suit} else {})
  {
    match card.Value()
    case None => Fault
    case Some(v) =>
      var damage := if card.suit == Clubs && enemy.suit != Clubs then v * 2 else v;
      var shield := if card.suit == Spades then v else 0;
      var heals := card.suit in {Diamonds, Hearts} && card.suit != enemy.suit;
      Resolved(Play(damage, shield, if heals then v else 0, if heals then {card.suit} else {}))
  }

  /** A scored combo, or the fault of an unvalued card. */
  function FromCombo(p: Option<Play>): Resolution {
    match p
    case None => Fault
    case Some(play) => Resolved(play)
  }

  /** `calculate_play`: combo first, then companion (scored as a combo), then a single card; every other
      selection, the empty one included, is illegal. */
  function CalculatePlay(cards: seq<Card>, enemy: Card): (r: Resolution)
    ensures cards == [] ==> r == Illegal
    ensures r == Illegal <==> |cards| != 1 && !CanCompanion(cards) && CanCombo(cards) == Some(false)
    ensures |cards| == 1 ==> r == SinglePlay(cards[0], enemy)
    ensures CanCompanion(cards) ==> r == FromCombo(ComboPlay(cards, enemy))
    ensures CanCombo(cards) == Some(true) ==> r == FromCombo(ComboPlay(cards, enemy))
    ensures CanCombo(cards).None? ==> r == Fault
    ensures r == Fault ==> !Valued(cards)
  {
    match CanCombo(cards)
    case None => Fault
    case Some(true) => FromCombo(ComboPlay(cards, enemy))
    case Some(false) =>
      if CanCompanion(cards) then FromCombo(ComboPlay(cards, enemy))
      else if |cards| != 1 then Illegal
      else SinglePlay(cards[0], enemy)
  }

  /** A combo is worth at most 10 before doubling, so it deals at most 20 and shields at most 10. */
  lemma ComboCapped(cards: seq<Card>, enemy: Card)
    requires CanCombo(cards) == Some(true)
    ensures SumValues(cards).value <= 10
    ensures CalculatePlay(cards, enemy).Resolved?
    ensures CalculatePlay(cards, enemy).play.damage <= 20 && CalculatePlay(cards, enemy).play.shield <= 10
  {
  }

  /** Two Aces satisfy both rules; the combo rule is tried first and scores them. */
  lemma TwoAcesAreCombo(a: Card, b: Card, enemy: Card)
    requires a.name == "Ace" && b.name == "Ace"
    ensures CanCombo([a, b]) == Some(true) && CanCompanion([a, b])
    ensures CalculatePlay([a, b], enemy) == Resolved(ComboPlay([a, b], enemy).value)
    ensures SumValues([a, b]) == Some(2)
  {
    assert NameList([a, b]) == ["Ace", "Ace"];
    assert [a, b][..1] == [a];
    assert [a][..0] == [];
    assert AllEqual(NameList([a, b]));
    assert a.Value() == Some(1) && b.Value() == Some(1);
    assert SumValues([a]) == Some(1);
    assert SumValues([a, b]) == Some(2);
    assert CanCompanion([a, b]);
  }

  /** An Ace and a card of another rank play as companions whatever their total, which may exceed the
      combo limit of 10. */
  lemma CompanionIgnoresCap(ace: Card, other: Card, enemy: Card)
    requires ace.name == "Ace" && other.name != "Ace" && other.Value().Some?
    ensures CanCombo([ace, other]) == Some(false)
    ensures CalculatePlay([ace, other], enemy) == Resolved(ComboPlay([ace, other], enemy).value)
    ensures SumValues([ace, other]) == Some(1 + other.Value().value)
  {
    assert NameList([ace, other])[0] != NameList([ace, other])[1];
    assert [ace, other][..1] == [ace];
    assert [ace][..0] == [];
    assert SumValues([ace]) == Some(1);
  }

  /** With an active Spade and an active Club the shield is taken before the doubling: the damage is
      twice the shield. */
  lemma ShieldBeforeDoubling(cards: seq<Card>, enemy: Card)
    requires Valued(cards) && Active(cards, enemy, Spades) && Active(cards, enemy, Clubs)
    ensures ComboPlay(cards, enemy).value.damage == 2 * ComboPlay(cards, enemy).value.shield
  {
    ComboRules(cards, enemy);
  }

  /** A single card scores as a one-card combo would, except in two places: its shield ignores the
      enemy's suit, and an active Club is not reported among its effect types. */
  lemma SingleVersusOneCardCombo(card: Card, enemy: Card)
    requires card.Value().Some?
    ensures var single := SinglePlay(card, enemy).play;
            var combo := ComboPlay([card], enemy).value;
            && single.damage == combo.damage
            && single.effect == combo.effect
            && single.effectTypes == combo.effectTypes - {Clubs}
            && (single.shield == combo.shield || (card.suit == Spades && enemy.suit == Spades))
  {
    assert [card][..0] == [];
    assert SumValues([card]) == card.Value();
    assert ActiveSuits([card], enemy) == if card.suit != enemy.suit then {card.suit} else {};
  }
}
