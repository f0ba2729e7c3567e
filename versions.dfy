/** The two resolvers side by side. An earlier card whose stored value is `get_value` of its name is the
    later card of the same suit and name; on such cards the two value sums agree, and the combo formulas
    agree or differ as stated here. */
module Versions {
  import opened Wrappers
  import opened Suits
  import Cards
  import L = Resolver
  import E = Earlier

  /** The later card with the earlier card's suit and name. */
  function Lift(c: E.Card): Cards.Card {
    Cards.Card(c.suit, c.name)
  }

  function LiftAll(cards: seq<E.Card>): (r: seq<Cards.Card>)
    ensures |r| == |cards|
    ensures forall i :: 0 <= i < |cards| ==> r[i] == Lift(cards[i])
  {
    seq(|cards|, i requires 0 <= i < |cards| => Lift(cards[i]))
  }

  /** Cards as the earlier generators build them: the stored value is `get_value` of the name. */
  predicate Consistent(cards: seq<E.Card>) {
    forall i :: 0 <= i < |cards| ==> cards[i].value == E.GetValue(cards[i].name)
  }

  /** Adding the sum of a list with one more value, the same way in both versions. */
  function AddValue(sum: Option<int>, v: Option<int>): Option<int> {
    match sum
    case None => None
    case Some(s) =>
      match v
      case None => None
      case Some(x) => Some(s + x)
  }

  lemma EarlierSumStep(cards: seq<E.Card>)
    requires cards != []
    ensures E.SumValues(cards) == AddValue(E.SumValues(cards[..|cards| - 1]), cards[|cards| - 1].value)
  {
  }

  lemma LaterSumStep(cards: seq<Cards.Card>)
    requires cards != []
    ensures L.SumValues(cards) == AddValue(L.SumValues(cards[..|cards| - 1]), cards[|cards| - 1].Value())
  {
  }

  /** On consistent cards both versions add up the same values, and fail on the same cards. */
  lemma {:induction false} SumsAgree(cards: seq<E.Card>)
    requires Consistent(cards)
    ensures E.SumValues(cards) == L.SumValues(LiftAll(cards))
    decreases |cards|
  {
    if cards != [] {
      var n := |cards|;
      var init := cards[..n - 1];
      var last := cards[n - 1];
      var lifted := LiftAll(cards);
      assert LiftAll(init) == lifted[..n - 1];
      assert Consistent(init) by {
        forall i | 0 <= i < |init|
          ensures init[i].value == E.GetValue(init[i].name)
        {
          assert init[i] == cards[i];
        }
      }
      SumsAgree(init);
      E.GetValueIsCardValue(last.suit, last.name);
      assert lifted[n - 1] == Lift(last);
      EarlierSumStep(cards);
      LaterSumStep(lifted);
    }
  }

  /** Consistent values are never negative, so the earlier Clubs bonus is bounded by the sum. */
  lemma ConsistentBonus(cards: seq<E.Card>, enemy: E.Card)
    requires Consistent(cards) && E.Valued(cards)
    ensures 0 <= E.ClubsBonus(cards, enemy) <= E.SumValues(cards).value
    ensures !L.Active(LiftAll(cards), Lift(enemy), Clubs) ==> E.ClubsBonus(cards, enemy) == 0
    ensures (enemy.suit != Clubs && forall i :: 0 <= i < |cards| ==> cards[i].suit == Clubs) ==>
              E.ClubsBonus(cards, enemy) == E.SumValues(cards).value
  {
    E.ClubsBonusBounds(cards, enemy);
    if !L.Active(LiftAll(cards), Lift(enemy), Clubs) && enemy.suit != Clubs {
      forall i | 0 <= i < |cards|
        ensures cards[i].suit != Clubs
      {
        assert LiftAll(cards)[i].suit == cards[i].suit;
      }
    }
  }

  /** The earlier combo never deals more than the later one: each earlier Club adds its own value once
      more, where the later rule doubles the whole sum as soon as one Club is active. The two agree when no
      Club is active and when every card is a Club against a non-Club enemy. */
  lemma EarlierDamageAtMostLater(cards: seq<E.Card>, enemy: E.Card)
    requires Consistent(cards) && E.Valued(cards)
    ensures L.Valued(LiftAll(cards))
    ensures E.ComboPlay(cards, enemy).value.damage <= L.ComboPlay(LiftAll(cards), Lift(enemy)).value.damage
    ensures !L.Active(LiftAll(cards), Lift(enemy), Clubs) ==>
              E.ComboPlay(cards, enemy).value.damage == L.ComboPlay(LiftAll(cards), Lift(enemy)).value.damage
    ensures (enemy.suit != Clubs && forall i :: 0 <= i < |cards| ==> cards[i].suit == Clubs) ==>
              E.ComboPlay(cards, enemy).value.damage == L.ComboPlay(LiftAll(cards), Lift(enemy)).value.damage
  {
    SumsAgree(cards);
    ConsistentBonus(cards, enemy);
    L.ComboRules(LiftAll(cards), Lift(enemy));
    if enemy.suit != Clubs && |cards| > 0 && forall i :: 0 <= i < |cards| ==> cards[i].suit == Clubs {
      assert LiftAll(cards)[0].suit == Clubs;
      assert L.Active(LiftAll(cards), Lift(enemy), Clubs);
    }
  }

  /** The earlier combo shields by the whole sum for every suit; the later one only when a Spade is active.
      Their shields agree exactly when a Spade is active or the cards are worth nothing. */
  lemma ShieldsAgreeOnlyWithSpades(cards: seq<E.Card>, enemy: E.Card)
    requires Consistent(cards) && E.Valued(cards)
    ensures L.Valued(LiftAll(cards))
    ensures E.ComboPlay(cards, enemy).value.shield == E.SumValues(cards).value
    ensures E.ComboPlay(cards, enemy).value.shield == L.ComboPlay(LiftAll(cards), Lift(enemy)).value.shield
            <==> L.Active(LiftAll(cards), Lift(enemy), Spades) || E.SumValues(cards).value == 0
  {
    SumsAgree(cards);
    L.ComboRules(LiftAll(cards), Lift(enemy));
  }

  /** Five of Clubs with five of Hearts, and a King of Spades to play them against. */
  const MixedFives: seq<E.Card> := [E.Card(Some(5), Clubs, "5"), E.Card(Some(5), Hearts, "5")]
  const SpadeKing: E.Card := E.Card(Some(20), Spades, "King")

  /** The earlier resolver scores the two fives as a combo dealing 15 and shielding and healing 10. */
  lemma MixedFivesEarlier()
    ensures Consistent(MixedFives)
    ensures E.CalculatePlay(MixedFives, SpadeKing) == E.Resolved(E.Play(15, 10, 10, E.SuitList([Hearts])))
  {
    var cards := MixedFives;
    assert Cards.DecimalValue("5") == 5;
    assert cards[..1] == [cards[0]] && cards[..1][..0] == [];
    assert E.NameList(cards) == ["5", "5"];
    assert E.SumValues(cards) == Some(10);
    assert E.CanCombo(cards) == Some(true);
    assert E.HealingSuits(cards, SpadeKing) == [Hearts];
    assert E.ClubsBonus(cards, SpadeKing) == 5;
  }

  /** The later resolver scores the same two fives as a combo dealing 20, healing 20 and shielding nothing. */
  lemma MixedFivesLater()
    ensures L.CalculatePlay(LiftAll(MixedFives), Lift(SpadeKing)) == L.Resolved(L.Play(20, 0, 20, {Clubs, Hearts}))
  {
    var lifted := LiftAll(MixedFives);
    var enemy := Lift(SpadeKing);
    assert lifted == [Cards.Card(Clubs, "5"), Cards.Card(Hearts, "5")];
    assert Cards.DecimalValue("5") == 5;
    assert lifted[..1] == [lifted[0]] && lifted[..1][..0] == [];
    assert L.NameList(lifted) == ["5", "5"];
    assert L.SumValues(lifted[..1]) == Some(5);
    assert L.SumValues(lifted) == Some(10);
    assert L.CanCombo(lifted) == Some(true);
    assert L.Active(lifted, enemy, Clubs) && L.Active(lifted, enemy, Hearts);
    assert L.ActiveSuits(lifted[..1], enemy) == {Clubs};
    assert L.ActiveSuits(lifted, enemy) == {Clubs, Hearts};
  }

  /** A single consistent card deals the same damage in both versions, whichever path the earlier resolver
      takes; when it is worth at most 10 the earlier resolver scores it as a combo and so shields and heals
      by its value whatever its suit. */
  lemma OneCardDamageAgrees(card: E.Card, enemy: E.Card)
    requires card.value == E.GetValue(card.name) && card.value.Some?
    ensures E.CalculatePlay([card], enemy).Resolved?
    ensures L.CalculatePlay([Lift(card)], Lift(enemy)).Resolved?
    ensures E.CalculatePlay([card], enemy).play.damage == L.CalculatePlay([Lift(card)], Lift(enemy)).play.damage
    ensures card.value.value <= 10 ==>
              E.CalculatePlay([card], enemy).play.shield == card.value.value
              && E.CalculatePlay([card], enemy).play.effect == card.value.value
  {
    assert [card][..0] == [];
    assert Consistent([card]);
    SumsAgree([card]);
    E.GetValueIsCardValue(card.suit, card.name);
    assert LiftAll([card]) == [Lift(card)];
    if card.value.value <= 10 {
      E.ClubsBonusBounds([card], enemy);
    }
  }
}
