/** The card model of regicidecardgame/DataStructures.py: a card is a suit and a rank name, and its
    strength is derived from the name alone. `Hand` and `Player` only hold what they are given; they are
    generic over the card type because the earlier file declares the same two containers for its own card. */
module Cards {
  import opened Wrappers
  import opened Suits

  /** The names "2" to "10", which `value` turns into numbers with `int(name)`. */
  const NumeralNames: set<string> := {"2", "3", "4", "5", "6", "7", "8", "9", "10"}

  /** Every name the `match` in `value` recognises. */
  const RankNames: set<string> := NumeralNames + {"Ace", "Jack", "Queen", "King", "Jester"}

  predicate IsDigits(s: string) {
    forall i :: 0 <= i < |s| ==> '0' <= s[i] <= '9'
  }

  /** The number a string of decimal digits spells, as Python's `int` reads it. */
  function DecimalValue(digits: string): (n: int)
    requires IsDigits(digits)
    ensures 0 <= n
    ensures |digits| == 1 ==> n == digits[0] as int - '0' as int
    decreases |digits|
  {
    if digits == [] then 0
    else 10 * DecimalValue(digits[..|digits| - 1]) + (digits[|digits| - 1] as int - '0' as int)
  }

  datatype Card = Card(suit: Suit, name: string) {

    /** The `value` property: the rank's strength, or None where the `match` falls through. The cases
        are disjoint, so testing the named ranks before the numerals gives the same table. */
    function Value(): Option<int> {
      if name == "Ace" then Some(1)
      else if name == "Jack" then Some(10)
      else if name == "Queen" then Some(15)
      else if name == "King" then Some(20)
      else if name == "Jester" then Some(0)
      else if name in NumeralNames then Some(DecimalValue(name))
      else None
    }
  }

  /** A card has a value exactly when the `match` recognises its name, and every value lies in 0..20. */
  lemma ValueDomain(c: Card)
    ensures c.Value().Some? <==> c.name in RankNames
    ensures c.Value().Some? ==> 0 <= c.Value().value <= 20
  {
    if c.name in NumeralNames {
      assert c.name[0] <= '9' && c.name[|c.name| - 1] <= '9';
    }
  }

  /** The strength of every recognised name, whatever the suit. */
  lemma RankValues(suit: Suit)
    ensures Card(suit, "2").Value() == Some(2) && Card(suit, "3").Value() == Some(3)
    ensures Card(suit, "4").Value() == Some(4) && Card(suit, "5").Value() == Some(5)
    ensures Card(suit, "6").Value() == Some(6) && Card(suit, "7").Value() == Some(7)
    ensures Card(suit, "8").Value() == Some(8) && Card(suit, "9").Value() == Some(9)
    ensures Card(suit, "10").Value() == Some(10)
    ensures Card(suit, "Ace").Value() == Some(1)
    ensures Card(suit, "Jack").Value() == Some(10)
    ensures Card(suit, "Queen").Value() == Some(15)
    ensures Card(suit, "King").Value() == Some(20)
    ensures Card(suit, "Jester").Value() == Some(0)
  {
    assert DecimalValue("1") == 1;
    assert DecimalValue("10") == 10;
  }

  /** The strength depends on the name only. */
  lemma ValueIgnoresSuit(a: Card, b: Card)
    requires a.name == b.name
    ensures a.Value() == b.Value()
  {
  }

  /** A hand is the list of cards a player holds. */
  datatype Hand<C> = Hand(cards: seq<C>)

  /** A player is a name and a hand. */
  datatype Player<C> = Player(name: string, hand: Hand<C>)
}
