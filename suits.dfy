/** The four suits. The Python code spells them as strings; every deck it builds uses exactly these four. */
module Suits {

  datatype Suit = Diamonds | Hearts | Clubs | Spades

  /** The suits in the order in which both versions generate their decks. */
  const AllSuits: seq<Suit> := [Diamonds, Hearts, Clubs, Spades]

  /** Where a suit stands in that order. */
  function SuitIndex(s: Suit): (j: nat)
    ensures j < |AllSuits| && AllSuits[j] == s
  {
    match s
    case Diamonds => 0
    case Hearts => 1
    case Clubs => 2
    case Spades => 3
  }
}
