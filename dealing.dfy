/** How `Game.__init__` deals the opening hands, in both versions of the game: each player in turn takes
    the last `hand_size` cards of the tavern deck (`tavern_deck[-hand_size:]`), and the tavern deck
    becomes the rest (`tavern_deck[:-hand_size]`). The deal is generic over the card type because the
    earlier file runs the same loop over its own card. */
module Dealing {
  import opened Cards
  import opened PyLists

  /** The players dealt so far, in order, and what is left of the tavern deck. */
  datatype Dealt<C> = Dealt(players: seq<Player<C>>, tavern: seq<C>)

  /** The state after dealing to every name in `names`, one name after the other. */
  function Deal<C>(deck: seq<C>, handSize: int, names: seq<string>): (d: Dealt<C>)
    ensures |d.players| == |names|
    decreases |names|
  {
    if names == [] then Dealt([], deck)
    else
      var before := Deal(deck, handSize, names[..|names| - 1]);
      var hand := Hand(TakeLast(before.tavern, handSize));
      Dealt(before.players + [Player(names[|names| - 1], hand)], DropLast(before.tavern, handSize))
  }

  /** Players are created in the order of `names`, each under its own name. */
  lemma {:induction false} DealKeepsNames<C>(deck: seq<C>, handSize: int, names: seq<string>)
    ensures forall i :: 0 <= i < |names| ==> Deal(deck, handSize, names).players[i].name == names[i]
    decreases |names|
  {
    if names != [] {
      var init := names[..|names| - 1];
      DealKeepsNames(deck, handSize, init);
      var before := Deal(deck, handSize, init);
      var d := Deal(deck, handSize, names);
      forall i | 0 <= i < |names|
        ensures d.players[i].name == names[i]
      {
        if i < |names| - 1 {
          assert d.players[i] == before.players[i];
          assert init[i] == names[i];
        }
      }
    }
  }

  /** The dealt hands stacked back in deck order: the last player's hand lies nearest the remaining
      tavern cards, the first player's hand at the end. */
  function Pile<C>(players: seq<Player<C>>): seq<C>
    decreases |players|
  {
    if players == [] then []
    else players[|players| - 1].hand.cards + Pile(players[..|players| - 1])
  }

  /** Dealing to one more name moves the last `handSize` tavern cards onto the pile. */
  lemma DealStep<C>(deck: seq<C>, handSize: int, names: seq<string>)
    requires names != []
    ensures var before := Deal(deck, handSize, names[..|names| - 1]);
            var d := Deal(deck, handSize, names);
            && d.tavern == DropLast(before.tavern, handSize)
            && Pile(d.players) == TakeLast(before.tavern, handSize) + Pile(before.players)
  {
    var before := Deal(deck, handSize, names[..|names| - 1]);
    var d := Deal(deck, handSize, names);
    assert d.players[..|d.players| - 1] == before.players;
  }

  /** Dealing neither loses nor invents a card: the remaining tavern deck followed by the hands,
      last player first, is the original deck, so their multisets agree as well. */
  lemma {:induction false} DealConserves<C>(deck: seq<C>, handSize: int, names: seq<string>)
    ensures Deal(deck, handSize, names).tavern + Pile(Deal(deck, handSize, names).players) == deck
    decreases |names|
  {
    if names != [] {
      var before := Deal(deck, handSize, names[..|names| - 1]);
      var d := Deal(deck, handSize, names);
      DealConserves(deck, handSize, names[..|names| - 1]);
      DealStep(deck, handSize, names);
      SliceParts(before.tavern, handSize);
      Regroup(DropLast(before.tavern, handSize), TakeLast(before.tavern, handSize), Pile(before.players),
              before.tavern, deck);
    }
  }

  lemma Regroup<T>(a: seq<T>, b: seq<T>, c: seq<T>, ab: seq<T>, all: seq<T>)
    requires a + b == ab && ab + c == all
    ensures a + (b + c) == all
  {
    assert a + (b + c) == (a + b) + c;
  }

  /** The number of cards that `n` full hands of `handSize` cards take, counted hand by hand. */
  function Taken(n: nat, handSize: nat): nat
    decreases n
  {
    if n == 0 then 0 else Taken(n - 1, handSize) + handSize
  }

  /** Counting hand by hand is multiplying. */
  lemma {:induction false} TakenIsProduct(n: nat, handSize: nat)
    ensures Taken(n, handSize) == n * handSize
    decreases n
  {
    if n > 0 {
      TakenIsProduct(n - 1, handSize);
      assert (n - 1) * handSize + handSize == n * handSize;
    }
  }

  lemma {:induction false} TakenMonotone(i: nat, n: nat, handSize: nat)
    requires i <= n
    ensures Taken(i, handSize) <= Taken(n, handSize)
    decreases n
  {
    if i < n {
      TakenMonotone(i, n - 1, handSize);
    }
  }

  /** The i-th block of `handSize` cards counted from the end of the deck. */
  function Block<C>(deck: seq<C>, handSize: nat, i: nat): seq<C>
    requires Taken(i + 1, handSize) <= |deck|
  {
    deck[|deck| - Taken(i + 1, handSize)..|deck| - Taken(i, handSize)]
  }

  /** When the deck is large enough, dealing to n players takes n full hands off the end of the deck,
      and the tavern deck keeps the front of the deck. */
  lemma {:induction false} DealTavernPrefix<C>(deck: seq<C>, handSize: nat, names: seq<string>)
    requires 0 < handSize && Taken(|names|, handSize) <= |deck|
    ensures Deal(deck, handSize, names).tavern == deck[..|deck| - Taken(|names|, handSize)]
    decreases |names|
  {
    if names != [] {
      var n := |names|;
      var init := names[..n - 1];
      assert |init| == n - 1;
      var cut := |deck| - Taken(n - 1, handSize);
      DealTavernPrefix(deck, handSize, init);
      var before := Deal(deck, handSize, init);
      assert before.tavern == deck[..cut];
      SliceParts(before.tavern, handSize);
      assert DropLast(before.tavern, handSize) == deck[..cut - handSize];
    }
  }

  /** When the deck is large enough, player i holds exactly the i-th block of `handSize` cards counted
      from the end of the deck. */
  lemma {:induction false} DealFullHands<C>(deck: seq<C>, handSize: nat, names: seq<string>, i: nat)
    requires 0 < handSize && Taken(|names|, handSize) <= |deck| && i < |names|
    ensures Taken(i + 1, handSize) <= |deck|
    ensures Deal(deck, handSize, names).players[i].hand.cards == Block(deck, handSize, i)
    decreases |names|
  {
    var n := |names|;
    var init := names[..n - 1];
    assert |init| == n - 1;
    TakenMonotone(i + 1, n, handSize);
    var before := Deal(deck, handSize, init);
    var d := Deal(deck, handSize, names);
    if i < n - 1 {
      DealFullHands(deck, handSize, init, i);
      assert d.players[i] == before.players[i];
    } else {
      DealTavernPrefix(deck, handSize, init);
      var cut := |deck| - Taken(n - 1, handSize);
      assert Taken(n, handSize) == Taken(n - 1, handSize) + handSize;
      SliceParts(before.tavern, handSize);
      SuffixOfPrefix(deck, cut, handSize);
    }
  }

  lemma SuffixOfPrefix<T>(xs: seq<T>, cut: nat, k: nat)
    requires k <= cut <= |xs|
    ensures xs[..cut][cut - k..] == xs[cut - k..cut]
  {
  }

  /** Python reads `[-0:]` as `[0:]`: with a hand size of 0 the first player takes the whole deck and
      every later player gets an empty hand. */
  lemma {:induction false} DealZeroHandSize<C>(deck: seq<C>, names: seq<string>)
    requires |names| > 0
    ensures Deal(deck, 0, names).players[0].hand.cards == deck
    ensures forall i :: 0 < i < |names| ==> Deal(deck, 0, names).players[i].hand.cards == []
    ensures Deal(deck, 0, names).tavern == []
    decreases |names|
  {
    if |names| > 1 {
      var init := names[..|names| - 1];
      DealZeroHandSize(deck, init);
      var before := Deal(deck, 0, init);
      var d := Deal(deck, 0, names);
      forall i | 0 <= i < |names| - 1
        ensures d.players[i] == before.players[i]
      {
      }
    }
  }
}
