# Regicide card game engine — a Dafny model

This project models the rule logic of a small Python engine for Regicide, a cooperative card game. The
players defeat twelve royal enemies (Jacks, Queens and Kings) by playing cards from their hands. The
repository holds two versions of the engine, and both are modelled:

- **The later version** is `regicidecardgame/main.py` with `regicidecardgame/DataStructures.py`.
  - A card is a suit and a rank name; its `value` property looks up the name (modules `Cards` and `Suits`).
  - `Game.calculate_play` resolves a selection of cards against the current enemy (module `Resolver`):
    - it tries a combo first, then a companion play, then a single card, and otherwise the play is illegal;
    - a play yields damage, shield, effect and the set of effect suits.
  - The `Game` object (module `Regicide`):
    - it deals the opening hands off the end of the tavern deck and draws the first enemy from the castle deck;
    - it answers the enemy's health, attack and active shield;
    - it moves the turn round the table.
  - `setup` and the two deck generators are also in `Regicide`.
- **The earlier version** is `main.py` at the repository root (module `Earlier`).
  - Its card stores a value filled in by `get_value`.
  - Its `can_combo` has no length check.
  - Its `combo` adds up damage, shield and effect card by card.
  - Its `Game` object deals, draws and rotates as the later one does.

Shared pieces:

- `Dealing` holds the dealing loop both constructors run.
- `Turns` holds the round-robin turn order both `play_turn`s apply.
- `Combat` holds the enemy health and attack tables.
- `PyLists` holds the few Python list idioms the code relies on: `set(xs)`, `xs[-k:]` and `xs[:-k]`.
- `Versions` relates the two resolvers. They add up values the same way. The earlier combo never deals more
  damage than the later one. Their shields agree exactly when a Spade is active or the cards are worth nothing.

Python exceptions are modelled as results rather than crashes:

- A resolver result is `Resolved(play)`, `Illegal` (Python's `False`) or `Fault`.
- `Fault` stands for a card without a value reaching the arithmetic.
- A read-out whose dictionary lookup or list index would raise returns `None`.
- `play_turn` at a table without players reports `ok == false` instead of dividing by zero.

## Model

Some functions model source code directly but compute without a contract of their own. The lemmas in the
table specify them:

- `Cards.Card.Value` models `Card.value` and is specified by `Cards.ValueDomain` and `Cards.RankValues`.
- `Resolver.SumValues` models `sum(values)` and is specified by `Resolver.SumValuesDefined` and
  `Resolver.SumValuesBounds`.
- `Resolver.ActiveSuits` models the suits `combo` collects and is specified by `Resolver.ActiveSuitsMeans`.
- `Earlier.HealingSuits` models the earlier `effect_type` list. It is specified by
  `Earlier.HealingSuitsSound`, `Earlier.HealingSuitsCount`, `Earlier.HealingSuitsOne` and
  `Earlier.HealingSuitsAppend`.
- `Earlier.ClubsBonus` models the earlier extra Clubs damage and is specified by `Earlier.ClubsBonusBounds`.

| member | source | states |
|---|---|---|
| Cards.DecimalValue | regicidecardgame/DataStructures.py:19-20 | `int(name)` of a digit string is not negative, and a one-digit name is its own digit |
| Cards.ValueDomain | regicidecardgame/DataStructures.py:16-30 | a card has a value exactly when its name is one the `match` lists (names outside the list fall through to None), and every value lies in 0..20 |
| Cards.RankValues | regicidecardgame/DataStructures.py:18-30 | "2".."10" are worth their face value, Ace 1, Jack 10, Queen 15, King 20 and Jester 0, in every suit |
| Cards.ValueIgnoresSuit | regicidecardgame/DataStructures.py:16-30 | two cards with the same name have the same value, whatever their suits |
| PyLists.SingleDistinct | regicidecardgame/main.py:79 | `len(set(names)) == 1` holds exactly when the list is non-empty and all its names are equal |
| PyLists.SliceIndex | regicidecardgame/main.py:19 | a negative slice bound counts from the end and every bound is clipped to the list |
| PyLists.SliceParts | regicidecardgame/main.py:19 | `xs[:-k] + xs[-k:]` is `xs`; for 0 < k the second part is the last k cards (all when the list is shorter); for k == 0 it is the whole list |
| Dealing.Deal | regicidecardgame/main.py:17-20 | dealing creates one player per name |
| Dealing.DealKeepsNames | regicidecardgame/main.py:18-20 | player i is created under the i-th name, in order |
| Dealing.DealStep | regicidecardgame/main.py:19-20 | dealing one more player moves the last `hand_size` tavern cards into that player's hand and leaves the rest as the tavern deck |
| Dealing.DealConserves | regicidecardgame/main.py:17-20 | the remaining tavern deck followed by the hands (last player first) is the original deck: no card is lost or invented |
| Dealing.DealTavernPrefix | regicidecardgame/main.py:17-20 | with enough cards, the tavern deck keeps the front of the deck, shortened by one full hand per player |
| Dealing.DealFullHands | regicidecardgame/main.py:17-20 | with enough cards, player i holds exactly the i-th block of `hand_size` cards counted from the end of the deck |
| Dealing.DealZeroHandSize | regicidecardgame/main.py:19 | with hand size 0 Python's `[-0:]` gives the first player the whole deck and every later player nothing |
| Turns.NextPlayerId | regicidecardgame/main.py:119 | the next id stays in 0..n-1, goes up by one, and wraps from the last player to 0 |
| Turns.IdAfterWraps | regicidecardgame/main.py:119 | after k turns the current id is the starting id plus k, modulo the number of players |
| Turns.RoundDistinct | regicidecardgame/main.py:119 | any n consecutive turns go to n different players |
| Turns.RoundCovers | regicidecardgame/main.py:119 | every player acts within any n consecutive turns |
| Turns.IdAfterPeriodic | regicidecardgame/main.py:119 | the turn order repeats after n turns |
| Turns.RoundRepeats | regicidecardgame/main.py:119 | each round of n turns repeats the order of the previous round |
| Combat.MaxHealth | regicidecardgame/main.py:38-43 | an enemy has a starting health exactly when it is a Jack, Queen or King |
| Combat.Attack | regicidecardgame/main.py:46-51 | an enemy has an attack exactly when it is a Jack, Queen or King |
| Combat.EnemyTablesMatchValues | regicidecardgame/main.py:37-51 | an enemy attacks with its own card value, 10 to 20, and starts with twice that health |
| Resolver.SumValuesBounds | regicidecardgame/main.py:78-79 | a value sum lies between 0 and 20 per card |
| Resolver.SumValuesDefined | regicidecardgame/main.py:78-79 | `sum(values)` succeeds exactly when every card has a value |
| Resolver.CanCombo | regicidecardgame/main.py:76-79 | a combo is more than one card, all of one name, worth at most 10 together; the sum raises exactly when such cards include one without a value |
| Resolver.CanCompanion | regicidecardgame/main.py:109-111 | a companion play is exactly two cards, at least one an Ace |
| Resolver.ActiveSuitsMeans | regicidecardgame/main.py:89-96 | the collected effect suits are exactly the played suits that differ from the enemy's suit |
| Resolver.ComboPlay | regicidecardgame/main.py:82-106 | a combo is scored exactly when every card has a value |
| Resolver.ComboRules | regicidecardgame/main.py:82-106 | damage is the value sum, doubled iff a Club is active; shield is the undoubled sum iff a Spade is active; effect is the final damage iff a Diamond or Heart is active; effect types are the active suits other than Spades, Clubs included |
| Resolver.Combo | regicidecardgame/main.py:82-106 | the accumulating loop, the set conversion and the Spades removal compute exactly the combo score, or fail on the first card without a value |
| Resolver.SinglePlay | regicidecardgame/main.py:64-73 | a single card resolves exactly when it has a value and faults otherwise, never illegal; it deals double its value iff it is a Club against a non-Club enemy; shields its value iff it is a Spade, whatever the enemy; heals its value with its suit as the one effect type iff it is a Diamond or Heart unlike the enemy |
| Resolver.CalculatePlay | regicidecardgame/main.py:57-73 | combo is tried first, then companion (scored as a combo), then a single card; a play is illegal exactly when it is not one card, not a companion and not a combo; the empty play is illegal; a `can_combo` whose sum raises makes the play fault; a fault means an unvalued card |
| Resolver.ComboCapped | regicidecardgame/main.py:57-60 | a combo is worth at most 10 before doubling, so it resolves with at most 20 damage and 10 shield |
| Resolver.TwoAcesAreCombo | regicidecardgame/main.py:57-62 | two Aces pass both tests and are scored by the combo branch, which is tried first |
| Resolver.CompanionIgnoresCap | regicidecardgame/main.py:108-115 | an Ace with a card of another rank is no combo but plays as a companion scored like a combo, whatever their total |
| Resolver.ShieldBeforeDoubling | regicidecardgame/main.py:97-101 | with an active Spade and an active Club the damage is twice the shield |
| Resolver.SingleVersusOneCardCombo | regicidecardgame/main.py:67-71 | a single card deals and heals what a one-card combo would; it never lists Clubs as an effect type; its shield differs only for a Spade against a Spade enemy |
| Regicide.Game.constructor | regicidecardgame/main.py:8-32 | the game holds the dealt hands and the remaining tavern deck; the first enemy is the castle deck's last card, popped off; damage, shield and the discard pile start empty; player 0 begins |
| Regicide.Game.CurrentPlayer | regicidecardgame/main.py:34-35 | the player at the current id, present exactly when there are players |
| Regicide.Game.EnemyHealth | regicidecardgame/main.py:37-43 | starting health less the damage dealt, negative once the damage exceeds it; none for a non-royal enemy |
| Regicide.Game.EnemyAttack | regicidecardgame/main.py:45-51 | the enemy's attack is its own card value, 10 to 20; none for a non-royal enemy |
| Regicide.Game.ActiveShield | regicidecardgame/main.py:53-54 | the accumulated shield, or 0 against a Spade enemy |
| Regicide.Game.PlayTurn | regicidecardgame/main.py:117-122 | the current id moves to the next player modulo the player count; nothing else changes |
| Regicide.Shuffle | regicidecardgame/main.py:216-220 | a shuffle returns the same cards in some order |
| Regicide.GenerateCastleDeck | regicidecardgame/main.py:205-222 | the castle deck is the twelve royals; unshuffled it is four Kings, then four Queens, then four Jacks, each block in some suit order, so the last card is a Jack |
| Regicide.CastleRoyal | regicidecardgame/main.py:205-222 | every card of a castle deck is a Jack, a Queen or a King |
| Regicide.TavernCards | regicidecardgame/main.py:226-229 | the comprehension yields forty cards |
| Regicide.TavernValues | regicidecardgame/main.py:226-229 | every tavern card is worth 1 to 10, and none of them is a royal |
| Regicide.GenerateTavernDeck | regicidecardgame/main.py:224-233 | the tavern deck is the forty cards in some order |
| Regicide.HandSizeLookup | regicidecardgame/main.py:239-244 | the table covers exactly 1 to 4 players, and hand size plus player count is 9 |
| Regicide.SetupDeal | regicidecardgame/main.py:259-265 | dealing two or three players from the full tavern deck gives each a full hand under their own name, loses no card and leaves 40 minus the dealt cards |
| Regicide.Setup | regicidecardgame/main.py:235-265 | only 2 or 3 players are accepted; the hand size is 7 or 6; hands and tavern are the forty tavern cards; eleven enemies remain after a royal is drawn, a Jack when the castle is not reshuffled; the remaining castle cards and the drawn enemy are the twelve royals |
| Earlier.GetValue | main.py:176-189 | `get_value` is defined exactly for the listed names, with values in 0..20 |
| Earlier.GetValueIsCardValue | main.py:176-189 | `get_value` is the later `Card.value` table, name for name |
| Earlier.SumValues | main.py:112-113 | `sum(values)` succeeds exactly when every card has a value |
| Earlier.CanCombo | main.py:110-113 | a combo is a non-empty selection, all of one name, worth at most 10, with no length check; the sum raises exactly when such cards include one without a value |
| Earlier.CanCompanion | main.py:138-140 | a companion play is exactly two cards, at least one named "Ace" |
| Earlier.HealingSuitsSound | main.py:132-133 | every appended suit is a Heart or Diamond unlike the enemy, and the list is no longer than the cards |
| Earlier.HealingSuitsCount | main.py:132-133 | nothing is dropped: each suit occurs in the list exactly as often as there are cards of that suit that are Hearts or Diamonds unlike the enemy |
| Earlier.HealingSuitsOne | main.py:132-133 | one card adds its suit exactly when it is a Heart or Diamond unlike the enemy |
| Earlier.HealingSuitsAppend | main.py:123-133 | the list keeps card order: the suits of two runs of cards are those of the first run followed by those of the second |
| Earlier.ComboPlay | main.py:116-135 | shield and effect are the value sum for every suit; damage is the sum plus each Club's value again when the enemy is not a Club; effect types are the healing suits in card order, repeats kept |
| Earlier.Combo | main.py:116-135 | the per-card accumulating loop computes exactly that score, or fails on a card without a value |
| Earlier.SinglePlay | main.py:98-107 | a single card resolves exactly when it has a value and faults otherwise, never illegal; the later single-card rule, except that a healing suit is reported bare rather than in a list |
| Earlier.CalculatePlay | main.py:91-107 | combo, then companion, then single card, else illegal; every combo, of one card or of many, and every companion play is scored by the combo rule; a `can_combo` whose sum raises makes the play fault; one card worth at most 10 takes the combo path; only cards worth more reach the single-card rule; a lone unvalued card faults |
| Earlier.ClubsBonusBounds | main.py:129-130 | the extra Clubs damage lies between 0 and the sum; it is 0 without a Club unlike the enemy and the whole sum when every card is such a Club |
| Earlier.Game.constructor | main.py:42-66 | the same dealing, first-enemy pop and zeroed state as the later constructor |
| Earlier.Game.CurrentPlayer | main.py:68-69 | the player at the current id, present exactly when there are players |
| Earlier.Game.EnemyHealth | main.py:71-77 | starting health less the damage dealt, unclamped; none for a non-royal enemy |
| Earlier.Game.EnemyAttack | main.py:79-85 | the attack equals `get_value` of the enemy's name, 10 to 20 |
| Earlier.Game.ActiveShield | main.py:87-88 | the accumulated shield, or 0 against a Spade enemy |
| Earlier.Game.PlayTurn | main.py:146-151 | the current id moves to the next player modulo the player count |
| Earlier.TavernCardsFrom | main.py:215 | the comprehension yields four cards per name |
| Earlier.TavernCardsFromContents | main.py:215 | every generated card carries one of the names and `get_value` of its name as its value, and every name comes in every suit |
| Earlier.AsWrittenOnesFault | main.py:210-219 | with the names as written the four "1" cards have no value, each faults when played alone, and no tavern card is an Ace |
| Earlier.TavernPlaysResolve | main.py:210-219 | with the Ace named "Ace" every tavern card is worth 1 to 10 and resolves when played alone |
| Versions.SumsAgree | main.py:112-113 | on cards valued by `get_value` both versions compute the same value sum and fail on the same cards |
| Versions.ConsistentBonus | main.py:129-130 | the earlier Clubs bonus is 0 wherever the later rule sees no active Club, never exceeds the sum, and is the whole sum when every card is a Club against a non-Club enemy |
| Versions.EarlierDamageAtMostLater | main.py:116-135 | the earlier combo never deals more damage than the later one; they agree when no Club is active or every card is a Club against a non-Club enemy |
| Versions.ShieldsAgreeOnlyWithSpades | main.py:126 | the earlier combo always shields the sum; the two shields agree exactly when a Spade is active or the sum is 0 |
| Versions.MixedFivesEarlier | main.py:91-135 | a five of Clubs and a five of Hearts against a Spade King deal 15, shield 10 and heal 10 in the earlier version |
| Versions.MixedFivesLater | regicidecardgame/main.py:57-106 | the same two fives deal 20, shield nothing and heal 20 in the later version, with Clubs and Hearts as effect types |
| Versions.OneCardDamageAgrees | main.py:90-107 | a lone valued card deals the same damage in both versions; when worth at most 10 the earlier version also shields and heals by its value |

## Left out

- `TerminalDisplay` in both files is not modelled: board printing, the `input()` loop and parsing the
  selected indices. Its range check does not reject a repeated index; that is not modelled either.
- The `__main__` loops are not modelled. They never end, because nothing sets `is_finished`.
- `play_turn` adds no damage or shield, moves no card and detects no defeat, and the model claims none of this.
  Health is not clamped and nothing resets the shield.
- Regicide.Game.PlayTurn: the re-draw under `if not self.current_enemy` is left out, because a card
  object is always truthy. The display call at the end is I/O.
- Earlier.Game.PlayTurn: as above, the re-draw branch is dead and the display call is I/O.
- Regicide.Game.constructor requires a non-empty castle deck: `pop()` on an empty list raises
  IndexError, and that error path is not modelled. The same holds for Earlier.Game.constructor.
- Regicide.Game.constructor does not model list aliasing. Python keeps the caller's castle list and pops it
  in place; here the game holds its own copy.
- Resolver.CalculatePlay merges two Python outcomes into `Fault`. The first is a TypeError from a value-less
  card in a sum or a doubling. The second is a single unvalued card returning a tuple that holds None.
- Earlier.CalculatePlay has only the first of those two outcomes. A lone card always passes through
  `can_combo` first, and `sum([None])` raises there, so its `Fault` is always that TypeError.
- Resolver.Combo returns the effect types as a set. Python returns `list(set(...))`, whose order is
  unspecified, so the order is not modelled.
- Regicide.Shuffle is any permutation. Randomness is not modelled.
- Regicide.GenerateTavernDeck takes no Jester count. `setup` always passes 0, and a positive count would
  append bare `'Jester'` strings rather than cards. Jesters are modelled only as a value of 0.
- Regicide.Setup returns None for a player count outside 2..3. Python's `raise NotImplemented` raises there,
  as a TypeError, because `NotImplemented` is not an exception class.
- `generate_castle_deck`, `generate_tavern_deck` and `setup` of main.py are modelled only through
  Earlier.TavernCardsFrom. The tavern names as written are covered under Findings. The other two mirror
  the later functions, with the stored value filled in by `get_value`.
- `Card.__repr__`, `Hand.__repr__` and `Player.__repr__` are string formatting and are not modelled.

## Findings

| source | as written | input that shows it | evidently intended | confidence | as-written member | corrected member |
|---|---|---|---|---|---|---|
| main.py:213-215 | the earlier tavern deck names its lowest rank "1", which `get_value` does not know, so those four cards carry no value | playing any "1" card alone: `can_combo` sums `[None]` and raises; and since no card is named "Ace", no two cards are ever a companion play | the rank is named "Ace", as the later deck has it (regicidecardgame/main.py:227), so it is worth 1 | not executed | Earlier.AsWrittenOnesFault | Earlier.TavernPlaysResolve |
