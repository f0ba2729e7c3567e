/** The turn order of `play_turn` in both versions: `current_player_id` moves on by one modulo the
    number of players at the start of every turn. */
module Turns {

  /** `(current_player_id + 1) % number_of_players`; Python's `%` agrees with Dafny's for a positive divisor. */
  function NextPlayerId(id: int, players: int): (r: int)
    requires players > 0
    ensures 0 <= r < players
    ensures 0 <= id < players - 1 ==> r == id + 1
    ensures id == players - 1 ==> r == 0
  {
    (id + 1) % players
  }

  /** The player id after `turns` calls of `play_turn`. */
  function IdAfter(id: int, players: int, turns: nat): int
    requires players > 0
    decreases turns
  {
    if turns == 0 then id else NextPlayerId(IdAfter(id, players, turns - 1), players)
  }

  /** The ids of `count` consecutive turns, from turn `start` on. */
  function Schedule(id: int, players: int, start: nat, count: nat): (s: seq<int>)
    requires players > 0
  {
    seq(count, j requires 0 <= j < count => IdAfter(id, players, start + j))
  }

  lemma MulAtLeast(a: int, n: int)
    requires a >= 1 && n > 0
    ensures a * n >= n
  {
    assert a * n == (a - 1) * n + n;
  }

  /** Euclidean division is unique: q * n + r with 0 <= r < n leaves remainder r. */
  lemma ModUnique(q: int, r: int, n: int)
    requires n > 0 && 0 <= r < n
    ensures (q * n + r) % n == r
  {
    var x := q * n + r;
    var q', r' := x / n, x % n;
    assert x == q' * n + r';
    assert (q' - q) * n == r - r';
    if q' - q >= 1 {
      MulAtLeast(q' - q, n);
    } else if q - q' >= 1 {
      MulAtLeast(q - q', n);
    }
  }

  /** One more step round the table: the remainder goes up by one and wraps from n - 1 to 0. */
  lemma ModStep(x: int, n: int)
    requires n > 0
    ensures (x + 1) % n == if x % n == n - 1 then 0 else x % n + 1
  {
    var q, r := x / n, x % n;
    assert x == q * n + r;
    if r == n - 1 {
      assert x + 1 == (q + 1) * n + 0;
      ModUnique(q + 1, 0, n);
    } else {
      assert x + 1 == q * n + (r + 1);
      ModUnique(q, r + 1, n);
    }
  }

  /** After k turns the id is the starting id plus k, wrapped round the table. */
  lemma {:induction false} IdAfterWraps(id: int, players: int, turns: nat)
    requires 0 <= id < players
    ensures IdAfter(id, players, turns) == (id + turns) % players
    decreases turns
  {
    if turns > 0 {
      IdAfterWraps(id, players, turns - 1);
      ModStep(id + turns - 1, players);
    }
  }

  /** Starting from `base`, the offset `(p - base) % n` reaches seat p. */
  lemma ModShift(base: int, p: int, n: int)
    requires n > 0 && 0 <= p < n
    ensures 0 <= (p - base) % n < n && (base + (p - base) % n) % n == p
  {
    var j := (p - base) % n;
    var q := (p - base) / n;
    assert p - base == q * n + j;
    assert base + j == (-q) * n + p;
    ModUnique(-q, p, n);
  }

  lemma ModDistinct(a: int, b: int, players: int)
    requires players > 0 && a < b < a + players
    ensures a % players != b % players
  {
    var qa, qb := a / players, b / players;
    assert a == qa * players + a % players;
    assert b == qb * players + b % players;
    if a % players == b % players {
      assert b - a == (qb - qa) * players;
      if qb - qa >= 1 {
        MulAtLeast(qb - qa, players);
      } else if qa - qb >= 1 {
        MulAtLeast(qa - qb, players);
      }
    }
  }

  /** The ids of any `players` consecutive turns are all different. */
  lemma RoundDistinct(id: int, players: int, start: nat)
    requires 0 <= id < players
    ensures forall j, k :: 0 <= j < k < players ==>
              Schedule(id, players, start, players)[j] != Schedule(id, players, start, players)[k]
  {
    var s := Schedule(id, players, start, players);
    forall j, k | 0 <= j < k < players
      ensures s[j] != s[k]
    {
      IdAfterWraps(id, players, start + j);
      IdAfterWraps(id, players, start + k);
      ModDistinct(id + start + j, id + start + k, players);
    }
  }

  /** Every player acts within any `players` consecutive turns; with RoundDistinct, exactly once. */
  lemma RoundCovers(id: int, players: int, start: nat)
    requires 0 <= id < players
    ensures forall p :: 0 <= p < players ==> p in Schedule(id, players, start, players)
  {
    var s := Schedule(id, players, start, players);
    forall p | 0 <= p < players
      ensures p in s
    {
      var j := (p - (id + start)) % players;
      ModShift(id + start, p, players);
      IdAfterWraps(id, players, start + j);
      assert s[j] == p;
    }
  }

  lemma ModAddPeriod(x: int, n: int)
    requires n > 0
    ensures (x + n) % n == x % n
  {
    var q, r := x / n, x % n;
    assert x == q * n + r;
    assert x + n == (q + 1) * n + r;
    ModUnique(q + 1, r, n);
  }

  lemma IdAfterPeriodic(id: int, players: int, turns: nat)
    requires 0 <= id < players
    ensures IdAfter(id, players, turns + players) == IdAfter(id, players, turns)
  {
    IdAfterWraps(id, players, turns);
    IdAfterWraps(id, players, turns + players);
    ModAddPeriod(id + turns, players);
  }

  /** The next round repeats the order of this one. */
  lemma RoundRepeats(id: int, players: int, start: nat)
    requires 0 <= id < players
    ensures Schedule(id, players, start + players, players) == Schedule(id, players, start, players)
  {
    forall j | 0 <= j < players
      ensures Schedule(id, players, start + players, players)[j] == Schedule(id, players, start, players)[j]
    {
      IdAfterPeriodic(id, players, start + j);
      assert start + players + j == (start + j) + players;
    }
  }
}
