/** The enemy tables that both versions of `Game` consult: `health_lookup` in `enemy_health` and
    `attack_lookup` in `enemy_attack`. A name outside the table is a KeyError in Python, None here. */
module Combat {
  import opened Wrappers
  import opened Suits
  import opened Cards

  /** The ranks an enemy can have. */
  const RoyalNames: set<string> := {"Jack", "Queen", "King"}

  /** `health_lookup`: an enemy's starting health. */
  function MaxHealth(name: string): (r: Option<int>)
    ensures r.Some? <==> name in RoyalNames
  {
    if name == "Jack" then Some(20)
    else if name == "Queen" then Some(30)
    else if name == "King" then Some(40)
    else None
  }

  /** `attack_lookup`: the damage an enemy deals before shields. */
  function Attack(name: string): (r: Option<int>)
    ensures r.Some? <==> name in RoyalNames
  {
    if name == "Jack" then Some(10)
    else if name == "Queen" then Some(15)
    else if name == "King" then Some(20)
    else None
  }

  /** The two tables agree with the card values: an enemy attacks with its own card's strength and
      starts with twice that much health. */
  lemma EnemyTablesMatchValues(enemy: Card)
    requires enemy.name in RoyalNames
    ensures Attack(enemy.name) == enemy.Value()
    ensures MaxHealth(enemy.name).value == 2 * Attack(enemy.name).value
    ensures 10 <= Attack(enemy.name).value <= 20
  {
  }
}
