/** A property of one task, carried to all tasks of a node. */
module Lifting {

  /** The property holds of every task. */
  ghost predicate AllHold<C(!new), S(!new)>(holds: (C, S) -> bool, configs: map<string, C>, cells: map<string, S>)
  {
    cells.Keys == configs.Keys && forall id | id in cells :: holds(configs[id], cells[id])
  }

  lemma Replaced<C(!new), S(!new)>(
    holds: (C, S) -> bool, configs: map<string, C>, cells: map<string, S>, id: string, c: S)
    requires AllHold(holds, configs, cells) && id in cells && holds(configs[id], c)
    ensures AllHold(holds, configs, cells[id := c])
  {
  }

  /** A move of one task that keeps the property. */
  ghost predicate Keeps<E(!new), C(!new), S(!new)>(
    holds: (C, S) -> bool, guard: (E, string, S) -> bool, move: (E, string, S) -> S, env: E)
  {
    forall id, cfg, c :: guard(env, id, c) && holds(cfg, c) ==> holds(cfg, move(env, id, c))
  }

  function Moved<E, S>(move: (E, string, S) -> S, env: E, cells: map<string, S>): map<string, S>
  {
    map id | id in cells :: move(env, id, cells[id])
  }

  lemma AllMoved<E(!new), C(!new), S(!new)>(
    holds: (C, S) -> bool, guard: (E, string, S) -> bool, move: (E, string, S) -> S, env: E,
    configs: map<string, C>, cells: map<string, S>)
    requires AllHold(holds, configs, cells) && Keeps(holds, guard, move, env)
    requires forall id | id in cells :: guard(env, id, cells[id])
    ensures AllHold(holds, configs, Moved(move, env, cells))
  {
  }

  lemma AllAlike<C(!new), S(!new)>(holds: (C, S) -> bool, configs: map<string, C>, c: S)
    requires forall id | id in configs :: holds(configs[id], c)
    ensures AllHold(holds, configs, map id | id in configs :: c)
  {
  }
}
