// Loopback push receivers shared between concurrent calls: src/llm_harness/a2a_push.py:161-200.
// A receiver is known by a number of its own; its inbox goes by the same number. Each entry and each
// exit holds the module's lock throughout, so a run is a sequence of them in any order.

module ManagedReceivers {
  import opened Prelude

  datatype Key = Key(host: string, port: int, path: string, tokenEnv: string)

  /** `table` is the module's dictionary, `references` the counts of its entries' objects, and `running`
      the receivers that have been started and not stopped. */
  datatype Pool = Pool(table: map<Key, nat>, references: map<nat, int>, running: set<nat>, next: nat)

  /** An entry: `starts` tells whether a receiver, if one has to be started, does start. */
  function Entered(pool: Pool, key: Key, starts: bool): Pool {
    if key in pool.table then
      var id := pool.table[key];
      pool.(references := pool.references[id := Count(pool, id) + 1])
    else if starts then
      Pool(pool.table[key := pool.next], pool.references[pool.next := 1], pool.running + {pool.next}, pool.next + 1)
    else pool
  }

  function Handle(pool: Pool, key: Key, starts: bool): Option<nat> {
    if key in pool.table then Some(pool.table[key]) else if starts then Some(pool.next) else None
  }

  function Count(pool: Pool, id: nat): int {
    if id in pool.references then pool.references[id] else 0
  }

  function Left(pool: Pool, key: Key, id: nat): Pool {
    var count := Count(pool, id) - 1;
    var fewer := pool.references[id := count];
    if count == 0 then Pool(pool.table - {key}, fewer, pool.running - {id}, pool.next)
    else pool.(references := fewer)
  }

  /** The module's state and the two ends of `managed_loopback_push_receiver`. */
  class Receivers {
    var table: map<Key, nat>
    var references: map<nat, int>
    var running: set<nat>
    var next: nat

    ghost function Contents(): Pool
      reads this
    {
      Pool(table, references, running, next)
    }

    constructor ()
      ensures Contents() == Pool(map[], map[], {}, 0)
    {
      table, references, running, next := map[], map[], {}, 0;
    }

    method Enter(key: Key, starts: bool) returns (inbox: Option<nat>)
      modifies this
      ensures Contents() == Entered(old(Contents()), key, starts)
      ensures inbox == Handle(old(Contents()), key, starts)
    {
      if key !in table {
        if !starts {
          return None;
        }
        table, references, running := table[key := next], references[next := 0], running + {next};
        next := next + 1;
      }
      var id := table[key];
      references := references[id := (if id in references then references[id] else 0) + 1];
      return Some(id);
    }

    method Leave(key: Key, id: nat)
      modifies this
      ensures Contents() == Left(old(Contents()), key, id)
    {
      references := references[id := (if id in references then references[id] else 0) - 1];
      if references[id] == 0 {
        table, running := table - {key}, running - {id};
      }
    }
  }
}
