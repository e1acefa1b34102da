/** The identifier map the migration uses to give every MongoDB document id
    an integer id in its SQL table. Its implementation (`./id-map`) is not
    part of this model: this class is a stand-in whose contract is the one
    the migration relies on, and nothing more. `next` gives an id not given
    out before for the same table and records it for the document id;
    `get` returns the id last recorded for a document id. */
module IdMaps {

  import opened Wrappers
  import opened Js

  class IdMap {
    /** The id last recorded for each document id. */
    var ids: map<Value, int>
    /** The ids given out so far, per table. */
    var issued: map<string, set<int>>
    /** The stand-in's own state: the last id given out, per table. */
    var counters: map<string, nat>

    /** Every id given out for a table is at most that table's counter. */
    ghost predicate Valid()
      reads this
    {
      forall t :: t in issued ==> t in counters && forall i :: i in issued[t] ==> i <= counters[t]
    }

    /** An empty map. */
    constructor()
      ensures Valid()
      ensures ids == map[] && issued == map[]
    {
      ids := map[];
      issued := map[];
      counters := map[];
    }

    /** The ids given out so far for `table`. */
    function Issued(table: string): set<int>
      reads this
    {
      if table in issued then issued[table] else {}
    }

    /** `idMap.next(src, table)`: an id new to `table`, recorded for `src`. */
    method Next(src: Value, table: string) returns (id: int)
      requires Valid()
      modifies this
      ensures Valid()
      ensures id !in old(Issued(table))
      ensures ids == old(ids)[src := id]
      ensures issued == old(issued)[table := old(Issued(table)) + {id}]
    {
      var n := (if table in counters then counters[table] else 0) + 1;
      counters := counters[table := n];
      issued := issued[table := Issued(table) + {n}];
      ids := ids[src := n];
      id := n;
    }

    /** `idMap.get(src)`: the id recorded for `src`, or `undefined`. */
    function Get(src: Value): (r: Option<int>)
      reads this
      ensures r.Some? <==> src in ids
      ensures r.Some? ==> r.value == ids[src]
    {
      if src in ids then Some(ids[src]) else None
    }
  }
}
