/** The announce table as the producer protocol uses it: a record is a plain map update that
    may be refused, a lookup a plain map read that may miss
    (include/sub0log/abi_host.hpp:354-424). */
module Registry {
  import opened Bytes
  import opened Wire
  import Announce
  import Producer

  /** The protocol's table names segments by index; the announce table by generation. */
  ghost predicate Stands(table: map<nat, nat>, gens: nat -> nat, m: map<nat, nat>) {
    table.Keys == m.Keys && forall id :: id in table ==> m[id] == gens(table[id])
  }

  /** Generations tell segments apart, and none is 0. */
  ghost predicate Telling(gens: nat -> nat) {
    (forall i: nat :: gens(i) != 0) && (forall i: nat, j: nat :: gens(i) == gens(j) ==> i == j)
  }

  /** A finished record is the protocol's kept announcement; a refused one leaves the map alone. */
  lemma RecordIsRemember(table: map<nat, nat>, gens: nat -> nat, m: map<nat, nat>, site: nat, seg: nat)
    requires Stands(table, gens, m)
    ensures Stands(table[site := seg], gens, m[site := gens(seg)])
  {}

  /** A plugin emit goes ahead on the table's answer exactly as the protocol's check says, with
      the answer 0 read as a miss. */
  lemma LookupIsDecide<Q, G>(w: Producer.World<Q, G>, gens: nat -> nat, m: map<nat, nat>, task: Producer.Task<Q>, answer: nat)
    requires Stands(w.table, gens, m) && Telling(gens) && task.call.Relay?
    requires answer == 0 || (task.call.site in m && m[task.call.site] == answer)
    ensures Producer.AfterDecide(w, task, answer != 0)
            == if answer == gens(task.seg) then Producer.Placing(task, false) else Producer.Dropping(task)
  {}

  /** After every step of every interleaving on the table, a lookup that finds something there
      would let through exactly the plugin emits the protocol lets through. */
  lemma TableServes<Q, G>(start: nat -> nat, ws: seq<Announce.Table>, steps: seq<Announce.Step>, n: nat,
                          w: Producer.World<Q, G>, gens: nat -> nat, task: Producer.Task<Q>)
    requires Announce.TableRun(start, ws, steps) && n < |ws| && task.call.Relay? && task.call.site != 0
    requires Stands(w.table, gens, Announce.MapAt(ws, steps, n)) && Telling(gens)
    ensures var answer := Announce.GenerationIn(ws[n].slots, task.call.site);
            Producer.AfterDecide(w, task, answer != 0)
            == if answer == gens(task.seg) then Producer.Placing(task, false) else Producer.Dropping(task)
  {
    hide Announce.GenerationIn, Announce.MapAt;
    Announce.TableIsAMap(start, ws, steps, n);
    var m := Announce.MapAt(ws, steps, n);
    var answer := Announce.GenerationIn(ws[n].slots, task.call.site);
    LookupIsDecide(w, gens, m, task, answer);
  }
}
