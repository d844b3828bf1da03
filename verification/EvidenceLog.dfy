/** The assessment-evidence table and the query that reads the survivors of one learner and
    knowledge point in (created_at, id) order. */
module EvidenceLog {
  import opened Prelude
  import opened Replay
  import RowOrder

  type Id = RowOrder.Id

  datatype Pair = Pair(learner: nat, point: nat)

  datatype Evidence = Evidence(
    pair: Pair,
    attempt: Attempt,
    updates: bool,
    invalidatedAt: Option<real>,
    invalidationReason: Option<string>)

  type Table = map<Id, Evidence>

  predicate Survives(e: Evidence, pair: Pair) {
    e.pair == pair && e.updates && e.invalidatedAt.None?
  }

  function Surviving(table: Table, pair: Pair): set<Id> {
    set id | id in table && Survives(table[id], pair)
  }

  function Times(table: Table): RowOrder.Times {
    map id | id in table :: table[id].attempt.at
  }

  function Survivors(table: Table, pair: Pair): seq<Id> {
    RowOrder.Sorted(Times(table), Surviving(table, pair))
  }

  function Attempts(table: Table, ids: seq<Id>): (log: seq<Attempt>)
    requires forall i :: 0 <= i < |ids| ==> ids[i] in table
    ensures |log| == |ids|
  {
    seq(|ids|, i requires 0 <= i < |ids| => table[ids[i]].attempt)
  }

  lemma SurvivorsInTable(table: Table, pair: Pair)
    ensures forall i :: 0 <= i < |Survivors(table, pair)| ==>
      && Survivors(table, pair)[i] in table
      && Survives(table[Survivors(table, pair)[i]], pair)
    ensures |Survivors(table, pair)| == |Surviving(table, pair)|
    ensures Survivors(table, pair) == [] <==> Surviving(table, pair) == {}
  {
    RowOrder.SortedOrder(Times(table), Surviving(table, pair));
  }

  /** The attempts replayed for a pair. */
  function Log(table: Table, pair: Pair): seq<Attempt> {
    SurvivorsInTable(table, pair);
    Attempts(table, Survivors(table, pair))
  }

  /** The attempts of a set of rows, in row order. */
  function LogOf(table: Table, ids: set<Id>): (log: seq<Attempt>)
    requires ids <= table.Keys
    ensures log == [] <==> ids == {}
  {
    RowOrder.SortedOrder(Times(table), ids);
    Attempts(table, RowOrder.Sorted(Times(table), ids))
  }

  lemma LogOfFacts(t: Table, u: Table, ids: set<Id>)
    requires ids <= t.Keys && ids <= u.Keys && forall id :: id in ids ==> t[id].attempt == u[id].attempt
    ensures LogOf(t, ids) == LogOf(u, ids)
  {
    RowOrder.SortedStable(Times(t), Times(u), ids);
    RowOrder.SortedOrder(Times(t), ids);
  }

  /** Two tables with the same survivors and the same attempts replay the same log. */
  lemma LogStable(t: Table, u: Table, pair: Pair)
    requires Surviving(t, pair) == Surviving(u, pair)
    requires forall id :: id in Surviving(t, pair) ==> t[id].attempt == u[id].attempt
    ensures Survivors(t, pair) == Survivors(u, pair)
    ensures Log(t, pair) == Log(u, pair)
  {
    RowOrder.SortedStable(Times(t), Times(u), Surviving(t, pair));
    SurvivorsInTable(t, pair);
  }

  lemma OneSurvivor(table: Table, pair: Pair, id: Id)
    requires Surviving(table, pair) == {id}
    ensures Survivors(table, pair) == [id] && Log(table, pair) == [table[id].attempt]
  {
    RowOrder.SortedSingle(Times(table), id);
  }
}
