/** The work that is left for a set of numbered threads, as a sum over their stages. */
module Workload {
  /** The ranks of the threads below `bound`, added up. */
  function Load<V>(rank: V -> nat, threads: map<nat, V>, bound: nat): nat {
    if bound == 0 then 0
    else Load(rank, threads, bound - 1) + (if bound - 1 in threads then rank(threads[bound - 1]) else 0)
  }

  predicate Below<V>(threads: map<nat, V>, bound: nat) {
    forall t | t in threads :: t < bound
  }

  function RankOf<V>(rank: V -> nat, threads: map<nat, V>, t: nat): nat {
    if t in threads then rank(threads[t]) else 0
  }

  /** Two loads that differ in one thread differ by that thread's ranks. */
  lemma {:induction false} LoadChanges<V>(rank: V -> nat, a: map<nat, V>, b: map<nat, V>, t: nat, bound: nat)
    requires forall u: nat | u != t :: RankOf(rank, a, u) == RankOf(rank, b, u)
    ensures
      Load(rank, a, bound) + (if t < bound then RankOf(rank, b, t) else 0) ==
      Load(rank, b, bound) + (if t < bound then RankOf(rank, a, t) else 0)
  {
    if bound > 0 {
      LoadChanges(rank, a, b, t, bound - 1);
      assert bound - 1 != t ==> RankOf(rank, a, bound - 1) == RankOf(rank, b, bound - 1);
    }
  }

  lemma LoadPut<V>(rank: V -> nat, threads: map<nat, V>, t: nat, v: V, bound: nat)
    requires t < bound
    ensures Load(rank, threads[t := v], bound) + RankOf(rank, threads, t) == Load(rank, threads, bound) + rank(v)
  {
    LoadChanges(rank, threads, threads[t := v], t, bound);
  }

  lemma LoadRemoved<V>(rank: V -> nat, threads: map<nat, V>, t: nat, bound: nat)
    requires t < bound
    ensures Load(rank, threads - {t}, bound) + RankOf(rank, threads, t) == Load(rank, threads, bound)
  {
    LoadChanges(rank, threads, threads - {t}, t, bound);
  }

  /** There is a bound for any finite number of threads. */
  lemma {:induction false} BoundExists<V>(threads: map<nat, V>) returns (bound: nat)
    ensures Below(threads, bound)
    decreases |threads|
  {
    if threads == map[] {
      bound := 0;
    } else {
      var t: nat :| t in threads;
      var rest := BoundExists(threads - {t});
      bound := if t < rest then rest else t + 1;
      assert forall u | u in threads :: u == t || u in threads - {t};
    }
  }
}
