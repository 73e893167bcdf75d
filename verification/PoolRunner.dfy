/** The handlers carry out runs: instruction by instruction the accounts are those of the run. */
module PoolRunner {
  import opened PoolRuns
  import opened Pools

  /** One action on the accounts: an instruction through its handler, or what other programs do. */
  method Perform(pool: Pool, a: Action, ghost h: History)
    requires pool.Valid() && pool.Now() == h.s && Possible(pool.env, h, a)
    modifies pool.Repr()
    ensures pool.Valid() && fresh(pool.Repr() - old(pool.Repr()))
    ensures pool.Now() == Step(pool.env, h, a).s
  {
    match a
    case DoShield(ix) =>
      var _ := pool.Shield(ix);
    case DoTransact(ix, _) =>
      var _ := pool.Transact(ix);
    case Outside(tokens) =>
      pool.tokens := tokens;
  }

  method PerformStep(pool: Pool, a: Action, ghost queries: set<seq<nat>>, ghost h: History, ghost h': History)
    requires pool.Valid() && pool.Now() == h.s && Leads(pool.env, queries, h, a, h')
    modifies pool.Repr()
    ensures pool.Valid() && fresh(pool.Repr() - old(pool.Repr()))
    ensures pool.Now() == h'.s
  {
    Perform(pool, a, h);
  }

  /** A whole run. */
  method PerformAll(pool: Pool, run: seq<Action>, ghost queries: set<seq<nat>>, ghost start: History, ghost h: History)
    requires pool.Valid() && pool.Now() == start.s && Extends(pool.env, queries, start, run, h)
    modifies pool.Repr()
    ensures pool.Valid() && fresh(pool.Repr() - old(pool.Repr()))
    ensures pool.Now() == h.s
    decreases |run|
  {
    if run != [] {
      var n := |run| - 1;
      ghost var before :| Extends(pool.env, queries, start, run[..n], before)
                          && Leads(pool.env, queries, before, run[n], h);
      PerformAll(pool, run[..n], queries, start, before);
      PerformStep(pool, run[n], queries, before, h);
    }
  }
}
