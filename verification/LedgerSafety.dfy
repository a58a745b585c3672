/** What every interleaving of the ledger's steps keeps, and what follows for
    quotas, forwarding and shutdown. */
module LedgerSafety {
  import opened Basics
  import opened Identity
  import opened Calendars
  import opened Meters
  import opened TrafficLedger

  // ---- committing a charge ----

  lemma CommitHeld(cal: Calendar, s: Ledger, c: Charge, m: Meter)
    ensures Held(cal, Commits(cal, s, c), m) == Held(cal, s, m) + Weigh(m, ChargeKey(cal, c), c.tx, c.rx)
  {
    var k := ChargeKey(cal, c);
    BatchSumPut(m, s.pending, k, Accrue(s.pending, k, c));
    if k in s.pending {
      WeighAdds(m, k, s.pending[k].tx, s.pending[k].rx, c.tx, c.rx);
    }
    assert InFlight(Commits(cal, s, c)) == InFlight(s);
  }

  lemma CommitFiled(cal: Calendar, s: Ledger, c: Charge)
    requires WellFiled(cal, s.pending) && c.now > 0
    ensures WellFiled(cal, Commits(cal, s, c).pending)
  {
  }

  lemma WordAdd(a: int, b: int)
    ensures (a % WORD + b) % WORD == (a + b) % WORD
  {
  }

  lemma CommitRoute(cal: Calendar, s: Ledger, c: Charge, id: RouteID, d: Direction)
    ensures RouteSum(id, d, Commits(cal, s, c).pending)
         == RouteSum(id, d, s.pending) + if id == c.id then Bytes(d, c.tx, c.rx) else 0
  {
    var k := ChargeKey(cal, c);
    BatchSumPut(Meter(Route(id), d), s.pending, k, Accrue(s.pending, k, c));
    if k in s.pending {
      WeighAdds(Meter(Route(id), d), k, s.pending[k].tx, s.pending[k].rx, c.tx, c.rx);
    }
  }

  lemma CommitDeltas(cal: Calendar, s: Ledger, c: Charge, id: RouteID)
    requires DeltasExact(s, id)
    ensures DeltasExact(Commits(cal, s, c), id)
  {
    CommitRoute(cal, s, c, id, Tx);
    CommitRoute(cal, s, c, id, Rx);
    WordAdd(RouteSum(id, Tx, s.pending), c.tx);
    WordAdd(RouteSum(id, Rx, s.pending), c.rx);
  }

  lemma CommitBalanced(cal: Calendar, origin: seq<Row>, s: Ledger, c: Charge)
    requires Balanced(cal, origin, s)
    ensures Balanced(cal, origin, Commits(cal, s, c))
  {
    var s' := Commits(cal, s, c);
    forall m ensures Conserves(cal, origin, s', m) {
      assert Conserves(cal, origin, s, m);
      CommitHeld(cal, s, c, m);
      EventSumAppend(m, s.history, s'.history[|s.history|]);
    }
  }

  lemma CommitCached(cal: Calendar, s: Ledger, c: Charge)
    requires CachesExact(cal, s) && s.month == Some(cal.month(c.now))
    ensures CachesExact(cal, Commits(cal, s, c))
  {
    forall u ensures CacheExact(cal, Commits(cal, s, c), u) {
      assert CacheExact(cal, s, u);
      CommitHeld(cal, s, c, Meter(UserMonth(u, s.month.value), Both));
    }
  }

  /** A load in progress depends only on what it has read and on the log. */
  lemma SameLoad(cal: Calendar, s: Ledger, s': Ledger)
    requires LoadsExact(cal, s) && s'.holder == s.holder && s'.log == s.log
    ensures LoadsExact(cal, s')
  {
    forall u ensures LoadExact(cal, s', u) {
      assert LoadExact(cal, s, u);
    }
  }

  lemma CommitAllDeltas(cal: Calendar, s: Ledger, c: Charge)
    requires AllDeltasExact(s)
    ensures AllDeltasExact(Commits(cal, s, c))
  {
    forall id ensures DeltasExact(Commits(cal, s, c), id) {
      assert DeltasExact(s, id);
      CommitDeltas(cal, s, c, id);
    }
  }

  lemma CommitShape(cal: Calendar, s: Ledger)
    requires Shape(cal, s) && s.inside.Some?
    ensures Shape(cal, Commits(cal, s, s.inside.value))
  {
    CommitFiled(cal, s, s.inside.value);
  }

  lemma CommitKeeps(cal: Calendar, origin: seq<Row>, s: Ledger)
    requires Inv(cal, origin, s) && s.inside.Some?
    ensures Inv(cal, origin, Commits(cal, s, s.inside.value))
  {
    var c := s.inside.value;
    CommitShape(cal, s);
    CommitBalanced(cal, origin, s, c);
    CommitCached(cal, s, c);
    SameLoad(cal, s, Commits(cal, s, c));
    CommitAllDeltas(cal, s, c);
  }

  // ---- flushing ----

  /** Totals that do not change keep the books balanced and the cache exact. */
  lemma SameHeld(cal: Calendar, origin: seq<Row>, s: Ledger, s': Ledger)
    requires Balanced(cal, origin, s) && CachesExact(cal, s)
    requires s'.history == s.history && s'.month == s.month && s'.usage == s.usage
    requires forall m :: Held(cal, s', m) == Held(cal, s, m)
    ensures Balanced(cal, origin, s') && CachesExact(cal, s')
  {
    forall m ensures Conserves(cal, origin, s', m) {
      assert Conserves(cal, origin, s, m);
    }
    forall u ensures CacheExact(cal, s', u) {
      assert CacheExact(cal, s, u);
    }
  }

  lemma SameDeltas(s: Ledger, s': Ledger)
    requires AllDeltasExact(s) && s'.pending == s.pending && s'.txDelta == s.txDelta && s'.rxDelta == s.rxDelta
    ensures AllDeltasExact(s')
  {
    forall id ensures DeltasExact(s', id) {
      assert DeltasExact(s, id);
    }
  }

  lemma DetachDeltas(before: map<RouteID, nat>, after: map<RouteID, nat>, b: Batch, d: Direction, id: RouteID)
    requires Get(before, id) == RouteSum(id, d, b) % WORD && Lowered(before, after, b, d)
    ensures Get(after, id) == 0
  {
  }

  lemma DetachAllDeltas(s: Ledger, s': Ledger)
    requires AllDeltasExact(s) && s'.pending == map[]
    requires Lowered(s.txDelta, s'.txDelta, s.pending, Tx) && Lowered(s.rxDelta, s'.rxDelta, s.pending, Rx)
    ensures AllDeltasExact(s')
  {
    forall id ensures DeltasExact(s', id) {
      assert DeltasExact(s, id);
      DetachDeltas(s.txDelta, s'.txDelta, s.pending, Tx, id);
      DetachDeltas(s.rxDelta, s'.rxDelta, s.pending, Rx, id);
    }
  }

  lemma DetachKeeps(cal: Calendar, origin: seq<Row>, s: Ledger, final: bool, s': Ledger)
    requires Inv(cal, origin, s) && Detaches(s, final, s')
    ensures Inv(cal, origin, s')
  {
    DetachAllDeltas(s, s');
    SameHeld(cal, origin, s, s');
  }

  lemma PersistHeld(cal: Calendar, s: Ledger, order: seq<Key>, s': Ledger, m: Meter)
    requires cal.Valid() && Shape(cal, s) && Persists(s, order, s')
    ensures Held(cal, s', m) == Held(cal, s, m)
  {
    PersistSum(cal, m, s.log, s.holder.batch, order);
  }

  lemma PersistSummarised(s: Ledger, order: seq<Key>, s': Ledger)
    requires Summarised(s.log, s.summary) && Persists(s, order, s')
    ensures Summarised(s'.log, s'.summary)
  {
    UpsertAllExact(s.log, s.summary, Rows(Listed(order, s.holder.batch)));
  }

  lemma PersistKeeps(cal: Calendar, origin: seq<Row>, s: Ledger, order: seq<Key>, s': Ledger)
    requires Inv(cal, origin, s) && Persists(s, order, s')
    ensures Inv(cal, origin, s')
  {
    forall m ensures Held(cal, s', m) == Held(cal, s, m) {
      PersistHeld(cal, s, order, s', m);
    }
    SameHeld(cal, origin, s, s');
    SameDeltas(s, s');
    PersistSummarised(s, order, s');
  }

  lemma MergeFiled(cal: Calendar, a: Batch, b: Batch)
    requires WellFiled(cal, a) && WellFiled(cal, b)
    ensures WellFiled(cal, Merge(a, b))
  {
  }

  lemma MergeDeltas(before: map<RouteID, nat>, after: map<RouteID, nat>, pending: Batch, b: Batch,
                    d: Direction, id: RouteID)
    requires Get(before, id) == RouteSum(id, d, pending) % WORD && Raised(before, after, b, d)
    ensures Get(after, id) == RouteSum(id, d, Merge(pending, b)) % WORD
  {
    MergeSum(Meter(Route(id), d), pending, b);
    WordAdd(RouteSum(id, d, pending), RouteSum(id, d, b));
  }

  lemma MergeBackKeeps(cal: Calendar, origin: seq<Row>, s: Ledger, s': Ledger)
    requires Inv(cal, origin, s) && MergesBack(s, s')
    ensures Inv(cal, origin, s')
  {
    MergeShape(cal, s, s');
    forall m ensures Held(cal, s', m) == Held(cal, s, m) {
      MergeHeld(cal, s, s', m);
    }
    SameHeld(cal, origin, s, s');
    MergeAllDeltas(s, s.holder.batch, s');
  }

  lemma MergeShape(cal: Calendar, s: Ledger, s': Ledger)
    requires Shape(cal, s) && MergesBack(s, s')
    ensures Shape(cal, s')
  {
    MergeFiled(cal, s.pending, s.holder.batch);
    if s.drained {
      assert Merge(map[], map[]) == map[];
    }
  }

  lemma MergeHeld(cal: Calendar, s: Ledger, s': Ledger, m: Meter)
    requires s.holder.Flushing? && s'.pending == Merge(s.pending, s.holder.batch)
    requires s'.holder.Free? && s'.log == s.log
    ensures Held(cal, s', m) == Held(cal, s, m)
  {
    MergeSum(m, s.pending, s.holder.batch);
  }

  lemma MergeAllDeltas(s: Ledger, b: Batch, s': Ledger)
    requires AllDeltasExact(s) && s'.pending == Merge(s.pending, b)
    requires Raised(s.txDelta, s'.txDelta, b, Tx) && Raised(s.rxDelta, s'.rxDelta, b, Rx)
    ensures AllDeltasExact(s')
  {
    forall id ensures DeltasExact(s', id) {
      assert DeltasExact(s, id);
      MergeDeltas(s.txDelta, s'.txDelta, s.pending, b, Tx, id);
      MergeDeltas(s.rxDelta, s'.rxDelta, s.pending, b, Rx, id);
    }
  }

  // ---- month loads ----

  lemma BeginLoadKeeps(cal: Calendar, origin: seq<Row>, s: Ledger, month: int, s': Ledger)
    requires Inv(cal, origin, s) && BeginsLoad(cal, s, month, s')
    ensures Inv(cal, origin, s')
  {
    forall u ensures LoadExact(cal, s', u) {
      WindowIsUserMonth(cal, s.log, u, month);
    }
    SameHeld(cal, origin, s, s');
    SameDeltas(s, s');
  }

  /** The rebuilt cache is exact for the loaded month. */
  lemma InstallCached(cal: Calendar, s: Ledger, s': Ledger)
    requires LoadsExact(cal, s) && Installs(s, s')
    ensures CachesExact(cal, s')
  {
    forall u ensures CacheExact(cal, s', u) {
      assert LoadExact(cal, s, u);
    }
  }

  lemma SameBalance(cal: Calendar, origin: seq<Row>, s: Ledger, s': Ledger)
    requires Balanced(cal, origin, s) && s'.log == s.log && s'.pending == s.pending && s'.history == s.history
    requires InFlight(s') == InFlight(s)
    ensures Balanced(cal, origin, s')
  {
    forall m ensures Conserves(cal, origin, s', m) {
      assert Conserves(cal, origin, s, m);
    }
  }

  lemma InstallKeeps(cal: Calendar, origin: seq<Row>, s: Ledger, s': Ledger)
    requires Inv(cal, origin, s) && Installs(s, s')
    ensures Inv(cal, origin, s')
  {
    InstallCached(cal, s, s');
    SameBalance(cal, origin, s, s');
    SameDeltas(s, s');
  }

  lemma AbandonKeeps(cal: Calendar, origin: seq<Row>, s: Ledger)
    requires Inv(cal, origin, s) && s.holder.Loading?
    ensures Inv(cal, origin, s.(holder := Free))
  {
    SameHeld(cal, origin, s, s.(holder := Free));
    SameDeltas(s, s.(holder := Free));
  }

  // ---- forwarding ----

  lemma {:induction false} EventSumSame(m: Meter, h: seq<Event>, i: nat, n: nat)
    requires i < |h|
    ensures EventSum(m, h[i := h[i].(forwarded := n)]) == EventSum(m, h)
  {
    var k := |h| - 1;
    var h' := h[i := h[i].(forwarded := n)];
    if i < k {
      EventSumSame(m, h[..k], i, n);
      assert h'[..k] == h[..k][i := h[i].(forwarded := n)];
    } else {
      assert h'[..k] == h[..k];
    }
  }

  lemma FlagsKeep(cal: Calendar, origin: seq<Row>, s: Ledger, s': Ledger)
    requires Inv(cal, origin, s) && Shape(cal, s')
    requires s' == s.(inside := s'.inside, stopping := s'.stopping)
    ensures Inv(cal, origin, s')
  {
    SameHeld(cal, origin, s, s');
    SameLoad(cal, s, s');
    SameDeltas(s, s');
  }

  lemma ForwardBalanced(cal: Calendar, origin: seq<Row>, s: Ledger, i: nat, n: nat, s': Ledger)
    requires Balanced(cal, origin, s) && ForwardsOn(s, i, n, s')
    ensures Balanced(cal, origin, s')
  {
    forall m ensures Conserves(cal, origin, s', m) {
      assert Conserves(cal, origin, s, m);
      EventSumSame(m, s.history, i, n);
    }
  }

  lemma ForwardKeeps(cal: Calendar, origin: seq<Row>, s: Ledger, i: nat, n: nat, s': Ledger)
    requires Inv(cal, origin, s) && ForwardsOn(s, i, n, s')
    ensures Inv(cal, origin, s')
  {
    ForwardBalanced(cal, origin, s, i, n, s');
    SameCache(cal, s, s');
    SameLoad(cal, s, s');
    SameDeltas(s, s');
  }

  lemma SameCache(cal: Calendar, s: Ledger, s': Ledger)
    requires CachesExact(cal, s) && s'.month == s.month && s'.usage == s.usage && s'.log == s.log
    requires s'.pending == s.pending && s'.holder == s.holder
    ensures CachesExact(cal, s')
  {
    forall u ensures CacheExact(cal, s', u) {
      assert CacheExact(cal, s, u);
    }
  }

  /** Every step keeps the whole invariant. */
  lemma StepKeeps(cal: Calendar, origin: seq<Row>, s: Ledger, step: Step, s': Ledger)
    requires Inv(cal, origin, s) && Next(cal, s, step, s')
    ensures Inv(cal, origin, s')
  {
    match step
    case Enter(_) => FlagsKeep(cal, origin, s, s');
    case Commit => CommitKeeps(cal, origin, s);
    case Stop => FlagsKeep(cal, origin, s, s');
    case Detach(final) => DetachKeeps(cal, origin, s, final, s');
    case Persist(order) => PersistKeeps(cal, origin, s, order, s');
    case MergeBack => MergeBackKeeps(cal, origin, s, s');
    case BeginLoad(m) => BeginLoadKeeps(cal, origin, s, m, s');
    case Install => InstallKeeps(cal, origin, s, s');
    case AbandonLoad => AbandonKeeps(cal, origin, s);
    case Forward(i, n) => ForwardKeeps(cal, origin, s, i, n, s');
  }
}
