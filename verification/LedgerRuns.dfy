/** Theorems over whole runs of the traffic ledger: exact books, the summary clock,
    and a lossless stop. */
module LedgerRuns {
  import opened Basics
  import opened Identity
  import opened Calendars
  import opened Meters
  import opened TrafficLedger
  import opened LedgerSafety

  ghost predicate NextAt(cal: Calendar, trace: seq<Ledger>, steps: seq<Step>, i: nat) {
    i < |steps| && i + 1 < |trace| && Next(cal, trace[i], steps[i], trace[i + 1])
  }

  /** A run from start-up: any interleaving of steps, of any length. */
  ghost predicate IsRun(cal: Calendar, origin: seq<Row>, trace: seq<Ledger>, steps: seq<Step>) {
    && |trace| == |steps| + 1 && Init(cal, origin, trace[0])
    && forall i: nat :: i < |steps| ==> NextAt(cal, trace, steps, i)
  }

  lemma {:induction false} RunKeeps(cal: Calendar, origin: seq<Row>, trace: seq<Ledger>, steps: seq<Step>, i: nat)
    requires IsRun(cal, origin, trace, steps) && i < |trace|
    ensures Inv(cal, origin, trace[i])
  {
    if i == 0 {
      InitInv(cal, origin, trace[0]);
    } else {
      RunKeeps(cal, origin, trace, steps, i - 1);
      assert NextAt(cal, trace, steps, i - 1);
      StepKeeps(cal, origin, trace[i - 1], steps[i - 1], trace[i]);
    }
  }

  lemma RunStep(cal: Calendar, origin: seq<Row>, trace: seq<Ledger>, steps: seq<Step>, i: nat)
    requires IsRun(cal, origin, trace, steps) && 0 < i < |trace|
    ensures Inv(cal, origin, trace[i - 1]) && Next(cal, trace[i - 1], steps[i - 1], trace[i])
  {
    RunKeeps(cal, origin, trace, steps, i - 1);
    assert NextAt(cal, trace, steps, i - 1);
  }

  /** How a step changes the charge history: a commit appends, a forward marks one
      event, and nothing else touches it. */
  lemma HistoryEffect(cal: Calendar, s: Ledger, step: Step, s': Ledger)
    requires Next(cal, s, step, s')
    ensures step.Commit? ==> s.inside.Some? && s' == Commits(cal, s, s.inside.value)
    ensures step.Forward? ==> ForwardsOn(s, step.index, step.bytes, s') && s'.inside == s.inside
    ensures !step.Commit? && !step.Forward? ==> s'.history == s.history
    ensures !step.Commit? && !step.Enter? ==> s'.inside == s.inside
    ensures step.Enter? ==> s'.inside == Some(step.charge)
  {
  }

  /** In every reachable state the quota cache of the loaded month is persisted
      plus in-flight plus pending bytes; every meter balances against what was
      charged; the delta counters are the pending totals; the summary is exact. */
  lemma BooksExact(cal: Calendar, origin: seq<Row>, trace: seq<Ledger>, steps: seq<Step>, i: nat,
                   u: string, m: Meter, id: RouteID)
    requires IsRun(cal, origin, trace, steps) && i < |trace|
    ensures var s := trace[i];
            && (s.month.Some? ==> Get(s.usage, u) == Held(cal, s, Meter(UserMonth(u, s.month.value), Both)))
            && Held(cal, s, m) == LogSum(cal, m, origin) + EventSum(m, s.history)
            && Get(s.txDelta, id) == RouteSum(id, Tx, s.pending) % WORD
            && Get(s.rxDelta, id) == RouteSum(id, Rx, s.pending) % WORD
            && Summarised(s.log, s.summary)
  {
    RunKeeps(cal, origin, trace, steps, i);
    assert CacheExact(cal, trace[i], u) && Conserves(cal, origin, trace[i], m) && DeltasExact(trace[i], id);
  }

  // ---- stop ----

  lemma DrainedStep(cal: Calendar, origin: seq<Row>, s: Ledger, step: Step, s': Ledger)
    requires Inv(cal, origin, s) && Next(cal, s, step, s') && s.drained
    ensures s'.drained && |s'.history| == |s.history|
  {
  }

  lemma DrainedPersisted(cal: Calendar, origin: seq<Row>, s: Ledger, m: Meter)
    requires Inv(cal, origin, s) && s.drained
    ensures LogSum(cal, m, s.log) == LogSum(cal, m, origin) + EventSum(m, s.history)
  {
    assert Conserves(cal, origin, s, m);
  }

  /** Once StopContext has returned nil, nothing is pending or in flight in any
      later state, no further charge commits, and the log alone accounts for
      every byte ever charged, under every meter. */
  lemma {:induction false} DrainedForever(cal: Calendar, origin: seq<Row>, trace: seq<Ledger>, steps: seq<Step>,
                                          i: nat, j: nat, m: Meter)
    requires IsRun(cal, origin, trace, steps) && i <= j < |trace| && trace[i].drained
    ensures trace[j].drained && trace[j].pending == map[] && InFlight(trace[j]) == map[]
    ensures |trace[j].history| == |trace[i].history|
    ensures LogSum(cal, m, trace[j].log) == LogSum(cal, m, origin) + EventSum(m, trace[j].history)
    decreases j
  {
    if i < j {
      DrainedForever(cal, origin, trace, steps, i, j - 1, m);
      RunStep(cal, origin, trace, steps, j);
      DrainedStep(cal, origin, trace[j - 1], steps[j - 1], trace[j]);
    }
    RunKeeps(cal, origin, trace, steps, j);
    DrainedPersisted(cal, origin, trace[j], m);
  }

  // ---- the summary clock ----

  lemma SummaryStep(cal: Calendar, origin: seq<Row>, s: Ledger, step: Step, s': Ledger, p: (string, string))
    requires Inv(cal, origin, s) && Next(cal, s, step, s') && p in s.summary
    ensures p in s'.summary && s.summary[p].updatedAt <= s'.summary[p].updatedAt
  {
    if step.Persist? {
      UpsertAllExact(s.log, s.summary, Rows(Listed(step.order, s.holder.batch)));
    }
  }

  /** updated_at of a summary row never moves back over a run, and rows are never dropped. */
  lemma {:induction false} SummaryMonotone(cal: Calendar, origin: seq<Row>, trace: seq<Ledger>, steps: seq<Step>,
                                           i: nat, j: nat, p: (string, string))
    requires IsRun(cal, origin, trace, steps) && i <= j < |trace| && p in trace[i].summary
    ensures p in trace[j].summary && trace[i].summary[p].updatedAt <= trace[j].summary[p].updatedAt
    decreases j
  {
    if i < j {
      SummaryMonotone(cal, origin, trace, steps, i, j - 1, p);
      RunStep(cal, origin, trace, steps, j);
      SummaryStep(cal, origin, trace[j - 1], steps[j - 1], trace[j], p);
    }
  }
}
