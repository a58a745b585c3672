/** The instants the ledger keeps: no charge is later than what is recorded for its route
    and month, and nothing is recorded at an instant at which nothing was charged. */
module LedgerTimes {
  import opened Calendars
  import opened Meters
  import opened TrafficLedger
  import opened LedgerRuns

  predicate Nonempty(tx: nat, rx: nat) { tx > 0 || rx > 0 }

  /** A batch holds bytes under the key and an instant no earlier than t. */
  predicate BatchCovers(b: Batch, k: Key, t: int) {
    k in b && Nonempty(b[k].tx, b[k].rx) && t <= b[k].at
  }

  /** A stored row of the key is no earlier than t, in whole seconds. */
  ghost predicate LogCovers(cal: Calendar, log: seq<Row>, k: Key, t: int) {
    exists i :: 0 <= i < |log| && RowKey(cal, log[i]) == k && Unix(t) <= log[i].createdAt
  }

  /** The charge shows in what is pending, in flight or stored. */
  ghost predicate Shows(cal: Calendar, s: Ledger, k: Key, t: int) {
    BatchCovers(s.pending, k, t) || BatchCovers(InFlight(s), k, t) || LogCovers(cal, s.log, k, t)
  }

  ghost predicate AllShow(cal: Calendar, s: Ledger) {
    forall i :: 0 <= i < |s.history| && Nonempty(s.history[i].tx, s.history[i].rx) ==>
      Shows(cal, s, s.history[i].key, s.history[i].at)
  }

  /** Some charge of the key happened at exactly this instant. */
  ghost predicate Charged(h: seq<Event>, k: Key, t: int) {
    exists i :: 0 <= i < |h| && h[i].key == k && h[i].at == t
  }

  ghost predicate ChargedSecond(h: seq<Event>, k: Key, second: int) {
    exists i :: 0 <= i < |h| && h[i].key == k && Unix(h[i].at) == second
  }

  ghost predicate BatchGenuine(h: seq<Event>, b: Batch) {
    forall k :: k in b ==> Charged(h, k, b[k].at)
  }

  /** Every row beyond those the process started from carries the second of a charge. */
  ghost predicate LogGenuine(cal: Calendar, h: seq<Event>, origin: seq<Row>, log: seq<Row>) {
    && origin <= log
    && forall i :: |origin| <= i < |log| ==> ChargedSecond(h, RowKey(cal, log[i]), log[i].createdAt)
  }

  ghost predicate Genuine(cal: Calendar, origin: seq<Row>, s: Ledger) {
    && BatchGenuine(s.history, s.pending) && BatchGenuine(s.history, InFlight(s))
    && LogGenuine(cal, s.history, origin, s.log)
  }

  // ---- commits and forwards ----

  lemma AppendCharged(h: seq<Event>, e: Event, k: Key, t: int)
    ensures Charged(h, k, t) ==> Charged(h + [e], k, t)
    ensures ChargedSecond(h, k, t) ==> ChargedSecond(h + [e], k, t)
    ensures Charged(h + [e], e.key, e.at)
  {
    var h' := h + [e];
    assert h'[|h|] == e && forall i :: 0 <= i < |h| ==> h'[i] == h[i];
    if Charged(h, k, t) {
      var i :| 0 <= i < |h| && h[i].key == k && h[i].at == t;
      assert h'[i].key == k && h'[i].at == t;
    }
    if ChargedSecond(h, k, t) {
      var i :| 0 <= i < |h| && h[i].key == k && Unix(h[i].at) == t;
      assert h'[i].key == k && Unix(h'[i].at) == t;
    }
  }

  lemma AppendGenuine(cal: Calendar, origin: seq<Row>, s: Ledger, e: Event)
    requires Genuine(cal, origin, s)
    ensures Genuine(cal, origin, s.(history := s.history + [e]))
  {
    forall k | k in s.pending ensures Charged(s.history + [e], k, s.pending[k].at) {
      AppendCharged(s.history, e, k, s.pending[k].at);
    }
    forall k | k in InFlight(s) ensures Charged(s.history + [e], k, InFlight(s)[k].at) {
      AppendCharged(s.history, e, k, InFlight(s)[k].at);
    }
    forall i | |origin| <= i < |s.log|
      ensures ChargedSecond(s.history + [e], RowKey(cal, s.log[i]), s.log[i].createdAt)
    {
      AppendCharged(s.history, e, RowKey(cal, s.log[i]), s.log[i].createdAt);
    }
  }

  /** A charge moves its pending record to the later of the two instants. */
  lemma AccrueTimes(s: Ledger, k: Key, c: Charge, h: seq<Event>)
    requires BatchGenuine(h, s.pending) && Charged(h, k, c.now) && c.now > 0
    ensures BatchGenuine(h, s.pending[k := Accrue(s.pending, k, c)])
    ensures c.now <= Accrue(s.pending, k, c).at
    ensures forall j, t :: BatchCovers(s.pending, j, t) ==> BatchCovers(s.pending[k := Accrue(s.pending, k, c)], j, t)
  {
  }

  lemma CommitShows(cal: Calendar, s: Ledger, c: Charge)
    requires AllShow(cal, s) && c.now > 0
    ensures AllShow(cal, Commits(cal, s, c))
  {
    var s' := Commits(cal, s, c);
    forall i | 0 <= i < |s'.history| && Nonempty(s'.history[i].tx, s'.history[i].rx)
      ensures Shows(cal, s', s'.history[i].key, s'.history[i].at)
    {
      if i < |s.history| {
        assert Shows(cal, s, s.history[i].key, s.history[i].at);
      }
    }
  }

  lemma CommitGenuine(cal: Calendar, origin: seq<Row>, s: Ledger, c: Charge)
    requires Genuine(cal, origin, s) && c.now > 0
    ensures Genuine(cal, origin, Commits(cal, s, c))
  {
    var e := Answered(cal, s, c);
    AppendGenuine(cal, origin, s, e);
    AppendCharged(s.history, e, e.key, e.at);
    AccrueTimes(s.(history := s.history + [e]), e.key, c, s.history + [e]);
    assert InFlight(Commits(cal, s, c)) == InFlight(s);
  }

  lemma MarkCharged(h: seq<Event>, i: nat, n: nat, k: Key, t: int)
    requires i < |h|
    ensures Charged(h, k, t) ==> Charged(h[i := h[i].(forwarded := n)], k, t)
    ensures ChargedSecond(h, k, t) ==> ChargedSecond(h[i := h[i].(forwarded := n)], k, t)
  {
    var h' := h[i := h[i].(forwarded := n)];
    assert forall j :: 0 <= j < |h| ==> h'[j].key == h[j].key && h'[j].at == h[j].at;
    if Charged(h, k, t) {
      var j :| 0 <= j < |h| && h[j].key == k && h[j].at == t;
      assert h'[j].key == k && h'[j].at == t;
    }
    if ChargedSecond(h, k, t) {
      var j :| 0 <= j < |h| && h[j].key == k && Unix(h[j].at) == t;
      assert h'[j].key == k && Unix(h'[j].at) == t;
    }
  }

  lemma ForwardTimes(cal: Calendar, origin: seq<Row>, s: Ledger, i: nat, n: nat, s': Ledger)
    requires AllShow(cal, s) && Genuine(cal, origin, s) && ForwardsOn(s, i, n, s')
    ensures AllShow(cal, s') && Genuine(cal, origin, s')
  {
    forall j | 0 <= j < |s'.history| && Nonempty(s'.history[j].tx, s'.history[j].rx)
      ensures Shows(cal, s', s'.history[j].key, s'.history[j].at)
    {
      assert Shows(cal, s, s.history[j].key, s.history[j].at);
    }
    forall k | k in s.pending ensures Charged(s'.history, k, s.pending[k].at) {
      MarkCharged(s.history, i, n, k, s.pending[k].at);
    }
    forall k | k in InFlight(s) ensures Charged(s'.history, k, InFlight(s)[k].at) {
      MarkCharged(s.history, i, n, k, InFlight(s)[k].at);
    }
    forall j | |origin| <= j < |s.log| ensures ChargedSecond(s'.history, RowKey(cal, s.log[j]), s.log[j].createdAt) {
      MarkCharged(s.history, i, n, RowKey(cal, s.log[j]), s.log[j].createdAt);
    }
  }

  // ---- flushes ----

  /** Steps that only move what is recorded keep every charge showing. */
  lemma MovedShows(cal: Calendar, s: Ledger, s': Ledger)
    requires AllShow(cal, s) && s'.history == s.history
    requires forall k, t :: Shows(cal, s, k, t) ==> Shows(cal, s', k, t)
    ensures AllShow(cal, s')
  {
  }

  lemma MergeTimes(cal: Calendar, origin: seq<Row>, s: Ledger, s': Ledger)
    requires AllShow(cal, s) && Genuine(cal, origin, s) && MergesBack(s, s')
    ensures AllShow(cal, s') && Genuine(cal, origin, s')
  {
    forall k, t | Shows(cal, s, k, t) ensures Shows(cal, s', k, t) {}
    MovedShows(cal, s, s');
    forall k | k in s'.pending ensures Charged(s'.history, k, s'.pending[k].at) {
      assert k in s.pending ==> Charged(s.history, k, s.pending[k].at);
      assert k in s.holder.batch ==> Charged(s.history, k, s.holder.batch[k].at);
    }
  }

  /** Where a record of the list ends up among the rows. */
  lemma {:induction false} RowPresent(records: seq<Record>, i: nat) returns (j: nat)
    requires i < |records| && Nonempty(records[i].tx, records[i].rx)
    ensures j < |Rows(records)| && Rows(records)[j] == ToRow(records[i])
  {
    var n := |records| - 1;
    if i == n {
      j := |Rows(records[..n])|;
    } else {
      j := RowPresent(records[..n], i);
    }
  }

  lemma {:induction false} RowOrigin(records: seq<Record>, j: nat) returns (i: nat)
    requires j < |Rows(records)|
    ensures i < |records| && Rows(records)[j] == ToRow(records[i])
  {
    var n := |records| - 1;
    if j < |Rows(records[..n])| {
      i := RowOrigin(records[..n], j);
    } else {
      i := n;
    }
  }

  lemma FiledRow(cal: Calendar, k: Key, r: Record)
    requires cal.Valid() && Filed(cal, k, r)
    ensures RowKey(cal, ToRow(r)) == k && ToRow(r).createdAt == Unix(r.at)
  {
    UnixKeepsMonth(cal, r.at);
  }

  /** A batch that covers the charge leaves a row that does. */
  lemma RowsCover(cal: Calendar, b: Batch, order: seq<Key>, k: Key, t: int)
    requires cal.Valid() && WellFiled(cal, b) && Enumerates(order, b) && BatchCovers(b, k, t)
    ensures LogCovers(cal, Rows(Listed(order, b)), k, t)
  {
    var i :| 0 <= i < |order| && order[i] == k;
    var j := RowPresent(Listed(order, b), i);
    FiledRow(cal, k, b[k]);
  }

  /** Rows of a genuine batch carry the seconds of charges. */
  lemma RowsGenuine(cal: Calendar, h: seq<Event>, b: Batch, order: seq<Key>, j: nat)
    requires cal.Valid() && WellFiled(cal, b) && Enumerates(order, b) && BatchGenuine(h, b)
    requires j < |Rows(Listed(order, b))|
    ensures var row := Rows(Listed(order, b))[j]; ChargedSecond(h, RowKey(cal, row), row.createdAt)
  {
    var i := RowOrigin(Listed(order, b), j);
    FiledRow(cal, order[i], b[order[i]]);
    assert Charged(h, order[i], b[order[i]].at);
  }

  lemma LogCoversMore(cal: Calendar, log: seq<Row>, more: seq<Row>, k: Key, t: int)
    requires LogCovers(cal, log, k, t) || LogCovers(cal, more, k, t)
    ensures LogCovers(cal, log + more, k, t)
  {
    if LogCovers(cal, log, k, t) {
      var i :| 0 <= i < |log| && RowKey(cal, log[i]) == k && Unix(t) <= log[i].createdAt;
      assert (log + more)[i] == log[i];
    } else {
      var i :| 0 <= i < |more| && RowKey(cal, more[i]) == k && Unix(t) <= more[i].createdAt;
      assert (log + more)[|log| + i] == more[i];
    }
  }

  lemma PersistShows(cal: Calendar, s: Ledger, order: seq<Key>, s': Ledger)
    requires cal.Valid() && WellFiled(cal, InFlight(s)) && AllShow(cal, s) && Persists(s, order, s')
    ensures AllShow(cal, s')
  {
    var b := s.holder.batch;
    forall k, t | Shows(cal, s, k, t) ensures Shows(cal, s', k, t) {
      if BatchCovers(b, k, t) {
        RowsCover(cal, b, order, k, t);
      }
      if !BatchCovers(s.pending, k, t) {
        LogCoversMore(cal, s.log, Rows(Listed(order, b)), k, t);
      }
    }
    MovedShows(cal, s, s');
  }

  lemma LogGenuineMore(cal: Calendar, h: seq<Event>, origin: seq<Row>, log: seq<Row>, more: seq<Row>)
    requires LogGenuine(cal, h, origin, log)
    requires forall j :: 0 <= j < |more| ==> ChargedSecond(h, RowKey(cal, more[j]), more[j].createdAt)
    ensures LogGenuine(cal, h, origin, log + more)
  {
    var all := log + more;
    forall i | |origin| <= i < |all| ensures ChargedSecond(h, RowKey(cal, all[i]), all[i].createdAt) {
      assert all[i] == if i < |log| then log[i] else more[i - |log|];
    }
  }

  lemma PersistGenuine(cal: Calendar, origin: seq<Row>, s: Ledger, order: seq<Key>, s': Ledger)
    requires cal.Valid() && WellFiled(cal, InFlight(s)) && Genuine(cal, origin, s) && Persists(s, order, s')
    ensures Genuine(cal, origin, s')
  {
    var b := s.holder.batch;
    var rows := Rows(Listed(order, b));
    forall j | 0 <= j < |rows| ensures ChargedSecond(s.history, RowKey(cal, rows[j]), rows[j].createdAt) {
      RowsGenuine(cal, s.history, b, order, j);
    }
    LogGenuineMore(cal, s.history, origin, s.log, rows);
  }

  // ---- runs ----

  lemma StepTimes(cal: Calendar, origin: seq<Row>, s: Ledger, step: Step, s': Ledger)
    requires Inv(cal, origin, s) && Next(cal, s, step, s') && AllShow(cal, s) && Genuine(cal, origin, s)
    ensures AllShow(cal, s') && Genuine(cal, origin, s')
  {
    match step
    case Commit =>
      CommitShows(cal, s, s.inside.value);
      CommitGenuine(cal, origin, s, s.inside.value);
    case Forward(i, n) => ForwardTimes(cal, origin, s, i, n, s');
    case Persist(order) =>
      PersistShows(cal, s, order, s');
      PersistGenuine(cal, origin, s, order, s');
    case MergeBack => MergeTimes(cal, origin, s, s');
    case _ => MovedShows(cal, s, s');
  }

  /** In every state of every run each charge with bytes shows at its instant or later in
      what is pending, in flight or stored for its route and month, and every recorded
      instant is that of a charge. */
  lemma {:induction false} RunTimes(cal: Calendar, origin: seq<Row>, trace: seq<Ledger>, steps: seq<Step>, i: nat)
    requires IsRun(cal, origin, trace, steps) && i < |trace|
    ensures AllShow(cal, trace[i]) && Genuine(cal, origin, trace[i])
  {
    if i > 0 {
      RunTimes(cal, origin, trace, steps, i - 1);
      RunStep(cal, origin, trace, steps, i);
      StepTimes(cal, origin, trace[i - 1], steps[i - 1], trace[i]);
    }
  }
}
