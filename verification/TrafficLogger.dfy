/** The critical sections of the traffic logger and the flush transaction of its
    store, as they update their fields, each proved to be a step of the ledger. */
module TrafficLogging {
  import opened Basics
  import opened Identity
  import opened Calendars
  import opened Meters
  import opened TrafficLedger
  import opened LedgerSafety

  /** A record without a timestamp is stamped with the flush time. */
  function Stamped(r: Record, now: int): Record { if r.at == 0 then r.(at := now) else r }

  function StampAll(rs: seq<Record>, now: int): (out: seq<Record>)
    ensures |out| == |rs| && forall i :: 0 <= i < |rs| ==> out[i] == Stamped(rs[i], now)
    ensures forall i :: 0 <= i < |rs| ==> out[i] == rs[i].(at := if rs[i].at == 0 then now else rs[i].at)
  {
    seq(|rs|, i requires 0 <= i < |rs| => Stamped(rs[i], now))
  }

  lemma StampedFiled(cal: Calendar, b: Batch, order: seq<Key>, now: int)
    requires WellFiled(cal, b) && forall i :: 0 <= i < |order| ==> order[i] in b
    ensures StampAll(Listed(order, b), now) == Listed(order, b)
  {
  }

  // ---- one loop iteration of each batch loop ----

  ghost predicate Words(d: map<RouteID, nat>) { forall id :: Get(d, id) < WORD }

  lemma Untouched(d: map<RouteID, nat>, dir: Direction)
    requires Words(d)
    ensures Lowered(d, d, map[], dir) && Raised(d, d, map[], dir)
  {
  }

  lemma TakeKey(m: Meter, b: Batch, todo: set<Key>, k: Key)
    requires k in todo && todo <= b.Keys
    ensures BatchSum(m, b - (todo - {k})) == BatchSum(m, b - todo) + Part(m, b, k)
  {
    assert b - (todo - {k}) == (b - todo)[k := b[k]];
    BatchSumPut(m, b - todo, k, b[k]);
  }

  lemma LowerOne(d0: map<RouteID, nat>, d: map<RouteID, nat>, b: Batch, todo: set<Key>,
                 k: Key, dir: Direction, d': map<RouteID, nat>)
    requires k in todo && todo <= b.Keys && Lowered(d0, d, b - todo, dir)
    requires d' == d[k.id := (Get(d, k.id) - Bytes(dir, b[k].tx, b[k].rx)) % WORD]
    ensures Lowered(d0, d', b - (todo - {k}), dir)
  {
    forall id ensures Get(d', id) == (Get(d0, id) - RouteSum(id, dir, b - (todo - {k}))) % WORD {
      TakeKey(Meter(Route(id), dir), b, todo, k);
      WordAdd(Get(d0, id) - RouteSum(id, dir, b - todo), 0 - Bytes(dir, b[k].tx, b[k].rx) as int);
    }
  }

  lemma RaiseOne(d0: map<RouteID, nat>, d: map<RouteID, nat>, b: Batch, todo: set<Key>,
                 k: Key, dir: Direction, d': map<RouteID, nat>)
    requires k in todo && todo <= b.Keys && Raised(d0, d, b - todo, dir)
    requires d' == d[k.id := WrapAdd(Get(d, k.id), Bytes(dir, b[k].tx, b[k].rx))]
    ensures Raised(d0, d', b - (todo - {k}), dir)
  {
    forall id ensures Get(d', id) == (Get(d0, id) + RouteSum(id, dir, b - (todo - {k}))) % WORD {
      TakeKey(Meter(Route(id), dir), b, todo, k);
      WordAdd(Get(d0, id) + RouteSum(id, dir, b - todo), Bytes(dir, b[k].tx, b[k].rx));
    }
  }

  function PutBack(p: Batch, k: Key, r: Record): Batch { p[k := if k in p then Combine(p[k], r) else r] }

  lemma MergeOne(p: Batch, b: Batch, todo: set<Key>, k: Key)
    requires k in todo && todo <= b.Keys
    ensures Merge(p, b - (todo - {k})) == PutBack(Merge(p, b - todo), k, b[k])
  {
  }

  lemma RebuildOne(base: map<string, nat>, usage: map<string, nat>, b: Batch, todo: set<Key>,
                   k: Key, month: int, usage': map<string, nat>)
    requires k in todo && todo <= b.Keys && Rebuilt(usage, base, b - todo, month) && b[k].user == k.id.user
    requires usage' == if k.month == month
                       then usage[b[k].user := Get(usage, b[k].user) + b[k].tx + b[k].rx]
                       else usage
    ensures Rebuilt(usage', base, b - (todo - {k}), month)
  {
    forall u ensures Get(usage', u) == Get(base, u) + PendingUsage(u, month, b - (todo - {k})) {
      TakeKey(Meter(UserMonth(u, month), Both), b, todo, k);
    }
  }

  // ---- the batch loops; Go's map iteration order is arbitrary ----

  /** Takes every record off its route's counters by adding complements. */
  method LowerDeltas(ghost cal: Calendar, batch: Batch, tx: map<RouteID, nat>, rx: map<RouteID, nat>)
    returns (tx': map<RouteID, nat>, rx': map<RouteID, nat>)
    requires WellFiled(cal, batch) && Words(tx) && Words(rx)
    ensures Lowered(tx, tx', batch, Tx) && Lowered(rx, rx', batch, Rx)
  {
    tx', rx' := tx, rx;
    var todo := batch.Keys;
    assert batch - todo == map[];
    Untouched(tx, Tx);
    Untouched(rx, Rx);
    while todo != {}
      invariant todo <= batch.Keys
      invariant Lowered(tx, tx', batch - todo, Tx) && Lowered(rx, rx', batch - todo, Rx)
      decreases todo
    {
      var k :| k in todo;
      var record := batch[k];
      var id := RouteID(record.user, record.node);
      assert Filed(cal, k, record);
      NegateSubtracts(Get(tx', id), record.tx);
      NegateSubtracts(Get(rx', id), record.rx);
      var tx1 := tx'[id := WrapAdd(Get(tx', id), Negate(record.tx))];
      var rx1 := rx'[id := WrapAdd(Get(rx', id), Negate(record.rx))];
      LowerOne(tx, tx', batch, todo, k, Tx, tx1);
      LowerOne(rx, rx', batch, todo, k, Rx, rx1);
      tx', rx', todo := tx1, rx1, todo - {k};
    }
    assert batch - {} == batch;
  }

  method RaiseDeltas(ghost cal: Calendar, batch: Batch, tx: map<RouteID, nat>, rx: map<RouteID, nat>)
    returns (tx': map<RouteID, nat>, rx': map<RouteID, nat>)
    requires WellFiled(cal, batch) && Words(tx) && Words(rx)
    ensures Raised(tx, tx', batch, Tx) && Raised(rx, rx', batch, Rx)
  {
    tx', rx' := tx, rx;
    var todo := batch.Keys;
    assert batch - todo == map[];
    Untouched(tx, Tx);
    Untouched(rx, Rx);
    while todo != {}
      invariant todo <= batch.Keys
      invariant Raised(tx, tx', batch - todo, Tx) && Raised(rx, rx', batch - todo, Rx)
      decreases todo
    {
      var k :| k in todo;
      var id := RouteID(batch[k].user, batch[k].node);
      assert Filed(cal, k, batch[k]);
      var tx1 := tx'[id := WrapAdd(Get(tx', id), batch[k].tx)];
      var rx1 := rx'[id := WrapAdd(Get(rx', id), batch[k].rx)];
      RaiseOne(tx, tx', batch, todo, k, Tx, tx1);
      RaiseOne(rx, rx', batch, todo, k, Rx, rx1);
      tx', rx', todo := tx1, rx1, todo - {k};
    }
    assert batch - {} == batch;
  }

  /** Adds one detached record to the pending one of its key, if any. */
  method AddBack(pending: Batch, key: Key, record: Record) returns (pending': Batch)
    requires record.at > 0
    ensures pending' == PutBack(pending, key, record)
  {
    var current := if key in pending then pending[key] else Record("", "", 0, 0, 0);
    current := current.(user := record.user, node := record.node,
                         tx := current.tx + record.tx, rx := current.rx + record.rx);
    if current.at < record.at {
      current := current.(at := record.at);
    }
    pending' := pending[key := current];
  }

  /** Adds a batch back to the pending records, key by key. */
  method Restore(ghost cal: Calendar, batch: Batch, pending: Batch) returns (pending': Batch)
    requires WellFiled(cal, batch)
    ensures pending' == Merge(pending, batch)
  {
    pending' := pending;
    var todo := batch.Keys;
    assert batch - todo == map[];
    assert Merge(pending, map[]) == pending;
    while todo != {}
      invariant todo <= batch.Keys && pending' == Merge(pending, batch - todo)
      decreases todo
    {
      var k :| k in todo;
      assert Filed(cal, k, batch[k]);
      MergeOne(pending, batch, todo, k);
      pending' := AddBack(pending', k, batch[k]);
      todo := todo - {k};
    }
    assert batch - {} == batch;
  }

  /** The new month's usage: the totals read plus the pending bytes of that month. */
  method RebuildUsage(ghost cal: Calendar, total: map<string, nat>, pending: Batch, key: int)
    returns (usage: map<string, nat>)
    requires WellFiled(cal, pending)
    ensures Rebuilt(usage, total, pending, key)
  {
    usage := total;
    var todo := pending.Keys;
    assert pending - todo == map[];
    while todo != {}
      invariant todo <= pending.Keys && Rebuilt(usage, total, pending - todo, key)
      decreases todo
    {
      var k :| k in todo;
      assert Filed(cal, k, pending[k]);
      var usage' := usage;
      if k.month == key {
        var record := pending[k];
        usage' := usage[record.user := Get(usage, record.user) + record.tx + record.rx];
      }
      RebuildOne(total, usage, pending, todo, k, key, usage');
      usage, todo := usage', todo - {k};
    }
    assert pending - {} == pending;
  }

  /** The records of a batch in iteration order. */
  method ListBatch(batch: Batch) returns (records: seq<Record>, ghost order: seq<Key>)
    ensures Enumerates(order, batch) && records == Listed(order, batch)
    ensures forall r :: r in records <==> r in batch.Values
  {
    records := [];
    order := [];
    var todo := batch.Keys;
    while todo != {}
      invariant todo <= batch.Keys
      invariant Enumerates(order, batch - todo) && records == Listed(order, batch - todo)
      decreases todo
    {
      var k :| k in todo;
      ListNext(batch, todo, k, order);
      records := records + [batch[k]];
      order := order + [k];
      todo := todo - {k};
    }
    assert batch - {} == batch;
    SameValues(order, batch);
  }

  lemma ListNext(b: Batch, todo: set<Key>, k: Key, order: seq<Key>)
    requires k in todo && todo <= b.Keys && Enumerates(order, b - todo)
    ensures Enumerates(order + [k], b - (todo - {k}))
    ensures Listed(order + [k], b - (todo - {k})) == Listed(order, b - todo) + [b[k]]
  {
  }

  lemma SameValues(order: seq<Key>, b: Batch)
    requires Enumerates(order, b)
    ensures forall r :: r in Listed(order, b) <==> r in b.Values
  {
  }

  /** The statements of one transaction; it may fail before any record or at commit. */
  method BuildRows(records: seq<Record>, now: int, failAt: Option<nat>, summary: Summaries)
    returns (ok: bool, rows: seq<Row>, table: Summaries)
    ensures ok <==> failAt.None? || failAt.value > |records|
    ensures ok ==> rows == Rows(StampAll(records, now)) && table == UpsertAll(summary, rows)
  {
    rows, table := [], summary;
    ghost var stamped := StampAll(records, now);
    for i := 0 to |records|
      invariant failAt.Some? ==> failAt.value >= i
      invariant rows == RowsUpTo(stamped, i) && table == UpsertAll(summary, rows)
    {
      if failAt == Some(i) {
        return false, rows, table;
      }
      var r := records[i];
      RowsNext(stamped, i, summary);
      if r.tx != 0 || r.rx != 0 {
        var row := ToRow(Stamped(r, now));
        rows, table := rows + [row], Upsert(table, row);
      }
    }
    assert stamped[..|records|] == stamped;
    ok := failAt != Some(|records|);
  }

  function RowsUpTo(rs: seq<Record>, i: nat): seq<Row>
    requires i <= |rs|
  {
    Rows(rs[..i])
  }

  lemma RowsNext(rs: seq<Record>, i: nat, summary: Summaries)
    requires i < |rs|
    ensures rs[i].tx == 0 && rs[i].rx == 0 ==> RowsUpTo(rs, i + 1) == RowsUpTo(rs, i)
    ensures !(rs[i].tx == 0 && rs[i].rx == 0) ==>
              && RowsUpTo(rs, i + 1) == RowsUpTo(rs, i) + [ToRow(rs[i])]
              && UpsertAll(summary, RowsUpTo(rs, i + 1)) == Upsert(UpsertAll(summary, RowsUpTo(rs, i)), ToRow(rs[i]))
  {
    assert rs[..i + 1][..i] == rs[..i];
    var rows := RowsUpTo(rs, i);
    assert (rows + [ToRow(rs[i])])[..|rows|] == rows;
  }

  class SQLiteStore {
    var log: seq<Row>
    var summary: Summaries

    constructor ()
      ensures log == [] && summary == map[] && Summarised(log, summary)
    {
      log, summary := [], map[];
    }

    /** One transaction: a failure at any record, or at commit, leaves both tables untouched. */
    method FlushTraffic(records: seq<Record>, now: int, failAt: Option<nat>) returns (ok: bool)
      modifies this
      ensures ok <==> failAt.None? || failAt.value > |records|
      ensures ok ==> log == old(log) + Rows(StampAll(records, now))
      ensures ok ==> summary == UpsertAll(old(summary), Rows(StampAll(records, now)))
      ensures !ok ==> log == old(log) && summary == old(summary)
    {
      var rows, table;
      ok, rows, table := BuildRows(records, now, failAt, summary);
      if ok {
        log, summary := log + rows, table;
      }
    }

    /** Per-user totals of the rows with start <= created_at < end. */
    method GetUserMonthlyUsage(start: int, end: int) returns (result: map<string, nat>)
      ensures forall u :: Get(result, u) == UserWindow(log, u, start, end)
    {
      result := map[];
      for i := 0 to |log|
        invariant forall u :: Get(result, u) == UserWindow(log[..i], u, start, end)
      {
        var r := log[i];
        assert log[..i + 1][..i] == log[..i];
        if start <= r.createdAt < end {
          result := result[r.user := Get(result, r.user) + r.tx + r.rx];
        }
      }
      assert log[..|log|] == log;
    }
  }

  /** The pending record of a key once a charge has been added to it. */
  method NextRecord(pending: Batch, key: Key, c: Charge) returns (record: Record)
    ensures record == Accrue(pending, key, c)
  {
    record := if key in pending then pending[key] else Record("", "", 0, 0, 0);
    record := record.(user := c.id.user, node := c.id.node, tx := record.tx + c.tx, rx := record.rx + c.rx);
    if record.at < c.now {
      record := record.(at := c.now);
    }
  }

  class TrafficLogger {
    const store: SQLiteStore
    var month: Option<int>
    var usage: map<string, nat>
    var pending: Batch
    var txDelta: map<RouteID, nat>
    var rxDelta: map<RouteID, nat>
    var stopping: bool
    // The parts of the ledger state that live on goroutine stacks and in mutexes.
    ghost var holder: Holder
    ghost var inside: Option<Charge>
    ghost var drained: bool
    ghost var history: seq<Event>

    ghost function State(): Ledger
      reads this, store
    {
      Ledger(month, usage, pending, txDelta, rxDelta, holder, inside, stopping, drained,
             store.log, store.summary, history)
    }

    constructor (store: SQLiteStore)
      ensures this.store == store
      ensures State() == Ledger(None, map[], map[], map[], map[], Free, None, false, false,
                                store.log, store.summary, [])
    {
      this.store := store;
      month, usage, pending, txDelta, rxDelta, stopping := None, map[], map[], map[], map[], false;
      holder, inside, drained, history := Free, None, false, [];
    }

    /** The counters, the pending record and the quota cache of one charge. */
    method Tally(cal: Calendar, c: Charge) returns (total: nat)
      modifies this`txDelta, this`rxDelta, this`pending, this`usage
      ensures txDelta == old(txDelta)[c.id := WrapAdd(Get(old(txDelta), c.id), c.tx)]
      ensures rxDelta == old(rxDelta)[c.id := WrapAdd(Get(old(rxDelta), c.id), c.rx)]
      ensures pending == old(pending)[ChargeKey(cal, c) := Accrue(old(pending), ChargeKey(cal, c), c)]
      ensures usage == old(usage)[c.id.user := total] && total == Get(old(usage), c.id.user) + c.tx + c.rx
    {
      txDelta := txDelta[c.id := WrapAdd(Get(txDelta, c.id), c.tx)];
      rxDelta := rxDelta[c.id := WrapAdd(Get(rxDelta, c.id), c.rx)];
      var record := NextRecord(pending, ChargeKey(cal, c), c);
      pending := pending[ChargeKey(cal, c) := record];
      total := Get(usage, c.id.user) + c.tx + c.rx;
      usage := usage[c.id.user := total];
    }

    /** The body of the charge critical section, after its checks have passed. */
    method CommitCharge(cal: Calendar, c: Charge) returns (admitted: bool)
      requires inside == Some(c)
      modifies this
      ensures State() == Commits(cal, old(State()), c)
      ensures admitted == Admits(old(State()), c)
    {
      var total := Tally(cal, c);
      admitted := !(c.maxBytes > 0 && total > c.maxBytes);
      history := history + [Event(ChargeKey(cal, c), c.now, c.tx, c.rx, admitted, 0)];
      inside := None;
    }

    /** Swaps `pending` out and takes its bytes off the delta counters. */
    method DetachPending(ghost cal: Calendar, ghost final: bool) returns (batch: Batch)
      requires holder.Free? && inside.None? && (final ==> stopping)
      requires WellFiled(cal, pending) && Words(txDelta) && Words(rxDelta)
      modifies this
      ensures batch == old(pending) && Detaches(old(State()), final, State())
    {
      batch := pending;
      pending := map[];
      txDelta, rxDelta := LowerDeltas(cal, batch, txDelta, rxDelta);
      holder := Flushing(batch, final);
    }

    /** After a failed write, puts the detached batch back beside newer charges. */
    method MergePending(ghost cal: Calendar, batch: Batch)
      requires holder.Flushing? && holder.batch == batch && inside.None?
      requires WellFiled(cal, batch) && Words(txDelta) && Words(rxDelta)
      modifies this
      ensures MergesBack(old(State()), State())
    {
      pending := Restore(cal, batch, pending);
      txDelta, rxDelta := RaiseDeltas(cal, batch, txDelta, rxDelta);
      holder := Free;
    }

    /** Switches the quota cache to another month. */
    method InstallMonth(ghost cal: Calendar, key: int, total: map<string, nat>)
      requires holder.Loading? && holder.month == key && holder.base == total && inside.None?
      requires WellFiled(cal, pending)
      modifies this
      ensures Installs(old(State()), State())
    {
      month := Some(key);
      usage := RebuildUsage(cal, total, pending, key);
      holder := Free;
    }

    /** Writes the detached batch in some order; true exactly when it was persisted. */
    method WriteBatch(ghost cal: Calendar, batch: Batch, now: int, failAt: Option<nat>)
      returns (ok: bool, ghost order: seq<Key>)
      requires holder.Flushing? && holder.batch == batch && WellFiled(cal, batch)
      modifies store, this`holder, this`drained
      ensures ok ==> Persists(old(State()), order, State())
      ensures !ok ==> State() == old(State())
    {
      var records;
      records, order := ListBatch(batch);
      StampedFiled(cal, batch, order, now);
      ok := store.FlushTraffic(records, now, failAt);
      if ok {
        drained := drained || holder.final;
        holder := Free;
      }
    }
  }
}
