/** The quantities the ledger keeps in balance. A meter picks a user-month, a
    route-month or a route, and a direction; batches, log rows and charge
    events are all measured by the same meter. */
module Meters {
  import opened Basics
  import opened Identity
  import opened Calendars

  /** storage.TrafficRecord: bytes of one route, with the latest instant in nanoseconds. */
  datatype Record = Record(user: string, node: string, tx: nat, rx: nat, at: int)

  /** pendingKey: the route and the month the bytes were charged to. */
  datatype Key = Key(id: RouteID, month: int)

  type Batch = map<Key, Record>

  /** A traffic_logs row; `createdAt` is in whole seconds. */
  datatype Row = Row(user: string, node: string, tx: nat, rx: nat, createdAt: int)

  /** One committed charge: what it was for, its instant, how it was answered, and how
      many of its bytes the relay has forwarded since. */
  datatype Event = Event(key: Key, at: int, tx: nat, rx: nat, admitted: bool, forwarded: nat)

  datatype Scope = UserMonth(user: string, month: int) | RouteMonth(id: RouteID, month: int) | Route(id: RouteID)

  datatype Direction = Tx | Rx | Both

  datatype Meter = Meter(scope: Scope, direction: Direction)

  predicate Covers(s: Scope, k: Key) {
    match s
    case UserMonth(u, m) => k.id.user == u && k.month == m
    case RouteMonth(id, m) => k.id == id && k.month == m
    case Route(id) => k.id == id
  }

  function Bytes(d: Direction, tx: nat, rx: nat): nat {
    match d
    case Tx => tx
    case Rx => rx
    case Both => tx + rx
  }

  function Weigh(m: Meter, k: Key, tx: nat, rx: nat): nat {
    if Covers(m.scope, k) then Bytes(m.direction, tx, rx) else 0
  }

  function RowKey(cal: Calendar, r: Row): Key {
    Key(RouteID(r.user, r.node), cal.month(r.createdAt * SECOND))
  }

  function WeighRow(cal: Calendar, m: Meter, r: Row): nat {
    Weigh(m, RowKey(cal, r), r.tx, r.rx)
  }

  // ---- sums over the log and over the charge history ----

  function LogSum(cal: Calendar, m: Meter, log: seq<Row>): nat {
    if log == [] then 0
    else LogSum(cal, m, log[..|log| - 1]) + WeighRow(cal, m, log[|log| - 1])
  }

  lemma LogSumAppend(cal: Calendar, m: Meter, log: seq<Row>, r: Row)
    ensures LogSum(cal, m, log + [r]) == LogSum(cal, m, log) + WeighRow(cal, m, r)
  {
  }

  lemma {:induction false} LogSumConcat(cal: Calendar, m: Meter, log: seq<Row>, more: seq<Row>)
    ensures LogSum(cal, m, log + more) == LogSum(cal, m, log) + LogSum(cal, m, more)
  {
    if more == [] {
      assert log + more == log;
    } else {
      var n := |more| - 1;
      LogSumConcat(cal, m, log, more[..n]);
      assert log + more == log + more[..n] + [more[n]];
      LogSumAppend(cal, m, log + more[..n], more[n]);
    }
  }

  function EventSum(m: Meter, h: seq<Event>): nat {
    if h == [] then 0
    else EventSum(m, h[..|h| - 1]) + Weigh(m, h[|h| - 1].key, h[|h| - 1].tx, h[|h| - 1].rx)
  }

  lemma EventSumAppend(m: Meter, h: seq<Event>, e: Event)
    ensures EventSum(m, h + [e]) == EventSum(m, h) + Weigh(m, e.key, e.tx, e.rx)
  {
  }

  // ---- sums over a batch, whose iteration order is arbitrary ----

  ghost function BatchSum(m: Meter, b: Batch): nat
    decreases |b|
  {
    if b == map[] then 0
    else
      var k :| k in b;
      SmallerBatch(b, k);
      Weigh(m, k, b[k].tx, b[k].rx) + BatchSum(m, b - {k})
  }

  lemma SmallerBatch(b: Batch, k: Key)
    requires k in b
    ensures |b - {k}| == |b| - 1
  {
  }

  /** The sum does not depend on which key is taken first. */
  lemma {:induction false} BatchSumPick(m: Meter, b: Batch, k: Key)
    requires k in b
    ensures BatchSum(m, b) == Weigh(m, k, b[k].tx, b[k].rx) + BatchSum(m, b - {k})
    decreases |b|
  {
    SmallerBatch(b, k);
    var j :| j in b && BatchSum(m, b) == Weigh(m, j, b[j].tx, b[j].rx) + BatchSum(m, b - {j});
    if j != k {
      SmallerBatch(b, j);
      BatchSumPick(m, b - {j}, k);
      BatchSumPick(m, b - {k}, j);
      assert b - {j} - {k} == b - {k} - {j};
    }
  }

  function Part(m: Meter, b: Batch, k: Key): nat {
    if k in b then Weigh(m, k, b[k].tx, b[k].rx) else 0
  }

  lemma BatchSumPut(m: Meter, b: Batch, k: Key, r: Record)
    ensures BatchSum(m, b[k := r]) == BatchSum(m, b) - Part(m, b, k) + Weigh(m, k, r.tx, r.rx)
  {
    BatchSumPick(m, b[k := r], k);
    assert b[k := r] - {k} == b - {k};
    if k in b {
      BatchSumPick(m, b, k);
    } else {
      assert b - {k} == b;
    }
  }

  // ---- joining two batches ----

  function Later(a: int, b: int): int { if a < b then b else a }

  function Combine(a: Record, b: Record): Record {
    Record(b.user, b.node, a.tx + b.tx, a.rx + b.rx, Later(a.at, b.at))
  }

  /** The batch that holds the bytes of both. */
  function Merge(a: Batch, b: Batch): Batch {
    map k | k in a.Keys + b.Keys ::
      if k !in b then a[k] else if k !in a then b[k] else Combine(a[k], b[k])
  }

  lemma MergePeel(a: Batch, b: Batch, k: Key)
    requires k in b
    ensures k in Merge(a, b)
    ensures Merge(a, b) == Merge(a, b - {k})[k := Merge(a, b)[k]]
  {
  }

  /** Bytes add up under any meter. */
  lemma WeighAdds(m: Meter, k: Key, tx: nat, rx: nat, tx': nat, rx': nat)
    ensures Weigh(m, k, tx + tx', rx + rx') == Weigh(m, k, tx, rx) + Weigh(m, k, tx', rx')
  {
  }

  lemma MergePart(m: Meter, a: Batch, b: Batch, k: Key)
    requires k in b
    ensures Part(m, Merge(a, b), k) == Part(m, a, k) + Part(m, b, k)
    ensures Part(m, Merge(a, b - {k}), k) == Part(m, a, k)
  {
  }

  lemma {:induction false} MergeSum(m: Meter, a: Batch, b: Batch)
    ensures BatchSum(m, Merge(a, b)) == BatchSum(m, a) + BatchSum(m, b)
    decreases |b|
  {
    if b == map[] {
      assert Merge(a, b) == a;
    } else {
      var k :| k in b;
      SmallerBatch(b, k);
      var rest := b - {k};
      MergeSum(m, a, rest);
      BatchSumPick(m, b, k);
      MergePeel(a, b, k);
      MergePart(m, a, b, k);
      BatchSumPut(m, Merge(a, rest), k, Merge(a, b)[k]);
    }
  }

  // ---- writing a batch to the log ----

  /** An order in which a batch is enumerated: every key once. */
  predicate Enumerates(order: seq<Key>, b: Batch) {
    && Distinct(order)
    && (forall i :: 0 <= i < |order| ==> order[i] in b)
    && (forall k :: k in b ==> k in order)
  }

  function ToRow(r: Record): Row { Row(r.user, r.node, r.tx, r.rx, Unix(r.at)) }

  function RowsOf(r: Record): seq<Row> {
    if r.tx == 0 && r.rx == 0 then [] else [ToRow(r)]
  }

  /** The rows a flush inserts: one per record, empty records skipped. */
  function Rows(records: seq<Record>): seq<Row> {
    if records == [] then []
    else Rows(records[..|records| - 1]) + RowsOf(records[|records| - 1])
  }

  function Listed(order: seq<Key>, b: Batch): (rs: seq<Record>)
    requires forall i :: 0 <= i < |order| ==> order[i] in b
    ensures |rs| == |order| && forall i :: 0 <= i < |rs| ==> rs[i] == b[order[i]]
  {
    seq(|order|, i requires 0 <= i < |order| => b[order[i]])
  }

  /** The record belongs to its key: same route, and an instant inside the key's month. */
  predicate Filed(cal: Calendar, k: Key, r: Record) {
    RouteID(r.user, r.node) == k.id && cal.month(r.at) == k.month && r.at > 0
  }

  ghost predicate WellFiled(cal: Calendar, b: Batch) {
    forall k :: k in b ==> Filed(cal, k, b[k])
  }

  lemma WeighToRow(cal: Calendar, m: Meter, k: Key, r: Record)
    requires cal.Valid() && Filed(cal, k, r)
    ensures WeighRow(cal, m, ToRow(r)) == Weigh(m, k, r.tx, r.rx)
  {
  }

  function OrderSum(m: Meter, order: seq<Key>, b: Batch): nat {
    if order == [] then 0
    else OrderSum(m, order[..|order| - 1], b) + Part(m, b, order[|order| - 1])
  }

  lemma {:induction false} OrderSumFrame(m: Meter, order: seq<Key>, b: Batch, b': Batch)
    requires forall i :: 0 <= i < |order| ==> Part(m, b, order[i]) == Part(m, b', order[i])
    ensures OrderSum(m, order, b) == OrderSum(m, order, b')
  {
    if order != [] {
      OrderSumFrame(m, order[..|order| - 1], b, b');
    }
  }

  lemma {:induction false} OrderSumIsBatchSum(m: Meter, order: seq<Key>, b: Batch)
    requires Enumerates(order, b)
    ensures OrderSum(m, order, b) == BatchSum(m, b)
    decreases |order|
  {
    if order == [] {
      assert b == map[];
    } else {
      var n := |order| - 1;
      EnumeratesPeel(order, b);
      OrderSumFrame(m, order[..n], b, b - {order[n]});
      OrderSumIsBatchSum(m, order[..n], b - {order[n]});
      BatchSumPick(m, b, order[n]);
    }
  }

  lemma {:induction false} RowsSum(cal: Calendar, m: Meter, b: Batch, order: seq<Key>)
    requires cal.Valid() && WellFiled(cal, b)
    requires forall i :: 0 <= i < |order| ==> order[i] in b
    ensures LogSum(cal, m, Rows(Listed(order, b))) == OrderSum(m, order, b)
  {
    if order != [] {
      var n := |order| - 1;
      RowsSum(cal, m, b, order[..n]);
      RowsPeel(order, b);
      PersistRow(cal, m, Rows(Listed(order[..n], b)), order[n], b[order[n]]);
    }
  }

  lemma RowsPeel(order: seq<Key>, b: Batch)
    requires order != [] && forall i :: 0 <= i < |order| ==> order[i] in b
    ensures var n := |order| - 1;
            Rows(Listed(order, b)) == Rows(Listed(order[..n], b)) + RowsOf(b[order[n]])
  {
    var n := |order| - 1;
    assert Listed(order, b)[..n] == Listed(order[..n], b);
  }

  /** Whatever the order, the inserted rows measure exactly like the batch. */
  lemma PersistSum(cal: Calendar, m: Meter, log: seq<Row>, b: Batch, order: seq<Key>)
    requires cal.Valid() && WellFiled(cal, b) && Enumerates(order, b)
    ensures LogSum(cal, m, log + Rows(Listed(order, b))) == LogSum(cal, m, log) + BatchSum(m, b)
  {
    RowsSum(cal, m, b, order);
    OrderSumIsBatchSum(m, order, b);
    LogSumConcat(cal, m, log, Rows(Listed(order, b)));
  }

  lemma EnumeratesPeel(order: seq<Key>, b: Batch)
    requires Enumerates(order, b) && order != []
    ensures Enumerates(order[..|order| - 1], b - {order[|order| - 1]})
  {
  }

  lemma PersistRow(cal: Calendar, m: Meter, log: seq<Row>, k: Key, r: Record)
    requires cal.Valid() && Filed(cal, k, r)
    ensures LogSum(cal, m, log + RowsOf(r))
         == LogSum(cal, m, log) + Weigh(m, k, r.tx, r.rx)
  {
    if r.tx == 0 && r.rx == 0 {
      assert log + [] == log;
    } else {
      WeighToRow(cal, m, k, r);
      LogSumAppend(cal, m, log, ToRow(r));
    }
  }

  // ---- the SQL window query ----

  /** SUM(tx_bytes) + SUM(rx_bytes) of one user over start <= created_at < end. */
  function UserWindow(log: seq<Row>, user: string, start: int, end: int): nat {
    if log == [] then 0
    else
      var r := log[|log| - 1];
      UserWindow(log[..|log| - 1], user, start, end)
      + (if r.user == user && start <= r.createdAt < end then r.tx + r.rx else 0)
  }

  /** The window of a month measures the user-month. */
  lemma {:induction false} WindowIsUserMonth(cal: Calendar, log: seq<Row>, user: string, month: int)
    requires cal.Valid()
    ensures UserWindow(log, user, cal.start(month), cal.start(month + 1))
         == LogSum(cal, Meter(UserMonth(user, month), Both), log)
  {
    if log != [] {
      var r := log[|log| - 1];
      WindowIsUserMonth(cal, log[..|log| - 1], user, month);
      WindowIsMonth(cal, r.createdAt * SECOND, month);
    }
  }
}
