/** The traffic ledger as a step system. One step is one critical section under
    usageMu, one database transaction, or one atomic flag write; flushMu is the
    `holder` field. Any number of relays, flushes and month loads interleave. */
module TrafficLedger {
  import opened Basics
  import opened Identity
  import opened Calendars
  import opened Meters

  /** A charge that has passed the admission checks and is about to commit. */
  datatype Charge = Charge(id: RouteID, tx: nat, rx: nat, now: int, maxBytes: nat)

  datatype Summary = Summary(tx: nat, rx: nat, updatedAt: int)

  type Summaries = map<(string, string), Summary>

  /** Who holds flushMu: nobody, a flush with its detached batch, or a month load
      with the totals it has read. `final` marks the flush of StopContext. */
  datatype Holder =
    | Free
    | Flushing(batch: Batch, final: bool)
    | Loading(month: int, base: map<string, nat>)

  datatype Ledger = Ledger(
    month: Option<int>,
    usage: map<string, nat>,
    pending: Batch,
    txDelta: map<RouteID, nat>,
    rxDelta: map<RouteID, nat>,
    holder: Holder,
    inside: Option<Charge>,
    stopping: bool,
    drained: bool,
    log: seq<Row>,
    summary: Summaries,
    history: seq<Event>)

  datatype Step =
    | Enter(charge: Charge)
    | Commit
    | Stop
    | Detach(final: bool)
    | Persist(order: seq<Key>)
    | MergeBack
    | BeginLoad(month: int)
    | Install
    | AbandonLoad
    | Forward(index: nat, bytes: nat)

  /** A Go map read: absent keys are zero. */
  function Get<K>(m: map<K, nat>, k: K): nat { if k in m then m[k] else 0 }

  // ---- 64-bit delta counters ----

  function WrapAdd(a: int, b: int): int { (a + b) % WORD }

  /** ^(x - 1) on an unsigned word. */
  function Negate(x: int): int { WORD - 1 - (x - 1) % WORD }

  /** Adding the complement subtracts, for zero as well as for any other word. */
  lemma NegateSubtracts(d: int, x: int)
    ensures 0 <= Negate(x) < WORD
    ensures WrapAdd(d, Negate(x)) == (d - x) % WORD
  {
  }

  ghost function RouteSum(id: RouteID, d: Direction, b: Batch): nat {
    BatchSum(Meter(Route(id), d), b)
  }

  /** Every route's counter went down, or up, by its share of the batch. */
  ghost predicate Lowered(before: map<RouteID, nat>, after: map<RouteID, nat>, b: Batch, d: Direction) {
    forall id :: Get(after, id) == (Get(before, id) - RouteSum(id, d, b)) % WORD
  }

  ghost predicate Raised(before: map<RouteID, nat>, after: map<RouteID, nat>, b: Batch, d: Direction) {
    forall id :: Get(after, id) == (Get(before, id) + RouteSum(id, d, b)) % WORD
  }

  // ---- the transitions ----

  function ChargeKey(cal: Calendar, c: Charge): Key { Key(c.id, cal.month(c.now)) }

  /** The pending record after a charge; a missing one starts from zero. */
  function Accrue(pending: Batch, k: Key, c: Charge): Record {
    var prior := if k in pending then pending[k] else Record("", "", 0, 0, 0);
    Record(c.id.user, c.id.node, prior.tx + c.tx, prior.rx + c.rx, Later(prior.at, c.now))
  }

  function Total(s: Ledger, c: Charge): nat { Get(s.usage, c.id.user) + c.tx + c.rx }

  predicate Admits(s: Ledger, c: Charge) { c.maxBytes == 0 || Total(s, c) <= c.maxBytes }

  /** The charge as the history records it. */
  function Answered(cal: Calendar, s: Ledger, c: Charge): Event {
    Event(ChargeKey(cal, c), c.now, c.tx, c.rx, Admits(s, c), 0)
  }

  function Commits(cal: Calendar, s: Ledger, c: Charge): Ledger {
    var k := ChargeKey(cal, c);
    s.(usage := s.usage[c.id.user := Total(s, c)],
       pending := s.pending[k := Accrue(s.pending, k, c)],
       txDelta := s.txDelta[c.id := WrapAdd(Get(s.txDelta, c.id), c.tx)],
       rxDelta := s.rxDelta[c.id := WrapAdd(Get(s.rxDelta, c.id), c.rx)],
       inside := None,
       history := s.history + [Answered(cal, s, c)])
  }

  /** INSERT ... ON CONFLICT DO UPDATE with added totals and MAX(updated_at). */
  function Upsert(s: Summaries, r: Row): Summaries {
    var p := (r.user, r.node);
    if p in s
    then s[p := Summary(s[p].tx + r.tx, s[p].rx + r.rx, Later(s[p].updatedAt, r.createdAt))]
    else s[p := Summary(r.tx, r.rx, r.createdAt)]
  }

  function UpsertAll(s: Summaries, rows: seq<Row>): Summaries {
    if rows == [] then s else Upsert(UpsertAll(s, rows[..|rows| - 1]), rows[|rows| - 1])
  }

  ghost predicate ReadsMonth(cal: Calendar, log: seq<Row>, base: map<string, nat>, month: int) {
    forall u :: Get(base, u) == UserWindow(log, u, cal.start(month), cal.start(month + 1))
  }

  ghost function PendingUsage(u: string, month: int, b: Batch): nat {
    BatchSum(Meter(UserMonth(u, month), Both), b)
  }

  ghost predicate Rebuilt(usage: map<string, nat>, base: map<string, nat>, pending: Batch, month: int) {
    forall u :: Get(usage, u) == Get(base, u) + PendingUsage(u, month, pending)
  }

  ghost predicate Enters(cal: Calendar, s: Ledger, c: Charge, s': Ledger) {
    && s.inside.None? && !s.stopping && s.month == Some(cal.month(c.now))
    && c.now > 0
    && s' == s.(inside := Some(c))
  }

  ghost predicate Detaches(s: Ledger, final: bool, s': Ledger) {
    && s.holder.Free? && s.inside.None? && (final ==> s.stopping)
    && s' == s.(pending := map[], holder := Flushing(s.pending, final), txDelta := s'.txDelta, rxDelta := s'.rxDelta)
    && Lowered(s.txDelta, s'.txDelta, s.pending, Tx) && Lowered(s.rxDelta, s'.rxDelta, s.pending, Rx)
  }

  ghost predicate Persists(s: Ledger, order: seq<Key>, s': Ledger) {
    && s.holder.Flushing? && Enumerates(order, s.holder.batch)
    && var rows := Rows(Listed(order, s.holder.batch));
    s' == s.(log := s.log + rows, summary := UpsertAll(s.summary, rows), holder := Free,
             drained := s.drained || s.holder.final)
  }

  ghost predicate MergesBack(s: Ledger, s': Ledger) {
    && s.holder.Flushing? && s.inside.None?
    && s' == s.(pending := Merge(s.pending, s.holder.batch), holder := Free,
                txDelta := s'.txDelta, rxDelta := s'.rxDelta)
    && Raised(s.txDelta, s'.txDelta, s.holder.batch, Tx) && Raised(s.rxDelta, s'.rxDelta, s.holder.batch, Rx)
  }

  ghost predicate BeginsLoad(cal: Calendar, s: Ledger, m: int, s': Ledger) {
    && s.holder.Free? && s.month != Some(m) && s'.holder.Loading? && s'.holder.month == m
    && s' == s.(holder := s'.holder)
    && ReadsMonth(cal, s.log, s'.holder.base, m)
  }

  ghost predicate Installs(s: Ledger, s': Ledger) {
    && s.holder.Loading? && s.inside.None?
    && s' == s.(month := Some(s.holder.month), usage := s'.usage, holder := Free)
    && Rebuilt(s'.usage, s.holder.base, s.pending, s.holder.month)
  }

  ghost predicate ForwardsOn(s: Ledger, i: nat, n: nat, s': Ledger) {
    && i < |s.history| && s.history[i].admitted && s.history[i].forwarded == 0
    && n <= s.history[i].tx + s.history[i].rx
    && s' == s.(history := s.history[i := s.history[i].(forwarded := n)])
  }

  ghost predicate Next(cal: Calendar, s: Ledger, step: Step, s': Ledger) {
    match step
    case Enter(c) => Enters(cal, s, c, s')
    case Commit => s.inside.Some? && s' == Commits(cal, s, s.inside.value)
    case Stop => s' == s.(stopping := true)
    case Detach(final) => Detaches(s, final, s')
    case Persist(order) => Persists(s, order, s')
    case MergeBack => MergesBack(s, s')
    case BeginLoad(m) => BeginsLoad(cal, s, m, s')
    case Install => Installs(s, s')
    case AbandonLoad => s.holder.Loading? && s' == s.(holder := Free)
    case Forward(i, n) => ForwardsOn(s, i, n, s')
  }

  // ---- the invariant ----

  function InFlight(s: Ledger): Batch { if s.holder.Flushing? then s.holder.batch else map[] }

  /** Bytes known to the ledger, wherever they currently are. */
  ghost function Held(cal: Calendar, s: Ledger, m: Meter): nat {
    LogSum(cal, m, s.log) + BatchSum(m, InFlight(s)) + BatchSum(m, s.pending)
  }

  /** Nothing is lost or counted twice: the rows the process started from plus
      every committed charge are persisted, in flight or pending. */
  ghost predicate Conserves(cal: Calendar, origin: seq<Row>, s: Ledger, m: Meter) {
    Held(cal, s, m) == LogSum(cal, m, origin) + EventSum(m, s.history)
  }

  /** The cached monthly usage of one user is what the ledger holds for that month. */
  ghost predicate CacheExact(cal: Calendar, s: Ledger, u: string) {
    s.month.Some? ==> Get(s.usage, u) == Held(cal, s, Meter(UserMonth(u, s.month.value), Both))
  }

  ghost predicate LoadExact(cal: Calendar, s: Ledger, u: string) {
    s.holder.Loading? ==>
      Get(s.holder.base, u) == LogSum(cal, Meter(UserMonth(u, s.holder.month), Both), s.log)
  }

  /** The delta counters are the pending totals of their route, as 64-bit words. */
  ghost predicate DeltasExact(s: Ledger, id: RouteID) {
    && Get(s.txDelta, id) == RouteSum(id, Tx, s.pending) % WORD
    && Get(s.rxDelta, id) == RouteSum(id, Rx, s.pending) % WORD
  }

  /** A final flush begins with admission stopped and leaves nothing behind. */
  ghost predicate StopOrder(s: Ledger) {
    && (s.holder.Flushing? && s.holder.final ==> s.stopping && s.inside.None? && s.pending == map[])
    && (s.drained ==> s.stopping && s.inside.None? && s.pending == map[] && InFlight(s) == map[])
  }

  ghost predicate Forwards(h: seq<Event>) {
    forall i :: 0 <= i < |h| ==> h[i].forwarded <= if h[i].admitted then h[i].tx + h[i].rx else 0
  }

  ghost predicate Shape(cal: Calendar, s: Ledger) {
    && WellFiled(cal, s.pending) && WellFiled(cal, InFlight(s))
    && (s.inside.Some? ==>
          var c := s.inside.value;
          c.now > 0 && s.month == Some(cal.month(c.now)))
    && StopOrder(s) && Forwards(s.history)
  }

  ghost predicate Balanced(cal: Calendar, origin: seq<Row>, s: Ledger) {
    forall m :: Conserves(cal, origin, s, m)
  }

  ghost predicate CachesExact(cal: Calendar, s: Ledger) {
    forall u :: CacheExact(cal, s, u)
  }

  ghost predicate LoadsExact(cal: Calendar, s: Ledger) {
    forall u :: LoadExact(cal, s, u)
  }

  ghost predicate AllDeltasExact(s: Ledger) {
    forall id :: DeltasExact(s, id)
  }

  ghost predicate Inv(cal: Calendar, origin: seq<Row>, s: Ledger) {
    && cal.Valid() && Shape(cal, s) && Balanced(cal, origin, s) && CachesExact(cal, s) && LoadsExact(cal, s)
    && AllDeltasExact(s) && Summarised(s.log, s.summary)
  }

  /** A process starts with an empty memory over whatever the database holds. */
  ghost predicate Init(cal: Calendar, origin: seq<Row>, s: Ledger) {
    && cal.Valid() && Summarised(origin, s.summary)
    && s == Ledger(None, map[], map[], map[], map[], Free, None, false, false, origin, s.summary, [])
  }

  lemma InitInv(cal: Calendar, origin: seq<Row>, s: Ledger)
    requires Init(cal, origin, s)
    ensures Inv(cal, origin, s)
  {
  }

  // ---- the summary table ----

  predicate Of(r: Row, u: string, n: string) { r.user == u && r.node == n }

  function PairSum(log: seq<Row>, u: string, n: string, d: Direction): nat {
    if log == [] then 0
    else
      var r := log[|log| - 1];
      PairSum(log[..|log| - 1], u, n, d) + if Of(r, u, n) then Bytes(d, r.tx, r.rx) else 0
  }

  /** A summary row exists exactly when its pair has log rows, totals them, and
      carries the latest of their times. */
  ghost predicate SummaryExact(log: seq<Row>, s: Summaries, u: string, n: string) {
    && ((u, n) in s <==> exists i :: 0 <= i < |log| && Of(log[i], u, n))
    && ((u, n) in s ==>
          && s[(u, n)].tx == PairSum(log, u, n, Tx) && s[(u, n)].rx == PairSum(log, u, n, Rx)
          && (forall i :: 0 <= i < |log| && Of(log[i], u, n) ==> log[i].createdAt <= s[(u, n)].updatedAt)
          && (exists i :: 0 <= i < |log| && Of(log[i], u, n) && log[i].createdAt == s[(u, n)].updatedAt))
  }

  ghost predicate Summarised(log: seq<Row>, s: Summaries) {
    forall u, n :: SummaryExact(log, s, u, n)
  }

  lemma {:induction false} PairSumNone(log: seq<Row>, u: string, n: string, d: Direction)
    requires forall i :: 0 <= i < |log| ==> !Of(log[i], u, n)
    ensures PairSum(log, u, n, d) == 0
  {
    if log != [] {
      PairSumNone(log[..|log| - 1], u, n, d);
    }
  }

  lemma UpsertExact(log: seq<Row>, s: Summaries, r: Row, u: string, n: string)
    requires SummaryExact(log, s, u, n)
    ensures SummaryExact(log + [r], Upsert(s, r), u, n)
    ensures (u, n) in s ==> (u, n) in Upsert(s, r) && s[(u, n)].updatedAt <= Upsert(s, r)[(u, n)].updatedAt
  {
    var log' := log + [r];
    assert log'[..|log|] == log;
    assert forall i :: 0 <= i < |log| ==> log'[i] == log[i];
    assert log'[|log|] == r;
    if (u, n) !in s {
      PairSumNone(log, u, n, Tx);
      PairSumNone(log, u, n, Rx);
    } else {
      var i :| 0 <= i < |log| && Of(log[i], u, n) && log[i].createdAt == s[(u, n)].updatedAt;
      assert Of(log'[i], u, n);
    }
  }

  /** A flush keeps the summary table exact and never moves updated_at back. */
  lemma {:induction false} UpsertAllExact(log: seq<Row>, s: Summaries, rows: seq<Row>)
    requires Summarised(log, s)
    ensures Summarised(log + rows, UpsertAll(s, rows))
    ensures forall p :: p in s ==> p in UpsertAll(s, rows) && s[p].updatedAt <= UpsertAll(s, rows)[p].updatedAt
  {
    if rows == [] {
      assert log + rows == log;
    } else {
      var k := |rows| - 1;
      UpsertAllExact(log, s, rows[..k]);
      var mid := UpsertAll(s, rows[..k]);
      assert log + rows == log + rows[..k] + [rows[k]];
      forall u, n ensures SummaryExact(log + rows, UpsertAll(s, rows), u, n) {
        assert SummaryExact(log + rows[..k], mid, u, n);
        UpsertExact(log + rows[..k], mid, rows[k], u, n);
      }
    }
  }
}
