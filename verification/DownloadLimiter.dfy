/** The per-user download limiter: one reservation timeline on which chunks
    queue, with cancellation of the tail only and a reset when limits change.
    Time is exact; a chunk of b bytes at rate r occupies b / r seconds. */
module DownloadLimiting {
  import opened Basics

  /** `asked` is the clock when the chunk was reserved. */
  datatype Reservation = Reservation(start: real, end: real, bytes: nat, asked: real)

  /** `live` lists the uncancelled reservations made since the last wake, oldest first. */
  datatype Timeline = Timeline(next: real, live: seq<Reservation>)

  datatype Op =
    | Reserve(now: real, bytes: nat, rate: nat)
    | Cancel(index: nat)
    | Wake

  const ZERO_TIME: real := 0.0

  function Max(a: real, b: real): real { if a < b then b else a }

  function Length(bytes: nat, rate: nat): real
    requires rate > 0
  {
    bytes as real / rate as real
  }

  predicate Enabled(t: Timeline, op: Op) {
    match op
    case Reserve(_, bytes, rate) => bytes > 0 && rate > 0
    case Cancel(i) => i < |t.live|
    case Wake => true
  }

  function Booked(t: Timeline, now: real, bytes: nat, rate: nat): Reservation
    requires rate > 0
  {
    var start := Max(t.next, now);
    Reservation(start, start + Length(bytes, rate), bytes, now)
  }

  /** The limiter's cancel: only the tail gives its time back. */
  function NextAfterCancel(next: real, r: Reservation): real {
    if next == r.end then r.start else next
  }

  function Apply(t: Timeline, op: Op): Timeline
    requires Enabled(t, op)
  {
    match op
    case Reserve(now, bytes, rate) =>
      var r := Booked(t, now, bytes, rate);
      Timeline(r.end, t.live + [r])
    case Cancel(i) => Timeline(NextAfterCancel(t.next, t.live[i]), Without(t.live, i))
    case Wake => Timeline(ZERO_TIME, [])
  }

  /** Reservations are positive, pairwise disjoint, in order, and end by `next`. */
  ghost predicate Disjoint(t: Timeline) {
    && (forall i :: 0 <= i < |t.live| ==> t.live[i].start < t.live[i].end <= t.next)
    && (forall i, j :: 0 <= i < j < |t.live| ==> t.live[i].end <= t.live[j].start)
  }

  lemma LengthPositive(bytes: nat, rate: nat)
    requires bytes > 0 && rate > 0
    ensures Length(bytes, rate) > 0.0
  {
  }

  lemma CancelDisjoint(t: Timeline, i: nat)
    requires Disjoint(t) && i < |t.live|
    ensures Disjoint(Apply(t, Cancel(i)))
  {
    var t' := Apply(t, Cancel(i));
    forall k | 0 <= k < |t'.live| ensures t'.live[k].start < t'.live[k].end <= t'.next {
      var j := if k < i then k else k + 1;
      assert t'.live[k] == t.live[j];
    }
    forall k, l | 0 <= k < l < |t'.live| ensures t'.live[k].end <= t'.live[l].start {
      assert t'.live[k] == t.live[if k < i then k else k + 1] && t'.live[l] == t.live[if l < i then l else l + 1];
    }
  }

  lemma ReserveDisjoint(t: Timeline, now: real, bytes: nat, rate: nat)
    requires Disjoint(t) && bytes > 0 && rate > 0
    ensures Disjoint(Apply(t, Reserve(now, bytes, rate)))
  {
    LengthPositive(bytes, rate);
  }

  lemma StepDisjoint(t: Timeline, op: Op)
    requires Enabled(t, op) && Disjoint(t)
    ensures Disjoint(Apply(t, op))
  {
    match op
    case Reserve(now, bytes, rate) => ReserveDisjoint(t, now, bytes, rate);
    case Cancel(i) => CancelDisjoint(t, i);
    case Wake =>
  }

  /** Runs a sequence of operations; a disabled one is skipped. */
  function Run(t: Timeline, ops: seq<Op>): Timeline {
    if ops == [] then t
    else
      var before := Run(t, ops[..|ops| - 1]);
      var op := ops[|ops| - 1];
      if Enabled(before, op) then Apply(before, op) else before
  }

  /** Over any sequence of reservations, cancels of live reservations and wakes,
      what is reserved since the last wake never overlaps and ends by `next`. */
  lemma {:induction false} RunDisjoint(ops: seq<Op>)
    ensures Disjoint(Run(ZERO, ops))
  {
    if ops != [] {
      var before := Run(ZERO, ops[..|ops| - 1]);
      RunDisjoint(ops[..|ops| - 1]);
      if Enabled(before, ops[|ops| - 1]) {
        StepDisjoint(before, ops[|ops| - 1]);
      }
    }
  }

  // ---- the rate bound ----

  /** Bytes that pass in a stretch of time, as a function of its length only. */
  type Pace = real -> real

  function Plus(a: real, b: real): real { a + b }

  predicate Below(a: real, b: real) { a <= b }

  ghost predicate Linear(f: Pace) {
    && (forall a, b {:trigger Plus(a, b)} :: f(a) + f(b) == f(Plus(a, b)))
    && (forall a, b {:trigger Below(a, b)} :: Below(a, b) ==> f(a) <= f(b))
  }

  function PaceOf(rate: nat): Pace { (x: real) => rate as real * x }

  lemma TimesPlus(r: real, a: real, b: real)
    ensures r * a + r * b == r * (a + b)
  {
  }

  lemma TimesBelow(r: real, a: real, b: real)
    requires r >= 0.0 && a <= b
    ensures r * a <= r * b
  {
  }

  lemma PaceLinear(rate: nat)
    ensures Linear(PaceOf(rate))
  {
    forall a, b ensures PaceOf(rate)(a) + PaceOf(rate)(b) == PaceOf(rate)(Plus(a, b)) {
      TimesPlus(rate as real, a, b);
    }
    forall a, b | Below(a, b) ensures PaceOf(rate)(a) <= PaceOf(rate)(b) {
      TimesBelow(rate as real, a, b);
    }
  }

  /** Every live reservation takes exactly the time its bytes need at this pace. */
  ghost predicate AtPace(live: seq<Reservation>, f: Pace) {
    forall i :: 0 <= i < |live| ==> live[i].bytes as real == f(live[i].end - live[i].start)
  }

  lemma {:induction false} RunAtPace(t: Timeline, ops: seq<Op>, rate: nat)
    requires AtPace(t.live, PaceOf(rate))
    requires forall i :: 0 <= i < |ops| && ops[i].Reserve? ==> ops[i].rate == rate
    ensures AtPace(Run(t, ops).live, PaceOf(rate))
  {
    if ops != [] {
      var n := |ops| - 1;
      RunAtPace(t, ops[..n], rate);
      var before, op := Run(t, ops[..n]), ops[n];
      if Enabled(before, op) {
        StepAtPace(before, op, rate, PaceOf(rate));
      }
    }
  }

  lemma StepAtPace(t: Timeline, op: Op, rate: nat, f: Pace)
    requires Enabled(t, op) && AtPace(t.live, f) && f == PaceOf(rate) && (op.Reserve? ==> op.rate == rate)
    ensures AtPace(Apply(t, op).live, f)
  {
  }

  /** Bytes of the reservations that start in the window [from, from + span). */
  function WindowBytes(live: seq<Reservation>, from: real, span: real): nat {
    if live == [] then 0
    else
      var r := live[|live| - 1];
      WindowBytes(live[..|live| - 1], from, span) + if from <= r.start < from + span then r.bytes else 0
  }

  /** The time those reservations occupy. */
  function WindowTime(live: seq<Reservation>, from: real, span: real): real {
    if live == [] then 0.0
    else
      var r := live[|live| - 1];
      WindowTime(live[..|live| - 1], from, span) + if from <= r.start < from + span then r.end - r.start else 0.0
  }

  lemma {:induction false} BytesAreTime(live: seq<Reservation>, f: Pace, from: real, span: real)
    requires Linear(f) && AtPace(live, f)
    ensures WindowBytes(live, from, span) as real == f(WindowTime(live, from, span))
  {
    if live == [] {
      assert f(0.0) + f(0.0) == f(Plus(0.0, 0.0));
    } else {
      var n := |live| - 1;
      BytesAreTime(live[..n], f, from, span);
      var before, last := WindowTime(live[..n], from, span), live[n].end - live[n].start;
      assert f(before) + f(last) == f(Plus(before, last));
    }
  }

  /** Disjoint reservations that start after `from` fit between `from` and `next`. */
  lemma {:induction false} TimeFits(t: Timeline, from: real, span: real)
    requires Disjoint(t) && from <= t.next
    ensures WindowTime(t.live, from, span) <= t.next - from
    decreases |t.live|
  {
    if t.live != [] {
      var n := |t.live| - 1;
      var r := t.live[n];
      TimeFits(Timeline(if from <= r.start then r.start else t.next, t.live[..n]), from, span);
    }
  }

  ghost predicate ChunksWithin(live: seq<Reservation>, chunk: nat) {
    forall i :: 0 <= i < |live| ==> live[i].bytes <= chunk
  }

  lemma WindowPrefix(live: seq<Reservation>, m: nat, from: real, span: real)
    requires m < |live|
    ensures WindowBytes(live[..m + 1], from, span)
         == WindowBytes(live[..m], from, span) + if from <= live[m].start < from + span then live[m].bytes else 0
  {
    assert live[..m + 1][..m] == live[..m];
  }

  /** Reservations before one that starts in the window end before it starts. */
  lemma EarlierFit(t: Timeline, m: nat, from: real, span: real)
    requires Disjoint(t) && m < |t.live| && from <= t.live[m].start < from + span
    ensures WindowTime(t.live[..m], from, span) <= span
  {
    TimeFits(Timeline(t.live[m].start, t.live[..m]), from, span);
  }

  /** All but the last reservation that starts in the window also end in it. */
  lemma {:induction false} AllButOne(t: Timeline, chunk: nat, from: real, span: real, m: nat) returns (k: nat)
    requires Disjoint(t) && ChunksWithin(t.live, chunk) && span >= 0.0 && m <= |t.live|
    ensures k <= m && WindowTime(t.live[..k], from, span) <= span
    ensures WindowBytes(t.live[..m], from, span) <= WindowBytes(t.live[..k], from, span) + chunk
  {
    if m == 0 {
      k := 0;
    } else {
      WindowPrefix(t.live, m - 1, from, span);
      if from <= t.live[m - 1].start < from + span {
        EarlierFit(t, m - 1, from, span);
        k := m - 1;
      } else {
        k := AllButOne(t, chunk, from, span, m - 1);
      }
    }
  }

  lemma PaceBelow(f: Pace, a: real, b: real)
    requires Linear(f) && a <= b
    ensures f(a) <= f(b)
  {
    assert Below(a, b);
  }

  lemma PrefixBytes(live: seq<Reservation>, f: Pace, k: nat, from: real, span: real)
    requires Linear(f) && AtPace(live, f) && k <= |live| && WindowTime(live[..k], from, span) <= span
    ensures WindowBytes(live[..k], from, span) as real <= f(span)
  {
    BytesAreTime(live[..k], f, from, span);
    PaceBelow(f, WindowTime(live[..k], from, span), span);
  }

  /** In any window, at most what the pace lets through in its length, plus one chunk, starts. */
  lemma WindowBound(t: Timeline, f: Pace, chunk: nat, from: real, span: real)
    requires Disjoint(t) && Linear(f) && AtPace(t.live, f) && ChunksWithin(t.live, chunk) && span >= 0.0
    ensures WindowBytes(t.live, from, span) as real <= f(span) + chunk as real
  {
    var k := AllButOne(t, chunk, from, span, |t.live|);
    PrefixBytes(t.live, f, k, from, span);
    assert t.live[..|t.live|] == t.live;
  }

  /** The bound for whole runs at a fixed rate. */
  lemma RateLimited(ops: seq<Op>, rate: nat, chunk: nat, from: real, span: real)
    requires span >= 0.0
    requires forall i :: 0 <= i < |ops| && ops[i].Reserve? ==> ops[i].rate == rate
    requires ChunksWithin(Run(ZERO, ops).live, chunk)
    ensures WindowBytes(Run(ZERO, ops).live, from, span) as real <= PaceOf(rate)(span) + chunk as real
  {
    RunDisjoint(ops);
    RunAtPace(ZERO, ops, rate);
    PaceLinear(rate);
    WindowBound(Run(ZERO, ops), PaceOf(rate), chunk, from, span);
  }

  // ---- what a reservation waits for, and what is given back ----

  /** A chunk is booked at the clock or behind the queue, whichever is later. */
  lemma BookedStart(t: Timeline, now: real, bytes: nat, rate: nat)
    requires rate > 0
    ensures var r := Booked(t, now, bytes, rate);
            r.start >= now && r.start >= t.next && (r.start == now || r.start == t.next) && r.asked == now
  {
  }

  /** Cancelling the chunk booked last undoes the booking. */
  lemma CancelUndoes(t: Timeline, now: real, bytes: nat, rate: nat)
    requires bytes > 0 && rate > 0
    ensures var after := Apply(t, Reserve(now, bytes, rate));
            var undone := Apply(after, Cancel(|t.live|));
            undone.live == t.live && undone.next >= t.next && undone.next >= now
            && (undone.next == t.next || undone.next == now)
  {
    var after := Apply(t, Reserve(now, bytes, rate));
    assert Without(after.live, |t.live|) == t.live;
  }

  /** After a wake nobody waits: the next chunk starts at once. */
  lemma WakeFrees(t: Timeline, now: real, bytes: nat, rate: nat)
    requires bytes > 0 && rate > 0 && now >= 0.0
    ensures var live := Apply(Apply(t, Wake), Reserve(now, bytes, rate)).live;
            |live| == 1 && live[0].start == now
  {
  }

  ghost predicate NoneEarly(live: seq<Reservation>) {
    forall i :: 0 <= i < |live| ==> live[i].asked <= live[i].start
  }

  lemma {:induction false} RunNoneEarly(ops: seq<Op>)
    ensures NoneEarly(Run(ZERO, ops).live)
  {
    if ops != [] {
      RunNoneEarly(ops[..|ops| - 1]);
    }
  }

  /** Bytes of the chunks asked for at `from` or later that have left before from + span. */
  function LeftBytes(live: seq<Reservation>, leaves: seq<real>, from: real, span: real): nat
    requires |leaves| == |live|
  {
    if live == [] then 0
    else
      var k := |live| - 1;
      LeftBytes(live[..k], leaves[..k], from, span)
      + if from <= live[k].asked && leaves[k] < from + span then live[k].bytes else 0
  }

  /** A chunk leaves no earlier than its reserved start. */
  ghost predicate LeavesAfterStart(live: seq<Reservation>, leaves: seq<real>) {
    |leaves| == |live| && forall i :: 0 <= i < |live| ==> live[i].start <= leaves[i]
  }

  lemma {:induction false} LeftInWindow(live: seq<Reservation>, leaves: seq<real>, from: real, span: real)
    requires NoneEarly(live) && LeavesAfterStart(live, leaves)
    ensures LeftBytes(live, leaves, from, span) <= WindowBytes(live, from, span)
  {
    if live != [] {
      LeftInWindow(live[..|live| - 1], leaves[..|live| - 1], from, span);
    }
  }

  lemma LeftWithin(live: seq<Reservation>, leaves: seq<real>, from: real, span: real, bound: real)
    requires NoneEarly(live) && LeavesAfterStart(live, leaves) && WindowBytes(live, from, span) as real <= bound
    ensures LeftBytes(live, leaves, from, span) as real <= bound
  {
    LeftInWindow(live, leaves, from, span);
  }

  lemma PaceIsRate(rate: nat, span: real, bound: real)
    requires bound == rate as real * span
    ensures PaceOf(rate)(span) == bound
  {
  }

  /** The limit as a user meets it: of the chunks asked for from some instant on, what has
      left within a time span is at most the rate times its length plus one chunk,
      however late each of them leaves. */
  lemma DeparturesLimited(ops: seq<Op>, rate: nat, chunk: nat, leaves: seq<real>, from: real, span: real, bound: real)
    requires span >= 0.0 && bound == rate as real * span
    requires forall i :: 0 <= i < |ops| && ops[i].Reserve? ==> ops[i].rate == rate
    requires ChunksWithin(Run(ZERO, ops).live, chunk) && LeavesAfterStart(Run(ZERO, ops).live, leaves)
    ensures LeftBytes(Run(ZERO, ops).live, leaves, from, span) as real <= bound + chunk as real
  {
    RateLimited(ops, rate, chunk, from, span);
    PaceIsRate(rate, span, bound);
    RunNoneEarly(ops);
    LeftWithin(Run(ZERO, ops).live, leaves, from, span, bound + chunk as real);
  }

  // ---- cancels that arrive after a wake ----

  /** A reservation of an earlier epoch cancelling late is safe exactly when it
      does not hit the tail by coincidence, or gives back no live time. */
  lemma LateCancelSafe(t: Timeline, stale: Reservation)
    requires Disjoint(t)
    ensures Disjoint(LateCancelled(t, stale))
            <==> (t.next != stale.end || t.live == [] || t.live[|t.live| - 1].end <= stale.start)
  {
  }

  /** The timeline after a cancel from before the last wake. */
  function LateCancelled(t: Timeline, stale: Reservation): Timeline { t.(next := NextAfterCancel(t.next, stale)) }

  /** Seen from the next booking: the same condition decides whether every chunk that
      can be reserved next stays clear of the live ones. */
  lemma LateCancelExactly(t: Timeline, stale: Reservation)
    requires Disjoint(t)
    ensures (forall now, bytes: nat, rate: nat :: bytes > 0 && rate > 0 ==>
               Disjoint(Apply(LateCancelled(t, stale), Reserve(now, bytes, rate))))
            <==> (t.next != stale.end || t.live == [] || t.live[|t.live| - 1].end <= stale.start)
  {
    var late := LateCancelled(t, stale);
    LateCancelSafe(t, stale);
    if Disjoint(late) {
      forall now, bytes: nat, rate: nat | bytes > 0 && rate > 0
        ensures Disjoint(Apply(late, Reserve(now, bytes, rate)))
      {
        StepDisjoint(late, Reserve(now, bytes, rate));
      }
    } else {
      var after := Apply(late, Reserve(late.next, 1, 1));
      var last := |t.live| - 1;
      assert after.live[last] == t.live[last] && after.live[last + 1].start == stale.start;
    }
  }

  const ZERO: Timeline := Timeline(ZERO_TIME, [])

  lemma RunNext(t: Timeline, ops: seq<Op>, op: Op)
    requires Enabled(Run(t, ops), op)
    ensures Run(t, ops + [op]) == Apply(Run(t, ops), op)
  {
    assert (ops + [op])[..|ops|] == ops;
  }

  /** The coincidence is real. At second 5 a chunk takes 5 to 7 and a second one queues
      for 7 to 9; a wake resets the timeline and a third books 5 to 9; only then the
      waiting second one cancels, and the next chunk is booked inside the third. */
  lemma LateCancelOverlaps()
    ensures var queued := Run(ZERO, [Reserve(5.0, 2, 1), Reserve(5.0, 2, 1)]);
            var woken := Run(ZERO, [Reserve(5.0, 2, 1), Reserve(5.0, 2, 1), Wake, Reserve(5.0, 4, 1)]);
            && |queued.live| == 2 && queued.live[1].start > 5.0
            && var after := Apply(LateCancelled(woken, queued.live[1]), Reserve(5.0, 1, 1));
            |after.live| == 2 && after.live[0].start < after.live[1].start < after.live[0].end
  {
    var two := [Reserve(5.0, 2, 1), Reserve(5.0, 2, 1)];
    RunNext(ZERO, [], Reserve(5.0, 2, 1));
    RunNext(ZERO, [Reserve(5.0, 2, 1)], Reserve(5.0, 2, 1));
    assert [] + [Reserve(5.0, 2, 1)] == [Reserve(5.0, 2, 1)];
    assert [Reserve(5.0, 2, 1)] + [Reserve(5.0, 2, 1)] == two;
    assert Run(ZERO, two) == Timeline(9.0, [Reservation(5.0, 7.0, 2, 5.0), Reservation(7.0, 9.0, 2, 5.0)]);
    RunNext(ZERO, two, Wake);
    RunNext(ZERO, two + [Wake], Reserve(5.0, 4, 1));
    assert two + [Wake] + [Reserve(5.0, 4, 1)] == [Reserve(5.0, 2, 1), Reserve(5.0, 2, 1), Wake, Reserve(5.0, 4, 1)];
  }

  // ---- the limiter object ----

  class DownloadLimiter {
    var next: real
    ghost var live: seq<Reservation>

    ghost function View(): Timeline reads this { Timeline(next, live) }

    constructor ()
      ensures View() == Timeline(ZERO_TIME, [])
    {
      next, live := ZERO_TIME, [];
    }

    method ReserveChunk(now: real, bytes: nat, rate: nat) returns (waitUntil: real, end: real)
      requires rate > 0 && bytes > 0
      modifies this
      ensures View() == Apply(old(View()), Reserve(now, bytes, rate))
      ensures live[|live| - 1] == Reservation(waitUntil, end, bytes, now)
      ensures waitUntil >= now && waitUntil >= old(next) && (waitUntil == now || waitUntil == old(next))
      ensures next == end
    {
      if next < now {
        next := now;
      }
      waitUntil := next;
      end := next + bytes as real / rate as real;
      next := end;
      live := live + [Reservation(waitUntil, end, bytes, now)];
    }

    /** `index` is the position of the reservation while it is live; None when a wake
        came in between. Only the tail gives its time back. */
    method CancelReservation(end: real, start: real, ghost index: Option<nat>)
      requires index.Some? ==>
                 index.value < |live| && live[index.value].start == start && live[index.value].end == end
      modifies this
      ensures index.Some? ==> View() == Apply(old(View()), Cancel(index.value))
      ensures index.None? ==> forall bytes: nat, asked ::
                View() == LateCancelled(old(View()), Reservation(start, end, bytes, asked))
      ensures next == if old(next) == end then start else old(next)
    {
      if next == end {
        next := start;
      }
      live := if index.Some? then Without(live, index.value) else live;
    }

    method WakeUp()
      modifies this
      ensures View() == Apply(old(View()), Wake) && next == 0.0 && live == []
    {
      next, live := ZERO_TIME, [];
    }
  }
}
