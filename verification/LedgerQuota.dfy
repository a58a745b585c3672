/** The monthly quota over whole runs: what is admitted and forwarded fits the limit,
    what has passed it stays refused, and when the charged total is within it. */
module LedgerQuota {
  import opened Basics
  import opened Identity
  import opened Calendars
  import opened Meters
  import opened TrafficLedger
  import opened LedgerSafety
  import opened LedgerRuns

  function AdmittedSum(u: string, month: int, h: seq<Event>): nat {
    if h == [] then 0
    else
      var e := h[|h| - 1];
      AdmittedSum(u, month, h[..|h| - 1])
      + if e.admitted && Covers(UserMonth(u, month), e.key) then e.tx + e.rx else 0
  }

  function ForwardedSum(u: string, month: int, h: seq<Event>): nat {
    if h == [] then 0
    else
      var e := h[|h| - 1];
      ForwardedSum(u, month, h[..|h| - 1])
      + if Covers(UserMonth(u, month), e.key) then e.forwarded else 0
  }

  /** Some charge of the user was answered true in the month. */
  ghost predicate AnyAdmitted(u: string, month: int, h: seq<Event>) {
    exists i :: 0 <= i < |h| && h[i].admitted && Covers(UserMonth(u, month), h[i].key)
  }

  ghost function Baseline(cal: Calendar, origin: seq<Row>, u: string, month: int): nat {
    LogSum(cal, Meter(UserMonth(u, month), Both), origin)
  }

  /** Bytes charged to the user in the month, whether admitted or refused, with what
      the process started from. This is what the quota cache shows. */
  ghost function Charged(cal: Calendar, origin: seq<Row>, u: string, month: int, h: seq<Event>): nat {
    Baseline(cal, origin, u, month) + EventSum(Meter(UserMonth(u, month), Both), h)
  }

  ghost predicate InsideLimit(s: Ledger, u: string, max: nat) {
    s.inside.Some? && s.inside.value.id.user == u ==> s.inside.value.maxBytes == max
  }

  /** Either nothing was admitted, or the month's starting total plus everything
      admitted since fits the limit. */
  ghost predicate WithinQuota(cal: Calendar, origin: seq<Row>, s: Ledger, u: string, month: int, max: nat) {
    AnyAdmitted(u, month, s.history) ==>
      Baseline(cal, origin, u, month) + AdmittedSum(u, month, s.history) <= max
  }

  lemma {:induction false} AdmittedAtMostCharged(u: string, month: int, h: seq<Event>)
    ensures AdmittedSum(u, month, h) <= EventSum(Meter(UserMonth(u, month), Both), h)
  {
    if h != [] {
      AdmittedAtMostCharged(u, month, h[..|h| - 1]);
    }
  }

  lemma {:induction false} ForwardedAtMostAdmitted(u: string, month: int, h: seq<Event>)
    requires Forwards(h)
    ensures ForwardedSum(u, month, h) <= AdmittedSum(u, month, h)
    ensures !AnyAdmitted(u, month, h) ==> ForwardedSum(u, month, h) == 0
  {
    if h != [] {
      var k := |h| - 1;
      ForwardedAtMostAdmitted(u, month, h[..k]);
      assert forall i :: 0 <= i < k ==> h[..k][i] == h[i];
    }
  }

  lemma {:induction false} AdmittedSame(u: string, month: int, h: seq<Event>, i: nat, n: nat)
    requires i < |h|
    ensures AdmittedSum(u, month, h[i := h[i].(forwarded := n)]) == AdmittedSum(u, month, h)
    ensures AnyAdmitted(u, month, h[i := h[i].(forwarded := n)]) ==> AnyAdmitted(u, month, h)
  {
    var k := |h| - 1;
    var h' := h[i := h[i].(forwarded := n)];
    if i < k {
      AdmittedSame(u, month, h[..k], i, n);
      assert h'[..k] == h[..k][i := h[i].(forwarded := n)];
    } else {
      assert h'[..k] == h[..k];
    }
    if AnyAdmitted(u, month, h') {
      var j :| 0 <= j < |h'| && h'[j].admitted && Covers(UserMonth(u, month), h'[j].key);
      assert h[j].admitted && Covers(UserMonth(u, month), h[j].key);
    }
  }

  /** A charge admitted by an exact cache leaves the books within the limit. */
  lemma AdmitFits(cal: Calendar, origin: seq<Row>, s: Ledger, c: Charge)
    requires Balanced(cal, origin, s) && CachesExact(cal, s) && s.month == Some(cal.month(c.now))
    requires Admits(s, c) && c.maxBytes > 0
    ensures Charged(cal, origin, c.id.user, cal.month(c.now), s.history) + c.tx + c.rx <= c.maxBytes
  {
    assert CacheExact(cal, s, c.id.user);
    assert Conserves(cal, origin, s, Meter(UserMonth(c.id.user, cal.month(c.now)), Both));
  }

  lemma AppendAdmitted(u: string, month: int, h: seq<Event>, e: Event)
    ensures AdmittedSum(u, month, h + [e])
         == AdmittedSum(u, month, h) + if e.admitted && Covers(UserMonth(u, month), e.key) then e.tx + e.rx else 0
    ensures AnyAdmitted(u, month, h + [e]) && !(e.admitted && Covers(UserMonth(u, month), e.key)) ==>
              AnyAdmitted(u, month, h)
  {
    assert (h + [e])[..|h|] == h;
    if AnyAdmitted(u, month, h + [e]) && !(e.admitted && Covers(UserMonth(u, month), e.key)) {
      var j :| 0 <= j < |h + [e]| && (h + [e])[j].admitted && Covers(UserMonth(u, month), (h + [e])[j].key);
      assert h[j] == (h + [e])[j];
    }
  }

  /** An admitted charge saw a total that already contained every admitted byte. */
  lemma CommitWithinQuota(cal: Calendar, origin: seq<Row>, s: Ledger, u: string, month: int, max: nat)
    requires Inv(cal, origin, s) && s.inside.Some? && max > 0 && InsideLimit(s, u, max)
    requires WithinQuota(cal, origin, s, u, month, max)
    ensures WithinQuota(cal, origin, Commits(cal, s, s.inside.value), u, month, max)
  {
    var c := s.inside.value;
    var e := Answered(cal, s, c);
    AppendAdmitted(u, month, s.history, e);
    if e.admitted && Covers(UserMonth(u, month), e.key) {
      AdmitFits(cal, origin, s, c);
      AdmittedAtMostCharged(u, month, s.history);
    }
  }

  /** The user's limit never changes during the run. */
  ghost predicate FixedQuota(steps: seq<Step>, u: string, max: nat) {
    forall i :: 0 <= i < |steps| && steps[i].Enter? && steps[i].charge.id.user == u
                ==> steps[i].charge.maxBytes == max
  }

  lemma QuotaStep(cal: Calendar, origin: seq<Row>, s: Ledger, step: Step, s': Ledger, u: string, month: int, max: nat)
    requires Inv(cal, origin, s) && Next(cal, s, step, s') && max > 0
    requires step.Enter? && step.charge.id.user == u ==> step.charge.maxBytes == max
    requires WithinQuota(cal, origin, s, u, month, max) && InsideLimit(s, u, max)
    ensures WithinQuota(cal, origin, s', u, month, max) && InsideLimit(s', u, max)
  {
    HistoryEffect(cal, s, step, s');
    if step.Commit? {
      CommitWithinQuota(cal, origin, s, u, month, max);
    } else if step.Forward? {
      AdmittedSame(u, month, s.history, step.index, step.bytes);
    }
  }

  lemma {:induction false} InsideFixed(cal: Calendar, origin: seq<Row>, trace: seq<Ledger>, steps: seq<Step>,
                                       u: string, max: nat, i: nat)
    requires IsRun(cal, origin, trace, steps) && i < |trace| && FixedQuota(steps, u, max)
    ensures InsideLimit(trace[i], u, max)
  {
    if i > 0 {
      InsideFixed(cal, origin, trace, steps, u, max, i - 1);
      assert NextAt(cal, trace, steps, i - 1);
      HistoryEffect(cal, trace[i - 1], steps[i - 1], trace[i]);
    }
  }

  lemma {:induction false} QuotaInductive(cal: Calendar, origin: seq<Row>, trace: seq<Ledger>, steps: seq<Step>,
                                          u: string, month: int, max: nat, i: nat)
    requires IsRun(cal, origin, trace, steps) && i < |trace|
    requires FixedQuota(steps, u, max) && max > 0
    ensures WithinQuota(cal, origin, trace[i], u, month, max) && InsideLimit(trace[i], u, max)
  {
    if i > 0 {
      var s, step := trace[i - 1], steps[i - 1];
      QuotaInductive(cal, origin, trace, steps, u, month, max, i - 1);
      RunStep(cal, origin, trace, steps, i);
      QuotaStep(cal, origin, s, step, trace[i], u, month, max);
    }
  }

  /** Forwarded bytes obey the limit across all nodes, relays and month reloads. */
  lemma ForwardedWithinQuota(cal: Calendar, origin: seq<Row>, trace: seq<Ledger>, steps: seq<Step>,
                             u: string, month: int, max: nat, i: nat)
    requires IsRun(cal, origin, trace, steps) && i < |trace|
    requires FixedQuota(steps, u, max) && max > 0
    ensures var h := trace[i].history;
            || (!AnyAdmitted(u, month, h) && ForwardedSum(u, month, h) == 0)
            || (Baseline(cal, origin, u, month) + AdmittedSum(u, month, h) <= max
                && Baseline(cal, origin, u, month) + ForwardedSum(u, month, h) <= max)
  {
    RunKeeps(cal, origin, trace, steps, i);
    QuotaInductive(cal, origin, trace, steps, u, month, max, i);
    ForwardedAtMostAdmitted(u, month, trace[i].history);
  }

  // ---- after the limit has been passed ----

  /** No charge of the user-month from position n on was admitted. */
  ghost predicate RefusedFrom(u: string, month: int, h: seq<Event>, n: nat) {
    forall i :: n <= i < |h| && Covers(UserMonth(u, month), h[i].key) ==> !h[i].admitted
  }

  ghost predicate OverQuota(cal: Calendar, origin: seq<Row>, h: seq<Event>, u: string, month: int, max: nat, n: nat) {
    Charged(cal, origin, u, month, h) > max && n <= |h| && RefusedFrom(u, month, h, n)
  }

  /** A charge is refused when the bytes already charged are above the limit. */
  lemma OverQuotaCommit(cal: Calendar, origin: seq<Row>, s: Ledger, u: string, month: int, max: nat, n: nat)
    requires Inv(cal, origin, s) && s.inside.Some? && InsideLimit(s, u, max) && max > 0
    requires OverQuota(cal, origin, s.history, u, month, max, n)
    ensures OverQuota(cal, origin, Commits(cal, s, s.inside.value).history, u, month, max, n)
  {
    var c := s.inside.value;
    if c.id.user == u && cal.month(c.now) == month && Admits(s, c) {
      AdmitFits(cal, origin, s, c);
    }
    EventSumAppend(Meter(UserMonth(u, month), Both), s.history, Answered(cal, s, c));
  }

  lemma OverQuotaForward(cal: Calendar, origin: seq<Row>, h: seq<Event>,
                         u: string, month: int, max: nat, n: nat, i: nat, bytes: nat)
    requires OverQuota(cal, origin, h, u, month, max, n) && i < |h|
    ensures OverQuota(cal, origin, h[i := h[i].(forwarded := bytes)], u, month, max, n)
  {
    EventSumSame(Meter(UserMonth(u, month), Both), h, i, bytes);
  }

  lemma OverQuotaStep(cal: Calendar, origin: seq<Row>, s: Ledger, step: Step, s': Ledger,
                      u: string, month: int, max: nat, n: nat)
    requires Inv(cal, origin, s) && Next(cal, s, step, s') && InsideLimit(s, u, max) && max > 0
    requires OverQuota(cal, origin, s.history, u, month, max, n)
    ensures OverQuota(cal, origin, s'.history, u, month, max, n)
  {
    HistoryEffect(cal, s, step, s');
    if step.Commit? {
      OverQuotaCommit(cal, origin, s, u, month, max, n);
    } else if step.Forward? {
      OverQuotaForward(cal, origin, s.history, u, month, max, n, step.index, step.bytes);
    }
  }

  /** Once baseline plus charged bytes of a user-month have passed the fixed limit, no
      later charge of that month is admitted, over any flushes, reloads and clock changes. */
  lemma {:induction false} OverQuotaStaysRefused(cal: Calendar, origin: seq<Row>, trace: seq<Ledger>, steps: seq<Step>,
                                                 u: string, month: int, max: nat, i: nat, j: nat)
    requires IsRun(cal, origin, trace, steps) && i <= j < |trace| && FixedQuota(steps, u, max) && max > 0
    requires Charged(cal, origin, u, month, trace[i].history) > max
    ensures OverQuota(cal, origin, trace[j].history, u, month, max, |trace[i].history|)
    decreases j
  {
    if i < j {
      OverQuotaStaysRefused(cal, origin, trace, steps, u, month, max, i, j - 1);
      QuotaInductive(cal, origin, trace, steps, u, month, max, j - 1);
      RunStep(cal, origin, trace, steps, j);
      OverQuotaStep(cal, origin, trace[j - 1], steps[j - 1], trace[j], u, month, max, |trace[i].history|);
    }
  }

  /** Some charge of the user-month was refused. */
  ghost predicate AnyRefused(u: string, month: int, h: seq<Event>) {
    exists i :: 0 <= i < |h| && !h[i].admitted && Covers(UserMonth(u, month), h[i].key)
  }

  /** A refused charge stays charged, and takes the total above the limit. */
  lemma RefusalExceeds(cal: Calendar, origin: seq<Row>, s: Ledger, c: Charge)
    requires Balanced(cal, origin, s) && CachesExact(cal, s) && s.month == Some(cal.month(c.now)) && !Admits(s, c)
    ensures Charged(cal, origin, c.id.user, cal.month(c.now), s.history) + c.tx + c.rx > c.maxBytes
  {
    assert CacheExact(cal, s, c.id.user);
    assert Conserves(cal, origin, s, Meter(UserMonth(c.id.user, cal.month(c.now)), Both));
  }

  ghost predicate RefusedExceeds(cal: Calendar, origin: seq<Row>, h: seq<Event>, u: string, month: int, max: nat) {
    AnyRefused(u, month, h) ==> Charged(cal, origin, u, month, h) > max
  }

  lemma RefusalCommit(cal: Calendar, origin: seq<Row>, s: Ledger, u: string, month: int, max: nat)
    requires Inv(cal, origin, s) && s.inside.Some? && InsideLimit(s, u, max)
    requires RefusedExceeds(cal, origin, s.history, u, month, max)
    ensures RefusedExceeds(cal, origin, Commits(cal, s, s.inside.value).history, u, month, max)
  {
    var c := s.inside.value;
    var e := Answered(cal, s, c);
    var h := s.history + [e];
    EventSumAppend(Meter(UserMonth(u, month), Both), s.history, e);
    if !e.admitted && Covers(UserMonth(u, month), e.key) {
      RefusalExceeds(cal, origin, s, c);
    } else if AnyRefused(u, month, h) {
      var i :| 0 <= i < |h| && !h[i].admitted && Covers(UserMonth(u, month), h[i].key);
      assert s.history[i] == h[i];
    }
  }

  lemma RefusalForward(cal: Calendar, origin: seq<Row>, h: seq<Event>,
                       u: string, month: int, max: nat, i: nat, bytes: nat)
    requires RefusedExceeds(cal, origin, h, u, month, max) && i < |h|
    ensures RefusedExceeds(cal, origin, h[i := h[i].(forwarded := bytes)], u, month, max)
  {
    var h' := h[i := h[i].(forwarded := bytes)];
    EventSumSame(Meter(UserMonth(u, month), Both), h, i, bytes);
    if AnyRefused(u, month, h') {
      var k :| 0 <= k < |h'| && !h'[k].admitted && Covers(UserMonth(u, month), h'[k].key);
      assert !h[k].admitted && Covers(UserMonth(u, month), h[k].key);
    }
  }

  lemma {:induction false} RefusalsExceed(cal: Calendar, origin: seq<Row>, trace: seq<Ledger>, steps: seq<Step>,
                                          u: string, month: int, max: nat, i: nat)
    requires IsRun(cal, origin, trace, steps) && i < |trace| && FixedQuota(steps, u, max) && max > 0
    ensures RefusedExceeds(cal, origin, trace[i].history, u, month, max)
  {
    if i > 0 {
      var s, step := trace[i - 1], steps[i - 1];
      RefusalsExceed(cal, origin, trace, steps, u, month, max, i - 1);
      QuotaInductive(cal, origin, trace, steps, u, month, max, i - 1);
      RunStep(cal, origin, trace, steps, i);
      HistoryEffect(cal, s, step, trace[i]);
      if step.Commit? {
        RefusalCommit(cal, origin, s, u, month, max);
      } else if step.Forward? {
        RefusalForward(cal, origin, s.history, u, month, max, step.index, step.bytes);
      }
    }
  }

  lemma {:induction false} AllAdmitted(u: string, month: int, h: seq<Event>)
    requires !AnyRefused(u, month, h)
    ensures EventSum(Meter(UserMonth(u, month), Both), h) == AdmittedSum(u, month, h)
    ensures !AnyAdmitted(u, month, h) ==> EventSum(Meter(UserMonth(u, month), Both), h) == 0
  {
    if h != [] {
      var k := |h| - 1;
      assert forall i :: 0 <= i < k ==> h[..k][i] == h[i];
      assert h[k].admitted || !Covers(UserMonth(u, month), h[k].key);
      AllAdmitted(u, month, h[..k]);
    }
  }

  /** Seen from the answers: the total is within a fixed limit if and only if it began
      there and no charge was refused. */
  lemma WithinUnlessRefused(cal: Calendar, origin: seq<Row>, trace: seq<Ledger>, steps: seq<Step>,
                            u: string, month: int, max: nat, i: nat)
    requires IsRun(cal, origin, trace, steps) && i < |trace| && FixedQuota(steps, u, max) && max > 0
    ensures Charged(cal, origin, u, month, trace[i].history) <= max
            <==> Baseline(cal, origin, u, month) <= max && !AnyRefused(u, month, trace[i].history)
  {
    RefusalsExceed(cal, origin, trace, steps, u, month, max, i);
    QuotaInductive(cal, origin, trace, steps, u, month, max, i);
    if !AnyRefused(u, month, trace[i].history) {
      AllAdmitted(u, month, trace[i].history);
    }
  }

  /** Step k commits a charge of the user-month for which the cached usage leaves no room. */
  ghost predicate Overcharges(cal: Calendar, trace: seq<Ledger>, steps: seq<Step>,
                              u: string, month: int, max: nat, k: nat) {
    && k < |steps| && k < |trace| && steps[k].Commit? && trace[k].inside.Some?
    && Covers(UserMonth(u, month), ChargeKey(cal, trace[k].inside.value))
    && Total(trace[k], trace[k].inside.value) > max
  }

  ghost predicate AnyOvercharge(cal: Calendar, trace: seq<Ledger>, steps: seq<Step>,
                                u: string, month: int, max: nat, i: nat) {
    exists k: nat :: k < i && Overcharges(cal, trace, steps, u, month, max, k)
  }

  lemma AppendRefused(u: string, month: int, h: seq<Event>, e: Event)
    ensures AnyRefused(u, month, h + [e])
            <==> AnyRefused(u, month, h) || (!e.admitted && Covers(UserMonth(u, month), e.key))
  {
    var h' := h + [e];
    assert h'[|h|] == e && forall i :: 0 <= i < |h| ==> h'[i] == h[i];
    if AnyRefused(u, month, h) {
      var i :| 0 <= i < |h| && !h[i].admitted && Covers(UserMonth(u, month), h[i].key);
      assert !h'[i].admitted;
    }
  }

  lemma ForwardRefused(u: string, month: int, h: seq<Event>, i: nat, bytes: nat)
    requires i < |h|
    ensures AnyRefused(u, month, h[i := h[i].(forwarded := bytes)]) <==> AnyRefused(u, month, h)
  {
    var h' := h[i := h[i].(forwarded := bytes)];
    assert forall k :: 0 <= k < |h| ==> h'[k].admitted == h[k].admitted && h'[k].key == h[k].key;
  }

  /** One step refuses a charge of the user-month exactly when it overcharges. */
  lemma RefusedStep(cal: Calendar, trace: seq<Ledger>, steps: seq<Step>, u: string, month: int, max: nat, k: nat)
    requires NextAt(cal, trace, steps, k) && InsideLimit(trace[k], u, max) && max > 0
    ensures AnyRefused(u, month, trace[k + 1].history)
            <==> AnyRefused(u, month, trace[k].history) || Overcharges(cal, trace, steps, u, month, max, k)
  {
    var s, step := trace[k], steps[k];
    HistoryEffect(cal, s, step, trace[k + 1]);
    if step.Commit? {
      var c := s.inside.value;
      AppendRefused(u, month, s.history, Answered(cal, s, c));
    } else if step.Forward? {
      ForwardRefused(u, month, s.history, step.index, step.bytes);
    }
  }

  lemma OverchargeNext(cal: Calendar, trace: seq<Ledger>, steps: seq<Step>, u: string, month: int, max: nat, i: nat)
    ensures AnyOvercharge(cal, trace, steps, u, month, max, i + 1)
            <==> AnyOvercharge(cal, trace, steps, u, month, max, i) || Overcharges(cal, trace, steps, u, month, max, i)
  {
  }

  ghost predicate RefusedWhenOver(cal: Calendar, trace: seq<Ledger>, steps: seq<Step>,
                                  u: string, month: int, max: nat, i: nat)
    requires i < |trace|
  {
    AnyRefused(u, month, trace[i].history) <==> AnyOvercharge(cal, trace, steps, u, month, max, i)
  }

  lemma RefusedNext(cal: Calendar, trace: seq<Ledger>, steps: seq<Step>, u: string, month: int, max: nat, i: nat)
    requires NextAt(cal, trace, steps, i) && InsideLimit(trace[i], u, max) && max > 0
    requires RefusedWhenOver(cal, trace, steps, u, month, max, i)
    ensures RefusedWhenOver(cal, trace, steps, u, month, max, i + 1)
  {
    RefusedStep(cal, trace, steps, u, month, max, i);
    OverchargeNext(cal, trace, steps, u, month, max, i);
  }

  lemma RefusedStart(cal: Calendar, trace: seq<Ledger>, steps: seq<Step>, u: string, month: int, max: nat)
    requires trace != [] && trace[0].history == []
    ensures RefusedWhenOver(cal, trace, steps, u, month, max, 0)
  {
  }

  lemma {:induction false} RefusedIsOvercharged(cal: Calendar, origin: seq<Row>, trace: seq<Ledger>, steps: seq<Step>,
                                                u: string, month: int, max: nat, i: nat)
    requires IsRun(cal, origin, trace, steps) && i < |trace| && FixedQuota(steps, u, max) && max > 0
    ensures RefusedWhenOver(cal, trace, steps, u, month, max, i)
  {
    if i == 0 {
      RefusedStart(cal, trace, steps, u, month, max);
    } else {
      RefusedIsOvercharged(cal, origin, trace, steps, u, month, max, i - 1);
      InsideFixed(cal, origin, trace, steps, u, max, i - 1);
      assert NextAt(cal, trace, steps, i - 1);
      RefusedNext(cal, trace, steps, u, month, max, i - 1);
    }
  }

  /** Refused bytes count as well, so the total can pass the limit. Seen from the guard:
      it stays within a fixed limit if and only if it began there and no charge of the
      month came to its critical section with the cached usage leaving no room for it. */
  lemma TotalWithinExactly(cal: Calendar, origin: seq<Row>, trace: seq<Ledger>, steps: seq<Step>,
                           u: string, month: int, max: nat, i: nat)
    requires IsRun(cal, origin, trace, steps) && i < |trace| && FixedQuota(steps, u, max) && max > 0
    ensures Charged(cal, origin, u, month, trace[i].history) <= max
            <==> && Baseline(cal, origin, u, month) <= max
                 && !AnyOvercharge(cal, trace, steps, u, month, max, i)
  {
    WithinUnlessRefused(cal, origin, trace, steps, u, month, max, i);
    RefusedIsOvercharged(cal, origin, trace, steps, u, month, max, i);
  }

  // ---- how a charge is answered ----

  /** Room is decided by the limit and the books alone: zero means no limit. */
  ghost predicate HasRoom(cal: Calendar, s: Ledger, c: Charge) {
    c.maxBytes == 0 ||
    Held(cal, s, Meter(UserMonth(c.id.user, cal.month(c.now)), Both)) + c.tx + c.rx <= c.maxBytes
  }

  /** In every run a commit records its own charge, and answers false if and only if its
      limit is positive and persisted, in-flight and pending bytes of the user's month
      together with the charge exceed it. */
  lemma AnsweredByBooks(cal: Calendar, origin: seq<Row>, trace: seq<Ledger>, steps: seq<Step>, k: nat)
    requires IsRun(cal, origin, trace, steps) && k < |steps| && steps[k].Commit?
    ensures trace[k].inside.Some?
    ensures var c := trace[k].inside.value;
            var e := Event(Key(c.id, cal.month(c.now)), c.now, c.tx, c.rx, HasRoom(cal, trace[k], c), 0);
            trace[k + 1].history == trace[k].history + [e]
  {
    RunKeeps(cal, origin, trace, steps, k);
    assert NextAt(cal, trace, steps, k);
    assert CacheExact(cal, trace[k], trace[k].inside.value.id.user);
  }

  /** Charges of one user are all answered true. */
  ghost predicate NeverRefused(u: string, h: seq<Event>) {
    forall i :: 0 <= i < |h| && h[i].key.id.user == u ==> h[i].admitted
  }

  lemma UnlimitedStep(cal: Calendar, origin: seq<Row>, trace: seq<Ledger>, steps: seq<Step>, k: nat, u: string)
    requires IsRun(cal, origin, trace, steps) && k < |steps|
    requires InsideLimit(trace[k], u, 0) && NeverRefused(u, trace[k].history)
    ensures NeverRefused(u, trace[k + 1].history)
  {
    assert NextAt(cal, trace, steps, k);
    HistoryEffect(cal, trace[k], steps[k], trace[k + 1]);
    if steps[k].Commit? {
      AnsweredByBooks(cal, origin, trace, steps, k);
    }
  }

  /** A user whose limit is zero throughout is never refused a charge. */
  lemma {:induction false} UnlimitedNeverRefused(cal: Calendar, origin: seq<Row>, trace: seq<Ledger>, steps: seq<Step>,
                                                 u: string, i: nat)
    requires IsRun(cal, origin, trace, steps) && i < |trace| && FixedQuota(steps, u, 0)
    ensures NeverRefused(u, trace[i].history)
  {
    if i > 0 {
      UnlimitedNeverRefused(cal, origin, trace, steps, u, i - 1);
      InsideFixed(cal, origin, trace, steps, u, 0, i - 1);
      UnlimitedStep(cal, origin, trace, steps, i - 1, u);
    }
  }

  // ---- a run in which the total passes the limit ----

  const BIG: nat := 150
  const LIMIT: nat := 100

  function BigCharge(now: int): Charge { Charge(RouteID("u", "n"), BIG, 0, now, LIMIT) }

  function EmptyLedger(month: Option<int>, holder: Holder, inside: Option<Charge>): Ledger {
    Ledger(month, map[], map[], map[], map[], holder, inside, false, false, [], map[], [])
  }

  lemma LoadsEmpty(cal: Calendar, m: int)
    ensures BeginsLoad(cal, EmptyLedger(None, Free, None), m, EmptyLedger(None, Loading(m, map[]), None))
    ensures Installs(EmptyLedger(None, Loading(m, map[]), None), EmptyLedger(Some(m), Free, None))
  {
  }

  /** With nothing stored and a limit of 100, one charge of 150 is refused and leaves
      the month's total at 150. */
  lemma RefusedChargeCounts(cal: Calendar, now: int) returns (trace: seq<Ledger>, steps: seq<Step>)
    requires cal.Valid() && now > 0
    ensures IsRun(cal, [], trace, steps) && FixedQuota(steps, "u", LIMIT) && |steps| == 4
    ensures Baseline(cal, [], "u", cal.month(now)) == 0
    ensures Charged(cal, [], "u", cal.month(now), trace[4].history) == BIG
  {
    var m, c := cal.month(now), BigCharge(now);
    var s3 := EmptyLedger(Some(m), Free, Some(c));
    trace := [EmptyLedger(None, Free, None), EmptyLedger(None, Loading(m, map[]), None),
              EmptyLedger(Some(m), Free, None), s3, Commits(cal, s3, c)];
    steps := [BeginLoad(m), Install, Enter(c), Commit];
    LoadsEmpty(cal, m);
    assert NextAt(cal, trace, steps, 0) && NextAt(cal, trace, steps, 1);
    assert NextAt(cal, trace, steps, 2) && NextAt(cal, trace, steps, 3);
    EventSumAppend(Meter(UserMonth("u", m), Both), [], Answered(cal, s3, c));
    assert trace[4].history == [] + [Answered(cal, s3, c)];
  }
}
