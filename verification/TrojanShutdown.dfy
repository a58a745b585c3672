/** What a running relay and Close owe each other: a published upstream stays registered
    until its own handler closes it, nothing is registered once Close has begun, and what
    Close closes stays closed. */
module TrojanShutdown {
  import opened Basics
  import opened TrojanServing

  // ---- published upstreams ----

  /** Client c is relayed to x, and both are where Close will find them. */
  ghost predicate Published(s: Service, c: Conn, x: Conn) {
    c in s.handlers && s.handlers[c].upstream == Some(x) && c in s.connections && s.connections[c] == Some(x)
  }

  /** A setUpstream that is not refused publishes the handler's upstream; before Close
      has begun none is refused. */
  lemma SetUpstreamPublishes(cap: Capacity, s: Service, c: Conn)
    requires Inv(cap, s) && Enabled(cap, s, SetUpstream(c)) && !s.closed
    ensures Published(Apply(cap, s, SetUpstream(c)), c, s.handlers[c].upstream.value)
    ensures In(Apply(cap, s, SetUpstream(c)), c, s.handlers[c].phase)
  {
    assert c in s.connections;
  }

  lemma PublishedRegistered(s: Service, c: Conn, x: Conn)
    requires Published(s, c, x)
    ensures c in Registered(s) && x in Registered(s)
  {
  }

  /** Only the handler's own close of the upstream ends the publication. */
  lemma PublishedStays(cap: Capacity, s: Service, step: Step, c: Conn, x: Conn)
    requires Inv(cap, s) && Enabled(cap, s, step) && Published(s, c, x) && step != CloseUpstream(c)
    ensures Published(Apply(cap, s, step), c, x)
  {
    if LoopSide(step) {
      PublishedLoop(cap, s, step, c, x);
    } else {
      PublishedWork(cap, s, step, c, x);
    }
  }

  lemma PublishedLoop(cap: Capacity, s: Service, step: Step, c: Conn, x: Conn)
    requires Inv(cap, s) && Enabled(cap, s, step) && Published(s, c, x) && LoopSide(step)
    ensures Published(Apply(cap, s, step), c, x)
  {
  }

  lemma PublishedWork(cap: Capacity, s: Service, step: Step, c: Conn, x: Conn)
    requires Inv(cap, s) && Enabled(cap, s, step) && Published(s, c, x) && !LoopSide(step) && step != CloseUpstream(c)
    ensures Published(Apply(cap, s, step), c, x)
  {
  }

  ghost predicate NotClosedBy(steps: seq<Step>, c: Conn, i: nat, j: nat) {
    forall k :: i <= k < j && k < |steps| ==> steps[k] != CloseUpstream(c)
  }

  lemma {:induction false} RunPublished(cap: Capacity, trace: seq<Service>, steps: seq<Step>, i: nat, j: nat,
                                        c: Conn, x: Conn)
    requires IsRun(cap, trace, steps) && i <= j < |trace| && Published(trace[i], c, x) && NotClosedBy(steps, c, i, j)
    ensures Published(trace[j], c, x)
    decreases j
  {
    if i < j {
      RunPublished(cap, trace, steps, i, j - 1, c, x);
      RunKeeps(cap, trace, steps, j - 1);
      assert NextAt(cap, trace, steps, j - 1);
      PublishedStays(cap, trace[j - 1], steps[j - 1], c, x);
    }
  }

  /** Over runs: an upstream set before Close has begun, and not yet closed by its own
      handler when Close takes its snapshot, is in that snapshot with its client. */
  lemma RelaysAreSnapshotted(cap: Capacity, trace: seq<Service>, steps: seq<Step>, i: nat, k: nat, c: Conn)
    requires IsRun(cap, trace, steps) && i < k < |steps| && steps[i] == SetUpstream(c) && !trace[i].closed
    requires steps[k] == TakeSnapshot && NotClosedBy(steps, c, i + 1, k)
    ensures In(trace[i], c, Visiting) || In(trace[i], c, Proxying)
    ensures trace[i].handlers[c].upstream.Some? && trace[k + 1].snapshot.Some?
    ensures c in trace[k + 1].snapshot.value && trace[i].handlers[c].upstream.value in trace[k + 1].snapshot.value
  {
    RunKeeps(cap, trace, steps, i);
    assert NextAt(cap, trace, steps, i) && NextAt(cap, trace, steps, k);
    var x := trace[i].handlers[c].upstream.value;
    SetUpstreamPublishes(cap, trace[i], c);
    RunPublished(cap, trace, steps, i + 1, k, c, x);
    PublishedRegistered(trace[k], c, x);
  }

  // ---- from the moment Close has begun ----

  lemma ClosedStep(cap: Capacity, s: Service, step: Step)
    requires Enabled(cap, s, step) && (s.closed || step.BeginClose?)
    ensures Apply(cap, s, step).closed && Registered(Apply(cap, s, step)) <= Registered(s)
  {
    if LoopSide(step) {
      ClosedLoop(cap, s, step);
    } else {
      ClosedWork(cap, s, step);
    }
  }

  lemma ClosedLoop(cap: Capacity, s: Service, step: Step)
    requires Enabled(cap, s, step) && (s.closed || step.BeginClose?) && LoopSide(step)
    ensures Apply(cap, s, step).closed && Registered(Apply(cap, s, step)) <= Registered(s)
  {
  }

  lemma ClosedWork(cap: Capacity, s: Service, step: Step)
    requires Enabled(cap, s, step) && s.closed && !LoopSide(step)
    ensures Apply(cap, s, step).closed && Registered(Apply(cap, s, step)) <= Registered(s)
  {
  }

  /** Close needs no snapshot for this: once its flag is set nothing is registered any more. */
  lemma {:induction false} NothingRegisteredAfterClose(cap: Capacity, trace: seq<Service>, steps: seq<Step>,
                                                       i: nat, j: nat)
    requires IsRun(cap, trace, steps) && i < j < |trace| && steps[i].BeginClose?
    ensures trace[j].closed && Registered(trace[j]) <= Registered(trace[i])
    decreases j
  {
    RunKeeps(cap, trace, steps, j - 1);
    assert NextAt(cap, trace, steps, j - 1);
    if i < j - 1 {
      NothingRegisteredAfterClose(cap, trace, steps, i, j - 1);
    }
    ClosedStep(cap, trace[j - 1], steps[j - 1]);
  }

  // ---- what is closed stays closed ----

  ghost predicate OpenNumbered(s: Service) { forall x :: x in s.open ==> x < s.next }

  ghost predicate LinksNumbered(s: Service) {
    && (forall c :: c in s.handlers && s.handlers[c].upstream.Some? ==> s.handlers[c].upstream.value < s.next)
    && (forall c :: c in s.connections && s.connections[c].Some? ==> s.connections[c].value < s.next)
  }

  ghost predicate SnapshotNumbered(s: Service) {
    s.snapshot.Some? ==> forall x :: x in s.snapshot.value ==> x < s.next
  }

  /** Every connection known anywhere was numbered before. */
  ghost predicate Numbered(s: Service) { OpenNumbered(s) && LinksNumbered(s) && SnapshotNumbered(s) }

  lemma OpenStep(cap: Capacity, s: Service, step: Step)
    requires OpenNumbered(s) && Enabled(cap, s, step)
    ensures OpenNumbered(Apply(cap, s, step)) && s.next <= Apply(cap, s, step).next
  {
  }

  lemma LinksStep(cap: Capacity, s: Service, step: Step)
    requires LinksNumbered(s) && Enabled(cap, s, step)
    ensures LinksNumbered(Apply(cap, s, step))
  {
    if LoopSide(step) {
      LinksLoop(cap, s, step);
    } else {
      LinksWork(cap, s, step);
    }
  }

  lemma LinksLoop(cap: Capacity, s: Service, step: Step)
    requires LinksNumbered(s) && Enabled(cap, s, step) && LoopSide(step)
    ensures LinksNumbered(Apply(cap, s, step))
  {
  }

  lemma LinksWork(cap: Capacity, s: Service, step: Step)
    requires LinksNumbered(s) && Enabled(cap, s, step) && !LoopSide(step)
    ensures LinksNumbered(Apply(cap, s, step))
  {
  }

  lemma SnapshotStep(cap: Capacity, s: Service, step: Step)
    requires LinksInv(s) && Numbered(s) && Enabled(cap, s, step)
    ensures SnapshotNumbered(Apply(cap, s, step))
  {
    OpenStep(cap, s, step);
    if step.TakeSnapshot? {
      forall x | x in Registered(s) ensures x < s.next {
        assert x in s.connections ==> x in s.handlers;
      }
    } else {
      assert Apply(cap, s, step).snapshot == s.snapshot;
    }
  }

  lemma {:induction false} RunNumbered(cap: Capacity, trace: seq<Service>, steps: seq<Step>, i: nat)
    requires IsRun(cap, trace, steps) && i < |trace|
    ensures Numbered(trace[i])
  {
    if i > 0 {
      RunNumbered(cap, trace, steps, i - 1);
      RunKeeps(cap, trace, steps, i - 1);
      assert NextAt(cap, trace, steps, i - 1);
      OpenStep(cap, trace[i - 1], steps[i - 1]);
      LinksStep(cap, trace[i - 1], steps[i - 1]);
      SnapshotStep(cap, trace[i - 1], steps[i - 1]);
    }
  }

  lemma NotReopened(cap: Capacity, s: Service, step: Step, x: Conn)
    requires Enabled(cap, s, step) && x < s.next && x !in s.open
    ensures x < Apply(cap, s, step).next && x !in Apply(cap, s, step).open
  {
  }

  /** What Close closes is open in no later state. */
  lemma {:induction false} ClosedForGood(cap: Capacity, trace: seq<Service>, steps: seq<Step>, k: nat, j: nat, x: Conn)
    requires IsRun(cap, trace, steps) && k < j < |trace| && steps[k] == CloseSnapshotted(x)
    ensures x !in trace[j].open && x < trace[j].next
    decreases j
  {
    assert NextAt(cap, trace, steps, j - 1);
    RunNumbered(cap, trace, steps, j - 1);
    if k < j - 1 {
      ClosedForGood(cap, trace, steps, k, j - 1, x);
      NotReopened(cap, trace[j - 1], steps[j - 1], x);
    }
  }
}
