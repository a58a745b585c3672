/** The Trojan listener: the accept loop, one handler per connection, two bounded
    slot channels, the connection registry, and Close racing with all of them. A
    step is one channel operation, one section under connectionsMu, or one close. */
module TrojanServing {
  import opened Basics

  /** Client connections and upstreams, numbered in the order they come to exist. */
  type Conn = nat

  datatype Capacity = Capacity(pending: nat, website: nat)

  datatype AcceptLoop = Idle | Accepted(client: Conn) | HoldingSlot(client: Conn) | Refusing(client: Conn)

  /** Classifying: header phase. Moving: website slot taken, pending slot not yet
      given back. Visiting: relayed to the website. Proxying: authenticated.
      Leaving: deferred cleanup. Gone: unregistered, client not yet closed. */
  datatype Phase = Classifying | Moving | Visiting | Proxying | Leaving | Gone

  datatype Handler = Handler(phase: Phase, upstream: Option<Conn>)

  datatype Service = Service(
    accept: AcceptLoop,
    handlers: map<Conn, Handler>,
    pendingFlags: set<Conn>,    // handlers whose local `pending` is true
    pending: nat,               // occupancy of the pending channel
    visitors: set<Conn>,        // handlers that must release a website slot
    website: nat,               // occupancy of the website slot channel
    connections: map<Conn, Option<Conn>>,
    closed: bool,
    snapshot: Option<set<Conn>>,
    open: set<Conn>,
    next: Conn)

  datatype Step =
    | Accept | TakeSlot | Shed | Register | FinishRefusal
    | TakeWebsiteSlot(c: Conn) | GiveBackPending(c: Conn) | Authenticate(c: Conn) | GiveUp(c: Conn)
    | Dial(c: Conn) | SetUpstream(c: Conn) | EndRelay(c: Conn)
    | CloseUpstream(c: Conn) | ReleaseWebsite(c: Conn) | ReleasePending(c: Conn)
    | Unregister(c: Conn) | CloseClient(c: Conn)
    | BeginClose | TakeSnapshot | CloseSnapshotted(x: Conn)

  predicate In(s: Service, c: Conn, phase: Phase) { c in s.handlers && s.handlers[c].phase == phase }

  function Enter(s: Service, c: Conn, phase: Phase): Service
    requires c in s.handlers
  {
    s.(handlers := s.handlers[c := s.handlers[c].(phase := phase)])
  }

  function Registered(s: Service): set<Conn> {
    s.connections.Keys + set c | c in s.connections && s.connections[c].Some? :: s.connections[c].value
  }

  predicate LoopHolds(s: Service) { s.accept.HoldingSlot? || s.accept.Refusing? }

  /** The wanted release finds its own slot in the channel. */
  predicate Enabled(cap: Capacity, s: Service, step: Step) {
    match step
    case Accept => s.accept.Idle?
    case TakeSlot => s.accept.Accepted? && s.pending < cap.pending
    case Shed => s.accept.Accepted? && s.pending >= cap.pending
    case Register => s.accept.HoldingSlot?
    case FinishRefusal => s.accept.Refusing? && s.pending > 0
    case TakeWebsiteSlot(c) => In(s, c, Classifying) && s.website < cap.website
    case GiveBackPending(c) => In(s, c, Moving) && s.pending > 0
    case Authenticate(c) => In(s, c, Classifying) && s.pending > 0
    case GiveUp(c) => In(s, c, Classifying)
    case Dial(c) => (In(s, c, Visiting) || In(s, c, Proxying)) && s.handlers[c].upstream.None?
    case SetUpstream(c) =>
      (In(s, c, Visiting) || In(s, c, Proxying)) && s.handlers[c].upstream.Some?
    case EndRelay(c) => In(s, c, Visiting) || In(s, c, Proxying)
    case CloseUpstream(c) => In(s, c, Leaving) && s.handlers[c].upstream.Some?
    case ReleaseWebsite(c) => In(s, c, Leaving) && s.handlers[c].upstream.None? && c in s.visitors && s.website > 0
    case ReleasePending(c) =>
      In(s, c, Leaving) && s.handlers[c].upstream.None? && c !in s.visitors && c in s.pendingFlags && s.pending > 0
    case Unregister(c) => In(s, c, Leaving) && s.handlers[c].upstream.None? && c !in s.visitors && c !in s.pendingFlags
    case CloseClient(c) => In(s, c, Gone)
    case BeginClose => true
    case TakeSnapshot => s.closed && s.snapshot.None?
    case CloseSnapshotted(x) => s.snapshot.Some? && x in s.snapshot.value
  }

  function Registers(s: Service): Service
    requires s.accept.HoldingSlot?
  {
    var c := s.accept.client;
    if s.closed then s.(accept := Refusing(c))
    else s.(accept := Idle, connections := s.connections[c := None],
            handlers := s.handlers[c := Handler(Classifying, None)], pendingFlags := s.pendingFlags + {c})
  }

  /** setUpstream: refused once the client is gone from the registry or Close has begun. */
  function SetsUpstream(s: Service, c: Conn): Service
    requires c in s.handlers
  {
    if c !in s.connections || s.closed then Enter(s, c, Leaving)
    else s.(connections := s.connections[c := s.handlers[c].upstream])
  }

  function Apply(cap: Capacity, s: Service, step: Step): Service
    requires Enabled(cap, s, step)
  {
    match step
    case Accept => s.(accept := Accepted(s.next), open := s.open + {s.next}, next := s.next + 1)
    case TakeSlot => s.(accept := HoldingSlot(s.accept.client), pending := s.pending + 1)
    case Shed => s.(accept := Idle, open := s.open - {s.accept.client})
    case Register => Registers(s)
    case FinishRefusal => s.(accept := Idle, pending := s.pending - 1, open := s.open - {s.accept.client})
    case TakeWebsiteSlot(c) => Enter(s, c, Moving).(website := s.website + 1, visitors := s.visitors + {c})
    case GiveBackPending(c) => Enter(s, c, Visiting).(pending := s.pending - 1, pendingFlags := s.pendingFlags - {c})
    case Authenticate(c) => Enter(s, c, Proxying).(pending := s.pending - 1, pendingFlags := s.pendingFlags - {c})
    case GiveUp(c) => Enter(s, c, Leaving)
    case Dial(c) =>
      s.(handlers := s.handlers[c := s.handlers[c].(upstream := Some(s.next))],
         open := s.open + {s.next}, next := s.next + 1)
    case SetUpstream(c) => SetsUpstream(s, c)
    case EndRelay(c) => Enter(s, c, Leaving)
    case CloseUpstream(c) =>
      s.(open := s.open - {s.handlers[c].upstream.value}, handlers := s.handlers[c := Handler(Leaving, None)])
    case ReleaseWebsite(c) => s.(website := s.website - 1, visitors := s.visitors - {c})
    case ReleasePending(c) => s.(pending := s.pending - 1, pendingFlags := s.pendingFlags - {c})
    case Unregister(c) => Enter(s, c, Gone).(connections := s.connections - {c})
    case CloseClient(c) => s.(open := s.open - {c}, handlers := s.handlers - {c})
    case BeginClose => s.(closed := true)
    case TakeSnapshot => s.(snapshot := Some(Registered(s)))
    case CloseSnapshotted(x) => s.(open := s.open - {x})
  }

  // ---- slots ----

  /** Which slots a handler holds is decided by its phase. */
  predicate SlotsOf(s: Service, c: Conn) {
    c in s.handlers &&
    match s.handlers[c].phase
    case Classifying => c in s.pendingFlags && c !in s.visitors
    case Moving => c in s.pendingFlags && c in s.visitors
    case Visiting => c !in s.pendingFlags && c in s.visitors
    case Proxying => c !in s.pendingFlags && c !in s.visitors
    case Leaving => true
    case Gone => c !in s.pendingFlags && c !in s.visitors
  }

  /** Channel occupancy is the number of holders: handlers, plus the accept loop. */
  ghost predicate PendingInv(cap: Capacity, s: Service) {
    s.pending == |s.pendingFlags| + (if LoopHolds(s) then 1 else 0) <= cap.pending
  }

  ghost predicate WebsiteInv(cap: Capacity, s: Service) { s.website == |s.visitors| <= cap.website }

  ghost predicate FlagsInv(s: Service) {
    && s.pendingFlags <= s.handlers.Keys && s.visitors <= s.handlers.Keys
    && (forall c :: c in s.handlers ==> SlotsOf(s, c))
    && (!s.accept.Idle? ==> s.accept.client !in s.handlers)
  }

  // ---- the registry and what is open ----

  ghost predicate OwnedByHandler(s: Service, x: Conn) {
    x in s.handlers || exists c :: c in s.handlers && s.handlers[c].upstream == Some(x)
  }

  /** An open connection is in the hands of the accept loop or of a live handler. */
  ghost predicate HasOwner(s: Service, x: Conn) {
    (!s.accept.Idle? && s.accept.client == x) || OwnedByHandler(s, x)
  }

  ghost predicate OwnersInv(s: Service) {
    forall x :: x in s.open ==> HasOwner(s, x)
  }

  ghost predicate SnapshotInv(s: Service) {
    s.snapshot.Some? ==> s.closed && Registered(s) <= s.snapshot.value
  }

  /** A connection is registered exactly while its handler has not unregistered it. */
  ghost predicate LinksInv(s: Service) {
    && (forall c :: c in s.handlers ==> c < s.next && (s.handlers[c].phase != Gone <==> c in s.connections))
    && (forall c :: c in s.handlers && s.handlers[c].phase == Gone ==> s.handlers[c].upstream.None?)
    && (forall c :: c in s.connections ==> c in s.handlers)
    && (!s.accept.Idle? ==> s.accept.client < s.next && s.accept.client !in s.handlers)
  }

  ghost predicate Inv(cap: Capacity, s: Service) {
    PendingInv(cap, s) && WebsiteInv(cap, s) && FlagsInv(s) && LinksInv(s) && OwnersInv(s) && SnapshotInv(s)
  }

  const START := Service(Idle, map[], {}, 0, {}, 0, map[], false, None, {}, 0)

  lemma StartInv(cap: Capacity)
    ensures Inv(cap, START)
  {
  }

  /** Steps of the accept loop and of Close. */
  predicate LoopSide(step: Step) {
    || step.Accept? || step.TakeSlot? || step.Shed? || step.Register? || step.FinishRefusal?
    || step.BeginClose? || step.TakeSnapshot? || step.CloseSnapshotted?
  }

  /** Steps of a handler's deferred cleanup. */
  predicate ExitSide(step: Step) {
    step.CloseUpstream? || step.ReleaseWebsite? || step.ReleasePending? || step.Unregister? || step.CloseClient?
  }

  /** Steps of a handler at work. */
  predicate WorkSide(step: Step) { !LoopSide(step) && !ExitSide(step) }

  lemma LoopPending(cap: Capacity, s: Service, step: Step)
    requires PendingInv(cap, s) && FlagsInv(s) && Enabled(cap, s, step) && LoopSide(step)
    ensures PendingInv(cap, Apply(cap, s, step))
  {
    if step.Register? {
      CountMove(s.pendingFlags, s.accept.client);
    }
  }

  lemma WorkPending(cap: Capacity, s: Service, step: Step)
    requires PendingInv(cap, s) && FlagsInv(s) && Enabled(cap, s, step) && WorkSide(step)
    ensures PendingInv(cap, Apply(cap, s, step))
  {
    if step.GiveBackPending? || step.Authenticate? {
      assert SlotsOf(s, step.c);
      CountMove(s.pendingFlags, step.c);
    }
  }

  lemma ExitPending(cap: Capacity, s: Service, step: Step)
    requires PendingInv(cap, s) && Enabled(cap, s, step) && ExitSide(step)
    ensures PendingInv(cap, Apply(cap, s, step))
  {
    if step.ReleasePending? {
      CountMove(s.pendingFlags, step.c);
    }
  }

  lemma PendingKeep(cap: Capacity, s: Service, step: Step)
    requires PendingInv(cap, s) && FlagsInv(s) && Enabled(cap, s, step)
    ensures PendingInv(cap, Apply(cap, s, step))
  {
    if LoopSide(step) {
      LoopPending(cap, s, step);
    } else if ExitSide(step) {
      ExitPending(cap, s, step);
    } else {
      WorkPending(cap, s, step);
    }
  }

  lemma WebsiteKeep(cap: Capacity, s: Service, step: Step)
    requires WebsiteInv(cap, s) && FlagsInv(s) && Enabled(cap, s, step)
    ensures WebsiteInv(cap, Apply(cap, s, step))
  {
    match step
    case TakeWebsiteSlot(c) => assert SlotsOf(s, c); CountMove(s.visitors, c);
    case ReleaseWebsite(c) => CountMove(s.visitors, c);
    case _ =>
  }

  lemma LoopFlags(cap: Capacity, s: Service, step: Step)
    requires FlagsInv(s) && LinksInv(s) && Enabled(cap, s, step) && LoopSide(step)
    ensures FlagsInv(Apply(cap, s, step))
  {
    var s' := Apply(cap, s, step);
    forall c | c in s'.handlers ensures SlotsOf(s', c) {
      assert c in s.handlers ==> SlotsOf(s, c);
    }
  }

  lemma WorkFlags(cap: Capacity, s: Service, step: Step)
    requires FlagsInv(s) && LinksInv(s) && Enabled(cap, s, step) && WorkSide(step)
    ensures FlagsInv(Apply(cap, s, step))
  {
    var s' := Apply(cap, s, step);
    forall c | c in s'.handlers ensures SlotsOf(s', c) {
      assert c in s.handlers ==> SlotsOf(s, c);
    }
  }

  lemma ExitFlags(cap: Capacity, s: Service, step: Step)
    requires FlagsInv(s) && LinksInv(s) && Enabled(cap, s, step) && ExitSide(step)
    ensures FlagsInv(Apply(cap, s, step))
  {
    var s' := Apply(cap, s, step);
    forall c | c in s'.handlers ensures SlotsOf(s', c) {
      assert c in s.handlers ==> SlotsOf(s, c);
    }
  }

  lemma FlagsKeep(cap: Capacity, s: Service, step: Step)
    requires FlagsInv(s) && LinksInv(s) && Enabled(cap, s, step)
    ensures FlagsInv(Apply(cap, s, step))
  {
    if LoopSide(step) {
      LoopFlags(cap, s, step);
    } else if ExitSide(step) {
      ExitFlags(cap, s, step);
    } else {
      WorkFlags(cap, s, step);
    }
  }

  /** A handler that keeps its upstream keeps owning it. */
  lemma OwnerStays(s: Service, s': Service, x: Conn)
    requires OwnedByHandler(s, x)
    requires forall c :: c in s.handlers && (c == x || s.handlers[c].upstream == Some(x)) ==>
               c in s'.handlers && s'.handlers[c].upstream == s.handlers[c].upstream
    ensures OwnedByHandler(s', x)
  {
  }

  lemma DialOwners(cap: Capacity, s: Service, c: Conn, x: Conn)
    requires OwnersInv(s) && Enabled(cap, s, Dial(c)) && x in Apply(cap, s, Dial(c)).open
    ensures HasOwner(Apply(cap, s, Dial(c)), x)
  {
    var s' := Apply(cap, s, Dial(c));
    if x == s.next {
      assert s'.handlers[c].upstream == Some(x);
    } else if OwnedByHandler(s, x) && x !in s'.handlers {
      var d :| d in s.handlers && s.handlers[d].upstream == Some(x);
      assert s'.handlers[d].upstream == Some(x);
    }
  }

  /** Steps that keep every handler and its upstream. */
  lemma StillOwned(cap: Capacity, s: Service, step: Step, x: Conn)
    requires LinksInv(s) && OwnersInv(s) && Enabled(cap, s, step) && x in Apply(cap, s, step).open
    requires !LoopSide(step) && !step.Dial? && !step.CloseUpstream? && !step.CloseClient?
    ensures HasOwner(Apply(cap, s, step), x)
  {
    if OwnedByHandler(s, x) {
      OwnerStays(s, Apply(cap, s, step), x);
    }
  }

  lemma LoopOwners(cap: Capacity, s: Service, step: Step, x: Conn)
    requires LinksInv(s) && OwnersInv(s) && Enabled(cap, s, step) && x in Apply(cap, s, step).open && LoopSide(step)
    ensures HasOwner(Apply(cap, s, step), x)
  {
    if x in s.open && OwnedByHandler(s, x) {
      OwnerStays(s, Apply(cap, s, step), x);
    }
  }

  lemma CloseOwners(cap: Capacity, s: Service, step: Step, x: Conn)
    requires LinksInv(s) && OwnersInv(s) && Enabled(cap, s, step) && x in Apply(cap, s, step).open
    requires step.CloseUpstream? || step.CloseClient?
    ensures HasOwner(Apply(cap, s, step), x)
  {
    var s' := Apply(cap, s, step);
    if OwnedByHandler(s, x) && x !in s'.handlers {
      var c :| c in s.handlers && s.handlers[c].upstream == Some(x);
      assert c in s'.handlers && s'.handlers[c].upstream == Some(x);
    }
  }

  lemma OwnersKeep(cap: Capacity, s: Service, step: Step, x: Conn)
    requires LinksInv(s) && OwnersInv(s) && Enabled(cap, s, step) && x in Apply(cap, s, step).open
    ensures HasOwner(Apply(cap, s, step), x)
  {
    if LoopSide(step) {
      LoopOwners(cap, s, step, x);
    } else if step.CloseUpstream? || step.CloseClient? {
      CloseOwners(cap, s, step, x);
    } else if step.Dial? {
      DialOwners(cap, s, step.c, x);
    } else {
      StillOwned(cap, s, step, x);
    }
  }

  lemma LoopLinks(cap: Capacity, s: Service, step: Step)
    requires LinksInv(s) && Enabled(cap, s, step) && LoopSide(step)
    ensures LinksInv(Apply(cap, s, step))
  {
    var s' := Apply(cap, s, step);
    forall c | c in s'.handlers
      ensures c < s'.next && (s'.handlers[c].phase != Gone <==> c in s'.connections)
      ensures s'.handlers[c].phase == Gone ==> s'.handlers[c].upstream.None?
    {
    }
    forall c | c in s'.connections ensures c in s'.handlers {
    }
  }

  lemma WorkLinks(cap: Capacity, s: Service, step: Step)
    requires LinksInv(s) && Enabled(cap, s, step) && WorkSide(step)
    ensures LinksInv(Apply(cap, s, step))
  {
    var s' := Apply(cap, s, step);
    forall c | c in s'.handlers
      ensures c < s'.next && (s'.handlers[c].phase != Gone <==> c in s'.connections)
      ensures s'.handlers[c].phase == Gone ==> s'.handlers[c].upstream.None?
    {
    }
    forall c | c in s'.connections ensures c in s'.handlers {
    }
  }

  lemma ExitLinks(cap: Capacity, s: Service, step: Step)
    requires LinksInv(s) && Enabled(cap, s, step) && ExitSide(step)
    ensures LinksInv(Apply(cap, s, step))
  {
    var s' := Apply(cap, s, step);
    forall c | c in s'.handlers
      ensures c < s'.next && (s'.handlers[c].phase != Gone <==> c in s'.connections)
      ensures s'.handlers[c].phase == Gone ==> s'.handlers[c].upstream.None?
    {
    }
    forall c | c in s'.connections ensures c in s'.handlers {
    }
  }

  lemma LinksKeep(cap: Capacity, s: Service, step: Step)
    requires LinksInv(s) && Enabled(cap, s, step)
    ensures LinksInv(Apply(cap, s, step))
  {
    if LoopSide(step) {
      LoopLinks(cap, s, step);
    } else if ExitSide(step) {
      ExitLinks(cap, s, step);
    } else {
      WorkLinks(cap, s, step);
    }
  }

  /** Once the snapshot is taken, nothing is registered any more: the registry only shrinks. */
  lemma SnapshotKeep(cap: Capacity, s: Service, step: Step)
    requires SnapshotInv(s) && Enabled(cap, s, step)
    ensures SnapshotInv(Apply(cap, s, step)) && (s.closed ==> Apply(cap, s, step).closed)
    ensures s.snapshot.Some? ==>
              Apply(cap, s, step).snapshot == s.snapshot && Registered(Apply(cap, s, step)) <= Registered(s)
  {
  }

  lemma StepKeeps(cap: Capacity, s: Service, step: Step)
    requires Inv(cap, s) && Enabled(cap, s, step)
    ensures Inv(cap, Apply(cap, s, step))
  {
    PendingKeep(cap, s, step);
    WebsiteKeep(cap, s, step);
    FlagsKeep(cap, s, step);
    LinksKeep(cap, s, step);
    SnapshotKeep(cap, s, step);
    forall x | x in Apply(cap, s, step).open ensures HasOwner(Apply(cap, s, step), x) {
      OwnersKeep(cap, s, step, x);
    }
  }

  // ---- runs ----

  ghost predicate NextAt(cap: Capacity, trace: seq<Service>, steps: seq<Step>, i: nat) {
    i < |steps| && i + 1 < |trace| && Enabled(cap, trace[i], steps[i]) && trace[i + 1] == Apply(cap, trace[i], steps[i])
  }

  /** Any interleaving of the accept loop, the handlers and Close. */
  ghost predicate IsRun(cap: Capacity, trace: seq<Service>, steps: seq<Step>) {
    && |trace| == |steps| + 1 && trace[0] == START
    && forall i: nat :: i < |steps| ==> NextAt(cap, trace, steps, i)
  }

  lemma {:induction false} RunKeeps(cap: Capacity, trace: seq<Service>, steps: seq<Step>, i: nat)
    requires IsRun(cap, trace, steps) && i < |trace|
    ensures Inv(cap, trace[i])
  {
    if i == 0 {
      StartInv(cap);
    } else {
      RunKeeps(cap, trace, steps, i - 1);
      assert NextAt(cap, trace, steps, i - 1);
      StepKeeps(cap, trace[i - 1], steps[i - 1]);
    }
  }

  /** A handler or the accept loop that is due to give a slot back. */
  predicate OwesPending(s: Service, c: Conn) {
    In(s, c, Moving) || In(s, c, Classifying) || (c in s.pendingFlags) || (s.accept.Refusing? && s.accept.client == c)
  }

  /** No release of either channel ever blocks, and no slot is released twice: each
      release finds its own slot, because occupancy is exactly the set of holders. */
  lemma ReleasesNeverBlock(cap: Capacity, trace: seq<Service>, steps: seq<Step>, i: nat, c: Conn)
    requires IsRun(cap, trace, steps) && i < |trace|
    ensures OwesPending(trace[i], c) ==> trace[i].pending > 0
    ensures c in trace[i].visitors ==> trace[i].website > 0
    ensures trace[i].pending == |trace[i].pendingFlags| + (if LoopHolds(trace[i]) then 1 else 0) <= cap.pending
    ensures trace[i].website == |trace[i].visitors| <= cap.website
  {
    RunKeeps(cap, trace, steps, i);
    assert c in trace[i].handlers ==> SlotsOf(trace[i], c);
    CountMove(trace[i].pendingFlags, c);
    CountMove(trace[i].visitors, c);
  }

  /** Connections being classified or relayed to the website without a session. */
  function Anonymous(s: Service): set<Conn> {
    set c | c in s.handlers && s.handlers[c].phase in {Classifying, Moving, Visiting}
  }

  /** Their number never exceeds the two capacities together. */
  lemma AnonymousBounded(cap: Capacity, trace: seq<Service>, steps: seq<Step>, i: nat)
    requires IsRun(cap, trace, steps) && i < |trace|
    ensures |Anonymous(trace[i])| <= cap.pending + cap.website
  {
    RunKeeps(cap, trace, steps, i);
    var s := trace[i];
    forall c | c in Anonymous(s) ensures c in s.pendingFlags + s.visitors {
      assert SlotsOf(s, c);
    }
    SubsetCount(Anonymous(s), s.pendingFlags + s.visitors);
    UnionCount(s.pendingFlags, s.visitors);
  }

  lemma {:induction false} SubsetCount(a: set<Conn>, b: set<Conn>)
    requires a <= b
    ensures |a| <= |b|
  {
    if a != {} {
      var x :| x in a;
      SubsetCount(a - {x}, b - {x});
    }
  }

  lemma UnionCount(a: set<Conn>, b: set<Conn>)
    ensures |a + b| <= |a| + |b|
  {
  }

  // ---- shutdown ----

  lemma {:induction false} RegistryShrinks(cap: Capacity, trace: seq<Service>, steps: seq<Step>, i: nat, j: nat)
    requires IsRun(cap, trace, steps) && i <= j < |trace| && trace[i].snapshot.Some?
    ensures trace[j].snapshot == trace[i].snapshot && Registered(trace[j]) <= Registered(trace[i])
    decreases j
  {
    if i < j {
      RegistryShrinks(cap, trace, steps, i, j - 1);
      RunKeeps(cap, trace, steps, j - 1);
      assert NextAt(cap, trace, steps, j - 1);
      SnapshotKeep(cap, trace[j - 1], steps[j - 1]);
    }
  }

  /** After Close has taken its snapshot nothing is registered any more: in every
      later state the registry lies within the snapshot, and every open connection
      still has a live owner. */
  lemma SnapshotCovers(cap: Capacity, trace: seq<Service>, steps: seq<Step>, i: nat, j: nat)
    requires IsRun(cap, trace, steps) && i <= j < |trace| && trace[i].snapshot.Some?
    ensures Registered(trace[j]) <= Registered(trace[i]) <= trace[i].snapshot.value
    ensures forall x :: x in trace[j].open ==> HasOwner(trace[j], x)
  {
    RegistryShrinks(cap, trace, steps, i, j);
    RunKeeps(cap, trace, steps, i);
    RunKeeps(cap, trace, steps, j);
  }

  /** When the accept loop rests and every handler has finished, nothing is left
      open, registered or counted. */
  lemma NothingLeaks(cap: Capacity, trace: seq<Service>, steps: seq<Step>, i: nat)
    requires IsRun(cap, trace, steps) && i < |trace|
    requires trace[i].accept.Idle? && trace[i].handlers == map[]
    ensures trace[i].open == {} && trace[i].connections == map[] && trace[i].pending == 0 && trace[i].website == 0
  {
    RunKeeps(cap, trace, steps, i);
    var s := trace[i];
    assert forall x :: x in s.open ==> HasOwner(s, x);
    assert s.pendingFlags == {} && s.visitors == {};
    assert forall c :: c in s.connections ==> c in s.handlers;
  }

  /** Close's loop over the registry. */
  method CollectConnections(connections: map<Conn, Option<Conn>>) returns (list: seq<Conn>)
    ensures forall x :: x in list <==>
              x in connections || exists c :: c in connections && connections[c] == Some(x)
  {
    list := [];
    var todo := connections.Keys;
    while todo != {}
      invariant todo <= connections.Keys
      invariant forall x :: x in list <==>
        (x in connections && x !in todo) || exists c :: c in connections && c !in todo && connections[c] == Some(x)
      decreases todo
    {
      var c :| c in todo;
      list := list + [c] + if connections[c].Some? then [connections[c].value] else [];
      todo := todo - {c};
    }
  }

  // ---- the listener object ----

  /** The registry, the closed flag and both slot channels are fields of the
      service; what its goroutines hold on their stacks is ghost. */
  class Listener {
    const capacity: Capacity
    var pending: nat
    var website: nat
    var connections: map<Conn, Option<Conn>>
    var closed: bool
    ghost var accept: AcceptLoop
    ghost var handlers: map<Conn, Handler>
    ghost var pendingFlags: set<Conn>
    ghost var visitors: set<Conn>
    ghost var snapshot: Option<set<Conn>>
    ghost var open: set<Conn>
    ghost var next: Conn

    ghost function View(): Service
      reads this
    {
      Service(accept, handlers, pendingFlags, pending, visitors, website, connections, closed, snapshot, open, next)
    }

    constructor (capacity: Capacity)
      ensures this.capacity == capacity && View() == START
    {
      this.capacity := capacity;
      pending, website, connections, closed := 0, 0, map[], false;
      accept, handlers, pendingFlags, visitors, snapshot, open, next := Idle, map[], {}, {}, None, {}, 0;
    }

    /** The non-blocking send on the pending channel; a full channel sheds the client. */
    method TryPending() returns (taken: bool)
      requires accept.Accepted?
      modifies this`pending, this`accept, this`open
      ensures var step := if taken then TakeSlot else Shed;
              Enabled(capacity, old(View()), step) && View() == Apply(capacity, old(View()), step)
      ensures taken <==> old(pending) < capacity.pending
      ensures !taken ==> old(accept).client !in open
    {
      taken := pending < capacity.pending;
      if taken {
        pending := pending + 1;
        accept := HoldingSlot(accept.client);
      } else {
        open := open - {accept.client};
        accept := Idle;
      }
    }

    /** The registration section of Serve; false leaves the client to the accept loop. */
    method RegisterClient(client: Conn) returns (registered: bool)
      requires accept == HoldingSlot(client)
      modifies this`connections, this`accept, this`handlers, this`pendingFlags
      ensures View() == Apply(capacity, old(View()), Register)
      ensures registered <==> !closed
      ensures registered ==> client in connections && client in handlers
      ensures !registered ==> connections == old(connections)
    {
      registered := !closed;
      if registered {
        connections := connections[client := None];
        handlers, pendingFlags := handlers[client := Handler(Classifying, None)], pendingFlags + {client};
        accept := Idle;
      } else {
        accept := Refusing(client);
      }
    }

    /** setUpstream; false leaves the upstream to be closed by the handler. */
    method SetUpstream(client: Conn, upstream: Conn) returns (registered: bool)
      requires In(View(), client, Visiting) || In(View(), client, Proxying)
      requires handlers[client].upstream == Some(upstream)
      modifies this`connections, this`handlers
      ensures View() == Apply(capacity, old(View()), Step.SetUpstream(client))
      ensures registered <==> client in old(connections) && !closed
      ensures registered ==> connections == old(connections)[client := Some(upstream)] && upstream in Registered(View())
      ensures !registered ==> connections == old(connections) && handlers[client].phase == Leaving
    {
      registered := client in connections && !closed;
      if registered {
        connections := connections[client := Some(upstream)];
        assert connections[client] == Some(upstream);
      } else {
        handlers := handlers[client := handlers[client].(phase := Leaving)];
      }
    }

    /** fallback.acquire; false sends the client the over-capacity response. */
    method Acquire(client: Conn) returns (taken: bool)
      requires In(View(), client, Classifying)
      modifies this`website, this`visitors, this`handlers
      ensures var step := if taken then TakeWebsiteSlot(client) else GiveUp(client);
              Enabled(capacity, old(View()), step) && View() == Apply(capacity, old(View()), step)
      ensures taken <==> old(website) < capacity.website
    {
      taken := website < capacity.website;
      handlers := handlers[client := handlers[client].(phase := if taken then Moving else Leaving)];
      if taken {
        website, visitors := website + 1, visitors + {client};
      }
    }

    /** fallback.release: the receive finds the visitor's own slot, so it cannot block. */
    method Release(client: Conn)
      requires Inv(capacity, View()) && In(View(), client, Leaving)
      requires handlers[client].upstream.None? && client in visitors
      modifies this`website, this`visitors
      ensures Enabled(capacity, old(View()), ReleaseWebsite(client))
      ensures View() == Apply(capacity, old(View()), ReleaseWebsite(client))
    {
      CountMove(visitors, client);
      website, visitors := website - 1, visitors - {client};
    }

    /** The locked section of Close; the flag was set before. */
    method SnapshotForClose() returns (list: seq<Conn>)
      requires closed && snapshot.None?
      modifies this`snapshot
      ensures View() == Apply(capacity, old(View()), TakeSnapshot)
      ensures (set x | x in list) == Registered(View())
    {
      list := CollectConnections(connections);
      snapshot := Some(Registered(View()));
    }
  }
}
