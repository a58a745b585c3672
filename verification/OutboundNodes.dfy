/** Outbound nodes: per node one worker loop, any number of requests reporting
    failures, a one-slot reconnect channel, and a connect semaphore shared by
    all nodes. A step is one critical section, channel operation or Connect. */
module OutboundNodes {
  import opened Basics

  /** Clients are numbered in the order Connect returned them to this node. */
  type Client = nat

  datatype NodeState = Connecting | Ready | Unavailable | Backoff

  /** Where the worker is: about to (re)connect, holding a semaphore slot while
      Connect runs or has just returned, holding a fresh client, waiting for the
      reconnect token of the client it published, or finished. */
  datatype Worker =
    | Starting
    | Dialing
    | Returned(result: Option<Client>)
    | Fresh(client: Client)
    | Waiting(client: Client)
    | Exited

  /** `sending` are failure reports that have cleared the client and not yet
      offered their token; `closers`, `tokens` and `dropped` are histories. */
  datatype Node = Node(
    worker: Worker,
    client: Option<Client>,
    status: NodeState,
    token: bool,
    sending: set<Client>,
    returned: nat,
    closers: seq<Client>,
    tokens: seq<Client>,
    dropped: nat)

  datatype Step =
    | Report            // updateStatus before connecting: Backoff or Connecting
    | BeginDial         // semaphore slot taken
    | DialFails
    | DialSucceeds
    | ReleaseSlot       // <-semaphore
    | SetReady
    | MarkUnavailable(failed: Client)
    | Send(sender: Client)
    | TakeToken
    | Shutdown          // ctx.Done: closeClient and return

  const EMPTY := Node(Starting, None, Connecting, false, {}, 0, [], [], 0)

  // ---- the critical sections ----

  function SetsReady(n: Node): Node
    requires n.worker.Fresh?
  {
    var closed := if n.client.Some? && n.client.value != n.worker.client then [n.client.value] else [];
    n.(worker := Waiting(n.worker.client), client := Some(n.worker.client),
       status := Ready, closers := n.closers + closed)
  }

  function Marks(n: Node, g: Client): Node {
    if n.client != Some(g) then n
    else n.(client := None, status := Unavailable, closers := n.closers + [g], sending := n.sending + {g})
  }

  function Sends(n: Node, g: Client): Node {
    var m := n.(sending := n.sending - {g});
    if n.token then m.(dropped := n.dropped + 1) else m.(token := true, tokens := n.tokens + [g])
  }

  function ClosesClient(n: Node): Node {
    n.(worker := Exited, client := None, closers := n.closers + if n.client.Some? then [n.client.value] else [])
  }

  predicate Usable(n: Node) { n.client.Some? && n.status == Ready }

  /** Node-local effect of a step; the semaphore is handled by the factory below. */
  ghost predicate NodeNext(n: Node, step: Step, n': Node) {
    match step
    case Report =>
      n.worker.Starting? && n'.status in {Backoff, Connecting, Unavailable} && n' == n.(status := n'.status)
    case BeginDial => n.worker.Starting? && n' == n.(worker := Dialing)
    case DialFails => n.worker.Dialing? && n' == n.(worker := Returned(None))
    case DialSucceeds => n.worker.Dialing? && n' == n.(worker := Returned(Some(n.returned)), returned := n.returned + 1)
    case ReleaseSlot =>
      && n.worker.Returned?
      && n' == n.(worker := if n.worker.result.Some? then Fresh(n.worker.result.value) else Starting)
    case SetReady => n.worker.Fresh? && n' == SetsReady(n)
    case MarkUnavailable(g) => n' == Marks(n, g)
    case Send(g) => g in n.sending && n' == Sends(n, g)
    case TakeToken => n.worker.Waiting? && n.token && n' == n.(worker := Starting, token := false)
    case Shutdown => (n.worker.Starting? || n.worker.Waiting?) && n' == ClosesClient(n)
  }

  // ---- the invariant of one node ----

  /** The client currently in the worker's own hands. */
  function InHand(n: Node): Option<Client> {
    match n.worker
    case Returned(r) => r
    case Fresh(g) => Some(g)
    case _ => None
  }

  /** While the worker waits for g, exactly one of these is true: g is current;
      its failure report is about to send; its token is queued. */
  ghost predicate WaitState(n: Node, g: Client) {
    || (n.client == Some(g) && n.sending == {} && !n.token && g !in n.tokens && g !in n.closers)
    || (n.client == None && n.sending == {g} && !n.token && g !in n.tokens && g in n.closers)
    || (n.client == None && n.sending == {} && n.token && g in n.tokens && g in n.closers)
  }

  ghost predicate Quiet(n: Node) { n.client == None && n.sending == {} && !n.token }

  ghost predicate Signals(n: Node) {
    match n.worker
    case Waiting(g) => WaitState(n, g)
    case Exited =>
      && n.client == None && (n.token ==> n.sending == {})
      && (forall g, h :: g in n.sending && h in n.sending ==> g == h)
    case _ => Quiet(n)
  }

  /** Every client Connect ever returned is current, in the worker's hands, or
      with exactly one closer. */
  ghost predicate Owned(n: Node) {
    && Distinct(n.closers) && Distinct(n.tokens) && n.dropped == 0
    && (forall g :: g in n.closers ==> g < n.returned)
    && (forall g :: g in n.sending ==> g in n.closers && g !in n.tokens)
    && (forall g :: g in n.tokens ==> g in n.closers)
    && (n.client.Some? ==> n.client.value < n.returned && n.client.value !in n.closers)
    && (InHand(n).Some? ==> InHand(n).value < n.returned && InHand(n).value !in n.closers && n.client == None)
    && (forall g: nat :: g < n.returned ==> g in n.closers || n.client == Some(g) || InHand(n) == Some(g))
  }

  ghost predicate NodeInv(n: Node) {
    && Signals(n) && Owned(n)
    && (!n.worker.Exited? ==> (n.status == Ready <==> n.client.Some?))
  }

  lemma Appended(s: seq<Client>, g: Client)
    requires Distinct(s) && g !in s
    ensures Distinct(s + [g]) && (forall h :: h in s + [g] <==> h in s || h == g)
  {
  }

  lemma MarkKeeps(n: Node, g: Client)
    requires NodeInv(n)
    ensures NodeInv(Marks(n, g))
  {
    if n.client == Some(g) {
      Appended(n.closers, g);
    }
  }

  lemma SendKeeps(n: Node, g: Client)
    requires NodeInv(n) && g in n.sending
    ensures NodeInv(Sends(n, g))
  {
    Appended(n.tokens, g);
  }

  lemma CloseKeeps(n: Node)
    requires NodeInv(n) && (n.worker.Starting? || n.worker.Waiting?)
    ensures NodeInv(ClosesClient(n))
  {
    if n.client.Some? {
      Appended(n.closers, n.client.value);
    }
  }

  lemma ReadyKeeps(n: Node)
    requires NodeInv(n) && n.worker.Fresh?
    ensures NodeInv(SetsReady(n))
  {
  }

  lemma DialKeeps(n: Node, step: Step, n': Node)
    requires NodeInv(n) && NodeNext(n, step, n')
    requires || step.Report? || step.BeginDial? || step.DialFails? || step.DialSucceeds? || step.ReleaseSlot?
             || step.TakeToken?
    ensures NodeInv(n')
  {
  }

  lemma NodeStepKeeps(n: Node, step: Step, n': Node)
    requires NodeInv(n) && NodeNext(n, step, n')
    ensures NodeInv(n')
  {
    match step
    case SetReady => ReadyKeeps(n);
    case MarkUnavailable(g) => MarkKeeps(n, g);
    case Send(g) => SendKeeps(n, g);
    case Shutdown => CloseKeeps(n);
    case _ => DialKeeps(n, step, n');
  }

  // ---- the factory: all nodes and the shared semaphore ----

  const MAX_CONNECT_ATTEMPTS: nat := 8

  datatype Factory = Factory(nodes: map<string, Node>, slots: nat)

  predicate HoldsSlot(n: Node) { n.worker.Dialing? || n.worker.Returned? }

  function SlotHolders(f: Factory): set<string> {
    set name | name in f.nodes && HoldsSlot(f.nodes[name])
  }

  ghost predicate Next(f: Factory, name: string, step: Step, f': Factory) {
    && name in f.nodes && f'.nodes.Keys == f.nodes.Keys
    && f'.nodes == f.nodes[name := f'.nodes[name]]
    && NodeNext(f.nodes[name], step, f'.nodes[name])
    && (step.BeginDial? ==> f.slots < MAX_CONNECT_ATTEMPTS && f'.slots == f.slots + 1)
    && (step.ReleaseSlot? ==> f.slots > 0 && f'.slots == f.slots - 1)
    && (!step.BeginDial? && !step.ReleaseSlot? ==> f'.slots == f.slots)
  }

  ghost predicate NodesInv(f: Factory) {
    forall name :: name in f.nodes ==> NodeInv(f.nodes[name])
  }

  ghost predicate SlotsInv(f: Factory) { f.slots == |SlotHolders(f)| <= MAX_CONNECT_ATTEMPTS }

  ghost predicate Inv(f: Factory) { NodesInv(f) && SlotsInv(f) }

  ghost predicate Init(f: Factory) {
    f.slots == 0 && forall name :: name in f.nodes ==> f.nodes[name] == EMPTY
  }

  lemma InitInv(f: Factory)
    requires Init(f)
    ensures Inv(f)
  {
  }

  lemma SlotEffect(n: Node, step: Step, n': Node)
    requires NodeNext(n, step, n')
    ensures step.BeginDial? ==> !HoldsSlot(n) && HoldsSlot(n')
    ensures step.ReleaseSlot? ==> HoldsSlot(n) && !HoldsSlot(n')
    ensures !step.BeginDial? && !step.ReleaseSlot? ==> HoldsSlot(n) == HoldsSlot(n')
  {
  }

  /** Occupancy follows the one worker that moved. */
  lemma HoldersMove(f: Factory, name: string, n': Node, f': Factory)
    requires name in f.nodes && f'.nodes == f.nodes[name := n']
    ensures SlotHolders(f') == if HoldsSlot(n') then SlotHolders(f) + {name} else SlotHolders(f) - {name}
    ensures name in SlotHolders(f) <==> HoldsSlot(f.nodes[name])
  {
  }

  lemma SlotsKeep(f: Factory, name: string, step: Step, f': Factory)
    requires SlotsInv(f) && Next(f, name, step, f')
    ensures SlotsInv(f')
  {
    SlotEffect(f.nodes[name], step, f'.nodes[name]);
    HoldersMove(f, name, f'.nodes[name], f');
    CountMove(SlotHolders(f), name);
  }

  lemma NodesKeep(f: Factory, name: string, step: Step, f': Factory)
    requires NodesInv(f) && Next(f, name, step, f')
    ensures NodesInv(f')
  {
    NodeStepKeeps(f.nodes[name], step, f'.nodes[name]);
  }

  lemma StepKeeps(f: Factory, name: string, step: Step, f': Factory)
    requires Inv(f) && Next(f, name, step, f')
    ensures Inv(f')
  {
    NodesKeep(f, name, step, f');
    SlotsKeep(f, name, step, f');
  }

  ghost predicate NextAt(trace: seq<Factory>, names: seq<string>, steps: seq<Step>, i: nat) {
    i < |steps| == |names| && i + 1 < |trace| && Next(trace[i], names[i], steps[i], trace[i + 1])
  }

  /** Any interleaving of any number of nodes, requests and failures. */
  ghost predicate IsRun(trace: seq<Factory>, names: seq<string>, steps: seq<Step>) {
    && |trace| == |steps| + 1 == |names| + 1 && Init(trace[0])
    && forall i: nat :: i < |steps| ==> NextAt(trace, names, steps, i)
  }

  lemma {:induction false} RunKeeps(trace: seq<Factory>, names: seq<string>, steps: seq<Step>, i: nat)
    requires IsRun(trace, names, steps) && i < |trace|
    ensures Inv(trace[i])
  {
    if i == 0 {
      InitInv(trace[0]);
    } else {
      RunKeeps(trace, names, steps, i - 1);
      assert NextAt(trace, names, steps, i - 1);
      StepKeeps(trace[i - 1], names[i - 1], steps[i - 1], trace[i]);
    }
  }

  /** What holds of a node at any moment of any run. */
  ghost predicate Guaranteed(n: Node) {
    // no lost wakeup: a waiting worker without a client has its token queued or about to be sent
    && (n.worker.Waiting? && n.client.None? ==> n.token || n.sending == {n.worker.client})
    // no token was dropped and no client produced two
    && n.dropped == 0 && Distinct(n.tokens)
    // every client is current, in the worker's hands, or with exactly one closer
    && Distinct(n.closers)
    && (forall g: nat :: g < n.returned ==> (g in n.closers <==> n.client != Some(g) && InHand(n) != Some(g)))
    // a client that requests can obtain was never handed to a closer
    && (Usable(n) ==> n.client.value !in n.closers)
    // Ready means a client, until shutdown
    && (!n.worker.Exited? ==> (n.status == Ready <==> n.client.Some?))
  }

  /** In every reachable state of every run: each node is Guaranteed, a release
      finds its slot, and at most eight connects run over all nodes. */
  lemma NodeGuarantees(trace: seq<Factory>, names: seq<string>, steps: seq<Step>, i: nat, name: string)
    requires IsRun(trace, names, steps) && i < |trace| && name in trace[i].nodes
    ensures Guaranteed(trace[i].nodes[name])
    ensures trace[i].nodes[name].worker.Returned? ==> trace[i].slots > 0
    ensures |SlotHolders(trace[i])| <= 8
  {
    RunKeeps(trace, names, steps, i);
    assert NodeInv(trace[i].nodes[name]);
    if HoldsSlot(trace[i].nodes[name]) {
      assert name in SlotHolders(trace[i]);
    }
  }

  /** Leaving the wait other than by shutdown means that very client was marked
      dead, and its token is the one consumed. */
  lemma WaitEndsOnlyAfterFailure(trace: seq<Factory>, names: seq<string>, steps: seq<Step>, i: nat, n: Node)
    requires IsRun(trace, names, steps) && i < |steps| && steps[i].TakeToken?
    requires names[i] in trace[i].nodes && n == trace[i].nodes[names[i]]
    ensures n.worker.Waiting? && n.worker.client in n.closers && n.worker.client in n.tokens
    ensures n.client.None? && n.sending == {}
  {
    RunKeeps(trace, names, steps, i);
    assert NextAt(trace, names, steps, i) && NodeInv(n);
  }

  /** Publishing never replaces a live client; a report about any client but the
      current one changes nothing; a closed client never becomes current again. */
  lemma NewerClientsAreSafe(n: Node, step: Step, n': Node)
    requires NodeInv(n) && NodeNext(n, step, n')
    ensures step.SetReady? ==> n.client.None? && n'.closers == n.closers && n'.client == Some(n.worker.client)
    ensures step.MarkUnavailable? && n.client != Some(step.failed) ==> n' == n
    ensures forall g :: g in n.closers ==> g in n'.closers && n'.client != Some(g)
  {
  }

  // ---- the entry object ----

  class NodeEntry {
    var client: Option<Client>
    var status: NodeState
    var reconnect: bool
    ghost var worker: Worker
    ghost var sending: set<Client>
    ghost var returned: nat
    ghost var closers: seq<Client>
    ghost var tokens: seq<Client>
    ghost var dropped: nat

    ghost function View(): Node
      reads this
    {
      Node(worker, client, status, reconnect, sending, returned, closers, tokens, dropped)
    }

    constructor ()
      ensures View() == EMPTY
    {
      client, status, reconnect := None, Connecting, false;
      worker, sending, returned, closers, tokens, dropped := Starting, {}, 0, [], [], 0;
    }

    /** setReady; returns the client that was replaced and must be closed. */
    method SetReady(dialed: Client) returns (replaced: Option<Client>)
      requires worker == Fresh(dialed)
      modifies this
      ensures View() == SetsReady(old(View()))
      ensures NodeInv(old(View())) ==> replaced.None?
    {
      var previous := client;
      client, status := Some(dialed), Ready;
      replaced := if previous.Some? && previous.value != dialed then previous else None;
      closers := closers + if replaced.Some? then [replaced.value] else [];
      worker := Waiting(dialed);
    }

    /** The locked half of markUnavailable; true hands the client to this caller. */
    method ClearClient(failed: Client) returns (mine: bool)
      modifies this
      ensures View() == Marks(old(View()), failed)
      ensures mine <==> old(client) == Some(failed)
    {
      mine := client == Some(failed);
      if mine {
        client, status := None, Unavailable;
        closers, sending := closers + [failed], sending + {failed};
      }
    }

    /** The non-blocking send on the one-slot channel. */
    method OfferToken(ghost sender: Client)
      requires sender in sending
      modifies this
      ensures View() == Sends(old(View()), sender)
    {
      sending := sending - {sender};
      if reconnect {
        dropped := dropped + 1;
      } else {
        reconnect := true;
        tokens := tokens + [sender];
      }
    }

    method CurrentClient() returns (r: Option<Client>)
      ensures r == if client.Some? && status == Ready then client else None
      ensures r.Some? && NodeInv(View()) ==> r.value !in closers
      ensures NodeInv(View()) && !worker.Exited? ==> r == client
    {
      r := if client.Some? && status == Ready then client else None;
    }

    method CloseClient() returns (closing: Option<Client>)
      modifies this
      ensures View() == ClosesClient(old(View())) && closing == old(client)
    {
      closing := client;
      client := None;
      closers := closers + if closing.Some? then [closing.value] else [];
      worker := Exited;
    }
  }
}
