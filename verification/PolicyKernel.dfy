/** The policy kernel: hot refresh that keeps the start-up topology, and opaque
    sessions issued over whatever was last published. */
module PolicyKernel {
  import opened Basics
  import opened Identity
  import opened Authentication
  import opened Decimals

  datatype Session = Session(id: string, routeID: string, inbound: string)

  /** `issued` is every session ever handed out, oldest first. */
  datatype Kernel = Kernel(startup: Users, published: Users, index: Index, counter: nat, issued: seq<Session>)

  datatype Op =
    | Refresh(loaded: Users)
    | Login(inbound: string, proof: string, now: int)
    | LoginTrojan(inbound: string, credential: string, now: int)

  /** RefreshSnapshot for one user: live fields with start-up routes, or disabled. */
  function Refreshed(startup: Users, loaded: Users, name: string): User
    requires name in startup
  {
    if name in loaded then loaded[name].(routes := startup[name].routes) else startup[name].(disabled := true)
  }

  function RefreshedAll(startup: Users, loaded: Users): Users {
    map name | name in startup :: Refreshed(startup, loaded, name)
  }

  /** Everything but the routes. */
  predicate SameLiveFields(a: User, b: User) {
    && a.password == b.password && a.disabled == b.disabled && a.expires == b.expires
    && a.maxBytes == b.maxBytes && a.speedLimit == b.speedLimit
  }

  method RefreshSnapshot(startup: Users, loaded: Users) returns (updated: Users)
    ensures updated == RefreshedAll(startup, loaded)
    ensures updated.Keys == startup.Keys && forall u :: u in startup ==> updated[u].routes == startup[u].routes
    ensures forall u :: u in startup && u in loaded ==> SameLiveFields(updated[u], loaded[u])
    ensures forall u :: u in startup && u !in loaded ==> updated[u].disabled
  {
    updated := map[];
    var todo := startup.Keys;
    while todo != {}
      invariant todo <= startup.Keys && updated == RefreshedAll(startup - todo, loaded)
      decreases todo
    {
      var name :| name in todo;
      var user := startup[name];
      if name in loaded {
        user := loaded[name].(routes := startup[name].routes);
      } else {
        user := user.(disabled := true);
      }
      updated := updated[name := user];
      todo := todo - {name};
    }
    assert startup - {} == startup;
  }

  function SessionID(inbound: string, sequence: nat): string { inbound + "/" + Decimal(sequence) }

  function Sequence(counter: nat): nat { (counter + 1) % WORD }

  function Issue(k: Kernel, inbound: string, routeID: string): Kernel {
    var n := Sequence(k.counter);
    k.(counter := n, issued := k.issued + [Session(SessionID(inbound, n), routeID, inbound)])
  }

  ghost predicate Next(h: Hash, k: Kernel, op: Op, k': Kernel) {
    match op
    case Refresh(loaded) =>
      && k' == k.(published := RefreshedAll(k.startup, loaded), index := k'.index)
      && IndexBuilt(h, k'.published, k'.index)
    case Login(inbound, proof, now) =>
      var id := Authenticated(EntriesOf(k.published), proof, now);
      k' == if id.Some? then Issue(k, inbound, id.value) else k
    case LoginTrojan(inbound, credential, now) =>
      var id := TrojanAuthenticated(EntriesOf(k.published), k.index, credential, now);
      k' == if id.Some? then Issue(k, inbound, id.value) else k
  }

  ghost predicate Init(h: Hash, k: Kernel) {
    && k.published == k.startup && IndexBuilt(h, k.startup, k.index) && k.counter == 0 && k.issued == []
  }

  // ---- topology ----

  ghost predicate SameTopology(startup: Users, published: Users) {
    published.Keys == startup.Keys && forall u :: u in startup ==> published[u].routes == startup[u].routes
  }

  /** The session's route was granted at start-up. */
  ghost predicate Authorized(startup: Users, s: Session) {
    exists u, n :: Granted(startup, u, n) && s.routeID == Join(u, n)
  }

  /** Parsing the route for the outbound gives back the granted node itself. */
  ghost predicate Resolves(startup: Users, s: Session) {
    exists u, n :: Granted(startup, u, n) && s.routeID == Join(u, n) && ParseID(s.routeID) == (u, n) && n != ""
  }

  lemma AuthorizedResolves(startup: Users, s: Session)
    requires NamesOk(startup) && Authorized(startup, s)
    ensures Resolves(startup, s)
  {
    var u, n :| Granted(startup, u, n) && s.routeID == Join(u, n);
    ParseJoined(u, n);
  }

  ghost predicate AllAuthorized(startup: Users, issued: seq<Session>) {
    forall i :: 0 <= i < |issued| ==> Authorized(startup, issued[i])
  }

  ghost predicate Inv(h: Hash, k: Kernel) {
    && SameTopology(k.startup, k.published) && IndexBuilt(h, k.published, k.index)
    && AllAuthorized(k.startup, k.issued) && Numbered(k.issued) && k.counter == |k.issued| % WORD
  }

  /** Sessions are numbered in issue order by the wrapping counter. */
  ghost predicate Numbered(issued: seq<Session>) {
    forall i :: 0 <= i < |issued| ==> issued[i].id == SessionID(issued[i].inbound, (i + 1) % WORD)
  }

  lemma NumberedNext(issued: seq<Session>, s: Session)
    requires Numbered(issued) && s.id == SessionID(s.inbound, (|issued| + 1) % WORD)
    ensures Numbered(issued + [s])
  {
  }

  lemma AuthorizedNext(startup: Users, issued: seq<Session>, s: Session)
    requires AllAuthorized(startup, issued) && Authorized(startup, s)
    ensures AllAuthorized(startup, issued + [s])
  {
  }

  lemma AuthenticatedGranted(startup: Users, published: Users, proof: string, now: int, s: Session)
    requires SameTopology(startup, published)
    requires Authenticated(EntriesOf(published), proof, now) == Some(s.routeID)
    ensures Authorized(startup, s)
  {
    var (u, n, _) := ParseAuth(proof);
    assert Granted(startup, u, n);
  }

  lemma TrojanGranted(h: Hash, startup: Users, published: Users, index: Index, credential: string, now: int, s: Session)
    requires SameTopology(startup, published) && IndexBuilt(h, published, index)
    requires TrojanAuthenticated(EntriesOf(published), index, credential, now) == Some(s.routeID)
    ensures Authorized(startup, s)
  {
    assert Indexed(h, published, credential, index[credential]);
    var u, n :| && Granted(published, u, n) && credential == CredentialOf(h, published, u, n)
                && index[credential] == Join(u, n);
    assert Granted(startup, u, n);
  }

  lemma CounterStep(n: nat)
    ensures (n % WORD + 1) % WORD == (n + 1) % WORD
  {
  }

  lemma IssueKeeps(h: Hash, k: Kernel, inbound: string, id: string)
    requires Inv(h, k) && Authorized(k.startup, Session(SessionID(inbound, Sequence(k.counter)), id, inbound))
    ensures Inv(h, Issue(k, inbound, id))
  {
    CounterStep(|k.issued|);
    var s := Session(SessionID(inbound, Sequence(k.counter)), id, inbound);
    NumberedNext(k.issued, s);
    AuthorizedNext(k.startup, k.issued, s);
  }

  lemma StepKeeps(h: Hash, k: Kernel, op: Op, k': Kernel)
    requires Inv(h, k) && Next(h, k, op, k')
    ensures Inv(h, k') && k'.startup == k.startup
  {
    match op
    case Refresh(_) =>
    case Login(inbound, proof, now) =>
      var id := Authenticated(EntriesOf(k.published), proof, now);
      if id.Some? {
        AuthenticatedGranted(k.startup, k.published, proof, now,
                             Session(SessionID(inbound, Sequence(k.counter)), id.value, inbound));
        IssueKeeps(h, k, inbound, id.value);
      }
    case LoginTrojan(inbound, credential, now) =>
      var id := TrojanAuthenticated(EntriesOf(k.published), k.index, credential, now);
      if id.Some? {
        TrojanGranted(h, k.startup, k.published, k.index, credential, now,
                      Session(SessionID(inbound, Sequence(k.counter)), id.value, inbound));
        IssueKeeps(h, k, inbound, id.value);
      }
  }

  // ---- runs ----

  ghost predicate NextAt(h: Hash, trace: seq<Kernel>, ops: seq<Op>, i: nat) {
    i < |ops| && i + 1 < |trace| && Next(h, trace[i], ops[i], trace[i + 1])
  }

  ghost predicate IsRun(h: Hash, trace: seq<Kernel>, ops: seq<Op>) {
    && |trace| == |ops| + 1 && Init(h, trace[0])
    && forall i: nat :: i < |ops| ==> NextAt(h, trace, ops, i)
  }

  lemma {:induction false} RunKeeps(h: Hash, trace: seq<Kernel>, ops: seq<Op>, i: nat)
    requires IsRun(h, trace, ops) && i < |trace|
    ensures Inv(h, trace[i]) && trace[i].startup == trace[0].startup
  {
    if i > 0 {
      RunKeeps(h, trace, ops, i - 1);
      assert NextAt(h, trace, ops, i - 1);
      StepKeeps(h, trace[i - 1], ops[i - 1], trace[i]);
    }
  }

  /** Every session a kernel ever issued carries a route granted at start-up; with
      names the text form can carry, the outbound resolves to that very node. */
  lemma SessionsAuthorized(h: Hash, trace: seq<Kernel>, ops: seq<Op>, i: nat, j: nat)
    requires IsRun(h, trace, ops) && i < |trace| && j < |trace[i].issued|
    ensures Authorized(trace[0].startup, trace[i].issued[j])
    ensures NamesOk(trace[0].startup) ==> Resolves(trace[0].startup, trace[i].issued[j])
  {
    RunKeeps(h, trace, ops, i);
    if NamesOk(trace[0].startup) {
      AuthorizedResolves(trace[0].startup, trace[i].issued[j]);
    }
  }

  lemma OneStep(h: Hash, k: Kernel, op: Op, k': Kernel)
    requires Init(h, k) && Next(h, k, op, k')
    ensures IsRun(h, [k, k'], [op])
  {
    assert NextAt(h, [k, k'], [op], 0);
  }

  /** A granted plain route of a user in good standing authenticates. */
  lemma GrantedLogin(users: Users, u: string, n: string, now: int)
    requires Granted(users, u, n) && Plain(u, n) && InGoodStanding(users[u], now)
    ensures Authenticated(EntriesOf(users), RawProof(u, n, users[u].password), now) == Some(Join(u, n))
  {
    LoginExactly(users, RawProof(u, n, users[u].password), now, u, n);
  }

  lemma LoginStep(h: Hash, users: Users, index: Index, u: string, n: string) returns (k: Kernel, op: Op, k': Kernel)
    requires IndexBuilt(h, users, index)
    requires Granted(users, u, n) && Plain(u, n) && !users[u].disabled && users[u].expires.None?
    ensures Init(h, k) && Next(h, k, op, k') && k'.published == users && |k'.issued| == 1
  {
    GrantedLogin(users, u, n, 0);
    k, op := Kernel(users, users, index, 0, []), Login("in", RawProof(u, n, users[u].password), 0);
    k' := Issue(k, "in", Join(u, n));
  }

  /** Runs exist and issue sessions: any enabled user with one route can log in. */
  lemma SomeRun(name: string, node: string, user: User) returns (h: Hash, trace: seq<Kernel>, ops: seq<Op>)
    requires Plain(name, node) && user.routes == [node] && !user.disabled && user.expires.None?
    ensures IsRun(h, trace, ops) && HashFits(h, trace[|ops|].published) && |trace[|ops|].issued| == 1
  {
    var index, k, op, k';
    h, index := HypothesesMet(name, node, user);
    k, op, k' := LoginStep(h, map[name := user], index, name, node);
    OneStep(h, k, op, k');
    trace, ops := [k, k'], [op];
  }

  lemma TopologyPlain(startup: Users, published: Users)
    requires NamesOk(startup) && SameTopology(startup, published)
    ensures RoutesPlain(published)
  {
    forall u, n | Granted(published, u, n) ensures Plain(u, n) {
      assert Granted(startup, u, n);
    }
  }

  /** After any refreshes, and while no string collides with a published credential,
      both login paths answer every string alike at every instant. */
  lemma LoginsAgree(h: Hash, trace: seq<Kernel>, ops: seq<Op>, i: nat, proof: string, now: int)
    requires IsRun(h, trace, ops) && i < |trace|
    requires NamesOk(trace[0].startup) && HashFits(h, trace[i].published)
    ensures AgreeOn(h, trace[i].published, trace[i].index, proof, now)
  {
    RunKeeps(h, trace, ops, i);
    TopologyPlain(trace[i].startup, trace[i].published);
    PathsAgree(h, trace[i].published, trace[i].index, proof, now);
  }

  // ---- users missing from a refresh ----

  /** From a refresh without the user until one with them, neither path issues the user a session. */
  lemma {:induction false} MissingUserLockedOut(h: Hash, trace: seq<Kernel>, ops: seq<Op>,
                                                since: nat, later: nat, user: string)
    requires IsRun(h, trace, ops) && since < later < |trace|
    requires ops[since].Refresh? && user !in ops[since].loaded
    requires forall i :: since < i < later && ops[i].Refresh? ==> user !in ops[i].loaded
    ensures user in trace[later].published ==> trace[later].published[user].disabled
    ensures forall proof, now :: LoginAs(trace[later], proof, now) != Some(user)
    ensures forall credential, now :: TrojanAs(trace[later], credential, now) != Some(user)
    decreases later
  {
    assert NextAt(h, trace, ops, later - 1);
    if later - 1 > since {
      MissingUserLockedOut(h, trace, ops, since, later - 1, user);
    }
    forall proof, now ensures LoginAs(trace[later], proof, now) != Some(user) {
      DisabledCannotLogin(trace[later], user, proof, now);
    }
  }

  /** The user a proof or credential would log in as. */
  ghost function LoginAs(k: Kernel, proof: string, now: int): Option<string> {
    if Authenticated(EntriesOf(k.published), proof, now).Some? then Some(ParseAuth(proof).0) else None
  }

  ghost function TrojanAs(k: Kernel, credential: string, now: int): Option<string> {
    var id := TrojanAuthenticated(EntriesOf(k.published), k.index, credential, now);
    if id.Some? then Some(ParseID(id.value).0) else None
  }

  lemma DisabledCannotLogin(k: Kernel, user: string, proof: string, now: int)
    requires user in k.published ==> k.published[user].disabled
    ensures LoginAs(k, proof, now) != Some(user)
  {
  }

  // ---- who gets a session ----

  /** The session of one login: a fresh number after the inbound's name, and the route. */
  lemma IssueText(k: Kernel, inbound: string, id: string)
    ensures var text := inbound + "/" + Decimal((k.counter + 1) % WORD);
            Issue(k, inbound, id).issued == k.issued + [Session(text, id, inbound)]
    ensures Issue(k, inbound, id).counter == (k.counter + 1) % WORD
  {
  }

  /** A login with the published password of a granted plain route of a user in good
      standing issues one session that carries exactly that route. */
  lemma LoginIssues(h: Hash, k: Kernel, inbound: string, now: int, k': Kernel, u: string, n: string)
    requires Granted(k.published, u, n) && Plain(u, n) && InGoodStanding(k.published[u], now)
    requires Next(h, k, Login(inbound, RawProof(u, n, k.published[u].password), now), k')
    ensures k' == Issue(k, inbound, Join(u, n))
  {
    GrantedLogin(k.published, u, n, now);
  }

  /** The last refresh before moment j was at i. */
  ghost predicate LastRefresh(ops: seq<Op>, i: nat, j: nat) {
    i < j <= |ops| && ops[i].Refresh? && forall k :: i < k < j ==> !ops[k].Refresh?
  }

  lemma {:induction false} PublishedSince(h: Hash, trace: seq<Kernel>, ops: seq<Op>, i: nat, j: nat)
    requires IsRun(h, trace, ops) && LastRefresh(ops, i, j)
    ensures trace[j].published == RefreshedAll(trace[0].startup, ops[i].loaded)
    decreases j
  {
    assert NextAt(h, trace, ops, j - 1);
    if i == j - 1 {
      RunKeeps(h, trace, ops, i);
    } else {
      PublishedSince(h, trace, ops, i, j - 1);
    }
  }

  /** Over runs: after a refresh a start-up route of a user it names is let in with the
      refreshed password, and exactly while the refreshed user is neither disabled nor
      expired. */
  lemma LoginAfterRefresh(h: Hash, trace: seq<Kernel>, ops: seq<Op>, i: nat, j: nat, u: string, n: string,
                          proof: string, now: int)
    requires IsRun(h, trace, ops) && LastRefresh(ops, i, j) && Plain(u, n)
    requires Granted(trace[0].startup, u, n) && u in ops[i].loaded
    ensures Authenticated(EntriesOf(trace[j].published), proof, now) == Some(Join(u, n))
            <==> && proof == RawProof(u, n, ops[i].loaded[u].password)
                 && InGoodStanding(ops[i].loaded[u], now)
  {
    PublishedSince(h, trace, ops, i, j);
    LoginExactly(trace[j].published, proof, now, u, n);
  }

  /** In every run neither path issues a session to a user who is published as disabled
      or whose expiry has come. */
  lemma BadStandingLockedOut(h: Hash, trace: seq<Kernel>, ops: seq<Op>, i: nat, j: nat, inbound: string, text: string,
                             now: int, u: string)
    requires IsRun(h, trace, ops) && i < |ops| && u in trace[i].published
    requires ops[i] == Login(inbound, text, now) || ops[i] == LoginTrojan(inbound, text, now)
    requires || trace[i].published[u].disabled
             || (trace[i].published[u].expires.Some? && trace[i].published[u].expires.value <= now)
    requires |trace[i].issued| <= j < |trace[i + 1].issued|
    ensures ParseID(trace[i + 1].issued[j].routeID).0 != u
  {
    assert NextAt(h, trace, ops, i);
    BadStandingRefused(trace[i].published, trace[i].index, u, text, now);
  }

  // ---- session ids ----

  lemma SlashFree(s: string)
    requires AllDigits(s)
    ensures '/' !in s
  {
  }

  /** The text after the last slash decides. */
  lemma TailDecides(a: string, x: string, b: string, y: string)
    requires a + "/" + x == b + "/" + y && '/' !in x && '/' !in y
    ensures |a| <= |b|
    ensures |a| == |b| ==> x == y
  {
    var s := a + "/" + x;
    assert s[|a|] == '/';
    assert forall p :: |b| < p < |s| ==> s[p] == y[p - |b| - 1];
    assert |a| == |b| ==> s[|a| + 1..] == x && (b + "/" + y)[|b| + 1..] == y;
  }

  lemma SequenceDecides(a: string, m: nat, b: string, n: nat)
    requires SessionID(a, m) == SessionID(b, n)
    ensures m == n
  {
    var x, y := Decimal(m), Decimal(n);
    SlashFree(x);
    SlashFree(y);
    TailDecides(a, x, b, y);
    TailDecides(b, y, a, x);
    NumberDecimal(m);
    NumberDecimal(n);
  }

  lemma IssuedAt(issued: seq<Session>, i: nat)
    requires Numbered(issued) && i < |issued| < WORD
    ensures issued[i].id == SessionID(issued[i].inbound, i + 1)
  {
  }

  lemma IssuedDistinct(issued: seq<Session>, i: nat, j: nat)
    requires Numbered(issued) && i < j < |issued| < WORD
    ensures issued[i].id != issued[j].id
  {
    IssuedAt(issued, i);
    IssuedAt(issued, j);
    if issued[i].id == issued[j].id {
      SequenceDecides(issued[i].inbound, i + 1, issued[j].inbound, j + 1);
    }
  }

  /** Session ids never repeat while the 64-bit counter has not wrapped. */
  lemma SessionIDsDistinct(h: Hash, trace: seq<Kernel>, ops: seq<Op>, t: nat, i: nat, j: nat)
    requires IsRun(h, trace, ops) && t < |trace| && i < j < |trace[t].issued| < WORD
    ensures trace[t].issued[i].id != trace[t].issued[j].id
  {
    RunKeeps(h, trace, ops, t);
    IssuedDistinct(trace[t].issued, i, j);
  }

  // ---- the kernel object ----

  class GatewayKernel {
    const auth: Authenticator
    const startup: Users
    var nextSession: nat
    ghost var issued: seq<Session>

    ghost function View(): Kernel
      reads this, auth
    {
      Kernel(startup, auth.published, auth.trojan, nextSession, issued)
    }

    ghost predicate Valid()
      reads this, auth
    {
      auth.Valid() && Inv(auth.hash, View())
    }

    constructor (hash: Hash, users: Users)
      ensures Valid() && fresh(auth) && auth.hash == hash && startup == users
      ensures Init(hash, View())
    {
      auth := new Authenticator(hash, users);
      startup, nextSession, issued := users, 0, [];
    }

    method NewSession(inbound: string, routeID: string) returns (s: Session)
      modifies this
      ensures View() == Issue(old(View()), inbound, routeID) && issued == old(issued) + [s]
    {
      nextSession := (nextSession + 1) % WORD;
      s := Session(inbound + "/" + Decimal(nextSession), routeID, inbound);
      issued := issued + [s];
    }

    method Authenticate(inbound: string, proof: string, now: int) returns (s: Option<Session>)
      requires Valid()
      modifies this
      ensures Valid() && Next(auth.hash, old(View()), Login(inbound, proof, now), View())
      ensures s.Some? ==> issued == old(issued) + [s.value] && Authorized(startup, s.value)
      ensures s.None? ==> View() == old(View())
    {
      ghost var was := View();
      var id := auth.Authenticate(proof, now);
      if id.Some? {
        var issuedNow := NewSession(inbound, id.value);
        s := Some(issuedNow);
      } else {
        s := None;
      }
      StepKeeps(auth.hash, was, Login(inbound, proof, now), View());
      assert s.Some? ==> s.value == issued[|issued| - 1];
    }

    method AuthenticateTrojan(inbound: string, credential: string, now: int) returns (s: Option<Session>)
      requires Valid()
      modifies this
      ensures Valid() && Next(auth.hash, old(View()), LoginTrojan(inbound, credential, now), View())
      ensures s.Some? ==> issued == old(issued) + [s.value] && Authorized(startup, s.value)
      ensures s.None? ==> View() == old(View())
    {
      ghost var was := View();
      var id := auth.AuthenticateTrojan(credential, now);
      if id.Some? {
        var issuedNow := NewSession(inbound, id.value);
        s := Some(issuedNow);
      } else {
        s := None;
      }
      StepKeeps(auth.hash, was, LoginTrojan(inbound, credential, now), View());
      assert s.Some? ==> s.value == issued[|issued| - 1];
    }

    /** Publishes live fields and keeps the start-up routes. */
    method UpdateUsers(loaded: Users)
      requires Valid()
      modifies auth
      ensures Valid() && Next(auth.hash, old(View()), Refresh(loaded), View())
    {
      ghost var was := View();
      var updated := RefreshSnapshot(startup, loaded);
      auth.UpdateUsers(updated);
      StepKeeps(auth.hash, was, Refresh(loaded), View());
    }

    /** The node a session's traffic leaves through; None is the missing-route error. */
    method OutboundFor(session: Session) returns (node: Option<string>)
      requires Valid()
      ensures node.None? <==> ParseID(session.routeID).1 == ""
      ensures session in issued ==> Authorized(startup, session)
      ensures session in issued && NamesOk(startup) ==>
                node.Some? && Granted(startup, ParseID(session.routeID).0, node.value)
    {
      var (_, name) := ParseID(session.routeID);
      node := if name == "" then None else Some(name);
      if session in issued && NamesOk(startup) {
        AuthorizedResolves(startup, session);
      }
    }
  }
}
