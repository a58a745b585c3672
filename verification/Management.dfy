/** The managed configuration database: users, route grants, nodes and the
    revision that marks restart-applied changes. Operations run one at a time
    and are all-or-nothing. */
module Management {
  import opened Basics
  import opened SortedNames

  datatype UserRow = UserRow(password: string, token: string, expires: Option<int>,
                             monthlyBytes: nat, speed: nat, deleted: bool)

  /** `valid` is the verdict of validateNode on the definition. */
  datatype NodeConfig = NodeConfig(text: string, valid: bool)

  datatype NodeRow = NodeRow(config: NodeConfig, enabled: bool)

  datatype Input = Input(username: string, password: string, expires: Option<int>,
                         monthlyBytes: nat, speed: nat, routes: seq<string>)

  datatype Store = Store(
    users: map<string, UserRow>,
    grants: set<(string, string)>,
    nodes: map<string, NodeRow>,
    revision: nat,
    migrated: bool)

  datatype Op =
    | CreateUser(input: Input, token: string)
    | UpdateUser(input: Input)
    | SetUserDeleted(name: string, deleted: bool)
    | ResetUserPassword(name: string, password: string)
    | ResetUserToken(name: string, token: string)
    | SaveNode(name: string, config: NodeConfig, enabled: bool)
    | UpdateNode(name: string, config: NodeConfig, enabled: bool)
    | DeleteNode(name: string)
    | ReplaceLegacyUsers(inputs: map<string, Input>, tokens: map<string, string>)
    | MigrateLegacy(configs: map<string, NodeConfig>, inputs: map<string, Input>, tokens: map<string, string>)

  const DIRECT: string := "direct"

  predicate ValidName(s: string) {
    s != "" && ':' !in s && '/' !in s && '\\' !in s && '\0' !in s
  }

  predicate ValidNodeName(s: string) { ValidName(s) && s != DIRECT }

  predicate ValidRoutes(s: Store, routes: seq<string>) {
    forall r :: r in routes ==> r == DIRECT || (r in s.nodes && s.nodes[r].enabled)
  }

  predicate ValidInput(s: Store, i: Input) {
    ValidName(i.username) && i.password != "" && i.routes != [] && ValidRoutes(s, i.routes)
  }

  predicate TokenTaken(s: Store, token: string) {
    exists u :: u in s.users && s.users[u].token == token
  }

  function GrantsFor(user: string, routes: set<string>): set<(string, string)> {
    set r | r in routes :: (user, r)
  }

  function RoutesOf(s: Store, user: string): set<string> {
    set g | g in s.grants && g.0 == user :: g.1
  }

  function WithoutUser(grants: set<(string, string)>, user: string): set<(string, string)> {
    set g | g in grants && g.0 != user
  }

  function WithoutNode(grants: set<(string, string)>, node: string): set<(string, string)> {
    set g | g in grants && g.1 != node
  }

  function NewRow(i: Input, token: string): UserRow {
    UserRow(i.password, token, i.expires, i.monthlyBytes, i.speed, false)
  }

  /** The legacy import stores no expiry and inserts every route of every user; duplicates violate the
      primary key, and tokens must be present and unique. */
  predicate LegacyUsersOk(inputs: map<string, Input>, tokens: map<string, string>) {
    && (forall u :: u in inputs ==>
          ValidName(u) && inputs[u].password != "" && inputs[u].routes != [] && Distinct(inputs[u].routes))
    && (forall u :: u in inputs ==> u in tokens && tokens[u] != "")
    && (forall u, v :: u in inputs && v in inputs && u != v && u in tokens && v in tokens ==> tokens[u] != tokens[v])
  }

  function LegacyRows(inputs: map<string, Input>, tokens: map<string, string>): map<string, UserRow>
    requires forall u :: u in inputs ==> u in tokens
  {
    map u | u in inputs :: NewRow(inputs[u].(expires := None), tokens[u])
  }

  function LegacyGrants(inputs: map<string, Input>): set<(string, string)> {
    set u, r | u in inputs && r in inputs[u].routes :: (u, r)
  }

  /** What a user form must satisfy, spelled out. */
  lemma InputLaw(s: Store, i: Input)
    ensures ValidInput(s, i)
            <==> && i.username != "" && (forall c :: c in i.username ==> c != ':' && c != '/' && c != '\\' && c != '\0')
                 && i.password != "" && |i.routes| > 0
                 && forall k :: 0 <= k < |i.routes| ==>
                      i.routes[k] == "direct" || (i.routes[k] in s.nodes && s.nodes[i.routes[k]].enabled)
  {
  }

  // ---- the operations; an error leaves the store unchanged ----

  function CreatesUser(s: Store, i: Input, token: string): Store {
    if !ValidInput(s, i) || token == "" || i.username in s.users || TokenTaken(s, token) then s
    else s.(users := s.users[i.username := NewRow(i, token)],
            grants := s.grants + GrantsFor(i.username, Names(i.routes)),
            revision := s.revision + 1)
  }

  function UpdatesUser(s: Store, i: Input): Store {
    if !ValidInput(s, i) || i.username !in s.users then s
    else
      var row := s.users[i.username].(password := i.password, expires := i.expires,
                                      monthlyBytes := i.monthlyBytes, speed := i.speed);
      var t := s.(users := s.users[i.username := row]);
      if RoutesOf(s, i.username) == Names(i.routes) then t
      else t.(grants := WithoutUser(s.grants, i.username) + GrantsFor(i.username, Names(i.routes)),
              revision := s.revision + 1)
  }

  function SavesNode(s: Store, name: string, config: NodeConfig, enabled: bool): Store {
    if !ValidNodeName(name) || !config.valid then s
    else s.(nodes := s.nodes[name := NodeRow(config, enabled)], revision := s.revision + 1)
  }

  function DeletesNode(s: Store, name: string): Store {
    if !ValidNodeName(name) || name !in s.nodes then s
    else s.(grants := WithoutNode(s.grants, name), nodes := s.nodes - {name}, revision := s.revision + 1)
  }

  function Replaces(s: Store, inputs: map<string, Input>, tokens: map<string, string>): Store {
    if inputs == map[] || !LegacyUsersOk(inputs, tokens) ||
       exists u :: u in inputs && !ValidRoutes(s, inputs[u].routes) then s
    else s.(users := LegacyRows(inputs, tokens), grants := LegacyGrants(inputs), revision := s.revision + 1)
  }

  /** The one-time import, which sets the revision to 1 whatever it was. */
  predicate MigrationRuns(s: Store, configs: map<string, NodeConfig>,
                          inputs: map<string, Input>, tokens: map<string, string>) {
    && s.users == map[] && !s.migrated && inputs != map[] && LegacyUsersOk(inputs, tokens)
    && (forall u, r :: u in inputs && r in inputs[u].routes ==> r == DIRECT || r in configs)
    && (forall n :: n in configs ==> ValidName(n) && configs[n].valid && n !in s.nodes)
  }

  function Migrates(s: Store, configs: map<string, NodeConfig>,
                    inputs: map<string, Input>, tokens: map<string, string>): Store {
    if !MigrationRuns(s, configs, inputs, tokens) then s
    else s.(users := LegacyRows(inputs, tokens), grants := s.grants + LegacyGrants(inputs),
            nodes := s.nodes + (map n | n in configs :: NodeRow(configs[n], true)),
            revision := 1, migrated := true)
  }

  function Apply(s: Store, op: Op): Store {
    match op
    case CreateUser(i, token) => CreatesUser(s, i, token)
    case UpdateUser(i) => UpdatesUser(s, i)
    case SetUserDeleted(u, deleted) =>
      if u in s.users then s.(users := s.users[u := s.users[u].(deleted := deleted)]) else s
    case ResetUserPassword(u, password) =>
      if password != "" && u in s.users then s.(users := s.users[u := s.users[u].(password := password)]) else s
    case ResetUserToken(u, token) =>
      if token != "" && u in s.users && (s.users[u].token == token || !TokenTaken(s, token))
      then s.(users := s.users[u := s.users[u].(token := token)]) else s
    case SaveNode(n, config, enabled) => SavesNode(s, n, config, enabled)
    case UpdateNode(n, config, enabled) => if n in s.nodes then SavesNode(s, n, config, enabled) else s
    case DeleteNode(n) => DeletesNode(s, n)
    case ReplaceLegacyUsers(inputs, tokens) => Replaces(s, inputs, tokens)
    case MigrateLegacy(configs, inputs, tokens) => Migrates(s, configs, inputs, tokens)
  }

  // ---- the revision tells whether the topology changed ----

  ghost predicate SameTopology(s: Store, t: Store) {
    s.users.Keys == t.users.Keys && s.grants == t.grants && s.nodes == t.nodes
  }

  /** The operation is an import that the store does not refuse. */
  predicate Imports(s: Store, op: Op) {
    op.MigrateLegacy? && MigrationRuns(s, op.configs, op.inputs, op.tokens)
  }

  /** Each operation raises the revision by one or leaves revision and topology alone,
      except an import, which sets the revision to 1. */
  lemma StepRevision(s: Store, op: Op)
    ensures Imports(s, op) ==> Apply(s, op).revision == 1 && Apply(s, op).users.Keys != {} && s.users == map[]
    ensures !Imports(s, op) ==>
              || Apply(s, op).revision == s.revision + 1
              || (Apply(s, op).revision == s.revision && SameTopology(s, Apply(s, op)))
  {
    if Imports(s, op) {
      var u :| u in op.inputs;
      assert u in Apply(s, op).users;
    }
  }

  function Run(s: Store, ops: seq<Op>): Store {
    if ops == [] then s else Apply(Run(s, ops[..|ops| - 1]), ops[|ops| - 1])
  }

  /** The store after the first i operations. */
  function At(s: Store, ops: seq<Op>, i: nat): Store
    requires i <= |ops|
  {
    Run(s, ops[..i])
  }

  lemma AtNext(s: Store, ops: seq<Op>, i: nat)
    requires i < |ops|
    ensures At(s, ops, i + 1) == Apply(At(s, ops, i), ops[i])
  {
    assert ops[..i + 1][..i] == ops[..i];
  }

  /** No import takes effect once a revision has been given out. */
  ghost predicate ImportsFirst(s: Store, ops: seq<Op>) {
    forall k :: 0 <= k < |ops| && Imports(At(s, ops, k), ops[k]) ==> At(s, ops, k).revision == 0
  }

  /** Equal revisions mean equal users, grants and nodes, between any two moments. */
  ghost predicate RevisionsTell(s: Store, ops: seq<Op>) {
    forall i, j :: 0 <= i <= |ops| && 0 <= j <= |ops| && At(s, ops, i).revision == At(s, ops, j).revision
                   ==> SameTopology(At(s, ops, i), At(s, ops, j))
  }

  lemma {:induction false} RevisionOrder(s: Store, ops: seq<Op>, i: nat, j: nat)
    requires i <= j <= |ops| && ImportsFirst(s, ops)
    ensures At(s, ops, i).revision <= At(s, ops, j).revision
    ensures At(s, ops, i).revision == At(s, ops, j).revision ==> SameTopology(At(s, ops, i), At(s, ops, j))
    decreases j
  {
    if i < j {
      RevisionOrder(s, ops, i, j - 1);
      AtNext(s, ops, j - 1);
      StepRevision(At(s, ops, j - 1), ops[j - 1]);
    }
  }

  /** Two moments of a run with the same revision have the same users, grants and nodes. */
  lemma RevisionTellsTopology(s: Store, ops: seq<Op>)
    requires ImportsFirst(s, ops)
    ensures RevisionsTell(s, ops)
  {
    forall i, j | 0 <= i <= |ops| && 0 <= j <= |ops| && At(s, ops, i).revision == At(s, ops, j).revision
      ensures SameTopology(At(s, ops, i), At(s, ops, j))
    {
      if i <= j {
        RevisionOrder(s, ops, i, j);
      } else {
        RevisionOrder(s, ops, j, i);
      }
    }
  }

  /** Users never disappear entirely: only an import into an empty store adds the first ones. */
  lemma UsersStay(s: Store, op: Op)
    requires s.users != map[]
    ensures Apply(s, op).users != map[]
  {
    var u :| u in s.users;
    match op
    case ReplaceLegacyUsers(inputs, tokens) =>
      if inputs != map[] {
        var v :| v in inputs;
        assert Apply(s, op).users == s.users || v in Apply(s, op).users;
      }
    case _ => assert u in Apply(s, op).users;
  }

  /** While there are no users, revisions are counted up one by one from the start. */
  lemma {:induction false} PassesOne(s: Store, ops: seq<Op>, k: nat) returns (i: nat)
    requires s.revision == 0 && k <= |ops| && At(s, ops, k).users == map[] && At(s, ops, k).revision > 0
    ensures i <= k && At(s, ops, i).revision == 1 && At(s, ops, i).users == map[]
    decreases k
  {
    assert At(s, ops, 0) == s;
    var before := At(s, ops, k - 1);
    AtNext(s, ops, k - 1);
    StepRevision(before, ops[k - 1]);
    if before.users != map[] {
      UsersStay(before, ops[k - 1]);
    }
    i := k;
    if before.revision > 0 {
      i := PassesOne(s, ops, k - 1);
    }
  }

  lemma LateImportBreaks(s: Store, ops: seq<Op>, k: nat)
    requires s.revision == 0 && k < |ops| && Imports(At(s, ops, k), ops[k]) && At(s, ops, k).revision > 0
    ensures !RevisionsTell(s, ops)
  {
    StepRevision(At(s, ops, k), ops[k]);
    AtNext(s, ops, k);
    var i := PassesOne(s, ops, k);
    assert !SameTopology(At(s, ops, i), At(s, ops, k + 1));
  }

  /** The exact condition: from a fresh revision counter, the revision tells the
      topology over a whole run if and only if no import took effect after the first
      revision had been given out. */
  lemma RevisionTellsExactly(s: Store, ops: seq<Op>)
    requires s.revision == 0
    ensures RevisionsTell(s, ops) <==> ImportsFirst(s, ops)
  {
    if ImportsFirst(s, ops) {
      RevisionTellsTopology(s, ops);
    } else {
      var k :| 0 <= k < |ops| && Imports(At(s, ops, k), ops[k]) && At(s, ops, k).revision != 0;
      LateImportBreaks(s, ops, k);
    }
  }

  // ---- names ----

  /** Every stored name is valid, and every grant belongs to a user. */
  ghost predicate NamesStored(s: Store) {
    && (forall u :: u in s.users ==> ValidName(u))
    && (forall n :: n in s.nodes ==> ValidName(n))
    && (forall g :: g in s.grants ==> g.0 in s.users && ValidName(g.1))
  }

  lemma ImportNames(s: Store, op: Op)
    requires NamesStored(s) && (op.ReplaceLegacyUsers? || op.MigrateLegacy?)
    ensures NamesStored(Apply(s, op))
  {
    assert ValidName(DIRECT);
  }

  lemma NamesStep(s: Store, op: Op)
    requires NamesStored(s)
    ensures NamesStored(Apply(s, op))
  {
    assert ValidName(DIRECT);
    if op.ReplaceLegacyUsers? || op.MigrateLegacy? {
      ImportNames(s, op);
    }
  }

  /** No sequence of operations lets an invalid name into the store. */
  lemma {:induction false} NamesKeep(s: Store, ops: seq<Op>)
    requires NamesStored(s)
    ensures NamesStored(Run(s, ops))
  {
    if ops != [] {
      NamesKeep(s, ops[..|ops| - 1]);
      NamesStep(Run(s, ops[..|ops| - 1]), ops[|ops| - 1]);
    }
  }

  /** Passwords and tokens are present, and no two users share a token. */
  ghost predicate CredentialsStored(s: Store) {
    && (forall u :: u in s.users ==> s.users[u].password != "" && s.users[u].token != "")
    && (forall u, v :: u in s.users && v in s.users && u != v ==> s.users[u].token != s.users[v].token)
  }

  lemma CredentialsStep(s: Store, op: Op)
    requires CredentialsStored(s)
    ensures CredentialsStored(Apply(s, op))
  {
    match op
    case CreateUser(_, _) => TokenCredentials(s, op);
    case ResetUserToken(_, _) => TokenCredentials(s, op);
    case ReplaceLegacyUsers(_, _) => ImportCredentials(s, op);
    case MigrateLegacy(_, _, _) => ImportCredentials(s, op);
    case _ => FieldCredentials(s, op);
  }

  lemma FieldCredentials(s: Store, op: Op)
    requires CredentialsStored(s)
    requires !op.CreateUser? && !op.ResetUserToken? && !op.ReplaceLegacyUsers? && !op.MigrateLegacy?
    ensures CredentialsStored(Apply(s, op))
  {
  }

  lemma TokenCredentials(s: Store, op: Op)
    requires CredentialsStored(s) && (op.CreateUser? || op.ResetUserToken?)
    ensures CredentialsStored(Apply(s, op))
  {
  }

  lemma ImportCredentials(s: Store, op: Op)
    requires CredentialsStored(s) && (op.ReplaceLegacyUsers? || op.MigrateLegacy?)
    ensures CredentialsStored(Apply(s, op))
  {
  }

  /** Over any operations nobody is stored without a password or token, or with a token
      that finds another user. */
  lemma {:induction false} CredentialsKeep(s: Store, ops: seq<Op>)
    requires CredentialsStored(s)
    ensures CredentialsStored(Run(s, ops))
  {
    if ops != [] {
      CredentialsKeep(s, ops[..|ops| - 1]);
      CredentialsStep(Run(s, ops[..|ops| - 1]), ops[|ops| - 1]);
    }
  }

  /** Outside an import, a route is only ever granted to the direct route or to a node
      that is enabled at that moment. */
  lemma GrantsEnabled(s: Store, op: Op, g: (string, string))
    requires !op.MigrateLegacy? && g in Apply(s, op).grants && g !in s.grants
    ensures g.1 == "direct" || (g.1 in s.nodes && s.nodes[g.1].enabled)
  {
  }

  /** Every grant names the direct route or an existing node. */
  ghost predicate GrantsKnown(s: Store) {
    forall g :: g in s.grants ==> g.1 == DIRECT || g.1 in s.nodes
  }

  lemma GrantsStep(s: Store, op: Op)
    requires GrantsKnown(s)
    ensures GrantsKnown(Apply(s, op))
  {
  }

  /** Operations one at a time never leave a grant to a node that does not exist. */
  lemma {:induction false} GrantsKeep(s: Store, ops: seq<Op>)
    requires GrantsKnown(s)
    ensures GrantsKnown(Run(s, ops))
  {
    if ops != [] {
      GrantsKeep(s, ops[..|ops| - 1]);
      GrantsStep(Run(s, ops[..|ops| - 1]), ops[|ops| - 1]);
    }
  }

  // ---- when the revision moves ----

  /** UpdateUser raises the revision exactly when the stored grants change. */
  lemma UpdateBumpsExactly(s: Store, i: Input)
    ensures UpdatesUser(s, i).revision == s.revision || UpdatesUser(s, i).revision == s.revision + 1
    ensures UpdatesUser(s, i).revision == s.revision + 1 <==> UpdatesUser(s, i).grants != s.grants
    ensures ValidInput(s, i) && i.username in s.users ==> RoutesOf(UpdatesUser(s, i), i.username) == Names(i.routes)
  {
    var t := UpdatesUser(s, i);
    if ValidInput(s, i) && i.username in s.users && RoutesOf(s, i.username) != Names(i.routes) {
      assert RoutesOf(t, i.username) == Names(i.routes) by {
        forall r | r in Names(i.routes) ensures r in RoutesOf(t, i.username) {
          assert (i.username, r) in GrantsFor(i.username, Names(i.routes));
        }
      }
    }
  }

  const FRESH: Store := Store(map[], {}, map[], 0, false)
  const SAVING: Op := SaveNode("a", NodeConfig("", true), true)
  const LEGACY: map<string, Input> := map["u" := Input("u", "p", None, 0, 0, [DIRECT])]
  const IMPORTING: Op := MigrateLegacy(map[], LEGACY, map["u" := "t"])

  lemma SavedFirst()
    ensures Apply(FRESH, SAVING).revision == 1 && Apply(FRESH, SAVING).users == map[] && !Apply(FRESH, SAVING).migrated
  {
    assert |"a"| != |DIRECT|;
  }

  lemma ThenImported(s: Store)
    requires s.users == map[] && !s.migrated
    ensures Imports(s, IMPORTING)
  {
    assert "u" in LEGACY;
  }

  /** A node saved first, then an import: one revision, two topologies. */
  lemma LateImportReusesRevision()
    ensures !RevisionsTell(FRESH, [SAVING, IMPORTING])
  {
    var ops := [SAVING, IMPORTING];
    assert At(FRESH, ops, 0) == FRESH;
    AtNext(FRESH, ops, 0);
    SavedFirst();
    ThenImported(At(FRESH, ops, 1));
    LateImportBreaks(FRESH, ops, 1);
  }

  // ---- the tables as UpdateUser and DeleteNode change them ----

  /** ORDER BY node_name over a user's grants. */
  ghost predicate IsRouteList(s: Store, user: string, rows: seq<string>) {
    Ascending(rows) && Names(rows) == RoutesOf(s, user)
  }

  method InsertGrants(grants: set<(string, string)>, user: string, routes: seq<string>)
    returns (result: set<(string, string)>)
    ensures result == grants + GrantsFor(user, Names(routes))
  {
    result := grants;
    for i := 0 to |routes|
      invariant result == grants + GrantsFor(user, Names(routes[..i]))
    {
      assert Names(routes[..i + 1]) == Names(routes[..i]) + {routes[i]};
      assert GrantsFor(user, Names(routes[..i + 1])) == GrantsFor(user, Names(routes[..i])) + {(user, routes[i])};
      result := result + {(user, routes[i])};
    }
    assert routes[..|routes|] == routes;
  }

  class SQLiteStore {
    var users: map<string, UserRow>
    var grants: set<(string, string)>
    var nodes: map<string, NodeRow>
    var revision: nat
    var migrated: bool

    ghost function State(): Store
      reads this
    {
      Store(users, grants, nodes, revision, migrated)
    }

    constructor ()
      ensures State() == Store(map[], {}, map[], 0, false)
    {
      users, grants, nodes, revision, migrated := map[], {}, map[], 0, false;
    }

    method CheckRoutes(routes: seq<string>) returns (ok: bool)
      ensures ok <==> ValidRoutes(State(), routes)
    {
      var unique := UniqueRoutes(routes);
      assert forall r :: r in routes <==> r in Names(unique);
      for i := 0 to |unique|
        invariant forall k :: 0 <= k < i ==> unique[k] == DIRECT || (unique[k] in nodes && nodes[unique[k]].enabled)
      {
        if unique[i] != DIRECT && (unique[i] !in nodes || !nodes[unique[i]].enabled) {
          assert unique[i] in Names(unique);
          return false;
        }
      }
      return true;
    }

    /** `rows` is the sorted route list the query returns. */
    method UpdateUser(input: Input, rows: seq<string>) returns (ok: bool)
      requires IsRouteList(State(), input.username, rows)
      modifies this
      ensures State() == UpdatesUser(old(State()), input)
      ensures ok <==> ValidInput(old(State()), input) && input.username in old(users)
    {
      if !ValidName(input.username) || input.password == "" || input.routes == [] {
        return false;
      }
      var routesOk := CheckRoutes(input.routes);
      if !routesOk || input.username !in users {
        return false;
      }
      var changed, requested := RoutesChanged(rows, input.routes);
      var row := users[input.username];
      users := users[input.username := row.(password := input.password, expires := input.expires,
                                            monthlyBytes := input.monthlyBytes, speed := input.speed)];
      if changed {
        grants := InsertGrants((set g | g in grants && g.0 != input.username), input.username, requested);
        revision := revision + 1;
      }
      return true;
    }

    method CreateUser(input: Input, token: string) returns (ok: bool)
      modifies this
      ensures State() == CreatesUser(old(State()), input, token)
      ensures ok <==> ValidInput(old(State()), input) && token != ""
                      && input.username !in old(users) && !TokenTaken(old(State()), token)
    {
      if !ValidName(input.username) || input.password == "" || token == "" || input.routes == [] {
        return false;
      }
      var routesOk := CheckRoutes(input.routes);
      if !routesOk || input.username in users || exists u :: u in users && users[u].token == token {
        return false;
      }
      var unique := UniqueRoutes(input.routes);
      users := users[input.username := NewRow(input, token)];
      grants := InsertGrants(grants, input.username, unique);
      revision := revision + 1;
      return true;
    }

    method DeleteNode(name: string) returns (ok: bool)
      modifies this
      ensures State() == DeletesNode(old(State()), name)
      ensures ok <==> ValidNodeName(name) && name in old(nodes)
    {
      if !ValidNodeName(name) || name !in nodes {
        return false;
      }
      grants := set g | g in grants && g.1 != name;
      nodes := nodes - {name};
      revision := revision + 1;
      return true;
    }
  }
}
