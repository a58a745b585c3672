/** The users a gateway starts and refreshes with, as loaded from the managed store. */
module RuntimeUsers {
  import opened Basics
  import opened SortedNames
  import opened Authentication
  import opened Management

  /** A row of the query over user_nodes. */
  type RouteRow = (string, string)

  /** The route table in query order: every grant once, each user's nodes ascending. */
  ghost predicate QueriedRoutes(s: Store, rows: seq<RouteRow>) {
    && (forall g :: g in s.grants <==> g in rows)
    && (forall i, j :: 0 <= i < j < |rows| && rows[i].0 == rows[j].0 ==> Less(rows[i].1, rows[j].1))
  }

  /** The nodes listed for one user, in order. */
  function RoutesIn(rows: seq<RouteRow>, user: string): seq<string> {
    if rows == [] then []
    else
      var r := rows[|rows| - 1];
      RoutesIn(rows[..|rows| - 1], user) + if r.0 == user then [r.1] else []
  }

  lemma {:induction false} RoutesInNames(rows: seq<RouteRow>, user: string, n: string)
    ensures n in RoutesIn(rows, user) <==> (user, n) in rows
  {
    if rows != [] {
      var k := |rows| - 1;
      RoutesInNames(rows[..k], user, n);
      assert rows == rows[..k] + [rows[k]];
    }
  }

  lemma {:induction false} RoutesInAscending(rows: seq<RouteRow>, user: string)
    requires forall i, j :: 0 <= i < j < |rows| && rows[i].0 == rows[j].0 ==> Less(rows[i].1, rows[j].1)
    ensures Ascending(RoutesIn(rows, user))
  {
    if rows != [] {
      var k := |rows| - 1;
      var front := RoutesIn(rows[..k], user);
      RoutesInAscending(rows[..k], user);
      forall i | 0 <= i < |front| && rows[k].0 == user ensures Less(front[i], rows[k].1) {
        RoutesInNames(rows[..k], user, front[i]);
        assert (user, front[i]) in rows[..k];
      }
    }
  }

  function RuntimeUser(row: UserRow, routes: seq<string>): User {
    User(row.password, routes, row.deleted, row.expires, row.monthlyBytes, row.speed)
  }

  /** The configuration after the first i route rows. */
  function Assembled(users: map<string, UserRow>, rows: seq<RouteRow>): Users {
    map u | u in users :: RuntimeUser(users[u], RoutesIn(rows, u))
  }

  /** The configuration holds the stored users, each with its granted nodes ascending. */
  ghost predicate LoadedFrom(s: Store, users: Users) {
    users.Keys == s.users.Keys &&
    forall u :: u in users ==>
      && users[u] == RuntimeUser(s.users[u], users[u].routes)
      && Ascending(users[u].routes) && Names(users[u].routes) == RoutesOf(s, u)
  }

  lemma AssembledLoads(s: Store, rows: seq<RouteRow>)
    requires QueriedRoutes(s, rows)
    ensures LoadedFrom(s, Assembled(s.users, rows))
  {
    forall u | u in s.users
      ensures Ascending(RoutesIn(rows, u)) && Names(RoutesIn(rows, u)) == RoutesOf(s, u)
    {
      RoutesInAscending(rows, u);
      forall n ensures n in RoutesIn(rows, u) <==> n in RoutesOf(s, u) {
        RoutesInNames(rows, u, n);
        assert (u, n) in s.grants <==> n in RoutesOf(s, u);
      }
    }
  }

  lemma RoutesNext(rows: seq<RouteRow>, i: nat, user: string)
    requires i < |rows|
    ensures RoutesIn(rows[..i + 1], user)
         == if rows[i].0 == user then RoutesIn(rows[..i], user) + [rows[i].1] else RoutesIn(rows[..i], user)
  {
    assert rows[..i + 1][..i] == rows[..i];
  }

  /** One route row added to a configuration; rows of unknown users are skipped. */
  function AddRoute(users: Users, row: RouteRow): Users {
    if row.0 in users then users[row.0 := users[row.0].(routes := users[row.0].routes + [row.1])] else users
  }

  lemma AssembledNext(users: map<string, UserRow>, rows: seq<RouteRow>, i: nat)
    requires i < |rows|
    ensures Assembled(users, rows[..i + 1]) == AddRoute(Assembled(users, rows[..i]), rows[i])
  {
    var after, added := Assembled(users, rows[..i + 1]), AddRoute(Assembled(users, rows[..i]), rows[i]);
    forall u | u in users ensures after[u] == added[u] {
      RoutesNext(rows, i, u);
    }
  }

  /** LoadRuntimeUsers: one pass over the users, one over the route rows. */
  method LoadRuntimeUsers(ghost s: Store, table: map<string, UserRow>, rows: seq<RouteRow>) returns (users: Users)
    requires table == s.users && QueriedRoutes(s, rows)
    ensures LoadedFrom(s, users)
  {
    users := map[];
    var todo := table.Keys;
    while todo != {}
      invariant todo <= table.Keys && users == Assembled(table - todo, [])
      decreases todo
    {
      var name :| name in todo;
      users := users[name := RuntimeUser(table[name], [])];
      todo := todo - {name};
    }
    assert table - {} == table;
    for i := 0 to |rows|
      invariant users == Assembled(table, rows[..i])
    {
      AssembledNext(table, rows, i);
      var (name, node) := rows[i];
      if name in users {
        users := users[name := users[name].(routes := users[name].routes + [node])];
      }
    }
    assert rows[..|rows|] == rows;
    AssembledLoads(s, rows);
  }

  lemma LoadedNames(s: Store, users: Users)
    requires NamesStored(s) && LoadedFrom(s, users)
    ensures NamesOk(users)
  {
    forall u | u in users ensures ValidName(u) && forall n :: n in users[u].routes ==> ValidName(n) {
      forall n | n in users[u].routes ensures ValidName(n) {
        assert n in RoutesOf(s, u) by { assert n in Names(users[u].routes); }
        assert (u, n) in s.grants;
      }
    }
  }

  /** Whatever management operations built the store, the configuration loaded from it
      has the names that authentication and routing rely on. */
  lemma ManagedNamesOk(ops: seq<Management.Op>, users: Users)
    requires LoadedFrom(Run(FRESH, ops), users)
    ensures NamesOk(users) && RoutesPlain(users)
  {
    NamesKeep(FRESH, ops);
    LoadedNames(Run(FRESH, ops), users);
    forall u, n | Granted(users, u, n) ensures Plain(u, n) {}
  }

  // ---- what an operation changes for the gateway ----

  /** The user as requested: fields and route set. */
  predicate AsRequested(user: User, i: Input) {
    && user.password == i.password && user.expires == i.expires
    && user.maxBytes == i.monthlyBytes && user.speedLimit == i.speed
    && Names(user.routes) == Names(i.routes)
  }

  /** Every other user is loaded as before. */
  ghost predicate OthersSame(before: Users, after: Users, name: string) {
    forall u :: u != name ==> (u in before <==> u in after) && (u in before ==> before[u] == after[u])
  }

  lemma SameRoutes(s: Store, t: Store, before: Users, after: Users, u: string)
    requires LoadedFrom(s, before) && LoadedFrom(t, after) && u in before && u in after
    requires RoutesOf(s, u) == RoutesOf(t, u)
    ensures before[u].routes == after[u].routes
  {
    AscendingUnique(before[u].routes, after[u].routes);
  }

  lemma OtherRoutes(s: Store, t: Store, u: string)
    requires forall n :: (u, n) in s.grants <==> (u, n) in t.grants
    ensures RoutesOf(s, u) == RoutesOf(t, u)
  {
  }

  /** Tables that agree on a user load it alike. */
  lemma OthersLoadAlike(s: Store, t: Store, before: Users, after: Users, name: string)
    requires LoadedFrom(s, before) && LoadedFrom(t, after)
    requires forall u :: u != name ==> (u in s.users <==> u in t.users) && (u in s.users ==> s.users[u] == t.users[u])
    requires forall u, n :: u != name ==> ((u, n) in s.grants <==> (u, n) in t.grants)
    ensures OthersSame(before, after, name)
  {
    forall u | u != name && u in before ensures u in after && before[u] == after[u] {
      OtherRoutes(s, t, u);
      SameRoutes(s, t, before, after, u);
    }
  }

  lemma UpdatedRoutes(s: Store, i: Input)
    requires ValidInput(s, i) && i.username in s.users
    ensures RoutesOf(UpdatesUser(s, i), i.username) == Names(i.routes)
    ensures forall u, n :: u != i.username ==> ((u, n) in s.grants <==> (u, n) in UpdatesUser(s, i).grants)
  {
    UpdateBumpsExactly(s, i);
  }

  /** After an accepted update the gateway loads the user as requested, enabled or not as
      before, and every other user as before; a refused one changes nothing. */
  lemma UpdateLoads(s: Store, i: Input, before: Users, after: Users)
    requires LoadedFrom(s, before) && LoadedFrom(Apply(s, UpdateUser(i)), after)
    ensures ValidInput(s, i) && i.username in s.users ==>
              && i.username in after && AsRequested(after[i.username], i)
              && after[i.username].disabled == before[i.username].disabled
    ensures OthersSame(before, after, i.username)
  {
    if ValidInput(s, i) && i.username in s.users {
      UpdatedRoutes(s, i);
    }
    OthersLoadAlike(s, Apply(s, UpdateUser(i)), before, after, i.username);
  }

  lemma CreatedRoutes(s: Store, i: Input, token: string)
    requires NamesStored(s) && CreatesUser(s, i, token) != s
    ensures RoutesOf(CreatesUser(s, i, token), i.username) == Names(i.routes)
    ensures forall u, n :: u != i.username ==> ((u, n) in s.grants <==> (u, n) in CreatesUser(s, i, token).grants)
  {
    var t := CreatesUser(s, i, token);
    forall n ensures n in RoutesOf(t, i.username) <==> n in Names(i.routes) {
      assert (i.username, n) in t.grants <==> n in Names(i.routes);
    }
  }

  /** A created user is loaded as requested and enabled; every other user as before. */
  lemma CreateLoads(s: Store, i: Input, token: string, before: Users, after: Users)
    requires NamesStored(s) && LoadedFrom(s, before) && LoadedFrom(Apply(s, CreateUser(i, token)), after)
    ensures ValidInput(s, i) && token != "" && i.username !in s.users && !TokenTaken(s, token) ==>
              i.username in after && AsRequested(after[i.username], i) && !after[i.username].disabled
    ensures OthersSame(before, after, i.username)
  {
    if CreatesUser(s, i, token) != s {
      CreatedRoutes(s, i, token);
    }
    OthersLoadAlike(s, Apply(s, CreateUser(i, token)), before, after, i.username);
  }

  /** What a single-field operation leaves of a stored row. */
  function FieldChanged(row: UserRow, op: Management.Op, u: string): UserRow {
    if op.SetUserDeleted? && op.name == u then row.(deleted := op.deleted)
    else if op.ResetUserPassword? && op.name == u && op.password != "" then row.(password := op.password)
    else row
  }

  lemma FieldStored(s: Store, op: Management.Op, u: string)
    requires op.SetUserDeleted? || op.ResetUserPassword? || op.ResetUserToken?
    ensures Apply(s, op).grants == s.grants && (u in Apply(s, op).users <==> u in s.users)
    ensures u in s.users ==>
              RuntimeUser(Apply(s, op).users[u], []) == RuntimeUser(FieldChanged(s.users[u], op, u), [])
  {
  }

  /** Deleting or restoring a user only moves its disabled flag; a new password only its
      password; a new token nothing the gateway loads. */
  lemma FieldLoads(s: Store, op: Management.Op, before: Users, after: Users, u: string)
    requires op.SetUserDeleted? || op.ResetUserPassword? || op.ResetUserToken?
    requires LoadedFrom(s, before) && LoadedFrom(Apply(s, op), after)
    ensures u in before <==> u in after
    ensures u in before ==>
              after[u] == if op.SetUserDeleted? && op.name == u then before[u].(disabled := op.deleted)
                          else if op.ResetUserPassword? && op.name == u && op.password != ""
                          then before[u].(password := op.password)
                          else before[u]
  {
    FieldStored(s, op, u);
    if u in before {
      OtherRoutes(s, Apply(s, op), u);
      SameRoutes(s, Apply(s, op), before, after, u);
    }
  }

  /** Deleting a node takes it, and nothing else, from every user's routes. */
  lemma DeleteNodeLoads(s: Store, name: string, before: Users, after: Users, u: string)
    requires LoadedFrom(s, before) && LoadedFrom(Apply(s, Management.Op.DeleteNode(name)), after)
    requires ValidNodeName(name) && name in s.nodes
    ensures u in before <==> u in after
    ensures u in before ==>
              && after[u] == before[u].(routes := after[u].routes)
              && Names(after[u].routes) == Names(before[u].routes) - {name}
  {
    var t := DeletesNode(s, name);
    forall n ensures n in RoutesOf(t, u) <==> n in RoutesOf(s, u) && n != name {
      assert (u, n) in t.grants <==> (u, n) in s.grants && n != name;
    }
  }

  // ---- the legacy imports ----

  lemma LegacyRoutes(s: Store, inputs: map<string, Input>, u: string)
    requires u in inputs && s.grants == LegacyGrants(inputs)
    ensures RoutesOf(s, u) == Names(inputs[u].routes)
  {
    forall n ensures n in RoutesOf(s, u) <==> n in inputs[u].routes {
      assert (u, n) in s.grants <==> n in inputs[u].routes;
    }
  }

  /** A replacement that takes effect loads exactly the given users, as given and without expiry. */
  lemma ReplaceLoads(s: Store, inputs: map<string, Input>, tokens: map<string, string>, after: Users)
    requires Replaces(s, inputs, tokens) != s
    requires LoadedFrom(Apply(s, ReplaceLegacyUsers(inputs, tokens)), after)
    ensures after.Keys == inputs.Keys
    ensures forall u :: u in inputs ==> AsRequested(after[u], inputs[u].(expires := None)) && !after[u].disabled
  {
    forall u | u in inputs ensures AsRequested(after[u], inputs[u].(expires := None)) && !after[u].disabled {
      LegacyRoutes(Replaces(s, inputs, tokens), inputs, u);
    }
  }

  lemma MigratedRoutes(s: Store, configs: map<string, NodeConfig>, inputs: map<string, Input>,
                       tokens: map<string, string>, u: string)
    requires NamesStored(s) && MigrationRuns(s, configs, inputs, tokens) && u in inputs
    ensures RoutesOf(Migrates(s, configs, inputs, tokens), u) == Names(inputs[u].routes)
  {
    var t := Migrates(s, configs, inputs, tokens);
    forall n ensures n in RoutesOf(t, u) <==> n in inputs[u].routes {
      assert (u, n) in t.grants <==> n in inputs[u].routes;
    }
  }

  /** An import that takes effect loads exactly the given users, and adds the given nodes
      enabled beside those already there. */
  lemma MigrateLoads(s: Store, configs: map<string, NodeConfig>, inputs: map<string, Input>,
                     tokens: map<string, string>, after: Users)
    requires NamesStored(s) && MigrationRuns(s, configs, inputs, tokens)
    requires LoadedFrom(Apply(s, MigrateLegacy(configs, inputs, tokens)), after)
    ensures after.Keys == inputs.Keys
    ensures forall u :: u in inputs ==> AsRequested(after[u], inputs[u].(expires := None)) && !after[u].disabled
  {
    forall u | u in inputs ensures AsRequested(after[u], inputs[u].(expires := None)) && !after[u].disabled {
      MigratedRoutes(s, configs, inputs, tokens, u);
    }
  }

  // ---- the nodes a gateway starts with ----

  /** LoadNodes: the enabled nodes and their definitions. */
  function RuntimeNodes(s: Store): map<string, NodeConfig> {
    map n | n in s.nodes && s.nodes[n].enabled :: s.nodes[n].config
  }

  /** The loaded nodes once a definition has been stored under the name. */
  function WithNode(nodes: map<string, NodeConfig>, name: string, config: NodeConfig, enabled: bool)
    : map<string, NodeConfig>
  {
    if enabled then nodes[name := config] else nodes - {name}
  }

  lemma StoredNode(s: Store, name: string, config: NodeConfig, enabled: bool)
    ensures RuntimeNodes(s.(nodes := s.nodes[name := NodeRow(config, enabled)]))
         == WithNode(RuntimeNodes(s), name, config, enabled)
  {
  }

  lemma SameNodes(s: Store, t: Store)
    requires s.nodes == t.nodes
    ensures RuntimeNodes(s) == RuntimeNodes(t)
  {
  }

  /** Saving a node makes its definition what the gateway loads exactly when it is saved
      enabled; updating does the same for existing nodes only. No other node is touched. */
  lemma NodeLoads(s: Store, name: string, config: NodeConfig, enabled: bool)
    requires ValidNodeName(name) && config.valid
    ensures RuntimeNodes(Apply(s, SaveNode(name, config, enabled))) == WithNode(RuntimeNodes(s), name, config, enabled)
    ensures RuntimeNodes(Apply(s, UpdateNode(name, config, enabled)))
         == if name in s.nodes then WithNode(RuntimeNodes(s), name, config, enabled) else RuntimeNodes(s)
  {
    StoredNode(s, name, config, enabled);
    SameNodes(SavesNode(s, name, config, enabled), s.(nodes := s.nodes[name := NodeRow(config, enabled)]));
  }

  lemma NodeGone(s: Store, name: string)
    requires ValidNodeName(name)
    ensures RuntimeNodes(Apply(s, Management.Op.DeleteNode(name))) == RuntimeNodes(s) - {name}
  {
  }

  predicate UserOp(op: Management.Op) {
    || op.CreateUser? || op.UpdateUser? || op.SetUserDeleted? || op.ResetUserPassword? || op.ResetUserToken?
    || op.ReplaceLegacyUsers?
  }

  lemma UserOpsKeepNodes(s: Store, op: Management.Op)
    requires UserOp(op)
    ensures RuntimeNodes(Apply(s, op)) == RuntimeNodes(s)
  {
    assert Apply(s, op).nodes == s.nodes;
  }

  lemma AddedNodes(s: Store, t: Store, configs: map<string, NodeConfig>)
    requires t.nodes == s.nodes + (map n | n in configs :: NodeRow(configs[n], true))
    ensures RuntimeNodes(t) == RuntimeNodes(s) + configs
  {
    forall n ensures n in RuntimeNodes(t) <==> n in RuntimeNodes(s) || n in configs {}
  }

  /** An import adds its nodes, enabled. */
  lemma ImportedNodes(s: Store, configs: map<string, NodeConfig>, inputs: map<string, Input>,
                      tokens: map<string, string>)
    requires MigrationRuns(s, configs, inputs, tokens)
    ensures RuntimeNodes(Apply(s, MigrateLegacy(configs, inputs, tokens))) == RuntimeNodes(s) + configs
  {
    AddedNodes(s, Migrates(s, configs, inputs, tokens), configs);
  }
}
