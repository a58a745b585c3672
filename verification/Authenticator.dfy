/** Password and Trojan authentication over one published user map. The hash is any
    function; what a theorem needs of it is stated about the published credentials. */
module Authentication {
  import opened Basics
  import opened Identity

  datatype User = User(password: string, routes: seq<string>, disabled: bool, expires: Option<int>,
                       maxBytes: nat, speedLimit: nat)

  type Users = map<string, User>

  datatype Entry = Entry(password: string, routes: set<string>, disabled: bool, expires: Option<int>,
                         maxBytes: nat, speedLimit: nat)

  type Entries = map<string, Entry>

  /** SHA-224 credential -> "user:node". */
  type Index = map<string, string>

  /** Lower-case hex of SHA-224. */
  type Hash = string -> string

  const CREDENTIAL_LENGTH: nat := 56

  predicate IsHex(c: char) { '0' <= c <= '9' || 'a' <= c <= 'f' }

  predicate ValidTrojanCredential(c: string) {
    |c| == CREDENTIAL_LENGTH && forall i :: 0 <= i < |c| ==> IsHex(c[i])
  }

  // ---- specifications ----

  function EntryOf(u: User): Entry {
    Entry(u.password, (set r | r in u.routes), u.disabled, u.expires, u.maxBytes, u.speedLimit)
  }

  function EntriesOf(users: Users): Entries { map name | name in users :: EntryOf(users[name]) }

  predicate Granted(users: Users, u: string, n: string) { u in users && n in users[u].routes }

  function CredentialOf(h: Hash, users: Users, u: string, n: string): string
    requires u in users
  {
    h(RawProof(u, n, users[u].password))
  }

  /** No string but `raw` hashes to c. */
  ghost predicate OnlyProof(h: Hash, c: string, raw: string) {
    forall proof :: h(proof) == c ==> proof == raw
  }

  /** The hash produces well-formed credentials for the granted routes, and nobody
      else's string collides with one of them. */
  ghost predicate HashFits(h: Hash, users: Users) {
    forall u, n :: Granted(users, u, n) ==>
      && ValidTrojanCredential(CredentialOf(h, users, u, n))
      && OnlyProof(h, CredentialOf(h, users, u, n), RawProof(u, n, users[u].password))
  }

  ghost predicate Indexed(h: Hash, users: Users, c: string, id: string) {
    exists u, n :: Granted(users, u, n) && c == CredentialOf(h, users, u, n) && id == Join(u, n)
  }

  /** What building the index establishes for every hash: each granted credential is
      a key, and each entry is a granted route under its own credential. */
  ghost predicate IndexBuilt(h: Hash, users: Users, index: Index) {
    && (forall u, n :: Granted(users, u, n) ==> CredentialOf(h, users, u, n) in index)
    && (forall c :: c in index ==> Indexed(h, users, c, index[c]))
  }

  /** In addition, no route's credential was overwritten by another route's. */
  ghost predicate IndexExact(h: Hash, users: Users, index: Index) {
    IndexBuilt(h, users, index) && forall u, n :: Granted(users, u, n) ==> Owns(h, users, index, u, n)
  }

  predicate Active(e: Entry, now: int) {
    !e.disabled && (e.expires.None? || e.expires.value > now)
  }

  /** The id a password proof authenticates as. */
  function Authenticated(entries: Entries, proof: string, now: int): Option<string> {
    var (user, node, password) := ParseAuth(proof);
    if user == "" || node == "" || user !in entries then None
    else if !Active(entries[user], now) || password != entries[user].password || node !in entries[user].routes then None
    else Some(Join(user, node))
  }

  /** The id a Trojan credential authenticates as. */
  function TrojanAuthenticated(entries: Entries, index: Index, credential: string, now: int): Option<string> {
    if !ValidTrojanCredential(credential) || credential !in index then None
    else
      var user := ParseID(index[credential]).0;
      if user !in entries || !Active(entries[user], now) then None else Some(index[credential])
  }

  // ---- when the two paths agree ----

  /** Names that the colon-separated forms can carry. */
  predicate Plain(u: string, n: string) { u != "" && n != "" && COLON !in u && COLON !in n }

  /** What the managed store guarantees about names. */
  ghost predicate NamesOk(users: Users) {
    forall u :: u in users ==>
      && u != "" && COLON !in u
      && forall n :: n in users[u].routes ==> n != "" && COLON !in n
  }

  /** The user whose state the Trojan path checks for a route. */
  function Holder(u: string, n: string): string { ParseID(Join(u, n)).0 }

  /** The Trojan path never lets the route in. */
  predicate Barred(users: Users, u: string, n: string) {
    Holder(u, n) !in users || users[Holder(u, n)].disabled
  }

  /** Every granted route is barred or has plain names. */
  ghost predicate RoutesPlain(users: Users) {
    forall u, n :: Granted(users, u, n) ==> Plain(u, n) || Barred(users, u, n)
  }

  ghost predicate AgreeOn(h: Hash, users: Users, index: Index, proof: string, now: int) {
    TrojanAuthenticated(EntriesOf(users), index, h(proof), now) == Authenticated(EntriesOf(users), proof, now)
  }

  ghost predicate AgreeAlways(h: Hash, users: Users, index: Index) {
    forall proof, now :: AgreeOn(h, users, index, proof, now)
  }

  /** Where a join is cut depends only on its text. */
  lemma HolderOfProof(u: string, n: string, password: string)
    ensures ParseID(RawProof(u, n, password)).0 == Holder(u, n)
  {
    var id := Join(u, n);
    JoinParsed(id);
    var (user, rest) := ParseID(id);
    assert RawProof(u, n, password) == Join(user, rest + [COLON] + password);
    ParseJoined(user, rest + [COLON] + password);
  }

  /** Only plain names survive a join that parses back into plain names. */
  lemma PlainJoin(u: string, n: string, user: string, node: string)
    requires Join(u, n) == Join(user, node) && Plain(user, node)
    ensures u == user && n == node
  {
    ParseJoined(user, node);
    if COLON !in u {
      ParseJoined(u, n);
    } else {
      JoinParsed(u);
      var (first, rest) := ParseID(u);
      assert Join(u, n) == Join(first, rest + [COLON] + n);
      ParseJoined(first, rest + [COLON] + n);
    }
  }

  lemma PlainParses(users: Users, u: string, n: string)
    requires Granted(users, u, n) && Plain(u, n)
    ensures ParseAuth(RawProof(u, n, users[u].password)) == (u, n, users[u].password)
    ensures Holder(u, n) == u
  {
    ParseRawProof(u, n, users[u].password);
    ParseJoined(u, n);
  }

  /** The route an index entry stands for. */
  lemma EntryRoute(h: Hash, users: Users, index: Index, proof: string) returns (u: string, n: string)
    requires HashFits(h, users) && IndexBuilt(h, users, index) && h(proof) in index
    ensures Granted(users, u, n) && proof == RawProof(u, n, users[u].password) && index[h(proof)] == Join(u, n)
    ensures ValidTrojanCredential(h(proof))
  {
    assert Indexed(h, users, h(proof), index[h(proof)]);
    u, n :| Granted(users, u, n) && h(proof) == CredentialOf(h, users, u, n) && index[h(proof)] == Join(u, n);
    assert OnlyProof(h, CredentialOf(h, users, u, n), RawProof(u, n, users[u].password));
  }

  /** The entry of this credential is this route's. */
  predicate Owns(h: Hash, users: Users, index: Index, u: string, n: string) {
    && Granted(users, u, n) && CredentialOf(h, users, u, n) in index
    && index[CredentialOf(h, users, u, n)] == Join(u, n)
  }

  /** Every route that owns its entry is barred or has plain names. */
  ghost predicate EntriesPlain(h: Hash, users: Users, index: Index) {
    forall u, n :: Owns(h, users, index, u, n) ==> Plain(u, n) || Barred(users, u, n)
  }

  /** A credential that authenticates belongs to a proof that does, as the same id. */
  lemma TrojanImpliesPassword(h: Hash, users: Users, index: Index, proof: string, now: int)
    requires HashFits(h, users) && IndexBuilt(h, users, index) && EntriesPlain(h, users, index)
    requires TrojanAuthenticated(EntriesOf(users), index, h(proof), now).Some?
    ensures AgreeOn(h, users, index, proof, now)
  {
    var u, n := EntryRoute(h, users, index, proof);
    assert Owns(h, users, index, u, n);
    assert Plain(u, n);
    PlainParses(users, u, n);
  }

  /** A proof that authenticates also does so by its credential, as the same id. */
  lemma PasswordImpliesTrojan(h: Hash, users: Users, index: Index, proof: string, now: int)
    requires HashFits(h, users) && IndexBuilt(h, users, index) && EntriesPlain(h, users, index)
    requires Authenticated(EntriesOf(users), proof, now).Some?
    ensures AgreeOn(h, users, index, proof, now)
  {
    var (user, node, password) := ParseAuth(proof);
    RejoinProof(proof);
    assert Granted(users, user, node) && CredentialOf(h, users, user, node) == h(proof);
    var u, n := EntryRoute(h, users, index, proof);
    HolderOfProof(user, node, password);
    ParseJoined(user, node);
    HolderOfProof(u, n, users[u].password);
    assert Owns(h, users, index, u, n);
    assert Plain(u, n);
    PlainParses(users, u, n);
  }

  /** For every string and clock value both paths give the same answer and id,
      provided every route that owns its entry is barred or has plain names. */
  lemma PathsAgree(h: Hash, users: Users, index: Index, proof: string, now: int)
    requires HashFits(h, users) && IndexBuilt(h, users, index) && EntriesPlain(h, users, index)
    ensures AgreeOn(h, users, index, proof, now)
  {
    if Authenticated(EntriesOf(users), proof, now).Some? {
      PasswordImpliesTrojan(h, users, index, proof, now);
    } else if TrojanAuthenticated(EntriesOf(users), index, h(proof), now).Some? {
      TrojanImpliesPassword(h, users, index, proof, now);
    }
  }

  /** An instant at which a user that is not disabled has not expired either. */
  function BeforeExpiry(user: User): int { if user.expires.Some? then user.expires.value - 1 else 0 }

  /** A route that owns its entry and is neither barred nor plain is answered
      differently at some instant. */
  lemma OddRouteDisagrees(h: Hash, users: Users, index: Index, u: string, n: string)
    requires HashFits(h, users) && Owns(h, users, index, u, n) && !Plain(u, n) && !Barred(users, u, n)
    ensures !AgreeOn(h, users, index, RawProof(u, n, users[u].password), BeforeExpiry(users[Holder(u, n)]))
  {
    var proof, now := RawProof(u, n, users[u].password), BeforeExpiry(users[Holder(u, n)]);
    var entries := EntriesOf(users);
    assert h(proof) == CredentialOf(h, users, u, n);
    assert TrojanAuthenticated(entries, index, h(proof), now) == Some(Join(u, n));
    if Authenticated(entries, proof, now) == Some(Join(u, n)) {
      var (user, node, _) := ParseAuth(proof);
      RejoinProof(proof);
      PlainJoin(u, n, user, node);
    }
  }

  /** The exact condition for one built index: both paths agree on every string at every
      instant if and only if every route that owns its entry is barred or plain. */
  lemma IndexAgreesExactly(h: Hash, users: Users, index: Index)
    requires HashFits(h, users) && IndexBuilt(h, users, index)
    ensures AgreeAlways(h, users, index) <==> EntriesPlain(h, users, index)
  {
    if EntriesPlain(h, users, index) {
      forall proof, now ensures AgreeOn(h, users, index, proof, now) {
        PathsAgree(h, users, index, proof, now);
      }
    } else {
      var u, n :| Owns(h, users, index, u, n) && !Plain(u, n) && !Barred(users, u, n);
      OddRouteDisagrees(h, users, index, u, n);
    }
  }

  // ---- every order of building ----

  ghost function SomeRoute(h: Hash, users: Users, c: string): string
    requires exists u, n :: Granted(users, u, n) && c == CredentialOf(h, users, u, n)
  {
    var u, n :| Granted(users, u, n) && c == CredentialOf(h, users, u, n);
    Join(u, n)
  }

  /** Whichever granted route is entered last owns its entry: some order gives any of them its own. */
  lemma BuiltOwning(h: Hash, users: Users, u: string, n: string) returns (index: Index)
    requires Granted(users, u, n)
    ensures IndexBuilt(h, users, index) && Owns(h, users, index, u, n)
  {
    var creds := set v, m | v in users && m in users[v].routes :: CredentialOf(h, users, v, m);
    forall c | c in creds ensures exists v, m :: Granted(users, v, m) && c == CredentialOf(h, users, v, m) {
      var v, m :| v in users && m in users[v].routes && c == CredentialOf(h, users, v, m);
      assert Granted(users, v, m);
    }
    var c0 := CredentialOf(h, users, u, n);
    index := map c | c in creds :: if c == c0 then Join(u, n) else SomeRoute(h, users, c);
    forall c | c in index ensures Indexed(h, users, c, index[c]) {
      assert Indexed(h, users, c0, Join(u, n));
    }
  }

  /** Every index that some iteration order can build makes the paths agree. */
  ghost predicate AgreeInAnyOrder(h: Hash, users: Users) {
    forall index :: IndexBuilt(h, users, index) ==> AgreeAlways(h, users, index)
  }

  /** The exact condition on the configuration: whatever the iteration order, both paths
      agree on every string at every instant if and only if every granted route is
      barred or has plain names. */
  lemma PathsAgreeExactly(h: Hash, users: Users)
    requires HashFits(h, users)
    ensures AgreeInAnyOrder(h, users) <==> RoutesPlain(users)
  {
    if RoutesPlain(users) {
      forall index | IndexBuilt(h, users, index) ensures AgreeAlways(h, users, index) {
        IndexAgreesExactly(h, users, index);
      }
    } else {
      var u, n :| Granted(users, u, n) && !Plain(u, n) && !Barred(users, u, n);
      var index := BuiltOwning(h, users, u, n);
      OddRouteDisagrees(h, users, index, u, n);
    }
  }

  ghost predicate ColonFree(users: Users) {
    forall u, n :: Granted(users, u, n) ==> COLON !in u && COLON !in n
  }

  /** Disabled, or both names nonempty. */
  ghost predicate NamedOrDisabled(users: Users) {
    forall u, n :: Granted(users, u, n) ==> users[u].disabled || (u != "" && n != "")
  }

  lemma ColonFreeCondition(users: Users)
    requires ColonFree(users)
    ensures RoutesPlain(users) <==> NamedOrDisabled(users)
  {
    forall u, n | Granted(users, u, n)
      ensures Plain(u, n) || Barred(users, u, n) <==> users[u].disabled || (u != "" && n != "")
    {
      ParseJoined(u, n);
    }
  }

  /** On colon-free names the order does not matter: the index that was built makes the
      paths agree if and only if every granted route is disabled or has both names. */
  lemma ColonFreeAgreement(h: Hash, users: Users, index: Index)
    requires HashFits(h, users) && ColonFree(users) && IndexBuilt(h, users, index)
    ensures AgreeAlways(h, users, index) <==> NamedOrDisabled(users)
  {
    BuiltIsExact(h, users, index);
    IndexAgreesExactly(h, users, index);
    ColonFreeCondition(users);
    assert forall u, n :: Granted(users, u, n) ==> Owns(h, users, index, u, n);
  }

  // ---- who is let in ----

  /** Neither disabled nor past the expiry instant. */
  predicate InGoodStanding(user: User, now: int) {
    !user.disabled && match user.expires { case None => true case Some(e) => now < e }
  }

  /** The password path lets exactly these in: a granted route with plain names, the
      user's own password, and a user neither disabled nor expired. */
  lemma LoginExactly(users: Users, proof: string, now: int, u: string, n: string)
    requires Plain(u, n)
    ensures Authenticated(EntriesOf(users), proof, now) == Some(Join(u, n))
            <==> && Granted(users, u, n) && proof == RawProof(u, n, users[u].password)
                 && InGoodStanding(users[u], now)
  {
    var id := Authenticated(EntriesOf(users), proof, now);
    if id == Some(Join(u, n)) {
      var (user, node, _) := ParseAuth(proof);
      RejoinProof(proof);
      PlainJoin(user, node, u, n);
    }
    if Granted(users, u, n) && proof == RawProof(u, n, users[u].password) {
      PlainParses(users, u, n);
    }
  }

  /** Whoever the password path lets in has plain names. */
  lemma LoginIsPlain(users: Users, proof: string, now: int) returns (u: string, n: string)
    requires Authenticated(EntriesOf(users), proof, now).Some?
    ensures Plain(u, n) && Authenticated(EntriesOf(users), proof, now) == Some(Join(u, n))
  {
    var (user, node, _) := ParseAuth(proof);
    RejoinProof(proof);
    u, n := user, node;
  }

  /** The credential of a route that owns its entry lets it in exactly while its user is
      in good standing. */
  lemma TrojanLogin(h: Hash, users: Users, index: Index, u: string, n: string, now: int)
    requires HashFits(h, users) && Owns(h, users, index, u, n) && Plain(u, n)
    ensures TrojanAuthenticated(EntriesOf(users), index, CredentialOf(h, users, u, n), now)
         == if InGoodStanding(users[u], now) then Some(Join(u, n)) else None
  {
    ParseJoined(u, n);
  }

  /** The user part of what either path answers. */
  function UserOf(id: Option<string>): Option<string> { if id.Some? then Some(ParseID(id.value).0) else None }

  /** A disabled or expired user is let in by neither path, whatever the index holds. */
  lemma BadStandingRefused(users: Users, index: Index, u: string, text: string, now: int)
    requires u in users && (users[u].disabled || (users[u].expires.Some? && users[u].expires.value <= now))
    ensures UserOf(Authenticated(EntriesOf(users), text, now)) != Some(u)
    ensures UserOf(TrojanAuthenticated(EntriesOf(users), index, text, now)) != Some(u)
  {
    if Authenticated(EntriesOf(users), text, now).Some? {
      var v, n := LoginIsPlain(users, text, now);
      LoginExactly(users, text, now, v, n);
      ParseJoined(v, n);
    }
  }

  // ---- the conditions on the hash can be met, and the failing input exists ----

  const ZEROS: string := seq(CREDENTIAL_LENGTH, _ => '0')
  const ONES: string := seq(CREDENTIAL_LENGTH, _ => '1')

  ghost predicate WellFormed(h: Hash) { forall s :: ValidTrojanCredential(h(s)) }

  /** Sets one proof apart from all other strings. */
  function SetApart(raw: string): Hash { (s: string) => if s == raw then ZEROS else ONES }

  lemma SetApartFits(name: string, node: string, user: User)
    requires user.routes == [node]
    ensures WellFormed(SetApart(RawProof(name, node, user.password)))
    ensures HashFits(SetApart(RawProof(name, node, user.password)), map[name := user])
  {
    var users, raw := map[name := user], RawProof(name, node, user.password);
    var h := SetApart(raw);
    assert ZEROS[0] != ONES[0];
    assert OnlyProof(h, h(raw), raw);
    forall u, n | Granted(users, u, n) ensures u == name && n == node {}
  }

  /** One granted route, its hash and its index: the hypotheses are satisfiable. */
  lemma HypothesesMet(name: string, node: string, user: User) returns (h: Hash, index: Index)
    requires user.routes == [node]
    ensures WellFormed(h) && HashFits(h, map[name := user]) && IndexExact(h, map[name := user], index)
  {
    var users := map[name := user];
    h := SetApart(RawProof(name, node, user.password));
    index := map[CredentialOf(h, users, name, node) := Join(name, node)];
    SetApartFits(name, node, user);
    assert Granted(users, name, node);
    forall u, n | Granted(users, u, n) ensures u == name && n == node {}
    assert Indexed(h, users, CredentialOf(h, users, name, node), Join(name, node));
  }

  const NAMELESS: User := User("pw", ["node"], false, None, 0, 0)

  /** An enabled user with an empty name passes the Trojan index and not the password
      check. isValidName keeps such a name out of the managed store. */
  lemma EmptyNameDisagrees()
    ensures exists h: Hash, index: Index ::
              && HashFits(h, map["" := NAMELESS]) && IndexExact(h, map["" := NAMELESS], index)
              && !AgreeOn(h, map["" := NAMELESS], index, RawProof("", "node", "pw"), 0)
  {
    var h, index := HypothesesMet("", "node", NAMELESS);
    ParseJoined("", "node");
    assert Granted(map["" := NAMELESS], "", "node");
    OddRouteDisagrees(h, map["" := NAMELESS], index, "", "node");
  }

  // ---- building the maps; Go's iteration order is arbitrary ----

  method BuildUserEntries(users: Users) returns (m: Entries)
    ensures m == EntriesOf(users)
    ensures m.Keys == users.Keys && forall name :: name in users ==>
              && m[name].password == users[name].password && m[name].disabled == users[name].disabled
              && m[name].expires == users[name].expires && m[name].maxBytes == users[name].maxBytes
              && m[name].speedLimit == users[name].speedLimit
              && forall r :: r in m[name].routes <==> r in users[name].routes
  {
    m := map[];
    var todo := users.Keys;
    while todo != {}
      invariant todo <= users.Keys && m == EntriesOf(users - todo)
      decreases todo
    {
      var name :| name in todo;
      var u := users[name];
      var routes := {};
      for i := 0 to |u.routes|
        invariant routes == set r | r in u.routes[..i]
      {
        routes := routes + {u.routes[i]};
      }
      assert u.routes[..|u.routes|] == u.routes;
      m := m[name := Entry(u.password, routes, u.disabled, u.expires, u.maxBytes, u.speedLimit)];
      todo := todo - {name};
    }
    assert users - {} == users;
  }

  /** Two granted routes with the same credential are the same route. */
  lemma CredentialsDistinct(h: Hash, users: Users, u: string, n: string, u': string, n': string)
    requires HashFits(h, users) && ColonFree(users) && Granted(users, u, n) && Granted(users, u', n')
    requires CredentialOf(h, users, u, n) == CredentialOf(h, users, u', n')
    ensures u == u' && n == n'
  {
    assert OnlyProof(h, CredentialOf(h, users, u, n), RawProof(u, n, users[u].password));
    ParseRawProof(u, n, users[u].password);
    ParseRawProof(u', n', users[u'].password);
  }

  /** Without colons in names nothing is overwritten. */
  lemma BuiltIsExact(h: Hash, users: Users, index: Index)
    requires HashFits(h, users) && ColonFree(users) && IndexBuilt(h, users, index)
    ensures IndexExact(h, users, index)
  {
    forall u, n | Granted(users, u, n)
      ensures index[CredentialOf(h, users, u, n)] == Join(u, n)
    {
      var c := CredentialOf(h, users, u, n);
      assert Indexed(h, users, c, index[c]);
      var u', n' :| Granted(users, u', n') && c == CredentialOf(h, users, u', n') && index[c] == Join(u', n');
      CredentialsDistinct(h, users, u, n, u', n');
    }
  }

  predicate SameCredential(h: Hash, users: Users, u: string, n: string, v: string, m: string) {
    && Granted(users, u, n) && Granted(users, v, m)
    && CredentialOf(h, users, u, n) == CredentialOf(h, users, v, m)
  }

  /** Routes that share a credential share their id. */
  ghost predicate SharedAlike(h: Hash, users: Users) {
    forall u, n, v, m :: SameCredential(h, users, u, n, v, m) ==> Join(u, n) == Join(v, m)
  }

  ghost predicate OrderFree(h: Hash, users: Users) {
    forall a, b :: IndexBuilt(h, users, a) && IndexBuilt(h, users, b) ==> a == b
  }

  lemma SharedAlikeSame(h: Hash, users: Users, a: Index, b: Index)
    requires SharedAlike(h, users) && IndexBuilt(h, users, a) && IndexBuilt(h, users, b)
    ensures a == b
  {
    forall c | c in a ensures c in b && b[c] == a[c] {
      assert Indexed(h, users, c, a[c]);
      assert c in b && Indexed(h, users, c, b[c]);
    }
    forall c | c in b ensures c in a {
      assert Indexed(h, users, c, b[c]);
    }
  }

  /** The index does not depend on the iteration order if and only if routes that share
      a credential share their id; this needs nothing of the hash. */
  lemma OrderFreeExactly(h: Hash, users: Users)
    ensures OrderFree(h, users) <==> SharedAlike(h, users)
  {
    if SharedAlike(h, users) {
      forall a, b | IndexBuilt(h, users, a) && IndexBuilt(h, users, b) ensures a == b {
        SharedAlikeSame(h, users, a, b);
      }
    } else {
      var u, n, v, m :| SameCredential(h, users, u, n, v, m) && Join(u, n) != Join(v, m);
      var a := BuiltOwning(h, users, u, n);
      var b := BuiltOwning(h, users, v, m);
    }
  }

  /** On colon-free names the order never matters. */
  lemma IndexUnique(h: Hash, users: Users)
    requires HashFits(h, users) && ColonFree(users)
    ensures OrderFree(h, users)
  {
    forall u, n, v, m | SameCredential(h, users, u, n, v, m)
      ensures Join(u, n) == Join(v, m)
    {
      CredentialsDistinct(h, users, u, n, v, m);
    }
    OrderFreeExactly(h, users);
  }

  const SHARING: Users :=
    map["a" := User("c:p", ["b"], false, None, 0, 0), "a:b" := User("p", ["c"], false, None, 0, 0)]

  /** With a colon in a user name it can: both routes here have the proof "a:b:c:p". */
  lemma ColonNamesShare(h: Hash)
    ensures !OrderFree(h, SHARING)
  {
    assert Granted(SHARING, "a", "b") && Granted(SHARING, "a:b", "c");
    assert RawProof("a", "b", "c:p") == "a:b:c:p" == RawProof("a:b", "c", "p");
    assert SameCredential(h, SHARING, "a", "b", "a:b", "c");
    assert |Join("a", "b")| != |Join("a:b", "c")|;
    OrderFreeExactly(h, SHARING);
  }

  /** Which routes have been entered so far. */
  ghost predicate Entered(todo: set<string>, user: string, done: seq<string>, u: string, n: string) {
    u !in todo || (u == user && n in done)
  }

  ghost predicate PartlyBuilt(h: Hash, users: Users, index: Index, todo: set<string>, user: string, done: seq<string>) {
    && (forall u, n :: Granted(users, u, n) && Entered(todo, user, done, u, n) ==>
          CredentialOf(h, users, u, n) in index)
    && (forall c :: c in index ==> Indexed(h, users, c, index[c]))
  }

  method BuildTrojanCredentials(h: Hash, users: Users) returns (index: Index)
    ensures IndexBuilt(h, users, index)
  {
    index := map[];
    var todo := users.Keys;
    while todo != {}
      invariant todo <= users.Keys && PartlyBuilt(h, users, index, todo, "", [])
      decreases todo
    {
      var name :| name in todo;
      index := AddRoutes(h, users, index, todo, name);
      todo := todo - {name};
    }
    assert forall u, n :: Granted(users, u, n) ==> Entered({}, "", [], u, n);
  }

  method AddRoutes(h: Hash, users: Users, index0: Index, ghost todo: set<string>, name: string) returns (index: Index)
    requires name in todo && name in users && PartlyBuilt(h, users, index0, todo, "", [])
    ensures PartlyBuilt(h, users, index, todo - {name}, "", [])
  {
    index := index0;
    var routes := users[name].routes;
    for i := 0 to |routes|
      invariant PartlyBuilt(h, users, index, todo, name, routes[..i])
    {
      assert Granted(users, name, routes[i]);
      assert Indexed(h, users, CredentialOf(h, users, name, routes[i]), Join(name, routes[i]));
      index := index[h(RawProof(name, routes[i], users[name].password)) := Join(name, routes[i])];
    }
    assert routes[..|routes|] == routes;
    forall u, n | Granted(users, u, n) && Entered(todo - {name}, "", [], u, n)
      ensures Entered(todo, name, routes, u, n)
    {
    }
  }

  // ---- the authenticator object ----

  class Authenticator {
    const hash: Hash
    var users: Entries
    var trojan: Index
    ghost var published: Users

    /** Both maps were built from the same published configuration. */
    ghost predicate Valid()
      reads this
    {
      users == EntriesOf(published) && IndexBuilt(hash, published, trojan)
    }

    /** No collision with a published credential, and indexed names the text forms can carry. */
    ghost predicate Sound()
      reads this
    {
      HashFits(hash, published) && EntriesPlain(hash, published, trojan)
    }

    constructor (hash: Hash, config: Users)
      ensures Valid() && published == config && this.hash == hash
    {
      var entries := BuildUserEntries(config);
      var index := BuildTrojanCredentials(hash, config);
      this.hash := hash;
      users, trojan, published := entries, index, config;
    }

    method UpdateUsers(config: Users)
      requires Valid()
      modifies this
      ensures Valid() && published == config
    {
      users := BuildUserEntries(config);
      trojan := BuildTrojanCredentials(hash, config);
      published := config;
    }

    method Authenticate(proof: string, now: int) returns (r: Option<string>)
      requires Valid()
      ensures r == Authenticated(EntriesOf(published), proof, now)
      ensures Sound() ==> r == TrojanAuthenticated(users, trojan, hash(proof), now)
    {
      if Sound() {
        PathsAgree(hash, published, trojan, proof, now);
      }
      var (user, node, password) := ParseAuth(proof);
      if user == "" || node == "" || user !in users {
        return None;
      }
      var entry := users[user];
      if entry.disabled || (entry.expires.Some? && !(entry.expires.value > now)) {
        return None;
      }
      if password != entry.password || node !in entry.routes {
        return None;
      }
      return Some(Join(user, node));
    }

    /** Scans the credential, then resolves it; the raw password is not known here. */
    method AuthenticateTrojan(credential: string, now: int) returns (r: Option<string>)
      requires Valid()
      ensures r == TrojanAuthenticated(users, trojan, credential, now)
      ensures Sound() ==> forall proof :: credential == hash(proof) ==>
                r == Authenticated(EntriesOf(published), proof, now)
    {
      if Sound() {
        forall proof | credential == hash(proof)
          ensures TrojanAuthenticated(users, trojan, credential, now) == Authenticated(EntriesOf(published), proof, now)
        {
          PathsAgree(hash, published, trojan, proof, now);
        }
      }
      var valid := |credential| == CREDENTIAL_LENGTH;
      for i := 0 to |credential|
        invariant valid <==> |credential| == CREDENTIAL_LENGTH && forall k :: 0 <= k < i ==> IsHex(credential[k])
      {
        valid := valid && IsHex(credential[i]);
      }
      if !valid || credential !in trojan {
        return None;
      }
      var (user, _) := ParseID(trojan[credential]);
      if user in users && Active(users[user], now) {
        return Some(trojan[credential]);
      }
      return None;
    }
  }
}
