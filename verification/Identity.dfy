/** Route identities: the "user:node" ids and "user:node:password" proofs that
    authentication, accounting and routing all exchange as plain strings. */
module Identity {

  const COLON := ':'

  /** strings.IndexByte: the first position of `c`, or -1. */
  function IndexByte(s: string, c: char): (r: int)
    ensures -1 <= r < |s|
    ensures r >= 0 ==> s[r] == c && c !in s[..r]
    ensures r < 0 ==> c !in s
  {
    if s == "" then -1
    else if s[0] == c then 0
    else
      var r := IndexByte(s[1..], c);
      assert s == [s[0]] + s[1..];
      assert r >= 0 ==> s[..r + 1] == [s[0]] + s[1..][..r];
      if r < 0 then -1 else r + 1
  }

  /** Splits a route id at its first colon; an id without one is all user name. */
  function ParseID(id: string): (string, string) {
    var i := IndexByte(id, COLON);
    if i < 0 then (id, "") else (id[..i], id[i + 1..])
  }

  function Join(user: string, node: string): string { user + [COLON] + node }

  /** The parsed form of a "user:node" id, which the accounting modules carry. */
  datatype RouteID = RouteID(user: string, node: string)

  function RawProof(user: string, node: string, password: string): string {
    Join(user, node) + [COLON] + password
  }

  /** Splits a proof at its first two colons; everything after is the password. */
  function ParseAuth(proof: string): (string, string, string) {
    if COLON !in proof then ("", "", proof)
    else
      var (user, rest) := ParseID(proof);
      if COLON !in rest then (user, "", rest)
      else
        var (node, password) := ParseID(rest);
        (user, node, password)
  }

  lemma {:induction false} FirstColon(user: string, rest: string)
    requires COLON !in user
    ensures IndexByte(user + [COLON] + rest, COLON) == |user|
  {
    var s := user + [COLON] + rest;
    if user != "" {
      assert s[1..] == user[1..] + [COLON] + rest;
      FirstColon(user[1..], rest);
    }
  }

  /** Joining and parsing are inverse: ids with a colon are exactly the joins of a
      colon-free user name with a node name. */
  lemma ParseJoined(user: string, node: string)
    requires COLON !in user
    ensures ParseID(Join(user, node)) == (user, node)
  {
    FirstColon(user, node);
    var id := Join(user, node);
    assert id[..|user|] == user && id[|user| + 1..] == node;
  }

  lemma JoinParsed(id: string)
    requires COLON in id
    ensures Join(ParseID(id).0, ParseID(id).1) == id && COLON !in ParseID(id).0
  {
  }

  lemma JoinRawProof(user: string, node: string, password: string)
    ensures RawProof(user, node, password) == Join(user, Join(node, password))
  {
  }

  /** A proof splits back into the triple it was built from. */
  lemma ParseRawProof(user: string, node: string, password: string)
    requires COLON !in user && COLON !in node
    ensures ParseAuth(RawProof(user, node, password)) == (user, node, password)
  {
    JoinRawProof(user, node, password);
    ParseJoined(user, Join(node, password));
    ParseJoined(node, password);
  }

  /** The converse: a proof whose split names a node is the join of its parts. */
  lemma RejoinProof(proof: string)
    requires ParseAuth(proof).1 != ""
    ensures var (u, n, p) := ParseAuth(proof);
            RawProof(u, n, p) == proof && COLON !in u && COLON !in n
  {
  }
}
