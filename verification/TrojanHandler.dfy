/** Classification of an accepted connection: authenticated proxy traffic, website
    fallback with lossless replay, or close. The stream is everything the client
    ever sends; `cut` is how much of it arrives before EOF or the read deadline
    ends the header phase. */
module TrojanHandling {
  import opened Basics
  import opened TrojanWire

  /** AuthenticateTrojan against one user snapshot. */
  type Authenticate = Bytes -> Option<string>

  datatype Outcome =
    | Proxied(route: string, request: Request, rest: Bytes)
    | Website(prefix: Bytes, rest: Bytes)
    | OverCapacity
    | Closed

  function Visible(s: Bytes, n: nat): (v: Bytes)
    ensures |v| == (if n < |s| then n else |s|) && v == s[..|v|]
    ensures n >= |s| ==> v == s
  {
    if n < |s| then s[..n] else s
  }

  /** A failed request read that still names a complete, locally refused target. */
  predicate Refused<T>(r: Read<T>) { r.Failed? && r.error == InvalidTarget }

  /** Without a website: credential, authentication, then the request. */
  function PlainOutcome(t: IPText, auth: Authenticate, s: Bytes, cut: nat): Outcome {
    var seen := Visible(s, cut);
    var credential := ReadCredential(seen, 0);
    if credential.Failed? || auth(credential.value).None? then Closed
    else
      var request := ReadRequest(t, seen, credential.at);
      if request.Failed? then Closed
      else Proxied(auth(credential.value).value, request.value, s[request.at..])
  }

  function Unauthenticated(s: Bytes, at: nat, slot: bool): Outcome
    requires at <= |s|
  {
    if at == 0 then Closed else if slot then Website(s[..at], s[at..]) else OverCapacity
  }

  /** With a website: both headers are read through a bounded tee first. */
  function FallbackOutcome(t: IPText, auth: Authenticate, slot: bool, s: Bytes, cut: nat): Outcome {
    var seen := Visible(Visible(s, cut), MAX_HEADER);
    var credential := ReadCredential(seen, 0);
    if credential.Failed? then Unauthenticated(s, credential.at, slot)
    else
      var request := ReadRequest(t, seen, credential.at);
      if request.Failed? && !Refused(request) then Unauthenticated(s, request.at, slot)
      else if auth(credential.value).None? then Unauthenticated(s, request.at, slot)
      else if request.Failed? then Closed
      else Proxied(auth(credential.value).value, request.value, s[request.at..])
  }

  // ---- the 320-byte bound never matters ----

  lemma FullWithin(s: Bytes, v: Bytes, at: nat, n: nat, error: Error)
    requires v == Visible(s, |v|) && at + n <= |v|
    ensures ReadFull(v, at, n, error) == ReadFull(s, at, n, error)
  {
    assert v[at..at + n] == s[at..at + n];
  }

  lemma CredentialBound(s: Bytes)
    ensures ReadCredential(Visible(s, MAX_HEADER), 0) == ReadCredential(s, 0)
  {
    if |s| > MAX_HEADER {
      FullWithin(s, Visible(s, MAX_HEADER), 0, CREDENTIAL + 2, InvalidCredential);
    }
  }

  lemma HostBound(t: IPText, s: Bytes, v: Bytes, at: nat, kind: Byte)
    requires v == Visible(s, |v|) && at + 256 <= |v|
    ensures ReadHost(t, v, at, kind) == ReadHost(t, s, at, kind)
  {
    FullWithin(s, v, at, 4, InvalidAddress);
    FullWithin(s, v, at, 16, InvalidAddress);
    FullWithin(s, v, at, 1, InvalidAddress);
    var n := s[at] as nat;
    FullWithin(s, v, at + 1, n, InvalidAddress);
    assert s[at..at + 1][0] == s[at];
  }

  lemma RequestBound(t: IPText, s: Bytes, at: nat)
    requires at <= CREDENTIAL + 2 && at <= |s|
    ensures at <= |Visible(s, MAX_HEADER)|
    ensures ReadRequest(t, Visible(s, MAX_HEADER), at) == ReadRequest(t, s, at)
  {
    if |s| > MAX_HEADER {
      var v := Visible(s, MAX_HEADER);
      FullWithin(s, v, at, 2, InvalidCommand);
      var kind := ReadFull(s, at, 2, InvalidCommand).value[1];
      HostBound(t, s, v, at + 2, kind);
      FullWithin(s, v, ReadHost(t, s, at + 2, kind).at, 4, InvalidAddress);
    }
  }

  /** Both handlers proxy exactly the same connections, to the same route, command
      and target, with the same unread remainder. */
  lemma SameProxied(t: IPText, auth: Authenticate, slot: bool, s: Bytes, cut: nat)
    ensures var plain, fallback := PlainOutcome(t, auth, s, cut), FallbackOutcome(t, auth, slot, s, cut);
            (plain.Proxied? <==> fallback.Proxied?) && (plain.Proxied? ==> plain == fallback)
  {
    var seen := Visible(s, cut);
    CredentialBound(seen);
    var credential := ReadCredential(seen, 0);
    if credential.Got? {
      RequestBound(t, seen, credential.at);
    }
  }

  // ---- replay ----

  /** A header is complete when both parts parse, or only the target is refused. */
  predicate CompleteHeader(t: IPText, s: Bytes) {
    var credential := ReadCredential(s, 0);
    credential.Got? && (ReadRequest(t, s, credential.at).Got? || Refused(ReadRequest(t, s, credential.at)))
  }

  predicate Authentic(auth: Authenticate, s: Bytes) {
    ReadCredential(s, 0).Got? && auth(ReadCredential(s, 0).value).Some?
  }

  /** A connection goes to the website exactly when it sent something and its header is
      not both complete and authentic. */
  lemma WebsiteExactly(t: IPText, auth: Authenticate, s: Bytes, cut: nat)
    ensures var seen := Visible(s, cut);
            FallbackOutcome(t, auth, true, s, cut).Website?
            <==> seen != [] && !(CompleteHeader(t, seen) && Authentic(auth, seen))
  {
    var seen := Visible(s, cut);
    CredentialBound(seen);
    var credential := ReadCredential(seen, 0);
    if credential.Got? {
      RequestBound(t, seen, credential.at);
    }
  }

  lemma PrefixIsLossless(t: IPText, auth: Authenticate, s: Bytes, cut: nat)
    ensures var r := FallbackOutcome(t, auth, true, s, cut);
            r.Website? ==> r.prefix + r.rest == s && 1 <= |r.prefix| <= 320 && |r.prefix| <= |Visible(s, cut)|
  {
  }

  /** A website connection replays the original bytes exactly, from a prefix of 1 to
      320 bytes; it happens exactly for a nonempty header that is not both complete
      and authentic, so a refused target with valid credentials never gets there. */
  lemma ReplayIsLossless(t: IPText, auth: Authenticate, s: Bytes, cut: nat)
    ensures var r := FallbackOutcome(t, auth, true, s, cut);
            var seen := Visible(s, cut);
            && (r.Website? <==> seen != [] && !(CompleteHeader(t, seen) && Authentic(auth, seen)))
            && (r.Website? ==> r.prefix + r.rest == s && 1 <= |r.prefix| <= 320 && |r.prefix| <= |seen|)
  {
    WebsiteExactly(t, auth, s, cut);
    PrefixIsLossless(t, auth, s, cut);
  }

  /** Without a free slot exactly the website connections get the over-capacity answer,
      and every other outcome is the same. */
  lemma SlotDecides(t: IPText, auth: Authenticate, s: Bytes, cut: nat)
    ensures var free, full := FallbackOutcome(t, auth, true, s, cut), FallbackOutcome(t, auth, false, s, cut);
            !free.OverCapacity? && !full.Website?
            && (full.OverCapacity? <==> free.Website?) && (!free.Website? ==> full == free)
  {
  }

  // ---- the tee reader and the handler, with arbitrary fragmentation ----

  class HeaderReader {
    const stream: Bytes
    const end: nat
    var at: nat
    var prefix: Bytes

    ghost predicate Valid()
      reads this
    {
      at <= end <= |stream| && prefix == stream[..at]
    }

    ghost function Seen(): Bytes
      requires end <= |stream|
    {
      stream[..end]
    }

    constructor (stream: Bytes, cut: nat, limit: nat)
      ensures Valid() && at == 0 && prefix == [] && this.stream == stream
      ensures Seen() == Visible(Visible(stream, cut), limit)
    {
      var e := if cut < |stream| then cut else |stream|;
      var e' := if limit < e then limit else e;
      this.stream, this.end, at, prefix := stream, e', 0, [];
      assert stream[..e][..e'] == stream[..e'];
    }

    /** One Read: some fragment of what has arrived, recorded by the tee; empty at
        EOF, deadline or the limit. */
    method ReadSome(max: nat) returns (chunk: Bytes)
      requires Valid() && max > 0
      modifies this
      ensures Valid() && old(at) <= at <= old(at) + max
      ensures chunk == stream[old(at)..at] && (chunk == [] <==> old(at) == end)
    {
      if at == end {
        return [];
      }
      var k: nat :| 1 <= k <= max && at + k <= end;
      chunk := stream[at..at + k];
      at, prefix := at + k, prefix + chunk;
    }

    /** io.ReadFull does not depend on how the bytes were fragmented. */
    method Full(n: nat, error: Error) returns (r: Read<Bytes>)
      requires Valid()
      modifies this
      ensures Valid() && r == ReadFull(Seen(), old(at), n, error) && at == r.at
    {
      var buffer: Bytes := [];
      ghost var start := at;
      while |buffer| < n
        invariant Valid() && start <= at && |buffer| == at - start <= n && buffer == stream[start..at]
        decreases n - |buffer|
      {
        ghost var before := at;
        var chunk := ReadSome(n - |buffer|);
        assert stream[start..before] + stream[before..at] == stream[start..at];
        if chunk == [] {
          return Failed(error, at);
        }
        buffer := buffer + chunk;
      }
      assert Seen()[start..start + n] == stream[start..start + n];
      return Got(buffer, at);
    }

    method Credential() returns (r: Read<Bytes>)
      requires Valid()
      modifies this
      ensures Valid() && r == ReadCredential(Seen(), old(at)) && at == r.at
    {
      var f := Full(CREDENTIAL + 2, InvalidCredential);
      if f.Failed? {
        return f;
      }
      if f.value[CREDENTIAL] != CR || f.value[CREDENTIAL + 1] != LF {
        return Failed(InvalidDelimiter, at);
      }
      var ok := ScanCredential(f.value[..CREDENTIAL]);
      r := if ok then Got(f.value[..CREDENTIAL], at) else Failed(InvalidCredential, at);
    }

    method Host(t: IPText, kind: Byte) returns (r: Read<Bytes>)
      requires Valid()
      modifies this
      ensures Valid() && r == ReadHost(t, Seen(), old(at), kind) && at == r.at
    {
      if kind == IPV4 {
        r := Full(4, InvalidAddress);
        if r.Got? { r := Got(t.show(r.value), r.at); }
      } else if kind == IPV6 {
        r := Full(16, InvalidAddress);
        if r.Got? { r := Got(t.show(r.value), r.at); }
      } else if kind == DOMAIN {
        r := Full(1, InvalidAddress);
        if r.Failed? { return; }
        if r.value[0] == 0 { return Failed(InvalidAddress, at); }
        r := Full(r.value[0] as nat, InvalidAddress);
      } else {
        r := Failed(InvalidAddress, at);
      }
    }

    method RequestHeader(t: IPText) returns (r: Read<Request>)
      requires Valid()
      modifies this
      ensures Valid() && r == ReadRequest(t, Seen(), old(at)) && at == r.at
    {
      var p := Full(2, InvalidCommand);
      if p.Failed? { return Failed(p.error, at); }
      var command, kind := p.value[0], p.value[1];
      if command != CONNECT && command != UDP_ASSOCIATE { return Failed(InvalidCommand, at); }
      var host := Host(t, kind);
      if host.Failed? { return Failed(host.error, at); }
      var suffix := Full(4, InvalidAddress);
      if suffix.Failed? { return Failed(suffix.error, at); }
      if suffix.value[2] != CR || suffix.value[3] != LF { return Failed(InvalidDelimiter, at); }
      var port := BigEndian(suffix.value[0], suffix.value[1]);
      if kind == DOMAIN {
        var ok := ScanDomain(host.value);
        if !ok { return Failed(InvalidTarget, at); }
      }
      if port == 0 && command == CONNECT { return Failed(InvalidTarget, at); }
      r := Got(Request(command, host.value, port), at);
    }

    /** One UDP packet; a clean end is reported before any byte is consumed. */
    method PacketFrame(t: IPText, capacity: nat) returns (r: Read<Packet>)
      requires Valid()
      modifies this
      ensures Valid() && r == ReadPacket(t, Seen(), old(at), capacity) && at == r.at
    {
      var kind := Full(1, EndOfStream);
      if kind.Failed? { return Failed(kind.error, at); }
      var host := Host(t, kind.value[0]);
      if host.Failed? { return Failed(host.error, at); }
      if kind.value[0] == DOMAIN {
        var ok := ScanDomain(host.value);
        if !ok { return Failed(InvalidAddress, at); }
      }
      var header := Full(6, InvalidPacket);
      if header.Failed? { return Failed(header.error, at); }
      var h := header.value;
      var port, length := BigEndian(h[0], h[1]), BigEndian(h[2], h[3]);
      if port == 0 { return Failed(InvalidPort, at); }
      if h[4] != CR || h[5] != LF { return Failed(InvalidDelimiter, at); }
      if length > capacity { return Failed(InvalidPacket, at); }
      var payload := Full(length, InvalidPacket);
      if payload.Failed? { return Failed(payload.error, at); }
      r := Got(Packet(host.value, port, payload.value), at);
    }
  }

  method ScanDomain(host: Bytes) returns (ok: bool)
    ensures ok <==> ValidDomain(host)
  {
    if host == [] {
      return false;
    }
    for i := 0 to |host|
      invariant forall k :: 0 <= k < i ==> GoodDomainByte(host[k])
    {
      if !GoodDomainByte(host[i]) {
        return false;
      }
    }
    return true;
  }

  method ScanCredential(c: Bytes) returns (ok: bool)
    ensures ok <==> ValidCredential(c)
  {
    if |c| != CREDENTIAL {
      return false;
    }
    for i := 0 to |c|
      invariant forall k :: 0 <= k < i ==> HexByte(c[k])
    {
      if !HexByte(c[i]) {
        return false;
      }
    }
    return true;
  }

  /** handle, from the end of the TLS handshake to its decision. */
  method Handle(t: IPText, auth: Authenticate, fallback: bool, slot: bool, stream: Bytes, cut: nat)
    returns (outcome: Outcome, issued: bool)
    ensures outcome == if fallback then FallbackOutcome(t, auth, slot, stream, cut)
                      else PlainOutcome(t, auth, stream, cut)
    ensures outcome.Website? || outcome.OverCapacity? ==> !issued
    ensures outcome.Proxied? ==> issued
  {
    var reader := new HeaderReader(stream, cut, if fallback then MAX_HEADER else |stream|);
    issued := false;
    var credential := reader.Credential();
    var failed := credential.Failed?;
    var request: Read<Request> := Failed(InvalidCommand, 0);
    if !failed && fallback {
      request := reader.RequestHeader(t);
      failed := request.Failed? && request.error != InvalidTarget;
    }
    var route := None;
    if !failed {
      route := auth(credential.value);
      issued := route.Some?;
    }
    if route.None? {
      if !fallback || reader.prefix == [] {
        return Closed, issued;
      }
      if slot {
        return Website(reader.prefix, stream[reader.at..]), issued;
      }
      return OverCapacity, issued;
    }
    if !fallback {
      request := reader.RequestHeader(t);
    }
    if request.Failed? {
      return Closed, issued;
    }
    outcome := Proxied(route.value, request.value, stream[reader.at..]);
  }
}
