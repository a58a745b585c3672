/** Round trips of the UDP packet framing: one packet at any position of a stream,
    and whole streams of packets. */
module TrojanPackets {
  import opened Basics
  import opened TrojanWire

  /** `part` lies in the stream at this position. */
  ghost predicate Lies(s: Bytes, at: nat, part: Bytes) {
    at + |part| <= |s| && s[at..at + |part|] == part
  }

  lemma LiesSplit(s: Bytes, at: nat, a: Bytes, b: Bytes)
    requires Lies(s, at, a + b)
    ensures Lies(s, at, a) && Lies(s, at + |a|, b)
  {
    var whole := s[at..at + |a| + |b|];
    assert whole[..|a|] == a && whole[|a|..] == b;
    assert s[at..at + |a|] == whole[..|a|];
    assert s[at + |a|..at + |a| + |b|] == whole[|a|..];
  }

  lemma ReadsWhatLies(s: Bytes, at: nat, part: Bytes, error: Error)
    requires Lies(s, at, part)
    ensures ReadFull(s, at, |part|, error) == Got(part, at + |part|)
  {
  }

  lemma ReadsOne(s: Bytes, at: nat, error: Error)
    requires at < |s|
    ensures ReadFull(s, at, 1, error) == Got([s[at]], at + 1)
  {
    assert s[at..at + 1] == [s[at]];
  }

  // ---- hosts ----

  /** The host text a receiver reconstructs. */
  function Delivered(t: IPText, host: Bytes): Bytes {
    var name := StripZone(host);
    var ip := t.parse(name);
    if ip.Some? then t.show(ip.value) else name
  }

  /** The receiver's own domain check, which is stricter than the sender's. */
  predicate Acceptable(t: IPText, host: Bytes) {
    t.parse(StripZone(host)).Some? || ValidDomain(StripZone(host))
  }

  predicate IsName(t: IPText, host: Bytes) { t.parse(StripZone(host)).None? }

  lemma HostRoundTrip(t: IPText, host: Bytes, s: Bytes, at: nat, e: Bytes)
    requires TextLaws(t) && EncodeHost(t, host) == Some(e) && Lies(s, at, e)
    ensures |e| > 0 && s[at] == e[0] && (e[0] == DOMAIN <==> IsName(t, host))
    ensures ReadHost(t, s, at + 1, e[0]) == Got(Delivered(t, host), at + |e|)
  {
    var name := StripZone(host);
    var ip := t.parse(name);
    if ip.Some? {
      LiesSplit(s, at, [e[0]], ip.value);
      ReadsWhatLies(s, at + 1, ip.value, InvalidAddress);
    } else {
      LiesSplit(s, at, [DOMAIN, |name| as Byte], name);
      LiesSplit(s, at, [DOMAIN], [|name| as Byte]);
      ReadsWhatLies(s, at + 1, [|name| as Byte], InvalidAddress);
      ReadsWhatLies(s, at + 2, name, InvalidAddress);
    }
    assert s[at] == s[at..at + |e|][0];
  }

  /** The one lossy case: a v4-mapped IPv6 address on the wire is read as the same
      text as its IPv4 address, and is written back as IPv4. */
  lemma MappedBecomesV4(t: IPText, s: Bytes, at: nat, ip: Bytes)
    requires TextLaws(t) && Mapped(ip) && Lies(s, at, ip)
    ensures ReadHost(t, s, at, IPV6).Got?
    ensures EncodeHost(t, ReadHost(t, s, at, IPV6).value) == Some([IPV4] + ip[12..])
  {
    ReadsWhatLies(s, at, ip, InvalidAddress);
    assert Canonical(ip[12..]);
    NoZone(t.show(ip[12..]));
  }

  // ---- one packet ----

  lemma TrailerValues(port: nat, length: nat)
    requires port < 65536 && length < 65536
    ensures var h := Trailer(port, length);
            && |h| == 6 && BigEndian(h[0], h[1]) == port && BigEndian(h[2], h[3]) == length && h[4] == CR && h[5] == LF
  {
  }

  lemma BodyRoundTrip(s: Bytes, at: nat, host: Bytes, port: nat, payload: Bytes)
    requires 0 < port < 65536 && |payload| <= MAX_PAYLOAD && Lies(s, at, Trailer(port, |payload|) + payload)
    ensures ReadBody(s, at, host, MAX_PAYLOAD) == Got(Packet(host, port, payload), at + 6 + |payload|)
  {
    LiesSplit(s, at, Trailer(port, |payload|), payload);
    TrailerValues(port, |payload|);
    ReadsWhatLies(s, at, Trailer(port, |payload|), InvalidPacket);
    ReadsWhatLies(s, at + 6, payload, InvalidPacket);
  }

  lemma EncodedShape(t: IPText, p: Packet, e: Bytes)
    requires EncodePacket(t, p) == Some(e)
    ensures EncodeHost(t, p.host).Some? && 0 < p.port < 65536 && |p.payload| <= MAX_PAYLOAD
    ensures e == EncodeHost(t, p.host).value + (Trailer(p.port, |p.payload|) + p.payload)
    ensures |e| == |EncodeHost(t, p.host).value| + 6 + |p.payload|
  {
  }

  /** A packet is its kind byte, then what ReadHost makes of the address, then its body. */
  lemma PacketAssembles(t: IPText, s: Bytes, at: nat, host: Bytes, mid: nat, port: nat, payload: Bytes)
    requires at < |s| && ReadHost(t, s, at + 1, s[at]) == Got(host, mid)
    requires 0 < port < 65536 && |payload| <= MAX_PAYLOAD && Lies(s, mid, Trailer(port, |payload|) + payload)
    ensures ReadPacket(t, s, at, MAX_PAYLOAD)
         == if s[at] == DOMAIN && !ValidDomain(host) then Failed(InvalidAddress, mid)
            else Got(Packet(host, port, payload), mid + 6 + |payload|)
  {
    ReadsOne(s, at, EndOfStream);
    BodyRoundTrip(s, mid, host, port, payload);
  }

  /** Wherever an encoded packet lies, reading there gives the packet back with its
      host in delivered form, or refuses it when the receiver's domain check does. */
  lemma PacketRoundTrip(t: IPText, p: Packet, s: Bytes, at: nat, e: Bytes)
    requires TextLaws(t) && EncodePacket(t, p) == Some(e) && Lies(s, at, e)
    ensures Acceptable(t, p.host) ==>
              ReadPacket(t, s, at, MAX_PAYLOAD) == Got(Packet(Delivered(t, p.host), p.port, p.payload), at + |e|)
    ensures !Acceptable(t, p.host) ==>
              ReadPacket(t, s, at, MAX_PAYLOAD).Failed? && ReadPacket(t, s, at, MAX_PAYLOAD).error == InvalidAddress
  {
    EncodedShape(t, p, e);
    var host := EncodeHost(t, p.host).value;
    LiesSplit(s, at, host, Trailer(p.port, |p.payload|) + p.payload);
    HostRoundTrip(t, p.host, s, at, host);
    PacketAssembles(t, s, at, Delivered(t, p.host), at + |host|, p.port, p.payload);
    assert IsName(t, p.host) ==> Delivered(t, p.host) == StripZone(p.host);
  }

  const SPACED: Bytes := [97, 32, 98]   // "a b"

  lemma SpacedIsOdd(t: IPText, host: Bytes)
    requires host == SPACED && t.parse(host).None?
    ensures EncodeHost(t, host).Some? && !Acceptable(t, host)
  {
    assert StripZone(host) == host;
    assert !GoodDomainByte(host[1]);
  }

  /** The asymmetry is real: a name with a space is encoded, and refused on arrival. */
  lemma SpacedNameRefused(t: IPText, host: Bytes, payload: Bytes)
    requires TextLaws(t) && host == SPACED && t.parse(host).None? && |payload| <= MAX_PAYLOAD
    ensures EncodePacket(t, Packet(host, 80, payload)).Some?
    ensures var r := ReadPacket(t, EncodePacket(t, Packet(host, 80, payload)).value, 0, MAX_PAYLOAD);
            r.Failed? && r.error == InvalidAddress
  {
    SpacedIsOdd(t, host);
    var e := EncodePacket(t, Packet(host, 80, payload)).value;
    assert e[0..0 + |e|] == e;
    PacketRoundTrip(t, Packet(host, 80, payload), e, 0, e);
  }

  // ---- streams of packets ----

  /** Packets in the form the outbound side produces: canonical IP text or a clean
      domain that is not itself IP text. */
  ghost predicate Sendable(t: IPText, p: Packet) {
    && 0 < p.port < 65536 && |p.payload| <= MAX_PAYLOAD
    && (IsIPText(t, p.host) || (ValidDomain(p.host) && |p.host| <= 255 && t.parse(p.host).None?))
  }

  ghost predicate IsIPText(t: IPText, host: Bytes) {
    exists ip :: Canonical(ip) && host == t.show(ip)
  }

  lemma {:induction false} NoZone(host: Bytes)
    requires PERCENT !in host
    ensures StripZone(host) == host
  {
  }

  lemma SendableEncodes(t: IPText, p: Packet)
    requires TextLaws(t) && Sendable(t, p)
    ensures EncodePacket(t, p).Some? && Acceptable(t, p.host) && Delivered(t, p.host) == p.host
  {
  }

  /** The wire form of a list of packets. */
  function EncodeAll(t: IPText, ps: seq<Packet>): Bytes {
    if ps == [] then []
    else
      var e := EncodePacket(t, ps[0]);
      (if e.Some? then e.value else []) + EncodeAll(t, ps[1..])
  }

  /** Reads packets until the first failure. */
  function ReadAll(t: IPText, s: Bytes, at: nat): (seq<Packet>, Error)
    requires at <= |s|
    decreases |s| - at
  {
    var r := ReadPacket(t, s, at, MAX_PAYLOAD);
    if r.Failed? then ([], r.error)
    else
      var (rest, error) := ReadAll(t, s, r.at);
      ([r.value] + rest, error)
  }

  lemma PrefixLies(s: Bytes, at: nat, e: Bytes, rest: Bytes)
    requires at <= |s| && s[at..] == e + rest
    ensures Lies(s, at, e) && s[at + |e|..] == rest
  {
  }

  lemma StreamStep(t: IPText, p: Packet, s: Bytes, at: nat, e: Bytes, rest: Bytes)
    requires TextLaws(t) && Sendable(t, p) && EncodePacket(t, p) == Some(e)
    requires at <= |s| && s[at..] == e + rest
    ensures ReadPacket(t, s, at, MAX_PAYLOAD) == Got(p, at + |e|) && at + |e| <= |s| && s[at + |e|..] == rest
  {
    PrefixLies(s, at, e, rest);
    SendableEncodes(t, p);
    PacketRoundTrip(t, p, s, at, e);
  }

  lemma ReadAllEnds(t: IPText, s: Bytes)
    ensures ReadAll(t, s, |s|) == ([], EndOfStream)
  {
  }

  /** Reading at `at` yields p and leaves the stream at `next`. */
  ghost predicate Follows(t: IPText, s: Bytes, at: nat, p: Packet, next: nat) {
    at <= |s| && ReadPacket(t, s, at, MAX_PAYLOAD) == Got(p, next)
  }

  lemma ReadAllContinues(t: IPText, s: Bytes, at: nat, p: Packet, next: nat, ps: seq<Packet>)
    requires Follows(t, s, at, p, next) && next <= |s| && ReadAll(t, s, next) == (ps, EndOfStream)
    ensures ReadAll(t, s, at) == ([p] + ps, EndOfStream)
  {
  }

  /** Positions at which the packets of a list follow one another to the end. */
  ghost predicate Chain(t: IPText, s: Bytes, ps: seq<Packet>, ats: seq<nat>) {
    && |ats| == |ps| + 1 && ats[|ps|] == |s|
    && forall i :: 0 <= i < |ps| ==> Follows(t, s, ats[i], ps[i], ats[i + 1])
  }

  lemma {:induction false} ChainReads(t: IPText, s: Bytes, ps: seq<Packet>, ats: seq<nat>, k: nat)
    requires Chain(t, s, ps, ats) && k <= |ps| && ats[k] <= |s|
    ensures ReadAll(t, s, ats[k]) == (ps[k..], EndOfStream)
    decreases |ps| - k
  {
    if k == |ps| {
      ReadAllEnds(t, s);
    } else {
      var at, next := ats[k], ats[k + 1];
      assert Follows(t, s, at, ps[k], next);
      ChainReads(t, s, ps, ats, k + 1);
      assert ps[k..] == [ps[k]] + ps[k + 1..];
      ReadAllContinues(t, s, at, ps[k], next, ps[k + 1..]);
    }
  }

  lemma ChainPrepends(t: IPText, s: Bytes, p: Packet, at: nat, ps: seq<Packet>, ats: seq<nat>)
    requires Chain(t, s, ps, ats) && Follows(t, s, at, p, ats[0])
    ensures Chain(t, s, [p] + ps, [at] + ats)
  {
  }

  lemma {:induction false} StreamFrom(t: IPText, ps: seq<Packet>, s: Bytes, at: nat) returns (ats: seq<nat>)
    requires TextLaws(t) && forall i :: 0 <= i < |ps| ==> Sendable(t, ps[i])
    requires at <= |s| && s[at..] == EncodeAll(t, ps)
    ensures Chain(t, s, ps, ats) && ats[0] == at
    decreases |ps|
  {
    if ps == [] {
      assert |s[at..]| == 0;
      ats := [at];
    } else {
      SendableEncodes(t, ps[0]);
      var e := EncodePacket(t, ps[0]).value;
      StreamStep(t, ps[0], s, at, e, EncodeAll(t, ps[1..]));
      var rest := StreamFrom(t, ps[1..], s, at + |e|);
      ChainPrepends(t, s, ps[0], at, ps[1..], rest);
      assert [ps[0]] + ps[1..] == ps;
      ats := [at] + rest;
    }
  }

  /** A concatenation of encoded packets reads back as exactly that list and then
      a clean end of stream. */
  lemma StreamRoundTrip(t: IPText, ps: seq<Packet>)
    requires TextLaws(t) && forall i :: 0 <= i < |ps| ==> Sendable(t, ps[i])
    ensures ReadAll(t, EncodeAll(t, ps), 0) == (ps, EndOfStream)
  {
    var s := EncodeAll(t, ps);
    assert s[0..] == s;
    var ats := StreamFrom(t, ps, s, 0);
    ChainReads(t, s, ps, ats, 0);
    assert ps[0..] == ps;
  }
}
