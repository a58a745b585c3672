/** The Trojan wire format as functions of a byte string and a position: the
    request header with its SOCKS-style address (section 5 of RFC 1928) and the
    UDP packet framing. A position is how many bytes have been consumed. */
module TrojanWire {
  import opened Basics

  type Bytes = seq<Byte>

  datatype Error =
    | EndOfStream
    | InvalidCredential | InvalidCommand | InvalidAddress | InvalidPort | InvalidDelimiter | InvalidPacket
    | InvalidTarget   // structurally complete, refused locally

  /** A read either yields a value or fails; both leave the stream at `at`. */
  datatype Read<+T> = Got(value: T, at: nat) | Failed(error: Error, at: nat)

  datatype Request = Request(command: Byte, host: Bytes, port: nat)

  datatype Packet = Packet(host: Bytes, port: nat, payload: Bytes)

  const CR: Byte := 13
  const LF: Byte := 10
  const PERCENT: Byte := 37
  const CREDENTIAL: nat := 56
  const CONNECT: Byte := 1
  const UDP_ASSOCIATE: Byte := 3
  const IPV4: Byte := 1
  const DOMAIN: Byte := 3
  const IPV6: Byte := 4
  const MAX_PAYLOAD: nat := 65535

  /** credential, CRLF, CMD, ATYP, length, longest domain, port, CRLF */
  const MAX_HEADER: nat := CREDENTIAL + 2 + 1 + 1 + 1 + 255 + 2 + 2

  // ---- IP text, left to the net package ----

  /** net.IP.String and net.ParseIP followed by To4; raw addresses are 4 or 16 bytes. */
  datatype IPText = IPText(show: Bytes -> Bytes, parse: Bytes -> Option<Bytes>)

  predicate Mapped(ip: Bytes) {
    |ip| == 16 && ip[10] == 255 && ip[11] == 255 && forall i :: 0 <= i < 10 ==> ip[i] == 0
  }

  predicate Canonical(ip: Bytes) { |ip| == 4 || (|ip| == 16 && !Mapped(ip)) }

  ghost predicate TextLaws(t: IPText) {
    && (forall ip {:trigger Canonical(ip)} :: Canonical(ip) ==>
          t.parse(t.show(ip)) == Some(ip) && PERCENT !in t.show(ip))
    && (forall text {:trigger t.parse(text)} :: t.parse(text).Some? ==> Canonical(t.parse(text).value))
    && (forall ip {:trigger Mapped(ip)} :: Mapped(ip) ==> t.show(ip) == t.show(ip[12..]))
  }

  // ---- scans ----

  predicate GoodDomainByte(b: Byte) {
    // above space, not DEL, none of : [ ] / \ ? # @ %
    && b > 32 && b != 127 && b != 58 && b != 91 && b != 93 && b != 47 && b != 92 && b != 63
    && b != 35 && b != 64 && b != PERCENT
  }

  predicate ValidDomain(host: Bytes) {
    host != [] && forall i :: 0 <= i < |host| ==> GoodDomainByte(host[i])
  }

  predicate HexByte(b: Byte) { 48 <= b <= 57 || 97 <= b <= 102 }

  predicate ValidCredential(c: Bytes) {
    |c| == CREDENTIAL && forall i :: 0 <= i < |c| ==> HexByte(c[i])
  }

  // ---- readers ----

  /** io.ReadFull: all n bytes, or whatever is left and a failure. */
  function ReadFull(s: Bytes, at: nat, n: nat, error: Error): (r: Read<Bytes>)
    requires at <= |s|
    ensures at <= r.at <= |s| && r.at <= at + n
    ensures r.Got? <==> at + n <= |s|
  {
    if at + n <= |s| then Got(s[at..at + n], at + n) else Failed(error, |s|)
  }

  function ReadCredential(s: Bytes, at: nat): (r: Read<Bytes>)
    requires at <= |s|
    ensures at <= r.at <= |s| && r.at <= at + CREDENTIAL + 2
  {
    var r := ReadFull(s, at, CREDENTIAL + 2, InvalidCredential);
    if r.Failed? then r
    else if r.value[CREDENTIAL] != CR || r.value[CREDENTIAL + 1] != LF then Failed(InvalidDelimiter, r.at)
    else if !ValidCredential(r.value[..CREDENTIAL]) then Failed(InvalidCredential, r.at)
    else Got(r.value[..CREDENTIAL], r.at)
  }

  function ReadHost(t: IPText, s: Bytes, at: nat, kind: Byte): (r: Read<Bytes>)
    requires at <= |s|
    ensures at <= r.at <= |s| && r.at <= at + 256
  {
    if kind == IPV4 then
      var r := ReadFull(s, at, 4, InvalidAddress);
      if r.Got? then Got(t.show(r.value), r.at) else r
    else if kind == IPV6 then
      var r := ReadFull(s, at, 16, InvalidAddress);
      if r.Got? then Got(t.show(r.value), r.at) else r
    else if kind == DOMAIN then
      var n := ReadFull(s, at, 1, InvalidAddress);
      if n.Failed? then n
      else if n.value[0] == 0 then Failed(InvalidAddress, n.at)
      else ReadFull(s, n.at, n.value[0] as nat, InvalidAddress)
    else Failed(InvalidAddress, at)
  }

  function BigEndian(high: Byte, low: Byte): nat { high as nat * 256 + low as nat }

  function ReadRequest(t: IPText, s: Bytes, at: nat): (r: Read<Request>)
    requires at <= |s|
    ensures at <= r.at <= |s| && r.at <= at + 2 + 256 + 4
  {
    var prefix := ReadFull(s, at, 2, InvalidCommand);
    if prefix.Failed? then Failed(prefix.error, prefix.at)
    else
      var command, kind := prefix.value[0], prefix.value[1];
      if command != CONNECT && command != UDP_ASSOCIATE then Failed(InvalidCommand, prefix.at)
      else
        var host := ReadHost(t, s, prefix.at, kind);
        if host.Failed? then Failed(host.error, host.at)
        else
          var suffix := ReadFull(s, host.at, 4, InvalidAddress);
          if suffix.Failed? then Failed(suffix.error, suffix.at)
          else if suffix.value[2] != CR || suffix.value[3] != LF then Failed(InvalidDelimiter, suffix.at)
          else
            var port := BigEndian(suffix.value[0], suffix.value[1]);
            if kind == DOMAIN && !ValidDomain(host.value) then Failed(InvalidTarget, suffix.at)
            else if port == 0 && command == CONNECT then Failed(InvalidTarget, suffix.at)
            else Got(Request(command, host.value, port), suffix.at)
  }

  /** Port, length, CRLF and payload of a packet whose host has been read. */
  function ReadBody(s: Bytes, at: nat, host: Bytes, capacity: nat): (r: Read<Packet>)
    requires at <= |s|
    ensures at <= r.at <= |s|
  {
    var header := ReadFull(s, at, 6, InvalidPacket);
    if header.Failed? then Failed(header.error, header.at)
    else
      var h := header.value;
      var port, length := BigEndian(h[0], h[1]), BigEndian(h[2], h[3]);
      if port == 0 then Failed(InvalidPort, header.at)
      else if h[4] != CR || h[5] != LF then Failed(InvalidDelimiter, header.at)
      else if length > capacity then Failed(InvalidPacket, header.at)
      else
        var payload := ReadFull(s, header.at, length, InvalidPacket);
        if payload.Failed? then Failed(payload.error, payload.at)
        else Got(Packet(host, port, payload.value), payload.at)
  }

  function ReadPacket(t: IPText, s: Bytes, at: nat, capacity: nat): (r: Read<Packet>)
    requires at <= |s|
    ensures at <= r.at <= |s| && (r.Got? ==> at < r.at)
  {
    var kind := ReadFull(s, at, 1, EndOfStream);
    if kind.Failed? then Failed(kind.error, kind.at)
    else
      var host := ReadHost(t, s, kind.at, kind.value[0]);
      if host.Failed? then Failed(host.error, host.at)
      else if kind.value[0] == DOMAIN && !ValidDomain(host.value) then Failed(InvalidAddress, host.at)
      else ReadBody(s, host.at, host.value, capacity)
  }

  // ---- writing packets ----

  function IndexOf(s: Bytes, b: Byte): (r: int)
    ensures -1 <= r < |s|
    ensures r < 0 <==> b !in s
    ensures r >= 0 ==> s[r] == b && b !in s[..r]
  {
    if s == [] then -1
    else if s[0] == b then 0
    else
      var r := IndexOf(s[1..], b);
      assert s == [s[0]] + s[1..];
      assert r >= 0 ==> s[..r + 1] == [s[0]] + s[1..][..r];
      if r < 0 then -1 else r + 1
  }

  /** A zone index is dropped. */
  function StripZone(host: Bytes): Bytes {
    var i := IndexOf(host, PERCENT);
    if i < 0 then host else host[..i]
  }

  function Word(n: nat): Bytes
    requires n < 65536
  {
    [(n / 256) as Byte, (n % 256) as Byte]
  }

  /** ATYP and address of a host, or nothing when it cannot be encoded. */
  function EncodeHost(t: IPText, host: Bytes): Option<Bytes> {
    var name := StripZone(host);
    var ip := t.parse(name);
    if ip.Some? then (if |ip.value| == 4 then Some([IPV4] + ip.value) else Some([IPV6] + ip.value))
    else if name == [] || |name| > 255 || 0 in name then None
    else Some([DOMAIN, |name| as Byte] + name)
  }

  function Trailer(port: nat, length: nat): Bytes
    requires port < 65536 && length < 65536
  {
    Word(port) + Word(length) + [CR, LF]
  }

  /** AppendPacket onto an empty slice; None is its error return. */
  function EncodePacket(t: IPText, p: Packet): Option<Bytes> {
    if p.port == 0 || p.port > 65535 || |p.payload| > MAX_PAYLOAD then None
    else
      var host := EncodeHost(t, p.host);
      if host.None? then None else Some(host.value + Trailer(p.port, |p.payload|) + p.payload)
  }
}
