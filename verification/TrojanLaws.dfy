/** What the Trojan parsers read, said byte by byte with the numbers of the protocol:
    the value and the position after it, or the error, for every stream. */
module TrojanLaws {
  import opened Basics
  import opened TrojanWire
  import opened TrojanHandling

  // ---- characters ----

  /** Bytes that would make a target ambiguous. */
  const FORBIDDEN: string := ":[]/\\?#@%"

  predicate NameByte(b: Byte) {
    b > 32 && b != 127 && forall c :: c in FORBIDDEN ==> b as int != c as int
  }

  predicate CleanName(name: Bytes) {
    name != [] && forall i :: 0 <= i < |name| ==> NameByte(name[i])
  }

  lemma NameByteLaw(b: Byte)
    ensures GoodDomainByte(b) <==> NameByte(b)
  {
    assert ':' in FORBIDDEN && '[' in FORBIDDEN && ']' in FORBIDDEN && '/' in FORBIDDEN && '\\' in FORBIDDEN;
    assert '?' in FORBIDDEN && '#' in FORBIDDEN && '@' in FORBIDDEN && '%' in FORBIDDEN;
  }

  lemma NameLaw(name: Bytes)
    ensures ValidDomain(name) <==> CleanName(name)
  {
    forall i | 0 <= i < |name| ensures GoodDomainByte(name[i]) <==> NameByte(name[i]) {
      NameByteLaw(name[i]);
    }
  }

  const HEX: string := "0123456789abcdef"

  predicate HexDigit(b: Byte) { exists c :: c in HEX && b as int == c as int }

  lemma HexLaw(b: Byte)
    ensures HexByte(b) <==> HexDigit(b)
  {
    if HexByte(b) {
      var i := if b <= 57 then b as int - 48 else b as int - 87;
      assert HEX[i] in HEX && HEX[i] as int == b as int;
    }
  }

  // ---- numbers and addresses ----

  /** Two bytes, the first one high. */
  function Pair(s: Bytes, at: nat): nat
    requires at + 2 <= |s|
  {
    s[at] as nat * 256 + s[at + 1] as nat
  }

  /** Where the address of type `kind` ends: 1 is four bytes, 4 sixteen, 3 a counted name. */
  function AddressEnd(s: Bytes, at: nat, kind: Byte): (e: Option<nat>)
    ensures e.Some? ==> at < e.value <= |s|
  {
    var size := if kind == 1 then 4
                else if kind == 4 then 16
                else if kind == 3 && at < |s| && s[at] != 0 then 1 + s[at] as nat
                else |s| + 1;
    if at + size <= |s| then Some(at + size) else None
  }

  function AddressText(t: IPText, s: Bytes, at: nat, kind: Byte, end: nat): Bytes
    requires at < end <= |s|
  {
    if kind == 3 then s[at + 1..end] else t.show(s[at..end])
  }

  lemma HostLaw(t: IPText, s: Bytes, at: nat, kind: Byte)
    requires at <= |s|
    ensures var e := AddressEnd(s, at, kind);
            ReadHost(t, s, at, kind).Got? <==> e.Some?
    ensures var e := AddressEnd(s, at, kind);
            e.Some? ==> ReadHost(t, s, at, kind) == Got(AddressText(t, s, at, kind, e.value), e.value)
    ensures AddressEnd(s, at, kind).None? ==> ReadHost(t, s, at, kind).error == InvalidAddress
  {
    assert at < |s| ==> s[at..at + 1][0] == s[at];
  }

  // ---- the credential ----

  predicate CredentialBytes(s: Bytes, at: nat) {
    at + 58 <= |s| && forall i :: at <= i < at + 56 ==> HexDigit(s[i])
  }

  /** Fifty-six hex digits, 13 and 10; the delimiter is checked before the digits. */
  lemma CredentialLaw(s: Bytes, at: nat)
    requires at <= |s|
    ensures var r := ReadCredential(s, at);
            if at + 58 > |s| then r.Failed? && r.error == InvalidCredential
            else if s[at + 56] != 13 || s[at + 57] != 10 then r == Failed(InvalidDelimiter, at + 58)
            else if !CredentialBytes(s, at) then r == Failed(InvalidCredential, at + 58)
            else r == Got(s[at..at + 56], at + 58)
  {
    if at + 58 <= |s| {
      var whole, c := s[at..at + 58], s[at..at + 56];
      assert whole[56] == s[at + 56] && whole[57] == s[at + 57] && whole[..56] == c;
      HexRun(s, at);
    }
  }

  lemma HexRun(s: Bytes, at: nat)
    requires at + 58 <= |s|
    ensures ValidCredential(s[at..at + 56]) <==> CredentialBytes(s, at)
  {
    var c := s[at..at + 56];
    forall i | 0 <= i < 56 ensures HexByte(c[i]) <==> HexDigit(s[at + i]) {
      HexLaw(s[at + i]);
    }
    if ValidCredential(c) {
      forall i | at <= i < at + 56 ensures HexDigit(s[i]) {
        assert HexByte(c[i - at]);
      }
    }
  }

  // ---- the request ----

  /** Refused here although the wire form is complete: a name that is not clean, or port
      zero for CONNECT. */
  predicate TargetRefused(s: Bytes, at: nat, end: nat)
    requires at + 2 < end && end + 2 <= |s|
  {
    (s[at + 1] == 3 && !CleanName(s[at + 3..end])) || (Pair(s, end) == 0 && s[at] == 1)
  }

  /** The request that starts at `at`, its address ending at `end`. */
  function RequestAt(t: IPText, s: Bytes, at: nat, end: nat): Request
    requires at + 2 < end && end + 2 <= |s|
  {
    Request(s[at], AddressText(t, s, at + 2, s[at + 1], end), Pair(s, end))
  }

  lemma SuffixBytes(s: Bytes, e: nat)
    requires e + 4 <= |s|
    ensures var f := ReadFull(s, e, 4, InvalidAddress);
            f.Got? && f.at == e + 4 && |f.value| == 4 && forall i :: 0 <= i < 4 ==> f.value[i] == s[e + i]
  {
  }

  /** Command 1 or 3, an address, a port, 13 and 10. */
  lemma RequestLaw(t: IPText, s: Bytes, at: nat)
    requires at <= |s|
    ensures var r := ReadRequest(t, s, at);
            if at + 2 > |s| || (s[at] != 1 && s[at] != 3) then r.Failed? && r.error == InvalidCommand
            else
              var e := AddressEnd(s, at + 2, s[at + 1]);
              if e.None? || e.value + 4 > |s| then r.Failed? && r.error == InvalidAddress
              else if s[e.value + 2] != 13 || s[e.value + 3] != 10 then r == Failed(InvalidDelimiter, e.value + 4)
              else if TargetRefused(s, at, e.value) then r == Failed(InvalidTarget, e.value + 4)
              else r == Got(RequestAt(t, s, at, e.value), e.value + 4)
  {
    if at + 2 <= |s| {
      assert s[at..at + 2][0] == s[at] && s[at..at + 2][1] == s[at + 1];
      HostLaw(t, s, at + 2, s[at + 1]);
      var e := AddressEnd(s, at + 2, s[at + 1]);
      if e.Some? && e.value + 4 <= |s| {
        SuffixBytes(s, e.value);
        NameLaw(s[at + 3..e.value]);
      }
    }
  }

  // ---- UDP packets ----

  lemma BodyLaw(s: Bytes, e: nat, host: Bytes, capacity: nat)
    requires e <= |s|
    ensures var r := ReadBody(s, e, host, capacity);
            if e + 6 > |s| then r.Failed? && r.error == InvalidPacket
            else if Pair(s, e) == 0 then r.Failed? && r.error == InvalidPort
            else if s[e + 4] != 13 || s[e + 5] != 10 then r.Failed? && r.error == InvalidDelimiter
            else if Pair(s, e + 2) > capacity || e + 6 + Pair(s, e + 2) > |s| then r.Failed? && r.error == InvalidPacket
            else r == Got(Packet(host, Pair(s, e), s[e + 6..e + 6 + Pair(s, e + 2)]), e + 6 + Pair(s, e + 2))
  {
    if e + 6 <= |s| {
      var h := s[e..e + 6];
      assert h[0] == s[e] && h[1] == s[e + 1] && h[2] == s[e + 2] && h[3] == s[e + 3];
      assert h[4] == s[e + 4] && h[5] == s[e + 5];
    }
  }

  /** Address type, address, then port, length, 13, 10 and as many payload bytes. */
  lemma PacketLaw(t: IPText, s: Bytes, at: nat, capacity: nat)
    requires at <= |s|
    ensures var r := ReadPacket(t, s, at, capacity);
            if at == |s| then r == Failed(EndOfStream, at)
            else
              var e := AddressEnd(s, at + 1, s[at]);
              if e.None? || (s[at] == 3 && !CleanName(s[at + 2..e.value])) then r.Failed? && r.error == InvalidAddress
              else r == ReadBody(s, e.value, AddressText(t, s, at + 1, s[at], e.value), capacity)
  {
    if at < |s| {
      assert s[at..at + 1][0] == s[at];
      HostLaw(t, s, at + 1, s[at]);
      var e := AddressEnd(s, at + 1, s[at]);
      if e.Some? && s[at] == 3 {
        NameLaw(s[at + 2..e.value]);
      }
    }
  }

  // ---- writing ----

  /** The zone index of an address starts at its first percent sign. */
  lemma ZoneLaw(host: Bytes)
    ensures 37 !in host ==> StripZone(host) == host
    ensures 37 in host ==> |StripZone(host)| < |host| && StripZone(host) + [37] <= host && 37 !in StripZone(host)
  {
  }

  function HostBytes(t: IPText, name: Bytes): Bytes
    requires t.parse(name).None? ==> |name| < 256
  {
    match t.parse(name)
    case Some(ip) => (if |ip| == 4 then [1] else [4]) + ip
    case None => [3, |name| as Byte] + name
  }

  function Two(n: nat): Bytes
    requires n < 65536
  {
    [(n / 256) as Byte, (n % 256) as Byte]
  }

  /** The bytes of an encoded packet, and exactly when there are none. */
  lemma EncodeLaw(t: IPText, p: Packet)
    ensures var name := StripZone(p.host);
            var odd := t.parse(name).None? && (name == [] || |name| > 255 || 0 in name);
            if p.port == 0 || p.port > 65535 || |p.payload| > 65535 || odd then EncodePacket(t, p).None?
            else EncodePacket(t, p) == Some(HostBytes(t, name) + Two(p.port) + Two(|p.payload|) + [13, 10] + p.payload)
  {
    if EncodePacket(t, p).Some? {
      var name := StripZone(p.host);
      var a, b, c := HostBytes(t, name), Two(p.port), Two(|p.payload|);
      assert a + (b + c + [13, 10]) + p.payload == a + b + c + [13, 10] + p.payload;
    }
  }

  // ---- what is proxied ----

  lemma HeaderLimit()
    ensures MAX_HEADER == 320
  {
  }

  /** A whole header: credential, request, and a target that is not refused. */
  predicate GoodHeader(s: Bytes) {
    && CredentialBytes(s, 0) && s[56] == 13 && s[57] == 10
    && 60 <= |s| && (s[58] == 1 || s[58] == 3)
    && var e := AddressEnd(s, 60, s[59]);
    && e.Some? && e.value + 4 <= |s| && s[e.value + 2] == 13 && s[e.value + 3] == 10
    && !TargetRefused(s, 58, e.value)
  }

  /** Exactly the streams with a good header and an accepted credential are proxied, on
      the route the first 56 bytes authenticate as, with the stream after the header left. */
  lemma ProxiedLaw(t: IPText, auth: Authenticate, s: Bytes, cut: nat)
    ensures var seen, r := Visible(s, cut), PlainOutcome(t, auth, s, cut);
            r.Proxied? <==> GoodHeader(seen) && auth(seen[..56]).Some?
    ensures var seen, r := Visible(s, cut), PlainOutcome(t, auth, s, cut);
            r.Proxied? ==>
              var e := AddressEnd(seen, 60, seen[59]).value;
              auth(s[..56]) == Some(r.route) && r.request == RequestAt(t, seen, 58, e) && r.rest == s[e + 4..]
  {
    var seen := Visible(s, cut);
    CredentialLaw(seen, 0);
    if |seen| >= 58 {
      RequestLaw(t, seen, 58);
      assert seen[..56] == s[..56] == seen[0..56];
    }
  }

  // ---- examples in bytes ----

  const LOCAL_443: Bytes := [1, 1, 127, 0, 0, 1, 1, 187, 13, 10]

  /** CONNECT to 127.0.0.1 port 443. */
  lemma RequestExample(t: IPText)
    ensures ReadRequest(t, LOCAL_443, 0) == Got(Request(1, t.show([127, 0, 0, 1]), 443), 10)
  {
    RequestLaw(t, LOCAL_443, 0);
    assert LOCAL_443[2..6] == [127, 0, 0, 1];
  }

  /** A packet of two bytes to the same address. */
  lemma PacketExample(t: IPText, host: Bytes)
    requires 37 !in host && t.parse(host) == Some([127, 0, 0, 1])
    ensures EncodePacket(t, Packet(host, 443, [7, 8])) == Some([1, 127, 0, 0, 1, 1, 187, 0, 2, 13, 10, 7, 8])
  {
    ZoneLaw(host);
    EncodeLaw(t, Packet(host, 443, [7, 8]));
    assert HostBytes(t, host) == [1, 127, 0, 0, 1] && Two(443) == [1, 187] && Two(2) == [0, 2];
    assert [1, 127, 0, 0, 1] + [1, 187] + [0, 2] + [13, 10] + [7, 8] == [1, 127, 0, 0, 1, 1, 187, 0, 2, 13, 10, 7, 8];
  }
}
