/** The relay loops: every chunk or datagram is charged first and forwarded only
    when the charge was answered true. Reads, answers and writes are arbitrary. */
module TrojanRelay {
  import opened Identity
  import opened Meters
  import opened TrafficLedger
  import opened TrojanWire
  import opened TrojanPackets
  import opened TrojanHandling

  const BUFFER: nat := 32 * 1024

  datatype Ending = Finished | SourceBroken | Rejected | WriteFailed

  function Sent(events: seq<Event>): nat {
    if events == [] then 0 else Sent(events[..|events| - 1]) + events[|events| - 1].forwarded
  }

  function Charged(events: seq<Event>): nat {
    if events == [] then 0
    else Charged(events[..|events| - 1]) + events[|events| - 1].tx + events[|events| - 1].rx
  }

  lemma TotalsSnoc(events: seq<Event>, e: Event)
    ensures Sent(events + [e]) == Sent(events) + e.forwarded
    ensures Charged(events + [e]) == Charged(events) + e.tx + e.rx
  {
  }

  /** Only the last charge of a relay can be refused or fall short. */
  ghost predicate AllButLastComplete(events: seq<Event>) {
    forall i :: 0 <= i < |events| - 1 ==> events[i].admitted && events[i].forwarded == events[i].tx + events[i].rx
  }

  lemma Extends(source: Bytes, at: nat, n: nat)
    requires at + n <= |source|
    ensures source[..at] + source[at..at + n] == source[..at + n]
  {
  }

  /** A charge of n bytes in one direction: client to target is tx, the other way rx. */
  function DirectedCharge(id: RouteID, month: int, now: int, upload: bool, n: nat, admitted: bool, forwarded: nat)
    : Event
  {
    Event(Key(id, month), now, if upload then n else 0, if upload then 0 else n, admitted, forwarded)
  }

  ghost predicate ChargesOf(events: seq<Event>, id: RouteID, upload: bool) {
    forall i :: 0 <= i < |events| ==>
      && events[i].key.id == id && (if upload then events[i].rx else events[i].tx) == 0
      && 0 < events[i].tx + events[i].rx <= BUFFER
  }

  /** Every charge so far was admitted and forwarded in full. */
  ghost predicate Complete(events: seq<Event>, id: RouteID, upload: bool, total: nat) {
    && Forwards(events) && ChargesOf(events, id, upload) && Sent(events) == total && Charged(events) == total
    && forall i :: 0 <= i < |events| ==> events[i].admitted && events[i].forwarded == events[i].tx + events[i].rx
  }

  /** What holds of a relay's charges at any time: they forward `total` bytes, and only
      the last of them can be refused or fall short. */
  ghost predicate Metered(events: seq<Event>, id: RouteID, upload: bool, total: nat) {
    Forwards(events) && ChargesOf(events, id, upload) && Sent(events) == total && AllButLastComplete(events)
  }

  lemma ChunkNext(events: seq<Event>, id: RouteID, upload: bool, total: nat, e: Event)
    requires Complete(events, id, upload, total)
    requires e.key.id == id && (if upload then e.rx else e.tx) == 0 && 0 < e.tx + e.rx <= BUFFER
    requires e.forwarded <= if e.admitted then e.tx + e.rx else 0
    ensures Metered(events + [e], id, upload, total + e.forwarded)
    ensures e.forwarded == e.tx + e.rx ==> Complete(events + [e], id, upload, total + e.forwarded)
  {
    TotalsSnoc(events, e);
  }

  /** Charges one chunk and, when admitted, writes it. */
  method RelayChunk(events: seq<Event>, ghost at: nat, id: RouteID, upload: bool, k: nat)
    returns (all: seq<Event>, admitted: bool, written: nat, failed: bool)
    requires Complete(events, id, upload, at) && 0 < k <= BUFFER
    ensures written <= k && all != [] && all[|all| - 1].admitted == admitted && (!admitted ==> written == 0)
    ensures Metered(all, id, upload, at + written)
    ensures admitted && !failed ==> written == k && Complete(all, id, upload, at + k)
  {
    var month: int := *;
    var now: int := *;
    admitted := *;
    failed := *;
    written :| 0 <= written <= k;
    if !admitted {
      written := 0;
    }
    var e := DirectedCharge(id, month, now, upload, k, admitted, written);
    ChunkNext(events, id, upload, at, e);
    all := events + [e];
    failed := failed || written != k;
  }

  /** copyMetered. What reaches the destination is a prefix of the source; every
      forwarded byte belongs to a charge answered true before it; and a finished copy
      forwarded everything and charged exactly that. */
  method CopyMetered(source: Bytes, id: RouteID, upload: bool)
    returns (forwarded: Bytes, events: seq<Event>, ending: Ending)
    ensures forwarded <= source && Metered(events, id, upload, |forwarded|)
    ensures ending.Finished? ==> forwarded == source && Charged(events) == |source|
    ensures ending.Rejected? <==> events != [] && !events[|events| - 1].admitted
  {
    var at := 0;
    forwarded, events := [], [];
    while true
      invariant at <= |source| && forwarded == source[..at]
      invariant Complete(events, id, upload, at)
      decreases |source| - at
    {
      var broken: bool := *;
      var k: nat :| at + k <= |source| && k <= BUFFER && (k > 0 || at == |source| || broken);
      if k > 0 {
        var admitted, written, failed;
        events, admitted, written, failed := RelayChunk(events, at, id, upload, k);
        if !admitted {
          return forwarded, events, Rejected;
        }
        Extends(source, at, written);
        forwarded := forwarded + source[at..at + written];
        if failed {
          return forwarded, events, WriteFailed;
        }
        at := at + k;
      }
      if broken {
        return forwarded, events, SourceBroken;
      }
      if k == 0 {
        assert source[..|source|] == source;
        return forwarded, events, Finished;
      }
    }
  }

  /** copyRefreshingIdle: an unmetered copy of one direction. */
  method CopyRefreshingIdle(source: Bytes) returns (forwarded: Bytes, ending: Ending)
    ensures forwarded <= source && (ending.Finished? ==> forwarded == source)
  {
    var at := 0;
    forwarded := [];
    while true
      invariant at <= |source| && forwarded == source[..at]
      decreases |source| - at
    {
      var broken: bool := *;
      var k: nat :| at + k <= |source| && k <= BUFFER && (k > 0 || at == |source| || broken);
      if k > 0 {
        var written: nat :| written <= k;
        var writeFailed: bool := *;
        Extends(source, at, written);
        forwarded := forwarded + source[at..at + written];
        if writeFailed || written != k {
          return forwarded, WriteFailed;
        }
        at := at + k;
      }
      if broken {
        return forwarded, SourceBroken;
      }
      if k == 0 {
        assert source[..|source|] == source;
        return forwarded, Finished;
      }
    }
  }

  /** A visitor's bytes reach the website in order and without loss, whatever part of
      them the header parsers had consumed. */
  method ServeVisitor(t: IPText, auth: Authenticate, stream: Bytes, cut: nat) returns (received: Bytes, ending: Ending)
    requires FallbackOutcome(t, auth, true, stream, cut).Website?
    ensures received <= stream && (ending.Finished? ==> received == stream)
  {
    ReplayIsLossless(t, auth, stream, cut);
    var outcome, _ := Handle(t, auth, true, true, stream, cut);
    received, ending := CopyRefreshingIdle(outcome.prefix + outcome.rest);
  }

  /** The datagrams that AppendPacket can encode, in order. */
  function Encodable(t: IPText, ps: seq<Packet>): seq<Packet> {
    if ps == [] then []
    else Encodable(t, ps[..|ps| - 1]) + if EncodePacket(t, ps[|ps| - 1]).Some? then [ps[|ps| - 1]] else []
  }

  lemma {:induction false} EncodeAllSnoc(t: IPText, ps: seq<Packet>, p: Packet)
    requires EncodePacket(t, p).Some?
    ensures EncodeAll(t, ps + [p]) == EncodeAll(t, ps) + EncodePacket(t, p).value
  {
    if ps == [] {
      assert (ps + [p])[1..] == [];
    } else {
      EncodeAllSnoc(t, ps[1..], p);
      assert (ps + [p])[1..] == ps[1..] + [p];
    }
  }

  lemma {:induction false} AllEncodable(t: IPText, ps: seq<Packet>)
    requires TextLaws(t) && forall i :: 0 <= i < |ps| ==> Sendable(t, ps[i])
    ensures Encodable(t, ps) == ps
  {
    if ps != [] {
      var n := |ps| - 1;
      AllEncodable(t, ps[..n]);
      SendableEncodes(t, ps[n]);
      assert ps == ps[..n] + [ps[n]];
    }
  }

  /** Event i charges the payload of packet i; only the last charge can be refused. */
  ghost predicate PacketCharges(events: seq<Event>, ps: seq<Packet>, id: RouteID, upload: bool, rejected: bool) {
    && |events| <= |ps| && Forwards(events) && (rejected ==> events != [])
    && (forall i :: 0 <= i < |events| ==>
          && events[i].key.id == id && (if upload then events[i].rx else events[i].tx) == 0
          && events[i].tx + events[i].rx == |ps[i].payload|
          && (events[i].admitted <==> !(rejected && i == |events| - 1)))
  }

  /** Payload bytes among the first `part` bytes of an encoded packet. */
  function PayloadSent(p: Packet, encoded: Bytes, part: nat): (n: nat)
    ensures n <= |p.payload|
  {
    var header := |encoded| - |p.payload|;
    if part <= header then 0 else if part - header <= |p.payload| then part - header else |p.payload|
  }

  function WireForm(t: IPText, p: Packet): Bytes {
    if EncodePacket(t, p).Some? then EncodePacket(t, p).value else []
  }

  /** What a client receives of the first n datagrams. */
  function WireOf(t: IPText, ps: seq<Packet>, n: nat): Bytes
    requires n <= |ps|
  {
    EncodeAll(t, Encodable(t, ps[..n]))
  }

  lemma WireNext(t: IPText, ps: seq<Packet>, n: nat)
    requires n < |ps|
    ensures WireOf(t, ps, n + 1) == WireOf(t, ps, n) + WireForm(t, ps[n])
  {
    assert ps[..n + 1][..n] == ps[..n];
    var before := Encodable(t, ps[..n]);
    if EncodePacket(t, ps[n]).Some? {
      EncodeAllSnoc(t, before, ps[n]);
    } else {
      assert before + [] == before;
    }
  }

  lemma WireReads(t: IPText, ps: seq<Packet>, n: nat)
    requires TextLaws(t) && n <= |ps| && forall i :: 0 <= i < |ps| ==> Sendable(t, ps[i])
    ensures ReadAll(t, WireOf(t, ps, n), 0) == (ps[..n], EndOfStream)
  {
    AllEncodable(t, ps[..n]);
    StreamRoundTrip(t, ps[..n]);
  }

  /** Encodes and writes one datagram; an unencodable one is skipped. */
  method WritePacket(t: IPText, p: Packet) returns (out: Bytes, sent: nat, failed: bool)
    ensures out <= WireForm(t, p) && (!failed ==> out == WireForm(t, p)) && sent <= |p.payload|
  {
    var packet := EncodePacket(t, p);
    if packet.None? {
      return [], 0, false;
    }
    var part: nat :| part <= |packet.value|;
    var broken: bool := *;
    out, failed := packet.value[..part], broken || part < |packet.value|;
    sent := PayloadSent(p, packet.value, part);
  }

  lemma ChargeNext(events: seq<Event>, ps: seq<Packet>, id: RouteID, upload: bool, e: Event)
    requires PacketCharges(events, ps, id, upload, false) && |events| < |ps|
    requires e.key.id == id && (if upload then e.rx else e.tx) == 0 && e.tx + e.rx == |ps[|events|].payload|
    requires e.forwarded <= if e.admitted then e.tx + e.rx else 0
    ensures PacketCharges(events + [e], ps, id, upload, !e.admitted)
  {
  }

  /** copyAssociationPackets: the client's stream holds exactly the encodable ones of
      the datagrams admitted so far, in order, and a client reading it gets them back;
      a failed write leaves a prefix of that. */
  method CopyAssociationPackets(t: IPText, datagrams: seq<Packet>, id: RouteID)
    returns (wire: Bytes, events: seq<Event>, passed: nat, ending: Ending)
    requires TextLaws(t)
    ensures PacketCharges(events, datagrams, id, false, ending.Rejected?)
    ensures passed == |events| - if ending.Rejected? then 1 else 0
    ensures wire <= WireOf(t, datagrams, passed) && (!ending.WriteFailed? ==> wire == WireOf(t, datagrams, passed))
    ensures !ending.WriteFailed? && (forall i :: 0 <= i < |datagrams| ==> Sendable(t, datagrams[i])) ==>
              ReadAll(t, wire, 0) == (datagrams[..passed], EndOfStream)
  {
    wire, events, passed, ending := [], [], 0, SourceBroken;
    while passed < |datagrams|
      invariant passed == |events| && PacketCharges(events, datagrams, id, false, false)
      invariant wire == WireOf(t, datagrams, passed)
      decreases |datagrams| - passed
    {
      var broken: bool := *;
      if broken {
        break;
      }
      var p := datagrams[passed];
      var month: int := *;
      var now: int := *;
      var admitted: bool := *;
      if !admitted {
        var refused := DirectedCharge(id, month, now, false, |p.payload|, false, 0);
        ChargeNext(events, datagrams, id, false, refused);
        events, ending := events + [refused], Rejected;
        break;
      }
      var out, sent, failed := WritePacket(t, p);
      var e := DirectedCharge(id, month, now, false, |p.payload|, true, sent);
      ChargeNext(events, datagrams, id, false, e);
      WireNext(t, datagrams, passed);
      wire, events, passed := wire + out, events + [e], passed + 1;
      if failed {
        return wire, events, passed, WriteFailed;
      }
    }
    if forall i :: 0 <= i < |datagrams| ==> Sendable(t, datagrams[i]) {
      WireReads(t, datagrams, passed);
    }
  }

  lemma ReadAllGot(t: IPText, stream: Bytes, at: nat, r: Read<Packet>)
    requires at <= |stream| && r == ReadPacket(t, stream, at, MAX_PAYLOAD) && r.Got?
    ensures ReadAll(t, stream, at) == ([r.value] + ReadAll(t, stream, r.at).0, ReadAll(t, stream, r.at).1)
  {
  }

  lemma Regroup(a: seq<Packet>, p: Packet, b: seq<Packet>)
    ensures a + ([p] + b) == a + [p] + b
  {
  }

  lemma OfferNext(events: seq<Event>, ps: seq<Packet>, id: RouteID, p: Packet, e: Event)
    requires PacketCharges(events, ps, id, true, false) && |events| == |ps|
    requires e.key.id == id && e.rx == 0 && e.tx == |p.payload| && e.forwarded <= if e.admitted then e.tx else 0
    ensures PacketCharges(events + [e], ps + [p], id, true, !e.admitted)
  {
  }

  lemma ChargesExtend(events: seq<Event>, ps: seq<Packet>, all: seq<Packet>, id: RouteID, upload: bool, rejected: bool)
    requires PacketCharges(events, ps, id, upload, rejected) && ps <= all
    ensures PacketCharges(events, all, id, upload, rejected)
  {
  }

  /** copyClientPackets: every packet of the stream is charged in order, and written to
      the outbound flow exactly when its charge was admitted; unless policy or a closed
      flow ends the association, that is all of them and the loop ends with the
      stream's own error. */
  method CopyClientPackets(t: IPText, stream: Bytes, id: RouteID)
    returns (written: seq<Packet>, events: seq<Event>, ending: Ending, error: Error)
    ensures PacketCharges(events, ReadAll(t, stream, 0).0, id, true, ending.Rejected?)
    ensures written == ReadAll(t, stream, 0).0[..|events| - if ending.Rejected? then 1 else 0]
    ensures ending.Finished? ==> written == ReadAll(t, stream, 0).0 && error == ReadAll(t, stream, 0).1
    ensures ending.Finished? || ending.Rejected? || ending.WriteFailed?
  {
    var reader := new HeaderReader(stream, |stream|, |stream|);
    written, events, error := [], [], EndOfStream;
    ghost var all := ReadAll(t, stream, 0);
    assert [] + all.0 == all.0;
    while true
      invariant reader.Valid() && reader.Seen() == stream && fresh(reader)
      invariant |written| == |events| && PacketCharges(events, written, id, true, false)
      invariant all == (written + ReadAll(t, stream, reader.at).0, ReadAll(t, stream, reader.at).1)
      decreases |stream| - reader.at
    {
      ghost var at := reader.at;
      var r := reader.PacketFrame(t, MAX_PAYLOAD);
      if r.Failed? {
        ChargesExtend(events, written, all.0, id, true, false);
        return written, events, Finished, r.error;
      }
      ReadAllGot(t, stream, at, r);
      Regroup(written, r.value, ReadAll(t, stream, r.at).0);
      var n := |r.value.payload|;
      var month: int := *;
      var now: int := *;
      var admitted: bool := *;
      var delivered: bool := *;
      var e := DirectedCharge(id, month, now, true, n, admitted, if admitted && delivered then n else 0);
      OfferNext(events, written, id, r.value, e);
      events := events + [e];
      ChargesExtend(events, written + [r.value], all.0, id, true, !admitted);
      if !admitted {
        return written, events, Rejected, error;
      }
      written := written + [r.value];
      var flowClosed: bool := *;   // otherwise one unroutable datagram is skipped
      if !delivered && flowClosed {
        return written, events, WriteFailed, error;
      }
    }
  }
}
