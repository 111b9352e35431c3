/**
 What leaves the router for what arrives, told in the numbers of the protocol
 and of the configuration, and from the history of arrivals alone.
 */
module Forwarding {
  import opened Wire
  import opened BipCodec
  import opened Router
  import opened RouterTheorems

  function Facing(side: Side): Side {
    match side
    case A => B
    case B => A
  }

  function PortAt(cfg: Config, side: Side): Port {
    match side
    case A => cfg.a
    case B => cfg.b
  }

  /** A frame for every station behind a port. */
  function ToAll(cfg: Config, side: Side, npdu: SendableNpdu): Outgoing {
    Outgoing(side, Endpoint([255, 255, 255, 255], PortAt(cfg, side).udp), 0x0B, npdu)
  }

  /** The station at an endpoint behind a port, as other networks see it. */
  function Station(cfg: Config, side: Side, e: Endpoint): (s: Source)
    ensures |s.adr| == 6
  {
    Source(PortAt(cfg, side).network, e.ip + [e.port / 256, e.port % 256])
  }

  function EndpointOf(adr: Octets): Endpoint
    requires |adr| == 6
  {
    Endpoint(adr[..4], adr[4] as int * 256 + adr[5])
  }

  /** The endpoint an arrival asks for, if it is a request that is passed on to one station. */
  function AskedFor(cfg: Config, q: Arrival): Option<Endpoint> {
    match q.frame
    case Some(Received(_, Npdu(_, Some(Dest(net, adr, hop)), _, Apdu(_)))) =>
      if net == PortAt(cfg, Facing(q.ingress)).network && |adr| == 6 && (hop == None || hop.value >= 2)
      then Some(EndpointOf(adr)) else None
    case _ => None
  }

  /** The last arrival that asked for an endpoint. */
  function LastAsked(cfg: Config, run: seq<Arrival>, e: Endpoint): Option<Arrival> {
    if run == [] then None
    else if AskedFor(cfg, run[|run| - 1]) == Some(e) then Some(run[|run| - 1])
    else LastAsked(cfg, run[..|run| - 1], e)
  }

  // ----- APDUs -----

  /** Where an APDU without a destination network goes. */
  function PlainLeaves(cfg: Config, run: seq<Arrival>, a: Arrival, fn: byte, expecting: bool,
                       apdu: Octets): seq<Outgoing>
  {
    var from := Some(Station(cfg, a.ingress, a.src));
    if fn == 0x0B then [ToAll(cfg, Facing(a.ingress), Npdu(false, None, from, Apdu(apdu)))]
    else if fn != 0x0A then []
    else match LastAsked(cfg, run, a.src)
         case None => []
         case Some(q) =>
           if a.now > q.now + 30.0 then []
           else [Outgoing(q.ingress, q.src, 0x0A, Npdu(expecting, None, from, Apdu(apdu)))]
  }

  /** Where an APDU for a network goes. */
  function AddressedLeaves(cfg: Config, a: Arrival, expecting: bool, dest: Dest, apdu: Octets): seq<Outgoing> {
    var from, side := Some(Station(cfg, a.ingress, a.src)), Facing(a.ingress);
    var Dest(net, adr, hop) := dest;
    if hop.Some? && hop.value < 2 then []
    else if net == 65535 then
      var onward := Dest(65535, [], Some(if hop.Some? then hop.value - 1 else 255));
      [ToAll(cfg, side, Npdu(expecting, Some(onward), from, Apdu(apdu)))]
    else if net != PortAt(cfg, side).network then []
    else if |adr| == 0 then [ToAll(cfg, side, Npdu(expecting, None, from, Apdu(apdu)))]
    else if |adr| == 6 then [Outgoing(side, EndpointOf(adr), 0x0A, Npdu(expecting, None, None, Apdu(apdu)))]
    else []
  }

  lemma SidesAgree(cfg: Config, side: Side)
    ensures Facing(side) == Other(side) && PortAt(cfg, side) == cfg.At(side)
  {
  }

  lemma NetworksAgree(cfg: Config, net: uint16, side: Side)
    requires cfg.Valid()
    ensures cfg.ByNet(net) == Some(side) <==> net == PortAt(cfg, side).network
  {
  }

  lemma StationsAgree(cfg: Config, side: Side, e: Endpoint)
    ensures Station(cfg, side, e) == SourceOf(cfg, side, e)
  {
  }

  lemma EndpointsAgree(adr: Octets)
    ensures MacToEndpoint(adr) == if |adr| == 6 then Some(EndpointOf(adr)) else None
  {
  }

  /** A global broadcast, a remote broadcast, a message for one station, and what is dropped. */
  lemma AddressedForwarding(cfg: Config, paths: Paths, a: Arrival, fn: byte, expecting: bool, dest: Dest,
                            source: Option<Source>, apdu: Octets)
    requires cfg.Valid() && a.frame == Some(Received(fn, Npdu(expecting, Some(dest), source, Apdu(apdu))))
    ensures Step(cfg, paths, a).out == AddressedLeaves(cfg, a, expecting, dest, apdu)
  {
    hide MacToEndpoint, Station, SourceOf, EndpointOf, Encodable;
    SidesAgree(cfg, a.ingress);
    SidesAgree(cfg, Facing(a.ingress));
    NetworksAgree(cfg, dest.net, Facing(a.ingress));
    StationsAgree(cfg, a.ingress, a.src);
    EndpointsAgree(dest.adr);
    assert |dest.adr| == 0 <==> dest.adr == [];
  }

  lemma AskedForIs(cfg: Config, q: Arrival)
    requires cfg.Valid()
    ensures AskedFor(cfg, q) == RequestFor(cfg, q)
  {
    hide MacToEndpoint, EndpointOf;
    SidesAgree(cfg, q.ingress);
    match q.frame {
      case Some(Received(_, Npdu(_, Some(Dest(net, adr, hop)), _, Apdu(_)))) =>
        NetworksAgree(cfg, net, Facing(q.ingress));
        EndpointsAgree(adr);
      case _ =>
    }
  }

  lemma {:induction false} LastAskedIs(cfg: Config, run: seq<Arrival>, e: Endpoint)
    requires cfg.Valid()
    ensures LastAsked(cfg, run, e) == LatestRequest(cfg, run, e)
  {
    hide AskedFor, RequestFor;
    if run != [] {
      AskedForIs(cfg, run[|run| - 1]);
      LastAskedIs(cfg, run[..|run| - 1], e);
    }
  }

  /** A local broadcast, the answer of a station that was asked, and what is dropped. */
  lemma {:induction false} PlainForwarding(cfg: Config, run: seq<Arrival>, a: Arrival, fn: byte, expecting: bool,
                        source: Option<Source>, apdu: Octets)
    requires cfg.Valid() && Monotone(run + [a])
    requires a.frame == Some(Received(fn, Npdu(expecting, None, source, Apdu(apdu))))
    ensures Step(cfg, PathsAfter(cfg, run), a).out == PlainLeaves(cfg, run, a, fn, expecting, apdu)
  {
    hide Station, SourceOf, Monotone, LastAsked, LatestRequest, PathsAfter, Lookup, Purge, Encodable;
    MonotoneBefore(run, a);
    ReturnPathRefinesHistory(cfg, run, a.src, a.now);
    LastAskedIs(cfg, run, a.src);
    SidesAgree(cfg, a.ingress);
    SidesAgree(cfg, Facing(a.ingress));
    StationsAgree(cfg, a.ingress, a.src);
  }

  /**
   After any run, for any APDU that arrives: exactly what leaves, and so when
   nothing does.
   */
  lemma {:induction false} ForwardingIsExact(cfg: Config, run: seq<Arrival>, a: Arrival, fn: byte, expecting: bool,
                                             dest: Option<Dest>, source: Option<Source>, apdu: Octets)
    requires cfg.Valid() && Monotone(run + [a])
    requires a.frame == Some(Received(fn, Npdu(expecting, dest, source, Apdu(apdu))))
    ensures Step(cfg, PathsAfter(cfg, run), a).out ==
            match dest
            case None => PlainLeaves(cfg, run, a, fn, expecting, apdu)
            case Some(d) => AddressedLeaves(cfg, a, expecting, d, apdu)
  {
    hide Step, PathsAfter, PlainLeaves, AddressedLeaves, Monotone;
    if dest.Some? {
      AddressedForwarding(cfg, PathsAfter(cfg, run), a, fn, expecting, dest.value, source, apdu);
    } else {
      PlainForwarding(cfg, run, a, fn, expecting, source, apdu);
    }
  }

  // ----- Network messages -----

  /** The network a Who-Is-Router-To-Network is answered with. */
  function Announced(cfg: Config, side: Side, data: Octets): Option<uint16> {
    var other := PortAt(cfg, Facing(side)).network;
    if |data| >= 2 && data[0] as int * 256 + data[1] != other then None else Some(other)
  }

  /** Who-Is-Router (0x00) is answered with I-Am-Router (0x01), to the asker and to all; other messages are not. */
  lemma NetworkMessagesAreAnsweredExactly(cfg: Config, paths: Paths, a: Arrival, fn: byte, expecting: bool,
                                          dest: Option<Dest>, source: Option<Source>, kind: byte, data: Octets)
    requires cfg.Valid()
    requires a.frame == Some(Received(fn, Npdu(expecting, dest, source, NetworkMessage(kind, data))))
    ensures Step(cfg, paths, a).paths == paths
    ensures Step(cfg, paths, a).out ==
            match Announced(cfg, a.ingress, data)
            case Some(net) =>
              if kind != 0x00 then []
              else
                var reply := Npdu(false, None, None, NetworkMessage(0x01, [net / 256, net % 256]));
                [Outgoing(a.ingress, a.src, 0x0A, reply), ToAll(cfg, a.ingress, reply)]
            case None => []
  {
    SidesAgree(cfg, a.ingress);
    SidesAgree(cfg, Facing(a.ingress));
    var other := PortAt(cfg, Facing(a.ingress)).network;
    assert NetworkOctets([other]) == [other / 256, other % 256] by { OneAnnounced(other); }
    if |data| >= 2 {
      NetworksAgree(cfg, data[0] as int * 256 + data[1], Facing(a.ingress));
      NetworksAgree(cfg, data[0] as int * 256 + data[1], a.ingress);
    }
    hide NetworkOctets;
  }

  lemma OneAnnounced(net: uint16)
    ensures NetworkOctets([net]) == [net / 256, net % 256]
  {
    assert [net][1..] == [];
  }

  // ----- Broadcasts can be answered -----

  /** An APDU that goes to all stations behind the other port. */
  predicate IsBroadcast(cfg: Config, a: Arrival) {
    match a.frame
    case Some(Received(fn, Npdu(_, None, _, Apdu(_)))) => fn == 0x0B
    case Some(Received(_, Npdu(_, Some(Dest(net, adr, Some(hop))), _, Apdu(_)))) =>
      hop >= 2 && (net == 65535 || (net == PortAt(cfg, Facing(a.ingress)).network && adr == []))
    case _ => false
  }

  /**
   Address reversal for every broadcast, local, remote or global: it leaves
   once, and whoever answers the station it names reaches its sender, whose own
   plain answers go back for 30 seconds.
   */
  lemma {:induction false} BroadcastsAreAnswered(cfg: Config, run: seq<Arrival>, first: Arrival,
                                                 between: seq<Arrival>, reply: Arrival, hop: byte, apdu: Octets,
                                                 after: seq<Arrival>, answer: Arrival, answered: Octets)
    requires cfg.Valid() && Monotone(run + [first] + between + [reply] + after + [answer])
    requires IsBroadcast(cfg, first)
    requires reply.ingress == Facing(first.ingress) && hop >= 2 && reply.frame.Some?
    requires var s := Station(cfg, first.ingress, first.src);
             reply.frame.value.npdu.dest == Some(Dest(s.net, s.adr, Some(hop)))
    requires reply.frame.value.npdu.body == Apdu(apdu)
    requires NoRequest(cfg, after, first.src)
    requires PlainUnicast(answer) && answer.src == first.src && answer.ingress == first.ingress
    requires answer.frame.value.npdu.body == Apdu(answered)
    ensures var out := Step(cfg, PathsAfter(cfg, run), first).out;
            |out| == 1 && out[0].port == Facing(first.ingress)
            && out[0].dest == Endpoint([255, 255, 255, 255], PortAt(cfg, Facing(first.ingress)).udp)
            && out[0].fn == 0x0B
            && out[0].npdu.source == Some(Station(cfg, first.ingress, first.src))
            && out[0].npdu.body == first.frame.value.npdu.body
    ensures Step(cfg, PathsAfter(cfg, run + [first] + between), reply).out ==
            [Outgoing(first.ingress, first.src, 0x0A,
                      Npdu(reply.frame.value.npdu.expectingReply, None, None, Apdu(apdu)))]
    ensures Step(cfg, PathsAfter(cfg, run + [first] + between + [reply] + after), answer).out ==
            if answer.now <= reply.now + 30.0 then
              [Outgoing(reply.ingress, reply.src, 0x0A,
                        Npdu(answer.frame.value.npdu.expectingReply, None, Some(Station(cfg, first.ingress, first.src)),
                             Apdu(answered)))]
            else []
  {
    BroadcastLeaves(cfg, run, first);
    hide Step, PathsAfter, Monotone, IsBroadcast, Station;
    var o := Step(cfg, PathsAfter(cfg, run), first).out[0];
    AddressReversal(cfg, run, first, o, between, reply, hop, apdu, after, answer, answered);
  }

  lemma {:induction false} BroadcastLeaves(cfg: Config, run: seq<Arrival>, first: Arrival)
    requires cfg.Valid() && IsBroadcast(cfg, first)
    ensures var out := Step(cfg, PathsAfter(cfg, run), first).out;
            |out| == 1 && out[0].port == Facing(first.ingress)
            && out[0].dest == Endpoint([255, 255, 255, 255], PortAt(cfg, Facing(first.ingress)).udp)
            && out[0].fn == 0x0B
            && out[0].npdu.source == Some(Station(cfg, first.ingress, first.src))
            && out[0].npdu.body == first.frame.value.npdu.body
  {
    var Received(fn, Npdu(expecting, dest, source, body)) := first.frame.value;
    if dest.Some? {
      AddressedForwarding(cfg, PathsAfter(cfg, run), first, fn, expecting, dest.value, source, body.octets);
      hide Step;
    } else {
      SidesAgree(cfg, first.ingress);
      SidesAgree(cfg, Facing(first.ingress));
      StationsAgree(cfg, first.ingress, first.src);
      hide Station, SourceOf;
    }
  }

  // ----- Octets -----

  /** Which datagrams are frames, and what they carry: the first 2048 octets count. */
  lemma AcceptedExactly(d: Datagram, fn: byte, npdu: Npdu)
    ensures var p := if |d.data| <= 2048 then d.data else d.data[..2048];
            Arrive(d).frame == Some(Received(fn, npdu)) <==>
            && |p| >= 4 && p[0] == 0x81 && p[1] == fn && p[2] as int * 256 + p[3] == |p|
            && if fn == 0x04 then |p| >= 10 && Decode(p[10..]) == Some(npdu)
               else (fn == 0x0A || fn == 0x0B) && Decode(p[4..]) == Some(npdu)
  {
    hide Decode;
    var p := if |d.data| <= 2048 then d.data else d.data[..2048];
    if |p| >= 10 {
      assert p[4..][6..] == p[10..];
    }
  }

  /** The octets of an NPDU (section 6.2.2, but for the place of the hop count) and of the frame around it. */
  lemma FrameOctets(o: Outgoing)
    requires |Encode(o.npdu)| + 4 <= 65535
    ensures var Npdu(expecting, dest, source, body) := o.npdu;
            var control := (if body.NetworkMessage? then 0x80 else 0) + (if dest.Some? then 0x20 else 0)
                           + (if source.Some? then 0x08 else 0) + (if expecting then 0x04 else 0);
            var destination :=
              match dest
              case None => []
              case Some(d) =>
                [d.net / 256, d.net % 256, |d.adr|] + d.adr + [if d.hop.None? then 255 else d.hop.value];
            var origin :=
              match source
              case None => []
              case Some(s) => [s.net / 256, s.net % 256, |s.adr|] + s.adr;
            var message := match body case NetworkMessage(kind, data) => [kind] + data case Apdu(octets) => octets;
            var npdu := [0x01, control] + destination + origin + message;
            Frame(o).frame == [0x81, o.fn, (4 + |npdu|) / 256, (4 + |npdu|) % 256] + npdu
  {
    var x := o.npdu;
    assert DestPart(x) == match x.dest
                          case None => []
                          case Some(d) =>
                            [d.net / 256, d.net % 256, |d.adr|] + d.adr + [if d.hop.None? then 255 else d.hop.value];
    assert SourcePart(x) == match x.source case None => [] case Some(s) => [s.net / 256, s.net % 256, |s.adr|] + s.adr;
    hide DestPart, SourcePart;
  }
}
