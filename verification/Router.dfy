/**
 The two-port BACnet/IP router: forwarding with hop counts, source-address
 insertion, and a return-path table whose entries expire by time.

 `Route` gives one decoded frame its meaning as a function of the table; the
 class `Router` is the program's object, which works on octets and updates the
 table and the sockets. Sockets are modelled by `sent`, the datagrams handed
 to them so far.
 */
module Router {
  import opened Wire
  import opened BipCodec

  const RETURN_PATH_TTL: real := 30.0
  const WHO_IS_ROUTER: byte := 0x00
  const I_AM_ROUTER: byte := 0x01
  const GLOBAL_BROADCAST: uint16 := 0xFFFF
  const RECV_MAX: nat := 2048
  const LIMITED_BROADCAST: IPv4 := [255, 255, 255, 255]

  datatype Side = A | B
  datatype Port = Port(network: uint16, addr: IPv4, udp: uint16)

  /** The two ports. Their network numbers differ and name real networks. */
  datatype Config = Config(a: Port, b: Port) {
    predicate Valid() {
      a.network != b.network && 1 <= a.network < 0xFFFF && 1 <= b.network < 0xFFFF
    }

    function At(side: Side): Port {
      if side == A then a else b
    }

    /** The dictionary from network number to port. */
    function ByNet(net: uint16): Option<Side> {
      if net == b.network then Some(B) else if net == a.network then Some(A) else None
    }
  }

  datatype Received = Received(fn: byte, npdu: Npdu)
  datatype Outgoing = Outgoing(port: Side, dest: Endpoint, fn: byte, npdu: SendableNpdu)
  datatype Send = Send(port: Side, dest: Endpoint, frame: Octets)
  datatype ReturnPath = ReturnPath(egress: Side, dest: Endpoint, expires: real)
  type Paths = map<Endpoint, ReturnPath>
  datatype Effect = Effect(paths: Paths, out: seq<Outgoing>)

  function Other(side: Side): Side {
    if side == A then B else A
  }

  // ----- Octets in, octets out -----

  function Accept(data: Octets): Option<Received> {
    match ParseBvlc(data)
    case None => None
    case Some((fn, payload)) =>
      if fn != ORIGINAL_UNICAST && fn != ORIGINAL_BROADCAST && fn != FORWARDED then None
      else if fn == FORWARDED && |payload| < 6 then None
      else match Decode(if fn == FORWARDED then payload[6..] else payload)
           case None => None
           case Some(npdu) => Some(Received(fn, npdu))
  }

  function Frame(o: Outgoing): Send {
    Send(o.port, o.dest, BvlcWrap(o.fn, Encode(o.npdu)))
  }

  function Frames(os: seq<Outgoing>): (r: seq<Send>)
    ensures |r| == |os|
    ensures forall i :: 0 <= i < |os| ==> r[i] == Frame(os[i])
  {
    seq(|os|, i requires 0 <= i < |os| => Frame(os[i]))
  }

  // ----- What one frame does -----

  function Broadcast(cfg: Config, side: Side, npdu: SendableNpdu): Outgoing {
    Outgoing(side, Endpoint(LIMITED_BROADCAST, cfg.At(side).udp), ORIGINAL_BROADCAST, npdu)
  }

  function SourceOf(cfg: Config, ingress: Side, src: Endpoint): Source {
    Source(cfg.At(ingress).network, Mac(src))
  }

  function Lookup(paths: Paths, device: Endpoint, now: real): Option<ReturnPath> {
    if device in paths && now <= paths[device].expires then Some(paths[device]) else None
  }

  /** A lookup deletes the entry it finds expired. */
  function Purge(paths: Paths, device: Endpoint, now: real): Paths {
    if device in paths && now > paths[device].expires then paths - {device} else paths
  }

  function NetworkOctets(networks: seq<uint16>): Octets {
    if networks == [] then [] else BigEndian16(networks[0]) + NetworkOctets(networks[1..])
  }

  function IAmRouter(networks: seq<uint16>): Npdu {
    Npdu(false, None, None, NetworkMessage(I_AM_ROUTER, NetworkOctets(networks)))
  }

  /** The ports' network numbers other than the ingress's. */
  function OtherNetworks(cfg: Config, ingress: Side): seq<uint16> {
    var other := cfg.At(Other(ingress)).network;
    if other == cfg.At(ingress).network then [] else [other]
  }

  function WhoIsReplies(cfg: Config, ingress: Side, src: Endpoint, data: Octets): seq<Outgoing> {
    if |data| >= 2 then
      var want := Join16(data[0], data[1]);
      if cfg.ByNet(want).None? || want == cfg.At(ingress).network then []
      else Announcement(cfg, ingress, src, want)
    else
      var others := OtherNetworks(cfg, ingress);
      if others == [] then [] else Announcement(cfg, ingress, src, others[0])
  }

  function Announcement(cfg: Config, ingress: Side, src: Endpoint, network: uint16): seq<Outgoing> {
    [Outgoing(ingress, src, ORIGINAL_UNICAST, IAmRouter([network])), Broadcast(cfg, ingress, IAmRouter([network]))]
  }

  function ForwardWithDnet(cfg: Config, paths: Paths, now: real, ingress: Side, src: Endpoint,
                           expecting: bool, dest: Dest, apdu: Octets): Effect
  {
    var source := Some(SourceOf(cfg, ingress, src));
    if dest.hop.Some? && dest.hop.value <= 1 then Effect(paths, [])
    else if dest.net == GLOBAL_BROADCAST then
      var onward := Dest(GLOBAL_BROADCAST, [], Some(if dest.hop.None? then 255 else dest.hop.value - 1));
      Effect(paths, [Broadcast(cfg, Other(ingress), Npdu(expecting, Some(onward), source, Apdu(apdu)))])
    else if cfg.ByNet(dest.net) != Some(Other(ingress)) then Effect(paths, [])
    else if dest.adr == [] then
      Effect(paths, [Broadcast(cfg, Other(ingress), Npdu(expecting, None, source, Apdu(apdu)))])
    else match MacToEndpoint(dest.adr)
         case None => Effect(paths, [])
         case Some(device) =>
           Effect(paths[device := ReturnPath(ingress, src, now + RETURN_PATH_TTL)],
                  [Outgoing(Other(ingress), device, ORIGINAL_UNICAST, Npdu(expecting, None, None, Apdu(apdu)))])
  }

  function Returned(cfg: Config, path: Option<ReturnPath>, ingress: Side, src: Endpoint,
                    expecting: bool, apdu: Octets): seq<Outgoing>
  {
    if path.None? then []
    else [Outgoing(path.value.egress, path.value.dest, ORIGINAL_UNICAST,
                   Npdu(expecting, None, Some(SourceOf(cfg, ingress, src)), Apdu(apdu)))]
  }

  function Route(cfg: Config, paths: Paths, now: real, ingress: Side, src: Endpoint, r: Received): Effect {
    var Received(fn, Npdu(expecting, dest, _, body)) := r;
    match body
    case NetworkMessage(kind, payload) =>
      Effect(paths, if kind == WHO_IS_ROUTER then WhoIsReplies(cfg, ingress, src, payload) else [])
    case Apdu(apdu) =>
      if dest.Some? then ForwardWithDnet(cfg, paths, now, ingress, src, expecting, dest.value, apdu)
      else if fn == ORIGINAL_BROADCAST then
        Effect(paths, [Broadcast(cfg, Other(ingress),
                                 Npdu(false, None, Some(SourceOf(cfg, ingress, src)), Apdu(apdu)))])
      else if fn == ORIGINAL_UNICAST then
        Effect(Purge(paths, src, now), Returned(cfg, Lookup(paths, src, now), ingress, src, expecting, apdu))
      else Effect(paths, [])
  }

  // ----- Runs -----

  /** A datagram on the wire, and what the codec makes of it (`None`: dropped). */
  datatype Datagram = Datagram(now: real, ingress: Side, data: Octets, src: Endpoint)
  datatype Arrival = Arrival(now: real, ingress: Side, src: Endpoint, frame: Option<Received>)

  /** `recvfrom(2048)` cuts a longer datagram off. */
  function Truncated(data: Octets): (r: Octets)
    ensures |r| <= RECV_MAX
  {
    if |data| <= RECV_MAX then data else data[..RECV_MAX]
  }

  function Arrive(d: Datagram): Arrival {
    Arrival(d.now, d.ingress, d.src, Accept(Truncated(d.data)))
  }

  function Arrivals(ds: seq<Datagram>): seq<Arrival> {
    seq(|ds|, i requires 0 <= i < |ds| => Arrive(ds[i]))
  }

  function Step(cfg: Config, paths: Paths, a: Arrival): Effect {
    if a.frame.None? then Effect(paths, []) else Route(cfg, paths, a.now, a.ingress, a.src, a.frame.value)
  }

  function PathsAfter(cfg: Config, run: seq<Arrival>): Paths {
    if run == [] then map[] else Step(cfg, PathsAfter(cfg, run[..|run| - 1]), run[|run| - 1]).paths
  }

  function Traffic(cfg: Config, run: seq<Arrival>): seq<Outgoing> {
    if run == [] then []
    else Traffic(cfg, run[..|run| - 1]) + Step(cfg, PathsAfter(cfg, run[..|run| - 1]), run[|run| - 1]).out
  }

  // ----- The object -----

  class Router {
    const cfg: Config
    var returnPaths: Paths
    var sent: seq<Send>

    constructor (cfg: Config)
      ensures this.cfg == cfg && returnPaths == map[] && sent == []
    {
      this.cfg := cfg;
      returnPaths := map[];
      sent := [];
    }

    method SendTo(port: Side, dest: Endpoint, frame: Octets)
      modifies this`sent
      ensures sent == old(sent) + [Send(port, dest, frame)]
    {
      sent := sent + [Send(port, dest, frame)];
    }

    method SendBroadcast(side: Side, npdu: Octets)
      modifies this`sent
      ensures sent == old(sent) + [Send(side, Endpoint(LIMITED_BROADCAST, cfg.At(side).udp),
                                        BvlcWrap(ORIGINAL_BROADCAST, npdu))]
    {
      SendTo(side, Endpoint(LIMITED_BROADCAST, cfg.At(side).udp), BvlcWrap(ORIGINAL_BROADCAST, npdu));
    }

    method Remember(device: Endpoint, egress: Side, dest: Endpoint, now: real)
      modifies this`returnPaths
      ensures returnPaths == old(returnPaths)[device := ReturnPath(egress, dest, now + RETURN_PATH_TTL)]
    {
      returnPaths := returnPaths[device := ReturnPath(egress, dest, now + RETURN_PATH_TTL)];
    }

    method LookupReturn(device: Endpoint, now: real) returns (path: Option<ReturnPath>)
      modifies this`returnPaths
      ensures path == Lookup(old(returnPaths), device, now)
      ensures returnPaths == Purge(old(returnPaths), device, now)
    {
      if device !in returnPaths {
        return None;
      }
      var entry := returnPaths[device];
      if now > entry.expires {
        returnPaths := returnPaths - {device};
        return None;
      }
      return Some(entry);
    }

    method EncodeIAmRouter(networks: seq<uint16>, fn: byte) returns (frame: Octets)
      ensures frame == BvlcWrap(fn, Encode(IAmRouter(networks)))
    {
      var body := [NPDU_VERSION, NETMSG, I_AM_ROUTER];
      var i := 0;
      while i < |networks|
        invariant 0 <= i <= |networks|
        invariant body + NetworkOctets(networks[i..]) ==
                  [NPDU_VERSION, NETMSG, I_AM_ROUTER] + NetworkOctets(networks)
      {
        assert networks[i..][1..] == networks[i + 1..];
        ghost var rest := NetworkOctets(networks[i + 1..]);
        assert body + (BigEndian16(networks[i]) + rest) == body + BigEndian16(networks[i]) + rest;
        body := body + BigEndian16(networks[i]);
        i := i + 1;
      }
      assert body == body + NetworkOctets(networks[i..]);
      assert body == Encode(IAmRouter(networks));
      frame := BvlcWrap(fn, body);
    }

    method HandleWhoIsRouter(ingress: Side, src: Endpoint, data: Octets)
      modifies this`sent
      ensures sent == old(sent) + Frames(WhoIsReplies(cfg, ingress, src, data))
    {
      var announce;
      if |data| >= 2 {
        var want := Join16(data[0], data[1]);
        if cfg.ByNet(want).None? || want == cfg.At(ingress).network {
          return;
        }
        announce := [want];
      } else {
        announce := OtherNetworks(cfg, ingress);
      }
      if announce == [] {
        return;
      }
      var directed := EncodeIAmRouter(announce, ORIGINAL_UNICAST);
      SendTo(ingress, src, directed);
      var broadcast := EncodeIAmRouter(announce, ORIGINAL_BROADCAST);
      SendTo(ingress, Endpoint(LIMITED_BROADCAST, cfg.At(ingress).udp), broadcast);
    }

    method ForwardDnet(ingress: Side, src: Endpoint, now: real, expecting: bool, dest: Dest, apdu: Octets)
      modifies this
      ensures var e := ForwardWithDnet(cfg, old(returnPaths), now, ingress, src, expecting, dest, apdu);
              returnPaths == e.paths && sent == old(sent) + Frames(e.out)
    {
      hide BvlcWrap, Encode, Mac;
      if dest.hop.Some? && dest.hop.value <= 1 {
        return;
      }
      var newHop := if dest.hop.None? then 255 else dest.hop.value - 1;
      var source := Some(Source(cfg.At(ingress).network, Mac(src)));
      if dest.net == GLOBAL_BROADCAST {
        var flooded := EncodeNpdu(Npdu(expecting, Some(Dest(GLOBAL_BROADCAST, [], Some(newHop))), source, Apdu(apdu)));
        SendBroadcast(Other(ingress), flooded);
        return;
      }
      var egress := cfg.ByNet(dest.net);
      if egress.None? || egress.value == ingress {
        return;
      }
      if |dest.adr| == 0 {
        var spread := EncodeNpdu(Npdu(expecting, None, source, Apdu(apdu)));
        SendBroadcast(egress.value, spread);
        return;
      }
      var device := MacToEndpoint(dest.adr);
      if device.None? {
        return;
      }
      var local := EncodeNpdu(Npdu(expecting, None, None, Apdu(apdu)));
      Remember(device.value, ingress, src, now);
      SendTo(egress.value, device.value, BvlcWrap(ORIGINAL_UNICAST, local));
    }

    method ForwardLocalBroadcast(ingress: Side, src: Endpoint, apdu: Octets)
      modifies this`sent
      ensures sent == old(sent) + [Frame(Broadcast(cfg, Other(ingress),
                                   Npdu(false, None, Some(SourceOf(cfg, ingress, src)), Apdu(apdu))))]
    {
      var forwarded := EncodeNpdu(Npdu(false, None, Some(Source(cfg.At(ingress).network, Mac(src))), Apdu(apdu)));
      SendBroadcast(Other(ingress), forwarded);
    }

    method ForwardReturnPath(ingress: Side, src: Endpoint, now: real, expecting: bool, apdu: Octets)
      modifies this
      ensures returnPaths == Purge(old(returnPaths), src, now)
      ensures sent == old(sent)
              + Frames(Returned(cfg, Lookup(old(returnPaths), src, now), ingress, src, expecting, apdu))
    {
      var path := LookupReturn(src, now);
      if path.None? {
        return;
      }
      var forwarded := EncodeNpdu(Npdu(expecting, None, Some(Source(cfg.At(ingress).network, Mac(src))), Apdu(apdu)));
      SendTo(path.value.egress, path.value.dest, BvlcWrap(ORIGINAL_UNICAST, forwarded));
    }

    method Handle(now: real, ingress: Side, data: Octets, src: Endpoint)
      modifies this
      ensures var e := Step(cfg, old(returnPaths), Arrival(now, ingress, src, Accept(data)));
              returnPaths == e.paths && sent == old(sent) + Frames(e.out)
    {
      hide Decode, Frame, ForwardWithDnet, WhoIsReplies, Returned;
      var parsed := ParseBvlc(data);
      if parsed.None? {
        return;
      }
      var (fn, payload) := parsed.value;
      if fn != ORIGINAL_UNICAST && fn != ORIGINAL_BROADCAST && fn != FORWARDED {
        return;
      }
      if fn == FORWARDED {
        if |payload| < 6 {
          return;
        }
        payload := payload[6..];
      }
      var info := DecodeNpdu(payload);
      if info.None? {
        return;
      }
      assert Accept(data) == Some(Received(fn, info.value));
      var Npdu(expecting, dest, _, body) := info.value;
      match body {
        case NetworkMessage(kind, netmsg) =>
          if kind == WHO_IS_ROUTER {
            HandleWhoIsRouter(ingress, src, netmsg);
          }
        case Apdu(apdu) =>
          if dest.Some? {
            ForwardDnet(ingress, src, now, expecting, dest.value, apdu);
          } else if fn == ORIGINAL_BROADCAST {
            ForwardLocalBroadcast(ingress, src, apdu);
          } else if fn == ORIGINAL_UNICAST {
            ForwardReturnPath(ingress, src, now, expecting, apdu);
          }
      }
    }

    /** The receive loop over the datagrams that arrive, in order. */
    method Serve(ds: seq<Datagram>)
      requires returnPaths == map[] && sent == []
      modifies this
      ensures returnPaths == PathsAfter(cfg, Arrivals(ds))
      ensures sent == Frames(Traffic(cfg, Arrivals(ds)))
    {
      hide Step, Accept, Frame;
      var i := 0;
      while i < |ds|
        invariant 0 <= i <= |ds|
        invariant returnPaths == PathsAfter(cfg, Arrivals(ds[..i]))
        invariant sent == Frames(Traffic(cfg, Arrivals(ds[..i])))
      {
        assert Arrivals(ds[..i + 1])[..i] == Arrivals(ds[..i]);
        Handle(ds[i].now, ds[i].ingress, Truncated(ds[i].data), ds[i].src);
        i := i + 1;
      }
      assert ds[..i] == ds;
    }
  }
}
