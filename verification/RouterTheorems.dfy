/** What the router keeps over whole runs, and what a request and its answer add up to. */
module RouterTheorems {
  import opened Wire
  import opened BipCodec
  import opened Router

  ghost predicate Monotone(run: seq<Arrival>) {
    forall i, j :: 0 <= i < j < |run| ==> run[i].now <= run[j].now
  }

  // ----- The return-path table refines the history of requests -----

  /** The device a unicast request is for, when its hop count lets the router pass it on. */
  function RequestFor(cfg: Config, a: Arrival): Option<Endpoint> {
    match a.frame
    case Some(Received(_, Npdu(_, Some(Dest(net, adr, hop)), _, Apdu(_)))) =>
      if (hop.None? || hop.value > 1) && net != GLOBAL_BROADCAST && cfg.ByNet(net) == Some(Other(a.ingress))
      then MacToEndpoint(adr) else None
    case _ => None
  }

  /** An original-unicast APDU with no destination network: what a non-routing device answers with. */
  predicate PlainUnicast(a: Arrival) {
    match a.frame
    case Some(Received(fn, Npdu(_, None, _, Apdu(_)))) => fn == ORIGINAL_UNICAST
    case _ => false
  }

  function LatestRequest(cfg: Config, run: seq<Arrival>, device: Endpoint): Option<Arrival> {
    if run == [] then None
    else if RequestFor(cfg, run[|run| - 1]) == Some(device) then Some(run[|run| - 1])
    else LatestRequest(cfg, run[..|run| - 1], device)
  }

  function PathOf(a: Arrival): ReturnPath {
    ReturnPath(a.ingress, a.src, a.now + 30.0)
  }

  /** The return path in force at `now`, told from the history alone. */
  function CurrentPath(cfg: Config, run: seq<Arrival>, device: Endpoint, now: real): Option<ReturnPath> {
    match LatestRequest(cfg, run, device)
    case None => None
    case Some(a) => if now <= a.now + 30.0 then Some(PathOf(a)) else None
  }

  lemma StepPaths(cfg: Config, paths: Paths, a: Arrival)
    ensures Step(cfg, paths, a).paths ==
            match RequestFor(cfg, a)
            case Some(device) => paths[device := PathOf(a)]
            case None => if PlainUnicast(a) then Purge(paths, a.src, a.now) else paths
  {
  }

  lemma {:induction false} ReturnPathRefinesHistory(cfg: Config, run: seq<Arrival>, device: Endpoint, now: real)
    requires Monotone(run) && (run != [] ==> run[|run| - 1].now <= now)
    ensures Lookup(PathsAfter(cfg, run), device, now) == CurrentPath(cfg, run, device, now)
  {
    if run != [] {
      var before, a := run[..|run| - 1], run[|run| - 1];
      ReturnPathRefinesHistory(cfg, before, device, now);
      StepPaths(cfg, PathsAfter(cfg, before), a);
      hide Step, RequestFor;
    }
  }

  /** Entries are never invented: each one, expired or not, is the latest request for its device. */
  lemma {:induction false} EntriesComeFromRequests(cfg: Config, run: seq<Arrival>, device: Endpoint)
    requires device in PathsAfter(cfg, run)
    ensures var request := LatestRequest(cfg, run, device);
            request.Some? && request.value in run && RequestFor(cfg, request.value) == Some(device)
            && PathsAfter(cfg, run)[device] == PathOf(request.value)
  {
    var before, a := run[..|run| - 1], run[|run| - 1];
    StepPaths(cfg, PathsAfter(cfg, before), a);
    hide Step, RequestFor;
    if RequestFor(cfg, a) != Some(device) {
      EntriesComeFromRequests(cfg, before, device);
    }
  }

  /** The step of a router that keeps its whole history, has no table and deletes nothing. */
  function HistoryStep(cfg: Config, run: seq<Arrival>, a: Arrival): seq<Outgoing> {
    if PlainUnicast(a) then
      var npdu := a.frame.value.npdu;
      Returned(cfg, CurrentPath(cfg, run, a.src, a.now), a.ingress, a.src, npdu.expectingReply, npdu.body.octets)
    else Step(cfg, map[], a).out
  }

  function HistoryTraffic(cfg: Config, run: seq<Arrival>): seq<Outgoing> {
    if run == [] then []
    else HistoryTraffic(cfg, run[..|run| - 1]) + HistoryStep(cfg, run[..|run| - 1], run[|run| - 1])
  }

  lemma StepUsesTheLookupOnly(cfg: Config, paths: Paths, run: seq<Arrival>, a: Arrival)
    requires Lookup(paths, a.src, a.now) == CurrentPath(cfg, run, a.src, a.now)
    ensures Step(cfg, paths, a).out == HistoryStep(cfg, run, a)
  {
  }

  /** Deleting expired entries cannot be observed: any run's traffic is that of the router without a table. */
  lemma {:induction false} DeletionIsUnobservable(cfg: Config, run: seq<Arrival>)
    requires Monotone(run)
    ensures Traffic(cfg, run) == HistoryTraffic(cfg, run)
  {
    if run != [] {
      var before, a := run[..|run| - 1], run[|run| - 1];
      DeletionIsUnobservable(cfg, before);
      ReturnPathRefinesHistory(cfg, before, a.src, a.now);
      StepUsesTheLookupOnly(cfg, PathsAfter(cfg, before), before, a);
      hide Step, HistoryStep;
    }
  }

  // ----- Address reversal -----

  /** Every frame that leaves with a source specifier carries the ingress network and the sender's address. */
  lemma SourceIsInserted(cfg: Config, paths: Paths, a: Arrival, o: Outgoing)
    requires o in Step(cfg, paths, a).out && o.npdu.source.Some?
    ensures o.npdu.source == Some(SourceOf(cfg, a.ingress, a.src))
    ensures Step(cfg, paths, a).out == [o] && a.frame.Some? && o.npdu.body == a.frame.value.npdu.body
  {
  }

  /** A frame addressed to the inserted source is stripped of it and handed to the original sender. */
  lemma ReplyIsDelivered(cfg: Config, paths: Paths, asker: Endpoint, side: Side, reply: Arrival, hop: byte,
                         apdu: Octets)
    requires cfg.Valid() && reply.ingress == Other(side) && hop >= 2
    requires reply.frame.Some? && reply.frame.value.npdu.body == Apdu(apdu)
    requires var s := SourceOf(cfg, side, asker); reply.frame.value.npdu.dest == Some(Dest(s.net, s.adr, Some(hop)))
    ensures Step(cfg, paths, reply).out ==
            [Outgoing(side, asker, ORIGINAL_UNICAST,
                      Npdu(reply.frame.value.npdu.expectingReply, None, None, Apdu(apdu)))]
    ensures RequestFor(cfg, reply) == Some(asker)
  {
  }

  /** Nothing in `run` asks for `device` anew. */
  ghost predicate NoRequest(cfg: Config, run: seq<Arrival>, device: Endpoint) {
    forall a | a in run :: RequestFor(cfg, a) != Some(device)
  }

  lemma {:induction false} LatestSurvives(cfg: Config, run: seq<Arrival>, more: seq<Arrival>, device: Endpoint)
    requires NoRequest(cfg, more, device)
    ensures LatestRequest(cfg, run + more, device) == LatestRequest(cfg, run, device)
  {
    if more == [] {
      assert run + more == run;
    } else {
      assert (run + more)[..|run + more| - 1] == run + more[..|more| - 1];
      assert more[|more| - 1] in more;
      LatestSurvives(cfg, run, more[..|more| - 1], device);
      hide RequestFor;
    }
  }

  /**
   Address reversal, end to end. `first` from `first.src` leaves through
   `o.port` with a source specifier. A `reply` that arrives there addressed to
   that specifier reaches `first.src` as plain unicast on its own port; and
   while no later request for `first.src` arrives, its plain unicast `answer`
   goes back to the replier with the same APDU and under the same specifier,
   up to and including 30 seconds later, and not at all after that.
   */
  lemma {:induction false} AddressReversal(cfg: Config, run: seq<Arrival>, first: Arrival, o: Outgoing,
                        between: seq<Arrival>, reply: Arrival, hop: byte, apdu: Octets,
                        after: seq<Arrival>, answer: Arrival, answered: Octets)
    requires cfg.Valid()
    requires Monotone(run + [first] + between + [reply] + after + [answer])
    requires o in Step(cfg, PathsAfter(cfg, run), first).out && o.npdu.source.Some? && o.port != first.ingress
    requires reply.ingress == o.port && hop >= 2 && reply.frame.Some?
    requires reply.frame.value.npdu.dest == Some(Dest(o.npdu.source.value.net, o.npdu.source.value.adr, Some(hop)))
    requires reply.frame.value.npdu.body == Apdu(apdu)
    requires NoRequest(cfg, after, first.src)
    requires PlainUnicast(answer) && answer.src == first.src && answer.ingress == first.ingress
    requires answer.frame.value.npdu.body == Apdu(answered)
    ensures Step(cfg, PathsAfter(cfg, run + [first] + between), reply).out ==
            [Outgoing(first.ingress, first.src, ORIGINAL_UNICAST,
                      Npdu(reply.frame.value.npdu.expectingReply, None, None, Apdu(apdu)))]
    ensures Step(cfg, PathsAfter(cfg, run + [first] + between + [reply] + after), answer).out ==
            if answer.now <= reply.now + 30.0 then
              [Outgoing(o.port, reply.src, ORIGINAL_UNICAST,
                        Npdu(answer.frame.value.npdu.expectingReply, None, o.npdu.source, Apdu(answered)))]
            else []
  {
    SourceIsInserted(cfg, PathsAfter(cfg, run), first, o);
    ReplyIsDelivered(cfg, PathsAfter(cfg, run + [first] + between), first.src, first.ingress, reply, hop, apdu);
    var past := run + [first] + between + [reply];
    assert past[..|past| - 1] == run + [first] + between;
    LatestSurvives(cfg, past, after, first.src);
    var full := past + after + [answer];
    assert full[|full| - 1] == answer;
    assert forall i :: 0 <= i < |past + after| ==> (past + after)[i] == full[i];
    assert LatestRequest(cfg, past, first.src) == Some(reply);
    hide Step, RequestFor, PathsAfter, PlainUnicast, Returned;
    ReturnPathRefinesHistory(cfg, past + after, first.src, answer.now);
    StepUsesTheLookupOnly(cfg, PathsAfter(cfg, past + after), past + after, answer);
    AnswerStep(cfg, past + after, answer, reply);
  }

  lemma {:induction false} AnswerStep(cfg: Config, run: seq<Arrival>, answer: Arrival, reply: Arrival)
    requires PlainUnicast(answer) && LatestRequest(cfg, run, answer.src) == Some(reply)
    ensures HistoryStep(cfg, run, answer) ==
            if answer.now <= reply.now + 30.0 then
              [Outgoing(reply.ingress, reply.src, ORIGINAL_UNICAST,
                        Npdu(answer.frame.value.npdu.expectingReply, None,
                             Some(SourceOf(cfg, answer.ingress, answer.src)), answer.frame.value.npdu.body))]
            else []
  {
  }

  // ----- Where a frame may leave -----

  /**
   An APDU leaves by the port it came in on exactly when it is plain unicast
   from an endpoint whose latest request, still in force, came in on that very
   port: the table is keyed by endpoint and not by port.
   */
  lemma {:induction false} HairpinExactly(cfg: Config, run: seq<Arrival>, a: Arrival)
    requires Monotone(run + [a])
    ensures (exists o :: o in Step(cfg, PathsAfter(cfg, run), a).out && o.npdu.body.Apdu? && o.port == a.ingress) <==>
            PlainUnicast(a) && CurrentPath(cfg, run, a.src, a.now).Some?
            && CurrentPath(cfg, run, a.src, a.now).value.egress == a.ingress
  {
    MonotoneBefore(run, a);
    ReturnPathRefinesHistory(cfg, run, a.src, a.now);
    StepUsesTheLookupOnly(cfg, PathsAfter(cfg, run), run, a);
    hide Step, CurrentPath, PathsAfter, Lookup, Monotone, SourceOf;
    var out := Step(cfg, PathsAfter(cfg, run), a).out;
    if PlainUnicast(a) {
      if CurrentPath(cfg, run, a.src, a.now).Some? {
        assert out[0] in out;
      }
    } else {
      OthersLeaveByTheOther(cfg, PathsAfter(cfg, run), a);
    }
  }

  lemma MonotoneBefore(run: seq<Arrival>, a: Arrival)
    requires Monotone(run + [a])
    ensures Monotone(run) && (run != [] ==> run[|run| - 1].now <= a.now)
  {
    assert forall i :: 0 <= i < |run| ==> run[i] == (run + [a])[i];
    assert (run + [a])[|run|] == a;
  }

  lemma OthersLeaveByTheOther(cfg: Config, paths: Paths, a: Arrival)
    requires !PlainUnicast(a)
    ensures forall o | o in Step(cfg, paths, a).out && o.npdu.body.Apdu? :: o.port == Other(a.ingress)
  {
    hide Mac, MacToEndpoint, Lookup, Purge, SourceOf, Encodable;
  }

  const EXAMPLE_CONFIG: Config := Config(Port(1, [10, 0, 0, 1], 47808), Port(2, [10, 0, 1, 1], 47808))
  const ASKER: Endpoint := Endpoint([10, 0, 0, 5], 47808)
  const DEVICE: Endpoint := Endpoint([10, 0, 1, 7], 47808)
  const ASK: SendableNpdu := Npdu(true, Some(Dest(2, Mac(DEVICE), Some(255))), None, Apdu([0]))
  const ANSWER: SendableNpdu := Npdu(false, None, None, Apdu([1]))

  /** A datagram that carries one NPDU as original unicast. */
  function Unicast(now: real, ingress: Side, src: Endpoint, npdu: SendableNpdu): Datagram {
    Datagram(now, ingress, BvlcWrap(ORIGINAL_UNICAST, Encode(npdu)), src)
  }

  lemma UnicastArrives(now: real, ingress: Side, src: Endpoint, npdu: SendableNpdu)
    requires 4 + |Encode(npdu)| <= RECV_MAX
    ensures Arrive(Unicast(now, ingress, src, npdu)) ==
            Arrival(now, ingress, src, Some(Received(ORIGINAL_UNICAST, Normal(npdu))))
  {
    BvlcRoundTrip(ORIGINAL_UNICAST, Encode(npdu));
    DecodeEncode(npdu);
    hide Encode, Decode, Normal;
  }

  /**
   It happens: a host behind A asks for a device on B's network, and a plain
   unicast from that device's endpoint then arrives on A, and leaves by A.
   */
  lemma HairpinExample()
    ensures EXAMPLE_CONFIG.Valid()
    ensures Traffic(EXAMPLE_CONFIG, Arrivals([Unicast(0.0, A, ASKER, ASK), Unicast(1.0, A, DEVICE, ANSWER)])) ==
            [Outgoing(B, DEVICE, ORIGINAL_UNICAST, Npdu(true, None, None, Apdu([0]))),
             Outgoing(A, ASKER, ORIGINAL_UNICAST,
                      Npdu(false, None, Some(SourceOf(EXAMPLE_CONFIG, A, DEVICE)), Apdu([1])))]
  {
    hide Mac, Encode, Unicast, Step, Arrive, Normal, ASK, ANSWER, SourceOf;
    ShortFrames();
    UnicastArrives(0.0, A, ASKER, ASK);
    UnicastArrives(1.0, A, DEVICE, ANSWER);
    var first := Arrival(0.0, A, ASKER, Some(Received(ORIGINAL_UNICAST, ASK)));
    var second := Arrival(1.0, A, DEVICE, Some(Received(ORIGINAL_UNICAST, ANSWER)));
    assert Arrivals([Unicast(0.0, A, ASKER, ASK), Unicast(1.0, A, DEVICE, ANSWER)]) == [first, second];
    hide Arrivals;
    HairpinSteps(first, second);
    TrafficOfTwo(EXAMPLE_CONFIG, first, second);
  }

  lemma ShortFrames()
    ensures 4 + |Encode(ASK)| <= RECV_MAX && 4 + |Encode(ANSWER)| <= RECV_MAX
    ensures Normal(ASK) == ASK && Normal(ANSWER) == ANSWER
  {
  }

  lemma HairpinSteps(first: Arrival, second: Arrival)
    requires first == Arrival(0.0, A, ASKER, Some(Received(ORIGINAL_UNICAST, ASK)))
    requires second == Arrival(1.0, A, DEVICE, Some(Received(ORIGINAL_UNICAST, ANSWER)))
    ensures var e := Step(EXAMPLE_CONFIG, map[], first);
            e.out == [Outgoing(B, DEVICE, ORIGINAL_UNICAST, Npdu(true, None, None, Apdu([0])))]
            && Step(EXAMPLE_CONFIG, e.paths, second).out ==
               [Outgoing(A, ASKER, ORIGINAL_UNICAST,
                         Npdu(false, None, Some(SourceOf(EXAMPLE_CONFIG, A, DEVICE)), Apdu([1])))]
  {
    MacRoundTrip(DEVICE, Mac(DEVICE));
    hide Mac, MacToEndpoint;
  }

  lemma {:induction false} TrafficOfOne(cfg: Config, a: Arrival)
    ensures Traffic(cfg, [a]) == Step(cfg, map[], a).out && PathsAfter(cfg, [a]) == Step(cfg, map[], a).paths
  {
    hide Step;
    assert [a][..0] == [];
  }

  lemma {:induction false} TrafficOfTwo(cfg: Config, first: Arrival, second: Arrival)
    ensures var e := Step(cfg, map[], first);
            Traffic(cfg, [first, second]) == e.out + Step(cfg, e.paths, second).out
  {
    TrafficOfOne(cfg, first);
    hide Step, PathsAfter;
    assert [first, second][..1] == [first];
  }

  /** Each endpoint lives behind one port: it sends from there and is asked for from the other one. */
  ghost predicate OneSided(cfg: Config, run: seq<Arrival>, home: Endpoint -> Side) {
    forall a | a in run ::
      home(a.src) == a.ingress &&
      (RequestFor(cfg, a).Some? ==> home(RequestFor(cfg, a).value) == Other(a.ingress))
  }

  lemma {:induction false} LatestRequestIsInTheRun(cfg: Config, run: seq<Arrival>, device: Endpoint)
    requires LatestRequest(cfg, run, device).Some?
    ensures LatestRequest(cfg, run, device).value in run
    ensures RequestFor(cfg, LatestRequest(cfg, run, device).value) == Some(device)
  {
    hide RequestFor;
    if RequestFor(cfg, run[|run| - 1]) != Some(device) {
      LatestRequestIsInTheRun(cfg, run[..|run| - 1], device);
    }
  }

  lemma {:induction false} NoHairpin(cfg: Config, run: seq<Arrival>, a: Arrival, home: Endpoint -> Side, o: Outgoing)
    requires Monotone(run + [a]) && OneSided(cfg, run + [a], home)
    requires o in Step(cfg, PathsAfter(cfg, run), a).out && o.npdu.body.Apdu?
    ensures o.port == Other(a.ingress)
  {
    HairpinExactly(cfg, run, a);
    hide Step, RequestFor;
    assert a in run + [a];
    if LatestRequest(cfg, run, a.src).Some? {
      LatestRequestIsInTheRun(cfg, run, a.src);
      assert LatestRequest(cfg, run, a.src).value in run + [a];
    }
  }

  // ----- Announcements -----

  /** The network numbers an I-Am-Router-To-Network lists. */
  function NetworksOf(data: Octets): Option<seq<uint16>> {
    if data == [] then Some([])
    else if |data| == 1 then None
    else match NetworksOf(data[2..])
         case None => None
         case Some(rest) => Some([Join16(data[0], data[1])] + rest)
  }

  lemma {:induction false} NetworksAreRead(networks: seq<uint16>)
    ensures NetworksOf(NetworkOctets(networks)) == Some(networks)
  {
    if networks != [] {
      NetworksAreRead(networks[1..]);
      SplitJoin16(networks[0]);
      var data := NetworkOctets(networks);
      assert data[..2] == BigEndian16(networks[0]) && data[2..] == NetworkOctets(networks[1..]);
      assert data[0] == data[..2][0] && data[1] == data[..2][1];
      assert networks == [networks[0]] + networks[1..];
    }
  }

  predicate WhoIs(a: Arrival) {
    match a.frame
    case Some(Received(_, Npdu(_, _, _, NetworkMessage(kind, data)))) => kind == WHO_IS_ROUTER && |data| < 2
    case _ => false
  }

  /** An APDU for network `net` with hops left. */
  predicate AddressedTo(a: Arrival, net: uint16) {
    match a.frame
    case Some(Received(_, Npdu(_, Some(Dest(dnet, _, Some(hop))), _, Apdu(_)))) => dnet == net && hop >= 2
    case _ => false
  }

  /**
   An unrestricted Who-Is-Router-To-Network gets two answers on its own port,
   and the networks they list are exactly those the router forwards to from
   that port (the global broadcast number apart; a destination address of zero
   or six octets), always out of the other port.
   */
  lemma AnnouncementsAreExact(cfg: Config, paths: Paths, query: Arrival, o: Outgoing, a: Arrival, net: uint16)
    requires cfg.Valid() && WhoIs(query) && o in Step(cfg, paths, query).out
    requires AddressedTo(a, net) && net != GLOBAL_BROADCAST && a.ingress == query.ingress
    ensures |Step(cfg, paths, query).out| == 2 && o.port == query.ingress
    ensures o.npdu.body.NetworkMessage? && o.npdu.body.kind == I_AM_ROUTER && NetworksOf(o.npdu.body.data).Some?
    ensures Step(cfg, paths, a).out != [] <==>
            net in NetworksOf(o.npdu.body.data).value && |a.frame.value.npdu.dest.value.adr| in {0, 6}
    ensures forall sent | sent in Step(cfg, paths, a).out :: sent.port == Other(a.ingress)
  {
    NetworksAreRead([cfg.At(Other(query.ingress)).network]);
    hide NetworksOf, NetworkOctets;
    var adr := a.frame.value.npdu.dest.value.adr;
    assert |adr| == 0 ==> adr == [];
  }

  /** A Who-Is-Router for one network is answered exactly when frames for that network are forwarded. */
  lemma DirectedWhoIsIsExact(cfg: Config, paths: Paths, query: Arrival, data: Octets, a: Arrival, net: uint16)
    requires cfg.Valid() && query.frame.Some? && query.frame.value.npdu.body == NetworkMessage(WHO_IS_ROUTER, data)
    requires |data| >= 2 && net == Join16(data[0], data[1]) && net != GLOBAL_BROADCAST
    requires AddressedTo(a, net) && a.frame.value.npdu.dest.value.adr == [] && a.ingress == query.ingress
    ensures Step(cfg, paths, query).out != [] <==> Step(cfg, paths, a).out != []
    ensures forall o | o in Step(cfg, paths, query).out ::
              o.port == query.ingress && o.npdu.body == NetworkMessage(I_AM_ROUTER, BigEndian16(net))
  {
    assert NetworkOctets([net]) == BigEndian16(net);
  }

  // ----- The order of the fields -----

  /**
   A forwarded global broadcast carries both specifiers, so it is in the order
   of section 6.2.2 only if all octets of its source specifier and its hop
   count are 6, the length of the sender's address.
   */
  lemma FloodedOrderExactly(cfg: Config, paths: Paths, a: Arrival)
    requires AddressedTo(a, GLOBAL_BROADCAST)
    ensures var out := Step(cfg, paths, a).out;
            |out| == 1 && out[0].npdu.dest.Some? && out[0].npdu.source == Some(SourceOf(cfg, a.ingress, a.src))
            && (Encode(out[0].npdu) == StandardEncode(out[0].npdu) <==>
                  a.frame.value.npdu.dest.value.hop == Some(7)
                  && forall o | o in SourceOctets(SourceOf(cfg, a.ingress, a.src)) :: o == 6)
  {
    var o := Step(cfg, paths, a).out[0];
    FieldOrderExactly(o.npdu);
    hide Encode, StandardEncode;
    var octets := SourceOctets(SourceOf(cfg, a.ingress, a.src));
    assert octets[2] == 6 && octets[2] in octets;
  }

  /** So the first flood of any run, sent with the usual hop count, leaves in another order than the standard's. */
  lemma FieldOrderExample()
    ensures var flood := Npdu(false, Some(Dest(GLOBAL_BROADCAST, [], Some(255))), None, Apdu([0x10, 0x08]));
            Encodable(flood)
            && var out := Traffic(EXAMPLE_CONFIG, Arrivals([Unicast(0.0, A, ASKER, flood)]));
               |out| == 1 && Encode(out[0].npdu) != StandardEncode(out[0].npdu)
  {
    var flood := Npdu(false, Some(Dest(GLOBAL_BROADCAST, [], Some(255))), None, Apdu([0x10, 0x08]));
    var a := Arrival(0.0, A, ASKER, Some(Received(ORIGINAL_UNICAST, flood)));
    UnicastArrives(0.0, A, ASKER, flood);
    FloodedOrderExactly(EXAMPLE_CONFIG, map[], a);
    hide Encode, StandardEncode, Step, Unicast;
    assert Arrivals([Unicast(0.0, A, ASKER, flood)]) == [a];
    hide Arrivals;
    TrafficOfOne(EXAMPLE_CONFIG, a);
  }

  // ----- From octets to frames and back -----

  lemma SentFrameIsAccepted(o: Outgoing)
    requires o.fn == ORIGINAL_UNICAST || o.fn == ORIGINAL_BROADCAST
    requires 4 + |Encode(o.npdu)| <= 0xFFFF
    ensures Accept(Frame(o).frame) == Some(Received(o.fn, Normal(o.npdu)))
  {
    BvlcRoundTrip(o.fn, Encode(o.npdu));
    DecodeEncode(o.npdu);
    hide Encode, Decode, Normal;
  }

  /** An accepted datagram is longer than its body by the BVLC and NPDU headers. */
  lemma AcceptedLength(data: Octets)
    requires Accept(data).Some?
    ensures |BodyOctets(Accept(data).value.npdu.body)| + 6 <= |data|
  {
  }

  /** Whatever leaves the router on account of a received datagram is itself a frame the codec reads back. */
  lemma TrafficIsReadable(cfg: Config, paths: Paths, d: Datagram, o: Outgoing)
    requires o in Step(cfg, paths, Arrive(d)).out
    ensures Accept(Frame(o).frame) == Some(Received(o.fn, Normal(o.npdu)))
  {
    AcceptedLength(Truncated(d.data));
    hide Accept;
    OutgoingLength(cfg, paths, Arrive(d), o);
    SentFrameIsAccepted(o);
  }

  lemma OutgoingLength(cfg: Config, paths: Paths, a: Arrival, o: Outgoing)
    requires a.frame.Some? && o in Step(cfg, paths, a).out
    ensures Short(o, a.frame.value.npdu) && |Encode(o.npdu)| <= 18 + |BodyOctets(a.frame.value.npdu.body)|
  {
    OutgoingShape(cfg, paths, a, o);
    hide Step;
    assert |DestPart(o.npdu)| <= 4 && |SourcePart(o.npdu)| <= 9;
  }

  /** A frame with a short header: the body is the one received, or announces one network. */
  ghost predicate Short(o: Outgoing, received: Npdu) {
    && (o.fn == ORIGINAL_UNICAST || o.fn == ORIGINAL_BROADCAST)
    && (o.npdu.dest.Some? ==> o.npdu.dest.value.adr == [])
    && (o.npdu.source.Some? ==> |o.npdu.source.value.adr| == 6)
    && |BodyOctets(o.npdu.body)| <= 2 + |BodyOctets(received.body)|
  }

  lemma OutgoingShape(cfg: Config, paths: Paths, a: Arrival, o: Outgoing)
    requires a.frame.Some? && o in Step(cfg, paths, a).out
    ensures Short(o, a.frame.value.npdu)
  {
    hide Encode, NetworkOctets, Lookup, Purge, Mac, MacToEndpoint, Short, Join16;
    var npdu := a.frame.value.npdu;
    match npdu.body {
      case NetworkMessage(_, _) => AnnouncementShape(cfg, a.ingress, a.src, npdu);
      case Apdu(_) => ForwardedShape(cfg, paths, a, o);
    }
  }

  lemma AnnouncementShape(cfg: Config, ingress: Side, src: Endpoint, npdu: Npdu)
    requires npdu.body.NetworkMessage?
    ensures forall o | o in WhoIsReplies(cfg, ingress, src, npdu.body.data) :: Short(o, npdu)
  {
    hide Encode, Join16, NetworkOctets, BigEndian16;
    forall n: uint16
      ensures |BodyOctets(IAmRouter([n]).body)| == 3 && IAmRouter([n]).dest == None && IAmRouter([n]).source == None
    {
      OneNetwork(n);
    }
    hide IAmRouter, BodyOctets;
  }

  lemma OneNetwork(n: uint16)
    ensures |NetworkOctets([n])| == 2
  {
    assert [n][1..] == [];
  }

  lemma ForwardedShape(cfg: Config, paths: Paths, a: Arrival, o: Outgoing)
    requires a.frame.Some? && a.frame.value.npdu.body.Apdu? && o in Step(cfg, paths, a).out
    ensures Short(o, a.frame.value.npdu)
  {
    hide Encode, NetworkOctets, Lookup, Purge, Mac, MacToEndpoint, Join16, WhoIsReplies;
  }
}
