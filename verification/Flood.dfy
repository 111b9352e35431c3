/**
 Global broadcasts in an internetwork of such routers, cycles included: each
 crossing lowers the hop count by one, so floods die out, whatever other
 traffic there is.

 Routers are joined by segments. A frame put on a segment is in flight to every
 router port there that its destination reaches, the sending one included, and
 the copies are handled in any order and at any time.
 */
module Flood {
  import opened Wire
  import opened BipCodec
  import opened Router
  import opened RouterTheorems

  datatype Node = Node(cfg: Config, segmentA: int, segmentB: int) {
    function Segment(side: Side): int {
      if side == A then segmentA else segmentB
    }

    predicate Hears(side: Side, segment: int, dest: Endpoint) {
      var port := cfg.At(side);
      Segment(side) == segment && dest.port == port.udp && (dest.ip == LIMITED_BROADCAST || dest.ip == port.addr)
    }
  }

  /** A datagram in flight to one router port; `crossed` counts the routers it has been through. */
  datatype InFlight = InFlight(router: nat, side: Side, src: Endpoint, data: Octets, crossed: nat)
  datatype Net = Net(tables: seq<Paths>, pending: seq<InFlight>)

  function CopiesFor(node: Node, k: nat, segment: int, src: Endpoint, s: Send, crossed: nat): (r: seq<InFlight>)
    ensures |r| <= 2
  {
    (if node.Hears(A, segment, s.dest) then [InFlight(k, A, src, s.frame, crossed)] else [])
    + (if node.Hears(B, segment, s.dest) then [InFlight(k, B, src, s.frame, crossed)] else [])
  }

  /** The copies of one frame in flight to the first `n` routers' ports on a segment. */
  function Copies(nodes: seq<Node>, n: nat, segment: int, src: Endpoint, s: Send, crossed: nat): (r: seq<InFlight>)
    requires n <= |nodes|
    ensures |r| <= 2 * n
    ensures forall m | m in r :: m.router < n && m.data == s.frame && m.crossed == crossed
  {
    if n == 0 then []
    else Copies(nodes, n - 1, segment, src, s, crossed) + CopiesFor(nodes[n - 1], n - 1, segment, src, s, crossed)
  }

  /** What the routers hear of the frames one router sends. */
  function Spread(nodes: seq<Node>, k: nat, out: seq<Outgoing>, crossed: nat): seq<InFlight>
    requires k < |nodes|
  {
    if out == [] then []
    else
      var port := nodes[k].cfg.At(out[0].port);
      Copies(nodes, |nodes|, nodes[k].Segment(out[0].port), Endpoint(port.addr, port.udp), Frame(out[0]), crossed)
      + Spread(nodes, k, out[1..], crossed)
  }

  ghost predicate WellFormed(nodes: seq<Node>, net: Net) {
    |net.tables| == |nodes| && forall m | m in net.pending :: m.router < |nodes|
  }

  function Reaction(nodes: seq<Node>, tables: seq<Paths>, m: InFlight, now: real): Effect
    requires m.router < |nodes| == |tables|
  {
    Step(nodes[m.router].cfg, tables[m.router], Arrive(Datagram(now, m.side, m.data, m.src)))
  }

  /** Takes the datagram at `i` off and adds what its handling put in flight. */
  function Replace(pending: seq<InFlight>, i: nat, copies: seq<InFlight>): (r: seq<InFlight>)
    requires i < |pending|
    ensures forall m | m in r :: m in pending || m in copies
  {
    pending[..i] + pending[i + 1..] + copies
  }

  /** The router that pending datagram `i` is in flight to handles it. */
  function Deliver(nodes: seq<Node>, net: Net, i: nat, now: real): Net
    requires WellFormed(nodes, net) && i < |net.pending|
  {
    var m := net.pending[i];
    var e := Reaction(nodes, net.tables, m, now);
    Net(net.tables[m.router := e.paths], Replace(net.pending, i, Spread(nodes, m.router, e.out, m.crossed + 1)))
  }

  // ----- Floods and other traffic -----

  /** The frame the router makes of a datagram, which it reads up to its limit. */
  function Heard(m: InFlight): Option<Received> {
    Accept(Truncated(m.data))
  }

  /** An APDU to the global broadcast network. */
  predicate IsFlood(m: InFlight) {
    match Heard(m)
    case Some(Received(_, Npdu(_, Some(Dest(net, _, Some(_))), _, Apdu(_)))) => net == GLOBAL_BROADCAST
    case _ => false
  }

  function Hop(m: InFlight): byte
    requires IsFlood(m)
  {
    Heard(m).value.npdu.dest.value.hop.value
  }

  /** `m` descends from `origin`: same APDU and expecting-reply bit, and one hop fewer for each router crossed since. */
  predicate DescendsFrom(m: InFlight, origin: InFlight)
    ensures DescendsFrom(m, origin) ==> IsFlood(m) && IsFlood(origin)
    ensures DescendsFrom(m, origin) && m.crossed != origin.crossed ==> 0 < m.crossed - origin.crossed < Hop(origin)
  {
    && IsFlood(m) && IsFlood(origin)
    && Heard(m).value.npdu.body == Heard(origin).value.npdu.body
    && Heard(m).value.npdu.expectingReply == Heard(origin).value.npdu.expectingReply
    && m.crossed - origin.crossed == Hop(origin) - Hop(m)
    && (m.crossed == origin.crossed || (m.crossed > origin.crossed && Hop(m) > 0))
  }

  /** One router's reaction to a flood: a single broadcast out of the other port with one hop fewer, or silence. */
  lemma Crossing(cfg: Config, paths: Paths, m: InFlight, now: real)
    requires IsFlood(m)
    ensures var e := Step(cfg, paths, Arrive(Datagram(now, m.side, m.data, m.src)));
            var npdu := Heard(m).value.npdu;
            e.paths == paths
            && e.out == if Hop(m) <= 1 then []
                        else [Broadcast(cfg, Other(m.side),
                                        Npdu(npdu.expectingReply, Some(Dest(GLOBAL_BROADCAST, [], Some(Hop(m) - 1))),
                                             Some(SourceOf(cfg, m.side, m.src)), npdu.body))]
  {
    hide Accept, Mac;
  }

  /** Nothing but a flood makes a router send to another network: what else it sends has no destination specifier. */
  lemma OthersHaveNoDestination(cfg: Config, paths: Paths, m: InFlight, now: real)
    requires !IsFlood(m)
    ensures forall o | o in Step(cfg, paths, Arrive(Datagram(now, m.side, m.data, m.src))).out :: o.npdu.dest == None
  {
    hide Accept, Mac, MacToEndpoint, Lookup, Purge, NetworkOctets, Join16, SourceOf, Truncated, Encodable, WhoIsReplies;
    if Heard(m).Some? {
      AcceptedHop(Truncated(m.data));
      match Heard(m).value.npdu.body {
        case NetworkMessage(_, data) => AnnouncementsHaveNoDestination(cfg, m.side, m.src, data);
        case Apdu(_) =>
      }
    }
  }

  lemma AnnouncementsHaveNoDestination(cfg: Config, ingress: Side, src: Endpoint, data: Octets)
    ensures forall o | o in WhoIsReplies(cfg, ingress, src, data) :: o.npdu.dest == None
  {
    hide NetworkOctets, Join16;
  }

  /** A frame with a destination specifier was read with its hop count. */
  lemma AcceptedHop(data: Octets)
    requires Accept(data).Some?
    ensures Accept(data).value.npdu.dest.Some? ==> Accept(data).value.npdu.dest.value.hop.Some?
  {
    var (fn, payload) := ParseBvlc(data).value;
    EncodeDecode(if fn == FORWARDED then payload[6..] else payload);
    hide Decode, Encode;
  }

  /** A frame is heard as it was sent, or, longer than a router reads, not at all. */
  lemma HeardAsSent(data: Octets)
    requires Accept(data).Some?
    ensures Accept(Truncated(data)) == Accept(data) || Accept(Truncated(data)) == None
  {
    if |data| > RECV_MAX {
      hide Decode;
    }
  }

  lemma {:induction false} SpreadFrom(nodes: seq<Node>, k: nat, out: seq<Outgoing>, crossed: nat)
    requires k < |nodes|
    ensures forall m | m in Spread(nodes, k, out, crossed) ::
              m.router < |nodes| && m.crossed == crossed && exists o :: o in out && m.data == Frame(o).frame
    ensures |out| <= 1 ==> |Spread(nodes, k, out, crossed)| <= 2 * |nodes| * |out|
  {
    hide Frame, Copies;
    if out != [] {
      SpreadFrom(nodes, k, out[1..], crossed);
      forall m | m in Spread(nodes, k, out, crossed)
        ensures m.router < |nodes| && m.crossed == crossed && exists o :: o in out && m.data == Frame(o).frame
      {
        if m in Spread(nodes, k, out[1..], crossed) {
          var o :| o in out[1..] && m.data == Frame(o).frame;
          assert o in out;
        } else {
          assert out[0] in out;
        }
      }
      assert |out| == 1 ==> Spread(nodes, k, out[1..], crossed) == [];
    }
  }

  /** What a crossing puts in flight is a flood one hop and one router further on, or too long to be heard. */
  lemma DescendantsOf(nodes: seq<Node>, tables: seq<Paths>, m: InFlight, now: real, origin: InFlight)
    requires |tables| == |nodes| && m.router < |nodes| && DescendsFrom(m, origin)
    ensures var e := Reaction(nodes, tables, m, now);
            var next := Spread(nodes, m.router, e.out, m.crossed + 1);
            e.paths == tables[m.router]
            && |next| <= 2 * |nodes| && (Hop(m) == 0 ==> next == [])
            && forall n | n in next ::
                 n.router < |nodes| && (IsFlood(n) ==> DescendsFrom(n, origin) && Hop(n) == Hop(m) - 1)
  {
    hide Accept, Frame, Step, Spread, Arrive, SourceOf, Heard, IsFlood, Hop, DescendsFrom, Normal;
    var cfg := nodes[m.router].cfg;
    Crossing(cfg, tables[m.router], m, now);
    var e := Reaction(nodes, tables, m, now);
    SpreadFrom(nodes, m.router, e.out, m.crossed + 1);
    if e.out != [] {
      var o := e.out[0];
      assert e.out == [o];
      TrafficIsReadable(cfg, tables[m.router], Datagram(now, m.side, m.data, m.src), o);
      forall n | n in Spread(nodes, m.router, e.out, m.crossed + 1)
        ensures IsFlood(n) ==> DescendsFrom(n, origin) && Hop(n) == Hop(m) - 1
      {
        CopyDescends(m, origin, o, n);
      }
    }
  }

  lemma CopyDescends(m: InFlight, origin: InFlight, o: Outgoing, n: InFlight)
    requires DescendsFrom(m, origin) && Hop(m) > 1 && n.data == Frame(o).frame && n.crossed == m.crossed + 1
    requires Accept(n.data) == Some(Received(o.fn, Normal(o.npdu)))
    requires o.npdu.dest == Some(Dest(GLOBAL_BROADCAST, [], Some(Hop(m) - 1)))
    requires o.npdu.body == Heard(m).value.npdu.body && o.npdu.expectingReply == Heard(m).value.npdu.expectingReply
    ensures IsFlood(n) ==> DescendsFrom(n, origin) && Hop(n) == Hop(m) - 1
  {
    HeardAsSent(n.data);
    hide Accept, Frame, Truncated;
  }

  /** Other traffic starts no flood. */
  lemma {:induction false} OthersStartNoFlood(nodes: seq<Node>, tables: seq<Paths>, m: InFlight, now: real)
    requires |tables| == |nodes| && m.router < |nodes| && !IsFlood(m)
    ensures forall n | n in Spread(nodes, m.router, Reaction(nodes, tables, m, now).out, m.crossed + 1) ::
              n.router < |nodes| && !IsFlood(n)
  {
    var cfg, d := nodes[m.router].cfg, Datagram(now, m.side, m.data, m.src);
    var out := Reaction(nodes, tables, m, now).out;
    OthersHaveNoDestination(cfg, tables[m.router], m, now);
    hide Accept, Frame, Step, Spread, Arrive, Truncated;
    SpreadFrom(nodes, m.router, out, m.crossed + 1);
    forall n | n in Spread(nodes, m.router, out, m.crossed + 1) ensures !IsFlood(n) {
      var o :| o in out && n.data == Frame(o).frame;
      TrafficIsReadable(cfg, tables[m.router], d, o);
      HeardAsSent(Frame(o).frame);
    }
  }

  // ----- Termination -----

  function Power(b: nat, e: nat): (r: nat)
    ensures b > 0 ==> r > 0
  {
    if e == 0 then 1 else b * Power(b, e - 1)
  }

  /** A bound on what one flood frame with `hop` hops left can still cause among `n` routers. */
  function Weight(n: nat, hop: nat): (r: nat)
    ensures r > 0
  {
    Power(2 * n + 1, hop)
  }

  /** The floods in flight, weighed by their hops; other traffic weighs nothing. */
  function Measure(n: nat, pending: seq<InFlight>): nat {
    if pending == [] then 0
    else (if IsFlood(pending[0]) then Weight(n, Hop(pending[0])) else 0) + Measure(n, pending[1..])
  }

  lemma {:induction false} MeasureAdds(n: nat, a: seq<InFlight>, b: seq<InFlight>)
    ensures Measure(n, a + b) == Measure(n, a) + Measure(n, b)
  {
    hide IsFlood, Hop, Weight;
    if a == [] {
      assert a + b == b;
    } else {
      assert (a + b)[1..] == a[1..] + b;
      MeasureAdds(n, a[1..], b);
    }
  }

  lemma {:induction false} MeasureBounded(n: nat, pending: seq<InFlight>, hop: nat)
    requires forall m | m in pending :: IsFlood(m) ==> Hop(m) == hop
    ensures Measure(n, pending) <= |pending| * Weight(n, hop)
  {
    hide IsFlood, Hop, Weight;
    if pending != [] {
      assert pending[0] in pending;
      MeasureBounded(n, pending[1..], hop);
      assert |pending| * Weight(n, hop) == (|pending| - 1) * Weight(n, hop) + Weight(n, hop);
    }
  }

  lemma WeightOfCopies(n: nat, hop: nat, copies: nat)
    requires hop > 0 && copies <= 2 * n
    ensures copies * Weight(n, hop - 1) < Weight(n, hop)
  {
    var w := Weight(n, hop - 1);
    assert Weight(n, hop) == (2 * n + 1) * w;
    assert copies * w <= (2 * n) * w;
    assert (2 * n + 1) * w == (2 * n) * w + w;
  }

  lemma {:induction false} MeasureWithout(n: nat, pending: seq<InFlight>, i: nat)
    requires i < |pending|
    ensures Measure(n, pending) ==
            Measure(n, pending[..i] + pending[i + 1..])
            + if IsFlood(pending[i]) then Weight(n, Hop(pending[i])) else 0
  {
    hide IsFlood, Hop, Weight, Measure;
    var m, before, after := pending[i], pending[..i], pending[i + 1..];
    assert pending == before + ([m] + after);
    MeasureAdds(n, before, [m] + after);
    MeasureAdds(n, [m], after);
    MeasureAdds(n, before, after);
    MeasureOfOne(n, m);
  }

  lemma {:induction false} MeasureOfOne(n: nat, m: InFlight)
    ensures Measure(n, [m]) == if IsFlood(m) then Weight(n, Hop(m)) else 0
  {
    hide IsFlood, Hop, Weight;
    assert [m][1..] == [] && Measure(n, []) == 0;
  }

  lemma {:induction false} ReplacementDecreases(n: nat, pending: seq<InFlight>, i: nat, copies: seq<InFlight>)
    requires i < |pending| && IsFlood(pending[i]) && |copies| <= 2 * n
    requires Hop(pending[i]) == 0 ==> copies == []
    requires forall m | m in copies :: IsFlood(m) ==> Hop(m) == Hop(pending[i]) - 1
    ensures Measure(n, Replace(pending, i, copies)) < Measure(n, pending)
  {
    hide IsFlood, Hop, Weight, Measure;
    var m, rest := pending[i], pending[..i] + pending[i + 1..];
    MeasureWithout(n, pending, i);
    MeasureAdds(n, rest, copies);
    if copies == [] {
      assert rest + copies == rest;
    } else {
      MeasureBounded(n, copies, Hop(m) - 1);
      WeightOfCopies(n, Hop(m), |copies|);
    }
  }

  lemma {:induction false} NoFloodWeighsNothing(n: nat, pending: seq<InFlight>)
    requires forall m | m in pending :: !IsFlood(m)
    ensures Measure(n, pending) == 0
  {
    hide IsFlood, Hop, Weight;
    if pending != [] {
      assert pending[0] in pending;
      NoFloodWeighsNothing(n, pending[1..]);
    }
  }

  ghost predicate Descended(pending: seq<InFlight>, origins: seq<InFlight>) {
    forall m | m in pending && IsFlood(m) :: exists origin :: origin in origins && DescendsFrom(m, origin)
  }

  /**
   A flood's delivery lowers the measure and leaves every table alone; any
   other delivery keeps the measure; and every flood in flight still descends
   from one of the origins.
   */
  lemma {:induction false} DeliveryDecreases(nodes: seq<Node>, net: Net, i: nat, now: real, origins: seq<InFlight>)
    requires WellFormed(nodes, net) && Descended(net.pending, origins) && i < |net.pending|
    ensures var next := Deliver(nodes, net, i, now);
            var before, after := Measure(|nodes|, net.pending), Measure(|nodes|, next.pending);
            WellFormed(nodes, next) && Descended(next.pending, origins)
            && if IsFlood(net.pending[i]) then next.tables == net.tables && after < before else after == before
  {
    hide IsFlood, DescendsFrom, Hop, Measure, Reaction, Spread, Replace;
    var m := net.pending[i];
    assert m in net.pending;
    var copies := Spread(nodes, m.router, Reaction(nodes, net.tables, m, now).out, m.crossed + 1);
    if IsFlood(m) {
      var origin :| origin in origins && DescendsFrom(m, origin);
      DescendantsOf(nodes, net.tables, m, now, origin);
      ReplacementDecreases(|nodes|, net.pending, i, copies);
      assert net.tables[m.router := net.tables[m.router]] == net.tables;
    } else {
      OthersStartNoFlood(nodes, net.tables, m, now);
      OthersReplaced(|nodes|, net.pending, i, copies);
    }
  }

  lemma {:induction false} OthersReplaced(n: nat, pending: seq<InFlight>, i: nat, copies: seq<InFlight>)
    requires i < |pending| && !IsFlood(pending[i]) && forall m | m in copies :: !IsFlood(m)
    ensures Measure(n, Replace(pending, i, copies)) == Measure(n, pending)
  {
    hide IsFlood, Hop, Weight, Measure;
    MeasureWithout(n, pending, i);
    MeasureAdds(n, pending[..i] + pending[i + 1..], copies);
    NoFloodWeighsNothing(n, copies);
  }

  datatype Delivery = Delivery(index: nat, now: real)

  /** A schedule picks a datagram in flight each time, in any order and at any times. */
  ghost predicate Feasible(nodes: seq<Node>, net: Net, schedule: seq<Delivery>)
    requires WellFormed(nodes, net)
    decreases |schedule|
  {
    schedule == [] ||
    (schedule[0].index < |net.pending|
     && var next := Deliver(nodes, net, schedule[0].index, schedule[0].now);
        WellFormed(nodes, next) && Feasible(nodes, next, schedule[1..]))
  }

  ghost function After(nodes: seq<Node>, net: Net, schedule: seq<Delivery>): Net
    requires WellFormed(nodes, net) && Feasible(nodes, net, schedule)
    decreases |schedule|
  {
    if schedule == [] then net
    else After(nodes, Deliver(nodes, net, schedule[0].index, schedule[0].now), schedule[1..])
  }

  /** How many of the deliveries are of floods. */
  ghost function FloodDeliveries(nodes: seq<Node>, net: Net, schedule: seq<Delivery>): nat
    requires WellFormed(nodes, net) && Feasible(nodes, net, schedule)
    decreases |schedule|
  {
    if schedule == [] then 0
    else (if IsFlood(net.pending[schedule[0].index]) then 1 else 0)
         + FloodDeliveries(nodes, Deliver(nodes, net, schedule[0].index, schedule[0].now), schedule[1..])
  }

  lemma {:induction false} FloodsDescend(nodes: seq<Node>, net: Net, schedule: seq<Delivery>, origins: seq<InFlight>)
    requires WellFormed(nodes, net) && Descended(net.pending, origins) && Feasible(nodes, net, schedule)
    ensures FloodDeliveries(nodes, net, schedule) <= Measure(|nodes|, net.pending)
    ensures Descended(After(nodes, net, schedule).pending, origins)
    decreases |schedule|
  {
    if schedule != [] {
      hide Deliver, IsFlood, Hop, Measure, Descended;
      var next := Deliver(nodes, net, schedule[0].index, schedule[0].now);
      DeliveryDecreases(nodes, net, schedule[0].index, schedule[0].now, origins);
      FloodsDescend(nodes, next, schedule[1..], origins);
    }
  }

  /**
   Whatever the topology, the traffic in flight at first and the order of
   deliveries, at most `Measure` of them are of floods; and every flood in
   flight carries to DNET 0xFFFF the APDU and expecting-reply bit of one that
   was in flight at first, whose hop count has lost one for each router crossed
   since: fewer of them than that hop count.
   */
  lemma {:induction false} FloodTerminates(nodes: seq<Node>, net: Net, schedule: seq<Delivery>)
    requires WellFormed(nodes, net) && Feasible(nodes, net, schedule)
    ensures FloodDeliveries(nodes, net, schedule) <= Measure(|nodes|, net.pending)
    ensures Descended(After(nodes, net, schedule).pending, net.pending)
  {
    EachIsItsOrigin(net.pending);
    hide Descended;
    FloodsDescend(nodes, net, schedule, net.pending);
  }

  lemma EachIsItsOrigin(pending: seq<InFlight>)
    ensures Descended(pending, pending)
  {
    hide Heard;
    forall m | m in pending && IsFlood(m) ensures exists origin :: origin in pending && DescendsFrom(m, origin) {
      assert DescendsFrom(m, m);
    }
  }
}
