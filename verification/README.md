# Protocol logic of the BACnet interoperability adapters

The repository wraps BACnet stacks in containers, and most of it is plumbing. This project
models the parts that are protocol logic of the adapters' own, and proves what they promise.

| file | what it models |
|---|---|
| `Wire.dfy`, `Identifiers.dfy` | octets, machine integers, optional values; the numbers of object types and properties |
| `BipCodec.dfy` | the BVLC and NPDU codec of the BACnet/IP router |
| `Router.dfy`, `RouterTheorems.dfy`, `Forwarding.dfy` | the two-port router: forwarding, hop counts, source insertion, the return-path table that expires by time; and what leaves it, in octets and in the numbers of the configuration |
| `Flood.dfy` | global broadcasts in any internetwork of such routers, cycles and other traffic included |
| `Probe.dfy` | the I-Am detector of the smoke test, a second reader of the same frames |
| `Pcap.dfy` | the capture writer: IPv4 checksum, record framing, captured datagrams |
| `DeviceServer.dfy`, `CovTheorems.dfy`, `Notifications.dfy`, `AlarmTheorems.dfy`, `DeviceModel.dfy` | the System.IO.BACnet device: COV subscriptions with lazy expiry, high-limit alarms with acknowledgement, and the objects and alarm states it makes of a fixture |
| `Tags.dfy`, `Store.dfy`, `WriteMultiple.dfy`, `ReadMultiple.dfy` | the Go adapter: tag readers, the object store with its order index, WritePropertyMultiple, ReadPropertyMultiple |
| `ReadRange.dfy` | Trend Log range selection in the Go and the C# adapter |
| `Files.dfy` | stream and record files on the C# device, and the client loops that fetch them |
| `Numerals.dfy`, `Argv.dfy`, `ArgvRoundTrip.dfy` | a fixture printed as arguments in Python and read back by the loop of the C server |
| `Destinations.dfy` | the text form of a BACnetDestination, printed and found again |

Most results relate a model to a simpler one, to its history or to its inverse. So that these do not
rest on shared definitions, each component also has results in plain numbers and texts, the
protocol's own (`Forwarding`, `Notifications`, and the members named `...InNumbers` and
`...Exactly`): which frames leave, who is notified, which writes are granted, where they land.

How the models are built. Objects that change are classes with the program's fields, and their
methods are proved against functions on plain values (`Router.Step`, `DeviceServer.Store`,
`Store.Applied`, `Argv.Run` and so on); the theorems are about runs of those functions. Time is
an input that does not go back. A socket is the list of datagrams handed to it, and the
notification queue is the list of what was queued. An exception is an error value.

Assumptions. The router's two network numbers differ and lie in 1..65534 (`Router.Config.Valid`,
required only where a theorem needs it). The device storage raises one change event for every
write it performs, after storing the value.

Where the code and what is said about it disagree, the models follow the code:

- The router's codec says that the hop count goes "immediately after DADR, before SNET" in
  ASHRAE order (`adapters/bip-router/bip_router.py:9`). Section 6.2.2 of ANSI/ASHRAE 135 puts it
  after the source specifier. `BipCodec.FieldOrderExactly` says which frames come out the same,
  `RouterTheorems.FloodedOrderExactly` what that means for forwarded global broadcasts, and
  `RouterTheorems.FieldOrderExample` is a received broadcast that leaves in the other order.
- The probe does not look at the network-message bit nor at the BVLC length
  (`scripts/whois-probe.py:27-66`). `Probe.ProbeAgreesWithRouter` says on all datagrams when it
  agrees with the router; `Probe.NetworkMessageExample` and `Probe.WrongLengthExample` are
  datagrams on which it does not.
- The capture's global header declares a snapshot length of 65535
  (`scripts/dissect-fixtures.py:187`), but the writer packs payloads of 65494 to 65507 octets,
  whose records are longer. `Pcap.WritePcap` says exactly when a reader that honours the field
  recovers the payloads, and `Pcap.OverlongRecordExample` is a capture that it refuses.
- An alarm's event names the default limit, 80 (`adapters/sysiobacnet/src/DeviceServer.cs:931`),
  while the alarm is evaluated against the stored High_Limit, which clients may write.
  `AlarmTheorems.EventNamesLimitExactly` says when the limit named is the one exceeded, and
  `AlarmTheorems.WrongLimitExample` is a value of 60 reported to exceed 80.
- The return path is keyed by endpoint and not by port, so a frame can leave by the port it came
  in on. `RouterTheorems.HairpinExactly` says exactly when, and `RouterTheorems.HairpinExample`
  is a run of two datagrams in which it happens.
- The C# range selection adds a count in 32 bits (`adapters/sysiobacnet/src/DeviceServer.cs:647`).
  `ReadRange.CsMeetsMeaningExactly` says exactly when that loses records, and
  `ReadRange.OverflowExample` is a request for which it does. The item count at line 664 wraps a
  second time, so that the reply then announces as many items as were asked for and sends none:
  `ReadRange.AnnouncedIsSentExactly`, `ReadRange.OverflowLosesRecords`.
- An alarm that ended before it was acknowledged stays unacknowledged until the next one:
  `AlarmTheorems.MissedAcknowledgementIsFinal`, with `AlarmTheorems.MissedAcknowledgementExample`,
  in which every acknowledgement is refused.
- An empty description that was written reads back as the object's name:
  the exception in `WriteMultiple.LastWriteWins`.

## Model

| member | source | states |
|---|---|---|
| BipCodec.BvlcRoundTrip | adapters/bip-router/bip_router.py:100-112 | the BVLC parser gives back function and payload exactly when the frame length fits 16 bits; a longer frame, whose length field is truncated, is rejected |
| BipCodec.BvlcParseWrap | adapters/bip-router/bip_router.py:100-112 | any frame that parses is the wrapping of what it parses to: parser and printer are inverse on the other side too |
| BipCodec.EncodeNpdu | adapters/bip-router/bip_router.py:174-205 | the growing buffer, its control octet filled in late, is the frame whose sections the decoder theorems read back |
| BipCodec.DecodeNpdu | adapters/bip-router/bip_router.py:122-171 | the running-offset decoder, every early rejection included, is the section-by-section reading the theorems are about |
| BipCodec.DecodeEncode | adapters/bip-router/bip_router.py:122-205 | every encodable NPDU decodes to all of its fields, an absent hop count coming back as 255 |
| BipCodec.EncodeDecode | adapters/bip-router/bip_router.py:122-205 | re-encoding whatever decodes gives the same octets with only the unread bits of the control octet cleared (mask 0xAC) |
| BipCodec.DecodeIffEncoded | adapters/bip-router/bip_router.py:122-205 | the encoder alone determines the decoder: a payload decodes to x if and only if, its unread bits cleared, it is the encoding of x |
| BipCodec.IgnoredBits | adapters/bip-router/bip_router.py:122-171 | decoding does not depend on the four control bits outside 0xAC |
| BipCodec.FieldOrderExactly | adapters/bip-router/bip_router.py:174-205 | the frame is the one in the field order of section 6.2.2 exactly when it does not carry both specifiers, or the source specifier only repeats the hop octet |
| BipCodec.MacRoundTrip | adapters/bip-router/bip_router.py:208-217 | an address octet string means an endpoint exactly when it is the one printed for it: six octets, IP then port |
| Router.Router.constructor | adapters/bip-router/bip_router.py:220-227 | a router starts without return paths and having sent nothing |
| Router.Router.Remember | adapters/bip-router/bip_router.py:256-259 | the path for a device is replaced, to expire 30 seconds from now; all others stay |
| Router.Router.LookupReturn | adapters/bip-router/bip_router.py:261-268 | an entry is found up to and including the instant it expires; later it is deleted and not found |
| Router.Router.EncodeIAmRouter | adapters/bip-router/bip_router.py:115-119 | the hand-built announcement frame is the codec's own encoding of an I-Am-Router message listing the networks |
| Router.Router.HandleWhoIsRouter | adapters/bip-router/bip_router.py:270-287 | a directed and a broadcast announcement on the asking port, or silence |
| Router.Router.ForwardDnet | adapters/bip-router/bip_router.py:289-349 | every branch of forwarding by network number: hop check, flood, remote broadcast, delivery with a remembered path, drop; nothing else is sent or remembered |
| Router.Router.ForwardLocalBroadcast | adapters/bip-router/bip_router.py:351-363 | one broadcast on the other port under the sender's network and address |
| Router.Router.ForwardReturnPath | adapters/bip-router/bip_router.py:365-377 | a plain unicast goes to the requester in force under the device's own address, or nowhere; the table only loses an expired entry |
| Router.Router.Handle | adapters/bip-router/bip_router.py:379-407 | one datagram has exactly the effect the step function gives to its decoded frame, rejected datagrams none |
| Router.Router.Serve | adapters/bip-router/bip_router.py:409-422 | over any sequence of datagrams, each cut at 2048 octets, the table and everything sent are those of the run the theorems speak of |
| RouterTheorems.StepPaths | adapters/bip-router/bip_router.py:256-268 | a step adds exactly the path of a forwarded unicast request, or drops the expired path of a plain-unicast sender, or leaves the table alone |
| RouterTheorems.ReturnPathRefinesHistory | adapters/bip-router/bip_router.py:256-268 | after any run with a clock that does not go back, a lookup gives requester and port of the latest request for the device if it is at most 30 seconds old, and nothing otherwise |
| RouterTheorems.EntriesComeFromRequests | adapters/bip-router/bip_router.py:336-349 | every stored entry, expired or not, is the latest unicast request for that device with hops left |
| RouterTheorems.DeletionIsUnobservable | adapters/bip-router/bip_router.py:261-268 | the traffic of any run is that of a router that keeps its whole history and never deletes |
| RouterTheorems.SourceIsInserted | adapters/bip-router/bip_router.py:289-377 | a frame that leaves with a source specifier is alone, names the ingress network and the sender's address, and carries the APDU unchanged |
| RouterTheorems.ReplyIsDelivered | adapters/bip-router/bip_router.py:317-349 | a frame addressed to such a source is delivered to that sender as plain unicast, stripped of both specifiers |
| RouterTheorems.LatestSurvives | adapters/bip-router/bip_router.py:256-259 | frames that ask for other devices do not change whose request for a device is the latest |
| RouterTheorems.AddressReversal | adapters/bip-router/bip_router.py:289-407 | end to end over three frames with any traffic in between: the reply reaches the original sender, and that sender's plain answer goes back to the replier with the same APDU up to 30 seconds later and not at all afterwards, unless a later request intervenes |
| RouterTheorems.HairpinExactly | adapters/bip-router/bip_router.py:261-268 | an APDU leaves by its ingress port if and only if it is plain unicast from an endpoint whose latest request, still in force, came in on that port |
| RouterTheorems.HairpinExample | adapters/bip-router/bip_router.py:336-377 | a request for a device on the other network and then a plain unicast from that device's endpoint on the requester's own port: two datagrams, and the second leaves by the port it came in on |
| RouterTheorems.NoHairpin | adapters/bip-router/bip_router.py:365-377 | when every endpoint lives behind one port, every APDU leaves by the other one |
| RouterTheorems.NetworksAreRead | adapters/bip-router/bip_router.py:115-119 | a reader of the announcement recovers the announced networks in order |
| RouterTheorems.AnnouncementsAreExact | adapters/bip-router/bip_router.py:270-349 | the networks announced on a port are exactly those to which frames with hops left and an address of 0 or 6 octets are forwarded from it, always out of the other port |
| RouterTheorems.DirectedWhoIsIsExact | adapters/bip-router/bip_router.py:270-349 | a Who-Is-Router for one network is answered if and only if frames for it are forwarded |
| RouterTheorems.FloodedOrderExactly | adapters/bip-router/bip_router.py:299-315 | a forwarded global broadcast is in the field order of section 6.2.2 if and only if its new hop count and every octet of its source specifier are 6 |
| RouterTheorems.FieldOrderExample | adapters/bip-router/bip_router.py:299-315 | a Who-Is to DNET 0xFFFF with hop count 255: the frame the router makes of it differs from the one in the standard's order |
| RouterTheorems.SentFrameIsAccepted | adapters/bip-router/bip_router.py:100-205 | what the router puts on the wire is accepted by a router and decodes to what was meant |
| RouterTheorems.TrafficIsReadable | adapters/bip-router/bip_router.py:379-422 | for any datagram received, whatever leaves because of it fits its length field and reads back |
| Forwarding.ForwardingIsExact | adapters/bip-router/bip_router.py:289-407 | after any run, for any APDU: a local broadcast goes to all behind the other port, a plain unicast to whoever last asked its sender within 30 seconds, a global or remote broadcast onward, an addressed message to its station, each with the stated port, address, function, source specifier, hop count and reply bit; nothing else leaves |
| Forwarding.AddressedForwarding | adapters/bip-router/bip_router.py:289-349 | what leaves for an APDU with a destination network, by network number, hop count and address length |
| Forwarding.PlainForwarding | adapters/bip-router/bip_router.py:351-377 | what leaves for one without: local broadcasts, answers within 30 seconds of being asked, and drops |
| Forwarding.NetworkMessagesAreAnsweredExactly | adapters/bip-router/bip_router.py:270-287 | Who-Is-Router about the other network or none is answered twice, as unicast 0x0A and as broadcast 0x0B, with that network's number; every other network message is not |
| Forwarding.BroadcastsAreAnswered | adapters/bip-router/bip_router.py:289-407 | address reversal for every local, remote and global broadcast, with no assumption on what left |
| Forwarding.AcceptedExactly | adapters/bip-router/bip_router.py:379-416 | which octets are accepted: type, length and function of the first 2048, with the origin of a forwarded NPDU skipped |
| Forwarding.FrameOctets | adapters/bip-router/bip_router.py:100-205 | the octets of every frame sent, control bits, addresses and lengths written out |
| Flood.Crossing | adapters/bip-router/bip_router.py:289-315 | a router turns a DNET 0xFFFF frame it hears into one broadcast on the other port with the same APDU and reply bit and a hop exactly one lower, or is silent at hop 1 or 0, and its table does not change |
| Flood.DescendantsOf | adapters/bip-router/bip_router.py:289-315 | every copy a crossing puts in flight that a router can hear still descends from the same origin, one hop fewer and one router further on |
| Flood.OthersStartNoFlood | adapters/bip-router/bip_router.py:270-377 | handling anything but a flood puts no flood in flight |
| Flood.DeliveryDecreases | adapters/bip-router/bip_router.py:289-315 | whatever is in flight, delivering a flood strictly lowers a measure over the pending hops and leaves every table alone, and any other delivery keeps the measure |
| Flood.FloodTerminates | adapters/bip-router/bip_router.py:289-315 | in any topology, beside any other traffic and floods, in any order of deliveries, at most that measure of them are of floods; every flood in flight has the APDU and reply bit of one that was there at first and has crossed fewer routers than that had hops |
| Probe.LooksLikeIAm | scripts/whois-probe.py:27-66 | the probe says yes exactly to frames in which the router's decoder, the network-message bit cleared, finds an APDU that starts with 10 00 |
| Probe.ProbeAgreesWithRouter | scripts/whois-probe.py:27-66 | on every datagram at all, the router finds an I-Am if and only if the probe does, the BVLC is sound and the network-message bit is clear |
| Probe.NetworkMessageExample | scripts/whois-probe.py:27-66 | eight octets of a network message that the probe takes for an I-Am and the router does not |
| Probe.WrongLengthExample | scripts/whois-probe.py:27-66 | eight octets whose BVLC length says nine: the probe finds an I-Am, the router drops them |
| Pcap.FoldKeepsResidue | scripts/dissect-fixtures.py:192-194 | folding the carries keeps the sum modulo 65535 and never turns a sum into zero |
| Pcap.ChecksumFoldsToOnes | scripts/dissect-fixtures.py:192-195 | storing the complement of the folded sum makes the whole fold to 0xFFFF (section 3.1 of RFC 791) |
| Pcap.FoldLoop | scripts/dissect-fixtures.py:192-194 | the loop ends with a 16-bit sum congruent to the one it started from |
| Pcap.PacketIsRead | scripts/dissect-fixtures.py:186-197 | a strict reader that checks lengths and the header checksum recovers the payload of each packet |
| Pcap.RecordsAreRead | scripts/dissect-fixtures.py:186-199 | a reader that honours every length, the snapshot length included, reads the records back in order, one second apart and none cut short, if and only if no packet exceeds 65535 octets |
| Pcap.WritePcap | scripts/dissect-fixtures.py:186-199 | the writer fails exactly when a length or a time stamp cannot be packed; otherwise the reader recovers all payloads in order if none is longer than 65493 octets, and refuses the file if one is |
| Pcap.OverlongRecordExample | scripts/dissect-fixtures.py:186-199 | a capture of one payload of 65494 octets, which the writer packs and its own header excludes |
| Pcap.DatagramIsAccepted | scripts/dissect-fixtures.py:179-183 | a captured APDU datagram, when its length fits, is read by the router's decoder as that APDU and nothing else |
| DeviceServer.Server.QueueNotification | adapters/sysiobacnet/src/DeviceServer.cs:556-582 | one notification with the values stored now, status flags at most once |
| DeviceServer.Server.OnSubscribe | adapters/sysiobacnet/src/DeviceServer.cs:484-534 | reply, list and initial notification of a subscription, renewal or cancellation, errors included; expired entries are gone even when the request fails |
| DeviceServer.Server.NotifySubscribers | adapters/sysiobacnet/src/DeviceServer.cs:546-553 | walking the list changes nothing but the queue |
| DeviceServer.Server.OnChangeOfValue | adapters/sysiobacnet/src/DeviceServer.cs:536-554 | the alarm and its re-entrant change events are finished before the list is walked |
| DeviceServer.Server.WriteStorage | adapters/sysiobacnet/src/DeviceServer.cs:536-537 | a stored write raises its change event, an unknown property changes nothing |
| DeviceServer.Server.EvaluateAlarm | adapters/sysiobacnet/src/DeviceServer.cs:862-935 | a change of state moves the alarm, writes three properties and queues one event with its states, time stamp, value and the limit the code names; without one nothing changes |
| DeviceServer.Server.OnWrite | adapters/sysiobacnet/src/DeviceServer.cs:357-363 | a client's write is attributed to that client and to nobody afterwards |
| DeviceServer.Server.OnAcknowledgeAlarm | adapters/sysiobacnet/src/DeviceServer.cs:978-1014 | the reply, and that only a granted acknowledgement changes anything |
| DeviceServer.Server.OnGetEventInformation | adapters/sysiobacnet/src/DeviceServer.cs:953-976 | exactly the objects that are not normal or have an unacknowledged transition, in identifier order, each once |
| CovTheorems.RemoveExpiredKeeps | adapters/sysiobacnet/src/DeviceServer.cs:460-464 | purging keeps exactly the unexpired entries and never makes two of one key |
| CovTheorems.NoticesOf | adapters/sysiobacnet/src/DeviceServer.cs:547-553 | a walk over a list without duplicates notifies every monitoring entry and no other, each key once |
| CovTheorems.AnnounceIsExact | adapters/sysiobacnet/src/DeviceServer.cs:543-553 | a change event notifies exactly the table's unexpired monitoring keys, as if entries vanished the instant they expired |
| CovTheorems.SubscribeRepresents | adapters/sysiobacnet/src/DeviceServer.cs:484-534 | renewal overwrites the key's entry, cancellation removes it, an error does neither: list and table stay in step |
| CovTheorems.ApplyRepresents | adapters/sysiobacnet/src/DeviceServer.cs:484-554 | every request keeps the list in step with the table |
| CovTheorems.CovListRefinesTable | adapters/sysiobacnet/src/DeviceServer.cs:484-554 | in every reachable state no two entries share address, process, object and property, and the list is the never-purged table up to expired entries |
| CovTheorems.WriteNotifiesExactly | adapters/sysiobacnet/src/DeviceServer.cs:536-554 | after any run, a write notifies exactly once every unexpired key that monitors it, with the values then stored; alarm writes notify their own subscribers first |
| CovTheorems.EvaluateNotifiesExactly | adapters/sysiobacnet/src/DeviceServer.cs:862-906 | the re-entrant writes of an alarm give three exact blocks of notifications and one event, in that order |
| Notifications.TableHoldsGrants | adapters/sysiobacnet/src/DeviceServer.cs:484-534 | the table holds for each key the last subscription granted and not cancelled since, told from the history |
| Notifications.WritesNotifyExactly | adapters/sysiobacnet/src/DeviceServer.cs:536-582 | after any run, a write queues for each key one notification, if it watches the property and its lifetime in seconds has not passed, with the stored values and the whole seconds that remain, and otherwise none; an alarm that moves queues before that what is due for its three properties, with their values |
| Notifications.UnknownIsNotWritten | adapters/sysiobacnet/src/DeviceServer.cs:536-537 | a property the object does not have is not written, and nobody is told |
| Notifications.SubscriptionsAreAnsweredExactly | adapters/sysiobacnet/src/DeviceServer.cs:484-534 | which subscriptions are granted, the errors of the others, and the first notification, with the whole lifetime remaining |
| AlarmTheorems.EvaluateView | adapters/sysiobacnet/src/DeviceServer.cs:862-906 | evaluating one object's alarm is a transition of that object or nothing, and never touches another object |
| AlarmTheorems.WrittenView | adapters/sysiobacnet/src/DeviceServer.cs:536-554 | of all client writes only those of present value and High_Limit change what is seen of an alarm, and only the first can move it |
| AlarmTheorems.AcknowledgedView | adapters/sysiobacnet/src/DeviceServer.cs:978-1014 | an acknowledgement is granted exactly when it names the present state and echoes its time stamp, and sets one bit |
| AlarmTheorems.PrescribedStep | adapters/sysiobacnet/src/DeviceServer.cs:855-906 | every request keeps alarm, stored properties and queued transitions as the history prescribes |
| AlarmTheorems.AlarmRefinesHistory | adapters/sysiobacnet/src/DeviceServer.cs:855-935 | in every reachable state HIGH_LIMIT holds if and only if the last present-value change exceeded the limit of that time; stored Event_State, Status_Flags and Acked_Transitions mirror the alarm; only the to-offnormal bit can be outstanding; the events queued are one for each change of state, in a chain from NORMAL, with value, time stamp, recipient and limit as the history gives them |
| AlarmTheorems.ListedByHistory | adapters/sysiobacnet/src/DeviceServer.cs:953-976 | an object is listed exactly when it is in alarm or its latest rise was not acknowledged in time |
| AlarmTheorems.MissedAcknowledgementIsFinal | adapters/sysiobacnet/src/DeviceServer.cs:993-1011 | in any run of the device, an alarm found normal and unacknowledged stays unacknowledged and listed through any further requests while it stays normal |
| AlarmTheorems.StoredInNumbers | adapters/sysiobacnet/src/DeviceServer.cs:855-906 | after any run Event_State is 3 or 0, Status_Flags 1000 or 0000 and Acked_Transitions x11 as the history says |
| AlarmTheorems.AcknowledgementsAreAnsweredExactly | adapters/sysiobacnet/src/DeviceServer.cs:978-1024 | which acknowledgements are granted: the state named is the present one and the time stamp of its transition is echoed, to less than ten milliseconds; and the errors of the others in their order |
| AlarmTheorems.WritableInNumbers | adapters/sysiobacnet/src/DeviceModel.cs:55-82 | the properties a client may write, by object type and property number |
| AlarmTheorems.MissedAcknowledgementExample | adapters/sysiobacnet/src/DeviceServer.cs:993-1011 | two writes, above and below the limit: the rise is listed as unacknowledged and every acknowledgement of it is refused, whatever time stamp it echoes |
| AlarmTheorems.EventNamesLimitExactly | adapters/sysiobacnet/src/DeviceServer.cs:862-935 | the event of a rise carries a value above the limit then stored, and names that limit if and only if it is the default one |
| AlarmTheorems.WrongLimitExample | adapters/sysiobacnet/src/DeviceServer.cs:862-935 | with High_Limit written to 50, a value of 60 is reported to exceed 80 |
| DeviceModel.Analog | adapters/sysiobacnet/src/DeviceModel.cs:227-256 | an analog object has its present value, and with a notification class the normal state, clear flags, acknowledged transitions and High_Limit 80 that reporting starts from |
| DeviceModel.FromFixture | adapters/sysiobacnet/src/DeviceModel.cs:87-182 | the device, then an object for each served entry, in order, with the entry's identifier and present value; a notification class anywhere gives every analog value, and nothing else, a fresh alarm state and an object ready for it; without one there are none |
| DeviceModel.AlarmsStartFresh | adapters/sysiobacnet/src/DeviceModel.cs:40-53 | stored properties and alarm state of each such object agree at first: no alarm, all acknowledged, limit 80 |
| DeviceModel.AlarmsFollowHistory | adapters/sysiobacnet/src/DeviceServer.cs:855-906 | so the alarms of a device made from any fixture are, after any run, what their history says |
| Tags.DecodeContextUnsigned | adapters/worldiety/internal/service/tags.go:25-35 | the value of any number of octets in 32 bits, high octets shifted out; any other token is refused |
| Tags.UnsignedRoundTrip | adapters/worldiety/internal/service/tags.go:25-53 | the shortest encoding of any 32-bit number is read back |
| Tags.KeyRoundTrip | adapters/worldiety/internal/service/tags.go:13-23 | an object identifier's four octets give back its 10-bit type and 22-bit instance |
| Tags.KeyInNumbers | adapters/worldiety/internal/service/tags.go:13-23 | the upper ten bits of the four octets are the type, the others the instance |
| Tags.UnsignedInNumbers | adapters/worldiety/internal/service/tags.go:25-35 | octets are read most significant first and cut to 32 bits |
| Tags.SkipToClosing | adapters/worldiety/internal/service/tags.go:60-88 | counting one tag number stops at the first bracket that closes more of that tag than were open, and on well-nested input exactly where a reader with the whole stack of brackets stops |
| Store.Store.constructor | adapters/worldiety/internal/fixture/model.go:66-72 | an empty store is a valid one |
| Store.Store.Add | adapters/worldiety/internal/fixture/model.go:74-82 | the order index stays a duplicate-free enumeration of the keys; replacing an object keeps its place |
| Store.Store.WriteProperty | adapters/worldiety/internal/service/property.go:128-161 | the error or the changed object, nothing else in the store changing |
| Store.Store.ReadObjectList | adapters/worldiety/internal/service/property.go:95-126 | Object_List whole or at an index, in the order of the index, with its errors |
| Store.ReadInNumbers | adapters/worldiety/internal/service/property.go:18-93 | what reading each property gives, by its number, or its error class and code |
| Store.LoadObject | adapters/worldiety/internal/fixture/load.go:52-78 | which fixture objects load, and with what present value |
| Store.LoadedIsTyped | adapters/worldiety/internal/fixture/load.go:122-165 | every analog present value that loads is a real and every binary one enumerated |
| Store.LoadedInNumbers | adapters/worldiety/internal/fixture/load.go:52-137 | which entries load and as what, by type number: names, present values, and 36 records for a Trend Log |
| Store.LastEntryIsKept | adapters/worldiety/internal/fixture/load.go:52-79 | of several entries with one type and instance the last is kept |
| Store.EntriesOnlyAreKept | adapters/worldiety/internal/fixture/load.go:52-79 | and nothing is kept that no entry names |
| Store.BinarySpellings | adapters/worldiety/internal/fixture/load.go:139-165 | the spellings of a binary present value, as text, truth value and number, agree |
| Store.Load | adapters/worldiety/internal/fixture/load.go:30-89 | a fixture loads exactly when it names a device and each object loads; the store then is valid, holds the last object of each key and the device, and lists the device |
| WriteMultiple.DecodeWrite | adapters/worldiety/internal/service/write_property_multiple.go:61-118 | one property of the request, optional index and dropped priority included, consumes exactly its own tokens |
| WriteMultiple.Decode | adapters/worldiety/internal/service/write_property_multiple.go:40-121 | the two nested loops over one offset parse the same language as the recursive parser the round trip is about |
| WriteMultiple.ParsePrinted | adapters/worldiety/internal/service/write_property_multiple.go:40-121 | every request printed in the form of section 15.10 parses to its writes in order, priorities erased |
| WriteMultiple.ParsedIsPrinted | adapters/worldiety/internal/service/write_property_multiple.go:40-121 | conversely, whatever is accepted is, up to how many octets its numbers take, the printed form of specifications with those writes |
| WriteMultiple.Group | adapters/bacpypes3/client_driver.py:760-769 | the client's grouping flattens back to its writes in order, with no empty specification and no two mergeable neighbours |
| WriteMultiple.ClientRequestIsUnderstood | adapters/worldiety/internal/service/write_property_multiple.go:40-121 | what the client groups and prints is parsed into the client's writes: the two sides compose |
| WriteMultiple.VerdictIsStable | adapters/worldiety/internal/service/property.go:128-161 | whether a write is refused does not depend on what was written before it |
| WriteMultiple.VerdictInNumbers | adapters/worldiety/internal/service/property.go:128-161 | which writes are granted, by type, property and datatype, and error class and code of the others |
| WriteMultiple.AcceptedReadsBack | adapters/worldiety/internal/service/property.go:18-161 | an accepted write reads back as the value written, but for an empty description |
| WriteMultiple.ApplyWrites | adapters/worldiety/internal/service/write_property_multiple.go:19-30 | the loop stops at the first write refused on the contents before the request, having applied all before it and none after |
| WriteMultiple.Handle | adapters/worldiety/internal/service/write_property_multiple.go:14-32 | prefix-apply: an undecodable request leaves the store alone and is answered (5, 7); the acknowledgement is sent if and only if each write names an object and is a Real for types 1 and 2, an Enumerated for 4 and 5, or a text for a description; otherwise the error names the first write that is not, with its class and code |
| WriteMultiple.EncodeError | adapters/worldiety/internal/service/write_property_multiple.go:123-143 | a strict reader of the error learns the error class and code and the object, property and index of the write |
| WriteMultiple.ErrorIsRead | adapters/worldiety/internal/service/write_property_multiple.go:123-143 | the error form is read back for every write and failure |
| WriteMultiple.LastWriteWins | adapters/worldiety/internal/service/property.go:18-161 | after applied writes every property reads as the last value written to it, or as before if none was; an empty description reads as the name |
| WriteMultiple.WritesKeepTypes | adapters/worldiety/internal/service/property.go:128-161 | analog and binary present values keep the type the loader gave them, over any writes |
| WriteMultiple.ObjectListAgrees | adapters/worldiety/internal/service/property.go:95-126 | index 0 is the length, the whole list is the concatenation of its elements, and every other index is an error |
| WriteMultiple.ListedIsReadable | adapters/worldiety/internal/service/property.go:18-126 | every object that Object_List names can be read, under the identifier it was listed with |
| ReadMultiple.DecodeReference | adapters/worldiety/internal/service/read_property_multiple.go:56-86 | one reference consumes exactly its own tokens; `all` takes no index |
| ReadMultiple.DecodeSpecs | adapters/worldiety/internal/service/read_property_multiple.go:32-92 | the two nested loops parse the same language as the recursive parser the round trip is about |
| ReadMultiple.ParsePrintedSpecs | adapters/worldiety/internal/service/read_property_multiple.go:32-92 | every request printed in the form of section 15.7 parses to its references in order, `all` collected into the flag |
| ReadMultiple.ParsedSpecsArePrinted | adapters/worldiety/internal/service/read_property_multiple.go:32-92 | conversely, whatever is accepted is, up to how many octets its numbers take, a printed request |
| ReadMultiple.EncodeAnswers | adapters/worldiety/internal/service/read_property_multiple.go:106-126 | one bracketed result or error per property, in order |
| ReadMultiple.EncodeAck | adapters/worldiety/internal/service/read_property_multiple.go:94-129 | a reader of the acknowledgement finds one result per asked property, in order, each the value read or its own error; the only failure is a key without an identifier |
| ReadMultiple.AllInNumbers | adapters/worldiety/internal/service/read_property_multiple.go:131-153 | the properties `all` asks for, in order, by object type |
| ReadMultiple.AckIsRead | adapters/worldiety/internal/service/read_property_multiple.go:94-129 | the acknowledgement is well bracketed: a strict reader recovers objects, properties, indices, values and errors |
| ReadRange.GoTimeIndex | adapters/worldiety/internal/service/read_range.go:70-92 | the scan ends at the first record after the time, or at the last strictly before it |
| ReadRange.GoSelect | adapters/worldiety/internal/service/read_range.go:43-110 | the handler's range and flags, or its error, for every request form |
| ReadRange.GoMeetsMeaning | adapters/worldiety/internal/service/read_range.go:43-110 | on any non-empty log with increasing stamps the selection is the one section 15.8 describes, with the flags set if and only if the first or last record is in it; otherwise the error names what is wrong |
| ReadRange.EmptyLog | adapters/worldiety/internal/service/read_range.go:43-46 | on an empty log Go refuses every request and C# answers with no items |
| ReadRange.CountlessRequest | adapters/sysiobacnet/src/DeviceServer.cs:623-642 | a count of 0 is refused by C# too |
| ReadRange.CsSelect | adapters/sysiobacnet/src/DeviceServer.cs:615-673 | the records copied, the flags, and the item count announced, in 32-bit arithmetic |
| ReadRange.CsMeetsMeaningExactly | adapters/sysiobacnet/src/DeviceServer.cs:615-670 | the C# selection is the described one, announced count included, if and only if its 32-bit sum does not overflow |
| ReadRange.GoAndCsAgreeExactly | adapters/sysiobacnet/src/DeviceServer.cs:615-670 | Go and C# answer alike if and only if the count is zero or neither the position is out of range nor the sum overflows |
| ReadRange.AnnouncedIsSentExactly | adapters/sysiobacnet/src/DeviceServer.cs:661-673 | the items announced are as many as the records sent if and only if the sum does not overflow |
| ReadRange.OverflowLosesRecords | adapters/sysiobacnet/src/DeviceServer.cs:643-673 | whenever it overflows there are records to send, none is sent, no flag is set, and as many as were asked for are announced |
| ReadRange.OverflowExample | adapters/sysiobacnet/src/DeviceServer.cs:643-673 | on the log the device serves (`adapters/sysiobacnet/src/DeviceModel.cs:294-302`), a request for as many records as possible after the first: Go would return three, C# none, while it announces 2147483647 |
| ReadRange.PagingRebuildsTheLog | adapters/sysiobacnet/src/DeviceServer.cs:615-670 | reading on by position until the last-item flag ends and rebuilds the log from there, for any page size, with either adapter |
| ReadRange.SeedTimes | adapters/worldiety/internal/fixture/load.go:186-197 | the seeded log has 36 strictly increasing stamps, 15 minutes apart |
| Files.FileServer.OnRead | adapters/sysiobacnet/src/DeviceServer.cs:687-727 | the octets or records from a position on, as many as asked for or as there are, end-of-file exactly when the rest is included, and the errors in their order |
| Files.FileServer.OnWrite | adapters/sysiobacnet/src/DeviceServer.cs:729-772 | a stream write replaces its range, extends as needed, appends at -1, and leaves every other file alone; a refused write changes nothing |
| Files.FileServer.WriteRecords | adapters/sysiobacnet/src/DeviceServer.cs:801-825 | the record loop, overwriting then appending, amounts to the same range replacement |
| Files.OverwriteReadsBack | adapters/sysiobacnet/src/DeviceServer.cs:729-825 | a write leaves prefix and suffix untouched, and reading its range returns what was written |
| Files.StreamReadsBack | adapters/sysiobacnet/src/DeviceServer.cs:687-772 | a stream write lands at the position asked for, or at the end for -1: the file is prefix, block and rest, no other file changes, the reply names that position, a read there returns the block; and the errors in their order |
| Files.RecordsReadBack | adapters/sysiobacnet/src/DeviceServer.cs:780-825 | the same of records |
| Files.StreamReadsExactly | adapters/sysiobacnet/src/DeviceServer.cs:687-727 | what a read answers: its errors, or the octets asked for, or all that are left with end-of-file |
| Files.RecordReadsExactly | adapters/sysiobacnet/src/DeviceServer.cs:780-799 | the same of records |
| Files.StreamWritesExactly | adapters/sysiobacnet/src/DeviceServer.cs:747-771 | what a write of blocks to a stream answers, by access, number of blocks, position and length |
| Files.OverwriteIsIdempotent | adapters/sysiobacnet/src/DeviceServer.cs:729-825 | writing twice is writing once, and writing back what was read changes nothing |
| Files.FetchStream | adapters/bacpypes3/client_driver.py:885-908 | against that server, for any content, start and positive chunk size, the loop ends with exactly the content from start on, or the server's refusal |
| Files.FetchBounded | adapters/bacnet4j/src/main/java/com/otfabric/bacnetinterop/ClientDriver.java:645-657 | the loop of at most 4096 chunks returns the first 4 MiB of the rest |
| Files.BoundedFetchIsCompleteExactly | adapters/bacnet4j/src/main/java/com/otfabric/bacnetinterop/ClientDriver.java:633-660 | and so the whole rest exactly when it is at most 4096 chunks of 1024 octets |
| Argv.StrtoulDecimal | adapters/bacnet-stack/device_server.c:697-700 | base detection never misreads a number that Python printed |
| Argv.ServerArgs.constructor | adapters/bacnet-stack/device_server.c:661-685 | blank tables and the default device |
| Argv.ServerArgs.OnAv | adapters/bacnet-stack/device_server.c:705-744 | each analog-value option opens or amends a row in bounds, or ends the program |
| Argv.ServerArgs.OnBv | adapters/bacnet-stack/device_server.c:750-784 | the same for binary values |
| Argv.ServerArgs.OnFile | adapters/bacnet-stack/device_server.c:790-828 | the same for files |
| Argv.ServerArgs.OnLsp | adapters/bacnet-stack/device_server.c:829-848 | the same for life-safety points |
| Argv.ServerArgs.OnLsz | adapters/bacnet-stack/device_server.c:849-868 | the same for life-safety zones |
| Argv.ServerArgs.Parse | adapters/bacnet-stack/device_server.c:687-886 | on any argv at all the loop keeps its counts and array accesses in bounds, and its tables or exit code are those of the run the round trip is about |
| Argv.ServerArgs.AddDefaults | adapters/bacnet-stack/device_server.c:874-886 | a default object appears exactly for a kind no option spoke of |
| Argv.DefaultsStandExactly | adapters/bacnet-stack/device_server.c:687-872 | a default is still due after the loop if and only if no option opened or excluded its kind, values that look like options apart |
| Argv.DefaultsAre | adapters/bacnet-stack/device_server.c:874-886 | the default objects, written out, and nothing else changed |
| Argv.FlagsAre | adapters/bacnet-stack/device_server.c:745-789 | the flags drop the default and forget what was opened of the kind |
| Argv.NothingToAmend | adapters/bacnet-stack/device_server.c:721-868 | an option about an object that was not opened ends the program |
| Argv.StartIs | adapters/bacnet-stack/device_server.c:661-685 | the device, the empty tables and their sizes at the start |
| Argv.UnnamedLifeSafety | adapters/bacnet-stack/device_server.c:829-868 | life-safety objects without a name are called LSP and LSZ |
| Argv.Exits | adapters/bacnet-stack/device_server.c:688-696 | help and version end the program with 0; an unknown argument, or an option without its value, with 2 |
| Argv.StrtoulExamples | adapters/bacnet-stack/device_server.c:697-700 | decimal, hexadecimal, octal, spaces, signs and trailing text |
| ArgvRoundTrip.ServerArgs | adapters/bacnet-stack/run_server.py:78-136 | the list extended in two loops, with the flags for kinds never seen |
| ArgvRoundTrip.PrintedArguments | adapters/bacnet-stack/run_server.py:59-129 | the arguments of each kind of object, written out |
| ArgvRoundTrip.PrintedDevice | adapters/bacnet-stack/run_server.py:78-136 | the arguments of a fixture without objects, written out |
| ArgvRoundTrip.RunPair | adapters/bacnet-stack/device_server.c:687-730 | an option and its value are consumed together whatever the value looks like, so an option-like name is a name |
| ArgvRoundTrip.ObjectsAreRead | adapters/bacnet-stack/device_server.c:705-869 | the printed options of any objects fill the tables with those objects in order, or exceed one and end the program |
| ArgvRoundTrip.FilesAreRead | adapters/bacnet-stack/run_server.py:33-75 | the same for the files printed after them |
| ArgvRoundTrip.PrintedFixtureIsReadBack | adapters/bacnet-stack/run_server.py:78-136 | the C loop on a printed fixture ends with exactly the fixture's device and lists, no default added, if and only if every list fits its table; otherwise with exit code 2 |
| Destinations.MatchIff | adapters/bacnet-stack/client_driver.py:84-87 | the expression matches a text in exactly one way: if and only if the text has the printed form of those groups |
| Destinations.ClassesExactly | adapters/bacnet-stack/client_driver.py:84-87 | the characters each part of the expression takes |
| Destinations.FieldsJoin | adapters/bacnet-stack/client_driver.py:303-311 | joining with commas and splitting without empty parts gives the parts back, none included |
| Destinations.GroupsFit | adapters/bacnet-stack/client_driver.py:289-298 | what is printed fits the expression and means the destination it was printed from |
| Destinations.PrintedForm | adapters/bacnet-stack/client_driver.py:289-298 | what is printed, written out |
| Destinations.StandardIsPrintable | adapters/bacnet-stack/client_driver.py:289-312 | destinations with times in digits, colons and points and the standard's three transitions are found again |
| Destinations.ParseDestinations | adapters/bacnet-stack/client_driver.py:301-312 | the loop returns all matches, left to right, none overlapping |
| Destinations.PrintedDestinationsAreFound | adapters/bacnet-stack/client_driver.py:289-312 | any printed destinations, between separators that do not contain the opening of one, are found again in order, empty day and transition lists included |
| Destinations.FoundIsPrintable | adapters/bacnet-stack/client_driver.py:301-312 | whatever stands in a text, each destination found in it is one that can be printed and found again |
| Destinations.FoundAgainExactly | adapters/bacnet-stack/client_driver.py:289-312 | a printed destination is found again if and only if its times and transitions are of the kinds the expression takes |

## Left out

- Sockets, `select`, timeouts, signals, containers, environment and command-line plumbing, and everything printed as evidence lines.
- The insides of the upstream stacks: their encoders, segmentation, priority arrays and property storage. Only what the adapters rely on is stated.
- Flood.FloodTerminates: for frames with DNET 0xFFFF only; a local broadcast is forwarded without a hop count and carries no such bound in a cycle of routers.
- RouterTheorems.NoHairpin: assumes that each endpoint lives behind one port; without that `RouterTheorems.HairpinExactly` is what holds.
- RouterTheorems.DeletionIsUnobservable: for a clock that does not go back; the program reads the wall clock.
- BipCodec.FieldOrderExactly: compares with the field order of section 6.2.2 for the fields this codec has; vendor identifiers of network messages are not split from their data.
- DeviceServer.Server.OnWrite: one storage write; the request handlers around it (which property is writable, conversions, priority-array writes) appear only as the assumption on what reaches the storage from outside.
- DeviceServer.Server.EvaluateAlarm: alarms are values in a dictionary, so that two names for one alarm object are not captured; a present value or limit that is not a Real counts as absent, where the program converts it; reals are not rounded to single precision; a time stamp is a sequence number or a date and time in milliseconds; of the event's fields those that are constant or follow from the states (process, class, priority, message, flags, deadband) are left out.
- DeviceServer.Server.OnSubscribe: subscriptions are values in the list; the array index of a monitored property is not kept, as the program does not compare it.
- The thread that takes notifications off the queue and sends them, and the event notification the device can be set up to emit once on a read (`adapters/sysiobacnet/src/DeviceServer.cs:255`).
- AlarmTheorems.AlarmRefinesHistory: a High_Limit write alone does not re-evaluate an alarm in the program, so the statement is about the last present-value change and the limit read then.
- Tags: a payload is a sequence of tag tokens; their layout in octets is the upstream encoding package's.
- Store.Load: a fixture object's type name is given as the kind it parses to; reading and decoding the JSON file is not modelled; the names are in ASCII where case is folded.
- Store.Object: a Trend Log's records are only counted; mutexes are left out, each call being one step; lookups by name are left out.
- ReadMultiple.EncodeAck: reads a store that does not change meanwhile.
- ReadRange.GoSelect: starts from the decoded request on an object that exists; records are their time stamps, a reference time with an unspecified field is `None`, and the sequence number of the first record, the reply's encoding and calendar arithmetic are left out.
- ReadRange.CsSelect: the reference time is always specified, as the package hands over a date and time.
- Files.FileServer.OnWrite: blocks are cut to their counts beforehand, and a record file's list growing beyond what the runtime can hold is not modelled.
- Files.FetchStream: a request with an explicit count, which is a single read, is the server's `OnRead`.
- Argv.ServerArgs.OnAv: a value is the text given to `strtof`, not the number.
- Argv.ServerArgs.Parse: rows left over after `--no-av` or `--no-bv` keep their old names in the model as in the program, but nothing is claimed about them; creating the objects afterwards is left out.
- ArgvRoundTrip.ServerArgs: writing the file contents, and the errors of fixture entries without the fields they need; instances are 32-bit numbers and defaults for missing names are filled in beforehand.
- Destinations.PrintedDestinationsAreFound: recipients other than devices, which the printer refuses with an error, have no form in the model.
- Return paths across more than one router are not modelled: the theorems about them are about one router.
- The fixture validators, the scenario comparison code and the prefix and mask helpers are not modelled.
- DeviceModel.FromFixture: of notification classes, trend logs, files and the device object only their properties as given appear; JSON decoding is left out.
