/**
 The COV list refines a plain table from subscription key to subscription that
 is never purged: the list forgets entries some time after they expire, the
 table never does, and no notification tells the two apart.
 */
module CovTheorems {
  import opened Wire
  import opened Identifiers
  import opened DeviceServer

  // ----- Runs -----

  datatype Op =
    | Subscribed(key: Key, cancel: bool, confirmed: bool, lifetime: nat, now: int)
    | Written(address: Address, oid: ObjectId, property: PropertyId, v: Value, clock: Clock)
    | Acknowledged(oid: ObjectId, stateAcked: nat, stamp: Stamp, now: int)
  {
    function First(): int {
      match this
      case Written(_, _, _, _, clock) => clock.eventState
      case _ => now
    }

    function Last(): int {
      match this
      case Written(_, _, _, _, clock) => clock.outer
      case _ => now
    }

    /** The clock readings within one request do not go back. */
    predicate Ordered() {
      Written? ==> clock.eventState <= clock.statusFlags <= clock.acked <= clock.outer
    }
  }

  function Apply(s: State, op: Op): (r: State)
    requires ValidAlarms(s.alarms)
    ensures ValidAlarms(r.alarms) && r.alarms.Keys == s.alarms.Keys && r.storage.Keys == s.storage.Keys
  {
    match op
    case Subscribed(key, cancel, confirmed, lifetime, now) => Subscribe(s, key, cancel, confirmed, lifetime, now)
    case Written(address, oid, property, v, clock) => Store(s, oid, property, v, Some(address), clock)
    case Acknowledged(oid, stateAcked, stamp, now) => Acknowledge(s, oid, stateAcked, stamp, now)
  }

  function Run(s: State, ops: seq<Op>): (r: State)
    requires ValidAlarms(s.alarms)
    ensures ValidAlarms(r.alarms) && r.alarms.Keys == s.alarms.Keys && r.storage.Keys == s.storage.Keys
  {
    if ops == [] then s else Apply(Run(s, ops[..|ops| - 1]), ops[|ops| - 1])
  }

  ghost predicate Timely(ops: seq<Op>) {
    && (forall op | op in ops :: op.Ordered())
    && (forall i, j :: 0 <= i < j < |ops| ==> ops[i].Last() <= ops[j].First())
  }

  // ----- The table -----

  type Table = map<Key, Subscription>

  function TableStep(storage: Storage, t: Table, op: Op): Table {
    match op
    case Subscribed(key, cancel, confirmed, lifetime, now) =>
      if cancel then t - {key}
      else if SubscribeReply(storage, key, cancel).Error? then t
      else t[key := Subscription(key, confirmed, lifetime, now)]
    case _ => t
  }

  function TableAfter(storage: Storage, ops: seq<Op>): Table {
    if ops == [] then map[] else TableStep(storage, TableAfter(storage, ops[..|ops| - 1]), ops[|ops| - 1])
  }

  ghost predicate Distinct(subs: seq<Subscription>) {
    forall i, j :: 0 <= i < j < |subs| ==> subs[i].key != subs[j].key
  }

  ghost predicate Has(subs: seq<Subscription>, key: Key) {
    exists sub :: sub in subs && sub.key == key
  }

  /** One entry for each key, each the table's own; what the list lacks has expired. */
  ghost predicate Represents(subs: seq<Subscription>, t: Table, now: int) {
    && Distinct(subs)
    && (forall sub | sub in subs :: sub.key in t && t[sub.key] == sub)
    && (forall key | key in t && !t[key].Expired(now) :: Has(subs, key))
  }

  ghost predicate AllLive(subs: seq<Subscription>, now: int) {
    forall sub | sub in subs :: !sub.Expired(now)
  }

  lemma RepresentsLater(subs: seq<Subscription>, t: Table, now: int, later: int)
    requires Represents(subs, t, now) && now <= later
    ensures Represents(subs, t, later)
  {
  }

  lemma {:induction false} RemoveExpiredKeeps(subs: seq<Subscription>, now: int)
    requires Distinct(subs)
    ensures var r := RemoveExpired(subs, now);
            Distinct(r) && forall sub :: sub in r <==> sub in subs && !sub.Expired(now)
  {
    if subs != [] {
      RemoveExpiredKeeps(subs[1..], now);
      assert subs == [subs[0]] + subs[1..];
      var rest := RemoveExpired(subs[1..], now);
      forall j | 0 <= j < |rest| ensures rest[j].key != subs[0].key {
        assert rest[j] in rest;
        var k :| 0 <= k < |subs[1..]| && subs[1..][k] == rest[j];
        assert subs[k + 1] == rest[j];
      }
    }
  }

  lemma {:induction false} PurgeRepresents(subs: seq<Subscription>, t: Table, now: int)
    requires Represents(subs, t, now)
    ensures Represents(RemoveExpired(subs, now), t, now) && AllLive(RemoveExpired(subs, now), now)
  {
    RemoveExpiredKeeps(subs, now);
    forall key | key in t && !t[key].Expired(now) ensures Has(RemoveExpired(subs, now), key) {
      var sub :| sub in subs && sub.key == key;
      assert sub in RemoveExpired(subs, now);
    }
  }

  // ----- What one change event sends -----

  /**
   Exactly one notification, with the values then stored, for each table entry that is unexpired and monitors the
   property.
   */
  ghost predicate NotifiesExactly(ns: seq<Notice>, storage: Storage, t: Table, oid: ObjectId, property: PropertyId,
                                  now: int) {
    && (forall n | n in ns ::
          n.CovNotice? && n.sub.key in t && n == CovNoticeOf(storage, t[n.sub.key], now)
          && !t[n.sub.key].Expired(now) && Monitors(n.sub.key, oid, property))
    && (forall i, j :: 0 <= i < j < |ns| ==> ns[i].CovNotice? && ns[j].CovNotice? && ns[i].sub.key != ns[j].sub.key)
    && (forall key | key in t && !t[key].Expired(now) && Monitors(key, oid, property) ::
          CovNoticeOf(storage, t[key], now) in ns)
  }

  lemma {:induction false} NoticesOf(storage: Storage, subs: seq<Subscription>, oid: ObjectId, property: PropertyId,
                                     now: int)
    requires Distinct(subs)
    ensures var ns := CovNotices(storage, subs, oid, property, now);
            (forall n | n in ns ::
               n.CovNotice? && n.sub in subs && n == CovNoticeOf(storage, n.sub, now)
               && Monitors(n.sub.key, oid, property))
            && (forall sub | sub in subs && Monitors(sub.key, oid, property) :: CovNoticeOf(storage, sub, now) in ns)
            && (forall i, j :: 0 <= i < j < |ns| ==>
                  ns[i].CovNotice? && ns[j].CovNotice? && ns[i].sub.key != ns[j].sub.key)
  {
    hide Monitors;
    if subs != [] {
      NoticesOf(storage, subs[1..], oid, property, now);
      assert subs == [subs[0]] + subs[1..];
      var rest := CovNotices(storage, subs[1..], oid, property, now);
      forall j | 0 <= j < |rest| ensures rest[j].CovNotice? && rest[j].sub.key != subs[0].key {
        assert rest[j] in rest;
        var k :| 0 <= k < |subs[1..]| && subs[1..][k] == rest[j].sub;
        assert subs[k + 1] == rest[j].sub;
      }
    }
  }

  lemma AnnounceIsExact(s: State, t: Table, since: int, oid: ObjectId, property: PropertyId, now: int)
      returns (ns: seq<Notice>)
    requires Represents(s.subs, t, since) && since <= now
    ensures var r := Announce(s, oid, property, now);
            r.queue == s.queue + ns && NotifiesExactly(ns, s.storage, t, oid, property, now)
            && Represents(r.subs, t, now)
  {
    RepresentsLater(s.subs, t, since, now);
    PurgeRepresents(s.subs, t, now);
    var subs := RemoveExpired(s.subs, now);
    NoticesOf(s.storage, subs, oid, property, now);
    ns := CovNotices(s.storage, subs, oid, property, now);
    hide CovNotices, CovNoticeOf, RemoveExpired, Monitors;
    forall key | key in t && !t[key].Expired(now) && Monitors(key, oid, property)
      ensures CovNoticeOf(s.storage, t[key], now) in ns
    {
      var sub :| sub in subs && sub.key == key;
      assert t[key] == sub;
    }
  }

  // ----- The list keeps representing the table -----

  lemma AnnounceRepresents(s: State, t: Table, since: int, oid: ObjectId, property: PropertyId, now: int)
    requires Represents(s.subs, t, since) && since <= now
    ensures Represents(Announce(s, oid, property, now).subs, t, now)
  {
    var ns := AnnounceIsExact(s, t, since, oid, property, now);
  }

  lemma StorePlainRepresents(s: State, t: Table, since: int, oid: ObjectId, property: PropertyId, v: Value, now: int)
    requires Represents(s.subs, t, since) && since <= now
    ensures Represents(StorePlain(s, oid, property, v, now).subs, t, now)
  {
    hide Announce, Represents;
    if (oid, property) in s.storage {
      AnnounceRepresents(s.(storage := s.storage[(oid, property) := v]), t, since, oid, property, now);
    } else {
      RepresentsLater(s.subs, t, since, now);
    }
  }

  lemma EvaluateRepresents(s: State, t: Table, since: int, oid: ObjectId, requester: Option<Address>, clock: Clock)
    requires Represents(s.subs, t, since) && oid in s.alarms && ValidAlarms(s.alarms)
    requires since <= clock.eventState <= clock.statusFlags <= clock.acked
    ensures Represents(Evaluate(s, oid, requester, clock).subs, t, clock.acked)
  {
    hide StorePlain, Represents;
    RepresentsLater(s.subs, t, since, clock.acked);
    var value := ReadReal(s.storage, oid, PRESENT_VALUE);
    if value.Some? {
      var next := if value.value > LimitOf(s.storage, oid) then STATE_HIGH_LIMIT else STATE_NORMAL;
      var alarm := Moved(s.alarms[oid], next, clock.local);
      var s1 := s.(alarms := s.alarms[oid := alarm]);
      StorePlainRepresents(s1, t, since, oid, EVENT_STATE, Enumerated(next), clock.eventState);
      var s2 := StorePlain(s1, oid, EVENT_STATE, Enumerated(next), clock.eventState);
      StorePlainRepresents(s2, t, clock.eventState, oid, STATUS_FLAGS, StatusBits(next), clock.statusFlags);
      var s3 := StorePlain(s2, oid, STATUS_FLAGS, StatusBits(next), clock.statusFlags);
      StorePlainRepresents(s3, t, clock.statusFlags, oid, ACKED_TRANSITIONS, Bits(alarm.acked), clock.acked);
    }
  }

  lemma SubscribeRepresents(s: State, t: Table, since: int, key: Key, cancel: bool, confirmed: bool, lifetime: nat,
                            now: int)
    requires Represents(s.subs, t, since) && since <= now
    ensures Represents(Subscribe(s, key, cancel, confirmed, lifetime, now).subs,
                       TableStep(s.storage, t, Subscribed(key, cancel, confirmed, lifetime, now)), now)
  {
    hide RemoveExpired, SubscribeReply, CovNoticeOf, Represents, AllLive, IndexOf;
    RepresentsLater(s.subs, t, since, now);
    PurgeRepresents(s.subs, t, now);
    var live := RemoveExpired(s.subs, now);
    var i := IndexOf(live, key);
    DropRepresents(live, t, key, i, now);
    PutRepresents(live, t, Subscription(key, confirmed, lifetime, now), i, now);
  }

  /** Which requests are answered with an error depends only on what is in the storage, not on its values. */
  lemma TableStepByKeys(a: Storage, b: Storage, t: Table, op: Op)
    requires a.Keys == b.Keys
    ensures TableStep(a, t, op) == TableStep(b, t, op)
  {
  }

  lemma SameKeys(a: Storage, b: Storage)
    requires a.Keys == b.Keys
    ensures forall k :: k in a <==> k in b
  {
  }

  lemma CutOut(live: seq<Subscription>, i: nat)
    requires Distinct(live) && i < |live|
    ensures var r := live[..i] + live[i + 1..];
            Distinct(r) && forall sub :: sub in r <==> sub in live && sub.key != live[i].key
  {
  }

  lemma {:induction false} DropRepresents(live: seq<Subscription>, t: Table, key: Key, i: nat, now: int)
    requires Represents(live, t, now) && i == IndexOf(live, key)
    ensures Represents(if i < |live| then live[..i] + live[i + 1..] else live, t - {key}, now)
  {
    hide IndexOf, Subscription.Expired, Distinct;
    if i < |live| {
      CutOut(live, i);
    }
    var r := if i < |live| then live[..i] + live[i + 1..] else live;
    forall k | k in t - {key} && !t[k].Expired(now) ensures Has(r, k) {
      var sub :| sub in live && sub.key == k;
      assert sub in r;
    }
  }

  lemma {:induction false} PutRepresents(live: seq<Subscription>, t: Table, sub: Subscription, i: nat, now: int)
    requires Represents(live, t, now) && i == IndexOf(live, sub.key)
    ensures Represents(if i < |live| then live[i := sub] else live + [sub], t[sub.key := sub], now)
  {
    hide IndexOf;
    var r := if i < |live| then live[i := sub] else live + [sub];
    assert r[i] == sub;
    forall k | k in t[sub.key := sub] && !t[sub.key := sub][k].Expired(now) ensures Has(r, k) {
      if k == sub.key {
        assert sub in r;
      } else {
        var j :| 0 <= j < |live| && live[j].key == k;
        assert r[j] == live[j];
      }
    }
  }

  lemma ApplyRepresents(s: State, t: Table, since: int, storage: Storage, op: Op)
    requires ValidAlarms(s.alarms) && Represents(s.subs, t, since) && storage.Keys == s.storage.Keys
    requires op.Ordered() && since <= op.First()
    ensures Represents(Apply(s, op).subs, TableStep(storage, t, op), op.Last())
  {
    match op {
      case Subscribed(key, cancel, confirmed, lifetime, now) =>
        hide Represents, Subscribe, TableStep;
        TableStepByKeys(storage, s.storage, t, op);
        SubscribeRepresents(s, t, since, key, cancel, confirmed, lifetime, now);
      case Acknowledged(oid, stateAcked, stamp, now) =>
        hide Represents, StorePlain, AcknowledgeReply;
        RepresentsLater(s.subs, t, since, now);
        if AcknowledgeReply(s, oid, stateAcked, stamp).SimpleAck? {
          assert oid in s.alarms by { AckNeedsAlarm(s, oid, stateAcked, stamp); }
          var acked := s.alarms[oid].acked[TransitionIndex(stateAcked) := true];
          var s1 := s.(alarms := s.alarms[oid := s.alarms[oid].(acked := acked)]);
          StorePlainRepresents(s1, t, since, oid, ACKED_TRANSITIONS, Bits(acked), now);
        }
      case Written(address, oid, property, v, clock) =>
        hide Represents, Evaluate, Announce;
        RepresentsLater(s.subs, t, since, clock.outer);
        if (oid, property) in s.storage {
          var s1 := s.(storage := s.storage[(oid, property) := v]);
          if property == PRESENT_VALUE && oid in s.alarms {
            EvaluateRepresents(s1, t, since, oid, Some(address), clock);
            AnnounceRepresents(Evaluate(s1, oid, Some(address), clock), t, clock.acked, oid, property, clock.outer);
          } else {
            AnnounceRepresents(s1, t, since, oid, property, clock.outer);
          }
        }
    }
  }

  lemma AckNeedsAlarm(s: State, oid: ObjectId, stateAcked: nat, stamp: Stamp)
    requires ValidAlarms(s.alarms) && AcknowledgeReply(s, oid, stateAcked, stamp).SimpleAck?
    ensures oid in s.alarms
  {
  }

  /** In every reachable state the list has one entry per key and represents the table. */
  lemma {:induction false} CovListRefinesTable(s: State, ops: seq<Op>, now: int)
    requires ValidAlarms(s.alarms) && s.subs == [] && Timely(ops)
    requires ops != [] ==> ops[|ops| - 1].Last() <= now
    ensures Represents(Run(s, ops).subs, TableAfter(s.storage, ops), now)
  {
    if ops != [] {
      var before, op := ops[..|ops| - 1], ops[|ops| - 1];
      assert op in ops && forall o | o in before :: o in ops;
      CovListRefinesTable(s, before, op.First());
      ApplyRepresents(Run(s, before), TableAfter(s.storage, before), op.First(), s.storage, op);
      hide Apply, TableStep, Represents;
      RepresentsLater(Run(s, ops).subs, TableAfter(s.storage, ops), op.Last(), now);
    }
  }

  lemma TimelyBefore(ops: seq<Op>, op: Op)
    requires Timely(ops + [op])
    ensures Timely(ops) && op.Ordered() && (ops != [] ==> ops[|ops| - 1].Last() <= op.First())
  {
    var all := ops + [op];
    assert op in all && forall o | o in ops :: o in all;
    assert all[|ops|] == op && forall i :: 0 <= i < |ops| ==> all[i] == ops[i];
  }

  /**
   A storage write after any run. Its change event, raised last, notifies
   exactly the unexpired subscribers that monitor the property. When the write
   moves an alarm, the three writes of the alarm's own properties come first
   and each notifies exactly its own subscribers, at its own reading of the
   clock and with the values stored by then.
   */
  lemma WriteNotifiesExactly(s: State, ops: seq<Op>, op: Op) returns (inner: seq<seq<Notice>>, outer: seq<Notice>)
    requires ValidAlarms(s.alarms) && s.subs == [] && Timely(ops + [op])
    requires op.Written? && (op.oid, op.property) in s.storage
    ensures var t, was := TableAfter(s.storage, ops), Run(s, ops);
            var stored := was.(storage := was.storage[(op.oid, op.property) := op.v]);
            var mid := if op.property == PRESENT_VALUE && op.oid in was.alarms
                       then Evaluate(stored, op.oid, Some(op.address), op.clock) else stored;
            && Run(s, ops + [op]).queue == mid.queue + outer
            && NotifiesExactly(outer, mid.storage, t, op.oid, op.property, op.clock.outer)
            && (mid == stored || InnerNotifiesExactly(stored, mid, t, op, inner))
  {
    hide Announce, Evaluate, Represents, NotifiesExactly, InnerNotifiesExactly, Timely, TableAfter, Subscribe,
        Acknowledge;
    assert (ops + [op])[..|ops|] == ops && (ops + [op])[|ops|] == op;
    TimelyBefore(ops, op);
    CovListRefinesTable(s, ops, op.First());
    var t, was := TableAfter(s.storage, ops), Run(s, ops);
    SameKeys(s.storage, was.storage);
    var stored := was.(storage := was.storage[(op.oid, op.property) := op.v]);
    inner := [];
    if op.property == PRESENT_VALUE && op.oid in was.alarms {
      inner := EvaluateNotifiesExactly(stored, t, op.First(), op);
      EvaluateRepresents(stored, t, op.First(), op.oid, Some(op.address), op.clock);
      outer := AnnounceIsExact(Evaluate(stored, op.oid, Some(op.address), op.clock), t, op.clock.acked, op.oid,
                               op.property, op.clock.outer);
    } else {
      RepresentsLater(stored.subs, t, op.First(), op.clock.outer);
      outer := AnnounceIsExact(stored, t, op.clock.outer, op.oid, op.property, op.clock.outer);
    }
  }

  /** The alarm's own writes: three blocks of notifications, then the event notification. */
  ghost predicate InnerNotifiesExactly(stored: State, mid: State, t: Table, op: Op, inner: seq<seq<Notice>>)
    requires op.Written?
  {
    && |inner| == 3 && op.oid in stored.alarms && op.oid in mid.alarms && mid.alarms[op.oid].Valid() && op.v.Real?
    && var was, alarm := stored.alarms[op.oid], mid.alarms[op.oid];
       var event := EventNotice(op.address, op.oid, was.state, alarm.state,
                                alarm.stamps[if alarm.state == 3 then 0 else 2], op.v.r, 80.0, alarm.state == 3);
       var st1 := Stored(stored.storage, op.oid, 36, Enumerated(alarm.state));
       var st2 := Stored(st1, op.oid, 111, Bits([alarm.state == 3, false, false, false]));
       var st3 := Stored(st2, op.oid, 0, Bits(alarm.acked));
       && mid.queue == stored.queue + inner[0] + inner[1] + inner[2] + [event]
       && Block(inner[0], stored.storage, st1, t, op.oid, 36, op.clock.eventState)
       && Block(inner[1], stored.storage, st2, t, op.oid, 111, op.clock.statusFlags)
       && Block(inner[2], stored.storage, st3, t, op.oid, 0, op.clock.acked)
       && mid.storage == st3
  }

  function Stored(storage: Storage, oid: ObjectId, property: PropertyId, v: Value): Storage {
    if (oid, property) in storage then storage[(oid, property) := v] else storage
  }

  /** The notifications of one write; a property the object does not have is neither written nor notified. */
  ghost predicate Block(ns: seq<Notice>, had: Storage, storage: Storage, t: Table, oid: ObjectId,
                        property: PropertyId, now: int) {
    if (oid, property) in had then NotifiesExactly(ns, storage, t, oid, property, now) else ns == []
  }

  lemma StorePlainIsExact(s: State, t: Table, since: int, had: Storage, oid: ObjectId, property: PropertyId, v: Value,
                          now: int)
    returns (ns: seq<Notice>)
    requires Represents(s.subs, t, since) && since <= now && had.Keys == s.storage.Keys
    ensures var r := StorePlain(s, oid, property, v, now);
            r.queue == s.queue + ns && r.storage == Stored(s.storage, oid, property, v)
            && Block(ns, had, r.storage, t, oid, property, now) && Represents(r.subs, t, now)
  {
    hide Announce, Represents, NotifiesExactly;
    SameKeys(had, s.storage);
    if (oid, property) in s.storage {
      ns := AnnounceIsExact(s.(storage := s.storage[(oid, property) := v]), t, since, oid, property, now);
    } else {
      RepresentsLater(s.subs, t, since, now);
      ns := [];
    }
  }

  lemma EvaluateNotifiesExactly(stored: State, t: Table, since: int, op: Op) returns (inner: seq<seq<Notice>>)
    requires op.Written? && op.oid in stored.alarms && ValidAlarms(stored.alarms) && op.Ordered() && since <= op.First()
    requires (op.oid, PRESENT_VALUE) in stored.storage && stored.storage[(op.oid, PRESENT_VALUE)] == op.v
    requires Represents(stored.subs, t, since)
    ensures var mid := Evaluate(stored, op.oid, Some(op.address), op.clock);
            mid == stored || InnerNotifiesExactly(stored, mid, t, op, inner)
  {
    hide StorePlain, Represents, Block, Stored;
    var oid, clock := op.oid, op.clock;
    inner := [];
    var value := ReadReal(stored.storage, oid, PRESENT_VALUE);
    if value.Some? {
      var next := if value.value > LimitOf(stored.storage, oid) then STATE_HIGH_LIMIT else STATE_NORMAL;
      if next != stored.alarms[oid].state {
        var alarm := Moved(stored.alarms[oid], next, clock.local);
        var s1 := stored.(alarms := stored.alarms[oid := alarm]);
        var n1 := StorePlainIsExact(s1, t, since, stored.storage, oid, EVENT_STATE, Enumerated(next), clock.eventState);
        var s2 := StorePlain(s1, oid, EVENT_STATE, Enumerated(next), clock.eventState);
        var n2 := StorePlainIsExact(s2, t, clock.eventState, stored.storage, oid, STATUS_FLAGS, StatusBits(next),
                                    clock.statusFlags);
        var s3 := StorePlain(s2, oid, STATUS_FLAGS, StatusBits(next), clock.statusFlags);
        var n3 := StorePlainIsExact(s3, t, clock.statusFlags, stored.storage, oid, ACKED_TRANSITIONS,
                                    Bits(alarm.acked), clock.acked);
        inner := [n1, n2, n3];
      }
    }
  }
}
