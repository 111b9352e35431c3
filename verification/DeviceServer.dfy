/**
 The System.IO.BACnet device shim: COV subscriptions with lazy expiry and
 intrinsic high-limit alarms over a property storage that raises a change event
 for every write. Every handler runs under one lock, so a request is one step.

 `State` and the functions on it say what each handler does; the class
 `Server` is the program's object with its list, dictionaries and queue.
 */
module DeviceServer {
  import opened Wire
  import opened Identifiers

  type Address = nat

  const STATE_NORMAL: nat := 0
  const STATE_FAULT: nat := 1
  const STATE_HIGH_LIMIT: nat := 3
  const DEFAULT_HIGH_LIMIT: real := 80.0
  const TICKS_PER_SECOND: int := 10_000_000

  datatype ObjectId = ObjectId(kind: nat, instance: nat) {
    predicate Less(other: ObjectId) {
      kind < other.kind || (kind == other.kind && instance < other.instance)
    }
  }

  datatype Value = Real(r: real) | Enumerated(n: nat) | Bits(bits: seq<bool>) | Other(text: string)
  type Storage = map<(ObjectId, PropertyId), Value>

  /** The properties a client may write. */
  predicate IsWritable(kind: nat, property: PropertyId) {
    (kind, property) in {
      (DEVICE, DESCRIPTION), (DEVICE, LOCATION),
      (ANALOG_VALUE, PRESENT_VALUE), (ANALOG_VALUE, OUT_OF_SERVICE), (ANALOG_VALUE, DESCRIPTION),
      (BINARY_VALUE, PRESENT_VALUE), (BINARY_VALUE, OUT_OF_SERVICE), (BINARY_VALUE, DESCRIPTION),
      (ANALOG_INPUT, OUT_OF_SERVICE), (ANALOG_INPUT, DESCRIPTION),
      (ANALOG_VALUE, HIGH_LIMIT), (FILE, ARCHIVE), (FILE, DESCRIPTION), (TREND_LOG, DESCRIPTION)}
  }

  // ----- Alarms -----

  datatype Stamp = Sequence(n: nat) | DateTime(ms: int)

  /** To-offnormal, to-fault and to-normal, in this order. */
  datatype AlarmState = AlarmState(state: nat, stamps: seq<Stamp>, acked: seq<bool>) {
    predicate Valid() {
      |stamps| == 3 && |acked| == 3 && (state == STATE_NORMAL || state == STATE_HIGH_LIMIT)
    }
  }

  const FRESH_ALARM: AlarmState :=
    AlarmState(STATE_NORMAL, [Sequence(0), Sequence(0), Sequence(0)], [true, true, true])

  function TransitionIndex(state: nat): (r: nat)
    ensures r < 3
  {
    if state == STATE_NORMAL then 2 else if state == STATE_FAULT then 1 else 0
  }

  predicate SameStamp(stored: Stamp, given: Stamp) {
    match (stored, given)
    case (Sequence(a), Sequence(b)) => a == b
    case (DateTime(a), DateTime(b)) => -10 < a - b < 10
    case _ => false
  }

  // ----- Subscriptions -----

  datatype Key = Key(address: Address, processId: nat, oid: ObjectId, property: Option<PropertyId>)

  datatype Subscription = Subscription(key: Key, confirmed: bool, lifetime: nat, start: int) {
    predicate Expired(now: int) {
      lifetime != 0 && now - start >= lifetime * TICKS_PER_SECOND
    }

    function Remaining(now: int): nat {
      if lifetime == 0 || lifetime * TICKS_PER_SECOND < now - start then 0
      else (lifetime * TICKS_PER_SECOND - (now - start)) / TICKS_PER_SECOND
    }
  }

  predicate Monitors(key: Key, oid: ObjectId, property: PropertyId) {
    key.oid == oid &&
    match key.property
    case None => property == PRESENT_VALUE || property == STATUS_FLAGS
    case Some(id) => id == property
  }

  function RemoveExpired(subs: seq<Subscription>, now: int): seq<Subscription> {
    if subs == [] then []
    else (if subs[0].Expired(now) then [] else [subs[0]]) + RemoveExpired(subs[1..], now)
  }

  /** Position of the entry with `key`, or the length of the list. */
  function IndexOf(subs: seq<Subscription>, key: Key): (r: nat)
    ensures r <= |subs|
    ensures r < |subs| ==> subs[r].key == key
    ensures forall i :: 0 <= i < r ==> subs[i].key != key
  {
    if subs == [] then 0 else if subs[0].key == key then 0 else 1 + IndexOf(subs[1..], key)
  }

  // ----- Notifications -----

  datatype Notice =
    | CovNotice(sub: Subscription, remaining: nat, values: seq<(PropertyId, Value)>)
    | EventNotice(recipient: Address, oid: ObjectId, from: nat, to: nat, stamp: Stamp, exceeding: real, limit: real,
                  ackRequired: bool)

  function ReadOne(storage: Storage, oid: ObjectId, property: PropertyId): seq<(PropertyId, Value)> {
    if (oid, property) in storage then [(property, storage[(oid, property)])] else []
  }

  /** The monitored property and the status flags, each once, as stored now. */
  function CovNoticeOf(storage: Storage, sub: Subscription, now: int): Notice {
    var monitored := if sub.key.property.None? then PRESENT_VALUE else sub.key.property.value;
    CovNotice(sub, sub.Remaining(now),
              ReadOne(storage, sub.key.oid, monitored)
              + if monitored == STATUS_FLAGS then [] else ReadOne(storage, sub.key.oid, STATUS_FLAGS))
  }

  function CovNotices(storage: Storage, subs: seq<Subscription>, oid: ObjectId, property: PropertyId,
                      now: int): seq<Notice> {
    if subs == [] then []
    else (if Monitors(subs[0].key, oid, property) then [CovNoticeOf(storage, subs[0], now)] else [])
         + CovNotices(storage, subs[1..], oid, property, now)
  }

  // ----- What the handlers do -----

  datatype State = State(storage: Storage, alarms: map<ObjectId, AlarmState>, subs: seq<Subscription>,
                         queue: seq<Notice>)

  /** The clock readings of one storage write, in the order they are taken. */
  datatype Clock = Clock(local: int, eventState: int, statusFlags: int, acked: int, outer: int)

  /** The change event of a property without an alarm. */
  function Announce(s: State, oid: ObjectId, property: PropertyId, now: int): (r: State)
    ensures r.storage == s.storage && r.alarms == s.alarms
  {
    var subs := RemoveExpired(s.subs, now);
    s.(subs := subs, queue := s.queue + CovNotices(s.storage, subs, oid, property, now))
  }

  /** A write of a property that is not present-value. A property that is not stored is not written. */
  function StorePlain(s: State, oid: ObjectId, property: PropertyId, v: Value, now: int): (r: State)
    ensures r.alarms == s.alarms && r.storage.Keys == s.storage.Keys
  {
    if (oid, property) !in s.storage then s
    else Announce(s.(storage := s.storage[(oid, property) := v]), oid, property, now)
  }

  function ReadReal(storage: Storage, oid: ObjectId, property: PropertyId): Option<real> {
    if (oid, property) in storage && storage[(oid, property)].Real? then Some(storage[(oid, property)].r) else None
  }

  function LimitOf(storage: Storage, oid: ObjectId): real {
    var limit := ReadReal(storage, oid, HIGH_LIMIT);
    if limit.Some? then limit.value else DEFAULT_HIGH_LIMIT
  }

  function StatusBits(state: nat): Value {
    Bits([state != STATE_NORMAL, false, false, false])
  }

  function Moved(alarm: AlarmState, next: nat, local: int): AlarmState
    requires alarm.Valid()
  {
    var index := TransitionIndex(next);
    AlarmState(next, alarm.stamps[index := DateTime(local - local % 10)], alarm.acked[index := index != 0])
  }

  /**
   The out-of-range event of an alarm that has just moved. The limit it names is the default one, whatever is stored.
   */
  function EventOf(recipient: Address, oid: ObjectId, from: nat, alarm: AlarmState, value: real): (e: Notice)
    requires alarm.Valid()
    ensures e.EventNotice?
  {
    EventNotice(recipient, oid, from, alarm.state, alarm.stamps[TransitionIndex(alarm.state)], value,
                DEFAULT_HIGH_LIMIT, alarm.state != STATE_NORMAL)
  }

  function Evaluate(s: State, oid: ObjectId, requester: Option<Address>, clock: Clock): (r: State)
    requires oid in s.alarms && ValidAlarms(s.alarms)
    ensures ValidAlarms(r.alarms) && r.alarms.Keys == s.alarms.Keys && r.storage.Keys == s.storage.Keys
  {
    match ReadReal(s.storage, oid, PRESENT_VALUE)
    case None => s
    case Some(value) =>
      var next := if value > LimitOf(s.storage, oid) then STATE_HIGH_LIMIT else STATE_NORMAL;
      if next == s.alarms[oid].state then s
      else
        var alarm := Moved(s.alarms[oid], next, clock.local);
        var s1 := s.(alarms := s.alarms[oid := alarm]);
        var s2 := StorePlain(s1, oid, EVENT_STATE, Enumerated(next), clock.eventState);
        var s3 := StorePlain(s2, oid, STATUS_FLAGS, StatusBits(next), clock.statusFlags);
        var s4 := StorePlain(s3, oid, ACKED_TRANSITIONS, Bits(alarm.acked), clock.acked);
        if requester.None? then s4
        else s4.(queue := s4.queue + [EventOf(requester.value, oid, s.alarms[oid].state, alarm, value)])
  }

  ghost predicate ValidAlarms(alarms: map<ObjectId, AlarmState>) {
    forall o | o in alarms :: alarms[o].Valid()
  }

  function Changed(s: State, oid: ObjectId, property: PropertyId, requester: Option<Address>, clock: Clock): (r: State)
    requires ValidAlarms(s.alarms)
    ensures ValidAlarms(r.alarms) && r.alarms.Keys == s.alarms.Keys && r.storage.Keys == s.storage.Keys
  {
    Announce(if property == PRESENT_VALUE && oid in s.alarms then Evaluate(s, oid, requester, clock) else s,
             oid, property, clock.outer)
  }

  function Store(s: State, oid: ObjectId, property: PropertyId, v: Value, requester: Option<Address>,
                 clock: Clock): (r: State)
    requires ValidAlarms(s.alarms)
    ensures ValidAlarms(r.alarms) && r.alarms.Keys == s.alarms.Keys && r.storage.Keys == s.storage.Keys
  {
    if (oid, property) !in s.storage then s
    else Changed(s.(storage := s.storage[(oid, property) := v]), oid, property, requester, clock)
  }

  datatype Reply = SimpleAck | Error(category: string, code: string)

  function SubscribeReply(storage: Storage, key: Key, cancel: bool): Reply {
    if cancel then SimpleAck
    else if (key.oid, OBJECT_IDENTIFIER) !in storage then Error("object", "unknown-object")
    else if key.property.None? && key.oid.kind !in {ANALOG_VALUE, BINARY_VALUE, ANALOG_INPUT} then
      Error("object", "optional-functionality-not-supported")
    else if key.property.Some? && (key.oid, key.property.value) !in storage then Error("property", "unknown-property")
    else SimpleAck
  }

  function Subscribe(s: State, key: Key, cancel: bool, confirmed: bool, lifetime: nat, now: int): State {
    var live := RemoveExpired(s.subs, now);
    var i := IndexOf(live, key);
    var sub := Subscription(key, confirmed, lifetime, now);
    if cancel then s.(subs := if i < |live| then live[..i] + live[i + 1..] else live)
    else if SubscribeReply(s.storage, key, cancel).Error? then s.(subs := live)
    else s.(subs := if i < |live| then live[i := sub] else live + [sub],
            queue := s.queue + [CovNoticeOf(s.storage, sub, now)])
  }

  function AcknowledgeReply(s: State, oid: ObjectId, stateAcked: nat, stamp: Stamp): Reply
    requires ValidAlarms(s.alarms)
  {
    if (oid, OBJECT_IDENTIFIER) !in s.storage then Error("object", "unknown-object")
    else if oid !in s.alarms then Error("object", "no-alarm-configured")
    else
      var alarm, index := s.alarms[oid], TransitionIndex(stateAcked);
      var reached := if index == 0 then alarm.state != STATE_NORMAL && alarm.state == stateAcked
                     else index == 2 && alarm.state == STATE_NORMAL;
      if !reached then Error("services", "invalid-event-state")
      else if !SameStamp(alarm.stamps[index], stamp) then Error("services", "invalid-time-stamp")
      else SimpleAck
  }

  function Acknowledge(s: State, oid: ObjectId, stateAcked: nat, stamp: Stamp, now: int): (r: State)
    requires ValidAlarms(s.alarms)
    ensures ValidAlarms(r.alarms) && r.alarms.Keys == s.alarms.Keys && r.storage.Keys == s.storage.Keys
  {
    if AcknowledgeReply(s, oid, stateAcked, stamp).Error? then s
    else
      var alarm := s.alarms[oid];
      var acked := alarm.acked[TransitionIndex(stateAcked) := true];
      StorePlain(s.(alarms := s.alarms[oid := alarm.(acked := acked)]), oid, ACKED_TRANSITIONS, Bits(acked), now)
  }

  /** What GetEventInformation says of one object. */
  datatype Summary = Summary(oid: ObjectId, state: nat, acked: seq<bool>, stamps: seq<Stamp>)

  predicate Listed(alarm: AlarmState) {
    alarm.state != STATE_NORMAL || exists b | b in alarm.acked :: !b
  }

  // ----- The object -----

  class Server {
    var storage: Storage
    var alarms: map<ObjectId, AlarmState>
    var subscriptions: seq<Subscription>
    var notifications: seq<Notice>
    var requester: Option<Address>

    constructor (storage: Storage, alarms: map<ObjectId, AlarmState>)
      ensures Snapshot() == State(storage, alarms, [], []) && requester == None
    {
      this.storage, this.alarms, subscriptions, notifications, requester := storage, alarms, [], [], None;
    }

    function Snapshot(): State
      reads this
    {
      State(storage, alarms, subscriptions, notifications)
    }

    method QueueNotification(sub: Subscription, now: int)
      modifies this`notifications
      ensures notifications == old(notifications) + [CovNoticeOf(storage, sub, now)]
    {
      var monitored := if sub.key.property.None? then PRESENT_VALUE else sub.key.property.value;
      var values := ReadOne(storage, sub.key.oid, monitored);
      if monitored != STATUS_FLAGS {
        values := values + ReadOne(storage, sub.key.oid, STATUS_FLAGS);
      } else {
        assert values == values + [];
      }
      notifications := notifications + [CovNotice(sub, sub.Remaining(now), values)];
    }

    method OnSubscribe(key: Key, cancel: bool, confirmed: bool, lifetime: nat, now: int) returns (reply: Reply)
      modifies this`subscriptions, this`notifications
      ensures reply == SubscribeReply(storage, key, cancel)
      ensures Snapshot() == Subscribe(old(Snapshot()), key, cancel, confirmed, lifetime, now)
    {
      subscriptions := RemoveExpired(subscriptions, now);
      var existing := IndexOf(subscriptions, key);
      if cancel {
        if existing < |subscriptions| {
          subscriptions := subscriptions[..existing] + subscriptions[existing + 1..];
        }
        return SimpleAck;
      }
      if (key.oid, OBJECT_IDENTIFIER) !in storage {
        return Error("object", "unknown-object");
      }
      if key.property.None? && key.oid.kind !in {ANALOG_VALUE, BINARY_VALUE, ANALOG_INPUT} {
        return Error("object", "optional-functionality-not-supported");
      }
      if key.property.Some? && (key.oid, key.property.value) !in storage {
        return Error("property", "unknown-property");
      }
      var sub := Subscription(key, confirmed, lifetime, now);
      if existing == |subscriptions| {
        subscriptions := subscriptions + [sub];
      } else {
        subscriptions := subscriptions[existing := sub];
      }
      QueueNotification(sub, now);
      return SimpleAck;
    }

    /**
     The change event. The alarm is evaluated first; its own writes raise this
     event again before the loop begins, and the loop changes nothing but the
     queue, so the list is never modified while it is being walked.
     */
    method OnChangeOfValue(oid: ObjectId, property: PropertyId, clock: Clock)
      requires ValidAlarms(alarms)
      modifies this`alarms, this`storage, this`subscriptions, this`notifications
      ensures Snapshot() == Changed(old(Snapshot()), oid, property, requester, clock)
      decreases if property == PRESENT_VALUE then 1 else 0, 1
    {
      hide CovNotices, CovNoticeOf, RemoveExpired;
      if property == PRESENT_VALUE && oid in alarms {
        EvaluateAlarm(oid, clock);
      }
      var now := clock.outer;
      subscriptions := RemoveExpired(subscriptions, now);
      NotifySubscribers(oid, property, now);
    }

    method NotifySubscribers(oid: ObjectId, property: PropertyId, now: int)
      modifies this`notifications
      ensures notifications == old(notifications) + CovNotices(storage, subscriptions, oid, property, now)
    {
      hide CovNoticeOf;
      var i := 0;
      while i < |subscriptions|
        invariant 0 <= i <= |subscriptions|
        invariant notifications + CovNotices(storage, subscriptions[i..], oid, property, now) ==
                  old(notifications) + CovNotices(storage, subscriptions, oid, property, now)
        modifies this`notifications
      {
        var sub := subscriptions[i];
        assert subscriptions[i..][1..] == subscriptions[i + 1..];
        ghost var rest := CovNotices(storage, subscriptions[i + 1..], oid, property, now);
        if Monitors(sub.key, oid, property) {
          QueueNotification(sub, now);
        }
        i := i + 1;
      }
      assert notifications == notifications + CovNotices(storage, subscriptions[i..], oid, property, now);
    }

    /** `DeviceStorage.WriteProperty`: stores, then raises the change event. */
    method WriteStorage(oid: ObjectId, property: PropertyId, v: Value, clock: Clock)
      requires ValidAlarms(alarms)
      modifies this`alarms, this`storage, this`subscriptions, this`notifications
      ensures Snapshot() == Store(old(Snapshot()), oid, property, v, requester, clock)
      ensures property != PRESENT_VALUE ==> Snapshot() == StorePlain(old(Snapshot()), oid, property, v, clock.outer)
      decreases if property == PRESENT_VALUE then 1 else 0, 2
    {
      hide Announce, Evaluate;
      if (oid, property) in storage {
        storage := storage[(oid, property) := v];
        OnChangeOfValue(oid, property, clock);
      }
    }

    method EvaluateAlarm(oid: ObjectId, clock: Clock)
      requires ValidAlarms(alarms) && oid in alarms
      modifies this`alarms, this`storage, this`subscriptions, this`notifications
      ensures Snapshot() == Evaluate(old(Snapshot()), oid, requester, clock)
      decreases 1, 0
    {
      hide StorePlain, Store;
      var pv := ReadReal(storage, oid, PRESENT_VALUE);
      if pv.None? {
        return;
      }
      var limit := DEFAULT_HIGH_LIMIT;
      var hl := ReadReal(storage, oid, HIGH_LIMIT);
      if hl.Some? {
        limit := hl.value;
      }
      var alarm := alarms[oid];
      var next := if pv.value > limit then STATE_HIGH_LIMIT else STATE_NORMAL;
      if next == alarm.state {
        return;
      }
      var from := alarm.state;
      var stamp := DateTime(clock.local - clock.local % 10);
      var index := TransitionIndex(next);
      var ackRequired := index == 0;
      alarm := AlarmState(next, alarm.stamps[index := stamp], alarm.acked[index := !ackRequired]);
      alarms := alarms[oid := alarm];
      WriteStorage(oid, EVENT_STATE, Enumerated(next), clock.(outer := clock.eventState));
      WriteStorage(oid, STATUS_FLAGS, Bits([next != STATE_NORMAL, false, false, false]),
                   clock.(outer := clock.statusFlags));
      WriteStorage(oid, ACKED_TRANSITIONS, Bits(alarm.acked), clock.(outer := clock.acked));
      if requester.Some? {
        notifications := notifications
          + [EventNotice(requester.value, oid, from, next, stamp, pv.value, DEFAULT_HIGH_LIMIT, ackRequired)];
      }
    }

    /** One storage write on behalf of a client, as the write handlers bracket it. */
    method OnWrite(address: Address, oid: ObjectId, property: PropertyId, v: Value, clock: Clock)
      requires ValidAlarms(alarms)
      modifies this
      ensures Snapshot() == Store(old(Snapshot()), oid, property, v, Some(address), clock) && requester == None
    {
      hide Store;
      requester := Some(address);
      WriteStorage(oid, property, v, clock);
      requester := None;
    }

    method OnAcknowledgeAlarm(oid: ObjectId, stateAcked: nat, stamp: Stamp, now: int) returns (reply: Reply)
      requires ValidAlarms(alarms)
      modifies this`alarms, this`storage, this`subscriptions, this`notifications
      ensures reply == AcknowledgeReply(old(Snapshot()), oid, stateAcked, stamp)
      ensures Snapshot() == Acknowledge(old(Snapshot()), oid, stateAcked, stamp, now)
    {
      hide Announce;
      if (oid, OBJECT_IDENTIFIER) !in storage {
        return Error("object", "unknown-object");
      }
      if oid !in alarms {
        return Error("object", "no-alarm-configured");
      }
      var alarm := alarms[oid];
      var index := TransitionIndex(stateAcked);
      var reached := if index == 0 then alarm.state != STATE_NORMAL && alarm.state == stateAcked
                     else index == 2 && alarm.state == STATE_NORMAL;
      if !reached {
        return Error("services", "invalid-event-state");
      }
      if !SameStamp(alarm.stamps[index], stamp) {
        return Error("services", "invalid-time-stamp");
      }
      alarm := alarm.(acked := alarm.acked[index := true]);
      alarms := alarms[oid := alarm];
      WriteStorage(oid, ACKED_TRANSITIONS, Bits(alarm.acked), Clock(now, now, now, now, now));
      return SimpleAck;
    }

    /** Exactly the objects that are not normal or have an unacknowledged transition, in identifier order. */
    method OnGetEventInformation() returns (summaries: seq<Summary>)
      ensures forall i, j :: 0 <= i < j < |summaries| ==>
                var a, b := summaries[i].oid, summaries[j].oid;
                a.kind < b.kind || (a.kind == b.kind && a.instance < b.instance)
      ensures forall s | s in summaries ::
                s.oid in alarms && Listed(alarms[s.oid])
                && s == Summary(s.oid, alarms[s.oid].state, alarms[s.oid].acked, alarms[s.oid].stamps)
      ensures forall o | o in alarms && Listed(alarms[o]) :: exists s :: s in summaries && s.oid == o
    {
      summaries := [];
      var todo := alarms.Keys;
      while todo != {}
        invariant todo <= alarms.Keys
        invariant forall i, j :: 0 <= i < j < |summaries| ==> summaries[i].oid.Less(summaries[j].oid)
        invariant forall s, o | s in summaries && o in todo :: s.oid.Less(o)
        invariant forall s | s in summaries ::
                    s.oid in alarms && Listed(alarms[s.oid])
                    && s == Summary(s.oid, alarms[s.oid].state, alarms[s.oid].acked, alarms[s.oid].stamps)
        invariant forall o | o in alarms && o !in todo && Listed(alarms[o]) :: exists s :: s in summaries && s.oid == o
        decreases todo
      {
        LeastExists(todo);
        var id :| id in todo && forall o | o in todo && o != id :: id.Less(o);
        todo := todo - {id};
        var alarm := alarms[id];
        if alarm.state == STATE_NORMAL && forall a | a in alarm.acked :: a {
          continue;
        }
        ghost var before := summaries;
        var summary := Summary(id, alarm.state, alarm.acked, alarm.stamps);
        summaries := summaries + [summary];
        assert summary in summaries && forall s | s in before :: s in summaries;
      }
    }
  }

  lemma {:induction false} LeastExists(s: set<ObjectId>)
    requires s != {}
    ensures exists id :: id in s && forall o | o in s && o != id :: id.Less(o)
  {
    var x :| x in s;
    if s == {x} {
      assert x in s;
    } else {
      LeastExists(s - {x});
      var y :| y in s - {x} && forall o | o in s - {x} && o != y :: y.Less(o);
      assert x.Less(y) || y.Less(x) by { assert x.kind != y.kind || x.instance != y.instance; }
      var least := if x.Less(y) then x else y;
      assert least in s;
      forall o | o in s && o != least ensures least.Less(o) {
        assert o in s - {x} || o == x;
      }
    }
  }
}
