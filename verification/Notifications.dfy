/**
 Which COV notifications are queued, told in the numbers of the protocol and
 from the history of requests alone: who has a subscription in force, what it
 watches, what each notification carries, and that nothing else is sent.
 */
module Notifications {
  import opened Wire
  import opened Identifiers
  import opened DeviceServer
  import opened CovTheorems

  datatype Grant = Grant(confirmed: bool, lifetime: nat, at: int)

  function At(storage: Storage, oid: ObjectId, property: PropertyId): Option<Value> {
    if (oid, property) in storage then Some(storage[(oid, property)]) else None
  }

  // ----- What the history grants -----

  /** The object exists and is of a kind with COV, or the property named is there. */
  predicate CanSubscribe(storage: Storage, key: Key) {
    (key.oid, 75) in storage
    && match key.property
       case None => key.oid.kind == 0 || key.oid.kind == 2 || key.oid.kind == 5
       case Some(id) => (key.oid, id) in storage
  }

  /** The last subscription granted to a key and not cancelled since. */
  function GrantOf(storage: Storage, ops: seq<Op>, key: Key): Option<Grant> {
    if ops == [] then None
    else
      var before, op := ops[..|ops| - 1], ops[|ops| - 1];
      match op
      case Subscribed(k, cancel, confirmed, lifetime, now) =>
        if k != key then GrantOf(storage, before, key)
        else if cancel then None
        else if CanSubscribe(storage, key) then Some(Grant(confirmed, lifetime, now))
        else GrantOf(storage, before, key)
      case _ => GrantOf(storage, before, key)
  }

  /** A property of its own, or Present_Value (85) and Status_Flags (111). */
  predicate Watches(key: Key, oid: ObjectId, property: PropertyId) {
    key.oid == oid && (key.property == Some(property) || (key.property == None && (property == 85 || property == 111)))
  }

  function ValueOf(storage: Storage, oid: ObjectId, property: PropertyId): seq<(PropertyId, Value)> {
    if (oid, property) in storage then [(property, storage[(oid, property)])] else []
  }

  /** What is watched, and the status flags, each once. */
  function Content(storage: Storage, key: Key): seq<(PropertyId, Value)> {
    match key.property
    case None => ValueOf(storage, key.oid, 85) + ValueOf(storage, key.oid, 111)
    case Some(id) => ValueOf(storage, key.oid, id) + if id == 111 then [] else ValueOf(storage, key.oid, 111)
  }

  /** The notification due to a key for one change: within its lifetime, with the whole seconds that remain of it. */
  function Due(storage: Storage, key: Key, grant: Option<Grant>, oid: ObjectId, property: PropertyId,
               now: int): seq<Notice>
  {
    match grant
    case None => []
    case Some(g) =>
      if !Watches(key, oid, property) then []
      else if g.lifetime == 0 then [CovNotice(Subscription(key, g.confirmed, 0, g.at), 0, Content(storage, key))]
      else if now - g.at >= g.lifetime * 10_000_000 then []
      else [CovNotice(Subscription(key, g.confirmed, g.lifetime, g.at),
                      (g.lifetime * 10_000_000 - (now - g.at)) / 10_000_000, Content(storage, key))]
  }

  /** The COV notifications for a key. */
  function For(key: Key, ns: seq<Notice>): seq<Notice> {
    if ns == [] then []
    else (if ns[0].CovNotice? && ns[0].sub.key == key then [ns[0]] else []) + For(key, ns[1..])
  }

  lemma {:induction false} ForAdds(key: Key, a: seq<Notice>, b: seq<Notice>)
    ensures For(key, a + b) == For(key, a) + For(key, b)
  {
    if a == [] {
      assert a + b == b;
    } else {
      assert (a + b)[1..] == a[1..] + b;
      ForAdds(key, a[1..], b);
    }
  }

  lemma {:induction false} ForNobody(key: Key, ns: seq<Notice>)
    requires forall n | n in ns :: !(n.CovNotice? && n.sub.key == key)
    ensures For(key, ns) == []
  {
    if ns != [] {
      assert ns[0] in ns;
      ForNobody(key, ns[1..]);
    }
  }

  lemma {:induction false} ForOne(key: Key, ns: seq<Notice>, n: Notice)
    requires forall m | m in ns :: m.CovNotice?
    requires forall i, j :: 0 <= i < j < |ns| ==> ns[i].CovNotice? && ns[j].CovNotice? && ns[i].sub.key != ns[j].sub.key
    requires n in ns && n.CovNotice? && n.sub.key == key
    ensures For(key, ns) == [n]
  {
    var rest := ns[1..];
    assert forall i :: 0 <= i < |rest| ==> rest[i] == ns[i + 1];
    if ns[0] == n {
      ForNobody(key, rest);
    } else {
      var i :| 0 <= i < |ns| && ns[i] == n;
      assert rest[i - 1] == n;
      ForOne(key, rest, n);
    }
  }

  // ----- The table holds what the history grants -----

  lemma CanSubscribeIs(storage: Storage, key: Key)
    ensures CanSubscribe(storage, key) <==> SubscribeReply(storage, key, false) == SimpleAck
  {
  }

  function Tabled(key: Key, grant: Option<Grant>): Option<Subscription> {
    match grant
    case None => None
    case Some(g) => Some(Subscription(key, g.confirmed, g.lifetime, g.at))
  }

  function InTable(t: Table, key: Key): Option<Subscription> {
    if key in t then Some(t[key]) else None
  }

  lemma {:induction false} TableHoldsGrants(storage: Storage, ops: seq<Op>, key: Key)
    ensures InTable(TableAfter(storage, ops), key) == Tabled(key, GrantOf(storage, ops, key))
  {
    if ops != [] {
      TableHoldsGrants(storage, ops[..|ops| - 1], key);
      CanSubscribeIs(storage, key);
      hide SubscribeReply, CanSubscribe;
    }
  }

  /** An exact block of notifications holds what is due to each key, and nothing more. */
  lemma {:induction false} BlockIsDue(ns: seq<Notice>, storage: Storage, t: Table, oid: ObjectId,
                                      property: PropertyId, now: int, key: Key, grant: Option<Grant>)
    requires NotifiesExactly(ns, storage, t, oid, property, now) && InTable(t, key) == Tabled(key, grant)
    ensures For(key, ns) == Due(storage, key, grant, oid, property, now)
  {
    hide CovNoticeOf, For, Content, Monitors, Watches, Subscription.Expired;
    WatchesIs(key, oid, property);
    if key in t && !t[key].Expired(now) && Monitors(key, oid, property) {
      DueIs(storage, key, grant.value, now);
      ForOne(key, ns, CovNoticeOf(storage, t[key], now));
    } else {
      if key in t {
        DueIs(storage, key, grant.value, now);
      }
      ForNobody(key, ns);
    }
  }

  lemma WatchesIs(key: Key, oid: ObjectId, property: PropertyId)
    ensures Watches(key, oid, property) <==> Monitors(key, oid, property)
  {
  }

  lemma DueIs(storage: Storage, key: Key, g: Grant, now: int)
    ensures var sub := Subscription(key, g.confirmed, g.lifetime, g.at);
            && (sub.Expired(now) <==> g.lifetime != 0 && now - g.at >= g.lifetime * 10_000_000)
            && CovNoticeOf(storage, sub, now).CovNotice? && CovNoticeOf(storage, sub, now).sub == sub
            && (!sub.Expired(now) ==>
                  CovNoticeOf(storage, sub, now) ==
                  CovNotice(sub, if g.lifetime == 0 then 0 else (g.lifetime * 10_000_000 - (now - g.at)) / 10_000_000,
                            Content(storage, key)))
  {
    assert ValueOf(storage, key.oid, 111) + [] == ValueOf(storage, key.oid, 111);
  }

  // ----- Writes -----

  /** What a write of one property queues, if the object has the property. */
  function DueIfStored(had: Storage, storage: Storage, key: Key, grant: Option<Grant>, oid: ObjectId,
                       property: PropertyId, now: int): seq<Notice>
  {
    if (oid, property) in had then Due(storage, key, grant, oid, property, now) else []
  }

  function Put(storage: Storage, oid: ObjectId, property: PropertyId, v: Value): Storage {
    if (oid, property) in storage then storage[(oid, property) := v] else storage
  }

  /** What an alarm that moves queues for a key: Event_State, Status_Flags and Acked_Transitions, in this order. */
  function DueToAlarm(storage: Storage, key: Key, grant: Option<Grant>, oid: ObjectId, next: nat, acked: seq<bool>,
                      clock: Clock): seq<Notice>
  {
    var st1 := Put(storage, oid, 36, Enumerated(next));
    var st2 := Put(st1, oid, 111, Bits([next == 3, false, false, false]));
    var st3 := Put(st2, oid, 0, Bits(acked));
    DueIfStored(storage, st1, key, grant, oid, 36, clock.eventState)
    + DueIfStored(storage, st2, key, grant, oid, 111, clock.statusFlags)
    + DueIfStored(storage, st3, key, grant, oid, 0, clock.acked)
  }

  /**
   After any run, a stored write queues for each key exactly what is due to it,
   last of all for the property written; before that, only a write of a present
   value that moves an alarm queues anything, what is due for the alarm's own
   properties.
   */
  lemma WritesNotifyExactly(s: State, ops: seq<Op>, op: Op, key: Key) returns (earlier: seq<Notice>, last: seq<Notice>)
    requires ValidAlarms(s.alarms) && s.subs == [] && Timely(ops + [op])
    requires op.Written? && (op.oid, op.property) in s.storage
    ensures op.oid in s.alarms ==> op.oid in Run(s, ops + [op]).alarms && op.oid in Run(s, ops).alarms
    ensures Run(s, ops + [op]).queue == Run(s, ops).queue + earlier + last
    ensures At(Run(s, ops + [op]).storage, op.oid, op.property) == Some(op.v)
    ensures var grant, after := GrantOf(s.storage, ops, key), Run(s, ops + [op]);
            For(key, last) == Due(after.storage, key, grant, op.oid, op.property, op.clock.outer)
    ensures var grant, was, after := GrantOf(s.storage, ops, key), Run(s, ops), Run(s, ops + [op]);
            if op.property == 85 && op.oid in s.alarms && after.alarms[op.oid].state != was.alarms[op.oid].state then
              For(key, earlier) == DueToAlarm(was.storage[(op.oid, 85) := op.v], key, grant, op.oid,
                                              after.alarms[op.oid].state, after.alarms[op.oid].acked, op.clock)
            else earlier == []
  {
    hide For, Due, DueToAlarm, GrantOf, Tabled, InTable, TableAfter, NotifiesExactly, InnerNotifiesExactly, Evaluate;
    hide Run, Timely, ValidAlarms, At;
    var inner, outer := WriteNotifiesExactly(s, ops, op);
    var t, was := TableAfter(s.storage, ops), Run(s, ops);
    var stored := was.(storage := was.storage[(op.oid, op.property) := op.v]);
    var mid := if op.property == PRESENT_VALUE && op.oid in was.alarms
               then Evaluate(stored, op.oid, Some(op.address), op.clock) else stored;
    last := outer;
    AfterWrite(s, ops, op);
    TableHoldsGrants(s.storage, ops, key);
    BlockIsDue(outer, mid.storage, t, op.oid, op.property, op.clock.outer, key, GrantOf(s.storage, ops, key));
    earlier := [];
    if mid != stored {
      earlier := EarlierIsDue(stored, mid, t, op, inner, key, GrantOf(s.storage, ops, key));
      EvaluateMoves(stored, op.oid, Some(op.address), op.clock);
    }
  }

  lemma AfterWrite(s: State, ops: seq<Op>, op: Op)
    requires ValidAlarms(s.alarms) && op.Written? && (op.oid, op.property) in s.storage
    ensures var was := Run(s, ops);
            var stored := was.(storage := was.storage[(op.oid, op.property) := op.v]);
            var mid := if op.property == PRESENT_VALUE && op.oid in was.alarms
                       then Evaluate(stored, op.oid, Some(op.address), op.clock) else stored;
            && Run(s, ops + [op]).storage == mid.storage && Run(s, ops + [op]).alarms == mid.alarms
            && At(mid.storage, op.oid, op.property) == Some(op.v)
            && was.alarms.Keys == s.alarms.Keys
  {
    assert (ops + [op])[..|ops|] == ops && (ops + [op])[|ops|] == op;
    SameKeys(s.storage, Run(s, ops).storage);
    var was := Run(s, ops);
    var stored := was.(storage := was.storage[(op.oid, op.property) := op.v]);
    if op.property == PRESENT_VALUE && op.oid in was.alarms {
      EvaluateKeepsPresentValue(stored, op.oid, Some(op.address), op.clock);
    }
    hide Announce, Evaluate, Subscribe, Acknowledge;
  }

  lemma EvaluateKeepsPresentValue(s: State, oid: ObjectId, requester: Option<Address>, clock: Clock)
    requires oid in s.alarms && ValidAlarms(s.alarms)
    ensures At(Evaluate(s, oid, requester, clock).storage, oid, PRESENT_VALUE) == At(s.storage, oid, PRESENT_VALUE)
  {
    hide CovNotices, RemoveExpired;
  }

  /** A property the object does not have is not written, and nobody is told. */
  lemma {:induction false} UnknownIsNotWritten(s: State, ops: seq<Op>, op: Op)
    requires ValidAlarms(s.alarms) && op.Written? && (op.oid, op.property) !in s.storage
    ensures Run(s, ops + [op]) == Run(s, ops)
  {
    assert (ops + [op])[..|ops|] == ops;
    SameKeys(s.storage, Run(s, ops).storage);
    hide Changed, Subscribe, Acknowledge;
  }

  lemma EvaluateMoves(s: State, oid: ObjectId, requester: Option<Address>, clock: Clock)
    requires oid in s.alarms && ValidAlarms(s.alarms) && Evaluate(s, oid, requester, clock) != s
    ensures oid in Evaluate(s, oid, requester, clock).alarms
    ensures Evaluate(s, oid, requester, clock).alarms[oid].state != s.alarms[oid].state
  {
    hide StorePlain;
  }

  lemma EarlierIsDue(stored: State, mid: State, t: Table, op: Op, inner: seq<seq<Notice>>, key: Key,
                     grant: Option<Grant>)
    returns (earlier: seq<Notice>)
    requires op.Written? && InnerNotifiesExactly(stored, mid, t, op, inner) && InTable(t, key) == Tabled(key, grant)
    ensures op.oid in mid.alarms && mid.queue == stored.queue + earlier
    ensures var alarm := mid.alarms[op.oid];
            For(key, earlier) == DueToAlarm(stored.storage, key, grant, op.oid, alarm.state, alarm.acked, op.clock)
  {
    hide NotifiesExactly, Due, For, InTable, Tabled;
    var alarm := mid.alarms[op.oid];
    var event := mid.queue[|mid.queue| - 1];
    earlier := inner[0] + inner[1] + inner[2] + [event];
    var st1 := Put(stored.storage, op.oid, 36, Enumerated(alarm.state));
    var st2 := Put(st1, op.oid, 111, Bits([alarm.state == 3, false, false, false]));
    var st3 := Put(st2, op.oid, 0, Bits(alarm.acked));
    StoredBlockIsDue(inner[0], stored.storage, st1, t, op.oid, 36, op.clock.eventState, key, grant);
    StoredBlockIsDue(inner[1], stored.storage, st2, t, op.oid, 111, op.clock.statusFlags, key, grant);
    StoredBlockIsDue(inner[2], stored.storage, st3, t, op.oid, 0, op.clock.acked, key, grant);
    hide Block;
    ForAdds(key, inner[0], inner[1]);
    ForAdds(key, inner[0] + inner[1], inner[2]);
    ForAdds(key, inner[0] + inner[1] + inner[2], [event]);
    ForNobody(key, [event]);
  }

  lemma {:induction false} StoredBlockIsDue(ns: seq<Notice>, had: Storage, storage: Storage, t: Table, oid: ObjectId,
                                            property: PropertyId, now: int, key: Key, grant: Option<Grant>)
    requires Block(ns, had, storage, t, oid, property, now) && InTable(t, key) == Tabled(key, grant)
    ensures For(key, ns) == DueIfStored(had, storage, key, grant, oid, property, now)
  {
    hide NotifiesExactly, Due;
    if (oid, property) in had {
      BlockIsDue(ns, storage, t, oid, property, now, key, grant);
    }
  }

  // ----- Subscriptions -----

  /**
   The reply to a request, with the errors in their order, and what it queues:
   the first notification of a subscription that is granted, with the whole
   lifetime remaining, and nothing otherwise.
   */
  lemma SubscriptionsAreAnsweredExactly(s: State, key: Key, cancel: bool, confirmed: bool, lifetime: nat, now: int)
    ensures SubscribeReply(s.storage, key, cancel) ==
            if cancel || CanSubscribe(s.storage, key) then SimpleAck
            else if (key.oid, 75) !in s.storage then Error("object", "unknown-object")
            else if key.property == None then Error("object", "optional-functionality-not-supported")
            else Error("property", "unknown-property")
    ensures Subscribe(s, key, cancel, confirmed, lifetime, now).queue ==
            s.queue + if cancel || !CanSubscribe(s.storage, key) then []
                      else [CovNotice(Subscription(key, confirmed, lifetime, now), lifetime, Content(s.storage, key))]
  {
    CanSubscribeIs(s.storage, key);
    DueIs(s.storage, key, Grant(confirmed, lifetime, now), now);
    assert s.queue + [] == s.queue;
    assert (lifetime * 10_000_000 - (now - now)) / 10_000_000 == lifetime;
    FirstNotice(s.storage, key, confirmed, lifetime, now);
    hide RemoveExpired, IndexOf, CovNoticeOf, Content;
  }

  lemma FirstNotice(storage: Storage, key: Key, confirmed: bool, lifetime: nat, now: int)
    ensures CovNoticeOf(storage, Subscription(key, confirmed, lifetime, now), now) ==
            CovNotice(Subscription(key, confirmed, lifetime, now), lifetime, Content(storage, key))
  {
    assert ValueOf(storage, key.oid, 111) + [] == ValueOf(storage, key.oid, 111);
  }
}
