/** The alarm machine of an object refines the history of the writes and acknowledgements it was sent. */
module AlarmTheorems {
  import opened Wire
  import opened Identifiers
  import opened DeviceServer
  import opened CovTheorems

  /** What reaches the storage from outside: client-writable properties, and the package's own priority arrays. */
  ghost predicate FromOutside(op: Op) {
    op.Written? ==> IsWritable(op.oid.kind, op.property) || op.property == PRIORITY_ARRAY
  }

  // ----- The history -----

  /** The last write of High_Limit, or what was stored at first. */
  function Limit(s: State, ops: seq<Op>, oid: ObjectId): real {
    if ops == [] then LimitOf(s.storage, oid)
    else
      var op := ops[|ops| - 1];
      if op.Written? && op.oid == oid && op.property == HIGH_LIMIT && (oid, HIGH_LIMIT) in s.storage then
        if op.v.Real? then op.v.r else DEFAULT_HIGH_LIMIT
      else Limit(s, ops[..|ops| - 1], oid)
  }

  predicate ChangesPresentValue(s: State, op: Op, oid: ObjectId) {
    op.Written? && op.oid == oid && op.property == PRESENT_VALUE && (oid, PRESENT_VALUE) in s.storage && op.v.Real?
  }

  /** Whether the last present-value change exceeded the limit of that time. */
  predicate InAlarm(s: State, ops: seq<Op>, oid: ObjectId) {
    if ops == [] then false
    else
      var before, op := ops[..|ops| - 1], ops[|ops| - 1];
      if ChangesPresentValue(s, op, oid) then op.v.r > Limit(s, before, oid) else InAlarm(s, before, oid)
  }

  /** The last operation took the object from normal to high-limit. */
  predicate Rises(s: State, ops: seq<Op>, oid: ObjectId) {
    ops != [] && InAlarm(s, ops, oid) && !InAlarm(s, ops[..|ops| - 1], oid)
  }

  function LatestRise(s: State, ops: seq<Op>, oid: ObjectId): Stamp {
    if ops == [] then Sequence(0)
    else
      var op := ops[|ops| - 1];
      if Rises(s, ops, oid) && op.Written? then DateTime(op.clock.local - op.clock.local % 10)
      else LatestRise(s, ops[..|ops| - 1], oid)
  }

  /**
   No rise is left without an acknowledgement that named high-limit and echoed its time stamp before the alarm ended.
   */
  predicate IsAcked(s: State, ops: seq<Op>, oid: ObjectId) {
    if ops == [] then true
    else
      var before, op := ops[..|ops| - 1], ops[|ops| - 1];
      if Rises(s, ops, oid) then false
      else if op.Acknowledged? && op.oid == oid && op.stateAcked == STATE_HIGH_LIMIT && InAlarm(s, before, oid)
              && SameStamp(LatestRise(s, before, oid), op.stamp) then true
      else IsAcked(s, before, oid)
  }

  function StateOf(inAlarm: bool): nat {
    if inAlarm then STATE_HIGH_LIMIT else STATE_NORMAL
  }

  /** The events sent: one for each change of state, to whoever wrote the present value, naming the default limit. */
  function EventsOf(s: State, ops: seq<Op>, oid: ObjectId): seq<Notice> {
    if ops == [] then []
    else
      var before, op := ops[..|ops| - 1], ops[|ops| - 1];
      var was, now := InAlarm(s, before, oid), InAlarm(s, ops, oid);
      EventsOf(s, before, oid)
      + if was == now || !ChangesPresentValue(s, op, oid) then []
        else [EventNotice(op.address, oid, StateOf(was), StateOf(now), DateTime(op.clock.local - op.clock.local % 10),
                          op.v.r, DEFAULT_HIGH_LIMIT, now)]
  }

  // ----- What is seen of one object -----

  type Event = n: Notice | n.EventNotice? witness EventNotice(0, ObjectId(0, 0), 0, 0, Sequence(0), 0.0, 0.0, false)

  /** The event notifications queued for an object. */
  function EventsIn(queue: seq<Notice>, oid: ObjectId): seq<Event> {
    if queue == [] then []
    else
      var last := queue[|queue| - 1];
      EventsIn(queue[..|queue| - 1], oid) + if last.EventNotice? && last.oid == oid then [last] else []
  }

  datatype View = View(alarm: AlarmState, eventState: Option<Value>, flags: Option<Value>, acked: Option<Value>,
                       limit: real, events: seq<Event>)

  function At(storage: Storage, oid: ObjectId, property: PropertyId): Option<Value> {
    if (oid, property) in storage then Some(storage[(oid, property)]) else None
  }

  function ViewOf(s: State, oid: ObjectId): View
    requires oid in s.alarms
  {
    View(s.alarms[oid], At(s.storage, oid, EVENT_STATE), At(s.storage, oid, STATUS_FLAGS),
         At(s.storage, oid, ACKED_TRANSITIONS), LimitOf(s.storage, oid), EventsIn(s.queue, oid))
  }

  /** The object was set up as the model does for intrinsic reporting. */
  ghost predicate Fresh(s: State, oid: ObjectId) {
    && ValidAlarms(s.alarms) && oid in s.alarms && s.alarms[oid] == FRESH_ALARM
    && (oid, OBJECT_IDENTIFIER) in s.storage
    && s.alarms[oid] == AlarmState(0, [Sequence(0), Sequence(0), Sequence(0)], [true, true, true])
    && ViewOf(s, oid) == View(s.alarms[oid], Some(Enumerated(0)), Some(Bits([false, false, false, false])),
                              Some(Bits([true, true, true])), LimitOf(s.storage, oid), [])
  }

  lemma {:induction false} CovNoticesAreNoEvents(queue: seq<Notice>, ns: seq<Notice>, oid: ObjectId)
    requires forall n | n in ns :: n.CovNotice?
    ensures EventsIn(queue + ns, oid) == EventsIn(queue, oid)
  {
    if ns == [] {
      assert queue + ns == queue;
    } else {
      assert (queue + ns)[..|queue + ns| - 1] == queue + ns[..|ns| - 1];
      assert ns[|ns| - 1] in ns;
      CovNoticesAreNoEvents(queue, ns[..|ns| - 1], oid);
    }
  }

  lemma {:induction false} CovNoticesAreCovNotices(storage: Storage, subs: seq<Subscription>, oid: ObjectId,
                                                   property: PropertyId, now: int)
    ensures forall n | n in CovNotices(storage, subs, oid, property, now) :: n.CovNotice?
  {
    if subs != [] {
      CovNoticesAreCovNotices(storage, subs[1..], oid, property, now);
    }
  }

  lemma AnnounceView(s: State, changed: ObjectId, property: PropertyId, now: int, oid: ObjectId)
    requires oid in s.alarms
    ensures ViewOf(Announce(s, changed, property, now), oid) == ViewOf(s, oid)
  {
    var subs := RemoveExpired(s.subs, now);
    CovNoticesAreCovNotices(s.storage, subs, changed, property, now);
    hide CovNotices, RemoveExpired, LimitOf;
    CovNoticesAreNoEvents(s.queue, CovNotices(s.storage, subs, changed, property, now), oid);
  }

  function Put(v: View, property: PropertyId, value: Value): View {
    if property == EVENT_STATE then v.(eventState := Some(value))
    else if property == STATUS_FLAGS then v.(flags := Some(value))
    else if property == ACKED_TRANSITIONS then v.(acked := Some(value))
    else if property == HIGH_LIMIT then v.(limit := if value.Real? then value.r else DEFAULT_HIGH_LIMIT)
    else v
  }

  lemma StoreView(s: State, changed: ObjectId, property: PropertyId, value: Value, oid: ObjectId)
    requires oid in s.alarms && (changed, property) in s.storage
    ensures ViewOf(s.(storage := s.storage[(changed, property) := value]), oid) ==
            if changed == oid then Put(ViewOf(s, oid), property, value) else ViewOf(s, oid)
  {
  }

  lemma StorePlainView(s: State, changed: ObjectId, property: PropertyId, value: Value, now: int, oid: ObjectId)
    requires oid in s.alarms
    ensures ViewOf(StorePlain(s, changed, property, value, now), oid) ==
            if changed == oid && (oid, property) in s.storage then Put(ViewOf(s, oid), property, value)
            else ViewOf(s, oid)
  {
    hide Announce, ViewOf;
    if (changed, property) in s.storage {
      var stored := s.(storage := s.storage[(changed, property) := value]);
      StoreView(s, changed, property, value, oid);
      AnnounceView(stored, changed, property, now, oid);
    }
  }

  /** The stored properties tell what the alarm's state is. */
  ghost predicate Mirrors(v: View) {
    && v.eventState == Some(Enumerated(v.alarm.state))
    && v.flags == Some(Bits([v.alarm.state == 3, false, false, false]))
    && v.acked == Some(Bits(v.alarm.acked))
  }

  /** Queued events alternate: each starts where the one before ended, from normal to the present state. */
  ghost predicate Chain(es: seq<Event>, state: nat) {
    && (forall i :: 0 <= i < |es| ==> es[i].from != es[i].to)
    && (forall i, j :: 0 <= i && j == i + 1 && j < |es| ==> es[i].to == es[j].from)
    && (if es == [] then state == STATE_NORMAL else es[0].from == STATE_NORMAL && es[|es| - 1].to == state)
  }

  function Next(v: View, value: real): nat {
    if value > v.limit then STATE_HIGH_LIMIT else STATE_NORMAL
  }

  /** The view after a write of the present value that moved the alarm. */
  function Transitioned(v: View, oid: ObjectId, requester: Address, value: real, local: int): View
    requires v.alarm.Valid()
  {
    var next := Next(v, value);
    var alarm := Moved(v.alarm, next, local);
    View(alarm, Some(Enumerated(next)), Some(Bits([next == 3, false, false, false])), Some(Bits(alarm.acked)),
         v.limit, v.events + [EventOf(requester, oid, v.alarm.state, alarm, value)])
  }

  lemma EvaluateView(s: State, changed: ObjectId, requester: Address, clock: Clock, oid: ObjectId)
    requires ValidAlarms(s.alarms) && changed in s.alarms && oid in s.alarms && Mirrors(ViewOf(s, oid))
    ensures var v, value := ViewOf(s, oid), ReadReal(s.storage, changed, PRESENT_VALUE);
            var r := ViewOf(Evaluate(s, changed, Some(requester), clock), oid);
            if changed != oid || value.None? || Next(v, value.value) == v.alarm.state then r == v
            else r == Transitioned(v, oid, requester, value.value, clock.local)
  {
    hide StorePlain, EventsIn, LimitOf;
    var value := ReadReal(s.storage, changed, PRESENT_VALUE);
    if value.Some? {
      var next := if value.value > LimitOf(s.storage, changed) then STATE_HIGH_LIMIT else STATE_NORMAL;
      if next != s.alarms[changed].state {
        var alarm := Moved(s.alarms[changed], next, clock.local);
        var s1 := s.(alarms := s.alarms[changed := alarm]);
        var s2 := StorePlain(s1, changed, EVENT_STATE, Enumerated(next), clock.eventState);
        var s3 := StorePlain(s2, changed, STATUS_FLAGS, StatusBits(next), clock.statusFlags);
        var s4 := StorePlain(s3, changed, ACKED_TRANSITIONS, Bits(alarm.acked), clock.acked);
        StorePlainView(s1, changed, EVENT_STATE, Enumerated(next), clock.eventState, oid);
        StorePlainView(s2, changed, STATUS_FLAGS, StatusBits(next), clock.statusFlags, oid);
        StorePlainView(s3, changed, ACKED_TRANSITIONS, Bits(alarm.acked), clock.acked, oid);
        QueueView(s4, EventOf(requester, changed, s.alarms[changed].state, alarm, value.value), oid);
      }
    }
  }

  lemma {:induction false} QueueView(s: State, event: Notice, oid: ObjectId)
    requires oid in s.alarms && event.EventNotice?
    ensures ViewOf(s.(queue := s.queue + [event]), oid) ==
            if event.oid == oid then ViewOf(s, oid).(events := EventsIn(s.queue, oid) + [event]) else ViewOf(s, oid)
  {
  }

  lemma WrittenView(s: State, op: Op, oid: ObjectId)
    requires ValidAlarms(s.alarms) && oid in s.alarms && Mirrors(ViewOf(s, oid))
    requires op.Written? && FromOutside(op)
    ensures var v := ViewOf(s, oid);
            ViewOf(Apply(s, op), oid) ==
            if op.oid != oid || (oid, op.property) !in s.storage then v
            else if op.property == HIGH_LIMIT then Put(v, HIGH_LIMIT, op.v)
            else if op.property == PRESENT_VALUE && op.v.Real? && Next(v, op.v.r) != v.alarm.state then
              Transitioned(v, oid, op.address, op.v.r, op.clock.local)
            else v
  {
    hide ViewOf, Evaluate, Announce, Transitioned;
    var Written(address, changed, property, value, clock) := op;
    if (changed, property) in s.storage {
      var stored := s.(storage := s.storage[(changed, property) := value]);
      StoreView(s, changed, property, value, oid);
      if property == PRESENT_VALUE && changed in s.alarms {
        EvaluateView(stored, changed, address, clock, oid);
        AnnounceView(Evaluate(stored, changed, Some(address), clock), changed, property, clock.outer, oid);
      } else {
        AnnounceView(stored, changed, property, clock.outer, oid);
      }
    }
  }

  lemma SubscribedView(s: State, op: Op, oid: ObjectId)
    requires ValidAlarms(s.alarms) && oid in s.alarms && op.Subscribed?
    ensures ViewOf(Apply(s, op), oid) == ViewOf(s, oid)
  {
  }

  /** Whether an acknowledgement of `oid` is granted, told from the alarm alone. */
  predicate Grants(alarm: AlarmState, stateAcked: nat, stamp: Stamp)
    requires alarm.Valid()
  {
    (stateAcked == STATE_NORMAL || stateAcked == STATE_HIGH_LIMIT) && alarm.state == stateAcked
    && SameStamp(alarm.stamps[TransitionIndex(stateAcked)], stamp)
  }

  lemma AcknowledgedView(s: State, op: Op, oid: ObjectId)
    requires ValidAlarms(s.alarms) && oid in s.alarms && op.Acknowledged? && Mirrors(ViewOf(s, oid))
    requires (oid, OBJECT_IDENTIFIER) in s.storage
    ensures var v := ViewOf(s, oid);
            ViewOf(Apply(s, op), oid) ==
            if op.oid == oid && Grants(v.alarm, op.stateAcked, op.stamp) then
              var acked := v.alarm.acked[TransitionIndex(op.stateAcked) := true];
              v.(alarm := v.alarm.(acked := acked), acked := Some(Bits(acked)))
            else v
  {
    hide StorePlain, EventsIn, LimitOf;
    var Acknowledged(named, stateAcked, stamp, now) := op;
    if AcknowledgeReply(s, named, stateAcked, stamp).SimpleAck? {
      var acked := s.alarms[named].acked[TransitionIndex(stateAcked) := true];
      var s1 := s.(alarms := s.alarms[named := s.alarms[named].(acked := acked)]);
      StorePlainView(s1, named, ACKED_TRANSITIONS, Bits(acked), now, oid);
    }
  }

  /** The view that the history prescribes. */
  ghost predicate Prescribed(v: View, s: State, ops: seq<Op>, oid: ObjectId) {
    && v.alarm.Valid()
    && v.alarm.state == StateOf(InAlarm(s, ops, oid))
    && v.alarm.stamps[0] == LatestRise(s, ops, oid)
    && v.alarm.acked == [IsAcked(s, ops, oid), true, true]
    && v.limit == Limit(s, ops, oid)
    && Mirrors(v)
    && v.events == EventsOf(s, ops, oid)
    && Chain(v.events, v.alarm.state)
  }

  /**
   An operation that changes neither present-value nor limit and acknowledges no rise leaves the history's verdicts.
   */
  lemma {:induction false} QuietHistory(s: State, ops: seq<Op>, op: Op, oid: ObjectId)
    requires !ChangesPresentValue(s, op, oid)
    ensures InAlarm(s, ops + [op], oid) == InAlarm(s, ops, oid)
    ensures LatestRise(s, ops + [op], oid) == LatestRise(s, ops, oid)
    ensures EventsOf(s, ops + [op], oid) == EventsOf(s, ops, oid)
    ensures !(op.Written? && op.oid == oid && op.property == HIGH_LIMIT) ==>
            Limit(s, ops + [op], oid) == Limit(s, ops, oid)
    ensures IsAcked(s, ops + [op], oid) ==
            (IsAcked(s, ops, oid)
             || (op.Acknowledged? && op.oid == oid && op.stateAcked == STATE_HIGH_LIMIT && InAlarm(s, ops, oid)
                 && SameStamp(LatestRise(s, ops, oid), op.stamp)))
  {
  }

  lemma AcknowledgedStep(s: State, ops: seq<Op>, op: Op, oid: ObjectId, v: View)
    requires op.Acknowledged? && Prescribed(v, s, ops, oid)
    ensures var acked := v.alarm.acked[TransitionIndex(op.stateAcked) := true];
            Prescribed(if op.oid == oid && Grants(v.alarm, op.stateAcked, op.stamp)
                       then v.(alarm := v.alarm.(acked := acked), acked := Some(Bits(acked))) else v,
                       s, ops + [op], oid)
  {
  }

  lemma WrittenStep(s: State, ops: seq<Op>, op: Op, oid: ObjectId, v: View)
    requires op.Written? && Prescribed(v, s, ops, oid)
    ensures Prescribed(if op.oid != oid || (oid, op.property) !in s.storage then v
                       else if op.property == HIGH_LIMIT then Put(v, HIGH_LIMIT, op.v)
                       else if op.property == PRESENT_VALUE && op.v.Real? && Next(v, op.v.r) != v.alarm.state then
                         Transitioned(v, oid, op.address, op.v.r, op.clock.local)
                       else v,
                       s, ops + [op], oid)
  {
  }

  lemma {:induction false} PrescribedStep(s: State, ops: seq<Op>, op: Op, oid: ObjectId)
    requires Fresh(s, oid) && FromOutside(op)
    requires Prescribed(ViewOf(Run(s, ops), oid), s, ops, oid)
    ensures Prescribed(ViewOf(Run(s, ops + [op]), oid), s, ops + [op], oid)
  {
    hide ViewOf, Apply, Chain, InAlarm, LatestRise, Limit, IsAcked, EventsOf, Put, Next, Transitioned, FromOutside,
        Grants, LimitOf;
    var was := Run(s, ops);
    assert (ops + [op])[..|ops|] == ops;
    SameKeys(s.storage, was.storage);
    var v := ViewOf(was, oid);
    assert Mirrors(v);
    hide Mirrors, Run;
    match op {
      case Subscribed(_, _, _, _, _) =>
        SubscribedView(was, op, oid);
        SubscribedStep(s, ops, op, oid, v);
      case Acknowledged(_, _, _, _) =>
        AcknowledgedView(was, op, oid);
        AcknowledgedStep(s, ops, op, oid, v);
      case Written(_, _, _, _, _) =>
        WrittenView(was, op, oid);
        WrittenStep(s, ops, op, oid, v);
    }
  }

  lemma SubscribedStep(s: State, ops: seq<Op>, op: Op, oid: ObjectId, v: View)
    requires op.Subscribed? && Prescribed(v, s, ops, oid)
    ensures Prescribed(v, s, ops + [op], oid)
  {
    QuietHistory(s, ops, op, oid);
    hide Chain, InAlarm, LatestRise, Limit, IsAcked, EventsOf, Mirrors;
  }

  lemma ViewAlarm(s: State, oid: ObjectId)
    requires oid in s.alarms
    ensures ViewOf(s, oid).alarm == s.alarms[oid]
  {
  }

  /**
   For an object set up for intrinsic reporting, after any run: it is in
   high-limit exactly when its last present-value change exceeded the limit of
   that time; only the to-offnormal acknowledgement is ever outstanding, and
   exactly since the latest rise that no acknowledgement echoing its time stamp
   answered while the alarm lasted; Event_State, Status_Flags and
   Acked_Transitions say the same; and the queued transitions form a chain from
   normal to the present state.
   */
  lemma {:induction false} AlarmRefinesHistory(s: State, ops: seq<Op>, oid: ObjectId)
    requires Fresh(s, oid) && forall op | op in ops :: FromOutside(op)
    ensures Prescribed(ViewOf(Run(s, ops), oid), s, ops, oid)
  {
    hide Prescribed, Fresh, FromOutside;
    if ops == [] {
      FreshIsPrescribed(s, oid);
    } else {
      var before, op := ops[..|ops| - 1], ops[|ops| - 1];
      assert op in ops && forall o | o in before :: o in ops;
      assert ops == before + [op];
      AlarmRefinesHistory(s, before, oid);
      PrescribedStep(s, before, op, oid);
    }
  }

  lemma FreshIsPrescribed(s: State, oid: ObjectId)
    requires Fresh(s, oid)
    ensures Prescribed(ViewOf(s, oid), s, [], oid)
  {
  }

  /**
   GetEventInformation lists an object exactly when it is in alarm or its latest rise was not acknowledged in time.
   */
  lemma {:induction false} ListedByHistory(s: State, ops: seq<Op>, oid: ObjectId)
    requires Fresh(s, oid) && forall op | op in ops :: FromOutside(op)
    ensures Listed(Run(s, ops).alarms[oid]) <==> InAlarm(s, ops, oid) || !IsAcked(s, ops, oid)
  {
    AlarmByHistory(s, ops, oid);
    var alarm := Run(s, ops).alarms[oid];
    hide InAlarm, IsAcked, Run, Fresh, FromOutside;
    assert alarm.acked[0] in alarm.acked;
  }

  lemma {:induction false} MissedInHistory(s: State, ops: seq<Op>, more: seq<Op>, oid: ObjectId)
    requires !IsAcked(s, ops, oid)
    requires forall k | 0 <= k <= |more| :: !InAlarm(s, ops + more[..k], oid)
    ensures !IsAcked(s, ops + more, oid)
  {
    if more == [] {
      assert ops + more == ops;
    } else {
      var fewer := more[..|more| - 1];
      assert forall k | 0 <= k <= |fewer| :: fewer[..k] == more[..k];
      MissedInHistory(s, ops, fewer, oid);
      assert (ops + more)[..|ops + more| - 1] == ops + fewer;
      assert ops + more[..|fewer|] == ops + fewer && ops + more[..|more|] == ops + more;
      hide InAlarm, LatestRise;
    }
  }

  /** What the history says of the alarm itself. */
  lemma {:induction false} AlarmByHistory(s: State, ops: seq<Op>, oid: ObjectId)
    requires Fresh(s, oid) && forall op | op in ops :: FromOutside(op)
    ensures oid in Run(s, ops).alarms
    ensures var alarm := Run(s, ops).alarms[oid];
            (alarm.state == STATE_NORMAL <==> !InAlarm(s, ops, oid))
            && alarm.acked == [IsAcked(s, ops, oid), true, true]
  {
    AlarmRefinesHistory(s, ops, oid);
    ViewAlarm(Run(s, ops), oid);
    hide InAlarm, IsAcked, Run, LatestRise, Limit, EventsOf, Mirrors, Chain;
  }

  /**
   A rise that ended unacknowledged can never be acknowledged: as long as the
   object stays normal, whatever requests arrive, the bit stays false and the
   object stays listed.
   */
  lemma {:induction false} MissedAcknowledgementIsFinal(s: State, ops: seq<Op>, more: seq<Op>, oid: ObjectId)
    requires Fresh(s, oid) && forall op | op in ops + more :: FromOutside(op)
    requires !Run(s, ops).alarms[oid].acked[0]
    requires forall k | 0 <= k <= |more| :: Run(s, ops + more[..k]).alarms[oid].state == STATE_NORMAL
    ensures var alarm := Run(s, ops + more).alarms[oid]; !alarm.acked[0] && Listed(alarm)
  {
    assert ValidAlarms(s.alarms);
    hide Fresh, FromOutside, InAlarm, IsAcked, Run, ValidAlarms;
    assert forall op | op in ops :: op in ops + more;
    AlarmByHistory(s, ops, oid);
    forall k | 0 <= k <= |more| ensures !InAlarm(s, ops + more[..k], oid) {
      assert forall op | op in ops + more[..k] :: op in ops + more;
      AlarmByHistory(s, ops + more[..k], oid);
    }
    MissedInHistory(s, ops, more, oid);
    AlarmByHistory(s, ops + more, oid);
    var alarm := Run(s, ops + more).alarms[oid];
    assert alarm.acked[0] in alarm.acked;
  }

  // ----- In the numbers of the protocol -----

  /**
   What is stored of an alarm after any run: Event_State (36) is high-limit (3)
   or normal (0), of Status_Flags (111) only in-alarm is ever set, and of
   Acked_Transitions (0) only to-offnormal is ever clear.
   */
  lemma {:induction false} StoredInNumbers(s: State, ops: seq<Op>, oid: ObjectId)
    requires Fresh(s, oid) && forall op | op in ops :: FromOutside(op)
    ensures var storage := Run(s, ops).storage;
            && At(storage, oid, 36) == Some(Enumerated(if InAlarm(s, ops, oid) then 3 else 0))
            && At(storage, oid, 111) == Some(Bits(if InAlarm(s, ops, oid) then [true, false, false, false]
                                                  else [false, false, false, false]))
            && At(storage, oid, 0) == Some(Bits([IsAcked(s, ops, oid), true, true]))
    ensures oid in Run(s, ops).alarms && Run(s, ops).alarms[oid].state == (if InAlarm(s, ops, oid) then 3 else 0)
    ensures Run(s, ops).alarms[oid].stamps[0] == LatestRise(s, ops, oid)
  {
    AlarmRefinesHistory(s, ops, oid);
    hide InAlarm, IsAcked, Run, LatestRise, Limit, EventsOf, Chain;
  }

  /** Echoing a time stamp: the same sequence number, or less than ten milliseconds apart. */
  predicate Echoes(stored: Stamp, given: Stamp) {
    (stored.Sequence? && given == stored)
    || (stored.DateTime? && given.DateTime? && stored.ms < given.ms + 10 && given.ms < stored.ms + 10)
  }

  /**
   Which acknowledgements are granted, and why the others are not, in this
   order: high-limit (3) acknowledges the to-offnormal time stamp and normal (0)
   the to-normal one, each only while the object is in that state.
   */
  lemma AcknowledgementsAreAnsweredExactly(s: State, oid: ObjectId, stateAcked: nat, stamp: Stamp)
    requires ValidAlarms(s.alarms)
    ensures AcknowledgeReply(s, oid, stateAcked, stamp) ==
            if (oid, 75) !in s.storage then Error("object", "unknown-object")
            else if oid !in s.alarms then Error("object", "no-alarm-configured")
            else if s.alarms[oid].state != stateAcked then Error("services", "invalid-event-state")
            else if !Echoes(s.alarms[oid].stamps[if stateAcked == 3 then 0 else 2], stamp) then
              Error("services", "invalid-time-stamp")
            else SimpleAck
  {
  }

  /** The properties a client may write, by the numbers of object type and property. */
  lemma WritableInNumbers(kind: nat, property: PropertyId)
    ensures IsWritable(kind, property) <==>
            match kind
            case 8 => property == 28 || property == 58
            case 2 => property == 85 || property == 81 || property == 28 || property == 45
            case 5 => property == 85 || property == 81 || property == 28
            case 0 => property == 81 || property == 28
            case 10 => property == 13 || property == 28
            case 20 => property == 28
            case _ => false
  {
  }

  // ----- Where the device falls short -----

  /** The event of a rise names the limit that was exceeded if and only if that was the default one. */
  lemma {:induction false} EventNamesLimitExactly(s: State, ops: seq<Op>, op: Op, oid: ObjectId)
    requires Fresh(s, oid) && forall o | o in ops + [op] :: FromOutside(o)
    requires Rises(s, ops + [op], oid)
    ensures var es := EventsIn(Run(s, ops + [op]).queue, oid);
            es != [] && var e := es[|es| - 1];
                        && e.to == STATE_HIGH_LIMIT && e.exceeding > Limit(s, ops, oid)
                        && (e.limit == Limit(s, ops, oid) <==> Limit(s, ops, oid) == DEFAULT_HIGH_LIMIT)
  {
    EventsByHistory(s, ops + [op], oid);
    hide Fresh, FromOutside, Run, Limit;
    assert (ops + [op])[..|ops|] == ops;
  }

  lemma {:induction false} EventsByHistory(s: State, ops: seq<Op>, oid: ObjectId)
    requires Fresh(s, oid) && forall op | op in ops :: FromOutside(op)
    ensures EventsIn(Run(s, ops).queue, oid) == EventsOf(s, ops, oid)
  {
    AlarmRefinesHistory(s, ops, oid);
    hide Run, EventsOf, InAlarm, IsAcked, LatestRise, Limit, Mirrors, Chain;
  }

  /** An object that a client can write and that holds a present value and a limit of its own. */
  ghost predicate Commandable(s: State, oid: ObjectId) {
    Fresh(s, oid) && oid.kind == ANALOG_VALUE && (oid, PRESENT_VALUE) in s.storage && (oid, HIGH_LIMIT) in s.storage
  }

  lemma TwoOps(a: Op, b: Op)
    ensures [a, b][..1] == [a] && [a][..0] == []
  {
  }

  /** With the limit lowered to 50, a value of 60 is reported to exceed 80. */
  lemma {:induction false} WrongLimitExample(s: State, oid: ObjectId, client: Address, c1: Clock, c2: Clock)
    requires Commandable(s, oid)
    ensures var ops := [Written(client, oid, HIGH_LIMIT, Real(50.0), c1),
                        Written(client, oid, PRESENT_VALUE, Real(60.0), c2)];
            var es := EventsIn(Run(s, ops).queue, oid);
            |es| == 1 && es[0].to == STATE_HIGH_LIMIT && es[0].exceeding == 60.0 && es[0].limit == 80.0
  {
    var a, b := Written(client, oid, HIGH_LIMIT, Real(50.0), c1), Written(client, oid, PRESENT_VALUE, Real(60.0), c2);
    TwoOps(a, b);
    EventsByHistory(s, [a, b], oid);
    hide Run, Fresh;
    assert Limit(s, [a], oid) == 50.0;
    assert !InAlarm(s, [], oid) && !InAlarm(s, [a], oid) && InAlarm(s, [a, b], oid);
    assert EventsOf(s, [], oid) == [] && EventsOf(s, [a], oid) == [];
  }

  /**
   A missed acknowledgement: the value rises above the limit and falls below it
   again before a client acknowledges. The rise is then listed as unacknowledged,
   and every acknowledgement of it is refused, whatever time stamp it echoes.
   */
  lemma {:induction false} MissedAcknowledgementExample(s: State, oid: ObjectId, client: Address, c1: Clock,
                                                        c2: Clock, stamp: Stamp)
    requires Commandable(s, oid) && LimitOf(s.storage, oid) == DEFAULT_HIGH_LIMIT
    ensures var ops := [Written(client, oid, PRESENT_VALUE, Real(100.0), c1),
                        Written(client, oid, PRESENT_VALUE, Real(10.0), c2)];
            var after := Run(s, ops);
            && oid in after.alarms && after.alarms[oid].state == STATE_NORMAL && !after.alarms[oid].acked[0]
            && Listed(after.alarms[oid]) && AcknowledgeReply(after, oid, STATE_HIGH_LIMIT, stamp).Error?
  {
    var a := Written(client, oid, PRESENT_VALUE, Real(100.0), c1);
    var b := Written(client, oid, PRESENT_VALUE, Real(10.0), c2);
    TwoOps(a, b);
    AlarmByHistory(s, [a, b], oid);
    hide Run, Fresh;
    assert Limit(s, [], oid) == 80.0 && Limit(s, [a], oid) == 80.0;
    assert !InAlarm(s, [], oid) && InAlarm(s, [a], oid) && !InAlarm(s, [a, b], oid);
    assert !IsAcked(s, [a], oid) && !IsAcked(s, [a, b], oid);
    var alarm := Run(s, [a, b]).alarms[oid];
    assert alarm.acked[0] in alarm.acked;
  }
}
