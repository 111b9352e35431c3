/**
 The objects the C# device makes of a fixture, as far as COV and alarms read
 them, and their alarm states.
 */
module DeviceModel {
  import opened Wire
  import opened Identifiers
  import opened Numerals
  import opened DeviceServer
  import opened CovTheorems
  import opened AlarmTheorems

  const UNITS_NO_UNITS: nat := 95

  type Property = (PropertyId, Value)
  datatype DeviceObject = DeviceObject(oid: ObjectId, properties: seq<Property>)

  /** Objects without alarms: device, notification classes, trend logs, files and the like. */
  type PlainId = o: ObjectId | o.kind != ANALOG_VALUE witness ObjectId(DEVICE, 0)

  /**
   An entry of a fixture. `Plain` stands for the kinds of which only the
   properties matter here, `Unserved` for those that add no object: the device
   itself, which is made apart, and the types the package does not serve.
   */
  datatype FixtureObject =
    | AnalogValue(instance: nat, name: string, description: string, pv: real)
    | AnalogInput(instance: nat, name: string, description: string, pv: real)
    | NotificationClass(instance: nat, properties: seq<Property>)
    | Plain(oid: PlainId, properties: seq<Property>)
    | Unserved

  // ----- Looking up -----

  /** The first property with an identifier. */
  function Find(properties: seq<Property>, id: PropertyId): Option<Value> {
    if properties == [] then None
    else if properties[0].0 == id then Some(properties[0].1)
    else Find(properties[1..], id)
  }

  /** The first object with an identifier. */
  function FindObject(objects: seq<DeviceObject>, oid: ObjectId): Option<DeviceObject> {
    if objects == [] then None
    else if objects[0].oid == oid then Some(objects[0])
    else FindObject(objects[1..], oid)
  }

  /** What a storage of these objects answers. */
  function Answer(objects: seq<DeviceObject>, oid: ObjectId, id: PropertyId): Option<Value> {
    match FindObject(objects, oid)
    case None => None
    case Some(o) => Find(o.properties, id)
  }

  function PropertyMap(properties: seq<Property>): (r: map<PropertyId, Value>)
    ensures forall id :: (if id in r then Some(r[id]) else None) == Find(properties, id)
  {
    if properties == [] then map[] else PropertyMap(properties[1..])[properties[0].0 := properties[0].1]
  }

  /** The storage of these objects. */
  function StorageOf(objects: seq<DeviceObject>): Storage {
    if objects == [] then map[]
    else
      var first, rest := PropertyMap(objects[0].properties), StorageOf(objects[1..]);
      (map k | k in rest && k.0 != objects[0].oid :: rest[k])
      + (map id | id in first :: (objects[0].oid, id) := first[id])
  }

  lemma {:induction false} StorageAnswers(objects: seq<DeviceObject>, oid: ObjectId, id: PropertyId)
    ensures At(StorageOf(objects), oid, id) == Answer(objects, oid, id)
  {
    if objects != [] {
      StorageAnswers(objects[1..], oid, id);
    }
  }

  // ----- Making the objects -----

  method Add(p: seq<Property>, id: PropertyId, v: Value) returns (q: seq<Property>)
    ensures q == p + [(id, v)]
    ensures forall i :: Find(q, i) == if Find(p, i).Some? then Find(p, i) else if i == id then Some(v) else None
  {
    q := p + [(id, v)];
    forall i ensures Find(q, i) == if Find(p, i).Some? then Find(p, i) else if i == id then Some(v) else None {
      FindAppend(p, (id, v), i);
    }
  }

  lemma {:induction false} FindAppend(p: seq<Property>, last: Property, id: PropertyId)
    ensures Find(p + [last], id) ==
            if Find(p, id).Some? then Find(p, id) else if id == last.0 then Some(last.1) else None
  {
    if p == [] {
      assert p + [last] == [last] && [last][1..] == [];
    } else {
      assert (p + [last])[1..] == p[1..] + [last];
      FindAppend(p[1..], last, id);
    }
  }

  method Identity(oid: ObjectId, name: string, description: string) returns (p: seq<Property>)
    ensures forall i :: Find(p, i).Some? <==> i in {OBJECT_IDENTIFIER, OBJECT_NAME, OBJECT_TYPE, DESCRIPTION}
  {
    hide Find;
    assert forall i :: Find([], i) == None by { NothingIsFound(); }
    p := Add([], OBJECT_IDENTIFIER, Other(Decimal(oid.kind) + ":" + Decimal(oid.instance)));
    p := Add(p, OBJECT_NAME, Other(name));
    p := Add(p, OBJECT_TYPE, Enumerated(oid.kind));
    p := Add(p, DESCRIPTION, Other(description));
  }

  lemma NothingIsFound()
    ensures forall i :: Find([], i) == None
  {
  }

  /** What an object that reports intrinsically must hold at first. */
  ghost predicate ReadyForAlarms(properties: seq<Property>) {
    && Find(properties, OBJECT_IDENTIFIER).Some? && Find(properties, PRESENT_VALUE).Some?
    && Find(properties, EVENT_STATE) == Some(Enumerated(STATE_NORMAL))
    && Find(properties, STATUS_FLAGS) == Some(Bits([false, false, false, false]))
    && Find(properties, ACKED_TRANSITIONS) == Some(Bits([true, true, true]))
    && Find(properties, HIGH_LIMIT) == Some(Real(DEFAULT_HIGH_LIMIT))
  }

  /**
   With a notification class, an object that is ready for alarms; without one, an object that has none of their
   properties.
   */
  method Analog(oid: ObjectId, name: string, description: string, pv: real, commandable: bool,
                notificationClass: Option<nat>)
    returns (o: DeviceObject)
    ensures o.oid == oid && Find(o.properties, PRESENT_VALUE) == Some(Real(pv))
    ensures if notificationClass.Some? then ReadyForAlarms(o.properties)
            else Find(o.properties, ACKED_TRANSITIONS) == None && Find(o.properties, HIGH_LIMIT) == None
  {
    hide Find;
    var p := Identity(oid, name, description);
    p := Add(p, PRESENT_VALUE, Real(pv));
    p := Add(p, STATUS_FLAGS, Bits([false, false, false, false]));
    p := Add(p, EVENT_STATE, Enumerated(STATE_NORMAL));
    p := Add(p, OUT_OF_SERVICE, Other("False"));
    p := Add(p, UNITS, Enumerated(UNITS_NO_UNITS));
    if commandable {
      p := Add(p, PRIORITY_ARRAY, Other(""));
      p := Add(p, RELINQUISH_DEFAULT, Real(pv));
    }
    if notificationClass.Some? {
      p := AddReporting(p, notificationClass.value);
    }
    return DeviceObject(oid, p);
  }

  /** The properties of intrinsic reporting, high limit only. */
  method AddReporting(properties: seq<Property>, notificationClass: nat) returns (p: seq<Property>)
    requires Find(properties, HIGH_LIMIT) == None && Find(properties, ACKED_TRANSITIONS) == None
    ensures forall i | Find(properties, i).Some? :: Find(p, i) == Find(properties, i)
    ensures Find(p, HIGH_LIMIT) == Some(Real(DEFAULT_HIGH_LIMIT))
    ensures Find(p, ACKED_TRANSITIONS) == Some(Bits([true, true, true]))
  {
    hide Find;
    p := Add(properties, HIGH_LIMIT, Real(DEFAULT_HIGH_LIMIT));
    p := Add(p, LOW_LIMIT, Real(0.0));
    p := Add(p, DEADBAND, Real(0.0));
    p := Add(p, TIME_DELAY, Other("0"));
    p := Add(p, NOTIFICATION_CLASS, Other(Decimal(notificationClass)));
    p := Add(p, LIMIT_ENABLE, Bits([false, true]));
    p := Add(p, EVENT_ENABLE, Bits([true, false, true]));
    p := Add(p, ACKED_TRANSITIONS, Bits([true, true, true]));
    p := Add(p, NOTIFY_TYPE, Enumerated(0));
  }

  // ----- From a fixture -----

  /** The instance of the first notification class. */
  function FirstClass(fixture: seq<FixtureObject>): Option<nat> {
    if fixture == [] then None
    else if fixture[0].NotificationClass? then Some(fixture[0].instance)
    else FirstClass(fixture[1..])
  }

  function IdOf(o: FixtureObject): ObjectId
    requires !o.Unserved?
  {
    match o
    case AnalogValue(instance, _, _, _) => ObjectId(ANALOG_VALUE, instance)
    case AnalogInput(instance, _, _, _) => ObjectId(ANALOG_INPUT, instance)
    case NotificationClass(instance, _) => ObjectId(NOTIFICATION_CLASS_TYPE, instance)
    case Plain(oid, _) => oid
  }

  function AnalogValues(fixture: seq<FixtureObject>): set<ObjectId> {
    set o | o in fixture && o.AnalogValue? :: IdOf(o)
  }

  /** The entries that add an object, in order. */
  function Served(fixture: seq<FixtureObject>): (r: seq<FixtureObject>)
    ensures forall o | o in r :: o in fixture && !o.Unserved?
    ensures forall o | o in fixture && !o.Unserved? :: o in r
  {
    if fixture == [] then []
    else
      var last := fixture[|fixture| - 1];
      Served(fixture[..|fixture| - 1]) + if last.Unserved? then [] else [last]
  }

  /** The object is the entry's, with its present value (85) if it has one. */
  predicate MadeOf(o: DeviceObject, entry: FixtureObject) {
    match entry
    case AnalogValue(instance, _, _, pv) => o.oid == ObjectId(2, instance) && Find(o.properties, 85) == Some(Real(pv))
    case AnalogInput(instance, _, _, pv) => o.oid == ObjectId(0, instance) && Find(o.properties, 85) == Some(Real(pv))
    case NotificationClass(instance, properties) => o == DeviceObject(ObjectId(15, instance), properties)
    case Plain(oid, properties) => o == DeviceObject(oid, properties)
    case Unserved => false
  }

  lemma MadeOfHasId(o: DeviceObject, entry: FixtureObject)
    requires MadeOf(o, entry)
    ensures !entry.Unserved? && o.oid == IdOf(entry)
  {
  }

  datatype Model = Model(objects: seq<DeviceObject>, alarms: map<ObjectId, AlarmState>) {
    function Start(): State {
      State(StorageOf(objects), alarms, [], [])
    }

    /** Every analog value is ready for alarms. */
    ghost predicate AllReady() {
      forall o | o in objects && o.oid.kind == ANALOG_VALUE :: ReadyForAlarms(o.properties)
    }

    /** The device first, then the served objects in order; alarms for the analog values exactly if there is a class. */
    ghost predicate MadeFrom(device: DeviceObject, fixture: seq<FixtureObject>) {
      && |objects| == 1 + |Served(fixture)| && objects[0] == device
      && (forall i :: 0 <= i < |Served(fixture)| ==> MadeOf(objects[1 + i], Served(fixture)[i]))
      && alarms.Keys == (if FirstClass(fixture).Some? then AnalogValues(fixture) else {})
      && (forall oid | oid in alarms :: alarms[oid] == FRESH_ALARM)
      && (FirstClass(fixture).Some? ==> AllReady())
    }
  }

  /** `FromFixture`. */
  method FromFixture(device: DeviceObject, fixture: seq<FixtureObject>) returns (model: Model)
    requires device.oid.kind == DEVICE
    ensures model.MadeFrom(device, fixture)
  {
    hide ReadyForAlarms, Served, AnalogValues, IdOf, MadeOf, Find;
    var notificationClass: Option<nat> := None;
    for i := 0 to |fixture|
      invariant notificationClass == None && FirstClass(fixture[i..]) == FirstClass(fixture)
    {
      if fixture[i].NotificationClass? {
        notificationClass := Some(fixture[i].instance);
        break;
      }
      assert fixture[i..][1..] == fixture[i + 1..];
    }
    assert notificationClass == FirstClass(fixture);
    var objects, alarms := [device], map[];
    NoEntries();
    for i := 0 to |fixture|
      invariant var entries := Served(fixture[..i]);
                |objects| == 1 + |entries| && objects[0] == device
                && forall j :: 0 <= j < |entries| ==> MadeOf(objects[1 + j], entries[j])
      invariant alarms.Keys == if notificationClass.Some? then AnalogValues(fixture[..i]) else {}
      invariant forall oid | oid in alarms :: alarms[oid] == FRESH_ALARM
      invariant notificationClass.Some? ==> Model(objects, alarms).AllReady()
    {
      OneMoreEntry(fixture, i);
      if fixture[i].Unserved? {
        continue;
      }
      var o := MakeObject(fixture[i], notificationClass);
      if fixture[i].AnalogValue? && notificationClass.Some? {
        alarms := alarms[o.oid := FRESH_ALARM];
      }
      objects := objects + [o];
    }
    assert fixture[..|fixture|] == fixture;
    return Model(objects, alarms);
  }

  /** The object an entry adds. */
  method MakeObject(entry: FixtureObject, notificationClass: Option<nat>) returns (o: DeviceObject)
    requires !entry.Unserved?
    ensures o.oid == IdOf(entry) && MadeOf(o, entry)
    ensures notificationClass.Some? && o.oid.kind == ANALOG_VALUE ==> ReadyForAlarms(o.properties)
  {
    hide ReadyForAlarms;
    match entry {
      case AnalogValue(instance, name, description, pv) =>
        o := Analog(ObjectId(ANALOG_VALUE, instance), name, description, pv, true, notificationClass);
      case AnalogInput(instance, name, description, pv) =>
        o := Analog(ObjectId(ANALOG_INPUT, instance), name, description, pv, false, None);
      case NotificationClass(instance, properties) =>
        o := DeviceObject(ObjectId(NOTIFICATION_CLASS_TYPE, instance), properties);
      case Plain(oid, properties) =>
        o := DeviceObject(oid, properties);
    }
  }

  lemma NoEntries()
    ensures Served([]) == [] && AnalogValues([]) == {}
  {
  }

  lemma OneMoreEntry(fixture: seq<FixtureObject>, i: nat)
    requires i < |fixture|
    ensures var before, o, after := fixture[..i], fixture[i], fixture[..i + 1];
            && Served(after) == (if o.Unserved? then Served(before) else Served(before) + [o])
            && AnalogValues(after) ==
               (if o.AnalogValue? then AnalogValues(before) + {IdOf(o)} else AnalogValues(before))
  {
    hide IdOf;
    assert fixture[..i + 1] == fixture[..i] + [fixture[i]] && fixture[..i + 1][..i] == fixture[..i];
  }

  lemma {:induction false} FoundIfThere(objects: seq<DeviceObject>, o: DeviceObject)
    requires o in objects
    ensures FindObject(objects, o.oid).Some?
  {
    if objects[0].oid != o.oid {
      FoundIfThere(objects[1..], o);
    }
  }

  lemma {:induction false} FoundIsThere(objects: seq<DeviceObject>, oid: ObjectId)
    requires FindObject(objects, oid).Some?
    ensures FindObject(objects, oid).value in objects && FindObject(objects, oid).value.oid == oid
  {
    if objects[0].oid != oid {
      FoundIsThere(objects[1..], oid);
    }
  }

  lemma {:induction false} AlarmObject(model: Model, device: DeviceObject, fixture: seq<FixtureObject>, oid: ObjectId)
    requires model.MadeFrom(device, fixture) && oid in model.alarms
    ensures var o := FindObject(model.objects, oid); o.Some? && ReadyForAlarms(o.value.properties)
    ensures oid.kind == ANALOG_VALUE
    ensures forall o | o in model.alarms :: model.alarms[o] == FRESH_ALARM
  {
    hide ReadyForAlarms;
    var o :| o in fixture && o.AnalogValue? && IdOf(o) == oid;
    var i :| 0 <= i < |Served(fixture)| && Served(fixture)[i] == o;
    MadeOfHasId(model.objects[1 + i], o);
    FoundIfThere(model.objects, model.objects[1 + i]);
    FoundIsThere(model.objects, oid);
    hide FindObject;
  }

  /** So every alarm starts as its history says: nothing has happened to it yet. */
  lemma AlarmsStartFresh(model: Model, device: DeviceObject, fixture: seq<FixtureObject>, oid: ObjectId)
    requires model.MadeFrom(device, fixture) && oid in model.alarms
    ensures Commandable(model.Start(), oid)
    ensures LimitOf(model.Start().storage, oid) == DEFAULT_HIGH_LIMIT
  {
    hide Find, FindObject, StorageOf;
    AlarmObject(model, device, fixture, oid);
    var storage := StorageOf(model.objects);
    var properties := FindObject(model.objects, oid).value.properties;
    forall id ensures At(storage, oid, id) == Find(properties, id) {
      StorageAnswers(model.objects, oid, id);
    }
    hide Answer, Model.MadeFrom;
    assert At(storage, oid, EVENT_STATE) == Some(Enumerated(STATE_NORMAL));
    assert At(storage, oid, STATUS_FLAGS) == Some(StatusBits(STATE_NORMAL));
    assert At(storage, oid, ACKED_TRANSITIONS) == Some(Bits([true, true, true]));
    assert At(storage, oid, OBJECT_IDENTIFIER).Some? && At(storage, oid, PRESENT_VALUE).Some?;
    assert At(storage, oid, HIGH_LIMIT) == Some(Real(DEFAULT_HIGH_LIMIT));
  }

  /** And so each alarm of a device made from a fixture follows its history through every run. */
  lemma {:induction false} AlarmsFollowHistory(model: Model, device: DeviceObject, fixture: seq<FixtureObject>,
                                               oid: ObjectId, ops: seq<Op>)
    requires model.MadeFrom(device, fixture) && oid in model.alarms && forall op | op in ops :: FromOutside(op)
    ensures ValidAlarms(model.alarms) && oid in Run(model.Start(), ops).alarms
    ensures Prescribed(ViewOf(Run(model.Start(), ops), oid), model.Start(), ops, oid)
  {
    AlarmsStartFresh(model, device, fixture, oid);
    hide Model.MadeFrom, Prescribed, Run, FromOutside, StorageOf;
    AlarmRefinesHistory(model.Start(), ops, oid);
  }
}
