/**
 The Go adapter's object store: a map of mutable objects with an index that
 remembers the fixture's order, the loader that fills it, and the property
 readers and writers the services share.
 */
module Store {
  import opened Wire
  import opened Identifiers
  import opened Tags

  const VENDOR: nat := 999

  const CLASS_OBJECT: nat := 1
  const CLASS_PROPERTY: nat := 2
  const CLASS_SERVICES: nat := 5
  const CODE_INCONSISTENT_PARAMETERS: nat := 7
  const CODE_UNKNOWN_OBJECT: nat := 31
  const CODE_UNKNOWN_PROPERTY: nat := 32
  const CODE_VALUE_OUT_OF_RANGE: nat := 37
  const CODE_WRITE_ACCESS_DENIED: nat := 40
  const CODE_INVALID_ARRAY_INDEX: nat := 42

  datatype Failure = Failure(category: nat, code: nat)
  datatype Result<+T> = Ok(value: T) | Err(failure: Failure)

  datatype PropertyRef = PropertyRef(id: uint32, index: Option<uint32>)

  /** What an object holds besides its key. */
  datatype ObjectState = ObjectState(name: string, description: string, pv: Option<AppValue>, logs: nat)
  type Contents = map<ObjectKey, ObjectState>

  predicate IsAnalog(kind: nat) {
    kind == ANALOG_INPUT || kind == ANALOG_OUTPUT || kind == ANALOG_VALUE
  }

  predicate IsBinary(kind: nat) {
    kind == BINARY_INPUT || kind == BINARY_OUTPUT || kind == BINARY_VALUE
  }

  // ----- Reading and writing one property -----

  const UNKNOWN_OBJECT: Failure := Failure(CLASS_OBJECT, CODE_UNKNOWN_OBJECT)
  const UNKNOWN_PROPERTY: Failure := Failure(CLASS_PROPERTY, CODE_UNKNOWN_PROPERTY)

  function ListedValues(keys: seq<ObjectKey>): (r: seq<AppValue>)
    ensures |r| == |keys| && forall j :: 0 <= j < |r| ==> r[j] == AppIdentifier(keys[j])
  {
    seq(|keys|, j requires 0 <= j < |keys| => AppIdentifier(keys[j]))
  }

  /** The values of Object_List, whole or at one array index. */
  function ObjectList(order: seq<ObjectKey>, index: Option<uint32>): Result<seq<AppValue>> {
    match index
    case Some(i) =>
      if i == 0 then Ok([AppUnsigned(|order|)])
      else if i > |order| then Err(Failure(CLASS_PROPERTY, CODE_INVALID_ARRAY_INDEX))
      else if !order[i - 1].HasIdentifier() then Err(UNKNOWN_OBJECT)
      else Ok([AppIdentifier(order[i - 1])])
    case None =>
      if forall k | k in order :: k.HasIdentifier() then
        Ok(ListedValues(order))
      else Err(UNKNOWN_OBJECT)
  }

  function ReadProperty(contents: Contents, order: seq<ObjectKey>, key: ObjectKey,
                        prop: PropertyRef): Result<seq<AppValue>> {
    if key !in contents || !key.HasIdentifier() then Err(UNKNOWN_OBJECT)
    else
      var o, id := contents[key], prop.id;
      if id == OBJECT_IDENTIFIER then Ok([AppIdentifier(key)])
      else if id == OBJECT_NAME then Ok([AppString(o.name)])
      else if id == OBJECT_TYPE then Ok([AppEnum(key.kind)])
      else if id == DESCRIPTION then Ok([AppString(if o.description == "" then o.name else o.description)])
      else if id == PRESENT_VALUE then if o.pv.None? then Err(UNKNOWN_PROPERTY) else Ok([o.pv.value])
      else if id == STATUS_FLAGS then Ok([AppBits([false, false, false, false])])
      else if id == OBJECT_LIST then if key.kind != DEVICE then Err(UNKNOWN_PROPERTY) else ObjectList(order, prop.index)
      else if id == MAX_APDU_LENGTH_ACCEPTED then Ok([AppUnsigned(1476)])
      else if id == SEGMENTATION_SUPPORTED then Ok([AppEnum(0)])
      else if id == VENDOR_IDENTIFIER then Ok([AppUnsigned(VENDOR)])
      else if id == SYSTEM_STATUS then Ok([AppEnum(0)])
      else if id == PROTOCOL_VERSION then Ok([AppUnsigned(1)])
      else if id == PROTOCOL_REVISION then Ok([AppUnsigned(24)])
      else if (id == RECORD_COUNT || id == TOTAL_RECORD_COUNT) && key.kind == TREND_LOG then Ok([AppUnsigned(o.logs)])
      else Err(UNKNOWN_PROPERTY)
  }

  /** What reading each property gives, by its number; an index is heeded for Object_List (76) only. */
  lemma ReadInNumbers(contents: Contents, order: seq<ObjectKey>, key: ObjectKey, prop: PropertyRef)
    ensures ReadProperty(contents, order, key, prop) ==
            if key !in contents || key.kind >= 1024 || key.instance >= 4194304 then Err(Failure(1, 31))
            else
              var o := contents[key];
              match prop.id
              case 75 => Ok([AppIdentifier(key)])
              case 77 => Ok([AppString(o.name)])
              case 79 => Ok([AppEnum(key.kind)])
              case 28 => Ok([AppString(if o.description != "" then o.description else o.name)])
              case 85 => if o.pv.Some? then Ok([o.pv.value]) else Err(Failure(2, 32))
              case 111 => Ok([AppBits([false, false, false, false])])
              case 76 => if key.kind == 8 then ObjectList(order, prop.index) else Err(Failure(2, 32))
              case 62 => Ok([AppUnsigned(1476)])
              case 107 => Ok([AppEnum(0)])
              case 120 => Ok([AppUnsigned(999)])
              case 112 => Ok([AppEnum(0)])
              case 98 => Ok([AppUnsigned(1)])
              case 139 => Ok([AppUnsigned(24)])
              case 141 => if key.kind == 20 then Ok([AppUnsigned(o.logs)]) else Err(Failure(2, 32))
              case 145 => if key.kind == 20 then Ok([AppUnsigned(o.logs)]) else Err(Failure(2, 32))
              case _ => Err(Failure(2, 32))
  {
    hide ObjectList;
  }

  datatype Write = Write(key: ObjectKey, prop: PropertyRef, value: AppValue)

  function Verdict(contents: Contents, w: Write): Option<Failure> {
    if w.key !in contents then Some(UNKNOWN_OBJECT)
    else if w.prop.id == PRESENT_VALUE then
      if w.key.kind == ANALOG_VALUE || w.key.kind == ANALOG_OUTPUT then
        if w.value.AppReal? then None else Some(Failure(CLASS_PROPERTY, CODE_VALUE_OUT_OF_RANGE))
      else if w.key.kind == BINARY_VALUE || w.key.kind == BINARY_OUTPUT then
        if w.value.AppEnum? then None else Some(Failure(CLASS_PROPERTY, CODE_VALUE_OUT_OF_RANGE))
      else Some(Failure(CLASS_PROPERTY, CODE_WRITE_ACCESS_DENIED))
    else if w.prop.id == DESCRIPTION then
      if w.value.AppString? then None else Some(Failure(CLASS_PROPERTY, CODE_VALUE_OUT_OF_RANGE))
    else Some(Failure(CLASS_PROPERTY, CODE_WRITE_ACCESS_DENIED))
  }

  function Applied(contents: Contents, w: Write): (r: Contents)
    ensures r.Keys == contents.Keys
  {
    if Verdict(contents, w).Some? then contents
    else if w.prop.id == PRESENT_VALUE then contents[w.key := contents[w.key].(pv := Some(w.value))]
    else contents[w.key := contents[w.key].(description := w.value.text)]
  }

  // ----- The store -----

  /** The sequence lists each key of the set once and nothing else. */
  ghost predicate Enumerates(order: seq<ObjectKey>, keys: set<ObjectKey>) {
    (forall k :: k in order <==> k in keys) && forall i, j :: 0 <= i < j < |order| ==> order[i] != order[j]
  }

  lemma EnumeratesMore(order: seq<ObjectKey>, keys: set<ObjectKey>, key: ObjectKey)
    requires Enumerates(order, keys)
    ensures Enumerates(if key in keys then order else order + [key], keys + {key})
  {
  }

  class Object {
    const key: ObjectKey
    var name: string
    var description: string
    var presentValue: Option<AppValue>
    var logRecords: nat

    constructor (key: ObjectKey, name: string, description: string)
      ensures this.key == key && State() == ObjectState(name, description, None, 0)
    {
      this.key, this.name, this.description, presentValue, logRecords := key, name, description, None, 0;
    }

    function State(): ObjectState
      reads this
    {
      ObjectState(name, description, presentValue, logRecords)
    }

    method SetPresentValue(v: AppValue)
      modifies this`presentValue
      ensures State() == old(State()).(pv := Some(v))
    {
      presentValue := Some(v);
    }

    method SetLogRecords(n: nat)
      modifies this`logRecords
      ensures State() == old(State()).(logs := n)
    {
      logRecords := n;
    }
  }

  class Store {
    var objects: map<ObjectKey, Object>
    var order: seq<ObjectKey>
    const device: ObjectKey

    /** Every object is filed under its own key, and the index lists each key once. */
    ghost predicate Valid()
      reads this, objects.Values
    {
      Enumerates(order, objects.Keys) && forall k | k in objects :: objects[k].key == k
    }

    ghost function View(): Contents
      reads this, objects.Values
    {
      map k | k in objects :: objects[k].State()
    }

    constructor (device: ObjectKey)
      ensures Valid() && View() == map[] && order == [] && this.device == device
    {
      objects, order, this.device := map[], [], device;
    }

    method Add(obj: Object)
      requires Valid()
      modifies this
      ensures Valid() && View() == old(View())[obj.key := obj.State()]
      ensures order == if obj.key in old(objects) then old(order) else old(order) + [obj.key]
      ensures objects == old(objects)[obj.key := obj]
    {
      hide Enumerates;
      EnumeratesMore(order, objects.Keys, obj.key);
      assert objects[obj.key := obj].Keys == objects.Keys + {obj.key};
      if obj.key !in objects {
        order := order + [obj.key];
      }
      objects := objects[obj.key := obj];
    }

    method WriteProperty(w: Write) returns (failure: Option<Failure>)
      requires Valid()
      modifies objects.Values
      ensures Valid() && failure == Verdict(old(View()), w) && View() == Applied(old(View()), w)
    {
      hide Applied;
      ghost var before := View();
      if w.key !in objects {
        assert View() == Applied(before, w) by { AppliedIs(before, w); }
        return Some(UNKNOWN_OBJECT);
      }
      var obj := objects[w.key];
      AppliedIs(before, w);
      if w.prop.id == PRESENT_VALUE {
        if w.key.kind == ANALOG_VALUE || w.key.kind == ANALOG_OUTPUT {
          if !w.value.AppReal? {
            return Some(Failure(CLASS_PROPERTY, CODE_VALUE_OUT_OF_RANGE));
          }
          obj.SetPresentValue(w.value);
          ViewAfter(before, w.key, obj);
          return None;
        } else if w.key.kind == BINARY_VALUE || w.key.kind == BINARY_OUTPUT {
          if !w.value.AppEnum? {
            return Some(Failure(CLASS_PROPERTY, CODE_VALUE_OUT_OF_RANGE));
          }
          obj.SetPresentValue(w.value);
          ViewAfter(before, w.key, obj);
          return None;
        } else {
          return Some(Failure(CLASS_PROPERTY, CODE_WRITE_ACCESS_DENIED));
        }
      } else if w.prop.id == DESCRIPTION {
        if !w.value.AppString? {
          return Some(Failure(CLASS_PROPERTY, CODE_VALUE_OUT_OF_RANGE));
        }
        obj.description := w.value.text;
        ViewAfter(before, w.key, obj);
        return None;
      } else {
        return Some(Failure(CLASS_PROPERTY, CODE_WRITE_ACCESS_DENIED));
      }
    }

    lemma ViewAfter(before: Contents, key: ObjectKey, obj: Object)
      requires key in objects && objects[key] == obj && before.Keys == objects.Keys
      requires forall k | k in objects && k != key :: objects[k].State() == before[k]
      ensures View() == before[key := obj.State()]
    {
    }

    /** `encodeObjectList`, the identifiers appended one by one. */
    method ReadObjectList(index: Option<uint32>) returns (r: Result<seq<AppValue>>)
      ensures r == ObjectList(order, index)
    {
      if index.Some? {
        if index.value == 0 {
          return Ok([AppUnsigned(|order|)]);
        }
        var i := index.value - 1;
        if i < 0 || i >= |order| {
          return Err(Failure(CLASS_PROPERTY, CODE_INVALID_ARRAY_INDEX));
        }
        if !order[i].HasIdentifier() {
          return Err(UNKNOWN_OBJECT);
        }
        return Ok([AppIdentifier(order[i])]);
      }
      var out := [];
      for i := 0 to |order|
        invariant |out| == i && forall j | 0 <= j < i :: order[j].HasIdentifier() && out[j] == AppIdentifier(order[j])
      {
        if !order[i].HasIdentifier() {
          assert order[i] in order;
          return Err(UNKNOWN_OBJECT);
        }
        out := out + [AppIdentifier(order[i])];
      }
      assert out == ListedValues(order);
      return Ok(out);
    }
  }

  lemma AppliedIs(contents: Contents, w: Write)
    ensures Applied(contents, w) ==
            if Verdict(contents, w).Some? then contents
            else if w.prop.id == PRESENT_VALUE then contents[w.key := contents[w.key].(pv := Some(w.value))]
            else contents[w.key := contents[w.key].(description := w.value.text)]
  {
  }

  // ----- Loading -----

  datatype Json = JNull | JBool(b: bool) | JNumber(bits: nat, zero: bool) | JString(s: string) | JOther

  /** One fixture object; `kind` is what its type name parses to. */
  datatype FixtureObject = FixtureObject(kind: Option<nat>, instance: nat, name: string, pv: Json, description: string)

  function Lower(s: string): string {
    seq(|s|, i requires 0 <= i < |s| => if 'A' <= s[i] <= 'Z' then (s[i] as int + 32) as char else s[i])
  }

  function AnalogPV(v: Json): Option<AppValue> {
    match v
    case JNumber(bits, _) => Some(AppReal(bits))
    case JNull => Some(AppReal(0))
    case _ => None
  }

  function BinaryPV(v: Json): Option<AppValue> {
    match v
    case JString(s) =>
      if Lower(s) in {"inactive", "0", "false"} then Some(AppEnum(0))
      else if Lower(s) in {"active", "1", "true"} then Some(AppEnum(1))
      else None
    case JBool(b) => Some(AppEnum(if b then 1 else 0))
    case JNumber(_, zero) => Some(AppEnum(if zero then 0 else 1))
    case JNull => Some(AppEnum(0))
    case JOther => None
  }

  /** Analog present values are reals and binary ones are enumerated. */
  ghost predicate Typed(contents: Contents) {
    forall k | k in contents ::
      (IsAnalog(k.kind) ==> contents[k].pv.Some? && contents[k].pv.value.AppReal?)
      && (IsBinary(k.kind) ==> contents[k].pv.Some? && contents[k].pv.value.AppEnum?)
  }

  /** Which fixture objects the loader accepts. */
  predicate Loadable(o: FixtureObject) {
    o.kind.Some? && (IsAnalog(o.kind.value) ==> AnalogPV(o.pv).Some?)
    && (IsBinary(o.kind.value) ==> BinaryPV(o.pv).Some?)
  }

  ghost predicate AllLoadable(fixture: seq<FixtureObject>) {
    forall i :: 0 <= i < |fixture| ==> Loadable(fixture[i])
  }

  function Loaded(o: FixtureObject): ObjectState
    requires Loadable(o)
  {
    var kind := o.kind.value;
    ObjectState(o.name, o.description,
                if IsAnalog(kind) then AnalogPV(o.pv) else if IsBinary(kind) then BinaryPV(o.pv) else None,
                if kind == TREND_LOG then LOG_SEED_RECORDS else 0)
  }

  /**
   Which entries load, and as what, by the numbers of the types: analog ones are
   0 to 2, binary ones 3 to 5, a Trend Log is 20. The spellings of a binary value
   agree.
   */
  lemma LoadedInNumbers(o: FixtureObject)
    requires o.kind.Some?
    ensures var kind := o.kind.value;
            && (Loadable(o) <==> (kind <= 2 ==> o.pv.JNumber? || o.pv.JNull?)
                                 && (3 <= kind <= 5 ==> BinaryPV(o.pv).Some?))
            && (Loadable(o) ==>
                  && Loaded(o).name == o.name && Loaded(o).description == o.description
                  && Loaded(o).logs == (if kind == 20 then 36 else 0)
                  && Loaded(o).pv == if kind <= 2 then Some(AppReal(if o.pv.JNumber? then o.pv.bits else 0))
                                     else if kind <= 5 then BinaryPV(o.pv) else None)
  {
    hide BinaryPV;
  }

  lemma BinarySpellings(s: string, on: bool, bits: nat)
    ensures BinaryPV(JBool(on)) == Some(AppEnum(if on then 1 else 0))
    ensures BinaryPV(JNumber(bits, !on)) == BinaryPV(JBool(on)) && BinaryPV(JNull) == BinaryPV(JBool(false))
    ensures BinaryPV(JOther) == None
    ensures BinaryPV(JString(s)) ==
            if Lower(s) == "active" || Lower(s) == "1" || Lower(s) == "true" then Some(AppEnum(1))
            else if Lower(s) == "inactive" || Lower(s) == "0" || Lower(s) == "false" then Some(AppEnum(0))
            else None
  {
    hide Lower;
  }

  lemma LowerCase(s: string)
    ensures |Lower(s)| == |s|
    ensures forall i | 0 <= i < |s| :: Lower(s)[i] == if 'A' <= s[i] <= 'Z' then s[i] - 'A' + 'a' else s[i]
  {
  }

  /** The last fixture object with a key; the device object is supplied when it is missing. */
  ghost function LoadedContents(fixture: seq<FixtureObject>): Contents
    requires AllLoadable(fixture)
  {
    if fixture == [] then map[]
    else
      var o := fixture[|fixture| - 1];
      LoadedContents(fixture[..|fixture| - 1])[ObjectKey(o.kind.value, o.instance) := Loaded(o)]
  }

  /** Of several entries with one type and instance the last is kept, and nothing that no entry names. */
  lemma {:induction false} LastEntryIsKept(fixture: seq<FixtureObject>, i: nat)
    requires AllLoadable(fixture) && i < |fixture|
    requires forall j | i < j < |fixture| ::
               fixture[j].kind != fixture[i].kind || fixture[j].instance != fixture[i].instance
    ensures var key := ObjectKey(fixture[i].kind.value, fixture[i].instance);
            key in LoadedContents(fixture) && LoadedContents(fixture)[key] == Loaded(fixture[i])
  {
    hide Loaded;
    var before := fixture[..|fixture| - 1];
    assert Loadable(fixture[i]) && Loadable(fixture[|fixture| - 1]);
    if i < |before| {
      assert before[i] == fixture[i] && forall j | i < j < |before| :: before[j] == fixture[j];
      LastEntryIsKept(before, i);
    }
  }

  lemma {:induction false} EntriesOnlyAreKept(fixture: seq<FixtureObject>, key: ObjectKey)
    requires AllLoadable(fixture) && key in LoadedContents(fixture)
    ensures exists o :: o in fixture && o.kind == Some(key.kind) && o.instance == key.instance
  {
    hide Loaded;
    assert Loadable(fixture[|fixture| - 1]);
    var before, last := fixture[..|fixture| - 1], fixture[|fixture| - 1];
    if last.kind == Some(key.kind) && last.instance == key.instance {
      assert last in fixture;
    } else {
      EntriesOnlyAreKept(before, key);
      var o :| o in before && o.kind == Some(key.kind) && o.instance == key.instance;
      assert o in fixture;
    }
  }

  method LoadObject(o: FixtureObject) returns (r: Option<Object>)
    ensures r.Some? <==> Loadable(o)
    ensures r.Some? ==>
              fresh(r.value) && r.value.key == ObjectKey(o.kind.value, o.instance) && r.value.State() == Loaded(o)
  {
    if o.kind.None? {
      return None;
    }
    var kind := o.kind.value;
    var obj := new Object(ObjectKey(kind, o.instance), o.name, o.description);
    if IsAnalog(kind) {
      var pv := AnalogPV(o.pv);
      if pv.None? {
        return None;
      }
      obj.SetPresentValue(pv.value);
    } else if IsBinary(kind) {
      var pv := BinaryPV(o.pv);
      if pv.None? {
        return None;
      }
      obj.SetPresentValue(pv.value);
    } else if kind == TREND_LOG {
      obj.SetLogRecords(LOG_SEED_RECORDS);
    }
    return Some(obj);
  }

  lemma TypedMore(contents: Contents, key: ObjectKey, state: ObjectState)
    requires Typed(contents)
    requires IsAnalog(key.kind) ==> state.pv.Some? && state.pv.value.AppReal?
    requires IsBinary(key.kind) ==> state.pv.Some? && state.pv.value.AppEnum?
    ensures Typed(contents[key := state])
  {
  }

  lemma {:induction false} LoadedIsTyped(fixture: seq<FixtureObject>)
    requires AllLoadable(fixture)
    ensures Typed(LoadedContents(fixture))
  {
    hide Typed;
    if fixture == [] {
      assert Typed(map[]) by { NothingIsTyped(); }
    } else {
      var o := fixture[|fixture| - 1];
      LoadedIsTyped(fixture[..|fixture| - 1]);
      TypedMore(LoadedContents(fixture[..|fixture| - 1]), ObjectKey(o.kind.value, o.instance), Loaded(o));
    }
  }

  lemma NothingIsTyped()
    ensures Typed(map[])
  {
  }

  lemma Listed(order: seq<ObjectKey>, keys: set<ObjectKey>, key: ObjectKey)
    requires Enumerates(order, keys) && key in keys
    ensures key in order
  {
  }

  /** A prefix is loadable when each of its objects is, and a refused object makes the whole fixture refused. */
  lemma RevealLoadable(fixture: seq<FixtureObject>)
    ensures AllLoadable(fixture[..0])
    ensures forall i | 0 <= i < |fixture| ::
              AllLoadable(fixture[..i + 1]) <==> AllLoadable(fixture[..i]) && Loadable(fixture[i])
    ensures forall i | 0 <= i < |fixture| :: !Loadable(fixture[i]) ==> !AllLoadable(fixture)
  {
  }

  /** `LoadFile` on a decoded fixture; `None` stands for its errors. */
  method Load(instance: nat, name: string, fixture: seq<FixtureObject>) returns (store: Option<Store>)
    ensures store.Some? <==> !(instance == 0 && name == "") && AllLoadable(fixture)
    ensures store.Some? ==>
              var s, device, loaded := store.value, ObjectKey(DEVICE, instance), LoadedContents(fixture);
              s.Valid() && Typed(s.View()) && device in s.order && s.device == device
              && s.View() == if device in loaded then loaded else loaded[device := ObjectState(name, "", None, 0)]
  {
    hide Enumerates, Loadable, Loaded, Typed, AllLoadable;
    RevealLoadable(fixture);
    if instance == 0 && name == "" {
      return None;
    }
    var s := new Store(ObjectKey(DEVICE, instance));
    for i := 0 to |fixture|
      invariant fresh(s) && s.Valid() && s.device == ObjectKey(DEVICE, instance)
      invariant AllLoadable(fixture[..i])
      invariant s.View() == LoadedContents(fixture[..i])
    {
      var o := fixture[i];
      assert fixture[..i + 1][..i] == fixture[..i] && o in fixture;
      var obj := LoadObject(o);
      if obj.None? {
        return None;
      }
      s.Add(obj.value);
    }
    assert fixture[..|fixture|] == fixture;
    LoadedIsTyped(fixture);
    ghost var loaded := LoadedContents(fixture);
    if s.device !in s.objects {
      var device := new Object(s.device, name, "");
      s.Add(device);
      TypedMore(loaded, s.device, ObjectState(name, "", None, 0));
    }
    Listed(s.order, s.objects.Keys, s.device);
    return Some(s);
  }
}
