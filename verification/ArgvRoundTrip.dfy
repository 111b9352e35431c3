/** The fixture printed as arguments, and the proof that the C loop reads it back. */
module ArgvRoundTrip {
  import opened Wire
  import opened Numerals
  import opened Argv

  /** A fixture object. An absent description is empty; `value` is the present value as Python prints it. */
  datatype FixtureObject =
    | AnalogValue(instance: uint32, name: string, value: string, description: string)
    | BinaryValue(instance: uint32, name: string, value: string)
    | FileObject(instance: uint32, name: string, record: bool)
    | LifeSafetyPoint(instance: uint32, name: string)
    | LifeSafetyZone(instance: uint32, name: string)
    | Unserved

  // ----- The printer -----

  function Pair(o: Opt, v: string): seq<string> {
    [Text(o), v]
  }

  function ObjectArgs(o: FixtureObject): seq<string> {
    match o
    case AnalogValue(instance, name, value, description) =>
      Pair(AvInstance, Decimal(instance)) + (Pair(AvName, name) + (Pair(AvValue, value)
      + (if description != "" then Pair(AvDescription, description) else [])))
    case BinaryValue(instance, name, value) =>
      Pair(BvInstance, Decimal(instance)) + (Pair(BvName, name) + Pair(BvValue, value))
    case LifeSafetyPoint(instance, name) => Pair(LspInstance, Decimal(instance)) + Pair(LspName, name)
    case LifeSafetyZone(instance, name) => Pair(LszInstance, Decimal(instance)) + Pair(LszName, name)
    case _ => []
  }

  function FilePathOf(instance: uint32): string {
    "file-" + Decimal(instance) + ".bin"
  }

  /** The group of one file; the other objects have none. */
  function FileArgs(o: FixtureObject): seq<string> {
    match o
    case FileObject(instance, name, record) =>
      Pair(FileInstance, Decimal(instance)) + (Pair(FileName, name) + (Pair(FilePath, FilePathOf(instance))
      + Pair(FileAccess, if record then "record" else "stream")))
    case _ => []
  }

  function AllObjectArgs(os: seq<FixtureObject>): seq<string> {
    if os == [] then [] else ObjectArgs(os[0]) + AllObjectArgs(os[1..])
  }

  function AllFileArgs(os: seq<FixtureObject>): seq<string> {
    if os == [] then [] else FileArgs(os[0]) + AllFileArgs(os[1..])
  }

  /** The arguments of each object, written out. */
  lemma PrintedArguments(o: FixtureObject)
    ensures ObjectArgs(o) + FileArgs(o) ==
            match o
            case AnalogValue(instance, name, value, description) =>
              ["--av-instance", Decimal(instance), "--av-name", name, "--av-value", value]
              + (if description == "" then [] else ["--av-description", description])
            case BinaryValue(instance, name, value) =>
              ["--bv-instance", Decimal(instance), "--bv-name", name, "--bv-value", value]
            case LifeSafetyPoint(instance, name) => ["--lsp-instance", Decimal(instance), "--lsp-name", name]
            case LifeSafetyZone(instance, name) => ["--lsz-instance", Decimal(instance), "--lsz-name", name]
            case FileObject(instance, name, record) =>
              ["--file-instance", Decimal(instance), "--file-name", name,
               "--file-path", "file-" + Decimal(instance) + ".bin",
               "--file-access", if record then "record" else "stream"]
            case Unserved => []
  {
    ObjectOptions();
    FileOptions();
    hide Decimal, Text;
  }

  lemma ObjectOptions()
    ensures Text(AvInstance) == "--av-instance" && Text(AvName) == "--av-name" && Text(AvValue) == "--av-value"
    ensures Text(AvDescription) == "--av-description"
    ensures Text(BvInstance) == "--bv-instance" && Text(BvName) == "--bv-name" && Text(BvValue) == "--bv-value"
    ensures Text(LspInstance) == "--lsp-instance" && Text(LspName) == "--lsp-name"
    ensures Text(LszInstance) == "--lsz-instance" && Text(LszName) == "--lsz-name"
  {
  }

  lemma FileOptions()
    ensures Text(FileInstance) == "--file-instance" && Text(FileName) == "--file-name"
    ensures Text(FilePath) == "--file-path" && Text(FileAccess) == "--file-access"
  {
  }

  /** The arguments of a fixture without objects. */
  lemma {:induction false} PrintedDevice(device: uint32, name: string)
    ensures Printed(device, name, []) == ["--instance", Decimal(device), "--name", name, "--no-av", "--no-bv"]
  {
    hide Decimal;
  }

  predicate Saw(os: seq<FixtureObject>, av: bool) {
    exists o | o in os :: if av then o.AnalogValue? else o.BinaryValue?
  }

  function Printed(device: uint32, name: string, os: seq<FixtureObject>): seq<string> {
    (Pair(Instance, Decimal(device)) + Pair(Name, name)) + (AllObjectArgs(os) + (AllFileArgs(os)
    + ((if Saw(os, true) then [] else [Text(NoAv)]) + (if Saw(os, false) then [] else [Text(NoBv)]))))
  }

  /** `server_args`: one list extended in two loops. */
  method ServerArgs(device: uint32, name: string, os: seq<FixtureObject>) returns (args: seq<string>)
    ensures args == Printed(device, name, os)
  {
    hide Text, Decimal, ObjectArgs, FileArgs;
    args := Pair(Instance, Decimal(device)) + Pair(Name, name);
    ghost var start := args;
    var sawAv, sawBv := false, false;
    for i := 0 to |os|
      invariant args + AllObjectArgs(os[i..]) == start + AllObjectArgs(os)
      invariant sawAv == Saw(os[..i], true) && sawBv == Saw(os[..i], false)
    {
      var o := os[i];
      assert os[..i + 1] == os[..i] + [o] && os[i..][1..] == os[i + 1..];
      sawAv := sawAv || o.AnalogValue?;
      sawBv := sawBv || o.BinaryValue?;
      assert args + (ObjectArgs(o) + AllObjectArgs(os[i + 1..])) == (args + ObjectArgs(o)) + AllObjectArgs(os[i + 1..]);
      args := args + ObjectArgs(o);
    }
    assert os[..|os|] == os && args + [] == args;
    ghost var middle := args;
    for i := 0 to |os|
      invariant args + AllFileArgs(os[i..]) == middle + AllFileArgs(os)
    {
      assert os[i..][1..] == os[i + 1..];
      assert args + (FileArgs(os[i]) + AllFileArgs(os[i + 1..])) == (args + FileArgs(os[i])) + AllFileArgs(os[i + 1..]);
      args := args + FileArgs(os[i]);
    }
    assert args + [] == args;
    ghost var all := args;
    if !sawAv {
      args := args + [Text(NoAv)];
    }
    if !sawBv {
      args := args + [Text(NoBv)];
    }
    ghost var flags := (if Saw(os, true) then [] else [Text(NoAv)]) + (if Saw(os, false) then [] else [Text(NoBv)]);
    assert args == all + flags;
    assert (start + AllObjectArgs(os)) + AllFileArgs(os) + flags ==
        start + (AllObjectArgs(os) + (AllFileArgs(os) + flags));
  }

  // ----- What must come back -----

  datatype Lists = Lists(avs: seq<AvRow>, bvs: seq<BvRow>, files: seq<FileRow>, lsps: seq<NamedRow>,
                         lszs: seq<NamedRow>) {
    predicate Fits() {
      |avs| <= MAX_AVS && |bvs| <= MAX_BVS && |files| <= MAX_FILES && |lsps| <= MAX_LSPS && |lszs| <= MAX_LSZS
    }

    /** The object in its list, files apart. */
    function Add(o: FixtureObject): Lists {
      match o
      case AnalogValue(instance, name, value, description) =>
        this.(avs := avs + [AvRow(instance, Some(name), Some(description), value)])
      case BinaryValue(instance, name, value) =>
        this.(bvs := bvs + [BvRow(instance, Some(name), value == "active" || value == "1")])
      case LifeSafetyPoint(instance, name) => this.(lsps := lsps + [NamedRow(instance, Some(name))])
      case LifeSafetyZone(instance, name) => this.(lszs := lszs + [NamedRow(instance, Some(name))])
      case _ => this
    }

    function AddFile(o: FixtureObject): Lists {
      match o
      case FileObject(instance, name, record) =>
        this.(files := files + [FileRow(instance, Some(name), Some(FilePathOf(instance)), !record)])
      case _ => this
    }
  }

  function AddAll(l: Lists, os: seq<FixtureObject>): Lists
    decreases |os|
  {
    if os == [] then l else AddAll(l.Add(os[0]), os[1..])
  }

  function AddFiles(l: Lists, os: seq<FixtureObject>): Lists
    decreases |os|
  {
    if os == [] then l else AddFiles(l.AddFile(os[0]), os[1..])
  }

  /** The fixture's objects by kind, each list in the fixture's order. */
  function ListsOf(os: seq<FixtureObject>): Lists {
    AddFiles(AddAll(Lists([], [], [], [], []), os), os)
  }

  function Filled<T>(rows: seq<T>, size: nat, blank: T): Table<T>
    requires |rows| <= size
  {
    Table(rows + Repeat(size - |rows|, blank), |rows|)
  }

  /** The program's tables holding exactly some lists. */
  function Holding(device: uint32, name: string, l: Lists, defaultAv: bool, defaultBv: bool): (r: Config)
    requires l.Fits()
    ensures r.InBounds()
  {
    Config(device, name, Filled(l.avs, MAX_AVS, BLANK_AV), Filled(l.bvs, MAX_BVS, BLANK_BV),
           Filled(l.files, MAX_FILES, BLANK_FILE), Filled(l.lsps, MAX_LSPS, BLANK_NAMED),
           Filled(l.lszs, MAX_LSZS, BLANK_NAMED),
           defaultAv, defaultBv)
  }

  // ----- The loop on printed arguments -----

  /** An option and its value are consumed together, whatever the value looks like. */
  lemma {:induction false} RunPair(cfg: Config, o: Opt, v: string, rest: seq<string>)
    requires cfg.InBounds() && TakesValue(o)
    ensures Run(cfg, Pair(o, v) + rest) ==
            match Valued(cfg, o, v)
            case None => Exit(2)
            case Some(next) => Run(next, rest)
  {
    ClassifyText(o);
    hide Classify, Text, Valued;
    var args := Pair(o, v) + rest;
    assert args[2..] == rest && args[0] == Text(o) && args[1] == v;
  }

  lemma FilledPush<T>(rows: seq<T>, size: nat, blank: T, row: T)
    requires |rows| < size
    ensures var t := Filled(rows, size, blank);
            t.rows[t.count] == blank && Push(t, row) == Filled(rows + [row], size, blank)
  {
  }

  lemma FilledAmend<T>(rows: seq<T>, size: nat, blank: T, old_: T, row: T)
    requires |rows| < size
    ensures var t := Filled(rows + [old_], size, blank);
            Last(t) == old_ && Amend(t, row) == Filled(rows + [row], size, blank)
  {
  }

  lemma {:induction false} AvOpened(d: uint32, n: string, l: Lists, dA: bool, dB: bool, instance: uint32,
                                    rest: seq<string>)
    requires l.Fits()
    ensures Run(Holding(d, n, l, dA, dB), Pair(AvInstance, Decimal(instance)) + rest) ==
            if |l.avs| < MAX_AVS then
              Run(Holding(d, n, l.(avs := l.avs + [AvRow(instance, Some("AV"), Some(""), "")]), false, dB), rest)
            else Exit(2)
  {
    hide Run, Strtoul, Repeat;
    RunPair(Holding(d, n, l, dA, dB), AvInstance, Decimal(instance), rest);
    StrtoulDecimal(instance);
    if |l.avs| < MAX_AVS {
      FilledPush(l.avs, MAX_AVS, BLANK_AV, AvRow(instance, Some("AV"), Some(""), ""));
    }
    hide Pair, Filled;
  }

  /** The options of one analog value open a row and complete it. */
  lemma {:induction false} AvIsRead(d: uint32, n: string, l: Lists, dA: bool, dB: bool, o: FixtureObject,
                                    rest: seq<string>)
    requires l.Fits() && o.AnalogValue?
    ensures Run(Holding(d, n, l, dA, dB), ObjectArgs(o) + rest) ==
            if |l.avs| < MAX_AVS then Run(Holding(d, n, l.Add(o), false, dB), rest) else Exit(2)
  {
    hide Run, Holding, Text, Decimal, Strtoul, Repeat;
    var AnalogValue(instance, name, value, description) := o;
    var tail := (if description != "" then Pair(AvDescription, description) else []) + rest;
    var r3 := Pair(AvValue, value) + tail;
    var r2 := Pair(AvName, name) + r3;
    assert ObjectArgs(o) + rest == Pair(AvInstance, Decimal(instance)) + r2;
    AvOpened(d, n, l, dA, dB, instance, r2);
    if |l.avs| < MAX_AVS {
      var row0 := AvRow(instance, Some("AV"), Some(""), "");
      var row1 := row0.(name := Some(name));
      var row2 := row1.(value := value);
      AvAmended(d, n, l, dB, AvName, name, row0, row1, r3);
      AvAmended(d, n, l, dB, AvValue, value, row1, row2, tail);
      if description != "" {
        AvAmended(d, n, l, dB, AvDescription, description, row2, row2.(description := Some(description)), rest);
      } else {
        assert tail == rest;
      }
    }
  }

  lemma {:induction false} AvAmended(d: uint32, n: string, l: Lists, dB: bool, o: Opt, v: string, was: AvRow,
                                     row: AvRow, rest: seq<string>)
    requires l.Fits() && |l.avs| < MAX_AVS
    requires (o == AvName && row == was.(name := Some(v))) || (o == AvValue && row == was.(value := v))
             || (o == AvDescription && row == was.(description := Some(v)))
    ensures Run(Holding(d, n, l.(avs := l.avs + [was]), false, dB), Pair(o, v) + rest) ==
            Run(Holding(d, n, l.(avs := l.avs + [row]), false, dB), rest)
  {
    hide Run, Repeat;
    RunPair(Holding(d, n, l.(avs := l.avs + [was]), false, dB), o, v, rest);
    FilledAmend(l.avs, MAX_AVS, BLANK_AV, was, row);
    hide Filled, Pair;
  }

  lemma {:induction false} BvOpened(d: uint32, n: string, l: Lists, dA: bool, dB: bool, instance: uint32,
                                    rest: seq<string>)
    requires l.Fits()
    ensures Run(Holding(d, n, l, dA, dB), Pair(BvInstance, Decimal(instance)) + rest) ==
            if |l.bvs| < MAX_BVS then
              Run(Holding(d, n, l.(bvs := l.bvs + [BvRow(instance, Some("BV"), false)]), dA, false), rest)
            else Exit(2)
  {
    hide Run, Strtoul, Repeat;
    RunPair(Holding(d, n, l, dA, dB), BvInstance, Decimal(instance), rest);
    StrtoulDecimal(instance);
    if |l.bvs| < MAX_BVS {
      FilledPush(l.bvs, MAX_BVS, BLANK_BV, BvRow(instance, Some("BV"), false));
    }
    hide Pair, Filled;
  }

  lemma {:induction false} BvIsRead(d: uint32, n: string, l: Lists, dA: bool, dB: bool, o: FixtureObject,
                                    rest: seq<string>)
    requires l.Fits() && o.BinaryValue?
    ensures Run(Holding(d, n, l, dA, dB), ObjectArgs(o) + rest) ==
            if |l.bvs| < MAX_BVS then Run(Holding(d, n, l.Add(o), dA, false), rest) else Exit(2)
  {
    hide Run, Holding, Text, Decimal, Strtoul, Repeat;
    var BinaryValue(instance, name, value) := o;
    var r3 := Pair(BvValue, value) + rest;
    var r2 := Pair(BvName, name) + r3;
    assert ObjectArgs(o) + rest == Pair(BvInstance, Decimal(instance)) + r2;
    BvOpened(d, n, l, dA, dB, instance, r2);
    if |l.bvs| < MAX_BVS {
      var row0 := BvRow(instance, Some("BV"), false);
      var row1 := row0.(name := Some(name));
      BvAmended(d, n, l, dA, BvName, name, row0, row1, r3);
      BvAmended(d, n, l, dA, BvValue, value, row1, row1.(active := value == "active" || value == "1"), rest);
    }
  }

  lemma {:induction false} BvAmended(d: uint32, n: string, l: Lists, dA: bool, o: Opt, v: string, was: BvRow,
                                     row: BvRow, rest: seq<string>)
    requires l.Fits() && |l.bvs| < MAX_BVS
    requires (o == BvName && row == was.(name := Some(v)))
            || (o == BvValue && row == was.(active := v == "active" || v == "1"))
    ensures Run(Holding(d, n, l.(bvs := l.bvs + [was]), dA, false), Pair(o, v) + rest) ==
            Run(Holding(d, n, l.(bvs := l.bvs + [row]), dA, false), rest)
  {
    hide Run, Repeat;
    RunPair(Holding(d, n, l.(bvs := l.bvs + [was]), dA, false), o, v, rest);
    FilledAmend(l.bvs, MAX_BVS, BLANK_BV, was, row);
    hide Filled, Pair;
  }

  lemma {:induction false} FileOpened(d: uint32, n: string, l: Lists, dA: bool, dB: bool, instance: uint32,
                                      rest: seq<string>)
    requires l.Fits()
    ensures Run(Holding(d, n, l, dA, dB), Pair(FileInstance, Decimal(instance)) + rest) ==
            if |l.files| < MAX_FILES then
              Run(Holding(d, n, l.(files := l.files + [FileRow(instance, Some("FILE"), None, true)]), dA, dB), rest)
            else Exit(2)
  {
    hide Run, Strtoul, Repeat;
    RunPair(Holding(d, n, l, dA, dB), FileInstance, Decimal(instance), rest);
    StrtoulDecimal(instance);
    if |l.files| < MAX_FILES {
      FilledPush(l.files, MAX_FILES, BLANK_FILE, FileRow(instance, Some("FILE"), None, true));
    }
    hide Pair, Filled;
  }

  lemma {:induction false} FileIsRead(d: uint32, n: string, l: Lists, dA: bool, dB: bool, o: FixtureObject,
                                      rest: seq<string>)
    requires l.Fits() && o.FileObject?
    ensures Run(Holding(d, n, l, dA, dB), FileArgs(o) + rest) ==
            if |l.files| < MAX_FILES then Run(Holding(d, n, l.AddFile(o), dA, dB), rest) else Exit(2)
  {
    hide Run, Holding, Text, Decimal, Strtoul, Repeat, FilePathOf;
    var FileObject(instance, name, record) := o;
    var access := if record then "record" else "stream";
    var r4 := Pair(FileAccess, access) + rest;
    var r3 := Pair(FilePath, FilePathOf(instance)) + r4;
    var r2 := Pair(FileName, name) + r3;
    assert FileArgs(o) + rest == Pair(FileInstance, Decimal(instance)) + r2;
    FileOpened(d, n, l, dA, dB, instance, r2);
    if |l.files| < MAX_FILES {
      var row0 := FileRow(instance, Some("FILE"), None, true);
      var row1 := row0.(name := Some(name));
      var row2 := row1.(path := Some(FilePathOf(instance)));
      FileAmended(d, n, l, dA, dB, FileName, name, row0, row1, r3);
      FileAmended(d, n, l, dA, dB, FilePath, FilePathOf(instance), row1, row2, r4);
      assert (access != "record") == !record by { assert "stream"[0] != "record"[0]; }
      FileAmended(d, n, l, dA, dB, FileAccess, access, row2, row2.(stream := access != "record"), rest);
    }
  }

  lemma {:induction false} FileAmended(d: uint32, n: string, l: Lists, dA: bool, dB: bool, o: Opt, v: string,
                                       was: FileRow, row: FileRow, rest: seq<string>)
    requires l.Fits() && |l.files| < MAX_FILES
    requires (o == FileName && row == was.(name := Some(v))) || (o == FilePath && row == was.(path := Some(v)))
             || (o == FileAccess && row == was.(stream := v != "record"))
    ensures Run(Holding(d, n, l.(files := l.files + [was]), dA, dB), Pair(o, v) + rest) ==
            Run(Holding(d, n, l.(files := l.files + [row]), dA, dB), rest)
  {
    hide Run, Repeat;
    RunPair(Holding(d, n, l.(files := l.files + [was]), dA, dB), o, v, rest);
    FilledAmend(l.files, MAX_FILES, BLANK_FILE, was, row);
    hide Filled, Pair;
  }

  lemma {:induction false} LspIsRead(d: uint32, n: string, l: Lists, dA: bool, dB: bool, o: FixtureObject,
                                     rest: seq<string>)
    requires l.Fits() && o.LifeSafetyPoint?
    ensures Run(Holding(d, n, l, dA, dB), ObjectArgs(o) + rest) ==
            if |l.lsps| < MAX_LSPS then Run(Holding(d, n, l.Add(o), dA, dB), rest) else Exit(2)
  {
    hide Run, Text, Decimal, Strtoul, Repeat;
    var LifeSafetyPoint(instance, name) := o;
    var r2 := Pair(LspName, name) + rest;
    assert ObjectArgs(o) + rest == Pair(LspInstance, Decimal(instance)) + r2;
    RunPair(Holding(d, n, l, dA, dB), LspInstance, Decimal(instance), r2);
    StrtoulDecimal(instance);
    if |l.lsps| < MAX_LSPS {
      var row0 := NamedRow(instance, Some("LSP"));
      FilledPush(l.lsps, MAX_LSPS, BLANK_NAMED, row0);
      RunPair(Holding(d, n, l.(lsps := l.lsps + [row0]), dA, dB), LspName, name, rest);
      FilledAmend(l.lsps, MAX_LSPS, BLANK_NAMED, row0, row0.(name := Some(name)));
      hide Filled, Pair;
    }
  }

  lemma {:induction false} LszIsRead(d: uint32, n: string, l: Lists, dA: bool, dB: bool, o: FixtureObject,
                                     rest: seq<string>)
    requires l.Fits() && o.LifeSafetyZone?
    ensures Run(Holding(d, n, l, dA, dB), ObjectArgs(o) + rest) ==
            if |l.lszs| < MAX_LSZS then Run(Holding(d, n, l.Add(o), dA, dB), rest) else Exit(2)
  {
    hide Run, Text, Decimal, Strtoul, Repeat;
    var LifeSafetyZone(instance, name) := o;
    var r2 := Pair(LszName, name) + rest;
    assert ObjectArgs(o) + rest == Pair(LszInstance, Decimal(instance)) + r2;
    RunPair(Holding(d, n, l, dA, dB), LszInstance, Decimal(instance), r2);
    StrtoulDecimal(instance);
    if |l.lszs| < MAX_LSZS {
      var row0 := NamedRow(instance, Some("LSZ"));
      FilledPush(l.lszs, MAX_LSZS, BLANK_NAMED, row0);
      RunPair(Holding(d, n, l.(lszs := l.lszs + [row0]), dA, dB), LszName, name, rest);
      FilledAmend(l.lszs, MAX_LSZS, BLANK_NAMED, row0, row0.(name := Some(name)));
      hide Filled, Pair;
    }
  }

  lemma {:induction false} ObjectIsRead(d: uint32, n: string, l: Lists, dA: bool, dB: bool, o: FixtureObject,
                                        rest: seq<string>)
    requires l.Fits()
    ensures Run(Holding(d, n, l, dA, dB), ObjectArgs(o) + rest) ==
            if l.Add(o).Fits() then Run(Holding(d, n, l.Add(o), dA && !o.AnalogValue?, dB && !o.BinaryValue?), rest)
            else Exit(2)
  {
    match o {
      case AnalogValue(_, _, _, _) => AvIsRead(d, n, l, dA, dB, o, rest);
      case BinaryValue(_, _, _) => BvIsRead(d, n, l, dA, dB, o, rest);
      case LifeSafetyPoint(_, _) => LspIsRead(d, n, l, dA, dB, o, rest);
      case LifeSafetyZone(_, _) => LszIsRead(d, n, l, dA, dB, o, rest);
      case _ => assert ObjectArgs(o) + rest == rest;
    }
    hide Run, Holding, ObjectArgs;
  }

  /** Lists only grow. */
  lemma {:induction false} AddAllGrows(l: Lists, os: seq<FixtureObject>)
    ensures AddAll(l, os).Fits() ==> l.Fits()
    ensures AddFiles(l, os).Fits() ==> l.Fits()
    decreases |os|
  {
    if os != [] {
      AddAllGrows(l.Add(os[0]), os[1..]);
      AddAllGrows(l.AddFile(os[0]), os[1..]);
    }
  }

  lemma {:induction false} ObjectsAreRead(d: uint32, n: string, l: Lists, dA: bool, dB: bool, os: seq<FixtureObject>,
                                          rest: seq<string>)
    requires l.Fits()
    ensures Run(Holding(d, n, l, dA, dB), AllObjectArgs(os) + rest) ==
            if AddAll(l, os).Fits() then
              Run(Holding(d, n, AddAll(l, os), dA && !Saw(os, true), dB && !Saw(os, false)), rest)
            else Exit(2)
    decreases |os|
  {
    hide Run, Holding, ObjectArgs;
    if os == [] {
      assert AllObjectArgs(os) + rest == rest;
    } else {
      var more := AllObjectArgs(os[1..]) + rest;
      assert AllObjectArgs(os) + rest == ObjectArgs(os[0]) + more;
      ObjectIsRead(d, n, l, dA, dB, os[0], more);
      SawFirst(os);
      if l.Add(os[0]).Fits() {
        ObjectsAreRead(d, n, l.Add(os[0]), dA && !os[0].AnalogValue?, dB && !os[0].BinaryValue?, os[1..], rest);
      } else {
        AddAllGrows(l.Add(os[0]), os[1..]);
      }
      hide AllObjectArgs;
    }
  }

  lemma SawFirst(os: seq<FixtureObject>)
    requires os != []
    ensures Saw(os, true) == (os[0].AnalogValue? || Saw(os[1..], true))
    ensures Saw(os, false) == (os[0].BinaryValue? || Saw(os[1..], false))
  {
  }

  lemma {:induction false} FilesAreRead(d: uint32, n: string, l: Lists, dA: bool, dB: bool, os: seq<FixtureObject>,
                                        rest: seq<string>)
    requires l.Fits()
    ensures Run(Holding(d, n, l, dA, dB), AllFileArgs(os) + rest) ==
            if AddFiles(l, os).Fits() then Run(Holding(d, n, AddFiles(l, os), dA, dB), rest) else Exit(2)
    decreases |os|
  {
    hide Run, Holding;
    if os == [] {
      assert AllFileArgs(os) + rest == rest;
    } else {
      var o, more := os[0], AllFileArgs(os[1..]) + rest;
      assert AllFileArgs(os) + rest == FileArgs(o) + more;
      if o.FileObject? {
        FileIsRead(d, n, l, dA, dB, o, more);
      } else {
        assert FileArgs(o) + more == more;
      }
      hide FileArgs, AllFileArgs;
      if l.AddFile(o).Fits() {
        FilesAreRead(d, n, l.AddFile(o), dA, dB, os[1..], rest);
      } else {
        AddAllGrows(l.AddFile(o), os[1..]);
      }
    }
  }

  /** An analog or binary value was seen exactly when its list is not empty. */
  lemma {:induction false} SawIsListed(l: Lists, os: seq<FixtureObject>)
    ensures AddAll(l, os).avs == [] <==> l.avs == [] && !Saw(os, true)
    ensures AddAll(l, os).bvs == [] <==> l.bvs == [] && !Saw(os, false)
    decreases |os|
  {
    if os != [] {
      SawFirst(os);
      SawIsListed(l.Add(os[0]), os[1..]);
    }
  }

  lemma {:induction false} FilesChangeNothingElse(l: Lists, os: seq<FixtureObject>)
    ensures AddFiles(l, os).avs == l.avs && AddFiles(l, os).bvs == l.bvs
    decreases |os|
  {
    if os != [] {
      FilesChangeNothingElse(l.AddFile(os[0]), os[1..]);
    }
  }

  /** The closing flags turn off the defaults of the kinds that have no object. */
  lemma FlagsAreRead(d: uint32, n: string, l: Lists, dA: bool, dB: bool)
    requires l.Fits() && (dA ==> l.avs == []) && (dB ==> l.bvs == [])
    ensures Run(Holding(d, n, l, dA, dB), (if dA then [Text(NoAv)] else []) + (if dB then [Text(NoBv)] else [])) ==
            Done(Holding(d, n, l, false, false))
  {
    hide Run, Text, Repeat;
    var bv := if dB then [Text(NoBv)] else [];
    if dA {
      RunFlag(Holding(d, n, l, dA, dB), NoAv, bv);
    } else {
      assert [] + bv == bv;
    }
    if dB {
      RunFlag(Holding(d, n, l, false, dB), NoBv, []);
      assert [Text(NoBv)] + [] == [Text(NoBv)];
    }
    RunNothing(Holding(d, n, l, false, false));
  }

  lemma {:induction false} RunFlag(cfg: Config, o: Opt, rest: seq<string>)
    requires cfg.InBounds() && (o.NoAv? || o.NoBv?)
    ensures Run(cfg, [Text(o)] + rest) == Run(Flag(cfg, o), rest)
  {
    ClassifyText(o);
    hide Classify, Text;
    assert ([Text(o)] + rest)[1..] == rest;
  }

  lemma {:induction false} RunNothing(cfg: Config)
    requires cfg.InBounds()
    ensures Run(cfg, []) == Done(cfg)
  {
  }

  /**
   The round trip. The C loop on the printed arguments ends with exactly the
   fixture's device and lists, in order and with no default object added,
   whatever the names, descriptions and values contain, when every list fits
   its table; otherwise the program exits with code 2.
   */
  lemma PrintedFixtureIsReadBack(device: uint32, name: string, os: seq<FixtureObject>)
    ensures Run(INITIAL, Printed(device, name, os)) ==
            if ListsOf(os).Fits() then Done(Holding(device, name, ListsOf(os), false, false)) else Exit(2)
    ensures ListsOf(os).Fits() ==>
              WithDefaults(Holding(device, name, ListsOf(os), false, false)) ==
              Holding(device, name, ListsOf(os), false, false)
  {
    hide Run, Text, Decimal, Strtoul, ObjectArgs, FileArgs, Repeat, Saw;
    var none := Lists([], [], [], [], []);
    var l := AddAll(none, os);
    var sA, sB := Saw(os, true), Saw(os, false);
    var flags := (if sA then [] else [Text(NoAv)]) + (if sB then [] else [Text(NoBv)]);
    var r3 := AllFileArgs(os) + flags;
    var r2 := AllObjectArgs(os) + r3;
    var r1 := Pair(Name, name) + r2;
    assert Printed(device, name, os) == Pair(Instance, Decimal(device)) + r1;
    HoldingNone();
    RunPair(INITIAL, Instance, Decimal(device), r1);
    StrtoulDecimal(device);
    RunPair(Holding(device, "InteropDevice", none, true, true), Name, name, r2);
    ObjectsAreRead(device, name, none, true, true, os, r3);
    SawIsListed(none, os);
    FilesChangeNothingElse(l, os);
    AddAllGrows(l, os);
    hide Pair, AllObjectArgs, AllFileArgs, Printed, Filled;
    if l.Fits() {
      FilesAreRead(device, name, l, !sA, !sB, os, flags);
      if ListsOf(os).Fits() {
        FlagsAreRead(device, name, ListsOf(os), !sA, !sB);
      }
    }
  }

  lemma HoldingNone()
    ensures INITIAL == Holding(1234, "InteropDevice", Lists([], [], [], [], []), true, true)
  {
  }
}
