/**
 A printer and a parser in two languages: the Python adapter prints a fixture
 as command-line arguments, and the C server reads them back in a loop that
 fills fixed tables.
 */
module Argv {
  import opened Wire
  import opened Numerals

  const MAX_AVS: nat := 64
  const MAX_BVS: nat := 64
  const MAX_FILES: nat := 8
  const MAX_LSPS: nat := 8
  const MAX_LSZS: nat := 8

  // ----- Numbers as text -----

  predicate IsSpace(c: char) {
    c == ' ' || c == '\t' || c == '\n' || c == '\r' || c as int == 11 || c as int == 12
  }

  function SkipSpace(s: string): string {
    if s != [] && IsSpace(s[0]) then SkipSpace(s[1..]) else s
  }

  /** `(uint32_t)strtoul(s, NULL, 0)`, with a 64-bit `unsigned long`. */
  function Strtoul(s: string): uint32 {
    var t := SkipSpace(s);
    var negative := t != [] && t[0] == '-';
    var u := if t != [] && (t[0] == '-' || t[0] == '+') then t[1..] else t;
    var n := if |u| >= 3 && u[0] == '0' && (u[1] == 'x' || u[1] == 'X') && DigitOf(u[2]) < 16
             then Accumulate(u[2..], 16, 0)
             else if u != [] && u[0] == '0' then Accumulate(u, 8, 0)
             else Accumulate(u, 10, 0);
    var long := if n > 0xFFFF_FFFF_FFFF_FFFF then 0xFFFF_FFFF_FFFF_FFFF
                else if negative then (0x1_0000_0000_0000_0000 - n) % 0x1_0000_0000_0000_0000
                else n;
    long % 0x1_0000_0000
  }

  /** Base detection does not misread a decimal: only zero itself starts with a zero. */
  lemma {:induction false} StrtoulDecimal(n: uint32)
    ensures Strtoul(Decimal(n)) == n
  {
    DecimalDigits(n);
    var s := Decimal(n);
    assert '0' <= s[0] <= '9';
    assert SkipSpace(s) == s;
    if n == 0 {
      assert s == ['0'] && s[1..] == [] && DigitOf('0') == 0;
      assert Accumulate(s, 8, 0) == 0;
    }
  }

  // ----- Options -----

  datatype Opt =
    | Help | Version | Instance | Name
    | AvInstance | AvName | AvValue | AvDescription | NoAv
    | BvInstance | BvName | BvValue | NoBv
    | FileInstance | FileName | FilePath | FileAccess
    | LspInstance | LspName | LszInstance | LszName
    | NotAnOption

  function Text(o: Opt): string {
    match o
    case Help => "--help"
    case Version => "--version"
    case Instance => "--instance"
    case Name => "--name"
    case AvInstance => "--av-instance"
    case AvName => "--av-name"
    case AvValue => "--av-value"
    case AvDescription => "--av-description"
    case NoAv => "--no-av"
    case BvInstance => "--bv-instance"
    case BvName => "--bv-name"
    case BvValue => "--bv-value"
    case NoBv => "--no-bv"
    case FileInstance => "--file-instance"
    case FileName => "--file-name"
    case FilePath => "--file-path"
    case FileAccess => "--file-access"
    case LspInstance => "--lsp-instance"
    case LspName => "--lsp-name"
    case LszInstance => "--lsz-instance"
    case LszName => "--lsz-name"
    case NotAnOption => ""
  }

  /** The chain of `strcmp`. */
  function Classify(s: string): Opt {
    if s == "--help" then Help
    else if s == "--version" then Version
    else if s == "--instance" then Instance
    else if s == "--name" then Name
    else if s == "--av-instance" then AvInstance
    else if s == "--av-name" then AvName
    else if s == "--av-value" then AvValue
    else if s == "--av-description" then AvDescription
    else if s == "--no-av" then NoAv
    else if s == "--bv-instance" then BvInstance
    else if s == "--bv-name" then BvName
    else if s == "--bv-value" then BvValue
    else if s == "--no-bv" then NoBv
    else if s == "--file-instance" then FileInstance
    else if s == "--file-name" then FileName
    else if s == "--file-path" then FilePath
    else if s == "--file-access" then FileAccess
    else if s == "--lsp-instance" then LspInstance
    else if s == "--lsp-name" then LspName
    else if s == "--lsz-instance" then LszInstance
    else if s == "--lsz-name" then LszName
    else NotAnOption
  }

  lemma ClassifyAvs(o: Opt)
    requires o.Help? || o.Version? || o.Instance? || o.Name? || o.AvInstance? || o.AvName? || o.AvValue?
    ensures Classify(Text(o)) == o
  {
  }

  lemma ClassifyBvs(o: Opt)
    requires o.AvDescription? || o.NoAv? || o.BvInstance? || o.BvName? || o.BvValue? || o.NoBv? || o.FileInstance?
    ensures Classify(Text(o)) == o
  {
  }

  lemma ClassifyFiles(o: Opt)
    requires o.FileName? || o.FilePath? || o.FileAccess? || o.LspInstance?
    ensures Classify(Text(o)) == o
  {
  }

  lemma ClassifyRest(o: Opt)
    requires o.LspName? || o.LszInstance? || o.LszName? || o.NotAnOption?
    ensures Classify(Text(o)) == o
  {
  }

  lemma ClassifyText(o: Opt)
    ensures Classify(Text(o)) == o
  {
    hide Classify, Text;
    if o.Help? || o.Version? || o.Instance? || o.Name? || o.AvInstance? || o.AvName? || o.AvValue? {
      ClassifyAvs(o);
    } else if o.AvDescription? || o.NoAv? || o.BvInstance? || o.BvName? || o.BvValue? || o.NoBv? || o.FileInstance? {
      ClassifyBvs(o);
    } else if o.FileName? || o.FilePath? || o.FileAccess? || o.LspInstance? {
      ClassifyFiles(o);
    } else {
      ClassifyRest(o);
    }
  }

  // ----- What the loop computes -----

  /** Rows start blank; `None` is a null pointer. A value is the text given to `strtof`. */
  datatype AvRow = AvRow(instance: uint32, name: Option<string>, description: Option<string>, value: string)
  datatype BvRow = BvRow(instance: uint32, name: Option<string>, active: bool)
  datatype FileRow = FileRow(instance: uint32, name: Option<string>, path: Option<string>, stream: bool)
  datatype NamedRow = NamedRow(instance: uint32, name: Option<string>)

  const BLANK_AV: AvRow := AvRow(0, None, None, "")
  const BLANK_BV: BvRow := BvRow(0, None, false)
  const BLANK_FILE: FileRow := FileRow(0, None, None, false)
  const BLANK_NAMED: NamedRow := NamedRow(0, None)

  /** A fixed table and how many of its rows are in use. */
  datatype Table<T> = Table(rows: seq<T>, count: nat)

  datatype Config = Config(instance: uint32, name: string, avs: Table<AvRow>, bvs: Table<BvRow>, files: Table<FileRow>,
                           lsps: Table<NamedRow>, lszs: Table<NamedRow>, defaultAv: bool, defaultBv: bool)
  {
    predicate InBounds() {
      && |avs.rows| == MAX_AVS && avs.count <= MAX_AVS
      && |bvs.rows| == MAX_BVS && bvs.count <= MAX_BVS
      && |files.rows| == MAX_FILES && files.count <= MAX_FILES
      && |lsps.rows| == MAX_LSPS && lsps.count <= MAX_LSPS
      && |lszs.rows| == MAX_LSZS && lszs.count <= MAX_LSZS
    }
  }

  datatype Outcome = Done(cfg: Config) | Exit(code: int)

  function OrElse(name: Option<string>, default: string): Option<string> {
    if name.None? then Some(default) else name
  }

  /** Opens the next row, if there is room. */
  function Push<T>(t: Table<T>, row: T): Table<T>
    requires t.count < |t.rows|
  {
    Table(t.rows[t.count := row], t.count + 1)
  }

  /** Changes the row opened last. */
  function Amend<T>(t: Table<T>, row: T): Table<T>
    requires 0 < t.count <= |t.rows|
  {
    Table(t.rows[t.count - 1 := row], t.count)
  }

  function Last<T>(t: Table<T>): T
    requires 0 < t.count <= |t.rows|
  {
    t.rows[t.count - 1]
  }

  predicate TakesValue(o: Opt) {
    !o.Help? && !o.Version? && !o.NoAv? && !o.NoBv? && !o.NotAnOption?
  }

  function AvOption(t: Table<AvRow>, o: Opt, v: string): Option<Table<AvRow>>
    requires |t.rows| == MAX_AVS && t.count <= MAX_AVS && (o.AvInstance? || o.AvName? || o.AvValue? || o.AvDescription?)
  {
    if o.AvInstance? then
      if t.count >= MAX_AVS then None
      else
        var row := t.rows[t.count];
        Some(Push(t, AvRow(Strtoul(v), OrElse(row.name, "AV"), OrElse(row.description, ""), row.value)))
    else if t.count == 0 then None
    else if o.AvName? then Some(Amend(t, Last(t).(name := Some(v))))
    else if o.AvValue? then Some(Amend(t, Last(t).(value := v)))
    else Some(Amend(t, Last(t).(description := Some(v))))
  }

  function BvOption(t: Table<BvRow>, o: Opt, v: string): Option<Table<BvRow>>
    requires |t.rows| == MAX_BVS && t.count <= MAX_BVS && (o.BvInstance? || o.BvName? || o.BvValue?)
  {
    if o.BvInstance? then
      if t.count >= MAX_BVS then None
      else Some(Push(t, BvRow(Strtoul(v), OrElse(t.rows[t.count].name, "BV"), false)))
    else if t.count == 0 then None
    else if o.BvName? then Some(Amend(t, Last(t).(name := Some(v))))
    else Some(Amend(t, Last(t).(active := v == "active" || v == "1")))
  }

  function FileOption(t: Table<FileRow>, o: Opt, v: string): Option<Table<FileRow>>
    requires |t.rows| == MAX_FILES && t.count <= MAX_FILES
            && (o.FileInstance? || o.FileName? || o.FilePath? || o.FileAccess?)
  {
    if o.FileInstance? then
      if t.count >= MAX_FILES then None
      else Some(Push(t, FileRow(Strtoul(v), OrElse(t.rows[t.count].name, "FILE"), t.rows[t.count].path, true)))
    else if t.count == 0 then None
    else if o.FileName? then Some(Amend(t, Last(t).(name := Some(v))))
    else if o.FilePath? then Some(Amend(t, Last(t).(path := Some(v))))
    else Some(Amend(t, Last(t).(stream := v != "record")))
  }

  /** Life-safety points and zones. */
  function NamedOption(t: Table<NamedRow>, opens: bool, v: string, default: string): Option<Table<NamedRow>>
    requires |t.rows| == 8 && t.count <= 8
  {
    if opens then
      if t.count >= 8 then None
      else Some(Push(t, NamedRow(Strtoul(v), OrElse(t.rows[t.count].name, default))))
    else if t.count == 0 then None
    else Some(Amend(t, Last(t).(name := Some(v))))
  }

  /** An option and its value; `None` ends the program. */
  function Valued(cfg: Config, o: Opt, v: string): (r: Option<Config>)
    requires cfg.InBounds() && TakesValue(o)
    ensures r.Some? ==> r.value.InBounds()
  {
    match o
    case Instance => Some(cfg.(instance := Strtoul(v)))
    case Name => Some(cfg.(name := v))
    case AvInstance | AvName | AvValue | AvDescription =>
      (match AvOption(cfg.avs, o, v)
       case None => None
       case Some(t) => Some(cfg.(avs := t, defaultAv := cfg.defaultAv && !o.AvInstance?)))
    case BvInstance | BvName | BvValue =>
      (match BvOption(cfg.bvs, o, v)
       case None => None
       case Some(t) => Some(cfg.(bvs := t, defaultBv := cfg.defaultBv && !o.BvInstance?)))
    case FileInstance | FileName | FilePath | FileAccess =>
      (match FileOption(cfg.files, o, v)
       case None => None
       case Some(t) => Some(cfg.(files := t)))
    case LspInstance | LspName =>
      (match NamedOption(cfg.lsps, o.LspInstance?, v, "LSP")
       case None => None
       case Some(t) => Some(cfg.(lsps := t)))
    case LszInstance | LszName =>
      (match NamedOption(cfg.lszs, o.LszInstance?, v, "LSZ")
       case None => None
       case Some(t) => Some(cfg.(lszs := t)))
  }

  function Flag(cfg: Config, o: Opt): Config
    requires o.NoAv? || o.NoBv?
  {
    if o.NoAv? then cfg.(defaultAv := false, avs := cfg.avs.(count := 0))
    else cfg.(defaultBv := false, bvs := cfg.bvs.(count := 0))
  }

  /** The arguments after the program's name, front to back. */
  function Run(cfg: Config, args: seq<string>): (r: Outcome)
    requires cfg.InBounds()
    ensures r.Done? ==> r.cfg.InBounds()
    decreases |args|
  {
    if args == [] then Done(cfg)
    else
      var o := Classify(args[0]);
      if o.Help? || o.Version? then Exit(0)
      else if TakesValue(o) && |args| >= 2 then
        (match Valued(cfg, o, args[1])
         case None => Exit(2)
         case Some(next) => Run(next, args[2..]))
      else if o.NoAv? || o.NoBv? then Run(Flag(cfg, o), args[1..])
      else Exit(2)
  }

  function Repeat<T>(n: nat, x: T): (r: seq<T>)
    ensures |r| == n && forall i :: 0 <= i < n ==> r[i] == x
  {
    seq(n, i => x)
  }

  const INITIAL: Config :=
    Config(1234, "InteropDevice", Table(Repeat(MAX_AVS, BLANK_AV), 0), Table(Repeat(MAX_BVS, BLANK_BV), 0),
           Table(Repeat(MAX_FILES, BLANK_FILE), 0), Table(Repeat(MAX_LSPS, BLANK_NAMED), 0),
           Table(Repeat(MAX_LSZS, BLANK_NAMED), 0),
           true, true)

  /** The default objects, when no option spoke of their kind. */
  function WithDefaults(cfg: Config): Config
    requires cfg.InBounds()
  {
    var c := if cfg.defaultAv && cfg.avs.count == 0
             then cfg.(avs := Push(cfg.avs, AvRow(1, Some("AV-1"), Some("Interop AV-1"), "21.5"))) else cfg;
    if c.defaultBv && c.bvs.count == 0 then c.(bvs := Push(c.bvs, BvRow(1, Some("BV-1"), false))) else c
  }

  // ----- Defaults and exits, written out -----

  /** The options an argument list uses, a value being passed over with its option. */
  function Used(args: seq<string>): seq<Opt>
    decreases |args|
  {
    if args == [] then []
    else
      var o := Classify(args[0]);
      [o] + Used(if TakesValue(o) && |args| >= 2 then args[2..] else args[1..])
  }

  lemma ValuedKeepsDefaults(cfg: Config, o: Opt, v: string)
    requires cfg.InBounds() && TakesValue(o) && Valued(cfg, o, v).Some?
    ensures var r := Valued(cfg, o, v).value;
            r.defaultAv == (cfg.defaultAv && o != AvInstance) && r.defaultBv == (cfg.defaultBv && o != BvInstance)
  {
    hide AvOption, BvOption, FileOption, NamedOption, Strtoul;
  }

  /** A default stands exactly if no option opened or excluded its kind. */
  lemma {:induction false} DefaultsStandExactly(cfg: Config, args: seq<string>)
    requires cfg.InBounds() && Run(cfg, args).Done?
    ensures var r := Run(cfg, args).cfg;
            && (r.defaultAv <==> cfg.defaultAv && AvInstance !in Used(args) && NoAv !in Used(args))
            && (r.defaultBv <==> cfg.defaultBv && BvInstance !in Used(args) && NoBv !in Used(args))
    decreases |args|
  {
    hide Classify, Valued;
    if args != [] {
      var o := Classify(args[0]);
      if TakesValue(o) {
        ValuedKeepsDefaults(cfg, o, args[1]);
        DefaultsStandExactly(Valued(cfg, o, args[1]).value, args[2..]);
      } else {
        DefaultsStandExactly(Flag(cfg, o), args[1..]);
      }
    }
  }

  /** What is added then: one analog and one binary value, in the first rows; everything else stays. */
  lemma DefaultsAre(cfg: Config)
    requires cfg.InBounds()
    ensures var c := WithDefaults(cfg);
            && c.avs == (if cfg.defaultAv && cfg.avs.count == 0
                         then Table(cfg.avs.rows[0 := AvRow(1, Some("AV-1"), Some("Interop AV-1"), "21.5")], 1)
                         else cfg.avs)
            && c.bvs == (if cfg.defaultBv && cfg.bvs.count == 0
                         then Table(cfg.bvs.rows[0 := BvRow(1, Some("BV-1"), false)], 1) else cfg.bvs)
            && c == cfg.(avs := c.avs, bvs := c.bvs)
  {
  }

  /** What the two flags do: no default, and what was opened of that kind is forgotten, its rows staying as they are. */
  lemma FlagsAre(cfg: Config)
    ensures Flag(cfg, NoAv) == cfg.(defaultAv := false, avs := Table(cfg.avs.rows, 0))
    ensures Flag(cfg, NoBv) == cfg.(defaultBv := false, bvs := Table(cfg.bvs.rows, 0))
  {
  }

  /** An option about an object that was not opened ends the program. */
  lemma NothingToAmend(cfg: Config, v: string)
    requires cfg.InBounds()
    ensures cfg.avs.count == 0 ==>
              Valued(cfg, AvName, v) == None && Valued(cfg, AvValue, v) == None && Valued(cfg, AvDescription, v) == None
    ensures cfg.bvs.count == 0 ==> Valued(cfg, BvName, v) == None && Valued(cfg, BvValue, v) == None
    ensures cfg.files.count == 0 ==>
              Valued(cfg, FileName, v) == None && Valued(cfg, FilePath, v) == None && Valued(cfg, FileAccess, v) == None
    ensures cfg.lsps.count == 0 ==> Valued(cfg, LspName, v) == None
    ensures cfg.lszs.count == 0 ==> Valued(cfg, LszName, v) == None
  {
    hide Strtoul;
  }

  /** What the program starts from. */
  lemma StartIs()
    ensures INITIAL.InBounds() && INITIAL.instance == 1234 && INITIAL.name == "InteropDevice"
    ensures INITIAL.avs.count == 0 && INITIAL.bvs.count == 0 && INITIAL.files.count == 0
    ensures INITIAL.lsps.count == 0 && INITIAL.lszs.count == 0 && INITIAL.defaultAv && INITIAL.defaultBv
    ensures |INITIAL.avs.rows| == 64 && |INITIAL.bvs.rows| == 64 && |INITIAL.files.rows| == 8
    ensures |INITIAL.lsps.rows| == 8 && |INITIAL.lszs.rows| == 8
  {
  }

  /** A life-safety object is named after its kind until it is given a name. */
  lemma UnnamedLifeSafety(cfg: Config, v: string)
    requires cfg.InBounds() && cfg.lsps.count < 8 && cfg.lsps.rows[cfg.lsps.count].name == None
    requires cfg.lszs.count < 8 && cfg.lszs.rows[cfg.lszs.count].name == None
    ensures var (p, z) := (Valued(cfg, LspInstance, v), Valued(cfg, LszInstance, v));
            && p.Some? && Last(p.value.lsps) == NamedRow(Strtoul(v), Some("LSP"))
            && z.Some? && Last(z.value.lszs) == NamedRow(Strtoul(v), Some("LSZ"))
  {
    hide Strtoul;
  }

  /** Help ends the program well; an unknown argument, or an option without its value, ends it with code 2. */
  lemma {:induction false} Exits(cfg: Config, unknown: string, rest: seq<string>, o: Opt)
    requires cfg.InBounds() && Classify(unknown) == NotAnOption && TakesValue(o)
    ensures Run(cfg, ["--help"] + rest) == Exit(0) && Run(cfg, ["--version"] + rest) == Exit(0)
    ensures Run(cfg, [unknown] + rest) == Exit(2) && Run(cfg, [Text(o)]) == Exit(2)
  {
    ClassifyText(o);
    ClassifyText(Help);
    ClassifyText(Version);
    assert (["--help"] + rest)[0] == Text(Help) && (["--version"] + rest)[0] == Text(Version);
    assert ([unknown] + rest)[0] == unknown;
    hide Classify, Text, Valued;
  }

  /** Bases, signs, spaces and what follows the digits. */
  lemma StrtoulExamples()
    ensures Strtoul("31") == 31 && Strtoul("0x1F") == 31 && Strtoul("037") == 31
    ensures Strtoul(" 7z") == 7 && Strtoul("-1") == 0xFFFF_FFFF && Strtoul("") == 0
  {
    assert SkipSpace("31") == "31" && "31"[1..] == "1" && "1"[1..] == "";
    assert SkipSpace("0x1F") == "0x1F" && "0x1F"[2..] == "1F" && "1F"[1..] == "F" && "F"[1..] == "";
    assert SkipSpace("037") == "037" && "037"[1..] == "37" && "37"[1..] == "7" && "7"[1..] == "";
    assert " 7z"[1..] == "7z" && SkipSpace("7z") == "7z" && "7z"[1..] == "z";
    assert SkipSpace("-1") == "-1" && "-1"[1..] == "1";
  }

  // ----- The loop -----

  class ServerArgs {
    var instance: uint32
    var name: string
    const avs: array<AvRow>
    const bvs: array<BvRow>
    const files: array<FileRow>
    const lsps: array<NamedRow>
    const lszs: array<NamedRow>
    var avCount: nat
    var bvCount: nat
    var fileCount: nat
    var lspCount: nat
    var lszCount: nat
    var defaultAv: bool
    var defaultBv: bool

    ghost predicate Valid()
      reads this
    {
      && avs.Length == MAX_AVS && avCount <= MAX_AVS
      && bvs.Length == MAX_BVS && bvCount <= MAX_BVS
      && files.Length == MAX_FILES && fileCount <= MAX_FILES
      && lsps.Length == MAX_LSPS && lspCount <= MAX_LSPS
      && lszs.Length == MAX_LSZS && lszCount <= MAX_LSZS
      && lsps != lszs
    }

    function Avs(): Table<AvRow> reads this`avCount, avs { Table(avs[..], avCount) }
    function Bvs(): Table<BvRow> reads this`bvCount, bvs { Table(bvs[..], bvCount) }
    function Files(): Table<FileRow> reads this`fileCount, files { Table(files[..], fileCount) }
    function Lsps(): Table<NamedRow> reads this`lspCount, lsps { Table(lsps[..], lspCount) }
    function Lszs(): Table<NamedRow> reads this`lszCount, lszs { Table(lszs[..], lszCount) }

    function View(): Config
      reads this, avs, bvs, files, lsps, lszs
    {
      Config(instance, name, Avs(), Bvs(), Files(), Lsps(), Lszs(), defaultAv, defaultBv)
    }

    constructor ()
      ensures Valid() && View() == INITIAL
      ensures fresh(avs) && fresh(bvs) && fresh(files) && fresh(lsps) && fresh(lszs)
    {
      instance, name := 1234, "InteropDevice";
      avs := new AvRow[MAX_AVS](i => BLANK_AV);
      bvs := new BvRow[MAX_BVS](i => BLANK_BV);
      files := new FileRow[MAX_FILES](i => BLANK_FILE);
      lsps := new NamedRow[MAX_LSPS](i => BLANK_NAMED);
      lszs := new NamedRow[MAX_LSZS](i => BLANK_NAMED);
      avCount, bvCount, fileCount, lspCount, lszCount := 0, 0, 0, 0, 0;
      defaultAv, defaultBv := true, true;
    }

    method OnAv(o: Opt, v: string) returns (ok: bool)
      requires Valid() && (o.AvInstance? || o.AvName? || o.AvValue? || o.AvDescription?)
      modifies this`avCount, this`defaultAv, avs
      ensures Valid() && ok == AvOption(old(Avs()), o, v).Some?
      ensures ok ==> Avs() == AvOption(old(Avs()), o, v).value
      ensures defaultAv == (old(defaultAv) && !(ok && o.AvInstance?))
    {
      hide Strtoul;
      if o.AvInstance? {
        if avCount >= MAX_AVS {
          return false;
        }
        avs[avCount] := avs[avCount].(instance := Strtoul(v));
        if avs[avCount].name == None {
          avs[avCount] := avs[avCount].(name := Some("AV"));
        }
        if avs[avCount].description == None {
          avs[avCount] := avs[avCount].(description := Some(""));
        }
        avCount := avCount + 1;
        defaultAv := false;
        return true;
      }
      if avCount == 0 {
        return false;
      }
      if o.AvName? {
        avs[avCount - 1] := avs[avCount - 1].(name := Some(v));
      } else if o.AvValue? {
        avs[avCount - 1] := avs[avCount - 1].(value := v);
      } else {
        avs[avCount - 1] := avs[avCount - 1].(description := Some(v));
      }
      return true;
    }

    method OnBv(o: Opt, v: string) returns (ok: bool)
      requires Valid() && (o.BvInstance? || o.BvName? || o.BvValue?)
      modifies this`bvCount, this`defaultBv, bvs
      ensures Valid() && ok == BvOption(old(Bvs()), o, v).Some?
      ensures ok ==> Bvs() == BvOption(old(Bvs()), o, v).value
      ensures defaultBv == (old(defaultBv) && !(ok && o.BvInstance?))
    {
      hide Strtoul;
      if o.BvInstance? {
        if bvCount >= MAX_BVS {
          return false;
        }
        bvs[bvCount] := bvs[bvCount].(instance := Strtoul(v));
        if bvs[bvCount].name == None {
          bvs[bvCount] := bvs[bvCount].(name := Some("BV"));
        }
        bvs[bvCount] := bvs[bvCount].(active := false);
        bvCount := bvCount + 1;
        defaultBv := false;
        return true;
      }
      if bvCount == 0 {
        return false;
      }
      if o.BvName? {
        bvs[bvCount - 1] := bvs[bvCount - 1].(name := Some(v));
      } else {
        bvs[bvCount - 1] := bvs[bvCount - 1].(active := v == "active" || v == "1");
      }
      return true;
    }

    method OnFile(o: Opt, v: string) returns (ok: bool)
      requires Valid() && (o.FileInstance? || o.FileName? || o.FilePath? || o.FileAccess?)
      modifies this`fileCount, files
      ensures Valid() && ok == FileOption(old(Files()), o, v).Some?
      ensures ok ==> Files() == FileOption(old(Files()), o, v).value
    {
      hide Strtoul;
      if o.FileInstance? {
        if fileCount >= MAX_FILES {
          return false;
        }
        files[fileCount] := files[fileCount].(instance := Strtoul(v));
        if files[fileCount].name == None {
          files[fileCount] := files[fileCount].(name := Some("FILE"));
        }
        files[fileCount] := files[fileCount].(stream := true);
        fileCount := fileCount + 1;
        return true;
      }
      if fileCount == 0 {
        return false;
      }
      if o.FileName? {
        files[fileCount - 1] := files[fileCount - 1].(name := Some(v));
      } else if o.FilePath? {
        files[fileCount - 1] := files[fileCount - 1].(path := Some(v));
      } else {
        files[fileCount - 1] := files[fileCount - 1].(stream := v != "record");
      }
      return true;
    }

    method OnLsp(o: Opt, v: string) returns (ok: bool)
      requires Valid() && (o.LspInstance? || o.LspName?)
      modifies this`lspCount, lsps
      ensures Valid() && ok == NamedOption(old(Lsps()), o.LspInstance?, v, "LSP").Some?
      ensures ok ==> Lsps() == NamedOption(old(Lsps()), o.LspInstance?, v, "LSP").value
    {
      hide Strtoul;
      if o.LspInstance? {
        if lspCount >= MAX_LSPS {
          return false;
        }
        lsps[lspCount] := lsps[lspCount].(instance := Strtoul(v));
        if lsps[lspCount].name == None {
          lsps[lspCount] := lsps[lspCount].(name := Some("LSP"));
        }
        lspCount := lspCount + 1;
        return true;
      }
      if lspCount == 0 {
        return false;
      }
      lsps[lspCount - 1] := lsps[lspCount - 1].(name := Some(v));
      return true;
    }

    method OnLsz(o: Opt, v: string) returns (ok: bool)
      requires Valid() && (o.LszInstance? || o.LszName?)
      modifies this`lszCount, lszs
      ensures Valid() && ok == NamedOption(old(Lszs()), o.LszInstance?, v, "LSZ").Some?
      ensures ok ==> Lszs() == NamedOption(old(Lszs()), o.LszInstance?, v, "LSZ").value
    {
      hide Strtoul;
      if o.LszInstance? {
        if lszCount >= MAX_LSZS {
          return false;
        }
        lszs[lszCount] := lszs[lszCount].(instance := Strtoul(v));
        if lszs[lszCount].name == None {
          lszs[lszCount] := lszs[lszCount].(name := Some("LSZ"));
        }
        lszCount := lszCount + 1;
        return true;
      }
      if lszCount == 0 {
        return false;
      }
      lszs[lszCount - 1] := lszs[lszCount - 1].(name := Some(v));
      return true;
    }

    method OnValued(o: Opt, v: string) returns (ok: bool)
      requires Valid() && TakesValue(o)
      modifies this, avs, bvs, files, lsps, lszs
      ensures Valid() && ok == Valued(old(View()), o, v).Some?
      ensures ok ==> View() == Valued(old(View()), o, v).value
    {
      hide AvOption, BvOption, FileOption, NamedOption, Strtoul, Config.InBounds;
      match o {
        case Instance =>
          instance := Strtoul(v);
          ok := true;
        case Name =>
          name := v;
          ok := true;
        case AvInstance | AvName | AvValue | AvDescription => ok := OnAv(o, v);
        case BvInstance | BvName | BvValue => ok := OnBv(o, v);
        case FileInstance | FileName | FilePath | FileAccess => ok := OnFile(o, v);
        case LspInstance | LspName => ok := OnLsp(o, v);
        case LszInstance | LszName => ok := OnLsz(o, v);
      }
    }

    /** The loop over argv and the defaults after it; a code is the program's exit. */
    method Parse(args: seq<string>) returns (exit: Option<int>)
      requires Valid() && View() == INITIAL
      modifies this, avs, bvs, files, lsps, lszs
      ensures Valid()
      ensures match Run(INITIAL, args)
              case Exit(code) => exit == Some(code)
              case Done(cfg) => exit == None && View() == WithDefaults(cfg)
    {
      hide Classify, Valued;
      var i := 0;
      assert args[0..] == args;
      while i < |args|
        invariant Valid() && i <= |args|
        invariant Run(INITIAL, args) == Run(View(), args[i..])
      {
        var o := Classify(args[i]);
        assert i + 1 < |args| ==> args[i..][2..] == args[i + 2..];
        assert args[i..][1..] == args[i + 1..];
        if o.Help? || o.Version? {
          return Some(0);
        }
        if TakesValue(o) && i + 1 < |args| {
          i := i + 1;
          var ok := OnValued(o, args[i]);
          if !ok {
            return Some(2);
          }
        } else if o.NoAv? {
          defaultAv := false;
          avCount := 0;
        } else if o.NoBv? {
          defaultBv := false;
          bvCount := 0;
        } else {
          return Some(2);
        }
        i := i + 1;
      }
      assert args[i..] == [];
      AddDefaults();
      return None;
    }

    method AddDefaults()
      requires Valid()
      modifies this`avCount, this`bvCount, avs, bvs
      ensures Valid() && View() == WithDefaults(old(View()))
    {
      if defaultAv && avCount == 0 {
        avs[0] := AvRow(1, Some("AV-1"), Some("Interop AV-1"), "21.5");
        avCount := 1;
      }
      if defaultBv && bvCount == 0 {
        bvs[0] := BvRow(1, Some("BV-1"), false);
        bvCount := 1;
      }
    }
  }
}
