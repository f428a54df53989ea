/** The byte stream behind a compiled artifact's digest, and why it leaves no doubt about
    the artifact. Strings are byte strings. */
module CompiledDigest {
  import opened Basics

  datatype CompiledFile = CompiledFile(path: string, sha256: string, size: int)

  datatype Extension = Extension(name: string, version: string, digest: string,
                                 requirements: seq<string>, capabilities: seq<string>, dependencies: seq<string>)

  datatype Task = Task(name: string, source: string, queue: string, maxRetries: int)

  datatype Cron = Cron(name: string, source: string, schedule: string, timezone: string, task: string)

  datatype Artifact = Artifact(files: seq<CompiledFile>, cli: bool, extensions: seq<Extension>,
                               tasks: seq<Task>, crons: seq<Cron>, dependencies: seq<string>)

  /** SHA-256, taken as injective. */
  datatype Digest = Digest(stream: string)

  // ---------------------------------------------------------------- numbers

  function Digit(n: nat): char
    requires n < 10
  {
    (48 + n) as char
  }

  function Decimal(n: nat): string {
    if n < 10 then [Digit(n)] else Decimal(n / 10) + [Digit(n % 10)]
  }

  function Itoa(n: int): string {
    if n < 0 then "-" + Decimal(-n) else Decimal(n)
  }

  predicate IsDigit(c: char) { '0' <= c <= '9' }

  lemma {:induction false} DecimalDigits(n: nat)
    ensures |Decimal(n)| > 0 && IsDigit(Decimal(n)[0]) && forall c <- Decimal(n) :: IsDigit(c)
  {
    if n >= 10 {
      DecimalDigits(n / 10);
    }
  }

  lemma {:induction false} DecimalInjective(m: nat, n: nat)
    requires Decimal(m) == Decimal(n)
    ensures m == n
  {
    DecimalDigits(m / 10);
    DecimalDigits(n / 10);
    if m >= 10 && n >= 10 {
      var s, t := Decimal(m / 10), Decimal(n / 10);
      assert s + [Digit(m % 10)] == t + [Digit(n % 10)];
      assert s == (s + [Digit(m % 10)])[..|s|] && t == (t + [Digit(n % 10)])[..|t|];
      assert (s + [Digit(m % 10)])[|s|] == (t + [Digit(n % 10)])[|t|];
      DecimalInjective(m / 10, n / 10);
    } else {
      assert |Decimal(m)| == |Decimal(n)|;
      assert Decimal(m)[0] == Decimal(n)[0];
    }
  }

  lemma ItoaInjective(m: int, n: int)
    requires Itoa(m) == Itoa(n)
    ensures m == n
  {
    DecimalDigits(if m < 0 then -m else m);
    DecimalDigits(if n < 0 then -n else n);
    assert Itoa(m)[0] == Itoa(n)[0];
    assert m < 0 <==> n < 0;
    if m < 0 {
      assert Itoa(m)[1..] == Decimal(-m) && Itoa(n)[1..] == Decimal(-n);
      DecimalInjective(-m, -n);
    } else {
      DecimalInjective(m, n);
    }
  }

  lemma ItoaPlain(n: int, c: char)
    requires !IsDigit(c) && c != '-'
    ensures c !in Itoa(n)
  {
    DecimalDigits(if n < 0 then -n else n);
  }

  // ---------------------------------------------------------------- the stream

  datatype Key =
    | InterfaceCli
    | ExtensionName | ExtensionVersion | ExtensionDigest
    | ExtensionRequires | ExtensionRequire
    | ExtensionCapabilities | ExtensionCapability
    | ExtensionDependencies | ExtensionDependency
    | TaskName | TaskSource | TaskQueue | TaskMaxRetries
    | CronName | CronSource | CronSchedule | CronTimezone | CronTask
    | RuntimeDependency

  function KeyText(key: Key): string {
    match key
    case InterfaceCli => "interface.cli"
    case ExtensionName => "extension.name"
    case ExtensionVersion => "extension.version"
    case ExtensionDigest => "extension.digest"
    case ExtensionRequires => "extension.requires"
    case ExtensionRequire => "extension.require"
    case ExtensionCapabilities => "extension.capabilities"
    case ExtensionCapability => "extension.capability"
    case ExtensionDependencies => "extension.dependencies"
    case ExtensionDependency => "extension.dependency"
    case TaskName => "task.name"
    case TaskSource => "task.source"
    case TaskQueue => "task.queue"
    case TaskMaxRetries => "task.max_retries"
    case CronName => "cron.name"
    case CronSource => "cron.source"
    case CronSchedule => "cron.schedule"
    case CronTimezone => "cron.timezone"
    case CronTask => "cron.task"
    case RuntimeDependency => "runtime.dependency"
  }

  datatype Field = Field(key: Key, value: string)

  function RecordText(f: CompiledFile): string {
    f.path + "\0" + f.sha256 + "\0" + Itoa(f.size) + "\n"
  }

  function FieldText(f: Field): string {
    KeyText(f.key) + "\0" + Itoa(|f.value|) + ":" + f.value + "\n"
  }

  function Records(files: seq<CompiledFile>): string {
    if files == [] then "" else RecordText(files[0]) + Records(files[1..])
  }

  function Fields(fields: seq<Field>): string {
    if fields == [] then "" else FieldText(fields[0]) + Fields(fields[1..])
  }

  function BoolText(b: bool): string { if b then "true" else "false" }

  function Values(key: Key, values: seq<string>): seq<Field> {
    seq(|values|, i requires 0 <= i < |values| => Field(key, values[i]))
  }

  /** A list is written as its length and then its elements. */
  function Counted(countKey: Key, key: Key, values: seq<string>): seq<Field> {
    [Field(countKey, Itoa(|values|))] + Values(key, values)
  }

  function ExtensionHead(e: Extension): seq<Field> {
    [Field(ExtensionName, e.name), Field(ExtensionVersion, e.version), Field(ExtensionDigest, e.digest)]
  }

  function ExtensionFields(e: Extension): seq<Field> {
    ExtensionHead(e)
    + (Counted(ExtensionRequires, ExtensionRequire, e.requirements)
       + (Counted(ExtensionCapabilities, ExtensionCapability, e.capabilities)
          + Counted(ExtensionDependencies, ExtensionDependency, e.dependencies)))
  }

  function TaskFields(t: Task): seq<Field> {
    [Field(TaskName, t.name), Field(TaskSource, t.source), Field(TaskQueue, t.queue),
     Field(TaskMaxRetries, Itoa(t.maxRetries))]
  }

  function CronFields(c: Cron): seq<Field> {
    [Field(CronName, c.name), Field(CronSource, c.source), Field(CronSchedule, c.schedule),
     Field(CronTimezone, c.timezone), Field(CronTask, c.task)]
  }

  function DependencyFields(d: string): seq<Field> {
    [Field(RuntimeDependency, d)]
  }

  function Flat<T>(f: T -> seq<Field>, xs: seq<T>): seq<Field> {
    if xs == [] then [] else f(xs[0]) + Flat(f, xs[1..])
  }

  function InterfaceFields(cli: bool): seq<Field> { [Field(InterfaceCli, BoolText(cli))] }

  function Metadata(a: Artifact): seq<Field> {
    InterfaceFields(a.cli)
    + (Flat(ExtensionFields, a.extensions)
       + (Flat(TaskFields, a.tasks) + (Flat(CronFields, a.crons) + Flat(DependencyFields, a.dependencies))))
  }

  function Stream(a: Artifact): string {
    Records(a.files) + Fields(Metadata(a))
  }

  // ---------------------------------------------------------------- writing the stream

  class Aggregate {
    var stream: string
    ghost var records: string
    ghost var fields: seq<Field>

    ghost predicate Valid()
      reads this
    {
      stream == records + Fields(fields)
    }

    constructor ()
      ensures Valid() && records == "" && fields == []
    {
      stream, records, fields := "", "", [];
    }

    method WriteString(text: string)
      modifies this`stream
      ensures stream == old(stream) + text
    {
      stream := stream + text;
    }

    method WriteRecords(files: seq<CompiledFile>)
      requires Valid() && fields == [] && records == ""
      modifies this
      ensures Valid() && fields == [] && records == Records(files)
    {
      for i := 0 to |files|
        invariant stream == Records(files[..i])
      {
        WriteRecord(files[i]);
        RecordsAppend(files[..i], files[i]);
        assert files[..i + 1] == files[..i] + [files[i]];
      }
      assert files[..|files|] == files;
      records, fields := stream, [];
    }

    method WriteRecord(f: CompiledFile)
      modifies this`stream
      ensures stream == old(stream) + RecordText(f)
    {
      WriteString(f.path);
      WriteString("\0");
      WriteString(f.sha256);
      WriteString("\0");
      WriteString(Itoa(f.size));
      WriteString("\n");
      SixPieces(old(stream), f.path, "\0", f.sha256, "\0", Itoa(f.size), "\n");
    }

    /** `writeCompiledDigestField` */
    method WriteField(key: Key, value: string)
      requires Valid()
      modifies this
      ensures Valid() && records == old(records) && fields == old(fields) + [Field(key, value)]
    {
      WriteString(KeyText(key));
      WriteString("\0");
      WriteString(Itoa(|value|));
      WriteString(":");
      WriteString(value);
      WriteString("\n");
      SixPieces(old(stream), KeyText(key), "\0", Itoa(|value|), ":", value, "\n");
      FieldsAppend(fields, Field(key, value));
      Regroup(records, Fields(fields), FieldText(Field(key, value)));
      fields := fields + [Field(key, value)];
    }

    method WriteValues(countKey: Key, key: Key, values: seq<string>)
      requires Valid()
      modifies this
      ensures Valid() && records == old(records) && fields == old(fields) + Counted(countKey, key, values)
    {
      WriteField(countKey, Itoa(|values|));
      ghost var head := fields;
      for i := 0 to |values|
        invariant Valid() && records == old(records) && fields == head + Values(key, values[..i])
      {
        OneMoreValue(head, key, values, i);
        WriteField(key, values[i]);
      }
      assert values[..|values|] == values;
      Regroup(old(fields), [Field(countKey, Itoa(|values|))], Values(key, values));
    }

    method WriteExtension(e: Extension)
      requires Valid()
      modifies this
      ensures Valid() && records == old(records) && fields == old(fields) + ExtensionFields(e)
    {
      WriteField(ExtensionName, e.name);
      WriteField(ExtensionVersion, e.version);
      WriteField(ExtensionDigest, e.digest);
      ghost var head := fields;
      assert head == old(fields) + ExtensionHead(e);
      WriteValues(ExtensionRequires, ExtensionRequire, e.requirements);
      WriteValues(ExtensionCapabilities, ExtensionCapability, e.capabilities);
      WriteValues(ExtensionDependencies, ExtensionDependency, e.dependencies);
      FivePieces(old(fields), ExtensionHead(e), Counted(ExtensionRequires, ExtensionRequire, e.requirements),
                 Counted(ExtensionCapabilities, ExtensionCapability, e.capabilities),
                 Counted(ExtensionDependencies, ExtensionDependency, e.dependencies));
    }

    method WriteTask(t: Task)
      requires Valid()
      modifies this
      ensures Valid() && records == old(records) && fields == old(fields) + TaskFields(t)
    {
      WriteField(TaskName, t.name);
      WriteField(TaskSource, t.source);
      WriteField(TaskQueue, t.queue);
      WriteField(TaskMaxRetries, Itoa(t.maxRetries));
    }

    method WriteCron(c: Cron)
      requires Valid()
      modifies this
      ensures Valid() && records == old(records) && fields == old(fields) + CronFields(c)
    {
      WriteField(CronName, c.name);
      WriteField(CronSource, c.source);
      WriteField(CronSchedule, c.schedule);
      WriteField(CronTimezone, c.timezone);
      WriteField(CronTask, c.task);
    }

    method WriteExtensions(xs: seq<Extension>)
      requires Valid()
      modifies this
      ensures Valid() && records == old(records) && fields == old(fields) + Flat(ExtensionFields, xs)
    {
      for i := 0 to |xs|
        invariant Valid() && records == old(records) && fields == old(fields) + Flat(ExtensionFields, xs[..i])
      {
        WriteExtension(xs[i]);
        FlatAppend(ExtensionFields, xs, i);
        Regroup(old(fields), Flat(ExtensionFields, xs[..i]), ExtensionFields(xs[i]));
      }
      assert xs[..|xs|] == xs;
    }

    method WriteTasks(xs: seq<Task>)
      requires Valid()
      modifies this
      ensures Valid() && records == old(records) && fields == old(fields) + Flat(TaskFields, xs)
    {
      for i := 0 to |xs|
        invariant Valid() && records == old(records) && fields == old(fields) + Flat(TaskFields, xs[..i])
      {
        WriteTask(xs[i]);
        FlatAppend(TaskFields, xs, i);
        Regroup(old(fields), Flat(TaskFields, xs[..i]), TaskFields(xs[i]));
      }
      assert xs[..|xs|] == xs;
    }

    method WriteCrons(xs: seq<Cron>)
      requires Valid()
      modifies this
      ensures Valid() && records == old(records) && fields == old(fields) + Flat(CronFields, xs)
    {
      for i := 0 to |xs|
        invariant Valid() && records == old(records) && fields == old(fields) + Flat(CronFields, xs[..i])
      {
        WriteCron(xs[i]);
        FlatAppend(CronFields, xs, i);
        Regroup(old(fields), Flat(CronFields, xs[..i]), CronFields(xs[i]));
      }
      assert xs[..|xs|] == xs;
    }

    method WriteDependencies(xs: seq<string>)
      requires Valid()
      modifies this
      ensures Valid() && records == old(records) && fields == old(fields) + Flat(DependencyFields, xs)
    {
      for i := 0 to |xs|
        invariant Valid() && records == old(records) && fields == old(fields) + Flat(DependencyFields, xs[..i])
      {
        WriteField(RuntimeDependency, xs[i]);
        FlatAppend(DependencyFields, xs, i);
        Regroup(old(fields), Flat(DependencyFields, xs[..i]), DependencyFields(xs[i]));
      }
      assert xs[..|xs|] == xs;
    }

    method WriteMetadata(a: Artifact)
      requires Valid() && fields == []
      modifies this
      ensures Valid() && records == old(records) && fields == Metadata(a)
    {
      WriteField(InterfaceCli, BoolText(a.cli));
      assert fields == InterfaceFields(a.cli);
      WriteExtensions(a.extensions);
      WriteTasks(a.tasks);
      WriteCrons(a.crons);
      WriteDependencies(a.dependencies);
      FivePieces(InterfaceFields(a.cli), Flat(ExtensionFields, a.extensions), Flat(TaskFields, a.tasks),
                 Flat(CronFields, a.crons), Flat(DependencyFields, a.dependencies));
    }
  }

  /** `compiledManifestDigest`: the digest of exactly the specified stream. */
  method CompiledManifestDigest(a: Artifact) returns (digest: Digest)
    ensures digest == Digest(Stream(a))
  {
    var aggregate := new Aggregate();
    aggregate.WriteRecords(a.files);
    aggregate.WriteMetadata(a);
    digest := Digest(aggregate.stream);
  }

  lemma {:induction false} RecordsAppend(files: seq<CompiledFile>, f: CompiledFile)
    ensures Records(files + [f]) == Records(files) + RecordText(f)
  {
    if files != [] {
      RecordsAppend(files[1..], f);
      assert (files + [f])[1..] == files[1..] + [f];
      Regroup(RecordText(files[0]), Records(files[1..]), RecordText(f));
    }
  }

  lemma OneMoreValue(head: seq<Field>, key: Key, values: seq<string>, i: nat)
    requires i < |values|
    ensures head + Values(key, values[..i]) + [Field(key, values[i])] == head + Values(key, values[..i + 1])
  {
    assert Values(key, values[..i]) + [Field(key, values[i])] == Values(key, values[..i + 1]);
    Regroup(head, Values(key, values[..i]), [Field(key, values[i])]);
  }

  lemma {:induction false} FieldsAppend(fields: seq<Field>, f: Field)
    ensures Fields(fields + [f]) == Fields(fields) + FieldText(f)
  {
    if fields != [] {
      FieldsAppend(fields[1..], f);
      assert (fields + [f])[1..] == fields[1..] + [f];
      Regroup(FieldText(fields[0]), Fields(fields[1..]), FieldText(f));
    }
  }

  lemma {:induction false} FlatAppend<T>(f: T -> seq<Field>, xs: seq<T>, i: nat)
    requires i < |xs|
    ensures Flat(f, xs[..i + 1]) == Flat(f, xs[..i]) + f(xs[i])
  {
    if i == 0 {
      assert f(xs[0]) + Flat(f, []) == f(xs[0]);
    } else {
      FlatAppend(f, xs[1..], i - 1);
      assert xs[..i + 1][1..] == xs[1..][..i] && xs[..i][1..] == xs[1..][..i - 1];
      Regroup(f(xs[0]), Flat(f, xs[..i][1..]), f(xs[i]));
    }
  }
}
