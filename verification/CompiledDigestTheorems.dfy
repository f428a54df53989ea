/** The digest stream determines the artifact: every frame can be cancelled from the left. */
module CompiledDigestTheorems {
  import opened Basics
  import opened CompiledDigest

  // ---------------------------------------------------------------- the validated shape

  /** What the validator and the file system guarantee of one record. */
  predicate RecordFits(f: CompiledFile) {
    '\0' !in f.path && |f.sha256| == 64 && forall c <- f.sha256 :: IsHex(c)
  }

  predicate RecordsFit(files: seq<CompiledFile>) {
    forall f <- files :: RecordFits(f)
  }

  // ---------------------------------------------------------------- cancelling text

  lemma NoEarlier(c: char, a: string, x: string, b: string, y: string)
    requires c !in b && a + [c] + x == b + [c] + y
    ensures |a| >= |b|
  {
    var s, t := a + [c] + x, b + [c] + y;
    assert s[|a|] == c;
    assert forall i | 0 <= i < |b| :: t[i] == b[i] && b[i] in b;
  }

  lemma SplitAt(c: char, a: string, x: string, b: string, y: string)
    requires c !in a && c !in b && a + [c] + x == b + [c] + y
    ensures a == b && x == y
  {
    NoEarlier(c, a, x, b, y);
    NoEarlier(c, b, y, a, x);
    var s, t := a + [c] + x, b + [c] + y;
    assert a == s[..|a|] && b == t[..|b|] && x == s[|a| + 1..] && y == t[|b| + 1..];
  }

  lemma KeyPlain(key: Key)
    ensures '\0' !in KeyText(key)
  {
  }

  lemma KeyTextInjective(a: Key, b: Key)
    requires KeyText(a) == KeyText(b)
    ensures a == b
  {
    var s, t := KeyText(a), KeyText(b);
    assert |s| == |t| && s[0] == t[0] && s[5] == t[5] && s[|s| - 2] == t[|t| - 2] && s[|s| - 1] == t[|t| - 1];
  }

  function AfterKey(f: Field, rest: string): string {
    Itoa(|f.value|) + ":" + (f.value + ("\n" + rest))
  }

  lemma FieldShape(f: Field, rest: string)
    ensures FieldText(f) + rest == KeyText(f.key) + "\0" + AfterKey(f, rest)
  {
    var k, n := KeyText(f.key), Itoa(|f.value|);
    Regroup(k + "\0" + n + ":" + f.value, "\n", rest);
    Regroup(k + "\0" + n + ":", f.value, "\n" + rest);
    Regroup(k + "\0" + n, ":", f.value + ("\n" + rest));
    Regroup(k + "\0", n, ":" + (f.value + ("\n" + rest)));
    Regroup(n, ":", f.value + ("\n" + rest));
  }

  lemma FieldCancels(f: Field, r: string, g: Field, s: string)
    requires FieldText(f) + r == FieldText(g) + s
    ensures f == g && r == s
  {
    FieldShape(f, r);
    FieldShape(g, s);
    KeyPlain(f.key);
    KeyPlain(g.key);
    SplitAt('\0', KeyText(f.key), AfterKey(f, r), KeyText(g.key), AfterKey(g, s));
    KeyTextInjective(f.key, g.key);
    ItoaPlain(|f.value|, ':');
    ItoaPlain(|g.value|, ':');
    SplitAt(':', Itoa(|f.value|), f.value + ("\n" + r), Itoa(|g.value|), g.value + ("\n" + s));
    ItoaInjective(|f.value|, |g.value|);
    SameLength(f.value, "\n" + r, g.value, "\n" + s);
    SameLength("\n", r, "\n", s);
  }

  lemma FieldsNonempty(fields: seq<Field>)
    ensures fields != [] ==> Fields(fields) != ""
  {
  }

  lemma {:induction false} FieldsInjective(a: seq<Field>, b: seq<Field>)
    requires Fields(a) == Fields(b)
    ensures a == b
  {
    FieldsNonempty(a);
    FieldsNonempty(b);
    if a != [] && b != [] {
      FieldCancels(a[0], Fields(a[1..]), b[0], Fields(b[1..]));
      FieldsInjective(a[1..], b[1..]);
      assert a == [a[0]] + a[1..] && b == [b[0]] + b[1..];
    }
  }

  function AfterPath(f: CompiledFile, rest: string): string {
    f.sha256 + "\0" + (Itoa(f.size) + "\n" + rest)
  }

  lemma RecordShape(f: CompiledFile, rest: string)
    ensures RecordText(f) + rest == f.path + "\0" + AfterPath(f, rest)
  {
    var n := Itoa(f.size);
    Regroup(f.path + "\0" + f.sha256 + "\0" + n, "\n", rest);
    Regroup(f.path + "\0" + f.sha256 + "\0", n, "\n" + rest);
    Regroup(n, "\n", rest);
    Regroup(f.path + "\0" + f.sha256, "\0", n + "\n" + rest);
    Regroup(f.path + "\0", f.sha256, "\0" + (n + "\n" + rest));
    Regroup(f.sha256, "\0", n + "\n" + rest);
  }

  lemma RecordCancels(f: CompiledFile, r: string, g: CompiledFile, s: string)
    requires RecordFits(f) && RecordFits(g) && RecordText(f) + r == RecordText(g) + s
    ensures f == g && r == s
  {
    RecordShape(f, r);
    RecordShape(g, s);
    SplitAt('\0', f.path, AfterPath(f, r), g.path, AfterPath(g, s));
    SplitAt('\0', f.sha256, Itoa(f.size) + "\n" + r, g.sha256, Itoa(g.size) + "\n" + s);
    ItoaPlain(f.size, '\n');
    ItoaPlain(g.size, '\n');
    SplitAt('\n', Itoa(f.size), r, Itoa(g.size), s);
    ItoaInjective(f.size, g.size);
  }

  /** A file may be called "interface.cli", but a hash in hexadecimal cannot imitate the
      length frame that follows the field of that name. */
  lemma RecordIsNoField(f: CompiledFile, r: string, cli: bool, s: string)
    requires RecordFits(f)
    ensures RecordText(f) + r != FieldText(InterfaceFields(cli)[0]) + s
  {
    var g := InterfaceFields(cli)[0];
    RecordShape(f, r);
    FieldShape(g, s);
    KeyPlain(g.key);
    assert AfterKey(g, s)[1] == ':';
    assert AfterPath(f, r)[1] == f.sha256[1] && f.sha256[1] in f.sha256;
    if RecordText(f) + r == FieldText(g) + s {
      SplitAt('\0', f.path, AfterPath(f, r), KeyText(g.key), AfterKey(g, s));
    }
  }

  lemma {:induction false} RecordsCancel(fs: seq<CompiledFile>, x: bool, r: string, gs: seq<CompiledFile>, y: bool,
        s: string)
    requires RecordsFit(fs) && RecordsFit(gs)
    requires Records(fs) + (FieldText(InterfaceFields(x)[0]) + r) ==
              Records(gs) + (FieldText(InterfaceFields(y)[0]) + s)
    ensures fs == gs && x == y && r == s
  {
    var u, v := FieldText(InterfaceFields(x)[0]) + r, FieldText(InterfaceFields(y)[0]) + s;
    assert "" + u == u && "" + v == v;
    if fs == [] && gs == [] {
      FieldCancels(InterfaceFields(x)[0], r, InterfaceFields(y)[0], s);
    } else if fs == [] {
      Regroup(RecordText(gs[0]), Records(gs[1..]), v);
      RecordIsNoField(gs[0], Records(gs[1..]) + v, x, r);
    } else if gs == [] {
      Regroup(RecordText(fs[0]), Records(fs[1..]), u);
      RecordIsNoField(fs[0], Records(fs[1..]) + u, y, s);
    } else {
      Regroup(RecordText(fs[0]), Records(fs[1..]), u);
      Regroup(RecordText(gs[0]), Records(gs[1..]), v);
      RecordCancels(fs[0], Records(fs[1..]) + u, gs[0], Records(gs[1..]) + v);
      RecordsCancel(fs[1..], x, r, gs[1..], y, s);
      assert fs == [fs[0]] + fs[1..] && gs == [gs[0]] + gs[1..];
    }
  }

  // ---------------------------------------------------------------- cancelling fields

  predicate Starts(fields: seq<Field>, key: Key) {
    fields != [] && fields[0].key == key
  }

  ghost predicate CancelsAt<T(!new)>(f: T -> seq<Field>, x: T, u: seq<Field>, y: T, v: seq<Field>) {
    f(x) + u == f(y) + v ==> x == y && u == v
  }

  /** The fields of an element can be told from what follows, and start with one key. */
  ghost predicate Cancels<T(!new)>(f: T -> seq<Field>, key: Key) {
    && (forall x, u, y, v :: CancelsAt(f, x, u, y, v))
    && (forall x :: Starts(f(x), key))
  }

  lemma {:induction false} FlatCancels<T(!new)>(f: T -> seq<Field>, key: Key, xs: seq<T>, u: seq<Field>, ys: seq<T>,
        v: seq<Field>)
    requires Cancels(f, key) && !Starts(u, key) && !Starts(v, key)
    requires Flat(f, xs) + u == Flat(f, ys) + v
    ensures xs == ys && u == v
  {
    assert [] + u == u && [] + v == v;
    FlatHead(f, key, xs, u);
    FlatHead(f, key, ys, v);
    if xs != [] && ys != [] {
      Regroup(f(xs[0]), Flat(f, xs[1..]), u);
      Regroup(f(ys[0]), Flat(f, ys[1..]), v);
      assert CancelsAt(f, xs[0], Flat(f, xs[1..]) + u, ys[0], Flat(f, ys[1..]) + v);
      FlatCancels(f, key, xs[1..], u, ys[1..], v);
      assert xs == [xs[0]] + xs[1..] && ys == [ys[0]] + ys[1..];
    }
  }

  lemma FlatHead<T(!new)>(f: T -> seq<Field>, key: Key, xs: seq<T>, u: seq<Field>)
    requires Cancels(f, key)
    ensures xs != [] ==> Starts(Flat(f, xs) + u, key)
  {
    if xs != [] {
      assert Starts(f(xs[0]), key);
      assert (Flat(f, xs) + u)[0] == f(xs[0])[0];
    }
  }

  lemma FlatStarts<T(!new)>(f: T -> seq<Field>, key: Key, xs: seq<T>, u: seq<Field>, other: Key)
    requires Cancels(f, key) && key != other && !Starts(u, other)
    ensures !Starts(Flat(f, xs) + u, other)
  {
    if xs == [] {
      assert [] + u == u;
    } else {
      FlatHead(f, key, xs, u);
    }
  }

  lemma ConsCancels(f: Field, u: seq<Field>, g: Field, v: seq<Field>)
    requires [f] + u == [g] + v
    ensures f == g && u == v
  {
    assert ([f] + u)[0] == f && ([g] + v)[0] == g;
    assert u == ([f] + u)[1..] && v == ([g] + v)[1..];
  }

  lemma ValuesCancel(key: Key, xs: seq<string>, u: seq<Field>, ys: seq<string>, v: seq<Field>)
    requires |xs| == |ys| && Values(key, xs) + u == Values(key, ys) + v
    ensures xs == ys && u == v
  {
    var n := |xs|;
    assert Values(key, xs) == (Values(key, xs) + u)[..n] && Values(key, ys) == (Values(key, ys) + v)[..n];
    assert u == (Values(key, xs) + u)[n..] && v == (Values(key, ys) + v)[n..];
    forall i | 0 <= i < n ensures xs[i] == ys[i] {
      assert Values(key, xs)[i].value == xs[i] && Values(key, ys)[i].value == ys[i];
    }
  }

  lemma CountedCancels(countKey: Key, key: Key, xs: seq<string>, u: seq<Field>, ys: seq<string>, v: seq<Field>)
    requires Counted(countKey, key, xs) + u == Counted(countKey, key, ys) + v
    ensures xs == ys && u == v
  {
    var m, n := Field(countKey, Itoa(|xs|)), Field(countKey, Itoa(|ys|));
    Regroup([m], Values(key, xs), u);
    Regroup([n], Values(key, ys), v);
    ConsCancels(m, Values(key, xs) + u, n, Values(key, ys) + v);
    ItoaInjective(|xs|, |ys|);
    ValuesCancel(key, xs, u, ys, v);
  }

  lemma ExtensionCancels(x: Extension, u: seq<Field>, y: Extension, v: seq<Field>)
    ensures CancelsAt(ExtensionFields, x, u, y, v)
  {
    if ExtensionFields(x) + u == ExtensionFields(y) + v {
      ExtensionShape(x, u);
      ExtensionShape(y, v);
      var p, q := ExtensionTail(x, u), ExtensionTail(y, v);
      var s, t := ExtensionHead(x) + p, ExtensionHead(y) + q;
      assert s[0] == t[0] && s[1] == t[1] && s[2] == t[2] && s[3..] == p && t[3..] == q;
      CountedCancels(ExtensionRequires, ExtensionRequire, x.requirements, Capabilities(x, u), y.requirements,
          Capabilities(y, v));
      CountedCancels(ExtensionCapabilities, ExtensionCapability, x.capabilities, Dependencies(x, u), y.capabilities,
          Dependencies(y, v));
      CountedCancels(ExtensionDependencies, ExtensionDependency, x.dependencies, u, y.dependencies, v);
    }
  }

  function Dependencies(e: Extension, u: seq<Field>): seq<Field> {
    Counted(ExtensionDependencies, ExtensionDependency, e.dependencies) + u
  }

  function Capabilities(e: Extension, u: seq<Field>): seq<Field> {
    Counted(ExtensionCapabilities, ExtensionCapability, e.capabilities) + Dependencies(e, u)
  }

  function ExtensionTail(e: Extension, u: seq<Field>): seq<Field> {
    Counted(ExtensionRequires, ExtensionRequire, e.requirements) + Capabilities(e, u)
  }

  lemma ExtensionShape(e: Extension, u: seq<Field>)
    ensures ExtensionFields(e) + u == ExtensionHead(e) + ExtensionTail(e, u)
  {
    var a := Counted(ExtensionRequires, ExtensionRequire, e.requirements);
    var b := Counted(ExtensionCapabilities, ExtensionCapability, e.capabilities);
    var c := Counted(ExtensionDependencies, ExtensionDependency, e.dependencies);
    Regroup(ExtensionHead(e), a + (b + c), u);
    Regroup(a, b + c, u);
    Regroup(b, c, u);
  }

  lemma TaskCancels(x: Task, u: seq<Field>, y: Task, v: seq<Field>)
    ensures CancelsAt(TaskFields, x, u, y, v)
  {
    var s, t := TaskFields(x) + u, TaskFields(y) + v;
    if s == t {
      assert s[0] == t[0] && s[1] == t[1] && s[2] == t[2] && s[3] == t[3] && s[4..] == u && t[4..] == v;
      ItoaInjective(x.maxRetries, y.maxRetries);
    }
  }

  lemma CronCancels(x: Cron, u: seq<Field>, y: Cron, v: seq<Field>)
    ensures CancelsAt(CronFields, x, u, y, v)
  {
    var s, t := CronFields(x) + u, CronFields(y) + v;
    if s == t {
      assert s[0] == t[0] && s[1] == t[1] && s[2] == t[2] && s[3] == t[3] && s[4] == t[4] && s[5..] == u && t[5..] == v;
    }
  }

  lemma DependencyCancels(x: string, u: seq<Field>, y: string, v: seq<Field>)
    ensures CancelsAt(DependencyFields, x, u, y, v)
  {
    if DependencyFields(x) + u == DependencyFields(y) + v {
      ConsCancels(Field(RuntimeDependency, x), u, Field(RuntimeDependency, y), v);
    }
  }

  lemma EveryElementCancels()
    ensures Cancels(ExtensionFields, ExtensionName) && Cancels(TaskFields, TaskName)
    ensures Cancels(CronFields, CronName) && Cancels(DependencyFields, RuntimeDependency)
  {
    forall x, u, y, v ensures CancelsAt(ExtensionFields, x, u, y, v) { ExtensionCancels(x, u, y, v); }
    forall x, u, y, v ensures CancelsAt(TaskFields, x, u, y, v) { TaskCancels(x, u, y, v); }
    forall x, u, y, v ensures CancelsAt(CronFields, x, u, y, v) { CronCancels(x, u, y, v); }
    forall x, u, y, v ensures CancelsAt(DependencyFields, x, u, y, v) { DependencyCancels(x, u, y, v); }
    forall x ensures Starts(ExtensionFields(x), ExtensionName) {
      assert ExtensionFields(x)[0] == ExtensionHead(x)[0];
    }
  }

  function Schedules(a: Artifact): seq<Field> {
    Flat(CronFields, a.crons) + Flat(DependencyFields, a.dependencies)
  }

  function Runtime(a: Artifact): seq<Field> {
    Flat(ExtensionFields, a.extensions) + (Flat(TaskFields, a.tasks) + Schedules(a))
  }

  lemma RuntimeDetermines(a: Artifact, b: Artifact)
    requires Runtime(a) == Runtime(b)
    ensures a.extensions == b.extensions && a.tasks == b.tasks && a.crons == b.crons && a.dependencies == b.dependencies
  {
    EveryElementCancels();
    SchedulesStart(a);
    SchedulesStart(b);
    FlatCancels(ExtensionFields, ExtensionName, a.extensions, Flat(TaskFields, a.tasks) + Schedules(a),
                b.extensions, Flat(TaskFields, b.tasks) + Schedules(b));
    FlatCancels(TaskFields, TaskName, a.tasks, Schedules(a), b.tasks, Schedules(b));
    FlatCancels(CronFields, CronName, a.crons, Flat(DependencyFields, a.dependencies),
                b.crons, Flat(DependencyFields, b.dependencies));
    var d, e := Flat(DependencyFields, a.dependencies), Flat(DependencyFields, b.dependencies);
    assert d + [] == d && e + [] == e;
    FlatCancels(DependencyFields, RuntimeDependency, a.dependencies, [], b.dependencies, []);
  }

  lemma SchedulesStart(a: Artifact)
    requires Cancels(TaskFields, TaskName) && Cancels(CronFields, CronName)
    requires Cancels(DependencyFields, RuntimeDependency)
    ensures !Starts(Flat(TaskFields, a.tasks) + Schedules(a), ExtensionName)
    ensures !Starts(Schedules(a), TaskName)
    ensures !Starts(Flat(DependencyFields, a.dependencies), CronName)
  {
    var d := Flat(DependencyFields, a.dependencies);
    assert d + [] == d;
    FlatStarts(DependencyFields, RuntimeDependency, a.dependencies, [], CronName);
    FlatStarts(DependencyFields, RuntimeDependency, a.dependencies, [], TaskName);
    FlatStarts(DependencyFields, RuntimeDependency, a.dependencies, [], ExtensionName);
    FlatStarts(CronFields, CronName, a.crons, d, TaskName);
    FlatStarts(CronFields, CronName, a.crons, d, ExtensionName);
    FlatStarts(TaskFields, TaskName, a.tasks, Schedules(a), ExtensionName);
  }

  // ---------------------------------------------------------------- results

  /** Two validated artifacts with the same digest have the same files, interface flag,
      extensions, tasks, schedules and dependencies. */
  lemma DigestDeterminesArtifact(a: Artifact, b: Artifact)
    requires RecordsFit(a.files) && RecordsFit(b.files)
    ensures Digest(Stream(a)) == Digest(Stream(b)) <==> a == b
  {
    if Stream(a) == Stream(b) {
      assert Metadata(a) == InterfaceFields(a.cli) + Runtime(a) && Metadata(b) == InterfaceFields(b.cli) + Runtime(b);
      assert Metadata(a)[1..] == Runtime(a) && Metadata(b)[1..] == Runtime(b);
      RecordsCancel(a.files, a.cli, Fields(Runtime(a)), b.files, b.cli, Fields(Runtime(b)));
      FieldsInjective(Runtime(a), Runtime(b));
      RuntimeDetermines(a, b);
    }
  }

  /** Hexadecimal is needed: with 64 arbitrary characters in place of the hash, a record
      can imitate the interface flag and a dependency. */
  lemma ArbitraryHashIsAmbiguous(filler: string) returns (a: Artifact, b: Artifact)
    requires |filler| == 35
    ensures a != b && Stream(a) == Stream(b)
    ensures forall f <- a.files + b.files :: '\0' !in f.path && |f.sha256| == 64
  {
    var dependency := KeyText(RuntimeDependency) + "\0" + "59" + ":";
    var k, h := KeyText(InterfaceCli), "4:true\n";
    var body := k + "\0" + "5" + ":" + "false";
    var value := filler + ("\0" + "0" + "\n" + body);
    var f := CompiledFile(k, h + (dependency + filler), 0);
    a := Artifact([f], false, [], [], [], []);
    b := Artifact([], true, [], [], [], [value]);
    OnlyRecord(a, f);
    OnlyDependency(b, value);
    Imitates(k, h, dependency, filler, body, value, f);
    KeyPlain(InterfaceCli);
  }

  lemma Imitates(k: string, h: string, dependency: string, filler: string, body: string, value: string, f: CompiledFile)
    requires k == KeyText(InterfaceCli) && h == "4:true\n"
    requires dependency == KeyText(RuntimeDependency) + "\0" + "59" + ":"
    requires |filler| == 35 && body == k + "\0" + "5" + ":" + "false" && value == filler + ("\0" + "0" + "\n" + body)
    requires f == CompiledFile(k, h + (dependency + filler), 0)
    ensures RecordText(f) + FieldText(InterfaceFields(false)[0]) ==
              FieldText(InterfaceFields(true)[0]) + FieldText(Field(RuntimeDependency, value))
  {
    Numbers();
    assert |value| == 59;
    assert FieldText(InterfaceFields(true)[0]) == k + "\0" + h;
    assert FieldText(InterfaceFields(false)[0]) == body + "\n";
    Rearranged(k + "\0", h, dependency, filler, "\0", "0", "\n", body);
  }

  lemma Rearranged(k: string, h: string, d: string, t: string, z: string, o: string, n: string, body: string)
    ensures (k + (h + (d + t)) + z + o + n) + (body + n) == (k + h) + (d + (t + (z + o + n + body)) + n)
  {
    var x, e := k + (h + (d + t)), z + o + n;
    Regroup(x, z, o);
    Regroup(x, z + o, n);
    Regroup(x, e, body + n);
    Regroup(e, body, n);
    Regroup(k, h, d + t);
    Regroup(k + h, d + t, e + body + n);
    Regroup(d + t, e + body, n);
    Regroup(d, t, e + body);
  }

  lemma Numbers()
    ensures Itoa(0) == "0" && Itoa(4) == "4" && Itoa(5) == "5" && Itoa(59) == "59"
  {
    assert Decimal(5) == "5" && Decimal(59 / 10) == "5";
  }

  lemma OnlyRecord(a: Artifact, f: CompiledFile)
    requires a == Artifact([f], false, [], [], [], [])
    ensures Stream(a) == RecordText(f) + FieldText(InterfaceFields(false)[0])
  {
    var g := InterfaceFields(false)[0];
    assert Metadata(a) == [g];
    assert Fields([g]) == FieldText(g) + Fields([]);
    assert Records([f]) == RecordText(f) + Records([]);
  }

  lemma OnlyDependency(b: Artifact, value: string)
    requires b == Artifact([], true, [], [], [], [value])
    ensures Stream(b) == FieldText(InterfaceFields(true)[0]) + FieldText(Field(RuntimeDependency, value))
  {
    var g, h := InterfaceFields(true)[0], Field(RuntimeDependency, value);
    assert Flat(DependencyFields, [value]) == [h] + Flat(DependencyFields, []);
    assert Metadata(b) == [g, h];
    assert Fields([g, h]) == FieldText(g) + Fields([h]);
    assert Fields([h]) == FieldText(h) + Fields([]);
  }
}
