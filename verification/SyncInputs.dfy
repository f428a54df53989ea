/** What the two fingerprints of an environment depend on: after one edit, of the project's
    files, of its configuration or of the runtime wheel, a published environment is still
    reused, and a committed lock still accepted, exactly when the edit changed nothing. */
module SyncInputs {
  import opened Basics
  import opened EnvironmentModel
  import opened SyncFixpoint

  /** What a fingerprint is computed from. */
  datatype Basis = Basis(config: Config, files: Files, plan: Plan, profile: Profile)

  /** One change between two runs. */
  datatype Edit =
    | NewRuntime(text: string)
    | NewFramework(text: string)
    | NewMode(text: string)
    | NewWheelName(text: string)
    | NewWheel(text: string)
    | NewRequirements(list: seq<string>)
    | NewMcp(mcp: bool)
    | NewFile(name: string, text: string)
    | NoFile(name: string)

  function Edited(i: Basis, e: Edit): Basis {
    match e
    case NewRuntime(text) => i.(config := i.config.(runtime := text))
    case NewFramework(text) => i.(config := i.config.(framework := text))
    case NewMode(text) => i.(config := i.config.(mode := text))
    case NewWheelName(text) => i.(config := i.config.(wheelName := text))
    case NewWheel(text) => i.(config := i.config.(wheel := text))
    case NewRequirements(list) => i.(plan := i.plan.(compile := list))
    case NewMcp(mcp) => i.(plan := i.plan.(mcp := mcp))
    case NewFile(name, text) => i.(files := i.files[name := text])
    case NoFile(name) => i.(files := i.files - {name})
  }

  /** The text of a file, which is empty for a file that is not there. */
  function Content(files: Files, name: string): string {
    if name in files then files[name] else ""
  }

  /** The edit leaves its value as it was, or touches a file that is no input. */
  predicate Neutral(i: Basis, e: Edit, names: seq<string>) {
    match e
    case NewRuntime(text) => text == i.config.runtime
    case NewFramework(text) => text == i.config.framework
    case NewMode(text) => text == i.config.mode
    case NewWheelName(text) => text == i.config.wheelName
    case NewWheel(text) => text == i.config.wheel
    case NewRequirements(list) => list == i.plan.compile
    case NewMcp(mcp) => mcp == i.plan.mcp
    case NewFile(name, text) => name in names ==> text == Content(i.files, name)
    case NoFile(name) => name !in i.plan.projects && (name in names ==> Content(i.files, name) == "")
  }

  /** No text of the list contains the byte that ends a field. */
  predicate Plain(texts: seq<string>) {
    forall text | text in texts :: '\0' !in text
  }

  predicate PlainEdit(i: Basis, e: Edit) {
    e.NewRequirements? ==> Plain(i.plan.compile) && Plain(e.list)
  }

  // ---------------------------------------------------------------- the two streams

  /** The form of both streams. */
  function Stream(fields: seq<string>, i: Basis, locks: seq<string>): Option<string> {
    Hashed(stream => stream, Terminated(fields) + i.config.wheel + CompileInputs(i.plan.compile),
           FileInputs(i.files, i.plan.projects, false), FileInputs(i.files, locks, true), BoolByte(i.plan.mcp))
  }

  function EnvironmentFields(i: Basis): seq<string> {
    [i.config.runtime, i.config.framework, i.config.mode, ProfileText(i.profile), i.config.wheelName]
  }

  function LockFields(i: Basis): seq<string> {
    ["1", i.config.runtime, i.config.framework, i.config.mode, i.config.wheelName, ProfileText(i.profile)]
  }

  function EnvironmentLocks(i: Basis): seq<string> { [PROJECT_LOCK, LockFile(i.profile)] }

  function EnvironmentStreamOf(i: Basis): Option<string> {
    EnvironmentFingerprint(stream => stream, i.config, i.files, i.plan, i.profile)
  }

  function LockStreamOf(i: Basis): Option<string> {
    LockStream(i.config, i.files, i.plan, i.profile)
  }

  lemma StreamForms(i: Basis)
    ensures EnvironmentStreamOf(i) == Stream(EnvironmentFields(i), i, EnvironmentLocks(i))
    ensures LockStreamOf(i) == Stream(LockFields(i), i, [PROJECT_LOCK])
  {
    hide Terminated, CompileInputs, BoolByte;
    var pin := FileInput(i.files, PROJECT_LOCK, true);
    assert FileInputs(i.files, [PROJECT_LOCK], true) == pin by {
      assert [PROJECT_LOCK][1..] == [];
      assert pin.Some? ==> pin.value + "" == pin.value;
    }
  }

  // ---------------------------------------------------------------- one part of a stream

  lemma Between(a: string, x: string, y: string, b: string)
    requires a + x + b == a + y + b
    ensures x == y
  {
    Regroup(a, x, b);
    Regroup(a, y, b);
    SameLength(a, x + b, a, y + b);
    assert |x| == |y|;
    SameLength(x, b, y, b);
  }

  /** A field of the head reaches the stream with every one of its bytes. */
  lemma {:induction false} FieldCounts(fields: seq<string>, k: nat, text: string)
    requires k < |fields| && Terminated(fields[k := text]) == Terminated(fields)
    ensures text == fields[k]
  {
    var other := fields[k := text];
    if k == 0 {
      assert other[1..] == fields[1..];
      assert "" + text + ("\0" + Terminated(fields[1..])) == text + "\0" + Terminated(fields[1..]);
      assert "" + fields[0] + ("\0" + Terminated(fields[1..])) == fields[0] + "\0" + Terminated(fields[1..]);
      Between("", text, fields[0], "\0" + Terminated(fields[1..]));
    } else {
      assert other[1..] == fields[1..][k - 1 := text] && other[0] == fields[0];
      SameLength(fields[0] + "\0", Terminated(other[1..]), fields[0] + "\0", Terminated(fields[1..]));
      FieldCounts(fields[1..], k - 1, text);
    }
  }

  /** A text without the end byte stops where that byte comes. */
  lemma Stops(a: string, x: string, b: string, y: string)
    requires a + x == b + y && (x == "" || x[0] == '\0') && '\0' !in b
    ensures |b| <= |a|
  {
    forall k | 0 <= k < |b|
      ensures (a + x)[k] != '\0'
    {
      assert (b + y)[k] == b[k];
    }
    assert x != "" ==> (a + x)[|a|] == x[0];
  }

  lemma FieldCut(a: string, x: string, b: string, y: string)
    requires '\0' !in a && '\0' !in b && a + "\0" + x == b + "\0" + y
    ensures a == b && x == y
  {
    Regroup(a, "\0", x);
    Regroup(b, "\0", y);
    Stops(a, "\0" + x, b, "\0" + y);
    Stops(b, "\0" + y, a, "\0" + x);
    SameLength(a, "\0" + x, b, "\0" + y);
    SameLength("\0", x, "\0", y);
  }

  /** Requirements are told apart by the byte before each of them. */
  lemma {:induction false} RequirementsCount(a: seq<string>, b: seq<string>)
    requires Plain(a) && Plain(b) && CompileInputs(a) == CompileInputs(b)
    ensures a == b
  {
    if a != [] && b != [] {
      RequirementText(a);
      RequirementText(b);
      SameLength("\0compile:", a[0] + CompileInputs(a[1..]), "\0compile:", b[0] + CompileInputs(b[1..]));
      assert a[0] in a && b[0] in b;
      Stops(a[0], CompileInputs(a[1..]), b[0], CompileInputs(b[1..]));
      Stops(b[0], CompileInputs(b[1..]), a[0], CompileInputs(a[1..]));
      SameLength(a[0], CompileInputs(a[1..]), b[0], CompileInputs(b[1..]));
      RequirementsCount(a[1..], b[1..]);
    }
  }

  lemma RequirementText(list: seq<string>)
    requires list != []
    ensures CompileInputs(list) == "\0compile:" + (list[0] + CompileInputs(list[1..]))
    ensures CompileInputs(list[1..]) == "" || CompileInputs(list[1..])[0] == '\0'
  {
    Regroup("\0compile:", list[0], CompileInputs(list[1..]));
  }

  // ---------------------------------------------------------------- files

  /** The two sets of files differ at most in one. */
  ghost predicate DifferAt(a: Files, b: Files, name: string) {
    forall n | n != name && (n in a || n in b) :: n in a && n in b && a[n] == b[n]
  }

  /** Both lists of inputs can be read, and compare like the one file that may differ. */
  predicate Compared(a: Files, b: Files, name: string, names: seq<string>, optional: bool) {
    var x, y := FileInputs(a, names, optional), FileInputs(b, names, optional);
    && x.Some? && y.Some?
    && (|Content(a, name)| == |Content(b, name)| ==> |x.value| == |y.value|)
    && (|Content(a, name)| < |Content(b, name)| ==> |x.value| <= |y.value|)
    && (|Content(a, name)| < |Content(b, name)| && name in names ==> |x.value| < |y.value|)
  }

  lemma ReadInput(files: Files, name: string, optional: bool)
    requires FileInput(files, name, optional).Some?
    ensures FileInput(files, name, optional).value == name + "\0" + Content(files, name) + "\0"
    ensures |Content(files, name)| <= FILE_LIMIT
  {
    assert name + "\0" + "" + "\0" == name + "\0\0";
  }

  lemma {:induction false} Lengths(a: Files, b: Files, name: string, names: seq<string>, optional: bool)
    requires DifferAt(a, b, name) && FileInputs(a, names, optional).Some? && FileInputs(b, names, optional).Some?
    ensures Compared(a, b, name, names, optional)
  {
    if names != [] {
      ReadInput(a, names[0], optional);
      ReadInput(b, names[0], optional);
      Lengths(a, b, name, names[1..], optional);
      assert name in names <==> name == names[0] || name in names[1..];
    }
  }

  lemma {:induction false} SameTexts(a: Files, b: Files, name: string, names: seq<string>, optional: bool)
    requires FileInputs(a, names, optional).Some? && FileInputs(b, names, optional).Some?
    requires DifferAt(a, b, name) && |Content(a, name)| == |Content(b, name)|
    requires FileInputs(a, names, optional) == FileInputs(b, names, optional)
    ensures name in names ==> Content(a, name) == Content(b, name)
  {
    if names != [] {
      ReadInput(a, names[0], optional);
      ReadInput(b, names[0], optional);
      var x, y := FileInput(a, names[0], optional).value, FileInput(b, names[0], optional).value;
      SameLength(x, FileInputs(a, names[1..], optional).value, y, FileInputs(b, names[1..], optional).value);
      Regroup(names[0] + "\0", Content(a, names[0]), "\0");
      Between(names[0] + "\0", Content(a, names[0]), Content(b, names[0]), "\0");
      SameTexts(a, b, name, names[1..], optional);
    }
  }

  lemma {:induction false} Untouched(a: Files, b: Files, name: string, names: seq<string>, optional: bool)
    requires DifferAt(a, b, name) && FileInputs(a, names, optional).Some?
    requires name in names ==> (name in b || optional) && Content(a, name) == Content(b, name)
    ensures FileInputs(a, names, optional) == FileInputs(b, names, optional)
  {
    if names != [] {
      ReadInput(a, names[0], optional);
      assert name + "\0" + "" + "\0" == name + "\0\0";
      Untouched(a, b, name, names[1..], optional);
    }
  }

  /** The same text as before, and not gone if it has to be there. */
  predicate SameFile(i: Basis, after: Files, name: string, locks: seq<string>) {
    && (name in i.plan.projects ==> name in after)
    && (name in i.plan.projects + locks ==> Content(after, name) == Content(i.files, name))
  }

  predicate SameRead(i: Basis, after: Files, locks: seq<string>) {
    var x, y := FileInputs(i.files, i.plan.projects, false), FileInputs(after, i.plan.projects, false);
    var u, v := FileInputs(i.files, locks, true), FileInputs(after, locks, true);
    x.Some? && u.Some? && y.Some? && v.Some? && x.value + u.value == y.value + v.value
  }

  lemma {:induction false} RequiredIsThere(files: Files, names: seq<string>, name: string)
    requires FileInputs(files, names, false).Some? && name in names
    ensures name in files
  {
    if name != names[0] {
      RequiredIsThere(files, names[1..], name);
    }
  }

  /** A changed file changes what is read, unless it is no input or keeps its text. */
  lemma FilesCount(i: Basis, after: Files, name: string, locks: seq<string>)
    requires FileInputs(i.files, i.plan.projects, false).Some? && FileInputs(i.files, locks, true).Some?
    requires DifferAt(i.files, after, name)
    ensures SameRead(i, after, locks) <==> SameFile(i, after, name, locks)
  {
    var projects := i.plan.projects;
    var x, y := FileInputs(i.files, projects, false), FileInputs(after, projects, false);
    var u, v := FileInputs(i.files, locks, true), FileInputs(after, locks, true);
    if SameFile(i, after, name, locks) {
      Untouched(i.files, after, name, projects, false);
      Untouched(i.files, after, name, locks, true);
    }
    if SameRead(i, after, locks) {
      Lengths(i.files, after, name, projects, false);
      Lengths(i.files, after, name, locks, true);
      Lengths(after, i.files, name, projects, false);
      Lengths(after, i.files, name, locks, true);
      if name in projects {
        RequiredIsThere(after, projects, name);
      }
      if name in projects + locks {
        SameLength(x.value, u.value, y.value, v.value);
        SameTexts(i.files, after, name, projects, false);
        SameTexts(i.files, after, name, locks, true);
      }
    }
  }

  // ---------------------------------------------------------------- one edit

  lemma RequirementsApart(a: seq<string>, b: seq<string>)
    requires Plain(a) && Plain(b)
    ensures CompileInputs(a) == CompileInputs(b) <==> a == b
  {
    if CompileInputs(a) == CompileInputs(b) {
      RequirementsCount(a, b);
    }
  }

  lemma FieldsApart(fields: seq<string>, k: nat, text: string)
    requires k < |fields|
    ensures Terminated(fields[k := text]) == Terminated(fields) <==> text == fields[k]
  {
    if Terminated(fields[k := text]) == Terminated(fields) {
      FieldCounts(fields, k, text);
    }
    assert text == fields[k] ==> fields[k := text] == fields;
  }

  /** Where a configured value stands in the head of a stream. */
  predicate Stands(e: Edit, i: Basis, fields: seq<string>, after: seq<string>, k: nat) {
    && k < |fields|
    && match e
       case NewRuntime(text) => fields[k] == i.config.runtime && after == fields[k := text]
       case NewFramework(text) => fields[k] == i.config.framework && after == fields[k := text]
       case NewMode(text) => fields[k] == i.config.mode && after == fields[k := text]
       case NewWheelName(text) => fields[k] == i.config.wheelName && after == fields[k := text]
       case _ => after == fields
  }

  /** A stream with one part exchanged is the same stream exactly when that part is. */
  lemma OnePart(a: string, x: string, y: string, b: string)
    ensures a + x + b == a + y + b <==> x == y
  {
    if a + x + b == a + y + b {
      Between(a, x, y, b);
    }
  }

  lemma Grouped(a: string, b: string, c: string, d: string, e: string, f: string)
    ensures a + b + c + d + e + f == "" + a + (b + c + d + e + f)
    ensures a + b + c + d + e + f == a + b + (c + d + e + f)
    ensures a + b + c + d + e + f == (a + b) + c + (d + e + f)
    ensures a + b + c + d + e + f == (a + b + c) + (d + e) + f
    ensures a + b + c + d + e + f == (a + b + c + d + e) + f + ""
  {
    SixPieces("", a, b, c, d, e, f);
    Regroup(a + b, c, d + e + f);
    Regroup(a + b + c, d, e);
  }

  lemma FilesFollow(i: Basis, after: Files, name: string, locks: seq<string>, head: string, last: string)
    requires FileInputs(i.files, i.plan.projects, false).Some? && FileInputs(i.files, locks, true).Some?
    requires DifferAt(i.files, after, name)
    ensures Hashed(s => s, head, FileInputs(after, i.plan.projects, false), FileInputs(after, locks, true), last)
              == Hashed(s => s, head, FileInputs(i.files, i.plan.projects, false), FileInputs(i.files, locks, true),
                        last)
            <==> SameFile(i, after, name, locks)
  {
    hide FileInputs, SameFile;
    var x, y := FileInputs(i.files, i.plan.projects, false), FileInputs(after, i.plan.projects, false);
    var u, v := FileInputs(i.files, locks, true), FileInputs(after, locks, true);
    FilesCount(i, after, name, locks);
    if y.Some? && v.Some? {
      Regroup(head, x.value, u.value);
      Regroup(head, y.value, v.value);
      OnePart(head, y.value + v.value, x.value + u.value, last);
    }
  }

  lemma StreamFollows(i: Basis, e: Edit, fields: seq<string>, after: seq<string>, k: nat, locks: seq<string>)
    requires Stream(fields, i, locks).Some? && PlainEdit(i, e) && Stands(e, i, fields, after, k)
    ensures Stream(after, Edited(i, e), locks) == Stream(fields, i, locks) <==>
            Neutral(i, e, i.plan.projects + locks)
  {
    hide Terminated, CompileInputs, FileInputs;
    var projects, pins := FileInputs(i.files, i.plan.projects, false).value, FileInputs(i.files, locks, true).value;
    var head, wheel, compile := Terminated(fields), i.config.wheel, CompileInputs(i.plan.compile);
    var last := BoolByte(i.plan.mcp);
    assert Stream(fields, i, locks).value == head + wheel + compile + projects + pins + last;
    match e {
      case NewRequirements(list) =>
        RequirementsApart(list, i.plan.compile);
        Grouped(head, wheel, CompileInputs(list), projects, pins, last);
        Grouped(head, wheel, compile, projects, pins, last);
        OnePart(head + wheel, CompileInputs(list), compile, projects + pins + last);
      case NewMcp(mcp) =>
        OnePart(head + wheel + compile + projects + pins, BoolByte(mcp), last, "");
        assert BoolByte(mcp)[1] == BoolByte(i.plan.mcp)[1] ==> mcp == i.plan.mcp;
      case NewWheel(text) =>
        Grouped(head, text, compile, projects, pins, last);
        Grouped(head, wheel, compile, projects, pins, last);
        OnePart(head, text, wheel, compile + projects + pins + last);
      case NewFile(name, text) =>
        FilesFollow(i, i.files[name := text], name, locks, head + wheel + compile, last);
      case NoFile(name) =>
        FilesFollow(i, i.files - {name}, name, locks, head + wheel + compile, last);
      case _ =>
        FieldsApart(fields, k, after[k]);
        Grouped(Terminated(after), wheel, compile, projects, pins, last);
        Grouped(head, wheel, compile, projects, pins, last);
        OnePart("", Terminated(after), head, wheel + compile + projects + pins + last);
    }
  }

  // ---------------------------------------------------------------- what is reused and accepted

  predicate ReusesFor(sha: string -> string, i: Basis, published: map<Family, Publication>, pythons: set<Name>) {
    Reuses(sha, i.config, i.files, i.plan, i.profile, published, pythons)
  }

  predicate AcceptsFor(sha: string -> string, i: Basis) {
    FrozenAccepts(sha, i.config, i.files, i.plan, i.profile)
  }

  /** Which field of the head an edit changes. */
  function Place(e: Edit, runtime: nat, framework: nat, mode: nat, wheel: nat): nat {
    match e
    case NewFramework(_) => framework
    case NewMode(_) => mode
    case NewWheelName(_) => wheel
    case _ => runtime
  }

  /** A reusable environment stays reusable through an edit exactly when the edit changes
      nothing: not one byte of the configuration, the wheel, the compile requirements, a
      dependency file, the pin or the profile's lock, unless the hash collides on just
      these two streams. */
  lemma ReuseEndsIff(sha: string -> string, i: Basis, e: Edit, published: map<Family, Publication>,
        pythons: set<Name>)
    requires ReusesFor(sha, i, published, pythons) && PlainEdit(i, e)
    requires Separates(sha, EnvironmentStreamOf(i), EnvironmentStreamOf(Edited(i, e)))
    ensures ReusesFor(sha, Edited(i, e), published, pythons) <==>
            Neutral(i, e, i.plan.projects + [PROJECT_LOCK, LockFile(i.profile)])
  {
    hide Terminated, CompileInputs, FileInputs;
    var fields := EnvironmentFields(i);
    StreamForms(i);
    StreamForms(Edited(i, e));
    var k := Place(e, 0, 1, 2, 4);
    assert Stands(e, i, fields, EnvironmentFields(Edited(i, e)), k);
    StreamFollows(i, e, fields, EnvironmentFields(Edited(i, e)), k, EnvironmentLocks(i));
  }

  lemma LockUntouched(i: Basis, e: Edit)
    requires e.NewFile? || e.NoFile? ==> e.name != LockFile(i.profile)
    ensures LockAt(Edited(i, e).files, i.profile) == LockAt(i.files, i.profile)
  {
  }

  /** A committed lock stays acceptable through an edit of anything but the lock itself
      exactly when the edit changes nothing it was resolved from. */
  lemma LockIsStaleIff(sha: string -> string, i: Basis, e: Edit)
    requires AcceptsFor(sha, i) && PlainEdit(i, e) && (e.NewFile? || e.NoFile? ==> e.name != LockFile(i.profile))
    requires Separates(sha, LockStreamOf(i), LockStreamOf(Edited(i, e)))
    ensures AcceptsFor(sha, Edited(i, e)) <==> Neutral(i, e, i.plan.projects + [PROJECT_LOCK])
  {
    hide Terminated, CompileInputs, FileInputs, LockAt;
    var fields := LockFields(i);
    LockUntouched(i, e);
    StreamForms(i);
    StreamForms(Edited(i, e));
    var k := Place(e, 1, 2, 3, 4);
    assert Stands(e, i, fields, LockFields(Edited(i, e)), k);
    StreamFollows(i, e, fields, LockFields(Edited(i, e)), k, [PROJECT_LOCK]);
  }
}
