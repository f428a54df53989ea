/** The environment's fingerprint as a code for all of its inputs at once: among texts
    without a NUL byte it identifies every one of them. With such a byte two files can be
    read as others. */
module FingerprintInputs {
  import opened Basics
  import opened EnvironmentModel
  import opened SyncFixpoint
  import opened SyncInputs

  function InputNames(i: Basis): seq<string> { i.plan.projects + EnvironmentLocks(i) }

  /** Names and texts by turns. */
  function Flat(files: Files, names: seq<string>): (fields: seq<string>)
    ensures |fields| == 2 * |names|
  {
    if names == [] then [] else [names[0], Content(files, names[0])] + Flat(files, names[1..])
  }

  /** The requirements, the last one together with the name that follows it. */
  function Runs(pending: string, list: seq<string>, name: string): (fields: seq<string>)
    ensures |fields| == |list| + 1
    decreases |list|
  {
    if list == [] then [pending + name] else [pending] + Runs("compile:" + list[0], list[1..], name)
  }

  predicate PlainBasis(i: Basis) {
    && Plain(EnvironmentFields(i)) && Plain(i.plan.compile) && Plain(InputNames(i))
    && forall name | name in InputNames(i) :: '\0' !in Content(i.files, name)
  }

  predicate SameBasis(i: Basis, j: Basis) {
    && i.config == j.config && i.profile == j.profile && i.plan == j.plan
    && forall name | name in InputNames(i) :: Content(i.files, name) == Content(j.files, name)
  }

  // ---------------------------------------------------------------- terminated fields

  lemma {:induction false} TerminatedJoin(a: seq<string>, b: seq<string>)
    ensures Terminated(a + b) == Terminated(a) + Terminated(b)
  {
    if a == [] {
      assert [] + b == b;
    } else {
      assert (a + b)[1..] == a[1..] + b;
      TerminatedJoin(a[1..], b);
      Regroup(a[0] + "\0", Terminated(a[1..]), Terminated(b));
    }
  }

  /** As many fields, read off two equal streams, are the same fields. */
  lemma {:induction false} FieldsCut(a: seq<string>, x: string, b: seq<string>, y: string)
    requires |a| == |b| && Plain(a) && Plain(b) && Terminated(a) + x == Terminated(b) + y
    ensures a == b && x == y
  {
    if a != [] {
      Regroup(a[0] + "\0", Terminated(a[1..]), x);
      Regroup(b[0] + "\0", Terminated(b[1..]), y);
      assert a[0] in a && b[0] in b;
      FieldCut(a[0], Terminated(a[1..]) + x, b[0], Terminated(b[1..]) + y);
      FieldsCut(a[1..], x, b[1..], y);
    } else {
      assert "" + x == x && "" + y == y;
    }
  }

  /** Terminated fields are told apart, however many there are. */
  lemma {:induction false} FieldsApartAll(a: seq<string>, b: seq<string>)
    requires Plain(a) && Plain(b) && Terminated(a) == Terminated(b)
    ensures a == b
  {
    if a != [] && b != [] {
      assert a[0] in a && b[0] in b;
      FieldCut(a[0], Terminated(a[1..]), b[0], Terminated(b[1..]));
      FieldsApartAll(a[1..], b[1..]);
    }
  }

  // ---------------------------------------------------------------- the tail of the stream

  lemma {:induction false} FilesAreFields(files: Files, names: seq<string>, optional: bool)
    requires FileInputs(files, names, optional).Some?
    ensures FileInputs(files, names, optional).value == Terminated(Flat(files, names))
  {
    if names != [] {
      ReadInput(files, names[0], optional);
      FilesAreFields(files, names[1..], optional);
      var pair := [names[0], Content(files, names[0])];
      assert pair[1..] == [Content(files, names[0])];
      TerminatedJoin(pair, Flat(files, names[1..]));
    }
  }

  lemma Shifted(pending: string, mark: string, key: string, text: string, rest: string, end: string)
    ensures pending + mark + (key + text + (rest + end)) == pending + (mark + key + (text + rest) + end)
  {
    Regroup(pending, mark, key + text + (rest + end));
    Regroup(key, text, rest + end);
    Regroup(text, rest, end);
    Regroup(mark, key, text + rest + end);
    Regroup(mark + key, text + rest, end);
  }

  lemma {:induction false} RunsAreFields(pending: string, list: seq<string>, name: string)
    ensures Terminated(Runs(pending, list, name)) == pending + (CompileInputs(list) + (name + "\0"))
    decreases |list|
  {
    if list == [] {
      assert [pending + name][1..] == [];
      Regroup(pending, name, "\0");
      assert "" + (name + "\0") == name + "\0";
    } else {
      hide CompileInputs;
      var next := "compile:" + list[0];
      RunsAreFields(next, list[1..], name);
      assert Runs(pending, list, name)[1..] == Runs(next, list[1..], name);
      RequirementText(list);
      assert "\0" + "compile:" == "\0compile:";
      Shifted(pending, "\0", "compile:", list[0], CompileInputs(list[1..]), name + "\0");
    }
  }

  lemma {:induction false} RunsArePlain(pending: string, list: seq<string>, name: string)
    requires '\0' !in pending && Plain(list) && '\0' !in name
    ensures Plain(Runs(pending, list, name))
    decreases |list|
  {
    if list != [] {
      assert list[0] in list;
      RunsArePlain("compile:" + list[0], list[1..], name);
    }
  }

  lemma {:induction false} RunsApart(pending: string, a: seq<string>, b: seq<string>, name: string)
    requires |a| == |b| && Runs(pending, a, name) == Runs(pending, b, name)
    ensures a == b
    decreases |a|
  {
    if a != [] {
      var x, y := Runs("compile:" + a[0], a[1..], name), Runs("compile:" + b[0], b[1..], name);
      assert x == Runs(pending, a, name)[1..] == Runs(pending, b, name)[1..] == y;
      SameRun(a[0], a[1..], b[0], b[1..], name);
      RunsApart("compile:" + a[0], a[1..], b[1..], name);
    }
  }

  lemma SameRun(x: string, a: seq<string>, y: string, b: seq<string>, name: string)
    requires |a| == |b| && Runs("compile:" + x, a, name) == Runs("compile:" + y, b, name)
    ensures x == y
  {
    var end := if a == [] then name else "";
    assert "compile:" + x + end == Runs("compile:" + x, a, name)[0];
    assert "compile:" + y + end == Runs("compile:" + y, b, name)[0];
    Between("compile:", x, y, end);
  }

  // ---------------------------------------------------------------- the whole stream

  function FirstName(i: Basis): string { InputNames(i)[0] }

  function Texts(i: Basis): seq<string> { Flat(i.files, InputNames(i))[1..] }

  /** Requirements and files as one list of fields. */
  function Tail(i: Basis): seq<string> { Runs("", i.plan.compile, FirstName(i)) + Texts(i) }

  lemma {:induction false} FlatJoin(files: Files, a: seq<string>, b: seq<string>)
    ensures Flat(files, a + b) == Flat(files, a) + Flat(files, b)
  {
    if a == [] {
      assert a + b == b;
    } else {
      assert (a + b)[1..] == a[1..] + b;
      FlatJoin(files, a[1..], b);
    }
  }

  lemma TailIsFields(i: Basis)
    requires EnvironmentStreamOf(i).Some?
    ensures FileInputs(i.files, i.plan.projects, false).Some? && FileInputs(i.files, EnvironmentLocks(i), true).Some?
    ensures CompileInputs(i.plan.compile) + FileInputs(i.files, i.plan.projects, false).value
              + FileInputs(i.files, EnvironmentLocks(i), true).value == Terminated(Tail(i))
  {
    hide Terminated, FileInputs, CompileInputs, Flat;
    var compile, locks := CompileInputs(i.plan.compile), EnvironmentLocks(i);
    FilesAreFields(i.files, i.plan.projects, false);
    FilesAreFields(i.files, locks, true);
    var x, y := Flat(i.files, i.plan.projects), Flat(i.files, locks);
    FlatJoin(i.files, i.plan.projects, locks);
    TerminatedJoin(x, y);
    Regroup(compile, Terminated(x), Terminated(y));
    TailStarts(i);
    RunsAreFields("", i.plan.compile, FirstName(i));
    assert "" + (compile + (FirstName(i) + "\0")) == compile + (FirstName(i) + "\0");
    TailText(compile, FirstName(i), x + y);
    TerminatedJoin(Runs("", i.plan.compile, FirstName(i)), Texts(i));
  }

  lemma TailStarts(i: Basis)
    ensures Flat(i.files, InputNames(i)) != [] && Flat(i.files, InputNames(i))[0] == FirstName(i)
  {
  }

  lemma TailIsRead(i: Basis)
    requires EnvironmentStreamOf(i).Some?
    ensures EnvironmentStreamOf(i).value ==
            Terminated(EnvironmentFields(i)) + (i.config.wheel + (Terminated(Tail(i)) + BoolByte(i.plan.mcp)))
  {
    hide Terminated, FileInputs, CompileInputs, BoolByte, Tail;
    var head, wheel, compile := Terminated(EnvironmentFields(i)), i.config.wheel, CompileInputs(i.plan.compile);
    StreamForms(i);
    TailIsFields(i);
    var x, y := FileInputs(i.files, i.plan.projects, false).value, FileInputs(i.files, EnvironmentLocks(i), true).value;
    Regroup(head + wheel, compile, x);
    Regroup(head + wheel, compile + x, y);
    Regroup(head, wheel, Terminated(Tail(i)));
    Regroup(head, wheel + Terminated(Tail(i)), BoolByte(i.plan.mcp));
    Regroup(wheel, Terminated(Tail(i)), BoolByte(i.plan.mcp));
  }

  lemma TailText(compile: string, name: string, all: seq<string>)
    requires all != [] && all[0] == name
    ensures compile + (name + "\0") + Terminated(all[1..]) == compile + Terminated(all)
  {
    Regroup(compile, name + "\0", Terminated(all[1..]));
  }

  // ---------------------------------------------------------------- read back

  lemma {:induction false} FlatIsPlain(files: Files, names: seq<string>)
    requires Plain(names) && forall name | name in names :: '\0' !in Content(files, name)
    ensures Plain(Flat(files, names))
  {
    if names != [] {
      assert names[0] in names;
      FlatIsPlain(files, names[1..]);
    }
  }

  lemma {:induction false} FlatApart(a: Files, b: Files, names: seq<string>)
    requires Flat(a, names) == Flat(b, names)
    ensures forall name | name in names :: Content(a, name) == Content(b, name)
  {
    if names != [] {
      var x, y := Flat(a, names), Flat(b, names);
      assert x[1] == Content(a, names[0]) && y[1] == Content(b, names[0]);
      assert x[2..] == Flat(a, names[1..]) && y[2..] == Flat(b, names[1..]);
      FlatApart(a, b, names[1..]);
    }
  }

  lemma {:induction false} FlatAgrees(a: Files, b: Files, names: seq<string>)
    requires forall name | name in names :: Content(a, name) == Content(b, name)
    ensures Flat(a, names) == Flat(b, names)
  {
    if names != [] {
      FlatAgrees(a, b, names[1..]);
    }
  }

  lemma TailIsPlain(i: Basis)
    requires PlainBasis(i)
    ensures Plain(Tail(i))
  {
    TailStarts(i);
    FlatIsPlain(i.files, InputNames(i));
    RunsArePlain("", i.plan.compile, FirstName(i));
  }

  lemma TailsApart(i: Basis, j: Basis)
    requires InputNames(i) == InputNames(j) && Tail(i) == Tail(j)
    ensures i.plan.compile == j.plan.compile
    ensures forall name | name in InputNames(i) :: Content(i.files, name) == Content(j.files, name)
  {
    hide Runs, Flat;
    var x, y := Runs("", i.plan.compile, FirstName(i)), Runs("", j.plan.compile, FirstName(i));
    assert |Texts(i)| == |Texts(j)|;
    assert |x| == |y|;
    SameLength(x, Texts(i), y, Texts(j));
    RunsApart("", i.plan.compile, j.plan.compile, FirstName(i));
    TailStarts(i);
    TailStarts(j);
    assert Flat(i.files, InputNames(i)) == [FirstName(i)] + Texts(i);
    assert Flat(j.files, InputNames(i)) == [FirstName(i)] + Texts(j);
    FlatApart(i.files, j.files, InputNames(i));
  }

  lemma ProfileTexts(p: Profile, q: Profile)
    requires ProfileText(p) == ProfileText(q)
    ensures p == q
  {
    assert ProfileText(p)[0] == ProfileText(q)[0];
  }

  lemma HeadsApart(i: Basis, j: Basis, x: string, y: string)
    requires Plain(EnvironmentFields(i)) && Plain(EnvironmentFields(j)) && |i.config.wheel| == |j.config.wheel|
    requires Terminated(EnvironmentFields(i)) + (i.config.wheel + x) ==
             Terminated(EnvironmentFields(j)) + (j.config.wheel + y)
    ensures i.config == j.config && i.profile == j.profile && x == y
  {
    hide Terminated, ProfileText;
    var a, b := EnvironmentFields(i), EnvironmentFields(j);
    FieldsCut(a, i.config.wheel + x, b, j.config.wheel + y);
    SameLength(i.config.wheel, x, j.config.wheel, y);
    assert a[0] == b[0] && a[1] == b[1] && a[2] == b[2] && a[3] == b[3] && a[4] == b[4];
    ProfileTexts(i.profile, j.profile);
  }

  lemma EndsApart(x: string, a: bool, y: string, b: bool)
    requires x + BoolByte(a) == y + BoolByte(b)
    ensures x == y && a == b
  {
    assert |x| == |y|;
    SameLength(x, BoolByte(a), y, BoolByte(b));
    assert BoolByte(a)[1] == BoolByte(b)[1];
  }

  /** Two projects with the same dependency files, and wheels of one length, have the same
      fingerprint exactly when all their inputs are the same, whatever changed at once. */
  lemma StreamDeterminesInputs(i: Basis, j: Basis)
    requires EnvironmentStreamOf(i).Some? && EnvironmentStreamOf(j).Some?
    requires PlainBasis(i) && PlainBasis(j)
    requires i.plan.projects == j.plan.projects && |i.config.wheel| == |j.config.wheel|
    ensures EnvironmentStreamOf(i) == EnvironmentStreamOf(j) <==> SameBasis(i, j)
  {
    hide Terminated, BoolByte, Tail, EnvironmentFields, EnvironmentFingerprint;
    TailIsRead(i);
    TailIsRead(j);
    var x, y := Terminated(Tail(i)), Terminated(Tail(j));
    if EnvironmentStreamOf(i) == EnvironmentStreamOf(j) {
      HeadsApart(i, j, x + BoolByte(i.plan.mcp), y + BoolByte(j.plan.mcp));
      EndsApart(x, i.plan.mcp, y, j.plan.mcp);
      TailIsPlain(i);
      TailIsPlain(j);
      FieldsApartAll(Tail(i), Tail(j));
      TailsApart(i, j);
    }
    if SameBasis(i, j) {
      SameTails(i, j);
    }
  }

  lemma SameTails(i: Basis, j: Basis)
    requires SameBasis(i, j)
    ensures EnvironmentFields(i) == EnvironmentFields(j) && Tail(i) == Tail(j)
  {
    FlatAgrees(i.files, j.files, InputNames(i));
  }

  lemma ProfileStandsAfter(i: Basis, rest: string)
    ensures var front := Terminated([i.config.runtime, i.config.framework, i.config.mode]);
            exists more :: Terminated(EnvironmentFields(i)) + rest == front + (ProfileText(i.profile) + more)
  {
    var front := [i.config.runtime, i.config.framework, i.config.mode];
    var back := [ProfileText(i.profile), i.config.wheelName];
    assert EnvironmentFields(i) == front + back;
    TerminatedJoin(front, back);
    var more := "\0" + Terminated(back[1..]);
    Regroup(ProfileText(i.profile), "\0", Terminated(back[1..]));
    assert Terminated(back) == ProfileText(i.profile) + more;
    Regroup(Terminated(front), ProfileText(i.profile) + more, rest);
    Regroup(ProfileText(i.profile), more, rest);
  }

  /** Another profile never reuses the environment that stands for this one, whatever bytes the
      inputs hold, unless the hash collides on just these two streams. */
  lemma ProfileSwitchEndsReuse(sha: string -> string, i: Basis, other: Profile, published: map<Family, Publication>,
        pythons: set<Name>)
    requires ReusesFor(sha, i, published, pythons) && FamilyOf(other) == FamilyOf(i.profile)
    requires Separates(sha, EnvironmentStreamOf(i), EnvironmentStreamOf(i.(profile := other)))
    ensures ReusesFor(sha, i.(profile := other), published, pythons) <==> other == i.profile
  {
    hide Terminated, BoolByte, Tail, EnvironmentFields, FileInputs, ProfileText;
    var j := i.(profile := other);
    if ReusesFor(sha, j, published, pythons) {
      TailIsRead(i);
      TailIsRead(j);
      var x := i.config.wheel + (Terminated(Tail(i)) + BoolByte(i.plan.mcp));
      var y := j.config.wheel + (Terminated(Tail(j)) + BoolByte(j.plan.mcp));
      ProfileStandsAfter(i, x);
      ProfileStandsAfter(j, y);
      var front := Terminated([i.config.runtime, i.config.framework, i.config.mode]);
      var u :| Terminated(EnvironmentFields(i)) + x == front + (ProfileText(i.profile) + u);
      var v :| Terminated(EnvironmentFields(j)) + y == front + (ProfileText(other) + v);
      SameLength(front, ProfileText(i.profile) + u, front, ProfileText(other) + v);
      ProfilesStart(i.profile, other, u, v);
    }
  }

  lemma ProfilesStart(p: Profile, q: Profile, u: string, v: string)
    requires ProfileText(p) + u == ProfileText(q) + v
    ensures p == q
  {
    assert (ProfileText(p) + u)[0] == ProfileText(p)[0] && (ProfileText(q) + v)[0] == ProfileText(q)[0];
  }

  /** An environment published for one set of inputs is reused for another exactly when they
      are the same, unless the hash collides on just these two streams. */
  lemma ReusedForSameInputs(sha: string -> string, i: Basis, j: Basis, published: map<Family, Publication>,
        pythons: set<Name>)
    requires ReusesFor(sha, i, published, pythons) && EnvironmentStreamOf(j).Some?
    requires FamilyOf(i.profile) == FamilyOf(j.profile)
    requires PlainBasis(i) && PlainBasis(j)
    requires i.plan.projects == j.plan.projects && |i.config.wheel| == |j.config.wheel|
    requires Separates(sha, EnvironmentStreamOf(i), EnvironmentStreamOf(j))
    ensures ReusesFor(sha, j, published, pythons) <==> SameBasis(i, j)
  {
    hide Terminated, BoolByte, Tail, EnvironmentFields, SameBasis, PlainBasis, FileInputs;
    StreamDeterminesInputs(i, j);
  }

  lemma TwoFiles(files: Files, m: string, n: string)
    requires m in files && n in files && |files[m]| <= FILE_LIMIT && |files[n]| <= FILE_LIMIT
    ensures FileInputs(files, [m, n], false) == Some(m + "\0" + files[m] + "\0" + (n + "\0" + files[n] + "\0"))
  {
    var first, second := FileInput(files, m, false), FileInput(files, n, false);
    assert FileInputs(files, [n], false) == second by {
      assert [n][1..] == [] && second.value + "" == second.value;
    }
    assert [m, n][1..] == [n];
  }

  /** Bytes that no dependency file should hold make two files pass for others: the end of
      one text and the name of the next file can stand in either. */
  lemma NulTextsCollide(i: Basis, m: string, n: string, u: string, v: string, w: string)
    requires i.plan.projects == [m, n] && m != n && {m, n} !! {PROJECT_LOCK, LockFile(i.profile)}
    requires |u| + |v| + |w| + |n| + 2 <= FILE_LIMIT && EnvironmentStreamOf(i).Some?
    ensures var x := i.(files := i.files[m := u][n := v + "\0" + n + "\0" + w]);
            var y := i.(files := i.files[m := u + "\0" + n + "\0" + v][n := w]);
            && Content(x.files, m) != Content(y.files, m)
            && EnvironmentStreamOf(x).Some? && EnvironmentStreamOf(x) == EnvironmentStreamOf(y)
  {
    hide Terminated, CompileInputs, BoolByte, FileInputs, LockFile;
    var locks := EnvironmentLocks(i);
    var x := i.files[m := u][n := v + "\0" + n + "\0" + w];
    var y := i.files[m := u + "\0" + n + "\0" + v][n := w];
    TwoFiles(x, m, n);
    TwoFiles(y, m, n);
    OthersOnly(i.files, m, u, locks, true);
    OthersOnly(i.files[m := u], n, x[n], locks, true);
    OthersOnly(i.files, m, y[m], locks, true);
    OthersOnly(i.files[m := y[m]], n, w, locks, true);
    Exchanged(m + "\0", u, n, v, w);
    StreamForms(i);
    StreamForms(i.(files := x));
    StreamForms(i.(files := y));
  }

  lemma Exchanged(m: string, u: string, n: string, v: string, w: string)
    ensures m + u + "\0" + (n + "\0" + (v + "\0" + n + "\0" + w) + "\0") ==
            m + (u + "\0" + n + "\0" + v) + "\0" + (n + "\0" + w + "\0")
  {
    var x, y := v + "\0" + n + "\0" + w, u + "\0" + n + "\0" + v;
    var l, r := m + u + "\0" + (n + "\0" + x + "\0"), m + y + "\0" + (n + "\0" + w + "\0");
    assert |l| == |r|;
    forall k | 0 <= k < |l|
      ensures l[k] == r[k]
    {
    }
  }
}
