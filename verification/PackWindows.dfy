/** Trees for Windows hosts: no two names may be one name to a case-insensitive
    file system, and no name may mean a device or a stream. */
module PackWindows {
  import opened Basics
  import opened PackPaths
  import opened PackManifest

  /** `strings.ToUpper`, left open. */
  type Upper = string -> string

  const FORBIDDEN := {'<', '>', ':', '\"', '\\', '|', '?', '*'}
  const DEVICES := {"CON", "PRN", "AUX", "NUL", "CONIN$", "CONOUT$"}
  /** One digit, or one of the three superscript digits as UTF-8 bytes. */
  const PORTS := {
    "1", "2", "3", "4", "5", "6", "7", "8", "9",
    ['\U{C2}', '\U{B9}'], ['\U{C2}', '\U{B2}'], ['\U{C2}', '\U{B3}']}

  function TrimRight(s: string, cut: set<char>): string {
    if s != "" && s[|s| - 1] in cut then TrimRight(s[..|s| - 1], cut) else s
  }

  function BeforeDot(s: string): string {
    if s == "" || s[0] == '.' then "" else [s[0]] + BeforeDot(s[1..])
  }

  predicate SafeComponent(upper: Upper, part: string) {
    var base := TrimRight(BeforeDot(upper(part)), {' '});
    && TrimRight(part, {' ', '.'}) == part
    && (forall c <- part :: c !in FORBIDDEN && c >= ' ')
    && base !in DEVICES
    && (HasPrefix(base, "COM") || HasPrefix(base, "LPT") ==> base[3..] !in PORTS)
  }

  // ---------------------------------------------------------------- what a safe component is

  predicate DeviceName(d: string) {
    || d in ["CON", "PRN", "AUX", "NUL", "CONIN$", "CONOUT$"]
    || (|d| > 3 && d[..3] in ["COM", "LPT"]
        && d[3..] in ["1", "2", "3", "4", "5", "6", "7", "8", "9",
                      ['\U{C2}', '\U{B9}'], ['\U{C2}', '\U{B2}'], ['\U{C2}', '\U{B3}']])
  }

  /** The name, any blanks, and perhaps an extension. */
  predicate Spells(text: string, name: string, blanks: string, extension: string) {
    && text == name + (blanks + extension)
    && (forall c <- blanks :: c == ' ') && (extension == "" || extension[0] == '.')
  }

  ghost predicate Means(text: string, name: string) {
    exists blanks, extension :: Spells(text, name, blanks, extension)
  }

  lemma {:induction false} TrimmedRest(s: string, cut: set<char>)
    ensures TrimRight(s, cut) <= s && forall c <- s[|TrimRight(s, cut)|..] :: c in cut
    ensures TrimRight(s, cut) != "" ==> TrimRight(s, cut)[|TrimRight(s, cut)| - 1] !in cut
  {
    if s != "" && s[|s| - 1] in cut {
      TrimmedRest(s[..|s| - 1], cut);
      var n := |TrimRight(s, cut)|;
      assert s[n..] == s[..|s| - 1][n..] + [s[|s| - 1]];
    }
  }

  lemma {:induction false} TrimsBack(s: string, tail: string, cut: set<char>)
    requires (forall c <- tail :: c in cut) && (s == "" || s[|s| - 1] !in cut)
    ensures TrimRight(s + tail, cut) == s
    decreases |tail|
  {
    if tail == "" {
      assert s + tail == s;
    } else {
      var less := tail[..|tail| - 1];
      assert forall c <- less :: c in tail;
      assert (s + tail)[..|s + tail| - 1] == s + less && (s + tail)[|s + tail| - 1] == tail[|tail| - 1];
      TrimsBack(s, less, cut);
    }
  }

  lemma {:induction false} DotRest(s: string)
    ensures BeforeDot(s) <= s && '.' !in BeforeDot(s)
    ensures |BeforeDot(s)| < |s| ==> s[|BeforeDot(s)|] == '.'
  {
    if s != "" && s[0] != '.' {
      DotRest(s[1..]);
      assert s == [s[0]] + s[1..];
    }
  }

  lemma {:induction false} DotBack(s: string, extension: string)
    requires '.' !in s && (extension == "" || extension[0] == '.')
    ensures BeforeDot(s + extension) == s
  {
    if s == "" {
      assert s + extension == extension;
    } else {
      assert (s + extension)[1..] == s[1..] + extension;
      DotBack(s[1..], extension);
    }
  }

  lemma MeansIff(text: string, name: string)
    requires name != "" && '.' !in name && name[|name| - 1] != ' '
    ensures TrimRight(BeforeDot(text), {' '}) == name <==> Means(text, name)
  {
    var base := BeforeDot(text);
    if TrimRight(base, {' '}) == name {
      DotRest(text);
      TrimmedRest(base, {' '});
      assert text == base + text[|base|..] && base == name + base[|name|..];
      Regroup(name, base[|name|..], text[|base|..]);
      assert Spells(text, name, base[|name|..], text[|base|..]);
    }
    if Means(text, name) {
      var blanks, extension :| Spells(text, name, blanks, extension);
      Regroup(name, blanks, extension);
      DotBack(name + blanks, extension);
      TrimsBack(name, blanks, {' '});
    }
  }

  lemma DeviceShape(d: string)
    requires DeviceName(d)
    ensures d != "" && '.' !in d && d[|d| - 1] != ' '
  {
    if |d| > 3 && d[..3] in ["COM", "LPT"] {
      assert d == d[..3] + d[3..] && d[|d| - 1] == d[3..][|d[3..]| - 1];
    }
  }

  lemma DevicesIff(base: string)
    ensures DeviceName(base) <==>
              base in DEVICES || ((HasPrefix(base, "COM") || HasPrefix(base, "LPT")) && base[3..] in PORTS)
  {
  }

  /** A component is refused exactly when it ends in a blank or a dot, holds a forbidden or a
      control character, or is a device's name in any case, with blanks and an extension. */
  lemma SafeComponentIff(upper: Upper, part: string)
    ensures SafeComponent(upper, part) <==>
              && (part == "" || part[|part| - 1] !in [' ', '.'])
              && (forall c <- part :: c as int >= 32 && c !in ['<', '>', ':', '"', '\\', '|', '?', '*'])
              && forall d | DeviceName(d) :: !Means(upper(part), d)
  {
    var base := TrimRight(BeforeDot(upper(part)), {' '});
    assert part == "" || part[|part| - 1] !in {' ', '.'} <==> TrimRight(part, {' ', '.'}) == part by {
      TrimmedRest(part, {' ', '.'});
    }
    DevicesIff(base);
    forall d | DeviceName(d) ensures base == d <==> Means(upper(part), d) {
      DeviceShape(d);
      MeansIff(upper(part), d);
    }
  }

  predicate SafeWindowsPath(upper: Upper, path: string) {
    forall part <- Split(path) :: SafeComponent(upper, part)
  }

  /** A file's own path or one of its ancestors. */
  predicate Names(path: string, name: string) {
    name == path || Ancestor(name, path)
  }

  predicate NamedBy(files: seq<File>, name: string) {
    exists f <- files :: Names(f.path, name)
  }

  predicate FileAllowed(upper: Upper, f: File) {
    f.link == "" && SafePath(f.path) && SafeWindowsPath(upper, f.path)
  }

  /** Upper-casing never confuses two names of the tree. */
  ghost predicate NoAliases(upper: Upper, files: seq<File>) {
    forall a, b | NamedBy(files, a) && NamedBy(files, b) && upper(a) == upper(b) :: a == b
  }

  /** `names` records the upper-cased form of exactly these names, without a clash. */
  ghost predicate Recorded(upper: Upper, names: map<string, string>, known: iset<string>) {
    && (forall name <- known :: upper(name) in names && names[upper(name)] == name)
    && (forall key <- names :: names[key] in known && upper(names[key]) == key)
  }

  ghost function Known(files: seq<File>): iset<string> {
    iset name | NamedBy(files, name)
  }

  /** The names of one path from itself up to a depth. */
  ghost function Upwards(path: string, depth: nat): iset<string> {
    iset name | Names(path, name) && |Split(name)| > depth
  }

  /** A new name differs from a known one only in case. */
  ghost predicate Clashes(upper: Upper, known: iset<string>, path: string) {
    exists a, b | a in known + Upwards(path, 0) && b in Upwards(path, 0) :: a != b && upper(a) == upper(b)
  }

  method ValidateWindowsTree(upper: Upper, files: seq<File>) returns (ok: bool)
    ensures ok <==> (forall f <- files :: FileAllowed(upper, f)) && NoAliases(upper, files)
    ensures ok ==> forall f <- files ::
                     f.link == "" && SafePath(f.path) && forall part <- Split(f.path) :: SafeComponent(upper, part)
  {
    var names: map<string, string> := map[];
    for i := 0 to |files|
      invariant forall k | 0 <= k < i :: FileAllowed(upper, files[k])
      invariant Recorded(upper, names, Known(files[..i]))
    {
      if !FileAllowed(upper, files[i]) {
        return false;
      }
      var clash;
      clash, names := RecordNames(upper, files[i].path, names, Known(files[..i]));
      if clash {
        ClashIsAlias(upper, files, i);
        return false;
      }
      KnownOneMore(files, i);
    }
    assert files[..|files|] == files;
    RecordedHasNoAliases(upper, names, files);
    return true;
  }

  /** What `Validate` demands of a manifest for its own platform. */
  ghost predicate AcceptedFor(upper: Upper, m: Manifest) {
    && Accepted(m)
    && (m.core.os == "windows" ==>
          (forall f <- m.core.files :: FileAllowed(upper, f)) && NoAliases(upper, m.core.files))
  }

  /** The whole of `Validate` on a host other than Windows. */
  method ValidateManifest(upper: Upper, m: Manifest) returns (ok: bool)
    ensures ok <==> AcceptedFor(upper, m)
  {
    if m.core.os == "windows" {
      ok := ValidateWindowsTree(upper, m.core.files);
      if !ok {
        return;
      }
    }
    ok := Validate(m);
  }

  /** The inner loop from a path up to the root. */
  method RecordNames(upper: Upper, path: string, names: map<string, string>, ghost known: iset<string>)
      returns (clash: bool, after: map<string, string>)
    requires SafePath(path) && Recorded(upper, names, known)
    ensures !clash ==> Recorded(upper, after, known + Upwards(path, 0))
    ensures clash ==> Clashes(upper, known, path)
  {
    after := names;
    var name := path;
    ghost var depth := |Split(path)|;
    assert Split(path)[..depth] == Split(path);
    UpwardsNone(path);
    while name != "."
      invariant 0 <= depth <= |Split(path)|
      invariant name == "." <==> depth == 0
      invariant depth > 0 ==> SafePath(name) && Split(name) == Split(path)[..depth]
      invariant Recorded(upper, after, known + Upwards(path, depth))
      decreases depth
    {
      var key := upper(name);
      UpwardsOneMore(path, depth, name);
      if key in after && after[key] != name {
        assert after[key] in known + Upwards(path, depth) && name in Upwards(path, 0);
        return true, after;
      }
      after := after[key := name];
      DirOfSafe(name);
      name := Dir(name);
      depth := depth - 1;
      DotIsUnsafe(name);
    }
    clash := false;
  }

  lemma UpwardsNone(path: string)
    ensures Upwards(path, |Split(path)|) == iset{}
  {
  }

  lemma UpwardsOneMore(path: string, depth: nat, name: string)
    requires 0 < depth <= |Split(path)| && Split(name) == Split(path)[..depth]
    ensures Upwards(path, depth - 1) == Upwards(path, depth) + iset{name}
  {
    if depth == |Split(path)| {
      SplitInjective(name, path);
    }
    forall other | other in Upwards(path, depth - 1) && |Split(other)| == depth ensures other == name {
      SplitInjective(other, name);
    }
  }

  lemma KnownOneMore(files: seq<File>, i: nat)
    requires i < |files| && SafePath(files[i].path)
    ensures Known(files[..i + 1]) == Known(files[..i]) + Upwards(files[i].path, 0)
  {
    assert files[..i + 1] == files[..i] + [files[i]];
  }

  lemma ClashIsAlias(upper: Upper, files: seq<File>, i: nat)
    requires i < |files|
    requires Clashes(upper, Known(files[..i]), files[i].path)
    ensures !NoAliases(upper, files)
  {
    var a, b :| a in Known(files[..i]) + Upwards(files[i].path, 0) && b in Upwards(files[i].path, 0) &&
      a != b && upper(a) == upper(b);
    assert NamedBy(files, b);
    assert NamedBy(files, a);
  }

  lemma RecordedHasNoAliases(upper: Upper, names: map<string, string>, files: seq<File>)
    requires Recorded(upper, names, Known(files))
    ensures NoAliases(upper, files)
  {
    forall a, b | NamedBy(files, a) && NamedBy(files, b) && upper(a) == upper(b) ensures a == b {
      assert a in Known(files) && b in Known(files);
    }
  }
}
