/** The shared state of one project's `.harnest` directory: environment
    directories, lease directories, publication pointers and the editor link.
    Every Harnest command of the project reads and writes this state. */
module EnvironmentModel {
  import opened Basics

  type Lease = nat

  datatype Family = AgentFamily | EvalFamily

  datatype Profile = Runtime | Compile | Development | Eval

  function FamilyOf(p: Profile): Family {
    if p.Development? || p.Eval? then EvalFamily else AgentFamily
  }

  /** What one profile depends on: digests of its authored inputs and of its committed lock. */
  datatype Reading = Reading(authored: int, committed: int)

  datatype Fingerprint = Fingerprint(profile: Profile, reading: Reading)

  datatype Inputs = Inputs(runtime: Reading, compile: Reading, development: Reading, eval: Reading)
  {
    function Of(p: Profile): Fingerprint {
      match p
      case Runtime => Fingerprint(p, runtime)
      case Compile => Fingerprint(p, compile)
      case Development => Fingerprint(p, development)
      case Eval => Fingerprint(p, eval)
    }

    /** Another lock is committed for one profile. */
    function Relocked(p: Profile, committed: int): Inputs {
      var reading := Of(p).reading.(committed := committed);
      match p
      case Runtime => this.(runtime := reading)
      case Compile => this.(compile := reading)
      case Development => this.(development := reading)
      case Eval => this.(eval := reading)
    }
  }

  /** A directory name below `environments`, already classified: one of the four
      reusable slots, a legacy sixteen-digit name, or a name Harnest does not manage. */
  datatype Name =
    | Slot(family: Family, next: bool)
    | Legacy(digits: string)
    | Unmanaged(text: string)
  {
    predicate Managed() { !Unmanaged? }
  }

  datatype StateFile = AgentState | CompileState | DevelopmentState | EvalState

  const ALL_STATES: set<StateFile> := {AgentState, CompileState, DevelopmentState, EvalState}

  /** What a read of a publication pointer yields. `Malformed` stands for any text
      that does not name a managed directory directly below `environments`. */
  datatype Document =
    | Unreadable
    | Malformed
    | Published(fingerprint: Fingerprint, directory: Name)
  {
    function Directory(): Option<Name> {
      if Published? && directory.Managed() then Some(directory) else None
    }
  }

  /** `Partial` stands for any contents an unfinished installer or removal leaves behind. */
  datatype Contents = Partial(residue: nat) | Complete(built: Fingerprint)

  /** A symbolic link or plain file below `environments` belongs to the user. */
  datatype Entry = Directory(contents: Contents) | UserOwned

  /** `Blocked`: the lease path exists but is not a readable directory. */
  datatype LeasePath = LeaseDirectory(files: set<Lease>) | Blocked

  datatype EditorLink = NoLink | Linked(target: Name) | Foreign

  /** What a lease protected at the moment its file was created. */
  datatype Grant = Grant(name: Name, held: Option<Entry>)

  datatype Shared = Shared(
    lock: bool,
    entries: map<Name, Entry>,
    leases: map<Name, LeasePath>,
    states: map<StateFile, Document>,
    link: EditorLink,
    inputs: Inputs,
    grants: map<Lease, Grant>)

  function SlotDirectory(family: Family): string {
    match family case AgentFamily => "agent" case EvalFamily => "eval"
  }

  predicate LegacyDigits(text: string) {
    |text| == 16 && forall c <- text :: 'a' <= c <= 'f' || '0' <= c <= '9'
  }

  /** The text test of one slot name and its alternate. */
  predicate SlotMatchesText(slot: string, name: string) {
    name == slot || name == slot + "-next"
  }

  predicate ManagedText(name: string) {
    SlotMatchesText("agent", name) || SlotMatchesText("eval", name) || LegacyDigits(name)
  }

  function Classify(text: string): Name {
    if text == "agent" then Slot(AgentFamily, false)
    else if text == "agent-next" then Slot(AgentFamily, true)
    else if text == "eval" then Slot(EvalFamily, false)
    else if text == "eval-next" then Slot(EvalFamily, true)
    else if LegacyDigits(text) then Legacy(text)
    else Unmanaged(text)
  }

  function Spelling(name: Name): string {
    match name
    case Slot(family, next) => SlotDirectory(family) + (if next then "-next" else "")
    case Legacy(digits) => digits
    case Unmanaged(text) => text
  }

  /** The classified names are a faithful reading of the text tests. */
  lemma ClassifyAgrees(text: string)
    ensures Spelling(Classify(text)) == text
    ensures Classify(text).Managed() <==> ManagedText(text)
    ensures forall family :: SlotMatches(family, Classify(text)) <==> SlotMatchesText(SlotDirectory(family), text)
    ensures Classify(text).Legacy? <==> |text| == 16 && forall c <- text :: c in "0123456789abcdef"
  {
    assert "agent" + "-next" == "agent-next" && "eval" + "-next" == "eval-next";
    assert "agent" + "" == "agent" && "eval" + "" == "eval";
  }

  predicate SlotMatches(family: Family, name: Name) {
    name.Slot? && name.family == family
  }

  function StateOf(family: Family): StateFile {
    match family case AgentFamily => AgentState case EvalFamily => EvalState
  }

  /** The pointers migration keeps: a slot of the file's own family. */
  predicate CurrentPointer(file: StateFile, document: Document) {
    match document.Directory()
    case None => false
    case Some(name) =>
      (file == AgentState && SlotMatches(AgentFamily, name)) ||
      (file == EvalState && SlotMatches(EvalFamily, name))
  }

  /** What migration keeps is exactly what a publication can have written. */
  lemma CurrentIffPublished(file: StateFile, document: Document)
    ensures CurrentPointer(file, document) <==>
              exists family, next, fingerprint ::
                file == StateOf(family) && document == Published(fingerprint, Slot(family, next))
  {
    if CurrentPointer(file, document) {
      var family := if file == AgentState then AgentFamily else EvalFamily;
      assert file == StateOf(family);
      assert document == Published(document.fingerprint, Slot(family, document.directory.next));
    }
  }

  function LeaseFiles(leases: map<Name, LeasePath>, name: Name): set<Lease> {
    if name in leases && leases[name].LeaseDirectory? then leases[name].files else {}
  }

  /** No lease file is visible; a blocked path counts as leased. */
  predicate NoLeases(leases: map<Name, LeasePath>, name: Name) {
    name in leases ==> leases[name] == LeaseDirectory({})
  }

  /** Only a real directory without lease files may be mutated. */
  predicate Unleased(entries: map<Name, Entry>, leases: map<Name, LeasePath>, name: Name) {
    name in entries && entries[name].Directory? && NoLeases(leases, name)
  }

  /** Where the editor link stands once a migration to the selected slot has dealt with it:
      a link to a slot of the same family or to a legacy directory leads to the selection,
      any other stays as it was. */
  predicate LinkMoved(before: EditorLink, selected: Name, after: EditorLink) {
    match before
    case Linked(Legacy(_)) => after == Linked(selected)
    case Linked(Slot(family, _)) =>
      after == if selected == Slot(family, false) || selected == Slot(family, true) then Linked(selected) else before
    case _ => after == before
  }

  /** The link names a directory that migration removes. */
  predicate LinksLegacy(link: EditorLink) {
    link.Linked? && link.target.Legacy?
  }

  function LinkedName(link: EditorLink): Option<Name> {
    if link.Linked? && link.target.Managed() then Some(link.target) else None
  }
}
