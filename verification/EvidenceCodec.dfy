/** Evidence manifests as JSON: what is written, what is accepted back, and what a digest covers; and what
    makes a record valid in the first place. */
module EvidenceCodec {
  import opened Options
  import opened Sorting
  import opened Narrowing
  import EvidenceGraph

  // ---------- JSON values ----------

  /** A number that does not fit 64 bits is read as a floating-point one. */
  datatype Json =
    | Null
    | Bool(bit: bool)
    | Number(num: Wide)
    | Float
    | Binary
    | Text(text: string)
    | List(items: seq<Json>)
    | Object(fields: map<string, Json>)

  datatype Field =
    | Root | Path | Kind | Size | Sha256 | Executable | SymlinkTarget | ResolvedPath
    | Version | ToolIdentity | Argv | Cwd | Environment | Parameters | Inputs
    | Id | TheAction | Outputs | Metadata | Parents | Producer | Complete
    | Type | SchemaVersion | Nodes | Roots | Value

  function Name(f: Field): (s: string)
    ensures |s| > 1
  {
    match f
    case Root => "root"
    case Path => "path"
    case Kind => "kind"
    case Size => "size"
    case Sha256 => "sha256"
    case Executable => "executable"
    case SymlinkTarget => "symlinkTarget"
    case ResolvedPath => "resolvedPath"
    case Version => "version"
    case ToolIdentity => "toolIdentity"
    case Argv => "argv"
    case Cwd => "cwd"
    case Environment => "environment"
    case Parameters => "parameters"
    case Inputs => "inputs"
    case Id => "id"
    case TheAction => "action"
    case Outputs => "outputs"
    case Metadata => "metadata"
    case Parents => "parents"
    case Producer => "producer"
    case Complete => "complete"
    case Type => "type"
    case SchemaVersion => "schemaVersion"
    case Nodes => "nodes"
    case Roots => "roots"
    case Value => "value"
  }

  /** Two field names are told apart by their length and first two letters. */
  function Look(f: Field): (nat, char, char) {
    match f
    case Root => (4, 'r', 'o')
    case Path => (4, 'p', 'a')
    case Kind => (4, 'k', 'i')
    case Size => (4, 's', 'i')
    case Sha256 => (6, 's', 'h')
    case Executable => (10, 'e', 'x')
    case SymlinkTarget => (13, 's', 'y')
    case ResolvedPath => (12, 'r', 'e')
    case Version => (7, 'v', 'e')
    case ToolIdentity => (12, 't', 'o')
    case Argv => (4, 'a', 'r')
    case Cwd => (3, 'c', 'w')
    case Environment => (11, 'e', 'n')
    case Parameters => (10, 'p', 'a')
    case Inputs => (6, 'i', 'n')
    case Id => (2, 'i', 'd')
    case TheAction => (6, 'a', 'c')
    case Outputs => (7, 'o', 'u')
    case Metadata => (8, 'm', 'e')
    case Parents => (7, 'p', 'a')
    case Producer => (8, 'p', 'r')
    case Complete => (8, 'c', 'o')
    case Type => (4, 't', 'y')
    case SchemaVersion => (13, 's', 'c')
    case Nodes => (5, 'n', 'o')
    case Roots => (5, 'r', 'o')
    case Value => (5, 'v', 'a')
  }

  lemma NameLooks(f: Field)
    ensures var s := Name(f); (|s|, s[0], s[1]) == Look(f)
  {
  }

  lemma LooksDiffer(f: Field, g: Field)
    requires Look(f) == Look(g)
    ensures f == g
  {
  }

  lemma NamesDiffer()
    ensures forall f, g :: Name(f) == Name(g) ==> f == g
  {
    hide Name, Look;
    forall f, g | Name(f) == Name(g)
      ensures f == g
    {
      NameLooks(f);
      NameLooks(g);
      LooksDiffer(f, g);
    }
  }

  function Named(m: map<Field, Json>): Json {
    NamesDiffer();
    Object(map f | f in m :: Name(f) := m[f])
  }

  /** Exactly these fields, no more and no fewer. */
  predicate ExactKeys(j: Json, keys: set<Field>) {
    j.Object? && j.fields.Keys == set f | f in keys :: Name(f)
  }

  function At(j: Json, f: Field): Json
    requires j.Object? && Name(f) in j.fields
  {
    j.fields[Name(f)]
  }

  // ---------- Evidence ----------

  const SCHEMA_VERSION: Int32 := 1

  datatype FileEntry = FileEntry(root: string, path: string, kind: string, size: UInt64, sha256: string,
                                 executable: bool, symlinkTarget: string, resolvedPath: string)

  datatype Action = Action(kind: string, version: string, toolIdentity: string, argv: seq<string>, cwd: string,
                           environment: map<string, string>, parameters: Json, inputs: seq<FileEntry>)

  datatype Record = Record(id: string, kind: string, action: Action, outputs: seq<FileEntry>, metadata: seq<FileEntry>,
                           parents: seq<string>, producer: map<string, string>, complete: bool)

  datatype Manifest = Manifest(schemaVersion: Int32, nodes: seq<Record>, roots: seq<string>)

  // ---------- What is valid ----------

  predicate CleanString(s: string) {
    forall i :: 0 <= i < |s| ==> s[i] as int >= 32 && s[i] as int != 127
  }

  predicate RootName(s: string) {
    s != "" && forall i :: 0 <= i < |s| ==> 'a' <= s[i] <= 'z' || 'A' <= s[i] <= 'Z' || '0' <= s[i] <= '9' || s[i] == '-' || s[i] == '_'
  }

  predicate ComponentOk(c: string) {
    c != "" && c[|c| - 1] != '.' && c[|c| - 1] != ' '
  }

  /** Whether every component is portable, `c` being what has been read of the current one. */
  predicate ComponentsOk(c: string, rest: string)
    decreases |rest|
  {
    if rest == "" then ComponentOk(c)
    else if rest[0] == '/' then ComponentOk(c) && ComponentsOk("", rest[1..])
    else ComponentsOk(c + [rest[0]], rest[1..])
  }

  predicate RelativePath(s: string) {
    s != "" && CleanString(s) && s[0] != '/' && s[|s| - 1] != '/' && '\\' !in s && ':' !in s && ComponentsOk("", s)
  }

  predicate ValidDigest(s: string) {
    |s| == 64 && forall i :: 0 <= i < 64 ==> '0' <= s[i] <= '9' || 'a' <= s[i] <= 'f'
  }

  function Folded(s: string): string {
    seq(|s|, i requires 0 <= i < |s| => if 'A' <= s[i] <= 'Z' then (s[i] as int + 32) as char else s[i])
  }

  function Identity(f: FileEntry): string {
    Folded(f.root + "/" + f.path)
  }

  predicate ValidFile(f: FileEntry) {
    && RootName(f.root) && RelativePath(f.path) && ValidDigest(f.sha256)
    && ((f.kind == "file" && f.symlinkTarget == "" && f.resolvedPath == "")
        || (f.kind == "symlink" && f.symlinkTarget != "" && CleanString(f.symlinkTarget) && f.symlinkTarget[0] != '/'
            && '\\' !in f.symlinkTarget && RelativePath(f.resolvedPath)))
  }

  predicate ValidFiles(files: seq<FileEntry>) {
    files == [] ||
    (ValidFile(files[0]) && (forall g :: g in files[1..] ==> Identity(g) != Identity(files[0])) && ValidFiles(files[1..]))
  }

  method CheckFiles(files: seq<FileEntry>) returns (ok: bool)
    ensures ok == ValidFiles(files)
  {
    var paths: set<string> := {};
    var i := 0;
    while i < |files|
      invariant i <= |files|
      invariant ValidFiles(files) <==> ValidFiles(files[i..]) && forall g :: g in files[i..] ==> Identity(g) !in paths
    {
      var rest := files[i..];
      assert rest[0] == files[i] && rest[1..] == files[i + 1..] && forall g :: g in rest <==> g == rest[0] || g in rest[1..];
      if !ValidFile(files[i]) || Identity(files[i]) in paths { return false; }
      paths := paths + {Identity(files[i])};
      i := i + 1;
    }
    return true;
  }

  /** Floating-point numbers are kept out, since their encoding is not portable. */
  predicate ValidJsonValue(j: Json) {
    match j
    case Float => false
    case Binary => false
    case List(items) => forall i :: 0 <= i < |items| ==> ValidJsonValue(items[i])
    case Object(fields) => forall k :: k in fields ==> ValidJsonValue(fields[k])
    case _ => true
  }

  predicate ValidAction(a: Action) {
    && a.kind != "" && a.version != "" && a.toolIdentity != "" && CleanString(a.kind) && CleanString(a.version)
    && CleanString(a.toolIdentity) && CleanString(a.cwd) && a.parameters.Object? && ValidJsonValue(a.parameters)
    && ValidFiles(a.inputs)
    && (forall i :: 0 <= i < |a.argv| ==> '\0' !in a.argv[i])
    && (forall k :: k in a.environment ==> k != "" && '=' !in k && CleanString(k) && '\0' !in a.environment[k])
  }

  predicate ValidParents(parents: seq<string>) {
    NoRepeats(parents) && forall p :: p in parents ==> ValidDigest(p)
  }

  predicate ValidRecord(r: Record) {
    && (r.kind == "build-stage" || r.kind == "audit" || r.kind == "cache" || r.kind == "distribution")
    && ValidAction(r.action) && ValidFiles(r.outputs) && ValidFiles(r.metadata) && ValidParents(r.parents)
    && forall k :: k in r.producer ==> k != "" && CleanString(k) && CleanString(r.producer[k])
  }

  // ---------- Writing ----------

  predicate FileLess(a: FileEntry, b: FileEntry) {
    Less(a.root, b.root) || (a.root == b.root && Less(a.path, b.path))
  }

  function FileJson(f: FileEntry): Json {
    Named(map[Root := Text(f.root), Path := Text(f.path), Kind := Text(f.kind), Size := Number(f.size),
              Sha256 := Text(f.sha256), Executable := Bool(f.executable), SymlinkTarget := Text(f.symlinkTarget),
              ResolvedPath := Text(f.resolvedPath)])
  }

  function FileList(files: seq<FileEntry>): Json {
    List(seq(|files|, i requires 0 <= i < |files| => FileJson(files[i])))
  }

  function FilesJson(files: seq<FileEntry>): Json {
    FileList(Sort(FileLess, files))
  }

  function Texts(ss: seq<string>): Json {
    List(seq(|ss|, i requires 0 <= i < |ss| => Text(ss[i])))
  }

  function Table(m: map<string, string>): Json {
    Object(map k | k in m :: Text(m[k]))
  }

  function ActionJson(a: Action): Json {
    Named(map[Kind := Text(a.kind), Version := Text(a.version), ToolIdentity := Text(a.toolIdentity), Argv := Texts(a.argv),
              Cwd := Text(a.cwd), Environment := Table(a.environment), Parameters := a.parameters, Inputs := FilesJson(a.inputs)])
  }

  function RecordFields(r: Record): map<Field, Json> {
    map[Kind := Text(r.kind), TheAction := ActionJson(r.action), Outputs := FilesJson(r.outputs),
        Metadata := FilesJson(r.metadata), Parents := Texts(Sort(Less, r.parents)), Producer := Table(r.producer),
        Complete := Bool(r.complete)]
  }

  function RecordJson(r: Record): Json {
    Named(RecordFields(r)[Id := Text(r.id)])
  }

  predicate RecordLess(a: Record, b: Record) {
    Less(a.id, b.id)
  }

  function RecordList(nodes: seq<Record>): (j: Json)
    ensures j.List?
  {
    List(seq(|nodes|, i requires 0 <= i < |nodes| => RecordJson(nodes[i])))
  }

  function ToJson(m: Manifest): Json {
    Named(map[Type := Text("topo.artifact-evidence"), SchemaVersion := Number(m.schemaVersion),
              Nodes := RecordList(Sort(RecordLess, m.nodes)), Roots := Texts(Sort(Less, m.roots))])
  }

  // ---------- Digests ----------

  /** Hashes the text of a value; there is none for a value that has no text. */
  type Digest = Json -> Option<string>

  function Typed(name: string, value: Json): Json {
    Named(map[Type := Text(name), SchemaVersion := Number(SCHEMA_VERSION), Value := value])
  }

  function RecordDigest(digest: Digest, r: Record): Option<string> {
    if ValidRecord(r) then digest(Typed("topo.record", Named(RecordFields(r)))) else None
  }

  // ---------- The graph check ----------

  function Skeleton(digest: Digest, r: Record): EvidenceGraph.Node<string> {
    EvidenceGraph.Node(r.id, r.parents, ValidDigest(r.id) && RecordDigest(digest, r) == Some(r.id))
  }

  function Skeletons(digest: Digest, nodes: seq<Record>): seq<EvidenceGraph.Node<string>> {
    seq(|nodes|, i requires 0 <= i < |nodes| => Skeleton(digest, nodes[i]))
  }

  function Graph(digest: Digest, m: Manifest): EvidenceGraph.Manifest<string> {
    EvidenceGraph.Manifest(m.schemaVersion == SCHEMA_VERSION, Skeletons(digest, m.nodes), m.roots)
  }

  predicate Accepted(digest: Digest, m: Manifest) {
    EvidenceGraph.GraphValid(Graph(digest, m))
  }

  function ManifestDigest(digest: Digest, m: Manifest): Option<string> {
    if Accepted(digest, m) then digest(Typed("topo.manifest", ToJson(m))) else None
  }

  // ---------- Reading ----------

  const FILE_KEYS := {Root, Path, Kind, Size, Sha256, Executable, SymlinkTarget, ResolvedPath}
  const ACTION_KEYS := {Kind, Version, ToolIdentity, Argv, Cwd, Environment, Parameters, Inputs}
  const RECORD_KEYS := {Id, Kind, TheAction, Outputs, Metadata, Parents, Producer, Complete}
  const MANIFEST_KEYS := {Type, SchemaVersion, Nodes, Roots}

  function ParseFile(j: Json): Option<FileEntry> {
    if !ExactKeys(j, FILE_KEYS) then None
    else
      var root, path, kind, size := At(j, Root), At(j, Path), At(j, Kind), At(j, Size);
      var sha256, executable, target, resolved := At(j, Sha256), At(j, Executable), At(j, SymlinkTarget), At(j, ResolvedPath);
      if !(size.Number? && size.num >= 0 && executable.Bool? && root.Text? && path.Text? && kind.Text? && sha256.Text? && target.Text? && resolved.Text?) then None
      else
        var f := FileEntry(root.text, path.text, kind.text, size.num, sha256.text, executable.bit, target.text, resolved.text);
        if ValidFile(f) then Some(f) else None
  }

  function ParseEach(items: seq<Json>): Option<seq<FileEntry>> {
    if items == [] then Some([])
    else
      var before, f := ParseEach(items[..|items| - 1]), ParseFile(items[|items| - 1]);
      if before.Some? && f.Some? then Some(before.value + [f.value]) else None
  }

  function ParseFiles(j: Json): Option<seq<FileEntry>> {
    if !j.List? then None
    else
      var files := ParseEach(j.items);
      if files.Some? && ValidFiles(files.value) then files else None
  }

  function ParseTexts(j: Json): Option<seq<string>> {
    if j.List? && forall i :: 0 <= i < |j.items| ==> j.items[i].Text?
    then Some(seq(|j.items|, i requires 0 <= i < |j.items| => j.items[i].text)) else None
  }

  function ParseTable(j: Json): Option<map<string, string>> {
    if j.Object? && forall k :: k in j.fields ==> j.fields[k].Text?
    then Some(map k | k in j.fields :: j.fields[k].text) else None
  }

  function ParseAction(j: Json): Option<Action> {
    if !ExactKeys(j, ACTION_KEYS) then None
    else
      var kind, version, tool, cwd := At(j, Kind), At(j, Version), At(j, ToolIdentity), At(j, Cwd);
      var argv, env, inputs := ParseTexts(At(j, Argv)), ParseTable(At(j, Environment)), ParseFiles(At(j, Inputs));
      if !(kind.Text? && version.Text? && tool.Text? && cwd.Text? && argv.Some? && env.Some? && inputs.Some?) then None
      else
        var a := Action(kind.text, version.text, tool.text, argv.value, cwd.text, env.value, At(j, Parameters), inputs.value);
        if ValidAction(a) then Some(a) else None
  }

  function ParseRecord(j: Json): Option<Record> {
    if !ExactKeys(j, RECORD_KEYS) then None
    else
      var id, kind, complete, action := At(j, Id), At(j, Kind), At(j, Complete), ParseAction(At(j, TheAction));
      var outputs, metadata := ParseFiles(At(j, Outputs)), ParseFiles(At(j, Metadata));
      var parents, producer := ParseTexts(At(j, Parents)), ParseTable(At(j, Producer));
      if id.Text? && kind.Text? && complete.Bool? && action.Some? && outputs.Some? && metadata.Some? && parents.Some? && producer.Some?
      then Some(Record(id.text, kind.text, action.value, outputs.value, metadata.value, parents.value, producer.value, complete.bit))
      else None
  }

  function ParseRecords(items: seq<Json>): Option<seq<Record>> {
    if items == [] then Some([])
    else
      var before, r := ParseRecords(items[..|items| - 1]), ParseRecord(items[|items| - 1]);
      if before.Some? && r.Some? then Some(before.value + [r.value]) else None
  }

  function FromJson(digest: Digest, j: Json): Option<Manifest> {
    if !ExactKeys(j, MANIFEST_KEYS) then None
    else
      var version, nodes, roots := At(j, SchemaVersion), At(j, Nodes), ParseTexts(At(j, Roots));
      if !(At(j, Type) == Text("topo.artifact-evidence") && version.Number? && nodes.List? && roots.Some?) then None
      else
        var records := ParseRecords(nodes.items);
          if records.None? then None
        else
          var m := Manifest(Narrow(version.num), records.value, roots.value);
          if Accepted(digest, m) then Some(m) else None
  }

  method ReadFiles(j: Json) returns (files: Option<seq<FileEntry>>)
    ensures files == ParseFiles(j)
  {
    if !j.List? { return None; }
    var result: seq<FileEntry> := [];
    var i := 0;
    while i < |j.items|
      invariant i <= |j.items| && ParseEach(j.items[..i]) == Some(result)
    {
      assert j.items[..i + 1][..i] == j.items[..i];
      var f := ParseFile(j.items[i]);
      if f.None? {
        NoneAfter(j.items, i + 1);
        return None;
      }
      result := result + [f.value];
      i := i + 1;
    }
    assert j.items[..i] == j.items;
    var ok := CheckFiles(result);
    return if ok then Some(result) else None;
  }

  lemma {:induction false} NoneAfter(items: seq<Json>, n: nat)
    requires n <= |items| && ParseEach(items[..n]).None?
    ensures ParseEach(items).None?
    decreases |items|
  {
    if n < |items| {
      assert items[..|items| - 1][..n] == items[..n];
      NoneAfter(items[..|items| - 1], n);
    } else {
      assert items[..n] == items;
    }
  }

  method ReadManifest(digest: Digest, j: Json) returns (m: Option<Manifest>)
    ensures m == FromJson(digest, j)
  {
    hide ParseRecord, ParseTexts, EvidenceGraph.GraphValid;
    if !ExactKeys(j, MANIFEST_KEYS) { return None; }
    var version, nodes, roots := At(j, SchemaVersion), At(j, Nodes), ParseTexts(At(j, Roots));
    if At(j, Type) != Text("topo.artifact-evidence") || !version.Number? || !nodes.List? || roots.None? { return None; }
    var records: seq<Record> := [];
    var i := 0;
    while i < |nodes.items|
      invariant i <= |nodes.items| && ParseRecords(nodes.items[..i]) == Some(records)
    {
      assert nodes.items[..i + 1][..i] == nodes.items[..i];
      var r := ParseRecord(nodes.items[i]);
      if r.None? {
        NoRecordsAfter(nodes.items, i + 1);
        return None;
      }
      records := records + [r.value];
      i := i + 1;
    }
    assert nodes.items[..i] == nodes.items;
    var result := Manifest(Narrow(version.num), records, roots.value);
    var ok, error := EvidenceGraph.CheckGraph(Graph(digest, result));
    return if ok then Some(result) else None;
  }

  lemma {:induction false} NoRecordsAfter(items: seq<Json>, n: nat)
    requires n <= |items| && ParseRecords(items[..n]).None?
    ensures ParseRecords(items).None?
    decreases |items|
  {
    if n < |items| {
      assert items[..|items| - 1][..n] == items[..n];
      NoRecordsAfter(items[..|items| - 1], n);
    } else {
      assert items[..n] == items;
    }
  }
}
