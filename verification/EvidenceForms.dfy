/** The JSON that is read. */
module EvidenceForms {
  // Exactly which values are read as files, actions, records and manifests, with every field written out by its
  // name; and what the paths in them may look like.

  import opened Options
  import opened Sorting
  import opened Narrowing
  import opened EvidenceCodec
  import EvidenceRoundTrip

  // ---------- Objects ----------

  function FileObject(f: FileEntry): Json {
    Object(map["root" := Text(f.root), "path" := Text(f.path), "kind" := Text(f.kind), "size" := Number(f.size),
               "sha256" := Text(f.sha256), "executable" := Bool(f.executable), "symlinkTarget" := Text(f.symlinkTarget),
               "resolvedPath" := Text(f.resolvedPath)])
  }

  function Strings(ss: seq<string>): Json {
    List(seq(|ss|, i requires 0 <= i < |ss| => Text(ss[i])))
  }

  function Entries(m: map<string, string>): Json {
    Object(map k | k in m :: Text(m[k]))
  }

  function FileObjects(files: seq<FileEntry>): Json {
    List(seq(|files|, i requires 0 <= i < |files| => FileObject(files[i])))
  }

  function ActionObject(a: Action): Json {
    Object(map["kind" := Text(a.kind), "version" := Text(a.version), "toolIdentity" := Text(a.toolIdentity), "argv" := Strings(a.argv),
               "cwd" := Text(a.cwd), "environment" := Entries(a.environment), "parameters" := a.parameters, "inputs" := FileObjects(a.inputs)])
  }

  function RecordObject(r: Record): Json {
    Object(map["id" := Text(r.id), "kind" := Text(r.kind), "action" := ActionObject(r.action), "outputs" := FileObjects(r.outputs),
               "metadata" := FileObjects(r.metadata), "parents" := Strings(r.parents), "producer" := Entries(r.producer),
               "complete" := Bool(r.complete)])
  }

  function RecordObjects(nodes: seq<Record>): Json {
    List(seq(|nodes|, i requires 0 <= i < |nodes| => RecordObject(nodes[i])))
  }

  function ManifestObject(m: Manifest, version: Wide): Json {
    Object(map["type" := Text("topo.artifact-evidence"), "schemaVersion" := Number(version), "nodes" := RecordObjects(m.nodes),
               "roots" := Strings(m.roots)])
  }

  // ---------- Field by field ----------

  /** An object is given by its fields. */
  lemma FieldsGive(j: Json, m: map<Field, Json>)
    ensures j == Named(m) <==> ExactKeys(j, m.Keys) && forall f :: f in m ==> Name(f) in j.fields && At(j, f) == m[f]
  {
    hide Name;
    NamesDiffer();
    EvidenceRoundTrip.NamedHas(m);
    if ExactKeys(j, m.Keys) && forall f :: f in m ==> Name(f) in j.fields && At(j, f) == m[f] {
      assert j.fields == Named(m).fields;
    }
  }

  lemma Spelled1()
    ensures Name(Root) == "root" && Name(Path) == "path" && Name(Kind) == "kind" && Name(Size) == "size" && Name(Sha256) == "sha256"
  {
  }

  lemma Spelled2()
    ensures Name(Executable) == "executable" && Name(SymlinkTarget) == "symlinkTarget" && Name(ResolvedPath) == "resolvedPath"
  {
  }

  lemma Spelled3()
    ensures Name(Version) == "version" && Name(ToolIdentity) == "toolIdentity" && Name(Argv) == "argv" && Name(Cwd) == "cwd"
  {
  }

  lemma Spelled4()
    ensures Name(Environment) == "environment" && Name(Parameters) == "parameters" && Name(Inputs) == "inputs" && Name(Id) == "id"
  {
  }

  lemma Spelled5()
    ensures Name(TheAction) == "action" && Name(Outputs) == "outputs" && Name(Metadata) == "metadata" && Name(Parents) == "parents"
  {
  }

  lemma Spelled6()
    ensures Name(Producer) == "producer" && Name(Complete) == "complete" && Name(Type) == "type"
  {
  }

  lemma Spelled7()
    ensures Name(SchemaVersion) == "schemaVersion" && Name(Nodes) == "nodes" && Name(Roots) == "roots"
  {
  }

  lemma Spelled()
    ensures Name(Root) == "root" && Name(Path) == "path" && Name(Kind) == "kind" && Name(Size) == "size" && Name(Sha256) == "sha256"
    ensures Name(Executable) == "executable" && Name(SymlinkTarget) == "symlinkTarget" && Name(ResolvedPath) == "resolvedPath"
    ensures Name(Version) == "version" && Name(ToolIdentity) == "toolIdentity" && Name(Argv) == "argv" && Name(Cwd) == "cwd"
    ensures Name(Environment) == "environment" && Name(Parameters) == "parameters" && Name(Inputs) == "inputs" && Name(Id) == "id"
    ensures Name(TheAction) == "action" && Name(Outputs) == "outputs" && Name(Metadata) == "metadata" && Name(Parents) == "parents"
    ensures Name(Producer) == "producer" && Name(Complete) == "complete" && Name(Type) == "type"
    ensures Name(SchemaVersion) == "schemaVersion" && Name(Nodes) == "nodes" && Name(Roots) == "roots"
  {
    hide Name;
    Spelled1();
    Spelled2();
    Spelled3();
    Spelled4();
    Spelled5();
    Spelled6();
    Spelled7();
  }

  lemma Nothing() returns (m: map<Field, Json>)
    ensures m == map[] && Named(m) == Object(map[])
  {
    m := map[];
    assert Named(m).fields == map[];
  }

  lemma Insert(m: map<Field, Json>, f: Field, v: Json) returns (n: map<Field, Json>)
    requires f !in m
    ensures n == m[f := v] && Named(m).Object? && Named(n) == Object(Named(m).fields[Name(f) := v])
  {
    hide Name;
    n := m[f := v];
    forall g | g in m
      ensures Name(g) != Name(f)
    {
      Differ(f, g);
    }
    assert Named(n).fields == Named(m).fields[Name(f) := v];
  }

  lemma Differ(f: Field, g: Field)
    ensures Name(f) == Name(g) ==> f == g
  {
    hide Name;
    NamesDiffer();
  }

  function FileFields(f: FileEntry): map<Field, Json> {
    map[Root := Text(f.root), Path := Text(f.path), Kind := Text(f.kind), Size := Number(f.size), Sha256 := Text(f.sha256),
        Executable := Bool(f.executable), SymlinkTarget := Text(f.symlinkTarget), ResolvedPath := Text(f.resolvedPath)]
  }

  lemma FileNames(f: FileEntry)
    ensures Named(FileFields(f)) == FileObject(f) && FileFields(f).Keys == FILE_KEYS
  {
    hide Name, Named, Strings, Entries, FileObjects, ActionObject, RecordObjects;
    Spelled();
    var m := Nothing();
    m := Insert(m, Root, Text(f.root));
    m := Insert(m, Path, Text(f.path));
    m := Insert(m, Kind, Text(f.kind));
    m := Insert(m, Size, Number(f.size));
    m := Insert(m, Sha256, Text(f.sha256));
    m := Insert(m, Executable, Bool(f.executable));
    m := Insert(m, SymlinkTarget, Text(f.symlinkTarget));
    m := Insert(m, ResolvedPath, Text(f.resolvedPath));
    assert m.Keys == FILE_KEYS && m == FileFields(f);
  }

  /** A file is read from its object and from nothing else. */
  lemma FilesRead(j: Json, f: FileEntry)
    ensures ParseFile(j) == Some(f) <==> ValidFile(f) && j == FileObject(f)
  {
    hide Name, Named, ValidFile, ExactKeys, FileObject;
    FileNames(f);
    FieldsGive(j, FileFields(f));
    if ExactKeys(j, FILE_KEYS) {
      EvidenceRoundTrip.KeysAreThere(j, FILE_KEYS);
    }
  }

  lemma {:induction false} EachRead(items: seq<Json>, files: seq<FileEntry>)
    ensures ParseEach(items) == Some(files) <==> List(items) == FileObjects(files) && forall f :: f in files ==> ValidFile(f)
    decreases |items|
  {
    hide ParseFile, ValidFile, FileObject;
    if items == [] {
      assert FileObjects(files).items == items <==> files == [];
    } else if files != [] {
      var n, k := |items| - 1, |files| - 1;
      EachRead(items[..n], files[..k]);
      FilesRead(items[n], files[k]);
      assert files == files[..k] + [files[k]] && items == items[..n] + [items[n]];
      assert FileObjects(files).items == FileObjects(files[..k]).items + [FileObject(files[k])];
      if ParseEach(items) == Some(files) {
        var before := ParseEach(items[..n]).value;
        assert files[..k] == before;
      }
      if List(items) == FileObjects(files) && forall f :: f in files ==> ValidFile(f) {
        assert items[..n] == FileObjects(files[..k]).items;
        assert files[k] in files;
      }
    } else {
      assert |FileObjects(files).items| == 0;
    }
  }

  lemma FileListsRead(j: Json, files: seq<FileEntry>)
    ensures ParseFiles(j) == Some(files) <==> ValidFiles(files) && j == FileObjects(files)
  {
    hide ParseEach, ValidFiles, FileObject;
    if j.List? {
      EachRead(j.items, files);
      EvidenceRoundTrip.ValidFilesMeans(files);
    }
  }

  lemma StringsRead(j: Json, ss: seq<string>)
    ensures ParseTexts(j) == Some(ss) <==> j == Strings(ss)
  {
    if ParseTexts(j) == Some(ss) {
      assert j.items == Strings(ss).items;
    }
    if j == Strings(ss) { assert ParseTexts(j).value == ss; }
  }

  lemma EntriesRead(j: Json, m: map<string, string>)
    ensures ParseTable(j) == Some(m) <==> j == Entries(m)
  {
    if ParseTable(j) == Some(m) {
      assert j.fields == Entries(m).fields;
    }
    if j == Entries(m) { assert ParseTable(j).value == m; }
  }

  function ActionFields(a: Action): map<Field, Json> {
    map[Kind := Text(a.kind), Version := Text(a.version), ToolIdentity := Text(a.toolIdentity), Argv := Strings(a.argv),
        Cwd := Text(a.cwd), Environment := Entries(a.environment), Parameters := a.parameters, Inputs := FileObjects(a.inputs)]
  }

  lemma ActionNames(a: Action)
    ensures Named(ActionFields(a)) == ActionObject(a) && ActionFields(a).Keys == ACTION_KEYS
  {
    hide Name, Named, Strings, Entries, FileObjects, RecordObjects;
    Spelled();
    var m := Nothing();
    m := Insert(m, Kind, Text(a.kind));
    m := Insert(m, Version, Text(a.version));
    m := Insert(m, ToolIdentity, Text(a.toolIdentity));
    m := Insert(m, Argv, Strings(a.argv));
    m := Insert(m, Cwd, Text(a.cwd));
    m := Insert(m, Environment, Entries(a.environment));
    m := Insert(m, Parameters, a.parameters);
    m := Insert(m, Inputs, FileObjects(a.inputs));
    assert m.Keys == ACTION_KEYS && m == ActionFields(a);
  }

  /** An action, likewise; its files stand in any order. */
  lemma ActionsRead(j: Json, a: Action)
    ensures ParseAction(j) == Some(a) <==> ValidAction(a) && j == ActionObject(a)
  {
    hide Name, Named, ValidAction, ExactKeys, ParseTexts, ParseTable, ParseFiles, Strings, Entries, FileObjects, ActionObject;
    ActionNames(a);
    FieldsGive(j, ActionFields(a));
    if ExactKeys(j, ACTION_KEYS) {
      EvidenceRoundTrip.KeysAreThere(j, ACTION_KEYS);
      StringsRead(At(j, Argv), a.argv);
      EntriesRead(At(j, Environment), a.environment);
      FileListsRead(At(j, Inputs), a.inputs);
    }
    if ParseAction(j) == Some(a) || j == ActionObject(a) {
      ValidInputs(a);
    }
  }

  lemma ValidInputs(a: Action)
    ensures ValidAction(a) ==> ValidFiles(a.inputs)
  {
  }

  function RecordParts(r: Record): map<Field, Json> {
    map[Id := Text(r.id), Kind := Text(r.kind), TheAction := ActionObject(r.action), Outputs := FileObjects(r.outputs),
        Metadata := FileObjects(r.metadata), Parents := Strings(r.parents), Producer := Entries(r.producer), Complete := Bool(r.complete)]
  }

  lemma RecordNames(r: Record)
    ensures Named(RecordParts(r)) == RecordObject(r) && RecordParts(r).Keys == RECORD_KEYS
  {
    hide Name, Named, Strings, Entries, FileObjects, ActionObject, RecordObjects;
    Spelled();
    var m := Nothing();
    m := Insert(m, Id, Text(r.id));
    m := Insert(m, Kind, Text(r.kind));
    m := Insert(m, TheAction, ActionObject(r.action));
    m := Insert(m, Outputs, FileObjects(r.outputs));
    m := Insert(m, Metadata, FileObjects(r.metadata));
    m := Insert(m, Parents, Strings(r.parents));
    m := Insert(m, Producer, Entries(r.producer));
    m := Insert(m, Complete, Bool(r.complete));
    assert m.Keys == RECORD_KEYS && m == RecordParts(r);
  }

  /** A record; whether its kind, parents and producer will do is for the graph check to say. */
  lemma RecordsRead(j: Json, r: Record)
    ensures ParseRecord(j) == Some(r) <==>
            ValidAction(r.action) && ValidFiles(r.outputs) && ValidFiles(r.metadata) && j == RecordObject(r)
  {
    hide Name, Named, ValidAction, ValidFiles, ExactKeys, ParseTexts, ParseTable, ParseFiles, ParseAction, Strings, Entries, FileObjects;
    hide ActionObject, RecordObject;
    RecordNames(r);
    FieldsGive(j, RecordParts(r));
    if ExactKeys(j, RECORD_KEYS) {
      EvidenceRoundTrip.KeysAreThere(j, RECORD_KEYS);
      StringsRead(At(j, Parents), r.parents);
      EntriesRead(At(j, Producer), r.producer);
      FileListsRead(At(j, Outputs), r.outputs);
      FileListsRead(At(j, Metadata), r.metadata);
      ActionsRead(At(j, TheAction), r.action);
    }
  }

  ghost predicate Readable(r: Record) {
    ValidAction(r.action) && ValidFiles(r.outputs) && ValidFiles(r.metadata)
  }

  lemma {:induction false} RecordListsRead(items: seq<Json>, nodes: seq<Record>)
    ensures ParseRecords(items) == Some(nodes) <==> List(items) == RecordObjects(nodes) && forall r :: r in nodes ==> Readable(r)
    decreases |items|
  {
    hide ParseRecord, Readable, RecordObject;
    if items == [] {
      assert RecordObjects(nodes).items == items <==> nodes == [];
    } else if nodes != [] {
      var n, k := |items| - 1, |nodes| - 1;
      RecordListsRead(items[..n], nodes[..k]);
      OneRecord(items[n], nodes[k]);
      assert nodes == nodes[..k] + [nodes[k]] && items == items[..n] + [items[n]];
      assert RecordObjects(nodes).items == RecordObjects(nodes[..k]).items + [RecordObject(nodes[k])];
      if ParseRecords(items) == Some(nodes) {
        assert nodes[..k] == ParseRecords(items[..n]).value;
      }
      if List(items) == RecordObjects(nodes) && forall r :: r in nodes ==> Readable(r) {
        assert items[..n] == RecordObjects(nodes[..k]).items;
        assert nodes[k] in nodes;
      }
    } else {
      assert |RecordObjects(nodes).items| == 0;
    }
  }

  lemma OneRecord(j: Json, r: Record)
    ensures ParseRecord(j) == Some(r) <==> Readable(r) && j == RecordObject(r)
  {
    hide ParseRecord, RecordObject, ValidAction, ValidFiles;
    RecordsRead(j, r);
  }

  function ManifestParts(m: Manifest, version: Wide): map<Field, Json> {
    map[Type := Text("topo.artifact-evidence"), SchemaVersion := Number(version), Nodes := RecordObjects(m.nodes), Roots := Strings(m.roots)]
  }

  lemma ManifestNames(m: Manifest, version: Wide)
    ensures Named(ManifestParts(m, version)) == ManifestObject(m, version) && ManifestParts(m, version).Keys == MANIFEST_KEYS
  {
    hide Name, Named, Strings, Entries, FileObjects, ActionObject, RecordObjects;
    Spelled();
    var n := Nothing();
    n := Insert(n, Type, Text("topo.artifact-evidence"));
    n := Insert(n, SchemaVersion, Number(version));
    n := Insert(n, Nodes, RecordObjects(m.nodes));
    n := Insert(n, Roots, Strings(m.roots));
    assert n.Keys == MANIFEST_KEYS && n == ManifestParts(m, version);
  }

  /** What is read as a manifest: its object, with any version number of which it keeps the low 32 bits, if every
      record can be read and the graph is accepted; nothing else is. */
  lemma ManifestsRead(digest: Digest, j: Json, m: Manifest)
    ensures FromJson(digest, j) == Some(m) <==>
            && Accepted(digest, m) && (forall r :: r in m.nodes ==> Readable(r))
            && exists n: Wide :: Narrow(n) == m.schemaVersion && j == ManifestObject(m, n)
  {
    hide Name, Named, ExactKeys, ParseRecords, ParseTexts, Accepted, Readable, Strings, RecordObjects, Narrow, ManifestObject;
    if FromJson(digest, j) == Some(m) {
      EvidenceRoundTrip.KeysAreThere(j, MANIFEST_KEYS);
      var n := At(j, SchemaVersion).num;
      StringsRead(At(j, Roots), m.roots);
      RecordListsRead(At(j, Nodes).items, m.nodes);
      ManifestNames(m, n);
      FieldsGive(j, ManifestParts(m, n));
      assert j == ManifestObject(m, n);
    }
    if n: Wide :| Accepted(digest, m) && (forall r :: r in m.nodes ==> Readable(r)) && Narrow(n) == m.schemaVersion && j == ManifestObject(m, n) {
      ManifestNames(m, n);
      FieldsGive(j, ManifestParts(m, n));
      EvidenceRoundTrip.KeysAreThere(j, MANIFEST_KEYS);
      StringsRead(At(j, Roots), m.roots);
      RecordsAreList(m.nodes);
      RecordListsRead(At(j, Nodes).items, m.nodes);
    }
  }

  lemma RecordsAreList(nodes: seq<Record>)
    ensures RecordObjects(nodes).List?
  {
  }

  // ---------- What is written ----------

  /** A record is written as the object of its sorted form. */
  lemma RecordsWritten(r: Record)
    requires ValidRecord(r)
    ensures RecordJson(r) == RecordObject(EvidenceRoundTrip.NormalRecord(r))
  {
    hide RecordJson, RecordObject, ParseRecord, ValidAction, ValidFiles, EvidenceRoundTrip.NormalRecord;
    EvidenceRoundTrip.RecordRoundTrip(r);
    RecordsRead(RecordJson(r), EvidenceRoundTrip.NormalRecord(r));
  }

  /** The identifier of a record is the digest of all of that but the identifier, under its type and version. */
  lemma IdentifiersCover(digest: Digest, r: Record)
    requires ValidRecord(r)
    ensures RecordObject(EvidenceRoundTrip.NormalRecord(r)).Object?
    ensures RecordDigest(digest, r) ==
            digest(Object(map["type" := Text("topo.record"), "schemaVersion" := Number(1),
                              "value" := Object(RecordObject(EvidenceRoundTrip.NormalRecord(r)).fields - {"id"})]))
  {
    hide RecordObject, Name, Named, RecordFields, ValidRecord, EvidenceRoundTrip.NormalRecord;
    RecordsWritten(r);
    WithoutId(r);
    Spelled();
    var m := Nothing();
    m := Insert(m, Type, Text("topo.record"));
    m := Insert(m, SchemaVersion, Number(SCHEMA_VERSION));
    m := Insert(m, Value, Named(RecordFields(r)));
    ValueName();
  }

  lemma ValueName()
    ensures Name(Value) == "value"
  {
  }

  lemma WithoutId(r: Record)
    ensures RecordJson(r).Object? && Object(RecordJson(r).fields - {"id"}) == Named(RecordFields(r))
  {
    hide Name, Named, RecordFields;
    Spelled();
    NoId(r);
    var m := Insert(RecordFields(r), Id, Text(r.id));
    var fields := Named(RecordFields(r)).fields;
    assert fields["id" := Text(r.id)] - {"id"} == fields;
  }

  lemma NoId(r: Record)
    ensures Id !in RecordFields(r) && Named(RecordFields(r)).Object? && "id" !in Named(RecordFields(r)).fields
  {
    hide Name, ActionJson, FilesJson, Texts, Table, Sort;
    Spelled();
    forall g | g in RecordFields(r)
      ensures Name(g) != "id"
    {
      Differ(Id, g);
    }
  }

  predicate Letter(c: char) { 'a' <= c <= 'z' || 'A' <= c <= 'Z' }

  /** Names are told apart without regard to the case of the 26 letters. */
  lemma FoldsAlike(s: string, t: string)
    ensures Folded(s) == Folded(t) <==>
            |s| == |t| && forall i :: 0 <= i < |s| ==>
              s[i] == t[i] || (Letter(s[i]) && Letter(t[i]) && (s[i] as int - t[i] as int == 32 || t[i] as int - s[i] as int == 32))
  {
    assert Folded(s) == Folded(t) <==> |s| == |t| && forall i :: 0 <= i < |s| ==> Folded(s)[i] == Folded(t)[i] by {
      assert |Folded(s)| == |s| && |Folded(t)| == |t|;
    }
    if |s| == |t| {
      forall i | 0 <= i < |s|
        ensures Folded(s)[i] == Folded(t)[i] <==>
                s[i] == t[i] || (Letter(s[i]) && Letter(t[i]) && (s[i] as int - t[i] as int == 32 || t[i] as int - s[i] as int == 32))
      {
      }
    }
  }

  // ---------- Paths ----------

  /** Parts with a slash between them. */
  function Slashed(parts: seq<string>): string {
    if parts == [] then "" else if |parts| == 1 then parts[0] else parts[0] + "/" + Slashed(parts[1..])
  }

  /** A part of a portable path: no control character, no separator of any system, nothing a system drops at the
      end, and so neither `.` nor `..`. */
  predicate PortablePart(part: string) {
    && part != "" && part[|part| - 1] != '.' && part[|part| - 1] != ' '
    && forall i :: 0 <= i < |part| ==> 32 <= part[i] as int && part[i] as int != 127 && part[i] != '/' && part[i] != '\\' && part[i] != ':'
  }

  ghost predicate PortableParts(parts: seq<string>) {
    forall i :: 0 <= i < |parts| ==> PortablePart(parts[i])
  }

  /** A path is accepted exactly if it is made of such parts. */
  lemma PathsArePortable(s: string)
    ensures RelativePath(s) <==> exists parts :: parts != [] && PortableParts(parts) && s == Slashed(parts)
  {
    if RelativePath(s) {
      assert "" + s == s;
      var parts := Cut("", s);
    }
    if parts :| parts != [] && PortableParts(parts) && s == Slashed(parts) {
      Joined(parts);
    }
  }

  predicate PlainChars(s: string) {
    forall i :: 0 <= i < |s| ==> 32 <= s[i] as int && s[i] as int != 127 && s[i] != '\\' && s[i] != ':'
  }

  lemma PlainJoins(a: string, b: string)
    ensures PlainChars(a + b) <==> PlainChars(a) && PlainChars(b)
  {
    assert forall i :: 0 <= i < |a| ==> (a + b)[i] == a[i];
    assert forall i :: 0 <= i < |b| ==> (a + b)[|a| + i] == b[i];
  }

  lemma PartIsPlain(part: string)
    ensures PortablePart(part) <==> ComponentOk(part) && PlainChars(part) && '/' !in part
  {
  }

  lemma Moves(c: string, rest: string)
    requires rest != ""
    ensures c + rest == (c + [rest[0]]) + rest[1..] && c + rest == c + [rest[0]] + rest[1..] && c + "" == c && "" + rest[1..] == rest[1..]
    ensures '/' !in c && rest[0] != '/' ==> '/' !in c + [rest[0]]
  {
  }

  lemma OnePart(part: string)
    requires PortablePart(part)
    ensures PortableParts([part]) && Slashed([part]) == part && part + "" == part
  {
  }

  lemma MoreParts(part: string, more: seq<string>)
    requires PortablePart(part) && PortableParts(more) && more != []
    ensures PortableParts([part] + more) && Slashed([part] + more) == part + ['/'] + Slashed(more)
  {
    assert ([part] + more)[1..] == more;
  }

  lemma {:induction false} Cut(c: string, rest: string) returns (parts: seq<string>)
    requires ComponentsOk(c, rest) && PlainChars(c + rest) && '/' !in c
    ensures parts != [] && PortableParts(parts) && c + rest == Slashed(parts)
    decreases |rest|
  {
    hide ComponentOk, PlainChars, PortablePart, PortableParts, Slashed;
    PlainJoins(c, rest);
    PartIsPlain(c);
    if rest == "" {
      OnePart(c);
      parts := [c];
    } else {
      Moves(c, rest);
      PlainJoins(c + [rest[0]], rest[1..]);
      if rest[0] == '/' {
        var more := Cut("", rest[1..]);
        MoreParts(c, more);
        parts := [c] + more;
      } else {
        parts := Cut(c + [rest[0]], rest[1..]);
      }
    }
  }

  lemma PathMeans(s: string)
    ensures RelativePath(s) <==> s != "" && PlainChars(s) && s[0] != '/' && s[|s| - 1] != '/' && ComponentsOk("", s)
  {
    hide ComponentsOk;
  }

  lemma {:induction false} Joined(parts: seq<string>)
    requires parts != [] && PortableParts(parts)
    ensures RelativePath(Slashed(parts))
    decreases |parts|
  {
    hide ComponentOk, PlainChars, PortablePart, RelativePath;
    assert PortablePart(parts[0]);
    PartIsPlain(parts[0]);
    Ends(parts[0]);
    PathMeans(Slashed(parts));
    if |parts| == 1 {
      ReadsPart("", parts[0], "");
      Appended(parts[0]);
    } else {
      var more := Slashed(parts[1..]);
      Joined(parts[1..]);
      PathMeans(more);
      Behind(parts[0], more);
      ReadsPart("", parts[0], "/" + more);
      Appended(parts[0]);
    }
  }

  lemma Ends(part: string)
    requires PortablePart(part)
    ensures part != "" && part[0] != '/' && part[|part| - 1] != '/'
  {
  }

  lemma Appended(part: string)
    ensures part + "" == part && "" + part == part
  {
  }

  lemma Behind(part: string, more: string)
    requires part != "" && more != ""
    ensures var s := part + "/" + more;
            && s == part + ("/" + more) && ("/" + more)[1..] == more && s[0] == part[0] && s[|s| - 1] == more[|more| - 1]
            && (PlainChars(part) && PlainChars(more) ==> PlainChars(s))
  {
    PlainJoins(part + "/", more);
    PlainJoins(part, "/");
  }

  lemma {:induction false} ReadsPart(c: string, part: string, rest: string)
    requires '/' !in part
    ensures ComponentsOk(c, part + rest) == ComponentsOk(c + part, rest)
    decreases |part|
  {
    hide ComponentOk;
    if part == "" {
      assert part + rest == rest && c + part == c;
    } else {
      assert (part + rest)[0] == part[0] && (part + rest)[1..] == part[1..] + rest;
      ReadsPart(c + [part[0]], part[1..], rest);
      assert (c + [part[0]]) + part[1..] == c + part;
    }
  }
}
