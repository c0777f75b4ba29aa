/** A manifest that is written and read comes back in its sorted form, and a digest covers a record up
    to the order of its parents and files. */
module EvidenceRoundTrip {
  import opened Digests
  import opened Options
  import opened Sorting
  import opened Narrowing
  import opened EvidenceCodec
  import EvidenceGraph
  import EvidenceResults

  // ---------- Objects ----------

  lemma NamedHas(m: map<Field, Json>)
    ensures ExactKeys(Named(m), m.Keys)
    ensures forall f :: f in m ==> Name(f) in Named(m).fields && At(Named(m), f) == m[f]
  {
    hide Name;
    NamesDiffer();
  }

  lemma NamedIsInjective(a: map<Field, Json>, b: map<Field, Json>)
    requires Named(a) == Named(b) && a.Keys == b.Keys
    ensures a == b
  {
    hide Name, Named;
    NamedHas(a);
    NamedHas(b);
    assert forall f :: f in a ==> a[f] == At(Named(a), f) && b[f] == At(Named(b), f);
  }

  // ---------- Lists of files ----------

  lemma FileRoundTrip(f: FileEntry)
    requires ValidFile(f)
    ensures ParseFile(FileJson(f)) == Some(f)
  {
    hide Name, Named, ValidFile, ExactKeys;
    var m := map[Root := Text(f.root), Path := Text(f.path), Kind := Text(f.kind), Size := Number(f.size),
                 Sha256 := Text(f.sha256), Executable := Bool(f.executable), SymlinkTarget := Text(f.symlinkTarget),
                 ResolvedPath := Text(f.resolvedPath)];
    NamedHas(m);
    assert m.Keys == FILE_KEYS;
  }

  lemma {:induction false} FileListReads(files: seq<FileEntry>)
    requires forall f :: f in files ==> ValidFile(f)
    ensures ParseEach(FileList(files).items) == Some(files)
    decreases |files|
  {
    hide ValidFile, FileJson, ParseFile;
    if files != [] {
      var n := |files| - 1;
      assert FileList(files).items[..n] == FileList(files[..n]).items;
      FileListReads(files[..n]);
      assert files[n] in files;
      FileRoundTrip(files[n]);
      assert files == files[..n] + [files[n]];
    } else {
      assert FileList(files).items == [];
    }
  }

  /** Every file is valid, and no two have names that differ only in case. */
  lemma {:induction false} ValidFilesMeans(files: seq<FileEntry>)
    ensures ValidFiles(files) <==>
            && NoRepeats(files) && (forall f :: f in files ==> ValidFile(f))
            && forall f, g :: f in files && g in files && Identity(f) == Identity(g) ==> f == g
  {
    hide ValidFile, Identity;
    if files != [] {
      ValidFilesMeans(files[1..]);
      assert forall f :: f in files <==> f == files[0] || f in files[1..];
    }
  }

  lemma {:induction false} NoRepeatsCounts<T>(xs: seq<T>)
    ensures NoRepeats(xs) <==> forall x :: x in xs ==> multiset(xs)[x] == 1
  {
    if xs != [] {
      NoRepeatsCounts(xs[1..]);
      var rest := multiset(xs[1..]);
      assert xs == [xs[0]] + xs[1..];
      assert multiset(xs) == multiset{xs[0]} + rest;
      assert forall x :: x in xs <==> x == xs[0] || x in xs[1..];
      assert forall x :: x in xs[1..] <==> rest[x] > 0;
      if NoRepeats(xs[1..]) && xs[0] !in xs[1..] {
        assert forall x :: x in xs ==> multiset(xs)[x] == 1;
      } else if xs[0] in xs[1..] {
        assert multiset(xs)[xs[0]] > 1;
      } else {
        var x :| x in xs[1..] && rest[x] != 1;
        assert multiset(xs)[x] != 1;
      }
    }
  }

  lemma StillNoRepeats<T>(a: seq<T>, b: seq<T>)
    requires NoRepeats(a) && multiset(a) == multiset(b)
    ensures NoRepeats(b)
  {
    NoRepeatsCounts(a);
    NoRepeatsCounts(b);
    SameElements(a, b);
  }

  lemma StillValid(a: seq<FileEntry>, b: seq<FileEntry>)
    requires ValidFiles(a) && multiset(a) == multiset(b)
    ensures ValidFiles(b)
  {
    ValidFilesMeans(a);
    ValidFilesMeans(b);
    StillNoRepeats(a, b);
    SameElements(a, b);
  }

  lemma FilesAreOrdered(files: seq<FileEntry>)
    requires ValidFiles(files)
    ensures NoRepeats(files) && Orders(FileLess, files)
  {
    hide ValidFile;
    ValidFilesMeans(files);
    forall a, b | a in files && b in files
      ensures (a == b || FileLess(a, b) || FileLess(b, a)) && !(FileLess(a, b) && FileLess(b, a))
    {
      LessIsTotal(a.root, b.root);
      LessIsTotal(a.path, b.path);
      if a.root == b.root && a.path == b.path {
        assert Identity(a) == Identity(b);
      }
    }
    forall a, b, c | a in files && b in files && c in files && FileLess(a, b) && FileLess(b, c)
      ensures FileLess(a, c)
    {
      FileLessIsTransitive(a, b, c);
    }
  }

  lemma FileLessIsTransitive(a: FileEntry, b: FileEntry, c: FileEntry)
    requires FileLess(a, b) && FileLess(b, c)
    ensures FileLess(a, c)
  {
    hide Less;
    if Less(a.root, b.root) {
      if Less(b.root, c.root) { LessIsTransitive(a.root, b.root, c.root); }
    } else if a.root == c.root {
      LessIsTransitive(a.path, b.path, c.path);
    }
  }

  lemma FilesRoundTrip(files: seq<FileEntry>)
    requires ValidFiles(files)
    ensures ParseFiles(FilesJson(files)) == Some(Sort(FileLess, files)) && ValidFiles(Sort(FileLess, files))
  {
    var sorted := Sort(FileLess, files);
    StillValid(files, sorted);
    ValidFilesMeans(sorted);
    FileListReads(sorted);
  }

  lemma FilesForgetOrder(a: seq<FileEntry>, b: seq<FileEntry>)
    requires ValidFiles(a) && multiset(a) == multiset(b)
    ensures Sort(FileLess, a) == Sort(FileLess, b)
  {
    StillValid(a, b);
    FilesAreOrdered(a);
    FilesAreOrdered(b);
    SameElements(a, b);
    SortForgetsOrder(FileLess, a, b);
  }

  // ---------- Actions and records ----------

  function NormalAction(a: Action): Action {
    a.(inputs := Sort(FileLess, a.inputs))
  }

  function NormalRecord(r: Record): Record {
    r.(action := NormalAction(r.action), outputs := Sort(FileLess, r.outputs), metadata := Sort(FileLess, r.metadata), parents := Sort(Less, r.parents))
  }

  lemma TextsRoundTrip(ss: seq<string>)
    ensures ParseTexts(Texts(ss)) == Some(ss)
  {
    assert ParseTexts(Texts(ss)).value == ss;
  }

  lemma TableRoundTrip(m: map<string, string>)
    ensures ParseTable(Table(m)) == Some(m)
  {
    assert ParseTable(Table(m)).value == m;
  }

  lemma ActionRoundTrip(a: Action)
    requires ValidAction(a)
    ensures ValidAction(NormalAction(a)) && ParseAction(ActionJson(a)) == Some(NormalAction(a))
  {
    hide Name, Named, ExactKeys, FilesJson, ParseFiles, Texts, ParseTexts, Table, ParseTable, ValidFiles, Sort, CleanString, ValidJsonValue;
    FilesRoundTrip(a.inputs);
    TextsRoundTrip(a.argv);
    TableRoundTrip(a.environment);
    var m := map[Kind := Text(a.kind), Version := Text(a.version), ToolIdentity := Text(a.toolIdentity), Argv := Texts(a.argv),
                 Cwd := Text(a.cwd), Environment := Table(a.environment), Parameters := a.parameters, Inputs := FilesJson(a.inputs)];
    NamedHas(m);
    assert m.Keys == ACTION_KEYS;
  }

  lemma RecordRoundTrip(r: Record)
    requires ValidRecord(r)
    ensures ParseRecord(RecordJson(r)) == Some(NormalRecord(r))
  {
    hide Name, Named, ExactKeys, ActionJson, ParseAction, FilesJson, ParseFiles, Texts, ParseTexts, Table, ParseTable, ValidFiles, ValidAction, Sort, CleanString;
    ActionRoundTrip(r.action);
    FilesRoundTrip(r.outputs);
    FilesRoundTrip(r.metadata);
    TextsRoundTrip(Sort(Less, r.parents));
    TableRoundTrip(r.producer);
    var m := RecordFields(r)[Id := Text(r.id)];
    NamedHas(m);
    assert m.Keys == RECORD_KEYS;
  }

  // ---------- What a digest covers ----------

  ghost predicate SameAction(a: Action, b: Action) {
    a.(inputs := []) == b.(inputs := []) && multiset(a.inputs) == multiset(b.inputs)
  }

  /** Equal but for the identifier and the order of parents and files. */
  ghost predicate SameRecord(r: Record, s: Record) {
    && r.kind == s.kind && r.producer == s.producer && r.complete == s.complete && SameAction(r.action, s.action)
    && multiset(r.outputs) == multiset(s.outputs) && multiset(r.metadata) == multiset(s.metadata)
    && multiset(r.parents) == multiset(s.parents)
  }

  lemma ParentsForgetOrder(a: seq<string>, b: seq<string>)
    requires ValidParents(a) && multiset(a) == multiset(b)
    ensures ValidParents(b) && Sort(Less, a) == Sort(Less, b)
  {
    hide ValidDigest;
    StillNoRepeats(a, b);
    SameElements(a, b);
    LessOrders(a);
    SortForgetsOrder(Less, a, b);
  }

  lemma SameIsValid(r: Record, s: Record)
    requires ValidRecord(r) && SameRecord(r, s)
    ensures ValidRecord(s) && NormalRecord(r).(id := "") == NormalRecord(s).(id := "")
  {
    hide ValidFiles, Sort, CleanString, ValidParents, ValidJsonValue;
    ActionSameIsValid(r.action, s.action);
    StillValid(r.outputs, s.outputs);
    StillValid(r.metadata, s.metadata);
    FilesForgetOrder(r.outputs, s.outputs);
    FilesForgetOrder(r.metadata, s.metadata);
    ParentsForgetOrder(r.parents, s.parents);
  }

  lemma ActionSameIsValid(a: Action, b: Action)
    requires ValidAction(a) && SameAction(a, b)
    ensures ValidAction(b) && NormalAction(a) == NormalAction(b)
  {
    hide ValidFiles, Sort, CleanString, ValidJsonValue;
    StillValid(a.inputs, b.inputs);
    FilesForgetOrder(a.inputs, b.inputs);
    var bare := a.(inputs := []);
    assert bare == b.(inputs := []);
    assert a.kind == bare.kind && a.version == bare.version && a.toolIdentity == bare.toolIdentity && a.argv == bare.argv && a.cwd == bare.cwd
           && a.environment == bare.environment && a.parameters == bare.parameters;
  }

  /** The fields of a record, and so its digest, depend on its sorted form alone. */
  lemma FieldsOfNormal(r: Record, s: Record)
    requires NormalRecord(r).(id := "") == NormalRecord(s).(id := "")
    ensures RecordFields(r) == RecordFields(s)
  {
    hide Sort, Named, Texts, Table, FileList;
    var n, k := NormalRecord(r).(id := ""), NormalRecord(s).(id := "");
    assert n.action == NormalAction(r.action) && k.action == NormalAction(s.action);
    assert ActionJson(r.action) == ActionJson(s.action) by { ActionOfNormal(r.action, s.action); }
    assert n.outputs == Sort(FileLess, r.outputs) && n.metadata == Sort(FileLess, r.metadata) && n.parents == Sort(Less, r.parents);
  }

  lemma ActionOfNormal(a: Action, b: Action)
    requires NormalAction(a) == NormalAction(b)
    ensures ActionJson(a) == ActionJson(b)
  {
    hide Sort, Named, Texts, Table, FileList;
    var n, k := NormalAction(a), NormalAction(b);
    assert n.kind == a.kind && n.version == a.version && n.toolIdentity == a.toolIdentity && n.argv == a.argv && n.cwd == a.cwd
           && n.environment == a.environment && n.parameters == a.parameters && n.inputs == Sort(FileLess, a.inputs);
    assert k.kind == b.kind && k.version == b.version && k.toolIdentity == b.toolIdentity && k.argv == b.argv && k.cwd == b.cwd
           && k.environment == b.environment && k.parameters == b.parameters && k.inputs == Sort(FileLess, b.inputs);
  }

  lemma NormalIsSame(r: Record, s: Record)
    requires NormalRecord(r).(id := "") == NormalRecord(s).(id := "")
    ensures SameRecord(r, s)
  {
    hide Sort;
    var n, k := NormalRecord(r).(id := ""), NormalRecord(s).(id := "");
    assert n.action == NormalAction(r.action) && k.action == NormalAction(s.action);
    assert n.outputs == Sort(FileLess, r.outputs) && n.metadata == Sort(FileLess, r.metadata) && n.parents == Sort(Less, r.parents);
    assert multiset(n.outputs) == multiset(r.outputs) && multiset(n.metadata) == multiset(r.metadata) && multiset(n.parents) == multiset(r.parents);
    assert multiset(n.action.inputs) == multiset(r.action.inputs);
  }

  lemma TypedIsInjective(name: string, a: Json, b: Json)
    requires Typed(name, a) == Typed(name, b)
    ensures a == b
  {
    hide Name, Named;
    var ma := map[Type := Text(name), SchemaVersion := Number(SCHEMA_VERSION), Value := a];
    var mb := map[Type := Text(name), SchemaVersion := Number(SCHEMA_VERSION), Value := b];
    NamedIsInjective(ma, mb);
    assert ma[Value] == mb[Value];
  }

  /** The written form of a record fixes the record up to order. */
  lemma WrittenIsSame(r: Record, s: Record)
    requires ValidRecord(r) && ValidRecord(s) && Named(RecordFields(r)) == Named(RecordFields(s))
    ensures SameRecord(r, s)
  {
    hide Named, RecordFields, ValidRecord, NormalRecord, SameRecord;
    RecordFieldKeys(r);
    RecordFieldKeys(s);
    NamedIsInjective(RecordFields(r), RecordFields(s));
    RenamedRecord(r);
    RenamedRecord(s);
    RecordRoundTrip(r.(id := ""));
    RecordRoundTrip(s.(id := ""));
    NormalIsSame(r, s);
  }

  lemma RecordFieldKeys(r: Record)
    ensures RecordFields(r).Keys == RECORD_KEYS - {Id}
  {
  }

  lemma RenamedRecord(r: Record)
    ensures RecordFields(r.(id := "")) == RecordFields(r) && (ValidRecord(r) ==> ValidRecord(r.(id := "")))
    ensures NormalRecord(r.(id := "")) == NormalRecord(r).(id := "")
  {
    hide Named, ActionJson, FilesJson, Texts, Table, Sort, ValidFiles, ValidAction, CleanString;
  }

  /** Two records have the same digest exactly when they are the same up to the order of their parents
      and files. */
  lemma DigestsMean(digest: Digest, r: Record, s: Record)
    requires Injective(digest) && RecordDigest(digest, r).Some?
    ensures RecordDigest(digest, r) == RecordDigest(digest, s) <==> SameRecord(r, s)
  {
    hide Named, Typed, RecordFields, ValidRecord, NormalRecord, SameRecord;
    if SameRecord(r, s) {
      SameIsValid(r, s);
      FieldsOfNormal(r, s);
    } else if RecordDigest(digest, r) == RecordDigest(digest, s) {
      var inverse :| Inverts(inverse, digest);
      TypedIsInjective("topo.record", Named(RecordFields(r)), Named(RecordFields(s)));
      WrittenIsSame(r, s);
    }
  }

  // ---------- Manifests ----------

  function NormalRecords(nodes: seq<Record>): (r: seq<Record>)
    ensures |r| == |nodes|
  {
    seq(|nodes|, i requires 0 <= i < |nodes| => NormalRecord(nodes[i]))
  }

  /** Records by identifier, and roots, parents and files in order. */
  function NormalManifest(m: Manifest): Manifest {
    Manifest(m.schemaVersion, NormalRecords(Sort(RecordLess, m.nodes)), Sort(Less, m.roots))
  }

  lemma {:induction false} RecordListReads(nodes: seq<Record>)
    requires forall r :: r in nodes ==> ValidRecord(r)
    ensures ParseRecords(RecordList(nodes).items) == Some(NormalRecords(nodes))
    decreases |nodes|
  {
    hide ValidRecord, RecordJson, ParseRecord, NormalRecord;
    if nodes != [] {
      var n := |nodes| - 1;
      assert RecordList(nodes).items[..n] == RecordList(nodes[..n]).items;
      RecordListReads(nodes[..n]);
      assert nodes[n] in nodes;
      RecordRoundTrip(nodes[n]);
      assert NormalRecords(nodes) == NormalRecords(nodes[..n]) + [NormalRecord(nodes[n])];
    } else {
      assert RecordList(nodes).items == [];
    }
  }

  /** An index is built exactly when all records are sealed and have different identifiers; it then maps
      them to their parents. */
  ghost predicate IndexOf(nodes: seq<EvidenceGraph.Node<string>>, g: EvidenceGraph.Graph<string>) {
    && (forall n :: n in nodes ==> n.isSealed && n.id in g && g[n.id] == n.parents)
    && (forall x :: x in g ==> exists n :: n in nodes && n.id == x)
    && (forall i, j :: 0 <= i < j < |nodes| ==> nodes[i].id != nodes[j].id)
  }

  lemma {:induction false} IndexMeans(nodes: seq<EvidenceGraph.Node<string>>)
    ensures EvidenceGraph.IndexNodes(nodes).Indexed? ==> IndexOf(nodes, EvidenceGraph.IndexNodes(nodes).graph)
    ensures EvidenceGraph.IndexNodes(nodes).Bad? ==> Spoiled(nodes)
    decreases |nodes|
  {
    hide IndexOf, Spoiled;
    if nodes != [] {
      var k := |nodes| - 1;
      var before, n := EvidenceGraph.IndexNodes(nodes[..k]), nodes[k];
      IndexMeans(nodes[..k]);
      assert nodes == nodes[..k] + [n];
      if before.Bad? || !n.isSealed {
        SpoiledStays(nodes[..k], n);
      } else if n.id in before.graph {
        TwiceSpoils(nodes[..k], before.graph, n);
      } else {
        IndexGrows(nodes[..k], before.graph, n);
      }
    } else {
      assert IndexOf([], map[]) by { EmptyIndex(); }
    }
  }

  lemma EmptyIndex()
    ensures IndexOf([], map[])
  {
  }

  ghost predicate Spoiled(nodes: seq<EvidenceGraph.Node<string>>) {
    (exists n :: n in nodes && !n.isSealed) || exists i, j :: 0 <= i < j < |nodes| && nodes[i].id == nodes[j].id
  }

  lemma SpoiledStays(nodes: seq<EvidenceGraph.Node<string>>, n: EvidenceGraph.Node<string>)
    requires Spoiled(nodes) || !n.isSealed
    ensures Spoiled(nodes + [n])
  {
    var more := nodes + [n];
    assert n in more;
    if b :| b in nodes && !b.isSealed {
      assert b in more;
    } else if n.isSealed {
      var i, j :| 0 <= i < j < |nodes| && nodes[i].id == nodes[j].id;
      assert more[i].id == more[j].id;
    }
  }

  lemma TwiceSpoils(nodes: seq<EvidenceGraph.Node<string>>, g: EvidenceGraph.Graph<string>, n: EvidenceGraph.Node<string>)
    requires IndexOf(nodes, g) && n.id in g
    ensures Spoiled(nodes + [n])
  {
    var more := nodes + [n];
    var o :| o in nodes && o.id == n.id;
    var i :| 0 <= i < |nodes| && nodes[i] == o;
    assert more[i].id == more[|nodes|].id;
  }

  lemma IndexGrows(nodes: seq<EvidenceGraph.Node<string>>, g: EvidenceGraph.Graph<string>, n: EvidenceGraph.Node<string>)
    requires IndexOf(nodes, g) && n.isSealed && n.id !in g
    ensures IndexOf(nodes + [n], g[n.id := n.parents])
  {
    var more := nodes + [n];
    assert n in more;
    assert forall o :: o in more <==> o in nodes || o == n;
    forall i, j | 0 <= i < j < |more|
      ensures more[i].id != more[j].id
    {
      assert more[i] in nodes;
      if j < |nodes| { assert more[j] == nodes[j]; }
    }
  }

  lemma {:induction false} NoRepeatsAt<T>(xs: seq<T>, i: nat, j: nat)
    requires NoRepeats(xs) && i < j < |xs|
    ensures xs[i] != xs[j]
  {
    if i > 0 {
      NoRepeatsAt(xs[1..], i - 1, j - 1);
    } else {
      assert xs[1..][j - 1] == xs[j];
    }
  }

  lemma {:induction false} NoRepeatsIfDiffer<T>(xs: seq<T>)
    requires forall i, j :: 0 <= i < j < |xs| ==> xs[i] != xs[j]
    ensures NoRepeats(xs)
  {
    if xs != [] { NoRepeatsIfDiffer(xs[1..]); }
  }

  /** Records are valid and sealed, and named by their identifiers. */
  ghost predicate WellNamed(digest: Digest, nodes: seq<Record>) {
    && (forall r :: r in nodes ==> ValidRecord(r) && Skeleton(digest, r).isSealed)
    && NoRepeats(nodes) && forall r, s :: r in nodes && s in nodes && r.id == s.id ==> r == s
  }

  lemma IndexedMeans(digest: Digest, nodes: seq<Record>)
    requires EvidenceGraph.IndexNodes(Skeletons(digest, nodes)).Indexed?
    ensures WellNamed(digest, nodes)
  {
    hide Skeleton, EvidenceGraph.IndexNodes, ValidRecord, NoRepeats;
    var sk := Skeletons(digest, nodes);
    IndexMeans(sk);
    forall i | 0 <= i < |nodes|
      ensures ValidRecord(nodes[i]) && Skeleton(digest, nodes[i]).isSealed && sk[i].id == nodes[i].id
    {
      assert sk[i] in sk && sk[i] == Skeleton(digest, nodes[i]);
      SealedMeans(digest, nodes[i]);
    }
    DifferentIds(nodes);
  }

  lemma DifferentIds(nodes: seq<Record>)
    requires forall i, j :: 0 <= i < j < |nodes| ==> nodes[i].id != nodes[j].id
    ensures NoRepeats(nodes) && forall r, s :: r in nodes && s in nodes && r.id == s.id ==> r == s
  {
    NoRepeatsIfDiffer(nodes);
  }

  lemma SealedMeans(digest: Digest, r: Record)
    ensures Skeleton(digest, r).id == r.id && Skeleton(digest, r).parents == r.parents
    ensures Skeleton(digest, r).isSealed ==> ValidRecord(r)
  {
    hide ValidRecord;
  }

  lemma WellNamedIsIndexed(digest: Digest, nodes: seq<Record>)
    requires WellNamed(digest, nodes)
    ensures EvidenceGraph.IndexNodes(Skeletons(digest, nodes)).Indexed?
  {
    hide Skeleton, EvidenceGraph.IndexNodes, ValidRecord;
    var sk := Skeletons(digest, nodes);
    IndexMeans(sk);
    forall i, j | 0 <= i < j < |nodes|
      ensures sk[i].id != sk[j].id
    {
      NoRepeatsAt(nodes, i, j);
      SealedMeans(digest, nodes[i]);
      SealedMeans(digest, nodes[j]);
    }
    forall n | n in sk
      ensures n.isSealed
    {
      var i :| 0 <= i < |sk| && sk[i] == n;
      assert nodes[i] in nodes;
    }
  }

  lemma RecordsAreOrdered(digest: Digest, nodes: seq<Record>)
    requires WellNamed(digest, nodes)
    ensures Orders(RecordLess, nodes)
  {
    hide ValidRecord, Skeleton, NoRepeats, Less;
    forall a, b | a in nodes && b in nodes
      ensures (a == b || RecordLess(a, b) || RecordLess(b, a)) && !(RecordLess(a, b) && RecordLess(b, a))
    {
      LessIsTotal(a.id, b.id);
    }
    forall a, b, c | a in nodes && b in nodes && c in nodes && RecordLess(a, b) && RecordLess(b, c)
      ensures RecordLess(a, c)
    {
      LessIsTransitive(a.id, b.id, c.id);
    }
  }

  lemma NormalIsSealed(digest: Digest, r: Record)
    requires Skeleton(digest, r).isSealed
    ensures ValidRecord(NormalRecord(r)) && Skeleton(digest, NormalRecord(r)).isSealed
    ensures NormalRecord(NormalRecord(r)) == NormalRecord(r)
  {
    hide ValidRecord, RecordFields, Named, Typed, ValidDigest;
    SealedMeans(digest, r);
    var n := NormalRecord(r);
    assert SameRecord(r, n);
    SameIsValid(r, n);
    FieldsOfNormal(r, n);
    assert NormalRecord(n).id == r.id == n.id && NormalRecord(n) == NormalRecord(n).(id := "").(id := r.id) && n == n.(id := "").(id := r.id);
  }

  lemma SortedIsWellNamed(digest: Digest, nodes: seq<Record>)
    requires WellNamed(digest, nodes)
    ensures WellNamed(digest, Sort(RecordLess, nodes))
  {
    hide ValidRecord, Skeleton;
    StillNoRepeats(nodes, Sort(RecordLess, nodes));
    SameElements(nodes, Sort(RecordLess, nodes));
  }

  lemma NormalIsWellNamed(digest: Digest, nodes: seq<Record>)
    requires WellNamed(digest, nodes)
    ensures WellNamed(digest, NormalRecords(nodes))
  {
    hide ValidRecord, Skeleton, NormalRecord;
    var normal := NormalRecords(nodes);
    forall i | 0 <= i < |nodes|
      ensures ValidRecord(normal[i]) && Skeleton(digest, normal[i]).isSealed && normal[i].id == nodes[i].id && normal[i] == NormalRecord(nodes[i])
    {
      assert nodes[i] in nodes;
      NormalIsSealed(digest, nodes[i]);
      NormalKeepsId(nodes[i]);
    }
    forall i, j | 0 <= i < j < |normal|
      ensures normal[i].id != normal[j].id
    {
      NoRepeatsAt(nodes, i, j);
    }
    NoRepeatsIfDiffer(normal);
  }

  lemma NormalKeepsId(r: Record)
    ensures NormalRecord(r).id == r.id && multiset(NormalRecord(r).parents) == multiset(r.parents)
  {
  }

  /** Sorting a manifest keeps its graph. */
  lemma NormalIsAlike(digest: Digest, m: Manifest)
    requires EvidenceResults.WellIndexed(Graph(digest, m))
    ensures var n := NormalManifest(m);
            && EvidenceResults.WellIndexed(Graph(digest, n))
            && EvidenceResults.Alike(EvidenceGraph.IndexNodes(Skeletons(digest, m.nodes)).graph, m.roots,
                                     EvidenceGraph.IndexNodes(Skeletons(digest, n.nodes)).graph, n.roots)
  {
    hide EvidenceGraph.IndexNodes, WellNamed, NormalRecords, Skeleton, Sort, EvidenceResults.Alike, EvidenceGraph.RootsOk;
    var n, sorted := NormalManifest(m), Sort(RecordLess, m.nodes);
    IndexedMeans(digest, m.nodes);
    SortedIsWellNamed(digest, m.nodes);
    NormalIsWellNamed(digest, sorted);
    WellNamedIsIndexed(digest, n.nodes);
    SameElements(m.roots, n.roots);
    SameIndex(digest, m, n);
    var g, h := EvidenceGraph.IndexNodes(Skeletons(digest, m.nodes)).graph, EvidenceGraph.IndexNodes(Skeletons(digest, n.nodes)).graph;
    RootsStayOk(g, m.roots, h, n.roots);
  }

  lemma SameIndex(digest: Digest, m: Manifest, n: Manifest)
    requires n == NormalManifest(m)
    requires EvidenceGraph.IndexNodes(Skeletons(digest, m.nodes)).Indexed? && EvidenceGraph.IndexNodes(Skeletons(digest, n.nodes)).Indexed?
    ensures EvidenceResults.Alike(EvidenceGraph.IndexNodes(Skeletons(digest, m.nodes)).graph, m.roots,
                                  EvidenceGraph.IndexNodes(Skeletons(digest, n.nodes)).graph, n.roots)
  {
    hide EvidenceGraph.IndexNodes, Skeleton, Sort, NormalRecord;
    var sm, sn := Skeletons(digest, m.nodes), Skeletons(digest, n.nodes);
    var g, h := EvidenceGraph.IndexNodes(sm).graph, EvidenceGraph.IndexNodes(sn).graph;
    IndexMeans(sm);
    IndexMeans(sn);
    SameElements(m.roots, n.roots);
    SameElements(m.nodes, Sort(RecordLess, m.nodes));
    forall r | r in m.nodes
      ensures r.id in g && r.id in h && g[r.id] == r.parents && multiset(h[r.id]) == multiset(r.parents)
    {
      IndexedRecord(digest, m.nodes, g, r);
      var i :| 0 <= i < |n.nodes| && Sort(RecordLess, m.nodes)[i] == r;
      assert n.nodes[i] == NormalRecord(r);
      NormalKeepsId(r);
      IndexedRecord(digest, n.nodes, h, n.nodes[i]);
    }
    forall x | x in g
      ensures x in h && forall y :: y in g[x] <==> y in h[x]
    {
      IndexedBy(digest, m.nodes, g, x);
      var r :| r in m.nodes && r.id == x;
      SameElements(g[x], h[x]);
    }
    forall x | x in h
      ensures x in g
    {
      IndexedBy(digest, n.nodes, h, x);
      var k :| k in n.nodes && k.id == x;
      var i :| 0 <= i < |n.nodes| && n.nodes[i] == k;
      NormalKeepsId(Sort(RecordLess, m.nodes)[i]);
      assert Sort(RecordLess, m.nodes)[i] in m.nodes;
    }
  }

  lemma IndexedRecord(digest: Digest, nodes: seq<Record>, g: EvidenceGraph.Graph<string>, r: Record)
    requires IndexOf(Skeletons(digest, nodes), g) && r in nodes
    ensures r.id in g && g[r.id] == r.parents
  {
    hide Skeleton;
    SealedMeans(digest, r);
    var i :| 0 <= i < |nodes| && nodes[i] == r;
    assert Skeletons(digest, nodes)[i] == Skeleton(digest, r);
    assert Skeleton(digest, r) in Skeletons(digest, nodes);
  }

  lemma IndexedBy(digest: Digest, nodes: seq<Record>, g: EvidenceGraph.Graph<string>, x: string)
    requires IndexOf(Skeletons(digest, nodes), g) && x in g
    ensures exists r :: r in nodes && r.id == x
  {
    hide Skeleton;
    var sk := Skeletons(digest, nodes);
    var n :| n in sk && n.id == x;
    var i :| 0 <= i < |sk| && sk[i] == n;
    SealedMeans(digest, nodes[i]);
    assert nodes[i] in nodes && nodes[i].id == x;
  }

  lemma {:induction false} RootsMean(g: EvidenceGraph.Graph<string>, roots: seq<string>)
    ensures EvidenceGraph.RootsOk(g, roots) <==> NoRepeats(roots) && forall r :: r in roots ==> r in g
  {
    if roots != [] {
      RootsMean(g, roots[1..]);
      assert forall r :: r in roots <==> r == roots[0] || r in roots[1..];
    }
  }

  lemma RootsStayOk(g: EvidenceGraph.Graph<string>, a: seq<string>, h: EvidenceGraph.Graph<string>, b: seq<string>)
    requires EvidenceGraph.RootsOk(g, a) && multiset(a) == multiset(b) && EvidenceResults.Alike(g, a, h, b)
    ensures EvidenceGraph.RootsOk(h, b)
  {
    RootsMean(g, a);
    RootsMean(h, b);
    StillNoRepeats(a, b);
  }

  // ---------- Round trips ----------

  /** Whatever is written from valid records reads as the sorted manifest, if that one is accepted. */
  lemma ReadsBack(digest: Digest, m: Manifest)
    requires forall r :: r in m.nodes ==> ValidRecord(r)
    ensures FromJson(digest, ToJson(m)) == if Accepted(digest, NormalManifest(m)) then Some(NormalManifest(m)) else None
  {
    hide Name, Named, ExactKeys, Accepted, RecordList, ParseRecords, Texts, ParseTexts, Sort, NormalRecords, ValidRecord;
    var nodes := Sort(RecordLess, m.nodes);
    SameElements(nodes, m.nodes);
    RecordListReads(nodes);
    TextsRoundTrip(Sort(Less, m.roots));
    var fields := map[Type := Text("topo.artifact-evidence"), SchemaVersion := Number(m.schemaVersion),
                      Nodes := RecordList(nodes), Roots := Texts(Sort(Less, m.roots))];
    NamedHas(fields);
    assert fields.Keys == MANIFEST_KEYS;
    assert Narrow(m.schemaVersion) == m.schemaVersion;
  }

  /** No chain from a root has more than 256 links. */
  ghost predicate ShallowManifest(digest: Digest, m: Manifest) {
    var index := EvidenceGraph.IndexNodes(Skeletons(digest, m.nodes));
    index.Indexed? && EvidenceResults.Shallow(index.graph, m.roots)
  }

  /** An accepted manifest without deep chains is read back in its sorted form. */
  lemma RoundTrip(digest: Digest, m: Manifest)
    requires Accepted(digest, m) && ShallowManifest(digest, m)
    ensures FromJson(digest, ToJson(m)) == Some(NormalManifest(m))
  {
    hide FromJson, ToJson, EvidenceGraph.GraphValid, EvidenceGraph.IndexNodes, EvidenceResults.Shallow, EvidenceResults.Good, EvidenceResults.Alike, NormalManifest;
    EvidenceResults.AcceptanceMeans(Graph(digest, m));
    IndexedMeans(digest, m.nodes);
    NormalIsAlike(digest, m);
    EvidenceResults.OrderDoesNotMatter(Graph(digest, m), Graph(digest, NormalManifest(m)));
    ReadsBack(digest, m);
  }

  // ---------- One text for each manifest ----------

  lemma SortOfAscending<T(!new)>(less: (T, T) -> bool, xs: seq<T>)
    requires Ascending(less, xs) && Orders(less, xs) && NoRepeats(xs)
    ensures Sort(less, xs) == xs
  {
    SortAscends(less, xs);
    SameElements(Sort(less, xs), xs);
    AscendingIsUnique(less, xs, Sort(less, xs));
  }

  lemma {:induction false} NormalAscends(nodes: seq<Record>)
    requires Ascending(RecordLess, nodes)
    ensures Ascending(RecordLess, NormalRecords(nodes))
  {
    hide NormalRecord, Less;
    if |nodes| > 1 {
      NormalAscends(nodes[1..]);
      NormalKeepsId(nodes[0]);
      NormalKeepsId(nodes[1]);
      assert NormalRecords(nodes)[1..] == NormalRecords(nodes[1..]);
    }
  }

  lemma NormalTwice(digest: Digest, nodes: seq<Record>)
    requires WellNamed(digest, nodes)
    ensures NormalRecords(NormalRecords(nodes)) == NormalRecords(nodes)
  {
    hide ValidRecord, Skeleton, NormalRecord;
    forall i | 0 <= i < |nodes|
      ensures NormalRecord(NormalRecord(nodes[i])) == NormalRecord(nodes[i])
    {
      assert nodes[i] in nodes;
      NormalIsSealed(digest, nodes[i]);
    }
  }

  /** The sorted form of an accepted manifest is its own sorted form. */
  lemma NormalIsStable(digest: Digest, m: Manifest)
    requires Accepted(digest, m)
    ensures NormalManifest(NormalManifest(m)) == NormalManifest(m)
  {
    hide EvidenceGraph.GraphValid, EvidenceGraph.IndexNodes, EvidenceResults.Good, WellNamed, NormalRecords, Sort;
    EvidenceResults.AcceptanceMeans(Graph(digest, m));
    IndexedMeans(digest, m.nodes);
    var sorted := Sort(RecordLess, m.nodes);
    SortedIsWellNamed(digest, m.nodes);
    RecordsAreOrdered(digest, m.nodes);
    assert NoRepeats(m.nodes) by { WellNamedHasNoRepeats(digest, m.nodes); }
    SortAscends(RecordLess, m.nodes);
    NormalAscends(sorted);
    NormalIsWellNamed(digest, sorted);
    RecordsAreOrdered(digest, NormalRecords(sorted));
    WellNamedHasNoRepeats(digest, NormalRecords(sorted));
    SortOfAscending(RecordLess, NormalRecords(sorted));
    NormalTwice(digest, sorted);
    RootsMean(EvidenceGraph.IndexNodes(Skeletons(digest, m.nodes)).graph, m.roots);
    LessOrders(m.roots);
    SortIsIdempotent(Less, m.roots);
  }

  lemma WellNamedHasNoRepeats(digest: Digest, nodes: seq<Record>)
    requires WellNamed(digest, nodes)
    ensures NoRepeats(nodes)
  {
  }

  lemma SameRecordJson(r: Record, s: Record)
    requires NormalRecord(r) == NormalRecord(s)
    ensures RecordJson(r) == RecordJson(s)
  {
    hide Named, RecordFields, Sort;
    FieldsOfNormal(r, s);
    assert r.id == NormalRecord(r).id && s.id == NormalRecord(s).id;
  }

  lemma SameRecordList(a: seq<Record>, b: seq<Record>)
    requires NormalRecords(a) == NormalRecords(b)
    ensures RecordList(a) == RecordList(b)
  {
    hide NormalRecord, RecordJson;
    assert |a| == |b|;
    forall i | 0 <= i < |a|
      ensures RecordJson(a[i]) == RecordJson(b[i])
    {
      assert NormalRecords(a)[i] == NormalRecords(b)[i];
      SameRecordJson(a[i], b[i]);
    }
  }

  /** Manifests of valid records are written alike exactly when they have the same sorted form. */
  lemma WrittenAlike(a: Manifest, b: Manifest)
    requires forall r :: r in a.nodes + b.nodes ==> ValidRecord(r)
    ensures ToJson(a) == ToJson(b) <==> NormalManifest(a) == NormalManifest(b)
  {
    hide ValidRecord, Name, Named, RecordList, ParseRecords, Texts, ParseTexts, Sort, NormalRecords;
    var na, nb := Sort(RecordLess, a.nodes), Sort(RecordLess, b.nodes);
    if NormalManifest(a) == NormalManifest(b) {
      SameRecordList(na, nb);
    } else if ToJson(a) == ToJson(b) {
      SameElements(na, a.nodes);
      SameElements(nb, b.nodes);
      RecordListReads(na);
      RecordListReads(nb);
      TextsRoundTrip(Sort(Less, a.roots));
      TextsRoundTrip(Sort(Less, b.roots));
      WrittenFields(a, b);
    }
  }

  lemma WrittenFields(a: Manifest, b: Manifest)
    requires ToJson(a) == ToJson(b)
    ensures a.schemaVersion == b.schemaVersion && Texts(Sort(Less, a.roots)) == Texts(Sort(Less, b.roots))
    ensures RecordList(Sort(RecordLess, a.nodes)) == RecordList(Sort(RecordLess, b.nodes))
  {
    hide Name, Named, RecordList, Texts, Sort;
    var fa := map[Type := Text("topo.artifact-evidence"), SchemaVersion := Number(a.schemaVersion),
                  Nodes := RecordList(Sort(RecordLess, a.nodes)), Roots := Texts(Sort(Less, a.roots))];
    var fb := map[Type := Text("topo.artifact-evidence"), SchemaVersion := Number(b.schemaVersion),
                  Nodes := RecordList(Sort(RecordLess, b.nodes)), Roots := Texts(Sort(Less, b.roots))];
    NamedIsInjective(fa, fb);
    assert fa[SchemaVersion] == fb[SchemaVersion] && fa[Nodes] == fb[Nodes] && fa[Roots] == fb[Roots];
  }

  /** Sorting an accepted manifest without deep chains leaves its digest alone. */
  lemma DigestOfNormal(digest: Digest, m: Manifest)
    requires Accepted(digest, m) && ShallowManifest(digest, m)
    ensures ManifestDigest(digest, NormalManifest(m)) == ManifestDigest(digest, m)
  {
    hide Typed, ToJson, FromJson, NormalManifest, EvidenceGraph.GraphValid, EvidenceGraph.IndexNodes, EvidenceResults.Good, EvidenceResults.Shallow;
    RoundTrip(digest, m);
    ReadIsAccepted(digest, ToJson(m));
    NormalIsStable(digest, m);
    EvidenceResults.AcceptanceMeans(Graph(digest, m));
    EvidenceResults.AcceptanceMeans(Graph(digest, NormalManifest(m)));
    IndexedMeans(digest, m.nodes);
    IndexedMeans(digest, NormalManifest(m).nodes);
    WrittenAlike(NormalManifest(m), m);
  }

  lemma ReadIsAccepted(digest: Digest, j: Json)
    ensures FromJson(digest, j).Some? ==> Accepted(digest, FromJson(digest, j).value)
  {
    hide Name, ExactKeys, ParseRecords, ParseTexts, Accepted;
    if ExactKeys(j, MANIFEST_KEYS) {
      KeysAreThere(j, MANIFEST_KEYS);
    }
  }

  lemma KeysAreThere(j: Json, keys: set<Field>)
    requires ExactKeys(j, keys)
    ensures j.Object? && forall f :: f in keys ==> Name(f) in j.fields
  {
    hide Name;
  }

  /** `j` with another version number. */
  function WithVersion(j: Json, n: Wide): Json
    requires j.Object?
  {
    Object(j.fields[Name(SchemaVersion) := Number(n)])
  }

  /** The version number is read as 32 bits, so numbers that differ by a multiple of 2^32 are one version. */
  lemma VersionWraps(digest: Digest, j: Json, n: Wide, m: Wide)
    requires ExactKeys(j, MANIFEST_KEYS) && Narrow(n) == Narrow(m)
    ensures FromJson(digest, WithVersion(j, n)) == FromJson(digest, WithVersion(j, m))
  {
    hide Name, ParseRecords, ParseTexts, Accepted, WithVersion, ExactKeys, At;
    OtherFieldsStay(j, n, Type);
    OtherFieldsStay(j, n, Nodes);
    OtherFieldsStay(j, n, Roots);
    OtherFieldsStay(j, m, Type);
    OtherFieldsStay(j, m, Nodes);
    OtherFieldsStay(j, m, Roots);
  }

  lemma OtherFieldsStay(j: Json, n: Wide, f: Field)
    requires ExactKeys(j, MANIFEST_KEYS) && f in MANIFEST_KEYS && f != SchemaVersion
    ensures j.Object? && Name(f) in j.fields && ExactKeys(WithVersion(j, n), MANIFEST_KEYS)
    ensures WithVersion(j, n).Object? && Name(f) in WithVersion(j, n).fields && Name(SchemaVersion) in WithVersion(j, n).fields
    ensures At(WithVersion(j, n), f) == At(j, f) && At(WithVersion(j, n), SchemaVersion) == Number(n)
  {
    hide Name;
    NamesDiffer();
    KeysAreThere(j, MANIFEST_KEYS);
    assert WithVersion(j, n).fields.Keys == j.fields.Keys;
  }

  lemma NarrowToOne(n: Wide)
    ensures Narrow(n) == 1 <==> n % 0x1_0000_0000 == 1
  {
    var q := (n + 0x8000_0000) / 0x1_0000_0000;
    assert n + 0x8000_0000 == q * 0x1_0000_0000 + (n + 0x8000_0000) % 0x1_0000_0000;
  }

  lemma ReadVersion(digest: Digest, j: Json)
    requires FromJson(digest, j).Some?
    ensures ExactKeys(j, MANIFEST_KEYS) && j.Object? && Name(SchemaVersion) in j.fields && At(j, SchemaVersion).Number?
    ensures Narrow(At(j, SchemaVersion).num) == 1
  {
    hide Name, ParseRecords, ParseTexts, EvidenceGraph.IndexNodes, EvidenceGraph.VisitAll, Skeletons;
    KeysAreThere(j, MANIFEST_KEYS);
  }

  /** A manifest that is accepted with its own version number is accepted with exactly those that leave 1
      when divided by 2^32. */
  lemma AcceptedVersions(digest: Digest, j: Json, n: Wide)
    requires FromJson(digest, j).Some?
    ensures FromJson(digest, WithVersion(j, n)).Some? <==> n % 0x1_0000_0000 == 1
  {
    hide FromJson, ExactKeys, Name;
    ReadVersion(digest, j);
    NarrowToOne(n);
    var own := At(j, SchemaVersion).num;
    assert WithVersion(j, own) == j by { assert j.fields[Name(SchemaVersion) := j.fields[Name(SchemaVersion)]] == j.fields; }
    if FromJson(digest, WithVersion(j, n)).Some? {
      ReadVersion(digest, WithVersion(j, n));
      assert At(WithVersion(j, n), SchemaVersion) == Number(n);
    }
    if Narrow(n) == 1 {
      VersionWraps(digest, j, n, own);
    }
  }

  /** So version 4294967297 is accepted wherever version 1 is. */
  lemma WrongVersionAccepted(digest: Digest, m: Manifest)
    requires Accepted(digest, m) && ShallowManifest(digest, m)
    ensures ToJson(m).Object? && FromJson(digest, WithVersion(ToJson(m), 0x1_0000_0001)) == Some(NormalManifest(m))
  {
    hide FromJson, Accepted, ShallowManifest, NormalManifest, RecordList, Texts, Name, ExactKeys;
    RoundTrip(digest, m);
    ReadVersion(digest, ToJson(m));
    var own := At(ToJson(m), SchemaVersion).num;
    assert WithVersion(ToJson(m), own) == ToJson(m) by {
      var fields := ToJson(m).fields;
      assert fields[Name(SchemaVersion) := fields[Name(SchemaVersion)]] == fields;
    }
    VersionWraps(digest, ToJson(m), 0x1_0000_0001, own);
  }
}
