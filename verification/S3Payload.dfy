/**
 * Offloading of payloads to S3: incoming s3:// strings are replaced by local paths, outgoing local
 * paths by s3:// strings with an entry in a metadata table. Both walk a JSON tree in order.
 */
module S3Payload {
  import opened Prelude
  import opened KeyPath

  /** A container is the sequence of its entries: keys in order for an object, 0, 1, ... for a list. */
  datatype Json = Null | Bool(b: bool) | Number(n: real) | Str(s: string) | Node(isList: bool, entries: seq<Entry>)
  datatype Entry = Entry(seg: Seg, value: Json)

  datatype Result<+T> = Ok(value: T) | Raised

  // ---------------------------------------------------------------------------
  // Strings and POSIX paths
  // ---------------------------------------------------------------------------

  predicate StartsWith(s: string, prefix: string) {
    |prefix| <= |s| && s[..|prefix|] == prefix
  }

  predicate IsUri(s: string) {
    StartsWith(s, "s3://")
  }

  function Join(a: string, b: string): string {
    if StartsWith(b, "/") then b
    else if a == "" || a[|a| - 1] == '/' then a + b
    else a + "/" + b
  }

  function Basename(path: string): (b: string)
    ensures '/' !in b
  {
    if path == "" || path[|path| - 1] == '/' then "" else Basename(path[..|path| - 1]) + [path[|path| - 1]]
  }

  function StripRight(s: string): string {
    if s != "" && s[|s| - 1] == '/' then StripRight(s[..|s| - 1]) else s
  }

  function StripLeft(s: string): string {
    if s != "" && s[0] == '/' then StripLeft(s[1..]) else s
  }

  /** A path put together from a directory that is not an s3:// string is not one either. */
  lemma JoinedIsNoUri(root: string, name: string)
    requires !IsUri(root) && '/' !in name
    ensures !IsUri(Join(root, name))
  {
    var path := Join(root, name);
    assert name != "" ==> name[0] in name;
    if |root| >= 5 {
      assert path[..5] == root[..5];
    } else if |path| >= 5 {
      assert path[|path| - |name|..] == name;
      assert |path| - |name| <= 4 ==> path[4] in name;
      assert path[4] == '/' ==> path[3] != '/';
    }
  }

  /** Names without slashes stay apart under one directory, and can be read back from the path. */
  lemma JoinedNames(root: string, a: string, b: string)
    requires '/' !in a && '/' !in b
    ensures Basename(Join(root, a)) == a
    ensures Join(root, a) == Join(root, b) ==> a == b
  {
    NamePart(root, a);
    NamePart(root, b);
  }

  lemma NamePart(root: string, name: string)
    requires '/' !in name
    ensures Basename(Join(root, name)) == name
  {
    assert name != "" ==> name[0] in name;
    var dir := if root == "" || root[|root| - 1] == '/' then root else root + "/";
    assert Join(root, name) == dir + name;
    BasenameOf(dir, name);
  }

  lemma {:induction false} BasenameOf(dir: string, name: string)
    requires '/' !in name && (dir == "" || dir[|dir| - 1] == '/')
    ensures Basename(dir + name) == name
  {
    var path := dir + name;
    if name == "" {
      assert path == dir;
    } else {
      var init := name[..|name| - 1];
      BasenameOf(dir, init);
      assert path[..|path| - 1] == dir + init;
      assert name[|name| - 1] in name;
      assert init + [name[|name| - 1]] == name;
    }
  }

  // ---------------------------------------------------------------------------
  // Incoming parameters
  // ---------------------------------------------------------------------------

  /** What a URI means: its key, and whether it names a folder. */
  datatype Target = Target(key: string, isDir: bool)

  /** The URI parser and the downloads, each of which may raise, and the directory of the task. */
  datatype ParamsEnv = ParamsEnv(root: string, parse: string -> Option<Target>, download: string -> bool) {
    function LocalPath(t: Target): string {
      Join(root, Basename(if t.isDir then StripRight(t.key) else t.key))
    }

    function Fetch(uri: string): Result<Json> {
      if parse(uri).None? || !download(uri) then Raised else Ok(Str(LocalPath(parse(uri).value)))
    }
  }

  function RewriteParams(e: ParamsEnv, item: Json): Result<Json>
    decreases item, 1
  {
    match item
    case Str(s) => if IsUri(s) then e.Fetch(s) else Ok(item)
    case Node(isList, entries) =>
      var r := RewriteParamEntries(e, entries);
      if r.Raised? then Raised else Ok(Node(isList, r.value))
    case _ => Ok(item)
  }

  function RewriteParamEntries(e: ParamsEnv, entries: seq<Entry>): Result<seq<Entry>>
    decreases entries, 0
  {
    if entries == [] then Ok([])
    else
      var last := entries[|entries| - 1];
      assert last.value < last;
      var before := RewriteParamEntries(e, entries[..|entries| - 1]);
      if before.Raised? then Raised
      else
        var r := RewriteParams(e, last.value);
        if r.Raised? then Raised else Ok(before.value + [Entry(last.seg, r.value)])
  }

  /** The s3:// leaves in the order of the walk. */
  function Uris(item: Json): seq<string>
    decreases item, 1
  {
    match item
    case Str(s) => if IsUri(s) then [s] else []
    case Node(_, entries) => EntryUris(entries)
    case _ => []
  }

  function EntryUris(entries: seq<Entry>): seq<string>
    decreases entries, 0
  {
    if entries == [] then []
    else
      var last := entries[|entries| - 1];
      assert last.value < last;
      EntryUris(entries[..|entries| - 1]) + Uris(last.value)
  }

  /**
   * b is a with every s3:// leaf replaced by the local path of its target, and otherwise the same:
   * same containers, same keys in the same order, same lengths, same leaves.
   */
  ghost predicate Localised(e: ParamsEnv, a: Json, b: Json)
    decreases a
  {
    match a
    case Str(s) => if IsUri(s) then e.parse(s).Some? && b == Str(e.LocalPath(e.parse(s).value)) else b == a
    case Node(isList, entries) =>
      && b.Node? && b.isList == isList && |b.entries| == |entries|
      && (forall i :: 0 <= i < |entries| ==>
                        b.entries[i].seg == entries[i].seg && Localised(e, entries[i].value, b.entries[i].value))
    case _ => b == a
  }

  /** Rewriting succeeds exactly if every URI can be parsed and downloaded, and then only localises. */
  lemma {:induction false} ParamsKeepShape(e: ParamsEnv, item: Json)
    ensures RewriteParams(e, item).Ok? <==> forall u :: u in Uris(item) ==> e.parse(u).Some? && e.download(u)
    ensures RewriteParams(e, item).Ok? ==> Localised(e, item, RewriteParams(e, item).value)
    decreases item, 1
  {
    if item.Node? {
      ParamEntriesKeepShape(e, item.entries);
    } else if item.Str? && IsUri(item.s) {
      assert Uris(item) == [item.s];
    }
  }

  lemma {:induction false} ParamEntriesKeepShape(e: ParamsEnv, entries: seq<Entry>)
    ensures var r := RewriteParamEntries(e, entries);
            && (r.Ok? <==> forall u :: u in EntryUris(entries) ==> e.parse(u).Some? && e.download(u))
            && (r.Ok? ==>
                  && |r.value| == |entries|
                  && forall i :: 0 <= i < |entries| ==>
                                   r.value[i].seg == entries[i].seg && Localised(e, entries[i].value, r.value[i].value))
    decreases entries, 0
  {
    if entries != [] {
      var last := entries[|entries| - 1];
      assert last.value < last;
      ParamEntriesKeepShape(e, entries[..|entries| - 1]);
      ParamsKeepShape(e, last.value);
    }
  }

  /** No s3:// leaf is left behind. */
  lemma {:induction false} LocalisedHasNoUris(e: ParamsEnv, a: Json, b: Json)
    requires !IsUri(e.root) && Localised(e, a, b)
    ensures Uris(b) == []
    decreases a
  {
    match a
    case Str(s) =>
      if IsUri(s) {
        var t := e.parse(s).value;
        JoinedIsNoUri(e.root, Basename(if t.isDir then StripRight(t.key) else t.key));
      }
    case Node(_, entries) =>
      forall i | 0 <= i < |entries| ensures Uris(b.entries[i].value) == [] {
        LocalisedHasNoUris(e, entries[i].value, b.entries[i].value);
      }
      NoEntryUris(b.entries);
    case _ =>
  }

  lemma {:induction false} NoEntryUris(entries: seq<Entry>)
    requires forall i :: 0 <= i < |entries| ==> Uris(entries[i].value) == []
    ensures EntryUris(entries) == []
  {
    if entries != [] {
      NoEntryUris(entries[..|entries| - 1]);
    }
  }

  lemma EmptyParts(a: seq<string>, b: seq<string>)
    requires a + b == []
    ensures a == [] && b == []
  {
    assert |a + b| == |a| + |b|;
  }

  /** A tree without s3:// leaves is left alone, whatever the environment. */
  lemma {:induction false} NoUrisUnchanged(e: ParamsEnv, item: Json)
    requires Uris(item) == []
    ensures RewriteParams(e, item) == Ok(item)
    decreases item, 1
  {
    if item.Node? {
      NoEntryUrisUnchanged(e, item.entries);
    }
  }

  lemma {:induction false} NoEntryUrisUnchanged(e: ParamsEnv, entries: seq<Entry>)
    requires EntryUris(entries) == []
    ensures RewriteParamEntries(e, entries) == Ok(entries)
    decreases entries, 0
  {
    if entries != [] {
      var init, last := entries[..|entries| - 1], entries[|entries| - 1];
      assert last.value < last;
      NoUrisInParts(entries);
      hide Uris, EntryUris, RewriteParams, RewriteParamEntries;
      NoEntryUrisUnchanged(e, init);
      NoUrisUnchanged(e, last.value);
      LastParamEntry(e, entries, init, last.value);
      assert init + [last] == entries;
    }
  }

  lemma NoUrisInParts(entries: seq<Entry>)
    requires entries != [] && EntryUris(entries) == []
    ensures EntryUris(entries[..|entries| - 1]) == [] && Uris(entries[|entries| - 1].value) == []
  {
    EmptyParts(EntryUris(entries[..|entries| - 1]), Uris(entries[|entries| - 1].value));
  }

  lemma LastParamEntry(e: ParamsEnv, entries: seq<Entry>, before: seq<Entry>, value: Json)
    requires entries != [] && RewriteParamEntries(e, entries[..|entries| - 1]) == Ok(before)
    requires RewriteParams(e, entries[|entries| - 1].value) == Ok(value)
    ensures RewriteParamEntries(e, entries) == Ok(before + [Entry(entries[|entries| - 1].seg, value)])
  {
  }

  /** A second pass, even by another task in another environment, changes and downloads nothing. */
  lemma ParamsIdempotent(e: ParamsEnv, again: ParamsEnv, item: Json)
    requires !IsUri(e.root) && RewriteParams(e, item).Ok?
    ensures Uris(RewriteParams(e, item).value) == []
    ensures RewriteParams(again, RewriteParams(e, item).value) == RewriteParams(e, item)
  {
    ParamsKeepShape(e, item);
    LocalisedHasNoUris(e, item, RewriteParams(e, item).value);
    NoUrisUnchanged(again, RewriteParams(e, item).value);
  }

  // ---------------------------------------------------------------------------
  // Outgoing results
  // ---------------------------------------------------------------------------

  datatype Stored = Stored(etag: string, size: nat)
  datatype Metadata = Metadata(uri: string, size: nat, etag: string)
  type Table = map<string, Metadata>

  /**
   * Which local files are present, and what uploading one from a given place in the result gives,
   * or that it raises.
   */
  datatype ResultEnv = ResultEnv(
    filesDir: string, bucket: string, prefix: string,
    present: string -> bool, upload: (string, string) -> Option<Stored>)
  {
    predicate Uploads(item: Json) {
      item.Str? && StartsWith(item.s, filesDir) && present(item.s)
    }

    function TargetUri(path: string): string {
      "s3://" + bucket + "/" + StripLeft(Join(prefix, Basename(path)))
    }

    function MetadataOf(path: string, stored: Stored): Metadata {
      Metadata(TargetUri(path), stored.size, stored.etag)
    }
  }

  datatype Rewritten<T> = Rewritten(out: T, table: Table)

  function RewriteResult(e: ResultEnv, item: Json, keyPath: string, table: Table): Result<Rewritten<Json>>
    decreases item, 1
  {
    if e.Uploads(item) then
      var stored := e.upload(item.s, keyPath);
      if stored.None? then Raised
      else Ok(Rewritten(Str(e.TargetUri(item.s)), table[keyPath := e.MetadataOf(item.s, stored.value)]))
    else match item
      case Node(isList, entries) =>
        var r := RewriteResultEntries(e, entries, keyPath, table);
        if r.Raised? then Raised else Ok(Rewritten(Node(isList, r.value.out), r.value.table))
      case _ => Ok(Rewritten(item, table))
  }

  function RewriteResultEntries(e: ResultEnv, entries: seq<Entry>, keyPath: string, table: Table)
    : Result<Rewritten<seq<Entry>>>
    decreases entries, 0
  {
    if entries == [] then Ok(Rewritten([], table))
    else
      var last := entries[|entries| - 1];
      assert last.value < last;
      var before := RewriteResultEntries(e, entries[..|entries| - 1], keyPath, table);
      if before.Raised? then Raised
      else
        var r := RewriteResult(e, last.value, Extend(keyPath, last.seg), before.value.table);
        if r.Raised? then Raised
        else Ok(Rewritten(before.value.out + [Entry(last.seg, r.value.out)], r.value.table))
  }

  // ---------------------------------------------------------------------------
  // Places in a tree, independently of any walk
  // ---------------------------------------------------------------------------

  function Lookup(entries: seq<Entry>, seg: Seg): Option<Json> {
    if entries == [] then None
    else if entries[|entries| - 1].seg == seg then Some(entries[|entries| - 1].value)
    else Lookup(entries[..|entries| - 1], seg)
  }

  function At(item: Json, p: Path): Option<Json>
    decreases |p|
  {
    if p == [] then Some(item)
    else if !item.Node? || Lookup(item.entries, p[0]).None? then None
    else At(Lookup(item.entries, p[0]).value, p[1..])
  }

  /** No key or index twice. */
  ghost predicate NoRepeats(item: Json)
    decreases item
  {
    item.Node? ==>
      && (forall i, j :: 0 <= i < j < |item.entries| ==> item.entries[i].seg != item.entries[j].seg)
      && (forall i :: 0 <= i < |item.entries| ==> NoRepeats(item.entries[i].value))
  }

  /** Keys that cannot be mistaken for path syntax. */
  ghost predicate PlainKeys(item: Json)
    decreases item
  {
    item.Node? ==>
      && (forall i :: 0 <= i < |item.entries| && item.entries[i].seg.Key? ==> PlainKey(item.entries[i].seg.name))
      && (forall i :: 0 <= i < |item.entries| ==> PlainKeys(item.entries[i].value))
  }

  ghost predicate WellFormed(item: Json) {
    NoRepeats(item) && PlainKeys(item)
  }

  /** At this place stands a local file that gets uploaded. */
  ghost predicate Uploaded(e: ResultEnv, item: Json, p: Path) {
    At(item, p).Some? && e.Uploads(At(item, p).value)
  }

  lemma {:induction false} LookupIs(entries: seq<Entry>, seg: Seg)
    requires forall i, j :: 0 <= i < j < |entries| ==> entries[i].seg != entries[j].seg
    ensures Lookup(entries, seg).Some? <==> exists i :: 0 <= i < |entries| && entries[i].seg == seg
    ensures forall i :: 0 <= i < |entries| && entries[i].seg == seg ==> Lookup(entries, seg) == Some(entries[i].value)
  {
    if entries != [] {
      LookupIs(entries[..|entries| - 1], seg);
    }
  }

  /** The place p below entry j is the place [seg] + p of the container. */
  lemma BelowEntry(item: Json, j: nat, p: Path)
    requires NoRepeats(item) && item.Node? && j < |item.entries|
    ensures At(item, [item.entries[j].seg] + p) == At(item.entries[j].value, p)
  {
    LookupIs(item.entries, item.entries[j].seg);
    assert ([item.entries[j].seg] + p)[1..] == p;
  }

  lemma {:induction false} PlacesArePlain(item: Json, p: Path)
    requires WellFormed(item) && At(item, p).Some?
    ensures Plain(p)
    decreases |p|
  {
    if p != [] {
      LookupIs(item.entries, p[0]);
      var j :| 0 <= j < |item.entries| && item.entries[j].seg == p[0];
      PlacesArePlain(item.entries[j].value, p[1..]);
      assert forall i :: 1 <= i < |p| ==> p[i] == p[1..][i - 1];
    }
  }

  // ---------------------------------------------------------------------------
  // Incoming parameters, place by place
  // ---------------------------------------------------------------------------

  lemma {:induction false} LocalisedAt(e: ParamsEnv, a: Json, b: Json, p: Path)
    requires NoRepeats(a) && Localised(e, a, b)
    ensures At(a, p).Some? <==> At(b, p).Some?
    ensures At(a, p).Some? ==> Localised(e, At(a, p).value, At(b, p).value)
    decreases |p|
  {
    if p != [] && a.Node? {
      LookupIs(a.entries, p[0]);
      LookupIs(b.entries, p[0]);
      if j :| 0 <= j < |a.entries| && a.entries[j].seg == p[0] {
        assert b.entries[j].seg == p[0];
        LocalisedAt(e, a.entries[j].value, b.entries[j].value, p[1..]);
      }
    }
  }

  /** The string stands somewhere in the tree. */
  ghost predicate Occurs(item: Json, u: string) {
    exists p :: At(item, p) == Some(Str(u))
  }

  lemma OccursInLeaf(item: Json, u: string)
    requires !item.Node?
    ensures Occurs(item, u) <==> item == Str(u)
  {
    assert At(item, []) == Some(item);
  }

  lemma OccursBelow(item: Json, u: string)
    requires NoRepeats(item) && item.Node?
    ensures Occurs(item, u) <==> exists j :: 0 <= j < |item.entries| && Occurs(item.entries[j].value, u)
  {
    if p :| At(item, p) == Some(Str(u)) {
      LookupIs(item.entries, p[0]);
      var j :| 0 <= j < |item.entries| && item.entries[j].seg == p[0];
      assert At(item.entries[j].value, p[1..]) == Some(Str(u));
      assert Occurs(item.entries[j].value, u);
    }
    if j :| 0 <= j < |item.entries| && Occurs(item.entries[j].value, u) {
      var p :| At(item.entries[j].value, p) == Some(Str(u));
      BelowEntry(item, j, p);
    }
  }

  /** The URIs that are downloaded are the strings of the tree that start with s3://. */
  lemma {:induction false} UrisAreLeaves(item: Json, u: string)
    requires NoRepeats(item)
    ensures u in Uris(item) <==> |u| >= 5 && u[..5] == "s3://" && Occurs(item, u)
    decreases item, 1
  {
    hide Occurs;
    if item.Node? {
      EntryUrisAreLeaves(item.entries, u);
      OccursBelow(item, u);
    } else {
      OccursInLeaf(item, u);
      assert item.Str? ==> (IsUri(item.s) <==> |item.s| >= 5 && item.s[..5] == "s3://");
    }
  }

  lemma {:induction false} EntryUrisAreLeaves(entries: seq<Entry>, u: string)
    requires forall i :: 0 <= i < |entries| ==> NoRepeats(entries[i].value)
    ensures u in EntryUris(entries) <==>
            |u| >= 5 && u[..5] == "s3://" && exists j :: 0 <= j < |entries| && Occurs(entries[j].value, u)
    decreases entries, 0
  {
    hide Occurs, Uris, NoRepeats;
    if entries != [] {
      var init, last := entries[..|entries| - 1], entries[|entries| - 1];
      assert last.value < last;
      EntryUrisAreLeaves(init, u);
      UrisAreLeaves(last.value, u);
      InBoth(EntryUris(init), Uris(last.value), u);
      assert forall j :: 0 <= j < |init| ==> init[j] == entries[j];
      assert entries[|init|] == last;
    }
  }

  /** They are downloaded in the order in which they stand. */
  lemma {:induction false} UrisInOrder(a: seq<Entry>, b: seq<Entry>, u: string)
    ensures EntryUris(a + b) == EntryUris(a) + EntryUris(b)
    ensures Uris(Str("s3://" + u)) == ["s3://" + u]
    ensures forall isList :: Uris(Node(isList, a)) == EntryUris(a)
    decreases |b|
  {
    assert ("s3://" + u)[..5] == "s3://";
    if b == [] {
      assert a + b == a;
    } else {
      var init, last := b[..|b| - 1], b[|b| - 1];
      UrisInOrder(a, init, u);
      assert (a + b)[..|a + b| - 1] == a + init && (a + b)[|a + b| - 1] == last;
      assert EntryUris(b) == EntryUris(init) + Uris(last.value);
      assert EntryUris(a + b) == EntryUris(a + init) + Uris(last.value);
    }
  }

  lemma InBoth(a: seq<string>, b: seq<string>, u: string)
    ensures u in a + b <==> u in a || u in b
  {
  }

  /**
   * Parameters are rewritten exactly if every string in them that starts with s3:// can be parsed
   * and downloaded; then each of these is the local path of its target and any other leaf as it was.
   */
  lemma ParamLeaves(e: ParamsEnv, item: Json, p: Path)
    requires NoRepeats(item)
    ensures var r := RewriteParams(e, item);
            && (r.Ok? <==> forall u :: |u| >= 5 && u[..5] == "s3://" && Occurs(item, u) ==>
                                         e.parse(u).Some? && e.download(u))
            && (r.Ok? && At(item, p).Some? && !At(item, p).value.Node? ==>
                  var leaf := At(item, p).value;
                  if leaf.Str? && |leaf.s| >= 5 && leaf.s[..5] == "s3://" then
                    e.parse(leaf.s).Some? && At(r.value, p) == Some(Str(e.LocalPath(e.parse(leaf.s).value)))
                  else At(r.value, p) == Some(leaf))
  {
    hide Occurs, Uris, At, RewriteParams;
    ParamsKeepShape(e, item);
    forall u ensures u in Uris(item) <==> |u| >= 5 && u[..5] == "s3://" && Occurs(item, u) {
      UrisAreLeaves(item, u);
    }
    if RewriteParams(e, item).Ok? {
      LocalisedAt(e, item, RewriteParams(e, item).value, p);
    }
  }

  // ---------------------------------------------------------------------------
  // The rewritten tree
  // ---------------------------------------------------------------------------

  /** b is a with every uploaded leaf replaced by its URI, and otherwise the same. */
  ghost predicate Offloaded(e: ResultEnv, a: Json, b: Json)
    decreases a
  {
    if e.Uploads(a) then b == Str(e.TargetUri(a.s))
    else if a.Node? then
      && b.Node? && b.isList == a.isList && |b.entries| == |a.entries|
      && (forall i :: 0 <= i < |a.entries| ==>
                        b.entries[i].seg == a.entries[i].seg && Offloaded(e, a.entries[i].value, b.entries[i].value))
    else b == a
  }

  lemma {:induction false} ResultKeepsShape(e: ResultEnv, item: Json, keyPath: string, table: Table)
    requires RewriteResult(e, item, keyPath, table).Ok?
    ensures Offloaded(e, item, RewriteResult(e, item, keyPath, table).value.out)
    decreases item, 1
  {
    if item.Node? {
      ResultEntriesKeepShape(e, item.entries, keyPath, table);
    }
  }

  lemma {:induction false} ResultEntriesKeepShape(e: ResultEnv, entries: seq<Entry>, keyPath: string, table: Table)
    requires RewriteResultEntries(e, entries, keyPath, table).Ok?
    ensures var out := RewriteResultEntries(e, entries, keyPath, table).value.out;
            && |out| == |entries|
            && forall i :: 0 <= i < |entries| ==>
                             out[i].seg == entries[i].seg && Offloaded(e, entries[i].value, out[i].value)
    decreases entries, 0
  {
    hide RewriteResult, Offloaded, Extend;
    if entries != [] {
      var before := RewriteResultEntries(e, entries[..|entries| - 1], keyPath, table).value;
      var last := entries[|entries| - 1];
      assert last.value < last;
      ResultEntriesKeepShape(e, entries[..|entries| - 1], keyPath, table);
      ResultKeepsShape(e, last.value, Extend(keyPath, last.seg), before.table);
    }
  }

  lemma {:induction false} OffloadedAt(e: ResultEnv, a: Json, b: Json, p: Path)
    requires NoRepeats(a) && Offloaded(e, a, b)
    ensures At(a, p).Some? <==> At(b, p).Some?
    ensures At(a, p).Some? ==> Offloaded(e, At(a, p).value, At(b, p).value)
    decreases |p|
  {
    if p != [] && a.Node? {
      LookupIs(a.entries, p[0]);
      LookupIs(b.entries, p[0]);
      if j :| 0 <= j < |a.entries| && a.entries[j].seg == p[0] {
        assert b.entries[j].seg == p[0];
        OffloadedAt(e, a.entries[j].value, b.entries[j].value, p[1..]);
      }
    }
  }

  // ---------------------------------------------------------------------------
  // The metadata table
  // ---------------------------------------------------------------------------

  /** The table entry x -> m is that of a file uploaded from somewhere below base. */
  ghost predicate Listed(e: ResultEnv, item: Json, base: Path, x: string, m: Metadata) {
    exists p :: Uploaded(e, item, p) && ListedAs(e, At(item, p).value.s, base + p, x, m)
  }

  ghost predicate ListedAs(e: ResultEnv, file: string, place: Path, x: string, m: Metadata) {
    && x == Render(place)
    && e.upload(file, x).Some? && m == e.MetadataOf(file, e.upload(file, x).value)
  }

  /** What a walk adds to the table: an entry for every upload, and nothing else. */
  ghost predicate Adds(e: ResultEnv, item: Json, base: Path, before: Table, after: Table) {
    && (forall x :: x in after ==> (x in before && after[x] == before[x]) || Listed(e, item, base, x, after[x]))
    && (forall p :: Uploaded(e, item, p) ==> Render(base + p) in after)
    && before.Keys <= after.Keys
  }

  ghost predicate EntriesAdd(e: ResultEnv, entries: seq<Entry>, base: Path, before: Table, after: Table) {
    && (forall x :: x in after ==> (x in before && after[x] == before[x]) || ListedBelow(e, entries, base, x, after[x]))
    && (forall j, p :: 0 <= j < |entries| && Uploaded(e, entries[j].value, p) ==>
                         Render((base + [entries[j].seg]) + p) in after)
    && before.Keys <= after.Keys
  }

  ghost predicate ListedBelow(e: ResultEnv, entries: seq<Entry>, base: Path, x: string, m: Metadata) {
    exists j :: 0 <= j < |entries| && Listed(e, entries[j].value, base + [entries[j].seg], x, m)
  }

  lemma {:induction false} ResultTable(e: ResultEnv, item: Json, base: Path, table: Table)
    requires NoRepeats(item) && RewriteResult(e, item, Render(base), table).Ok?
    ensures Adds(e, item, base, table, RewriteResult(e, item, Render(base), table).value.table)
    decreases item, 1
  {
    var after := RewriteResult(e, item, Render(base), table).value.table;
    if e.Uploads(item) {
      assert base + [] == base;
      assert Uploaded(e, item, []);
      forall p | Uploaded(e, item, p) ensures Render(base + p) in after {
        assert p == [];
      }
      assert ListedAs(e, item.s, base + [], Render(base), after[Render(base)]);
    } else if item.Node? {
      ResultTableEntries(e, item.entries, base, table);
      EntriesAddUp(e, item, base, table, after);
    } else {
      forall p ensures !Uploaded(e, item, p) {
      }
    }
  }

  lemma {:induction false} ResultTableEntries(e: ResultEnv, entries: seq<Entry>, base: Path, table: Table)
    requires forall i :: 0 <= i < |entries| ==> NoRepeats(entries[i].value)
    requires RewriteResultEntries(e, entries, Render(base), table).Ok?
    ensures EntriesAdd(e, entries, base, table, RewriteResultEntries(e, entries, Render(base), table).value.table)
    decreases entries, 0
  {
    if entries != [] {
      var init, last := entries[..|entries| - 1], entries[|entries| - 1];
      assert last.value < last;
      var middle := RewriteResultEntries(e, init, Render(base), table).value.table;
      ResultTableEntries(e, init, base, table);
      assert (base + [last.seg])[..|base|] == base;
      ResultTable(e, last.value, base + [last.seg], middle);
      var after := RewriteResultEntries(e, entries, Render(base), table).value.table;
      AddsAppend(e, entries, base, table, middle, after);
    }
  }

  lemma AddsAppend(e: ResultEnv, entries: seq<Entry>, base: Path, before: Table, middle: Table, after: Table)
    requires entries != []
    requires EntriesAdd(e, entries[..|entries| - 1], base, before, middle)
    requires Adds(e, entries[|entries| - 1].value, base + [entries[|entries| - 1].seg], middle, after)
    ensures EntriesAdd(e, entries, base, before, after)
  {
    var init, last := entries[..|entries| - 1], entries[|entries| - 1];
    forall x | x in after ensures (x in before && after[x] == before[x]) || ListedBelow(e, entries, base, x, after[x]) {
      if x in middle && after[x] == middle[x] {
        if !(x in before && middle[x] == before[x]) {
          var j :| 0 <= j < |init| && Listed(e, init[j].value, base + [init[j].seg], x, after[x]);
          assert entries[j] == init[j];
        }
      } else {
        assert Listed(e, last.value, base + [last.seg], x, after[x]);
      }
    }
    forall j, p | 0 <= j < |entries| && Uploaded(e, entries[j].value, p)
      ensures Render((base + [entries[j].seg]) + p) in after
    {
      if j < |init| {
        assert init[j] == entries[j];
      }
    }
  }

  lemma ListedAbove(e: ResultEnv, item: Json, j: nat, base: Path, x: string, m: Metadata)
    requires NoRepeats(item) && item.Node? && j < |item.entries|
    requires Listed(e, item.entries[j].value, base + [item.entries[j].seg], x, m)
    ensures Listed(e, item, base, x, m)
  {
    var seg, value := item.entries[j].seg, item.entries[j].value;
    var p :| Uploaded(e, value, p) && ListedAs(e, At(value, p).value.s, (base + [seg]) + p, x, m);
    BelowEntry(item, j, p);
    assert (base + [seg]) + p == base + ([seg] + p);
    assert Uploaded(e, item, [seg] + p);
  }

  lemma UploadedBelow(e: ResultEnv, item: Json, p: Path) returns (j: nat)
    requires NoRepeats(item) && item.Node? && Uploaded(e, item, p)
    ensures p != [] && j < |item.entries| && item.entries[j].seg == p[0]
    ensures Uploaded(e, item.entries[j].value, p[1..])
  {
    LookupIs(item.entries, p[0]);
    j :| 0 <= j < |item.entries| && item.entries[j].seg == p[0];
  }

  lemma EntriesAddUp(e: ResultEnv, item: Json, base: Path, before: Table, after: Table)
    requires NoRepeats(item) && item.Node?
    requires EntriesAdd(e, item.entries, base, before, after)
    ensures Adds(e, item, base, before, after)
  {
    hide NoRepeats, Uploaded, Listed, ListedBelow, Render;
    forall x | x in after && ListedBelow(e, item.entries, base, x, after[x])
      ensures Listed(e, item, base, x, after[x])
    {
      ListedAboveSome(e, item, base, x, after[x]);
    }
    forall p | Uploaded(e, item, p) ensures Render(base + p) in after {
      var j := UploadedBelow(e, item, p);
      assert (base + [p[0]]) + p[1..] == base + p;
    }
  }

  lemma ListedAboveSome(e: ResultEnv, item: Json, base: Path, x: string, m: Metadata)
    requires NoRepeats(item) && item.Node? && ListedBelow(e, item.entries, base, x, m)
    ensures Listed(e, item, base, x, m)
  {
    var j :| 0 <= j < |item.entries| && Listed(e, item.entries[j].value, base + [item.entries[j].seg], x, m);
    ListedAbove(e, item, j, base, x, m);
  }

  /** No two places of the tree share a rendering. */
  lemma PlacesAreDistinct(item: Json, p: Path, q: Path)
    requires WellFormed(item) && At(item, p).Some? && At(item, q).Some? && Render(p) == Render(q)
    ensures p == q
  {
    PlacesArePlain(item, p);
    PlacesArePlain(item, q);
    Injective(p, q);
  }

  lemma EntryIsUpload(e: ResultEnv, item: Json, x: string) returns (p: Path)
    requires NoRepeats(item) && RewriteResult(e, item, "", map[]).Ok?
    requires x in RewriteResult(e, item, "", map[]).value.table
    ensures Uploaded(e, item, p)
    ensures ListedAs(e, At(item, p).value.s, p, x, RewriteResult(e, item, "", map[]).value.table[x])
  {
    hide NoRepeats, RewriteResult;
    var table := RewriteResult(e, item, "", map[]).value.table;
    assert Render([]) == "";
    ResultTable(e, item, [], map[]);
    assert Listed(e, item, [], x, table[x]);
    p :| Uploaded(e, item, p) && ListedAs(e, At(item, p).value.s, [] + p, x, table[x]);
    assert [] + p == p;
  }

  /** Whatever the keys: every upload finds an entry under its path, and every entry is that of an upload. */
  lemma TableCovers(e: ResultEnv, item: Json)
    requires NoRepeats(item) && RewriteResult(e, item, "", map[]).Ok?
    ensures var table := RewriteResult(e, item, "", map[]).value.table;
            && (forall p :: Uploaded(e, item, p) ==> Render(p) in table)
            && (forall x :: x in table ==>
                              exists p :: Uploaded(e, item, p) && ListedAs(e, At(item, p).value.s, p, x, table[x]))
  {
    var table := RewriteResult(e, item, "", map[]).value.table;
    forall p | Uploaded(e, item, p) ensures Render(p) in table {
      assert Render([]) == "" && [] + p == p;
      ResultTable(e, item, [], map[]);
    }
    forall x | x in table ensures exists p :: Uploaded(e, item, p) && ListedAs(e, At(item, p).value.s, p, x, table[x]) {
      var p := EntryIsUpload(e, item, x);
    }
  }

  /**
   * The table is that of the uploads: each uploaded leaf has its own entry, under the path where
   * it stands, with what its upload gave; and there is no other entry.
   */
  lemma TableOfUploads(e: ResultEnv, item: Json)
    requires WellFormed(item) && RewriteResult(e, item, "", map[]).Ok?
    ensures var table := RewriteResult(e, item, "", map[]).value.table;
            && (forall p :: Uploaded(e, item, p) ==>
                              Render(p) in table && ListedAs(e, At(item, p).value.s, p, Render(p), table[Render(p)]))
            && (forall p, q :: Uploaded(e, item, p) && Uploaded(e, item, q) && Render(p) == Render(q) ==> p == q)
            && (forall x :: x in table ==> exists p :: Uploaded(e, item, p) && x == Render(p))
  {
    var table := RewriteResult(e, item, "", map[]).value.table;
    TableCovers(e, item);
    forall p | Uploaded(e, item, p)
      ensures Render(p) in table && ListedAs(e, At(item, p).value.s, p, Render(p), table[Render(p)])
    {
      var q := EntryIsUpload(e, item, Render(p));
      PlacesAreDistinct(item, p, q);
    }
    forall p, q | Uploaded(e, item, p) && Uploaded(e, item, q) && Render(p) == Render(q) ensures p == q {
      PlacesAreDistinct(item, p, q);
    }
  }

  /**
   * Result metadata agrees with the rewritten tree: the URI listed under a path is the value now
   * found there, and every place that was not uploaded is as it was.
   */
  lemma MetadataAgrees(e: ResultEnv, item: Json)
    requires WellFormed(item) && RewriteResult(e, item, "", map[]).Ok?
    ensures var r := RewriteResult(e, item, "", map[]).value;
            && (forall p :: Uploaded(e, item, p) ==>
                              Render(p) in r.table && At(r.out, p) == Some(Str(r.table[Render(p)].uri)))
            && (forall p :: At(item, p).Some? <==> At(r.out, p).Some?)
            && (forall p :: At(item, p).Some? && !Uploaded(e, item, p) && !At(item, p).value.Node? ==>
                              At(r.out, p) == At(item, p))
            && Offloaded(e, item, r.out)
  {
    OutOfPlaces(e, item);
    TableOfUploads(e, item);
  }

  /** The rewritten tree, whatever the keys: an uploaded leaf is its URI, any other as it was. */
  lemma OutOfPlaces(e: ResultEnv, item: Json)
    requires NoRepeats(item) && RewriteResult(e, item, "", map[]).Ok?
    ensures var out := RewriteResult(e, item, "", map[]).value.out;
            && Offloaded(e, item, out)
            && (forall p :: At(item, p).Some? <==> At(out, p).Some?)
            && (forall p :: Uploaded(e, item, p) ==> At(out, p) == Some(Str(e.TargetUri(At(item, p).value.s))))
            && (forall p :: At(item, p).Some? && !Uploaded(e, item, p) && !At(item, p).value.Node? ==>
                              At(out, p) == At(item, p))
  {
    var out := RewriteResult(e, item, "", map[]).value.out;
    ResultKeepsShape(e, item, "", map[]);
    forall p ensures At(item, p).Some? <==> At(out, p).Some?
      ensures At(item, p).Some? ==> Offloaded(e, At(item, p).value, At(out, p).value)
    {
      OffloadedAt(e, item, out, p);
    }
  }

  /**
   * A leaf is replaced exactly if it is a string that starts with the files directory of the tasks
   * and names a file that is present; any other string, number, truth value or null stands as it was.
   */
  lemma LeafIsReplacedIff(e: ResultEnv, item: Json, p: Path)
    requires NoRepeats(item) && RewriteResult(e, item, "", map[]).Ok?
    requires At(item, p).Some? && !At(item, p).value.Node?
    ensures var r, leaf := RewriteResult(e, item, "", map[]).value, At(item, p).value;
            if leaf.Str? && |e.filesDir| <= |leaf.s| && leaf.s[..|e.filesDir|] == e.filesDir && e.present(leaf.s) then
              Render(p) in r.table && At(r.out, p) == Some(Str(e.TargetUri(leaf.s)))
            else
              At(r.out, p) == Some(leaf)
  {
    TableCovers(e, item);
    OutOfPlaces(e, item);
    var leaf := At(item, p).value;
    assert Uploaded(e, item, p) <==>
           leaf.Str? && |e.filesDir| <= |leaf.s| && leaf.s[..|e.filesDir|] == e.filesDir && e.present(leaf.s);
  }

  /** An entry of the table is that of such a leaf, with what its upload gave. */
  lemma EntryIsOfTaskFile(e: ResultEnv, item: Json, x: string) returns (p: Path)
    requires NoRepeats(item) && RewriteResult(e, item, "", map[]).Ok?
    requires x in RewriteResult(e, item, "", map[]).value.table
    ensures x == Render(p) && At(item, p).Some? && At(item, p).value.Str?
    ensures var file, m := At(item, p).value.s, RewriteResult(e, item, "", map[]).value.table[x];
            && |e.filesDir| <= |file| && file[..|e.filesDir|] == e.filesDir && e.present(file)
            && e.upload(file, x).Some?
            && m.uri == e.TargetUri(file)
            && m.size == e.upload(file, x).value.size && m.etag == e.upload(file, x).value.etag
  {
    p := EntryIsUpload(e, item, x);
  }

  /** Two uploads whose paths read the same, and that go to different URIs. */
  ghost predicate Clash(e: ResultEnv, item: Json, p: Path, q: Path) {
    && Uploaded(e, item, p) && Uploaded(e, item, q) && Render(p) == Render(q)
    && e.TargetUri(At(item, p).value.s) != e.TargetUri(At(item, q).value.s)
  }

  /** Whatever the keys, table and tree agree exactly if no two uploads clash. */
  lemma MetadataAgreesIff(e: ResultEnv, item: Json)
    requires NoRepeats(item) && RewriteResult(e, item, "", map[]).Ok?
    ensures var r := RewriteResult(e, item, "", map[]).value;
            (forall p :: Uploaded(e, item, p) ==>
                           Render(p) in r.table && At(r.out, p) == Some(Str(r.table[Render(p)].uri)))
            <==> !exists p, q :: Clash(e, item, p, q)
  {
    var r := RewriteResult(e, item, "", map[]).value;
    TableCovers(e, item);
    OutOfPlaces(e, item);
    if !exists p, q :: Clash(e, item, p, q) {
      forall p | Uploaded(e, item, p) ensures At(r.out, p) == Some(Str(r.table[Render(p)].uri)) {
        var q :| Uploaded(e, item, q) && ListedAs(e, At(item, q).value.s, q, Render(p), r.table[Render(p)]);
        assert !Clash(e, item, p, q);
      }
    }
  }

  /**
   * Where files go: what is stored under an s3:// URI keeps the file's own name, and files of
   * different names do not overwrite each other; downloads to the directory of a task likewise.
   */
  lemma NamesAreKept(e: ResultEnv, p: ParamsEnv, f: string, g: string, t: Target, u: Target)
    ensures IsUri(e.TargetUri(f))
    ensures Basename(e.TargetUri(f)) == Basename(f)
    ensures Basename(f) != Basename(g) ==> e.TargetUri(f) != e.TargetUri(g)
    ensures !t.isDir ==> Basename(p.LocalPath(t)) == Basename(t.key)
    ensures p.LocalPath(t) == p.LocalPath(u) && !t.isDir && !u.isDir ==> Basename(t.key) == Basename(u.key)
  {
    UriName(e, f);
    UriName(e, g);
    if !t.isDir && !u.isDir {
      JoinedNames(p.root, Basename(t.key), Basename(u.key));
    }
    if !t.isDir {
      JoinedNames(p.root, Basename(t.key), Basename(t.key));
    }
  }

  lemma UriName(e: ResultEnv, f: string)
    ensures IsUri(e.TargetUri(f))
    ensures Basename(e.TargetUri(f)) == Basename(f)
  {
    var name := Basename(f);
    assert name != "" ==> name[0] in name;
    var dir := if e.prefix == "" || e.prefix[|e.prefix| - 1] == '/' then e.prefix else e.prefix + "/";
    assert Join(e.prefix, name) == dir + name;
    StripLeftOf(dir, name);
    var root := "s3://" + e.bucket + "/";
    UriOf(e, f, root, StripLeft(dir), name);
    BasenameOf(root + StripLeft(dir), name);
  }

  /** Where an upload goes: bucket, prefix without leading slashes, and the file's own name. */
  lemma UriIs(e: ResultEnv, f: string, core: string)
    requires core != "" && core[0] != '/' && core[|core| - 1] != '/'
    ensures e.(prefix := "").TargetUri(f) == "s3://" + e.bucket + "/" + Basename(f)
    ensures e.(prefix := core).TargetUri(f) == "s3://" + e.bucket + "/" + core + "/" + Basename(f)
    ensures e.(prefix := core + "/").TargetUri(f) == e.(prefix := core).TargetUri(f)
    ensures e.(prefix := "/" + e.prefix).TargetUri(f) == e.TargetUri(f)
  {
    var name := Basename(f);
    PlainName(name);
    UriFromKey(e.(prefix := ""), f, name);
    KeyOf(core, name);
    UriFromKey(e.(prefix := core), f, core + "/" + name);
    UriFromKey(e.(prefix := core + "/"), f, core + "/" + name);
    SlashInFront(e.prefix, name);
    UriFromKey(e, f, StripLeft(Join(e.prefix, name)));
    UriFromKey(e.(prefix := "/" + e.prefix), f, StripLeft(Join(e.prefix, name)));
    hide *;
    var root := "s3://" + e.bucket + "/";
    Regroup(root, core, name);
  }

  lemma UriFromKey(e: ResultEnv, f: string, key: string)
    requires StripLeft(Join(e.prefix, Basename(f))) == key
    ensures e.TargetUri(f) == "s3://" + e.bucket + "/" + key
  {
  }

  lemma Regroup(root: string, core: string, name: string)
    ensures root + (core + "/" + name) == root + core + "/" + name
  {
  }

  lemma PlainName(name: string)
    requires '/' !in name
    ensures Join("", name) == name && StripLeft(name) == name
  {
    assert name != "" ==> name[0] in name;
  }

  lemma KeyOf(core: string, name: string)
    requires core != "" && core[0] != '/' && core[|core| - 1] != '/' && '/' !in name
    ensures StripLeft(Join(core, name)) == core + "/" + name
    ensures StripLeft(Join(core + "/", name)) == core + "/" + name
  {
    assert name != "" ==> name[0] in name;
    assert Join(core, name) == core + "/" + name && Join(core + "/", name) == core + "/" + name;
    assert (core + "/" + name)[0] == core[0];
  }

  lemma SlashInFront(prefix: string, name: string)
    requires '/' !in name
    ensures StripLeft(Join("/" + prefix, name)) == StripLeft(Join(prefix, name))
  {
    assert name != "" ==> name[0] in name;
    var dir := if prefix == "" || prefix[|prefix| - 1] == '/' then prefix else prefix + "/";
    assert Join(prefix, name) == dir + name;
    JoinBelowSlash(prefix, name, dir);
    hide Join;
    assert ("/" + (dir + name))[1..] == dir + name;
  }

  lemma JoinBelowSlash(prefix: string, name: string, dir: string)
    requires name == "" || name[0] != '/'
    requires dir == if prefix == "" || prefix[|prefix| - 1] == '/' then prefix else prefix + "/"
    ensures Join("/" + prefix, name) == "/" + (dir + name)
  {
    var longer := "/" + prefix;
    if prefix == "" || prefix[|prefix| - 1] == '/' {
      assert longer[|longer| - 1] == '/';
      assert longer + name == "/" + (prefix + name);
    } else {
      assert longer[|longer| - 1] == prefix[|prefix| - 1];
      assert longer + "/" + name == "/" + (prefix + "/" + name);
    }
  }

  /** Where a download goes: the directory of the task, and the last segment of the key, of a folder too. */
  lemma LocalPathIs(p: ParamsEnv, dir: string, name: string, slashes: string)
    requires p.root != "" && p.root[|p.root| - 1] != '/'
    requires name != "" && '/' !in name && (dir == "" || dir[|dir| - 1] == '/')
    requires forall c :: c in slashes ==> c == '/'
    ensures p.LocalPath(Target(dir + name, false)) == p.root + "/" + name
    ensures p.LocalPath(Target(dir + name + slashes, true)) == p.root + "/" + name
  {
    assert name[0] in name && name[|name| - 1] in name;
    BasenameOf(dir, name);
    assert (dir + name)[|dir + name| - 1] == name[|name| - 1];
    StripRightOf(dir + name, slashes);
    hide Basename, StripRight;
    assert Join(p.root, name) == p.root + "/" + name;
  }

  lemma {:induction false} StripRightOf(key: string, slashes: string)
    requires key != "" && key[|key| - 1] != '/' && forall c :: c in slashes ==> c == '/'
    ensures StripRight(key + slashes) == key
  {
    if slashes == "" {
      assert key + slashes == key;
    } else {
      var init := slashes[..|slashes| - 1];
      assert slashes[|slashes| - 1] in slashes && forall c :: c in init ==> c in slashes;
      StripRightOf(key, init);
      assert (key + slashes)[..|key + slashes| - 1] == key + init;
    }
  }

  lemma UriOf(e: ResultEnv, f: string, root: string, dir: string, name: string)
    requires root == "s3://" + e.bucket + "/" && StripLeft(Join(e.prefix, Basename(f))) == dir + name
    ensures e.TargetUri(f) == (root + dir) + name && IsUri(e.TargetUri(f))
  {
    hide Join, Basename, StripLeft;
    assert root + (dir + name) == (root + dir) + name;
    assert e.TargetUri(f)[..5] == root[..5] == "s3://";
  }

  /** Leading slashes go, whether the directory consists of nothing else or not; the name stays. */
  lemma {:induction false} StripLeftOf(dir: string, name: string)
    requires '/' !in name && (dir == "" || dir[|dir| - 1] == '/')
    ensures StripLeft(dir + name) == StripLeft(dir) + name
    ensures StripLeft(dir) == "" || StripLeft(dir)[|StripLeft(dir)| - 1] == '/'
  {
    if dir == "" {
      assert dir + name == name && (name != "" ==> name[0] in name);
    } else if dir[0] == '/' {
      assert (dir + name)[1..] == dir[1..] + name;
      StripLeftOf(dir[1..], name);
    }
  }

  // ---------------------------------------------------------------------------
  // Ambiguous paths make two uploads share an entry
  // ---------------------------------------------------------------------------

  /** Containers one in the other, with a leaf at the given place. */
  function Chain(p: Path, leaf: Json): Json {
    if p == [] then leaf else Node(p[0].Index?, [Entry(p[0], Chain(p[1..], leaf))])
  }

  lemma {:induction false} ChainHolds(p: Path, s: string)
    ensures NoRepeats(Chain(p, Str(s))) && At(Chain(p, Str(s)), p) == Some(Str(s))
  {
    if p != [] {
      ChainHolds(p[1..], s);
    }
  }

  lemma {:induction false} ChainTable(e: ResultEnv, base: Path, p: Path, f: string, table: Table)
    requires e.Uploads(Str(f)) && e.upload(f, Render(base + p)).Some?
    ensures RewriteResult(e, Chain(p, Str(f)), Render(base), table).Ok?
    ensures RewriteResult(e, Chain(p, Str(f)), Render(base), table).value.table ==
            table[Render(base + p) := e.MetadataOf(f, e.upload(f, Render(base + p)).value)]
    decreases |p|
  {
    if p == [] {
      assert base + p == base;
    } else {
      var entries := [Entry(p[0], Chain(p[1..], Str(f)))];
      assert base + p == (base + [p[0]]) + p[1..];
      assert (base + [p[0]])[..|base|] == base;
      ChainTable(e, base + [p[0]], p[1..], f, table);
      var r := OneEntry(e, entries, Render(base), table);
    }
  }

  /** An object with one file at each of two places. */
  function Both(p: Path, q: Path, f: string, g: string): Json
    requires p != [] && q != []
  {
    Node(false, [Entry(p[0], Chain(p[1..], Str(f))), Entry(q[0], Chain(q[1..], Str(g)))])
  }

  lemma BothHold(p: Path, q: Path, f: string, g: string)
    requires p != [] && q != [] && p[0] != q[0]
    ensures NoRepeats(Both(p, q, f, g))
    ensures At(Both(p, q, f, g), p) == Some(Str(f)) && At(Both(p, q, f, g), q) == Some(Str(g))
  {
    ChainHolds(p[1..], f);
    ChainHolds(q[1..], g);
    LookupIs(Both(p, q, f, g).entries, p[0]);
    LookupIs(Both(p, q, f, g).entries, q[0]);
    assert Both(p, q, f, g).entries[0].seg == p[0] && Both(p, q, f, g).entries[1].seg == q[0];
  }

  lemma BothTable(e: ResultEnv, p: Path, q: Path, f: string, g: string)
    requires p != [] && q != [] && e.Uploads(Str(f)) && e.Uploads(Str(g))
    requires e.upload(f, Render(p)).Some? && e.upload(g, Render(q)).Some?
    ensures var r := RewriteResult(e, Both(p, q, f, g), "", map[]);
            r.Ok? && r.value.table == map[Render(p) := e.MetadataOf(f, e.upload(f, Render(p)).value)]
                                      [Render(q) := e.MetadataOf(g, e.upload(g, Render(q)).value)]
  {
    var entries := Both(p, q, f, g).entries;
    assert [p[0]] + p[1..] == p && [q[0]] + q[1..] == q;
    assert Render([]) == "" && [p[0]][..0] == [] && [q[0]][..0] == [];
    ChainTable(e, [p[0]], p[1..], f, map[]);
    var first := OneEntry(e, entries[..1], "", map[]);
    ChainTable(e, [q[0]], q[1..], g, first.table);
    NextResultEntry(e, entries, 1, "", map[], first);
    assert entries[..2] == entries;
  }

  /**
   * Whenever two paths read the same, two files at these places share one entry: the table has
   * that of the second, while the first stands in the tree with a URI of its own.
   */
  lemma SamePathsCollide(e: ResultEnv, p: Path, q: Path, f: string, g: string)
    requires p != [] && q != [] && p[0].Key? && q[0].Key? && p[0] != q[0] && Render(p) == Render(q)
    requires e.Uploads(Str(f)) && e.Uploads(Str(g))
    requires e.upload(f, Render(p)).Some? && e.upload(g, Render(p)).Some?
    ensures var item := Both(p, q, f, g);
            && NoRepeats(item) && Uploaded(e, item, p) && Uploaded(e, item, q)
            && var r := RewriteResult(e, item, "", map[]);
            && r.Ok?
            && r.value.table.Keys == {Render(p)}
            && r.value.table[Render(p)].uri == e.TargetUri(g)
            && At(r.value.out, p) == Some(Str(e.TargetUri(f))) && At(r.value.out, q) == Some(Str(e.TargetUri(g)))
  {
    BothHold(p, q, f, g);
    BothTable(e, p, q, f, g);
    OutOfPlaces(e, Both(p, q, f, g));
  }

  /** So does every key that the parser reads as another path of plain keys, whose files have their own names. */
  lemma AmbiguousKeysCollide(e: ResultEnv, k: string, f: string, g: string)
    requires Ambiguous([Key(k)]) && Parse(k) != [] && Parse(k)[0].Key?
    requires e.Uploads(Str(f)) && e.Uploads(Str(g)) && e.upload(f, k).Some? && e.upload(g, k).Some?
    requires Basename(f) != Basename(g)
    ensures var p, q := [Key(k)], Parse(k);
            && Render(p) == Render(q) == k && p != q
            && RewriteResult(e, Both(p, q, f, g), "", map[]).Ok?
            && RewriteResult(e, Both(p, q, f, g), "", map[]).value.table.Keys == {k}
            && Clash(e, Both(p, q, f, g), p, q)
  {
    var p, q := [Key(k)], Parse(k);
    RenderTwo(Key(k), Key(k));
    AmbiguousIff(p);
    if q[0] == Key(k) {
      assert Plain(p);
      RoundTrip(p);
      assert false;
    }
    SamePathsCollide(e, p, q, f, g);
    BothHold(p, q, f, g);
    UriName(e, f);
    UriName(e, g);
  }

  /** Keys with a dot or a bracketed index, and an empty key in front of another, in particular. */
  lemma DottedKeysCollide(e: ResultEnv, a: string, b: string, i: nat, f: string, g: string)
    requires PlainKey(a) && PlainKey(b) && e.Uploads(Str(f)) && e.Uploads(Str(g)) && Basename(f) != Basename(g)
    requires forall x :: x in {a, a + "." + b, a + "[" + Decimal(i) + "]"} ==>
                           e.upload(f, x).Some? && e.upload(g, x).Some?
    ensures Clash(e, Both([Key(a + "." + b)], [Key(a), Key(b)], f, g), [Key(a + "." + b)], [Key(a), Key(b)])
    ensures var k := a + "[" + Decimal(i) + "]";
            Clash(e, Both([Key(k)], [Key(a), Index(i)], f, g), [Key(k)], [Key(a), Index(i)])
    ensures Clash(e, Both([Key(""), Key(a)], [Key(a)], f, g), [Key(""), Key(a)], [Key(a)])
  {
    DottedKey(a, b);
    AmbiguousKeysCollide(e, a + "." + b, f, g);
    BracketedKey(a, i);
    AmbiguousKeysCollide(e, a + "[" + Decimal(i) + "]", f, g);
    EmptyKeyVanishes([Key(a)]);
    assert [Key("")] + [Key(a)] == [Key(""), Key(a)];
    RenderTwo(Key(a), Key(a));
    SamePathsCollide(e, [Key(""), Key(a)], [Key(a)], f, g);
    BothHold([Key(""), Key(a)], [Key(a)], f, g);
    UriName(e, f);
    UriName(e, g);
  }

  lemma OneEntry(e: ResultEnv, entries: seq<Entry>, keyPath: string, table: Table) returns (r: Rewritten<seq<Entry>>)
    requires |entries| == 1 && RewriteResult(e, entries[0].value, Extend(keyPath, entries[0].seg), table).Ok?
    ensures RewriteResultEntries(e, entries, keyPath, table) == Ok(r)
    ensures r.table == RewriteResult(e, entries[0].value, Extend(keyPath, entries[0].seg), table).value.table
  {
    assert entries[..|entries| - 1] == [];
    assert RewriteResultEntries(e, [], keyPath, table) == Ok(Rewritten([], table));
    r := RewriteResultEntries(e, entries, keyPath, table).value;
  }

  // ---------------------------------------------------------------------------
  // The code
  // ---------------------------------------------------------------------------

  lemma {:induction false} ParamPrefixRaises(e: ParamsEnv, entries: seq<Entry>, k: nat)
    requires k <= |entries| && RewriteParamEntries(e, entries[..k]).Raised?
    ensures RewriteParamEntries(e, entries).Raised?
  {
    if k < |entries| {
      assert entries[..|entries| - 1][..k] == entries[..k];
      ParamPrefixRaises(e, entries[..|entries| - 1], k);
    } else {
      assert entries[..k] == entries;
    }
  }

  lemma {:induction false} ResultPrefixRaises(e: ResultEnv, entries: seq<Entry>, keyPath: string, table: Table, k: nat)
    requires k <= |entries| && RewriteResultEntries(e, entries[..k], keyPath, table).Raised?
    ensures RewriteResultEntries(e, entries, keyPath, table).Raised?
  {
    if k < |entries| {
      assert entries[..|entries| - 1][..k] == entries[..k];
      ResultPrefixRaises(e, entries[..|entries| - 1], keyPath, table, k);
    } else {
      assert entries[..k] == entries;
    }
  }

  lemma NextParamEntry(e: ParamsEnv, entries: seq<Entry>, k: nat, before: seq<Entry>)
    requires k < |entries| && RewriteParamEntries(e, entries[..k]) == Ok(before)
    ensures var r := RewriteParams(e, entries[k].value);
            RewriteParamEntries(e, entries[..k + 1]) ==
            if r.Raised? then Raised else Ok(before + [Entry(entries[k].seg, r.value)])
    ensures EntryUris(entries[..k + 1]) == EntryUris(entries[..k]) + Uris(entries[k].value)
  {
    assert entries[..k + 1][..k] == entries[..k];
  }

  /** One more entry of a container. */
  lemma NextResultEntry(
    e: ResultEnv, entries: seq<Entry>, k: nat, keyPath: string, table: Table, before: Rewritten<seq<Entry>>)
    requires k < |entries| && RewriteResultEntries(e, entries[..k], keyPath, table) == Ok(before)
    ensures var r := RewriteResult(e, entries[k].value, Extend(keyPath, entries[k].seg), before.table);
            RewriteResultEntries(e, entries[..k + 1], keyPath, table) ==
            if r.Raised? then Raised
            else Ok(Rewritten(before.out + [Entry(entries[k].seg, r.value.out)], r.value.table))
  {
    assert entries[..k + 1][..k] == entries[..k];
  }

  /** Operations were added to the log, each with this count of active operations during it. */
  ghost predicate CountedAs(count: int, before: seq<int>, after: seq<int>) {
    before <= after && forall k :: |before| <= k < |after| ==> after[k] == count
  }

  lemma CountsAdd(count: int, before: seq<int>, middle: seq<int>, after: seq<int>)
    requires CountedAs(count, before, middle) && CountedAs(count, middle, after)
    ensures CountedAs(count, before, after)
  {
  }

  class S3Manager {
    const enabled: bool
    var activeOps: int
    var metadataMap: Table
    ghost var downloads: seq<string>
    ghost var counts: seq<int>      // what the counter says during each download and upload

    constructor (enabled: bool)
      ensures this.enabled == enabled && activeOps == 0 && downloads == [] && counts == []
    {
      this.enabled, activeOps, metadataMap, downloads, counts := enabled, 0, map[], [], [];
    }

    /** The recursive walk over parameters; the operation counter is restored even when it raises. */
    method WalkParams(e: ParamsEnv, item: Json) returns (r: Result<Json>)
      modifies this`activeOps, this`downloads, this`counts
      ensures activeOps == old(activeOps)
      ensures CountedAs(old(activeOps) + 1, old(counts), counts)
      ensures r == RewriteParams(e, item)
      ensures r.Ok? ==> downloads == old(downloads) + Uris(item) && |counts| == |old(counts)| + |Uris(item)|
      decreases item
    {
      hide Join, StripRight, Basename;
      if item.Str? && IsUri(item.s) {
        activeOps := activeOps + 1;
        var target := e.parse(item.s);
        r := Raised;
        if target.Some? {
          counts := counts + [activeOps];
          if e.download(item.s) {
            downloads := downloads + [item.s];
            r := Ok(Str(e.LocalPath(target.value)));
          }
        }
        activeOps := activeOps - 1;
        return;
      }
      if item.Node? {
        var out := [];
        for k := 0 to |item.entries|
          invariant activeOps == old(activeOps) && CountedAs(old(activeOps) + 1, old(counts), counts)
          invariant RewriteParamEntries(e, item.entries[..k]) == Ok(out)
          invariant downloads == old(downloads) + EntryUris(item.entries[..k])
          invariant |counts| == |old(counts)| + |EntryUris(item.entries[..k])|
        {
          NextParamEntry(e, item.entries, k, out);
          ghost var before := counts;
          var v := WalkParams(e, item.entries[k].value);
          if v.Raised? {
            ParamPrefixRaises(e, item.entries, k + 1);
            return Raised;
          }
          CountsAdd(old(activeOps) + 1, old(counts), before, counts);
          out := out + [Entry(item.entries[k].seg, v.value)];
        }
        assert item.entries[..|item.entries|] == item.entries;
        return Ok(Node(item.isList, out));
      }
      r := Ok(item);
    }

    method ProcessParams(e: ParamsEnv, params: Json) returns (r: Result<Json>)
      modifies this`activeOps, this`downloads, this`counts
      ensures activeOps == old(activeOps)
      ensures CountedAs(old(activeOps) + 1, old(counts), counts)
      ensures r == if enabled then RewriteParams(e, params) else Ok(params)
      ensures r.Ok? ==> downloads == old(downloads) + (if enabled then Uris(params) else [])
      ensures r.Ok? && enabled ==> |counts| == |old(counts)| + |Uris(params)|
    {
      if !enabled {
        return Ok(params);
      }
      r := WalkParams(e, params);
    }

    /** The recursive walk over a result, filling the table as it goes. */
    method WalkResult(e: ResultEnv, item: Json, keyPath: string) returns (r: Result<Json>)
      modifies this`activeOps, this`metadataMap, this`counts
      ensures activeOps == old(activeOps)
      ensures CountedAs(old(activeOps) + 1, old(counts), counts)
      ensures r.Ok? <==> RewriteResult(e, item, keyPath, old(metadataMap)).Ok?
      ensures r.Ok? ==> Rewritten(r.value, metadataMap) == RewriteResult(e, item, keyPath, old(metadataMap)).value
      ensures r.Ok? && metadataMap != old(metadataMap) ==> |counts| > |old(counts)|
      decreases item
    {
      hide Join, StripLeft, Basename, Extend;
      if item.Str? && StartsWith(item.s, e.filesDir) {
        if e.present(item.s) {
          activeOps := activeOps + 1;
          r := Raised;
          counts := counts + [activeOps];
          var stored := e.upload(item.s, keyPath);
          if stored.Some? {
            var targetUri := e.TargetUri(item.s);
            metadataMap := metadataMap[keyPath := Metadata(targetUri, stored.value.size, stored.value.etag)];
            r := Ok(Str(targetUri));
          }
          activeOps := activeOps - 1;
          return;
        }
        return Ok(item);
      }
      if item.Node? {
        var out := [];
        for k := 0 to |item.entries|
          invariant activeOps == old(activeOps) && CountedAs(old(activeOps) + 1, old(counts), counts)
          invariant RewriteResultEntries(e, item.entries[..k], keyPath, old(metadataMap))
                 == Ok(Rewritten(out, metadataMap))
          invariant metadataMap != old(metadataMap) ==> |counts| > |old(counts)|
        {
          NextResultEntry(e, item.entries, k, keyPath, old(metadataMap), Rewritten(out, metadataMap));
          ghost var before := counts;
          var v := WalkResult(e, item.entries[k].value, Extend(keyPath, item.entries[k].seg));
          if v.Raised? {
            ResultPrefixRaises(e, item.entries, keyPath, old(metadataMap), k + 1);
            return Raised;
          }
          CountsAdd(old(activeOps) + 1, old(counts), before, counts);
          out := out + [Entry(item.entries[k].seg, v.value)];
        }
        assert item.entries[..|item.entries|] == item.entries;
        return Ok(Node(item.isList, out));
      }
      r := Ok(item);
    }

    method ProcessResult(e: ResultEnv, result: Json) returns (r: Result<Rewritten<Json>>)
      modifies this`activeOps, this`metadataMap, this`counts
      ensures activeOps == old(activeOps)
      ensures CountedAs(old(activeOps) + 1, old(counts), counts)
      ensures r == if enabled then RewriteResult(e, result, "", map[]) else Ok(Rewritten(result, map[]))
      ensures r.Ok? && r.value.table != map[] ==> |counts| > |old(counts)|
    {
      if !enabled {
        return Ok(Rewritten(result, map[]));
      }
      metadataMap := map[];
      var out := WalkResult(e, result, "");
      r := if out.Raised? then Raised else Ok(Rewritten(out.value, metadataMap));
    }
  }
}
