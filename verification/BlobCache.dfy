/**
 * The blob cache: a file with an entity tag (section 8.8.3 of RFC 9110) is downloaded once into
 * the cache directory and linked from the task's directory. Shown to be invisible to a task: it
 * reads what a direct download would have given it.
 */
module BlobCache {
  import opened Prelude

  type Bytes = string

  /** A file of the cache directory, named by its tag, or one at a path in the directory of a task. */
  datatype FilePath = Cached(etag: string) | Local(task: string, path: seq<string>)

  type TaskPath = p: FilePath | p.Local? witness Local("", [])

  datatype FsNode = File(content: Bytes) | Link(target: FilePath)

  type FileSystem = map<FilePath, FsNode>

  /** An object of the store: its tag, missing or empty if there is none to be had, and its bytes. */
  datatype Blob = Blob(etag: Option<string>, content: Bytes) {
    predicate Tagged() {
      etag.Some? && etag.value != ""
    }
  }

  // ---------------------------------------------------------------------------
  // File system calls
  // ---------------------------------------------------------------------------

  /** Reading follows a link; a link to anything but a file is broken. */
  function Read(fs: FileSystem, p: FilePath): Option<Bytes> {
    if p !in fs then None
    else match fs[p]
      case File(content) => Some(content)
      case Link(t) => if t in fs && fs[t].File? then Some(fs[t].content) else None
  }

  predicate Exists(fs: FileSystem, p: FilePath) {
    Read(fs, p).Some?
  }

  /** p would have to be a directory for q to be there. */
  predicate Above(p: FilePath, q: FilePath) {
    p.Local? && q.Local? && p.task == q.task && |p.path| < |q.path| && q.path[..|p.path|] == p.path
  }

  /** A directory: of the task itself, or one that holds something. */
  predicate IsDirectory(fs: FileSystem, p: TaskPath) {
    p.path == [] || exists q :: q in fs && Above(p, q)
  }

  /** Something that is not a directory stands in the way of the directories above p. */
  predicate Blocked(fs: FileSystem, p: TaskPath) {
    exists q :: q in fs && Above(q, p)
  }

  predicate Obstructed(fs: FileSystem, p: TaskPath) {
    IsDirectory(fs, p) || Blocked(fs, p)
  }

  predicate IsLink(fs: FileSystem, p: FilePath) {
    p in fs && fs[p].Link?
  }

  /** Opening for writing goes through a link. */
  function Write(fs: FileSystem, p: FilePath, content: Bytes): FileSystem {
    if IsLink(fs, p) then fs[fs[p].target := File(content)] else fs[p := File(content)]
  }

  /** A symbolic link cannot be made where there is a name already, not even that of a broken link. */
  function Symlink(fs: FileSystem, target: FilePath, p: FilePath): Option<FileSystem> {
    if p in fs then None else Some(fs[p := Link(target)])
  }

  // ---------------------------------------------------------------------------
  // The operations
  // ---------------------------------------------------------------------------

  /** The cache file is there, downloaded if need be. */
  function Filled(fs: FileSystem, blob: Blob): FileSystem
    requires blob.Tagged()
  {
    var cacheFile := Cached(blob.etag.value);
    if Exists(fs, cacheFile) then fs else Write(fs, cacheFile, blob.content)
  }

  /**
   * A download with the cache; None when a file system call raises: a directory at p can neither
   * be unlinked nor written, and those above it cannot be made where there is a file.
   */
  function Fetch(fs: FileSystem, blob: Blob, p: TaskPath): Option<FileSystem> {
    if Obstructed(fs, p) then None
    else if blob.Tagged() then
      var cacheFile, filled := Cached(blob.etag.value), Filled(fs, blob);
      Symlink(if Exists(filled, p) then filled - {p} else filled, cacheFile, p)
    else Some(Write(fs, p, blob.content))
  }

  /** Whether the download goes to the network. */
  predicate Misses(fs: FileSystem, blob: Blob) {
    !blob.Tagged() || !Exists(fs, Cached(blob.etag.value))
  }

  function Cleanup(fs: FileSystem, task: string): FileSystem {
    map p | p in fs && !(p.Local? && p.task == task) :: fs[p]
  }

  datatype Op =
    | Download(blob: Blob, to: TaskPath)
    | CleanupTask(task: string)
    | TaskWrites(path: TaskPath, content: Bytes)   // the handler creates or overwrites a file

  function Apply(fs: FileSystem, op: Op): Option<FileSystem> {
    match op
    case Download(blob, p) => Fetch(fs, blob, p)
    case CleanupTask(task) => Some(Cleanup(fs, task))
    case TaskWrites(p, content) => if Obstructed(fs, p) then None else Some(Write(fs, p, content))
  }

  // ---------------------------------------------------------------------------
  // Direct downloads, for comparison
  // ---------------------------------------------------------------------------

  /** What the tasks can read. */
  function Visible(fs: FileSystem): map<FilePath, Bytes> {
    map p | p in fs && p.Local? && Exists(fs, p) :: Read(fs, p).value
  }

  /** The same operation without cache and links. */
  function Direct(v: map<FilePath, Bytes>, op: Op): map<FilePath, Bytes> {
    match op
    case Download(blob, p) => v[p := blob.content]
    case CleanupTask(task) => map p | p in v && !(p.Local? && p.task == task) :: v[p]
    case TaskWrites(p, content) => v[p := content]
  }

  type ContentOf = string -> Bytes

  /** Every cache file holds the content of its tag, and every link leads to a cache file. */
  ghost predicate Sound(contentOf: ContentOf, fs: FileSystem) {
    && (forall e :: Cached(e) in fs ==> fs[Cached(e)] == File(contentOf(e)))
    && (forall p :: p in fs && fs[p].Link? ==> p.Local? && fs[p].target.Cached? && fs[p].target in fs)
  }

  /** Writing there leaves the cache as it should be: p is no link, or the bytes are those behind it. */
  ghost predicate KeepsLink(contentOf: ContentOf, fs: FileSystem, p: TaskPath, content: Bytes) {
    IsLink(fs, p) && fs[p].target.Cached? ==> content == contentOf(fs[p].target.etag)
  }

  /**
   * The guard of a step: equal tags mean equal content, no directory and no file is in the way, and
   * what is written through a link is there already.
   */
  ghost predicate Proper(contentOf: ContentOf, fs: FileSystem, op: Op) {
    match op
    case Download(blob, p) =>
      && !Obstructed(fs, p)
      && if blob.Tagged() then blob.content == contentOf(blob.etag.value) else KeepsLink(contentOf, fs, p, blob.content)
    case CleanupTask(_) => true
    case TaskWrites(p, content) => !Obstructed(fs, p) && KeepsLink(contentOf, fs, p, content)
  }

  /** In a sound file system a tagged download comes down to two entries: the cache file and the link. */
  lemma FetchTagged(contentOf: ContentOf, fs: FileSystem, blob: Blob, p: TaskPath)
    requires Sound(contentOf, fs) && !Obstructed(fs, p) && blob.Tagged()
    ensures var cacheFile := Cached(blob.etag.value);
            var bytes := if cacheFile in fs then contentOf(blob.etag.value) else blob.content;
            Fetch(fs, blob, p) == Some(fs[cacheFile := File(bytes)][p := Link(cacheFile)])
  {
    hide Obstructed;
    var cacheFile := Cached(blob.etag.value);
    var filled := Filled(fs, blob);
    assert cacheFile in fs ==> filled == fs[cacheFile := File(contentOf(blob.etag.value))];
    assert p in filled ==> Exists(filled, p);
    assert (filled - {p})[p := Link(cacheFile)] == filled[p := Link(cacheFile)];
  }

  /** A write through a link to bytes that are there already changes nothing. */
  lemma WriteAgrees(contentOf: ContentOf, fs: FileSystem, p: TaskPath, content: Bytes)
    requires Sound(contentOf, fs) && KeepsLink(contentOf, fs, p, content)
    ensures Write(fs, p, content) == if IsLink(fs, p) then fs else fs[p := File(content)]
    ensures Sound(contentOf, Write(fs, p, content)) && Read(Write(fs, p, content), p) == Some(content)
  {
    if IsLink(fs, p) {
      assert fs[fs[p].target] == File(content);
      assert fs[fs[p].target := File(content)] == fs;
    }
  }

  /** A download never raises, delivers the object's own bytes and disturbs nothing else in the task directories. */
  lemma FetchAgrees(contentOf: ContentOf, fs: FileSystem, blob: Blob, p: TaskPath)
    requires Sound(contentOf, fs) && Proper(contentOf, fs, Download(blob, p))
    ensures Fetch(fs, blob, p).Some?
    ensures var after := Fetch(fs, blob, p).value;
            && Sound(contentOf, after) && p in after
            && Read(after, p) == Some(blob.content)
            && (forall q: TaskPath :: q != p ==> SameAt(fs, after, q))
  {
    hide Obstructed;
    if blob.Tagged() {
      FetchTagged(contentOf, fs, blob, p);
    } else {
      WriteAgrees(contentOf, fs, p, blob.content);
    }
  }

  /** The name stands for the same thing in both file systems. */
  ghost predicate SameAt(fs: FileSystem, after: FileSystem, q: TaskPath) {
    && (q in after <==> q in fs)
    && (q in fs ==> after[q] == fs[q])
    && Read(after, q) == Read(fs, q)
  }

  lemma {:induction false} StepAgrees(contentOf: ContentOf, fs: FileSystem, op: Op)
    requires Sound(contentOf, fs) && Proper(contentOf, fs, op)
    ensures Apply(fs, op).Some?
    ensures Sound(contentOf, Apply(fs, op).value)
    ensures Visible(Apply(fs, op).value) == Direct(Visible(fs), op)
  {
    match op
    case Download(blob, p) =>
      FetchAgrees(contentOf, fs, blob, p);
      hide Fetch, Visible;
      OneChange(fs, Fetch(fs, blob, p).value, p, blob.content);
    case CleanupTask(task) =>
      CleanupVisible(contentOf, fs, task);
    case TaskWrites(p, content) =>
      WriteAgrees(contentOf, fs, p, content);
      hide Visible;
      OneChange(fs, Write(fs, p, content), p, content);
  }

  /** If only p changed, only p looks different. */
  lemma OneChange(fs: FileSystem, after: FileSystem, p: TaskPath, content: Bytes)
    requires Read(after, p) == Some(content)
    requires forall q: TaskPath :: q != p ==> SameAt(fs, after, q)
    ensures Visible(after) == Visible(fs)[p := content]
  {
    hide Read;
    forall q ensures q in Visible(after) <==> q in Visible(fs)[p := content]
      ensures q in Visible(after) ==> Visible(after)[q] == Visible(fs)[p := content][q]
    {
      assert q.Local? && q != p ==> SameAt(fs, after, q);
      assert q.Local? && q !in fs ==> !Exists(fs, q) by { NotRead(fs, q); }
      assert q !in after ==> !Exists(after, q) by { NotRead(after, q); }
    }
  }

  lemma NotRead(fs: FileSystem, p: FilePath)
    ensures p !in fs ==> Read(fs, p).None?
  {
  }

  lemma CleanupVisible(contentOf: ContentOf, fs: FileSystem, task: string)
    requires Sound(contentOf, fs)
    ensures Sound(contentOf, Cleanup(fs, task))
    ensures Visible(Cleanup(fs, task)) == Direct(Visible(fs), CleanupTask(task))
  {
    var after := Cleanup(fs, task);
    forall p | p in after && p.Local? ensures Read(after, p) == Read(fs, p) {
    }
  }

  /** Which steps keep the cache sound, tags that mean something else in the store included. */
  lemma SoundIff(contentOf: ContentOf, fs: FileSystem, op: Op)
    requires Sound(contentOf, fs) && Apply(fs, op).Some?
    ensures Sound(contentOf, Apply(fs, op).value) <==>
            match op
            case Download(blob, p) =>
              if blob.Tagged() then Cached(blob.etag.value) in fs || blob.content == contentOf(blob.etag.value)
              else KeepsLink(contentOf, fs, p, blob.content)
            case CleanupTask(_) => true
            case TaskWrites(p, content) => KeepsLink(contentOf, fs, p, content)
  {
    match op
    case Download(blob, p) =>
      if blob.Tagged() {
        FetchTagged(contentOf, fs, blob, p);
        assert Apply(fs, op).value[Cached(blob.etag.value)].content
            == if Cached(blob.etag.value) in fs then contentOf(blob.etag.value) else blob.content;
      } else {
        WriteThroughLink(contentOf, fs, p, blob.content);
      }
    case CleanupTask(task) => CleanupVisible(contentOf, fs, task);
    case TaskWrites(p, content) => WriteThroughLink(contentOf, fs, p, content);
  }

  /** Exactly the proper steps go through, keep the cache sound, and look like direct downloads. */
  lemma InvisibleIff(contentOf: ContentOf, fs: FileSystem, op: Op)
    requires Sound(contentOf, fs)
    ensures Invisible(contentOf, fs, op) <==> Proper(contentOf, fs, op)
  {
    if Proper(contentOf, fs, op) {
      StepAgrees(contentOf, fs, op);
    } else if Apply(fs, op).Some? {
      SoundIff(contentOf, fs, op);
      if op.Download? && op.blob.Tagged() && Cached(op.blob.etag.value) in fs {
        FetchTagged(contentOf, fs, op.blob, op.to);
        assert Read(Apply(fs, op).value, op.to) == Some(contentOf(op.blob.etag.value));
        assert Visible(Apply(fs, op).value)[op.to] != Direct(Visible(fs), op)[op.to];
      }
    }
  }

  ghost predicate Invisible(contentOf: ContentOf, fs: FileSystem, op: Op) {
    && Apply(fs, op).Some?
    && Sound(contentOf, Apply(fs, op).value)
    && Visible(Apply(fs, op).value) == Direct(Visible(fs), op)
  }

  ghost predicate ProperRun(contentOf: ContentOf, fs: FileSystem, ops: seq<Op>)
    decreases |ops|
  {
    ops == [] || (Proper(contentOf, fs, ops[0])
                  && (Apply(fs, ops[0]).Some? ==> ProperRun(contentOf, Apply(fs, ops[0]).value, ops[1..])))
  }

  ghost predicate InvisibleThroughout(contentOf: ContentOf, fs: FileSystem, ops: seq<Op>)
    decreases |ops|
  {
    ops == [] || (Invisible(contentOf, fs, ops[0]) && InvisibleThroughout(contentOf, Apply(fs, ops[0]).value, ops[1..]))
  }

  function Run(fs: FileSystem, ops: seq<Op>): Option<FileSystem>
    decreases |ops|
  {
    if ops == [] then Some(fs)
    else if Apply(fs, ops[0]).None? then None
    else Run(Apply(fs, ops[0]).value, ops[1..])
  }

  function DirectRun(v: map<FilePath, Bytes>, ops: seq<Op>): map<FilePath, Bytes>
    decreases |ops|
  {
    if ops == [] then v else DirectRun(Direct(v, ops[0]), ops[1..])
  }

  /**
   * The cache is invisible: over any run of downloads, cleanups and writes, no file system call
   * raises, every cache file keeps the content of its tag, and what the tasks read is what direct
   * downloads would have given them.
   */
  lemma {:induction false} CacheIsInvisible(contentOf: ContentOf, fs: FileSystem, ops: seq<Op>)
    requires Sound(contentOf, fs) && ProperRun(contentOf, fs, ops)
    ensures Run(fs, ops).Some? && Sound(contentOf, Run(fs, ops).value)
    ensures Visible(Run(fs, ops).value) == DirectRun(Visible(fs), ops)
    decreases |ops|
  {
    if ops != [] {
      StepAgrees(contentOf, fs, ops[0]);
      CacheIsInvisible(contentOf, Apply(fs, ops[0]).value, ops[1..]);
    }
  }

  /** From a sound start a run looks like direct downloads throughout exactly if all its steps are proper. */
  lemma {:induction false} InvisibleThroughoutIff(contentOf: ContentOf, fs: FileSystem, ops: seq<Op>)
    requires Sound(contentOf, fs)
    ensures InvisibleThroughout(contentOf, fs, ops) <==> ProperRun(contentOf, fs, ops)
    decreases |ops|
  {
    if ops != [] {
      InvisibleIff(contentOf, fs, ops[0]);
      if Proper(contentOf, fs, ops[0]) {
        InvisibleThroughoutIff(contentOf, Apply(fs, ops[0]).value, ops[1..]);
      }
    }
  }

  /** How often a run goes to the network for the given tag. */
  function NetworkFetches(fs: FileSystem, ops: seq<Op>, etag: string): nat
    decreases |ops|
  {
    if ops == [] || Apply(fs, ops[0]).None? then 0
    else
      var miss := ops[0].Download? && ops[0].blob.Tagged() && ops[0].blob.etag == Some(etag) && Misses(fs, ops[0].blob);
      (if miss then 1 else 0) + NetworkFetches(Apply(fs, ops[0]).value, ops[1..], etag)
  }

  /** A tagged file is downloaded at most once, and not at all if it was in the cache to begin with. */
  lemma {:induction false} DownloadedOnce(contentOf: ContentOf, fs: FileSystem, ops: seq<Op>, etag: string)
    requires Sound(contentOf, fs) && ProperRun(contentOf, fs, ops)
    ensures NetworkFetches(fs, ops, etag) <= if Cached(etag) in fs then 0 else 1
    decreases |ops|
  {
    if ops != [] {
      StepAgrees(contentOf, fs, ops[0]);
      DownloadedOnce(contentOf, Apply(fs, ops[0]).value, ops[1..], etag);
    }
  }

  // ---------------------------------------------------------------------------
  // The branches of a download, and when it raises
  // ---------------------------------------------------------------------------

  /** With a tag: a link to the cache file, downloaded only if it was missing. Without one: the bytes at the path. */
  lemma FetchIs(contentOf: ContentOf, fs: FileSystem, blob: Blob, p: TaskPath)
    requires Sound(contentOf, fs) && Fetch(fs, blob, p).Some?
    ensures var after := Fetch(fs, blob, p).value;
            && (blob.etag == None || blob.etag == Some("") ==>
                  after == if p in fs && fs[p].Link? then fs[fs[p].target := File(blob.content)]
                           else fs[p := File(blob.content)])
            && (blob.etag.Some? && blob.etag.value != "" ==>
                  var cacheFile := Cached(blob.etag.value);
                  after == if cacheFile in fs then fs[p := Link(cacheFile)]
                           else fs[cacheFile := File(blob.content)][p := Link(cacheFile)])
  {
    if blob.etag.Some? && blob.etag.value != "" {
      FetchTagged(contentOf, fs, blob, p);
      var cacheFile := Cached(blob.etag.value);
      if cacheFile in fs {
        assert fs[cacheFile := File(contentOf(blob.etag.value))] == fs;
      }
    }
  }

  /** It raises exactly at the directory of the task, below anything that is there, or above it. */
  lemma FetchRaisesIff(contentOf: ContentOf, fs: FileSystem, blob: Blob, task: string, path: seq<string>)
    requires Sound(contentOf, fs)
    ensures Fetch(fs, blob, Local(task, path)).None? <==>
            path == [] || exists other :: Local(task, other) in fs && (other < path || path < other)
  {
    var p: TaskPath := Local(task, path);
    forall other ensures Above(Local(task, other), p) <==> other < path
      ensures Above(p, Local(task, other)) <==> path < other
    {
    }
    if !Obstructed(fs, p) && blob.Tagged() {
      FetchTagged(contentOf, fs, blob, p);
    }
    if q :| q in fs && (Above(p, q) || Above(q, p)) {
      assert Local(task, q.path) == q;
    }
  }

  /** A link that leads nowhere is not seen by the test for existence, and is in the way of the new one. */
  lemma DanglingLinkRaises(fs: FileSystem, blob: Blob, p: TaskPath, target: FilePath)
    requires blob.etag.Some? && blob.etag.value != "" && target != Cached(blob.etag.value)
    requires p in fs && fs[p] == Link(target) && target !in fs && !IsLink(fs, Cached(blob.etag.value))
    ensures Fetch(fs, blob, p).None?
  {
  }

  /** Only a download without a tag, or with one that is not in the cache, goes to the network. */
  lemma NetworkFetchesAre(fs: FileSystem, op: Op, etag: string)
    requires Apply(fs, op).Some? && etag != ""
    ensures NetworkFetches(fs, [op], etag) ==
            if op.Download? && op.blob.etag == Some(etag) && !Exists(fs, Cached(etag)) then 1 else 0
  {
    assert NetworkFetches(Apply(fs, op).value, [], etag) == 0;
    assert [op][1..] == [];
  }

  // ---------------------------------------------------------------------------
  // What the assumptions are for
  // ---------------------------------------------------------------------------

  /** Writing through a link keeps the cache sound exactly if it writes what is there already. */
  lemma WriteThroughLink(contentOf: ContentOf, fs: FileSystem, p: TaskPath, content: Bytes)
    requires Sound(contentOf, fs)
    ensures Sound(contentOf, Write(fs, p, content)) <==>
            !IsLink(fs, p) || content == contentOf(fs[p].target.etag)
  {
    var after := Write(fs, p, content);
    if IsLink(fs, p) {
      assert after[fs[p].target] == File(content);
      assert fs[p].target == Cached(fs[p].target.etag);
    }
  }

  /** A download that breaks off spoils the cache exactly if its part is not the whole. */
  lemma PartSpoilsIff(contentOf: ContentOf, fs: FileSystem, etag: string, part: Bytes)
    requires Sound(contentOf, fs)
    ensures Sound(contentOf, Write(fs, Cached(etag), part)) <==> part == contentOf(etag)
  {
    assert Write(fs, Cached(etag), part)[Cached(etag)] == File(part);
  }

  /** What the cache holds once the file of this tag is only a part. */
  function WithPart(contentOf: ContentOf, etag: string, part: Bytes): ContentOf {
    x => if x == etag then part else contentOf(x)
  }

  /** The file of this tag is in the cache, but only in part; all others are whole. */
  ghost predicate HoldsPart(contentOf: ContentOf, fs: FileSystem, etag: string, part: Bytes) {
    Cached(etag) in fs && Sound(WithPart(contentOf, etag, part), fs)
  }

  /** A handler or an untagged download writes through a link to the file of this tag. */
  predicate WritesTo(fs: FileSystem, op: Op, etag: string) {
    match op
    case Download(blob, p) => !blob.Tagged() && IsLink(fs, p) && fs[p].target == Cached(etag)
    case CleanupTask(_) => false
    case TaskWrites(p, _) => IsLink(fs, p) && fs[p].target == Cached(etag)
  }

  /** A proper step makes up for the part exactly if it writes through a link to it; otherwise the part stays. */
  lemma PartStaysIff(contentOf: ContentOf, fs: FileSystem, op: Op, etag: string, part: Bytes)
    requires HoldsPart(contentOf, fs, etag, part) && part != contentOf(etag) && Proper(contentOf, fs, op)
    ensures Apply(fs, op).Some?
    ensures HoldsPart(contentOf, Apply(fs, op).value, etag, part) <==> !WritesTo(fs, op, etag)
    ensures Sound(contentOf, Apply(fs, op).value) <==> WritesTo(fs, op, etag)
  {
    var held := WithPart(contentOf, etag, part);
    if op.Download? && op.blob.Tagged() {
      FetchTagged(held, fs, op.blob, op.to);
    }
    SoundIff(held, fs, op);
    var after := Apply(fs, op).value;
    assert Cached(etag) in after;
    if WritesTo(fs, op, etag) {
      assert after[Cached(etag)] == File(contentOf(etag));
    }
  }

  ghost predicate NeverWritesTo(fs: FileSystem, ops: seq<Op>, etag: string)
    decreases |ops|
  {
    ops != [] && Apply(fs, ops[0]).Some? ==>
      !WritesTo(fs, ops[0], etag) && NeverWritesTo(Apply(fs, ops[0]).value, ops[1..], etag)
  }

  lemma {:induction false} PartStays(contentOf: ContentOf, fs: FileSystem, ops: seq<Op>, etag: string, part: Bytes)
    requires HoldsPart(contentOf, fs, etag, part) && part != contentOf(etag)
    requires ProperRun(contentOf, fs, ops) && NeverWritesTo(fs, ops, etag)
    ensures Run(fs, ops).Some? && HoldsPart(contentOf, Run(fs, ops).value, etag, part)
    decreases |ops|
  {
    if ops != [] {
      PartStaysIff(contentOf, fs, ops[0], etag, part);
      PartStays(contentOf, Apply(fs, ops[0]).value, ops[1..], etag, part);
    }
  }

  /**
   * A download that breaks off leaves its part in the cache. From then on, through any run of
   * proper downloads, cleanups and writes, every task that asks for the file is handed that part
   * without an error and without a download, until something writes the whole through a link.
   */
  lemma BrokenDownloadIsServed(contentOf: ContentOf, fs: FileSystem, blob: Blob, part: Bytes, ops: seq<Op>, p: TaskPath)
    requires Sound(contentOf, fs) && blob.Tagged() && blob.content == contentOf(blob.etag.value)
    requires Misses(fs, blob) && part != blob.content
    requires var broken := Write(fs, Cached(blob.etag.value), part);
             && ProperRun(contentOf, broken, ops) && NeverWritesTo(broken, ops, blob.etag.value)
             && (Run(broken, ops).Some? ==> !Obstructed(Run(broken, ops).value, p))
    ensures var broken := Write(fs, Cached(blob.etag.value), part);
            && !Sound(contentOf, broken)
            && Run(broken, ops).Some?
            && var later := Run(broken, ops).value;
            && !Misses(later, blob)
            && Fetch(later, blob, p).Some?
            && Read(Fetch(later, blob, p).value, p) == Some(part)
  {
    var etag := blob.etag.value;
    var broken := Write(fs, Cached(etag), part);
    PartSpoilsIff(contentOf, fs, etag, part);
    assert HoldsPart(contentOf, broken, etag, part);
    PartStays(contentOf, broken, ops, etag, part);
    FetchTagged(WithPart(contentOf, etag, part), Run(broken, ops).value, blob, p);
  }

  // ---------------------------------------------------------------------------
  // Folders
  // ---------------------------------------------------------------------------

  /** An entry of a folder listing: its full path, the segments of the path relative to the folder, and the object. */
  datatype Listed = Listed(path: string, rel: seq<string>, blob: Blob) {
    predicate IsDirectory() {
      path != "" && path[|path| - 1] == '/'
    }
  }

  function TargetOf(task: string, folder: string, o: Listed): TaskPath {
    Local(task, [folder] + o.rel)
  }

  function FolderOps(task: string, folder: string, objects: seq<Listed>): seq<Op> {
    if objects == [] then []
    else
      var last := objects[|objects| - 1];
      FolderOps(task, folder, objects[..|objects| - 1])
      + if last.IsDirectory() then [] else [Download(last.blob, TargetOf(task, folder, last))]
  }

  /** Directories aside, each object by itself can be downloaded, and no two share a relative path. */
  ghost predicate ProperListing(
    contentOf: ContentOf, fs: FileSystem, task: string, folder: string, objects: seq<Listed>)
  {
    && (forall i, j :: 0 <= i < j < |objects| && !objects[i].IsDirectory() && !objects[j].IsDirectory() ==>
                         objects[i].rel != objects[j].rel)
    && (forall i :: 0 <= i < |objects| && !objects[i].IsDirectory() ==>
                      Proper(contentOf, fs, Download(objects[i].blob, TargetOf(task, folder, objects[i]))))
  }

  /** One relative path would have to be a directory for the other. */
  predicate Nested(a: Listed, b: Listed) {
    && !a.IsDirectory() && !b.IsDirectory()
    && (Above(Local("", a.rel), Local("", b.rel)) || Above(Local("", b.rel), Local("", a.rel)))
  }

  ghost predicate Flat(objects: seq<Listed>) {
    forall i, j :: 0 <= i < j < |objects| ==> !Nested(objects[i], objects[j])
  }

  lemma NestedTargets(task: string, folder: string, a: Listed, b: Listed)
    ensures Above(TargetOf(task, folder, a), TargetOf(task, folder, b)) <==> Above(Local("", a.rel), Local("", b.rel))
  {
    var p, q := TargetOf(task, folder, a).path, TargetOf(task, folder, b).path;
    if |a.rel| < |b.rel| {
      assert q[..|p|] == [folder] + b.rel[..|a.rel|];
      assert p[1..] == a.rel && q[..|p|][1..] == b.rel[..|a.rel|];
    }
  }

  lemma {:induction false} RunAppend(fs: FileSystem, ops: seq<Op>, op: Op)
    requires Run(fs, ops).Some?
    ensures Run(fs, ops + [op]) == Apply(Run(fs, ops).value, op)
    decreases |ops|
  {
    if ops == [] {
      assert [op][1..] == [];
      assert ops + [op] == [op];
    } else {
      RunAppend(Apply(fs, ops[0]).value, ops[1..], op);
      assert (ops + [op])[1..] == ops[1..] + [op];
    }
  }

  lemma DifferentTargets(task: string, folder: string, a: Listed, b: Listed)
    requires a.rel != b.rel
    ensures TargetOf(task, folder, a) != TargetOf(task, folder, b)
  {
    assert ([folder] + a.rel)[1..] == a.rel;
    assert ([folder] + b.rel)[1..] == b.rel;
  }

  /** This is the target of one of the listed objects. */
  ghost predicate IsTarget(task: string, folder: string, objects: seq<Listed>, p: TaskPath) {
    exists i :: 0 <= i < |objects| && !objects[i].IsDirectory() && p == TargetOf(task, folder, objects[i])
  }

  lemma TargetsGrow(task: string, folder: string, objects: seq<Listed>, p: TaskPath)
    requires objects != []
    ensures IsTarget(task, folder, objects[..|objects| - 1], p) ==> IsTarget(task, folder, objects, p)
  {
    var init := objects[..|objects| - 1];
    if IsTarget(task, folder, init, p) {
      var i :| 0 <= i < |init| && !init[i].IsDirectory() && p == TargetOf(task, folder, init[i]);
      assert objects[i] == init[i];
    }
  }

  /** Every listed object that is not a directory is at its own target, and nothing else changed. */
  ghost predicate Arrived(fs: FileSystem, after: FileSystem, task: string, folder: string, objects: seq<Listed>) {
    && (forall i :: 0 <= i < |objects| && !objects[i].IsDirectory() ==>
                      Read(after, TargetOf(task, folder, objects[i])) == Some(objects[i].blob.content))
    && (forall p: TaskPath :: !IsTarget(task, folder, objects, p) ==> SameAt(fs, after, p))
  }

  /**
   * A folder download goes through exactly if no relative path is nested in another; then every
   * listed object that is not a directory arrives.
   */
  lemma {:induction false} FolderArrives(
    contentOf: ContentOf, fs: FileSystem, task: string, folder: string, objects: seq<Listed>)
    requires Sound(contentOf, fs) && ProperListing(contentOf, fs, task, folder, objects)
    ensures Run(fs, FolderOps(task, folder, objects)).Some? <==> Flat(objects)
    ensures Flat(objects) ==>
              var after := Run(fs, FolderOps(task, folder, objects)).value;
              Sound(contentOf, after) && Arrived(fs, after, task, folder, objects)
  {
    if objects != [] {
      hide Sound, Arrived, Run, Fetch, Proper, Nested;
      var init, last := objects[..|objects| - 1], objects[|objects| - 1];
      var earlier := FolderOps(task, folder, init);
      FolderArrives(contentOf, fs, task, folder, init);
      FlatParts(objects);
      if !Flat(init) {
        RaisedStays(fs, earlier, FolderOps(task, folder, objects)[|earlier|..]);
        assert FolderOps(task, folder, objects) == earlier + FolderOps(task, folder, objects)[|earlier|..];
      } else if last.IsDirectory() {
        assert FolderOps(task, folder, objects) == earlier;
        NotNested(last);
        DirectoryArrives(fs, task, folder, objects, Run(fs, earlier).value);
      } else {
        RunAppend(fs, earlier, Download(last.blob, TargetOf(task, folder, last)));
        if Flat(objects) {
          OneMoreArrives(contentOf, fs, task, folder, objects, Run(fs, earlier).value);
        } else {
          var i :| 0 <= i < |init| && Nested(init[i], last);
          NestedRaises(fs, Run(fs, earlier).value, task, folder, init, i, last);
        }
      }
    } else {
      assert FolderOps(task, folder, []) == [];
    }
  }

  /** What a folder download leaves, entry by entry: those whose path ends in a slash are passed over. */
  lemma FolderHolds(
    contentOf: ContentOf, fs: FileSystem, task: string, folder: string, objects: seq<Listed>, i: nat, p: TaskPath)
    requires Sound(contentOf, fs) && ProperListing(contentOf, fs, task, folder, objects) && Flat(objects)
    requires i < |objects|
    ensures Run(fs, FolderOps(task, folder, objects)).Some?
    ensures var after, o := Run(fs, FolderOps(task, folder, objects)).value, objects[i];
            && (o.path == "" || o.path[|o.path| - 1] != '/' ==>
                  Read(after, Local(task, [folder] + o.rel)) == Some(o.blob.content))
            && ((forall k :: 0 <= k < |objects| ==>
                               || p != Local(task, [folder] + objects[k].rel)
                               || (objects[k].path != "" && objects[k].path[|objects[k].path| - 1] == '/')) ==>
                  Read(after, p) == Read(fs, p))
  {
    FolderArrives(contentOf, fs, task, folder, objects);
    var after := Run(fs, FolderOps(task, folder, objects)).value;
    hide Run, FolderOps, Sound, ProperListing, Flat;
    if IsTarget(task, folder, objects, p) {
      var k :| 0 <= k < |objects| && !objects[k].IsDirectory() && p == TargetOf(task, folder, objects[k]);
      assert p == Local(task, [folder] + objects[k].rel);
    } else {
      assert SameAt(fs, after, p);
    }
  }

  /** An object store can list a file and something below it; such a folder cannot be downloaded, in either order. */
  lemma NestedListingRaises(contentOf: ContentOf, task: string, folder: string, x: Blob, y: Blob)
    requires x.Tagged() ==> x.content == contentOf(x.etag.value)
    requires y.Tagged() ==> y.content == contentOf(y.etag.value)
    ensures var file, below := Listed("p/a", ["a"], x), Listed("p/a/b", ["a", "b"], y);
            && Run(map[], FolderOps(task, folder, [file, below])).None?
            && Run(map[], FolderOps(task, folder, [below, file])).None?
  {
    var file, below := Listed("p/a", ["a"], x), Listed("p/a/b", ["a", "b"], y);
    assert ["a", "b"][..1] == ["a"];
    assert Above(Local("", file.rel), Local("", below.rel));
    forall objects | objects in {[file, below], [below, file]}
      ensures Run(map[], FolderOps(task, folder, objects)).None?
    {
      assert Nested(objects[0], objects[1]);
      assert |file.rel| != |below.rel|;
      FolderArrives(contentOf, map[], task, folder, objects);
    }
  }

  lemma FlatParts(objects: seq<Listed>)
    requires objects != []
    ensures var init, last := objects[..|objects| - 1], objects[|objects| - 1];
            Flat(objects) <==> Flat(init) && forall i :: 0 <= i < |init| ==> !Nested(init[i], last)
  {
    hide Nested;
    var init := objects[..|objects| - 1];
    forall i, j | Flat(objects) && 0 <= i < j < |init| ensures !Nested(init[i], init[j]) {
      assert !Nested(objects[i], objects[j]);
    }
    forall i, j | Flat(init) && 0 <= i < j < |init| ensures !Nested(objects[i], objects[j]) {
      assert !Nested(init[i], init[j]);
    }
    assert forall i :: 0 <= i < |init| ==> init[i] == objects[i];
  }

  lemma NotNested(b: Listed)
    requires b.IsDirectory()
    ensures forall a :: !Nested(a, b)
  {
  }

  /** An object nested in one that has arrived cannot be downloaded, whichever is inside the other. */
  lemma NestedRaises(
    fs: FileSystem, middle: FileSystem, task: string, folder: string, init: seq<Listed>, i: nat, b: Listed)
    requires i < |init| && Nested(init[i], b) && Arrived(fs, middle, task, folder, init)
    ensures Fetch(middle, b.blob, TargetOf(task, folder, b)).None?
  {
    var there := TargetOf(task, folder, init[i]);
    NestedTargets(task, folder, init[i], b);
    NestedTargets(task, folder, b, init[i]);
    assert Read(middle, there).Some?;
    assert there in middle;
  }

  lemma DirectoryArrives(fs: FileSystem, task: string, folder: string, objects: seq<Listed>, after: FileSystem)
    requires objects != [] && objects[|objects| - 1].IsDirectory()
    requires Arrived(fs, after, task, folder, objects[..|objects| - 1])
    ensures Arrived(fs, after, task, folder, objects)
  {
    hide Read, SameAt;
    forall p ensures IsTarget(task, folder, objects[..|objects| - 1], p) ==> IsTarget(task, folder, objects, p) {
      TargetsGrow(task, folder, objects, p);
    }
  }

  /** What is not nested in the objects that have arrived is as free of obstacles as before. */
  lemma StillClear(fs: FileSystem, middle: FileSystem, task: string, folder: string, objects: seq<Listed>)
    requires objects != [] && !objects[|objects| - 1].IsDirectory() && Flat(objects)
    requires Arrived(fs, middle, task, folder, objects[..|objects| - 1])
    requires !Obstructed(fs, TargetOf(task, folder, objects[|objects| - 1]))
    ensures !Obstructed(middle, TargetOf(task, folder, objects[|objects| - 1]))
  {
    var init, last := objects[..|objects| - 1], objects[|objects| - 1];
    var target := TargetOf(task, folder, last);
    forall q | q in middle ensures !Above(q, target) && !Above(target, q) {
      if q.Local? && !IsTarget(task, folder, init, q) {
        assert SameAt(fs, middle, q);
      } else if q.Local? {
        var i :| 0 <= i < |init| && !init[i].IsDirectory() && q == TargetOf(task, folder, init[i]);
        assert !Nested(objects[i], last);
        NestedTargets(task, folder, init[i], last);
        NestedTargets(task, folder, last, init[i]);
      }
    }
  }

  lemma OneMoreArrives(
    contentOf: ContentOf, fs: FileSystem, task: string, folder: string, objects: seq<Listed>, middle: FileSystem)
    requires objects != [] && !objects[|objects| - 1].IsDirectory()
    requires ProperListing(contentOf, fs, task, folder, objects) && Sound(contentOf, middle)
    requires Arrived(fs, middle, task, folder, objects[..|objects| - 1]) && Flat(objects)
    ensures var last := objects[|objects| - 1];
            var target := TargetOf(task, folder, last);
            && Fetch(middle, last.blob, target).Some?
            && var after := Fetch(middle, last.blob, target).value;
            Sound(contentOf, after) && Arrived(fs, after, task, folder, objects)
  {
    var init, last := objects[..|objects| - 1], objects[|objects| - 1];
    var target := TargetOf(task, folder, last);
    forall i | 0 <= i < |init| && !objects[i].IsDirectory() ensures TargetOf(task, folder, objects[i]) != target {
      DifferentTargets(task, folder, last, objects[i]);
    }
    assert !IsTarget(task, folder, init, target);
    assert SameAt(fs, middle, target);
    StillClear(fs, middle, task, folder, objects);
    FetchAgrees(contentOf, middle, last.blob, target);
    var after := Fetch(middle, last.blob, target).value;
    forall i | 0 <= i < |init| && !objects[i].IsDirectory()
      ensures Read(after, TargetOf(task, folder, objects[i])) == Some(objects[i].blob.content)
    {
      assert init[i] == objects[i];
      assert SameAt(middle, after, TargetOf(task, folder, objects[i]));
    }
    forall p: TaskPath | !IsTarget(task, folder, objects, p) ensures SameAt(fs, after, p) {
      TargetsGrow(task, folder, objects, p);
      assert SameAt(fs, middle, p) && SameAt(middle, after, p);
    }
  }

  // ---------------------------------------------------------------------------
  // The code
  // ---------------------------------------------------------------------------

  lemma {:induction false} RunPrefixRaises(fs: FileSystem, task: string, folder: string, objects: seq<Listed>, k: nat)
    requires k <= |objects| && Run(fs, FolderOps(task, folder, objects[..k])).None?
    ensures Run(fs, FolderOps(task, folder, objects)).None?
  {
    if k < |objects| {
      var init := objects[..|objects| - 1];
      assert init[..k] == objects[..k];
      RunPrefixRaises(fs, task, folder, init, k);
      var earlier, all := FolderOps(task, folder, init), FolderOps(task, folder, objects);
      RaisedStays(fs, earlier, all[|earlier|..]);
      assert all == earlier + all[|earlier|..];
    } else {
      assert objects[..k] == objects;
    }
  }

  lemma {:induction false} RaisedStays(fs: FileSystem, ops: seq<Op>, more: seq<Op>)
    requires Run(fs, ops).None?
    ensures Run(fs, ops + more).None?
    decreases |ops|
  {
    assert (ops + more)[1..] == ops[1..] + more;
    if Apply(fs, ops[0]).Some? {
      RaisedStays(Apply(fs, ops[0]).value, ops[1..], more);
    }
  }

  /** No cache file is a link. */
  ghost predicate LinksInTasks(fs: FileSystem) {
    forall p :: p in fs && fs[p].Link? ==> p.Local?
  }

  /** Filling the cache makes no directory. */
  lemma DirectoriesStay(fs: FileSystem, blob: Blob, p: TaskPath)
    requires LinksInTasks(fs) && blob.Tagged()
    ensures IsDirectory(Left(fs, blob), p) <==> IsDirectory(fs, p)
  {
  }

  /** A folder download that raised at entry k: those before it are complete, and its own blob may be in the cache. */
  ghost predicate StoppedAt(
    fs: FileSystem, task: string, folder: string, objects: seq<Listed>, k: nat, after: FileSystem)
    requires k < |objects|
  {
    && !objects[k].IsDirectory()
    && Run(fs, FolderOps(task, folder, objects[..k])).Some?
    && var before := Run(fs, FolderOps(task, folder, objects[..k])).value;
    && Fetch(before, objects[k].blob, TargetOf(task, folder, objects[k])).None?
    && after == if Blocked(before, TargetOf(task, folder, objects[k])) then before else Left(before, objects[k].blob)
  }

  /** What a download that raised leaves: the cache file, if it has a tag. */
  function Left(fs: FileSystem, blob: Blob): FileSystem {
    if blob.Tagged() then Filled(fs, blob) else fs
  }

  class BlobStore {
    var fs: FileSystem
    var downloads: seq<Blob>      // what was fetched over the network

    ghost predicate Valid()
      reads this
    {
      LinksInTasks(fs)
    }

    constructor ()
      ensures Valid() && fs == map[] && downloads == []
    {
      fs, downloads := map[], [];
    }

    /**
     * Once the directories above are made: either the whole download happens, or it raises, because
     * of a directory or a broken link that stands at the path.
     */
    method DownloadFileCached(blob: Blob, localPath: TaskPath) returns (ok: bool)
      requires Valid() && !Blocked(fs, localPath)
      modifies this
      ensures Valid()
      ensures ok <==> Fetch(old(fs), blob, localPath).Some?
      ensures ok ==> fs == Fetch(old(fs), blob, localPath).value
      ensures !ok ==> fs == Left(old(fs), blob)
      ensures blob.etag.Some? && blob.etag.value != "" ==>
                downloads == old(downloads) + if Exists(old(fs), Cached(blob.etag.value)) then [] else [blob]
      ensures ok && (blob.etag.None? || blob.etag.value == "") ==> downloads == old(downloads) + [blob]
      ensures !ok ==> IsDirectory(old(fs), localPath) || (IsLink(fs, localPath) && !Exists(fs, localPath))
    {
      if blob.etag.Some? && blob.etag.value != "" {
        var cacheFile := Cached(blob.etag.value);
        if !Exists(fs, cacheFile) {
          fs := Write(fs, cacheFile, blob.content);
          downloads := downloads + [blob];
        }
        DirectoriesStay(old(fs), blob, localPath);
        if IsDirectory(fs, localPath) {
          return false;
        }
        if Exists(fs, localPath) {
          fs := fs - {localPath};
        }
        var linked := Symlink(fs, cacheFile, localPath);
        if linked.None? {
          return false;
        }
        fs := linked.value;
      } else if IsDirectory(fs, localPath) {
        return false;
      } else {
        fs := Write(fs, localPath, blob.content);
        downloads := downloads + [blob];
      }
      ok := true;
    }

    /** The directories above each target are made first, which raises where a file stands in their place. */
    method DownloadFolder(task: string, folder: string, objects: seq<Listed>) returns (ok: bool)
      requires Valid()
      modifies this
      ensures Valid()
      ensures ok <==> Run(old(fs), FolderOps(task, folder, objects)).Some?
      ensures ok ==> fs == Run(old(fs), FolderOps(task, folder, objects)).value
      ensures !ok ==> exists k :: 0 <= k < |objects| && StoppedAt(old(fs), task, folder, objects, k, fs)
    {
      for k := 0 to |objects|
        invariant Valid() && Run(old(fs), FolderOps(task, folder, objects[..k])) == Some(fs)
      {
        var o := objects[k];
        assert objects[..k + 1][..k] == objects[..k];
        ghost var before := FolderOps(task, folder, objects[..k]);
        if o.path != "" && o.path[|o.path| - 1] == '/' {
          assert FolderOps(task, folder, objects[..k + 1]) == before;
          continue;
        }
        var target := TargetOf(task, folder, o);
        assert FolderOps(task, folder, objects[..k + 1]) == before + [Download(o.blob, target)];
        RunAppend(old(fs), before, Download(o.blob, target));
        ok := false;
        if !Blocked(fs, target) {
          ok := DownloadFileCached(o.blob, target);
        }
        if !ok {
          RunPrefixRaises(old(fs), task, folder, objects, k + 1);
          assert StoppedAt(old(fs), task, folder, objects, k, fs);
          return;
        }
      }
      assert objects[..|objects|] == objects;
      ok := true;
    }

    method CleanupTask(task: string)
      requires Valid()
      modifies this
      ensures Valid()
      ensures fs == Cleanup(old(fs), task) && downloads == old(downloads)
      ensures forall p :: p in fs <==> p in old(fs) && !(p.Local? && p.task == task)
      ensures forall p :: p in fs ==> fs[p] == old(fs)[p]
    {
      fs := map p | p in fs && !(p.Local? && p.task == task) :: fs[p];
    }
  }
}
