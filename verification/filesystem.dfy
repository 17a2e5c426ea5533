/** The file-system service: the permission gate, the recursive walker that
    turns a picked directory into file records, and the relocation of one
    file into a target folder below the root. */
module FileSystem {
  import opened Types
  import opened Paths
  import opened Storage

  // ---------------------------------------------------------------------
  // Permission gate

  /** What the browser answers to `queryPermission` and `requestPermission`. */
  datatype PermissionAnswers = PermissionAnswers(query: Mode -> PermissionState, request: Mode -> PermissionState)

  /** The mode asked for, how many prompts were shown, and the verdict. */
  datatype PermissionCheck = PermissionCheck(mode: Mode, requests: nat, granted: bool)

  function PermissionMode(readWrite: bool): (m: Mode)
    ensures m == ReadWrite <==> readWrite
  {
    if readWrite then ReadWrite else Read
  }

  /** `verifyPermission`: query first, prompt only when the query is not
      already granted. A refusal is a `false` verdict, never an error. */
  function VerifyPermission(answers: PermissionAnswers, readWrite: bool): PermissionCheck {
    var mode := PermissionMode(readWrite);
    if answers.query(mode) == Granted then PermissionCheck(mode, 0, true)
    else PermissionCheck(mode, 1, answers.request(mode) == Granted)
  }

  /** The gate asks for read-write exactly when asked to, prompts at most once,
      prompts exactly when the query is not granted, and grants exactly when
      the query or the prompt does. */
  lemma VerifyPermissionSpec(answers: PermissionAnswers, readWrite: bool)
    ensures var c := VerifyPermission(answers, readWrite);
      && (c.mode == ReadWrite <==> readWrite)
      && c.requests <= 1
      && (c.requests == 0 <==> answers.query(c.mode) == Granted)
      && (c.granted <==> answers.query(c.mode) == Granted || answers.request(c.mode) == Granted)
  {
  }

  // ---------------------------------------------------------------------
  // Scan

  /** The record built for a file found at `loc`: size and modification
      time come from the file, an empty type is reported as `unknown`. */
  function Record(env: Env, name: string, d: FileData, loc: Path, rel: string, id: nat): FileRecord {
    FileRecord(id, name, d.Size(), if d.mime == "" then "unknown" else d.mime, FileHandle(loc, env.movable), rel, d.lastModified)
  }

  /** A record describes a file when it carries that file's size, time and type. */
  predicate Describes(rec: FileRecord, d: FileData) {
    rec.size == |d.contents| && rec.lastModified == d.lastModified
    && rec.mime == (if d.mime == "" then "unknown" else d.mime)
  }

  /** The records of one entry met at directory `loc` whose relative path is
      `path`: one for a file, the flattening of its contents for a directory. */
  function FlattenEntry(env: Env, e: Entry, loc: Path, path: string, nextId: nat): seq<FileRecord>
    decreases e
  {
    var rel := ChildPath(path, e.name);
    match e.node
    case File(d) => [Record(env, e.name, d, loc + [e.name], rel, nextId)]
    case Dir(_) => FlattenFrom(env, e.node, 0, loc + [e.name], rel, nextId)
  }

  /** The depth-first flattening of the file leaves of `dir` from entry `i`
      on, in enumeration order; ids are handed out consecutively. */
  function FlattenFrom(env: Env, dir: Node, i: nat, loc: Path, path: string, nextId: nat): seq<FileRecord>
    requires dir.Dir? && i <= |dir.entries|
    decreases dir, |dir.entries| - i
  {
    if i == |dir.entries| then []
    else
      assert dir.entries[i] in dir.entries;
      var head := FlattenEntry(env, dir.entries[i], loc, path, nextId);
      head + FlattenFrom(env, dir, i + 1, loc, path, nextId + |head|)
  }

  function Flatten(env: Env, dir: Node, loc: Path, path: string, nextId: nat): seq<FileRecord>
    requires dir.Dir?
  {
    FlattenFrom(env, dir, 0, loc, path, nextId)
  }

  /** Reading the entry, and everything below it, throws nowhere. */
  predicate EntryScannable(env: Env, e: Entry, loc: Path)
    decreases e
  {
    match e.node
    case File(_) => GetFile(loc + [e.name]) !in env.faults
    case Dir(_) => Values(loc + [e.name]) !in env.faults && ScannableFrom(env, e.node, 0, loc + [e.name])
  }

  /** No enumeration and no file read met on the way from entry `i` on throws. */
  predicate ScannableFrom(env: Env, dir: Node, i: nat, loc: Path)
    requires dir.Dir? && i <= |dir.entries|
    decreases dir, |dir.entries| - i
  {
    i == |dir.entries| ||
    (assert dir.entries[i] in dir.entries;
     EntryScannable(env, dir.entries[i], loc) && ScannableFrom(env, dir, i + 1, loc))
  }

  predicate Scannable(env: Env, dir: Node, loc: Path)
    requires dir.Dir?
  {
    Values(loc) !in env.faults && ScannableFrom(env, dir, 0, loc)
  }

  /** The number of file leaves in an entry. */
  function EntryFileCount(e: Entry): nat
    decreases e
  {
    match e.node
    case File(_) => 1
    case Dir(_) => FileCountFrom(e.node, 0)
  }

  /** The number of file leaves below entry `i` of `dir`. */
  function FileCountFrom(dir: Node, i: nat): nat
    requires dir.Dir? && i <= |dir.entries|
    decreases dir, |dir.entries| - i
  {
    if i == |dir.entries| then 0
    else
      assert dir.entries[i] in dir.entries;
      EntryFileCount(dir.entries[i]) + FileCountFrom(dir, i + 1)
  }

  /** `scanDirectory`: enumerates the directory at `loc`, records each file
      and descends into each subdirectory; the first failure is the result. */
  method ScanDirectory(vol: Volume, loc: Path, path: string, nextId: nat) returns (r: Result<seq<FileRecord>, FsError>)
    requires vol.Valid() && IsDirAt(vol.root, loc)
    ensures r.Ok? <==> Scannable(vol.env, Get(vol.root, loc).value, loc)
    ensures r.Ok? ==> r.value == Flatten(vol.env, Get(vol.root, loc).value, loc, path, nextId)
    ensures r.Err? ==> r.error == Injected
    decreases Get(vol.root, loc).value
  {
    if Values(loc) in vol.env.faults {
      return Err(Injected);
    }
    var es := EntriesAt(vol.root, loc);
    ghost var dir := Get(vol.root, loc).value;
    ghost var total := Flatten(vol.env, dir, loc, path, nextId);
    var files: seq<FileRecord> := [];
    var i := 0;
    while i < |es|
      invariant 0 <= i <= |es| && dir == Dir(es)
      invariant ScannableFrom(vol.env, dir, 0, loc) <==> ScannableFrom(vol.env, dir, i, loc)
      invariant files + FlattenFrom(vol.env, dir, i, loc, path, nextId + |files|) == total
    {
      var found := ScanEntry(vol, loc, dir, i, path, nextId + |files|);
      ScanAdvance(vol.env, dir, i, loc, path, nextId, files, total);
      if found.Err? {
        return found;
      }
      files := files + found.value;
      i := i + 1;
    }
    return Ok(files);
  }

  /** One iteration of the scanning loop, on the specification side: entry
      `i` either throws, and then the scan from `i` on throws, or contributes
      its records, and the rest of the scan follows them. */
  lemma ScanAdvance(env: Env, dir: Node, i: nat, loc: Path, path: string, nextId: nat, files: seq<FileRecord>, total: seq<FileRecord>)
    requires dir.Dir? && i < |dir.entries|
    requires files + FlattenFrom(env, dir, i, loc, path, nextId + |files|) == total
    ensures ScannableFrom(env, dir, i, loc) <==> EntryScannable(env, dir.entries[i], loc) && ScannableFrom(env, dir, i + 1, loc)
    ensures var head := FlattenEntry(env, dir.entries[i], loc, path, nextId + |files|);
      (files + head) + FlattenFrom(env, dir, i + 1, loc, path, nextId + |files + head|) == total
  {
    var head := FlattenEntry(env, dir.entries[i], loc, path, nextId + |files|);
    FlattenFromUnfold(env, dir, i, loc, path, nextId + |files|);
    SeqAssoc(files, head, FlattenFrom(env, dir, i + 1, loc, path, nextId + |files| + |head|));
  }

  /** The loop body of `scanDirectory` for entry `i` of the directory `dir` at `loc`. */
  method ScanEntry(vol: Volume, loc: Path, ghost dir: Node, i: nat, path: string, nextId: nat) returns (r: Result<seq<FileRecord>, FsError>)
    requires vol.Valid() && Get(vol.root, loc) == Some(dir) && dir.Dir? && i < |dir.entries|
    requires dir.entries == EntriesAt(vol.root, loc)
    ensures r.Ok? <==> EntryScannable(vol.env, dir.entries[i], loc)
    ensures r.Ok? ==> r.value == FlattenEntry(vol.env, dir.entries[i], loc, path, nextId)
    ensures r.Err? ==> r.error == Injected
    decreases dir, 0
  {
    var e := EntriesAt(vol.root, loc)[i];
    var rel := ChildPath(path, e.name);
    ChildAt(vol.root, loc, dir, i);
    assert e in dir.entries;
    if Kind(e.node) == FileKind {
      var read := ReadStep(vol.env, vol.root, loc + [e.name]);
      if read.result.Err? {
        return Err(read.result.error);
      }
      return Ok([Record(vol.env, e.name, read.result.value, loc + [e.name], rel, nextId)]);
    } else {
      r := ScanDirectory(vol, loc + [e.name], rel, nextId);
    }
  }

  lemma FlattenFromUnfold(env: Env, dir: Node, i: nat, loc: Path, path: string, nextId: nat)
    requires dir.Dir? && i < |dir.entries|
    ensures var head := FlattenEntry(env, dir.entries[i], loc, path, nextId);
      FlattenFrom(env, dir, i, loc, path, nextId) == head + FlattenFrom(env, dir, i + 1, loc, path, nextId + |head|)
  {
  }

  lemma EntryUnfold(env: Env, e: Entry, loc: Path, path: string, nextId: nat)
    ensures e.node.File? ==> FlattenEntry(env, e, loc, path, nextId)
                             == [Record(env, e.name, e.node.data, loc + [e.name], ChildPath(path, e.name), nextId)]
    ensures e.node.Dir? ==> FlattenEntry(env, e, loc, path, nextId)
                            == FlattenFrom(env, e.node, 0, loc + [e.name], ChildPath(path, e.name), nextId)
  {
  }

  /** One record per file leaf. */
  lemma {:induction false} FlattenCount(env: Env, dir: Node, i: nat, loc: Path, path: string, nextId: nat)
    requires dir.Dir? && i <= |dir.entries|
    ensures |FlattenFrom(env, dir, i, loc, path, nextId)| == FileCountFrom(dir, i)
    decreases dir, |dir.entries| - i
  {
    if i < |dir.entries| {
      var e := dir.entries[i];
      assert e in dir.entries;
      if e.node.Dir? {
        FlattenCount(env, e.node, 0, loc + [e.name], ChildPath(path, e.name), nextId);
      }
      var n := nextId + |FlattenEntry(env, e, loc, path, nextId)|;
      FlattenCount(env, dir, i + 1, loc, path, n);
    }
  }

  /** The records carry the ids `n`, `n + 1`, ... in order. */
  predicate Numbered(rs: seq<FileRecord>, n: nat) {
    forall k :: 0 <= k < |rs| ==> rs[k].id == n + k
  }

  /** Ids are handed out consecutively from `nextId`, so one scan never
      repeats an id. */
  lemma {:induction false} FlattenIds(env: Env, dir: Node, i: nat, loc: Path, path: string, nextId: nat)
    requires dir.Dir? && i <= |dir.entries|
    ensures Numbered(FlattenFrom(env, dir, i, loc, path, nextId), nextId)
    decreases dir, |dir.entries| - i
  {
    if i < |dir.entries| {
      var e := dir.entries[i];
      assert e in dir.entries;
      var head := FlattenEntry(env, e, loc, path, nextId);
      EntryUnfold(env, e, loc, path, nextId);
      var n := nextId + |head|;
      var rest := FlattenFrom(env, dir, i + 1, loc, path, n);
      var r := FlattenFrom(env, dir, i, loc, path, nextId);
      if e.node.Dir? {
        FlattenIds(env, e.node, 0, loc + [e.name], ChildPath(path, e.name), nextId);
      }
      FlattenIds(env, dir, i + 1, loc, path, n);
      assert r == head + rest;
      forall k | 0 <= k < |r| ensures r[k].id == nextId + k {
        if k < |head| { assert r[k] == head[k]; } else { assert r[k] == rest[k - |head|]; }
      }
    }
  }

  /** Where a record says its file is: below `loc`, named after the last step
      of its location, with the relative path the walker spells for that
      location, and with the browser's `move` capability. */
  predicate PlacedBelow(rec: FileRecord, loc: Path, movable: bool) {
    var l := rec.handle.location;
    && |l| > |loc| && l[..|loc|] == loc
    && rec.name == l[|l| - 1]
    && rec.path == JoinPath(l)
    && rec.handle.canMove == movable
  }

  predicate AllPlacedBelow(rs: seq<FileRecord>, loc: Path, movable: bool) {
    forall k :: 0 <= k < |rs| ==> PlacedBelow(rs[k], loc, movable)
  }

  lemma PlacedBelowParent(rec: FileRecord, loc: Path, name: string, movable: bool)
    requires PlacedBelow(rec, loc + [name], movable)
    ensures PlacedBelow(rec, loc, movable)
  {
    var l := rec.handle.location;
    assert l[..|loc|] == l[..|loc| + 1][..|loc|];
  }

  /** Every record of a scan is placed below the scanned directory. */
  lemma {:induction false} FlattenPaths(env: Env, dir: Node, i: nat, loc: Path, path: string, nextId: nat)
    requires dir.Dir? && i <= |dir.entries| && path == JoinPath(loc)
    ensures AllPlacedBelow(FlattenFrom(env, dir, i, loc, path, nextId), loc, env.movable)
    decreases dir, |dir.entries| - i
  {
    if i < |dir.entries| {
      var e := dir.entries[i];
      assert e in dir.entries;
      var head := FlattenEntry(env, e, loc, path, nextId);
      FlattenFromUnfold(env, dir, i, loc, path, nextId);
      EntryPaths(env, e, loc, path, nextId);
      var n := nextId + |head|;
      FlattenPaths(env, dir, i + 1, loc, path, n);
      AllPlacedBelowConcat(head, FlattenFrom(env, dir, i + 1, loc, path, n), loc, env.movable);
    }
  }

  lemma {:induction false} EntryPaths(env: Env, e: Entry, loc: Path, path: string, nextId: nat)
    requires path == JoinPath(loc)
    ensures AllPlacedBelow(FlattenEntry(env, e, loc, path, nextId), loc, env.movable)
    decreases e
  {
    var loc' := loc + [e.name];
    assert loc'[..|loc'| - 1] == loc;
    assert ChildPath(path, e.name) == JoinPath(loc');
    var head := FlattenEntry(env, e, loc, path, nextId);
    EntryUnfold(env, e, loc, path, nextId);
    if e.node.Dir? {
      FlattenPaths(env, e.node, 0, loc', ChildPath(path, e.name), nextId);
      AllPlacedBelowParent(head, loc, e.name, env.movable);
    } else {
      assert head[0].handle.location == loc';
    }
  }

  lemma AllPlacedBelowParent(rs: seq<FileRecord>, loc: Path, name: string, movable: bool)
    requires AllPlacedBelow(rs, loc + [name], movable)
    ensures AllPlacedBelow(rs, loc, movable)
  {
    forall k | 0 <= k < |rs| ensures PlacedBelow(rs[k], loc, movable) {
      PlacedBelowParent(rs[k], loc, name, movable);
    }
  }

  lemma AllPlacedBelowConcat(a: seq<FileRecord>, b: seq<FileRecord>, loc: Path, movable: bool)
    requires AllPlacedBelow(a, loc, movable) && AllPlacedBelow(b, loc, movable)
    ensures AllPlacedBelow(a + b, loc, movable)
  {
    forall k | 0 <= k < |a + b| ensures PlacedBelow((a + b)[k], loc, movable) {
      if k < |a| { assert (a + b)[k] == a[k]; } else { assert (a + b)[k] == b[k - |a|]; }
    }
  }

  /** The record points at a file that is there and describes it. */
  predicate Present(root: Node, rec: FileRecord) {
    FileAt(root, rec.handle.location).Some? && Describes(rec, FileAt(root, rec.handle.location).value)
  }

  predicate AllPresent(root: Node, rs: seq<FileRecord>) {
    rs == [] || (Present(root, rs[0]) && AllPresent(root, rs[1..]))
  }

  lemma {:induction false} AllPresentAt(root: Node, rs: seq<FileRecord>, k: nat)
    requires AllPresent(root, rs) && k < |rs|
    ensures Present(root, rs[k])
  {
    if k > 0 {
      AllPresentAt(root, rs[1..], k - 1);
    }
  }

  /** In a well-formed tree every record points at a file that is there and
      describes it. */
  lemma {:induction false} FlattenSound(env: Env, root: Node, dir: Node, i: nat, loc: Path, path: string, nextId: nat)
    requires WellFormed(root) && Get(root, loc) == Some(dir) && dir.Dir? && i <= |dir.entries|
    ensures AllPresent(root, FlattenFrom(env, dir, i, loc, path, nextId))
    decreases dir, |dir.entries| - i
  {
    if i < |dir.entries| {
      var e := dir.entries[i];
      assert e in dir.entries;
      ChildAt(root, loc, dir, i);
      var head := FlattenEntry(env, e, loc, path, nextId);
      var n := nextId + |head|;
      var rest := FlattenFrom(env, dir, i + 1, loc, path, n);
      FlattenFromUnfold(env, dir, i, loc, path, nextId);
      assert FlattenFrom(env, dir, i, loc, path, nextId) == head + rest;
      EntrySound(env, root, e, loc, path, nextId);
      FlattenSound(env, root, dir, i + 1, loc, path, n);
      AllPresentConcat(root, head, rest);
    }
  }

  lemma {:induction false} EntrySound(env: Env, root: Node, e: Entry, loc: Path, path: string, nextId: nat)
    requires WellFormed(root) && Get(root, loc + [e.name]) == Some(e.node)
    ensures AllPresent(root, FlattenEntry(env, e, loc, path, nextId))
    decreases e
  {
    EntryUnfold(env, e, loc, path, nextId);
    if e.node.Dir? {
      FlattenSound(env, root, e.node, 0, loc + [e.name], ChildPath(path, e.name), nextId);
    }
  }

  lemma {:induction false} AllPresentConcat(root: Node, a: seq<FileRecord>, b: seq<FileRecord>)
    requires AllPresent(root, a) && AllPresent(root, b)
    ensures AllPresent(root, a + b)
  {
    if a == [] {
      assert a + b == b;
    } else {
      AllPresentConcat(root, a[1..], b);
      assert (a + b)[0] == a[0] && (a + b)[1..] == a[1..] + b;
    }
  }

  /** Some record points at `p`. */
  predicate Covers(rs: seq<FileRecord>, p: Path) {
    exists k :: 0 <= k < |rs| && rs[k].handle.location == p
  }

  /** Every file below entry `j >= i` of the scanned directory gets a record. */
  lemma {:induction false} FlattenComplete(env: Env, dir: Node, i: nat, loc: Path, path: string, nextId: nat, j: nat, q: Path)
    requires dir.Dir? && i <= j < |dir.entries| && FileAt(dir.entries[j].node, q).Some?
    ensures Covers(FlattenFrom(env, dir, i, loc, path, nextId), loc + [dir.entries[j].name] + q)
    decreases dir, |dir.entries| - i
  {
    var e := dir.entries[i];
    assert e in dir.entries;
    var head := FlattenEntry(env, e, loc, path, nextId);
    var n := nextId + |head|;
    var rest := FlattenFrom(env, dir, i + 1, loc, path, n);
    FlattenFromUnfold(env, dir, i, loc, path, nextId);
    if j == i {
      EntryComplete(env, e, loc, path, nextId, q);
      CoversLeft(head, rest, loc + [e.name] + q);
    } else {
      FlattenComplete(env, dir, i + 1, loc, path, n, j, q);
      CoversRight(head, rest, loc + [dir.entries[j].name] + q);
    }
  }

  lemma {:induction false} EntryComplete(env: Env, e: Entry, loc: Path, path: string, nextId: nat, q: Path)
    requires FileAt(e.node, q).Some?
    ensures Covers(FlattenEntry(env, e, loc, path, nextId), loc + [e.name] + q)
    decreases e
  {
    EntryUnfold(env, e, loc, path, nextId);
    var head := FlattenEntry(env, e, loc, path, nextId);
    if e.node.File? {
      assert q == [];
      assert head[0].handle.location == loc + [e.name] + q;
    } else {
      assert q != [];
      var es := e.node.entries;
      var k0 := Find(es, q[0]);
      assert k0 < |es| && Get(e.node, q) == Get(es[k0].node, q[1..]);
      FlattenComplete(env, e.node, 0, loc + [e.name], ChildPath(path, e.name), nextId, k0, q[1..]);
      assert loc + [e.name] + [es[k0].name] + q[1..] == loc + [e.name] + q;
    }
  }

  lemma CoversLeft(a: seq<FileRecord>, b: seq<FileRecord>, p: Path)
    requires Covers(a, p)
    ensures Covers(a + b, p)
  {
    var k :| 0 <= k < |a| && a[k].handle.location == p;
    assert (a + b)[k] == a[k];
  }

  lemma CoversRight(a: seq<FileRecord>, b: seq<FileRecord>, p: Path)
    requires Covers(b, p)
    ensures Covers(a + b, p)
  {
    var k :| 0 <= k < |b| && b[k].handle.location == p;
    assert (a + b)[|a| + k] == b[k];
  }

  /** A scan is complete: every file of the picked directory has a record at its location. */
  lemma ScanComplete(env: Env, dir: Node, q: Path)
    requires dir.Dir? && FileAt(dir, q).Some?
    ensures Covers(Flatten(env, dir, [], "", 0), q)
  {
    assert q != [];
    var j := Find(dir.entries, q[0]);
    assert j < |dir.entries| && Get(dir, q) == Get(dir.entries[j].node, q[1..]);
    FlattenComplete(env, dir, 0, [], "", 0, j, q[1..]);
    assert [] + [dir.entries[j].name] + q[1..] == q;
  }

  /** Two record lists that agree in everything but the ids. */
  predicate SameButIds(r1: seq<FileRecord>, r2: seq<FileRecord>) {
    |r1| == |r2| && forall k :: 0 <= k < |r1| ==> r1[k].(id := 0) == r2[k].(id := 0)
  }

  /** Scanning the same tree again yields the same records in the same order;
      only the ids differ. */
  lemma {:induction false} FlattenRenumber(env: Env, dir: Node, i: nat, loc: Path, path: string, n1: nat, n2: nat)
    requires dir.Dir? && i <= |dir.entries|
    ensures SameButIds(FlattenFrom(env, dir, i, loc, path, n1), FlattenFrom(env, dir, i, loc, path, n2))
    decreases dir, |dir.entries| - i
  {
    if i < |dir.entries| {
      var e := dir.entries[i];
      assert e in dir.entries;
      var h1, h2 := FlattenEntry(env, e, loc, path, n1), FlattenEntry(env, e, loc, path, n2);
      EntryUnfold(env, e, loc, path, n1);
      EntryUnfold(env, e, loc, path, n2);
      if e.node.Dir? {
        FlattenRenumber(env, e.node, 0, loc + [e.name], ChildPath(path, e.name), n1, n2);
      }
      var m1, m2 := n1 + |h1|, n2 + |h2|;
      FlattenRenumber(env, dir, i + 1, loc, path, m1, m2);
      var r1, r2 := FlattenFrom(env, dir, i, loc, path, n1), FlattenFrom(env, dir, i, loc, path, n2);
      var t1, t2 := FlattenFrom(env, dir, i + 1, loc, path, m1), FlattenFrom(env, dir, i + 1, loc, path, m2);
      assert r1 == h1 + t1 && r2 == h2 + t2;
      forall k | 0 <= k < |r1| ensures r1[k].(id := 0) == r2[k].(id := 0) {
        if k < |h1| { assert r1[k] == h1[k] && r2[k] == h2[k]; }
        else { assert r1[k] == t1[k - |h1|] && r2[k] == t2[k - |h1|]; }
      }
    }
  }

  /** Every record of a scan of a well-formed root points at a file that is
      there, and carries that file's size, time and type. */
  lemma ScanSound(env: Env, root: Node, nextId: nat, k: nat)
    requires root.Dir? && WellFormed(root) && k < |Flatten(env, root, [], "", nextId)|
    ensures Present(root, Flatten(env, root, [], "", nextId)[k])
  {
    FlattenSound(env, root, root, 0, [], "", nextId);
    AllPresentAt(root, Flatten(env, root, [], "", nextId), k);
  }

  /** Every record of a scan of a well-formed root gives its location back
      when its relative path is split on `/`. */
  lemma ScanPathSplits(env: Env, root: Node, nextId: nat, k: nat)
    requires root.Dir? && WellFormed(root) && k < |Flatten(env, root, [], "", nextId)|
    ensures var rec := Flatten(env, root, [], "", nextId)[k];
      && Split(rec.path) == rec.handle.location
      && rec.handle.location != []
      && rec.name == rec.handle.location[|rec.handle.location| - 1]
  {
    var rs := Flatten(env, root, [], "", nextId);
    FlattenPaths(env, root, 0, [], "", nextId);
    FlattenSound(env, root, root, 0, [], "", nextId);
    AllPresentAt(root, rs, k);
    assert PlacedBelow(rs[k], [], env.movable);
    GetWellFormed(root, rs[k].handle.location);
    SplitJoinPath(rs[k].handle.location);
  }

  // ---------------------------------------------------------------------
  // Relocation

  /** Descends from `dir` through `parts` with `getDirectoryHandle`, one call
      per part, stopping at the first failure. */
  function Walk(env: Env, root: Node, dir: Path, parts: seq<string>, create: bool): Out<Path>
    decreases |parts|
  {
    if parts == [] then Out(Ok(dir), root, [])
    else
      var o := DirectoryStep(env, root, dir, parts[0], create);
      if o.result.Err? then o
      else
        var rest := Walk(env, o.root, o.result.value, parts[1..], create);
        Out(rest.result, rest.root, o.calls + rest.calls)
  }

  /** The calls a walk makes: the `t`-th asks the directory reached after
      `t` parts for part `t`. */
  predicate WalkCalls(calls: seq<Call>, dir: Path, parts: seq<string>, create: bool) {
    |calls| <= |parts| &&
    forall t :: 0 <= t < |calls| ==> calls[t] == GetDirectoryHandle(dir + parts[..t], parts[t], create)
  }

  /** One `getDirectoryHandle` per part, in order, and on success exactly
      one per part, ending at `dir + parts`. */
  lemma {:induction false} WalkShape(env: Env, root: Node, dir: Path, parts: seq<string>, create: bool)
    ensures var o := Walk(env, root, dir, parts, create);
      && WalkCalls(o.calls, dir, parts, create)
      && (o.result.Ok? ==> o.result.value == dir + parts && |o.calls| == |parts|)
      && (o.result.Err? ==> 1 <= |o.calls|)
    decreases |parts|
  {
    if parts == [] {
      assert dir + parts == dir;
    } else {
      var step := DirectoryStep(env, root, dir, parts[0], create);
      var c := GetDirectoryHandle(dir, parts[0], create);
      assert step.calls == [c];
      WalkUnfold(env, root, dir, parts, create);
      if step.result.Ok? {
        var next, tail := dir + [parts[0]], parts[1..];
        assert step.result.value == next;
        var rest := Walk(env, step.root, next, tail, create);
        WalkShape(env, step.root, next, tail, create);
        WalkCallsCons(c, rest, dir, parts, create);
      }
    }
  }

  lemma WalkCallsCons(c: Call, rest: Out<Path>, dir: Path, parts: seq<string>, create: bool)
    requires parts != [] && c == GetDirectoryHandle(dir, parts[0], create)
    requires WalkCalls(rest.calls, dir + [parts[0]], parts[1..], create)
    requires rest.result.Ok? ==> rest.result.value == dir + [parts[0]] + parts[1..] && |rest.calls| == |parts| - 1
    ensures var o := After([c], rest);
      && WalkCalls(o.calls, dir, parts, create)
      && (o.result.Ok? ==> o.result.value == dir + parts && |o.calls| == |parts|)
  {
    var o := After([c], rest);
    var next := dir + [parts[0]];
    assert next + parts[1..] == dir + parts;
    assert dir + parts[..0] == dir;
    forall t | 1 <= t < |o.calls|
      ensures o.calls[t] == GetDirectoryHandle(dir + parts[..t], parts[t], create)
    {
      assert o.calls[t] == rest.calls[t - 1];
      assert parts[1..][..t - 1] == parts[1..t];
      assert parts[..t] == [parts[0]] + parts[1..t];
      assert next + parts[1..][..t - 1] == dir + parts[..t];
    }
  }

  /** A walk never changes a file and never loses a directory; without
      `create` it changes nothing at all. */
  lemma {:induction false} WalkFrame(env: Env, root: Node, dir: Path, parts: seq<string>, create: bool)
    requires WellFormed(root) && IsDirAt(root, dir)
    ensures var o := Walk(env, root, dir, parts, create);
      && (!create ==> o.root == root)
      && SameFiles(root, o.root)
      && KeepsDirs(root, o.root)
      && WellFormed(o.root)
      && (root.Dir? ==> o.root.Dir?)
    decreases |parts|
  {
    if parts != [] {
      var step := DirectoryStep(env, root, dir, parts[0], create);
      DirectoryStepSpec(env, root, dir, parts[0], create);
      if step.result.Ok? {
        var next, tail := dir + [parts[0]], parts[1..];
        WalkFrame(env, step.root, next, tail, create);
      }
    }
  }

  /** Every directory the walk got to is there afterwards: on success the
      whole of `dir + parts`, on failure the last one reached before it. */
  lemma {:induction false} WalkReaches(env: Env, root: Node, dir: Path, parts: seq<string>, create: bool)
    requires WellFormed(root) && IsDirAt(root, dir)
    ensures var o := Walk(env, root, dir, parts, create);
      && (o.result.Ok? ==> IsDirAt(o.root, dir + parts))
      && (o.result.Err? ==> 1 <= |o.calls| <= |parts| && IsDirAt(o.root, dir + parts[..|o.calls| - 1]))
    decreases |parts|
  {
    if parts == [] {
      assert dir + parts == dir;
    } else {
      var step := DirectoryStep(env, root, dir, parts[0], create);
      StepReaches(env, root, dir, parts[0], create);
      WalkUnfold(env, root, dir, parts, create);
      if step.result.Err? {
        assert dir + parts[..0] == dir;
      } else {
        var next, tail := dir + [parts[0]], parts[1..];
        var rest := Walk(env, step.root, next, tail, create);
        WalkReaches(env, step.root, next, tail, create);
        ReachesCons(step.calls, rest, dir, parts);
      }
    }
  }

  /** The part of `DirectoryStepSpec` a walk needs to move on. */
  lemma StepReaches(env: Env, root: Node, dir: Path, name: string, create: bool)
    requires WellFormed(root)
    ensures var o := DirectoryStep(env, root, dir, name, create);
      && |o.calls| == 1
      && (o.result.Ok? ==> o.result.value == dir + [name] && IsDirAt(o.root, dir + [name]) && WellFormed(o.root))
      && (o.result.Err? ==> o.root == root)
  {
    DirectoryStepSpec(env, root, dir, name, create);
  }

  lemma ReachesCons(calls: seq<Call>, rest: Out<Path>, dir: Path, parts: seq<string>)
    requires parts != [] && |calls| == 1
    requires rest.result.Ok? ==> IsDirAt(rest.root, dir + [parts[0]] + parts[1..])
    requires rest.result.Err? ==>
      1 <= |rest.calls| <= |parts| - 1 && IsDirAt(rest.root, dir + [parts[0]] + parts[1..][..|rest.calls| - 1])
    ensures var o := After(calls, rest);
      && (o.result.Ok? ==> IsDirAt(o.root, dir + parts))
      && (o.result.Err? ==> 1 <= |o.calls| <= |parts| && IsDirAt(o.root, dir + parts[..|o.calls| - 1]))
  {
    assert dir + [parts[0]] + parts[1..] == dir + parts;
    if rest.result.Err? {
      assert dir + [parts[0]] + parts[1..][..|rest.calls| - 1] == dir + parts[..|rest.calls|];
    }
  }

  /** The walk is `mkdir -p` when creating and a plain lookup otherwise: on
      success it ends at `dir + parts`, a directory, after one call per part;
      it never changes a file and never loses a directory; a failure leaves
      every directory created before it in place. */
  lemma WalkSpec(env: Env, root: Node, dir: Path, parts: seq<string>, create: bool)
    requires WellFormed(root) && IsDirAt(root, dir)
    ensures var o := Walk(env, root, dir, parts, create);
      && WalkCalls(o.calls, dir, parts, create)
      && (o.result.Ok? ==> o.result.value == dir + parts && IsDirAt(o.root, dir + parts) && |o.calls| == |parts|)
      && (o.result.Err? ==> 1 <= |o.calls| && IsDirAt(o.root, dir + parts[..|o.calls| - 1]))
      && (!create ==> o.root == root)
      && SameFiles(root, o.root)
      && KeepsDirs(root, o.root)
      && WellFormed(o.root)
      && (root.Dir? ==> o.root.Dir?)
  {
    WalkShape(env, root, dir, parts, create);
    WalkFrame(env, root, dir, parts, create);
    WalkReaches(env, root, dir, parts, create);
  }

  /** Prepends calls made earlier to an outcome. */
  function After<T>(calls: seq<Call>, o: Out<T>): Out<T> {
    Out(o.result, o.root, calls + o.calls)
  }

  lemma AfterAfter<T>(a: seq<Call>, b: seq<Call>, o: Out<T>)
    ensures After(a, After(b, o)) == After(a + b, o)
  {
    assert a + (b + o.calls) == (a + b) + o.calls;
  }

  /** The target folder's segments resolved or created from the root. */
  function TargetWalk(env: Env, root: Node, target: string): Out<Path> {
    Walk(env, root, [], Segments(target), true)
  }

  /** The source's parent, reached from the root by the record's path minus
      its last segment, without creating anything. */
  function ParentParts(rec: FileRecord): seq<string> {
    var parts := Split(rec.path);
    parts[..|parts| - 1]
  }

  /** A failed outcome, retyped. */
  function Fail<T, U>(o: Out<T>): Out<U>
    requires o.result.Err?
  {
    Out(Err(o.result.error), o.root, o.calls)
  }

  /** Step 4: remove the original from the parent reached by walking its path. */
  function RemoveOriginal(env: Env, root: Node, rec: FileRecord): Out<bool> {
    var pw := Walk(env, root, [], ParentParts(rec), false);
    if pw.result.Err? then Fail(pw)
    else
      var rm := RemoveStep(env, pw.root, pw.result.value, rec.name);
      After(pw.calls, if rm.result.Ok? then Out(Ok(true), rm.root, rm.calls) else Fail(rm))
  }

  /** Write the snapshot into the new file, then remove the original. */
  function WriteThenRemove(env: Env, root: Node, rec: FileRecord, file: Path, data: FileData): Out<bool> {
    var wr := WriteStep(env, root, file, data);
    if wr.result.Err? then Fail(wr) else After(wr.calls, RemoveOriginal(env, wr.root, rec))
  }

  /** Create (or open) the same-named file in `dest`, then write and remove. */
  function CopyTo(env: Env, root: Node, rec: FileRecord, dest: Path, data: FileData): Out<bool> {
    var h := FileHandleStep(env, root, dest, rec.name, true);
    if h.result.Err? then Fail(h) else After(h.calls, WriteThenRemove(env, h.root, rec, h.result.value, data))
  }

  /** Steps 3 and 4: snapshot the file, copy it into `dest` under its name,
      then delete the original. */
  function Fallback(env: Env, root: Node, rec: FileRecord, dest: Path): Out<bool> {
    var g := ReadStep(env, root, rec.handle.location);
    if g.result.Err? then Fail(g) else After(g.calls, CopyTo(env, g.root, rec, dest, g.result.value))
  }

  /** Step 2 and what follows it, once the target directory `dest` is resolved. */
  function Place(env: Env, root: Node, rec: FileRecord, dest: Path): Out<bool> {
    if rec.handle.canMove then
      var m := MoveStep(env, root, rec.handle.location, dest);
      if m.result.Ok? then Out(Ok(true), m.root, m.calls)
      else After(m.calls, Fallback(env, m.root, rec, dest))
    else Fallback(env, root, rec, dest)
  }

  /** `moveFile` as a function of the tree: resolve the target, try the
      atomic move when the handle offers it, otherwise (or when it throws)
      copy and delete. Any other failure is the result, with nothing undone. */
  function Relocate(env: Env, root: Node, rec: FileRecord, target: string): Out<bool> {
    var w := TargetWalk(env, root, target);
    if w.result.Err? then Fail(w) else After(w.calls, Place(env, w.root, rec, w.result.value))
  }

  /** The atomic move was offered and succeeded. */
  predicate MovedAtomically(env: Env, root: Node, rec: FileRecord, target: string) {
    var w := TargetWalk(env, root, target);
    w.result.Ok? && rec.handle.canMove && MoveStep(env, w.root, rec.handle.location, w.result.value).result.Ok?
  }

  predicate Copies(calls: seq<Call>) {
    exists c :: c in calls && c.Write?
  }

  predicate Removes(calls: seq<Call>) {
    exists c :: c in calls && c.RemoveEntry?
  }

  lemma WalkUnfold(env: Env, root: Node, dir: Path, parts: seq<string>, create: bool)
    requires parts != []
    ensures var step := DirectoryStep(env, root, dir, parts[0], create);
      Walk(env, root, dir, parts, create)
        == if step.result.Err? then step
           else After(step.calls, Walk(env, step.root, step.result.value, parts[1..], create))
  {
  }

  /** One step of a walk already under way: a failed step ends it, a
      successful one leaves the rest of the walk to do. */
  lemma WalkAdvance(env: Env, root: Node, dir: Path, parts: seq<string>, i: nat, create: bool, done: seq<Call>, total: Out<Path>)
    requires i < |parts|
    requires total == After(done, Walk(env, root, dir, parts[i..], create))
    ensures var o := DirectoryStep(env, root, dir, parts[i], create);
      && (o.result.Err? ==> total == After(done, o))
      && (o.result.Ok? ==> total == After(done + o.calls, Walk(env, o.root, o.result.value, parts[i + 1..], create)))
  {
    var o := DirectoryStep(env, root, dir, parts[i], create);
    WalkUnfold(env, root, dir, parts[i..], create);
    assert parts[i..][1..] == parts[i + 1..];
    if o.result.Ok? {
      AfterAfter(done, o.calls, Walk(env, o.root, o.result.value, parts[i + 1..], create));
    }
  }

  /** Walks the directories of `parts` from the root, as both loops of
      `moveFile` do. */
  method ResolveDirectories(vol: Volume, parts: seq<string>, create: bool) returns (r: Result<Path, FsError>)
    requires vol.Valid()
    modifies vol
    ensures vol.Valid()
    ensures var o := Walk(vol.env, old(vol.root), [], parts, create);
      r == o.result && vol.root == o.root && vol.log == old(vol.log) + o.calls
  {
    var current: Path := [];
    var i := 0;
    ghost var done: seq<Call> := [];
    ghost var total := Walk(vol.env, vol.root, [], parts, create);
    while i < |parts|
      invariant 0 <= i <= |parts| && vol.Valid()
      invariant vol.log == old(vol.log) + done
      invariant total == After(done, Walk(vol.env, vol.root, current, parts[i..], create))
    {
      ghost var o := DirectoryStep(vol.env, vol.root, current, parts[i], create);
      WalkAdvance(vol.env, vol.root, current, parts, i, create, done, total);
      var step := vol.GetDirectoryHandle(current, parts[i], create);
      SeqAssoc(old(vol.log), done, o.calls);
      if step.Err? {
        return Err(step.error);
      }
      done := done + o.calls;
      current := step.value;
      i := i + 1;
    }
    assert parts[i..] == [];
    return Ok(current);
  }

  /** `moveFile`. */
  method MoveFile(rec: FileRecord, targetFolder: string, vol: Volume) returns (r: Result<bool, FsError>)
    requires vol.Valid()
    modifies vol
    ensures vol.Valid()
    ensures var o := Relocate(vol.env, old(vol.root), rec, targetFolder);
      r == o.result && vol.root == o.root && vol.log == old(vol.log) + o.calls
  {
    ghost var w := TargetWalk(vol.env, vol.root, targetFolder);
    var dest := ResolveDirectories(vol, Segments(targetFolder), true);
    if dest.Err? {
      return Err(dest.error);
    }
    ghost var p := Place(vol.env, vol.root, rec, dest.value);
    r := PlaceFile(rec, dest.value, vol);
    AfterAfter(old(vol.log), w.calls, p);
  }

  /** Step 2 of `moveFile` and, when it does not apply or throws, steps 3 and 4. */
  method PlaceFile(rec: FileRecord, currentDir: Path, vol: Volume) returns (r: Result<bool, FsError>)
    requires vol.Valid()
    modifies vol
    ensures vol.Valid()
    ensures var o := Place(vol.env, old(vol.root), rec, currentDir);
      r == o.result && vol.root == o.root && vol.log == old(vol.log) + o.calls
  {
    if rec.handle.canMove {
      ghost var m := MoveStep(vol.env, vol.root, rec.handle.location, currentDir);
      var moved := vol.Move(rec.handle.location, currentDir);
      if moved.Ok? {
        return Ok(true);
      }
      ghost var fb := Fallback(vol.env, vol.root, rec, currentDir);
      r := CopyAndDelete(rec, currentDir, vol);
      AfterAfter(old(vol.log), m.calls, fb);
    } else {
      r := CopyAndDelete(rec, currentDir, vol);
    }
  }

  /** Steps 3 and 4 of `moveFile`: snapshot, create, write, then delete. */
  method CopyAndDelete(rec: FileRecord, currentDir: Path, vol: Volume) returns (r: Result<bool, FsError>)
    requires vol.Valid()
    modifies vol
    ensures vol.Valid()
    ensures var o := Fallback(vol.env, old(vol.root), rec, currentDir);
      r == o.result && vol.root == o.root && vol.log == old(vol.log) + o.calls
  {
    ghost var g := ReadStep(vol.env, vol.root, rec.handle.location);
    var file := vol.GetFile(rec.handle.location);
    if file.Err? {
      return Err(file.error);
    }
    ghost var c := CopyTo(vol.env, vol.root, rec, currentDir, file.value);
    r := CreateAndWrite(rec, currentDir, file.value, vol);
    AfterAfter(old(vol.log), g.calls, c);
  }

  method CreateAndWrite(rec: FileRecord, currentDir: Path, data: FileData, vol: Volume) returns (r: Result<bool, FsError>)
    requires vol.Valid()
    modifies vol
    ensures vol.Valid()
    ensures var o := CopyTo(vol.env, old(vol.root), rec, currentDir, data);
      r == o.result && vol.root == o.root && vol.log == old(vol.log) + o.calls
  {
    ghost var h := FileHandleStep(vol.env, vol.root, currentDir, rec.name, true);
    var newFileHandle := vol.GetFileHandle(currentDir, rec.name, true);
    if newFileHandle.Err? {
      return Err(newFileHandle.error);
    }
    ghost var wr := WriteStep(vol.env, vol.root, newFileHandle.value, data);
    var written := vol.Write(newFileHandle.value, data);
    if written.Err? {
      AfterAfter(old(vol.log), h.calls, Fail<(), bool>(wr));
      return Err(written.error);
    }
    ghost var ro := RemoveOriginal(vol.env, vol.root, rec);
    r := DeleteOriginal(rec, vol);
    AfterAfter(old(vol.log), h.calls, After(wr.calls, ro));
    AfterAfter(old(vol.log) + h.calls, wr.calls, ro);
  }

  /** Step 4 of `moveFile`. */
  method DeleteOriginal(rec: FileRecord, vol: Volume) returns (r: Result<bool, FsError>)
    requires vol.Valid()
    modifies vol
    ensures vol.Valid()
    ensures var o := RemoveOriginal(vol.env, old(vol.root), rec);
      r == o.result && vol.root == o.root && vol.log == old(vol.log) + o.calls
  {
    var pathParts := Split(rec.path);
    pathParts := pathParts[..|pathParts| - 1];
    ghost var pw := Walk(vol.env, vol.root, [], pathParts, false);
    var sourceParent := ResolveDirectories(vol, pathParts, false);
    if sourceParent.Err? {
      return Err(sourceParent.error);
    }
    ghost var rm := RemoveStep(vol.env, vol.root, sourceParent.value, rec.name);
    var removed := vol.RemoveEntry(sourceParent.value, rec.name);
    if removed.Err? {
      AfterAfter(old(vol.log), pw.calls, Fail<(), bool>(rm));
      return Err(removed.error);
    }
    AfterAfter(old(vol.log), pw.calls, Out(Ok(true), rm.root, rm.calls));
    return Ok(true);
  }
}
