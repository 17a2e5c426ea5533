/** The storage substrate the file-system service talks to through File System
    Access handles. The directory tree is a value; a handle is the path of its
    entry below the picked root. Every primitive call is specified by a pure
    function from the tree before the call to its result, the tree after the
    call and the calls it adds to the log. Failures are injected: a call that
    belongs to the environment's fault set throws and changes nothing. */
module Storage {
  import opened Types
  import opened Paths

  /** The `DOMException` kinds the primitives throw. `Injected` stands for any
      failure the tree itself does not explain (revoked permission, I/O). */
  datatype FsError = NotFound | TypeMismatch | InvalidName | InvalidModification | Injected

  /** One primitive invocation, named after the handle method it models. */
  datatype Call =
    | Values(dir: Path)
    | GetDirectoryHandle(dir: Path, name: string, create: bool)
    | GetFileHandle(dir: Path, name: string, create: bool)
    | GetFile(file: Path)
    | Write(file: Path)
    | Move(file: Path, dest: Path)
    | RemoveEntry(dir: Path, name: string)

  /** The browser around the tree: which calls throw, whether file handles
      offer `move`, and the clock value stamped on written files. */
  datatype Env = Env(faults: set<Call>, movable: bool, now: int)

  /** What a primitive, or a sequence of them, produces. */
  datatype Out<T> = Out(result: Result<T, FsError>, root: Node, calls: seq<Call>)

  // ---------------------------------------------------------------------
  // Lookup and update in the tree

  /** The first entry called `name`, or `|es|` when there is none. */
  function Find(es: seq<Entry>, name: string): (k: nat)
    ensures k <= |es|
    ensures k < |es| ==> es[k].name == name
    ensures forall j :: 0 <= j < k ==> es[j].name != name
  {
    if es == [] then 0 else if es[0].name == name then 0 else 1 + Find(es[1..], name)
  }

  /** The node a path leads to, following names level by level. */
  function Get(n: Node, p: Path): Option<Node> {
    if p == [] then Some(n)
    else match n
      case File(_) => None
      case Dir(es) =>
        var k := Find(es, p[0]);
        if k == |es| then None else Get(es[k].node, p[1..])
  }

  /** The tree with the node at `p` replaced by `m`; unchanged when `p` leads nowhere. */
  function Put(n: Node, p: Path, m: Node): Node {
    if p == [] then m
    else match n
      case File(_) => n
      case Dir(es) =>
        var k := Find(es, p[0]);
        if k == |es| then n else Dir(es[k := Entry(p[0], Put(es[k].node, p[1..], m))])
  }

  function FileAt(n: Node, p: Path): Option<FileData> {
    match Get(n, p)
    case Some(File(d)) => Some(d)
    case _ => None
  }

  predicate IsDirAt(n: Node, p: Path) {
    Get(n, p).Some? && Get(n, p).value.Dir?
  }

  function EntriesAt(n: Node, p: Path): seq<Entry>
    requires IsDirAt(n, p)
  {
    Get(n, p).value.entries
  }

  predicate IsPrefix(p: Path, q: Path) {
    |p| <= |q| && q[..|p|] == p
  }

  predicate UniqueNames(es: seq<Entry>) {
    forall i, j :: 0 <= i < j < |es| ==> es[i].name != es[j].name
  }

  /** What a real directory tree guarantees: within a directory the names are
      distinct, and every name is one the browser accepts. */
  predicate WellFormed(n: Node) {
    match n
    case File(_) => true
    case Dir(es) =>
      UniqueNames(es) && forall i :: 0 <= i < |es| ==> ValidName(es[i].name) && WellFormed(es[i].node)
  }

  lemma FindSameNames(es: seq<Entry>, es': seq<Entry>, name: string)
    requires |es| == |es'| && forall i :: 0 <= i < |es| ==> es[i].name == es'[i].name
    ensures Find(es, name) == Find(es', name)
  {
  }

  lemma {:induction false} FindAppend(es: seq<Entry>, e: Entry, name: string)
    ensures Find(es + [e], name) == if Find(es, name) < |es| then Find(es, name)
                                    else if e.name == name then |es| else |es| + 1
  {
    if es != [] {
      assert (es + [e])[0] == es[0] && (es + [e])[1..] == es[1..] + [e];
      FindAppend(es[1..], e, name);
    }
  }

  lemma FindUnique(es: seq<Entry>, k: nat)
    requires UniqueNames(es) && k < |es|
    ensures Find(es, es[k].name) == k
  {
  }

  lemma {:induction false} GetAppend(n: Node, p: Path, q: Path)
    ensures Get(n, p + q) == if Get(n, p).Some? then Get(Get(n, p).value, q) else None
  {
    if p == [] {
      assert p + q == q;
    } else {
      assert (p + q)[0] == p[0] && (p + q)[1..] == p[1..] + q;
      match n
      case File(_) =>
      case Dir(es) =>
        var k := Find(es, p[0]);
        if k < |es| {
          GetAppend(es[k].node, p[1..], q);
        }
    }
  }

  /** A path that leads somewhere leads through directories only. */
  lemma AncestorIsDir(n: Node, p: Path, q: Path)
    requires IsPrefix(q, p) && |q| < |p| && Get(n, p).Some?
    ensures IsDirAt(n, q)
  {
    assert p == q + p[|q|..];
    GetAppend(n, q, p[|q|..]);
  }

  lemma {:induction false} PutMissing(n: Node, p: Path, m: Node)
    requires Get(n, p).None?
    ensures Put(n, p, m) == n
  {
    if p != [] && n.Dir? {
      var k := Find(n.entries, p[0]);
      if k < |n.entries| {
        PutMissing(n.entries[k].node, p[1..], m);
        assert n.entries[k := Entry(p[0], n.entries[k].node)] == n.entries;
      }
    }
  }

  /** After replacing the node at `p`, paths through `p` lead into the new node. */
  lemma {:induction false} PutAt(n: Node, p: Path, m: Node, q: Path)
    requires Get(n, p).Some?
    ensures Get(Put(n, p, m), p + q) == Get(m, q)
  {
    if p == [] {
      assert p + q == q;
    } else {
      var es := n.entries;
      var k := Find(es, p[0]);
      var es' := es[k := Entry(p[0], Put(es[k].node, p[1..], m))];
      FindSameNames(es, es', p[0]);
      assert (p + q)[0] == p[0] && (p + q)[1..] == p[1..] + q;
      PutAt(es[k].node, p[1..], m, q);
    }
  }

  /** Replacing the node at `p` leaves alone every path that neither passes
      through `p` nor leads to one of its ancestors. */
  lemma {:induction false} PutDivergent(n: Node, p: Path, m: Node, q: Path)
    requires !IsPrefix(p, q) && !IsPrefix(q, p)
    ensures Get(Put(n, p, m), q) == Get(n, q)
  {
    if n.Dir? {
      var es := n.entries;
      var k := Find(es, p[0]);
      if k < |es| {
        var es' := es[k := Entry(p[0], Put(es[k].node, p[1..], m))];
        FindSameNames(es, es', q[0]);
        if q[0] == p[0] {
          PutDivergent(es[k].node, p[1..], m, q[1..]);
        }
      }
    }
  }

  /** Replacing a node deep down keeps its ancestors directories. */
  lemma {:induction false} PutAncestor(n: Node, p: Path, m: Node, q: Path)
    requires IsPrefix(q, p) && |q| < |p| && Get(n, p).Some?
    ensures IsDirAt(Put(n, p, m), q)
  {
    var es := n.entries;
    var k := Find(es, p[0]);
    var es' := es[k := Entry(p[0], Put(es[k].node, p[1..], m))];
    if q != [] {
      FindSameNames(es, es', p[0]);
      assert q[0] == p[0];
      assert IsPrefix(q[1..], p[1..]);
      PutAncestor(es[k].node, p[1..], m, q[1..]);
    }
  }

  /** Files outside the replaced subtree are unaffected. */
  lemma PutFileElsewhere(n: Node, p: Path, m: Node, q: Path)
    requires !IsPrefix(p, q)
    ensures FileAt(Put(n, p, m), q) == FileAt(n, q)
  {
    if Get(n, p).None? {
      PutMissing(n, p, m);
    } else if IsPrefix(q, p) {
      PutAncestor(n, p, m, q);
      AncestorIsDir(n, p, q);
    } else {
      PutDivergent(n, p, m, q);
    }
  }

  /** Directories stay directories unless the replacement says otherwise. */
  lemma PutKeepsDir(n: Node, p: Path, m: Node, q: Path)
    requires IsDirAt(n, q)
    requires IsPrefix(p, q) ==> IsDirAt(m, q[|p|..])
    ensures IsDirAt(Put(n, p, m), q)
  {
    if Get(n, p).None? {
      PutMissing(n, p, m);
    } else if IsPrefix(p, q) {
      assert q == p + q[|p|..];
      PutAt(n, p, m, q[|p|..]);
    } else if IsPrefix(q, p) {
      PutAncestor(n, p, m, q);
    } else {
      PutDivergent(n, p, m, q);
    }
  }

  lemma {:induction false} GetWellFormed(n: Node, p: Path)
    requires WellFormed(n) && Get(n, p).Some?
    ensures WellFormed(Get(n, p).value)
    ensures ValidNames(p)
  {
    if p != [] {
      var k := Find(n.entries, p[0]);
      GetWellFormed(n.entries[k].node, p[1..]);
    }
  }

  lemma {:induction false} PutWellFormed(n: Node, p: Path, m: Node)
    requires WellFormed(n) && WellFormed(m)
    ensures WellFormed(Put(n, p, m))
  {
    if p != [] && n.Dir? {
      var es := n.entries;
      var k := Find(es, p[0]);
      if k < |es| {
        PutWellFormed(es[k].node, p[1..], m);
      }
    }
  }

  lemma AppendWellFormed(es: seq<Entry>, e: Entry)
    requires WellFormed(Dir(es)) && WellFormed(e.node) && ValidName(e.name) && Find(es, e.name) == |es|
    ensures WellFormed(Dir(es + [e]))
  {
  }

  lemma RemoveWellFormed(es: seq<Entry>, name: string)
    requires WellFormed(Dir(es))
    ensures WellFormed(Dir(Remove(es, name)))
  {
    var k := Find(es, name);
    if k < |es| {
      var r := es[..k] + es[k + 1..];
      forall i | 0 <= i < |r| ensures r[i] == es[if i < k then i else i + 1] {}
    }
  }

  lemma SetFileWellFormed(es: seq<Entry>, name: string, d: FileData)
    requires WellFormed(Dir(es)) && ValidName(name)
    ensures WellFormed(Dir(SetFile(es, name, d)))
  {
    var j := Find(es, name);
    if j < |es| {
      FindSameNames(es, es[j := Entry(name, File(d))], "");
    }
  }

  // ---------------------------------------------------------------------
  // The primitives

  /** `dir.getDirectoryHandle(name, { create })`. */
  function DirectoryStep(env: Env, root: Node, dir: Path, name: string, create: bool): Out<Path> {
    var c := GetDirectoryHandle(dir, name, create);
    if c in env.faults then Out(Err(Injected), root, [c])
    else if !IsDirAt(root, dir) then Out(Err(NotFound), root, [c])
    else if !ValidName(name) then Out(Err(InvalidName), root, [c])
    else
      var es := EntriesAt(root, dir);
      var k := Find(es, name);
      if k < |es| then
        (if es[k].node.Dir? then Out(Ok(dir + [name]), root, [c]) else Out(Err(TypeMismatch), root, [c]))
      else if create then Out(Ok(dir + [name]), Put(root, dir, Dir(es + [Entry(name, Dir([]))])), [c])
      else Out(Err(NotFound), root, [c])
  }

  /** `dir.getFileHandle(name, { create })`; a created file is empty. */
  function FileHandleStep(env: Env, root: Node, dir: Path, name: string, create: bool): Out<Path> {
    var c := GetFileHandle(dir, name, create);
    if c in env.faults then Out(Err(Injected), root, [c])
    else if !IsDirAt(root, dir) then Out(Err(NotFound), root, [c])
    else if !ValidName(name) then Out(Err(InvalidName), root, [c])
    else
      var es := EntriesAt(root, dir);
      var k := Find(es, name);
      if k < |es| then
        (if es[k].node.File? then Out(Ok(dir + [name]), root, [c]) else Out(Err(TypeMismatch), root, [c]))
      else if create then
        Out(Ok(dir + [name]), Put(root, dir, Dir(es + [Entry(name, File(FileData([], "", env.now)))])), [c])
      else Out(Err(NotFound), root, [c])
  }

  /** `file.getFile()`: a snapshot of the file. */
  function ReadStep(env: Env, root: Node, file: Path): Out<FileData> {
    var c := GetFile(file);
    if c in env.faults then Out(Err(Injected), root, [c])
    else match FileAt(root, file)
      case Some(d) => Out(Ok(d), root, [c])
      case None => Out(Err(NotFound), root, [c])
  }

  /** `createWritable()`, `write(data)` and `close()` taken together: the file
      then holds the written bytes and type, stamped with the current time. */
  function WriteStep(env: Env, root: Node, file: Path, data: FileData): Out<()> {
    var c := Write(file);
    if c in env.faults then Out(Err(Injected), root, [c])
    else if FileAt(root, file).None? then Out(Err(NotFound), root, [c])
    else Out(Ok(()), Put(root, file, File(FileData(data.contents, data.mime, env.now))), [c])
  }

  /** The entries of `es` without the first one called `name`. */
  function Remove(es: seq<Entry>, name: string): seq<Entry> {
    var k := Find(es, name);
    if k == |es| then es else es[..k] + es[k + 1..]
  }

  /** The entries of `es` with `name` set to the file `d`: replaced in place
      when present, appended otherwise. */
  function SetFile(es: seq<Entry>, name: string, d: FileData): seq<Entry> {
    var j := Find(es, name);
    if j < |es| then es[j := Entry(name, File(d))] else es + [Entry(name, File(d))]
  }

  /** The experimental `file.move(dest)`: the file leaves its directory and
      appears in `dest` under the same name, replacing a file of that name. */
  function MoveStep(env: Env, root: Node, file: Path, dest: Path): Out<()> {
    var c := Move(file, dest);
    if c in env.faults then Out(Err(Injected), root, [c])
    else if file == [] || FileAt(root, file).None? || !IsDirAt(root, dest) then Out(Err(NotFound), root, [c])
    else
      var name, parent, d := file[|file| - 1], file[..|file| - 1], FileAt(root, file).value;
      var des := EntriesAt(root, dest);
      var j := Find(des, name);
      if j < |des| && des[j].node.Dir? then Out(Err(TypeMismatch), root, [c])
      else if dest == parent then Out(Ok(()), root, [c])
      else if !IsDirAt(root, parent) then Out(Err(NotFound), root, [c])
      else
        var detached := Detached(root, parent, name);
        if !IsDirAt(detached, dest) then Out(Err(NotFound), root, [c])
        else Out(Ok(()), Put(detached, dest, Dir(SetFile(EntriesAt(detached, dest), name, d))), [c])
  }

  /** `dir.removeEntry(name)`: a file or an empty directory disappears. */
  function RemoveStep(env: Env, root: Node, dir: Path, name: string): Out<()> {
    var c := RemoveEntry(dir, name);
    if c in env.faults then Out(Err(Injected), root, [c])
    else if !IsDirAt(root, dir) then Out(Err(NotFound), root, [c])
    else if !ValidName(name) then Out(Err(InvalidName), root, [c])
    else
      var es := EntriesAt(root, dir);
      var k := Find(es, name);
      if k == |es| then Out(Err(NotFound), root, [c])
      else if es[k].node.Dir? && es[k].node.entries != [] then Out(Err(InvalidModification), root, [c])
      else Out(Ok(()), Detached(root, dir, name), [c])
  }

  /** The tree with the entry `name` dropped from the directory at `dir`. */
  function Detached(root: Node, dir: Path, name: string): Node
    requires IsDirAt(root, dir)
  {
    Put(root, dir, Dir(Remove(EntriesAt(root, dir), name)))
  }

  // ---------------------------------------------------------------------
  // What the primitives guarantee

  /** Every path leads to the same file, or to no file, in both trees. */
  ghost predicate SameFiles(a: Node, b: Node) {
    forall q :: FileAt(a, q) == FileAt(b, q)
  }

  ghost predicate SameFilesExcept(a: Node, b: Node, p: Path) {
    forall q :: q != p ==> FileAt(a, q) == FileAt(b, q)
  }

  ghost predicate SameFilesExceptBoth(a: Node, b: Node, p: Path, p': Path) {
    forall q :: q != p && q != p' ==> FileAt(a, q) == FileAt(b, q)
  }

  ghost predicate SameFilesOutside(a: Node, b: Node, p: Path) {
    forall q :: !IsPrefix(p, q) ==> FileAt(a, q) == FileAt(b, q)
  }

  /** No directory of `a` is missing from `b`. */
  ghost predicate KeepsDirs(a: Node, b: Node) {
    forall q :: IsDirAt(a, q) ==> IsDirAt(b, q)
  }

  /** `getDirectoryHandle` hands back the child's path, which is then a
      directory; it never touches a file, and it changes the tree only by
      creating that directory when asked to. */
  lemma DirectoryStepSpec(env: Env, root: Node, dir: Path, name: string, create: bool)
    requires WellFormed(root)
    ensures var o := DirectoryStep(env, root, dir, name, create);
      && o.calls == [GetDirectoryHandle(dir, name, create)]
      && (o.result.Ok? ==> o.result.value == dir + [name] && IsDirAt(o.root, dir + [name]))
      && (o.result.Err? || !create ==> o.root == root)
      && SameFiles(root, o.root)
      && KeepsDirs(root, o.root)
      && (root.Dir? ==> o.root.Dir?)
      && WellFormed(o.root)
  {
    var o := DirectoryStep(env, root, dir, name, create);
    if o.result.Ok? {
      GetAppend(root, dir, [name]);
    }
    if o.result.Ok? && Find(EntriesAt(root, dir), name) == |EntriesAt(root, dir)| {
      var es := EntriesAt(root, dir);
      var newDir := Dir(es + [Entry(name, Dir([]))]);
      GetWellFormed(root, dir);
      AppendWellFormed(es, Entry(name, Dir([])));
      PutWellFormed(root, dir, newDir);
      FindAppend(es, Entry(name, Dir([])), name);
      PutAt(root, dir, newDir, [name]);
      forall q {
        AppendedAt(root, dir, Entry(name, Dir([])), q);
      }
    }
  }

  /** What adding an empty directory or a file to the directory at `dir`
      does at one path: a file appears only at the new name, and every
      directory stays. */
  lemma AppendedAt(root: Node, dir: Path, e: Entry, q: Path)
    requires IsDirAt(root, dir) && Find(EntriesAt(root, dir), e.name) == |EntriesAt(root, dir)|
    requires e.node.File? || e.node == Dir([])
    ensures var t := Put(root, dir, Dir(EntriesAt(root, dir) + [e]));
      && (e.node.Dir? || q != dir + [e.name] ==> FileAt(t, q) == FileAt(root, q))
      && (IsDirAt(root, q) ==> IsDirAt(t, q))
  {
    var es := EntriesAt(root, dir);
    var newDir := Dir(es + [e]);
    if IsPrefix(dir, q) {
      var r := q[|dir|..];
      assert q == dir + r;
      PutAt(root, dir, newDir, r);
      GetAppend(root, dir, r);
      if e.node.Dir? {
        NewDirAddsNoFile(es, e.name, r);
      } else if r != [e.name] {
        NewFileElsewhere(es, e, r);
      }
      if IsDirAt(root, q) {
        NewDirKeepsDirs(es, e, r);
      }
    } else {
      PutFileElsewhere(root, dir, newDir, q);
    }
    if IsDirAt(root, q) {
      PutKeepsDir(root, dir, newDir, q);
    }
  }

  lemma NewDirAddsNoFile(es: seq<Entry>, name: string, r: Path)
    requires Find(es, name) == |es|
    ensures FileAt(Dir(es + [Entry(name, Dir([]))]), r) == FileAt(Dir(es), r)
  {
    var e := Entry(name, Dir([]));
    if r != [] {
      FindAppend(es, e, r[0]);
      var k := Find(es, r[0]);
      if k < |es| {
        assert (es + [e])[k] == es[k];
        assert Get(Dir(es + [e]), r) == Get(es[k].node, r[1..]);
      } else if r[0] == name {
        assert Get(Dir(es + [e]), r) == Get(Dir([]), r[1..]);
        assert Get(Dir(es), r) == None;
      } else {
        assert Get(Dir(es + [e]), r) == None;
      }
    }
  }

  lemma NewDirKeepsDirs(es: seq<Entry>, e: Entry, r: Path)
    requires Find(es, e.name) == |es| && IsDirAt(Dir(es), r)
    ensures IsDirAt(Dir(es + [e]), r)
  {
    if r != [] {
      FindAppend(es, e, r[0]);
      var k := Find(es, r[0]);
      assert (es + [e])[k] == es[k];
    }
  }

  /** `getFileHandle` hands back the child's path, which then holds a file;
      it changes the tree only by creating an empty file when asked to, and
      no directory disappears. */
  lemma FileHandleStepSpec(env: Env, root: Node, dir: Path, name: string, create: bool)
    requires WellFormed(root)
    ensures var o := FileHandleStep(env, root, dir, name, create);
      && o.calls == [GetFileHandle(dir, name, create)]
      && (o.result.Ok? ==> o.result.value == dir + [name] && FileAt(o.root, dir + [name]).Some?
                           && IsDirAt(root, dir)
                           && (FileAt(root, dir + [name]).Some? ==> o.root == root))
      && (o.result.Err? || !create ==> o.root == root)
      && SameFilesExcept(root, o.root, dir + [name])
      && KeepsDirs(root, o.root)
      && (root.Dir? ==> o.root.Dir?)
      && WellFormed(o.root)
  {
    var o := FileHandleStep(env, root, dir, name, create);
    if o.result.Ok? {
      GetAppend(root, dir, [name]);
    }
    if o.result.Ok? && Find(EntriesAt(root, dir), name) == |EntriesAt(root, dir)| {
      var es := EntriesAt(root, dir);
      var e := Entry(name, File(FileData([], "", env.now)));
      var newDir := Dir(es + [e]);
      GetWellFormed(root, dir);
      AppendWellFormed(es, e);
      PutWellFormed(root, dir, newDir);
      FindAppend(es, e, name);
      PutAt(root, dir, newDir, [name]);
      forall q {
        AppendedAt(root, dir, e, q);
      }
    }
  }

  lemma NewFileElsewhere(es: seq<Entry>, e: Entry, r: Path)
    requires Find(es, e.name) == |es| && e.node.File? && r != [e.name]
    ensures FileAt(Dir(es + [e]), r) == FileAt(Dir(es), r)
  {
    if r != [] {
      FindAppend(es, e, r[0]);
      var k := Find(es, r[0]);
      if k < |es| {
        assert (es + [e])[k] == es[k];
        assert Get(Dir(es + [e]), r) == Get(Dir(es), r);
      } else if r[0] == e.name {
        assert r == [r[0]] + r[1..];
        assert Get(Dir(es + [e]), r) == Get(e.node, r[1..]) == None;
      } else {
        assert Get(Dir(es + [e]), r) == None;
      }
    }
  }

  /** A write replaces exactly the written file, and a failed write changes nothing. */
  lemma WriteStepSpec(env: Env, root: Node, file: Path, data: FileData)
    requires WellFormed(root)
    ensures var o := WriteStep(env, root, file, data);
      && o.calls == [Write(file)]
      && (o.result.Ok? <==> Write(file) !in env.faults && FileAt(root, file).Some?)
      && (o.result.Ok? ==> FileAt(o.root, file) == Some(FileData(data.contents, data.mime, env.now)))
      && (o.result.Err? ==> o.root == root)
      && SameFilesExcept(root, o.root, file)
      && KeepsDirs(root, o.root)
      && (root.Dir? ==> o.root.Dir?)
      && WellFormed(o.root)
  {
    var o := WriteStep(env, root, file, data);
    if o.result.Ok? {
      var m := File(FileData(data.contents, data.mime, env.now));
      PutWellFormed(root, file, m);
      PutAt(root, file, m, []);
      assert file + [] == file;
      forall q {
        ReplacedFileAt(root, file, m, q);
      }
    }
  }

  /** What replacing a file by a file does at one path: any other file is
      where it was, and a directory stays a directory. */
  lemma ReplacedFileAt(root: Node, file: Path, m: Node, q: Path)
    requires FileAt(root, file).Some? && m.File?
    ensures q != file ==> FileAt(Put(root, file, m), q) == FileAt(root, q)
    ensures IsDirAt(root, q) ==> IsDirAt(Put(root, file, m), q)
  {
    if IsPrefix(file, q) {
      assert q == file + q[|file|..];
      PutAt(root, file, m, q[|file|..]);
      GetAppend(root, file, q[|file|..]);
    } else {
      PutFileElsewhere(root, file, m, q);
    }
    if IsDirAt(root, q) {
      PutKeepsDir(root, file, m, q);
    }
  }

  /** After a removal the name no longer resolves in that directory, and
      nothing outside the removed entry changes. */
  lemma RemoveStepSpec(env: Env, root: Node, dir: Path, name: string)
    requires WellFormed(root)
    ensures var o := RemoveStep(env, root, dir, name);
      && o.calls == [RemoveEntry(dir, name)]
      && (o.result.Ok? ==> Get(o.root, dir + [name]).None? && IsDirAt(o.root, dir))
      && (o.result.Err? ==> o.root == root)
      && SameFilesOutside(root, o.root, dir + [name])
      && (root.Dir? ==> o.root.Dir?)
      && WellFormed(o.root)
  {
    var o := RemoveStep(env, root, dir, name);
    if o.result.Ok? {
      var es := EntriesAt(root, dir);
      var k := Find(es, name);
      var rest := Remove(es, name);
      GetWellFormed(root, dir);
      RemoveWellFormed(es, name);
      PutWellFormed(root, dir, Dir(rest));
      PutAt(root, dir, Dir(rest), [name]);
      PutAt(root, dir, Dir(rest), []);
      assert dir + [] == dir;
      RemovedIsGone(es, k);
      RemovedFrame(root, dir, name);
    }
  }

  /** Dropping an entry from the directory at `dir` changes no file outside it. */
  lemma RemovedFrame(root: Node, dir: Path, name: string)
    requires WellFormed(root) && IsDirAt(root, dir)
    ensures SameFilesOutside(root, Detached(root, dir, name), dir + [name])
  {
    var es := EntriesAt(root, dir);
    var k := Find(es, name);
    var rest := Remove(es, name);
    GetWellFormed(root, dir);
    forall q | !IsPrefix(dir + [name], q) ensures FileAt(Put(root, dir, Dir(rest)), q) == FileAt(root, q) {
      if IsPrefix(dir, q) {
        assert q == dir + q[|dir|..];
        var r := q[|dir|..];
        PutAt(root, dir, Dir(rest), r);
        GetAppend(root, dir, r);
        if k < |es| && r != [] {
          RemovedElsewhere(es, k, r);
        }
      } else {
        PutFileElsewhere(root, dir, Dir(rest), q);
      }
    }
  }

  /** The `i`-th entry of a directory is found under its name one level down. */
  lemma ChildAt(root: Node, loc: Path, dir: Node, i: nat)
    requires WellFormed(root) && Get(root, loc) == Some(dir) && dir.Dir? && i < |dir.entries|
    ensures Get(root, loc + [dir.entries[i].name]) == Some(dir.entries[i].node)
    ensures ValidName(dir.entries[i].name)
  {
    GetWellFormed(root, loc);
    FindUnique(dir.entries, i);
    GetAppend(root, loc, [dir.entries[i].name]);
  }

  lemma RemovedIsGone(es: seq<Entry>, k: nat)
    requires UniqueNames(es) && k < |es|
    ensures Find(es[..k] + es[k + 1..], es[k].name) == |es| - 1
  {
    var rest := es[..k] + es[k + 1..];
    forall t | 0 <= t < |rest| ensures rest[t] == es[if t < k then t else t + 1] {}
  }

  /** Dropping one entry leaves every path through another name as it was. */
  lemma RemovedElsewhere(es: seq<Entry>, k: nat, r: Path)
    requires UniqueNames(es) && k < |es|
    requires r != [] && r[0] != es[k].name
    ensures Get(Dir(es[..k] + es[k + 1..]), r) == Get(Dir(es), r)
  {
    var rest := es[..k] + es[k + 1..];
    var i, j := Find(es, r[0]), Find(rest, r[0]);
    forall t | 0 <= t < |rest| ensures rest[t] == es[if t < k then t else t + 1] {}
    if i < |es| {
      var i' := if i < k then i else i - 1;
      assert rest[i'] == es[i];
      assert j == i';
    }
  }

  /** What dropping a file from its directory does at one path: any other
      file is where it was, and a path is a directory afterwards exactly
      when it was one before. */
  lemma DetachedAt(root: Node, dir: Path, name: string, q: Path)
    requires WellFormed(root) && IsDirAt(root, dir) && FileAt(root, dir + [name]).Some?
    ensures q != dir + [name] ==> FileAt(Detached(root, dir, name), q) == FileAt(root, q)
    ensures IsDirAt(Detached(root, dir, name), q) <==> IsDirAt(root, q)
  {
    var rest := Remove(EntriesAt(root, dir), name);
    if IsPrefix(dir, q) {
      var r := q[|dir|..];
      assert q == dir + r;
      DetachedBelow(root, dir, name, r);
    } else if IsPrefix(q, dir) {
      PutAncestor(root, dir, Dir(rest), q);
      AncestorIsDir(root, dir, q);
    } else {
      PutDivergent(root, dir, Dir(rest), q);
    }
  }

  lemma DetachedBelow(root: Node, dir: Path, name: string, r: Path)
    requires WellFormed(root) && IsDirAt(root, dir) && FileAt(root, dir + [name]).Some?
    ensures r != [name] ==> FileAt(Detached(root, dir, name), dir + r) == FileAt(root, dir + r)
    ensures IsDirAt(Detached(root, dir, name), dir + r) <==> IsDirAt(root, dir + r)
  {
    var es := EntriesAt(root, dir);
    var k := Find(es, name);
    GetWellFormed(root, dir);
    GetAppend(root, dir, [name]);
    assert k < |es| && es[k].node.File?;
    PutAt(root, dir, Dir(Remove(es, name)), r);
    GetAppend(root, dir, r);
    if r != [] && r[0] != name {
      RemovedElsewhere(es, k, r);
    } else if r != [] {
      RemovedBelow(es, k, r);
    }
  }

  /** With a file dropped, nothing is left at or below its name, and there
      was no directory there before. */
  lemma RemovedBelow(es: seq<Entry>, k: nat, r: Path)
    requires UniqueNames(es) && k < |es| && es[k].node.File? && r != [] && r[0] == es[k].name
    ensures Get(Dir(es[..k] + es[k + 1..]), r).None?
    ensures !IsDirAt(Dir(es), r) && (|r| > 1 ==> Get(Dir(es), r).None?)
  {
    RemovedIsGone(es, k);
    FindUnique(es, k);
    assert Get(Dir(es), r) == Get(es[k].node, r[1..]);
  }

  /** Dropping a file from its directory takes that file away and nothing
      else: every other file and every directory stays. */
  lemma DetachFile(root: Node, dir: Path, name: string)
    requires WellFormed(root) && IsDirAt(root, dir) && FileAt(root, dir + [name]).Some?
    ensures FileAt(Detached(root, dir, name), dir + [name]).None?
    ensures SameFilesExcept(root, Detached(root, dir, name), dir + [name])
    ensures forall q :: IsDirAt(Detached(root, dir, name), q) <==> IsDirAt(root, q)
    ensures WellFormed(Detached(root, dir, name))
  {
    var es := EntriesAt(root, dir);
    var t := Detached(root, dir, name);
    forall q ensures (q != dir + [name] ==> FileAt(t, q) == FileAt(root, q)) && (IsDirAt(t, q) <==> IsDirAt(root, q)) {
      DetachedAt(root, dir, name, q);
    }
    GetWellFormed(root, dir);
    GetAppend(root, dir, [name]);
    RemovedIsGone(es, Find(es, name));
    PutAt(root, dir, Dir(Remove(es, name)), [name]);
    RemoveWellFormed(es, name);
    PutWellFormed(root, dir, Dir(Remove(es, name)));
  }

  /** A successful removal of a file takes away that file only, and keeps
      every directory. */
  lemma RemoveFileFrame(env: Env, root: Node, dir: Path, name: string)
    requires WellFormed(root) && FileAt(root, dir + [name]).Some?
    ensures var o := RemoveStep(env, root, dir, name);
      SameFilesExcept(root, o.root, dir + [name]) && KeepsDirs(root, o.root)
  {
    if RemoveStep(env, root, dir, name).result.Ok? {
      DetachFile(root, dir, name);
    }
  }

  /** A file read changes nothing and sees what is there. */
  lemma ReadStepSpec(env: Env, root: Node, file: Path)
    ensures var o := ReadStep(env, root, file);
      && o.calls == [GetFile(file)] && o.root == root
      && (o.result.Ok? <==> GetFile(file) !in env.faults && FileAt(root, file).Some?)
      && (o.result.Ok? ==> Some(o.result.value) == FileAt(root, file))
  {
  }

  lemma SetFileAt(es: seq<Entry>, name: string, d: FileData)
    ensures Get(Dir(SetFile(es, name, d)), [name]) == Some(File(d))
  {
    var j := Find(es, name);
    if j < |es| {
      FindSameNames(es, es[j := Entry(name, File(d))], name);
    } else {
      FindAppend(es, Entry(name, File(d)), name);
    }
  }

  /** Setting a file leaves every path through another name as it was. */
  lemma SetFileElsewhere(es: seq<Entry>, name: string, d: FileData, r: Path)
    requires r != [] && r[0] != name
    ensures Get(Dir(SetFile(es, name, d)), r) == Get(Dir(es), r)
  {
    var j := Find(es, name);
    if j < |es| {
      FindSameNames(es, es[j := Entry(name, File(d))], r[0]);
    } else {
      FindAppend(es, Entry(name, File(d)), r[0]);
    }
  }

  /** What setting the file `name` in the directory at `dir`, where no
      directory of that name lies, does at one path: any other file is where
      it was, and a directory stays a directory. */
  lemma SetFileInDir(root: Node, dir: Path, name: string, d: FileData, q: Path)
    requires IsDirAt(root, dir) && !IsDirAt(root, dir + [name])
    ensures var t := Put(root, dir, Dir(SetFile(EntriesAt(root, dir), name, d)));
      && (q != dir + [name] ==> FileAt(t, q) == FileAt(root, q))
      && (IsDirAt(root, q) ==> IsDirAt(t, q))
  {
    var es := EntriesAt(root, dir);
    var m := Dir(SetFile(es, name, d));
    if IsPrefix(dir, q) {
      var r := q[|dir|..];
      assert q == dir + r;
      PutAt(root, dir, m, r);
      GetAppend(root, dir, r);
      if r != [] && r[0] != name {
        SetFileElsewhere(es, name, d, r);
      } else if r != [] {
        assert r == [name] + r[1..];
        SetFileAt(es, name, d);
        GetAppend(root, dir, [name]);
        GetAppend(m, [name], r[1..]);
        GetAppend(Dir(es), [name], r[1..]);
      }
    } else {
      PutFileElsewhere(root, dir, m, q);
      if IsDirAt(root, q) {
        PutKeepsDir(root, dir, m, q);
      }
    }
  }

  /** Setting the file `name` in the directory at `dir`, where no directory
      of that name lies, changes no other file and keeps every directory. */
  lemma SetFileFrame(root: Node, dir: Path, name: string, d: FileData)
    requires IsDirAt(root, dir) && !IsDirAt(root, dir + [name])
    ensures var t := Put(root, dir, Dir(SetFile(EntriesAt(root, dir), name, d)));
      SameFilesExcept(root, t, dir + [name]) && KeepsDirs(root, t)
  {
    forall q {
      SetFileInDir(root, dir, name, d, q);
    }
  }

  /** A successful `move` leaves the file's data under its name in `dest`;
      a failed one changes nothing. */
  lemma MoveStepSpec(env: Env, root: Node, file: Path, dest: Path)
    ensures var o := MoveStep(env, root, file, dest);
      && o.calls == [Move(file, dest)]
      && (o.result.Err? ==> o.root == root)
      && (o.result.Ok? ==> file != [] && FileAt(root, file).Some?
                           && FileAt(o.root, dest + [file[|file| - 1]]) == FileAt(root, file))
  {
    var o := MoveStep(env, root, file, dest);
    if o.result.Ok? {
      var name, parent, d := file[|file| - 1], file[..|file| - 1], FileAt(root, file).value;
      if dest == parent {
        assert file == dest + [name];
      } else {
        var detached := Detached(root, parent, name);
        var des := EntriesAt(detached, dest);
        SetFileAt(des, name, d);
        PutAt(detached, dest, Dir(SetFile(des, name, d)), [name]);
      }
    }
  }

  // ---------------------------------------------------------------------
  // The handles' owner

  /** The directory the user picked, with the log of the calls made on its
      handles. */
  class Volume {
    const env: Env
    var root: Node
    var log: seq<Call>

    ghost predicate Valid()
      reads this
    {
      root.Dir? && WellFormed(root)
    }

    constructor (env: Env, root: Node)
      requires root.Dir? && WellFormed(root)
      ensures Valid() && this.env == env && this.root == root && log == []
    {
      this.env := env;
      this.root := root;
      this.log := [];
    }

    method GetDirectoryHandle(dir: Path, name: string, create: bool) returns (r: Result<Path, FsError>)
      requires Valid()
      modifies this
      ensures Valid()
      ensures var o := DirectoryStep(env, old(root), dir, name, create);
        r == o.result && root == o.root && log == old(log) + o.calls
    {
      var o := DirectoryStep(env, root, dir, name, create);
      DirectoryStepSpec(env, root, dir, name, create);
      r, root, log := o.result, o.root, log + o.calls;
    }

    method GetFileHandle(dir: Path, name: string, create: bool) returns (r: Result<Path, FsError>)
      requires Valid()
      modifies this
      ensures Valid()
      ensures var o := FileHandleStep(env, old(root), dir, name, create);
        r == o.result && root == o.root && log == old(log) + o.calls
    {
      var o := FileHandleStep(env, root, dir, name, create);
      FileHandleStepSpec(env, root, dir, name, create);
      r, root, log := o.result, o.root, log + o.calls;
    }

    method GetFile(file: Path) returns (r: Result<FileData, FsError>)
      requires Valid()
      modifies this
      ensures Valid()
      ensures var o := ReadStep(env, old(root), file);
        r == o.result && root == o.root && log == old(log) + o.calls
    {
      var o := ReadStep(env, root, file);
      r, log := o.result, log + o.calls;
    }

    method Write(file: Path, data: FileData) returns (r: Result<(), FsError>)
      requires Valid()
      modifies this
      ensures Valid()
      ensures var o := WriteStep(env, old(root), file, data);
        r == o.result && root == o.root && log == old(log) + o.calls
    {
      var o := WriteStep(env, root, file, data);
      WriteStepSpec(env, root, file, data);
      r, root, log := o.result, o.root, log + o.calls;
    }

    method Move(file: Path, dest: Path) returns (r: Result<(), FsError>)
      requires Valid()
      modifies this
      ensures Valid()
      ensures var o := MoveStep(env, old(root), file, dest);
        r == o.result && root == o.root && log == old(log) + o.calls
    {
      var o := MoveStep(env, root, file, dest);
      MoveStepWellFormed(env, root, file, dest);
      r, root, log := o.result, o.root, log + o.calls;
    }

    method RemoveEntry(dir: Path, name: string) returns (r: Result<(), FsError>)
      requires Valid()
      modifies this
      ensures Valid()
      ensures var o := RemoveStep(env, old(root), dir, name);
        r == o.result && root == o.root && log == old(log) + o.calls
    {
      var o := RemoveStep(env, root, dir, name);
      RemoveStepSpec(env, root, dir, name);
      r, root, log := o.result, o.root, log + o.calls;
    }
  }

  /** A successful `move` into another directory empties the file's old
      place; either way it touches no file but the moved one and the one it
      lands on, and keeps every directory. */
  lemma MoveStepFrame(env: Env, root: Node, file: Path, dest: Path)
    requires WellFormed(root)
    ensures var o := MoveStep(env, root, file, dest);
      o.result.Ok? ==>
        && file != []
        && (dest != file[..|file| - 1] ==> FileAt(o.root, file).None?)
        && SameFilesExceptBoth(root, o.root, file, dest + [file[|file| - 1]])
        && KeepsDirs(root, o.root)
  {
    var o := MoveStep(env, root, file, dest);
    if o.result.Ok? && dest != file[..|file| - 1] {
      var name, parent := file[|file| - 1], file[..|file| - 1];
      assert file == parent + [name];
      GetAppend(root, dest, [name]);
      MoveAcross(root, parent, name, dest, FileAt(root, file).value);
    }
  }

  /** The tree a `move` into another directory builds: the file dropped from
      its folder and set in the target. Only those two paths change, the old
      one is empty, and every directory stays. */
  lemma MoveAcross(root: Node, parent: Path, name: string, dest: Path, d: FileData)
    requires WellFormed(root) && IsDirAt(root, parent) && FileAt(root, parent + [name]).Some?
    requires IsDirAt(root, dest) && !IsDirAt(root, dest + [name]) && dest != parent
    ensures IsDirAt(Detached(root, parent, name), dest)
    ensures var t := Detached(root, parent, name);
      var u := Put(t, dest, Dir(SetFile(EntriesAt(t, dest), name, d)));
      && FileAt(u, parent + [name]).None?
      && SameFilesExceptBoth(root, u, parent + [name], dest + [name])
      && KeepsDirs(root, u)
  {
    var t := Detached(root, parent, name);
    DetachFile(root, parent, name);
    SetFileFrame(t, dest, name, d);
    assert parent + [name] != dest + [name] by {
      assert (parent + [name])[..|parent|] == parent && (dest + [name])[..|dest|] == dest;
    }
  }

  lemma MoveStepWellFormed(env: Env, root: Node, file: Path, dest: Path)
    requires WellFormed(root)
    ensures WellFormed(MoveStep(env, root, file, dest).root)
    ensures root.Dir? ==> MoveStep(env, root, file, dest).root.Dir?
  {
    var o := MoveStep(env, root, file, dest);
    if o.result.Ok? && file[..|file| - 1] != dest {
      var name, parent, d := file[|file| - 1], file[..|file| - 1], FileAt(root, file).value;
      var pes := EntriesAt(root, parent);
      GetWellFormed(root, file);
      GetWellFormed(root, parent);
      RemoveWellFormed(pes, name);
      var detached := Detached(root, parent, name);
      PutWellFormed(root, parent, Dir(Remove(pes, name)));
      GetWellFormed(detached, dest);
      SetFileWellFormed(EntriesAt(detached, dest), name, d);
      PutWellFormed(detached, dest, Dir(SetFile(EntriesAt(detached, dest), name, d)));
    }
  }
}
