/** What `moveFile` guarantees, proved layer by layer on the functions the
    methods of `FileSystem` are proved against: removal of the original,
    write-then-remove, create-write-remove, the copy-and-delete fallback, and
    the whole relocation with its optional atomic move. */
module Relocation {
  import opened Types
  import opened Paths
  import opened Storage
  import opened FileSystem

  /** A record as the scan hands it out: its relative path splits into its
      location, and the location ends with its name. */
  predicate ScanShaped(rec: FileRecord) {
    var l := rec.handle.location;
    l != [] && Split(rec.path) == l && rec.name == l[|l| - 1]
  }

  /** The directory holding the record's file. */
  function Parent(rec: FileRecord): Path
    requires rec.handle.location != []
  {
    rec.handle.location[..|rec.handle.location| - 1]
  }

  /** What the fallback leaves in the target: the source's bytes and type,
      with the time of the write. */
  function Stamped(env: Env, d: FileData): FileData {
    FileData(d.contents, d.mime, env.now)
  }

  lemma ParentOfScanned(rec: FileRecord)
    requires ScanShaped(rec)
    ensures ParentParts(rec) == Parent(rec)
    ensures Parent(rec) + [rec.name] == rec.handle.location
  {
    var l := rec.handle.location;
    assert l == l[..|l| - 1] + [l[|l| - 1]];
  }

  lemma CopiesConcat(a: seq<Call>, b: seq<Call>)
    ensures Copies(a + b) <==> Copies(a) || Copies(b)
    ensures Removes(a + b) <==> Removes(a) || Removes(b)
  {
    if Copies(a + b) {
      var c :| c in a + b && c.Write?;
      assert c in a || c in b;
    }
    if Removes(a + b) {
      var c :| c in a + b && c.RemoveEntry?;
      assert c in a || c in b;
    }
    if Copies(a) {
      var c :| c in a && c.Write?;
      assert c in a + b;
    }
    if Copies(b) {
      var c :| c in b && c.Write?;
      assert c in a + b;
    }
    if Removes(a) {
      var c :| c in a && c.RemoveEntry?;
      assert c in a + b;
    }
    if Removes(b) {
      var c :| c in b && c.RemoveEntry?;
      assert c in a + b;
    }
  }

  /** A walk only asks for directories: it neither writes nor removes. */
  lemma WalkNeitherCopiesNorRemoves(calls: seq<Call>, dir: Path, parts: seq<string>, create: bool)
    requires WalkCalls(calls, dir, parts, create)
    ensures !Copies(calls) && !Removes(calls)
  {
    forall c | c in calls ensures c.GetDirectoryHandle? {
      var t :| 0 <= t < |calls| && calls[t] == c;
    }
  }

  /** A directory never lies at or below a file. */
  lemma NotBelowFile(root: Node, loc: Path, dest: Path)
    requires FileAt(root, loc).Some? && IsDirAt(root, dest)
    ensures !IsPrefix(loc, dest)
  {
    if IsPrefix(loc, dest) && |loc| < |dest| {
      AncestorIsDir(root, dest, loc);
    } else {
      assert dest[..|dest|] == dest;
    }
  }

  /** Step 4: on success the original is gone; on failure nothing changed;
      either way no file outside the original's location changed, and when
      the original is a file no other file changed and no directory was lost. */
  lemma RemoveOriginalSpec(env: Env, root: Node, rec: FileRecord)
    requires WellFormed(root) && root.Dir? && ScanShaped(rec)
    ensures var o := RemoveOriginal(env, root, rec);
      && (o.result.Ok? ==> FileAt(o.root, rec.handle.location).None? && Removes(o.calls))
      && (o.result.Err? ==> o.root == root)
      && SameFilesOutside(root, o.root, rec.handle.location)
      && (FileAt(root, rec.handle.location).Some? ==>
            SameFilesExcept(root, o.root, rec.handle.location) && KeepsDirs(root, o.root))
  {
    var o := RemoveOriginal(env, root, rec);
    var pp := ParentParts(rec);
    ParentOfScanned(rec);
    assert IsDirAt(root, []);
    var pw := Walk(env, root, [], pp, false);
    WalkSpec(env, root, [], pp, false);
    if pw.result.Ok? {
      assert pw.result.value == pp && pw.root == root;
      var rm := RemoveStep(env, root, pp, rec.name);
      RemoveStepSpec(env, root, pp, rec.name);
      if FileAt(root, rec.handle.location).Some? {
        RemoveFileFrame(env, root, pp, rec.name);
      }
      if rm.result.Ok? {
        assert o.calls == pw.calls + rm.calls;
        assert RemoveEntry(pp, rec.name) in o.calls;
      }
    }
  }

  /** Write the snapshot, then remove the original. On success the written
      file holds the stamped snapshot unless it lies at or below the original,
      and the original is gone. A failure once the write went through leaves
      both the copy and the original. No failure loses a directory; when the
      original exists, no file but the two changes and no directory is lost. */
  lemma WriteThenRemoveSpec(env: Env, root: Node, rec: FileRecord, file: Path, data: FileData)
    requires WellFormed(root) && root.Dir? && ScanShaped(rec) && FileAt(root, file).Some?
    ensures var o := WriteThenRemove(env, root, rec, file, data);
      && Copies(o.calls)
      && (o.result.Ok? ==> FileAt(o.root, rec.handle.location).None? && Removes(o.calls))
      && (o.result.Ok? && !IsPrefix(rec.handle.location, file) ==> FileAt(o.root, file) == Some(Stamped(env, data)))
      && (o.result.Err? && Write(file) !in env.faults && !IsPrefix(rec.handle.location, file) ==>
            FileAt(o.root, file) == Some(Stamped(env, data)) && FileAt(o.root, rec.handle.location) == FileAt(root, rec.handle.location))
      && (o.result.Err? ==> KeepsDirs(root, o.root))
      && (FileAt(root, rec.handle.location).Some? ==>
            SameFilesExceptBoth(root, o.root, rec.handle.location, file) && KeepsDirs(root, o.root))
  {
    var o := WriteThenRemove(env, root, rec, file, data);
    var wr := WriteStep(env, root, file, data);
    WriteStepSpec(env, root, file, data);
    assert Write(file) in wr.calls;
    if wr.result.Ok? {
      var ro := RemoveOriginal(env, wr.root, rec);
      RemoveOriginalSpec(env, wr.root, rec);
      assert o.calls == wr.calls + ro.calls;
      CopiesConcat(wr.calls, ro.calls);
      if !IsPrefix(rec.handle.location, file) {
        assert FileAt(ro.root, file) == FileAt(wr.root, file);
        assert FileAt(wr.root, rec.handle.location) == FileAt(root, rec.handle.location);
      }
    }
  }

  /** Create (or open) the same-named file in `dest`, then write and remove;
      when the original exists, no file but the two changes and no directory
      is lost. */
  lemma CopyToSpec(env: Env, root: Node, rec: FileRecord, dest: Path, data: FileData)
    requires WellFormed(root) && root.Dir? && ScanShaped(rec)
    ensures var o := CopyTo(env, root, rec, dest, data);
      var file := dest + [rec.name];
      && (o.result.Ok? ==> Copies(o.calls) && Removes(o.calls) && FileAt(o.root, rec.handle.location).None?)
      && (o.result.Ok? && !IsPrefix(rec.handle.location, file) ==> FileAt(o.root, file) == Some(Stamped(env, data)))
      && (o.result.Err? && Copies(o.calls) && Write(file) !in env.faults && !IsPrefix(rec.handle.location, file) ==>
            FileAt(o.root, file) == Some(Stamped(env, data)) && FileAt(o.root, rec.handle.location) == FileAt(root, rec.handle.location))
      && (o.result.Err? ==> KeepsDirs(root, o.root))
      && (FileAt(root, rec.handle.location).Some? ==>
            SameFilesExceptBoth(root, o.root, rec.handle.location, file) && KeepsDirs(root, o.root))
  {
    var o := CopyTo(env, root, rec, dest, data);
    var file := dest + [rec.name];
    var h := FileHandleStep(env, root, dest, rec.name, true);
    FileHandleStepSpec(env, root, dest, rec.name, true);
    if h.result.Err? {
      assert o.calls == [GetFileHandle(dest, rec.name, true)];
      assert !Copies(o.calls);
    } else {
      var wtr := WriteThenRemove(env, h.root, rec, file, data);
      WriteThenRemoveSpec(env, h.root, rec, file, data);
      assert o.calls == h.calls + wtr.calls;
      CopiesConcat(h.calls, wtr.calls);
      if !IsPrefix(rec.handle.location, file) {
        assert rec.handle.location != file;
        assert FileAt(h.root, rec.handle.location) == FileAt(root, rec.handle.location);
      }
    }
  }

  /** Steps 3 and 4. On success the source existed, a copy was written and a
      removal made, and the original location is empty; when the target is not
      the source's own parent the target holds the stamped snapshot of the
      source, whatever it held before. A failure after the write leaves both
      files. No file but the source and the target changes, and no directory
      is lost. */
  lemma FallbackSpec(env: Env, root: Node, rec: FileRecord, dest: Path)
    requires WellFormed(root) && root.Dir? && ScanShaped(rec) && IsDirAt(root, dest)
    ensures var o := Fallback(env, root, rec, dest);
      var loc, file := rec.handle.location, dest + [rec.name];
      && (o.result.Ok? ==> FileAt(root, loc).Some? && Copies(o.calls) && Removes(o.calls) && FileAt(o.root, loc).None?)
      && (o.result.Ok? && dest != Parent(rec) ==> FileAt(o.root, file) == Some(Stamped(env, FileAt(root, loc).value)))
      && (o.result.Err? && Copies(o.calls) && Write(file) !in env.faults && dest != Parent(rec) ==>
            FileAt(root, loc).Some?
            && FileAt(o.root, file) == Some(Stamped(env, FileAt(root, loc).value)) && FileAt(o.root, loc) == FileAt(root, loc))
      && SameFilesExceptBoth(root, o.root, loc, file)
      && KeepsDirs(root, o.root)
  {
    var o := Fallback(env, root, rec, dest);
    var loc, file := rec.handle.location, dest + [rec.name];
    var g := ReadStep(env, root, loc);
    ReadStepSpec(env, root, loc);
    if g.result.Err? {
      assert o.calls == [GetFile(loc)];
      assert !Copies(o.calls);
    } else {
      var c := CopyTo(env, root, rec, dest, g.result.value);
      CopyToSpec(env, root, rec, dest, g.result.value);
      assert o.calls == g.calls + c.calls;
      CopiesConcat(g.calls, c.calls);
      assert !Copies(g.calls) && !Removes(g.calls);
      if dest != Parent(rec) {
        NotOwnFile(root, rec, dest);
      }
    }
  }

  /** Outside the file's own parent, the copy's path does not run through
      the original file. */
  lemma NotOwnFile(root: Node, rec: FileRecord, dest: Path)
    requires WellFormed(root) && root.Dir? && ScanShaped(rec) && IsDirAt(root, dest)
    requires FileAt(root, rec.handle.location).Some? && dest != Parent(rec)
    ensures !IsPrefix(rec.handle.location, dest + [rec.name])
  {
    var loc, file := rec.handle.location, dest + [rec.name];
    NotBelowFile(root, loc, dest);
    ParentOfScanned(rec);
    if IsPrefix(loc, file) && |loc| <= |dest| {
      assert IsPrefix(loc, dest);
    }
  }

  /** Target resolution is `mkdir -p`: on success the target is the list of
      non-empty segments of the folder name, a directory afterwards, reached
      with one `getDirectoryHandle` per segment and without touching a file. */
  lemma TargetWalkSpec(env: Env, root: Node, target: string)
    requires WellFormed(root) && root.Dir?
    ensures var w := TargetWalk(env, root, target);
      && (w.result.Ok? ==> w.result.value == Segments(target) && IsDirAt(w.root, w.result.value)
                           && |w.calls| == |Segments(target)|)
      && SameFiles(root, w.root) && KeepsDirs(root, w.root)
      && WellFormed(w.root) && w.root.Dir?
      && !Copies(w.calls) && !Removes(w.calls)
  {
    assert IsDirAt(root, []);
    WalkSpec(env, root, [], Segments(target), true);
    var w := TargetWalk(env, root, target);
    WalkNeitherCopiesNorRemoves(w.calls, [], Segments(target), true);
    assert [] + Segments(target) == Segments(target);
  }

  /** The atomic move, once the target exists: success, no write, no
      removal, and the file's data unchanged under its name in the target;
      outside its own folder the file's old place is empty, no other file
      changes and no directory is lost. */
  lemma PlaceAtomic(env: Env, root: Node, rec: FileRecord, dest: Path)
    requires WellFormed(root) && ScanShaped(rec) && rec.handle.canMove
    requires MoveStep(env, root, rec.handle.location, dest).result.Ok?
    ensures var o := Place(env, root, rec, dest);
      && o.result == Ok(true)
      && !Copies(o.calls) && !Removes(o.calls)
      && FileAt(o.root, dest + [rec.name]) == FileAt(root, rec.handle.location)
      && (dest != Parent(rec) ==> FileAt(o.root, rec.handle.location).None?)
      && SameFilesExceptBoth(root, o.root, rec.handle.location, dest + [rec.name])
      && KeepsDirs(root, o.root)
  {
    MoveStepSpec(env, root, rec.handle.location, dest);
    MoveStepFrame(env, root, rec.handle.location, dest);
  }

  /** The atomic path: when the handle offers `move` and it succeeds,
      `moveFile` reports success, writes nothing and removes nothing, and the
      file's data sits unchanged under its name in the target. Unless the
      target is the file's own folder its old place is empty; no other file
      changes and no directory is lost. */
  lemma RelocateAtomic(env: Env, root: Node, rec: FileRecord, target: string)
    requires WellFormed(root) && root.Dir? && ScanShaped(rec) && MovedAtomically(env, root, rec, target)
    ensures var o := Relocate(env, root, rec, target);
      && o.result == Ok(true)
      && !Copies(o.calls) && !Removes(o.calls)
      && FileAt(o.root, Segments(target) + [rec.name]) == FileAt(root, rec.handle.location)
      && (Segments(target) != Parent(rec) ==> FileAt(o.root, rec.handle.location).None?)
      && SameFilesExceptBoth(root, o.root, rec.handle.location, Segments(target) + [rec.name])
      && KeepsDirs(root, o.root)
  {
    var w := TargetWalk(env, root, target);
    TargetWalkSpec(env, root, target);
    var dest := w.result.value;
    var loc := rec.handle.location;
    var p := Place(env, w.root, rec, dest);
    PlaceAtomic(env, w.root, rec, dest);
    assert FileAt(w.root, loc) == FileAt(root, loc);
    CopiesConcat(w.calls, p.calls);
  }

  /** Otherwise a successful `moveFile` went the fallback way: it wrote a copy
      and removed the original, whose location is empty afterwards; the target
      holds the stamped snapshot unless the target is the file's own parent.
      Whatever the outcome, no file but the source and the target changes and
      no directory is lost. */
  lemma RelocateFallback(env: Env, root: Node, rec: FileRecord, target: string)
    requires WellFormed(root) && root.Dir? && ScanShaped(rec) && !MovedAtomically(env, root, rec, target)
    ensures var o := Relocate(env, root, rec, target);
      var loc, file := rec.handle.location, Segments(target) + [rec.name];
      && (o.result.Ok? ==> FileAt(root, loc).Some? && Copies(o.calls) && Removes(o.calls) && FileAt(o.root, loc).None?)
      && (o.result.Ok? && Segments(target) != Parent(rec) ==> FileAt(o.root, file) == Some(Stamped(env, FileAt(root, loc).value)))
      && SameFilesExceptBoth(root, o.root, loc, file)
      && KeepsDirs(root, o.root)
  {
    var w := TargetWalk(env, root, target);
    TargetWalkSpec(env, root, target);
    var o := Relocate(env, root, rec, target);
    if w.result.Ok? {
      var dest := w.result.value;
      var fb;
      if rec.handle.canMove {
        var m := MoveStep(env, w.root, rec.handle.location, dest);
        MoveStepSpec(env, w.root, rec.handle.location, dest);
        fb := Fallback(env, m.root, rec, dest);
        assert o.calls == w.calls + (m.calls + fb.calls);
        CopiesConcat(m.calls, fb.calls);
      } else {
        fb := Fallback(env, w.root, rec, dest);
        assert o.calls == w.calls + fb.calls;
      }
      FallbackSpec(env, w.root, rec, dest);
      assert o.root == fb.root && o.result == fb.result;
      CopiesConcat(w.calls, o.calls[|w.calls|..]);
      assert o.calls == w.calls + o.calls[|w.calls|..];
    }
  }

  /** Nothing is rolled back: when `moveFile` fails after resolving the
      target, the target directories it created are still there. */
  lemma RelocateNoRollback(env: Env, root: Node, rec: FileRecord, target: string)
    requires WellFormed(root) && root.Dir? && ScanShaped(rec)
    ensures var o := Relocate(env, root, rec, target);
      TargetWalk(env, root, target).result.Ok? && o.result.Err? ==> IsDirAt(o.root, Segments(target))
  {
    var w := TargetWalk(env, root, target);
    TargetWalkSpec(env, root, target);
    var o := Relocate(env, root, rec, target);
    if w.result.Ok? && o.result.Err? {
      var dest := w.result.value;
      if rec.handle.canMove {
        var m := MoveStep(env, w.root, rec.handle.location, dest);
        MoveStepSpec(env, w.root, rec.handle.location, dest);
        if m.result.Err? {
          FallbackSpec(env, m.root, rec, dest);
        }
      } else {
        FallbackSpec(env, w.root, rec, dest);
      }
    }
  }

  /** The fallback into the file's own folder reports success yet loses the
      file: the copy is written over the original, which is then removed. */
  lemma RelocateIntoOwnParent(env: Env, root: Node, rec: FileRecord, target: string)
    requires WellFormed(root) && root.Dir? && ScanShaped(rec) && !MovedAtomically(env, root, rec, target)
    requires Segments(target) == Parent(rec)
    ensures var o := Relocate(env, root, rec, target);
      o.result.Ok? ==> FileAt(root, rec.handle.location).Some? && FileAt(o.root, Segments(target) + [rec.name]).None?
  {
    RelocateFallback(env, root, rec, target);
    ParentOfScanned(rec);
  }

  /** The loss above happens: with no fault, the file `a` at the top of the
      folder, sent to the top folder on a browser without `move`, is reported
      moved and is gone afterwards. */
  lemma OwnParentExample()
    ensures var root := Dir([Entry("a", File(FileData([], "", 0)))]);
      var rec := FileRecord(0, "a", 0, "", FileHandle(["a"], false), "a", 0);
      var env := Env({}, false, 1);
      var o := Relocate(env, root, rec, "");
      && WellFormed(root) && ScanShaped(rec) && !MovedAtomically(env, root, rec, "")
      && Segments("") == Parent(rec)
      && o.result == Ok(true) && FileAt(root, ["a"]).Some? && FileAt(o.root, ["a"]).None?
  {
    var a: string := "a";
    assert a[0] == 'a' && a[1..] == [] && ['a'] + "" == a;
    assert Split(a[1..]) == [""];
    assert Split(a) == [a];
    var root := Dir([Entry("a", File(FileData([], "", 0)))]);
    var rec := FileRecord(0, "a", 0, "", FileHandle(["a"], false), "a", 0);
    var env := Env({}, false, 1);
    assert Segments("") == [];
    assert TargetWalk(env, root, "") == Out(Ok([]), root, []);
    var written := Dir([Entry("a", File(FileData([], "", 1)))]);
    assert WriteStep(env, root, ["a"], FileData([], "", 0)).root == written;
    assert ParentParts(rec) == [];
    assert RemoveStep(env, written, [], "a").root == Dir([]);
  }
}
