/** The list operations the dashboard's handlers are built from: the
    filters, the merge of classifier results by name, the status updates of
    the execute pass, the rescan that re-attaches analysis by name, the
    search filter and the grouping of the preview. */
module Records {
  import opened Types
  import opened Text

  // ---------------------------------------------------------------------
  // Filtering

  /** `fs.filter(p)`. */
  function Filter(fs: seq<OrganizedFile>, p: OrganizedFile -> bool): (r: seq<OrganizedFile>)
    ensures |r| <= |fs|
  {
    if fs == [] then []
    else Filter(fs[..|fs| - 1], p) + (if p(fs[|fs| - 1]) then [fs[|fs| - 1]] else [])
  }

  /** The files kept are exactly those of `fs` that pass the test. */
  lemma {:induction false} FilterSpec(fs: seq<OrganizedFile>, p: OrganizedFile -> bool)
    ensures forall x :: x in Filter(fs, p) <==> x in fs && p(x)
  {
    if fs != [] {
      var init := fs[..|fs| - 1];
      FilterSpec(init, p);
      assert fs == init + [fs[|fs| - 1]];
    }
  }

  /** Filtering keeps the order: it distributes over concatenation. */
  lemma {:induction false} FilterConcat(a: seq<OrganizedFile>, b: seq<OrganizedFile>, p: OrganizedFile -> bool)
    ensures Filter(a + b, p) == Filter(a, p) + Filter(b, p)
    decreases |b|
  {
    if b == [] {
      assert a + b == a;
    } else {
      var init := b[..|b| - 1];
      assert (a + b)[..|a + b| - 1] == a + init;
      FilterConcat(a, init, p);
    }
  }

  /** Every file kept passes the test. */
  lemma {:induction false} FilterPasses(fs: seq<OrganizedFile>, p: OrganizedFile -> bool)
    ensures forall i :: 0 <= i < |Filter(fs, p)| ==> p(Filter(fs, p)[i])
  {
    if fs != [] {
      FilterPasses(fs[..|fs| - 1], p);
    }
  }

  /** A filter that every file passes keeps the list as it is. */
  lemma {:induction false} FilterAll(fs: seq<OrganizedFile>, p: OrganizedFile -> bool)
    requires forall i :: 0 <= i < |fs| ==> p(fs[i])
    ensures Filter(fs, p) == fs
  {
    if fs != [] {
      FilterAll(fs[..|fs| - 1], p);
    }
  }

  /** A filter that no file passes keeps nothing. */
  lemma {:induction false} FilterNone(fs: seq<OrganizedFile>, p: OrganizedFile -> bool)
    requires forall i :: 0 <= i < |fs| ==> !p(fs[i])
    ensures Filter(fs, p) == []
  {
    if fs != [] {
      FilterNone(fs[..|fs| - 1], p);
    }
  }

  /** Two tests that agree keep the same files. */
  lemma {:induction false} FilterSame(fs: seq<OrganizedFile>, p: OrganizedFile -> bool, q: OrganizedFile -> bool)
    requires forall i :: 0 <= i < |fs| ==> p(fs[i]) == q(fs[i])
    ensures Filter(fs, p) == Filter(fs, q)
  {
    if fs != [] {
      FilterSame(fs[..|fs| - 1], p, q);
    }
  }

  // ---------------------------------------------------------------------
  // What is sent to the classifier

  function Names(fs: seq<OrganizedFile>): seq<string> {
    seq(|fs|, i requires 0 <= i < |fs| => fs[i].Name())
  }

  predicate Unanalysed(f: OrganizedFile) {
    f.analysis.None?
  }

  /** `pendingFiles.map(f => f.name)`. */
  function PendingNames(fs: seq<OrganizedFile>): seq<string> {
    Names(Filter(fs, Unanalysed))
  }

  /** The names sent are those of the files without analysis, one per such
      file, in collection order: a file contributes its name exactly when it
      has no analysis, and a list contributes its parts' names in turn. */
  lemma PendingNamesSpec(a: seq<OrganizedFile>, b: seq<OrganizedFile>, f: OrganizedFile)
    ensures PendingNames([f]) == if f.analysis.None? then [f.Name()] else []
    ensures PendingNames(a + b) == PendingNames(a) + PendingNames(b)
  {
    assert [f][..0] == [];
    FilterConcat(a, b, Unanalysed);
  }

  // ---------------------------------------------------------------------
  // Merging the classifier's results

  /** `results.find(r => r.originalName === name)`, as the position found,
      or the length when there is none. */
  function FirstResult(results: seq<AIAnalysisResult>, name: string): (k: nat)
    ensures k <= |results|
    ensures k < |results| ==> results[k].originalName == name
  {
    if results == [] then 0
    else if results[0].originalName == name then 0
    else 1 + FirstResult(results[1..], name)
  }

  /** No earlier result carries the name. */
  lemma {:induction false} FirstResultIsFirst(results: seq<AIAnalysisResult>, name: string)
    ensures forall j :: 0 <= j < FirstResult(results, name) ==> results[j].originalName != name
  {
    if results != [] && results[0].originalName != name {
      FirstResultIsFirst(results[1..], name);
    }
  }

  /** One file after the merge: the first result with its name, marked
      ready, or the file unchanged. */
  function Matched(f: OrganizedFile, results: seq<AIAnalysisResult>): OrganizedFile {
    var k := FirstResult(results, f.Name());
    if k < |results| then f.(analysis := Some(results[k]), status := Ready) else f
  }

  /** The merge of `handleAnalyze`, over every file of the collection. */
  function Merge(files: seq<OrganizedFile>, results: seq<AIAnalysisResult>): seq<OrganizedFile> {
    seq(|files|, i requires 0 <= i < |files| => Matched(files[i], results))
  }

  /** A file whose name some result carries gets the first such result and
      status ready; any other file is left as it was; records are kept. */
  lemma MergeSpec(files: seq<OrganizedFile>, results: seq<AIAnalysisResult>, i: nat, k: nat)
    requires i < |files|
    ensures |Merge(files, results)| == |files| && Merge(files, results)[i].record == files[i].record
    ensures (forall j :: 0 <= j < |results| ==> results[j].originalName != files[i].Name()) ==>
      Merge(files, results)[i] == files[i]
    ensures (k < |results| && results[k].originalName == files[i].Name()
        && forall j :: 0 <= j < k ==> results[j].originalName != files[i].Name()) ==>
      Merge(files, results)[i] == files[i].(analysis := Some(results[k]), status := Ready)
  {
    FirstResultIsFirst(results, files[i].Name());
  }

  /** Files with the same name, wherever they are, get the same result. */
  lemma MergeSameName(files: seq<OrganizedFile>, results: seq<AIAnalysisResult>, i: nat, j: nat)
    requires i < |files| && j < |files| && files[i].Name() == files[j].Name()
    requires exists k :: 0 <= k < |results| && results[k].originalName == files[i].Name()
    ensures Merge(files, results)[i].analysis == Merge(files, results)[j].analysis
    ensures Merge(files, results)[i].analysis.Some? && Merge(files, results)[i].status == Ready
  {
    var k :| 0 <= k < |results| && results[k].originalName == files[i].Name();
    FirstResultIsFirst(results, files[i].Name());
  }

  // ---------------------------------------------------------------------
  // The execute pass

  predicate IsReady(f: OrganizedFile) {
    f.status == Ready && f.analysis.Some?
  }

  /** `readyFiles`: every file kept is ready and has an analysis. */
  function ReadyFiles(fs: seq<OrganizedFile>): (r: seq<OrganizedFile>)
    ensures forall i :: 0 <= i < |r| ==> r[i].status == Ready && r[i].analysis.Some?
  {
    FilterPasses(fs, IsReady);
    Filter(fs, IsReady)
  }

  /** The files moved are the ready ones with an analysis, in order. */
  lemma ReadyFilesSpec(a: seq<OrganizedFile>, b: seq<OrganizedFile>)
    ensures forall f :: f in ReadyFiles(a) <==> f in a && f.status == Ready && f.analysis.Some?
    ensures ReadyFiles(a + b) == ReadyFiles(a) + ReadyFiles(b)
  {
    FilterSpec(a, IsReady);
    FilterConcat(a, b, IsReady);
  }

  /** One status update: `prev.map(p => p.id === id ? { ...p, status } : p)`. */
  function Mark(fs: seq<OrganizedFile>, id: nat, status: Status): seq<OrganizedFile> {
    seq(|fs|, i requires 0 <= i < |fs| => if fs[i].Id() == id then fs[i].(status := status) else fs[i])
  }

  datatype Update = Update(id: nat, status: Status)

  /** The final status of a record whose move succeeded or threw. */
  function Outcome(moved: bool): Status {
    if moved then Done else Error
  }

  /** The status updates of the execute pass, in the order they are made:
      for each ready file, `moving` and then its outcome. */
  function Updates(ready: seq<OrganizedFile>, moved: seq<bool>): seq<Update>
    requires |ready| == |moved|
  {
    if ready == [] then []
    else
      var n := |ready| - 1;
      Updates(ready[..n], moved[..n]) + [Update(ready[n].Id(), Moving), Update(ready[n].Id(), Outcome(moved[n]))]
  }

  /** The updates applied in turn. */
  function Apply(fs: seq<OrganizedFile>, us: seq<Update>): seq<OrganizedFile> {
    if us == [] then fs
    else
      var last := us[|us| - 1];
      Mark(Apply(fs, us[..|us| - 1]), last.id, last.status)
  }

  /** Every ready file goes to `moving` and then to `done` or `error`, one
      file after the other, none skipped. */
  lemma {:induction false} UpdatesShape(ready: seq<OrganizedFile>, moved: seq<bool>)
    requires |ready| == |moved|
    ensures |Updates(ready, moved)| == 2 * |ready|
    ensures forall t :: 0 <= t < |ready| ==>
      Updates(ready, moved)[2 * t] == Update(ready[t].Id(), Moving)
      && Updates(ready, moved)[2 * t + 1] == Update(ready[t].Id(), Outcome(moved[t]))
  {
    if ready != [] {
      var n := |ready| - 1;
      UpdatesShape(ready[..n], moved[..n]);
    }
  }

  /** Each update touches the records with its id and no other. */
  lemma {:induction false} ApplyLength(fs: seq<OrganizedFile>, us: seq<Update>)
    ensures |Apply(fs, us)| == |fs|
    ensures forall j :: 0 <= j < |fs| ==> Apply(fs, us)[j].record == fs[j].record && Apply(fs, us)[j].analysis == fs[j].analysis
  {
    if us != [] {
      ApplyLength(fs, us[..|us| - 1]);
    }
  }

  /** A record no ready file shares its id with keeps its status. */
  lemma {:induction false} ApplyUntouched(fs: seq<OrganizedFile>, ready: seq<OrganizedFile>, moved: seq<bool>, j: nat)
    requires |ready| == |moved| && j < |fs|
    requires forall t :: 0 <= t < |ready| ==> ready[t].Id() != fs[j].Id()
    ensures |Apply(fs, Updates(ready, moved))| == |fs| && Apply(fs, Updates(ready, moved))[j] == fs[j]
  {
    ApplyLength(fs, Updates(ready, moved));
    if ready != [] {
      var n := |ready| - 1;
      var us := Updates(ready[..n], moved[..n]);
      ApplyUntouched(fs, ready[..n], moved[..n], j);
      ApplyTwo(fs, us, ready[n].Id(), Outcome(moved[n]));
    }
  }

  /** The record of the last ready file with its id ends in that file's
      outcome. */
  lemma {:induction false} ApplyTouched(fs: seq<OrganizedFile>, ready: seq<OrganizedFile>, moved: seq<bool>, j: nat, t: nat)
    requires |ready| == |moved| && j < |fs| && t < |ready| && ready[t].Id() == fs[j].Id()
    requires forall u :: t < u < |ready| ==> ready[u].Id() != fs[j].Id()
    ensures |Apply(fs, Updates(ready, moved))| == |fs|
    ensures Apply(fs, Updates(ready, moved))[j] == fs[j].(status := Outcome(moved[t]))
  {
    ApplyLength(fs, Updates(ready, moved));
    var n := |ready| - 1;
    var us := Updates(ready[..n], moved[..n]);
    ApplyTwo(fs, us, ready[n].Id(), Outcome(moved[n]));
    ApplyLength(fs, us);
    if t < n {
      ApplyTouched(fs, ready[..n], moved[..n], j, t);
    }
  }

  /** Applying the two updates of one file. */
  lemma ApplyTwo(fs: seq<OrganizedFile>, us: seq<Update>, id: nat, outcome: Status)
    ensures Apply(fs, us + [Update(id, Moving), Update(id, outcome)]) == Mark(Mark(Apply(fs, us), id, Moving), id, outcome)
  {
    var all := us + [Update(id, Moving), Update(id, outcome)];
    assert all[..|all| - 1] == us + [Update(id, Moving)];
    assert (us + [Update(id, Moving)])[..|us|] == us;
  }

  /** A file is ready only together with its analysis: the merge sets both
      at once, and nothing else makes a file ready. */
  predicate ReadyAnalysed(fs: seq<OrganizedFile>) {
    forall i :: 0 <= i < |fs| && fs[i].status == Ready ==> fs[i].analysis.Some?
  }

  /** The merge keeps every ready file analysed. */
  lemma MergeReadyAnalysed(fs: seq<OrganizedFile>, results: seq<AIAnalysisResult>)
    requires ReadyAnalysed(fs)
    ensures ReadyAnalysed(Merge(fs, results))
  {
  }

  /** No update of the execute pass makes a file ready. */
  lemma {:induction false} UpdatesNeverReady(ready: seq<OrganizedFile>, moved: seq<bool>)
    requires |ready| == |moved|
    ensures forall t :: 0 <= t < |Updates(ready, moved)| ==> Updates(ready, moved)[t].status != Ready
  {
    if ready != [] {
      var n := |ready| - 1;
      UpdatesNeverReady(ready[..n], moved[..n]);
    }
  }

  /** Updates that never set `ready` keep every ready file analysed. */
  lemma {:induction false} ApplyReadyAnalysed(fs: seq<OrganizedFile>, us: seq<Update>)
    requires ReadyAnalysed(fs) && forall t :: 0 <= t < |us| ==> us[t].status != Ready
    ensures ReadyAnalysed(Apply(fs, us))
  {
    if us != [] {
      ApplyReadyAnalysed(fs, us[..|us| - 1]);
    }
  }

  // ---------------------------------------------------------------------
  // Scans

  /** `records.map(r => ({ ...r, status: 'pending' }))`. */
  function Fresh(records: seq<FileRecord>): seq<OrganizedFile> {
    seq(|records|, i requires 0 <= i < |records| => OrganizedFile(records[i], None, Pending))
  }

  /** A scan's records are all pending, so none is ready without analysis. */
  lemma ScannedReadyAnalysed(records: seq<FileRecord>, before: seq<OrganizedFile>)
    ensures ReadyAnalysed(Fresh(records)) && ReadyAnalysed(Rescanned(records, before))
  {
  }

  /** `files.find(oldF => oldF.name === name)?.analysis`. */
  function PriorAnalysis(before: seq<OrganizedFile>, name: string): Option<AIAnalysisResult> {
    if before == [] then None
    else if before[0].Name() == name then before[0].analysis
    else PriorAnalysis(before[1..], name)
  }

  /** The records of the rescan, pending, each with the analysis of the
      first earlier file of the same name. */
  function Rescanned(records: seq<FileRecord>, before: seq<OrganizedFile>): seq<OrganizedFile> {
    seq(|records|, i requires 0 <= i < |records| => OrganizedFile(records[i], PriorAnalysis(before, records[i].name), Pending))
  }

  /** The analysis comes from the first earlier file with the name, even when
      that one has none and a later one has; with no such file there is none. */
  lemma {:induction false} PriorAnalysisSpec(before: seq<OrganizedFile>, name: string, t: nat)
    ensures (forall j :: 0 <= j < |before| ==> before[j].Name() != name) ==> PriorAnalysis(before, name) == None
    ensures t < |before| && before[t].Name() == name && (forall j :: 0 <= j < t ==> before[j].Name() != name) ==>
      PriorAnalysis(before, name) == before[t].analysis
  {
    if before != [] && before[0].Name() != name {
      PriorAnalysisSpec(before[1..], name, if t == 0 then 0 else t - 1);
    }
  }

  /** Every rescanned record is pending and keeps its scanned fields; a scan
      with nothing to remember is a fresh scan. */
  lemma RescannedSpec(records: seq<FileRecord>, before: seq<OrganizedFile>)
    ensures |Rescanned(records, before)| == |records|
    ensures forall i :: 0 <= i < |records| ==>
      Rescanned(records, before)[i].record == records[i] && Rescanned(records, before)[i].status == Pending
    ensures Rescanned(records, []) == Fresh(records)
  {
  }

  // ---------------------------------------------------------------------
  // Search and preview

  /** `filteredFiles`: the name contains the filter, ignoring ASCII case. */
  function FilteredFiles(files: seq<OrganizedFile>, filter: string): seq<OrganizedFile> {
    Filter(files, Shows(filter))
  }

  function Shows(filter: string): OrganizedFile -> bool {
    (f: OrganizedFile) => Includes(Lower(f.Name()), Lower(filter))
  }

  lemma {:induction false} LowerTwice(s: string)
    ensures Lower(Lower(s)) == Lower(s)
  {
  }

  /** A file is shown exactly when its lower-cased name contains the
      lower-cased filter; the filter's own case does not matter, and an empty
      filter shows everything in order. */
  lemma FilteredFilesSpec(files: seq<OrganizedFile>, filter: string)
    ensures forall f :: f in FilteredFiles(files, filter) <==> f in files && Includes(Lower(f.Name()), Lower(filter))
    ensures FilteredFiles(files, Lower(filter)) == FilteredFiles(files, filter)
    ensures FilteredFiles(files, "") == files
  {
    FilterSpec(files, Shows(filter));
    LowerTwice(filter);
    FilterSame(files, Shows(Lower(filter)), Shows(filter));
    FilterAll(files, Shows(""));
  }

  const Unsorted := "Unsorted"

  /** `f.analysis?.suggestedPath || 'Unsorted'`. */
  function GroupKey(f: OrganizedFile): string {
    if f.analysis.Some? && f.analysis.value.suggestedPath != "" then f.analysis.value.suggestedPath else Unsorted
  }

  function InGroup(key: string): OrganizedFile -> bool {
    (f: OrganizedFile) => GroupKey(f) == key
  }

  /** The files of one group, in order. */
  function Group(fs: seq<OrganizedFile>, key: string): seq<OrganizedFile> {
    Filter(fs, InGroup(key))
  }

  /** A group holds exactly the files with its key. */
  lemma GroupMembers(fs: seq<OrganizedFile>, key: string)
    ensures forall f :: f in Group(fs, key) <==> f in fs && GroupKey(f) == key
  {
    FilterSpec(fs, InGroup(key));
  }

  /** `groupedFiles`: one group per key met, each holding its files in order. */
  method GroupedFiles(fs: seq<OrganizedFile>) returns (groups: map<string, seq<OrganizedFile>>)
    ensures groups.Keys == set i | 0 <= i < |fs| :: GroupKey(fs[i])
    ensures forall key :: key in groups ==> groups[key] == Group(fs, key) && groups[key] != []
  {
    groups := map[];
    var i := 0;
    while i < |fs|
      invariant i <= |fs|
      invariant groups.Keys == set k | 0 <= k < i :: GroupKey(fs[k])
      invariant forall key :: key in groups ==> groups[key] == Group(fs[..i], key) && groups[key] != []
    {
      var f := fs[i];
      var key := GroupKey(f);
      ghost var before := groups;
      if key !in groups {
        groups := groups[key := []];
      }
      groups := groups[key := groups[key] + [f]];
      GroupsStep(fs, i, before, groups);
      i := i + 1;
    }
    assert fs[..i] == fs;
  }

  /** One more file keeps the grouping of the files met so far. */
  lemma GroupsStep(fs: seq<OrganizedFile>, i: nat, before: map<string, seq<OrganizedFile>>, after: map<string, seq<OrganizedFile>>)
    requires i < |fs|
    requires before.Keys == set k | 0 <= k < i :: GroupKey(fs[k])
    requires forall key :: key in before ==> before[key] == Group(fs[..i], key) && before[key] != []
    requires after.Keys == before.Keys + {GroupKey(fs[i])}
    requires after[GroupKey(fs[i])] == (if GroupKey(fs[i]) in before then before[GroupKey(fs[i])] else []) + [fs[i]]
    requires forall key :: key in before && key != GroupKey(fs[i]) ==> after[key] == before[key]
    ensures after.Keys == set k | 0 <= k < i + 1 :: GroupKey(fs[k])
    ensures forall key :: key in after ==> after[key] == Group(fs[..i + 1], key) && after[key] != []
  {
    var key := GroupKey(fs[i]);
    KeysStep(fs, i);
    forall k | k in after ensures after[k] == Group(fs[..i + 1], k) && after[k] != [] {
      GroupStep(fs, i, k);
      if k != key {
        assert k in before;
      } else if key !in before {
        GroupAbsent(fs, i, key);
      }
    }
  }

  lemma KeysStep(fs: seq<OrganizedFile>, i: nat)
    requires i < |fs|
    ensures (set k | 0 <= k < i + 1 :: GroupKey(fs[k])) == (set k | 0 <= k < i :: GroupKey(fs[k])) + {GroupKey(fs[i])}
  {
  }

  /** One more file adds itself to its own group and to no other. */
  lemma GroupStep(fs: seq<OrganizedFile>, i: nat, key: string)
    requires i < |fs|
    ensures Group(fs[..i + 1], key) == Group(fs[..i], key) + (if GroupKey(fs[i]) == key then [fs[i]] else [])
  {
    assert fs[..i + 1][..i] == fs[..i];
  }

  /** A key none of the first `i` files has has an empty group. */
  lemma GroupAbsent(fs: seq<OrganizedFile>, i: nat, key: string)
    requires i <= |fs| && key !in set k | 0 <= k < i :: GroupKey(fs[k])
    ensures Group(fs[..i], key) == []
  {
    FilterNone(fs[..i], InGroup(key));
  }
}
