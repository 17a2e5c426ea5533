/** The dashboard: the component state and the handlers that drive a
    session, from picking a folder through classification to the execute
    pass and the rescan that follows it. The browser's answers (the picked
    folder, the confirmation, the permission prompts), the remote classifier
    and the current day are parameters. */
module Dashboard {
  import opened Types
  import opened Storage
  import opened FileSystem
  import opened Records
  import opened ApiKeyStore
  import Gemini

  // ---------------------------------------------------------------------
  // The moves of the execute pass, as a function of the tree

  /** The tree left by the pass, whether each move went through, and the
      primitives invoked. */
  datatype Pass = Pass(root: Node, moved: seq<bool>, calls: seq<Call>)

  /** The suggested folder of a ready file. */
  function Target(f: OrganizedFile): string
    requires f.analysis.Some?
  {
    f.analysis.value.suggestedPath
  }

  /** The ready files moved one after the other, each on the tree the
      previous move left; a move that fails does not stop the next, so
      there is one outcome per ready file. */
  function RelocateAll(env: Env, root: Node, ready: seq<OrganizedFile>): (p: Pass)
    requires forall i :: 0 <= i < |ready| ==> ready[i].analysis.Some?
    ensures |p.moved| == |ready|
    decreases |ready|
  {
    if ready == [] then Pass(root, [], [])
    else
      var o := Relocate(env, root, ready[0].record, Target(ready[0]));
      var rest := RelocateAll(env, o.root, ready[1..]);
      Pass(rest.root, [o.result.Ok?] + rest.moved, o.calls + rest.calls)
  }

  /** The pass from file `i` on: file `i`'s move, then the pass from `i + 1`
      on the tree it left. */
  lemma RelocateAllFrom(env: Env, root: Node, ready: seq<OrganizedFile>, i: nat)
    requires forall j :: 0 <= j < |ready| ==> ready[j].analysis.Some?
    requires i < |ready|
    ensures var o := Relocate(env, root, ready[i].record, Target(ready[i]));
      var rest := RelocateAll(env, o.root, ready[i + 1..]);
      RelocateAll(env, root, ready[i..]) == Pass(rest.root, [o.result.Ok?] + rest.moved, o.calls + rest.calls)
  {
    assert ready[i..][0] == ready[i];
    assert ready[i..][1..] == ready[i + 1..];
  }

  /** One more ready file adds its two updates. */
  lemma UpdatesSnoc(ready: seq<OrganizedFile>, moved: seq<bool>, i: nat, ok: bool)
    requires i < |ready| && |moved| == i
    ensures Updates(ready[..i + 1], moved + [ok])
      == Updates(ready[..i], moved) + [Update(ready[i].Id(), Moving), Update(ready[i].Id(), Outcome(ok))]
  {
    assert ready[..i + 1][..i] == ready[..i];
    assert (moved + [ok])[..i] == moved;
  }

  /** One move of the pass keeps the loop's account of the whole pass. */
  lemma PassStep(env: Env, root: Node, ready: seq<OrganizedFile>, i: nat, moved: seq<bool>, log: seq<Call>,
                 allMoved: seq<bool>, last: Node, allCalls: seq<Call>, ok: bool, root': Node, log': seq<Call>)
    requires forall j :: 0 <= j < |ready| ==> ready[j].analysis.Some?
    requires i < |ready|
    requires moved + RelocateAll(env, root, ready[i..]).moved == allMoved
    requires RelocateAll(env, root, ready[i..]).root == last
    requires log + RelocateAll(env, root, ready[i..]).calls == allCalls
    requires var o := Relocate(env, root, ready[i].record, Target(ready[i]));
      ok == o.result.Ok? && root' == o.root && log' == log + o.calls
    ensures (moved + [ok]) + RelocateAll(env, root', ready[i + 1..]).moved == allMoved
    ensures RelocateAll(env, root', ready[i + 1..]).root == last
    ensures log' + RelocateAll(env, root', ready[i + 1..]).calls == allCalls
  {
    RelocateAllFrom(env, root, ready, i);
    var rest := RelocateAll(env, root', ready[i + 1..]);
    SeqAssoc(moved, [ok], rest.moved);
    SeqAssoc(log, Relocate(env, root, ready[i].record, Target(ready[i])).calls, rest.calls);
  }

  /** One file's two updates keep the loop's account of the statuses. */
  lemma StatusStep(start: seq<OrganizedFile>, ready: seq<OrganizedFile>, i: nat, moved: seq<bool>, updates: seq<Update>, ok: bool)
    requires i < |ready| && |moved| == i && updates == Updates(ready[..i], moved)
    ensures var id := ready[i].Id();
      var updates' := updates + [Update(id, Moving), Update(id, Outcome(ok))];
      && updates' == Updates(ready[..i + 1], moved + [ok])
      && Apply(start, updates') == Mark(Mark(Apply(start, updates), id, Moving), id, Outcome(ok))
  {
    UpdatesSnoc(ready, moved, i, ok);
    ApplyTwo(start, updates, ready[i].Id(), Outcome(ok));
  }

  /** The loop of `handleExecute`: each ready file in turn is marked
      moving, moved, and marked done or error. The status updates are the
      functional `setFiles` updates, applied in the order they are queued. */
  method ExecutePass(vol: Volume, start: seq<OrganizedFile>, ready: seq<OrganizedFile>)
    returns (files: seq<OrganizedFile>, updates: seq<Update>, moved: seq<bool>)
    requires vol.Valid() && forall i :: 0 <= i < |ready| ==> ready[i].analysis.Some?
    modifies vol
    ensures vol.Valid()
    ensures var pass := RelocateAll(vol.env, old(vol.root), ready);
      moved == pass.moved && vol.root == pass.root && vol.log == old(vol.log) + pass.calls
    ensures updates == Updates(ready, moved)
    ensures files == Apply(start, updates)
  {
    ghost var log0 := vol.log;
    ghost var whole := RelocateAll(vol.env, vol.root, ready);
    files, updates, moved := start, [], [];
    var i := 0;
    while i < |ready|
      invariant i <= |ready| && |moved| == i && vol.Valid()
      invariant moved + RelocateAll(vol.env, vol.root, ready[i..]).moved == whole.moved
      invariant RelocateAll(vol.env, vol.root, ready[i..]).root == whole.root
      invariant vol.log + RelocateAll(vol.env, vol.root, ready[i..]).calls == log0 + whole.calls
      invariant updates == Updates(ready[..i], moved)
      invariant files == Apply(start, updates)
    {
      var file := ready[i];
      ghost var root := vol.root;
      ghost var log := vol.log;
      files := Mark(files, file.Id(), Moving);
      var r := MoveFile(file.record, Target(file), vol);
      files := Mark(files, file.Id(), Outcome(r.Ok?));
      PassStep(vol.env, root, ready, i, moved, log, whole.moved, whole.root, log0 + whole.calls, r.Ok?, vol.root, vol.log);
      StatusStep(start, ready, i, moved, updates, r.Ok?);
      updates := updates + [Update(file.Id(), Moving), Update(file.Id(), Outcome(r.Ok?))];
      moved := moved + [r.Ok?];
      i := i + 1;
    }
    assert ready[..i] == ready;
  }

  // ---------------------------------------------------------------------
  // The component

  class Dashboard {
    var rootHandle: Volume?
    var files: seq<OrganizedFile>
    var isScanning: bool
    var isAnalyzing: bool
    var isMoving: bool
    var filter: string
    var apiKey: Option<string>
    var showApiKeyModal: bool
    /** The first id the next scan hands out, so that ids stay fresh. */
    var nextId: nat
    const store: KeyStore

    /** The picked folder is a well-formed tree, and a ready file has its
        analysis. */
    ghost predicate Valid()
      reads this, rootHandle
    {
      && (rootHandle != null ==> rootHandle.Valid())
      && ReadyAnalysed(files)
    }

    constructor (store: KeyStore)
      ensures Valid() && this.store == store
      ensures rootHandle == null && files == [] && apiKey == None
      ensures !isScanning && !isAnalyzing && !isMoving && !showApiKeyModal && filter == "" && nextId == 0
    {
      this.store := store;
      rootHandle := null;
      files := [];
      isScanning, isAnalyzing, isMoving := false, false, false;
      filter := "";
      apiKey := None;
      showApiKeyModal := false;
      nextId := 0;
    }

    /** The mount effect: a key stored today and not empty is taken and the
        key form stays closed; otherwise there is no key and the form opens.
        Nothing else changes. */
    method Mount(today: Date)
      requires Valid()
      modifies this, store
      ensures Valid()
      ensures var k := ValidKey(old(store.items), today);
        if k.Some? && k.value != "" then apiKey == k && !showApiKeyModal
        else apiKey == None && showApiKeyModal
      ensures store.items == AfterCheck(old(store.items), today)
      ensures files == old(files) && rootHandle == old(rootHandle) && nextId == old(nextId) && filter == old(filter)
      ensures isScanning == old(isScanning) && isAnalyzing == old(isAnalyzing) && isMoving == old(isMoving)
    {
      var stored := store.GetValidApiKey(today);
      if stored.Some? && stored.value != "" {
        apiKey := stored;
        showApiKeyModal := false;
      } else {
        apiKey := None;
        showApiKeyModal := true;
      }
    }

    /** `handleApiKeySave`: the key is stored with today's date, used, and
        the form closes. Nothing else changes. */
    method HandleApiKeySave(key: string, today: Date)
      requires Valid()
      modifies this, store
      ensures Valid()
      ensures store.items == AfterSave(old(store.items), key, today)
      ensures apiKey == Some(key) && !showApiKeyModal
      ensures files == old(files) && rootHandle == old(rootHandle) && nextId == old(nextId) && filter == old(filter)
      ensures isScanning == old(isScanning) && isAnalyzing == old(isAnalyzing) && isMoving == old(isMoving)
    {
      store.SaveApiKey(key, today);
      apiKey := Some(key);
      showApiKeyModal := false;
    }

    /** `handleSelectFolder`. A null `picked` is a cancelled picker: nothing
        but the scanning flag changes. Otherwise the folder becomes the root
        and, if the walk succeeds, its files replace the collection, all
        pending and without analysis, and the id counter moves past their
        ids; a failed walk leaves the collection and the counter. The key,
        its form, the other flags and the filter stay. */
    method HandleSelectFolder(picked: Volume?)
      requires Valid() && (picked != null ==> picked.Valid())
      modifies this
      ensures Valid() && !isScanning
      ensures picked == null ==> rootHandle == old(rootHandle) && files == old(files) && nextId == old(nextId)
      ensures picked != null ==> rootHandle == picked
      ensures picked != null && Scannable(picked.env, picked.root, []) ==>
        && files == Fresh(Flatten(picked.env, picked.root, [], "", old(nextId)))
        && nextId == old(nextId) + |Flatten(picked.env, picked.root, [], "", old(nextId))|
      ensures picked != null && !Scannable(picked.env, picked.root, []) ==> files == old(files) && nextId == old(nextId)
      ensures apiKey == old(apiKey) && showApiKeyModal == old(showApiKeyModal) && filter == old(filter)
      ensures isAnalyzing == old(isAnalyzing) && isMoving == old(isMoving)
    {
      if picked == null {
        isScanning := false;
        return;
      }
      rootHandle := picked;
      isScanning := true;
      var records := ScanDirectory(picked, [], "", nextId);
      if records.Ok? {
        ScannedReadyAnalysed(records.value, []);
        files := Fresh(records.value);
        nextId := nextId + |records.value|;
      }
      isScanning := false;
    }

    /** `handleAnalyze`. Nothing happens for an empty collection; without a
        key only the key form opens and nothing is sent. Otherwise the names
        of the files without analysis, in order, are what is sent, and the
        answer is merged into the collection by name, and the analysing flag
        is clear again. The root, the key, the other flags, the filter and
        the id counter stay. */
    method HandleAnalyze(model: Gemini.Classifier) returns (sent: Option<seq<string>>)
      requires Valid()
      modifies this
      ensures Valid()
      ensures old(files) == [] ==> sent == None && files == old(files) && showApiKeyModal == old(showApiKeyModal)
      ensures old(files) != [] && (old(apiKey).None? || old(apiKey).value == "") ==>
        sent == None && files == old(files) && showApiKeyModal
      ensures old(files) != [] && old(apiKey).Some? && old(apiKey).value != "" ==>
        && sent == Some(PendingNames(old(files)))
        && files == Merge(old(files), Gemini.AnalyzeFiles(model, PendingNames(old(files)), old(apiKey).value).value)
        && showApiKeyModal == old(showApiKeyModal)
        && !isAnalyzing
      ensures old(files) == [] || old(apiKey).None? || old(apiKey).value == "" ==> isAnalyzing == old(isAnalyzing)
      ensures rootHandle == old(rootHandle) && apiKey == old(apiKey)
      ensures isScanning == old(isScanning) && isMoving == old(isMoving) && filter == old(filter) && nextId == old(nextId)
    {
      if |files| == 0 {
        return None;
      }
      if apiKey.None? || apiKey.value == "" {
        showApiKeyModal := true;
        return None;
      }
      isAnalyzing := true;
      var names := PendingNames(files);
      var results := Gemini.AnalyzeFiles(model, names, apiKey.value);
      if results.Ok? {
        MergeReadyAnalysed(files, results.value);
        files := Merge(files, results.value);
      }
      isAnalyzing := false;
      sent := Some(names);
    }

    /** `handleExecute`. Without a root, without confirmation or without
        write permission no record changes and nothing is moved; otherwise
        the pass runs. The key, its form, the analysing flag and the filter
        stay either way. */
    method HandleExecute(confirmed: bool, answers: PermissionAnswers) returns (updates: seq<Update>, moved: seq<bool>)
      requires Valid()
      modifies this, rootHandle
      ensures Valid() && rootHandle == old(rootHandle)
      ensures apiKey == old(apiKey) && showApiKeyModal == old(showApiKeyModal)
      ensures isAnalyzing == old(isAnalyzing) && filter == old(filter)
      ensures old(rootHandle) == null || !confirmed || !VerifyPermission(answers, true).granted ==>
        && files == old(files) && updates == [] && moved == []
        && isScanning == old(isScanning) && isMoving == old(isMoving) && nextId == old(nextId)
        && (rootHandle != null ==> rootHandle.root == old(rootHandle.root) && rootHandle.log == old(rootHandle.log))
      ensures old(rootHandle) != null && confirmed && VerifyPermission(answers, true).granted ==>
        Executed(old(files), old(rootHandle.root), old(rootHandle.log), old(nextId), updates, moved)
    {
      updates, moved := [], [];
      if rootHandle == null || !confirmed {
        return;
      }
      var permission := VerifyPermission(answers, true);
      if permission.granted {
        updates, moved := RunPass();
      }
    }

    /** What the pass leaves when it runs from `files`, the tree `root` and
        the id counter `nextId`: the files ready at the start moved in order,
        whatever the outcome of each, and the folder walked again. The new
        records are pending and take their analysis by name from the
        collection as it was at the start, and the id counter moves past
        their ids. If that walk fails, the collection keeps the statuses of
        the pass, the scanning flag stays set and the counter stays. */
    ghost predicate Executed(files0: seq<OrganizedFile>, root0: Node, log0: seq<Call>, nextId0: nat,
                             updates: seq<Update>, moved: seq<bool>)
      reads this, rootHandle
      requires rootHandle != null
    {
      var ready := ReadyFiles(files0);
      var pass := RelocateAll(rootHandle.env, root0, ready);
      && moved == pass.moved && updates == Updates(ready, moved)
      && rootHandle.root == pass.root && rootHandle.log == log0 + pass.calls
      && rootHandle.Valid() && !isMoving
      && (Scannable(rootHandle.env, pass.root, []) ==>
            && files == Rescanned(Flatten(rootHandle.env, pass.root, [], "", nextId0), files0) && !isScanning
            && nextId == nextId0 + |Flatten(rootHandle.env, pass.root, [], "", nextId0)|)
      && (!Scannable(rootHandle.env, pass.root, []) ==> files == Apply(files0, updates) && isScanning && nextId == nextId0)
    }

    /** The part of the state the execute pass leaves alone: the key, its
        form, the analysing flag and the filter. */
    function PassFree(): (Option<string>, bool, bool, string)
      reads this
    {
      (apiKey, showApiKeyModal, isAnalyzing, filter)
    }

    /** The confirmed and permitted part of `handleExecute`: the pass, then
        the rescan. */
    method RunPass() returns (updates: seq<Update>, moved: seq<bool>)
      requires Valid() && rootHandle != null
      modifies this, rootHandle
      ensures Valid() && rootHandle == old(rootHandle)
      ensures Executed(old(files), old(rootHandle.root), old(rootHandle.log), old(nextId), updates, moved)
      ensures PassFree() == old(PassFree())
    {
      var snapshot := files;
      updates, moved := MoveReady(snapshot);
      Rescan(snapshot);
    }

    /** The ready files of `snapshot` moved in order, the collection marked
        as each move starts and ends. */
    method MoveReady(snapshot: seq<OrganizedFile>) returns (updates: seq<Update>, moved: seq<bool>)
      requires Valid() && rootHandle != null && ReadyAnalysed(snapshot)
      modifies this, rootHandle
      ensures Valid() && rootHandle == old(rootHandle)
      ensures var pass := RelocateAll(rootHandle.env, old(rootHandle.root), ReadyFiles(snapshot));
        moved == pass.moved && rootHandle.root == pass.root && rootHandle.log == old(rootHandle.log) + pass.calls
      ensures updates == Updates(ReadyFiles(snapshot), moved) && files == Apply(snapshot, updates)
      ensures !isMoving && isScanning == old(isScanning) && nextId == old(nextId)
      ensures PassFree() == old(PassFree())
    {
      isMoving := true;
      var marked;
      marked, updates, moved := ExecutePass(rootHandle, snapshot, ReadyFiles(snapshot));
      UpdatesNeverReady(ReadyFiles(snapshot), moved);
      ApplyReadyAnalysed(snapshot, updates);
      files := marked;
      isMoving := false;
    }

    /** The walk after the pass: its records replace the collection, each
        with the analysis of the first file of its name in `snapshot`; if
        the walk fails the collection stays and the scanning flag stays set. */
    method Rescan(snapshot: seq<OrganizedFile>)
      requires Valid() && rootHandle != null
      modifies this
      ensures Valid() && rootHandle == old(rootHandle)
      ensures var env, root := rootHandle.env, rootHandle.root;
        && (Scannable(env, root, []) ==>
              && files == Rescanned(Flatten(env, root, [], "", old(nextId)), snapshot) && !isScanning
              && nextId == old(nextId) + |Flatten(env, root, [], "", old(nextId))|)
        && (!Scannable(env, root, []) ==> files == old(files) && isScanning && nextId == old(nextId))
      ensures isMoving == old(isMoving) && PassFree() == old(PassFree())
    {
      isScanning := true;
      assert Get(rootHandle.root, []) == Some(rootHandle.root);
      var records := ScanDirectory(rootHandle, [], "", nextId);
      if records.Ok? {
        ScannedReadyAnalysed(records.value, snapshot);
        files := Rescanned(records.value, snapshot);
        nextId := nextId + |records.value|;
        isScanning := false;
      }
    }
  }
}
