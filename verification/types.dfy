/** The data model: the storage tree behind the File System Access handles,
    the record the walker produces for each file, the classification result
    and the organised file with its lifecycle status. */
module Types {

  datatype Option<+T> = None | Some(value: T)

  datatype Result<+T, +E> = Ok(value: T) | Err(error: E)

  /** A location below the picked root directory, one entry name per level. */
  type Path = seq<string>

  /** What a `File` object reports: its bytes, its MIME type (possibly empty)
      and its last-modified time in milliseconds. */
  datatype FileData = FileData(contents: seq<bv8>, mime: string, lastModified: int) {
    function Size(): nat { |contents| }
  }

  /** The storage substrate: a directory is a sequence of named entries in
      the order its handle enumerates them. */
  datatype Node = File(data: FileData) | Dir(entries: seq<Entry>)

  datatype Entry = Entry(name: string, node: Node)

  /** `FileSystemHandle.kind`. */
  datatype HandleKind = FileKind | DirectoryKind

  function Kind(n: Node): (k: HandleKind)
    ensures k == FileKind <==> n.File?
    ensures k == DirectoryKind <==> n.Dir?
  {
    match n
    case File(_) => FileKind
    case Dir(_) => DirectoryKind
  }

  /** The `mode` of a permission descriptor. */
  datatype Mode = Read | ReadWrite

  /** `PermissionState` as the browser reports it. */
  datatype PermissionState = Granted | Denied | Prompt

  /** A file handle: where the file is and whether this browser offers the
      experimental `move` on it. */
  datatype FileHandle = FileHandle(location: Path, canMove: bool)

  datatype FileRecord = FileRecord(
    id: nat,
    name: string,
    size: nat,
    mime: string,
    handle: FileHandle,
    path: string,
    lastModified: int)

  datatype AIAnalysisResult = AIAnalysisResult(
    originalName: string,
    suggestedCategory: string,
    suggestedPath: string,
    isSensitive: bool,
    tags: seq<string>,
    reasoning: string)

  datatype Status = Pending | Analyzing | Ready | Moving | Done | Error

  /** A `FileRecord` plus an optional analysis plus a lifecycle status. */
  datatype OrganizedFile = OrganizedFile(record: FileRecord, analysis: Option<AIAnalysisResult>, status: Status) {
    function Id(): nat { record.id }
    function Name(): string { record.name }
  }

  /** Concatenation regroups freely; proofs name the regrouping they need. */
  lemma SeqAssoc<T>(a: seq<T>, b: seq<T>, c: seq<T>)
    ensures (a + b) + c == a + (b + c)
  {
  }
}
