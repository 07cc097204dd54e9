/** The records that flow through the audit pipeline: the change kinds a
    FileSystemWatcher reports, the queued event (AuditQueue), the attribution
    result (AuditOutput), exceptions with their inner-exception chain, the
    diagnostic log and the settings the auditor reads. */
module Models {
  import opened Strings

  /** The WatcherChangeTypes values a FileSystemWatcher delivers. */
  datatype ChangeKind = Created | Deleted | Changed | Renamed {
    /** Enum.ToString(). */
    function Name(): string {
      match this
      case Created => "Created"
      case Deleted => "Deleted"
      case Changed => "Changed"
      case Renamed => "Renamed"
    }
  }

  /** A DateTime: its calendar date and the text DateTime.ToString() renders for it
      (culture-dependent, so carried as given). */
  datatype DateTime = DateTime(year: int, month: int, day: int, rendered: string) {
    predicate Valid() {
      1 <= year <= 9999 && 1 <= month <= 12 && 1 <= day <= 31
    }
  }

  /** default(DateTime), i.e. DateTime.MinValue. */
  const MinDateTime: DateTime := DateTime(1, 1, 1, "01/01/0001 00:00:00")

  /** A raw change notification: FileSystemEventArgs, or RenamedEventArgs whose
      FullPath is the new path. */
  datatype FileSystemEvent = FileSystemEvent(changeType: ChangeKind, fullPath: string)

  /** An exception and its InnerException chain; NoException stands for null. */
  datatype Exception =
    | NoException
    | Exception(message: string, stackTrace: string, inner: Exception)

  /** An exception that was thrown: never null. */
  type Raised = e: Exception | e.Exception? witness Exception("", "", NoException)

  /** An exception raised by the audit code itself with the given message; its
      runtime stack trace is rendered as empty text. */
  function Raise(message: string): (e: Exception)
    ensures e.Exception? && e.message == message && e.inner == NoException
  {
    Exception(message, "", NoException)
  }

  /** One entry of the diagnostic logger. */
  datatype LogEntry = Information(text: string) | Error(text: string)

  /** The message DetailedExceptionHandler logs for one link of the chain. */
  function ErrorText(e: Exception): string
    requires e.Exception?
  {
    "Message: " + e.message + " \r\nStacktrace: " + e.stackTrace
  }

  /** Number of links in the chain (0 for null). */
  function Depth(ex: Exception): nat {
    if ex.NoException? then 0 else 1 + Depth(ex.inner)
  }

  /** The i-th link of the chain, the outermost being link 0. */
  function Link(ex: Exception, i: nat): (e: Exception)
    requires i < Depth(ex)
    ensures e.Exception?
  {
    if i == 0 then ex else Link(ex.inner, i - 1)
  }

  /** What DetailedExceptionHandler logs for ex: one error per link, outermost first. */
  function ChainLog(ex: Exception): seq<LogEntry> {
    if ex.NoException? then [] else [Error(ErrorText(ex))] + ChainLog(ex.inner)
  }

  /** The handler logs exactly one error per link of the chain, in chain order. */
  lemma {:induction false} ChainLogLinks(ex: Exception)
    ensures |ChainLog(ex)| == Depth(ex)
    ensures forall i :: 0 <= i < Depth(ex) ==> ChainLog(ex)[i] == Error(ErrorText(Link(ex, i)))
  {
    if ex.Exception? {
      ChainLogLinks(ex.inner);
      forall i | 0 < i < Depth(ex)
        ensures ChainLog(ex)[i] == Error(ErrorText(Link(ex, i)))
      {
        assert ChainLog(ex)[i] == ChainLog(ex.inner)[i - 1];
      }
    }
  }

  /** The diagnostic logger AbstractAudit writes to (ILogger): the entries so far. */
  class Logger {
    var entries: seq<LogEntry>

    constructor ()
      ensures entries == []
    {
      entries := [];
    }

    method LogInformation(text: string)
      modifies this
      ensures entries == old(entries) + [Information(text)]
    {
      entries := entries + [Information(text)];
    }

    method LogError(text: string)
      modifies this
      ensures entries == old(entries) + [Error(text)]
    {
      entries := entries + [Error(text)];
    }
  }

  /** A queued change event (AuditQueue); never changed once built. */
  datatype AuditQueue = AuditQueue(
    timeStamp: DateTime,
    fileName: string,
    directory: string,
    fullFilePath: string,
    accessType: ChangeKind)

  /** The settings as AbstractAudit reads them. A null string is "", as the string
      tests and interpolations of the core read it; a list of input directories
      missing from the configuration is None. */
  datatype Settings = Settings(
    auditOutputDirectory: string,
    auditInputDirectories: Option<seq<string>>,
    handleExecutablePath: string,
    filter: string,
    internalBufferSize: int,
    includeSubdirectories: bool)

  /** The value an AuditOutput object holds at one moment. */
  datatype Record = Record(timestamp: DateTime, user: string, processId: int, accessType: string)

  /** ProcessID value meaning "no process resolved". */
  const UnresolvedProcessId: int := -1

  /** What a freshly constructed AuditOutput holds; null strings read as "". */
  const DefaultRecord: Record := Record(MinDateTime, "", UnresolvedProcessId, "")

  /** AuditOutput: a mutable attribution record. The resolvers fill its fields in
      place, and one object may be listed several times. */
  class AuditOutput {
    var timestamp: DateTime
    var user: string
    var processId: int
    var accessType: string

    constructor ()
      ensures Value() == DefaultRecord
      ensures processId == UnresolvedProcessId
    {
      timestamp := MinDateTime;
      user := "";
      processId := UnresolvedProcessId;
      accessType := "";
    }

    function Value(): Record
      reads this
    {
      Record(timestamp, user, processId, accessType)
    }

    method Set(r: Record)
      modifies this
      ensures Value() == r
    {
      timestamp, user, processId, accessType := r.timestamp, r.user, r.processId, r.accessType;
    }
  }

  /** The values the listed objects hold now, in list order. */
  function Snapshot(list: seq<AuditOutput>): (r: seq<Record>)
    reads list
    ensures |r| == |list|
  {
    if list == [] then [] else Snapshot(list[..|list| - 1]) + [list[|list| - 1].Value()]
  }

  /** Entry i of the snapshot is what the i-th listed object holds. */
  lemma {:induction false} SnapshotAt(list: seq<AuditOutput>, i: nat)
    requires i < |list|
    ensures Snapshot(list)[i] == list[i].Value()
  {
    if i < |list| - 1 {
      SnapshotAt(list[..|list| - 1], i);
    }
  }

  /** n copies of r. */
  function Repeat(r: Record, n: nat): (s: seq<Record>)
    ensures |s| == n && forall i :: 0 <= i < n ==> s[i] == r
  {
    if n == 0 then [] else Repeat(r, n - 1) + [r]
  }

  /** A second update of the same key overrides the first. */
  lemma UpdateTwice<K, V>(m: map<K, V>, k: K, a: V, b: V)
    ensures m[k := a][k := b] == m[k := b]
  {
  }

  /** The text of the file at path; a file that does not exist reads as empty. */
  function Content(files: map<string, string>, path: string): string {
    if path in files then files[path] else ""
  }

  /** The files the auditor writes, by full path (File.Exists, File.Create,
      File.AppendAllText). */
  class FileStore {
    var files: map<string, string>

    constructor (files: map<string, string>)
      ensures this.files == files
    {
      this.files := files;
    }

    /** File.Create(path).Close(): an empty file. */
    method Create(path: string)
      modifies this
      ensures files == old(files)[path := ""]
    {
      files := files[path := ""];
    }

    /** File.AppendAllText(path, text). */
    method AppendAllText(path: string, text: string)
      modifies this
      ensures files == old(files)[path := Content(old(files), path) + text]
    {
      files := files[path := Content(files, path) + text];
    }
  }
}
