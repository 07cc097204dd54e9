/** AbstractAudit (FileAuditService.Core/AbstractAudit.cs), the core of the service:
    Start wires one CustomWatcher per monitored directory to the two change callbacks
    and the error callback, the callbacks queue the changes worth auditing, and each
    step of the queue handler attributes the change at the front of the queue to a
    process (the Win32_Process query first, handle.exe only when that finds nothing)
    and appends one line per attributed process to the day's audit file.

    The operating system is reached through parameters: whether a file exists, the
    clock, what the Win32_Process query and handle.exe return, and what creating a
    directory or watching one throws. */
module Audit {
  import opened Strings
  import opened Paths
  import opened Models
  import opened HandleOutput
  import opened Attribution
  import opened Watching

  // ---------------------------------------------------------------------
  // Start

  /** The NotifyFilters flags the watchers are given. */
  const FileNameFlag: bv32 := 1
  const DirectoryNameFlag: bv32 := 2
  const AttributesFlag: bv32 := 4
  const SizeFlag: bv32 := 8
  const LastWriteFlag: bv32 := 16
  const LastAccessFlag: bv32 := 32
  const CreationTimeFlag: bv32 := 64
  const SecurityFlag: bv32 := 256

  /** Every NotifyFilters flag but none: the value 383. */
  const AuditNotifyFilters: int :=
    (AttributesFlag | CreationTimeFlag | DirectoryNameFlag | FileNameFlag
     | LastAccessFlag | LastWriteFlag | SecurityFlag | SizeFlag) as int

  const EmptyOutputDirectoryMessage: string := "AuditDirectoryOutput is null or empty."

  /** Boolean.ToString(). */
  function BoolText(b: bool): string {
    if b then "True" else "False"
  }

  /** The three settings Start logs first. */
  function SettingsLog(s: Settings): seq<LogEntry> {
    [Information("InternalBufferSize: " + IntToString(s.internalBufferSize)),
     Information("Filter: " + s.filter),
     Information("IncludeSubdirectories: " + BoolText(s.includeSubdirectories))]
  }

  /** What starting the watcher for dir meets, given the directories whose watchers
      fail to start. */
  function WatchFailure(failures: map<string, StartCheck>, dir: string): StartCheck {
    if dir in failures then failures[dir] else Accepted
  }

  /** The index of the first directory whose watcher fails to start, or |dirs|. */
  function FirstRejected(dirs: seq<string>, failures: map<string, StartCheck>): (k: nat)
    ensures k <= |dirs|
    ensures forall j :: 0 <= j < k ==> WatchFailure(failures, dirs[j]).Accepted?
    ensures k < |dirs| ==> !WatchFailure(failures, dirs[k]).Accepted?
  {
    if dirs == [] || !WatchFailure(failures, dirs[0]).Accepted? then 0 else 1 + FirstRejected(dirs[1..], failures)
  }

  /** The input directories Start walks; none when the list is missing. */
  function InputDirectories(s: Settings): seq<string> {
    if s.auditInputDirectories.Some? then s.auditInputDirectories.value else []
  }

  /** How many watchers Start adds: none when the output directory is missing or
      cannot be created or the list of input directories is missing, otherwise one per directory up to and including the first
      whose watcher fails to start. */
  function WatchersAdded(s: Settings, outputFailure: Exception, failures: map<string, StartCheck>): (n: nat)
    ensures n <= |InputDirectories(s)|
  {
    if s.auditOutputDirectory == [] || outputFailure.Exception? || s.auditInputDirectories.None? then 0
    else
      var k := FirstRejected(s.auditInputDirectories.value, failures);
      if k < |s.auditInputDirectories.value| then k + 1 else k
  }

  /** Whether Start gets through: an output directory is set and created, the list of
      input directories is present, and every watcher starts. */
  predicate StartSucceeds(s: Settings, outputFailure: Exception, failures: map<string, StartCheck>) {
    && s.auditOutputDirectory != []
    && outputFailure.NoException?
    && s.auditInputDirectories.Some?
    && FirstRejected(s.auditInputDirectories.value, failures) == |s.auditInputDirectories.value|
  }

  /** The "Monitor Path" entries for the directories. */
  function MonitorLog(dirs: seq<string>, n: nat): (log: seq<LogEntry>)
    requires n <= |dirs|
    ensures |log| == n
  {
    if n == 0 then [] else MonitorLog(dirs, n - 1) + [Information("Monitor Path: " + dirs[n - 1])]
  }

  /** Entry i of the "Monitor Path" entries names directory i. */
  lemma {:induction false} MonitorLogEntries(dirs: seq<string>, n: nat)
    requires n <= |dirs|
    ensures forall i :: 0 <= i < n ==> MonitorLog(dirs, n)[i] == Information("Monitor Path: " + dirs[i])
  {
    if n > 0 {
      MonitorLogEntries(dirs, n - 1);
    }
  }

  /** The exception Start's try block meets first: a missing output directory, a
      failure to create it, a foreach over a missing list of input directories, or
      the first watcher that fails to start. */
  function TryThrown(s: Settings, outputFailure: Exception, failures: map<string, StartCheck>): Exception {
    if s.auditOutputDirectory == [] then Raise(EmptyOutputDirectoryMessage)
    else if outputFailure.Exception? then outputFailure
    else if s.auditInputDirectories.None? then Raise(NullReferenceMessage)
    else
      var dirs, k := s.auditInputDirectories.value, FirstRejected(s.auditInputDirectories.value, failures);
      if k < |dirs| then WatchFailure(failures, dirs[k]).error else NoException
  }

  /** The try block gets through exactly when Start succeeds. */
  lemma TryThrownSucceeds(s: Settings, outputFailure: Exception, failures: map<string, StartCheck>)
    ensures TryThrown(s, outputFailure, failures).NoException? <==> StartSucceeds(s, outputFailure, failures)
  {
  }

  /** What the try block logs after the settings: one entry per watcher it adds. */
  function TryLog(s: Settings, outputFailure: Exception, failures: map<string, StartCheck>): seq<LogEntry> {
    MonitorLog(InputDirectories(s), WatchersAdded(s, outputFailure, failures))
  }

  /** Everything Start logs: the settings, the try block's entries, and the chain of
      the exception it met, if any. */
  function StartLog(s: Settings, outputFailure: Exception, failures: map<string, StartCheck>): seq<LogEntry> {
    SettingsLog(s) + TryLog(s, outputFailure, failures) + ChainLog(TryThrown(s, outputFailure, failures))
  }

  /** Start's outcome for each kind of settings: with no output directory nothing is
      watched and the error is logged; with no list of input directories nothing is
      watched and the null reference is logged; when it succeeds there is one watcher
      per directory; when a watcher fails to start, the watchers before it and the
      failing one are kept, and the failure is logged. */
  lemma StartOutcome(s: Settings, outputFailure: Exception, failures: map<string, StartCheck>)
    ensures s.auditOutputDirectory == [] ==>
              && WatchersAdded(s, outputFailure, failures) == 0
              && !StartSucceeds(s, outputFailure, failures)
              && StartLog(s, outputFailure, failures)
                 == SettingsLog(s) + [Error("Message: " + EmptyOutputDirectoryMessage + " \r\nStacktrace: ")]
    ensures s.auditOutputDirectory != [] && outputFailure.NoException? && s.auditInputDirectories.None? ==>
              && WatchersAdded(s, outputFailure, failures) == 0
              && !StartSucceeds(s, outputFailure, failures)
              && StartLog(s, outputFailure, failures)
                 == SettingsLog(s) + [Error("Message: " + NullReferenceMessage + " \r\nStacktrace: ")]
    ensures StartSucceeds(s, outputFailure, failures) ==>
              var dirs := s.auditInputDirectories.value;
              && WatchersAdded(s, outputFailure, failures) == |dirs|
              && StartLog(s, outputFailure, failures) == SettingsLog(s) + MonitorLog(dirs, |dirs|)
    ensures s.auditOutputDirectory != [] && outputFailure.NoException? && s.auditInputDirectories.Some?
            && !StartSucceeds(s, outputFailure, failures) ==>
              var dirs := s.auditInputDirectories.value;
              var k := FirstRejected(dirs, failures);
              && WatchersAdded(s, outputFailure, failures) == k + 1
              && !WatchFailure(failures, dirs[k]).Accepted?
              && StartLog(s, outputFailure, failures)
                 == SettingsLog(s) + MonitorLog(dirs, k + 1)
                    + ChainLog(WatchFailure(failures, dirs[k]).error)
  {
    if s.auditOutputDirectory == [] {
      var e := Raise(EmptyOutputDirectoryMessage);
      var t := "Message: " + EmptyOutputDirectoryMessage + " \r\nStacktrace: ";
      assert t + "" == t;
      assert ErrorText(e) == t;
      assert ChainLog(e) == [Error(t)] + [];
    } else if outputFailure.NoException? && s.auditInputDirectories.None? {
      var e := Raise(NullReferenceMessage);
      var t := "Message: " + NullReferenceMessage + " \r\nStacktrace: ";
      assert t + "" == t;
      assert ErrorText(e) == t;
      assert ChainLog(e) == [Error(t)] + [];
    } else if outputFailure.NoException? {
      var dirs := s.auditInputDirectories.value;
      var k := FirstRejected(dirs, failures);
      assert TryLog(s, outputFailure, failures) == MonitorLog(dirs, if k < |dirs| then k + 1 else k);
      assert TryThrown(s, outputFailure, failures) == if k < |dirs| then WatchFailure(failures, dirs[k]).error else NoException;
    }
  }

  // ---------------------------------------------------------------------
  // Admission of change events

  /** The record queued for a change: the current time, the file name and directory
      split off the full path, the full path and the kind of change. */
  function QueueRecord(e: FileSystemEvent, now: DateTime): AuditQueue {
    AuditQueue(now, GetFileName(e.fullPath), GetDirectoryName(e.fullPath), e.fullPath, e.changeType)
  }

  /** A path both callbacks pass over: an Office lock file (its path holds "~$") or a
      file that no longer exists. */
  predicate Ignored(path: string, fileExists: bool) {
    Contains(path, "~$") || !fileExists
  }

  /** The queued record describes the change: the full path as reported, a file name
      holding no separator, and the directory and file name that, joined by the
      separator between them, give the full path back. */
  lemma QueueRecordSpec(e: FileSystemEvent, now: DateTime)
    ensures var r := QueueRecord(e, now);
            && r.fullFilePath == e.fullPath && r.accessType == e.changeType && r.timeStamp == now
            && (forall j :: 0 <= j < |r.fileName| ==> !IsSeparator(r.fileName[j]))
            && ((r.directory == [] && r.fileName == e.fullPath)
                || (|r.directory| < |e.fullPath| && IsSeparator(e.fullPath[|r.directory|])
                    && r.directory + [e.fullPath[|r.directory|]] + r.fileName == e.fullPath))
  {
    SplitPathRoundTrip(e.fullPath);
  }

  // ---------------------------------------------------------------------
  // One step of the queue handler

  /** The entries an event is attributed to. */
  function Resolved(s: Settings, q: AuditQueue, query: QueryResult, run: ToolRun): seq<Record> {
    Attributed(Win32Records(q, query.rows), HandleRecords(s.handleExecutablePath, q, run))
  }

  /** What the two resolvers log for an event; handle.exe runs only when the query
      found nothing. */
  function ResolveLog(s: Settings, q: AuditQueue, query: QueryResult, run: ToolRun): seq<LogEntry> {
    Win32Log(q, query)
      + if Win32Records(q, query.rows) == [] then HandleLog(s.handleExecutablePath, q, run) else []
  }

  /** The full path of the audit file for the day of now. */
  function AuditFilePath(s: Settings, now: DateTime): string
    requires now.Valid()
  {
    Combine(s.auditOutputDirectory, AuditFileName(now))
  }

  /** What Stop returned, or the exception it let escape. */
  datatype Outcome = Returned(value: bool) | Threw(error: Exception)

  /** The index of the first watcher whose Stop throws, or |ws|. */
  function FirstStopThrowing(ws: seq<CustomWatcher>): (k: nat)
    reads ws
    ensures k <= |ws|
    ensures forall j :: 0 <= j < k ==> !ws[j].StopThrows()
    ensures k < |ws| ==> ws[k].StopThrows()
  {
    if ws == [] || ws[0].StopThrows() then 0 else 1 + FirstStopThrowing(ws[1..])
  }

  /** A CustomWatcher as Start wires it for the directory dir. */
  predicate WiredFor(w: CustomWatcher, s: Settings, dir: string)
    reads w
  {
    && w.internalBufferSize == s.internalBufferSize && w.monitorDirectory == dir
    && w.filter == s.filter && w.notifyFilters == AuditNotifyFilters
    && w.includeSubdirectories == s.includeSubdirectories
    && w.queueAction == [QueueHandler] && w.renamedAction == [RenamedHandler]
    && w.errorAction == [ErrorHandler]
  }

  /** A watcher that Start wired and started delivers changes to the queue callback,
      renames to the rename callback and errors to the error callback; once stopped it
      still delivers renames, and only renames. */
  lemma WiredWatcherDelivery(w: CustomWatcher, s: Settings, dir: string)
    requires WiredFor(w, s, dir)
    ensures var started := w.Built();
            && started.path == dir && started.notifyFilter == 383
            && started.internalBufferSize == BufferSizeSet(s.internalBufferSize)
            && started.filter == FilterSet(s.filter)
            && started.includeSubdirectories == s.includeSubdirectories
            && (forall kind :: kind != Renamed ==> Deliver(started, kind) == [QueueHandler])
            && Deliver(started, Renamed) == [RenamedHandler] && DeliverError(started) == [ErrorHandler]
    ensures var stopped := AfterStop(Some(w.Built()), w.queueAction, w.errorAction).value;
            && (forall kind :: kind != Renamed ==> Deliver(stopped, kind) == [])
            && DeliverError(stopped) == []
            && Deliver(stopped, Renamed) == [RenamedHandler]
    ensures var deaf := w.Built().(enableRaisingEvents := false);
            && (forall kind :: Deliver(deaf, kind) == [])
            && DeliverError(deaf) == []
  {
    StartedSpec(w.internalBufferSize, w.monitorDirectory, w.filter, w.notifyFilters,
                w.includeSubdirectories, w.queueAction, w.renamedAction, w.errorAction);
    StopKeepsRenamed(w.internalBufferSize, w.monitorDirectory, w.filter, w.notifyFilters,
                     w.includeSubdirectories, w.queueAction, w.renamedAction, w.errorAction);
  }

  /** ws[n0..] are the watchers Start added for the first |ws| - n0 of dirs, in
      order: each is wired for its directory and holds what its Start stored, given
      what starting it met. */
  predicate AddedFor(ws: seq<CustomWatcher>, n0: nat, s: Settings, dirs: seq<string>,
                     failures: map<string, StartCheck>)
    reads ws
  {
    && n0 <= |ws| <= n0 + |dirs|
    && forall j :: n0 <= j < |ws| ==>
         && WiredFor(ws[j], s, dirs[j - n0])
         && ws[j].fileSystemWatcher == ws[j].StartedWith(WatchFailure(failures, dirs[j - n0]), None)
  }

  /** Appending the watcher for the next directory keeps the list described. */
  lemma AddedForAppend(ws: seq<CustomWatcher>, n0: nat, w: CustomWatcher, s: Settings, dirs: seq<string>,
                       failures: map<string, StartCheck>)
    requires n0 <= |ws| < n0 + |dirs|
    requires AddedFor(ws, n0, s, dirs, failures)
    requires WiredFor(w, s, dirs[|ws| - n0])
    requires w.fileSystemWatcher == w.StartedWith(WatchFailure(failures, dirs[|ws| - n0]), None)
    ensures AddedFor(ws + [w], n0, s, dirs, failures)
  {
  }

  /** Of the watchers Start added, Stop throws on exactly those whose Path setter
      rejected their directory: a watcher that failed only to begin listening is
      stored, and Stop takes its handlers off without throwing. */
  lemma AddedStopThrows(ws: seq<CustomWatcher>, n0: nat, s: Settings, dirs: seq<string>,
                        failures: map<string, StartCheck>)
    requires AddedFor(ws, n0, s, dirs, failures)
    ensures forall j :: n0 <= j < |ws| ==>
              (ws[j].StopThrows() <==> WatchFailure(failures, dirs[j - n0]).PathRejected?)
  {
  }

  /** One more entry adds its line, if it is written, to the text and the log. */
  lemma AuditStep(rs: seq<Record>, i: nat)
    requires i < |rs|
    ensures AuditText(rs[..i + 1])
            == AuditText(rs[..i]) + if rs[i].processId == UnresolvedProcessId then "" else AuditLine(rs[i]) + NewLine
    ensures AuditLog(rs[..i + 1])
            == AuditLog(rs[..i]) + if rs[i].processId == UnresolvedProcessId then [] else [Information(AuditLine(rs[i]))]
  {
    assert rs[..i + 1][..i] == rs[..i];
  }

  /** One step of the scan: the verdict on the next match decides the rest. */
  lemma ScanStep(q: AuditQueue, vs: seq<Verdict>, i: nat, count: nat, value: Record)
    requires i < |vs|
    ensures ScanVerdicts(q, vs[i..], count, value)
            == if vs[i].Skip? then ScanVerdicts(q, vs[i + 1..], count, value)
               else if vs[i].Reject? then Scan(count, value, Some(vs[i].pidText))
               else ScanVerdicts(q, vs[i + 1..], count + 1, TakenRecord(q, vs[i]))
  {
    assert vs[i..][1..] == vs[i + 1..];
  }

  /** One more process extends the entries and the log by its own. */
  lemma Win32Step(q: AuditQueue, rows: seq<ProcessRow>, i: nat)
    requires i < |rows|
    ensures Win32Records(q, rows[..i + 1])
            == Win32Records(q, rows[..i]) + if RowRecord(q, rows[i]).Some? then [RowRecord(q, rows[i]).value] else []
    ensures RowsLog(rows[..i + 1]) == RowsLog(rows[..i]) + RowLog(rows[i])
  {
    assert rows[..i + 1][..i] == rows[..i];
  }

  /** Listing one more object adds its value to the snapshot. */
  lemma SnapshotAppend(list: seq<AuditOutput>, o: AuditOutput)
    ensures Snapshot(list + [o]) == Snapshot(list) + [o.Value()]
  {
    assert (list + [o])[..|list|] == list;
  }

  /** HandleRecords and HandleLog for a tool that ran, read off its scan. */
  lemma HandleOutcome(toolPath: string, q: AuditQueue, text: string)
    requires toolPath != []
    ensures var scan := ScanOutput(q, text);
            && HandleRecords(toolPath, q, ToolOutput(text)) == Repeat(scan.value, scan.count)
            && HandleLog(toolPath, q, ToolOutput(text)) == ScanLog(q, scan)
  {
  }

  class AbstractAudit {
    const logger: Logger
    const settings: Settings
    /** The pending changes, front first (the ConcurrentQueue). */
    var auditQueue: seq<AuditQueue>
    var customWatchers: seq<CustomWatcher>
    var running: bool

    /** No watcher is listed twice. */
    ghost predicate Valid()
      reads this
    {
      forall i, j :: 0 <= i < j < |customWatchers| ==> customWatchers[i] != customWatchers[j]
    }

    constructor (logger: Logger, settings: Settings)
      ensures this.logger == logger && this.settings == settings
      ensures auditQueue == [] && customWatchers == [] && !running
      ensures Valid()
    {
      this.logger := logger;
      this.settings := settings;
      auditQueue := [];
      customWatchers := [];
      running := false;
    }

    /** Logs one error per link of the inner-exception chain, outermost first. */
    method DetailedExceptionHandler(ex: Exception)
      modifies logger
      ensures logger.entries == old(logger.entries) + ChainLog(ex)
    {
      var e := ex;
      while true
        invariant old(logger.entries) + ChainLog(ex) == logger.entries + ChainLog(e)
        decreases Depth(e)
      {
        if e.NoException? {
          return;
        }
        logger.LogError("Message: " + e.message + " \r\nStacktrace: " + e.stackTrace);
        e := e.inner;
      }
    }

    /** A watcher as Start builds it for dir, with the three callbacks attached and
        not yet started. */
    method NewWatcher(dir: string) returns (watcher: CustomWatcher)
      ensures fresh(watcher)
      ensures WiredFor(watcher, settings, dir) && watcher.fileSystemWatcher.None?
    {
      watcher := new CustomWatcher(settings.internalBufferSize, dir, settings.filter,
                                   AuditNotifyFilters, settings.includeSubdirectories);
      watcher.queueAction := watcher.queueAction + [QueueHandler];
      watcher.errorAction := watcher.errorAction + [ErrorHandler];
      watcher.renamedAction := watcher.renamedAction + [RenamedHandler];
    }

    /** The first three entries of Start. */
    method LogSettings()
      modifies logger
      ensures logger.entries == old(logger.entries) + SettingsLog(settings)
    {
      logger.LogInformation("InternalBufferSize: " + IntToString(settings.internalBufferSize));
      logger.LogInformation("Filter: " + settings.filter);
      logger.LogInformation("IncludeSubdirectories: " + BoolText(settings.includeSubdirectories));
    }

    /** One pass of Start's loop: logs the next directory, appends a new watcher
        wired for it and starts it, returning what starting it throws. */
    method WatchNext(n0: nat, dirs: seq<string>, failures: map<string, StartCheck>)
      returns (watcher: CustomWatcher, thrown: Exception)
      requires n0 <= |customWatchers| < n0 + |dirs|
      requires Valid() && AddedFor(customWatchers, n0, settings, dirs, failures)
      modifies this, logger
      ensures Valid()
      ensures fresh(watcher) && customWatchers == old(customWatchers) + [watcher]
      ensures running == old(running) && auditQueue == old(auditQueue)
      ensures var check := WatchFailure(failures, dirs[|old(customWatchers)| - n0]);
              thrown == if check.Accepted? then NoException else check.error
      ensures logger.entries == old(logger.entries) + [Information("Monitor Path: " + dirs[|old(customWatchers)| - n0])]
      ensures AddedFor(customWatchers, n0, settings, dirs, failures)
    {
      var dir := dirs[|customWatchers| - n0];
      logger.LogInformation("Monitor Path: " + dir);
      watcher := NewWatcher(dir);
      ghost var ws := customWatchers;
      customWatchers := customWatchers + [watcher];
      thrown := watcher.Start(WatchFailure(failures, dir));
      AddedForAppend(ws, n0, watcher, settings, dirs, failures);
    }

    /** The loop of Start over the input directories: logs each, appends its watcher
        and starts it, and stops at the first watcher that throws, returning what it
        threw (NoException when every watcher started). */
    method WatchAll(failures: map<string, StartCheck>) returns (thrown: Exception)
      requires Valid() && settings.auditInputDirectories.Some?
      modifies this, logger
      ensures Valid()
      ensures running == old(running) && auditQueue == old(auditQueue)
      ensures var dirs := settings.auditInputDirectories.value;
              var k := FirstRejected(dirs, failures);
              && thrown == (if k < |dirs| then WatchFailure(failures, dirs[k]).error else NoException)
              && logger.entries == old(logger.entries) + MonitorLog(dirs, if k < |dirs| then k + 1 else k)
              && |customWatchers| == |old(customWatchers)| + (if k < |dirs| then k + 1 else k)
              && old(customWatchers) <= customWatchers
              && (forall j :: |old(customWatchers)| <= j < |customWatchers| ==> fresh(customWatchers[j]))
              && AddedFor(customWatchers, |old(customWatchers)|, settings, dirs, failures)
    {
      var dirs := settings.auditInputDirectories.value;
      var n0 := |customWatchers|;
      var i := 0;
      while i < |dirs|
        invariant 0 <= i <= FirstRejected(dirs, failures)
        invariant Valid()
        invariant running == old(running) && auditQueue == old(auditQueue)
        invariant logger.entries == old(logger.entries) + MonitorLog(dirs, i)
        invariant |customWatchers| == n0 + i && old(customWatchers) <= customWatchers
        invariant forall j :: n0 <= j < |customWatchers| ==> fresh(customWatchers[j])
        invariant AddedFor(customWatchers, n0, settings, dirs, failures)
      {
        var dir := dirs[i];
        AppendAssoc(old(logger.entries), MonitorLog(dirs, i), [Information("Monitor Path: " + dir)]);
        var watcher, failure := WatchNext(n0, dirs, failures);
        if failure.Exception? {
          assert FirstRejected(dirs, failures) == i;
          return failure;
        }
        i := i + 1;
      }
      assert FirstRejected(dirs, failures) == |dirs|;
      thrown := NoException;
    }

    /** Logs the settings, then, unless the output directory is empty or cannot be
        created, adds and starts one watcher per input directory, appending to the
        watchers already listed. outputFailure is what creating the output directory
        throws, and failures maps each directory whose watcher cannot start to what
        starting it meets. Any exception is logged and ends
        Start, which then returns running unchanged; otherwise running becomes true. */
    method Start(outputFailure: Exception, failures: map<string, StartCheck>) returns (result: bool)
      requires Valid()
      modifies this, logger
      ensures Valid()
      ensures result == running
      ensures running == (StartSucceeds(settings, outputFailure, failures) || old(running))
      ensures logger.entries == old(logger.entries) + StartLog(settings, outputFailure, failures)
      ensures auditQueue == old(auditQueue)
      ensures var n0 := |old(customWatchers)|;
              && |customWatchers| == n0 + WatchersAdded(settings, outputFailure, failures)
              && old(customWatchers) <= customWatchers
              && (forall j :: n0 <= j < |customWatchers| ==> fresh(customWatchers[j]))
              && AddedFor(customWatchers, n0, settings, InputDirectories(settings), failures)
    {
      LogSettings();
      var thrown := TryBlock(outputFailure, failures);
      if thrown.Exception? {
        // The catch block.
        DetailedExceptionHandler(thrown);
      }
      AppendAssoc(old(logger.entries), SettingsLog(settings), TryLog(settings, outputFailure, failures));
      AppendAssoc(old(logger.entries), SettingsLog(settings) + TryLog(settings, outputFailure, failures), ChainLog(thrown));
      TryThrownSucceeds(settings, outputFailure, failures);
      if thrown.Exception? {
        return running;
      }
      running := true;
      return running;
    }

    /** Start's try block after the settings are logged: the exception it meets, if
        any, with the watchers added and logged up to that point. */
    method TryBlock(outputFailure: Exception, failures: map<string, StartCheck>) returns (thrown: Exception)
      requires Valid()
      modifies this, logger
      ensures Valid()
      ensures thrown == TryThrown(settings, outputFailure, failures)
      ensures logger.entries == old(logger.entries) + TryLog(settings, outputFailure, failures)
      ensures running == old(running) && auditQueue == old(auditQueue)
      ensures var n0 := |old(customWatchers)|;
              && |customWatchers| == n0 + WatchersAdded(settings, outputFailure, failures)
              && old(customWatchers) <= customWatchers
              && (forall j :: n0 <= j < |customWatchers| ==> fresh(customWatchers[j]))
              && AddedFor(customWatchers, n0, settings, InputDirectories(settings), failures)
    {
      if settings.auditOutputDirectory == [] {
        thrown := Raise(EmptyOutputDirectoryMessage);
        assert TryLog(settings, outputFailure, failures) == [];
        assert old(logger.entries) + [] == old(logger.entries);
      } else if outputFailure.Exception? {
        thrown := outputFailure;
        assert TryLog(settings, outputFailure, failures) == [];
        assert old(logger.entries) + [] == old(logger.entries);
      } else if settings.auditInputDirectories.None? {
        // The foreach over a null list.
        thrown := Raise(NullReferenceMessage);
        assert TryLog(settings, outputFailure, failures) == [];
        assert old(logger.entries) + [] == old(logger.entries);
      } else {
        thrown := WatchAll(failures);
      }
    }

    /** Stops every listed watcher in turn, then clears running and returns false. A
        watcher whose Stop throws (it has handlers but its Start never stored a
        FileSystemWatcher, because the Path setter rejected its directory) ends Stop with that exception: the watchers after it are
        not stopped and running keeps its value. */
    method Stop() returns (outcome: Outcome)
      requires Valid()
      modifies this, customWatchers
      ensures Valid()
      ensures customWatchers == old(customWatchers) && auditQueue == old(auditQueue)
      ensures var k := old(FirstStopThrowing(customWatchers));
              && outcome == (if k < |customWatchers| then Threw(Raise(NullReferenceMessage)) else Returned(false))
              && running == (if k < |customWatchers| then old(running) else false)
              && (forall j :: 0 <= j < |customWatchers| ==>
                    && customWatchers[j].queueAction == old(customWatchers[j].queueAction)
                    && customWatchers[j].renamedAction == old(customWatchers[j].renamedAction)
                    && customWatchers[j].errorAction == old(customWatchers[j].errorAction))
              && (forall j :: 0 <= j < k ==>
                    customWatchers[j].fileSystemWatcher
                      == AfterStop(old(customWatchers[j].fileSystemWatcher),
                                   customWatchers[j].queueAction, customWatchers[j].errorAction))
              && (forall j :: k <= j < |customWatchers| ==>
                    customWatchers[j].fileSystemWatcher == old(customWatchers[j].fileSystemWatcher))
    {
      var stopped, thrown := StopEach(customWatchers);
      if thrown.Exception? {
        return Threw(thrown);
      }
      running := false;
      return Returned(running);
    }

    /** The error callback: logs the chain of the exception the watcher reports. */
    method FileSystemWatcherOnError(error: Exception)
      modifies logger
      ensures logger.entries == old(logger.entries) + ChainLog(error)
    {
      if error.Exception? {
        DetailedExceptionHandler(error);
      }
    }

    /** The rename callback: queues the rename unless the path is ignored. fileExists
        is File.Exists(path) and now is DateTime.Now when the callback runs. */
    method FileSystemWatcherOnOnRenamed(e: FileSystemEvent, fileExists: bool, now: DateTime)
      modifies this
      ensures auditQueue == old(auditQueue) + if Ignored(e.fullPath, fileExists) then [] else [QueueRecord(e, now)]
      ensures customWatchers == old(customWatchers) && running == old(running)
    {
      if Contains(e.fullPath, "~$") {
        return;
      }
      if !fileExists {
        return;
      }
      auditQueue := auditQueue + [QueueRecord(e, now)];
    }

    /** The change callback: like the rename callback, but a Renamed change is
        always dropped. */
    method FileSystemWatcherQueue(e: FileSystemEvent, fileExists: bool, now: DateTime)
      modifies this
      ensures auditQueue == old(auditQueue)
                + if e.changeType == Renamed || Ignored(e.fullPath, fileExists) then [] else [QueueRecord(e, now)]
      ensures customWatchers == old(customWatchers) && running == old(running)
    {
      if e.changeType == Renamed {
        return;
      }
      if Contains(e.fullPath, "~$") {
        return;
      }
      if !fileExists {
        return;
      }
      auditQueue := auditQueue + [QueueRecord(e, now)];
    }

    /** The body of Win32ProcessQuery's loop for one process: a fresh entry whose
        ProcessID is set when TryParse accepts the id, and which is kept, with the
        event's time and access type and the owner, when GetOwner returned 0 and set
        both names. An exception from GetOwner is logged. */
    method ProcessOutput(q: AuditQueue, row: ProcessRow) returns (kept: bool, output: AuditOutput)
      modifies logger
      ensures fresh(output)
      ensures kept == RowRecord(q, row).Some?
      ensures kept ==> output.Value() == RowRecord(q, row).value
      ensures logger.entries == old(logger.entries) + RowLog(row)
    {
      output := new AuditOutput();
      if row.processId.Some? {
        var parsed := ParseInt32(row.processId.value);
        if parsed.Some? {
          output.processId := parsed.value;
        }
      }
      kept := false;
      match row.owner {
        case OwnerThrew(e) =>
          DetailedExceptionHandler(e);
        case OwnerReturned(code, user, domain) =>
          if code == Some(0) && user.Some? && domain.Some? {
            output.timestamp := q.timeStamp;
            output.accessType := q.accessType.Name();
            output.user := Owner(domain.value, user.value);
            kept := true;
          }
      }
    }

    /** Resolver 1: one fresh entry per process for which GetOwner returned 0 and set
        both names, in enumeration order. query is what the Win32_Process query for
        the event's file name gave. */
    method Win32ProcessQuery(q: AuditQueue, query: QueryResult) returns (list: seq<AuditOutput>)
      modifies logger
      ensures Snapshot(list) == Win32Records(q, query.rows)
      ensures logger.entries == old(logger.entries) + Win32Log(q, query)
      ensures forall i :: 0 <= i < |list| ==> fresh(list[i])
      ensures forall i, j :: 0 <= i < j < |list| ==> list[i] != list[j]
    {
      list := QueryRows(q, query.rows);
      ghost var before := logger.entries;
      if query.failure.Exception? {
        logger.LogError("Error Query: " + ProcessQuery(q.fileName));
        DetailedExceptionHandler(query.failure);
        AppendAssoc(before, [Error("Error Query: " + ProcessQuery(q.fileName))], ChainLog(query.failure));
      }
      AppendAssoc(old(logger.entries), RowsLog(query.rows), QueryFailureLog(q, query.failure));
    }

    /** The loop of Win32ProcessQuery over the rows the query returned. */
    method QueryRows(q: AuditQueue, rows: seq<ProcessRow>) returns (list: seq<AuditOutput>)
      modifies logger
      ensures Snapshot(list) == Win32Records(q, rows)
      ensures logger.entries == old(logger.entries) + RowsLog(rows)
      ensures forall i :: 0 <= i < |list| ==> fresh(list[i])
      ensures forall i, j :: 0 <= i < j < |list| ==> list[i] != list[j]
    {
      list := [];
      var i := 0;
      while i < |rows|
        invariant 0 <= i <= |rows|
        invariant Snapshot(list) == Win32Records(q, rows[..i])
        invariant logger.entries == old(logger.entries) + RowsLog(rows[..i])
        invariant forall a :: 0 <= a < |list| ==> fresh(list[a])
        invariant forall a, b :: 0 <= a < b < |list| ==> list[a] != list[b]
        modifies logger
      {
        Win32Step(q, rows, i);
        AppendAssoc(old(logger.entries), RowsLog(rows[..i]), RowLog(rows[i]));
        var kept, output := ProcessOutput(q, rows[i]);
        SnapshotAppend(list, output);
        if kept {
          list := list + [output];
        } else {
          assert Win32Records(q, rows[..i]) + [] == Win32Records(q, rows[..i]);
        }
        i := i + 1;
      }
      assert rows[..i] == rows;
    }

    /** The body of HandleExecutableProcess's loop for one match: the verdict on it,
        and on a Take the shared entry set from its pid and user and the event. */
    method ApplyMatch(q: AuditQueue, h: HandleLine, output: AuditOutput) returns (v: Verdict)
      modifies output
      ensures v == Judge(q, h)
      ensures output.Value() == if v.Take? then TakenRecord(q, v) else old(output.Value())
    {
      var path := StripLineEndings(h.path);
      if path != q.fullFilePath {
        return Skip;
      }
      var pid := ParseInt32(h.pid);
      if pid.None? {
        return Reject(h.pid);
      }
      output.processId := pid.value;
      output.user := h.user;
      output.timestamp := q.timeStamp;
      output.accessType := q.accessType.Name();
      v := Take(pid.value, h.user);
    }

    /** One pass of the scan loop: the verdict on the match, and the list with the
        shared entry added again when the match is accepted. rest holds the verdicts
        from this match on; unless the pid is rejected, the scan from here is the scan
        from the next match with the new list and entry. */
    method ScanOne(q: AuditQueue, h: HandleLine, output: AuditOutput, list: seq<AuditOutput>,
                   ghost rest: seq<Verdict>)
      returns (v: Verdict, listed: seq<AuditOutput>)
      requires rest != [] && rest[0] == Judge(q, h)
      modifies output
      ensures v == rest[0]
      ensures listed == if v.Take? then list + [output] else list
      ensures ScanVerdicts(q, rest, |list|, old(output.Value()))
              == if v.Reject? then Scan(|list|, output.Value(), Some(v.pidText))
                 else ScanVerdicts(q, rest[1..], |listed|, output.Value())
    {
      v := ApplyMatch(q, h, output);
      listed := list;
      if v.Take? {
        listed := list + [output];
      }
    }

    /** The catch block of HandleExecutableProcess: the event's path, then the chain
        of the exception. */
    method LogPathError(q: AuditQueue, e: Exception)
      modifies logger
      ensures logger.entries == old(logger.entries) + ([Error("Error Path: " + q.fullFilePath)] + ChainLog(e))
    {
      logger.LogError("Error Path: " + q.fullFilePath);
      DetailedExceptionHandler(e);
      AppendAssoc(old(logger.entries), [Error("Error Path: " + q.fullFilePath)], ChainLog(e));
    }

    /** The loop of HandleExecutableProcess over the matches of the tool's output:
        ONE shared entry, set from each accepted match and listed again each time; a
        pid int.Parse rejects is logged with the event's path and ends the loop. */
    method ScanMatches(q: AuditQueue, matches: seq<HandleLine>) returns (list: seq<AuditOutput>)
      modifies logger
      ensures var scan := ScanVerdicts(q, Judged(q, matches), 0, DefaultRecord);
              && Snapshot(list) == Repeat(scan.value, scan.count)
              && logger.entries == old(logger.entries) + ScanLog(q, scan)
      ensures forall i, j :: 0 <= i < |list| && 0 <= j < |list| ==> list[i] == list[j] && fresh(list[i])
    {
      list := [];
      ghost var verdicts := Judged(q, matches);
      ghost var scan := ScanVerdicts(q, verdicts, 0, DefaultRecord);
      assert verdicts[0..] == verdicts;
      var output := new AuditOutput();
      var i := 0;
      while i < |matches|
        invariant 0 <= i <= |matches| == |verdicts|
        invariant scan == ScanVerdicts(q, verdicts[i..], |list|, output.Value())
        invariant forall a :: 0 <= a < |list| ==> list[a] == output
        invariant logger.entries == old(logger.entries)
        modifies output, logger
      {
        assert verdicts[i..][0] == verdicts[i] == Judge(q, matches[i]);
        assert verdicts[i..][1..] == verdicts[i + 1..];
        var v;
        v, list := ScanOne(q, matches[i], output, list, verdicts[i..]);
        if v.Reject? {
          LogPathError(q, PidParseFailure(v.pidText));
          SharedSnapshot(list, output);
          return;
        }
        i := i + 1;
      }
      assert verdicts[i..] == [];
      assert scan == Scan(|list|, output.Value(), None);
      assert old(logger.entries) + [] == old(logger.entries);
      SharedSnapshot(list, output);
    }

    /** Resolver 2: with a tool path set, runs handle.exe on the event's full path
        and scans the matches of its output; a failure to run it is logged with the
        event's path. run is what running the tool gave. */
    method HandleExecutableProcess(q: AuditQueue, run: ToolRun) returns (list: seq<AuditOutput>)
      modifies logger
      ensures Snapshot(list) == HandleRecords(settings.handleExecutablePath, q, run)
      ensures logger.entries == old(logger.entries) + HandleLog(settings.handleExecutablePath, q, run)
      ensures forall i, j :: 0 <= i < |list| && 0 <= j < |list| ==> list[i] == list[j] && fresh(list[i])
    {
      list := [];
      if settings.handleExecutablePath == [] {
        return;
      }
      if run.ToolFailed? {
        LogPathError(q, run.error);
        return;
      }
      HandleOutcome(settings.handleExecutablePath, q, run.text);
      var matches := ParseOutput(run.text);
      list := ScanMatches(q, matches);
    }

    /** Both resolvers for one event: the Win32_Process query, then handle.exe when
        the query found nothing. */
    method Resolve(q: AuditQueue, query: QueryResult, run: ToolRun) returns (list: seq<AuditOutput>)
      modifies logger
      ensures Snapshot(list) == Resolved(settings, q, query, run)
      ensures logger.entries == old(logger.entries) + ResolveLog(settings, q, query, run)
    {
      list := Win32ProcessQuery(q, query);
      ghost var win32Log := logger.entries;
      if |list| == 0 {
        list := HandleExecutableProcess(q, run);
        AppendAssoc(old(logger.entries), Win32Log(q, query), HandleLog(settings.handleExecutablePath, q, run));
      } else {
        assert Win32Log(q, query) + [] == Win32Log(q, query);
      }
    }

    /** The body of the write loop for one entry: unless its process id is
        unresolved, its line is logged and appended to the audit file at path. */
    method WriteEntry(path: string, output: AuditOutput, store: FileStore, ghost r: Record)
      requires path in store.files && output.Value() == r
      modifies logger, store
      ensures store.files == old(store.files)[path := old(store.files)[path]
                + if r.processId == UnresolvedProcessId then "" else AuditLine(r) + NewLine]
      ensures logger.entries == old(logger.entries)
                + if r.processId == UnresolvedProcessId then [] else [Information(AuditLine(r))]
    {
      if output.processId == UnresolvedProcessId {
        assert old(store.files)[path] + "" == old(store.files)[path];
        assert store.files[path := store.files[path]] == store.files;
        return;
      }
      var line := "Detected: Timestamp: " + output.timestamp.rendered + " User: " + output.user
                  + " Process ID: " + IntToString(output.processId) + " Access Type: " + output.accessType;
      assert line == AuditLine(output.Value());
      logger.LogInformation(line);
      store.AppendAllText(path, line + NewLine);
    }

    /** The write loop of the queue handler: one line per entry with a resolved
        process id, logged and appended to the audit file at path. */
    method WriteEntries(path: string, list: seq<AuditOutput>, store: FileStore, ghost rs: seq<Record>)
      requires path in store.files && Snapshot(list) == rs
      modifies logger, store
      ensures store.files == old(store.files)[path := Content(old(store.files), path) + AuditText(rs)]
      ensures logger.entries == old(logger.entries) + AuditLog(rs)
    {
      ghost var text0 := store.files[path];
      assert text0 + AuditText(rs[..0]) == text0;
      assert store.files[path := text0] == store.files;
      var i := 0;
      while i < |list|
        invariant 0 <= i <= |list|
        invariant store.files == old(store.files)[path := text0 + AuditText(rs[..i])]
        invariant logger.entries == old(logger.entries) + AuditLog(rs[..i])
        invariant Snapshot(list) == rs
      {
        AuditStep(rs, i);
        SnapshotAt(list, i);
        ghost var text := text0 + AuditText(rs[..i]);
        ghost var piece := if rs[i].processId == UnresolvedProcessId then "" else AuditLine(rs[i]) + NewLine;
        AppendAssoc(text0, AuditText(rs[..i]), piece);
        AppendAssoc(old(logger.entries), AuditLog(rs[..i]),
                    if rs[i].processId == UnresolvedProcessId then [] else [Information(AuditLine(rs[i]))]);
        UpdateTwice(old(store.files), path, text, text + piece);
        WriteEntry(path, list[i], store, rs[i]);
        i := i + 1;
      }
      assert rs[..i] == rs;
    }

    /** The work item the queue handler starts for one change q: makes sure the
        day's audit file exists, attributes the change and appends one line per
        entry with a resolved process id. now is DateTime.Now; query and run are what
        the two resolvers' external calls give for this change. */
    method AuditEvent(q: AuditQueue, now: DateTime, query: QueryResult, run: ToolRun, store: FileStore)
      requires now.Valid()
      modifies logger, store
      ensures var path, rs := AuditFilePath(settings, now), Resolved(settings, q, query, run);
              && store.files == old(store.files)[path := Content(old(store.files), path) + AuditText(rs)]
              && logger.entries == old(logger.entries) + ResolveLog(settings, q, query, run) + AuditLog(rs)
    {
      var path := Combine(settings.auditOutputDirectory, AuditFileName(now));
      CreateIfMissing(path, store);
      var list := Resolve(q, query, run);
      ghost var rs := Resolved(settings, q, query, run);
      WriteEntries(path, list, store, rs);
      UpdateTwice(old(store.files), path, Content(old(store.files), path),
                  Content(old(store.files), path) + AuditText(rs));
    }

    /** Creates the day's audit file when it does not exist yet; an existing file
        keeps its text. */
    method CreateIfMissing(path: string, store: FileStore)
      modifies store
      ensures path in store.files
      ensures store.files == old(store.files)[path := Content(old(store.files), path)]
    {
      if path !in store.files {
        store.Create(path);
      } else {
        assert store.files[path := store.files[path]] == store.files;
      }
    }

    /** One iteration of the queue handler: while running, takes the change at the
        front of the queue and audits it; otherwise, or with nothing queued, does
        nothing. */
    method DispatchStep(now: DateTime, query: QueryResult, run: ToolRun, store: FileStore)
      requires now.Valid()
      modifies this, logger, store
      ensures customWatchers == old(customWatchers) && running == old(running)
      ensures !running || old(auditQueue) == [] ==>
                auditQueue == old(auditQueue) && store.files == old(store.files)
                && logger.entries == old(logger.entries)
      ensures running && old(auditQueue) != [] ==>
                var q := old(auditQueue)[0];
                var path := AuditFilePath(settings, now);
                var rs := Resolved(settings, q, query, run);
                && auditQueue == old(auditQueue)[1..]
                && store.files == old(store.files)[path := Content(old(store.files), path) + AuditText(rs)]
                && logger.entries == old(logger.entries) + ResolveLog(settings, q, query, run) + AuditLog(rs)
    {
      if !running || auditQueue == [] {
        return;
      }
      var q := auditQueue[0];
      auditQueue := auditQueue[1..];
      AuditEvent(q, now, query, run, store);
    }
  }

  /** Stops the watchers in list order, up to and including the first whose Stop
      throws; that exception ends the walk and is returned. */
  method StopEach(ws: seq<CustomWatcher>) returns (stopped: nat, thrown: Exception)
    requires forall i, j :: 0 <= i < j < |ws| ==> ws[i] != ws[j]
    modifies ws
    ensures stopped == old(FirstStopThrowing(ws))
    ensures thrown == if stopped < |ws| then Raise(NullReferenceMessage) else NoException
    ensures forall j :: 0 <= j < |ws| ==>
              && ws[j].queueAction == old(ws[j].queueAction)
              && ws[j].renamedAction == old(ws[j].renamedAction)
              && ws[j].errorAction == old(ws[j].errorAction)
    ensures forall j :: 0 <= j < stopped ==>
              ws[j].fileSystemWatcher == AfterStop(old(ws[j].fileSystemWatcher), ws[j].queueAction, ws[j].errorAction)
    ensures forall j :: stopped <= j < |ws| ==> ws[j].fileSystemWatcher == old(ws[j].fileSystemWatcher)
  {
    ghost var throws := seq(|ws|, j requires 0 <= j < |ws| reads ws => ws[j].StopThrows());
    ghost var k := FirstStopThrowing(ws);
    stopped := 0;
    while stopped < |ws|
      invariant stopped <= k
      invariant forall j :: 0 <= j < |ws| ==>
                  && ws[j].queueAction == old(ws[j].queueAction)
                  && ws[j].renamedAction == old(ws[j].renamedAction)
                  && ws[j].errorAction == old(ws[j].errorAction)
      invariant forall j :: 0 <= j < stopped ==>
                  ws[j].fileSystemWatcher == AfterStop(old(ws[j].fileSystemWatcher), ws[j].queueAction, ws[j].errorAction)
      invariant forall j :: stopped <= j < |ws| ==> ws[j].fileSystemWatcher == old(ws[j].fileSystemWatcher)
    {
      assert stopped < k ==> !throws[stopped];
      assert forall j :: 0 <= j < |ws| && j != stopped ==> ws[j] != ws[stopped];
      thrown := ws[stopped].Stop();
      if thrown.Exception? {
        return;
      }
      stopped := stopped + 1;
    }
    thrown := NoException;
  }

  /** A list holding one object over and over reads as that object's value repeated. */
  lemma {:induction false} SharedSnapshot(list: seq<AuditOutput>, output: AuditOutput)
    requires forall a :: 0 <= a < |list| ==> list[a] == output
    ensures Snapshot(list) == Repeat(output.Value(), |list|)
  {
    if list != [] {
      SharedSnapshot(list[..|list| - 1], output);
    }
  }
}
