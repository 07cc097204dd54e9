/** CustomWatcher (FileAuditService.Core/Models/CustomWatcher.cs): it holds the
    configuration of one monitored directory and three handler properties, builds a
    FileSystemWatcher on Start and registers the handlers on its events, and takes
    some of them off again on Stop.

    A handler is a delegate, i.e. an invocation list of methods; null is the empty
    list. `+=` appends, and `-=` (Delegate.Remove) takes out the last occurrence of
    the removed list. The FileSystemWatcher is owned by its CustomWatcher and never
    shared, so it is held as a value that Start and Stop replace. */
module Watching {
  import opened Strings
  import opened Models

  /** The methods a handler can invoke: the three callbacks of AbstractAudit, or
      some other method. */
  datatype Callback = QueueHandler | RenamedHandler | ErrorHandler | OtherHandler(id: nat)

  /** A delegate's invocation list; [] is null. */
  type Delegate = seq<Callback>

  predicate OccursAt(source: Delegate, i: nat, value: Delegate) {
    i + |value| <= |source| && source[i..i + |value|] == value
  }

  /** The last position below n where value occurs in source. */
  function LastOccurrenceBelow(source: Delegate, value: Delegate, n: nat): (r: Option<nat>)
    ensures r.Some? ==> r.value < n && OccursAt(source, r.value, value)
    ensures r.Some? ==> forall j :: r.value < j < n ==> !OccursAt(source, j, value)
    ensures r.None? ==> forall j :: 0 <= j < n ==> !OccursAt(source, j, value)
  {
    if n == 0 then None
    else if OccursAt(source, n - 1, value) then Some(n - 1)
    else LastOccurrenceBelow(source, value, n - 1)
  }

  /** Delegate.Remove(source, value), i.e. `source -= value`. */
  function Remove(source: Delegate, value: Delegate): (r: Delegate)
    ensures |r| == |source| || |r| == |source| - |value|
    ensures value == [] ==> r == source
  {
    if value == [] then source
    else
      match LastOccurrenceBelow(source, value, |source| + 1)
      case None => source
      case Some(i) => source[..i] + source[i + |value|..]
  }

  /** Taking off what was just added restores the delegate: (a += b) -= b is a. */
  lemma RemoveUndoesCombine(a: Delegate, b: Delegate)
    ensures Remove(a + b, b) == a
  {
    if b != [] {
      var s := a + b;
      assert OccursAt(s, |a|, b);
      var r := LastOccurrenceBelow(s, b, |s| + 1);
      assert r == Some(|a|);
      assert s[..|a|] == a;
    }
  }

  /** A one-method list occurs where that method is. */
  lemma OccursAtSingle(source: Delegate, c: Callback)
    ensures forall j: nat :: OccursAt(source, j, [c]) <==> j < |source| && source[j] == c
  {
    forall j: nat ensures OccursAt(source, j, [c]) <==> j < |source| && source[j] == c {
      if j < |source| {
        assert source[j..j + 1] == [source[j]];
      }
    }
  }

  /** Removing a single method takes out its last registration when it has one: the
      registrations before it are kept and none of the method follows. */
  lemma RemoveOne(source: Delegate, c: Callback)
    ensures c !in source ==> Remove(source, [c]) == source
    ensures c in source ==>
              exists i :: 0 <= i < |source| && source[i] == c && c !in source[i + 1..]
                          && Remove(source, [c]) == source[..i] + source[i + 1..]
  {
    OccursAtSingle(source, c);
    if c in source {
      var k :| 0 <= k < |source| && source[k] == c;
      assert OccursAt(source, k, [c]);
      var i := LastOccurrenceBelow(source, [c], |source| + 1).value;
      assert source[i] == c;
      assert c !in source[i + 1..] by {
        forall j | i + 1 <= j < |source| ensures source[j] != c {
          assert !OccursAt(source, j, [c]);
        }
      }
      assert Remove(source, [c]) == source[..i] + source[i + 1..];
    }
  }

  /** The smallest buffer a FileSystemWatcher keeps: 4 KB. */
  const MinBufferSize: int := 4096

  /** What FileSystemWatcher.InternalBufferSize holds after it is set to size: a value
      below 4 KB, zero and negative ones included, is raised to 4096. */
  function BufferSizeSet(size: int): (stored: int)
    ensures stored >= MinBufferSize
    ensures stored == size <==> size >= MinBufferSize
  {
    if size < MinBufferSize then MinBufferSize else size
  }

  /** What FileSystemWatcher.Filter holds after it is set to filter: "" (a null
      string included) and "*.*" both mean every file and are kept as "*". */
  function FilterSet(filter: string): (stored: string)
    ensures stored != [] && stored != "*.*"
    ensures stored == filter <==> filter != [] && filter != "*.*"
  {
    if filter == [] || filter == "*.*" then "*" else filter
  }

  /** Setting the value a setter keeps changes nothing. */
  lemma SettersIdempotent(size: int, filter: string)
    ensures BufferSizeSet(BufferSizeSet(size)) == BufferSizeSet(size)
    ensures FilterSet(FilterSet(filter)) == FilterSet(filter)
  {
  }

  /** The FileSystemWatcher a CustomWatcher builds: its configuration, whether it
      raises events, and the handlers registered on its five events. */
  datatype FsWatcher = FsWatcher(
    internalBufferSize: int,
    path: string,
    notifyFilter: int,
    filter: string,
    includeSubdirectories: bool,
    enableRaisingEvents: bool,
    changed: Delegate,
    created: Delegate,
    deleted: Delegate,
    renamed: Delegate,
    error: Delegate)

  /** The handlers a change of the given kind is delivered to. */
  function Deliver(w: FsWatcher, kind: ChangeKind): Delegate {
    if !w.enableRaisingEvents then []
    else
      match kind
      case Changed => w.changed
      case Created => w.created
      case Deleted => w.deleted
      case Renamed => w.renamed
  }

  /** The handlers an error of the watcher is delivered to. */
  function DeliverError(w: FsWatcher): Delegate {
    if w.enableRaisingEvents then w.error else []
  }

  /** The watcher Start builds from the stored configuration and handlers. */
  function Started(bufferSize: int, directory: string, filter: string, notifyFilters: int,
                   includeSubdirectories: bool, queueAction: Delegate, renamedAction: Delegate,
                   errorAction: Delegate): FsWatcher
  {
    var built := FsWatcher(BufferSizeSet(bufferSize), directory, notifyFilters, FilterSet(filter),
                           false, false, [], [], [], [], []);
    var queued := if queueAction == [] then built
                  else built.(changed := queueAction, created := queueAction, deleted := queueAction,
                              renamed := renamedAction);
    var wired := if errorAction == [] then queued else queued.(error := errorAction);
    wired.(includeSubdirectories := includeSubdirectories, enableRaisingEvents := true)
  }

  /** The watcher after Stop has taken its handlers off. */
  function Stopped(w: FsWatcher, queueAction: Delegate, errorAction: Delegate): FsWatcher {
    w.(changed := Remove(w.changed, queueAction), created := Remove(w.created, queueAction),
       deleted := Remove(w.deleted, queueAction), error := Remove(w.error, errorAction))
  }

  /** What Start registers: the queue action on Changed, Created and Deleted exactly
      when it is set; the renamed action on Renamed only when the queue action is set,
      whether or not the renamed action itself is; the error action on Error exactly
      when it is set. The watcher takes the stored configuration and raises events. */
  lemma StartedSpec(bufferSize: int, directory: string, filter: string, notifyFilters: int,
                    includeSubdirectories: bool, queueAction: Delegate, renamedAction: Delegate,
                    errorAction: Delegate)
    ensures var w := Started(bufferSize, directory, filter, notifyFilters, includeSubdirectories,
                             queueAction, renamedAction, errorAction);
            && w.internalBufferSize == BufferSizeSet(bufferSize) && w.path == directory
            && w.filter == FilterSet(filter)
            && w.notifyFilter == notifyFilters && w.includeSubdirectories == includeSubdirectories
            && w.enableRaisingEvents
            && (forall kind :: kind != Renamed ==> Deliver(w, kind) == queueAction)
            && Deliver(w, Renamed) == (if queueAction == [] then [] else renamedAction)
            && DeliverError(w) == errorAction
  {
  }

  /** The asymmetry of Stop: after Start then Stop with the same handlers, changes
      and errors reach nobody, but the Renamed registration and event raising are
      left in place, so renames are still delivered. */
  lemma StopKeepsRenamed(bufferSize: int, directory: string, filter: string, notifyFilters: int,
                         includeSubdirectories: bool, queueAction: Delegate, renamedAction: Delegate,
                         errorAction: Delegate)
    ensures var w := Stopped(Started(bufferSize, directory, filter, notifyFilters, includeSubdirectories,
                                     queueAction, renamedAction, errorAction), queueAction, errorAction);
            && (forall kind :: kind != Renamed ==> Deliver(w, kind) == [])
            && DeliverError(w) == []
            && Deliver(w, Renamed) == (if queueAction == [] then [] else renamedAction)
            && w.enableRaisingEvents
  {
    RemoveUndoesCombine([], queueAction);
    RemoveUndoesCombine([], errorAction);
  }

  /** The watcher a Stop that does not throw leaves behind. */
  function AfterStop(w: Option<FsWatcher>, queueAction: Delegate, errorAction: Delegate): Option<FsWatcher> {
    match w
    case None => None
    case Some(v) => Some(Stopped(v, queueAction, errorAction))
  }

  /** What starting a CustomWatcher meets: nothing; the Path setter rejecting the
      directory (it does not exist); or EnableRaisingEvents failing to begin listening
      (the directory cannot be opened). */
  datatype StartCheck = Accepted | PathRejected(error: Raised) | SubscribeRejected(error: Raised)

  const NullReferenceMessage: string := "Object reference not set to an instance of an object."

  class CustomWatcher {
    var queueAction: Delegate
    var renamedAction: Delegate
    var errorAction: Delegate
    /** The FileSystemWatcher built by the last Start that got that far; None for null. */
    var fileSystemWatcher: Option<FsWatcher>
    const internalBufferSize: int
    const monitorDirectory: string
    const filter: string
    const notifyFilters: int
    const includeSubdirectories: bool

    /** The configuration is stored unchanged; no handler is set and no watcher built. */
    constructor (internalBufferSize: int, directory: string, filter: string, notifyFilter: int,
                 includeSubdirectories: bool)
      ensures this.internalBufferSize == internalBufferSize && monitorDirectory == directory
      ensures this.filter == filter && notifyFilters == notifyFilter
      ensures this.includeSubdirectories == includeSubdirectories
      ensures queueAction == [] && renamedAction == [] && errorAction == []
      ensures fileSystemWatcher.None?
    {
      this.internalBufferSize := internalBufferSize;
      monitorDirectory := directory;
      this.filter := filter;
      notifyFilters := notifyFilter;
      this.includeSubdirectories := includeSubdirectories;
      queueAction, renamedAction, errorAction := [], [], [];
      fileSystemWatcher := None;
    }

    /** Builds a new FileSystemWatcher, registers the handlers on it and makes it raise
        events. check is what the watcher's setters meet: when the Path setter rejects
        the directory, Start throws before the new watcher is stored; when
        EnableRaisingEvents cannot begin listening, Start throws after the watcher is
        stored with its handlers registered, and that watcher raises no events. */
    method Start(check: StartCheck) returns (thrown: Exception)
      modifies this
      ensures thrown == if check.Accepted? then NoException else check.error
      ensures queueAction == old(queueAction) && renamedAction == old(renamedAction)
      ensures errorAction == old(errorAction)
      ensures check.Accepted? ==> fileSystemWatcher == Some(Built())
      ensures check.PathRejected? ==> fileSystemWatcher == old(fileSystemWatcher)
      ensures check.SubscribeRejected? ==> fileSystemWatcher == Some(Built().(enableRaisingEvents := false))
    {
      if check.PathRejected? {
        return check.error;
      }
      var w := FsWatcher(BufferSizeSet(internalBufferSize), monitorDirectory, notifyFilters, FilterSet(filter),
                         false, false, [], [], [], [], []);
      if queueAction != [] {
        w := w.(changed := w.changed + queueAction);
        w := w.(created := w.created + queueAction);
        w := w.(deleted := w.deleted + queueAction);
        w := w.(renamed := w.renamed + renamedAction);
      }
      if errorAction != [] {
        w := w.(error := w.error + errorAction);
      }
      assert w == Started(internalBufferSize, monitorDirectory, filter, notifyFilters, false,
                          queueAction, renamedAction, errorAction).(enableRaisingEvents := false);
      w := w.(includeSubdirectories := includeSubdirectories);
      fileSystemWatcher := Some(w);
      if check.SubscribeRejected? {
        return check.error;
      }
      w := w.(enableRaisingEvents := true);
      fileSystemWatcher := Some(w);
      return NoException;
    }

    /** The watcher stored after a Start that met check, given the one stored before. */
    function StartedWith(check: StartCheck, before: Option<FsWatcher>): Option<FsWatcher>
      reads this
    {
      match check
      case Accepted => Some(Built())
      case PathRejected(_) => before
      case SubscribeRejected(_) => Some(Built().(enableRaisingEvents := false))
    }

    /** The watcher Start builds from this object's configuration and handlers. */
    function Built(): FsWatcher
      reads this
    {
      Started(internalBufferSize, monitorDirectory, filter, notifyFilters, includeSubdirectories,
              queueAction, renamedAction, errorAction)
    }

    /** Whether Stop dereferences a null watcher: a handler is set but no Start ever
        got as far as storing a watcher (every Start met a rejected Path). */
    predicate StopThrows()
      reads this
    {
      (queueAction != [] || errorAction != []) && fileSystemWatcher.None?
    }

    /** Takes the queue action off Changed, Created and Deleted and the error action off
        Error; Renamed and EnableRaisingEvents are not touched. Throws a
        NullReferenceException, changing nothing, when StopThrows(). */
    method Stop() returns (thrown: Exception)
      modifies this
      ensures thrown == (if old(StopThrows()) then Raise(NullReferenceMessage) else NoException)
      ensures queueAction == old(queueAction) && renamedAction == old(renamedAction)
      ensures errorAction == old(errorAction)
      ensures fileSystemWatcher ==
                if old(StopThrows()) then old(fileSystemWatcher)
                else AfterStop(old(fileSystemWatcher), queueAction, errorAction)
    {
      if queueAction != [] {
        if fileSystemWatcher.None? {
          return Raise(NullReferenceMessage);
        }
        var w := fileSystemWatcher.value;
        w := w.(changed := Remove(w.changed, queueAction));
        w := w.(created := Remove(w.created, queueAction));
        w := w.(deleted := Remove(w.deleted, queueAction));
        fileSystemWatcher := Some(w);
      }
      if errorAction != [] {
        if fileSystemWatcher.None? {
          return Raise(NullReferenceMessage);
        }
        var w := fileSystemWatcher.value;
        w := w.(error := Remove(w.error, errorAction));
        fileSystemWatcher := Some(w);
      }
      return NoException;
    }
  }
}
