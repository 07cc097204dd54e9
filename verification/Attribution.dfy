/** What the two resolvers of AbstractAudit attribute a queued change to, as values:
    the Win32_Process query, the handle.exe scan, the fallback between them, the
    lines written to the audit file and that file's name. The methods of
    Audit.AbstractAudit are proved to produce exactly these values. */
module Attribution {
  import opened Strings
  import opened Models
  import opened HandleOutput

  // ---------------------------------------------------------------------
  // Win32_Process query (Win32ProcessQuery)

  /** What GetOwner did for one process: it threw, or it returned a result code
      (None for null) and set its two out-arguments, user and domain (None for null). */
  datatype OwnerCall =
    | OwnerThrew(error: Exception)
    | OwnerReturned(code: Option<int>, user: Option<string>, domain: Option<string>)

  /** One Win32_Process object: its ProcessId property as text (None for null) and
      what GetOwner did for it. */
  datatype ProcessRow = ProcessRow(processId: Option<string>, owner: OwnerCall)

  /** What the query gave: the objects enumerated, then the exception that ended the
      enumeration, or NoException when it completed. */
  datatype QueryResult = QueryResult(rows: seq<ProcessRow>, failure: Exception)

  /** The WQL query for the processes whose command line mentions the file name. */
  function ProcessQuery(fileName: string): string {
    "select * from Win32_Process where CommandLine like \"%" + fileName + "%\""
  }

  /** The owner text: domain, a backslash, then the user. */
  function Owner(domain: string, user: string): string {
    domain + "\\" + user
  }

  /** The ProcessID of an entry: the ProcessId text when Int32.TryParse accepts it,
      and -1 otherwise. */
  function RowProcessId(row: ProcessRow): (id: int)
    ensures Int32Min <= id <= Int32Max
    ensures id != UnresolvedProcessId ==> row.processId.Some? && ParseInt32(row.processId.value) == Some(id)
  {
    match row.processId
    case None => UnresolvedProcessId
    case Some(text) =>
      match ParseInt32(text)
      case None => UnresolvedProcessId
      case Some(v) => v
  }

  /** The entry a process yields, if any. */
  function RowRecord(q: AuditQueue, row: ProcessRow): Option<Record> {
    match row.owner
    case OwnerThrew(_) => None
    case OwnerReturned(code, user, domain) =>
      if code != Some(0) || user.None? || domain.None? then None
      else Some(Record(q.timeStamp, Owner(domain.value, user.value), RowProcessId(row), q.accessType.Name()))
  }

  /** What is logged while handling one process. */
  function RowLog(row: ProcessRow): seq<LogEntry> {
    match row.owner
    case OwnerThrew(e) => ChainLog(e)
    case OwnerReturned(_, _, _) => []
  }

  /** The entries of the processes, in enumeration order. */
  function Win32Records(q: AuditQueue, rows: seq<ProcessRow>): (rs: seq<Record>)
    ensures |rs| <= |rows|
  {
    if rows == [] then []
    else
      var last := rows[|rows| - 1];
      Win32Records(q, rows[..|rows| - 1])
        + match RowRecord(q, last) case Some(r) => [r] case None => []
  }

  function RowsLog(rows: seq<ProcessRow>): seq<LogEntry> {
    if rows == [] then [] else RowsLog(rows[..|rows| - 1]) + RowLog(rows[|rows| - 1])
  }

  /** What is logged when the query fails with e. */
  function QueryFailureLog(q: AuditQueue, e: Exception): seq<LogEntry> {
    if e.NoException? then [] else [Error("Error Query: " + ProcessQuery(q.fileName))] + ChainLog(e)
  }

  /** Everything Win32ProcessQuery logs. */
  function Win32Log(q: AuditQueue, result: QueryResult): seq<LogEntry> {
    RowsLog(result.rows) + QueryFailureLog(q, result.failure)
  }

  /** A process yields an entry exactly when GetOwner returned 0 and set both names;
      the entry's user is domain\user and its time and access type come from the event. */
  lemma RowRecordSpec(q: AuditQueue, row: ProcessRow)
    ensures RowRecord(q, row).Some? <==>
              row.owner.OwnerReturned? && row.owner.code == Some(0)
              && row.owner.user.Some? && row.owner.domain.Some?
    ensures RowRecord(q, row).Some? ==>
              var r := RowRecord(q, row).value;
              && r.user == Owner(row.owner.domain.value, row.owner.user.value)
              && r.timestamp == q.timeStamp && r.accessType == q.accessType.Name()
              && r.processId == RowProcessId(row)
  {
  }

  /** The ProcessID is -1 when ProcessId is null or not an Int32, and the number it
      holds otherwise: a ProcessId rendered from n reads back as n. */
  lemma RowProcessIdSpec(row: ProcessRow)
    ensures row.processId.None? ==> RowProcessId(row) == UnresolvedProcessId
    ensures row.processId.Some? && ParseInt32(row.processId.value).None? ==>
              RowProcessId(row) == UnresolvedProcessId
    ensures forall n :: Int32Min <= n <= Int32Max && row.processId == Some(IntToString(n)) ==>
              RowProcessId(row) == n
  {
    forall n | Int32Min <= n <= Int32Max && row.processId == Some(IntToString(n))
      ensures RowProcessId(row) == n
    {
      IntToStringRoundTrip(n);
    }
  }

  /** The entries keep the enumeration order: the entries of two runs of processes,
      one after the other, are those of the first run followed by those of the second. */
  lemma {:induction false} Win32RecordsAppend(q: AuditQueue, a: seq<ProcessRow>, b: seq<ProcessRow>)
    ensures Win32Records(q, a + b) == Win32Records(q, a) + Win32Records(q, b)
    decreases |b|
  {
    if b == [] {
      assert a + b == a;
    } else {
      var b' := b[..|b| - 1];
      assert (a + b)[..|a + b| - 1] == a + b';
      assert (a + b)[|a + b| - 1] == b[|b| - 1];
      Win32RecordsAppend(q, a, b');
    }
  }

  /** Every entry carries the event's time and access type and a domain\user owner,
      and there is at most one entry per process. */
  lemma {:induction false} Win32RecordsFields(q: AuditQueue, rows: seq<ProcessRow>)
    ensures |Win32Records(q, rows)| <= |rows|
    ensures forall r :: r in Win32Records(q, rows) ==>
              r.timestamp == q.timeStamp && r.accessType == q.accessType.Name()
              && exists d, u :: r.user == Owner(d, u)
  {
    if rows != [] {
      var last := rows[|rows| - 1];
      Win32RecordsFields(q, rows[..|rows| - 1]);
      RowRecordSpec(q, last);
    }
  }

  // ---------------------------------------------------------------------
  // handle.exe (HandleExecutableProcess)

  /** What running the tool gave: the text it wrote to standard output, or the
      exception starting it raised. */
  datatype ToolRun = ToolOutput(text: string) | ToolFailed(error: Raised)

  /** A parsed line is taken when its path, with line breaks removed, is the event's
      full path, character for character. */
  predicate Accepts(q: AuditQueue, h: HandleLine) {
    StripLineEndings(h.path) == q.fullFilePath
  }

  /** What the loop body does with one match: pass over it (another path), set the
      shared entry from its pid and user, or stop on a pid int.Parse rejects. */
  datatype Verdict = Skip | Take(pid: int, user: string) | Reject(pidText: string)

  function Judge(q: AuditQueue, h: HandleLine): Verdict {
    if !Accepts(q, h) then Skip
    else
      match ParseInt32(h.pid)
      case None => Reject(h.pid)
      case Some(p) => Take(p, h.user)
  }

  /** The verdicts on the matches, in output order. */
  function Judged(q: AuditQueue, hs: seq<HandleLine>): (vs: seq<Verdict>)
    ensures |vs| == |hs| && forall i :: 0 <= i < |hs| ==> vs[i] == Judge(q, hs[i])
  {
    seq(|hs|, i requires 0 <= i < |hs| => Judge(q, hs[i]))
  }

  /** The value the shared entry holds after a Take. */
  function TakenRecord(q: AuditQueue, v: Verdict): Record
    requires v.Take?
  {
    Record(q.timeStamp, v.user, v.pid, q.accessType.Name())
  }

  /** The state of the scan over the matches: how many lines were accepted, the value
      of the one shared entry, and the pid text on which int.Parse failed, if it did. */
  datatype Scan = Scan(count: nat, value: Record, failedPid: Option<string>)

  /** The scan from the current state (count, value) over the remaining verdicts. */
  function ScanVerdicts(q: AuditQueue, vs: seq<Verdict>, count: nat, value: Record): Scan {
    if vs == [] then Scan(count, value, None)
    else
      match vs[0]
      case Skip => ScanVerdicts(q, vs[1..], count, value)
      case Reject(t) => Scan(count, value, Some(t))
      case Take(_, _) => ScanVerdicts(q, vs[1..], count + 1, TakenRecord(q, vs[0]))
  }

  /** The scan of HandleExecutableProcess over the matches of the tool's output. */
  function ScanOutput(q: AuditQueue, text: string): Scan {
    ScanVerdicts(q, Judged(q, ParseOutput(text)), 0, DefaultRecord)
  }

  /** The exception int.Parse throws on a string of ASCII digits it rejects. */
  function PidParseFailure(pid: string): Exception {
    if pid == [] then Raise("Input string was not in a correct format.")
    else Raise("Value was either too large or too small for an Int32.")
  }

  /** What the scan logs: the event's path and the chain of the int.Parse failure,
      when a pid was rejected. */
  function ScanLog(q: AuditQueue, s: Scan): seq<LogEntry> {
    if s.failedPid.Some? then [Error("Error Path: " + q.fullFilePath)] + ChainLog(PidParseFailure(s.failedPid.value))
    else []
  }

  /** The entries HandleExecutableProcess returns, as values. */
  function HandleRecords(toolPath: string, q: AuditQueue, run: ToolRun): (rs: seq<Record>)
    ensures toolPath == [] || run.ToolFailed? ==> rs == []
    ensures forall i, j :: 0 <= i < |rs| && 0 <= j < |rs| ==> rs[i] == rs[j]
  {
    if toolPath == [] || run.ToolFailed? then []
    else
      var s := ScanOutput(q, run.text);
      Repeat(s.value, s.count)
  }

  /** Everything HandleExecutableProcess logs. */
  function HandleLog(toolPath: string, q: AuditQueue, run: ToolRun): (log: seq<LogEntry>)
    ensures toolPath == [] ==> log == []
    ensures log != [] ==> log[0] == Error("Error Path: " + q.fullFilePath)
  {
    if toolPath == [] then []
    else
      var failure :=
        match run
        case ToolFailed(e) => e
        case ToolOutput(text) =>
          var s := ScanOutput(q, text);
          if s.failedPid.Some? then PidParseFailure(s.failedPid.value) else NoException;
      if failure.NoException? then [] else [Error("Error Path: " + q.fullFilePath)] + ChainLog(failure)
  }

  /** The verdicts other than Skip, in order. */
  function Decided(vs: seq<Verdict>): (ds: seq<Verdict>)
    ensures |ds| <= |vs|
  {
    if vs == [] then []
    else (if vs[0].Skip? then [] else [vs[0]]) + Decided(vs[1..])
  }

  /** Decided keeps no Skip and drops nothing else. */
  lemma {:induction false} DecidedSpec(vs: seq<Verdict>)
    ensures forall i :: 0 <= i < |Decided(vs)| ==> !Decided(vs)[i].Skip?
    ensures forall v :: v in vs && !v.Skip? ==> v in Decided(vs)
  {
    if vs != [] {
      DecidedSpec(vs[1..]);
      assert forall v :: v in vs ==> v == vs[0] || v in vs[1..];
    }
  }

  /** A single verdict is kept exactly when it is not a Skip. */
  lemma DecidedOne(v: Verdict)
    ensures Decided([v]) == if v.Skip? then [] else [v]
  {
    assert [v][1..] == [];
  }

  /** Decided is a filter: the verdicts of two runs of matches keep their order and
      their copies. */
  lemma {:induction false} DecidedAppend(vs: seq<Verdict>, ws: seq<Verdict>)
    ensures Decided(vs + ws) == Decided(vs) + Decided(ws)
    decreases |vs|
  {
    if vs == [] {
      assert vs + ws == ws;
    } else {
      var head := if vs[0].Skip? then [] else [vs[0]];
      assert (vs + ws)[0] == vs[0];
      assert (vs + ws)[1..] == vs[1..] + ws;
      DecidedAppend(vs[1..], ws);
      calc {
        Decided(vs + ws);
        head + Decided(vs[1..] + ws);
        head + (Decided(vs[1..]) + Decided(ws));
        (head + Decided(vs[1..])) + Decided(ws);
      }
    }
  }

  /** How many of the decided verdicts, from the first, are Takes. */
  function TakesBeforeReject(ds: seq<Verdict>): (n: nat)
    ensures n <= |ds|
  {
    if ds == [] || ds[0].Reject? then 0 else 1 + TakesBeforeReject(ds[1..])
  }

  /** The count stops exactly at the first Reject. */
  lemma {:induction false} TakesBeforeRejectSpec(ds: seq<Verdict>)
    ensures forall i :: 0 <= i < TakesBeforeReject(ds) ==> !ds[i].Reject?
    ensures TakesBeforeReject(ds) < |ds| ==> ds[TakesBeforeReject(ds)].Reject?
  {
    if ds != [] && !ds[0].Reject? {
      TakesBeforeRejectSpec(ds[1..]);
    }
  }

  /** The last Take counted is a Take and the verdict where counting stops is a Reject. */
  lemma DecidedShape(vs: seq<Verdict>)
    ensures var ds := Decided(vs);
            var n := TakesBeforeReject(ds);
            (n > 0 ==> ds[n - 1].Take?) && (n < |ds| ==> ds[n].Reject?)
  {
    DecidedSpec(vs);
    TakesBeforeRejectSpec(Decided(vs));
  }

  /** The scan counts the Takes before the first Reject. */
  lemma {:induction false} ScanCount(q: AuditQueue, vs: seq<Verdict>, count: nat, value: Record)
    ensures ScanVerdicts(q, vs, count, value).count == count + TakesBeforeReject(Decided(vs))
  {
    if vs != [] {
      var rest := Decided(vs[1..]);
      if vs[0].Skip? {
        assert Decided(vs) == rest;
        ScanCount(q, vs[1..], count, value);
      } else {
        assert Decided(vs) == [vs[0]] + rest;
        if vs[0].Take? {
          assert Decided(vs)[1..] == rest;
          ScanCount(q, vs[1..], count + 1, TakenRecord(q, vs[0]));
        }
      }
    }
  }

  /** The scan stops at the first Reject and reports its pid text. */
  lemma {:induction false} ScanFailedPid(q: AuditQueue, vs: seq<Verdict>, count: nat, value: Record)
    ensures var ds := Decided(vs);
            var n := TakesBeforeReject(ds);
            (n < |ds| ==> ds[n].Reject?)
            && ScanVerdicts(q, vs, count, value).failedPid == if n < |ds| then Some(ds[n].pidText) else None
  {
    DecidedShape(vs);
    if vs != [] {
      var rest := Decided(vs[1..]);
      if vs[0].Skip? {
        assert Decided(vs) == rest;
        ScanFailedPid(q, vs[1..], count, value);
      } else {
        var ds := Decided(vs);
        assert ds == [vs[0]] + rest;
        if vs[0].Take? {
          assert ds[1..] == rest;
          var m := TakesBeforeReject(rest);
          ScanFailedPid(q, vs[1..], count + 1, TakenRecord(q, vs[0]));
          assert m < |rest| ==> ds[m + 1] == rest[m];
        }
      }
    }
  }

  /** The shared entry holds what the last Take before the first Reject set, or what
      it held before when there is none. */
  lemma {:induction false} ScanValue(q: AuditQueue, vs: seq<Verdict>, count: nat, value: Record)
    ensures var ds := Decided(vs);
            var n := TakesBeforeReject(ds);
            (n > 0 ==> ds[n - 1].Take?)
            && ScanVerdicts(q, vs, count, value).value == if n == 0 then value else TakenRecord(q, ds[n - 1])
  {
    DecidedShape(vs);
    if vs != [] {
      var rest := Decided(vs[1..]);
      if vs[0].Skip? {
        assert Decided(vs) == rest;
        ScanValue(q, vs[1..], count, value);
      } else {
        var ds := Decided(vs);
        assert ds == [vs[0]] + rest;
        if vs[0].Take? {
          assert ds[1..] == rest;
          var m := TakesBeforeReject(rest);
          ScanValue(q, vs[1..], count + 1, TakenRecord(q, vs[0]));
          assert ds[m] == if m == 0 then vs[0] else rest[m - 1];
        }
      }
    }
  }

  /** The scan in closed form: it counts the accepted lines up to the first whose
      pid does not parse, where it stops, and the shared entry holds what the last
      of them set (or what it held before when there is none). */
  lemma ScanVerdictsClosedForm(q: AuditQueue, vs: seq<Verdict>, count: nat, value: Record)
    ensures var ds := Decided(vs);
            var n := TakesBeforeReject(ds);
            (n > 0 ==> ds[n - 1].Take?) && (n < |ds| ==> ds[n].Reject?)
    ensures var ds := Decided(vs);
            var n := TakesBeforeReject(ds);
            var s := ScanVerdicts(q, vs, count, value);
            && s.count == count + n
            && s.value == (if n == 0 then value else TakenRecord(q, ds[n - 1]))
            && s.failedPid == (if n < |ds| then Some(ds[n].pidText) else None)
  {
    ScanCount(q, vs, count, value);
    ScanValue(q, vs, count, value);
    ScanFailedPid(q, vs, count, value);
  }

  /** A match is passed over exactly when its path, with every '\r' and '\n'
      dropped, differs from the event's full path (no trimming, no case folding);
      an accepted match sets its parsed pid and its user, or, when its pid is empty
      or too large for an Int32, stops the scan. */
  lemma JudgeSpec(q: AuditQueue, h: HandleLine)
    requires AllDigits(h.pid)
    ensures Judge(q, h).Skip? <==> DropLineBreaks(h.path) != q.fullFilePath
    ensures Judge(q, h).Take? ==>
              Judge(q, h) == Take(DigitsValue(h.pid), h.user) && h.pid != [] && DigitsValue(h.pid) <= Int32Max
    ensures Judge(q, h).Reject? <==>
              DropLineBreaks(h.path) == q.fullFilePath && (h.pid == [] || DigitsValue(h.pid) > Int32Max)
  {
    StripLineEndingsDropsBreaks(h.path);
    ParseDigitsOnly(h.pid);
  }

  /** With no tool configured nothing is run and there are no entries. Otherwise
      there is one entry per accepted match before the first rejected pid, every one
      of them holding what the last of those matches set. */
  lemma HandleRecordsSpec(toolPath: string, q: AuditQueue, text: string)
    ensures HandleRecords([], q, ToolOutput(text)) == []
    ensures toolPath != [] ==>
              var ds := Decided(Judged(q, ParseOutput(text)));
              var n := TakesBeforeReject(ds);
              var rs := HandleRecords(toolPath, q, ToolOutput(text));
              && |rs| == n
              && (forall i :: 0 <= i < |rs| ==> ds[n - 1].Take? && rs[i] == TakenRecord(q, ds[n - 1]))
  {
    ScanVerdictsClosedForm(q, Judged(q, ParseOutput(text)), 0, DefaultRecord);
  }

  /** With no tool configured nothing is logged. Otherwise the tool's output leads to
      a logged error exactly when some accepted match has a pid int.Parse rejects. */
  lemma HandleLogSpec(toolPath: string, q: AuditQueue, text: string)
    ensures HandleLog([], q, ToolOutput(text)) == []
    ensures toolPath != [] ==>
              var ds := Decided(Judged(q, ParseOutput(text)));
              (TakesBeforeReject(ds) < |ds| <==> HandleLog(toolPath, q, ToolOutput(text)) != [])
  {
    ScanFailedPid(q, Judged(q, ParseOutput(text)), 0, DefaultRecord);
  }

  // ---------------------------------------------------------------------
  // Fallback and the audit file

  /** The entries of one event: the query's when it found any, the tool's otherwise. */
  function Attributed(win32: seq<Record>, handle: seq<Record>): seq<Record> {
    if win32 == [] then handle else win32
  }

  const NewLine: string := "\r\n"

  /** The line written for one entry. */
  function AuditLine(r: Record): string {
    "Detected: Timestamp: " + r.timestamp.rendered + " User: " + r.user
      + " Process ID: " + IntToString(r.processId) + " Access Type: " + r.accessType
  }

  /** The entries that are written: those with a resolved process id. */
  function Written(rs: seq<Record>): (w: seq<Record>)
    ensures |w| <= |rs|
    ensures forall i :: 0 <= i < |w| ==> w[i].processId != UnresolvedProcessId && w[i] in rs
  {
    if rs == [] then []
    else
      Written(rs[..|rs| - 1])
        + if rs[|rs| - 1].processId == UnresolvedProcessId then [] else [rs[|rs| - 1]]
  }

  /** The text appended to the audit file for the entries, in list order. */
  function AuditText(rs: seq<Record>): (text: string)
    ensures rs == [] ==> text == ""
  {
    if rs == [] then ""
    else
      var r := rs[|rs| - 1];
      AuditText(rs[..|rs| - 1]) + if r.processId == UnresolvedProcessId then "" else AuditLine(r) + NewLine
  }

  /** The information entries logged for the entries, one per written line. */
  function AuditLog(rs: seq<Record>): (log: seq<LogEntry>)
    ensures |log| <= |rs|
    ensures forall i :: 0 <= i < |log| ==> log[i].Information?
  {
    if rs == [] then []
    else
      var r := rs[|rs| - 1];
      AuditLog(rs[..|rs| - 1]) + if r.processId == UnresolvedProcessId then [] else [Information(AuditLine(r))]
  }

  /** The audit text is one line per written entry, each ended by a new line. */
  function Lines(rs: seq<Record>): string {
    if rs == [] then "" else Lines(rs[..|rs| - 1]) + AuditLine(rs[|rs| - 1]) + NewLine
  }

  /** The audit text holds the lines of the resolved entries only, in list order. */
  lemma {:induction false} AuditTextIsWrittenLines(rs: seq<Record>)
    ensures AuditText(rs) == Lines(Written(rs))
  {
    if rs != [] {
      var init, r := rs[..|rs| - 1], rs[|rs| - 1];
      var w := Written(init);
      AuditTextIsWrittenLines(init);
      if r.processId != UnresolvedProcessId {
        assert Written(rs) == w + [r];
        assert (w + [r])[..|w|] == w;
        assert Lines(w + [r]) == Lines(w) + AuditLine(r) + NewLine;
      } else {
        assert Written(rs) == w;
      }
    }
  }

  /** The log holds one information entry per written line, in the same order. */
  lemma {:induction false} AuditLogIsWrittenLines(rs: seq<Record>)
    ensures |AuditLog(rs)| == |Written(rs)|
    ensures forall i :: 0 <= i < |Written(rs)| ==> AuditLog(rs)[i] == Information(AuditLine(Written(rs)[i]))
  {
    if rs != [] {
      var init, r := rs[..|rs| - 1], rs[|rs| - 1];
      AuditLogIsWrittenLines(init);
      if r.processId != UnresolvedProcessId {
        assert Written(rs) == Written(init) + [r];
      } else {
        assert Written(rs) == Written(init);
      }
    }
  }

  /** A list whose entries all have ProcessID -1 writes and logs nothing. */
  lemma {:induction false} UnresolvedWriteNothing(rs: seq<Record>)
    requires forall i :: 0 <= i < |rs| ==> rs[i].processId == UnresolvedProcessId
    ensures AuditText(rs) == "" && AuditLog(rs) == []
  {
    if rs != [] {
      UnresolvedWriteNothing(rs[..|rs| - 1]);
    }
  }

  /** The fallback runs only when the query found nothing: a query result holding
      only unresolved entries is kept, and then nothing is written. */
  lemma FallbackOnlyWhenEmpty(win32: seq<Record>, handle: seq<Record>)
    ensures win32 != [] ==> Attributed(win32, handle) == win32
    ensures win32 == [] ==> Attributed(win32, handle) == handle
    ensures win32 != [] && (forall i :: 0 <= i < |win32| ==> win32[i].processId == UnresolvedProcessId) ==>
              AuditText(Attributed(win32, handle)) == ""
  {
    if win32 != [] && forall i :: 0 <= i < |win32| ==> win32[i].processId == UnresolvedProcessId {
      UnresolvedWriteNothing(win32);
    }
  }

  /** The name of the day's audit file: audit_ddMMyyyy.txt. */
  function AuditFileName(now: DateTime): (name: string)
    requires now.Valid()
    ensures |name| == 18 && IsAt(name, 0, "audit_") && IsAt(name, 14, ".txt")
  {
    "audit_" + TwoDigits(now.day) + TwoDigits(now.month) + FourDigits(now.year) + ".txt"
  }

  /** The file name holds the day, the month and the year, zero-padded, and reads
      back as them. */
  lemma AuditFileNameFields(now: DateTime)
    requires now.Valid()
    ensures var name := AuditFileName(now);
            && |name| == 18 && name[..6] == "audit_" && name[14..] == ".txt"
            && AllDigits(name[6..14])
            && DigitsValue(name[6..8]) == now.day && DigitsValue(name[8..10]) == now.month
            && DigitsValue(name[10..14]) == now.year
  {
    var name := AuditFileName(now);
    FixedDigitsValue(now.day);
    FixedDigitsValue(now.month);
    FixedDigitsValue(now.year);
    assert name[6..8] == TwoDigits(now.day);
    assert name[8..10] == TwoDigits(now.month);
    assert name[10..14] == FourDigits(now.year);
  }

  /** Two dates get the same file name only when they are the same day. */
  lemma AuditFileNameInjective(a: DateTime, b: DateTime)
    requires a.Valid() && b.Valid()
    requires AuditFileName(a) == AuditFileName(b)
    ensures a.day == b.day && a.month == b.month && a.year == b.year
  {
    AuditFileNameFields(a);
    AuditFileNameFields(b);
  }
}
