/** A hand-written parser for the lines of handle.exe output that the resolver reads
    with the pattern  \s*pid: ([0-9]*)\s*type: ([^ ]*)\s*([^ ]*)\s*(.*?): (.*)
    (FileAuditService.Core/AbstractAudit.cs:288). The output is split into lines at
    '\n'; within one line the parser makes the choices .NET's backtracking matcher
    makes: the leftmost "pid: " from which the rest matches, greedy quantifiers that
    give back only as much as is needed for a ": " to follow, and the first ": "
    after that for the lazy group. */
module HandleOutput {
  import opened Strings

  /** The five groups of one match: pid, type, user, handle, path. */
  datatype HandleLine = HandleLine(pid: string, kind: string, user: string, handle: string, path: string)

  /** Where the groups after "type: " end: the type group is [t, kindEnd), the
      user group [userStart, userEnd), the handle group [handleStart, colon), and
      the path group starts at colon + 2. */
  datatype Split = Split(kindEnd: nat, userStart: nat, userEnd: nat, handleStart: nat, colon: nat)

  /** sp is one way the text from t can match  ([^ ]*)\s*([^ ]*)\s*(.*?): (.*) . */
  predicate ValidSplit(line: string, t: nat, sp: Split) {
    && InOrder(line, t, sp)
    && IsAt(line, sp.colon, ": ")
    && (forall j :: t <= j < sp.kindEnd ==> line[j] != ' ')
    && (forall j :: sp.kindEnd <= j < sp.userStart ==> IsRegexSpace(line[j]))
    && (forall j :: sp.userStart <= j < sp.userEnd ==> line[j] != ' ')
    && (forall j :: sp.userEnd <= j < sp.handleStart ==> IsRegexSpace(line[j]))
  }

  /** The positions of sp follow one another within the line. */
  predicate InOrder(line: string, t: nat, sp: Split) {
    t <= sp.kindEnd <= sp.userStart <= sp.userEnd <= sp.handleStart <= sp.colon && sp.colon + 2 <= |line|
  }

  /** The order in which a backtracking matcher tries splits: the four greedy
      positions in decreasing lexicographic order, then the lazy group shortest
      first. b is tried no later than a. */
  predicate TriedNoLaterThan(b: Split, a: Split) {
    || b.kindEnd > a.kindEnd
    || (b.kindEnd == a.kindEnd && b.userStart > a.userStart)
    || (b.kindEnd == a.kindEnd && b.userStart == a.userStart && b.userEnd > a.userEnd)
    || (b.kindEnd == a.kindEnd && b.userStart == a.userStart && b.userEnd == a.userEnd
        && b.handleStart > a.handleStart)
    || (b.kindEnd == a.kindEnd && b.userStart == a.userStart && b.userEnd == a.userEnd
        && b.handleStart == a.handleStart && b.colon <= a.colon)
  }

  /** The split chosen for the text from t: every greedy group takes as much as it
      can while leaving the last ": " of the line after it. */
  function TailSplit(line: string, t: nat): (r: Option<Split>)
    requires t <= |line|
    ensures r.Some? ==> InOrder(line, t, r.value)
  {
    match LastIndexOf(line, ": ", t)
    case None => None
    case Some(k) =>
      var p1 := Min(NonBlankEnd(line, t), k);
      var p2 := Min(SpacesEnd(line, p1), k);
      var p3 := Min(NonBlankEnd(line, p2), k);
      var p4 := Min(SpacesEnd(line, p3), k);
      match IndexOfFrom(line, ": ", p4)
      case None => None
      case Some(c) => Some(Split(p1, p2, p3, p4, c))
  }

  /** The split TailSplit picks is one way the pattern can match. */
  lemma TailSplitValid(line: string, t: nat)
    requires t <= |line|
    ensures TailSplit(line, t).Some? ==> ValidSplit(line, t, TailSplit(line, t).value)
  {
    if TailSplit(line, t).Some? {
      var k := LastIndexOf(line, ": ", t).value;
      var p1 := Min(NonBlankEnd(line, t), k);
      var p2 := Min(SpacesEnd(line, p1), k);
      var p3 := Min(NonBlankEnd(line, p2), k);
      var p4 := Min(SpacesEnd(line, p3), k);
      IndexOfFromSpec(line, ": ", p4);
      NonBlankEndRun(line, t);
      SpacesEndRun(line, p1);
      NonBlankEndRun(line, p2);
      SpacesEndRun(line, p3);
    }
  }

  /** The split TailSplit picks is the first one the matcher tries that succeeds,
      and no split exists when TailSplit finds none. */
  lemma TailSplitIsMatcherChoice(line: string, t: nat, other: Split)
    requires t <= |line|
    requires ValidSplit(line, t, other)
    ensures TailSplit(line, t).Some?
    ensures TriedNoLaterThan(TailSplit(line, t).value, other)
  {
    LastIndexOfSpec(line, ": ", t);
    var k := LastIndexOf(line, ": ", t).value;
    assert other.colon <= k;
    var p1 := Min(NonBlankEnd(line, t), k);
    var p2 := Min(SpacesEnd(line, p1), k);
    var p3 := Min(NonBlankEnd(line, p2), k);
    var p4 := Min(SpacesEnd(line, p3), k);
    IndexOfFromSpec(line, ": ", p4);
    NonBlankEndCovers(line, t, other.kindEnd);
    if other.kindEnd == p1 {
      SpacesEndCovers(line, p1, other.userStart);
      if other.userStart == p2 {
        NonBlankEndCovers(line, p2, other.userEnd);
        if other.userEnd == p3 {
          SpacesEndCovers(line, p3, other.handleStart);
        }
      }
    }
  }

  /** TailSplit finds nothing exactly when no ": " follows t. */
  lemma TailSplitNone(line: string, t: nat)
    requires t <= |line|
    ensures TailSplit(line, t).None? <==> forall j :: t <= j ==> !IsAt(line, j, ": ")
  {
    LastIndexOfSpec(line, ": ", t);
    if LastIndexOf(line, ": ", t).Some? {
      var k := LastIndexOf(line, ": ", t).value;
      var p4 := Min(SpacesEnd(line, Min(NonBlankEnd(line, Min(SpacesEnd(line, Min(NonBlankEnd(line, t), k)), k)), k)), k);
      assert p4 <= k && IsAt(line, k, ": ");
      IndexOfFromSpec(line, ": ", p4);
      assert IndexOfFrom(line, ": ", p4).Some?;
    }
  }

  function Groups(line: string, pid: string, t: nat, sp: Split): HandleLine
    requires InOrder(line, t, sp)
  {
    HandleLine(pid, line[t..sp.kindEnd], line[sp.userStart..sp.userEnd],
               line[sp.handleStart..sp.colon], line[sp.colon + 2..])
  }

  /** The pattern from the end of a "pid: " at p: the pid digits (all of them),
      white space, "type: ", then the tail. */
  function MatchAfterPid(line: string, p: nat): (r: Option<HandleLine>)
    requires p <= |line|
    ensures r.Some? ==> AllDigits(r.value.pid)
  {
    var d := DigitsEnd(line, p);
    var w := SpacesEnd(line, d);
    DigitsEndRun(line, p);
    if !IsAt(line, w, "type: ") then None
    else
      match TailSplit(line, w + 6)
      case None => None
      case Some(sp) => Some(Groups(line, line[p..d], w + 6, sp))
  }

  /** A match of the pattern begins at the "pid: " at i. */
  predicate MatchesAt(line: string, i: nat) {
    IsAt(line, i, "pid: ") && MatchAfterPid(line, i + 5).Some?
  }

  /** The least position in [from, bound) where `ok` holds. */
  function FirstWhere(ok: nat -> bool, from: nat, bound: nat): (r: Option<nat>)
    ensures r.Some? ==> from <= r.value < bound && ok(r.value)
    ensures r.Some? ==> forall j :: from <= j < r.value ==> !ok(j)
    ensures r.None? ==> forall j :: from <= j < bound ==> !ok(j)
    decreases bound - from
  {
    if bound <= from then None
    else if ok(from) then Some(from)
    else FirstWhere(ok, from + 1, bound)
  }

  /** Where the leftmost match of the line begins: the matcher tries the start
      positions from left to right. */
  function LeftmostMatch(line: string): (r: Option<nat>)
    ensures r.Some? ==> MatchesAt(line, r.value)
    ensures r.Some? ==> forall j :: 0 <= j < r.value ==> !MatchesAt(line, j)
    ensures r.None? ==> forall j: nat :: !MatchesAt(line, j)
  {
    var ok := (j: nat) => MatchesAt(line, j);
    assert forall j: nat :: ok(j) == MatchesAt(line, j);
    assert forall j: nat :: |line| <= j ==> !MatchesAt(line, j);
    FirstWhere(ok, 0, |line|)
  }

  /** The match of the pattern on one line of output, if any (Regex.Match). */
  function ParseLine(line: string): (r: Option<HandleLine>)
    ensures r.Some? <==> exists i :: MatchesAt(line, i)
    ensures r.Some? ==> AllDigits(r.value.pid)
  {
    match LeftmostMatch(line)
    case None => None
    case Some(i) => MatchAfterPid(line, i + 5)
  }

  // ---------------------------------------------------------------------
  // Lines of the tool's output

  predicate NoLineFeed(s: string) {
    forall j :: 0 <= j < |s| ==> s[j] != '\n'
  }

  /** The output cut at every '\n'. */
  function SplitLines(s: string): (lines: seq<string>)
    ensures |lines| > 0
    ensures forall i :: 0 <= i < |lines| ==> NoLineFeed(lines[i])
    decreases |s|
  {
    IndexOfFromSpec(s, "\n", 0);
    match IndexOfFrom(s, "\n", 0)
    case None =>
      assert NoLineFeed(s) by {
        forall j | 0 <= j < |s| ensures s[j] != '\n' {
          assert !IsAt(s, j, "\n");
        }
      }
      [s]
    case Some(k) =>
      assert NoLineFeed(s[..k]) by {
        forall j | 0 <= j < k ensures s[j] != '\n' {
          assert !IsAt(s, j, "\n");
        }
      }
      [s[..k]] + SplitLines(s[k + 1..])
  }

  function JoinLines(lines: seq<string>): string
    requires |lines| > 0
  {
    if |lines| == 1 then lines[0] else lines[0] + "\n" + JoinLines(lines[1..])
  }

  /** Splitting loses nothing: joining the lines with '\n' gives the output back. */
  lemma {:induction false} SplitLinesRoundTrip(s: string)
    ensures JoinLines(SplitLines(s)) == s
    decreases |s|
  {
    IndexOfFromSpec(s, "\n", 0);
    match IndexOfFrom(s, "\n", 0)
    case None =>
    case Some(k) =>
      SplitLinesRoundTrip(s[k + 1..]);
      assert IsAt(s, k, "\n");
      assert s[..k] + "\n" + s[k + 1..] == s;
  }

  /** Lines without a line feed, joined with '\n', split back into the same lines. */
  lemma {:induction false} JoinLinesRoundTrip(lines: seq<string>)
    requires |lines| > 0
    requires forall i :: 0 <= i < |lines| ==> NoLineFeed(lines[i])
    ensures SplitLines(JoinLines(lines)) == lines
  {
    var s := JoinLines(lines);
    var first := lines[0];
    if |lines| == 1 {
      forall j | 0 <= j < |s| ensures !IsAt(s, j, "\n") {
        assert s[j] == first[j] && s[j] != "\n"[0];
      }
      IndexOfFromSpec(s, "\n", 0);
    } else {
      var n := |first|;
      var rest := JoinLines(lines[1..]);
      assert s == first + "\n" + rest;
      forall j | 0 <= j < n ensures !IsAt(s, j, "\n") {
        assert s[j] == first[j] && s[j] != "\n"[0];
      }
      assert IsAt(s, n, "\n");
      IndexOfFromIs(s, "\n", 0, n);
      assert s[n + 1..] == rest;
      assert s[..n] == first;
      JoinLinesRoundTrip(lines[1..]);
      assert lines == [first] + lines[1..];
    }
  }

  /** The matches of the output, line by line, in output order. */
  function ParsedLines(lines: seq<string>): (r: seq<HandleLine>)
    ensures forall i :: 0 <= i < |r| ==> AllDigits(r[i].pid)
  {
    if lines == [] then []
    else
      (match ParseLine(lines[0]) case Some(h) => [h] case None => []) + ParsedLines(lines[1..])
  }

  function ParseOutput(output: string): (r: seq<HandleLine>)
    ensures forall i :: 0 <= i < |r| ==> AllDigits(r[i].pid)
  {
    ParsedLines(SplitLines(output))
  }

  // ---------------------------------------------------------------------
  // Rendering a line, and parsing it back

  /** The white space of a line of `handle` output: the column before "pid: " (the
      process name), and the runs after the pid, after the type and after the user. */
  datatype Layout = Layout(column: string, afterPid: string, afterKind: string, afterUser: string)

  /** A line carrying the five fields laid out as `handle` prints them. */
  function Render(layout: Layout, h: HandleLine): string {
    layout.column + "pid: " + h.pid + layout.afterPid + "type: " + h.kind + layout.afterKind
      + h.user + layout.afterUser + h.handle + ": " + h.path
  }

  predicate AllRegexSpace(s: string) {
    forall j :: 0 <= j < |s| ==> IsRegexSpace(s[j])
  }

  /** A layout the pattern reads through: no "pid: " begins inside the column, the
      run after the pid is white space, and the runs after the type and the user are
      white space that begins with a space. */
  predicate WellLaidOut(layout: Layout) {
    && (forall j :: 0 <= j < |layout.column| ==> !IsAt(layout.column + "pid: ", j, "pid: "))
    && AllRegexSpace(layout.afterPid)
    && |layout.afterKind| > 0 && layout.afterKind[0] == ' ' && AllRegexSpace(layout.afterKind)
    && |layout.afterUser| > 0 && layout.afterUser[0] == ' ' && AllRegexSpace(layout.afterUser)
  }

  /** Fields that the pattern reads back unchanged: ASCII-digit pid, no space in type
      or user, a user that does not start with white space, a handle that does not
      start with white space and holds no ": ". */
  predicate WellFormed(h: HandleLine) {
    && AllDigits(h.pid)
    && (forall j :: 0 <= j < |h.kind| ==> h.kind[j] != ' ')
    && |h.user| > 0 && !IsRegexSpace(h.user[0])
    && (forall j :: 0 <= j < |h.user| ==> h.user[j] != ' ')
    && (h.handle == [] || !IsRegexSpace(h.handle[0]))
    && (forall j :: 0 <= j < |h.handle| ==> !IsAt(h.handle, j, ": "))
  }

  /** Where the groups of a rendered tail starting at t end. */
  function RenderedSplit(t: nat, layout: Layout, h: HandleLine): Split {
    var p1 := t + |h.kind|;
    var p2 := p1 + |layout.afterKind|;
    var p3 := p2 + |h.user|;
    var p4 := p3 + |layout.afterUser|;
    Split(p1, p2, p3, p4, p4 + |h.handle|)
  }

  /** The text after "type: " in a rendered line: the five pieces sit one after
      the other. */
  predicate TailLaidOut(line: string, t: nat, layout: Layout, h: HandleLine) {
    var sp := RenderedSplit(t, layout, h);
    && IsAt(line, t, h.kind) && IsAt(line, sp.kindEnd, layout.afterKind)
    && IsAt(line, sp.userStart, h.user) && IsAt(line, sp.userEnd, layout.afterUser)
    && IsAt(line, sp.handleStart, h.handle) && IsAt(line, sp.colon, ": ")
  }

  /** The greedy runs after "type: " end where the type, the white space after it,
      the user and the white space after that end. */
  lemma RenderedRuns(line: string, t: nat, layout: Layout, h: HandleLine)
    requires WellLaidOut(layout) && WellFormed(h) && TailLaidOut(line, t, layout, h)
    ensures var sp := RenderedSplit(t, layout, h);
            && NonBlankEnd(line, t) == sp.kindEnd && SpacesEnd(line, sp.kindEnd) == sp.userStart
            && NonBlankEnd(line, sp.userStart) == sp.userEnd && SpacesEnd(line, sp.userEnd) == sp.handleStart
  {
    var sp := RenderedSplit(t, layout, h);
    assert NonBlankEnd(line, t) == sp.kindEnd && SpacesEnd(line, sp.kindEnd) == sp.userStart by {
      IsAtIndex(line, sp.userStart, h.user);
      WordThenGap(line, t, h.kind, layout.afterKind);
    }
    assert NonBlankEnd(line, sp.userStart) == sp.userEnd && SpacesEnd(line, sp.userEnd) == sp.handleStart by {
      IsAtIndex(line, sp.handleStart, h.handle);
      IsAtPair(line, sp.colon, ':', ' ');
      WordThenGap(line, sp.userStart, h.user, layout.afterUser);
    }
  }

  /** The groups after "type: " split a rendered tail where it was put together:
      type, white space, user, white space, handle, ": ". */
  lemma RenderedTail(line: string, t: nat, layout: Layout, h: HandleLine)
    requires WellLaidOut(layout) && WellFormed(h) && TailLaidOut(line, t, layout, h)
    ensures TailSplit(line, t) == Some(RenderedSplit(t, layout, h))
  {
    var sp := RenderedSplit(t, layout, h);
    RenderedRuns(line, t, layout, h);
    SeparatorAfterHandle(line, sp.handleStart, h.handle);
    TailSplitIs(line, t, sp);
  }

  /** A word without spaces followed by white space that begins with a space, and
      then something other than white space: [^ ]* stops at the end of the word and
      \s* at the end of the white space. */
  lemma WordThenGap(line: string, i: nat, word: string, gap: string)
    requires IsAt(line, i, word) && IsAt(line, i + |word|, gap)
    requires forall j :: 0 <= j < |word| ==> word[j] != ' '
    requires |gap| > 0 && gap[0] == ' ' && AllRegexSpace(gap)
    requires i + |word| + |gap| == |line| || !IsRegexSpace(line[i + |word| + |gap|])
    ensures NonBlankEnd(line, i) == i + |word|
    ensures SpacesEnd(line, i + |word|) == i + |word| + |gap|
  {
    IsAtIndex(line, i, word);
    IsAtIndex(line, i + |word|, gap);
    NonBlankEndIs(line, i, i + |word|);
    SpacesEndIs(line, i + |word|, i + |word| + |gap|);
  }

  /** A handle holding no ": " is followed by the first ": " after its start. */
  lemma SeparatorAfterHandle(line: string, start: nat, handle: string)
    requires IsAt(line, start, handle) && IsAt(line, start + |handle|, ": ")
    requires forall j :: 0 <= j < |handle| ==> !IsAt(handle, j, ": ")
    ensures IndexOfFrom(line, ": ", start) == Some(start + |handle|)
  {
    var c := start + |handle|;
    IsAtIndex(line, start, handle);
    IsAtPair(line, c, ':', ' ');
    forall j | start <= j < c ensures !IsAt(line, j, ": ") {
      IsAtPair(line, j, ':', ' ');
      if j < c - 1 {
        IsAtPair(handle, j - start, ':', ' ');
        assert !IsAt(handle, j - start, ": ");
      }
    }
    IndexOfFromIs(line, ": ", start, c);
  }

  /** When the greedy runs end at sp's positions and the first ": " after them is at
      sp.colon, TailSplit picks sp. */
  lemma TailSplitIs(line: string, t: nat, sp: Split)
    requires t <= sp.kindEnd <= sp.userStart <= sp.userEnd <= sp.handleStart <= |line|
    requires NonBlankEnd(line, t) == sp.kindEnd && SpacesEnd(line, sp.kindEnd) == sp.userStart
    requires NonBlankEnd(line, sp.userStart) == sp.userEnd && SpacesEnd(line, sp.userEnd) == sp.handleStart
    requires IndexOfFrom(line, ": ", sp.handleStart) == Some(sp.colon)
    ensures TailSplit(line, t) == Some(sp)
  {
    IndexOfFromSpec(line, ": ", sp.handleStart);
    LastIndexOfSpec(line, ": ", t);
    var k := LastIndexOf(line, ": ", t).value;
    assert sp.colon <= k;
  }

  /** Where "type: " of a rendered line whose "pid: " is at n begins. */
  function TypeAt(n: nat, layout: Layout, h: HandleLine): nat {
    n + 5 + |h.pid| + |layout.afterPid|
  }

  /** The pieces of a rendered line sit one after the other from position n on. */
  predicate PiecesAt(line: string, n: nat, layout: Layout, h: HandleLine) {
    var w := TypeAt(n, layout, h);
    var c := RenderedSplit(w + 6, layout, h).colon;
    && IsAt(line, n, "pid: ") && IsAt(line, n + 5, h.pid) && IsAt(line, n + 5 + |h.pid|, layout.afterPid)
    && IsAt(line, w, "type: ") && TailLaidOut(line, w + 6, layout, h)
    && IsAt(line, c + 2, h.path) && |line| == c + 2 + |h.path|
  }

  /** Where the pieces of a rendered line sit. */
  lemma RenderedPieces(layout: Layout, h: HandleLine)
    ensures IsAt(Render(layout, h), 0, layout.column + "pid: ")
    ensures PiecesAt(Render(layout, h), |layout.column|, layout, h)
  {
  }

  /** The pid group takes all the digits, and \s* the white space after them. */
  lemma HeadRuns(line: string, p: nat, pid: string, gap: string)
    requires AllDigits(pid) && AllRegexSpace(gap)
    requires IsAt(line, p, pid) && IsAt(line, p + |pid|, gap) && IsAt(line, p + |pid| + |gap|, "type: ")
    ensures DigitsEnd(line, p) == p + |pid|
    ensures SpacesEnd(line, p + |pid|) == p + |pid| + |gap|
  {
    var d := p + |pid|;
    var w := d + |gap|;
    IsAtIndex(line, p, pid);
    IsAtIndex(line, d, gap);
    assert line[w] == 't' by {
      assert line[w + 0] == "type: "[0];
    }
    DigitsEndIs(line, p, d);
    SpacesEndIs(line, d, w);
  }

  /** MatchAfterPid, once its runs and its tail split are known. */
  lemma MatchAfterPidIs(line: string, p: nat, d: nat, w: nat, sp: Split)
    requires p <= d <= w <= |line|
    requires DigitsEnd(line, p) == d && SpacesEnd(line, d) == w && IsAt(line, w, "type: ")
    requires TailSplit(line, w + 6) == Some(sp)
    ensures MatchAfterPid(line, p) == Some(Groups(line, line[p..d], w + 6, sp))
  {
  }

  /** The groups of a rendered line are its fields. */
  lemma GroupsOfRendered(line: string, n: nat, layout: Layout, h: HandleLine)
    requires PiecesAt(line, n, layout, h)
    ensures InOrder(line, TypeAt(n, layout, h) + 6, RenderedSplit(TypeAt(n, layout, h) + 6, layout, h))
    ensures Groups(line, line[n + 5..n + 5 + |h.pid|], TypeAt(n, layout, h) + 6,
                   RenderedSplit(TypeAt(n, layout, h) + 6, layout, h)) == h
  {
    var t := TypeAt(n, layout, h) + 6;
    var sp := RenderedSplit(t, layout, h);
    IsAtSlice(line, n + 5, h.pid);
    IsAtSlice(line, t, h.kind);
    IsAtSlice(line, sp.userStart, h.user);
    IsAtSlice(line, sp.handleStart, h.handle);
    IsAtSlice(line, sp.colon + 2, h.path);
    assert line[sp.colon + 2..] == line[sp.colon + 2..sp.colon + 2 + |h.path|];
  }

  /** A match at n with no "pid: " before it is the match of the line. */
  lemma ParseLineAt(line: string, n: nat)
    requires forall j :: 0 <= j < n ==> !IsAt(line, j, "pid: ")
    requires MatchesAt(line, n)
    ensures ParseLine(line) == MatchAfterPid(line, n + 5)
  {
    var r := LeftmostMatch(line);
    assert r.Some?;
    assert r.value <= n;
    assert !IsAt(line, r.value, "pid: ") || r.value == n;
  }

  /** No "pid: " begins inside the column of a rendered line. */
  lemma ColumnHasNoPid(line: string, column: string)
    requires IsAt(line, 0, column + "pid: ")
    requires forall j :: 0 <= j < |column| ==> !IsAt(column + "pid: ", j, "pid: ")
    ensures forall j :: 0 <= j < |column| ==> !IsAt(line, j, "pid: ")
  {
    var prefix := column + "pid: ";
    forall j | 0 <= j < |column| ensures !IsAt(line, j, "pid: ") {
      IsAtInside(line, 0, prefix, j, "pid: ");
    }
  }

  /** What ParseLine reads of a line up to the tail: a "pid: " at n with none before
      it, the pid digits up to d, white space up to w, then "type: ". */
  predicate HeadFacts(line: string, n: nat, d: nat, w: nat) {
    && n + 5 <= d <= w && w + 6 <= |line|
    && DigitsEnd(line, n + 5) == d && SpacesEnd(line, d) == w && IsAt(line, w, "type: ")
    && IsAt(line, n, "pid: ") && forall j :: 0 <= j < n ==> !IsAt(line, j, "pid: ")
  }

  /** What MatchAfterPid reads of the tail: the split sp and the groups h. */
  predicate TailFacts(line: string, n: nat, d: nat, w: nat, sp: Split, h: HandleLine) {
    && n + 5 <= d <= w && w + 6 <= |line|
    && TailSplit(line, w + 6) == Some(sp)
    && Groups(line, line[n + 5..d], w + 6, sp) == h
  }

  lemma ParseFromFacts(line: string, n: nat, d: nat, w: nat, sp: Split, h: HandleLine)
    requires HeadFacts(line, n, d, w) && TailFacts(line, n, d, w, sp, h)
    ensures ParseLine(line) == Some(h)
  {
    MatchAfterPidIs(line, n + 5, d, w, sp);
    ParseLineAt(line, n);
  }

  lemma HeadFactsOfLaidOut(line: string, n: nat, layout: Layout, h: HandleLine)
    requires WellLaidOut(layout) && WellFormed(h) && PiecesAt(line, n, layout, h)
    requires forall j :: 0 <= j < n ==> !IsAt(line, j, "pid: ")
    ensures HeadFacts(line, n, n + 5 + |h.pid|, TypeAt(n, layout, h))
  {
    HeadRuns(line, n + 5, h.pid, layout.afterPid);
  }

  lemma TailFactsOfLaidOut(line: string, n: nat, layout: Layout, h: HandleLine)
    requires WellLaidOut(layout) && WellFormed(h) && PiecesAt(line, n, layout, h)
    ensures var w := TypeAt(n, layout, h);
            TailFacts(line, n, n + 5 + |h.pid|, w, RenderedSplit(w + 6, layout, h), h)
  {
    var w := TypeAt(n, layout, h);
    RenderedTail(line, w + 6, layout, h);
    GroupsOfRendered(line, n, layout, h);
  }

  /** A line whose pieces sit from position n on, with no "pid: " before n, parses
      into the fields it was built from. */
  lemma ParseLaidOut(line: string, n: nat, layout: Layout, h: HandleLine)
    requires WellLaidOut(layout) && WellFormed(h) && PiecesAt(line, n, layout, h)
    requires forall j :: 0 <= j < n ==> !IsAt(line, j, "pid: ")
    ensures ParseLine(line) == Some(h)
  {
    var w := TypeAt(n, layout, h);
    HeadFactsOfLaidOut(line, n, layout, h);
    TailFactsOfLaidOut(line, n, layout, h);
    ParseFromFacts(line, n, n + 5 + |h.pid|, w, RenderedSplit(w + 6, layout, h), h);
  }

  /** Parsing a rendered line gives back its five fields: the pattern splits the line
      where it was put together, whatever the padding and the process column. */
  lemma ParseRendered(layout: Layout, h: HandleLine)
    requires WellLaidOut(layout) && WellFormed(h)
    ensures ParseLine(Render(layout, h)) == Some(h)
  {
    RenderedPieces(layout, h);
    ColumnHasNoPid(Render(layout, h), layout.column);
    ParseLaidOut(Render(layout, h), |layout.column|, layout, h);
  }

  /** Every match has a "type: " with a ": " after it. */
  lemma MatchHasSeparator(line: string, i: nat) returns (w: nat, c: nat)
    requires MatchesAt(line, i)
    ensures IsAt(line, w, "type: ") && w + 6 <= c && IsAt(line, c, ": ")
  {
    w := SpacesEnd(line, DigitsEnd(line, i + 5));
    TailSplitValid(line, w + 6);
    c := TailSplit(line, w + 6).value.colon;
  }

  /** A line with no ": " anywhere after a "type: " never matches: the five-field
      pattern needs the "<handle>: " separator after the type field. */
  lemma NoHandleSeparatorNoMatch(line: string)
    requires forall i, j :: IsAt(line, i, "type: ") && i + 6 <= j ==> !IsAt(line, j, ": ")
    ensures ParseLine(line) == None
  {
    forall i: nat | MatchesAt(line, i) ensures false {
      var w, c := MatchHasSeparator(line, i);
    }
  }
}
