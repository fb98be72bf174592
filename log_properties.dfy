/**
 * What the changelog manager guarantees: the shape of a new daily log, the
 * idempotence of creating the cumulative log, same-day appends, rollover,
 * the numbering of a day's entries, and how a failing file operation stops
 * the run.
 */
module LogProperties {
  import opened Wrappers
  import opened Text
  import opened LogManager

  /** A date as `get_today` formats it, `%Y/%m/%d` for a four-digit year. */
  predicate IsDate(d: string) {
    |d| == 10 && forall j :: 0 <= j < 10 ==> if j == 4 || j == 7 then d[j] == '/' else IsAsciiDigit(d[j])
  }

  /**
   * A message none of whose continuation lines (the lines after its first
   * one) would be read back as a new entry.
   */
  predicate SafeMessage(msg: string) {
    var ls := Lines(msg + "\n");
    forall i :: 1 <= i < |ls| ==> !IsEntryLine(ls[i])
  }

  /** The entries of one day, the i-th message numbered i + 1. */
  function Entries(msgs: seq<string>): string {
    if msgs == [] then "" else Entries(msgs[..|msgs| - 1]) + EntryText(|msgs|, msgs[|msgs| - 1])
  }

  /** The daily log after recording `msgs` in order on `date`. */
  function DayLog(date: string, msgs: seq<string>): string {
    Header(date) + "\n\n" + Entries(msgs)
  }

  /** The files after one fault-free `update_log_files` call per message, in order, all on `date`. */
  function RecordAll(f: Files, date: string, msgs: seq<string>): Files {
    if msgs == [] then f else UpdateStep(RecordAll(f, date, msgs[..|msgs| - 1]), date, msgs[|msgs| - 1], None).0
  }

  /** The cumulative log once it is ensured without failure. */
  function EnsuredMain(main: Option<string>): Option<string> {
    if main.Some? then main else Some(MainTitle + "\n")
  }

  // ---------------------------------------------------------------------
  // Single calls

  /**
   * The scan reports a match exactly when some line contains today's
   * header; it then counts the entry lines from the first such line on, and
   * otherwise counts nothing.
   */
  lemma ScanMeaning(lines: seq<string>, date: string)
    ensures Scan(lines, date).0 <==> exists i :: 0 <= i < |lines| && Contains(lines[i], Header(date))
    ensures !Scan(lines, date).0 ==> Scan(lines, date).1 == 0
    ensures Scan(lines, date).0 ==>
      exists k :: 0 <= k < |lines| && Contains(lines[k], Header(date))
        && (forall j :: 0 <= j < k ==> !Contains(lines[j], Header(date)))
        && Scan(lines, date).1 == CountEntries(lines[k..])
    ensures Scan(lines, date).1 <= |lines|
  {
    var r := FirstLineContaining(lines, Header(date));
    if r.Some? {
      CountEntriesAtMost(lines[r.value..]);
    }
  }

  /** At most every line is an entry. */
  lemma {:induction false} CountEntriesAtMost(lines: seq<string>)
    ensures CountEntries(lines) <= |lines|
  {
    if lines != [] {
      CountEntriesAtMost(lines[..|lines| - 1]);
    }
  }

  /** Without a daily log, the call creates it as the header, a blank line and entry 1. */
  lemma CreateWhenAbsent(f: Files, date: string, msg: string)
    requires f.today.None?
    ensures UpdateStep(f, date, msg, None) == (Files(EnsuredMain(f.main), Some("## " + date + "\n\n1. " + msg + "\n")), Ok(()))
  {
    assert Itoa(1) == "1";
    assert FreshLog(date, msg) == "## " + date + "\n\n1. " + msg + "\n";
  }

  /** Ensuring the cumulative log creates it with its title once and never alters an existing one. */
  lemma EnsureMainIdempotent(f: Files, fault: Option<FileOp>)
    ensures f.main.Some? ==> EnsureMainStep(f, fault) == (f, Ok(()))
    ensures EnsureMainStep(f, None) == (f.(main := EnsuredMain(f.main)), Ok(()))
    ensures var g := EnsureMainStep(f, None).0; EnsureMainStep(g, fault) == (g, Ok(()))
  {
  }

  /**
   * On the same day the next entry, numbered one past the count, is
   * appended; the cumulative log is kept, or created with its title when it
   * was missing.
   */
  lemma SameDayAppend(f: Files, date: string, msg: string)
    requires f.today.Some?
    requires Scan(Lines(f.today.value), date).0
    ensures UpdateStep(f, date, msg, None)
         == (Files(EnsuredMain(f.main), Some(f.today.value + EntryText(Scan(Lines(f.today.value), date).1 + 1, msg))), Ok(()))
  {
    var s := Scan(Lines(f.today.value), date);
    var f1 := f.(main := EnsuredMain(f.main));
    assert EnsureMainStep(f, None) == (f1, Ok(()));
    assert ScanStep(f1.today, date, None) == Ok(s);
    assert UpdateTodayStep(f1, date, msg, None) == (f1.(today := Some(f.today.value + EntryText(s.1 + 1, msg))), Ok(()));
  }

  /**
   * On another day the old daily log goes, after one blank line, to the end
   * of the cumulative log (created with its title first when it was
   * missing); a new daily log starts.
   */
  lemma Rollover(f: Files, date: string, msg: string)
    requires f.today.Some?
    requires !Scan(Lines(f.today.value), date).0
    ensures UpdateStep(f, date, msg, None)
         == (Files(Some(EnsuredMain(f.main).value + "\n" + f.today.value), Some(FreshLog(date, msg))), Ok(()))
    ensures var main := EnsuredMain(f.main).value;
            var archived := UpdateStep(f, date, msg, None).0.main.value;
            archived[..|main|] == main && archived[|archived| - |f.today.value|..] == f.today.value
  {
    var main := EnsuredMain(f.main).value;
    var f1 := f.(main := EnsuredMain(f.main));
    assert EnsureMainStep(f, None) == (f1, Ok(()));
    assert ScanStep(f1.today, date, None) == Ok(Scan(Lines(f.today.value), date));
    var archived := main + "\n" + f.today.value;
    assert archived[..|main|] == main;
    assert archived[|archived| - |f.today.value|..] == f.today.value;
  }

  /** Rolling over without a cumulative log copies the daily log into it. */
  lemma RolloverWithoutMain(f: Files, date: string, msg: string)
    requires f.main.None? && f.today.Some?
    requires !Scan(Lines(f.today.value), date).0
    ensures UpdateTodayStep(f, date, msg, None) == (Files(f.today, Some(FreshLog(date, msg))), Ok(()))
  {
  }

  /** Inside `update_log_files` the copy is never reached: a failing copy changes nothing. */
  lemma CopyUnreachable(f: Files, date: string, msg: string)
    ensures UpdateStep(f, date, msg, Some(CopyTodayToMain)) == UpdateStep(f, date, msg, None)
  {
    var f1 := EnsureMainStep(f, None).0;
    assert EnsureMainStep(f, Some(CopyTodayToMain)) == EnsureMainStep(f, None);
    if f1.today.Some? {
      CopyNotInUpdate(f1, date, msg);
    } else {
      assert CreateTodayStep(f1, date, msg, Some(CopyTodayToMain)) == CreateTodayStep(f1, date, msg, None);
    }
  }

  /** With a cumulative log present, updating the daily log never copies it. */
  lemma CopyNotInUpdate(f: Files, date: string, msg: string)
    requires f.main.Some? && f.today.Some?
    ensures UpdateTodayStep(f, date, msg, Some(CopyTodayToMain)) == UpdateTodayStep(f, date, msg, None)
  {
    var s := ScanStep(f.today, date, None);
    assert ScanStep(f.today, date, Some(CopyTodayToMain)) == s;
    if s.Ok? && !s.value.0 {
      var archived := f.(main := Some(f.main.value + "\n" + f.today.value));
      assert CreateTodayStep(archived, date, msg, Some(CopyTodayToMain)) == CreateTodayStep(archived, date, msg, None);
    }
  }

  /**
   * A call fails exactly when the faulty operation is reached, and it
   * reports that operation; a fault the call does not reach changes
   * nothing; a failure to ensure the cumulative log leaves the daily log
   * untouched.
   */
  lemma FailureIsTheFault(f: Files, date: string, msg: string, fault: Option<FileOp>)
    ensures fault.None? ==> UpdateStep(f, date, msg, fault).1.Ok?
    ensures var r := UpdateStep(f, date, msg, fault).1; r.Err? ==> fault == Some(r.error.op)
    ensures var (g, r) := UpdateStep(f, date, msg, fault); r.Ok? ==> (g, r) == UpdateStep(f, date, msg, None)
    ensures var (g, r) := UpdateStep(f, date, msg, fault); r.Err? && r.error.stage == MainLogStage ==> g.today == f.today
  {
    EnsureMainFault(f, fault);
    var (f1, r1) := EnsureMainStep(f, fault);
    if r1.Ok? {
      if f1.today.None? {
        CreateTodayFault(f1, date, msg, fault);
      } else {
        UpdateTodayFault(f1, date, msg, fault);
      }
    }
  }

  /** The operations of `update_today_log_file` whose failure leaves nothing written: the scan, the append's open and write, and the archive's steps before its content write. */
  predicate BeforeUpdateWrite(op: FileOp) {
    op in {OpenToday, ReadTodayLine, OpenTodayAppend, AppendTodayEntry,
           ReadTodayContent, OpenMainAppend, AppendMainBlank, CopyTodayToMain}
  }

  /**
   * Nothing is written after the failing operation: a failure before any
   * write of the update stage leaves the files as ensuring the cumulative
   * log left them, and a failure while creating the daily log leaves the
   * cumulative log as ensured.
   */
  lemma NoWriteAfterFailure(f: Files, date: string, msg: string, fault: Option<FileOp>)
    ensures var (g, r) := UpdateStep(f, date, msg, fault);
            r.Err? && BeforeUpdateWrite(r.error.op) ==> g == EnsureMainStep(f, None).0
    ensures var (g, r) := UpdateStep(f, date, msg, fault);
            r.Err? && r.error.stage == CreateTodayStage ==> g.main == EnsuredMain(f.main)
  {
    EnsureMainFault(f, fault);
    var (f1, r1) := EnsureMainStep(f, fault);
    if r1.Ok? {
      if f1.today.None? {
        CreateTodayFault(f1, date, msg, fault);
      } else {
        UpdateTodayFault(f1, date, msg, fault);
      }
    }
  }

  /** Ensuring the cumulative log fails only at its own operations, and otherwise does what it does without a fault. */
  lemma EnsureMainFault(f: Files, fault: Option<FileOp>)
    ensures var (g, r) := EnsureMainStep(f, fault);
            (r.Err? ==> fault == Some(r.error) && r.error in {CreateMain, WriteMainTitle} && g.today == f.today)
            && (r.Ok? ==> (g, r) == EnsureMainStep(f, None))
  {
  }

  /** Creating the daily log fails only at the reported fault, never touches the cumulative log, and otherwise does what it does without a fault. */
  lemma CreateTodayFault(f: Files, date: string, msg: string, fault: Option<FileOp>)
    ensures var (g, r) := CreateTodayStep(f, date, msg, fault);
            (r.Err? ==> fault == Some(r.error) && r.error in {CreateToday, WriteTodayHeader, WriteTodayBlank, WriteTodayEntry}
                        && g.main == f.main)
            && (r.Ok? ==> (g, r) == CreateTodayStep(f, date, msg, None))
  {
  }

  /**
   * The scan fails at opening or reading the daily log; when the log exists
   * it fails only at the reported fault, and otherwise gives what it gives
   * without a fault.
   */
  lemma ScanFault(today: Option<string>, date: string, fault: Option<FileOp>)
    ensures var r := ScanStep(today, date, fault);
            (r.Err? ==> r.error in {OpenToday, ReadTodayLine})
            && (r.Err? && today.Some? ==> fault == Some(r.error))
            && (r.Ok? ==> r == ScanStep(today, date, None))
  {
  }

  /**
   * Updating the daily log fails only at the reported fault; a failure
   * before its first write leaves both files alone; and without a failure
   * it does what it does without a fault.
   */
  lemma UpdateTodayFault(f: Files, date: string, msg: string, fault: Option<FileOp>)
    requires f.today.Some?
    ensures var (g, r) := UpdateTodayStep(f, date, msg, fault);
            (r.Err? ==> fault == Some(r.error))
            && (r.Err? && BeforeUpdateWrite(r.error) ==> g == f)
            && (r.Ok? ==> (g, r) == UpdateTodayStep(f, date, msg, None))
  {
    ScanFault(f.today, date, fault);
    var s := ScanStep(f.today, date, fault);
    if s.Ok? && !s.value.0 {
      if f.main.Some? {
        CreateTodayFault(f.(main := Some(f.main.value + "\n" + f.today.value)), date, msg, fault);
      } else {
        CreateTodayFault(f.(main := Some(f.today.value)), date, msg, fault);
      }
    }
  }

  /** A failure while archiving into the (ensured) cumulative log leaves the daily log in place. */
  lemma FailedArchiveKeepsDaily(f: Files, date: string, msg: string, op: FileOp)
    requires f.today.Some?
    requires !Scan(Lines(f.today.value), date).0
    requires op in {ReadTodayContent, OpenMainAppend, AppendMainBlank, AppendMainContent}
    ensures UpdateStep(f, date, msg, Some(op)).0.today == f.today
    ensures UpdateStep(f, date, msg, Some(op)).1 == Err(LogError(UpdateTodayStage, op))
    ensures op != AppendMainContent ==> UpdateStep(f, date, msg, Some(op)).0.main == EnsuredMain(f.main)
    ensures op == AppendMainContent ==> UpdateStep(f, date, msg, Some(op)).0.main == Some(EnsuredMain(f.main).value + "\n")
  {
  }

  /**
   * The rollover is two separate writes: when creating the new daily log
   * fails after the archive, a retry archives the same day a second time.
   */
  lemma RetryAfterInterruptedRollover(f: Files, date: string, msg: string)
    requires f.today.Some?
    requires !Scan(Lines(f.today.value), date).0
    ensures var main := EnsuredMain(f.main).value;
            var (g, r) := UpdateStep(f, date, msg, Some(CreateToday));
            r == Err(LogError(UpdateTodayStage, CreateToday))
            && g == Files(Some(main + "\n" + f.today.value), f.today)
            && UpdateStep(g, date, msg, None).0
               == Files(Some(main + "\n" + f.today.value + "\n" + f.today.value), Some(FreshLog(date, msg)))
  {
    var g := Files(Some(EnsuredMain(f.main).value + "\n" + f.today.value), f.today);
    Rollover(g, date, msg);
  }

  // ---------------------------------------------------------------------
  // A day's log read back

  lemma CountEntriesConcat(a: seq<string>, b: seq<string>)
    ensures CountEntries(a + b) == CountEntries(a) + CountEntries(b)
    decreases |b|
  {
    if b != [] {
      assert (a + b)[..|a + b| - 1] == a + b[..|b| - 1];
      CountEntriesConcat(a, b[..|b| - 1]);
    } else {
      assert a + b == a;
    }
  }

  lemma {:induction false} CountEntriesNone(lines: seq<string>)
    requires forall i :: 0 <= i < |lines| ==> !IsEntryLine(lines[i])
    ensures CountEntries(lines) == 0
  {
    if lines != [] {
      CountEntriesNone(lines[..|lines| - 1]);
    }
  }

  /** The header line of a dated log reads back as itself and is not an entry. */
  lemma HeaderLine(date: string)
    requires IsDate(date)
    ensures Lines(Header(date) + "\n") == [Header(date)]
    ensures !IsEntryLine(Header(date))
    ensures Contains(Header(date), Header(date))
  {
    var h := Header(date);
    forall j | 0 <= j < |h| ensures h[j] != '\n' {
      if j >= 3 { assert h[j] == date[j - 3]; }
    }
    NoBreakByChars(h);
    LineRoundTrip(h);
    assert h[|h| - 1] == date[9];
    EntryLineByFirstChar(h);
    assert h <= h[0..];
  }

  /** A written entry of a safe message reads back as exactly one entry line. */
  lemma EntryReadsAsOne(n: nat, msg: string)
    requires SafeMessage(msg)
    ensures Lines(EntryText(n, msg)) != []
    ensures CountEntries(Lines(EntryText(n, msg))) == 1
  {
    var p := Itoa(n) + ". ";
    var s := msg + "\n";
    assert EntryText(n, msg) == p + s;
    forall j | 0 <= j < |p| ensures p[j] != '\n' {
      if j < |Itoa(n)| { assert IsAsciiDigit(p[j]); }
    }
    NoBreakByChars(p);
    LinesPrefix(p, s);
    var first := p + Lines(s)[0];
    var rest := Lines(s)[1..];
    assert first[0] == Itoa(n)[0];
    EntryLineByFirstChar(first);
    forall i | 0 <= i < |rest| ensures !IsEntryLine(rest[i]) {
      assert rest[i] == Lines(s)[i + 1];
    }
    CountEntriesNone(rest);
    CountEntriesConcat([first], rest);
    assert CountEntries([first]) == 1 by {
      assert [first][..0] == [];
    }
  }

  /** The entries of safe messages read back as one entry line each. */
  lemma {:induction false} EntriesReadBack(msgs: seq<string>)
    requires forall i :: 0 <= i < |msgs| ==> SafeMessage(msgs[i])
    ensures Entries(msgs) == [] || Entries(msgs)[|Entries(msgs)| - 1] == '\n'
    ensures CountEntries(Lines(Entries(msgs))) == |msgs|
  {
    if msgs != [] {
      var init := msgs[..|msgs| - 1];
      var last := msgs[|msgs| - 1];
      EntriesReadBack(init);
      var e := EntryText(|msgs|, last);
      LinesConcat(Entries(init), e);
      EntryReadsAsOne(|msgs|, last);
      CountEntriesConcat(Lines(Entries(init)), Lines(e));
    }
  }

  /** A day's log reads as its header, a blank line and the lines of its entries. */
  lemma DayLogLines(date: string, msgs: seq<string>)
    requires IsDate(date)
    ensures Lines(DayLog(date, msgs)) == [Header(date), ""] + Lines(Entries(msgs))
  {
    var h := Header(date);
    var e := Entries(msgs);
    assert DayLog(date, msgs) == (h + "\n") + ("\n" + e);
    HeaderLine(date);
    LinesConcat(h + "\n", "\n" + e);
    LineRoundTrip("");
    assert "" + "\n" == "\n";
    LinesConcat("\n", e);
  }

  /** Scanning a day's log on its own day finds the header and one entry per message. */
  lemma DayLogScan(date: string, msgs: seq<string>)
    requires IsDate(date)
    requires forall i :: 0 <= i < |msgs| ==> SafeMessage(msgs[i])
    ensures Scan(Lines(DayLog(date, msgs)), date) == (true, |msgs|)
  {
    var lines := Lines(DayLog(date, msgs));
    DayLogLines(date, msgs);
    HeaderLine(date);
    assert FirstLineContaining(lines, Header(date)) == Some(0);
    assert lines[0..] == lines;
    EntriesReadBack(msgs);
    CountEntriesNone([Header(date), ""]);
    CountEntriesConcat([Header(date), ""], Lines(Entries(msgs)));
  }

  // ---------------------------------------------------------------------
  // Several calls

  /** One more same-day call appends the next numbered entry to a day's log. */
  lemma NextEntry(g: Files, date: string, msgs: seq<string>, msg: string)
    requires g.today == Some(DayLog(date, msgs))
    requires IsDate(date)
    requires forall i :: 0 <= i < |msgs| ==> SafeMessage(msgs[i])
    ensures UpdateStep(g, date, msg, None).0 == Files(EnsuredMain(g.main), Some(DayLog(date, msgs + [msg])))
  {
    assert Scan(Lines(DayLog(date, msgs)), date) == (true, |msgs|) by {
      DayLogScan(date, msgs);
    }
    SameDayAppend(g, date, msg);
    DayLogAppend(date, msgs, msg);
  }

  /** A day's log with one more message is the old one with the next entry after it. */
  lemma DayLogAppend(date: string, msgs: seq<string>, msg: string)
    ensures DayLog(date, msgs + [msg]) == DayLog(date, msgs) + EntryText(|msgs| + 1, msg)
  {
    var m := msgs + [msg];
    assert m[..|m| - 1] == msgs;
    assert Entries(m) == Entries(msgs) + EntryText(|msgs| + 1, msg);
  }

  /**
   * Recording N safe messages on one day, starting without a daily log,
   * numbers them 1..N in call order, and the scan then counts N entries.
   */
  lemma {:induction false} SameDayNumbering(f: Files, date: string, msgs: seq<string>)
    requires f.today.None? && msgs != []
    requires IsDate(date)
    requires forall i :: 0 <= i < |msgs| ==> SafeMessage(msgs[i])
    ensures RecordAll(f, date, msgs) == Files(EnsuredMain(f.main), Some(DayLog(date, msgs)))
    ensures Scan(Lines(DayLog(date, msgs)), date) == (true, |msgs|)
  {
    var init := msgs[..|msgs| - 1];
    var last := msgs[|msgs| - 1];
    assert RecordAll(f, date, msgs) == Files(EnsuredMain(f.main), Some(DayLog(date, msgs))) by {
      assert msgs == init + [last];
      var g := RecordAll(f, date, init);
      assert RecordAll(f, date, msgs) == UpdateStep(g, date, last, None).0;
      if init == [] {
        FirstRecord(f, date, last);
        assert msgs == [last];
      } else {
        forall i | 0 <= i < |init| ensures SafeMessage(init[i]) {
          assert init[i] == msgs[i];
        }
        SameDayNumbering(f, date, init);
        NextEntry(g, date, init, last);
      }
    }
    DayLogScan(date, msgs);
  }

  /** The first call of a day without a daily log starts the day's log with the first entry. */
  lemma FirstRecord(f: Files, date: string, msg: string)
    requires f.today.None?
    ensures UpdateStep(f, date, msg, None).0 == Files(EnsuredMain(f.main), Some(DayLog(date, [msg])))
  {
    CreateWhenAbsent(f, date, msg);
    assert Entries([msg]) == EntryText(1, msg) by {
      assert [msg][..0] == [];
    }
  }

  /** The header of one date does not contain the header of another. */
  lemma OtherHeader(day: string, next: string)
    requires IsDate(day) && IsDate(next) && day != next
    ensures !Contains(Header(day), Header(next))
  {
    ContainsSameLength(Header(day), Header(next));
    assert Header(day)[3..] == day;
  }

  /** No line read from a text contains a pattern the text does not contain. */
  lemma NoLineContains(e: string, h: string)
    requires !Contains(e, h)
    ensures forall i :: 0 <= i < |Lines(e)| ==> !Contains(Lines(e)[i], h)
  {
    forall i | 0 <= i < |Lines(e)| ensures !Contains(Lines(e)[i], h) {
      if Contains(Lines(e)[i], h) {
        LineOccurrenceInText(e, i, h);
      }
    }
  }

  /** A day's log whose entries do not mention the header of another date is not found by a scan for that date. */
  lemma OtherDayNotFound(day: string, next: string, msgs: seq<string>)
    requires IsDate(day) && IsDate(next) && day != next
    requires !Contains(Entries(msgs), Header(next))
    ensures !Scan(Lines(DayLog(day, msgs)), next).0
  {
    var h := Header(next);
    var rest := Lines(Entries(msgs));
    DayLogLines(day, msgs);
    OtherHeader(day, next);
    NoLineContains(Entries(msgs), h);
    assert !Contains("", h) by {
      assert |h| > 0;
    }
    var lines := [Header(day), ""] + rest;
    forall i | 0 <= i < |lines| ensures !Contains(lines[i], h) {
      if i >= 2 {
        assert lines[i] == rest[i - 2];
      }
    }
  }

  /**
   * On a new date, a log of an earlier day whose entries do not mention the
   * new header is archived and replaced.
   */
  lemma NewDayRollsOver(f: Files, day: string, next: string, msgs: seq<string>, msg: string)
    requires f.today == Some(DayLog(day, msgs))
    requires IsDate(day) && IsDate(next) && day != next
    requires !Contains(Entries(msgs), Header(next))
    ensures UpdateStep(f, next, msg, None)
         == (Files(Some(EnsuredMain(f.main).value + "\n" + DayLog(day, msgs)), Some(FreshLog(next, msg))), Ok(()))
  {
    OtherDayNotFound(day, next, msgs);
    Rollover(f, next, msg);
  }
}
