/**
 * The changelog manager: two text files in the working directory, the
 * cumulative log `Development.md` and the daily log `TodayDevelopment.md`,
 * and the step that records one commit message in them.
 *
 * A file is `None` when it does not exist and `Some(text)` otherwise. The
 * date is a parameter (the source reads the system clock). File operations
 * that may fail are named by `FileOp`; a run takes `fault`, the first file
 * operation that fails during it, if any. Since every failure is propagated
 * at once, that one operation decides the outcome; an operation that the run
 * does not reach does not fail.
 */
module LogManager {
  import opened Wrappers
  import opened Text

  /** The line `check_or_create_main_log_file` writes into a new cumulative log. */
  const MainTitle := "# 开发日志"

  /** The header line of a daily log for `date`. */
  function Header(date: string): string {
    "## " + date
  }

  /** What `writeln!(file, "{}. {}", n, msg)` writes: the entry number, ". ", the message verbatim, '\n'. */
  function EntryText(n: nat, msg: string): string {
    Itoa(n) + ". " + msg + "\n"
  }

  /** The whole text `create_today_log_file` writes. */
  function FreshLog(date: string, msg: string): string {
    Header(date) + "\n\n" + EntryText(1, msg)
  }

  /** The file operations of the changelog manager that can fail. */
  datatype FileOp =
    | CreateMain          // File::create of the cumulative log
    | WriteMainTitle      // writing its title line
    | CreateToday         // File::create of the daily log (truncates it)
    | WriteTodayHeader    // writing the "## date" line
    | WriteTodayBlank     // writing the blank line
    | WriteTodayEntry     // writing entry 1
    | OpenToday           // File::open of the daily log for the scan (fails when it is absent)
    | ReadTodayLine       // reading a line during the scan
    | OpenTodayAppend     // opening the daily log for appending
    | AppendTodayEntry    // appending the next entry
    | ReadTodayContent    // read_to_string of the daily log at rollover
    | OpenMainAppend      // opening the cumulative log for appending
    | AppendMainBlank     // appending the blank line
    | AppendMainContent   // appending the old daily log
    | CopyTodayToMain     // fs::copy of the daily log over a missing cumulative log

  /** The step of `update_log_files` whose context wraps a failure. */
  datatype Stage = MainLogStage | CreateTodayStage | UpdateTodayStage

  datatype LogError = LogError(stage: Stage, op: FileOp)

  /** The contents of the two files. */
  datatype Files = Files(main: Option<string>, today: Option<string>)

  predicate Fails(fault: Option<FileOp>, op: FileOp) {
    fault == Some(op)
  }

  // ---------------------------------------------------------------------
  // The scan of the daily log

  /** The first line that contains `pattern`, if any. */
  function FirstLineContaining(lines: seq<string>, pattern: string): (r: Option<nat>)
    ensures r.None? <==> forall i :: 0 <= i < |lines| ==> !Contains(lines[i], pattern)
    ensures r.Some? ==> r.value < |lines| && Contains(lines[r.value], pattern)
    ensures r.Some? ==> forall i :: 0 <= i < r.value ==> !Contains(lines[i], pattern)
  {
    if lines == [] then None
    else if Contains(lines[0], pattern) then Some(0)
    else match FirstLineContaining(lines[1..], pattern)
      case None => None
      case Some(k) => Some(k + 1)
  }

  /** A line that contains the pattern, with none before it, is the first such line. */
  lemma FirstLineAt(lines: seq<string>, pattern: string, k: nat)
    requires k < |lines| && Contains(lines[k], pattern)
    requires forall j :: 0 <= j < k ==> !Contains(lines[j], pattern)
    ensures FirstLineContaining(lines, pattern) == Some(k)
  {
  }

  /** The number of entry lines (lines whose trimmed form starts with a digit). */
  function CountEntries(lines: seq<string>): nat {
    if lines == [] then 0
    else CountEntries(lines[..|lines| - 1]) + (if IsEntryLine(lines[|lines| - 1]) then 1 else 0)
  }

  lemma CountEntriesExtend(lines: seq<string>, lo: nat, hi: nat)
    requires lo <= hi < |lines|
    ensures CountEntries(lines[lo..hi + 1]) == CountEntries(lines[lo..hi]) + (if IsEntryLine(lines[hi]) then 1 else 0)
  {
    assert lines[lo..hi + 1][..hi - lo] == lines[lo..hi];
  }

  /**
   * What `check_log_file_date` computes from the daily log's lines: whether
   * some line contains the header for `date`, and the number of entry lines
   * from the first such line (included) to the end; 0 when there is none.
   */
  function Scan(lines: seq<string>, date: string): (bool, nat) {
    match FirstLineContaining(lines, Header(date))
    case None => (false, 0)
    case Some(k) => (true, CountEntries(lines[k..]))
  }

  /** `check_log_file_date` on the daily log `today`: the open or a line read may fail. */
  function ScanStep(today: Option<string>, date: string, fault: Option<FileOp>): Result<(bool, nat), FileOp> {
    if today.None? || Fails(fault, OpenToday) then Err(OpenToday)
    else if Lines(today.value) != [] && Fails(fault, ReadTodayLine) then Err(ReadTodayLine)
    else Ok(Scan(Lines(today.value), date))
  }

  // ---------------------------------------------------------------------
  // The steps as functions of the file contents

  /** `check_or_create_main_log_file`. */
  function EnsureMainStep(f: Files, fault: Option<FileOp>): (Files, Result<(), FileOp>) {
    if f.main.Some? then (f, Ok(()))
    else if Fails(fault, CreateMain) then (f, Err(CreateMain))
    else if Fails(fault, WriteMainTitle) then (f.(main := Some("")), Err(WriteMainTitle))
    else (f.(main := Some(MainTitle + "\n")), Ok(()))
  }

  /** `create_today_log_file`: the daily log is truncated and rewritten line by line. */
  function CreateTodayStep(f: Files, date: string, msg: string, fault: Option<FileOp>): (Files, Result<(), FileOp>) {
    if Fails(fault, CreateToday) then (f, Err(CreateToday))
    else if Fails(fault, WriteTodayHeader) then (f.(today := Some("")), Err(WriteTodayHeader))
    else if Fails(fault, WriteTodayBlank) then (f.(today := Some(Header(date) + "\n")), Err(WriteTodayBlank))
    else if Fails(fault, WriteTodayEntry) then (f.(today := Some(Header(date) + "\n\n")), Err(WriteTodayEntry))
    else (f.(today := Some(FreshLog(date, msg))), Ok(()))
  }

  /** `update_today_log_file`: append the next entry on the same day, otherwise roll over. */
  function UpdateTodayStep(f: Files, date: string, msg: string, fault: Option<FileOp>): (Files, Result<(), FileOp>) {
    match ScanStep(f.today, date, fault)
    case Err(op) => (f, Err(op))
    case Ok((dateMatch, logCount)) =>
      var daily := f.today.value;
      if dateMatch then
        if Fails(fault, OpenTodayAppend) then (f, Err(OpenTodayAppend))
        else if Fails(fault, AppendTodayEntry) then (f, Err(AppendTodayEntry))
        else (f.(today := Some(daily + EntryText(logCount + 1, msg))), Ok(()))
      else if f.main.Some? then
        if Fails(fault, ReadTodayContent) then (f, Err(ReadTodayContent))
        else if Fails(fault, OpenMainAppend) then (f, Err(OpenMainAppend))
        else if Fails(fault, AppendMainBlank) then (f, Err(AppendMainBlank))
        else if Fails(fault, AppendMainContent) then (f.(main := Some(f.main.value + "\n")), Err(AppendMainContent))
        else CreateTodayStep(f.(main := Some(f.main.value + "\n" + daily)), date, msg, fault)
      else if Fails(fault, CopyTodayToMain) then (f, Err(CopyTodayToMain))
      else CreateTodayStep(f.(main := Some(daily)), date, msg, fault)
  }

  function InStage<T>(r: Result<T, FileOp>, stage: Stage): Result<(), LogError> {
    if r.Err? then Err(LogError(stage, r.error)) else Ok(())
  }

  /** `update_log_files`: ensure the cumulative log, then create or update the daily log. */
  function UpdateStep(f: Files, date: string, msg: string, fault: Option<FileOp>): (Files, Result<(), LogError>) {
    var (f1, r1) := EnsureMainStep(f, fault);
    if r1.Err? then (f1, InStage(r1, MainLogStage))
    else if f1.today.None? then
      var (f2, r2) := CreateTodayStep(f1, date, msg, fault);
      (f2, InStage(r2, CreateTodayStage))
    else
      var (f2, r2) := UpdateTodayStep(f1, date, msg, fault);
      (f2, InStage(r2, UpdateTodayStage))
  }

  // ---------------------------------------------------------------------
  // The two files as mutable state

  class LogFiles {
    /** `Development.md`. */
    var main: Option<string>
    /** `TodayDevelopment.md`. */
    var today: Option<string>

    constructor (main: Option<string>, today: Option<string>)
      ensures this.main == main && this.today == today
    {
      this.main := main;
      this.today := today;
    }

    function State(): Files
      reads this
    {
      Files(main, today)
    }

    method CheckOrCreateMainLogFile(fault: Option<FileOp>) returns (r: Result<(), FileOp>)
      modifies this
      ensures (State(), r) == EnsureMainStep(old(State()), fault)
    {
      if main.None? {
        if Fails(fault, CreateMain) { return Err(CreateMain); }
        main := Some("");
        if Fails(fault, WriteMainTitle) { return Err(WriteMainTitle); }
        assert main.value + MainTitle + "\n" == MainTitle + "\n";
        main := Some(main.value + MainTitle + "\n");
      }
      return Ok(());
    }

    method CreateTodayLogFile(date: string, msg: string, fault: Option<FileOp>) returns (r: Result<(), FileOp>)
      modifies this
      ensures (State(), r) == CreateTodayStep(old(State()), date, msg, fault)
    {
      if Fails(fault, CreateToday) { return Err(CreateToday); }
      today := Some("");
      if Fails(fault, WriteTodayHeader) { return Err(WriteTodayHeader); }
      assert today.value + Header(date) + "\n" == Header(date) + "\n";
      today := Some(today.value + Header(date) + "\n");
      if Fails(fault, WriteTodayBlank) { return Err(WriteTodayBlank); }
      assert today.value + "\n" == Header(date) + "\n\n";
      today := Some(today.value + "\n");
      if Fails(fault, WriteTodayEntry) { return Err(WriteTodayEntry); }
      today := Some(today.value + EntryText(1, msg));
      return Ok(());
    }

    /** Reads the daily log line by line, keeping the two accumulators of the source. */
    method CheckLogFileDate(date: string, fault: Option<FileOp>) returns (r: Result<(bool, nat), FileOp>)
      ensures r == ScanStep(today, date, fault)
    {
      if today.None? || Fails(fault, OpenToday) { return Err(OpenToday); }
      var lines := Lines(today.value);
      var header := Header(date);
      var dateMatch := false;
      var logCount := 0;
      ghost var first: nat := 0;
      var i := 0;
      while i < |lines|
        invariant first <= i <= |lines|
        invariant i > 0 ==> !Fails(fault, ReadTodayLine)
        invariant !dateMatch ==> logCount == 0 && forall j :: 0 <= j < i ==> !Contains(lines[j], header)
        invariant dateMatch ==> first < i && Contains(lines[first], header)
        invariant dateMatch ==> forall j :: 0 <= j < first ==> !Contains(lines[j], header)
        invariant dateMatch ==> logCount == CountEntries(lines[first..i])
      {
        if Fails(fault, ReadTodayLine) { return Err(ReadTodayLine); }
        var line := lines[i];
        if !dateMatch && Contains(line, header) {
          dateMatch := true;
          first := i;
        }
        if dateMatch { CountEntriesExtend(lines, first, i); }
        if dateMatch && IsEntryLine(line) {
          logCount := logCount + 1;
        }
        i := i + 1;
      }
      if dateMatch {
        assert lines[first..i] == lines[first..];
        FirstLineAt(lines, header, first);
      }
      return Ok((dateMatch, logCount));
    }

    method UpdateTodayLogFile(date: string, msg: string, fault: Option<FileOp>) returns (r: Result<(), FileOp>)
      modifies this
      ensures (State(), r) == UpdateTodayStep(old(State()), date, msg, fault)
    {
      var scan := CheckLogFileDate(date, fault);
      if scan.Err? { return Err(scan.error); }
      var (dateMatch, logCount) := scan.value;
      if dateMatch {
        if Fails(fault, OpenTodayAppend) { return Err(OpenTodayAppend); }
        if Fails(fault, AppendTodayEntry) { return Err(AppendTodayEntry); }
        today := Some(today.value + EntryText(logCount + 1, msg));
        return Ok(());
      }
      if main.Some? {
        if Fails(fault, ReadTodayContent) { return Err(ReadTodayContent); }
        var content := today.value;
        if Fails(fault, OpenMainAppend) { return Err(OpenMainAppend); }
        if Fails(fault, AppendMainBlank) { return Err(AppendMainBlank); }
        main := Some(main.value + "\n");
        if Fails(fault, AppendMainContent) { return Err(AppendMainContent); }
        main := Some(main.value + content);
      } else {
        if Fails(fault, CopyTodayToMain) { return Err(CopyTodayToMain); }
        main := today;
      }
      r := CreateTodayLogFile(date, msg, fault);
    }

    /** Records `msg` (the final commit message) for the day `date`. */
    method UpdateLogFiles(date: string, msg: string, fault: Option<FileOp>) returns (r: Result<(), LogError>)
      modifies this
      ensures (State(), r) == UpdateStep(old(State()), date, msg, fault)
    {
      var m := CheckOrCreateMainLogFile(fault);
      if m.Err? { return Err(LogError(MainLogStage, m.error)); }
      if today.None? {
        var c := CreateTodayLogFile(date, msg, fault);
        if c.Err? { return Err(LogError(CreateTodayStage, c.error)); }
      } else {
        var u := UpdateTodayLogFile(date, msg, fault);
        if u.Err? { return Err(LogError(UpdateTodayStage, u.error)); }
      }
      return Ok(());
    }
  }
}
