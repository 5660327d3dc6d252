/** The memory errors reported by `ras-mc-ctl --errors` (error.cc) and their selection by time (host_backend.cc). */
module RasErrors {
  import opened Options
  import opened Text
  import opened HwInfo

  /** What the record pattern and the time format read from a line; `word` is the type of the error. */
  datatype Record = Record(seconds: int, count: int, word: string, label_: string)

  /** The record pattern: None when a line does not match it or its timestamp does not parse. */
  type Pattern = string -> Option<Record>

  datatype MemoryError = MemoryError(
    seconds: int, count: int, isCorrectable: bool, isFatal: bool, label_: string, debugInfo: string)

  // ---- The report ----

  const EVENTS_TITLE := "Memory controller events:"
  const NO_ERRORS_TITLE := "No Memory errors."

  datatype ParsingStep = McTitle | McRecord | Finish

  /** ParseMcTitle; None is an error. */
  function ParseMcTitle(line: string): Option<ParsingStep> {
    if line == EVENTS_TITLE then Some(McRecord) else if line == NO_ERRORS_TITLE then Some(Finish) else None
  }

  /** The error types that are known. */
  predicate IsType(word: string) { word == "Corrected" || word == "Uncorrected" || word == "Fatal" || word == "Info" }

  /** A line that ParseMcRecord accepts as a record. */
  predicate IsRecord(read: Pattern, line: string) {
    line != "" && read(line).Some? && IsType(read(line).value.word)
  }

  /** The error of a record line; Info records leave none. */
  function ErrorOf(read: Pattern, line: string): seq<MemoryError>
    requires IsRecord(read, line)
  {
    var r := read(line).value;
    if r.word == "Info" then []
    else [MemoryError(r.seconds, r.count, r.word == "Corrected", r.word == "Fatal", r.label_, line)]
  }

  /** The errors of the records at the front of a list of lines, in order. */
  function Collected(read: Pattern, lines: seq<string>): seq<MemoryError> {
    if lines == [] || !IsRecord(read, lines[0]) then [] else ErrorOf(read, lines[0]) + Collected(read, lines[1..])
  }

  /** Line e is the empty line behind an events title and records only, and is not the last line. */
  predicate EventsUpTo(read: Pattern, lines: seq<string>, e: nat) {
    && 1 <= e < |lines| - 1 && lines[0] == EVENTS_TITLE && lines[e] == ""
    && forall k | 1 <= k < e :: IsRecord(read, lines[k])
  }

  /** The reports that are accepted. */
  ghost predicate Accepted(read: Pattern, lines: seq<string>) {
    || (|lines| >= 2 && lines[0] == NO_ERRORS_TITLE)
    || exists e :: EventsUpTo(read, lines, e)
  }

  function CollectedFrom(read: Pattern, lines: seq<string>): seq<MemoryError> {
    if lines != [] && lines[0] == EVENTS_TITLE then Collected(read, lines[1..]) else []
  }

  // ---- What the errors say of the lines ----

  /** The line is a record of an error; Info is none. */
  predicate IsError(read: Pattern, line: string) {
    line != "" && read(line).Some? &&
    (read(line).value.word == "Corrected" || read(line).value.word == "Uncorrected" || read(line).value.word == "Fatal")
  }

  /** The error is what its line says. */
  predicate Shows(read: Pattern, line: string, err: MemoryError) {
    && IsError(read, line)
    && err.seconds == read(line).value.seconds && err.count == read(line).value.count
    && err.label_ == read(line).value.label_ && err.debugInfo == line
    && (err.isCorrectable <==> read(line).value.word == "Corrected")
    && (err.isFatal <==> read(line).value.word == "Fatal")
  }

  /** The lines that record an error, in order. */
  function ErrorLines(read: Pattern, lines: seq<string>): seq<string> {
    if lines == [] then [] else
    ErrorLines(read, lines[..|lines| - 1]) + if IsError(read, lines[|lines| - 1]) then [lines[|lines| - 1]] else []
  }

  /** One error for each line, in the same order. */
  ghost predicate Describes(read: Pattern, lines: seq<string>, errors: seq<MemoryError>) {
    |errors| == |lines| && forall k | 0 <= k < |lines| :: Shows(read, lines[k], errors[k])
  }

  ghost predicate AllRecords(read: Pattern, lines: seq<string>) { forall k | 0 <= k < |lines| :: IsRecord(read, lines[k]) }

  lemma {:induction false} CollectedAppend(read: Pattern, lines: seq<string>, line: string)
    requires AllRecords(read, lines)
    ensures Collected(read, lines + [line]) ==
            Collected(read, lines) + if IsRecord(read, line) then ErrorOf(read, line) else []
  {
    if lines == [] {
      assert [line][1..] == [] && lines + [line] == [line];
    } else {
      CollectedAppend(read, lines[1..], line);
      assert (lines + [line])[1..] == lines[1..] + [line];
    }
  }

  lemma {:induction false} ErrorShown(read: Pattern, line: string)
    requires IsRecord(read, line)
    ensures if IsError(read, line) then |ErrorOf(read, line)| == 1 && Shows(read, line, ErrorOf(read, line)[0])
            else ErrorOf(read, line) == []
  {
  }

  lemma {:induction false} CollectedDescribes(read: Pattern, lines: seq<string>)
    requires AllRecords(read, lines)
    ensures Describes(read, ErrorLines(read, lines), Collected(read, lines))
  {
    if lines != [] {
      var n := |lines| - 1;
      CollectedDescribes(read, lines[..n]);
      assert lines == lines[..n] + [lines[n]];
      CollectedAppend(read, lines[..n], lines[n]);
      ErrorShown(read, lines[n]);
    }
  }

  /** Collecting stops at the first line that is no record. */
  lemma {:induction false} CollectedStops(read: Pattern, lines: seq<string>, e: nat)
    requires e < |lines| && !IsRecord(read, lines[e]) && AllRecords(read, lines[..e])
    ensures Collected(read, lines) == Collected(read, lines[..e])
  {
    if e > 0 {
      assert lines[..e][0] == lines[0] && lines[..e][1..] == lines[1..][..e - 1];
      CollectedStops(read, lines[1..], e - 1);
    }
  }

  /** The record lines of an accepted events report. */
  lemma {:induction false} EventsCollected(read: Pattern, lines: seq<string>, e: nat)
    requires EventsUpTo(read, lines, e)
    ensures AllRecords(read, lines[1..e]) && CollectedFrom(read, lines) == Collected(read, lines[1..e])
    ensures Describes(read, ErrorLines(read, lines[1..e]), CollectedFrom(read, lines))
  {
    assert lines[1..][..e - 1] == lines[1..e];
    forall k | 0 <= k < e - 1 ensures IsRecord(read, lines[1..e][k]) { assert lines[1..e][k] == lines[k + 1]; }
    assert lines[1..][e - 1] == lines[e];
    CollectedStops(read, lines[1..], e - 1);
    CollectedDescribes(read, lines[1..e]);
  }

  /** What an accepted report comes to. */
  ghost predicate ReportDescribed(read: Pattern, lines: seq<string>, errors: seq<MemoryError>) {
    && (lines != [] && lines[0] == "No Memory errors." ==> errors == [])
    && forall e: nat :: EventsUpTo(read, lines, e) ==> Describes(read, ErrorLines(read, lines[1..e]), errors)
  }

  lemma {:induction false} CollectedIsDescribed(read: Pattern, lines: seq<string>)
    ensures ReportDescribed(read, lines, CollectedFrom(read, lines))
  {
    forall e: nat | EventsUpTo(read, lines, e)
      ensures Describes(read, ErrorLines(read, lines[1..e]), CollectedFrom(read, lines))
    {
      EventsCollected(read, lines, e);
    }
  }

  class RasDaemonErrors {
    var memoryErrors: seq<MemoryError>

    constructor ()
      ensures memoryErrors == []
    {
      memoryErrors := [];
    }

    /** The next step, None for an error. Only a record that is not Info changes the list. */
    method ParseMcRecord(read: Pattern, line: string) returns (step: Option<ParsingStep>)
      modifies this
      ensures step == if line == "" then Some(Finish) else if IsRecord(read, line) then Some(McRecord) else None
      ensures memoryErrors == old(memoryErrors) + if IsRecord(read, line) then ErrorOf(read, line) else []
      ensures step.Some? <==>
                || line == ""
                || (read(line).Some? &&
                    var word := read(line).value.word;
                    word == "Corrected" || word == "Uncorrected" || word == "Fatal" || word == "Info")
      ensures !IsError(read, line) ==> memoryErrors == old(memoryErrors)
      ensures IsError(read, line) ==>
                |memoryErrors| == |old(memoryErrors)| + 1 && old(memoryErrors) <= memoryErrors &&
                Shows(read, line, memoryErrors[|old(memoryErrors)|])
    {
      if line == "" { return Some(Finish); }
      var record := read(line);
      if record == None { return None; }
      var correctable, fatal := false, false;
      var word := record.value.word;
      if word == "Corrected" {
        correctable := true;
      } else if word == "Fatal" {
        fatal := true;
      } else if word == "Info" {
        return Some(McRecord);
      } else if word != "Uncorrected" {
        return None;
      }
      memoryErrors := memoryErrors +
        [MemoryError(record.value.seconds, record.value.count, correctable, fatal, record.value.label_, line)];
      return Some(McRecord);
    }

    /** Accepts exactly the accepted reports; appends the errors of the records before the first line that ends
        them, whether or not the report is accepted. Of an accepted report, that is one error for each line that
        records one, in order. */
    method ParseErrorReport(read: Pattern, report: string) returns (ok: bool)
      modifies this
      ensures ok <==> Accepted(read, Split(report, '\n'))
      ensures memoryErrors == old(memoryErrors) + CollectedFrom(read, Split(report, '\n'))
      ensures |memoryErrors| >= |old(memoryErrors)|
      ensures ReportDescribed(read, Split(report, '\n'), memoryErrors[|old(memoryErrors)|..])
    {
      var lines := Split(report, '\n');
      ok := ParseLines(read, lines);
      assert memoryErrors[|old(memoryErrors)|..] == CollectedFrom(read, lines);
      CollectedIsDescribed(read, lines);
    }

    method ParseLines(read: Pattern, lines: seq<string>) returns (ok: bool)
      requires lines != []
      modifies this
      ensures ok <==> Accepted(read, lines)
      ensures memoryErrors == old(memoryErrors) + CollectedFrom(read, lines)
    {
      ghost var was := memoryErrors;
      var step := McTitle;
      for n := 0 to |lines|
        invariant ReadSoFar(read, lines, n, step, was, memoryErrors)
      {
        match step {
          case McTitle =>
            var next := ParseMcTitle(lines[n]);
            TitleLine(read, lines, was, next);
            if next == None { return false; }
            step := next.value;
          case McRecord =>
            RecordLine(read, lines, n, was, memoryErrors);
            var next := ParseMcRecord(read, lines[n]);
            if next == None { return false; }
            step := next.value;
          case Finish =>
            FinishedAccepts(read, lines, n);
            return true;
        }
      }
      UnexpectedEnd(read, lines, step, was, memoryErrors);
      return false;
    }

    /** Clears what was gathered before; the command's outcome is its exit code and output, None when it cannot
        be run. */
    method Gather(read: Pattern, command: Option<(int, string)>) returns (ok: bool)
      modifies this
      ensures ok <==> command.Some? && command.value.0 == 0 && Accepted(read, Split(command.value.1, '\n'))
      ensures memoryErrors ==
              if command.Some? && command.value.0 == 0 then CollectedFrom(read, Split(command.value.1, '\n')) else []
    {
      memoryErrors := [];
      if command == None { return false; }
      if command.value.0 != 0 { return false; }
      ok := ParseErrorReport(read, command.value.1);
    }
  }

  /** The first n lines are an events title and records. */
  predicate RecordsBefore(read: Pattern, lines: seq<string>, n: nat) {
    1 <= n <= |lines| && lines[0] == EVENTS_TITLE && forall k | 1 <= k < n :: IsRecord(read, lines[k])
  }

  /** The last of the first n lines is the one that finishes the report. */
  predicate FinishedBefore(read: Pattern, lines: seq<string>, n: nat) {
    1 <= n <= |lines| &&
    if n == 1 then lines[0] == NO_ERRORS_TITLE else RecordsBefore(read, lines, n - 1) && lines[n - 1] == ""
  }

  /** What the step says about the first n lines and the errors collected from them. */
  ghost predicate ReadSoFar(read: Pattern, lines: seq<string>, n: nat, step: ParsingStep,
                            was: seq<MemoryError>, errors: seq<MemoryError>) {
    n <= |lines| &&
    match step
    case McTitle => n == 0 && errors == was
    case McRecord =>
      RecordsBefore(read, lines, n) && errors + Collected(read, lines[n..]) == was + CollectedFrom(read, lines)
    case Finish => FinishedBefore(read, lines, n) && errors == was + CollectedFrom(read, lines)
  }

  lemma TitleLine(read: Pattern, lines: seq<string>, was: seq<MemoryError>, next: Option<ParsingStep>)
    requires lines != [] && next == ParseMcTitle(lines[0])
    ensures next.Some? ==> ReadSoFar(read, lines, 1, next.value, was, was)
    ensures next == None ==> !Accepted(read, lines) && was == was + CollectedFrom(read, lines)
  {
    if lines[0] != EVENTS_TITLE { assert forall e :: !EventsUpTo(read, lines, e); }
  }

  lemma {:induction false} RecordRead(read: Pattern, lines: seq<string>, n: nat, was: seq<MemoryError>,
                                      errors: seq<MemoryError>)
    requires ReadSoFar(read, lines, n, McRecord, was, errors) && n < |lines| && IsRecord(read, lines[n])
    ensures ReadSoFar(read, lines, n + 1, McRecord, was, errors + ErrorOf(read, lines[n]))
  {
    var rest, now := Collected(read, lines[n + 1..]), ErrorOf(read, lines[n]);
    assert lines[n..][0] == lines[n] && lines[n..][1..] == lines[n + 1..];
    assert Collected(read, lines[n..]) == now + rest;
    assert errors + (now + rest) == errors + now + rest;
  }

  lemma {:induction false} RecordsStop(read: Pattern, lines: seq<string>, n: nat, was: seq<MemoryError>,
                                       errors: seq<MemoryError>)
    requires ReadSoFar(read, lines, n, McRecord, was, errors) && n < |lines| && !IsRecord(read, lines[n])
    ensures errors + [] == was + CollectedFrom(read, lines)
    ensures lines[n] == "" ==> ReadSoFar(read, lines, n + 1, Finish, was, errors + [])
  {
    assert lines[n..][0] == lines[n];
    assert Collected(read, lines[n..]) == [];
  }

  lemma {:induction false} BadLine(read: Pattern, lines: seq<string>, n: nat)
    requires RecordsBefore(read, lines, n) && n < |lines| && lines[n] != "" && !IsRecord(read, lines[n])
    ensures !Accepted(read, lines)
  {
    forall e ensures !EventsUpTo(read, lines, e) {}
  }

  lemma {:induction false} RecordLine(read: Pattern, lines: seq<string>, n: nat, was: seq<MemoryError>,
                                      errors: seq<MemoryError>)
    requires ReadSoFar(read, lines, n, McRecord, was, errors) && n < |lines|
    ensures IsRecord(read, lines[n]) ==>
              ReadSoFar(read, lines, n + 1, McRecord, was, errors + ErrorOf(read, lines[n]))
    ensures lines[n] == "" ==> ReadSoFar(read, lines, n + 1, Finish, was, errors + [])
    ensures lines[n] != "" && !IsRecord(read, lines[n]) ==>
              !Accepted(read, lines) && errors + [] == was + CollectedFrom(read, lines)
  {
    if IsRecord(read, lines[n]) {
      RecordRead(read, lines, n, was, errors);
    } else {
      RecordsStop(read, lines, n, was, errors);
      if lines[n] != "" { BadLine(read, lines, n); }
    }
  }

  lemma FinishedAccepts(read: Pattern, lines: seq<string>, n: nat)
    requires FinishedBefore(read, lines, n) && n < |lines|
    ensures Accepted(read, lines)
  {
    if n > 1 { assert EventsUpTo(read, lines, n - 1); }
  }

  /** Running out of lines is an error, even when the last line is the one that would finish the report. */
  lemma UnexpectedEnd(read: Pattern, lines: seq<string>, step: ParsingStep,
                      was: seq<MemoryError>, errors: seq<MemoryError>)
    requires lines != [] && ReadSoFar(read, lines, |lines|, step, was, errors)
    ensures !Accepted(read, lines) && errors == was + CollectedFrom(read, lines)
  {
    assert lines[|lines|..] == [] && errors + [] == errors;
    forall e ensures !EventsUpTo(read, lines, e) {}
  }

  // ---- Selection by time ----

  /** After start, up to and including end, in seconds. */
  datatype Filter = Filter(start: int, end: int)

  datatype ErrorInfo = ErrorInfo(
    seconds: int, count: int, isCorrectable: bool, isFatal: bool, id: Identifier, debugInfo: string)

  datatype Outcome = InvalidArgument | GatherFailed | Response(errors: seq<ErrorInfo>)

  const UNKNOWN_LABEL := "unknown memory"

  predicate InWindow(filter: Option<Filter>, seconds: int) {
    filter.Some? ==> filter.value.start < seconds <= filter.value.end
  }

  predicate Reported(filter: Option<Filter>, err: MemoryError) {
    InWindow(filter, err.seconds) && err.label_ != UNKNOWN_LABEL
  }

  function DimmIdentifier(label_: string): Identifier {
    Populated(Identifier("", "", "", label_, "", "dimm"), None)
  }

  function InfoOf(err: MemoryError, debug: bool): ErrorInfo {
    ErrorInfo(err.seconds, err.count, err.isCorrectable, err.isFatal, DimmIdentifier(err.label_),
              if debug then err.debugInfo else "")
  }

  /** How an error is shown. */
  function Shown(debug: bool): MemoryError -> ErrorInfo { err => InfoOf(err, debug) }

  /** The errors to report, in order. */
  function Selected<T>(filter: Option<Filter>, show: MemoryError -> T, errors: seq<MemoryError>): seq<T> {
    if errors == [] then [] else
    Selected(filter, show, errors[..|errors| - 1]) +
    if Reported(filter, errors[|errors| - 1]) then [show(errors[|errors| - 1])] else []
  }

  /** The loop over the gathered errors. */
  method SelectErrors(errors: seq<MemoryError>, filter: Option<Filter>, debug: bool) returns (response: seq<ErrorInfo>)
    ensures response == Selected(filter, Shown(debug), errors)
  {
    response := [];
    for n := 0 to |errors|
      invariant response == Selected(filter, Shown(debug), errors[..n])
    {
      assert errors[..n + 1][..n] == errors[..n];
      var err := errors[n];
      if filter.Some? && (err.seconds <= filter.value.start || err.seconds > filter.value.end) { continue; }
      if err.label_ == UNKNOWN_LABEL { continue; }
      var id := PopulateId(Identifier("", "", "", err.label_, "", "dimm"), None);
      response := response + [ErrorInfo(err.seconds, err.count, err.isCorrectable, err.isFatal, id,
                                        if debug then err.debugInfo else "")];
    }
    assert errors[..|errors|] == errors;
  }

  // ---- What is reported of the lines ----

  /** The line records an error in the window, of a known label. */
  predicate Kept(read: Pattern, filter: Option<Filter>, line: string) {
    && IsError(read, line) && read(line).value.label_ != "unknown memory"
    && (filter.Some? ==> filter.value.start < read(line).value.seconds <= filter.value.end)
  }

  function KeptLines(read: Pattern, filter: Option<Filter>, lines: seq<string>): seq<string> {
    if lines == [] then [] else
    KeptLines(read, filter, lines[..|lines| - 1]) +
    if Kept(read, filter, lines[|lines| - 1]) then [lines[|lines| - 1]] else []
  }

  /** The report of an error is what its line says, for the memory module of that name. */
  predicate InfoShows(read: Pattern, line: string, debug: bool, info: ErrorInfo) {
    && IsError(read, line)
    && info.seconds == read(line).value.seconds && info.count == read(line).value.count
    && (info.isCorrectable <==> read(line).value.word == "Corrected")
    && (info.isFatal <==> read(line).value.word == "Fatal")
    && info.id == Identifier("%%" + read(line).value.label_ + "%%dimm", "", "", read(line).value.label_, "", "dimm")
    && info.debugInfo == if debug then line else ""
  }

  ghost predicate Reports(read: Pattern, debug: bool, lines: seq<string>, infos: seq<ErrorInfo>) {
    |infos| == |lines| && forall k | 0 <= k < |lines| :: InfoShows(read, lines[k], debug, infos[k])
  }

  lemma {:induction false} DimmId(label_: string)
    ensures DimmIdentifier(label_) == Identifier("%%" + label_ + "%%dimm", "", "", label_, "", "dimm")
  {
    var x := Identifier("", "", "", label_, "", "dimm");
    FieldsJoined(x);
    assert Join(Fields(x), SEPARATOR) == "" + "%" + "" + "%" + label_ + "%" + "" + "%" + "dimm";
    assert "" + "%" + "" + "%" + label_ + "%" + "" + "%" + "dimm" == "%%" + label_ + "%%dimm";
  }

  lemma {:induction false} InfoShown(read: Pattern, line: string, err: MemoryError, debug: bool)
    requires Shows(read, line, err)
    ensures InfoShows(read, line, debug, Shown(debug)(err))
  {
    DimmId(err.label_);
  }

  lemma {:induction false} SelectedAppend<T>(filter: Option<Filter>, show: MemoryError -> T, errors: seq<MemoryError>,
                                             err: MemoryError)
    ensures Selected(filter, show, errors + [err]) ==
            Selected(filter, show, errors) + if Reported(filter, err) then [show(err)] else []
  {
    assert (errors + [err])[..|errors|] == errors;
  }

  /** One more record line. */
  lemma {:induction false} OneMoreReported(read: Pattern, filter: Option<Filter>, debug: bool,
                                           before: seq<MemoryError>, line: string)
    requires IsRecord(read, line)
    ensures var all := Selected(filter, Shown(debug), before + ErrorOf(read, line));
            var some := Selected(filter, Shown(debug), before);
            if Kept(read, filter, line) then
              |all| == |some| + 1 && some <= all && InfoShows(read, line, debug, all[|some|])
            else all == some
  {
    ErrorShown(read, line);
    if IsError(read, line) {
      var err := ErrorOf(read, line)[0];
      assert ErrorOf(read, line) == [err];
      SelectedAppend(filter, Shown(debug), before, err);
      InfoShown(read, line, err, debug);
    } else {
      assert before + ErrorOf(read, line) == before;
    }
  }

  lemma {:induction false} SelectedReports(read: Pattern, filter: Option<Filter>, debug: bool, lines: seq<string>)
    requires AllRecords(read, lines)
    ensures Reports(read, debug, KeptLines(read, filter, lines), Selected(filter, Shown(debug), Collected(read, lines)))
  {
    if lines != [] {
      var n := |lines| - 1;
      SelectedReports(read, filter, debug, lines[..n]);
      assert lines == lines[..n] + [lines[n]];
      CollectedAppend(read, lines[..n], lines[n]);
      OneMoreReported(read, filter, debug, Collected(read, lines[..n]), lines[n]);
    }
  }

  /** What the answer to a request holds for an accepted report. */
  ghost predicate ReportAnswered(read: Pattern, filter: Option<Filter>, debug: bool, lines: seq<string>,
                                 infos: seq<ErrorInfo>) {
    && (lines != [] && lines[0] == "No Memory errors." ==> infos == [])
    && forall e: nat :: EventsUpTo(read, lines, e) ==>
         Reports(read, debug, KeptLines(read, filter, lines[1..e]), infos)
  }

  lemma {:induction false} CollectedIsAnswered(read: Pattern, filter: Option<Filter>, debug: bool, lines: seq<string>)
    ensures ReportAnswered(read, filter, debug, lines, Selected(filter, Shown(debug), CollectedFrom(read, lines)))
  {
    forall e: nat | EventsUpTo(read, lines, e)
      ensures Reports(read, debug, KeptLines(read, filter, lines[1..e]),
                      Selected(filter, Shown(debug), CollectedFrom(read, lines)))
    {
      EventsCollected(read, lines, e);
      SelectedReports(read, filter, debug, lines[1..e]);
    }
  }

  /** The edges of the window: what is shown lies after its start, up to and including its end; and an error of a
      known label at its end is shown. */
  lemma {:induction false} WindowEdges(filter: Filter, errors: seq<MemoryError>)
    ensures forall err | err in Selected(Some(filter), (e: MemoryError) => e, errors) ::
              filter.start < err.seconds <= filter.end && err.label_ != "unknown memory"
    ensures forall err | err in errors && filter.start < err.seconds == filter.end && err.label_ != "unknown memory" ::
              err in Selected(Some(filter), (e: MemoryError) => e, errors)
  {
    if errors != [] { WindowEdges(filter, errors[..|errors| - 1]); }
  }

  /** A filter is rejected before the command is run; events of other sources are not reported. */
  method GetErrors(read: Pattern, command: Option<(int, string)>, filter: Option<Filter>, memoryErrors: bool, debug: bool)
    returns (outcome: Outcome)
    ensures filter.Some? && filter.value.start >= filter.value.end <==> outcome == InvalidArgument
    ensures outcome.Response? <==>
              outcome != InvalidArgument && command.Some? && command.value.0 == 0 &&
              Accepted(read, Split(command.value.1, '\n'))
    ensures outcome.Response? && memoryErrors ==>
              outcome.errors == Selected(filter, Shown(debug), CollectedFrom(read, Split(command.value.1, '\n')))
    ensures outcome.Response? && !memoryErrors ==> outcome.errors == []
    ensures outcome.Response? && memoryErrors ==>
              ReportAnswered(read, filter, debug, Split(command.value.1, '\n'), outcome.errors)
  {
    if filter.Some? && filter.value.start >= filter.value.end { return InvalidArgument; }
    var ras := new RasDaemonErrors();
    var ok := ras.Gather(read, command);
    if !ok { return GatherFailed; }
    if !memoryErrors { return Response([]); }
    var response := SelectErrors(ras.memoryErrors, filter, debug);
    CollectedIsAnswered(read, filter, debug, Split(command.value.1, '\n'));
    return Response(response);
  }

  lemma SelectedBag<T>(filter: Option<Filter>, show: MemoryError -> T, errors: seq<MemoryError>)
    requires errors != []
    ensures multiset(Selected(filter, show, errors)) ==
            multiset(Selected(filter, show, errors[..|errors| - 1])) +
            if Reported(filter, errors[|errors| - 1]) then multiset{show(errors[|errors| - 1])} else multiset{}
  {
  }

  /** Adjacent windows together report each error of the whole window exactly once. */
  lemma {:induction false} WindowsPartition<T>(t0: int, t1: int, t2: int, show: MemoryError -> T,
                                               errors: seq<MemoryError>)
    requires t0 < t1 < t2
    ensures multiset(Selected(Some(Filter(t0, t1)), show, errors)) +
            multiset(Selected(Some(Filter(t1, t2)), show, errors)) == multiset(Selected(Some(Filter(t0, t2)), show, errors))
  {
    if errors != [] {
      WindowsPartition(t0, t1, t2, show, errors[..|errors| - 1]);
      SelectedBag(Some(Filter(t0, t1)), show, errors);
      SelectedBag(Some(Filter(t1, t2)), show, errors);
      SelectedBag(Some(Filter(t0, t2)), show, errors);
    }
  }

  predicate InTimeOrder(errors: seq<MemoryError>) {
    forall i, j | 0 <= i < j < |errors| :: errors[i].seconds <= errors[j].seconds
  }

  /** For a report in time order the two windows, one after the other, are the whole window. */
  lemma {:induction false} OrderedWindowsConcatenate<T>(t0: int, t1: int, t2: int, show: MemoryError -> T,
                                                        errors: seq<MemoryError>)
    requires t0 < t1 < t2 && InTimeOrder(errors)
    ensures Selected(Some(Filter(t0, t1)), show, errors) + Selected(Some(Filter(t1, t2)), show, errors)
         == Selected(Some(Filter(t0, t2)), show, errors)
  {
    if errors != [] {
      var n := |errors| - 1;
      OrderedWindowsConcatenate(t0, t1, t2, show, errors[..n]);
      if errors[n].seconds <= t1 { NothingLater(t1, t2, show, errors); }
    }
  }

  lemma {:induction false} NothingLater<T>(t1: int, t2: int, show: MemoryError -> T, errors: seq<MemoryError>)
    requires InTimeOrder(errors) && (errors != [] ==> errors[|errors| - 1].seconds <= t1)
    ensures Selected(Some(Filter(t1, t2)), show, errors) == []
    ensures errors != [] ==> Selected(Some(Filter(t1, t2)), show, errors[..|errors| - 1]) == []
  {
    if errors != [] { NothingLater(t1, t2, show, errors[..|errors| - 1]); }
  }

  /** Exactly the errors in the window with a known label are shown. */
  lemma {:induction false} NothingInvented<T>(filter: Option<Filter>, show: MemoryError -> T, errors: seq<MemoryError>,
                                              info: T)
    ensures info in Selected(filter, show, errors) <==>
            exists k :: 0 <= k < |errors| && Reported(filter, errors[k]) && show(errors[k]) == info
  {
    if errors != [] {
      var n := |errors| - 1;
      NothingInvented(filter, show, errors[..n], info);
      if Reported(filter, errors[n]) && show(errors[n]) == info { assert errors[n] == errors[n]; }
    }
  }

  /** The identifier of a reported error can be unmarshalled exactly when the label holds no separator. */
  lemma ReportedIdentifier(label_: string)
    ensures UnmarshalIdentifier(DimmIdentifier(label_).id) == Some(DimmIdentifier(label_)) <==> SEPARATOR !in label_
  {
    var x := DimmIdentifier(label_);
    IdentifierRoundTrip(Identifier("", "", "", label_, "", "dimm"), None);
    assert Fields(x) == ["", "", label_, "", "dimm"];
    assert SEPARATOR !in "dimm" && SEPARATOR !in "" && Fields(x)[2] == label_;
  }
}
