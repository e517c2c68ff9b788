/** `internal/maintenance/model.go`: maintenance windows and one invocation of a job. */
module Runner {
  import opened Text
  import Decimals
  import Keyed
  import opened History

  const MINUTE := 60 * 1_000_000_000
  const HOUR := 60 * MINUTE
  const DAY := 24 * HOUR

  type TimeOfDay = t: int | 0 <= t < DAY

  datatype Window = Window(start: string, end: string)

  function TwoDigits(a: char, b: char, limit: int): (r: Option<int>)
    ensures r.Some? ==> 0 <= r.value < limit
  {
    if Digit(a) && Digit(b) && 10 * Decimals.DigitValue(a) + Decimals.DigitValue(b) < limit
    then Some(10 * Decimals.DigitValue(a) + Decimals.DigitValue(b)) else None
  }

  /** `ParseMaintenanceTime`: exactly HH:MM in 24-hour time, as a duration since midnight. */
  function ParseTime(value: string): (r: Option<int>)
    ensures r.Some? ==> 0 <= r.value < DAY
  {
    if |value| != 5 || value[2] != ':' then None
    else
      var hours, minutes := TwoDigits(value[0], value[1], 24), TwoDigits(value[3], value[4], 60);
      if hours.None? || minutes.None? then None else Some(hours.value * HOUR + minutes.value * MINUTE)
  }

  /** A time of day as it is written. */
  function Clock(hours: int, minutes: int): string
    requires 0 <= hours < 24 && 0 <= minutes < 60
  {
    ['0' + (hours / 10) as char, '0' + (hours % 10) as char, ':',
     '0' + (minutes / 10) as char, '0' + (minutes % 10) as char]
  }

  /** Exactly the written times parse, each to itself. */
  lemma ParseTimeReadsClocks(value: string)
    ensures ParseTime(value).Some? <==>
            exists hours, minutes :: 0 <= hours < 24 && 0 <= minutes < 60 && value == Clock(hours, minutes)
    ensures forall hours, minutes :: 0 <= hours < 24 && 0 <= minutes < 60 && value == Clock(hours, minutes) ==>
              ParseTime(value) == Some(hours * HOUR + minutes * MINUTE)
  {
    forall hours, minutes | 0 <= hours < 24 && 0 <= minutes < 60 && value == Clock(hours, minutes)
      ensures ParseTime(value) == Some(hours * HOUR + minutes * MINUTE)
    {
      TwoDigitsRead(hours, 24);
      TwoDigitsRead(minutes, 60);
    }
    if ParseTime(value).Some? {
      var hours := 10 * Decimals.DigitValue(value[0]) + Decimals.DigitValue(value[1]);
      var minutes := 10 * Decimals.DigitValue(value[3]) + Decimals.DigitValue(value[4]);
      assert value == Clock(hours, minutes);
    }
  }

  lemma TwoDigitsRead(n: int, limit: int)
    requires 0 <= n < limit <= 100
    ensures TwoDigits('0' + (n / 10) as char, '0' + (n % 10) as char, limit) == Some(n)
  {
  }

  /** `EligibleAt`, `current` being the local time of day. */
  predicate Eligible(window: Option<Window>, current: int) {
    window.None? || (
      var start, end := ParseTime(window.value.start), ParseTime(window.value.end);
      start.Some? && end.Some? && start.value != end.value &&
      if start.value < end.value then start.value <= current < end.value
      else current >= start.value || current < end.value)
  }

  /** A window is the arc of the day from its start, inclusive, to its end, exclusive. */
  lemma WindowIsAnArc(window: Window, current: int)
    requires 0 <= current < DAY && ParseTime(window.start).Some? && ParseTime(window.end).Some?
    ensures var start, end := ParseTime(window.start).value, ParseTime(window.end).value;
            Eligible(Some(window), current) <==> (current - start) % DAY < (end - start) % DAY
  {
    var start, end := ParseTime(window.start).value, ParseTime(window.end).value;
    Wrap(current - start);
    Wrap(end - start);
  }

  lemma Wrap(x: int)
    requires -DAY < x < DAY
    ensures x % DAY == if x < 0 then x + DAY else x
  {
  }

  /** A window and its swap cover the day and do not overlap, unless the window is empty: then neither is ever open. */
  lemma SwapPartitionsTheDay(window: Window, current: int)
    requires 0 <= current < DAY && ParseTime(window.start).Some? && ParseTime(window.end).Some?
    ensures ParseTime(window.start) != ParseTime(window.end) ==>
              (Eligible(Some(window), current) <==> !Eligible(Some(Window(window.end, window.start)), current))
    ensures ParseTime(window.start) == ParseTime(window.end) ==>
              !Eligible(Some(window), current) && !Eligible(Some(Window(window.end, window.start)), current)
  {
    WindowIsAnArc(window, current);
    WindowIsAnArc(Window(window.end, window.start), current);
    var start, end := ParseTime(window.start).value, ParseTime(window.end).value;
    Wrap(current - start);
    Wrap(current - end);
    Wrap(end - start);
    Wrap(start - end);
  }

  // ---- one invocation

  datatype Job = Job(
    name: string, operation: string, target: string, enabled: bool, window: Option<Window>, fingerprint: Option<string>)

  datatype Options = Options(origin: Option<Origin>, ignoreWindow: bool)

  /** An error with its full text, and the code and message it carries when it was categorized. */
  datatype Error = Uncategorized(text: string) | Categorized(code: string, message: string, text: string)

  /** What the executor returned; no result means the executor left it empty. */
  datatype Execution = Execution(result: Option<Result>, details: string, error: Option<Error>)

  type Int64 = n: int | Decimals.MIN_INT64 <= n <= Decimals.MAX_INT64

  /** Six random bytes in hexadecimal. */
  type Entropy = s: string | |s| == 12 && forall i :: 0 <= i < 12 ==> Digit(s[i]) || 'a' <= s[i] <= 'f'
    witness "000000000000"

  /**
   * `nanos` is the start as the clock's nanosecond count, `entropy` what the random source gives, if it gives anything;
   * `lockFault` says how taking the job's lock goes when nobody holds it.
   */
  datatype Setting = Setting(
    jobs: seq<Job>, hasExecutor: bool, startedAt: int, timeOfDay: int, finishedAt: int, nanos: Int64,
    entropy: Option<Entropy>, lockFault: bool, execution: Execution, appendFault: AppendFault)

  const LOCK_ERROR := Uncategorized("acquire maintenance job lock")

  // ---- run identifiers

  /** `newRunID`. */
  function NewRunId(nanos: Int64, entropy: Entropy): string {
    "run-" + Decimals.FormatInt(nanos) + "-" + entropy
  }

  function RunId(setting: Setting): Option<string> {
    if setting.entropy.None? then None else Some(NewRunId(setting.nanos, setting.entropy.value))
  }

  /** Every generated identifier is one that records may have, and names a file that is listed. */
  lemma GeneratedIsListed(nanos: Int64, entropy: Entropy)
    ensures ValidLocalId(NewRunId(nanos, entropy)) && ListedName(NewRunId(nanos, entropy) + ".json")
  {
    Decimals.FormattedShort(nanos);
    var id := NewRunId(nanos, entropy);
    assert id[..4] == "run-" && (id + ".json")[|id|..] == ".json";
  }

  /** Identifiers differ whenever the instants or the random bytes do. */
  lemma GeneratedApart(nanos: Int64, entropy: Entropy, nanos': Int64, entropy': Entropy)
    requires NewRunId(nanos, entropy) == NewRunId(nanos', entropy')
    ensures nanos == nanos' && entropy == entropy'
  {
    GeneratedParts(nanos, entropy);
    GeneratedParts(nanos', entropy');
    Decimals.ParseFormatted(nanos);
    Decimals.ParseFormatted(nanos');
  }

  lemma GeneratedParts(nanos: Int64, entropy: Entropy)
    ensures var id := NewRunId(nanos, entropy);
            |id| >= 17 && id[4..|id| - 13] == Decimals.FormatInt(nanos) && id[|id| - 12..] == entropy
  {
  }

  // ---- errors as they are recorded

  predicate Control(c: char) {
    c < ' ' || c == '\U{7F}'
  }

  /** Control characters become spaces. */
  function Blanked(s: string): (b: string)
    ensures |b| == |s|
    ensures forall i :: 0 <= i < |s| ==> b[i] == if s[i] < ' ' || s[i] == '\U{7F}' then ' ' else s[i]
  {
    seq(|s|, i requires 0 <= i < |s| => if Control(s[i]) then ' ' else s[i])
  }

  function LeadingBlanks(s: string): (k: nat)
    ensures k <= |s| && (forall i :: 0 <= i < k ==> s[i] == ' ') && (k < |s| ==> s[k] != ' ')
  {
    if s != "" && s[0] == ' ' then 1 + LeadingBlanks(s[1..]) else 0
  }

  /** The length without trailing blanks. */
  function TrimmedLength(s: string): (n: nat)
    ensures n <= |s| && (forall i :: n <= i < |s| ==> s[i] == ' ') && (n > 0 ==> s[n - 1] != ' ')
  {
    if s != "" && s[|s| - 1] == ' ' then TrimmedLength(s[..|s| - 1]) else |s|
  }

  /** `conciseError`: blanks cut off at both ends, and what is left after 500 characters. */
  function Concise(text: string): string {
    var trimmed := Blanked(text)[LeadingBlanks(Blanked(text))..];
    trimmed[..if TrimmedLength(trimmed) > 500 then 500 else TrimmedLength(trimmed)]
  }

  /** `historyError`: the code and message of a categorized error, and one fixed text for every other. */
  function HistoryError(error: Error): string {
    match error
    case Categorized(code, message, _) => code + ": " + Concise(message)
    case Uncategorized(_) => "operation failed; inspect command output or scheduler journal"
  }

  /** What is recorded of a message is a stretch of it, control characters blanked, and short. */
  lemma ConciseIsAStretch(text: string)
    ensures exists k, n :: 0 <= k <= n <= |text| && n - k <= 500 && Concise(text) == Blanked(text)[k..n]
    ensures forall i :: 0 <= i < |Concise(text)| ==> Concise(text)[i] >= ' ' && Concise(text)[i] != '\U{7F}'
  {
    var blanked, size := Blanked(text), |Concise(text)|;
    var k := LeadingBlanks(blanked);
    assert blanked[k..][..size] == blanked[k..k + size];
  }

  /** Two errors that differ at most in what is not to be recorded: their texts, with everything they wrap. */
  predicate SameSummary(a: Error, b: Error) {
    (a.Uncategorized? && b.Uncategorized?)
    || (a.Categorized? && b.Categorized? && a.code == b.code && a.message == b.message)
  }

  /** Nothing of an error's text reaches the history. */
  lemma RecordHidesText(setting: Setting, job: Job, options: Options, busy: bool, a: Error, b: Error)
    requires job.fingerprint.Some? && setting.entropy.Some? && SameSummary(a, b)
    ensures Expected(setting.(execution := setting.execution.(error := Some(a))), job, options, busy) ==
            Expected(setting.(execution := setting.execution.(error := Some(b))), job, options, busy)
  {
  }

  datatype Notice = NotNotified | Delivered | NoticeFailed

  /** The error returned is the operation's, if any, joined by the failure to write history, if it was not written. */
  datatype Report = Refused | Reported(record: Record, error: Option<Error>, notWritten: bool, notice: Notice)

  class Locks {
    var held: set<string>

    constructor ()
      ensures held == {}
    {
      held := {};
    }
  }

  function FindJob(jobs: seq<Job>, name: string): Option<Job> {
    Keyed.Find(jobs, (job: Job) => job.name, name)
  }

  function OriginOf(options: Options): Origin {
    if options.origin.None? then Manual else options.origin.value
  }

  /** An unknown origin is refused, and so is a scheduled invocation that would ignore its window. */
  predicate ValidOptions(options: Options) {
    !OriginOf(options).OtherOrigin? && !(options.ignoreWindow && OriginOf(options).Scheduled?)
  }

  predicate Accepted(setting: Setting, name: string, options: Options) {
    && FindJob(setting.jobs, name).Some? && setting.hasExecutor
    && options.origin != Some(OtherOrigin) && !(options.ignoreWindow && options.origin == Some(Scheduled))
    && FindJob(setting.jobs, name).value.fingerprint.Some? && setting.entropy.Some?
  }

  /** The invocation gets past the gates that need no lock. */
  predicate Open(job: Job, options: Options, timeOfDay: int) {
    job.enabled && (options.ignoreWindow || Eligible(job.window, timeOfDay))
  }

  /** The result recorded for an execution: an error is never recorded as a success. */
  function Normalized(execution: Execution): (result: Result)
    ensures execution.error.Some? ==> result != Success
    ensures execution.error.None? && execution.result.None? ==> result == Success
    ensures execution.result.Some? && (execution.error.None? || execution.result != Some(Success)) ==>
              result == execution.result.value
    ensures execution.error.Some? && (execution.result.None? || execution.result == Some(Success)) ==> result == Failure
  {
    var result := if execution.result.None? then Success else execution.result.value;
    if execution.error.Some? && result == Success then Failure else result
  }

  /** The record an invocation leaves. */
  function Expected(setting: Setting, job: Job, options: Options, busy: bool): Record
    requires job.fingerprint.Some? && setting.entropy.Some?
  {
    var blank := Record(1, RunId(setting).value, job.name, job.fingerprint.value, job.operation, job.target,
                        if options.origin.None? then Manual else options.origin.value, options.ignoreWindow,
                        setting.startedAt, setting.finishedAt, Skipped, "", "");
    if !job.enabled then blank.(details := "disabled")
    else if !options.ignoreWindow && !Eligible(job.window, setting.timeOfDay) then
      blank.(details := "outside-window")
    else if !ValidLocalId(job.name) then blank.(result := Failure, error := HistoryError(LOCK_ERROR))
    else if busy then blank.(details := "already-running")
    else if setting.lockFault then blank.(result := Failure, error := HistoryError(LOCK_ERROR))
    else
      blank.(result := Normalized(setting.execution), details := setting.execution.details,
             error := if setting.execution.error.Some? then HistoryError(setting.execution.error.value) else "")
  }

  /** The operation's own error: none for a skipped invocation, the lock's, or what the executor returned. */
  function OperationError(setting: Setting, job: Job, options: Options, busy: bool): Option<Error> {
    if !job.enabled || (!options.ignoreWindow && !Eligible(job.window, setting.timeOfDay)) then None
    else if !ValidLocalId(job.name) then Some(LOCK_ERROR)
    else if busy then None
    else if setting.lockFault then Some(LOCK_ERROR)
    else setting.execution.error
  }

  /**
   * `RunDetailed`. The operation runs only past every gate and with the lock, which is given back; whatever came of it
   * is recorded once; the notifier is told only of a written record and changes nothing about it.
   */
  method RunDetailed(name: string, options: Options, setting: Setting, locks: Locks, history: History,
                     notifier: Option<bool>)
    returns (report: Report, executed: bool)
    requires history.Valid()
    requires setting.entropy.Some? ==>
               forall i :: 0 <= i < |history.log| ==> history.log[i].runId != RunId(setting).value
    modifies locks, history
    ensures history.Valid() && locks.held == old(locks.held)
    ensures report.Refused? <==> !Accepted(setting, name, options)
    ensures report.Refused? ==> !executed && history.log == old(history.log)
    ensures report.Reported? ==>
              var job := FindJob(setting.jobs, name).value;
              AsExpected(report, executed, setting, job, options, job.name in old(locks.held))
    ensures report.Reported? ==> Filed(report, setting, old(history.log), history.log, notifier)
    ensures report.Reported? ==> ListedName(FileName(report.record))
  {
    var found := FindJob(setting.jobs, name);
    if found.None? || !setting.hasExecutor {
      return Refused, false;
    }
    if !ValidOptions(options) || found.value.fingerprint.None? || setting.entropy.None? {
      return Refused, false;
    }
    ExpectedIsListed(setting, found.value, options, found.value.name in locks.held);
    report, executed := RunAccepted(found.value, options, setting, locks, history, notifier);
  }

  lemma ExpectedIsListed(setting: Setting, job: Job, options: Options, busy: bool)
    requires job.fingerprint.Some? && setting.entropy.Some?
    ensures ListedName(FileName(Expected(setting, job, options, busy)))
  {
    GeneratedIsListed(setting.nanos, setting.entropy.value);
    assert Expected(setting, job, options, busy).runId == NewRunId(setting.nanos, setting.entropy.value);
  }

  /** Record, error and execution are those that the gates, the lock and the executor call for. */
  ghost predicate AsExpected(report: Report, executed: bool, setting: Setting, job: Job, options: Options, busy: bool)
    requires report.Reported? && job.fingerprint.Some? && setting.entropy.Some?
  {
    && report.record == Expected(setting, job, options, busy)
    && executed == Executes(setting, job, options, busy)
    && report.error == OperationError(setting, job, options, busy)
  }

  /** The result of an invocation that got as far as the executor or was turned away at a gate. */
  predicate Executes(setting: Setting, job: Job, options: Options, busy: bool) {
    && job.enabled && (options.ignoreWindow || Eligible(job.window, setting.timeOfDay))
    && ValidLocalId(job.name) && !busy && !setting.lockFault
  }

  method RunAccepted(job: Job, options: Options, setting: Setting, locks: Locks, history: History,
                     notifier: Option<bool>)
    returns (report: Report, executed: bool)
    requires history.Valid() && job.fingerprint.Some? && setting.entropy.Some?
    requires forall i :: 0 <= i < |history.log| ==> history.log[i].runId != RunId(setting).value
    modifies locks, history
    ensures history.Valid() && locks.held == old(locks.held) && report.Reported?
    ensures AsExpected(report, executed, setting, job, options, job.name in old(locks.held))
    ensures Filed(report, setting, old(history.log), history.log, notifier)
  {
    executed := false;
    var blank := Record(1, RunId(setting).value, job.name, job.fingerprint.value, job.operation, job.target,
                        OriginOf(options), options.ignoreWindow, setting.startedAt, 0, Skipped, "", "");
    if !job.enabled {
      report := Finish(blank.(details := "disabled"), None, setting, history, notifier);
      return;
    }
    if !options.ignoreWindow && !Eligible(job.window, setting.timeOfDay) {
      report := Finish(blank.(details := "outside-window"), None, setting, history, notifier);
      return;
    }
    report, executed := RunOpen(job, blank, options, setting, locks, history, notifier);
  }

  /** Past the gates: take the lock, execute, and give it back. */
  method RunOpen(job: Job, blank: Record, options: Options, setting: Setting, locks: Locks, history: History,
                 notifier: Option<bool>)
    returns (report: Report, executed: bool)
    requires history.Valid() && job.fingerprint.Some? && setting.entropy.Some? && Open(job, options, setting.timeOfDay)
    requires forall i :: 0 <= i < |history.log| ==> history.log[i].runId != RunId(setting).value
    requires blank == Record(1, RunId(setting).value, job.name, job.fingerprint.value, job.operation, job.target,
                             OriginOf(options), options.ignoreWindow, setting.startedAt, 0, Skipped, "", "")
    modifies locks, history
    ensures history.Valid() && locks.held == old(locks.held) && report.Reported?
    ensures AsExpected(report, executed, setting, job, options, job.name in old(locks.held))
    ensures Filed(report, setting, old(history.log), history.log, notifier)
  {
    executed := false;
    if ValidLocalId(job.name) && job.name in locks.held {
      report := Finish(blank.(details := "already-running"), None, setting, history, notifier);
      return;
    }
    if !ValidLocalId(job.name) || setting.lockFault {
      report := Finish(blank.(result := Failure), Some(LOCK_ERROR), setting, history, notifier);
      return;
    }
    locks.held := locks.held + {job.name};
    executed := true;
    report := Finish(blank.(result := Normalized(setting.execution), details := setting.execution.details),
                     setting.execution.error,
                     setting, history, notifier);
    locks.held := locks.held - {job.name};
  }

  /** The record is in the log once, unless it was invalid or could not be written; only a written one is notified. */
  ghost predicate Filed(report: Report, setting: Setting, before: seq<Record>, after: seq<Record>,
                        notifier: Option<bool>)
    requires report.Reported?
  {
    && after == (if ValidRecord(report.record) && !setting.appendFault.CannotWrite? then before + [report.record]
                 else before)
    && (!ValidRecord(report.record) || setting.appendFault.CannotWrite? ==> report.notWritten)
    && (ValidRecord(report.record) && setting.appendFault.NoFault? ==> !report.notWritten)
    && report.notice == (if report.notWritten || notifier.None? then NotNotified
                         else if notifier.value then Delivered else NoticeFailed)
  }

  /** The `finish` closure: stamp, append, and only then notify. */
  method Finish(draft: Record, error: Option<Error>, setting: Setting, history: History, notifier: Option<bool>)
    returns (report: Report)
    requires history.Valid() && forall i :: 0 <= i < |history.log| ==> history.log[i].runId != draft.runId
    modifies history
    ensures history.Valid() && report.Reported?
    ensures report.record == draft.(finishedAt := setting.finishedAt,
                                    error := if error.Some? then HistoryError(error.value) else draft.error)
    ensures report.error == error
    ensures Filed(report, setting, old(history.log), history.log, notifier)
  {
    var record := draft.(finishedAt := setting.finishedAt,
                         error := if error.Some? then HistoryError(error.value) else draft.error);
    var ok := history.Append(record, setting.appendFault);
    if !ok {
      return Reported(record, error, true, NotNotified);
    }
    var notice := if notifier.None? then NotNotified else if notifier.value then Delivered else NoticeFailed;
    return Reported(record, error, false, notice);
  }
}
