/**
 * `internal/maintenance/launchd.go`: maintenance jobs as LaunchAgents. The desired plists are computed, compared with
 * the directory, written or removed, and loaded or booted out, stopping at the first failure.
 */
module Launchd {
  import opened Text
  import opened Ordering
  import opened Reconcile
  import Paths
  import Runner

  datatype Schedule = Hourly | Daily(at: string) | Weekly(weekday: string, at: string) | OtherSchedule

  datatype Job = Job(name: string, enabled: bool, schedule: Schedule)

  /** `prefix` is what every label of the project starts with. */
  datatype Settings = Settings(
    projectId: string, prefix: string, executable: string, configPath: string, inventoryPath: string,
    projectRoot: string, home: string, safePath: string)

  function LabelPrefix(projectId: string): string {
    "com.bebop." + projectId + ".maintenance."
  }

  // ---- rendering: a plist as its sequence of markup pieces

  datatype PlistKey =
    | LabelKey | ProgramArguments | WorkingDirectory | EnvironmentVariables | HomeKey | PathKey | ProcessType
    | StartInterval | StartCalendarInterval | WeekdayKey | HourKey | MinuteKey

  datatype Piece =
    | Declaration | ManagedMarker | OpenDict | CloseDict | OpenArray | CloseArray | ClosePlist
    | Key(key: PlistKey) | StringElement(value: string) | IntegerElement(number: int) | Raw(text: string)

  type Document = seq<Piece>

  function Weekday(value: string): Option<int> {
    if value == "sun" then Some(0) else if value == "mon" then Some(1) else if value == "tue" then Some(2)
    else if value == "wed" then Some(3) else if value == "thu" then Some(4) else if value == "fri" then Some(5)
    else if value == "sat" then Some(6) else None
  }

  predicate ValidSchedule(schedule: Schedule) {
    match schedule
    case Hourly => true
    case Daily(at) => Runner.ParseTime(at).Some?
    case Weekly(weekday, at) => Weekday(weekday).Some? && Runner.ParseTime(at).Some?
    case OtherSchedule => false
  }

  function RenderTime(time: int): Document {
    [Key(HourKey), IntegerElement(time / Runner.HOUR), Key(MinuteKey),
     IntegerElement(time % Runner.HOUR / Runner.MINUTE)]
  }

  function RenderSchedule(schedule: Schedule): Document
    requires ValidSchedule(schedule)
  {
    match schedule
    case Hourly => [Key(StartInterval), IntegerElement(3600)]
    case Daily(at) => [Key(StartCalendarInterval), OpenDict] + RenderTime(Runner.ParseTime(at).value) + [CloseDict]
    case Weekly(weekday, at) =>
      [Key(StartCalendarInterval), OpenDict, Key(WeekdayKey), IntegerElement(Weekday(weekday).value)]
      + RenderTime(Runner.ParseTime(at).value) + [CloseDict]
  }

  function Label(settings: Settings, job: string): string {
    settings.prefix + job
  }

  function PlistName(settings: Settings, job: string): string {
    Label(settings, job) + ".plist"
  }

  predicate AbsolutePaths(settings: Settings) {
    && Paths.IsAbs(settings.executable) && Paths.IsAbs(settings.projectRoot) && Paths.IsAbs(settings.configPath)
    && Paths.IsAbs(settings.inventoryPath) && Paths.IsAbs(settings.home)
  }

  /** The command line of a job, the same under every scheduler. */
  function Program(executable: string, configPath: string, inventoryPath: string, job: string): seq<string> {
    [executable, "maintenance", "run", "--scheduled", "--config", configPath, "--inventory", inventoryPath, job]
  }

  function Strings(arguments: seq<string>): (pieces: Document)
    ensures |pieces| == |arguments|
  {
    seq(|arguments|, i requires 0 <= i < |arguments| => StringElement(arguments[i]))
  }

  function BeforeArguments(settings: Settings, job: Job): Document {
    [Declaration, ManagedMarker, OpenDict, Key(LabelKey), StringElement(Label(settings, job.name)),
     Key(ProgramArguments), OpenArray]
  }

  function AfterArguments(settings: Settings): Document {
    [CloseArray, Key(WorkingDirectory), StringElement(settings.projectRoot), Key(EnvironmentVariables), OpenDict,
     Key(HomeKey), StringElement(settings.home), Key(PathKey), StringElement(settings.safePath), CloseDict,
     Key(ProcessType), StringElement("Background")]
  }

  function RenderPlist(settings: Settings, job: Job): Document
    requires ValidSchedule(job.schedule)
  {
    BeforeArguments(settings, job)
    + (Strings(Program(settings.executable, settings.configPath, settings.inventoryPath, job.name))
       + (AfterArguments(settings) + (RenderSchedule(job.schedule) + [CloseDict, ClosePlist])))
  }

  // ---- ownership

  predicate HasSuffix(s: string, suffix: string) {
    |s| >= |suffix| && s[|s| - |suffix|..] == suffix
  }

  function TrimPlist(name: string): string {
    if HasSuffix(name, ".plist") then name[..|name| - 6] else name
  }

  /** `ownedPlists`: a name of this project, and contents that carry the marker, the label and this configuration. */
  predicate Owns(settings: Settings, name: string, artifact: Artifact<Document>) {
    && Paths.HasPrefix(name, settings.prefix) && HasSuffix(name, ".plist") && artifact.Regular?
    && ManagedMarker in artifact.contents && StringElement(TrimPlist(name)) in artifact.contents
    && StringElement(settings.configPath) in artifact.contents
  }

  function Owned(settings: Settings, files: Files<Document>): set<string> {
    set name | name in files && Owns(settings, name, files[name])
  }

  lemma PlistNameParts(settings: Settings, job: string)
    ensures Paths.HasPrefix(PlistName(settings, job), settings.prefix)
    ensures HasSuffix(PlistName(settings, job), ".plist") && TrimPlist(PlistName(settings, job)) == Label(settings, job)
  {
    assert PlistName(settings, job) == settings.prefix + (job + ".plist");
    assert PlistName(settings, job)[|Label(settings, job)|..] == ".plist";
  }

  lemma PiecesRendered(settings: Settings, job: Job)
    requires ValidSchedule(job.schedule)
    ensures ManagedMarker in RenderPlist(settings, job)
    ensures StringElement(Label(settings, job.name)) in RenderPlist(settings, job)
    ensures StringElement(settings.configPath) in RenderPlist(settings, job)
  {
    var before := BeforeArguments(settings, job);
    var program := Program(settings.executable, settings.configPath, settings.inventoryPath, job.name);
    assert before[1] == ManagedMarker && before[4] == StringElement(Label(settings, job.name));
    assert program[5] == settings.configPath && Strings(program)[5] == StringElement(settings.configPath);
    assert StringElement(settings.configPath) in Strings(program);
  }

  /** Every rendering passes the ownership test. */
  lemma RenderingsAreOwned(settings: Settings, job: Job)
    requires ValidSchedule(job.schedule)
    ensures Owns(settings, PlistName(settings, job.name), Regular(RenderPlist(settings, job)))
  {
    PlistNameParts(settings, job.name);
    PiecesRendered(settings, job);
  }

  // ---- what launchd reads

  const WEEKDAYS := ["sun", "mon", "tue", "wed", "thu", "fri", "sat"]

  /** When a job runs; days count from Sunday. */
  datatype Cadence = EachHour | EachDay(hours: int, minutes: int) | EachWeek(day: int, hours: int, minutes: int)

  predicate Meets(cadence: Cadence, schedule: Schedule) {
    match (schedule, cadence)
    case (Hourly, EachHour) => true
    case (Daily(at), EachDay(hours, minutes)) =>
      0 <= hours < 24 && 0 <= minutes < 60 && at == Runner.Clock(hours, minutes)
    case (Weekly(weekday, at), EachWeek(day, hours, minutes)) =>
      && 0 <= day < 7 && WEEKDAYS[day] == weekday
      && 0 <= hours < 24 && 0 <= minutes < 60 && at == Runner.Clock(hours, minutes)
    case _ => false
  }

  /** The integer that follows the key where it is first used, if it is. */
  function IntegerAt(document: Document, key: PlistKey): Option<int> {
    if document == [] then None
    else if document[0] == Key(key) && |document| > 1 && document[1].IntegerElement? then Some(document[1].number)
    else IntegerAt(document[1..], key)
  }

  /** A start interval of an hour, or a calendar interval with an hour, a minute and maybe a weekday. */
  function CadenceOf(document: Document): Option<Cadence> {
    if Key(StartCalendarInterval) !in document then
      if IntegerAt(document, StartInterval) == Some(3600) then Some(EachHour) else None
    else
      match (IntegerAt(document, WeekdayKey), IntegerAt(document, HourKey), IntegerAt(document, MinuteKey))
      case (None, Some(hours), Some(minutes)) => Some(EachDay(hours, minutes))
      case (Some(day), Some(hours), Some(minutes)) => Some(EachWeek(day, hours, minutes))
      case _ => None
  }

  predicate StandsAt(document: Document, part: Document, i: nat) {
    i + |part| <= |document| && document[i..i + |part|] == part
  }

  ghost predicate Has(document: Document, part: Document) {
    exists i: nat :: StandsAt(document, part, i)
  }

  /** The document is about the job: its label, its command line, the directory it runs in, and its times. */
  ghost predicate Describes(document: Document, settings: Settings, job: Job) {
    && Has(document, [Key(LabelKey), StringElement(settings.prefix + job.name)])
    && Has(document, [Key(ProgramArguments), OpenArray]
                     + Strings([settings.executable, "maintenance", "run", "--scheduled", "--config",
                                settings.configPath, "--inventory", settings.inventoryPath, job.name]) + [CloseArray])
    && Has(document, [Key(WorkingDirectory), StringElement(settings.projectRoot)])
    && CadenceOf(document).Some? && Meets(CadenceOf(document).value, job.schedule)
  }

  lemma {:induction false} KeyComesLater(before: Document, after: Document, key: PlistKey)
    requires Key(key) !in before
    ensures IntegerAt(before + after, key) == IntegerAt(after, key)
  {
    if before == [] {
      assert before + after == after;
    } else {
      KeyComesLater(before[1..], after, key);
      assert (before + after)[0] == before[0] && (before + after)[1..] == before[1..] + after;
    }
  }

  predicate TimeKey(key: PlistKey) {
    key == StartInterval || key == WeekdayKey || key == HourKey || key == MinuteKey
  }

  /** Nothing before the schedule uses one of its keys. */
  lemma OnlyTheScheduleTimes(settings: Settings, job: Job, key: PlistKey)
    requires ValidSchedule(job.schedule) && TimeKey(key)
    ensures var tail := RenderSchedule(job.schedule) + [CloseDict, ClosePlist];
            IntegerAt(RenderPlist(settings, job), key) == IntegerAt(tail, key)
  {
    var tail := RenderSchedule(job.schedule) + [CloseDict, ClosePlist];
    var program := Program(settings.executable, settings.configPath, settings.inventoryPath, job.name);
    KeyComesLater(BeforeArguments(settings, job), Strings(program) + (AfterArguments(settings) + tail), key);
    KeyComesLater(Strings(program), AfterArguments(settings) + tail, key);
    KeyComesLater(AfterArguments(settings), tail, key);
  }

  lemma OnlyTheScheduleIsTimed(settings: Settings, job: Job)
    requires ValidSchedule(job.schedule)
    ensures Key(StartCalendarInterval) in RenderPlist(settings, job) <==>
            Key(StartCalendarInterval) in RenderSchedule(job.schedule) + [CloseDict, ClosePlist]
  {
  }

  lemma TimesRead(time: int, after: Document)
    requires 0 <= time < Runner.DAY
    ensures IntegerAt(RenderTime(time) + after, HourKey) == Some(time / Runner.HOUR)
    ensures IntegerAt(RenderTime(time) + after, MinuteKey) == Some(time % Runner.HOUR / Runner.MINUTE)
    ensures IntegerAt(RenderTime(time) + after, WeekdayKey) == IntegerAt(after, WeekdayKey)
  {
    var head, rest := RenderTime(time)[..2], RenderTime(time)[2..] + after;
    assert RenderTime(time) + after == head + rest;
    KeyComesLater(head, rest, MinuteKey);
    KeyComesLater(RenderTime(time), after, WeekdayKey);
  }

  lemma ScheduleReads(schedule: Schedule)
    requires ValidSchedule(schedule)
    ensures var read := CadenceOf(RenderSchedule(schedule) + [CloseDict, ClosePlist]);
            read.Some? && Meets(read.value, schedule)
  {
    var tail := [CloseDict, CloseDict, ClosePlist];
    assert forall key :: TimeKey(key) ==> Key(key) !in tail;
    KeyComesLater(tail, [], WeekdayKey);
    assert tail + [] == tail;
    match schedule
    case Hourly =>
    case Daily(at) =>
      var time := Runner.ParseTime(at).value;
      ClockOf(at);
      TimesRead(time, tail);
      DailyReads([Key(StartCalendarInterval), OpenDict], RenderTime(time) + tail);
      assert RenderSchedule(schedule) + [CloseDict, ClosePlist] ==
             [Key(StartCalendarInterval), OpenDict] + (RenderTime(time) + tail);
    case Weekly(weekday, at) => WeeklyReads(weekday, at, tail);
  }

  lemma WeeklyReads(weekday: string, at: string, tail: Document)
    requires ValidSchedule(Weekly(weekday, at)) && tail == [CloseDict, CloseDict, ClosePlist]
    ensures var read := CadenceOf(RenderSchedule(Weekly(weekday, at)) + [CloseDict, ClosePlist]);
            read.Some? && Meets(read.value, Weekly(weekday, at))
  {
    var time := Runner.ParseTime(at).value;
    ClockOf(at);
    TimesRead(time, tail);
    var opening, inner := [Key(StartCalendarInterval), OpenDict], RenderTime(time) + tail;
    DayReads(Weekday(weekday).value, inner);
    var named := [Key(WeekdayKey), IntegerElement(Weekday(weekday).value)] + inner;
    DailyReads(opening, named);
    assert RenderSchedule(Weekly(weekday, at)) + [CloseDict, ClosePlist] == opening + named;
  }

  lemma DayReads(day: int, inner: Document)
    ensures var document := [Key(WeekdayKey), IntegerElement(day)] + inner;
            && IntegerAt(document, WeekdayKey) == Some(day)
            && IntegerAt(document, HourKey) == IntegerAt(inner, HourKey)
            && IntegerAt(document, MinuteKey) == IntegerAt(inner, MinuteKey)
  {
    KeyComesLater([Key(WeekdayKey), IntegerElement(day)], inner, HourKey);
    KeyComesLater([Key(WeekdayKey), IntegerElement(day)], inner, MinuteKey);
  }

  lemma DailyReads(opening: Document, rest: Document)
    requires opening == [Key(StartCalendarInterval), OpenDict]
    ensures forall key :: TimeKey(key) ==> IntegerAt(opening + rest, key) == IntegerAt(rest, key)
    ensures Key(StartCalendarInterval) in opening + rest
  {
    forall key | TimeKey(key)
      ensures IntegerAt(opening + rest, key) == IntegerAt(rest, key)
    {
      KeyComesLater(opening, rest, key);
    }
    assert opening[0] in opening + rest;
  }

  /** A parsed time and the clock it was read from. */
  lemma ClockOf(at: string)
    requires Runner.ParseTime(at).Some?
    ensures var time := Runner.ParseTime(at).value;
            && 0 <= time / Runner.HOUR < 24 && 0 <= time % Runner.HOUR / Runner.MINUTE < 60
            && at == Runner.Clock(time / Runner.HOUR, time % Runner.HOUR / Runner.MINUTE)
  {
    Runner.ParseTimeReadsClocks(at);
    var hours, minutes :| 0 <= hours < 24 && 0 <= minutes < 60 && at == Runner.Clock(hours, minutes);
    HoursAndMinutes(hours, minutes);
  }

  lemma HoursAndMinutes(hours: int, minutes: int)
    requires 0 <= hours < 24 && 0 <= minutes < 60
    ensures var time := hours * Runner.HOUR + minutes * Runner.MINUTE;
            time / Runner.HOUR == hours && time % Runner.HOUR / Runner.MINUTE == minutes
  {
    Quotient(hours, minutes * Runner.MINUTE, Runner.HOUR);
    Quotient(minutes, 0, Runner.MINUTE);
  }

  lemma Quotient(q: int, r: int, d: int)
    requires 0 <= r < d
    ensures (q * d + r) / d == q && (q * d + r) % d == r
  {
    var x := q * d + r;
    assert (x / d - q) * d == r - x % d;
    NoMultipleBetween(x / d - q, d);
  }

  lemma NoMultipleBetween(k: int, d: int)
    requires d > 0
    ensures k == 0 || k * d >= d || k * d <= -d
  {
  }

  /** Every rendering describes its job. */
  lemma RenderingsDescribe(settings: Settings, job: Job)
    requires ValidSchedule(job.schedule)
    ensures Describes(RenderPlist(settings, job), settings, job)
  {
    var document := RenderPlist(settings, job);
    forall key | TimeKey(key)
      ensures IntegerAt(document, key) ==
              IntegerAt(RenderSchedule(job.schedule) + [CloseDict, ClosePlist], key)
    {
      OnlyTheScheduleTimes(settings, job, key);
    }
    OnlyTheScheduleIsTimed(settings, job);
    ScheduleReads(job.schedule);
    PartsRendered(settings, job);
  }

  lemma PartsRendered(settings: Settings, job: Job)
    requires ValidSchedule(job.schedule)
    ensures var document := RenderPlist(settings, job);
            && Has(document, [Key(LabelKey), StringElement(settings.prefix + job.name)])
            && Has(document, [Key(ProgramArguments), OpenArray]
                             + Strings([settings.executable, "maintenance", "run", "--scheduled", "--config",
                                        settings.configPath, "--inventory", settings.inventoryPath, job.name])
                             + [CloseArray])
            && Has(document, [Key(WorkingDirectory), StringElement(settings.projectRoot)])
  {
    var document := RenderPlist(settings, job);
    assert StandsAt(document, [Key(LabelKey), StringElement(settings.prefix + job.name)], 3);
    CommandRendered(settings, job);
    assert StandsAt(document, [Key(WorkingDirectory), StringElement(settings.projectRoot)], 17);
  }

  lemma CommandRendered(settings: Settings, job: Job)
    requires ValidSchedule(job.schedule)
    ensures StandsAt(RenderPlist(settings, job),
                     [Key(ProgramArguments), OpenArray]
                     + Strings([settings.executable, "maintenance", "run", "--scheduled", "--config",
                                settings.configPath, "--inventory", settings.inventoryPath, job.name])
                     + [CloseArray], 5)
  {
  }

  // ---- desired artifacts

  predicate LowerHex(value: string) {
    forall i :: 0 <= i < |value| ==> '0' <= value[i] <= '9' || 'a' <= value[i] <= 'f'
  }

  predicate ValidJobName(value: string) {
    && 0 < |value| <= 63 && 'a' <= value[0] <= 'z'
    && forall i :: 0 <= i < |value| ==> 'a' <= value[i] <= 'z' || '0' <= value[i] <= '9' || value[i] == '-'
  }

  predicate ValidLabel(value: string) {
    0 < |value| <= 128
    && forall i :: 0 <= i < |value| ==>
         'a' <= value[i] <= 'z' || '0' <= value[i] <= '9' || value[i] == '.' || value[i] == '-'
  }

  predicate Renderable(settings: Settings, job: Job) {
    && ValidJobName(job.name) && ValidSchedule(job.schedule)
    && (job.enabled ==> AbsolutePaths(settings) && ValidLabel(Label(settings, job.name)))
  }

  ghost predicate DistinctJobs(jobs: seq<Job>) {
    forall i, j :: 0 <= i < j < |jobs| ==> jobs[i].name != jobs[j].name
  }

  ghost predicate DesiresJob(settings: Settings, job: Job, desired: Desired<Document>) {
    && ValidSchedule(job.schedule) && PlistName(settings, job.name) in desired
    && desired[PlistName(settings, job.name)] == RenderPlist(settings, job)
  }

  ghost function EnabledNames(settings: Settings, jobs: seq<Job>): set<string> {
    set job | job in jobs && job.enabled :: PlistName(settings, job.name)
  }

  /** Each enabled job under its own name, and nothing else. */
  ghost predicate Desires(settings: Settings, jobs: seq<Job>, desired: Desired<Document>) {
    && (forall job :: job in jobs && job.enabled ==> DesiresJob(settings, job, desired))
    && desired.Keys == EnabledNames(settings, jobs)
  }

  method IsLowerHex(value: string) returns (ok: bool)
    ensures ok <==> LowerHex(value)
  {
    for i := 0 to |value|
      invariant LowerHex(value[..i])
    {
      var c := value[i];
      if !('0' <= c <= '9' || 'a' <= c <= 'f') {
        return false;
      }
      TakeOneMore(value, i);
    }
    assert value[..|value|] == value;
    return true;
  }

  method IsValidJobName(value: string) returns (ok: bool)
    ensures ok <==> ValidJobName(value)
  {
    if value == "" || |value| > 63 {
      return false;
    }
    for i := 0 to |value|
      invariant forall k :: 0 <= k < i ==>
                  (k == 0 ==> 'a' <= value[k] <= 'z')
                  && ('a' <= value[k] <= 'z' || '0' <= value[k] <= '9' || value[k] == '-')
    {
      var c := value[i];
      if !('a' <= c <= 'z' || '0' <= c <= '9' || c == '-') || (i == 0 && !('a' <= c <= 'z')) {
        return false;
      }
    }
    return true;
  }

  method IsValidLabel(value: string) returns (ok: bool)
    ensures ok <==> ValidLabel(value)
  {
    if |value| == 0 || |value| > 128 {
      return false;
    }
    for i := 0 to |value|
      invariant forall k :: 0 <= k < i ==>
                  'a' <= value[k] <= 'z' || '0' <= value[k] <= '9' || value[k] == '.' || value[k] == '-'
    {
      var c := value[i];
      if !('a' <= c <= 'z' || '0' <= c <= '9' || c == '.' || c == '-') {
        return false;
      }
    }
    return true;
  }

  /** What is checked of one job; a disabled one is not rendered. */
  method CheckJob(settings: Settings, job: Job) returns (ok: bool)
    ensures ok <==> Renderable(settings, job)
  {
    ok := IsValidJobName(job.name);
    if !ok || !ValidSchedule(job.schedule) {
      return false;
    }
    if !job.enabled {
      return true;
    }
    if !Paths.IsAbs(settings.executable) || !Paths.IsAbs(settings.configPath) || !Paths.IsAbs(settings.inventoryPath)
      || !Paths.IsAbs(settings.projectRoot) || !Paths.IsAbs(settings.home) {
      return false;
    }
    ok := IsValidLabel(Label(settings, job.name));
  }

  ghost predicate AllRenderable(settings: Settings, jobs: seq<Job>) {
    && |settings.projectId| == 12 && LowerHex(settings.projectId)
    && forall job :: job in jobs ==> Renderable(settings, job)
  }

  method DesiredPlists(settings: Settings, jobs: seq<Job>) returns (desired: Option<Desired<Document>>)
    requires DistinctJobs(jobs)
    ensures desired.Some? <==> AllRenderable(settings, jobs)
    ensures desired.Some? ==> Desires(settings, jobs, desired.value)
  {
    var hex := IsLowerHex(settings.projectId);
    if |settings.projectId| != 12 || !hex {
      return None;
    }
    var result: Desired<Document> := map[];
    for i := 0 to |jobs|
      invariant forall k :: 0 <= k < i ==> Renderable(settings, jobs[k])
      invariant Desires(settings, jobs[..i], result)
    {
      var job := jobs[i];
      var renderable := CheckJob(settings, job);
      if !renderable {
        assert job in jobs;
        return None;
      }
      DesiresOneMore(settings, jobs, i, result);
      if job.enabled {
        result := result[PlistName(settings, job.name) := RenderPlist(settings, job)];
      }
    }
    assert jobs[..|jobs|] == jobs;
    return Some(result);
  }

  lemma NamesApart(settings: Settings, a: string, b: string)
    requires PlistName(settings, a) == PlistName(settings, b)
    ensures a == b
  {
    PlistNameParts(settings, a);
    PlistNameParts(settings, b);
    assert a == Label(settings, a)[|settings.prefix|..] && b == Label(settings, b)[|settings.prefix|..];
  }

  lemma DesiresOneMore(settings: Settings, jobs: seq<Job>, i: nat, desired: Desired<Document>)
    requires DistinctJobs(jobs) && i < |jobs| && Desires(settings, jobs[..i], desired) && Renderable(settings, jobs[i])
    ensures Desires(settings, jobs[..i + 1],
                    if jobs[i].enabled
                    then desired[PlistName(settings, jobs[i].name) := RenderPlist(settings, jobs[i])] else desired)
  {
    var job := jobs[i];
    assert jobs[..i + 1] == jobs[..i] + [job];
    forall other | other in jobs[..i]
      ensures PlistName(settings, other.name) != PlistName(settings, job.name)
    {
      var k :| 0 <= k < i && jobs[k] == other;
      NamesDiffer(settings, other.name, job.name);
    }
  }

  lemma NamesDiffer(settings: Settings, a: string, b: string)
    requires a != b
    ensures PlistName(settings, a) != PlistName(settings, b)
  {
    if PlistName(settings, a) == PlistName(settings, b) {
      NamesApart(settings, a, b);
    }
  }

  // ---- reconciling

  function ChangeOrder(): (Change, Change) -> bool {
    (x: Change, y: Change) => Rank(x.action) < Rank(y.action) || (x.action == y.action && AtMost(x.unit, y.unit))
  }

  lemma ChangeOrderIsTotal()
    ensures TotalPreorder(ChangeOrder())
    ensures forall x: Change, y: Change :: ChangeOrder()(x, y) && ChangeOrder()(y, x) ==> x == y
  {
    forall x: Change, y: Change
      ensures ChangeOrder()(x, y) || ChangeOrder()(y, x)
      ensures ChangeOrder()(x, y) && ChangeOrder()(y, x) ==> x == y
    {
      LessTotal(x.unit, y.unit);
      if Less(x.unit, y.unit) {
        LessAsymmetric(x.unit, y.unit);
      } else if Less(y.unit, x.unit) {
        LessAsymmetric(y.unit, x.unit);
      }
    }
    forall x: Change, y: Change, z: Change | ChangeOrder()(x, y) && ChangeOrder()(y, z)
      ensures ChangeOrder()(x, z)
    {
      if x.action == y.action == z.action {
        AtMostTransitive(x.unit, y.unit, z.unit);
      }
    }
  }

  /** How each command issued to the target's launchd turns out. */
  datatype World = World(
    available: bool, directory: bool, bootout: string -> bool, remove: string -> bool, lint: string -> bool,
    inspect: string -> bool, bootstrap: string -> bool)

  /** No command fails. */
  ghost predicate Smooth(world: World) {
    && world.available && world.directory
    && forall name: string :: world.bootout(name) && world.remove(name) && world.lint(name) && world.inspect(name)
                              && world.bootstrap(name)
  }

  /** An enabled job is loaded from a plist that describes it; a disabled one is neither loaded nor has a plist. */
  ghost predicate AsDeclared(settings: Settings, job: Job, files: Files<Document>, loaded: set<string>) {
    var native, plist := settings.prefix + job.name, settings.prefix + job.name + ".plist";
    if job.enabled then
      && native in loaded && plist in files && files[plist].Regular?
      && Describes(files[plist].contents, settings, job)
    else native !in loaded && plist !in files
  }

  /** A disabled job leaves nothing behind that is not this project's to take away. */
  ghost predicate NoneForeign(settings: Settings, jobs: seq<Job>, files: Files<Document>, loaded: set<string>) {
    forall job :: job in jobs && !job.enabled ==>
      || PlistName(settings, job.name) in Owned(settings, files)
      || (PlistName(settings, job.name) !in files && Label(settings, job.name) !in loaded)
  }

  predicate SettledJob(settings: Settings, job: Job, files: Files<Document>, loaded: set<string>) {
    if job.enabled then Label(settings, job.name) in loaded
    else Label(settings, job.name) !in loaded && PlistName(settings, job.name) !in files
  }

  predicate Current(settings: Settings, job: Job, files: Files<Document>, desired: Desired<Document>) {
    var name := PlistName(settings, job.name);
    name in desired && name in files && files[name] == Regular(desired[name])
  }

  /** Nothing that is to be removed, or to be written, is in the way as something other than a regular file. */
  ghost predicate NoIrregular(changes: seq<Change>, files: Files<Document>, removals: bool) {
    forall c :: c in changes && c.action.Remove? == removals && c.unit in files ==> files[c.unit].Regular?
  }

  ghost function BootedOut(changes: seq<Change>): set<string> {
    set c | c in changes && !c.action.Install? :: TrimPlist(c.unit)
  }

  ghost function EnabledLabels(settings: Settings, jobs: seq<Job>): set<string> {
    set job | job in jobs && job.enabled :: Label(settings, job.name)
  }

  /** A disabled job's label is loaded afterwards exactly when it was and its plist was not this project's. */
  lemma LoadedAfterwards(settings: Settings, jobs: seq<Job>, files: Files<Document>, before: set<string>,
                         desired: Desired<Document>, changes: seq<Change>, after: set<string>)
    requires DistinctJobs(jobs) && Desires(settings, jobs, desired)
    requires forall c :: c in changes <==> c in ChangeSet(files, desired, Owned(settings, files))
    requires after == before - BootedOut(changes) + EnabledLabels(settings, jobs)
    ensures forall job :: job in jobs ==>
              (Label(settings, job.name) in after <==>
                 job.enabled || (Label(settings, job.name) in before
                                 && PlistName(settings, job.name) !in Owned(settings, files)))
    ensures forall job :: job in jobs && !job.enabled ==> PlistName(settings, job.name) !in desired
  {
    forall job | job in jobs && !job.enabled
      ensures PlistName(settings, job.name) !in desired && Label(settings, job.name) !in EnabledLabels(settings, jobs)
      ensures Label(settings, job.name) in BootedOut(changes) <==>
              PlistName(settings, job.name) in Owned(settings, files)
    {
      DisabledApart(settings, jobs, job);
      BootedOutMeansOwned(settings, jobs, files, desired, changes, job);
    }
  }

  lemma DisabledApart(settings: Settings, jobs: seq<Job>, job: Job)
    requires DistinctJobs(jobs) && job in jobs && !job.enabled
    ensures PlistName(settings, job.name) !in EnabledNames(settings, jobs)
    ensures Label(settings, job.name) !in EnabledLabels(settings, jobs)
  {
    forall other | other in jobs && other.enabled
      ensures PlistName(settings, other.name) != PlistName(settings, job.name)
      ensures Label(settings, other.name) != Label(settings, job.name)
    {
      assert other.name != job.name;
      NamesDiffer(settings, other.name, job.name);
    }
  }

  lemma BootedOutMeansOwned(settings: Settings, jobs: seq<Job>, files: Files<Document>, desired: Desired<Document>,
                            changes: seq<Change>, job: Job)
    requires Desires(settings, jobs, desired) && PlistName(settings, job.name) !in desired
    requires forall c :: c in changes <==> c in ChangeSet(files, desired, Owned(settings, files))
    ensures Label(settings, job.name) in BootedOut(changes) <==>
            PlistName(settings, job.name) in Owned(settings, files)
  {
    PlistNameParts(settings, job.name);
    if PlistName(settings, job.name) in Owned(settings, files) {
      assert Change(Remove, PlistName(settings, job.name)) in changes;
    }
    if Label(settings, job.name) in BootedOut(changes) {
      var c :| c in changes && !c.action.Install? && TrimPlist(c.unit) == Label(settings, job.name);
      ListedIsPlist(settings, jobs, files, desired, c);
      assert c.unit == PlistName(settings, job.name);
    }
  }

  lemma ListedIsPlist(settings: Settings, jobs: seq<Job>, files: Files<Document>, desired: Desired<Document>, c: Change)
    requires Desires(settings, jobs, desired) && c in ChangeSet(files, desired, Owned(settings, files))
    ensures HasSuffix(c.unit, ".plist") && c.unit == TrimPlist(c.unit) + ".plist"
  {
    if c.unit in desired {
      DesiredIsOwned(settings, jobs, desired, c.unit);
    }
  }

  ghost predicate StatusFine(settings: Settings, jobs: seq<Job>, desired: Desired<Document>, files: Files<Document>,
                             loaded: set<string>)
  {
    forall job :: job in jobs ==>
      SettledJob(settings, job, files, loaded) && (job.enabled ==> Current(settings, job, files, desired))
  }

  /** Once everything went through, the closing check fails exactly for what is foreign. */
  lemma StatusMeans(settings: Settings, jobs: seq<Job>, files: Files<Document>, loaded: set<string>,
                    desired: Desired<Document>, changes: seq<Change>, after: Files<Document>, loadedAfter: set<string>)
    requires DistinctJobs(jobs) && Desires(settings, jobs, desired)
    requires forall c :: c in changes <==> c in ChangeSet(files, desired, Owned(settings, files))
    requires after == Reconciled(files, desired, Owned(settings, files))
    requires loadedAfter == loaded - BootedOut(changes) + EnabledLabels(settings, jobs)
    ensures StatusFine(settings, jobs, desired, after, loadedAfter) <==> NoneForeign(settings, jobs, files, loaded)
  {
    LoadedAfterwards(settings, jobs, files, loaded, desired, changes, loadedAfter);
    forall job | job in jobs
      ensures SettledJob(settings, job, after, loadedAfter) && (job.enabled ==> Current(settings, job, after, desired))
              <==> (!job.enabled ==>
                      || PlistName(settings, job.name) in Owned(settings, files)
                      || (PlistName(settings, job.name) !in files && Label(settings, job.name) !in loaded))
    {
      JobStatusMeans(settings, job, files, loaded, desired, after, loadedAfter);
    }
  }

  lemma JobStatusMeans(settings: Settings, job: Job, files: Files<Document>, loaded: set<string>,
                       desired: Desired<Document>, after: Files<Document>, loadedAfter: set<string>)
    requires after == Reconciled(files, desired, Owned(settings, files))
    requires if job.enabled then DesiresJob(settings, job, desired) else PlistName(settings, job.name) !in desired
    requires Label(settings, job.name) in loadedAfter <==>
             job.enabled || (Label(settings, job.name) in loaded
                             && PlistName(settings, job.name) !in Owned(settings, files))
    ensures SettledJob(settings, job, after, loadedAfter) && (job.enabled ==> Current(settings, job, after, desired))
            <==> (!job.enabled ==>
                    || PlistName(settings, job.name) in Owned(settings, files)
                    || (PlistName(settings, job.name) !in files && Label(settings, job.name) !in loaded))
  {
  }

  lemma SettledAsDeclared(settings: Settings, jobs: seq<Job>, desired: Desired<Document>, files: Files<Document>,
                          loaded: set<string>)
    requires Desires(settings, jobs, desired) && StatusFine(settings, jobs, desired, files, loaded)
    ensures forall job :: job in jobs ==> AsDeclared(settings, job, files, loaded)
  {
    forall job | job in jobs
      ensures AsDeclared(settings, job, files, loaded)
    {
      if job.enabled {
        RenderingsDescribe(settings, job);
      }
    }
  }

  class Launchd {
    const settings: Settings
    var files: Files<Document>
    var loaded: set<string>

    constructor (settings: Settings, files: Files<Document>, loaded: set<string>)
      requires settings.prefix == LabelPrefix(settings.projectId)
      ensures this.settings == settings && this.files == files && this.loaded == loaded
    {
      this.settings := settings;
      this.files := files;
      this.loaded := loaded;
    }

    method PlanChanges(jobs: seq<Job>) returns (changes: Option<seq<Change>>, desired: Desired<Document>)
      requires DistinctJobs(jobs)
      ensures changes.Some? <==> AllRenderable(settings, jobs) && !Blocked(files, desired)
      ensures AllRenderable(settings, jobs) ==> Desires(settings, jobs, desired)
      ensures changes.Some? ==> Lists(changes.value, ChangeSet(files, desired, Owned(settings, files)), ChangeOrder())
    {
      var compiled := DesiredPlists(settings, jobs);
      if compiled.None? {
        return None, map[];
      }
      desired := compiled.value;
      ChangeOrderIsTotal();
      changes := Changes(files, desired, Owned(settings, files), ChangeOrder());
    }

    /**
     * Boots out what is updated or removed, removes, writes what changed, and loads what is not loaded. When no command
     * fails it succeeds exactly when everything can be rendered and nothing foreign is in the way.
     */
    method Install(jobs: seq<Job>, dryRun: bool, world: World)
      returns (changes: Option<seq<Change>>, ghost desired: Desired<Document>)
      requires DistinctJobs(jobs)
      modifies this
      ensures changes.Some? ==> Desires(settings, jobs, desired)
      ensures changes.Some? ==> Lists(changes.value, ChangeSet(old(files), desired, Owned(settings, old(files))),
                                      ChangeOrder())
      ensures changes.Some? && dryRun ==> files == old(files) && loaded == old(loaded)
      ensures changes.Some? && !dryRun ==>
                && files == Reconciled(old(files), desired, Owned(settings, old(files)))
                && forall job :: job in jobs ==> AsDeclared(settings, job, files, loaded)
      ensures dryRun ==>
                (changes.Some? <==> AllRenderable(settings, jobs) && !Blocked(files, desired) && world.available)
      ensures !dryRun && Smooth(world) ==>
                (changes.Some? <==>
                   && AllRenderable(settings, jobs) && !Blocked(old(files), desired)
                   && NoneForeign(settings, jobs, old(files), old(loaded)))
    {
      var compiled: Desired<Document>;
      changes, compiled := PlanChanges(jobs);
      desired := compiled;
      if changes.None? || !world.available {
        return None, desired;
      }
      if dryRun {
        return;
      }
      var ok := Carry(jobs, changes.value, compiled, world);
      if !ok {
        return None, desired;
      }
    }

    /** What an installation does once the changes are known. */
    method Carry(jobs: seq<Job>, changes: seq<Change>, desired: Desired<Document>, world: World) returns (ok: bool)
      requires DistinctJobs(jobs) && Desires(settings, jobs, desired) && !Blocked(files, desired)
      requires forall c :: c in changes <==> c in ChangeSet(files, desired, Owned(settings, files))
      modifies this
      ensures ok ==> files == Reconciled(old(files), desired, Owned(settings, old(files)))
      ensures ok ==> forall job :: job in jobs ==> AsDeclared(settings, job, files, loaded)
      ensures Smooth(world) ==> (ok <==> NoneForeign(settings, jobs, old(files), old(loaded)))
    {
      if !world.directory {
        return false;
      }
      ChangedNames(files, desired, Owned(settings, files), changes);
      ok := BootOut(changes, world);
      if ok {
        ok := RemoveListed(changes, world);
      }
      if ok {
        ok := WriteListed(changes, desired, world);
      }
      if ok {
        ok := Load(jobs, world);
      }
      if !ok {
        return false;
      }
      ChangesReconcile(old(files), desired, Owned(settings, old(files)), changes, files);
      StatusMeans(settings, jobs, old(files), old(loaded), desired, changes, files, loaded);
      ok := CheckStatus(jobs, desired);
      if ok {
        SettledAsDeclared(settings, jobs, desired, files, loaded);
      }
    }

    method BootOut(changes: seq<Change>, world: World) returns (ok: bool)
      modifies `loaded
      ensures ok ==> loaded == old(loaded) - BootedOut(changes)
      ensures Smooth(world) ==> ok
    {
      for i := 0 to |changes|
        invariant loaded == old(loaded) - BootedOut(changes[..i])
      {
        assert changes[..i + 1] == changes[..i] + [changes[i]];
        if changes[i].action.Update? || changes[i].action.Remove? {
          if !world.bootout(TrimPlist(changes[i].unit)) {
            return false;
          }
          loaded := loaded - {TrimPlist(changes[i].unit)};
        }
      }
      assert changes[..|changes|] == changes;
      return true;
    }

    method RemoveListed(changes: seq<Change>, world: World) returns (ok: bool)
      modifies `files
      ensures ok ==> files == old(files) - RemovedNames(changes)
      ensures Smooth(world) && NoIrregular(changes, old(files), true) ==> ok
    {
      for i := 0 to |changes|
        invariant files == old(files) - RemovedNames(changes[..i])
      {
        OneMoreChange(changes, i);
        if changes[i].action.Remove? {
          var name := changes[i].unit;
          if name in files && (files[name].Irregular? || !world.remove(name)) {
            return false;
          }
          files := files - {name};
        }
      }
      assert changes[..|changes|] == changes;
      return true;
    }

    method WriteListed(changes: seq<Change>, desired: Desired<Document>, world: World) returns (ok: bool)
      requires forall c :: c in changes && !c.action.Remove? ==> c.unit in desired
      modifies `files
      ensures ok ==> Patched(old(files), desired, WrittenNames(changes), files)
      ensures Smooth(world) && NoIrregular(changes, old(files), false) ==> ok
    {
      for i := 0 to |changes|
        invariant Patched(old(files), desired, WrittenNames(changes[..i]), files)
      {
        OneMoreChange(changes, i);
        if !changes[i].action.Remove? {
          var name := changes[i].unit;
          if (name in files && files[name].Irregular?) || !world.lint(name) {
            return false;
          }
          files := files[name := Regular(desired[name])];
        }
      }
      assert changes[..|changes|] == changes;
      return true;
    }

    method Load(jobs: seq<Job>, world: World) returns (ok: bool)
      modifies `loaded
      ensures ok ==> loaded == old(loaded) + EnabledLabels(settings, jobs)
      ensures Smooth(world) ==> ok
    {
      for i := 0 to |jobs|
        invariant loaded == old(loaded) + EnabledLabels(settings, jobs[..i])
      {
        assert jobs[..i + 1] == jobs[..i] + [jobs[i]];
        if jobs[i].enabled {
          var native := Label(settings, jobs[i].name);
          if !world.inspect(native) || (native !in loaded && !world.bootstrap(native)) {
            return false;
          }
          loaded := loaded + {native};
        }
      }
      assert jobs[..|jobs|] == jobs;
      return true;
    }

    /** The closing `Status` pass: every enabled job current, every disabled one gone. */
    method CheckStatus(jobs: seq<Job>, desired: Desired<Document>) returns (ok: bool)
      requires desired.Keys == EnabledNames(settings, jobs)
      ensures ok <==> StatusFine(settings, jobs, desired, files, loaded)
    {
      for i := 0 to |jobs|
        invariant forall k :: 0 <= k < i ==>
                    && SettledJob(settings, jobs[k], files, loaded)
                    && (jobs[k].enabled ==> Current(settings, jobs[k], files, desired))
      {
        assert jobs[i] in jobs;
        if !SettledJob(settings, jobs[i], files, loaded)
          || (jobs[i].enabled && !Current(settings, jobs[i], files, desired)) {
          return false;
        }
      }
      return true;
    }

    /** Removes every owned artifact and nothing else. */
    method Uninstall(world: World) returns (changes: Option<seq<Change>>)
      modifies this
      ensures changes.Some? ==> files == old(files) - Owned(settings, old(files))
      ensures changes.Some? ==> forall name :: name in Owned(settings, old(files)) ==> TrimPlist(name) !in loaded
      ensures changes.Some? ==> forall c :: c in changes.value <==>
                c.action.Remove? && c.unit in Owned(settings, old(files))
      ensures Smooth(world) ==> changes.Some?
    {
      if !world.available {
        return None;
      }
      var names := SortedNames(Owned(settings, files));
      var removed: seq<Change> := [];
      for i := 0 to |names|
        invariant files == old(files) - (set k | 0 <= k < i :: names[k])
        invariant forall c :: c in removed <==> c.action.Remove? && c.unit in names[..i]
        invariant forall k :: 0 <= k < i ==> TrimPlist(names[k]) !in loaded
      {
        assert names[i] in names;
        if !world.bootout(TrimPlist(names[i])) {
          return None;
        }
        loaded := loaded - {TrimPlist(names[i])};
        if names[i] in files && (files[names[i]].Irregular? || !world.remove(names[i])) {
          return None;
        }
        files := files - {names[i]};
        assert names[..i + 1] == names[..i] + [names[i]];
        removed := removed + [Change(Remove, names[i])];
      }
      assert names[..|names|] == names;
      return Some(removed);
    }
  }

  method SortedNames(names: set<string>) returns (sorted: seq<string>)
    ensures forall name :: name in sorted <==> name in names
    ensures Sorted(sorted)
  {
    var found: seq<string> := [];
    var todo := names;
    while todo != {}
      invariant todo <= names && forall name :: name in found <==> name in names - todo
      decreases todo
    {
      var name :| name in todo;
      found := found + [name];
      todo := todo - {name};
    }
    sorted := SortStrings(found);
    SameElements(found, sorted);
  }

  // ---- what installing and uninstalling come to

  lemma DesiredIsOwned(settings: Settings, jobs: seq<Job>, desired: Desired<Document>, name: string)
    requires Desires(settings, jobs, desired) && name in desired
    ensures Owns(settings, name, Regular(desired[name]))
  {
    assert name in EnabledNames(settings, jobs);
    var job :| job in jobs && job.enabled && PlistName(settings, job.name) == name;
    assert DesiresJob(settings, job, desired);
    RenderingsAreOwned(settings, job);
  }

  /** After an installation every desired artifact is owned, and every owned artifact is desired. */
  lemma InstalledOwnsExactlyDesired(settings: Settings, jobs: seq<Job>, desired: Desired<Document>,
                                    files: Files<Document>)
    requires Desires(settings, jobs, desired)
    ensures Owned(settings, Reconciled(files, desired, Owned(settings, files))) == desired.Keys
  {
    var after := Reconciled(files, desired, Owned(settings, files));
    forall name | name in desired
      ensures name in Owned(settings, after)
    {
      DesiredIsOwned(settings, jobs, desired, name);
    }
    OwnedAfterwards(files, desired, Owned(settings, files), Owned(settings, after));
  }

  /**
   * Installing twice changes nothing the second time; uninstalling after installing leaves the directory without any
   * owned or desired artifact and otherwise untouched.
   */
  lemma InstallThenAgainOrUninstall(settings: Settings, jobs: seq<Job>, desired: Desired<Document>,
                                    files: Files<Document>)
    requires Desires(settings, jobs, desired)
    ensures var after := Reconciled(files, desired, Owned(settings, files));
            && ChangeSet(after, desired, Owned(settings, after)) == {}
            && after - Owned(settings, after) == files - Owned(settings, files) - desired.Keys
  {
    InstalledOwnsExactlyDesired(settings, jobs, desired, files);
    NothingLeft(files, desired, Owned(settings, files), desired.Keys);
    DesiredTakenAway(files, desired, Owned(settings, files));
  }

  /** What another program or project put there stays, installing or uninstalling. */
  lemma ForeignStays(settings: Settings, desired: Desired<Document>, files: Files<Document>, name: string)
    requires name in files && name !in desired
    requires || |name| < |settings.prefix| || name[..|settings.prefix|] != settings.prefix
             || |name| < 6 || name[|name| - 6..] != ".plist"
             || files[name].Irregular? || ManagedMarker !in files[name].contents
             || StringElement(name[..|name| - 6]) !in files[name].contents
             || StringElement(settings.configPath) !in files[name].contents
    ensures var after := Reconciled(files, desired, Owned(settings, files));
            name in after && after[name] == files[name]
    ensures var after := files - Owned(settings, files);
            name in after && after[name] == files[name]
  {
  }
}
