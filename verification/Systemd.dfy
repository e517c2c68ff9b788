/**
 * `internal/maintenance/systemd.go`: maintenance jobs as systemd user services and timers. The desired units are
 * computed, compared with the directory, written or removed, and their timers enabled or disabled, stopping at the
 * first failure.
 */
module Systemd {
  import opened Text
  import opened Ordering
  import opened Reconcile
  import Launchd
  import Paths
  import Quote
  import Runner

  type Job = Launchd.Job

  /** `prefix` starts the project's unit names, `legacyPrefix` those of the older naming without a project. */
  datatype Settings = Settings(
    projectId: string, prefix: string, legacyPrefix: string, executable: string, configPath: string,
    inventoryPath: string, projectRoot: string)

  const LEGACY_PREFIX := "bebop-maintenance-"

  /** A unit file as its sequence of lines; arguments are already escaped. */
  datatype Line =
    | UnitHeader | JobFingerprint(fingerprint: string) | UnitSection | ServiceSection | TimerSection | InstallSection
    | Description(job: string) | OneShot | WorkingDirectory(directory: string) | SafePath
    | ExecStart(arguments: seq<string>)
    | OnCalendar(calendar: string) | Persistent | Unit(name: string) | WantedBy | Raw(text: string)

  type Document = seq<Line>

  function ServiceName(settings: Settings, job: string): string {
    settings.prefix + job + ".service"
  }

  function TimerName(settings: Settings, job: string): string {
    settings.prefix + job + ".timer"
  }

  function LegacyServiceName(settings: Settings, job: string): string {
    settings.legacyPrefix + job + ".service"
  }

  function LegacyTimerName(settings: Settings, job: string): string {
    settings.legacyPrefix + job + ".timer"
  }

  // ---- rendering

  function Escape(value: string): Option<string> {
    Quote.EscapeSystemdArgument(value)
  }

  predicate Escapable(settings: Settings, job: Job) {
    && Escape(settings.executable).Some? && Escape(settings.configPath).Some? && Escape(settings.inventoryPath).Some?
    && Escape(settings.projectRoot).Some? && Escape(job.name).Some? && Escape(ServiceName(settings, job.name)).Some?
  }

  function Program(settings: Settings, job: Job): seq<string> {
    Launchd.Program(settings.executable, settings.configPath, settings.inventoryPath, job.name)
  }

  lemma ProgramIsEscapable(settings: Settings, job: Job)
    requires Escapable(settings, job)
    ensures Quote.EscapeAll(Program(settings, job)).Some?
  {
    FixedWordsAreClean();
    var program := Program(settings, job);
    assert forall i :: 0 <= i < |program| ==> Quote.NoControl(program[i]);
  }

  lemma FixedWordsAreClean()
    ensures Quote.NoControl("maintenance") && Quote.NoControl("run") && Quote.NoControl("--scheduled")
    ensures Quote.NoControl("--config") && Quote.NoControl("--inventory")
  {
  }

  function RenderService(settings: Settings, job: Job, fingerprint: string): Document
    requires Escapable(settings, job)
  {
    ProgramIsEscapable(settings, job);
    ServiceLines(settings, job, fingerprint, Quote.EscapeAll(Program(settings, job)).value)
  }

  function ServiceLines(settings: Settings, job: Job, fingerprint: string, command: seq<string>): Document
    requires Escape(settings.projectRoot).Some?
  {
    [UnitHeader, JobFingerprint(fingerprint), UnitSection, Description(job.name), ServiceSection, OneShot,
     WorkingDirectory(Escape(settings.projectRoot).value), SafePath, ExecStart(command)]
  }

  function DayName(weekday: string): string {
    if weekday == "mon" then "Mon" else if weekday == "tue" then "Tue" else if weekday == "wed" then "Wed"
    else if weekday == "thu" then "Thu" else if weekday == "fri" then "Fri" else if weekday == "sat" then "Sat"
    else if weekday == "sun" then "Sun" else ""
  }

  function CalendarOf(schedule: Launchd.Schedule): string
    requires Launchd.ValidSchedule(schedule)
  {
    match schedule
    case Hourly => "hourly"
    case Daily(at) => "*-*-* " + at + ":00"
    case Weekly(weekday, at) => DayName(weekday) + " *-*-* " + at + ":00"
  }

  function RenderTimer(settings: Settings, job: Job): Document
    requires Escapable(settings, job) && Launchd.ValidSchedule(job.schedule)
  {
    [UnitHeader, UnitSection, Description(job.name), TimerSection, OnCalendar(CalendarOf(job.schedule)), Persistent,
     Unit(Escape(ServiceName(settings, job.name)).value), InstallSection, WantedBy]
  }

  // ---- what systemd reads

  const DAY_NAMES := ["Sun", "Mon", "Tue", "Wed", "Thu", "Fri", "Sat"]

  /** Every day at a full minute: any year, month and day, a time, and no seconds. */
  function ReadDaily(text: string): Option<(int, int)> {
    if |text| == 14 && text[..6] == "*-*-* " && text[11..] == ":00" && Runner.ParseTime(text[6..11]).Some? then
      var time := Runner.ParseTime(text[6..11]).value;
      Some((time / Runner.HOUR, time % Runner.HOUR / Runner.MINUTE))
    else None
  }

  /** The calendar expressions of systemd.time(7) the timers use: a shorthand, a daily time, or one after a day. */
  ghost predicate CalendarReads(text: string, cadence: Launchd.Cadence) {
    match cadence
    case EachHour => text == "hourly"
    case EachDay(hours, minutes) => ReadDaily(text) == Some((hours, minutes))
    case EachWeek(day, hours, minutes) =>
      && 0 <= day < 7 && |text| == 18 && text[..3] == DAY_NAMES[day] && text[3] == ' '
      && ReadDaily(text[4..]) == Some((hours, minutes))
  }

  /** The command the service runs, read by the rules of systemd.service(5). */
  function CommandOf(service: Document): Option<seq<string>> {
    if service == [] then None
    else if service[0].ExecStart? then Quote.ReadExecStart(Quote.JoinWords(service[0].arguments))
    else CommandOf(service[1..])
  }

  predicate Literal(value: string) {
    '$' !in value
  }

  /** Nothing in the command line would be read as a variable, and the executable is named by its path. */
  predicate Plain(settings: Settings, job: Job) {
    && settings.executable != "" && settings.executable[0] == '/'
    && Literal(settings.executable) && Literal(settings.configPath) && Literal(settings.inventoryPath)
    && Literal(job.name)
  }

  /** The service runs the job's command line in the project's directory. */
  ghost predicate DescribesService(service: Document, settings: Settings, job: Job) {
    && Escape(settings.projectRoot).Some? && WorkingDirectory(Escape(settings.projectRoot).value) in service
    && (Plain(settings, job) ==>
          CommandOf(service) == Some([settings.executable, "maintenance", "run", "--scheduled", "--config",
                                      settings.configPath, "--inventory", settings.inventoryPath, job.name]))
  }

  /** The timer starts the job's service, and no other, at the job's times, and at no other. */
  ghost predicate DescribesTimer(timer: Document, settings: Settings, job: Job) {
    && Escape(settings.prefix + job.name + ".service").Some?
    && (forall name :: Unit(name) in timer <==> name == Escape(settings.prefix + job.name + ".service").value)
    && (exists calendar :: OnCalendar(calendar) in timer)
    && forall calendar :: OnCalendar(calendar) in timer ==>
         exists cadence :: CalendarReads(calendar, cadence) && Launchd.Meets(cadence, job.schedule)
  }

  lemma CalendarIsRead(schedule: Launchd.Schedule)
    requires Launchd.ValidSchedule(schedule)
    ensures exists cadence :: CalendarReads(CalendarOf(schedule), cadence) && Launchd.Meets(cadence, schedule)
  {
    match schedule
    case Hourly =>
      assert CalendarReads("hourly", Launchd.EachHour) && Launchd.Meets(Launchd.EachHour, schedule);
    case Daily(at) =>
      var time := Runner.ParseTime(at).value;
      DailyIsRead(at);
      assert CalendarReads(CalendarOf(schedule), Launchd.EachDay(time / Runner.HOUR,
                                                                 time % Runner.HOUR / Runner.MINUTE));
    case Weekly(weekday, at) => WeeklyIsRead(weekday, at);
  }

  lemma DailyIsRead(at: string)
    requires Runner.ParseTime(at).Some?
    ensures var time := Runner.ParseTime(at).value;
            && ReadDaily("*-*-* " + at + ":00") == Some((time / Runner.HOUR, time % Runner.HOUR / Runner.MINUTE))
            && 0 <= time / Runner.HOUR < 24 && 0 <= time % Runner.HOUR / Runner.MINUTE < 60
            && at == Runner.Clock(time / Runner.HOUR, time % Runner.HOUR / Runner.MINUTE)
  {
    Launchd.ClockOf(at);
    assert ("*-*-* " + at + ":00")[6..11] == at;
  }

  lemma WeeklyIsRead(weekday: string, at: string)
    requires Launchd.ValidSchedule(Launchd.Weekly(weekday, at))
    ensures var schedule := Launchd.Weekly(weekday, at);
            exists cadence :: CalendarReads(CalendarOf(schedule), cadence) && Launchd.Meets(cadence, schedule)
  {
    var time, text := Runner.ParseTime(at).value, CalendarOf(Launchd.Weekly(weekday, at));
    DailyIsRead(at);
    var day := Launchd.Weekday(weekday).value;
    assert 0 <= day < 7 && Launchd.WEEKDAYS[day] == weekday;
    assert DayName(weekday) == DAY_NAMES[day];
    assert text[4..] == "*-*-* " + at + ":00";
    assert CalendarReads(text, Launchd.EachWeek(day, time / Runner.HOUR, time % Runner.HOUR / Runner.MINUTE));
  }

  lemma CommandIsRead(settings: Settings, job: Job, fingerprint: string)
    requires Escapable(settings, job) && Plain(settings, job)
    ensures CommandOf(RenderService(settings, job, fingerprint)) == Some(Program(settings, job))
  {
    ProgramIsEscapable(settings, job);
    CommandIsLast(settings, job, fingerprint, Quote.EscapeAll(Program(settings, job)).value);
    ProgramRoundTrip(settings, job);
  }

  lemma ProgramRoundTrip(settings: Settings, job: Job)
    requires Escapable(settings, job) && Plain(settings, job)
    ensures var escaped := Quote.EscapeAll(Program(settings, job));
            escaped.Some? && Quote.ReadExecStart(Quote.JoinWords(escaped.value)) == Some(Program(settings, job))
  {
    ProgramIsEscapable(settings, job);
    ProgramIsPlain(settings, job);
    Quote.ExecStartRoundTrip(Program(settings, job));
  }

  lemma ProgramIsPlain(settings: Settings, job: Job)
    requires Plain(settings, job)
    ensures forall i :: 0 <= i < |Program(settings, job)| ==> Literal(Program(settings, job)[i])
  {
    FixedWordsAreLiteral();
  }

  lemma FixedWordsAreLiteral()
    ensures Literal("maintenance") && Literal("run") && Literal("--scheduled") && Literal("--config")
    ensures Literal("--inventory")
  {
  }

  lemma CommandIsLast(settings: Settings, job: Job, fingerprint: string, command: seq<string>)
    requires Escape(settings.projectRoot).Some?
    ensures CommandOf(ServiceLines(settings, job, fingerprint, command)) ==
            Quote.ReadExecStart(Quote.JoinWords(command))
  {
    var service := ServiceLines(settings, job, fingerprint, command);
    LaterCommand(service[..8], service[8..]);
    assert service == service[..8] + service[8..];
  }

  lemma {:induction false} LaterCommand(before: Document, after: Document)
    requires forall line :: line in before ==> !line.ExecStart?
    ensures CommandOf(before + after) == CommandOf(after)
  {
    if before == [] {
      assert before + after == after;
    } else {
      LaterCommand(before[1..], after);
      assert (before + after)[0] == before[0] && (before + after)[1..] == before[1..] + after;
    }
  }

  /** The rendered units describe their job. */
  lemma ServicesDescribe(settings: Settings, job: Job, fingerprint: string)
    requires Escapable(settings, job)
    ensures DescribesService(RenderService(settings, job, fingerprint), settings, job)
  {
    if Plain(settings, job) {
      CommandIsRead(settings, job, fingerprint);
    }
    ProgramIsEscapable(settings, job);
    DirectoryIsSet(settings, job, fingerprint, Quote.EscapeAll(Program(settings, job)).value);
  }

  lemma TimersDescribe(settings: Settings, job: Job)
    requires Escapable(settings, job) && Launchd.ValidSchedule(job.schedule)
    ensures DescribesTimer(RenderTimer(settings, job), settings, job)
  {
    CalendarIsRead(job.schedule);
    var timer := RenderTimer(settings, job);
    assert timer[4] in timer && timer[6] in timer;
  }

  lemma DirectoryIsSet(settings: Settings, job: Job, fingerprint: string, command: seq<string>)
    requires Escape(settings.projectRoot).Some?
    ensures WorkingDirectory(Escape(settings.projectRoot).value) in ServiceLines(settings, job, fingerprint, command)
  {
    assert ServiceLines(settings, job, fingerprint, command)[6] ==
           WorkingDirectory(Escape(settings.projectRoot).value);
  }

  /** launchd and systemd run a job at the same times. */
  lemma SchedulersAgree(schedule: Launchd.Schedule, a: Launchd.Cadence, b: Launchd.Cadence)
    requires Launchd.Meets(a, schedule) && Launchd.Meets(b, schedule)
    ensures a == b
  {
    if !schedule.Hourly? {
      Runner.ParseTimeReadsClocks(schedule.at);
      Launchd.HoursAndMinutes(a.hours, a.minutes);
      Launchd.HoursAndMinutes(b.hours, b.minutes);
    }
  }

  // ---- ownership

  predicate Headed(artifact: Artifact<Document>) {
    artifact.Regular? && artifact.contents != [] && artifact.contents[0] == UnitHeader
  }

  predicate HasSuffix(s: string, suffix: string) {
    Launchd.HasSuffix(s, suffix)
  }

  /** `ownedUnits`: a name of this project and the managed header. */
  predicate Owns(settings: Settings, name: string, artifact: Artifact<Document>) {
    Paths.HasPrefix(name, settings.prefix) && (HasSuffix(name, ".service") || HasSuffix(name, ".timer"))
      && Headed(artifact)
  }

  function OwnedUnits(settings: Settings, files: Files<Document>): set<string> {
    set name | name in files && Owns(settings, name, files[name])
  }

  /** A service file under the older name belongs here only if it names this project root and this configuration. */
  predicate NamesProject(settings: Settings, contents: Document) {
    && Escape(settings.projectRoot).Some? && Escape(settings.configPath).Some?
    && WorkingDirectory(Escape(settings.projectRoot).value) in contents
    && exists i, k :: 0 <= i < |contents| && contents[i].ExecStart? && 0 <= k < |contents[i].arguments| - 1
                      && contents[i].arguments[k] == "\"--config\""
                      && contents[i].arguments[k + 1] == Escape(settings.configPath).value
  }

  predicate LegacyOwned(settings: Settings, job: Job, files: Files<Document>) {
    var name := LegacyServiceName(settings, job.name);
    name in files && Headed(files[name]) && NamesProject(settings, files[name].contents)
  }

  /** `legacyOwnedUnits`: an owned older service, and its timer if that carries the header. */
  function LegacyUnits(settings: Settings, jobs: seq<Job>, files: Files<Document>): set<string> {
    (set job | job in jobs && LegacyOwned(settings, job, files) :: LegacyServiceName(settings, job.name))
    + (set job | job in jobs && LegacyOwned(settings, job, files) && LegacyTimerName(settings, job.name) in files
                 && Headed(files[LegacyTimerName(settings, job.name)]) :: LegacyTimerName(settings, job.name))
  }

  function Owned(settings: Settings, jobs: seq<Job>, files: Files<Document>): set<string> {
    OwnedUnits(settings, files) + LegacyUnits(settings, jobs, files)
  }

  lemma UnitNameParts(settings: Settings, job: string)
    ensures Paths.HasPrefix(ServiceName(settings, job), settings.prefix)
            && HasSuffix(ServiceName(settings, job), ".service")
    ensures Paths.HasPrefix(TimerName(settings, job), settings.prefix) && HasSuffix(TimerName(settings, job), ".timer")
  {
    assert ServiceName(settings, job) == settings.prefix + (job + ".service");
    assert TimerName(settings, job) == settings.prefix + (job + ".timer");
    assert ServiceName(settings, job)[|settings.prefix + job|..] == ".service";
    assert TimerName(settings, job)[|settings.prefix + job|..] == ".timer";
  }

  /** A service and a timer never share a name, and different stems give different names. */
  lemma UnitNamesApart(a: string, b: string)
    ensures a + ".service" != b + ".timer"
    ensures a != b ==> a + ".service" != b + ".service" && a + ".timer" != b + ".timer"
  {
    var service, timer := a + ".service", b + ".timer";
    assert service[|service| - 1] == 'e' && timer[|timer| - 1] == 'r';
    if |a| == |b| {
      assert service[..|a|] == a && timer[..|b|] == b && (b + ".service")[..|b|] == b && (a + ".timer")[..|a|] == a;
    }
  }

  // ---- desired units

  predicate Renderable(settings: Settings, job: Job) {
    && Launchd.ValidJobName(job.name) && Launchd.ValidSchedule(job.schedule)
    && (job.enabled ==> Escapable(settings, job))
  }

  ghost predicate DesiresJob(settings: Settings, job: Job, fingerprint: string -> string, desired: Desired<Document>) {
    && Renderable(settings, job) && Escapable(settings, job)
    && ServiceName(settings, job.name) in desired && TimerName(settings, job.name) in desired
    && desired[ServiceName(settings, job.name)] == RenderService(settings, job, fingerprint(job.name))
    && desired[TimerName(settings, job.name)] == RenderTimer(settings, job)
  }

  ghost function EnabledNames(settings: Settings, jobs: seq<Job>): set<string> {
    (set job | job in jobs && job.enabled :: ServiceName(settings, job.name))
    + (set job | job in jobs && job.enabled :: TimerName(settings, job.name))
  }

  /** The service and the timer of each enabled job, and nothing else. */
  ghost predicate Desires(settings: Settings, jobs: seq<Job>, fingerprint: string -> string,
                          desired: Desired<Document>)
  {
    && (forall job :: job in jobs && job.enabled ==> DesiresJob(settings, job, fingerprint, desired))
    && desired.Keys == EnabledNames(settings, jobs)
  }

  ghost predicate AllRenderable(settings: Settings, jobs: seq<Job>) {
    && |settings.projectId| == 12 && Launchd.LowerHex(settings.projectId)
    && forall job :: job in jobs ==> Renderable(settings, job)
  }

  /** What is checked of one job; a disabled one is not rendered. */
  method CheckJob(settings: Settings, job: Job) returns (ok: bool)
    ensures ok <==> Renderable(settings, job)
  {
    ok := Launchd.IsValidJobName(job.name);
    if !ok || !Launchd.ValidSchedule(job.schedule) {
      return false;
    }
    return !job.enabled || Escapable(settings, job);
  }

  method DesiredUnits(settings: Settings, jobs: seq<Job>, fingerprint: string -> string)
    returns (desired: Option<Desired<Document>>)
    requires Launchd.DistinctJobs(jobs)
    ensures desired.Some? <==> AllRenderable(settings, jobs)
    ensures desired.Some? ==> Desires(settings, jobs, fingerprint, desired.value)
  {
    var hex := Launchd.IsLowerHex(settings.projectId);
    if |settings.projectId| != 12 || !hex {
      return None;
    }
    var result: Desired<Document> := map[];
    for i := 0 to |jobs|
      invariant forall k :: 0 <= k < i ==> Renderable(settings, jobs[k])
      invariant Desires(settings, jobs[..i], fingerprint, result)
    {
      var job := jobs[i];
      var renderable := CheckJob(settings, job);
      if !renderable {
        assert job in jobs;
        return None;
      }
      if job.enabled {
        DesiresOneMore(settings, jobs, i, fingerprint, result);
        result := result[ServiceName(settings, job.name) := RenderService(settings, job, fingerprint(job.name))]
                        [TimerName(settings, job.name) := RenderTimer(settings, job)];
      } else {
        assert jobs[..i + 1] == jobs[..i] + [job];
      }
    }
    assert jobs[..|jobs|] == jobs;
    return Some(result);
  }

  lemma DesiresOneMore(settings: Settings, jobs: seq<Job>, i: nat, fingerprint: string -> string,
                       desired: Desired<Document>)
    requires Launchd.DistinctJobs(jobs) && i < |jobs| && Desires(settings, jobs[..i], fingerprint, desired)
    requires jobs[i].enabled && Renderable(settings, jobs[i])
    ensures Desires(settings, jobs[..i + 1], fingerprint,
                    desired[ServiceName(settings, jobs[i].name) :=
                            RenderService(settings, jobs[i], fingerprint(jobs[i].name))]
                           [TimerName(settings, jobs[i].name) := RenderTimer(settings, jobs[i])])
  {
    var job := jobs[i];
    NowDesired(settings, job, fingerprint, desired);
    AddedDesired(settings, jobs, i, fingerprint, desired, RenderService(settings, job, fingerprint(job.name)),
                 RenderTimer(settings, job));
  }

  lemma AddedDesired(settings: Settings, jobs: seq<Job>, i: nat, fingerprint: string -> string,
                     desired: Desired<Document>, service: Document, timer: Document)
    requires Launchd.DistinctJobs(jobs) && i < |jobs| && Desires(settings, jobs[..i], fingerprint, desired)
    requires jobs[i].enabled
    requires var name := jobs[i].name;
             DesiresJob(settings, jobs[i], fingerprint,
                        desired[ServiceName(settings, name) := service][TimerName(settings, name) := timer])
    ensures var name := jobs[i].name;
            Desires(settings, jobs[..i + 1], fingerprint,
                    desired[ServiceName(settings, name) := service][TimerName(settings, name) := timer])
  {
    var job := jobs[i];
    var more := desired[ServiceName(settings, job.name) := service][TimerName(settings, job.name) := timer];
    assert jobs[..i + 1] == jobs[..i] + [job];
    EnabledOneMore(settings, jobs[..i], job);
    forall other | other in jobs[..i] && other.enabled
      ensures DesiresJob(settings, other, fingerprint, more)
    {
      EarlierDesired(settings, jobs, i, fingerprint, desired, service, timer, other);
    }
    Assembled(settings, jobs[..i], job, fingerprint, more);
  }

  lemma Assembled(settings: Settings, before: seq<Job>, job: Job, fingerprint: string -> string,
                  desired: Desired<Document>)
    requires forall other :: other in before && other.enabled ==> DesiresJob(settings, other, fingerprint, desired)
    requires DesiresJob(settings, job, fingerprint, desired)
    requires desired.Keys == EnabledNames(settings, before + [job])
    ensures Desires(settings, before + [job], fingerprint, desired)
  {
  }

  lemma EarlierDesired(settings: Settings, jobs: seq<Job>, i: nat, fingerprint: string -> string,
                       desired: Desired<Document>, service: Document, timer: Document, other: Job)
    requires Launchd.DistinctJobs(jobs) && i < |jobs| && other in jobs[..i]
    requires DesiresJob(settings, other, fingerprint, desired)
    ensures var name := jobs[i].name;
            DesiresJob(settings, other, fingerprint,
                       desired[ServiceName(settings, name) := service][TimerName(settings, name) := timer])
  {
    var k :| 0 <= k < i && jobs[k] == other;
    StillDesired(settings, other, jobs[i].name, fingerprint, desired, service, timer);
  }

  /** A job's units stay desired when those of a job of another name are added. */
  lemma StillDesired(settings: Settings, job: Job, name: string, fingerprint: string -> string,
                     desired: Desired<Document>, service: Document, timer: Document)
    requires DesiresJob(settings, job, fingerprint, desired) && job.name != name
    ensures DesiresJob(settings, job, fingerprint,
                       desired[ServiceName(settings, name) := service][TimerName(settings, name) := timer])
  {
    UnitsApart(settings, job.name, name);
  }

  lemma NowDesired(settings: Settings, job: Job, fingerprint: string -> string, desired: Desired<Document>)
    requires Renderable(settings, job) && job.enabled
    ensures DesiresJob(settings, job, fingerprint,
                       desired[ServiceName(settings, job.name) := RenderService(settings, job, fingerprint(job.name))]
                              [TimerName(settings, job.name) := RenderTimer(settings, job)])
  {
    UnitNamesApart(settings.prefix + job.name, settings.prefix + job.name);
  }

  lemma EnabledOneMore(settings: Settings, jobs: seq<Job>, job: Job)
    requires job.enabled
    ensures EnabledNames(settings, jobs + [job]) ==
            EnabledNames(settings, jobs) + {ServiceName(settings, job.name), TimerName(settings, job.name)}
  {
  }

  lemma UnitsApart(settings: Settings, a: string, b: string)
    requires a != b
    ensures ServiceName(settings, a) !in {ServiceName(settings, b), TimerName(settings, b)}
    ensures TimerName(settings, a) !in {ServiceName(settings, b), TimerName(settings, b)}
  {
    StemsApart(settings.prefix, a, b);
    UnitNamesApart(settings.prefix + a, settings.prefix + b);
    UnitNamesApart(settings.prefix + b, settings.prefix + a);
  }

  lemma StemsApart(prefix: string, a: string, b: string)
    requires a != b
    ensures prefix + a != prefix + b
  {
    assert (prefix + a)[|prefix|..] == a && (prefix + b)[|prefix|..] == b;
  }

  // ---- reconciling

  function ChangeOrder(): (Change, Change) -> bool {
    (x: Change, y: Change) => Less(x.unit, y.unit) || (x.unit == y.unit && Rank(x.action) <= Rank(y.action))
  }

  lemma ChangeOrderIsTotal()
    ensures TotalPreorder(ChangeOrder())
    ensures forall x: Change, y: Change :: ChangeOrder()(x, y) && ChangeOrder()(y, x) ==> x == y
  {
    forall x: Change, y: Change
      ensures ChangeOrder()(x, y) || ChangeOrder()(y, x)
      ensures ChangeOrder()(x, y) && ChangeOrder()(y, x) ==> x == y
    {
      LessTotal(x.unit, y.unit);
      if Less(x.unit, y.unit) {
        LessAsymmetric(x.unit, y.unit);
      } else if Less(y.unit, x.unit) {
        LessAsymmetric(y.unit, x.unit);
      }
    }
    forall x: Change, y: Change, z: Change | ChangeOrder()(x, y) && ChangeOrder()(y, z)
      ensures ChangeOrder()(x, z)
    {
      if Less(x.unit, y.unit) && Less(y.unit, z.unit) {
        LessTransitive(x.unit, y.unit, z.unit);
      }
    }
  }

  /** How each file operation and each command to the user manager turns out. */
  datatype World = World(
    available: bool, directory: bool, write: string -> bool, remove: string -> bool, disable: string -> bool,
    reload: bool, enable: string -> bool)

  /** No operation fails. */
  ghost predicate Smooth(world: World) {
    && world.available && world.directory && world.reload
    && forall name: string :: world.write(name) && world.remove(name) && world.disable(name) && world.enable(name)
  }

  /** The job's timer is enabled, and both of its units are there and describe it. */
  ghost predicate AsDeclared(settings: Settings, job: Job, files: Files<Document>, enabled: set<string>) {
    var service, timer := settings.prefix + job.name + ".service", settings.prefix + job.name + ".timer";
    && timer in enabled
    && service in files && files[service].Regular? && DescribesService(files[service].contents, settings, job)
    && timer in files && files[timer].Regular? && DescribesTimer(files[timer].contents, settings, job)
  }

  lemma DesiredAreDeclared(settings: Settings, jobs: seq<Job>, fingerprint: string -> string,
                           desired: Desired<Document>, files: Files<Document>, enabled: set<string>)
    requires Desires(settings, jobs, fingerprint, desired)
    requires forall name :: name in desired ==> name in files && files[name] == Regular(desired[name])
    requires forall job :: job in jobs && job.enabled ==> TimerName(settings, job.name) in enabled
    ensures forall job :: job in jobs && job.enabled ==> AsDeclared(settings, job, files, enabled)
  {
    forall job | job in jobs && job.enabled
      ensures AsDeclared(settings, job, files, enabled)
    {
      assert DesiresJob(settings, job, fingerprint, desired);
      ServicesDescribe(settings, job, fingerprint(job.name));
      TimersDescribe(settings, job);
    }
  }

  class SystemdUser {
    const settings: Settings
    var files: Files<Document>
    var enabled: set<string>

    constructor (settings: Settings, files: Files<Document>, enabled: set<string>)
      requires settings.legacyPrefix == LEGACY_PREFIX
               && settings.prefix == settings.legacyPrefix + settings.projectId + "-"
      ensures this.settings == settings && this.files == files && this.enabled == enabled
    {
      this.settings := settings;
      this.files := files;
      this.enabled := enabled;
    }

    method PlanChanges(jobs: seq<Job>, fingerprint: string -> string)
      returns (changes: Option<seq<Change>>, desired: Desired<Document>)
      requires Launchd.DistinctJobs(jobs)
      ensures changes.Some? <==> AllRenderable(settings, jobs) && !Blocked(files, desired)
      ensures AllRenderable(settings, jobs) ==> Desires(settings, jobs, fingerprint, desired)
      ensures changes.Some? ==> Lists(changes.value, ChangeSet(files, desired, Owned(settings, jobs, files)),
                                      ChangeOrder())
    {
      var compiled := DesiredUnits(settings, jobs, fingerprint);
      if compiled.None? {
        return None, map[];
      }
      desired := compiled.value;
      ChangeOrderIsTotal();
      changes := Changes(files, desired, Owned(settings, jobs, files), ChangeOrder());
    }

    /**
     * Writes every desired unit, retires what is obsolete, reloads, and enables the declared timers. When no command
     * fails it succeeds exactly when everything can be rendered and no unit's name is taken.
     */
    method Install(jobs: seq<Job>, fingerprint: string -> string, dryRun: bool, world: World)
      returns (changes: Option<seq<Change>>, ghost desired: Desired<Document>)
      requires Launchd.DistinctJobs(jobs)
      modifies this
      ensures changes.Some? ==> Desires(settings, jobs, fingerprint, desired)
      ensures changes.Some? ==>
                Lists(changes.value, ChangeSet(old(files), desired, Owned(settings, jobs, old(files))), ChangeOrder())
      ensures changes.Some? && dryRun ==> files == old(files) && enabled == old(enabled)
      ensures changes.Some? && !dryRun ==> files == Reconciled(old(files), desired, Owned(settings, jobs, old(files)))
      ensures changes.Some? && !dryRun ==> forall job :: job in jobs && job.enabled ==>
                AsDeclared(settings, job, files, enabled)
      ensures dryRun ==>
                (changes.Some? <==> AllRenderable(settings, jobs) && !Blocked(files, desired) && world.available)
      ensures !dryRun && Smooth(world) ==>
                (changes.Some? <==> AllRenderable(settings, jobs) && !Blocked(old(files), desired))
    {
      var compiled: Desired<Document>;
      changes, compiled := PlanChanges(jobs, fingerprint);
      desired := compiled;
      if changes.None? || !world.available {
        return None, desired;
      }
      if dryRun {
        return;
      }
      if !world.directory {
        return None, desired;
      }
      var ok := WriteAll(compiled, world);
      if ok {
        ok := DisableListed(changes.value, world);
      }
      if ok {
        WritingAllReconciles(old(files), desired, Owned(settings, jobs, old(files)), changes.value, files);
        ok := RemoveListed(changes.value, world);
      }
      if ok && world.reload {
        ok := EnableAll(jobs, world);
      }
      if !ok || !world.reload {
        return None, desired;
      }
      DesiredAreDeclared(settings, jobs, fingerprint, desired, files, enabled);
    }

    method WriteAll(desired: Desired<Document>, world: World) returns (ok: bool)
      modifies `files
      ensures ok ==> Patched(old(files), desired, desired.Keys, files)
      ensures Smooth(world) && !Blocked(old(files), desired) ==> ok
    {
      var names := Launchd.SortedNames(desired.Keys);
      for i := 0 to |names|
        invariant Patched(old(files), desired, Taken(names, i), files)
      {
        var name := names[i];
        assert name in names;
        if (name in files && files[name].Irregular?) || !world.write(name) {
          return false;
        }
        TakenOneMore(names, i);
        files := files[name := Regular(desired[name])];
      }
      TakenAll(names, desired.Keys);
      return true;
    }

    method DisableListed(changes: seq<Change>, world: World) returns (ok: bool)
      modifies `enabled
      ensures ok ==> forall c :: c in changes && c.action.Remove? && HasSuffix(c.unit, ".timer") ==> c.unit !in enabled
      ensures Smooth(world) ==> ok
    {
      for i := 0 to |changes|
        invariant forall k :: 0 <= k < i && changes[k].action.Remove? && HasSuffix(changes[k].unit, ".timer") ==>
                    changes[k].unit !in enabled
      {
        if changes[i].action.Remove? && HasSuffix(changes[i].unit, ".timer") {
          if !world.disable(changes[i].unit) {
            return false;
          }
          enabled := enabled - {changes[i].unit};
        }
      }
      return true;
    }

    method RemoveListed(changes: seq<Change>, world: World) returns (ok: bool)
      modifies `files
      ensures ok ==> files == old(files) - RemovedNames(changes)
      ensures Smooth(world) ==> ok
    {
      for i := 0 to |changes|
        invariant files == old(files) - RemovedNames(changes[..i])
      {
        OneMoreChange(changes, i);
        if changes[i].action.Remove? {
          if changes[i].unit in files && !world.remove(changes[i].unit) {
            return false;
          }
          files := files - {changes[i].unit};
        }
      }
      assert changes[..|changes|] == changes;
      return true;
    }

    method EnableAll(jobs: seq<Job>, world: World) returns (ok: bool)
      modifies `enabled
      ensures ok ==> forall job :: job in jobs && job.enabled ==> TimerName(settings, job.name) in enabled
      ensures Smooth(world) ==> ok
    {
      for i := 0 to |jobs|
        invariant forall k :: 0 <= k < i && jobs[k].enabled ==> TimerName(settings, jobs[k].name) in enabled
      {
        if jobs[i].enabled {
          if !world.enable(TimerName(settings, jobs[i].name)) {
            return false;
          }
          enabled := enabled + {TimerName(settings, jobs[i].name)};
        }
      }
      return true;
    }

    /** Disables and removes every owned unit, older ones included, and nothing else. */
    method Uninstall(jobs: seq<Job>, world: World) returns (changes: Option<seq<Change>>)
      modifies this
      ensures changes.Some? ==> files == old(files) - Owned(settings, jobs, old(files))
      ensures changes.Some? ==>
                forall name :: name in Owned(settings, jobs, old(files)) && HasSuffix(name, ".timer") ==>
                  name !in enabled
      ensures changes.Some? ==> forall c :: c in changes.value <==>
                c.action.Remove? && c.unit in Owned(settings, jobs, old(files))
      ensures Smooth(world) ==> changes.Some?
    {
      if !world.available {
        return None;
      }
      var names := Launchd.SortedNames(Owned(settings, jobs, files));
      var removed: seq<Change> := [];
      for i := 0 to |names|
        invariant files == old(files) - Taken(names, i)
        invariant forall k :: 0 <= k < i && HasSuffix(names[k], ".timer") ==> names[k] !in enabled
        invariant forall c :: c in removed <==> c.action.Remove? && c.unit in Taken(names, i)
      {
        if HasSuffix(names[i], ".timer") {
          if !world.disable(names[i]) {
            return None;
          }
          enabled := enabled - {names[i]};
        }
        if names[i] in files && !world.remove(names[i]) {
          return None;
        }
        TakenOneMore(names, i);
        files := files - {names[i]};
        removed := removed + [Change(Remove, names[i])];
      }
      TakenAll(names, Owned(settings, jobs, old(files)));
      return if removed != [] && !world.reload then None else Some(removed);
    }
  }

  ghost function Taken(names: seq<string>, n: nat): set<string>
    requires n <= |names|
  {
    set name | name in names[..n]
  }

  lemma TakenOneMore(names: seq<string>, n: nat)
    requires n < |names|
    ensures Taken(names, n + 1) == Taken(names, n) + {names[n]}
  {
    assert names[..n + 1] == names[..n] + [names[n]];
  }

  lemma TakenAll(names: seq<string>, all: set<string>)
    requires forall name :: name in names <==> name in all
    ensures Taken(names, |names|) == all
  {
    assert names[..|names|] == names;
  }

  // ---- what installing and uninstalling come to

  /** When a current service name is also an older one, so is the timer's. */
  lemma OlderNamesPair(settings: Settings, a: string, b: string)
    requires ServiceName(settings, a) == LegacyServiceName(settings, b)
    ensures TimerName(settings, a) == LegacyTimerName(settings, b)
  {
    if settings.prefix + a != settings.legacyPrefix + b {
      UnitNamesApart(settings.prefix + a, settings.legacyPrefix + b);
      assert false;
    }
  }

  lemma DesiredIsOwned(settings: Settings, jobs: seq<Job>, fingerprint: string -> string, desired: Desired<Document>,
                       name: string)
    requires Desires(settings, jobs, fingerprint, desired) && name in desired
    ensures Owns(settings, name, Regular(desired[name]))
  {
    assert name in EnabledNames(settings, jobs);
    var job :| job in jobs && job.enabled && name in {ServiceName(settings, job.name), TimerName(settings, job.name)};
    assert DesiresJob(settings, job, fingerprint, desired);
    UnitNameParts(settings, job.name);
  }

  /** An older service name that is desired comes with its timer. */
  lemma DesiredOlderPair(settings: Settings, jobs: seq<Job>, job: Job)
    requires LegacyServiceName(settings, job.name) in EnabledNames(settings, jobs)
    ensures LegacyTimerName(settings, job.name) in EnabledNames(settings, jobs)
  {
    var name := LegacyServiceName(settings, job.name);
    var other :| other in jobs && other.enabled
      && name in {ServiceName(settings, other.name), TimerName(settings, other.name)};
    UnitNamesApart(settings.legacyPrefix + job.name, settings.prefix + other.name);
    OlderNamesPair(settings, other.name, job.name);
  }

  /** What is owned after an installation and not desired was owned before it. */
  lemma NothingNewOwned(settings: Settings, jobs: seq<Job>, desired: Desired<Document>, files: Files<Document>,
                        after: Files<Document>, name: string)
    requires desired.Keys == EnabledNames(settings, jobs)
    requires after == Reconciled(files, desired, Owned(settings, jobs, files))
    requires name in Owned(settings, jobs, after) && name !in desired
    ensures name in Owned(settings, jobs, files)
  {
    KeptAsWas(files, desired, Owned(settings, jobs, files));
    if name !in OwnedUnits(settings, after) {
      var job :| job in jobs && LegacyOwned(settings, job, after)
                 && name in {LegacyServiceName(settings, job.name), LegacyTimerName(settings, job.name)};
      if LegacyServiceName(settings, job.name) in desired {
        DesiredOlderPair(settings, jobs, job);
        assert false;
      } else {
        OwnedAsBefore(settings, job, files, after);
      }
    }
  }

  lemma OwnedAsBefore(settings: Settings, job: Job, files: Files<Document>, after: Files<Document>)
    requires LegacyOwned(settings, job, after)
    requires LegacyServiceName(settings, job.name) in files
    requires files[LegacyServiceName(settings, job.name)] == after[LegacyServiceName(settings, job.name)]
    ensures LegacyOwned(settings, job, files)
  {
  }

  lemma KeptAsWas(files: Files<Document>, desired: Desired<Document>, owned: set<string>)
    ensures forall name :: name in Reconciled(files, desired, owned) && name !in desired ==>
              name in files && Reconciled(files, desired, owned)[name] == files[name]
  {
  }

  /** After an installation every desired unit is owned, and every owned unit is desired. */
  lemma InstalledOwnsExactlyDesired(settings: Settings, jobs: seq<Job>, fingerprint: string -> string,
                                    desired: Desired<Document>, files: Files<Document>)
    requires Desires(settings, jobs, fingerprint, desired)
    ensures Owned(settings, jobs, Reconciled(files, desired, Owned(settings, jobs, files))) == desired.Keys
  {
    var after := Reconciled(files, desired, Owned(settings, jobs, files));
    DesiredAreOwned(settings, jobs, fingerprint, desired, after);
    NothingNewIsOwned(settings, jobs, desired, files, after);
    OwnedAfterwards(files, desired, Owned(settings, jobs, files), Owned(settings, jobs, after));
  }

  lemma DesiredAreOwned(settings: Settings, jobs: seq<Job>, fingerprint: string -> string, desired: Desired<Document>,
                        after: Files<Document>)
    requires Desires(settings, jobs, fingerprint, desired)
    requires forall name :: name in desired ==> name in after && after[name] == Regular(desired[name])
    ensures desired.Keys <= Owned(settings, jobs, after) <= after.Keys
  {
    forall name | name in desired
      ensures name in Owned(settings, jobs, after)
    {
      DesiredIsOwned(settings, jobs, fingerprint, desired, name);
    }
  }

  lemma NothingNewIsOwned(settings: Settings, jobs: seq<Job>, desired: Desired<Document>, files: Files<Document>,
                          after: Files<Document>)
    requires desired.Keys == EnabledNames(settings, jobs)
    requires after == Reconciled(files, desired, Owned(settings, jobs, files))
    ensures forall name :: name in Owned(settings, jobs, after) && name !in desired ==>
              name in Owned(settings, jobs, files)
  {
    forall name | name in Owned(settings, jobs, after) && name !in desired
      ensures name in Owned(settings, jobs, files)
    {
      NothingNewOwned(settings, jobs, desired, files, after, name);
    }
  }

  /** Installing again changes nothing; uninstalling leaves only what was never owned or desired. */
  lemma InstallThenAgainOrUninstall(settings: Settings, jobs: seq<Job>, fingerprint: string -> string,
                                    desired: Desired<Document>, files: Files<Document>)
    requires Desires(settings, jobs, fingerprint, desired)
    ensures var after := Reconciled(files, desired, Owned(settings, jobs, files));
            && ChangeSet(after, desired, Owned(settings, jobs, after)) == {}
            && after - Owned(settings, jobs, after) == files - Owned(settings, jobs, files) - desired.Keys
  {
    InstalledOwnsExactlyDesired(settings, jobs, fingerprint, desired, files);
    NothingLeft(files, desired, Owned(settings, jobs, files), desired.Keys);
    DesiredTakenAway(files, desired, Owned(settings, jobs, files));
  }

  /**
   * What another program or project put there stays, installing or uninstalling: a file without the managed header, or
   * under a name of neither naming, or under an older name that no declared job's older service of this project has.
   */
  lemma ForeignStays(settings: Settings, jobs: seq<Job>, desired: Desired<Document>, files: Files<Document>,
                     name: string)
    requires name in files && name !in desired
    requires || files[name].Irregular? || files[name].contents == [] || files[name].contents[0] != UnitHeader
             || ((|name| < |settings.prefix| || name[..|settings.prefix|] != settings.prefix)
                 && forall job :: job in jobs && name in {settings.legacyPrefix + job.name + ".service",
                                                          settings.legacyPrefix + job.name + ".timer"} ==>
                      OfAnotherProject(settings, files, settings.legacyPrefix + job.name + ".service"))
    ensures var after := Reconciled(files, desired, Owned(settings, jobs, files));
            name in after && after[name] == files[name]
    ensures var after := files - Owned(settings, jobs, files);
            name in after && after[name] == files[name]
  {
    assert name !in OwnedUnits(settings, files);
    forall job | job in jobs && LegacyOwned(settings, job, files)
      ensures name != LegacyServiceName(settings, job.name)
      ensures Headed(files[name]) ==> name != LegacyTimerName(settings, job.name)
    {
    }
    assert name !in LegacyUnits(settings, jobs, files);
  }

  /** The service is missing, or does not name this project's directory and this configuration. */
  ghost predicate OfAnotherProject(settings: Settings, files: Files<Document>, service: string) {
    || service !in files || files[service].Irregular?
    || (forall directory :: WorkingDirectory(directory) in files[service].contents ==>
          Escape(settings.projectRoot) != Some(directory))
    || forall i :: 0 <= i < |files[service].contents| && files[service].contents[i].ExecStart? ==>
         forall k :: 0 < k < |files[service].contents[i].arguments| ==>
           files[service].contents[i].arguments[k - 1] != "\"--config\""
             || Escape(settings.configPath) != Some(files[service].contents[i].arguments[k])
  }
}
