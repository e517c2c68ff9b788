/** `internal/notification/service.go` and `state.go`. */
module NotificationService {
  // Issues, per-route delivery marks, and the transaction around a batch. The saved issues are proved to be exactly
  // what the committed trace says.

  import opened Text
  import opened Ordering
  import opened Keyed
  import opened NotificationTrace

  datatype RouteDelivery = RouteDelivery(route: string, delivered: bool, lastNotified: int)

  datatype Issue = Issue(
    fingerprint: string, typ: string, severity: Severity, target: string, summary: string,
    firstSeen: int, lastSeen: int, deliveries: seq<RouteDelivery>)

  datatype Outcome = Delivered | Failed | AlreadyActive

  datatype DeliveryResult = DeliveryResult(fingerprint: string, sink: string, route: string, attemptedAt: int,
                                           outcome: Outcome)

  datatype Policy = Policy(enabled: bool, notifyManual: bool, routes: seq<Route>)

  function IssueKey(issue: Issue): string { issue.fingerprint }

  function RouteKey(delivery: RouteDelivery): string { delivery.route }

  function NewIssue(event: Event): Issue {
    Issue(event.fingerprint, event.typ, event.severity, event.target, event.summary,
          event.occurredAt, event.occurredAt, [])
  }

  /** The issue as the event leaves it: when it was first seen, and who was told, stay as they were. */
  function Updated(issue: Issue, event: Event): Issue {
    issue.(typ := event.typ, severity := event.severity, lastSeen := event.occurredAt, summary := event.summary)
  }

  function RouteDeliveryOf(issue: Issue, route: string): RouteDelivery {
    match Find(issue.deliveries, RouteKey, route)
    case Some(delivery) => delivery
    case None => RouteDelivery(route, false, 0)
  }

  predicate ValidIssue(issue: Issue) {
    && |issue.fingerprint| == 64 && issue.typ != "" && issue.target != "" && issue.summary != ""
    && issue.firstSeen != 0 && issue.lastSeen != 0 && !issue.severity.Recovery?
  }

  /** The loop over a loaded state: every issue is complete, and none of them is a recovery. */
  method CheckIssues(issues: seq<Issue>) returns (ok: bool)
    ensures ok <==> forall issue :: issue in issues ==>
              && |issue.fingerprint| == 64 && issue.typ != "" && issue.target != "" && issue.summary != ""
              && issue.firstSeen != 0 && issue.lastSeen != 0
              && (issue.severity.Info? || issue.severity.Warning? || issue.severity.Error?)
  {
    for i := 0 to |issues|
      invariant forall k :: 0 <= k < i ==> ValidIssue(issues[k])
    {
      if !ValidIssue(issues[i]) {
        assert issues[i] in issues;
        return false;
      }
    }
    return true;
  }

  // ---- the state and the trace agree

  ghost function StoredSeverity(issues: seq<Issue>, fp: string): Option<Severity> {
    match Find(issues, IssueKey, fp)
    case None => None
    case Some(issue) => Some(issue.severity)
  }

  ghost function IssueMark(issue: Issue, route: string): Option<int> {
    var delivery := RouteDeliveryOf(issue, route);
    if delivery.delivered then Some(delivery.lastNotified) else None
  }

  ghost function StoredMark(issues: seq<Issue>, fp: string, route: string): Option<int> {
    match Find(issues, IssueKey, fp)
    case None => None
    case Some(issue) => IssueMark(issue, route)
  }

  /** Open issues have distinct fingerprints, and severities and marks are those the trace defines. */
  ghost predicate Faithful(issues: seq<Issue>, trace: Trace) {
    && DistinctKeys(issues, IssueKey)
    && (forall i :: 0 <= i < |issues| ==> DistinctKeys(issues[i].deliveries, RouteKey))
    && (forall fp :: Recorded(trace, fp) == StoredSeverity(issues, fp))
    && forall fp, route :: Mark(trace, fp, route) == StoredMark(issues, fp, route)
  }

  lemma FaithfulQuiet(issues: seq<Issue>, trace: Trace, e: Entry)
    requires Faithful(issues, trace)
    requires e.Suppressed? || (e.Attempted? && !(e.kind.Problem? && e.delivered))
    ensures Faithful(issues, trace + [e])
  {
    forall fp, route
      ensures Recorded(trace + [e], fp) == Recorded(trace, fp)
      ensures Mark(trace + [e], fp, route) == Mark(trace, fp, route)
    {
      Step(trace, e, fp, route);
    }
    forall fp
      ensures Recorded(trace + [e], fp) == StoredSeverity(issues, fp)
    {
      Step(trace, e, fp, "");
    }
  }

  lemma FaithfulOpen(issues: seq<Issue>, trace: Trace, event: Event)
    requires Faithful(issues, trace) && Find(issues, IssueKey, event.fingerprint).None?
    ensures Faithful(issues + [NewIssue(event)], trace + [Opened(event.fingerprint, event.severity)])
  {
    var e := Opened(event.fingerprint, event.severity);
    var issues' := issues + [NewIssue(event)];
    FindAppended(issues, IssueKey, NewIssue(event), event.fingerprint);
    forall fp
      ensures Recorded(trace + [e], fp) == StoredSeverity(issues', fp)
    {
      Step(trace, e, fp, "");
      FindAppended(issues, IssueKey, NewIssue(event), fp);
    }
    forall fp, route
      ensures Mark(trace + [e], fp, route) == StoredMark(issues', fp, route)
    {
      Step(trace, e, fp, route);
      FindAppended(issues, IssueKey, NewIssue(event), fp);
    }
  }

  /** Replacing one issue's details, with the marks kept, goes with observing its new severity. */
  lemma FaithfulObserve(issues: seq<Issue>, trace: Trace, i: nat, issue: Issue)
    requires Faithful(issues, trace) && i < |issues|
    requires issue.fingerprint == issues[i].fingerprint && issue.deliveries == issues[i].deliveries
    ensures Faithful(issues[i := issue], trace + [Observed(issue.fingerprint, issues[i].severity, issue.severity)])
  {
    var e := Observed(issue.fingerprint, issues[i].severity, issue.severity);
    var issues' := issues[i := issue];
    FindEntry(issues, IssueKey, i);
    FindUpdated(issues, IssueKey, i, issue, issue.fingerprint);
    forall fp
      ensures Recorded(trace + [e], fp) == StoredSeverity(issues', fp)
    {
      Step(trace, e, fp, "");
      FindUpdated(issues, IssueKey, i, issue, fp);
    }
    forall fp, route
      ensures Mark(trace + [e], fp, route) == StoredMark(issues', fp, route)
    {
      Step(trace, e, fp, route);
      FindUpdated(issues, IssueKey, i, issue, fp);
    }
  }

  /** Setting one mark goes with one successful delivery. */
  lemma FaithfulDelivered(issues: seq<Issue>, trace: Trace, i: nat, deliveries: seq<RouteDelivery>, route: Route,
                          at: int)
    requires Faithful(issues, trace) && i < |issues| && DistinctKeys(deliveries, RouteKey)
    requires forall r :: Find(deliveries, RouteKey, r) ==
                         if r == route.name then Some(RouteDelivery(r, true, at))
                         else Find(issues[i].deliveries, RouteKey, r)
    ensures Faithful(issues[i := issues[i].(deliveries := deliveries)],
                     trace + [Attempted(Problem, issues[i].fingerprint, route, at, true)])
  {
    var e := Attempted(Problem, issues[i].fingerprint, route, at, true);
    var issue := issues[i].(deliveries := deliveries);
    var issues' := issues[i := issue];
    FindEntry(issues, IssueKey, i);
    FindUpdated(issues, IssueKey, i, issue, issue.fingerprint);
    forall fp
      ensures Recorded(trace + [e], fp) == StoredSeverity(issues', fp)
    {
      Step(trace, e, fp, "");
      FindUpdated(issues, IssueKey, i, issue, fp);
    }
    forall fp, r
      ensures Mark(trace + [e], fp, r) == StoredMark(issues', fp, r)
    {
      Step(trace, e, fp, r);
      FindUpdated(issues, IssueKey, i, issue, fp);
    }
  }

  lemma FaithfulClose(issues: seq<Issue>, trace: Trace, i: nat)
    requires Faithful(issues, trace) && i < |issues|
    ensures Faithful(issues[..i] + issues[i + 1..], trace + [Closed(issues[i].fingerprint)])
  {
    var e := Closed(issues[i].fingerprint);
    var issues' := issues[..i] + issues[i + 1..];
    FindRemoved(issues, IssueKey, i, "");
    forall fp
      ensures Recorded(trace + [e], fp) == StoredSeverity(issues', fp)
    {
      Step(trace, e, fp, "");
      FindRemoved(issues, IssueKey, i, fp);
    }
    forall fp, route
      ensures Mark(trace + [e], fp, route) == StoredMark(issues', fp, route)
    {
      Step(trace, e, fp, route);
      FindRemoved(issues, IssueKey, i, fp);
    }
  }

  lemma FaithfulRearranged(issues: seq<Issue>, issues': seq<Issue>, trace: Trace)
    requires Faithful(issues, trace) && multiset(issues) == multiset(issues')
    ensures Faithful(issues', trace)
  {
    SameElements(issues, issues');
    DistinctKeysRearranged(issues, issues', IssueKey);
    forall fp
      ensures Find(issues, IssueKey, fp) == Find(issues', IssueKey, fp)
    {
      FindRearranged(issues, issues', IssueKey, fp);
    }
    forall i | 0 <= i < |issues'|
      ensures DistinctKeys(issues'[i].deliveries, RouteKey)
    {
      assert issues'[i] in issues;
    }
  }

  // ---- orders used for sorting

  predicate DeliveryAtMost(a: RouteDelivery, b: RouteDelivery) { AtMost(a.route, b.route) }

  predicate IssueAtMost(a: Issue, b: Issue) { AtMost(a.fingerprint, b.fingerprint) }

  predicate EventAtMost(a: Event, b: Event) {
    if a.fingerprint != b.fingerprint then Less(a.fingerprint, b.fingerprint) else AtMost(a.typ, b.typ)
  }

  lemma Orders()
    ensures TotalPreorder(DeliveryAtMost) && TotalPreorder(IssueAtMost) && TotalPreorder(EventAtMost)
  {
    forall x: string, y: string ensures AtMost(x, y) || AtMost(y, x) { LessTotal(x, y); }
    forall x: string, y: string, z: string | AtMost(x, y) && AtMost(y, z)
      ensures AtMost(x, z)
    {
      AtMostTransitive(x, y, z);
    }
    forall a: Event, b: Event
      ensures EventAtMost(a, b) || EventAtMost(b, a)
    {
      LessTotal(a.fingerprint, b.fingerprint);
    }
    forall a: Event, b: Event, c: Event | EventAtMost(a, b) && EventAtMost(b, c)
      ensures EventAtMost(a, c)
    {
      if a.fingerprint == c.fingerprint && a.fingerprint != b.fingerprint {
        LessAsymmetric(a.fingerprint, b.fingerprint);
      } else if a.fingerprint != b.fingerprint && b.fingerprint != c.fingerprint {
        LessTransitive(a.fingerprint, b.fingerprint, c.fingerprint);
      }
    }
  }

  method SetRouteDelivery(deliveries: seq<RouteDelivery>, route: string, delivered: bool, when: int)
    returns (result: seq<RouteDelivery>)
    requires DistinctKeys(deliveries, RouteKey)
    ensures DistinctKeys(result, RouteKey)
    ensures forall r :: Find(result, RouteKey, r) ==
                        if r == route then Some(RouteDelivery(r, delivered, when)) else Find(deliveries, RouteKey, r)
  {
    var x := RouteDelivery(route, delivered, when);
    for i := 0 to |deliveries|
      invariant forall j :: 0 <= j < i ==> deliveries[j].route != route
    {
      if deliveries[i].route == route {
        result := deliveries[i := x];
        forall r { FindUpdated(deliveries, RouteKey, i, x, r); }
        FindUpdated(deliveries, RouteKey, i, x, route);
        return;
      }
    }
    FindWitness(deliveries, RouteKey, route);
    var longer := deliveries + [x];
    FindAppended(deliveries, RouteKey, x, route);
    Orders();
    result := SortBy(longer, DeliveryAtMost);
    SameElements(result, longer);
    DistinctKeysRearranged(longer, result, RouteKey);
    forall r
      ensures Find(result, RouteKey, r) == if r == route then Some(x) else Find(deliveries, RouteKey, r)
    {
      FindAppended(deliveries, RouteKey, x, r);
      FindRearranged(longer, result, RouteKey, r);
    }
  }

  method FindIssue(issues: seq<Issue>, fingerprint: string) returns (index: int)
    requires DistinctKeys(issues, IssueKey)
    ensures index < 0 <==> Find(issues, IssueKey, fingerprint).None?
    ensures index >= 0 ==>
      index < |issues| && issues[index].fingerprint == fingerprint
      && Find(issues, IssueKey, fingerprint) == Some(issues[index])
  {
    for i := 0 to |issues|
      invariant forall j :: 0 <= j < i ==> issues[j].fingerprint != fingerprint
    {
      if issues[i].fingerprint == fingerprint {
        FindEntry(issues, IssueKey, i);
        return i;
      }
    }
    FindWitness(issues, IssueKey, fingerprint);
    return -1;
  }

  /** `routeMatches`. */
  method MatchRoute(route: Route, event: Event, recovery: bool) returns (matches: bool)
    ensures matches <==> RouteMatches(route, event, recovery)
  {
    if recovery && !route.recoveries {
      return false;
    }
    if !recovery && |route.severities| > 0 {
      var found := false;
      for i := 0 to |route.severities|
        invariant !found && event.severity !in route.severities[..i]
      {
        if route.severities[i] == event.severity {
          found := true;
          break;
        }
      }
      if !found {
        assert route.severities[..|route.severities|] == route.severities;
        return false;
      }
    }
    for i := 0 to |route.events|
      invariant forall k :: 0 <= k < i ==>
                  route.events[k] != event.typ && !(recovery && RecoveryMatches(route.events[k], event.typ))
    {
      if route.events[i] == event.typ || (recovery && RecoveryMatches(route.events[i], event.typ)) {
        assert route.events[i] in route.events;
        return true;
      }
    }
    return false;
  }

  // ---- results reported to the caller

  ghost function ResultsOf(t: Trace): seq<DeliveryResult> {
    if t == [] then []
    else ResultsOf(t[..|t| - 1]) + ResultOf(t[|t| - 1])
  }

  ghost function ResultOf(e: Entry): seq<DeliveryResult> {
    if e.Attempted? then
      [DeliveryResult(e.fp, e.route.sink, e.route.name, e.at, if e.delivered then Delivered else Failed)]
    else if e.Suppressed? then [DeliveryResult(e.fp, e.route.sink, e.route.name, e.at, AlreadyActive)]
    else []
  }

  lemma ResultsOneMore(t: Trace, e: Entry)
    ensures ResultsOf(t + [e]) == ResultsOf(t) + ResultOf(e)
  {
    assert (t + [e])[..|t|] == t;
  }

  lemma {:induction false} ResultsJoined(t: Trace, u: Trace)
    ensures ResultsOf(t + u) == ResultsOf(t) + ResultsOf(u)
  {
    if u == [] {
      assert t + u == t;
    } else {
      var before, last := u[..|u| - 1], u[|u| - 1];
      ResultsJoined(t, before);
      LastApart(t, u);
      ResultsOneMore(t + before, last);
      Associative(ResultsOf(t), ResultsOf(before), ResultOf(last));
    }
  }

  lemma SelectedStep(routes: seq<Route>, k: nat, event: Event, recovery: bool)
    requires k < |routes|
    ensures Selected(routes[..k + 1], event, recovery) ==
            if RouteMatches(routes[k], event, recovery) then Selected(routes[..k], event, recovery) + [routes[k]]
            else Selected(routes[..k], event, recovery)
  {
    assert routes[..k + 1][..k] == routes[..k];
  }

  lemma NotifiedStep(trace: Trace, fp: string, routes: seq<Route>, route: Route)
    ensures Notified(trace, fp, routes + [route]) ==
            if Mark(trace, fp, route.name).Some? then Notified(trace, fp, routes) + [route]
            else Notified(trace, fp, routes)
  {
    assert (routes + [route])[..|routes|] == routes;
  }

  lemma CoversOneMore(t: Trace, event: Event, kind: Kind, routes: seq<Route>, e: Entry)
    requires Covers(t, event, kind, routes)
    requires e.fp == event.fingerprint && ((e.Attempted? && e.kind == kind) || (kind.Problem? && e.Suppressed?))
    requires e.at == event.occurredAt
    ensures Covers(t + [e], event, kind, routes + [e.route])
  {
  }

  /** Observing an event on its open issue. */
  /** The event is observed: its issue is where `i` says, and agrees with the trace, as does whether it escalated. */
  ghost predicate ObservedWell(issues: seq<Issue>, start: Trace, t: Trace, event: Event, i: nat, escalated: bool) {
    && t == Observation(start, event) && LegalFrom(start, t) && ResultsOf(t) == []
    && Faithful(issues, start + t)
    && i < |issues| && issues[i].fingerprint == event.fingerprint
    && (escalated <==> Rising(start + t, event.fingerprint))
  }

  lemma ObservedNext(issues: seq<Issue>, start: Trace, t: Trace, i: nat, event: Event)
    requires Faithful(issues, start + t) && LegalFrom(start, t) && ResultsOf(t) == []
    requires i < |issues| && issues[i].fingerprint == event.fingerprint
    requires t == if Recorded(start, event.fingerprint).None?
             then [Opened(event.fingerprint, event.severity)] else []
    requires t != [] ==> issues[i].severity == event.severity
    requires t == [] ==> Recorded(start, event.fingerprint) == Some(issues[i].severity)
    ensures ObservedWell(issues[i := Updated(issues[i], event)], start,
                         t + [Observed(event.fingerprint, issues[i].severity, event.severity)], event, i,
                         Rank(event.severity) > Rank(issues[i].severity))
  {
    var fp := event.fingerprint;
    var e := Observed(fp, issues[i].severity, event.severity);
    FindEntry(issues, IssueKey, i);
    assert Recorded(start + t, fp) == StoredSeverity(issues, fp);
    FaithfulObserve(issues, start + t, i, Updated(issues[i], event));
    LegalOneMore(start, t, e);
    ResultsOneMore(t, e);
    Step(start + t, e, fp, "");
    Associative(start, t, [e]);
  }

  // ---- the program

  /** The state file while it is held under the lock. */
  class StateFile {
    var issues: seq<Issue>
    ghost var trace: Trace

    constructor (issues: seq<Issue>, ghost trace: Trace)
      ensures this.issues == issues && this.trace == trace
    {
      this.issues, this.trace := issues, trace;
    }
  }

  class Service {
    const policy: Policy
    const sinks: set<string>
    /** What the state file holds. */
    var saved: seq<Issue>
    /** The trace of all batches that were saved: the events handled, and what each added. */
    ghost var committed: Trace
    ghost var handled: seq<Event>
    ghost var parts: seq<Trace>
    /** Every attempt ever made, including those of batches that then failed. */
    ghost var everything: Trace

    ghost predicate Valid()
      reads this
    {
      && Faithful(saved, committed) && LegalTrace(committed)
      && BatchTrace(policy.routes, [], handled, parts) && committed == Joined(parts)
    }

    constructor (policy: Policy, sinks: set<string>)
      ensures Valid() && this.policy == policy && this.sinks == sinks
      ensures saved == [] && committed == [] && everything == [] && handled == []
    {
      this.policy, this.sinks := policy, sinks;
      saved, committed, everything, handled, parts := [], [], [], [], [];
    }

    /** One attempt. The sink may answer anything; without a sink, or when the record cannot be written, it fails. */
    method DeliverOne(state: StateFile, kind: Kind, route: Route, event: Event)
      returns (ok: bool, result: DeliveryResult, ghost attempt: Option<Entry>)
      modifies state`trace
      ensures ok ==> attempt.Some? && event.occurredAt != 0
      ensures attempt.Some? <==> route.sink in sinks
      ensures match attempt
        case None => state.trace == old(state.trace)
        case Some(e) =>
          && e == Attempted(kind, event.fingerprint, route, event.occurredAt, result.outcome.Delivered?)
          && state.trace == old(state.trace) + [e] && ResultOf(e) == [result]
    {
      result := DeliveryResult(event.fingerprint, route.sink, route.name, event.occurredAt, Failed);
      if route.sink !in sinks {
        return false, result, None;
      }
      var delivered: bool := *;
      ghost var e := Attempted(kind, event.fingerprint, route, event.occurredAt, delivered);
      attempt := Some(e);
      state.trace := state.trace + [e];
      result := result.(outcome := if delivered then Delivered else Failed);
      var recorded: bool := *;
      ok := recorded && event.occurredAt != 0;
    }

    /** `deliver`: an attempt that touches no issue, as recoveries and informational events make. */
    method Deliver(state: StateFile, kind: Kind, route: Route, event: Event, ghost start: Trace, ghost t: Trace,
                   ghost routes: seq<Route>)
      returns (ok: bool, result: DeliveryResult, ghost t': Trace)
      requires !kind.Problem? && Progress(state.issues, state.trace, start, t, event, kind, routes)
      requires kind.RecoveryNotice? ==> Mark(state.trace, event.fingerprint, route.name).Some?
      modifies state`trace
      ensures state.trace == start + t' && LegalFrom(start, t')
      ensures ok ==> Progress(state.issues, state.trace, start, t', event, kind, routes + [route])
      ensures Covers(t', event, kind, routes) || Covers(t', event, kind, routes + [route])
      ensures ok ==> ResultsOf(t') == ResultsOf(t) + [result]
    {
      ghost var before := state.trace;
      ghost var attempt;
      ok, result, attempt := DeliverOne(state, kind, route, event);
      t' := t;
      if attempt.Some? {
        ghost var e := attempt.value;
        t' := t + [e];
        Associative(start, t, [e]);
        LegalOneMore(start, t, e);
        FaithfulQuiet(state.issues, before, e);
        ResultsOneMore(t, e);
        CoversOneMore(t, event, kind, routes, e);
      }
    }

    /** Recovery: tell the routes that got the problem, then close the issue. */
    method ProcessRecovery(state: StateFile, event: Event)
      returns (ok: bool, results: seq<DeliveryResult>, ghost t: Trace)
      requires event.severity.Recovery? && Faithful(state.issues, state.trace)
      modifies state
      ensures state.trace == old(state.trace) + t && LegalFrom(old(state.trace), t)
      ensures ok ==> EventShape(policy.routes, old(state.trace), event, t)
      ensures !ok ==> BegunShape(policy.routes, old(state.trace), event, t)
      ensures ok ==> Faithful(state.issues, state.trace) && results == ResultsOf(t)
    {
      ok, results, t := true, [], [];
      ghost var start, fp := state.trace, event.fingerprint;
      assert start + t == start;
      var index := FindIssue(state.issues, event.fingerprint);
      assert Recorded(start, fp) == StoredSeverity(state.issues, fp);
      if index < 0 {
        return;
      }
      ok, results, t := TellRoutes(state, state.issues[index], event);
      if ok {
        t := Close(state, index, start, t);
        assert t[..|t| - 1] + [Closed(fp)] == t;
      }
    }

    /** The recovery's attempts: one for each selected route the issue reached. */
    method TellRoutes(state: StateFile, issue: Issue, event: Event)
      returns (ok: bool, results: seq<DeliveryResult>, ghost t: Trace)
      requires Faithful(state.issues, state.trace) && Find(state.issues, IssueKey, event.fingerprint) == Some(issue)
      modifies state`trace
      ensures state.trace == old(state.trace) + t && LegalFrom(old(state.trace), t)
      ensures ok ==> Progress(state.issues, state.trace, old(state.trace), t, event, RecoveryNotice,
                              Notified(old(state.trace), event.fingerprint, Selected(policy.routes, event, true)))
      ensures !ok ==> CoversFirst(t, event, RecoveryNotice,
                                  Notified(old(state.trace), event.fingerprint, Selected(policy.routes, event, true)))
      ensures ok ==> results == ResultsOf(t)
    {
      ok, results, t := true, [], [];
      ghost var start, fp := state.trace, event.fingerprint;
      assert start + t == start;
      ghost var told: seq<Route> := [];
      for k := 0 to |policy.routes|
        invariant ok && results == ResultsOf(t)
        invariant Progress(state.issues, state.trace, start, t, event, RecoveryNotice, told)
        invariant told == Notified(start, fp, Selected(policy.routes[..k], event, true))
      {
        var route := policy.routes[k];
        SelectedStep(policy.routes, k, event, true);
        var matches := MatchRoute(route, event, true);
        if !matches {
          continue;
        }
        NotifiedStep(start, fp, Selected(policy.routes[..k], event, true), route);
        assert Mark(start, fp, route.name) == StoredMark(state.issues, fp, route.name);
        assert Mark(state.trace, fp, route.name) == StoredMark(state.issues, fp, route.name);
        if RouteDeliveryOf(issue, route.name).delivered {
          var result;
          ok, result, t := Deliver(state, RecoveryNotice, route, event, start, t, told);
          if !ok {
            ToldFirst(policy.routes, k, start, t, event, told);
            return;
          }
          told := told + [route];
          results := results + [result];
        }
      }
      assert policy.routes[..|policy.routes|] == policy.routes;
    }

    method Close(state: StateFile, index: nat, ghost start: Trace, ghost t: Trace) returns (ghost t': Trace)
      requires index < |state.issues| && Faithful(state.issues, state.trace)
      requires state.trace == start + t && LegalFrom(start, t)
      modifies state
      ensures t' == t + [Closed(old(state.issues[index].fingerprint))]
      ensures state.trace == start + t' && LegalFrom(start, t') && Faithful(state.issues, state.trace)
      ensures ResultsOf(t') == ResultsOf(t)
    {
      ghost var e := Closed(state.issues[index].fingerprint);
      FindEntry(state.issues, IssueKey, index);
      assert Recorded(state.trace, e.fp) == StoredSeverity(state.issues, e.fp);
      FaithfulClose(state.issues, state.trace, index);
      LegalOneMore(start, t, e);
      ResultsOneMore(t, e);
      t' := t + [e];
      Associative(start, t, [e]);
      state.issues := state.issues[..index] + state.issues[index + 1..];
      state.trace := state.trace + [e];
    }

    /** Informational events go to every route that selects them and leave no issue behind. */
    method ProcessInformation(state: StateFile, event: Event)
      returns (ok: bool, results: seq<DeliveryResult>, ghost t: Trace)
      requires event.severity.Info? && Faithful(state.issues, state.trace)
      modifies state`trace
      ensures state.trace == old(state.trace) + t && LegalFrom(old(state.trace), t)
      ensures ok ==> EventShape(policy.routes, old(state.trace), event, t)
      ensures !ok ==> BegunShape(policy.routes, old(state.trace), event, t)
      ensures ok ==> Faithful(state.issues, state.trace) && results == ResultsOf(t)
    {
      ok, results, t := true, [], [];
      ghost var start := state.trace;
      assert start + t == start;
      for k := 0 to |policy.routes|
        invariant ok && results == ResultsOf(t)
        invariant Progress(state.issues, state.trace, start, t, event, Information,
                           Selected(policy.routes[..k], event, false))
      {
        SelectedStep(policy.routes, k, event, false);
        var matches := MatchRoute(policy.routes[k], event, false);
        if matches {
          var result;
          ok, result, t := Deliver(state, Information, policy.routes[k], event, start, t,
                                   Selected(policy.routes[..k], event, false));
          if !ok {
            SelectedFirst(policy.routes, k, t, event, Information);
            return;
          }
          results := results + [result];
        }
      }
      assert policy.routes[..|policy.routes|] == policy.routes;
    }

    /** A problem: open or update the issue. */
    method Observe(state: StateFile, event: Event) returns (index: nat, escalated: bool, ghost t: Trace)
      requires !event.severity.Recovery? && !event.severity.Info? && Faithful(state.issues, state.trace)
      modifies state
      ensures state.trace == old(state.trace) + t
      ensures ObservedWell(state.issues, old(state.trace), t, event, index, escalated)
    {
      ghost var start := state.trace;
      index, t := OpenIfNew(state, event);
      var issue := state.issues[index];
      escalated := Rank(event.severity) > Rank(issue.severity);
      ghost var more := t + [Observed(event.fingerprint, issue.severity, event.severity)];
      ObservedNext(state.issues, start, t, index, event);
      state.issues := state.issues[index := Updated(issue, event)];
      state.trace := start + more;
      t := more;
    }

    method OpenIfNew(state: StateFile, event: Event) returns (index: nat, ghost t: Trace)
      requires !event.severity.Recovery? && Faithful(state.issues, state.trace)
      modifies state
      ensures Faithful(state.issues, state.trace) && state.trace == old(state.trace) + t
              && LegalFrom(old(state.trace), t)
      ensures index < |state.issues| && state.issues[index].fingerprint == event.fingerprint
      ensures t == if Recorded(old(state.trace), event.fingerprint).None?
              then [Opened(event.fingerprint, event.severity)] else []
      ensures t != [] ==> state.issues[index].severity == event.severity
      ensures t == [] ==> Some(state.issues[index].severity) == Recorded(old(state.trace), event.fingerprint)
      ensures ResultsOf(t) == []
    {
      ghost var start, fp := state.trace, event.fingerprint;
      assert start + [] == start;
      t := [];
      var found := FindIssue(state.issues, event.fingerprint);
      assert Recorded(start, fp) == StoredSeverity(state.issues, fp);
      if found < 0 {
        FaithfulOpen(state.issues, state.trace, event);
        ghost var e := Opened(fp, event.severity);
        LegalOneMore(start, [], e);
        ResultsOneMore([], e);
        t := [] + [e];
        state.issues := state.issues + [NewIssue(event)];
        state.trace := state.trace + [e];
        found := |state.issues| - 1;
      }
      index := found;
    }

    /** One route of a problem: skip it when it is not due, otherwise attempt and remember a success. */
    method NotifyRoute(state: StateFile, index: nat, escalated: bool, route: Route, event: Event,
                       ghost start: Trace, ghost t: Trace, ghost routes: seq<Route>)
      returns (ok: bool, result: DeliveryResult, ghost t': Trace)
      requires index < |state.issues| && state.issues[index].fingerprint == event.fingerprint
      requires escalated <==> Rising(state.trace, event.fingerprint)
      requires Progress(state.issues, state.trace, start, t, event, Problem, routes)
      modifies state
      ensures state.trace == start + t' && LegalFrom(start, t')
      ensures Covers(t', event, Problem, routes) || Covers(t', event, Problem, routes + [route])
      ensures ok ==>
        && index < |state.issues| && state.issues[index].fingerprint == event.fingerprint
        && (escalated <==> Rising(state.trace, event.fingerprint))
        && Progress(state.issues, state.trace, start, t', event, Problem, routes + [route])
        && ResultsOf(t') == ResultsOf(t) + [result]
    {
      ghost var fp := event.fingerprint;
      FindEntry(state.issues, IssueKey, index);
      assert Recorded(state.trace, fp) == StoredSeverity(state.issues, fp);
      assert Mark(state.trace, fp, route.name) == StoredMark(state.issues, fp, route.name);
      var delivery := RouteDeliveryOf(state.issues[index], route.name);
      if delivery.delivered && !escalated && !CooldownElapsed(route, delivery.lastNotified, event.occurredAt) {
        result := DeliveryResult(event.fingerprint, route.sink, route.name, event.occurredAt, AlreadyActive);
        var recorded: bool := *;
        if !recorded || event.occurredAt == 0 {
          return false, result, t;
        }
        ghost var e := Suppressed(fp, route, event.occurredAt);
        t' := Note(state, e, start, t, event, routes);
        return true, result, t';
      }
      ok, result, t' := Send(state, index, route, event, start, t, routes);
    }

    /** Attempt a due route of a problem, and on success set its mark. */
    method Send(state: StateFile, index: nat, route: Route, event: Event, ghost start: Trace, ghost t: Trace,
                ghost routes: seq<Route>)
      returns (ok: bool, result: DeliveryResult, ghost t': Trace)
      requires index < |state.issues| && state.issues[index].fingerprint == event.fingerprint
      requires Progress(state.issues, state.trace, start, t, event, Problem, routes)
      requires Recorded(state.trace, event.fingerprint).Some?
               && Due(state.trace, event.fingerprint, route, event.occurredAt)
      modifies state
      ensures state.trace == start + t' && LegalFrom(start, t')
      ensures Covers(t', event, Problem, routes) || Covers(t', event, Problem, routes + [route])
      ensures ok ==> Faithful(state.issues, state.trace) && Covers(t', event, Problem, routes + [route])
      ensures ok ==> index < |state.issues| && state.issues[index].fingerprint == event.fingerprint
      ensures Rising(state.trace, event.fingerprint) == old(Rising(state.trace, event.fingerprint))
      ensures ok ==> ResultsOf(t') == ResultsOf(t) + [result]
    {
      ghost var before := state.trace;
      ghost var attempt;
      ok, result, attempt := DeliverOne(state, Problem, route, event);
      t' := t;
      if attempt.Some? {
        ghost var e := attempt.value;
        t' := t + [e];
        Associative(start, t, [e]);
        LegalOneMore(start, t, e);
        Step(before, e, event.fingerprint, "");
        ResultsOneMore(t, e);
        CoversOneMore(t, event, Problem, routes, e);
        if !e.delivered {
          FaithfulQuiet(state.issues, before, e);
        }
      }
      if ok && result.outcome.Delivered? {
        var deliveries := SetRouteDelivery(state.issues[index].deliveries, route.name, true, event.occurredAt);
        FaithfulDelivered(state.issues, before, index, deliveries, route, event.occurredAt);
        state.issues := state.issues[index := state.issues[index].(deliveries := deliveries)];
      }
    }

    /** Record an entry that changes no issue. */
    ghost method Note(state: StateFile, e: Entry, start: Trace, t: Trace, event: Event, routes: seq<Route>)
      returns (t': Trace)
      requires Progress(state.issues, state.trace, start, t, event, Problem, routes)
      requires e.Suppressed? && e.fp == event.fingerprint && e.at == event.occurredAt && Legal(state.trace, e)
      modifies state`trace
      ensures t' == t + [e] && state.trace == start + t'
      ensures Progress(state.issues, state.trace, start, t', event, Problem, routes + [e.route])
      ensures Rising(state.trace, event.fingerprint) == old(Rising(state.trace, event.fingerprint))
      ensures ResultsOf(t') == ResultsOf(t) + ResultOf(e)
    {
      Step(state.trace, e, event.fingerprint, "");
      FaithfulQuiet(state.issues, state.trace, e);
      LegalOneMore(start, t, e);
      ResultsOneMore(t, e);
      CoversOneMore(t, event, Problem, routes, e);
      t' := t + [e];
      Associative(start, t, [e]);
      state.trace := state.trace + [e];
    }

    method ProcessProblem(state: StateFile, event: Event)
      returns (ok: bool, results: seq<DeliveryResult>, ghost t: Trace)
      requires !event.severity.Recovery? && !event.severity.Info? && Faithful(state.issues, state.trace)
      modifies state
      ensures state.trace == old(state.trace) + t && LegalFrom(old(state.trace), t)
      ensures ok ==> EventShape(policy.routes, old(state.trace), event, t)
      ensures !ok ==> BegunShape(policy.routes, old(state.trace), event, t)
      ensures ok ==> Faithful(state.issues, state.trace) && results == ResultsOf(t)
    {
      ghost var seen, u;
      var index, escalated;
      index, escalated, seen := Observe(state, event);
      ok, results, u := NotifyRoutes(state, index, escalated, event);
      t := seen + u;
      LegalJoined(old(state.trace), seen, u);
      ResultsJoined(seen, u);
      Associative(old(state.trace), seen, u);
      assert t[|seen|..] == u && t[..|seen|] == seen;
    }

    /** The routes of a problem in turn, until one fails. */
    method NotifyRoutes(state: StateFile, index: nat, escalated: bool, event: Event)
      returns (ok: bool, results: seq<DeliveryResult>, ghost t: Trace)
      requires index < |state.issues| && state.issues[index].fingerprint == event.fingerprint
      requires Faithful(state.issues, state.trace) && (escalated <==> Rising(state.trace, event.fingerprint))
      modifies state
      ensures state.trace == old(state.trace) + t && LegalFrom(old(state.trace), t)
      ensures ok ==> Covers(t, event, Problem, Selected(policy.routes, event, false))
      ensures !ok ==> CoversFirst(t, event, Problem, Selected(policy.routes, event, false))
      ensures ok ==> Faithful(state.issues, state.trace) && results == ResultsOf(t)
    {
      ok, results, t := true, [], [];
      ghost var start := state.trace;
      assert start + t == start;
      for k := 0 to |policy.routes|
        invariant ok && results == ResultsOf(t)
        invariant index < |state.issues| && state.issues[index].fingerprint == event.fingerprint
        invariant escalated <==> Rising(state.trace, event.fingerprint)
        invariant Progress(state.issues, state.trace, start, t, event, Problem,
                           Selected(policy.routes[..k], event, false))
      {
        SelectedStep(policy.routes, k, event, false);
        var matches := MatchRoute(policy.routes[k], event, false);
        if matches {
          var result;
          ok, result, t := NotifyRoute(state, index, escalated, policy.routes[k], event, start, t,
                                       Selected(policy.routes[..k], event, false));
          if !ok {
            SelectedFirst(policy.routes, k, t, event, Problem);
            return;
          }
          results := results + [result];
        }
      }
      assert policy.routes[..|policy.routes|] == policy.routes;
    }

    method ProcessEvent(state: StateFile, event: Event) returns (ok: bool, results: seq<DeliveryResult>, ghost t: Trace)
      requires Faithful(state.issues, state.trace)
      modifies state
      ensures state.trace == old(state.trace) + t && LegalFrom(old(state.trace), t)
      ensures ok ==> EventTrace(policy.routes, old(state.trace), event, t)
      ensures !ok ==> EventBegun(policy.routes, old(state.trace), event, t)
      ensures ok ==> Faithful(state.issues, state.trace) && results == ResultsOf(t)
    {
      if event.severity.Recovery? {
        ok, results, t := ProcessRecovery(state, event);
      } else if event.severity.Info? {
        ok, results, t := ProcessInformation(state, event);
      } else {
        ok, results, t := ProcessProblem(state, event);
      }
    }

    /** The events the policy lets through, in processing order. */
    method Prepare(events: seq<Event>) returns (order: seq<Event>)
      ensures SortOf(EventAtMost, Allowed(policy, events), order)
    {
      var filtered: seq<Event> := [];
      for i := 0 to |events|
        invariant filtered == Allowed(policy, events[..i])
      {
        assert events[..i + 1][..i] == events[..i];
        if !(events[i].origin == "manual" && !policy.notifyManual) {
          filtered := filtered + [events[i]];
        }
      }
      assert events[..|events|] == events;
      Orders();
      order := SortBy(filtered, EventAtMost);
    }

    /** The transaction: nothing is kept of a batch that fails, although its attempts were made. */
    method Process(events: seq<Event>) returns (ok: bool, results: seq<DeliveryResult>)
      requires Valid()
      modifies this
      ensures Valid()
      ensures !policy.enabled || Allowed(policy, events) == [] ==>
        ok && results == [] && saved == old(saved) && handled == old(handled) && committed == old(committed)
        && everything == old(everything)
      ensures !ok ==> saved == old(saved) && handled == old(handled) && committed == old(committed)
      ensures !ok ==> exists order, t ::
        && SortOf(EventAtMost, Allowed(policy, events), order) && FailedTrace(policy.routes, committed, order, t)
        && LegalFrom(committed, t) && everything == old(everything) + t
      ensures ok && policy.enabled && Allowed(policy, events) != [] ==> exists order, added ::
        && SortOf(EventAtMost, Allowed(policy, events), order) && handled == old(handled) + order
        && BatchTrace(policy.routes, old(committed), order, added)
        && committed == old(committed) + Joined(added) && everything == old(everything) + Joined(added)
        && results == ResultsOf(Joined(added))
    {
      if !policy.enabled || events == [] {
        return true, [];
      }
      var order := Prepare(events);
      SameElements(order, Allowed(policy, events));
      if order == [] {
        return true, [];
      }
      ghost var added;
      ok, results, added := WithLock(order);
    }

    /** Load the issues under the lock, process the batch, and save what it left; a failed batch saves nothing. */
    method WithLock(order: seq<Event>) returns (ok: bool, results: seq<DeliveryResult>, ghost added: seq<Trace>)
      requires Valid()
      modifies this
      ensures Valid()
      ensures !ok ==> saved == old(saved) && handled == old(handled) && committed == old(committed)
      ensures !ok ==> exists t ::
        FailedTrace(policy.routes, committed, order, t) && LegalFrom(committed, t) && everything == old(everything) + t
      ensures ok ==> handled == old(handled) + order && BatchTrace(policy.routes, old(committed), order, added)
      ensures ok ==> committed == old(committed) + Joined(added) && everything == old(everything) + Joined(added)
      ensures ok ==> results == ResultsOf(Joined(added))
    {
      ghost var t: Trace := [];
      added := [];
      assert LegalFrom(committed, t) && everything == everything + t;
      var locked: bool := *;
      var valid := CheckIssues(saved);
      if !locked || !valid {
        return false, [], added;
      }
      Orders();
      var loaded := SortBy(saved, IssueAtMost);
      FaithfulRearranged(saved, loaded, committed);
      var state := new StateFile(loaded, committed);
      ok, results, t, added := RunBatch(state, order);
      everything := everything + t;
      if ok {
        ok := Save(state.issues, order, t, added);
      }
    }

    /** `save`: the issues go into the state file, and with them the batch into the record, or nothing does. */
    method Save(issues: seq<Issue>, order: seq<Event>, ghost t: Trace, ghost added: seq<Trace>) returns (ok: bool)
      requires Valid() && Faithful(issues, committed + t) && LegalFrom(committed, t)
      requires BatchTrace(policy.routes, committed, order, added) && t == Joined(added)
      modifies `saved, `committed, `handled, `parts
      ensures Valid()
      ensures !ok ==> saved == old(saved) && handled == old(handled) && committed == old(committed)
      ensures ok ==> handled == old(handled) + order && committed == old(committed) + t
    {
      Orders();
      var stored := SortBy(issues, IssueAtMost);
      FaithfulRearranged(issues, stored, committed + t);
      ok := *;
      if ok {
        BatchCommits(policy.routes, handled, parts, order, added);
        saved, committed, handled, parts := stored, committed + t, handled + order, parts + added;
      }
    }

    method RunBatch(state: StateFile, order: seq<Event>)
      returns (ok: bool, results: seq<DeliveryResult>, ghost t: Trace, ghost parts: seq<Trace>)
      requires Faithful(state.issues, state.trace)
      modifies state
      ensures state.trace == old(state.trace) + t && LegalFrom(old(state.trace), t)
      ensures ok ==> BatchTrace(policy.routes, old(state.trace), order, parts) && t == Joined(parts)
      ensures !ok ==> exists u :: StopsAt(policy.routes, old(state.trace), order, parts, u) && t == Joined(parts) + u
      ensures !ok ==> FailedTrace(policy.routes, old(state.trace), order, t)
      ensures ok ==> Faithful(state.issues, state.trace) && results == ResultsOf(t)
    {
      ok, results, t, parts := true, [], [], [];
      ghost var start := state.trace;
      assert start + t == start;
      for i := 0 to |order|
        invariant ok && state.trace == start + t && LegalFrom(start, t)
        invariant BatchTrace(policy.routes, start, order[..i], parts) && t == Joined(parts)
        invariant Faithful(state.issues, state.trace) && results == ResultsOf(t)
      {
        var more;
        ghost var u;
        ok, more, u := ProcessEvent(state, order[i]);
        results := results + more;
        LegalJoined(start, t, u);
        ResultsJoined(t, u);
        Associative(start, t, u);
        if !ok {
          assert StopsAt(policy.routes, start, order, parts, u);
          t := t + u;
          return;
        }
        BatchOneMore(policy.routes, start, order[..i], parts, order[i], u);
        TakeOneMore(order, i);
        t, parts := t + u, parts + [u];
      }
      assert order[..|order|] == order;
    }
  }

  /** Where a problem or a piece of information fails, its entries cover the first of the selected routes. */
  lemma SelectedFirst(routes: seq<Route>, k: nat, t: Trace, event: Event, kind: Kind)
    requires k < |routes| && RouteMatches(routes[k], event, false)
    requires || Covers(t, event, kind, Selected(routes[..k], event, false))
             || Covers(t, event, kind, Selected(routes[..k], event, false) + [routes[k]])
    ensures CoversFirst(t, event, kind, Selected(routes, event, false))
  {
    var some := if |t| == |Selected(routes[..k], event, false)| then k else k + 1;
    SelectedStep(routes, k, event, false);
    SelectedGrows(routes, some, event, false);
    CoversPrefix(t, event, kind, Selected(routes[..some], event, false), Selected(routes, event, false));
  }

  /** Where a recovery fails, its entries cover the first of the notified routes. */
  lemma ToldFirst(routes: seq<Route>, k: nat, trace: Trace, t: Trace, event: Event, told: seq<Route>)
    requires k < |routes| && RouteMatches(routes[k], event, true)
    requires told == Notified(trace, event.fingerprint, Selected(routes[..k], event, true))
    requires Mark(trace, event.fingerprint, routes[k].name).Some?
    requires Covers(t, event, RecoveryNotice, told) || Covers(t, event, RecoveryNotice, told + [routes[k]])
    ensures CoversFirst(t, event, RecoveryNotice, Notified(trace, event.fingerprint, Selected(routes, event, true)))
  {
    var some := if |t| == |told| then k else k + 1;
    var fp, selected := event.fingerprint, Selected(routes[..some], event, true);
    SelectedStep(routes, k, event, true);
    NotifiedStep(trace, fp, Selected(routes[..k], event, true), routes[k]);
    SelectedGrows(routes, some, event, true);
    NotifiedGrows(trace, fp, selected, Selected(routes, event, true));
    CoversPrefix(t, event, RecoveryNotice, Notified(trace, fp, selected),
                 Notified(trace, fp, Selected(routes, event, true)));
  }

  ghost function Allowed(policy: Policy, events: seq<Event>): seq<Event> {
    if events == [] then []
    else
      var last := events[|events| - 1];
      var rest := Allowed(policy, events[..|events| - 1]);
      if last.origin == "manual" && !policy.notifyManual then rest else rest + [last]
  }

  /** Saving a batch after those saved before keeps the whole trace legal, and the record of batches complete. */
  lemma BatchCommits(routes: seq<Route>, handled: seq<Event>, parts: seq<Trace>, order: seq<Event>, added: seq<Trace>)
    requires LegalTrace(Joined(parts)) && LegalFrom(Joined(parts), Joined(added))
    requires BatchTrace(routes, [], handled, parts) && BatchTrace(routes, Joined(parts), order, added)
    ensures LegalTrace(Joined(parts) + Joined(added))
    ensures BatchTrace(routes, [], handled + order, parts + added)
    ensures Joined(parts + added) == Joined(parts) + Joined(added)
  {
    LegalTraceGrows(Joined(parts), Joined(added));
    BatchesConcatenate(routes, handled, parts, order, added);
  }

  /** Part-way through an event: what was added since `start` covers `routes`, and state and trace agree. */
  ghost predicate Progress(issues: seq<Issue>, trace: Trace, start: Trace, t: Trace, event: Event, kind: Kind,
                           routes: seq<Route>)
  {
    && trace == start + t && LegalFrom(start, t) && Faithful(issues, trace) && Covers(t, event, kind, routes)
  }
}
