/** What a notification run may look like. */
module NotificationTrace {
  // A run is told by its trace alone: when issues open and close, what was attempted on which route, and which attempts
  // succeeded. `NotificationService` shows the program keeps to it.

  import opened Text

  datatype Severity = Info | Warning | Error | Recovery

  function Rank(severity: Severity): nat {
    match severity
    case Info => 1
    case Warning => 2
    case Error => 3
    case Recovery => 0
  }

  /** Times are integers with 0 for the zero time. */
  datatype Event = Event(
    typ: string, severity: Severity, occurredAt: int, fingerprint: string, origin: string, target: string,
    summary: string)

  /** `cooldown` is absent when unset; a validated one always parses. */
  datatype Route = Route(
    name: string, sink: string, events: seq<string>, severities: seq<Severity>, recoveries: bool, cooldown: Option<int>)

  predicate RecoveryMatches(selected: string, recovered: string) {
    || (selected == "backup.failed" && recovered == "maintenance.recovered")
    || (selected == "doctor.warning" && recovered == "doctor.recovered")
    || (selected == "doctor.failed" && recovered == "doctor.recovered")
    || (selected == "updates.available" && recovered == "updates.cleared")
    || (selected == "maintenance.failed" && recovered == "maintenance.recovered")
    || (selected == "storage.failed" && recovered == "storage.recovered")
    || (selected == "service.unhealthy" && recovered == "service.recovered")
  }

  predicate RouteMatches(route: Route, event: Event, recovery: bool) {
    && (recovery ==> route.recoveries)
    && (!recovery && route.severities != [] ==> event.severity in route.severities)
    && exists selected | selected in route.events ::
        selected == event.typ || (recovery && RecoveryMatches(selected, event.typ))
  }

  predicate CooldownElapsed(route: Route, last: int, now: int) {
    last != 0 && route.cooldown.Some? && now >= last + route.cooldown.value
  }

  datatype Kind = Problem | RecoveryNotice | Information

  datatype Entry =
    | Opened(fp: string, severity: Severity)
    | Observed(fp: string, before: Severity, now: Severity)
    | Attempted(kind: Kind, fp: string, route: Route, at: int, delivered: bool)
    | Suppressed(fp: string, route: Route, at: int)
    | Closed(fp: string)

  type Trace = seq<Entry>

  /** The entry starts or ends an episode of `fp`. */
  predicate Boundary(e: Entry, fp: string) {
    (e.Opened? || e.Closed?) && e.fp == fp
  }

  predicate DeliveredTo(e: Entry, fp: string, route: string) {
    e.Attempted? && e.kind.Problem? && e.fp == fp && e.route.name == route && e.delivered
  }

  /** The severity last recorded for an open issue; none when no issue is open. */
  ghost function Recorded(trace: Trace, fp: string): Option<Severity> {
    if trace == [] then None
    else
      var last, before := trace[|trace| - 1], trace[..|trace| - 1];
      if Boundary(last, fp) then (if last.Opened? then Some(last.severity) else None)
      else if last.Observed? && last.fp == fp then Some(last.now)
      else Recorded(before, fp)
  }

  /** The latest observation of the open issue rose above the one before it. */
  ghost predicate Rising(trace: Trace, fp: string) {
    trace != [] &&
    var last, before := trace[|trace| - 1], trace[..|trace| - 1];
    if Boundary(last, fp) then false
    else if last.Observed? && last.fp == fp then Rank(last.now) > Rank(last.before)
    else Rising(before, fp)
  }

  /** When the issue was last delivered to the route in the current episode. */
  ghost function Mark(trace: Trace, fp: string, route: string): Option<int> {
    if trace == [] then None
    else
      var last, before := trace[|trace| - 1], trace[..|trace| - 1];
      if Boundary(last, fp) then None
      else if DeliveredTo(last, fp, route) then Some(last.at)
      else Mark(before, fp, route)
  }

  /** A route is due when it never got this issue, when severity just rose, or when its cooldown is over. */
  ghost predicate Due(trace: Trace, fp: string, route: Route, at: int) {
    var mark := Mark(trace, fp, route.name);
    mark.None? || Rising(trace, fp) || CooldownElapsed(route, mark.value, at)
  }

  /** The entry may come next. */
  ghost predicate Legal(trace: Trace, e: Entry) {
    match e
    case Opened(fp, _) => Recorded(trace, fp).None?
    case Observed(fp, before, _) => Recorded(trace, fp) == Some(before)
    case Attempted(Problem, fp, route, at, _) => Recorded(trace, fp).Some? && Due(trace, fp, route, at)
    case Attempted(RecoveryNotice, fp, route, _, _) => Mark(trace, fp, route.name).Some?
    case Attempted(Information, _, _, _, _) => true
    case Suppressed(fp, route, at) => Recorded(trace, fp).Some? && !Due(trace, fp, route, at)
    case Closed(fp) => Recorded(trace, fp).Some?
  }

  ghost predicate LegalFrom(trace: Trace, t: Trace) {
    forall i :: 0 <= i < |t| ==> Legal(trace + t[..i], t[i])
  }

  /** A whole history, every entry of which was legal when it was made. */
  ghost predicate LegalTrace(trace: Trace) {
    forall i :: 0 <= i < |trace| ==> Legal(trace[..i], trace[i])
  }

  lemma LegalTraceGrows(trace: Trace, t: Trace)
    requires LegalTrace(trace) && LegalFrom(trace, t)
    ensures LegalTrace(trace + t)
  {
    forall i | 0 <= i < |trace + t|
      ensures Legal((trace + t)[..i], (trace + t)[i])
    {
      if i < |trace| {
        assert (trace + t)[..i] == trace[..i];
      } else {
        assert (trace + t)[..i] == trace + t[..i - |trace|];
      }
    }
  }

  lemma LegalPrefix(trace: Trace, n: nat)
    requires LegalTrace(trace) && n <= |trace|
    ensures LegalTrace(trace[..n])
  {
    forall i | 0 <= i < n
      ensures Legal(trace[..n][..i], trace[..n][i])
    {
      assert trace[..n][..i] == trace[..i];
    }
  }

  lemma LegalOneMore(trace: Trace, t: Trace, e: Entry)
    requires LegalFrom(trace, t) && Legal(trace + t, e)
    ensures LegalFrom(trace, t + [e])
  {
    forall i | 0 <= i < |t + [e]|
      ensures Legal(trace + (t + [e])[..i], (t + [e])[i])
    {
      assert (t + [e])[..i] == t[..i];
      assert t[..|t|] == t;
    }
  }

  lemma LegalJoined(trace: Trace, t: Trace, u: Trace)
    requires LegalFrom(trace, t) && LegalFrom(trace + t, u)
    ensures LegalFrom(trace, t + u)
  {
    forall i | 0 <= i < |t + u|
      ensures Legal(trace + (t + u)[..i], (t + u)[i])
    {
      if i < |t| {
        assert (t + u)[..i] == t[..i];
      } else {
        assert trace + (t + u)[..i] == trace + t + u[..i - |t|];
      }
    }
  }

  /** How one more entry changes what the trace says. */
  lemma Step(trace: Trace, e: Entry, fp: string, route: string)
    ensures Recorded(trace + [e], fp) ==
            if Boundary(e, fp) then (if e.Opened? then Some(e.severity) else None)
            else if e.Observed? && e.fp == fp then Some(e.now) else Recorded(trace, fp)
    ensures Rising(trace + [e], fp) <==>
            if Boundary(e, fp) then false
            else if e.Observed? && e.fp == fp then Rank(e.now) > Rank(e.before) else Rising(trace, fp)
    ensures Mark(trace + [e], fp, route) ==
            if Boundary(e, fp) then None
            else if DeliveredTo(e, fp, route) then Some(e.at) else Mark(trace, fp, route)
  {
    assert (trace + [e])[..|trace|] == trace;
  }

  // ---- what one event does

  /** The routes an event concerns, in the order the policy lists them. */
  ghost function Selected(routes: seq<Route>, event: Event, recovery: bool): seq<Route> {
    if routes == [] then []
    else
      var last := routes[|routes| - 1];
      Selected(routes[..|routes| - 1], event, recovery) + if RouteMatches(last, event, recovery) then [last] else []
  }

  /** Of those, the ones that got the issue in this episode. */
  ghost function Notified(trace: Trace, fp: string, routes: seq<Route>): seq<Route> {
    if routes == [] then []
    else
      var last := routes[|routes| - 1];
      Notified(trace, fp, routes[..|routes| - 1]) + if Mark(trace, fp, last.name).Some? then [last] else []
  }

  /** Each entry concerns the event, and the entries cover exactly `routes`, one entry each, in order. */
  ghost predicate Covers(t: Trace, event: Event, kind: Kind, routes: seq<Route>) {
    && |t| == |routes|
    && forall i :: 0 <= i < |t| ==>
      && t[i].fp == event.fingerprint
      && ((t[i].Attempted? && t[i].kind == kind) || (kind.Problem? && t[i].Suppressed?))
      && t[i].route == routes[i] && t[i].at == event.occurredAt
  }

  /** Opening the issue if needed, then recording the observed severity. */
  ghost function Observation(trace: Trace, event: Event): Trace {
    var fp := event.fingerprint;
    match Recorded(trace, fp)
    case None => [Opened(fp, event.severity), Observed(fp, event.severity, event.severity)]
    case Some(before) => [Observed(fp, before, event.severity)]
  }

  /** All that processing one event adds to the trace, up to whether each attempt succeeded. */
  ghost predicate EventTrace(routes: seq<Route>, trace: Trace, event: Event, t: Trace) {
    LegalFrom(trace, t) && EventShape(routes, trace, event, t)
  }

  ghost predicate EventShape(routes: seq<Route>, trace: Trace, event: Event, t: Trace) {
    match event.severity
    case Recovery =>
      if Recorded(trace, event.fingerprint).None? then t == []
      else
        && t != [] && t[|t| - 1] == Closed(event.fingerprint)
        && Covers(t[..|t| - 1], event, RecoveryNotice,
                  Notified(trace, event.fingerprint, Selected(routes, event, true)))
    case Info => Covers(t, event, Information, Selected(routes, event, false))
    case _ =>
      var seen := Observation(trace, event);
      && |t| >= |seen| && t[..|seen|] == seen
      && Covers(t[|seen|..], event, Problem, Selected(routes, event, false))
  }

  /** The entries cover the first of `routes`. */
  ghost predicate CoversFirst(t: Trace, event: Event, kind: Kind, routes: seq<Route>) {
    |t| <= |routes| && Covers(t, event, kind, routes[..|t|])
  }

  lemma CoversPrefix(t: Trace, event: Event, kind: Kind, some: seq<Route>, routes: seq<Route>)
    requires Covers(t, event, kind, some) && some <= routes
    ensures CoversFirst(t, event, kind, routes)
  {
  }

  /** What an event that fails half-way has added: its observation, and entries for the first of its routes. */
  ghost predicate EventBegun(routes: seq<Route>, trace: Trace, event: Event, t: Trace) {
    LegalFrom(trace, t) && BegunShape(routes, trace, event, t)
  }

  ghost predicate BegunShape(routes: seq<Route>, trace: Trace, event: Event, t: Trace) {
    match event.severity
    case Recovery =>
      && Recorded(trace, event.fingerprint).Some?
      && CoversFirst(t, event, RecoveryNotice, Notified(trace, event.fingerprint, Selected(routes, event, true)))
    case Info => CoversFirst(t, event, Information, Selected(routes, event, false))
    case _ =>
      var seen := Observation(trace, event);
      && |t| >= |seen| && t[..|seen|] == seen
      && CoversFirst(t[|seen|..], event, Problem, Selected(routes, event, false))
  }

  lemma {:induction false} SelectedGrows(routes: seq<Route>, k: nat, event: Event, recovery: bool)
    requires k <= |routes|
    ensures Selected(routes[..k], event, recovery) <= Selected(routes, event, recovery)
    decreases |routes| - k
  {
    if k == |routes| {
      assert routes[..k] == routes;
    } else {
      assert routes[..k + 1][..k] == routes[..k];
      SelectedGrows(routes, k + 1, event, recovery);
    }
  }

  lemma {:induction false} NotifiedGrows(trace: Trace, fp: string, some: seq<Route>, routes: seq<Route>)
    requires some <= routes
    ensures Notified(trace, fp, some) <= Notified(trace, fp, routes)
    decreases |routes| - |some|
  {
    if some != routes {
      var more := routes[..|some| + 1];
      assert more[..|some|] == some;
      NotifiedGrows(trace, fp, more, routes);
    }
  }

  ghost function Joined(parts: seq<Trace>): Trace {
    if parts == [] then [] else Joined(parts[..|parts| - 1]) + parts[|parts| - 1]
  }

  /** A batch is its events one after the other, `parts[i]` being what event `i` added. */
  ghost predicate BatchTrace(routes: seq<Route>, trace: Trace, events: seq<Event>, parts: seq<Trace>) {
    && |parts| == |events|
    && forall i :: 0 <= i < |events| ==> EventTrace(routes, trace + Joined(parts[..i]), events[i], parts[i])
  }

  /** The batch stopped at the event after those of `parts`, leaving `u` of it. */
  ghost predicate StopsAt(routes: seq<Route>, trace: Trace, events: seq<Event>, parts: seq<Trace>, u: Trace) {
    && |parts| < |events| && BatchTrace(routes, trace, events[..|parts|], parts)
    && EventBegun(routes, trace + Joined(parts), events[|parts|], u)
  }

  /** What a batch that fails has added: nothing, or all of its events, or the first of them and a part of the next. */
  ghost predicate FailedTrace(routes: seq<Route>, trace: Trace, events: seq<Event>, t: Trace) {
    || t == []
    || (exists parts :: BatchTrace(routes, trace, events, parts) && t == Joined(parts))
    || (exists parts, u :: StopsAt(routes, trace, events, parts, u) && t == Joined(parts) + u)
  }

  lemma BatchPrefix(routes: seq<Route>, trace: Trace, events: seq<Event>, parts: seq<Trace>, n: nat)
    requires BatchTrace(routes, trace, events, parts) && n <= |events|
    ensures BatchTrace(routes, trace, events[..n], parts[..n])
  {
    forall i | 0 <= i < n
      ensures EventTrace(routes, trace + Joined(parts[..n][..i]), events[..n][i], parts[..n][i])
    {
      assert parts[..n][..i] == parts[..i];
    }
  }

  lemma BatchOneMore(routes: seq<Route>, trace: Trace, events: seq<Event>, parts: seq<Trace>, event: Event, u: Trace)
    requires BatchTrace(routes, trace, events, parts) && EventTrace(routes, trace + Joined(parts), event, u)
    ensures BatchTrace(routes, trace, events + [event], parts + [u])
    ensures Joined(parts + [u]) == Joined(parts) + u
  {
    var parts' := parts + [u];
    assert parts'[..|parts|] == parts;
    forall i | 0 <= i < |parts'|
      ensures EventTrace(routes, trace + Joined(parts'[..i]), (events + [event])[i], parts'[i])
    {
      assert i < |parts| ==> parts'[..i] == parts[..i];
    }
  }

  /** Successive batches make one longer batch, so what is shown of batches holds over whole runs. */
  lemma {:induction false} BatchesConcatenate(routes: seq<Route>, events: seq<Event>, parts: seq<Trace>,
                                              events': seq<Event>, parts': seq<Trace>)
    requires BatchTrace(routes, [], events, parts) && BatchTrace(routes, Joined(parts), events', parts')
    ensures BatchTrace(routes, [], events + events', parts + parts')
    ensures Joined(parts + parts') == Joined(parts) + Joined(parts')
  {
    if events' == [] {
      assert events + events' == events && parts + parts' == parts;
    } else {
      var n := |events'| - 1;
      BatchPrefix(routes, Joined(parts), events', parts', n);
      assert EventTrace(routes, Joined(parts) + Joined(parts'[..n]), events'[n], parts'[n]);
      BatchesConcatenate(routes, events, parts, events'[..n], parts'[..n]);
      ConcatenateOne(routes, events + events'[..n], parts + parts'[..n], events'[n], parts'[n]);
      LastApart(events, events');
      LastApart(parts, parts');
      Associative(Joined(parts), Joined(parts'[..n]), parts'[n]);
    }
  }

  lemma ConcatenateOne(routes: seq<Route>, events: seq<Event>, parts: seq<Trace>, event: Event, u: Trace)
    requires BatchTrace(routes, [], events, parts) && EventTrace(routes, Joined(parts), event, u)
    ensures BatchTrace(routes, [], events + [event], parts + [u])
    ensures Joined(parts + [u]) == Joined(parts) + u
  {
    assert [] + Joined(parts) == Joined(parts);
    BatchOneMore(routes, [], events, parts, event, u);
  }

  lemma LastApart<T>(s: seq<T>, t: seq<T>)
    requires t != []
    ensures s + t == s + t[..|t| - 1] + [t[|t| - 1]]
  {
  }

  lemma Associative<T>(a: seq<T>, b: seq<T>, c: seq<T>)
    ensures a + (b + c) == a + b + c
  {
  }

  lemma {:induction false} BatchIsLegal(routes: seq<Route>, trace: Trace, events: seq<Event>, parts: seq<Trace>)
    requires BatchTrace(routes, trace, events, parts)
    ensures LegalFrom(trace, Joined(parts))
  {
    if events != [] {
      var n := |events| - 1;
      BatchPrefix(routes, trace, events, parts, n);
      BatchIsLegal(routes, trace, events[..n], parts[..n]);
      LegalJoined(trace, Joined(parts[..n]), parts[n]);
    }
  }

  // ---- who is told

  /** Problem types, each with the type that reports its end. */
  const RECOVERIES := {
    ("backup.failed", "maintenance.recovered"), ("maintenance.failed", "maintenance.recovered"),
    ("doctor.warning", "doctor.recovered"), ("doctor.failed", "doctor.recovered"),
    ("updates.available", "updates.cleared"), ("storage.failed", "storage.recovered"),
    ("service.unhealthy", "service.recovered")
  }

  /** The route's own settings ask for the event. */
  ghost predicate Wants(route: Route, event: Event) {
    if event.severity.Recovery? then
      && route.recoveries
      && exists selected :: selected in route.events && (selected == event.typ || (selected, event.typ) in RECOVERIES)
    else event.typ in route.events && (route.severities == [] || event.severity in route.severities)
  }

  ghost predicate AboutRoute(e: Entry, route: Route) {
    (e.Attempted? || e.Suppressed?) && e.route == route
  }

  function KindOf(event: Event): Kind {
    match event.severity
    case Recovery => RecoveryNotice
    case Info => Information
    case _ => Problem
  }

  lemma WantsWhatMatches(route: Route, event: Event)
    ensures RouteMatches(route, event, event.severity.Recovery?) <==> Wants(route, event)
  {
    if event.severity.Recovery? {
      forall selected | selected in route.events
        ensures RecoveryMatches(selected, event.typ) <==> (selected, event.typ) in RECOVERIES
      {
      }
    }
  }

  lemma {:induction false} SelectedAreWanted(routes: seq<Route>, event: Event)
    ensures forall r :: r in Selected(routes, event, event.severity.Recovery?) <==> r in routes && Wants(r, event)
  {
    if routes != [] {
      var n := |routes| - 1;
      SelectedAreWanted(routes[..n], event);
      WantsWhatMatches(routes[n], event);
      assert routes == routes[..n] + [routes[n]];
    }
  }

  lemma {:induction false} NotifiedHaveMarks(trace: Trace, fp: string, routes: seq<Route>)
    ensures forall r :: r in Notified(trace, fp, routes) <==> r in routes && Mark(trace, fp, r.name).Some?
  {
    if routes != [] {
      var n := |routes| - 1;
      NotifiedHaveMarks(trace, fp, routes[..n]);
      assert routes == routes[..n] + [routes[n]];
    }
  }

  lemma CoveredRoutes(t: Trace, event: Event, kind: Kind, routes: seq<Route>)
    requires Covers(t, event, kind, routes)
    ensures forall e, r :: e in t && AboutRoute(e, r) ==> r in routes
    ensures forall r :: r in routes ==> exists e :: e in t && AboutRoute(e, r)
    ensures forall e :: e in t && e.Attempted? ==> e.kind == kind
  {
    forall r | r in routes
      ensures exists e :: e in t && AboutRoute(e, r)
    {
      var i :| 0 <= i < |routes| && routes[i] == r;
      assert t[i] in t && AboutRoute(t[i], r);
    }
  }

  /**
   * An event reaches exactly the routes whose settings ask for it, a recovery those of them that got the problem in
   * this episode; nothing else is attempted or suppressed.
   */
  lemma ReachesWhoWantsIt(routes: seq<Route>, trace: Trace, event: Event, t: Trace, route: Route)
    requires EventShape(routes, trace, event, t)
    ensures (exists e :: e in t && AboutRoute(e, route)) <==>
            && route in routes && Wants(route, event)
            && (event.severity.Recovery? ==>
                  Recorded(trace, event.fingerprint).Some?
                  && exists j :: LastDelivery(trace, event.fingerprint, route.name, j))
    ensures forall e :: e in t && e.Attempted? ==> e.kind == KindOf(event)
  {
    var fp := event.fingerprint;
    SelectedAreWanted(routes, event);
    match event.severity
    case Recovery =>
      if Recorded(trace, fp).Some? {
        var told := Notified(trace, fp, Selected(routes, event, true));
        NotifiedHaveMarks(trace, fp, Selected(routes, event, true));
        MarkIsLastDelivery(trace, fp, route.name);
        CoveredRoutes(t[..|t| - 1], event, RecoveryNotice, told);
        assert t == t[..|t| - 1] + [t[|t| - 1]];
      }
    case Info =>
      CoveredRoutes(t, event, Information, Selected(routes, event, false));
    case _ =>
      var seen := Observation(trace, event);
      CoveredRoutes(t[|seen|..], event, Problem, Selected(routes, event, false));
      assert t == seen + t[|seen|..];
  }

  /** So it is for each event of a batch. */
  lemma BatchReachesWhoWantsIt(routes: seq<Route>, trace: Trace, events: seq<Event>, parts: seq<Trace>,
                               i: nat, route: Route)
    requires BatchTrace(routes, trace, events, parts) && i < |events|
    ensures var before, fp := trace + Joined(parts[..i]), events[i].fingerprint;
            (exists e :: e in parts[i] && AboutRoute(e, route)) <==>
            && route in routes && Wants(route, events[i])
            && (events[i].severity.Recovery? ==>
                  Recorded(before, fp).Some? && exists j :: LastDelivery(before, fp, route.name, j))
    ensures forall e :: e in parts[i] && e.Attempted? ==> e.kind == KindOf(events[i])
  {
    assert EventTrace(routes, trace + Joined(parts[..i]), events[i], parts[i]);
    ReachesWhoWantsIt(routes, trace + Joined(parts[..i]), events[i], parts[i], route);
  }

  // ---- what legal traces guarantee

  /** `j` is the last delivery of `fp` to `route`, and the issue neither opened nor closed since. */
  ghost predicate LastDelivery(trace: Trace, fp: string, route: string, j: int) {
    && 0 <= j < |trace| && DeliveredTo(trace[j], fp, route)
    && forall k :: j < k < |trace| ==> !Boundary(trace[k], fp) && !DeliveredTo(trace[k], fp, route)
  }

  /** A mark is exactly the last successful delivery since the issue opened. */
  lemma {:induction false} MarkIsLastDelivery(trace: Trace, fp: string, route: string)
    ensures Mark(trace, fp, route).Some? <==> exists j :: LastDelivery(trace, fp, route, j)
    ensures forall j :: LastDelivery(trace, fp, route, j) ==> Mark(trace, fp, route) == Some(trace[j].at)
  {
    if trace != [] {
      var n := |trace| - 1;
      var before := trace[..n];
      MarkIsLastDelivery(before, fp, route);
      if Boundary(trace[n], fp) {
      } else if DeliveredTo(trace[n], fp, route) {
        assert LastDelivery(trace, fp, route, n);
      } else {
        forall j
          ensures LastDelivery(trace, fp, route, j) <==> LastDelivery(before, fp, route, j)
        {
          assert LastDelivery(trace, fp, route, j) ==> j < n;
        }
      }
    }
  }

  /** A recovery is only sent where the problem itself was delivered in the same episode. */
  lemma RecoveryFollowsDelivery(trace: Trace, i: nat)
    requires LegalTrace(trace) && i < |trace|
    requires trace[i].Attempted? && trace[i].kind.RecoveryNotice?
    ensures exists j :: LastDelivery(trace[..i], trace[i].fp, trace[i].route.name, j)
  {
    MarkIsLastDelivery(trace[..i], trace[i].fp, trace[i].route.name);
  }

  /** Within an episode a route that got the issue is tried again only when severity rose or its cooldown passed. */
  lemma RepeatNeedsReason(trace: Trace, i: nat, j: int)
    requires LegalTrace(trace) && i < |trace|
    requires (trace[i].Attempted? && trace[i].kind.Problem?) || trace[i].Suppressed?
    requires LastDelivery(trace[..i], trace[i].fp, trace[i].route.name, j)
    ensures trace[i].Attempted? <==>
            || Rising(trace[..i], trace[i].fp)
            || (trace[i].route.cooldown.Some? && trace[j].at != 0
                && trace[i].at - trace[j].at >= trace[i].route.cooldown.value)
  {
    MarkIsLastDelivery(trace[..i], trace[i].fp, trace[i].route.name);
  }

  /** A route without a success in this episode is never skipped. */
  lemma NeverSkippedBeforeSuccess(trace: Trace, i: nat)
    requires LegalTrace(trace) && i < |trace| && trace[i].Suppressed?
    ensures exists j :: LastDelivery(trace[..i], trace[i].fp, trace[i].route.name, j)
  {
    MarkIsLastDelivery(trace[..i], trace[i].fp, trace[i].route.name);
  }

  /** The last observation of `fp`, at `j`, belongs to the open episode. */
  ghost predicate LastObservation(trace: Trace, fp: string, j: int) {
    && 0 <= j < |trace| && trace[j].Observed? && trace[j].fp == fp
    && forall k :: j < k < |trace| ==> !Boundary(trace[k], fp) && !(trace[k].Observed? && trace[k].fp == fp)
  }

  /** An error is worse than anything else, a warning worse than an information or a recovery. */
  predicate Worse(now: Severity, before: Severity) {
    match now
    case Error => !before.Error?
    case Warning => before.Info? || before.Recovery?
    case Info => before.Recovery?
    case Recovery => false
  }

  /** "Rising" compares the latest observation with the severity recorded just before it, and nothing earlier. */
  lemma {:induction false} RisingComparesNeighbours(trace: Trace, fp: string)
    requires LegalTrace(trace)
    ensures Rising(trace, fp) ==> exists j :: LastObservation(trace, fp, j)
    ensures forall j :: LastObservation(trace, fp, j) ==>
      Recorded(trace[..j], fp) == Some(trace[j].before)
        && (Rising(trace, fp) <==> Worse(trace[j].now, trace[j].before))
  {
    if trace != [] {
      var n := |trace| - 1;
      LegalPrefix(trace, n);
      RisingComparesNeighbours(trace[..n], fp);
      assert Legal(trace[..n], trace[n]);
      if trace[n].Observed? && trace[n].fp == fp {
        assert LastObservation(trace, fp, n);
      } else if !Boundary(trace[n], fp) {
        forall j
          ensures LastObservation(trace, fp, j) <==> LastObservation(trace[..n], fp, j)
        {
          LastObservationKept(trace, fp, j);
        }
        assert forall j :: 0 <= j < n ==> trace[..n][..j] == trace[..j] && trace[..n][j] == trace[j];
      }
    }
  }

  lemma LastObservationKept(trace: Trace, fp: string, j: int)
    requires trace != [] && !Boundary(trace[|trace| - 1], fp)
    requires !(trace[|trace| - 1].Observed? && trace[|trace| - 1].fp == fp)
    ensures LastObservation(trace, fp, j) <==> LastObservation(trace[..|trace| - 1], fp, j)
  {
    assert LastObservation(trace, fp, j) ==> j < |trace| - 1;
  }

  /**
   * A fingerprint seen only in informational and recovery events never has an open issue, so its recoveries send
   * nothing. Package updates are reported this way, so "updates cleared" is never delivered as a recovery.
   */
  lemma {:induction false} InformationLeavesNothingToRecover(routes: seq<Route>, events: seq<Event>, parts: seq<Trace>,
                                                             fp: string)
    requires BatchTrace(routes, [], events, parts)
    requires forall e :: e in events && e.fingerprint == fp ==> e.severity.Info? || e.severity.Recovery?
    ensures OnlyInformation(Joined(parts), fp) && Recorded(Joined(parts), fp).None?
  {
    if events != [] {
      var n := |events| - 1;
      BatchPrefix(routes, [], events, parts, n);
      InformationLeavesNothingToRecover(routes, events[..n], parts[..n], fp);
      var before := Joined(parts[..n]);
      assert [] + before == before;
      assert EventTrace(routes, [] + before, events[n], parts[n]);
      EventInformation(routes, before, events[n], parts[n], fp);
      InformationJoined(before, parts[n], fp);
    }
  }

  /** Every entry about `fp` is an informational attempt. */
  ghost predicate OnlyInformation(t: Trace, fp: string) {
    forall i :: 0 <= i < |t| && t[i].fp == fp ==> t[i].Attempted? && t[i].kind.Information?
  }

  lemma EventInformation(routes: seq<Route>, trace: Trace, event: Event, t: Trace, fp: string)
    requires EventShape(routes, trace, event, t) && Recorded(trace, fp).None?
    requires event.fingerprint == fp ==> event.severity.Info? || event.severity.Recovery?
    ensures OnlyInformation(t, fp)
  {
    if event.fingerprint != fp {
      EventTouchesOnly(routes, trace, event, t);
    }
  }

  /** An event's entries are about its own fingerprint. */
  lemma EventTouchesOnly(routes: seq<Route>, trace: Trace, event: Event, t: Trace)
    requires EventShape(routes, trace, event, t)
    ensures forall i :: 0 <= i < |t| ==> t[i].fp == event.fingerprint
  {
    match event.severity
    case Recovery =>
      assert t != [] ==> forall i :: 0 <= i < |t| - 1 ==> t[i] == t[..|t| - 1][i];
    case Info =>
    case _ =>
      var seen := Observation(trace, event);
      assert t == seen + t[|seen|..];
  }

  lemma {:induction false} InformationJoined(t: Trace, u: Trace, fp: string)
    requires OnlyInformation(t, fp) && OnlyInformation(u, fp) && Recorded(t, fp).None?
    ensures OnlyInformation(t + u, fp) && Recorded(t + u, fp).None?
  {
    if u == [] {
      assert t + u == t;
    } else {
      var n := |u| - 1;
      InformationJoined(t, u[..n], fp);
      Step(t + u[..n], u[n], fp, "");
      assert t + u == t + u[..n] + [u[n]];
    }
  }

  /** `first` and two more events like it, one time unit apart, the second of the three being a warning. */
  ghost function Wavering(first: Event): seq<Event> {
    [first, first.(severity := Warning, occurredAt := first.occurredAt + 1), first.(occurredAt := first.occurredAt + 2)]
  }

  /** What those events add when one route matches them and every attempt succeeds. */
  ghost function WaveringParts(first: Event, route: Route): seq<Trace> {
    var fp, start := first.fingerprint, first.occurredAt;
    [[Opened(fp, Error), Observed(fp, Error, Error), Attempted(Problem, fp, route, start, true)],
     [Observed(fp, Error, Warning), Suppressed(fp, route, start + 1)],
     [Observed(fp, Warning, Error), Attempted(Problem, fp, route, start + 2, true)]]
  }

  /**
   * Escalation looks one observation back: an error delivered, a warning observed, and the error again is delivered
   * a second time within the cooldown, although the severity never exceeded what was already delivered.
   */
  lemma EscalationForgetsThePeak(first: Event, route: Route)
    requires first.severity.Error? && first.occurredAt > 0 && route.cooldown == Some(60)
    requires forall e :: e in Wavering(first) ==> RouteMatches(route, e, false)
    ensures BatchTrace([route], [], Wavering(first), WaveringParts(first, route))
    ensures DeliveredTo(WaveringParts(first, route)[0][2], first.fingerprint, route.name)
    ensures DeliveredTo(WaveringParts(first, route)[2][1], first.fingerprint, route.name)
    ensures !CooldownElapsed(route, first.occurredAt, first.occurredAt + 2)
  {
    var events, parts := Wavering(first), WaveringParts(first, route);
    FirstSeen(route, events[0]);
    assert parts[0] == [Opened(first.fingerprint, Error), Observed(first.fingerprint, Error, Error)] +
                       [Attempted(Problem, first.fingerprint, route, first.occurredAt, true)];
    SeenAgain(route, parts[0], events[1], Error);
    SeenAgain(route, parts[0] + parts[1], events[2], Warning);
    ThreeEvents([route], events, parts);
  }

  lemma ThreeEvents(routes: seq<Route>, events: seq<Event>, parts: seq<Trace>)
    requires |events| == 3 && |parts| == 3
    requires EventTrace(routes, [], events[0], parts[0]) && EventTrace(routes, parts[0], events[1], parts[1])
    requires EventTrace(routes, parts[0] + parts[1], events[2], parts[2])
    ensures BatchTrace(routes, [], events, parts)
  {
    assert parts[..1][..0] == [] && parts[..2][..1] == parts[..1];
    assert Joined(parts[..1]) == [] + parts[0] == parts[0];
    assert Joined(parts[..2]) == parts[0] + parts[1];
    forall i | 0 <= i < 3
      ensures EventTrace(routes, [] + Joined(parts[..i]), events[i], parts[i])
    {
      assert [] + Joined(parts[..i]) == Joined(parts[..i]);
      if i == 0 {
        assert parts[..i] == [];
      }
    }
  }

  /** A new problem is delivered to the route that matches it. */
  lemma FirstSeen(route: Route, event: Event)
    requires RouteMatches(route, event, false) && (event.severity.Error? || event.severity.Warning?)
    ensures var fp, seen := event.fingerprint, event.severity;
            var t := [Opened(fp, seen), Observed(fp, seen, seen)] +
                     [Attempted(Problem, fp, route, event.occurredAt, true)];
            EventTrace([route], [], event, t) && Recorded(t, fp) == Some(seen)
            && Mark(t, fp, route.name) == Some(event.occurredAt)
  {
    var fp, name := event.fingerprint, route.name;
    var e := Opened(fp, event.severity);
    var seen := [e, Observed(fp, event.severity, event.severity)];
    assert seen == [] + [e] + [seen[1]] && [] + seen == seen;
    Step([], e, fp, name);
    Step([] + [e], seen[1], fp, name);
    Step(seen, Attempted(Problem, fp, route, event.occurredAt, true), fp, name);
    AddsEvent(route, [], event, seen, Attempted(Problem, fp, route, event.occurredAt, true));
  }

  /** A problem delivered before is delivered again exactly when it rose or the cooldown passed. */
  lemma SeenAgain(route: Route, trace: Trace, event: Event, before: Severity)
    requires RouteMatches(route, event, false) && (event.severity.Error? || event.severity.Warning?)
    requires Recorded(trace, event.fingerprint) == Some(before) && Mark(trace, event.fingerprint, route.name).Some?
    ensures var fp, at, mark := event.fingerprint, event.occurredAt, Mark(trace, event.fingerprint, route.name);
            var due := Rank(event.severity) > Rank(before) || CooldownElapsed(route, mark.value, at);
            var last := if due then Attempted(Problem, fp, route, at, true) else Suppressed(fp, route, at);
            var t := [Observed(fp, before, event.severity), last];
            EventTrace([route], trace, event, t) && Recorded(trace + t, fp) == Some(event.severity)
            && Mark(trace + t, fp, route.name) == if due then Some(at) else mark
  {
    var fp, at, mark := event.fingerprint, event.occurredAt, Mark(trace, event.fingerprint, route.name);
    var e := Observed(fp, before, event.severity);
    var due := Rank(event.severity) > Rank(before) || CooldownElapsed(route, mark.value, at);
    var last := if due then Attempted(Problem, fp, route, at, true) else Suppressed(fp, route, at);
    Step(trace, e, fp, route.name);
    Step(trace + [e], last, fp, route.name);
    AddsEvent(route, trace, event, [e], last);
    assert [e] + [last] == [e, last];
    Associative(trace, [e], [last]);
  }

  /** An event of a problem that one route matches: its observation, then the route's entry. */
  lemma AddsEvent(route: Route, trace: Trace, event: Event, seen: Trace, last: Entry)
    requires RouteMatches(route, event, false) && (event.severity.Error? || event.severity.Warning?)
    requires seen == Observation(trace, event) && Legal(trace + seen, last)
    requires (last.Attempted? && last.kind.Problem?) || last.Suppressed?
    requires last.fp == event.fingerprint && last.at == event.occurredAt && last.route == route
    ensures EventTrace([route], trace, event, seen + [last])
  {
    ObservationIsLegal(trace, event);
    LegalOneMore(trace, seen, last);
    assert (seen + [last])[|seen|..] == [last] && (seen + [last])[..|seen|] == seen;
    assert [route][..0] == [];
    assert Selected([route], event, false) == [] + [route];
  }

  lemma ObservationIsLegal(trace: Trace, event: Event)
    ensures LegalFrom(trace, Observation(trace, event))
  {
    var seen := Observation(trace, event);
    assert trace + seen[..0] == trace;
    if |seen| == 2 {
      assert trace + seen[..1] == trace + [seen[0]];
      Step(trace, seen[0], event.fingerprint, "");
    }
  }
}
