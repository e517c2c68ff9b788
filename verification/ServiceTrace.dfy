/**
 * What backup and restore do to the services of a host, as a trace, and which services a trace leaves stopped. A
 * service is down from a successful stop to the next attempt to restart it, whether or not that attempt succeeds: the
 * promise is the attempt. Both `Create` and `Restore` extend such a trace one event at a time.
 */
module ServiceTrace {

  datatype Event =
    | Checked(service: string, resource: string, ok: bool)
    | Stopped(service: string, ok: bool)
    | Captured(service: string, resource: string, ok: bool)
    | Observed(service: string, resource: string, exists_: bool, empty: bool)
    | Created(service: string, resource: string, ok: bool)
    | Streamed(service: string, resource: string, ok: bool)
    | Restarted(service: string, ok: bool)

  type Trace = seq<Event>

  /** The service was stopped and no restart has been attempted since. */
  ghost predicate Down(trace: Trace, service: string) {
    trace != [] && (
      var last := trace[|trace| - 1];
      if last.Stopped? && last.ok && last.service == service then true
      else if last.Restarted? && last.service == service then false
      else Down(trace[..|trace| - 1], service))
  }

  /** Whatever `needs` a stop is worked on only while it is down. */
  ghost predicate WorkedWhileDown(trace: Trace, needs: set<string>) {
    forall k :: 0 <= k < |trace| && (trace[k].Captured? || trace[k].Streamed?) && trace[k].service in needs ==>
      Down(trace[..k], trace[k].service)
  }

  /** No two services, the `stranded` ones aside, are ever down together. */
  ghost predicate OneDownAtATime(trace: Trace, stranded: set<string>) {
    forall k, s, t ::
      0 <= k <= |trace| && Down(trace[..k], s) && Down(trace[..k], t) && s !in stranded && t !in stranded ==> s == t
  }

  /** The only service that may be down is `stopped`. */
  ghost predicate OnlyDown(trace: Trace, stopped: set<string>) {
    forall s :: Down(trace, s) <==> s in stopped
  }

  /** Only what `needs` a stop is stopped, and only what is down is restarted. */
  ghost predicate StopsNeeded(trace: Trace, needs: set<string>) {
    forall k :: 0 <= k < |trace| ==>
      && (trace[k].Stopped? ==> trace[k].service in needs)
      && (trace[k].Restarted? ==> Down(trace[..k], trace[k].service))
  }

  /** The discipline of a run so far: work on stopped services only, one at a time, `stopped` being down now. */
  ghost predicate Disciplined(trace: Trace, needs: set<string>, stranded: set<string>, stopped: set<string>) {
    && WorkedWhileDown(trace, needs) && StopsNeeded(trace, needs)
    && OneDownAtATime(trace, stranded) && OnlyDown(trace, stopped)
  }

  ghost function StoppedAfter(stopped: set<string>, event: Event): set<string> {
    if event.Stopped? && event.ok then stopped + {event.service}
    else if event.Restarted? then stopped - {event.service} else stopped
  }

  lemma Extend(trace: Trace, event: Event, needs: set<string>, stranded: set<string>, stopped: set<string>)
    requires Disciplined(trace, needs, stranded, stopped)
    requires (event.Captured? || event.Streamed?) && event.service in needs ==> event.service in stopped
    requires event.Stopped? ==> stopped <= stranded && event.service in needs
    requires event.Restarted? ==> event.service in stopped
    ensures Disciplined(trace + [event], needs, stranded, StoppedAfter(stopped, event))
    ensures AllOk(trace + [event]) <==> AllOk(trace) && (event.Observed? || event.ok)
    ensures StopsOk(trace + [event]) <==> StopsOk(trace) && (event.Stopped? ==> event.ok)
    ensures StopsOk(trace) ==> FailedStopIsLast(trace + [event])
  {
    var after := trace + [event];
    assert after[..|trace|] == trace;
    assert forall s :: Down(after, s) <==> s in StoppedAfter(stopped, event);
    PrefixesKept(trace, event);
    assert after[..|trace|] == trace && after[..|after|] == after;
    forall k, s, t | 0 <= k <= |after| && Down(after[..k], s) && Down(after[..k], t) && s !in stranded && t !in stranded
      ensures s == t
    {
      if k <= |trace| {
        assert after[..k] == trace[..k];
        assert Down(trace[..k], s) && Down(trace[..k], t);
      } else {
        assert s in StoppedAfter(stopped, event) && t in StoppedAfter(stopped, event);
        assert trace[..|trace|] == trace;
        if !event.Stopped? {
          assert Down(trace, s) && Down(trace, t);
        }
      }
    }
    assert after[|trace|] == event;
  }

  /** The run went on from `before` in discipline, and no stop failed on the way. */
  ghost predicate Continues(before: Trace, trace: Trace, needs: set<string>, stranded: set<string>,
                            stopped: set<string>)
  {
    Disciplined(trace, needs, stranded, stopped) && before <= trace && (StopsOk(before) ==> StopsOk(trace))
  }

  /** It goes on in discipline with work that neither stops nor restarts anything. */
  lemma ContinueWith(before: Trace, trace: Trace, event: Event, needs: set<string>, stranded: set<string>,
                     stopped: set<string>)
    requires Continues(before, trace, needs, stranded, stopped) && !event.Stopped? && !event.Restarted?
    requires (event.Captured? || event.Streamed?) && event.service in needs ==> event.service in stopped
    ensures Continues(before, trace + [event], needs, stranded, stopped)
    ensures AllOk(trace + [event]) <==> AllOk(trace) && (event.Observed? || event.ok)
  {
    Extend(trace, event, needs, stranded, stopped);
  }

  lemma PrefixesKept(trace: Trace, event: Event)
    ensures forall k :: 0 <= k <= |trace| ==> (trace + [event])[..k] == trace[..k]
  {
  }

  ghost predicate StopsOk(trace: Trace) {
    forall k :: 0 <= k < |trace| && trace[k].Stopped? ==> trace[k].ok
  }

  /** Nothing follows a stop that reported failure, and so no attempt to restart the service either. */
  ghost predicate FailedStopIsLast(trace: Trace) {
    forall k :: 0 <= k < |trace| && trace[k].Stopped? && !trace[k].ok ==> k == |trace| - 1
  }

  /** Nothing in the trace failed. */
  ghost predicate AllOk(trace: Trace) {
    forall k :: 0 <= k < |trace| && !trace[k].Observed? ==> trace[k].ok
  }
}
