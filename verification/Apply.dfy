/** `internal/apply/apply.go`: a reviewed plan is executed change by change, each verified before the next. */
module Apply {
  import opened Text
  import opened PlanGraph

  datatype Effect = AcquireLock | ApplyChange(change: Change) | VerifyChange(change: Change) | Replan | ReleaseLock

  datatype LockAnswer = Unsupported | Granted | Busy | Failed

  /** The target: its answer to an effect may depend on everything done to it before. */
  datatype World = World(
    lock: LockAnswer, succeeds: (seq<Effect>, Effect) -> bool, replan: seq<Effect> -> Option<seq<Change>>)

  datatype Error =
    | NoError
    | PlanBlocked(id: string)
    | ApplyLocked
    | LockFailed
    | UnknownModule(name: string)
    | ApplyFailed(id: string)
    | VerificationFailed(id: string)
    | ReplanFailed
    | StillDivergent(id: string)

  datatype Result = Result(applied: seq<string>, verified: seq<string>, final: seq<Change>)

  ghost function IdsOf(cs: seq<Change>): (ids: seq<string>) {
    seq(|cs|, i requires 0 <= i < |cs| => cs[i].id)
  }

  /** Applying and verifying `cs` one after the other. */
  ghost function Rounds(cs: seq<Change>): seq<Effect> {
    seq(2 * |cs|, i requires 0 <= i < 2 * |cs| =>
        if i % 2 == 0 then ApplyChange(cs[i / 2]) else VerifyChange(cs[i / 2]))
  }

  ghost predicate NoneBlocked(cs: seq<Change>) {
    forall c :: c in cs ==> c.blocked == ""
  }

  ghost function Opening(world: World, reviewed: seq<Change>): seq<Effect> {
    if reviewed != [] && !world.lock.Unsupported? then [AcquireLock] else []
  }

  ghost function Closing(world: World, reviewed: seq<Change>): seq<Effect> {
    if reviewed != [] && world.lock.Granted? then [ReleaseLock] else []
  }

  ghost predicate LockAvailable(world: World, reviewed: seq<Change>) {
    reviewed == [] || world.lock.Granted? || world.lock.Unsupported?
  }

  /** What has been done once the first `k` changes have been applied and verified. */
  ghost function DoneBefore(world: World, reviewed: seq<Change>, k: nat): seq<Effect>
    requires k <= |reviewed|
  {
    Opening(world, reviewed) + Rounds(reviewed[..k])
  }

  /** Change `k` finds its module, applies and verifies, in the state its predecessors left. */
  ghost predicate RoundSucceeds(world: World, modules: set<string>, reviewed: seq<Change>, k: nat)
    requires k < |reviewed|
  {
    var before := DoneBefore(world, reviewed, k);
    && reviewed[k].owner in modules
    && world.succeeds(before, ApplyChange(reviewed[k]))
    && world.succeeds(before + [ApplyChange(reviewed[k])], VerifyChange(reviewed[k]))
  }

  /** The whole plan runs, and the fresh plan afterwards has nothing left that could be done. */
  ghost predicate FullSuccess(world: World, modules: set<string>, reviewed: seq<Change>) {
    && NoneBlocked(reviewed) && LockAvailable(world, reviewed)
    && (forall k :: 0 <= k < |reviewed| ==> RoundSucceeds(world, modules, reviewed, k))
    && var final := world.replan(DoneBefore(world, reviewed, |reviewed|));
       final.Some? && forall c :: c in final.value ==> c.blocked != ""
  }

  /** What was tried after `v` verified rounds, when `a` changes count as applied. */
  ghost predicate Tail(reviewed: seq<Change>, a: nat, v: nat, error: Error, tail: seq<Effect>) {
    && v <= a <= |reviewed|
    && match error
       case PlanBlocked(_) => a == v == 0 && tail == []
       case ApplyLocked => a == v == 0 && tail == []
       case LockFailed => a == v == 0 && tail == []
       case UnknownModule(_) => a == v < |reviewed| && tail == []
       case ApplyFailed(id) => a == v < |reviewed| && tail == [ApplyChange(reviewed[v])] && id == reviewed[v].id
       case VerificationFailed(id) =>
         && a == v + 1 <= |reviewed| && id == reviewed[v].id
         && tail == [ApplyChange(reviewed[v]), VerifyChange(reviewed[v])]
       case _ => a == v == |reviewed| && tail == [Replan]
  }

  /** Why a run stopped after `v` verified rounds. */
  ghost predicate Cause(world: World, modules: set<string>, reviewed: seq<Change>, error: Error, v: nat)
    requires v <= |reviewed|
  {
    var before := DoneBefore(world, reviewed, v);
    match error
    case PlanBlocked(id) => false
    case ApplyLocked => reviewed != [] && world.lock.Busy?
    case LockFailed => reviewed != [] && world.lock.Failed?
    case UnknownModule(name) => v < |reviewed| && reviewed[v].owner == name && name !in modules
    case ApplyFailed(_) =>
      v < |reviewed| && reviewed[v].owner in modules && !world.succeeds(before, ApplyChange(reviewed[v]))
    case VerificationFailed(_) =>
      && v < |reviewed| && reviewed[v].owner in modules && world.succeeds(before, ApplyChange(reviewed[v]))
      && !world.succeeds(before + [ApplyChange(reviewed[v])], VerifyChange(reviewed[v]))
    case ReplanFailed => world.replan(before).None?
    case StillDivergent(id) => world.replan(before).Some? && FirstWith(world.replan(before).value, id, false)
    case NoError => world.replan(before).Some?
  }

  /** `id` names the first change that is blocked, or the first that is not. */
  ghost predicate FirstWith(cs: seq<Change>, id: string, blocked: bool) {
    exists i :: 0 <= i < |cs| && cs[i].id == id && (cs[i].blocked != "" <==> blocked) &&
      forall j :: 0 <= j < i ==> !(cs[j].blocked != "" <==> blocked)
  }

  /** The fresh plan, once the run got as far as making one. */
  ghost function FinalPlan(answer: Option<seq<Change>>, error: Error): seq<Change> {
    if answer.Some? && (error.NoError? || error.StillDivergent?) then answer.value else []
  }

  /** The shape of every run: some whole rounds, at most one broken one, and the lock released at the end. */
  ghost predicate RunShape(world: World, modules: set<string>, reviewed: seq<Change>,
                           result: Result, error: Error, log: seq<Effect>) {
    if error.PlanBlocked? then
      log == [] && result == Result([], [], []) && FirstWith(reviewed, error.id, true)
    else exists a: nat, v: nat, tail ::
      StopsAt(world, modules, reviewed, result, error, a, v, tail)
      && log == DoneBefore(world, reviewed, v) + tail + Closing(world, reviewed)
  }

  ghost predicate StopsAt(world: World, modules: set<string>, reviewed: seq<Change>,
                          result: Result, error: Error, a: nat, v: nat, tail: seq<Effect>) {
    && Tail(reviewed, a, v, error, tail) && Cause(world, modules, reviewed, error, v)
    && result.applied == IdsOf(reviewed[..a]) && result.verified == IdsOf(reviewed[..v])
    && result.final == FinalPlan(world.replan(DoneBefore(world, reviewed, v)), error)
    && forall k :: 0 <= k < v ==> RoundSucceeds(world, modules, reviewed, k)
  }

  method Execute(reviewed: seq<Change>, modules: set<string>, world: World)
    returns (result: Result, error: Error, log: seq<Effect>)
    ensures RunShape(world, modules, reviewed, result, error, log)
    ensures error.NoError? <==> FullSuccess(world, modules, reviewed)
    ensures error.PlanBlocked? <==> !NoneBlocked(reviewed)
  {
    result, log := Result([], [], []), [];
    for i := 0 to |reviewed|
      invariant NoneBlocked(reviewed[..i])
    {
      if reviewed[i].blocked != "" {
        return result, PlanBlocked(reviewed[i].id), log;
      }
      assert reviewed[..i + 1] == reviewed[..i] + [reviewed[i]];
    }
    assert reviewed[..|reviewed|] == reviewed;
    assert IdsOf(reviewed[..0]) == [] && Rounds(reviewed[..0]) == [];
    if reviewed != [] && !world.lock.Unsupported? {
      log := [AcquireLock];
      if !world.lock.Granted? {
        error := if world.lock.Busy? then ApplyLocked else LockFailed;
        assert StopsAt(world, modules, reviewed, result, error, 0, 0, []);
        assert log == DoneBefore(world, reviewed, 0) + [] + Closing(world, reviewed);
        return;
      }
    }
    result, error, log := RunRounds(reviewed, modules, world, log);
    if reviewed != [] && world.lock.Granted? {
      log := log + [ReleaseLock];
    }
  }

  /** The part of `Execute` that runs under the lock. */
  method RunRounds(reviewed: seq<Change>, modules: set<string>, world: World, opening: seq<Effect>)
    returns (result: Result, error: Error, log: seq<Effect>)
    requires NoneBlocked(reviewed) && LockAvailable(world, reviewed) && opening == Opening(world, reviewed)
    ensures !error.PlanBlocked? && !error.ApplyLocked? && !error.LockFailed?
    ensures exists a: nat, v: nat, tail ::
      StopsAt(world, modules, reviewed, result, error, a, v, tail) && log == DoneBefore(world, reviewed, v) + tail
    ensures error.NoError? <==> FullSuccess(world, modules, reviewed)
  {
    result, log := Result([], [], []), opening;
    for k := 0 to |reviewed|
      invariant result.applied == result.verified == IdsOf(reviewed[..k])
      invariant result.final == []
      invariant log == DoneBefore(world, reviewed, k)
      invariant forall m :: 0 <= m < k ==> RoundSucceeds(world, modules, reviewed, m)
    {
      var change := reviewed[k];
      if change.owner !in modules {
        error := UnknownModule(change.owner);
        assert !RoundSucceeds(world, modules, reviewed, k);
        assert StopsAt(world, modules, reviewed, result, error, k, k, []) && log == log + [];
        return;
      }
      var applied := world.succeeds(log, ApplyChange(change));
      log := log + [ApplyChange(change)];
      if !applied {
        error := ApplyFailed(change.id);
        assert !RoundSucceeds(world, modules, reviewed, k);
        assert StopsAt(world, modules, reviewed, result, error, k, k, [ApplyChange(change)]);
        return;
      }
      result := result.(applied := result.applied + [change.id]);
      var verified := world.succeeds(log, VerifyChange(change));
      log := log + [VerifyChange(change)];
      assert log == DoneBefore(world, reviewed, k) + [ApplyChange(change), VerifyChange(change)];
      if !verified {
        error := VerificationFailed(change.id);
        assert !RoundSucceeds(world, modules, reviewed, k);
        assert StopsAt(world, modules, reviewed, result, error, k + 1, k, [ApplyChange(change), VerifyChange(change)]);
        return;
      }
      result := result.(verified := result.verified + [change.id]);
      assert log == DoneBefore(world, reviewed, k + 1);
    }
    var final := world.replan(log);
    log := log + [Replan];
    error := FirstDivergence(final);
    result := result.(final := if final.Some? then final.value else []);
    assert StopsAt(world, modules, reviewed, result, error, |reviewed|, |reviewed|, [Replan]);
  }

  method FirstDivergence(final: Option<seq<Change>>) returns (error: Error)
    ensures error.NoError? || error.ReplanFailed? || error.StillDivergent?
    ensures error.NoError? <==> final.Some? && forall c :: c in final.value ==> c.blocked != ""
    ensures error.ReplanFailed? <==> final.None?
    ensures error.StillDivergent? ==> FirstWith(final.value, error.id, false)
  {
    if final.None? {
      return ReplanFailed;
    }
    for i := 0 to |final.value|
      invariant forall j :: 0 <= j < i ==> final.value[j].blocked != ""
    {
      if final.value[i].blocked == "" {
        return StillDivergent(final.value[i].id);
      }
    }
    return NoError;
  }

  /** `Applied` and `Verified` are prefixes of the plan and never differ by more than the change in hand. */
  lemma ResultsArePrefixes(world: World, modules: set<string>, reviewed: seq<Change>, result: Result, error: Error,
                           log: seq<Effect>)
    requires RunShape(world, modules, reviewed, result, error, log)
    ensures result.verified <= result.applied <= IdsOf(reviewed)
    ensures |result.applied| <= |result.verified| + 1
    ensures error.NoError? ==> result.verified == IdsOf(reviewed)
    ensures error.PlanBlocked? ==> log == []
  {
    if !error.PlanBlocked? {
      var a: nat, v: nat, tail :|
        StopsAt(world, modules, reviewed, result, error, a, v, tail)
        && log == DoneBefore(world, reviewed, v) + tail + Closing(world, reviewed);
      assert reviewed[..|reviewed|] == reviewed;
    }
  }

  /** A change named `id` was applied and then verified, both successfully, by effects `j - 1` and `j`. */
  ghost predicate CompletedAt(world: World, log: seq<Effect>, j: nat, id: string) {
    && 0 < j < |log|
    && log[j - 1].ApplyChange? && log[j - 1].change.id == id && world.succeeds(log[..j - 1], log[j - 1])
    && log[j].VerifyChange? && log[j].change.id == id && world.succeeds(log[..j], log[j])
  }

  /** Sorting and execution compose: nothing is applied before all its dependencies were applied and verified. */
  lemma AppliedAfterDependencies(world: World, modules: set<string>, cs: seq<Change>, reviewed: seq<Change>,
                                 result: Result, error: Error, log: seq<Effect>, i: nat, d: string)
    requires CanonicalOrder(cs, reviewed) && RunShape(world, modules, reviewed, result, error, log)
    requires i < |log| && log[i].ApplyChange? && d in log[i].change.dependencies
    ensures exists j: nat :: j < i && CompletedAt(world, log, j, d)
  {
    var a: nat, v: nat, tail :|
      StopsAt(world, modules, reviewed, result, error, a, v, tail)
      && log == DoneBefore(world, reviewed, v) + tail + Closing(world, reviewed);
    var k := WhichRound(world, reviewed, a, v, error, tail, log, i);
    assert Enabled(reviewed[k], reviewed[..k]);
    var m :| 0 <= m < k && reviewed[m].id == d;
    RoundInLog(world, reviewed, v, tail, log, m);
    assert RoundSucceeds(world, modules, reviewed, m);
    assert CompletedAt(world, log, |Opening(world, reviewed)| + 2 * m + 1, d);
  }

  lemma WhichRound(world: World, reviewed: seq<Change>, a: nat, v: nat, error: Error, tail: seq<Effect>,
                   log: seq<Effect>, i: nat) returns (k: nat)
    requires Tail(reviewed, a, v, error, tail)
    requires log == DoneBefore(world, reviewed, v) + tail + Closing(world, reviewed)
    requires i < |log| && log[i].ApplyChange?
    ensures k <= v && k < |reviewed| && i == |Opening(world, reviewed)| + 2 * k && log[i].change == reviewed[k]
  {
    var start := |Opening(world, reviewed)|;
    if i < start + 2 * v {
      k := (i - start) / 2;
      assert log[i] == Rounds(reviewed[..v])[i - start];
    } else {
      k := v;
      assert i < start + 2 * v + |tail| ==> log[i] == tail[i - start - 2 * v];
    }
  }

  /** Where round `m` sits in the log. */
  lemma RoundInLog(world: World, reviewed: seq<Change>, v: nat, tail: seq<Effect>, log: seq<Effect>, m: nat)
    requires m < v <= |reviewed|
    requires log == DoneBefore(world, reviewed, v) + tail + Closing(world, reviewed)
    ensures var j := |Opening(world, reviewed)| + 2 * m;
            && j + 1 < |log| && log[j] == ApplyChange(reviewed[m]) && log[j + 1] == VerifyChange(reviewed[m])
            && log[..j] == DoneBefore(world, reviewed, m)
            && log[..j + 1] == DoneBefore(world, reviewed, m) + [ApplyChange(reviewed[m])]
  {
    var j := |Opening(world, reviewed)| + 2 * m;
    assert log[..j] == DoneBefore(world, reviewed, m);
    assert log[..j + 1] == log[..j] + [log[j]];
  }
}
