/** `internal/plan/plan.go`: a plan and its finalization. */
module PlanFinalize {
  import opened Text
  import opened PlanGraph
  import opened PlanSort
  import opened Ordering

  datatype Warning = Warning(id: string, owner: string, summary: string, resolution: string)

  /** The hash of the canonical encoding, taken to be injective in what it encodes. */
  datatype Fingerprint = Unset | Sha256(target: string, changes: seq<Change>, warnings: seq<Warning>)

  predicate WarningAtMost(a: Warning, b: Warning) {
    AtMost(a.id, b.id)
  }

  lemma WarningOrder()
    ensures TotalPreorder(WarningAtMost)
  {
    forall a: Warning, b: Warning
      ensures WarningAtMost(a, b) || WarningAtMost(b, a)
    {
      LessTotal(a.id, b.id);
    }
    forall a: Warning, b: Warning, c: Warning | WarningAtMost(a, b) && WarningAtMost(b, c)
      ensures WarningAtMost(a, c)
    {
      AtMostTransitive(a.id, b.id, c.id);
    }
  }

  /** A finalized plan's contents, as values. */
  datatype Contents = Contents(target: string, changes: seq<Change>, warnings: seq<Warning>, fingerprint: Fingerprint)

  /** What finalizing the collected changes `cs` and warnings `ws` must give. */
  ghost predicate Finalized(cs: seq<Change>, ws: seq<Warning>, c: Contents) {
    && CanonicalOrder(cs, c.changes) && SortOf(WarningAtMost, ws, c.warnings)
    && c.fingerprint == Sha256(c.target, c.changes, c.warnings)
  }

  class Plan {
    const target: string
    const changes: array<Change>
    var warnings: seq<Warning>
    var fingerprint: Fingerprint

    constructor (target: string, changes: array<Change>, warnings: seq<Warning>)
      ensures this.target == target && this.changes == changes && this.warnings == warnings && fingerprint == Unset
    {
      this.target, this.changes, this.warnings, fingerprint := target, changes, warnings, Unset;
    }

    ghost function View(): Contents
      reads this, changes
    {
      Contents(target, changes[..], warnings, fingerprint)
    }

    method Finalize() returns (outcome: SortError)
      modifies this, changes
      ensures Explains(old(changes[..]), outcome)
      ensures outcome.Sorted_? ==> Finalized(old(changes[..]), old(warnings), View())
      ensures !outcome.Sorted_? ==> View() == old(View())
    {
      outcome := SortChanges(changes);
      if outcome.Sorted_? {
        WarningOrder();
        warnings := SortBy(warnings, WarningAtMost);
        fingerprint := Sha256(target, changes[..], warnings);
      }
    }
  }

  /**
   * Registration order is invisible, and one fingerprint stands for one collection of parts: with distinct
   * warning IDs two finalized plans have the same fingerprint exactly when they were assembled from the same
   * changes and warnings, in whatever order.
   */
  lemma FingerprintIdentifies(cs: seq<Change>, cs': seq<Change>, ws: seq<Warning>, ws': seq<Warning>,
                              p: Contents, p': Contents)
    requires Finalized(cs, ws, p) && Finalized(cs', ws', p')
    requires forall a, b :: a in ws && b in ws && a.id == b.id ==> a == b
    ensures p.fingerprint == p'.fingerprint <==>
            p.target == p'.target && multiset(cs) == multiset(cs') && multiset(ws) == multiset(ws')
    ensures p.fingerprint == p'.fingerprint ==> p == p'
  {
    if p.target == p'.target && multiset(cs) == multiset(cs') && multiset(ws) == multiset(ws') {
      CanonicalUnique(cs, cs', p.changes, p'.changes);
      WarningOrder();
      forall a, b | a in ws && b in ws && WarningAtMost(a, b) && WarningAtMost(b, a)
        ensures a == b
      {
        if a.id != b.id {
          LessAsymmetric(a.id, b.id);
        }
      }
      SortsAgree(WarningAtMost, ws, ws', p.warnings, p'.warnings);
    }
  }
}
