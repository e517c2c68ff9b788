/** `internal/maintenance/history.go`: one file per run, pruned after every append. */
module History {
  import opened Text
  import opened Ordering
  import Keyed
  import Paths

  datatype Result = Success | Warning | Failure | Skipped | OtherResult

  datatype Origin = Manual | Scheduled | OtherOrigin

  datatype Record = Record(
    schemaVersion: int, runId: string, job: string, jobFingerprint: string, operation: string, target: string,
    origin: Origin,
    windowOverride: bool, startedAt: int, finishedAt: int, result: Result, details: string, error: string)

  /** A file holds an encoded record or something that does not decode. */
  datatype Content = Encoded(record: Record) | Junk

  type Files = map<string, Content>

  datatype AppendFault = NoFault | CannotWrite | CannotRemove(after: nat)

  predicate ValidLocalId(value: string) {
    0 < |value| <= 128 && forall i :: 0 <= i < |value| ==>
      'a' <= value[i] <= 'z' || '0' <= value[i] <= '9' || value[i] == '-'
  }

  /** `validLocalID`. */
  method IsValidLocalId(value: string) returns (ok: bool)
    ensures ok <==> ValidLocalId(value)
  {
    if value == "" || |value| > 128 {
      return false;
    }
    for i := 0 to |value|
      invariant forall k :: 0 <= k < i ==>
                  'a' <= value[k] <= 'z' || '0' <= value[k] <= '9' || value[k] == '-'
    {
      var c := value[i];
      if !('a' <= c <= 'z' || '0' <= c <= '9' || c == '-') {
        return false;
      }
    }
    return true;
  }

  predicate ValidRecord(r: Record) {
    && r.schemaVersion == 1 && ValidLocalId(r.runId) && ValidLocalId(r.job) && |r.jobFingerprint| == 64
    && r.operation != "" && r.target != "" && !r.origin.OtherOrigin? && r.startedAt != 0 && r.finishedAt != 0
    && !r.result.OtherResult?
  }

  /** `validRecord`. */
  method IsValidRecord(r: Record) returns (ok: bool)
    ensures ok <==> ValidRecord(r)
  {
    var run := IsValidLocalId(r.runId);
    var job := IsValidLocalId(r.job);
    if r.schemaVersion != 1 || !run || !job || |r.jobFingerprint| != 64 || r.operation == "" || r.target == ""
      || (!r.origin.Manual? && !r.origin.Scheduled?) || r.startedAt == 0 || r.finishedAt == 0 {
      return false;
    }
    return r.result.Success? || r.result.Warning? || r.result.Failure? || r.result.Skipped?;
  }

  function FileName(r: Record): string {
    r.runId + ".json"
  }

  predicate ListedName(name: string) {
    Paths.HasPrefix(name, "run-") && |name| >= 5 && name[|name| - 5..] == ".json"
  }

  /** The record a file contributes to the history. */
  predicate Shows(files: Files, name: string) {
    name in files && ListedName(name) && files[name].Encoded? && ValidRecord(files[name].record)
    && FileName(files[name].record) == name
  }

  predicate NewestFirst(x: Record, y: Record) {
    x.startedAt > y.startedAt || (x.startedAt == y.startedAt && AtMost(y.runId, x.runId))
  }

  function Newest(): (Record, Record) -> bool {
    (x: Record, y: Record) => NewestFirst(x, y)
  }

  lemma NewestOrders()
    ensures TotalPreorder(Newest())
  {
    forall x: Record, y: Record
      ensures NewestFirst(x, y) || NewestFirst(y, x)
    {
      LessTotal(x.runId, y.runId);
    }
    forall x: Record, y: Record, z: Record | NewestFirst(x, y) && NewestFirst(y, z)
      ensures NewestFirst(x, z)
    {
      if x.startedAt == y.startedAt == z.startedAt {
        AtMostTransitive(z.runId, y.runId, x.runId);
      }
    }
  }

  ghost predicate DistinctIds(log: seq<Record>) {
    forall i, j :: 0 <= i < j < |log| ==> log[i].runId != log[j].runId
  }

  /** Newest first, each run once. */
  ghost predicate Ranked(shown: seq<Record>) {
    SortedBy(Newest(), shown) && DistinctIds(shown)
  }

  /** The records a directory shows, by file name. */
  function View(files: Files): map<string, Record> {
    map name | name in files && Shows(files, name) :: files[name].record
  }

  /** A view shows exactly these records. */
  ghost predicate Lists(view: map<string, Record>, shown: seq<Record>) {
    && (forall r :: r in shown ==> FileName(r) in view && view[FileName(r)] == r)
    && forall name :: name in view ==> view[name] in shown && FileName(view[name]) == name
  }

  /** The files show exactly these records, newest first. */
  ghost predicate Represents(files: Files, shown: seq<Record>) {
    Ranked(shown) && Lists(View(files), shown)
  }

  // ---- the log that is never pruned

  function Insert(r: Record, ranked: seq<Record>): seq<Record> {
    if ranked == [] || NewestFirst(r, ranked[0]) then [r] + ranked
    else [ranked[0]] + Insert(r, ranked[1..])
  }

  /** Every record ever appended under a listed name, newest first. */
  function RankedLog(log: seq<Record>): seq<Record> {
    if log == [] then []
    else
      var last := log[|log| - 1];
      if ListedName(FileName(last)) then Insert(last, RankedLog(log[..|log| - 1])) else RankedLog(log[..|log| - 1])
  }

  function Take(s: seq<Record>, k: nat): seq<Record> {
    if |s| <= k then s else s[..k]
  }

  lemma {:induction false} InsertElements(r: Record, ranked: seq<Record>)
    ensures multiset(Insert(r, ranked)) == multiset(ranked) + multiset{r}
    ensures |Insert(r, ranked)| == |ranked| + 1
    ensures forall x :: x in Insert(r, ranked) <==> x == r || x in ranked
  {
    if ranked == [] || NewestFirst(r, ranked[0]) {
    } else {
      InsertElements(r, ranked[1..]);
      assert ranked == [ranked[0]] + ranked[1..];
    }
  }

  lemma {:induction false} InsertRanks(r: Record, ranked: seq<Record>)
    requires Ranked(ranked) && forall i :: 0 <= i < |ranked| ==> ranked[i].runId != r.runId
    ensures Ranked(Insert(r, ranked))
  {
    NewestOrders();
    if ranked != [] && !NewestFirst(r, ranked[0]) {
      InsertRanks(r, ranked[1..]);
      InsertElements(r, ranked[1..]);
      var rest := Insert(r, ranked[1..]);
      forall j | 0 <= j < |rest|
        ensures Newest()(ranked[0], rest[j]) && rest[j].runId != ranked[0].runId
      {
        assert rest[j] in rest;
        if rest[j] != r {
          assert rest[j] in ranked[1..];
        } else {
          assert Newest()(r, ranked[0]) || Newest()(ranked[0], r);
        }
      }
    } else if ranked != [] {
      forall j | 0 <= j < |ranked|
        ensures Newest()(r, ranked[j])
      {
        assert j == 0 || Newest()(ranked[0], ranked[j]);
        assert Newest()(r, ranked[0]);
      }
    }
  }

  /** Pruning before or after an insertion keeps the same newest `k`. */
  lemma {:induction false} InsertThenTake(r: Record, ranked: seq<Record>, k: nat)
    ensures Take(Insert(r, Take(ranked, k)), k) == Take(Insert(r, ranked), k)
  {
    if ranked == [] || NewestFirst(r, ranked[0]) || k == 0 {
    } else {
      InsertThenTake(r, ranked[1..], k - 1);
      TakeCons(ranked[0], ranked[1..], k);
      assert [ranked[0]] + ranked[1..] == ranked;
      assert Take(ranked, k)[1..] == Take(ranked[1..], k - 1);
      TakeCons(ranked[0], Insert(r, Take(ranked[1..], k - 1)), k);
      TakeCons(ranked[0], Insert(r, ranked[1..]), k);
    }
  }

  lemma TakeCons(x: Record, s: seq<Record>, k: nat)
    requires k >= 1
    ensures Take([x] + s, k) == [x] + Take(s, k - 1)
  {
  }

  /** The newest `k` after an insertion depend only on the newest `k` before it. */
  lemma SameTop(r: Record, a: seq<Record>, b: seq<Record>, k: nat)
    requires Take(a, k) == Take(b, k)
    ensures Take(Insert(r, a), k) == Take(Insert(r, b), k)
  {
    InsertThenTake(r, a, k);
    InsertThenTake(r, b, k);
  }

  /** A later start comes first, and of two runs started at one time the greater identifier does. */
  ghost predicate Descending(shown: seq<Record>) {
    forall i, j :: 0 <= i < j < |shown| ==>
      || shown[i].startedAt > shown[j].startedAt
      || (shown[i].startedAt == shown[j].startedAt && Less(shown[j].runId, shown[i].runId))
  }

  lemma RankedDescends(shown: seq<Record>)
    requires Ranked(shown)
    ensures Descending(shown)
  {
    forall i, j | 0 <= i < j < |shown|
      ensures Newest()(shown[i], shown[j]) && shown[i].runId != shown[j].runId
    {
    }
  }

  /** The ranked log is the sorted log, restricted to listed names. */
  lemma {:induction false} RankedLogIsSorted(log: seq<Record>)
    requires DistinctIds(log)
    ensures Ranked(RankedLog(log)) && Descending(RankedLog(log))
    ensures forall r :: r in RankedLog(log) <==> r in log && ListedName(FileName(r))
  {
    if log != [] {
      var n := |log| - 1;
      RankedLogIsSorted(log[..n]);
      assert log == log[..n] + [log[n]];
      InsertElements(log[n], RankedLog(log[..n]));
      forall i | 0 <= i < |RankedLog(log[..n])|
        ensures RankedLog(log[..n])[i].runId != log[n].runId
      {
        assert RankedLog(log[..n])[i] in RankedLog(log[..n]);
      }
      InsertRanks(log[n], RankedLog(log[..n]));
      RankedDescends(RankedLog(log));
    }
  }

  lemma UniqueListing(a: seq<Record>, b: seq<Record>)
    requires Ranked(a) && SortedBy(Newest(), b) && multiset(a) == multiset(b)
    ensures a == b
  {
    NewestOrders();
    forall x, y | x in a && y in a && Newest()(x, y) && Newest()(y, x)
      ensures x == y
    {
      if x.runId != y.runId {
        LessAsymmetric(x.runId, y.runId);
      }
      var i :| 0 <= i < |a| && a[i] == x;
      var j :| 0 <= j < |a| && a[j] == y;
    }
    SortUnique(Newest(), a, b);
  }

  function OfJob(shown: seq<Record>, job: string): seq<Record> {
    if shown == [] then []
    else
      var last := shown[|shown| - 1];
      OfJob(shown[..|shown| - 1], job) + if job == "" || last.job == job then [last] else []
  }

  lemma {:induction false} OfJobRanks(shown: seq<Record>, job: string)
    requires Ranked(shown)
    ensures Ranked(OfJob(shown, job))
    ensures forall r :: r in OfJob(shown, job) <==> r in shown && (job == "" || r.job == job)
    ensures job == "" ==> OfJob(shown, job) == shown
  {
    if shown != [] {
      var n := |shown| - 1;
      OfJobRanks(shown[..n], job);
      assert shown == shown[..n] + [shown[n]];
      forall r | r in OfJob(shown[..n], job)
        ensures Newest()(r, shown[n]) && r.runId != shown[n].runId
      {
        var i :| 0 <= i < n && shown[i] == r;
      }
    }
  }

  lemma SameListing(a: seq<Record>, b: seq<Record>)
    requires Ranked(a) && SortedBy(Newest(), b) && DistinctIds(b) && forall r :: r in a <==> r in b
    ensures a == b
  {
    var key := (r: Record) => r.runId;
    forall r
      ensures multiset(a)[r] == multiset(b)[r]
    {
      OnceEach(a, r);
      OnceEach(b, r);
      assert r in multiset(a) <==> r in a;
      assert r in multiset(b) <==> r in b;
    }
    assert multiset(a) == multiset(b);
    UniqueListing(a, b);
  }

  // ---- the directory

  lemma Written(files: Files, shown: seq<Record>, r: Record)
    requires Represents(files, shown) && ValidRecord(r) && forall i :: 0 <= i < |shown| ==> shown[i].runId != r.runId
    ensures Represents(files[FileName(r) := Encoded(r)], if ListedName(FileName(r)) then Insert(r, shown) else shown)
  {
    InsertRanks(r, shown);
    InsertElements(r, shown);
    NamesDiffer(shown, r);
    ViewWritten(files, r);
    ListsWritten(View(files), shown, r, Insert(r, shown));
  }

  lemma ListsWritten(view: map<string, Record>, shown: seq<Record>, r: Record, more: seq<Record>)
    requires Lists(view, shown) && forall x :: x in shown ==> FileName(x) != FileName(r)
    requires forall x :: x in more <==> x == r || x in shown
    ensures Lists(view[FileName(r) := r], more) && Lists(view - {FileName(r)}, shown)
  {
  }

  lemma ViewWritten(files: Files, r: Record)
    requires ValidRecord(r)
    ensures View(files[FileName(r) := Encoded(r)]) ==
            if ListedName(FileName(r)) then View(files)[FileName(r) := r] else View(files) - {FileName(r)}
  {
  }

  /** The files whose names the history does not look at. */
  function Unlisted(files: Files): Files {
    map name | name in files && !ListedName(name) :: files[name]
  }

  lemma ViewRemoved(files: Files, name: string)
    ensures View(files - {name}) == View(files) - {name}
  {
  }

  lemma NamesDiffer(shown: seq<Record>, r: Record)
    requires forall i :: 0 <= i < |shown| ==> shown[i].runId != r.runId
    ensures forall x :: x in shown ==> FileName(x) != FileName(r)
  {
    forall x | x in shown
      ensures FileName(x) != FileName(r)
    {
      SuffixApart(x.runId, r.runId);
    }
  }

  lemma SuffixApart(a: string, b: string)
    requires a != b
    ensures a + ".json" != b + ".json"
  {
    assert (a + ".json")[..|a|] == a;
    if |a| == |b| {
      assert (b + ".json")[..|a|] == b;
    }
  }

  lemma Removed(files: Files, all: seq<Record>, k: nat)
    requires Represents(files, all) && k < |all|
    ensures Represents(files - {FileName(all[k])}, Drop(all, k))
  {
    DropRanks(all, k);
    DropElements(all, k);
    NamesDiffer(Drop(all, k), all[k]);
    ViewRemoved(files, FileName(all[k]));
    ListsDropped(View(files), all, k, Drop(all, k));
  }

  lemma ListsDropped(view: map<string, Record>, all: seq<Record>, k: nat, left: seq<Record>)
    requires Lists(view, all) && k < |all|
    requires forall x :: x in all <==> x == all[k] || x in left
    requires forall x :: x in left ==> FileName(x) != FileName(all[k])
    ensures Lists(view - {FileName(all[k])}, left)
  {
    assert all[k] in all;
  }

  function Drop(all: seq<Record>, k: nat): seq<Record>
    requires k < |all|
  {
    all[..k] + all[k + 1..]
  }

  lemma DropAt(all: seq<Record>, k: nat, i: nat)
    requires k < |all| && i < |all| - 1
    ensures Drop(all, k)[i] == all[if i < k then i else i + 1]
  {
  }

  lemma DropRanks(all: seq<Record>, k: nat)
    requires Ranked(all) && k < |all|
    ensures Ranked(Drop(all, k))
  {
    forall i, j | 0 <= i < j < |all| - 1
      ensures Newest()(Drop(all, k)[i], Drop(all, k)[j]) && Drop(all, k)[i].runId != Drop(all, k)[j].runId
    {
      DropAt(all, k, i);
      DropAt(all, k, j);
    }
  }

  lemma DropElements(all: seq<Record>, k: nat)
    requires DistinctIds(all) && k < |all|
    ensures forall i :: 0 <= i < |all| - 1 ==> Drop(all, k)[i].runId != all[k].runId
    ensures forall x :: x in all <==> x == all[k] || x in Drop(all, k)
  {
    forall i | 0 <= i < |all| - 1
      ensures Drop(all, k)[i].runId != all[k].runId
    {
      DropAt(all, k, i);
    }
    assert all == all[..k] + [all[k]] + all[k + 1..];
  }

  function Pruned(records: seq<Record>, k: nat, i: nat): seq<Record>
    requires k <= i <= |records|
  {
    records[..k] + records[i..]
  }

  lemma PrunedTop(records: seq<Record>, k: nat, i: nat)
    requires k <= i <= |records|
    ensures Take(Pruned(records, k, i), k) == Take(records, k) && Pruned(records, k, k) == records
    ensures forall x :: x in Pruned(records, k, i) ==> x in records
  {
  }

  lemma PrunedOneMore(records: seq<Record>, k: nat, i: nat)
    requires k <= i < |records|
    ensures |Pruned(records, k, i)| > k && Pruned(records, k, i)[k] == records[i]
    ensures Drop(Pruned(records, k, i), k) == Pruned(records, k, i + 1)
  {
  }

  lemma RemovedOneMore(files: Files, records: seq<Record>, k: nat, i: nat)
    requires k <= i < |records| && Represents(files, Pruned(records, k, i))
    ensures Represents(files - {FileName(records[i])}, Pruned(records, k, i + 1))
  {
    PrunedOneMore(records, k, i);
    Removed(files, Pruned(records, k, i), k);
  }

  lemma ListedRemoved(files: Files, shown: seq<Record>, i: nat)
    requires Represents(files, shown) && i < |shown|
    ensures Unlisted(files - {FileName(shown[i])}) == Unlisted(files)
  {
    assert shown[i] in shown;
  }

  /** The directory without the files of the records from `k` up to `left`. */
  function Without(files: Files, records: seq<Record>, k: nat, left: nat): Files
    requires k <= left <= |records|
    decreases left
  {
    if left == k then files else Without(files, records, k, left - 1) - {FileName(records[left - 1])}
  }

  lemma {:induction false} WithoutRepresents(files: Files, records: seq<Record>, k: nat, left: nat)
    requires Represents(files, records) && k <= left <= |records|
    ensures Represents(Without(files, records, k, left), Pruned(records, k, left))
    ensures Unlisted(Without(files, records, k, left)) == Unlisted(files)
    decreases left
  {
    if left == k {
      PrunedTop(records, k, k);
    } else {
      WithoutRepresents(files, records, k, left - 1);
      PrunedOneMore(records, k, left - 1);
      ListedRemoved(Without(files, records, k, left - 1), Pruned(records, k, left - 1), k);
      RemovedOneMore(Without(files, records, k, left - 1), records, k, left - 1);
    }
  }

  /** Removes the records past the first `k`, in order, until a removal fails. */
  method RemoveBeyond(files0: Files, records: seq<Record>, k: nat, fault: AppendFault)
    returns (ok: bool, files: Files, left: nat)
    requires Represents(files0, records) && k <= |records|
    ensures k <= left <= |records| && Represents(files, Pruned(records, k, left))
    ensures (ok ==> left == |records|) && (fault.NoFault? ==> ok)
    ensures Unlisted(files) == Unlisted(files0)
  {
    ok, files, left := true, files0, k;
    while ok && left < |records|
      invariant k <= left <= |records| && files == Without(files0, records, k, left)
      invariant !ok ==> !fault.NoFault?
      decreases |records| - left, ok
    {
      if fault == CannotRemove(left - k) {
        ok := false;
      } else {
        files := files - {FileName(records[left])};
        left := left + 1;
      }
    }
    WithoutRepresents(files0, records, k, left);
  }

  lemma Logged(log: seq<Record>, shown: seq<Record>, r: Record, k: nat)
    requires DistinctIds(log) && forall i :: 0 <= i < |log| ==> log[i].runId != r.runId
    requires forall x :: x in shown ==> x in log
    requires Take(shown, k) == Take(RankedLog(log), k)
    ensures DistinctIds(log + [r])
    ensures forall i :: 0 <= i < |shown| ==> shown[i].runId != r.runId
    ensures var now := if ListedName(FileName(r)) then Insert(r, shown) else shown;
            (forall x :: x in now ==> x in log + [r]) && Take(now, k) == Take(RankedLog(log + [r]), k)
  {
    SameTop(r, shown, RankedLog(log), k);
    assert (log + [r])[..|log|] == log;
    InsertElements(r, shown);
    forall i | 0 <= i < |shown|
      ensures shown[i].runId != r.runId
    {
      assert shown[i] in shown;
    }
  }

  ghost predicate Refines(files: Files, shown: seq<Record>, log: seq<Record>, k: nat) {
    && DistinctIds(log) && Represents(files, shown)
    && (forall r :: r in shown ==> r in log)
    && Take(shown, k) == Take(RankedLog(log), k)
  }

  lemma PrunedRefines(files: Files, shown: seq<Record>, log: seq<Record>, k: nat, after: Files, left: nat)
    requires Refines(files, shown, log, k) && k <= left <= |shown| && Represents(after, Pruned(shown, k, left))
    ensures Refines(after, Pruned(shown, k, left), log, k)
    ensures Take(Pruned(shown, k, left), k) == Take(shown, k) && (left == |shown| ==> |Pruned(shown, k, left)| == k)
  {
    PrunedTop(shown, k, left);
  }

  class History {
    const maxEntries: nat
    var files: Files
    ghost var log: seq<Record>
    ghost var shown: seq<Record>

    /** The newest `maxEntries` shown are those of the log of all appended records, which is never pruned. */
    ghost predicate Valid()
      reads this
    {
      Refines(files, shown, log, maxEntries)
    }

    constructor (maxEntries: nat)
      ensures Valid() && this.maxEntries == maxEntries && log == [] && shown == []
    {
      this.maxEntries := maxEntries;
      files, log, shown := map[], [], [];
    }

    /** `List`: what the directory shows of a job, or of all jobs, newest first. */
    method List(job: string) returns (result: seq<Record>)
      requires Represents(files, shown)
      ensures Descending(result) && forall r :: r in result <==> r in shown && (job == "" || r.job == job)
      ensures job == "" ==> result == shown
      ensures Valid() && job == "" && |shown| <= maxEntries ==> result == Take(RankedLog(log), maxEntries)
    {
      OfJobRanks(shown, job);
      var collected := Collect(files, job, shown);
      NewestOrders();
      result := SortBy(collected, Newest());
      SameElements(collected, result);
      SortedIds(collected, result);
      SameListing(OfJob(shown, job), result);
      RankedDescends(result);
    }

    /** `Append`: writes the run's file and prunes; on success at most `maxEntries` runs are shown. */
    method Append(r: Record, fault: AppendFault) returns (ok: bool)
      requires Valid() && forall i :: 0 <= i < |log| ==> log[i].runId != r.runId
      modifies this
      ensures Valid()
      ensures ok ==> log == old(log) + [r] && |shown| <= maxEntries
      ensures !ValidRecord(r) || fault.CannotWrite? ==>
                !ok && files == old(files) && log == old(log) && shown == old(shown)
      ensures ValidRecord(r) && !fault.CannotWrite? ==> log == old(log) + [r]
      ensures ValidRecord(r) && fault.NoFault? ==> ok
      ensures ValidRecord(r) && !fault.CannotWrite? ==>
                Unlisted(files) == Unlisted(old(files)[FileName(r) := Encoded(r)])
    {
      var valid := IsValidRecord(r);
      if !valid || fault.CannotWrite? {
        return false;
      }
      Logged(log, shown, r, maxEntries);
      Written(files, shown, r);
      files := files[FileName(r) := Encoded(r)];
      log := log + [r];
      shown := if ListedName(FileName(r)) then Insert(r, shown) else shown;
      ok := Prune(fault);
    }

    /** `pruneLocked`: removes the records past the newest `maxEntries`, in order, until a removal fails. */
    method Prune(fault: AppendFault) returns (ok: bool)
      requires Valid()
      modifies `files, `shown
      ensures Valid() && (ok ==> |shown| <= maxEntries) && (fault.NoFault? ==> ok)
      ensures Take(shown, maxEntries) == Take(old(shown), maxEntries)
      ensures Unlisted(files) == Unlisted(old(files))
    {
      var records := List("");
      if |records| <= maxEntries {
        return true;
      }
      var left;
      ok, files, left := RemoveBeyond(files, records, maxEntries, fault);
      PrunedRefines(old(files), records, log, maxEntries, files, left);
      shown := Pruned(records, maxEntries, left);
    }
  }

  /** A record's file is looked at exactly when its run identifier starts with `run-`. */
  lemma ListedByPrefix(r: Record)
    ensures ListedName(FileName(r)) <==> Paths.HasPrefix(r.runId, "run-")
  {
    var name := FileName(r);
    assert name[|r.runId|..] == ".json" && name[..|r.runId|] == r.runId;
    if |r.runId| < 4 {
      assert name[|r.runId|] == '.' && '.' !in "run-";
    }
  }

  /** A record without that prefix is in no listing of a directory, though it is one that `Append` writes. */
  lemma UnprefixedIsNeverListed(files: Files, shown: seq<Record>, r: Record)
    requires Represents(files, shown) && !Paths.HasPrefix(r.runId, "run-")
    ensures r !in shown
  {
    ListedByPrefix(r);
  }

  /** Yet its file is there after every append and prune, which leave it alone. */
  lemma UnprefixedStays(before: Files, after: Files, r: Record)
    requires !Paths.HasPrefix(r.runId, "run-")
    requires Unlisted(after) == Unlisted(before[FileName(r) := Encoded(r)])
    ensures FileName(r) in after && after[FileName(r)] == Encoded(r)
  {
    ListedByPrefix(r);
    assert FileName(r) in Unlisted(after);
  }

  /** There are such records. */
  lemma UnprefixedRecord(fingerprint: string) returns (r: Record)
    requires |fingerprint| == 64
    ensures ValidRecord(r) && !Paths.HasPrefix(r.runId, "run-")
  {
    r := Record(1, "nightly", "nightly", fingerprint, "backup", "host", Manual, false, 1, 2, Success, "", "");
    assert r.runId[0] == 'n';
  }

  lemma ListedOnce(view: map<string, Record>, shown: seq<Record>, name: string)
    requires Lists(view, shown) && name in view
    ensures view[name] in shown && FileName(view[name]) == name
    ensures forall x :: x in shown && FileName(x) == name ==> x == view[name]
  {
  }

  /** The loop over the directory: entries under other names, undecodable or invalid ones are passed over. */
  method Collect(files: Files, job: string, ghost shown: seq<Record>) returns (result: seq<Record>)
    requires Represents(files, shown)
    ensures DistinctIds(result)
    ensures forall r :: r in result <==> r in shown && (job == "" || r.job == job)
  {
    result := [];
    var todo := files.Keys;
    while todo != {}
      invariant todo <= files.Keys
      invariant DistinctIds(result)
      invariant forall r :: r in result <==> r in shown && FileName(r) !in todo && (job == "" || r.job == job)
      decreases todo
    {
      var name :| name in todo;
      var found := ReadEntry(files, name);
      todo := todo - {name};
      EntryShown(files, shown, name, found);
      if found.Some? && (job == "" || found.value.job == job) {
        assert forall i :: 0 <= i < |result| ==> result[i] in result && FileName(result[i]) != name;
        result := result + [found.value];
      }
    }
  }

  /** The record of one directory entry, if there is one to show. */
  method ReadEntry(files: Files, name: string) returns (found: Option<Record>)
    requires name in files
    ensures found == if Shows(files, name) then Some(files[name].record) else None
  {
    if !Paths.HasPrefix(name, "run-") || |name| < 5 || name[|name| - 5..] != ".json" || files[name].Junk? {
      return None;
    }
    var record := files[name].record;
    var valid := IsValidRecord(record);
    if !valid || record.runId + ".json" != name {
      return None;
    }
    return Some(record);
  }

  lemma EntryShown(files: Files, shown: seq<Record>, name: string, found: Option<Record>)
    requires Represents(files, shown) && name in files
    requires found == if Shows(files, name) then Some(files[name].record) else None
    ensures forall r :: r in shown && FileName(r) == name <==> found == Some(r)
  {
    if found.Some? {
      ListedOnce(View(files), shown, name);
    }
  }

  lemma SortedIds(collected: seq<Record>, result: seq<Record>)
    requires DistinctIds(collected) && multiset(result) == multiset(collected)
    ensures DistinctIds(result)
  {
    var key := (r: Record) => r.runId;
    Keyed.DistinctKeysRearranged(collected, result, key);
    assert forall i, j :: 0 <= i < j < |result| ==> key(result[i]) != key(result[j]);
  }
}
