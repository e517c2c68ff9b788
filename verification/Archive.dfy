/** `internal/backup/repository.go`, archive part: a tar stream is rewritten entry by entry into a safe one. */
module Archive {
  import opened Text
  import opened Paths

  datatype Kind = Regular | Directory | Symlink | Unsupported

  /** `extra` stands for PAX records and extended attributes, `device` for the two device numbers. */
  datatype Entry = Entry(name: string, kind: Kind, link: string, mode: int, device: (int, int), extra: string,
                         content: string)

  /** What the reader yields: entries, then the end of the archive or a read error. */
  datatype Stream = Stream(entries: seq<Entry>, wellEnded: bool)

  const MAX_ENTRIES := 1_000_000

  predicate Printable(value: string) {
    value != "" && '\0' !in value && '\\' !in value && !IsAbs(value)
  }

  /** `safeTarName`: the cleaned name, unless it is malformed or leaves the root. */
  function SafeTarName(value: string): Option<string> {
    if !Printable(value) || PointsUp(Clean(value)) then None else Some(Clean(value))
  }

  /** Names are refused exactly when malformed or when some prefix of them leads above the root. */
  lemma SafeNames(value: string)
    ensures SafeTarName(value).Some? <==>
            Printable(value) && forall k :: 0 <= k <= |Split(value)| ==> Depth(Split(value)[..k]) >= 0
    ensures SafeTarName(value).Some? ==>
      var name := SafeTarName(value).value;
      ".." !in Split(name) && !IsAbs(name) && NeverAbove(Split(name)) && SafeTarName(name) == Some(name)
  {
    if Printable(value) {
      PointsUpMeansAbove(value);
      CleanRelative(value);
      CleanPrintable(value);
      CleanIdempotent(value);
      PointsUpMeansAbove(Clean(value));
    }
  }

  /** `safeTarLink`: the target, seen from the entry's directory, stays inside. */
  predicate SafeTarLink(name: string, link: string) {
    Printable(link) && !PointsUp(Clean(JoinPath(Dir(name), link)))
  }

  /** `safeTarHeader`: what is kept of an entry, if its kind and link are acceptable. */
  function SafeTarHeader(entry: Entry, name: string): (r: Option<Entry>) {
    var clean := entry.(name := name, extra := "", mode := entry.mode % 0x200, device := (0, 0));
    match entry.kind
    case Regular => Some(clean.(link := ""))
    case Directory => Some(clean.(link := "", content := ""))
    case Symlink => if SafeTarLink(name, entry.link) then Some(clean.(content := "")) else None
    case Unsupported => None
  }

  /**
   * What the rewritten entry keeps: its kind, the whole content of a file, the target of a link, and the permission
   * bits, under the cleaned name; nothing else comes through.
   */
  ghost predicate Keeps(entry: Entry, out: Entry) {
    && out.name == Clean(entry.name) && out.kind == entry.kind && !entry.kind.Unsupported?
    && out.content == (if entry.kind.Regular? then entry.content else "")
    && out.link == (if entry.kind.Symlink? then entry.link else "")
    && out.mode == entry.mode % 512 && out.extra == "" && out.device == (0, 0)
  }

  /** The first entries of a stream come out in order, each keeping what it should. */
  ghost predicate KeepsEach(entries: seq<Entry>, output: seq<Entry>) {
    |output| <= |entries| && forall i :: 0 <= i < |output| ==> Keeps(entries[i], output[i])
  }

  lemma CleanedKeeps(entries: seq<Entry>, output: seq<Entry>)
    requires |output| <= |entries| && CleanedAs(entries[..|output|], output)
    ensures KeepsEach(entries, output)
  {
    forall i | 0 <= i < |output|
      ensures Keeps(entries[i], output[i])
    {
      assert entries[..|output|][i] == entries[i];
    }
  }

  /** The sanitized form of one entry. */
  function Sanitize(entry: Entry): Option<Entry> {
    match SafeTarName(entry.name)
    case None => None
    case Some(name) => SafeTarHeader(entry, name)
  }

  ghost predicate DistinctNames(entries: seq<Entry>) {
    forall i, j :: 0 <= i < j < |entries| ==> SafeTarName(entries[i].name) != SafeTarName(entries[j].name)
  }

  /** The streams `rewriteArchive` accepts, when it is not cancelled. */
  ghost predicate Accepts(input: Stream) {
    && input.wellEnded && |input.entries| <= MAX_ENTRIES
    && (forall i :: 0 <= i < |input.entries| ==> Sanitize(input.entries[i]).Some?)
    && DistinctNames(input.entries)
  }

  ghost function Sanitized(entries: seq<Entry>): seq<Entry>
    requires forall i :: 0 <= i < |entries| ==> Sanitize(entries[i]).Some?
  {
    seq(|entries|, i requires 0 <= i < |entries| => Sanitize(entries[i]).value)
  }

  /** The first entries, cleaned, all under different names. */
  ghost predicate CleanedAs(entries: seq<Entry>, output: seq<Entry>) {
    && |entries| == |output|
    && (forall i :: 0 <= i < |output| ==> Sanitize(entries[i]) == Some(output[i]))
    && forall i, j :: 0 <= i < j < |output| ==> output[i].name != output[j].name
  }

  lemma SanitizedName(entry: Entry)
    requires Sanitize(entry).Some?
    ensures SafeTarName(entry.name) == Some(Sanitize(entry).value.name)
  {
  }

  lemma CleanedIsSanitized(entries: seq<Entry>, output: seq<Entry>)
    requires CleanedAs(entries, output)
    ensures (forall i :: 0 <= i < |entries| ==> Sanitize(entries[i]).Some?) && output == Sanitized(entries)
    ensures DistinctNames(entries)
  {
    forall i | 0 <= i < |entries|
      ensures SafeTarName(entries[i].name) == Some(output[i].name)
    {
      SanitizedName(entries[i]);
    }
  }

  ghost function Names(output: seq<Entry>): set<string> {
    set e | e in output :: e.name
  }

  lemma CleanedOneMore(entries: seq<Entry>, output: seq<Entry>, header: Entry)
    requires |output| < |entries| && CleanedAs(entries[..|output|], output)
    requires Sanitize(entries[|output|]) == Some(header) && header.name !in Names(output)
    ensures CleanedAs(entries[..|output| + 1], output + [header])
    ensures Names(output + [header]) == Names(output) + {header.name}
  {
    TakeOneMore(entries, |output|);
    assert forall i :: 0 <= i < |output| ==> output[i] in output;
    assert forall e :: e in output + [header] <==> e in output || e == header;
  }

  ghost predicate Refused(entry: Entry, seen: set<string>) {
    Sanitize(entry).None? || Sanitize(entry).value.name in seen
  }

  /** An entry that is unacceptable, or whose name was written before, makes the whole stream unacceptable. */
  lemma RefusedEntry(input: Stream, output: seq<Entry>)
    requires |output| < |input.entries| && CleanedAs(input.entries[..|output|], output)
    requires Refused(input.entries[|output|], Names(output))
    ensures !Accepts(input)
  {
    var entry := input.entries[|output|];
    if Sanitize(entry).Some? {
      SanitizedName(entry);
      var i :| 0 <= i < |output| && output[i].name == Sanitize(entry).value.name;
      SanitizedName(input.entries[i]);
    }
  }

  lemma AllCleaned(input: Stream, output: seq<Entry>)
    requires CleanedAs(input.entries, output)
    ensures Accepts(input) <==> input.wellEnded && |input.entries| <= MAX_ENTRIES
    ensures Accepts(input) ==> output == Sanitized(input.entries)
  {
    CleanedIsSanitized(input.entries, output);
  }

  /** One turn of the loop: the header to write, unless the entry is refused or its name was seen. */
  method RewriteEntry(entry: Entry, seen: set<string>) returns (header: Option<Entry>)
    ensures header.None? <==> Refused(entry, seen)
    ensures header.Some? ==> header == Sanitize(entry)
  {
    var name := SafeTarName(entry.name);
    if name.None? || name.value in seen {
      return None;
    }
    header := SafeTarHeader(entry, name.value);
  }

  /** Why the loop ended: at the end of the entries, at iteration `k`'s context or writer, or at its entry. */
  datatype Stop = Exhausted | Interrupted(k: nat) | TooMany | BadEntry

  /** The loop. What was written is always a sanitized beginning of the input. */
  method RewriteEntries(input: Stream, alive: nat -> bool, writes: nat -> bool) returns (stop: Stop, output: seq<Entry>)
    ensures |output| <= |input.entries| && CleanedAs(input.entries[..|output|], output)
    ensures match stop
      case Exhausted =>
        |output| == |input.entries| && forall k: nat :: k < |input.entries| ==> alive(k) && writes(k)
      case Interrupted(k) => k < |input.entries| && !(alive(k) && writes(k))
      case TooMany => |input.entries| > MAX_ENTRIES
      case BadEntry => |output| < |input.entries| && Refused(input.entries[|output|], Names(output))
  {
    output := [];
    var seen: set<string> := {};
    for entries := 0 to |input.entries|
      invariant |output| == entries && CleanedAs(input.entries[..entries], output)
      invariant forall k: nat :: k < entries ==> alive(k) && writes(k)
      invariant seen == Names(output)
    {
      if !alive(entries) {
        return Interrupted(entries), output;
      }
      if entries > MAX_ENTRIES {
        return TooMany, output;
      }
      var header := RewriteEntry(input.entries[entries], seen);
      if header.None? {
        return BadEntry, output;
      }
      if !writes(entries) {
        return Interrupted(entries), output;
      }
      CleanedOneMore(input.entries, output, header.value);
      seen := seen + {header.value.name};
      output := output + [header.value];
    }
    stop := Exhausted;
  }

  /**
   * `alive(k)` says whether the context is still alive when iteration `k` starts, `writes(k)` whether entry `k`, or the
   * end of the output, can be written.
   */
  method RewriteArchive(input: Stream, alive: nat -> bool, writes: nat -> bool) returns (ok: bool, output: seq<Entry>)
    ensures ok <==> Accepts(input) && forall k: nat :: k <= |input.entries| ==> alive(k) && writes(k)
    ensures ok ==> output == Sanitized(input.entries)
    ensures |output| <= |input.entries| && CleanedAs(input.entries[..|output|], output)
    ensures KeepsEach(input.entries, output) && (ok ==> |output| == |input.entries|)
  {
    var n, stop := |input.entries|, Exhausted;
    stop, output := RewriteEntries(input, alive, writes);
    if stop.BadEntry? {
      RefusedEntry(input, output);
    } else if stop.Exhausted? {
      assert input.entries[..n] == input.entries;
      AllCleaned(input, output);
    }
    CleanedKeeps(input.entries, output);
    ok := stop.Exhausted? && alive(n) && n <= MAX_ENTRIES && input.wellEnded && writes(n);
  }

  // ---- what acceptance guarantees

  lemma {:induction false} JoinChars(parts: seq<string>, c: char)
    requires c != '/' && forall i :: 0 <= i < |parts| ==> c !in parts[i]
    ensures c !in Join(parts)
  {
    if |parts| > 1 {
      JoinChars(parts[1..], c);
    }
  }

  lemma {:induction false} SplitChars(s: string, c: char)
    requires c !in s
    ensures forall i :: 0 <= i < |Split(s)| ==> c !in Split(s)[i]
  {
    if s != "" {
      SplitChars(s[1..], c);
    }
  }

  lemma {:induction false} ResolveChars(parts: seq<string>, rooted: bool, c: char)
    requires c != '.' && forall i :: 0 <= i < |parts| ==> c !in parts[i]
    ensures forall i :: 0 <= i < |Resolve(parts, rooted)| ==> c !in Resolve(parts, rooted)[i]
  {
    if parts != [] {
      ResolveChars(parts[..|parts| - 1], rooted, c);
    }
  }

  lemma CleanPrintable(value: string)
    requires Printable(value)
    ensures Printable(Clean(value))
  {
    CleanRelative(value);
    CleanChars(value, '\0');
    CleanChars(value, '\\');
  }

  lemma CleanChars(value: string, c: char)
    requires !IsAbs(value) && c !in value && c != '/' && c != '.'
    ensures c !in Clean(value)
  {
    SplitChars(value, c);
    ResolveChars(Split(value), false, c);
    JoinChars(Resolve(Split(value), false), c);
  }

  /** The components of the directory an entry is in. */
  ghost function Folder(name: string): seq<string> {
    var parts := Split(name);
    parts[..|parts| - 1]
  }

  /** A symlink is accepted exactly when walking its target from the entry's directory never leaves the root. */
  lemma LinkStaysInside(name: string, link: string)
    requires !IsAbs(name) && Printable(link)
    ensures SafeTarLink(name, link) <==>
            forall k :: 0 <= k <= |Folder(name) + Split(link)| ==> Depth((Folder(name) + Split(link))[..k]) >= 0
  {
    LinkParts(name, link);
    SplitSlashless(Dir(name));
    SplitSlashless(link);
    SplitSlashless(name);
    ResolveResolved(Split(Dir(name)), Split(link), false);
    ResolveResolved(Folder(name), Split(link), false);
    ParentsMeanAbove(Folder(name) + Split(link));
  }

  lemma LinkParts(name: string, link: string)
    requires !IsAbs(name) && Printable(link)
    ensures PointsUp(Clean(JoinPath(Dir(name), link))) <==> ".." in Resolve(Split(Dir(name)) + Split(link), false)
    ensures Resolve(Split(Dir(name)), false) == Resolve(Folder(name), false)
  {
    var joined := Dir(name) + "/" + link;
    DirRelative(name);
    SplitAtSlash(Dir(name), link);
    assert joined[0] == Dir(name)[0];
    CleanIdempotent(joined);
    CleanRelative(joined);
  }

  lemma DirRelative(name: string)
    requires !IsAbs(name)
    ensures Dir(name) != "" && !IsAbs(Dir(name))
    ensures Resolve(Split(Dir(name)), false) == Resolve(Folder(name), false)
  {
    var parts := Split(name);
    SplitSlashless(name);
    if |parts| == 1 {
      CleanRelative("");
      assert Resolve([""], false) == [];
    } else {
      var folder := Folder(name);
      JoinOfSplit(name);
      assert parts[0] != "" by {
        assert Join(parts) == parts[0] + "/" + Join(parts[1..]);
      }
      JoinStart(folder);
      var x := Join(folder) + "/";
      assert x[0] == Join(folder)[0];
      SplitOfJoin(folder);
      SplitAtSlash(Join(folder), "");
      assert x == Join(folder) + "/" + "";
      assert Split(x) == folder + [""];
      assert (folder + [""])[..|folder|] == folder;
      CleanRelative(x);
    }
  }

  /** Sanitizing an entry twice is sanitizing it once. */
  lemma SanitizeIdempotent(entry: Entry)
    requires Sanitize(entry).Some?
    ensures Sanitize(Sanitize(entry).value) == Sanitize(entry)
  {
    SafeNames(entry.name);
  }

  /** What leaves `rewriteArchive` is under a name inside the root, and so is whatever a symlink points to. */
  ghost predicate Inside(out: Entry) {
    && Printable(out.name) && ".." !in Split(out.name) && NeverAbove(Split(out.name))
    && !out.kind.Unsupported?
    && (out.kind.Symlink? ==> Printable(out.link) && NeverAbove(Folder(out.name) + Split(out.link)))
  }

  lemma SanitizedInside(entry: Entry)
    requires Sanitize(entry).Some?
    ensures Inside(Sanitize(entry).value)
  {
    SafeNames(entry.name);
    var out := Sanitize(entry).value;
    if out.kind.Symlink? {
      LinkStaysInside(out.name, out.link);
    }
  }

  /** Every output entry stays inside the root, under its own name, whatever the input was. */
  lemma OutputStaysInside(input: Stream)
    requires Accepts(input)
    ensures forall i :: 0 <= i < |input.entries| ==> Inside(Sanitized(input.entries)[i])
    ensures forall i, j :: 0 <= i < j < |input.entries| ==>
      Sanitized(input.entries)[i].name != Sanitized(input.entries)[j].name
  {
    forall i | 0 <= i < |input.entries|
      ensures Inside(Sanitized(input.entries)[i])
      ensures SafeTarName(input.entries[i].name) == Some(Sanitized(input.entries)[i].name)
    {
      SanitizedInside(input.entries[i]);
      SanitizedName(input.entries[i]);
    }
  }

  /** Rewriting is idempotent, and what it writes `validateArchive` accepts. */
  lemma RewriteIsIdempotent(input: Stream)
    requires Accepts(input)
    ensures Accepts(Stream(Sanitized(input.entries), true))
    ensures Sanitized(Sanitized(input.entries)) == Sanitized(input.entries)
  {
    var out := Sanitized(input.entries);
    OutputStaysInside(input);
    forall i | 0 <= i < |out|
      ensures Sanitize(out[i]) == Some(out[i])
    {
      SanitizeIdempotent(input.entries[i]);
    }
    CleanedIsSanitized(out, out);
  }
}
