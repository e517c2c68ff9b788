/**
 * Slash-separated paths and the lexical cleaning of Go's `path` package, by components. A path is split at its slashes,
 * resolved by pushing names and popping them at parents, and joined again; a path is followed step by step to say how
 * deep below its start it has come, which is what the archive checks are about.
 */
module Paths {

  function Split(s: string): (parts: seq<string>)
    ensures parts != []
  {
    if s == "" then [""]
    else
      var rest := Split(s[1..]);
      if s[0] == '/' then [""] + rest else [[s[0]] + rest[0]] + rest[1..]
  }

  function Join(parts: seq<string>): string {
    if parts == [] then "" else if |parts| == 1 then parts[0] else parts[0] + "/" + Join(parts[1..])
  }

  predicate IsAbs(s: string) {
    s != "" && s[0] == '/'
  }

  predicate HasPrefix(s: string, prefix: string) {
    prefix <= s
  }

  /** One component met while resolving; `rooted` paths have nothing above their start. */
  function Push(stack: seq<string>, c: string, rooted: bool): seq<string> {
    if c == "" || c == "." then stack
    else if c == ".." then
      if stack != [] && stack[|stack| - 1] != ".." then stack[..|stack| - 1]
      else if rooted then stack
      else stack + [".."]
    else stack + [c]
  }

  function Resolve(parts: seq<string>, rooted: bool): seq<string> {
    if parts == [] then [] else Push(Resolve(parts[..|parts| - 1], rooted), parts[|parts| - 1], rooted)
  }

  /** `path.Clean`. */
  function Clean(s: string): string {
    var rooted := IsAbs(s);
    var stack := Resolve(Split(s), rooted);
    if rooted then "/" + Join(stack) else if stack == [] then "." else Join(stack)
  }

  /** `path.Dir`: what precedes the last slash, cleaned. */
  function Dir(s: string): string {
    var parts := Split(s);
    if |parts| == 1 then Clean("") else Clean(Join(parts[..|parts| - 1]) + "/")
  }

  /** `path.Join` of two elements. */
  function JoinPath(a: string, b: string): string {
    if a == "" && b == "" then "" else if a == "" then Clean(b) else if b == "" then Clean(a) else Clean(a + "/" + b)
  }

  /** The path names the parent of its start, or something below that parent. */
  predicate PointsUp(clean: string) {
    clean == ".." || HasPrefix(clean, "../")
  }

  // ---- where a path leads, step by step

  function Move(c: string): int {
    if c == "" || c == "." then 0 else if c == ".." then -1 else 1
  }

  /** How deep below its start the path has come; negative once it is above. */
  ghost function Depth(parts: seq<string>): int {
    if parts == [] then 0 else Depth(parts[..|parts| - 1]) + Move(parts[|parts| - 1])
  }

  /** No prefix of the path leads above its start. */
  ghost predicate NeverAbove(parts: seq<string>) {
    forall k :: 0 <= k <= |parts| ==> Depth(parts[..k]) >= 0
  }

  lemma NeverAboveStep(parts: seq<string>)
    requires parts != []
    ensures NeverAbove(parts) <==> NeverAbove(parts[..|parts| - 1]) && Depth(parts) >= 0
  {
    var n := |parts| - 1;
    forall k | 0 <= k <= n
      ensures parts[..n][..k] == parts[..k]
    {
    }
    assert parts[..n + 1] == parts;
    if NeverAbove(parts[..n]) && Depth(parts) >= 0 {
      forall k | 0 <= k <= n + 1
        ensures Depth(parts[..k]) >= 0
      {
        assert k <= n ==> parts[..n][..k] == parts[..k];
      }
    }
    if NeverAbove(parts) {
      forall k | 0 <= k <= n
        ensures Depth(parts[..n][..k]) >= 0
      {
        assert Depth(parts[..k]) >= 0;
      }
    }
  }

  // ---- splitting and joining

  ghost predicate Slashless(parts: seq<string>) {
    forall i :: 0 <= i < |parts| ==> '/' !in parts[i]
  }

  lemma {:induction false} SplitSlashless(s: string)
    ensures Slashless(Split(s))
  {
    if s != "" {
      SplitSlashless(s[1..]);
    }
  }

  lemma {:induction false} JoinOfSplit(s: string)
    ensures Join(Split(s)) == s
  {
    if s != "" {
      JoinOfSplit(s[1..]);
      assert s == [s[0]] + s[1..];
    }
  }

  lemma {:induction false} SplitName(name: string)
    requires '/' !in name
    ensures Split(name) == [name]
  {
    if name != "" {
      SplitName(name[1..]);
      assert name == [name[0]] + name[1..];
    }
  }

  lemma {:induction false} SplitAtSlash(a: string, b: string)
    ensures Split(a + "/" + b) == Split(a) + Split(b)
  {
    var s := a + "/" + b;
    if a == "" {
      assert s[0] == '/' && s[1..] == b;
    } else {
      SplitAtSlash(a[1..], b);
      assert s[0] == a[0] && s[1..] == a[1..] + "/" + b;
    }
  }

  lemma {:induction false} SplitOfJoin(parts: seq<string>)
    requires parts != [] && Slashless(parts)
    ensures Split(Join(parts)) == parts
  {
    SplitName(parts[0]);
    if |parts| == 1 {
      assert parts == [parts[0]];
    } else {
      SplitOfJoin(parts[1..]);
      SplitAtSlash(parts[0], Join(parts[1..]));
      assert parts == [parts[0]] + parts[1..];
    }
  }

  // ---- resolved components

  predicate Name(c: string) {
    c != "" && c != "." && c != ".." && '/' !in c
  }

  /** Leading parents, then proper names. */
  ghost predicate Normal(stack: seq<string>) {
    forall i :: 0 <= i < |stack| ==>
      Name(stack[i]) || (stack[i] == ".." && forall j :: 0 <= j < i ==> stack[j] == "..")
  }

  lemma {:induction false} ResolveNormal(parts: seq<string>, rooted: bool)
    requires Slashless(parts)
    ensures Normal(Resolve(parts, rooted))
    ensures rooted ==> ".." !in Resolve(parts, rooted)
  {
    if parts != [] {
      ResolveNormal(parts[..|parts| - 1], rooted);
    }
  }

  lemma {:induction false} ResolveOfNormal(stack: seq<string>, rooted: bool)
    requires Normal(stack) && (rooted ==> ".." !in stack)
    ensures Resolve(stack, rooted) == stack
  {
    if stack != [] {
      ResolveOfNormal(stack[..|stack| - 1], rooted);
      assert stack == stack[..|stack| - 1] + [stack[|stack| - 1]];
    }
  }

  /** Resolving in two goes is resolving in one. */
  lemma {:induction false} ResolveResolved(a: seq<string>, b: seq<string>, rooted: bool)
    requires Slashless(a)
    ensures Resolve(Resolve(a, rooted) + b, rooted) == Resolve(a + b, rooted)
  {
    if b == [] {
      ResolveNormal(a, rooted);
      ResolveOfNormal(Resolve(a, rooted), rooted);
      assert Resolve(a, rooted) + b == Resolve(a, rooted) && a + b == a;
    } else {
      var n := |b| - 1;
      ResolveResolved(a, b[..n], rooted);
      assert (a + b)[..|a + b| - 1] == a + b[..n];
      assert (Resolve(a, rooted) + b)[..|Resolve(a, rooted) + b| - 1] == Resolve(a, rooted) + b[..n];
    }
  }

  /** A relative path keeps a leading parent exactly when some prefix of it leads above its start. */
  lemma {:induction false} ParentsMeanAbove(parts: seq<string>)
    requires Slashless(parts)
    ensures ".." in Resolve(parts, false) <==> !NeverAbove(parts)
    ensures NeverAbove(parts) ==> |Resolve(parts, false)| == Depth(parts)
  {
    if parts != [] {
      var n := |parts| - 1;
      ParentsMeanAbove(parts[..n]);
      ResolveNormal(parts[..n], false);
      NeverAboveStep(parts);
    }
  }

  // ---- cleaning

  lemma {:induction false} JoinStart(parts: seq<string>)
    requires parts != [] && parts[0] != "" && Slashless(parts)
    ensures Join(parts) != "" && !IsAbs(Join(parts))
    ensures PointsUp(Join(parts)) <==> parts[0] == ".."
  {
    var first := parts[0];
    assert forall i :: 0 <= i < |first| ==> first[i] in first && first[i] != '/';
    assert "../"[2] == '/';
    if |parts| > 1 {
      var joined := Join(parts);
      assert joined == first + "/" + Join(parts[1..]);
      assert joined[..|first|] == first && joined[|first|] == '/';
      if PointsUp(joined) {
        FirstSlash(joined, first, "..");
      } else {
        assert first == ".." ==> "../" <= joined;
      }
    }
  }

  /** The first component of a path is what precedes its first slash. */
  lemma FirstSlash(s: string, a: string, b: string)
    requires '/' !in a && '/' !in b && a + "/" <= s
    requires s == b || b + "/" <= s
    ensures a == b
  {
    assert s[..|a|] == a && s[|a|] == '/';
    assert forall i :: 0 <= i < |a| ==> a[i] != '/' && s[i] == a[i];
    assert forall i :: 0 <= i < |b| ==> b[i] != '/' && s[i] == b[i];
    assert |b| < |s| ==> s[..|b|] == b && s[|b|] == '/';
  }

  /** Cleaning a relative path gives its resolved components back. */
  lemma CleanRelative(s: string)
    requires !IsAbs(s)
    ensures var stack := Resolve(Split(s), false);
            && Normal(stack) && Clean(s) != "" && !IsAbs(Clean(s))
            && Resolve(Split(Clean(s)), false) == stack
            && Split(Clean(s)) == (if stack == [] then ["."] else stack)
            && (PointsUp(Clean(s)) <==> ".." in stack)
  {
    SplitSlashless(s);
    var stack := Resolve(Split(s), false);
    ResolveNormal(Split(s), false);
    if stack == [] {
      SplitName(".");
      assert Clean(s) == ".";
      assert Resolve(["."], false) == [];
    } else {
      SplitOfJoin(stack);
      ResolveOfNormal(stack, false);
      JoinStart(stack);
    }
  }

  lemma CleanIdempotent(s: string)
    requires !IsAbs(s)
    ensures Clean(Clean(s)) == Clean(s)
  {
    CleanRelative(s);
  }

  /** A cleaned relative path points up exactly when the path it came from leads above its start somewhere. */
  lemma PointsUpMeansAbove(s: string)
    requires !IsAbs(s)
    ensures PointsUp(Clean(s)) <==> !NeverAbove(Split(s))
  {
    CleanRelative(s);
    SplitSlashless(s);
    ParentsMeanAbove(Split(s));
  }
}
