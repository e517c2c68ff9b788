/** `internal/recipes/recipes.go`, `internal/recipes/write.go`: recipe inputs, versions and upgrades. */
module Recipes {
  import opened Text
  import opened Decimals
  import Paths

  datatype ParameterType = StringType | IntegerType | PortType | BooleanType | EnumType | PathType | OtherType

  /** A pattern is what its regular expression accepts. */
  datatype Parameter = Parameter(
    name: string, typ: ParameterType, required: bool, default_: Option<string>, minimum: Option<int>,
    maximum: Option<int>, choices: seq<string>, pattern: Option<string -> bool>)

  datatype ParameterValue = ParameterValue(name: string, typ: ParameterType, value: string)

  datatype Input = Input(values: seq<ParameterValue>, secretFile: string)

  datatype Recipe = Recipe(id: string, version: string, parameters: seq<Parameter>, secrets: seq<string>)

  /** The part of recipe validation that resolution relies on: strictly sorted, non-empty names. */
  ghost predicate NamesSorted(parameters: seq<Parameter>) {
    && (forall i :: 0 <= i < |parameters| ==> parameters[i].name != "")
    && forall i, j :: 0 <= i < j < |parameters| ==> Less(parameters[i].name, parameters[j].name)
  }

  // ---- normal forms

  function ParseBool(s: string): Option<bool> {
    if s in ["1", "t", "T", "TRUE", "true", "True"] then Some(true)
    else if s in ["0", "f", "F", "FALSE", "false", "False"] then Some(false)
    else None
  }

  predicate InRange(p: Parameter, n: int) {
    && (p.typ.PortType? ==> 1 <= n <= 65535)
    && (p.minimum.Some? ==> n >= p.minimum.value) && (p.maximum.Some? ==> n <= p.maximum.value)
  }

  predicate CleanPath(value: string) {
    value != "" && '\\' !in value && Paths.Clean(value) == value && !Paths.PointsUp(value)
  }

  function NormalForm(p: Parameter, value: string): Option<string> {
    match p.typ
    case StringType => Some(value)
    case IntegerType => NormalInteger(p, value)
    case PortType => NormalInteger(p, value)
    case BooleanType =>
      (match ParseBool(value)
       case None => None
       case Some(b) => Some(if b then "true" else "false"))
    case EnumType => if value in p.choices then Some(value) else None
    case PathType => if CleanPath(value) then Some(value) else None
    case OtherType => None
  }

  function NormalInteger(p: Parameter, value: string): Option<string> {
    match ParseInt(value)
    case None => None
    case Some(n) => if InRange(p, n) then Some(FormatInt(n)) else None
  }

  predicate OneLine(value: string) {
    '\0' !in value && '\r' !in value && '\n' !in value
  }

  /** What `normalize` accepts, and the form it gives it. */
  function Normalize(p: Parameter, value: string): Option<string> {
    if !OneLine(value) then None
    else
      match NormalForm(p, value)
      case None => None
      case Some(v) => if p.pattern.Some? && !p.pattern.value(v) then None else Some(v)
  }

  /** `strconv.ParseBool`. */
  method ParseBoolean(s: string) returns (r: Option<bool>)
    ensures r == ParseBool(s)
  {
    if s == "1" || s == "t" || s == "T" || s == "true" || s == "TRUE" || s == "True" {
      return Some(true);
    }
    if s == "0" || s == "f" || s == "F" || s == "false" || s == "FALSE" || s == "False" {
      return Some(false);
    }
    return None;
  }

  method NormalizeNumber(p: Parameter, value: string) returns (r: Option<string>)
    ensures r == NormalInteger(p, value)
  {
    var parsed := ParseInt(value);
    if parsed.None? {
      return None;
    }
    var n := parsed.value;
    if p.typ.PortType? && (n < 1 || n > 65535) {
      return None;
    }
    if (p.minimum.Some? && n < p.minimum.value) || (p.maximum.Some? && n > p.maximum.value) {
      return None;
    }
    return Some(FormatInt(n));
  }

  method Allows(choices: seq<string>, value: string) returns (found: bool)
    ensures found <==> value in choices
  {
    for i := 0 to |choices|
      invariant value !in choices[..i]
    {
      if value == choices[i] {
        return true;
      }
      TakeOneMore(choices, i);
    }
    assert choices[..|choices|] == choices;
    return false;
  }

  /** `normalize`. */
  method NormalizeValue(p: Parameter, value: string) returns (r: Option<string>)
    ensures r == Normalize(p, value)
  {
    for i := 0 to |value|
      invariant OneLine(value[..i])
    {
      assert value[i] in value;
      if value[i] == '\0' || value[i] == '\r' || value[i] == '\n' {
        return None;
      }
      TakeOneMore(value, i);
    }
    assert value[..|value|] == value;
    r := Some(value);
    match p.typ {
      case StringType =>
      case IntegerType => r := NormalizeNumber(p, value);
      case PortType => r := NormalizeNumber(p, value);
      case BooleanType =>
        var parsed := ParseBoolean(value);
        r := if parsed.None? then None else if parsed.value then Some("true") else Some("false");
      case EnumType =>
        var found := Allows(p.choices, value);
        if !found {
          r := None;
        }
      case PathType =>
        if value == "" || '\\' in value || Paths.Clean(value) != value || Paths.HasPrefix(value, "../")
          || value == ".." {
          r := None;
        }
      case OtherType => r := None;
    }
    if r.Some? && p.pattern.Some? && !p.pattern.value(r.value) {
      r := None;
    }
  }

  /** A normalized value is its own normal form: parsing and printing settle after one round. */
  lemma NormalizeIsIdempotent(p: Parameter, value: string)
    requires Normalize(p, value).Some?
    ensures Normalize(p, Normalize(p, value).value) == Normalize(p, value)
  {
    var v := Normalize(p, value).value;
    if p.typ.IntegerType? || p.typ.PortType? {
      ParsedInRange(value);
      var n := ParseInt(value).value;
      ParseFormatted(n);
    } else if p.typ.BooleanType? {
      assert v == "true" || v == "false";
      assert ParseBool("true") == Some(true) && ParseBool("false") == Some(false);
      assert OneLine("true") && OneLine("false");
    }
  }

  // ---- resolving

  /** An assignment of the value to the name: its first equals sign ends the name. */
  predicate Splits(assignment: string, name: string, value: string) {
    assignment == name + "=" + value && '=' !in name
  }

  ghost predicate Assigned(assignments: seq<string>, name: string, value: string) {
    exists i :: 0 <= i < |assignments| && Splits(assignments[i], name, value)
  }

  /** Every assignment names something, and no two name the same. */
  ghost predicate AssignedOnce(assignments: seq<string>) {
    && (forall i :: 0 <= i < |assignments| ==> '=' in assignments[i] && assignments[i][0] != '=')
    && forall i, j, name, v, w :: 0 <= i < j < |assignments| ==>
         !(Splits(assignments[i], name, v) && Splits(assignments[j], name, w))
  }

  ghost predicate Held(existing: seq<ParameterValue>, name: string, value: string) {
    exists i :: 0 <= i < |existing| && existing[i].name == name && existing[i].value == value
  }

  ghost predicate HeldOnce(existing: seq<ParameterValue>) {
    && (forall i :: 0 <= i < |existing| ==> existing[i].name != "")
    && forall i, j :: 0 <= i < j < |existing| ==> existing[i].name != existing[j].name
  }

  /** What a parameter starts from: what is assigned now, or else what was held before, or else its default. */
  ghost predicate StartsFrom(p: Parameter, assignments: seq<string>, existing: seq<ParameterValue>, value: string) {
    if exists v :: Assigned(assignments, p.name, v) then Assigned(assignments, p.name, value)
    else if exists v :: Held(existing, p.name, v) then Held(existing, p.name, value)
    else p.default_ == Some(value)
  }

  lemma {:induction false} CutSplits(assignment: string)
    ensures Cut(assignment).Some? <==> '=' in assignment
    ensures Cut(assignment).Some? ==> Splits(assignment, Cut(assignment).value.0, Cut(assignment).value.1)
    ensures Cut(assignment).Some? ==> (Cut(assignment).value.0 == "" <==> assignment[0] == '=')
  {
    if assignment != "" && assignment[0] != '=' {
      CutSplits(assignment[1..]);
      assert assignment == [assignment[0]] + assignment[1..];
      if Cut(assignment[1..]).Some? {
        var parts := Cut(assignment[1..]).value;
        assert [assignment[0]] + (parts.0 + "=" + parts.1) == ([assignment[0]] + parts.0) + "=" + parts.1;
      }
    } else if assignment != "" {
      assert assignment == "" + "=" + assignment[1..];
    }
  }

  /** The first equals sign is where it is. */
  lemma SplitsOneWay(assignment: string, name: string, value: string, name': string, value': string)
    requires Splits(assignment, name, value) && Splits(assignment, name', value')
    ensures name == name' && value == value'
  {
    assert assignment[|name|] == '=' && assignment[|name'|] == '=';
    assert assignment[..|name|] == name && assignment[..|name'|] == name';
    NoEarlierEnd(assignment, |name|, |name'|);
    NoEarlierEnd(assignment, |name'|, |name|);
    assert assignment[|name| + 1..] == value && assignment[|name'| + 1..] == value';
  }

  lemma NoEarlierEnd(assignment: string, i: nat, j: nat)
    requires i < |assignment| && j < |assignment| && assignment[i] == '=' && '=' !in assignment[..j]
    ensures j <= i
  {
    forall k | 0 <= k < j
      ensures assignment[k] in assignment[..j]
    {
      assert assignment[..j][k] == assignment[k];
    }
  }

  /** `strings.Cut(assignment, "=")`. */
  function Cut(assignment: string): Option<(string, string)> {
    if assignment == "" then None
    else if assignment[0] == '=' then Some(("", assignment[1..]))
    else
      match Cut(assignment[1..])
      case None => None
      case Some(parts) => Some(([assignment[0]] + parts.0, parts.1))
  }

  function Provided(assignments: seq<string>): Option<map<string, string>> {
    if assignments == [] then Some(map[])
    else
      var before, parts := Provided(assignments[..|assignments| - 1]), Cut(assignments[|assignments| - 1]);
      if before.None? || parts.None? || parts.value.0 == "" || parts.value.0 in before.value then None
      else Some(before.value[parts.value.0 := parts.value.1])
  }

  lemma AssignedOneMore(before: seq<string>, last: string, name: string, value: string)
    ensures Assigned(before + [last], name, value) <==> Assigned(before, name, value) || Splits(last, name, value)
  {
    var all := before + [last];
    if Assigned(before, name, value) {
      var i :| 0 <= i < |before| && Splits(before[i], name, value);
      assert Splits(all[i], name, value);
    }
    if Splits(last, name, value) {
      assert Splits(all[|before|], name, value);
    }
  }

  lemma AssignedOnceMore(before: seq<string>, last: string)
    ensures AssignedOnce(before + [last]) <==>
              && AssignedOnce(before) && '=' in last && last[0] != '='
              && forall name, v, w :: !(Assigned(before, name, v) && Splits(last, name, w))
  {
    var all, n := before + [last], |before|;
    assert forall i :: 0 <= i < n ==> all[i] == before[i];
    assert all[n] == last;
    if AssignedOnce(all) {
      forall i, j, name, v, w | 0 <= i < j < n
        ensures !(Splits(before[i], name, v) && Splits(before[j], name, w))
      {
        assert !(Splits(all[i], name, v) && Splits(all[j], name, w));
      }
      forall i | 0 <= i < n
        ensures '=' in before[i] && before[i][0] != '='
      {
        assert '=' in all[i] && all[i][0] != '=';
      }
      forall name, v, w | Assigned(before, name, v)
        ensures !Splits(last, name, w)
      {
        var i :| 0 <= i < n && Splits(before[i], name, v);
        assert Splits(all[i], name, v);
      }
    }
    if AssignedOnce(before) && forall name, v, w :: !(Assigned(before, name, v) && Splits(last, name, w)) {
      forall i, j, name, v, w | 0 <= i < j <= n && Splits(all[i], name, v)
        ensures !Splits(all[j], name, w)
      {
        assert Assigned(before, name, v);
      }
    }
  }

  lemma {:induction false} ProvidedMeans(assignments: seq<string>)
    ensures Provided(assignments).Some? <==> AssignedOnce(assignments)
    ensures Provided(assignments).Some? ==> forall name, value ::
              (name in Provided(assignments).value && Provided(assignments).value[name] == value) <==>
                Assigned(assignments, name, value)
  {
    if assignments != [] {
      var n := |assignments| - 1;
      var before, last := assignments[..n], assignments[n];
      assert assignments == before + [last];
      ProvidedMeans(before);
      CutSplits(last);
      AssignedOnceMore(before, last);
      if Provided(before).Some? && Cut(last).Some? {
        var parts := Cut(last).value;
        forall name, value
          ensures Splits(last, name, value) <==> name == parts.0 && value == parts.1
          ensures Assigned(assignments, name, value) <==>
                    Assigned(before, name, value) || (name == parts.0 && value == parts.1)
        {
          AssignedOneMore(before, last, name, value);
          if Splits(last, name, value) {
            SplitsOneWay(last, name, value, parts.0, parts.1);
          }
        }
        OneMoreProvided(before, Provided(before).value, parts.0, last);
      }
    }
  }

  /** A name is in the map exactly when something is assigned to it. */
  lemma OneMoreProvided(before: seq<string>, provided: map<string, string>, name: string, last: string)
    requires forall n, v :: (n in provided && provided[n] == v) <==> Assigned(before, n, v)
    requires forall n, w :: Splits(last, n, w) ==> n == name
    requires exists w :: Splits(last, name, w)
    ensures name in provided <==> exists n, v, w :: Assigned(before, n, v) && Splits(last, n, w)
  {
    if name in provided {
      assert Assigned(before, name, provided[name]);
    }
  }

  function Stored(existing: seq<ParameterValue>): Option<map<string, string>> {
    if existing == [] then Some(map[])
    else
      var before, last := Stored(existing[..|existing| - 1]), existing[|existing| - 1];
      if before.None? || last.name == "" || last.name in before.value then None
      else Some(before.value[last.name := last.value])
  }

  lemma {:induction false} StoredMeans(existing: seq<ParameterValue>)
    ensures Stored(existing).Some? <==> HeldOnce(existing)
    ensures Stored(existing).Some? ==> forall name, value ::
              (name in Stored(existing).value && Stored(existing).value[name] == value) <==> Held(existing, name, value)
  {
    if existing != [] {
      var n := |existing| - 1;
      StoredMeans(existing[..n]);
      HeldOneMore(existing[..n], existing[n]);
      assert existing == existing[..n] + [existing[n]];
      var before, name := Stored(existing[..n]), existing[n].name;
      if before.Some? && name in before.value {
        assert Held(existing[..n], name, before.value[name]);
      }
    }
  }

  lemma HeldOneMore(before: seq<ParameterValue>, last: ParameterValue)
    ensures forall name, value :: Held(before + [last], name, value) <==>
              Held(before, name, value) || (name == last.name && value == last.value)
    ensures HeldOnce(before + [last]) <==>
              HeldOnce(before) && last.name != "" && forall value :: !Held(before, last.name, value)
  {
    var all := before + [last];
    assert all[|before|] == last && forall i :: 0 <= i < |before| ==> all[i] == before[i];
    forall name, value | Held(before, name, value)
      ensures Held(all, name, value)
    {
      var i :| 0 <= i < |before| && before[i].name == name && before[i].value == value;
      assert all[i].name == name && all[i].value == value;
    }
    if HeldOnce(all) {
      forall i | 0 <= i < |before|
        ensures before[i].name != last.name && before[i].name != ""
      {
        assert all[i].name != all[|before|].name;
      }
    }
    if forall value :: !Held(before, last.name, value) {
      forall i | 0 <= i < |before|
        ensures before[i].name != last.name
      {
        assert !Held(before, last.name, before[i].value);
      }
    }
  }

  /** The value a parameter starts from: assigned now, stored before, or its default. */
  function Chosen(p: Parameter, provided: map<string, string>, stored: map<string, string>): Option<string> {
    if p.name in provided then Some(provided[p.name])
    else if p.name in stored then Some(stored[p.name])
    else p.default_
  }

  lemma ChosenMeans(p: Parameter, assignments: seq<string>, existing: seq<ParameterValue>, value: string)
    requires Provided(assignments).Some? && Stored(existing).Some?
    ensures Chosen(p, Provided(assignments).value, Stored(existing).value) == Some(value) <==>
            StartsFrom(p, assignments, existing, value)
  {
    var provided, stored := Provided(assignments).value, Stored(existing).value;
    ProvidedMeans(assignments);
    StoredMeans(existing);
    assert p.name in provided ==> Assigned(assignments, p.name, provided[p.name]);
    assert p.name in stored ==> Held(existing, p.name, stored[p.name]);
  }

  function ResolveOne(p: Parameter, provided: map<string, string>,
                      stored: map<string, string>): Option<ParameterValue>
  {
    match Chosen(p, provided, stored)
    case None => None
    case Some(value) =>
      match Normalize(p, value)
      case None => None
      case Some(v) => Some(ParameterValue(p.name, p.typ, v))
  }

  function ResolveValues(parameters: seq<Parameter>, provided: map<string, string>,
                         stored: map<string, string>): Option<seq<ParameterValue>>
  {
    if parameters == [] then Some([])
    else
      var before := ResolveValues(parameters[..|parameters| - 1], provided, stored);
      var last := ResolveOne(parameters[|parameters| - 1], provided, stored);
      if before.None? || last.None? then None else Some(before.value + [last.value])
  }

  function ToSlash(s: string): string {
    seq(|s|, i requires 0 <= i < |s| => if s[i] == '\\' then '/' else s[i])
  }

  /** `ValidateControllerRelativePath`. */
  predicate ControllerPath(value: string, file: bool) {
    && value != "" && !Paths.IsAbs(value) && value[0] != '\\'
    && (forall i :: 0 <= i < |value| ==> value[i] >= ' ' && value[i] != '\U{7F}')
    && !Paths.PointsUp(Paths.Clean(ToSlash(value))) && (file ==> Paths.Clean(ToSlash(value)) != ".")
  }

  function ResolveSecret(recipe: Recipe, secretFile: string): Option<string> {
    if recipe.secrets == [] then (if secretFile == "" then Some("") else None)
    else if secretFile == "" || !ControllerPath(secretFile, true) then None
    else Some(ToSlash(secretFile))
  }

  predicate Declared(parameters: seq<Parameter>, name: string) {
    exists i :: 0 <= i < |parameters| && parameters[i].name == name
  }

  /** What `resolve` computes. */
  function Resolved(recipe: Recipe, assignments: seq<string>, existing: seq<ParameterValue>,
                    secretFile: string): Option<Input>
  {
    var provided, stored := Provided(assignments), Stored(existing);
    if provided.None? || stored.None?
       || (exists name :: name in provided.value && !Declared(recipe.parameters, name)) then None
    else
      var values := ResolveValues(recipe.parameters, provided.value, stored.value);
      var secret := ResolveSecret(recipe, secretFile);
      if values.None? || secret.None? then None else Some(Input(values.value, secret.value))
  }

  /** Assignments and held values are well-formed, and nothing undeclared is assigned. */
  ghost predicate WellFormed(recipe: Recipe, assignments: seq<string>, existing: seq<ParameterValue>) {
    && AssignedOnce(assignments) && HeldOnce(existing)
    && forall name, value :: Assigned(assignments, name, value) ==>
         exists i :: 0 <= i < |recipe.parameters| && recipe.parameters[i].name == name
  }

  /** The parameter has something to start from, of which `v` is the normal form. */
  ghost predicate Settles(p: Parameter, assignments: seq<string>, existing: seq<ParameterValue>, v: ParameterValue) {
    && v.name == p.name && v.typ == p.typ
    && exists value :: StartsFrom(p, assignments, existing, value) && Normalize(p, value) == Some(v.value)
  }

  ghost predicate CanSettle(p: Parameter, assignments: seq<string>, existing: seq<ParameterValue>) {
    exists v :: Settles(p, assignments, existing, v)
  }

  /** The path stays inside the configuration directory and names a file in it; of other secrets there is none. */
  ghost predicate SecretFileFits(recipe: Recipe, secretFile: string) {
    if recipe.secrets == [] then secretFile == ""
    else
      && secretFile != "" && secretFile[0] != '/' && secretFile[0] != '\\'
      && (forall i :: 0 <= i < |secretFile| ==> secretFile[i] >= ' ' && secretFile[i] != '\U{7F}')
      && Paths.NeverAbove(Paths.Split(ToSlash(secretFile))) && Paths.Clean(ToSlash(secretFile)) != "."
  }

  ghost predicate Resolvable(recipe: Recipe, assignments: seq<string>, existing: seq<ParameterValue>,
                             secretFile: string)
  {
    && WellFormed(recipe, assignments, existing) && SecretFileFits(recipe, secretFile)
    && forall i :: 0 <= i < |recipe.parameters| ==> CanSettle(recipe.parameters[i], assignments, existing)
  }

  /** One value for each parameter, in order, and the secret file with forward slashes. */
  ghost predicate ResolvesTo(recipe: Recipe, assignments: seq<string>, existing: seq<ParameterValue>,
                             secretFile: string, input: Input)
  {
    && |input.values| == |recipe.parameters|
    && (forall i :: 0 <= i < |recipe.parameters| ==>
          Settles(recipe.parameters[i], assignments, existing, input.values[i]))
    && |input.secretFile| == |secretFile|
    && forall i :: 0 <= i < |secretFile| ==>
         input.secretFile[i] == if secretFile[i] == '\\' then '/' else secretFile[i]
  }

  lemma ResolvedMeans(recipe: Recipe, assignments: seq<string>, existing: seq<ParameterValue>, secretFile: string)
    ensures var input := Resolved(recipe, assignments, existing, secretFile);
            && (input.Some? <==> Resolvable(recipe, assignments, existing, secretFile))
            && (input.Some? ==> ResolvesTo(recipe, assignments, existing, secretFile, input.value))
  {
    ProvidedMeans(assignments);
    StoredMeans(existing);
    if AssignedOnce(assignments) && HeldOnce(existing) {
      DeclaredMeans(recipe, assignments);
      SecretMeans(recipe, secretFile);
      ParametersSettle(recipe.parameters, assignments, existing);
    }
  }

  lemma ParametersSettle(parameters: seq<Parameter>, assignments: seq<string>, existing: seq<ParameterValue>)
    requires Provided(assignments).Some? && Stored(existing).Some?
    ensures var values := ResolveValues(parameters, Provided(assignments).value, Stored(existing).value);
            && (values.Some? <==> forall i :: 0 <= i < |parameters| ==> CanSettle(parameters[i], assignments, existing))
            && (values.Some? ==>
                  && |values.value| == |parameters|
                  && forall i :: 0 <= i < |parameters| ==>
                       Settles(parameters[i], assignments, existing, values.value[i]))
  {
    var provided, stored := Provided(assignments).value, Stored(existing).value;
    ResolveEach(parameters, provided, stored);
    forall i | 0 <= i < |parameters|
      ensures ResolveOne(parameters[i], provided, stored).Some? <==> CanSettle(parameters[i], assignments, existing)
      ensures ResolveOne(parameters[i], provided, stored).Some? ==>
                Settles(parameters[i], assignments, existing, ResolveOne(parameters[i], provided, stored).value)
    {
      OneSettles(parameters[i], assignments, existing);
    }
  }

  lemma DeclaredMeans(recipe: Recipe, assignments: seq<string>)
    requires AssignedOnce(assignments)
    ensures Provided(assignments).Some?
    ensures (forall name :: name in Provided(assignments).value ==> Declared(recipe.parameters, name)) <==>
            forall name, value :: Assigned(assignments, name, value) ==>
              exists i :: 0 <= i < |recipe.parameters| && recipe.parameters[i].name == name
  {
    ProvidedMeans(assignments);
    var provided := Provided(assignments).value;
    assert forall name :: name in provided ==> Assigned(assignments, name, provided[name]);
  }

  lemma OneSettles(p: Parameter, assignments: seq<string>, existing: seq<ParameterValue>)
    requires Provided(assignments).Some? && Stored(existing).Some?
    ensures var one := ResolveOne(p, Provided(assignments).value, Stored(existing).value);
            && (one.Some? <==> CanSettle(p, assignments, existing))
            && (one.Some? ==> Settles(p, assignments, existing, one.value))
  {
    forall value
      ensures Chosen(p, Provided(assignments).value, Stored(existing).value) == Some(value) <==>
              StartsFrom(p, assignments, existing, value)
    {
      ChosenMeans(p, assignments, existing, value);
    }
    var chosen := Chosen(p, Provided(assignments).value, Stored(existing).value);
    if chosen.Some? && Normalize(p, chosen.value).Some? {
      var v := ParameterValue(p.name, p.typ, Normalize(p, chosen.value).value);
      assert StartsFrom(p, assignments, existing, chosen.value);
      assert Settles(p, assignments, existing, v);
    }
  }

  lemma {:induction false} ResolveEach(parameters: seq<Parameter>, provided: map<string, string>,
                                       stored: map<string, string>)
    ensures ResolveValues(parameters, provided, stored).Some? <==>
            forall i :: 0 <= i < |parameters| ==> ResolveOne(parameters[i], provided, stored).Some?
    ensures var values := ResolveValues(parameters, provided, stored);
            values.Some? ==> |values.value| == |parameters| && forall i :: 0 <= i < |parameters| ==>
                               ResolveOne(parameters[i], provided, stored) == Some(values.value[i])
  {
    if parameters != [] {
      var n := |parameters| - 1;
      ResolveEach(parameters[..n], provided, stored);
      assert forall i :: 0 <= i < n ==> parameters[..n][i] == parameters[i];
    }
  }

  lemma SecretMeans(recipe: Recipe, secretFile: string)
    ensures ResolveSecret(recipe, secretFile).Some? <==> SecretFileFits(recipe, secretFile)
    ensures ResolveSecret(recipe, secretFile).Some? ==> ResolveSecret(recipe, secretFile).value == ToSlash(secretFile)
  {
    if secretFile != "" && secretFile[0] != '/' && secretFile[0] != '\\' {
      Paths.PointsUpMeansAbove(ToSlash(secretFile));
    }
  }

  /** `Resolve`: nothing was resolved before. */
  method Resolve(recipe: Recipe, assignments: seq<string>, secretFile: string) returns (input: Option<Input>)
    ensures input.Some? <==> Resolvable(recipe, assignments, [], secretFile)
    ensures input.Some? ==> ResolvesTo(recipe, assignments, [], secretFile, input.value)
  {
    input := ResolveFrom(recipe, assignments, [], secretFile);
    ResolvedMeans(recipe, assignments, [], secretFile);
  }

  /** `Reuse`: earlier values stand where nothing new is assigned. */
  method Reuse(recipe: Recipe, previous: seq<ParameterValue>, assignments: seq<string>, secretFile: string)
    returns (input: Option<Input>)
    ensures input.Some? <==> Resolvable(recipe, assignments, previous, secretFile)
    ensures input.Some? ==> ResolvesTo(recipe, assignments, previous, secretFile, input.value)
  {
    input := ResolveFrom(recipe, assignments, previous, secretFile);
    ResolvedMeans(recipe, assignments, previous, secretFile);
  }

  /** The first loop of `resolve`. */
  method CollectAssigned(assignments: seq<string>) returns (result: Option<map<string, string>>)
    ensures result == Provided(assignments)
  {
    var provided: map<string, string> := map[];
    for i := 0 to |assignments|
      invariant Provided(assignments[..i]) == Some(provided)
    {
      assert assignments[..i + 1][..i] == assignments[..i];
      var parts := Cut(assignments[i]);
      if parts.None? || parts.value.0 == "" || parts.value.0 in provided {
        ProvidedFails(assignments, i + 1);
        return None;
      }
      provided := provided[parts.value.0 := parts.value.1];
    }
    assert assignments[..|assignments|] == assignments;
    return Some(provided);
  }

  /** The second. */
  method CollectHeld(existing: seq<ParameterValue>) returns (result: Option<map<string, string>>)
    ensures result == Stored(existing)
  {
    var stored: map<string, string> := map[];
    for i := 0 to |existing|
      invariant Stored(existing[..i]) == Some(stored)
    {
      assert existing[..i + 1][..i] == existing[..i];
      if existing[i].name == "" || existing[i].name in stored {
        StoredFails(existing, i + 1);
        return None;
      }
      stored := stored[existing[i].name := existing[i].value];
    }
    assert existing[..|existing|] == existing;
    return Some(stored);
  }

  /** `resolve`. */
  method ResolveFrom(recipe: Recipe, assignments: seq<string>, existing: seq<ParameterValue>, secretFile: string)
    returns (input: Option<Input>)
    ensures input == Resolved(recipe, assignments, existing, secretFile)
  {
    var given := CollectAssigned(assignments);
    if given.None? {
      return None;
    }
    var held := CollectHeld(existing);
    if held.None? {
      return None;
    }
    var provided, stored := given.value, held.value;
    if exists name :: name in provided && !Declared(recipe.parameters, name) {
      return None;
    }
    var values: seq<ParameterValue> := [];
    for i := 0 to |recipe.parameters|
      invariant ResolveValues(recipe.parameters[..i], provided, stored) == Some(values)
    {
      assert recipe.parameters[..i + 1][..i] == recipe.parameters[..i];
      var value := ResolveParameter(recipe.parameters[i], provided, stored);
      if value.None? {
        ValuesFail(recipe.parameters, provided, stored, i + 1);
        return None;
      }
      values := values + [value.value];
    }
    assert recipe.parameters[..|recipe.parameters|] == recipe.parameters;
    var secret := ResolveSecret(recipe, secretFile);
    return if secret.None? then None else Some(Input(values, secret.value));
  }

  method ResolveParameter(p: Parameter, provided: map<string, string>, stored: map<string, string>)
    returns (value: Option<ParameterValue>)
    ensures value == ResolveOne(p, provided, stored)
  {
    var start := p.default_;
    if p.name in provided {
      start := Some(provided[p.name]);
    } else if p.name in stored {
      start := Some(stored[p.name]);
    }
    if start.None? {
      return None;
    }
    var normalized := NormalizeValue(p, start.value);
    return if normalized.None? then None else Some(ParameterValue(p.name, p.typ, normalized.value));
  }

  lemma {:induction false} ProvidedFails(assignments: seq<string>, i: nat)
    requires i <= |assignments| && Provided(assignments[..i]).None?
    ensures Provided(assignments).None?
    decreases |assignments| - i
  {
    if i == |assignments| {
      assert assignments[..i] == assignments;
    } else {
      assert assignments[..i + 1][..i] == assignments[..i];
      ProvidedFails(assignments, i + 1);
    }
  }

  lemma {:induction false} StoredFails(existing: seq<ParameterValue>, i: nat)
    requires i <= |existing| && Stored(existing[..i]).None?
    ensures Stored(existing).None?
    decreases |existing| - i
  {
    if i == |existing| {
      assert existing[..i] == existing;
    } else {
      assert existing[..i + 1][..i] == existing[..i];
      StoredFails(existing, i + 1);
    }
  }

  lemma {:induction false} ValuesFail(parameters: seq<Parameter>, provided: map<string, string>,
                                      stored: map<string, string>, i: nat)
    requires i <= |parameters| && ResolveValues(parameters[..i], provided, stored).None?
    ensures ResolveValues(parameters, provided, stored).None?
    decreases |parameters| - i
  {
    if i == |parameters| {
      assert parameters[..i] == parameters;
    } else {
      assert parameters[..i + 1][..i] == parameters[..i];
      ValuesFail(parameters, provided, stored, i + 1);
    }
  }

  // ---- reusing what was resolved

  lemma ValuesFollowParameters(parameters: seq<Parameter>, provided: map<string, string>,
                               stored: map<string, string>)
    requires ResolveValues(parameters, provided, stored).Some?
    ensures var values := ResolveValues(parameters, provided, stored).value;
            |values| == |parameters| && forall i :: 0 <= i < |parameters| ==>
              && values[i].name == parameters[i].name && values[i].typ == parameters[i].typ
              && Normalize(parameters[i], values[i].value) == Some(values[i].value)
  {
    ResolveEach(parameters, provided, stored);
    var values := ResolveValues(parameters, provided, stored).value;
    forall i | 0 <= i < |parameters|
      ensures values[i].name == parameters[i].name && values[i].typ == parameters[i].typ
      ensures Normalize(parameters[i], values[i].value) == Some(values[i].value)
    {
      NormalizeIsIdempotent(parameters[i], Chosen(parameters[i], provided, stored).value);
    }
  }

  /** Values with distinct, non-empty names are stored as given. */
  lemma {:induction false} StoredAsGiven(values: seq<ParameterValue>)
    requires forall i :: 0 <= i < |values| ==> values[i].name != ""
    requires forall i, j :: 0 <= i < j < |values| ==> values[i].name != values[j].name
    ensures Stored(values).Some?
    ensures forall name :: name in Stored(values).value <==> exists i :: 0 <= i < |values| && values[i].name == name
    ensures forall i :: 0 <= i < |values| ==> Stored(values).value[values[i].name] == values[i].value
  {
    if values != [] {
      var n := |values| - 1;
      StoredAsGiven(values[..n]);
      assert forall i :: 0 <= i < n ==> values[..n][i] == values[i];
    }
  }

  /** The value is normal for its parameter, and stored under its name. */
  ghost predicate Kept(p: Parameter, v: ParameterValue, stored: map<string, string>) {
    && v.name == p.name && v.typ == p.typ && Normalize(p, v.value) == Some(v.value)
    && p.name in stored && stored[p.name] == v.value
  }

  lemma {:induction false} ValuesResolve(parameters: seq<Parameter>, values: seq<ParameterValue>,
                                         stored: map<string, string>)
    requires |values| == |parameters|
    requires forall i :: 0 <= i < |parameters| ==> ResolveOne(parameters[i], map[], stored) == Some(values[i])
    ensures ResolveValues(parameters, map[], stored) == Some(values)
  {
    if parameters != [] {
      var n := |parameters| - 1;
      ValuesResolve(parameters[..n], values[..n], stored);
      LastApart(values);
    }
  }

  lemma LastApart(values: seq<ParameterValue>)
    requires values != []
    ensures values == values[..|values| - 1] + [values[|values| - 1]]
  {
  }

  lemma ValuesReused(parameters: seq<Parameter>, values: seq<ParameterValue>, stored: map<string, string>)
    requires |values| == |parameters| && forall i :: 0 <= i < |parameters| ==> Kept(parameters[i], values[i], stored)
    ensures ResolveValues(parameters, map[], stored) == Some(values)
  {
    ValuesResolve(parameters, values, stored);
  }

  lemma SecretReused(recipe: Recipe, secretFile: string)
    requires ResolveSecret(recipe, secretFile).Some?
    ensures ResolveSecret(recipe, ResolveSecret(recipe, secretFile).value) == ResolveSecret(recipe, secretFile)
  {
    if recipe.secrets != [] {
      var slashed := ToSlash(secretFile);
      assert ToSlash(slashed) == slashed;
    }
  }

  /** Whatever an input was resolved from, reusing it without new assignments gives the same input back. */
  lemma ReuseIsStable(recipe: Recipe, assignments: seq<string>, existing: seq<ParameterValue>, secretFile: string)
    requires NamesSorted(recipe.parameters) && Resolved(recipe, assignments, existing, secretFile).Some?
    ensures var input := Resolved(recipe, assignments, existing, secretFile).value;
            Resolved(recipe, [], input.values, input.secretFile) == Some(input)
  {
    var input := Resolved(recipe, assignments, existing, secretFile).value;
    var provided, stored := Provided(assignments).value, Stored(existing).value;
    ValuesFollowParameters(recipe.parameters, provided, stored);
    forall i, j | 0 <= i < j < |input.values|
      ensures input.values[i].name != input.values[j].name
    {
      LessAsymmetric(recipe.parameters[i].name, recipe.parameters[j].name);
    }
    StoredAsGiven(input.values);
    ValuesReused(recipe.parameters, input.values, Stored(input.values).value);
    SecretReused(recipe, secretFile);
    assert Provided([]) == Some(map[]);
  }
}
