/** Argument printers and their readers. */
module Quote {
  // `internal/transport/quote.go` for the shell, `internal/maintenance/systemd.go` for unit files.

  import opened Text

  /** `strings.ReplaceAll` for a one-character pattern. */
  function ReplaceAll(s: string, c: char, sub: string): string {
    if s == "" then "" else (if s[0] == c then sub else [s[0]]) + ReplaceAll(s[1..], c, sub)
  }

  function JoinWords(words: seq<string>): string {
    if words == [] then "" else if |words| == 1 then words[0] else words[0] + " " + JoinWords(words[1..])
  }

  // ---- POSIX shell

  function ShellQuote(value: string): string {
    "'" + ReplaceAll(value, '\'', "'\\''") + "'"
  }

  /** Characters that mean something to the shell outside quotes; a word containing one bare is not modelled. */
  predicate Special(c: char) {
    c in "|&;<>()$`\"*?[#~=%!{}\t\n"
  }

  /**
   * Token recognition with the quoting of sections 2.2.1, 2.2.2 and 2.3 of IEEE Std 1003.1-2017, Shell Command
   * Language: blanks end words, single quotes keep everything, a backslash keeps the next character.
   */
  function ShellWords(input: string, word: Option<string>, quoted: bool): Option<seq<string>>
    decreases |input|
  {
    if input == "" then
      if quoted then None else if word.None? then Some([]) else Some([word.value])
    else
      var c, rest := input[0], input[1..];
      var sofar := if word.Some? then word.value else "";
      if quoted then
        if c == '\'' then ShellWords(rest, Some(sofar), false) else ShellWords(rest, Some(sofar + [c]), true)
      else if c == '\'' then ShellWords(rest, Some(sofar), true)
      else if c == '\\' then
        if rest == "" then None
        else if rest[0] == '\n' then ShellWords(rest[1..], word, false)
        else ShellWords(rest[1..], Some(sofar + [rest[0]]), false)
      else if c == ' ' then
        if word.None? then ShellWords(rest, None, false)
        else
          match ShellWords(rest, None, false)
          case None => None
          case Some(words) => Some([word.value] + words)
      else if Special(c) then None
      else ShellWords(rest, Some(sofar + [c]), false)
  }

  /** Inside quotes, the quoted form of `value` adds `value` to the word and closes the quotes. */
  lemma {:induction false} QuotedPart(value: string, tail: string, sofar: string)
    ensures ShellWords(ReplaceAll(value, '\'', "'\\''") + "'" + tail, Some(sofar), true) ==
            ShellWords(tail, Some(sofar + value), false)
    decreases |value|
  {
    if value == "" {
      assert "" + "'" + tail == "'" + tail && sofar + value == sofar;
      assert ("'" + tail)[0] == '\'' && ("'" + tail)[1..] == tail;
    } else {
      var rest := ReplaceAll(value[1..], '\'', "'\\''") + "'" + tail;
      QuotedPart(value[1..], tail, sofar + [value[0]]);
      FirstApart(value, tail, sofar);
      if value[0] == '\'' {
        ShellQuoteMark(rest, sofar);
      }
    }
  }

  lemma FirstApart(value: string, tail: string, sofar: string)
    requires value != ""
    ensures ReplaceAll(value, '\'', "'\\''") + "'" + tail ==
            (if value[0] == '\'' then "'\\''" else [value[0]]) + (ReplaceAll(value[1..], '\'', "'\\''") + "'" + tail)
    ensures sofar + [value[0]] + value[1..] == sofar + value
  {
    Regroup(if value[0] == '\'' then "'\\''" else [value[0]], ReplaceAll(value[1..], '\'', "'\\''"), "'", tail);
    Regroup(sofar, [value[0]], value[1..], "");
    assert [value[0]] + value[1..] + "" == value;
  }

  lemma Regroup(a: string, b: string, c: string, d: string)
    ensures a + b + c + d == a + (b + c + d)
  {
  }

  /** Closing the quotes, an escaped quote, and opening them again adds one quote. */
  lemma ShellQuoteMark(rest: string, sofar: string)
    ensures ShellWords("'\\''" + rest, Some(sofar), true) == ShellWords(rest, Some(sofar + "'"), true)
  {
    var s0 := "'\\''" + rest;
    var s1 := "\\''" + rest;
    var s2 := "'" + rest;
    assert s0[0] == '\'' && s0[1..] == s1;
    assert ShellWords(s0, Some(sofar), true) == ShellWords(s1, Some(sofar), false);
    assert s1[0] == '\\' && s1[1..][0] == '\'' && s1[1..][1..] == s2;
    assert sofar + ['\''] == sofar + "'";
    assert ShellWords(s1, Some(sofar), false) == ShellWords(s2, Some(sofar + "'"), false);
    assert s2[0] == '\'' && s2[1..] == rest;
  }

  lemma QuotedWord(value: string, tail: string)
    ensures ShellWords(ShellQuote(value) + tail, None, false) == ShellWords(tail, Some(value), false)
  {
    var body := ReplaceAll(value, '\'', "'\\''") + "'" + tail;
    assert ShellQuote(value) + tail == "'" + body;
    assert ("'" + body)[1..] == body;
    QuotedPart(value, tail, "");
    assert "" + value == value;
  }

  function ShellQuoteAll(values: seq<string>): seq<string> {
    if values == [] then [] else [ShellQuote(values[0])] + ShellQuoteAll(values[1..])
  }

  /** Whatever the arguments are, the shell splits their quoted list back into exactly those arguments. */
  lemma {:induction false} ShellRoundTrip(values: seq<string>)
    ensures ShellWords(JoinWords(ShellQuoteAll(values)), None, false) == Some(values)
  {
    if |values| == 1 {
      assert ShellQuoteAll(values[1..]) == [];
      assert ShellQuoteAll(values) == [ShellQuote(values[0])];
      QuotedWord(values[0], "");
      assert ShellQuote(values[0]) + "" == ShellQuote(values[0]);
      assert values == [values[0]];
    } else if |values| > 1 {
      var tail := JoinWords(ShellQuoteAll(values[1..]));
      assert ShellQuoteAll(values)[1..] == ShellQuoteAll(values[1..]);
      assert JoinWords(ShellQuoteAll(values)) == ShellQuote(values[0]) + (" " + tail);
      QuotedWord(values[0], " " + tail);
      assert (" " + tail)[0] == ' ' && (" " + tail)[1..] == tail;
      ShellRoundTrip(values[1..]);
      assert ShellWords(" " + tail, Some(values[0]), false) == Some([values[0]] + values[1..]);
      assert values == [values[0]] + values[1..];
    }
  }

  // ---- systemd unit files

  predicate Control(c: char) {
    c < ' ' || c == '\U{7F}'
  }

  ghost predicate NoControl(s: string) {
    forall i :: 0 <= i < |s| ==> s[i] >= ' ' && s[i] != '\U{7F}'
  }

  function EscapeSystemdArgument(value: string): (r: Option<string>)
    ensures r.Some? <==> NoControl(value)
  {
    if value == "" then Some("\"\"")
    else if exists i :: 0 <= i < |value| && Control(value[i]) then None
    else Some("\"" + ReplaceAll(ReplaceAll(ReplaceAll(value, '%', "%%"), '\\', "\\\\"), '"', "\\\"") + "\"")
  }

  /** The three replacements as one pass over the characters. */
  function EscapeChar(c: char): string {
    if c == '%' then "%%" else if c == '\\' then "\\\\" else if c == '"' then "\\\"" else [c]
  }

  function EscapeEach(s: string): string {
    if s == "" then "" else EscapeChar(s[0]) + EscapeEach(s[1..])
  }

  lemma {:induction false} ReplaceConcat(a: string, b: string, c: char, sub: string)
    ensures ReplaceAll(a + b, c, sub) == ReplaceAll(a, c, sub) + ReplaceAll(b, c, sub)
  {
    if a == "" {
      assert a + b == b;
    } else {
      assert (a + b)[0] == a[0] && (a + b)[1..] == a[1..] + b;
      ReplaceConcat(a[1..], b, c, sub);
    }
  }

  lemma ReplaceShort(c: char, sub: string, x: char, y: char)
    ensures ReplaceAll([x], c, sub) == if x == c then sub else [x]
    ensures x != c && y != c ==> ReplaceAll([x, y], c, sub) == [x, y]
  {
    assert [x][1..] == "" && [x, y][1..] == [y] && [y][1..] == "";
    assert ReplaceAll("", c, sub) == "";
  }

  /** Replacing one after the other never touches what an earlier replacement wrote. */
  lemma {:induction false} ReplacementsAreOnePass(s: string)
    ensures ReplaceAll(ReplaceAll(ReplaceAll(s, '%', "%%"), '\\', "\\\\"), '"', "\\\"") == EscapeEach(s)
  {
    if s != "" {
      ReplacementsAreOnePass(s[1..]);
      var head, one := [s[0]], ReplaceAll([s[0]], '%', "%%");
      assert s == head + s[1..];
      ReplaceConcat(head, s[1..], '%', "%%");
      ReplaceConcat(one, ReplaceAll(s[1..], '%', "%%"), '\\', "\\\\");
      var two := ReplaceAll(one, '\\', "\\\\");
      ReplaceConcat(two, ReplaceAll(ReplaceAll(s[1..], '%', "%%"), '\\', "\\\\"), '"', "\\\"");
      EscapeOneChar(s[0]);
    }
  }

  lemma EscapeOneChar(c: char)
    ensures ReplaceAll(ReplaceAll(ReplaceAll([c], '%', "%%"), '\\', "\\\\"), '"', "\\\"") == EscapeChar(c)
  {
    ReplaceShort('%', "%%", c, c);
    ReplaceShort('\\', "\\\\", c, c);
    ReplaceShort('"', "\\\"", c, c);
    ReplaceShort('\\', "\\\\", '%', '%');
    ReplaceShort('"', "\\\"", '%', '%');
    ReplaceShort('"', "\\\"", '\\', '\\');
  }

  /**
   * Words of an ExecStart line as systemd.service(5), "Command Lines", splits them: quotes group, a backslash in
   * quotes escapes a quote or a backslash. Single quotes, bare characters and other escapes are not modelled: there
   * the result is None.
   */
  function UnitWords(input: string, word: Option<string>, quoted: bool): Option<seq<string>>
    decreases |input|
  {
    if input == "" then
      if quoted then None else if word.None? then Some([]) else Some([word.value])
    else
      var c, rest := input[0], input[1..];
      var sofar := if word.Some? then word.value else "";
      if quoted then
        if c == '"' then UnitWords(rest, Some(sofar), false)
        else if c == '\\' then
          if rest == "" || (rest[0] != '\\' && rest[0] != '"') then None
          else UnitWords(rest[1..], Some(sofar + [rest[0]]), true)
        else UnitWords(rest, Some(sofar + [c]), true)
      else if c == '"' then UnitWords(rest, Some(sofar), true)
      else if c == ' ' then
        if word.None? then UnitWords(rest, None, false)
        else
          match UnitWords(rest, None, false)
          case None => None
          case Some(words) => Some([word.value] + words)
      else None
  }

  /** Specifier expansion of one word: "%%" is a percent sign. Other specifiers and variables are not modelled. */
  function Expand(word: string): Option<string> {
    if word == "" then Some("")
    else if word[0] == '$' then None
    else if word[0] == '%' then
      if |word| < 2 || word[1] != '%' then None
      else
        match Expand(word[2..])
        case None => None
        case Some(rest) => Some("%" + rest)
    else
      match Expand(word[1..])
      case None => None
      case Some(rest) => Some([word[0]] + rest)
  }

  function ExpandAll(words: seq<string>): Option<seq<string>> {
    if words == [] then Some([])
    else
      match (Expand(words[0]), ExpandAll(words[1..]))
      case (Some(first), Some(rest)) => Some([first] + rest)
      case _ => None
  }

  /** How many executable prefixes a first word starts with. */
  function Prefixes(word: string): (k: nat)
    ensures k <= |word|
  {
    if word != "" && word[0] in "@-:+!" then 1 + Prefixes(word[1..]) else 0
  }

  /**
   * The executable and the arguments it gets: prefixes are no part of the path, which is absolute or a plain file
   * name, and after a prefix `@` the second word is only the name the program is told it was started as.
   */
  function Command(words: seq<string>): Option<seq<string>>
    requires words != []
  {
    var k := Prefixes(words[0]);
    var path, rest := words[0][k..], words[1..];
    if path == "" || (path[0] != '/' && '/' in path) then None
    else if '@' !in words[0][..k] then Some([path] + rest)
    else if rest == [] then None
    else Some([path] + rest[1..])
  }

  function ReadExecStart(line: string): Option<seq<string>> {
    match UnitWords(line, None, false)
    case None => None
    case Some(words) =>
      if words == [] then Some([])
      else
        match Command(words)
        case None => None
        case Some(command) => ExpandAll(command)
  }

  /** A command that stands for itself: an absolute path or a plain file name, without a prefix. */
  predicate PlainCommand(word: string) {
    word != "" && word[0] !in "@-:+!" && (word[0] == '/' || '/' !in word)
  }

  function EscapeAll(values: seq<string>): (r: Option<seq<string>>)
    ensures r.Some? <==> forall i :: 0 <= i < |values| ==> NoControl(values[i])
  {
    if values == [] then Some([])
    else
      match (EscapeSystemdArgument(values[0]), EscapeAll(values[1..]))
      case (Some(first), Some(rest)) =>
        assert forall i :: 0 <= i < |values| ==> values[i] == if i == 0 then values[0] else values[1..][i - 1];
        Some([first] + rest)
      case _ =>
        assert EscapeAll(values[1..]).None? ==>
          exists i :: 0 <= i < |values[1..]| && !NoControl(values[1..][i]);
        assert forall i :: 0 <= i < |values[1..]| ==> values[1..][i] == values[i + 1];
        None
  }

  lemma {:induction false} EscapedPart(value: string, tail: string, sofar: string)
    ensures UnitWords(EscapeEach(value) + "\"" + tail, Some(sofar), true) ==
            UnitWords(tail, Some(sofar + ReplaceAll(value, '%', "%%")), false)
    decreases |value|
  {
    if value == "" {
      assert "" + "\"" + tail == "\"" + tail && ("\"" + tail)[1..] == tail;
      assert sofar + "" == sofar;
    } else {
      var rest := EscapeEach(value[1..]) + "\"" + tail;
      var input := EscapeEach(value) + "\"" + tail;
      assert input == EscapeChar(value[0]) + rest;
      var unit := if value[0] == '%' then "%%" else [value[0]];
      EscapedPart(value[1..], tail, sofar + unit);
      assert sofar + unit + ReplaceAll(value[1..], '%', "%%") == sofar + ReplaceAll(value, '%', "%%");
      EscapedChar(value[0], rest, sofar);
    }
  }

  lemma EscapedChar(c: char, rest: string, sofar: string)
    ensures UnitWords(EscapeChar(c) + rest, Some(sofar), true) ==
            UnitWords(rest, Some(sofar + if c == '%' then "%%" else [c]), true)
  {
    var input := EscapeChar(c) + rest;
    if |EscapeChar(c)| == 2 {
      assert input[1..] == [EscapeChar(c)[1]] + rest;
      assert input[1..][1..] == rest;
      assert sofar + ['%'] + ['%'] == sofar + "%%";
    } else {
      assert input[1..] == rest;
    }
  }

  lemma {:induction false} ExpandPercents(value: string)
    requires '$' !in value
    ensures Expand(ReplaceAll(value, '%', "%%")) == Some(value)
  {
    if value != "" {
      ExpandPercents(value[1..]);
      ExpandOne(value[0], ReplaceAll(value[1..], '%', "%%"), value[1..]);
      assert value == [value[0]] + value[1..];
    }
  }

  lemma ExpandOne(c: char, rest: string, expanded: string)
    requires c != '$' && Expand(rest) == Some(expanded)
    ensures Expand((if c == '%' then "%%" else [c]) + rest) == Some([c] + expanded)
  {
    var word := (if c == '%' then "%%" else [c]) + rest;
    if c == '%' {
      assert word[2..] == rest;
    } else {
      assert word[1..] == rest;
    }
  }

  lemma EscapedWord(value: string, tail: string)
    requires NoControl(value)
    ensures UnitWords(EscapeSystemdArgument(value).value + tail, None, false) ==
            UnitWords(tail, Some(ReplaceAll(value, '%', "%%")), false)
  {
    ReplacementsAreOnePass(value);
    var body := EscapeEach(value) + "\"" + tail;
    assert EscapeSystemdArgument(value).value + tail == "\"" + body;
    assert ("\"" + body)[1..] == body;
    EscapedPart(value, tail, "");
    assert "" + ReplaceAll(value, '%', "%%") == ReplaceAll(value, '%', "%%");
  }

  lemma {:induction false} UnitWordsOfEscaped(values: seq<string>)
    requires EscapeAll(values).Some?
    ensures UnitWords(JoinWords(EscapeAll(values).value), None, false) == Some(PercentsDoubled(values))
  {
    if |values| == 1 {
      EscapedWord(values[0], "");
      assert EscapeAll(values[1..]) == Some([]);
      var only := EscapeSystemdArgument(values[0]).value;
      assert EscapeAll(values).value == [only] && only + "" == only;
      assert PercentsDoubled(values) == [ReplaceAll(values[0], '%', "%%")];
    } else if |values| > 1 {
      var first, rest := EscapeSystemdArgument(values[0]).value, EscapeAll(values[1..]).value;
      var tail := JoinWords(rest);
      assert EscapeAll(values).value[1..] == rest;
      assert JoinWords(EscapeAll(values).value) == first + (" " + tail);
      EscapedWord(values[0], " " + tail);
      assert (" " + tail)[1..] == tail;
      UnitWordsOfEscaped(values[1..]);
    }
  }

  function PercentsDoubled(values: seq<string>): seq<string> {
    if values == [] then [] else [ReplaceAll(values[0], '%', "%%")] + PercentsDoubled(values[1..])
  }

  lemma {:induction false} ExpandDoubled(values: seq<string>)
    requires forall i :: 0 <= i < |values| ==> '$' !in values[i]
    ensures ExpandAll(PercentsDoubled(values)) == Some(values)
  {
    if values != [] {
      ExpandPercents(values[0]);
      assert PercentsDoubled(values)[1..] == PercentsDoubled(values[1..]);
      ExpandDoubled(values[1..]);
      assert values == [values[0]] + values[1..];
    }
  }

  /** Doubling percent signs touches neither prefixes nor slashes. */
  lemma {:induction false} DoublingKeepsPrefixes(word: string)
    ensures var doubled := ReplaceAll(word, '%', "%%");
            && Prefixes(doubled) == Prefixes(word)
            && doubled[Prefixes(word)..] == ReplaceAll(word[Prefixes(word)..], '%', "%%")
            && ('/' in doubled <==> '/' in word)
            && (word != "" ==> doubled != "" && doubled[0] == word[0])
  {
    if word != "" {
      DoublingKeepsPrefixes(word[1..]);
      assert word == [word[0]] + word[1..];
    }
  }

  /** Read back, the first word loses its prefixes, so with any the list is another one. */
  lemma PrefixesAreLost(values: seq<string>)
    requires values != [] && '$' !in values[0] && Prefixes(values[0]) > 0
    ensures var read := Command(PercentsDoubled(values)); read.Some? ==> ExpandAll(read.value) != Some(values)
  {
    var k := Prefixes(values[0]);
    DoublingKeepsPrefixes(values[0]);
    ExpandPercents(values[0][k..]);
    var read := Command(PercentsDoubled(values));
    if read.Some? {
      assert read.value[0] == ReplaceAll(values[0][k..], '%', "%%");
      assert |values[0][k..]| < |values[0]|;
    }
  }

  /** Without prefixes the list is kept, unless its first word names no executable. */
  lemma UnprefixedIsKept(values: seq<string>)
    requires values != [] && Prefixes(values[0]) == 0
    ensures Command(PercentsDoubled(values)) ==
            if PlainCommand(values[0]) then Some(PercentsDoubled(values)) else None
  {
    var words := PercentsDoubled(values);
    DoublingKeepsPrefixes(values[0]);
    assert words[0][0..] == words[0] && words == [words[0]] + words[1..];
  }

  /**
   * Arguments without control characters or dollar signs come back from the unit file as they were exactly when
   * the first of them is a plain command.
   */
  lemma ReadBackExactlyWhenPlain(values: seq<string>)
    requires forall i :: 0 <= i < |values| ==> NoControl(values[i]) && '$' !in values[i]
    ensures EscapeAll(values).Some?
    ensures ReadExecStart(JoinWords(EscapeAll(values).value)) == Some(values) <==>
            (values != [] ==> PlainCommand(values[0]))
  {
    UnitWordsOfEscaped(values);
    ExpandDoubled(values);
    if values != [] {
      if Prefixes(values[0]) > 0 {
        PrefixesAreLost(values);
      } else {
        UnprefixedIsKept(values);
      }
    }
  }

  /** The scheduler's command is an absolute path, so the arguments of its unit come back as they were. */
  lemma ExecStartRoundTrip(values: seq<string>)
    requires forall i :: 0 <= i < |values| ==> NoControl(values[i]) && '$' !in values[i]
    requires values != [] ==> values[0] != "" && values[0][0] == '/'
    ensures EscapeAll(values).Some? && ReadExecStart(JoinWords(EscapeAll(values).value)) == Some(values)
  {
    ReadBackExactlyWhenPlain(values);
  }
}
