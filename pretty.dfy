/** interact/pretty.py: grammatical lists, pluralisation, truncation of long
    text, and display-only quoting of shell commands. interact/_utils.py
    carries textually identical copies of pretty_list and plural_if, which
    the same functions model. */
module Pretty {
  import opened Wrappers
  import opened Strings

  /** An element of a list given to pretty_list: the harness passes strings
      (file names) or integers (line numbers). */
  datatype Item = Text(text: string) | Number(number: int)

  /** Python's `str(item)`. */
  function Str(item: Item): string
  {
    match item
    case Text(s) => s
    case Number(n) => IntToString(n)
  }

  /** `[str(i) for i in items]`. */
  function Strs(items: seq<Item>): (r: seq<string>)
    ensures |r| == |items|
    ensures forall i :: 0 <= i < |items| ==> r[i] == Str(items[i])
  {
    seq(|items|, i requires 0 <= i < |items| => Str(items[i]))
  }

  function TextItems(strings: seq<string>): (r: seq<Item>)
    ensures |r| == |strings|
    ensures forall i :: 0 <= i < |r| ==> r[i] == Text(strings[i])
  {
    seq(|strings|, i requires 0 <= i < |strings| => Text(strings[i]))
  }

  /** Index of the first integer in `items`, or `|items|`. */
  function FirstNumber(items: seq<Item>): (k: nat)
    ensures k <= |items|
    ensures k < |items| ==> items[k].Number?
    ensures forall j :: 0 <= j < k ==> items[j].Text?
    decreases |items|
  {
    if items == [] then 0
    else if items[0].Number? then 0
    else 1 + FirstNumber(items[1..])
  }

  const DefaultConjunction := "and"
  const DefaultNoneString := "nothing"

  /** pretty_list: "a", "a and b", "a, b, and c". With three or more items,
      `", ".join` is applied to all but the last two, which raises TypeError
      when one of those is an integer. */
  function PrettyList(items: seq<Item>, conjunction: string, noneString: string): (r: Result<string>)
    ensures r.Err? <==> |items| >= 3 && exists k :: 0 <= k < |items| - 2 && items[k].Number?
    ensures r.Err? ==> r.error.TypeError?
  {
    var n := |items|;
    if n == 0 then Ok(noneString)
    else if n == 1 then Ok(Str(items[0]))
    else if n == 2 then Ok(Str(items[0]) + " " + conjunction + " " + Str(items[1]))
    else
      var head := items[..n - 2];
      var k := FirstNumber(head);
      if k < |head| then
        Err(TypeError("sequence item " + IntToString(k) + ": expected string, int found"))
      else
        Ok(Join(Strs(head), ", ") + ", " + Str(items[n - 2]) + ", " + conjunction + " " + Str(items[n - 1]))
  }

  /** With three or more strings the result is every item but the last
      joined by ", ", then ", ", the conjunction and the last item. */
  lemma PrettyListCommaForm(items: seq<Item>, conjunction: string, noneString: string)
    requires |items| >= 3
    requires forall k :: 0 <= k < |items| - 2 ==> items[k].Text?
    ensures PrettyList(items, conjunction, noneString)
         == Ok(Join(Strs(items[..|items| - 1]), ", ") + ", " + conjunction + " " + Str(items[|items| - 1]))
  {
    var n := |items|;
    var head := items[..n - 2];
    assert Strs(items[..n - 1]) == Strs(head) + [Str(items[n - 2])];
    JoinSnoc(Strs(head), Str(items[n - 2]), ", ");
  }

  /** A list of strings is always rendered; each case of the docstring. */
  lemma PrettyListOfStrings(strings: seq<string>, conjunction: string, noneString: string)
    ensures PrettyList(TextItems(strings), conjunction, noneString).Ok?
    ensures |strings| == 0 ==> PrettyList(TextItems(strings), conjunction, noneString).value == noneString
    ensures |strings| == 1 ==> PrettyList(TextItems(strings), conjunction, noneString).value == strings[0]
    ensures |strings| == 2 ==> PrettyList(TextItems(strings), conjunction, noneString).value
                                 == strings[0] + " " + conjunction + " " + strings[1]
  {
  }

  /** The docstring examples of pretty_list. */
  lemma PrettyListExamples()
    ensures PrettyList([Text("John"), Text("Bill"), Text("Stacy")], "and", "nothing") == Ok("John, Bill, and Stacy")
    ensures PrettyList([Text("Bill"), Text("Jorgan")], "or", "nothing") == Ok("Bill or Jorgan")
    ensures PrettyList([], "and", "nobody") == Ok("nobody")
  {
    var three := [Text("John"), Text("Bill"), Text("Stacy")];
    assert three[..1] == [Text("John")];
    assert Strs(three[..1]) == ["John"];
    assert Join(["John"], ", ") == "John";
    assert "John" + ", " + "Bill" + ", " + "and" + " " + "Stacy" == "John, Bill, and Stacy";
    assert "Bill" + " " + "or" + " " + "Jorgan" == "Bill or Jorgan";
  }

  /** Three or more integers (such as line numbers) make pretty_list raise. */
  lemma PrettyListOfNumbersRaises(items: seq<Item>)
    requires |items| >= 3 && items[0].Number?
    ensures PrettyList(items, DefaultConjunction, DefaultNoneString).Err?
  {
  }

  /** The value tested by plural_if: a bool, a number, or any other object
      (a list, for instance), which never equals 1. */
  datatype Condition = Flag(flag: bool) | Count(count: int) | Object

  /** plural_if: the word with "s" appended, or unchanged. */
  function PluralIf(word: string, condition: Condition): (r: string)
    ensures r == word + "s" || r == word
    ensures r == word + "s" <==> condition == Flag(true) || (condition.Count? && condition.count != 1) || condition.Object?
  {
    var plural := match condition
      case Flag(b) => b
      case Count(n) => n != 1
      case Object => true;
    word + (if plural then "s" else "")
  }

  const DefaultMaxLines := 20
  const DefaultMaxCharacters := 20 * 72

  /** What limit_string_length returns: the kept text and how many lines and
      characters were cut. */
  datatype Limited = Limited(text: string, linesTruncated: nat, charactersTruncated: nat)

  function Max0(x: int): nat { if x > 0 then x else 0 }

  /** limit_string_length. The error message for a negative character
      limit reports the line limit, as the source does. Only the character
      cut is applied to the text; the line cut is only counted. */
  function LimitStringLength(s: string, maxLines: int, maxCharacters: int): (r: Result<Limited>)
    ensures r.Err? <==> maxLines < 0 || maxCharacters < 0
    ensures r.Ok? ==> r.value.text <= s && |r.value.text| <= maxCharacters
    ensures r.Ok? ==> r.value.charactersTruncated == |s| - |r.value.text|
    ensures r.Ok? && r.value.charactersTruncated > 0 ==> |r.value.text| == maxCharacters
    ensures r.Ok? ==> r.value.linesTruncated == Max0(|SplitLines(s)| - maxLines)
  {
    if maxLines < 0 then
      Err(TypeError("max_lines cannot be negative, got " + IntToString(maxLines) + "."))
    else if maxCharacters < 0 then
      Err(TypeError("max_characters cannot be negative, got " + IntToString(maxLines) + "."))
    else
      var lines := SplitLines(s);
      var nlines := if |lines| > maxLines then |lines| - maxLines else 0;
      if |s| > maxCharacters then Ok(Limited(s[..maxCharacters], nlines, |s| - maxCharacters))
      else Ok(Limited(s, nlines, 0))
  }

  /** The kept text does not depend on the line limit. */
  lemma LineLimitNotApplied(s: string, linesA: nat, linesB: nat, maxCharacters: nat)
    ensures LimitStringLength(s, linesA, maxCharacters).value.text
         == LimitStringLength(s, linesB, maxCharacters).value.text
  {
  }

  const TruncationMarker := "\n---Remaining text truncated---"

  /** truncate_string. */
  function TruncateString(s: string, maxLines: int, maxCharacters: int): (r: Result<string>)
    ensures r.Err? <==> maxLines < 0 || maxCharacters < 0
  {
    var limited :- LimitStringLength(s, maxLines, maxCharacters);
    if limited.charactersTruncated == 0 && limited.linesTruncated == 0 then Ok(limited.text)
    else Ok(limited.text + TruncationMarker)
  }

  /** Nothing is cut: the input comes back unchanged. Something is cut: the
      result is the input's first `maxCharacters` characters (all of it when
      only the line limit is exceeded), followed by the marker. */
  lemma TruncateStringCases(s: string, maxLines: nat, maxCharacters: nat)
    ensures |SplitLines(s)| <= maxLines && |s| <= maxCharacters ==> TruncateString(s, maxLines, maxCharacters) == Ok(s)
    ensures |SplitLines(s)| > maxLines || |s| > maxCharacters ==>
      TruncateString(s, maxLines, maxCharacters)
      == Ok((if |s| > maxCharacters then s[..maxCharacters] else s) + TruncationMarker)
  {
    var limited := LimitStringLength(s, maxLines, maxCharacters).value;
    if |SplitLines(s)| > maxLines || |s| > maxCharacters {
      assert limited.text == if |s| > maxCharacters then s[..maxCharacters] else s;
    }
  }

  /** The converse fails: a text that ends with the marker can be cut and
      still come back unchanged. */
  lemma TruncateStringCanLookUnchanged()
    ensures var s := "x" + TruncationMarker;
      LimitStringLength(s, DefaultMaxLines, 1).value.charactersTruncated > 0
      && TruncateString(s, DefaultMaxLines, 1) == Ok(s)
  {
    var s := "x" + TruncationMarker;
    assert s[..1] == "x";
  }

  /** The per-character escaping of escape_shell_string: a backslash or a
      double quote gets a backslash in front of it. */
  function EscapeChar(c: char): string
  {
    if c == '\\' || c == '"' then ['\\', c] else [c]
  }

  function EscapeChars(s: string): (r: string)
    decreases |s|
  {
    if s == [] then [] else EscapeChar(s[0]) + EscapeChars(s[1..])
  }

  /** escape_shell_string: double every backslash, then put a backslash in
      front of every double quote; wrap in double quotes when the escaped
      text contains a space. For display only. */
  function EscapeShellString(s: string): string
  {
    var escaped := Replace(Replace(s, '\\', "\\\\"), '"', "\\\"");
    if ' ' in escaped then "\"" + escaped + "\"" else escaped
  }

  /** The two chained replacements equal the per-character escaping: the
      backslashes added for quotes are not doubled again. */
  lemma {:induction false} ChainedReplaceIsEscapeChars(s: string)
    ensures Replace(Replace(s, '\\', "\\\\"), '"', "\\\"") == EscapeChars(s)
    decreases |s|
  {
    if s != [] {
      var first := if s[0] == '\\' then "\\\\" else [s[0]];
      assert Replace(s, '\\', "\\\\") == first + Replace(s[1..], '\\', "\\\\");
      ReplaceAppend(first, Replace(s[1..], '\\', "\\\\"), '"', "\\\"");
      ChainedReplaceIsEscapeChars(s[1..]);
      assert Replace(first, '"', "\\\"") == EscapeChar(s[0]) by {
        if s[0] == '\\' {
          assert first == ['\\'] + ['\\'];
          ReplaceAppend(['\\'], ['\\'], '"', "\\\"");
        } else {
          assert first == [s[0]];
          assert first[1..] == [];
        }
      }
    }
  }

  lemma {:induction false} EscapeCharsSpaces(s: string)
    ensures ' ' in EscapeChars(s) <==> ' ' in s
    ensures EscapeChars(s) != [] ==> EscapeChars(s)[0] != '"'
    decreases |s|
  {
    if s != [] {
      EscapeCharsSpaces(s[1..]);
      assert s == [s[0]] + s[1..];
    }
  }

  /** Reading an escaped text back: a backslash stands for the character
      after it. */
  function Unescape(e: string): string
    decreases |e|
  {
    if e == [] then []
    else if e[0] == '\\' && |e| >= 2 then [e[1]] + Unescape(e[2..])
    else [e[0]] + Unescape(e[1..])
  }

  lemma {:induction false} UnescapeEscapeChars(s: string)
    ensures Unescape(EscapeChars(s)) == s
    decreases |s|
  {
    if s != [] {
      var e := EscapeChars(s);
      UnescapeEscapeChars(s[1..]);
      if s[0] == '\\' || s[0] == '"' {
        assert e[2..] == EscapeChars(s[1..]);
      } else {
        assert e[1..] == EscapeChars(s[1..]);
      }
    }
  }

  /** How a reader decodes one displayed argument: strip the surrounding
      double quotes if there are any, then unescape. */
  function DecodeDisplayed(e: string): string
  {
    if |e| >= 2 && e[0] == '"' then Unescape(e[1..|e| - 1]) else Unescape(e)
  }

  /** escape_shell_string loses nothing: decoding its display gives the
      argument back, and it is quoted exactly when the argument has a space. */
  lemma EscapeShellStringRoundTrip(s: string)
    ensures DecodeDisplayed(EscapeShellString(s)) == s
    ensures ' ' in s <==> |EscapeShellString(s)| > 0 && EscapeShellString(s)[0] == '"'
  {
    ChainedReplaceIsEscapeChars(s);
    EscapeCharsSpaces(s);
    UnescapeEscapeChars(s);
    var e := EscapeChars(s);
    if ' ' in e {
      var w := "\"" + e + "\"";
      assert w[1..|w| - 1] == e;
    }
  }

  function EscapeAll(command: seq<string>): (r: seq<string>)
    ensures |r| == |command|
    ensures forall i :: 0 <= i < |command| ==> r[i] == EscapeShellString(command[i])
  {
    seq(|command|, i requires 0 <= i < |command| => EscapeShellString(command[i]))
  }

  /** craft_shell_command: the escaped arguments joined by single spaces. */
  function CraftShellCommand(command: seq<string>): string
  {
    Join(EscapeAll(command), " ")
  }

  /** How a reader splits a displayed command into arguments: a backslash
      stands for the next character, an unescaped double quote opens or
      closes a quoted stretch, and a space outside one ends the argument. */
  function DecodeCommandFrom(e: string, token: string, done: seq<string>, quoted: bool): seq<string>
    decreases |e|
  {
    if e == [] then done + [token]
    else if e[0] == '\\' && |e| >= 2 then DecodeCommandFrom(e[2..], token + [e[1]], done, quoted)
    else if e[0] == '"' then DecodeCommandFrom(e[1..], token, done, !quoted)
    else if e[0] == ' ' && !quoted then DecodeCommandFrom(e[1..], [], done + [token], false)
    else DecodeCommandFrom(e[1..], token + [e[0]], done, quoted)
  }

  function DecodeCommand(e: string): seq<string>
  {
    DecodeCommandFrom(e, [], [], false)
  }

  /** One escaped character decodes to itself. */
  lemma DecodeEscapedChar(c: char, tail: string, token: string, done: seq<string>, quoted: bool)
    requires quoted || c != ' '
    ensures DecodeCommandFrom(EscapeChar(c) + tail, token, done, quoted) == DecodeCommandFrom(tail, token + [c], done, quoted)
  {
    var e := EscapeChar(c) + tail;
    if c == '\\' || c == '"' {
      assert e[0] == '\\' && e[1] == c && e[2..] == tail;
    } else {
      assert e[0] == c && e[1..] == tail;
    }
  }

  /** The escaped characters of `s` decode to `s` itself, spaces included
      when inside a quoted stretch. */
  lemma {:induction false} DecodeEscapedChars(s: string, rest: string, token: string, done: seq<string>, quoted: bool)
    requires quoted || ' ' !in s
    ensures DecodeCommandFrom(EscapeChars(s) + rest, token, done, quoted) == DecodeCommandFrom(rest, token + s, done, quoted)
    decreases |s|
  {
    if s == [] {
      AppendEmpty(EscapeChars(s), rest);
      AppendEmpty(s, token);
    } else {
      var tail := EscapeChars(s[1..]) + rest;
      if !quoted {
        SpaceFreeParts(s);
      }
      DecodeEscapedChars(s[1..], rest, token + [s[0]], done, quoted);
      DecodeEscapedChar(s[0], tail, token, done, quoted);
      EscapeCharsCons(s, rest);
      AppendHead(token, s);
    }
  }

  lemma SpaceFreeParts(s: string)
    requires s != [] && ' ' !in s
    ensures s[0] != ' ' && ' ' !in s[1..]
  {
    assert s == [s[0]] + s[1..];
  }

  lemma EscapeCharsCons(s: string, rest: string)
    requires s != []
    ensures EscapeChars(s) + rest == EscapeChar(s[0]) + (EscapeChars(s[1..]) + rest)
  {
  }

  /** An unescaped double quote toggles the quoted stretch. */
  lemma DecodeQuote(tail: string, token: string, done: seq<string>, quoted: bool)
    ensures DecodeCommandFrom("\"" + tail, token, done, quoted) == DecodeCommandFrom(tail, token, done, !quoted)
  {
    assert ("\"" + tail)[1..] == tail;
  }

  /** A space outside a quoted stretch ends the argument. */
  lemma DecodeSpace(tail: string, token: string, done: seq<string>)
    ensures DecodeCommandFrom(" " + tail, token, done, false) == DecodeCommandFrom(tail, [], done + [token], false)
  {
    assert (" " + tail)[1..] == tail;
  }

  /** The display of an argument with a space: the escaped text between
      double quotes. */
  lemma QuotedDisplay(a: string, rest: string)
    requires ' ' in a
    ensures EscapeShellString(a) + rest == "\"" + (EscapeChars(a) + ("\"" + rest))
  {
    ChainedReplaceIsEscapeChars(a);
    EscapeCharsSpaces(a);
  }

  /** One displayed argument decodes to the argument. */
  lemma DecodeOneArgument(a: string, rest: string, done: seq<string>)
    ensures DecodeCommandFrom(EscapeShellString(a) + rest, [], done, false) == DecodeCommandFrom(rest, a, done, false)
  {
    assert [] + a == a;
    if ' ' in a {
      var q := "\"" + rest;
      QuotedDisplay(a, rest);
      DecodeQuote(EscapeChars(a) + q, [], done, false);
      DecodeEscapedChars(a, q, [], done, true);
      DecodeQuote(rest, a, done, true);
    } else {
      ChainedReplaceIsEscapeChars(a);
      EscapeCharsSpaces(a);
      DecodeEscapedChars(a, rest, [], done, false);
    }
  }

  /** A command of several arguments is displayed as its first argument, a
      space, and the display of the others. */
  lemma CraftCons(command: seq<string>)
    requires |command| > 1
    ensures CraftShellCommand(command) == EscapeShellString(command[0]) + (" " + CraftShellCommand(command[1..]))
  {
    assert EscapeAll(command)[1..] == EscapeAll(command[1..]);
  }

  lemma DecodeLastArgument(command: seq<string>, done: seq<string>)
    requires |command| == 1
    ensures DecodeCommandFrom(CraftShellCommand(command), [], done, false) == done + command
  {
    DecodeOneArgument(command[0], [], done);
    assert CraftShellCommand(command) == EscapeShellString(command[0]);
    AppendEmpty([], CraftShellCommand(command));
    AppendHead(done, command);
    AppendEmpty(command[1..], done + [command[0]]);
  }

  /** Reading back the first argument of a command of several, given that
      the others read back. */
  lemma DecodeFirstArgument(command: seq<string>, done: seq<string>)
    requires |command| > 1
    requires DecodeCommandFrom(CraftShellCommand(command[1..]), [], done + [command[0]], false)
          == done + [command[0]] + command[1..]
    ensures DecodeCommandFrom(CraftShellCommand(command), [], done, false) == done + command
  {
    var tail := CraftShellCommand(command[1..]);
    CraftCons(command);
    DecodeOneArgument(command[0], " " + tail, done);
    DecodeSpace(tail, command[0], done);
    AppendHead(done, command);
  }

  lemma {:induction false} DecodeArguments(command: seq<string>, done: seq<string>)
    requires |command| > 0
    ensures DecodeCommandFrom(CraftShellCommand(command), [], done, false) == done + command
    decreases |command|
  {
    if |command| == 1 {
      DecodeLastArgument(command, done);
    } else {
      DecodeArguments(command[1..], done + [command[0]]);
      DecodeFirstArgument(command, done);
    }
  }

  /** craft_shell_command loses nothing: reading the displayed command back
      gives the argument list, empty arguments included. */
  lemma CraftShellCommandRoundTrip(command: seq<string>)
    requires |command| > 0
    ensures DecodeCommand(CraftShellCommand(command)) == command
  {
    DecodeArguments(command, []);
  }
}
