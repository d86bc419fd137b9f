/** interact/core.py: the result of one unit of testing, the messages it
    carries and its plain-text rendering. */
module Core {
  import opened Wrappers
  import opened Strings

  /** A value handed to a message as its text or as a format argument. */
  datatype Arg =
    | Text(text: string)
    | Number(number: int)
    | List(items: seq<Arg>)
    | Msg(message: Message)
    /** A `parse.Line` handed over as it is (the `lines` keyword). */
    | CodeLine(lineNumber: int, code: string)

  /** `TestResult.Message`: a format string with its positional and keyword
      arguments; `dscore` and `type` are looked up among the keywords. */
  datatype Message = Message(text: Arg, args: seq<Arg>, kwargs: map<string, Arg>,
                             dscore: Option<Arg>, kind: Option<Arg>)

  /** `kwargs.get(key, None)`. */
  function Get(kwargs: map<string, Arg>, key: string): Option<Arg>
  {
    if key in kwargs then Some(kwargs[key]) else None
  }

  /** `Message(text, *args, **kwargs)`. */
  function NewMessage(text: Arg, args: seq<Arg>, kwargs: map<string, Arg>): Message
  {
    Message(text, args, kwargs, Get(kwargs, "dscore"), Get(kwargs, "type"))
  }

  /** The special keywords are read but stay among the keywords that are
      handed to the format string, and nothing else is altered. */
  lemma NewMessageKeepsKeywords(text: Arg, args: seq<Arg>, kwargs: map<string, Arg>)
    ensures var m := NewMessage(text, args, kwargs);
            && m.text == text && m.args == args && m.kwargs == kwargs
            && (m.dscore.Some? <==> "dscore" in m.kwargs)
            && (m.dscore.Some? ==> m.kwargs["dscore"] == m.dscore.value)
            && (m.kind.Some? <==> "type" in m.kwargs)
            && (m.kind.Some? ==> m.kwargs["type"] == m.kind.value)
  {
  }

  const MissingTextMessage := "__init__() takes at least 2 arguments (1 given)"
  const RepeatedTextMessage := "__init__() got multiple values for keyword argument 'text'"

  /** The message `add_message(*args, **kwargs)` appends: a lone Message
      argument itself, otherwise a Message built from all the arguments,
      which Python refuses when the text is missing or given twice. */
  function MessageFor(args: seq<Arg>, kwargs: map<string, Arg>): (r: Result<Message>)
    ensures r.Err? <==> ((args == [] && "text" !in kwargs)
                         || (|args| > 1 && "text" in kwargs)
                         || (|args| == 1 && !args[0].Msg? && "text" in kwargs))
    ensures r.Err? ==> r.error.TypeError?
    ensures |args| == 1 && args[0].Msg? ==> r == Ok(args[0].message)
    ensures r.Ok? && !(|args| == 1 && args[0].Msg?) ==>
              r.value.args == (if args == [] then [] else args[1..])
              && r.value.text == (if args == [] then kwargs["text"] else args[0])
              && r.value.dscore == Get(kwargs, "dscore")
  {
    if |args| == 1 && args[0].Msg? then Ok(args[0].message)
    else if args == [] then
      if "text" in kwargs then Ok(NewMessage(kwargs["text"], [], kwargs - {"text"}))
      else Err(TypeError(MissingTextMessage))
    else if "text" in kwargs then Err(TypeError(RepeatedTextMessage))
    else Ok(NewMessage(args[0], args[1..], kwargs))
  }

  /** The fields of a `TestResult` at one moment. */
  datatype ResultValue = ResultValue(brief: Option<string>, score: Option<int>, maxScore: Option<int>,
                                     messages: seq<Message>, defaultMessage: Option<string>)

  /** `TestResult(brief, score, max_score, messages, default_message)`:
      omitted messages become an empty list. */
  function NewResult(brief: Option<string>, score: Option<int>, maxScore: Option<int>,
                     messages: Option<seq<Message>>, defaultMessage: Option<string>): ResultValue
  {
    ResultValue(brief, score, maxScore, if messages.Some? then messages.value else [], defaultMessage)
  }

  /** The result after `add_message` appended `m`. */
  function WithMessage(v: ResultValue, m: Message): ResultValue
  {
    v.(messages := v.messages + [m])
  }

  /** Python truth of an optional string: present and not empty. */
  predicate Truthy(s: Option<string>)
  {
    s.Some? && s.value != ""
  }

  /** The quick status: `"Score: %d"`, followed by `" out of %d"` for a
      maximum that is present and not 0. */
  function StatusLine(score: int, maxScore: Option<int>): string
  {
    "Score: " + IntToString(score)
    + (if maxScore.Some? && maxScore.value != 0 then " out of " + IntToString(maxScore.value) else "")
  }

  /** One `" * "` bullet per message, in order; `render` stands for
      `str(message)`, which formats the text with the arguments. */
  function Bullets(messages: seq<Message>, render: Message -> string): (r: seq<string>)
    ensures |r| == |messages|
    decreases |messages|
  {
    if messages == [] then []
    else Bullets(messages[..|messages| - 1], render) + [" * " + render(messages[|messages| - 1])]
  }

  function StatusSection(v: ResultValue): seq<string>
  {
    if v.score.Some? then [StatusLine(v.score.value, v.maxScore), ""] else []
  }

  function BriefSection(v: ResultValue): seq<string>
  {
    if Truthy(v.brief) then [v.brief.value, ""] else []
  }

  function MessageSection(v: ResultValue, render: Message -> string): seq<string>
  {
    if v.messages != [] then Bullets(v.messages, render) + [""]
    else if Truthy(v.defaultMessage) then [v.defaultMessage.value, ""]
    else []
  }

  /** The list `__str__` builds: each part followed by an empty line. */
  function Sections(v: ResultValue, render: Message -> string): seq<string>
  {
    StatusSection(v) + BriefSection(v) + MessageSection(v, render)
  }

  /** `result[:-1]`. */
  function DropLast(s: seq<string>): seq<string>
  {
    if s == [] then [] else s[..|s| - 1]
  }

  /** `str(result)`. */
  function Render(v: ResultValue, render: Message -> string): string
  {
    Join(DropLast(Sections(v, render)), "\n")
  }

  /** The paragraphs of the rendering: the status, the brief, then the
      bullets or, failing those, the default message. */
  function Paragraphs(v: ResultValue, render: Message -> string): seq<string>
  {
    (if v.score.Some? then [StatusLine(v.score.value, v.maxScore)] else [])
    + (if Truthy(v.brief) then [v.brief.value] else [])
    + (if v.messages != [] then [Join(Bullets(v.messages, render), "\n")]
       else if Truthy(v.defaultMessage) then [v.defaultMessage.value]
       else [])
  }

  /** Each group of lines followed by an empty line. */
  function Spaced(groups: seq<seq<string>>): seq<string>
    decreases |groups|
  {
    if groups == [] then [] else groups[0] + [""] + Spaced(groups[1..])
  }

  /** Each group of lines joined into one paragraph. */
  function JoinEach(groups: seq<seq<string>>): (r: seq<string>)
    ensures |r| == |groups|
    decreases |groups|
  {
    if groups == [] then [] else [Join(groups[0], "\n")] + JoinEach(groups[1..])
  }

  /** The three parts of the rendering as groups of lines. */
  function Groups(v: ResultValue, render: Message -> string): seq<seq<string>>
  {
    StatusGroup(v) + BriefGroup(v) + MessageGroup(v, render)
  }

  function StatusGroup(v: ResultValue): seq<seq<string>>
  {
    if v.score.Some? then [[StatusLine(v.score.value, v.maxScore)]] else []
  }

  function BriefGroup(v: ResultValue): seq<seq<string>>
  {
    if Truthy(v.brief) then [[v.brief.value]] else []
  }

  function MessageGroup(v: ResultValue, render: Message -> string): seq<seq<string>>
  {
    if v.messages != [] then [Bullets(v.messages, render)]
    else if Truthy(v.defaultMessage) then [[v.defaultMessage.value]]
    else []
  }

  lemma {:induction false} JoinAppend(a: seq<string>, b: seq<string>, sep: string)
    requires a != [] && b != []
    ensures Join(a + b, sep) == Join(a, sep) + sep + Join(b, sep)
    decreases |a|
  {
    if |a| == 1 {
      assert a + b == [a[0]] + b;
      assert (a + b)[1..] == b;
    } else {
      assert (a + b)[1..] == a[1..] + b;
      JoinAppend(a[1..], b, sep);
    }
  }

  lemma {:induction false} SpacedAppend(a: seq<seq<string>>, b: seq<seq<string>>)
    ensures Spaced(a + b) == Spaced(a) + Spaced(b)
    decreases |a|
  {
    if a == [] {
      AppendEmpty(a, b);
      AppendEmpty(Spaced(a), Spaced(b));
    } else {
      assert (a + b)[0] == a[0];
      assert (a + b)[1..] == a[1..] + b;
      SpacedAppend(a[1..], b);
    }
  }

  lemma {:induction false} JoinEachAppend(a: seq<seq<string>>, b: seq<seq<string>>)
    ensures JoinEach(a + b) == JoinEach(a) + JoinEach(b)
    decreases |a|
  {
    if a == [] {
      AppendEmpty(a, b);
      AppendEmpty(JoinEach(a), JoinEach(b));
    } else {
      assert (a + b)[0] == a[0];
      assert (a + b)[1..] == a[1..] + b;
      JoinEachAppend(a[1..], b);
    }
  }

  /** Dropping the last empty line of the spaced groups and joining by line
      breaks separates the paragraphs by one blank line. */
  lemma {:induction false} SpacedJoin(groups: seq<seq<string>>)
    requires forall i :: 0 <= i < |groups| ==> groups[i] != []
    ensures Join(DropLast(Spaced(groups)), "\n") == Join(JoinEach(groups), "\n\n")
    decreases |groups|
  {
    if groups == [] {
    } else if |groups| == 1 {
      assert Spaced(groups[1..]) == [];
      assert DropLast(Spaced(groups)) == groups[0];
      assert JoinEach(groups) == [Join(groups[0], "\n")];
    } else {
      var g := groups[0];
      var rest := Spaced(groups[1..]);
      assert |rest| >= 2;
      var d := rest[..|rest| - 1];
      assert DropLast(Spaced(groups)) == g + ([""] + d);
      SpacedJoin(groups[1..]);
      JoinAppend(g, [""] + d, "\n");
      assert ([""] + d)[1..] == d;
      var x := Join(JoinEach(groups[1..]), "\n\n");
      assert Join(JoinEach(groups), "\n\n") == Join(g, "\n") + "\n\n" + x;
      assert Join(g, "\n") + "\n" + ("" + "\n" + x) == Join(g, "\n") + "\n\n" + x;
    }
  }

  lemma SpacedSingle(groups: seq<seq<string>>)
    requires |groups| <= 1
    ensures Spaced(groups) == if groups == [] then [] else groups[0] + [""]
    ensures JoinEach(groups) == if groups == [] then [] else [Join(groups[0], "\n")]
  {
    if groups != [] {
      assert groups[1..] == [];
    }
  }

  lemma GroupSections(v: ResultValue, render: Message -> string)
    ensures Spaced(StatusGroup(v)) == StatusSection(v)
    ensures Spaced(BriefGroup(v)) == BriefSection(v)
    ensures Spaced(MessageGroup(v, render)) == MessageSection(v, render)
    ensures JoinEach(StatusGroup(v)) == (if v.score.Some? then [StatusLine(v.score.value, v.maxScore)] else [])
    ensures JoinEach(BriefGroup(v)) == (if Truthy(v.brief) then [v.brief.value] else [])
    ensures JoinEach(MessageGroup(v, render))
         == (if v.messages != [] then [Join(Bullets(v.messages, render), "\n")]
             else if Truthy(v.defaultMessage) then [v.defaultMessage.value]
             else [])
  {
    SpacedSingle(StatusGroup(v));
    SpacedSingle(BriefGroup(v));
    SpacedSingle(MessageGroup(v, render));
  }

  lemma {:induction false} SectionsSpaced(v: ResultValue, render: Message -> string)
    ensures Sections(v, render) == Spaced(Groups(v, render))
  {
    GroupSections(v, render);
    SpacedAppend(StatusGroup(v) + BriefGroup(v), MessageGroup(v, render));
    SpacedAppend(StatusGroup(v), BriefGroup(v));
  }

  lemma {:induction false} ParagraphsJoined(v: ResultValue, render: Message -> string)
    ensures Paragraphs(v, render) == JoinEach(Groups(v, render))
  {
    GroupSections(v, render);
    JoinEachAppend(StatusGroup(v) + BriefGroup(v), MessageGroup(v, render));
    JoinEachAppend(StatusGroup(v), BriefGroup(v));
  }

  /** Rendering separates the status, the brief and the messages (or the
      default message) by blank lines. */
  lemma {:induction false} RenderAsParagraphs(v: ResultValue, render: Message -> string)
    ensures Render(v, render) == Join(Paragraphs(v, render), "\n\n")
  {
    SectionsSpaced(v, render);
    ParagraphsJoined(v, render);
    SpacedJoin(Groups(v, render));
  }

  /** A result with no score, no brief, no messages and no default message. */
  predicate NothingSet(v: ResultValue)
  {
    v.score.None? && !Truthy(v.brief) && v.messages == [] && !Truthy(v.defaultMessage)
  }

  lemma JoinStartsWithFirst(parts: seq<string>, sep: string)
    requires parts != []
    ensures |Join(parts, sep)| >= |parts[0]|
  {
  }

  /** A result renders as the empty string exactly when nothing is set. */
  lemma {:induction false} RenderEmptyIff(v: ResultValue, render: Message -> string)
    ensures Render(v, render) == "" <==> NothingSet(v)
  {
    RenderAsParagraphs(v, render);
    var ps := Paragraphs(v, render);
    if NothingSet(v) {
      assert ps == [];
    } else {
      assert ps != [];
      if v.score.None? && !Truthy(v.brief) && v.messages != [] {
        var bs := Bullets(v.messages, render);
        assert bs[0] == " * " + render(v.messages[0]) by { BulletsFirst(v.messages, render); }
        JoinStartsWithFirst(bs, "\n");
      }
      assert ps[0] != "";
      JoinStartsWithFirst(ps, "\n\n");
    }
  }

  lemma {:induction false} BulletsFirst(messages: seq<Message>, render: Message -> string)
    requires messages != []
    ensures Bullets(messages, render)[0] == " * " + render(messages[0])
    decreases |messages|
  {
    if |messages| > 1 {
      var init := messages[..|messages| - 1];
      BulletsFirst(init, render);
      assert init[0] == messages[0];
    }
  }

  /** A maximum of 0 is shown exactly like a missing maximum. */
  lemma ZeroMaxScoreLikeNone(v: ResultValue, render: Message -> string)
    ensures Render(v.(maxScore := Some(0)), render) == Render(v.(maxScore := None), render)
  {
    assert Sections(v.(maxScore := Some(0)), render) == Sections(v.(maxScore := None), render);
  }

  /** Without a score the maximum is not shown at all. */
  lemma MaxScoreIgnoredWithoutScore(v: ResultValue, maxScore: Option<int>, render: Message -> string)
    requires v.score.None?
    ensures Render(v.(maxScore := maxScore), render) == Render(v, render)
  {
    assert Sections(v.(maxScore := maxScore), render) == Sections(v, render);
  }

  /** Once there are messages the default message is not shown. */
  lemma DefaultIgnoredWithMessages(v: ResultValue, defaultMessage: Option<string>, render: Message -> string)
    requires v.messages != []
    ensures Render(v.(defaultMessage := defaultMessage), render) == Render(v, render)
  {
    assert Sections(v.(defaultMessage := defaultMessage), render) == Sections(v, render);
  }

  /** With a score the rendering opens with the status line, followed by a
      blank line unless nothing else is shown. */
  lemma {:induction false} StatusComesFirst(v: ResultValue, render: Message -> string)
    requires v.score.Some?
    ensures var status := StatusLine(v.score.value, v.maxScore);
            Render(v, render) == status || status + "\n\n" <= Render(v, render)
  {
    RenderAsParagraphs(v, render);
    var ps := Paragraphs(v, render);
    assert ps[0] == StatusLine(v.score.value, v.maxScore);
    if |ps| > 1 {
      var status := ps[0];
      var tail := Join(ps[1..], "\n\n");
      assert Join(ps, "\n\n") == status + "\n\n" + tail;
      assert (status + "\n\n" + tail)[..|status + "\n\n"|] == status + "\n\n";
    }
  }

  lemma BulletsSnoc(messages: seq<Message>, m: Message, render: Message -> string)
    ensures Bullets(messages + [m], render) == Bullets(messages, render) + [" * " + render(m)]
  {
    assert (messages + [m])[..|messages|] == messages;
  }

  lemma BulletsStep(messages: seq<Message>, i: nat, render: Message -> string)
    requires i < |messages|
    ensures Bullets(messages[..i + 1], render) == Bullets(messages[..i], render) + [" * " + render(messages[i])]
  {
    assert messages[..i + 1][..i] == messages[..i];
  }

  lemma SnocAssoc<T>(a: seq<T>, b: seq<T>, x: T)
    ensures a + b + [x] == a + (b + [x])
  {
  }

  lemma DropLastSnoc(s: seq<string>, x: string)
    ensures DropLast(s + [x]) == s
  {
  }

  /** Adding a message to a result that already has messages adds one
      bullet line at the end of its rendering. */
  lemma {:induction false} AddedMessageIsLastBullet(v: ResultValue, m: Message, render: Message -> string)
    requires v.messages != []
    ensures Render(WithMessage(v, m), render) == Render(v, render) + "\n * " + render(m)
  {
    var w := WithMessage(v, m);
    var head := StatusSection(v) + BriefSection(v);
    var bs := Bullets(v.messages, render);
    var b := " * " + render(m);
    BulletsSnoc(v.messages, m, render);
    assert MessageSection(w, render) == (bs + [b]) + [""];
    assert StatusSection(w) + BriefSection(w) == head;
    Assoc(head, bs + [b], [""]);
    DropLastSnoc(head + (bs + [b]), "");
    Assoc(head, bs, [""]);
    DropLastSnoc(head + bs, "");
    Assoc(head, bs, [b]);
    JoinSnoc(head + bs, b, "\n");
    Assoc(Join(head + bs, "\n"), "\n", b);
  }

  lemma Assoc<T>(a: seq<T>, b: seq<T>, c: seq<T>)
    ensures a + (b + c) == a + b + c
  {
  }

  /** `TestResult`: a result whose message list grows in place. */
  class TestResult {
    var brief: Option<string>
    var score: Option<int>
    var maxScore: Option<int>
    var messages: seq<Message>
    var defaultMessage: Option<string>

    /** The fields as one value. */
    function Value(): ResultValue
      reads this
    {
      ResultValue(brief, score, maxScore, messages, defaultMessage)
    }

    /** Stores the fields as given; omitted messages become a fresh empty list. */
    constructor(brief: Option<string>, score: Option<int>, maxScore: Option<int>,
                messages: Option<seq<Message>>, defaultMessage: Option<string>)
      ensures Value() == NewResult(brief, score, maxScore, messages, defaultMessage)
      ensures messages.None? ==> this.messages == []
    {
      this.brief := brief;
      this.score := score;
      this.maxScore := maxScore;
      this.messages := if messages.Some? then messages.value else [];
      this.defaultMessage := defaultMessage;
    }

    /** `add_message`: appends exactly one message at the end and changes
        nothing else, or raises TypeError and changes nothing. */
    method AddMessage(args: seq<Arg>, kwargs: map<string, Arg>) returns (r: Result<()>)
      modifies this
      ensures r.Err? <==> MessageFor(args, kwargs).Err?
      ensures r.Err? ==> r.error == MessageFor(args, kwargs).error && Value() == old(Value())
      ensures r.Ok? ==> Value() == WithMessage(old(Value()), MessageFor(args, kwargs).value)
    {
      if |args| == 1 && args[0].Msg? {
        messages := messages + [args[0].message];
      } else {
        var text: Arg;
        var rest: seq<Arg>;
        var keywords := kwargs;
        if args == [] {
          if "text" !in kwargs {
            return Err(TypeError(MissingTextMessage));
          }
          text, rest := kwargs["text"], [];
          keywords := kwargs - {"text"};
        } else {
          if "text" in kwargs {
            return Err(TypeError(RepeatedTextMessage));
          }
          text, rest := args[0], args[1..];
        }
        messages := messages + [NewMessage(text, rest, keywords)];
      }
      return Ok(());
    }

    /** `__str__`: builds the list of lines part by part and joins all but
        its last entry with line breaks. */
    method ToString(render: Message -> string) returns (s: string)
      ensures s == Render(Value(), render)
    {
      ghost var v := Value();
      var result: seq<string> := [];
      if score.Some? {
        var quickStatus := "Score: " + IntToString(score.value);
        if maxScore.Some? && maxScore.value != 0 {
          quickStatus := quickStatus + " out of " + IntToString(maxScore.value);
        } else {
          AppendEmpty("", quickStatus);
        }
        assert quickStatus == StatusLine(score.value, maxScore);
        result := result + [quickStatus, ""];
      }
      if brief.Some? && brief.value != "" {
        result := result + [brief.value, ""];
      }
      ghost var head := result;
      assert head == StatusSection(v) + BriefSection(v) by {
        if StatusSection(v) == [] {
          AppendEmpty(StatusSection(v), BriefSection(v));
        }
        if BriefSection(v) == [] {
          AppendEmpty(BriefSection(v), StatusSection(v));
        }
      }
      if messages != [] {
        var i := 0;
        AppendEmpty(Bullets(messages[..0], render), head);
        while i < |messages|
          invariant i <= |messages|
          invariant result == head + Bullets(messages[..i], render)
        {
          BulletsStep(messages, i, render);
          SnocAssoc(head, Bullets(messages[..i], render), " * " + render(messages[i]));
          result := result + [" * " + render(messages[i])];
          i := i + 1;
        }
        TakeAll(messages);
        SnocAssoc(head, Bullets(messages, render), "");
        result := result + [""];
      } else if defaultMessage.Some? && defaultMessage.value != "" {
        result := result + [defaultMessage.value, ""];
        assert result == head + MessageSection(v, render);
      } else {
        AppendEmpty(MessageSection(v, render), head);
      }
      s := Join(DropLast(result), "\n");
    }
  }
}
