/** The server's log buffer (`Logger` in src/services/logger.ts): every
    logging call formats one message, adds it to a set of buffered messages
    and flushes the set once it holds `maxStackSize` messages. The date and
    the inspected form of an object are parameters; console output, the
    autosave timer and the process hooks are not modelled. */
module Logging {

  const MaxStackSize: nat := 128

  datatype Option<T> = None | Some(value: T)

  /** The four logging calls, `info`, `log`, `warn` and `err`. */
  datatype Level = Info | Log | Warn | Err

  /** The tag a level writes at the head of its messages. */
  function Tag(level: Level): (t: string)
    ensures t != [] && '|' !in t
  {
    match level
    case Info => "INFO"
    case Log => "LOG"
    case Warn => "WARN"
    case Err => "ERR"
  }

  /** The level whose tag is `t`, if any. */
  function LevelOfTag(t: string): (r: Option<Level>)
    ensures r.Some? ==> Tag(r.value) == t
  {
    if t == "INFO" then Some(Info)
    else if t == "LOG" then Some(Log)
    else if t == "WARN" then Some(Warn)
    else if t == "ERR" then Some(Err)
    else None
  }

  /** Every tag is read back as the level that wrote it. */
  lemma LevelOfTagInverts(level: Level)
    ensures LevelOfTag(Tag(level)) == Some(level)
  {
  }

  /** What is logged: a primitive, in its string form, or an object, given
      by the text `util.inspect` renders for it. */
  datatype Content = Primitive(text: string) | Object(inspected: string)

  /** `prepareContent`: a primitive is logged as it is, an object on a line
      of its own. */
  function PrepareContent(content: Content): (r: string)
    ensures content.Primitive? ==> r == content.text
    ensures content.Object? ==> |r| == |content.inspected| + 1 && r[0] == '\n' && r[1..] == content.inspected
  {
    match content
    case Primitive(text) => text
    case Object(inspected) => "\n" + inspected
  }

  /** The formatted message `[TAG|date]\tcontent`. */
  function Message(level: Level, date: string, content: Content): string
  {
    "[" + Tag(level) + "|" + date + "]\t" + PrepareContent(content)
  }

  /** A message taken apart again. */
  datatype Entry = Entry(level: Level, date: string, text: string)

  /** The index of the first `c` in `s`, or `|s|` when there is none. */
  function FindChar(s: string, c: char): (i: nat)
    ensures i <= |s|
    ensures i < |s| ==> s[i] == c
    ensures forall j :: 0 <= j < i ==> s[j] != c
  {
    if s == [] then 0
    else if s[0] == c then 0
    else 1 + FindChar(s[1..], c)
  }

  /** A `c` that follows a stretch free of `c` is found right after it. */
  lemma {:induction false} FindCharAfter(a: string, c: char, b: string)
    requires c !in a
    ensures FindChar(a + [c] + b, c) == |a|
  {
    if a != [] {
      assert (a + [c] + b)[1..] == a[1..] + [c] + b;
      FindCharAfter(a[1..], c, b);
    }
  }

  /** `s` cut at its first `c`, or `None` when `s` holds no `c`. */
  function SplitAt(s: string, c: char): (r: Option<(string, string)>)
    ensures r.Some? ==> c !in r.value.0 && s == r.value.0 + [c] + r.value.1
    ensures r.None? ==> c !in s
  {
    var i := FindChar(s, c);
    if i == |s| then None
    else
      assert s == s[..i] + [c] + s[i + 1..];
      Some((s[..i], s[i + 1..]))
  }

  lemma SplitAtFirst(a: string, c: char, b: string)
    requires c !in a
    ensures SplitAt(a + [c] + b, c) == Some((a, b))
  {
    var s := a + [c] + b;
    FindCharAfter(a, c, b);
    assert s[..|a|] == a && s[|a| + 1..] == b;
  }

  /** Reads a message back into its level, its date and the prepared
      content that follows the tab. */
  function ParseMessage(m: string): Option<Entry>
  {
    if m == [] || m[0] != '[' then None
    else
      match SplitAt(m[1..], '|')
      case None => None
      case Some(cut) => ParseAfterTag(cut.0, cut.1)
  }

  /** Reads the date and the content that follow the tag and its '|'. */
  function ParseAfterTag(tag: string, after: string): Option<Entry>
  {
    match SplitAt(after, ']')
    case None => None
    case Some(cut) =>
      var tail := cut.1;
      if tail == [] || tail[0] != '\t' || LevelOfTag(tag).None? then None
      else Some(Entry(LevelOfTag(tag).value, cut.0, tail[1..]))
  }

  /** Whatever is read back forms the message it was read from again. */
  lemma ParseMessageSound(m: string)
    requires ParseMessage(m).Some?
    ensures var e := ParseMessage(m).value;
      Message(e.level, e.date, Primitive(e.text)) == m
  {
    var e := ParseMessage(m).value;
    MessageShape(e.level, e.date, Primitive(e.text));
    ParseMessageFields(m);
  }

  /** A message that is read back has the shape of a formatted message. */
  lemma ParseMessageFields(m: string)
    requires ParseMessage(m).Some?
    ensures var e := ParseMessage(m).value;
      m == ['['] + (Tag(e.level) + ['|'] + (e.date + [']'] + (['\t'] + e.text)))
  {
    var cut := SplitAt(m[1..], '|').value;
    ParseAfterTagFields(cut.0, cut.1);
    assert m == ['['] + m[1..];
  }

  lemma ParseAfterTagFields(tag: string, after: string)
    requires ParseAfterTag(tag, after).Some?
    ensures var e := ParseAfterTag(tag, after).value;
      Tag(e.level) == tag && after == e.date + [']'] + (['\t'] + e.text)
  {
    var cut := SplitAt(after, ']').value;
    var tail := cut.1;
    assert tail == ['\t'] + tail[1..];
  }

  /** The message with its separators grouped from the right. */
  lemma MessageShape(level: Level, date: string, content: Content)
    ensures Message(level, date, content) ==
      ['['] + (Tag(level) + ['|'] + (date + [']'] + (['\t'] + PrepareContent(content))))
  {
    var t, p := Tag(level), PrepareContent(content);
    assert "]\t" + p == [']'] + (['\t'] + p);
    assert date + "]\t" + p == date + [']'] + (['\t'] + p);
    assert "|" + date + "]\t" + p == ['|'] + (date + [']'] + (['\t'] + p));
    assert t + "|" + date + "]\t" + p == t + ['|'] + (date + [']'] + (['\t'] + p));
  }

  /** A message whose date holds no ']' is read back as the level, date and
      prepared content that formed it. */
  lemma ParseMessageInverts(level: Level, date: string, content: Content)
    requires ']' !in date
    ensures ParseMessage(Message(level, date, content)) == Some(Entry(level, date, PrepareContent(content)))
  {
    var m := Message(level, date, content);
    var tag, text := Tag(level), PrepareContent(content);
    var after := date + [']'] + (['\t'] + text);
    MessageShape(level, date, content);
    assert m[1..] == tag + ['|'] + after;
    SplitAtFirst(tag, '|', after);
    ParseAfterTagInverts(level, date, text);
  }

  lemma ParseAfterTagInverts(level: Level, date: string, text: string)
    requires ']' !in date
    ensures ParseAfterTag(Tag(level), date + [']'] + (['\t'] + text)) == Some(Entry(level, date, text))
  {
    var tail := ['\t'] + text;
    SplitAtFirst(date, ']', tail);
    assert tail[1..] == text;
    LevelOfTagInverts(level);
  }

  /** Messages of different levels, dates or contents differ, so none of
      them is lost to the set merging it with another. */
  lemma MessageDeterminesItsParts(l1: Level, d1: string, c1: Content, l2: Level, d2: string, c2: Content)
    requires ']' !in d1 && ']' !in d2
    requires Message(l1, d1, c1) == Message(l2, d2, c2)
    ensures l1 == l2 && d1 == d2 && PrepareContent(c1) == PrepareContent(c2)
  {
    ParseMessageInverts(l1, d1, c1);
    ParseMessageInverts(l2, d2, c2);
  }

  /** The buffer after adding `msg` to `stack` and running the flush check. */
  function Buffered(stack: set<string>, msg: string): (r: set<string>)
    ensures |r| < MaxStackSize
    ensures r == {} <==> |stack + {msg}| >= MaxStackSize
    ensures r != {} ==> r == stack + {msg}
  {
    var added := stack + {msg};
    if |added| >= MaxStackSize then {} else added
  }

  /** A message already buffered leaves the buffer as it is. */
  lemma DuplicateDoesNotGrow(stack: set<string>, msg: string)
    requires msg in stack && |stack| < MaxStackSize
    ensures Buffered(stack, msg) == stack
  {
    assert stack + {msg} == stack;
  }

  /** A new message added to a buffer one short of the limit flushes it. */
  lemma NewMessageAtLimitFlushes(stack: set<string>, msg: string)
    requires msg !in stack && |stack| == MaxStackSize - 1
    ensures Buffered(stack, msg) == {}
  {
  }

  /** The buffer after a sequence of logging calls. */
  function BufferedAll(stack: set<string>, msgs: seq<string>): set<string>
    decreases |msgs|
  {
    if msgs == [] then stack else BufferedAll(Buffered(stack, msgs[0]), msgs[1..])
  }

  /** After any sequence of calls the buffer holds fewer than `maxStackSize`
      messages, starting from any buffer within that bound. */
  lemma {:induction false} BufferedAllStaysBelowLimit(stack: set<string>, msgs: seq<string>)
    requires |stack| < MaxStackSize
    ensures |BufferedAll(stack, msgs)| < MaxStackSize
    decreases |msgs|
  {
    if msgs != [] {
      BufferedAllStaysBelowLimit(Buffered(stack, msgs[0]), msgs[1..]);
    }
  }

  lemma SubsetCard(a: set<string>, b: set<string>)
    requires a <= b
    ensures |a| <= |b|
  {
    assert b == a + (b - a);
  }

  /** While fewer than `maxStackSize` distinct messages are involved, no
      flush happens and the buffer holds every message logged. */
  lemma {:induction false} NoLossBelowLimit(stack: set<string>, msgs: seq<string>)
    requires |stack + set m | m in msgs| < MaxStackSize
    ensures BufferedAll(stack, msgs) == stack + set m | m in msgs
    decreases |msgs|
  {
    if msgs != [] {
      var next := stack + {msgs[0]};
      assert next + (set m | m in msgs[1..]) == stack + set m | m in msgs;
      SubsetCard(next, stack + set m | m in msgs);
      NoLossBelowLimit(next, msgs[1..]);
    }
  }

  /** The logger object; `stack` is the set of buffered messages. */
  class Logger {
    var stack: set<string>

    constructor()
      ensures stack == {}
    {
      stack := {};
    }

    /** The body each logging call shares: add the formatted message, then
        run the flush check. */
    method Record(level: Level, date: string, content: Content)
      modifies this
      ensures stack == Buffered(old(stack), Message(level, date, content))
      ensures |stack| < MaxStackSize
    {
      stack := stack + {Message(level, date, content)};
      ShouldWrite();
    }

    method LogInfo(date: string, content: Content)
      modifies this
      ensures stack == Buffered(old(stack), Message(Info, date, content))
      ensures |stack| < MaxStackSize
    {
      Record(Info, date, content);
    }

    method LogLog(date: string, content: Content)
      modifies this
      ensures stack == Buffered(old(stack), Message(Log, date, content))
      ensures |stack| < MaxStackSize
    {
      Record(Log, date, content);
    }

    method LogWarn(date: string, content: Content)
      modifies this
      ensures stack == Buffered(old(stack), Message(Warn, date, content))
      ensures |stack| < MaxStackSize
    {
      Record(Warn, date, content);
    }

    method LogErr(date: string, content: Content)
      modifies this
      ensures stack == Buffered(old(stack), Message(Err, date, content))
      ensures |stack| < MaxStackSize
    {
      Record(Err, date, content);
    }

    /** `shouldWrite`: flushes once the buffer has reached its limit. */
    method ShouldWrite()
      modifies this
      ensures old(|stack|) >= MaxStackSize ==> stack == {}
      ensures old(|stack|) < MaxStackSize ==> stack == old(stack)
      ensures |stack| < MaxStackSize
    {
      if |stack| >= MaxStackSize {
        WriteToLog();
      }
    }

    /** `writeToLog`: empties the buffer. */
    method WriteToLog()
      modifies this
      ensures stack == {}
    {
      stack := {};
    }
  }
}
