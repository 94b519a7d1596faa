/** The indented tag writer of JRobin (class `XmlWriter`, package `jrobin.core`).

    The writer keeps a stack of open tag names and an indent that grows by three spaces when a tag
    opens and shrinks by three spaces when it closes. Every call prints one line. The output
    stream is modelled as the sequence of lines printed so far. */
module XmlWriting {
  import opened Wrappers

  /** `INDENT_STR`: the indentation added per open tag. */
  const INDENT_STR: string := "   "

  /** Java's `int` and `long`. */
  newtype int32 = x: int | -0x8000_0000 <= x < 0x8000_0000
  newtype int64 = x: int | -0x8000_0000_0000_0000 <= x < 0x8000_0000_0000_0000

  /** A string of spaces only. */
  predicate Blank(s: string) {
    forall k :: 0 <= k < |s| ==> s[k] == ' '
  }

  /** The number of spaces a line starts with. */
  function LeadingSpaces(s: string): nat {
    if s != [] && s[0] == ' ' then 1 + LeadingSpaces(s[1..]) else 0
  }

  /** The indent at nesting depth `depth`: three spaces per level. */
  function Indentation(depth: nat): (s: string)
    ensures |s| == 3 * depth && Blank(s)
  {
    if depth == 0 then "" else Indentation(depth - 1) + INDENT_STR
  }

  /** A blank prefix followed by text that does not start with a space: the leading spaces are
      exactly the prefix. */
  lemma {:induction false} LeadingSpacesOfIndented(indent: string, text: string)
    ensures Blank(indent) && text != [] && text[0] != ' ' ==> LeadingSpaces(indent + text) == |indent|
  {
    if !(Blank(indent) && text != [] && text[0] != ' ') {
    } else if indent != [] {
      assert (indent + text)[1..] == indent[1..] + text;
      LeadingSpacesOfIndented(indent[1..], text);
    } else {
      assert indent + text == text;
    }
  }

  // ---------------------------------------------------------------------------------------------
  // The lines the writer prints. Each one is the indent followed by markup that starts with `<`,
  // so a blank indent can be read back off the line.

  function StartLine(indent: string, tag: string): (line: string)
    ensures |line| == |indent| + |tag| + 2 && line[..|indent|] == indent
    ensures Blank(indent) ==> LeadingSpaces(line) == |indent|
  {
    var markup := "<" + tag + ">";
    LeadingSpacesOfIndented(indent, markup);
    indent + markup
  }

  function CloseLine(indent: string, tag: string): (line: string)
    ensures |line| == |indent| + |tag| + 3 && line[..|indent|] == indent
    ensures Blank(indent) ==> LeadingSpaces(line) == |indent|
  {
    var markup := "</" + tag + ">";
    LeadingSpacesOfIndented(indent, markup);
    indent + markup
  }

  function ElementLine(indent: string, tag: string, value: string): (line: string)
    ensures |line| == |indent| + 2 * |tag| + |value| + 5 && line[..|indent|] == indent
    ensures Blank(indent) ==> LeadingSpaces(line) == |indent|
  {
    var markup := "<" + tag + ">" + value + "</" + tag + ">";
    LeadingSpacesOfIndented(indent, markup);
    indent + markup
  }

  function CommentLine(indent: string, comment: string): (line: string)
    ensures |line| == |indent| + |comment| + 9 && line[..|indent|] == indent
    ensures Blank(indent) ==> LeadingSpaces(line) == |indent|
  {
    var markup := "<!-- " + comment + " -->";
    LeadingSpacesOfIndented(indent, markup);
    indent + markup
  }

  // ---------------------------------------------------------------------------------------------
  // The tag stack (inner class `Stack`)

  /** `push`: the tag goes on top, at the end of the list. */
  function StackPush(items: seq<string>, tag: string): (r: seq<string>)
    ensures |r| == |items| + 1 && r[..|items|] == items && r[|items|] == tag
  {
    items + [tag]
  }

  /** `pop`: the top tag and the stack without it; `null` (None) and no change when empty. */
  function StackPop(items: seq<string>): (r: (Option<string>, seq<string>))
    ensures items == [] ==> r == (None, [])
    ensures items != [] ==> r.0 == Some(items[|items| - 1]) && r.1 + [items[|items| - 1]] == items
  {
    if items == [] then (None, []) else (Some(items[|items| - 1]), items[..|items| - 1])
  }

  /** `pop` undoes `push`. */
  lemma PushThenPop(items: seq<string>, tag: string)
    ensures StackPop(StackPush(items, tag)) == (Some(tag), items)
  {
    assert StackPush(items, tag)[..|items|] == items;
  }

  class TagStack {
    var items: seq<string>

    constructor ()
      ensures items == []
    {
      items := [];
    }

    method Push(tag: string)
      modifies this
      ensures items == StackPush(old(items), tag)
    {
      items := items + [tag];
    }

    method Pop() returns (tag: Option<string>)
      modifies this
      ensures (tag, items) == StackPop(old(items))
    {
      var last := |items| - 1;
      if last >= 0 {
        tag := Some(items[last]);
        items := items[..last];
        return;
      }
      tag := None;
    }
  }

  // ---------------------------------------------------------------------------------------------
  // The writer's state and the effect of each call on it

  /** The indent buffer, the open tags (bottom first) and the lines printed so far. */
  datatype WriterState = WriterState(indent: string, openTags: seq<string>, lines: seq<string>)

  /** The writer's invariant: the indent is three spaces per open tag. */
  predicate WellIndented(st: WriterState) {
    st.indent == Indentation(|st.openTags|)
  }

  /** The calls that change the writer: `startTag`, `closeTag`, `writeTag` (with the value already
      turned into text) and `writeComment`. */
  datatype Op = Open(tag: string) | Close | Element(tag: string, value: string) | Comment(text: string)

  /** The writer after one call, or None when the call throws: `closeTag` with no open tag pops
      `null` and then asks for a negative indent length. Every call that succeeds appends exactly
      one line and keeps the invariant; `writeTag` and `writeComment` leave the stack and the indent
      alone. */
  function Apply(st: WriterState, op: Op): (r: Option<WriterState>)
    requires WellIndented(st)
    ensures r.None? <==> op.Close? && st.openTags == []
    ensures r.Some? ==> WellIndented(r.value)
    ensures r.Some? ==> |r.value.lines| == |st.lines| + 1 && r.value.lines[..|st.lines|] == st.lines
    ensures r.Some? && (op.Element? || op.Comment?) ==>
      r.value.indent == st.indent && r.value.openTags == st.openTags
  {
    match op
    case Open(tag) =>
      Some(WriterState(st.indent + INDENT_STR, StackPush(st.openTags, tag), st.lines + [StartLine(st.indent, tag)]))
    case Close =>
      var (popped, rest) := StackPop(st.openTags);
      if |st.indent| < |INDENT_STR| then None
      else
        var indent := st.indent[..|st.indent| - |INDENT_STR|];
        Some(WriterState(indent, rest, st.lines + [CloseLine(indent, popped.value)]))
    case Element(tag, value) =>
      Some(st.(lines := st.lines + [ElementLine(st.indent, tag, value)]))
    case Comment(text) =>
      Some(st.(lines := st.lines + [CommentLine(st.indent, text)]))
  }

  /** The line a call prints starts with three spaces per tag open around it: the depth before
      the call for `startTag`, `writeTag` and `writeComment`, and the depth after it for
      `closeTag`. */
  lemma LineShowsDepth(st: WriterState, op: Op)
    requires WellIndented(st) && Apply(st, op).Some?
    ensures LeadingSpaces(Apply(st, op).value.lines[|st.lines|])
         == 3 * (if op.Close? then |st.openTags| - 1 else |st.openTags|)
  {
    var after := Apply(st, op).value;
    if op.Close? {
      assert after.lines[|st.lines|] == CloseLine(after.indent, st.openTags[|st.openTags| - 1]);
    }
  }

  /** The writer after a sequence of calls, or None if one of them throws. Output is only ever
      appended. */
  function Run(st: WriterState, ops: seq<Op>): (r: Option<WriterState>)
    requires WellIndented(st)
    ensures r.Some? ==> WellIndented(r.value)
    ensures r.Some? ==> |st.lines| <= |r.value.lines| && r.value.lines[..|st.lines|] == st.lines
    decreases |ops|
  {
    if ops == [] then Some(st)
    else match Apply(st, ops[0])
      case None => None
      case Some(next) => Run(next, ops[1..])
  }

  /** Running `p + q` is running `p` and then `q`. */
  lemma {:induction false} RunAppend(st: WriterState, p: seq<Op>, q: seq<Op>)
    requires WellIndented(st)
    ensures Run(st, p + q) == match Run(st, p) case None => None case Some(mid) => Run(mid, q)
    decreases |p|
  {
    if p == [] {
      assert p + q == q;
    } else {
      assert (p + q)[0] == p[0] && (p + q)[1..] == p[1..] + q;
      match Apply(st, p[0])
      case None =>
      case Some(next) => RunAppend(next, p[1..], q);
    }
  }

  /** How a call changes the nesting depth. */
  function Change(op: Op): int {
    match op
    case Open(_) => 1
    case Close => -1
    case _ => 0
  }

  /** The change of nesting depth over a sequence of calls. */
  function Net(ops: seq<Op>): int {
    if ops == [] then 0 else Change(ops[0]) + Net(ops[1..])
  }

  /** Running `ops` never closes more than `open` tags beyond those it opens itself. */
  predicate ClosesAtMost(ops: seq<Op>, open: int) {
    open >= 0 && (ops == [] || ClosesAtMost(ops[1..], open + Change(ops[0])))
  }

  /** What a call that does not throw does to the stack of open tags. */
  lemma ApplyTags(st: WriterState, op: Op)
    requires WellIndented(st) && (op.Close? ==> st.openTags != [])
    ensures Apply(st, op).Some?
    ensures Apply(st, op).value.openTags == match op
      case Open(tag) => st.openTags + [tag]
      case Close => st.openTags[..|st.openTags| - 1]
      case _ => st.openTags
  {
  }

  /** A call that does not throw keeps the bottom `m` open tags, as long as it does not pop one of
      them. */
  lemma ApplyKeepsBottom(st: WriterState, op: Op, m: nat)
    requires WellIndented(st) && m <= |st.openTags| && (op.Close? ==> m < |st.openTags|)
    ensures Apply(st, op).Some?
    ensures |Apply(st, op).value.openTags| == |st.openTags| + Change(op)
    ensures Apply(st, op).value.openTags[..m] == st.openTags[..m]
  {
    ApplyTags(st, op);
  }

  /** `startTag(tag)` prints `<tag>` at the current indent, then pushes and indents. */
  lemma OpenStep(st: WriterState, tag: string)
    requires WellIndented(st)
    ensures Apply(st, Open(tag))
         == Some(WriterState(st.indent + INDENT_STR, st.openTags + [tag], st.lines + [StartLine(st.indent, tag)]))
  {
  }

  /** `closeTag()` with a tag open pops it, unindents and prints the close tag at the new indent. */
  lemma CloseStep(st: WriterState)
    requires WellIndented(st) && st.openTags != []
    ensures |st.indent| >= |INDENT_STR|
    ensures var indent := st.indent[..|st.indent| - |INDENT_STR|];
      Apply(st, Close) == Some(WriterState(indent, st.openTags[..|st.openTags| - 1],
                                           st.lines + [CloseLine(indent, st.openTags[|st.openTags| - 1])]))
  {
  }

  /** Running a non-empty sequence whose first call succeeds. */
  lemma RunStep(st: WriterState, ops: seq<Op>)
    requires WellIndented(st) && ops != [] && Apply(st, ops[0]).Some?
    ensures Run(st, ops) == Run(Apply(st, ops[0]).value, ops[1..])
  {
  }

  /** Running a single call. */
  lemma RunOne(st: WriterState, op: Op)
    requires WellIndented(st)
    ensures Run(st, [op]) == Apply(st, op)
  {
    if Apply(st, op).Some? {
      RunStep(st, [op]);
      assert [op][1..] == [];
    }
  }

  /** Running two calls that both succeed. */
  lemma RunTwo(st: WriterState, first: Op, second: Op)
    requires WellIndented(st) && Apply(st, first).Some? && Apply(Apply(st, first).value, second).Some?
    ensures Run(st, [first, second]) == Apply(Apply(st, first).value, second)
  {
    var mid := Apply(st, first).value;
    RunStep(st, [first, second]);
    assert [first, second][1..] == [second];
    RunStep(mid, [second]);
    assert [second][1..] == [];
  }

  /** Splitting the first call off a sequence that closes at most `open` tags it did not open. */
  lemma FirstCall(ops: seq<Op>, open: int)
    requires ops != [] && ClosesAtMost(ops, open)
    ensures open + Change(ops[0]) >= 0 && (ops[0].Close? ==> open >= 1)
    ensures ClosesAtMost(ops[1..], open + Change(ops[0]))
    ensures Net(ops) == Change(ops[0]) + Net(ops[1..])
  {
  }

  /** A sequence of calls that closes at most `allowance` of the tags already open succeeds, changes
      the depth by `Net(ops)` and leaves the tags below those `allowance` untouched. */
  lemma {:induction false} RunKeepsOuterTags(st: WriterState, ops: seq<Op>, allowance: nat)
    requires WellIndented(st) && allowance <= |st.openTags| && ClosesAtMost(ops, allowance)
    ensures allowance + Net(ops) >= 0
    ensures Run(st, ops).Some?
    ensures |Run(st, ops).value.openTags| == |st.openTags| + Net(ops)
    ensures Run(st, ops).value.openTags[..|st.openTags| - allowance] == st.openTags[..|st.openTags| - allowance]
    decreases |ops|
  {
    if ops != [] {
      var m := |st.openTags| - allowance;
      var after := allowance + Change(ops[0]);
      FirstCall(ops, allowance);
      ApplyKeepsBottom(st, ops[0], m);
      RunStep(st, ops);
      RunKeepsOuterTags(Apply(st, ops[0]).value, ops[1..], after);
    }
  }

  /** `startTag(t)` and then `closeTag()` restore the stack and the indent and print `<t>` and
      `</t>` at the same indentation. */
  lemma OpenThenClose(st: WriterState, tag: string)
    requires WellIndented(st)
    ensures Run(st, [Open(tag), Close])
         == Some(WriterState(st.indent, st.openTags, st.lines + [StartLine(st.indent, tag), CloseLine(st.indent, tag)]))
  {
    var afterOpen := WriterState(st.indent + INDENT_STR, st.openTags + [tag], st.lines + [StartLine(st.indent, tag)]);
    OpenStep(st, tag);
    CloseAfterOpen(st, tag);
    RunTwo(st, Open(tag), Close);
  }

  /** The `closeTag()` half of `OpenThenClose`. */
  lemma CloseAfterOpen(st: WriterState, tag: string)
    requires WellIndented(st)
    ensures var afterOpen := WriterState(st.indent + INDENT_STR, st.openTags + [tag], st.lines + [StartLine(st.indent, tag)]);
      && WellIndented(afterOpen)
      && Apply(afterOpen, Close)
         == Some(WriterState(st.indent, st.openTags, st.lines + [StartLine(st.indent, tag), CloseLine(st.indent, tag)]))
  {
    var afterOpen := WriterState(st.indent + INDENT_STR, st.openTags + [tag], st.lines + [StartLine(st.indent, tag)]);
    CloseStep(afterOpen);
    assert afterOpen.indent[..|afterOpen.indent| - |INDENT_STR|] == st.indent;
    assert afterOpen.openTags[..|afterOpen.openTags| - 1] == st.openTags;
    assert afterOpen.lines + [CloseLine(st.indent, tag)] == st.lines + [StartLine(st.indent, tag), CloseLine(st.indent, tag)];
  }

  /** A balanced sequence of calls (one that closes only tags it opened and opens as many as it
      closes) succeeds and restores the stack and the indent; it only appends output. */
  lemma BalancedBody(st: WriterState, body: seq<Op>)
    requires WellIndented(st) && ClosesAtMost(body, 0) && Net(body) == 0
    ensures Run(st, body).Some?
    ensures Run(st, body).value.openTags == st.openTags && Run(st, body).value.indent == st.indent
  {
    RunKeepsOuterTags(st, body, 0);
    var after := Run(st, body).value;
    assert after.openTags[..|st.openTags|] == after.openTags;
  }

  /** A start tag and the close tag that matches it, with a balanced body between them (one that
      closes only tags it opened and opens as many as it closes), are printed at the same indentation
      and restore the stack and the indent. */
  lemma MatchingTagsShareIndent(st: WriterState, tag: string, body: seq<Op>)
    requires WellIndented(st) && ClosesAtMost(body, 0) && Net(body) == 0
    ensures var r := Run(st, [Open(tag)] + body + [Close]);
      && r.Some?
      && r.value.openTags == st.openTags
      && r.value.indent == st.indent
      && r.value.lines[|st.lines|] == StartLine(st.indent, tag)
      && r.value.lines[|r.value.lines| - 1] == CloseLine(st.indent, tag)
  {
    var afterOpen := WriterState(st.indent + INDENT_STR, st.openTags + [tag], st.lines + [StartLine(st.indent, tag)]);
    OpenStep(st, tag);
    RunOne(st, Open(tag));
    BalancedBody(afterOpen, body);
    var inner := Run(afterOpen, body).value;
    CloseStep(inner);
    RunOne(inner, Close);
    var closed := Apply(inner, Close).value;
    assert Run(st, [Open(tag)] + body) == Some(inner) by {
      RunAppend(st, [Open(tag)], body);
    }
    assert Run(st, [Open(tag)] + body + [Close]) == Some(closed) by {
      RunAppend(st, [Open(tag)] + body, [Close]);
    }
    assert inner.indent[..|inner.indent| - |INDENT_STR|] == st.indent;
    assert closed.openTags == st.openTags;
    assert inner.lines[..|afterOpen.lines|] == afterOpen.lines;
    assert closed.lines[|st.lines|] == inner.lines[|st.lines|] == afterOpen.lines[|st.lines|];
  }

  // ---------------------------------------------------------------------------------------------
  // `"" + value` for int and long values

  predicate IsDigit(c: char) {
    '0' <= c <= '9'
  }

  function DigitChar(d: nat): (c: char)
    requires d < 10
    ensures IsDigit(c)
  {
    ('0' as int + d) as char
  }

  /** The decimal digits of `n`, without leading zeros. */
  function NaturalString(n: nat): (s: string)
    ensures |s| >= 1
    ensures AllDigits(s)
    ensures s[0] == '0' ==> n == 0
  {
    if n < 10 then [DigitChar(n)] else NaturalString(n / 10) + [DigitChar(n % 10)]
  }

  /** Java's decimal rendering of an integer: a minus sign for negative values, then the digits. */
  function DecimalString(n: int): (s: string)
    ensures |s| >= 1 && (s[0] == '-' <==> n < 0)
    ensures n >= 0 ==> AllDigits(s)
    ensures n < 0 ==> |s| >= 2 && AllDigits(s[1..])
  {
    if n < 0 then "-" + NaturalString(-n) else NaturalString(n)
  }

  predicate AllDigits(s: string) {
    forall k :: 0 <= k < |s| ==> IsDigit(s[k])
  }

  /** The number a string of decimal digits denotes. */
  function DigitsValue(s: string): nat
    requires AllDigits(s)
  {
    if s == [] then 0
    else
      assert IsDigit(s[|s| - 1]);
      DigitsValue(s[..|s| - 1]) * 10 + (s[|s| - 1] as int - '0' as int)
  }

  /** Reads back an optionally signed decimal integer. */
  function ParseDecimal(s: string): Option<int> {
    if |s| > 1 && s[0] == '-' && AllDigits(s[1..]) then
      var magnitude: int := DigitsValue(s[1..]);
      Some(-magnitude)
    else if |s| > 0 && AllDigits(s) then Some(DigitsValue(s))
    else None
  }

  lemma {:induction false} NaturalRoundTrip(n: nat)
    ensures DigitsValue(NaturalString(n)) == n
  {
    if n >= 10 {
      NaturalRoundTrip(n / 10);
      var s := NaturalString(n);
      assert s[..|s| - 1] == NaturalString(n / 10);
    }
  }

  /** The decimal rendering of an integer reads back as that integer. */
  lemma DecimalRoundTrip(n: int)
    ensures ParseDecimal(DecimalString(n)) == Some(n)
  {
    var s := DecimalString(n);
    if n < 0 {
      NaturalRoundTrip(-n);
      assert s[1..] == NaturalString(-n);
      assert |s| > 1 && s[0] == '-' && AllDigits(s[1..]);
    } else {
      NaturalRoundTrip(n);
      assert IsDigit(s[0]) && AllDigits(s);
    }
  }

  // ---------------------------------------------------------------------------------------------
  // The writer

  class XmlWriter {
    /** The output stream, as the lines printed to it. */
    var lines: seq<string>
    var indent: string
    const openTags: TagStack

    function State(): WriterState
      reads this, openTags
    {
      WriterState(indent, openTags.items, lines)
    }

    ghost predicate Valid()
      reads this, openTags
    {
      WellIndented(State())
    }

    /** A writer over a stream that has nothing printed on it yet. */
    constructor ()
      ensures Valid() && fresh(openTags)
      ensures State() == WriterState("", [], [])
    {
      lines := [];
      indent := "";
      openTags := new TagStack();
    }

    /** `startTag`: print `<tag>`, push the tag, indent one level deeper. */
    method StartTag(tag: string)
      requires Valid()
      modifies this, openTags
      ensures Valid()
      ensures Apply(old(State()), Open(tag)) == Some(State())
      ensures lines == old(lines) + [StartLine(old(indent), tag)]
      ensures openTags.items == old(openTags.items) + [tag]
      ensures indent == old(indent) + INDENT_STR
    {
      lines := lines + [StartLine(indent, tag)];
      openTags.Push(tag);
      indent := indent + INDENT_STR;
    }

    /** `closeTag`: pop the innermost open tag, indent one level less, print `</tag>`. With no open
        tag the Java method throws (the indent length would become negative); then `ok` is false and
        nothing changes. */
    method CloseTag() returns (ok: bool)
      requires Valid()
      modifies this, openTags
      ensures Valid()
      ensures ok <==> old(openTags.items) != []
      ensures ok ==> Apply(old(State()), Close) == Some(State())
      ensures ok ==> && openTags.items == old(openTags.items)[..|old(openTags.items)| - 1]
                     && indent == old(indent)[..|old(indent)| - |INDENT_STR|]
                     && lines == old(lines) + [CloseLine(indent, old(openTags.items)[|old(openTags.items)| - 1])]
      ensures !ok ==> State() == old(State())
    {
      var tag := openTags.Pop();
      if |indent| < |INDENT_STR| {
        return false;
      }
      indent := indent[..|indent| - |INDENT_STR|];
      lines := lines + [CloseLine(indent, tag.value)];
      return true;
    }

    /** `writeTag(String, Object)`: print `<tag>value</tag>` on one line. */
    method WriteTag(tag: string, value: string)
      requires Valid()
      modifies this
      ensures Valid()
      ensures Apply(old(State()), Element(tag, value)) == Some(State())
      ensures lines == old(lines) + [ElementLine(indent, tag, value)]
      ensures indent == old(indent)
    {
      lines := lines + [ElementLine(indent, tag, value)];
    }

    /** `writeTag(String, int)`: the value in decimal. */
    method WriteTagInt(tag: string, value: int32)
      requires Valid()
      modifies this
      ensures Valid()
      ensures Apply(old(State()), Element(tag, DecimalString(value as int))) == Some(State())
      ensures lines == old(lines) + [ElementLine(indent, tag, DecimalString(value as int))]
      ensures indent == old(indent)
    {
      WriteTag(tag, DecimalString(value as int));
    }

    /** `writeTag(String, long)`: the value in decimal. */
    method WriteTagLong(tag: string, value: int64)
      requires Valid()
      modifies this
      ensures Valid()
      ensures Apply(old(State()), Element(tag, DecimalString(value as int))) == Some(State())
      ensures lines == old(lines) + [ElementLine(indent, tag, DecimalString(value as int))]
      ensures indent == old(indent)
    {
      WriteTag(tag, DecimalString(value as int));
    }

    /** `writeTag(String, double, String)`: a missing value (NaN) is written as `nanString`, any
        other value through the number format, which is a parameter here. */
    method WriteTagDouble(tag: string, value: Option<real>, nanString: string, format: real -> string)
      requires Valid()
      modifies this
      ensures Valid()
      ensures Apply(old(State()), Element(tag, if value.None? then nanString else format(value.value))) == Some(State())
      ensures value.None? ==> lines == old(lines) + [ElementLine(indent, tag, nanString)]
      ensures value.Some? ==> lines == old(lines) + [ElementLine(indent, tag, format(value.value))]
      ensures indent == old(indent)
    {
      if value.None? {
        WriteTag(tag, nanString);
      } else {
        WriteTag(tag, format(value.value));
      }
    }

    /** `writeTag(String, double)`: a missing value is written as `NaN`. */
    method WriteTagDoubleOrNaN(tag: string, value: Option<real>, format: real -> string)
      requires Valid()
      modifies this
      ensures Valid()
      ensures Apply(old(State()), Element(tag, if value.None? then "NaN" else format(value.value))) == Some(State())
      ensures value.None? ==> lines == old(lines) + [ElementLine(indent, tag, "NaN")]
      ensures value.Some? ==> lines == old(lines) + [ElementLine(indent, tag, format(value.value))]
      ensures indent == old(indent)
    {
      WriteTagDouble(tag, value, "NaN", format);
    }

    /** `writeComment`: print `<!-- comment -->` on one line. */
    method WriteComment(comment: string)
      requires Valid()
      modifies this
      ensures Valid()
      ensures Apply(old(State()), Comment(comment)) == Some(State())
      ensures lines == old(lines) + [CommentLine(indent, comment)]
      ensures indent == old(indent)
    {
      lines := lines + [CommentLine(indent, comment)];
    }
  }
}
