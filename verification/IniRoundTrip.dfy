/**
  Reading back what the INI writer printed: for which configurations it gives the same
  groups, keys and values in the same order. The answer is exact in both directions.
 */
module IniRoundTrip {
  import opened Wrappers
  import opened Strings
  import opened IniText
  import Ini

  // ----- the configurations that survive -----

  /** A name may hold anything but a closing bracket, and an equal sign only when no space follows it. */
  predicate NameOk(name: string) {
    ']' !in name && ' ' !in name[Index('=', name)..]
  }

  predicate KeyOk(key: string) {
    '=' !in key && Stripped(key, WHITESPACE) && (key == "" || key[0] !in "[;#")
  }

  predicate ValueOk(value: string) {
    value != "" && Stripped(value, WHITESPACE)
  }

  predicate ValuesOk(values: seq<KeyValue>) {
    forall v | v in values :: KeyOk(v.key) && ValueOk(v.value)
  }

  predicate WellFormed(groups: seq<Group>) {
    forall g | g in groups :: NameOk(g.name) && ValuesOk(g.values)
  }

  /** Strings that stay within a line of a C string. */
  predicate Plain(s: string) { '\n' !in s && NUL !in s }

  predicate PlainValues(values: seq<KeyValue>) {
    forall v | v in values :: Plain(v.key) && Plain(v.value)
  }

  predicate PlainGroups(groups: seq<Group>) {
    forall g | g in groups :: Plain(g.name) && PlainValues(g.values)
  }

  // ----- the lines of the printed text -----

  function ValueLines(values: seq<KeyValue>): seq<string> {
    if values == [] then [] else [ValueLine(values[0])] + ValueLines(values[1..])
  }

  function GroupLines(g: Group): seq<string> {
    [HeaderLine(g.name)] + ValueLines(g.values) + [""]
  }

  function DocLines(groups: seq<Group>): seq<string> {
    if groups == [] then [] else GroupLines(groups[0]) + DocLines(groups[1..])
  }

  lemma {:induction false} LinesOfValues(values: seq<KeyValue>, rest: string)
    requires PlainValues(values)
    ensures Lines(PrintValues(values) + rest) == ValueLines(values) + Lines(rest)
  {
    hide Lines, ValueLine, Plain;
    if values == [] {
      assert PrintValues(values) + rest == rest;
    } else {
      var v := values[0];
      assert v in values && PlainValues(values[1..]);
      var tail := PrintValues(values[1..]) + rest;
      assert PrintValues(values) + rest == ValueLine(v) + "\n" + tail;
      OneValueLine(v);
      LinesOfLine(ValueLine(v), tail);
      LinesOfValues(values[1..], rest);
    }
  }

  lemma OneValueLine(v: KeyValue)
    requires Plain(v.key) && Plain(v.value)
    ensures '\n' !in ValueLine(v)
  {
  }

  lemma LinesOfGroup(g: Group, rest: string)
    requires Plain(g.name) && PlainValues(g.values)
    ensures Lines(PrintGroup(g) + rest) == GroupLines(g) + Lines(rest)
  {
    hide Lines;
    var tail := "\n" + rest;
    assert PrintGroup(g) + rest == HeaderLine(g.name) + "\n" + (PrintValues(g.values) + tail);
    LinesOfLine(HeaderLine(g.name), PrintValues(g.values) + tail);
    LinesOfValues(g.values, tail);
    assert tail == "" + "\n" + rest;
    LinesOfLine("", rest);
  }

  lemma {:induction false} LinesOfPrint(groups: seq<Group>)
    requires PlainGroups(groups)
    ensures Lines(Print(groups)) == DocLines(groups)
  {
    if groups != [] {
      assert groups[0] in groups && PlainGroups(groups[1..]);
      LinesOfGroup(groups[0], Print(groups[1..]));
      LinesOfPrint(groups[1..]);
    }
  }

  // ----- what each printed line reads back as -----

  /** What reading `line` appends to the values of the current group. */
  function LineOut(line: string): (r: seq<KeyValue>)
    ensures |r| <= 1
  {
    if IsSignificant(line) && LineValue(line).Some? then [LineValue(line).value] else []
  }

  function Outs(values: seq<KeyValue>): (r: seq<KeyValue>)
    ensures |r| <= |values|
  {
    if values == [] then [] else LineOut(ValueLine(values[0])) + Outs(values[1..])
  }

  function Reread(g: Group): Group {
    Group(HeaderName(HeaderLine(g.name)), LineOut(HeaderLine(g.name)) + Outs(g.values))
  }

  function RereadAll(groups: seq<Group>): (r: seq<Group>)
    ensures |r| == |groups|
  {
    if groups == [] then [] else [Reread(groups[0])] + RereadAll(groups[1..])
  }

  lemma {:induction false} RereadEach(groups: seq<Group>)
    ensures forall k | 0 <= k < |groups| :: RereadAll(groups)[k] == Reread(groups[k])
  {
    hide Reread;
    if groups != [] {
      RereadEach(groups[1..]);
    }
  }

  predicate HeaderKey(v: KeyValue) { v.key != "" && v.key[0] == '[' }

  predicate NoHeaderKeys(values: seq<KeyValue>) {
    forall v | v in values :: !HeaderKey(v)
  }

  function AppendOut(groups: seq<Group>, out: seq<KeyValue>): (r: seq<Group>)
    requires groups != []
    ensures |r| == |groups|
  {
    var last := groups[|groups| - 1];
    groups[|groups| - 1 := last.(values := last.values + out)]
  }

  lemma AppendNothing(groups: seq<Group>)
    requires groups != []
    ensures AppendOut(groups, []) == groups
  {
    assert groups[|groups| - 1].values + [] == groups[|groups| - 1].values;
  }

  lemma AppendTwice(groups: seq<Group>, a: seq<KeyValue>, b: seq<KeyValue>)
    requires groups != []
    ensures AppendOut(AppendOut(groups, a), b) == AppendOut(groups, a + b)
  {
    assert groups[|groups| - 1].values + a + b == groups[|groups| - 1].values + (a + b);
  }

  lemma OneLine(st: ParseState, line: string)
    requires st.Valid() && st.open && !IsHeader(line)
    ensures ParseLine(st, line).open && ParseLine(st, line).groups == AppendOut(st.groups, LineOut(line))
  {
    hide LineValue;
    AppendNothing(st.groups);
  }

  lemma ValueLineStart(v: KeyValue)
    ensures ValueLine(v) != "" && ValueLine(v)[0] == if v.key == "" then ' ' else v.key[0]
    ensures IsHeader(ValueLine(v)) <==> HeaderKey(v)
  {
  }

  lemma {:induction false} ParseOfValues(st: ParseState, values: seq<KeyValue>)
    requires st.Valid() && st.open && NoHeaderKeys(values)
    ensures var r := ParseLines(st, ValueLines(values));
            r.open && r.groups == AppendOut(st.groups, Outs(values))
    decreases |values|
  {
    if values == [] {
      AppendNothing(st.groups);
    } else {
      hide ParseLine, ValueLine, LineOut, AppendOut;
      var line := ValueLine(values[0]);
      assert values[0] in values && NoHeaderKeys(values[1..]);
      ValueLineStart(values[0]);
      OneLine(st, line);
      ParseOfValues(ParseLine(st, line), values[1..]);
      AppendTwice(st.groups, LineOut(line), Outs(values[1..]));
    }
  }

  lemma ParseOfHeader(st: ParseState, name: string)
    requires st.Valid()
    ensures var r := ParseLine(st, HeaderLine(name));
            r.open && r.groups == st.groups + [Group(HeaderName(HeaderLine(name)), LineOut(HeaderLine(name)))]
  {
    hide LineValue, HeaderName;
    var line := HeaderLine(name);
    assert IsHeader(line) && IsSignificant(line);
    assert [] + LineOut(line) == LineOut(line);
  }

  lemma ParseOfGroup(st: ParseState, g: Group)
    requires st.Valid() && NoHeaderKeys(g.values)
    ensures ParseLines(st, GroupLines(g)).groups == st.groups + [Reread(g)]
    ensures ParseLines(st, GroupLines(g)).open
  {
    hide LineOut, HeaderName, ValueLine, ParseLine;
    var header := HeaderLine(g.name);
    var after := ParseLine(st, header);
    assert GroupLines(g)[0] == header && GroupLines(g)[1..] == ValueLines(g.values) + [""];
    ParseOfHeader(st, g.name);
    ParseOfValues(after, g.values);
    ParseOneMore(after, ValueLines(g.values), "");
    BlankLine(ParseLines(after, ValueLines(g.values)));
  }

  lemma BlankLine(st: ParseState)
    requires st.Valid()
    ensures ParseLine(st, "") == st
  {
  }

  predicate NoHeaderKeysIn(groups: seq<Group>) {
    forall k | 0 <= k < |groups| :: NoHeaderKeys(groups[k].values)
  }

  lemma {:induction false} FoldOfDoc(st: ParseState, groups: seq<Group>)
    requires st.Valid() && NoHeaderKeysIn(groups)
    ensures ParseLines(st, DocLines(groups)).groups == st.groups + RereadAll(groups)
    decreases |groups|
  {
    hide GroupLines, Reread;
    if groups != [] {
      ParseOfGroup(st, groups[0]);
      FoldOfDoc(ParseLines(st, GroupLines(groups[0])), groups[1..]);
      ParseAppend(st, GroupLines(groups[0]), DocLines(groups[1..]));
    }
  }

  // ----- counting headers -----

  function HeaderCount(lines: seq<string>): nat {
    if lines == [] then 0 else (if IsHeader(lines[0]) then 1 else 0) + HeaderCount(lines[1..])
  }

  lemma {:induction false} HeaderCountAppend(a: seq<string>, b: seq<string>)
    ensures HeaderCount(a + b) == HeaderCount(a) + HeaderCount(b)
  {
    if a == [] {
      assert a + b == b;
    } else {
      assert (a + b)[1..] == a[1..] + b;
      HeaderCountAppend(a[1..], b);
    }
  }

  /** Every header makes a group, and nothing else does once there is one. */
  lemma {:induction false} GroupsAreHeaders(st: ParseState, lines: seq<string>)
    requires st.Valid()
    requires st.open || lines == [] || IsHeader(lines[0])
    ensures |ParseLines(st, lines).groups| == |st.groups| + HeaderCount(lines)
    decreases |lines|
  {
    if lines != [] {
      GroupsAreHeaders(ParseLine(st, lines[0]), lines[1..]);
    }
  }

  lemma {:induction false} HeadersOfValues(values: seq<KeyValue>)
    ensures HeaderCount(ValueLines(values)) > 0 <==> !NoHeaderKeys(values)
  {
    if values != [] {
      hide HeaderKey, ValueLine;
      ValueLineStart(values[0]);
      HeadersOfValues(values[1..]);
      assert values == [values[0]] + values[1..];
      assert ValueLines(values)[1..] == ValueLines(values[1..]);
      assert !NoHeaderKeys(values) <==> HeaderKey(values[0]) || !NoHeaderKeys(values[1..]);
    }
  }

  lemma HeadersOfGroup(g: Group)
    ensures HeaderCount(GroupLines(g)) == 1 + HeaderCount(ValueLines(g.values))
  {
    assert GroupLines(g)[0] == HeaderLine(g.name) && IsHeader(HeaderLine(g.name));
    assert GroupLines(g)[1..] == ValueLines(g.values) + [""];
    HeaderCountAppend(ValueLines(g.values), [""]);
    assert [""][1..] == [];
    assert HeaderCount([""]) == 0;
  }

  lemma {:induction false} HeadersOfDoc(groups: seq<Group>)
    ensures HeaderCount(DocLines(groups)) >= |groups|
    ensures HeaderCount(DocLines(groups)) == |groups| <==> NoHeaderKeysIn(groups)
  {
    if groups != [] {
      HeadersOfGroup(groups[0]);
      HeadersOfValues(groups[0].values);
      HeaderCountAppend(GroupLines(groups[0]), DocLines(groups[1..]));
      HeadersOfDoc(groups[1..]);
      assert groups == [groups[0]] + groups[1..];
    }
  }

  // ----- one line, exactly -----

  lemma HeaderReread(name: string)
    ensures HeaderName(HeaderLine(name)) == name <==> ']' !in name
  {
    var line := HeaderLine(name);
    var n := Index(']', line);
    assert line == "[" + (name + "]");
    IndexSkips(']', "[", name + "]");
    if ']' in name {
      IndexStops(']', name, "]");
    } else {
      IndexSkips(']', name, "]");
      assert line[1..n] == name;
    }
  }

  lemma {:induction false} IndexSkips(what: char, a: string, b: string)
    requires what !in a
    ensures Index(what, a + b) == |a| + Index(what, b)
  {
    assert (a + b)[..|a| + Index(what, b)] == a + b[..Index(what, b)];
    IndexIs(what, a + b, |a| + Index(what, b));
  }

  lemma {:induction false} IndexStops(what: char, a: string, b: string)
    requires what in a
    ensures Index(what, a + b) == Index(what, a) < |a|
  {
    var i := Index(what, a);
    assert i < |a| by {
      assert a[..|a|] == a;
    }
    assert (a + b)[..i] == a[..i];
    IndexIs(what, a + b, i);
  }

  lemma HeaderOutExact(name: string)
    ensures LineOut(HeaderLine(name)) == [] <==> ' ' !in name[Index('=', name)..]
    ensures LineOut(HeaderLine(name)) != [] ==> HeaderKey(LineOut(HeaderLine(name))[0])
  {
    HeaderEqual(name);
    HeaderSpace(name);
    if SpacePos(HeaderLine(name)) + 1 < |HeaderLine(name)| {
      HeaderKeyOfLine(HeaderLine(name));
    }
  }

  lemma HeaderEqual(name: string)
    ensures var line, e := HeaderLine(name), Index('=', name);
            if '=' in name then EqualPos(line) == e + 1 && line[e + 1..] == name[e..] + "]"
            else EqualPos(line) == |line| && e == |name|
  {
    hide Index;
    var rest := name + "]";
    assert HeaderLine(name) == "[" + rest;
    IndexSkips('=', "[", rest);
    if '=' in name {
      IndexStops('=', name, "]");
      BehindBracket(name, Index('=', name));
    } else {
      IndexSkips('=', name, "]");
      assert name[..|name|] == name;
      IndexIs('=', name, |name|);
    }
  }

  lemma BehindBracket(name: string, e: nat)
    requires e <= |name|
    ensures HeaderLine(name)[e + 1..] == name[e..] + "]"
  {
  }

  lemma HeaderSpace(name: string)
    ensures var line := HeaderLine(name);
            SpacePos(line) + 1 < |line| <==> ' ' in name[Index('=', name)..]
  {
    HeaderEqual(name);
    if '=' in name {
      var rest := name[Index('=', name)..];
      if ' ' in rest {
        IndexStops(' ', rest, "]");
      } else {
        IndexSkips(' ', rest, "]");
      }
    }
  }

  lemma HeaderKeyOfLine(line: string)
    requires IsHeader(line) && EqualPos(line) > 0
    ensures var key := Strip(line[..EqualPos(line)], WHITESPACE);
            key != "" && key[0] == '['
  {
    var before := line[..EqualPos(line)];
    assert before[0] !in WHITESPACE && Leading(before, WHITESPACE) == 0;
    assert StripLeft(before, WHITESPACE) == before;
  }

  // ----- a value line, exactly -----

  lemma LeadingOfAppended(s: string, t: string, c: string)
    requires Leading(s, c) < |s|
    ensures Leading(s + t, c) == Leading(s, c)
  {
    LeadingIs(s + t, c, Leading(s, c));
  }

  lemma StripOfSpace(s: string)
    ensures Strip(s + " ", WHITESPACE) == Strip(s, WHITESPACE)
  {
    var n := Leading(s, WHITESPACE);
    if n < |s| {
      LeadingOfAppended(s, " ", WHITESPACE);
      assert (s + " ")[n..] == s[n..] + " ";
      StripRightOfSpace(s[n..]);
    } else {
      LeadingIs(s + " ", WHITESPACE, |s| + 1);
    }
  }

  lemma StripRightOfSpace(t: string)
    ensures StripRight(t + " ", WHITESPACE) == StripRight(t, WHITESPACE)
  {
    assert (t + " ")[..|t|] == t;
  }

  lemma StripHasNo(what: char, s: string)
    requires what !in s
    ensures what !in Strip(s, WHITESPACE)
  {
    StripIsStripped(s, WHITESPACE);
    var t, u := StripLeft(s, WHITESPACE), Strip(s, WHITESPACE);
    forall k | 0 <= k < |u|
      ensures u[k] != what
    {
      assert u[k] == t[k] == s[Leading(s, WHITESPACE) + k];
    }
  }

  lemma ValueLineEqual(v: KeyValue)
    ensures var line := ValueLine(v);
            if '=' in v.key then EqualPos(line) == Index('=', v.key) < |v.key|
            else EqualPos(line) == |v.key| + 1
  {
    assert ValueLine(v) == v.key + (" = " + v.value);
    if '=' in v.key {
      IndexStops('=', v.key, " = " + v.value);
    } else {
      IndexSkips('=', v.key, " = " + v.value);
      IndexIs('=', " = " + v.value, 1);
    }
  }

  lemma ValueLineSpace(v: KeyValue)
    requires '=' !in v.key
    ensures SpacePos(ValueLine(v)) == |v.key| + 2
    ensures ValueLine(v)[..|v.key| + 1] == v.key + " "
    ensures ValueLine(v)[|v.key| + 3..] == v.value
  {
    ValueLineEqual(v);
    var rest := ValueLine(v)[|v.key| + 1..];
    assert rest == "= " + v.value;
    IndexIs(' ', rest, 1);
  }

  lemma ValueLineWithEqual(v: KeyValue)
    requires '=' in v.key
    ensures LineOut(ValueLine(v)) != [v]
  {
    var line := ValueLine(v);
    ValueLineEqual(v);
    assert line[..EqualPos(line)] == v.key[..EqualPos(line)];
    StripHasNo('=', line[..EqualPos(line)]);
    hide Strip;
  }

  lemma ValueLineSignificant(v: KeyValue)
    ensures IsSignificant(ValueLine(v)) <==> v.key == "" || v.key[0] !in ";#"
    ensures |ValueLine(v)| == |v.key| + 3 + |v.value|
  {
    assert |ValueLine(v)| == |v.key| + 3 + |v.value|;
    ValueLineStart(v);
    hide ValueLine;
  }

  lemma ValueLineOut(v: KeyValue)
    requires !HeaderKey(v) && '=' !in v.key
    ensures LineOut(ValueLine(v)) ==
              if (v.key != "" && v.key[0] in ";#") || v.value == "" then []
              else [KeyValue(Strip(v.key, WHITESPACE), Strip(v.value, WHITESPACE))]
  {
    hide ValueLine, SpacePos, EqualPos, Strip, IsSignificant, HeaderKey;
    ValueLineSignificant(v);
    ValueLineEqual(v);
    ValueLineSpace(v);
    StripOfSpace(v.key);
  }

  /** A printed value line reads back as itself exactly for these keys and values. */
  lemma ValueLineExact(v: KeyValue)
    requires !HeaderKey(v)
    ensures LineOut(ValueLine(v)) == [v] <==> KeyOk(v.key) && ValueOk(v.value)
  {
    hide ValueLine, LineOut, Strip, Stripped;
    if '=' in v.key {
      ValueLineWithEqual(v);
    } else {
      ValueLineOut(v);
      StrippedStays(v.key, WHITESPACE);
      StrippedStays(v.value, WHITESPACE);
    }
  }

  // ----- groups and configurations, exactly -----

  lemma {:induction false} ValuesExact(values: seq<KeyValue>)
    requires NoHeaderKeys(values)
    ensures Outs(values) == values <==> ValuesOk(values)
  {
    hide ValueLine, LineOut, KeyOk, ValueOk, HeaderKey;
    if values != [] {
      var v, rest := values[0], values[1..];
      assert v in values && values == [v] + rest && NoHeaderKeys(rest);
      var out := LineOut(ValueLine(v));
      ValueLineExact(v);
      ValuesExact(rest);
      assert ValuesOk(values) <==> KeyOk(v.key) && ValueOk(v.value) && ValuesOk(rest);
      if Outs(values) == values {
        assert |out| == 1 && values[0] == out[0] && rest == Outs(values)[1..] == Outs(rest);
      }
    }
  }

  lemma GroupExact(g: Group)
    requires NoHeaderKeys(g.values)
    ensures Reread(g) == g <==> NameOk(g.name) && ValuesOk(g.values)
  {
    var out := LineOut(HeaderLine(g.name));
    HeaderReread(g.name);
    HeaderOutExact(g.name);
    ValuesExact(g.values);
    hide LineOut, HeaderName, HeaderLine, HeaderKey, ValuesOk, Index;
    assert out != [] ==> Reread(g).values[0] == out[0];
    assert g.values != [] ==> g.values[0] in g.values;
    assert out == [] ==> out + Outs(g.values) == Outs(g.values);
  }

  lemma OkValuesAreNoHeaders(values: seq<KeyValue>)
    requires ValuesOk(values)
    ensures NoHeaderKeys(values)
  {
  }

  /** As far as the lines go, and where the reader gets through them: what was printed comes back
      exactly for the well-formed configurations. */
  lemma FoldExact(groups: seq<Group>)
    requires PlainGroups(groups)
    ensures Parse(Print(groups)).groups == groups <==> WellFormed(groups)
  {
    LinesOfPrint(groups);
    var lines := DocLines(groups);
    assert groups != [] ==> lines[0] == HeaderLine(groups[0].name);
    GroupsAreHeaders(START, lines);
    HeadersOfDoc(groups);
    if WellFormed(groups) {
      forall k | 0 <= k < |groups|
        ensures NoHeaderKeys(groups[k].values)
      {
        assert groups[k] in groups;
        OkValuesAreNoHeaders(groups[k].values);
      }
    }
    if NoHeaderKeysIn(groups) {
      RereadExact(groups);
      FoldOfDoc(START, groups);
    }
  }

  lemma RereadExact(groups: seq<Group>)
    requires NoHeaderKeysIn(groups)
    ensures RereadAll(groups) == groups <==> WellFormed(groups)
  {
    hide Reread, NameOk, ValuesOk, NoHeaderKeys;
    forall k | 0 <= k < |groups|
      ensures Reread(groups[k]) == groups[k] <==> NameOk(groups[k].name) && ValuesOk(groups[k].values)
    {
      GroupExact(groups[k]);
    }
    RereadEach(groups);
    assert RereadAll(groups) == groups <==> forall k | 0 <= k < |groups| :: Reread(groups[k]) == groups[k];
  }

  // ----- what the reader's buffers can take -----

  predicate ValuesFit(values: seq<KeyValue>) {
    forall v | v in values :: 2 * |v.key| + |v.value| + 6 <= LINE_SIZE
  }

  predicate GroupsFit(groups: seq<Group>) {
    forall g | g in groups :: |g.name| + 2 < LINE_SIZE && ValuesFit(g.values)
  }

  lemma ValueLineReadable(v: KeyValue)
    requires KeyOk(v.key) && v.value != ""
    ensures Readable(ValueLine(v)) <==> v.value[0] != ' ' && 2 * |v.key| + |v.value| + 6 <= LINE_SIZE
  {
    ValueLineStart(v);
    ValueLineSpace(v);
    assert ValueLine(v)[|v.key| + 3] == v.value[0];
    assert |ValueLine(v)| == |v.key| + 3 + |v.value|;
    hide ValueLine, SpacePos, Stripped;
  }

  lemma StrippedStart(value: string)
    ensures Stripped(value, WHITESPACE) && value != "" ==> value[0] != ' '
  {
  }

  lemma HeaderLineReadable(name: string)
    requires NameOk(name)
    ensures Readable(HeaderLine(name)) <==> |name| + 2 < LINE_SIZE
  {
    HeaderSpace(name);
  }

  lemma ReadableAppend(a: seq<string>, b: seq<string>)
    ensures AllReadable(a + b) <==> AllReadable(a) && AllReadable(b)
  {
    hide Readable;
    forall k | 0 <= k < |b| && AllReadable(a + b)
      ensures Readable(b[k])
    {
      assert (a + b)[|a| + k] == b[k];
    }
    forall k | 0 <= k < |a| && AllReadable(a + b)
      ensures Readable(a[k])
    {
      assert (a + b)[k] == a[k];
    }
  }

  lemma OneReadable(line: string)
    ensures AllReadable([line]) <==> Readable(line)
  {
    hide Readable;
    assert [line][0] == line;
  }

  lemma {:induction false} ValueLinesReadable(values: seq<KeyValue>)
    ensures AllReadable(ValueLines(values)) <==> forall v | v in values :: Readable(ValueLine(v))
  {
    if values != [] {
      hide Readable, ValueLine, AllReadable;
      var v, rest := values[0], values[1..];
      assert v in values && values == [v] + rest;
      ValueLinesReadable(rest);
      OneReadable(ValueLine(v));
      ReadableAppend([ValueLine(v)], ValueLines(rest));
    }
  }

  lemma GroupLinesReadable(g: Group)
    requires NameOk(g.name)
    ensures AllReadable(GroupLines(g))
            <==> |g.name| + 2 < LINE_SIZE && forall v | v in g.values :: Readable(ValueLine(v))
  {
    BlankReadable();
    hide Readable, HeaderLine, ValueLine, AllReadable, NameOk;
    HeaderLineReadable(g.name);
    ValueLinesReadable(g.values);
    OneReadable(HeaderLine(g.name));
    OneReadable("");
    ReadableAppend([HeaderLine(g.name)], ValueLines(g.values));
    ReadableAppend([HeaderLine(g.name)] + ValueLines(g.values), [""]);
  }

  lemma BlankReadable()
    ensures Readable("")
  {
  }

  lemma {:induction false} DocLinesReadable(groups: seq<Group>)
    ensures AllReadable(DocLines(groups)) <==> forall g | g in groups :: AllReadable(GroupLines(g))
  {
    if groups != [] {
      hide GroupLines, AllReadable;
      var g, rest := groups[0], groups[1..];
      assert g in groups && groups == [g] + rest;
      DocLinesReadable(rest);
      ReadableAppend(GroupLines(g), DocLines(rest));
    }
  }

  /** The writer's lines for a well-formed configuration are lines that the reader terminates on
      and has room for, exactly when each fits its buffers. */
  lemma PrintedLinesReadable(groups: seq<Group>)
    requires WellFormed(groups)
    ensures AllReadable(DocLines(groups)) <==> GroupsFit(groups)
  {
    DocLinesReadable(groups);
    hide AllReadable, GroupLines, DocLines, Readable, NameOk, ValueOk, KeyOk, ValueLine;
    forall g | g in groups
      ensures AllReadable(GroupLines(g)) <==> |g.name| + 2 < LINE_SIZE && ValuesFit(g.values)
    {
      GroupLinesReadable(g);
      forall v | v in g.values
        ensures Readable(ValueLine(v)) <==> 2 * |v.key| + |v.value| + 6 <= LINE_SIZE
      {
        OkValue(v);
      }
    }
  }

  lemma OkValue(v: KeyValue)
    requires KeyOk(v.key) && ValueOk(v.value)
    ensures Readable(ValueLine(v)) <==> 2 * |v.key| + |v.value| + 6 <= LINE_SIZE
  {
    hide Readable, ValueLine, KeyOk, Stripped;
    StrippedStart(v.value);
    ValueLineReadable(v);
  }

  lemma NoNulIsPlain(s: string)
    ensures NoNul(s) <==> NUL !in s
  {
    forall x | x in s && NoNul(s)
      ensures x != NUL
    {
      var k :| 0 <= k < |s| && s[k] == x;
    }
  }

  lemma {:induction false} PrintedValuesNoNul(values: seq<KeyValue>)
    requires PlainValues(values)
    ensures NUL !in PrintValues(values)
  {
    if values != [] {
      assert values[0] in values && values == [values[0]] + values[1..];
      PrintedValuesNoNul(values[1..]);
    }
  }

  lemma {:induction false} PrintedNoNul(groups: seq<Group>)
    requires PlainGroups(groups)
    ensures NUL !in Print(groups)
  {
    if groups != [] {
      assert groups[0] in groups && groups == [groups[0]] + groups[1..];
      PrintedValuesNoNul(groups[0].values);
      PrintedNoNul(groups[1..]);
    }
  }

  lemma BufferLinesOfPrint(groups: seq<Group>)
    requires PlainGroups(groups)
    ensures Ini.BufferLines(Print(groups)) == Lines(Print(groups)) == DocLines(groups)
  {
    hide PlainGroups, Print, Ini.BufferLines, Lines, DocLines;
    PrintedNoNul(groups);
    NoNulIsPlain(Print(groups));
    Ini.BufferLinesOfText(Print(groups));
    LinesOfPrint(groups);
  }

  /** What the reader gives for a printed text that it can read, for all names and values. */
  lemma ParseOfDoc(groups: seq<Group>)
    requires PlainGroups(groups) && NoHeaderKeysIn(groups) && AllReadable(DocLines(groups))
    ensures Ini.ReadBack(Print(groups)) == Some(RereadAll(groups))
  {
    hide PlainGroups, NoHeaderKeysIn, AllReadable, Ini.BufferLines, DocLines, Print, RereadAll;
    BufferLinesOfPrint(groups);
    FoldOfDoc(START, groups);
    assert START.groups + RereadAll(groups) == RereadAll(groups);
  }

  // ----- nothing that is read holds a newline or a NUL -----

  predicate AllPlain(lines: seq<string>) {
    forall k | 0 <= k < |lines| :: Plain(lines[k])
  }

  lemma {:induction false} BufferLinesArePlain(text: string)
    ensures AllPlain(Ini.BufferLines(text))
    decreases |text|
  {
    hide Ini.BufferLines, Plain, Ini.ScanIndex;
    if text == "" || text[0] == NUL {
      NothingInBuffer(text);
    } else {
      var n := Ini.ScanIndex('\n', text);
      Ini.FirstBufferLine(text);
      PlainPrefix(text, n);
      BufferLinesArePlain(if n < |text| then text[n + 1..] else "");
    }
  }

  lemma NothingInBuffer(text: string)
    requires text == "" || text[0] == NUL
    ensures Ini.BufferLines(text) == []
  {
  }

  lemma PlainPrefix(text: string, n: nat)
    requires n <= |text| && forall k | 0 <= k < n :: text[k] != '\n' && text[k] != NUL
    ensures Plain(text[..n])
  {
  }

  lemma PlainPart(s: string, i: nat, j: nat)
    requires Plain(s) && i <= j <= |s|
    ensures Plain(s[i..j])
  {
  }

  lemma PlainStrip(s: string)
    requires Plain(s)
    ensures Plain(Strip(s, WHITESPACE))
  {
    StripHasNo('\n', s);
    StripHasNo(NUL, s);
  }

  lemma LineValueIsPlain(line: string)
    requires Plain(line) && LineValue(line).Some?
    ensures Plain(LineValue(line).value.key) && Plain(LineValue(line).value.value)
  {
    hide Plain, Strip;
    assert line[..EqualPos(line)] == line[0..EqualPos(line)];
    assert line[SpacePos(line) + 1..] == line[SpacePos(line) + 1..|line|];
    PlainPart(line, 0, EqualPos(line));
    PlainPart(line, SpacePos(line) + 1, |line|);
    PlainStrip(line[..EqualPos(line)]);
    PlainStrip(line[SpacePos(line) + 1..]);
  }

  lemma OpenGroupsArePlain(st: ParseState, line: string)
    requires st.Valid() && PlainGroups(st.groups) && Plain(line)
    ensures PlainGroups(OpenGroups(st, line))
  {
    DefaultIsPlain();
    if IsHeader(line) {
      PlainPart(line, 1, Index(']', line));
    }
    hide Plain, Index;
    assert PlainValues([]);
  }

  lemma DefaultIsPlain()
    ensures Plain(DEFAULT_GROUP_NAME)
  {
  }

  lemma WithValueIsPlain(groups: seq<Group>, v: KeyValue)
    requires groups != [] && PlainGroups(groups) && Plain(v.key) && Plain(v.value)
    ensures PlainGroups(WithValue(groups, Some(v)))
  {
    hide Plain;
    var last := groups[|groups| - 1];
    assert last in groups && PlainValues(last.values + [v]);
  }

  lemma ParseLineIsPlain(st: ParseState, line: string)
    requires st.Valid() && PlainGroups(st.groups) && Plain(line)
    ensures PlainGroups(ParseLine(st, line).groups)
  {
    hide PlainGroups, Plain, OpenGroups, LineValue;
    if IsSignificant(line) {
      OpenGroupsArePlain(st, line);
      if LineValue(line).Some? {
        LineValueIsPlain(line);
        WithValueIsPlain(OpenGroups(st, line), LineValue(line).value);
      }
    }
  }

  lemma {:induction false} ParseLinesArePlain(st: ParseState, lines: seq<string>)
    requires st.Valid() && PlainGroups(st.groups) && AllPlain(lines)
    ensures PlainGroups(ParseLines(st, lines).groups)
    decreases |lines|
  {
    hide PlainGroups, Plain, ParseLine;
    if lines != [] {
      ParseLineIsPlain(st, lines[0]);
      ParseLinesArePlain(ParseLine(st, lines[0]), lines[1..]);
    }
  }

  /** So whatever the text, what is read back is plain. */
  lemma ReadBackIsPlain(text: string)
    requires Ini.ReadBack(text).Some?
    ensures PlainGroups(Ini.ReadBack(text).value)
  {
    assert PlainGroups(START.groups);
    hide PlainGroups, Plain, ParseLines, Ini.BufferLines, AllReadable;
    BufferLinesArePlain(text);
    ParseLinesArePlain(START, Ini.BufferLines(text));
  }

  /** The whole promise: the reader comes to an end on what was printed, stays within its buffers,
      and gives back the same groups, keys and values in the same order, exactly for the well-formed
      configurations without newlines whose lines fit, however many they are. */
  lemma RoundTripExact(groups: seq<Group>)
    ensures Ini.ReadBack(Print(groups)) == Some(groups)
            <==> PlainGroups(groups) && WellFormed(groups) && GroupsFit(groups)
  {
    hide PlainGroups, Print, WellFormed, GroupsFit, Ini.ReadBack;
    if PlainGroups(groups) {
      PlainRoundTrip(groups);
    } else if Ini.ReadBack(Print(groups)).Some? {
      ReadBackIsPlain(Print(groups));
    }
  }

  lemma PlainRoundTrip(groups: seq<Group>)
    requires PlainGroups(groups)
    ensures Ini.ReadBack(Print(groups)) == Some(groups) <==> WellFormed(groups) && GroupsFit(groups)
  {
    hide PlainGroups, AllReadable, Ini.BufferLines, DocLines, Print, WellFormed, GroupsFit, ParseLines, Lines;
    BufferLinesOfPrint(groups);
    FoldExact(groups);
    if WellFormed(groups) {
      PrintedLinesReadable(groups);
    }
  }

  /** In particular for the reader as a program. */
  lemma WrittenThenRead(groups: seq<Group>)
    requires PlainGroups(groups) && WellFormed(groups) && GroupsFit(groups)
    ensures var lines := Ini.BufferLines(Print(groups));
            AllReadable(lines) && ParseLines(START, lines).groups == groups
  {
    hide PlainGroups, WellFormed, GroupsFit, Print, Ini.BufferLines, ParseLines;
    RoundTripExact(groups);
  }
}
