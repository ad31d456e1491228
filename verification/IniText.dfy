/**
  What the INI reader of `src/ini.h` makes of a text, and what the writer of `src/ini_base.h`
  prints, as functions on values. `Ini` holds the programs that are proved to compute them.
 */
module IniText {
  import opened Wrappers
  import opened Strings

  datatype KeyValue = KeyValue(key: string, value: string)
  datatype Group = Group(name: string, values: seq<KeyValue>)

  const DEFAULT_GROUP_NAME := "base"
  const WHITESPACE := LEFT_DEFAULT

  // ----- lines -----

  /** The first index of `what`, or the length. */
  function Index(what: char, s: string): (i: nat)
    ensures i <= |s| && what !in s[..i]
    ensures i < |s| ==> s[i] == what
  {
    if s == "" || s[0] == what then 0 else 1 + Index(what, s[1..])
  }

  /** The lines of a text; a final newline does not start another one. */
  function Lines(text: string): seq<string>
    decreases |text|
  {
    if text == "" then []
    else
      var n := Index('\n', text);
      [text[..n]] + Lines(if n < |text| then text[n + 1..] else "")
  }

  predicate IsComment(line: string) {
    line != "" && (line[0] == ';' || line[0] == '#')
  }

  predicate IsHeader(line: string) {
    line != "" && line[0] == '['
  }

  predicate IsSignificant(line: string) {
    line != "" && !IsComment(line)
  }

  function HeaderName(line: string): string
    requires IsHeader(line)
  {
    line[1..Index(']', line)]
  }

  function EqualPos(line: string): nat { Index('=', line) }

  /** The first space from the equal sign on, or the end of the line. */
  function SpacePos(line: string): (n: nat)
    ensures EqualPos(line) <= n <= |line|
    ensures n < |line| ==> line[n] == ' '
  {
    EqualPos(line) + Index(' ', line[EqualPos(line)..])
  }

  /** What a line assigns: the text before the equal sign and the text after the first space
      that follows it. Without such a space, or with nothing after it, there is no value. */
  function LineValue(line: string): Option<KeyValue> {
    if SpacePos(line) + 1 < |line|
    then Some(KeyValue(Strip(line[..EqualPos(line)], WHITESPACE), Strip(line[SpacePos(line) + 1..], WHITESPACE)))
    else None
  }

  // ----- the reader -----

  /** The configuration so far; `open` says that its last group takes the next value. `count`
      is the number of significant lines, or -1 before the first. */
  datatype ParseState = ParseState(groups: seq<Group>, open: bool, count: int) {
    predicate Valid() { open ==> groups != [] }
  }

  function WithValue(groups: seq<Group>, v: Option<KeyValue>): (r: seq<Group>)
    requires groups != []
    ensures |r| == |groups|
  {
    if v.None? then groups
    else
      var last := groups[|groups| - 1];
      groups[|groups| - 1 := last.(values := last.values + [v.value])]
  }

  function OpenGroups(st: ParseState, line: string): (groups: seq<Group>)
    requires st.Valid()
    ensures groups != []
  {
    if IsHeader(line) then st.groups + [Group(HeaderName(line), [])]
    else if st.open then st.groups
    else st.groups + [Group(DEFAULT_GROUP_NAME, [])]
  }

  function ParseLine(st: ParseState, line: string): (r: ParseState)
    requires st.Valid()
    ensures r.Valid()
  {
    if !IsSignificant(line) then st
    else ParseState(WithValue(OpenGroups(st, line), LineValue(line)), true, if st.count < 0 then 1 else st.count + 1)
  }

  function ParseLines(st: ParseState, lines: seq<string>): (r: ParseState)
    requires st.Valid()
    decreases |lines|
    ensures r.Valid()
  {
    if lines == [] then st else ParseLines(ParseLine(st, lines[0]), lines[1..])
  }

  const START := ParseState([], false, -1)

  /** What the reader adds to an empty configuration. */
  function Parse(text: string): ParseState {
    ParseLines(START, Lines(text))
  }

  // ----- the lines that the reader can read -----

  const LINE_SIZE := 1024

  /** The scan for the last of a run of spaces does not advance over two of them. */
  predicate Doubled(line: string) {
    SpacePos(line) + 1 < |line| && line[SpacePos(line) + 1] == ' '
  }

  /** The buffers of the reader hold the line, its NUL, and the copy that starts at the value. */
  predicate Fits(line: string) {
    |line| < LINE_SIZE && (LineValue(line).Some? ==> SpacePos(line) + 1 + |line| <= LINE_SIZE)
  }

  predicate Readable(line: string) {
    if IsSignificant(line) then Fits(line) && !Doubled(line) else |line| <= LINE_SIZE
  }

  predicate AllReadable(lines: seq<string>) {
    forall k | 0 <= k < |lines| :: Readable(lines[k])
  }

  // ----- the writer -----

  function HeaderLine(name: string): string { "[" + name + "]" }

  function ValueLine(v: KeyValue): string { v.key + " = " + v.value }

  function PrintValues(values: seq<KeyValue>): string {
    if values == [] then "" else ValueLine(values[0]) + "\n" + PrintValues(values[1..])
  }

  function PrintGroup(g: Group): string {
    HeaderLine(g.name) + "\n" + PrintValues(g.values) + "\n"
  }

  function Print(groups: seq<Group>): string {
    if groups == [] then "" else PrintGroup(groups[0]) + Print(groups[1..])
  }

  // ----- elementary facts -----

  lemma {:induction false} IndexIs(what: char, s: string, i: nat)
    requires i <= |s| && what !in s[..i] && (i < |s| ==> s[i] == what)
    ensures Index(what, s) == i
  {
    if i > 0 {
      assert s[0] == s[..i][0] && s[1..][..i - 1] == s[..i][1..];
      IndexIs(what, s[1..], i - 1);
    }
  }

  lemma {:induction false} ParseOneMore(st: ParseState, lines: seq<string>, line: string)
    requires st.Valid()
    decreases |lines|
    ensures ParseLines(st, lines + [line]) == ParseLine(ParseLines(st, lines), line)
  {
    if lines == [] {
      assert [line][1..] == [];
    } else {
      assert (lines + [line])[0] == lines[0] && (lines + [line])[1..] == lines[1..] + [line];
      ParseOneMore(ParseLine(st, lines[0]), lines[1..], line);
    }
  }

  lemma {:induction false} ParseAppend(st: ParseState, a: seq<string>, b: seq<string>)
    requires st.Valid()
    decreases |a|
    ensures ParseLines(st, a + b) == ParseLines(ParseLines(st, a), b)
  {
    if a == [] {
      assert a + b == b;
    } else {
      assert (a + b)[0] == a[0] && (a + b)[1..] == a[1..] + b;
      ParseAppend(ParseLine(st, a[0]), a[1..], b);
    }
  }

  lemma LinesOfLine(line: string, rest: string)
    requires '\n' !in line
    ensures Lines(line + "\n" + rest) == [line] + Lines(rest)
  {
    var text := line + "\n" + rest;
    assert text[..|line|] == line && text[|line|] == '\n';
    IndexIs('\n', text, |line|);
    assert text[|line| + 1..] == rest;
  }

  /** Lines do not reach over a newline: a text up to a newline is split independently. */
  lemma {:induction false} LinesAppend(a: string, b: string)
    requires a == "" || a[|a| - 1] == '\n'
    ensures Lines(a + b) == Lines(a) + Lines(b)
    decreases |a|
  {
    hide Lines;
    if a == "" {
      NoLines();
      assert a + b == b;
    } else {
      var n := Index('\n', a);
      IndexOfLast('\n', a);
      var rest := a[n + 1..];
      assert rest != "" ==> rest[|rest| - 1] == a[|a| - 1];
      LinesAppend(rest, b);
      assert a == a[..n] + "\n" + rest;
      LinesAppendLine(a[..n], rest, b);
    }
  }

  lemma NoLines()
    ensures Lines("") == []
  {
  }

  lemma LinesAppendLine(first: string, rest: string, b: string)
    requires '\n' !in first && Lines(rest + b) == Lines(rest) + Lines(b)
    ensures Lines(first + "\n" + rest + b) == Lines(first + "\n" + rest) + Lines(b)
  {
    hide Lines;
    LinesOfLine(first, rest);
    LinesOfLine(first, rest + b);
    assert first + "\n" + rest + b == first + "\n" + (rest + b);
  }

  lemma {:induction false} IndexOfLast(what: char, s: string)
    requires s != "" && s[|s| - 1] == what
    ensures Index(what, s) < |s|
  {
    if s[0] != what {
      IndexOfLast(what, s[1..]);
    }
  }

  // ----- what the reader guarantees, whatever the text -----

  /** Comment lines and blank lines change nothing, wherever they stand between lines. */
  lemma CommentsChangeNothing(st: ParseState, a: seq<string>, skipped: seq<string>, b: seq<string>)
    requires st.Valid()
    requires forall k | 0 <= k < |skipped| :: !IsSignificant(skipped[k])
    ensures ParseLines(st, a + skipped + b) == ParseLines(st, a + b)
  {
    ParseAppend(st, a + skipped, b);
    ParseAppend(st, a, skipped);
    ParseAppend(st, a, b);
    SkippedLines(ParseLines(st, a), skipped);
  }

  lemma {:induction false} SkippedLines(st: ParseState, skipped: seq<string>)
    requires st.Valid()
    decreases |skipped|
    requires forall k | 0 <= k < |skipped| :: !IsSignificant(skipped[k])
    ensures ParseLines(st, skipped) == st
  {
    if skipped != [] {
      SkippedLines(ParseLine(st, skipped[0]), skipped[1..]);
    }
  }

  /** ... and in particular a comment put into a text before any line of it. */
  lemma CommentInText(a: string, comment: string, b: string)
    requires a == "" || a[|a| - 1] == '\n'
    requires '\n' !in comment && !IsSignificant(comment)
    ensures Parse(a + comment + "\n" + b) == Parse(a + b)
  {
    hide Lines, ParseLines;
    assert a + comment + "\n" + b == a + (comment + "\n" + b);
    LinesAppend(a, comment + "\n" + b);
    LinesAppend(a, b);
    LinesOfLine(comment, b);
    assert Lines(a) + ([comment] + Lines(b)) == Lines(a) + [comment] + Lines(b);
    CommentsChangeNothing(START, Lines(a), [comment], Lines(b));
  }

  function CountSignificant(lines: seq<string>): nat {
    if lines == [] then 0
    else CountSignificant(lines[..|lines| - 1]) + if IsSignificant(lines[|lines| - 1]) then 1 else 0
  }

  /** The result counts the significant lines, or is -1 without any. */
  lemma {:induction false} ResultCounts(lines: seq<string>)
    ensures ParseLines(START, lines).count == if CountSignificant(lines) == 0 then -1 else CountSignificant(lines)
    ensures ParseLines(START, lines).open <==> CountSignificant(lines) > 0
  {
    if lines != [] {
      var front, last := lines[..|lines| - 1], lines[|lines| - 1];
      assert lines == front + [last];
      ResultCounts(front);
      ParseOneMore(START, front, last);
    }
  }

  // ----- which group a value belongs to -----

  /** The name in the nearest header at or before line `k`, or the default name. */
  function Owner(lines: seq<string>, k: nat): string
    requires k < |lines|
  {
    if IsHeader(lines[k]) then HeaderName(lines[k])
    else if k == 0 then DEFAULT_GROUP_NAME
    else Owner(lines, k - 1)
  }

  datatype Assignment = Assignment(group: string, key: string, value: string)

  /** The assignments of the first `n` lines, each with its owner, in order. */
  function Assignments(lines: seq<string>, n: nat): seq<Assignment>
    requires n <= |lines|
  {
    if n == 0 then []
    else
      var line := lines[n - 1];
      Assignments(lines, n - 1) +
      if IsSignificant(line) && LineValue(line).Some?
      then [Assignment(Owner(lines, n - 1), LineValue(line).value.key, LineValue(line).value.value)] else []
  }

  function FlatValues(name: string, values: seq<KeyValue>): seq<Assignment> {
    if values == [] then []
    else FlatValues(name, values[..|values| - 1]) +
         [Assignment(name, values[|values| - 1].key, values[|values| - 1].value)]
  }

  function Flat(groups: seq<Group>): seq<Assignment> {
    if groups == [] then []
    else Flat(groups[..|groups| - 1]) + FlatValues(groups[|groups| - 1].name, groups[|groups| - 1].values)
  }

  /** The names of the headers in the first `n` lines, with the default name in front when a
      significant line comes before any header. */
  function GroupNames(lines: seq<string>, n: nat): seq<string>
    requires n <= |lines|
  {
    if n == 0 then []
    else
      var before := GroupNames(lines, n - 1);
      if IsHeader(lines[n - 1]) then before + [HeaderName(lines[n - 1])]
      else if IsSignificant(lines[n - 1]) && before == [] then [DEFAULT_GROUP_NAME]
      else before
  }

  function Names(groups: seq<Group>): seq<string> {
    if groups == [] then [] else Names(groups[..|groups| - 1]) + [groups[|groups| - 1].name]
  }

  lemma FlatWithValue(groups: seq<Group>, v: KeyValue)
    requires groups != []
    ensures Flat(WithValue(groups, Some(v))) ==
            Flat(groups) + [Assignment(groups[|groups| - 1].name, v.key, v.value)]
    ensures Names(WithValue(groups, Some(v))) == Names(groups)
  {
    var last := groups[|groups| - 1];
    var r := WithValue(groups, Some(v));
    assert r[..|r| - 1] == groups[..|groups| - 1];
    assert (last.values + [v])[..|last.values|] == last.values;
  }

  lemma FlatOpenGroups(st: ParseState, line: string)
    requires st.Valid()
    ensures Flat(OpenGroups(st, line)) == Flat(st.groups)
  {
    var r := OpenGroups(st, line);
    if |r| > |st.groups| {
      assert r[..|r| - 1] == st.groups;
    }
  }

  /** What the first `n` lines, read into `r`, have to give: every value belongs to the nearest
      preceding header, or to the default group when there is none, and all values come in the
      order of their lines. */
  predicate Belongs(r: ParseState, lines: seq<string>, n: nat)
    requires n <= |lines|
  {
    && Flat(r.groups) == Assignments(lines, n)
    && Names(r.groups) == GroupNames(lines, n)
    && (r.open <==> r.groups != [])
    && (n > 0 ==> Owner(lines, n - 1) == if r.open then r.groups[|r.groups| - 1].name else DEFAULT_GROUP_NAME)
  }

  lemma {:induction false} ValuesBelongToNearestHeader(lines: seq<string>, n: nat)
    requires n <= |lines|
    ensures Belongs(ParseLines(START, lines[..n]), lines, n)
  {
    hide Belongs, ParseLine, ParseLines;
    if n == 0 {
      NothingBelongs(lines);
      assert lines[..0] == [];
    } else {
      ValuesBelongToNearestHeader(lines, n - 1);
      assert lines[..n] == lines[..n - 1] + [lines[n - 1]];
      ParseOneMore(START, lines[..n - 1], lines[n - 1]);
      NextBelongs(ParseLines(START, lines[..n - 1]), lines, n);
    }
  }

  lemma NothingBelongs(lines: seq<string>)
    ensures Belongs(START, lines, 0) && ParseLines(START, []) == START
  {
  }

  lemma NextBelongs(before: ParseState, lines: seq<string>, n: nat)
    requires 0 < n <= |lines| && Belongs(before, lines, n - 1)
    ensures Belongs(ParseLine(before, lines[n - 1]), lines, n)
  {
    if IsSignificant(lines[n - 1]) {
      OneLineBelongs(before, lines, n);
    }
  }

  lemma OneLineBelongs(before: ParseState, lines: seq<string>, n: nat)
    requires 0 < n <= |lines| && Belongs(before, lines, n - 1) && IsSignificant(lines[n - 1])
    ensures Belongs(ParseLine(before, lines[n - 1]), lines, n)
  {
    hide Flat, Names, LineValue, HeaderName;
    var line := lines[n - 1];
    var current := OpenGroups(before, line);
    NamesOpenGroups(before, line);
    if LineValue(line).Some? {
      FlatWithValue(current, LineValue(line).value);
    }
  }

  lemma NamesOpenGroups(st: ParseState, line: string)
    requires st.Valid()
    ensures var r := OpenGroups(st, line);
            && Flat(r) == Flat(st.groups)
            && Names(r) == Names(st.groups)
                 + (if IsHeader(line) then [HeaderName(line)] else if !st.open then [DEFAULT_GROUP_NAME] else [])
            && (Names(st.groups) == [] <==> st.groups == [])
  {
    FlatOpenGroups(st, line);
    hide Flat;
    var r := OpenGroups(st, line);
    if |r| > |st.groups| {
      assert r[..|r| - 1] == st.groups;
    }
  }
}
