/**
  The INI reader and writer as programs: the scan of `pos_char_lr`, the loop of `ini_parse`
  with its line buffers and trimmed strings, the configuration that grows by appended groups
  and values, and `write_ini_file`. They are proved to compute `IniText.Parse` and
  `IniText.Print`.
 */
module Ini {
  import opened Wrappers
  import opened Strings
  import opened IniText

  // ----- pos_char_lr -----

  datatype CharPosition = First | Last

  /** Where the scan stops: at `what`, at a NUL, or at the end. */
  function ScanIndex(what: char, s: string): (i: nat)
    ensures i <= |s|
    ensures forall k | 0 <= k < i :: s[k] != what && s[k] != NUL
    ensures i < |s| ==> s[i] == what || s[i] == NUL
  {
    if s == "" || s[0] == what || s[0] == NUL then 0 else 1 + ScanIndex(what, s[1..])
  }

  lemma {:induction false} ScanOfPlainText(what: char, s: string, t: string)
    requires NoNul(s) && (t == "" || t[0] == NUL)
    ensures ScanIndex(what, s + t) == Index(what, s)
  {
    if s != "" && s[0] != what {
      assert (s + t)[1..] == s[1..] + t;
      ScanOfPlainText(what, s[1..], t);
    }
  }

  /** One turn of the scan for position `i` of a buffer: the next position, or none when it stops. */
  function ScanStep(what: char, buff: string, size: nat, pos: CharPosition, i: nat): Option<nat>
    requires i <= size < |buff|
  {
    if buff[i] == NUL || i >= size then None
    else if buff[i] == what then
      if pos == Last && buff[i + 1] == what then Some(i) else None
    else Some(i + 1)
  }

  /** The position after at most `turns` turns. */
  function ScanRun(what: char, buff: string, size: nat, pos: CharPosition, turns: nat): (i: nat)
    requires size < |buff|
    ensures i <= size
  {
    if turns == 0 then 0
    else
      var i := ScanRun(what, buff, size, pos, turns - 1);
      var next := ScanStep(what, buff, size, pos, i);
      if next.None? then i else next.value
  }

  ghost predicate ScanFinishes(what: char, buff: string, size: nat, pos: CharPosition)
    requires size < |buff|
  {
    exists turns: nat :: ScanStep(what, buff, size, pos, ScanRun(what, buff, size, pos, turns)).None?
  }

  /** The scan for the last one does not move on when the first `what` it meets is followed by another. */
  predicate ScanStuck(what: char, buff: string, size: nat, pos: CharPosition)
    requires size < |buff|
  {
    var i := ScanIndex(what, buff[..size]);
    pos == Last && i < size && buff[i] == what != NUL && buff[i + 1] == what
  }

  lemma {:induction false} ScanAdvances(what: char, buff: string, size: nat, pos: CharPosition, turns: nat)
    requires size < |buff|
    ensures var i := ScanIndex(what, buff[..size]);
            ScanRun(what, buff, size, pos, turns) == if turns < i then turns else i
  {
    if turns > 0 {
      ScanAdvances(what, buff, size, pos, turns - 1);
    }
  }

  /** The scan terminates exactly on the buffers without such a pair. */
  lemma ScanFinishesExactly(what: char, buff: string, size: nat, pos: CharPosition)
    requires size < |buff|
    ensures ScanFinishes(what, buff, size, pos) <==> !ScanStuck(what, buff, size, pos)
  {
    var i := ScanIndex(what, buff[..size]);
    ScanAdvances(what, buff, size, pos, i);
    assert i < size ==> buff[i] == buff[..size][i];
    if ScanFinishes(what, buff, size, pos) {
      var turns: nat :| ScanStep(what, buff, size, pos, ScanRun(what, buff, size, pos, turns)).None?;
      ScanAdvances(what, buff, size, pos, turns);
      assert turns < i ==> buff[turns] == buff[..size][turns];
    }
  }

  /** `stop` is where the text that the scan may look at ends: the size given, or a NUL before it. */
  method PosCharLr(what: char, buff: array<char>, off: nat, size: nat, pos: CharPosition, ghost stop: nat)
    returns (i: nat)
    requires off + stop < buff.Length && stop <= size
    requires stop < size ==> buff[off + stop] == NUL
    requires pos == Last ==>
               var n := ScanIndex(what, buff[off..off + stop]);
               n < stop && buff[off + n] == what ==> buff[off + n + 1] != what
    requires what != NUL
    ensures i == ScanIndex(what, buff[off..off + stop])
  {
    ghost var text, n := buff[off..off + stop], ScanIndex(what, buff[off..off + stop]);
    i := 0;
    while buff[off + i] != NUL
      invariant i <= n
      decreases n - i
    {
      assert i < stop ==> text[i] == buff[off + i];
      if i >= size { break; }
      if buff[off + i] == what {
        if pos == Last {
          if buff[off + i + 1] != what { break; }
          assert false;  // the loop would not advance
        } else {
          break;
        }
      }
      i := i + 1;
    }
  }

  // ----- the configuration -----

  class IniGroup {
    const name: string
    var values: seq<KeyValue>

    /** `ini_group_new` */
    constructor (name: string)
      ensures this.name == name && values == []
    {
      this.name := name;
      values := [];
    }

    /** `ini_group_append_value` */
    method AppendValue(v: KeyValue)
      modifies this
      ensures values == old(values) + [v]
    {
      values := values + [v];
    }
  }

  class IniConfig {
    var groups: seq<IniGroup>

    ghost predicate Valid()
      reads this
    {
      forall i, j | 0 <= i < j < |groups| :: groups[i] != groups[j]
    }

    ghost function View(): (v: seq<Group>)
      reads this, groups
      ensures |v| == |groups|
    {
      seq(|groups|, i requires 0 <= i < |groups| reads this, groups => Group(groups[i].name, groups[i].values))
    }

    constructor ()
      ensures Valid() && groups == []
    {
      groups := [];
    }

    /** `ini_config_append_group` */
    method AppendGroup(g: IniGroup)
      requires Valid() && g !in groups
      modifies this
      ensures Valid() && groups == old(groups) + [g]
      ensures View() == old(View()) + [Group(g.name, g.values)]
    {
      groups := groups + [g];
    }
  }

  /** `group` is null or the last group of the configuration, and created since `old` groups. */
  ghost predicate Linked(config: IniConfig, group: IniGroup?)
    reads config
  {
    config.Valid() && (group != null ==> config.groups != [] && group == config.groups[|config.groups| - 1])
  }

  ghost function StateOf(config: IniConfig, group: IniGroup?, count: int): ParseState
    reads config, config.groups
  {
    ParseState(config.View(), group != null, count)
  }

  // ----- one line -----

  /** A line in its zeroed buffer. */
  ghost predicate Buffered(line: array<char>, s: string)
    reads line
  {
    && line.Length == LINE_SIZE
    && |s| < LINE_SIZE
    && NoNul(s)
    && line[..|s|] == s
    && forall k | |s| <= k < LINE_SIZE :: line[k] == NUL
  }

  /** The string in a NUL-terminated buffer. */
  method CStringIn(buff: array<char>, ghost s: string) returns (r: string)
    requires |s| < buff.Length && NoNul(s) && buff[..|s|] == s && buff[|s|] == NUL
    ensures r == s
  {
    var n := 0;
    while buff[n] != NUL
      invariant 0 <= n <= |s|
      decreases |s| - n
    {
      n := n + 1;
    }
    r := buff[..n];
  }

  /** The size that the scan for the space is given: the line without the trimmed key. */
  function ValueScanSize(s: string): (n: nat)
    ensures |s| - EqualPos(s) <= n <= |s|
  {
    KeyLength(s[..EqualPos(s)]);
    |s| - |Strip(s[..EqualPos(s)], WHITESPACE)|
  }

  /** The lines excluded from reading as `Doubled` are those on which the scan for the space
      does not finish. The line is followed by NULs, of which the scan reads at most one. */
  lemma DoubledExactly(s: string, nuls: string)
    requires NoNul(s) && (forall k | 0 <= k < |nuls| :: nuls[k] == NUL)
    requires ValueScanSize(s) < |s[EqualPos(s)..] + nuls|
    ensures Doubled(s) <==> !ScanFinishes(' ', s[EqualPos(s)..] + nuls, ValueScanSize(s), Last)
  {
    var tail, size := s[EqualPos(s)..], ValueScanSize(s);
    hide ValueScanSize, EqualPos;
    TailScan(tail, nuls, size);
    hide ScanFinishes, Index;
    assert SpacePos(s) + 1 < |s| ==> tail[SpacePos(s) + 1 - EqualPos(s)] == s[SpacePos(s) + 1];
  }

  lemma TailScan(tail: string, nuls: string, size: nat)
    requires NoNul(tail) && (forall k | 0 <= k < |nuls| :: nuls[k] == NUL)
    requires |tail| <= size < |tail + nuls|
    ensures var i := Index(' ', tail);
            ScanFinishes(' ', tail + nuls, size, Last) <==> !(i + 1 < |tail| && tail[i + 1] == ' ')
  {
    var buff := tail + nuls;
    ScanFinishesExactly(' ', buff, size, Last);
    hide ScanFinishes, ScanIndex, Index;
    assert buff[..size] == tail + nuls[..size - |tail|];
    ScanOfPlainText(' ', tail, nuls[..size - |tail|]);
    var i := Index(' ', tail);
    assert i < |tail| ==> buff[i] == tail[i] == ' ';
    assert i + 1 < |buff| ==> buff[i + 1] == if i + 1 < |tail| then tail[i + 1] else NUL;
  }

  /** A buffer of `LINE_SIZE` with `len` characters of the line from `from` on, trimmed in place.
      `t` is the part of the line among them; NULs make up the rest. */
  method TrimmedCopy(line: array<char>, from: nat, len: nat, ghost s: string, ghost t: string) returns (str: GrrrString)
    requires Buffered(line, s) && from <= |s| && from + len <= LINE_SIZE
    requires t == if from + len <= |s| then s[from..from + len] else s[from..]
    ensures fresh(str) && fresh(str.data)
    ensures str.Holds(Strip(t, WHITESPACE))
    ensures str.len == TrimmedLen(t, len - |t|, WHITESPACE)
  {
    hide Strip, TrimmedLen;
    str := new GrrrString.Empty(LINE_SIZE);
    str.len := len;
    forall k | 0 <= k < len { str.data[k] := line[from + k]; }
    assert str.data[..|t|] == t by {
      assert forall k | 0 <= k < |t| :: str.data[k] == line[from + k] == line[..|s|][from + k];
    }
    str.Trim(Default, t);
  }

  /** The scan for the space, which is given the trimmed length of the key. */
  method FindSpace(line: array<char>, lineLen: nat, equalPos: nat, keyLen: nat, ghost s: string) returns (n: nat)
    requires Buffered(line, s) && lineLen == |s| < LINE_SIZE && !Doubled(s)
    requires equalPos == EqualPos(s) && keyLen == |s| - ValueScanSize(s)
    ensures n == SpacePos(s) - EqualPos(s)
  {
    ghost var rest := s[equalPos..];
    assert line[equalPos..lineLen] == rest + "";
    ScanOfPlainText(' ', rest, "");
    hide Strip, ScanIndex, Index, EqualPos, ValueScanSize;
    n := PosCharLr(' ', line, equalPos, lineLen - keyLen, Last, lineLen - equalPos);
  }

  /** The second half of the body of the loop in `ini_parse`: from the equal sign to the value. */
  method ReadValue(line: array<char>, lineLen: nat, ghost s: string) returns (v: Option<KeyValue>)
    requires Buffered(line, s) && lineLen == |s| && Fits(s) && !Doubled(s)
    ensures v == LineValue(s)
  {
    hide Strip, TrimmedLen, ScanIndex, Index, Doubled;
    ghost var eq := EqualPos(s);
    assert line[0..lineLen] == s + "";
    ScanOfPlainText('=', s, "");
    var equalPos := PosCharLr('=', line, 0, lineLen, First, lineLen);
    var keyStr := TrimmedCopy(line, 0, equalPos, s, s[..eq]);
    KeyLength(s[..eq]);

    var valPos := equalPos;
    var valLen := lineLen - equalPos - 1;
    var spacePos := FindSpace(line, lineLen, equalPos, keyStr.len, s);
    valPos := valPos + spacePos + 1;
    valLen := valLen - spacePos;
    v := None;
    if valLen > 0 {
      var valStr := TrimmedCopy(line, valPos, lineLen, s, s[valPos..]);
      var key := CStringIn(keyStr.data, Strip(s[..eq], WHITESPACE));
      var value := CStringIn(valStr.data, Strip(s[valPos..], WHITESPACE));
      v := Some(KeyValue(key, value));
    }
  }

  lemma KeyLength(t: string)
    ensures TrimmedLen(t, 0, WHITESPACE) == |Strip(t, WHITESPACE)| <= |t|
  {
    TrimmedLenWithoutNuls(t, WHITESPACE);
    StripIsStripped(t, WHITESPACE);
  }

  lemma NameInLine(s: string)
    requires IsHeader(s) && NoNul(s)
    ensures |HeaderName(s)| == Index(']', s) - 1 && NoNul(HeaderName(s))
    ensures forall k | 0 <= k < |HeaderName(s)| :: HeaderName(s)[k] == s[1 + k]
  {
  }

  method ReadHeaderName(line: array<char>, lineLen: nat, ghost s: string) returns (n: string)
    requires Buffered(line, s) && lineLen == |s| && IsHeader(s)
    ensures n == HeaderName(s)
  {
    assert line[0..lineLen] == s + "";
    ScanOfPlainText(']', s, "");
    var groupEnd := PosCharLr(']', line, 0, lineLen, First, lineLen);
    var nameLen := groupEnd - 1;
    var name := new char[LINE_SIZE](_ => NUL);
    forall k | 0 <= k < nameLen { name[k] := line[1 + k]; }
    ghost var h := HeaderName(s);
    NameInLine(s);
    hide ScanIndex, Index, HeaderName;
    assert |h| == nameLen < name.Length && name[nameLen] == NUL;
    assert forall k | 0 <= k < nameLen :: name[k] == line[1 + k] == line[..|s|][1 + k];
    assert name[..nameLen] == h;
    n := CStringIn(name, h);
  }

  /** The first half: a header opens a group, and without any group a default one is opened. */
  method OpenGroup(line: array<char>, lineLen: nat, config: IniConfig, group: IniGroup?, ghost s: string)
    returns (g: IniGroup)
    requires Buffered(line, s) && lineLen == |s| && IsSignificant(s)
    requires Linked(config, group)
    modifies config
    ensures Linked(config, g) && (g == group || fresh(g))
    ensures config.View() == OpenGroups(old(StateOf(config, group, 0)), s)
    ensures old(config.groups) <= config.groups
  {
    hide HeaderName;
    var current := group;
    if line[0] == '[' {
      var name := ReadHeaderName(line, lineLen, s);
      current := new IniGroup(name);
      config.AppendGroup(current);
    }
    if current == null {
      current := new IniGroup(DEFAULT_GROUP_NAME);
      config.AppendGroup(current);
    }
    g := current;
  }

  /** A value goes to the last group. */
  method AppendToLast(config: IniConfig, g: IniGroup, v: KeyValue)
    requires Linked(config, g)
    modifies g
    ensures Linked(config, g)
    ensures config.View() == WithValue(old(config.View()), Some(v))
  {
    g.AppendValue(v);
    ghost var now, before := config.View(), old(config.View());
    forall k | 0 <= k < |now|
      ensures now[k] == WithValue(before, Some(v))[k]
    {
      assert k < |now| - 1 ==> config.groups[k] != g;
    }
  }

  /** Both halves: what one significant line does to the configuration. */
  method ReadLine(line: array<char>, lineLen: nat, config: IniConfig, group: IniGroup?, ghost s: string)
    returns (g: IniGroup)
    requires Buffered(line, s) && lineLen == |s| && IsSignificant(s) && Fits(s) && !Doubled(s)
    requires Linked(config, group)
    modifies config, if group == null then {} else {group}
    ensures Linked(config, g) && (g == group || fresh(g))
    ensures config.View() == ParseLine(old(StateOf(config, group, 0)), s).groups
    ensures old(config.groups) <= config.groups
  {
    hide Fits, Doubled, LineValue, OpenGroups, WithValue, Buffered;
    g := OpenGroup(line, lineLen, config, group, s);
    var v := ReadValue(line, lineLen, s);
    if v.Some? {
      AppendToLast(config, g, v.value);
    } else {
      NoValue(config.View());
    }
  }

  lemma NoValue(groups: seq<Group>)
    requires groups != []
    ensures WithValue(groups, None) == groups
  {
  }

  // ----- the reader -----

  /** The lines that the reader sees in a buffer: a line ends at a newline or at a NUL, and a NUL
      at the start of a line ends the text. */
  function BufferLines(s: string): seq<string>
    decreases |s|
  {
    if s == "" || s[0] == NUL then []
    else
      var n := ScanIndex('\n', s);
      [s[..n]] + BufferLines(if n < |s| then s[n + 1..] else "")
  }

  /** What the reader adds to an empty configuration; nothing is known of it where it does not
      come to an end or runs over a buffer. */
  function ReadBack(text: string): Option<seq<Group>> {
    if AllReadable(BufferLines(text)) then Some(ParseLines(START, BufferLines(text)).groups) else None
  }

  /** A text without NULs is split at its newlines. */
  lemma {:induction false} BufferLinesOfText(text: string)
    requires NoNul(text)
    ensures BufferLines(text) == Lines(text)
    decreases |text|
  {
    NoLinesAtEnd();
    hide BufferLines, Lines, ScanIndex, Index;
    if text != "" {
      var n := Index('\n', text);
      var rest := if n < |text| then text[n + 1..] else "";
      assert text + "" == text;
      ScanOfPlainText('\n', text, "");
      FirstLine(text);
      FirstBufferLine(text);
      NoNulRest(text, n);
      BufferLinesOfText(rest);
    }
  }

  lemma NoLinesAtEnd()
    ensures Lines("") == [] == BufferLines("")
  {
  }

  lemma FirstLine(text: string)
    requires text != ""
    ensures var n := Index('\n', text);
            Lines(text) == [text[..n]] + Lines(if n < |text| then text[n + 1..] else "")
  {
    hide Index;
  }

  lemma FirstBufferLine(text: string)
    requires text != "" && text[0] != NUL
    ensures var n := ScanIndex('\n', text);
            BufferLines(text) == [text[..n]] + BufferLines(if n < |text| then text[n + 1..] else "")
  {
    hide ScanIndex;
  }

  lemma NoNulRest(text: string, n: nat)
    requires NoNul(text) && n <= |text|
    ensures NoNul(if n < |text| then text[n + 1..] else "")
  {
  }

  lemma {:induction false} LinesHaveNoNul(s: string)
    ensures forall k | 0 <= k < |BufferLines(s)| :: NoNul(BufferLines(s)[k])
    decreases |s|
  {
    if s != "" && s[0] != NUL {
      var n := ScanIndex('\n', s);
      LinesHaveNoNul(if n < |s| then s[n + 1..] else "");
    }
  }

  /** Groups that were there before stay in front. */
  lemma {:induction false} ParseBehind(front: seq<Group>, st: ParseState, lines: seq<string>)
    requires st.Valid()
    ensures var r, q := ParseLines(st.(groups := front + st.groups), lines), ParseLines(st, lines);
            r.groups == front + q.groups && r.count == q.count && r.open == q.open
    decreases |lines|
  {
    if lines != [] {
      LineBehind(front, st, lines[0]);
      ParseBehind(front, ParseLine(st, lines[0]), lines[1..]);
    }
  }

  lemma LineBehind(front: seq<Group>, st: ParseState, line: string)
    requires st.Valid()
    ensures var q := ParseLine(st, line);
            ParseLine(st.(groups := front + st.groups), line) == q.(groups := front + q.groups)
  {
    hide LineValue, HeaderName;
    if IsSignificant(line) {
      var inner := OpenGroups(st, line);
      assert OpenGroups(st.(groups := front + st.groups), line) == front + inner;
      assert WithValue(front + inner, LineValue(line)) == front + WithValue(inner, LineValue(line));
    }
  }

  /** The body of the loop once the line is found. */
  method ReadAt(buff: array<char>, at: nat, lineLen: nat, config: IniConfig, group: IniGroup?, count: int, ghost s: string)
    returns (g: IniGroup?, result: int)
    requires at + lineLen <= buff.Length && s == buff[at..at + lineLen] && lineLen > 0
    requires NoNul(s) && Readable(s) && Linked(config, group)
    modifies config, if group == null then {} else {group}
    ensures Linked(config, g) && (g == group || fresh(g))
    ensures StateOf(config, g, result) == ParseLine(old(StateOf(config, group, count)), s)
  {
    hide Fits, Doubled, LineValue, WithValue, HeaderName;
    ReadableFits(s);
    g, result := group, count;
    var line := new char[LINE_SIZE](_ => NUL);
    forall k | 0 <= k < lineLen { line[k] := buff[at + k]; }
    assert line[..lineLen] == s;
    if line[0] == ';' || line[0] == '#' { return; }
    g := ReadLine(line, lineLen, config, group, s);
    if result < 0 { result := 0; }
    result := result + 1;
  }

  lemma ReadableFits(s: string)
    requires Readable(s)
    ensures |s| <= LINE_SIZE
    ensures IsSignificant(s) ==> Fits(s) && !Doubled(s) && |s| < LINE_SIZE
  {
  }

  /** `ini_parse`. The loop looks at the character behind the text, and at the next one too when the
      last line ends neither in a newline nor in a NUL; whatever they are. */
  method IniParse(buff: array<char>, size: nat, config: IniConfig) returns (result: int)
    requires size < buff.Length
    requires size > 0 && buff[size - 1] != '\n' && buff[size - 1] != NUL ==> size + 1 < buff.Length
    requires config.Valid() && AllReadable(BufferLines(buff[..size]))
    modifies config
    ensures config.Valid()
    ensures config.View() == old(config.View()) + ParseLines(START, BufferLines(buff[..size])).groups
    ensures result == ParseLines(START, BufferLines(buff[..size])).count
  {
    hide BufferLines, ParseLine, ParseLines, ScanIndex, Readable, AllReadable;
    ghost var front, content := config.View(), buff[..size];
    ghost var start := ParseState(front, false, -1);
    ParseBehind(front, START, BufferLines(content));
    assert front + START.groups == front;
    result := -1;
    var pos := 0;
    var group: IniGroup? := null;
    while buff[pos] != NUL
      invariant 0 <= pos <= size + 1 && pos < buff.Length && buff[..size] == content
      invariant Linked(config, group) && (group != null ==> fresh(group))
      invariant AllReadable(BufferLines(Rest(content, pos)))
      invariant ParseLines(start, BufferLines(content)) ==
                ParseLines(StateOf(config, group, result), BufferLines(Rest(content, pos)))
      decreases size + 1 - pos
    {
      if pos >= size { break; }
      ghost var rest := Rest(content, pos);
      assert rest == buff[pos..size] && rest[0] == buff[pos];
      var lineLen := PosCharLr('\n', buff, pos, size - pos, First, size - pos);
      ghost var s := rest[..lineLen];
      NextLine(content, pos, lineLen, StateOf(config, group, result));
      BlankLine(StateOf(config, group, result));
      UnendedLine(rest, lineLen);
      assert rest[|rest| - 1] == buff[size - 1];
      pos := pos + lineLen + 1;
      if lineLen == 0 { continue; }

      group, result := ReadAt(buff, pos - lineLen - 1, lineLen, config, group, result, s);
    }
    NothingLeft(content, pos, StateOf(config, group, result));
  }

  lemma UnendedLine(rest: string, lineLen: nat)
    requires rest != "" && lineLen == ScanIndex('\n', rest)
    ensures lineLen == |rest| ==> rest[|rest| - 1] != '\n' && rest[|rest| - 1] != NUL
  {
    hide ScanIndex;
  }

  lemma NothingLeft(content: string, pos: nat, st: ParseState)
    requires pos < |content| ==> content[pos] == NUL
    requires st.Valid()
    ensures ParseLines(st, BufferLines(Rest(content, pos))) == st
  {
  }

  lemma BlankLine(st: ParseState)
    requires st.Valid()
    ensures ParseLine(st, "") == st
  {
  }

  function Rest(content: string, pos: nat): string {
    if pos <= |content| then content[pos..] else ""
  }

  lemma NextLine(content: string, pos: nat, lineLen: nat, st: ParseState)
    requires pos < |content| && content[pos] != NUL && st.Valid()
    requires lineLen == ScanIndex('\n', Rest(content, pos))
    requires AllReadable(BufferLines(Rest(content, pos)))
    ensures var rest := Rest(content, pos);
            && lineLen <= |rest| && NoNul(rest[..lineLen]) && Readable(rest[..lineLen])
            && AllReadable(BufferLines(Rest(content, pos + lineLen + 1)))
            && ParseLines(st, BufferLines(rest)) ==
               ParseLines(ParseLine(st, rest[..lineLen]), BufferLines(Rest(content, pos + lineLen + 1)))
  {
    var rest := Rest(content, pos);
    var lines := BufferLines(rest);
    assert Rest(content, pos + lineLen + 1) == if lineLen < |rest| then rest[lineLen + 1..] else "";
    assert lines[0] == rest[..lineLen] && lines[1..] == BufferLines(Rest(content, pos + lineLen + 1));
  }

  // ----- the writer -----

  lemma {:induction false} PrintValuesOneMore(values: seq<KeyValue>, v: KeyValue)
    ensures PrintValues(values + [v]) == PrintValues(values) + ValueLine(v) + "\n"
  {
    if values == [] {
      assert [v][1..] == [];
    } else {
      assert (values + [v])[1..] == values[1..] + [v];
      PrintValuesOneMore(values[1..], v);
    }
  }

  lemma {:induction false} PrintOneMore(groups: seq<Group>, g: Group)
    ensures Print(groups + [g]) == Print(groups) + PrintGroup(g)
  {
    if groups == [] {
      assert [g][1..] == [];
    } else {
      assert (groups + [g])[1..] == groups[1..] + [g];
      PrintOneMore(groups[1..], g);
    }
  }

  /** The outer loop's body in `write_ini_file`: a header, a line for each value, a blank line. */
  method WriteGroup(g: IniGroup, before: string) returns (text: string)
    ensures text == before + PrintGroup(Group(g.name, g.values))
  {
    hide ValueLine;
    text := before + "[" + g.name + "]\n";
    ghost var start := text;
    assert start == before + (HeaderLine(g.name) + "\n");
    var j := 0;
    while j < |g.values|
      invariant 0 <= j <= |g.values|
      invariant text == start + PrintValues(g.values[..j])
    {
      PrintValuesOneMore(g.values[..j], g.values[j]);
      assert g.values[..j + 1] == g.values[..j] + [g.values[j]];
      text := WriteValue(g.values[j], text);
      j := j + 1;
    }
    assert g.values[..j] == g.values;
    text := text + "\n";
  }

  method WriteValue(v: KeyValue, before: string) returns (text: string)
    ensures text == before + (ValueLine(v) + "\n")
  {
    text := before + v.key + " = " + v.value + "\n";
  }

  /** `write_ini_file`, to a string. */
  method WriteIni(config: IniConfig) returns (text: string)
    ensures text == Print(config.View())
  {
    hide PrintGroup;
    ghost var view := config.View();
    text := "";
    var i := 0;
    while i < |config.groups|
      invariant 0 <= i <= |config.groups|
      invariant text == Print(view[..i])
    {
      PrintOneMore(view[..i], view[i]);
      assert view[..i + 1] == view[..i] + [view[i]];
      text := WriteGroup(config.groups[i], text);
      i := i + 1;
    }
    assert view[..i] == view;
  }
}
