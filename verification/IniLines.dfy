/**
  What the reader makes of lines that a person may have written, form by form: assignments with and
  without a space, headers, comments and values before any header.
 */
module IniLines {
  import opened Wrappers
  import opened Strings
  import opened IniText
  import Ini

  // ----- assignments -----

  lemma EqualAfter(key: string, rest: string)
    requires '=' !in key
    ensures EqualPos(key + "=" + rest) == |key|
  {
    var line := key + "=" + rest;
    assert line[..|key|] == key && line[|key|] == '=';
    IndexIs('=', line, |key|);
  }

  /** Without a space behind the equal sign there is no value: `key=value` assigns nothing. */
  lemma NoSpaceNoValue(key: string, a: string)
    requires '=' !in key && ' ' !in a
    ensures LineValue(key + "=" + a) == None
  {
    var line := key + "=" + a;
    EqualAfter(key, a);
    var tail := line[|key|..];
    assert tail == "=" + a && tail[..|tail|] == tail;
    hide Index;
    IndexIs(' ', tail, |tail|);
  }

  /** Otherwise what stands before the first such space is skipped, and the value is what follows it,
      as long as there is anything: key and value without the white space at their ends. */
  lemma SpaceThenValue(key: string, a: string, b: string)
    requires '=' !in key && ' ' !in a
    ensures LineValue(key + "=" + a + " " + b) ==
              if b == "" then None else Some(KeyValue(Strip(key, WHITESPACE), Strip(b, WHITESPACE)))
  {
    var line := key + "=" + a + " " + b;
    assert line == key + "=" + (a + " " + b);
    EqualAfter(key, a + " " + b);
    hide Index, Strip;
    var tail := line[|key|..];
    assert tail == "=" + a + " " + b && tail[..|a| + 1] == "=" + a;
    IndexIs(' ', tail, |a| + 1);
    assert line[..|key|] == key && line[|key| + |a| + 2..] == b;
  }

  /** A line without an equal sign assigns nothing. */
  lemma NoEqualNoValue(line: string)
    requires '=' !in line
    ensures LineValue(line) == None
  {
    assert line[..|line|] == line;
    IndexIs('=', line, |line|);
    hide Index;
    assert line[|line|..] == "";
  }

  // ----- headers, comments, and the default group -----

  /** The name of a header ends at the first closing bracket, or at the end of the line. */
  lemma HeaderNameExactly(name: string, rest: string)
    requires ']' !in name && (rest == "" || rest[0] == ']')
    ensures HeaderName("[" + name + rest) == name
  {
    var line := "[" + name + rest;
    var n := 1 + |name|;
    assert line[..n] == "[" + name;
    IndexIs(']', line, n);
    hide Index;
    assert line[1..n] == name;
  }

  /** Only blank lines and lines that open with a semicolon or a hash are skipped. */
  lemma SkippedExactly(st: ParseState, line: string)
    requires st.Valid()
    ensures ParseLine(st, line) == st <==> line == "" || line[0] in ";#"
  {
    hide OpenGroups, LineValue, WithValue;
  }

  /** The effect of a line that opens no group: its value, if any, goes to the last group. */
  lemma AssignmentLine(st: ParseState, line: string, v: KeyValue)
    requires st.Valid() && st.open && line != "" && line[0] !in "[;#" && LineValue(line) == Some(v)
    ensures var last := st.groups[|st.groups| - 1];
            ParseLine(st, line).groups == st.groups[|st.groups| - 1 := Group(last.name, last.values + [v])]
  {
    hide LineValue;
  }

  lemma EmptyLine(st: ParseState, line: string)
    requires st.Valid() && st.open && line != "" && line[0] !in "[;#" && LineValue(line) == None
    ensures ParseLine(st, line).groups == st.groups
  {
    hide LineValue;
  }

  /** What stands before any header belongs to a group named "base". */
  lemma FirstAssignment(line: string, v: KeyValue)
    requires line != "" && line[0] !in "[;#" && LineValue(line) == Some(v)
    ensures ParseLine(START, line).groups == [Group("base", [v])]
  {
    hide LineValue;
    assert [] + [v] == [v];
  }

  /** A header opens a group of its name, and its own line gives that group a value only if it looks
      like an assignment too. */
  lemma HeaderOpens(st: ParseState, line: string)
    requires st.Valid() && line != "" && line[0] == '['
    ensures var value := LineValue(line);
            ParseLine(st, line).groups
            == st.groups + [Group(HeaderName(line), if value.Some? then [value.value] else [])]
  {
    hide LineValue, HeaderName;
    assert LineValue(line).Some? ==> [] + [LineValue(line).value] == [LineValue(line).value];
  }

  /** The white space that is trimmed. */
  lemma WhitespaceExactly(c: char)
    ensures c in WHITESPACE <==> c == ' ' || c == '\t' || c == '\r' || c == '\n'
  {
  }

  /** An assignment as the manual page writes it, and one without spaces. */
  lemma WrittenAssignment(st: ParseState, key: string, value: string)
    requires st.Valid() && st.open && '=' !in key && key != "" && key[0] !in "[;#" && value != ""
    requires Stripped(key, WHITESPACE) && Stripped(value, WHITESPACE)
    ensures var last := st.groups[|st.groups| - 1];
            ParseLine(st, key + " = " + value).groups
            == st.groups[|st.groups| - 1 := Group(last.name, last.values + [KeyValue(key, value)])]
    ensures ' ' !in value ==> ParseLine(st, key + "=" + value).groups == st.groups
  {
    var line := key + " = " + value;
    assert line == (key + " ") + "=" + "" + " " + value;
    SpaceThenValue(key + " ", "", value);
    KeyWithSpace(key);
    StrippedStays(value, WHITESPACE);
    hide LineValue, Strip, Stripped;
    AssignmentLine(st, line, KeyValue(key, value));
    if ' ' !in value {
      NoSpaceNoValue(key, value);
      EmptyLine(st, key + "=" + value);
    }
  }

  lemma KeyWithSpace(key: string)
    requires Stripped(key, WHITESPACE) && key != ""
    ensures Strip(key + " ", WHITESPACE) == key
  {
    var s := key + " ";
    LeadingIs(s, WHITESPACE, 0);
    assert s[..|s| - 1] == key;
    TrailingOfSpace(key);
  }

  lemma TrailingOfSpace(key: string)
    requires key != "" && key[|key| - 1] !in WHITESPACE
    ensures Trailing(key + " ", WHITESPACE) == 1
  {
    assert (key + " ")[|key|] == ' ' && (key + " ")[|key| - 1] == key[|key| - 1];
  }

  // ----- NULs in a buffer -----

  /** A NUL at the start of a line ends the text; one behind other characters ends the line only. */
  lemma NulInBuffer(line: string, rest: string)
    requires NoNul(line) && '\n' !in line && line != ""
    ensures Ini.BufferLines([NUL] + rest) == []
    ensures Ini.BufferLines(line + [NUL] + rest) == [line] + Ini.BufferLines(rest)
  {
    var text := line + ([NUL] + rest);
    assert text == line + [NUL] + rest && text[0] == line[0] != NUL;
    Ini.ScanOfPlainText('\n', line, [NUL] + rest);
    assert line[..|line|] == line;
    IndexIs('\n', line, |line|);
    Ini.FirstBufferLine(text);
    assert text[..|line|] == line && text[|line| + 1..] == rest;
  }
}
