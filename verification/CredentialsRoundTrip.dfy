/**
  Credentials through the whole pipeline: to INI groups, to text, to INI groups, to credentials.
 */
module CredentialsRoundTrip {
  import opened Wrappers
  import opened Strings
  import opened IniText
  import opened IniRoundTrip
  import opened Credentials
  import Ini

  // ----- what should come back -----

  /** The service, the flag, and the fields that are written and that the service loads. */
  function Restored(c: ApiCredentials): ApiCredentials {
    ApiCredentials(c.endPoint, c.enabled, c.userName, "", c.token, c.sessionKey,
                   if c.endPoint == ApiLibrefm || c.endPoint == ApiListenbrainz then c.url else "", "", "")
  }

  /** Entries of unknown services are dropped; the others keep their order. */
  function RestoredAll(creds: seq<ApiCredentials>): seq<ApiCredentials> {
    if creds == [] then []
    else
      var last := creds[|creds| - 1];
      RestoredAll(creds[..|creds| - 1]) + if last.endPoint == ApiUnknown then [] else [Restored(last)]
  }

  predicate PlainFields(c: ApiCredentials) {
    Plain(c.userName) && Plain(c.token) && Plain(c.sessionKey) && Plain(c.url)
  }

  /** No white space at the ends of the fields that are loaded again. */
  predicate FieldsStripped(c: ApiCredentials) {
    && Stripped(c.userName, WHITESPACE)
    && Stripped(c.token, WHITESPACE)
    && Stripped(c.sessionKey, WHITESPACE)
    && (HasUrl(c.endPoint) ==> Stripped(c.url, WHITESPACE))
  }

  // ----- one group -----

  predicate SettingKey(key: string) { key in ["enabled", "username", "token", "session", "url"] }

  lemma SettingKeyOk(key: string)
    requires SettingKey(key)
    ensures KeyOk(key) && Plain(key) && key != "" && key[0] != '['
  {
    assert Leading(key, WHITESPACE) == 0;
  }

  lemma SettingOut(key: string, value: string)
    requires SettingKey(key) && value != ""
    ensures LineOut(ValueLine(KeyValue(key, value))) == [KeyValue(key, Strip(value, WHITESPACE))]
  {
    hide SettingKey, ValueLine, LineOut, Strip, Stripped;
    SettingKeyOk(key);
    ValueLineOut(KeyValue(key, value));
    StrippedStays(key, WHITESPACE);
  }

  lemma {:induction false} OutsAppend(a: seq<KeyValue>, b: seq<KeyValue>)
    ensures Outs(a + b) == Outs(a) + Outs(b)
  {
    hide LineOut, ValueLine;
    if a == [] {
      assert a + b == b;
    } else {
      assert (a + b)[1..] == a[1..] + b;
      OutsAppend(a[1..], b);
    }
  }

  /** What a field that is written reads back as. */
  function FieldOut(key: string, value: string): seq<KeyValue> {
    if value == "" then [] else [KeyValue(key, Strip(value, WHITESPACE))]
  }

  lemma OutsIfSet(key: string, value: string)
    requires SettingKey(key)
    ensures Outs(IfSet(key, value)) == FieldOut(key, value)
  {
    hide LineOut, ValueLine, SettingKey, Strip;
    if value != "" {
      SettingOut(key, value);
      assert [KeyValue(key, value)][1..] == [];
    }
  }

  lemma {:induction false} LoadValuesAppend(c: ApiCredentials, a: seq<KeyValue>, b: seq<KeyValue>)
    ensures LoadValues(c, a + b) == LoadValues(LoadValues(c, a), b)
  {
    hide LoadValue;
    if b == [] {
      assert a + b == a;
    } else {
      var n := |b| - 1;
      assert (a + b)[..|a + b| - 1] == a + b[..n];
      LoadValuesAppend(c, a, b[..n]);
    }
  }

  lemma LoadOne(c: ApiCredentials, v: KeyValue)
    ensures LoadValues(c, [v]) == LoadValue(c, v)
  {
    assert [v][..0] == [];
  }

  lemma FirstDiffers(s: string, prefix: string)
    requires s != "" && prefix != "" && s[0] != prefix[0]
    ensures !StartsWith(s, prefix)
  {
  }

  /** The settings that are tested for by prefix do not match each other's names. */
  lemma OnlyItself(key: string)
    requires SettingKey(key)
    ensures StartsWith(key, "enabled") <==> key == "enabled"
    ensures StartsWith(key, "username") <==> key == "username"
    ensures !StartsWith(key, "password")
    ensures StartsWith(key, "token") <==> key == "token"
    ensures StartsWith(key, "session") <==> key == "session"
    ensures StartsWith(key, "url") <==> key == "url"
  {
    FirstDiffers(key, "password");
    if key == "username" {
      assert "username"[1] == 's' && "url"[1] == 'r';
    }
    if StartsWith(key, "enabled") { assert key[0] == 'e'; }
    if StartsWith(key, "username") { assert key[0] == 'u'; }
    if StartsWith(key, "token") { assert key[0] == 't'; }
    if StartsWith(key, "session") { assert key[0] == 's'; }
    if StartsWith(key, "url") { assert key[0] == 'u'; }
  }

  lemma LoadUserName(c: ApiCredentials, value: string)
    requires c.userName == ""
    ensures LoadValues(c, FieldOut("username", value)) == c.(userName := Strip(value, WHITESPACE))
  {
    StripIsStripped(value, WHITESPACE);
    OnlyItself("username");
    hide Strip, StartsWith;
    if value != "" {
      LoadOne(c, KeyValue("username", Strip(value, WHITESPACE)));
    }
  }

  lemma LoadToken(c: ApiCredentials, value: string)
    requires c.token == ""
    ensures LoadValues(c, FieldOut("token", value)) == c.(token := Strip(value, WHITESPACE))
  {
    StripIsStripped(value, WHITESPACE);
    OnlyItself("token");
    hide Strip, StartsWith;
    if value != "" {
      LoadOne(c, KeyValue("token", Strip(value, WHITESPACE)));
    }
  }

  lemma LoadSession(c: ApiCredentials, value: string)
    requires c.sessionKey == ""
    ensures LoadValues(c, FieldOut("session", value)) == c.(sessionKey := Strip(value, WHITESPACE))
  {
    StripIsStripped(value, WHITESPACE);
    OnlyItself("session");
    hide Strip, StartsWith;
    if value != "" {
      LoadOne(c, KeyValue("session", Strip(value, WHITESPACE)));
    }
  }

  lemma LoadUrl(c: ApiCredentials, value: string)
    requires c.url == ""
    ensures LoadValues(c, FieldOut("url", value)) ==
            c.(url := if HasUrl(c.endPoint) then Strip(value, WHITESPACE) else "")
  {
    StripIsStripped(value, WHITESPACE);
    OnlyItself("url");
    hide Strip, StartsWith;
    if value != "" {
      LoadOne(c, KeyValue("url", Strip(value, WHITESPACE)));
    }
  }

  lemma LoadEnabled(c: ApiCredentials, enabled: bool)
    ensures LoadValues(c, [KeyValue("enabled", if enabled then "true" else "false")]) == c.(enabled := enabled)
  {
    assert StartsWith("true", "true") && StartsWith("false", "false");
    OnlyItself("enabled");
    FirstDiffers("true", "false");
    FirstDiffers("true", "0");
    hide StartsWith;
    LoadOne(c, KeyValue("enabled", if enabled then "true" else "false"));
  }

  lemma OutsOfGroup(c: ApiCredentials)
    requires c.endPoint != ApiUnknown
    ensures Outs(GroupOf(c).values) ==
            [KeyValue("enabled", if c.enabled then "true" else "false")]
            + (FieldOut("username", c.userName)
            + (FieldOut("token", c.token)
            + (FieldOut("session", c.sessionKey)
            + FieldOut("url", c.url))))
  {
    var flag := if c.enabled then "true" else "false";
    OutsOfFlag(flag);
    var first := [KeyValue("enabled", flag)];
    hide Outs, Strip, IfSet, FieldOut, SettingKey;
    var url := IfSet("url", c.url);
    var session := IfSet("session", c.sessionKey) + url;
    var token := IfSet("token", c.token) + session;
    var user := IfSet("username", c.userName) + token;
    OutsAppend(first, user);
    OutsAppend(IfSet("username", c.userName), token);
    OutsAppend(IfSet("token", c.token), session);
    OutsAppend(IfSet("session", c.sessionKey), url);
    OutsOfFields(c);
  }

  lemma OutsOfFields(c: ApiCredentials)
    ensures Outs(IfSet("username", c.userName)) == FieldOut("username", c.userName)
    ensures Outs(IfSet("token", c.token)) == FieldOut("token", c.token)
    ensures Outs(IfSet("session", c.sessionKey)) == FieldOut("session", c.sessionKey)
    ensures Outs(IfSet("url", c.url)) == FieldOut("url", c.url)
  {
    hide Outs, IfSet, FieldOut;
    OutsIfSet("username", c.userName);
    OutsIfSet("token", c.token);
    OutsIfSet("session", c.sessionKey);
    OutsIfSet("url", c.url);
  }

  lemma OutsOfFlag(flag: string)
    requires flag == "true" || flag == "false"
    ensures Outs([KeyValue("enabled", flag)]) == [KeyValue("enabled", flag)]
  {
    FlagStripped();
    SettingOut("enabled", flag);
    StrippedStays(flag, WHITESPACE);
    hide LineOut, ValueLine, Strip, Stripped, SettingKey;
    assert [KeyValue("enabled", flag)][1..] == [];
  }

  lemma FlagStripped()
    ensures Stripped("true", WHITESPACE) && Stripped("false", WHITESPACE)
  {
  }

  // ----- every group -----

  /** What is loaded of one entry: its fields without white space at the ends. */
  function Loaded(c: ApiCredentials): ApiCredentials {
    var r := Restored(c);
    r.(userName := Strip(r.userName, WHITESPACE), token := Strip(r.token, WHITESPACE),
       sessionKey := Strip(r.sessionKey, WHITESPACE), url := Strip(r.url, WHITESPACE))
  }

  lemma ServiceOfLabel(e: ApiType, before: ApiType)
    requires e != ApiUnknown
    ensures ServiceOf(GroupLabel(e), before) == e
  {
    assert "librefm"[1] != "lastfm"[1] && "listenbrainz"[1] != "lastfm"[1] && "listenbrainz"[2] != "librefm"[2];
  }

  lemma LabelOk(e: ApiType)
    requires e != ApiUnknown
    ensures NameOk(GroupLabel(e)) && Plain(GroupLabel(e)) && |GroupLabel(e)| + 2 < LINE_SIZE
  {
    NameWithoutSpaces(GroupLabel(e));
    hide NameOk;
  }

  lemma NameWithoutSpaces(name: string)
    requires ']' !in name && ' ' !in name
    ensures NameOk(name)
  {
  }

  lemma LoadOfGroup(c: ApiCredentials)
    requires c.endPoint != ApiUnknown
    ensures LoadGroup(EMPTY, Reread(GroupOf(c))) == Loaded(c)
  {
    hide LoadValues, Outs, FieldOut, Loaded, GroupLabel, ServiceOf, Reread, NameOk;
    ServiceOfLabel(c.endPoint, ApiUnknown);
    LabelOk(c.endPoint);
    RereadOkName(GroupOf(c));
    OutsOfGroup(c);
    LoadOfFields(c, EMPTY.(endPoint := c.endPoint));
  }

  lemma RereadOkName(g: Group)
    requires NameOk(g.name)
    ensures Reread(g) == Group(g.name, Outs(g.values))
  {
    hide HeaderName, LineOut, Outs, Index;
    HeaderReread(g.name);
    HeaderOutExact(g.name);
    assert [] + Outs(g.values) == Outs(g.values);
  }

  lemma LoadOfFields(c: ApiCredentials, start: ApiCredentials)
    requires start == EMPTY.(endPoint := c.endPoint)
    ensures LoadValues(start,
              [KeyValue("enabled", if c.enabled then "true" else "false")]
              + (FieldOut("username", c.userName)
              + (FieldOut("token", c.token)
              + (FieldOut("session", c.sessionKey)
              + FieldOut("url", c.url))))) == Loaded(c)
  {
    hide LoadValues, FieldOut;
    var first := [KeyValue("enabled", if c.enabled then "true" else "false")];
    var url := FieldOut("url", c.url);
    var session := FieldOut("session", c.sessionKey) + url;
    var token := FieldOut("token", c.token) + session;
    var user := FieldOut("username", c.userName) + token;
    LoadValuesAppend(start, first, user);
    LoadEnabled(start, c.enabled);
    var c1 := LoadValues(start, first);
    LoadValuesAppend(c1, FieldOut("username", c.userName), token);
    LoadUserName(c1, c.userName);
    var c2 := LoadValues(c1, FieldOut("username", c.userName));
    LoadValuesAppend(c2, FieldOut("token", c.token), session);
    LoadToken(c2, c.token);
    var c3 := LoadValues(c2, FieldOut("token", c.token));
    LoadValuesAppend(c3, FieldOut("session", c.sessionKey), url);
    LoadSession(c3, c.sessionKey);
    LoadUrl(LoadValues(c3, FieldOut("session", c.sessionKey)), c.url);
    StripIsStripped("", WHITESPACE);
  }

  // ----- all the entries -----

  predicate KnownPlain(creds: seq<ApiCredentials>) {
    forall k | 0 <= k < |creds| && creds[k].endPoint != ApiUnknown :: PlainFields(creds[k])
  }

  function LoadedAll(creds: seq<ApiCredentials>): seq<ApiCredentials> {
    if creds == [] then []
    else
      var last := creds[|creds| - 1];
      LoadedAll(creds[..|creds| - 1]) + if last.endPoint == ApiUnknown then [] else [Loaded(last)]
  }

  lemma GroupOfIsPlain(c: ApiCredentials)
    requires c.endPoint != ApiUnknown && PlainFields(c)
    ensures PlainValues(GroupOf(c).values) && Plain(GroupOf(c).name) && NoHeaderKeys(GroupOf(c).values)
  {
    LabelOk(c.endPoint);
    SettingKeys();
    FlagsArePlain();
    EnabledIsSet(c.enabled);
    hide Plain, GroupLabel, SettingKey, IfSet, NameOk, HeaderKey;
    IfSetIsPlain("enabled", if c.enabled then "true" else "false");
    IfSetIsPlain("username", c.userName);
    IfSetIsPlain("token", c.token);
    IfSetIsPlain("session", c.sessionKey);
    IfSetIsPlain("url", c.url);
  }

  lemma IfSetIsPlain(key: string, value: string)
    requires SettingKey(key) && Plain(value)
    ensures PlainValues(IfSet(key, value)) && NoHeaderKeys(IfSet(key, value))
  {
    SettingKeyOk(key);
    hide Plain, SettingKey;
  }

  lemma FlagsArePlain()
    ensures Plain("true") && Plain("false")
  {
  }

  lemma {:induction false} GroupsOfArePlain(creds: seq<ApiCredentials>)
    requires KnownPlain(creds)
    ensures PlainGroups(GroupsOf(creds)) && NoHeaderKeysIn(GroupsOf(creds))
  {
    if creds != [] {
      var front, last := creds[..|creds| - 1], creds[|creds| - 1];
      GroupsOfArePlain(front);
      if last.endPoint != ApiUnknown {
        GroupOfIsPlain(last);
      }
      hide PlainFields, PlainValues, NoHeaderKeys, GroupOf;
    }
  }

  lemma {:induction false} LoadOfReread(creds: seq<ApiCredentials>)
    ensures LoadAll(RereadAll(GroupsOf(creds))) == LoadedAll(creds)
  {
    hide GroupOf, Reread, Loaded, LoadGroup, LoadAll, RereadAll;
    if creds == [] {
      NothingReread();
    } else {
      var front, last := creds[..|creds| - 1], creds[|creds| - 1];
      LoadOfReread(front);
      if last.endPoint != ApiUnknown {
        LoadOfGroup(last);
        RereadOneMore(GroupsOf(front), GroupOf(last));
      } else {
        assert GroupsOf(front) + [] == GroupsOf(front) && LoadedAll(front) + [] == LoadedAll(front);
      }
    }
  }

  lemma NothingReread()
    ensures LoadAll(RereadAll([])) == []
  {
  }

  lemma RereadOneMore(groups: seq<Group>, g: Group)
    ensures LoadAll(RereadAll(groups + [g])) == LoadAll(RereadAll(groups)) + [LoadGroup(EMPTY, Reread(g))]
  {
    hide Reread, LoadGroup;
    RereadEach(groups);
    RereadEach(groups + [g]);
  }

  /** From credentials to the file's text and back; nothing where the reader does not get through
      the file, and where loading it fails. */
  function Pipeline(creds: seq<ApiCredentials>): Option<seq<ApiCredentials>> {
    match Ini.ReadBack(Print(GroupsOf(creds)))
    case Some(groups) => if Loadable(groups) then Some(LoadAll(groups)) else None
    case None => None
  }

  lemma ReadBackOfGroups(creds: seq<ApiCredentials>)
    requires KnownPlain(creds)
    ensures var read := Ini.ReadBack(Print(GroupsOf(creds)));
            read.Some? ==> read == Some(RereadAll(GroupsOf(creds)))
  {
    hide Print, DocLines, AllReadable, GroupsOf, PlainGroups, NoHeaderKeysIn, RereadAll, Ini.BufferLines;
    GroupsOfArePlain(creds);
    BufferLinesOfPrint(GroupsOf(creds));
    if Ini.ReadBack(Print(GroupsOf(creds))).Some? {
      ParseOfDoc(GroupsOf(creds));
    }
  }

  /** What comes back where the file is read and loaded: every known entry, its fields stripped. */
  lemma PipelineLoads(creds: seq<ApiCredentials>)
    requires KnownPlain(creds) && Pipeline(creds).Some?
    ensures Pipeline(creds) == Some(LoadedAll(creds))
  {
    hide Print, GroupsOf, LoadAll, LoadedAll, RereadAll, Loadable, KnownPlain, Ini.ReadBack;
    ReadBackOfGroups(creds);
    LoadOfReread(creds);
  }

  // ----- when the reader gets through -----

  /** A written field that does not start with a space and whose line fits the reader's buffers. */
  predicate WritableAs(key: string, value: string) {
    value != "" ==> value[0] != ' ' && 2 * |key| + |value| + 6 <= LINE_SIZE
  }

  predicate FieldsWritable(c: ApiCredentials) {
    && WritableAs("username", c.userName) && WritableAs("token", c.token)
    && WritableAs("session", c.sessionKey) && WritableAs("url", c.url)
  }

  predicate KnownWritable(creds: seq<ApiCredentials>) {
    forall k | 0 <= k < |creds| && creds[k].endPoint != ApiUnknown :: FieldsWritable(creds[k])
  }

  ghost predicate LinesReadable(values: seq<KeyValue>) {
    forall v | v in values :: Readable(ValueLine(v))
  }

  lemma IfSetReadable(key: string, value: string)
    requires SettingKey(key)
    ensures LinesReadable(IfSet(key, value)) <==> WritableAs(key, value)
  {
    SettingKeyOk(key);
    hide Readable, ValueLine, SettingKey, KeyOk;
    if value != "" {
      ValueLineReadable(KeyValue(key, value));
      assert KeyValue(key, value) in IfSet(key, value);
    }
  }

  lemma LinesReadableAppend(a: seq<KeyValue>, b: seq<KeyValue>)
    ensures LinesReadable(a + b) <==> LinesReadable(a) && LinesReadable(b)
  {
    hide Readable, ValueLine;
    forall v | v in a || v in b
      ensures v in a + b
    {
    }
  }

  lemma FlagReadable(enabled: bool)
    ensures var flag := if enabled then "true" else "false";
            LinesReadable([KeyValue("enabled", flag)])
  {
    hide LinesReadable;
    SettingKeys();
    EnabledIsSet(enabled);
    IfSetReadable("enabled", if enabled then "true" else "false");
  }

  lemma GroupReadable(c: ApiCredentials)
    requires c.endPoint != ApiUnknown
    ensures AllReadable(GroupLines(GroupOf(c))) <==> FieldsWritable(c)
  {
    hide LinesReadable, IfSet, GroupLabel, AllReadable, GroupLines, NameOk, WritableAs, SettingKey, Plain;
    var first := [KeyValue("enabled", if c.enabled then "true" else "false")];
    var url := IfSet("url", c.url);
    var session := IfSet("session", c.sessionKey) + url;
    var token := IfSet("token", c.token) + session;
    var user := IfSet("username", c.userName) + token;
    SettingKeys();
    FlagReadable(c.enabled);
    IfSetReadable("username", c.userName);
    IfSetReadable("token", c.token);
    IfSetReadable("session", c.sessionKey);
    IfSetReadable("url", c.url);
    LinesReadableAppend(first, user);
    LinesReadableAppend(IfSet("username", c.userName), token);
    LinesReadableAppend(IfSet("token", c.token), session);
    LinesReadableAppend(IfSet("session", c.sessionKey), url);
    LabelOk(c.endPoint);
    ReadableGroup(GroupOf(c));
  }

  lemma ReadableGroup(g: Group)
    requires NameOk(g.name) && |g.name| + 2 < LINE_SIZE
    ensures AllReadable(GroupLines(g)) <==> LinesReadable(g.values)
  {
    hide Readable, ValueLine, AllReadable, GroupLines, NameOk;
    GroupLinesReadable(g);
  }

  lemma {:induction false} GroupsReadable(creds: seq<ApiCredentials>)
    ensures (forall g | g in GroupsOf(creds) :: AllReadable(GroupLines(g))) <==> KnownWritable(creds)
  {
    if creds != [] {
      hide AllReadable, GroupLines, GroupOf, FieldsWritable;
      var front, last := creds[..|creds| - 1], creds[|creds| - 1];
      assert creds == front + [last];
      GroupsReadable(front);
      KnownWritableOneMore(front, last);
      hide KnownWritable;
      if last.endPoint != ApiUnknown {
        GroupReadable(last);
        assert GroupOf(last) in GroupsOf(creds);
        assert forall g | g in GroupsOf(front) :: g in GroupsOf(creds);
      }
    }
  }

  lemma KnownWritableOneMore(front: seq<ApiCredentials>, last: ApiCredentials)
    ensures KnownWritable(front + [last]) <==>
            KnownWritable(front) && (last.endPoint != ApiUnknown ==> FieldsWritable(last))
  {
    hide FieldsWritable;
    var creds := front + [last];
    assert creds[|front|] == last && forall k | 0 <= k < |front| :: creds[k] == front[k];
  }

  /** The reader gets through the file exactly when no written field starts with a space and each
      line fits. */
  lemma PipelineReadsExactly(creds: seq<ApiCredentials>)
    requires KnownPlain(creds)
    ensures Ini.ReadBack(Print(GroupsOf(creds))).Some? <==> KnownWritable(creds)
  {
    GroupsOfArePlain(creds);
    hide Print, DocLines, AllReadable, GroupsOf, PlainGroups, NoHeaderKeysIn, KnownWritable, GroupLines,
         Ini.BufferLines;
    BufferLinesOfPrint(GroupsOf(creds));
    DocLinesReadable(GroupsOf(creds));
    GroupsReadable(creds);
  }

  // ----- when what was read can be loaded -----

  /** The room for a field in its array. */
  function Room(key: string): nat {
    if key == "username" then USER_NAME_MAX
    else if key == "token" || key == "session" then MAX_SECRET_LENGTH
    else MAX_URL_LENGTH
  }

  /** What is read of the fields fits their arrays; a URL that fits a line always does. */
  predicate Roomy(c: ApiCredentials) {
    && |Strip(c.userName, WHITESPACE)| <= USER_NAME_MAX
    && |Strip(c.token, WHITESPACE)| <= MAX_SECRET_LENGTH
    && |Strip(c.sessionKey, WHITESPACE)| <= MAX_SECRET_LENGTH
  }

  predicate KnownRoomy(creds: seq<ApiCredentials>) {
    forall k | 0 <= k < |creds| && creds[k].endPoint != ApiUnknown :: Roomy(creds[k])
  }

  lemma StripIsShorter(s: string)
    ensures |Strip(s, WHITESPACE)| <= |s|
  {
    StripIsStripped(s, WHITESPACE);
  }

  lemma OneFieldHolds(key: string, value: string)
    requires SettingKey(key) && key != "enabled"
    ensures FieldsHold([KeyValue(key, value)]) <==> |value| <= Room(key)
  {
    OnlyItself(key);
    hide StartsWith;
    assert KeyValue(key, value) in [KeyValue(key, value)];
  }

  lemma FieldHolds(key: string, value: string)
    requires SettingKey(key) && key != "enabled"
    ensures FieldsHold(FieldOut(key, value)) <==> |Strip(value, WHITESPACE)| <= Room(key)
  {
    hide FieldsHold, SettingKey, Room, Strip;
    if value == "" {
      StripIsShorter("");
      NothingHolds();
    } else {
      OneFieldHolds(key, Strip(value, WHITESPACE));
    }
  }

  lemma NothingHolds()
    ensures FieldsHold([])
  {
  }

  lemma FlagHolds(flag: string)
    ensures FieldsHold([KeyValue("enabled", flag)])
  {
    SettingKeys();
    hide SettingKey;
    OnlyItself("enabled");
    hide StartsWith;
  }

  lemma FieldsHoldAppend(a: seq<KeyValue>, b: seq<KeyValue>)
    ensures FieldsHold(a + b) <==> FieldsHold(a) && FieldsHold(b)
  {
    hide StartsWith;
    forall v | v in a || v in b
      ensures v in a + b
    {
    }
  }

  /** One group that was read can be loaded exactly if its entry is roomy. */
  lemma RereadHolds(c: ApiCredentials)
    requires c.endPoint != ApiUnknown && FieldsWritable(c)
    ensures var values := Reread(GroupOf(c)).values;
            values != [] && (FieldsHold(values) <==> Roomy(c))
  {
    hide FieldsHold, FieldOut, Outs, SettingKey, GroupLabel, NameOk, Reread, Strip;
    SettingKeys();
    LabelOk(c.endPoint);
    RereadOkName(GroupOf(c));
    OutsOfGroup(c);
    var first := [KeyValue("enabled", if c.enabled then "true" else "false")];
    var url := FieldOut("url", c.url);
    var session := FieldOut("session", c.sessionKey) + url;
    var token := FieldOut("token", c.token) + session;
    var user := FieldOut("username", c.userName) + token;
    FlagHolds(if c.enabled then "true" else "false");
    FieldHolds("username", c.userName);
    FieldHolds("token", c.token);
    FieldHolds("session", c.sessionKey);
    FieldHolds("url", c.url);
    FieldsHoldAppend(first, user);
    FieldsHoldAppend(FieldOut("username", c.userName), token);
    FieldsHoldAppend(FieldOut("token", c.token), session);
    FieldsHoldAppend(FieldOut("session", c.sessionKey), url);
    StripIsShorter(c.url);
  }

  ghost predicate GroupsHold(groups: seq<Group>) {
    forall g | g in groups :: g.values != [] && FieldsHold(g.values)
  }

  lemma GroupsHoldOneMore(groups: seq<Group>, g: Group)
    ensures GroupsHold(groups + [g]) <==> GroupsHold(groups) && g.values != [] && FieldsHold(g.values)
  {
    hide FieldsHold;
    assert g in groups + [g];
    forall h | h in groups
      ensures h in groups + [g]
    {
    }
  }

  lemma {:induction false} RereadsHold(creds: seq<ApiCredentials>)
    requires KnownWritable(creds)
    ensures GroupsHold(RereadAll(GroupsOf(creds))) <==> KnownRoomy(creds)
    ensures |GroupsOf(creds)| == |RestoredAll(creds)|
  {
    hide GroupsHold, RereadAll, Reread, GroupOf, Restored, Roomy, FieldsWritable;
    if creds == [] {
      NothingToHold();
    } else {
      var front, last := creds[..|creds| - 1], creds[|creds| - 1];
      assert creds == front + [last];
      KnownWritableOneMore(front, last);
      KnownRoomyOneMore(front, last);
      RereadsHold(front);
      hide KnownWritable, KnownRoomy;
      if last.endPoint != ApiUnknown {
        RereadHolds(last);
        RereadSnoc(GroupsOf(front), GroupOf(last));
        GroupsHoldOneMore(RereadAll(GroupsOf(front)), Reread(GroupOf(last)));
      } else {
        assert GroupsOf(front) + [] == GroupsOf(front);
      }
    }
  }

  lemma NothingToHold()
    ensures GroupsHold(RereadAll([]))
  {
  }

  lemma RereadSnoc(groups: seq<Group>, g: Group)
    ensures RereadAll(groups + [g]) == RereadAll(groups) + [Reread(g)]
  {
    hide Reread;
    RereadEach(groups);
    RereadEach(groups + [g]);
  }

  lemma KnownRoomyOneMore(front: seq<ApiCredentials>, last: ApiCredentials)
    ensures KnownRoomy(front + [last]) <==> KnownRoomy(front) && (last.endPoint != ApiUnknown ==> Roomy(last))
  {
    hide Roomy;
    var creds := front + [last];
    assert creds[|front|] == last && forall k | 0 <= k < |front| :: creds[k] == front[k];
  }

  /** The file is read and loaded exactly when the reader gets through it, the fields fit their arrays,
      and there are fewer known entries than a configuration holds: loading asserts that there is
      one to spare. */
  lemma PipelineLoadsExactly(creds: seq<ApiCredentials>)
    requires KnownPlain(creds)
    ensures Pipeline(creds).Some?
            <==> KnownWritable(creds) && KnownRoomy(creds) && |RestoredAll(creds)| < MAX_CREDENTIALS
  {
    hide Print, GroupsOf, RereadAll, KnownPlain, KnownWritable, KnownRoomy, LoadAll, Ini.ReadBack, FieldsHold, RestoredAll;
    PipelineReadsExactly(creds);
    ReadBackOfGroups(creds);
    if KnownWritable(creds) {
      RereadsHold(creds);
    }
  }

  lemma LoadedIsRestored(c: ApiCredentials)
    ensures Loaded(c) == Restored(c) <==> FieldsStripped(c)
  {
    StrippedStays(c.userName, WHITESPACE);
    StrippedStays(c.token, WHITESPACE);
    StrippedStays(c.sessionKey, WHITESPACE);
    StrippedStays(c.url, WHITESPACE);
    StrippedStays("", WHITESPACE);
  }

  predicate KnownStripped(creds: seq<ApiCredentials>) {
    forall k | 0 <= k < |creds| && creds[k].endPoint != ApiUnknown :: FieldsStripped(creds[k])
  }

  lemma {:induction false} LoadedAllIsRestoredAll(creds: seq<ApiCredentials>)
    ensures LoadedAll(creds) == RestoredAll(creds) <==> KnownStripped(creds)
    ensures |LoadedAll(creds)| == |RestoredAll(creds)|
  {
    if creds != [] {
      hide Loaded, Restored, KnownStripped, FieldsStripped;
      var front, last := creds[..|creds| - 1], creds[|creds| - 1];
      assert creds == front + [last];
      LoadedAllIsRestoredAll(front);
      LoadedIsRestored(last);
      KnownStrippedOneMore(front, last);
      if last.endPoint != ApiUnknown {
        SameEnds(LoadedAll(front), Loaded(last), RestoredAll(front), Restored(last));
      } else {
        assert LoadedAll(front) + [] == LoadedAll(front) && RestoredAll(front) + [] == RestoredAll(front);
      }
    }
  }

  lemma KnownStrippedOneMore(front: seq<ApiCredentials>, last: ApiCredentials)
    ensures KnownStripped(front + [last]) <==>
            KnownStripped(front) && (last.endPoint != ApiUnknown ==> FieldsStripped(last))
  {
    hide FieldsStripped;
    var creds := front + [last];
    assert creds[|front|] == last && forall k | 0 <= k < |front| :: creds[k] == front[k];
  }

  lemma SameEnds<T>(a: seq<T>, x: T, b: seq<T>, y: T)
    requires |a| == |b|
    ensures a + [x] == b + [y] <==> a == b && x == y
  {
    if a + [x] == b + [y] {
      assert a == (a + [x])[..|a|] && b == (b + [y])[..|a|];
      assert x == (a + [x])[|a|] && y == (b + [y])[|a|];
    }
  }

  lemma PlainPipelineExact(creds: seq<ApiCredentials>)
    requires KnownPlain(creds)
    ensures Pipeline(creds) == Some(RestoredAll(creds))
            <==> && KnownWritable(creds) && KnownRoomy(creds) && |RestoredAll(creds)| < MAX_CREDENTIALS
                 && KnownStripped(creds)
  {
    hide Pipeline, KnownPlain, LoadedAll, RestoredAll, KnownWritable, KnownRoomy, KnownStripped;
    PipelineLoadsExactly(creds);
    LoadedAllIsRestoredAll(creds);
    if Pipeline(creds).Some? {
      PipelineLoads(creds);
    }
  }

  // ----- no newline comes back -----

  lemma {:induction false} LoadedValuesArePlain(c: ApiCredentials, values: seq<KeyValue>)
    requires PlainFields(c) && PlainValues(values)
    ensures PlainFields(LoadValues(c, values))
  {
    hide Plain, StartsWith;
    if values != [] {
      var front, last := values[..|values| - 1], values[|values| - 1];
      assert last in values && PlainValues(front);
      LoadedValuesArePlain(c, front);
    }
  }

  lemma LoadedGroupsArePlain(groups: seq<Group>)
    requires PlainGroups(groups)
    ensures forall c | c in LoadAll(groups) :: PlainFields(c)
  {
    EmptyIsPlain();
    hide PlainFields, LoadValues, Plain, ServiceOf, PlainValues;
    forall k | 0 <= k < |groups|
      ensures PlainFields(LoadGroup(EMPTY, groups[k]))
    {
      var service := ServiceOf(groups[k].name, ApiUnknown);
      assert groups[k] in groups;
      LoadedValuesArePlain(EMPTY.(endPoint := service), groups[k].values);
    }
  }

  lemma EmptyIsPlain()
    ensures forall e :: PlainFields(EMPTY.(endPoint := e))
  {
  }

  lemma {:induction false} EachRestored(creds: seq<ApiCredentials>, k: nat)
    requires k < |creds| && creds[k].endPoint != ApiUnknown
    ensures Restored(creds[k]) in RestoredAll(creds)
  {
    hide Restored;
    if k < |creds| - 1 {
      EachRestored(creds[..|creds| - 1], k);
    }
  }

  /** A URL for last.fm is written but not loaded, so a newline in it may leave no trace. */
  predicate UnloadedPlain(creds: seq<ApiCredentials>) {
    forall k | 0 <= k < |creds| && creds[k].endPoint == ApiLastfm :: Plain(creds[k].url)
  }

  lemma RestoredArePlain(creds: seq<ApiCredentials>)
    requires UnloadedPlain(creds) && Pipeline(creds) == Some(RestoredAll(creds))
    ensures KnownPlain(creds)
  {
    hide Print, GroupsOf, Loadable, LoadAll, RestoredAll, Plain, PlainGroups, Ini.ReadBack;
    ReadBackIsPlain(Print(GroupsOf(creds)));
    LoadedGroupsArePlain(Ini.ReadBack(Print(GroupsOf(creds))).value);
    forall k | 0 <= k < |creds| && creds[k].endPoint != ApiUnknown
      ensures PlainFields(creds[k])
    {
      EachRestored(creds, k);
      assert PlainFields(Restored(creds[k]));
    }
  }

  /** Every entry with a known service comes back in order with its service, flag, user name,
      token, session key and (except for last.fm) URL, and the others are exactly the ones
      dropped, if and only if no field holds a newline, the file is read and loaded, and no loaded
      field starts or ends with white space. */
  lemma PipelineExact(creds: seq<ApiCredentials>)
    requires UnloadedPlain(creds)
    ensures Pipeline(creds) == Some(RestoredAll(creds))
            <==> && KnownPlain(creds) && KnownWritable(creds) && KnownRoomy(creds)
                 && |RestoredAll(creds)| < MAX_CREDENTIALS && KnownStripped(creds)
  {
    hide Pipeline, UnloadedPlain, KnownPlain, RestoredAll, KnownWritable, KnownRoomy, KnownStripped;
    if KnownPlain(creds) {
      PlainPipelineExact(creds);
    } else if Pipeline(creds) == Some(RestoredAll(creds)) {
      RestoredArePlain(creds);
    }
  }

  // ----- entries as the program holds them -----

  /** The fields other than the URL are short enough by the sizes of their arrays. */
  predicate Held(c: ApiCredentials) {
    |c.userName| <= 32 && |c.token| <= 128 && |c.sessionKey| <= 128
  }

  /** What is left to ask of an entry: fields hold no newline, those that are loaded have no white space
      at their ends, and the URL does not start with a space and fits a line. */
  predicate Storable(c: ApiCredentials) {
    PlainFields(c) && FieldsStripped(c) && (c.url != "" ==> c.url[0] != ' ' && |c.url| <= 1012)
  }

  lemma StorableExactly(c: ApiCredentials)
    requires Held(c)
    ensures Storable(c) <==> PlainFields(c) && FieldsWritable(c) && FieldsStripped(c)
    ensures Roomy(c)
  {
    StripIsShorter(c.userName);
    StripIsShorter(c.token);
    StripIsShorter(c.sessionKey);
    StrippedStart(c.userName);
    StrippedStart(c.token);
    StrippedStart(c.sessionKey);
    hide Stripped;
  }

  /** A credentials file gives its entries back exactly when all of them are storable and there are
      fewer than a configuration holds. */
  lemma FileRoundTrip(creds: seq<ApiCredentials>)
    requires UnloadedPlain(creds)
    requires forall k | 0 <= k < |creds| && creds[k].endPoint != ApiUnknown :: Held(creds[k])
    ensures Pipeline(creds) == Some(RestoredAll(creds))
            <==> && |RestoredAll(creds)| < 10
                 && forall k | 0 <= k < |creds| && creds[k].endPoint != ApiUnknown :: Storable(creds[k])
  {
    hide Pipeline, UnloadedPlain, RestoredAll, Held, Storable, PlainFields, FieldsWritable, FieldsStripped, Roomy;
    PipelineExact(creds);
    forall k | 0 <= k < |creds| && creds[k].endPoint != ApiUnknown
      ensures Storable(creds[k]) <==> PlainFields(creds[k]) && FieldsWritable(creds[k]) && FieldsStripped(creds[k])
      ensures Roomy(creds[k])
    {
      StorableExactly(creds[k]);
    }
  }

  /** A full configuration is written, and then cannot be loaded: of the same storable entry nine
      times come back, and ten do not. */
  lemma FullConfigurationFails(c: ApiCredentials, n: nat)
    requires c.endPoint != ApiUnknown && Held(c) && Storable(c)
    ensures var creds := seq(n, _ => c);
            && (n <= 9 ==> Pipeline(creds) == Some(RestoredAll(creds)))
            && (n >= 10 ==> Pipeline(creds) == None)
  {
    var creds := seq(n, _ => c);
    assert PlainFields(c);
    hide Pipeline, PlainFields, Plain, Held, Storable, RestoredAll, KnownWritable, KnownRoomy;
    AllRestored(c, n);
    FileRoundTrip(creds);
    PipelineLoadsExactly(creds);
  }

  lemma {:induction false} AllRestored(c: ApiCredentials, n: nat)
    requires c.endPoint != ApiUnknown
    ensures |RestoredAll(seq(n, _ => c))| == n
  {
    hide Restored;
    var creds := seq(n, _ => c);
    if n > 0 {
      assert creds[..n - 1] == seq(n - 1, _ => c);
      AllRestored(c, n - 1);
    }
  }

  // ----- the programs -----

  /** `write_credentials_file`: the text of the file. Nothing is written for no entries at all. */
  method SaveText(creds: array<ApiCredentials>, length: nat) returns (text: string)
    requires length <= creds.Length
    ensures text == Print(GroupsOf(creds[..length]))
  {
    hide Print, GroupsOf;
    var toWrite := GetIniFromCredentials(creds, length);
    if toWrite == null {
      NothingToWrite();
      assert creds[..length] == [];
      return "";
    }
    text := Ini.WriteIni(toWrite);
  }

  /** `load_credentials` from a file with this text. */
  method LoadText(text: string, configuration: Configuration)
    requires configuration.Valid() && Ini.ReadBack(text).Some? && Loadable(Ini.ReadBack(text).value)
    modifies configuration, configuration.credentials
    ensures configuration.credentialsCount < MAX_CREDENTIALS == configuration.credentials.Length
    ensures configuration.credentials[..configuration.credentialsCount] == LoadAll(Ini.ReadBack(text).value)
    ensures forall k | configuration.credentialsCount <= k < MAX_CREDENTIALS :: configuration.credentials[k] == EMPTY
  {
    hide LoadAll, Ini.BufferLines, AllReadable, ParseLines, FieldsHold;
    var ini := new Ini.IniConfig();
    assert ini.View() == [];
    var buffer := new char[|text| + 2](_ => NUL);
    forall k | 0 <= k < |text| { buffer[k] := text[k]; }
    assert buffer[..|text|] == text;
    var _ := Ini.IniParse(buffer, |text|, ini);
    assert ini.View() == Ini.ReadBack(text).value;
    configuration.LoadCredentials(ini);
  }

  /** Saving and loading leaves in a configuration what the pipeline says. */
  method SaveAndLoad(creds: array<ApiCredentials>, length: nat, configuration: Configuration)
    requires length <= creds.Length && configuration.Valid() && Pipeline(creds[..length]).Some?
    modifies configuration, configuration.credentials
    ensures configuration.credentialsCount < MAX_CREDENTIALS == configuration.credentials.Length
    ensures configuration.credentials[..configuration.credentialsCount] == old(Pipeline(creds[..length])).value
    ensures forall k | configuration.credentialsCount <= k < MAX_CREDENTIALS :: configuration.credentials[k] == EMPTY
  {
    hide Print, Loadable, LoadAll, GroupsOf, Ini.ReadBack;
    var text := SaveText(creds, length);
    LoadText(text, configuration);
  }

  lemma NothingToWrite()
    ensures Print(GroupsOf([])) == ""
  {
  }

  lemma SettingKeys()
    ensures SettingKey("enabled") && SettingKey("username") && SettingKey("token") && SettingKey("session")
            && SettingKey("url")
  {
  }

  lemma EnabledIsSet(enabled: bool)
    ensures var flag := if enabled then "true" else "false"; IfSet("enabled", flag) == [KeyValue("enabled", flag)]
  {
  }

  // ----- the names in the file -----

  /** The group of an entry that has every field, by the names that the file uses. */
  lemma FullGroup(c: ApiCredentials)
    requires c.endPoint != ApiUnknown
    requires c.userName != "" && c.token != "" && c.sessionKey != "" && c.url != ""
    ensures GroupOf(c).values == [KeyValue("enabled", if c.enabled then "true" else "false"),
              KeyValue("username", c.userName), KeyValue("token", c.token), KeyValue("session", c.sessionKey),
              KeyValue("url", c.url)]
  {
  }

  /** The text of a group: its name in brackets, a line for each setting, and a blank line. */
  lemma OneGroup(g: Group)
    ensures Print([g]) == "[" + g.name + "]\n" + PrintValues(g.values) + "\n"
  {
    hide PrintValues;
    assert [g][1..] == [];
    assert "[" + g.name + "]" + "\n" == "[" + g.name + "]\n";
  }

  lemma FirstPrinted(v: KeyValue, rest: seq<KeyValue>)
    ensures PrintValues([v] + rest) == v.key + " = " + v.value + "\n" + PrintValues(rest)
  {
    assert ([v] + rest)[1..] == rest;
  }

  lemma LastPrinted(v: KeyValue)
    ensures PrintValues([v]) == v.key + " = " + v.value + "\n"
  {
    assert [v][1..] == [];
  }

  lemma ServiceNames(before: ApiType)
    ensures GroupLabel(ApiLastfm) == "lastfm" && ServiceOf("lastfm", before) == ApiLastfm
    ensures GroupLabel(ApiLibrefm) == "librefm" && ServiceOf("librefm", before) == ApiLibrefm
    ensures GroupLabel(ApiListenbrainz) == "listenbrainz" && ServiceOf("listenbrainz", before) == ApiListenbrainz
  {
    ServiceOfLabel(ApiLastfm, before);
    ServiceOfLabel(ApiLibrefm, before);
    ServiceOfLabel(ApiListenbrainz, before);
  }

  /** What each setting does, by its name. */
  lemma SettingLoads(c: ApiCredentials, v: string)
    requires v != ""
    ensures LoadValue(c, KeyValue("username", v)) == c.(userName := v)
    ensures LoadValue(c, KeyValue("token", v)) == c.(token := v)
    ensures LoadValue(c, KeyValue("session", v)) == c.(sessionKey := v)
    ensures LoadValue(c, KeyValue("url", v))
         == if c.endPoint in {ApiLibrefm, ApiListenbrainz} then c.(url := v) else c
    ensures LoadValue(c, KeyValue("password", v)) == c.(password := v)
  {
    SettingKeys();
    OnlyItself("username");
    OnlyItself("token");
    OnlyItself("session");
    OnlyItself("url");
    PasswordOnly();
    hide StartsWith, SettingKey, EnabledOf;
  }

  lemma PasswordOnly()
    ensures StartsWith("password", "password") && !StartsWith("password", "enabled")
    ensures !StartsWith("password", "username") && !StartsWith("password", "token")
    ensures !StartsWith("password", "session") && !StartsWith("password", "url")
  {
    FirstDiffers("password", "enabled");
    FirstDiffers("password", "username");
    FirstDiffers("password", "token");
    FirstDiffers("password", "session");
    FirstDiffers("password", "url");
    hide StartsWith;
    assert "password" <= "password";
  }

  /** The values of the flag: what starts with `true` or `1` sets it, what starts with `false` or `0`
      clears it, and anything else leaves it. */
  lemma FlagValues(rest: string, other: string, before: bool)
    requires other == "" || other[0] !in "tf01"
    ensures EnabledOf("true" + rest, before) && EnabledOf("1" + rest, before)
    ensures !EnabledOf("false" + rest, before) && !EnabledOf("0" + rest, before)
    ensures EnabledOf(other, before) == before
  {
    assert "true" <= "true" + rest && "1" <= "1" + rest && "false" <= "false" + rest && "0" <= "0" + rest;
    assert ("true" + rest)[0] == 't' && ("1" + rest)[0] == '1';
  }
}
