/**
  The mapping between API credentials and INI groups in `src/configuration.h`, and what is left
  of the credentials after they were written to the credentials file and loaded again.
 */
module Credentials {
  import opened IniText
  import Ini

  datatype ApiType = ApiUnknown | ApiLastfm | ApiLibrefm | ApiListenbrainz

  datatype ApiCredentials = ApiCredentials(
    endPoint: ApiType, enabled: bool, userName: string, password: string,
    token: string, sessionKey: string, url: string,
    apiKey: string, secret: string)

  /** What `memset` leaves in an entry. */
  const EMPTY := ApiCredentials(ApiUnknown, false, "", "", "", "", "", "", "")

  const MAX_CREDENTIALS := 10
  const USER_NAME_MAX := 32
  const MAX_SECRET_LENGTH := 128
  const MAX_URL_LENGTH := 2048

  // ----- writing -----

  /** `get_api_type_group` */
  function GroupLabel(e: ApiType): string
    requires e != ApiUnknown
  {
    match e
    case ApiLastfm => "lastfm"
    case ApiLibrefm => "librefm"
    case ApiListenbrainz => "listenbrainz"
  }

  function IfSet(key: string, value: string): seq<KeyValue> {
    if |value| > 0 then [KeyValue(key, value)] else []
  }

  function GroupOf(c: ApiCredentials): Group
    requires c.endPoint != ApiUnknown
  {
    Group(GroupLabel(c.endPoint),
          [KeyValue("enabled", if c.enabled then "true" else "false")]
          + (IfSet("username", c.userName)
          + (IfSet("token", c.token)
          + (IfSet("session", c.sessionKey)
          + IfSet("url", c.url)))))
  }

  function GroupsOf(creds: seq<ApiCredentials>): seq<Group> {
    if creds == [] then []
    else
      var last := creds[|creds| - 1];
      GroupsOf(creds[..|creds| - 1]) + if last.endPoint == ApiUnknown then [] else [GroupOf(last)]
  }

  method AppendIfSet(group: Ini.IniGroup, key: string, value: string)
    modifies group
    ensures group.values == old(group.values) + IfSet(key, value)
  {
    if |value| > 0 {
      group.AppendValue(KeyValue(key, value));
    }
  }

  /** `get_ini_from_credentials`: null for no entries at all; entries without a known service are left out. */
  method GetIniFromCredentials(creds: array<ApiCredentials>, length: nat) returns (config: Ini.IniConfig?)
    requires length <= creds.Length
    ensures config == null <==> length == 0
    ensures config != null ==> fresh(config) && config.Valid() && config.View() == GroupsOf(creds[..length])
  {
    hide GroupOf;
    if length == 0 { return null; }
    var c := new Ini.IniConfig();
    var i := 0;
    while i < length
      invariant 0 <= i <= length
      invariant c.Valid() && fresh(c) && c.View() == GroupsOf(creds[..i])
    {
      assert creds[..i + 1][..i] == creds[..i];
      if creds[i].endPoint != ApiUnknown {
        var group := NewGroup(creds[i]);
        c.AppendGroup(group);
      }
      i := i + 1;
    }
    config := c;
  }

  method NewGroup(current: ApiCredentials) returns (group: Ini.IniGroup)
    requires current.endPoint != ApiUnknown
    ensures fresh(group) && Group(group.name, group.values) == GroupOf(current)
  {
    hide GroupLabel, IfSet;
    group := new Ini.IniGroup(GroupLabel(current.endPoint));
    group.AppendValue(KeyValue("enabled", if current.enabled then "true" else "false"));
    AppendIfSet(group, "username", current.userName);
    AppendIfSet(group, "token", current.token);
    AppendIfSet(group, "session", current.sessionKey);
    AppendIfSet(group, "url", current.url);
  }

  // ----- loading -----

  /** `strncmp(s, prefix, strlen(prefix)) == 0` */
  predicate StartsWith(s: string, prefix: string) {
    prefix <= s
  }

  function ServiceOf(name: string, before: ApiType): ApiType {
    if StartsWith(name, "lastfm") then ApiLastfm
    else if StartsWith(name, "librefm") then ApiLibrefm
    else if StartsWith(name, "listenbrainz") then ApiListenbrainz
    else before
  }

  function EnabledOf(value: string, before: bool): bool {
    if StartsWith(value, "false") || StartsWith(value, "0") then false
    else if StartsWith(value, "true") || StartsWith(value, "1") then true
    else before
  }

  predicate HasUrl(e: ApiType) {
    e == ApiLibrefm || e == ApiListenbrainz
  }

  /** One turn of the loop in `load_credentials_from_ini_group`. */
  function LoadValue(c: ApiCredentials, v: KeyValue): ApiCredentials {
    if v.value == "" then c
    else
      c.(enabled := if StartsWith(v.key, "enabled") then EnabledOf(v.value, c.enabled) else c.enabled,
         userName := if StartsWith(v.key, "username") then v.value else c.userName,
         password := if StartsWith(v.key, "password") then v.value else c.password,
         token := if StartsWith(v.key, "token") then v.value else c.token,
         sessionKey := if StartsWith(v.key, "session") then v.value else c.sessionKey,
         url := if HasUrl(c.endPoint) && StartsWith(v.key, "url") then v.value else c.url)
  }

  function LoadValues(c: ApiCredentials, values: seq<KeyValue>): ApiCredentials {
    if values == [] then c else LoadValue(LoadValues(c, values[..|values| - 1]), values[|values| - 1])
  }

  function LoadGroup(c: ApiCredentials, g: Group): ApiCredentials {
    LoadValues(c.(endPoint := ServiceOf(g.name, c.endPoint)), g.values)
  }

  /** The fields have room for the values that are copied into them. */
  predicate FieldsHold(values: seq<KeyValue>) {
    forall v | v in values ::
      && (StartsWith(v.key, "username") ==> |v.value| <= USER_NAME_MAX)
      && (StartsWith(v.key, "password") ==> |v.value| <= MAX_SECRET_LENGTH)
      && (StartsWith(v.key, "token") ==> |v.value| <= MAX_SECRET_LENGTH)
      && (StartsWith(v.key, "session") ==> |v.value| <= MAX_SECRET_LENGTH)
      && (StartsWith(v.key, "url") ==> |v.value| <= MAX_URL_LENGTH)
  }

  /** What loading a file asserts, and what its copies have room for. */
  predicate Loadable(groups: seq<Group>) {
    |groups| < MAX_CREDENTIALS && forall g | g in groups :: g.values != [] && FieldsHold(g.values)
  }

  /** `load_credentials_from_ini_group`, into entry `at`. A group without values fails an assertion there. */
  method LoadCredentialsFromIniGroup(group: Ini.IniGroup, creds: array<ApiCredentials>, at: nat)
    requires at < creds.Length && group.values != [] && FieldsHold(group.values)
    modifies creds
    ensures creds[..] == old(creds[..])[at := LoadGroup(old(creds[at]), Group(group.name, group.values))]
  {
    ghost var before := creds[..];
    if StartsWith(group.name, "lastfm") {
      creds[at] := creds[at].(endPoint := ApiLastfm);
    } else if StartsWith(group.name, "librefm") {
      creds[at] := creds[at].(endPoint := ApiLibrefm);
    } else if StartsWith(group.name, "listenbrainz") {
      creds[at] := creds[at].(endPoint := ApiListenbrainz);
    }
    ghost var start := creds[at];
    var i := 0;
    while i < |group.values|
      invariant 0 <= i <= |group.values|
      invariant creds[..] == before[at := LoadValues(start, group.values[..i])]
    {
      var setting := group.values[i];
      assert group.values[..i + 1][..i] == group.values[..i];
      i := i + 1;
      if setting.value == "" { continue; }
      ApplySetting(setting, creds, at);
    }
    assert group.values[..i] == group.values;
  }

  /** The tests and copies in the body of that loop, one after another. */
  method ApplySetting(setting: KeyValue, creds: array<ApiCredentials>, at: nat)
    requires at < creds.Length && setting.value != ""
    modifies creds
    ensures creds[at] == LoadValue(old(creds[at]), setting)
    ensures forall k | 0 <= k < creds.Length && k != at :: creds[k] == old(creds[k])
  {
    hide StartsWith, EnabledOf;
    if StartsWith(setting.key, "enabled") {
      ApplyEnabled(setting.value, creds, at);
    }
    if StartsWith(setting.key, "username") { creds[at] := creds[at].(userName := setting.value); }
    if StartsWith(setting.key, "password") { creds[at] := creds[at].(password := setting.value); }
    if StartsWith(setting.key, "token") { creds[at] := creds[at].(token := setting.value); }
    if StartsWith(setting.key, "session") { creds[at] := creds[at].(sessionKey := setting.value); }
    if creds[at].endPoint == ApiLibrefm || creds[at].endPoint == ApiListenbrainz {
      if StartsWith(setting.key, "url") { creds[at] := creds[at].(url := setting.value); }
    }
  }

  method ApplyEnabled(value: string, creds: array<ApiCredentials>, at: nat)
    requires at < creds.Length
    modifies creds
    ensures creds[at] == old(creds[at]).(enabled := EnabledOf(value, old(creds[at]).enabled))
    ensures forall k | 0 <= k < creds.Length && k != at :: creds[k] == old(creds[k])
  {
    hide StartsWith;
    if StartsWith(value, "true") { creds[at] := creds[at].(enabled := true); }
    if StartsWith(value, "1") { creds[at] := creds[at].(enabled := true); }
    if StartsWith(value, "false") { creds[at] := creds[at].(enabled := false); }
    if StartsWith(value, "0") { creds[at] := creds[at].(enabled := false); }
  }

  class Configuration {
    const credentials: array<ApiCredentials>
    var credentialsCount: nat

    ghost predicate Valid()
      reads this
    {
      credentials.Length == MAX_CREDENTIALS
    }

    /** `load_credentials` up to the loading of the file: all entries are cleared first. */
    method LoadCredentials(ini: Ini.IniConfig)
      requires Valid() && Loadable(ini.View())
      modifies this, credentials
      ensures credentialsCount == |ini.groups|
      ensures credentials[..credentialsCount] == LoadAll(ini.View())
      ensures forall k | credentialsCount <= k < MAX_CREDENTIALS :: credentials[k] == EMPTY
    {
      hide LoadGroup, FieldsHold;
      forall k | 0 <= k < MAX_CREDENTIALS { credentials[k] := EMPTY; }
      credentialsCount := 0;
      var i := 0;
      while i < |ini.groups|
        invariant 0 <= i <= |ini.groups| && credentialsCount == i
        invariant forall k | 0 <= k < i :: credentials[k] == LoadGroup(EMPTY, ini.View()[k])
        invariant forall k | i <= k < MAX_CREDENTIALS :: credentials[k] == EMPTY
      {
        assert ini.View()[i] in ini.View();
        LoadCredentialsFromIniGroup(ini.groups[i], credentials, i);
        credentialsCount := credentialsCount + 1;
        i := i + 1;
      }
    }
  }

  function LoadAll(groups: seq<Group>): (r: seq<ApiCredentials>)
    ensures |r| == |groups|
    ensures forall k | 0 <= k < |r| :: r[k] == LoadGroup(EMPTY, groups[k])
  {
    seq(|groups|, k requires 0 <= k < |groups| => LoadGroup(EMPTY, groups[k]))
  }
}
