/**
  A scrobble, the time that has to be played before it may be submitted, the tests that the
  services apply to it, and its loading from the stored properties (`src/scrobble.h`,
  `src/audioscrobbler_api.h`, `src/listenbrainz_api.h`, `src/api.h`).

  A double is a `real` and a `time_t` an `int`; the clock is an argument.
 */
module Scrobbles {
  import opened Properties
  import opened Credentials

  datatype Scrobble = Scrobble(
    playTime: real, position: real, length: real, startTime: int,
    scrobbled: bool, trackNumber: nat,
    url: string, title: string, album: string, artist: seq<string>,
    mbTrackId: seq<string>, mbAlbumId: seq<string>, mbArtistId: seq<string>, mbAlbumArtistId: seq<string>,
    playerName: string, spotifyId: string)

  const ZERO_SCROBBLE := Scrobble(0.0, 0.0, 0.0, 0, false, 0, "", "", "", [], [], [], [], [], "", "")

  const MIN_TRACK_LENGTH := 30.0
  const NOW_PLAYING_DELAY := 65.0
  const MIN_SCROBBLE_DELAY := 240.0

  function First(l: seq<string>): string { if l == [] then "" else l[0] }

  // ----- how long a track has to be played -----

  /** Half the whole seconds of the track, and four minutes at most. */
  function Target(length: real): real {
    var half := length.Floor as real / 2.0;
    if MIN_SCROBBLE_DELAY <= half then MIN_SCROBBLE_DELAY else half
  }

  /** `min_scrobble_delay_seconds` */
  function MinScrobbleDelay(length: real, playTime: real): real {
    if length <= 0.1 then 0.0
    else
      var result := Target(length) - playTime + 1.0;
      if result >= 0.0 then result else 0.0
  }

  /** The whole seconds that `add_event_queue` gives the timer. */
  function QueueDelay(length: real, playTime: real): (d: int)
    ensures d >= 0
  {
    MinScrobbleDelay(length, playTime).Floor
  }

  // ----- what the services accept -----

  function Elapsed(s: Scrobble, now: int): real {
    if s.playTime > 0.0 then s.playTime + 1.0 else (now - s.startTime) as real + 1.0
  }

  predicate PlayedEnough(s: Scrobble, now: int) {
    Elapsed(s, now) >= MinScrobbleDelay(s.length, s.playTime)
  }

  /** `listenbrainz_scrobble_is_valid` */
  predicate ListenbrainzScrobbleIsValid(s: Scrobble, now: int) {
    s.length >= MIN_TRACK_LENGTH && PlayedEnough(s, now) && |s.title| > 0 && |First(s.artist)| > 0
  }

  /** `audioscrobbler_scrobble_is_valid` */
  predicate AudioscrobblerScrobbleIsValid(s: Scrobble, now: int) {
    s.length >= MIN_TRACK_LENGTH && PlayedEnough(s, now) &&
    |s.title| > 0 && |First(s.artist)| > 0 && |s.album| > 0
  }

  /** `listenbrainz_now_playing_is_valid` */
  predicate ListenbrainzNowPlayingIsValid(s: Scrobble) {
    |s.title| > 0 && |First(s.artist)| > 0 && s.length > 0.0 && s.position <= s.length
  }

  /** `audioscrobbler_now_playing_is_valid` */
  predicate AudioscrobblerNowPlayingIsValid(s: Scrobble) {
    |s.title| > 0 && |First(s.artist)| > 0 && |s.album| > 0 && s.length > 0.0 && s.position <= s.length
  }

  datatype RequestType = NowPlayingRequest | ScrobbleRequest

  /** `scrobble_is_valid` and `now_playing_is_valid`: the test depends on the service. */
  predicate IsAccepted(kind: RequestType, s: Scrobble, e: ApiType, now: int) {
    match kind
    case ScrobbleRequest =>
      if e == ApiListenbrainz then ListenbrainzScrobbleIsValid(s, now) else AudioscrobblerScrobbleIsValid(s, now)
    case NowPlayingRequest =>
      if e == ApiListenbrainz then ListenbrainzNowPlayingIsValid(s) else AudioscrobblerNowPlayingIsValid(s)
  }

  /** `audioscrobbler_valid_credentials` */
  predicate AudioscrobblerCredentialsValid(c: ApiCredentials) {
    c.endPoint in {ApiLastfm, ApiLibrefm} && |c.apiKey| > 0 && |c.secret| > 0 && c.enabled
  }

  /** `credentials_valid` */
  predicate CredentialsValid(c: ApiCredentials) {
    c.endPoint == ApiListenbrainz || AudioscrobblerCredentialsValid(c)
  }

  // ----- loading -----

  const MICROSECONDS := 1000000.0
  const TWO_64 := 0x1_0000_0000_0000_0000
  const SPOTIFY_PREFIX := "spotify:track:"

  /** The microseconds of the length are an unsigned 64-bit number. */
  function LengthOf(p: Properties): real {
    (NumberOf(p, Length) % TWO_64) as real / MICROSECONDS
  }

  function PositionOf(p: Properties): real {
    NumberOf(p, Position) as real / MICROSECONDS
  }

  /** `load_scrobble`, into a scrobble that is all zeros. Only the first artist is copied: the
      number of bytes is that of one name. */
  function LoadScrobble(p: Properties, mask: Mask, timestamp: int, now: int, playerName: string): Scrobble {
    var trackId := TextOf(p, TrackId);
    var d := ZERO_SCROBBLE.(
      title := TextOf(p, Title), album := TextOf(p, Album), artist := TextsOf(p, Artist)[..if TextsOf(p, Artist) == [] then 0 else 1],
      url := TextOf(p, Url), playerName := playerName,
      length := LengthOf(p), trackNumber := NumberOf(p, TrackNumber) % 0x1_0000,
      mbTrackId := TextsOf(p, MbTrackId), mbAlbumId := TextsOf(p, MbAlbumId),
      mbArtistId := TextsOf(p, MbArtistId), mbAlbumArtistId := TextsOf(p, MbAlbumArtistId),
      spotifyId := if SPOTIFY_PREFIX <= trackId then trackId[|SPOTIFY_PREFIX|..] else "");
    WithTimes(d, p, mask, timestamp, now)
  }

  /** The position, the play time and the start time, which are set for a new track only. */
  function WithTimes(d: Scrobble, p: Properties, mask: Mask, timestamp: int, now: int): Scrobble {
    if !(ChangedTrack(mask) && IsPlaying(p)) then d
    else
      var position := if Position in mask then PositionOf(p) else 0.0;
      var playTime := if position > 0.0 then position else d.playTime;
      d.(position := position, playTime := playTime,
         startTime := if playTime > 0.0 then now - playTime.Floor
                      else if timestamp > 0 then timestamp
                      else d.startTime)
  }

  /** The times of a loaded scrobble, on their own. */
  lemma LoadedTimes(p: Properties, mask: Mask, timestamp: int, now: int, name: string)
    ensures var s := LoadScrobble(p, mask, timestamp, now, name);
            && s.length == LengthOf(p) >= 0.0
            && s.playTime >= 0.0
            && (!(ChangedTrack(mask) && IsPlaying(p)) ==> s.playTime == 0.0 == s.position && s.startTime == 0)
            && (ChangedTrack(mask) && IsPlaying(p) && Position !in mask ==>
                  s.playTime == 0.0 == s.position && s.startTime == if timestamp > 0 then timestamp else 0)
            && (ChangedTrack(mask) && IsPlaying(p) && Position in mask ==>
                  s.position == PositionOf(p) && s.playTime == if PositionOf(p) > 0.0 then PositionOf(p) else 0.0)
            && (s.playTime > 0.0 ==> s.startTime == now - s.playTime.Floor)
            && (s.playTime == 0.0 ==>
                  s.startTime == if ChangedTrack(mask) && IsPlaying(p) && timestamp > 0 then timestamp else 0)
  {
    hide ChangedTrack, IsPlaying, TextOf, TextsOf;
  }

  // ----- timer, append and test agree -----

  /** For a positive play time the time test is that at least half the target was played. */
  lemma PlayedEnoughExactly(s: Scrobble, now: int)
    requires s.length >= MIN_TRACK_LENGTH && s.playTime > 0.0
    ensures PlayedEnough(s, now) <==> 2.0 * s.playTime >= Target(s.length)
  {
  }

  lemma TargetBounds(length: real)
    requires length >= MIN_TRACK_LENGTH
    ensures 15.0 <= Target(length) <= MIN_SCROBBLE_DELAY
  {
    assert length.Floor >= 30;
  }

  /** A timer armed at `armed` with play time `playTime` fires when enough has been played: with
      the start time set back by the whole seconds played, and any delay of the timer. */
  lemma TimerIsLongEnough(length: real, playTime: real, startTime: int, armed: int, fired: int)
    requires length >= MIN_TRACK_LENGTH && playTime >= 0.0
    requires startTime <= armed - playTime.Floor
    requires fired >= armed + QueueDelay(length, playTime)
    ensures fired - startTime >= Target(length).Floor
    ensures 2.0 * (fired - startTime) as real >= Target(length)
    ensures fired - startTime >= 1
  {
    TargetBounds(length);
    var delay := MinScrobbleDelay(length, playTime);
    assert fired - startTime >= playTime.Floor + delay.Floor;
    assert playTime.Floor as real > playTime - 1.0;
    assert delay.Floor as real > delay - 1.0;
    assert (fired - startTime) as real >= (playTime.Floor + delay.Floor) as real;
  }

  // ----- in the units of the messages -----

  function Min(x: int, y: int): int { if x <= y then x else y }

  lemma MicrosecondsFloor(n: nat)
    ensures (n as real / 1000000.0).Floor == n / 1000000
  {
    var q, r := n / 1000000, n % 1000000;
    assert n as real / 1000000.0 == q as real + r as real / 1000000.0;
  }

  /** A length of `n` microseconds is n / 1000000 seconds, and the target in half seconds is the smaller
      of 480 and the whole seconds. */
  lemma LengthInMicroseconds(p: Properties, n: nat)
    requires At(p, Length) == Number(n) && n < 0x1_0000_0000_0000_0000
    ensures LengthOf(p) == n as real / 1000000.0
    ensures Target(LengthOf(p)) == Min(480, n / 1000000) as real / 2.0
  {
    MicrosecondsFloor(n);
  }

  lemma PositionInMicroseconds(p: Properties, m: int)
    requires At(p, Position) == Number(m)
    ensures PositionOf(p) == m as real / 1000000.0
  {
  }

  /** The delay of a track of `n` microseconds of which nothing was played. */
  lemma DelayInMicroseconds(p: Properties, n: nat)
    requires At(p, Length) == Number(n) && n < 0x1_0000_0000_0000_0000
    ensures QueueDelay(LengthOf(p), 0.0) == if n <= 100000 then 0 else Min(480, n / 1000000) / 2 + 1
  {
    LengthInMicroseconds(p, n);
    HalfFloor(Min(480, n / 1000000));
  }

  lemma HalfFloor(h: nat)
    ensures (h as real / 2.0).Floor == h / 2 && (h as real / 2.0 - 0.0 + 1.0).Floor == h / 2 + 1
  {
    assert h as real / 2.0 == (h / 2) as real + (h % 2) as real / 2.0;
  }

  // ----- which tracks the services accept, both ways -----

  /** Whether enough was played, by the play time if there is one and else by the clock. */
  predicate Enough(s: Scrobble, now: int) {
    if s.playTime > 0.0 then 2.0 * s.playTime >= Target(s.length)
    else (now - s.startTime) as real >= Target(s.length) - s.playTime
  }

  /** A track is accepted exactly if it lasts half a minute, enough of it was played, and it has a title
      and an artist; and for the services other than ListenBrainz an album as well. */
  lemma ScrobbleAcceptedExactly(s: Scrobble, e: ApiType, now: int)
    ensures IsAccepted(ScrobbleRequest, s, e, now) <==>
              && s.length >= 30.0 && Enough(s, now) && s.title != "" && s.artist != [] && s.artist[0] != ""
              && (e == ApiListenbrainz || s.album != "")
  {
    if s.length >= 30.0 && s.playTime > 0.0 {
      PlayedEnoughExactly(s, now);
    }
  }

  /** A track is reported as playing exactly if it has a length that its position does not exceed, a title
      and an artist, and for the services other than ListenBrainz an album. */
  lemma NowPlayingAcceptedExactly(s: Scrobble, e: ApiType, now: int)
    ensures IsAccepted(NowPlayingRequest, s, e, now) <==>
              && 0.0 < s.length && s.position <= s.length && s.title != "" && s.artist != [] && s.artist[0] != ""
              && (e == ApiListenbrainz || s.album != "")
  {
  }

  /** Requests go to enabled entries for ListenBrainz, and to enabled entries for last.fm and libre.fm that
      have a key and a secret. */
  lemma ServedExactly(c: ApiCredentials)
    ensures c.enabled && CredentialsValid(c) <==>
              && c.enabled && c.endPoint != ApiUnknown
              && (c.endPoint == ApiListenbrainz || (c.apiKey != "" && c.secret != ""))
    ensures AudioscrobblerCredentialsValid(c) <==>
              && c.enabled && (c.endPoint == ApiLastfm || c.endPoint == ApiLibrefm)
              && c.apiKey != "" && c.secret != ""
  {
  }

  /** What loading copies, for a message whose values have the types of their fields. */
  lemma LoadedFields(p: Properties, mask: Mask, timestamp: int, now: int, name: string)
    ensures var s := LoadScrobble(p, mask, timestamp, now, name);
            && (forall t | At(p, Title) == Text(t) :: s.title == t)
            && (forall t | At(p, Album) == Text(t) :: s.album == t)
            && (forall t | At(p, Url) == Text(t) :: s.url == t)
            && (forall l | At(p, Artist) == Texts(l) :: s.artist == if l == [] then [] else [l[0]])
            && (forall l | At(p, MbTrackId) == Texts(l) :: s.mbTrackId == l)
            && (forall l | At(p, MbAlbumId) == Texts(l) :: s.mbAlbumId == l)
            && (forall l | At(p, MbArtistId) == Texts(l) :: s.mbArtistId == l)
            && (forall l | At(p, MbAlbumArtistId) == Texts(l) :: s.mbAlbumArtistId == l)
            && (forall n | At(p, TrackNumber) == Number(n) :: s.trackNumber == n % 65536)
            && (forall t | At(p, TrackId) == Text(t) ::
                  s.spotifyId == if "spotify:track:" <= t then t[14..] else "")
            && s.playerName == name && !s.scrobbled
  {
    hide ChangedTrack, IsPlaying, LengthOf, PositionOf;
    assert |"spotify:track:"| == 14;
  }
}
