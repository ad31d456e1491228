/**
  The request bodies for last.fm and libre.fm and their signature (`src/audioscrobbler_api.h`).

  Section 8 of the Last.fm Authentication API specification asks that the parameters are put in
  alphabetical order by name, that names and values are concatenated, that the secret is appended
  and that the MD5 digest of the result is sent as `api_sig`.

  Percent-encoding is an argument, `esc`: it is what `curl_easy_escape` computes.
 */
module Signature {
  import opened Rfc1321
  import Md5
  import opened Scrobbles
  import opened Credentials

  const MAX_BODY_SIZE := 16384
  const SECRET_LIMIT := 192

  /** How many characters of a piece survive on the way to the body and to the signed string. */
  datatype Space = Space(body: nat, signed: nat)

  /** What the now-playing builder appends directly is bounded by the body only. */
  const NO_BUFFER := Space(MAX_BODY_SIZE, MAX_BODY_SIZE)

  /** The scrobble builder prints the pieces of a track into buffers first, one size less the NUL. */
  const TEXT_SPACE := Space(383, 401)
  const MBID_SPACE := Space(383, 400)
  const TIME_SPACE := Space(383, 383)
  const ARTIST_SPACE := Space(3082, 3080)

  /** A parameter of a request; `escaped` says whether the body has its value percent-encoded. */
  datatype Param = Param(name: string, value: string, escaped: bool, space: Space)

  function Encoded(p: Param, esc: string -> string): string {
    if p.escaped then esc(p.value) else p.value
  }

  function Pair(p: Param, esc: string -> string): string {
    p.name + "=" + Encoded(p, esc) + "&"
  }

  /** The body up to the signature, as it is meant: every parameter whole. */
  function BodyOf(params: seq<Param>, esc: string -> string): string {
    if params == [] then ""
    else
      var last := params[|params| - 1];
      BodyOf(params[..|params| - 1], esc) + Pair(last, esc)
  }

  /** The string to be signed up to the secret, as it is meant. */
  function SigBaseOf(params: seq<Param>): string {
    if params == [] then ""
    else
      var last := params[|params| - 1];
      SigBaseOf(params[..|params| - 1]) + (last.name + last.value)
  }

  // ----- what the buffers leave of it -----

  /** `snprintf` into a buffer for `room` characters and a NUL. */
  function Cut(s: string, room: nat): (r: string)
    ensures r <= s && |r| == if |s| <= room then |s| else room
  {
    if |s| <= room then s else s[..room]
  }

  function CutBodyOf(params: seq<Param>, esc: string -> string): string {
    if params == [] then ""
    else
      var last := params[|params| - 1];
      CutBodyOf(params[..|params| - 1], esc) + Cut(Pair(last, esc), last.space.body)
  }

  function CutSigOf(params: seq<Param>): string {
    if params == [] then ""
    else
      var last := params[|params| - 1];
      CutSigOf(params[..|params| - 1]) + Cut(last.name + last.value, last.space.signed)
  }

  predicate BodyPieceFits(p: Param, esc: string -> string) {
    |Pair(p, esc)| <= p.space.body
  }

  predicate SigPieceFits(p: Param) {
    |p.name| + |p.value| <= p.space.signed
  }

  ghost predicate PiecesFit(params: seq<Param>, esc: string -> string) {
    forall p | p in params :: BodyPieceFits(p, esc)
  }

  predicate SigPiecesFit(params: seq<Param>) {
    forall p | p in params :: SigPieceFits(p)
  }

  /** Nothing is lost of the body exactly when every piece fits its buffer. */
  lemma {:induction false} CutBodyExact(params: seq<Param>, esc: string -> string)
    ensures |CutBodyOf(params, esc)| <= |BodyOf(params, esc)|
    ensures |CutBodyOf(params, esc)| == |BodyOf(params, esc)| <==> PiecesFit(params, esc)
    ensures PiecesFit(params, esc) ==> CutBodyOf(params, esc) == BodyOf(params, esc)
  {
    hide Pair, Cut;
    if params != [] {
      var front, last := params[..|params| - 1], params[|params| - 1];
      assert params == front + [last];
      CutBodyExact(front, esc);
      assert |Pair(last, esc)| <= last.space.body ==> Cut(Pair(last, esc), last.space.body) == Pair(last, esc);
      assert PiecesFit(params, esc) <==> PiecesFit(front, esc) && BodyPieceFits(last, esc);
    }
  }

  lemma {:induction false} CutSigExact(params: seq<Param>)
    ensures |CutSigOf(params)| <= |SigBaseOf(params)|
    ensures |CutSigOf(params)| == |SigBaseOf(params)| <==> SigPiecesFit(params)
    ensures SigPiecesFit(params) ==> CutSigOf(params) == SigBaseOf(params)
  {
    hide Cut;
    if params != [] {
      var front, last := params[..|params| - 1], params[|params| - 1];
      assert params == front + [last];
      CutSigExact(front);
      var text := last.name + last.value;
      assert |text| <= last.space.signed ==> Cut(text, last.space.signed) == text;
      assert SigPiecesFit(params) <==> SigPiecesFit(front) && SigPieceFits(last);
    }
  }

  /** A piece is no longer than what the body got of it. */
  lemma {:induction false} PieceWithin(params: seq<Param>, esc: string -> string, p: Param)
    requires p in params
    ensures |Cut(Pair(p, esc), p.space.body)| <= |CutBodyOf(params, esc)|
  {
    hide Cut, Pair;
    var front, last := params[..|params| - 1], params[|params| - 1];
    assert params == front + [last];
    if p in front {
      PieceWithin(front, esc, p);
    }
  }

  predicate Direct(params: seq<Param>) {
    forall k | 0 <= k < |params| :: params[k].space == NO_BUFFER
  }

  /** So where the body has room, the pieces that go to it directly are whole. */
  lemma DirectPiecesFit(params: seq<Param>, esc: string -> string)
    requires |CutBodyOf(params, esc)| < MAX_BODY_SIZE
    ensures forall p | p in params && p.space == NO_BUFFER :: BodyPieceFits(p, esc)
  {
    hide CutBodyOf, Pair;
    forall p | p in params && p.space == NO_BUFFER
      ensures BodyPieceFits(p, esc)
    {
      PieceWithin(params, esc, p);
    }
  }

  lemma {:induction false} SigPieceWithin(params: seq<Param>, p: Param)
    requires p in params
    ensures |Cut(p.name + p.value, p.space.signed)| <= |CutSigOf(params)|
  {
    hide Cut;
    var front, last := params[..|params| - 1], params[|params| - 1];
    assert params == front + [last];
    if p in front {
      SigPieceWithin(front, p);
    }
  }

  lemma DirectSigPiecesFit(params: seq<Param>)
    requires |CutSigOf(params)| < MAX_BODY_SIZE
    ensures forall p | p in params && p.space == NO_BUFFER :: SigPieceFits(p)
  {
    hide CutSigOf;
    forall p | p in params && p.space == NO_BUFFER
      ensures SigPieceFits(p)
    {
      SigPieceWithin(params, p);
    }
  }

  // ----- the digest in hexadecimal -----

  const HEX_DIGITS := "0123456789abcdef"

  function HexByte(b: Byte): (s: string)
    ensures |s| == 2
  {
    [HEX_DIGITS[b as nat / 16], HEX_DIGITS[b as nat % 16]]
  }

  function Hex(bytes: seq<Byte>): (s: string)
    ensures |s| == 2 * |bytes|
  {
    if bytes == [] then "" else Hex(bytes[..|bytes| - 1]) + HexByte(bytes[|bytes| - 1])
  }

  /** The characters of a C string are bytes. */
  predicate ByteString(s: string) {
    forall k | 0 <= k < |s| :: (s[k] as int) < 256
  }

  function Bytes(s: string): (b: seq<Byte>)
    ensures |b| == |s|
  {
    seq(|s|, k requires 0 <= k < |s| => (s[k] as int % 256) as Byte)
  }

  /** The loop that prints the digest. */
  method HexOf(hash: array<Byte>) returns (result: string)
    ensures result == Hex(hash[..])
  {
    result := "";
    var n := 0;
    while n < hash.Length
      invariant 0 <= n <= hash.Length && result == Hex(hash[..n])
    {
      assert hash[..n + 1][..n] == hash[..n];
      result := result + HexByte(hash[n]);
      n := n + 1;
    }
    assert hash[..n] == hash[..];
  }

  /** `api_get_signature`. The string and the secret have to fit its buffer. */
  method ApiGetSignature(str: string, secret: string) returns (result: string)
    requires ByteString(str) && ByteString(secret)
    requires |str| + |secret| <= MAX_BODY_SIZE && |secret| <= SECRET_LIMIT
    ensures result == Hex(Digest(Bytes(str + secret)))
  {
    hide Digest, Hex, Output, ProcessBlocks, Md5.CodedText, Md5.LengthFits;
    var text := str + secret;
    var len := |str| + |secret|;
    var sig := new Byte[MAX_BODY_SIZE + 1](_ => 0);
    forall k | 0 <= k < len { sig[k] := (text[k] as int % 256) as Byte; }
    assert sig[..len] == Bytes(text);
    var hash := new Byte[16](_ => 0);
    ShortEnough(len);
    Md5.Md5(sig, len, hash);
    result := HexOf(hash);
  }

  lemma ShortEnough(length: nat)
    requires length <= MAX_BODY_SIZE
    ensures Md5.LengthFits(length)
  {
  }

  // ----- the parameters -----

  const VALUE_SEPARATOR := ", "

  /** The names of the artists that are set, separated. */
  function FullArtist(artists: seq<string>): string {
    if artists == [] then ""
    else
      var front, last := FullArtist(artists[..|artists| - 1]), artists[|artists| - 1];
      if last == "" then front else if front == "" then last else front + VALUE_SEPARATOR + last
  }

  function IfAny(name: string, value: string, space: Space): seq<Param> {
    if value == "" then [] else [Param(name, value, true, space)]
  }

  function NowPlayingParams(track: Scrobble, apiKey: string, sk: string): seq<Param> {
    [Param("album", track.album, true, NO_BUFFER)]
    + [Param("api_key", apiKey, true, NO_BUFFER)]
    + IfAny("artist", FullArtist(track.artist), NO_BUFFER)
    + IfAny("mbid", First(track.mbTrackId), NO_BUFFER)
    + [Param("method", "track.updateNowPlaying", false, NO_BUFFER)]
    + [Param("sk", sk, false, NO_BUFFER)]
    + [Param("track", track.title, true, NO_BUFFER)]
  }

  function Digit(n: nat): char
    requires n < 10
  {
    "0123456789"[n]
  }

  function Decimal(n: nat): string {
    if n < 10 then [Digit(n)] else Decimal(n / 10) + [Digit(n % 10)]
  }

  /** `%ld` */
  function DecimalOf(n: int): string {
    if n < 0 then "-" + Decimal(-n) else Decimal(n)
  }

  function Indexed(name: string, i: nat): string {
    name + "[" + Decimal(i) + "]"
  }

  // What one track contributes to each of the five loops.

  function AlbumOf(track: Scrobble, i: nat): seq<Param> {
    [Param(Indexed("album", i), track.album, true, TEXT_SPACE)]
  }

  function ArtistOf(track: Scrobble, i: nat): seq<Param> {
    IfAny(Indexed("artist", i), FullArtist(track.artist), ARTIST_SPACE)
  }

  function MbidOf(track: Scrobble, i: nat): seq<Param> {
    IfAny(Indexed("mbid", i), First(track.mbTrackId), MBID_SPACE)
  }

  function TimestampOf(track: Scrobble, i: nat): seq<Param> {
    [Param(Indexed("timestamp", i), DecimalOf(track.startTime), false, TIME_SPACE)]
  }

  function TitleOf(track: Scrobble, i: nat): seq<Param> {
    [Param(Indexed("track", i), track.title, true, TEXT_SPACE)]
  }

  /** From the first track to the last. */
  function Upward(tracks: seq<Scrobble>, of: (Scrobble, nat) -> seq<Param>): seq<Param> {
    if tracks == [] then []
    else
      var i := |tracks| - 1;
      Upward(tracks[..i], of) + of(tracks[i], i)
  }

  /** From the last track down to the first. */
  function Downward(tracks: seq<Scrobble>, of: (Scrobble, nat) -> seq<Param>): seq<Param> {
    if tracks == [] then []
    else
      var i := |tracks| - 1;
      of(tracks[i], i) + Downward(tracks[..i], of)
  }

  function ScrobbleParams(tracks: seq<Scrobble>, apiKey: string, sk: string): seq<Param> {
    Upward(tracks, AlbumOf)
    + [Param("api_key", apiKey, true, NO_BUFFER)]
    + Upward(tracks, ArtistOf)
    + Upward(tracks, MbidOf)
    + [Param("method", "track.scrobble", false, NO_BUFFER)]
    + [Param("sk", sk, false, NO_BUFFER)]
    + Downward(tracks, TimestampOf)
    + Downward(tracks, TitleOf)
  }

  // ----- the builders -----

  /** The two strings that the builders append to, side by side. */
  class RequestBody {
    var body: string
    var sigBase: string
    ghost var params: seq<Param>
    const esc: string -> string

    ghost predicate Valid()
      reads this
    {
      body == CutBodyOf(params, esc) && sigBase == CutSigOf(params)
    }

    constructor (esc: string -> string)
      ensures Valid() && params == [] && this.esc == esc
    {
      body, sigBase, params := "", "", [];
      this.esc := esc;
    }

    /** What is appended for one parameter, through its buffers. */
    method Append(p: Param)
      requires Valid()
      modifies this
      ensures Valid() && params == old(params) + [p]
    {
      body := body + Cut(Pair(p, esc), p.space.body);
      sigBase := sigBase + Cut(p.name + p.value, p.space.signed);
      params := params + [p];
    }

    method AppendIfAny(name: string, value: string, space: Space)
      requires Valid()
      modifies this
      ensures Valid() && params == old(params) + IfAny(name, value, space)
    {
      if |value| > 0 {
        Append(Param(name, value, true, space));
      }
    }
  }

  /** The loop that joins the artists. */
  method JoinArtists(artists: seq<string>) returns (full: string)
    ensures full == FullArtist(artists)
  {
    full := "";
    var i := 0;
    while i < |artists|
      invariant 0 <= i <= |artists| && full == FullArtist(artists[..i])
    {
      assert artists[..i + 1][..i] == artists[..i];
      var artist := artists[i];
      i := i + 1;
      if |artist| == 0 { continue; }
      if |full| > 0 { full := full + VALUE_SEPARATOR; }
      full := full + artist;
    }
    assert artists[..i] == artists;
  }

  const SIGNATURE_LENGTH := 40

  /** The body and the string to sign stay within their arrays, the secret and the session key
      within theirs, and the characters are bytes. */
  ghost predicate Buildable(params: seq<Param>, auth: ApiCredentials, esc: string -> string) {
    && ByteString(CutSigOf(params)) && ByteString(auth.secret)
    && |CutSigOf(params)| < MAX_BODY_SIZE
    && |CutSigOf(params)| + |auth.secret| <= MAX_BODY_SIZE && |auth.secret| <= SECRET_LIMIT
    && |CutBodyOf(params, esc)| + SIGNATURE_LENGTH <= MAX_BODY_SIZE
    && |auth.sessionKey| <= MAX_SECRET_LENGTH
  }

  function SentDigest(sigBase: string, secret: string): (s: string)
    ensures |s| == 32
  {
    Hex(Digest(Bytes(sigBase + secret)))
  }

  function Signed(sigBase: string, secret: string): (s: string)
    ensures |s| == SIGNATURE_LENGTH
  {
    "api_sig=" + SentDigest(sigBase, secret)
  }

  /** The body as it is meant: every parameter whole, and signed. */
  function SignedBody(params: seq<Param>, secret: string, esc: string -> string): string {
    BodyOf(params, esc) + Signed(SigBaseOf(params), secret)
  }

  /** The body that the buffers leave. */
  function BuiltBody(params: seq<Param>, secret: string, esc: string -> string): string {
    CutBodyOf(params, esc) + Signed(CutSigOf(params), secret)
  }

  /** As long as the signed pieces fit their buffers, the body is the one that is meant exactly when
      the pieces of the body fit theirs. */
  lemma BuiltExactly(params: seq<Param>, secret: string, esc: string -> string)
    requires SigPiecesFit(params)
    ensures BuiltBody(params, secret, esc) == SignedBody(params, secret, esc) <==> PiecesFit(params, esc)
  {
    hide Signed, CutBodyOf, BodyOf, CutSigOf, SigBaseOf, PiecesFit, SigPiecesFit;
    CutBodyExact(params, esc);
    CutSigExact(params);
    var built, whole := BuiltBody(params, secret, esc), SignedBody(params, secret, esc);
    assert |built| == |CutBodyOf(params, esc)| + SIGNATURE_LENGTH;
    assert |whole| == |BodyOf(params, esc)| + SIGNATURE_LENGTH;
  }

  method Sign(r: RequestBody, secret: string) returns (body: string)
    requires r.Valid() && ByteString(r.sigBase) && ByteString(secret)
    requires |r.sigBase| + |secret| <= MAX_BODY_SIZE && |secret| <= SECRET_LIMIT
    ensures body == BuiltBody(r.params, secret, r.esc)
  {
    hide Hex, Digest, CutBodyOf, CutSigOf;
    var sig := ApiGetSignature(r.sigBase, secret);
    body := r.body + ("api_sig=" + sig);
  }

  const ARTISTS_ROOM := 3072

  /** `audioscrobbler_api_build_request_now_playing`, up to the body; nothing without valid
      credentials. The joined artists have to fit their array. */
  method BuildNowPlaying(track: Scrobble, auth: ApiCredentials, esc: string -> string) returns (body: string)
    requires |FullArtist(track.artist)| <= ARTISTS_ROOM
    requires AudioscrobblerCredentialsValid(auth)
             ==> Buildable(NowPlayingParams(track, auth.apiKey, auth.sessionKey), auth, esc)
    ensures !AudioscrobblerCredentialsValid(auth) ==> body == ""
    ensures AudioscrobblerCredentialsValid(auth)
            ==> body == SignedBody(NowPlayingParams(track, auth.apiKey, auth.sessionKey), auth.secret, esc)
  {
    hide SignedBody, BuiltBody, CutSigOf, CutBodyOf, SigPiecesFit, PiecesFit, FullArtist, First;
    if !AudioscrobblerCredentialsValid(auth) { return ""; }
    var r := new RequestBody(esc);
    r.Append(Param("album", track.album, true, NO_BUFFER));
    r.Append(Param("api_key", auth.apiKey, true, NO_BUFFER));
    var fullArtist := JoinArtists(track.artist);
    r.AppendIfAny("artist", fullArtist, NO_BUFFER);
    r.AppendIfAny("mbid", First(track.mbTrackId), NO_BUFFER);
    r.Append(Param("method", "track.updateNowPlaying", false, NO_BUFFER));
    r.Append(Param("sk", auth.sessionKey, false, NO_BUFFER));
    r.Append(Param("track", track.title, true, NO_BUFFER));
    assert r.params == NowPlayingParams(track, auth.apiKey, auth.sessionKey);
    NowPlayingIsWhole(track, auth, esc);
    body := Sign(r, auth.secret);
  }

  lemma NoBuffers(track: Scrobble, apiKey: string, sk: string)
    ensures Direct(NowPlayingParams(track, apiKey, sk))
  {
    hide FullArtist, First;
  }

  /** The now-playing builder uses no buffers, so nothing of its body is lost. */
  lemma NowPlayingIsWhole(track: Scrobble, auth: ApiCredentials, esc: string -> string)
    requires Buildable(NowPlayingParams(track, auth.apiKey, auth.sessionKey), auth, esc)
    ensures var params := NowPlayingParams(track, auth.apiKey, auth.sessionKey);
            BuiltBody(params, auth.secret, esc) == SignedBody(params, auth.secret, esc)
  {
    hide SignedBody, BuiltBody, CutSigOf, CutBodyOf, BodyPieceFits, SigPieceFits, NowPlayingParams;
    var params := NowPlayingParams(track, auth.apiKey, auth.sessionKey);
    NoBuffers(track, auth.apiKey, auth.sessionKey);
    DirectPiecesFit(params, esc);
    DirectSigPiecesFit(params);
    BuiltExactly(params, auth.secret, esc);
  }

  method AppendAlbums(r: RequestBody, tracks: seq<Scrobble>)
    requires r.Valid()
    modifies r
    ensures r.Valid() && r.params == old(r.params) + Upward(tracks, AlbumOf)
  {
    hide CutBodyOf, CutSigOf, Indexed, DecimalOf, FullArtist;
    var i := 0;
    while i < |tracks|
      invariant 0 <= i <= |tracks| && r.Valid()
      invariant r.params == old(r.params) + Upward(tracks[..i], AlbumOf)
    {
      assert tracks[..i + 1][..i] == tracks[..i];
      r.Append(Param(Indexed("album", i), tracks[i].album, true, TEXT_SPACE));
      i := i + 1;
    }
    assert tracks[..i] == tracks;
  }

  method AppendArtists(r: RequestBody, tracks: seq<Scrobble>)
    requires r.Valid()
    modifies r
    ensures r.Valid() && r.params == old(r.params) + Upward(tracks, ArtistOf)
  {
    hide CutBodyOf, CutSigOf, Indexed, DecimalOf, FullArtist;
    var i := 0;
    while i < |tracks|
      invariant 0 <= i <= |tracks| && r.Valid()
      invariant r.params == old(r.params) + Upward(tracks[..i], ArtistOf)
    {
      assert tracks[..i + 1][..i] == tracks[..i];
      var fullArtist := JoinArtists(tracks[i].artist);
      r.AppendIfAny(Indexed("artist", i), fullArtist, ARTIST_SPACE);
      i := i + 1;
    }
    assert tracks[..i] == tracks;
  }

  method AppendMbids(r: RequestBody, tracks: seq<Scrobble>)
    requires r.Valid()
    modifies r
    ensures r.Valid() && r.params == old(r.params) + Upward(tracks, MbidOf)
  {
    hide CutBodyOf, CutSigOf, Indexed, DecimalOf, FullArtist;
    var i := 0;
    while i < |tracks|
      invariant 0 <= i <= |tracks| && r.Valid()
      invariant r.params == old(r.params) + Upward(tracks[..i], MbidOf)
    {
      assert tracks[..i + 1][..i] == tracks[..i];
      r.AppendIfAny(Indexed("mbid", i), First(tracks[i].mbTrackId), MBID_SPACE);
      i := i + 1;
    }
    assert tracks[..i] == tracks;
  }

  method AppendTimestamps(r: RequestBody, tracks: seq<Scrobble>)
    requires r.Valid()
    modifies r
    ensures r.Valid() && r.params == old(r.params) + Downward(tracks, TimestampOf)
  {
    hide CutBodyOf, CutSigOf, Indexed, DecimalOf, FullArtist;
    var i := |tracks|;
    assert tracks[..i] == tracks;
    while i > 0
      invariant 0 <= i <= |tracks| && r.Valid()
      invariant r.params + Downward(tracks[..i], TimestampOf) == old(r.params) + Downward(tracks, TimestampOf)
    {
      i := i - 1;
      assert tracks[..i + 1][..i] == tracks[..i];
      r.Append(Param(Indexed("timestamp", i), DecimalOf(tracks[i].startTime), false, TIME_SPACE));
    }
  }

  method AppendTitles(r: RequestBody, tracks: seq<Scrobble>)
    requires r.Valid()
    modifies r
    ensures r.Valid() && r.params == old(r.params) + Downward(tracks, TitleOf)
  {
    hide CutBodyOf, CutSigOf, Indexed, DecimalOf, FullArtist;
    var i := |tracks|;
    assert tracks[..i] == tracks;
    while i > 0
      invariant 0 <= i <= |tracks| && r.Valid()
      invariant r.params + Downward(tracks[..i], TitleOf) == old(r.params) + Downward(tracks, TitleOf)
    {
      i := i - 1;
      assert tracks[..i + 1][..i] == tracks[..i];
      r.Append(Param(Indexed("track", i), tracks[i].title, true, TEXT_SPACE));
    }
  }

  /** `audioscrobbler_api_build_request_scrobble`, up to the body: what is left of the parameters
      after the buffers, signed. */
  method BuildScrobble(tracks: seq<Scrobble>, auth: ApiCredentials, esc: string -> string) returns (body: string)
    requires forall t | t in tracks :: |FullArtist(t.artist)| < ARTISTS_ROOM
    requires AudioscrobblerCredentialsValid(auth)
             ==> Buildable(ScrobbleParams(tracks, auth.apiKey, auth.sessionKey), auth, esc)
    ensures !AudioscrobblerCredentialsValid(auth) ==> body == ""
    ensures AudioscrobblerCredentialsValid(auth)
            ==> body == BuiltBody(ScrobbleParams(tracks, auth.apiKey, auth.sessionKey), auth.secret, esc)
    ensures var params := ScrobbleParams(tracks, auth.apiKey, auth.sessionKey);
            AudioscrobblerCredentialsValid(auth) && SigPiecesFit(params)
            ==> (body == SignedBody(params, auth.secret, esc) <==> PiecesFit(params, esc))
  {
    hide SignedBody, BuiltBody, CutSigOf, CutBodyOf, SigPiecesFit, PiecesFit, FullArtist,
         Upward, Downward;
    if !AudioscrobblerCredentialsValid(auth) { return ""; }
    var r := new RequestBody(esc);
    AppendAlbums(r, tracks);
    r.Append(Param("api_key", auth.apiKey, true, NO_BUFFER));
    AppendArtists(r, tracks);
    AppendMbids(r, tracks);
    r.Append(Param("method", "track.scrobble", false, NO_BUFFER));
    r.Append(Param("sk", auth.sessionKey, false, NO_BUFFER));
    AppendTimestamps(r, tracks);
    AppendTitles(r, tracks);
    ghost var params := ScrobbleParams(tracks, auth.apiKey, auth.sessionKey);
    assert r.params == params;
    body := Sign(r, auth.secret);
    if SigPiecesFit(params) {
      BuiltExactly(params, auth.secret, esc);
    }
  }

  // ----- reading a hexadecimal digest -----

  function HexValue(c: char): (v: nat)
    ensures v < 16
  {
    if '0' <= c <= '9' then c as nat - '0' as nat
    else if 'a' <= c <= 'f' then c as nat - 'a' as nat + 10
    else 0
  }

  function ByteOf(high: nat, low: nat): Byte
    requires high < 16 && low < 16
  {
    (16 * high + low) as Byte
  }

  function Unhex(s: string): seq<Byte> {
    if |s| < 2 then []
    else Unhex(s[..|s| - 2]) + [ByteOf(HexValue(s[|s| - 2]), HexValue(s[|s| - 1]))]
  }

  lemma HexDigitsRead(n: nat)
    requires n < 16
    ensures HexValue(HEX_DIGITS[n]) == n
  {
  }

  lemma NibblesOf(b: Byte)
    ensures ByteOf(b as nat / 16, b as nat % 16) == b
  {
  }

  lemma UnhexStep(front: string, b: Byte)
    ensures Unhex(front + HexByte(b)) == Unhex(front) + [b]
  {
    hide ByteOf, HexValue;
    var high, low := b as nat / 16, b as nat % 16;
    HexDigitsRead(high);
    HexDigitsRead(low);
    NibblesOf(b);
    UnhexTwo(front, HEX_DIGITS[high], HEX_DIGITS[low]);
  }

  lemma UnhexTwo(front: string, high: char, low: char)
    ensures Unhex(front + [high, low]) == Unhex(front) + [ByteOf(HexValue(high), HexValue(low))]
  {
    hide ByteOf, HexValue;
    assert (front + [high, low])[..|front|] == front;
  }

  lemma {:induction false} HexRoundTrip(bytes: seq<Byte>)
    ensures Unhex(Hex(bytes)) == bytes
  {
    hide Unhex, HexByte;
    if bytes == [] {
      UnhexNothing();
    } else {
      var front, b := bytes[..|bytes| - 1], bytes[|bytes| - 1];
      HexRoundTrip(front);
      UnhexStep(Hex(front), b);
      assert bytes == front + [b];
    }
  }

  lemma UnhexNothing()
    ensures Unhex("") == []
  {
  }
}
