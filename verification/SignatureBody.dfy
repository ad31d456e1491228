/**
  What a server finds in the bodies of `Signature`, and what it finds when a piece was cut.
 */
module SignatureBody {
  import opened Scrobbles
  import opened Credentials
  import opened Queue
  import opened Signature
  import opened SignatureOrder
  import opened Rfc1321
  import opened IniText

  // ----- when the pieces of a scrobble request fit -----

  lemma PiecesFitAppend(a: seq<Param>, b: seq<Param>, esc: string -> string)
    ensures PiecesFit(a + b, esc) <==> PiecesFit(a, esc) && PiecesFit(b, esc)
  {
    hide BodyPieceFits;
    forall p | p in a || p in b
      ensures p in a + b
    {
    }
  }

  lemma {:induction false} LoopPiecesFit(tracks: seq<Scrobble>, of: (Scrobble, nat) -> seq<Param>, esc: string -> string)
    ensures PiecesFit(Upward(tracks, of), esc)
            <==> forall i | 0 <= i < |tracks| :: PiecesFit(of(tracks[i], i), esc)
    ensures PiecesFit(Downward(tracks, of), esc)
            <==> forall i | 0 <= i < |tracks| :: PiecesFit(of(tracks[i], i), esc)
  {
    if tracks == [] {
      assert PiecesFit([], esc);
    } else {
      hide PiecesFit;
      var n := |tracks| - 1;
      var front := tracks[..n];
      LoopPiecesFit(front, of, esc);
      PiecesFitAppend(Upward(front, of), of(tracks[n], n), esc);
      PiecesFitAppend(of(tracks[n], n), Downward(front, of), esc);
      assert forall i | 0 <= i < n :: front[i] == tracks[i];
    }
  }

  /** The pieces of track `i` fit their buffers, by the lengths of what is put into them. */
  predicate TrackFits(t: Scrobble, i: nat, esc: string -> string) {
    var digits, artist, mbid := |Decimal(i)|, FullArtist(t.artist), First(t.mbTrackId);
    && |esc(t.album)| + digits <= 374
    && |esc(t.title)| + digits <= 374
    && (artist != "" ==> |esc(artist)| + digits <= 3072)
    && (mbid != "" ==> |esc(mbid)| + digits <= 375)
    && |DecimalOf(t.startTime)| + digits <= 370
  }

  lemma PieceOf(name: string, i: nat, value: string, escaped: bool, space: Space, esc: string -> string)
    ensures var p := Param(Indexed(name, i), value, escaped, space);
            |Pair(p, esc)| == |name| + |Decimal(i)| + |Encoded(p, esc)| + 4
  {
  }

  lemma OnePiece(p: Param, esc: string -> string)
    ensures PiecesFit([p], esc) <==> BodyPieceFits(p, esc)
    ensures PiecesFit([], esc)
  {
    hide BodyPieceFits;
    assert p in [p];
  }

  lemma TrackPieces(t: Scrobble, i: nat, esc: string -> string)
    ensures TrackFits(t, i, esc) <==>
              && PiecesFit(AlbumOf(t, i), esc) && PiecesFit(TitleOf(t, i), esc)
              && PiecesFit(ArtistOf(t, i), esc) && PiecesFit(MbidOf(t, i), esc)
              && PiecesFit(TimestampOf(t, i), esc)
  {
    hide PiecesFit, Pair, Indexed, Decimal, DecimalOf, FullArtist, First;
    var artist, mbid := FullArtist(t.artist), First(t.mbTrackId);
    PieceOf("album", i, t.album, true, TEXT_SPACE, esc);
    PieceOf("track", i, t.title, true, TEXT_SPACE, esc);
    PieceOf("artist", i, artist, true, ARTIST_SPACE, esc);
    PieceOf("mbid", i, mbid, true, MBID_SPACE, esc);
    PieceOf("timestamp", i, DecimalOf(t.startTime), false, TIME_SPACE, esc);
    OnePiece(Param(Indexed("album", i), t.album, true, TEXT_SPACE), esc);
    OnePiece(Param(Indexed("track", i), t.title, true, TEXT_SPACE), esc);
    OnePiece(Param(Indexed("artist", i), artist, true, ARTIST_SPACE), esc);
    OnePiece(Param(Indexed("mbid", i), mbid, true, MBID_SPACE), esc);
    OnePiece(Param(Indexed("timestamp", i), DecimalOf(t.startTime), false, TIME_SPACE), esc);
  }

  /** Within the body, what is lost is exactly what is longer than the buffers of its track. */
  lemma ScrobblePiecesFit(tracks: seq<Scrobble>, apiKey: string, sk: string, esc: string -> string)
    requires |CutBodyOf(ScrobbleParams(tracks, apiKey, sk), esc)| < MAX_BODY_SIZE
    ensures PiecesFit(ScrobbleParams(tracks, apiKey, sk), esc)
            <==> forall i | 0 <= i < |tracks| :: TrackFits(tracks[i], i, esc)
  {
    hide CutBodyOf, PiecesFit, TrackFits, Upward, Downward, BodyPieceFits;
    var key, method_, session := Param("api_key", apiKey, true, NO_BUFFER),
      Param("method", "track.scrobble", false, NO_BUFFER), Param("sk", sk, false, NO_BUFFER);
    var a, b, c := Upward(tracks, AlbumOf), Upward(tracks, ArtistOf), Upward(tracks, MbidOf);
    var d, e := Downward(tracks, TimestampOf), Downward(tracks, TitleOf);
    var all := ScrobbleParams(tracks, apiKey, sk);
    PiecesFitAppend(a, [key], esc);
    PiecesFitAppend(a + [key], b, esc);
    PiecesFitAppend(a + [key] + b, c, esc);
    PiecesFitAppend(a + [key] + b + c, [method_], esc);
    PiecesFitAppend(a + [key] + b + c + [method_], [session], esc);
    PiecesFitAppend(a + [key] + b + c + [method_] + [session], d, esc);
    PiecesFitAppend(a + [key] + b + c + [method_] + [session] + d, e, esc);
    DirectPiecesFit(all, esc);
    assert key in all && method_ in all && session in all;
    OnePiece(key, esc);
    OnePiece(method_, esc);
    OnePiece(session, esc);
    LoopPiecesFit(tracks, AlbumOf, esc);
    LoopPiecesFit(tracks, ArtistOf, esc);
    LoopPiecesFit(tracks, MbidOf, esc);
    LoopPiecesFit(tracks, TimestampOf, esc);
    LoopPiecesFit(tracks, TitleOf, esc);
    forall i | 0 <= i < |tracks|
      ensures TrackFits(tracks[i], i, esc) <==>
                && PiecesFit(AlbumOf(tracks[i], i), esc) && PiecesFit(TitleOf(tracks[i], i), esc)
                && PiecesFit(ArtistOf(tracks[i], i), esc) && PiecesFit(MbidOf(tracks[i], i), esc)
                && PiecesFit(TimestampOf(tracks[i], i), esc)
    {
      TrackPieces(tracks[i], i, esc);
    }
  }

  // ----- the pieces of the signed string always fit -----

  const MAX_PROPERTY_LENGTH := 384

  /** What the fields of `struct scrobble` hold; of the artists one is loaded, and room is left
      for more. */
  predicate Held(t: Scrobble) {
    && |t.album| <= MAX_PROPERTY_LENGTH && |t.title| <= MAX_PROPERTY_LENGTH
    && |First(t.mbTrackId)| <= MAX_PROPERTY_LENGTH && |FullArtist(t.artist)| <= ARTISTS_ROOM - 2
    && -TWO_63 <= t.startTime < TWO_63
  }

  const TWO_63 := 0x8000_0000_0000_0000

  function Pow10(k: nat): nat {
    if k == 0 then 1 else 10 * Pow10(k - 1)
  }

  lemma {:induction false} DecimalLength(n: nat, k: nat)
    requires n < Pow10(k) && k >= 1
    ensures |Decimal(n)| <= k
  {
    assert Pow10(1) == 10;
    if n >= 10 {
      DecimalLength(n / 10, k - 1);
    }
  }

  lemma DecimalLengths(i: nat, time: int)
    requires i < MAX_QUEUE_LENGTH && -TWO_63 <= time < TWO_63
    ensures |Decimal(i)| <= 2 && |DecimalOf(time)| <= 20
  {
    assert Pow10(1) == 10 && Pow10(2) == 100;
    Powers();
    DecimalLength(i, 2);
    DecimalLength(if time < 0 then -time else time, 19);
  }

  lemma Powers()
    ensures Pow10(19) > TWO_63
  {
    assert Pow10(4) == 10000;
    assert Pow10(8) == 100000000;
    assert Pow10(12) == 1000000000000;
    assert Pow10(16) == 10000000000000000;
  }

  lemma SigPiecesFitAppend(a: seq<Param>, b: seq<Param>)
    ensures SigPiecesFit(a + b) <==> SigPiecesFit(a) && SigPiecesFit(b)
  {
    hide SigPieceFits;
    forall p | p in a || p in b
      ensures p in a + b
    {
    }
  }

  lemma {:induction false} LoopSigPiecesFit(tracks: seq<Scrobble>, of: (Scrobble, nat) -> seq<Param>)
    requires forall i | 0 <= i < |tracks| :: SigPiecesFit(of(tracks[i], i))
    ensures SigPiecesFit(Upward(tracks, of)) && SigPiecesFit(Downward(tracks, of))
  {
    if tracks == [] {
      assert SigPiecesFit([]);
    } else {
      hide SigPiecesFit;
      var n := |tracks| - 1;
      var front := tracks[..n];
      assert forall i | 0 <= i < n :: front[i] == tracks[i];
      LoopSigPiecesFit(front, of);
      SigPiecesFitAppend(Upward(front, of), of(tracks[n], n));
      SigPiecesFitAppend(of(tracks[n], n), Downward(front, of));
    }
  }

  lemma TrackSigPieces(t: Scrobble, i: nat)
    requires Held(t) && i < MAX_QUEUE_LENGTH
    ensures SigPiecesFit(AlbumOf(t, i)) && SigPiecesFit(TitleOf(t, i)) && SigPiecesFit(TimestampOf(t, i))
    ensures SigPiecesFit(ArtistOf(t, i)) && SigPiecesFit(MbidOf(t, i))
  {
    hide Decimal, DecimalOf, FullArtist, First;
    DecimalLengths(i, t.startTime);
    assert |Indexed("album", i)| <= 9 && |Indexed("track", i)| <= 9 && |Indexed("timestamp", i)| <= 13;
    assert |Indexed("artist", i)| <= 10 && |Indexed("mbid", i)| <= 8;
    hide Indexed;
  }

  lemma ScrobbleSigPiecesFit(tracks: seq<Scrobble>, apiKey: string, sk: string)
    requires |tracks| <= MAX_QUEUE_LENGTH && forall t | t in tracks :: Held(t)
    requires |CutSigOf(ScrobbleParams(tracks, apiKey, sk))| < MAX_BODY_SIZE
    ensures SigPiecesFit(ScrobbleParams(tracks, apiKey, sk))
  {
    hide CutSigOf, SigPiecesFit, Upward, Downward, SigPieceFits, Held;
    var key, method_, session := Param("api_key", apiKey, true, NO_BUFFER),
      Param("method", "track.scrobble", false, NO_BUFFER), Param("sk", sk, false, NO_BUFFER);
    var a, b, c := Upward(tracks, AlbumOf), Upward(tracks, ArtistOf), Upward(tracks, MbidOf);
    var d, e := Downward(tracks, TimestampOf), Downward(tracks, TitleOf);
    var all := ScrobbleParams(tracks, apiKey, sk);
    SigPiecesFitAppend(a, [key]);
    SigPiecesFitAppend(a + [key], b);
    SigPiecesFitAppend(a + [key] + b, c);
    SigPiecesFitAppend(a + [key] + b + c, [method_]);
    SigPiecesFitAppend(a + [key] + b + c + [method_], [session]);
    SigPiecesFitAppend(a + [key] + b + c + [method_] + [session], d);
    SigPiecesFitAppend(a + [key] + b + c + [method_] + [session] + d, e);
    DirectSigPiecesFit(all);
    assert key in all && method_ in all && session in all;
    OneSigPiece(key);
    OneSigPiece(method_);
    OneSigPiece(session);
    forall i | 0 <= i < |tracks|
      ensures SigPiecesFit(AlbumOf(tracks[i], i)) && SigPiecesFit(TitleOf(tracks[i], i))
      ensures SigPiecesFit(TimestampOf(tracks[i], i))
      ensures SigPiecesFit(ArtistOf(tracks[i], i)) && SigPiecesFit(MbidOf(tracks[i], i))
    {
      TrackSigPieces(tracks[i], i);
    }
    LoopSigPiecesFit(tracks, AlbumOf);
    LoopSigPiecesFit(tracks, ArtistOf);
    LoopSigPiecesFit(tracks, MbidOf);
    LoopSigPiecesFit(tracks, TimestampOf);
    LoopSigPiecesFit(tracks, TitleOf);
  }

  lemma OneSigPiece(p: Param)
    ensures SigPiecesFit([p]) <==> SigPieceFits(p)
  {
    hide SigPieceFits;
    assert p in [p];
  }

  /** The body of a scrobble request is the one that is meant, every parameter whole and signed,
      exactly when the texts of every track, as they are encoded, fit the buffers. */
  lemma ScrobbleBodyExact(tracks: seq<Scrobble>, auth: ApiCredentials, esc: string -> string)
    requires |tracks| <= MAX_QUEUE_LENGTH && forall t | t in tracks :: Held(t)
    requires Buildable(ScrobbleParams(tracks, auth.apiKey, auth.sessionKey), auth, esc)
    ensures var params := ScrobbleParams(tracks, auth.apiKey, auth.sessionKey);
            BuiltBody(params, auth.secret, esc) == SignedBody(params, auth.secret, esc)
            <==> forall i | 0 <= i < |tracks| :: TrackFits(tracks[i], i, esc)
  {
    hide ScrobbleParams, BuiltBody, SignedBody, CutBodyOf, CutSigOf, PiecesFit, SigPiecesFit, TrackFits, Held;
    var params := ScrobbleParams(tracks, auth.apiKey, auth.sessionKey);
    ScrobbleSigPiecesFit(tracks, auth.apiKey, auth.sessionKey);
    ScrobblePiecesFit(tracks, auth.apiKey, auth.sessionKey, esc);
    BuiltExactly(params, auth.secret, esc);
  }

  // ----- one track always fits -----

  lemma {:induction false} CutSigAppend(a: seq<Param>, b: seq<Param>)
    ensures CutSigOf(a + b) == CutSigOf(a) + CutSigOf(b)
  {
    hide Cut;
    if b == [] {
      assert a + b == a;
    } else {
      assert (a + b)[..|a + b| - 1] == a + b[..|b| - 1];
      CutSigAppend(a, b[..|b| - 1]);
    }
  }

  lemma {:induction false} CutBodyAppend(a: seq<Param>, b: seq<Param>, esc: string -> string)
    ensures CutBodyOf(a + b, esc) == CutBodyOf(a, esc) + CutBodyOf(b, esc)
  {
    hide Cut, Pair;
    if b == [] {
      assert a + b == a;
    } else {
      assert (a + b)[..|a + b| - 1] == a + b[..|b| - 1];
      CutBodyAppend(a, b[..|b| - 1], esc);
    }
  }

  /** What at most one parameter adds to the signed string and to the body, within the bounds. */
  predicate Adds(params: seq<Param>, esc: string -> string, signed: nat, sent: nat) {
    ByteString(CutSigOf(params)) && |CutSigOf(params)| <= signed && |CutBodyOf(params, esc)| <= sent
  }

  lemma AddsAppend(a: seq<Param>, b: seq<Param>, esc: string -> string, s1: nat, t1: nat, s2: nat, t2: nat)
    requires Adds(a, esc, s1, t1) && Adds(b, esc, s2, t2)
    ensures Adds(a + b, esc, s1 + s2, t1 + t2)
  {
    hide CutSigOf, CutBodyOf;
    CutSigAppend(a, b);
    CutBodyAppend(a, b, esc);
  }

  lemma OneAdds(p: Param, esc: string -> string)
    requires ByteString(p.name) && ByteString(p.value)
    ensures Adds([p], esc, p.space.signed, p.space.body)
    ensures Adds([p], esc, |p.name| + |p.value|, |p.name| + |Encoded(p, esc)| + 2)
  {
    assert [p][..0] == [];
    assert CutSigOf([p]) == Cut(p.name + p.value, p.space.signed);
    assert CutBodyOf([p], esc) == Cut(Pair(p, esc), p.space.body);
    hide CutSigOf, CutBodyOf;
    PrefixIsBytes(p.name + p.value, Cut(p.name + p.value, p.space.signed));
  }

  lemma PrefixIsBytes(s: string, prefix: string)
    requires ByteString(s) && prefix <= s
    ensures ByteString(prefix)
  {
  }

  lemma IfAnyAdds(name: string, value: string, space: Space, esc: string -> string)
    requires ByteString(name) && ByteString(value)
    ensures Adds(IfAny(name, value, space), esc, space.signed, space.body)
  {
    if value == "" {
      assert IfAny(name, value, space) == [];
    } else {
      OneAdds(Param(name, value, true, space), esc);
    }
  }

  lemma {:induction false} DecimalIsBytes(n: nat)
    ensures ByteString(Decimal(n))
  {
    if n >= 10 {
      DecimalIsBytes(n / 10);
      DigitIsByte(n % 10);
    } else {
      DigitIsByte(n);
    }
    hide Digit;
  }

  lemma DigitIsByte(n: nat)
    requires n < 10
    ensures (Digit(n) as int) < 256
  {
  }

  lemma TimeIsBytes(n: int)
    ensures ByteString(DecimalOf(n))
  {
    DecimalIsBytes(if n < 0 then -n else n);
    hide Decimal;
  }

  /** The characters of the fields are bytes, as those of every C string. */
  predicate BytesHeld(t: Scrobble) {
    ByteString(t.album) && ByteString(t.title) && ByteString(First(t.mbTrackId)) && ByteString(FullArtist(t.artist))
  }

  /** And so are those of the credentials, which fit their arrays. Percent-encoding writes at most three
      characters for one. */
  predicate CredentialsHeld(auth: ApiCredentials, esc: string -> string) {
    && ByteString(auth.apiKey) && ByteString(auth.secret) && ByteString(auth.sessionKey)
    && |auth.apiKey| <= MAX_SECRET_LENGTH && |auth.secret| <= MAX_SECRET_LENGTH
    && |auth.sessionKey| <= MAX_SECRET_LENGTH && |esc(auth.apiKey)| <= 3 * MAX_SECRET_LENGTH
  }

  lemma NamesAreBytes()
    ensures ByteString("album[0]") && ByteString("api_key") && ByteString("artist[0]") && ByteString("mbid[0]")
    ensures ByteString("method") && ByteString("track.scrobble") && ByteString("sk")
    ensures ByteString("timestamp[0]") && ByteString("track[0]")
  {
  }

  /** A request with one track, whatever its texts, stays within the arrays of the builder. */
  lemma OneTrackIsBuildable(track: Scrobble, auth: ApiCredentials, esc: string -> string)
    requires BytesHeld(track) && CredentialsHeld(auth, esc)
    ensures Buildable(ScrobbleParams([track], auth.apiKey, auth.sessionKey), auth, esc)
  {
    hide ScrobbleParams, FullArtist, First, DecimalOf, IfAny, ByteString, Adds, CutSigOf, CutBodyOf, Encoded;
    var album, key := Param("album[0]", track.album, true, TEXT_SPACE), Param("api_key", auth.apiKey, true, NO_BUFFER);
    var artist := IfAny("artist[0]", FullArtist(track.artist), ARTIST_SPACE);
    var mbid := IfAny("mbid[0]", First(track.mbTrackId), MBID_SPACE);
    var method_ := Param("method", "track.scrobble", false, NO_BUFFER);
    var session := Param("sk", auth.sessionKey, false, NO_BUFFER);
    var time := Param("timestamp[0]", DecimalOf(track.startTime), false, TIME_SPACE);
    var title := Param("track[0]", track.title, true, TEXT_SPACE);
    NamesAreBytes();
    TimeIsBytes(track.startTime);
    OneTrack(track, auth.apiKey, auth.sessionKey);
    OneAdds(album, esc);
    KeyAdds(key, auth.apiKey, esc);
    IfAnyAdds("artist[0]", FullArtist(track.artist), ARTIST_SPACE, esc);
    IfAnyAdds("mbid[0]", First(track.mbTrackId), MBID_SPACE, esc);
    PlainAdds(method_, esc);
    PlainAdds(session, esc);
    OneAdds(time, esc);
    OneAdds(title, esc);
    AddsAppend([album], [key], esc, 401, 383, 135, 393);
    AddsAppend([album] + [key], artist, esc, 536, 776, 3080, 3082);
    AddsAppend([album] + [key] + artist, mbid, esc, 3616, 3858, 400, 383);
    AddsAppend([album] + [key] + artist + mbid, [method_], esc, 4016, 4241, 200, 200);
    AddsAppend([album] + [key] + artist + mbid + [method_], [session], esc, 4216, 4441, 200, 200);
    AddsAppend([album] + [key] + artist + mbid + [method_] + [session], [time], esc, 4416, 4641, 383, 383);
    AddsAppend([album] + [key] + artist + mbid + [method_] + [session] + [time], [title], esc, 4799, 5024, 401, 383);
    WithinArrays(OneTrackParams(track, auth.apiKey, auth.sessionKey), auth, esc);
  }

  lemma KeyAdds(p: Param, value: string, esc: string -> string)
    requires p == Param("api_key", value, true, NO_BUFFER) && ByteString(p.name) && ByteString(value)
    requires |value| <= MAX_SECRET_LENGTH && |esc(value)| <= 3 * MAX_SECRET_LENGTH
    ensures Adds([p], esc, 135, 393)
  {
    OneAdds(p, esc);
    hide CutSigOf, CutBodyOf, ByteString;
  }

  lemma PlainAdds(p: Param, esc: string -> string)
    requires ByteString(p.name) && ByteString(p.value) && !p.escaped && |p.name| <= 6 && |p.value| <= MAX_SECRET_LENGTH
    ensures Adds([p], esc, 200, 200)
  {
    OneAdds(p, esc);
    hide CutSigOf, CutBodyOf, ByteString;
  }

  lemma WithinArrays(params: seq<Param>, auth: ApiCredentials, esc: string -> string)
    requires Adds(params, esc, 5200, 5407) && CredentialsHeld(auth, esc)
    ensures Buildable(params, auth, esc)
  {
    hide CutSigOf, CutBodyOf, ByteString;
  }

  // ----- reading a body back -----

  /** What a server finds in a form-encoded body: the names and the encoded values. */
  function Fields(body: string): seq<(string, string)>
    decreases |body|
  {
    if body == "" then []
    else
      var n := Index('&', body);
      var e := Index('=', body[..n]);
      var field := (body[..e], if e < n then body[e + 1..n] else "");
      [field] + if n < |body| then Fields(body[n + 1..]) else []
  }

  function Sent(params: seq<Param>, esc: string -> string): seq<(string, string)> {
    if params == [] then []
    else Sent(params[..|params| - 1], esc) + [(params[|params| - 1].name, Encoded(params[|params| - 1], esc))]
  }

  /** The encoding, and the values that are not encoded, keep clear of the separators. */
  predicate Separate(p: Param, esc: string -> string) {
    '=' !in p.name && '&' !in p.name && '&' !in Encoded(p, esc)
  }

  ghost predicate Separable(params: seq<Param>, esc: string -> string) {
    forall p | p in params :: Separate(p, esc)
  }

  lemma FirstField(name: string, value: string, rest: string)
    requires '=' !in name && '&' !in name && '&' !in value
    ensures Fields(name + "=" + value + "&" + rest) == [(name, value)] + Fields(rest)
  {
    hide Index;
    var field := name + "=" + value;
    var body := name + "=" + value + "&" + rest;
    assert body[..|field|] == field && body[|field| + 1..] == rest;
    IndexIs('&', body, |field|);
    assert field[..|name|] == name;
    IndexIs('=', field, |name|);
    assert body[..|name|] == name && body[|name| + 1..|field|] == value;
  }

  lemma LastField(name: string, value: string)
    requires '=' !in name && '&' !in name && '&' !in value
    ensures Fields(name + "=" + value) == [(name, value)]
  {
    hide Index;
    var body := name + "=" + value;
    assert body[..|body|] == body && body[..|name|] == name && body[|name| + 1..] == value;
    IndexIs('&', body, |body|);
    IndexIs('=', body, |name|);
  }

  lemma {:induction false} FieldsOfBody(params: seq<Param>, esc: string -> string, rest: string)
    requires Separable(params, esc)
    ensures Fields(BodyOf(params, esc) + rest) == Sent(params, esc) + Fields(rest)
  {
    hide Fields, Encoded;
    if params == [] {
      assert BodyOf(params, esc) + rest == rest;
    } else {
      var front, last := params[..|params| - 1], params[|params| - 1];
      assert last in params && params == front + [last];
      FieldsOfBody(front, esc, Pair(last, esc) + rest);
      FirstField(last.name, Encoded(last, esc), rest);
      Regrouped(BodyOf(front, esc), Pair(last, esc), rest);
    }
  }

  lemma Regrouped(a: string, b: string, c: string)
    ensures (a + b) + c == a + (b + c)
  {
  }

  lemma {:induction false} HexIsClear(bytes: seq<Byte>)
    ensures '&' !in Hex(bytes)
  {
    if bytes != [] {
      hide HexByte;
      HexIsClear(bytes[..|bytes| - 1]);
      HexByteIsClear(bytes[|bytes| - 1]);
    }
  }

  lemma HexByteIsClear(b: Byte)
    ensures '&' !in HexByte(b)
  {
    HexDigitIsClear(b as nat / 16);
    HexDigitIsClear(b as nat % 16);
  }

  lemma HexDigitIsClear(n: nat)
    requires n < 16
    ensures HEX_DIGITS[n] != '&'
  {
  }

  lemma SignatureIsClear(sigBase: string, secret: string)
    ensures '&' !in Signed(sigBase, secret)
    ensures Fields(Signed(sigBase, secret)) == [("api_sig", SentDigest(sigBase, secret))]
  {
    hide Fields, Digest, Hex, Bytes;
    var hex := SentDigest(sigBase, secret);
    HexIsClear(Digest(Bytes(sigBase + secret)));
    assert "api_sig=" + hex == "api_sig" + "=" + hex;
    LastField("api_sig", hex);
  }

  /** The body that is meant carries exactly the signed parameters in their order, and then their
      signature. */
  lemma BodyReadBack(params: seq<Param>, secret: string, esc: string -> string)
    requires Separable(params, esc)
    ensures Fields(SignedBody(params, secret, esc))
         == Sent(params, esc) + [("api_sig", SentDigest(SigBaseOf(params), secret))]
  {
    hide Fields, Separable, Signed, SentDigest, BodyOf, SigBaseOf;
    FieldsOfBody(params, esc, Signed(SigBaseOf(params), secret));
    SignatureIsClear(SigBaseOf(params), secret);
  }

  // ----- which text stands under which name -----

  lemma {:induction false} SentAppend(a: seq<Param>, b: seq<Param>, esc: string -> string)
    ensures Sent(a + b, esc) == Sent(a, esc) + Sent(b, esc)
  {
    hide Encoded;
    if b == [] {
      assert a + b == a;
    } else {
      assert (a + b)[..|a + b| - 1] == a + b[..|b| - 1];
      SentAppend(a, b[..|b| - 1], esc);
    }
  }

  lemma SentOne(p: Param, esc: string -> string)
    ensures Sent([p], esc) == [(p.name, if p.escaped then esc(p.value) else p.value)]
  {
    assert [p][..0] == [];
  }

  function FieldIfAny(name: string, value: string, esc: string -> string): seq<(string, string)> {
    if value == "" then [] else [(name, esc(value))]
  }

  lemma SentIfAny(name: string, value: string, space: Space, esc: string -> string)
    ensures Sent(IfAny(name, value, space), esc) == FieldIfAny(name, value, esc)
  {
    if value != "" {
      SentOne(Param(name, value, true, space), esc);
    }
  }

  /** A request for one track, field by field: its own texts under their names, and the time when it
      started. */
  lemma OneTrackFields(track: Scrobble, auth: ApiCredentials, esc: string -> string)
    requires Separable(ScrobbleParams([track], auth.apiKey, auth.sessionKey), esc)
    ensures var params := ScrobbleParams([track], auth.apiKey, auth.sessionKey);
            var time := DecimalOf(track.startTime);
            && SignedValue(time) == track.startTime
            && Fields(SignedBody(params, auth.secret, esc)) ==
                 [("album[0]", esc(track.album))]
                 + [("api_key", esc(auth.apiKey))]
                 + FieldIfAny("artist[0]", FullArtist(track.artist), esc)
                 + FieldIfAny("mbid[0]", First(track.mbTrackId), esc)
                 + [("method", "track.scrobble")]
                 + [("sk", auth.sessionKey)]
                 + [("timestamp[0]", time)]
                 + [("track[0]", esc(track.title))]
                 + [("api_sig", SentDigest(SigBaseOf(params), auth.secret))]
  {
    hide ScrobbleParams, FullArtist, First, DecimalOf, IfAny, Sent, SignedBody, SentDigest, SigBaseOf, Fields, Separable,
         FieldIfAny;
    OneTrack(track, auth.apiKey, auth.sessionKey);
    var album, key := Param("album[0]", track.album, true, TEXT_SPACE), Param("api_key", auth.apiKey, true, NO_BUFFER);
    var artist := IfAny("artist[0]", FullArtist(track.artist), ARTIST_SPACE);
    var mbid := IfAny("mbid[0]", First(track.mbTrackId), MBID_SPACE);
    var method_ := Param("method", "track.scrobble", false, NO_BUFFER);
    var session := Param("sk", auth.sessionKey, false, NO_BUFFER);
    var time := Param("timestamp[0]", DecimalOf(track.startTime), false, TIME_SPACE);
    var title := Param("track[0]", track.title, true, TEXT_SPACE);
    TimeRoundTrip(track.startTime);
    SentOne(album, esc);
    SentOne(key, esc);
    SentIfAny("artist[0]", FullArtist(track.artist), ARTIST_SPACE, esc);
    SentIfAny("mbid[0]", First(track.mbTrackId), MBID_SPACE, esc);
    SentOne(method_, esc);
    SentOne(session, esc);
    SentOne(time, esc);
    SentOne(title, esc);
    SentAppend([album], [key], esc);
    SentAppend([album] + [key], artist, esc);
    SentAppend([album] + [key] + artist, mbid, esc);
    SentAppend([album] + [key] + artist + mbid, [method_], esc);
    SentAppend([album] + [key] + artist + mbid + [method_], [session], esc);
    SentAppend([album] + [key] + artist + mbid + [method_] + [session], [time], esc);
    SentAppend([album] + [key] + artist + mbid + [method_] + [session] + [time], [title], esc);
    BodyReadBack(ScrobbleParams([track], auth.apiKey, auth.sessionKey), auth.secret, esc);
  }

  /** A now-playing request, field by field. */
  lemma NowPlayingFields(track: Scrobble, auth: ApiCredentials, esc: string -> string)
    requires Separable(NowPlayingParams(track, auth.apiKey, auth.sessionKey), esc)
    ensures var params := NowPlayingParams(track, auth.apiKey, auth.sessionKey);
            Fields(SignedBody(params, auth.secret, esc)) ==
                 [("album", esc(track.album))]
                 + [("api_key", esc(auth.apiKey))]
                 + FieldIfAny("artist", FullArtist(track.artist), esc)
                 + FieldIfAny("mbid", First(track.mbTrackId), esc)
                 + [("method", "track.updateNowPlaying")]
                 + [("sk", auth.sessionKey)]
                 + [("track", esc(track.title))]
                 + [("api_sig", SentDigest(SigBaseOf(params), auth.secret))]
  {
    hide FullArtist, First, IfAny, Sent, SignedBody, SentDigest, SigBaseOf, Fields, Separable, FieldIfAny;
    var album, key := Param("album", track.album, true, NO_BUFFER), Param("api_key", auth.apiKey, true, NO_BUFFER);
    var artist := IfAny("artist", FullArtist(track.artist), NO_BUFFER);
    var mbid := IfAny("mbid", First(track.mbTrackId), NO_BUFFER);
    var method_ := Param("method", "track.updateNowPlaying", false, NO_BUFFER);
    var session := Param("sk", auth.sessionKey, false, NO_BUFFER);
    var title := Param("track", track.title, true, NO_BUFFER);
    SentOne(album, esc);
    SentOne(key, esc);
    SentIfAny("artist", FullArtist(track.artist), NO_BUFFER, esc);
    SentIfAny("mbid", First(track.mbTrackId), NO_BUFFER, esc);
    SentOne(method_, esc);
    SentOne(session, esc);
    SentOne(title, esc);
    SentAppend([album], [key], esc);
    SentAppend([album] + [key], artist, esc);
    SentAppend([album] + [key] + artist, mbid, esc);
    SentAppend([album] + [key] + artist + mbid, [method_], esc);
    SentAppend([album] + [key] + artist + mbid + [method_], [session], esc);
    SentAppend([album] + [key] + artist + mbid + [method_] + [session], [title], esc);
    BodyReadBack(NowPlayingParams(track, auth.apiKey, auth.sessionKey), auth.secret, esc);
  }

  lemma {:induction false} SigBaseAppend(a: seq<Param>, b: seq<Param>)
    ensures SigBaseOf(a + b) == SigBaseOf(a) + SigBaseOf(b)
  {
    if b == [] {
      assert a + b == a;
    } else {
      assert (a + b)[..|a + b| - 1] == a + b[..|b| - 1];
      SigBaseAppend(a, b[..|b| - 1]);
    }
  }

  lemma SigBaseOne(p: Param)
    ensures SigBaseOf([p]) == p.name + p.value
  {
    assert [p][..0] == [];
  }

  function TextIfAny(name: string, value: string): string {
    if value == "" then "" else name + value
  }

  lemma SigBaseIfAny(name: string, value: string, space: Space)
    ensures SigBaseOf(IfAny(name, value, space)) == TextIfAny(name, value)
  {
    if value != "" {
      SigBaseOne(Param(name, value, true, space));
    }
  }

  /** What is signed for one track, before the secret: the names and the texts as they are. */
  lemma OneTrackSigned(track: Scrobble, apiKey: string, sk: string)
    ensures SigBaseOf(ScrobbleParams([track], apiKey, sk)) ==
              ("album[0]" + track.album) + ("api_key" + apiKey)
              + TextIfAny("artist[0]", FullArtist(track.artist)) + TextIfAny("mbid[0]", First(track.mbTrackId))
              + ("method" + "track.scrobble") + ("sk" + sk)
              + ("timestamp[0]" + DecimalOf(track.startTime)) + ("track[0]" + track.title)
  {
    hide ScrobbleParams, FullArtist, First, DecimalOf, IfAny, SigBaseOf, TextIfAny;
    OneTrack(track, apiKey, sk);
    var album, key := Param("album[0]", track.album, true, TEXT_SPACE), Param("api_key", apiKey, true, NO_BUFFER);
    var artist := IfAny("artist[0]", FullArtist(track.artist), ARTIST_SPACE);
    var mbid := IfAny("mbid[0]", First(track.mbTrackId), MBID_SPACE);
    var method_, session := Param("method", "track.scrobble", false, NO_BUFFER), Param("sk", sk, false, NO_BUFFER);
    var time := Param("timestamp[0]", DecimalOf(track.startTime), false, TIME_SPACE);
    var title := Param("track[0]", track.title, true, TEXT_SPACE);
    SigBaseOne(album);
    SigBaseOne(key);
    SigBaseIfAny("artist[0]", FullArtist(track.artist), ARTIST_SPACE);
    SigBaseIfAny("mbid[0]", First(track.mbTrackId), MBID_SPACE);
    SigBaseOne(method_);
    SigBaseOne(session);
    SigBaseOne(time);
    SigBaseOne(title);
    SigBaseAppend([album], [key]);
    SigBaseAppend([album] + [key], artist);
    SigBaseAppend([album] + [key] + artist, mbid);
    SigBaseAppend([album] + [key] + artist + mbid, [method_]);
    SigBaseAppend([album] + [key] + artist + mbid + [method_], [session]);
    SigBaseAppend([album] + [key] + artist + mbid + [method_] + [session], [time]);
    SigBaseAppend([album] + [key] + artist + mbid + [method_] + [session] + [time], [title]);
  }

  /** Joined artists: those that are set, with a comma and a space between them. */
  lemma ArtistsJoined(front: seq<string>, last: string)
    ensures FullArtist([]) == "" && FullArtist([last]) == last
    ensures last == "" ==> FullArtist(front + [last]) == FullArtist(front)
    ensures last != "" && FullArtist(front) != "" ==> FullArtist(front + [last]) == FullArtist(front) + ", " + last
  {
    ArtistAdded([], last);
    ArtistAdded(front, last);
    assert [] + [last] == [last];
  }

  lemma ArtistAdded(front: seq<string>, last: string)
    ensures FullArtist([]) == ""
    ensures FullArtist(front + [last]) ==
              if last == "" then FullArtist(front)
              else if FullArtist(front) == "" then last
              else FullArtist(front) + ", " + last
  {
    assert (front + [last])[..|front|] == front;
  }

  lemma RunOn(front: string, name: string, value: string, sig: string, digest: string)
    requires sig == "api_sig=" + digest
    ensures (front + (name + "=" + value)) + sig == front + (name + "=" + value + sig)
    ensures name + "=" + (value + sig) == name + "=" + value + sig
    ensures value + sig == value + "api_sig=" + digest
  {
  }

  lemma CutPair(p: Param, esc: string -> string)
    requires |p.name| < p.space.body < |Pair(p, esc)|
    ensures Cut(Pair(p, esc), p.space.body) == p.name + "=" + Encoded(p, esc)[..p.space.body - |p.name| - 1]
  {
    assert Pair(p, esc) == (p.name + "=") + (Encoded(p, esc) + "&");
  }

  /** If the last piece, which is the title of the first track, is cut, then its separator is lost:
      the server finds a title that runs on into the signature, and no signature. */
  lemma CutSwallowsSignature(front: seq<Param>, last: Param, secret: string, esc: string -> string)
    requires Separable(front, esc) && Separate(last, esc)
    requires PiecesFit(front, esc) && |last.name| < last.space.body && !BodyPieceFits(last, esc)
    ensures var sigBase := CutSigOf(front + [last]);
            var value := Encoded(last, esc)[..last.space.body - |last.name| - 1];
            Fields(BuiltBody(front + [last], secret, esc))
            == Sent(front, esc) + [(last.name, value + "api_sig=" + SentDigest(sigBase, secret))]
  {
    hide Fields, Separable, BodyOf, PiecesFit, SentDigest, Digest, Hex, Cut, Encoded;
    var params := front + [last];
    assert params[..|params| - 1] == front;
    var sigBase := CutSigOf(params);
    hide CutSigOf;
    var value := Encoded(last, esc)[..last.space.body - |last.name| - 1];
    var sig := Signed(sigBase, secret);
    CutBodyExact(front, esc);
    CutPair(last, esc);
    assert CutBodyOf(params, esc) == BodyOf(front, esc) + (last.name + "=" + value);
    FieldsOfBody(front, esc, last.name + "=" + value + sig);
    SignatureIsClear(sigBase, secret);
    LastField(last.name, value + sig);
    RunOn(BodyOf(front, esc), last.name, value, sig, SentDigest(sigBase, secret));
  }

  lemma {:induction false} LastTitle(tracks: seq<Scrobble>)
    requires tracks != []
    ensures var d := Downward(tracks, TitleOf); d != [] && [d[|d| - 1]] == TitleOf(tracks[0], 0)
  {
    if |tracks| > 1 {
      LastTitle(tracks[..|tracks| - 1]);
    }
  }

  lemma TrackZero()
    ensures Indexed("track", 0) == "track[0]"
  {
    assert Decimal(0) == "0";
    assert "track" + "[" + "0" + "]" == "track[0]";
  }

  /** A title that is encoded in more than 373 characters is sent without its separator, and takes
      the signature with it. */
  lemma LongTitleRunsOn(tracks: seq<Scrobble>, auth: ApiCredentials, esc: string -> string)
    requires tracks != [] && |esc(tracks[0].title)| > 373
    requires var params := ScrobbleParams(tracks, auth.apiKey, auth.sessionKey);
             params != [] && PiecesFit(params[..|params| - 1], esc) && Separable(params, esc)
    ensures var params := ScrobbleParams(tracks, auth.apiKey, auth.sessionKey);
            var digest := SentDigest(CutSigOf(params), auth.secret);
            params != []
            && Fields(BuiltBody(params, auth.secret, esc))
               == Sent(params[..|params| - 1], esc)
                  + [("track[0]", esc(tracks[0].title)[..374] + "api_sig=" + digest)]
  {
    hide BuiltBody, PiecesFit, Fields, SentDigest, CutSigOf, Sent, Upward, Downward, Indexed, Separate;
    var params := ScrobbleParams(tracks, auth.apiKey, auth.sessionKey);
    var front, last := params[..|params| - 1], params[|params| - 1];
    LastTitle(tracks);
    TrackZero();
    assert [last] == TitleOf(tracks[0], 0);
    assert params == front + [last] && last in params;
    assert |Pair(last, esc)| == 10 + |esc(tracks[0].title)|;
    CutSwallowsSignature(front, last, auth.secret, esc);
  }

  /** For instance, a track with nothing but a title of 374 letters, which are encoded as they are. */
  lemma LongTitleExample(n: nat)
    ensures var t := ZERO_SCROBBLE.(title := seq(n, _ => 'a'));
            TrackFits(t, 0, s => s) <==> n <= 373
  {
    assert Decimal(0) == "0";
  }

  // ----- the buffers of the signed string -----

  lemma SigPieceOf(name: string, i: nat, value: string)
    ensures |Indexed(name, i) + value| == |name| + |Decimal(i)| + |value| + 2
  {
  }

  /** The signed pieces of track `i` fit exactly up to these lengths. */
  lemma TrackSigFits(t: Scrobble, i: nat)
    ensures var digits, artist, mbid := |Decimal(i)|, FullArtist(t.artist), First(t.mbTrackId);
            && (SigPiecesFit(AlbumOf(t, i)) <==> |t.album| + digits <= 394)
            && (SigPiecesFit(TitleOf(t, i)) <==> |t.title| + digits <= 394)
            && (SigPiecesFit(ArtistOf(t, i)) <==> artist == "" || |artist| + digits <= 3072)
            && (SigPiecesFit(MbidOf(t, i)) <==> mbid == "" || |mbid| + digits <= 394)
            && (SigPiecesFit(TimestampOf(t, i)) <==> |DecimalOf(t.startTime)| + digits <= 372)
  {
    hide SigPiecesFit, Indexed, Decimal, DecimalOf, FullArtist, First;
    var artist, mbid := FullArtist(t.artist), First(t.mbTrackId);
    SigPieceOf("album", i, t.album);
    SigPieceOf("track", i, t.title);
    SigPieceOf("artist", i, artist);
    SigPieceOf("mbid", i, mbid);
    SigPieceOf("timestamp", i, DecimalOf(t.startTime));
    OneSigPiece(Param(Indexed("album", i), t.album, true, TEXT_SPACE));
    OneSigPiece(Param(Indexed("track", i), t.title, true, TEXT_SPACE));
    OneSigPiece(Param(Indexed("artist", i), artist, true, ARTIST_SPACE));
    OneSigPiece(Param(Indexed("mbid", i), mbid, true, MBID_SPACE));
    OneSigPiece(Param(Indexed("timestamp", i), DecimalOf(t.startTime), false, TIME_SPACE));
    NoSigPiece();
  }

  lemma NoSigPiece()
    ensures SigPiecesFit([])
  {
  }
}
