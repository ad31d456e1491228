/**
  From the signal that starts a track to the request that reports it, in the units of the messages.
 */
module Submission {
  import opened Wrappers
  import opened Properties
  import opened Credentials
  import opened Scrobbles
  import opened Queue
  import opened Playback
  import opened PlaybackRuns
  import opened Signature
  import opened SignatureBody
  import opened SignatureOrder

  // ----- when the queue timer is due -----

  /** A signal that starts a track of `n` microseconds, as merged into the player. */
  ghost predicate Starts(p: PlayerState, msg: Message, now: int, n: nat) {
    var q := Merged(p, msg, now);
    && IsValid(p.id) && !p.id.ignored && msg.loaded != {} && now > 0
    && ChangedTrack(q.changed) && IsPlaying(q.props)
    && At(q.props, Length) == Number(n) && 100000 < n < 0x1_0000_0000_0000_0000
  }

  /** Without a position the queue timer is due half of the whole seconds after the start, and at most
      240 seconds after it, and one second more. */
  lemma StartInMicroseconds(p: PlayerState, msg: Message, now: int, n: nat)
    requires Starts(p, msg, now, n) && Position !in Merged(p, msg, now).changed
    ensures var r := Deliver(p, msg, now);
            && r.queue.scrobble.startTime == now
            && r.queue.scrobble.length == n as real / 1000000.0
            && r.queue.timer == Timer(true, Some(now + Min(480, n / 1000000) / 2 + 1))
  {
    hide Merged, Handle, Happened, ChangedTrack, IsPlaying, IsValid, LengthOf, QueueDelay;
    var q := Merged(p, msg, now);
    MergedKeeps(p, msg, now);
    TrackHappens(q.changed);
    StartHandled(q, now);
    LengthInMicroseconds(q.props, n);
    DelayInMicroseconds(q.props, n);
  }

  /** At a position of `m` microseconds it is due by so much earlier, one second earlier still when the
      part of a second in the position exceeds that of the target, and at once beyond the target. */
  lemma StartAtMicroseconds(p: PlayerState, msg: Message, now: int, n: nat, m: nat)
    requires Starts(p, msg, now, n) && Position in Merged(p, msg, now).changed
    requires At(Merged(p, msg, now).props, Position) == Number(m) && m > 0
    ensures var r, h := Deliver(p, msg, now), Min(480, n / 1000000);
            && r.queue.scrobble.startTime == now - m / 1000000
            && r.queue.scrobble.playTime == m as real / 1000000.0
            && r.queue.timer == Timer(true, Some(
                 if m > (h + 2) * 500000 then now
                 else now - m / 1000000 + h / 2 + 1 - if m % 1000000 > (h % 2) * 500000 then 1 else 0))
  {
    hide Merged, Handle, Happened, ChangedTrack, IsPlaying, IsValid, LengthOf, PositionOf, Target, Fraction, Bound;
    var q := Merged(p, msg, now);
    var h := Min(480, n / 1000000);
    LengthInMicroseconds(q.props, n);
    PositionInMicroseconds(q.props, m);
    MicrosecondsFloor(m);
    StartWithPosition(p, msg, now);
    HalvesAndParts(LengthOf(q.props), h, m);
  }

  lemma HalvesAndParts(length: real, h: nat, m: nat)
    requires Target(length) == h as real / 2.0
    ensures Bound(length) == h / 2 + 1
    ensures m as real / 1000000.0 > Target(length) + 1.0 <==> m > (h + 2) * 500000
    ensures Fraction(m as real / 1000000.0) > Fraction(Target(length)) <==> m % 1000000 > (h % 2) * 500000
  {
    HalfFloor(h);
    MicrosecondsFloor(m);
    hide Target;
    assert h as real == 2.0 * (h / 2) as real + (h % 2) as real;
    assert m as real == 1000000.0 * (m / 1000000) as real + (m % 1000000) as real;
  }

  // ----- and what is then reported -----

  /** A track that starts without a position, with a title, an album and an artist, and that lasts half a
      minute: when its queue timer fires, however late, every service accepts it, and the body of a
      request for it says which track it is and when it started. */
  lemma TrackIsReported(p: PlayerState, msg: Message, now: int, n: nat, fired: int, later: int,
                        title: string, album: string, artists: seq<string>, auth: ApiCredentials,
                        esc: string -> string)
    requires Starts(p, msg, now, n) && n >= 30000000 && Position !in Merged(p, msg, now).changed
    requires fired >= now + Min(480, n / 1000000) / 2 + 1
    requires var props := Merged(p, msg, now).props;
             At(props, Title) == Text(title) && At(props, Album) == Text(album) && At(props, Artist) == Texts(artists)
    requires title != "" && album != "" && artists != [] && artists[0] != ""
    ensures var track := Queued(Deliver(p, msg, now).queue.scrobble, fired);
            var params := ScrobbleParams([track], auth.apiKey, auth.sessionKey);
            && Due(Deliver(p, msg, now).queue.timer, fired)
            && (forall e: ApiType :: IsAccepted(ScrobbleRequest, track, e, later))
            && SignedValue(DecimalOf(now)) == now
            && (Separable(params, esc) ==>
                  Fields(SignedBody(params, auth.secret, esc)) ==
                    [("album[0]", esc(album))]
                    + [("api_key", esc(auth.apiKey))]
                    + [("artist[0]", esc(artists[0]))]
                    + FieldIfAny("mbid[0]", First(track.mbTrackId), esc)
                    + [("method", "track.scrobble")]
                    + [("sk", auth.sessionKey)]
                    + [("timestamp[0]", DecimalOf(now))]
                    + [("track[0]", esc(title))]
                    + [("api_sig", SentDigest(SigBaseOf(params), auth.secret))])
  {
    hide Deliver, Merged, Starts, ScrobbleParams, SignedBody, Fields, Separable, DecimalOf, SigBaseOf, SentDigest,
         FieldIfAny, IsAccepted, FullArtist, SignedValue;
    var track := Queued(Deliver(p, msg, now).queue.scrobble, fired);
    StartInMicroseconds(p, msg, now, n);
    StartTexts(p, msg, now, n, title, album, artists);
    LongEnoughInMicroseconds(track, n);
    forall e: ApiType
      ensures IsAccepted(ScrobbleRequest, track, e, later)
    {
      ScrobbleAcceptedExactly(track, e, later);
    }
    TimeRoundTrip(now);
    ArtistsJoined([], artists[0]);
    if Separable(ScrobbleParams([track], auth.apiKey, auth.sessionKey), esc) {
      OneTrackFields(track, auth, esc);
      SetArtist(artists[0], esc);
    }
  }

  lemma SetArtist(artist: string, esc: string -> string)
    requires artist != ""
    ensures FieldIfAny("artist[0]", artist, esc) == [("artist[0]", esc(artist))]
  {
  }

  /** The texts of the payload are those of the merged properties. */
  lemma StartTexts(p: PlayerState, msg: Message, now: int, n: nat, title: string, album: string, artists: seq<string>)
    requires Starts(p, msg, now, n)
    requires var props := Merged(p, msg, now).props;
             At(props, Title) == Text(title) && At(props, Album) == Text(album) && At(props, Artist) == Texts(artists)
    ensures var s := Deliver(p, msg, now).queue.scrobble;
            && s.title == title && s.album == album
            && s.artist == if artists == [] then [] else [artists[0]]
  {
    hide Merged, Happened, ChangedTrack, IsPlaying, IsValid, LoadScrobble, QueueDelay;
    var q := Merged(p, msg, now);
    MergedKeeps(p, msg, now);
    TrackHappens(q.changed);
    LoadedFields(q.props, q.changed, q.timestamp, now, q.id.name);
  }

  lemma LongEnoughInMicroseconds(track: Scrobble, n: nat)
    requires track.length == n as real / 1000000.0 && n >= 30000000
    requires track.playTime == track.playTime.Floor as real && track.playTime.Floor >= Min(480, n / 1000000) / 2 + 1
    ensures track.length >= 30.0 && forall now :: Enough(track, now)
  {
    MicrosecondsFloor(n);
    var h := Min(480, n / 1000000);
    assert Target(track.length) == h as real / 2.0;
    HalfFloor(h);
    assert track.playTime >= (h / 2 + 1) as real;
  }
}
