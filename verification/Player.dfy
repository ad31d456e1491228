/**
  The program behind `Playback`: a player whose properties, mask and two payloads are updated in
  place, and the handlers that do it.
 */
module Player {
  import opened Wrappers
  import opened Properties
  import opened Scrobbles
  import opened Queue
  import opened Playback

  /** A scrobble with the libevent event that will use it. */
  class EventPayload {
    var scrobble: Scrobble
    var timer: Timer

    ghost function Value(): Payload
      reads this
    {
      Payload(scrobble, timer)
    }

    constructor ()
      ensures Value() == Payload(ZERO_SCROBBLE, NO_TIMER)
    {
      scrobble, timer := ZERO_SCROBBLE, NO_TIMER;
    }

    /** `event_del` */
    method EventDel()
      modifies this`timer
      ensures timer == old(timer).(deadline := None)
    {
      timer := timer.(deadline := None);
    }

    /** `event_assign`, which must not be used on a pending event. */
    method EventAssign()
      requires !Pending(timer)
      modifies this`timer
      ensures timer == Timer(true, None)
    {
      timer := Timer(true, None);
    }

    /** `event_add` */
    method EventAdd(delay: nat, now: int)
      requires timer == Timer(true, None)
      modifies this`timer
      ensures timer == Timer(true, Some(now + delay))
    {
      timer := timer.(deadline := Some(now + delay));
    }

    /** `memset` of the event, which must not be pending. */
    method EventClear()
      requires !Pending(timer)
      modifies this`timer
      ensures timer == NO_TIMER
    {
      timer := NO_TIMER;
    }
  }

  class MprisPlayer {
    const id: Identity
    var props: Properties
    var changed: Mask
    var timestamp: int
    const nowPlaying: EventPayload
    const queue: EventPayload

    /** An event is pending only if its struct is initialised; so it is always removed before it
        is assigned or cleared. */
    ghost predicate Valid()
      reads this, nowPlaying, queue
    {
      && nowPlaying != queue
      && (Pending(nowPlaying.timer) ==> nowPlaying.timer.initialised)
      && (Pending(queue.timer) ==> queue.timer.initialised)
    }

    ghost function State(): PlayerState
      reads this, nowPlaying, queue
    {
      PlayerState(id, props, changed, timestamp, nowPlaying.Value(), queue.Value())
    }

    constructor (id: Identity, props: Properties, changed: Mask)
      ensures Valid() && fresh(nowPlaying) && fresh(queue)
      ensures State() == PlayerState(id, props, changed, 0, Payload(ZERO_SCROBBLE, NO_TIMER), Payload(ZERO_SCROBBLE, NO_TIMER))
    {
      this.id, this.props, this.changed, timestamp := id, props, changed, 0;
      nowPlaying := new EventPayload();
      queue := new EventPayload();
    }

    /** `load_properties_if_changed`: one `_copy_if_changed` after another. */
    method LoadPropertiesIfChanged(newp: Properties, loaded: Mask) returns (mask: Mask)
      modifies this`props
      ensures Merge(props, mask) == MergeInto(old(props), newp, loaded)
    {
      mask := loaded;
      var k := 0;
      while k < |MERGE_ORDER|
        invariant 0 <= k <= |MERGE_ORDER|
        invariant Merge(props, mask) == CopyAll(MERGE_ORDER[..k], Merge(old(props), loaded), newp)
      {
        var f := MERGE_ORDER[k];
        ghost var upTo := MERGE_ORDER[..k + 1];
        assert upTo[..|upTo| - 1] == MERGE_ORDER[..k] && upTo[|upTo| - 1] == f;
        if f in mask {
          if At(props, f) != At(newp, f) {
            props := With(props, f, At(newp, f));
          } else {
            mask := mask - {f};
          }
        }
        k := k + 1;
      }
      assert MERGE_ORDER[..k] == MERGE_ORDER;
    }

    /** `add_event_now_playing` */
    method AddEventNowPlaying(track: Scrobble, delay: nat, now: int) returns (added: bool)
      requires Valid() && IsValid(id)
      modifies nowPlaying
      ensures Valid() && State() == AddNowPlaying(old(State()), track, delay, now)
      ensures added == !id.ignored
    {
      if id.ignored { return false; }
      nowPlaying.scrobble := track;
      if nowPlaying.timer.initialised { nowPlaying.EventDel(); }
      nowPlaying.EventAssign();
      nowPlaying.EventAdd(delay, now);
      nowPlaying.scrobble := nowPlaying.scrobble.(position := nowPlaying.scrobble.position + delay as real);
      nowPlaying.scrobble := nowPlaying.scrobble.(playTime := nowPlaying.scrobble.playTime + delay as real);
      return true;
    }

    /** `add_event_queue` */
    method AddEventQueue(track: Scrobble, now: int) returns (added: bool)
      requires Valid() && IsValid(id)
      modifies queue
      ensures Valid() && State() == AddQueue(old(State()), track, now)
      ensures added == !id.ignored
    {
      if id.ignored { return false; }
      queue.scrobble := track;
      if queue.timer.initialised { queue.EventDel(); }
      queue.EventAssign();
      queue.EventAdd(QueueDelay(track.length, track.playTime), now);
      return true;
    }

    /** `mpris_event_clear`, as far as the mask and the time go. */
    method EventClear()
      modifies this`changed, this`timestamp
      ensures changed == {} && timestamp == 0
    {
      changed := {};
      timestamp := 0;
    }

    /** `load_scrobble`, into a zeroed scrobble. */
    method LoadScrobble(mask: Mask, at: int, now: int) returns (d: Scrobble)
      ensures d == Scrobbles.LoadScrobble(props, mask, at, now, id.name)
    {
      hide TextOf, TextsOf, NumberOf, WithTimes;
      d := ZERO_SCROBBLE;
      var artists := TextsOf(props, Artist);
      d := d.(title := TextOf(props, Title), album := TextOf(props, Album),
              artist := artists[..if artists == [] then 0 else 1],
              url := TextOf(props, Url), playerName := id.name);
      d := d.(length := 0.0, position := 0.0);
      if NumberOf(props, Length) % TWO_64 > 0 {
        d := d.(length := (NumberOf(props, Length) % TWO_64) as real / MICROSECONDS);
      }
      assert d.length == LengthOf(props);
      d := d.(scrobbled := false, trackNumber := NumberOf(props, TrackNumber) % 0x1_0000);
      ghost var before := d;
      d := LoadTimes(d, mask, at, now);
      d := d.(mbTrackId := TextsOf(props, MbTrackId), mbAlbumId := TextsOf(props, MbAlbumId),
              mbArtistId := TextsOf(props, MbArtistId), mbAlbumArtistId := TextsOf(props, MbAlbumArtistId));
      var trackId := TextOf(props, TrackId);
      if SPOTIFY_PREFIX <= trackId {
        d := d.(spotifyId := trackId[|SPOTIFY_PREFIX|..]);
      }
      TimesComeLast(before, d, mask, at, now);
    }

    /** The part of `load_scrobble` for a new track of a playing player. */
    method LoadTimes(d0: Scrobble, mask: Mask, at: int, now: int) returns (d: Scrobble)
      requires d0.position == 0.0
      ensures d == WithTimes(d0, props, mask, at, now)
      ensures d == d0.(position := d.position, playTime := d.playTime, startTime := d.startTime)
    {
      hide ChangedTrack, IsPlaying, NumberOf;
      d := d0;
      if ChangedTrack(mask) && IsPlaying(props) {
        if Position in mask {
          d := d.(position := NumberOf(props, Position) as real / MICROSECONDS);
        }
        if d.position > 0.0 {
          d := d.(playTime := d.position);
        }
        if d.playTime > 0.0 {
          d := d.(startTime := now - d.playTime.Floor);
        } else if at > 0 {
          d := d.(startTime := at);
        }
      }
    }

    /** Filling in other fields after the times is filling them in before. */
    lemma TimesComeLast(before: Scrobble, d: Scrobble, mask: Mask, at: int, now: int)
      requires var t := WithTimes(before, props, mask, at, now);
               d == before.(position := t.position, playTime := t.playTime, startTime := t.startTime,
                            mbTrackId := d.mbTrackId, mbAlbumId := d.mbAlbumId, mbArtistId := d.mbArtistId,
                            mbAlbumArtistId := d.mbAlbumArtistId, spotifyId := d.spotifyId)
      ensures d == WithTimes(before.(mbTrackId := d.mbTrackId, mbAlbumId := d.mbAlbumId, mbArtistId := d.mbArtistId,
                                     mbAlbumArtistId := d.mbAlbumArtistId, spotifyId := d.spotifyId),
                             props, mask, at, now)
    {
      hide ChangedTrack, IsPlaying, PositionOf;
    }

    /** `state_loaded_properties` for this player's own properties and mask. */
    method StateLoadedProperties(now: int)
      requires Valid() && IsValid(id)
      modifies this, nowPlaying, queue
      ensures Valid() && State() == Handle(old(State()), now)
    {
      hide Scrobbles.LoadScrobble, ChangedTrack, Happened, IsPlaying, QueueDelay;
      if id.ignored { return; }
      if !Happened(changed) { return; }
      var scrobble := LoadScrobble(changed, timestamp, now);
      if IsPlaying(props) {
        ArmIfChanged(scrobble, now);
        if ChangedTrack(changed) && Position !in changed {
          props := With(props, Position, Number(0));
        }
      } else {
        RemoveTimers(now);
      }
      EventClear();
    }

    /** The arming part of the playing branch. */
    method ArmIfChanged(loaded: Scrobble, now: int)
      requires Valid() && IsValid(id)
      modifies nowPlaying, queue
      ensures Valid()
      ensures State() == if ChangedTrack(changed) || PlaybackStatus in changed
                         then Arm(old(State()), Resumed(loaded, old(queue.scrobble), changed, now), now)
                         else old(State())
    {
      hide ChangedTrack, QueueDelay;
      var scrobble := loaded;
      if ChangedTrack(changed) || PlaybackStatus in changed {
        if !ChangedTrack(changed) {
          var prev := queue.scrobble;
          if scrobble.playTime < 0.1 && prev.playTime > 0.0 {
            scrobble := scrobble.(playTime := prev.playTime);
            scrobble := scrobble.(startTime := now - scrobble.playTime.Floor);
          }
        }
        var _ := AddEventNowPlaying(scrobble, 0, now);
        var _ := AddEventQueue(scrobble, now);
      }
    }

    /** The branch for a player that is not playing. */
    method RemoveTimers(now: int)
      requires Valid()
      modifies nowPlaying, queue
      ensures Valid() && State() == HandleStopped(old(State()), now)
    {
      if nowPlaying.timer.initialised {
        nowPlaying.EventDel();
        nowPlaying.EventClear();
      }
      if queue.timer.initialised {
        if queue.scrobble.startTime > 0 {
          queue.scrobble := queue.scrobble.(playTime := (now - queue.scrobble.startTime) as real);
        }
        queue.EventDel();
        queue.EventClear();
      }
    }

    /** The known-player branch of `add_filter`. */
    method DeliverSignal(msg: Message, now: int)
      requires Valid()
      modifies this, nowPlaying, queue
      ensures Valid() && State() == Deliver(old(State()), msg, now)
    {
      hide MergeInto, Handle;
      if msg.loaded == {} || id.ignored { return; }
      var mask := LoadPropertiesIfChanged(msg.props, msg.loaded);
      changed := changed + mask;
      timestamp := now;
      if IsValid(id) {
        StateLoadedProperties(now);
      }
    }

    /** `check_player` */
    method CheckPlayer(now: int)
      requires Valid()
      modifies nowPlaying, queue
      ensures Valid() && State() == Check(old(State()), now)
    {
      hide Scrobbles.LoadScrobble, IsPlaying, QueueDelay;
      if !IsValid(id) || !IsPlaying(props) || id.ignored { return; }
      var scrobble := LoadScrobble(AllFields(), 0, now);
      var _ := AddEventNowPlaying(scrobble, 0, now);
      var _ := AddEventQueue(scrobble, now);
    }

    /** `send_now_playing`, called back when the timer is due. */
    method SendNowPlaying(scrobbler: Scrobbler, now: int)
      requires Valid() && Due(nowPlaying.timer, now)
      modifies nowPlaying, scrobbler`requests
      ensures Valid() && State() == FireNowPlaying(old(State()), now)
      ensures scrobbler.requests == old(scrobbler.requests) +
              Requests(NowPlayingRequest, NowPlayingAttempt(old(State())), scrobbler.credentials, now)
    {
      hide Requests, IsValid;
      nowPlaying.EventDel();  // by libevent, before it calls back
      var track := nowPlaying.scrobble;
      if track.position > track.length {
        nowPlaying.EventDel();
        NothingToRequest(NowPlayingRequest, scrobbler.credentials, now);
        return;
      }
      if !IsValid(id) {
        nowPlaying.EventDel();
        NothingToRequest(NowPlayingRequest, scrobbler.credentials, now);
        return;
      }
      var tracks := new Scrobble[1](_ => track);
      assert tracks[..1] == [track];
      scrobbler.ApiRequestDo(NowPlayingRequest, tracks, 1, now);
      if track.position + NOW_PLAYING_DELAY < track.length {
        var _ := AddEventNowPlaying(track, 65, now);
      }
    }

    /** `queue`, called back when the timer is due: the track enters the queue, and the queue is
        handed over at once. */
    method QueueTrack(scrobbler: Scrobbler, now: int)
      requires Valid() && Due(queue.timer, now)
      requires scrobbler.Valid() && scrobbler.length + 1 < MAX_QUEUE_LENGTH
      modifies queue, scrobbler, scrobbler.entries
      ensures Valid() && State() == FireQueue(old(State()))
      ensures id.hasScrobbler ==>
                && scrobbler.Valid() && scrobbler.Pending() == []
                && scrobbler.requests == old(scrobbler.requests) +
                   Requests(ScrobbleRequest, old(scrobbler.Pending()) + [Queued(old(queue.scrobble), now)],
                            old(scrobbler.credentials), now)
      ensures !id.hasScrobbler ==> scrobbler.requests == old(scrobbler.requests)
    {
      hide Requests;
      queue.EventDel();  // by libevent
      if !id.hasScrobbler { return; }
      scrobbler.Append(queue.scrobble, now);
      if scrobbler.length > 0 {
        var _ := scrobbler.ConsumeQueue(now);
      }
    }
  }
}
