/**
  Properties of whole runs of a player: where timers are pending, what the mask means, what a
  repeated message does, how play time is counted, how often now-playing is sent, and that the
  queue timer never fires too early.
 */
module PlaybackRuns {
  import opened Wrappers
  import opened Properties
  import opened Credentials
  import opened Scrobbles
  import opened Queue
  import opened Playback

  // ----- merging a message -----

  lemma MergedField(p: PlayerState, msg: Message, now: int, f: Field)
    requires Matters(f)
    ensures var q := Merged(p, msg, now);
            && (f in q.changed <==> f in p.changed || At(q.props, f) != At(p.props, f))
            && At(q.props, f) == if f in msg.loaded then At(msg.props, f) else At(p.props, f)
  {
    MergeOfMattering(p.props, msg.props, msg.loaded, f);
    MergeExact(p.props, msg.props, msg.loaded, f);
    hide MergeInto;
  }

  lemma StatusMatters()
    ensures Matters(PlaybackStatus) && Matters(Position) && !IsTrackField(PlaybackStatus) && !IsTrackField(Position)
    ensures forall f: Field :: IsTrackField(f) ==> Matters(f)
    ensures forall f: Field :: Matters(f) ==> f == Position || f == PlaybackStatus || IsTrackField(f)
  {
  }

  lemma MergedKeeps(p: PlayerState, msg: Message, now: int)
    ensures var q := Merged(p, msg, now);
            q.id == p.id && q.nowPlaying == p.nowPlaying && q.queue == p.queue && q.timestamp == now
  {
  }

  lemma TitleMatters()
    ensures IsTrackField(Title) && IsTrackField(Length)
  {
  }

  /** A merge that changes the status is noticed. */
  lemma StatusChangeHappens(p: PlayerState, msg: Message, now: int)
    ensures var q := Merged(p, msg, now);
            IsPlaying(q.props) != IsPlaying(p.props) ==> PlaybackStatus in q.changed && Happened(q.changed)
  {
    hide Happened, Merged, Matters, IsTrackField;
    StatusMatters();
    MergedField(p, msg, now, PlaybackStatus);
    HappenedExact(Merged(p, msg, now).changed);
  }

  // ----- where timers are pending -----

  /** A pending timer belongs to a player that is not ignored and whose stored status is Playing;
      and it can be removed, because its struct is initialised. */
  predicate Hygienic(p: PlayerState) {
    && (Pending(p.nowPlaying.timer) ==> p.nowPlaying.timer.initialised)
    && (Pending(p.queue.timer) ==> p.queue.timer.initialised)
    && (Pending(p.nowPlaying.timer) || Pending(p.queue.timer) ==> IsPlaying(p.props) && !p.id.ignored)
  }

  lemma HandleIsHygienic(p: PlayerState, now: int)
    requires !p.id.ignored && Happened(p.changed)
    requires Pending(p.nowPlaying.timer) ==> p.nowPlaying.timer.initialised
    requires Pending(p.queue.timer) ==> p.queue.timer.initialised
    ensures Hygienic(Handle(p, now)) && Handle(p, now).id == p.id
    ensures IsPlaying(Handle(p, now).props) <==> IsPlaying(p.props)
  {
    hide LoadScrobble, Resumed, ChangedTrack, QueueDelay;
  }

  lemma DeliverIsHygienic(p: PlayerState, msg: Message, now: int)
    requires IsValid(p.id) && Hygienic(p)
    ensures Hygienic(Deliver(p, msg, now)) && Deliver(p, msg, now).id == p.id
  {
    if msg.loaded != {} && !p.id.ignored {
      StatusChangeHappens(p, msg, now);
      var q := Merged(p, msg, now);
      if Happened(q.changed) {
        HandleIsHygienic(q, now);
      }
    }
    hide MergeInto, HandlePlaying, HandleStopped, Happened;
  }

  lemma NextIsHygienic(p: PlayerState, s: Step)
    requires IsValid(p.id) && Hygienic(p) && Enabled(p, s)
    ensures Hygienic(Next(p, s)) && Next(p, s).id == p.id
  {
    hide LoadScrobble, QueueDelay, Deliver;
    if s.event.Signal? {
      DeliverIsHygienic(p, s.event.msg, s.at);
    }
  }

  /** In every state that a valid player reaches. */
  lemma {:induction false} RunIsHygienic(p: PlayerState, clock: int, steps: seq<Step>)
    requires IsValid(p.id) && Hygienic(p) && LegalRun(p, clock, steps)
    ensures Hygienic(Run(p, steps))
    decreases |steps|
  {
    if steps != [] {
      hide Next, Hygienic, Enabled;
      NextIsHygienic(p, steps[0]);
      RunIsHygienic(Next(p, steps[0]), steps[0].at, steps[1..]);
    }
  }

  // ----- what the pending mask means -----

  /** The fields that a merge changes. */
  function ChangedBy(p: PlayerState, msg: Message): Mask {
    set f: Field | At(MergeInto(p.props, msg.props, msg.loaded).props, f) != At(p.props, f)
  }

  /** The fields that merges changed since the mask was last cleared. */
  function Since(p: PlayerState, since: Mask, s: Step): Mask {
    if !s.event.Signal? || s.event.msg.loaded == {} || p.id.ignored then since
    else
      var q := Merged(p, s.event.msg, s.at);
      if IsValid(p.id) && Happened(q.changed) then {} else since + ChangedBy(p, s.event.msg)
  }

  function SinceAll(p: PlayerState, since: Mask, steps: seq<Step>): Mask
    decreases |steps|
  {
    if steps == [] then since else SinceAll(Next(p, steps[0]), Since(p, since, steps[0]), steps[1..])
  }

  ghost predicate MaskSound(p: PlayerState, since: Mask) {
    forall f: Field :: Matters(f) ==> (f in p.changed <==> f in since)
  }

  lemma NextIsSound(p: PlayerState, since: Mask, s: Step)
    requires MaskSound(p, since)
    ensures MaskSound(Next(p, s), Since(p, since, s))
  {
    hide LoadScrobble, QueueDelay, Happened, MergeInto, Matters, HandlePlaying, HandleStopped;
    if s.event.Signal? && s.event.msg.loaded != {} && !p.id.ignored {
      var q := Merged(p, s.event.msg, s.at);
      forall f: Field | Matters(f)
        ensures f in q.changed <==> f in since + ChangedBy(p, s.event.msg)
      {
        MergedField(p, s.event.msg, s.at, f);
      }
    }
  }

  /** Over any run from a cleared mask: a bit from the position on is set exactly when a merge since
      the last clear changed its field, and "something happened" says that there is such a field. */
  lemma {:induction false} RunIsSound(p: PlayerState, since: Mask, steps: seq<Step>)
    requires MaskSound(p, since)
    ensures MaskSound(Run(p, steps), SinceAll(p, since, steps))
    ensures Happened(Run(p, steps).changed) <==> exists f: Field :: Matters(f) && f in SinceAll(p, since, steps)
    decreases |steps|
  {
    if steps != [] {
      hide Next, Since, Happened, MaskSound;
      NextIsSound(p, since, steps[0]);
      RunIsSound(Next(p, steps[0]), Since(p, since, steps[0]), steps[1..]);
    } else {
      HappenedExact(p.changed);
      hide Happened, Matters;
    }
  }

  // ----- the same message again -----

  /** Handling a signal clears the mask, and of the properties it resets at most the position. */
  lemma HandledProps(q: PlayerState, now: int, f: Field)
    requires !q.id.ignored
    ensures var h := Handle(q, now);
            && h.id == q.id
            && (!Happened(q.changed) ==> h == q)
            && (Happened(q.changed) ==>
                  && h.changed == {} && IsPlaying(h.props) == IsPlaying(q.props)
                  && (At(h.props, f) == At(q.props, f)
                      || (f == Position && IsPlaying(q.props) && At(h.props, f) == Number(0))))
  {
    hide Happened, ChangedTrack, LoadScrobble, Resumed, QueueDelay;
  }


  /** After a message was handled, what the same message still finds different is at most the
      position, which may have been reset for a new track. */
  lemma RedeliveredFields(p: PlayerState, msg: Message, now1: int, now2: int, f: Field)
    requires Matters(f) && !Happened(p.changed) && !p.id.ignored && msg.loaded != {}
    ensures var p1 := Deliver(p, msg, now1);
            f in Merged(p1, msg, now2).changed ==>
              (IsValid(p.id) ==> f == Position && IsPlaying(p1.props) && At(p1.props, Position) == Number(0))
  {
    hide Happened, Merged, Matters, Handle, IsPlaying, IsValid;
    var p1 := Deliver(p, msg, now1);
    var q := Merged(p, msg, now1);
    MergedKeeps(p, msg, now1);
    HandledProps(q, now1, f);
    MergedField(p, msg, now1, f);
    MergedField(p1, msg, now2, f);
    HappenedExact(p.changed);
    HappenedExact(q.changed);
  }

  /** Delivering a message again, at any later time, leaves both timers and their payloads as the
      first delivery did: from a mask that has nothing pending, and although the stored position
      may have been reset in between. */
  lemma RedeliveryKeepsTimers(p: PlayerState, msg: Message, now1: int, now2: int)
    requires !Happened(p.changed)
    ensures var p1 := Deliver(p, msg, now1);
            var p2 := Deliver(p1, msg, now2);
            p2.nowPlaying == p1.nowPlaying && p2.queue == p1.queue
  {
    hide Merged, Handle, Happened, Matters, IsTrackField, IsPlaying, IsValid;
    var p1 := Deliver(p, msg, now1);
    MergedKeeps(p, msg, now1);
    MergedKeeps(p1, msg, now2);
    if msg.loaded != {} && !p.id.ignored && IsValid(p.id) {
      StatusMatters();
      var q := Merged(p1, msg, now2);
      HandledProps(Merged(p, msg, now1), now1, Position);
      forall f: Field | Matters(f) && f in q.changed
        ensures f == Position && IsPlaying(q.props)
      {
        RedeliveredFields(p, msg, now1, now2, f);
        StatusKept(p1, msg, now2);
        RedeliveredFields(p, msg, now1, now2, PlaybackStatus);
      }
      OnlyPosition(q, now2);
    }
  }

  lemma StatusKept(p: PlayerState, msg: Message, now: int)
    ensures var q := Merged(p, msg, now);
            PlaybackStatus !in q.changed ==> IsPlaying(q.props) == IsPlaying(p.props)
  {
    StatusMatters();
    MergedField(p, msg, now, PlaybackStatus);
    hide Merged, Matters;
  }

  /** A changed position alone touches no timer of a playing player. */
  lemma OnlyPosition(q: PlayerState, now: int)
    requires forall f: Field | Matters(f) && f in q.changed :: f == Position && IsPlaying(q.props)
    ensures Handle(q, now).nowPlaying == q.nowPlaying && Handle(q, now).queue == q.queue
  {
    StatusMatters();
    HappenedExact(q.changed);
    ChangedTrackExact(q.changed);
    hide Happened, ChangedTrack, Matters, LoadScrobble, HandleStopped;
  }

  // ----- the queue timer never fires too early -----

  /** When the pending queue timer is due, the whole seconds of the target have passed since the
      start time of its payload. */
  predicate ArmedLongEnough(q: Payload) {
    q.timer.deadline.Some? && q.scrobble.length >= MIN_TRACK_LENGTH ==>
      var played := q.timer.deadline.value - q.scrobble.startTime;
      played >= 1 && played >= Target(q.scrobble.length).Floor && 2.0 * played as real >= Target(q.scrobble.length)
  }

  lemma ArmIsLongEnough(p: PlayerState, s: Scrobble, now: int)
    requires ArmedLongEnough(p.queue)
    requires s.playTime >= 0.0 && s.startTime <= now - s.playTime.Floor
    ensures ArmedLongEnough(Arm(p, s, now).queue)
  {
    hide Target, QueueDelay;
    if s.length >= MIN_TRACK_LENGTH {
      TimerIsLongEnough(s.length, s.playTime, s.startTime, now, now + QueueDelay(s.length, s.playTime));
    }
  }

  lemma LoadedStart(p: PlayerState, mask: Mask, timestamp: int, now: int)
    requires 0 <= now && timestamp <= now
    ensures var s := LoadScrobble(p.props, mask, timestamp, now, p.id.name);
            s.playTime >= 0.0 && s.startTime <= now - s.playTime.Floor
  {
    LoadedTimes(p.props, mask, timestamp, now, p.id.name);
    hide LoadScrobble, ChangedTrack, IsPlaying;
  }

  lemma HandleIsLongEnough(p: PlayerState, now: int)
    requires ArmedLongEnough(p.queue) && 0 <= now && p.timestamp <= now
    ensures ArmedLongEnough(Handle(p, now).queue)
  {
    var s := LoadScrobble(p.props, p.changed, p.timestamp, now, p.id.name);
    LoadedStart(p, p.changed, p.timestamp, now);
    hide LoadScrobble, ChangedTrack, Happened, Arm, IsPlaying;
    var r := Resumed(s, p.queue.scrobble, p.changed, now);
    assert r.playTime >= 0.0 && r.startTime <= now - r.playTime.Floor;
    ArmIsLongEnough(p, r, now);
  }

  lemma NextIsLongEnough(p: PlayerState, s: Step)
    requires ArmedLongEnough(p.queue) && 0 <= s.at
    ensures ArmedLongEnough(Next(p, s).queue)
  {
    match s.event {
      case Signal(msg) =>
        HandleIsLongEnough(Merged(p, msg, s.at), s.at);
        hide MergeInto, Handle;
      case Reload =>
        var track := LoadScrobble(p.props, AllFields(), 0, s.at, p.id.name);
        LoadedStart(p, AllFields(), 0, s.at);
        ArmIsLongEnough(p, track, s.at);
        hide LoadScrobble, Arm;
      case _ =>
        hide LoadScrobble;
    }
  }

  lemma {:induction false} RunIsLongEnough(p: PlayerState, clock: int, steps: seq<Step>)
    requires ArmedLongEnough(p.queue) && 0 <= clock && LegalRun(p, clock, steps)
    ensures ArmedLongEnough(Run(p, steps).queue)
    decreases |steps|
  {
    if steps != [] {
      hide Next, ArmedLongEnough, Enabled;
      NextIsLongEnough(p, steps[0]);
      RunIsLongEnough(Next(p, steps[0]), steps[0].at, steps[1..]);
    }
  }

  /** Timer, queue and services agree: whatever happened before, a track of at least 30 seconds
      whose queue timer fires enters the queue with a play time that passes the time test of every
      service, then and later; with a title and an artist ListenBrainz accepts it, and with an
      album the others do. */
  lemma FiredTrackIsAccepted(p: PlayerState, clock: int, steps: seq<Step>, fired: int, later: int)
    requires ArmedLongEnough(p.queue) && 0 <= clock && LegalRun(p, clock, steps)
    requires Due(Run(p, steps).queue.timer, fired)
    requires Run(p, steps).queue.scrobble.length >= MIN_TRACK_LENGTH
    ensures var track := Queued(Run(p, steps).queue.scrobble, fired);
            && PlayedEnough(track, later)
            && (|track.title| > 0 && |First(track.artist)| > 0 ==>
                  IsAccepted(ScrobbleRequest, track, ApiListenbrainz, later))
            && (|track.title| > 0 && |First(track.artist)| > 0 && |track.album| > 0 ==>
                  forall e: ApiType :: IsAccepted(ScrobbleRequest, track, e, later))
  {
    RunIsLongEnough(p, clock, steps);
    PlayedEnoughExactly(Queued(Run(p, steps).queue.scrobble, fired), later);
    hide Run, Target, MinScrobbleDelay, LegalRun;
  }

  // ----- the now-playing chain -----

  datatype Attempt = Attempt(at: int, track: Scrobble)

  /** How many more times the timer can be armed again. */
  function ChainMeasure(p: PlayerState): nat {
    var s := p.nowPlaying.scrobble;
    if !Pending(p.nowPlaying.timer) then 0
    else if s.position > s.length then 1
    else 1 + ((s.length - s.position) / NOW_PLAYING_DELAY).Floor
  }

  lemma ChainShrinks(p: PlayerState, now: int)
    requires Pending(p.nowPlaying.timer)
    ensures ChainMeasure(FireNowPlaying(p, now)) < ChainMeasure(p)
  {
    var s := p.nowPlaying.scrobble;
    QuotientStep(s.length - s.position);
  }

  /** One period less, and one less in the whole part of the quotient. */
  lemma QuotientStep(x: real)
    ensures (x - NOW_PLAYING_DELAY) / NOW_PLAYING_DELAY == x / NOW_PLAYING_DELAY - 1.0
    ensures ((x - NOW_PLAYING_DELAY) / NOW_PLAYING_DELAY).Floor == (x / NOW_PLAYING_DELAY).Floor - 1
  {
  }

  /** The submissions that are attempted while nothing but the now-playing timer happens, each
      time as soon as it is due. */
  function Chain(p: PlayerState): seq<Attempt>
    decreases ChainMeasure(p)
  {
    if !Pending(p.nowPlaying.timer) then []
    else
      var at := p.nowPlaying.timer.deadline.value;
      ChainShrinks(p, at);
      (if NowPlayingAttempt(p) == [] then [] else [Attempt(at, p.nowPlaying.scrobble)]) + Chain(FireNowPlaying(p, at))
  }

  function Ceiling(x: real): int { -((-x).Floor) }

  /** Armed with position at most the length, the chain attempts a submission every 65 seconds, at
      positions 65 seconds apart that never exceed the length, so that each passes the position
      test; there are ceil((length - position) / 65) of them, and one at the very end. */
  lemma {:induction false} ChainExact(p: PlayerState)
    requires IsValid(p.id) && !p.id.ignored && Pending(p.nowPlaying.timer)
    requires p.nowPlaying.scrobble.position <= p.nowPlaying.scrobble.length
    ensures var s, at, c := p.nowPlaying.scrobble, p.nowPlaying.timer.deadline.value, Chain(p);
            && |c| == (if s.position == s.length then 1 else Ceiling((s.length - s.position) / 65.0))
            && forall k | 0 <= k < |c| ::
                 && c[k].at == at + 65 * k
                 && c[k].track == s.(position := s.position + 65.0 * k as real, playTime := s.playTime + 65.0 * k as real)
                 && c[k].track.position <= s.length
    decreases ChainMeasure(p)
  {
    var s, at := p.nowPlaying.scrobble, p.nowPlaying.timer.deadline.value;
    var q := FireNowPlaying(p, at);
    ChainShrinks(p, at);
    if s.position + NOW_PLAYING_DELAY < s.length {
      ChainExact(q);
      ChainCount(s.length - s.position);
      var rest := Chain(q);
      assert Chain(p) == [Attempt(at, s)] + rest;
      forall k | 0 < k < |Chain(p)|
        ensures Chain(p)[k] == rest[k - 1]
      {
      }
    } else {
      assert Chain(q) == [];
      if s.position < s.length {
        LastAttempt(s.length - s.position);
      }
    }
  }

  lemma ChainCount(x: real)
    requires x > NOW_PLAYING_DELAY
    ensures Ceiling(x / NOW_PLAYING_DELAY) == 1 + Ceiling((x - NOW_PLAYING_DELAY) / NOW_PLAYING_DELAY)
  {
    QuotientStep(x);
  }

  lemma LastAttempt(x: real)
    requires 0.0 < x <= NOW_PLAYING_DELAY
    ensures Ceiling(x / NOW_PLAYING_DELAY) == 1
  {
  }

  // ----- counting play time -----

  /** The seconds after which the queue timer fires. */
  function Bound(length: real): int { Target(length).Floor + 1 }

  /** One track, `played` seconds of which were played up to `clock`. While it plays, the queue timer
      is due when the bound is reached and the start time says what was played; while it does not,
      no timer is initialised and the payload keeps what was played. */
  ghost predicate Accounted(p: PlayerState, clock: int, played: int, length: real) {
    var q := p.queue;
    && IsValid(p.id) && !p.id.ignored
    && !Happened(p.changed)
    && length > 0.1 && LengthOf(p.props) == length == q.scrobble.length
    && q.scrobble.startTime > 0
    && 0 <= played < clock
    && (IsPlaying(p.props) ==>
          && q.timer.deadline == Some(q.scrobble.startTime + Bound(length))
          && q.timer.initialised
          && clock - q.scrobble.startTime == played)
    && (!IsPlaying(p.props) ==>
          && q.timer == NO_TIMER
          && q.scrobble.playTime == played as real && 1 <= played <= Bound(length))
  }

  /** A signal that says nothing new about the track: only status, position and the rest. */
  ghost predicate SameTrack(p: PlayerState, msg: Message) {
    forall f: Field :: IsTrackField(f) && f in msg.loaded ==> At(msg.props, f) == At(p.props, f)
  }

  /** The seconds played up to the next step. */
  function PlayedUntil(p: PlayerState, clock: int, played: int, at: int): int {
    if IsPlaying(p.props) then played + (at - clock) else played
  }

  /** Pauses and resumes before the queue timer fires, each pause at least one second into play;
      in between any signals about the same track, and the now-playing timer. */
  ghost predicate Interleaving(p: PlayerState, clock: int, played: int, steps: seq<Step>)
    decreases |steps|
  {
    steps == [] ||
    var s, next := steps[0], Next(p, steps[0]);
    var now := PlayedUntil(p, clock, played, s.at);
    && clock <= s.at && Enabled(p, s)
    && (s.event.NowPlayingTimer? || (s.event.Signal? && SameTrack(p, s.event.msg)))
    && (IsPlaying(p.props) && Pending(p.queue.timer) ==> s.at <= p.queue.timer.deadline.value)
    && (IsPlaying(p.props) && !IsPlaying(next.props) ==> now >= 1)
    && Interleaving(next, s.at, now, steps[1..])
  }

  /** The clock and the seconds played after a run. */
  function ClockAfter(clock: int, steps: seq<Step>): int {
    if steps == [] then clock else steps[|steps| - 1].at
  }

  function PlayedAfter(p: PlayerState, clock: int, played: int, steps: seq<Step>): int
    decreases |steps|
  {
    if steps == [] then played
    else PlayedAfter(Next(p, steps[0]), steps[0].at, PlayedUntil(p, clock, played, steps[0].at), steps[1..])
  }

  /** What a signal about the same track leaves in the mask: the status if it changed, and perhaps
      the position, but no track field. */
  lemma SameTrackMask(p: PlayerState, msg: Message, now: int)
    requires !Happened(p.changed) && SameTrack(p, msg)
    ensures var q := Merged(p, msg, now);
            && !ChangedTrack(q.changed)
            && LengthOf(q.props) == LengthOf(p.props)
            && (PlaybackStatus !in q.changed ==> IsPlaying(q.props) == IsPlaying(p.props))
            && (PlaybackStatus in q.changed ==> Happened(q.changed))
            && (PlaybackStatus in q.changed && IsPlaying(q.props) ==> !IsPlaying(p.props))
  {
    hide Merged, Happened, ChangedTrack, Matters, IsTrackField, IsPlaying, LengthOf;
    var q := Merged(p, msg, now);
    StatusMatters();
    TitleMatters();
    HappenedExact(p.changed);
    HappenedExact(q.changed);
    ChangedTrackExact(q.changed);
    PlayingIs(p.props);
    PlayingIs(q.props);
    forall f: Field | Matters(f)
      ensures f in q.changed <==> At(q.props, f) != At(p.props, f)
      ensures At(q.props, f) == if f in msg.loaded then At(msg.props, f) else At(p.props, f)
    {
      MergedField(p, msg, now, f);
    }
    LengthIs(p.props, q.props);
  }

  lemma LengthIs(p: Properties, q: Properties)
    ensures At(p, Length) == At(q, Length) ==> LengthOf(p) == LengthOf(q)
  {
  }

  /** There is one value for Playing. */
  lemma PlayingIs(p: Properties)
    ensures IsPlaying(p) <==> At(p, PlaybackStatus) == Text("Playing")
  {
  }

  /** The delay of a resumed track is what is missing of the bound. */
  lemma ResumedDelay(length: real, played: int)
    requires length > 0.1 && 0 <= played <= Bound(length)
    ensures QueueDelay(length, played as real) == Bound(length) - played
  {
    FloorShift(Target(length) + 1.0, played);
    FloorShift(Target(length), -1);
    hide Target;
  }

  lemma FloorShift(x: real, n: int)
    ensures (x - n as real).Floor == x.Floor - n
  {
  }

  lemma SignalAccounts(p: PlayerState, clock: int, played: int, length: real, msg: Message, at: int)
    requires Accounted(p, clock, played, length) && clock <= at && SameTrack(p, msg)
    requires IsPlaying(p.props) ==> at <= p.queue.timer.deadline.value
    requires var now := PlayedUntil(p, clock, played, at);
             IsPlaying(p.props) && !IsPlaying(Deliver(p, msg, at).props) ==> now >= 1
    ensures Accounted(Deliver(p, msg, at), at, PlayedUntil(p, clock, played, at), length)
  {
    hide MergeInto, Bound, IsValid, IsPlaying, Target, ChangedTrack, Happened, LengthOf, SameTrack;
    if msg.loaded != {} {
      var q := Merged(p, msg, at);
      SameTrackMask(p, msg, at);
      if Happened(q.changed) {
        if IsPlaying(q.props) {
          PlayingSignalAccounts(p, q, clock, played, length, at);
        } else {
          StoppedSignalAccounts(p, q, clock, played, length, at);
        }
      }
    }
  }

  lemma NothingChanged()
    ensures !Happened({})
  {
    HappenedExact({});
    hide Happened;
  }

  lemma PlayingSignalAccounts(p: PlayerState, q: PlayerState, clock: int, played: int, length: real, at: int)
    requires Accounted(p, clock, played, length) && clock <= at
    requires IsPlaying(p.props) ==> at <= p.queue.timer.deadline.value
    requires q.id == p.id && q.nowPlaying == p.nowPlaying && q.queue == p.queue
    requires Happened(q.changed) && IsPlaying(q.props) && !ChangedTrack(q.changed)
    requires LengthOf(q.props) == LengthOf(p.props)
    requires PlaybackStatus !in q.changed ==> IsPlaying(p.props)
    requires PlaybackStatus in q.changed ==> !IsPlaying(p.props)
    requires q.timestamp == at
    ensures Accounted(Handle(q, at), at, PlayedUntil(p, clock, played, at), length)
  {
    hide Handle, Happened, ChangedTrack, Bound, QueueDelay, IsPlaying, IsValid, LengthOf;
    NothingChanged();
    if PlaybackStatus in q.changed {
      ResumeHandled(q, played, at);
      ResumedDelay(length, played);
      assert Accounted(Handle(q, at), at, played, length);
    } else {
      PlayingUntouched(q, at);
      assert Handle(q, at).queue == p.queue && Handle(q, at).props == q.props;
    }
  }

  lemma PlayingUntouched(q: PlayerState, at: int)
    requires Happened(q.changed) && IsPlaying(q.props) && !ChangedTrack(q.changed) && PlaybackStatus !in q.changed
    requires !q.id.ignored
    ensures Handle(q, at) == q.(changed := {}, timestamp := 0)
  {
    hide LoadScrobble, Happened, ChangedTrack, IsPlaying;
  }

  /** What the queue timer gets when a track resumes of which `played` seconds were played. */
  lemma ResumeHandled(q: PlayerState, played: int, at: int)
    requires Happened(q.changed) && IsPlaying(q.props) && !ChangedTrack(q.changed) && PlaybackStatus in q.changed
    requires !q.id.ignored && q.queue.scrobble.playTime == played as real && played >= 1
    ensures var r, length := Handle(q, at), LengthOf(q.props);
            && r.id == q.id && r.props == q.props && r.changed == {}
            && r.queue.scrobble.startTime == at - played && r.queue.scrobble.length == length
            && r.queue.timer == Timer(true, Some(at + QueueDelay(length, played as real)))
  {
    LoadedTimes(q.props, q.changed, q.timestamp, at, q.id.name);
    FloorShift(0.0, -played);
    hide LoadScrobble, Happened, ChangedTrack, QueueDelay, IsPlaying, LengthOf;
  }

  lemma StoppedSignalAccounts(p: PlayerState, q: PlayerState, clock: int, played: int, length: real, at: int)
    requires Accounted(p, clock, played, length) && clock <= at
    requires q.id == p.id && q.nowPlaying == p.nowPlaying && q.queue == p.queue
    requires Happened(q.changed) && !IsPlaying(q.props)
    requires LengthOf(q.props) == LengthOf(p.props)
    requires IsPlaying(p.props) ==> at <= p.queue.timer.deadline.value && PlayedUntil(p, clock, played, at) >= 1
    ensures Accounted(Handle(q, at), at, PlayedUntil(p, clock, played, at), length)
  {
    NothingChanged();
    hide Happened, Bound, IsPlaying, IsValid, LengthOf;
  }

  lemma StepAccounts(p: PlayerState, clock: int, played: int, length: real, s: Step)
    requires Accounted(p, clock, played, length) && Interleaving(p, clock, played, [s])
    ensures Accounted(Next(p, s), s.at, PlayedUntil(p, clock, played, s.at), length)
  {
    hide Deliver, Accounted, FireNowPlaying, SameTrack;
    if s.event.Signal? {
      FirstSignal(p, clock, played, length, s);
      SignalAccounts(p, clock, played, length, s.event.msg, s.at);
    } else {
      TickAccounts(p, clock, played, length, s.at);
    }
  }

  lemma FirstSignal(p: PlayerState, clock: int, played: int, length: real, s: Step)
    requires s.event.Signal? && Accounted(p, clock, played, length)
    ensures Interleaving(p, clock, played, [s]) ==>
              && clock <= s.at && SameTrack(p, s.event.msg)
              && (IsPlaying(p.props) ==> p.queue.timer.deadline.Some? && s.at <= p.queue.timer.deadline.value)
              && (!IsPlaying(p.props) || IsPlaying(Deliver(p, s.event.msg, s.at).props)
                  || PlayedUntil(p, clock, played, s.at) >= 1)
  {
    hide Deliver, SameTrack, IsPlaying;
  }

  /** The now-playing timer leaves the account as it is. */
  lemma TickAccounts(p: PlayerState, clock: int, played: int, length: real, at: int)
    requires Accounted(p, clock, played, length) && clock <= at
    ensures Accounted(FireNowPlaying(p, at), at, PlayedUntil(p, clock, played, at), length)
  {
    hide IsPlaying, IsValid, LengthOf, Bound, Happened;
  }

  lemma FirstOfInterleaving(p: PlayerState, clock: int, played: int, steps: seq<Step>)
    requires steps != [] && Interleaving(p, clock, played, steps)
    ensures Interleaving(p, clock, played, [steps[0]])
    ensures Interleaving(Next(p, steps[0]), steps[0].at, PlayedUntil(p, clock, played, steps[0].at), steps[1..])
  {
    hide Next, SameTrack, Enabled, IsPlaying;
    assert [steps[0]][1..] == [];
  }

  /** Over any such run: while the track plays, the queue timer is due at the start time plus the
      bound, and the time since the start time is the time spent playing; while it is paused, that
      time is kept. So paused time never counts. */
  lemma {:induction false} RunAccounts(p: PlayerState, clock: int, played: int, length: real, steps: seq<Step>)
    requires Accounted(p, clock, played, length) && Interleaving(p, clock, played, steps)
    ensures Accounted(Run(p, steps), ClockAfter(clock, steps), PlayedAfter(p, clock, played, steps), length)
    decreases |steps|
  {
    hide Accounted, Next, PlayedUntil, Interleaving;
    if steps != [] {
      var s, rest := steps[0], steps[1..];
      FirstOfInterleaving(p, clock, played, steps);
      StepAccounts(p, clock, played, length, s);
      RunAccounts(Next(p, s), s.at, PlayedUntil(p, clock, played, s.at), length, rest);
      assert ClockAfter(s.at, rest) == ClockAfter(clock, steps);
    }
  }

  /** A message that starts a track: it changes track fields, reports no position, and the player
      plays. From here on the run is accounted for, with nothing played yet. */
  lemma StartIsAccounted(p: PlayerState, msg: Message, now: int)
    requires IsValid(p.id) && !p.id.ignored && msg.loaded != {} && now > 0
    requires var q := Merged(p, msg, now);
             && ChangedTrack(q.changed) && Position !in q.changed && IsPlaying(q.props)
             && LengthOf(q.props) > 0.1
    ensures var q := Merged(p, msg, now);
            Accounted(Deliver(p, msg, now), now, 0, LengthOf(q.props))
  {
    hide MergeInto, Handle, Happened, ChangedTrack, Bound, QueueDelay, IsPlaying, IsValid, LengthOf;
    var q := Merged(p, msg, now);
    TrackHappens(q.changed);
    NothingChanged();
    StartHandled(q, now);
    TargetIsPositive(LengthOf(q.props));
    ResumedDelay(LengthOf(q.props), 0);
    assert Deliver(p, msg, now) == Handle(q, now);
  }

  lemma TrackHappens(m: Mask)
    requires ChangedTrack(m)
    ensures Happened(m)
  {
    ChangedTrackExact(m);
    StatusMatters();
    HappenedExact(m);
    hide ChangedTrack, Happened, Matters, IsTrackField;
  }

  /** What the queue timer gets when a track starts. */
  lemma StartHandled(q: PlayerState, now: int)
    requires Happened(q.changed) && IsPlaying(q.props) && ChangedTrack(q.changed) && Position !in q.changed
    requires !q.id.ignored && q.timestamp == now > 0
    ensures var r, length := Handle(q, now), LengthOf(q.props);
            && r.id == q.id && r.changed == {}
            && IsPlaying(r.props) && LengthOf(r.props) == length
            && r.queue.scrobble.startTime == now && r.queue.scrobble.length == length
            && r.queue.timer == Timer(true, Some(now + QueueDelay(length, 0.0)))
  {
    LoadedTimes(q.props, q.changed, q.timestamp, now, q.id.name);
    PositionIsApart(q.props);
    hide LoadScrobble, Happened, ChangedTrack, QueueDelay, IsPlaying, LengthOf, With;
  }

  /** A track without a length starts with a timer that is due at once. When it fires, the play time is
      only how late it fires, and no service accepts the track. */
  lemma StartWithoutLength(p: PlayerState, msg: Message, now: int, fired: int, kind: ApiType, later: int)
    requires IsValid(p.id) && !p.id.ignored && msg.loaded != {} && now > 0
    requires var q := Merged(p, msg, now);
             && ChangedTrack(q.changed) && Position !in q.changed && IsPlaying(q.props)
             && LengthOf(q.props) <= 0.1
    ensures var track := Queued(Deliver(p, msg, now).queue.scrobble, fired);
            && Deliver(p, msg, now).queue.timer == Timer(true, Some(now))
            && track.playTime == (fired - now) as real
            && !IsAccepted(ScrobbleRequest, track, kind, later)
  {
    hide MergeInto, Handle, Happened, ChangedTrack, IsPlaying, IsValid, LengthOf, PlayedEnough;
    var q := Merged(p, msg, now);
    TrackHappens(q.changed);
    StartHandled(q, now);
    assert QueueDelay(LengthOf(q.props), 0.0) == 0;
    assert Deliver(p, msg, now) == Handle(q, now);
  }

  function Fraction(x: real): real { x - x.Floor as real }

  /** The delay of a track that starts at a position: what is missing of the bound, a second less
      when the position has a larger fraction than the target, and none beyond the target. */
  lemma DelayAtPosition(length: real, position: real)
    requires length > 0.1 && position >= 0.0
    ensures var t := Target(length);
            QueueDelay(length, position) ==
              if position > t + 1.0 then 0
              else Bound(length) - position.Floor - if Fraction(position) > Fraction(t) then 1 else 0
  {
    hide Target;
    var t := Target(length);
    var whole, rest := t.Floor - position.Floor, Fraction(t) - Fraction(position);
    assert t - position + 1.0 == whole as real + rest + 1.0;
    assert -1.0 < rest < 1.0;
    FloorSum(rest + 1.0, whole);
  }

  lemma FloorSum(x: real, n: int)
    ensures (n as real + x).Floor == n + x.Floor
  {
  }

  /** What the queue timer gets when a track starts at a position. */
  lemma PositionHandled(q: PlayerState, now: int)
    requires Happened(q.changed) && IsPlaying(q.props) && ChangedTrack(q.changed) && Position in q.changed
    requires !q.id.ignored && PositionOf(q.props) > 0.0
    ensures var r, length, position := Handle(q, now), LengthOf(q.props), PositionOf(q.props);
            && r.id == q.id && r.changed == {} && r.props == q.props
            && r.queue.scrobble.startTime == now - position.Floor
            && r.queue.scrobble.position == position == r.queue.scrobble.playTime
            && r.queue.scrobble.length == length
            && r.queue.timer == Timer(true, Some(now + QueueDelay(length, position)))
  {
    LoadedTimes(q.props, q.changed, q.timestamp, now, q.id.name);
    hide LoadScrobble, Happened, ChangedTrack, QueueDelay, IsPlaying, LengthOf, PositionOf;
  }

  /** A message that starts a track at a position: the queue timer is due at the start time plus the
      bound, one second earlier when the fraction of the position is larger than that of the
      target, and at once beyond the target. In the first case the run is accounted for from here on,
      with the whole seconds of the position played. */
  lemma StartWithPosition(p: PlayerState, msg: Message, now: int)
    requires IsValid(p.id) && !p.id.ignored && msg.loaded != {}
    requires var q := Merged(p, msg, now);
             && ChangedTrack(q.changed) && Position in q.changed && IsPlaying(q.props)
             && LengthOf(q.props) > 0.1 && PositionOf(q.props) > 0.0
    ensures var q, r := Merged(p, msg, now), Deliver(p, msg, now);
            var length, position := LengthOf(q.props), PositionOf(q.props);
            var target, start := Target(length), now - position.Floor;
            && r.queue.scrobble.startTime == start && r.queue.scrobble.playTime == position
            && r.queue.timer == Timer(true, Some(
                 if position > target + 1.0 then now
                 else start + Bound(length) - if Fraction(position) > Fraction(target) then 1 else 0))
            && (start > 0 && r.queue.timer.deadline == Some(start + Bound(length))
                ==> Accounted(r, now, position.Floor, length))
  {
    hide MergeInto, Handle, Happened, ChangedTrack, Bound, QueueDelay, IsPlaying, IsValid, LengthOf, PositionOf,
         Target, Fraction;
    var q := Merged(p, msg, now);
    TrackHappens(q.changed);
    NothingChanged();
    PositionHandled(q, now);
    DelayAtPosition(LengthOf(q.props), PositionOf(q.props));
    assert Deliver(p, msg, now) == Handle(q, now);
  }

  lemma TargetIsPositive(length: real)
    requires length > 0.1
    ensures Bound(length) >= 1
  {
  }

  lemma PositionIsApart(p: Properties)
    ensures var q := With(p, Position, Number(0));
            IsPlaying(q) == IsPlaying(p) && LengthOf(q) == LengthOf(p)
  {
  }

  /** The queue timer is due exactly when the time spent playing has reached the bound. */
  lemma DueAtBound(p: PlayerState, clock: int, played: int, length: real, at: int)
    requires Accounted(p, clock, played, length) && clock <= at
    ensures Due(p.queue.timer, at) <==> IsPlaying(p.props) && PlayedUntil(p, clock, played, at) >= Bound(length)
  {
    hide Bound, IsPlaying, LengthOf;
  }

  /** A signal that stops the track, or starts it again, and says nothing else about it. */
  ghost predicate Pauses(p: PlayerState, msg: Message, at: int) {
    msg.loaded != {} && SameTrack(p, msg) && !IsPlaying(Merged(p, msg, at).props)
  }

  ghost predicate Resumes(p: PlayerState, msg: Message, at: int) {
    msg.loaded != {} && SameTrack(p, msg) && IsPlaying(Merged(p, msg, at).props)
  }

  /** What stopping leaves in the payload of an armed queue timer: the time since the start. */
  lemma PauseHandled(q: PlayerState, at: int)
    requires Happened(q.changed) && !IsPlaying(q.props) && !q.id.ignored
    requires q.queue.timer.initialised && q.queue.scrobble.startTime > 0
    ensures var r := Handle(q, at);
            && r.id == q.id && r.props == q.props && r.changed == {}
            && r.queue.scrobble.playTime == (at - q.queue.scrobble.startTime) as real
  {
    hide Happened, IsPlaying;
  }

  /** A resume takes up the play time in the payload, if there is any. */
  lemma ResumeStart(q: PlayerState, at: int)
    requires Happened(q.changed) && IsPlaying(q.props) && !ChangedTrack(q.changed) && PlaybackStatus in q.changed
    requires !q.id.ignored
    ensures var prev := q.queue.scrobble.playTime;
            Handle(q, at).queue.scrobble.startTime == if prev > 0.0 then at - prev.Floor else 0
  {
    LoadedTimes(q.props, q.changed, q.timestamp, at, q.id.name);
    hide LoadScrobble, Happened, ChangedTrack, QueueDelay, IsPlaying;
  }

  /** A pause in the very second in which the track started is different: no time was played, and the
      resume does not take zero for a play time. Resuming keeps the start time right exactly when
      at least one second was played. */
  lemma PauseResumeExact(p: PlayerState, clock: int, played: int, length: real,
                         pause: Message, at1: int, resume: Message, at2: int)
    requires Accounted(p, clock, played, length) && IsPlaying(p.props)
    requires clock <= at1 <= p.queue.timer.deadline.value && at1 <= at2
    ensures var now := PlayedUntil(p, clock, played, at1);
            var p1 := Deliver(p, pause, at1);
            var p2 := Deliver(p1, resume, at2);
            Pauses(p, pause, at1) && Resumes(p1, resume, at2) ==>
              && (p2.queue.scrobble.startTime == at2 - now <==> now >= 1)
              && (now == 0 ==> p2.queue.scrobble.startTime == 0)
  {
    hide Merged, Handle, Deliver, Happened, ChangedTrack, Bound, IsPlaying, IsValid, LengthOf, SameTrack;
    var p1 := Deliver(p, pause, at1);
    if Pauses(p, pause, at1) && Resumes(p1, resume, at2) {
      NothingChanged();
      SignalHandled(p, pause, at1);
      PauseHandled(Merged(p, pause, at1), at1);
      assert p1.queue.scrobble.playTime == PlayedUntil(p, clock, played, at1) as real;
      SignalHandled(p1, resume, at2);
      ResumeStart(Merged(p1, resume, at2), at2);
      FloorShift(0.0, -PlayedUntil(p, clock, played, at1));
    }
  }

  /** How a signal about the same track that changes whether the player plays is handled. */
  lemma SignalHandled(p: PlayerState, msg: Message, at: int)
    requires IsValid(p.id) && !p.id.ignored && !Happened(p.changed) && msg.loaded != {} && SameTrack(p, msg)
    requires IsPlaying(Merged(p, msg, at).props) != IsPlaying(p.props)
    ensures var q := Merged(p, msg, at);
            && q.id == p.id && q.queue == p.queue && Happened(q.changed)
            && !ChangedTrack(q.changed) && PlaybackStatus in q.changed
            && Deliver(p, msg, at) == Handle(q, at)
  {
    hide Merged, Handle, Happened, ChangedTrack, IsPlaying, IsValid, SameTrack;
    MergedKeeps(p, msg, at);
    SameTrackMask(p, msg, at);
    StatusChangeHappens(p, msg, at);
  }

  // ----- not one submission per track -----

  /** Pausing and resuming a track arms its queue timer again, whether or not the timer has fired
      for it before: nothing records that it has. */
  lemma ResumeArmsAgain(p: PlayerState, resume: Message, at: int)
    requires IsValid(p.id) && !p.id.ignored && !Happened(p.changed) && !IsPlaying(p.props)
    requires Resumes(p, resume, at)
    ensures Pending(Deliver(p, resume, at).queue.timer)
    ensures Deliver(p, resume, at).queue.scrobble.title == TextOf(p.props, Title)
  {
    hide Merged, Happened, ChangedTrack, QueueDelay, IsPlaying, IsValid, LengthOf, Matters, IsTrackField;
    var q := Merged(p, resume, at);
    SameTrackMask(p, resume, at);
    StatusMatters();
    TitleMatters();
    MergedField(p, resume, at, Title);
    MergedKeeps(p, resume, at);
    StatusChangeHappens(p, resume, at);
  }
}
