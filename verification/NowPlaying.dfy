/**
  What arming gives the two timers, and when now-playing is sent for a track.
 */
module NowPlaying {
  import opened Wrappers
  import opened Properties
  import opened Scrobbles
  import opened Playback
  import opened PlaybackRuns
  import opened Resubmission
  import opened StartTimes

  /** The position that the payloads get: the reported one of a new track, the stored one at a reload,
      and none at a resume. */
  ghost function ArmedPosition(p: PlayerState, s: Step): real
    requires Arms(p, s)
  {
    match s.event
    case Signal(msg) => if NewTrack(p, msg) then Reported(p, msg) else 0.0
    case _ => PositionOf(p.props)
  }

  /** The play time that they get: a positive position, or what was played before a resume. */
  ghost function ArmedPlayTime(p: PlayerState, s: Step): real
    requires Arms(p, s)
  {
    var played := if s.event.Signal? && !NewTrack(p, s.event.msg) then p.queue.scrobble.playTime else ArmedPosition(p, s);
    if played > 0.0 then played else 0.0
  }

  /** Both timers armed at `at` for the track that the properties describe: now-playing at once, and
      the queue after what is missing of the bound. */
  ghost predicate ArmedFor(r: PlayerState, at: int, position: real, playTime: real) {
    var track := r.queue.scrobble;
    && Describes(track, r.props) && track.length == LengthOf(r.props)
    && track.position == position && track.playTime == playTime
    && r.nowPlaying == Payload(track, Timer(true, Some(at)))
    && r.queue.timer == Timer(true, Some(at + QueueDelay(track.length, playTime)))
  }

  lemma DescribesIsPosition(s: Scrobble, p: Properties)
    ensures Describes(s, With(p, Position, Number(0))) <==> Describes(s, p)
  {
  }

  lemma HandledArms(q: PlayerState, at: int)
    requires !q.id.ignored && Happened(q.changed) && IsPlaying(q.props)
    requires ChangedTrack(q.changed) || PlaybackStatus in q.changed
    ensures var r, reported := Handle(q, at), if Position in q.changed then PositionOf(q.props) else 0.0;
            var position := if ChangedTrack(q.changed) then reported else 0.0;
            var played := if ChangedTrack(q.changed) then reported else q.queue.scrobble.playTime;
            ArmedFor(r, at, position, if played > 0.0 then played else 0.0)
  {
    LoadedTimes(q.props, q.changed, q.timestamp, at, q.id.name);
    LoadedDescribes(q.props, q.changed, q.timestamp, at, q.id.name);
    PositionIsApart(q.props);
    DescribesIsPosition(LoadScrobble(q.props, q.changed, q.timestamp, at, q.id.name), q.props);
    DescribesIsTimes(q.props, LoadScrobble(q.props, q.changed, q.timestamp, at, q.id.name));
    hide LoadScrobble, Happened, ChangedTrack, QueueDelay, IsPlaying, PositionOf, LengthOf, With, Describes;
  }

  lemma DescribesIsTimes(p: Properties, s: Scrobble)
    ensures forall played, start :: Describes(s.(playTime := played, startTime := start), p) <==> Describes(s, p)
    ensures forall played, start ::
              Describes(s.(playTime := played, startTime := start), With(p, Position, Number(0))) <==> Describes(s, p)
  {
  }

  lemma SignalArms(p: PlayerState, msg: Message, at: int)
    requires Quiet(p) && Rearms(p, msg)
    ensures var s := Step(Signal(msg), at);
            ArmedFor(Deliver(p, msg, at), at, ArmedPosition(p, s), ArmedPlayTime(p, s))
  {
    hide Merged, Handle, Happened, ChangedTrack, IsPlaying, IsValid, NewTrack, Reported, ArmedFor;
    var q := Merged(p, msg, at);
    MergedKeeps(p, msg, at);
    SignalRearms(p, msg, at);
    NewTrackExact(p, msg, at);
    ReportedExact(p, msg, at);
    HandledArms(q, at);
  }

  lemma ReloadArmsBoth(p: PlayerState, at: int)
    requires Quiet(p) && IsPlaying(p.props)
    ensures var position := PositionOf(p.props);
            ArmedFor(Check(p, at), at, position, if position > 0.0 then position else 0.0)
  {
    AllChanged();
    LoadedTimes(p.props, AllFields(), 0, at, p.id.name);
    LoadedDescribes(p.props, AllFields(), 0, at, p.id.name);
    hide LoadScrobble, Happened, ChangedTrack, QueueDelay, IsPlaying, IsValid, PositionOf, LengthOf, AllFields, Describes;
  }

  /** Every step that arms arms both timers: now-playing is due at once and the queue timer after the
      truncated delay, for the same track, which is the one that the stored properties describe. */
  lemma ArmingArmsBoth(p: PlayerState, s: Step)
    requires Quiet(p) && Arms(p, s)
    ensures ArmedFor(Next(p, s), s.at, ArmedPosition(p, s), ArmedPlayTime(p, s))
  {
    hide Deliver, Check, Quiet, Rearms, NewTrack, Reported, PositionOf, ArmedFor, IsPlaying;
    match s.event
    case Signal(msg) =>
      SignalArms(p, msg, s.at);
      assert s == Step(Signal(msg), s.at);
    case Reload => ReloadArmsBoth(p, s.at);
    case _ =>
  }

  /** Any other signal arms nothing: it leaves the now-playing payload alone while the player plays, and
      removes a timer that is there when it does not. */
  lemma OtherSignals(p: PlayerState, msg: Message, at: int)
    requires Quiet(p) && Hygienic(p) && !Rearms(p, msg)
    ensures var r := Deliver(p, msg, at);
            && r.nowPlaying.scrobble == p.nowPlaying.scrobble
            && (IsPlaying(r.props) ==> r.nowPlaying == p.nowPlaying && r.queue == p.queue)
            && (!IsPlaying(r.props) ==> !Pending(r.nowPlaying.timer) && !Pending(r.queue.timer))
  {
    hide Merged, Happened, ChangedTrack, IsPlaying, IsValid, LoadScrobble, QueueDelay, Rearms, Resumed, Arm;
    DeliverIsHygienic(p, msg, at);
    if msg.loaded != {} {
      MergedKeeps(p, msg, at);
      SignalRearms(p, msg, at);
      HandledProps(Merged(p, msg, at), at, Position);
    }
  }

  /** A new track without a position: now-playing is attempted ceil(length / 65) times, 65 seconds apart
      from the arrival of the signal on, for the track that the properties describe. */
  lemma NewTrackChain(p: PlayerState, msg: Message, at: int)
    requires Quiet(p) && Rearms(p, msg) && NewTrack(p, msg) && Reported(p, msg) == 0.0
    requires LengthOf(Merged(p, msg, at).props) > 0.0
    ensures var r := Deliver(p, msg, at);
            var c, length := Chain(r), LengthOf(r.props);
            && length == LengthOf(Merged(p, msg, at).props)
            && |c| == Ceiling(length / 65.0) >= 1
            && forall k | 0 <= k < |c| ::
                 && c[k].at == at + 65 * k && Describes(c[k].track, r.props)
                 && c[k].track.position == 65.0 * k as real <= c[k].track.length == length
  {
    hide Deliver, Merged, Chain, IsPlaying, IsValid, Rearms, NewTrack, Reported, LengthOf, Describes, Happened;
    var r := Deliver(p, msg, at);
    if msg.loaded == {} { NothingRearms(p, msg); }
    SignalArms(p, msg, at);
    SignalStart(p, msg, at);
    LengthStays(p, msg, at);
    ChainExact(r);
    CeilingIsPositive(LengthOf(r.props) / 65.0);
    forall k | 0 <= k < |Chain(r)|
      ensures Describes(Chain(r)[k].track, r.props)
    {
      DescribesIsMoved(r.props, r.queue.scrobble, 65.0 * k as real);
    }
  }

  lemma DescribesIsMoved(p: Properties, s: Scrobble, shift: real)
    ensures Describes(s.(position := s.position + shift, playTime := s.playTime + shift), p) <==> Describes(s, p)
  {
  }

  lemma CeilingIsPositive(x: real)
    requires x > 0.0
    ensures Ceiling(x) >= 1
  {
  }

  lemma LengthStays(p: PlayerState, msg: Message, at: int)
    requires Quiet(p) && msg.loaded != {}
    ensures LengthOf(Deliver(p, msg, at).props) == LengthOf(Merged(p, msg, at).props)
  {
    hide Merged, Happened, IsValid, LengthOf, Handle;
    var q := Merged(p, msg, at);
    MergedKeeps(p, msg, at);
    HandledProps(q, at, Length);
    LengthIs(Handle(q, at).props, q.props);
  }

  // ----- what else a step does, and what it leaves alone -----

  /** What a delivered signal leaves of every property: what it loaded, except that a new track that
      plays and reports no new position starts at zero. */
  lemma DeliveredProperties(p: PlayerState, msg: Message, at: int, f: Field)
    requires Quiet(p) && msg.loaded != {} && Matters(f)
    ensures var r := Deliver(p, msg, at);
            var merged := if f in msg.loaded then At(msg.props, f) else At(p.props, f);
            At(r.props, f) ==
              if f == Position && NewTrack(p, msg) && IsPlaying(r.props) && merged == At(p.props, Position)
              then Number(0) else merged
  {
    hide Merged, Happened, ChangedTrack, IsPlaying, IsValid, NewTrack, Matters, IsTrackField, Handle;
    var q := Merged(p, msg, at);
    StatusMatters();
    MergedKeeps(p, msg, at);
    MergedField(p, msg, at, f);
    NewTrackExact(p, msg, at);
    NewlyChanged(p, msg, at, Position);
    HandledProps(q, at, f);
    if ChangedTrack(q.changed) {
      TrackHappens(q.changed);
    }
    if Happened(q.changed) {
      PositionHandled(q, at, f);
    }
  }

  lemma PositionHandled(q: PlayerState, at: int, f: Field)
    requires !q.id.ignored && Happened(q.changed)
    ensures At(Handle(q, at).props, f) ==
              if f == Position && IsPlaying(q.props) && ChangedTrack(q.changed) && Position !in q.changed
              then Number(0) else At(q.props, f)
  {
    hide LoadScrobble, Happened, ChangedTrack, QueueDelay, IsPlaying, Resumed;
  }

  /** Signals and reloads leave an ignored player alone, and never touch the timers of a player without a
      name on the bus, a name or a scrobbler. */
  lemma LeftAlone(p: PlayerState, msg: Message, at: int)
    ensures p.id.ignored ==> Deliver(p, msg, at) == p && Check(p, at) == p
    ensures |p.id.mprisName| <= 1 || p.id.name == "" || !p.id.hasScrobbler ==>
              && Check(p, at) == p
              && Deliver(p, msg, at).nowPlaying == p.nowPlaying && Deliver(p, msg, at).queue == p.queue
              && NowPlayingAttempt(p) == []
              && FireNowPlaying(p, at).nowPlaying == p.nowPlaying.(timer := p.nowPlaying.timer.(deadline := None))
  {
    MergedKeeps(p, msg, at);
    hide Merged, LoadScrobble, QueueDelay, Handle;
  }

  /** A queue timer that fires is not pending any more, and nothing else changes. */
  lemma FiredExactly(p: PlayerState, at: int)
    ensures Next(p, Step(QueueTimer, at)) == p.(queue := p.queue.(timer := p.queue.timer.(deadline := None)))
  {
  }

  /** Stopping removes both timers, whatever they held; the queue payload gets the time since its start, if
      it has one. */
  lemma StoppedExactly(q: PlayerState, at: int)
    requires Happened(q.changed) && !IsPlaying(q.props) && !q.id.ignored
    requires q.nowPlaying.timer.initialised && q.queue.timer.initialised
    ensures var r, s := Handle(q, at), q.queue.scrobble;
            && r.nowPlaying == Payload(q.nowPlaying.scrobble, Timer(false, None))
            && r.queue == Payload(if s.startTime > 0 then s.(playTime := (at - s.startTime) as real) else s,
                                  Timer(false, None))
  {
    hide Happened, IsPlaying;
  }

  /** A player is valid with a bus name of two characters, a name and a scrobbler. */
  lemma ValidExactly(id: Identity)
    ensures IsValid(id) <==> |id.mprisName| >= 2 && id.name != "" && id.hasScrobbler
  {
  }
}
