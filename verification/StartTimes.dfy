/**
  The start time of the track that the queue timer holds, over whole runs: which step set it last,
  and when it is zero, which is what the request then reports.
 */
module StartTimes {
  import opened Wrappers
  import opened Properties
  import opened Scrobbles
  import opened Queue
  import opened Playback
  import opened PlaybackRuns
  import opened Resubmission

  /** A reload while the track plays, and a signal that leaves the player playing and changes its
      status or a track field. */
  ghost predicate Arms(p: PlayerState, s: Step) {
    (s.event.Reload? && IsPlaying(p.props)) || (s.event.Signal? && Rearms(p, s.event.msg))
  }

  ghost predicate NewTrack(p: PlayerState, msg: Message) {
    exists f: Field :: IsTrackField(f) && f in msg.loaded && At(msg.props, f) != At(p.props, f)
  }

  /** The position that a signal reports: one that is already stored counts as none. */
  function Reported(p: PlayerState, msg: Message): real {
    if Position in msg.loaded && At(msg.props, Position) != At(p.props, Position) then PositionOf(msg.props) else 0.0
  }

  /** Set back by the whole seconds of a positive play time; without one, `otherwise`. */
  function SetBack(played: real, at: int, otherwise: int): int {
    if played > 0.0 then at - played.Floor else otherwise
  }

  /** The start time that an arming step gives. A new track without a position starts when its signal
      arrives; a resumed one is set back by what was played; a reload knows the stored position
      only. */
  ghost function ArmedStart(p: PlayerState, s: Step): int
    requires Arms(p, s)
  {
    match s.event
    case Signal(msg) =>
      if NewTrack(p, msg) then SetBack(Reported(p, msg), s.at, if s.at > 0 then s.at else 0)
      else SetBack(p.queue.scrobble.playTime, s.at, 0)
    case _ => SetBack(PositionOf(p.props), s.at, 0)
  }

  /** Between steps a valid player that is not ignored has no pending changes that matter. */
  ghost predicate Quiet(p: PlayerState) {
    IsValid(p.id) && !p.id.ignored && !Happened(p.changed)
  }

  lemma NewTrackExact(p: PlayerState, msg: Message, now: int)
    requires !Happened(p.changed)
    ensures ChangedTrack(Merged(p, msg, now).changed) <==> NewTrack(p, msg)
  {
    hide Merged, Happened, ChangedTrack, Matters, IsTrackField;
    StatusMatters();
    ChangedTrackExact(Merged(p, msg, now).changed);
    forall f: Field | IsTrackField(f)
      ensures f in Merged(p, msg, now).changed <==> f in msg.loaded && At(msg.props, f) != At(p.props, f)
    {
      NewlyChanged(p, msg, now, f);
    }
  }

  lemma ReportedExact(p: PlayerState, msg: Message, now: int)
    requires !Happened(p.changed)
    ensures var q := Merged(p, msg, now);
            Reported(p, msg) == if Position in q.changed then PositionOf(q.props) else 0.0
  {
    hide Merged, Happened, Matters, IsTrackField;
    StatusMatters();
    NewlyChanged(p, msg, now, Position);
    MergedField(p, msg, now, Position);
  }

  /** The start time that handling a signal leaves. */
  lemma HandledStart(q: PlayerState, at: int)
    requires !q.id.ignored && Happened(q.changed) && q.timestamp == at
    ensures var position := if Position in q.changed then PositionOf(q.props) else 0.0;
            var prev := q.queue.scrobble;
            Handle(q, at).queue.scrobble.startTime ==
              if !(IsPlaying(q.props) && (ChangedTrack(q.changed) || PlaybackStatus in q.changed)) then prev.startTime
              else if ChangedTrack(q.changed) then SetBack(position, at, if at > 0 then at else 0)
              else SetBack(prev.playTime, at, 0)
  {
    LoadedTimes(q.props, q.changed, q.timestamp, at, q.id.name);
    hide LoadScrobble, Happened, ChangedTrack, QueueDelay, IsPlaying, PositionOf;
  }

  lemma HandledIsQuiet(q: PlayerState, at: int)
    requires !q.id.ignored
    ensures !Happened(Handle(q, at).changed) && Handle(q, at).id == q.id
  {
    NothingChanged();
    HandledProps(q, at, Position);
    hide Happened, Handle;
  }

  lemma SignalStart(p: PlayerState, msg: Message, at: int)
    requires Quiet(p)
    ensures var s, r := Step(Signal(msg), at), Deliver(p, msg, at);
            Quiet(r) && r.queue.scrobble.startTime == if Arms(p, s) then ArmedStart(p, s) else p.queue.scrobble.startTime
  {
    hide Merged, Handle, Happened, ChangedTrack, IsPlaying, IsValid, Rearms, NewTrack, Reported;
    if msg.loaded == {} {
      NothingRearms(p, msg);
    } else {
      var q := Merged(p, msg, at);
      MergedKeeps(p, msg, at);
      SignalRearms(p, msg, at);
      NewTrackExact(p, msg, at);
      ReportedExact(p, msg, at);
      HandledIsQuiet(q, at);
      if Happened(q.changed) {
        HandledStart(q, at);
      } else {
        HandledProps(q, at, Position);
      }
    }
  }

  lemma ReloadStart(p: PlayerState, at: int)
    requires Quiet(p)
    ensures var r := Check(p, at);
            Quiet(r) && r.queue.scrobble.startTime
                        == if IsPlaying(p.props) then SetBack(PositionOf(p.props), at, 0) else p.queue.scrobble.startTime
  {
    AllChanged();
    LoadedTimes(p.props, AllFields(), 0, at, p.id.name);
    hide LoadScrobble, Happened, ChangedTrack, QueueDelay, IsPlaying, IsValid, PositionOf, AllFields;
  }

  lemma AllChanged()
    ensures ChangedTrack(AllFields()) && Position in AllFields()
  {
  }

  lemma NextStart(p: PlayerState, s: Step)
    requires Quiet(p) && Enabled(p, s)
    ensures Quiet(Next(p, s))
    ensures Next(p, s).queue.scrobble.startTime == if Arms(p, s) then ArmedStart(p, s) else p.queue.scrobble.startTime
  {
    hide Deliver, Check, Happened, IsPlaying, IsValid, Rearms, NewTrack, Reported, PositionOf;
    match s.event
    case Signal(msg) =>
      SignalStart(p, msg, s.at);
      assert s == Step(Signal(msg), s.at);
    case Reload => ReloadStart(p, s.at);
    case _ =>
  }

  /** The start time after a run, by the last step that armed the timer. */
  ghost function StartAfter(start: int, p: PlayerState, steps: seq<Step>): int
    decreases |steps|
  {
    if steps == [] then start
    else StartAfter(if Arms(p, steps[0]) then ArmedStart(p, steps[0]) else start, Next(p, steps[0]), steps[1..])
  }

  /** Over every run the payload holds the start time of the step that armed its timer last. */
  lemma {:induction false} RunStart(p: PlayerState, clock: int, steps: seq<Step>)
    requires Quiet(p) && LegalRun(p, clock, steps)
    ensures Quiet(Run(p, steps))
    ensures Run(p, steps).queue.scrobble.startTime == StartAfter(p.queue.scrobble.startTime, p, steps)
    decreases |steps|
  {
    if steps != [] {
      hide Next, Arms, ArmedStart, Quiet, Enabled;
      NextStart(p, steps[0]);
      RunStart(Next(p, steps[0]), steps[0].at, steps[1..]);
    }
  }

  // ----- when it is zero -----

  predicate NothingToSetBack(played: real, at: int) { played <= 0.0 || played.Floor == at }

  /** An arming step that leaves no start time: a reload without a stored position, a resume without
      a play time, or a clock that reads just the whole seconds played, or has not started. */
  ghost predicate StartsAtZero(p: PlayerState, s: Step) {
    match s.event
    case Signal(msg) =>
      if NewTrack(p, msg) then if Reported(p, msg) > 0.0 then Reported(p, msg).Floor == s.at else s.at <= 0
      else NothingToSetBack(p.queue.scrobble.playTime, s.at)
    case _ => NothingToSetBack(PositionOf(p.props), s.at)
  }

  lemma ZeroExactly(p: PlayerState, s: Step)
    requires Arms(p, s)
    ensures ArmedStart(p, s) == 0 <==> StartsAtZero(p, s)
  {
    hide NewTrack, Reported, PositionOf, Arms;
  }

  /** Whether the last step that armed the timer left no start time. */
  ghost predicate ZeroAfter(zero: bool, p: PlayerState, steps: seq<Step>)
    decreases |steps|
  {
    if steps == [] then zero
    else ZeroAfter(if Arms(p, steps[0]) then StartsAtZero(p, steps[0]) else zero, Next(p, steps[0]), steps[1..])
  }

  lemma {:induction false} ZeroIsKept(start: int, p: PlayerState, steps: seq<Step>)
    ensures StartAfter(start, p, steps) == 0 <==> ZeroAfter(start == 0, p, steps)
    decreases |steps|
  {
    if steps != [] {
      hide Next, Arms, ArmedStart, StartsAtZero;
      var s := steps[0];
      if Arms(p, s) {
        ZeroExactly(p, s);
      }
      ZeroIsKept(if Arms(p, s) then ArmedStart(p, s) else start, Next(p, s), steps[1..]);
    }
  }

  /** Over every run the track of the queue timer has no start time exactly if the last step that
      armed the timer left none. */
  lemma RunStartIsZero(p: PlayerState, clock: int, steps: seq<Step>)
    requires Quiet(p) && LegalRun(p, clock, steps)
    ensures Run(p, steps).queue.scrobble.startTime == 0
            <==> ZeroAfter(p.queue.scrobble.startTime == 0, p, steps)
  {
    hide LegalRun, Run, Quiet, StartAfter, ZeroAfter;
    RunStart(p, clock, steps);
    ZeroIsKept(p.queue.scrobble.startTime, p, steps);
  }

  /** For instance a reload of any accounted track that plays with no stored position, which is how a
      new track leaves it: the start time is lost, the whole delay begins again, and the track passes
      the time test from then on, because its play time is counted from zero. */
  lemma ReloadLosesStart(p: PlayerState, clock: int, played: int, length: real, at: int, later: int)
    requires Accounted(p, clock, played, length) && IsPlaying(p.props) && PositionOf(p.props) <= 0.0
    requires length >= MIN_TRACK_LENGTH && at >= Bound(length)
    ensures var r := Check(p, at);
            && r.queue.scrobble.startTime == 0
            && r.queue.timer == Timer(true, Some(at + Bound(length)))
            && PlayedEnough(Queued(r.queue.scrobble, at), later)
  {
    hide Check, QueueDelay, IsPlaying, IsValid, PositionOf, LengthOf, PlayedEnough, Bound, Happened;
    ReloadArms(p, at);
    TargetIsPositive(length);
    ResumedDelay(length, 0);
    LongEnough(Check(p, at).queue.scrobble, at, later, length);
  }

  lemma ReloadArms(p: PlayerState, at: int)
    requires IsValid(p.id) && !p.id.ignored && IsPlaying(p.props) && PositionOf(p.props) <= 0.0
    ensures var r := Check(p, at);
            && r.queue.scrobble.startTime == 0 && r.queue.scrobble.length == LengthOf(p.props)
            && r.queue.timer == Timer(true, Some(at + QueueDelay(LengthOf(p.props), 0.0)))
  {
    AllChanged();
    LoadedTimes(p.props, AllFields(), 0, at, p.id.name);
    hide LoadScrobble, ChangedTrack, QueueDelay, IsPlaying, IsValid, PositionOf, AllFields, LengthOf;
  }
}
