/**
  What happens after the queue timer has fired: nothing records that a track was submitted, so
  the same track is submitted again. Which steps arm the timer again, and a run that does it.
 */
module Resubmission {
  import opened Properties
  import opened Credentials
  import opened Scrobbles
  import opened Queue
  import opened Playback
  import opened PlaybackRuns

  /** The message says something new that a playing track is armed for. */
  ghost predicate Rearms(p: PlayerState, msg: Message) {
    && msg.loaded != {}
    && (if PlaybackStatus in msg.loaded then IsPlaying(msg.props) else IsPlaying(p.props))
    && exists f: Field :: (f == PlaybackStatus || IsTrackField(f)) && f in msg.loaded && At(msg.props, f) != At(p.props, f)
  }

  lemma StatusAfter(p: PlayerState, msg: Message, now: int)
    ensures IsPlaying(Merged(p, msg, now).props)
            <==> if PlaybackStatus in msg.loaded then IsPlaying(msg.props) else IsPlaying(p.props)
  {
    hide Merged, IsPlaying, Matters, IsTrackField;
    StatusMatters();
    MergedField(p, msg, now, PlaybackStatus);
    PlayingIs(Merged(p, msg, now).props);
    PlayingIs(msg.props);
    PlayingIs(p.props);
  }

  /** What a merge into a mask without pending changes leaves there of a field that matters. */
  lemma NewlyChanged(p: PlayerState, msg: Message, now: int, f: Field)
    requires !Happened(p.changed) && Matters(f)
    ensures f in Merged(p, msg, now).changed <==> f in msg.loaded && At(msg.props, f) != At(p.props, f)
  {
    hide Merged, Happened, Matters;
    HappenedExact(p.changed);
    MergedField(p, msg, now, f);
  }

  lemma SignalRearms(p: PlayerState, msg: Message, now: int)
    requires !Happened(p.changed) && msg.loaded != {}
    ensures var q := Merged(p, msg, now);
            Rearms(p, msg) <==> IsPlaying(q.props) && (ChangedTrack(q.changed) || PlaybackStatus in q.changed)
    ensures var q := Merged(p, msg, now);
            ChangedTrack(q.changed) || PlaybackStatus in q.changed ==> Happened(q.changed)
  {
    hide Merged, Happened, ChangedTrack, IsPlaying, Matters, IsTrackField;
    var q := Merged(p, msg, now);
    StatusMatters();
    StatusAfter(p, msg, now);
    ChangedTrackExact(q.changed);
    HappenedExact(q.changed);
    forall f: Field | f == PlaybackStatus || IsTrackField(f)
      ensures f in q.changed <==> f in msg.loaded && At(msg.props, f) != At(p.props, f)
    {
      NewlyChanged(p, msg, now, f);
    }
  }

  /** Handling leaves a queue timer pending exactly if it armed it. */
  lemma HandlingArms(q: PlayerState, now: int)
    requires !q.id.ignored && !Pending(q.queue.timer)
    requires ChangedTrack(q.changed) || PlaybackStatus in q.changed ==> Happened(q.changed)
    ensures Pending(Handle(q, now).queue.timer)
            <==> IsPlaying(q.props) && (ChangedTrack(q.changed) || PlaybackStatus in q.changed)
  {
    hide LoadScrobble, Happened, ChangedTrack, QueueDelay, IsPlaying, Resumed;
  }

  /** Without a pending queue timer, because it has fired or for any other reason, exactly these
      steps arm it: a reload while the track plays, and a signal that leaves the player playing and
      changes its status or a track field. Whether the track was submitted plays no part. */
  lemma ArmsExactly(p: PlayerState, s: Step)
    requires IsValid(p.id) && !p.id.ignored && !Happened(p.changed) && !Pending(p.queue.timer) && Enabled(p, s)
    ensures Pending(Next(p, s).queue.timer) <==>
              || (s.event.Reload? && IsPlaying(p.props))
              || (s.event.Signal? && Rearms(p, s.event.msg))
  {
    hide Merged, Happened, ChangedTrack, IsPlaying, IsValid, Handle, LoadScrobble, QueueDelay, Rearms;
    match s.event
    case Signal(msg) =>
      if msg.loaded != {} {
        SignalRearms(p, msg, s.at);
        MergedKeeps(p, msg, s.at);
        HandlingArms(Merged(p, msg, s.at), s.at);
      } else {
        NothingRearms(p, msg);
      }
    case _ =>
  }

  lemma NothingRearms(p: PlayerState, msg: Message)
    requires msg.loaded == {}
    ensures !Rearms(p, msg)
  {
  }

  // ----- a run in which it happens -----

  const PAUSE := Message(map[PlaybackStatus := Text("Paused")], {PlaybackStatus})
  const RESUME := Message(map[PlaybackStatus := Text("Playing")], {PlaybackStatus})

  lemma PauseAndResume(p: PlayerState, at: int)
    ensures Pauses(p, PAUSE, at) && Resumes(p, RESUME, at)
  {
    hide Merged, IsTrackField, Matters;
    StatusMatters();
    StatusAfter(p, PAUSE, at);
    StatusAfter(p, RESUME, at);
    OtherStatus();
  }

  lemma OtherStatus()
    ensures !IsPlaying(PAUSE.props) && IsPlaying(RESUME.props)
  {
    assert "Paused" != "Playing" by { assert |"Paused"| != |"Playing"|; }
  }

  /** The same title, album and first artist. */
  ghost predicate Describes(s: Scrobble, p: Properties) {
    && s.title == TextOf(p, Title) && s.album == TextOf(p, Album)
    && First(s.artist) == First(TextsOf(p, Artist))
  }

  lemma LoadedDescribes(p: Properties, mask: Mask, timestamp: int, now: int, name: string)
    ensures Describes(LoadScrobble(p, mask, timestamp, now, name), p)
  {
    hide ChangedTrack, IsPlaying, TextOf, TextsOf, LengthOf, NumberOf;
  }

  /** A signal that changes the status only keeps what describes the track. */
  lemma SameDescription(p: PlayerState, msg: Message, now: int, s: Scrobble)
    requires SameTrack(p, msg)
    ensures Describes(s, Merged(p, msg, now).props) <==> Describes(s, p.props)
  {
    hide Merged, Matters, IsTrackField;
    DescriptionMatters();
    StatusMatters();
    MergedField(p, msg, now, Title);
    MergedField(p, msg, now, Album);
    MergedField(p, msg, now, Artist);
  }

  lemma DescriptionMatters()
    ensures IsTrackField(Title) && IsTrackField(Album) && IsTrackField(Artist)
  {
  }

  /** A resume arms the queue timer for the track as its properties describe it. */
  lemma ResumeDescribes(q: PlayerState, at: int)
    requires Happened(q.changed) && IsPlaying(q.props) && PlaybackStatus in q.changed && !q.id.ignored
    ensures Describes(Handle(q, at).queue.scrobble, q.props)
  {
    LoadedDescribes(q.props, q.changed, q.timestamp, at, q.id.name);
    hide Happened, ChangedTrack, IsPlaying, LoadScrobble, QueueDelay;
  }

  /** Beyond the bound nothing is missing. */
  lemma NoDelay(length: real, played: int)
    requires length > 0.1 && played >= Bound(length)
    ensures QueueDelay(length, played as real) == 0
  {
    assert played as real >= Target(length);
    hide Target;
  }

  function AgainSteps(fired: int, at1: int, at2: int): seq<Step> {
    [Step(QueueTimer, fired), Step(Signal(PAUSE), at1), Step(Signal(RESUME), at2), Step(QueueTimer, at2)]
  }

  /** The player after each of these steps. */
  lemma AgainRun(p: PlayerState, clock: int, fired: int, at1: int, at2: int)
    requires clock <= fired <= at1 <= at2 && Due(p.queue.timer, fired)
    ensures Due(Deliver(Deliver(FireQueue(p), PAUSE, at1), RESUME, at2).queue.timer, at2)
            ==> LegalRun(p, clock, AgainSteps(fired, at1, at2))
    ensures Run(p, AgainSteps(fired, at1, at2)[..3]) == Deliver(Deliver(FireQueue(p), PAUSE, at1), RESUME, at2)
  {
    hide Deliver, FireQueue;
    var steps := AgainSteps(fired, at1, at2);
    var s0, s1, s2, s3 := steps[0], steps[1], steps[2], steps[3];
    var p1 := FireQueue(p);
    var p2 := Deliver(p1, PAUSE, at1);
    var p3 := Deliver(p2, RESUME, at2);
    assert steps[1..] == [s1, s2, s3] && [s1, s2, s3][1..] == [s2, s3] && [s2, s3][1..] == [s3] && [s3][1..] == [];
    if Due(p3.queue.timer, at2) {
      assert LegalRun(p3, at2, [s3]);
      assert LegalRun(p2, at1, [s2, s3]);
      assert LegalRun(p1, fired, [s1, s2, s3]);
    }
    assert steps[..3] == [s0, s1, s2] && [s0, s1, s2][1..] == [s1, s2] && [s1, s2][1..] == [s2] && [s2][1..] == [];
    assert Run(p2, [s2]) == Run(p3, []) == p3;
    assert Run(p1, [s1, s2]) == Run(p2, [s2]);
  }

  /** Any accounted player that plays a track of 30 seconds or more, whenever its queue timer fires and
      however long after that the track is paused and resumed: the timer is due again at the resume,
      and both times the track passes the tests of the services, for the same title, album and
      artist. */
  lemma SubmittedTwice(p: PlayerState, clock: int, played: int, length: real, fired: int, at1: int, at2: int, later: int)
    requires Accounted(p, clock, played, length) && length >= MIN_TRACK_LENGTH
    requires clock <= fired <= at1 <= at2 && Due(p.queue.timer, fired) && Describes(p.queue.scrobble, p.props)
    ensures var steps := AgainSteps(fired, at1, at2);
            var again := Run(p, steps[..3]);
            var first, second := Queued(p.queue.scrobble, fired), Queued(again.queue.scrobble, at2);
            && LegalRun(p, clock, steps)
            && first.title == second.title && first.album == second.album
            && First(first.artist) == First(second.artist)
            && forall e: ApiType, s | s == first || s == second ::
                 |s.title| > 0 && |First(s.artist)| > 0 && |s.album| > 0 ==> IsAccepted(ScrobbleRequest, s, e, later)
  {
    hide Deliver, LegalRun, Run, AgainSteps, IsPlaying, PlayedEnough, LengthOf, Bound, Target, Describes, Happened,
         IsValid, IsAccepted;
    var p1 := FireQueue(p);
    var start := p.queue.scrobble.startTime;
    var p2, p3 := Deliver(p1, PAUSE, at1), Deliver(Deliver(p1, PAUSE, at1), RESUME, at2);
    PausedAgain(p1, at1);
    ResumedAgain(p2, at1 - start, length, at2);
    AgainRun(p, clock, fired, at1, at2);
    SameDescriptions(p.queue.scrobble, p3.queue.scrobble, p1.props);
    LongEnough(p.queue.scrobble, fired, later, length);
    LongEnough(p3.queue.scrobble, at2, later, length);
    AcceptedIfLong(Queued(p.queue.scrobble, fired), later);
    AcceptedIfLong(Queued(p3.queue.scrobble, at2), later);
  }

  lemma SameDescriptions(s: Scrobble, t: Scrobble, p: Properties)
    requires Describes(s, p) && Describes(t, p)
    ensures s.title == t.title && s.album == t.album && First(s.artist) == First(t.artist)
  {
  }

  lemma LongEnough(s: Scrobble, fired: int, later: int, length: real)
    requires s.length == length >= MIN_TRACK_LENGTH && fired - s.startTime >= Bound(length)
    ensures PlayedEnough(Queued(s, fired), later)
  {
    TargetBounds(length);
    assert (fired - s.startTime) as real >= Target(length);
    hide Target;
    PlayedEnoughExactly(Queued(s, fired), later);
    hide PlayedEnough;
  }

  lemma AcceptedIfLong(s: Scrobble, later: int)
    requires s.length >= MIN_TRACK_LENGTH && PlayedEnough(s, later)
    ensures forall e: ApiType | |s.title| > 0 && |First(s.artist)| > 0 && |s.album| > 0 ::
              IsAccepted(ScrobbleRequest, s, e, later)
  {
    hide PlayedEnough;
  }

  lemma PausedAgain(p: PlayerState, at: int)
    requires IsValid(p.id) && !p.id.ignored && !Happened(p.changed) && IsPlaying(p.props)
    requires p.queue.timer.initialised && p.queue.scrobble.startTime > 0
    ensures var r := Deliver(p, PAUSE, at);
            && r.id == p.id && !IsPlaying(r.props) && r.changed == {} && LengthOf(r.props) == LengthOf(p.props)
            && r.queue.scrobble.playTime == (at - p.queue.scrobble.startTime) as real
            && forall s :: Describes(s, r.props) <==> Describes(s, p.props)
  {
    hide Merged, Happened, IsPlaying, IsValid, LengthOf, ChangedTrack, Handle, Describes;
    var q := Merged(p, PAUSE, at);
    PauseAndResume(p, at);
    MergedKeeps(p, PAUSE, at);
    SameTrackMask(p, PAUSE, at);
    StatusChangeHappens(p, PAUSE, at);
    PauseHandled(q, at);
    forall s
      ensures Describes(s, q.props) <==> Describes(s, p.props)
    {
      SameDescription(p, PAUSE, at, s);
    }
    assert Deliver(p, PAUSE, at) == Handle(q, at);
  }

  lemma ResumedAgain(p: PlayerState, played: int, length: real, at: int)
    requires IsValid(p.id) && !p.id.ignored && p.changed == {} && !IsPlaying(p.props)
    requires length > 0.1 && LengthOf(p.props) == length
    requires p.queue.scrobble.playTime == played as real && played >= Bound(length)
    ensures var r := Deliver(p, RESUME, at);
            && Due(r.queue.timer, at)
            && r.queue.scrobble.startTime == at - played && r.queue.scrobble.length == length
            && Describes(r.queue.scrobble, p.props)
  {
    hide Merged, Happened, IsPlaying, IsValid, LengthOf, ChangedTrack, Handle, Describes, QueueDelay, Target;
    var q := Merged(p, RESUME, at);
    NothingChanged();
    TargetIsPositive(length);
    PauseAndResume(p, at);
    MergedKeeps(p, RESUME, at);
    SameTrackMask(p, RESUME, at);
    StatusChangeHappens(p, RESUME, at);
    ResumeHandled(q, played, at);
    ResumeDescribes(q, at);
    SameDescription(p, RESUME, at, Handle(q, at).queue.scrobble);
    NoDelay(length, played);
    assert Deliver(p, RESUME, at) == Handle(q, at);
  }
}
