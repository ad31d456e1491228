/**
  A player and its two timers, as a state machine: a property-change signal is merged and
  handled, the now-playing timer fires, the queue timer fires, and a reload arms both timers
  again (`src/scrobble.h`, `src/sevents.h`, `src/sdbus.h`). `Player` holds the program that is
  proved to take these steps.

  `now` is what `time(NULL)` returns, one value for all the readings in a step.
 */
module Playback {
  import opened Wrappers
  import opened Properties
  import opened Scrobbles

  /** A libevent timer: whether its struct is initialised, and when it is due if it is pending. */
  datatype Timer = Timer(initialised: bool, deadline: Option<int>)

  const NO_TIMER := Timer(false, None)

  predicate Pending(t: Timer) { t.deadline.Some? }

  predicate Due(t: Timer, now: int) { t.deadline.Some? && t.deadline.value <= now }

  /** `struct event_payload` */
  datatype Payload = Payload(scrobble: Scrobble, timer: Timer)

  /** What does not change during the life of a player. */
  datatype Identity = Identity(ignored: bool, mprisName: string, name: string, hasScrobbler: bool)

  /** `mpris_player_is_valid` */
  predicate IsValid(id: Identity) {
    |id.mprisName| > 1 && |id.name| > 0 && id.hasScrobbler
  }

  datatype PlayerState = PlayerState(
    id: Identity, props: Properties, changed: Mask, timestamp: int,
    nowPlaying: Payload, queue: Payload)

  /** A property-change message, decoded: the values and the mask that says which were loaded. */
  datatype Message = Message(props: Properties, loaded: Mask)

  // ----- arming -----

  /** `add_event_now_playing` */
  function AddNowPlaying(p: PlayerState, track: Scrobble, delay: int, now: int): PlayerState {
    if p.id.ignored then p
    else
      p.(nowPlaying := Payload(track.(position := track.position + delay as real,
                                      playTime := track.playTime + delay as real),
                               Timer(true, Some(now + delay))))
  }

  /** `add_event_queue` */
  function AddQueue(p: PlayerState, track: Scrobble, now: int): PlayerState {
    if p.id.ignored then p
    else p.(queue := Payload(track, Timer(true, Some(now + QueueDelay(track.length, track.playTime)))))
  }

  function Arm(p: PlayerState, track: Scrobble, now: int): PlayerState {
    AddQueue(AddNowPlaying(p, track, 0, now), track, now)
  }

  // ----- handling a signal -----

  /** The scrobble that the timers get: without a new track, the play time so far is kept. */
  function Resumed(s: Scrobble, prev: Scrobble, changed: Mask, now: int): Scrobble {
    if !ChangedTrack(changed) && s.playTime < 0.1 && prev.playTime > 0.0
    then s.(playTime := prev.playTime, startTime := now - prev.playTime.Floor)
    else s
  }

  /** The playing branch of `state_loaded_properties`. */
  function HandlePlaying(p: PlayerState, now: int): PlayerState {
    var s := LoadScrobble(p.props, p.changed, p.timestamp, now, p.id.name);
    var armed := if ChangedTrack(p.changed) || PlaybackStatus in p.changed
                 then Arm(p, Resumed(s, p.queue.scrobble, p.changed, now), now) else p;
    if ChangedTrack(p.changed) && Position !in p.changed
    then armed.(props := With(p.props, Position, Number(0))) else armed
  }

  /** What is left of the queue payload when its timer is removed: the time played so far. */
  function Stopped(q: Payload, now: int): Payload {
    if !q.timer.initialised then q
    else
      Payload(if q.scrobble.startTime > 0
              then q.scrobble.(playTime := (now - q.scrobble.startTime) as real) else q.scrobble,
              NO_TIMER)
  }

  /** The other branch. */
  function HandleStopped(p: PlayerState, now: int): PlayerState {
    p.(nowPlaying := if p.nowPlaying.timer.initialised then p.nowPlaying.(timer := NO_TIMER) else p.nowPlaying,
       queue := Stopped(p.queue, now))
  }

  /** `state_loaded_properties` */
  function Handle(p: PlayerState, now: int): PlayerState {
    if p.id.ignored || !Happened(p.changed) then p
    else
      var handled := if IsPlaying(p.props) then HandlePlaying(p, now) else HandleStopped(p, now);
      handled.(changed := {}, timestamp := 0)
  }

  /** The merging part of `add_filter`. */
  function Merged(p: PlayerState, msg: Message, now: int): PlayerState {
    var m := MergeInto(p.props, msg.props, msg.loaded);
    p.(props := m.props, changed := p.changed + m.mask, timestamp := now)
  }

  /** A signal from a known player. A message that loads nothing, and one for an ignored player,
      goes no further. */
  function Deliver(p: PlayerState, msg: Message, now: int): PlayerState {
    if msg.loaded == {} || p.id.ignored then p
    else if IsValid(p.id) then Handle(Merged(p, msg, now), now)
    else Merged(p, msg, now)
  }

  /** `check_player`, at start and on a reload. */
  function Check(p: PlayerState, now: int): PlayerState {
    if !IsValid(p.id) || !IsPlaying(p.props) || p.id.ignored then p
    else Arm(p, LoadScrobble(p.props, AllFields(), 0, now, p.id.name), now)
  }

  /** `mpris_load_all` */
  function AllFields(): (m: Mask)
    ensures forall f: Field :: f in m
  {
    set f: Field | Index(f) < |FIELDS|
  }

  // ----- the timers -----

  /** libevent takes the event off before it calls back. */
  function Fired(t: Timer): Timer { t.(deadline := None) }

  /** `send_now_playing` */
  function FireNowPlaying(p: PlayerState, now: int): PlayerState {
    var q := p.(nowPlaying := p.nowPlaying.(timer := Fired(p.nowPlaying.timer)));
    var track := q.nowPlaying.scrobble;
    if track.position > track.length || !IsValid(q.id) then q
    else if track.position + NOW_PLAYING_DELAY < track.length then AddNowPlaying(q, track, 65, now)
    else q
  }

  /** The submission that it attempts, if any. */
  function NowPlayingAttempt(p: PlayerState): seq<Scrobble> {
    var track := p.nowPlaying.scrobble;
    if track.position > track.length || !IsValid(p.id) then [] else [track]
  }

  /** `queue`: the payload enters the queue. */
  function FireQueue(p: PlayerState): PlayerState {
    p.(queue := p.queue.(timer := Fired(p.queue.timer)))
  }

  // ----- runs -----

  datatype Event =
    | Signal(msg: Message)
    | NowPlayingTimer
    | QueueTimer
    | Reload

  datatype Step = Step(event: Event, at: int)

  /** A timer fires only when it is due. */
  predicate Enabled(p: PlayerState, s: Step) {
    match s.event
    case NowPlayingTimer => Due(p.nowPlaying.timer, s.at)
    case QueueTimer => Due(p.queue.timer, s.at)
    case _ => true
  }

  function Next(p: PlayerState, s: Step): PlayerState {
    match s.event
    case Signal(msg) => Deliver(p, msg, s.at)
    case NowPlayingTimer => FireNowPlaying(p, s.at)
    case QueueTimer => FireQueue(p)
    case Reload => Check(p, s.at)
  }

  /** Time does not run backwards, and the clock has started. */
  ghost predicate LegalRun(p: PlayerState, clock: int, steps: seq<Step>)
    decreases |steps|
  {
    steps == [] ||
    (clock <= steps[0].at && Enabled(p, steps[0]) && LegalRun(Next(p, steps[0]), steps[0].at, steps[1..]))
  }

  function Run(p: PlayerState, steps: seq<Step>): PlayerState
    decreases |steps|
  {
    if steps == [] then p else Run(Next(p, steps[0]), steps[1..])
  }
}
