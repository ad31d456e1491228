/**
  Players and the queue together: any number of players share one queue, and every queue timer
  that fires appends its track and hands the queue over.
 */
module PlayerDelivery {
  import opened Credentials
  import opened Scrobbles
  import opened Queue
  import opened Playback
  import opened PlaybackRuns
  import opened Signature
  import opened SignatureOrder
  import opened SignatureBody

  /** A step of one of the players. */
  datatype Turn = Turn(player: nat, step: Step)

  predicate PlayersLongEnough(players: seq<PlayerState>) {
    forall k | 0 <= k < |players| :: ArmedLongEnough(players[k].queue)
  }

  function NextPlayers(players: seq<PlayerState>, turn: Turn): seq<PlayerState>
    requires turn.player < |players|
  {
    players[turn.player := Next(players[turn.player], turn.step)]
  }

  /** Time does not run backwards, and timers fire only when they are due. */
  ghost predicate LegalTurns(players: seq<PlayerState>, clock: int, turns: seq<Turn>)
    decreases |turns|
  {
    turns == [] ||
    var turn := turns[0];
    && turn.player < |players| && clock <= turn.step.at && Enabled(players[turn.player], turn.step)
    && LegalTurns(NextPlayers(players, turn), turn.step.at, turns[1..])
  }

  /** What a step of a player does to the queue: `queue` appends and consumes. */
  function StepsOfTurn(p: PlayerState, s: Step): seq<QueueStep> {
    if s.event.QueueTimer? && p.id.hasScrobbler
    then [AppendStep(p.queue.scrobble, s.at), ConsumeStep(s.at)]
    else []
  }

  function StepsOfTurns(players: seq<PlayerState>, clock: int, turns: seq<Turn>): seq<QueueStep>
    requires LegalTurns(players, clock, turns)
    decreases |turns|
  {
    if turns == [] then []
    else
      var turn := turns[0];
      StepsOfTurn(players[turn.player], turn.step)
      + StepsOfTurns(NextPlayers(players, turn), turn.step.at, turns[1..])
  }

  /** Whenever a queue timer fires, a track that is long enough has been played for a second. */
  lemma {:induction false} AppendsAreLate(players: seq<PlayerState>, clock: int, turns: seq<Turn>)
    requires PlayersLongEnough(players) && 0 <= clock && LegalTurns(players, clock, turns)
    ensures LateAppends(StepsOfTurns(players, clock, turns))
    decreases |turns|
  {
    if turns != [] {
      hide Next, ArmedLongEnough;
      var turn := turns[0];
      var p := players[turn.player];
      TurnIsLate(p, turn.step);
      NextIsLongEnough(p, turn.step);
      AppendsAreLate(NextPlayers(players, turn), turn.step.at, turns[1..]);
    }
  }

  lemma TurnIsLate(p: PlayerState, s: Step)
    requires ArmedLongEnough(p.queue) && Enabled(p, s)
    ensures LateAppends(StepsOfTurn(p, s))
  {
    hide Target;
  }

  lemma {:induction false} RunQueueAppend(q: QueueRun, a: seq<QueueStep>, b: seq<QueueStep>, creds: seq<ApiCredentials>)
    ensures RunQueue(q, a + b, creds) == RunQueue(RunQueue(q, a, creds), b, creds)
    decreases |a|
  {
    hide StepQueue;
    if a == [] {
      assert a + b == b;
    } else {
      assert (a + b)[1..] == a[1..] + b && (a + b)[0] == a[0];
      RunQueueAppend(StepQueue(q, a[0], creds), a[1..], b, creds);
    }
  }

  lemma TurnLeavesNothing(p: PlayerState, s: Step, q: QueueRun, creds: seq<ApiCredentials>)
    requires q.pending == []
    ensures RunQueue(q, StepsOfTurn(p, s), creds).pending == []
  {
    hide Requests, Queued;
    var steps := StepsOfTurn(p, s);
    if steps != [] {
      var first, last := steps[0], steps[1];
      assert steps[1..] == [last] && [last][1..] == [];
      assert RunQueue(StepQueue(q, first, creds), [last], creds) == StepQueue(StepQueue(q, first, creds), last, creds);
    }
  }

  /** The queue is empty between the steps of the players, so everything was handed over. */
  lemma {:induction false} NothingStaysPending(players: seq<PlayerState>, clock: int, turns: seq<Turn>, q: QueueRun,
                                               creds: seq<ApiCredentials>)
    requires q.pending == [] && LegalTurns(players, clock, turns)
    ensures RunQueue(q, StepsOfTurns(players, clock, turns), creds).pending == []
    decreases |turns|
  {
    if turns != [] {
      var turn := turns[0];
      var steps := StepsOfTurn(players[turn.player], turn.step);
      var rest := StepsOfTurns(NextPlayers(players, turn), turn.step.at, turns[1..]);
      RunQueueAppend(q, steps, rest, creds);
      TurnLeavesNothing(players[turn.player], turn.step, q, creds);
      hide Next, NextPlayers, Requests, RunQueue, StepsOfTurn;
      NothingStaysPending(NextPlayers(players, turn), turn.step.at, turns[1..], RunQueue(q, steps, creds), creds);
    }
  }

  /** From the start, over any legal run of any number of players: all that their queue timers
      appended has been handed over, and each enabled and valid entry has received exactly the part
      that its service accepts, each track once and in order. */
  lemma PlayersDeliver(players: seq<PlayerState>, clock: int, turns: seq<Turn>, creds: seq<ApiCredentials>,
                       c: ApiCredentials, i: nat, now: int)
    requires PlayersLongEnough(players) && 0 <= clock && LegalTurns(players, clock, turns)
    requires c.enabled && CredentialsValid(c) && OnlyAt(creds, c, i)
    ensures var r := RunQueue(QueueRun([], [], [], []), StepsOfTurns(players, clock, turns), creds);
            && r.pending == [] && r.consumed == r.appended
            && Received(r.requests, c) == Accepted(ScrobbleRequest, r.appended, c.endPoint, now)
  {
    hide RunQueue, StepsOfTurns, CredentialsValid, OnlyAt, LegalTurns;
    var q := QueueRun([], [], [], []);
    var steps := StepsOfTurns(players, clock, turns);
    AppendsAreLate(players, clock, turns);
    NothingStaysPending(players, clock, turns, q, creds);
    QueueConserves(q, steps, creds);
    RunDelivers(q, steps, creds, c, i, now);
    var r := RunQueue(q, steps, creds);
    assert r.consumed + [] == r.consumed;
  }

  // ----- what the requests hold -----

  ghost predicate OneTrackEach(requests: seq<Request>) {
    forall r | r in requests :: |r.tracks| == 1
  }

  lemma OneAtATime(track: Scrobble, creds: seq<ApiCredentials>, at: int)
    ensures OneTrackEach(Requests(ScrobbleRequest, [track], creds, at))
  {
    hide Requests, CredentialsValid, IsAccepted;
    forall r | r in Requests(ScrobbleRequest, [track], creds, at)
      ensures |r.tracks| == 1
    {
      RequestsExact(ScrobbleRequest, [track], creds, at, r);
      assert [track][..0] == [];
    }
  }

  lemma TurnSendsOne(p: PlayerState, s: Step, q: QueueRun, creds: seq<ApiCredentials>)
    requires q.pending == [] && OneTrackEach(q.requests)
    ensures OneTrackEach(RunQueue(q, StepsOfTurn(p, s), creds).requests)
  {
    hide Requests, Queued;
    var steps := StepsOfTurn(p, s);
    if steps != [] {
      var first, last := steps[0], steps[1];
      assert steps[1..] == [last] && [last][1..] == [];
      var q1 := StepQueue(q, first, creds);
      assert q1.pending == [Queued(p.queue.scrobble, s.at)];
      OneAtATime(Queued(p.queue.scrobble, s.at), creds, s.at);
      assert RunQueue(q1, [last], creds) == StepQueue(q1, last, creds);
    }
  }

  /** No queue timer leaves a track behind for another, so every scrobble request holds one track. */
  lemma {:induction false} RequestsHoldOneTrack(players: seq<PlayerState>, clock: int, turns: seq<Turn>, q: QueueRun,
                                                creds: seq<ApiCredentials>)
    requires q.pending == [] && OneTrackEach(q.requests) && LegalTurns(players, clock, turns)
    ensures OneTrackEach(RunQueue(q, StepsOfTurns(players, clock, turns), creds).requests)
    decreases |turns|
  {
    if turns != [] {
      hide Next, NextPlayers, RunQueue, StepsOfTurn, OneTrackEach;
      var turn := turns[0];
      var steps := StepsOfTurn(players[turn.player], turn.step);
      var rest := StepsOfTurns(NextPlayers(players, turn), turn.step.at, turns[1..]);
      RunQueueAppend(q, steps, rest, creds);
      TurnLeavesNothing(players[turn.player], turn.step, q, creds);
      TurnSendsOne(players[turn.player], turn.step, q, creds);
      RequestsHoldOneTrack(NextPlayers(players, turn), turn.step.at, turns[1..], RunQueue(q, steps, creds), creds);
    } else {
      NothingRuns(q, creds);
    }
  }

  lemma NothingRuns(q: QueueRun, creds: seq<ApiCredentials>)
    ensures RunQueue(q, [], creds) == q
  {
  }

  /** From the start, over any legal run: every scrobble request that is sent signs the string that the
      specification names. */
  lemma PlayersSignAsSpecified(players: seq<PlayerState>, clock: int, turns: seq<Turn>, creds: seq<ApiCredentials>,
                               r: Request, inOrder: seq<Param>)
    requires LegalTurns(players, clock, turns)
    requires r in RunQueue(QueueRun([], [], [], []), StepsOfTurns(players, clock, turns), creds).requests
    ensures var params := ScrobbleParams(r.tracks, r.credentials.apiKey, r.credentials.sessionKey);
            Ascending(inOrder) && multiset(inOrder) == multiset(params) ==> SigBaseOf(inOrder) == SigBaseOf(params)
  {
    hide RunQueue, StepsOfTurns, LegalTurns, ScrobbleParams, NowPlayingParams, Ascending, SigBaseOf;
    RequestsHoldOneTrack(players, clock, turns, QueueRun([], [], [], []), creds);
    var params := ScrobbleParams(r.tracks, r.credentials.apiKey, r.credentials.sessionKey);
    if Ascending(inOrder) && multiset(inOrder) == multiset(params) {
      ScrobbleOrderExact(r.tracks, r.credentials.apiKey, r.credentials.sessionKey);
      OrderIsUnique(inOrder, params);
    }
  }

  /** And it is built within its arrays, because it holds one track. */
  lemma PlayersBuild(players: seq<PlayerState>, clock: int, turns: seq<Turn>, creds: seq<ApiCredentials>,
                     r: Request, esc: string -> string)
    requires LegalTurns(players, clock, turns)
    requires r in RunQueue(QueueRun([], [], [], []), StepsOfTurns(players, clock, turns), creds).requests
    requires (forall t | t in r.tracks :: BytesHeld(t)) && CredentialsHeld(r.credentials, esc)
    ensures Buildable(ScrobbleParams(r.tracks, r.credentials.apiKey, r.credentials.sessionKey), r.credentials, esc)
  {
    hide RunQueue, StepsOfTurns, LegalTurns, ScrobbleParams, Buildable, BytesHeld, CredentialsHeld;
    RequestsHoldOneTrack(players, clock, turns, QueueRun([], [], [], []), creds);
    assert r.tracks == [r.tracks[0]] && r.tracks[0] in r.tracks;
    OneTrackIsBuildable(r.tracks[0], r.credentials, esc);
  }
}
