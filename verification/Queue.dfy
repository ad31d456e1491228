/**
  The scrobble queue and the dispatch of requests to the services (`src/scrobble.h`,
  `src/scrobbler.h`). A request is what reaches a service: which credentials, of which kind,
  with which tracks.
 */
module Queue {
  import opened Credentials
  import opened Scrobbles

  const MAX_QUEUE_LENGTH := 32

  datatype Request = Request(credentials: ApiCredentials, kind: RequestType, tracks: seq<Scrobble>)

  // ----- on values -----

  /** The track as it enters the queue: its play time is the time since its start. */
  function Queued(track: Scrobble, now: int): Scrobble {
    track.(playTime := (now - track.startTime) as real)
  }

  /** The tracks that a service accepts, in order. */
  function Accepted(kind: RequestType, tracks: seq<Scrobble>, e: ApiType, now: int): seq<Scrobble> {
    if tracks == [] then []
    else
      var last := tracks[|tracks| - 1];
      Accepted(kind, tracks[..|tracks| - 1], e, now) + if IsAccepted(kind, last, e, now) then [last] else []
  }

  /** The request for one entry of the credentials, if any. */
  function RequestFor(kind: RequestType, tracks: seq<Scrobble>, c: ApiCredentials, now: int): seq<Request> {
    var accepted := Accepted(kind, tracks, c.endPoint, now);
    if c.enabled && CredentialsValid(c) && accepted != [] then [Request(c, kind, accepted)] else []
  }

  /** All requests, in the order of the credentials. */
  function Requests(kind: RequestType, tracks: seq<Scrobble>, creds: seq<ApiCredentials>, now: int): seq<Request> {
    if creds == [] then []
    else Requests(kind, tracks, creds[..|creds| - 1], now) + RequestFor(kind, tracks, creds[|creds| - 1], now)
  }

  // ----- the program -----

  class Scrobbler {
    const entries: array<Scrobble>
    var length: nat
    var credentials: seq<ApiCredentials>
    var requests: seq<Request>

    ghost predicate Valid()
      reads this
    {
      entries.Length == MAX_QUEUE_LENGTH && length < MAX_QUEUE_LENGTH
    }

    ghost function Pending(): seq<Scrobble>
      requires Valid()
      reads this, entries
    {
      entries[..length]
    }

    constructor (credentials: seq<ApiCredentials>)
      ensures Valid() && Pending() == [] && requests == [] && this.credentials == credentials && fresh(entries)
    {
      entries := new Scrobble[MAX_QUEUE_LENGTH](_ => ZERO_SCROBBLE);
      length := 0;
      this.credentials := credentials;
      requests := [];
    }

    /** `queue_append`. There has to be room: the assertion after it is `length < MAX_QUEUE_LENGTH`. */
    method Append(track: Scrobble, now: int)
      requires Valid() && length + 1 < 32
      modifies this`length, entries
      ensures Valid() && Pending() == old(Pending()) + [Queued(track, now)]
    {
      var top := length;
      entries[top] := track;
      entries[top] := entries[top].(playTime := (now - entries[top].startTime) as real);
      length := length + 1;
    }

    /** The inner loop of `api_request_do`: the accepted tracks are put side by side. */
    method Filter(kind: RequestType, tracks: array<Scrobble>, count: nat, e: ApiType, now: int)
      returns (current: array<Scrobble>, currentCount: nat)
      requires count <= tracks.Length <= MAX_QUEUE_LENGTH
      ensures fresh(current) && currentCount <= current.Length
      ensures current[..currentCount] == Accepted(kind, tracks[..count], e, now)
    {
      current := new Scrobble[MAX_QUEUE_LENGTH](_ => ZERO_SCROBBLE);
      currentCount := 0;
      var ti := 0;
      while ti < count
        invariant 0 <= ti <= count && currentCount <= ti
        invariant current[..currentCount] == Accepted(kind, tracks[..ti], e, now)
      {
        assert tracks[..ti + 1][..ti] == tracks[..ti];
        var track := tracks[ti];
        if IsAccepted(kind, track, e, now) {
          current[currentCount] := track;
          currentCount := currentCount + 1;
        }
        ti := ti + 1;
      }
    }

    /** `api_request_do` */
    method ApiRequestDo(kind: RequestType, tracks: array<Scrobble>, count: nat, now: int)
      requires count <= tracks.Length <= MAX_QUEUE_LENGTH
      modifies this`requests
      ensures requests == old(requests) + Requests(kind, tracks[..count], credentials, now)
    {
      hide Accepted, CredentialsValid;
      if |credentials| == 0 { return; }
      var i := 0;
      while i < |credentials|
        invariant 0 <= i <= |credentials|
        invariant requests == old(requests) + Requests(kind, tracks[..count], credentials[..i], now)
      {
        assert credentials[..i + 1][..i] == credentials[..i];
        var cur := credentials[i];
        i := i + 1;
        if !cur.enabled { continue; }
        if !CredentialsValid(cur) { continue; }
        var current, currentCount := Filter(kind, tracks, count, cur.endPoint, now);
        if currentCount == 0 { continue; }
        requests := requests + [Request(cur, kind, current[..currentCount])];
      }
      assert credentials[..i] == credentials;
    }

    /** `scrobbler_consume_queue`: everything is handed over, and the queue is emptied. */
    method ConsumeQueue(now: int) returns (consumed: nat)
      requires Valid()
      modifies this`length, this`requests, entries
      ensures Valid() && Pending() == [] && consumed == |old(Pending())|
      ensures requests == old(requests) + Requests(ScrobbleRequest, old(Pending()), credentials, now)
    {
      consumed := 0;
      var top := length - 1;
      var tracks := new Scrobble[MAX_QUEUE_LENGTH](_ => ZERO_SCROBBLE);
      var pos := top;
      while pos >= 0
        invariant -1 <= pos <= top == length - 1 && consumed == top - pos
        invariant length == old(length) && requests == old(requests) && entries[..] == old(entries[..])
        invariant forall k | pos < k <= top :: tracks[k] == entries[k]
      {
        tracks[pos] := entries[pos];
        consumed := consumed + 1;
        pos := pos - 1;
      }
      assert tracks[..consumed] == entries[..length] == old(Pending());
      if consumed > 0 {
        ApiRequestDo(ScrobbleRequest, tracks, consumed, now);
      } else {
        NothingToRequest(ScrobbleRequest, credentials, now);
      }
      pos := top;
      while pos >= 0
        invariant -1 <= pos <= top && length == pos + 1
        invariant requests == old(requests) + Requests(ScrobbleRequest, old(Pending()), credentials, now)
      {
        entries[pos] := ZERO_SCROBBLE;
        length := length - 1;
        pos := pos - 1;
      }
    }
  }

  lemma {:induction false} NothingToRequest(kind: RequestType, creds: seq<ApiCredentials>, now: int)
    ensures Requests(kind, [], creds, now) == []
  {
    if creds != [] {
      NothingToRequest(kind, creds[..|creds| - 1], now);
    }
  }

  // ----- what each service receives -----

  /** `part` is `whole` with some elements left out: `kept` says which stay. */
  ghost predicate Subsequence<T>(part: seq<T>, whole: seq<T>)
  {
    part == [] ||
    (whole != [] && (Subsequence(part, whole[..|whole| - 1]) ||
                     (part[|part| - 1] == whole[|whole| - 1] &&
                      Subsequence(part[..|part| - 1], whole[..|whole| - 1]))))
  }

  lemma {:induction false} SubsequenceOfMore<T>(part: seq<T>, whole: seq<T>, x: T)
    ensures Subsequence(part, whole) ==> Subsequence(part, whole + [x])
    ensures Subsequence(part, whole) ==> Subsequence(part + [x], whole + [x])
  {
    assert (whole + [x])[..|whole|] == whole;
    assert (part + [x])[..|part|] == part;
  }

  /** Filtering keeps the order, keeps exactly the accepted tracks, and keeps every copy of one. */
  lemma {:induction false} AcceptedExact(kind: RequestType, tracks: seq<Scrobble>, e: ApiType, now: int)
    ensures Subsequence(Accepted(kind, tracks, e, now), tracks)
    ensures forall s | s in Accepted(kind, tracks, e, now) :: IsAccepted(kind, s, e, now)
    ensures forall s: Scrobble :: multiset(Accepted(kind, tracks, e, now))[s] ==
                                  if IsAccepted(kind, s, e, now) then multiset(tracks)[s] else 0
  {
    hide IsAccepted;
    if tracks != [] {
      var front, last := tracks[..|tracks| - 1], tracks[|tracks| - 1];
      assert tracks == front + [last];
      AcceptedExact(kind, front, e, now);
      SubsequenceOfMore(Accepted(kind, front, e, now), front, last);
      assert Accepted(kind, front, e, now) + [] == Accepted(kind, front, e, now);
    }
  }

  /** Whatever last.fm or libre.fm accepts, ListenBrainz accepts: their batch is a subsequence of its. */
  lemma {:induction false} AudioscrobblerWithinListenbrainz(kind: RequestType, tracks: seq<Scrobble>, e: ApiType, now: int)
    ensures Subsequence(Accepted(kind, tracks, e, now), Accepted(kind, tracks, ApiListenbrainz, now))
  {
    if tracks != [] {
      var front, last := tracks[..|tracks| - 1], tracks[|tracks| - 1];
      AudioscrobblerWithinListenbrainz(kind, front, e, now);
      assert IsAccepted(kind, last, e, now) ==> IsAccepted(kind, last, ApiListenbrainz, now);
      hide IsAccepted;
      var part, whole := Accepted(kind, front, e, now), Accepted(kind, front, ApiListenbrainz, now);
      SubsequenceOfMore(part, whole, last);
      assert part + [] == part && whole + [] == whole;
    }
  }

  /** A request is sent for an entry exactly when it is enabled, valid, and accepts a track; and it
      holds exactly what the service accepts. */
  lemma {:induction false} RequestsExact(kind: RequestType, tracks: seq<Scrobble>, creds: seq<ApiCredentials>, now: int, r: Request)
    ensures r in Requests(kind, tracks, creds, now) <==>
              && r.credentials in creds && r.credentials.enabled && CredentialsValid(r.credentials)
              && r.kind == kind && r.tracks == Accepted(kind, tracks, r.credentials.endPoint, now) != []
  {
    if creds != [] {
      hide Accepted, CredentialsValid;
      var front, last := creds[..|creds| - 1], creds[|creds| - 1];
      assert creds == front + [last];
      RequestsExact(kind, tracks, front, now, r);
    }
  }

  // ----- runs of the queue -----

  datatype QueueStep = AppendStep(track: Scrobble, at: int) | ConsumeStep(at: int)

  datatype QueueRun = QueueRun(pending: seq<Scrobble>, consumed: seq<Scrobble>, appended: seq<Scrobble>, requests: seq<Request>)

  function StepQueue(q: QueueRun, step: QueueStep, creds: seq<ApiCredentials>): QueueRun {
    match step
    case AppendStep(track, at) =>
      q.(pending := q.pending + [Queued(track, at)], appended := q.appended + [Queued(track, at)])
    case ConsumeStep(at) =>
      q.(pending := [], consumed := q.consumed + q.pending,
         requests := q.requests + Requests(ScrobbleRequest, q.pending, creds, at))
  }

  function RunQueue(q: QueueRun, steps: seq<QueueStep>, creds: seq<ApiCredentials>): QueueRun
    decreases |steps|
  {
    if steps == [] then q else RunQueue(StepQueue(q, steps[0], creds), steps[1..], creds)
  }

  /** Over any interleaving of appends and consumes no track is lost, doubled or reordered: the
      consumed tracks and then the pending ones are the appended ones. */
  lemma {:induction false} QueueConserves(q: QueueRun, steps: seq<QueueStep>, creds: seq<ApiCredentials>)
    requires q.consumed + q.pending == q.appended
    ensures var r := RunQueue(q, steps, creds); r.consumed + r.pending == r.appended
    decreases |steps|
  {
    if steps != [] {
      hide Requests, Queued;
      var next := StepQueue(q, steps[0], creds);
      assert next.consumed + next.pending == next.appended;
      QueueConserves(next, steps[1..], creds);
    }
  }

  // ----- what a service receives over a whole run -----

  /** All tracks sent for one entry of the credentials, in the order sent. */
  function Received(requests: seq<Request>, c: ApiCredentials): seq<Scrobble> {
    if requests == [] then []
    else
      var last := requests[|requests| - 1];
      Received(requests[..|requests| - 1], c) + if last.credentials == c then last.tracks else []
  }

  lemma {:induction false} ReceivedAppend(a: seq<Request>, b: seq<Request>, c: ApiCredentials)
    ensures Received(a + b, c) == Received(a, c) + Received(b, c)
  {
    if b == [] {
      assert a + b == a;
    } else {
      assert (a + b)[..|a + b| - 1] == a + b[..|b| - 1];
      ReceivedAppend(a, b[..|b| - 1], c);
    }
  }

  lemma {:induction false} AcceptedAppend(kind: RequestType, a: seq<Scrobble>, b: seq<Scrobble>, e: ApiType, now: int)
    ensures Accepted(kind, a + b, e, now) == Accepted(kind, a, e, now) + Accepted(kind, b, e, now)
  {
    hide IsAccepted;
    if b == [] {
      assert a + b == a;
    } else {
      assert (a + b)[..|a + b| - 1] == a + b[..|b| - 1];
      AcceptedAppend(kind, a, b[..|b| - 1], e, now);
    }
  }

  /** With a positive play time the answer does not depend on the clock; nor does it for a track
      that is too short, or of no known length, because no service accepts it. */
  predicate Timeless(tracks: seq<Scrobble>) {
    forall k | 0 <= k < |tracks| :: tracks[k].length >= MIN_TRACK_LENGTH ==> tracks[k].playTime > 0.0
  }

  lemma {:induction false} AcceptedAnytime(tracks: seq<Scrobble>, e: ApiType, now1: int, now2: int)
    requires Timeless(tracks)
    ensures Accepted(ScrobbleRequest, tracks, e, now1) == Accepted(ScrobbleRequest, tracks, e, now2)
  {
    if tracks != [] {
      AcceptedAnytime(tracks[..|tracks| - 1], e, now1, now2);
    }
  }

  /** The entry occurs once among the credentials. */
  ghost predicate OnlyAt(creds: seq<ApiCredentials>, c: ApiCredentials, i: nat) {
    i < |creds| && forall k | 0 <= k < |creds| :: creds[k] == c <==> k == i
  }

  lemma ReceivedOfOne(kind: RequestType, tracks: seq<Scrobble>, d: ApiCredentials, now: int, c: ApiCredentials)
    ensures Received(RequestFor(kind, tracks, d, now), c) ==
            if d == c && c.enabled && CredentialsValid(c) then Accepted(kind, tracks, c.endPoint, now) else []
  {
    hide Accepted, CredentialsValid;
    var r := RequestFor(kind, tracks, d, now);
    if r != [] {
      assert r[..0] == [] && Received([], c) == [];
      assert [] + r[0].tracks == r[0].tracks;
    }
  }

  lemma {:induction false} NothingForOthers(kind: RequestType, tracks: seq<Scrobble>, creds: seq<ApiCredentials>, now: int,
                                            c: ApiCredentials)
    requires c !in creds
    ensures Received(Requests(kind, tracks, creds, now), c) == []
  {
    hide RequestFor;
    if creds != [] {
      var front, last := creds[..|creds| - 1], creds[|creds| - 1];
      ReceivedAppend(Requests(kind, tracks, front, now), RequestFor(kind, tracks, last, now), c);
      ReceivedOfOne(kind, tracks, last, now, c);
      NothingForOthers(kind, tracks, front, now, c);
    }
  }

  lemma {:induction false} ReceivedOfRequests(kind: RequestType, tracks: seq<Scrobble>, creds: seq<ApiCredentials>, now: int,
                                              c: ApiCredentials, i: nat)
    requires c.enabled && CredentialsValid(c) && OnlyAt(creds, c, i)
    ensures Received(Requests(kind, tracks, creds, now), c) == Accepted(kind, tracks, c.endPoint, now)
  {
    hide Accepted, CredentialsValid, RequestFor, Received;
    var front, last := creds[..|creds| - 1], creds[|creds| - 1];
    ReceivedAppend(Requests(kind, tracks, front, now), RequestFor(kind, tracks, last, now), c);
    ReceivedOfOne(kind, tracks, last, now, c);
    if i == |front| {
      assert last == c && c !in front;
      NothingForOthers(kind, tracks, front, now, c);
      assert [] + Accepted(kind, tracks, c.endPoint, now) == Accepted(kind, tracks, c.endPoint, now);
    } else {
      assert last != c && OnlyAt(front, c, i);
      ReceivedOfRequests(kind, tracks, front, now, c, i);
      assert Accepted(kind, tracks, c.endPoint, now) + [] == Accepted(kind, tracks, c.endPoint, now);
    }
  }

  /** What holds of a run for one entry: it received what it accepts of the consumed tracks. */
  ghost predicate Delivered(q: QueueRun, c: ApiCredentials, now: int) {
    && Timeless(q.consumed) && Timeless(q.pending)
    && Received(q.requests, c) == Accepted(ScrobbleRequest, q.consumed, c.endPoint, now)
  }

  /** A track that is long enough enters the queue at least a second after its start. */
  predicate IsLate(step: QueueStep) {
    step.AppendStep? && step.track.length >= MIN_TRACK_LENGTH ==> step.at > step.track.startTime
  }

  predicate LateAppends(steps: seq<QueueStep>) {
    forall k | 0 <= k < |steps| :: IsLate(steps[k])
  }

  lemma StepDelivers(q: QueueRun, step: QueueStep, creds: seq<ApiCredentials>, c: ApiCredentials, i: nat, now: int)
    requires c.enabled && CredentialsValid(c) && OnlyAt(creds, c, i)
    requires Delivered(q, c, now) && IsLate(step)
    ensures Delivered(StepQueue(q, step, creds), c, now)
  {
    hide Accepted, CredentialsValid, Requests, IsAccepted;
    if step.ConsumeStep? {
      ReceivedAppend(q.requests, Requests(ScrobbleRequest, q.pending, creds, step.at), c);
      ReceivedOfRequests(ScrobbleRequest, q.pending, creds, step.at, c, i);
      AcceptedAnytime(q.pending, c.endPoint, step.at, now);
      AcceptedAppend(ScrobbleRequest, q.consumed, q.pending, c.endPoint, now);
    }
  }

  /** Over any interleaving of appends and consumes, each enabled and valid entry receives exactly
      what its service accepts of all consumed tracks, each once and in order, however they were
      grouped into requests. */
  lemma {:induction false} RunDelivers(q: QueueRun, steps: seq<QueueStep>, creds: seq<ApiCredentials>,
                                       c: ApiCredentials, i: nat, now: int)
    requires c.enabled && CredentialsValid(c) && OnlyAt(creds, c, i)
    requires Delivered(q, c, now) && LateAppends(steps)
    ensures Delivered(RunQueue(q, steps, creds), c, now)
    decreases |steps|
  {
    if steps != [] {
      hide Delivered, CredentialsValid, StepQueue, OnlyAt;
      StepDelivers(q, steps[0], creds, c, i, now);
      RunDelivers(StepQueue(q, steps[0], creds), steps[1..], creds, c, i, now);
    }
  }

  // ----- what is appended -----

  /** Entering the queue changes the play time only. */
  lemma QueuedKeeps(track: Scrobble, now: int)
    ensures var s := Queued(track, now);
            s.playTime == (now - track.startTime) as real && s.(playTime := track.playTime) == track
  {
  }

  function TracksOf(steps: seq<QueueStep>): seq<Scrobble> {
    if steps == [] then []
    else (if steps[0].AppendStep? then [Queued(steps[0].track, steps[0].at)] else []) + TracksOf(steps[1..])
  }

  lemma AppendedOne(q: QueueRun, step: QueueStep, creds: seq<ApiCredentials>)
    ensures StepQueue(q, step, creds).appended
         == q.appended + if step.AppendStep? then [Queued(step.track, step.at)] else []
  {
    hide Requests, Queued;
  }

  /** A run appends the tracks of its steps, each once and in order. */
  lemma {:induction false} AppendedExactly(q: QueueRun, steps: seq<QueueStep>, creds: seq<ApiCredentials>)
    ensures RunQueue(q, steps, creds).appended == q.appended + TracksOf(steps)
    decreases |steps|
  {
    hide StepQueue, Queued;
    if steps != [] {
      AppendedOne(q, steps[0], creds);
      AppendedExactly(StepQueue(q, steps[0], creds), steps[1..], creds);
    }
  }

  // ----- the order of the requests -----

  function Addressees(requests: seq<Request>): seq<ApiCredentials> {
    if requests == [] then []
    else Addressees(requests[..|requests| - 1]) + [requests[|requests| - 1].credentials]
  }

  /** One dispatch sends its requests in the order of the configured entries, at most one for each. */
  lemma {:induction false} RequestsFollowCredentials(kind: RequestType, tracks: seq<Scrobble>, creds: seq<ApiCredentials>,
                                                     now: int)
    ensures Subsequence(Addressees(Requests(kind, tracks, creds, now)), creds)
  {
    hide RequestFor, Addressees, Subsequence;
    if creds == [] {
      NothingFollows();
    } else {
      var front, last := creds[..|creds| - 1], creds[|creds| - 1];
      assert creds == front + [last];
      RequestsFollowCredentials(kind, tracks, front, now);
      var before := Requests(kind, tracks, front, now);
      SubsequenceOfMore(Addressees(before), front, last);
      OneAddressee(before, kind, tracks, last, now);
    }
  }

  lemma OneAddressee(before: seq<Request>, kind: RequestType, tracks: seq<Scrobble>, c: ApiCredentials, now: int)
    ensures var more := RequestFor(kind, tracks, c, now);
            Addressees(before + more) == if more == [] then Addressees(before) else Addressees(before) + [c]
  {
    hide Accepted, CredentialsValid;
    var more := RequestFor(kind, tracks, c, now);
    if more == [] {
      assert before + more == before;
    } else {
      assert (before + more)[..|before|] == before && (before + more)[|before|] == more[0];
    }
  }

  lemma NothingFollows()
    ensures Subsequence<ApiCredentials>(Addressees([]), [])
  {
  }
}
