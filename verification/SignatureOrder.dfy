/**
  The order in which a request signs its parameters, against section 8 of the Last.fm
  Authentication API specification.
 */
module SignatureOrder {
  import opened Scrobbles
  import opened Signature

  // ----- the order that the specification asks for -----

  /** Alphabetical order of names. */
  predicate Less(a: string, b: string) {
    b != "" && (a == "" || a[0] < b[0] || (a[0] == b[0] && Less(a[1..], b[1..])))
  }

  lemma {:induction false} LessIsTransitive(a: string, b: string, c: string)
    requires Less(a, b) && Less(b, c)
    ensures Less(a, c)
  {
    if a != "" && a[0] == b[0] == c[0] { LessIsTransitive(a[1..], b[1..], c[1..]); }
  }

  lemma {:induction false} LessIsStrict(a: string)
    ensures !Less(a, a)
  {
    if a != "" { LessIsStrict(a[1..]); }
  }

  predicate Ascending(params: seq<Param>) {
    forall j, k | 0 <= j < k < |params| :: Less(params[j].name, params[k].name)
  }

  /** There is one way only to put parameters in order, so an ascending list is what the
      specification signs. */
  lemma {:induction false} OrderIsUnique(p: seq<Param>, q: seq<Param>)
    requires Ascending(p) && Ascending(q) && multiset(p) == multiset(q)
    ensures p == q
  {
    hide Less, Ascending;
    assert |p| == |multiset(p)| == |multiset(q)| == |q|;
    if p != [] {
      SmallestFirst(p, q);
      SmallestFirst(q, p);
      LessIsAsymmetric(p[0].name, q[0].name);
      WithoutFirst(p);
      WithoutFirst(q);
      OrderIsUnique(p[1..], q[1..]);
    }
  }

  lemma WithoutFirst(p: seq<Param>)
    requires p != []
    ensures p == [p[0]] + p[1..] && multiset(p[1..]) == multiset(p) - multiset{p[0]}
    ensures Ascending(p) ==> Ascending(p[1..])
    ensures PrefixFree(p) ==> PrefixFree(p[1..])
  {
    hide Less, Apart;
    assert p == [p[0]] + p[1..];
  }

  lemma LessIsAsymmetric(a: string, b: string)
    ensures !(Less(a, b) && Less(b, a))
  {
    if Less(a, b) && Less(b, a) {
      LessIsTransitive(a, b, a);
      LessIsStrict(a);
    }
  }

  lemma SmallestFirst(p: seq<Param>, q: seq<Param>)
    requires p != [] && q != [] && Ascending(p) && multiset(p) == multiset(q)
    ensures q[0] == p[0] || Less(p[0].name, q[0].name)
  {
    assert q[0] in multiset(p);
    var k :| 0 <= k < |p| && p[k] == q[0];
  }

  lemma NowPlayingInOrder(track: Scrobble, apiKey: string, sk: string)
    ensures Ascending(NowPlayingParams(track, apiKey, sk))
  {
    hide FullArtist, First;
    var front := [Param("album", track.album, true, NO_BUFFER)] + [Param("api_key", apiKey, true, NO_BUFFER)]
      + IfAny("artist", FullArtist(track.artist), NO_BUFFER) + IfAny("mbid", First(track.mbTrackId), NO_BUFFER);
    var back := [Param("method", "track.updateNowPlaying", false, NO_BUFFER)] + [Param("sk", sk, false, NO_BUFFER)]
      + [Param("track", track.title, true, NO_BUFFER)];
    NowPlayingFront(track.album, apiKey, FullArtist(track.artist), First(track.mbTrackId));
    NowPlayingBack(sk, track.title);
    hide IfAny;
    Joined(front, back);
    assert front + back == NowPlayingParams(track, apiKey, sk);
  }

  lemma NowPlayingFront(album: string, apiKey: string, artist: string, mbid: string)
    ensures var front := [Param("album", album, true, NO_BUFFER)] + [Param("api_key", apiKey, true, NO_BUFFER)]
              + IfAny("artist", artist, NO_BUFFER) + IfAny("mbid", mbid, NO_BUFFER);
            Ascending(front) && front != [] && Less(front[|front| - 1].name, "method")
  {
  }

  lemma NowPlayingBack(sk: string, title: string)
    ensures Ascending([Param("method", "track.updateNowPlaying", false, NO_BUFFER)]
              + [Param("sk", sk, false, NO_BUFFER)] + [Param("track", title, true, NO_BUFFER)])
  {
  }

  /** With two tracks the later timestamp comes before the earlier one, and the specification
      is not met; without it is. */
  lemma ScrobbleOrderExact(tracks: seq<Scrobble>, apiKey: string, sk: string)
    ensures Ascending(ScrobbleParams(tracks, apiKey, sk)) <==> |tracks| <= 1
  {
    if |tracks| <= 1 {
      FewInOrder(tracks, apiKey, sk);
    } else {
      ManyOutOfOrder(tracks, apiKey, sk);
    }
  }

  lemma FewInOrder(tracks: seq<Scrobble>, apiKey: string, sk: string)
    requires |tracks| <= 1
    ensures Ascending(ScrobbleParams(tracks, apiKey, sk))
  {
    if tracks == [] {
      assert ScrobbleParams(tracks, apiKey, sk)
          == [Param("api_key", apiKey, true, NO_BUFFER), Param("method", "track.scrobble", false, NO_BUFFER), Param("sk", sk, false, NO_BUFFER)];
    } else {
      OneTrack(tracks[0], apiKey, sk);
      assert tracks == [tracks[0]];
      OneTrackInOrder(tracks[0], apiKey, sk);
    }
  }

  function OneTrackParams(track: Scrobble, apiKey: string, sk: string): seq<Param> {
    [Param("album[0]", track.album, true, TEXT_SPACE)]
    + [Param("api_key", apiKey, true, NO_BUFFER)]
    + IfAny("artist[0]", FullArtist(track.artist), ARTIST_SPACE)
    + IfAny("mbid[0]", First(track.mbTrackId), MBID_SPACE)
    + [Param("method", "track.scrobble", false, NO_BUFFER)]
    + [Param("sk", sk, false, NO_BUFFER)]
    + [Param("timestamp[0]", DecimalOf(track.startTime), false, TIME_SPACE)]
    + [Param("track[0]", track.title, true, TEXT_SPACE)]
  }

  lemma IndexZero(name: string)
    ensures Indexed(name, 0) == name + "[0]"
  {
    assert Decimal(0) == "0";
    assert name + "[" + "0" + "]" == name + "[0]";
  }

  lemma OneTrack(track: Scrobble, apiKey: string, sk: string)
    ensures ScrobbleParams([track], apiKey, sk) == OneTrackParams(track, apiKey, sk)
  {
    hide FullArtist, DecimalOf, Indexed;
    IndexZero("album");
    IndexZero("artist");
    IndexZero("mbid");
    IndexZero("timestamp");
    IndexZero("track");
    assert [track][..0] == [];
    assert "album" + "[0]" == "album[0]" && "artist" + "[0]" == "artist[0]" && "mbid" + "[0]" == "mbid[0]";
    assert "timestamp" + "[0]" == "timestamp[0]" && "track" + "[0]" == "track[0]";
    assert Upward([track], AlbumOf) == [Param("album[0]", track.album, true, TEXT_SPACE)];
    assert Upward([track], ArtistOf) == IfAny("artist[0]", FullArtist(track.artist), ARTIST_SPACE);
    assert Upward([track], MbidOf) == IfAny("mbid[0]", First(track.mbTrackId), MBID_SPACE);
    assert Downward([track], TimestampOf) == [Param("timestamp[0]", DecimalOf(track.startTime), false, TIME_SPACE)];
    assert Downward([track], TitleOf) == [Param("track[0]", track.title, true, TEXT_SPACE)];
  }

  lemma Joined(p: seq<Param>, q: seq<Param>)
    requires Ascending(p) && Ascending(q) && p != [] && q != []
    requires Less(p[|p| - 1].name, q[0].name)
    ensures Ascending(p + q)
  {
    hide Less;
    forall j, k | 0 <= j < |p| && 0 <= k < |q| ensures Less(p[j].name, q[k].name) {
      var last, first := p[|p| - 1].name, q[0].name;
      if j < |p| - 1 { LessIsTransitive(p[j].name, last, first); }
      if k > 0 { LessIsTransitive(p[j].name, first, q[k].name); }
    }
  }

  lemma OneTrackInOrder(track: Scrobble, apiKey: string, sk: string)
    ensures Ascending(OneTrackParams(track, apiKey, sk))
  {
    hide FullArtist, DecimalOf, First;
    var front := [Param("album[0]", track.album, true, TEXT_SPACE)] + [Param("api_key", apiKey, true, NO_BUFFER)]
      + IfAny("artist[0]", FullArtist(track.artist), ARTIST_SPACE) + IfAny("mbid[0]", First(track.mbTrackId), MBID_SPACE);
    var back := [Param("method", "track.scrobble", false, NO_BUFFER)] + [Param("sk", sk, false, NO_BUFFER)]
      + [Param("timestamp[0]", DecimalOf(track.startTime), false, TIME_SPACE)] + [Param("track[0]", track.title, true, TEXT_SPACE)];
    FrontInOrder(track.album, apiKey, FullArtist(track.artist), First(track.mbTrackId));
    BackInOrder(sk, DecimalOf(track.startTime), track.title);
    Joined(front, back);
    assert front + back == OneTrackParams(track, apiKey, sk);
  }

  lemma FrontInOrder(album: string, apiKey: string, artist: string, mbid: string)
    ensures var front := [Param("album[0]", album, true, TEXT_SPACE)] + [Param("api_key", apiKey, true, NO_BUFFER)]
              + IfAny("artist[0]", artist, ARTIST_SPACE) + IfAny("mbid[0]", mbid, MBID_SPACE);
            Ascending(front) && front != [] && Less(front[|front| - 1].name, "method")
  {
  }

  lemma BackInOrder(sk: string, time: string, title: string)
    ensures Ascending([Param("method", "track.scrobble", false, NO_BUFFER)] + [Param("sk", sk, false, NO_BUFFER)]
              + [Param("timestamp[0]", time, false, TIME_SPACE)] + [Param("track[0]", title, true, TEXT_SPACE)])
  {
  }

  lemma {:induction false} LastTimestamps(tracks: seq<Scrobble>)
    requires |tracks| >= 2
    ensures var t := Downward(tracks, TimestampOf);
            && |t| == |tracks|
            && t[|t| - 2].name == Indexed("timestamp", 1) && t[|t| - 1].name == Indexed("timestamp", 0)
  {
    hide Indexed, DecimalOf;
    var i := |tracks| - 1;
    if |tracks| == 2 {
      assert tracks[..1][..0] == [];
      assert Downward(tracks[..1], TimestampOf) == [Param(Indexed("timestamp", 0), DecimalOf(tracks[0].startTime), false, TIME_SPACE)];
    } else {
      LastTimestamps(tracks[..i]);
    }
  }

  lemma ManyOutOfOrder(tracks: seq<Scrobble>, apiKey: string, sk: string)
    requires |tracks| >= 2
    ensures !Ascending(ScrobbleParams(tracks, apiKey, sk))
  {
    hide Upward, Downward, Indexed, Less;
    LastTimestamps(tracks);
    var front := Upward(tracks, AlbumOf) + [Param("api_key", apiKey, true, NO_BUFFER)] + Upward(tracks, ArtistOf)
      + Upward(tracks, MbidOf) + [Param("method", "track.scrobble", false, NO_BUFFER)] + [Param("sk", sk, false, NO_BUFFER)];
    var t := Downward(tracks, TimestampOf);
    var all := ScrobbleParams(tracks, apiKey, sk);
    assert all == front + t + Downward(tracks, TitleOf);
    assert all[|front| + |t| - 2] == t[|t| - 2] && all[|front| + |t| - 1] == t[|t| - 1];
    OneBeforeZero("timestamp");
  }

  lemma OneBeforeZero(name: string)
    ensures !Less(Indexed(name, 1), Indexed(name, 0))
  {
    hide Less;
    assert Decimal(0) == "0" && Decimal(1) == "1";
    assert Indexed(name, 1) == (name + "[") + "1]";
    assert Indexed(name, 0) == (name + "[") + "0]";
    LessAfterPrefix(name + "[", "1]", "0]");
    DigitOrder();
  }

  lemma DigitOrder()
    ensures !Less("1]", "0]")
  {
  }

  lemma {:induction false} LessAfterPrefix(prefix: string, a: string, b: string)
    ensures Less(prefix + a, prefix + b) <==> Less(a, b)
  {
    if prefix != "" {
      assert (prefix + a)[1..] == prefix[1..] + a && (prefix + b)[1..] == prefix[1..] + b;
      LessAfterPrefix(prefix[1..], a, b);
    } else {
      assert prefix + a == a && prefix + b == b;
    }
  }

  // ----- different orders give different strings -----

  /** Neither is a prefix of the other. */
  predicate Apart(a: string, b: string) { !(a <= b) && !(b <= a) }

  predicate PrefixFree(params: seq<Param>) {
    forall j, k | 0 <= j < k < |params| :: Apart(params[j].name, params[k].name)
  }

  lemma {:induction false} SigBaseOfFirst(p: Param, rest: seq<Param>)
    ensures SigBaseOf([p] + rest) == (p.name + p.value) + SigBaseOf(rest)
  {
    var all := [p] + rest;
    if rest == [] {
      assert all[..0] == [];
    } else {
      assert all[..|all| - 1] == [p] + rest[..|rest| - 1];
      SigBaseOfFirst(p, rest[..|rest| - 1]);
    }
  }

  /** When no name starts another one, the signed string determines the order. */
  lemma {:induction false} OrderIsSigned(p: seq<Param>, q: seq<Param>)
    requires multiset(p) == multiset(q) && PrefixFree(p)
    ensures SigBaseOf(p) == SigBaseOf(q) <==> p == q
  {
    hide SigBaseOf, PrefixFree;
    assert |p| == |multiset(p)| == |multiset(q)| == |q|;
    if p != [] {
      var a, b := p[0].name + p[0].value, q[0].name + q[0].value;
      WithoutFirst(p);
      WithoutFirst(q);
      SigBaseOfFirst(p[0], p[1..]);
      SigBaseOfFirst(q[0], q[1..]);
      if p[0] == q[0] {
        OrderIsSigned(p[1..], q[1..]);
        SameFirst(a, SigBaseOf(p[1..]), SigBaseOf(q[1..]));
      } else {
        ElsewhereApart(p, q[0]);
        FirstNamesApart(p[0].name, p[0].value, SigBaseOf(p[1..]), q[0].name, q[0].value, SigBaseOf(q[1..]));
      }
    }
  }

  lemma ElsewhereApart(p: seq<Param>, x: Param)
    requires p != [] && PrefixFree(p) && x in multiset(p) && x != p[0]
    ensures Apart(p[0].name, x.name)
  {
    var k :| 0 <= k < |p| && p[k] == x;
  }

  lemma SameFirst(a: string, r: string, s: string)
    ensures a + r == a + s <==> r == s
  {
    assert (a + r)[|a|..] == r && (a + s)[|a|..] == s;
  }

  lemma FirstNamesApart(a: string, v: string, r: string, b: string, w: string, s: string)
    ensures a + v + r == b + w + s ==> !Apart(a, b)
  {
    var left, right := a + v + r, b + w + s;
    assert a <= left && b <= right;
    if left == right {
      assert if |a| <= |b| then a == b[..|a|] else b == a[..|b|];
    }
  }

  function DecimalValue(s: string): int {
    if s == "" then 0 else 10 * DecimalValue(s[..|s| - 1]) + (s[|s| - 1] as int - '0' as int)
  }

  lemma DigitValue(n: nat)
    requires n < 10
    ensures Digit(n) as int - '0' as int == n && Digit(n) != ']'
  {
  }

  lemma {:induction false} DecimalRoundTrip(n: nat)
    ensures DecimalValue(Decimal(n)) == n && ']' !in Decimal(n)
  {
    hide Digit;
    DigitValue(n % 10);
    if n < 10 {
      assert Decimal(n)[..0] == "";
    } else {
      DecimalRoundTrip(n / 10);
      assert Decimal(n)[..|Decimal(n)| - 1] == Decimal(n / 10);
    }
  }

  /** The number that a numeral with a sign stands for. */
  function SignedValue(s: string): int {
    if s != "" && s[0] == '-' then -DecimalValue(s[1..]) else DecimalValue(s)
  }

  lemma {:induction false} NoSign(n: nat)
    ensures Decimal(n) != "" && Decimal(n)[0] != '-'
  {
    DigitHasNoSign(n % 10);
    hide Digit;
    if n >= 10 {
      NoSign(n / 10);
    }
  }

  lemma DigitHasNoSign(n: nat)
    requires n < 10
    ensures Digit(n) != '-'
  {
  }

  /** A printed time is read back as itself. */
  lemma TimeRoundTrip(n: int)
    ensures SignedValue(DecimalOf(n)) == n
  {
    hide Decimal, DecimalValue;
    if n < 0 {
      DecimalRoundTrip(-n);
      assert ("-" + Decimal(-n))[1..] == Decimal(-n);
    } else {
      DecimalRoundTrip(n);
      NoSign(n);
    }
  }

  lemma IndexedApart(name: string, i: nat, j: nat)
    requires i != j
    ensures Apart(Indexed(name, i), Indexed(name, j))
  {
    hide Decimal;
    NoPrefix(name, i, j);
    NoPrefix(name, j, i);
  }

  lemma NoPrefix(name: string, i: nat, j: nat)
    ensures Indexed(name, i) <= Indexed(name, j) ==> i == j
  {
    hide Decimal, DecimalValue;
    DecimalRoundTrip(i);
    DecimalRoundTrip(j);
    var x, y, m := Indexed(name, i), Indexed(name, j), |name| + 1;
    if x <= y {
      assert x[m..] == Decimal(i) + "]" && y[m..] == Decimal(j) + "]";
      assert x[m..] <= y[m..];
      SameEnd(Decimal(i), Decimal(j));
    }
  }

  lemma SameEnd(a: string, b: string)
    requires ']' !in a && ']' !in b
    ensures a + "]" <= b + "]" ==> a == b
  {
    if a + "]" <= b + "]" {
      forall k | 0 <= k < |b|
        ensures (b + "]")[k] != ']'
      {
        assert b[k] in b;
      }
      assert (b + "]")[|a|] == (a + "]")[|a|] == ']';
      assert a == (a + "]")[..|a|] && b == (b + "]")[..|a|];
    }
  }

  /** One loop names its parameters by the number of the track. */
  ghost predicate NamesBy(of: (Scrobble, nat) -> seq<Param>, name: string) {
    forall t: Scrobble, i: nat ::
      of(t, i) == [] || (|of(t, i)| == 1 && of(t, i)[0].name == Indexed(name, i))
  }

  ghost predicate Numbered(params: seq<Param>, name: string, n: nat) {
    && PrefixFree(params)
    && forall k | 0 <= k < |params| :: HasNumber(params[k].name, name, n)
  }

  ghost predicate HasNumber(s: string, name: string, n: nat) {
    exists i: nat :: i < n && s == Indexed(name, i)
  }

  lemma HasNumberMore(s: string, name: string, n: nat)
    ensures HasNumber(s, name, n) || s == Indexed(name, n) ==> HasNumber(s, name, n + 1)
  {
    if HasNumber(s, name, n) {
      var i: nat :| i < n && s == Indexed(name, i);
      assert i < n + 1;
    } else if s == Indexed(name, n) {
      assert n < n + 1;
    }
  }

  lemma NumberedMore(params: seq<Param>, more: seq<Param>, name: string, n: nat)
    requires Numbered(params, name, n)
    requires more == [] || (|more| == 1 && more[0].name == Indexed(name, n))
    ensures Numbered(params + more, name, n + 1) && Numbered(more + params, name, n + 1)
  {
    hide Apart, Indexed;
    forall k | 0 <= k < |params|
      ensures Apart(params[k].name, Indexed(name, n)) && Apart(Indexed(name, n), params[k].name)
    {
      assert HasNumber(params[k].name, name, n);
      var i: nat :| i < n && params[k].name == Indexed(name, i);
      IndexedApart(name, i, n);
      IndexedApart(name, n, i);
    }
    if more == [] {
      assert params + more == params == more + params;
    } else {
      assert more == [more[0]];
      PrefixFreeMore(params, more[0]);
    }
    hide HasNumber;
    forall k | 0 <= k < |params|
      ensures HasNumber(params[k].name, name, n + 1)
    {
      HasNumberMore(params[k].name, name, n);
    }
    HasNumberMore(Indexed(name, n), name, n);
  }

  lemma PrefixFreeMore(params: seq<Param>, x: Param)
    requires PrefixFree(params)
    requires forall k | 0 <= k < |params| :: Apart(params[k].name, x.name) && Apart(x.name, params[k].name)
    ensures PrefixFree(params + [x]) && PrefixFree([x] + params)
  {
    hide Apart;
  }

  lemma {:induction false} LoopNumbered(tracks: seq<Scrobble>, of: (Scrobble, nat) -> seq<Param>, name: string)
    requires NamesBy(of, name)
    ensures Numbered(Upward(tracks, of), name, |tracks|) && Numbered(Downward(tracks, of), name, |tracks|)
  {
    if tracks != [] {
      hide Numbered;
      var i := |tracks| - 1;
      LoopNumbered(tracks[..i], of, name);
      NumberedMore(Upward(tracks[..i], of), of(tracks[i], i), name, i);
      NumberedMore(Downward(tracks[..i], of), of(tracks[i], i), name, i);
    }
  }

  /** Names that start with one of these two letters. */
  predicate Tagged(params: seq<Param>, tags: set<string>) {
    forall k | 0 <= k < |params| :: |params[k].name| >= 2 && params[k].name[..2] in tags
  }

  lemma TaggedAppend(a: seq<Param>, b: seq<Param>, tagsA: set<string>, tagsB: set<string>)
    requires PrefixFree(a) && PrefixFree(b) && Tagged(a, tagsA) && Tagged(b, tagsB) && tagsA !! tagsB
    ensures PrefixFree(a + b) && Tagged(a + b, tagsA + tagsB)
  {
    hide Apart;
    forall j, k | 0 <= j < |a| && 0 <= k < |b|
      ensures Apart(a[j].name, b[k].name)
    {
      SameTag(a[j].name, b[k].name);
    }
  }

  lemma SameTag(a: string, b: string)
    requires |a| >= 2 && |b| >= 2
    ensures !Apart(a, b) ==> a[..2] == b[..2]
  {
  }

  lemma NumberedTag(params: seq<Param>, name: string, n: nat)
    requires Numbered(params, name, n) && |name| >= 2
    ensures PrefixFree(params) && Tagged(params, {name[..2]})
  {
    hide Decimal;
    forall k | 0 <= k < |params|
      ensures |params[k].name| >= 2 && params[k].name[..2] == name[..2]
    {
      assert HasNumber(params[k].name, name, n);
      var i: nat :| i < n && params[k].name == Indexed(name, i);
    }
  }

  lemma SingleTag(p: Param)
    requires |p.name| >= 2
    ensures PrefixFree([p]) && Tagged([p], {p.name[..2]})
  {
  }

  lemma LoopNames()
    ensures NamesBy(AlbumOf, "album") && NamesBy(ArtistOf, "artist") && NamesBy(MbidOf, "mbid")
    ensures NamesBy(TimestampOf, "timestamp") && NamesBy(TitleOf, "track")
  {
    hide Indexed, FullArtist, First, DecimalOf;
  }

  lemma ScrobblePrefixFree(tracks: seq<Scrobble>, apiKey: string, sk: string)
    ensures PrefixFree(ScrobbleParams(tracks, apiKey, sk))
  {
    hide Upward, Downward, PrefixFree, Tagged, Numbered, NamesBy;
    var key, method_, session := Param("api_key", apiKey, true, NO_BUFFER),
      Param("method", "track.scrobble", false, NO_BUFFER), Param("sk", sk, false, NO_BUFFER);
    var a, b, c := Upward(tracks, AlbumOf), Upward(tracks, ArtistOf), Upward(tracks, MbidOf);
    var d, e := Downward(tracks, TimestampOf), Downward(tracks, TitleOf);
    LoopNames();
    LoopTagged(tracks, AlbumOf, "album");
    LoopTagged(tracks, ArtistOf, "artist");
    LoopTagged(tracks, MbidOf, "mbid");
    LoopTagged(tracks, TimestampOf, "timestamp");
    LoopTagged(tracks, TitleOf, "track");
    SingleTag(key);
    SingleTag(method_);
    SingleTag(session);
    TagNames();
    var t1 := {"al"} + {"ap"};
    var t2 := t1 + {"ar"};
    var t3 := t2 + {"mb"};
    var t4 := t3 + {"me"};
    var t5 := t4 + {"sk"};
    var t6 := t5 + {"ti"};
    TaggedAppend(a, [key], {"al"}, {"ap"});
    TaggedAppend(a + [key], b, t1, {"ar"});
    TaggedAppend(a + [key] + b, c, t2, {"mb"});
    TaggedAppend(a + [key] + b + c, [method_], t3, {"me"});
    TaggedAppend(a + [key] + b + c + [method_], [session], t4, {"sk"});
    TaggedAppend(a + [key] + b + c + [method_] + [session], d, t5, {"ti"});
    TaggedAppend(a + [key] + b + c + [method_] + [session] + d, e, t6, {"tr"});
  }

  lemma TagNames()
    ensures "album"[..2] == "al" && "api_key"[..2] == "ap" && "artist"[..2] == "ar" && "mbid"[..2] == "mb"
    ensures "method"[..2] == "me" && "sk"[..2] == "sk" && "timestamp"[..2] == "ti" && "track"[..2] == "tr"
  {
  }

  lemma LoopTagged(tracks: seq<Scrobble>, of: (Scrobble, nat) -> seq<Param>, name: string)
    requires NamesBy(of, name) && |name| >= 2
    ensures PrefixFree(Upward(tracks, of)) && Tagged(Upward(tracks, of), {name[..2]})
    ensures PrefixFree(Downward(tracks, of)) && Tagged(Downward(tracks, of), {name[..2]})
  {
    LoopNumbered(tracks, of, name);
    NumberedTag(Upward(tracks, of), name, |tracks|);
    NumberedTag(Downward(tracks, of), name, |tracks|);
  }

  /** Against the parameters put in order as the specification asks: the now-playing request signs
      the string that it names, and the scrobble request does exactly when it carries at most one
      track. */
  lemma SignedAsSpecified(tracks: seq<Scrobble>, track: Scrobble, apiKey: string, sk: string,
                          p: seq<Param>, q: seq<Param>)
    requires Ascending(p) && multiset(p) == multiset(NowPlayingParams(track, apiKey, sk))
    requires Ascending(q) && multiset(q) == multiset(ScrobbleParams(tracks, apiKey, sk))
    ensures SigBaseOf(p) == SigBaseOf(NowPlayingParams(track, apiKey, sk))
    ensures SigBaseOf(q) == SigBaseOf(ScrobbleParams(tracks, apiKey, sk)) <==> |tracks| <= 1
  {
    NowPlayingInOrder(track, apiKey, sk);
    ScrobbleOrderExact(tracks, apiKey, sk);
    ScrobblePrefixFree(tracks, apiKey, sk);
    hide Ascending, NowPlayingParams, ScrobbleParams, PrefixFree, SigBaseOf;
    OrderIsUnique(p, NowPlayingParams(track, apiKey, sk));
    OrderIsSigned(ScrobbleParams(tracks, apiKey, sk), q);
    if |tracks| <= 1 {
      OrderIsUnique(q, ScrobbleParams(tracks, apiKey, sk));
    }
  }

  // ----- where each parameter of a request stands -----

  lemma {:induction false} UpwardAt(tracks: seq<Scrobble>, of: (Scrobble, nat) -> seq<Param>)
    requires forall i | 0 <= i < |tracks| :: |of(tracks[i], i)| == 1
    ensures |Upward(tracks, of)| == |tracks|
    ensures forall i | 0 <= i < |tracks| :: Upward(tracks, of)[i] == of(tracks[i], i)[0]
  {
    if tracks != [] {
      var n := |tracks| - 1;
      var front := tracks[..n];
      assert forall i | 0 <= i < n :: front[i] == tracks[i];
      UpwardAt(front, of);
    }
  }

  lemma {:induction false} DownwardAt(tracks: seq<Scrobble>, of: (Scrobble, nat) -> seq<Param>, i: nat)
    requires i < |tracks| && forall k | 0 <= k < |tracks| :: |of(tracks[k], k)| == 1
    ensures |Downward(tracks, of)| == |tracks|
    ensures Downward(tracks, of)[|tracks| - 1 - i] == of(tracks[i], i)[0]
  {
    var n := |tracks| - 1;
    var front := tracks[..n];
    assert forall k | 0 <= k < n :: front[k] == tracks[k];
    if n > 0 {
      DownwardAt(front, of, if i < n then i else 0);
    }
  }

  /** Albums, artists and identifiers go up with the tracks; times and titles go down. Between them stand
      the key, the method and the session. */
  lemma ParametersAt(tracks: seq<Scrobble>, apiKey: string, sk: string, i: nat)
    requires i < |tracks|
    requires forall t | t in tracks :: FullArtist(t.artist) != "" && First(t.mbTrackId) != ""
    ensures var p, n, t := ScrobbleParams(tracks, apiKey, sk), |tracks|, tracks[i];
            && |p| == 5 * n + 3
            && p[i].name == Indexed("album", i) && p[i].value == t.album
            && p[n].name == "api_key" && p[n].value == apiKey
            && p[n + 1 + i].name == Indexed("artist", i) && p[n + 1 + i].value == FullArtist(t.artist)
            && p[2 * n + 1 + i].name == Indexed("mbid", i) && p[2 * n + 1 + i].value == First(t.mbTrackId)
            && p[3 * n + 1].value == "track.scrobble" && p[3 * n + 2].value == sk
            && p[4 * n + 2 - i].name == Indexed("timestamp", i) && p[4 * n + 2 - i].value == DecimalOf(t.startTime)
            && p[5 * n + 2 - i].name == Indexed("track", i) && p[5 * n + 2 - i].value == t.title
  {
    hide Upward, Downward, Indexed, DecimalOf, FullArtist, First, ScrobbleParams, Parts, AlbumOf, ArtistOf, MbidOf,
         TimestampOf, TitleOf;
    ParametersAre(tracks, apiKey, sk);
    forall j | 0 <= j < |tracks|
      ensures |AlbumOf(tracks[j], j)| == |ArtistOf(tracks[j], j)| == |MbidOf(tracks[j], j)| == 1
      ensures |TimestampOf(tracks[j], j)| == |TitleOf(tracks[j], j)| == 1
    {
      assert tracks[j] in tracks;
      OneOfEach(tracks[j], j);
    }
    OneOfEach(tracks[i], i);
    UpwardAt(tracks, AlbumOf);
    UpwardAt(tracks, ArtistOf);
    UpwardAt(tracks, MbidOf);
    DownwardAt(tracks, TimestampOf, i);
    DownwardAt(tracks, TitleOf, i);
    PartsAt(Upward(tracks, AlbumOf), Param("api_key", apiKey, true, NO_BUFFER), Upward(tracks, ArtistOf),
            Upward(tracks, MbidOf), Param("method", "track.scrobble", false, NO_BUFFER),
            Param("sk", sk, false, NO_BUFFER), Downward(tracks, TimestampOf), Downward(tracks, TitleOf), |tracks|, i);
  }

  lemma OneOfEach(t: Scrobble, i: nat)
    requires FullArtist(t.artist) != "" && First(t.mbTrackId) != ""
    ensures |AlbumOf(t, i)| == |ArtistOf(t, i)| == |MbidOf(t, i)| == |TimestampOf(t, i)| == |TitleOf(t, i)| == 1
    ensures AlbumOf(t, i)[0].name == Indexed("album", i) && AlbumOf(t, i)[0].value == t.album
    ensures ArtistOf(t, i)[0].name == Indexed("artist", i) && ArtistOf(t, i)[0].value == FullArtist(t.artist)
    ensures MbidOf(t, i)[0].name == Indexed("mbid", i) && MbidOf(t, i)[0].value == First(t.mbTrackId)
    ensures TimestampOf(t, i)[0].name == Indexed("timestamp", i) && TimestampOf(t, i)[0].value == DecimalOf(t.startTime)
    ensures TitleOf(t, i)[0].name == Indexed("track", i) && TitleOf(t, i)[0].value == t.title
  {
    hide Indexed, DecimalOf, FullArtist, First;
  }

  function Parts(a: seq<Param>, k: Param, b: seq<Param>, c: seq<Param>, m: Param, s: Param, d: seq<Param>,
                 e: seq<Param>): seq<Param>
  {
    a + [k] + b + c + [m] + [s] + d + e
  }

  lemma ParametersAre(tracks: seq<Scrobble>, apiKey: string, sk: string)
    ensures ScrobbleParams(tracks, apiKey, sk) ==
              Parts(Upward(tracks, AlbumOf), Param("api_key", apiKey, true, NO_BUFFER), Upward(tracks, ArtistOf),
                    Upward(tracks, MbidOf), Param("method", "track.scrobble", false, NO_BUFFER),
                    Param("sk", sk, false, NO_BUFFER), Downward(tracks, TimestampOf), Downward(tracks, TitleOf))
  {
    hide Upward, Downward;
  }

  lemma PartsAt(a: seq<Param>, k: Param, b: seq<Param>, c: seq<Param>, m: Param, s: Param, d: seq<Param>,
                e: seq<Param>, n: nat, i: nat)
    requires i < n == |a| == |b| == |c| == |d| == |e|
    ensures var p := Parts(a, k, b, c, m, s, d, e);
            && |p| == 5 * n + 3
            && p[i] == a[i] && p[n] == k && p[n + 1 + i] == b[i] && p[2 * n + 1 + i] == c[i]
            && p[3 * n + 1] == m && p[3 * n + 2] == s
            && p[4 * n + 2 - i] == d[n - 1 - i] && p[5 * n + 2 - i] == e[n - 1 - i]
  {
  }
}
