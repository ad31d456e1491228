/**
  The stored properties of a player, the mask of changes that goes with them, and the merging
  of a property-change message into the stored properties (`src/structs.h`, `src/sdbus.h`,
  `src/smpris.h`).

  The 27 properties that have a bit in the mask are kept in one map, so that what is said
  about a property can be said about all of them.
 */
module Properties {

  datatype Field =
    | CanControl | CanGoNext | CanGoPrevious | CanPause | CanPlay | CanSeek | LoopStatus | Volume
    | Shuffle | Position | PlaybackStatus | Bitrate | ArtUrl | Length | TrackId | Album
    | AlbumArtist | Artist | Comment | Title | TrackNumber | Url | Genre | MbTrackId | MbAlbumId
    | MbArtistId | MbAlbumArtistId

  datatype Content =
    | Flag(b: bool)
    | Decimal(r: real)
    | Number(n: int)
    | Text(s: string)
    | Texts(l: seq<string>)

  function Zero(f: Field): Content {
    match f
    case CanControl => Flag(false)
    case CanGoNext => Flag(false)
    case CanGoPrevious => Flag(false)
    case CanPause => Flag(false)
    case CanPlay => Flag(false)
    case CanSeek => Flag(false)
    case LoopStatus => Text("")
    case Volume => Decimal(0.0)
    case Shuffle => Flag(false)
    case Position => Number(0)
    case PlaybackStatus => Text("")
    case Bitrate => Number(0)
    case ArtUrl => Text("")
    case Length => Number(0)
    case TrackId => Text("")
    case Album => Text("")
    case Title => Text("")
    case TrackNumber => Number(0)
    case Url => Text("")
    case _ => Texts([])
  }

  /** `struct mpris_properties`; a field that is not in the map is still all zeros. */
  type Properties = map<Field, Content>

  function At(p: Properties, f: Field): Content { if f in p then p[f] else Zero(f) }

  function With(p: Properties, f: Field, c: Content): (q: Properties)
    ensures At(q, f) == c && forall g: Field :: g != f ==> At(q, g) == At(p, g)
  {
    p[f := c]
  }

  function NumberOf(p: Properties, f: Field): int { if At(p, f).Number? then At(p, f).n else 0 }
  function TextOf(p: Properties, f: Field): string { if At(p, f).Text? then At(p, f).s else "" }
  function TextsOf(p: Properties, f: Field): seq<string> { if At(p, f).Texts? then At(p, f).l else [] }

  predicate IsPlaying(p: Properties) { TextOf(p, PlaybackStatus) == "Playing" }

  // ----- the mask -----

  /** `enum mpris_load_types`: the fields in the order of their bits. */
  const FIELDS: seq<Field> := [
    CanControl, CanGoNext, CanGoPrevious, CanPause, CanPlay, CanSeek, LoopStatus, Volume, Shuffle,
    Position, PlaybackStatus, Bitrate, ArtUrl, Length, TrackId, Album, AlbumArtist, Artist,
    Comment, Title, TrackNumber, Url, Genre, MbTrackId, MbAlbumId, MbArtistId, MbAlbumArtistId]

  function Index(f: Field): (k: nat)
    ensures k < |FIELDS| && FIELDS[k] == f
  {
    match f
    case CanControl => 0
    case CanGoNext => 1
    case CanGoPrevious => 2
    case CanPause => 3
    case CanPlay => 4
    case CanSeek => 5
    case LoopStatus => 6
    case Volume => 7
    case Shuffle => 8
    case Position => 9
    case PlaybackStatus => 10
    case Bitrate => 11
    case ArtUrl => 12
    case Length => 13
    case TrackId => 14
    case Album => 15
    case AlbumArtist => 16
    case Artist => 17
    case Comment => 18
    case Title => 19
    case TrackNumber => 20
    case Url => 21
    case Genre => 22
    case MbTrackId => 23
    case MbAlbumId => 24
    case MbArtistId => 25
    case MbAlbumArtistId => 26
  }

  /** `loaded_state`: the fields whose bits are set. Its number is `Value`. */
  type Mask = set<Field>

  function Pow2(k: nat): (n: nat)
    ensures n >= 1
  {
    if k == 0 then 1 else 2 * Pow2(k - 1)
  }

  function BinaryValue(fields: seq<Field>, m: Mask): nat {
    if fields == [] then 0
    else (if fields[0] in m then 1 else 0) + 2 * BinaryValue(fields[1..], m)
  }

  function Value(m: Mask): nat { BinaryValue(FIELDS, m) }

  /** From this bit on, a change matters for scrobbling. */
  predicate Matters(f: Field) { Index(f) >= Index(Position) }

  predicate IsTrackField(f: Field) { Index(f) >= Index(Bitrate) }

  /** `mpris_event_happened` compares the mask with the position bit as a number. */
  predicate Happened(m: Mask) { Value(m) >= Pow2(Index(Position)) }

  /** `mpris_event_changed_track` */
  predicate ChangedTrack(m: Mask) {
    Bitrate in m || ArtUrl in m || Length in m || TrackId in m ||
    Album in m || AlbumArtist in m || Artist in m || Comment in m ||
    Title in m || TrackNumber in m || Url in m || Genre in m ||
    MbTrackId in m || MbAlbumId in m || MbArtistId in m || MbAlbumArtistId in m
  }

  lemma {:induction false} BinaryDigit(fields: seq<Field>, m: Mask, k: nat)
    requires k < |fields|
    ensures BinaryValue(fields, m) / Pow2(k) % 2 == 1 <==> fields[k] in m
  {
    var rest, b := BinaryValue(fields[1..], m), if fields[0] in m then 1 else 0;
    assert BinaryValue(fields, m) == b + 2 * rest;
    if k == 0 {
      assert Pow2(0) == 1;
      LowestDigit(b, rest);
    } else {
      BinaryDigit(fields[1..], m, k - 1);
      hide BinaryValue;
      HalveFirst(rest, b, Pow2(k - 1));
    }
  }

  lemma LowestDigit(b: nat, rest: nat)
    requires b <= 1
    ensures (b + 2 * rest) / 1 % 2 == b
  {
  }

  lemma HalveFirst(rest: nat, b: nat, p: nat)
    requires b <= 1 && p >= 1
    ensures (b + 2 * rest) / (2 * p) == rest / p
  {
    var q, r := rest / p, rest % p;
    assert rest == p * q + r;
    assert b + 2 * rest == (2 * p) * q + (2 * r + b) && 0 <= 2 * r + b < 2 * p;
    QuotientIs(b + 2 * rest, 2 * p, q, 2 * r + b);
  }

  lemma QuotientIs(n: nat, d: nat, q: nat, r: nat)
    requires d > 0 && n == d * q + r && r < d
    ensures n / d == q
  {
    var e := n / d - q;
    assert d * (n / d) + n % d == d * q + r;
    assert d * e == r - n % d;
    MultipleAtLeast(d, e);
  }

  lemma MultipleAtLeast(d: int, e: int)
    requires d >= 0
    ensures e >= 1 ==> d * e >= d
    ensures e <= -1 ==> d * e <= -d
  {
  }

  /** The number is the mask: testing a bit of it asks for the field. */
  lemma ValueBits(m: Mask, f: Field)
    ensures Value(m) / Pow2(Index(f)) % 2 == 1 <==> f in m
  {
    BinaryDigit(FIELDS, m, Index(f));
  }

  lemma {:induction false} BinaryAtLeast(fields: seq<Field>, m: Mask, k: nat)
    ensures BinaryValue(fields, m) >= Pow2(k) <==> exists j :: k <= j < |fields| && fields[j] in m
    decreases |fields|
  {
    if fields != [] {
      var rest := fields[1..];
      if k > 0 {
        BinaryAtLeast(rest, m, k - 1);
        assert forall j | 0 <= j < |rest| :: rest[j] == fields[j + 1];
        if j :| k <= j < |fields| && fields[j] in m {
          assert rest[j - 1] in m;
        }
      } else {
        BinaryAtLeast(rest, m, 0);
        assert fields == [fields[0]] + rest;
        if j :| 0 <= j < |fields| && fields[j] in m {
          assert j == 0 || rest[j - 1] in m;
        }
      }
    }
  }

  /** The comparison asks whether any field that matters has its bit set. */
  lemma HappenedExact(m: Mask)
    ensures Happened(m) <==> exists f: Field :: Matters(f) && f in m
  {
    BinaryAtLeast(FIELDS, m, Index(Position));
    forall f: Field | Matters(f) && f in m
      ensures Happened(m)
    {
      assert FIELDS[Index(f)] in m;
    }
    if j :| Index(Position) <= j < |FIELDS| && FIELDS[j] in m {
      IndexOfField(j);
      assert Matters(FIELDS[j]);
    }
  }

  lemma IndexOfField(k: nat)
    requires k < |FIELDS|
    ensures Index(FIELDS[k]) == k
  {
  }

  lemma ChangedTrackExact(m: Mask)
    ensures ChangedTrack(m) <==> exists f: Field :: IsTrackField(f) && f in m
  {
    if ChangedTrack(m) {
      var f :| IsTrackField(f) && f in m;
    }
  }

  // ----- merging -----

  /** The order of the statements in `load_properties_if_changed`: `CanPause` does not occur and
      `CanControl` occurs twice. */
  const MERGE_ORDER: seq<Field> := [
    CanControl, CanGoNext, CanGoPrevious, CanControl, CanPlay, CanSeek, LoopStatus, PlaybackStatus,
    Position, Shuffle, Volume, Bitrate, ArtUrl, Length, TrackId, Album, AlbumArtist, Artist,
    Comment, Title, TrackNumber, Url, Genre, MbTrackId, MbAlbumId, MbArtistId, MbAlbumArtistId]

  datatype Merge = Merge(props: Properties, mask: Mask)

  /** The `_copy_if_changed` macro for one field. */
  function CopyIfChanged(f: Field, m: Merge, newp: Properties): Merge {
    if f !in m.mask then m
    else if At(m.props, f) != At(newp, f) then m.(props := With(m.props, f, At(newp, f)))
    else m.(mask := m.mask - {f})
  }

  function CopyAll(order: seq<Field>, m: Merge, newp: Properties): Merge {
    if order == [] then m
    else CopyIfChanged(order[|order| - 1], CopyAll(order[..|order| - 1], m, newp), newp)
  }

  /** `load_properties_if_changed` */
  function MergeInto(oldp: Properties, newp: Properties, loaded: Mask): Merge {
    CopyAll(MERGE_ORDER, Merge(oldp, loaded), newp)
  }

  function Occurrences(order: seq<Field>, f: Field): nat {
    if order == [] then 0
    else Occurrences(order[..|order| - 1], f) + if order[|order| - 1] == f then 1 else 0
  }

  lemma {:induction false} CopyAllExact(order: seq<Field>, m: Merge, newp: Properties, f: Field)
    ensures var r, n := CopyAll(order, m, newp), Occurrences(order, f);
            && At(r.props, f) == (if n > 0 && f in m.mask then At(newp, f) else At(m.props, f))
            && (f in r.mask <==> f in m.mask && (n == 0 || (n == 1 && At(m.props, f) != At(newp, f))))
  {
    if order != [] {
      var front, g := order[..|order| - 1], order[|order| - 1];
      CopyAllExact(front, m, newp, f);
      CopyOneExact(CopyAll(front, m, newp), g, newp, f);
      hide CopyIfChanged;
    }
  }

  lemma CopyOneExact(m: Merge, g: Field, newp: Properties, f: Field)
    ensures var r := CopyIfChanged(g, m, newp);
            && At(r.props, f) == (if f == g && f in m.mask then At(newp, f) else At(m.props, f))
            && (f in r.mask <==> f in m.mask && (f == g ==> At(m.props, f) != At(newp, f)))
  {
  }

  ghost function PositionsOf(order: seq<Field>, f: Field): set<int> {
    set j | 0 <= j < |order| && order[j] == f
  }

  lemma {:induction false} OccurrencesAt(order: seq<Field>, f: Field)
    ensures Occurrences(order, f) == |PositionsOf(order, f)|
  {
    if order != [] {
      var n := |order| - 1;
      OccurrencesAt(order[..n], f);
      PositionsGrow(order[..n], order[n], f);
      assert order == order[..n] + [order[n]];
    }
  }

  lemma PositionsGrow(front: seq<Field>, last: Field, f: Field)
    ensures PositionsOf(front + [last], f) == PositionsOf(front, f) + if last == f then {|front|} else {}
    ensures |front| !in PositionsOf(front, f)
  {
  }

  /** The last statement for a field, by position. */
  function Rank(f: Field): nat {
    match f
    case CanPause => |MERGE_ORDER|
    case CanControl => 3
    case CanGoNext => 1
    case CanGoPrevious => 2
    case CanPlay => 4
    case CanSeek => 5
    case LoopStatus => 6
    case Volume => 10
    case Shuffle => 9
    case Position => 8
    case PlaybackStatus => 7
    case Bitrate => 11
    case ArtUrl => 12
    case Length => 13
    case TrackId => 14
    case Album => 15
    case AlbumArtist => 16
    case Artist => 17
    case Comment => 18
    case Title => 19
    case TrackNumber => 20
    case Url => 21
    case Genre => 22
    case MbTrackId => 23
    case MbAlbumId => 24
    case MbArtistId => 25
    case MbAlbumArtistId => 26
  }

  lemma RankOf(j: nat)
    requires 0 < j < |MERGE_ORDER|
    ensures Rank(MERGE_ORDER[j]) == j
  {
  }

  lemma RankIs(f: Field)
    requires f != CanPause
    ensures 0 < Rank(f) < |MERGE_ORDER| && MERGE_ORDER[Rank(f)] == f
  {
  }

  lemma MergeOrderOccurrences(f: Field)
    ensures Occurrences(MERGE_ORDER, f) == if f == CanPause then 0 else if f == CanControl then 2 else 1
  {
    OccurrencesAt(MERGE_ORDER, f);
    var at := PositionsOf(MERGE_ORDER, f);
    assert MERGE_ORDER[0] == CanControl && |MERGE_ORDER| == 27;
    if f != CanPause { RankIs(f); }
    forall j | j in at && j > 0
      ensures j == Rank(f)
    {
      RankOf(j);
    }
    if f == CanPause {
      assert at == {};
    } else if f == CanControl {
      assert at == {0, 3};
    } else {
      assert at == {Rank(f)};
    }
  }

  /** What merging does: it copies exactly the loaded fields that differ, and clears the bits of
      the loaded fields that do not. `CanPause` is neither copied nor cleared, and the bit of
      `CanControl` does not survive, whether the field differed or not. */
  lemma MergeExact(oldp: Properties, newp: Properties, loaded: Mask, f: Field)
    ensures var r := MergeInto(oldp, newp, loaded);
            && At(r.props, f) == (if f in loaded && f != CanPause then At(newp, f) else At(oldp, f))
            && (f in r.mask <==>
                  f in loaded && (f == CanPause || (f != CanControl && At(oldp, f) != At(newp, f))))
  {
    CopyAllExact(MERGE_ORDER, Merge(oldp, loaded), newp, f);
    MergeOrderOccurrences(f);
  }

  /** Above the threshold there is no exception. */
  lemma MergeOfMattering(oldp: Properties, newp: Properties, loaded: Mask, f: Field)
    requires Matters(f)
    ensures var r := MergeInto(oldp, newp, loaded);
            && (f in r.mask <==> At(r.props, f) != At(oldp, f))
            && (f in r.mask <==> f in loaded && At(oldp, f) != At(newp, f))
  {
    MergeExact(oldp, newp, loaded, f);
  }

  /** The bits that `load_metadata` adds: a title, album, artist or album artist speaks for its
      MusicBrainz identifier, which becomes empty when the message does not have it. */
  function WithImpliedBits(m: Mask): Mask {
    m + (if Title in m then {MbTrackId} else {})
      + (if Album in m then {MbAlbumId} else {})
      + (if Artist in m then {MbArtistId} else {})
      + (if AlbumArtist in m then {MbAlbumArtistId} else {})
  }

  /** The MusicBrainz identifier that goes with a field. */
  function IdentifierOf(f: Field): Field
    requires f in {Title, Album, Artist, AlbumArtist}
  {
    match f
    case Title => MbTrackId
    case Album => MbAlbumId
    case Artist => MbArtistId
    case _ => MbAlbumArtistId
  }

  /** So after a message with a new title, album, artist or album artist the stored identifier is
      never the old one's: it is the one of the message, or none. */
  lemma IdentifierFollows(oldp: Properties, newp: Properties, m: Mask, f: Field)
    requires f in {Title, Album, Artist, AlbumArtist} && f in m
    ensures var r := MergeInto(oldp, newp, WithImpliedBits(m));
            && At(r.props, f) == At(newp, f)
            && At(r.props, IdentifierOf(f)) == At(newp, IdentifierOf(f))
  {
    MergeExact(oldp, newp, WithImpliedBits(m), IdentifierOf(f));
    MergeExact(oldp, newp, WithImpliedBits(m), f);
    hide MergeInto;
  }

  /** And the added bits are only these: a field is in the mask if it was there, or if it is the
      identifier of one that was. */
  lemma ImpliedBitsExact(m: Mask, g: Field)
    ensures g in WithImpliedBits(m) <==>
              g in m || exists f :: f in {Title, Album, Artist, AlbumArtist} && f in m && IdentifierOf(f) == g
  {
    if g in WithImpliedBits(m) && g !in m {
      var f := if g == MbTrackId then Title else if g == MbAlbumId then Album
               else if g == MbArtistId then Artist else AlbumArtist;
      assert f in {Title, Album, Artist, AlbumArtist} && f in m && IdentifierOf(f) == g;
    }
  }

  /** Exactly the fields below the position do not matter for scrobbling, and of those that do, all but
      the position and the status are the track's. */
  lemma MattersExactly(f: Field)
    ensures Matters(f) <==>
              f !in {CanControl, CanGoNext, CanGoPrevious, CanPause, CanPlay, CanSeek, LoopStatus, Volume, Shuffle}
    ensures IsTrackField(f) <==> Matters(f) && f != Position && f != PlaybackStatus
  {
  }

  /** The bits of some fields as numbers: the first, the threshold, and the last. */
  lemma BitNumbers()
    ensures Pow2(Index(CanControl)) == 0x1 && Pow2(Index(CanPause)) == 0x8 && Pow2(Index(Shuffle)) == 0x100
    ensures Pow2(Index(Position)) == 0x200 && Pow2(Index(PlaybackStatus)) == 0x400 && Pow2(Index(Bitrate)) == 0x800
    ensures Pow2(Index(MbAlbumArtistId)) == 0x400_0000
  {
    BitPlaces();
    hide Index;
    SmallPowers();
    PowersAdd(11, 11);
    PowersAdd(22, 4);
    hide Pow2;
    assert Pow2(22) == Pow2(11) * Pow2(11) == 0x40_0000;
    assert Pow2(26) == Pow2(22) * Pow2(4) == 0x400_0000;
  }

  lemma BitPlaces()
    ensures Index(CanControl) == 0 && Index(CanPause) == 3 && Index(Shuffle) == 8
    ensures Index(Position) == 9 && Index(PlaybackStatus) == 10 && Index(Bitrate) == 11
    ensures Index(MbAlbumArtistId) == 26
  {
  }

  lemma SmallPowers()
    ensures Pow2(0) == 0x1 && Pow2(3) == 0x8 && Pow2(4) == 0x10 && Pow2(8) == 0x100
    ensures Pow2(9) == 0x200 && Pow2(10) == 0x400 && Pow2(11) == 0x800
  {
    assert Pow2(4) == 0x10;
    assert Pow2(8) == 0x100;
  }

  lemma {:induction false} PowersAdd(j: nat, k: nat)
    ensures Pow2(j + k) == Pow2(j) * Pow2(k)
  {
    if k > 0 {
      PowersAdd(j, k - 1);
    }
  }

  /** What properties hold before anything is loaded. */
  lemma NothingLoaded(f: Field)
    ensures NumberOf(map[], f) == 0 && TextOf(map[], f) == "" && TextsOf(map[], f) == []
    ensures At(map[], f) in {Flag(false), Decimal(0.0), Number(0), Text(""), Texts([])}
  {
  }
}
