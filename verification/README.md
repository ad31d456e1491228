# A verified model of mpris-scrobbler

mpris-scrobbler listens to media players over D-Bus, decides when a track has been played long
enough, and submits it to last.fm, libre.fm and ListenBrainz. This project models the parts of it
that decide something, in Dafny, and proves what they promise.

| module | models |
|---|---|
| `Properties`, `Scrobbles` | the merge of a property-change message under its change mask, the mask predicates, loading a scrobble, the play-time bound and the validators of the services |
| `Playback`, `PlaybackRuns` | one player with its two timers as a state machine over signals, timers and reloads, and the theorems over all its runs |
| `Player` | the same player as a class that is updated in place; every method is proved to perform the step of `Playback` |
| `Queue`, `PlayerDelivery` | the scrobble queue, the filter per service and the requests, and players that share the queue |
| `Resubmission`, `StartTimes`, `NowPlaying` | which steps arm the timers, again or for the first time, and what the payloads then hold |
| `Submission` | a track from the signal that starts it to the request that reports it, in the units of the messages |
| `Rfc1321`, `Md5`, `Md5Bijection`, `Md5Suite` | RFC 1321 as functions, the in-place implementation proved against it, its inverse and its padding, and digests of the RFC's test suite |
| `Signature`, `SignatureBody`, `SignatureOrder` | the last.fm request bodies with their buffers, their signature, what a server reads in them, and the order of what is signed |
| `Strings` | trimming in place of buffers that carry a length and end in NULs |
| `IniText`, `Ini`, `IniRoundTrip`, `IniLines` | the INI format as a fold over lines, the reader and the writer as loops, the exact domain on which they undo each other, and what the reader makes of each form of line |
| `Credentials`, `CredentialsRoundTrip` | the mapping between credentials and INI groups, and the whole way to the file and back |
| `StretchyArray` | the growable arrays |

Where the source loops over buffers or overwrites fields, the model is a method or a class with
loops and invariants, proved against a function of the old state; the theorems are lemmas about
those functions.

## Conventions

- A libevent timer is a flag (the struct is initialised) and an optional deadline; libevent takes an
  event off before it calls back. `time(NULL)` is a parameter, one value a step. `double` is `real`
  and `time_t` is `int`.
- The change mask is a set of fields. Its number is computed from the bits of
  `enum mpris_load_types`, and the comparison that the code makes on the number is proved to ask for
  a field (`Properties.HappenedExact`).
- `scrobble_is_empty` compares the pointer with zero, so it is false for every scrobble that exists.
- MD5 words are 32-bit vectors; conversions and shifts of the length are modelled as the code has them.
- The sine table is a constant; RFC 1321, section 3.4, defines it by `floor(4294967296 * abs(sin(i)))`. The digests
  of the test suite of RFC 1321, appendix A.5, are derived from it (`Md5Suite`).
- Percent-encoding is an argument of the builders.

## What was found on the way

- The length words of MD5 are right exactly when the length modulo 2^61 is below 2^32, which covers
  every message below 2^32 bytes (`Md5.CodedTextExact`).
- Play time is counted right over a pause exactly when at least one second had been played: a pause at
  zero seconds leaves no play time, and the resumed track gets the start time zero
  (`PlaybackRuns.PauseResumeExact`).
- The time clause of the validators subtracts the play time from the bound before comparing, so for a
  positive play time it asks for half of T only (`Scrobbles.PlayedEnoughExactly`). The queue timer is
  stricter: it fires floor(T) seconds after the start time at the earliest (`PlaybackRuns.RunIsLongEnough`).
- The flag `scrobbled` is never set: resuming a track arms its queue timer again even when the track was
  submitted before the pause (`PlaybackRuns.ResumeArmsAgain`). After a pause at any later time the timer is
  due at the very resume, and the services accept the track again (`Resubmission.SubmittedTwice`).
- A track that starts at a reported position is due one second earlier than the bound when the fraction of
  the position exceeds that of the target, and at once beyond the target
  (`PlaybackRuns.StartWithPosition`).
- The merge leaves out `can_pause` and does `can_control` twice, so `can_pause` is never copied and the
  bit of `can_control` is always cleared (`Properties.MergeExact`). Neither bit matters for scrobbling.
- With position exactly at the length, the now-playing chain makes one attempt more than
  ceil((length - position) / 65) (`PlaybackRuns.ChainExact`).
- A request with two or more tracks puts timestamps and titles in descending order of their index, so
  the signed string is not the one that section 8 of the Last.fm Authentication API specification asks
  for; with at most one track it is (`SignatureOrder.SignedAsSpecified`). The defect is latent: starting from
  an empty queue, every queue timer appends one track and hands over the whole queue, so every scrobble request
  holds one track, is signed as specified and fits its arrays (`PlayerDelivery.RequestsHoldOneTrack`,
  `PlayerDelivery.PlayersSignAsSpecified`, `PlayerDelivery.PlayersBuild`).
- The scrobble builder prints every album, title and track identifier into a buffer for 383 characters
  on its way to the body (`src/audioscrobbler_api.h:584-586`, `655-657`, `709-711`), but signs them whole.
  The body is the intended one exactly when the encoded texts fit (`SignatureBody.ScrobbleBodyExact`). A title
  that is encoded in more than 373 characters, such as 42 CJK letters, loses its separator, and a server
  finds no signature but a title that runs on into it (`SignatureBody.LongTitleRunsOn`,
  `SignatureBody.LongTitleExample`). The now-playing builder has no such buffers.
- A track without a reported length arms a queue timer that is due at once. When it fires, the play time is
  how late it fires, and no service accepts the track (`PlaybackRuns.StartWithoutLength`). It loses nothing
  else: the other tracks are delivered as ever (`PlayerDelivery.PlayersDeliver`).
- A reload arms the timers of a playing track without its start time: with no stored position, which is how a
  new track leaves it, the start time becomes zero, the whole delay begins again, and the track is then accepted
  with a play time counted from zero and reported with the time stamp zero (`StartTimes.ReloadLosesStart`). Over whole
  runs the start time is zero exactly when the last step that armed the timer was such a reload, a resume without
  a play time, or came at a clock that reads just the whole seconds played (`StartTimes.RunStartIsZero`).
- A full configuration of ten known entries is written to the credentials file, and then aborts the next load, which
  asserts that there are fewer than ten groups (`src/configuration.h:434`). The sign-on program can produce it by
  appending a tenth entry (`src/signon.c:302-311`). Nine entries come back, ten do not
  (`CredentialsRoundTrip.FullConfigurationFails`).
- The manual page `doc/mpris-scrobbler-credentials.5.scd` says that spaces around names and values are
  ignored and that `enabled` takes `enabled` or `disabled`. In the code a value starts after the first
  space that follows the equal sign, so `key=value` assigns nothing (`src/ini.h:121-130`, `IniLines.NoSpaceNoValue`), and only a value that
  starts with `true`, `1`, `false` or `0` sets the flag (`src/configuration.h:306-320`). Lines that start
  with `#` are comments too. The model follows the code.
- The reader does not terminate on an assignment whose first space after the equal sign is followed by
  another space (`Ini.ScanFinishesExactly`, `Ini.DoubledExactly`). So a credentials file with a user name that
  starts with a space is written but hangs the program that reads it, and one with a URL of more than
  1012 characters overruns its line buffer (`CredentialsRoundTrip.PipelineReadsExactly`).
- An empty key survives writing and reading, and a group name does as long as it holds no `]` and no
  space after an equal sign (`IniRoundTrip.RoundTripExact`).

## Model

| member | source | states |
|---|---|---|
| `PlaybackRuns.RunAccounts` | src/scrobble.h:548-580 | over any interleaving of pauses (each at least one second into play), resumes, other signals about the same track and now-playing timers, while the track plays the queue timer is due at start time + floor(T) + 1 and now - start time is the time spent playing; while it is paused that time is kept, so paused time never counts |
| `PlaybackRuns.StartIsAccounted` | src/scrobble.h:415-420 | a message that starts a track without a position puts the player in an accounted state with nothing played |
| `PlaybackRuns.StartWithPosition` | src/scrobble.h:409-418 | a message that starts a track at a position: start time now - floor(position), deadline start time + floor(T) + 1, one second less exactly when the fraction of the position exceeds that of T, and at once beyond T + 1; and the player is accounted for, with the whole seconds played, whenever the deadline is the first of these |
| `PlaybackRuns.DelayAtPosition` | src/scrobble.h:149-156 | the truncated delay for every play time at arming |
| `PlaybackRuns.StartWithoutLength` | src/scrobble.h:151-153 | a track without a length starts with a timer that is due at once; its play time when it fires is how late it fires, and no service accepts it |
| `Submission.StartInMicroseconds` | src/scrobble.h:403-420 | a track of n microseconds that starts without a position is due at now + min(480, n / 1000000) / 2 + 1, in whole seconds |
| `Submission.StartAtMicroseconds` | src/scrobble.h:403-418 | the same for a track that starts at a position of m microseconds |
| `Submission.TrackIsReported` | src/scrobble.h:436-443 | a track of half a minute or more with title, album and artist: when its timer fires, however late, every service accepts it, and the body of a request for it holds its texts and the time of its start, each under its name |
| `PlaybackRuns.DueAtBound` | src/sevents.h:224-231 | in an accounted state the queue timer is due exactly when the track plays and the accumulated play time has reached the bound |
| `PlaybackRuns.PauseResumeExact` | src/scrobble.h:571-579 | a pause and a resume keep the played time exactly when at least one second was played; otherwise the start time becomes zero |
| `PlaybackRuns.ResumeArmsAgain` | src/scrobble.h:548-559 | resuming a stopped track always leaves its queue timer pending, whatever was submitted before |
| `Resubmission.ArmsExactly` | src/scrobble.h:548-604 | with no queue timer pending, exactly a reload while the track plays, or a signal that leaves the player playing and changes its status or a track field, leaves one pending |
| `Resubmission.SubmittedTwice` | src/scrobble.h:548-580 | a run for any accounted player: the queue timer fires, the track is paused and resumed at any later times, and the timer is due again; both appended tracks have the same title, album and artist and every service accepts both |
| `StartTimes.RunStart` | src/scrobble.h:415-420 | over every run the payload of the queue timer holds the start time given by the step that armed it last: the arrival of a new track or the clock set back by its position, the clock set back by the time played, or on a reload the clock set back by the stored position |
| `StartTimes.RunStartIsZero` | src/scrobble.h:390-421 | over every run that start time is zero exactly if the last arming step was a reload without a stored position, a resume without a play time, or at a clock that reads just the whole seconds played, or not beyond zero |
| `StartTimes.NextStart` | src/scrobble.h:548-604 | a step sets the start time exactly if it arms the timer, and to what |
| `StartTimes.ReloadLosesStart` | src/scrobble.h:592-604 | reloading an accounted track without a stored position sets its start time to zero, arms the whole delay again, and makes it pass the time clause |
| `NowPlaying.ArmingArmsBoth` | src/scrobble.h:549-603 | every step that arms arms both timers for the track that the stored properties describe: now-playing at once, the queue after the truncated delay, with the position and play time of the signal, the reload or the resume |
| `NowPlaying.NewTrackChain` | src/sevents.h:92-132 | a new track without a position gets ceil(length / 65) now-playing attempts, 65 seconds apart from its arrival on, for the track that the properties describe |
| `NowPlaying.OtherSignals` | src/scrobble.h:548-580 | any other signal arms nothing, and leaves both payloads alone while the player plays |
| `NowPlaying.DeliveredProperties` | src/scrobble.h:560-562 | what a signal leaves of every property: what it loaded, except that the position of a new track that reports no new one is set to zero |
| `NowPlaying.LeftAlone` | src/sdbus.h:1381-1420 | an ignored player is not changed, and the timers of one without a name or a scrobbler are never touched |
| `NowPlaying.StoppedExactly` | src/scrobble.h:566-579 | what stopping leaves of both payloads, with and without a start time |
| `NowPlaying.FiredExactly` | src/sevents.h:170-199 | a queue timer that fires is not pending any more, and nothing else of the player changes |
| `NowPlaying.ValidExactly` | src/smpris.h:63-66 | which players are valid |
| `PlaybackRuns.RunIsHygienic` | src/scrobble.h:529-580 | in every state a valid player reaches, a pending timer implies that its event struct is initialised, that the stored status is Playing and that the player is not ignored |
| `PlaybackRuns.RunIsSound` | src/sdbus.h:1381-1390 | over every run each mask bit from position upwards is set exactly when a merge since the last clear changed that field, and the comparison with the position bit asks whether there is one |
| `PlaybackRuns.RedeliveryKeepsTimers` | src/sdbus.h:1384-1388 | delivering the same message again, from a mask without pending changes, leaves both timers and both payloads as they were |
| `PlaybackRuns.RedeliveredFields` | src/scrobble.h:560-562 | all that a second delivery can find changed is the position, and only where handling the first one reset it to zero |
| `PlaybackRuns.RunIsLongEnough` | src/sevents.h:201-234 | over every run, of any signals, timers and reloads, a pending queue timer of a track of at least 30 seconds is due no earlier than floor(T) seconds after the start time of its payload, T being half the track or four minutes |
| `PlaybackRuns.FiredTrackIsAccepted` | src/scrobble.h:436-443 | when the queue timer fires after any run, the appended track passes the time clause of all validators at any later clock, and is accepted by ListenBrainz if it has title and artist, and by every service if it has an album too |
| `PlaybackRuns.ChainExact` | src/sevents.h:92-132 | an undisturbed now-playing chain makes exactly ceil((length - position) / 65) attempts (one when the two are equal), 65 seconds apart in time, position and play time, none beyond the length, all for the same track |
| `PlaybackRuns.ChainShrinks` | src/sevents.h:129-131 | every firing of the now-playing timer decreases a natural number, so the chain stops |
| `PlaybackRuns.HandleIsHygienic` | src/scrobble.h:563-580 | handling a signal leaves timers pending only if the player plays |
| `PlaybackRuns.HandledProps` | src/scrobble.h:560-589 | handling a signal clears the mask and changes no property except that it may reset the position |
| `PlaybackRuns.MergedField` | src/sdbus.h:1384-1387 | after a merge a field that matters is in the pending mask exactly when it was there or its stored value changed |
| `PlaybackRuns.SameTrackMask` | src/smpris.h:97-120 | a signal that repeats the track fields never looks like a new track, and says that the status changed only if it did |
| `Player.EventPayload.EventDel` | src/sevents.h:153-155 | deleting takes the deadline away and keeps the event initialised |
| `Player.EventPayload.EventAssign` | src/sevents.h:156-160 | assigning, which needs an event that is not pending, gives an initialised event without a deadline |
| `Player.EventPayload.EventAdd` | src/sevents.h:226-231 | adding sets the deadline to now plus the delay |
| `Player.EventPayload.EventClear` | src/scrobble.h:568-569 | overwriting with zeros, which needs an event that is not pending, leaves nothing to delete |
| `Player.MprisPlayer.AddEventNowPlaying` | src/sevents.h:134-168 | arms the now-playing timer in place, with position and play time moved on by the delay; nothing for an ignored player |
| `Player.MprisPlayer.AddEventQueue` | src/sevents.h:201-234 | arms the queue timer in place with the truncated delay; nothing for an ignored player |
| `Player.MprisPlayer.LoadPropertiesIfChanged` | src/sdbus.h:755-786 | the merge in place, statement by statement, is the merge whose effect `Properties.MergeExact` states |
| `Player.MprisPlayer.EventClear` | src/sevents.h:263-275 | empties the mask and resets the timestamp, the two fields of the event that are read |
| `Player.MprisPlayer.LoadScrobble` | src/scrobble.h:390-434 | filling the scrobble field by field gives the loaded scrobble whose times `Scrobbles.LoadedTimes` states |
| `Player.MprisPlayer.LoadTimes` | src/scrobble.h:408-421 | sets position, play time and start time and nothing else |
| `Player.MprisPlayer.StateLoadedProperties` | src/scrobble.h:524-590 | performs the handling step of the state machine on the player and both payloads |
| `Player.MprisPlayer.ArmIfChanged` | src/scrobble.h:549-559 | arms both timers exactly if the track or the status changed, with the resumed play time |
| `Player.MprisPlayer.RemoveTimers` | src/scrobble.h:563-580 | removes both timers and keeps the time played so far in the queue payload |
| `Player.MprisPlayer.DeliverSignal` | src/sdbus.h:1370-1423 | performs the signal step of the state machine for a known player |
| `Player.MprisPlayer.CheckPlayer` | src/scrobble.h:592-604 | performs the reload step of the state machine |
| `Player.MprisPlayer.SendNowPlaying` | src/sevents.h:92-132 | performs the step of the now-playing timer and sends exactly the attempt to the services that accept it |
| `Player.MprisPlayer.QueueTrack` | src/sevents.h:170-199 | performs the step of the queue timer: everything pending and then this track goes to the services, and the queue is empty afterwards |
| `Properties.HappenedExact` | src/scrobble.h:105-108 | comparing the mask with the position bit as numbers asks whether any field from position upwards is set |
| `Properties.ValueBits` | src/structs.h:194-225 | the number of a mask has a bit set exactly for the fields in it |
| `Properties.ChangedTrackExact` | src/smpris.h:102-120 | the track predicate asks whether any field from bitrate upwards is set |
| `Properties.MergeExact` | src/sdbus.h:755-786 | every field is copied exactly if loaded, except `can_pause`, and keeps its bit exactly if it differed, except `can_pause`, which keeps it always, and `can_control`, which never does |
| `Properties.MergeOfMattering` | src/sdbus.h:746-753 | for the fields that matter the remaining mask is exactly what the merge changed, which is what was loaded and differed |
| `Properties.CopyAllExact` | src/sdbus.h:746-753 | what a list of copy statements does to one field, by how often the field occurs in it |
| `Properties.MergeOrderOccurrences` | src/sdbus.h:758-784 | `can_pause` has no copy statement, `can_control` has two and every other field has one |
| `Properties.IdentifierFollows` | src/sdbus.h:351-374 | with the implied bits, a message with a title, album, artist or album artist replaces its MusicBrainz identifier too, so no old one survives |
| `Properties.ImpliedBitsExact` | src/sdbus.h:351-374 | the bits added are exactly the identifiers of the fields in the mask |
| `Properties.MattersExactly` | src/structs.h:194-223 | which fields lie below the position bit, and which are the track's |
| `Properties.BitNumbers` | src/structs.h:194-225 | the numbers of the bits at both ends and around the threshold |
| `Properties.NothingLoaded` | src/smpris.h:11-15 | fresh properties hold zeros and empty texts |
| `Scrobbles.LoadedTimes` | src/scrobble.h:401-421 | when each of position, play time and start time is set and to what, and that the start time lies the whole seconds of the play time before now |
| `Scrobbles.PlayedEnoughExactly` | src/audioscrobbler_api.h:127-138 | for a positive play time the time clause is exactly 2 * play time >= T, T being half the track or four minutes |
| `Scrobbles.TimerIsLongEnough` | src/scrobble.h:149-156 | for every length from 30 seconds and every play time at arming, a timer that fires no earlier than its truncated delay fires at least floor(T) seconds after the start time, and so with a play time that passes the clause |
| `Scrobbles.TargetBounds` | src/scrobble.h:154-155 | the target lies between 15 seconds and four minutes |
| `Scrobbles.DelayInMicroseconds` | src/scrobble.h:149-156 | the delay of a track of n microseconds of which nothing was played |
| `Scrobbles.LengthInMicroseconds` | src/scrobble.h:403-405 | the length in seconds of n microseconds, and the target as half of the whole seconds, 240 at most |
| `Scrobbles.LoadedFields` | src/scrobble.h:395-432 | every text, list and number of a loaded scrobble is that of its own property |
| `Scrobbles.ScrobbleAcceptedExactly` | src/audioscrobbler_api.h:122-144 | a track is accepted exactly if it lasts 30 seconds, enough of it was played, and it has a title, an artist and, except for ListenBrainz, an album |
| `Scrobbles.NowPlayingAcceptedExactly` | src/audioscrobbler_api.h:102-119 | the same for now-playing, with the position within the length |
| `Scrobbles.ServedExactly` | src/api.h:446-449 | which entries are served: enabled ones for ListenBrainz, and enabled ones for last.fm and libre.fm with key and secret |
| `Queue.Scrobbler.Append` | src/scrobble.h:436-466 | appends the track with the play time since its start, within the capacity |
| `Queue.Scrobbler.Filter` | src/scrobbler.h:235-243 | the filled array holds the accepted tracks in order |
| `Queue.Scrobbler.ApiRequestDo` | src/scrobbler.h:220-267 | appends exactly one request for each enabled and valid service that accepts something |
| `Queue.Scrobbler.ConsumeQueue` | src/scrobble.h:480-517 | hands over the whole queue in order and leaves it empty |
| `Queue.AcceptedExact` | src/scrobbler.h:237-243 | the filtered tracks are a subsequence, all accepted, with every accepted track as often as before |
| `Queue.AudioscrobblerWithinListenbrainz` | src/listenbrainz_api.h:56-77 | at one clock the batch for any service is a subsequence of the batch for ListenBrainz |
| `Queue.RequestsExact` | src/scrobbler.h:227-247 | a request is sent exactly if its credentials are configured, enabled and valid and its non-empty tracks are those that the service accepts |
| `Queue.QueueConserves` | src/scrobble.h:480-517 | over any interleaving of appends and consumes, what was consumed followed by what is pending is what was appended, in order |
| `Queue.RunDelivers` | src/scrobbler.h:220-267 | over any such run in which tracks of at least 30 seconds enter later than they started, whatever the others do, a service receives exactly the accepted part of everything consumed, in order |
| `PlayerDelivery.PlayersDeliver` | src/sevents.h:170-199 | over every legal run of any number of players that share the queue, all that their queue timers appended has been handed over, and each enabled and valid entry has received exactly the accepted part, each track once and in order |
| `PlayerDelivery.AppendsAreLate` | src/sevents.h:187-192 | in every such run a track of at least 30 seconds is appended at least a second after its start time, which is what `Queue.RunDelivers` asks |
| `PlayerDelivery.NothingStaysPending` | src/sevents.h:192-198 | the queue is empty between the steps of the players |
| `PlayerDelivery.RequestsHoldOneTrack` | src/sevents.h:192-198 | over every legal run from an empty queue every scrobble request holds exactly one track |
| `PlayerDelivery.PlayersSignAsSpecified` | src/audioscrobbler_api.h:562-734 | so every scrobble request that is sent signs the string that section 8 of the Last.fm Authentication API specification names |
| `PlayerDelivery.PlayersBuild` | src/audioscrobbler_api.h:562-734 | and is built within its arrays |
| `Queue.ReceivedOfRequests` | src/scrobbler.h:227-266 | of one dispatch, a service receives exactly what it accepts, whatever the other entries are |
| `Queue.RequestsFollowCredentials` | src/scrobbler.h:227-266 | one dispatch sends its requests in the order of the entries, at most one for each |
| `Queue.QueuedKeeps` | src/scrobble.h:440-443 | entering the queue changes the play time only |
| `Queue.AppendedExactly` | src/scrobble.h:436-466 | a run appends the tracks of its steps, each once and in order |
| `Md5.Md5` | src/md5.h:53-142 | the digest is the RFC 1321 digest for every length whose length words are right, and for all other lengths that of the text as padded by the code |
| `Md5.MainLoop` | src/md5.h:97-125 | the loop with rotating registers computes the 64 operations of RFC 1321, section 3.4 |
| `Md5.StepIsOperation` | src/md5.h:104-125 | one turn of the loop is the operation of RFC 1321 with the registers in their rotated roles |
| `Md5.StepComputesNewValue` | src/md5.h:120-124 | one turn computes the new value of RFC 1321 from the same four registers |
| `Md5.MixIsAux` | src/md5.h:105-118 | the four mixing expressions are F, G, H and I, the second one written differently |
| `Md5.LeftRotateIsRotation` | src/md5.h:35 | the macro rotates, for all amounts used |
| `Md5.WordChoiceIsWordIndex` | src/md5.h:105-118 | the formulas for the word index give the word order that RFC 1321 lists |
| `Md5.ShiftsAreAmounts` | src/md5.h:8-14 | the table of shifts gives the amounts that RFC 1321 lists |
| `Md5.CodedTextExact` | src/md5.h:74-87 | the padded text is the one of RFC 1321 exactly when the length modulo 2^61 is below 2^32 |
| `Md5.LengthBytesExact` | src/md5.h:84-87 | the last eight bytes are the little-endian bit length exactly for those lengths |
| `Md5.PadMessage` | src/md5.h:74-87 | the search loop stops, and the buffer is the message, the marker, fewer than 64 zeros and the length words |
| `Md5.ToBytes` | src/md5.h:37-43 | writes the word in little-endian order and nothing else |
| `Md5.LoadWords` | src/md5.h:92-95 | the words of the block |
| `Md5.ProcessOneMore` | src/md5.h:91-132 | the chunk loop is a left fold over the blocks |
| `Md5.WriteDigest` | src/md5.h:137-141 | the four registers in order, little-endian |
| `Rfc1321.Padded` | src/md5.h:69-74 | the padded length is a multiple of 64, at least the length + 9 and at most the length + 72 |
| `Rfc1321.WordRoundTrip` | src/md5.h:37-51 | a word read back from its bytes is the word |
| `Rfc1321.BytesRoundTrip` | src/md5.h:45-51 | four bytes written back from their word are the bytes |
| `Rfc1321.DigitsRoundTrip` | src/md5.h:84-87 | four base-256 digits determine a number below 2^32 |
| `Md5Bijection.OperationsAreBijective` | src/md5.h:97-125 | for every block the 64 steps are a bijection on the four registers: a state leads to a result exactly if running the result backwards gives the state |
| `Md5Bijection.StepBackUndoesStep` | src/md5.h:120-124 | the inverse step undoes the step |
| `Md5Bijection.StepUndoesStepBack` | src/md5.h:120-124 | the step undoes the inverse step |
| `Md5Bijection.BackUndoesOperations` | src/md5.h:104-125 | any number of steps is undone by as many inverse steps |
| `Md5Bijection.OperationsUndoBack` | src/md5.h:104-125 | and the other way round |
| `Md5Bijection.UnpaddedOfCodedText` | src/md5.h:74-87 | the message can be read back from its padded text, for messages below 2^32 bytes |
| `Md5Bijection.PaddingIsInjective` | src/md5.h:74-87 | two messages below 2^32 bytes have equal padded texts exactly if they are equal |
| `Md5Suite.EmptyDigest` | src/md5.h:53-142 | the digest of the empty message is the one of RFC 1321, appendix A.5 |
| `Md5Suite.AbcDigest` | src/md5.h:53-142 | so is that of "abc" |
| `Md5Suite.DigitsDigest` | src/md5.h:53-142 | and that of eighty digits, which takes two blocks |
| `Md5Suite.List1` | src/md5.h:8-33 | the first eight operations use the words, shifts and constants that RFC 1321, section 3.4, lists; seven more lemmas go through the others |
| `Signature.ApiGetSignature` | src/audioscrobbler_api.h:286-305 | the signature is the hexadecimal RFC 1321 digest of the string followed by the secret |
| `Signature.HexOf` | src/audioscrobbler_api.h:302-304 | the printing loop gives two digits a byte, in order |
| `Signature.HexRoundTrip` | src/audioscrobbler_api.h:302-304 | the printed digest determines the digest |
| `Signature.JoinArtists` | src/audioscrobbler_api.h:473-487 | the artists that are set, in order, separated |
| `Signature.RequestBody.Append` | src/audioscrobbler_api.h:584-590 | the body and the signed string grow by what the buffers leave of the same parameter |
| `Signature.CutBodyExact` | src/audioscrobbler_api.h:584-586 | nothing is lost of a body exactly when every piece fits its buffer; otherwise it is shorter |
| `Signature.CutSigExact` | src/audioscrobbler_api.h:588-592 | the same for the signed string |
| `Signature.BuiltExactly` | src/audioscrobbler_api.h:722-727 | when the signed pieces fit, the body that is built is the intended one, whole and signed, exactly if the pieces of the body fit |
| `Signature.BuildNowPlaying` | src/audioscrobbler_api.h:434-559 | the body is the whole parameters followed by the signature of exactly these; nothing without valid credentials |
| `Signature.NowPlayingIsWhole` | src/audioscrobbler_api.h:449-543 | the now-playing builder loses nothing, because its pieces go to the body directly |
| `Signature.BuildScrobble` | src/audioscrobbler_api.h:562-734 | for any number of tracks, with timestamps and titles from the last track to the first, the body is what the buffers leave of the parameters, followed by the signature of what they leave of the string; it is the intended one exactly when the pieces of the body fit |
| `Signature.AppendTimestamps` | src/audioscrobbler_api.h:688-700 | the descending loop over the timestamps, through buffers for 383 characters |
| `Signature.AppendTitles` | src/audioscrobbler_api.h:702-720 | the descending loop over the titles, through buffers for 383 characters in the body and 401 in the signed string |
| `Signature.AppendAlbums` | src/audioscrobbler_api.h:575-595 | the ascending loop over the albums, through the same buffers |
| `Signature.AppendArtists` | src/audioscrobbler_api.h:609-645 | the ascending loop over the artists, without those that are empty, through buffers for 3082 and 3080 characters |
| `Signature.AppendMbids` | src/audioscrobbler_api.h:647-667 | the ascending loop over the track identifiers, without those that are empty, through buffers for 383 and 400 characters |
| `SignatureBody.ScrobbleBodyExact` | src/audioscrobbler_api.h:562-734 | for tracks within their fields and a body within its array, the body is the intended one exactly when for every track the encoded album, title, artist and identifier fit, by the lengths given in the contract |
| `SignatureBody.ScrobblePiecesFit` | src/audioscrobbler_api.h:575-721 | the pieces of the body fit exactly when those of every track do |
| `SignatureBody.ScrobbleSigPiecesFit` | src/audioscrobbler_api.h:588-592 | the signed pieces of tracks within their fields always fit |
| `SignatureBody.OneTrackIsBuildable` | src/audioscrobbler_api.h:562-734 | a request with one track, whatever its texts, stays within the arrays of the builder |
| `SignatureBody.BodyReadBack` | src/audioscrobbler_api.h:722-727 | splitting the intended body at its separators gives back exactly the signed parameters in their order and then their signature, as long as the encoding keeps clear of the separators |
| `SignatureBody.OneTrackFields` | src/audioscrobbler_api.h:562-734 | a server reads in a request for one track each text of the track under its name, the start time as a numeral of that value, and the signature |
| `SignatureBody.OneTrackSigned` | src/audioscrobbler_api.h:562-734 | the signed string of one track is these names and the texts as they are |
| `SignatureBody.NowPlayingFields` | src/audioscrobbler_api.h:434-559 | a server reads in a now-playing request each text of the track under its name |
| `SignatureBody.ArtistsJoined` | src/audioscrobbler_api.h:473-487 | one artist stands alone, more are separated by a comma and a space, and empty ones are skipped |
| `SignatureBody.TrackSigFits` | src/audioscrobbler_api.h:588-714 | up to which lengths the signed pieces of a track fit |
| `SignatureBody.CutSwallowsSignature` | src/audioscrobbler_api.h:709-711 | when only the last piece is cut, a server finds its value run on into the signature, and no signature |
| `SignatureBody.LongTitleRunsOn` | src/audioscrobbler_api.h:703-727 | which is what happens to a first title that is encoded in more than 373 characters |
| `SignatureBody.LongTitleExample` | src/audioscrobbler_api.h:709-711 | a track with a title of n plain letters fits exactly up to 373 |
| `SignatureOrder.NowPlayingInOrder` | src/audioscrobbler_api.h:449-543 | the signed parameters ascend by name, as section 8 of the Last.fm Authentication API specification asks |
| `SignatureOrder.ScrobbleOrderExact` | src/audioscrobbler_api.h:575-721 | those of a scrobble request ascend exactly when it has at most one track |
| `SignatureOrder.OrderIsUnique` | src/audioscrobbler_api.h:284-305 | there is only one way to put parameters in order, so the order by name fixes the signed string |
| `SignatureOrder.ScrobblePrefixFree` | src/audioscrobbler_api.h:575-721 | no name of a scrobble request starts another one |
| `SignatureOrder.OrderIsSigned` | src/audioscrobbler_api.h:284-305 | so two orders of the same parameters give the same string only if they are the same |
| `SignatureOrder.SignedAsSpecified` | src/audioscrobbler_api.h:688-721 | against any ordered arrangement of the same parameters: the now-playing request signs its string, the scrobble request exactly with at most one track |
| `SignatureOrder.ParametersAt` | src/audioscrobbler_api.h:575-721 | where the parameters of each track stand: albums, artists and identifiers upwards, times and titles downwards |
| `SignatureOrder.TimeRoundTrip` | src/audioscrobbler_api.h:691-696 | a printed time reads back as itself |
| `Strings.GrrrString.Empty` | src/sstrings.h:70-97 | an empty text, with NULs up to the capacity |
| `Strings.GrrrString.FromCString` | src/sstrings.h:124-139 | holds the text, with length and capacity its length |
| `Strings.GrrrString.StrLen` | src/sstrings.h:99-108 | the length of the text before the first NUL |
| `Strings.GrrrString.TrimLeft` | src/sstrings.h:231-293 | strips the left end in place, and by how much the length shrinks; a text of only such characters stays when NULs follow it within the length |
| `Strings.GrrrString.TrimLeftOf` | src/sstrings.h:250-287 | the same once characters and starting length are settled |
| `Strings.GrrrString.FindLeft` | src/sstrings.h:250-269 | the search finds the first character to keep and counts those before it |
| `Strings.GrrrString.MoveDown` | src/sstrings.h:274-285 | the copy through a second buffer moves the kept part to the front and clears what is behind it |
| `Strings.GrrrString.TrimRight` | src/sstrings.h:295-349 | strips the right end in place; the length is that of the text, or one more when NULs followed it within the length |
| `Strings.GrrrString.CutRight` | src/sstrings.h:316-339 | the backward search overwrites exactly the stripped characters |
| `Strings.GrrrString.Trim` | src/sstrings.h:351 | both together strip both ends of the text, whatever NULs follow it within the length, and the final length exactly |
| `Strings.LeftThenRight` | src/sstrings.h:351 | the right trim repairs what the left trim leaves of a blank text, so that both together are the two-sided strip |
| `Strings.BlankLeftTrimmed` | src/sstrings.h:250-287 | what the left trim leaves of a blank text with NULs behind it |
| `Strings.TrimmedLenWithoutNuls` | src/sstrings.h:316-343 | without a NUL within the length the final length is that of the stripped text |
| `Strings.StripTwice` | src/sstrings.h:351 | trimming again changes nothing |
| `Strings.StrippedStays` | src/sstrings.h:231-349 | a text stays as it is exactly if neither end can be trimmed |
| `Strings.SameRightStrip` | src/sstrings.h:307-311 | the two default character lists, in different order, strip the same |
| `Ini.PosCharLr` | src/ini.h:24-51 | the scan stops at the first such character, NUL or the end, on every input where it terminates |
| `Ini.ScanFinishesExactly` | src/ini.h:33-47 | the scan terminates exactly if it does not look for the last one and meet two in a row |
| `Ini.DoubledExactly` | src/ini.h:124 | so a line hangs the reader, which scans the line less the trimmed key, exactly if its first space after the equal sign is followed by another space |
| `Ini.FindSpace` | src/ini.h:121-124 | on every other line the scan finds the first space from the equal sign on, or the end of the line |
| `Ini.IniParse` | src/ini.h:63-148 | the reader appends to the configuration what the fold over the lines gives, returns its count, and terminates, on every buffer whose lines fit and hold no such pair; it looks at one character behind the text, and at two if the last line is not ended |
| `Ini.ReadAt` | src/ini.h:89-145 | one turn of the loop performs the step of the fold |
| `Ini.OpenGroup` | src/ini.h:94-110 | a header opens a group, and without one a default group is made once |
| `Ini.ReadHeaderName` | src/ini.h:96-101 | the name ends at the first closing bracket, or at the end of the line |
| `Ini.ReadValue` | src/ini.h:114-138 | the value of a line, read into zeroed buffers and trimmed in place, is the one of the format |
| `Ini.TrimmedCopy` | src/ini.h:116-119 | copying a piece of the line into an empty buffer and trimming it gives the stripped text and its length |
| `Ini.IniGroup.AppendValue` | src/ini_base.h:115-121 | appends the value |
| `Ini.IniConfig.AppendGroup` | src/ini_base.h:123-129 | appends the group and changes no other |
| `Ini.WriteIni` | src/ini_base.h:148-173 | the writer prints the text of the configuration |
| `Ini.WriteGroup` | src/ini_base.h:160-168 | and of one group |
| `Ini.BufferLinesOfText` | src/ini.h:74-87 | on a text without NUL the lines that the loop finds are the lines of the text |
| `Ini.NextLine` | src/ini.h:81-87 | moving on by one line leaves the fold over the rest |
| `IniText.ValuesBelongToNearestHeader` | src/ini.h:94-137 | every value belongs to the nearest header before it, or to the default group, and values and groups come in the order of their lines |
| `IniText.CommentsChangeNothing` | src/ini.h:87-93 | comment lines and blank lines anywhere change neither groups nor values nor count |
| `IniText.CommentInText` | src/ini.h:81-93 | the same for a comment inserted in a text |
| `IniText.ResultCounts` | src/ini.h:141-144 | the result counts the lines that are neither blank nor comments, or is -1 without any |
| `IniText.ParseAppend` | src/ini.h:74-145 | reading is a left fold over the lines |
| `IniText.LinesAppend` | src/ini.h:81-85 | a text is split independently on both sides of a newline |
| `IniLines.NoSpaceNoValue` | src/ini.h:121-130 | an assignment without a space behind the equal sign has no value |
| `IniLines.SpaceThenValue` | src/ini.h:114-138 | otherwise the value is what follows the first such space, and key and value are stripped; with nothing behind the space there is none |
| `IniLines.NoEqualNoValue` | src/ini.h:114-130 | a line without an equal sign has no value |
| `IniLines.WrittenAssignment` | src/ini.h:114-138 | `key = value` adds just that to the last group, and `key=value` adds nothing |
| `IniLines.HeaderNameExactly` | src/ini.h:96-101 | the name of a header ends at the first closing bracket or the end of the line |
| `IniLines.HeaderOpens` | src/ini.h:95-138 | what a header line does |
| `IniLines.FirstAssignment` | src/ini.h:106-110 | a value before any header goes to a group named `base` |
| `IniLines.SkippedExactly` | src/ini.h:87-93 | exactly blank lines and lines that open with `;` or `#` change nothing |
| `IniLines.WhitespaceExactly` | src/sstrings.h:244 | what is trimmed are space, tab, carriage return and newline |
| `IniLines.NulInBuffer` | src/ini.h:33-35 | a NUL ends a line, and at the start of a line the text |
| `IniRoundTrip.RoundTripExact` | src/ini_base.h:148-173 | for all configurations of any size, the reader gets through what was printed, within its buffers, and gives back the same groups, keys and values in the same order exactly if nothing holds a newline, names hold no `]` and no space after an equal sign, keys hold no equal sign, start with none of `[`, `;`, `#` and have no blanks at the ends, values are not empty and have no blanks at the ends, and every line fits |
| `IniRoundTrip.ReadBackIsPlain` | src/ini.h:81-138 | whatever the text, nothing that is read back holds a newline or a NUL |
| `IniRoundTrip.WrittenThenRead` | src/ini.h:63-148 | in that domain the printed text meets what `Ini.IniParse` asks, and reads back the same |
| `IniRoundTrip.PrintedLinesReadable` | src/ini.h:89-133 | the printed lines fit the buffer, the read past the value included, exactly if names and values are within these bounds |
| `IniRoundTrip.ValueLineReadable` | src/ini.h:121-133 | a printed assignment is readable exactly if its value does not start with a space and the line with the copy that starts at the value fits |
| `IniRoundTrip.ValueLineExact` | src/ini_base.h:165 | one assignment comes back exactly for those keys and values |
| `IniRoundTrip.HeaderOutExact` | src/ini.h:95-138 | a header line falls through to the assignment code and yields no value exactly if no space follows an equal sign in the name |
| `IniRoundTrip.HeaderReread` | src/ini.h:96-101 | a printed header reads back its name exactly if the name holds no closing bracket |
| `IniRoundTrip.GroupExact` | src/ini_base.h:160-168 | one group comes back exactly in that domain |
| `IniRoundTrip.LinesOfPrint` | src/ini_base.h:148-173 | the lines of the printed text |
| `IniRoundTrip.ParseOfDoc` | src/ini.h:63-148 | what a printed text that the reader gets through reads back as, for all names and values |
| `Credentials.GetIniFromCredentials` | src/configuration.h:77-117 | one group for each entry of a known service, in order, with the settings that are not empty; nothing for no entries |
| `Credentials.NewGroup` | src/configuration.h:90-111 | the group of one entry |
| `Credentials.LoadCredentialsFromIniGroup` | src/configuration.h:276-347 | one entry of the array becomes what its group says, and no other entry changes |
| `Credentials.ApplySetting` | src/configuration.h:306-344 | the effect of one setting, keys being compared by prefix, and the URL only for the services that have one |
| `Credentials.ApplyEnabled` | src/configuration.h:306-320 | the flag as the value says, or as it was |
| `Credentials.Configuration.LoadCredentials` | src/configuration.h:426-466 | all entries are reset, then loaded from the groups in order, and counted |
| `CredentialsRoundTrip.PipelineExact` | src/configuration.h:276-347 | credentials written to groups, text, groups and credentials come back in order with service, flag, user name, token, session key and (except for last.fm) URL, entries of unknown services being exactly the ones dropped, exactly if no field holds a newline, the file is read and loaded, and these fields have no blanks at their ends |
| `CredentialsRoundTrip.PipelineReadsExactly` | src/ini.h:63-148 | the reader gets through the printed file exactly if no written field starts with a space and every line fits |
| `CredentialsRoundTrip.PipelineLoadsExactly` | src/configuration.h:426-449 | the printed file is read and loaded exactly if, further, what is read fits the arrays of the fields and there are fewer than ten known entries |
| `CredentialsRoundTrip.FullConfigurationFails` | src/configuration.h:434 | any number below ten of the same storable entry comes back, and ten or more do not |
| `CredentialsRoundTrip.SaveText` | src/configuration.h:616-647 | the program that writes the file gives the printed text of the entries |
| `CredentialsRoundTrip.LoadText` | src/configuration.h:363-449 | the program that reads and loads the file leaves what the reader and the loader say in the configuration, and clears the other entries |
| `CredentialsRoundTrip.SaveAndLoad` | src/configuration.h:616-647 | the two programs together leave in the configuration exactly what the pipeline says |
| `CredentialsRoundTrip.PipelineLoads` | src/configuration.h:77-117 | what comes back whenever the file is read and loaded: the known entries, their fields stripped |
| `CredentialsRoundTrip.FileRoundTrip` | src/configuration.h:426-449 | entries within their arrays come back exactly if there are fewer than ten known ones, no field holds a newline, the loaded fields have no blanks at their ends and the URL, loaded or not, neither starts with a space nor exceeds 1012 characters |
| `CredentialsRoundTrip.RereadHolds` | src/configuration.h:291-345 | a group that was written and read has values, and they fit the arrays exactly if the stripped fields do |
| `CredentialsRoundTrip.LoadOfGroup` | src/configuration.h:284-345 | one entry, written and read |
| `CredentialsRoundTrip.OnlyItself` | src/configuration.h:306-336 | although keys are compared by prefix, each printed key sets only its own field |
| `CredentialsRoundTrip.ServiceOfLabel` | src/configuration.h:284-290 | the label of a service is read as that service |
| `CredentialsRoundTrip.ServiceNames` | src/configuration.h:284-290 | the names of the services in the file |
| `CredentialsRoundTrip.FullGroup` | src/configuration.h:93-111 | the settings of a full entry by their names in the file, in order |
| `CredentialsRoundTrip.OneGroup` | src/ini_base.h:160-168 | the text of a group: its name in brackets, its settings, and a blank line |
| `CredentialsRoundTrip.SettingLoads` | src/configuration.h:306-344 | each setting sets the field of its name and no other, the URL only for the services that have one |
| `CredentialsRoundTrip.FlagValues` | src/configuration.h:306-320 | which values set, clear and leave the flag |
| `StretchyArray.RunIsAmortised` | src/stb_ds.h:268-296 | over any run the length is within the capacity, the elements carried across growths total at most the capacity, and that is at most max(4, twice the elements ever added) |
| `StretchyArray.StepKeepsAmortised` | src/stb_ds.h:280-284 | one step keeps that bound and never lowers the capacity |
| `StretchyArray.Array.MaybeGrow` | src/stb_ds.h:224-227 | there is room afterwards, the elements are kept, and when and by how much the capacity grows |
| `StretchyArray.Array.Put` | src/stb_ds.h:212 | appends one element |
| `StretchyArray.Array.Pop` | src/stb_ds.h:214 | returns and removes the last element |
| `StretchyArray.Array.AddN` | src/stb_ds.h:215 | appends slots whose contents are not set |
| `StretchyArray.Array.InsN` | src/stb_ds.h:221 | opens slots at a position and keeps the elements on both sides in order |
| `StretchyArray.Array.DelN` | src/stb_ds.h:219 | removes the elements at a position and keeps the rest in order |
| `StretchyArray.Array.DelSwap` | src/stb_ds.h:220 | moves the last element over the deleted one |
| `StretchyArray.InsertThenDelete` | src/stb_ds.h:219-221 | deleting what was inserted gives back the elements |
| `StretchyArray.SwapDeleteRemovesOne` | src/stb_ds.h:220 | as a multiset, exactly one element is removed |
| `StretchyArray.SwapDeleteExactly` | src/stb_ds.h:220 | the last element takes the place of the deleted one, and no other moves |
| `StretchyArray.AddThenRemove` | src/stb_ds.h:212-219 | popping undoes a put, and deleting at the end undoes adding there |
| `StretchyArray.PutsCapacity` | src/stb_ds.h:280-284 | after n puts into an empty array the capacity is the smallest of 4, 8, 16 and so on that holds them |

## Left out

- D-Bus: decoding of messages, the connection, player discovery and the branch that adds a player to the list. A message is the decoded values and the mask that says which were loaded. The key for the MusicBrainz album artist sets the bit of the artist identifier (`src/sdbus.h:335-337`); that belongs to decoding.
- Player-list removal (`src/sdbus.h:1102-1110`): the loop does not keep the other players, so there is no property of the kind to prove.
- libevent, libcurl, json-c, signals and logging: foreign calls. Their effect is a deadline, a request or nothing.
- Connection slots (`src/scrobbler.h:248-258`) and retries: requests are a sequence.
- Queue persistence and the rest of file access: the reader takes the buffer and the writer gives the text.
- The ListenBrainz request body, endpoints and URLs, headers, command line and environment: only easy members.
- Percent-encoding: a function that the builders are given.
- `src/configuration.h:395-424` (ignored players) and the application keys that are compiled in.
- Running over an array in the request builders: that the body, the signed string and the joined artists fit theirs is a precondition. The buffers of single pieces are modelled.
- Allocation failure, NULL arguments and the wrap-around of `size_t`.
- `arrsetcap`, `arrsetlen` and hash tables of `src/stb_ds.h`.
- Trimming of buffers that hold other characters after a NUL within their length: no caller builds one.
- Lines that do not fit the buffer of 1024 bytes, and the lines on which the reader does not terminate: `Ini.IniParse` requires that there are none.
- Groups without values: loading asserts that there are some (`src/configuration.h:291`), so that is a precondition of `Credentials.LoadCredentialsFromIniGroup`.
- Floating-point rounding: seconds are real numbers.
- `PlaybackRuns.RunAccounts`: is about runs up to the firing of the queue timer, because afterwards the payload keeps its start time and a resume arms it again (`PlaybackRuns.ResumeArmsAgain`).
- `PlaybackRuns.ChainExact`: takes every timer to fire at its deadline; later firings only move the attempts.
- `Player.MprisPlayer.EventClear`: the player state, the change flags and the sender of an event are cleared too, but nothing that is modelled reads them.
- `Resubmission.SubmittedTwice`: its run has one pause; further pauses and resumes submit the track again in the same way.
- `CredentialsRoundTrip.PipelineExact`: takes last.fm URLs without newlines; such a URL is written but not loaded, so a newline in it may leave no trace.
