# mpdcron: verified models of the scrobbler and the statistics module

mpdcron watches an MPD server and feeds two modules. The scrobbler submits played songs to an
Audioscrobbler server and keeps unsent songs in a journal; the statistics module counts plays in
a database and answers a line protocol that the `eugene` client speaks. This project models the
state machines and codecs of both and proves what they promise.

| files | what they model |
|---|---|
| Text, Records | C strings, decimal numbers, `struct record` |
| PostData, Bodies | request bodies and their percent escapes, and what a server reads in the bodies of a run |
| Submission, Scrobbler, SubmissionProofs, Sessions, Announcements | the submission protocol: a state machine on values, the `struct scrobbler` object with its callbacks, the theorems over all runs, what replies mean, and which now-playing records are announced |
| Journal, JournalProofs, JournalSessions, Restarts | the journal files, their printer and line reader, the static flag they share, and the scrobbler over a restart |
| Player, PlayerProofs, Songs | player events, the play timer, and what started and ended songs lead to |
| Playback | the player machine, the scrobbler and the ledger run together |
| Tokens, Tokenizer, TokenLaws, CommandLine | the command line protocol: the in-place tokenizer, what it accepts, argv, the client's printer |
| Commands, Dispatch, Requests | the command table and its binary search, permissions, client sessions, and the way of each command from the client to its handler |
| Responses, ResponseProofs | the server's answers and the client's parsers |
| TagStrings, Karma, Ledger | the tags column, karma, and the rows `db_process` keeps |
| PollSet | reconciliation of the registered poll descriptors |

How the models are built:

* An object whose methods change it is a class here. Each method is proved to take the object
  where a function on values goes, and the theorems are about that function.
* A failed C assertion is the state `aborted` of the submission protocol, not a precondition.
* `http_client_request` may call a handler before it returns. Every step takes a list of replies
  that arrive that way; any finite chain of nested callbacks is such a list.
* Input from outside (server replies, the clock, the calendar, file contents, descriptor sets,
  failing SQL statements) is a parameter, arbitrary in every theorem. One `char` is one byte.
* Requests and replies, songs on offer, started and ended songs are recorded in ghost fields.

What the proofs show about the code as it is:

* A song with an artist but no title is announced to the scrobbler, and an idle scrobbler then
  fails an assertion (`Playback.UntitledPlaybackAborts`). `SubmissionProofs.AbortsExactly` gives the
  exact condition; nothing else can fail an assertion of scrobbler-submit.c.
* The comment above the command table says it has to be sorted, but the `rate_absolute` rows come
  after `rate_genre`. `Commands.LookupExact` shows that exactly three commands, `rate_album`,
  `rate_artist` and `rate_genre`, are never found.
* An OK for a notification also discards a newer record that replaced it. Over a run the song set
  last is announced if and only if it has a title and that did not happen
  (`Announcements.LastAnnouncedExactly`); five events lose any second song
  (`Announcements.SecondSongIsNeverAnnounced`).
* After a start with an empty journal, emptying the queue does not empty the file, and accepted
  songs come back (`JournalSessions.AcceptedSongsComeBack`). The flag behind it is shared, so another
  scrobbler's empty journal has the same effect (`JournalSessions.OtherJournalDecides`);
  `JournalSessions.SavesAgreeExactly` gives the exact condition.
* A queue comes back from its journal as itself if and only if every value in it has at most 1019
  bytes, no white space around it and no newline, and no time stamp is a legacy one
  (`JournalProofs.JournalRoundTrip`). So the blank that a split stream title starts with is lost.
  The bytes of a long value behind the 1019th are read as a line of their own
  (`JournalProofs.LineReadsExactly`), which can overwrite a short value
  (`JournalProofs.TrackIsOverwritten`).
* Songs are submitted exactly once over a restart if and only if the queue survives in that sense
  and its save is not skipped (`Restarts.RestartConservesExactly`); after a crash the first songs of
  the saved queue are submitted twice (`Restarts.CrashResubmitsExactly`).
* Removing a tag from an album never changes it, since the statement has a stray quote
  (`TagStrings.AlbumTagsExactly`). A tag with a doubled quote is stored with one
  (`TagStrings.LiteralExact`).
* A newline in a command argument cuts the command, and 15 arguments are too many
  (`CommandLine.CommandRoundTrip`).
* Stream titles are compared by address, so every further event of a titled stream ends and
  restarts the song (`PlayerProofs.TitledStreamRestarts`); `PlayerProofs.RestartsExactly` gives the
  exact condition.
* The comment in `played_long_enough` asks for at least 240 seconds or half of the song; the code
  for more than either, and half only of songs of thirty seconds (`Songs.CommentDiffersExactly`).
* A reply "FAILED" with a reason is an unknown response in the code, which treats it like any other
  failure (`SubmissionProofs.FailedIsRejected`).
* Song and artist counts differ by the calls that failed between the two statements
  (`Ledger.SongsAndArtistsBalance`).

## Model

| member | source | states |
|---|---|---|
| SubmissionProofs.FifoConservation | src/gmodule/scrobbler/scrobbler-submit.c:366-437 | Over every run of events, timers and replies, synchronous or not: journal songs followed by pushed songs equal the accepted batches in order followed by the queue, and a batch in flight is the first 1 to 10 songs of the queue. |
| SubmissionProofs.SongsLeaveOnlyWhenDelivered | src/gmodule/scrobbler/scrobbler-submit.c:390-409 | For every step from a state satisfying the invariant: songs leave the queue only at its head, and exactly those that the step got accepted. |
| SubmissionProofs.AbortsExactly | src/gmodule/scrobbler/scrobbler-submit.c:288-516 | A step from a state satisfying the invariant fails an assertion if and only if a record without title reaches an idle scrobbler or sits in the slot when the reply to a notification is judged; otherwise the whole control invariant survives, for any chain of synchronous replies. |
| SubmissionProofs.RunAbortsExactly | src/gmodule/scrobbler/scrobbler-submit.c:288-754 | Over whole runs: an assertion has failed iff some event met the scrobbler in one of those situations. |
| SubmissionProofs.NothingInvented | src/gmodule/scrobbler/scrobbler-submit.c:648-657 | Whatever is queued or delivered in a run came from the journal or from a push. |
| SubmissionProofs.RunInv | src/gmodule/scrobbler/scrobbler-submit.c:377-562 | In every reachable state the timers, the outstanding request, the session fields and `pending` are those of the phase: handshake timer iff NOTHING, submit timer only in READY, one request outstanding iff HANDSHAKE or SUBMITTING, session and URLs present in READY and SUBMITTING. |
| SubmissionProofs.TitledRunsNeverAbort | src/gmodule/scrobbler/scrobbler-submit.c:552-581 | When every now-playing record has artist and track, no run ever fails an assertion. |
| SubmissionProofs.UntitledSongAborts | src/gmodule/scrobbler/scrobbler-submit.c:745-754 | A run of two events in which an undefined now-playing record fails the assertion of `scrobbler_schedule_submit`. |
| SubmissionProofs.SynchronousRepliesDefer | src/gmodule/scrobbler/scrobbler-curl.c:477-540 | A reply delivered inside `http_client_request` has the effect of the same reply delivered later by the main loop, for every event and every chain of nested replies. |
| SubmissionProofs.NoLostWakeUp | src/gmodule/scrobbler/scrobbler-submit.c:552-562 | In every reachable state a queued song or defined notification has a timer or an outstanding request that will revisit it. |
| Announcements.EverythingDrains | src/gmodule/scrobbler/scrobbler-submit.c:377-420 | From every state of a titled run the event the state waits for, answered by a server that accepts everything, submits the whole backlog, of any length. The record in the slot is then the one announced last iff that event is not an OK for another record's notification. |
| SubmissionProofs.BackoffOverRuns | src/gmodule/scrobbler/scrobbler-submit.c:198-210 | Along every run the interval and each armed timer equal min(60*2^(n-1), 7200) after n failures since the last success (1 when n is 0) and stay in 1..7200; the 32-bit shift never wraps. |
| SubmissionProofs.OneSoundRequestAtATime | src/gmodule/scrobbler/scrobbler-submit.c:518-646 | On the wire requests and replies alternate; every request has a session, a non-empty URL, at most ten songs and the prescribed body. |
| Sessions.HandshakeReadsLines | src/gmodule/scrobbler/scrobbler-submit.c:296-318 | A handshake succeeds iff its first line starts with OK and neither address is empty; the second line is the session, the third the notification address, the fourth the submission address. |
| Sessions.FailedHandshakeKeeps | src/gmodule/scrobbler/scrobbler-submit.c:320-333 | An OK with an empty address clears the session and both addresses; any other failure leaves them. |
| Sessions.RequestsAreAddressed | src/gmodule/scrobbler/scrobbler-submit.c:518-646 | Over every run each batch goes to the submission address and each notification to the notification address of the last handshake reply before it that succeeded, both under its session. |
| Sessions.VerdictExactly | src/gmodule/scrobbler/scrobbler-submit.c:212-235 | A submission is accepted iff the first line of the reply is OK, and its session lost iff that is BADSESSION. |
| Sessions.SongsComeFirst | src/gmodule/scrobbler/scrobbler-submit.c:592-631 | A scrobbler that looks for work sends the first songs of its queue, all or ten of them, before the notification. |
| Announcements.AnnouncedExactly | src/gmodule/scrobbler/scrobbler-submit.c:399-405 | An OK for a notification empties the slot; the record in it is the one announced last, then and after any further synchronous replies, iff it is the one the notification was for. |
| Announcements.LastAnnouncedExactly | src/gmodule/scrobbler/scrobbler-submit.c:377-581 | Over every run that fails no assertion and ends with nothing to announce: the record set last is the one on the newest notification iff it has artist and track and no OK for another record's notification arrived while it sat in the slot. |
| Announcements.SecondSongIsNeverAnnounced | src/gmodule/scrobbler/scrobbler-submit.c:399-405 | A run of five events from the start, for any two different titled records, that drains with one notification on the wire, for the first. |
| Scrobbling.Scrobbler.Submit | src/gmodule/scrobbler/scrobbler-submit.c:583-646 | The object goes where `Submission.Submit` goes, nested callbacks included. |
| Scrobbling.Scrobbler.SubmitResponse | src/gmodule/scrobbler/scrobbler-submit.c:377-420 | Likewise for the judgement of a reply to a submission or notification. |
| Scrobbling.Scrobbler.HandshakeResponse | src/gmodule/scrobbler/scrobbler-submit.c:288-341 | Likewise for a handshake reply: session lines, empty URLs, back-off, first submission. |
| Scrobbling.Scrobbler.PrintBatch | src/gmodule/scrobbler/scrobbler-submit.c:608-631 | The loop prints the body of the first ten songs of the queue, or of all. |
| PostData.BodyRoundTrip | src/gmodule/scrobbler/scrobbler-submit.c:157-190 | A form reader (split at `&` and the first `=`, undo percent escapes) recovers exactly the variables added to a body, for any bytes. |
| PostData.EscapeExactly | src/gmodule/scrobbler/scrobbler-curl.c:457-460 | Letters, digits and `-._~` are sent as they are, every other byte as a percent sign and two upper-case hexadecimal digits. |
| Bodies.BodiesAreReadBack | src/gmodule/scrobbler/scrobbler-submit.c:518-646 | Over every run: such a reader finds in the body of each batch the session under s and, for song k of the request, artist, track, length, time, source, an empty rating, album, number and mbid under a[k], t[k], l[k], i[k], o[k], r[k], b[k], n[k] and m[k]; and likewise in the body of a notification. |
| JournalProofs.JournalRoundTrip | src/gmodule/scrobbler/scrobbler-journal.c:42-98 | Every queue is restored from its journal as itself iff all its records are complete and tidy and all their values have at most 1019 bytes; complete records with newline-free values of that length come back in the same order, stripped, with legacy time stamps converted. |
| JournalProofs.JournalNormalises | src/gmodule/scrobbler/scrobbler-journal.c:107-212 | The records read from any file come back from writing and reading them again iff their values fit, and doing that once more changes nothing, legacy time stamps included. |
| JournalProofs.ReadRecordsTidy | src/gmodule/scrobbler/scrobbler-journal.c:174-211 | Whatever a file holds, every record read from it has artist and track, stripped newline-free values, a source, and a time stamp that reads back unchanged. |
| JournalProofs.LineReadsExactly | src/gmodule/scrobbler/scrobbler-journal.c:174-206 | A printed value of at most 1019 bytes is read as one setting, stripped; of a longer one the first 1019 bytes are, and the rest is read as a line of its own. The setting has the printed value iff that fits and has no white space around it. |
| JournalProofs.SettingsExactly | src/gmodule/scrobbler/scrobbler-journal.c:176-188 | On any line, white space around key and value does not matter; comments and lines without a key or an equals sign say nothing. |
| JournalProofs.TimestampExactly | src/gmodule/scrobbler/scrobbler-journal.c:107-150 | A time stamp of a ten-byte date, a blank and a time is converted by way of the calendar; every other one stays. |
| JournalProofs.TrackIsOverwritten | src/gmodule/scrobbler/scrobbler-journal.c:174-206 | An album of 1019 bytes followed by a track line: the journal gives back that track instead of the one that was saved. |
| JournalSessions.SavesAgreeExactly | src/gmodule/scrobbler/scrobbler-journal.c:62-81 | After any sequence of saves, of several journals, some of which fail: the file holds what was printed for the queue saved last iff that queue is not empty, or the flag is clear, or the file never held a record; it holds the queue itself iff moreover its records are tidy and fit. |
| JournalSessions.FlagIsTheLastLoaded | src/gmodule/scrobbler/scrobbler-journal.c:153-163 | After a session of loads and saves the flag tells whether the journal loaded last, of whichever scrobbler, held no complete record. |
| JournalSessions.AcceptedSongsComeBack | src/gmodule/scrobbler/scrobbler-journal.c:62-67 | Load of a missing journal, save of a record, save of the emptied queue: the file still holds the record. |
| JournalSessions.OtherJournalDecides | src/gmodule/scrobbler/scrobbler-submit.c:706-720 | A journal with records, loaded before another one that has none, keeps them when its emptied queue is saved; loaded after it, it is emptied. |
| Restarts.RestartConservesExactly | src/gmodule/scrobbler/scrobbler-submit.c:706-770 | A run, a save of its queue, and a run from the file: together they submit or keep every song exactly once, in order, iff the queued records are tidy and fit and the save was not skipped over records still in the file. |
| Restarts.CrashResubmitsExactly | src/gmodule/scrobbler/scrobbler-submit.c:706-770 | When events follow the save before the crash: the songs submitted twice are the first of the saved queue, as many as both runs deliver, and those lost are the ones pushed after the save and not accepted before the crash. |
| Journal.JournalStore.Read | src/gmodule/scrobbler/scrobbler-journal.c:153-212 | The `fgets` loop computes `ReadOnto` and leaves the flag true iff no record was committed. |
| Journal.JournalStore.Write | src/gmodule/scrobbler/scrobbler-journal.c:62-81 | What is written to which file, and when the save is skipped. |
| PlayerProofs.SongsAreBracketed | src/gmodule/scrobbler/scrobbler-module.c:147-263 | Over every sequence of events and clock ticks, for both modules: starts and ends alternate, an end names the song last started, `prev` is NULL iff `last_id` is -1 and otherwise has that id, and `g_timer_continue` only meets a stopped timer. |
| PlayerProofs.TimerIsAccurate | src/gmodule/scrobbler/scrobbler-module.c:158-177 | While a song is open the timer is active iff the player plays and shows the summed un-paused time since the start. |
| PlayerProofs.EndsAreAccurate | src/gmodule/stats/stats-module.c:183-237 | An event ends at most one song, credited with the whole seconds that were heard of it. |
| PlayerProofs.RestartsExactly | src/gmodule/scrobbler/scrobbler-module.c:57-264 | Over every run: a playing event for the open song ends and restarts it iff the song was started as a stream and it or its earlier copy has a title, or it began again: for the scrobbler within its first minute, with more than 240 seconds or half of at least thirty heard beyond the new position; for the statistics module with more heard than the new position. |
| PlayerProofs.TitledStreamRestarts | src/gmodule/scrobbler/scrobbler-module.c:232-246 | A run of two playing events for one titled stream starts it, ends it with the time between them and starts it again. |
| PlayerProofs.RepeatedSongRestarts | src/gmodule/stats/stats-module.c:101-113 | Runs in which a local song of 200 seconds is logged as ended and started again at its second second by both modules, and at its 70th by the statistics module alone. |
| PlayerEvents.EventPlayer.OnEvent | src/gmodule/scrobbler/scrobbler-module.c:210-264 | `event_player` on the module's globals goes where `Handle` goes. |
| Songs.SubmittedExactly | src/gmodule/scrobbler/scrobbler-module.c:103-145 | A song that ends is submitted iff its tags or its stream title name an artist and a title and more than 240 seconds, or more than half of at least 30, were heard. |
| Songs.StreamTitleSplit | src/gmodule/utils.h:133-160 | What the artist and the title of a stream title with a dash are. |
| Songs.RecordFieldsExactly | src/gmodule/scrobbler/scrobbler-submit.c:564-704 | Which tag of a song goes into which field of its announcement and of its submission, with time, length and source. |
| Songs.CommentDiffersExactly | src/gmodule/scrobbler/scrobbler-module.c:45-55 | The plays that the comment describes and the code refuses. |
| Songs.NothingCountedUnheard | src/gmodule/stats/stats-module.c:68-99 | The statistics module counts a play iff that much was heard, and reports the percentage of the seconds heard. |
| Playback.PlaysAreConserved | src/gmodule/scrobbler/scrobbler-module.c:65-264 | Over every run of player and scrobbler together: the journal's records and the images of the songs that ended are the accepted records followed by the queue; an assertion has failed iff a record without title met the scrobbler in one of the situations above, which takes a song that has an artist and no title. |
| Playback.LastSongIsAnnounced | src/gmodule/scrobbler/scrobbler-submit.c:564-581 | In a run of both machines that fails no assertion and has nothing left to announce, the server was last told of the song that started last iff it has a title and no OK for another song overtook it. |
| Playback.UntitledPlaybackAborts | src/gmodule/scrobbler/scrobbler-module.c:65-95 | A run of both machines, greeting and one player event, in which an artist without a title fails the assertion. |
| Playback.QueuedRecordsComplete | src/gmodule/scrobbler/scrobbler-submit.c:659-704 | In a run of both machines every record ever queued or delivered has artist, track and source, so the journal writer's assertion holds. |
| Playback.CountsAreHeardPlays | src/gmodule/stats/stats-module.c:68-99 | Over every run of the statistics module, whatever statements fail: a song has a row iff a listen of it was noted, and its count is the number of noted listens that were heard for long enough. |
| Tokenizer.NextBare | src/gmodule/stats/tokenizer.c:46-146 | `tokenizer_next_word` and `tokenizer_next_unquoted` on the buffer: word, rest and error are those of the line's text, nothing before the input or behind the terminator changes, and without a word the new position is NUL iff the line had ended. |
| Tokenizer.NextString | src/gmodule/stats/tokenizer.c:148-210 | The same for the quoted tokenizer that copies text down over the opening quote. |
| Tokenizer.NextParam | src/gmodule/stats/tokenizer.c:212-222 | The same for the dispatching tokenizer. |
| Tokenizer.Strchug | src/gmodule/stats/tokenizer.c:71-77 | The tail moves down to the same address; nothing else changes. |
| CommandLine.CutCommand | src/gmodule/stats/stats-command.c:1592-1640 | In its own buffer a line is cut into exactly the argv, or the error, that its text determines; earlier words are not disturbed. |
| TokenLaws.BareTokenExactly | src/gmodule/stats/tokenizer.c:33-146 | On every line, with the characters spelled out: how far a command name or an unquoted word reaches, what is skipped behind it, and which error there is otherwise. |
| TokenLaws.QuotedTokenExactly | src/gmodule/stats/tokenizer.c:148-210 | A quoted parameter is its text without backslashes, whichever characters are escaped, iff it is closed and white space or the end follows. |
| TokenLaws.LineExactly | src/gmodule/stats/stats-command.c:1592-1640 | A line with 15 words or more has too many, whatever follows; with fewer it must end, and not with a bad word. |
| CommandLine.CommandRoundTrip | src/gmodule/stats/eugene-connection.c:653-709 | The server's argv is the client's argument list iff there are at most 14 arguments and none contains a newline. |
| CommandLine.SendCommand | src/gmodule/stats/eugene-connection.c:672-709 | The loops of `mpdcron_send_commandv` and `escape` print the escaped, quoted line. |
| Commands.SearchComplete | src/gmodule/stats/stats-command.c:1500-1520 | On strictly sorted rows the search finds a name iff it is there. |
| Commands.LookupExact | src/gmodule/stats/stats-command.c:1431-1496 | On the table as it is, the search finds exactly 47 of the 50 rows, each at its position, and nothing else. |
| Commands.Lookup | src/gmodule/stats/stats-command.c:1500-1520 | The do-while loop computes the search, and terminates. |
| Dispatch.InvokedExactly | src/gmodule/stats/stats-command.c:1522-1590 | A handler runs iff argv names its reachable row, the client holds the row's bits and argc is what the handler asserts. |
| Dispatch.CountExactly | src/gmodule/stats/stats-command.c:1522-1560 | The count check admits the numbers of arguments between the two columns, -1 meaning no limit. |
| Dispatch.DefaultsAreUnguarded | src/gmodule/stats/stats-file.c:90-167 | For any configuration no default permission is one that a configured password grants. |
| Dispatch.DefaultsExactly | src/gmodule/stats/stats-file.c:90-104 | A permission is a default iff its word is listed and no later word is none. |
| Dispatch.ConfigurationExactly | src/gmodule/stats/stats-file.c:90-167 | From the two lists to the configuration: both permissions are defaults without a list of them, a password grants what its last valid entry says, and a default stays iff no valid entry grants it. |
| Dispatch.SessionExact | src/gmodule/stats/stats-command.c:1418-1429 | Over any session a client's bits are the defaults plus those of the listed passwords it sent while the database accepted the authorizer. |
| Dispatch.GuardedUntilPassword | src/gmodule/stats/stats-server.c:141 | From configuration to handler: before a password that grants a bit is sent, no handler needing that bit runs, if some password grants it. |
| Requests.FamilyChecked | src/gmodule/stats/stats-command.c:1430-1566 | For each command by name, in its variants for songs, albums, artists and genres: three are unknown, then the permission it needs counts, then its number of arguments, and the handler is its own. |
| Requests.OthersUnknown | src/gmodule/stats/stats-command.c:1500-1566 | Every name beside those, karma and password is unknown. |
| Requests.CommandReachesHandler | src/gmodule/stats/stats-command.c:1592-1666 | From the client's argument list to the handler: a command reaches it iff it is not one of the three, the client may, it has its number of arguments and no newline. |
| Requests.PasswordIsHeard | src/gmodule/stats/stats-command.c:1418-1429 | A password the client sends raises its permissions by what the configuration gives it, and is refused if that is nothing. |
| Dispatch.Client.CommandProcess | src/gmodule/stats/stats-command.c:1592-1666 | One line in its buffer: outcome, error lines and new permissions are those its text, the outcomes of setting and removing the authorizer and the handler's own answer determine. |
| Dispatch.ErrorsExactly | src/gmodule/stats/stats-command.c:1592-1666 | Which error lines a client is sent: unknown command or bad arguments, the authorizer that cannot be set, the handler's, and one more when the authorizer cannot be removed. |
| Dispatch.LoadPermissions | src/gmodule/stats/stats-file.c:90-167 | The two configuration loops compute `Load`. |
| ResponseProofs.ResponseRoundTrip | src/gmodule/stats/eugene-connection.c:254-612 | For songs, albums, artists and genres and the list, listinfo and listtags views: the client ends up with the server's rows reversed, every shown field equal, and no assertion fails. |
| ResponseProofs.ListedTagsAreCurrent | src/gmodule/stats/stats-command.c:1080-1207 | Listing the tags of a row delivers, newest first, what its history of addtag and rmtag left; for an album iff no rmtag named a tag that had been added. |
| ResponseProofs.AckRoundTrip | src/gmodule/stats/eugene-connection.c:101-163 | An error line decodes to its code always, and to its message iff that is non-empty and does not start with a blank. |
| ResponseProofs.AnswerSpelled | src/gmodule/stats/stats-command.c:253-502 | What the server sends for one row without tags, byte for byte, for the four kinds and three views. |
| ResponseProofs.ErrorRefuses | src/gmodule/stats/eugene-connection.c:541-547 | An error line after any rows refuses the command with the server's code and message; no row is returned. |
| ResponseProofs.NonsenseGarbles | src/gmodule/stats/eugene-connection.c:548-606 | A line without a pair, or with a key the parser does not know, spoils the answer after any rows. |
| ResponseProofs.EndIsNoSuccess | src/gmodule/stats/eugene-connection.c:529-533 | Rows without a final OK or error end in an end-of-file error. |
| ResponseProofs.PairBeforeIdAborts | src/gmodule/stats/eugene-connection.c:563-599 | A known pair before the first id trips an assertion of the client. |
| ResponseProofs.AckForms | src/gmodule/stats/eugene-connection.c:110-133 | An error line may carry a position; without a bracket its code is unknown, without the closing one it makes no sense. |
| ResponseProofs.MessageExactly | src/gmodule/stats/eugene-connection.c:126-144 | The message of an error line is what follows the first closing brace if there is an opening one, else all that follows the bracket, without blanks before it. |
| Responses.PrintRows | src/gmodule/stats/stats-command.c:253-502 | The handlers' row loops print `ResponseText`. |
| Responses.ParseResponse | src/gmodule/stats/eugene-connection.c:517-612 | The parsers' read loop computes `Parse`. |
| TagStrings.ColumnRefinesTags | src/gmodule/stats/stats-sqlite.c:314-347 | Over every history of additions and removals the tags column codes a list of tags that splitting recovers: the one the commands describe, or for an album all that were added. |
| TagStrings.AlbumTagsExactly | src/gmodule/stats/stats-sqlite.c:2580-2592 | An album's column agrees with the commands iff no removal named a tag that had been added before. |
| TagStrings.LiteralExact | src/gmodule/stats/stats-sqlite.c:2417-2438 | An added tag is stored as given iff it has no single quote. |
| TagStrings.AddedTagListed | src/gmodule/stats/stats-sqlite.c:314-324 | An added tag is listed last if it is not empty and has neither colon nor quote; an empty one and one with a colon change nothing. |
| TagStrings.RemoveUndoesAdd | src/gmodule/stats/stats-sqlite.c:2687-2767 | Removal is idempotent, and undoes the addition of a fresh tag, whatever tags share a prefix, iff the addition failed, or the row is no album's and the tag has no single quote. |
| TagStrings.RemoveTag | src/gmodule/stats/stats-sqlite.c:326-347 | The loop of `remove_tag` keeps exactly the non-empty pieces different from the tag, on any column. |
| Karma.KarmaStaysInRange | src/gmodule/stats/stats-command.c:1398-1408 | Over every history of plays and karma commands, refused ones included, karma is what the plays since the last accepted command made of its value, and stays in 1..100. |
| Karma.OnlyProperPlaysCount | src/gmodule/stats/stats-sqlite.c:839-846 | Plays to a percentage outside 0..100 leave karma alone. |
| Karma.RepeatedClosedForm | src/gmodule/stats/stats-sqlite.c:250-251 | n plays to percentage p halve the distance to p from below, or to p+1 from above, n times, rounding down. |
| Karma.FullPlaysAndSkips | src/gmodule/stats/stats-sqlite.c:250-251 | n full plays leave 100-k = floor((100-k0)/2^n); n skips leave k = ceil(k0/2^n). |
| Karma.SettlesWithinSevenPlays | src/gmodule/stats/stats-sqlite.c:659-666 | After seven plays to p karma is p, or p+1 when it started above p. |
| Ledger.LedgerExact | src/gmodule/stats/stats-sqlite.c:1378-1461 | Over any calls of `db_process`, failing ones included: keys are unique, a key has a row iff a call named it, its count is the number of counting calls naming it, and a song's karma follows their percentages. |
| Ledger.KeysExactly | src/gmodule/stats/stats-sqlite.c:1378-1461 | Which rows a call touches: the song's by its address, the artist's by its name, those of album and genre if there are any, as far as the call gets. |
| Ledger.TotalExact | src/gmodule/stats/stats-sqlite.c:1378-1461 | The counts of a table add up to the counting calls that touched it. |
| Ledger.SongsAndArtistsBalance | src/gmodule/stats/stats-sqlite.c:1392-1430 | The sum of song counts exceeds that of artist counts by exactly the counting calls that failed between the two statements. |
| Ledger.SongKarmaInRange | src/gmodule/stats/stats-sqlite.c:855-861 | Every song row's karma is in 1..100. |
| Ledger.Store.Process | src/gmodule/stats/stats-sqlite.c:1378-1461 | `db_process` step by step keeps all four tables what the history says, and tells whether it succeeded. |
| PollSet.HttpClient.UpdateFds | src/gmodule/scrobbler/scrobbler-curl.c:134-190 | The two passes end with exactly the descriptors curl asks for, each once with its events, all registered and nothing else; kept descriptors keep their object. |
| PollSet.FdEvents | src/gmodule/scrobbler/scrobbler-curl.c:108-128 | Input is waited for because of the read set, output because of the write set, hang-ups because of the read and error sets, errors because of any; the descriptor is cleared in all three. |

## Left out

- Several scrobblers: `as_songchange` and `as_now_playing` call every configured scrobbler; one is modelled. All they share is the flag of the journals, which is modelled for any number of paths.
- Sockets, curl transfers, the main loop and sqlite: replies, timers and statement outcomes are parameters. One callback per request is assumed; the request life cycle of scrobbler-curl.c is not part of this model.
- Nested synchronous replies: the list of replies is finite, so an endless chain inside one call is not modelled.
- Handshake URL: its time stamp and MD5 token are not modelled.
- Freeing, leaks and out-of-memory paths, `as_cleanup`, unloading.
- PollSet.FdEvents: descriptor sets are values that the method returns instead of `fd_set` objects cleared in place.
- PlayerEvents.EventPlayer.OnEvent: the GTimer is a value in a field; the clock is in whole microseconds and the truncation of the timer's double to int is exact division.
- Tokenizer.NextBare: `tokenizer_next_word` and `tokenizer_next_unquoted` are one method with the character class as a parameter; the error text is an enumeration.
- Responses.PrintRows: the twelve printers are one method over kind and view, and the four parsers one over kind; the date of `Last Played` stays the text on the wire.
- Responses.ParseResponse: a line of fewer than three bytes counts as not starting with ACK, where the source compares three bytes of its buffer.
- Text.Strtol: numbers are unbounded; a number that does not fit an int is undefined in the source, and leading vertical tabs are not skipped.
- Ledger.LedgerExact: only keys, play counts and karma of a row; the karma field means something for songs alone.
- TagStrings.ColumnRefinesTags: an added tag with a single quote that is not doubled ends its SQL literal early; the statement is then taken to fail, and what else it might mean as SQL is not modelled. Nor are SQL expressions and the statement authorizer.
- TagStrings.AlbumTagsExactly: as for TagStrings.ColumnRefinesTags.
- TagStrings.RemoveUndoesAdd: as for TagStrings.ColumnRefinesTags.
- ResponseProofs.ListedTagsAreCurrent: as for TagStrings.ColumnRefinesTags.
- Dispatch.Client.CommandProcess: what handlers other than `password` do; their error codes are a parameter.
- Answers to the other commands, `mpdcron_parse_single`, `mpdcron_parse_changes` and the welcome line: small and of the same shape.
- Client ids and the connection limit of stats-server.c: one session is modelled.
- Notification module, hooks, environment export, eugene's command lines, walrus, the Ruby scripts: plumbing.
