# A verified model of pg_mimic's protocol core

pg_mimic is a server that speaks the PostgreSQL frontend/backend protocol 3.0 in front of an arbitrary
Python session. This project models the parts of it where a mistake would be a wrong answer rather
than an error, and proves what they promise.

**Connections, transactions, settings, LISTEN/NOTIFY.** `ServerModel` is a state machine over values:
any number of connections, each advancing one uninterrupted stretch of its command loop at a time
(receive a message, run the next piece of its dispatch, finish, be cancelled, find the byte stream
broken, end), beside embedding code that broadcasts or pushes. `RunAll` is the state after any sequence
of such steps, and the theorems of `Runs`, `Stretches`, `Notifications` and `Listening` hold for every
one; `Statements` tells what each statement does, by membership and by key, and when it fails.
`SessionStates.SessionState`, `Server.Connection` and `Server.PgServer` are the mutable objects; every
method is proved equal to a function of `ServerModel`, up to `PgServer.Take`, which keeps the objects in
the state `RunAll` gives for the steps taken, so the theorems are about these objects. `TransactionLog`
is the specification beside them: a log of what a transaction did, replayed on the state at BEGIN.

**COPY.** `Copy` specifies the encoder and the incremental decoder on characters, `CopyDecoder` holds
the scanning loops and the decoder object, `CopyRoundTrip`, `CopyCsv` and `CopyText` the round trips,
and `CopySpelling` and `CopyStreams` what is read of streams the encoder does not write.

**Values.** `Arrays` and `ArrayLiteral` (binary arrays and array literals), `Numeric` (base-10000
NUMERIC), `SettingValues` (settings with units), `Portals` (rows drained over several Executes).
`ArraySpelling`, `NumericWire` and `SettingTexts` fix the texts and bytes themselves, and `ByteOrder`
the integers in them.

Some expected laws are false of the code. Each has a lemma at a concrete input where it fails and one
with the exact condition under which it holds:

- a second ROLLBACK TO of one savepoint restores nothing, or another savepoint's state
  (`SecondRollbackToMisses`, `SecondRollbackToTakesAnother`; `RollbackToExactly`);
- ROLLBACK TO can make a LISTEN of the open transaction real, although the comment at
  pg_mimic/middleware.py:707-710 calls the call there a no-op (`ListenBecomesRealEarly`;
  `RollbackToRegistersEarly`);
- a notification can follow the report of a broken byte stream (`PushedAfterFatal`;
  `PushedOnlyBetweenCommands`, `PushedNowLands`);
- a connection that is skipping until Sync can still write (`CancelBreaksTheSilence`;
  `SilenceIsBrokenOnlyBy`);
- a completed RESET ALL does not reset a setting hidden by SET LOCAL ... TO DEFAULT
  (`ResetAllMissesHidden`; `ResetAllExactly`, `ResetAllThenCommit`);
- the client's cache of a setting can differ from SHOW, but only on a server whose `parameter_status`
  was written to by embedding code (`OverriddenDisagrees`; `CacheAlwaysMatchesExactly`,
  `ShippedCacheMatches`);
- a CSV row that prints as `\.` ends the data (`MarkerRowIsLost`; `CsvRoundTrip`), other rows are lost
  under some CSV options and some text delimiters (`CsvRoundTripExactly` and `TextRoundTripExactly`, which
  name the rows), and a text value that prints as the null string comes back as NULL (`NullTextIsLost`;
  `TextRowsSurvive`);
- a list of empty lists encodes in binary and cannot be decoded (`EmptyListsAreLost`;
  `BinaryRoundTrip`);
- an array element bounded by a non-ASCII space loses it (`NoBreakSpaceIsLost`; `LiteralRoundTrip`);
- NUMERIC values of more than 28 significant digits are rounded (`TwentyNineDigitsAreLost`;
  `NumericRoundTrips`);
- a row source that raises takes the rows of that call with it, and the portal then completes with the
  smaller count (`RaisingLosesRows`; `CompletionCount`); a row that cannot be encoded is counted but not
  sent (`UnencodableIsCounted`; `CountMatchesTheWire`).

`dafny verify dfyconfig.toml` checks everything.

## Model

| member | source | states |
|---|---|---|
| `Runs.EveryRunIsGood` | pg_mimic/connection.py:439-524 | every state reachable by any interleaving of any number of connections keeps the output order, the transaction law and the registry agreement |
| `Runs.PushedOnlyBetweenCommands` | pg_mimic/connection.py:271-288 | in every run a notification or notice pushed at a connection follows or precedes a ReadyForQuery with only pushed messages in between if and only if it does not follow the report of a broken byte stream that came at a ReadyForQuery |
| `Runs.PushedNowLands` | pg_mimic/connection.py:280-283 | in every run a message pushed now is written at once exactly when the ready flag is set, and then right after a ReadyForQuery, pushed messages apart, if and only if the byte stream has not been reported broken; otherwise it is held back |
| `Runs.PushedAfterFatal` | pg_mimic/connection.py:385-398 | the exception is reached: a stream broken while idle, then a notification before the task has unregistered |
| `Runs.PushedNeverInsideACommand` | pg_mimic/connection.py:178-199 | between two replies around a pushed message there is always a ReadyForQuery, so it is never inside a row run nor after a PortalSuspended |
| `Runs.NothingLostOrReordered` | pg_mimic/connection.py:223-288 | the messages handed to a connection are those written followed by those queued, and the queue is empty whenever the ready flag is set |
| `Runs.OneReadyForQueryEach` | pg_mimic/connection.py:439-471 | one ReadyForQuery at startup and one per Query or Sync received, less the one in progress or cut short by the end of the connection |
| `Stretches.ReadyForQueryCarriesStatus` | pg_mimic/connection.py:462-470 | in every run the ReadyForQuery messages carry, in order, I for the one at startup and then the transaction status each time a Query or Sync was finished; whenever the ready flag is set the last one carries the current status |
| `Stretches.StatusesOfARun` | pg_mimic/connection.py:462-470 | the first half of that by induction over runs |
| `Stretches.SilentUntilSync` | pg_mimic/connection.py:462-482 | from an error on, over any stretch of any run in which the connection gets no Query, no Sync, no cancel request, no broken stream and does not end, it writes nothing and nothing of it changes but the queue of pushed messages |
| `Stretches.SilenceIsBrokenOnlyBy` | pg_mimic/connection.py:447-458 | in such a stretch a step writes to the connection if and only if it is a cancel request that catches a dispatch not yet over, or a broken stream |
| `Stretches.CancelBreaksTheSilence` | pg_mimic/connection.py:157-159 | an extended-protocol error, its end, another message and a cancel request that catches it: skipping, and a second ErrorResponse |
| `Stretches.ErrorsDeafen` | pg_mimic/connection.py:507-524 | in every run every error of an extended-protocol message is reported and leaves the connection in such a stretch |
| `Stretches.SilenceEnds` | pg_mimic/connection.py:462-475 | the next Query or Sync ends the silence: what the Query holds is not run, and the reports, the messages held back and one ReadyForQuery are all that is written |
| `Stretches.ErrorsFail` | pg_mimic/connection.py:447-458 | in every run every error, of a Query as well as of an extended-protocol message, is reported as the last thing written, drops the rest of the dispatch, begins skipping, and takes an open transaction to status E and status I nowhere |
| `Stretches.StatusOfEveryStep` | pg_mimic/connection.py:507-524 | the transaction status after every step of every connection: an error fails an open transaction, a statement that does not fail leaves the status it says, and nothing else changes it |
| `Stretches.FailedOnlyByError` | pg_mimic/connection.py:511-523 | a connection enters status E in a step if and only if that step is its own error in an open transaction |
| `Stretches.ErrorsAnswerFailed` | pg_mimic/connection.py:511-523 | after an error in an open transaction every ReadyForQuery the connection writes carries E, and settings, subscriptions, savepoints and pending notifications stay what the error left, over any stretch without a COMMIT, ROLLBACK or ROLLBACK TO of its own |
| `Stretches.FinishAnswers` | pg_mimic/connection.py:462-470 | the end of a Query or Sync writes, behind all before it, the reports, the messages held back, and one ReadyForQuery with the status |
| `Stretches.QueryAnswersInOrder` | pg_mimic/connection.py:439-471 | at a ReadyForQuery of any run, a Query is answered by what its dispatch writes, in that order, and one ReadyForQuery with the status |
| `Stretches.ExtendedAnswersAtSync` | pg_mimic/connection.py:462-482 | an extended-protocol message is answered at once and in order, and its ReadyForQuery waits for the Sync |
| `Stretches.FailedUntilRecovered` | pg_mimic/connection.py:640-643 | over any stretch of any run status E holds, with settings, subscriptions, pending notifications and savepoints untouched, until the connection runs COMMIT, ROLLBACK or ROLLBACK TO |
| `Stretches.OnceInStep` | pg_mimic/connection.py:161-176 | a client in step with a reported setting at any point of a run stays in step, whatever it was told at startup |
| `Stretches.OthersAreOnlyHanded` | pg_mimic/server.py:254-283 | a step of one connection does nothing to another but hand it messages |
| `Runs.RegistryAgrees` | pg_mimic/server.py:235-252 | in every run a connection is in the server's set for a channel exactly when the channel is in its registered set, no stored set is empty, registered equals subscribed in status I and the subscriptions at BEGIN or the last ROLLBACK TO otherwise, and a closed connection is in no set |
| `Runs.RegistrationsHoldInsideABlock` | pg_mimic/middleware.py:336-363 | if a step changes the registrations of a connection whose transaction stays open, that step was its own ROLLBACK TO |
| `Runs.RollbackToRegistersEarly` | pg_mimic/middleware.py:702-711 | in every run a ROLLBACK TO makes the registrations those of the frame it takes, or of the state when there is none, so it moves them if and only if these differ from the ones registered; at a transaction's first ROLLBACK TO, if and only if the subscriptions at the savepoint differ from those at BEGIN |
| `Runs.ListenBecomesRealEarly` | pg_mimic/middleware.py:707-711 | BEGIN, LISTEN x, SAVEPOINT a, ROLLBACK TO a registers x with the transaction still open |
| `Runs.TransactionsAreLawful` | pg_mimic/state.py:140-186 | in status I there are no frames, no savepoints, nothing pending and both dictionaries agree; otherwise there are 1 to savepoints + 1 frames, frame 0 is the state at BEGIN and each other one the state when the savepoint it was opened for was taken, pending has no duplicates, and the state is the replay of the log |
| `Runs.BaseIsTheStateAtBegin` | pg_mimic/middleware.py:639-657 | the base the log is replayed on is the state at the BEGIN that opened the transaction, and no other statement changes it |
| `Runs.RollbackRestoresBegin` | pg_mimic/state.py:183-186 | in every run ROLLBACK puts back visible and committed settings, subscriptions and pending notifications as they stood at BEGIN, and fans out nothing |
| `Runs.CommitKeepsTheLog` | pg_mimic/middleware.py:612-636 | in every run COMMIT leaves the replay of the log without its SET LOCAL writes and hands over exactly the notifications raised, each once |
| `Runs.CommitKeepsTheOrder` | pg_mimic/connection.py:244-259 | COMMIT fans notifications out in the order in which each was first raised |
| `Runs.RollbackToExactly` | pg_mimic/middleware.py:689-714 | in every run ROLLBACK TO restores the state at the savepoint it names if that savepoint was taken with the two stacks level and not rolled back to since, which is exactly when the frame at its index is its own; otherwise it restores the state at a savepoint taken later, or changes nothing when the stack is too short |
| `Runs.FirstRollbackToRestores` | pg_mimic/state.py:155-175 | until a transaction's first ROLLBACK TO there are exactly savepoints + 1 frames, and that one restores the state at the innermost savepoint of the name |
| `Runs.SecondRollbackToMisses` | pg_mimic/state.py:165-175 | BEGIN, SAVEPOINT a, ROLLBACK TO a, LISTEN x, ROLLBACK TO a leaves x subscribed |
| `Runs.SecondRollbackToTakesAnother` | pg_mimic/middleware.py:694-703 | with SAVEPOINT b and LISTEN y in between, the second ROLLBACK TO a restores the state at b |
| `Runs.FailedIsLeftOnlyBy` | pg_mimic/middleware.py:141-158 | status E is left only by COMMIT or ROLLBACK to I, or by ROLLBACK TO an existing savepoint to T; any other statement is refused and leaves settings, subscriptions, pending and savepoints alone |
| `Runs.OnlyTheseFanOut` | pg_mimic/connection.py:233-259 | a statement hands notifications to the server only as a NOTIFY in status I or a COMMIT of an open transaction, which hands over the pending list |
| `Runs.FanoutIsExact` | pg_mimic/server.py:254-283 | a step hands every connection exactly that step's notifications on the channels it is registered for at that moment, in order and without duplicates, and none while the transaction stays open |
| `Runs.EveryRunIsInStep` | pg_mimic/connection.py:161-176 | in every run, what a client whose startup burst agreed on a setting has been told or is owed of it is what SHOW answers, through SET, refusal, cancellation, COMMIT, ROLLBACK, ROLLBACK TO, RESET ALL and DISCARD ALL |
| `Runs.CacheMatchesShow` | pg_mimic/connection.py:423-470 | for such a client, at every ReadyForQuery the cache of the setting equals SHOW, and a setting never sent is at its default |
| `Runs.CacheAlwaysMatchesExactly` | pg_mimic/connection.py:423-470 | for clients with a given startup packet the cache equals SHOW at every ReadyForQuery of every run if and only if what the server announces agrees with the setting's default |
| `Runs.ShippedCacheMatches` | pg_mimic/server.py:29-63 | in every run of the server as shipped, at every ReadyForQuery, for every client and every reported setting, the cache equals SHOW |
| `Notifications.EveryDeliveryIsAccounted` | pg_mimic/connection.py:223-259 | in every run every notification a connection was handed was sent by the connection it names, broadcast by embedding code in its name, or pushed directly |
| `Notifications.OpenTransactionSendsNothing` | pg_mimic/connection.py:244-252 | over any stretch of a run in which a connection's transaction stays open it sends nothing |
| `Notifications.RolledBackIsNeverSent` | pg_mimic/middleware.py:628-636 | from any point inside a transaction to after the ROLLBACK that ends it the connection sends nothing, and then nothing is pending |
| `Notifications.StepSends` | pg_mimic/connection.py:254-259 | what a connection has sent grows only by its own step's notifications |
| `Notifications.HandedInOrder` | pg_mimic/server.py:254-283 | over any stretch of any run a connection registered for a channel throughout is handed exactly what was fanned out on it, in the order of the fanouts |
| `Notifications.SameOrderForBoth` | pg_mimic/server.py:254-283 | two connections registered throughout are handed the same notifications on the channel in the same order |
| `Statements.FailsExactly` | pg_mimic/middleware.py:639-740 | a statement fails if and only if it is SAVEPOINT, RELEASE or ROLLBACK TO outside a transaction, RELEASE or ROLLBACK TO of a name that is not on the stack, a DISCARD ALL inside a transaction, or a change that may not be made, has no meaning, or is refused or cancelled; SET LOCAL outside a transaction only on a name that may not be set |
| `Statements.StatusExactly` | pg_mimic/middleware.py:639-657 | BEGIN and ROLLBACK TO leave T, COMMIT and ROLLBACK leave I, and every other statement, and every one that fails, the status there was |
| `Statements.SubscriptionsExactly` | pg_mimic/middleware.py:336-363 | after LISTEN x a channel is subscribed if it was before or is x, after UNLISTEN x if it was before and is not x, after UNLISTEN * never; nothing else of the session changes, and the registrations are to follow at once only in status I |
| `Statements.NotifyExactly` | pg_mimic/connection.py:233-252 | in an open transaction NOTIFY puts its notification behind the pending ones unless it is among them, and in status I it fans it out and keeps nothing |
| `Statements.BeginExactly` | pg_mimic/middleware.py:639-655 | BEGIN outside an open block starts an empty savepoint stack over one more frame, the state as it is; inside one it does nothing |
| `Statements.SavepointExactly` | pg_mimic/middleware.py:682-687 | SAVEPOINT puts its name on the stack and a copy of the state on the frames |
| `Statements.ReleaseExactly` | pg_mimic/middleware.py:689-700 | RELEASE takes the innermost savepoint of the name and everything inside it off the stack, with their frames, and keeps the state |
| `Statements.RollbackToStack` | pg_mimic/middleware.py:689-696 | ROLLBACK TO takes everything inside the innermost savepoint of the name off the stack and keeps that one |
| `Statements.SetExactly` | pg_mimic/middleware.py:846-874 | a SET that does not fail leaves every setting at the last value it gives it, SET LOCAL in the visible dictionary alone, makes the names known, and changes nothing else of the session |
| `Statements.SetShows` | pg_mimic/middleware.py:1019-1052 | after it SHOW answers, of each setting it names, what the last text given means, or the default; of the others what it answered before |
| `Statements.SetLocalOutside` | pg_mimic/middleware.py:853-869 | a SET LOCAL outside a transaction writes a notice and changes nothing |
| `Statements.StoppedExactly` | pg_mimic/middleware.py:870-871 | a change that does not go through stops the statement and leaves the session as the changes before it left it |
| `Statements.CancelledExactly` | pg_mimic/middleware.py:1272-1283 | a change caught by a cancellation stops the statement too, but stays made |
| `Statements.AssignmentsOwe` | pg_mimic/middleware.py:919-925 | changes that go through owe the client a report of each reported setting they name, with what it reads as in the end, and of no other |
| `Statements.DiscardAllExactly` | pg_mimic/middleware.py:719-740 | a DISCARD ALL that does not fail leaves no settings, subscriptions, pending notifications, frames or savepoints, keeps the known names, and unregisters the connection |
| `Statements.FailureKeeps` | pg_mimic/middleware.py:639-740 | a statement that fails leaves subscriptions, pending notifications, savepoints and frames alone and hands nothing over |
| `Listening.NotifyReachesListeners` | pg_mimic/connection.py:233-259 | a NOTIFY in a transaction, not rolled back over, is handed at its COMMIT to every connection registered for the channel then and to no other, in every run |
| `Listening.NotifyIsPending` | pg_mimic/connection.py:247-252 | a step that runs NOTIFY in an open transaction leaves the notification pending and sends nothing |
| `Listening.RaisedStays` | pg_mimic/middleware.py:697-705 | it stays pending while the transaction stays open and no ROLLBACK TO takes up a state without it |
| `Listening.StatementHands` | pg_mimic/server.py:254-283 | what the step of any statement newly hands any connection: its notification in status I, or the pending ones at COMMIT, on the channels the connection is registered for |
| `Listening.HandedIsWritten` | pg_mimic/connection.py:271-288 | a message handed to a connection has been written to it whenever it later stands at a ReadyForQuery |
| `Listening.SubscriptionsTakeEffect` | pg_mimic/middleware.py:336-363 | in every run LISTEN, UNLISTEN and UNLISTEN * in status I leave the connection listed in the server on exactly the channels the statement says, and every other connection as it was |
| `Listening.SubscriptionsWait` | pg_mimic/middleware.py:340-363 | inside a transaction they leave the registry alone |
| `Listening.CommitRegisters` | pg_mimic/middleware.py:628-636 | and a COMMIT lists the connection on exactly the channels it is subscribed to then |
| `Listening.UnlistedHearsNothing` | pg_mimic/server.py:254-283 | no step but a direct push hands a connection anything on a channel it is not listed on |
| `Listening.UnlistenSilences` | pg_mimic/middleware.py:348-363 | after UNLISTEN x or UNLISTEN * in status I a connection is handed nothing on x, over any stretch of any run, through transactions, ROLLBACK TO and what all others do, until it runs LISTEN x |
| `Listening.ListenHears` | pg_mimic/middleware.py:336-345 | after LISTEN x in status I it is handed everything fanned out on x, in order and nothing else on x, until it unsubscribes, discards all or ends |
| `TransactionLog.ReplaySettings` | pg_mimic/middleware.py:1286-1304 | a replayed setting is its last write, or its value before; committed values ignore local writes |
| `TransactionLog.CommitDropsLocal` | pg_mimic/state.py:177-181 | copying the committed values over the visible ones is the replay without local writes |
| `TransactionLog.ReplayListening` | pg_mimic/middleware.py:336-363 | a channel is subscribed after a log exactly when the last LISTEN or UNLISTEN that concerns it says so |
| `TransactionLog.ReplayPending` | pg_mimic/connection.py:247-252 | the pending list holds each raised (channel, payload) once |
| `TransactionLog.ReplayPendingOrder` | pg_mimic/connection.py:250-252 | the pending list keeps the order of first raising |
| `SessionStates.UndoRestores` | pg_mimic/middleware.py:1286-1315 | a write the session refuses leaves both dictionaries and the known names exactly as they were |
| `Transactions.ApplyOneLawful` | pg_mimic/middleware.py:1243-1283 | one setting change, accepted, refused or cancelled, keeps the transaction law, and refused leaves the session state unchanged |
| `Transactions.EndBlockFacts` | pg_mimic/middleware.py:612-636 | the status, session state, notifications and registrations a transaction end leaves |
| `Transactions.RestoreLawful` | pg_mimic/state.py:155-175 | a restored scope and the log that goes back to that frame's log still agree, frame by frame |
| `Parameters.StartupInStep` | pg_mimic/connection.py:423-434 | at the first ReadyForQuery a client is in step with a setting if and only if the configured ParameterStatus agrees with its default |
| `Parameters.ReportPutsInStep` | pg_mimic/middleware.py:919-925 | a report puts the client in step with the setting, whatever it believed before |
| `Parameters.ShippedIsSound` | pg_mimic/middleware.py:906-916 | no two reported settings share the name a client caches them under |
| `Parameters.ShippedAgrees` | pg_mimic/server.py:29-63 | the shipped server's startup burst agrees with the default of every reported setting, whoever connects |
| `Parameters.OverriddenDisagrees` | pg_mimic/middleware.py:928-946 | a server whose `parameter_status` was written to announce standard_conforming_strings off disagrees with SHOW |
| `Parameters.ReportChangedOwes` | pg_mimic/middleware.py:624-626 | a transaction end or ROLLBACK TO owes the client a report of a setting if and only if it changed it |
| `Parameters.DefaultOf` | pg_mimic/middleware.py:928-946 | the default of each of the nine reported settings: from the startup packet, fixed, or announced by the server with a built-in value behind it |
| `Parameters.ReportedAre` | pg_mimic/middleware.py:906-916 | the nine settings reported, the names they are reported under, and no others |
| `Parameters.StartupInOrder` | pg_mimic/connection.py:423-434 | the order of the startup messages |
| `Parameters.ResetsClear` | pg_mimic/middleware.py:883-893 | a run of resets that no hook refuses takes exactly the names it goes through out of both dictionaries |
| `Parameters.ResetAllExactly` | pg_mimic/middleware.py:883-893 | a completed RESET ALL empties the visible dictionary and leaves in the committed one exactly the settings that were not visible |
| `Parameters.ResetAllThenCommit` | pg_mimic/middleware.py:612-622 | a COMMIT after a completed RESET ALL brings back exactly those, so none if and only if every committed setting was visible |
| `Parameters.ResetAllMissesHidden` | pg_mimic/middleware.py:883-893 | BEGIN, SET, SET LOCAL TO DEFAULT, RESET ALL, COMMIT leaves the setting set |
| `Registrations.RetargetListed` | pg_mimic/connection.py:292-311 | syncing lists a connection on exactly its target channels and moves nobody else |
| `Delivery.SettleReaches` | pg_mimic/server.py:275-283 | what one connection's step does to every connection: the batch on the channels it is registered for, before its own registrations move |
| `ServerModel.LastIndex` | pg_mimic/middleware.py:689-693 | the innermost savepoint of the name, or none |
| `SessionStates.SessionState.Open` | pg_mimic/state.py:140-149 | pushes a copy of the four transactional components |
| `SessionStates.SessionState.Discard` | pg_mimic/state.py:151-153 | drops frames and keeps the values |
| `SessionStates.SessionState.Restore` | pg_mimic/state.py:155-175 | the state at the frame, the frame and those above it dropped, or nothing when there is no such frame |
| `SessionStates.SessionState.Commit` | pg_mimic/state.py:177-181 | the committed values become the visible ones and all frames go |
| `SessionStates.SessionState.End` | pg_mimic/state.py:183-186 | the bottom frame's state and no frames |
| `SessionStates.SessionState.TakePendingNotifies` | pg_mimic/state.py:188-195 | returns the pending list and empties it |
| `SessionStates.SessionState.ResetAll` | pg_mimic/state.py:115-138 | an empty session that keeps its known names |
| `SessionStates.SessionState.RecordSetting` | pg_mimic/middleware.py:1286-1304 | one write to one or both dictionaries, and what would undo it |
| `SessionStates.SessionState.UndoSetting` | pg_mimic/middleware.py:1306-1313 | the recorded write undone |
| `Server.Connection.Write` | pg_mimic/connection.py:473-524 | appends one reply to the output and changes nothing else |
| `Server.Connection.ReportSetting` | pg_mimic/middleware.py:919-925 | a reported setting's queued ParameterStatus becomes the value SHOW answers |
| `Server.Connection.ReportDifferences` | pg_mimic/middleware.py:624-626 | every setting that differs from before is reported, no other |
| `Server.Connection.FlushParameterStatus` | pg_mimic/connection.py:173-176 | the queued reports are written in order and the queue emptied |
| `Server.Connection.DeliverAsync` | pg_mimic/connection.py:271-283 | written at once when the ready flag is set, queued otherwise |
| `Server.Connection.FlushAsync` | pg_mimic/connection.py:285-288 | the queued messages are written in order and the queue emptied |
| `Server.Connection.ApplyOne` | pg_mimic/middleware.py:1243-1283 | one setting change with its report, its hook and the undo of a refusal |
| `Server.Connection.ApplyEach` | pg_mimic/middleware.py:846-893 | changes applied in order up to the first that fails |
| `Server.Connection.BeginBlock` | pg_mimic/middleware.py:639-655 | BEGIN, redundant or not |
| `Server.Connection.TakeSavepoint` | pg_mimic/middleware.py:682-687 | a name and a frame pushed |
| `Server.Connection.ReleaseSavepoint` | pg_mimic/middleware.py:689-700 | the named savepoint and everything inside it dropped, values kept |
| `Server.Connection.RestoreSavepoint` | pg_mimic/middleware.py:689-714 | ROLLBACK TO with its reports and registrations |
| `Server.Connection.SettleBlock` | pg_mimic/middleware.py:612-657 | COMMIT or ROLLBACK with reports, notifications and registrations |
| `Server.Connection.ChangeSubscription` | pg_mimic/middleware.py:336-363 | LISTEN and UNLISTEN, effective at once only outside a transaction |
| `Server.Connection.RaiseNote` | pg_mimic/connection.py:233-252 | in status I the notification is sent; in a transaction it is raised, as `Statements.NotifyExactly` tells |
| `Server.Connection.Discard` | pg_mimic/middleware.py:719-740 | DISCARD ALL, refused inside a transaction or by the session |
| `Server.Connection.Execute` | pg_mimic/middleware.py:336-740 | any statement has the effect the value machine gives it, which `Statements` tells statement by statement |
| `Server.Connection.Fail` | pg_mimic/connection.py:507-524 | an error reply, status E inside a transaction, and skipping, as `Stretches.ErrorsFail` tells over runs |
| `Server.Connection.ActOn` | pg_mimic/connection.py:483-524 | the next action of a dispatch: a reply, an error, or a statement, refused in a failed transaction |
| `Server.Connection.Accept` | pg_mimic/connection.py:440-447 | a message closes the gap for pushed messages; while skipping its dispatch is empty |
| `Server.Connection.FinishCommand` | pg_mimic/connection.py:462-470 | reports, then queued messages, then ReadyForQuery, for a Query or Sync only |
| `Server.Connection.Doom` | pg_mimic/connection.py:385-392 | the report of a broken byte stream, with the ready flag left as it was |
| `Server.Connection.Close` | pg_mimic/connection.py:313-319 | the connection is closed and owes the registry its departure |
| `Server.PgServer.AddListener` | pg_mimic/server.py:235-236 | one more subscriber on a channel |
| `Server.PgServer.RemoveListener` | pg_mimic/server.py:238-247 | one subscriber fewer, and no empty set left |
| `Server.PgServer.MoveRegistrations` | pg_mimic/connection.py:292-311 | the two removal and addition loops amount to one move of the registrations |
| `Server.PgServer.Notify` | pg_mimic/server.py:254-283 | exactly the subscribers are delivered to, whatever the order of the set |
| `Server.PgServer.NotifyAll` | pg_mimic/connection.py:254-259 | a list of notifications fanned out in order |
| `Server.PgServer.Connect` | pg_mimic/connection.py:353-379 | a new connection standing at its first ReadyForQuery with an empty queue |
| `Server.PgServer.Step` | pg_mimic/connection.py:439-471 | any step of a connection's task on the objects is the step of the value machine |
| `Server.PgServer.Take` | pg_mimic/connection.py:439-471 | after any sequence of steps the objects are in the state of the value machine after the same steps |
| `Server.ServerIsGood` | pg_mimic/connection.py:439-471 | so the invariants of every run hold of the objects |
| `Copy.FramingDoesNotMatter` | pg_mimic/copy.py:545-623 | for every option set and every way of cutting the stream, the rows of all feeds and finish are those of one feed and finish |
| `Copy.FeedTwice` | pg_mimic/copy.py:558-569 | two feeds are one feed of both texts, state included |
| `CopyRoundTrip.CsvRoundTrip` | pg_mimic/copy.py:492-503 | with or without a header, rows of at least one field come back with NULL apart from the empty string if and only if no line is the end marker, or, behind a header line that is, there are no rows |
| `CopyCsv.CsvRoundTripExactly` | pg_mimic/copy.py:492-503 | all rows of at least one field that print without the end marker survive, with or without a header, if and only if delimiter and quote differ, the delimiter is not CR or LF, the quote is not LF, and the null string has no delimiter, quote or LF in it and no CR at its end; for any other options, rows that are lost |
| `CopyCsv.NoNullsDecoded` | pg_mimic/copy.py:689-731 | under a null string that holds a delimiter or a quote nothing is ever decoded as NULL |
| `CopyRoundTrip.MarkerRowIsLost` | pg_mimic/copy.py:571-579 | with the default CSV options a row of the one value `\.` is lost |
| `CopyRoundTrip.DecodeCopied` | pg_mimic/copy.py:558-585 | for any format whose lines read back, the rows come back if and only if no line is the end marker and no value is taken for NULL, or, behind a header line that is the marker, there are no rows |
| `CopyHeader.HeaderDoesNotMatter` | pg_mimic/copy.py:580-582 | rows behind a header line decode as they do without one |
| `CopyRoundTrip.ScannersAgree` | pg_mimic/copy.py:595-623 | for every option set the record scanner ends a record at a newline, the first it can, if and only if the field scanner that has read the record up to there is outside quotes and the quote is not a newline |
| `CopyRoundTrip.FieldsAreScanned` | pg_mimic/copy.py:689-726 | the fields of a record are what that same field scanner has ended, and the current field |
| `CopyRoundTrip.DecodeLines` | pg_mimic/copy.py:558-585 | the decoded rows of readable lines: all up to the end marker, less a header |
| `CopyText.TextRoundTripExactly` | pg_mimic/copy.py:477-490 | with the default null string, with or without a header, all rows of at least one field survive if and only if the delimiter is not a backslash, CR, LF, `.`, `N`, `x`, one of b f n r t v, or an octal digit; for one that is, a row that is lost |
| `CopyText.TextRowsSurvive` | pg_mimic/copy.py:626-679 | under any null string the field splitter takes whole, and any delimiter whose escape is not read as something else, rows come back if and only if no line is the end marker and no value is written as the null string |
| `CopyText.NullTextIsLost` | pg_mimic/copy.py:649 | with a null string of `x` the value `x` comes back as NULL |
| `CopyText.TextRoundTrip` | pg_mimic/copy.py:626-679 | with the default null string encode then decode is the identity for every other delimiter |
| `CopyText.EscapedIsNotNull` | pg_mimic/copy.py:626-649 | for such a delimiter no encoded non-NULL field is the default null string |
| `CopyText.NoMarker` | pg_mimic/copy.py:575-579 | no encoded line is the end marker |
| `CopySpelling.EverySpellingReads` | pg_mimic/copy.py:652-686 | any spelling of a text is read as that text: each character as it is, as a backslash and its letter, as a backslash and itself, or as a backslash and one to three octal or an x and one or two hexadecimal digits that no further digit follows |
| `CopySpelling.EveryTextIsSpelled` | pg_mimic/copy.py:652-686 | every text is such a spelling, so the pieces it is cut into decide what it is read as |
| `CopySpelling.ThreeOctalDigits` | pg_mimic/copy.py:670-673 | three octal digits a b c are the character 64a + 8b + c, whatever follows |
| `CopySpelling.EncoderSpells` | pg_mimic/copy.py:455-490 | the encoder escapes the backslash, the six control characters with their letters and the delimiter, and writes every other character as it is |
| `CopyStreams.JoinedAreSplit` | pg_mimic/copy.py:626-649 | texts with no delimiter outside their backslash pairs, joined by it, are split into those texts |
| `CopyStreams.SplitAreJoined` | pg_mimic/copy.py:626-649 | every record is such texts joined, so the split loses nothing |
| `CopyStreams.RecordReads` | pg_mimic/copy.py:626-679 | a field of a text record is NULL if and only if its text before de-escaping is the null string, and otherwise what its spelling means |
| `CopyStreams.LastLineNeedsNoNewline` | pg_mimic/copy.py:548-556 | in both formats and under every option set, a stream that ends in neither CR nor LF gives the rows it gives with a newline behind it |
| `CopyStreams.CrLfReadsTheSame` | pg_mimic/copy.py:571-574 | lines that end in CR LF give the rows of the same lines ended in LF, in text format and, where nothing is quoted, in CSV |
| `CopyStreams.CsvRecordReads` | pg_mimic/copy.py:689-731 | quotes may stand around any part of a CSV field; it is NULL if and only if no part of it is quoted and it is the null string |
| `CopyStreams.QuotedExactly` | pg_mimic/copy.py:492-503 | the encoder quotes a value if and only if it holds the delimiter, the quote, CR or LF or is the null string, with one more character for each quote and escape in it |
| `CopyDecoder.EncodeTextField` | pg_mimic/copy.py:477-490 | the character loop computes the escaped field |
| `CopyDecoder.SplitCsvRecord` | pg_mimic/copy.py:595-623 | the index loop, with its steps past the end, finds the record's end |
| `CopyDecoder.SplitTextRecord` | pg_mimic/copy.py:587-592 | the first newline |
| `CopyDecoder.SplitTextFields` | pg_mimic/copy.py:626-649 | the fields of a text record, NULL recognised before de-escaping |
| `CopyDecoder.UnescapeField` | pg_mimic/copy.py:652-679 | the de-escaping loop gives what `CopySpelling` says the field spells, numbers in octal and hexadecimal included |
| `CopyDecoder.SplitCsvFields` | pg_mimic/copy.py:689-726 | the fields of a CSV record |
| `CopyDecoder.CopyInDecoder.FeedText` | pg_mimic/copy.py:558-569 | the rows and the state after one more piece of text |
| `CopyDecoder.CopyInDecoder.ReadRecord` | pg_mimic/copy.py:571-585 | zero or one row: marker, header or record |
| `CopyDecoder.CopyInDecoder.FinishStream` | pg_mimic/copy.py:548-556 | a last record without a newline is a record |
| `Arrays.BinaryRoundTrip` | pg_mimic/arrays.py:142-192 | decoding an encoded array gives the same nesting, elements through the codec and NULLs kept, if every dimension is positive, and fails otherwise |
| `Arrays.EmptyListsAreLost` | pg_mimic/arrays.py:130-136 | a list of two empty lists encodes, and what it encodes to cannot be decoded |
| `Arrays.HeaderSays` | pg_mimic/arrays.py:149-155 | the header holds the number of dimensions, a flag set exactly when an element is NULL, and the element OID |
| `Arrays.ReshapeFlatten` | pg_mimic/arrays.py:122-136 | reshaping the flattened elements by the dimensions gives the nested list back |
| `Arrays.FlattenCount` | pg_mimic/arrays.py:109-127 | a rectangular list has as many elements as the product of its dimensions |
| `Arrays.ZeroDimension` | pg_mimic/arrays.py:130-136 | a zero dimension of a non-empty list is not the first and makes the reshape step zero |
| `Arrays.RaggedExactly` | pg_mimic/arrays.py:91-106 | a list has dimensions if and only if it is empty or some sizes fit all its branches, and they are those sizes up to the first zero |
| `Arrays.RowMajor` | pg_mimic/arrays.py:109-119 | the elements are flattened in row-major order |
| `Arrays.DimsBytes` | pg_mimic/arrays.py:152-155 | each dimension is eight bytes, its size and a lower bound of one |
| `Arrays.ItemsBytes` | pg_mimic/arrays.py:156-161 | each element is its length and its bytes behind those before it, and NULL four bytes of 255 |
| `Arrays.DimensionsLoop` | pg_mimic/arrays.py:91-106 | the loop down the first branch finds the dimensions, or the list is ragged |
| `Arrays.EncodeItemsLoop` | pg_mimic/arrays.py:156-161 | the element loop writes lengths and bytes, -1 for NULL |
| `Arrays.DecodeDimsLoop` | pg_mimic/arrays.py:173-177 | the dimension loop with its moving offset |
| `Arrays.DecodeItemsLoop` | pg_mimic/arrays.py:183-191 | the element loop with its moving offset, which a negative length moves back |
| `ArrayLiteralRoundTrip.LiteralRoundTrip` | pg_mimic/arrays.py:199-244 | a printed literal parses to the value itself if and only if no element printed without quotes begins or ends with a Unicode space |
| `ArrayLiteralRoundTrip.LiteralReadsAs` | pg_mimic/arrays.py:213-244 | what any printed literal parses to: ends stripped off bare elements, a bare NULL left by stripping becomes NULL, a list of one blank element the empty list |
| `ArrayLiteralRoundTrip.ReparsedExactly` | pg_mimic/arrays.py:197-210 | reparsing changes nothing exactly when the ends are kept |
| `ArrayLiteralRoundTrip.EscapedInTwoPasses` | pg_mimic/arrays.py:208-209 | the two replacements escape each backslash and quote once |
| `ArrayLiteralRoundTrip.NoBreakSpaceIsLost` | pg_mimic/arrays.py:197-210 | an element ending in a no-break space comes back without it |
| `ArraySpelling.EverySpellingParses` | pg_mimic/arrays.py:228-309 | any spelling of a nested list parses to it: spaces between the tokens, needless quotes and backslashes, NULL in any case, and an explicit-bounds prefix |
| `ArraySpelling.TrailingIsRefused` | pg_mimic/arrays.py:243-244 | anything but spaces behind the closing brace is an error |
| `ArraySpelling.PrintsPlainly` | pg_mimic/arrays.py:197-224 | the printer writes the spelling without spaces, with quotes only around elements that need them and backslashes only before quotes and backslashes |
| `ArrayLiteral.SkipSpaceLoop` | pg_mimic/arrays.py:279-282 | the index moves past white space and never back |
| `ArrayLiteral.ParseQuotedLoop` | pg_mimic/arrays.py:285-300 | the quoted element and the index after it, which has advanced, or the error |
| `ArrayLiteral.ParseBareLoop` | pg_mimic/arrays.py:303-309 | the stripped token or NULL, and the index of the character that ended it |
| `ArrayLiteral.ParseBracedLoop` | pg_mimic/arrays.py:247-276 | the list and the index after its brace, which has advanced, or the error |
| `NumericValues.GroupsHaveTheValue` | pg_mimic/types.py:492-516 | the groups are below 10000, the first and last not zero, none exactly for zero, and with the weight their number is coefficient times 10^exponent |
| `NumericValues.OneFormPerValue` | pg_mimic/types.py:502-516 | two decimals get the same groups and weight if and only if they have the same value |
| `NumericRoundTrip.NumericRoundTrips` | pg_mimic/types.py:260-276 | the decoded text is the decimal in full, with exactly its fractional digits, if and only if it has at most 28 significant digits |
| `NumericRoundTrip.TwentyNineDigitsAreLost` | pg_mimic/types.py:273 | 10^28 + 1 does not come back |
| `NumericRoundTrip.HeaderReadsBack` | pg_mimic/types.py:518-519 | group count, weight, sign and display scale stand in this order, two bytes each |
| `NumericRoundTrip.DecodedText` | pg_mimic/types.py:269-276 | for every decimal that fits the header, the decoded text is the decimal rounded half to even to 28 digits at its display scale, zero without a sign |
| `NumericRoundTrip.RoundedExactly` | pg_mimic/types.py:273 | the context's rounding changes nothing exactly when the significant digits fit |
| `NumericRoundTrip.RoundedScaled` | pg_mimic/types.py:271-273 | the rounding does not depend on the power of ten |
| `NumericRoundTrip.SpecialValues` | pg_mimic/types.py:486-490 | NaN and the infinities read back |
| `NumericWire.FiniteBytes` | pg_mimic/types.py:518-519 | the bytes of a finite decimal: count, weight, sign and scale, then each group, two bytes each |
| `NumericWire.SpecialBytes` | pg_mimic/types.py:475-490 | the eight bytes of NaN and of each infinity |
| `NumericWire.RoundedIsNearest` | pg_mimic/types.py:273 | a coefficient of more than 28 digits is rounded to the nearest multiple of the power of ten that leaves 28, the even one of two |
| `NumericWire.FixedIsTheNumeral` | pg_mimic/types.py:276 | a numeral with its fractional digits is printed as it is written |
| `NumericWire.PackIs` | pg_mimic/types.py:518-519 | four bytes are packed with the most significant first |
| `NumericWire.PackSignedFlips` | pg_mimic/arrays.py:152-161 | negative integers are packed in two's complement |
| `NumericWire.PackSignedShortFlips` | pg_mimic/types.py:518 | the weight of a numeral, when negative, in two's complement |
| `Numeric.SignificantLoop` | pg_mimic/types.py:496-516 | the two popping loops and the weight they adjust |
| `SettingValues.IntRoundTrip` | pg_mimic/settings_values.py:163-192 | for every unit, multiples included, every int32 value in range is what its rendered text parses to |
| `SettingValues.RenderedUnitIsLargest` | pg_mimic/settings_values.py:92-107 | the rendered unit is the largest of its family that divides the quantity exactly |
| `SettingValues.AcceptedValueReadsBack` | pg_mimic/settings_values.py:112-130 | whatever text a parameter accepts, the text SHOW gives for it parses to the same value |
| `SettingValues.SpellingsUnambiguous` | pg_mimic/settings_values.py:138-146 | no text spells both truth values |
| `SettingValues.BoolReadsBack` | pg_mimic/settings_values.py:85-86 | `on` and `off` parse to the value they render |
| `SettingValues.EnumReadsBack` | pg_mimic/settings_values.py:149-160 | an accepted enum value parses to itself |
| `SettingValues.RenderNumberLoop` | pg_mimic/settings_values.py:92-109 | the unit loop renders the number |
| `SettingValues.SplitSuffixLoop` | pg_mimic/settings_values.py:195-200 | number and suffix |
| `SettingValues.SplitMultipleLoop` | pg_mimic/settings_values.py:216-223 | multiplier and base unit |
| `SettingValues.ParseBoolLoop` | pg_mimic/settings_values.py:138-146 | the spelling loop decides the truth value |
| `SettingTexts.IntMeans` | pg_mimic/settings_values.py:163-200 | which whole number any numeral with any unit and any spaces means, its fraction dropped, and when it is refused: another unit, beyond 32 bits, or out of range |
| `SettingTexts.OnlyNumbersAreInts` | pg_mimic/settings_values.py:177-192 | every text that is accepted is such a numeral and unit |
| `SettingTexts.UnitsHold` | pg_mimic/settings_values.py:43-44 | the units by name and how many of the next smaller one each holds |
| `SettingTexts.MultipleIs` | pg_mimic/settings_values.py:216-223 | a number in front of a unit's name is how many of it the parameter is measured in |
| `SettingTexts.BoolTexts` | pg_mimic/settings_values.py:138-146 | the texts that mean true, the texts that mean false, and that no others are accepted |
| `SettingTexts.EnumTexts` | pg_mimic/settings_values.py:149-160 | an enum takes its values in any case and stores the catalogue's spelling, one that offers on and off also takes the words for them in full, and nothing else is accepted |
| `SettingTexts.EncodingTexts` | pg_mimic/settings_values.py:59-70 | the client encoding is UTF8 and nothing else |
| `Portals.RowsArePrefix` | pg_mimic/session.py:122-132 | for any sequence of limits the rows handed over are a prefix of the source, the source is started at most once, and the count is of the rows handed over |
| `Portals.SuspensionAndCompletion` | pg_mimic/connection.py:649-663 | after any run on any source an Execute suspends exactly when it reaches a positive limit, answers with an error when it comes to the end of a source that raises there, and otherwise completes with the length of the source as the count, less the rows left when it raised; all told from the limits alone |
| `Portals.CompletionCount` | pg_mimic/connection.py:660-663 | a completion reports the length of the source if and only if the source does not raise or the call that came to its end found no rows left; the rows it misses are the ones left then |
| `Portals.TallyTells` | pg_mimic/session.py:107-119 | rows handed over, rows left and starts of any run, told from the limits alone |
| `Portals.CountMatchesTheWire` | pg_mimic/connection.py:650-663 | the count is the number of DataRows sent if and only if every row handed over could be sent, and then they are those rows |
| `Portals.ExecuteWritesInOrder` | pg_mimic/connection.py:640-663 | an Execute writes the rows it takes as DataRows, in order, up to the first that cannot be encoded, and then one message that is not a DataRow: the error, PortalSuspended or CommandComplete with the count |
| `Portals.OneEndEach` | pg_mimic/connection.py:640-663 | over any run each Execute writes one such message, and the run ends with one |
| `Portals.UnencodableIsCounted` | pg_mimic/connection.py:650-663 | two rows of which the second cannot be encoded: one DataRow, an error, and a completion of two |
| `Portals.RaisingLosesRows` | pg_mimic/session.py:107-119 | two Executes of a raising source: an error, then a completion of zero rows |
| `Portals.Drain` | pg_mimic/session.py:102-119 | suspended exactly when a positive limit was reached, and nothing lost without a raise |
| `Portals.DrainRows` | pg_mimic/session.py:102-119 | the counting loop over the iterator |
| `Portals.Portal.Run` | pg_mimic/session.py:186-206 | the source is made once, by the first execute that succeeds in starting it |
| `Portals.PortalEntry.HandleExecute` | pg_mimic/connection.py:640-663 | the messages one Execute writes, in the order `Portals.ExecuteWritesInOrder` tells, and the count it leaves |
| `Portals.WriteRows` | pg_mimic/connection.py:652-658 | the rows written, up to the first that cannot be encoded |

## Left out

- Sockets, framing, backpressure, shutdown, authentication and the claim on a session: I/O and library calls.
- Recognising statements in SQL text and splitting a query into statements: a statement is a datatype.
- Statement and portal tables, PREPARE/EXECUTE/DEALLOCATE, catalogues and rewriting: a message is modelled by the actions its dispatch comes to, and `Portals` models one portal.
- Notices written from inside a connection's own command are ordinary replies; only pushed ones queue.
- A session hook is one atomic answer: accept, refuse, or cancelled. A cancelled change is not undone, because the source undoes on Exception and a cancellation is not one; what other connections do during an awaited hook is a separate step before or after it.
- Python's iteration order over sets of setting names is a parameter of each step (`Oracle`), and the theorems hold for every order.
- Server.PgServer.Notify: does not model a delivery that fails, nor the count of deliveries it returns, which nothing in the server reads.
- `Server.PgServer` registers pids where the source registers connection objects.
- A connection is removed from the server's table when it closes; here it stays, closed and in no set, so that its history remains.
- Sessions that write the session state themselves, and code that pushes at a connection before its first ReadyForQuery.
- UTF-8 decoding: COPY works on characters. COPY options are taken as parsed; the source does not check what the round trips need of them.
- SettingValues.IntRoundTrip: uses exact arithmetic where the source goes through a float, so it says nothing of quantities beyond 2^53 of the smallest unit; no parameter of the settings catalogue reaches them.
- SettingValues.AcceptedValueReadsBack: covers boolean, enum, integer and string parameters, not real-valued ones, whose rendering drops digits.
- Settings: real-valued parameters, exponents and other float spellings, Unicode digits and case folding in setting texts.
- Arrays: OID lookup and the scalar codecs are parameters.
- NUMERIC: values that are not Decimal are converted by Python first; the exponent of a rounded Decimal is not kept, since only its value is printed.
- Date, time, interval, uuid and json codecs, message builders and the settings catalogue's data: easy or data only.
