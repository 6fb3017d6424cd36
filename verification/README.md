# SmartLift: a verified model of the services between voice request and lift

SmartLift carries a voice request from an HTTPS front end, through a text worker, to an MQTT worker that
moves a lift. Its services talk to each other, and to a database service, in JSON over TCP. The handlers
behind the sockets are hand-written state machines, in-place loops and cached lookups that have to agree
across processes. This project models those handlers and proves what they do, over every input and over
every run.

Each handler is one atomic step. A class of the source whose methods update its fields is a class here, with
the fields that matter to the property at hand; each method is proved to take the state where a specification
function takes it, and the lemmas about runs are about those functions. Sockets, timers and the SQL engine appear as events and
parameters: a chunk arrived, k bytes were sent, a timer fired, a query has these rows.

| file | what it holds |
|---|---|
| `Json.dfy` | JSON values, their compact serialisation, and the automaton that finds where an object ends |
| `JsonReader.dfy` | reading a finished document and its members; serialising and reading are inverse |
| `Framing.dfy` | receive buffer, resumable parser, queue and dispatch loops of the worker sessions |
| `PartialSend.dfy` | partial writes over one shared static counter, one send at a time and overlapping |
| `Liveness.dfy` | authorisation, ping and dead-ping timers, with the aborted handlers that cancelling leaves behind |
| `Reaping.dfy` | the kill timers and the session vectors |
| `ClientDb.dfy`, `DataBase.dfy`, `Fetch.dfy` | database client, database service, and the two together |
| `Routing.dfy`, `Https.dfy`, `FrontDesk.dfy` | cached lookups, the life of one HTTPS request, and several requests at one worker session |
| `Broker.dfy`, `LiftWorker.dfy` | MQTT broker sessions, table refresh, move commands |
| `WorkerLink.dfy` | the MQTT worker's receives and replies in time |
| `TextWorker.dfy`, `TextTables.dfy` | floor selection and phrase search, and what they come to on the rows of the database |
| `Messages.dfy` | the messages between voice and lift, as they are built at one end and read at the other |
| `ConfigFile.dfy` | the configuration reader |
| `EndToEnd.dfy` | from a database row to the lift that it describes, from a voice request to that lift, to the tables that routing uses, and from an unknown lift block to the main server |
| `Common.dfy` | optional values, substring search, splitting, quotes, numbers as text |

`dafny verify dfyconfig.toml` checks everything.

## Where the code does not do what one would expect

The model follows the code. Where an intended property fails, a lemma gives the failing input and another
one says exactly when the property holds.

- SessionMQTT's dispatch loop, and MSWorker's, stay for ever at a document that no branch takes off the
  queue (`DispatchLoopEndsIff`, `WorkerLoopEndsIff`). SessionMQTT pops a message only after its callback has
  returned, and the callback of an answered request throws: a second message hangs the loop too
  (`SecondMessageHangs`).
- A move for an unknown lift block is refused again and again (`UnknownBlockIsRefusedForEver`), and the second
  refusal hangs the main server (`UnknownBlockHangsTheMainServerIff`).
- A worker session holds one callback: with two requests under way, one gets the other's answer
  (`OverlapSwapsAnswers`, `OwnAnswerArrivesIff`, `OwnAnswersIff`).
- SessionMarusia handles only the first document of each batch (`MarusiaDispatchesAllIff`): an answer behind a
  ping answer is lost (`AnswerBehindPingIsDropped`, `AnswerBehindAPingIsLost`, `OwnAnswersIff`).
- The count of bytes sent is a static variable: what a dying session leaves in it spoils another session's
  next send (`SendIsExactIff`, `AbandonedSendSpoilsTheNext`).
- MSWorker, and each session of the main server, has one send buffer: a text that is handed over while another
  one is outstanding overruns it (`TwoTextsOverrun`, `SendsAreIntactIff`). Two replies in one batch do that, and
  so can a connect answer that shares a batch with a ping (`ConnectAnswerLetsRepliesCross`, `SafeIff`).
- An MSWorker that receives nothing but a document without a target never hears anything again
  (`TargetlessDocumentSilences`, `WorkerFallsSilentIff`).
- A ping answer that was not asked for re-arms the ping timer; that aborts the timer's handler, and the
  handler stops the session (`LiveIffEveryPingAnsweredOnce`).
- A second, rejected connect replaces the id of a live session (`SecondConnectCanSpoilTheId`,
  `LiveIdIsKnownIff`); a connect that follows a stop in the same batch revives the session
  (`ComesToLifeIffConnected`).
- A session that comes alive only after a tick is live but in no vector (`SlowSessionIsLost`,
  `LiveSessionIsKeptIff`).
- A position saved in the list of MQTT sessions can name another worker by the time it is used
  (`MoveGoesToTheBlocksWorkerIff`, `SavedPositionSurvivesIff`).
- A fetch that stopped half way leaves its condition flag up for a later fetch without conditions
  (`LeftoverConditionIsUsed`, `NoConditionsIff`).
- A query without result rows makes the database service throw (`QueryIsAnsweredIff`).
- Of two rows for one station only the first is looked at (`DuplicateStationHidesTheRoute`,
  `FreshRoutingStartsIff`).
- An empty descriptor matches closed broker sessions (`EmptyDescriptorReachesAClosedSession`), and a client
  id with text before `LKDS_LU` and a space behind the descriptor is cut in the wrong place
  (`NameIsDescriptorIff`). A client id without `LKDS_LU` is named all the same, from its seventh character
  on (`NameWithoutPhrase`).
- The text worker sends its move command whether or not the house has the floor; only the text differs
  (`AbsentFloorIsMovedToSilently`, `MoveSpeaksIffHouseHasFloor`).

## Model

| member | source | states |
|---|---|---|
| Json.SerializedObjectIsDocument | Smart_lift/MainServer/Modules/WorkerServer/WorkerServer.cpp:164-177 | every message object, however nested and whatever its strings hold, is recognised as one document exactly at its closing brace |
| Json.DocumentsArePrefixFree | Smart_lift/MainServer/Modules/WorkerServer/WorkerServer.cpp:164-179 | no proper prefix of a document is a document, so the parser cannot finish early |
| Json.SerializedHasNoNul | Smart_lift/MainServer/Modules/WorkerServer/WorkerServer.cpp:164 | a serialised message holds no NUL byte, so reading the buffer as a C string never cuts it short |
| Json.QuoteOfPlainText | Smart_lift/GlobalModules/ClientDB/ClientDB.hpp:311 | serialising an escape-free cell just adds two quotes: the convention that all ids follow |
| JsonReader.ReadUndoesSerialize | Smart_lift/MainServer/Modules/WorkerServer/WorkerServer.cpp:164-177 | whatever stands behind it, a serialised value is read back as the value it was made from, and the reader stops just behind it |
| JsonReader.DocumentIsReadBack | Smart_lift/MainServer/Modules/WorkerServer/WorkerServer.cpp:164-177 | a document is read back as the value it was made from |
| Framing.WriteSomeRefines | Smart_lift/MainServer/Modules/WorkerServer/WorkerServer.cpp:164 | one parser call agrees with byte-by-byte recognition on the bytes it consumes |
| Framing.MqttChunkIndependence | Smart_lift/MainServer/Modules/WorkerServer/WorkerServer.cpp:159-191 | however a concatenation of JSON objects is cut into receives, SessionMQTT returns from it iff every target is handled and no message meets a callback whose request is answered already; then it dispatches exactly those objects, once each, in order, to the right handlers, and nothing stays behind |
| Framing.MqttRunConserves | Smart_lift/MainServer/Modules/WorkerServer/WorkerServer.cpp:159-244 | after every run of receives and newly installed callbacks that returns, dispatched, queued and partially parsed bytes together are the bytes received, and every document went to the handler that its target asks for |
| Framing.DispatchLoopEndsIff | Smart_lift/MainServer/Modules/WorkerServer/WorkerServer.cpp:320-353 | the dispatch loop of SessionMQTT ends iff every queued document has a handled target and no message meets a callback whose request is answered already |
| Framing.SecondMessageHangs | Smart_lift/MainServer/Modules/WorkerServer/WorkerServer.cpp:350-353 | two messages in one receive, one request open: the first answers it, the second stays at the front for ever |
| Framing.MarusiaDispatchesFronts | Smart_lift/MainServer/Modules/WorkerServer/WorkerServer.cpp:365-387 | SessionMarusia gives the first document of each batch to the handler that its target asks for, if there is one, and no other document to any |
| Framing.MarusiaDispatchesAllIff | Smart_lift/MainServer/Modules/WorkerServer/WorkerServer.cpp:227-244 | SessionMarusia makes all the calls that a stream asks for iff in each batch only the first document has a handler |
| Framing.AnswerBehindPingIsDropped | Smart_lift/MainServer/Modules/WorkerServer/WorkerServer.cpp:227-244 | a ping answer and another answer in one receive: the ping is handled, the answer is thrown away |
| Framing.ReceiveSession.Deliver | Smart_lift/MainServer/Modules/WorkerServer/WorkerServer.cpp:173 | a receive writes its bytes at the start of the zeroed buffer |
| Framing.ReceiveSession.ClearBuffer | Smart_lift/MainServer/Modules/WorkerServer/WorkerServer.cpp:188 | the buffer is zeroed, the terminator slot excepted |
| Framing.ReceiveSession.ReceiveCheck | Smart_lift/MainServer/Modules/WorkerServer/WorkerServer.cpp:159-191 | the array-and-offset loop terminates, recognises exactly what byte-by-byte recognition does, and succeeds iff the chunk ends at a document's end |
| Framing.ReceiveSession.DispatchFront | Smart_lift/MainServer/Modules/WorkerServer/WorkerServer.cpp:322-353 | one document goes to the handler of its target and leaves the queue; a message closes the request whose callback is installed |
| Framing.ReceiveSession.CommandAnalize | Smart_lift/MainServer/Modules/WorkerServer/WorkerServer.cpp:320-353 | on the queues on which the loop ends, every document goes to the handler of its target, in order, and the queue is empty afterwards |
| Framing.ReceiveSession.MarusiaCommandAnalize | Smart_lift/MainServer/Modules/WorkerServer/WorkerServer.cpp:365-387 | only the front document goes to a handler, if its target has one |
| Framing.ReceiveSession.ReceiveCommand | Smart_lift/MainServer/Modules/WorkerServer/WorkerServer.cpp:227-244 | a chunk that ends inside a document only queues; one that ends a document dispatches the whole queue |
| Framing.ReceiveSession.MarusiaReceiveCommand | Smart_lift/MainServer/Modules/WorkerServer/WorkerServer.cpp:227-244 | the same receive check, but the rest of the batch is thrown away |
| Framing.ReceiveObjects | Smart_lift/MainServer/Modules/WorkerServer/WorkerServer.cpp:159-244 | the session object driven over any chunks of 1 to 2047 bytes, with any callback that bears the messages in them, calls the right handlers for exactly the objects sent |
| Framing.BatchesAreTheObjects | Smart_lift/MQTT_Worker/Modules/MSWorker/MSWorker.cpp:84-115 | the batches that the shared receive check releases are, one after the other, exactly the objects sent |
| PartialSend.SendFromZeroDelivers | Smart_lift/MainServer/Modules/WorkerServer/WorkerServer.cpp:192-226 | for any positive partial counts the wire is a prefix of the buffer, at the end the whole buffer with the counter back at 0, after at most as many writes as there are bytes |
| PartialSend.SendIsExactIff | Smart_lift/MainServer/Modules/WorkerServer/WorkerServer.cpp:192-219 | a finished send put exactly its buffer on the wire iff the shared counter was 0 when it began |
| PartialSend.SequentialSendsDeliver | Smart_lift/MQTT_Worker/Modules/MSWorker/MSWorker.cpp:116-142 | sends of any number of sessions that do not overlap all arrive whole |
| PartialSend.AbandonedSendSpoilsTheNext | Smart_lift/MainServer/Modules/WorkerServer/WorkerServer.cpp:209-219 | a session that dies between two partial writes makes the next session's send inexact |
| PartialSend.Sender.AsyncSend | Smart_lift/MainServer/Modules/WorkerServer/WorkerServer.cpp:346-347 | a send hands over the whole buffer without looking at the counter |
| PartialSend.Sender.SendCheck | Smart_lift/MainServer/Modules/WorkerServer/WorkerServer.cpp:192-200 | a completion adds to the counter and either finishes or hands over the rest |
| PartialSend.Sender.SendCommand | Smart_lift/MainServer/Modules/WorkerServer/WorkerServer.cpp:201-226 | a completion on a live session steps the send; on a dead one it closes and leaves the counter as it is |
| PartialSend.SendWhole | Smart_lift/MainServer/Modules/WorkerServer/WorkerServer.cpp:192-226 | one send driven through the handlers delivers its buffer and resets the counter |
| PartialSend.SendsAreIntactIff | Smart_lift/MainServer/Modules/WorkerServer/WorkerServer.cpp:192-226 | over any interleaving of hand-overs to the one buffer and completions, partial or not and in any order, the wire is all texts whole and in order iff every text found nothing outstanding; otherwise the code runs past the end of the buffer |
| PartialSend.BatchIsIntactIff | Smart_lift/MQTT_Worker/Modules/MSWorker/MSWorker.cpp:116-142 | the replies of one batch, all handed over before the first completion, go out intact iff there is at most one; two or more overrun after a bounded number of completions |
| PartialSend.CommandDuringPingOverruns | Smart_lift/MainServer/Modules/WorkerServer/WorkerServer.cpp:253-261 | a command that a session of the main server sends while its ping is outstanding always overruns the buffer they share |
| PartialSend.TwoTextsOverrun | Smart_lift/MQTT_Worker/Modules/MSWorker/MSWorker.cpp:187-198 | two texts of equal length, each written whole, the second handed over before the first is out: the first completion clears buffer and counter, the second overruns |
| PartialSend.SendAll | Smart_lift/MQTT_Worker/Modules/MSWorker/MSWorker.cpp:116-142 | the sending object driven over any such interleaving: its wire is the texts, and it overruns iff some text found another one outstanding |
| Liveness.LiveSessionIsAtMost30SecondsStale | Smart_lift/MainServer/Modules/WorkerServer/WorkerServer.cpp:245-298 | in every reachable state a live session was authorised or answered a ping at most 30 seconds ago |
| Liveness.ThirtySecondsAreReached | Smart_lift/MainServer/Modules/WorkerServer/WorkerServer.cpp:257-258 | the bound is tight: a worker that falls silent stays live for exactly 30 seconds |
| Liveness.LiveIffEveryPingAnsweredOnce | Smart_lift/MainServer/Modules/WorkerServer/WorkerServer.cpp:264-298 | from any reachable session at the connect that brings it to life, until the next accepted one: it is live iff no handler of an earlier stop was left over, no error or failed answer came, and every ping was answered exactly once before its dead timer |
| Liveness.FatalEventStops | Smart_lift/MainServer/Modules/WorkerServer/WorkerServer.cpp:108-123 | after an error or a failed ping answer a session is closed, not live and without timers, in any state, and it stays closed and not live until an accepted connect |
| Liveness.ReadyBeforeTheFirstConnect | Smart_lift/MainServer/Modules/WorkerServer/WorkerServer.cpp:93-101 | a session that nobody has authorised and whose worker has answered no ping has no such handler left over |
| Liveness.PromptSessionStaysLive | Smart_lift/MainServer/Modules/WorkerServer/WorkerServer.cpp:288-299 | a session that is brought to life with nothing left over, and whose worker answers every ping within 20 seconds and with success, is never stopped by the dead-ping handler, although cancelling the timer runs that handler |
| Liveness.ComesToLifeIffConnected | Smart_lift/MainServer/Modules/WorkerServer/WorkerServer.cpp:108-158 | a session that is not live becomes live in a run iff an accepted connect is handled in it |
| Liveness.RejectedIsClosedAtSendCompletion | Smart_lift/MainServer/Modules/WorkerServer/WorkerServer.cpp:209-212 | a rejected session is closed, with both timers off, at its next send completion |
| Liveness.UnauthorisedIsClosedIff | Smart_lift/MainServer/Modules/WorkerServer/WorkerServer.cpp:201-299 | without an accepted connect a session is never live, and it is closed iff a send has completed, an error or failed answer has come, or a ping handler has run aborted |
| Liveness.LiveIdIsKnown | Smart_lift/MainServer/Modules/WorkerServer/WorkerServer.cpp:124-158 | with at most one connect, being live implies that the id is in the worker-id column |
| Liveness.LiveIdIsKnownIff | Smart_lift/MainServer/Modules/WorkerServer/WorkerServer.cpp:124-158 | with any number of connects, a live session's id is known iff the last connect with an id was accepted |
| Liveness.SecondConnectCanSpoilTheId | Smart_lift/MainServer/Modules/WorkerServer/WorkerServer.cpp:128-155 | a second, rejected connect leaves a live session with an unknown id |
| Liveness.WorkerSession.StopSession | Smart_lift/MainServer/Modules/WorkerServer/WorkerServer.cpp:108-123 | stopping ends liveness, cancels both timers and closes the socket |
| Liveness.WorkerSession.HandleAutorization | Smart_lift/MainServer/Modules/WorkerServer/WorkerServer.cpp:124-158 | the search of the id column decides liveness and the first ping timer; the id is kept either way |
| Liveness.WorkerSession.HandlePing | Smart_lift/MainServer/Modules/WorkerServer/WorkerServer.cpp:245-263 | a ping arms the 20 second dead timer; an aborted ping handler stops the session |
| Liveness.WorkerSession.HandleDeadPing | Smart_lift/MainServer/Modules/WorkerServer/WorkerServer.cpp:288-299 | the session is stopped iff no success was noted, aborted or not |
| Liveness.WorkerSession.HandlePingAnswer | Smart_lift/MainServer/Modules/WorkerServer/WorkerServer.cpp:264-287 | success cancels the dead timer and re-arms the ping timer; a failed answer stops the session |
| Liveness.WorkerSession.HandleSendDone | Smart_lift/MainServer/Modules/WorkerServer/WorkerServer.cpp:209-212 | a send completion stops a session that is not live |
| Liveness.WorkerSession.Handle | Smart_lift/MainServer/Modules/WorkerServer/WorkerServer.cpp:245-299 | every event takes the session object where the timed machine goes |
| Liveness.RunSession | Smart_lift/MainServer/Modules/WorkerServer/WorkerServer.cpp:245-298 | the session object, driven over any run, is live only when fresh to 30 seconds |
| Reaping.TicksReachFilterIff | Smart_lift/MainServer/Modules/WorkerServer/WorkerServer.cpp:56-74 | n ticks reach the order-preserving filter of the live sessions iff n is at least the number of dead ones |
| Reaping.DeadAreGoneIff | Smart_lift/MainServer/Modules/WorkerServer/WorkerServer.cpp:66-73 | d dead sessions are gone exactly from d - 1 seconds after the next tick on |
| Reaping.SavedPositionSurvivesIff | Smart_lift/MainServer/Modules/HTTPSServer/HTTPSServer.cpp:501-518 | a saved position denotes the same session after a reap iff it lies before the victim |
| Reaping.VectorHoldsWhatWasNotReaped | Smart_lift/MainServer/Modules/WorkerServer/WorkerServer.cpp:34-74 | over every run of accepts, authorisations, deaths and ticks the vector holds just the sessions that were not reaped, in order of acceptance, without repetition |
| Reaping.LiveSessionIsKeptIff | Smart_lift/MainServer/Modules/WorkerServer/WorkerServer.cpp:56-74 | a live session is in the vector iff it had not been reaped by the time it came alive |
| Reaping.SlowSessionIsLost | Smart_lift/MainServer/Modules/HTTPSServer/HTTPSServer.cpp:501-509 | a tick before the handshake has ended leaves a session that is live and in no vector |
| Reaping.SessionList.Accept | Smart_lift/MainServer/Modules/WorkerServer/WorkerServer.cpp:41-51 | an accepted session is appended, not live yet |
| Reaping.SessionList.EraseAt | Smart_lift/MainServer/Modules/WorkerServer/WorkerServer.cpp:60-61 | the victim is stopped and taken out, the others keep their order |
| Reaping.SessionList.KillSession | Smart_lift/MainServer/Modules/HTTPSServer/HTTPSServer.cpp:501-518 | one tick removes the first session that is not live, touches no other, and sets the next tick to 1 second or the full period |
| Reaping.KillFor | Smart_lift/MainServer/Modules/WorkerServer/WorkerServer.cpp:56-74 | the vector object driven through n ticks holds just the live sessions, in order, iff n is at least the number of dead ones |
| ClientDb.QueriesAreConserved | Smart_lift/GlobalModules/ClientDB/ClientDB.hpp:116-204 | through any interleaving of errors, restarts and replies, asked queries followed by queued ones are the queries given, each with its own fields and condition |
| ClientDb.ConditionsAreAligned | Smart_lift/GlobalModules/ClientDB/ClientDB.hpp:86-100 | with one condition for each table, the flag is up iff tables are left, the queues are equally long, and query i carries condition i |
| ClientDb.QueryIsReadBack | Smart_lift/GlobalModules/ClientDB/ClientDB.hpp:160-177 | the text of a query, read as SQL, names exactly the columns, in order, the table and the condition that it was built from |
| ClientDb.AskedQueriesSayWhatIsMeant | Smart_lift/GlobalModules/ClientDB/ClientDB.hpp:154-180 | in every run, through all faults, the text of each query that goes out reads as the columns and the table it was set up with and its own condition or none |
| ClientDb.NoConditionsIff | Smart_lift/GlobalModules/ClientDB/ClientDB.hpp:81-101 | in every run after a setQuerys without conditions all queries are asked without conditions iff the flag was down |
| ClientDb.LeftoverConditionIsUsed | Smart_lift/GlobalModules/ClientDB/ClientDB.hpp:167-177 | a concrete run in which a later fetch uses the condition that an earlier one left behind |
| ClientDb.ClientDB.SetAllQuerys | Smart_lift/GlobalModules/ClientDB/ClientDB.hpp:81-101 | queues and flag after setQuerys, in all three cases |
| ClientDb.ClientDB.BuildQuery | Smart_lift/GlobalModules/ClientDB/ClientDB.hpp:160-177 | the loop builds the text of the query, all fields and the popped condition included, that `QueryIsReadBack` reads |
| ClientDb.ClientDB.AskNext | Smart_lift/GlobalModules/ClientDB/ClientDB.hpp:154-180 | table, fields and condition are popped together and sent as one query |
| ClientDb.ClientDB.GenerateQuery | Smart_lift/GlobalModules/ClientDB/ClientDB.hpp:150-195 | the next query, the goodbye, or the callback and the end, by flag and queue |
| ClientDb.ClientDB.HandleConnected | Smart_lift/GlobalModules/ClientDB/ClientDB.hpp:116-149 | restart on error, otherwise connect, give up or go on, by the two flags |
| ClientDb.ClientDB.DecodeColumns | Smart_lift/GlobalModules/ClientDB/ClientDB.hpp:299-315 | every requested column is serialised cell by cell; a missing one drops the table |
| ClientDb.ClientDB.HandleReply | Smart_lift/GlobalModules/ClientDB/ClientDB.hpp:260-324 | what each kind of reply does to flags, data and the conversation |
| DataBase.PivotGivesColumns | Smart_lift/DataBase/Modules/Server/DataBaseServer.hpp:489-512 | pivoting rows gives each column's cells in row order, and no columns at all for no rows |
| DataBase.QueryIsAnsweredIff | Smart_lift/DataBase/Modules/Server/DataBaseServer.hpp:404-411 | an accepted query is answered iff it has a row and every requested column |
| DataBase.DataBaseService.Connection | Smart_lift/DataBase/Modules/Server/DataBaseServer.hpp:489-512 | one row is appended cell by cell to the columns |
| DataBase.DataBaseService.MakeQuery | Smart_lift/DataBase/Modules/Server/DataBaseServer.hpp:368-418 | rows to columns to requested columns; an SQL error becomes a goodbye |
| DataBase.DataBaseService.Project | Smart_lift/DataBase/Modules/Server/DataBaseServer.hpp:407-411 | exactly the requested columns, or nothing when one is missing |
| DataBase.DataBaseService.MakeDisconnect | Smart_lift/DataBase/Modules/Server/DataBaseServer.hpp:362-367 | a goodbye marks the connection for closing |
| DataBase.DataBaseService.WaitCommand | Smart_lift/DataBase/Modules/Server/DataBaseServer.hpp:247-328 | one request gives one answer, and the connection is closed behind a goodbye or a rejection |
| Fetch.FetchDelivers | Smart_lift/GlobalModules/ClientDB/ClientDB.hpp:150-195 | for any client state, client and service together terminate and call back once, with the earlier data and the tables of the queries before the first SQL failure |
| Fetch.FreshFetchDelivers | Smart_lift/GlobalModules/ClientDB/ClientDB.hpp:260-324 | for a fresh client the callback fires once with exactly those tables, each field holding the JSON-quoted field of every row in order |
| Fetch.DatabaseIsFetched | Smart_lift/GlobalModules/ClientDB/ClientDB.hpp:150-324 | from an engine of which nothing is assumed but that it answers by what a query's text says: a fresh fetch calls back once, and every table holds for every column asked for the quoted cells of that column of all rows that meet the table's own condition |
| Fetch.FetchGoesOnAfterAFault | Smart_lift/GlobalModules/ClientDB/ClientDB.hpp:116-228 | after a connection, send or receive error, at any point of a fetch, the client starts again by itself and asks just what is still queued; it calls back once, and what it had stored stays |
| Fetch.DeliveredTablesAreRectangular | Smart_lift/DataBase/Modules/Server/DataBaseServer.hpp:404-411 | all columns of a delivered table have the same non-zero length |
| Fetch.RejectedFetchCallsNothing | Smart_lift/GlobalModules/ClientDB/ClientDB.hpp:264-273 | a rejected login ends the exchange without query or callback |
| Fetch.FaultyFetchNeverFalsifies | Smart_lift/GlobalModules/ClientDB/ClientDB.hpp:116-228 | through any interleaving of faults, restarts and answers, queries that fail or have no rows included, a callback is given only earlier tables, unchanged, and true answers to queries of this fetch, each under its own name |
| Fetch.GoodQueryIsStored | Smart_lift/GlobalModules/ClientDB/ClientDB.hpp:304-315 | the client decodes a good query's answer to the table the rows describe |
| Fetch.FetchAll | Smart_lift/GlobalModules/ClientDB/ClientDB.hpp:220-259 | the client and service objects exchanging messages end where the composed functions do |
| Routing.StartedPositionsAreARoute | Smart_lift/MainServer/Modules/HTTPSServer/HTTPSServer.cpp:205-312 | when the command is started, the four saved positions are a station row, its text worker, its lift-block row and an MQTT worker |
| Routing.RoutingIsSoundAndComplete | Smart_lift/MainServer/Modules/HTTPSServer/HTTPSServer.cpp:200-318 | with unique ids the command is started iff a route exists, "not found" exactly for an unknown station or block, wherever the saved positions pointed |
| Routing.FreshRoutingStartsIff | Smart_lift/MainServer/Modules/HTTPSServer/HTTPSServer.cpp:205-312 | on a fresh session, and for any tables, the command is started iff there is a route over the first row of the station and the first row of its lift block |
| Routing.DuplicateStationHidesTheRoute | Smart_lift/MainServer/Modules/HTTPSServer/HTTPSServer.cpp:209-256 | a first row without workers hides the route of the second row of the same station |
| Routing.StartsFromEverywhereIff | Smart_lift/MainServer/Modules/HTTPSServer/HTTPSServer.cpp:205-312 | the command is started from all saved positions iff the station has a row and each of its rows has a text worker and a lift block, each such block an MQTT worker |
| Https.RequestIsAnsweredAtMostOnce | Smart_lift/MainServer/Modules/HTTPSServer/HTTPSServer.cpp:331-468 | whatever answers come and however often, a request gets at most one response, which echoes its ids; it gets one iff it was turned away or some answer closes it, and the first that does says what is in it |
| Https.VoiceCommandIff | Smart_lift/MainServer/Modules/HTTPSServer/HTTPSServer.cpp:200-318 | a POST sends one text command iff routing comes through to a live session; it goes to a text worker of the station's row and carries the request's application id; no later answer sends another |
| Https.OtherRequestsEndAtOnce | Smart_lift/MainServer/Modules/HTTPSServer/HTTPSServer.cpp:148-204 | OPTIONS gets the preflight response, every other request that is no well-formed POST a bad request, at once and without any command |
| Https.MovesAreThoseAskedFor | Smart_lift/MainServer/Modules/HTTPSServer/HTTPSServer.cpp:348-358 | a run sends exactly the move commands that its text answers ask for, in order, each with its answer's station, block and floor |
| Https.MoveGoesToTheBlocksWorkerIff | Smart_lift/MainServer/Modules/HTTPSServer/HTTPSServer.cpp:356-357 | with one session for the block, the move goes to a worker of the block iff every session reaped since routing stood behind the saved position and that worker is live |
| Https.ServePost | Smart_lift/MainServer/Modules/HTTPSServer/HTTPSServer.cpp:148-468 | the session object driven over the life of a POST request gives that response, sends that one text command and those moves |
| Https.DeadTextWorkerMeansNoResponse | Smart_lift/MainServer/Modules/WorkerServer/WorkerServer.cpp:388-398 | a request routed to a text worker that is not live is never answered |
| FrontDesk.OverlapSwapsAnswers | Smart_lift/MainServer/Modules/WorkerServer/WorkerServer.cpp:388-403 | two requests at one live text worker, the second started before the first answer: the second is answered with the first one's text under its own ids, the first never |
| FrontDesk.AnswerBehindAPingIsLost | Smart_lift/MainServer/Modules/WorkerServer/WorkerServer.cpp:242-243 | one request and no overlap, but the answer stands behind the ping answer in its batch: the request is never answered |
| FrontDesk.OwnAnswerArrivesIff | Smart_lift/MainServer/Modules/WorkerServer/WorkerServer.cpp:365-403 | at a text worker a request's own answer reaches it iff no other request starts between its command and its answer and the answer stands at the front of its batch |
| FrontDesk.RequestGetsItsWindow | Smart_lift/MainServer/Modules/WorkerServer/WorkerServer.cpp:365-403 | a request at a text worker is given exactly the answers at the front of a batch between its command and the next one, whosever they are |
| FrontDesk.OwnAnswersIff | Smart_lift/MainServer/Modules/WorkerServer/WorkerServer.cpp:320-403 | all requests at one worker session get their own answer, each exactly once and nobody else's, iff no command starts while another is unanswered and, at a SessionMarusia, no answer stands behind another document of its batch |
| FrontDesk.NoOverlapSeparates | Smart_lift/MainServer/Modules/WorkerServer/WorkerServer.cpp:320-403 | then each request ends as if it had the worker for itself, and the dispatch loop never sticks |
| FrontDesk.TwoDesksAnswerOnce | Smart_lift/MainServer/Modules/HTTPSServer/HTTPSServer.cpp:331-441 | without overlap at the text worker and at the MQTT worker, and with the text worker's answers in front of their batches, a request gets exactly one response, with its own ids, from its own text answer or from what its own move came to |
| Https.HttpsSession.FindRow | Smart_lift/MainServer/Modules/HTTPSServer/HTTPSServer.cpp:209-219 | the saved row if it still fits, else the first row with the key, else the end |
| Https.HttpsSession.FindWorker | Smart_lift/MainServer/Modules/HTTPSServer/HTTPSServer.cpp:231-251 | the saved session if it still serves, else the first one with either id, else the end |
| Https.HttpsSession.HandleRequest | Smart_lift/MainServer/Modules/HTTPSServer/HTTPSServer.cpp:148-204 | the answer to each kind of request |
| Https.HttpsSession.RoutePost | Smart_lift/MainServer/Modules/HTTPSServer/HTTPSServer.cpp:200-318 | the four lookups, their early ends and the command to the text worker that was found |
| Broker.NameIsDescriptorIff | Smart_lift/MQTT_Worker/Modules/MQTTBroker/MQTTBroker.cpp:86-93 | for every client id that holds the search phrase, the name is the text behind it up to a space or the end iff nothing precedes the phrase or no space follows it |
| Broker.LiftIsNamedByDescriptor | Smart_lift/MQTT_Worker/Modules/MQTTBroker/MQTTBroker.cpp:86-93 | a client id `LKDS_LU<d> ...` is filed under <d> |
| Broker.NameWithoutPhrase | Smart_lift/MQTT_Worker/Modules/MQTTBroker/MQTTBroker.cpp:86-93 | a client id without the phrase is refused iff it is shorter than six characters, and otherwise named by what stands behind the sixth, cut one character short of a space |
| Broker.HistoriesKeepClosedNameless | Smart_lift/MQTT_Worker/Modules/MQTTBroker/MQTTBroker.cpp:27-35 | in every history a closed session has no name |
| Broker.SessionsRememberTheirHistory | Smart_lift/MQTT_Worker/Modules/MQTTBroker/MQTTBroker.cpp:27-111 | after every history each accepted session has the name that its last close or accepted connect gave it, is closed iff it was closed once, and live iff it was neither closed nor ever rejected |
| Broker.ServeHistory | Smart_lift/MQTT_Worker/Modules/MQTTBroker/MQTTBroker.cpp:27-111 | the broker object driven over a history: accepts, connects, closes and publishes leave those names and states, and no name on a closed session |
| Broker.MQTTBroker.HandleConnect | Smart_lift/MQTT_Worker/Modules/MQTTBroker/MQTTBroker.cpp:84-111 | a known login names the session, anything else ends its liveness |
| Broker.MQTTBroker.PublishTo | Smart_lift/MQTT_Worker/Modules/MQTTBroker/MQTTBroker.cpp:281-289 | a publish goes to the first session of that name and says whether there was one |
| LiftWorker.ZipTakesLastRow | Smart_lift/MQTT_Worker/MQTTWorker.cpp:141-149 | walking two columns in step gives each key the value of its last row |
| LiftWorker.RefreshIsAllOrNothing | Smart_lift/MQTT_Worker/MQTTWorker.cpp:131-162 | both maps become the zips of the columns iff table and columns are there, else neither changes |
| LiftWorker.MQTTWorker.UpdateData | Smart_lift/MQTT_Worker/MQTTWorker.cpp:131-153 | the lockstep loop builds those maps and swaps them in at the end |
| LiftWorker.WorkerLoopEndsIff | Smart_lift/MQTT_Worker/Modules/MSWorker/MSWorker.cpp:160-186 | MSWorker's loop ends iff every document before the first targetless one is known, a move naming a known block |
| LiftWorker.UnknownBlockIsRefusedForEver | Smart_lift/MQTT_Worker/Modules/MSWorker/MSWorker.cpp:209-215 | a move for an unknown block is answered with a failure in every round |
| LiftWorker.RepliesSayWhatHappened | Smart_lift/GlobalModules/JSONFormatter/JSONFormatter.cpp:39-130 | what a reader of a reply's members finds: sender, target, and for a move its own station and a status that is "success" iff a lift was reached |
| LiftWorker.HandledDocsAreAnswered | Smart_lift/MQTT_Worker/Modules/MSWorker/MSWorker.cpp:160-198 | every ping, goodbye and move of a queue gets one reply of its own kind, in order, a move's about its own station; nothing else gets one |
| Messages.AnswerIsUnderstood | Smart_lift/MainServer/Modules/HTTPSServer/HTTPSServer.cpp:331-358 | the main server reads a text worker's answer as the station, lift block and floor, or the text, that were meant |
| Messages.CommandIsUnderstood | Smart_lift/MQTT_Worker/Modules/MSWorker/MSWorker.cpp:199-213 | the MQTT worker reads the main server's command as the station, block and written floor that were meant |
| Messages.ReplyIsUnderstood | Smart_lift/MainServer/Modules/HTTPSServer/HTTPSServer.cpp:389-420 | the main server reads an MQTT worker's reply to a move as a success iff a lift was reached |
| WorkerLink.WorkerRunIsIdealIff | Smart_lift/MQTT_Worker/Modules/MSWorker/MSWorker.cpp:116-198 | over any interleaving of released batches and send completions the commands reach the lifts one by one and the main server gets every reply whole and in order iff no reply is handed over while another is outstanding; otherwise the replies overrun the buffer |
| WorkerLink.WorkerChunkIndependenceIff | Smart_lift/MQTT_Worker/Modules/MSWorker/MSWorker.cpp:55-198 | the same for a stream of commands cut into receives in any way; the cutting rules crossing replies out, whatever the timing, iff its batches are safe |
| WorkerLink.SafeIff | Smart_lift/MQTT_Worker/Modules/MSWorker/MSWorker.cpp:55-198 | exactly for safe batches no timing makes two replies meet: at most one reply in each, and none where an earlier reply can be outstanding beside a receive |
| WorkerLink.OneStartEachIsSafe | Smart_lift/MQTT_Worker/Modules/MSWorker/MSWorker.cpp:55-198 | batches that start at most one send or receive each are safe |
| WorkerLink.ConnectAnswerLetsRepliesCross | Smart_lift/MQTT_Worker/Modules/MSWorker/MSWorker.cpp:55-79 | a connect answer and a ping in one receive, the next ping before the first reply is out: the replies overrun |
| WorkerLink.OutstandingIsConserved | Smart_lift/MQTT_Worker/Modules/MSWorker/MSWorker.cpp:55-158 | receives and sends outstanding are together what the batches say: each uses up one receive and starts one for each reply and connect answer |
| WorkerLink.WorkerFallsSilentIff | Smart_lift/MQTT_Worker/Modules/MSWorker/MSWorker.cpp:144-186 | nothing can happen at the worker any more iff the batches have used up what was outstanding |
| WorkerLink.TargetlessDocumentSilences | Smart_lift/MQTT_Worker/Modules/MSWorker/MSWorker.cpp:180-183 | one document without a target, alone in its batch, does that |
| WorkerLink.ServeStream | Smart_lift/MQTT_Worker/Modules/MSWorker/MSWorker.cpp:116-198 | worker and send buffer objects driven over any such run deliver those commands and replies, or overrun |
| LiftWorker.MoveIsDelivered | Smart_lift/MQTT_Worker/Modules/MSWorker/MSWorker.cpp:199-237 | over every broker history a move for a known block sends one response for its station, a success iff a session has the name, and then publishes once, on the first such session, which is not closed |
| LiftWorker.ClosedSessionIsReachedOnlyByEmptyName | Smart_lift/MQTT_Worker/Modules/MQTTBroker/MQTTBroker.cpp:281-289 | a publish reaches a closed session only for the empty descriptor |
| LiftWorker.EmptyDescriptorReachesAClosedSession | Smart_lift/MQTT_Worker/Modules/MQTTBroker/MQTTBroker.cpp:281-289 | for the empty descriptor it can |
| LiftWorker.MSWorker.PublishMove | Smart_lift/MQTT_Worker/MQTTWorker.cpp:91-103 | the quotes come off, the floor command goes to the lift's topic, and the response says whether it did |
| LiftWorker.MSWorker.CommandAnalize | Smart_lift/MQTT_Worker/Modules/MSWorker/MSWorker.cpp:160-186 | responses and publishes of a whole queue, in order |
| TextWorker.SelectionIsUnique | Smart_lift/Worker/Modules/Worker/Worker.hpp:509-522 | at most one token is the last one with the highest root that occurs |
| TextWorker.SelectToken | Smart_lift/Worker/Modules/Worker/Worker.hpp:509-522 | the loops pick the last token that contains the highest root occurring in any token, and nothing iff no root occurs |
| TextWorker.ConfirmedIffSomeRowHasFloor | Smart_lift/Worker/Modules/Worker/Worker.hpp:529-567 | with readable columns a floor is confirmed iff some row of the house spans it or has it as null floor |
| TextWorker.MoveSpeaksIffHouseHasFloor | Smart_lift/Worker/Modules/Worker/Worker.hpp:529-573 | with readable columns a floor word always leads to a move, and its text is not empty iff some row of the house has the floor |
| TextWorker.AbsentFloorIsMovedToSilently | Smart_lift/Worker/Modules/Worker/Worker.hpp:529-573 | asked for the twelfth of nine floors, the worker sends the move with an empty text |
| TextWorker.CheckFloor | Smart_lift/Worker/Modules/Worker/Worker.hpp:529-567 | the first deciding row confirms the floor or throws |
| TextWorker.SplitVariants | Smart_lift/Worker/Modules/Worker/Worker.hpp:592-610 | the erasing loop terminates with the parts between the semicolons |
| TextWorker.FindPhrase | Smart_lift/Worker/Modules/Worker/Worker.hpp:590-633 | the response of the least row whose house and complex match and one of whose unquoted variants occurs in the command |
| TextWorker.FindPlace | Smart_lift/Worker/Modules/Worker/Worker.hpp:449-465 | house, complex and lift block of the first row of the station, or "-1" |
| TextWorker.AnswerMove | Smart_lift/Worker/Modules/Worker/Worker.hpp:499-573 | floor, lift block and text of the answer to a lift request |
| TextWorker.AnalizeRequest | Smart_lift/Worker/Modules/Worker/Worker.hpp:475-651 | which kind of answer a request gets and what it says, the fallback included |
| TextTables.KnowledgeMirrorsTheDatabase | Smart_lift/Worker/Modules/Worker/Worker.hpp:408-425 | after its fetch each column that the text worker uses holds the quoted cells of the column of the database that it is named after |
| TextTables.FetchedTablesAreSearchable | Smart_lift/Worker/Modules/Worker/Worker.hpp:408-425 | that fetch gives the worker's loops equally long columns in all three tables |
| TextTables.UnquoteUndoesQuote | Smart_lift/Worker/Modules/Worker/Worker.hpp:483-486 | taking the quotes out of a serialised plain text gives the text back |
| TextTables.FloorIsConfirmedIff | Smart_lift/Worker/Modules/Worker/Worker.hpp:529-567 | on fetched tables a floor is confirmed iff some row of the house in the database, read as numbers, has it and no earlier one is unreadable; the check throws iff it meets an unreadable row first |
| TextTables.ReadableHouseHasFloorIff | Smart_lift/Worker/Modules/Worker/Worker.hpp:529-567 | where all rows of the house can be read, that is: iff some row has the floor |
| TextTables.PhraseMatchesIff | Smart_lift/Worker/Modules/Worker/Worker.hpp:590-633 | on fetched tables a phrase matches iff its row of the database belongs to the house and one of the variants between its semicolons occurs in the command |
| TextTables.AnswerRequest | Smart_lift/Worker/Modules/Worker/Worker.hpp:436-651 | a whole request, serialised station, words and command: the answer is the move of the station's lift block to the selected word's floor, or the response of the first matching row, or the fallback, all in terms of the rows of the database |
| Common.SplitJoins | Smart_lift/Worker/Modules/Worker/Worker.hpp:592-610 | the parts hold no separator and join back to the text |
| Common.SplitIsUnique | Smart_lift/Worker/Modules/Worker/Worker.hpp:592-610 | no other separator-free parts join to the same text |
| Common.UnquoteConcat | Smart_lift/Worker/Modules/Worker/Worker.hpp:613-616 | quotes are taken out of a text part by part |
| Common.SplitUnquotes | Smart_lift/Worker/Modules/Worker/Worker.hpp:592-616 | cutting at semicolons and taking the quotes out may change places |
| Common.DecimalIsRead | Smart_lift/MainServer/Modules/HTTPSServer/HTTPSServer.cpp:353 | a number that is written with `to_string` and read with `stoi` comes back iff it is an `int` |
| ConfigFile.ConfigRoundTrip | Smart_lift/GlobalModules/Config/Config.cpp:58-87 | reading written lines gives each key its first value and besides only the empty entry of the final line; LF and CRLF read the same |
| ConfigFile.LineWithoutColonNamesItself | Smart_lift/GlobalModules/Config/Config.cpp:69-71 | a line without a colon becomes a key that maps to the line |
| ConfigFile.Config.GetLine | Smart_lift/GlobalModules/Config/Config.cpp:64-68 | a line read takes off the first part of the text, the last one raises the end flag |
| ConfigFile.Config.CutLine | Smart_lift/GlobalModules/Config/Config.cpp:69-75 | key and value of a line, the first carriage return of the value removed |
| ConfigFile.Config.ReadConfig | Smart_lift/GlobalModules/Config/Config.cpp:58-87 | the line loop terminates with the map of the whole text; without a file nothing changes |
| ConfigFile.ReadBack | Smart_lift/GlobalModules/Config/Config.cpp:58-87 | the reader object gives back what was written |
| EndToEnd.RefreshedTables | Smart_lift/MQTT_Worker/MQTTWorker.cpp:104-153 | after fetch and refresh each quoted id leads to its quoted descriptor and every quoted login may connect |
| EndToEnd.ConnectedLiftIsNamed | Smart_lift/MQTT_Worker/Modules/MQTTBroker/MQTTBroker.cpp:84-98 | among any other broker events, a lift that logged in and was not touched since is reachable under its descriptor |
| EndToEnd.MoveReachesTheLiftOfTheRow | Smart_lift/MQTT_Worker/MQTTWorker.cpp:91-153 | a move for a block of the database publishes the floor once to the topic of that row's descriptor and reports success for its station |
| EndToEnd.FetchedTablesAreRoutable | Smart_lift/MainServer/MainServer.cpp:96-128 | the main server's fetch gives routing equally long columns, a first row and unique ids |
| EndToEnd.RoutingMirrorsTheDatabase | Smart_lift/MainServer/MainServer.cpp:96-128 | each column that routing reads holds the quoted cells of the column of the database that it is named after |
| EndToEnd.RouteLeadsAlongRows | Smart_lift/MainServer/Modules/HTTPSServer/HTTPSServer.cpp:205-312 | on such tables positions are a route iff they lead along the database: the row of the request's application id, a text worker named in it, the row of its lift block, an MQTT worker named in that |
| EndToEnd.BlocksQueryText | Smart_lift/MQTT_Worker/MQTTWorker.cpp:104-114 | the literal text of the MQTT worker's query |
| EndToEnd.MoveReachesTheLiftOfTheBlock | Smart_lift/MQTT_Worker/MQTTWorker.cpp:91-153 | with an engine over a database: a move for the id of a row of the lift blocks reaches the lift that has logged in and calls itself by that row's descriptor |
| EndToEnd.VoiceReachesTheLift | Smart_lift/MainServer/Modules/HTTPSServer/HTTPSServer.cpp:348-441 | from the rows of one database to the lift: the text worker's answer, the command made of it and the reply to that are each read from the wire as they were meant; the word's floor is published once, to the topic of the descriptor of the station's lift block, and the request gets one response with its own ids |
| EndToEnd.SlotFollowsTheRequest | Smart_lift/MainServer/Modules/HTTPSServer/HTTPSServer.cpp:389-466 | the callback that the dispatch loop runs throws iff the request is answered already, and closes the request otherwise |
| EndToEnd.UnknownBlockHangsTheMainServerIff | Smart_lift/MainServer/Modules/WorkerServer/WorkerServer.cpp:320-353 | after the refusals of n rounds of an MQTT worker that does not know the lift block, read from the wire and cut in any way, the main server's dispatch loop hangs iff n is at least 2 |

## Left out

- Sockets, TLS, HTTP library types, the SQL engine and the MQTT library: events or parameters.
- Races between handlers on different threads, and object lifetimes: every handler is one atomic step.
- Receives that fill all 2048 bytes: the terminator slot of the buffer is never written, so the C string that the parser reads has no defined end.
- PartialSend.SendsAreIntactIff: each text's bytes are taken to be those of the moment its send was started; the code overwrites them while the send is outstanding, and what the operating system reads then has no defined meaning.
- Partial writes of several sessions that overlap in time over the shared counter: sends of different sessions follow one another here.
- WorkerLink.WorkerChunkIndependenceIff: connect answers are accepting ones, a refusing one closes the worker's socket; send errors, which make the worker reconnect, are not modelled; and of two outstanding receives the first is handled before the second one's bytes reach the buffer that they share.
- FrontDesk.OwnAnswersIff: about runs in which the worker answers every command that was started.
- Liveness.LiveIffEveryPingAnsweredOnce: a further connect on a session that is live already is not followed up; `SecondConnectCanSpoilTheId` and `LiveIdIsKnownIff` are about it.
- Malformed JSON and parser exceptions, and insignificant whitespace between documents: streams are compact and well formed.
- Matching of bracket kinds inside a document: the boundary automaton counts depth only, which well-formed documents do not notice.
- Framing.MqttRunConserves: how a finished document's target reads is a parameter, for all ways of reading; JsonReader.TargetIn is the one that UnknownBlockHangsTheMainServerIff uses.
- JsonReader.ReadUndoesSerialize: about compact documents; of the `\u` escapes only those below 0x100 are read, since the serialiser writes no others.
- Messages.CommandIsUnderstood: a move document without station, block or floor is read as one without a target, and a connect answer as an accepting one.
- Byte-level framing inside the database service and the text worker, which resume a partial document in another handler, and inside the database client, whose parser keeps a partial document over a restart: these three are modelled at message level.
- Liveness.Handle: timers fire at their deadlines and aborted handlers run before time goes on; a late event loop is not modelled.
- DataBase.DataBaseService.WaitCommand: whether a login is accepted is a parameter; an unknown login reads the password list at position -1, which has no defined meaning.
- DataBase.DataBaseService.Connection: NULL cells are not modelled; the code reads them as C strings all the same.
- ClientDb.ClientDB.SetAllQuerys: demands one non-empty field list for each table, as all callers give; the code reads past the queue's end otherwise.
- Https.HttpsSession.RoutePost: demands saved positions inside non-empty tables, since the code indexes with them unchecked; a failed lookup leaves its position past the end, but an HTTPS session handles one request only.
- Https.HttpsSession.Respond: a body without session or application members makes the code throw; bodies are well formed.
- LiftWorker.MQTTWorker.UpdateData: demands equally long columns, which the fetch delivers; the code would run past the shorter one.
- TextWorker.AnalizeRequest: the worker also stops its socket for an unknown station and then goes on; only the answer is modelled. The word lists and floor words are parameters.
- The builders in JSONFormatter.cpp other than the text worker's answers, the move command and the MQTT worker's replies: connects, goodbyes, pings, the voice request and the database messages are values of a datatype for each service, not JSON objects with named members.
- Fetch.DatabaseIsFetched: what a condition selects is up to the database, a parameter.
- Server shutdown, the HTTPS session's own liveness flag and its handshake retries.
- Broker subscriptions and retained messages: nothing reads them.
- Periodic refresh reaching running servers: they hold a copy of the handle, so their tables stay fixed.
- Log files, console output, message wording, command lines, NetRepeater and the Resurrector.
