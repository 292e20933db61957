# zlmb: a model of the message broker and its tools

zlmb passes multipart messages from applications to workers. `zlmb-server` has
the parts client, publish and subscribe, which run alone or combined in one
process; frames that cannot be sent go to a dump file, from which `zlmb-dump`
sends them again; `zlmb-worker` hands a message to a command; `zlmb-cli` makes
messages of its arguments. This project models that behaviour in Dafny and
proves properties of it. `dafny verify dfyconfig.toml` checks everything.

How it is put together:

- `Wire` is traffic on a socket, frames marked "more follows", and what a
  receiver makes of them. Every statement about messages goes through it.
- `Send` is `_sendmsg`: the coded frame, then the plain frame, then the dump
  file, then nothing. `DumpFormat` and `Dump` are the dump file and its object,
  `Replay` is zlmb-dump.
- `Broker` is the forwarding loop of all server modes as one machine. It takes
  one step at a time; messages, connection events and the interrupt may come
  between any two steps, and every library call may fail. A run is any sequence
  of such events. One `Config` record holds the differences between the modes.
- `Server` is the same loop with its variables, `while` loops and shared event
  words, for any schedule of the other threads. Its methods are proved to stay in
  the state that the machine is in, so what is proved of the machine holds of
  the loop. `Recovery` follows a message from the loop through the file to the
  replay tool.
- `Routes`, `Integrity`, `Connections`, `Windows` and `Modes` are about runs: the
  counter of connections chooses the way of a message, messages stay whole,
  connections are counted right, and modes compose. `ByMode` says of each mode by
  name what it chooses, counts, sends and dumps; `Halting` is how the loop ends.
  `Progress` has runs that get every stream through, `Compositions` the combined
  modes that count workers. `ClientSubscribe` is the one mode with two streams in
  one loop. `Handshake` is how the threads start, `Mutex` that their critical
  sections never overlap.
- `Options`, `Merge` and `CommandLine` are the settings; `Endpoints` is how
  endpoint lists are taken apart; `Stack` and `Worker` are zlmb-worker and the
  example command; `Cli` is zlmb-cli. `Common` and `Text` hold what they share.

What is outside is a parameter: the library calls succeed or fail as the
`Outcome`, `Calls` and `FileCalls` values say, snappy is any pair of partial
functions (`Lossless` where compression must be undone), the YAML parser is a
list of events, other threads are a `schedule`.

Where the program does something else than its documentation or its layout
suggests, the model follows the program:

- `zlmb-dump` takes stored flags 0 for the end of the file
  (src/app_dump.c:164), so the frame that closes a message is consumed and
  not sent, and `--continue` (README.md, "continue end of file") makes no
  difference: `Replay.NoRunClosesAMessage`, `Replay.Run`.
- A frame is written with `%.*s` (src/dump.c:150), so it ends at its first NUL
  byte although its full length is stored; a frame of length 0 is written but
  cannot be read: `DumpFormat.RoundTripExactly` says which frames come back.
- A refresh clears the whole event word after a connect (src/app_server.c:480).
  So does a refresh of the bound sockets (src/app_server.c:846-854). Two events in
  one window, or one in the gap between test and lock, are then counted as one:
  `Windows.CollapsedWindow`, `Windows.CollapsedGap` and `Windows.TwoWorkers` are
  such runs, and `Connections.ClosingExactly`, `Windows.WindowExactly` and
  `Windows.GapExactly` say exactly which windows are counted right.
- A list option that is set already loses its key when the file mentions it
  (src/option.c:144-150). If a plain string follows, the loader reads keys as
  values from there on: `Merge.EntryInStep` says exactly when that happens, and
  `Merge.PlainListShifts` shows it.
- `--client_dumptype` sets the dump file (src/app_server.c:3020-3022):
  `CommandLine.DumptypeArgumentIsLost`.
- stand-alone dumps what it received; the composition of client, publish and
  subscribe dumps the compressed frames. `Compositions.StandAloneIsComposition` has the
  exact condition under which the two dumps agree.
- Uncompressed keys that are prefixes of one another need not stay so when they
  are compressed: with snappy a subscription is compared with compressed bytes.
  `Modes.KeyDecides` is stated on these.

## Model

| member | source | states |
|---|---|---|
| Wire.WholeOfPartsAll | src/app_server.c:758-801 | A receiver of a stream of multipart messages sees exactly the non-empty ones, in order, and is left with nothing open |
| Wire.FramesReceived | src/app_server.c:758-801 | Putting messages together from marked frames neither loses nor reorders a frame |
| Send.SendExactly | src/app_server.c:248-329 | The chain, call by call: coded if a coded form exists and its send succeeds, else plain if that is tried and succeeds, else dumped if there is a dump that is open or opens and can be locked, else lost; exactly one of these, and nothing else changes |
| Send.Sender.Sendmsg | src/app_server.c:248-329 | The method with its branches and early returns does exactly this, whatever call fails; it returns -1 if and only if the frame was sent neither coded nor plain and no dump takes it |
| Send.Sender.DumpOrLose | src/app_server.c:316-328 | The last stage: in the dump if open and lock succeed, otherwise lost and the dump object closed |
| Send.OpenAfterMore | src/app_server.c:316-323 | After any sequence of sends the dump is open if and only if some frame with more to follow was dumped and no later frame got as far as the dump |
| DumpFormat.IntRoundTrip | src/dump.c:148 | Two's-complement 4-byte flags are read as they were written |
| DumpFormat.SizeRoundTrip | src/dump.c:149 | Every 8-byte length is read as it was written |
| DumpFormat.ReadRecord | src/dump.c:223-276 | At a record without NUL bytes a read returns its flags and payload, or an error for length 0, and in both cases moves the offset by exactly the record |
| DumpFormat.RoundTripExactly | src/dump.c:144-151 | A frame comes back from the file, whatever follows it, if and only if it is not empty and has no NUL byte |
| DumpFormat.ForeignBytes | src/dump.c:223-228 | Where no header stands, a read fails and consumes nothing |
| DumpFormat.TornRecord | src/dump.c:246-263 | A record cut off in its payload is returned filled up with zero bytes to its stored length, and only the bytes that exist are consumed; cut off before it, it is an error |
| DumpFormat.RecordBytes | src/dump.c:144-151 | The bytes of one record, spelt out |
| DumpFormat.ReadBack | src/dump.c:223-276 | Reading a file of records returns all of them in order, so the concatenation splits in one way only |
| DumpFormat.SizeIsOffset | src/dump.c:228-258 | After k reads `size` is the offset of record k+1, with rejected empty records too |
| Dump.DumpFile.constructor | src/dump.c:19-39 | A new object is closed, has consumed nothing, and its log is empty |
| Dump.DumpFile.Write | src/dump.c:50-161 | A write appends exactly one record or nothing, for every failure of open and lock, and leaves the stream open exactly after a frame with more to follow |
| Dump.DumpFile.Close | src/dump.c:163-176 | Closing changes the stream only |
| Dump.DumpFile.ReadOpen | src/dump.c:178-191 | Opening for reading fails without a file and starts at its beginning |
| Dump.DumpFile.ReadStream | src/dump.c:215-276 | The reads of header, flags, length and payload compute `Read`, offset and end-of-file mark included, on any bytes whatever |
| Dump.DumpFile.ReadMessage | src/dump.c:193-277 | A closed file is opened for this read, closed after success and left open after failure |
| Dump.DumpFile.Truncate | src/dump.c:279-341 | The copy through a buffer leaves exactly the bytes behind the consumed size, none if that is past the end, and the old file if a call fails |
| Replay.Run | src/app_dump.c:153-203 | A run of zlmb-dump on any file sends what `SentBy` says and leaves what `Remaining` says, with or without --continue |
| Replay.ReplayRecords | src/app_dump.c:159-194 | From any record on, the loop sends the records up to the first that is empty or stored under flags 0 or -1, and consumes that one too |
| Replay.RunKeepsAlignment | src/app_dump.c:159-203 | From a file of records, empty frames included, a run leaves a file of records: a proper suffix of the ones it found |
| Replay.RunStopsAt | src/app_dump.c:159-203 | From a file of records, a run sends exactly those before the first that is empty or stored under flags 0 or -1, drops that one and leaves the others; it sends all and leaves nothing if there is none |
| Replay.NoRunClosesAMessage | src/app_dump.c:163-170 | Whatever the file holds, nothing is sent with flags 0 |
| Replay.RunTakesOneMessage | src/app_dump.c:159-203 | From a dump of whole messages a run sends all frames but the last of the first message, and leaves exactly the dump of the later ones, which is shorter |
| Replay.RunsEmptyTheFile | src/app_dump.c:159-203 | After k runs the file is the dump of the messages from k on; it is empty exactly when k is the number of messages |
| Broker.Conservation | src/app_server.c:738-812 | In every run, whatever fails, the frames queued are those taken and those still queued, and each frame taken has exactly the fate that its mode and its calls demand: on the socket (coded, or else plain), in the dump, lost or dropped, in order in each place |
| Broker.NothingLost | src/app_server.c:307-323 | With a dump whose file can be opened and locked no frame is ever lost, whatever sends fail |
| Broker.ClientCounts | src/app_server.c:738-812 | For the client, frames on the socket, dumped, lost and still queued add up to the frames that arrived |
| Routes.KindByCounter | src/app_server.c:750-758 | In every reachable state, a message that is being received is sent live if the mode has no counter or `connect` is positive, and dumped if not |
| Routes.RoutesAtPolls | src/app_server.c:738-758 | `RoutesOf` is what the counter said at each poll that found a message |
| Routes.AllLive | src/app_server.c:750-758 | With a positive counter whenever a message is received, all messages go live |
| Routes.LiveIsConnected | src/app_server.c:750-758 | The other way round: if all messages went live, the counter was positive whenever one was received |
| Integrity.RunIsIntegral | src/app_server.c:738-812 | In every run without failing calls the socket and the dump hold whole messages, plus at most the beginning of the message being received, and every message is where the counter sent it when it was found |
| Integrity.OnlyInterruptsSplit | src/app_server.c:757-804 | Without an interrupt no message is left half sent between messages, and the dump is closed |
| Integrity.DrainedRun | src/app_server.c:738-812 | When the queue is empty, every message that arrived lies whole on the socket or whole in the dump, as the counter said when it was found; all on the socket if the counter was always positive |
| ByMode.CountersDecide | src/app_server.c:750-758 | By name, for client, subscribe, publish-subscribe and stand-alone: in every run a frame is received for the dump if and only if the count is not positive, and otherwise compressed, uncompressed or plain as the mode and the build say |
| ByMode.PublishersNeverDump | src/app_server.c:1132-1200 | By name: publish, client-publish and the relay of client-subscribe always send live, count nothing and dump nothing, whatever fails |
| ByMode.NoModeLoses | src/app_server.c:307-323 | By name: no mode with a dump loses a frame while the dump file works |
| ByMode.ClientSections | src/app_server.c:473-493 | By name: a section of the client counts and clears the word if its zmq_connect or zmq_disconnect succeeds, and changes neither if it fails |
| ByMode.WorkerSections | src/app_server.c:844-855 | By name: a section of a mode with workers always counts and clears |
| ByMode.RoutesAreCounts | src/app_server.c:738-758 | The ways messages take are the signs of the count at their polls |
| ByMode.ClientSorts | src/app_server.c:738-812 | In every finished run without failures of the client, the messages found while the count was positive lie on the socket, compressed, and the others in the dump, as they came, whole and in order |
| ByMode.SubscribeSorts | src/app_server.c:1430-1494 | The same for subscribe: uncompressed on the socket, and without the first frame in both places if the key is dropped |
| ByMode.PublishSubscribeSorts | src/app_server.c:1889-1958 | The same for publish-subscribe: uncompressed on the socket, as they came in the dump |
| ByMode.StandAloneSorts | src/app_server.c:2655-2719 | The same for stand-alone: as they came in both places |
| ByMode.PublishSendsAll | src/app_server.c:1132-1200 | publish sends every message as it came, behind the coded key if the key is sent |
| ByMode.ClientPublishSendsAll | src/app_server.c:1664-1738 | client-publish sends every message compressed, behind the coded key if the key is sent |
| ByMode.EveryModeCanSort | src/app_server.c:738-812 | By name: for every stream and every choice of socket or dump for each message there is a run in which the count chooses so |
| ByMode.UnconnectedClientDumps | src/app_server.c:750-758 | The first message that finds no connection goes to the dump |
| Halting.NothingAfterHalt | src/app_server.c:738-763 | After an interrupt or a failed poll no further frame is received, sent, dumped or lost, whatever happens |
| Halting.FailedPollHalts | src/app_server.c:739-741 | A poll that fails ends the loop and changes nothing |
| Halting.InterruptEnds | src/app_server.c:738-812 | Wherever an interrupt finds the loop, its own steps lead out of it |
| Connections.CountIsDifference | src/app_server.c:464-495 | In every run `connect` is the number of critical sections of a connect that succeeded minus that of a disconnect |
| Connections.CountExactly | src/app_server.c:202-229 | In every run of every mode, whatever fails and whenever events come, the event words mark what happened since they were cleared, and `connect` is the number of connections when these windows opened plus the errors of earlier clears |
| Connections.RightExactly | src/app_server.c:464-495 | With no event pending `connect` is the number of connections if and only if those errors add up to nothing |
| Connections.ClosingExactly | src/app_server.c:473-493 | A window that is cleared, events after the unlocked test included, is counted right if and only if it gained (lost) exactly one connection; for an endpoint of the client, exactly when it has an odd number of events and began the way it is counted |
| Connections.CountIsRight | src/app_server.c:464-495 | With at most one event per socket between two clears, even in the gap between test and lock and with failed calls retried, `connect` is the number of connections up to pending events, between 0 and the number of endpoints for the client, and exact when no event is pending |
| Connections.MessagesFollowConnections | src/app_server.c:738-812 | With one event per window, a message found when no event is pending lies whole on the socket if and only if the mode keeps no count or there is a connection, and whole in the dump if not |
| Windows.RefreshByTicks | src/app_server.c:472-493 | An undisturbed refresh of one socket is what the machine does in its steps for it, whether its calls succeed or fail |
| Windows.RefreshIsRight | src/app_server.c:464-495 | After an undisturbed refresh of all sockets with calls that succeed no event is pending, and with one event per window `connect` is the number of connections |
| Windows.WindowExactly | src/app_server.c:838-857 | In every mode and for every window, a refresh that clears it counts it right if and only if the connections changed by one up if any came, otherwise by one down if any went; a refresh with failing calls leaves word and count |
| Windows.GapExactly | src/app_server.c:473-493 | Events between the unlocked test and the lock are cleared uncounted: the count is right if and only if the window and the gap together gained (lost) exactly one connection |
| Windows.CollapsedWindow | src/app_server.c:480 | A run from the start that counts a connection which is gone, after connect and disconnect fell into one window |
| Windows.CollapsedGap | src/app_server.c:473-482 | The same with the disconnect in the gap between test and lock |
| Windows.TwoWorkers | src/app_server.c:845-855 | In every mode that counts workers: two that come in one window are counted as one, and when one leaves the other stays uncounted and the next message is dumped |
| Modes.ClientThenPublish | src/app_server.c:738-812 | What client followed by publish sends for a stream: the coded frames behind the key, message by message |
| Modes.ClientPublishIsComposition | src/app_server.c:1662-1739 | client-publish sends exactly the frames that client followed by publish sends, for any codec and key |
| Modes.UnpackedIs | src/app_server.c:1423-1496 | The subscribe stage undoes coding and key of one published message, in all four settings of sending and dropping the key |
| Modes.EndToEnd | src/app_server.c:738-812 | For any runs of client, publish and subscribe with connections and successful calls, the workers get exactly the stream `Received` |
| Modes.IdentityExactly | src/app_server.c:1132-1200 | A stream arrives unchanged, with order and boundaries, if and only if the key is dropped exactly when it is sent and every message passes the subscription |
| Modes.KeyDecides | src/app_server.c:1290-1309 | With a key that is sent and dropped, a stream arrives unchanged if the key as sent starts with the subscription as set, and not at all otherwise; an empty or equal subscription lets it pass |
| Progress.RunWithRoutes | src/app_server.c:738-812 | For every stream of messages and every choice of live or dump for each of them, a run without failures takes them all, and the counter sends each the way chosen |
| Progress.ConnectedRunExists | src/app_server.c:738-812 | For every mode and every stream of messages there is a run without failures, connected throughout, that takes all of them and comes to rest |
| Progress.StreamGoesThrough | src/app_server.c:738-812 | For every stream, codec, key and subscription there are runs of the three stages, one behind the other, after which the workers have exactly `Received` |
| Compositions.PublishSubscribeIsComposition | src/app_server.c:1887-1960 | For any finished runs in which the counter chooses the same ways, publish-subscribe puts on the socket and into the dump exactly what keyless publish and unkeyed subscribe do |
| Compositions.PublishSubscribeRefines | src/app_server.c:1887-1960 | Every finished run of publish-subscribe is matched by runs of publish and subscribe with the same frames sent and dumped and the same history of workers at every step |
| Compositions.StandAloneIsComposition | src/app_server.c:2653-2720 | For any finished runs in which the counter chooses the same ways, stand-alone sends what client, keyless publish and unkeyed subscribe send; it dumps the same if and only if coding does not change the dumped messages, so always without snappy and always while a worker is connected |
| Compositions.RunShadows | src/app_server.c:2653-2720 | In every run whatever, subscribe with the coded messages is, step by step, where stand-alone is: same position, queue, event words, connections and count, and the same ways chosen |
| Compositions.StandAloneRefines | src/app_server.c:2653-2720 | Every finished run of stand-alone, with whatever history of workers, is matched by runs of client, publish and subscribe, the last with the same history, that send the same and under that condition dump the same |
| ClientSubscribe.NoInterference | src/app_server.c:2350-2485 | In every run of the shared loop, each half goes through exactly the states of the simple machine that sees only its own events |
| ClientSubscribe.BothStep | src/app_server.c:2350-2485 | One event of the shared loop is at most two events for either half |
| ClientSubscribe.WorkersDecide | src/app_server.c:2421-2429 | A subscribe message is sent if a worker is counted and dumped if not |
| ClientSubscribe.TwoStreams | src/app_server.c:2350-2485 | With both queues empty and no failing call, the backend was handed exactly the client's messages, and every subscribe message lies whole where the count of workers sent it |
| Server.Loop.constructor | src/app_server.c:645-733 | The loop's variables start in the machine's initial state |
| Server.Loop.Disturb | src/app_server.c:202-229 | Another thread's event changes the shared variables as the machine's event does |
| Server.Loop.Mark | src/app_server.c:207-227 | A monitor sets one bit of its own event word and nothing else |
| Server.Loop.Forward | src/app_server.c:1169-1192 | The key goes out before the first frame only, and the first frame is held back exactly when it is to be dropped |
| Server.Loop.TakeFrame | src/app_server.c:757-804 | Receiving and passing on one frame is the machine's receive step |
| Server.Loop.ReceiveMessage | src/app_server.c:757-804 | The inner loop over the frames of a message, under any interleaving, ends where the machine ends; undisturbed it takes exactly the first message of the queue |
| Server.Loop.Section | src/app_server.c:474-482 | A critical section counts and clears the word, or leaves both if its call fails |
| Server.Loop.CountNew | src/app_server.c:473-483 | Test and critical section of a connect, with events in the gap between them, as in the machine |
| Server.Loop.CountGone | src/app_server.c:484-493 | The same for a disconnect |
| Server.Loop.Refresh | src/app_server.c:464-495 | The loop over all endpoints ends where the machine's refresh ends |
| Server.Loop.Round | src/app_server.c:738-812 | One iteration of the outer loop, stopped or complete, ends where the machine ends; undisturbed it takes one whole message if there is one |
| Server.Loop.Run | src/app_server.c:738-812 | Any number of rounds under any schedule reaches a state of the machine after exactly the same events; undisturbed, as many rounds as messages empty the queue |
| Server.Loop.LiveOrDump | src/app_server.c:750-758 | The send type in the loop's inner loop is the one that the counter chooses |
| Server.Loop.Accounted | src/app_server.c:738-812 | Conservation, of the loop's own variables |
| Server.Loop.OnlyWholeMessages | src/app_server.c:738-812 | Between two undisturbed rounds socket and dump of the loop hold only whole messages and the dump stream is closed |
| Recovery.DumpCanBeReplayed | src/app_dump.c:159-203 | The messages the loop took in undisturbed rounds are, as the counter chose, those on the socket and those in a fresh dump file, which as many zlmb-dump runs as it has messages empty |
| Handshake.RunKeeps | src/app_server.c:518-556 | The invariant that ties the positions of main, backend and monitors to the two mutexes holds in every interleaving, for any number of endpoints |
| Handshake.ProxyAfterSetup | src/app_server.c:949-968 | Main proxies only after the backend has set up everything: every monitor's PAIR socket and every probe is connected |
| Handshake.SkipOnlyInterrupted | src/app_server.c:960-963 | Main gives up only when the interrupt flag is set and the backend is done |
| Handshake.ProbeAfterPair | src/app_server.c:527-555 | In every reachable state, a connected probe means a connected PAIR socket of the same endpoint |
| Handshake.CalmRun | src/app_server.c:700-725 | Without a signal and without a failing setup call there is no interrupt, no teardown, and main never gives up |
| Handshake.ProxyIsReached | src/app_server.c:949-968 | For every number of endpoints there is such a run in which main starts to proxy |
| Mutex.MutualExclusion | src/app_server.c:464-495 | In every reachable state `_mutex` is held if and only if somebody is inside it (main and backend setting up, main between lock and unlock, the backend in a refresh, a monitor marking an event), and never by two |
| Mutex.SectionsExclude | src/app_server.c:202-229 | Spelt out: the sections of main, backend and all monitors never overlap, who is inside has the mutex, and once main was let go the mutex is free or held by one of them |
| Mutex.OneStartsAtATime | src/app_server.c:527-540 | While a monitor starts, the backend waits for it and no other monitor starts |
| Mutex.TeardownJoins | src/app_server.c:711-723 | When setting up failed, no monitor is left running before main is let go |
| Mutex.NothingEnteredAfterInterrupt | src/app_server.c:193-229 | After an interrupt no critical section is entered any more |
| Mutex.InterruptEndsMonitors | src/app_server.c:193-235 | After an interrupt every monitor ends by at most three steps of its own and waits for nobody |
| Options.OptionRecord.Set | src/option.c:136-245 | The method updates exactly the record field of its key, and returns the key as `KeyAfter` says |
| Options.TrueAndFalseWords | src/option.c:11-17 | Which spellings make a flag true, by example |
| Options.OptionRecord.LoadFile | src/option.c:285-324 | The event loop over key, depth and sequence computes `HandleAll` on any events |
| Merge.LoadIsMerge | src/option.c:285-324 | Loading a readable file is the declarative merge: earlier settings win, strings and mode take the first occurrence, dump types the first recognised one, lists the first non-empty one joined by commas, true flags stay true |
| Merge.SequencesAreReadable | README.md:164-170 | A file with list options as sequences and other options as scalars is readable whatever was set before |
| Merge.EntryInStep | src/option.c:144-151 | For an entry of documented shape the loader merges it and waits for the next key if and only if it is no plain string for a list that is set |
| Merge.FileInStep | src/option.c:285-324 | For a whole file of documented shape the loader is in step with the merge after every entry if and only if the file is readable |
| Merge.MergeAllMeans | src/option.c:154-235 | Merging entry by entry satisfies the declarative merge, option by option |
| Merge.PlainListShifts | src/option.c:144-151 | After a plain string for a list that is set, the loader takes the next key for a value and the next value for a key |
| Merge.EventsExtend | src/option.c:154-235 | Under any events whatever a set string, mode or dump type never changes, a true flag stays true, a list grows only at its end |
| CommandLine.Startup | src/app_server.c:3006-3082 | Arguments, file and defaults in this order, from an empty record; without a file, and with a readable one, the record is the one the command line asks for, the file merged into it, and the default dump files exactly where nobody set any |
| CommandLine.ArgumentsMean | src/app_server.c:3006-3071 | What a command line asks for, option by option: the mode of the first `--mode`, the first argument of every string option, all arguments of a list, the first recognised dump type of subscribe, and 1 for exactly the flags that are given |
| CommandLine.DefaultsMean | src/option.c:247-260 | The defaults change the two dump files only, and only where there is none |
| CommandLine.StartupMeans | src/app_server.c:3006-3082 | The three stages together, for any command line and any readable file |
| CommandLine.Kinds | src/app_server.c:2976-2998 | Which names are options, of which kind |
| CommandLine.ArgumentsExtend | src/app_server.c:3006-3071 | The same monotonicity for any command line |
| CommandLine.CommandLineWins | README.md:164-170 | What the command line set survives file and defaults |
| CommandLine.DumptypeArgumentIsLost | src/app_server.c:3017-3022 | No command line sets the client's dump type; the dump file is the first argument of either option, unless one was set before |
| CommandLine.ListIsJoin | src/option.c:24-36 | A list option is its values in order, joined by commas |
| CommandLine.ListSegments | src/option.c:24-36 | Splitting undoes joining: the segments of the stored list are those of every value, in order |
| CommandLine.FileListSegments | src/option.c:183-185 | The same for the list that the file gives |
| CommandLine.ClientEndpoints | src/app_server.c:361-460 | From the command line to the sockets: the client gets a socket for exactly each endpoint given, in order |
| Text.SplitJoin | src/option.c:24-36 | Splitting a joined string gives the segments of all parts, also if they contain the separator |
| Endpoints.CountEndpoints | src/app_server.c:373-381 | The comma-counting loop counts the segments |
| Endpoints.Strtok | src/app_server.c:402-416 | strtok, in place (section 7.24.5.8 of ISO/IEC 9899:2011): the first non-empty segment, with all others left to later calls |
| Endpoints.ClientPublishInit | src/app_server.c:361-460 | Succeeds if and only if no segment is empty; then socket i holds segment i without leading spaces |
| Endpoints.SubscribeConnect | src/app_server.c:1324-1351 | The subscribe modes connect every non-empty segment in order |
| Stack.Deque.constructor | src/stack.c:59-74 | A new deque is empty |
| Stack.Deque.Push | src/stack.c:164-193 | Appends to the sequence; refuses null |
| Stack.Deque.Unshift | src/stack.c:99-128 | Prepends to the sequence; refuses null |
| Stack.Deque.Shift | src/stack.c:130-162 | Takes the first element, null when empty |
| Stack.Deque.Pop | src/stack.c:195-227 | Takes the last element, null when empty |
| Stack.Deque.Walk | src/app_worker.c:127-143 | Following `next` from the first item visits the whole sequence in order |
| Stack.Deque.Drain | src/app_worker.c:214-221 | Shifting until the size is 0 takes exactly what the walk visits |
| Stack.ValidShape | src/stack.c:99-227 | Head and tail are null exactly when empty, `next` and `prev` mirror each other, `size` is the length |
| Worker.GenerateEnviron | src/app_worker.c:115-149 | The walk over the stack produces count, colon-joined lengths and total of its frames |
| Worker.SpawnRun | src/app_worker.c:151-237 | The command gets all frames in order on its input, the stack is emptied, and without frames ZLMB_LENGTH is not passed |
| Worker.ReceiveMessage | src/app_worker.c:307-339 | The stack holds the first frames of the message in order, as many as were read before something stopped the loop: all of them, the closing frame included, if nothing did |
| Worker.WorkerCommand | src/app_worker.c:289-350 | The worker gives its command the environment and input of exactly the frames received, of the whole message if nothing interrupted |
| Worker.ParsePrinted | src/exp_worker_exec.py:42 | A printed length is parsed back |
| Worker.ParseFrames | src/exp_worker_exec.py:36-45 | The parser's loop over two indices slices the input as `Recovered` says |
| Worker.CutLengths | src/exp_worker_exec.py:36-45 | The first k printed lengths cut the first k frames off the input |
| Worker.FramingRoundTrip | src/app_worker.c:125-145 | For every list of frames, empty ones included, the parser recovers the list, and the two counters are its length and its bytes |
| Worker.TwoFrames | src/app_worker.c:125-145 | The three variables and the input for one message of two frames, spelt out |
| Worker.DeliverToScript | src/app_worker.c:289-350 | Worker and script together: the script sees the first frames of the message, as many as were read before an interruption, and the whole message if there was none |
| Cli.SendArguments | src/app_client.c:209-238 | Every argument once, in order, in messages of exactly m frames (one frame if m is below 1) but for a last one that may be shorter and is not empty, and the last message closed |
| Cli.GroupedAt | src/app_client.c:210-227 | That grouping is unique: message i is the arguments from i*k on |
| Cli.SendLines | src/app_client.c:170-206 | Every line closes one message, without its newline, led by m-1 arguments, or all of them if there are fewer than m, or none if m is below 1 |

## Left out

- The internals of ZeroMQ, libyaml, snappy and pthreads; zmq_proxy is an order-preserving relay.
- Several publishers behind one client, and load balancing between workers.
- Draining the queue at shutdown (`_client_publish_gc`).
- Deadlock freedom of the start, in particular when setting up fails or a thread cannot be created; the handshake is about safety.
- Several processes writing one dump file, and unflushed output; each write is in the file when it returns.
- The plain-text dump formats, which nothing reads back.
- Failing allocations, partial writes to a pipe, failing getsockopt (which the program treats as the end of a message).
- Dump frames of 2^31 bytes or more, whose length does not fit the precision of the output conversion, and big-endian or 32-bit machines.
- Dump.DumpFile.Write: one dump object is used for writing or for reading, not for both while open, because no program does so.
- Replay.Run: without an endpoint nothing is sent but the file is consumed all the same; only the frames that would be sent are described. A dump file that appears between two failed opens is not modelled.
- Endpoints.ClientPublishInit: sockets and monitors can be created and memory is available.
- Server.Loop.Run: the outer loop has no bound in the program; the statement is for any number of rounds.
- Connections.CountIsRight: needs the hypothesis of one event per window, because without it the statement is false (`Windows.CollapsedWindow`, `Windows.TwoWorkers`); `Connections.RightExactly` and `Connections.ClosingExactly` need no hypothesis.
- Worker.ParsePrinted: lengths below 2^63, as printed with a signed conversion; signs and blanks that Python's `int` would also accept do not occur.
- Cli.SendLines: the input as fgets delivers it, so a line longer than the buffer counts as several.
- Merge.EntryInStep: list items that are option names, and mappings inside mappings, are outside the documented shapes.
- The PHP and Ruby versions of the example command, usage texts, logging and cleanup, the table of dump type names, the numeric mode codes.
