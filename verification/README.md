# Verified models of four Snap! daemons

Dafny models of the stateful parts of four programs, and proofs of what they keep over whole runs. `dafny verify
dfyconfig.toml` checks all of it; every statement below holds for all inputs in its stated domain.

Each component has a specification layer of functions on values (`Handler`, `MailFormat` and `MailQueue`, `CgiCache`
and `CgiReplay`, `Cursors`), an imperative layer of classes whose methods follow the source's loops and updates
(`Communicator`, `Sendmail`, `CgiProgram`, `ProxyConnection`) and are proved equal to those functions, and a layer of
theorems over runs of those same functions.

## snapcommunicator: flooding, store-and-forward, who connects to whom, quorum

`Handler.Process` is what one daemon does with one message; `Cluster` runs any number of daemons with their own clocks
over a network. Every packet ever sent stays available for delivery, so copies may be lost, delayed, reordered and
repeated, and connections may change at any time. The history (`ids`, `routes`, `given`) records which broadcast was
accepted where, by which route, and how often it was sent to each local connection of a node (a flood that never gets an
identifier, for want of neighbors, is handled once and leaves no history). `HandlerLaws` writes out what happens to each
message in terms of the message and the node alone.

The invariant joins three different protections against handling a broadcast twice. A node other than the originator
keeps the identifier in its table, and when the table drops it, the deadline test on that node's own clock already
refuses it. The originator never records its own identifier (lines 4079-4151 run only when the message already has
one): what protects it is that it is on the informed list of every copy. `AtMostOnce` covers all of them.

`Coverage` and `FloodBounds` fix the connections and let each packet be delivered or lost once. The condition of the
coverage theorems is about the broadcast in question and its receivers only: no copy is wasted, that is, lost, or
delivered after the deadline by its receiver's own clock, before that receiver has the broadcast. Other broadcasts may
be lost, other clocks may run ahead. Coverage has two limits that are part of the statements: a node that accepts a
flood after five hops does not forward it, so only clusters of at most six nodes are sure to be fully reached; and
`GivenWithinFiveLinks` proves that no flood goes further than five links.

Store-and-forward order is not unconditional. REGISTER accepts any connection, and a connection of another server that
registers under the name of a local service answers to messages without a server name, while messages for this server
go to the cache: the first kind overtakes the second. `Exposed` is that situation, and `OrderExactly` proves that it is
the only one. Connections come, go, and are given server names at any time in these runs.

Assumptions: one canonical IPv4 address per node, so that the two spellings of an address used by the source are one
string; server names unique in the cluster and neither empty nor `*`; addresses non-empty and without commas
(`SplitJoin` then justifies the list of informed neighbors as a sequence); clocks that start at or after the epoch,
each monotone, with any skew between nodes; no restart of a daemon during a run, since the sequence number lives in
memory; one clock reading for one handled message (the source reads the clock once or twice); and a daemon that does
not run in debug mode, so that a connection without server name is skipped, and commands are not verified before a
message is handed over. In a cluster, every connection that leads to another snapcommunicator, and every one over a
private or public network, leads to another node of the cluster and never to the node's own address.

## snapbounce sendmail: the fallback mail file

`MailFormat` has the printer and the parser of the mbox-like file, `Sendmail.Emails` the pointer parser over an array
with the closing move to the front, and `MailQueue` the queue. `RecordReadBack` gives the exact condition for a record
with any arguments and any text: `GoodBody` for the text, and `Recovered` for the arguments. The second is `GoodArgs`,
but for one accident: a single argument of white space is lost by the scanner, which makes the reader search the text
for a recipient, and that may be the same string. The queue theorems are about records that satisfy `GoodBody` and
`GoodArgs`. Outside that domain the model keeps what the code does: a header line followed by a line that starts with a
blank makes the search for the end of the header repeat for ever (818-830), and so does an argument scan that ends with
a backslash (860-871); both are outcomes of the model (`Loops`, `Spins`, `Hung`). `PrintedStops` shows that the second
cannot happen on the line that was written for any argument list, as long as that line is what is read.
The last email of the file gains one line end when it is handed over.

Assumptions: the date line has no line end; the answers of the mail transport are a parameter; files do not fail.

## snapcgi: the response cache

`CgiCache` is the header machine of `cache_data()`, byte by byte, with `check_headers()`; `CgiReplay` the reader of
`check_permanent_cache()`; `CgiHeader` says what a header means, when a response is kept, and what a later request sees. The clock and the meaning of a Cache-Control value are parameters (`Env`), bytes are ASCII
characters other than NUL, and files do not fail. Four observations from the proofs:

- A status such as `Status: abc def` makes `std::stoi()` throw. The state is already "no caching" then, but the buffer
  was not released; it is never looked at again. Chunk independence holds up to that dead buffer (`Same`), and exactly
  otherwise.
- A response that sends its own `X-Snap-CGI-Date` field overrides the date when the file is read back, because the
  fields are read after the date line into the same map. `ReadValue` says so: the date is only the default.
- The reader of the file was meant to trim continuation lines, but the test in its loop is always true; the line is
  appended untrimmed (`AddLine`). Files written by `check_headers()` have no continuation lines.
- A field without a name (a line that starts with a colon) is written and replayed, and dropped when read back.

## snapdbproxy: cursors, batches and the shared cluster description

`Cursors` has the vectors of one connection and their tail compaction, for any sequence of orders. An index is issued
again once its entry was dropped, so the theorem is about what the client may believe: `Client` and `ClientBatch` are
computed from orders and replies alone. `CommitRuns` also says what happens to a batch index that was already ended:
it is refused exactly when no later batch is open, and otherwise its batch runs once more.

`ClusterDescription` interleaves the connection threads step by step: commands change the schema while another thread,
holding the mutex, reads it table by table. `ChangeCoherent` states exactly when a command leaves the cached
description coherent.

## Model

| member | source | states |
|---|---|---|
| Cluster.AtMostOnce | snapcommunicator/src/snapcommunicator.cpp:4079-4151 | in every run with loss, duplication, reordering, clock skew, purging and changing connections, a broadcast is sent at most once over each connection of a node to its local services, the originator's included |
| Cluster.CopyInvariant | snapcommunicator/src/snapcommunicator.cpp:4333-4406 | every copy ever sent keeps the identifier's content and deadline, counts as many hops as the distinct nodes that forwarded it (at most 5 for floods), starts at the originator, and lists all of them and its addressee, which is none of them, as informed |
| Cluster.OneCopyPerLinkRun | snapcommunicator/src/snapcommunicator.cpp:4270-4331 | two copies of one broadcast between the same two nodes in the same direction are one and the same copy |
| Cluster.RunInv | snapcommunicator/src/snapcommunicator.cpp:2500-2533 | the inductive invariant holds in every reachable state: whoever accepted a broadcast can never accept it again, by table, by clock or as the originator |
| Coverage.CoveringRun | snapcommunicator/src/snapcommunicator.cpp:4153-4286 | as long as no copy of the broadcast is lost, or delivered after its deadline on its receiver's clock, before that receiver has it, every address on an informed list, and every neighbor of a node that accepted below the hop limit, has the broadcast or a copy on its way |
| Coverage.ClosedUnderLinks | snapcommunicator/src/snapcommunicator.cpp:4179-4286 | under the same condition, at quiescence the reached nodes are closed under links from every node that accepted below five hops, and at each the flood was sent once to every local service that understands it and to no other connection |
| Coverage.SmallClusterFullyReached | snapcommunicator/src/snapcommunicator.cpp:4180-4181 | under the same condition, in a connected cluster of at most six nodes every node is reached, and its local services that understand the flood are sent it exactly once |
| Coverage.ServedRun | snapcommunicator/src/snapcommunicator.cpp:4199-4209 | in every run with fixed connections, a node that accepted a flood sent it once to each local service that understands it, and to nothing else, for ever |
| Coverage.FiveHopsIsEveryone | snapcommunicator/src/snapcommunicator.cpp:4180-4181 | among at most six nodes, a copy accepted after five hops has visited everyone |
| FloodBounds.FloodTerminates | snapcommunicator/src/snapcommunicator.cpp:4287-4331 | however long the run, the copies of one broadcast, flooded or sent to a named service, are delivered or lost at most once per directed link |
| FloodBounds.CopiesBounded | snapcommunicator/src/snapcommunicator.cpp:4059-4062 | the copies ever created for one identifier are at most the directed links of the cluster |
| FloodBounds.CopiesAlwaysBounded | snapcommunicator/src/snapcommunicator.cpp:4098-4139 | with repeated deliveries and changing connections as well, they are at most the pairs of different nodes |
| FloodBounds.CopiesConserved | snapcommunicator/src/snapcommunicator.cpp:4392-4406 | copies sent are exactly those in flight plus those delivered plus those lost |
| FloodBounds.GivenWithinFiveLinks | snapcommunicator/src/snapcommunicator.cpp:4180-4181 | a node that accepted a flood is within five links of the originator, by links open to that kind of flood |
| HandlerFacts.SelectFresh | snapcommunicator/src/snapcommunicator.cpp:4275-4283 | no call chooses an informed address or one address twice, and the new informed list is the old one plus the targets |
| HandlerFacts.SelectComplete | snapcommunicator/src/snapcommunicator.cpp:4275-4331 | no candidate is left uninformed |
| HandlerFacts.FloodReachesLinks | snapcommunicator/src/snapcommunicator.cpp:4179-4286 | an accepted flood below the hop limit leaves no neighbor behind an open link uninformed |
| HandlerFacts.FloodTargetsLinked | snapcommunicator/src/snapcommunicator.cpp:4179-4286 | and it goes nowhere else |
| HandlerFacts.LocalTargetsDistinct | snapcommunicator/src/snapcommunicator.cpp:4199-4209 | the local connections given a flood are exactly the loopback services that understand the command, each once |
| HandlerFacts.ProcessLocals | snapcommunicator/src/snapcommunicator.cpp:4199-4209 | whatever the message, what is sent to local services is: an accepted flood, once to each loopback service that understands the command, and nothing else |
| HandlerLaws.FloodAccepted | snapcommunicator/src/snapcommunicator.cpp:3803-3832 | a flood is accepted unless it is late, repeated, or asks for one server and for all; a refused one changes nothing |
| HandlerLaws.FloodSentTo | snapcommunicator/src/snapcommunicator.cpp:4179-4286 | an accepted flood goes to exactly the unlisted neighbors behind a private link for "?", a private or public one for "*", none for ".", before the fifth hop |
| HandlerLaws.NamedOutcome | snapcommunicator/src/snapcommunicator.cpp:3835-4062 | exactly when a message for a named service is delivered, and to the first such connection, when it is cached, passed on or dropped |
| HandlerLaws.CacheIs | snapcommunicator/src/snapcommunicator.cpp:3974-4030 | a cached message is put at the end with its time to live, 60 seconds unless 10 to 86400 are asked for; nothing else changes the cache |
| HandlerLaws.NamedSentTo | snapcommunicator/src/snapcommunicator.cpp:3908-3940 | a message that is passed on goes to exactly the unlisted snapcommunicators that the server name allows |
| HandlerLaws.CopyIs | snapcommunicator/src/snapcommunicator.cpp:4333-4389 | every field of the copy that is sent on |
| HandlerLaws.TableIs | snapcommunicator/src/snapcommunicator.cpp:4113-4139 | the identifiers remembered after accepting a broadcast: the new one and those not past their deadline |
| HandlerLaws.OtherOutcomes | snapcommunicator/src/snapcommunicator.cpp:2500-2533 | exactly which messages are late or repeated, meant for the daemon itself, or contradictory; none of them changes anything |
| HandlerLaws.RegisterNames | snapcommunicator/src/snapcommunicator.cpp:3470-3477 | REGISTER renames its own service connection and no other |
| HandlerLaws.UnregisterTakes | snapcommunicator/src/snapcommunicator.cpp:3707-3714 | UNREGISTER takes its own connection away and leaves the others in order |
| Cluster.IdsNeverCollide | snapcommunicator/src/snapcommunicator.cpp:4356-4361 | no two broadcasts started in a run, on any nodes, get the same identifier |
| Cluster.AcceptedIsNew | snapcommunicator/src/snapcommunicator.cpp:4098-4139 | a node accepts an identifier only if it never accepted it before |
| Messages.MessageIdInjective | snapcommunicator/src/snapcommunicator.cpp:4356-4361 | identifiers made from different names or numbers differ, even for names with dashes and digits |
| Messages.SplitJoin | snapcommunicator/src/snapcommunicator.cpp:4153-4157 | the comma separated list of informed neighbors is read back as it was sent |
| Communicator.SnapCommunicator.ProcessMessage | snapcommunicator/src/snapcommunicator.cpp:3803-3850 | the handler updates its tables as `Handler.Process` says, the duplicate and deadline filter first |
| Communicator.SnapCommunicator.BroadcastMessage | snapcommunicator/src/snapcommunicator.cpp:4066-4406 | receives, purges, records, selects and sends as `Handler.Broadcast` says |
| Communicator.SnapCommunicator.PurgeReceived | snapcommunicator/src/snapcommunicator.cpp:4113-4132 | the erase-while-iterating loop keeps exactly the identifiers whose deadline has not passed |
| Communicator.SnapCommunicator.FloodTargets | snapcommunicator/src/snapcommunicator.cpp:4153-4286 | the loop over the connections chooses local services and remote targets as the two selection functions say |
| Communicator.SnapCommunicator.ListTargets | snapcommunicator/src/snapcommunicator.cpp:4287-4331 | the loop over a given list chooses as the selection function says |
| Communicator.SnapCommunicator.FindService | snapcommunicator/src/snapcommunicator.cpp:3835-3935 | finds the first connection that serves the name, or all snapcommunicators that may |
| Communicator.SnapCommunicator.RouteToService | snapcommunicator/src/snapcommunicator.cpp:3974-4062 | a message for a named service is delivered, cached, dropped or passed on as `Handler.Route` says |
| Communicator.SnapCommunicator.RegisterService | snapcommunicator/src/snapcommunicator.cpp:3447-3585 | REGISTER renames the connection, drops late messages and hands over the cached ones |
| Communicator.SnapCommunicator.RemoveTimedOut | snapcommunicator/src/snapcommunicator.cpp:3528-3540 | keeps exactly the messages whose timeout has not passed, in order |
| Communicator.SnapCommunicator.FlushService | snapcommunicator/src/snapcommunicator.cpp:3549-3582 | the index-and-erase loop is a stable partition: the service's messages are sent in order, the others stay in order |
| StoreForward.HandedInOrder | snapcommunicator/src/snapcommunicator.cpp:3835-3907 | over any run in which no message for the service arrives while the node is exposed, what the service is handed is a subsequence of what was routed to it, cached or not, nothing twice, and what still waits comes after |
| StoreForward.OrderExactly | snapcommunicator/src/snapcommunicator.cpp:3835-3907 | two messages for a service can arrive and be handed over the wrong way round if and only if the node is exposed: someone answers to the name while a message waits, or while the service is local and not running here |
| StoreForward.RegisterExposes | snapcommunicator/src/snapcommunicator.cpp:3470-3477 | a local service that nobody answers for becomes exposed by a REGISTER exactly when its connection belongs to another server |
| StoreForward.OrdinaryRunInOrder | snapcommunicator/src/snapcommunicator.cpp:3528-3582 | order holds in every run where the service registers over connections of this computer, or without a server name, and carries its name on no connection to a snapcommunicator |
| StoreForward.RestartMissesNothing | snapcommunicator/src/snapcommunicator.cpp:3675-3716 | after UNREGISTER a message for the service is cached, and its next REGISTER hands over exactly that message |
| StoreForward.RegisterPartition | snapcommunicator/src/snapcommunicator.cpp:3528-3582 | after REGISTER the cache holds exactly the live messages for others, with multiplicity; only live messages for this service are sent |
| StoreForward.OwnHandover | snapcommunicator/src/snapcommunicator.cpp:3549-3582 | nothing stays behind for a service that registered, and it gets its messages in order |
| StoreForward.HandoverComplete | snapcommunicator/src/snapcommunicator.cpp:3549-3582 | a service that registers is handed every message that waits for it and is on time, as often as it waits |
| StoreForward.LeftWaiting | snapcommunicator/src/snapcommunicator.cpp:3528-3582 | what waits for another service and is on time still waits after a REGISTER, as often as before |
| StoreForward.NothingLost | snapcommunicator/src/snapcommunicator.cpp:3528-4044 | over any run, each message that was delivered to or cached for a service was handed over, still waits, or was past its timeout at a REGISTER, count by count |
| StoreForward.OthersKeepOrder | snapcommunicator/src/snapcommunicator.cpp:3549-3582 | the messages of other services keep their order |
| StoreForward.ArrivalFacts | snapcommunicator/src/snapcommunicator.cpp:3974-4044 | a message is cached only for a known local service that is not running here, never both cached and delivered, and delivered only where someone answers to its service name |
| RemoteConnections.Reachable | snapcommunicator/src/snapcommunicator.cpp:1155-1300 | in every reachable state the maps lie in the known addresses, exclude our own, and smaller entries are below and gossip entries above it |
| RemoteConnections.FirstAttemptsApart | snapcommunicator/src/snapcommunicator.cpp:1225-1262 | the dates held for two new smaller peers are no earlier than their additions and at least one second apart |
| RemoteConnections.FirstAttemptsInLine | snapcommunicator/src/snapcommunicator.cpp:1225-1262 | and no later than that: the next peer is tried when it is added, or one second after the one before |
| RemoteConnections.FirstAttemptAtOnce | snapcommunicator/src/snapcommunicator.cpp:1225-1262 | the very first smaller peer is tried when it is added |
| RemoteConnections.AddedAgain | snapcommunicator/src/snapcommunicator.cpp:1190-1215 | adding a peer that waits for its attempt makes the attempt immediate, unless it is connected |
| RemoteConnections.FirstPort | snapcommunicator/src/snapcommunicator.cpp:1215-1222 | a peer is known by the port it was first added with |
| RemoteConnections.RefusedForGood | snapcommunicator/src/snapcommunicator.cpp:1252-1266 | a peer whose connection is refused at first is known and in neither map, for ever |
| RemoteConnections.OneDirection | snapcommunicator/src/snapcommunicator.cpp:1155-1300 | no two nodes hold each other as smaller, or both as gossip, whatever their histories; the two maps are disjoint |
| RemoteConnections.KnownIsServed | snapcommunicator/src/snapcommunicator.cpp:1155-1300 | a known peer that was neither forgotten nor answered is in exactly the map its address calls for |
| RemoteConnections.RemoteCommunicators.AddRemoteCommunicator | snapcommunicator/src/snapcommunicator.cpp:1155-1300 | the new maps and next start date, in each branch, failed additions included |
| RemoteConnections.RemoteCommunicators.StopGossip | snapcommunicator/src/snapcommunicator.cpp:1314-1321 | empties the gossip map and nothing else |
| RemoteConnections.AnsweredForGood | snapcommunicator/src/snapcommunicator.cpp:1390-1398 | once a known peer has answered, no later event sends it a GOSSIP again |
| RemoteConnections.ForgottenForGood | snapcommunicator/src/snapcommunicator.cpp:1401-1417 | once a known peer is forgotten, no later event, not even adding it again, makes us connect to it |
| RemoteConnections.StoppedForGood | snapcommunicator/src/snapcommunicator.cpp:1314-1321 | when gossiping stops, no known peer is sent a GOSSIP again, and the peers we connect to stay |
| ClusterStatus.NoSplitCluster | snapcommunicator/src/snapcommunicator.cpp:4529-4538 | two disjoint sides whose nodes count no more computers than their side has never both report CLUSTERUP, and only a side that is everything can report CLUSTERCOMPLETE |
| ClusterStatus.CompleteIsUp | snapcommunicator/src/snapcommunicator.cpp:4529-4572 | CLUSTERCOMPLETE implies CLUSTERUP for every size and count |
| ClusterStatus.CheckExactly | snapcommunicator/src/snapcommunicator.cpp:4522-4620 | up exactly when more than half of all computers are connected, complete when all are; what is remembered; and exactly what is announced, and to whom |
| ClusterStatus.AnnouncedIsCurrent | snapcommunicator/src/snapcommunicator.cpp:4522-4620 | although only changes are announced, the last announcements are always the current status and size |
| ClusterStatus.Monitor.CheckStatus | snapcommunicator/src/snapcommunicator.cpp:4522-4620 | new status and announcements of one check; a direct question changes nothing |
| MailQueue.MailIsFifo | snapbounce/src/sendmail.cpp:972-1010 | over any interleaving of enqueue and dequeue, with refusals at any email, the accepted emails are a prefix of the queued ones, each handed over as queued, and the file is exactly the encoding of the rest |
| MailQueue.QueueDrained | snapbounce/src/sendmail.cpp:972-1010 | one dequeue hands over exactly the emails before the first refusal and keeps exactly the encoding of the others; only the last of the file gains a line end |
| MailQueue.GivesUp | snapbounce/src/sendmail.cpp:740-774 | exactly when the reader reports the end of the file, an unknown format, or a last line without an email |
| MailQueue.OtherFileKept | snapbounce/src/sendmail.cpp:745-753 | a file that does not start with a record is kept as it is and nothing is sent |
| MailRoundTrip.RecordReadBack | snapbounce/src/sendmail.cpp:740-943 | a written record, whatever its arguments and text, is read back, the reader stopping exactly at its end, if and only if the text starts with neither newline nor blank and has no "from " line, and the arguments are good or are one white space string that is also the recipient found in the text |
| MailArgs.ArgsReadBackExactly | snapbounce/src/sendmail.cpp:834-884 | the scanning loops alone, given the whole printed text, return the list if and only if no argument has a backslash or newline, the first does not start with white space and the last is not empty |
| MailArgs.NoArgsScanned | snapbounce/src/sendmail.cpp:834-895 | they return no argument, so that the recipient is searched, exactly when there was none or one of white space only |
| MailArgs.PrintedStops | snapbounce/src/sendmail.cpp:834-884 | the argument scanner stops on the line written for any argument list |
| MailArgs.ScanHangs | snapbounce/src/sendmail.cpp:860-871 | the scanner never stops on plain text that ends with a backslash |
| MailFormat.ArgsRoundTrip | snapbounce/src/sendmail.cpp:834-884 | comma escaping and the backslash, comma and newline scanner are inverses on the good lists |
| MailInput.NormaliseFacts | snapbounce/src/sendmail.cpp:346-380 | the input starts with no newline, has a carriage return before every line feed and nowhere else, loses nothing but carriage returns and leading newlines, and is a fixed point |
| Sendmail.Emails.GetNextEmail | snapbounce/src/sendmail.cpp:740-943 | the pointer parser over the array reads what the parsing function says and moves its pointer there |
| Sendmail.Emails.FindSeparator | snapbounce/src/sendmail.cpp:760-802 | the search loop finds the line feed before the next "from " line, or the end |
| Sendmail.Emails.TakeHeader | snapbounce/src/sendmail.cpp:804-889 | finds, scans and removes the argument header, or reports that the loop never ends |
| Sendmail.Emails.ScanArguments | snapbounce/src/sendmail.cpp:834-884 | the scanning loops read the arguments, or stay for ever on a final backslash |
| MailRecipient.RecipientIs | snapbounce/src/sendmail.cpp:895-925 | a recipient is found exactly when a line starts with "To:", in any case, and it is what follows blanks on the first such line |
| Sendmail.Emails.FindRecipient | snapbounce/src/sendmail.cpp:895-925 | the loops over the lines find that recipient |
| Sendmail.Emails.MoveToFront | snapbounce/src/sendmail.cpp:692-733 | the overlapping move within the array brings the kept bytes to the front unchanged |
| Sendmail.Emails.Close | snapbounce/src/sendmail.cpp:692-733 | the file becomes exactly the part that was not sent, or is removed |
| Sendmail.Tool.ReadEmail | snapbounce/src/sendmail.cpp:346-380 | the character loop computes the normalised text and reports whether there is any |
| Sendmail.Tool.EnqueueEmail | snapbounce/src/sendmail.cpp:541-579 | appends exactly the encoding of date, arguments and text |
| Sendmail.Tool.DequeueEmails | snapbounce/src/sendmail.cpp:972-1010 | the loop hands over, keeps and returns what the draining function says |
| CgiCache.ChunkIndependence | snapcgi/src/snap.cpp:1577-1755 | any split of a response into calls gives the state, fields and file of one call with the whole response |
| CgiCache.TwoChunks | snapcgi/src/snap.cpp:1577-1755 | from any state, two calls do what one call with both chunks does |
| CgiCache.CachedFile | snapcgi/src/snap.cpp:1831-1870 | the file of a cached response is the date, the permitted fields, an empty line and the unchanged body; names are clean and values have no line feed |
| CgiHeader.KeptExactly | snapcgi/src/snap.cpp:1758-1808 | a response with a well written header is kept if and only if it has no status, or a bare one, or status 200, and its Cache-Control field passes the six tests |
| CgiHeader.HeaderRead | snapcgi/src/snap.cpp:1616-1748 | under each lower case name is found the value of the last field written with that name in any case, blanks before the colon dropped, leading blanks trimmed and folded lines joined by one space |
| CgiHeader.LowerIs | snapcgi/src/snap.cpp:1677-1682 | capitals become the letters they stand for, and nothing else changes |
| CgiHeader.UnblankIs | snapcgi/src/snap.cpp:1728-1736 | leading blanks of a value are dropped, and no more |
| CgiHeader.TrimIs | snapcgi/src/snap.cpp:1275-1276 | a value read back is trimmed of its white space at both ends, and of no more |
| CgiHeader.HeaderRefused | snapcgi/src/snap.cpp:1648-1720 | a line that is no field, for each of its three reasons, ends the header and nothing is kept |
| CgiHeader.ResponseReadBack | snapcgi/src/snap.cpp:1843-1859 | under each name a later request finds the trimmed meaning of the header, unless Cache-Control keeps the name out, in whatever case, and the date of the writing |
| CgiHeader.KeptBody | snapcgi/src/snap.cpp:1866-1870 | the body that is kept starts right after the empty line |
| CgiHeader.ContinuationRead | snapcgi/src/snap.cpp:1235-1256 | a line that starts with a blank is joined to the one before, with its blanks |
| CgiHeader.ColonlessRead | snapcgi/src/snap.cpp:1268-1279 | a line without a colon is name and value at once |
| CgiReplay.CacheRoundTrip | snapcgi/src/snap.cpp:1533-1573 | a response cached in any chunks is read back with its kept fields and the date, is replayed as the kept fields and the unchanged body, and the replay, fed in any chunks, gives exactly the kept fields |
| CgiReplay.FieldsReadBack | snapcgi/src/snap.cpp:1268-1279 | under each name the reader finds the trimmed value unless it was excluded or nameless, and the date unless the response sent its own |
| CgiReplay.LinesReadBack | snapcgi/src/snap.cpp:1202-1266 | the lines read are the date and the kept fields, and the replay offset is that of the second line |
| CgiReplay.ReplayFields | snapcgi/src/snap.cpp:1616-1748 | the header machine fed with a replay ends with exactly the kept fields, values without leading blanks |
| CgiReplay.ReplayedValue | snapcgi/src/snap.cpp:1616-1748 | under each name: absent if excluded, else the value from its first non-blank on |
| CgiReplay.DateIsNow | snapcgi/src/snap.cpp:1296-1296 | the date read back is, as a number, the time of the writing |
| CgiFields.PutSorted | snapcgi/src/snap.cpp:1633-1633 | setting a field keeps the fields in the order of their names |
| CgiFields.GetPut | snapcgi/src/snap.cpp:1633-1633 | after setting a field, it is found with its value, and the others are as before |
| CgiProgram.SnapCgi.CacheData | snapcgi/src/snap.cpp:1577-1755 | the byte loop, updating phase, name, data, fields and buffer, computes the state function |
| CgiProgram.SnapCgi.ReadCharacter | snapcgi/src/snap.cpp:1610-1753 | the switch with its two falls through is one step of the machine |
| CgiProgram.SnapCgi.CheckHeaders | snapcgi/src/snap.cpp:1758-1898 | starts the file exactly when status and Cache-Control allow it; a status that is not a number throws |
| CgiProgram.SnapCgi.WriteHeader | snapcgi/src/snap.cpp:1831-1859 | the loop over the fields writes the header of the file |
| CgiProgram.ReadHeader | snapcgi/src/snap.cpp:1202-1266 | the character loops read the lines and the offset, or report a file that ends too early |
| CgiProgram.AddLine | snapcgi/src/snap.cpp:1235-1256 | a continuation is appended with all its blanks |
| CgiProgram.ReadFields | snapcgi/src/snap.cpp:1268-1279 | the loop over the lines fills the fields, lines without a colon being name and value at once |
| Cursors.HandlesDenote | snapdbproxy/src/snapdbproxy_connection.cpp:625-655 | after any orders, an index stands for the query of the declaration that returned it last, its replies so far are that query's pages in order, then empty, and the entry holds the pages to come; the last entry is never closed |
| Cursors.RepliesAreCells | snapdbproxy/src/snapdbproxy_connection.cpp:638-649 | the k-th reply on an open index has the cells of the k-th page, row i and column k at i * columns + k, or nothing past the last page |
| Cursors.RefusedExactly | snapdbproxy/src/snapdbproxy_connection.cpp:735-842 | exactly which orders close the connection: those whose reply cannot be sent, a fetch on what is no cursor of the client, a close or commit beyond every open index |
| Cursors.NewHandleUnused | snapdbproxy/src/snapdbproxy_connection.cpp:625-655 | the index of a new cursor stands for nothing when it is issued |
| Cursors.ReleaseCloses | snapdbproxy/src/snapdbproxy_connection.cpp:800-814 | closing takes one index away and no other, although the vector may shrink by several |
| Cursors.EmptyAfterAll | snapdbproxy/src/snapdbproxy_connection.cpp:776-814 | a run of close orders leaves an open connection with an empty vector if and only if it names every open cursor and each order comes while a cursor of that index or a larger one is still open |
| Cursors.AnyOrderEmpties | snapdbproxy/src/snapdbproxy_connection.cpp:776-814 | so the open cursors, each closed once, can be closed in any order, and the vector is empty |
| Cursors.BatchesDenote | snapdbproxy/src/snapdbproxy_connection.cpp:657-676 | a batch index stands for the batch of the declaration that returned it last, until it is ended |
| Cursors.CommitRuns | snapdbproxy/src/snapdbproxy_connection.cpp:817-842 | a commit runs the batch its index stands for; for an ended index it is refused exactly when no later batch is open |
| ProxyConnection.SnapdbproxyConnection.RunOrder | snapdbproxy/src/snapdbproxy_connection.cpp:176-303 | one turn of the order loop for the cursor and batch orders: new vectors and reply, exceptions closing the connection |
| ProxyConnection.SnapdbproxyConnection.DeclareCursor | snapdbproxy/src/snapdbproxy_connection.cpp:625-655 | the new entry, its index and its first page, or a closed connection when the reply cannot be sent |
| ProxyConnection.SnapdbproxyConnection.FetchCursor | snapdbproxy/src/snapdbproxy_connection.cpp:735-773 | the next page, or an exception for an index out of range or closed |
| ProxyConnection.SnapdbproxyConnection.CloseCursor | snapdbproxy/src/snapdbproxy_connection.cpp:776-814 | resets the entry and drops the closed tail |
| ProxyConnection.SnapdbproxyConnection.ClearBatch | snapdbproxy/src/snapdbproxy_connection.cpp:871-884 | the same for batches, index -1 only dropping the tail |
| ProxyConnection.SnapdbproxyConnection.CommitBatch | snapdbproxy/src/snapdbproxy_connection.cpp:817-842 | runs and clears the batch, or throws for an index out of range |
| ProxyConnection.ReadRows | snapdbproxy/src/snapdbproxy_connection.cpp:754-763 | the two loops read column k of row i into position i * columns + k, and nothing else |
| ClusterDescription.CacheCoherent | snapdbproxy/src/snapdbproxy_connection.cpp:679-732 | in every interleaving with flagged, completing schema changes, the cached description is empty, or the schema, or about to be cleared; a description sent to a client is the schema unless some thread has yet to clear |
| ClusterDescription.ReadWhenNeeded | snapdbproxy/src/snapdbproxy_connection.cpp:695-711 | in every coherent state the schema is read exactly when no description is cached or a new one is asked for |
| ClusterDescription.ChangeCoherent | snapdbproxy/src/snapdbproxy_connection.cpp:237-246 | a command that changes the schema leaves the cache coherent if and only if it carried the flag and did not throw, or the cache happens to be right, or another thread is about to clear it |
| ClusterDescription.InvKept | snapdbproxy/src/snapdbproxy_connection.cpp:684-732 | each step keeps mutual exclusion, coherence and what a load in progress has read |

## Left out

- Sockets, SSL, `popen()`, `mmap()`, file locks, logging, privileges, Cassandra and Qt: only the bytes, maps and clocks they feed.
- At-most-once for messages to a named service: a node that delivers one locally returns without recording its identifier (3881-3907), so two routes may both deliver it. Only bounded forwarding is stated.
- The text form of the "cache" parameter: the policy is a value, with the time to live already split and converted.
- ClusterStatus.CheckExactly: who asked is told even if it does not understand the answer; the source checks that first.
- Transmission reports, the shutdown state of a daemon, and the replies sent for commands meant for the daemon itself.
- `count_live_connections()`: it counts connection objects, connected or not; the live count is a parameter.
- The connection-failure flag: line 5396 compares with the smallest value of the type, so its counter stays at one.
- Reconnection after a forgotten peer, and the gossip cancelled on CONNECT: the first leaves the address known (1401-1417), the second uses a key with a port.
- RemoteConnections.KnownIsServed: does not cover peers that were forgotten or answered, because the source does not serve them again.
- `From ` quoting in the mail file and folded argument headers: the source has none, which is what the exact conditions show.
- MailArgs.PrintedStops: about the written line itself; an argument with a line feed cuts that line when it is read.
- MailArgs.ArgsReadBackExactly: about the scanning loops alone; `MailRoundTrip.RecordReadBack` is about the whole reader.
- Freshness tests of `check_permanent_cache()` and its 304 replies, and the parsing of Cache-Control.
- Write failures while caching, and the temporary file's renaming.
- ProxyConnection.SnapdbproxyConnection.CommitBatch: the reply is sent; what follows a failed one is an access to a cleared vector.
- ProxyConnection.SnapdbproxyConnection.RunOrder: without the describe, rows and command orders; the first and the clear flag are in `ClusterDescription`.
- Cursors.Defined: leaves out a commit whose reply fails (the source then indexes a cleared vector) and a rollback with an index out of range, which the source does not check.
- The statements put in a batch, and the content of queries: pages are given with the declaration.
- ClusterDescription.CacheCoherent: the threads are a step relation on values and not objects, because the interleaving of their steps is the subject.
- The order flag on orders that do not run commands: a clear more never makes the cache wrong.
- snaplock, the database initializer, `QDomXPath`, `snap_expr` and the address class: not part of this model.
