# A verified model of the message broker

The repository is a small Kafka-like broker in C++: topics of three partitions, an append-only log file per
partition, a text protocol in length-prefixed frames, two servers for it (a thread per connection, and one epoll
loop), one leader and one follower, and consumer groups. This project models the broker in Dafny 4.11 and proves what
it keeps. `dafny verify dfyconfig.toml` checks all of it.

Methods and classes follow the C++ functions and objects step by step; each is proved equal to a function of its
inputs or of the old state, and the results over whole runs are proved about those functions. A run is a sequence of
steps chosen freely, or with a condition that is named.

- **Log** (`Bytes`, `Crc32`, `EthernetCrc`, `Record`, `TopicLog`): the checksum, bit by bit, on `bv32`, and that it is
  the one of IEEE Std 802.3, section 3.2.9, defined there by polynomial division; the record codec; the write loop with
  partial writes; the recovery scan with truncation.
- **Text** (`Text`, `Lines`, `Protocol`): `std::istringstream` as a class with its eof and fail bits; `parse_request`
  read from it; the texts that the leader and the clients print.
- **Groups** (`Rebalance`, `Groups`): the sorted round robin, and the table of groups over any history.
- **Broker** (`Store`, `Broker`): memory, files and replication progress; recovery with directories and files in any
  order; every branch of `handle_request`.
- **Replication** (`Replication`, `ReplicationSafety`, `CatchUp`): one leader request thread and one follower. Each
  request to the follower is applied and acknowledged, applied with the acknowledgement lost, not applied, or torn by a
  follower crash at any byte of its append; either broker may crash and restart.
- **Servers** (`Framing`, `Epoll`, `Connections`): the blocking loop, the incremental client buffers of the epoll
  server, and the memberships that any number of connections own.
- **Clients and threads** (`Consumer`, `Delivery`, `Once`, `Threads`, `Locks`): the consumer program and any number of
  them at one broker, which print everything they commit, and nothing twice if undisturbed; PRODUCE threads down to the
  single `write()` with crashes in between (`Threads.StagesAreProduce` adds their steps up to the PRODUCE of
  `Store`); the mutexes, without deadlock or race.

Characters stand for bytes: `Bytes.U8` takes a `char` modulo 256, and results about arbitrary file content require
`IsBytes`. `std::uint32_t`, `int` and `std::uint64_t` ranges are written out where the code meets them.

## Where the code and its documentation differ, or a natural claim fails

- PRODUCE ignores what `synchronize_follower` returns (src/broker.cpp:165-168) and a follower never checks the offset
  (src/broker.cpp:259-260), so "the follower's log is a prefix of the leader's" is false of the code.
  `ReplicationSafety.GapIsReachable` is a run of two PRODUCEs to a gap. `SafeToSendExactly` gives the condition, known
  before the record is sent, under which no fate of it can make one; `SynchronizedSafety` proves the prefix over all runs
  that respect the ignored result, and `UnguardedSampling` what holds of the code as it is.
- A payload of nothing but spaces gains one space on its way to the follower (`Protocol.SpacesGainOne`); every other
  payload arrives as it was (`ProduceReplicates`). The replication theorems are about payloads that start with another
  character.
- An append that throws without a crash leaves its message in memory (docs/storage_recovery_semantics.md:197,
  `Store.ThrownAppendApart`). Memory and file still agree exactly when the whole record had been written
  (`ProduceAgreesExactly`), and exactly then do the records acknowledged after it survive the next recovery
  (`Record.LaterSurvive`; `Store.DroppedBehindTorn` loses one, `AcknowledgedThenDropped` is such a run).
- The epoll server reads the end of a stream and closes with its queue unsent (src/epoll_server.cpp:298-307); the blocking
  server has sent every answer by then (src/tcp_server.cpp:125). `Epoll.LastAnswerDropped` shows it of any last request
  (`PingDropped` is one), and `SameBytes` says exactly when a peer is sent the same bytes by both.
- A PRODUCE that fits a frame can store a record whose REPLICATE text does not (`CatchUp.AcceptedTooLong`). It stays on the
  leader, and catch-up on the next PRODUCE (docs/architecture.md:283) fails from then on (`TooLongNeverReplicated`);
  `HealthyFollowerCatchesUp` gives exactly when catch-up succeeds.
- FETCH answers with the whole rest of the partition. When that does not fit a frame, the connection is closed, now and
  in every later state (`Delivery.TooLongForever`, with the run `TwoLongMessages`); when the only unread message is the
  text `ERROR`, the consumer takes it for a refusal (`ErrorIsRefusal`). `FetchOutcome` says exactly when messages arrive.
- Recovery fills gaps in the partition numbers with partitions whose id is -1 (src/broker.cpp:96-98). A message stored in
  one of them would be synchronized under that id; `Broker.PushNumbered` says when numbering is kept, and partitions 0 to
  2, the only ones that PRODUCE accepts, always keep it.

## Model

| member | source | states |
|---|---|---|
| Bytes.NetRoundTrip | src/record.hpp:44-54 | reading back the four big-endian bytes of a 32-bit word gives the word |
| Bytes.HostRoundTrip | src/record.hpp:73-75 | any four bytes are the big-endian form of the word read from them, so length fields lose nothing |
| Bytes.NetworkOrder | src/record.hpp:44-49 | the bytes of a word have the values of its four places, the most significant first |
| Crc32.ComputeCrc | src/record.hpp:16-37 | the two nested loops compute, for every buffer, the function `Crc`, which `EthernetCrc.ChecksumIsStandard` identifies |
| Crc32.UpdateInjectiveInState | src/record.hpp:20-34 | two different states stay different through any common data |
| Crc32.BitStepsLinear | src/record.hpp:23-33 | a word whose low bits are clear can be combined before or, shifted down, after as many steps |
| Crc32.BytesAreOneWord | src/record.hpp:20-34 | up to four bytes in a row act on the checksum as one 32-bit word followed by all their bit steps |
| Crc32.BurstDetected | src/record.hpp:16-37 | buffers of one length that differ, but only inside four consecutive bytes, have different checksums |
| EthernetCrc.RegisterIsRemainder | src/record.hpp:18-34 | before the last inversion the register holds, for every buffer, the remainder of the message bits (least significant bit of each byte first, 32 zeros appended, the first 32 bits inverted) on division by the polynomial of IEEE Std 802.3, section 3.2.9, which is given by its exponents |
| EthernetCrc.ChecksumIsStandard | src/record.hpp:16-37 | the checksum of every buffer is the complement of that remainder, as the standard defines it |
| EthernetCrc.DivisionLeavesRemainder | src/record.hpp:16-37 | the remainder of that definition is one: any message is a multiple of the polynomial plus it |
| EthernetCrc.CheckValue | src/record.hpp:16-37 | the checksum of the nine digits "123456789" is 0xCBF43926 |
| Record.SerializeRecord | src/record.hpp:42-57 | builds the length, the payload and the checksum over both, as one record |
| Record.RecordLayout | src/record.hpp:42-57 | where each field of a record stands and what it says: payload length, payload, and the checksum over length and payload |
| Record.DeserializeRecord | src/record.hpp:62-103 | accepts exactly when a complete record with a matching checksum starts at the offset, moves past exactly that record, and on refusal changes nothing; no read is out of bounds |
| Record.DecodeUndoesSerialize | src/record.hpp:42-103 | a serialized record decodes to its payload, whatever bytes follow it |
| Record.TornRecordRejected | src/record.hpp:68-87 | no strict prefix of a serialized record is accepted |
| Record.AcceptedIsSerialized | src/record.hpp:62-103 | whatever bytes are accepted are the serialization of the payload they decode to |
| Record.DamagedRecordRejected | src/record.hpp:82-97 | a record whose payload was altered inside a four-byte window, length and checksum intact, is refused |
| Record.ScanUndoesEncode | src/topic_log.hpp:148-153 | scanning encoded records followed by an unreadable tail returns exactly those records and stops where the tail starts |
| Record.TornTailDropped | src/topic_log.hpp:148-163 | any records followed by any strict prefix of one more: exactly the records are returned and kept |
| Record.ScanIsCanonical | src/topic_log.hpp:148-163 | on arbitrary bytes, the part of the file that is kept is the encoding of the records returned |
| Record.ScanIsIdempotent | src/topic_log.hpp:128-166 | a second recovery returns the same records and truncates nothing |
| Record.ScanIsLongest | src/topic_log.hpp:148-163 | every list of records whose encoding starts the file is a prefix of the list returned |
| Record.DamagedLogRecovers | src/topic_log.hpp:148-163 | in a log with one such damaged record, exactly the earlier records survive and the file ends where it started |
| Record.AfterTorn | src/topic_log.hpp:148-163 | behind a torn record later ones are read again exactly when some record can be decoded where it was torn |
| Record.LaterSurvive | src/broker.cpp:189-194 | after an append that stopped short without a crash, the next recovery finds every record appended later at its offset if and only if the append had written its whole record |
| TopicLog.TopicLog.Append | src/topic_log.hpp:58-124 | for every sequence of write results and every end of fsync and close, a crash after the last byte included, the file grows by a prefix of the record, the whole of it whenever append returns normally, and no other file changes |
| TopicLog.TopicLog.ReadAll | src/topic_log.hpp:128-166 | returns the longest decodable prefix as records and leaves exactly those bytes; a missing file stays missing |
| TopicLog.LandingExactly | src/topic_log.hpp:84-123 | writes that move bytes or are interrupted complete the record exactly when they move enough, and the end of fsync decides then; otherwise the first failing or empty write throws, or the crash stops it, after exactly the bytes moved |
| TopicLog.CrashThenAppend | src/topic_log.hpp:58-166 | crash at any byte of an append, recover, append again: the log reads as the old records and the new one |
| Text.InputStream.Extract | src/protocol.cpp:8-12 | extraction into a string takes the next whitespace-delimited token, or fails and leaves the target alone |
| Text.InputStream.GetLine | clients/consumer.cpp:25 | takes the text up to the next newline and consumes the newline; fails exactly on an exhausted stream |
| Text.InputStream.ExtractInt | clients/consumer.cpp:34 | takes sign and digits and fails exactly when there are none or they leave the range of an int |
| Text.InputStream.ExtractUnsigned | clients/consumer.cpp:34 | the same for std::uint64_t, a negative number wrapping around |
| Text.ReadsNumber | clients/consumer.cpp:34 | a number the broker printed is read back by the stream as that number, exactly when the type holds it, and only it is consumed |
| Text.ReadsNegative | clients/consumer.cpp:34 | a printed negative number is read as an int exactly when the type holds it, and as an unsigned number modulo 2^64, exactly when its digits stay below that |
| Text.ReadsDecimal | src/protocol.cpp:52-69 | a printed number is converted back to itself |
| Lines.SplitUndoesJoin | src/broker.cpp:295-303 | taking lines from non-empty, newline-free rows joined by newlines gives back the rows, none exactly when the text is empty |
| Lines.CountOfJoin | clients/consumer.cpp:51-59 | the client's count of such a response is its number of rows |
| Lines.CountOfAnyText | clients/consumer.cpp:51-59 | the count of any response is its number of lines, and one more behind a trailing newline |
| Protocol.ParseRequest | src/protocol.cpp:71-309 | the step-by-step parser equals the declarative reading of the request line, in every branch and for malformed text |
| Protocol.WordsDecide | src/protocol.cpp:227-275 | JOIN, LEAVE and GROUP_POLL are recognised exactly by their words and number of words, and their fields are those words |
| Protocol.OneWordDecides | src/protocol.cpp:71-98 | PING and METRICS are exactly the lines with that one word |
| Protocol.NumbersDecide | src/protocol.cpp:136-309 | FETCH, COMMIT and REPLICATION_PROGRESS likewise, with the numbers they must contain |
| Protocol.PayloadsDecide | src/protocol.cpp:100-205 | PRODUCE and REPLICATE are recognised exactly when a payload is left behind their leading words, and it is their payload |
| Protocol.PayloadIsRestOfLine | src/protocol.cpp:100-134 | a payload is the rest of the line without leading spaces, or all of it when there is nothing else |
| Protocol.SignedNumbers | src/protocol.cpp:14-69 | a sign is accepted and means what it says; a negative partition or offset is refused, as is a partition past 2 and a number past its type's greatest |
| Protocol.TrailingCharactersRefused | src/protocol.cpp:14-69 | a number with another character behind it is refused |
| Protocol.BlanksSeparate | src/protocol.cpp:8-12 | exactly the six whitespace characters separate words |
| Protocol.ReplicateReadsBack | src/protocol.cpp:167-205 | a REPLICATE text printed for a parsed payload reads back as that record |
| Protocol.ProduceReplicates | src/broker.cpp:203-206 | for every raw PRODUCE the leader's text reads back to the same topic, partition and offset, and to the same payload if and only if it has a non-space character; otherwise to one more space |
| Protocol.ProduceReadsBack | src/protocol.cpp:100-134 | the text a producer prints for a topic, partition and payload reads back as that PRODUCE |
| Protocol.SpacesGainOne | src/broker.cpp:203-206 | a concrete PRODUCE of two spaces is stored with two by the leader and arrives with three at the follower |
| Protocol.ProgressReadsBack | src/broker.cpp:446-448 | the leader's progress query reads back as that query |
| Rebalance.Sort | src/broker.cpp:692 | consumer ids come out in strictly increasing order and are the same ids |
| Rebalance.LessIsLexicographic | src/broker.cpp:692 | ids are ordered by their first difference, a proper prefix first |
| Rebalance.RebalanceGroup | src/broker.cpp:676-701 | whatever order the hash maps are walked in, every member ends with the share its rank among the subscribers of its topic gives it |
| Rebalance.ExactCover | src/broker.cpp:695-699 | each of the three partitions of a subscribed topic belongs to exactly one member, a subscriber |
| Rebalance.RoundRobin | src/broker.cpp:695-699 | of the ids subscribed to a topic, listed in increasing order, the one at place p modulo their number owns partition p |
| Rebalance.AssignedIsOwnTopic | src/broker.cpp:689-699 | a member holds only partitions 0 to 2 of its own topic, each once, in increasing order |
| Rebalance.Balanced | src/broker.cpp:695-699 | two subscribers of a topic differ by at most one partition |
| Groups.RunKeeps | src/broker.cpp:507-581 | after any history of joins, leaves, disconnects and commits no stored group is empty and every assignment is what the current subscriptions give |
| Groups.JoinAnswers | src/broker.cpp:507-532 | JOIN is answered OK if and only if the consumer was no member and is one of that topic afterwards; otherwise ERROR, and nothing changes |
| Groups.LeaveAnswers | src/broker.cpp:534-560 | LEAVE is answered OK if and only if the consumer was a member and is none afterwards; otherwise ERROR, and nothing changes |
| Groups.CommitAnswers | src/broker.cpp:621-653 | COMMIT is answered OK if and only if the consumer is a member and the partition exists, and then the offset is stored; otherwise ERROR, and nothing changes |
| Groups.MembersAreSubscribed | src/broker.cpp:507-581 | after any history the members and their topics are those whose last accepted JOIN no LEAVE or disconnect followed |
| Groups.GroupsAreSubscribed | src/broker.cpp:552-555 | after any history a group exists exactly while some consumer is subscribed in it |
| Groups.AnswersAreTrue | src/broker.cpp:507-653 | after any history the answers to JOIN, LEAVE, COMMIT and GROUP_POLL say whether the consumer is subscribed |
| Groups.CoverAfterHistory | src/broker.cpp:507-701 | exact cover and balance after any history |
| Groups.AssignmentsForgetHistory | src/broker.cpp:676-701 | two histories that end with the same subscriptions end with the same assignments |
| Groups.TableHoldsLastCommit | src/broker.cpp:534-653 | the stored offset of a group and partition is that of the last COMMIT answered OK since the group came into being, whoever made it, and absent if there is none |
| Groups.PollPrintsLastCommit | src/broker.cpp:599-618 | the offset GROUP_POLL gives for each assigned partition is that last commit, or 0 |
| Store.TornAppendLogs | src/broker.cpp:189-194 | a write stopped at any byte leaves every log as it was, or with the whole new record, and recoverable |
| Store.AppendedAgrees | src/broker.cpp:189-194 | after a completed append the file is again the encoding of the messages in memory |
| Store.ProduceAgreesExactly | src/broker.cpp:189-194 | memory and disk agree after a PRODUCE if and only if the whole record was written, whether append returned, threw or was cut off |
| Store.ProduceAnswers | src/broker.cpp:163-223 | for every store and append result the answer of a PRODUCE without a follower, and exactly what memory and file hold behind it; in memory the message stays even when append throws |
| Store.ReplicateAnswers | src/broker.cpp:225-264 | for every store and append result REPLICATE is answered OK if and only if afterwards the partition has its old messages and the payload and progress is the offset sent; after any other end memory and progress are as before and the file has the part written |
| Store.ThrownAppendApart | src/topic_log.hpp:84-99 | a concrete append that throws after one byte leaves a broker whose memory and disk differ |
| Store.DroppedBehindTorn | src/broker.cpp:189-221 | from any agreeing store: a PRODUCE throws inside a record, past its length field, a shorter one is answered OK behind it, and a restart finds neither |
| Store.RecoveryAgrees | src/broker.cpp:34-127 | recovery makes memory and disk agree, and loses nothing that a log held |
| Store.RecoveredPartitions | src/broker.cpp:84-98 | a recovered topic has at least three partitions and one for every file number, with -1 as the id of the others |
| Store.RecoveredProgressIs | src/broker.cpp:108-116 | only a follower recovers progress, and for exactly the partitions with messages, the last offset |
| Broker.FollowerLink.Request | src/broker.cpp:200-217 | a request to the follower has one of the modelled network outcomes |
| Broker.Broker.Configure | src/broker.cpp:22-26 | sets role and follower and leaves the data alone |
| Broker.Broker.PromoteToLeader | src/broker.cpp:28-32 | the broker leads without a follower, its data unchanged |
| Broker.PushNumbered | src/broker.cpp:472-486 | a stored message keeps partition ids equal to indexes, which the listing of partitions relies on, exactly when its partition has its index as id |
| Broker.Broker.RecoverFromDisk | src/broker.cpp:34-127 | whatever order the topic directories come in, the rebuilt topics, files and progress are one function of the files, and every partition with messages has its index as id |
| Broker.Broker.RecoverTopic | src/broker.cpp:47-124 | the same for the partition files of a topic |
| Broker.Broker.RecoverPartition | src/broker.cpp:84-118 | one file fills its partition, growing the partition list where needed, and on a follower sets progress to its last offset, or nothing for an empty log |
| Broker.Broker.HandleProduce | src/broker.cpp:163-223 | the loops and calls of PRODUCE have the effect that Replication.Produce, or Store.ProduceLocally without a follower, describes, for every append result and network outcome; the partitions synchronized are exactly the non-empty ones, and partition numbering is kept |
| Broker.Broker.HandleReplicate | src/broker.cpp:225-264 | a leader refuses; a follower answers OK exactly when the append returned, and then file, memory and progress have the record; an append that throws is answered ERROR and changes neither memory nor progress; numbering is kept for the default partitions |
| Broker.Broker.HandleFetch | src/broker.cpp:266-306 | the loop answers with the messages from the offset on joined by newlines, nothing past the end, ERROR for an unknown partition |
| Broker.Broker.GetMissingRecords | src/broker.cpp:358-389 | exactly the messages after the follower's progress |
| Broker.Broker.CatchUpFollower | src/broker.cpp:391-438 | refuses when not leading, or when something is missing and there is no follower; otherwise missing records go out in offset order up to the first one not acknowledged |
| Broker.Broker.SynchronizePartition | src/broker.cpp:440-505 | the query decides what is sent; an answer that is not a number fails the synchronization |
| Broker.Broker.SynchronizeFollower | src/broker.cpp:465-505 | refuses when not leading or without a follower; otherwise partitions are caught up in the order found, up to the first failure |
| Broker.Broker.ListPartitions | src/broker.cpp:472-486 | exactly the non-empty partitions are collected, in whatever order the map yields |
| Broker.Broker.JoinGroup | src/broker.cpp:507-532 | answers OK, joins and rebalances for a consumer not there; answers ERROR and changes nothing for one already there |
| Broker.Broker.LeaveGroup | src/broker.cpp:534-560 | answers OK, removes the member, rebalances, and drops a group left empty; answers ERROR and changes nothing for a stranger |
| Broker.Broker.RemoveConsumerFromGroup | src/broker.cpp:562-581 | the same for a disconnect, which never fails |
| Broker.Broker.GroupPoll | src/broker.cpp:583-619 | one row for each assigned partition with its committed offset or 0, ERROR for a stranger |
| Broker.Broker.CommitOffset | src/broker.cpp:621-653 | answers OK and stores the offset under the group for a member and an existing partition; otherwise answers ERROR and changes nothing |
| Broker.Broker.HandleRequest | src/broker.cpp:129-337 | every request type changes and answers what its branch says and leaves the rest of the broker, and the follower unless it replicates, unchanged |
| Broker.FollowerRequest | src/broker.cpp:143-264 | the class Broker as a follower answers REPLICATE and progress queries, and dies inside an append, as the follower of the replication theorems |
| Broker.LeaderRequest | src/broker.cpp:163-223 | one PRODUCE of the class Broker as a leader is a legal step of the cluster of the replication theorems, with exactly its next state |
| Broker.Restart | src/broker.cpp:22-127 | a new broker that recovers from the files is the restarted broker of the theorems, its partitions numbered |
| ReplicationSafety.SynchronizedSafety | src/broker.cpp:163-264 | in every run in which a PRODUCE whose synchronization failed never has its own REPLICATE applied, all states keep the prefix and progress, and every OK means that the two logs of the partition are equal and end with the new record |
| ReplicationSafety.SafeToSendExactly | src/broker.cpp:163-218 | in such a run, every fate of a record's REPLICATE keeps the prefix if and only if the follower, as synchronization left it, has every earlier record of the partition, or the text does not fit a frame |
| ReplicationSafety.PrefixSafety | src/broker.cpp:163-264 | in every run in which a record is applied only onto a log that has all earlier ones of its partition, lost requests, lost acknowledgements and crashes included, each follower log is a prefix of the leader's, in memory as on disk, and progress is its length less one, absent when it is empty |
| ReplicationSafety.OkMeansEqual | src/broker.cpp:163-223 | in such a run PRODUCE answers OK only when both logs of the partition are equal and end with the new record |
| ReplicationSafety.UnguardedSampling | src/broker.cpp:165-218 | with failures ignored as in the code and no follower restart, the follower holds the leader's records at strictly increasing offsets, in memory as on disk, and progress is the last of them: gaps, but no repeats and no reordering |
| ReplicationSafety.IgnoredFailureLeavesGap | src/broker.cpp:165-168 | whenever the follower is behind on a partition, one lost progress query and a delivered REPLICATE break the prefix |
| ReplicationSafety.GapIsReachable | src/broker.cpp:163-218 | a concrete run from empty brokers, of two PRODUCEs, that does so |
| CatchUp.HealthyFollowerCatchesUp | src/broker.cpp:391-505 | after any synchronized run, a PRODUCE all of whose requests to the follower are applied and acknowledged synchronizes if and only if the progress queries and all records the follower lacks fit a frame, and answers OK if and only if its own record does; if both hold, follower and leader end with the same messages everywhere |
| CatchUp.TooLongNeverReplicated | src/broker.cpp:203-206 | in no synchronized run does a record whose REPLICATE text exceeds a frame, or anything behind it, reach the follower, and every synchronization after it fails |
| CatchUp.AcceptedTooLong | src/broker.cpp:163-218 | a concrete run: a PRODUCE that fits a frame stores such a record |
| Framing.ReadExactly | src/framing.hpp:20-41 | however recv splits and interrupts, exactly the next bytes are read, or it reports that the stream is too short; it throws only when a call fails, and then has read a prefix |
| Framing.WriteExactly | src/framing.hpp:46-66 | however send splits and interrupts, the whole buffer goes out once and in order; it throws only when a call fails or sends nothing, and then a prefix has gone out |
| Framing.WriteFrame | src/framing.hpp:70-86 | sends exactly the frame of a payload, nothing when it is too large, and a prefix of it when a call fails |
| Framing.ReadFrame | src/framing.hpp:91-120 | gives the first frame of the stream and the bytes after it, or says why there is none; throws out of recv only when a call fails |
| Framing.UpdateJoined | src/tcp_server.cpp:108-124 | an accepted JOIN is added, an accepted LEAVE strikes off its first entry, nothing else changes the list |
| Framing.ListCounts | src/tcp_server.cpp:108-124 | for every history of requests and answers a membership is on the list as often as accepted JOINs put it there, each accepted LEAVE taking one off if there is one |
| Framing.OwnedInTheEnd | src/tcp_server.cpp:89-138 | the memberships removed at the end of a stream are, each as often, those counted by its own requests and answers |
| Framing.HandleClient | src/tcp_server.cpp:89-141 | serves the byte stream frame by frame, sends exactly the answers, and on the end removes exactly the memberships still owned; a failing call acts as the end of the stream after the frames served, the last answer possibly cut |
| Framing.FrameIsNext | src/framing.hpp:70-120 | a frame starts with its length, most significant byte first; its payload of up to 65536 bytes is the next one read, a longer one is refused |
| Framing.ServesEveryFrame | src/tcp_server.cpp:89-127 | any list of frames in a stream is requested in order and answered each by its own frame |
| Framing.ServesUpToFailure | src/tcp_server.cpp:128-138 | behind a request whose handling throws, or whose answer fits no frame, nothing is requested or answered |
| Epoll.ClientState.QueueResponse | src/epoll_server.cpp:417-445 | appends one frame to what is queued and arms EPOLLOUT |
| Epoll.ClientState.WriteToClient | src/epoll_server.cpp:447-507 | for every sequence of send results exactly what they take of the pending bytes is sent, in order, the rest stays pending, EPOLLOUT stays armed exactly while something does, and the client is closed exactly by a failing or empty send |
| Epoll.FlowExactly | src/epoll_server.cpp:447-507 | sends that move bytes or are interrupted send what they move, at most what is pending; the client survives exactly when all of it goes out or the next send would block or never comes |
| Epoll.ClientState.ExtractCompleteFrames | src/epoll_server.cpp:328-415 | hands over every complete frame, stops at the same failures, and leaves less than one maximal frame in the buffer |
| Epoll.ClientState.ReadFromClient | src/epoll_server.cpp:269-326 | one readiness event amounts to receiving its results up to the first that would block, and sends nothing |
| Epoll.ReadFailures | src/epoll_server.cpp:269-326 | an interrupted or blocking recv changes nothing, and a failing one closes the client with what it received before answered |
| Epoll.ClientState.Close | src/epoll_server.cpp:509-530 | removes exactly the memberships on the client's list |
| Epoll.ExtractInPieces | src/epoll_server.cpp:328-415 | extracting from a buffer and again after more bytes arrive equals extracting once from all of them |
| Epoll.ReadBufferBounded | src/epoll_server.cpp:328-415 | what stays buffered is less than a header and a maximal payload |
| Epoll.ServersAgree | src/epoll_server.cpp:269-445 | for every byte stream and every division into recv results the epoll client makes the same requests, owns the same memberships, queues the same bytes and stops at the same point as the blocking loop |
| Epoll.RunConnection | src/epoll_server.cpp:150-205 | the event loop over one client, for every sequence of readable and writable events: its requests, memberships, queue, and the bytes it has sent, are those of the function of the events |
| Epoll.LivedIsReceive | src/epoll_server.cpp:187-203 | while sends succeed, writing does not disturb what is read and answered, and what was sent is a prefix of what was queued |
| Epoll.SameBytes | src/epoll_server.cpp:298-307 | when the peer ends its stream, both servers have sent it the same bytes if and only if the epoll server has nothing unsent when it reads that end; otherwise it sent a strict prefix |
| Epoll.LastAnswerDropped | src/epoll_server.cpp:298-307 | any request that comes in one event with the end of the stream is answered by the blocking server and never by the epoll server |
| Connections.NextKeeps | src/tcp_server.cpp:105-138 | no single step of any connection leaves a group member without an open connection that will remove it |
| Connections.NeverOrphans | src/tcp_server.cpp:108-138 | in every reachable state of any number of connections each group member is on the list of an open one, even if LEAVE comes over another connection than JOIN |
| Connections.AllClosedAllGone | src/epoll_server.cpp:509-530 | when no connection is open, no group has a member |
| Connections.ListsAreExact | src/tcp_server.cpp:108-138 | when every LEAVE comes over the connection that joined: in every reachable state each member is due at exactly one open connection, once, and whatever is due is a member |
| Connections.CloseSparesOthers | src/tcp_server.cpp:135-138 | in such a run the cleanup of one connection removes no membership of another |
| Consumer.ParseAssignments | clients/consumer.cpp:19-49 | the getline and extraction loop returns the rows of a response, or throws at the first line that is not one |
| Consumer.AssignmentsReadBack | clients/consumer.cpp:19-49 | rows printed by GROUP_POLL are parsed back exactly |
| Consumer.ConsumeRows | clients/consumer.cpp:122-159 | one pass over the assignments sends and prints what the process automaton does, in that order, and ends as it does |
| Consumer.Consume | clients/consumer.cpp:61-179 | for every sequence of replies, the requests sent and the texts shown, as one sequence, and the exit code are those of the process automaton |
| Consumer.CommitFollowsShown | clients/consumer.cpp:122-150 | in every conversation each COMMIT follows the FETCH of its row and the printing of that response, and its offset is the offset fetched plus the number of messages printed, modulo 2^64 |
| Consumer.GrantedPass | clients/consumer.cpp:122-163 | what a pass without a refusal sends and prints, request by request, and when polling goes on after it |
| Consumer.Grants | clients/consumer.cpp:97-120 | an accepted JOIN leads to polling; a poll response to the pass over its rows, or to exit code 1 when it is malformed |
| Consumer.Refusals | clients/consumer.cpp:99-179 | a refused JOIN ends the program; a refused GROUP_POLL, FETCH or COMMIT is printed and LEAVE is sent |
| Delivery.JoinReadsBack | clients/consumer.cpp:97 | the consumer's JOIN text is understood as its group, id and topic |
| Delivery.FetchReadsBack | clients/consumer.cpp:124-126 | its FETCH text is understood as its row, or refused for a partition or offset out of range |
| Delivery.CommitReadsBack | clients/consumer.cpp:145-148 | its COMMIT text is understood as its row for its group, or refused likewise |
| Delivery.AtLeastOnce | clients/consumer.cpp:105-165 | in every interleaving of any number of consumers with other clients, disconnects, deaths and restarts, every message below a committed offset has been printed by some consumer of the group |
| Delivery.FetchSplits | src/broker.cpp:286-304 | in every run a FETCH response splits into exactly the messages from its offset on and counts them, 0 if and only if the offset is at or past the end |
| Delivery.PollReadsBack | src/broker.cpp:599-618 | in every run a member reads from its poll response exactly its partitions with their committed offsets |
| Delivery.PolledLastCommits | src/broker.cpp:599-653 | after any history a member reads from its poll response the last commit of each assigned partition, or 0 |
| Delivery.FetchOutcome | clients/consumer.cpp:122-142 | what a consumer does with a FETCH response, exactly: it gets the unread messages unless there are none, they exceed a frame, or they are the single text ERROR |
| Delivery.FetchRefused | clients/consumer.cpp:128-134 | FETCH of a partition that does not exist makes the consumer leave |
| Delivery.ErrorIsRefusal | clients/consumer.cpp:128-134 | a concrete run: a stored message ERROR makes the consumer that fetches it leave |
| Delivery.TooLongForever | src/broker.cpp:295-303 | once the unread rest of a partition exceeds a frame, then in every later state of every continuation fetching from that offset ends the consumer |
| Delivery.TwoLongMessages | src/broker.cpp:295-303 | a concrete run: two messages of 40000 characters, each of which fits a frame, do so |
| Delivery.HandledRequest | src/broker.cpp:129-337 | the class Broker, standing alone, answers as the broker of the delivery theorems |
| Once.CommitAdvances | clients/consumer.cpp:142-158 | in every run a COMMIT answered OK leaves the committed offset of the partition at the offset of the response this consumer printed last plus the messages in it |
| Once.NoMessageTwice | clients/consumer.cpp:105-165 | while one consumer alone acts for a group and its connection stands, any two responses it prints of a partition are disjoint and in order, so no message is printed twice |
| Threads.CrashKeeps | src/broker.cpp:189-194 | a crash between any two steps leaves recoverable files that hold every settled message |
| Threads.MemoryMatchesDisk | src/broker.cpp:170-194 | in every interleaving and after any crashes, whenever the mutex is free each file is the encoding of the messages in memory |
| Threads.AcknowledgedForever | src/broker.cpp:163-223 | a PRODUCE once answered OK keeps its payload at the same offset in every later state, in memory while the broker runs and on disk when it does not |
| Threads.ThreadOrder | src/broker.cpp:163-223 | two acknowledged PRODUCEs of a thread to a partition are distinct records in that thread's order |
| Threads.ExactlyTheAcknowledged | src/broker.cpp:163-223 | without a crash a partition holds the acknowledged payloads, each once, in order of acknowledgement, and nothing else |
| Locks.CallIsOrderly | src/broker.cpp:129-337 | every path through handle_request and the cleanup locks groups before topics before latency samples, and releases all it took |
| Locks.NoDeadlock | src/broker.cpp:621-648 | with any number of threads no mutex has two holders, no thread requests one it holds, and while a thread is unfinished some thread can step |
| Locks.EveryScheduleFinishes | src/broker.cpp:165-223 | for every choice of possible steps from such a state: each uses up one operation, the choice can go on until all threads have finished, and then not further |
| Locks.WhatIsUsed | src/broker.cpp:129-337 | which calls touch topics, groups and latency samples |
| Locks.NoRace | src/broker.cpp:129-337 | in every reachable state of any number of threads at most one is about to touch what a mutex guards, and it holds that mutex |

## Left out

- Sockets, accept, epoll registration and its failures, EPOLLERR and EPOLLHUP, file descriptor reuse: outcomes of recv, send and write are inputs.
- The `clients_` map of the epoll server: its client objects are modelled one at a time, and together only for their memberships (`Connections`).
- Files beyond a map from topic and partition to bytes: directories, permissions, names that are not plain path components.
- TopicLog.TopicLog.Append: does not model a failing open or mkdir, which would throw before the file exists.
- Broker.FollowerLink.Request: does not model a request that reaches the follower after the leader gave up on it.
- Epoll.ClientState.QueueResponse: does not model a failing epoll_ctl, nor does WriteToClient; both would close the client.
- I/O exceptions without a crash in the replication and durability theorems; `Store.ProduceAgreesExactly` and `Record.LaterSurvive` say what one does.
- Broker.Broker.HandleRequest: the answer to METRICS is an input, because its percentiles are floating point over wall-clock times; counters are left out.
- The mutexes are in `Threads`, `Connections` and `Locks`, not in the class `Broker`, whose methods each run alone.
- `Partition`, `Topic`, `GroupMember` and `ConsumerGroup` are values inside the maps of the class `Broker`: updates replace the value, and no references into the maps are modelled.
- Locks.NoRace: does not model `role_` and `follower_port_`, which threads read without a mutex; they are set before a server starts.
- ReplicationSafety.SynchronizedSafety: one request thread at the leader, as under the epoll server; overlapping PRODUCE threads can resend a record, and the code promises nothing there. The follower gets only what its leader sends.
- Delivery.AtLeastOnce: COMMIT is sent by consumers only, because a member may commit any offset (src/broker.cpp:651); for the same reason commits are not claimed to be monotone. Group, consumer and topic names are single words.
- Delivery.FetchOutcome: says when messages arrive, not that a consumer is ever scheduled.
- Crc32.BurstDetected: nothing is claimed for a damaged length field, or for damage that spans payload and stored checksum; this format does not detect all of those.
- Threads.ExactlyTheAcknowledged: after a crash a partition may also hold records whose answer was never sent, so the count is claimed for runs without one; order and durability hold in all runs.
- `std::stoi` and its relatives skip leading whitespace; tokens have none, so `Text.WholeInteger` does not.
- `main.cpp`, `server_mode`, `producer.cpp`, the benchmarks, plotting and the Python tests.
