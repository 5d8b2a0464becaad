# MERVBot: a verified model

A Dafny 4.11 model of the parts of the MERVBot client for SubSpace that carry real state and arithmetic, with proofs of
what they promise. `dafny verify dfyconfig.toml` checks everything.

Code that changes objects step by step is modelled by classes whose methods change the same fields with the same
branches; each method is proved against a function of the old state, and the theorems about all inputs, all runs or all
reachable states are lemmas about those functions.

**The core transport.** `Transport` gives the sending and receiving steps of a host as functions, `Hosts` the host
object whose methods perform them on its lists and buffers (`Chunk` for the heap buffers, `Encrypt` for the cipher,
applied in place). `Reassembly` is about fragmenting one message and the whole stream, `Cluster` about packing
datagrams. In `Runs` two hosts act in any order over a channel that delivers any datagram ever sent at any time, any
number of times, or never. What their users must respect is the predicate `Runs.Allowed`: messages are not empty and do
not start with a zero byte, are at most 5,000,000 bytes long, and a session uses fewer than 2^32 ACK_IDs. `AnyLength`
and `Memory` prove what holds in every reachable state: each application has a prefix of what it was promised, no
message is forgotten, and a sender with nothing outstanding means a peer with everything.

A reliable message of 503 to 508 bytes is short enough to be posted whole, but not to be sent again whole with its
header: it is then posted once more in fragments with new ACK_IDs, in the middle of another step. `AnyLength` proves
that one that had to wait in the queue is never delivered and stops the stream for good, and `Lost` that one that was
sent at once does the same when its first datagram is lost. `Oversized` shows that this range of lengths is exactly the
one where the window of 15 messages breaks, and `Windows` that it breaks only after such a message could not be sent.
`Airing` and `Windows` show what the channel has been given, `Sending` exactly what each step gives it, and `Heard` what
an application is handed outside the reliable stream. `Pieces` states cuts and limits in plain numbers. `Unaided`
defines the runs that the hosts make by themselves, and `Completion` proves from exactly which reachable states such a
run delivers everything. For runs without such messages `Session` and `Runs` prove the window, `Progress` counts rounds
without loss, and `Recovery` shows that sending again makes good the loss of every datagram sent so far, exactly when
the timers can expire.

**Cipher, generators, billing hash.** `Encrypt`, `Prng` and `Billing`: mutual inverses, multiply-and-shift as exact
division, Schrage's method as the Park-Miller recurrence, the full period of the client-key generator, and the parity
argument by which a hash can be undone without its key. A hash byte that is genuinely 0xED breaks the round trip of
passwords of even and of odd length; that condition is proved to be exact for both, with `/a` and `akt` as examples.

**Fast forms and simple forms.** `Crc` (the table built by doubling, against the bit-at-a-time CRC-32 of section 8 of
RFC 1952), `SquareRoot`, `Players` (the ident table against the list scan, every pointer between players, and the whole
against `Rosters`, which knows idents only),
`LinkedLists` (the doubly linked list on the heap) and `Circle` (what `spectateNext` visits, and how often it asks for
positions).

**Level files and chat.** `TileMap` is the level file and its matrix of tiles, `ChatLimiter` the rate limit of the
logged chat.

**Futures.** `Futures` is a chain of `then` calls as a state machine over atomic steps with a queue of posted tasks;
`Handles` the promise and future objects and what each method does to the pointers between them.

Where the code and its own comments differ the model follows the code: the comment in `mervbot/map.h` counts tile 191 as
a fly-under tile, the code writes tiles up to 190; `SQRT` decrements its shift once more than it uses it, which wraps
around and is harmless; `kill` walks cyclic lists like straight ones, but taking out the first or last node of one
leaves a list that is neither.

## Model

| member | source | states |
|---|---|---|
| AnyLength.PrefixDelivered | mervbot/host.cpp:146-434 | End to end over a channel that may lose, repeat and reorder datagrams: in every reachable state of two hosts, whatever the lengths of the messages posted, each application has, byte for byte, a prefix of the messages its peer was given to deliver, in order and none twice, whatever mixture of unfragmented, small-chunk and big-chunk messages, clusters and encryption carried them, and also when a reliable message is sent again in fragments with new ACK_IDs |
| AnyLength.StallsForever | mervbot/host.cpp:350-375 | A reliable message of 503 to 508 bytes that had to wait in the queue is never delivered: in every continuation of every run the receiver never gets past its ACK_ID, and its application lacks a message it was promised |
| AnyLength.RunStays | mervbot/host.cpp:146-467 | Every run keeps the invariant behind both: the outbox, the wire and the receiver agree with one stream of application messages and of stamped messages sent again in fragments, and nothing on the wire carries a message that never left the queue |
| AnyLength.LongNext | mervbot/host.cpp:350-375 | Sending such a message out of the queue extends the stream by its fragments only; the message itself stays unsent |
| Memory.NothingForgotten | mervbot/host.cpp:302-434 | In every reachable state, whatever the lengths of the messages posted, for both directions: each ACK_ID below localStep is in the sender's sent or queued list, or has been delivered or is buffered at the receiver |
| Memory.QuiescentMeansDelivered | mervbot/host.cpp:302-434 | In every reachable state, whatever the lengths, for both directions: when a sender's two lists are empty its peer's buffer is empty, the peer has accepted exactly localStep messages, and its application has exactly everything promised, with no transfer half done |
| Memory.RunMinds | mervbot/host.cpp:146-467 | Every step of every run keeps the memory of both hosts: an outbox entry goes only when the peer has the message, and what has arrived stays so |
| Lost.LostForGood | mervbot/host.cpp:446-467 | A message in flight that is too long to be sent again whole and has not arrived: when the datagrams that carry it are lost, in every continuation the peer never gets past its ACK_ID and its application lacks a message it was promised, although it is sent again in fragments |
| Lost.LostOccurs | mervbot/host.cpp:200-231 | This happens to the first message of a session: for each length from 503 to 508, after one post the loss of one datagram stops the stream for good |
| Lost.ActHushed | mervbot/host.cpp:146-467 | Whatever its sender does, a message that is too long to be sent again whole is not given to the channel a second time: no new datagram and no cluster carries it |
| Runs.WindowHolds | mervbot/host.cpp:302-375 | In every state reachable without reliable posts of 503 to 508 bytes, for both senders: at most 15 messages are in flight, with distinct IDs below localSent; the queue holds exactly the IDs localSent to localStep - 1 in increasing order; and it is empty unless all 15 slots are taken |
| Runs.RunKeeps | mervbot/host.cpp:1848-1882 | Every step of either host (posting, receiving any datagram ever sent or one message of it, acknowledging again, retransmitting, opening and flushing a cluster) keeps the joint invariant in both directions, over runs of any length |
| Runs.SwapReachable | mervbot/host.cpp:1315-1384 | The two hosts are alike: a reachable state with the hosts exchanged is reachable, so what is said of one sender holds of the other |
| Runs.ActKeeps | mervbot/host.cpp:146-467 | One event at one host keeps the invariant of the pair: window, inbox, what is on the wire, what has been delivered, and that nothing is forgotten |
| Progress.RoundProgress | mervbot/host.cpp:323-375 | When all timers have expired, one round in which everything in flight is retransmitted, received and acknowledged, both ways through clusters and the cipher, takes exactly min(15, n) of the n outstanding messages off the sender and leaves everything in flight stamped with the time of the round |
| Progress.RoundsDeliverEverything | mervbot/host.cpp:446-467 | From any such state between two clusters, for either sender: once its timers have expired, ceil(n / 15) such rounds, each more than the sync ping and 10 ticks after the one before on the 32-bit clock, leave nothing outstanding, and the peer's application has exactly everything promised |
| Progress.RoundsProgress | mervbot/host.cpp:446-467 | k such rounds take exactly min(15 k, n) of the n outstanding messages off the sender |
| Progress.AcksRetire | mervbot/host.cpp:323-375 | Acknowledgements of messages in flight, in any order and with repetitions, retire exactly those messages; every message that leaves the queue is in flight; the outbox is again a window, so the messages that left are the first of the queue |
| Windows.WindowUnlessBlocked | mervbot/host.cpp:302-375 | In every reachable state, whatever the lengths posted, for both senders: the window of 15 holds, unless the outbox has a message that is too long to be sent again whole and was never given to the channel |
| Windows.InFlightIsAired | mervbot/host.cpp:302-375 | In every reachable state, whatever the lengths posted, for both hosts: each message in flight that can be sent again whole is in the open cluster or in some datagram on the wire |
| Unaided.RoundsReach | mervbot/host.cpp:233-300 | The rounds of either host, at whatever times, are a run that the hosts make by themselves (whole datagrams, nothing posted, no acknowledgement out of turn), take in only datagrams sent in the rounds, and end in a reachable state |
| Completion.CompletableIff | mervbot/host.cpp:146-467 | Any reachable state, of whatever mixture of lengths, as long as there are ACK_IDs left for taking in one datagram: from any time on the hosts can deliver everything promised, both ways, by themselves, if and only if every message of either outbox that is too long to be sent again whole was given to the channel |
| Completion.BlockedStalls | mervbot/host.cpp:350-375 | A sender with such a message that was not never delivers everything, in any continuation |
| Completion.CompletableIffNotOversized | mervbot/host.cpp:146-467 | When all reliable messages have one length: from every reachable state the hosts can deliver everything promised, both ways, by a run of their own that takes in whole datagrams and posts nothing, if and only if that length is not 503 to 508 bytes |
| Completion.RegularIsCompletable | mervbot/host.cpp:323-434 | Without timers: from any state reachable without such lengths, taking in whole datagrams that were sent, and their acknowledgements, delivers everything promised, both ways |
| Recovery.RecoverableIffTimersExpire | mervbot/host.cpp:446-467 | By retransmission alone: from every such state and any time on, with every datagram sent so far lost, the hosts deliver everything promised, both ways, in at most one more step of time than messages are outstanding, no step longer than a timer waits, if and only if the timers can expire at all, that is, the ping plus 10 is not 2^32 - 1 on the 32-bit clock |
| Recovery.RegularIsRecoverable | mervbot/host.cpp:446-467 | The same for any two pings at which the timers of both hosts can expire |
| Recovery.RoundsSuffice | mervbot/host.cpp:446-467 | With timers that wait at most 2^28 ticks there are times, from any given one on, at which ceil(n / 15) rounds deliver all n outstanding messages of either sender, taking in only what is sent in them: of sixteen times that far apart one is late enough for all of at most fifteen messages |
| Oversized.AckKeepsWindowIff | mervbot/host.cpp:323-375 | An acknowledgement keeps the sender's window if and only if it does not make a queued message of more than 508 stamped bytes move up; otherwise the message is fragmented again in the middle of the step and sixteen messages are in flight |
| Oversized.WindowIffNotOversized | mervbot/host.cpp:146-231 | When all reliable messages have one length, both windows hold in every run, whatever the order of posts, acknowledgements and everything else, if and only if that length is not 503 to 508 bytes |
| Oversized.StallOccurs | mervbot/host.cpp:146-375 | For each length from 503 to 508 there is a run of reliable posts of that length alone after which, in every continuation, the receiving application lacks a message it was promised |
| Session.PostKeeps | mervbot/host.cpp:200-231 | Posting one fragment reliably extends the stream by it and keeps the invariant of the pair, whether it takes a slot or is queued |
| Session.AckKeeps | mervbot/host.cpp:323-375 | An acknowledgement of a message the peer has keeps the invariant of the pair; a late or repeated one changes nothing |
| Session.DrainDelivers | mervbot/host.cpp:392-422 | Draining the buffer stops (it loses one message each time), accepts exactly the messages whose turn has come, up to the first one missing, and leaves distinct IDs greater than remoteStep; what has arrived stays the same |
| Session.CheckReceivedDelivers | mervbot/host.cpp:377-434 | A reliable message is accepted, buffered or dropped so that afterwards exactly it has arrived in addition, the maximal contiguous run from remoteStep has been delivered, and the buffered IDs are distinct and greater than remoteStep |
| Session.ReliableKeeps | mervbot/host.cpp:2003-2007 | Acknowledging and taking in any message of the peer's stream, new or repeated, keeps the invariant of the pair |
| Session.ResendKeeps | mervbot/host.cpp:446-467 | Retransmitting a message keeps the invariant of the pair |
| Session.SendQueuedKeeps | mervbot/host.cpp:446-467 | The retransmission pass over the whole sent list keeps the invariant of the pair |
| Session.GotMessageKeeps | mervbot/host.cpp:1862-1882 | Handling one received core message keeps the invariant of the pair |
| Session.ClusterKeeps | mervbot/host.cpp:233-300 | Flushing the clustered messages keeps the invariant of the pair: everything that leaves in the datagrams was there to be sent |
| Reassembly.MessageDelivered | mervbot/host.cpp:2089-2137 | Whatever way post fragments a message, its fragments taken in order hand up nothing before the last one and exactly the message with it, and leave no transfer half done |
| Reassembly.DeliveredIffWithinLimit | mervbot/host.cpp:1337 | Fragmenting a message and reassembling the fragments gives it back if and only if it is at most 5,000,000 bytes long |
| Reassembly.StreamDelivered | mervbot/host.cpp:146-231 | After any k messages of the reliable stream the application has a prefix of what was posted, after all of them everything |
| Reassembly.ApplicationsDelivered | mervbot/host.cpp:2089-2137 | The same for a stream in which stamped messages were sent again in fragments: these hand up nothing and leave no transfer half done |
| Pieces.SmallPieces | mervbot/host.cpp:177-198 | Up to 508 bytes a message travels in one piece, up to 1000 in two: 00 08 and its first 500 bytes, 00 09 and the rest |
| Pieces.BigPieces | mervbot/host.cpp:152-176 | A longer message is cut every 496 bytes; each piece is 00 0A, the whole length in four bytes, low byte first, and the next bytes of the message |
| Pieces.SmallTransferIff | mervbot/host.cpp:2089-2103 | However a small transfer was cut: its pieces joined are handed up if and only if they are at most 1,000,000 bytes |
| Pieces.BigTransferIff | mervbot/host.cpp:2105-2137 | However a big transfer was cut, and whatever transfer of another length was half done: its pieces joined are handed up if and only if they are at most 5,000,000 bytes, and the buffer is empty then |
| Pieces.Dropped | mervbot/host.cpp:2105-2137 | A big transfer that gets more than it announced is dropped, and one that announces another length takes its place |
| Pieces.NotRouted | mervbot/host.cpp:1862-1882 | Core messages of other kinds, and too short ones, leave the transfers alone |
| Heard.DatagramHeard | mervbot/host.cpp:1862-1882 | Taking in a datagram hands the application, beside the reliable stream, exactly the messages in it that do not begin with a zero byte, in order |
| Heard.HeardWasPosted | mervbot/host.cpp:1862-1882 | In every run each message the application was handed that way was posted unreliably by the peer, and has at most 508 bytes |
| Heard.PostedIsHeard | mervbot/host.cpp:200-231 | An unreliable message of at most 508 bytes, posted with no cluster open, is one new datagram, and whoever takes that in hands up exactly the message |
| Heard.FlushedIsHeard | mervbot/host.cpp:233-300 | Once a cluster is flushed and its datagrams are taken in, its unreliable messages are handed up, each as often as it was posted, and nothing else |
| Sending.FirstFifteen | mervbot/host.cpp:302-321 | Reliable messages posted to a host with an empty outbox: the first fifteen, numbered from localStep on and sent now, are in flight and given to the channel in order, each as 00 03, its number in four bytes and the message; the others wait in the queue |
| Sending.SentAgain | mervbot/host.cpp:446-467 | When no message in flight is longer than 508 stamped bytes, the retransmission pass gives to the channel exactly those that were sent more than the ping plus 10 ticks ago on a 32-bit clock, once each and in order; exactly those count as sent now, and nothing else changes |
| Sending.Acknowledged | mervbot/host.cpp:2003-2007 | To each reliable message that comes in, new or not, the answer is one 00 04 with its number in four bytes, and nothing else is given to the channel |
| Sending.Retires | mervbot/host.cpp:323-348 | With nothing to move up, an acknowledgement of a number up to localSent takes exactly the first message with it out of those in flight; one of a greater number changes nothing |
| Sending.Ignored | mervbot/host.cpp:1862-1882 | An acknowledgement of what is not in flight changes nothing; a core message that is neither a reliable one nor an acknowledgement goes to the transfer buffers only |
| Sending.Unreliably | mervbot/host.cpp:146-231 | A message of more than 508 bytes is cut up and posted reliably, whatever was asked for; a shorter one posted unreliably is given to the channel as it is |
| Cluster.PackUnpack | mervbot/host.cpp:233-288 | For messages of at most 514 bytes, none starting 00 0E: unpacking what was packed keeps the relative order of the messages of at most 255 bytes, and separately of the longer ones; no datagram exceeds 520 bytes, and a datagram of two or more messages passes the receiver's length guard |
| Cluster.PackPermutes | mervbot/specialprot.cpp:206-218 | No message is lost, invented or doubled between the sender's packing and the receiver's unpacking |
| Cluster.ClusterUnpacks | mervbot/host.cpp:2155-2177 | A cluster of two or more messages is recognised, passes the length-6 guard and unpacks to exactly its messages |
| Cluster.OneDatagram | mervbot/host.cpp:233-288 | Messages of up to 255 bytes, together at most 507 with a length byte for each, go into one datagram: 00 0E and each with its length in front; a single one goes as it is |
| Cluster.NextDatagram | mervbot/host.cpp:233-288 | The first message that does not fit closes the datagram, and packing starts anew with it, whatever follows |
| Cluster.LongAlone | mervbot/host.cpp:233-288 | A message of more than 255 bytes leaves at once as a datagram of its own, before those that wait, whatever follows |
| Cluster.UnpackStops | mervbot/host.cpp:2155-2177 | Unpacking ends at a zero length and at a length that is more than what is left; every message before that is taken |
| Cluster.UnpackIs | mervbot/specialprot.cpp:206-218 | A datagram that starts with 00 0E and ends so gives its messages; one of less than six bytes gives none |
| Hosts.Host.constructor | mervbot/host.cpp:1315-1384 | A session starts with empty lists, counters at zero, and empty buffers limited to 1,000,000 and 5,000,000 bytes |
| Hosts.Host.PostTo | mervbot/host.cpp:146-231 | A message is fragmented, stamped, queued and emitted exactly as the specification Post, on which the run theorems are proved; only the sending fields change |
| Hosts.Host.PostBig | mervbot/host.cpp:152-176 | The big-chunk loop emits the fragments of the whole message in order |
| Hosts.Host.PostLittle | mervbot/host.cpp:177-198 | The small-chunk loop emits the bodies and the tail of the whole message in order |
| Hosts.Host.Enqueue | mervbot/host.cpp:302-321 | A message gets the next ACK_ID and a slot if one of 15 is free, else a place in the queue; the result says which |
| Hosts.Host.CheckSentId | mervbot/host.cpp:323-348 | The walk over the sent list retires the message with an ID, if it is there, and lets one queued message move up |
| Hosts.Host.SendNextQueued | mervbot/host.cpp:350-375 | The walk over the queue finds localSent, posts it, and moves it into the sent list with a new time |
| Hosts.Host.ResendAt | mervbot/host.cpp:446-467 | A message in flight longer than the sync ping plus 10 ticks, in 32-bit unsigned arithmetic, is posted again and stamped with the time |
| Hosts.Host.ResendQueued | mervbot/host.cpp:446-467 | The loop over the sent list ends and does what SendQueued says |
| Hosts.Host.AcceptAt | mervbot/host.cpp:377-422 | A buffered message whose turn has come is delivered and taken out |
| Hosts.Host.DrainReceived | mervbot/host.cpp:392-422 | The loop that rescans the received list after every acceptance ends and does what Drain says |
| Hosts.Host.CheckReceivedId | mervbot/host.cpp:377-434 | A reliable message is delivered, buffered or dropped, and followers drained, as CheckReceived says |
| Hosts.Host.Receive | mervbot/host.cpp:1862-1882 | One core message is dispatched: reliable, acknowledgement, chunk or application message |
| Hosts.Host.ReceivePacket | mervbot/host.cpp:1848-1860 | A datagram is decrypted in place and its message, or the messages of its cluster, are handled in order |
| Hosts.Host.ReceiveCluster | mervbot/host.cpp:2155-2177 | The walk over a cluster by length bytes handles exactly the messages that the specification unpacks, and stops where a length runs over the end |
| Hosts.Host.ChunkBody | mervbot/host.cpp:2089-2092 | The payload is appended to the small-chunk buffer if it stays within the limit |
| Hosts.Host.ChunkTail | mervbot/host.cpp:2094-2103 | The payload is appended, the whole message handed up, and the buffer emptied |
| Hosts.Host.BigChunk | mervbot/host.cpp:2105-2137 | The payload is appended to the big-chunk buffer; once the announced total is there the message is handed up and the buffer emptied |
| Hosts.Host.SendClustered | mervbot/host.cpp:233-288 | The in-place packing of messages into the 520-byte buffer sends exactly the datagrams of the specification Pack |
| Hosts.Host.BeginClustering | mervbot/host.cpp:114-119 | Messages are collected from then on |
| Hosts.Host.EndClustering | mervbot/host.cpp:290-300 | The clustered messages are packed, encrypted and sent, and the list emptied |
| Hosts.Host.Transmit | mervbot/host.cpp:469-487 | A datagram leaves encrypted under the session's key |
| Hosts.Host.EmitMessage | mervbot/host.cpp:200-231 | A message joins the open cluster or leaves at once |
| Chunk.ChunkBuffer.ResizeMessage | mervbot/chunk.cpp:10-19 | The new buffer has the new length and starts with the old contents |
| Chunk.ChunkBuffer.AddMessage | mervbot/chunk.cpp:38-48 | The heap buffer then holds the old contents followed by the message, or is unchanged if that would exceed the limit |
| Chunk.ChunkBuffer.DeleteMessage | mervbot/chunk.cpp:50-58 | The buffer is gone and the length zero |
| Encrypt.MutualInverses | mervbot/encrypt.cpp:90-159 | decrypt(encrypt(m)) = m and encrypt(decrypt(m)) = m for every key, keystream and message, with the untouched header bytes and the tail of one to three bytes |
| Encrypt.SsEncr.Encrypt | mervbot/encrypt.cpp:90-122 | The in-place loop over 1 to 520 bytes computes the chained cipher, changes nothing behind the message, and never reads outside the message or the 520-byte keystream |
| Encrypt.SsEncr.Decrypt | mervbot/encrypt.cpp:124-159 | The in-place loop computes the inverse cipher, changes nothing behind the message, and stays inside message and keystream |
| Encrypt.EncryptedByte | mervbot/encrypt.cpp:90-122 | Byte by byte, for every key but zero: the first one or two bytes stay; every other is exclusive-ored with its keystream byte and with the key byte, or the cipher byte four places before it |
| Encrypt.DecryptedByte | mervbot/encrypt.cpp:124-159 | Byte by byte the same, with the cipher text received in place of the one made |
| Encrypt.NoKeyNoCipher | mervbot/encrypt.cpp:90-159 | Under key zero messages pass unchanged both ways |
| Encrypt.WordOfBytes | mervbot/encrypt.cpp:90-159 | A key enters the cipher as its four bytes, least significant first |
| Encrypt.NewKeyUnfolds | mervbot/encrypt.cpp:37-51 | In plain numbers what a key is made of: the clock times 0xCCCCCCCD, its eighth and the two draws added, exclusive-ored and taken away again, and negated if the top bit is clear |
| Encrypt.KeystreamPairs | mervbot/encrypt.cpp:63-88 | The keystream is the low 16 bits of each seed in turn, low byte first |
| Encrypt.AnswersIff | mervbot/encrypt.cpp:63-88 | A server key answers a client key if and only if it is that key or its negation in 32 bits |
| Encrypt.SsEncr.InitializeEncryption | mervbot/encrypt.cpp:63-88 | Accepts exactly the client's key or its negation; the client's own key switches encryption off; otherwise the keystream is two bytes of each successor of the server key |
| Encrypt.SsEncr.GenerateKey | mervbot/encrypt.cpp:37-51 | The key is made once, from the clock and two draws of the light generator, and is kept from then on |
| Encrypt.NewKeyIsClientKey | mervbot/encrypt.cpp:47-55 | A generated key is 0 or has its top bit set, so its negation, the answer that switches encryption on, is at most 2^31 |
| Encrypt.KeystreamSeeds | mervbot/encrypt.cpp:63-88 | For every answer to a generated key that switches encryption on, every keystream seed lies in [1, 2^31 - 1] and follows from the one before as 16807 s + 123 mod 2^31 - 1, and both generators agree on it |
| Prng.ReciprocalIsExact | mervbot/prng.cpp:149-159 | Multiplying by 0x834E0B5F and shifting right by 48 is exact division by 127773 on every number up to 2^31 - 1 |
| Prng.QuotientGIsExact | mervbot/prng.cpp:161-169 | The signed high half with the seed added back, shifted, is the same exact quotient |
| Prng.Schrage | mervbot/prng.cpp:149-159 | Schrage's difference stays below 2^31 in size and is congruent to 16807 s + 123 mod 2^31 - 1 |
| Prng.StepIsParkMiller | mervbot/prng.cpp:149-169 | One step of either generator gives the representative in [1, 2^31 - 1] of 16807 s + 123 mod 2^31 - 1 |
| Prng.SameSequence | mervbot/prng.h:57-58 | getNextE and getNextG run through the same seeds, all in [1, 2^31 - 1], for any number of steps |
| Prng.SsHeavyPrng.GetNextE | mervbot/prng.cpp:149-159 | The 32- and 64-bit arithmetic of the method sets the seed to its Park-Miller successor and returns its low 16 bits |
| Prng.SsHeavyPrng.GetNextG | mervbot/prng.cpp:161-169 | The same, by the signed 32-bit high-half multiplication |
| Prng.LightPermutes | mervbot/prng.cpp:122-129 | A draw of the client-key generator permutes the 32-bit seeds: each comes from exactly one other, which multiplying by the inverse of the multiplier finds |
| Prng.FullPeriod | mervbot/prng.cpp:122-129 | The client-key generator has full period: from any seed it is back at it after n draws if and only if n is a multiple of 2^32 |
| Prng.LightValueIs | mervbot/prng.cpp:122-129 | A draw is bits 10 to 24 of the seed |
| Billing.EvenRoundTripIff | mervbot/encrypt.cpp:206-267 | For every password of even length, decrypting its hash gives it back if and only if no intermediate hash byte is genuinely 0xED |
| Billing.OddSameHashIff | mervbot/encrypt.cpp:206-267 | For every printable password of odd length, decrypting its hash gives a printable password with the same hash if and only if no intermediate hash byte is genuinely 0xED |
| Billing.InverseRehashed | mervbot/encrypt.cpp:171-204 | Under any key, hashing the inverse of a NUL-free hash gives the hash back |
| Billing.ExplainsIff | mervbot/encrypt.cpp:222-249 | So the comparison after a guess never fails: a key is accepted for a NUL-free hash exactly when the inverse under it is printable |
| Billing.OddMarkOccurs | mervbot/encrypt.cpp:181-182 | An odd length does not help: the printable password akt does not come back as one with its hash |
| Billing.InverseIff | mervbot/encrypt.cpp:171-204 | Under its own key the inverse restores a password if and only if no intermediate byte is genuinely 0xED |
| Billing.ParityOfInverse | mervbot/encrypt.cpp:192-204 | The checksum of an inverse does not depend on the key when the length is even, and is shifted by exactly the key when it is odd |
| Billing.KeyForced | mervbot/encrypt.cpp:171-204 | A hash of two or more characters determines the key under which a given inverse hashes to it |
| Billing.PairRoundTripIff | mervbot/encrypt.cpp:171-267 | For two characters the condition can be read off them |
| Billing.MarkOccurs | mervbot/encrypt.cpp:181-182 | The mark does occur: the printable password /a does not come back |
| Billing.SearchFinds | mervbot/encrypt.cpp:215-252 | The search ends with the inverse under the first key, at most the given one, that explains the hash |
| Billing.SearchIsLast | mervbot/encrypt.cpp:215-252 | If no key explains the hash, the buffer holds the inverse under key 255 |
| Billing.HashPassword | mervbot/encrypt.cpp:171-187 | The output buffer holds the hash of the input string and a NUL, and is otherwise unchanged; input and output may be the same buffer |
| Billing.ShiftedIs | mervbot/encrypt.cpp:171-187 | What a character leaves in the key: its code times 2 to the power of its two low bits, in eight bits, for every one of the 256 codes |
| Billing.HashedCharacter | mervbot/encrypt.cpp:171-187 | Character by character: each code is the character exclusive-ored with a key, the checksum of the password at first, and then the key before it exclusive-ored with the code before it times 2 to the power of that code's two low bits; a zero code becomes ED |
| Billing.InverseAt | mervbot/encrypt.cpp:192-204 | Character by character the inverse of any hash under any key, with ED read as zero |
| Billing.OneCharacterDecrypted | mervbot/encrypt.cpp:206-267 | A password of one character hashes to ED whatever it is, and decrypts to a space |
| Billing.OneCharacterExplained | mervbot/encrypt.cpp:222-249 | A key explains the hash of a one-character password exactly if it is a printable character itself |
| Billing.InverseHash | mervbot/encrypt.cpp:192-204 | The output buffer starts with the inverse of the input string under the key and is otherwise unchanged |
| Billing.CheckGuess | mervbot/encrypt.cpp:222-249 | A guess is accepted exactly when it is printable and hashes to the password under the key |
| Billing.DecryptHashedPassword | mervbot/encrypt.cpp:206-267 | The buffer's string is overwritten by the decryption of it and nothing else changes |
| Billing.SimpleChecksum | mervbot/checksum.cpp:13-23 | The loop computes the exclusive or of the first len bytes |
| Billing.StrLen | mervbot/datatypes.cpp:38-45 | The walk stops at the first NUL |
| Crc.GetFileChecksum | mervbot/checksum.cpp:29-41 | For every buffer of every length the table-driven checksum is the bit-at-a-time reflected CRC-32 of section 8 of RFC 1952 |
| Crc.FileChecksum | mervbot/checksum.cpp:29-96 | The same, with the table that generateDictionary makes under key 0 |
| Crc.GenerateDictionary | mervbot/checksum.cpp:90-96 | The doubling recursion fills all 256 entries: entry i is the register i after eight steps, exclusive-ored with the key; nothing else is written |
| Crc.Generate256 | mervbot/checksum.cpp:90-96 | Four blocks of 64 make a linear table under any key |
| Crc.Generate64 | mervbot/checksum.cpp:82-88 | Four blocks of 16 make a linear table under any key; nothing else is written |
| Crc.Generate16 | mervbot/checksum.cpp:74-80 | Four blocks of 4 make a linear table under any key; nothing else is written |
| Crc.Generate4 | mervbot/checksum.cpp:66-72 | The four entries of a linear table under any key; nothing else is written |
| Crc.EntryIsModifier | mervbot/checksum.cpp:66-96 | Each of the header's four constants, and its double, is the CRC table's entry at a power of two |
| Crc.TableStep | mervbot/checksum.cpp:34-38 | One look-up does the work of eight single-bit steps |
| Crc.FeedTogether | mervbot/checksum.cpp:34-38 | Up to 32 message bits may be exclusive-ored into the register first and shifted through together |
| Crc.IterateLinear | mervbot/checksum.cpp:66-96 | Any number of register steps is linear over exclusive or |
| Crc.FeedInjective | mervbot/checksum.cpp:29-41 | Two registers that differ stay different over any message |
| Crc.BurstDetected | mervbot/checksum.cpp:29-41 | Two messages that differ only within 32 consecutive bits have different checksums |
| Crc.EmptyChecksum | mervbot/checksum.cpp:29-41 | The checksum of nothing is 0 |
| Crc.OnesChecksum | mervbot/checksum.cpp:29-41 | The checksum of the byte FF is FF000000, the published value, which fixes the start value and the complement at the end |
| Crc.OwnChecksum | mervbot/checksum.cpp:29-41 | Any message followed by its own checksum, low byte first, has the checksum of four zero bytes |
| SquareRoot.Sqrt | mervbot/algorithms.cpp:10-27 | For every 32-bit v the result g has g*g <= v < (g+1)*(g+1), and every sum, product and shift on the way stays within 32 bits |
| SquareRoot.RootIsUnique | mervbot/algorithms.cpp:10-27 | There is only one such g |
| TileMap.RoundTripIff | mervbot/map.cpp:56-181 | For every map without multi-tile objects, writing and reading back gives exactly the interior cells of a stored type and zero elsewhere; so the map comes back if and only if every non-empty tile is inside the border and of a stored type |
| TileMap.FileIsReadable | mervbot/map.cpp:61-73 | A written file is never mistaken for one with a tileset header, and every record is inside it |
| TileMap.NoHeader | mervbot/map.cpp:66-67 | No record of a tile on the map starts with the letters BM |
| TileMap.TileOfRecord | mervbot/map.cpp:12-26 | Unpacking a packed record gives back its type and the low twelve bits of each coordinate |
| TileMap.RecordOfTile | mervbot/map.cpp:12-26 | Packing an unpacked record gives back the 32-bit word |
| TileMap.CellAt | mervbot/map.cpp:56-59 | A cell is at an offset from a tile exactly when it is that many columns right and rows below it, around the 1024 by 1024 edge |
| TileMap.ReadOctets | mervbot/map.cpp:75-122 | Reading the records that start a file places exactly their tiles, whatever follows them |
| TileMap.PlaceColumns | mervbot/map.cpp:162-181 | Reading back column after column restores exactly the columns written so far |
| TileMap.GetMapSize | mervbot/map.cpp:140-160 | The size is exactly four times the number of records written, and fits 32 bits |
| TileMap.ConvertMatrixToFile | mervbot/map.cpp:162-181 | The buffer then starts with the records of the interior tiles of a stored type, column by column, and is otherwise unchanged |
| TileMap.ConvertColumn | mervbot/map.cpp:168-180 | One column's records are appended |
| TileMap.StoreRecord | mervbot/map.cpp:178 | One record's four bytes are appended and nothing else changes |
| TileMap.ConvertFileToMatrix | mervbot/map.cpp:61-122 | The matrix is cleared, the tileset skipped if there is one, and every tile placed in order |
| TileMap.FillTiles | mervbot/map.cpp:75-122 | The record loop reads up to the last started record and places each tile that is on the map |
| TileMap.PlaceTile | mervbot/map.cpp:84-121 | A tile covers 1, 4, 25 or 36 cells, around the edge, and changes no other |
| TileMap.PlacedCell | mervbot/map.cpp:84-121 | In plain numbers: the cell i columns right and j rows below a tile, around the edges, gets its type exactly for i and j below 2 for a large asteroid (218), 6 for the station (219), 5 for a wormhole (220) and 1 for any other type; every other cell stays |
| TileMap.EveryCell | mervbot/map.cpp:84-121 | Every cell of the map is some number of columns right and rows below a tile, so the statement before this one covers all of them |
| TileMap.OffTheMap | mervbot/map.cpp:80-81 | A tile whose place is off the map is skipped |
| TileMap.WrittenIff | mervbot/map.cpp:162-181 | A record is written if and only if its cell is inside the border of the map and holds a type of 1 to 190 or 216 to 220 |
| TileMap.TilesInOrder | mervbot/map.cpp:162-181 | Records are written column by column, and down each column, none twice |
| TileMap.RecordBytes | mervbot/map.cpp:12-26 | The four bytes of a record, from both coordinates and the type |
| TileMap.ReadBehindTileset | mervbot/map.cpp:61-122 | A file that starts with BM and a length is read from there on, every record in order, into an empty map |
| TileMap.ReadFromStart | mervbot/map.cpp:61-122 | A file that starts with anything else is records from the start |
| TileMap.ReadPart | mervbot/map.cpp:75-122 | A length that ends inside a record reads that record too |
| ChatLimiter.PostedInOrder | mervbot/host.cpp:1271-1310 | Whatever the clock does, the messages posted followed by those waiting are exactly the messages enqueued, in order |
| ChatLimiter.AtMostFour | mervbot/host.cpp:1295-1310 | Under a clock that does not run backwards, at most 4 messages are posted in any 151 consecutive ticks |
| ChatLimiter.PostedBy | mervbot/host.cpp:1295-1310 | By time T at most 2 * (T div 151) + 2 messages have been posted |
| ChatLimiter.RunKeepsPace | mervbot/host.cpp:1295-1310 | Every run keeps at most two messages to a window, and windows more than 150 ticks apart |
| ChatLimiter.ChatQueue.AddChatLog | mervbot/host.cpp:1271-1278 | The message goes to the end of the queue |
| ChatLimiter.ChatQueue.SendNextLoggedChat | mervbot/host.cpp:1280-1293 | The first message, if there is one, is posted and taken out |
| ChatLimiter.ChatQueue.DoChatLog | mervbot/host.cpp:1295-1310 | A window is opened when its time has come, by unsigned difference, and messages are posted until two are or none is left |
| ChatLimiter.TickPosts | mervbot/host.cpp:1295-1310 | A tick more than 150 after the last opening opens a window and posts exactly two of the messages waiting, or all if there are fewer; any other tick posts exactly what is left of two in the window; the rest waits in order |
| ChatLimiter.TicksPost | mervbot/host.cpp:1295-1310 | After n ticks more than 150 apart exactly the first 2 n waiting messages are posted, so all of them after half as many ticks, rounded up, and no sooner |
| LinkedLists.LinkedList.Append | mervbot/datatypes.h:415-430 | The new node is last: nodes and items are the old ones and then the new one, with head, tail, both links and total right |
| LinkedLists.LinkedList.Prepend | mervbot/datatypes.h:398-413 | The new node is first, and the rest as before |
| LinkedLists.LinkedList.InsertAfter | mervbot/datatypes.h:432-451 | The new node follows the given one; in an empty list, or after the tail, it is appended |
| LinkedLists.LinkedList.InsertBefore | mervbot/datatypes.h:453-472 | The new node precedes the given one; in an empty list, or before the head, it is prepended |
| LinkedLists.LinkedList.Kill | mervbot/datatypes.h:474-503 | The node is taken out wherever it stands, all others keep their order and links, and its item is deleted unless the items are only copied; a cyclic list stays one exactly when the node is neither its first nor its last, and is otherwise left neither cyclic nor straight |
| LinkedLists.LinkedList.KillItem | mervbot/datatypes.h:505-520 | The first node with an item, if there is one, is taken out, on straight and on cyclic lists; a cyclic list stays one exactly when that is no node or one strictly inside |
| LinkedLists.LinkedList.Find | mervbot/datatypes.h:522-538 | The first node with an item, or null if none has it, on straight and on cyclic lists |
| LinkedLists.LinkedList.Unlist | mervbot/datatypes.h:540-545 | The node is taken out, of a straight or a cyclic list as Kill does it, and its item stays alive |
| LinkedLists.LinkedList.UnlistItem | mervbot/datatypes.h:547-552 | The first node with an item is taken out, as KillItem does it, and the item stays alive |
| LinkedLists.LinkedList.Clear | mervbot/datatypes.h:353-396 | The list is empty afterwards, every item deleted exactly once, unless only copied; a cyclic list is gone round once |
| LinkedLists.LinkedList.BeginCyclic | mervbot/datatypes.h:338-341 | The tail leads to the head, everything else as before |
| LinkedLists.LinkedList.EndCyclic | mervbot/datatypes.h:343-346 | The straight list is back, with the same nodes and items |
| LinkedLists.WithoutAt | mervbot/datatypes.h:505-520 | Taking out the first occurrence is cutting the sequence at its index |
| Circle.EachVisitedOnce | mervbot/host.cpp:1514-1551 | Over a fixed list with k players who are not spectators, k consecutive calls visit each of them exactly once, from any starting place |
| Circle.StaysIff | mervbot/host.cpp:1524-1532 | A call stays where it is if and only if nobody else flies |
| Circle.CallsPass | mervbot/host.cpp:1524-1532 | As long as flying players are left on the way round, each call goes to the first of them |
| Circle.OneCall | mervbot/host.cpp:1524-1532 | A call passes over spectators only, to the next flying player |
| Circle.Distance | mervbot/host.cpp:1524-1532 | The search stops at the first flying player after the place it starts from, or where it started |
| Circle.RequestsPaced | mervbot/host.cpp:1534-1564 | However often spectateNext is called, under a clock that does not run backwards: any two position requests are more than 20 ticks apart, and those to one player more than 100 |
| Circle.NextIs | mervbot/host.cpp:1524-1532 | A call goes to the first flying player behind the one followed, in the order of the list; if there is none, to the first flying one of the list |
| Circle.NextAsked | mervbot/host.cpp:1534-1564 | A call asks the player it leads to for a position exactly if that is wanted, the player flies, was last heard of more than 100 ticks ago, and the last request is more than 20 ticks old, on a 32-bit clock; otherwise nothing is recorded |
| Circle.RoundAsksEach | mervbot/host.cpp:1534-1564 | If nobody was heard of lately, as many calls as players fly, more than 20 ticks apart, ask each of them exactly once, in the order of the visits |
| Players.AgreesAppend | mervbot/host.cpp:1051-1063 | A table that agrees with the list scan for every ident still does when a player with a new ident is appended and entered; idents stay unique |
| Players.AgreesWithout | mervbot/host.cpp:1220-1240 | It still does when a player is taken out of both |
| Players.LookupWithout | mervbot/host.cpp:1097-1118 | The list scan without a player finds nobody under its ident and what it found before under all others |
| Players.RefsWithout | mervbot/host.cpp:1220-1240 | When nobody is attached to a player, the others without it are attached only to each other |
| Players.Arena.GetPlayer | mervbot/host.cpp:1097-1100 | The table look-up gives what the list scan gives, for every ident |
| Players.Arena.ScanPlayer | mervbot/host.cpp:1101-1117 | The walk over the list gives the first player with the ident, or null |
| Players.Arena.AddPlayer | mervbot/host.cpp:1051-1063 | The new player is last in the list and found by its ident |
| Players.Arena.KillTurret | mervbot/host.cpp:1065-1088 | Exactly the players attached to p are detached |
| Players.Arena.KillPlayer | mervbot/host.cpp:1220-1240 | The player is gone from list and table; whoever was attached to it is detached; follow and limitedOwner are cleared exactly if they were at it; every pointer is null or at a listed player |
| Players.Arena.PlayerEntering | mervbot/clientprot.cpp:822-915 | A player under a listed ident replaces the old one, with all pointers to the old one cleared; the new one is last and attached to whoever has the turretee's ident; every pointer is null or at a listed player |
| Players.Arena.PlayerLeaving | mervbot/clientprot.cpp:1076-1101 | The player with the ident, if there is one, is removed as KillPlayer removes it |
| Players.Arena.Attach | mervbot/host.cpp:1090-1095 | One player's turret pointer changes and no other |
| Players.Arena.Handle | mervbot/host.cpp:1051-1240 | Any one message about players, a claim or log-on, an attach command, a call of spectateNext, or the bot's own moves on follow, changes who is listed, in what order, with what ship and rank, who is attached to whom, whom the bot follows, who owns it and which player it is exactly as the reference on idents alone says, and keeps idents unique, the table equal to the list scan, and every pointer null or at a listed player |
| Players.Arena.HandleAll | mervbot/clientprot.cpp:336-969 | So does every sequence of such messages: it leaves what the reference makes of all of them in turn |
| Players.Arena.CreateTurret | mervbot/clientprot.cpp:336-380 | Exactly the turreter's pointer changes: to the turretee, to null on detaching, and not at all if an ident is unknown |
| Players.Arena.DeleteTurret | mervbot/clientprot.cpp:382-404 | Exactly the players attached to the named one are detached |
| Players.Arena.ResetArena | mervbot/host.cpp:1463-1489 | List, table and every pointer are cleared |
| Players.Arena.SetShip | mervbot/clientprot.cpp:917-969 | The ship changes unless its high bit is set, and a followed player who becomes a spectator is followed no longer |
| Players.Arena.Follow | mervbot/command.cpp:1507-1509 | Following a listed player sets follow to its node |
| Players.Arena.Following | mervbot/botdll.cpp:129-134 | Following starts at the head of the list or stops |
| Players.Arena.Claim | mervbot/command.cpp:1942-1965 | A player of the lowest rank who claims the bot while nobody owns it becomes its owner and rises one rank; nobody else does |
| Players.Arena.LogOn | mervbot/command.cpp:2079-2085 | An operator gets the rank on record, and is no longer the owner if it was |
| Players.Arena.AttachMe | mervbot/command.cpp:1551-1587 | The bot's own turret pointer is at the named player, or null; naming one also makes it the followed one |
| Players.Arena.NextFlying | mervbot/host.cpp:1521-1532 | The search on the cyclic list ends and leaves follow at the next player who flies |
| Players.Arena.SpectateNext | mervbot/host.cpp:1514-1551 | The list is cyclic for a while and restored; follow moves to the next player who flies, starting from the head if there was none; the bot takes that player's place with direction 0 |
| Players.Arena.SpectateRepeatedly | mervbot/host.cpp:1514-1564 | Any number of calls in a row leaves follow where the orbit of that length leads; when positions were requested, and from whom, is what the watch specification says, on which the pace of requests is proved |
| Futures.ChainComposes | include/aegis/futures.hpp:975-1017 | Whatever the order of setting, attaching with then, moving, destroying and running posted tasks: a result that can be seen is the composition of the functions, up to the first exception; and when no task is left to run nothing is seen only while a promise is still to be set |
| Futures.EachRunsOnce | include/aegis/futures.hpp:975-1017 | Functions run in order, each at most once, only on the value made by those before it and none after an exception; when no task is left, every function that gets a value has run |
| Futures.PointersSymmetric | include/aegis/futures.hpp:539-605 | In every reachable state a promise held anywhere that points to a future points to the last one and is pointed back to; a promise the last future points to exists and points back |
| Futures.ExecutingEnds | include/aegis/futures.hpp:1164-1184 | Every task that is run leaves fewer functions to run, so the event loop comes to rest |
| Futures.Executed | include/aegis/futures.hpp:1000-1017 | In every run, executing a posted task calls its function, if it has a value for it, and no other; the next continuation is then posted with the outcome, or the last future has it; an exception that was passed on goes one continuation further, one that the function throws goes two at once; when the function returns a future whose promise is not set, nothing is posted |
| Futures.SetPosts | include/aegis/futures.hpp:622-633 | In every run, setting a promise calls nothing: the continuation that waits for it is posted with the outcome, or the future has it |
| Futures.NewAddress | include/aegis/futures.hpp:559-598 | In every run, a move gives the promise or the future an address that nothing had before, and leaves what is seen, called and posted as it was |
| Futures.RunKeepsGood | include/aegis/futures.hpp:539-1058 | Every legal step keeps the invariant of the chain: nested continuations in order, one task at most, states and pointers in agreement |
| Futures.RunKeeps | include/aegis/futures.hpp:1000-1006 | Running a continuation keeps it, also when an exception runs further continuations at once and when the function returns a future whose promise is not set |
| Futures.SettleKeeps | include/aegis/futures.hpp:1164-1203 | Setting the promise in a continuation posts the next one, runs it at once if the setting is urgent, or leaves the state to the future |
| Futures.ForwardKeeps | include/aegis/futures.hpp:1043-1058 | A pending future that is forwarded hands the rest of the chain to its own promise |
| Futures.ThenNowKeeps | include/aegis/futures.hpp:979-989 | then on an available future calls the function at once, or passes the exception on |
| Futures.ThenLaterKeeps | include/aegis/futures.hpp:990-1017 | then on a pending future hangs a continuation at the end of the nest, with the pointers of the new pair right after all moves |
| Futures.MovePromiseKeeps | include/aegis/futures.hpp:559-598 | Moving a promise keeps the invariant and tells its future the new address |
| Futures.MoveFutureKeeps | include/aegis/futures.hpp:845-869 | Moving a future keeps the invariant and tells its promise the new address |
| Futures.DropKeeps | include/aegis/futures.hpp:1186-1203 | Destroying a promise that was set hands its state to its future |
| Handles.Promise.MovedFrom | include/aegis/futures.hpp:559-598 | The new promise has the old one's future, state and task; the future points to it; the local state moves exactly if it was in use; the old one is left without any |
| Handles.Promise.GetFuture | include/aegis/futures.hpp:1156-1162 | A new future and the promise point at each other |
| Handles.Promise.SetOutcome | include/aegis/futures.hpp:622-633 | The state is set once; a waiting task is handed out with it and the promise keeps neither |
| Handles.Promise.Schedule | include/aegis/futures.hpp:669-675 | A continuation's own waiting state takes the place of the local one |
| Handles.Promise.Abandoned | include/aegis/futures.hpp:1186-1203 | A future still attached gets the state and is let go |
| Handles.Future.MovedFrom | include/aegis/futures.hpp:845-869 | The new future is attached where the old one was, or has its state; the old one has neither |
| Handles.Future.StateOf | include/aegis/futures.hpp:736-756 | The state of the promise while attached, else the future's own |
| Handles.Future.GetAvailableState | include/aegis/futures.hpp:803-817 | The state is taken out and both sides let go |
| Handles.Future.Schedule | include/aegis/futures.hpp:778-802 | A result that is there is taken out to be posted with the function; otherwise the promise has the continuation, and both sides let go |
| Handles.Future.ForwardTo | include/aegis/futures.hpp:1043-1058 | A result that is there is set on the other promise, whose waiting task is handed out with it; otherwise the other promise, moved, takes over with its future or its task, and this future and its promise let go |
| Handles.Future.ThenLater | include/aegis/futures.hpp:990-1017 | then on a pending future: after both moves the returned future and the promise inside the continuation point at each other, and the old promise has the continuation and no future |
| Handles.Future.ThenNow | include/aegis/futures.hpp:979-989 | then on an available future: the returned one holds the exception or the function's outcome, or is attached to a new waiting promise; the old state is taken out |
| Bytes.LongRoundTrip | mervbot/datatypes.cpp:10-28 | A 32-bit field stored in a message is read back, wherever it stands |
| Bytes.LongIs | mervbot/datatypes.cpp:10-28 | A stored field is four bytes, least significant first |
| Bytes.GetLongIs | mervbot/datatypes.cpp:10-28 | Four bytes are read as a number, least significant first, at any place of any message |
| Bytes.XorBit | mervbot/encrypt.cpp:106-111 | The exclusive or, which is computed arithmetically, has at each place the bit in which its operands differ |

## Left out

- Hosts.Host.ReceivePacket: core messages inside a delivered reliable message or inside a cluster message's payload are handled only where the transport itself produces them; a delivered message that re-enters the receiver in the middle of a step, as a disconnect does, is not modelled.
- Hosts.Host.constructor: a session reset is a new host; `gotDisconnect` and the restart of all hosts call each other without end and are not part of this model.
- Hosts.Host.PostTo: the scratch buffers on the stack of `post` and the fixed 520-byte arrays inside queued and clustered messages are values; messages that overrun them cannot be posted.
- AnyLength.PrefixDelivered: time is a parameter of every step, and the channel delivers only datagrams that were sent; forged datagrams are excluded. A stamped message that arrives in fragments is acknowledged again by the source in the middle of a step; here that acknowledgement is an event of its own, which may happen at any time, and datagrams may be taken in message by message.
- Runs.WindowHolds: reliable messages of 503 to 508 bytes are excluded, because the property is false for them; Oversized.WindowIffNotOversized is the exact statement.
- Progress.RoundsDeliverEverything: reliable messages of 503 to 508 bytes are excluded, because rounds do not deliver everything with them; Completion.CompletableIff and Completion.CompletableIffNotOversized are the exact statements.
- Completion.CompletableIff: in a state that has such a message, the completing run leaves out the second acknowledgement that the source sends when one arrives in fragments; it is one more copy of an acknowledgement on the wire, and the state is left as it is otherwise.
- Recovery.RecoverableIffTimersExpire: states with reliable messages of 503 to 508 bytes are excluded, because the loss of such a message cannot be made good; Lost.LostForGood and Lost.LostOccurs say so.
- Encrypt.SsEncr.Encrypt: 32-bit words are held as their four bytes, least significant first.
- Encrypt.SsEncr.GenerateKey: the two draws of the generator in one expression are taken from left to right, an order the language leaves open.
- Synchronisation messages, cancelled downloads, connecting and disconnecting: single fields and packet builders.
- Players.Arena.KillPlayer: the bot's own player pointer is not cleared when its player leaves, as in the source, so it is not among the pointers that are shown to be null or listed; messages to plug-ins and packets sent on detaching are left out.
- Players.Arena.PlayerEntering: one record at a time; names, squads and scores are left out; an operator who needs no password logs on by a message of its own.
- Players.Arena.SpectateNext: the clock is read once for both time fields.
- Players.Arena.Handle: the reference on idents leaves out places, times and position requests; Players.Arena.SpectateNext and Players.Arena.SpectateRepeatedly say what becomes of those.
- Players.Arena.HandleAll: attaching and spectating do nothing while the bot has no player of its own, where the attach command of the source would go through a null pointer.
- Players.Arena.Claim: passing ownership on and revoking ranks are left out; the setting that allows claims is taken to be on.
- LinkedLists.LinkedList.Kill: memory is not handed back; the items whose destructor would run are recorded instead. What a list that is neither cyclic nor straight would do next is not modelled.
- TileMap.RoundTripIff: multi-tile objects are read and written, but the round trip is stated for maps without them, because every written cell of one is expanded again on reading.
- TileMap.ConvertFileToMatrix: the caller must pass a buffer that holds what the loop looks at, and no offset beyond the length.
- Futures.ChainComposes: value-carrying futures only, in atomic steps: locks, fences, the void specialisation and the blocking `get` are left out; a function given to `then` may return a value, a ready future or a future of a promise that is still to be set, but not a future that is itself a chain.
- Handles.Future.ForwardTo: the promise that takes over is a new object, where the source builds it in the place of the old one.
- Handles.Future.ThenLater: each object method is stated by itself; that a whole step of Futures, with its nest of continuations, is a composition of them is not proved.
- Crc.GetFileChecksum: the table is passed as an array of numbers below 2^32; reading the file is left out.
- Level and program checksums, the LCG and LFSR generators that nothing here uses, commands and help text, Discord, sockets, the registry, logging, and plug-ins: input and output, or easy members only.
