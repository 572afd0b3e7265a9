# Secure screen streaming: a verified model

The system streams a screen region over a local network. A client names itself
by an Ed25519 key, is let in by the operator (for good, or once), agrees on a
session key with the server, and from then on sends small signed heartbeats over
UDP; every client that is heard from gets each frame, encrypted under its session
key and cut into fragments. This project models the two halves of that and proves
what they are for:

* **The fragment protocol.** The server's broadcast (encryption with the sequence
  number as associated data, slicing, headers, sockets that raise in the middle of
  a frame), a network that may lose, repeat, reorder and invent packets, and the
  client's reassembler with its three limits and its evictions.
* **Authentication, sessions and heartbeats.** The server's queue of waiting
  devices, its challenges, sessions, nonce histories and rate limiters, the device
  registry, the table of streaming clients with its cleanup, the client's half of
  the handshake and its heartbeat printer, and the operator's routes.

## How the model is built

The source works by changing objects, and so do the classes here:
`Reassembler.FrameReassembler`, `RateLimits.RateLimiter` and `UdpRateLimiter`,
`AuthServer.DeviceRegistry` and `AuthService`, `StreamServer.StreamService`,
`ClientAuth.AuthService`, `Gateway.AuthSocket` and `Dashboard`. Every method states
its whole effect as a function of the old state, and the functions (in
`Reassembler`, `AuthModel`, `StreamModel`, `ClientAuth`, `Gateway`) are what the
theorems are about. `Server` puts the functions together as one state machine with
eighteen kinds of step; a run is any sequence of enabled steps in any order, and
beside the state it records what was drawn, disclosed and signed, the sessions
installed, the heartbeats accepted, the grants given and what the rate limiters let
through. `EndToEnd` is a second state machine, for the frames of one client among those
of all others; `LinkRefinement` joins the two: in every run of the server, an arbitrary
network and one receiver, its sender is what the streaming service does.

| file | what it holds |
|---|---|
| `Wire`, `Aead`, `Crypto`, `Sums`, `Wrappers` | bytes and packet layout, ideal cryptography, sums over maps |
| `Reassembler`, `Delivery`, `Buffering` | one packet; what becomes of one frame in any traffic; what a buffer holds and why it goes |
| `Fragmenter`, `EndToEnd`, `LinkRefinement` | slicing; safety from sender to output |
| `RateLimits` | the two sliding-window limiters |
| `AuthModel`, `AuthServer` | the authentication state, as functions and in place |
| `Heartbeat`, `StreamModel`, `StreamServer` | the datagram; the client table, as functions and in place |
| `ClientAuth`, `Gateway` | the client's handshake; sockets and routes |
| `Server` | the whole server as a state machine |
| `TrustState`, `Grants`, `KeyAgreement`, `Replay`, `Acceptance`, `Rates`, `ClientTable` | safety over its runs |
| `Requests`, `Sessions`, `Clients`, `Registry`, `Queue`, `Departures` | its state at any point of a run, as a function of what has happened: when a request, a session, an entry in the table or a record is there, and what it holds |
| `Exhibits` | runs that show where it falls short |

Assumptions about what is not modelled:

* Cryptography is ideal. The cipher is a log of what was sealed, and opening looks
  it up (section 5.2 of RFC 5116 gives the 16 bytes of expansion). A signature is a
  term of signer and message and cannot be made by anyone else. X25519 (section 6.1
  of RFC 7748), HKDF (section 2 of RFC 5869), HMAC (section 2 of RFC 2104) and the
  fingerprint are functions with the laws of `Crypto.Suite.Lawful`: fingerprints do
  not collide, the exchange commutes, and lengths are as they are. How a session key
  depends on the exchanged secret and the challenge is left open;
  `Crypto.LawfulSuiteExists` shows that the laws can be met by one that depends on
  both.
* Conditions on runs (`Server.Enabled`): the three rate limiters decide by their exact
  rule on what they have let through so far; a drawn challenge is new; nobody signs a
  message that begins with a challenge that has not left the server; a session's key
  is not by chance the key that another challenge led to (`Server.NewKeyApart`); and
  no heartbeat's tag is by chance right under the keys of two sessions
  (`Server.OneKeyFor`). `Exhibits` has whole runs that meet them.
* Clocks are whole milliseconds and do not go back; the runs have one, although the
  datagram limiter reads the monotonic clock. A call reads its clock once;
  where the source reads it again within one call, the reading is the same.
* Between two steps nothing else runs. The exception is blocking, which awaits in
  the middle: it is modelled in two halves, and what an interruption does is proved.
  A broadcast also yields between fragments; since its frame is sealed before the
  first of them, key changes, fresh entries and receipts in between give the same
  log and outputs as afterwards.

## Where the code and what one would expect of it differ

* `_pending` is not bounded by `MAX_PENDING`. `TrustState.PendingGrowsPastLimit`
  says exactly when a HELLO makes it grow at or above the limit: once past the rate
  limiters, that of a trusted device without a request always does, and that of an
  unknown one does when the queue's head is a stale name. `Exhibits.QueueOutgrowsLimit` is a run that gets to one more than the
  limit with nobody trusted: two HELLOs of one device and a rejection leave a stale
  name, and 101 other devices follow.
* A block that is interrupted by the device's next HELLO leaves a blocked device in
  the queue (`TrustState.BlockInterrupted`); the block is consistent exactly when
  the device is not pending at its second half (`TrustState.BlockCommitKeepsExactly`),
  and no other step of the server in between does any harm
  (`TrustState.BlockSurvivesInterruption`).
* Blocking does nothing to a device that is neither waiting nor trusted, such as one
  that was allowed once and is connected (`TrustState.BlockTakesEffectExactly`).
* Removing trust leaves an outstanding challenge usable
  (`TrustState.RemovedTrustExactly`).
* The signed message is a plain concatenation and the client checks no lengths, so
  it can be read in two ways (`KeyAgreement.BindingIsAmbiguous`); the keys agree
  exactly when the server key the client was given has 32 bytes, and otherwise the
  client has no key at all (`KeyAgreement.HandshakeAgrees`).
* A client that is let in while one of its PINGs is on its way takes the PONG for the
  answer to its signature and gives up, although the server has its session; if it was
  allowed once, the grant is lost (`Exhibits.LatePongLosesSession`). It connects if and
  only if the welcome comes right after the offer (`ClientAuth.AdmittedDeviceConnects`).
* The architecture document says that replays are rejected
  (PROJECT_ARCHITECTURE.md:241). The code remembers the last 512 nonces of a session,
  and an older heartbeat that is still in time is accepted again
  (`Acceptance.AcceptedExactlyWhen`). `Exhibits.HeartbeatAcceptedTwice` is a whole run in
  which that happens, with the datagram limiter's consent; it always takes 512 others
  in between (`Replay.AcceptedAtMostOnce`) and, since that limiter lets no more than
  200 through in a second, more than two seconds (`Rates.ReplayTakesTime`).
* The comment at server/backend/services/stream_service.py:74 gives the limit on
  fragments as about 5 793; the expression is 5 883. No frame that passes the size
  check reaches it (`Fragmenter.Transmission.CountFacts`).

## Model

The table lists the results, and of the methods those with loops, invariants or many
branches. The other methods of `AuthServer.AuthService` and `DeviceRegistry` (removing
a record or a session, refreshing, pushing, approving, allowing once, rejecting),
`Gateway.AuthSocket.Close` and the routes of `Gateway.Dashboard` are straight-line
code, each proved equal to the function of its name.

| member | source | states |
|---|---|---|
| Wire.DecodeEncode | WindowsClient/services/frame_reassembler.py:99-158 | Of all packets a sender can build, the receiver's checks accept exactly those with a known codec, an index below a nonzero count, a short enough nonce and a chunk of 1 to 2048 bytes, and read back every field |
| Wire.EncodeDecode | WindowsClient/services/frame_reassembler.py:104-158 | Every accepted packet is the encoding of what was read, so no two packets read alike |
| Wire.DecodesExactly | WindowsClient/services/frame_reassembler.py:99-158 | Byte by byte: a packet is taken if and only if its codec is 1 or 2, its index is below its count, its nonce of at most 256 bytes is there and 1 to 2048 bytes follow; and which bytes each field is |
| Reassembler.AdmitIsLargestSuffix | WindowsClient/services/frame_reassembler.py:164-180 | What survives the admission of a new frame is the largest suffix by sequence number for which the limits on frames, fragments and bytes plus the new chunk hold together |
| Reassembler.SurvivesExactly | WindowsClient/services/frame_reassembler.py:164-180 | A buffer survives the admission of a new frame if and only if the buffers from it on are fewer than 64, have fewer than 38 400 fragments, and leave room for the chunk in 8 MiB |
| Reassembler.CompleteHasAll | WindowsClient/services/frame_reassembler.py:208-216 | When the number of fragments reaches the count, the indices are exactly 0..n-1 and the join is total |
| Reassembler.ReceiveKeepsValid | WindowsClient/services/frame_reassembler.py:93-235 | Any bytes at all keep the invariant: at most 64 buffers, all newer than the last output, each with some but not all of its indices and a byte count that is the sum of its chunks; the last output moves exactly when a frame comes out, and only forward |
| Reassembler.OutputWasSealed | WindowsClient/services/frame_reassembler.py:212-228 | What comes out was sealed under the receiver's key with exactly its sequence number |
| Reassembler.FrameReassembler.TotalFragments | WindowsClient/services/frame_reassembler.py:73-74 | The sum over all buffers, in whatever order they are visited |
| Reassembler.FrameReassembler.TotalBytes | WindowsClient/services/frame_reassembler.py:76-77 | The sum of the byte counts |
| Reassembler.FrameReassembler.EvictOldestBuffer | WindowsClient/services/frame_reassembler.py:79-89 | Removes the smallest sequence number and nothing else |
| Reassembler.FrameReassembler.CleanupStaleBuffers | WindowsClient/services/frame_reassembler.py:237-253 | Leaves exactly the buffers no older than 1.5 s |
| Reassembler.FrameReassembler.MakeRoom | WindowsClient/services/frame_reassembler.py:165-180 | The three loops, each a method of its own (`LimitFrames`, `LimitFragments`, `LimitBytes`), end, and together leave exactly the survivors of admission |
| Reassembler.FrameReassembler.StoreFragment | WindowsClient/services/frame_reassembler.py:192-235 | Duplicate, mismatched count, one more, last one, and failed decryption: the specified next state and output of each |
| Reassembler.FrameReassembler.ProcessPacket | WindowsClient/services/frame_reassembler.py:93-235 | The object does exactly the specified step for any packet, and keeps the invariant |
| Buffering.HoldsFirstArrivals | WindowsClient/services/frame_reassembler.py:182-209 | In any run, a buffer has the clock reading, count, codec, flags and nonce of the packet that opened it, the first chunk that came for each index since, and the sum of their lengths |
| Buffering.LossCauses | WindowsClient/services/frame_reassembler.py:160-253 | In any traffic, a frame all of whose fragments arrive is handed out, unless at some call a newer one comes out first, or another is opened more than 1500 ms after this one was, or it and the newer ones leave no room for another (64 frames, 38 400 fragments, 8 MiB) |
| Buffering.DroppedExactly | WindowsClient/services/frame_reassembler.py:160-253 | At every call a buffer goes if and only if its last packet comes, or one of those causes holds |
| Buffering.SpoiledFrameStartsAnew | WindowsClient/services/frame_reassembler.py:211-233 | A complete frame that does not open leaves nothing of itself, so its genuine packets can still bring it |
| Delivery.AnySchedule | WindowsClient/services/frame_reassembler.py:192-235 | Fed any order and repetition of one frame's fragments, a receiver hands it out at the call that completes the indices and returns nothing at every other |
| Delivery.Run.Extends | WindowsClient/services/frame_reassembler.py:93-235 | No packet can bring a run of the receiver to a halt |
| Fragmenter.Transmission.CountFacts | server/backend/services/stream_service.py:438-462 | Every frame of at most 8 MiB has between 1 and MAX_FRAGS_PER_FRAME fragments, so the branch for more is dead |
| Fragmenter.Transmission.PieceFacts | server/backend/services/stream_service.py:465-477 | Every fragment can be packed and passes the client's checks; chunks are 1 to 1426 bytes, all but the last full |
| Fragmenter.Transmission.PacketDecodes | server/backend/services/stream_service.py:466-478 | The client reads every packet back as the fragment it was made from; packets have at most 1456 bytes |
| Fragmenter.Transmission.ChunksJoin | server/backend/services/stream_service.py:465-467 | The chunks joined by index are the ciphertext |
| Fragmenter.Transmission.SentBytesTotal | server/backend/services/stream_service.py:464-491 | A frame costs its ciphertext and 30 bytes a fragment |
| Fragmenter.ReassemblyInvertsFragmentation | server/backend/services/stream_service.py:446-479 | The server's packets of one frame, in any order with any repeats, give any receiver that has not begun or passed it the frame, codec and keyframe flag at the call with the last missing packet, and nothing at any other |
| EndToEnd.StreamingIsSafe | server/backend/services/stream_service.py:432-519 | Over any run of whole and broken-off broadcasts, frames for other clients, changes of key, fresh entries and arbitrary packets, outputs have strictly increasing sequence numbers and each is a frame encrypted under the client's key with that number |
| EndToEnd.FrameComesThrough | server/backend/services/stream_service.py:432-491 | A broadcast frame whose packets get to the client, in any order and with any repeats, is handed out with its number, codec and keyframe flag once they all were there, exactly once and nothing else, if the client holds the entry's key and has neither passed nor begun that number |
| LinkRefinement.RegistrationIsLinkStep | server/backend/services/stream_service.py:372-405 | Entering the table is, for that client's link, a change of key or a fresh entry; other devices' heartbeats and a full table are nothing |
| LinkRefinement.RoundIsLinkStep | server/backend/services/stream_service.py:432-519 | A client that stays in the table through a round made one broadcast step, and the packets that left are the first ones of that step's transmission |
| LinkRefinement.RoundCanGo | server/backend/services/stream_service.py:427-519 | Any round that the cipher allows for all clients is a step of the joint runs |
| LinkRefinement.PicturesReachAuthenticatedClients | server/backend/services/stream_service.py:427-526 | In every joint run of the server with all its clients, an arbitrary network and one receiver: outputs have strictly increasing numbers; each is a frame sealed, under the receiver's key with that number, for a client that had a session with that key; and if that is a session of a given name, it was sealed for that name and no one else |
| RateLimits.RateIsBounded | server/backend/services/auth_service.py:114-137 | In any interval as long as its window a limiter lets through at most its maximum per address |
| RateLimits.DecisionIsSound | server/backend/services/auth_service.py:120-128 | After popping what is too old, the bucket's length decides exactly as the full history of accepted requests would |
| RateLimits.MayForget | server/backend/services/stream_service.py:107-112 | Dropping buckets with nothing newer than one window, or two, leaves every later decision as it was |
| RateLimits.RateLimiter.Allow | server/backend/services/auth_service.py:120-128 | Lets through exactly when fewer than the maximum were let through within the window, and records only then |
| RateLimits.RateLimiter.Prune | server/backend/services/auth_service.py:130-137 | Changes nothing that later decisions rest on |
| RateLimits.UdpRateLimiter.Allow | server/backend/services/stream_service.py:98-113 | The same exact rule, with the limiter pruning itself |
| AuthServer.AuthService.IssueChallenge | server/backend/services/auth_service.py:306-346 | Refreshes a live request or files a new one, and signs challenge, client key and server key |
| AuthServer.AuthService.Queue | server/backend/services/auth_service.py:283-304 | Evicts the head of a full queue, which always exists, and appends the request |
| AuthServer.AuthService.HandleHello | server/backend/services/auth_service.py:235-304 | The specified step under the verdicts of the limiters' rule; the second limiter counts only devices that are neither blocked nor trusted; never an error of its own |
| AuthServer.AuthService.DropRequest | server/backend/services/auth_service.py:424-428 | Removes a request and one occurrence of its name, and keeps the queue covering |
| AuthServer.AuthService.VerifyChallenge | server/backend/services/auth_service.py:350-430 | Missing, expired, undecodable, badly signed, failed exchange, authenticated: the specified state and reply of each |
| AuthServer.AuthService.CheckAndAddNonce | server/backend/services/auth_service.py:165-172 | Takes a nonce exactly when the session is live and its bounded history lacks it |
| AuthServer.AuthService.CollectSessions | server/backend/services/auth_service.py:213-217 | The loop leaves exactly the live sessions |
| AuthServer.AuthService.CollectChallenges | server/backend/services/auth_service.py:219-231 | The loop, in whatever order it visits them, drops all expired requests and one occurrence of each name |
| AuthServer.AuthService.Collect | server/backend/services/auth_service.py:205-211 | One turn of the collector, with the limiters' histories as before |
| Heartbeat.ParseWrite | server/backend/services/stream_service.py:277-298 | Parsing a printed heartbeat, with anything after it, recovers name, time, nonce and tag, for every name of 1 to 128 letters, digits and colons that is not all colons |
| Heartbeat.WriteParse | server/backend/services/stream_service.py:270-303 | Whatever the parser accepts begins with the printing of what it read |
| Heartbeat.ParsesExactly | server/backend/services/stream_service.py:266-303 | Byte by byte: a datagram is taken if and only if a length of 1 to 128 is followed by so many digits, letters and colons, not all colons, and by 56 bytes more |
| Heartbeat.FieldsExactly | server/backend/services/stream_service.py:266-303 | And which bytes name, time, nonce and tag are |
| Heartbeat.NamesReadExactly | server/backend/services/stream_service.py:277-298 | Of all names in ASCII, the heartbeats that are read back are exactly those of 1 to 128 characters from 0-9, A-Z, a-z and the colon, one of them not a colon |
| Heartbeat.EveryDeviceIsRead | WindowsClient/services/auth_service.py:45-46 | Whatever a device's fingerprint, eight groups of four hexadecimal digits with colons in between, its heartbeat of 97 bytes is read back with a good tag |
| Heartbeat.ServerReadsClient | WindowsClient/services/heartbeat.py:11-30 | The server reads the client's datagram back and rebuilds exactly the message the client's tag was computed over |
| Heartbeat.OnlyDelaysCount | WindowsClient/services/auth_service.py:193-200 | Whatever constant the clocks differ by, the server's skew check passes exactly when reply delay plus heartbeat delay is within 30 s |
| StreamModel.BeatEffect | server/backend/services/stream_service.py:305-370 | A heartbeat touches only its own session, never moves a pin, and takes its nonce only after session, time, tag and address have passed |
| StreamServer.StreamService.Admit | server/backend/services/stream_service.py:347-370 | Pins the first address or compares with it, then takes the nonce |
| StreamServer.StreamService.Enter | server/backend/services/stream_service.py:372-405 | Refreshes an entry, or makes one if the table is not full |
| StreamServer.StreamService.OnHeartbeat | server/backend/services/stream_service.py:257-405 | The specified step on sessions and table for any datagram, under the verdict of the limiter's rule |
| StreamServer.StreamService.BuildPacket | server/backend/services/stream_service.py:466-477 | The bytes put together field by field are the transmission's packet |
| StreamServer.StreamService.SendFragments | server/backend/services/stream_service.py:446-486 | Puts on the wire the first packets of the transmission, all of them unless the socket raises, and counts the bytes |
| StreamServer.StreamService.SendFrame | server/backend/services/stream_service.py:432-519 | One client's turn: sent, failed or skipped, with its counters and the bytes; a frame that broke off keeps its number |
| StreamServer.StreamService.TakeTurns | server/backend/services/stream_service.py:429-519 | Every client's turn, in whatever order, and exactly those that failed five times in a row |
| StreamServer.StreamService.DropClients | server/backend/services/stream_service.py:521-526 | Drops the clients and their single-use sessions, in whatever order |
| StreamServer.StreamService.BroadcastRound | server/backend/services/stream_service.py:427-526 | The specified round on sessions and table, and every packet sent |
| StreamServer.StreamService.CleanupTick | server/backend/services/stream_service.py:541-558 | Removes exactly the clients not heard from for over 30 s, with their single-use sessions |
| ClientAuth.SignsOnlyWhatIsVouched | WindowsClient/services/auth_service.py:142-206 | The client signs only a binding with its own ephemeral key that the announced server key has signed; connected, it holds that handshake's key |
| ClientAuth.BothHoldTheKey | WindowsClient/services/auth_service.py:163-206 | In every run, when the client connects and a session was installed for what it signed, both hold the same key |
| ClientAuth.SignsExactly | WindowsClient/services/auth_service.py:142-206 | Of a challenge that comes at once or after any wait, the client signs challenge, its own key and the server's if and only if the terms are there, it trusts the announced server, and the announced key has signed the same; then what comes next decides the outcome; otherwise it fails for the first of these reasons |
| ClientAuth.TurnedAway | WindowsClient/services/auth_service.py:82-133 | A client that is turned away, at once or after any wait, fails for the reason given and has signed nothing |
| ClientAuth.OfferAnswered | WindowsClient/services/auth_service.py:142-206 | An offer answered in time makes a session exactly if the exchange succeeds, whatever the server sends next; the client connects, with that session's key, if and only if what comes next is the welcome, and gives up on anything else |
| ClientAuth.TrustedDeviceConnects | server/backend/services/auth_service.py:268-346 | The same for a trusted device from its HELLO on, also over an earlier request |
| ClientAuth.AdmittedDeviceConnects | WindowsClient/services/auth_service.py:82-189 | The same for a waiting device once it is approved or allowed, after any wait and before any rest; its session is single-use exactly if it was allowed once |
| Exhibits.LatePongLosesSession | WindowsClient/services/auth_service.py:91-96 | A PING still on its way when the operator lets the device in: the client takes the PONG for the answer and gives up, the server installs the session, and a device allowed once loses it with its grant |
| Exhibits.HelloWaits | server/backend/main.py:411-433 | The waiting device that this is about is what any HELLO answered `pending` leads to |
| ClientAuth.AuthService.AwaitOperator | WindowsClient/services/auth_service.py:102-133 | The loop finds the first message that ends the wait |
| ClientAuth.AuthService.Authenticate | WindowsClient/services/auth_service.py:37-210 | The whole handshake for any incoming messages; key and offset change only when the server has accepted |
| Gateway.MessageIsStep | server/backend/main.py:410-469 | Every message on a socket is a step of the state machine or touches nothing; the socket counts as authenticated exactly when a session was installed |
| Gateway.HelloIsFiled | server/backend/main.py:411-433 | A HELLO answered `pending` leaves a request with what it said and the socket's address and number, good for a minute, and a socket that waits for it |
| Gateway.SocketRemembers | server/backend/main.py:381-469 | Over any conversation, whatever other sockets do: a socket waits for a device exactly since it was last told to wait under that name and not welcomed since, and counts as authenticated as the last device welcomed on it |
| Gateway.AuthSocket.OnMessage | server/backend/main.py:381-469 | One turn of the dispatch loop on service and socket, for any message |
| TrustState.AlwaysSane | server/backend/services/auth_service.py:261-304 | In every run: pending devices are in the queue; none is both trusted and blocked; no blocked one has a request or a session |
| TrustState.HelloNeverFails | server/backend/services/auth_service.py:283-285 | At no point of any run does popping the head of a full queue raise |
| TrustState.BlockKeeps | server/backend/services/auth_service.py:531-568 | A block that is not interrupted keeps all that |
| TrustState.BlockCommitKeepsExactly | server/backend/services/auth_service.py:545-562 | Whatever came in between, a block ends consistent if and only if the device is not pending by then |
| TrustState.BlockSurvivesInterruption | server/backend/services/auth_service.py:545-562 | Whatever the server does between the two halves, other than take that device's HELLO, the block ends consistent |
| TrustState.BlockInterrupted | server/backend/services/auth_service.py:545-562 | That HELLO between its halves does break it |
| TrustState.BlockTakesEffectExactly | server/backend/services/auth_service.py:531-568 | A block takes effect exactly on a device that is waiting or trusted |
| TrustState.RemovedTrustExactly | server/backend/main.py:659-664 | After trust is removed a response still authenticates exactly when an unexpired request with usable keys is left, and the session is then not single-use unless the device was also allowed once |
| TrustState.PendingGrowsPastLimit | server/backend/services/auth_service.py:235-321 | At or above the limit a HELLO makes the pending devices more if and only if it passes the first limiter with a client key, its device is neither blocked nor pending, and is trusted or passes the second limiter and finds a stale name at the head |
| Exhibits.StaleNameStays | server/backend/services/auth_service.py:296-297 | A run in which two HELLOs and a rejection leave a stale name at the head of the queue |
| Exhibits.QueueOutgrowsLimit | server/backend/services/auth_service.py:283-297 | A run from the start, under both limiters' own verdicts, that ends with one more pending device than the limit, nobody ever trusted |
| Grants.NoSessionWithoutGrant | server/backend/services/auth_service.py:350-430 | In every run a device that is never trusted gets at most as many sessions, with one more if a grant is still open, as it was allowed once; every one was granted first and is single-use |
| Grants.AlwaysSecret | server/backend/services/auth_service.py:57-82 | In every run a challenge belongs to one request or one session, and nobody has signed one that has not left the server |
| Grants.AnsweredWasDisclosed | server/backend/services/auth_service.py:381-394 | A response that stands answers a challenge that had left the server |
| KeyAgreement.BindingParses | server/backend/services/auth_service.py:385 | Two signed messages with the known lengths are equal part by part exactly when the client's server key has 32 bytes |
| KeyAgreement.BindingIsAmbiguous | WindowsClient/services/auth_service.py:164 | Without that length one message reads in two ways |
| KeyAgreement.HandshakeAgrees | WindowsClient/services/auth_service.py:202-204 | For a handshake signed for a session, the client's key is the session's exactly when the server key had 32 bytes, and otherwise there is none |
| KeyAgreement.KeysAgree | server/backend/services/auth_service.py:381-412 | In every run a session of the honest client's name was signed for by one of its handshakes, and every such handshake derives that session's key or no key at all |
| Replay.AcceptedAtMostOnce | server/backend/services/auth_service.py:165-172 | In every run, across re-authentications, a heartbeat accepted twice was so by one session, within twice the skew, with at least 512 nonces taken in between |
| Acceptance.AcceptedExactlyWhen | server/backend/services/stream_service.py:257-370 | At any point of any run a datagram with a heartbeat, whatever follows it, is accepted if and only if the limiter lets it through; an answer of its device installed a session at most half an hour ago and nothing has ended it; its time is right to 30 s and its tag under that session's key; every other heartbeat accepted under the key came from the same address; and its nonce is none of the last 512 accepted under the key |
| Acceptance.VerdictExactly | server/backend/services/stream_service.py:257-405 | For any bytes, the verdict is the first reason that applies, in the source's order |
| Exhibits.ReplayIsAccepted | server/backend/services/auth_service.py:165-172 | Any run with a session that lives a few seconds more goes on to one in which a heartbeat, then 512 others six milliseconds apart, and then the first again are all let through by the limiter and accepted |
| Exhibits.HeartbeatAcceptedTwice | server/backend/services/auth_service.py:108 | A whole run, from the start over HELLO, signature and response, in which the session's first heartbeat is accepted again three seconds later |
| Rates.ReplayTakesTime | server/backend/services/stream_service.py:98-113 | In every run a heartbeat that is accepted twice is so more than two seconds apart, as the datagram limiter lets the nonces in between through no faster |
| Rates.LimitsHold | server/backend/services/auth_service.py:114-137 | In every run, of one address at most ten HELLOs and five new names pass in any minute and 200 datagrams in any second |
| Rates.TurnedAwayExactly | server/backend/services/auth_service.py:120-128 | In every run a HELLO, a new name or a datagram is let through if and only if fewer than ten, five or 200 steps of its address were in the last minute or second |
| Replay.NoSharedKeys | server/backend/services/auth_service.py:396-412 | In no run do two sessions ever installed have the same key: no challenge is ever used for two of them, and that different challenges do not lead to one key is the condition `Server.NewKeyApart` on runs |
| ClientTable.TableIsKept | server/backend/services/stream_service.py:347-405 | In every run: at most 16 clients, sequence number equal to frames sent, fewer than five errors in a row, and a client with its session's key has the session's pinned address |
| ClientTable.PinNeverMoves | server/backend/services/stream_service.py:352-363 | In every run, whenever the device later has a session with the same key, its pinned address is the same |
| ClientTable.StreamingNeedsAuthentication | server/backend/services/stream_service.py:372-405 | Whoever is in the table has authenticated under that name and key no longer ago than a session's lifetime, the client timeout and the gap between ticks |
| ClientTable.RevocationTakesEffect | server/backend/services/stream_service.py:305-311 | A device without a session that is not authenticated again is out of the table after the client timeout and the gap between ticks |
| Requests.AnsweredExactly | server/backend/services/auth_service.py:350-430 | An answer makes a session if and only if it comes by the deadline and is the device's own signature over challenge, client key and server key of usable length; the session is the request's, for half an hour; a late answer costs the request, a wrong one nothing |
| Requests.WaitsExactly | server/backend/services/auth_service.py:235-430 | In every run a device is waiting if and only if some HELLO opened a request for it and nothing that ends one (an answer that counts or is late, a rejection, a block, collection after its deadline, eviction from the head of a full queue) has come since |
| Requests.RequestKnown | server/backend/services/auth_service.py:57-82 | In every run a request holds what the HELLO that opened it said, the challenge, keys and socket of the device's last HELLO, a deadline one minute after its last HELLO or PING, and a grant exactly if the operator gave one since |
| Requests.InstalledInTime | server/backend/services/auth_service.py:358-368 | In every run every session is installed at most 60 000 ms after a HELLO or PING of its device |
| Sessions.HeardExactly | server/backend/services/auth_service.py:572-580 | In every run a device is heard at a time if and only if an answer of its installed a session at most 1 800 000 ms before, and nothing that ends one has come since: the operator's word, its age, another answer, or, for one use, its socket or its place in the table |
| Sessions.SessionKnown | server/backend/services/auth_service.py:88-112 | In every run a session has the key, device name, address, socket and grant of the request that was answered |
| Sessions.DeparturesExactly | server/backend/services/stream_service.py:521-558 | After a cleanup tick or a round, a name that left the table has no single-use session, and every other session is as it was |
| Departures.OutUntilAllowedAgain | server/backend/services/auth_service.py:591-595 | In every run a never trusted device that is dropped from the table, with no other grant open, has no session and is out of the table until the operator allows it once more |
| Clients.StreamsExactly | server/backend/services/stream_service.py:372-405 | In every run a client is in the table if and only if an accepted heartbeat entered it, with fewer than 16 there, and neither disconnection nor over 30 s of silence at a tick nor a fifth failure in a round has come since |
| Clients.EntryKnown | server/backend/services/stream_service.py:385-405 | In every run an entry has address and port of the last heartbeat accepted for it and that session's key, counts the frames sent since it was made, and its errors are the failed turns since the last frame sent |
| Clients.RoundDropsExactly | server/backend/services/stream_service.py:488-526 | In every run a round drops a client if and only if, with this round, the last five turns since it entered in which a frame was tried all failed |
| Registry.LastWordDecides | server/backend/services/auth_service.py:261-304 | In every run the operator's last word on a device decides the answer to its HELLO: after a block it is told so; after an approval, or trust given to a blocked device, it gets a fresh challenge; after trust or a block is removed it waits |
| Registry.AnsweredByStanding | server/backend/services/auth_service.py:235-346 | Every HELLO is answered by limiter, key and standing, and an offer has the fresh challenge, the server's public key and its signature over challenge, client key and server key |
| Registry.DisclosedExactly | server/backend/services/auth_service.py:462-500 | The challenges that leave the server in a step are the fresh one for a trusted device's HELLO, and that of a device just let in whose socket is known and whose time is not over |
| Registry.TrustRecorded | server/backend/services/device_registry.py:104-131 | An approval records the device as its HELLO introduced it, trust given to a blocked one as the block recorded it; a record that was there keeps its statistics |
| Registry.BlockRecorded | server/backend/services/auth_service.py:531-562 | A block records the device as its HELLO introduced it, or else as it was trusted |
| Registry.BlockedAndBack | server/backend/main.py:700-711 | Blocking a trusted device and trusting it again brings back who it is, but not its statistics |
| Registry.ConnectionsCounted | server/backend/services/auth_service.py:414 | In every run, as long as a device stays trusted its record keeps the time of its first approval and counts exactly the sessions installed for it |
| Queue.QueueExactly | server/backend/services/auth_service.py:219-428 | What every step does to the queue of names |
| Queue.FirstIsRemoved | server/backend/services/auth_service.py:424-428 | Removing a name takes its first occurrence and nothing else |
| Queue.InOrderOfArrival | server/backend/services/auth_service.py:283-297 | In every run the names in the queue are those of HELLOs at later and later steps, so an eviction takes the one that has been there longest |
| StreamServer.TurnsExactly | server/backend/services/stream_service.py:436-519 | A turn sends every packet and counts their bytes exactly when the number fits in eight bytes, the frame has at most 8 MiB and the socket takes all; a larger frame is passed over; otherwise the turn has failed, with the packets before that on the wire |
| Exhibits.GrantIsUsed | server/backend/services/auth_service.py:452-460 | A run from a start at which nobody is trusted, in which a device is allowed once, answers, and has its one session: the bound on sessions is met |

## Left out

- Requests, sessions and clients are values in maps, not shared objects: a round of broadcast that keeps a reference to an entry which is dropped and made anew in its middle is not modelled.
- Interleaving inside one broadcast round, where the loop yields every 32 fragments: a round on the table is one step (see the assumptions above for the link of one client).
- The cap on authentication sockets, which is checked before an await and counted after it.
- HTTP, WebSocket and UDP sockets, timeouts of an idle socket, JSON, base64 (a public key that cannot be decoded raises after the first limiter was asked), PEM and key files.
- The limits that environment variables may change are fixed at their defaults, and the server's keys are taken to be set.
- Registry records as files: the mapping of names to file names, corrupted files, failed writes, listings, and the recent and rejected logs with their pruning.
- Names outside ASCII in the client's printer; the server accepts none, and fingerprints are hexadecimal.
- The client's trust store is a yes-or-no answer to the announced name. It is not tied to the server's key, so no identity of the server is claimed beyond the announced key.
- Codec tag and keyframe flag are not authenticated by the cipher; they are claimed for genuine packets only.
- Total buffered bytes are limited only when a new frame is admitted, as in the source; no bound is claimed in between.
- Screen capture, encoding, rendering, the web dashboard, its tokens, logging and statistics other than the bytes sent: input, output or display.
- Liveness of the network: a frame whose fragments do not all arrive is never promised.
