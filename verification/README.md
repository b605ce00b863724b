# A verified model of a BitTorrent peer

The project models the peer of this repository, which follows BEP 3 ("The BitTorrent Protocol Specification"), from
the bytes on the wire to the bytes on disk, and proves what the parts promise over every input and every run.

| part | modules | what is proved |
|---|---|---|
| wire codec | `Messages`, `WireForms`, `Codec`, `Framing` | the layout of every message byte by byte, and exactly which buffers decode to which message; round trip of a message and of a stream, if and only if the message is safe; independence of how the stream is split, if and only if the split is clean |
| torrent builder | `Builder`, `Layout` | hashing files one after the other refines cutting their concatenation; the blocks of all pieces tile the content |
| download scheduler | `Blocks`, `Bags`, `PieceBuffers`, `PieceHandlers`, `Downloads`, `Selections`, `Responses`, `Seeders`, `LostBlocks` | exactly what every poll and every response does; that one peer with the missing pieces is enough for the download to finish; block conservation, reassembly, request eligibility and completion over all runs, with the exact condition under which a step keeps the invariant, and what happens for good when it does not |
| torrent pool | `Pools`, `PoolRuns`, `PoolAnswers` | the answer and the effect of every call over all runs; fresh identifiers, one torrent per peer, scans independent of map order, the seeding ledger |
| connection handler | `Substreams`, `Handlers`, `Connections`, `Visits`, `Outcomes`, `Waiting`, `Conversations` | what every poll reports and what every command sends, over all runs; a request and its answer between two handlers, through the wire; the `swap_remove` sweep, one outcome per request, alternation of requests and replies, termination, and exactly which substreams wait for good |
| disk transfers | `DiskFiles`, `Windows`, `DiskJobs`, `Transfers` | exactly when a block gets the right windows, and when a write or a read in several steps puts or gets the right bytes |
| disk manager | `DiskManagers`, `DiskRuns`, `Provenance`, `DiskPanics`, `Exclusivity`, `Evictions`, `Tracks`, `WrittenLog`, `DiskHistories`, `WholeWrites`, `DiskAnswers`, `DiskService`, `DiskStory` | exactly when a request is refused, put off, started, answered, and with what; one answer per request, verified writes in every run, exact panics, exclusive file handles, read after write over all interleavings |
| all of them | `Swarm`, `OwnedBits`, `Peers`, `Completion` | a torrent completes from one honest seeder, and every piece passes the hash check; a piece assembled from genuine blocks is the chunk the builder hashed; a peer that writes what its schedulers report never panics in its disk manager, and what it reads back is the content and reaches the next peer unchanged |

`Collections` holds the sequence and multiset lemmas the parts share.

## How the model is built

State that the source changes in place is a class with the source's fields (`BytesMut`, `PeerWireCodec`, `PieceBuffer`,
`TorrentPieceHandler`, `TorrentPool`, `BitTorrentHandler`, `BlockFileWrite`, `BlockFileRead`, `DiskManager`). Each
method is proved against a function on the value of those fields, and the lemmas about runs use that function. A run
is a sequence of events; the environment (which peer is next in a hash map, what a stream or a file system answers,
which files open) is part of the event, so a statement over all runs is a statement over every behaviour of the
environment. A panic of the source is a value of the model; where a theorem is about runs without one, the exact
conditions of a panic are proved beside it (`DiskPanics.NoCrashExact`, `Connections.PortFreeRuns`).

Files are byte strings with a cursor per handle. A transfer may be pending, fail, or move any number of bytes. The
piece hash is an arbitrary function; where the absence of a collision matters, it is a hypothesis about one chunk
(`Swarm.CollisionFree`).

## Where the code falls short of its intent

The model follows the code. Where a property that the code is meant to have is false, an input that shows it, or the
exact condition under which it holds, is proved.

- A bit field message carries its length in bits, unlike BEP 3, which counts bytes; with 0 or 4 bits it is taken for
  another message (`Codec.RoundTrip`). A length prefix that starts with byte 19 is taken for a handshake.
- With just the four length bytes of most messages in the buffer the decoder reads a fifth and panics
  (`Framing.StrictPrefix`, `Framing.ChunkingIndependence`, `Framing.EncodedSplitExact`).
- `len` of a Port message is two more than its wire form (`Messages.LenIsExact`).
- A second UnChoke of a peer with a request outstanding loses a block, and so does a new handshake of a tracked peer
  once it unchokes again; from then on the handler never reports a piece (`LostBlocks.SecondUnchokeLosesABlock`,
  `LostBlocks.HandshakeLosesABlock`, `LostBlocks.StalledForGood`; `Downloads.StepExact` has the exact condition).
- A piece is only selected when every tracked peer can seed it, so rarest-first is the same as first-in-order
  (`Downloads.RarestDegenerates`).
- The limit on active torrents is reported but not kept (`PoolRuns.ActiveLimitExact`).
- A pending seed request outlives its peer, and blocks it when it comes back (`PoolRuns.StaleRequest`).
- An inbound substream that received a message waits for a command that names its identifier, but only a handshake, a
  bit field, a request or a cancel tells the user that identifier. One that has only ever received a Choke, a Have and
  so on waits for good, and no other does (`Waiting.ToldInRunExact`, `Waiting.WaitsForGoodExact`).
- `files_for_block` gives a block of the content the right windows if and only if one file holds the whole block
  (`Windows.WindowsRightExact`). A block past the end of a single file is not refused (`DiskFiles.WindowPastTheEnd`),
  and its window can even look right (`Windows.PastTheEndLooksRight`); jobs that span files always fail
  (`DiskJobs.OverlapAlwaysFails`) or panic (`DiskPanics.StartPanicExact`).
- A short first transfer after a seek makes the next poll seek again: a write then puts the rest of the block in the
  wrong place (`Transfers.ShortWriteMisplaces`, `Transfers.WriteExact`), and a read delivers the start of its window twice
  (`Transfers.ShortReadRepeats`, `Transfers.ReadExact`).
- The result of the seek of a read is not looked at, so a block can be delivered from somewhere else
  (`Transfers.FailedSeekReadsElsewhere`).
- Opening one more file than the cache holds can push out the mark of a file in use (`Exclusivity.EvictionExact`). The
  next request for that file then gets a second handle on it (`Evictions.LostMarkShares`), as in a run of three reads
  from a new manager (`Evictions.TwoJobsOneFile`).
- The owned bit is set at assembly, before the hash check, so it does not mean that the piece is verified
  (`OwnedBits.SetBitIsNotVerified`); `Swarm.AssembledPieceIsAccepted` says exactly which assembled pieces pass.

## Model

| member | source | states |
|---|---|---|
| `Messages.LenIsExact` | src/proto/message.rs:84-110 | the reserved length is never too short, and is exact if and only if the message is not Port |
| `Messages.AsBytes` | src/proto/message.rs:112-183 | the step-by-step writer produces the wire form field by field, with the length prefix cut to 32 bits |
| `Messages.U32RoundTrip` | src/proto/codec.rs:64 | reading four big-endian bytes undoes writing them, and the first byte is the number divided by 2^24 |
| `Messages.BitsRoundTrip` | src/proto/codec.rs:130-132 | packing bits into bytes and truncating the unpacked bits gives the bits back |
| `WireForms.EncodeSpells` | src/proto/message.rs:112-183 | every message whose length fits its prefix is written as BEP 3 spells it: lengths, identifiers, numbers, bits and the text "BitTorrent protocol" at their positions, and no byte more |
| `WireForms.DecodeExact` | src/proto/codec.rs:37-188 | for every buffer: the decoder yields a message and leaves the rest if and only if the bytes at the front spell that message and leave no other choice |
| `WireForms.RejectExact` | src/proto/codec.rs:47-185 | the decoder rejects a buffer if and only if it starts like a handshake of another protocol, or is a whole frame with an identifier that does not exist for its length |
| `WireForms.DecodePanicExact` | src/proto/codec.rs:106-184 | the decoder panics if and only if it has just the four length bytes of a message whose length is not 0, 1 or 5, or a whole frame that is too short for the fields of its identifier |
| `Codec.PeerWireCodec.Decode` | src/proto/codec.rs:37-188 | result and remaining buffer are those of the decoding function, for every buffer, errors and panics included |
| `Codec.PeerWireCodec.DecodeLength1` | src/proto/codec.rs:69-88 | the four state messages, an error for another id, nothing consumed when the id is missing |
| `Codec.PeerWireCodec.DecodeGeneric` | src/proto/codec.rs:106-185 | the arm for all other lengths, with its early read of the id byte |
| `Codec.PeerWireCodec.ParsePayload` | src/proto/codec.rs:143-184 | request, piece, cancel and port payloads, and the panic on a payload that is too short |
| `Codec.PeerWireCodec.EncodeTo` | src/proto/codec.rs:195-200 | appends the wire form to whatever the buffer holds |
| `Codec.RoundTrip` | src/proto/codec.rs:37-200 | decoding the wire form followed by any bytes yields the message and leaves exactly those bytes, if and only if the message is wire safe |
| `Codec.BitfieldRoundTrip` | src/proto/codec.rs:107-135 | a bit field survives if and only if it has neither 0 nor 4 bits and its length prefix is safe |
| `Codec.PieceRoundTrip` | src/proto/codec.rs:154-163 | a piece message survives if and only if its length prefix fits 32 bits and does not start with 19 |
| `Codec.HandshakeRoundTrip` | src/proto/codec.rs:41-61 | every handshake survives |
| `Framing.StreamRoundTrip` | src/proto/codec.rs:37-200 | any sequence of wire-safe messages is read back in order and reading goes on with exactly the trailing bytes |
| `Framing.EncodeAllInjective` | src/proto/message.rs:112-183 | different sequences of wire-safe messages have different encodings |
| `Framing.Consumption` | src/proto/codec.rs:38-46 | asking for more bytes consumes nothing, yielding a message consumes something |
| `Framing.DecodeExtends` | src/proto/codec.rs:37-188 | a decided result stays the same when more bytes are behind it, and those bytes are left alone |
| `Framing.FeedRefinesWhole` | src/proto/codec.rs:37-188 | feeding a further chunk gives what decoding the whole buffer gives |
| `Framing.BarePrefixDiffers` | src/proto/codec.rs:106-107 | stopping right after the length prefix of a generic message changes the outcome for good |
| `Framing.ChunkingIndependence` | src/proto/codec.rs:38-46 | any split of any byte stream yields the same messages, outcome and leftover as one buffer if and only if no chunk but the last leaves, behind whole messages, exactly four bytes that do not start with 19 and spell a length other than 0, 1 and 5 |
| `Framing.StallExact` | src/proto/codec.rs:106-107 | the reader stalls on a buffer if and only if what is left behind its whole messages is such a bare prefix |
| `Framing.EncodedSplitExact` | src/proto/codec.rs:106-141 | a split of an encoded stream is clean if and only if no chunk ends four bytes into a bit field, request, cancel, piece or port message |
| `Framing.StrictPrefix` | src/proto/codec.rs:69-141 | a strict prefix of an encoded message yields nothing and stays in the buffer, except that four bytes of a generic message panic |
| `Builder.ReadFile` | src/torrent/builder.rs:289-353 | however files before it ended, the hashes and the overlap after the file cover everything read so far, in order, in whole pieces and one open piece |
| `Builder.CutPieces` | src/torrent/builder.rs:334-350 | the loop covers the rest of a file in whole pieces and at most one open one |
| `Builder.ReadDir` | src/torrent/builder.rs:226-246 | for any list of files the hashes are those of the chunks of the concatenation |
| `Builder.ReadSingle` | src/torrent/builder.rs:253-265 | the same for a single file |
| `Builder.CoverIsChunks` | src/torrent/builder.rs:242-245 | whole pieces and an open one cover a content in exactly one way, the reference cut |
| `Builder.ChunksAreTheContent` | src/torrent/builder.rs:334-350 | the chunks put together are the content |
| `Builder.ChunkAt` | src/torrent/builder.rs:334-350 | chunk i starts at i times the piece length, only the last may be short, and there is one for every start inside the content |
| `Layout.PieceCountIsCeiling` | src/torrent/builder.rs:334-350 | the number of hashes is the ceiling of content length over piece length |
| `Layout.PieceLengths` | src/torrent/mod.rs:278-280 | the length the scheduler uses for a piece is the length of the chunk that was hashed; the last is neither empty nor too long |
| `Layout.ExactTiling` | src/peer/piece.rs:570-606 | the blocks of all pieces, placed in the content, cover each byte of it exactly once and nothing outside |
| `Layout.BlockInside` | src/peer/piece.rs:445-451 | a block ends inside its piece and inside the content |
| `Blocks.BlockWireRoundTrip` | src/disk/block.rs:123-140 | a block survives the conversion to a piece message and back if and only if its position fits 32 bits and its length is the one it claims |
| `Blocks.RequestWireRoundTrip` | src/disk/block.rs:55-73 | a request survives the conversion to a message and back if and only if its three numbers fit 32 bits, and the piece message for a block names the same piece and place as the request for it |
| `Blocks.PartitionEndToEnd` | src/peer/piece.rs:570-593 | the blocks of a piece lie end to end from 0 to the piece length, none empty, none over 16384 bytes |
| `Blocks.BlockSizes` | src/peer/piece.rs:570-593 | every block has 16384 bytes, except a last one that is shorter |
| `Blocks.PartitionDistinct` | src/peer/piece.rs:570-593 | no two blocks of a piece share an offset |
| `PieceBuffers.PieceBuffer.constructor` | src/peer/piece.rs:570-606 | the loop builds the partition of the piece, nothing requested, nothing received |
| `PieceBuffers.PieceBuffer.Next` | src/peer/piece.rs:483-497 | refines the hand-out of the last missing block to the last idle peer |
| `PieceBuffers.PieceBuffer.RemovePeer` | src/peer/piece.rs:502-513 | refines dropping an idle peer, or taking back the block of a busy one |
| `PieceBuffers.PieceBuffer.AddBlock` | src/peer/piece.rs:524-548 | refines accepting, refusing as invalid, or refusing as not requested |
| `PieceBuffers.PieceBuffer.TryFinalizePiece` | src/peer/piece.rs:551-567 | the loop over the ordered map yields the assembly of the received blocks, or an error for a wrong length |
| `PieceBuffers.NewConserves` | src/peer/piece.rs:570-606 | a new buffer is balanced |
| `PieceBuffers.NextConserves` | src/peer/piece.rs:483-497 | handing out a block keeps missing plus requested plus received equal to the partition, and the idle peers distinct and not busy |
| `PieceBuffers.RemovePeerConserves` | src/peer/piece.rs:502-513 | taking a peer out keeps the balance, forgets that peer and no other |
| `PieceBuffers.AddBlockConserves` | src/peer/piece.rs:524-548 | a response, right or wrong, keeps the balance and the set of known peers |
| `PieceBuffers.PendingNotReceived` | src/peer/piece.rs:525-531 | a block that is still requested is in the partition and not among the received ones |
| `PieceBuffers.AddBlockKeepsReceived` | src/peer/piece.rs:524-548 | a received block is never replaced |
| `PieceBuffers.FullMeansReceived` | src/peer/piece.rs:517-519 | counting blocks is enough: the count is reached if and only if nothing is missing or requested |
| `PieceBuffers.Reassembly` | src/peer/piece.rs:517-567 | a full buffer finalises if and only if all received blocks have their claimed length; the piece then has exactly its length and each block at its offset |
| `PieceHandlers.TorrentPieceHandler.constructor` | src/peer/piece.rs:60-80 | the handler starts without buffer, peers and seed requests, and finished if nothing is missing |
| `PieceHandlers.TorrentPieceHandler.Poll` | src/peer/piece.rs:237-271 | refines the poll function for every shuffle and every map order, the buffer included |
| `PieceHandlers.TorrentPieceHandler.SetChokeOnRemote` | src/peer/piece.rs:123-142 | refines choke and unchoke of a tracked peer, and does nothing for another |
| `PieceHandlers.TorrentPieceHandler.InsertPeer` | src/peer/piece.rs:83-93 | refines tracking a peer, who joins the buffer if new and able to seed the current piece |
| `PieceHandlers.TorrentPieceHandler.RemovePeer` | src/peer/piece.rs:161-169 | refines untracking a peer and taking its block back |
| `PieceHandlers.TorrentPieceHandler.AddBlock` | src/peer/piece.rs:325-333 | refines a block response, refused without a buffer |
| `PieceHandlers.TorrentPieceHandler.CandidatePeers` | src/peer/piece.rs:353-363 | collecting yields all tracked peers if every one of them has a bit field with the bit of the piece, interests us and has us unchoked, and nothing otherwise |
| `PieceHandlers.TorrentPieceHandler.NextRandomPiece` | src/peer/piece.rs:347-375 | a new buffer for the first piece of the shuffle that all peers can seed |
| `PieceHandlers.TorrentPieceHandler.NextLeastCommonPiece` | src/peer/piece.rs:378-435 | the loop with its best candidate refines the rarest-piece function |
| `Downloads.RarestDegenerates` | src/peer/piece.rs:378-435 | rarest-first selects exactly what taking the first seedable piece of the shuffle selects, if and only if a peer is tracked or no piece is missing |
| `Downloads.StepExact` | src/peer/piece.rs:83-169 | one event keeps the invariant of the scheduler if and only if it does not list a peer twice, choke a peer behind the buffer's back or acknowledge the piece in progress |
| `Downloads.InvariantOverRuns` | src/peer/piece.rs:123-169 | every admissible run keeps the invariant |
| `Downloads.BlockConservation` | src/peer/piece.rs:483-548 | in every admissible run from a new handler missing, requested and received blocks are exactly the partition of the current piece, and the buffer counts as full exactly when nothing is missing or requested |
| `Downloads.RequestEligibility` | src/peer/piece.rs:483-497 | in every admissible run a request goes to a tracked peer that has us unchoked and has nothing outstanding, for a block of the current piece; that the peer has the piece is `Selections.RequestsGoToOwners` |
| `Selections.SelectionExact` | src/peer/piece.rs:347-435 | a piece is selected if and only if every tracked peer has its bit set, interests us and has us unchoked; it is the first such piece of the shuffle, and exactly the tracked peers are listed for it |
| `Selections.PollsOverRuns` | src/peer/piece.rs:237-271 | in every admissible run every poll answers what it should: the piece when no block is missing or outstanding, a request if a block is missing and a peer idle, WaitingPeers if and only if each missing piece is not offered by some tracked peer (Rarest: or nobody is tracked), Finished when nothing is missing, Seed after that |
| `Selections.PeersOverRuns` | src/peer/piece.rs:83-169 | in every admissible run every event leaves exactly the right records, and the buffer considers exactly the right peers: one joins when it unchokes us, or is new, and offers the piece, and leaves when it chokes us or goes |
| `Selections.StepOffers` | src/peer/piece.rs:123-169 | one event keeps "every listed peer offers the piece" if and only if it does not replace the record of a listed peer by one that no longer does |
| `Selections.RequestsGoToOwners` | src/peer/piece.rs:483-497 | hence, in every run of such events, a block is only asked of a peer that has its piece, interests us and has us unchoked at that moment |
| `Responses.ResponsesOverRuns` | src/peer/piece.rs:524-548 | in every admissible run a block is accepted if and only if it was asked of that peer and has not come yet; it is then filed with its data, a wrong one puts the block asked for back, anything else changes nothing |
| `Responses.RequestedIsAccepted` | src/peer/piece.rs:483-548 | a block that was asked of a peer is accepted when the peer sends it, whatever happens in between, unless the peer sends something else, chokes us or goes |
| `Downloads.HeldWasDelivered` | src/peer/piece.rs:524-533 | everything in the buffer was delivered and accepted earlier in the run |
| `Downloads.ReassemblyOverRuns` | src/peer/piece.rs:237-247 | a reported piece has exactly its length and index, and at the place of each block it holds a block delivered and accepted for that place, whatever the order and the peers |
| `Downloads.StepProgress` | src/peer/piece.rs:237-271 | a step sets at most one bit, exactly when it reports a piece; Finished only with nothing missing; a finished handler only says Seed |
| `Downloads.ProgressOverRuns` | src/peer/piece.rs:237-271 | over a run, missing bits plus reported pieces stay constant, and Finished is counted by the flag |
| `Downloads.DownloadCompletion` | src/peer/piece.rs:237-271 | from k missing bits, Finished comes at most once, after exactly k pieces, wherever in the run; later polls say Seed; and reported pieces are pairwise different |
| `Seeders.OneSeederSuffices` | src/peer/piece.rs:237-271 | for any new handler with pieces missing and any peer that has them and answers with blocks of the right length, there is an admissible run of polls and answers that ends with Finished and reports each missing piece |
| `LostBlocks.SecondUnchokeLosesABlock` | src/peer/piece.rs:131-133 | an UnChoke of a peer with a request outstanding, followed by one poll while blocks are missing, loses a block |
| `LostBlocks.HandshakeLosesABlock` | src/peer/torrent.rs:257-261 | so do a new handshake of a tracked, busy peer, its bit field and interest, its UnChoke and one poll |
| `LostBlocks.StalledForGood` | src/peer/piece.rs:483-548 | once a block is lost, no continuation whatsoever makes the handler report a piece or Finished |
| `LostBlocks.OpeningReachesIt` | src/peer/piece.rs:237-271 | a new handler gets, by four admissible events, to a state in which a second UnChoke loses a block |
| `LostBlocks.OneUnchokeTooMany` | src/peer/piece.rs:123-142 | six events from a new handler suffice to stall its download for good |
| `Pools.TorrentPool.AddTorrent` | src/peer/torrent.rs:97-140 | refines adding a torrent under the next id: refused for a known info hash, the requested state stored, the limited state returned |
| `Pools.TorrentPool.OnHandshakeRequest` | src/peer/torrent.rs:228-244 | refines a handshake request: invalid for a peer that is associated, mismatch for an unknown hash, otherwise the peer is tracked (`PoolAnswers.HandshakeRequestExact`) |
| `Pools.TorrentPool.OnHandshakeResponse` | src/peer/torrent.rs:251-266 | refines a handshake response, which does not ask whether the peer is associated |
| `Pools.TorrentPool.RemovePeer` | src/peer/torrent.rs:440-447 | the scan removes the peer from the first torrent that tracks it |
| `Pools.TorrentPool.OnChokeByRemote` | src/peer/torrent.rs:268-279 | the scan chokes or unchokes in the first torrent that tracks the peer |
| `Pools.TorrentPool.OnPieceRequest` | src/peer/torrent.rs:329-344 | the scan files the request with the first torrent that can seed the piece to the peer (`PoolRuns.RequestExact`) |
| `Pools.TorrentPool.OnCancelRequest` | src/peer/torrent.rs:362-372 | the scan removes the first request with the id |
| `Pools.TorrentPool.OnBlockRead` | src/peer/torrent.rs:374-385 | the first request of the torrent for exactly that block is taken out and returned |
| `PoolAnswers.HandshakeRequestExact` | src/peer/torrent.rs:228-244 | Welcome if and only if no torrent tracks the peer and one has the hash; then exactly that one tracks it, without bit field, choked and not interested on both sides; InvalidPeer if and only if some torrent tracks it, InfoHashMismatch otherwise, and nothing changes then |
| `PoolAnswers.HandshakeResponseExactly` | src/peer/torrent.rs:251-266 | Welcome if and only if the torrent exists and has the hash, and then it tracks the peer; InvalidPeer if and only if it does not exist; nothing changes otherwise |
| `PoolAnswers.DisconnectExact` | src/peer/torrent.rs:440-447 | the records of every torrent are the old ones without the peer |
| `PoolAnswers.ChokeExactly` | src/peer/torrent.rs:268-279 | the choke is recorded, and passed to the scheduler, in the torrent that tracks the peer, and nothing else changes |
| `PoolAnswers.AddExact` | src/peer/torrent.rs:97-140 | a torrent is refused if and only if its hash is known; otherwise it is filed under the next id with a handler that has done nothing yet |
| `PoolAnswers.CancelExact` | src/peer/torrent.rs:362-372 | the first request with the id of some torrent that has one is taken out and reported; without one nothing changes |
| `PoolAnswers.AnswersOverRuns` | src/peer/torrent.rs:97-447 | in every admissible run of a new pool every call has these answers and effects |
| `PoolRuns.StepExact` | src/peer/torrent.rs:228-279 | one event keeps the invariant of the pool if and only if a handshake response comes from a peer no other torrent tracks and each scheduler admits its event |
| `PoolRuns.InvariantOverRuns` | src/peer/torrent.rs:97-279 | every admissible run keeps ids fresh, info hashes distinct, peers in one torrent and one seed request per peer for owned pieces |
| `PoolRuns.ActiveLimitExact` | src/peer/torrent.rs:111-139 | adding keeps the limit on active torrents, and reports the state it stores, if and only if it does not add an active torrent to a full pool |
| `PoolRuns.MatchIsUnique` | src/peer/torrent.rs:199-222 | at most one torrent matches a hash, a peer or a seedable piece |
| `PoolRuns.ScanOrderIrrelevant` | src/peer/torrent.rs:268-279 | first-match scans give the same torrent for every order of the map |
| `PoolRuns.RemovePeerClears` | src/peer/torrent.rs:436-447 | removing a peer clears it from the whole pool and touches no other |
| `PoolRuns.FreshIdentifiers` | src/peer/torrent.rs:121-138 | two torrents added in one run have increasing, hence different, ids |
| `PoolRuns.SeedingLedger` | src/peer/torrent.rs:329-385 | over every admissible run, pending at the start plus accepted equals pending at the end plus served plus cancelled, request by request |
| `PoolRuns.LedgerFromEmpty` | src/peer/torrent.rs:76-95 | from an empty pool, accepted equals pending plus served plus cancelled, and the pool is in order |
| `PoolRuns.DisconnectKeepsRequests` | src/peer/piece.rs:161-169 | disconnecting a peer leaves every pending request, its own included, where it is |
| `PoolRuns.StaleRequest` | src/peer/piece.rs:172-174 | a request of a peer that has gone is pending until it is served or cancelled, in every run, and until then the torrent accepts nothing from that peer, back or not |
| `PoolRuns.RequestExact` | src/peer/torrent.rs:734-742 | a request is accepted if and only if some torrent tracks the peer, owns the piece, does not choke the peer, the peer is interested and has no request pending; it then waits behind the earlier requests of that torrent |
| `PoolRuns.ServesEarliest` | src/peer/piece.rs:218-233 | a block that has been read goes to the earliest request for exactly that block, of an owned piece, and to nobody only if nobody waits for it |
| `Substreams.RankDecreases` | src/handler.rs:393-414 | polling a substream again means a lower rank, so the inner loop ends |
| `Substreams.PanicExact` | src/handler.rs:855-955 | an advance panics if and only if a Port message is read |
| `Substreams.AdvanceOwes` | src/handler.rs:643-850 | one advance moves user data on or hands it out with the event, never both and never neither |
| `Substreams.SettleKeeps` | src/handler.rs:393-414 | a whole visit loses and invents no user data, keeps the id, and keeps requests and replies alternating |
| `Visits.VisitExact` | src/handler.rs:624-850 | for every substream and every behaviour of its stream: a request is reported with the payload of the piece, bit field or handshake that came and its user data, or as an error if and only if sending, flushing or reading failed, the stream ended or another message came; a message of the remote is reported as what it says; what is sent is the message that was to be sent |
| `Visits.PollExact` | src/handler.rs:379-424 | a poll reports what the last substream of the vector with something to report has to say, and is pending if and only if there is none |
| `Handlers.BitTorrentHandler.InjectEvent` | src/handler.rs:198-360 | refines every command: queueing, answering, resetting, cancelling |
| `Handlers.BitTorrentHandler.Visit` | src/handler.rs:393-414 | the inner loop computes the settled state and event of the substream |
| `Handlers.BitTorrentHandler.Poll` | src/handler.rs:379-424 | the loop with `swap_remove` refines the sweep function and never indexes out of range |
| `Connections.SweepShape` | src/handler.rs:391-415 | positions below the stopping point stay in place, each other initial substream is visited exactly once in its initial state, and the vector holds these, the survivors and nothing else |
| `Connections.SweepAccount` | src/handler.rs:379-424 | a sweep loses and invents no user data and brings in no id |
| `Connections.StepAccount` | src/handler.rs:186-373 | every step balances issued, outstanding and reported user data |
| `Connections.OneOutcomePerRequest` | src/handler.rs:186-373 | in every run without a panic, user data issued equals user data outstanding plus user data reported, with multiplicities |
| `Connections.PortFreeRuns` | src/handler.rs:855-955 | a run in which no stream hands over a Port message has no panic |
| `Connections.ExactlyOneEvent` | src/handler.rs:624-779 | user data issued once is outstanding or has been reported exactly once; which event that is says `Outcomes.OutcomeOverRuns` |
| `Connections.InvariantOverRuns` | src/handler.rs:175-184 | ids stay distinct and below the next one, and every substream alternates |
| `Connections.InboundDiscipline` | src/handler.rs:780-842 | in every run each inbound substream has an id below the next one and has received as many messages as it answered or one more, and ids are pairwise distinct |
| `Connections.AnswerTouchesOne` | src/handler.rs:261-279 | an answer moves the one substream that waits under the id, and changes nothing if none does |
| `Outcomes.CommandsOverRuns` | src/handler.rs:198-360 | in every run without a panic every command does what it should: the message it stands for is queued, or becomes the reply of the one substream that waits under the id, or that substream goes |
| `Outcomes.RootedOverRuns` | src/handler.rs:175-360 | in every run whatever a substream has sent or is to send was asked for, with its user data, or given as an answer under its id, by a command of the run |
| `Outcomes.OutcomeOverRuns` | src/handler.rs:379-424 | in every run a report for a request comes from the substream that carries its message, and tells what happened there: the payload of the answer, or an error if and only if the dial, the sending, the flush or the read failed, the stream ended or another message came |
| `Outcomes.PollsOverRuns` | src/handler.rs:379-424 | in every run every poll reports what it should, and one with nothing to report keeps the connection alive as long as substreams are left |
| `Conversations.Conversation` | src/handler.rs:855-955 | between any two idle handlers: what one is told to ask reaches the other through the wire and is reported there as asked; what its user answers comes back and is reported as answered, with the user data of the request |
| `Conversations.Announcement` | src/handler.rs:855-902 | the same for choke, interest, have, keep-alive and cancel: the other handler reports exactly what was said |
| `Waiting.WaitsUntilNamed` | src/handler.rs:805-809 | over every run a substream that waits for the user is moved only by a command that names its id |
| `Waiting.ToldExact` | src/handler.rs:855-902 | the poll that puts a substream there tells the user its id if and only if the message was a handshake, bit field, request or cancel |
| `Waiting.ToldInRunExact` | src/handler.rs:855-902 | in every run of a new handler without a panic, the user has been told the id of an inbound substream if and only if that substream has received a handshake, bit field, request or cancel |
| `Waiting.WaitsForGood` | src/handler.rs:805-809 | cut a run of a new handler without a panic anywhere: if its commands name only ids told before them, a substream waiting at the cut that has received no handshake, bit field, request or cancel is still there at the end, whatever else the user answers |
| `Waiting.WaitsForGoodExact` | src/handler.rs:805-809 | a waiting substream stays in every such continuation if and only if it has never received a handshake, bit field, request or cancel; otherwise a reset by the id that was told removes it |
| `DiskFiles.FilesForBlock` | src/disk/file.rs:87-134 | the loop refines the window function, in whatever order the set yields the files |
| `DiskFiles.LayOut` | src/disk/file.rs:39-55 | the fold yields the files one behind the other with rising numbers |
| `DiskFiles.NewIsWellLaid` | src/disk/file.rs:25-63 | however the hash set orders them, the files of a new torrent do not overlap and have different ids |
| `DiskFiles.NewIsGrounded` | src/disk/file.rs:25-63 | a new torrent with at least one file has a file at the start of the content |
| `DiskFiles.NoFileExact` | src/disk/file.rs:105-127 | no file is claimed for a block if and only if every file starts behind its start and ends behind its end |
| `DiskFiles.WindowExact` | src/disk/file.rs:103-117 | a block that lies in one file gets that file alone and its exact range in it, whatever the order |
| `Windows.WindowsRightExact` | src/disk/file.rs:87-134 | for a non-empty block inside the content of a new torrent, the claimed windows are exactly the non-empty intersections of the block with the files if and only if one file holds the whole block |
| `DiskFiles.WindowPastTheEnd` | src/disk/file.rs:112-117 | in a single-file torrent a block past the end gets a window whose length is its start position |
| `Windows.PastTheEndLooksRight` | src/disk/file.rs:112-117 | a file of three bytes is claimed to hold bytes 2 and 3, in a window that looks right |
| `DiskJobs.BlockFileWrite.Poll` | src/disk/block.rs:246-297 | refines one poll of a write for every answer of the file system |
| `DiskJobs.BlockFileRead.Poll` | src/disk/block.rs:333-391 | refines one poll of a read for every answer of the file system |
| `Transfers.WriteStaysOnTrack` | src/disk/block.rs:246-297 | unless a first transfer goes astray, the bytes counted as written are in the window and the next ones go right behind them |
| `Transfers.WriteStaysInside` | src/disk/block.rs:259-263 | a write changes nothing outside its window, on track or not |
| `Transfers.WriteExact` | src/disk/block.rs:259-270 | a write that completes has put its block into the window if and only if no first transfer after a seek started over, provided the last byte of the window was not already the right one |
| `Transfers.WriteExactForEveryFile` | src/disk/block.rs:246-297 | without a proviso: answers that complete a write put its block into every file, whatever is in it, if and only if no first transfer after a seek starts over |
| `Transfers.ShortWriteMisplaces` | src/disk/block.rs:265-270 | two writes of one byte each complete a block of two and leave only the second byte, at the place of the first |
| `Transfers.RewriteKeeps` | src/disk/block.rs:246-297 | writing the same bytes again changes none of them, at any moment of the write |
| `Transfers.ReadStaysOnTrack` | src/disk/block.rs:333-391 | unless a first read goes astray, a read holds the bytes of the file from the start of its window |
| `Transfers.ReadExact` | src/disk/block.rs:340-369 | a read that delivers has the bytes of its window if and only if every first read after a seek started where the bytes read so far end, provided the first byte of the window stands nowhere else in the file |
| `Transfers.ReadExactForEveryFile` | src/disk/block.rs:333-391 | without a proviso: answers that deliver give the bytes of the window of every file of that size if and only if no first read goes astray |
| `Transfers.ShortReadRepeats` | src/disk/block.rs:353-354 | two reads of one byte each from a file of two deliver the first byte twice |
| `Transfers.FailedSeekReadsElsewhere` | src/disk/block.rs:342-349 | a failed seek delivers the byte at the cursor instead of the one in the window |
| `DiskJobs.OverlapAlwaysFails` | src/disk/block.rs:566-590 | a job that spans files always reports an error |
| `DiskManagers.DiskManager.PollFiles` | src/disk/manager.rs:108-190 | the loop refines acquiring all handles as busy, or leaving what was taken as queued, or failing |
| `DiskManagers.DiskManager.IsGoodPiece` | src/disk/manager.rs:192-198 | the piece exists and the hash of the data is its hash |
| `DiskManagers.DiskManager.Start` | src/disk/manager.rs:200-297 | refines starting a write or read: refused, queued again, or active |
| `DiskManagers.DiskManager.PopEvent` | src/disk/manager.rs:365-422 | refines taking one message off the queue |
| `DiskManagers.DiskManager.PollOne` | src/disk/manager.rs:299-362 | refines polling one job: put back, or finalised with its handles returned to the cache (`DiskAnswers.AnswerOverRuns`) |
| `DiskManagers.DiskManager.PollActive` | src/disk/manager.rs:354-363 | the `swap_remove` loop over the active jobs refines the sweep function |
| `DiskRuns.SweepIsARun` | src/disk/manager.rs:354-363 | the loop over active jobs is a run of single job polls, so statements over runs cover it |
| `DiskRuns.OneAnswerPerRequest` | src/disk/manager.rs:67-76 | in every run without a panic, requests open at the start plus submitted equal those in queue or active plus those answered, with multiplicities |
| `Provenance.AcquireComplete` | src/disk/manager.rs:119-173 | handles that come back ready are those of the files asked for, in order, whatever the cache dropped |
| `Provenance.StartShape` | src/disk/manager.rs:200-297 | starting a request changes no file and adds at most the job of that request, on the windows of its block, unstarted, with the right hash if it writes |
| `Provenance.StepKeepsSound` | src/disk/manager.rs:350-433 | every step, also one that evicts, fails, goes astray or panics, keeps: jobs work on the windows of their blocks, and a write in one file is of a block with the hash of its piece |
| `Provenance.WrittenWasVerified` | src/disk/manager.rs:206-212 | in every run of a new manager a piece that is reported written had the hash of its piece |
| `Provenance.AnswersFit` | src/disk/block.rs:478-600 | in every run of a new manager an answer has the direction, torrent and block of its request |
| `DiskAnswers.PartExact` | src/disk/block.rs:246-391 | the state of a transfer after any poll, told from the answers of the file system: bytes moved, bytes in hand, cursor and phase, and whether it is ready |
| `DiskAnswers.AnswerOverRuns` | src/disk/block.rs:478-600 | in every run of a new manager a poll of a job in one file answers a request of the run if and only if it makes the job ready: written, with the data of the request, if and only if all bytes of the window were moved; read, with the bytes gathered, if and only if there are as many as the window has; the error of its direction otherwise |
| `DiskAnswers.CleanWriteIsReported` | src/disk/block.rs:549-560 | hence a write in one file that gets ready without a failure is reported written |
| `DiskAnswers.CalmWriteLands` | src/disk/manager.rs:299-342 | and in a calm run its window then holds its bytes |
| `DiskService.FirstComeFirstServed` | src/disk/manager.rs:365-422 | in every run messages are taken up in the order in which they arrived, a request that was put off as if it had arrived again |
| `DiskService.KnownExact` | src/disk/manager.rs:367-379 | in every run the torrents known are those known at the start and those reported as added, and none is replaced |
| `DiskService.NonsenseIsRefused` | src/disk/manager.rs:200-297 | a request for an unknown torrent or a block that is not in its piece is refused, and nothing changes |
| `DiskService.StartExact` | src/disk/manager.rs:200-297 | a request in one file is refused if and only if it would write data with another hash or its file does not open, started if and only if its file is at hand, and put at the end of the queue otherwise |
| `DiskService.ServedAtOnce` | src/disk/manager.rs:350-433 | in any sound manager with an empty queue, whatever its jobs are at, a request whose file is free is served if the file system opens the file and moves all at once |
| `DiskService.WrittenIsReadBack` | src/disk/manager.rs:350-433 | so a block can be written and read back, with exactly its bytes |
| `DiskPanics.WritePanicExact` | src/disk/block.rs:259-263 | a poll of a write panics if and only if it gets to a transfer for which the window is longer than the block |
| `DiskPanics.StartPanicExact` | src/disk/manager.rs:117 | starting a request panics if and only if no file is claimed for its block, or it writes to several files at hand and a slice of the block is out of range |
| `DiskPanics.StepPanicExact` | src/disk/manager.rs:228-236 | a step panics if and only if one of these guards holds |
| `DiskPanics.NoCrashExact` | src/disk/manager.rs:350-433 | a run is free of panics if and only if no step of it meets a guard |
| `DiskRuns.GatherTakes` | src/disk/manager.rs:119-162 | gathering removes from the cache exactly the handles it hands over, none of them busy |
| `DiskRuns.InsertAllFits` | src/disk/manager.rs:163-180 | with room for all files, inserting evicts nothing and sets exactly the given marks |
| `Exclusivity.AcquireKeeps` | src/disk/manager.rs:108-190 | acquiring marks exactly the files handed out, and none of them was busy before |
| `Exclusivity.StepKeeps` | src/disk/manager.rs:299-342 | every step with room in the cache keeps: a file is marked busy exactly when one active job holds it, and none is held twice |
| `Exclusivity.ExclusivityOverRuns` | src/disk/manager.rs:350-433 | so does every run whose steps have room |
| `Exclusivity.ExclusivityWithRoom` | src/disk/manager.rs:108-190 | so does every run of torrents whose files together fit into the cache, from the sizes alone |
| `Exclusivity.JobsAreDisjoint` | src/disk/manager.rs:354-363 | two active jobs never hold the same file, and what they hold is marked busy |
| `Exclusivity.EvictionExact` | src/disk/manager.rs:163-173 | opening one more file keeps exclusivity if and only if it does not push a file in use out of the cache |
| `Evictions.LostMarkShares` | src/disk/manager.rs:119-173 | once the mark of a file in use is lost, the next request for it that opens the file gets a second job on the same file |
| `Evictions.TwoJobsOneFile` | src/disk/manager.rs:108-190 | from a new manager with a cache of one handle, three reads lead without a panic to two active jobs on one file |
| `Tracks.PollPartsEffect` | src/disk/block.rs:401-441 | polling a job polls each part on its own file and leaves all other files alone |
| `Tracks.CalmKeeps` | src/disk/manager.rs:350-433 | every step with room in the cache and no transfer astray keeps every job on track and handles exclusive |
| `Tracks.WrittenIsInItsWindow` | src/disk/manager.rs:322-332 | in every run of such steps the whole window of a piece holds its bytes when it is reported written, whatever is written over what |
| `WrittenLog.NextKeeps` | src/disk/manager.rs:350-433 | every allowed step keeps: all that was reported written is in its file, no active write can spoil it, and every job is on track in the windows of its block |
| `DiskHistories.InvariantOverRuns` | src/disk/manager.rs:350-433 | this holds all along every allowed run |
| `DiskHistories.InitialIsFine` | src/disk/manager.rs:52-60 | and at the start, on any files |
| `DiskHistories.ReadAfterWrite` | src/disk/manager.rs:200-343 | once a block is reported written, every later successful read inside it returns exactly those bytes, however other jobs interleave |
| `WholeWrites.HeadIsHarmless` | src/disk/manager.rs:200-224 | a whole piece with the right hash that lies in one file goes elsewhere than, or repeats, every whole piece already written, unless the hash collides |
| `WholeWrites.OrderOverRuns` | src/disk/manager.rs:350-433 | in every run whose write requests are whole pieces in one file, all that is written into one file is a whole piece with the right hash |
| `WholeWrites.WholeWritesAreAllowed` | src/disk/manager.rs:350-433 | such a run, however often pieces are written again, meets every condition of read-after-write |
| `WholeWrites.CarefulRunsNeverPanic` | src/disk/manager.rs:350-433 | a run of reads and of writes of whole pieces, each in one file, on torrents with at least one file, with room and no transfer astray, never panics |
| `DiskStory.ReadAfterWriteHappens` | src/disk/manager.rs:350-433 | a concrete run of a new manager writes a piece, reports it and reads it back, within all conditions of read-after-write |
| `DiskStory.SeedingHappens` | src/disk/manager.rs:350-433 | the same run meets the conditions of the theorem that joins disk, hash check and wire, for a torrent of one byte |
| `DiskStory.StoryOfAPeer` | src/disk/manager.rs:350-433 | that run is also one of a peer whose scheduler assembled and reported the piece, so the hypotheses of the theorems about peers can be met |
| `DiskHistories.SingleFileIsPlaced` | src/disk/file.rs:106-111 | in a torrent of one file the hypothesis on the place of a block holds if and only if the block ends inside the content |
| `Swarm.SentIsReceived` | src/disk/block.rs:123-140 | a genuine block of a torrent that fits 32-bit positions survives the trip through a message and is wire safe |
| `Swarm.StreamOfBlocks` | src/proto/codec.rs:37-200 | however many genuine blocks go into one stream, they all come out, unchanged and in order, with nothing left over |
| `Swarm.DownloadIsTheContent` | src/peer/piece.rs:237-247 | in every admissible run a piece whose accepted blocks are genuine is the chunk the builder hashed |
| `Swarm.HashCheckExact` | src/disk/file.rs:65-76 | the hash check passes the chunk the builder hashed and, without a collision there, nothing else |
| `Swarm.AssembledIsWhole` | src/peer/piece.rs:237-247 | a piece reported in any admissible run of a scheduler is a whole piece of its torrent, with as many bytes as it claims |
| `Swarm.AssembledPieceIsAccepted` | src/disk/manager.rs:207-212 | a piece assembled in any admissible run is a whole piece, and passes the check if and only if it carries the bytes of the content, unless the hash collides; genuine blocks always make such a piece |
| `OwnedBits.BitIsSet` | src/peer/piece.rs:237-247 | whatever byte a peer sends, an admissible run of a new handler reports the piece and sets its owned bit |
| `OwnedBits.SetBitIsNotVerified` | src/peer/piece.rs:237-247 | with a byte other than that of the content, and no collision, the piece whose bit is set does not pass the hash check |
| `Swarm.WrittenIsGenuine` | src/disk/manager.rs:200-255 | in every run of a new manager, whatever peers, cache and file system do, a whole piece that is reported written carries the bytes of the content, unless the hash collides |
| `Swarm.SeedingFromTheStart` | src/disk/manager.rs:345-433 | from a new manager, with write requests for whole pieces in any order and any number of times, everything read of a written piece is genuine and reaches the next peer unchanged |
| `Swarm.SeedingIsGenuine` | src/disk/manager.rs:257-343 | a block of such a piece that is read later, whatever happened in between, carries the bytes of the content and reaches the next peer unchanged |
| `Peers.SchedulerWritesWhole` | src/disk/manager.rs:200-224 | in a manager that serves schedulers of single-file torrents, without a collision, every write at the head of the queue is a whole piece in one file |
| `Peers.PeerRunIsCareful` | src/disk/manager.rs:345-433 | a run in which the writes are pieces reported by the schedulers, with no transfer astray, meets every condition that the theorems on the disk manager ask of requests, room included |
| `Peers.PeerNeverPanics` | src/disk/manager.rs:345-433 | no such run panics |
| `Peers.PeerSeedsTheContent` | src/disk/manager.rs:345-433 | in every such run from a new manager, whatever other peers send, a piece that is reported written is genuine, and every block of it read later is genuine and reaches the next peer unchanged |
| `Completion.TorrentCompletes` | src/peer/piece.rs:237-271 | for every torrent: from nothing, with one seeder that has the content, there is an admissible run that ends with Finished and reports every piece once, each the chunk that was hashed, and each passes the hash check |

## Left out

- Network glue: `src/behavior.rs`, libp2p dialling and upgrades, `src/proto/mod.rs`; negotiated streams and failed dials are events of the model.
- The native file system, tokio and wakers: the answers of a file system are inputs, and files are byte strings with a cursor per handle.
- Bencode, `MetaInfo`, the tracker, file paths: a torrent is its piece hashes, piece length and file sizes. Two torrents whose files share a path on disk are not captured, since a file is known by its torrent and number.
- `compute_piece_length`, which uses floating point, and the directory walk: the piece length and the list of file contents are inputs, and read errors of the builder are not modelled.
- SHA-1 itself: a running hash is the bytes fed to it, and a digest is an arbitrary function of them.
- Clocks, heartbeats, time-outs, statistics and endgame mode.
- `clear_piece` and `clear_buffer`, which nothing calls.
- `DiskManager::poll` as one call: its outer loop spins while jobs are pending. The model has its iterations as steps, so nothing is said about when a request is answered.
- Setters of peer fields other than the choke by the remote (interest, our choke, bit field, have) are one event that may change them in any way.
- Jobs inside `active_blocks`, substreams inside the vector, and torrents inside the pool are values there; `BlockFileWrite` and `BlockFileRead` are classes on their own and tied to these values by their contracts.
- Integers are unbounded except where the source converts: 32-bit length prefixes, indices and offsets, the 64-bit last piece length and the 64-bit complement of a length. Arithmetic that would overflow in a build with overflow checks (the unused window length of `files_for_block`, a length prefix near 2^32) is taken with release semantics.
- DiskHistories.ReadAfterWrite: holds for blocks inside one file, for runs in which no first transfer after a seek goes astray, no later write puts different bytes over what is reported written, nothing panics and the cache has room. `Transfers.WriteExactForEveryFile`, `Transfers.ReadExactForEveryFile`, `Windows.WindowsRightExact` and `Evictions.TwoJobsOneFile` show that the conditions on transfers, files and room are needed; `WholeWrites.WholeWritesAreAllowed` shows that reading blocks and writing whole pieces meets the ones on rewriting and panics.
- Exclusivity.EvictionExact: speaks of a block with one window whose file opens at once. With room nothing is evicted (`Exclusivity.StepKeeps`); what follows from a lost mark is in `Evictions.LostMarkShares`, and blocks with several windows never succeed anyway (`DiskJobs.OverlapAlwaysFails`).
- Transfers.WriteExact: speaks of files in which the last byte of the window makes a difference; `Transfers.WriteExactForEveryFile` needs no such proviso, but quantifies over the content of the file.
- Transfers.ReadExact: speaks of files in which the first byte of the window is unique; `Transfers.ReadExactForEveryFile` needs no such proviso, but quantifies over the content of the file.
- Provenance.WrittenWasVerified: callers hand over blocks shorter than 2^63 bytes, as byte vectors are.
- DiskManagers.DiskManager.PopEvent: leaves out the messages for removing and moving a torrent, which nothing enqueues.
- Pools.TorrentPool.OnCancelRequest: request ids are per connection, so two requests may share one; the model removes the first, as the code does, and says nothing about which was meant.
- Pools.TorrentPool.OnHandshakeRequest: the handshake of ours that goes with a welcome, and the bit field that goes with a welcome in `Pools.TorrentPool.OnHandshakeResponse`, are not part of the answer.
- DiskAnswers.AnswerOverRuns: speaks of jobs in one file; jobs in several files always report an error (`DiskJobs.OverlapAlwaysFails`).
- Conversations.Conversation: starts from two handlers without open substreams; with other substreams around, `Outcomes.PollsOverRuns` and `Outcomes.OutcomeOverRuns` say what is reported.
