# Verified models of fundamental

This project models the parts of the library whose correctness is hardest to see from the code, and proves
what they promise for all inputs, runs and histories. Each component has a specification that does not mention
the implementation, an imperative model in the form of the source (classes with fields, loops, arrays), and
lemmas that connect the two.

| component | files |
|---|---|
| BLAKE3 tree hasher: lazy merging on a stack, wide subtree compression, seekable output | `Blake3*.dfy`, `Bits.dfy` |
| 64-bit modular arithmetic and the primality test of wyhash | `Wyhash.dfy`, `NumberTheory.dfy` |
| RPC client: outbox, connection epochs, call table | `RpcMachine.dfy`, `RpcSafety.dfy`, `RpcDial.dfy`, `RpcRuns.dfy`, `RpcConnect.dfy`, `RpcEffects.dfy`, `RpcClient.dfy` |
| RPC server connection: write pump | `ServerPump.dfy` |
| HTTP response: status bits, single write in flight, finish callbacks | `HttpMachine.dfy`, `HttpSafety.dfy`, `HttpRuns.dfy`, `HttpOrder.dfy`, `HttpEffects.dfy`, `HttpResponse.dfy` |
| Buffers shared by the write pumps | `Bytes.dfy`, `Slices.dfy` |
| HTTP request parser | `HttpParser.dfy`, `HttpParsing.dfy`, `HttpPrinting.dfy`, `HttpFacts.dfy`, `HttpRequest.dfy` |
| Range set | `RangeSet.dfy` |
| Subscription index of the RPC server | `PubSub.dfy` |
| Knock-out pairing | `Pairing.dfy` |
| Base64 | `Base64.dfy` |

`dafny verify dfyconfig.toml` checks everything.

## How things are modelled

- The BLAKE3 compression function is a parameter, so every statement holds for all compression functions. The
  specification is the recursive tree of section 2.1 of the BLAKE3 paper with the output stream of section 2.6.
  The SIMD degree is a parameter too: any power of two.
- 64-bit words are natural numbers with explicit wraparound in `Wyhash`.
- Asynchronous code is a step machine. A posted task or a completion handler is one step, because each executor
  is one thread (src/network/io_context_pool.cpp:43-67). The environment chooses when completions arrive, how many
  bytes they report, errors and releases. Ghost history fields record what the sockets accepted. Events that
  cannot happen in a state are left out of a run.
- The RPC frame header serializer is a parameter that gives 18 bytes for a message.
- The RPC client keeps track of posted connects, waits of the reconnect timer, name lookups and TCP connects with
  the epoch they were started in; each may complete whenever it is outstanding. Accepted bytes are recorded for the
  latest connection of each epoch. The pump theorems ask one thing of a run: a connect that is about to run finds no
  waiting reconnect, and nothing to send on a live connection. `RpcConnect.PumpKeptExactly` shows that this is exactly
  what is needed, and `RpcConnect.CarefulUser` is a rule for callers under which it always holds.
- Write buffers of the client and of the response are slices of the message or item at the front, and the status of
  a response is a bit mask, as in the source.
- Text of HTTP requests and base64 is a sequence of characters that stand for bytes.
- The ranges of the range set are over the integers. The ordered multiset below it is a sorted sequence.
- The subscription index is a bag of entries; the order in which a hash table lists equal keys is not fixed.

## Where the code does not do what one would expect

- `range_emplace` is documented to return true when the set was updated. It also returns true, without changing
  the set, for a range that ends where a member holding it ends (`RangeSet.TrueYetUnchanged`).
- `rpc_client::unsubscribe` sends a subscribe request (`PubSub.UnsubscribedStillServed`).
- `is_prime(2)` is 0; 2 is the only prime rejected (`Wyhash.IsPrime`).
- `mul_mod` can be wrong when its first factor is not reduced (`Wyhash.MulModExact`, `Wyhash.MulModWrong`).
  All its callers inside the primality test reduce it.
- A perform task of an HTTP response that runs between release and close, after a completion took bytes, sends them
  again (`HttpOrder.PerformRepeats`, `HttpOrder.OrderKeptExactly`, `HttpOrder.SentTwice`).
- Calling connect() on an RPC client while its reconnect timer waits can lead to two writes in one epoch, although the
  client is not connected at the time of the call (`RpcConnect.ConnectDuringDelay`). The second connect closes the
  socket of the first and resumes from the buffers that were left, so the new stream can start inside a frame
  (`RpcConnect.StreamStart`). The same happens when async_connect() is called while there is something to send
  (`RpcConnect.ConnectExactly`).
- The HTTP parser takes bytes beyond the announced length into the body if they arrive with it (`HttpParsing.ParseBeyond`).
- Encoding nothing succeeds, but decoding the result does not (`Base64.RoundTrip`).

## Model

| member | source | states |
|---|---|---|
| `Bits.RoundDown` | third-parties/blake3/blake3_impl.h:145-149 | a power of two with p <= x < 2p for positive x, and 1 for 0 |
| `Bits.RoundDownUnique` | third-parties/blake3/blake3_impl.h:145-149 | no other power of two lies in that interval, so the answer is the largest one below x |
| `Bits.CountOnes` | third-parties/blake3/blake3_impl.h:131-143 | clearing the lowest set bit until none is left counts the one bits, as the recursive definition by halving does |
| `Blake3Spec.LeftLen` | third-parties/blake3/blake3.c:158-166 | the left subtree is whole chunks, not empty, and leaves at least one byte |
| `Blake3Chunk.ChunkState.constructor` | third-parties/blake3/blake3.c:10-18 | a fresh chunk holds no bytes and has the given number |
| `Blake3Chunk.ChunkState.Reset` | third-parties/blake3/blake3.c:20-27 | starts the next chunk: nothing held, new number |
| `Blake3Chunk.ChunkState.Len` | third-parties/blake3/blake3.c:29-32 | the length worked out from compressed blocks and buffer fill is the number of bytes fed |
| `Blake3Chunk.ChunkState.FillBuf` | third-parties/blake3/blake3.c:34-44 | takes what fits and appends exactly those bytes to what the chunk holds |
| `Blake3Chunk.ChunkState.Update` | third-parties/blake3/blake3.c:118-144 | however a chunk is fed, compressed blocks plus buffer stand for all bytes fed, and the last block is never compressed early |
| `Blake3Chunk.ChunkState.Output` | third-parties/blake3/blake3.c:146-151 | the node of the bytes fed is the chunk node of the specification, with start and end flags on the right blocks |
| `Blake3Chunk.HashOne` | third-parties/blake3/blake3_portable.c:125-143 | the block loop with separate start and end flags gives the chaining value of the specified chunk, so it agrees with the chunk state |
| `Blake3Wide.HashManyChunks` | third-parties/blake3/blake3_portable.c:145-160 | one chaining value for each chunk, numbered consecutively, in its own slot and nowhere else |
| `Blake3Wide.CompressChunksParallel` | third-parties/blake3/blake3.c:172-209 | writes the chaining value of every chunk of the input, a short last one included, and touches no other slot |
| `Blake3Wide.CompressParentsParallel` | third-parties/blake3/blake3.c:216-249 | writes one layer of parents, an odd last value moving up unchanged |
| `Blake3Wide.CondenseTree` | third-parties/blake3/blake3.c:216-249 | replacing any number of leaves by their layer of parents leaves the root of the tree over them unchanged |
| `Blake3Wide.CondenseNode` | third-parties/blake3/blake3.c:364-378 | the same for the top node itself as long as more than two leaves are there |
| `Blake3Wide.ChunkCVsTree` | third-parties/blake3/blake3.c:254-267 | the tree built over the chunk chaining values is the recursive tree of the input |
| `Blake3Wide.CompressSubtreeWide` | third-parties/blake3/blake3.c:268-336 | for every power-of-two degree the values written are leaves of the tree of the input, at most max(degree, 2) of them, and a complete subtree fills exactly its slots |
| `Blake3Wide.WideCounts` | third-parties/blake3/blake3.c:283-318 | the left recursion always returns exactly the number of slots after which the right one writes, and counts never exceed the output array |
| `Blake3Wide.WideJoin` | third-parties/blake3/blake3.c:319-335 | leaves of the two children side by side, or their parents, are leaves of the node |
| `Blake3Wide.HalfSlots` | third-parties/blake3/blake3.c:372-377 | the number of slots is even, so a buffer of half the size holds each layer of parents |
| `Blake3Wide.CompressSubtreeToParentNode` | third-parties/blake3/blake3.c:348-380 | condensing through a buffer of half the slots ends with the two children of the specified tree, whatever the degree |
| `Blake3Tree.SplitPow2` | third-parties/blake3/blake3.c:158-166 | a complete left part and anything no longer on its right are the two children of the root |
| `Blake3Tree.SubtreesLength` | third-parties/blake3/blake3.c:411-433 | whole chunks decompose into as many complete subtrees as their number has one bits |
| `Blake3Tree.LazyLength` | third-parties/blake3/blake3.c:424-433 | comparing the stack length with the popcount tells exactly whether the top two entries are siblings |
| `Blake3Tree.LazyMerge` | third-parties/blake3/blake3.c:424-433 | merging the top pair keeps the lazy stack shape, with a newest subtree twice the size |
| `Blake3Tree.LazyDone` | third-parties/blake3/blake3.c:424-433 | when no pair is left the stack is the binary decomposition of the chunks |
| `Blake3Tree.RollUpTree` | third-parties/blake3/blake3.c:626-643 | folding the decomposition from the top over the rest of the message gives the root of the recursive tree |
| `Blake3Hasher.Hasher.constructor` | third-parties/blake3/blake3.c:382-396 | a fresh hasher has been fed nothing |
| `Blake3Hasher.Hasher.MergeCvStack` | third-parties/blake3/blake3.c:424-433 | leaves exactly the decomposition of the chunks so far, one entry for each one bit |
| `Blake3Hasher.Hasher.PushCv` | third-parties/blake3/blake3.c:467-473 | merges what was left lazy, then adds the new entry, within the stack bound |
| `Blake3Hasher.SubtreeLen` | third-parties/blake3/blake3.c:524-543 | the largest power of two of bytes that fits the input and divides what was hashed before |
| `Blake3Hasher.Hasher.FinishChunk` | third-parties/blake3/blake3.c:489-508 | tops the open chunk up and pushes it only if more input follows |
| `Blake3Hasher.Hasher.AddSubtree` | third-parties/blake3/blake3.c:523-570 | one step of the main loop: the stack then accounts for the subtree too, and ends in an open pair if the input ends there |
| `Blake3Hasher.Hasher.Update` | third-parties/blake3/blake3.c:475-582 | any update on any reachable hasher: it then stands for the old message followed by the input |
| `Blake3Hasher.Hasher.RootNode` | third-parties/blake3/blake3.c:613-643 | chunk state and stack together give the root node of the recursive tree over the whole message |
| `Blake3Hasher.Hasher.FinalizeSeek` | third-parties/blake3/blake3.c:603-645 | the output is exactly the requested slice of the specified hash of everything fed |
| `Blake3Hasher.Hasher.Reset` | third-parties/blake3/blake3.c:647-650 | a hasher that has been fed nothing |
| `Blake3Hasher.StackShape` | third-parties/blake3/blake3.h:51-61 | under 2^64 bytes the stack never exceeds 55 entries; it holds at least two when the message ends on a chunk boundary, and the popcount otherwise |
| `Blake3Hasher.HashPieces` | third-parties/blake3/blake3.c:475-645 | for every way of cutting a message into updates and every degree, the output is the specified hash of the joined pieces |
| `Blake3Facts.ParentOfTwo` | third-parties/blake3/blake3.c:640-642 | in literal terms: the root block over a complete left part and a right part no longer than it is the left chaining value followed by the right one, with the key, length 64, counter 0 and flag 4 |
| `Blake3Facts.OneBlock` | third-parties/blake3/blake3.c:146-151 | a message of at most 64 bytes is one block padded with zeros, compressed with the key and the flags 1 and 2 |
| `Blake3Facts.TwoBlocks` | third-parties/blake3/blake3.c:118-151 | the first of two blocks has flag 1, the last one flag 2, and the first feeds the last |
| `Blake3Facts.ThreeBlocks` | third-parties/blake3/blake3.c:118-151 | a block between them has neither flag |
| `Blake3Facts.ShortHash` | third-parties/blake3/blake3.c:89-116 | output byte p of a message of one block is byte p % 64 of the block compressed with counter p / 64 and flags 1, 2 and 8 |
| `Blake3Facts.LongHash` | third-parties/blake3/blake3.c:603-645 | the same for a root over two subtrees, with flags 4 and 8 |
| `Blake3Facts.HashShort` | third-parties/blake3/blake3.c:475-645 | the hasher on a message and an output of at most one block each is one call of the compression function with flags 11 |
| `Blake3Facts.DeriveShort` | third-parties/blake3/blake3.c:398-408 | the derived key is that hash of the context in mode 32, and the material is hashed in mode 64 |
| `Blake3Hasher.InitDeriveKey` | third-parties/blake3/blake3.c:398-408 | the context, hashed in its own mode, becomes the key of a hasher for the material |
| `Blake3Output.XofMany` | third-parties/blake3/blake3_dispatch.c:227-248 | consecutive output blocks continue the one output stream |
| `Blake3Output.OutputRootBytes` | third-parties/blake3/blake3.c:89-116 | for every position and length, also inside a block, the buffer is that slice of the output stream |
| `Blake3Output.SlicesJoin` | third-parties/blake3/blake3.c:603-645 | adjacent slices of the output join into one slice |
| `Wyhash.AddModValue` | src/fundamental/algorithm/wyhash_utils.hpp:308-324 | one guarded addition is exact modulo m except for 2^64 in the one case where the guard misses the wrap |
| `Wyhash.MulMod` | src/fundamental/algorithm/wyhash_utils.hpp:308-324 | the product modulo m for a reduced first factor despite 64-bit wraparound, and the exact result for every other operand |
| `Wyhash.MulModExact` | src/fundamental/algorithm/wyhash_utils.hpp:308-324 | mul_mod is right if and only if b < 2, or 2a < 2^64 + m, or what the first doubling loses is a multiple of m |
| `Wyhash.MulModWrong` | src/fundamental/algorithm/wyhash_utils.hpp:308-324 | operands with an unreduced factor on which mul_mod is wrong |
| `Wyhash.PowMod` | src/fundamental/algorithm/wyhash_utils.hpp:325-333 | the result for all operands: 0 or 1 modulo 1, otherwise the power built on what mul_mod makes of the first square; a^b modulo m for a reduced base |
| `Wyhash.PowModExact` | src/fundamental/algorithm/wyhash_utils.hpp:325-333 | that result is a^b modulo m if the base is reduced, no square is needed, or mul_mod squares the base exactly |
| `Wyhash.SplitTwos` | src/fundamental/algorithm/wyhash_utils.hpp:335-352 | the 8-, 4-, 2- and 1-bit shifts leave the odd part and count all twos |
| `Wyhash.Sprp` | src/fundamental/algorithm/wyhash_utils.hpp:334-362 | 1 exactly if odd n is a strong probable prime to base a < n; for even n exactly if the power it computes is 1 or n - 1 |
| `Wyhash.RungSquare` | src/fundamental/algorithm/wyhash_utils.hpp:355-360 | each round of the loop moves to the next power a^(d*2^i) |
| `Wyhash.NeverMinusOne` | src/fundamental/algorithm/wyhash_utils.hpp:355-358 | giving up early at 0 or 1 never misses a later -1 |
| `NumberTheory.Euclid` | src/fundamental/algorithm/wyhash_utils.hpp:308-380 | a prime that divides a product divides a factor |
| `NumberTheory.SqrtOne` | src/fundamental/algorithm/wyhash_utils.hpp:334-362 | 1 has only the square roots 1 and -1 modulo a prime |
| `NumberTheory.Fermat` | src/fundamental/algorithm/wyhash_utils.hpp:334-362 | Fermat's little theorem, from scratch |
| `Wyhash.PrimePasses` | src/fundamental/algorithm/wyhash_utils.hpp:334-362 | an odd prime is a strong probable prime to every base between 0 and itself |
| `Wyhash.PrimeAccepted` | src/fundamental/algorithm/wyhash_utils.hpp:363-380 | among primes the acceptance condition fails for 2 only |
| `Wyhash.StrongIsFermat` | src/fundamental/algorithm/wyhash_utils.hpp:334-362 | a strong probable prime n to base a has a^(n-1) = 1 modulo n |
| `Wyhash.AcceptedFermat` | src/fundamental/algorithm/wyhash_utils.hpp:363-380 | so has every accepted number, for base 2 and from 2047 on for eleven more |
| `Wyhash.ThresholdRejected` | src/fundamental/algorithm/wyhash_utils.hpp:366-367 | 2047, which passes to base 2, is not accepted: the threshold is where the source has it |
| `Wyhash.IsPrime` | src/fundamental/algorithm/wyhash_utils.hpp:363-380 | decides strong probable primality to the twelve bases exactly; accepts every odd prime below 2^64; 2 is the only prime it rejects; what it accepts beyond 3 passes the test of Fermat to base 2, and from 2047 on to each of 3, 5, 7, 11, 13, 17, 19, 23, 29, 31 and 37; 2047 is rejected |
| `Bytes.Consume` | src/rpc/connection.cpp:493-504 | the buffer-consuming loop computes the recursive consumption |
| `Bytes.ConsumedBytes` | src/rpc/rpc_client.hpp:1091-1102 | consuming k bytes drops exactly the first k bytes of the buffers, however they are divided |
| `RpcRuns.StaleCompletion` | src/rpc/rpc_client.hpp:1070-1076 | a completion from an earlier epoch changes nothing in the client |
| `RpcRuns.PastLinesFixed` | src/rpc/rpc_client.hpp:742-761 | epochs never go back, and what was in line for a past epoch stays as it was |
| `RpcRuns.StepCalls` | src/rpc/rpc_client.hpp:763-794 | only a new call adds to the call table; every other step can only finish calls, each once, and only issued ones |
| `RpcRuns.EveryRunCalls` | src/rpc/rpc_client.hpp:65-79 | over any run outcomes never change once set, ids are never reused, and a call that left the table never comes back |
| `RpcRuns.IssuedOrFinished` | src/rpc/rpc_client.hpp:1286-1308 | in every run an issued call is waiting in the table or has its outcome |
| `RpcRuns.ResponseOnlyOwn` | src/rpc/rpc_client.hpp:1248-1262 | a response affects the call with its id and no other |
| `RpcRuns.LateResponse` | src/rpc/rpc_client.hpp:1248-1262 | a response after timeout, close or reconnect is ignored for ever and leaves the outcome alone |
| `RpcRuns.FreshId` | src/rpc/rpc_client.hpp:786-791 | a new id was never in the table and never had an outcome |
| `RpcRuns.CloseFinishesAll` | src/rpc/rpc_client.hpp:742-761 | closing leaves no issued call without an outcome, nothing queued and pending_size 0 |
| `RpcEffects.ResponseFinishes` | src/rpc/rpc_client.hpp:1185-1211 | a response of the current connection finishes the waiting call of its id with its data and removes it; after release, from another epoch or for an unknown id it changes nothing |
| `RpcEffects.OutcomeExactly` | src/rpc/rpc_client.hpp:742-1308 | how a waiting call ends, for every event: reply exactly by a response of the current connection for its id, timeout exactly by its timer, bad request exactly by its size, read error exactly by a failed read for it, broken pipe exactly by an event that closes the connection; every other event leaves it waiting |
| `RpcEffects.FirstOutcomeStays` | src/rpc/rpc_client.hpp:65-79 | in every run the first such event decides the outcome for ever |
| `RpcEffects.EndedLeaves` | src/rpc/rpc_client.hpp:770-784 | a call that ended, except by its size, is no longer in the table |
| `RpcEffects.OneCallReplies` | src/rpc/rpc_client.hpp:1185-1211 | a run that connects, issues a call and gets its response: call 1 ends with that data |
| `RpcEffects.PostedGoesOut` | src/rpc/rpc_client.hpp:1038-1070 | a posted message goes to the end of the outbox and of the line; on an idle connection exactly its header and content are offered at once |
| `RpcEffects.TwoFrames` | src/rpc/rpc_client.hpp:1058-1066 | two frames are header, content, header, content |
| `RpcEffects.ConnectSends` | src/rpc/rpc_client.hpp:969-976 | a connect that succeeds puts the whole outbox in line and offers the header and content of its first message |
| `RpcEffects.ConnectRetries` | src/rpc/rpc_client.hpp:819-837 | a failed attempt uses up one retry and arms the timer in the next epoch, or closes if none is left; the outbox stays |
| `RpcEffects.FailureReconnects` | src/rpc/rpc_client.hpp:1225-1230 | a failed read or write closes and drops everything; a client that reconnects then waits for its timer two epochs on |
| `RpcEffects.CallPosts` | src/rpc/rpc_client.hpp:366-393 | connect() posts a connect unless connected, async_connect() always |
| `RpcEffects.LookupStarts` | src/rpc/rpc_client.hpp:987-998 | a posted connect, or a timer that is over, starts a lookup in the current epoch |
| `RpcEffects.LookupGoesOn` | src/rpc/rpc_client.hpp:838-852 | a lookup that succeeds starts a TCP connect |
| `RpcEffects.FullTake` | src/rpc/rpc_client.hpp:1087-1121 | a completion that takes all it was offered finishes the front message and nothing else |
| `RpcEffects.LineDrains` | src/rpc/rpc_client.hpp:1038-1122 | from every state a run reaches while connected, one full completion for each waiting message empties the outbox, and the connection has then accepted exactly the frames put in line for it |
| `RpcClient.Client.PostedWrite` | src/rpc/rpc_client.hpp:1038-1054 | queues the message and starts the pump only if it was idle |
| `RpcClient.Client.SetPromise` | src/rpc/rpc_client.hpp:65-79 | sets the promise of a call at most once |
| `RpcClient.Client.ClearCache` | src/rpc/rpc_client.hpp:1286-1308 | drops the queue and breaks every waiting call |
| `RpcClient.Client.Close` | src/rpc/rpc_client.hpp:742-761 | opens a new epoch and clears; does nothing if not connected and not forced |
| `RpcClient.Client.ErrorCallback` | src/rpc/rpc_client.hpp:1331-1339 | reconnects if enabled |
| `RpcClient.Client.WriteCompletion` | src/rpc/rpc_client.hpp:1070-1121 | the completion handler: ignored when stale or released, closes on error, else moves the pump on |
| `RpcClient.Client.OnResolved` | src/rpc/rpc_client.hpp:838-852 | a lookup that finished in the current epoch moves on to the handshake |
| `RpcClient.Client.OnConnected` | src/rpc/rpc_client.hpp:853-873 | a connect that finished in the current epoch makes the client ready and starts the pump |
| `RpcClient.Client.CallBack` | src/rpc/rpc_client.hpp:1248-1262 | finishes and removes the call of the id, if it is there |
| `RpcClient.Client.EmplaceNewCall` | src/rpc/rpc_client.hpp:763-794 | enters a call under the next id |
| `RpcClient.Client.OnCallTimeout` | src/rpc/rpc_client.hpp:770-784 | a timeout finishes the call and removes it |
| `RpcClient.Client.Handle` | src/rpc/rpc_client.hpp:742-1339 | each handler is one step of the machine |
| `RpcDial.StepDial` | src/rpc/rpc_client.hpp:977-999 | as long as connects run where they may, at most one reconnect waits, in the waiting state, with no attempt of the current epoch under way |
| `RpcRuns.StepPump` | src/rpc/rpc_client.hpp:742-1339 | every handler keeps all pump invariants, as long as a connect runs only while no reconnect waits and a live connection has nothing to send |
| `RpcRuns.EveryRunPumps` | src/rpc/rpc_client.hpp:742-1339 | in every run with such connects: at most one write in flight for each epoch; a write is in flight exactly when there is something to send; the bytes each connection accepted are a prefix of the frames in line for it and start on a frame boundary; nothing is lost or doubled on the current connection; pending_size is exact |
| `RpcRuns.TimerNeverWhileReady` | src/rpc/rpc_client.hpp:987-998 | in such runs the reconnect timer of a client that was not released never fires while connected |
| `RpcRuns.Delivered` | src/rpc/rpc_client.hpp:1038-1122 | when the outbox of a live connection is empty, all frames put in line for it were accepted in full |
| `RpcConnect.ConnectExactly` | src/rpc/rpc_client.hpp:818-873 | a connect that runs now is harmless if and only if no reconnect waits and a live connection has nothing to send: exactly then every continuation without another connect keeps all pump invariants |
| `RpcConnect.OneWriteExactly` | src/rpc/rpc_client.hpp:1067-1076 | until release it is also exactly then that every such continuation keeps to one write for each epoch |
| `RpcConnect.PumpKeptExactly` | src/rpc/rpc_client.hpp:818-873 | over whole runs: all pump invariants hold in every continuation of every prefix, without a further connect, if and only if every connect of the run ran in such a state |
| `RpcConnect.EveryRunRest` | src/rpc/rpc_client.hpp:1058-1102 | in every run with such connects the write buffers hold an end of the frame of the front message |
| `RpcConnect.StreamStart` | src/rpc/rpc_client.hpp:1056-1070 | a connect over a live connection with something to send: the new stream is first offered the front frame without the bytes the old one took, so it starts on a frame boundary if and only if none were taken |
| `RpcConnect.ConnectWhileReady` | src/rpc/rpc_client.hpp:969-976 | connecting again while connected starts a second write in the same epoch if and only if the outbox is not empty |
| `RpcConnect.ConnectDuringDelay` | src/rpc/rpc_client.hpp:366-373 | a run in which connect() is called during the reconnect delay, never while connected, and one epoch ends up with two writes |
| `RpcConnect.CarefulUser` | src/rpc/rpc_client.hpp:366-393 | a client whose user asks for a connection only while it is closed, with no earlier request waiting to run, keeps all pump invariants in every run |
| `RpcConnect.CarefulRunIsProper` | src/rpc/rpc_client.hpp:366-393 | for such a user every connect runs where it may |
| `RpcClient.FrameCuts` | src/rpc/rpc_client.hpp:1058-1066 | header buffer and content slices of the front message are the two buffers of its frame |
| `RpcClient.Client.BuildFrame` | src/rpc/rpc_client.hpp:1058-1066 | the buffers then stand for the whole frame of the front message |
| `RpcClient.Client.DoWrite` | src/rpc/rpc_client.hpp:1056-1070 | offers the frame of the front message, or what the slices still point at, only while connected |
| `RpcClient.Client.OnWritten` | src/rpc/rpc_client.hpp:1087-1121 | the slices shrink by exactly the bytes taken; partial writes go on with the rest, full ones with the next message |
| `RpcClient.Client.Connect` | src/rpc/rpc_client.hpp:366-373 | posts a connect unless connected |
| `RpcClient.Client.AsyncReconnect` | src/rpc/rpc_client.hpp:977-999 | only a closed, unreleased client goes to waiting, in a new epoch, with one more timer wait |
| `RpcClient.Client.OnReconnectTimer` | src/rpc/rpc_client.hpp:988-998 | a wait that ended starts a connect in any state, a cancelled one reports the error |
| `RpcClient.Client.ConnectGoesOn` | src/rpc/rpc_client.hpp:819-837 | after an error retries while attempts are left, else stays closed |
| `RpcClient.DriveClient` | src/rpc/rpc_client.hpp:742-1339 | a client object driven by any events, with connects that run where they may, satisfies the pump, connecting and call invariants |
| `ServerPump.PumpRun` | src/rpc/connection.cpp:466-516 | in every state of every run at most one write is in flight, the bytes on the wire are a prefix of the frames of the accepted messages in order, and nothing is lost or doubled before release |
| `ServerPump.PumpStepSafe` | src/rpc/connection.cpp:466-516 | each handler keeps this |
| `ServerPump.FrontPresent` | src/rpc/connection.cpp:505-514 | a completion always finds its message in the queue, so front and pop_front are safe |
| `ServerPump.AllSent` | src/rpc/connection.cpp:466-516 | an idle pump that was not released has sent every accepted message in full |
| `ServerPump.PostedAreResponses` | src/rpc/connection.h:355-370 | in every run the messages accepted are exactly the responses asked for before the pump stopped, in that order, and it stops exactly by release or a failed write |
| `ServerPump.ResponsesSent` | src/rpc/connection.cpp:466-516 | so an idle pump that nothing stopped has put exactly their frames on the wire |
| `ServerPump.Pump.ResponseInternal` | src/rpc/connection.h:355-370 | queues a response and starts the pump only if it was idle |
| `ServerPump.Pump.Write` | src/rpc/connection.cpp:466-478 | offers the frame of the front message, or what is left of it |
| `ServerPump.Pump.OnWritten` | src/rpc/connection.cpp:478-515 | the completion handler: released pumps stop, errors release, partial writes continue |
| `ServerPump.DrivePump` | src/rpc/connection.cpp:466-516 | a pump object driven by any events is in the state of the run |
| `HttpRuns.StepSafe` | src/http/http_response.cpp:149-512 | every task and completion keeps all response invariants |
| `HttpRuns.CallbacksOnce` | src/http/http_response.cpp:504-512 | finish callbacks run in the order of the items, each at most once, and all of them once closed |
| `HttpResponse.Response.ReleaseObj` | src/http/http_connection.h:71-74 | releases once and posts one close |
| `HttpResponse.Response.Close` | src/http/http_connection.h:275-291 | the close task finishes everything pending |
| `HttpResponse.Response.SetBodySizeTask` | src/http/http_response.cpp:262-272 | announces the size unless the body is complete or the connection released |
| `HttpResponse.Response.AppendTask` | src/http/http_response.cpp:274-374 | enqueues the item and marks the last one when the announced size is reached |
| `HttpResponse.Response.HeaderCompletion` | src/http/http_response.cpp:162-176 | frees the write; marks headers sent or aborts |
| `HttpResponse.Response.BodyCompletion` | src/http/http_response.cpp:452-502 | frees the write; late completions change nothing else, errors abort, successes move on |
| `HttpResponse.Response.Handle` | src/http/http_response.cpp:149-512 | each handler is one step of the machine |
| `HttpRuns.EveryRunSafe` | src/http/http_response.cpp:149-512 | in every run: at most one write in flight and sending_ says whether; headers before body; the body write offers the bytes that follow those accepted; items finish in order; without stock responses the pending size is the unsent bytes |
| `HttpOrder.EveryRunSent` | src/http/http_response.cpp:390-502 | in every run each byte the socket accepted is the byte of the enqueued items at the place it was taken from |
| `HttpOrder.SentPrefix` | src/http/http_response.cpp:390-502 | until release the bytes the socket accepted are exactly a prefix of the enqueued bytes |
| `HttpOrder.LastChunkIsAll` | src/http/http_response.cpp:484-496 | without stock responses the release after the last chunk happens only when the bytes accepted are exactly all enqueued bytes |
| `HttpEffects.WrittenEnds` | src/http/http_response.cpp:466-500 | a completion that takes all that is left finishes the front item, any other leaves it with the rest; the response ends exactly if that item is the last chunk: bit set, released, close posted |
| `HttpEffects.LastChunkReleases` | src/http/http_response.cpp:488-495 | in every safe state, the last chunk being taken sets the finished bit, releases and posts the close |
| `HttpEffects.OfferedEnds` | src/http/http_response.cpp:488-495 | a run of a body of two bytes that ends so |
| `HttpEffects.WriteFails` | src/http/http_response.cpp:458-463 | a failed write finishes every item and releases |
| `HttpEffects.PerformDoes` | src/http/http_response.cpp:390-452 | a perform task writes the headers once they are all set, releases if there is no body, and else offers what is left of the front item; while headers are missing or on their way, and after the end, it does nothing |
| `HttpEffects.HeadersDone` | src/http/http_response.cpp:162-176 | headers sent, or everything finished and released |
| `HttpEffects.SizeSet` | src/http/http_response.cpp:262-272 | the size is taken and completes the headers, until the body is complete |
| `HttpEffects.AppendDoes` | src/http/http_response.cpp:274-374 | an item goes to the end of the queue unless it is empty; the body is complete exactly when the announced size is reached, and then its last item is the last chunk |
| `HttpEffects.StockDoes` | src/http/http_response.cpp:199-221 | a canned reply is one last chunk with its size |
| `HttpEffects.ResponseEnds` | src/http/http_response.cpp:390-502 | from every state a run reaches with only waiting items left to write: if every write is taken the response ends, the bytes accepted are exactly the body, and every item is finished |
| `HttpEffects.WholeResponse` | src/http/http_response.cpp:262-502 | for every list of items that are not empty: size announced, items appended, headers out and every write taken puts exactly the joined items on the wire and ends the response |
| `HttpOrder.PerformRepeats` | src/http/http_response.cpp:390-452 | a perform task starts a write at a place already sent if and only if the connection was released, bytes were taken since, and every test of perform_response passes |
| `HttpOrder.OrderKeptExactly` | src/http/http_response.cpp:390-502 | in every continuation of every prefix of a run, without a further perform task, body bytes stay in order and are sent once, if and only if no perform task of the run ran in such a state |
| `HttpOrder.PerformExactly` | src/http/http_response.cpp:390-502 | whether a perform task may run now is decided by the present state: it keeps the order in every continuation if and only if the state is not such a state |
| `HttpOrder.CleanInOrder` | src/http/http_response.cpp:390-502 | without such a perform task the bytes accepted are a prefix of the enqueued bytes, also after release |
| `HttpOrder.InOrderExactly` | src/http/http_response.cpp:390-502 | the order is kept if and only if at most one body write takes bytes after release |
| `HttpOrder.QuietIsInOrder` | src/http/http_response.cpp:390-502 | it is kept if no perform task runs after release |
| `HttpOrder.SentTwice` | src/http/http_response.cpp:390-458 | a run in which a perform task between release and close sends the first byte twice |
| `HttpOrder.FrontThere` | src/http/http_response.cpp:480-489 | a live completion of a body write always finds its item in the queue, so front and pop_front are safe |
| `HttpResponse.BitsAdded` | src/http/http_response.hpp:22-33 | or-ing a mask into the status adds its bit and no other |
| `Slices.ConsumeSlices` | src/http/http_response.cpp:469-480 | the consume loop on slices of memory drops exactly the bytes that were written |
| `HttpResponse.Response.AbortAll` | src/http/http_response.cpp:504-512 | runs every outstanding callback, front first, and leaves no buffer pointing at a dropped item |
| `HttpResponse.Response.StockTask` | src/http/http_response.cpp:199-221 | enqueues a canned reply, overwrites the sizes and sets the three finish bits at once |
| `HttpResponse.Response.PerformTask` | src/http/http_response.cpp:390-452 | starts the header write, a body write or nothing, by the bits of the status mask |
| `HttpResponse.Response.OfferFront` | src/http/http_response.cpp:430-455 | hands the socket the front item or what the slices still point at |
| `HttpResponse.Response.OnWritten` | src/http/http_response.cpp:466-500 | the slices shrink by exactly the bytes taken; a finished item is dropped with its callback, and the last one releases |
| `HttpResponse.DriveResponse` | src/http/http_response.cpp:149-512 | a response object driven by any events is safe, and the bytes it sent are bytes of its body |
| `HttpParsing.ParseSplit` | src/http/http_request.hpp:98-113 | if the bytes so far ask for more, feeding the next bytes has the outcome of feeding all at once: same verdict, and same fields and rest unless rejected |
| `HttpParsing.ParseBeyond` | src/http/http_request.hpp:98-113 | after a verdict the outcome on longer input is known: pipelined bytes stay unread, rejection stays, and a body swallows extra bytes up to the limit |
| `HttpParsing.FeedIsParse` | src/http/http_request.hpp:98-113 | however a request is cut into pieces, the outcome is that of the joined pieces |
| `HttpPrinting.StepVerdicts` | src/http/http_request.cpp:74-279 | after every byte all length limits hold, and the last header is touched only if there is one |
| `HttpPrinting.ParseVerdicts` | src/http/http_request.cpp:74-279 | every state and every accepted request respects the limits; the body is at least as long as announced and empty if nothing is |
| `HttpPrinting.FieldRun` | src/http/http_request.cpp:191-256 | a header line in the form of the response writer adds exactly that header |
| `HttpPrinting.RoundTrip` | src/http/http_request.cpp:80-276 | every request within the limits is parsed back exactly from its printed form |
| `HttpPrinting.AcceptedExactly` | src/http/http_request.cpp:74-279 | a request can come out of the parser if and only if it is within the limits |
| `HttpPrinting.DecimalValue` | src/http/http_request.cpp:148-183 | decimal versions read back as the number |
| `HttpPrinting.AnnouncedDecimal` | src/http/http_request.hpp:114-130 | a decimal length header announces that length |
| `HttpFacts.FirstAnnounces` | src/http/http_request.hpp:114-130 | the first header named content-length or Content-Length announces its decimal value, whatever comes before and after it |
| `HttpFacts.NothingAnnounced` | src/http/http_request.hpp:114-130 | without a header of one of these two names the length is 0 |
| `HttpFacts.BodyArrives` | src/http/http_request.cpp:257-276 | a request is complete exactly when as many body bytes as announced have arrived, and asks for more before |
| `HttpFacts.LengthHeaderWaits` | src/http/http_request.hpp:114-130 | a request with such a header for its body is accepted when the whole body is there and not before |
| `HttpFacts.StrtoullIs` | src/http/http_request.hpp:121 | spaces, a sign, digits up to the first other byte; too large a number is the largest one, and a minus sign wraps |
| `HttpFacts.FoldedRun` | src/http/http_request.cpp:191-256 | a header line and a folded line after it make one header, whose value is the two parts without the blanks |
| `HttpFacts.LimitsAre` | src/http/http_request.hpp:175-180 | a token byte is refused exactly beyond 16 method bytes, 8192 URI bytes, 64 headers, 256 name bytes and 8192 value bytes |
| `HttpFacts.BodyLimit` | src/http/http_request.hpp:175-180 | body bytes are refused exactly if more than 64 MiB are announced or would be held |
| `HttpFacts.TokenChars` | src/http/http_request.cpp:281-316 | token characters are the letters, the digits and fifteen others |
| `HttpRequest.Request.constructor` | src/http/http_request.hpp:183-192 | a new request is the fresh parser |
| `HttpRequest.Request.TransmissionFinished` | src/http/http_request.hpp:114-130 | looks the first length header up once, caches it, and compares |
| `HttpRequest.Request.ConsumeLine` | src/http/http_request.cpp:81-110 | method and URI bytes with their limits |
| `HttpRequest.Request.ConsumeVersion` | src/http/http_request.cpp:111-190 | the version, accumulating both numbers |
| `HttpRequest.Request.ConsumeLineStart` | src/http/http_request.cpp:191-206 | end of headers, a continuation line, or a new header within the count |
| `HttpRequest.Request.ConsumeHeader` | src/http/http_request.cpp:207-249 | name, value and continuation bytes go to the last header, within its limits |
| `HttpRequest.Request.ConsumeEnd` | src/http/http_request.cpp:257-265 | ends the headers: complete, or on to the body |
| `HttpRequest.Request.ConsumeBody` | src/http/http_request.cpp:266-276 | takes all bytes at hand unless that breaks the limit |
| `HttpRequest.Request.Consume` | src/http/http_request.cpp:74-279 | one step of the parser; position and remaining count move together |
| `HttpRequest.Request.Parse` | src/http/http_request.hpp:98-113 | terminates with the verdict, the fields and the unread rest of the specified parser |
| `HttpRequest.FeedRequest` | src/http/http_request.hpp:98-113 | a request object fed with pieces of any size until there is a verdict has the verdict and the fields of the joined pieces, and an accepted one is within the limits with its body as announced |
| `RangeSet.CanonicalUnique` | src/fundamental/algorithm/range_set.hpp:78-151 | ranges in order with gaps are determined by their points |
| `RangeSet.MergeStep` | src/fundamental/algorithm/range_set.hpp:104-115 | each round of the merge loop meets the internal assert and extends the merged range; containment can only be found before anything is erased |
| `RangeSet.ContainedExactly` | src/fundamental/algorithm/range_set.hpp:65-67 | looking at the first candidate decides whether some member strictly contains the range |
| `RangeSet.MergedPoints` | src/fundamental/algorithm/range_set.hpp:53-57 | the merged range holds the inserted points and those it swallowed, and no other |
| `RangeSet.IntersectionPoint` | src/fundamental/algorithm/range_set.hpp:59-63 | has_intersection holds exactly if there is a common point |
| `RangeSet.SplitPoints` | src/fundamental/algorithm/range_set.hpp:72-74 | the two pieces of a difference keep exactly the points outside the removed range |
| `RangeSet.Ranges.Emplace` | src/fundamental/algorithm/range_set.hpp:99-117 | union of the points in canonical form; false exactly if the range is empty or strictly below the top of a member that holds it, and then nothing changed; otherwise the position of the member that now holds the range; true without a change exactly if a member that holds the range ends where it ends |
| `RangeSet.Ranges.Remove` | src/fundamental/algorithm/range_set.hpp:129-151 | difference of the points in canonical form; true exactly if a point was removed, and otherwise nothing changed |
| `RangeSet.TrueYetUnchanged` | src/fundamental/algorithm/range_set.hpp:90-117 | insertion answers true although nothing changed if and only if a member that holds the range ends where it ends |
| `RangeSet.InsertAtTheTop` | src/fundamental/algorithm/range_set.hpp:99-117 | inserting [5, 10) into the set of [0, 10) reports an update and changes nothing |
| `RangeSet.Replay` | src/fundamental/algorithm/range_set.hpp:78-151 | after any history of insertions and removals the set holds exactly the points of that history |
| `RangeSet.JoinTouching` | src/fundamental/algorithm/range_set.hpp:99-117 | inserting two ranges that touch leaves the one range they make |
| `RangeSet.RemoveInside` | src/fundamental/algorithm/range_set.hpp:129-151 | removing the inside of a range leaves its two ends |
| `PubSub.StepAgrees` | src/rpc/rpc_server.hpp:247-287 | every step keeps index and connections in agreement |
| `PubSub.EveryRunAgrees` | src/rpc/rpc_server.hpp:247-287 | in every state of every run a (key, connection) pair is indexed once if the connection subscribes to the key and not at all otherwise |
| `PubSub.ClosedNotIndexed` | src/rpc/connection.h:448-453 | a closed connection has no entry in any state |
| `PubSub.StaysClosed` | src/rpc/connection.h:448-453 | closing lasts, also through repeated closes |
| `PubSub.ForwardOnce` | src/rpc/rpc_server.hpp:313-329 | a message goes exactly once to each live, unreleased subscriber of its key and to nobody else |
| `PubSub.ComplaintExactly` | src/rpc/rpc_server.hpp:313-329 | the error is raised exactly if nobody subscribes to the key and somebody subscribes to something |
| `PubSub.ServedExactly` | src/rpc/connection.cpp:339-359 | a step serves a key to a connection exactly if it subscribes, unreleased, or was served and the step does not end it |
| `PubSub.ServedByHistory` | src/rpc/connection.cpp:339-359 | in every run a connection is served exactly if the events so far have it subscribe before its release and nothing since ends that |
| `PubSub.DeliveredByHistory` | src/rpc/rpc_server.hpp:313-329 | a message reaches a connection, once, exactly if the events before it say so |
| `PubSub.NotServedAfter` | src/rpc/connection.cpp:349-359 | after an unsubscribe handled by the server, a release, a close or a destruction no message of the key reaches the connection until it subscribes again |
| `PubSub.UnsubscribeDrops` | src/rpc/connection.cpp:349-359 | the key, and no other, is gone from the set of the connection, and no other connection changes |
| `PubSub.UnsubscribedStillServed` | src/rpc/rpc_client.hpp:560-573 | after the request that the client sends to unsubscribe, every later message of the key is still delivered to it, once, until the connection goes away |
| `PubSub.Server.RemoveEntry` | src/rpc/rpc_server.hpp:277-285 | removes one matching entry and no other |
| `PubSub.Server.OnSubscribersRemoved` | src/rpc/rpc_server.hpp:270-287 | removes one entry for each of the keys |
| `PubSub.Server.HandleSubscribe` | src/rpc/connection.cpp:339-348 | a first subscription enters both the set and the index; a repeated one neither |
| `PubSub.Server.HandleUnsubscribe` | src/rpc/connection.cpp:349-359 | removes from both, or from neither |
| `PubSub.Server.ReleaseObj` | src/rpc/connection.h:250-253 | releases and posts one more close |
| `PubSub.Server.CloseConnection` | src/rpc/connection.h:448-453 | empties the set and takes its entries out of the index |
| `PubSub.Server.ForwardMsg` | src/rpc/rpc_server.hpp:313-329 | one delivery for each entry of the key whose connection is live |
| `PubSub.Serve` | src/rpc/rpc_server.hpp:247-329 | a server object driven by any events keeps its index right |
| `Pairing.GenRound` | src/fundamental/algorithm/common.hpp:30-35 | the pairs of a round are those of players at multiples of twice the gap whose partner exists |
| `Pairing.GenTwoPartyPairs` | src/fundamental/algorithm/common.hpp:26-41 | rounds of doubling gaps, as many as the binary logarithm of the number of players rounded up |
| `Pairing.AbsorbedOnce` | src/fundamental/algorithm/common.hpp:26-41 | every player but the first is absorbed in exactly one round |
| `Pairing.PairsDisjoint` | src/fundamental/algorithm/common.hpp:26-41 | pairs of a round share no player, and the first player is never absorbed |
| `Pairing.OnlySurvivorsPlay` | src/fundamental/algorithm/common.hpp:26-41 | who takes part in a round was not absorbed before |
| `Pairing.WinnerHasFold` | src/fundamental/algorithm/common.hpp:26-41 | playing the rounds with any associative operation leaves the in-order fold of all values with the first player |
| `Base64.RankOfChar` | src/fundamental/basic/base64_utils.hpp:20-46 | decode table and alphabet are inverse to each other |
| `Base64.Alphabets` | src/fundamental/basic/base64_utils.hpp:20-21 | the characters are those of the two alphabets written out |
| `Base64.Vectors` | src/fundamental/basic/base64_utils.hpp:48-89 | test vectors of section 10 of RFC 4648, and the same bytes with the other padding character |
| `Base64.GenerateDecodeTable` | src/fundamental/basic/base64_utils.hpp:23-35 | the table built by the loops gives the position of every character of the alphabet and marks all other bytes |
| `Base64.Encode` | src/fundamental/basic/base64_utils.hpp:48-89 | writes the encoding and nothing behind it, if and only if it fits |
| `Base64.Decode` | src/fundamental/basic/base64_utils.hpp:102-161 | succeeds if and only if the text is base64 and the bytes fit, and then writes exactly them; otherwise writes nothing, or exactly the groups before the wrong character; reports the size needed whenever the length is right |
| `Base64.DecodableExactly` | src/fundamental/basic/base64_utils.hpp:108-145 | a text is base64 exactly if its length is a positive multiple of four and all of it before at most two padding characters is in the alphabet |
| `Base64.DecodedLength` | src/fundamental/basic/base64_utils.hpp:112-122 | the number of bytes follows from length and padding |
| `Base64.RoundTrip` | src/fundamental/basic/base64_utils.hpp:48-161 | for both alphabets decoding an encoding gives the bytes back, except for the empty input, which decoding refuses |
| `Base64.EncodedInjective` | src/fundamental/basic/base64_utils.hpp:48-89 | different bytes have different encodings |

## Left out

- Wyhash.PowModExact: gives a sufficient condition only, because an inexact square can still lead to the right power by chance
- Wyhash.Sprp: says only that the result is 0 or 1 for odd n and an unreduced base, which is_prime never passes and where mul_mod need not be exact; n = 0 and n = 1 are excluded because the source divides by zero or shifts for ever
- The BLAKE3 rounds, CPU feature detection and the SIMD variants of hashing many inputs: the compression function is abstract
- The wrap of the BLAKE3 block counter at 2^64 output blocks: counters are unbounded
- Rejection of all composites below 2^64 by is_prime: rests on published searches over the twelve bases; proved is that what it accepts passes the test of Fermat to each of them
- The hash functions of wyhash and make_secret: no property beyond their definition
- TLS, proxies, name lookup, protocol probing and upgraded RPC streams: foreign calls or states of other files
- Reads of the RPC client beyond the responses they deliver, and re-sent subscriptions, which are ordinary writes
- The user thread's part of connect() between its test and its post: the call is one step
- Calls issued after release of the RPC client may never finish; they are steps of the machine but no promise is made
- Kinds of body items and the header lines of an HTTP response: an item is its bytes and whether it has a callback
- The check of can_set_body on the user's thread before an append is posted: the posted handler makes the same check
- Overflow of the HTTP version numbers, which are machine integers in the source and unbounded here
- The lookup tables that an accepted HTTP request fills, such as lower-case header names and query parameters
- Reuse of a request object after reset_all, which only resets the parser state
- get_bytes_range: rests on string splitting that is not part of this model
- Overflow of the gap in the pairing beyond 2^63 players
- get_intersection of ranges and shuffle: nothing to prove beyond their definition
- Stream reader/writers, serialized_writer, SQLite wrappers, argument parsing, allocators, traceroute and applications
