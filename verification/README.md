# go-muxrpc, modelled and verified

go-muxrpc carries many call streams over one byte connection. Each end keeps a table of active
requests and a set of closed ids; a serve loop reads packets and hands their bodies to the streams;
users read from sources and write to sinks at the same time. This project models that machinery
layer by layer and proves what the layers guarantee, alone and together.

| file | models |
|---|---|
| Base.dfy | bytes, 32-bit integers (wrap-around, negation), errors, dotted names |
| Codec.dfy | the packet-stream codec: flags, 9-byte headers, bodies, the goodbye header |
| FrameBuffer.dfy | the queue of frames flattened into one byte buffer, and its waiters |
| Source.dfy, Sink.dfy | the reading and the writing half of a stream |
| Pipe.dfy | the adapters between byte streams and frames |
| Manifest.dfy | the manifest: a tree of plugin groups and its flat index |
| Session.dfy | one endpoint: tables, serve iterations, calls, user actions, closing, Terminate |
| Network.dfy | two endpoints joined by two FIFO channels |
| Quiescence.dfy | the network without user actions: it runs dry |
| Serve.dfy | the serve loop on the bytes of the connection |
| Wires.dfy | two endpoints joined by two streams of bytes, and when they are the network of packets |
| Closing.dfy | how things end: runs left to themselves, closes that race with data, closes that are never told |
| Ends.dfy | the end of a stream that arrives is the one that was sent |
| EndToEnd.dfy | all layers: a reader at one end of a connection while everything else goes on |
| RpcServer.dfy | the `rpc` object itself, with requests, sources and sinks on the heap, against Session and Serve |
| Json.dfy | an encoding that satisfies what is assumed of the JSON library |

Operations that update state in place are classes whose methods are proved equal to a function of the
old state; the theorems are about these functions and about runs of them. A run is any list of events
(packets arriving, user actions at either end, reads of any size that start, wait and return), so every
theorem over runs covers every interleaving of the steps that the model has. One iteration of `serve` and
one `WritePacket` are one step each. `Next`, and with it `Read`, is two: up to its `select`, and from the
arm that the `select` takes.

## Main results

The results about two endpoints are stated on the bytes of the connection (Wires, EndToEnd), with the one
condition that they need: **no serve iteration meets data with a body for an active stream whose source its
own side has failed** (`Wires.NeverLoses`). `Wires.RunMatches` shows that the bytes follow the network of
packets exactly as long as this holds. `Wires.CarefulRunsStayInStep` shows that it holds in every run in which
each source that a user fails (by `Cancel`, or by a `Next` that ends with a context) is taken out of the table
before the serve loop of that end takes its next packet; `Wires.GentleRunsStayInStep` is the case in which no
user fails one.

- **Per-stream delivery.** Under this condition, in every run of two endpoints, for every stream and both
  directions, the bodies that a source accepted are a prefix of those the peer's sink wrote; while the
  source accepts, accepted and in-flight bodies together are exactly the written ones. Readers get them in
  order, and a close arrives after the data that was written before it.
- **Closing handshake.** Under this condition, in every run: once a sink has sent an end packet, one is in flight or the
  peer has taken the stream out of its table. Two ends that are left to their serve loops come to rest after a
  bounded number of turns: no byte is left on a connection whose receiver still serves, everything written has been
  accepted by the streams that still accept, and every stream whose end was sent is gone. A sink that closes without
  an end packet (by a write that is too large, refused, or comes after the end of the context) never sends another
  packet, and the peer is never told.
- **Errors.** Under this condition, in every run in which no user fails the source of a stream itself, it fails
  only with what the peer's first end packet for it says: a regular end, or the text of the error that the peer
  closed with. A reader reports exactly that: io.EOF for a regular end, and otherwise the error.
- **No silent exits.** Over every session with any peer, each stream that the serve loop, Terminate or a user who closes
  first puts away has sent an end packet or has a closed sink. What each iteration does with each kind of packet is
  stated packet by packet, down to the bytes of the reply and the state of source, sink and context.
- **Wake-ups.** In every run, also of the whole network, a read that waits can return if and only if a frame is
  queued, the source was cancelled, or the context is done. A failure that `Next` itself records when it ends with a
  context closes no channel, so other readers are not woken by it, nor by any later `Cancel`.
- **Known ids.** Under this condition, a serve loop only ever meets packets of streams in its tables and
  opening packets of calls. It ends if and only if it must reject a call whose error text does not fit
  into a packet.
- **Framing.** Between two ends running this code the packet boundary is lost at exactly one kind of iteration,
  named above. Against any peer there is a second one, an end packet for an id in neither table
  (`Serve.UndrainedExactly`); until a body is left unread, the loop reads byte for byte what the network of packets
  delivers, with any user actions between the iterations.
- **Id lifecycle.** Against any peer and any users, over whole sessions including Terminate: the tables
  stay disjoint, ids never leave them, and a handler is started at most once per id.
- **Quiescence.** Every serve iteration lowers 2·(data packets in flight) + (end packets in flight) +
  (active requests at both ends), so the closing handshake ends and the network of packets drains.
- **Codec.** Parse after print, print after parse, every cut point, prefix-freeness.
- **Frame buffer.** It refines a plain queue of frames over every run of its operations.
- **Byte pipe.** Whatever the write and read sizes, the bytes read are a prefix of those written, also
  across two endpoints and with reads that wait while packets arrive. Every report of the end comes after
  all accepted frames if and only if no waiting read sees its context end while a frame is queued.
- **Manifest.** The flat map agrees with the tree, and all orders of visiting the keys give the same map if
  and only if no two methods share a dotted name with different types.

## Where the code differs from what one would expect

These are properties that fail. The code is modelled as it is; an input on which it fails is given, and the
condition under which it meets the property is proved.

- *A read can report the end too early.* `srcReader.Read` waits with the stream's own context (rwc.go:70),
  so two arms of the `select` in `Next` become ready together when the stream is closed, and the one for
  the caller's context returns false even if a frame is queued (stream2_source.go:119-125). `Read` then
  returns `io.EOF` with accepted bytes unread: `Pipe.EarlyEndHappens` gives the run, `Pipe.BytePipe` and
  `Source.EndsEarlyExactly` the exact condition.
- *A cancelled source loses the packet boundary.* The interface comment on `Cancel`
  (stream2_source.go:29-31) says that an end packet is sent back. `Cancel` sends nothing; the next data
  packet of the stream makes `consume` fail without reading the body (stream2_source.go:165-167), the
  serve loop closes the stream and takes the body for a header. `Serve.EarlyCancelHappens` gives the run,
  `Serve.UndrainedExactly` and `Wires.RunMatches` the exact condition. An ordinary `Request.CloseWithError` begins with
  that `Cancel` and removes the id only after two writes (request.go:177-188): if the loop takes a packet in
  between, the boundary is lost as well. `Closing.CloseRaceExactly` has all the points at which it can.
- *A sink can close without telling the peer.* After a write that is too large, `ByteSink` is closed, and so no
  end packet is ever sent for the stream, by no close and not by Terminate: `Sink.ClosesSilentlyExactly` has
  the exact cases, `Closing.SilentCloseHangs` a run after which
  the caller's stream stays open and empty for as long as its own user does not end it.
- *A failed source may not wake its readers.* A `Next` that ends with a context records the failure without closing
  the channel that others wait on, and `Cancel` then returns early (stream2_source.go:66-80, 112-125):
  `Source.FailureWakesExactly`, `Source.FailureIsSettled`.
- *A clean close is not recorded.* Both arms of the `select` in `ByteSink.CloseWithError` return, so
  stream2_sink.go:132 is never reached and a second end packet can follow. `Request.CloseWithError`
  therefore sends two end packets on every regular end: `Session.CloseRequestSends`.
- *A call can end the peer's serve loop.* If a method is not handled and the text of the rejection is
  too large for a packet, `WritePacket` fails and the loop returns: `JsonExample.BadCallExists` gives a
  call and the run, `Network.KnownIds` the exact condition.
- *A header without its body is not an error* for `ReadAllPackets` if the stream ends exactly after the
  header (codec/utils.go:31-35): `Codec.CutStream`.
- *Dotted names mislead.* Paths with a dot in an element can be reported as handled although they lead
  nowhere: `Manifest.DottedPathMisleads`, `Manifest.DisagreesExactly`. With a dot in a key the flat map can
  depend on the iteration order: `Manifest.DottedKeysDisagree`, `Manifest.OrdersAgreeExactly`.
- *`getNextFrameReader` without a frame* skips bytes without recording it, and on a buffer with a torn
  tail hands out the tail and wraps the frame counter: `FrameBuffer.NextFails`,
  `FrameBuffer.UnguardedNextReadsTail`.

## Model

| member | source | states |
|---|---|---|
| Base.IsErrorExactly | stream2_source.go:87-89 | an error counts as its target if and only if it is the target inside any number of layers of wrapping |
| Codec.FlagRoundTrip | codec/packet.go:25-38 | every flag word of eight independent bits survives as the flag byte |
| Codec.FlagBits | codec/packet.go:25-38 | string is bit 1, JSON 2, end or error 4, stream 8, and the upper four bits travel at 16 to 128 |
| Codec.HeaderRoundTrip | codec/doc.go:8-14 | a header survives as 9 big-endian bytes, for every int32 id and every uint32 length |
| Codec.HeaderLayout | codec/doc.go:8-14 | byte by byte: the flags, the length and then the id, most significant byte first, negative ids in two's complement |
| Codec.SampleHeader | codec/doc.go:8-14 | a header as nine numbers |
| Codec.ParsePrintedAll | codec/utils.go:13-41 | reading printed packets gives exactly those packets, then whatever the remaining bytes give, errors included |
| Codec.ParseAfterPrint | codec/writer.go:24-67 | everything written before Close is read back, up to the first packet that is itself the all-zero goodbye; bytes after Close do not matter |
| Codec.ParseConsumes | codec/utils.go:16-39 | what a successful read returns re-encodes to exactly the bytes consumed, and the reader stopped at the end, a goodbye, or a header whose body is missing |
| Codec.ParseExactly | codec/utils.go:13-41 | for all bytes and lists: reading succeeds with this list if and only if the bytes are the list's encoding followed by such a stop |
| Codec.CutStream | codec/utils.go:16-39 | a stream cut anywhere inside packet j: the packets before j if the cut is on the boundary or exactly after the header, an error at every other point |
| Codec.LocateCut | codec/utils.go:16-39 | every cut point of an encoded list is an offset into exactly one packet, so CutStream covers all of them |
| Codec.PrefixFree | codec/reader.go:47-61 | from equal bytes follow equal first packets and equal rests |
| Codec.PrintInjective | codec/writer.go:33-45 | two lists of non-goodbye packets with the same encoding are the same list |
| Codec.Writer.WritePacket | codec/writer.go:24-48 | the whole packet goes out, or an oversized body leaves the stream alone, or a failing connection keeps a cut-off packet at its end |
| Codec.Writer.Close | codec/writer.go:50-67 | nine zero bytes, or the part of them that the connection took; then the connection is closed if it can be, and the error says whether both worked |
| Codec.Reader.ReadHeader | codec/reader.go:47-61 | end of stream, a cut header, the goodbye and a header are told apart, and the cursor moves behind the nine bytes |
| Codec.Reader.ReadBodyInto | codec/reader.go:63-78 | delivers the announced bytes, and reports an error exactly if the stream ended before them |
| Codec.Reader.ReadPacket | codec/reader.go:21-44 | succeeds exactly if the stream starts with an encoded non-goodbye packet, and consumes exactly it |
| Codec.Reader.ReadAllPackets | codec/utils.go:13-41 | the loop computes ParseAll, the function that the theorems above are about |
| FrameBuffer.PutHolds | stream2_source.go:204-230 | a complete body becomes the last frame: store is the rest of the current frame and then length and body of every queued one |
| FrameBuffer.ShortPutHolds | stream2_source.go:211-218 | a body that stops short is an error, adds no frame, wakes nobody and leaves only a tail behind the frames |
| FrameBuffer.NextHolds | stream2_source.go:248-278 | with a frame counted, the next frame becomes the current one however much of the old one was read, and the counter drops by one without wrapping |
| FrameBuffer.NextFails | stream2_source.go:252-264 | on an empty queue the call fails; the buffer is in order afterwards if and only if the current frame had been read to its end |
| FrameBuffer.UnguardedNextReadsTail | stream2_source.go:261-277 | called without a frame on a buffer with a torn tail, it hands out the tail's length and the counter wraps to 2^32-1 |
| FrameBuffer.ReadHolds | stream2_source.go:280-292 | a read of any size delivers the next bytes of the current frame and touches nothing else |
| FrameBuffer.StepRefines | stream2_source.go:204-292 | one operation on the buffer and on a plain queue of frames give the same output and matching states |
| FrameBuffer.RefinesQueue | stream2_source.go:183-292 | every run of any mix of operations gives the same outputs as a plain queue of frames, so each frame's exact bytes come out in order |
| FrameBuffer.CopyBodyWaiters | stream2_source.go:222-228 | a successful copyBody closes every channel ever handed out and not yet closed; a failed one closes none |
| FrameBuffer.WaitForMoreWaiters | stream2_source.go:232-246 | the new channel is closed at once if and only if a frame is counted, and waits otherwise |
| FrameBuffer.NoLostWakeUp | stream2_source.go:220-246 | over every run: each channel ever made is waiting or was closed exactly once, and none waits while a frame is counted |
| FrameBuffer.NewBufferWaits | stream2_source.go:183-246 | from a new buffer, over every run: every channel handed out is waiting or closed, never both, and as long as one waits there is nothing to read |
| FrameBuffer.WokenMeansFrame | stream2_source.go:232-246 | as long as no frame is taken, a channel made from now on is found closed only when there is a frame to read |
| FrameBuffer.FrameBuffer.CopyBodyFrom | stream2_source.go:204-230 | the method, loop over the waiters included, computes the CopyBody of the lemmas |
| FrameBuffer.FrameBuffer.WaitChannel | stream2_source.go:232-246 | the method computes WaitForMore |
| FrameBuffer.FrameBuffer.GetNextFrameReader | stream2_source.go:248-278 | the method computes NextFrame, on its failure path too |
| FrameBuffer.FrameBuffer.ReadFrame | stream2_source.go:286-292 | one Read of the counting reader computes ReadSome |
| Source.ErrAfterCancel | stream2_source.go:66-92 | after the first Cancel Err is silent exactly for nil or an error that is or wraps EOF or Canceled, and otherwise gives that error; a second Cancel changes nothing |
| Source.ErrExactly | stream2_source.go:82-92 | Err hides the failure exactly if it is EOF or Canceled inside any number of layers of wrapping |
| Source.DeliverHolding | stream2_source.go:161-177 | a body is accepted exactly if the source has not failed and the body is complete; a short one fails the source with the error of consume and keeps all queued frames intact |
| Source.TakeHolding | stream2_source.go:137-159 | Bytes delivers exactly the next accepted body and Reader its first bytes, and the frame count drops by one |
| Source.DeliversInOrder | stream2_source.go:36-177 | every run of a source: frames are delivered once, in order and unchanged; a failure is final and nothing is accepted after it |
| Source.FailedSourceDrains | stream2_source.go:94-108 | for calls of Next made after the failure: the loop of Next and Bytes runs exactly once per queued frame, delivers all of them and no byte of a torn tail, and then Next reports the end |
| Source.EndsEarlyExactly | stream2_source.go:110-132 | a Next that was waiting returns false with accepted frames left if and only if it sees the caller's context and a frame came in meanwhile |
| Source.WakeRecords | stream2_source.go:110-132 | what each arm of the select records and returns: a context that ends a Next on an unfailed source leaves its own error, which Err gives unless it means a regular end; a failure that is there stays, and the channels record nothing |
| Source.TimeoutIsReported | stream2_source.go:112-125 | whatever happens to the source after a Next ended with a context, Err gives the error of that context |
| Source.WaitingSourceDrains | stream2_source.go:94-133 | the same loop with its first Next waiting when the source fails: everything is delivered if and only if that is not the case |
| Source.FailureWakesExactly | stream2_source.go:66-133 | the step that fails a source closes the channel that waiting calls of Next listen to if and only if it is not a Next that ends with a context |
| Source.FailureIsSettled | stream2_source.go:66-80 | over every run of a failed source that stays so: a channel that was not closed by the failure is never closed, whatever is cancelled later |
| Source.ByteSource.CancelWith | stream2_source.go:66-80 | the first cancel sets the failure (EOF for nil) and closes the channel, later ones change nothing |
| Source.ByteSource.Err | stream2_source.go:83-92 | the failure, or nothing if it means a regular end |
| Source.ByteSource.ConsumeBody | stream2_source.go:161-177 | the method computes Consume; on a failed source nothing changes |
| Source.ByteSource.StartNext | stream2_source.go:95-110 | what Next decides under the lock: over, ready, or waiting on a channel of the buffer |
| Source.ByteSource.FinishNext | stream2_source.go:110-132 | the method computes Wake, of which WakeRecords says what each arm records and returns |
| Source.ByteSource.NextBytes | stream2_source.go:150-159 | the method computes TakeBytes |
| Sink.EncodingBits | stream2_sink.go:52-63 | exactly which flag bits SetEncoding moves: the string bit is never taken back, the JSON bit only by TypeBinary |
| Sink.EncodedWrite | stream2_sink.go:52-86 | SetEncoding reaches the wire: the next packet has type 0, 1 or 2, plus 8 on a stream |
| Sink.WriteExactly | stream2_sink.go:65-92 | a write in full, for every sink, context, size and connection: the packet with its id, body and the flags of the sink, or which error is returned and remembered |
| Sink.CloseExactly | stream2_sink.go:94-134 | a close in full, for every sink, error and outcome: the bytes of the end packet, the error returned and the one remembered |
| Sink.EndPackets | stream.go:92-121 | end packets byte by byte: flags 6, or 14 on a stream, with `true` in ASCII or the encoded text of the error |
| Sink.TrueIsAscii | stream.go:90 | the literal is the ASCII of `true` |
| Sink.WriteFacts | stream2_sink.go:65-92 | a write to a sink with an id sends the body under that id and with the sink's flags in one non-end packet and changes nothing, or sends nothing and leaves the sink closed |
| Sink.CloseFacts | stream2_sink.go:94-134 | a close sends one end packet; an error close is recorded with its error, a clean one leaves the sink as it was, a close that times out records the timeout whether or not the packet goes out late |
| Sink.EndsAreEnds | stream.go:90-121 | the end packets carry the end flag, are never the goodbye, and an error body is never the literal `true` |
| Sink.ClosesSilentlyExactly | stream2_sink.go:65-134 | an open sink becomes closed without an end packet if and only if a write comes after the end of the context, is too large or is refused, or the end packet itself is too large, refused, or not written within the limit |
| Sink.ClosedSinkIsSilent | stream2_sink.go:65-134 | over every run a closed sink sends nothing and stays closed with the same error |
| Sink.ErrorEndIsLast | stream2_sink.go:94-134 | over every run of a sink an error end packet is the last packet it sends |
| Sink.CleanCloseRepeats | stream2_sink.go:104-132 | a clean close leaves no trace: closing again sends the same end packet again |
| Sink.ByteSink.Encode | stream2_sink.go:52-63 | the method computes SetEncoding |
| Sink.ByteSink.WriteBody | stream2_sink.go:65-92 | the method computes Write, of which WriteExactly says everything, with the count and the bytes on the connection, on failing and working ones |
| Sink.ByteSink.CloseWithError | stream2_sink.go:94-134 | result, new state and bytes for closed sinks, refusing and working connections, and writes that do not come to an end within ten seconds, whose packet is left behind |
| Sink.ByteSink.WriteLate | stream2_sink.go:115-119 | the write that was left behind still puts its packet on the connection, and the sink does not learn of it |
| Pipe.ChunksPartition | rwc.go:23-45 | the blocks of a write are its bytes in order, cut into pieces of 65536 bytes and a last one of 1 to 65536 |
| Pipe.AllChunksFlat | rwc.go:23-45 | the blocks of any list of writes concatenate to the concatenated writes |
| Pipe.SinkWriter.Write | rwc.go:23-45 | on every connection `written` counts exactly the bytes of the blocks that went out whole, one packet each and in order; without an error that is all of them |
| Pipe.StartInOrder | rwc.go:63-87 | a Read that does not have to wait: it yields the next bytes of the stream, at least one if it may and at most as many as asked, and fewer only at the end of a frame; it reports only when every accepted frame was taken, io.EOF exactly if the failure is or wraps EOF or Canceled and otherwise the failure; it waits only when nothing is left |
| Pipe.FinishInOrder | rwc.go:70-87 | a Read that waited, by the arm of the select: the same, errors included, except that it reports with a frame left if and only if it sees the context and a frame is queued |
| Pipe.RunInOrder | rwc.go:57-87 | over every run of reads that start and return, arrivals, cancels, wake-ups and ends of the context: bytes in order, every report says why the source failed, and all reports were complete if and only if that case never occurred |
| Pipe.BytePipe | rwc.go:13-87 | for any writes and any read sizes the bytes read are a prefix of the bytes written; every report of the end comes with no accepted frame left if and only if no waiting read sees its context end while a frame is queued, and then all that arrived was read |
| Pipe.WaitEndsExactly | stream2_source.go:110-132 | a Read that waits can return if and only if a frame is queued, the source was cancelled, or the context is done; with a frame queued its channel is closed, and that arm takes the frame |
| Pipe.ReadsWake | rwc.go:57-87 | so it is in every run of the reading end: no wake-up is lost |
| Pipe.EarlyEndHappens | rwc.go:70-78 | a run of five events, for any read size and any body, in which a Read returns io.EOF with the accepted body unread |
| Pipe.SrcReader.ReadInto | rwc.go:63-87 | a Read until it returns or waits in the select computes ReadStart, recursion included; StartInOrder says what that is |
| Pipe.SrcReader.ResumeRead | rwc.go:70-87 | from the arm of the select on it computes ReadFinish; FinishInOrder says what that is |
| Manifest.Append | rpc_manifest.go:136-155 | Go's append: whether or not it writes into the shared backing array, the elements of the slice it was given stay |
| Manifest.RecurseMap | rpc_manifest.go:136-155 | visiting keys in any order it fails exactly if some value is neither string nor object; otherwise the map is what that order makes of the tree and holds exactly its methods, and no path is corrupted by the shared backing array |
| Manifest.JoinInjective | request.go:80-82 | on non-empty paths of dot-free elements the dotted name determines the path |
| Manifest.FlatAgreesWithTree | rpc_manifest.go:99-155 | in a flattened dot-free tree the name of such a path is stored exactly if the path leads to a method, with that method's type |
| Manifest.OrdersAgreeExactly | rpc_manifest.go:136-155 | for every manifest of strings and objects: all orders of visiting the keys give the same map if and only if no two method paths share a dotted name with different types |
| Manifest.LastWins | rpc_manifest.go:137-141 | for every method there is an order in which its type is the one stored |
| Manifest.FillStored | rpc_manifest.go:136-155 | whatever the order, the map has every method of the tree and nothing else, and where methods share a name the type of one of them |
| Manifest.DotFreeNames | rpc_manifest.go:128-135 | dot-free keys are enough for that |
| Manifest.DottedKeysDisagree | rpc_manifest.go:136-155 | a manifest with a dot in a key for which it fails |
| Manifest.DisagreesExactly | rpc_manifest.go:99-108 | for any non-empty path the map and the tree disagree if and only if the path has a dot in an element and its name is that of a method elsewhere |
| Manifest.DottedPathMisleads | rpc_manifest.go:99-108 | a concrete path for which they disagree |
| Manifest.ManifestStruct.Load | rpc_manifest.go:78-126 | a decoded manifest replaces the old one, or on an error nothing changes |
| Manifest.ManifestStruct.Handled | rpc_manifest.go:99-108 | a missing manifest handles everything, otherwise the flat map decides |
| Manifest.LoadThenAsk | rpc_manifest.go:99-126 | for a clean dot-free manifest Handled gives the answer of the tree |
| Session.ReceiveInv | rpc_server.go:354-462 | one serve iteration on any packet from any peer keeps the tables in order, forgets no id, answers with at most one end packet, for the packet's own id, and starts a handler only for an unknown id; the next five rows say what it does |
| Session.EndAnswers | rpc_server.go:383-427 | an end packet for an active stream, whether or not its own user has failed the source: the state of source, sink and context afterwards, the id closed, and the bytes of the reply; a body that is neither `true` nor an error ends the loop |
| Session.FailedDataAnswers | rpc_server.go:452-460 | data for an active stream with a failed source: the body stays unread, the stream is closed in the same full sense, and the peer gets the text of the source's failure if the sink is open, the packet fits and the connection takes it |
| Session.DataAccepted | rpc_server.go:452-453 | data for an active stream that accepts: its body is the next one accepted, and nothing else changes or is sent |
| Session.OtherPackets | rpc_server.go:195-331 | all other packets: nothing for closed ids, an unread body for an end packet of an unknown id, and the end of the loop for what is neither that nor a call |
| Session.NobodyLeavesSilently | rpc_server.go:473-502 | over every session with any peer: each stream put away by the serve loop, by Terminate or by a user who closes first has sent an end packet or has a closed sink |
| Session.ActInv | rpc_client.go:232-280 | a call, a user action or a user's close keeps the tables in order; only a call adds an id, above all earlier ones |
| Session.IdLifecycle | rpc_server.go:211-261 | over every session with any peer, Terminate included: disjoint tables, entries under their own ids, 0 never an id, closed ids never active again, a handler at most once per id |
| Session.ReceiveOpening | rpc_server.go:263-326 | what any packet that reads as a call does under an unknown id (type duplex, source or sink on a stream, async or empty otherwise): the call is opened and its handler started, or rejected and its id closed, or, if the rejection cannot be sent, the loop ends |
| Session.UnknownIdExactly | rpc_server.go:212-326 | a packet under an unknown id is no error if and only if it is an end packet or a call that is handled or can be rejected |
| Session.OpeningIsCall | rpc_client.go:250-275 | what a client sends for each of its call types is read as that call at the other end |
| Session.CallOnTheWire | rpc_client.go:177-275 | a call of each type: the next id, the bytes of its opening packet, and the flag byte of what the caller then writes, for each encoding |
| Session.OpenFails | rpc_client.go:270-275 | an opening packet that does not go out leaves the call as it was |
| Session.AnswerOnTheWire | request.go:144-171 | the answer to an accepted call: the flag byte of a body written after SetEncoding |
| Session.UserWrites | stream2_sink.go:65-92 | a write to any stream that users hold, in full: packet, flags, record, or the error that closes the sink |
| Session.ContextEnds | stream2_sink.go:72-79 | a stream's context ends once, and the next write returns and remembers its error |
| Session.UnhandledCallIsRejected | rpc_server.go:233-246 | any unhandled call, from any peer, is answered by exactly one end packet naming the method, and its id is dead; if and only if the text does not fit, the loop ends |
| Session.RejectedStaysRejected | rpc_server.go:196-209 | over the rest of every session nothing happens with a dead id: no reply, no packet, no handler, no entry |
| Session.DeadStep | rpc_test.go:540-653 | early data for a rejected call changes nothing and sends nothing |
| Session.CloseReachesReader | rpc_server.go:414-426 | closing a sink ends the stream at the other side: its reader sees a regular end or the error's text, and one end packet of the same kind goes back unless the sink there is closed |
| Session.CloseRequestSends | request.go:177-188 | the bytes of the end packets that closing a request with an open sink sends: two regular ones for nil and io.EOF, a regular one and an error for luigi.EOS and for what wraps it or io.EOF, and one error otherwise; and the failure that the source gets |
| Session.CloseRequestExactly | request.go:177-188 | for any sink and any connection: closing a request closes it twice, first as a regular end if the error is nil or is or wraps io.EOF or luigi.EOS, then with the error, each in the full sense of Closes |
| Session.CloseRequestIsSeen | request.go:177-188 | when these packets arrive, the peer's reader sees a regular end in those cases, and otherwise the text of the error |
| Session.UserTexts | errors.go:38-40 | the texts that travel, for the errors that users and the session close with |
| Session.CloseRequestIsActs | request.go:177-188 | closing a request is a sequence of the user actions that the runs are made of |
| Session.ClosedStreamIsSilent | stream2_sink.go:65-134 | over the rest of every session, closeStream and Terminate included: once the sink of an opened stream is closed, no packet is sent under its id |
| Session.TerminateInv | rpc_server.go:486-502 | after Terminate no request is active, no id is forgotten, and every formerly active stream is closed for writing and failed for reading with its accepted frames untouched |
| Session.TerminateTells | rpc_server.go:486-502 | Terminate packet by packet: each active stream is closed with the session's own error in the full sense of Closes, the packets written are those of these streams, and nothing else changes |
| Session.TerminatedStreamDrains | rpc_server.go:495-500 | a reader of a stream ended by Terminate still gets exactly the frames it had not taken, then the end |
| Session.TerminateIsActs | rpc_server.go:486-502 | with every call opened, Terminate is a list of the user actions that the runs of two endpoints are made of |
| Network.OthersKept | rpc_server.go:429-461 | a step of one stream leaves the delivery invariant of every other stream, in both directions, as it was |
| Network.RunKeeps | rpc_server.go:339-463 | the invariant of all streams holds over every run of the network of packets |
| Network.KnownIds | rpc_server.go:264-326 | in every run of the network of packets each packet read belongs to a known stream or opens a call; the loop ends if and only if the call cannot be rejected; a body stays unread if and only if it is data for a source failed by its own side |
| Network.StreamsDeliver | rpc_server.go:429-461 | in every run of the network of packets, for every stream and both directions: accepted bodies are a prefix of the written ones, and while the source accepts, accepted plus in flight is exactly what was written |
| Network.ClosesComeLast | rpc_server.go:383-427 | in every run of the network of packets, when a loop takes the end packet of an accepting stream, all that the peer wrote before that close was accepted |
| Network.ClosesArrive | rpc_server.go:383-427 | in every run of the network of packets, for every stream and both directions: after an end packet was sent one is in flight, or the receiver has taken the stream out of its table, or its loop has stopped |
| Network.ReadersGetWhatWritersSent | stream2_source.go:94-159 | in every run of the network of packets a successful Next is followed by the next body the peer wrote, and a failed source hands out the rest of what it accepted and then ends |
| Quiescence.ReceiveCheaper | rpc_server.go:384-461 | one serve iteration on any packet: what it sends and opens weighs less than the packet it takes |
| Quiescence.DeliveryDecreases | rpc_server.go:354-462 | every iteration at either end strictly lowers the measure of the network |
| Quiescence.BoundedServing | rpc_server.go:384-461 | without user actions at most that many packets are served, in any order of the two loops |
| Quiescence.NetworkDrains | rpc_server.go:354-462 | after that many rounds, and any more, neither loop has a packet to take |
| Quiescence.RunsDrain | rpc_server.go:473-483 | every run of two endpoints, left to itself, comes to rest |
| Serve.ServePrinted | rpc_server.go:354-462 | on a whole packet the loop body does with the bytes what Receive does with the packet, and moves over header and, if it was read, body |
| Serve.UndrainedExactly | rpc_server.go:394-404 | a continuing iteration leaves the body unread if and only if it is an end packet for an unknown id or data for an active stream whose source failed |
| Serve.BoundaryExactly | rpc_server.go:197-209 | the cursor is on the packet boundary again if and only if the body was read or is empty |
| Serve.DeliveryOnBytes | packer.go:45-75 | a delivery in the network is an iteration on the bytes of the connection, and the wire is in step exactly if the bytes left are the remaining packets |
| Serve.EarlyCancelLosesStep | stream2_source.go:165-167 | after a user cancels a source, the next non-empty data packet of the stream leaves its body in the connection |
| Serve.EarlyCancelHappens | rpc_server.go:452-460 | a run of two endpoints, for any accepted call, in which that happens |
| Serve.ShortDataCloses | rpc_server.go:452-460 | a body cut off by the end of the connection fails the source and closes the stream in the full sense of Closes, and all frames accepted before stay readable |
| Serve.CutBody | rpc_server.go:383-460 | the other iterations whose body is cut off: an end packet for an active stream ends the loop and leaves the stream alone, a failed source is answered all the same |
| Serve.NoHeaderStops | rpc_server.go:357-381 | no complete header, or nine zeros: the loop ends |
| Serve.OnHeaderInv | rpc_server.go:354-462 | an iteration on any bytes, also on a connection that ends inside a packet, keeps the tables in order |
| Wires.LocalOnBytes | rpc_server.go:354-462 | one move of one end on the bytes, against any peer, is the move on the packets, and the cursor stays on the boundary exactly if the packet model says so |
| Wires.WireFraming | rpc_server.go:354-462 | every run of one end against any peer, with any user actions between the iterations: as long as no body is left unread, the loop reads the bytes packet by packet, writes whole packets, and its cursor stands on a packet boundary |
| Wires.RunMatches | rpc_server.go:452-460 | as long as no iteration meets data with a body for an active stream whose source its own side failed, a run of two ends on their byte streams is the run of the network of packets; the boundary is kept if and only if none does |
| Wires.BytesConsistent | rpc_server.go:339-463 | in every such run on the bytes: whole packets in flight, known ids at both ends, delivery of every stream and of its close in both directions, and readers get what writers sent |
| Wires.CarefulRunsStayInStep | stream2_source.go:66-133 | if each source that a user fails is taken out of the table before the loop of that end goes on, the boundary is never lost, and the active streams with a failed source are among those still owed |
| Wires.GentleRunsStayInStep | stream2_source.go:66-133 | if no user cancels a source and no Next ends with a context, no active stream ever has a failed source and the boundary is never lost |
| Wires.EarlyCancelLoses | rpc_server.go:452-460 | the run of Serve.EarlyCancelHappens violates the condition |
| Wires.BadCallStops | rpc_server.go:233-242 | any call that fits, is not handled and cannot be rejected ends the peer's loop after three events, on packets and on bytes |
| Closing.RunsComeToRest | rpc_server.go:354-462 | on the bytes, after any run and as many turns of both loops as its measure says, if the boundary is not lost: each direction whose receiver still serves is empty, streams that accept have all that was written, and streams whose end was sent are out of the table |
| Closing.CarefulRunsComeToRest | rpc_server.go:473-483 | the same for every run whose users put away what they fail |
| Closing.CloseRaceExactly | request.go:177-188 | a call, an answer on its way and an ordinary close of six actions: the boundary is lost if and only if the answer is taken after the first and before the last of them |
| Closing.NeverTold | stream2_sink.go:65-91 | after a sink closed with nothing in flight, in every continuation: no packet of the stream reaches the peer, whose end of it stays as it is while its own users leave it alone |
| Closing.SilentCloseHangs | stream2_sink.go:85-90 | a run of four events, for any accepted call and any body that is too large, after which that is so |
| Ends.ErrorsArrive | rpc_server.go:383-427 | in every run of the network of packets in which no user of an end fails the source of a stream or puts it away first: that source fails only after the peer sent an end packet, and with what the first of them says |
| Ends.HeardOf | stream.go:92-121 | which is a regular end for a regular close, and the text of the error for any other |
| EndToEnd.NetEvolves | rpc_server.go:429-461 | any event of the network that takes no frame from a stream only makes it longer: nothing accepted is lost, a failure is final, and a waiting reader is only woken for a frame |
| EndToEnd.ReaderActs | rwc.go:63-87 | what a Read does to its source is a sequence of the user actions that runs are made of |
| EndToEnd.BytesEndToEnd | rwc.go:23-87 | in every run of two endpoints with a reader at either end, with reads that start, wait and return while packets arrive: a prefix of the bytes written at the other end, complete ends under the exact condition of the byte pipe, reports that say why the source failed, on packets, and on bytes as long as the boundary is kept |
| EndToEnd.ReportsWhatWasSent | rwc.go:70-78 | under the same condition, over every run with a reader: it reports io.EOF if the peer's sink sent a regular end, and otherwise the error in its error packet |
| EndToEnd.ReadsWake | rwc.go:57-87 | in every such run a read that waits can return if and only if a frame is queued on its stream, the stream was cancelled or its context is done |
| RpcServer.Request.Consume | stream2_source.go:161-177 | consume on the source object of a request, with its history |
| RpcServer.Request.ClosePartsOf | rpc_server.go:473-476 | cancel, close and abort of the source, sink and context objects compute CloseParts, and its end packet is written whole if the connection has room for it |
| RpcServer.Request.CloseBothOf | request.go:177-188 | the request's own close followed by closeStream computes CloseRequest, of which CloseRequestExactly says everything, on working and failing connections |
| RpcServer.Rpc.CloseWithError | request.go:177-188 | the same on the session: the object stays valid, the id moves to the closed ones |
| RpcServer.Rpc.CloseStreamOf | rpc_server.go:473-483 | closeStream computes CloseStream on tables and connection, also on one that fails |
| RpcServer.Rpc.IsTrue | rpc_server.go:465-471 | exactly the four bytes of `true` |
| RpcServer.Rpc.ServeEnd | rpc_server.go:383-427 | the end-packet branch: effect, reply, cursor and whether the loop goes on |
| RpcServer.Rpc.ServeData | rpc_server.go:452-461 | the data branch computes ReceiveData, with the failing source that leaves the body unread; DataAccepted, FailedDataAnswers and CutBody say what it is |
| RpcServer.Rpc.ParseNewRequest | rpc_server.go:264-326 | a call is found exactly if id, flags, JSON and type are right; on a bad id or flag nothing is read |
| RpcServer.Rpc.ServeCall | rpc_server.go:212-261 | the first packet of an unknown id: open, reject, or end the loop, which it also does if the connection refuses the rejection |
| RpcServer.Rpc.ServeStep | rpc_server.go:354-462 | one iteration on whatever bytes arrive changes the object exactly as ServeOnce says and keeps its invariant, whether or not the connection has room for the reply; an iteration that continues has consumed input |
| RpcServer.Rpc.Serve | rpc_server.go:339-463 | on any input and any connection the loop ends and is so many ServeOnce iterations, followed by Terminate; what was written are exactly their packets, and a cut-off one at the point where the connection failed |
| RpcServer.Rpc.Terminate | rpc_server.go:486-502 | deleting while ranging visits every request exactly once in any order, leaves the table empty, and writes each request's end packet, as long as the connection takes them |
| RpcServer.Rpc.WriteTo | stream2_sink.go:65-92 | a write to the sink object of an active request is the user action of the model, on working and failing connections, and the session stays valid |
| RpcServer.Rpc.CancelSource | stream2_source.go:66-80 | so is cancelling its source object |
| RpcServer.Rpc.TakeFrom | stream2_source.go:150-159 | so is reading a frame, which delivers exactly the next body that the request accepted |
| RpcServer.Rpc.StartCall | rpc_client.go:250-264 | the call gets the next id, is filed under it, and the sink gets it too |
| RpcServer.Rpc.OpenCall | rpc_client.go:272-275 | the opening packet goes out, or an error is returned and the call stays unopened; the error is exactly that the packet is too large or the connection refuses it |
| JsonExample.BadCallExists | rpc_server.go:233-242 | under the assumptions about the JSON library there is a call whose opening packet fits and whose rejection does not, and a run in which it ends the peer's loop |

Beside these members the table leaves out the functions that only compute. The lemmas speak about them:
`Codec.ParseAll` and `PrintAll`; `FrameBuffer.CopyBody`, `NextFrame`, `ReadSome`, `WaitForMore`;
`Source.Consume`, `Cancel`, `Wake`; `Sink.Write`, `Close`; `Pipe.ReadStart`, `ReadFinish`; `Manifest.Fill`;
`Session.Receive`, `ActStep`, `CloseRequest`, `Terminated`; `Network.NetStep`; `Serve.ServeOnce`;
`Wires.ByteStep`; `EndToEnd.Step`. What is assumed of the JSON library in the theorems about two endpoints
can be met: `JsonExample.ExampleIsFaithful`.

## Left out

- Sockets, goroutine scheduling and locks: a close that lands between `maybeDiscardPacket` and `fetchRequest` of one iteration is not a run of the model. The manifest timeout is an end of its context.
- Sessions and the ten seconds limit: Sink models a close that times out; in Session and Network every write of an end packet comes to an end in time.
- Connection errors while reading, other than the end of the input: a read of the model returns bytes or the end.
- Failing connections between two endpoints: a connection that stops taking bytes is part of Codec, Sink, Pipe, Session and RpcServer; in the runs of Network, Wires, Closing and EndToEnd the connection takes what is written.
- JSON text: encoding and decoding are parameters that take the whole body; the theorems about two endpoints assume that both use one encoding in which calls and errors survive and an error is never `true`. The manifest is a decoded tree.
- Network.RunKeeps: the network of packets delivers nothing more on a wire that is out of step, where the code goes on and takes body bytes for headers. Wires models that, and its theorems have the condition under which the two are the same.
- Network.KnownIds: the same; Wires.BytesConsistent is the statement on the bytes.
- Network.StreamsDeliver: the same.
- Network.ClosesComeLast: the same.
- Network.ReadersGetWhatWritersSent: the same.
- Ends.ErrorsArrive: the same, and for streams that the peer opened: what the caller of a rejected call hears is in Session.UnhandledCallIsRejected and Session.EndAnswers.
- EndToEnd.ReportsWhatWasSent: the same.
- Network.ClosesArrive: the same.
- Quiescence.RunsDrain: counts packets in flight, so it says nothing about bytes left on a wire that is out of step; Closing.RunsComeToRest is the statement on the bytes, for runs that keep the boundary.
- What follows the end of a serve loop at the peer: the connection is closed there; in the network the other end can go on but nothing is delivered to the stopped one.
- Session.TerminateIsActs: for sessions in which every call has been opened. A call that has its id but whose opening packet is not written yet is terminated in Session's runs and in RpcServer, not between two endpoints.
- RpcServer.Rpc.StartCall: requires fewer than 2^31-1 calls so far; the wrap-around of `highest` after that is not modelled.
- Source.FailedSourceDrains: for fewer than 2^32 frames queued at once, since the frame counter is a uint32 and wraps. The other results about reading have the same bound and no other.
- FrameBuffer.WokenMeansFrame: with several readers of one source another reader can take the frame first, so a wake-up may then find none.
- Bodies larger than 2^30 bytes on 32-bit builds, where the codec's limit is smaller: the model has the 64-bit limit of 2^32-1.
- The buffer pool: each source has its own buffer, and nothing is claimed about returning buffers.
- Arguments and return values of calls (`Args`, `Return`, `Async` decoding), `ResponseSink` and `ResponseSource`, the luigi adapters, `HandlerMux`, logging and the classification of closed-connection errors.
- Which handler a call is given to and what it does: HandleCall is recorded as started, its actions are user actions.
