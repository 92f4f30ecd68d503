# DigDig.IO-Tools core, modelled in Dafny

DigDig.IO-Tools is a set of TypeScript packages built around the browser game
digdig.io. An injected userscript scans the game's map chunk by chunk and
sends the chunks to a desktop app over a local websocket. The app's viewers
cache, merge and draw those chunks, and the user picks areas of the map with
a selection tool. This project models the shared core of those packages in
Dafny and proves properties of the model:

- **Byte buffers and codecs** (`bytes.dfy`, `buffer.dfy`, `bit_compactor.dfy`,
  `chunk_codec.dfy`, `chunk_protocol.dfy`, `protocol.dfy`). These cover the
  little-endian cursor `Buffer`, the packing of an ore pixel (a 12-bit
  location in the 64x64 chunk and a 4-bit palette index) into 16 bits, the
  chunk-section wire format with its start and end markers, and the
  map-scanner protocol. Each encoder is proved to round-trip through its
  decoder, and each decoder's error cases are modelled.
- **Game data** (`vector2.dfy`, `ore_palette.dfy`, `chunk.dfy`,
  `chunk_aggregator.dfy`, `chunk_cache.dfy`). These cover the integer grid
  positions (components truncated by `| 0`) that key 64x64 chunks, and a
  chunk's ore entries. `eat` merges two chunks of the same place. The
  aggregator keeps the first chunk stored at a place, and that chunk eats
  each later one fed there. The scanner's cache records the chunks it has
  rendered; an update renders again the aggregator's chunk at one position,
  and an import renders again every chunk the aggregator then holds, old or
  new. A chunk with an entry whose palette index names no known ore cannot be
  drawn: its update fails with the invalid-ore error after repointing any
  existing entry, and an import stops at the first such chunk in key order.
- **Transport** (`remote_frames.dfy`, `remote_channel.dfy`, `remote_host.dfy`,
  `ref_counter.dfy`, `dispatcher.dfy`, `bridge.dfy`, `hash.dfy`). These cover
  the virtual channels multiplexed over one websocket: the 16-byte channel
  identifier, the four opcodes, the client `Channel` state machine, the
  `Connection` send queue, and the host-side peer registries held by
  reference counts. They also cover the event dispatcher, the bridge id
  counter and the digest's hex rendering.
- **Clients and input** (`tiny_client.dfy`, `viewer_client.dfy`,
  `client_managers.dfy`, `mouse.dfy`, `tiny_mouse.dfy`, `viewer_mouse.dfy`,
  `tiny_keyboard.dfy`, `viewer_keyboard.dfy`, `key_options.dfy`,
  `recent_items.dfy`, `timespan.dfy`). These cover the scanner clients and
  their managers, mouse and keyboard state (the buttons and keys held, and
  the events fired on each change), the bounded first-in first-out list of
  recent items (duplicates kept, a re-inserted item not moved) and time
  spans.
- **Rendering and selection** (`rectangle.dfy`, `render_node.dfy`,
  `stable_sort.dfy`, `render_selection.dfy`, `selection_region.dfy`,
  `tiny_selection.dfy`). These cover the scene graph's `RenderNode` tree: its
  z-ordered children, mouse-event propagation and selection walk. They also
  cover rectangle normalisation and the two selection tools.
- **Userscript build plugin** (`userscript_plugin.dfy`, `kebab_case.dfy`).
  These cover the ordering and naming of userscript header keys, the header
  layout, and the kebab-case conversion of schema names.

Code that works by updating objects in place is modelled by classes with the
same fields, and their methods are proved against specification functions.
Pure code is modelled by functions and lemmas. The surrounding world appears
as parameters or as logs of what was sent: the websocket, canvases, hit
tests, the MD5 digest, clocks and the DOM.

Six places where the code does not do what it evidently means to are
listed under "Findings"; for each, the model states the behaviour as written
and proves the intended property of a corrected definition. Where the code
and the project's own description of it differ, the model follows the code:
`Channel.close` sends no Close frame, and `Connection.send` tries a new
message even when flushing the queue stopped early, so a message can overtake
queued ones.

## Model

| member | source | states |
|---|---|---|
| Bridges.IdsIssued | packages/shared/src/network/bridge.ts:13-16 | the first n calls of the provider return exactly 1, 2, …, n, in that order |
| Bridges.IdsIncreasing | packages/shared/src/network/bridge.ts:13-16 | an id handed out earlier is strictly smaller than one handed out later, so no id is issued twice |
| Bridges.UniqueBridgeIdProvider.constructor | packages/shared/src/network/bridge.ts:14 | the closure's counter starts at 1 and no id has been issued |
| Bridges.UniqueBridgeIdProvider.Next | packages/shared/src/network/bridge.ts:15 | a call returns the current id and advances the counter by one; the id returned exceeds every id issued before |
| RefCounting.Decremented | packages/shared/src/core/ref-counter.ts:8-11 | a positive count drops by one; a zero count stays zero |
| RefCounting.DecrementedTimesIs | packages/shared/src/core/ref-counter.ts:8-11 | j decrements take a count n to n − j, or to 0 once j reaches n |
| RefCounting.InUseAfter | packages/shared/src/core/ref-counter.ts:4-14 | after k increments and j decrements from a new counter, isUse holds exactly when j < k |
| RefCounting.RefCounter.constructor | packages/shared/src/core/ref-counter.ts:2-3 | the counter keeps its item and starts at 0 |
| RefCounting.RefCounter.Increment | packages/shared/src/core/ref-counter.ts:4-7 | the count grows by one and the counter itself is returned |
| RefCounting.RefCounter.Decrement | packages/shared/src/core/ref-counter.ts:8-11 | the count drops by one but never below zero, and the counter itself is returned |
| RefCounting.RefCounter.IsUse | packages/shared/src/core/ref-counter.ts:12-14 | true exactly when the count is positive |
| Dispatching.RemovedMembers | packages/shared/src/core/dispatcher.ts:85-94 | the filter of off leaves no occurrence of the callback, keeps every other callback, adds none, and drops exactly as many entries as the callback occurred |
| Dispatching.RemovedAppend | packages/shared/src/core/dispatcher.ts:91 | the filter works piecewise over a concatenation, so the kept callbacks stay in registration order |
| Dispatching.RemovedAbsent | packages/shared/src/core/dispatcher.ts:85-94 | removing a callback that is not registered leaves the list as it is |
| Dispatching.OffUndoesOn | packages/shared/src/core/dispatcher.ts:71-94 | off(c) after on(c) gives the same list as off(c) alone |
| Dispatching.Dispatcher.constructor | packages/shared/src/core/dispatcher.ts:62 | a new dispatcher has no event lists |
| Dispatching.Dispatcher.On | packages/shared/src/core/dispatcher.ts:71-76 | the callback is appended to its event's list, which is created if missing; a repeat registration is stored again; other events' lists are unchanged |
| Dispatching.Dispatcher.Off | packages/shared/src/core/dispatcher.ts:85-94 | an event without a list is left alone; otherwise every occurrence of the callback is dropped from that list only |
| Dispatching.Dispatcher.Emit | packages/shared/src/core/dispatcher.ts:103-108 | the callbacks called are the event's list in registration order, one call per occurrence, and none for an unknown event |
| Hashing.HexDigit | packages/shared/src/hash/definitons.ts:1 | the digit for a value below 16 is one of 0-9a-f |
| Hashing.DigitValue | packages/shared/src/hash/definitons.ts:1 | the value of a hex digit is below 16 and maps back to the same digit |
| Hashing.DigitsDistinct | packages/shared/src/hash/definitons.ts:1 | different values below 16 get different digits |
| Hashing.HexPair | packages/shared/src/hash/definitons.ts:4 | every number renders as exactly two hex digits, high nibble then low nibble |
| Hashing.PairRoundTrip | packages/shared/src/hash/definitons.ts:4 | the two digits of a byte read back as that byte |
| Hashing.HexOf | packages/shared/src/hash/definitons.ts:3-6 | the rendering has two characters per element |
| Hashing.HexOfAt | packages/shared/src/hash/definitons.ts:3-6 | element i renders as characters 2i and 2i+1, so the output follows the input's order |
| Hashing.HexInjective | packages/shared/src/hash/definitons.ts:3-6 | two byte sequences with the same rendering are equal |
| Hashing.Hex | packages/shared/src/hash/definitons.ts:3-6 | returns the two-digit renderings of the elements in order, and leaves each array element overwritten by its own two-digit string |
| Hashing.RenderingTwiceDiffers | packages/shared/src/hash/definitons.ts:34-36 | after one rendering the stored strings render differently: 0x12 first gives "12" and then "0c", and 0xab gives "00" the second time |
| Hashing.Hash.constructor | packages/shared/src/hash/definitons.ts:32 | the digest keeps the array it was given, without copying it |
| Hashing.Hash.ToString | packages/shared/src/hash/definitons.ts:34-36 | as written: returns the hex rendering of the digest and leaves the stored array overwritten with strings |
| Hashing.Hash.ToHex | packages/shared/src/hash/definitons.ts:34-36 | as intended: the same rendering without touching the digest, so repeated calls agree |
| Hashing.Hash.ToArray | packages/shared/src/hash/definitons.ts:42-44 | returns a fresh array with the digest's elements |
| Hashing.Hash.ToBuffer | packages/shared/src/hash/definitons.ts:38-40 | one byte per element, the element's number modulo 256 |
| ChannelFrames.Frame | packages/shared/src/network/remote.ts:416-419 | a frame is the 16-byte identifier, then the opcode byte, then the payload |
| ChannelFrames.TryExtract | packages/shared/src/network/remote.ts:436-439 | no result for a message shorter than the identifier or differing from it at any byte; otherwise the identifier followed by the result is the message |
| ChannelFrames.ExtractAddressed | packages/shared/src/network/remote.ts:436-439 | a message that starts with the identifier yields exactly the bytes after it |
| ChannelFrames.FrameRoundTrip | packages/shared/src/network/remote.ts:416-438 | a frame built for a channel extracts to its opcode and payload on that channel and to nothing on any other channel |
| ChannelFrames.Check | packages/shared/src/network/remote.ts:427-434 | the byte loop answers true exactly when the message is at least as long as the identifier and starts with it |
| RemoteChannel.OnlyCloseCloses | packages/shared/src/network/remote.ts:289-347 | the channel reaches Closed only through close(), or by staying in Closed |
| RemoteChannel.OpenAlwaysHandshakes | packages/shared/src/network/remote.ts:296-300 | a connection Open moves the channel to Handshaking from any state and sends exactly one InitiateHandshake frame |
| RemoteChannel.ConnectHandshakes | packages/shared/src/network/remote.ts:334-341 | connect ends in Handshaking, with one InitiateHandshake frame, exactly when the connection is Opened; otherwise it ends in Opening and sends nothing |
| RemoteChannel.CloseReopens | packages/shared/src/network/remote.ts:301-328 | a connection Close or a Close frame moves the channel to Opening, not Closed, and fires Close with the connection's reason or "Close by the server" |
| RemoteChannel.PayloadOnlyWhenOpened | packages/shared/src/network/remote.ts:320-322 | a Message frame fires its payload exactly when the channel is Opened; in any other state it changes nothing |
| RemoteChannel.PayloadSource | packages/shared/src/network/remote.ts:306-330 | any payload the channel fires came from a Message frame for this channel received while Opened |
| RemoteChannel.IgnoredMessages | packages/shared/src/network/remote.ts:306-311 | a frame for another channel, a bare identifier, or an unknown opcode changes nothing |
| RemoteChannel.ResolveOnlyWhenHandshaking | packages/shared/src/network/remote.ts:358-372 | a ResolveHandshake frame acts only in Handshaking: the channel becomes Opened if the connection is Opened and goes back to Opening otherwise; nothing is sent or fired |
| RemoteChannel.RemoteHandshakeAnswered | packages/shared/src/network/remote.ts:374-390 | an InitiateHandshake frame is ignored in Unknown and Closed; in any other state it is answered with one ResolveHandshake frame and the channel becomes Opened |
| RemoteChannel.SubscriptionCounts | packages/shared/src/network/remote.ts:392-404 | after unlisten-then-listen each of the channel's handlers is registered exactly once; after unlisten none is |
| RemoteChannel.Socket.Send | packages/shared/src/network/remote.ts:491-495 | a socket send either delivers the message, or throws, delivers nothing and records the failed message |
| RemoteChannel.Connection.constructor | packages/shared/src/network/remote.ts:459-471 | a new connection is Opening with an empty queue and a socket that is not yet open |
| RemoteChannel.Connection.GetState | packages/shared/src/network/remote.ts:500-502 | returns the connection state |
| RemoteChannel.Connection.TryToClearQueuedMessages | packages/shared/src/network/remote.ts:486-498 | does nothing unless the socket can send; otherwise for some k the first k queued messages go out in order, the rest stay queued, and the flush stops before the end only when the send of the next queued message threw |
| RemoteChannel.Connection.Send | packages/shared/src/network/remote.ts:504-515 | a closed socket queues the message at the tail; otherwise a flush of k messages (stopping early only at a failed send) is followed by the message, which goes out or, if its send threw, joins the tail; no message is lost or duplicated |
| RemoteChannel.FlushedConserves | packages/shared/src/network/remote.ts:486-515 | every outcome of send keeps the delivered and queued messages together equal, as a multiset, to the old ones plus the new message |
| RemoteChannel.Stopper | packages/shared/src/network/remote.ts:492-496 | the message whose failed send ends a flush is the next queued one, and there is none exactly when the whole queue went out |
| RemoteChannel.Channel.constructor | packages/shared/src/network/remote.ts:289-295 | a new channel is Unknown and its identifier is the digest of its name |
| RemoteChannel.Channel.InitiateHandshake | packages/shared/src/network/remote.ts:349-356 | the channel becomes Handshaking and hands one InitiateHandshake frame to the connection |
| RemoteChannel.Channel.HandleOpen | packages/shared/src/network/remote.ts:296-300 | the channel's state, the frames sent and the events fired are those of the transition for a connection Open |
| RemoteChannel.Channel.HandleClose | packages/shared/src/network/remote.ts:301-305 | the channel's state, the frames sent and the events fired are those of the transition for a connection Close |
| RemoteChannel.Channel.HandleError | packages/shared/src/network/remote.ts:331 | the error is fired on and the state is kept |
| RemoteChannel.Channel.HandleMessage | packages/shared/src/network/remote.ts:306-330 | the channel's state, the frames sent and the events fired are those of the transition for the received message |
| RemoteChannel.Channel.ResolveHandshakeStep | packages/shared/src/network/remote.ts:358-372 | outside Handshaking the state is kept; in Handshaking the channel becomes Opened if the connection is Opened and Opening otherwise |
| RemoteChannel.Channel.HandleRemoteHandshake | packages/shared/src/network/remote.ts:374-390 | Closed and Unknown ignore the request; any other state sends one ResolveHandshake frame and becomes Opened |
| RemoteChannel.Channel.Listen | packages/shared/src/network/remote.ts:392-397 | each of the four event lists of the connection gains this channel's handler at its tail |
| RemoteChannel.Channel.Unlisten | packages/shared/src/network/remote.ts:399-404 | each of the four event lists loses this channel's handler and keeps the others in order |
| RemoteChannel.Channel.Connect | packages/shared/src/network/remote.ts:334-341 | returns the channel itself, with the connect transition's state and frames, and each handler registered exactly once |
| RemoteChannel.Channel.Close | packages/shared/src/network/remote.ts:343-347 | the channel becomes Closed, fires Close with "Closed by user.", sends no frame and unregisters its handlers |
| RemoteChannel.Channel.IsOpened | packages/shared/src/network/remote.ts:406-408 | true exactly in Opened |
| RemoteChannel.Channel.Send | packages/shared/src/network/remote.ts:410-421 | refused with the source's error message unless Opened, with nothing queued, submitted, delivered or logged as failed; when Opened exactly one Message frame with the bytes goes to the connection |
| RemoteHost.Wss.Send | packages/shared/src/network/remote.ts:41 | the server's log gains one frame addressed to the socket |
| RemoteHost.ChannelClientInternal.constructor | packages/shared/src/network/remote.ts:31-36 | a peer keeps its channel identifier and socket id and has fired nothing |
| RemoteHost.ChannelClientInternal.InitiateHandshake | packages/shared/src/network/remote.ts:37-42 | sends exactly one InitiateHandshake frame to the peer's socket |
| RemoteHost.ChannelClientInternal.ResolveHandshake | packages/shared/src/network/remote.ts:43-48 | sends exactly one ResolveHandshake frame to the peer's socket |
| RemoteHost.ChannelClientInternal.Send | packages/shared/src/network/remote.ts:49-55 | sends exactly one Message frame carrying the bytes to the peer's socket |
| RemoteHost.ChannelClientInternal.ForwardMessage | packages/shared/src/network/remote.ts:56-58 | fires the payload as one Message event |
| RemoteHost.ChannelClientInternal.Close | packages/shared/src/network/remote.ts:59-67 | sends one Close frame to the peer, then fires Close |
| RemoteHost.ChannelClientInternalManager.constructor | packages/shared/src/network/remote.ts:87-91 | a new registry has no peers and its identifier is the digest of the channel name |
| RemoteHost.ChannelClientInternalManager.Add | packages/shared/src/network/remote.ts:92-96 | a known id changes nothing; a new id gets a fresh peer and fires InComing once; other entries stay |
| RemoteHost.ChannelClientInternalManager.Remove | packages/shared/src/network/remote.ts:97-101 | a known peer fires Close, without sending a frame, and is dropped; an unknown id changes nothing; other peers fire nothing |
| RemoteHost.ChannelClientInternalManager.Get | packages/shared/src/network/remote.ts:102-104 | the peer under the id, or none exactly when the id is unknown |
| RemoteHost.ChannelClientInternalManager.Has | packages/shared/src/network/remote.ts:105-107 | true exactly when a peer sits under the id |
| RemoteHost.ChannelClientInternalManager.Forward | packages/shared/src/network/remote.ts:108-112 | the payload is fired on the peer under the id, if any, and on no other peer |
| RemoteHost.ChannelClientInternalManager.Clear | packages/shared/src/network/remote.ts:113-118 | every peer closes exactly once, sending one Close frame and firing Close; then the registry is empty |
| RemoteHost.ChannelClientInternalManager.CloseAll | packages/shared/src/network/remote.ts:114-116 | the loop closes each peer once, in some order covering every id once, with one Close frame per peer in that order |
| RemoteHost.ChannelClientInternalManager.NotifyAll | packages/shared/src/network/remote.ts:119-121 | one InitiateHandshake frame per listed id without a peer, in list order; no peer is added |
| RemoteHost.ChannelClientInternalManager.OffAll | packages/shared/src/network/remote.ts:138 | every listener is detached, as the call means (the dispatcher it reaches has no offAll) |
| RemoteHost.Notified | packages/shared/src/network/remote.ts:119-121 | every frame notifyAll sends is an InitiateHandshake frame to a listed id that has no peer |
| RemoteHost.NotifiedAll | packages/shared/src/network/remote.ts:119-121 | every listed id without a peer is sent its InitiateHandshake frame |
| RemoteHost.HandshakeCompletes | packages/shared/src/network/remote.ts:183-188 | the frame connect sends makes the host answer the handshake, and the ResolveHandshake frame it answers with opens a Handshaking channel over an Opened connection |
| RemoteHost.PayloadCrosses | packages/shared/src/network/remote.ts:189-190 | a payload crosses unchanged in both directions: the host forwards what a channel sends, and an Opened channel fires what a peer sends |
| RemoteHost.HostIgnores | packages/shared/src/network/remote.ts:173-176 | the host ignores frames for another channel, bare identifiers and unknown opcodes |
| RemoteHost.HandleChannelMessage | packages/shared/src/network/remote.ts:173-194 | performs the action the opcode selects: an ignored frame changes nothing; a handshake frame adds the peer (a new id gets a fresh peer and one InComing, a known id changes nothing), and an InitiateHandshake is answered with one ResolveHandshake frame; a payload is fired on the peer under the id and nothing else changes (no peer: nothing changes); a Close fires Close on the removed peer and drops it; no other peer fires anything |
| RemoteHost.ChannelManagerStore.constructor | packages/shared/src/network/remote.ts:127-129 | a new store holds no registry |
| RemoteHost.ChannelManagerStore.Get | packages/shared/src/network/remote.ts:130-133 | a held name returns the same registry with one more use; a new name gets a fresh, empty registry used once; other names keep their counts |
| RemoteHost.ChannelManagerStore.Create | packages/shared/src/network/remote.ts:144-147 | stores a fresh registry under the name with a count of one |
| RemoteHost.ChannelManagerStore.Increment | packages/shared/src/network/remote.ts:148-150 | the name's count grows by one and the others stay |
| RemoteHost.ChannelManagerStore.Decrement | packages/shared/src/network/remote.ts:151-153 | the name's count drops by one, never below zero, and the others stay |
| RemoteHost.ChannelManagerStore.Release | packages/shared/src/network/remote.ts:134-140 | an unknown name fails as the source throws; a registry still in use loses one use; the last release closes its peers, detaches its listeners and drops it; other names are untouched |
| RemoteHost.ChannelManagerStore.Retire | packages/shared/src/network/remote.ts:137-139 | the registry ends with no peers and its listeners detached |
| RemoteHost.ChannelManagerStore.ReleaseAsWritten | packages/shared/src/network/remote.ts:134-140 | release as the code runs: an unknown name fails, a registry still in use loses one use, and the last release closes the peers, then fails on the missing offAll and leaves the entry stored with a count of zero, so the store's invariant no longer holds |
| RemoteHost.ChannelManagerStore.ReleaseThenGetAsWritten | packages/shared/src/network/remote.ts:130-140 | after the failed last release, get of the same name returns the same, cleared registry, whose listeners were never detached, with a count of one |
| RemoteHost.ChannelManagerStore.ReleaseThenGet | packages/shared/src/network/remote.ts:130-140 | with the release the code means, the last release drops the detached registry and the next get of that name makes a fresh, empty one; the store stays valid |
| Bytes.EncodeLE | packages/shared/src/core/buffer.ts:94-104 | the little-endian encoding of a value has exactly n bytes |
| Bytes.DecodeLEBound | packages/shared/src/core/buffer.ts:39-51 | an n-byte unsigned read is below 256^n |
| Bytes.DecodeEncode | packages/shared/src/core/buffer.ts:94-104 | reading back n written bytes gives the value modulo 256^n, which is how an out-of-range value is stored |
| Bytes.UnsignedRoundTrip | packages/shared/src/core/buffer.ts:39-51 | an unsigned value in range is read back unchanged |
| Bytes.SignedRoundTrip | packages/shared/src/core/buffer.ts:60-72 | a signed value in range, written and read back as two's complement, is unchanged |
| Bytes.DecodeLEInjective | packages/shared/src/core/buffer.ts:39-51 | two byte sequences of one width that read as the same unsigned value are equal |
| Bytes.ToInt32 | packages/shared/src/core/vector2.ts:45 | `x \| 0` lands in the signed 32-bit range and agrees with x modulo 2^32 |
| Bytes.ToInt32Identity | packages/shared/src/core/vector2.ts:45 | `x \| 0` leaves a value already in the signed 32-bit range unchanged |
| ByteBuffer.Buffer.constructor | packages/shared/src/core/buffer.ts:18-26 | a buffer of the given size holds zero bytes, with the cursor at 0 |
| ByteBuffer.Buffer.Over | packages/shared/src/core/buffer.ts:18-26 | a buffer built over an ArrayBuffer shares its bytes, with the cursor at 0 |
| ByteBuffer.Buffer.Size | packages/shared/src/core/buffer.ts:28-30 | the size is the byte length of the ArrayBuffer |
| ByteBuffer.Buffer.ReadUint | packages/shared/src/core/buffer.ts:32-51 | reads the little-endian unsigned value at the explicit offset, or at the cursor; the cursor advances by the width only when no offset is given |
| ByteBuffer.Buffer.ReadInt | packages/shared/src/core/buffer.ts:53-72 | reads the same bytes as two's complement, in the signed range of the width, with the same cursor rule |
| ByteBuffer.Buffer.Write | packages/shared/src/core/buffer.ts:88-122 | stores the value modulo 256^n little-endian at the position, leaves every other byte as it was, and moves the cursor by the same rule |
| ByteBuffer.Buffer.ReadFloat64Bits | packages/shared/src/core/buffer.ts:81-86 | returns the 8 bytes at the position and advances the cursor by 8 when no offset is given |
| ByteBuffer.Buffer.WriteFloat64Bits | packages/shared/src/core/buffer.ts:130-134 | stores the 8 bytes at the position, leaves the other bytes alone, and moves the cursor by the same rule |
| ByteBuffer.Buffer.Equals | packages/shared/src/core/buffer.ts:136-148 | true exactly when both buffers have the same size and the same bytes |
| ByteBuffer.Buffer.ResetOffset | packages/shared/src/core/buffer.ts:150-152 | the cursor returns to 0 |
| ByteBuffer.Buffer.From | packages/shared/src/core/buffer.ts:167-175 | an ArrayBuffer or a Buffer gives a fresh buffer over a fresh copy of its bytes, with the cursor at 0; anything else is an error |
| ByteBuffer.WriteReadUint | packages/shared/src/core/buffer.ts:39-104 | a read at the position just written returns an in-range unsigned value unchanged |
| ByteBuffer.WriteReadInt | packages/shared/src/core/buffer.ts:60-122 | a signed read at the position just written returns an in-range signed value unchanged |
| BitCompactor.Compress | packages/shared/src/game/bit-compactor.ts:29-31 | the packed value's low 4 bits are the index modulo 16 and its high 12 bits the location modulo 4096 |
| BitCompactor.Extract | packages/shared/src/game/bit-compactor.ts:32-37 | the index is below 16 and the location below 4096 |
| BitCompactor.GetLocation | packages/shared/src/game/bit-compactor.ts:38-40 | the same location extract reads; for a 16-bit value it is the value shifted right by 4 |
| BitCompactor.ExtractCompress | packages/shared/src/game/bit-compactor.ts:29-37 | a location below 4096 and an index below 16 are packed and come back unchanged |
| BitCompactor.CompressExtract | packages/shared/src/game/bit-compactor.ts:29-37 | every 16-bit value is the packing of its own fields |
| BitCompactor.CompressMasks | packages/shared/src/game/bit-compactor.ts:30 | out-of-range fields are cut to their low 12 and 4 bits |
| BitCompactor.CompressOrdersByLocation | packages/shared/src/game/bit-compactor.ts:30 | a smaller location always packs to a smaller value, whatever the indices |
| BitCompactor.SameLocation | packages/shared/src/game/bit-compactor.ts:34-39 | two 16-bit values with the same location and the same index are equal |
| Vectors.Equals | packages/shared/src/core/vector2.ts:34-40 | two nulls are equal; one null equals nothing; equal vectors are equal; different vectors are equal exactly when both components differ by less than the tolerance |
| Vectors.GridEquals | packages/shared/src/core/vector2.ts:34-45 | on grid positions, equals with the default tolerance holds exactly when the components are identical |
| Vectors.Truncate | packages/shared/src/core/vector2.ts:45 | the integer part of a number lies within 1 of it, between it and zero |
| Vectors.MakeGrid | packages/shared/src/core/vector2.ts:44-46 | both components of a grid vector lie in the signed 32-bit range |
| Vectors.From | packages/shared/src/core/vector2.ts:52-54 | GridVector2.from builds the grid vector of the point's own components |
| Vectors.MakeGridTruncates | packages/shared/src/core/vector2.ts:45 | for components inside the 32-bit range, `\| 0` is truncation toward zero |
| Vectors.MakeGridIdempotent | packages/shared/src/core/vector2.ts:44-46 | a grid vector rebuilt from its own components is unchanged |
| Vectors.Digits | packages/shared/src/core/vector2.ts:49 | the decimal rendering of a number is a non-empty string of digits, of length 1 exactly for numbers below 10 |
| Vectors.IntToString | packages/shared/src/core/vector2.ts:49 | the rendering of an integer contains no comma |
| Vectors.DigitsInjective | packages/shared/src/core/vector2.ts:49 | different natural numbers render differently |
| Vectors.IntToStringInjective | packages/shared/src/core/vector2.ts:49 | different integers render differently |
| Vectors.FirstComma | packages/shared/src/core/vector2.ts:49 | the index returned holds the first comma |
| Vectors.FirstCommaAfter | packages/shared/src/core/vector2.ts:49 | in "a,b" with a comma-free a, the first comma follows a |
| Vectors.SplitAtComma | packages/shared/src/core/vector2.ts:49 | "a,b" determines a and b when a has no comma |
| Vectors.KeyInjective | packages/shared/src/core/vector2.ts:48-50 | two grid positions have the same "x,y" key exactly when they are equal, so the key identifies a chunk's place |
| OrePalette.Get | packages/shared/src/game/ore-palette.ts:19-21 | the ore at an index inside the palette, and null for any other index |
| OrePalette.KnownOresIndices | packages/shared/src/game/ore-palette.ts:38-46 | the known palette names exactly the indices 0 to 6 |
| Chunks.Capped | packages/shared/src/game/chunk.ts:132-157 | the 4096-entry merge buffer keeps a prefix of what was written, at most 4096 entries, and everything when it fits |
| Chunks.SortedFitsChunk | packages/shared/src/game/chunk.ts:18-26 | a list with strictly increasing locations has at most 4096 entries, one per pixel |
| Chunks.MergeKept | packages/shared/src/game/chunk.ts:134-155 | for sorted inputs, the merge keeps every entry of the other chunk, and an entry of this chunk exactly when the other has none at its location |
| Chunks.MergeSorted | packages/shared/src/game/chunk.ts:134-155 | the merge of two location-sorted lists is location-sorted |
| Chunks.EatMerges | packages/shared/src/game/chunk.ts:114-158 | for sorted inputs, eat leaves a location-sorted list of at most 4096 entries; it covers the locations of both chunks and keeps the other chunk's entry where both have one |
| Chunks.Scanned | packages/shared/src/game/chunk.ts:84-95 | the first n pixels yield at most n entries, each at a location below n |
| Chunks.ScanPixel | packages/shared/src/game/chunk.ts:86-93 | one pixel of the loop appends its packed entry exactly when the pixel is opaque and the palette names its colour |
| Chunks.ScannedSorted | packages/shared/src/game/chunk.ts:84-95 | the canvas constructor produces strictly increasing locations |
| Chunks.Rgba | packages/shared/src/game/chunk.ts:104-109 | an entry paints four bytes ending in alpha 255 |
| Chunks.Paint | packages/shared/src/game/chunk.ts:99-111 | the image is 64 × 64 × 4 bytes |
| Chunks.LastAt | packages/shared/src/game/chunk.ts:101-110 | the last entry at a location is an entry of the list at that location, and none exactly when no entry is there |
| Chunks.PaintAt | packages/shared/src/game/chunk.ts:99-111 | each pixel has the colour of the last entry at its location with alpha 255, and a pixel without an entry is four zero bytes |
| Chunks.AllKnownBy | packages/shared/src/game/chunk.ts:104-105 | holds exactly when every entry's index names a known ore |
| Chunks.IsChunk | packages/shared/src/game/chunk.ts:160-169 | a drawImage call draws a chunk exactly when it has four numbers 0, 0, 1, 1 and a 64×64 image that is not a video frame |
| Chunks.Chunk.constructor | packages/shared/src/game/chunk.ts:65-71 | the chunk takes the grid form of the position and a copy of the entries |
| Chunks.Chunk.WithEntries | packages/shared/src/game/chunk.ts:171-173 | the chunk holds the given position and entries |
| Chunks.Chunk.FromCanvas | packages/shared/src/game/chunk.ts:72-96 | fails with the source's messages without a 2d context or for a canvas other than 64×64; otherwise the chunk holds the entries of the opaque pixels the palette recognises, in pixel order |
| Chunks.Chunk.ToPixels | packages/shared/src/game/chunk.ts:99-112 | an entry with an unknown ore index is an error; otherwise the result is the painted image |
| Chunks.Chunk.Eat | packages/shared/src/game/chunk.ts:114-158 | chunks at different positions are refused with the source's message and nothing changes; otherwise this chunk's entries become the capped merge |
| Chunks.EatEntries | packages/shared/src/game/chunk.ts:120-157 | an empty other chunk leaves the entries; an empty own list takes the other's; otherwise the result is the capped merge |
| Chunks.SamePosition | packages/shared/src/game/chunk.ts:115 | Vector2.equals on two chunk positions holds exactly when they are the same position |
| Chunks.MergeCapped | packages/shared/src/game/chunk.ts:126-157 | the cursor loop and the tail copy produce the capped merge |
| Chunks.MergeHeads | packages/shared/src/game/chunk.ts:134-149 | the loop stops when one input is used up; what it wrote, followed by the merge of the remaining inputs, is the whole merge |
| Chunks.CopyTail | packages/shared/src/game/chunk.ts:151-155 | the rest of the remaining input is appended in order |
| Chunks.PaintStep | packages/shared/src/game/chunk.ts:101-110 | painting one more entry changes only the four bytes at its location |
| Chunks.PaintEntry | packages/shared/src/game/chunk.ts:103-109 | the four stores for one entry change only the bytes at its location |
| ChunkCodec.EntriesBytes | packages/shared/src/game/chunk-aggregator.ts:51-53 | the entries take two bytes each |
| ChunkCodec.ChunkBytes | packages/shared/src/game/chunk-aggregator.ts:46-55 | a written chunk is exactly sizeOfChunk bytes long, starts with the chunk start marker and ends with the chunk end marker |
| ChunkCodec.ChunksBytes | packages/shared/src/game/chunk-aggregator.ts:59-61 | the chunks written one after the other take the sum of their sizes |
| ChunkCodec.ChunkListBytes | packages/shared/src/game/chunk-aggregator.ts:56-63 | a written chunk list is exactly sizeOfChunkList bytes long, framed by the list start and end markers |
| ChunkCodec.ExportBytes | packages/shared/src/game/chunk-aggregator.ts:131-138 | export fills exactly 1 + sizeOfChunkList bytes, starting with the Init byte |
| ChunkCodec.ReadUnsigned | packages/shared/src/core/buffer.ts:32-51 | a read succeeds exactly when its bytes lie inside the buffer, and otherwise fails with the DataView's RangeError; a one-byte read is that byte |
| ChunkCodec.ReadEntries | packages/shared/src/game/chunk-aggregator.ts:70-73 | the entry loop succeeds exactly when no entry is read or all of them lie inside the buffer; it returns one value per entry and otherwise fails with RangeError |
| ChunkCodec.DecodeChunk | packages/shared/src/game/chunk-aggregator.ts:64-76 | a wrong start byte fails with "Chunk start section expected."; a chunk read successfully ends sizeOfChunk bytes after its start, inside the buffer |
| ChunkCodec.GridOfWordsIsMakeGrid | packages/shared/src/game/chunk-aggregator.ts:67-75 | the position built from the two int32 reads is the GridVector2 the source constructs from them |
| ChunkCodec.CloseChunk | packages/shared/src/game/chunk-aggregator.ts:74-75 | the chunk is returned exactly when the end marker follows the entries, built from the fields read, with the cursor after the marker |
| ChunkCodec.ReadChunks | packages/shared/src/game/chunk-aggregator.ts:80-84 | the list loop returns exactly n chunks and moves the cursor by the sum of their sizes |
| ChunkCodec.DecodeChunkList | packages/shared/src/game/chunk-aggregator.ts:77-88 | a wrong list start byte fails with "Chunk List start section expected." |
| ChunkCodec.CloseChunkList | packages/shared/src/game/chunk-aggregator.ts:85-87 | the chunks are returned exactly when the list end marker follows them |
| ChunkCodec.DecodeExport | packages/shared/src/game/chunk-aggregator.ts:140-144 | an empty buffer fails with RangeError and a first byte other than Init with "Buffer provided is not valid." |
| ChunkCodec.ReadEncoded | packages/shared/src/core/buffer.ts:46-51 | reading n bytes where a value was written gives the value modulo 256^n |
| ChunkCodec.ReadEncodedSmall | packages/shared/src/core/buffer.ts:46-51 | reading n bytes where an in-range value was written gives the value back |
| ChunkCodec.ReadMarker | packages/shared/src/core/buffer.ts:32-37 | a marker byte reads back as itself |
| ChunkCodec.ReadEntriesStep | packages/shared/src/game/chunk-aggregator.ts:71-73 | one more iteration of the entry loop appends the entry read at its offset |
| ChunkCodec.EntriesLastRead | packages/shared/src/game/chunk-aggregator.ts:51-53 | the written entries hold the front entries, then the last entry as a uint16 |
| ChunkCodec.EntriesRoundTrip | packages/shared/src/game/chunk-aggregator.ts:51-53 | the entries written by writeChunk's loop are read back unchanged by readChunk's loop |
| ChunkCodec.ChunkHeadRead | packages/shared/src/game/chunk-aggregator.ts:47-50 | the start marker, the two position words and the entry count read back where writeChunk put them |
| ChunkCodec.ChunkTailRead | packages/shared/src/game/chunk-aggregator.ts:51-54 | the entries and the end marker right after them read back |
| ChunkCodec.ChunkParts | packages/shared/src/game/chunk-aggregator.ts:46-55 | the six parts of a written chunk each sit at their own offset |
| ChunkCodec.DecodeChunkAt | packages/shared/src/game/chunk-aggregator.ts:64-76 | fields that read back as the parts of an encodable chunk decode to that chunk, with the cursor after it |
| ChunkCodec.Int32RoundTrip | packages/shared/src/game/chunk-aggregator.ts:48-49 | a position component written as int32 and read back as int32 is unchanged |
| ChunkCodec.PositionRoundTrip | packages/shared/src/game/chunk-aggregator.ts:48-75 | a position written as two int32 words reads back as the same grid position |
| ChunkCodec.ChunkRoundTrip | packages/shared/src/game/chunk-aggregator.ts:46-76 | readChunk restores the position and the entries that writeChunk wrote, and leaves the cursor right after the chunk |
| ChunkCodec.ReadChunksStep | packages/shared/src/game/chunk-aggregator.ts:82-84 | one more iteration of the list loop appends the chunk read at the cursor |
| ChunkCodec.ChunksLastRead | packages/shared/src/game/chunk-aggregator.ts:59-61 | the written chunks hold the front chunks, then the last chunk right after them |
| ChunkCodec.ChunksRoundTrip | packages/shared/src/game/chunk-aggregator.ts:59-84 | the list loop restores, in order, the chunks written one after the other |
| ChunkCodec.DecodeChunkListFields | packages/shared/src/game/chunk-aggregator.ts:77-88 | a list start marker, the count, that many chunks and the end marker decode to those chunks |
| ChunkCodec.CloseChunkListOk | packages/shared/src/game/chunk-aggregator.ts:85-87 | the list end marker after the chunks ends the list, with the cursor after it |
| ChunkCodec.FrameRead | packages/shared/src/game/chunk-aggregator.ts:56-63 | the marker, the count, the body and the end marker of a written frame read back where they were written |
| ChunkCodec.FrameSplit | packages/shared/src/game/chunk-aggregator.ts:56-63 | a written frame holds its start marker, its count, its body and its end marker at consecutive offsets |
| ChunkCodec.ChunkListRoundTrip | packages/shared/src/game/chunk-aggregator.ts:56-88 | readChunkList restores, in order, the chunks writeChunkList wrote, and leaves the cursor right after the list |
| ChunkCodec.ExportRoundTrip | packages/shared/src/game/chunk-aggregator.ts:131-149 | the reading half of import gives back exactly the chunks export wrote, in order |
| Aggregation.Listed | packages/shared/src/game/chunk-aggregator.ts:97-99 | the chunks getter lists one chunk per stored key, in key insertion order |
| Aggregation.Without | packages/shared/src/game/chunk-aggregator.ts:119-121 | dropping a key from the order keeps exactly the other keys |
| Aggregation.FeedWellKeyed | packages/shared/src/game/chunk-aggregator.ts:101-108 | feed keeps every key listed once and every chunk stored under the key of its own position |
| Aggregation.FeedAllWellKeyed | packages/shared/src/game/chunk-aggregator.ts:146-148 | feeding a sequence of chunks keeps the store well keyed |
| Aggregation.FeedNewKey | packages/shared/src/game/chunk-aggregator.ts:103-104 | a chunk at a new position is stored under its key, which joins the end of the order |
| Aggregation.FeedKnownKey | packages/shared/src/game/chunk-aggregator.ts:105-107 | a chunk at a known position is eaten by the stored chunk; the order is unchanged |
| Aggregation.FeedListed | packages/shared/src/game/chunk-aggregator.ts:97-108 | feeding a store's own chunks, in listed order, into an empty aggregator rebuilds the store exactly |
| Aggregation.FeedListedPrefix | packages/shared/src/game/chunk-aggregator.ts:97-108 | feeding the first i listed chunks into an empty aggregator gives the store of the first i keys |
| Aggregation.ImportOfExport | packages/shared/src/game/chunk-aggregator.ts:131-155 | an export decodes to the store's own chunks, and importing them into a new aggregator rebuilds the store |
| Aggregation.WithoutDistinct | packages/shared/src/game/chunk-aggregator.ts:119-121 | removing a key keeps the order free of repeats |
| Aggregation.DistinctAppend | packages/shared/src/game/chunk-aggregator.ts:103-104 | appending a key not yet listed keeps the order free of repeats |
| Aggregation.ChunkAggregator.constructor | packages/shared/src/game/chunk-aggregator.ts:95 | a new aggregator stores nothing |
| Aggregation.ChunkAggregator.Feed | packages/shared/src/game/chunk-aggregator.ts:101-108 | the store becomes the fed store: a new position stores the caller's chunk object, a known position makes the stored chunk eat the new one; no object other than the given chunk is added |
| Aggregation.ChunkAggregator.FeedNew | packages/shared/src/game/chunk-aggregator.ts:103-104 | the caller's chunk object itself is stored under its key |
| Aggregation.ChunkAggregator.FeedKnown | packages/shared/src/game/chunk-aggregator.ts:105-107 | the stored chunk eats the new one in place and every other key is untouched |
| Aggregation.ChunkAggregator.Insert | packages/shared/src/game/chunk-aggregator.ts:104 | the record gains the chunk under the key, and the key joins the end of the order |
| Aggregation.ChunkAggregator.Has | packages/shared/src/game/chunk-aggregator.ts:110-112 | true exactly when some stored chunk sits at the position |
| Aggregation.ChunkAggregator.Get | packages/shared/src/game/chunk-aggregator.ts:114-117 | returns the stored chunk object at the position, or null exactly when none is stored; nothing changes |
| Aggregation.ChunkAggregator.Remove | packages/shared/src/game/chunk-aggregator.ts:119-121 | the position's key leaves the record and the order; every other key keeps its chunk |
| Aggregation.ChunkAggregator.Forget | packages/shared/src/game/chunk-aggregator.ts:120 | one key leaves the record and the order |
| Aggregation.ChunkAggregator.Clear | packages/shared/src/game/chunk-aggregator.ts:123-125 | the aggregator stores nothing |
| Aggregation.ChunkAggregator.Values | packages/shared/src/game/chunk-aggregator.ts:97-99 | lists the stored chunks in key insertion order without changing anything |
| Aggregation.ChunkAggregator.Export | packages/shared/src/game/chunk-aggregator.ts:131-138 | returns a fresh buffer holding the Init byte and the chunk list of the listed chunks |
| Aggregation.ChunkAggregator.ExportValues | packages/shared/src/game/chunk-aggregator.ts:131-138 | the written buffer is exactly the export layout of the chunks, and the aggregator is unchanged |
| Aggregation.ChunkAggregator.Import | packages/shared/src/game/chunk-aggregator.ts:140-149 | a buffer that does not decode fails with the decoder's error and feeds nothing; otherwise the decoded chunks are fed in order |
| Aggregation.ChunkAggregator.ReadExport | packages/shared/src/game/chunk-aggregator.ts:141-144 | the whole buffer is decoded before anything is fed, and the aggregator is unchanged |
| Aggregation.ChunkAggregator.FeedChunks | packages/shared/src/game/chunk-aggregator.ts:146-148 | the store becomes the one obtained by feeding the chunks one after the other |
| Aggregation.ChunkAggregator.FeedFresh | packages/shared/src/game/chunk-aggregator.ts:146-148 | one loop step stores the decoded chunk as a new object, or lets the stored chunk eat it |
| Aggregation.ChunkAggregator.ImportNew | packages/shared/src/game/chunk-aggregator.ts:151-155 | a new aggregator fed with the buffer's chunks, or the decoder's error |
| Aggregation.ChunkAggregator.StateWellKeyed | packages/shared/src/game/chunk-aggregator.ts:101-108 | the aggregator's record keeps each chunk under the key of its own position, each key listed once |
| ChunkProtocol.LayMore | packages/shared/src/game/chunk-aggregator.ts:46-63 | bytes laid right after what was already laid extend it |
| ChunkProtocol.Put | packages/shared/src/core/buffer.ts:88-122 | one integer write at the cursor extends what was laid by the value's encoding |
| ChunkProtocol.WriteChunkHead | packages/shared/src/game/chunk-aggregator.ts:47-50 | the start marker, x, y and the entry count are laid in that order at the cursor |
| ChunkProtocol.WriteEntries | packages/shared/src/game/chunk-aggregator.ts:51-53 | the entry loop lays one uint16 per entry, in order |
| ChunkProtocol.LayChunk | packages/shared/src/game/chunk-aggregator.ts:46-55 | writeChunk extends what was laid by exactly the chunk's layout |
| ChunkProtocol.WriteChunk | packages/shared/src/game/chunk-aggregator.ts:46-55 | writeChunk lays exactly the chunk's layout at the cursor, leaves the other bytes alone and moves the cursor past it |
| ChunkProtocol.WriteNextChunk | packages/shared/src/game/chunk-aggregator.ts:59-61 | one pass of the list loop lays the next chunk after the previous ones |
| ChunkProtocol.WriteChunks | packages/shared/src/game/chunk-aggregator.ts:59-61 | the list loop lays every chunk, in order |
| ChunkProtocol.WriteChunkList | packages/shared/src/game/chunk-aggregator.ts:56-63 | writeChunkList lays exactly the list's layout at the cursor, leaves the other bytes alone and moves the cursor past it |
| ChunkProtocol.Take | packages/shared/src/core/buffer.ts:32-51 | a read at the cursor fails past the end with RangeError; otherwise it returns the in-range value and advances the cursor by the width |
| ChunkProtocol.ReadEntriesAt | packages/shared/src/game/chunk-aggregator.ts:70-73 | the entry loop of readChunk returns what the entry decoder reads, or its error, and advances the cursor by two bytes per entry |
| ChunkProtocol.ReadChunk | packages/shared/src/game/chunk-aggregator.ts:64-76 | readChunk on a buffer returns the chunk the decoder finds at the cursor with the cursor after it, or the error the decoder names |
| ChunkProtocol.ReadChunksFails | packages/shared/src/game/chunk-aggregator.ts:82-84 | once one chunk of the loop fails, the whole loop fails with that error |
| ChunkProtocol.ReadChunksStepFails | packages/shared/src/game/chunk-aggregator.ts:82-84 | a chunk that fails to decode makes the loop fail with its error |
| ChunkProtocol.ReadChunksAt | packages/shared/src/game/chunk-aggregator.ts:80-84 | the loop of readChunkList on a buffer returns what the list decoder reads, or its error |
| ChunkProtocol.ReadChunkList | packages/shared/src/game/chunk-aggregator.ts:77-88 | readChunkList on a buffer returns the list the decoder finds at the cursor with the cursor after it, or the error it names |
| MapProtocol.ChunkMessageBytes | packages/tools/map-scanner/shared/src/network/protocol.ts:43-48 | a chunk message is the Chunk tag followed by exactly the bytes writeChunk lays |
| MapProtocol.PositionMessageBytes | packages/tools/map-scanner/shared/src/network/protocol.ts:49-55 | a position message is 17 bytes: the Position tag, then x and y as 8 bytes each |
| MapProtocol.DecodeChunkMessage | packages/tools/map-scanner/shared/src/network/protocol.ts:58-61 | a wrong tag fails with "Chunk message type expected."; a success follows the Chunk tag and ends one byte plus sizeOfChunk after the start |
| MapProtocol.DecodePositionMessage | packages/tools/map-scanner/shared/src/network/protocol.ts:62-65 | a wrong tag fails with "Position message type expected."; a success reads two 8-byte numbers and ends 17 bytes after the start |
| MapProtocol.Handled | packages/tools/map-scanner/shared/src/network/protocol.ts:25-35 | an empty buffer fails with RangeError and an unknown tag with the unsupported-message error; the tag at offset 0 picks the chunk or the position decoder |
| MapProtocol.ChunkMessageDecodes | packages/tools/map-scanner/shared/src/network/protocol.ts:43-61 | a chunk message decodes to its chunk, with the cursor at its end |
| MapProtocol.ChunkAfterTag | packages/tools/map-scanner/shared/src/network/protocol.ts:43-61 | after the tag, readChunk restores the chunk to the end of the message |
| MapProtocol.ChunkMessageRoundTrip | packages/tools/map-scanner/shared/src/network/protocol.ts:25-61 | handling an encoded chunk emits that chunk |
| MapProtocol.PositionMessageRoundTrip | packages/tools/map-scanner/shared/src/network/protocol.ts:25-65 | an encoded position decodes to its two numbers, and handling it emits that position |
| MapProtocol.EncodeChunk | packages/tools/map-scanner/shared/src/network/protocol.ts:43-48 | encode.chunk returns a fresh buffer of 1 + sizeOfChunk bytes holding the chunk message, with the cursor at its end |
| MapProtocol.EncodePosition | packages/tools/map-scanner/shared/src/network/protocol.ts:49-55 | encode.position returns a fresh 17-byte buffer holding the position message, with the cursor at its end |
| MapProtocol.DecodeChunkFrom | packages/tools/map-scanner/shared/src/network/protocol.ts:58-61 | decode.chunk on a buffer returns what the chunk-message decoder finds at the cursor, or its error |
| MapProtocol.DecodePositionFrom | packages/tools/map-scanner/shared/src/network/protocol.ts:62-65 | decode.position on a buffer returns what the position-message decoder finds at the cursor, or its error |
| MapProtocol.ProtocolHandler.constructor | packages/tools/map-scanner/shared/src/network/protocol.ts:21-23 | a new handler has emitted nothing |
| MapProtocol.ProtocolHandler.Handle | packages/tools/map-scanner/shared/src/network/protocol.ts:25-35 | an unsupported input fails; otherwise the copied bytes are handled: a decoded message is emitted once and a failure emits nothing |
| ChunkCaching.KeySet | packages/tools/map-scanner/remote/src/renderer/core/chunk-cache.ts:68-70 | the set holds exactly the keys of the sequence |
| ChunkCaching.FirstFailureIs | packages/tools/map-scanner/remote/src/renderer/core/chunk-cache.ts:68-70 | every key before the first failing position can be drawn, and the key at that position, if any, cannot |
| ChunkCaching.FirstFailureBefore | packages/tools/map-scanner/remote/src/renderer/core/chunk-cache.ts:68-70 | the first failing key comes no later than any key whose chunk cannot be drawn |
| ChunkCaching.Tried | packages/tools/map-scanner/remote/src/renderer/core/chunk-cache.ts:68-70 | the loop tries every key exactly when no key before the last one fails |
| ChunkCaching.AllDrawableIff | packages/tools/map-scanner/remote/src/renderer/core/chunk-cache.ts:66-71 | over a well-keyed store the loop runs to the end exactly when every chunk held can be drawn |
| ChunkCaching.ImportResultPasses | packages/tools/map-scanner/remote/src/renderer/core/chunk-cache.ts:66-71 | the loop passes exactly when every chunk can be drawn, and then every chunk is rendered with one Update per key in key order |
| ChunkCaching.TurnPassed | packages/tools/map-scanner/remote/src/renderer/core/chunk-cache.ts:68-70 | a turn whose chunk can be drawn lets the loop go on to the next key |
| ChunkCaching.StoppedAt | packages/tools/map-scanner/remote/src/renderer/core/chunk-cache.ts:68-70 | a turn whose chunk cannot be drawn ends import with the invalid-ore error, the keys up to it refreshed and nothing after |
| ChunkCaching.RanThrough | packages/tools/map-scanner/remote/src/renderer/core/chunk-cache.ts:68-70 | a loop that reaches the end passes with every key refreshed |
| ChunkCaching.UpdateEvents | packages/tools/map-scanner/remote/src/renderer/core/chunk-cache.ts:68-70 | the loop fires at most one Update per key |
| ChunkCaching.RefreshedKeys | packages/tools/map-scanner/remote/src/renderer/core/chunk-cache.ts:66-71 | refreshing renders the aggregator's chunk under every refreshed key whose chunk can be drawn and leaves every key not refreshed alone |
| ChunkCaching.UpdateEventsAll | packages/tools/map-scanner/remote/src/renderer/core/chunk-cache.ts:66-71 | when the aggregator holds every key and every chunk can be drawn, one Update fires per key, in key order, carrying that key's chunk |
| ChunkCaching.RefreshedStore | packages/tools/map-scanner/remote/src/renderer/core/chunk-cache.ts:66-71 | when every chunk can be drawn, refreshing every key of the aggregator renders every chunk it holds and fires one Update per key in key order |
| ChunkCaching.RefreshStep | packages/tools/map-scanner/remote/src/renderer/core/chunk-cache.ts:68-70 | the i-th chunk of the getter sits under the i-th key |
| ChunkCaching.RefreshedStep | packages/tools/map-scanner/remote/src/renderer/core/chunk-cache.ts:68-70 | one more key refreshed renders (or only repoints) that key last and fires its Update last when its chunk can be drawn |
| ChunkCaching.ProbesAgree | packages/tools/map-scanner/remote/src/renderer/core/chunk-cache.ts:55-59 | a chunk, an extracted chunk and the chunk's key string all probe the same entry |
| ChunkCaching.ChunkCache.constructor | packages/tools/map-scanner/remote/src/renderer/core/chunk-cache.ts:20-26 | a new cache has no entries, an empty aggregator, no file path and debugging on |
| ChunkCaching.ChunkCache.Debug | packages/tools/map-scanner/remote/src/renderer/core/chunk-cache.ts:28-30 | the debugging flag takes the given value |
| ChunkCaching.ChunkCache.Clear | packages/tools/map-scanner/remote/src/renderer/core/chunk-cache.ts:32-37 | the entries and the aggregator are emptied, debugging is turned back on and Clear fires once; the file path is kept |
| ChunkCaching.ChunkCache.Update | packages/tools/map-scanner/remote/src/renderer/core/chunk-cache.ts:39-50 | with no chunk at the position nothing happens; otherwise a chunk that can be drawn is entered under its key and fires one Update, and one that cannot fails with the invalid-ore error, fires nothing and repoints only an existing entry; the aggregator is unchanged |
| ChunkCaching.ChunkCache.Draw | packages/tools/map-scanner/remote/src/renderer/core/extracted-chunk.ts:18-55 | an existing entry is repointed first; the chunk then fails with the invalid-ore error exactly when some entry names an unknown ore, and otherwise is entered under the key and fires one Update |
| ChunkCaching.ChunkCache.Repoint | packages/tools/map-scanner/remote/src/renderer/core/extracted-chunk.ts:46-47 | the existing entry under the key holds the new chunk; nothing fires |
| ChunkCaching.ChunkCache.Render | packages/tools/map-scanner/remote/src/renderer/core/chunk-cache.ts:43-49 | the entry under the key is made or remade and one Update fires with it |
| ChunkCaching.ChunkCache.Has | packages/tools/map-scanner/remote/src/renderer/core/chunk-cache.ts:55-59 | true exactly when an entry exists under the probe's key |
| ChunkCaching.ChunkCache.Feed | packages/tools/map-scanner/remote/src/renderer/core/chunk-cache.ts:61-64 | the aggregator takes the chunk; the merged chunk at its position is then entered with one Update if it can be drawn, and otherwise feed fails with the invalid-ore error, fires nothing and repoints only an existing entry |
| ChunkCaching.ChunkCache.Import | packages/tools/map-scanner/remote/src/renderer/core/chunk-cache.ts:66-71 | a buffer that fails to decode changes nothing; otherwise the aggregator imports it and the chunks are refreshed in key order up to and including the first one that cannot be drawn, where import fails; it passes exactly when every chunk can be drawn, and then every chunk is rendered anew with one Update each |
| ChunkCaching.ChunkCache.RefreshAll | packages/tools/map-scanner/remote/src/renderer/core/chunk-cache.ts:68-70 | the loop refreshes the keys in order and stops at the first chunk that cannot be drawn, with the outcome, entries and events of that prefix |
| ChunkCaching.ChunkCache.RefreshOne | packages/tools/map-scanner/remote/src/renderer/core/chunk-cache.ts:68-70 | one turn of the loop refreshes the i-th key; it fails exactly when that chunk cannot be drawn, and then the loop's result is complete |
| ChunkCaching.ChunkCache.New | packages/tools/map-scanner/remote/src/renderer/core/chunk-cache.ts:73-76 | the same effect as clear |
| ChunkCaching.ChunkCache.Open | packages/tools/map-scanner/remote/src/renderer/core/chunk-cache.ts:78-88 | a cancelled dialog or one without a file changes nothing; otherwise the first path is remembered, then its contents are imported, which passes exactly when they decode and every chunk can be drawn |
| ChunkCaching.ChunkCache.ImportFrom | packages/tools/map-scanner/remote/src/renderer/core/chunk-cache.ts:90-93 | the file's bytes are imported: bytes that fail to decode change nothing, and the import passes exactly when they decode and every chunk can be drawn |
| ChunkCaching.ChunkCache.SaveTo | packages/tools/map-scanner/remote/src/renderer/core/chunk-cache.ts:95-99 | the file written holds the aggregator's export |
| ChunkCaching.ChunkCache.Save | packages/tools/map-scanner/remote/src/renderer/core/chunk-cache.ts:101-108 | with a remembered path the export is written there; otherwise saveAs is used |
| ChunkCaching.ChunkCache.SaveAs | packages/tools/map-scanner/remote/src/renderer/core/chunk-cache.ts:110-119 | a cancelled dialog changes nothing; otherwise the chosen path is remembered and the export written to it |
| TinyClient.Window | packages/map-scanner-tiny-viewer/src/core/client.ts:23 | the bytes `buffer.slice(byteOffset, byteOffset + byteLength)` copies are exactly the Node Buffer's window when it lies inside its backing store, and never more than byteLength bytes |
| TinyClient.AsBuffer | packages/map-scanner-tiny-viewer/src/core/client.ts:20-25 | an ArrayBuffer is wrapped as is at offset 0, a Node Buffer's window is copied into a fresh buffer, and any other raw data (and only that) fails with 'Unable to convert to buffer.' |
| TinyClient.Client.constructor | packages/map-scanner-tiny-viewer/src/core/client.ts:54-78 | the id is the one supplied by the id provider, the position starts at the origin, nothing is handshaked or fired yet and the protocol handler is fresh |
| TinyClient.Client.Close | packages/map-scanner-tiny-viewer/src/core/client.ts:80-82 | closing the client closes its socket |
| TinyClient.Client.Disconnected | packages/map-scanner-tiny-viewer/src/core/client.ts:62-64 | the socket's close event fires exactly one Disconnect |
| TinyClient.Client.Feed | packages/map-scanner-tiny-viewer/src/core/client.ts:84-92 | data AsBuffer refuses fails before any state changes; any other data is fed as the Feeding function says: first the handshake check, then the protocol handler |
| TinyClient.Client.Deliver | packages/map-scanner-tiny-viewer/src/core/client.ts:71-77 | after the handshake a message goes to the handler, and its chunk or position becomes the matching event, with a position also stored |
| ViewerClient.FirstMessage | packages/map-scanner-viewer/src/ui/core/client.ts:75-81 | the first message raises the handshake flag, fires nothing and leaves the position alone; it succeeds if and only if it equals the handshake bytes, and otherwise fails with 'Bad handshake!' |
| ViewerClient.HandledAfterBadHandshake | packages/map-scanner-viewer/src/ui/core/client.ts:77-80 | because the flag is raised before the comparison, a client that got a bad handshake treats its next message exactly as one that got a good handshake |
| ViewerClient.HandledMessages | packages/map-scanner-viewer/src/ui/core/client.ts:62-68 | after the handshake a decoded chunk fires exactly ChunkReceived, a decoded position fires exactly PositionUpdated and becomes the position, and a message the handler refuses fires nothing and fails with the handler's error |
| ViewerClient.ChunkArrives | packages/map-scanner-viewer/src/ui/core/client.ts:66-68 | an encoded chunk message sent after the handshake arrives as that same chunk |
| ViewerClient.PositionArrives | packages/map-scanner-viewer/src/ui/core/client.ts:62-65 | an encoded position message sent after the handshake becomes the client's position and is fired as PositionUpdated |
| ViewerClient.Socket.constructor | packages/map-scanner-viewer/src/ui/core/client.ts:43 | a socket starts open, with its id |
| ViewerClient.Socket.Close | packages/map-scanner-viewer/src/ui/core/client.ts:72 | closing a socket leaves it closed |
| ViewerClient.Client.constructor | packages/map-scanner-viewer/src/ui/core/client.ts:45-69 | the id is the socket's id, the position starts at the origin, nothing is handshaked or fired yet and the protocol handler is fresh |
| ViewerClient.Client.Close | packages/map-scanner-viewer/src/ui/core/client.ts:71-73 | closing the client closes its socket |
| ViewerClient.Client.Disconnected | packages/map-scanner-viewer/src/ui/core/client.ts:53-55 | the socket's Disconnection event fires exactly one Disconnect |
| ViewerClient.Client.Feed | packages/map-scanner-viewer/src/ui/core/client.ts:75-83 | one received message changes the flag, position, fired events and outcome exactly as the Feeding function says |
| ViewerClient.Client.Deliver | packages/map-scanner-viewer/src/ui/core/client.ts:62-68 | after the handshake a message goes to the handler, and its chunk or position becomes the matching event, with a position also stored |
| ClientManagers.ValuesOf | packages/tools/map-scanner/remote/src/renderer/core/client-manager.ts:19-21 | Object.values gives each entry's value once: as many values as keys, and exactly the record's values |
| ClientManagers.ChannelClient.constructor | packages/shared/src/network/remote.ts:12-16 | a channel client has its id and starts with no listeners |
| ClientManagers.Client.constructor | packages/tools/map-scanner/remote/src/renderer/core/client.ts:42-45 | the remote tool's Client takes its id from its channel client |
| ClientManagers.ClientManager.constructor | packages/tools/map-scanner/remote/src/renderer/core/client-manager.ts:5 | the registry starts empty, and every Client in it sits under its own id (the invariant every method keeps) |
| ClientManagers.ClientManager.Add | packages/tools/map-scanner/remote/src/renderer/core/client-manager.ts:6-15 | an id already tracked returns its Client and changes nothing, not even the listeners; a new id gets a fresh Client under that id and exactly one more Close handler on its channel client, with the Message handlers left as they were |
| ClientManagers.ClientManager.HandleClose | packages/tools/map-scanner/remote/src/renderer/core/client-manager.ts:9-12 | the Close handler unregisters itself and nothing else, then removes only the entry under that channel client's id |
| ClientManagers.ClientManager.Remove | packages/tools/map-scanner/remote/src/renderer/core/client-manager.ts:16-18 | only the entry under the channel client's id goes |
| ClientManagers.ClientManager.List | packages/tools/map-scanner/remote/src/renderer/core/client-manager.ts:19-21 | the list holds exactly the tracked Clients, one per id |
| ClientManagers.TinyClientManager.constructor | packages/map-scanner-tiny-viewer/src/core/client-manager.ts:16-18 | the registry starts empty |
| ClientManagers.TinyClientManager.Add | packages/map-scanner-tiny-viewer/src/core/client-manager.ts:20-22 | the client is stored under its id, replacing whatever was there, and no other entry changes |
| ClientManagers.TinyClientManager.Remove | packages/map-scanner-tiny-viewer/src/core/client-manager.ts:24-26 | only the entry under the client's id goes, whichever client is stored there |
| ClientManagers.TinyClientManager.Has | packages/map-scanner-tiny-viewer/src/core/client-manager.ts:28-30 | true if and only if some client is stored under this client's id, not necessarily this client |
| ClientManagers.TinyClientManager.List | packages/map-scanner-tiny-viewer/src/core/client-manager.ts:32-34 | the list holds exactly the stored clients, one per id |
| Mice.ConvertDOMMouseButton | packages/shared/src/core/mouse.ts:58-69 | DOM buttons 0, 1 and 2 map to Left, Middle and Right, each in both directions, and every other number to Unknown, never to None |
| Mice.PointInHolds | packages/shared/src/core/mouse.ts:132-144 | while active, the point test is exactly "the world point lies in the rectangle's closed bounds", and it is false while inactive |
| Mice.Mouse.constructor | packages/shared/src/core/mouse.ts:46-49 | a mouse starts at (0, 0), with no button, active, and with nothing fired |
| Mice.Mouse.MouseLeave | packages/shared/src/core/mouse.ts:75-78 | mouseleave clears the activity flag and fires Leave |
| Mice.Mouse.MouseEnter | packages/shared/src/core/mouse.ts:80-83 | mouseenter sets the activity flag and fires Enter |
| Mice.Mouse.MouseDown | packages/shared/src/core/mouse.ts:85-91 | mousedown stores the converted button and the position relative to the canvas origin, then fires Down with them |
| Mice.Mouse.MouseUp | packages/shared/src/core/mouse.ts:93-99 | mouseup clears the button, stores the position relative to the canvas origin, then fires Up with it |
| Mice.Mouse.MouseMove | packages/shared/src/core/mouse.ts:101-106 | mousemove stores the position relative to the canvas origin and fires Move, keeping the button |
| Mice.Mouse.Wheel | packages/shared/src/core/mouse.ts:108-113 | wheel stores the position relative to the canvas origin and fires Wheel with the vertical delta |
| Mice.Mouse.IsIn | packages/shared/src/core/mouse.ts:132-144 | false while inactive; otherwise the mouse's world point, taken as a 0 by 0 box, intersects the rectangle |
| TinyMouse.SdlButton | packages/map-scanner-tiny-viewer/src/core/mouse.ts:64-77 | SDL buttons 1, 2 and 3 map to Left, Middle and Right, each in both directions, and every other number to Unknow, never to None |
| TinyMouse.Mouse.constructor | packages/map-scanner-tiny-viewer/src/core/mouse.ts:45-48 | a mouse starts at (0, 0), with no button, active, and with nothing fired |
| TinyMouse.Mouse.Leave | packages/map-scanner-tiny-viewer/src/core/mouse.ts:55-58 | the window's leave event clears the activity flag and fires Leave |
| TinyMouse.Mouse.Hover | packages/map-scanner-tiny-viewer/src/core/mouse.ts:59-62 | the window's hover event sets the activity flag and fires Enter |
| TinyMouse.Mouse.MouseButtonDown | packages/map-scanner-tiny-viewer/src/core/mouse.ts:63-79 | a button press stores the mapped button and fires Down with the event's own coordinates, leaving the stored position alone |
| TinyMouse.Mouse.MouseButtonUp | packages/map-scanner-tiny-viewer/src/core/mouse.ts:80-83 | a button release clears the button and fires Up with the event's coordinates, leaving the stored position alone |
| TinyMouse.Mouse.MouseMove | packages/map-scanner-tiny-viewer/src/core/mouse.ts:84-88 | only a move stores the event's position, and it fires Move with it |
| TinyMouse.Mouse.MouseWheel | packages/map-scanner-tiny-viewer/src/core/mouse.ts:89 | the wheel fires Wheel with the event's coordinates and vertical delta and changes nothing else |
| TinyMouse.Mouse.IsIn | packages/map-scanner-tiny-viewer/src/core/mouse.ts:92-104 | false while inactive; otherwise the mouse's world point, taken as a 0 by 0 box, intersects the rectangle |
| ViewerMouse.DomButton | packages/map-scanner-viewer/src/ui/core/mouse.ts:60-73 | DOM buttons 0, 1 and 2 map to Left, Middle and Right, each in both directions, and every other number to Unknow, never to None |
| ViewerMouse.NeverActiveAgain | packages/map-scanner-viewer/src/ui/core/mouse.ts:51-58 | as written, both crossing listeners clear the flag, so after any crossing the mouse is inactive: the flag stays set only if nothing crossed |
| ViewerMouse.LeaveThenEnter | packages/map-scanner-viewer/src/ui/core/mouse.ts:55-58 | leaving and then entering the canvas leaves the mouse inactive as written, and active as intended |
| ViewerMouse.IntendedFollowsLastCrossing | packages/map-scanner-viewer/src/ui/core/mouse.ts:51-58 | with entering setting the flag, as the other two mice do, the flag is set exactly when the last crossing entered the canvas |
| ViewerMouse.Mouse.constructor | packages/map-scanner-viewer/src/ui/core/mouse.ts:42-45 | a mouse starts at (0, 0), with no button, active, and with nothing fired |
| ViewerMouse.Mouse.MouseLeave | packages/map-scanner-viewer/src/ui/core/mouse.ts:51-54 | mouseleave clears the activity flag, as written and as intended, and fires Leave |
| ViewerMouse.Mouse.MouseEnter | packages/map-scanner-viewer/src/ui/core/mouse.ts:55-58 | mouseenter as written clears the flag and fires Leave, exactly like mouseleave |
| ViewerMouse.Mouse.MouseEnterIntended | packages/map-scanner-viewer/src/ui/core/mouse.ts:55-58 | mouseenter as intended sets the flag and fires Enter |
| ViewerMouse.Mouse.MouseDown | packages/map-scanner-viewer/src/ui/core/mouse.ts:59-75 | mousedown stores the mapped button and fires Down with the event's own coordinates, leaving the stored position alone |
| ViewerMouse.Mouse.MouseUp | packages/map-scanner-viewer/src/ui/core/mouse.ts:76-79 | mouseup clears the button and fires Up with the event's coordinates, leaving the stored position alone |
| ViewerMouse.Mouse.MouseMove | packages/map-scanner-viewer/src/ui/core/mouse.ts:80-84 | mousemove stores the event's position and fires Move with it |
| ViewerMouse.Mouse.Wheel | packages/map-scanner-viewer/src/ui/core/mouse.ts:85-89 | wheel stores the event's position and fires Wheel with it and the vertical delta |
| ViewerMouse.Mouse.IsIn | packages/map-scanner-viewer/src/ui/core/mouse.ts:92-104 | false while inactive; otherwise the mouse's world point, taken as a 0 by 0 box, intersects the rectangle |
| KeyOptions.AllMatch | packages/map-scanner-viewer/src/ui/core/keyboard.ts:66-72 | the for-in loop over the options answers true if and only if every option given equals the recorded key's field of that name |
| KeyOptions.NoOptionsMatch | packages/map-scanner-viewer/src/ui/core/keyboard.ts:63 | with the default empty options, any recorded key matches |
| KeyOptions.UndefinedNeverMatches | packages/map-scanner-viewer/src/ui/core/keyboard.ts:69 | an option present with the value undefined rejects every key, since no boolean field is strictly equal to undefined |
| KeyOptions.FewerOptionsMatchMore | packages/map-scanner-viewer/src/ui/core/keyboard.ts:66-72 | dropping options only widens the keys that match: a key that meets some options meets any subset of them |
| TinyKeyboard.Keyboard.constructor | packages/map-scanner-tiny-viewer/src/core/keyboard.ts:40-44 | the keyboard starts with no key held and nothing fired, and every record sits under its own scancode |
| TinyKeyboard.Keyboard.KeyDownEvent | packages/map-scanner-tiny-viewer/src/core/keyboard.ts:45-48 | a key press replaces whatever was held under its scancode, keeps every other entry, and fires KeyDown with the event |
| TinyKeyboard.Keyboard.KeyUpEvent | packages/map-scanner-tiny-viewer/src/core/keyboard.ts:49-52 | a key release removes only its scancode's entry and fires KeyUp with the release event, even when nothing was held |
| TinyKeyboard.Keyboard.IsDown | packages/map-scanner-tiny-viewer/src/core/keyboard.ts:55-65 | true if and only if the scancode is held and every option given equals the recorded event's field |
| ViewerKeyboard.ExactOptionsIdentify | packages/map-scanner-viewer/src/ui/core/keyboard.ts:23-28 | asking with all four options set matches a recorded key if and only if its ctrl, shift, alt and repeat flags are exactly the ones asked for |
| ViewerKeyboard.Keyboard.constructor | packages/map-scanner-viewer/src/ui/core/keyboard.ts:41-44 | the keyboard starts with no key recorded and nothing fired, and every record sits under its own key name |
| ViewerKeyboard.Keyboard.KeyDownEvent | packages/map-scanner-viewer/src/ui/core/keyboard.ts:45-54 | keydown records the key with its modifier flags, replacing any earlier record under that key and keeping the others, and fires KeyDown with the record |
| ViewerKeyboard.Keyboard.KeyUpEvent | packages/map-scanner-viewer/src/ui/core/keyboard.ts:55-60 | keyup of a key never recorded changes nothing and fires nothing; otherwise only its record goes and KeyUp fires with the record, not the release event |
| ViewerKeyboard.Keyboard.IsDown | packages/map-scanner-viewer/src/ui/core/keyboard.ts:63-73 | true if and only if the key is recorded and every option given equals its recorded field |
| ViewerKeyboard.PressThenRelease | packages/map-scanner-viewer/src/ui/core/keyboard.ts:45-60 | a key pressed and then released is no longer down, whatever was recorded before, and every other key is down exactly as before |
| Recent.Capacity | packages/shared/src/core/recent-items.ts:26-31 | the list never holds more than maxSize items, but always at least one, because insert pushes even when maxSize is zero or negative |
| Recent.Latest | packages/shared/src/core/recent-items.ts:13-50 | the items kept are a suffix of the history no longer than the capacity, and the whole history while it fits |
| Recent.LatestStep | packages/shared/src/core/recent-items.ts:26-31 | dropping the oldest kept item when the list is full and then appending gives exactly the latest items of the longer history |
| Recent.RecentItems.constructor | packages/shared/src/core/recent-items.ts:17-20 | a new list is empty and keeps the given maxSize |
| Recent.RecentItems.Length | packages/shared/src/core/recent-items.ts:22-24 | length is the number of items held |
| Recent.RecentItems.Insert | packages/shared/src/core/recent-items.ts:26-31 | the oldest item goes first when the list is full, the new item is appended last, the length stays within the capacity, and the list is still the latest inserts |
| Recent.RecentItems.Clear | packages/shared/src/core/recent-items.ts:33-35 | clear empties the list and keeps maxSize |
| Recent.RecentItems.First | packages/shared/src/core/recent-items.ts:37-40 | first is null for an empty list and the oldest item otherwise |
| Recent.RecentItems.Last | packages/shared/src/core/recent-items.ts:42-45 | last is null for an empty list and the newest item otherwise |
| Recent.RecentItems.List | packages/shared/src/core/recent-items.ts:47-49 | the list, oldest first, is exactly the latest capacity-many inserts since the list was made or cleared |
| TimeSpans.TimeSpan.Add | packages/shared/src/core/timespan.ts:112-114 | the sum's total minus the other span's total is this span's total |
| TimeSpans.TimeSpan.Subtract | packages/shared/src/core/timespan.ts:121-123 | the difference's total plus the other span's total is this span's total |
| TimeSpans.FromMilliseconds | packages/shared/src/core/timespan.ts:27-29 | totalMilliseconds gives back the value the span was made from |
| TimeSpans.FromSeconds | packages/shared/src/core/timespan.ts:36-38 | totalSeconds gives back the value, and the span is that many thousand milliseconds |
| TimeSpans.FromMinutes | packages/shared/src/core/timespan.ts:45-47 | totalMinutes gives back the value, and the span is sixty times as many seconds |
| TimeSpans.FromHours | packages/shared/src/core/timespan.ts:54-56 | totalHours gives back the value, and the span is sixty times as many minutes |
| TimeSpans.FromDays | packages/shared/src/core/timespan.ts:63-65 | totalDays gives back the value, and the span is twenty-four times as many hours |
| TimeSpans.TotalsRoundTrip | packages/shared/src/core/timespan.ts:27-105 | any span is rebuilt exactly by the factory of each unit from its total in that unit |
| TimeSpans.AddSubtract | packages/shared/src/core/timespan.ts:112-123 | adding and then subtracting the same span, or the reverse, gives the first span back, and add is commutative |
| Rectangles.Make | packages/shared/src/core/rectangle.ts:27-44 | with no arguments every field is 0; with numbers or a rectangle-like object each field given is kept and each field not given is 0 |
| Rectangles.IntersectMissing | packages/shared/src/core/rectangle.ts:51 | a missing argument on either side never intersects |
| Rectangles.IntersectSymmetric | packages/shared/src/core/rectangle.ts:50-53 | the intersection test does not depend on the order of its arguments |
| Rectangles.IntersectCommonPoint | packages/shared/src/core/rectangle.ts:50-53 | for boxes of non-negative size, the test holds if and only if some point lies in both closed boxes |
| Rectangles.TouchingIntersect | packages/shared/src/core/rectangle.ts:52 | boxes that only share an edge count as intersecting, since the bounds are closed |
| Rectangles.PointIntersect | packages/shared/src/core/rectangle.ts:50-53 | a 0 by 0 box intersects a rectangle, on either side, if and only if its point lies in the rectangle's closed bounds |
| StableSort.InsertBy | packages/shared/src/rendering/render-node.ts:136 | one insertion step of the stable sort adds exactly one element |
| StableSort.SortBy | packages/shared/src/rendering/render-node.ts:136 | the sort keeps the length of its input |
| StableSort.TiesAppend | packages/shared/src/rendering/render-node.ts:136 | the elements of one key in a concatenation are those of the first part followed by those of the second |
| StableSort.InsertByPlace | packages/shared/src/rendering/render-node.ts:136 | inserting into a sorted list splices the element in after every element of lower or equal key and before every element of higher key |
| StableSort.SortedInsertAt | packages/shared/src/rendering/render-node.ts:136 | an element placed between the lower-or-equal keys and the higher ones keeps the list sorted and adds exactly that element |
| StableSort.InsertByLargest | packages/shared/src/rendering/render-node.ts:136 | an element whose key is at least every other key is appended at the end |
| StableSort.SortBySorted | packages/shared/src/rendering/render-node.ts:136 | the sort by `a.zIndex - b.zIndex` yields a list sorted by key that is a permutation of its input |
| StableSort.SortBySortedUnchanged | packages/shared/src/rendering/render-node.ts:136 | a list already in key order is left exactly as it is |
| StableSort.AppendAndSort | packages/shared/src/rendering/render-node.ts:133-136 | pushing onto a sorted list and sorting places the new element after every element of lower or equal key, with the others keeping their order |
| StableSort.SortByKeepsTies | packages/shared/src/rendering/render-node.ts:136 | stability: elements of equal key come out in the order they went in |
| StableSort.TiesInsert | packages/shared/src/rendering/render-node.ts:136 | inserting into a sorted list puts the new element after every element of its own key |
| StableSort.TiesSingle | packages/shared/src/rendering/render-node.ts:136 | a one-element list has that element as its only tie when the key matches, and none otherwise |
| StableSort.TiesAbove | packages/shared/src/rendering/render-node.ts:136 | a list whose keys all exceed k holds no element of key k |
| StableSort.SmallestFirst | packages/shared/src/rendering/render-node.ts:136 | an element whose key is below every other key comes out first |
| RenderNodes.IndexOf | packages/shared/src/rendering/render-node.ts:141 | indexOf finds the first position holding the identical child |
| RenderNodes.SpliceSorted | packages/shared/src/rendering/render-node.ts:140-147 | removing one child from a list sorted by z-index keeps it sorted |
| RenderNodes.RenderNode.constructor | packages/shared/src/rendering/render-node.ts:110-118 | a new node has no children, is visible, has no parent, and its child list is in z-order |
| RenderNodes.RenderNode.Show | packages/shared/src/rendering/render-node.ts:120-122 | show makes the node visible |
| RenderNodes.RenderNode.Hide | packages/shared/src/rendering/render-node.ts:124-126 | hide makes the node invisible |
| RenderNodes.RenderNode.Add | packages/shared/src/rendering/render-node.ts:132-138 | the children become the stable z-index sort of the old list with the child pushed last, so they stay in z-order and gain exactly that child, whose parent becomes this node |
| RenderNodes.RenderNode.Remove | packages/shared/src/rendering/render-node.ts:140-147 | a present child leaves the list at its first position, keeping the rest in order and in z-order, and loses its parent; an absent child changes nothing, not even its parent |
| RenderNodes.RenderNode.RemoveChildren | packages/shared/src/rendering/render-node.ts:149-151 | the child list is emptied |
| RenderNodes.AllVisibleDrawsPreorder | packages/shared/src/rendering/render-node.ts:245-289 | when every node is visible, render draws the whole tree parent first, children in list order |
| RenderNodes.AllVisibleDrawsPreorderFrom | packages/shared/src/rendering/render-node.ts:283-285 | with every child visible, the children's drawings in list order are their preorders in list order |
| RenderNodes.DrawsSelfFirst | packages/shared/src/rendering/render-node.ts:280-285 | a visible node is drawn before any of its descendants |
| RenderNodes.Render | packages/shared/src/rendering/render-node.ts:245-289 | the nodes drawn are exactly the draw order: nothing below an invisible node, otherwise the node and then each child's drawing in list order |
| RenderNodes.MouseEventState.constructor | packages/shared/src/rendering/render-node.ts:16-40 | a rendering mouse event starts with its given coordinates and its propagation not stopped |
| RenderNodes.InvisibleIgnores | packages/shared/src/rendering/render-node.ts:391 | an invisible node returns false, runs no handler, records nothing and leaves the stop flag as it was |
| RenderNodes.VisibleDecision | packages/shared/src/rendering/render-node.ts:411-453 | a visible node returns true exactly when it is hit and either some child returned true or propagation is stopped; its own handler runs exactly when it is hit, the mouse is in it and no child returned true |
| RenderNodes.StopIsSticky | packages/shared/src/rendering/render-node.ts:20-25 | once propagation is stopped it stays stopped through a whole walk |
| RenderNodes.StopIsStickyFrom | packages/shared/src/rendering/render-node.ts:424-426 | once propagation is stopped it stays stopped across the children |
| RenderNodes.StopIsStickyAt | packages/shared/src/rendering/render-node.ts:20-25 | a walk entered with propagation stopped leaves it stopped |
| RenderNodes.NoMouseInNothingRuns | packages/shared/src/rendering/render-node.ts:437-442 | when the mouse is in no node and propagation is not stopped, no handler runs, nothing stops and the event is not handled |
| RenderNodes.NoMouseInNothingRunsFrom | packages/shared/src/rendering/render-node.ts:424-426 | the same for the children, in list order |
| RenderNodes.HandleMouseEvent | packages/shared/src/rendering/render-node.ts:386-454 | the walk's return value, stop flag, handlers run and nodes visited are those the Propagate function gives, and the event's x, y, localX and localY are restored on the way out |
| RenderNodes.EnterTree | packages/shared/src/rendering/render-node.ts:191-218 | handleMouseEnter keeps each node's id, visibility and number of children, and never clears a mouseIn that was set |
| RenderNodes.LeaveTree | packages/shared/src/rendering/render-node.ts:220-243 | handleMouseLeave keeps each node's id, visibility and number of children, and never sets a mouseIn that was clear |
| RenderNodes.EnterThenLeaveIsHit | packages/shared/src/rendering/render-node.ts:248-271 | the enter-then-leave pair render runs at the root leaves every node's mouseIn equal to its hit test |
| RenderNodes.OwnEnterLeave | packages/shared/src/rendering/render-node.ts:202-237 | a node the mouse is already in runs no enter handler of its own, and one it is not in runs no leave handler of its own |
| RenderNodes.HandleEvent | packages/shared/src/rendering/render-node.ts:297-384 | a non-root node fails, and only it; a null, non-object or typeless event is ignored; mousedown, mouseup, mousemove and wheel become rendering events of that kind at the client point relative to the canvas and its world point; any other type does nothing |
| SelectionRegions.ComputeRegion | packages/shared/src/rendering/selection.ts:254-261 | there is a region exactly when both points exist; it has non-negative width and height, holds both points, and each of its edges lies on one of the points |
| SelectionRegions.RegionSmallest | packages/shared/src/rendering/selection.ts:254-261 | the region is the smallest closed box holding both points: any box that holds them holds every point of the region |
| SelectionRegions.RegionSymmetric | packages/shared/src/rendering/selection.ts:254-261 | swapping the two points gives the same region |
| SelectionRegions.AsBox | packages/shared/src/rendering/selection.ts:243-248 | the box contains tests keeps the coordinate's x and y and takes a missing width or height as 0 |
| SelectionRegions.ContainsPoint | packages/shared/src/rendering/selection.ts:241-252 | for a point, contains is true if and only if there is a region and the point lies in its closed bounds |
| SelectionRegions.ContainsCorners | packages/shared/src/rendering/selection.ts:241-261 | both points a selection was dragged between are contained in it |
| RenderSelections.CornersNormalised | packages/shared/src/rendering/selection.ts:216-220 | the corners sent on mouse up are the two points' minimum and maximum, whichever way the drag went, so start never exceeds end |
| RenderSelections.Selection.constructor | packages/shared/src/rendering/selection.ts:158-164 | a selection starts with no start, end or intermediate point and nothing propagated, with the configured button or none |
| RenderSelections.Selection.IsPointInside | packages/shared/src/rendering/selection.ts:166-168 | the selection node is hit at every point |
| RenderSelections.Selection.OnMouseDown | packages/shared/src/rendering/selection.ts:183-201 | a button other than the configured one drops every point; otherwise a drag starts at the client point with no end and no intermediate point |
| RenderSelections.Selection.OnMouseMove | packages/shared/src/rendering/selection.ts:203-210 | only during a drag, started and not finished, does the intermediate point follow the mouse; otherwise it is kept |
| RenderSelections.Selection.OnMouseUp | packages/shared/src/rendering/selection.ts:212-225 | with a drag started the end is recorded, the intermediate point cleared and exactly one selection event with the normalised region's corners is propagated; without a start nothing changes |
| RenderSelections.Selection.Region | packages/shared/src/rendering/selection.ts:263-265 | the region exists exactly when the drag has finished, and is the box spanned by its two points |
| RenderSelections.Selection.Invalidate | packages/shared/src/rendering/selection.ts:267-272 | a finished selection is forgotten entirely; a drag still in progress is kept |
| RenderSelections.Selection.Contains | packages/shared/src/rendering/selection.ts:241-252 | false until the selection is finished; then true exactly when the coordinate's box meets the region's closed bounds |
| RenderSelections.FrontierSelectable | packages/shared/src/rendering/selection.ts:170-181 | every node the selection's walk hands the event to is a selectable node |
| RenderSelections.FrontierCovers | packages/shared/src/rendering/selection.ts:170-181 | every selectable node of the subtree is handed the event or lies below one that is |
| RenderSelections.InnerWalkFirstChildOnly | packages/shared/src/rendering/selection.ts:104-114 | as written, the return inside the loop means only the first child matters: dropping the others changes nothing |
| RenderSelections.InnerWalkStopsAtPlainChild | packages/shared/src/rendering/selection.ts:104-114 | as written, a first child that is not selectable ends the inner walk at once, with nothing run and false returned |
| RenderSelections.ChildrenWalkPrefix | packages/shared/src/rendering/selection.ts:104-114 | the loop as intended depends only on the children it has passed |
| RenderSelections.ChildrenWalkShift | packages/shared/src/rendering/selection.ts:104-114 | after k passes, the loop as intended goes on exactly as a loop over the remaining children would |
| RenderSelections.ChildrenWalkAppend | packages/shared/src/rendering/selection.ts:104-114 | as intended, the inner walk over children a followed by b is the walk over a and then the walk over b: every child is looked at in order |
| RenderSelections.SecondChildHidden | packages/shared/src/rendering/selection.ts:104-114 | with a plain first child and a hit selectable second child under the mouse, the second child's onSelect never runs as written and runs as intended |
| RenderSelections.OuterWalkIsFrontier | packages/shared/src/rendering/selection.ts:170-181 | the selection's walk is exactly each frontier node's propagateEvent, in tree order, with the stop flag threaded through |
| RenderSelections.FrontierWalkAppend | packages/shared/src/rendering/selection.ts:171-179 | walking two lists of frontier nodes one after the other is walking their concatenation |
| RenderSelections.SelectionEventState.constructor | packages/shared/src/rendering/selection.ts:14-24 | a selection event starts with its given corners and its propagation not stopped |
| RenderSelections.PropagateSelectable | packages/shared/src/rendering/selection.ts:68-144 | propagateEvent's return value, stop flag and handlers run are those SelectablePropagate gives for the loop as written, and the event's corners come back as they went in |
| RenderSelections.TryToPropagate | packages/shared/src/rendering/selection.ts:104-114 | the inner walk on the event object gives what InnerWalk gives for the loop as written, and leaves the corners as they went in |
| TinySelections.UpReportsNoEnd | packages/map-scanner-tiny-viewer/src/core/selection.ts:78-83 | as written, finishing a drag fires Intermediate, so whether an End was ever reported does not change |
| TinySelections.UpReportsEnd | packages/map-scanner-tiny-viewer/src/core/selection.ts:78-83 | as intended, finishing a drag reports End with the end point |
| TinySelections.Selection.constructor | packages/map-scanner-tiny-viewer/src/core/selection.ts:46-55 | a selection starts with no start, end or intermediate point and nothing fired, with the configured button or none |
| TinySelections.Selection.OnMouseDown | packages/map-scanner-tiny-viewer/src/core/selection.ts:56-70 | another button than the configured one drops every point and fires Cancelled only when a drag had started and moved or finished; otherwise a drag starts at the world point and Begin fires with it |
| TinySelections.Selection.OnMouseMove | packages/map-scanner-tiny-viewer/src/core/selection.ts:72-76 | only during a drag, started and not finished, does the intermediate point follow the mouse, with Intermediate fired; otherwise nothing changes |
| TinySelections.Selection.OnMouseUp | packages/map-scanner-tiny-viewer/src/core/selection.ts:78-83 | as written, with a drag started the end point is recorded, the intermediate point cleared and Intermediate fired with the end point, so no End is ever reported; without a start nothing changes |
| TinySelections.Selection.OnMouseUpIntended | packages/map-scanner-tiny-viewer/src/core/selection.ts:78-83 | as intended, with a drag started the end point is recorded and End fires with it |
| TinySelections.Selection.Region | packages/map-scanner-tiny-viewer/src/core/selection.ts:109-111 | the region exists exactly when the drag has finished, is the box spanned by its two points, has non-negative size and holds both |
| TinySelections.Selection.Invalidate | packages/map-scanner-tiny-viewer/src/core/selection.ts:113-118 | a finished selection is forgotten entirely; a drag still in progress is kept |
| TinySelections.Selection.Contains | packages/map-scanner-tiny-viewer/src/core/selection.ts:88-98 | false until the selection is finished; then true exactly when the coordinate's box meets the region's closed bounds, which for a point means the point lies in the region |
| UserscriptPlugin.HeaderKeyToName | packages/userscript-webpack-plugin/src/plugin.ts:81-84 | a key's header name differs from the key exactly when the key is runAt, which is written run-at |
| UserscriptPlugin.IndexOf | packages/userscript-webpack-plugin/src/plugin.ts:73 | the order map's position of a key: its first occurrence in the list, or the list's length when absent (the `?? size` fallback) |
| UserscriptPlugin.IndexOfFacts | packages/userscript-webpack-plugin/src/plugin.ts:73 | position 0 belongs exactly to the first key of the list, and the length exactly to a key that is not in it |
| UserscriptPlugin.RankFacts | packages/userscript-webpack-plugin/src/plugin.ts:37-38 | only name ranks first; a key ranks after every listed key exactly when it is not in OrderHeader |
| UserscriptPlugin.NameFirst | packages/userscript-webpack-plugin/src/plugin.ts:188-192 | whatever the order of a header's distinct keys, the sorted keys start with the name entry |
| UserscriptPlugin.UnknownKeysLast | packages/userscript-webpack-plugin/src/plugin.ts:188-192 | the sort is ordered by rank and a permutation of the entries; keys outside OrderHeader, which share the last rank, keep the order the header gave them |
| UserscriptPlugin.Entries | packages/userscript-webpack-plugin/src/plugin.ts:136-137 | for an array, `Object.keys` and `for ... in` enumerate one index per item |
| UserscriptPlugin.DefaultTags | packages/userscript-webpack-plugin/src/plugin.ts:94-114 | with no options the block opens with `// ==UserScript==` and closes with `// ==/UserScript==` |
| UserscriptPlugin.KeyWidthIsLongest | packages/userscript-webpack-plugin/src/plugin.ts:101 | the longest name in OrderHeader is 11 characters (description), and no name is longer |
| UserscriptPlugin.WidenByCodes | packages/userscript-webpack-plugin/src/plugin.ts:104-109 | the widened width is at least the old one and at least the width of every locale code's `key:code` |
| UserscriptPlugin.Lookup | packages/userscript-webpack-plugin/src/plugin.ts:197 | a value found is stored under that key in the header; none is found only when no entry has the key |
| UserscriptPlugin.WidthFromBounds | packages/userscript-webpack-plugin/src/plugin.ts:103-110 | the loop over translation keys fails exactly when one of them holds null; otherwise the width is at least the start and covers every locale code of every translated key |
| UserscriptPlugin.AlignWidthBounds | packages/userscript-webpack-plugin/src/plugin.ts:101-111 | the alignment width fails exactly when a translation key holds null; otherwise every OrderHeader name and every `key:code` fits with two columns to spare |
| UserscriptPlugin.Spaces | packages/userscript-webpack-plugin/src/plugin.ts:127 | `' '.repeat(n)`: exactly n spaces |
| UserscriptPlugin.ValueColumn | packages/userscript-webpack-plugin/src/plugin.ts:123-128 | with the default renderer and alignment the padding throws exactly when `name:code` is wider than the width; otherwise every line starts with `prefix@` and its value starts at the same column |
| UserscriptPlugin.EntryLinesEach | packages/userscript-webpack-plugin/src/plugin.ts:135-138 | the lines of an object succeed exactly when every entry renders, one line per entry, in order, the default locale without a code |
| UserscriptPlugin.ThenNothing | packages/userscript-webpack-plugin/src/plugin.ts:131-142 | pushing no lines leaves the result unchanged |
| UserscriptPlugin.ThenThen | packages/userscript-webpack-plugin/src/plugin.ts:131-142 | pushing two groups of lines one after the other is pushing them together |
| UserscriptPlugin.FieldShapes | packages/userscript-webpack-plugin/src/plugin.ts:131-142 | a string gives one line; an object or array gives one line per entry under name, description and antifeature and nothing under any other name; null and other values give nothing |
| UserscriptPlugin.ArraysDropped | packages/userscript-webpack-plugin/src/plugin.ts:134-141 | as written, an array under a name like match or grant gives no line at all: it is an object, so the array branch is never reached |
| UserscriptPlugin.ArraysListed | packages/userscript-webpack-plugin/src/plugin.ts:139-141 | as intended, every element of an array gets its own line, in order, and the field succeeds when every element renders |
| UserscriptPlugin.AddHeaderField | packages/userscript-webpack-plugin/src/plugin.ts:131-142 | the lines pushed for one key are the field's lines, stopping at the first render that throws |
| UserscriptPlugin.SkippedKeys | packages/userscript-webpack-plugin/src/plugin.ts:204-208 | keys that are not written (unknown, with unknown keys not allowed) add no line |
| UserscriptPlugin.JoinFramed | packages/userscript-webpack-plugin/src/plugin.ts:212-215 | joining the open line, the body, the close line and an empty string gives each line newline-terminated |
| UserscriptPlugin.HeaderFrame | packages/userscript-webpack-plugin/src/plugin.ts:92-216 | the header succeeds exactly when the width and every written field succeed, and then it is the open line, each field line of the sorted keys, the close line, each followed by a newline |
| UserscriptPlugin.ComputeWidth | packages/userscript-webpack-plugin/src/plugin.ts:101-111 | the loop computes the alignment width specified by AlignWidth, errors included |
| UserscriptPlugin.WidthLoop | packages/userscript-webpack-plugin/src/plugin.ts:103-110 | the loop over translation keys computes WidthFrom, stopping at the first null |
| UserscriptPlugin.WidenStep | packages/userscript-webpack-plugin/src/plugin.ts:104-109 | one key's turn computes WidenFor: a null throws, an object or array widens, anything else leaves the width |
| UserscriptPlugin.WidenLoop | packages/userscript-webpack-plugin/src/plugin.ts:104-109 | the loop over locale codes computes WidenByCodes |
| UserscriptPlugin.AddFields | packages/userscript-webpack-plugin/src/plugin.ts:195-209 | the loop over the ordered keys computes BodyLines, skipping keys not written and stopping at the first throw |
| UserscriptPlugin.GenerateHeader | packages/userscript-webpack-plugin/src/plugin.ts:92-216 | the method computes the header text specified by HeaderText, whose frame HeaderFrame states |
| UserscriptPlugin.Match | packages/userscript-webpack-plugin/src/plugin.ts:269-291 | a file matches exactly when it ends with the extension, '.user.js' by default, or, for a list, with at least one of them |
| UserscriptPlugin.EndsWithAppended | packages/userscript-webpack-plugin/src/plugin.ts:270-276 | a name built by appending an extension ends with it; ending with '.user.js' means the last eight characters are those |
| KebabCase.ToLower | packages/userscript-webpack-plugin/helpers/schemas-generator.ts:16-17 | a capital ASCII letter becomes its lower-case letter (code + 32); any other character is unchanged; the result is never a capital |
| KebabCase.Folded | packages/userscript-webpack-plugin/helpers/schemas-generator.ts:15 | the case-insensitive form: same length, each character lower-cased |
| KebabCase.FoldedAppend | packages/userscript-webpack-plugin/helpers/schemas-generator.ts:15 | folding distributes over concatenation |
| KebabCase.ReplaceKeepsFolded | packages/userscript-webpack-plugin/helpers/schemas-generator.ts:15 | replacing UserScript with Userscript, case-insensitively, keeps the length and the lower-cased text |
| KebabCase.NoTarget | packages/userscript-webpack-plugin/helpers/schemas-generator.ts:15 | a name with no 'us' pair in any case is left unchanged by the first replace |
| KebabCase.LowerFirst | packages/userscript-webpack-plugin/helpers/schemas-generator.ts:16 | only a leading capital is lower-cased, with no dash; the rest is unchanged |
| KebabCase.DashedAppend | packages/userscript-webpack-plugin/helpers/schemas-generator.ts:17 | the dashing step works per character, so it distributes over concatenation |
| KebabCase.DashedShape | packages/userscript-webpack-plugin/helpers/schemas-generator.ts:17 | dashing adds one character per capital, leaves no capital, and leaves a name without capitals unchanged |
| KebabCase.KebabShape | packages/userscript-webpack-plugin/helpers/schemas-generator.ts:13-18 | the result has no capital, and is longer than the input by one dash per capital after the first character |
| KebabStems.HeaderStrictStem | packages/userscript-webpack-plugin/helpers/schemas-generator.ts:37 | example: HeaderStrict becomes header-strict, the stem the schema index imports |
| KebabStems.HeaderNotStrictStem | packages/userscript-webpack-plugin/helpers/schemas-generator.ts:38 | example: HeaderNotStrict becomes header-not-strict, the stem the schema index imports |
| KebabStems.ConfigurationNotStrictStem | packages/userscript-webpack-plugin/helpers/schemas-generator.ts:39 | example: ConfigurationNotStrict becomes configuration-not-strict, the stem the schema index imports |

## Left out

- ByteBuffer.Buffer.ReadUint: a read past the end, which makes the `DataView` throw, is excluded by the precondition rather than modelled as an error.
- ByteBuffer.Buffer.ReadInt: the same precondition as ReadUint, for the same reason.
- ByteBuffer.Buffer.Write: a write past the end is excluded by the precondition rather than modelled as an error.
- ByteBuffer.Buffer.ReadFloat64Bits: the float64 value is kept as its eight raw bytes; no IEEE 754 decoding is modelled, and an access past the end is excluded by the precondition.
- ByteBuffer.Buffer.WriteFloat64Bits: as ReadFloat64Bits; the bytes written are a parameter, not an encoded double.
- Floating point: float32 and float64 arithmetic are not modelled. Time spans, world coordinates and rectangle fields are exact reals. So overflow, rounding and NaN are not covered, and `fromX(v).totalX() == v` holds exactly rather than up to rounding.
- The colour-distance lookups (`fromColor` with a tolerance), the tolerance branch of `Vector2.equals`, transforms and pan/zoom: floating-point geometry. Canvas pixel classification is a parameter of the chunk's canvas constructor.
- The MD5 digest is a parameter function returning 16 bytes. Its source is not part of this model.
- Sockets: the WebSocket, its callbacks and the 5-second reconnect timer of `Connection.connect` are replaced by a socket object whose send may fail nondeterministically. Opening and closing events are method calls on the channel.
- The `useChannel` React hook's lifecycle and the websocket bridge wiring around the host's opcode switch are left out. They are UI and I/O wiring; the opcode switch itself is modelled.
- RemoteHost.ChannelClientInternalManager.Clear: the order in which the peers are closed, and so the order of their Close frames, is left open (any order visiting each peer once); the source walks the record in its insertion order. The record is a map here, which keeps no insertion order.
- RemoteHost.ChannelClientInternalManager.CloseAll: the same open order as Clear, for the same reason.
- ClientManagers.ValuesOf: the values are listed once each in some order, where `Object.values` follows the record's insertion order; the map keeps no such order.
- Console logging and the error text printed by the host are left out.
- Dispatching and the event emitters: listeners are recorded as identifiers and emitted events are appended to a log. The callbacks' own effects are not run. `EventEmitter.offAll` calls a `Dispatcher.offAll` that the dispatcher does not define, so the call throws. `OffAll` models the evident intent, one step that detaches everything; what the throw does to the store's release is listed under Findings.
- File dialogs and the file system of the chunk cache's open/save are results passed in as parameters. File writes are returned as values.
- Recent.RecentItems.constructor: `maxSize` is an unbounded integer; a fractional or non-numeric size is not modelled.
- ClientManagers.Client.constructor: the renderer-side Client is reduced to its id, the one field the manager uses; the rest of the viewer-side client is not modelled.
- RenderNodes: translate, scale, rotate and setTransform, and the world/local transforms, are opaque functions passed in as parameters. Hit tests are parameters too. Drawing (`render`, `draw`) is reduced to the order in which nodes are visited.
- The drawing of both selection tools (canvas calls) is left out; their state and events are modelled.
- Mice.Mouse: `destroy`, which removes the DOM listeners, is left out because listener registration is not modelled.
- UserscriptPlugin: package.json injection (`injectFromCurrentPackage`) reads the file system and is left out; the header given is the one after injection.
- UserscriptPlugin: `options.order` is left out. Its comparator treats index 0 as absent, so it is not a consistent order, and the result of the sort then depends on the engine.
- UserscriptPlugin.Match: RegExp and RegExpObject extensions are left out, since there are no regular expressions here. Only string extensions, single or in a list, are modelled.
- The plugin's constructor (config file loading and schema validation) and `apply` (webpack hooks, the asset cache and source concatenation) are build tooling and file-system I/O, and are left out.
- The schema generator's `generateSchemaFromInterface` (tsconfig loading, typescript-json-schema, file writes) is left out; only `toKebabCase` and the three names it converts are modelled.
- KebabCase: only ASCII capitals count as upper case, as in the source's `[A-Z]`; the case-insensitive match of "UserScript" folds ASCII letters only.
- The bridge's unique id provider counts with unbounded integers, so there is no `Number` precision limit.
- Time, randomness and scheduling (frame loops, `UniqueIdProvider`, the scanner's interval gate) and the React/PIXI components are not part of this model.

## Findings

| source | as written | input that shows it | evidently intended | confidence | as-written member | corrected member |
|---|---|---|---|---|---|---|
| packages/shared/src/hash/definitons.ts:34-36 | `toString` passes the digest's own array to `hex`, which overwrites each number with its two hex digits | a digest holding 0x12 renders "12" the first time and "0c" the second; one holding 0xab renders "ab", then "00" | rendering leaves the digest as it is, so every call gives the same text | high, not executed | Hashing.RenderingTwiceDiffers | Hashing.Hash.ToHex |
| packages/userscript-webpack-plugin/src/plugin.ts:131-142 | an array is an object, so it takes the object branch and yields lines only under name, description and antifeature; the `Array.isArray` branch is never reached | a header with `match: ["https://example.org/*"]` or `grant: ["GM_getValue", "GM_setValue"]` gets no `@match` or `@grant` line | each element of an array gets its own `@name value` line, in order | high, not executed | UserscriptPlugin.ArraysDropped | UserscriptPlugin.ArraysListed |
| packages/map-scanner-viewer/src/ui/core/mouse.ts:55-58 | the mouseenter handler clears the activity flag and fires Leave, like mouseleave | leave then enter the canvas: the mouse stays inactive and `isIn` is false for every rectangle | mouseenter sets the flag and fires Enter, so the flag follows the last crossing | high, not executed | ViewerMouse.NeverActiveAgain | ViewerMouse.IntendedFollowsLastCrossing |
| packages/map-scanner-tiny-viewer/src/core/selection.ts:78-83 | mouse up fires Intermediate with the end point; End is declared but never fired | press, move and release with the configured button: the listeners see Begin and Intermediate, never End | mouse up fires End with the end point | medium, not executed | TinySelections.UpReportsNoEnd | TinySelections.UpReportsEnd |
| packages/shared/src/rendering/selection.ts:104-114 | the inner walk returns inside its loop over the children, so only the first child is examined | a selectable node whose first child is a plain node and whose second child is a selectable node under the selection: the second child is never selected | every child is walked in order, each starting from the stop flag the one before it left | high, not executed | RenderSelections.SecondChildHidden | RenderSelections.ChildrenWalkAppend |
| packages/shared/src/network/remote.ts:134-140 | the last release calls `offAll` on the registry, which calls `offAll` on its dispatcher; the dispatcher class has no such method, so the call throws after `clear` and the entry is never deleted | get a channel's registry once, then release it: the peers are closed, release throws, and the entry stays with a count of zero; the next get of that name takes the increment branch and returns the cleared registry, whose listeners are still attached | the last release detaches the listeners and drops the entry, so the next get makes a fresh registry | high, not executed | RemoteHost.ChannelManagerStore.ReleaseThenGetAsWritten | RemoteHost.ChannelManagerStore.ReleaseThenGet |
