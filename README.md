# BluStream standalone streaming, modelled in Dafny

BluStream streams rendered views of a seismic volume to clients. A server
renders a slice of the volume, or a test picture when no volume is loaded.
It encodes each frame with H.264 and sends it to every connected client. A
native client receives frames over TCP and decodes them. A second,
browser-facing server runs one WebRTC session per browser and takes control
messages over HTTP.

This project models the core of that system and proves properties of the
model. Each part of the program is modelled in its own module:

- `Wire` (wire.dfy): the 32-byte message header and the 20-byte stream
  configuration, both little-endian, and their encode/decode round trips.
  `Colour`, `Raster` and `ServerPictures` cover the pixel conversions: the
  legacy server's RGB to YUV 4:2:0 conversion, slice scaling and the test
  pattern, the hardware encoder's full-range conversion and the client's
  YUV to RGB conversion.
- `TcpConnection` and `StreamingServer`: the legacy TCP server.
  - Each client connection is a class with a send queue and a send loop.
  - The server greets each client with a configuration message and
    broadcasts every frame to the connected clients.
  - The encoder's packets are assembled with start codes, the extradata
    prepended to every packet when it is in Annex B form.
- `StreamingClient`: the native client.
  - The handshake that reads the stream configuration.
  - The receive loop over the byte stream, which grows its buffer to the
    largest payload announced.
  - Frame processing through the decoder, and the conversion of decoded
    pictures.
- `WebRtcSession`, `WebRtcServer`, `Signaling` and `Phase5Cli`: the phase 5
  WebRTC server.
  - The session class: its clients and peer connections, media setup and
    frame counters.
  - The session registry, with ids made of eight hex digits, joining,
    leaving and the cleanup of inactive sessions.
  - Control messages, and the render loop with its per-session slice
    requests and statistics.
  - The HTTP routing and request parsing, and the program's argument loop.
- `HardwareEncoding` and `HardwareServer`: the hardware encoder and the
  server that drives it.
  - Backend selection and auto-detection.
  - Plane allocation, conversion and encoding, and the performance window.
  - The paced render loop with keyframe spacing and frame dropping.
- `VolumeManager` (vds.dfy): the volume manager.
  - Loading a file, with its centred sample window.
  - The noise volume, and slices along each axis.
  - Animated slices, slice dimensions and the grey-scale conversion.
  - The server's `load_vds` with its noise fallback. The same fallback is
    in server/src/streaming_server.cpp:645-668 and
    server/src/streaming_server_vds_patch.cpp:22-45.
- `TestFrames`: the gradient frame of the encoder test program.
- `CommandLine`, `Phase4Cli` and `Phase4bCli`: atoi and stoi, and the
  argument loops of the phase 4 and phase 4B programs.
- `ErrorCodes`, `Logging` and `DebugIo`: the common library.
  - Error codes, their texts and the exception's cached message.
  - The console logger, the global logger and the log stream.
  - The debug-output switch with its counters and statistics report.

State that the C++ code changes in place is modelled as Dafny classes with
`modifies` clauses. This covers the servers, sessions, connections, the
client, the encoder, the volume manager, the loggers and the debug switch.
Loops that fill buffers are methods over arrays, with loop invariants. Pure
computations are functions with lemmas about them.

Where the code and the system's design description differ, the model
follows the code:

- Each client's send queue is unbounded. Nothing is dropped when it grows.
- The native client skips a header of any type other than FRAME, but not
  that header's payload. It does not check the protocol version.
- The phase 5 program's `--quality` option has no branch for "fast". The
  phase 4B program parses `--encoder` and `--quality` but never uses what
  it parses.

Values the program gets from outside are parameters of the model. These are:

- the clock and timestamps;
- bytes read from sockets, and the outcome of each send;
- what the encoder, decoder and volume library return;
- environment variables;
- float parsing (`atof`, `stof`).

A 32-bit float is carried as its bit pattern (`Wire.Float32`) wherever the
program only stores or copies it.

## Model

| member | source | states |
|---|---|---|
| Wire.TypeCode | common/include/blustream/common/types.h:63-75 | every message type carries a code in 1..0xFF; 0xFF is exactly ERROR and all other types are at most 0x0A |
| Wire.TypeCodeInjective | common/include/blustream/common/types.h:63-75 | two message types share a code exactly when they are the same type |
| Wire.CodecCode | common/include/blustream/common/types.h:54-60 | codec values are at most 4, and 0 is exactly H264 |
| Wire.CodecCodeInjective | common/include/blustream/common/types.h:54-60 | two codecs share a value exactly when they are the same codec |
| Wire.LE32 | common/include/blustream/common/types.h:78-87 | a uint32 field occupies four bytes on the wire |
| Wire.LE32RoundTrip | common/include/blustream/common/types.h:78-87 | reading back the four bytes of a field gives the field's value |
| Wire.ReadLE32Inverse | common/include/blustream/common/types.h:78-87 | any four received bytes are the encoding of the value read from them |
| Wire.EncodeHeader | common/include/blustream/common/types.h:78-87 | a message header is 32 bytes |
| Wire.HeaderFieldOffsets | common/include/blustream/common/types.h:78-87 | magic, type, payload size and timestamp sit at byte offsets 0, 8, 12 and 20 |
| Wire.HeaderRoundTrip | common/include/blustream/common/types.h:78-87 | decoding an encoded header gives back every field |
| Wire.HeaderDecodeEncode | common/include/blustream/common/types.h:78-87 | any 32 received bytes re-encode to themselves, so the decoder loses nothing |
| Wire.EncodeStreamConfig | common/include/blustream/common/types.h:90-96 | a stream configuration is 20 bytes |
| Wire.StreamConfigRoundTrip | common/include/blustream/common/types.h:90-96 | decoding an encoded stream configuration gives back width, height, fps pattern, codec and bitrate |
| Colour.LumaStudio | server/src/streaming_server.cpp:537 | the studio luma of any pixel lies in 16..235, and a grey level g maps to (220g + 128)/256 + 16 |
| Colour.CbStudio | server/src/streaming_server.cpp:542 | the studio U sample lies in 16..240 and is exactly 128 for a grey pixel |
| Colour.CrStudio | server/src/streaming_server.cpp:543 | the studio V sample lies in 16..240 and is exactly 128 for a grey pixel |
| Colour.LumaFull | server/src/hardware_encoder.cpp:441 | full-range luma keeps a grey level exactly, is at least R when R is the smallest channel and at most R when R is the largest |
| Colour.CbFull | server/src/hardware_encoder.cpp:446 | the full-range U sample is at least 1 and exactly 128 for a grey pixel |
| Colour.CrFull | server/src/hardware_encoder.cpp:447 | the full-range V sample is at least 1 and exactly 128 for a grey pixel |
| Colour.Clamp | client/src/streaming_client.cpp:454-456 | a value in 0..255 is kept, anything below becomes 0 and anything above becomes 255 |
| Colour.YuvToRgb | client/src/streaming_client.cpp:444-456 | neutral chroma (U = V = 128) decodes to a grey pixel |
| Colour.YuvToRgbStudioExtremes | client/src/streaming_client.cpp:444-456 | studio black (16, 128, 128) decodes to (0, 0, 0) and studio white (235, 128, 128) to (255, 255, 255) |
| Colour.GreyRoundTrip | client/src/streaming_client.cpp:444-456 | a grey pixel encoded by the streaming server's formulas and decoded by the client's comes back grey, within one level of the original |
| Raster.ScaledCoordinateBound | server/src/streaming_server.cpp:363-364 | the scaled coordinate x*s/r of any x below r stays below s |
| Raster.IdxInjective | server/src/streaming_server.cpp:530-536 | two in-row positions with the same row-major offset are the same position |
| Raster.PixelInPicture | server/src/streaming_server.cpp:530-533 | the three bytes of pixel (x, y) lie inside a width*height*3 picture |
| Raster.PixelUpdate | server/src/streaming_server.cpp:369-371 | writing a pixel's three bytes sets that pixel and keeps every earlier pixel |
| Raster.IdxDivMod | server/src/streaming_server.cpp:530-536 | the row and column of a row-major offset are recovered by division and remainder |
| ServerPictures.AsWrittenOverflowsOnOddSize | server/src/streaming_server.cpp:522-543 | for 1x1 and 3x3 pictures the loop as written stores a V sample at or past the end of its output |
| ServerPictures.YuvSize | server/src/streaming_server.cpp:522-525 | the corrected output holds at least the luma plane |
| ServerPictures.CorrectedLayoutAgreesOnEvenSize | server/src/streaming_server.cpp:522-543 | for even sizes the corrected size and V positions equal the ones as written |
| ServerPictures.ChromaSlotInside | server/src/streaming_server.cpp:540-543 | every pixel's chroma slot in the corrected layout lies inside the output |
| ServerPictures.ChromaSlotOfEvenPixel | server/src/streaming_server.cpp:540-541 | at an even pixel the row-major scan reaches exactly that pixel's chroma slot, and the slot's source pixel is that pixel |
| ServerPictures.ChromaWrittenStep | server/src/streaming_server.cpp:540 | passing a pixel writes one more chroma slot exactly when its row and column are even, never past the plane |
| ServerPictures.ChromaDoneAll | server/src/streaming_server.cpp:528-546 | once every slot is written, each chroma slot holds the Cb and Cr of the top-left pixel of its 2x2 block |
| ServerPictures.ConvertPixel | server/src/streaming_server.cpp:530-544 | one inner-loop pass writes the pixel's luma and, at even row and column, its block's chroma, keeping what was written before |
| ServerPictures.ConvertRow | server/src/streaming_server.cpp:529-545 | one row of the scan extends the written luma and chroma to the start of the next row |
| ServerPictures.ConvertRgbToYuv420 | server/src/streaming_server.cpp:519-549 | every luma sample is the studio luma of its pixel, every chroma slot holds the studio Cb and Cr of its block's top-left pixel |
| ServerPictures.ScaledSourceInside | server/src/streaming_server.cpp:361-374 | for a full slice every source pixel the scaling reads lies inside it, and the render pixel takes that source pixel |
| ServerPictures.ScaleToSameSize | server/src/streaming_server.cpp:361-374 | scaling a slice to its own size copies it pixel for pixel |
| ServerPictures.ScaleRow | server/src/streaming_server.cpp:362-373 | one row of the scaling loop fills that row's pixels with their nearest-neighbour colours, keeping earlier rows |
| ServerPictures.ScaleSlice | server/src/streaming_server.cpp:358-374 | every pixel of the fresh rw x rh frame holds its nearest-neighbour source colour, black where the source bytes fall outside the slice |
| ServerPictures.ScaledAll | server/src/streaming_server.cpp:361-374 | once every row is scaled, every pixel of the frame holds its scaled colour |
| ServerPictures.PatternScrolls | server/src/streaming_server.cpp:385-387 | from one frame to the next the red ramp moves one pixel left, and blue is the same over the whole picture |
| ServerPictures.PatternPeriod | server/src/streaming_server.cpp:385-387 | the animated gradient repeats every 512 frames |
| ServerPictures.DrawPatternRow | server/src/streaming_server.cpp:382-388 | one row of the test-pattern loop draws that row's pixels for the frame counter, keeping earlier rows |
| ServerPictures.DrawTestPattern | server/src/streaming_server.cpp:381-389 | every pixel of the buffer becomes the gradient colour for the frame counter |
| TcpConnection.FrameHeader | server/src/streaming_server.cpp:731-737 | a frame header carries the magic 'BSTR', version 1, the FRAME type code and, for payloads below 4 GiB, the payload size |
| TcpConnection.DrainAllSucceed | server/src/streaming_server.cpp:716-753 | when every send succeeds the whole queue goes out in FIFO order, each payload behind its own header, and the byte count grows by header plus payload per frame |
| TcpConnection.DrainFirstFailure | server/src/streaming_server.cpp:739-748 | a failed send disconnects, drops the popped payload, adds nothing to the byte count, and puts at most one header on the wire |
| TcpConnection.DrainDisconnected | server/src/streaming_server.cpp:717-723 | a disconnected connection sends nothing and changes nothing |
| TcpConnection.ClientConnection.constructor | server/src/streaming_server.cpp:683-691 | a new connection is connected, with an empty queue, nothing sent and a zero byte count |
| TcpConnection.ClientConnection.SendFrame | server/src/streaming_server.cpp:701-714 | a connected connection appends the payload at the queue's tail and reports true; a disconnected one refuses it, and nothing else changes |
| TcpConnection.ClientConnection.SendLoop | server/src/streaming_server.cpp:716-753 | the send thread's run leaves the connection in the state the step-by-step drain specifies |
| TcpConnection.ClientConnection.Disconnect | server/src/streaming_server.cpp:755-763 | the connection is marked disconnected and the socket is closed once; the queue and the counters are kept |
| StreamingServer.Low32 | server/src/streaming_server.cpp:595-600 | an int stored into a uint32 field keeps its value when it fits in 32 bits |
| StreamingServer.StreamConfigFor | server/src/streaming_server.cpp:595-600 | the config sent to a client carries the H.264 codec code, the frame rate bits and, when they fit in 32 bits, the render width, height and bitrate |
| StreamingServer.ConfigHeader | server/src/streaming_server.cpp:587-592 | the header in front of the config has the magic, version 1, the CONFIG type code and the StreamConfig size as payload size |
| StreamingServer.GreetingLayout | server/src/streaming_server.cpp:585-604 | a new client's greeting is a header and a StreamConfig; decoding the header yields the config header, whose payload size is the rest of the greeting, and decoding the rest yields the stream config |
| StreamingServer.AssemblePacket | server/src/streaming_server.cpp:472-490 | a broadcast payload is the packet, with the extradata in front exactly when the extradata is Annex B |
| StreamingServer.AssembledLayout | server/src/streaming_server.cpp:472-490 | an assembled payload ends with the packet unchanged and, with Annex B extradata, starts with that extradata |
| StreamingServer.AssembledStartsWithStartCode | server/src/streaming_server.cpp:472-485 | when the extradata or the packet starts with a start code, so does every assembled payload |
| StreamingServer.AssembleAll | server/src/streaming_server.cpp:487-514 | the run of packets yields one payload per packet |
| StreamingServer.AssembleAllAt | server/src/streaming_server.cpp:487-514 | payload i of the run is packet i assembled with the extradata |
| StreamingServer.PacketBytesWithoutExtradata | server/src/streaming_server.cpp:509-513 | without Annex B extradata each payload is the packet itself, and the byte statistics equal the bytes broadcast |
| StreamingServer.Received | server/src/streaming_server.cpp:701-714 | queueing frames on a connection changes only its queue |
| StreamingServer.ReceivedTwice | server/src/streaming_server.cpp:701-714 | queueing two runs one after the other is queueing their concatenation |
| StreamingServer.ConnectedOnly | server/src/streaming_server.cpp:610-616 | the erase/remove_if filter keeps only connected clients and never grows the list |
| StreamingServer.ConnectedOnlyMembers | server/src/streaming_server.cpp:610-616 | a client survives the filter exactly when it is in the list and connected |
| StreamingServer.ConnectedOnlyDistinct | server/src/streaming_server.cpp:610-616 | the filter keeps a list without duplicates free of duplicates |
| StreamingServer.ConnectedOnlyKeepsConnected | server/src/streaming_server.cpp:610-616 | when every client is connected the filter keeps the list as it is |
| StreamingServer.KeptAt | server/src/streaming_server.cpp:610-616 | a client connected at the start lands in the filtered list at the position counted by the connected clients before it |
| StreamingServer.KeptMembers | server/src/streaming_server.cpp:610-616 | the filter keeps only members of the list |
| StreamingServer.ConnectedOnlyIsKept | server/src/streaming_server.cpp:610-616 | the filter over the live objects equals the filter read off their states |
| StreamingServer.Server.constructor | server/src/streaming_server.cpp:56-69 | a new server is stopped, has no clients, zero statistics, and the legacy slice at axis 2, index 32 |
| StreamingServer.Server.Start | server/src/streaming_server.cpp:231-249 | start always reports success and leaves the server running; the clients, statistics and settings are unchanged |
| StreamingServer.Server.Stop | server/src/streaming_server.cpp:251-287 | a running server disconnects every client and empties the list; a stopped one keeps its list; no queue, wire or byte count changes |
| StreamingServer.Server.SetSliceParams | server/src/streaming_server.cpp:670-675 | the slice axis and index become the given ones and nothing else changes |
| StreamingServer.Server.ClientCount | server/src/streaming_server.cpp:677-680 | the count is the length of the client list, connected or not |
| StreamingServer.Server.AcceptClient | server/src/streaming_server.cpp:551-604 | a failed accept changes nothing; an accepted client is new, connected, has an empty queue, and is appended to the list; the CONFIG header and the stream configuration reach its wire each exactly when its own send succeeds, making up the greeting when both do |
| StreamingServer.Server.BroadcastFrame | server/src/streaming_server.cpp:606-622 | disconnected clients are dropped in order, and every client connected before the call has the frame appended to its queue |
| StreamingServer.Server.SendPackets | server/src/streaming_server.cpp:487-514 | every connected client receives each assembled payload in order, the dropped ones nothing, and the statistics count one frame and the packet bytes per packet |
| StreamingServer.Server.EncodeAndSendFrame | server/src/streaming_server.cpp:414-517 | the frame is converted into a YUV 4:2:0 buffer of the layout's size with every luma and chroma sample as specified, then the encoder's packets are delivered and counted; without packets nothing is sent |
| StreamingServer.Server.RenderFrame | server/src/streaming_server.cpp:295-392 | with no volume the test pattern is drawn for the frame counter; with a volume slice it is scaled to the render size by nearest neighbour from the slice size its axis gives, and an empty slice falls back to the old pattern buffer |
| StreamingServer.Server.FinishFrame | server/src/streaming_server.cpp:394-410 | the frame is encoded and delivered, one frame is counted as rendered, and the next deadline moves on by one frame duration |
| StreamingServer.Server.RenderTick | server/src/streaming_server.cpp:295-410 | one pass of the render loop: the frame rendered as RenderFrame specifies is delivered to the clients connected at its start and counted, and the deadline advances by one frame |
| StreamingClient.ParameterSets | client/src/streaming_client.cpp:238-251 | the hard-coded parameter sets are 40 bytes: an SPS NAL unit (type 0x67) behind a start code, then a PPS NAL unit (type 0x68) behind a start code at byte 28 |
| StreamingClient.DecoderInput | client/src/streaming_client.cpp:395-399 | the decoder is given the parameter sets followed by the frame, both unchanged |
| StreamingClient.ParseHandshake | client/src/streaming_client.cpp:118-158 | the handshake is accepted exactly when a whole header and StreamConfig arrived and the header has the magic and the CONFIG type |
| StreamingClient.NextMessage | client/src/streaming_client.cpp:330-375 | fewer than 32 bytes end the loop; another type consumes only its header; a whole FRAME consumes its header and its payload |
| StreamingClient.NonFrameHeaderSkipped | client/src/streaming_client.cpp:353-356 | a header of another type is skipped alone, and the bytes after it are read as the next header |
| StreamingClient.FrameDelivered | client/src/streaming_client.cpp:358-375 | a FRAME header followed by its whole payload delivers exactly that payload first, then continues with the rest |
| StreamingClient.ConvertDecodedFrame | client/src/streaming_client.cpp:435-462 | every pixel of the RGB picture is luma (x, y) and chroma (x/2, y/2) of the planes, converted by the client's YUV to RGB rule |
| StreamingClient.Client.constructor | client/src/streaming_client.cpp:45-59 | a new client has no socket, is not connected, has no decoder and zero counters |
| StreamingClient.Client.ConnectToServer | client/src/streaming_client.cpp:66-176 | success exactly when the socket opens, the server is reachable and the handshake parses; then the client is connected with the parsed config and the parameter sets, and its decoder is as DecoderAfter says; a socket or connect failure keeps the descriptor it got and leaves the connection flag and the unread bytes alone; a bad handshake disconnects, having consumed the header it read, or everything when a read came up short; the counters do not change |
| StreamingClient.DecoderAfter | client/src/streaming_client.cpp:164-170 | without decode_frames the decoder the client had is kept; with it, a decoder is usable exactly when initialize_decoder opened one, or it found no codec and the old one is still there |
| StreamingClient.Client.Disconnect | client/src/streaming_client.cpp:204-215 | the client is marked disconnected and an open socket is closed; nothing else changes |
| StreamingClient.Client.ProcessFrame | client/src/streaming_client.cpp:381-425 | without a decoder nothing is counted; with one, a refused packet counts one error and an accepted one adds its pictures to the decoded count |
| StreamingClient.Client.ReceiveLoop | client/src/streaming_client.cpp:323-379 | the loop reads exactly the frames the stream holds, counts each as received with its size, decodes each with the parameter sets, stops where the stream stops, and grows the 1 MiB buffer to the largest payload announced |
| WebRtcSession.EraseFirst | server/src/webrtc_session.cpp:238-241 | erasing the first occurrence shortens the list by one exactly when the value is in it |
| WebRtcSession.EraseFirstAbsent | server/src/webrtc_session.cpp:238-241 | erasing a value that is not in the list leaves it unchanged |
| WebRtcSession.EraseFirstDistinct | server/src/webrtc_session.cpp:238-241 | on a duplicate-free list the erase keeps it duplicate-free and removes exactly that value |
| WebRtcSession.RepeatLeave | server/src/webrtc_session.cpp:234-247 | after a removal the client is gone, so removing it again changes nothing |
| WebRtcSession.Session.constructor | server/src/webrtc_session.cpp:131-138 | a new session stores its id, factory and config and is inactive, with no clients, peers or media; its frame and byte counts are the uninitialised values given |
| WebRtcSession.Session.CreateMediaStream | server/src/webrtc_session.cpp:387-420 | succeeds exactly when every step yields its object; each object exists from the step that made it, and the steps after a failure leave theirs as they were |
| WebRtcSession.Session.Initialize | server/src/webrtc_session.cpp:144-159 | succeeds exactly with a factory and a complete media stream, and only then sets the session active; without a factory nothing changes |
| WebRtcSession.Session.Close | server/src/webrtc_session.cpp:161-184 | an inactive session is left unchanged; an active one becomes inactive with no clients, no peer connections and no media objects |
| WebRtcSession.Session.AddClient | server/src/webrtc_session.cpp:186-232 | a client already present gives true with nothing changed; otherwise success exactly when the peer connection is created and, with a media stream, the stream attaches, and only success appends the client and registers its peer; the list stays duplicate-free |
| WebRtcSession.Session.RemoveClient | server/src/webrtc_session.cpp:234-247 | the client's first occurrence leaves the list and its peer connection is dropped; an absent client changes nothing |
| WebRtcSession.Session.CleanupPeerConnection | server/src/webrtc_session.cpp:422-430 | the client's peer connection, if any, is forgotten, and nothing else changes |
| WebRtcSession.Session.GetPeerConnection | server/src/webrtc_session.cpp:432-436 | the stored peer for a known client, none for any other |
| WebRtcSession.Session.GetClients | server/src/webrtc_session.cpp:249-252 | the clients in joining order, each once, and exactly those holding a peer connection |
| WebRtcSession.Session.SendFrame | server/src/webrtc_session.cpp:356-375 | with a video source one frame and its size are counted; without one nothing changes |
| WebRtcSession.Session.SendFrameToClient | server/src/webrtc_session.cpp:377-380 | the client is ignored and the frame is counted as send_frame counts it |
| WebRtcSession.Session.UpdateConfig | server/src/webrtc_session.cpp:382-385 | the whole config is replaced by the new one |
| HardwareEncoding.CodecNamesDistinct | server/src/hardware_encoder.cpp:398-409 | the four FFmpeg encoder names are distinct, so a lookup by name finds one encoder |
| HardwareEncoding.GetAvailableEncoders | server/src/hardware_encoder.cpp:516-535 | the list is never empty and always ends with software x264 |
| HardwareEncoding.AvailableEncodersListed | server/src/hardware_encoder.cpp:395-414 | the software and auto types are never "available"; a type is listed exactly when it is software x264 or a hardware type FFmpeg finds, in declaration order without repeats |
| HardwareEncoding.DetectedIsFirstAvailable | server/src/hardware_encoder.cpp:377-393 | auto-detection picks the first listed encoder other than NVENC HEVC, so NVENC H.264 before QuickSync before software, and never AUTO or HEVC |
| HardwareEncoding.SelectBackendProperties | server/src/hardware_encoder.cpp:73-115 | the active type is never AUTO; a hardware type stays active only when its backend started; failure means software x264 failed too; a requested hardware type that starts is kept; an auto-detected hardware type was available |
| HardwareEncoding.NamesDistinct | server/src/hardware_encoder.cpp:481-514 | encoder_type_to_string tells all five types apart, and get_encoder_name the four concrete ones |
| HardwareEncoding.LastN | server/src/hardware_encoder.cpp:463-466 | the window holds at most n entries and no more than the history |
| HardwareEncoding.WindowOfHistory | server/src/hardware_encoder.cpp:463-466 | pushing a time and dropping the oldest past n keeps the newest n of the whole history, ending with the new time |
| HardwareEncoding.ConvertedAll | server/src/hardware_encoder.cpp:431-450 | once every row is processed every pixel's luma and every 2x2 block's chroma are in place |
| HardwareEncoding.ConvertFullRow | server/src/hardware_encoder.cpp:432-449 | one row of the loop writes luma for each pixel and chroma at even x of an even row, keeping the pixels before it |
| HardwareEncoding.StartBackend | server/src/hardware_encoder.cpp:73-115 | the type and success the selection and fallback rule produce; the active type is never AUTO |
| HardwareEncoding.AllocatePlanes | server/src/hardware_encoder.cpp:116-133 | three new distinct planes, large enough for the picture at the given strides |
| HardwareEncoding.HardwareEncoder.constructor | server/src/hardware_encoder.cpp:42-54 | a new encoder is not initialised, has software x264 as its type and zeroed statistics |
| HardwareEncoding.HardwareEncoder.Initialize | server/src/hardware_encoder.cpp:60-146 | an initialised encoder reports true and keeps its config; otherwise the config is taken, the active type is the one selection and fallback give, and success requires a started backend and allocated frames |
| HardwareEncoding.HardwareEncoder.Shutdown | server/src/hardware_encoder.cpp:148-172 | a well-formed encoder stays well-formed; an uninitialised one is unchanged; an initialised one is no longer initialised; the config, type and statistics are kept |
| HardwareEncoding.HardwareEncoder.SupportsHardwareAcceleration | server/src/hardware_encoder.cpp:496-498 | true exactly when the active type is one of the three hardware encoders |
| HardwareEncoding.HardwareEncoder.ConvertRgbToYuv420 | server/src/hardware_encoder.cpp:416-453 | input of the wrong size is refused with the planes untouched; otherwise every luma and chroma sample is the full-range value of its pixel |
| HardwareEncoding.HardwareEncoder.UpdatePerformanceStats | server/src/hardware_encoder.cpp:460-471 | the window becomes the newest 60 of the old window plus the new time |
| HardwareEncoding.HardwareEncoder.EncodeFrame | server/src/hardware_encoder.cpp:174-217 | a packet comes out and is counted, with its time in the window, exactly when the encoder is initialised, the input has the right size, the encoder accepts the frame and yields a packet; otherwise the result is empty and nothing is counted |
| WebRtcServer.EncoderConfigFor | server/src/webrtc_server.cpp:158-170 | the encoder takes the server's type, quality, size and frame rate, a bitrate midway in the configured range (within it whenever the range is ordered), GOP 30, no B-frames, VBR, and the default peak bitrate and CRF |
| WebRtcServer.HexDigit | server/src/webrtc_server.cpp:545-547 | a value below 16 prints as one lower-case hexadecimal digit |
| WebRtcServer.HexId | server/src/webrtc_server.cpp:544-548 | the id has one character per random digit |
| WebRtcServer.HexDigitInjective | server/src/webrtc_server.cpp:545-547 | distinct values print distinct digits |
| WebRtcServer.HexIdInjective | server/src/webrtc_server.cpp:544-548 | distinct random draws give distinct ids |
| WebRtcServer.GenerateSessionId | server/src/webrtc_server.cpp:539-549 | the id is eight lower-case hexadecimal digits, the digits drawn in order |
| WebRtcServer.ChosenId | server/src/webrtc_server.cpp:252-256 | the id create_session uses is never empty: the supplied one, or an eight-digit generated one when none is supplied |
| WebRtcServer.LeaveRegistry | server/src/webrtc_server.cpp:325-339 | an unknown session leaves the registry unchanged; otherwise the session stays exactly when its client list is non-empty after the removal, and no other session is touched |
| WebRtcServer.LeaveTwice | server/src/webrtc_server.cpp:325-339 | leaving twice is leaving once, and the last client's leaving removes the session |
| WebRtcServer.ActiveOnly | server/src/webrtc_server.cpp:551-563 | exactly the active sessions stay, each unchanged |
| WebRtcServer.ActiveOnlyIdempotent | server/src/webrtc_server.cpp:551-563 | removing inactive sessions a second time removes nothing more |
| WebRtcServer.ControlChangesOwnField | server/src/webrtc_server.cpp:375-435 | a control changes at most its own field; ANIMATION_DURATION and FRAME_RATE change nothing; a missing parameter changes nothing; an unparsable speed is the only exception; orientation and quality are copied, paused is true exactly for "true", restart sets the slice to -1 |
| WebRtcServer.SliceAxisFor | server/src/webrtc_server.cpp:515-519 | YZ gives axis 0, XZ axis 1, XY and every other orientation axis 2 |
| WebRtcServer.ClampIndex | server/src/webrtc_server.cpp:526 | for an ordered range the result lies in it, equals the value exactly when the value does, and is the nearer bound otherwise |
| WebRtcServer.SliceRequestFor | server/src/webrtc_server.cpp:511-537 | the slice is at the orientation's axis; a fixed, paused or non-animated session keeps its current slice; an animated one gets a clamped index inside the axis' extent, the scaled progress when that is already inside |
| WebRtcServer.FrameOut | server/src/webrtc_server.cpp:480-509 | a session is sent a frame exactly when it is active, there is a VDS manager, the slice is not empty, there is an encoder and its output is not empty; the frame is that output |
| WebRtcServer.RenderExceptStep | server/src/webrtc_server.cpp:446-452 | rendering one more session of the pass updates only that session's entry |
| WebRtcServer.RenderAllShape | server/src/webrtc_server.cpp:446-452 | a pass keeps the ids, changes only the frame and byte counts, sends each session at most one frame, leaves inactive sessions alone, and commutes with removing inactive sessions |
| WebRtcServer.RenderAllClients | server/src/webrtc_server.cpp:446-452 | a pass changes no session's client list |
| WebRtcServer.PassStats | server/src/webrtc_server.cpp:565-589 | refreshing after a pass counts the sessions and clients before the pass |
| WebRtcServer.SumOverRemove | server/src/webrtc_server.cpp:575-578 | the total over the sessions does not depend on the map's visiting order |
| WebRtcServer.SumOverAtMostCount | server/src/webrtc_server.cpp:446-452 | a pass encodes at most one frame per session |
| WebRtcServer.NextDeadline | server/src/webrtc_server.cpp:458-466 | the deadline moves on one frame period, or to now when that is already past, so it is never behind now and there is no catch-up |
| WebRtcServer.CountedStep | server/src/webrtc_server.cpp:497-506 | counting one more session's frame keeps the pass's count invariant |
| WebRtcServer.CountedAll | server/src/webrtc_server.cpp:446-452 | with nothing pending, the statistics are those of the whole pass |
| WebRtcServer.Server.constructor | server/src/webrtc_server.cpp:96-100 | a new server is stopped, with no sessions, factory, encoder or VDS manager |
| WebRtcServer.Server.Initialize | server/src/webrtc_server.cpp:106-183 | succeeds exactly when the factory and the encoder start; the factory is present exactly when its creation succeeded; once it is, a fresh encoder with EncoderConfigFor replaces the old one and is usable exactly when it started; the VDS manager is created only on success |
| WebRtcServer.Server.Start | server/src/webrtc_server.cpp:185-201 | always true and running; a running server is unchanged; otherwise the animation clock and the render deadline start at now |
| WebRtcServer.Server.Stop | server/src/webrtc_server.cpp:203-226 | a stopped server is unchanged; a running one stops with no sessions, factory, encoder or VDS manager |
| WebRtcServer.Server.CreateSession | server/src/webrtc_server.cpp:249-305 | an existing id is returned with the registry unchanged; a failed initialisation returns "" and inserts nothing; success inserts an active session under the id with the config's session id set to it and its counters at the uninitialised values given |
| WebRtcServer.Server.JoinSession | server/src/webrtc_server.cpp:307-323 | an unknown session gives false with nothing changed; otherwise the result is add_client's, and only a new client joining changes the registry, appending that client |
| WebRtcServer.Server.RemoveFromSession | server/src/webrtc_server.cpp:331 | remove_client changes only that session's client list |
| WebRtcServer.Server.LeaveSession | server/src/webrtc_server.cpp:325-339 | the registry becomes LeaveRegistry of the old one; surviving sessions are the same objects |
| WebRtcServer.Server.CleanupInactiveSessions | server/src/webrtc_server.cpp:551-563 | the registry becomes its active sessions, which are the same objects |
| WebRtcServer.Server.SetSessionConfig | server/src/webrtc_server.cpp:430 | update_config changes only that session's configuration |
| WebRtcServer.Server.HandleControlMessage | server/src/webrtc_server.cpp:375-435 | an unknown session changes nothing; otherwise the session's config becomes what ApplyControl gives, and only a restart resets the animation clock |
| WebRtcServer.Server.SendToSession | server/src/webrtc_session.cpp:356-375 | send_frame changes only that session's counters |
| WebRtcServer.Server.RenderSession | server/src/webrtc_server.cpp:480-509 | the session is sent FrameOut's frame, and the statistics count it with its size |
| WebRtcServer.Server.RenderSessions | server/src/webrtc_server.cpp:446-452 | every session is rendered once, in any order, and the statistics count every frame sent |
| WebRtcServer.Server.UpdateStats | server/src/webrtc_server.cpp:565-589 | after a second the session and client counts are recorded and the clock restarts; before that nothing changes |
| WebRtcServer.Server.RecordStats | server/src/webrtc_server.cpp:570-586 | the new statistics are stored and the statistics clock restarts at now |
| WebRtcServer.Server.RenderPass | server/src/webrtc_server.cpp:446-455 | a pass renders every session and then refreshes the statistics when the second is up |
| WebRtcServer.Server.RenderLoopTick | server/src/webrtc_server.cpp:437-478 | a stopped server does nothing; a running one renders every session, refreshes the statistics, moves the deadline by NextDeadline, counts the pass and removes inactive sessions on every 300th |
| WebRtcServer.Server.FinishTick | server/src/webrtc_server.cpp:457-472 | the deadline and the pass counter advance, and the inactive sessions go when the counter reaches a multiple of 300 |
| WebRtcServer.Server.AdvanceClock | server/src/webrtc_server.cpp:457-469 | the next deadline is NextDeadline and the pass is counted |
| WebRtcServer.Server.CleanupWhenDue | server/src/webrtc_server.cpp:469-472 | the inactive sessions are removed exactly on every 300th pass |
| HardwareServer.ScheduleRule | server/src/streaming_server_hw.cpp:183-195 | the deadline moves on by at least one frame and ends less than three frames behind the clock; frames are dropped exactly when the lag after the advance is three frames or more, and then the count is the whole frames in the lag and the deadline is now |
| HardwareServer.KeyframeSpacing | server/src/streaming_server_hw.cpp:223 | after a keyframe, the frame k later is a keyframe exactly when k is a multiple of the keyframe interval |
| HardwareServer.Completed | server/src/streaming_server_hw.cpp:160-164 | no more frames complete than the loop runs |
| HardwareServer.SentCount | server/src/streaming_server_hw.cpp:204-220 | no more frames are broadcast than complete |
| HardwareServer.PaceAdvances | server/src/streaming_server_hw.cpp:160-195 | over a run of the loop the deadline moves on by at least one frame duration per pass |
| HardwareServer.PaceKeepsUp | server/src/streaming_server_hw.cpp:186-195 | after a completed frame the loop is less than three frame durations behind the clock it read |
| HardwareServer.HwServer.constructor | server/src/streaming_server_hw.cpp:85-89 | a new hardware server has no encoder and has dropped no frames |
| HardwareServer.HwServer.InitializeHardware | server/src/streaming_server_hw.cpp:98-138 | the config is stored, and the base server takes its config, frame duration and keyframe interval from it whatever happens next; when the base server fails the encoder is unchanged and the result is false; otherwise a new encoder with the derived config is attached, and the result is its initialisation's |
| HardwareServer.HwServer.Destroy | server/src/streaming_server_hw.cpp:91-96 | an attached encoder is shut down, keeping its config, type and count |
| HardwareServer.HwServer.IsHardwareAccelerated | server/src/streaming_server_hw.cpp:295-297 | true exactly when an encoder exists and one of the hardware backends is active |
| HardwareServer.HwServer.EncoderInfo | server/src/streaming_server_hw.cpp:269-286 | without an encoder, the fixed not-initialised message; with one, its name and whether it is hardware accelerated |
| HardwareServer.HwServer.HardwareEncodeAndSendFrame | server/src/streaming_server_hw.cpp:203-228 | with no encoder or empty output nothing is sent or counted; otherwise the output is broadcast once, flagged as a keyframe when the count so far is a multiple of the interval, and then counted |
| HardwareServer.HwServer.EnhancedTick | server/src/streaming_server_hw.cpp:146-198 | an empty slice only moves the deadline on by one frame; a completed one is encoded and sent, paced by the drop rule, and counted as rendered twice |
| HardwareServer.HwServer.FinishFrame | server/src/streaming_server_hw.cpp:176-197 | the deadline follows the drop rule, the dropped count grows by what it writes off, and the frame is counted as rendered twice |
| HardwareServer.HwServer.EnhancedRenderLoop | server/src/streaming_server_hw.cpp:140-201 | a stopped server only sets the deadline; a running one ends with the deadline and drop count the pacing gives, two rendered per completed frame and one encoded per frame sent |
| VolumeManager.VolumeSize | server/src/vds_manager.cpp:153 | the buffer of w * h * d samples holds one plane of h * w samples for each of the d planes |
| VolumeManager.Idx3Inside | server/src/vds_manager.cpp:159-165 | every voxel (x, y, z) of the box has its flat position z * (w * h) + y * w + x inside the buffer |
| VolumeManager.FillPlane | server/src/vds_manager.cpp:196-282 | the row-major slice loops write, at position o * inner + i, exactly the cell of row o, column i, and nothing more |
| VolumeManager.FillVolume | server/src/vds_manager.cpp:159-170 | the z, y, x loops leave a w * h * d buffer whose element at z * (w * h) + y * w + x is the sample for voxel (x, y, z) |
| VolumeManager.CopySourceReadsCut | server/src/vds_manager.cpp:196-232 | the strided source positions the slice loops read are exactly the voxels the cut at `index` along `axis` passes through |
| VolumeManager.SyntheticSlicesAreEmpty | server/src/vds_manager.cpp:238-282 | on a consistent volume with no samples the synthetic branch can only produce an empty slice |
| VolumeManager.NoiseVolumeMatchesSynthetic | server/src/vds_manager.cpp:238-282 | a slice cut from the noise volume at scale 0.05 equals, cell by cell, the noise the synthetic branch generates |
| VolumeManager.FloatToRgb | server/src/vds_manager.cpp:474-511 | three equal bytes per sample, its intensity, and so three times as many bytes as samples |
| VolumeManager.AnimatedAxis | server/src/vds_manager.cpp:306-321 | XY picks the z axis, YZ the x axis, anything else the y axis, with that axis's extent as the slice count |
| VolumeManager.ClampSlice | server/src/vds_manager.cpp:323-326 | the slice index lies in [0, count - 1]; an index in range is kept, one past the end becomes the last slice, a negative one 0 |
| VolumeManager.SliceDimensions | server/src/vds_manager.cpp:337-352 | the reported width and height are the row length and row count of the animated slice for that orientation |
| VolumeManager.SampleWindow | server/src/vds_manager.cpp:383-393 | the window is min(cap, extent) long, lies inside the extent and is centred, the spare voxel going after it |
| VolumeManager.NoiseVolumeSize | server/src/vds_manager.cpp:153-165 | the noise volume holds w * h * d samples, the one at z * (w * h) + y * w + x being the noise of voxel (x, y, z) |
| VolumeManager.VdsManager.constructor | server/src/vds_manager.cpp:31-39 | no proxy, no volume, extents 0 and no samples |
| VolumeManager.VdsManager.Initialize | server/src/vds_manager.cpp:45-74 | succeeds exactly when the library creates a proxy, which is then kept |
| VolumeManager.VdsManager.Shutdown | server/src/vds_manager.cpp:76-89 | no volume and no proxy afterwards, the samples dropped and the extents kept |
| VolumeManager.VdsManager.GetSliceData | server/src/vds_manager.cpp:185-286 | nothing without a volume or for an axis or index out of range, otherwise exactly the slice at `index` along `axis` |
| VolumeManager.VdsManager.GetSliceRgb | server/src/vds_manager.cpp:288-295 | the grey image of that slice, nothing when there is no slice |
| VolumeManager.VdsManager.GetAnimatedSliceData | server/src/vds_manager.cpp:297-327 | the slice of the orientation's axis at the clamped position, nothing without a volume or with no slices |
| VolumeManager.VdsManager.GetAnimatedSliceRgb | server/src/vds_manager.cpp:329-335 | the grey image of the animated slice |
| VolumeManager.VdsManager.CreateNoiseVolume | server/src/vds_manager.cpp:140-183 | always succeeds, marks a volume loaded and caches the noise volume of the requested size and scale |
| VolumeManager.VdsManager.ExtractVdsData | server/src/vds_manager.cpp:354-472 | fails, changing nothing, without a layout; otherwise caches the centred window of the stored volume with the window's extents |
| VolumeManager.VdsManager.LoadFromFile | server/src/vds_manager.cpp:91-138 | succeeds exactly with a proxy, an opened file and a layout, and then holds its window; a failed extraction leaves no volume loaded |
| VolumeManager.LoadVds | server/src/streaming_server_vds_patch.cpp:22-45 | fails only without a manager; otherwise holds the file's window or, failing that, the 128-cube noise volume at scale 0.05 |
| TestFrames.Low8Small | server/src/test_hardware_encoding.cpp:31-33 | the cast to uint8_t keeps every value in 0..255 unchanged |
| TestFrames.ScaledChannel | server/src/test_hardware_encoding.cpp:31-33 | a coordinate scaled by 255 / size with integer division stays in 0..254, so the cast loses nothing |
| TestFrames.GradientChannels | server/src/test_hardware_encoding.cpp:31-33 | red is x * 255 / width, green y * 255 / height and blue (x + y) * 255 / (width + height), each at most 254 |
| TestFrames.ChannelMono | server/src/test_hardware_encoding.cpp:31-32 | a scaled channel never decreases as its coordinate grows |
| TestFrames.GradientRamps | server/src/test_hardware_encoding.cpp:26-35 | red rises along every row and green down every column, both starting at 0 |
| TestFrames.GradientRow | server/src/test_hardware_encoding.cpp:27-34 | after the x loop of row y, every pixel up to the end of that row holds its gradient colour |
| TestFrames.GenerateTestFrame | server/src/test_hardware_encoding.cpp:22-38 | width * height * 3 bytes, pixel (x, y) at bytes (y * width + x) * 3 .. + 2 holding its gradient colour |
| CommandLine.DecimalOfText | server/src/phase4_main.cpp:49-72 | the digits written for a number read back as that number |
| CommandLine.DigitRunOfDigits | server/src/phase4_main.cpp:49-72 | the conversion's digit run stops exactly where the digits end |
| CommandLine.AtoiOfText | server/src/phase4_main.cpp:49-72 | atoi gives back n from the decimal text of n, whatever non-digit text follows it; stoi does the same when n fits in a 32-bit int and refuses it (out_of_range) otherwise |
| CommandLine.AtoiSkipsSpace | server/src/phase4_main.cpp:49-72 | leading white space does not change what atoi or stoi read |
| CommandLine.NoNumeral | server/src/phase5_main.cpp:69-74 | a text starting with no space, sign or digit gives 0 under atoi and an error under stoi |
| Phase4Cli.ParseArgs | server/src/phase4_main.cpp:46-81 | the loop's outcome is the left-to-right reading of the arguments from the initial configuration |
| Phase4Cli.ExitCodes | server/src/phase4_main.cpp:73-80 | the loop returns only status 0 (help) or 1 (a bad argument) |
| Phase4Cli.ValueOptionStep | server/src/phase4_main.cpp:49-72 | a value option and the argument after it are consumed together and set one field |
| Phase4Cli.RunStep | server/src/phase4_main.cpp:46-81 | a reading that finishes consumes a value option with its value or a flag at each step |
| Phase4Cli.ValueOptionFirst | server/src/phase4_main.cpp:49-72 | a leading value option is read the same whatever arguments are appended |
| Phase4Cli.FlagFirst | server/src/phase4_main.cpp:65-68 | a leading animation flag is read the same whatever arguments are appended |
| Phase4Cli.ParseAppend | server/src/phase4_main.cpp:46-81 | once a prefix is read completely, what follows is read from the configuration the prefix produced |
| Phase4Cli.UnknownOptionExits | server/src/phase4_main.cpp:76-80 | an unrecognised argument ends the program with status 1 whatever follows, --help included |
| Phase4Cli.HelpExits | server/src/phase4_main.cpp:73-75 | --help, when the loop reaches it, ends the program with status 0 |
| Phase4Cli.TrailingValueOptionExits | server/src/phase4_main.cpp:49-80 | a value option given last has no value, falls to the last branch and ends the program with status 1 |
| Phase4Cli.AnimationFlagLastWins | server/src/phase4_main.cpp:65-68 | of two animation flags the later one decides animate_slice |
| Phase4Cli.NumericOption | server/src/phase4_main.cpp:49-72 | --port and --max-clients followed by a number set their field to that number |
| Phase4bCli.ParseEncoderType | server/src/phase4b_main.cpp:48-53 | nvenc, quicksync and software name their encoder types, each if and only if the name is given; anything else means auto-detection |
| Phase4bCli.ParseQualityPreset | server/src/phase4b_main.cpp:55-61 | ultrafast, balanced and high name their presets, each if and only if the name is given; anything else, fast included, means FAST |
| Phase4bCli.NamesRoundTrip | server/src/phase4b_main.cpp:48-61 | every encoder type but NVENC HEVC and every quality is read back from its name; NVENC HEVC's name reads as auto-detection |
| Phase4bCli.ApplyPreset | server/src/phase4b_main.cpp:63-86 | the three presets set resolution, frame rate, bitrate and client limit to their values; any other name changes nothing |
| Phase4bCli.PresetOverridesPreset | server/src/phase4b_main.cpp:63-86 | a preset applied after any other preset gives what it gives alone |
| Phase4bCli.PresetRelations | server/src/phase4b_main.cpp:63-86 | the 4K presets differ only in bitrate and client limit, and 1080p is half the 4K width and height |
| Phase4bCli.PresetOf | server/src/phase4b_main.cpp:171-176 | each preset option applies one of the three preset names |
| Phase4bCli.PresetOptionNames | server/src/phase4b_main.cpp:171-176 | each preset option is "--preset-" followed by the preset it applies |
| Phase4bCli.ParseArgs | server/src/phase4b_main.cpp:146-204 | the loop's outcome is the left-to-right reading of the arguments from the 4K defaults |
| Phase4bCli.UnknownOptionIgnored | server/src/phase4b_main.cpp:163-204 | an argument the loop does not know is skipped |
| Phase4bCli.TrailingValueOptionIgnored | server/src/phase4b_main.cpp:177-203 | a value option given last is skipped |
| Phase4bCli.ValueOptionStep | server/src/phase4b_main.cpp:177-203 | a value option and the argument after it are consumed together |
| Phase4bCli.LaterOptionWins | server/src/phase4b_main.cpp:171-182 | an option after a preset overrides the preset's value and a preset after an option overrides the option |
| Phase4bCli.ConfigIgnoresEncoderChoice | server/src/phase4b_main.cpp:159-204 | the encoder type and quality the loop parses never affect the configuration or the early exits |
| Phase4bCli.EncoderOptionsDoNotConfigure | server/src/phase4b_main.cpp:187-190 | --encoder and --quality with their values leave the configuration exactly as it was |
| Phase5Cli.EncoderOption | server/src/phase5_main.cpp:356-364 | an --encoder value other than the three names keeps the current encoder type |
| Phase5Cli.QualityOption | server/src/phase5_main.cpp:365-373 | a --quality value other than ultrafast, balanced and high keeps the current quality |
| Phase5Cli.AgreesWithPhase4b | server/src/phase5_main.cpp:356-373 | named values mean what the phase 4B parsers make of them; "fast" keeps the setting here but means FAST there |
| Phase5Cli.ParseArgs | server/src/phase5_main.cpp:342-385 | the loop's outcome is the left-to-right reading of the arguments from main's defaults |
| Phase5Cli.UnknownOptionIgnored | server/src/phase5_main.cpp:342-385 | an argument the loop does not know is skipped |
| Phase5Cli.TrailingValueOptionIgnored | server/src/phase5_main.cpp:348-384 | a value option given last is skipped |
| Phase5Cli.HelpOnlyAsOption | server/src/phase5_main.cpp:346-348 | --help ends the loop when read as an option, but a value option takes it as its value |
| Phase5Cli.SetOptionOverwrites | server/src/phase5_main.cpp:348-384 | for every option but --encoder and --quality a second value replaces the first outright |
| Phase5Cli.LastValueWins | server/src/phase5_main.cpp:348-384 | for every option but --encoder and --quality the last value given wins |
| Phase5Cli.UnnamedValueKeepsSetting | server/src/phase5_main.cpp:356-373 | an unnamed --encoder or --quality value is as good as absent, so "--quality balanced --quality fast" leaves BALANCED |
| Phase5Cli.ValueOptionStep | server/src/phase5_main.cpp:348-384 | a value option and the argument after it are consumed together |
| Phase5Cli.NumericOption | server/src/phase5_main.cpp:348-377 | --port and --max-sessions followed by a number set their field to that number |
| Signaling.RouteTable | server/src/phase5_main.cpp:265-302 | each POST handler is reached by exactly its own path and no other path reaches one; GET answers only /api/stats; everything else is 404 |
| Signaling.ControlTypeFor | server/src/phase5_main.cpp:205-219 | the five controlType strings name their control kinds, each if and only if that string is given; no string names duration or frame rate |
| Signaling.ControlTypeNames | server/src/phase5_main.cpp:205-219 | the five names and the five nameable kinds correspond one to one, and every other string names nothing |
| Signaling.ControlParameters | server/src/phase5_main.cpp:222-227 | the parameters hold exactly the keys of controlData, each with that field's string |
| Signaling.ControlMessageFrom | server/src/phase5_main.cpp:199-238 | a message built from a body always carries a kind a browser can name |
| Signaling.ControlBodyRoundTrip | server/src/phase5_main.cpp:199-238 | reading back the body a browser sends for a message gives that message, parameters included |
| Signaling.ControlRejections | server/src/phase5_main.cpp:199-238 | an unknown controlType, a missing session id or a controlData that is not an object makes the request a bad request |
| Signaling.OfferFields | server/src/phase5_main.cpp:134-153 | an offer with session id, client id and SDP is accepted, and dropping any of the three makes it a bad request |
| Signaling.IceIndexMustBeNumber | server/src/phase5_main.cpp:176-197 | an ICE candidate is accepted with a numeric line index and refused with the same index as a string |
| Signaling.SessionConfigFrom | server/src/phase5_main.cpp:64-80 | a query fails exactly when a given width, height or fps does not convert (no digits, or a size outside the 32-bit int range); otherwise each given field overrides its default and nothing else changes |
| Signaling.SizeQuery | server/src/phase5_main.cpp:69-74 | a query giving width and height in decimal yields a session of that size with every other field at its default when both fit in a 32-bit int, and no session otherwise |
| Signaling.SizeOverrides | server/src/phase5_main.cpp:69-74 | width and height that convert override their defaults and nothing else |
| Signaling.StoiOfText | server/src/phase5_main.cpp:69-74 | a number printed in decimal reads back with stoi exactly when it fits in a 32-bit int, and is refused otherwise |
| Signaling.HandleCreateSession | server/src/phase5_main.cpp:63-105 | a query that does not convert (no digits, or a size outside the 32-bit int range) escapes the handler with the registry unchanged; otherwise the answer is 200 or 500 |
| Signaling.HandleJoinSession | server/src/phase5_main.cpp:107-132 | 400 exactly when an id is missing, 404 for an unknown session, 200 with the client in the session, and nothing changed except on 200 |
| Signaling.HandleControl | server/src/phase5_main.cpp:199-241 | a body that does not parse is a 400 changing nothing; otherwise the control is applied to a known session, a non-numeric speed answers 400, and a restart resets the animation clock |
| ErrorCodes.EnumeratorCategories | common/include/blustream/common/error_codes.h:9-56 | SUCCESS is 0 and every other enumerator lies in the thousand of its category |
| ErrorCodes.EnumeratorsIncrease | common/include/blustream/common/error_codes.h:9-56 | the codes strictly increase in declaration order |
| ErrorCodes.EnumeratorsAreCodes | common/include/blustream/common/error_codes.h:9-56 | every enumerator's value is one of the declared codes |
| ErrorCodes.EnumeratorsDistinct | common/include/blustream/common/error_codes.h:9-56 | no two enumerators share a value |
| ErrorCodes.ErrorTextTable | common/src/error_codes.cpp:7-58 | a value gets the unknown-code text if and only if it is not an enumerator |
| ErrorCodes.FormatHead | common/src/error_codes.cpp:60-67 | a formatted error starts with "[" and the code, which reads back as that code |
| ErrorCodes.FormatTail | common/src/error_codes.cpp:60-67 | without a message the text is "[code] text"; with one it ends in ": " and the message |
| ErrorCodes.FormatErrorParts | common/src/error_codes.cpp:60-67 | format_error starts with "[" and the code that reads back, then the code's text, then ": " and the message only when there is one |
| ErrorCodes.BluStreamException.constructor | common/src/error_codes.cpp:70-71 | the exception keeps its code and message, with nothing formatted yet |
| ErrorCodes.BluStreamException.What | common/src/error_codes.cpp:73-78 | what() returns format_error of the code and message and caches it; a filled cache is not replaced |
| ErrorCodes.FormattedNeverEmpty | common/src/error_codes.cpp:73-78 | the formatted text is never empty, so after the first what() the cache is always used |
| Logging.RankOrder | common/include/blustream/common/logger.h:10-17 | the levels are numbered 0 (TRACE) to 5 (FATAL), each number naming one level |
| Logging.FilterMonotone | common/src/logger.cpp:18-21 | a message that passes the threshold still passes at a higher level or a lower threshold; FATAL always passes, TRACE only at threshold TRACE |
| Logging.StreamFor | common/src/logger.cpp:25-29 | a line goes to standard error if and only if its level is ERROR or above |
| Logging.TagsAligned | common/src/logger.cpp:42-50 | every level tag is five characters long and the tags tell the levels apart |
| Logging.LineLayout | common/src/logger.cpp:32-54 | a line is the timestamp, " [", the tag, "] " and the message unchanged, nine characters longer than timestamp and message together |
| Logging.Emitted | common/src/logger.cpp:18-30 | at most one line, present exactly when the level passes the threshold, on the level's stream and formatted |
| Logging.ConsoleLogger.constructor | common/src/logger.cpp:16 | the logger starts with the given threshold and nothing written |
| Logging.ConsoleLogger.Log | common/src/logger.cpp:18-30 | appends exactly what Emitted gives for the message at the current threshold |
| Logging.ConsoleLogger.SetLevel | common/include/blustream/common/logger.h:42 | the threshold becomes the given level |
| Logging.ConsoleLogger.GetLevel | common/include/blustream/common/logger.h:43 | the current threshold |
| Logging.ConsoleLogger.TraceMessage | common/include/blustream/common/logger.h:28 | trace logs the message at TRACE |
| Logging.ConsoleLogger.DebugMessage | common/include/blustream/common/logger.h:29 | debug logs the message at DEBUG |
| Logging.ConsoleLogger.InfoMessage | common/include/blustream/common/logger.h:30 | info logs the message at INFO |
| Logging.ConsoleLogger.WarnMessage | common/include/blustream/common/logger.h:31 | warn logs the message at WARN |
| Logging.ConsoleLogger.ErrorMessage | common/include/blustream/common/logger.h:32 | error logs the message at ERROR |
| Logging.ConsoleLogger.FatalMessage | common/include/blustream/common/logger.h:33 | fatal logs the message at FATAL |
| Logging.GlobalLogger.constructor | common/src/logger.cpp:57-62 | no logger is installed at start |
| Logging.GlobalLogger.GetLogger | common/src/logger.cpp:57-62 | returns the installed logger, or installs and returns a new INFO console logger with nothing written |
| Logging.GlobalLogger.SetLogger | common/src/logger.cpp:64-66 | the given logger replaces the installed one |
| Logging.LogStream.constructor | common/include/blustream/common/logger.h:65 | a stream at the given level with nothing gathered |
| Logging.LogStream.Append | common/include/blustream/common/logger.h:68-72 | the rendered value is appended to the gathered text |
| Logging.LogStream.Finish | common/include/blustream/common/logger.h:66 | the gathered text is logged once, at the stream's level, through the global logger, which is created at INFO when absent |
| DebugIo.Increment | common/include/blustream/common/debug_config.h:29-35 | fetch_add(1) adds one, and wraps to 0 past the largest size_t |
| DebugIo.DebugBuildAlike | common/include/blustream/common/debug_config.h:52-68 | a DEBUG build starts with the same flag as any other: on only for "1", "true" or "TRUE", off when the variable is unset |
| DebugIo.StatsReport | common/include/blustream/common/debug_config.h:37-49 | no report exactly when the size_t total is 0; otherwise one carrying both counts |
| DebugIo.StatsReportBounds | common/include/blustream/common/debug_config.h:37-49 | without wrap-around a report appears exactly when some write was counted, its total is the sum and its share blocked lies in 0..100, at 100 when nothing was permitted and 0 when nothing was blocked |
| DebugIo.DebugConfig.constructor | common/include/blustream/common/debug_config.h:52-77 | the flag is what the environment variable says, both counters 0, and a warning exactly when the flag starts on |
| DebugIo.DebugConfig.IsDebugIoEnabled | common/include/blustream/common/debug_config.h:17-19 | the current flag |
| DebugIo.DebugConfig.SetDebugIoEnabled | common/include/blustream/common/debug_config.h:21-26 | the flag becomes the given value, with a warning exactly when it is turned on |
| DebugIo.DebugConfig.IncrementBlocked | common/include/blustream/common/debug_config.h:29-31 | the blocked counter advances by one, modulo 2^64 |
| DebugIo.DebugConfig.IncrementPermitted | common/include/blustream/common/debug_config.h:33-35 | the permitted counter advances by one, modulo 2^64 |
| DebugIo.DebugConfig.PrintDebugStats | common/include/blustream/common/debug_config.h:37-49 | writes the statistics report when there is one and nothing otherwise |
| DebugIo.DebugConfigInstance.constructor | common/include/blustream/common/debug_config.h:12-15 | no instance exists before the first call |
| DebugIo.DebugConfigInstance.Instance | common/include/blustream/common/debug_config.h:12-15 | the first call builds the switch from the environment; every later call returns that same switch |
| DebugIo.ReplayCounts | common/include/blustream/common/debug_config.h:85-93 | from zero, each counter holds how many reported events were of its kind, modulo 2^64 |
| DebugIo.CountsPartition | common/include/blustream/common/debug_config.h:85-93 | every reported event is counted once: the two counts add up to the number of events |
| DebugIo.Report | common/include/blustream/common/debug_config.h:87-93 | a block report advances only the blocked counter and a permit report only the permitted one |

## Left out

- Threads, mutexes, condition variables and atomics: each loop is modelled as a sequence of steps, with one step per iteration. A blocking wait ends the modelled loop.
- Sockets, the HTTP library and the WebRTC library are not modelled. Their results are parameters: bytes received, send outcomes, peer connections created, and track and data-channel setup.
- SDP offers, answers and ICE candidates: the session's create_offer, create_answer, set_remote_description and add_ice_candidate and its observers, and the server's handle_offer, handle_answer and handle_ice_candidate (server/src/webrtc_server.cpp:341-373). These only forward to the WebRTC library. The signaling model checks only which body fields they require.
- Reply bodies are not modelled: the JSON the HTTP handlers send back, the server-stats handler, print_usage output, and log text beyond the line format.
- Floating-point arithmetic is not modelled:
  - the session's get_stats and update_session_stats (frame rate and clock);
  - the WebRTC server's average encoding time and frame rate;
  - adjust_encoder_quality, which only logs against float thresholds;
  - the hardware encoder's get_stats averages, minimum and maximum, and get_encoder_stats;
  - the volume's min/max value range and normalize_value;
  - the intensity curve of float_to_rgb, which is a parameter `shade`.
- The animation position is not computed. The slice position from fmod(time, duration) / duration is a parameter of GetAnimatedSliceData; its clamping is modelled.
- The volume manager does not model negative extents, int overflow in extent products, or library exceptions.
- run_encoding_test in phase4b_main.cpp is not modelled: it is a timing benchmark.
- streaming_server.h is not part of this model. The phase 4 program's initial configuration and the base of phase 4B's presets are therefore parameters.
- The base streaming server's initialize (server/src/streaming_server.cpp:78-138) is seen only through initialize_hardware: it stores the config and the frame duration before anything can fail, the duration (1000000.0 / target_fps, cast to int64) is a parameter since it is floating point, and whether the OpenGL context, network server, encoder and VDS manager come up is the parameter `baseOk`.
- The render loop's cleanup counter is a function-local static (server/src/webrtc_server.cpp:469-472) that every WebRTC server in the process shares; the model gives each server its own counter, so it does not capture two servers advancing one count.
- HardwareServer.HwServer.HardwareEncodeAndSendFrame: requires a positive keyframe interval; with an interval of 0 the modulo at server/src/streaming_server_hw.cpp:223 divides by zero, which is undefined behaviour and is not modelled.
- atoi past the range of int, where its behaviour is undefined, gives the unbounded value of the digits; stoi refuses such a number, as std::out_of_range does. atof and stof are parameters.
- WebRTCServer::load_vds (server/src/webrtc_server.cpp:228-247) calls a load_vds and a get_dimensions that VDSManager does not declare, so it is not modelled. The manager's own loading, and the streaming server's load_vds, are modelled.
- Accessors that only return a field are read as fields and have no member of their own: is_initialized, get_active_encoder_type, is_active, get_config, has_vds, get_width, get_height and get_depth.
- Logging.ConsoleLogger.Log: the timestamp is a parameter, and operator<< rendering is a string given to LogStream.Append.
- DebugIo.StatsReport: the blocked share is an exact real, not a double.
- HardwareServer.HwServer.EncoderInfo: states the text up to its floating-point performance lines, which are left out.
- TestFrames.GenerateTestFrame: sizes are natural numbers; negative sizes, for which the source's vector size is undefined, are not modelled.

## Findings

| source | as written | input that shows it | evidently intended | confidence | as-written member | corrected member |
|---|---|---|---|---|---|---|
| server/src/streaming_server.cpp:522-543 | the chroma planes get w*h/4 bytes each, rounded down, while pixel (x, y) writes chroma slot (y/2)*(w/2) + x/2 | a 1x1 render size: the buffer is 1 byte, but U goes to offset 1 and V to offset 1, past the end; 3x3 overflows the same way | each chroma plane holds one sample per 2x2 block, partial blocks included: ((w+1)/2) * ((h+1)/2) | high, not executed | ServerPictures.AsWrittenOverflowsOnOddSize | ServerPictures.ConvertRgbToYuv420 |
