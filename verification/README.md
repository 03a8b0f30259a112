# MirrorCast in Dafny

MirrorCast casts an Android screen over TCP. An encoder frames its output, a receive thread rebuilds
the messages from short reads, a queue per client drops frames to catch up, and a decoder loop feeds
the codec. The repository also carries a copy of Android's `screenrecord`. This project models those
parts and proves what they promise. Nothing was executed.

| file | models |
|---|---|
| `Bytes.dfy`, `Wrappers.dfy` | little-endian integers, an option type |
| `Protocol.dfy` | the messages of a session and their bytes |
| `MediaCodec.dfy` | the sender: framing, key-frame gates, rotations (`socket/MediaCodec.cpp`) |
| `SpsPps.dfy` | splitting a codec configuration at its second start code (`socket/MediaCodec.cpp`) |
| `ClientInfo.dfy` | the greeting and the `strsep` loop that parses it |
| `MediaServer.dfy` | short reads, the handshake and the message loop (`socket/MediaServer.cpp`) |
| `MediaData.dfy` | the frame queue and the decoder loop (`socket/MediaData.cpp`) |
| `QueueHistory.dfy` | what the dropping queue preserves over whole runs |
| `MirrorSession.dfy` | all threads as steps of one state machine, with its invariant |
| `MirrorTheorems.dfy` | what that machine delivers over every run |
| `MirrorRotations.dfy` | when rotations leave the chain of frames whole in the codec's input |
| `MirrorCareful.dfy`, `MirrorEncoder.dfy` | a rule for both ends that keeps it whole, and the encoder thread that keeps its half |
| `MirrorRuns.dfy` | runs that break the rule and the chain |
| `MirrorStart.dfy` | a decoder thread that starts after a rotation |
| `MirrorSwitch.dfy` | turning the key-frames-only switch while frames flow |
| `FontBitmap.dfy`, `TextRenderer.dfy` | text measuring, drawing and wrapping |
| `GlyphAtlas.dfy`, `ShippedFont.dfy` | the packed glyph table, and that the shipped one fits its texture |
| `List.dfy` | the intrusive circular list of `cutils/list.h`, on the heap |
| `Winscope.dfy`, `Recorder.dfy` | the recording loop and its metadata track |
| `Projection.dfy` | letterboxing |
| `Overlay.dfy` | the overlay thread protocol and the dropped-frame count |
| `FrameOutput.dfy` | RGBA to RGB in one buffer, and the packet stream |

How it is built. Code that updates state is a class or a method over arrays, and each such method is
tied to a function of its inputs or its old state; the lemmas are about those functions. For the
casting pipeline the same functions are the steps of the state machine in `MirrorSession.dfy`: the
encoders of both orientations, rotations, the key-frames-only switch, failing writes, reads of any size,
the receive thread's dispatch, puts, the surface upon which the decoder thread is created, that thread's
start, the two halves of `getData` around its wait, the decoder's turns and a disconnect, interleaved
arbitrarily. `getData` is two methods because its wait releases the mutex.

Where the code does something else than it seems meant to, the model follows the code:

- The second dropping loop of `drainFrame` removes nothing, because it stops at the leading key frame
  it counted as the first (`Client.DrainFrame`).
- A payload whose first byte is 254 or 255 is taken for a rotation. The stream reads back as meant if
  and only if there is none (`StreamRoundTrip`).
- The greeting is split at every single `@`, so a device name with an `@` inside shifts the fields and
  the receiver takes the height, the width or something else for the orientation
  (`GreetingRoundTrip` says what for every name). The two configurations then end in their own slots if
  and only if they are equal or the orientation is still taken right (`SessionSlots`).
- Rotations can feed the codec a frame without the one it depends on. In every run in which the
  key-frames-only switch is used as said below, the chain is whole at a picture if and only if it is a key
  frame, or the picture fed before it has its tag and no frame with that tag was put between the two
  (`ChainExactly`). A rule that both ends can check keeps the chain whole over every run
  (`CarefulRotations`): the receive thread acts on a rotation only while the next frame is not at risk,
  which is to be no key frame, of the new orientation, and not next to the picture fed last; an encoder
  puts out no more frames of its orientation once one of the other has been written, except from a key
  frame on; and the switch is used safely. The receive thread's half is exact: acting on a rotation and
  decoding the next frame leaves the chain whole if and only if that frame was not at risk
  (`TurningBreaksExactly`). The code does not keep it: `RotationBackBreaksChain` is a run from the start
  in which a rotation back breaks the chain. The one encoder thread keeps the other half by itself as
  long as it sees each rotation as one step (`CarefulTurns`). The code sets the playing flags before it
  closes the gate, so an output can slip through between; `StragglerBreaksChain` is a run with that order
  of messages, in which only the encoders' half is broken. With one orientation the chain never breaks
  (`Decodability`).
- The codec is configured for the orientation of the handshake, but the decoder thread takes for granted
  that the window still has it when the thread starts, which is when the surface is there. What the codec
  is fed suits its configuration if and only if it does, or nothing was fed (`DisciplinedExactly`).
  `LateStartBreaks` is a run in which a rotation is acted on first and a landscape picture is fed under
  the portrait configuration.
- Switching key-frames-only off while a gate is open lets the next output through. No frame is sent without
  its predecessor if and only if the encoder's last output was a key frame, or it has put out nothing since
  the switch was turned on (`SwitchedOffExactly`); where the switch is only ever turned off so, none is over
  the whole run (`EveryTameRunIsWhole`), and the results about chains hold. `SwitchingOffBreaks` is a run
  in which one is.
- `handleSpsPps` reads past its buffer if and only if there is a leading start code, no second one, and
  the last byte is zero; or there is no leading one and the buffer is nothing but at most three zeros
  (`ReadsBeyondExactly`).
- `breakString` finds the terminating NUL as if it were white space exactly for a lone glyph that does
  not fit (`BreakAtTerminator`), and `drawWrappedString` then steps past the end of the text. A text that
  is wider than the first line and does not end in white space makes it do so if and only if its last
  glyph is wider than an indented line (`StepsPastExactly`). What is left of a text and ends in white
  space is followed by an empty line, for which `drawWrappedString` still moves down, exactly when it does
  not fit but does without that last character, or has only one other (`BreakAtLastSpace`).
- `Overlay.h` says that states only advance and that `stop` may be called without `start`. Stopping a
  stopped overlay goes back, and a start goes on over a stop that came before it; no other step goes
  back (`BackwardsExactly`), and each of these happens (`StopGoesBack`, `StartGoesBack`, `SetUpGoesBack`).

## Model

| member | source | states |
|---|---|---|
| Bytes.Int2Bytes | app/src/main/cpp/socket/MediaCodec.cpp:87-92 | the four stores leave the little-endian bytes at the position and the rest of the buffer alone |
| Bytes.Uint8tToIntInverts | app/src/main/cpp/socket/MediaServer.cpp:126-133 | the receiver's length equals the sender's, for every signed 32-bit value |
| Bytes.ValueOfLittleEndian | app/src/main/cpp/screenrecord/screenrecord.cpp:363-369 | the written bytes are the value, negative ones modulo the width, for every width |
| Bytes.LittleEndianTruncates | app/src/main/cpp/screenrecord/FrameOutput.cpp:157-166 | beyond the width only whole multiples of it are lost |
| Bytes.LittleEndianOfValue | app/src/main/cpp/screenrecord/screenrecord.cpp:363-369 | every byte string is the encoding of its value |
| MediaCodec.GateOpensOnKey | app/src/main/cpp/socket/MediaCodec.cpp:351-388 | exactly when a frame is sent, a gate opens and recording ends: through a closed gate only a key frame passes, and it opens that orientation's gate only; nothing passes after recording ended |
| MediaCodec.RotateClosesOne | app/src/main/cpp/socket/MediaCodec.cpp:934-950 | a rotation closes the new orientation's gate and no other, and a failed write ends the recording |
| MediaCodec.Encoder.SendData | app/src/main/cpp/socket/MediaCodec.cpp:325-339 | bytes are written only while recording; a failed write ends recording and playing |
| MediaCodec.Encoder.FrameBytes | app/src/main/cpp/socket/MediaCodec.cpp:341-349 | the buffer is the length, the payload, the tag, then the flags byte |
| MediaCodec.Encoder.HandleOutputBufferImpl | app/src/main/cpp/socket/MediaCodec.cpp:341-389 | gates, recording and stream after one output buffer, for each gate and orientation; the playing flags change only with a failed write, which clears both |
| MediaCodec.Encoder.HandleOutputBuffer | app/src/main/cpp/socket/MediaCodec.cpp:391-411 | the same with the missing buffer, which changes nothing, and the key-frames-only switch |
| MediaCodec.Encoder.FromPortraitToLandscape | app/src/main/cpp/socket/MediaCodec.cpp:934-941 | closes the landscape gate, switches the encoders and writes the one-byte message 254 |
| MediaCodec.Encoder.FromLandscapeToPortrait | app/src/main/cpp/socket/MediaCodec.cpp:943-950 | the mirror image, with 255 |
| MediaCodec.Encoder.StartRecordScreen | app/src/main/cpp/socket/MediaCodec.cpp:970-1001 | the configuration of the current orientation is written before the other one, each write may fail, and after a failure recording and playing are off and nothing more is written; nothing while already recording |
| SpsPps.HandleSpsPps | app/src/main/cpp/socket/MediaCodec.cpp:195-243 | the scan with its short-circuit reads gives the first start code after the leading one, or says that it read too far |
| SpsPps.CodesOfJoin | app/src/main/cpp/socket/MediaCodec.cpp:206-230 | in two joined units no start code straddles a boundary and no comparison leaves the buffer |
| SpsPps.SplitUndoesJoin | app/src/main/cpp/socket/MediaCodec.cpp:233-243 | splitting recovers the two joined units if and only if the first body holds no start code of that length |
| SpsPps.ReadsBeyondExactly | app/src/main/cpp/socket/MediaCodec.cpp:206-230 | for every buffer, exactly when the scan reads past its end |
| SpsPps.HandledExactly | app/src/main/cpp/socket/MediaCodec.cpp:195-243 | for every buffer which outcome it has, and that it is cut at the first start code behind the leading one |
| ClientInfo.ParseClientInfo | app/src/main/cpp/socket/MediaServer.cpp:480-543 | the loop stores the second to fifth non-empty piece, and keeps the default of each that is missing |
| ClientInfo.GreetingTokens | app/src/main/java/com/weidi/mirrorcast/MediaClientService.java:1038-1053 | the pieces of a greeting are those of the device name, then the four other fields |
| ClientInfo.AtoiDecimal | app/src/main/cpp/socket/MediaServer.cpp:516-540 | a number written in decimal is read back |
| ClientInfo.AtoiReads | app/src/main/cpp/socket/MediaServer.cpp:516-540 | white space in front and other characters behind a number are ignored, and a sign counts |
| ClientInfo.AtoiOfText | app/src/main/cpp/socket/MediaServer.cpp:516-540 | a field without a number is zero |
| ClientInfo.GreetingRoundTrip | app/src/main/cpp/socket/MediaServer.cpp:480-543 | all fields are read back for a one-piece name; for every other name, what is taken for the orientation |
| MediaServer.Socket.Read | app/src/main/cpp/socket/MediaServer.cpp:157-158 | a read returns some non-empty prefix of what is left, or 0 at the end |
| MediaServer.ReadData | app/src/main/cpp/socket/MediaServer.cpp:152-167 | however the reads split, exactly the wanted bytes arrive in order, or the stream was too short |
| MediaServer.ReadConfig | app/src/main/cpp/socket/MediaServer.cpp:553-573 | one length-prefixed configuration, or none when the stream ends |
| MediaServer.ReadGreeting | app/src/main/cpp/socket/MediaServer.cpp:443-547 | the greeting and the orientation it gives, or none and portrait |
| MediaServer.ReceiveMessages | app/src/main/cpp/socket/MediaServer.cpp:587-633 | the events are a function of the bytes alone, for every stream and every split |
| MediaServer.ReceiveData | app/src/main/cpp/socket/MediaServer.cpp:443-633 | greeting, configurations and events are a function of the bytes alone |
| MediaServer.ParseMonotone | app/src/main/cpp/socket/MediaServer.cpp:587-633 | bytes that arrive later never change events already seen |
| MediaServer.ParseWireAll | app/src/main/cpp/socket/MediaServer.cpp:587-633 | one event per message, in order, whatever the payloads |
| MediaServer.DispatchBody | app/src/main/cpp/socket/MediaServer.cpp:601-619 | a body is dispatched as meant if and only if it does not start with 254 or 255 |
| MediaServer.DispatchOfFrame | app/src/main/cpp/socket/MediaServer.cpp:601-619 | which rotation a frame is taken for, and that every other frame is queued unchanged |
| MediaServer.SkipsEmptyLength | app/src/main/cpp/socket/MediaServer.cpp:591-596 | a length that is not positive is skipped and the messages behind it are seen |
| MediaServer.StreamRoundTrip | app/src/main/cpp/socket/MediaServer.cpp:587-633 | the stream reads back as meant if and only if no payload starts with 254 or 255 |
| MediaServer.TruncatedStream | app/src/main/cpp/socket/MediaServer.cpp:625-632 | a connection lost after any byte yields a prefix of what was meant |
| MediaServer.LostInsideMessage | app/src/main/cpp/socket/MediaServer.cpp:587-633 | a connection lost inside a message yields exactly the messages before it |
| MediaServer.LostInHandshake | app/src/main/cpp/socket/MediaServer.cpp:443-583 | what is kept of a handshake that breaks off inside the greeting, the first or the second configuration |
| MediaServer.SessionSlots | app/src/main/cpp/socket/MediaServer.cpp:443-633 | for every greeting: frames and rotations come out as sent, and exactly when each configuration ends in its own slot |
| MediaServer.SessionRoundTrip | app/src/main/cpp/socket/MediaServer.cpp:443-633 | for every initial orientation each configuration ends in its own slot, and frames and rotations come out as sent |
| MediaData.DrainedIsIdempotent | app/src/main/cpp/socket/MediaData.cpp:45-117 | draining starts at the first key frame if there is one, else changes nothing; draining again is no change |
| MediaData.Client.DrainFrame | app/src/main/cpp/socket/MediaData.cpp:45-117 | three scans and two loops leave the suffix from the first key frame, terminate and never take from an empty list |
| MediaData.Client.PutData | app/src/main/cpp/socket/MediaData.cpp:143-179 | a copy of the first `size` bytes is appended |
| MediaData.Client.GetData | app/src/main/cpp/socket/MediaData.cpp:186-199 | up to the wait: the first frame of the drained queue, or none |
| MediaData.Client.GetDataWoken | app/src/main/cpp/socket/MediaData.cpp:190-199 | after the wait: the front without draining, or nothing after a stop |
| MediaData.Client.SetOrientation | app/src/main/cpp/socket/MediaData.cpp:119-141 | portrait exactly for 1 |
| MediaData.Client.SetSpsPps | app/src/main/cpp/socket/MediaCodec.cpp:423-452 | the slot of that orientation, the other one unchanged |
| MediaData.Client.StartDecoder | app/src/main/cpp/socket/MediaData.cpp:223-339 | what is fed over a run, with the orientation flag changing between turns: exactly the frames that suit the window up to the first refused or missing one, with the stored configuration of the orientation where it changes, and in the discipline below |
| MediaData.FeedsKeepDiscipline | app/src/main/cpp/socket/MediaData.cpp:273-327 | one turn keeps it: pictures suit the configuration in force, configurations only change it and precede a picture |
| MediaData.DecodedIsDisciplined | app/src/main/cpp/socket/MediaData.cpp:260-339 | so does every run, for every sequence of flag values |
| MediaData.DecodedExactly | app/src/main/cpp/socket/MediaData.cpp:260-339 | exactly which frames are fed, and that nothing is after a turn without a frame or one that the codec refuses |
| MediaData.DisciplinedFromTwo | app/src/main/cpp/socket/MediaData.cpp:236-247 | kept from one orientation on, the discipline is kept from another only while nothing was fed |
| MediaData.FedWithoutGaps | app/src/main/cpp/socket/MediaData.cpp:273-279 | every frame handed out is fed if and only if the flag suits each tag when it is read, and otherwise fewer are |
| QueueHistory.QueueSafety | app/src/main/cpp/socket/MediaData.cpp:143-221 | put equals handed out plus dropped plus queued; in order; no key frame dropped; each hand-out is a key frame or the next frame put |
| QueueHistory.RunIsSafe | app/src/main/cpp/socket/MediaData.cpp:143-221 | every put and get keeps that, from any state in which it holds |
| MirrorSession.StepKeepsInv | app/src/main/cpp/socket/MediaCodec.cpp:325-389 | every step of every thread keeps the invariant of the whole pipeline |
| MirrorSession.EncodeKeepsSource | app/src/main/cpp/socket/MediaCodec.cpp:341-411 | every frame sent is a key frame or follows one of its encoder, whose previous output it was if the switch was used safely, with gates and rotations |
| MirrorSession.ParsedIsMeant | app/src/main/cpp/socket/MediaServer.cpp:587-633 | whatever has been read so far parses to a prefix of what was written |
| MirrorTheorems.EveryRunDelivers | app/src/main/cpp/socket/MediaData.cpp:181-221 | over every run with any rotations: byte-exact delivery in the order written, starting with a key frame, each other frame a key frame or right after the frame written just before it, and after its encoder's previous output if the switch was used safely |
| MirrorTheorems.EveryRunIsDisciplined | app/src/main/cpp/socket/MediaData.cpp:260-339 | over every run of the whole pipeline the codec's input keeps the decoder discipline, counted from the orientation at the decoder thread's start |
| MirrorStart.DisciplinedExactly | app/src/main/cpp/socket/MediaCodec.cpp:567-619 | over every run, the codec's input suits what the codec was configured for if and only if the window had that orientation when the thread started, or nothing was fed |
| MirrorStart.LateStartBreaks | app/src/main/cpp/socket/MediaData.cpp:236-247 | a run in which the thread starts after a rotation and a landscape picture is fed under the portrait configuration |
| MirrorTheorems.Decodability | app/src/main/cpp/socket/MediaCodec.cpp:341-389 | with one orientation and the switch used safely the frames handed out carry encoder outputs in the order they were put out, each a key frame or the output right after the one handed out before it, and exactly those frames are fed |
| MirrorTheorems.ChainsToKey | app/src/main/cpp/socket/MediaData.cpp:181-221 | so every frame handed out chains back to a key frame handed out |
| MirrorTheorems.KeyFrameArrives | app/src/main/cpp/socket/MediaData.cpp:143-327 | for every key frame there is a run in which it is sent, read, queued, handed out and fed unchanged |
| MirrorTheorems.DecodeEnds | app/src/main/cpp/socket/MediaData.cpp:273-335 | the decoder thread ends exactly when a frame that suits the window is refused |
| MirrorTheorems.FinishedIsFinal | app/src/main/cpp/socket/MediaData.cpp:333-345 | over every run, nothing is fed or taken once it has ended |
| MirrorTheorems.DisconnectEnds | app/src/main/cpp/socket/MediaServer.cpp:637-648 | over every run, once the connection is lost nothing is acted on and no frame is taken |
| MirrorTheorems.RecordingIsOver | app/src/main/cpp/socket/MediaCodec.cpp:325-339 | over every run, nothing is written once recording has ended |
| MirrorRotations.UnbrokenExactly | app/src/main/cpp/socket/MediaCodec.cpp:341-389 | a fed frame's predecessor by its encoder is the picture fed before it exactly if the tags of the frames put show no gap |
| MirrorRotations.ChainExactly | app/src/main/cpp/socket/MediaData.cpp:260-327 | over every run with any rotations: the pictures fed are frames written, in order; and, if the switch was used safely, exactly when the chain is whole at each |
| MirrorCareful.StepKeepsCareful | app/src/main/cpp/socket/MediaData.cpp:119-141 | every step that keeps the rule for rotations keeps the frame next up safe to feed |
| MirrorCareful.CarefulRotations | app/src/main/cpp/socket/MediaData.cpp:260-327 | over every run that keeps the rule, every picture fed is a key frame or its encoder's previous output was fed just before it |
| MirrorCareful.TurningBreaksExactly | app/src/main/cpp/socket/MediaServer.cpp:601-619 | acting on a rotation and decoding the next frame leaves the chain whole if and only if that frame was not at risk |
| MirrorCareful.NoneWaitingIsSafe | app/src/main/cpp/socket/MediaServer.cpp:601-619 | nothing is at risk while no frame of the new orientation is queued or in hand |
| MirrorEncoder.StepKeepsThread | app/src/main/cpp/socket/MediaCodec.cpp:952-960 | every step keeps: an orientation that may put out now has its gate closed or wrote the last frame |
| MirrorEncoder.CarefulTurns | app/src/main/cpp/socket/MediaCodec.cpp:696-737 | over every run with one encoder thread, care in the receive thread alone keeps the chain whole |
| MirrorRuns.RotationBackBreaksChain | app/src/main/cpp/socket/MediaData.cpp:273-279 | a run of one encoder thread that keeps the rule up to a rotation back, which then feeds a frame although the one it depends on was skipped |
| MirrorRuns.StragglerBreaksChain | app/src/main/cpp/socket/MediaCodec.cpp:934-950 | a run in which no rotation finds a frame at risk and every frame is fed, but a late frame of the old orientation follows one of the new |
| MirrorSession.SwitchKeepsSource | app/src/main/cpp/socket/MyJni.cpp:596-597 | turning the switch either way keeps: behind an open gate the last frame sent is the last output, or with the switch on exactly if that is a key frame or older than the switch |
| MirrorSwitch.EveryTameRunIsWhole | app/src/main/cpp/socket/MediaCodec.cpp:391-411 | over every run in which the switch is turned off only where that is safe, no frame is sent without its predecessor |
| MirrorSwitch.SwitchedOffExactly | app/src/main/cpp/socket/MyJni.cpp:596-597 | turned off behind an open gate, the next output follows its predecessor if and only if the encoder's last output was a key frame or none came since the switch was turned on |
| MirrorSwitch.SwitchingOffBreaks | app/src/main/cpp/socket/MediaCodec.cpp:391-411 | a run in which turning the switch off sends a frame whose predecessor was dropped |
| TextRenderer.GlyphIndex | app/src/main/cpp/screenrecord/TextRenderer.cpp:160-167 | printable characters have their own glyph, all others that of '?' |
| TextRenderer.WidthMonotone | app/src/main/cpp/screenrecord/TextRenderer.cpp:169-179 | a longer prefix is strictly wider, for every font whose glyphs are at least six wide |
| TextRenderer.Renderer.ComputeScaledStringWidth | app/src/main/cpp/screenrecord/TextRenderer.cpp:169-179 | the accumulated width of the first `len` characters |
| TextRenderer.Renderer.SetProportionalScale | app/src/main/cpp/screenrecord/TextRenderer.cpp:139-147 | that many lines exactly fill the longer axis |
| TextRenderer.Renderer.BreakString | app/src/main/cpp/screenrecord/TextRenderer.cpp:318-360 | no break exactly if the text fits; else the last space at or before the longest prefix that fits, or that prefix |
| TextRenderer.BreakIsUnique | app/src/main/cpp/screenrecord/TextRenderer.cpp:333-356 | that describes one position only |
| TextRenderer.BreakIsGreedy | app/src/main/cpp/screenrecord/TextRenderer.cpp:333-356 | a later space would not have fitted |
| TextRenderer.BreakAtTerminator | app/src/main/cpp/screenrecord/TextRenderer.cpp:343-356 | the break is at the end of the text exactly for a lone glyph |
| TextRenderer.BreakAtLastSpace | app/src/main/cpp/screenrecord/TextRenderer.cpp:306-309 | exactly when a break leaves an empty last line |
| TextRenderer.StepsPastExactly | app/src/main/cpp/screenrecord/TextRenderer.cpp:289-310 | for a text that needs breaking and does not end in white space, the cursor steps past the end if and only if the last glyph does not fit an indented line |
| TextRenderer.LastGlyphFits | app/src/main/cpp/screenrecord/TextRenderer.cpp:289-310 | a last glyph that fits an indented line keeps the cursor inside, whatever else the text holds |
| TextRenderer.Renderer.NextPiece | app/src/main/cpp/screenrecord/TextRenderer.cpp:289-310 | one turn: the line, the white space skipped, and progress, or a step past the end |
| TextRenderer.Renderer.WrapLines | app/src/main/cpp/screenrecord/TextRenderer.cpp:286-312 | the loop terminates with every line broken off where it had to be, or stops past the end |
| TextRenderer.Renderer.DrawWrappedString | app/src/main/cpp/screenrecord/TextRenderer.cpp:253-316 | for every text: the first line starts at the given position moved inside the border of 10, later ones 30 scaled units to the right and each 34 scaled units below the one before; lines and skipped white space give back the text; a line is broken only if the rest does not fit; each fits its room or is a single glyph, and none reaches into the border where every glyph fits; exactly when the cursor steps past the end; and the position returned is the top plus one glyph height times the number of lines |
| TextRenderer.PlacedBelow | app/src/main/cpp/screenrecord/TextRenderer.cpp:286-313 | so line k is k glyph heights below the first |
| TextRenderer.Renderer.DrawString | app/src/main/cpp/screenrecord/TextRenderer.cpp:181-251 | each glyph starts where the text before it ends and reaches over the padding and outline of the next; the pen ends at the start plus the string width |
| GlyphAtlas.InitXOffset | app/src/main/cpp/screenrecord/TextRenderer.cpp:45-60 | the table holds the packed offsets modulo 2^16 for all tables |
| GlyphAtlas.BoxesApart | app/src/main/cpp/screenrecord/TextRenderer.cpp:45-60 | glyph boxes are pairwise disjoint and a pixel apart, for every font with contiguous rows that fit |
| ShippedFont.ShippedAtlas | app/src/main/cpp/screenrecord/FontBitmap.h:6544-6571 | with the shipped tables every glyph box lies inside the 256 by 204 texture and no two touch |
| GlyphAtlas.PowersExactly | app/src/main/cpp/screenrecord/TextRenderer.cpp:62-65 | the test accepts exactly zero and the 32 powers of two |
| GlyphAtlas.LeastPowerOfTwo | app/src/main/cpp/screenrecord/TextRenderer.cpp:67-78 | the least power of two not below a value from 1 to 2^31, the value itself exactly if it is one |
| List.ListInit | app/src/main/cpp/screenrecord/cutils/list.h:52-56 | a ring of the head alone |
| List.ListAddTail | app/src/main/cpp/screenrecord/cutils/list.h:58-64 | the ring with the item at the end |
| List.ListAddHead | app/src/main/cpp/screenrecord/cutils/list.h:66-72 | the ring with the item right after the head |
| List.ListRemove | app/src/main/cpp/screenrecord/cutils/list.h:74-78 | the ring without the item, whose own links stay |
| List.Neighbours | app/src/main/cpp/screenrecord/cutils/list.h:26-30 | next and prev undo each other at every node |
| List.ListForEach | app/src/main/cpp/screenrecord/cutils/list.h:41-42 | the items in order |
| List.ListForEachReverse | app/src/main/cpp/screenrecord/cutils/list.h:44-45 | the items from the last to the first |
| List.ListForEachSafe | app/src/main/cpp/screenrecord/cutils/list.h:47-50 | every item once, in order, while any of them are removed, and the ring of those kept |
| List.ApplyAll | app/src/main/cpp/screenrecord/cutils/list.h:58-78 | after any legal sequence of add-head, add-tail and remove, the ring that the same operations on a sequence give |
| Winscope.WriteValueLE | app/src/main/cpp/screenrecord/screenrecord.cpp:363-369 | the bytes of the value, lowest first, for every width |
| Winscope.WinscopeMetadata | app/src/main/cpp/screenrecord/screenrecord.cpp:383-399 | magic string, count and stamps fill the buffer exactly |
| Winscope.MetadataRoundTrip | app/src/main/cpp/screenrecord/screenrecord.cpp:371-399 | a reader gets back the number of stamps and each plus the clock offset |
| Recorder.RunEncoder | app/src/main/cpp/screenrecord/screenrecord.cpp:418-618 | samples, releases, exit and metadata as a function of the encoder's answers; it succeeds if and only if the buffers can be had, every turn acted on is harmless and the metadata is taken; exactly when there is metadata |
| Recorder.NextContributes | app/src/main/cpp/screenrecord/screenrecord.cpp:463-592 | an event without error adds its sample, its release, its time stamp and its projection, sets its tracks, and nothing else |
| Recorder.NormalRun | app/src/main/cpp/screenrecord/screenrecord.cpp:441-601 | on a normal exit the samples are exactly the non-empty, non-configuration buffers in order (without a container the raw bytes of all buffers), each buffer is released once, the tracks are those of the last format change, a projection is set for each change of orientation, nothing after the end of the stream counts |
| Recorder.ExitExactly | app/src/main/cpp/screenrecord/screenrecord.cpp:441-601 | over every run: normal if and only if every turn acted on is harmless, else the error of the first that is not |
| Recorder.TimeoutsAreSkipped | app/src/main/cpp/screenrecord/screenrecord.cpp:555-557 | a time-out of the encoder changes nothing |
| Recorder.RecordingEnds | app/src/main/cpp/screenrecord/screenrecord.cpp:610-616 | whether there is metadata to write, by the encoder's answers alone |
| Recorder.AtMostOneUnreleased | app/src/main/cpp/screenrecord/screenrecord.cpp:523-548 | however a run ends, at most the buffer that could not be recorded stays unreleased |
| Recorder.Mp4Recording | app/src/main/cpp/screenrecord/screenrecord.cpp:610-616 | the metadata of a recording reads back as the time stamps of its samples plus the offset |
| Projection.FitSize | app/src/main/cpp/screenrecord/screenrecord.cpp:306-314 | one axis is filled, the other has the exact size rounded down, and both fit |
| Projection.SetDisplayProjection | app/src/main/cpp/screenrecord/screenrecord.cpp:272-318 | the rectangle lies inside the video, centred to within a pixel, with or without rotation |
| Overlay.NobodyIsForgotten | app/src/main/cpp/screenrecord/Overlay.cpp:70-131 | no wake-up is lost, over every interleaving and any stops |
| Overlay.StatesAdvance | app/src/main/cpp/screenrecord/Overlay.h:111-113 | with one stop after a successful start the state only advances, start succeeds only in RUNNING, frames are processed only between setup and release |
| Overlay.BackwardsExactly | app/src/main/cpp/screenrecord/Overlay.cpp:91-97 | exactly which steps move the state backwards without that restriction |
| Overlay.StopGoesBack | app/src/main/cpp/screenrecord/Overlay.cpp:91-116 | a reachable state in which a stop goes back, after a start that failed |
| Overlay.StartGoesBack | app/src/main/cpp/screenrecord/Overlay.cpp:70-97 | a reachable state in which a start goes back, after a stop |
| Overlay.SetUpGoesBack | app/src/main/cpp/screenrecord/Overlay.cpp:70-116 | a reachable state in which the thread's setup goes back, after a stop that came while start was waiting |
| Overlay.DroppedFramesConserved | app/src/main/cpp/screenrecord/Overlay.cpp:206-209 | dropped plus processed is last minus first plus one |
| Overlay.WakeProcesses | app/src/main/cpp/screenrecord/Overlay.cpp:116-131 | from every reachable state, a wake-up processes the pending frame if there is one, running or stopping, and then waits on or has ended |
| Overlay.PendingStays | app/src/main/cpp/screenrecord/Overlay.cpp:280-285 | a callback leaves a frame pending and the thread signalled, and only a wake-up takes it |
| Overlay.FramesProcessedExactly | app/src/main/cpp/screenrecord/Overlay.cpp:116-131 | over every run, the frames processed are those of the wake-ups with a callback since the one before |
| Overlay.StartReports | app/src/main/cpp/screenrecord/Overlay.cpp:76-88 | start returns what the thread's setup answered, or the initial error if a stop let it return first |
| Overlay.Overlay.Start | app/src/main/cpp/screenrecord/Overlay.cpp:70-78 | INIT, nothing else |
| Overlay.Overlay.StartResumed | app/src/main/cpp/screenrecord/Overlay.cpp:76-88 | done once the state has left INIT, with the thread's result |
| Overlay.Overlay.Stop | app/src/main/cpp/screenrecord/Overlay.cpp:91-97 | STOPPING whatever the state was |
| Overlay.Overlay.ThreadLoopBegins | app/src/main/cpp/screenrecord/Overlay.cpp:99-116 | RUNNING after setup, STOPPED and released when it fails |
| Overlay.Overlay.ThreadLoopResumes | app/src/main/cpp/screenrecord/Overlay.cpp:116-131 | a pending frame is processed first; out of RUNNING it releases and stops |
| Overlay.Overlay.ProcessFrame | app/src/main/cpp/screenrecord/Overlay.cpp:198-209 | the gap since the last frame is counted |
| Overlay.Overlay.OnFrameAvailable | app/src/main/cpp/screenrecord/Overlay.cpp:280-285 | the frame is pending |
| FrameOutput.ReduceRgbaToRgb | app/src/main/cpp/screenrecord/FrameOutput.cpp:193-206 | in place, the three colour bytes of every pixel, and the rest of the buffer unchanged |
| FrameOutput.RgbAt | app/src/main/cpp/screenrecord/FrameOutput.cpp:193-206 | byte c of pixel k comes from position 4k + c |
| FrameOutput.CopyFrame | app/src/main/cpp/screenrecord/FrameOutput.cpp:147-176 | the packet of the squeezed pixels, or the pixels alone; the five header fields are the length behind the first, the width, the height, three times the width and the RGB format, modulo 2^32 |
| FrameOutput.PacketsRoundTrip | app/src/main/cpp/screenrecord/FrameOutput.cpp:157-176 | any sequence of packets parses back into exactly the frames, by a reader that refuses any other stride or format |
| FrameOutput.PacketHasHeader | app/src/main/cpp/screenrecord/FrameOutput.cpp:157-166 | the value of each of the five header fields, for every frame |

## Left out

- JNI, EGL and GL, the codecs, the muxer, sockets and files: what they answer is a parameter or a trace. `write` sends everything or fails. `MEDIA_CODEC_GO_JNI` is true, as it is set.
- The UDP path: its call is commented out.
- `server_accept` and the replacement of clients: they depend on sleeps. The two client slots are alike, so one is modelled.
- Heap ownership, leaks, and the clearing of the queue in `free1` and `free2`: frames are values.
- Liveness and spurious wake-ups of `getData`: a wake-up follows a put or a stop. The overlay's waits do allow spurious ones.
- Torn rotations: each rotation is one step, and a decoder turn reads the orientation flag once. A frame of the old orientation after the message is included, and the encoders may put out in any order except where `CarefulTurns` says otherwise.
- `feedInputBuffer` drops a frame without an error when the codec has no free input buffer; the theorems end at the call.
- The search for a lone 103 and 104, or 39 and 40, when a configuration has no second start code.
- The Java side of the handshake except the greeting's format, and the decoder name lookup. The greeting is bytes; its length field is taken to be its byte length.
- The texture coordinates of `drawString` and the pixels of the texture: its rectangles on the screen are modelled.
- Float rounding: scales, widths and aspects are exact reals. 32-bit overflow of sizes in `setDisplayProjection` and `copyFrame` is not modelled.
- SessionRoundTrip: the device name must be one non-empty piece without `@` inside, lengths fit the buffers, and payloads do not start with 254 or 255; `GreetingRoundTrip`, `SessionSlots` and `StreamRoundTrip` say what happens otherwise.
- ReceiveData: lengths beyond the receive buffers are excluded, because the code does not check them.
- DrawWrappedString: what the code does once the cursor is past the end is not modelled; the method stops there. A left edge beyond the right border counts as no room, where the code converts a negative float.
- Decodability: requires one orientation and a switch used safely; `ChainExactly`, `CarefulRotations` and `TurningBreaksExactly` say what holds with rotations.
- BoxesApart: requires rows that fit a 16-bit offset, which is what the running offset holds.
- DroppedFramesConserved: frame numbers start at 1 and the counter does not wrap.
- AtoiDecimal: does not model the 32-bit limit of `atoi`.
