# sricd: a verified model

sricd drives a shared serial bus. This project models its byte-stuffed, CRC-protected framing, the resumable
receiver, the stop-and-wait transmitter with retransmission and cancellation, the enumeration of the bus, the
registry of who wants which notifications, and the queues and sockets through which applications use it. The other
ends are modelled too: the bus emulator `ostric` (token ring, devices, gateway) and the client library `libsric`
(flag cache, device list, polling), so that several results are about the closed system.

Code that changes things step by step is a class or a method here: `Escape`, `Receiver.SerialReceiver`,
`OutputQueue.TxQueue`, `Transmitter.SerialTransmitter`, `EnumMachine.Enumerator`, `BusEmulator.Emulator`,
`Clients.Client`, `Daemon.DeviceTable`, `Libsric.Context`, and `Sricd.Sricd`, which puts the daemon's parts together and
carries its history along. Each method is proved equal to a step function on values; the theorems about whole runs are
about those functions.

## What is proved

* **Receiving.** The two-buffer receiver delivers what a one-byte-at-a-time reference decoder delivers, however the
  stream is cut into reads (`Reception.Refinement`). Reading `rxbuf[0]` while nothing is buffered is harmless, by an
  invariant of the receive loop. The receiver is *not* independent of the cutting for every stream: it is exactly for
  those in which no framing byte can be swallowed as the second half of an escape, and for each other stream a way of
  cutting it is given (`RxLimits.FaithfulIffClean`). An escape between two frames is such a case
  (`RxLimits.EscapeAfterFrame`). No stream without a framing byte right after 0x7D is affected.
* **Round trip.** Any list of encoded frames, in any chunks, comes out as exactly those frames, which read, field by
  field, as the messages sent, in order, and leaves both buffers empty (`EndToEnd.RoundTrip`,
  `Receiver.SerialReceiver.ReceiveEncoded`), also after line noise (`EndToEnd.Resynchronises`). What leaves by the port
  over any run of the transmitter, partial writes and retransmissions included, is such a list, and then the part of a
  frame half written, exactly if no ack comes in while a frame is half written (`TxOutput.StreamIff`).
* **CRC.** The generated table computes the bit-at-a-time CRC. A frame is accepted exactly when the register ends in
  0xB001. Bursts of up to 16 bits and odd numbers of bit errors outside the length byte are always rejected.
* **Sending.** After any run of writes of any size, timeouts, acks, pushes, cancellations and client deaths the timer
  and the write watch are as they must be; every pushed frame is in exactly one place; frames first reach the wire in
  push order; a cancelled frame is written at most once more; responses go only to connected clients, exactly as long
  as acks come in order: none while an untagged frame is half written, and none that ends enumeration while a frame of
  it is queued. Both can go wrong (`ClientSafety.EarlyAckHasNoClient`, `StartUp.EarlyEndReached`); the second never
  does on the modelled bus (`EnumOutcome.NothingLeftWhenDone`).
* **Enumeration.** On a bus that answers, enumeration of n devices is complete after 4n + 7 requests, if and only if
  n is at most 125. On a bus that loses, repeats and delays frames, no address is ever held twice, the gateway claims
  the token only once every device has released it, nothing of enumeration is left to send when it ends, and an
  address is registered with its holder's class exactly if its answer was heard while classes were being fetched
  (or its table entry happened to be that class already). An application then sees exactly the addresses given out
  whose class is not 0xFF. From power-on the frames queued carry exactly what the state reached prescribes, with these
  contents and in this order (`EnumOnWire.CommandsInOrder`), and what the bus answers is handed to the enumeration code
  as it was meant (`BusFrames.RoundIsHandled`), so that the results about the bus are about the daemon's frames.
* **Notifications.** The target lists are a map. The per-client bit mask agrees with it for an address if and only if
  the address owns its bit. A note goes exactly once to each client that asked for it; the daemon's lists are, at
  every moment, the registry after all that its clients asked for, so this is what its callback for a note does
  (`Sricd.Sricd.Call`). libsric's cache agrees with the daemon if and only if the client wants nothing of a device that
  does not exist.
* **Applications.** A frame that libsric is asked to send reaches the bus with that address and payload; a device's
  answer, or its note, reaches the caller of the poll with its sender, number and payload (`Application`).
* **Delivery.** Responses, notes and the answers to all other commands share one socket. Each libsric call reads
  exactly its own answer, and what polls return is what the bus had, in order, if and only if no response or note
  comes in after a poll for such expired and before the application polls for such again with a timeout other than 0.
  Otherwise a frame is sent that no call waits for, and whichever call reads next takes it for its answer. A response
  can only come in so late if the application transmits in between, and if it does, the bus can always bring one
  (`LateResponses.ResponseCanBeLateIff`): an application that does not transmit after a poll for responses expired and
  before it waits again has only late notes to fear (`LateResponses.CarefulIsSafe`).

## Where code and documentation disagree

The model follows the code.

* `libsric/sric.h` promises `SRIC_ERROR_NOSUCHADDRESS` for a device that does not exist; `send_command` reports
  `SRIC_ERROR_BADPAYLOAD` (`libsric/sric.c:128`), and a second identical `sric_note_set_flags` reports success.
* `libsric/sric.h` documents note number -1 for frames that are no notes; the daemon sends 0 (`sricd/sric-if.c:301`).
* `handle_note_flags` answers BADREQUEST to a short read of the flags but goes on and answers again
  (`sricd/ipc.c:286-288`).
* The comment on the byte order in `handle_tx` asks whether it is big endian; it is little endian, on both sides.
* `unescape_frame` knows only two of the three escape sequences that `escape_frame` writes
  (`sricd/escape.c:91-102`): it inverts it exactly on data without 0x8E.

## Model

| member | source | states |
|---|---|---|
| Crc16.ShiftOut | sricd/crc16/crc16-build.c:15-21 | The inner loop runs the register eight bit steps from any start value |
| Crc16.BuildTable | sricd/crc16/crc16-build.c:13-23 | The generator's loops produce the table of eight-step register values |
| Crc16.TableStep | sricd/crc16/crc16-build.c:30 | One table look-up moves the register exactly as eight bit steps over the byte do |
| Crc16.TableCrc | sricd/crc16/crc16-build.c:25-33 | The emitted loop over the buffer returns the bit-at-a-time CRC of its first `length` bytes |
| Crc16.StepsLinear | sricd/crc16/crc16-build.c:15-21 | Register steps are linear over exclusive or |
| Crc16.StepsKernel | sricd/crc16/crc16-build.c:15-21 | Only zero is stepped to zero |
| Crc16.StepsInjective | sricd/crc16/crc16-build.c:15-21 | Register steps lose nothing: different values stay different |
| Crc16.CheckValue | sricd/crc16/crc16-build.c:13-33 | The sum of the ASCII digits 1 to 9 is 0xB4C8, that of nothing 0: polynomial, register and complement are these |
| CrcDetection.ResidueMarksValid | sricd/sric-if.c:335-340 | Running the register over message and received CRC, low byte first, ends in 0xB001 exactly when the CRC matches |
| CrcDetection.AcceptsByResidue | sricd/sric-if.c:326-340 | For a whole frame the receiver's test is that residue test on its bit stream |
| CrcDetection.BitRegisterLinear | sricd/crc16/crc16-build.c:15-21 | The register over two bit streams differs by the register over their difference |
| CrcDetection.BurstRejected | sricd/sric-if.c:335-340 | Corruption of a valid frame of any length within at most 16 consecutive bits, length byte unchanged, is rejected |
| CrcDetection.StepKeepsParity | sricd/crc16/crc16-build.c:15-21 | A register step keeps the parity of the register |
| CrcDetection.ValidFrameIsEven | sricd/sric-if.c:335-340 | Every valid frame, CRC included, has an even number of one bits |
| CrcDetection.OddErrorsRejected | sricd/sric-if.c:335-340 | Any odd number of bit errors outside the length byte is rejected, at every frame length |
| Escape.EscapedHasNoFraming | sricd/escape.c:12-39 | Stuffed data contains no framing byte |
| Escape.EscapedSize | sricd/escape.c:12-39 | Stuffing at most doubles the data |
| Escape.UnescapeInverts | sricd/escape.c:41-75 | Unescaping recovers stuffed data that fits and then goes on with whatever follows |
| Escape.FrameUnescapeInverts | sricd/escape.c:77-111 | The whole-frame variant recovers stuffed data exactly if it has no 0x8E, and fails otherwise |
| Escape.EmitEscaped | sricd/escape.c:6-33 | One iteration: room check, then the one or two bytes for an input byte, no other byte touched |
| Escape.EscapeLoop | sricd/escape.c:19-36 | The loop succeeds exactly if the stuffed length is strictly below the limit, and has then written it |
| Escape.EscapeFrame | sricd/escape.c:12-39 | In place: if the stuffed length is strictly below `maxlength`, the stuffed data and its length as an int16_t; otherwise -1 and the input restored |
| Escape.Unescape | sricd/escape.c:41-75 | The resumable loop computes the specified output and number of source bytes used |
| Escape.UnescapeFrame | sricd/escape.c:77-111 | In place over one buffer: fails exactly on a truncated or unknown escape sequence, else leaves the unstuffed data |
| Decoder.RunAppend | sricd/sric-if.c:318-348 | The reference decoder may stop and resume anywhere |
| Decoder.NoEscapedFramingIsClean | sricd/escape.c:51-59 | Streams in which no framing byte follows 0x7D never have one swallowed |
| RxModel.AdvanceProgress | sricd/sric-if.c:184-215 | A call that asks for more has used up input, so the receive loop ends |
| RxModel.DrainShrinks | sricd/sric-if.c:318-348 | Each callback frees room in `rxbuf`, so it cannot stay full |
| RxModel.AdvanceSim | sricd/sric-if.c:184-215 | One call of `advance_rx` does to the buffers what the reference decoder does to its state, byte by byte |
| RxModel.DrainSim | sricd/sric-if.c:318-348 | The receive loop delivers the reference decoder's frames and ends in its state |
| Reception.ReadsSim | sricd/sric-if.c:164-182 | The same over any number of reads of any size |
| Reception.Refinement | sricd/sric-if.c:132-215 | Frames so far, followed by the reference decoder on what is still buffered, are its frames for the whole stream |
| Reception.ReadsLeftover | sricd/sric-if.c:209-214 | What stays buffered after a callback is nothing, a lone escape, or what follows two adjacent framing bytes |
| RxLimits.CleanIsFaithful | sricd/sric-if.c:184-215 | A clean stream is decoded the same however it is cut into reads |
| RxLimits.UnfaithfulReads | sricd/escape.c:51-59 | For any other stream, reads that make the receiver miss a framing byte |
| RxLimits.FaithfulIffClean | sricd/sric-if.c:184-215 | Decoding is independent of the reads exactly for clean streams |
| RxLimits.EscapeAfterFrame | sricd/escape.c:51-59 | A frame with room for more payload, an escape and a framing byte is a stream that is not clean, and not decoded alike for all reads |
| RxLimits.AdjacentFramingDelays | sricd/sric-if.c:209-214 | Two adjacent framing bytes end a callback with everything from the second one on still buffered |
| Receiver.SerialReceiver.constructor | sricd/sric-if.c:53-59 | Starts idle with empty buffers |
| Receiver.SerialReceiver.RxbufShift | sricd/sric-if.c:132-141 | Drops the first n bytes of `rxbuf` and nothing else |
| Receiver.SerialReceiver.RxbufShiftFrameStart | sricd/sric-if.c:144-161 | Aligns `rxbuf` with its first framing byte, or empties it |
| Receiver.SerialReceiver.OpenFrame | sricd/sric-if.c:196-207 | Moves the framing byte of the next frame across, or reports that there is none |
| Receiver.SerialReceiver.AppendUnescaped | sricd/sric-if.c:209-213 | What fits is unescaped behind the frame in progress, which stays as it is |
| Receiver.SerialReceiver.FillRx | sricd/sric-if.c:209-214 | Unescapes as much as fits; if it made progress and emptied `rxbuf`, the stale first byte is no framing byte |
| Receiver.SerialReceiver.AdvanceRx | sricd/sric-if.c:184-215 | Equals the step on values, although `rxbuf[0]` is read even when `rxpos` is 0 |
| Receiver.SerialReceiver.ReadIncoming | sricd/sric-if.c:164-182 | Appends what was read |
| Receiver.SerialReceiver.FrameReady | sricd/sric-if.c:322-340 | True exactly if the buffer starts with a whole frame whose CRC matches |
| Receiver.SerialReceiver.TakeFrame | sricd/sric-if.c:342-344 | Hands over exactly the announced bytes and empties the frame buffer |
| Receiver.SerialReceiver.Rx | sricd/sric-if.c:318-348 | One callback equals the callback on values: same buffers, same frames in the same order |
| Receiver.SerialReceiver.Receive | sricd/sric-if.c:318-348 | Any waiting stream is read to the end, in chunks of any wanted sizes |
| Receiver.SerialReceiver.ReceiveEncoded | sricd/sric-if.c:318-408 | Encoded frames come out and read as the messages sent, in order, with `rxpos` and `unesc_pos` 0 afterwards |
| Encoding.RawAccepted | sricd/sric-if.c:376-395 | A frame as built by `next_tx` passes the receiver's test and is taken whole |
| Encoding.RawReadBack | sricd/sric-if.c:386-395 | Read field by field, a built frame has the message's kind, destination and payload, and comes from address 1 |
| Encoding.RawAllReadBack | sricd/sric-if.c:386-395 | So does a list of them, in order |
| Encoding.EncodeFits | sricd/sric-if.c:398-404 | The 69 bytes that are stuffed always fit the 139 offered |
| Encoding.EncodeDecodes | sricd/sric-if.c:368-408 | From any frame boundary the reference decoder turns an encoded frame into exactly that frame |
| Encoding.EncodeAllDecodes | sricd/sric-if.c:368-408 | The same for any list of frames |
| EndToEnd.DeliversAll | sricd/sric-if.c:318-348 | A stream that ends with a frame leaves both buffers empty, for any chunks |
| EndToEnd.Resynchronises | sricd/sric-if.c:144-215 | Frames after line noise are delivered exactly, in order, for any chunks |
| EndToEnd.RoundTrip | sricd/sric-if.c:318-408 | Encode, cut anywhere, receive: exactly the messages sent, each from address 1, nothing left |
| FrameHandler.FrameFromIsWhole | sricd/sric-if.c:217-260 | A device's frame is accepted, and address, length and payload are read back from it |
| FrameHandler.ReplyReadBack | sricd/sric-if.c:288-289 | The enumeration code is handed source, destination and payload as the device put them; which frames are acks and which for the daemon |
| FrameHandler.ResponseReadBack | sricd/sric-if.c:294-310 | A device's answer is accepted as an ack and reaches the client with its sender and payload, as no note |
| FrameHandler.UnansweredIff | sricd/sric-if.c:467-473 | Exactly frames without a tag and acks are not waited for |
| FrameHandler.EmptyIsNoNote | sricd/sric-if.c:243-258 | A frame without payload is acked and is no note |
| FrameHandler.NoteIsAnswered | sricd/sric-if.c:243-262 | A device's note reaches applications with its sender, number and payload, and the frame queued in answer is an ack to that device which is not waited for |
| Sricd.Sricd.Call | sricd/sric-if.c:243-265 | For a frame that is no ack: one ack queued at the high priority; a note reaches exactly the clients whose last request for its source has its bit, once; without payload nobody |
| Sricd.Sricd.Ack | sricd/sric-if.c:267-315 | For an ack: the enumeration code or exactly the client of the frame in flight gets it; what the former queues and registers; there is somebody to answer exactly if the ack is orderly |
| Sricd.Sricd.ProcRxFrame | sricd/sric-if.c:217-315 | Which of these happens, and what it does to the transmitter, the enumeration code, the device table and the clients; a frame for another address changes none of them |
| Sricd.AnsweredIffOrderly | sricd/sric-if.c:294-310 | After an orderly history there is a connected client to answer exactly if the ack is orderly too |
| Sricd.Sricd.constructor | sricd/init.c:10-24 | Nothing queued, nothing known, the history empty |
| Sricd.Sricd.Consult | sricd/sric-if.c:288-297 | Whether the enumeration code is asked, what it queues, whether it is done, and which devices are then registered |
| Sricd.TableFollows | sricd/sric-enum.c:284-286 | Registering the classes keeps the device table equal to the devices added: every address given out, with its class as a signed char, and no other |
| Sricd.Sricd.DevicesSeen | sricd/ipc.c:304-326 | At every moment an application that asks the daemon for its devices sees addresses 0 and 1 and exactly those that enumeration gave out whose class is not 0xFF |
| Sricd.GivesUpIff | sricd/sric-enum.c:220-226 | The daemon gives up exactly if one more participant turns up when all addresses are given out |
| Sricd.Sricd.CanWrite | sricd/sric-if.c:427-480 | The write callback is the write step of the histories |
| Sricd.Sricd.RetransmitTimedOut | sricd/sric-if.c:410-425 | The retransmission timer is the timeout step of the histories |
| Sricd.Sricd.StartEnumeration | sricd/sric-enum.c:302-305 | What enumeration queues first |
| Sricd.Sricd.KillTokenTimedOut | sricd/sric-enum.c:160-165 | What the enumeration code does and queues at this timer |
| Sricd.Sricd.ResetTimedOut | sricd/sric-enum.c:167-179 | What the enumeration code does and queues at this timer |
| Sricd.Sricd.Connect | sricd/ipc.c:57-76 | A new client starts with empty queues; the others are unaffected |
| Sricd.Sricd.Incoming | sricd/ipc.c:328-374 | Which command reads the rest, with everything it answers and changes, unknown commands included; the registry's history grows by exactly what was asked |
| Sricd.Sricd.HandleTx | sricd/ipc.c:107-132 | A client's frame is queued at the low priority under its tag if the device exists; every error answer otherwise, with nothing queued |
| Sricd.Sricd.PollTimedOut | sricd/ipc.c:148-164 | All the client's frames are taken off the queues or cancelled, and it is told of the timeout |
| Sricd.Sricd.Disconnect | sricd/client.c:37-47 | The client's frames are cancelled, its notes forgotten in lists 2 to 127, and it is known no more; its timers live on |
| OutputQueue.Without | sricd/output-queue.c:77-91 | The filtered queue holds exactly the entries with another tag |
| OutputQueue.TxQueue.PushHead | sricd/output-queue.c:20-27 | Adds to the end of one priority only |
| OutputQueue.TxQueue.Next | sricd/output-queue.c:29-42 | Takes out what is due: the oldest entry of the highest non-empty priority allowed, or nothing |
| OutputQueue.TxQueue.Empty | sricd/output-queue.c:44-55 | Empty exactly if taking a frame would find none, whichever priorities are allowed |
| OutputQueue.RemoveEntry | sricd/output-queue.c:69-71 | Removing by search from the head takes out the entry meant and keeps the order of the others |
| OutputQueue.RemoveTagged | sricd/output-queue.c:62-75 | Removing while walking the queue is exactly a filter |
| OutputQueue.TxQueue.Cancel | sricd/output-queue.c:77-91 | Cancellation filters both queues |
| TxModel.StepSound | sricd/sric-if.c:410-487 | Every callback keeps: timer armed exactly while an ack is awaited, at most one live, write watch on whenever there is something to write, buffer holds the frame's encoding |
| Transmitter.SerialTransmitter.BuildRaw | sricd/sric-if.c:376-395 | Header, payload and CRC are laid out in the output buffer |
| Transmitter.SerialTransmitter.BuildFrame | sricd/sric-if.c:376-406 | The output buffer holds the frame's encoding; stuffing cannot fail |
| Transmitter.SerialTransmitter.NextTx | sricd/sric-if.c:368-408 | Loads the frame that is due, low priority only once enumerated |
| Transmitter.SerialTransmitter.WriteOut | sricd/sric-if.c:440-478 | A partial write advances; the last byte arms the timer or frees the frame |
| Transmitter.SerialTransmitter.IfTx | sricd/sric-if.c:427-480 | The write callback equals the step on values |
| Transmitter.SerialTransmitter.TxReady | sricd/sric-if.c:482-487 | Registers the write watch, nothing else |
| Transmitter.SerialTransmitter.TxTimeout | sricd/sric-if.c:410-425 | A timeout rewinds the frame, or drops it if it was cancelled |
| Transmitter.SerialTransmitter.AckReceived | sricd/sric-if.c:267-315 | An ack ends the frame in flight and says whose the response is |
| Transmitter.SerialTransmitter.TxqPush | sricd/output-queue.c:20-27 | Pushing queues the frame and asks for the write callback |
| Transmitter.SerialTransmitter.TxqCancel | sricd/sric-if.c:489-497 | Cancelling filters the queues and marks the frame in flight if it has the tag |
| TxOutput.WriteTakes | sricd/sric-if.c:456-463 | A write takes the next bytes of the frame, no more than the port offers, and the next one goes on after them |
| TxOutput.FinishedIff | sricd/sric-if.c:456-473 | A frame counts as finished exactly when all of its encoding has left since it was loaded or its timer last fired |
| TxOutput.InFlight | sricd/sric-if.c:410-473 | After any run exactly the first `txpos` bytes of the frame in flight have left since then |
| TxOutput.StreamIff | sricd/sric-if.c:427-480 | After any run what has left is the encodings of the frames finished, in order, and the part of one half written, exactly if no ack came in while a frame was half written |
| TxOutput.OtherEndGets | sricd/sric-if.c:318-480 | Then whoever listens, in any chunks, gets exactly their messages |
| TxRuns.InvStep | sricd/sric-if.c:267-497 | Everything that can happen keeps soundness, conservation, identity and order together |
| TxRuns.DistinctStep | sricd/output-queue.c:20-27 | No entry is ever pushed twice, no two entries share an address |
| TxTheorems.ReachableInv | sricd/sric-if.c:267-497 | The invariant holds after every run |
| TxTheorems.NeverStalls | sricd/sric-if.c:410-487 | After any run: timer, write watch and buffer as above |
| TxTheorems.ExactlyOnePlace | sricd/output-queue.c:20-91 | After any run each pushed frame is exactly one of queued, in flight, retired, cancelled |
| TxTheorems.SentInPushOrder | sricd/output-queue.c:20-42 | After any run frames of one priority were first written in push order, minus cancelled ones |
| TxTheorems.LowPriorityWaits | sricd/output-queue.c:28-42 | A low priority frame is only begun once enumerated and while no high priority one is queued |
| TxTheorems.CancelledFrame | sricd/sric-if.c:410-478 | A frame cancelled while its timer is armed is never written again; otherwise at most one more write of it is finished |
| ClientSafety.NoReplyToTheDead | sricd/client.c:37-47 | After any orderly run queued frames belong to live clients and responses go to live clients |
| ClientSafety.AckReachesLiveClient | sricd/sric-if.c:294-310 | The next response goes to a live client exactly if its ack is orderly |
| ClientSafety.EarlyAckHasNoClient | sricd/sric-if.c:267-310 | An ack while an untagged frame is half written is handed to the null tag |
| ClientSafety.LeftoverHasNoClient | sricd/sric-enum.c:16-21 | An enumeration frame still queued when enumeration ends has its ack handed to the marker tag |
| EnumLink.DoneIff | sricd/sric-enum.c:280-290 | Enumeration ends exactly with one byte of data in an ack, not from the next address, when all classes have been asked for |
| EnumLink.FrameCarries | sricd/sric-enum.c:66-132 | The frame queued for a message puts that message on the wire; its tag is null exactly for a reset |
| EnumLink.FramesCarry | sricd/sric-enum.c:66-132 | So do the frames of several, in order |
| EnumLink.TokenAnswerMeans | sricd/sric-enum.c:309-317 | Who gets the next address when the gateway says whether it has the token |
| EnumLink.ExitedIff | sricd/sric-enum.c:220-226 | Exactly which replies make it give up |
| EnumLink.OnlyAcksCount | sricd/sric-enum.c:306-334 | Frames that are no acks mean nothing to it |
| EnumLink.EndsWithFramesQueued | sricd/sric-enum.c:240-296 | With address 2 on offer to the gateway and that frame in flight, two acks end enumeration with two of its frames queued, and the ack of the next one goes to the marker |
| EnumMachine.Enumerator.constructor | sricd/sric-enum.c:23-39 | Power-on state |
| EnumMachine.Enumerator.AddDevices | sricd/sric-enum.c:284-286 | Hands on exactly the addresses from 2 up to the last one given out, with their classes |
| EnumMachine.Enumerator.StartAssignment | sricd/sric-enum.c:216-244 | The next address is offered, or the daemon gives up at 128 |
| EnumMachine.Enumerator.StartFetching | sricd/sric-enum.c:246-262 | The gateway has its address; token mode on, token made, first class query |
| EnumMachine.Enumerator.NextClass | sricd/sric-enum.c:278-296 | Next class query, or registration of the devices |
| EnumMachine.Enumerator.Fsm | sricd/sric-enum.c:181-300 | The switch equals the transition function: state and frames queued |
| EnumMachine.Enumerator.Rx | sricd/sric-enum.c:307-340 | Which event an ack is, and whether enumeration goes on |
| EnumMachine.Enumerator.SendResetTimeout | sricd/sric-enum.c:167-179 | Five resets, then the bus counts as reset |
| EnumMachine.Enumerator.KillTokenTimeout | sricd/sric-enum.c:160-165 | The token counts as caught |
| EnumRuns.RunHistory | sricd/sric-enum.c:181-340 | In any run the frames sent so far determine addresses and resets |
| EnumRuns.AnyRun | sricd/sric-enum.c:181-340 | Over any sequence of timeouts and acks: addresses 2, 3, 4, ... none repeated or above 127; queries never ahead of them; the devices registered at the end are exactly those; five resets first |
| EnumScript.SentIsScript | sricd/sric-enum.c:181-300 | Over any run, all that was sent since power-on is told by the state alone: every message, in order |
| EnumScript.TokenModeIff | sricd/sric-enum.c:197-260 | A gateway that gets them all waits for the token exactly from when all addresses are given out; before the bus reset it does not |
| EnumOnWire.CuePushes | sricd/sric-if.c:243-297 | What each timer, write, ack, retransmission and received frame adds to the high priority queue |
| EnumOnWire.CommandsInOrder | sricd/sric-enum.c:66-300 | From power-on, the commands begun followed by those queued carry that script, and the output buffer holds the encoding of the one in flight |
| StartUp.UntilReset | sricd/sric-enum.c:160-238 | From power-on, transmitter and enumeration code together get to the bus being reset, with the question for the token next to be sent |
| StartUp.GatewayOffered | sricd/sric-enum.c:181-250 | From power-on, both together get to address 2 being offered to the gateway, with nothing else queued |
| StartUp.EarlyEndReached | sricd/sric-if.c:267-315 | From power-on, a byte of data that comes in too early ends enumeration with two of its frames queued, and the ack of the next one goes to the marker |
| StartUp.ServiceReached | sricd/sric-if.c:288-292 | From power-on, enumeration can also end as it should, after which a client that connects is served |
| BusEmulator.OstricClient.GenericMsg | ostric/generic.c:11-76 | A device's reaction to a message: address, token flags and acks |
| BusEmulator.Emulator.JuggleToken | ostric/token.c:8-29 | One device's turn in the rotation |
| BusEmulator.Emulator.JuggleAll | ostric/token.c:43 | The traversal of the ring is the rotation on values |
| BusEmulator.Emulator.AdvanceToken | ostric/token.c:31-47 | Advancing the token equals the step on values |
| BusEmulator.Emulator.BusCommand | ostric/cmds.c:30-44 | A bus message reaches every device in ring order; acks come in that order |
| BusEmulator.Emulator.ProcessCommand | ostric/ostric.c:149-180 | A frame for the gateway goes to it, any other to every device in turn: state and answers are those of the modelled bus |
| BusEmulator.Emulator.GatewayCommand | ostric/cmds.c:46-126 | The gateway's token flags and answers, by command |
| BusFrames.CommandOnWire | ostric/generic.c:16-63 | The bytes that the emulator looks at are the message's destination, command and argument |
| BusFrames.AnswerReadBack | ostric/reply.c:11-41 | Every answer of the bus is accepted, for the daemon, an ack, and read back as exactly that answer |
| BusFrames.AnswersFrom | ostric/cmds.c:64-118 | Devices answer under their own address, the gateway under the one asked |
| BusFrames.RoundIsHandled | sricd/sric-if.c:267-297 | A round of the closed system is what the daemon does with the frame that comes back, and the frames queued carry the round's messages |
| Token.AdvanceConserves | ostric/token.c:8-47 | Advancing makes no token, and loses none if there is at most one |
| Token.AdvanceTimesConserves | ostric/token.c:8-47 | The same for any number of calls |
| Token.AdvanceAt | ostric/token.c:8-47 | A single token moves to the next place unless it is kept |
| Token.ReachesStop | ostric/token.c:8-47 | It reaches the first place that keeps it within as many calls as there are places between |
| Token.SettlesInOneRound | ostric/token.c:8-47 | From any state with one token that the gateway keeps, N + 1 calls bring it to the first keeper from where it is, where it stays |
| EnumCompletes.EnumerationCompletes | sricd/sric-enum.c:181-300 | With at most 125 devices, complete after 4n + 7 requests: addresses 2 to n + 1 in ring order, gateway n + 2, each class at its own address |
| EnumCompletes.TooManyDevices | sricd/sric-enum.c:216-232 | With 126 devices or more the daemon gives up after 381 requests |
| EnumCompletes.CompletesIffAddressesSuffice | sricd/sric-enum.c:216-232 | Enumeration can complete exactly with at most 125 devices |
| EnumCompletes.ResetPrepares | ostric/generic.c:22-28 | A reset of devices in any state gives the starting state of those results, unless the gateway holds a token that it is not to keep |
| EnumLossy.InvStep | ostric/generic.c:30-58 | Loss, repetition, delay, timeouts and late acks keep the addressing invariant |
| EnumLossy.ReachableInv | sricd/sric-enum.c:216-278 | It holds in every reachable state |
| EnumLossy.AddressesAreUnique | sricd/sric-enum.c:216-278 | In every lossy run no address is held twice, by devices or gateway, and all are between 2 and 127 |
| EnumLossy.TokenAtGatewayMeansAllReleased | ostric/cmds.c:110-118 | HAVE_TOKEN is answered 1 only once every device has an address and has released the token |
| EnumOutcome.NothingLeftWhenDone | sricd/sric-enum.c:280-290 | In every lossy run, when enumeration ends none of its frames is queued or in flight |
| EnumOutcome.RegisteredClasses | sricd/sric-enum.c:280-334 | In every lossy run, at the end each address given out is held and registered, with its class exactly if its answer was heard, or the class is what the table held at first |
| EnumOutcome.SecondAnswerMisread | sricd/sric-if.c:267-292 | A device's class answer that comes twice is taken for the gateway's, which is registered without being asked |
| EnumEmbedding.RoundsInside | ostric/ostric.c:60-80 | Any number of answered rounds is a run of the lossy bus in which nothing is lost, to the same state |
| EnumEmbedding.LossyBusCanComplete | sricd/sric-enum.c:181-300 | The lossy bus starts where the completeness result does, and completes if nothing is lost |
| FlagWord.BitsOverlap | sricd/device.c:99-114 | Single bits below 64 overlap exactly if they are the same |
| FlagWord.SetOther | sricd/device.c:107-112 | Setting or clearing a bit leaves the others as they were |
| FlagWord.SomeBit | sricd/device.c:99-114 | A word that is not zero has one of its 64 bits set |
| FlagWord.Ntohll | sricd/ipc.c:259-275 | The loop reverses the eight bytes of a word |
| NoteTargets.MapEntry | sricd/device.c:52-95 | In a list without duplicates the first entry of a client is its entry in the map |
| NoteTargets.DropMap | sricd/device.c:52-70 | Dropping a client's entry removes it from the map |
| NoteTargets.UpdateMap | sricd/device.c:72-95 | Updating or appending sets it in the map |
| NoteTargets.SetNotesIsMapUpdate | sricd/device.c:97-114 | Setting notes updates a map from clients to non-zero flags, without duplicates |
| NoteTargets.DispatchedTimes | sricd/device.c:125-141 | Dispatch reaches a client once if its flags have the bit, else not at all |
| NoteTargets.DispatchedHas | sricd/device.c:125-141 | It reaches exactly the entries with the bit |
| NoteNames.ShowsSet | sricd/device.c:97-114 | Setting notes in the daemon's lists is the registry's request by the client's number |
| NoteNames.ShowsClear | sricd/device.c:116-123 | So is clearing them |
| NoteNames.DispatchIsLastAsked | sricd/device.c:125-141 | Dispatch of a note below 64 from the daemon's lists reaches a client exactly if its last request for the source has the bit |
| NoteRegistry.ListsAreTheMap | sricd/device.c:52-123 | After any requests each list holds each client at most once, with the non-zero flags it last asked for |
| NoteRegistry.ClearFromAt | sricd/device.c:116-123 | Clearing drops the client from every list from 2 on, and its mask bits one after the other |
| NoteRegistry.ClearIsRequest | sricd/device.c:116-123 | So the loop over the lists is the registry's request to clear |
| NoteRegistry.OneBitOfMask | sricd/device.c:97-108 | Which bit of which word an address sets |
| NoteRegistry.DepartureForgottenIff | sricd/device.c:116-123 | A client that leaves is in no list exactly if it had asked for nothing of addresses 0 and 1, which clearing skips |
| NoteRegistry.DispatchReachesExactly | sricd/device.c:125-141 | A note below 64 goes exactly once to each client whose last request for its source has the bit |
| NoteRegistry.MaskDisagrees | sricd/device.c:97-114 | For the other addresses up to 64, a run in which mask and list differ |
| NoteRegistry.MaskAgreesIff | sricd/device.c:97-114 | The client's mask bit for an address agrees with the list in every run exactly if the address is above 64, or below it and not hit by the out-of-range shift for 64 |
| Daemon.DeviceTable.constructor | sricd/device.c:39-50 | After a reset: no targets, the two fixed addresses with their types, no device |
| Daemon.DeviceTable.DeviceAdd | sricd/device.c:29-32 | Sets the type of one address |
| Daemon.DeviceTable.AddClasses | sricd/sric-enum.c:284-286 | The loop registers each address given out with its class as a signed char |
| Daemon.DeviceTable.DropClientNotes | sricd/device.c:52-70 | The walk removes the client's first entry in one list and changes no other |
| Daemon.DeviceTable.UpdateClientNotes | sricd/device.c:72-95 | The walk changes the client's first entry, or appends one |
| Daemon.DeviceTable.SetClientNotes | sricd/device.c:97-114 | List and mask word are changed together |
| Daemon.DeviceTable.ClearClientNotes | sricd/device.c:116-123 | The client is dropped from lists 2 to 127 |
| Daemon.DeviceTable.DispatchNote | sricd/device.c:125-141 | The note is pushed once to each listed client that has the bit; every other listed client is unchanged |
| Daemon.DeviceTable.HandleNoteFlags | sricd/ipc.c:277-296 | Which bytes are read, what is registered, and every answer, errors included |
| Daemon.DeviceTable.HandleNoteClear | sricd/ipc.c:298-302 | Cleared, and answered with success |
| Daemon.DeviceTable.HandleListDevices | sricd/ipc.c:304-326 | Count and entries written are exactly the existing devices in address order |
| Ipc.TimeoutRoundTrip | libsric/sric.c:188-192 | A poll's timeout, -1 included, reaches the daemon unchanged |
| Ipc.ErrorsMean | libsric/sric.c:124-136 | Which answers of the daemon are success, a bad payload and a timeout, and that everything else is the daemon's fault |
| Ipc.TxShortIff | sricd/ipc.c:107-122 | When a request to send is short |
| Ipc.PollSucceedsIff | libsric/sric.c:195-213 | A poll succeeds exactly if header and payload are all there, and never returns part of a payload |
| Ipc.FlagsRoundTrip | libsric/sric.c:235-245 | Flags written most significant byte first come out of `ntohll` unchanged |
| Ipc.TxRoundTrip | libsric/sric.c:166-173 | Address and payload of a transmit command are what `handle_tx` reads |
| Ipc.PollRoundTrip | sricd/ipc.c:134-146 | `sric_poll` reads back the frame or timeout that was written, and no byte more |
| Ipc.StreamRoundTrip | libsric/sric.c:176-214 | Replies that run together in the socket are taken apart again |
| Ipc.AllSentReadBack | sricd/client.c:49-87 | Over any run, all that one queue sent, read back from a socket of its own, followed by what it still holds, is what was pushed, in order |
| Delivery.StepDelivers | sricd/client.c:49-87 | A push, poll or expiry neither loses nor reorders a frame, and keeps a registered ping's queue empty |
| Delivery.NothingLostOrReordered | sricd/ipc.c:148-257 | Over any run sent frames followed by queued ones are those pushed; a registered ping means an empty queue, although a timeout leaves it registered |
| Delivery.RepliesCounted | sricd/ipc.c:148-231 | For a client that waits for its answers: replies count polls, and frames that arrive for an expired poll; at most one timer lives |
| Delivery.OneReplyPerPollIff | sricd/ipc.c:148-164 | For a client that waits for its answers: one reply per poll exactly if no frame comes in after a poll expired and before it polls again with a timeout other than 0 |
| Delivery.LeftoversAreLate | sricd/ipc.c:148-231 | A frame finds a ping that an expired poll left exactly if it is late by the order of events alone |
| Delivery.LateResponse | sricd/ipc.c:181-206 | On one queue: poll, expiry, frame make two replies to one poll; for responses this takes a transmission, which this queue does not show |
| Delivery.TimersStep | sricd/ipc.c:148-257 | Each event keeps it known which poll armed each live timer, and which one is remembered |
| Delivery.TimerLeftIff | sricd/ipc.c:148-257 | After any run a timer is live exactly if a poll that had to wait armed it, it has not expired, and no frame came in before anything else expired or asked for a timer |
| Session.EachCallReadsItsOwn | libsric/sric.c:110-214 | For one application with any polls and other commands: each call finds exactly its own answer in the socket, at every moment of a run, exactly if no frame is late on either side |
| Session.PolledAsArrived | sricd/ipc.c:134-257 | The frames that the run's own polls returned, the one in an unread answer and those queued are those that came from the bus, in order, at every moment, exactly if no frame is late |
| Session.RefusalOverlooked | libsric/sric.c:124-138 | Poll, expiry, a frame sent, its response, a refused command: the command is taken to have succeeded |
| Session.SideRuns | sricd/ipc.c:148-257 | In every run each queue goes through the events of its own kind, as if it were alone |
| Session.TimerOutlivesClientIff | sricd/client.c:37-47 | In every run, a poll timer is left for a client that goes away exactly if, on either side, a poll that had to wait armed one which has not expired and whose poll no frame answered |
| Session.TimerLivesOnTime | sricd/client.c:37-47 | As long as no frame is late, that is exactly while it waits on a poll that does not wait for ever |
| Session.TimerOutlivesReturn | sricd/ipc.c:181-256 | After a late note it is not: the next poll for notes reads that note and returns, and its timer is left |
| LateResponses.ClientsAreReady | sricd/sric-if.c:294-310 | After any orderly run of the daemon, each connected client is in the situation that the results below start from |
| LateResponses.RunsOfBoth | sricd/ipc.c:107-179 | A run of application and transmitter together is a run of either |
| LateResponses.StageStep | sricd/ipc.c:148-164 | Once a poll for responses expired, nothing of the client is queued or in flight uncancelled until it transmits, and something is from then on until it is answered |
| LateResponses.LateIffSentSince | sricd/ipc.c:148-164 | In every run of both, a response is late exactly if it comes in when the application has transmitted since a poll for responses expired, has got none since and has not asked to wait again |
| LateResponses.CarefulIsSafe | sricd/ipc.c:148-164 | If the application never transmits so, no response is late, and each of its calls reads its own answer exactly if no note is late |
| LateResponses.ResponseCanBeLateIff | sricd/sric-if.c:267-310 | After any run of both, writes and acks can bring a late response exactly if the application has transmitted so |
| LateResponses.RefusalHappens | sricd/ipc.c:107-164 | Whatever the transmitter is doing, the run in which a refused command is taken to have succeeded can happen to any client |
| Clients.Client.constructor | sricd/client.c:13-30 | Empty queues, no poll, no timer |
| Clients.Client.ReadData | sricd/ipc.c:90-94 | A short read fails and uses up what was there |
| Clients.Client.SendRx | sricd/ipc.c:134-146 | The bytes written for a frame |
| Clients.Client.RxPing | sricd/ipc.c:166-179 | Forgets poll and timer, sends the oldest response |
| Clients.Client.PushRx | sricd/client.c:49-61 | Queues a response, or hands it to a waiting poll; nothing else of the client changes |
| Clients.Client.PopRx | sricd/client.c:77-81 | Takes the oldest response |
| Clients.Client.RxTimeout | sricd/ipc.c:148-164 | Reports the timeout, forgets the timer, leaves the ping |
| Clients.Client.PollRx | sricd/ipc.c:216-230 | Answers at once, or waits with or without a timer |
| Clients.Client.HandlePollRx | sricd/ipc.c:208-231 | The whole request, short read included |
| Clients.Client.NotePing | sricd/ipc.c:193-206 | Forgets poll and timer, sends the oldest note |
| Clients.Client.PushNote | sricd/client.c:63-75 | Queues a note, or hands it to a waiting poll; nothing else of the client changes |
| Clients.Client.PopNote | sricd/client.c:83-87 | Takes the oldest note |
| Clients.Client.NoteTimeout | sricd/ipc.c:181-191 | Reports the timeout, forgets the timer, leaves the ping |
| Clients.Client.PollNote | sricd/ipc.c:241-256 | Answers a poll for notes at once, or waits with or without a timer |
| Clients.Client.HandlePollNote | sricd/ipc.c:233-257 | The whole request for a note, short read included |
| FlagCache.ServeFlags | sricd/ipc.c:277-296 | The daemon's answer to a flags command is registration of the device and flags meant, or BADADDR |
| FlagCache.AddressesMean | libsric/sric.c:73-89 | Which addresses are let through, and the errors for the others |
| FlagCache.BothSides | libsric/sric.c:221-273 | After any calls of any clients the cache holds what was last wanted, the daemon the same for existing devices and nothing for others |
| FlagCache.CoherentIff | libsric/sric.c:221-273 | A client's cache agrees with the daemon exactly if it last wanted nothing of every device that does not exist |
| FlagCache.CoherentWhileSuccessful | libsric/sric.c:221-273 | As long as no command of its own was refused they agree, so skipping an unchanged update loses nothing |
| FlagCache.SecondAttemptPretends | libsric/sric.c:231-249 | The same request for a missing device is refused once and then silently accepted, with nothing registered |
| Libsric.Context.constructor | libsric/sric.c:31-53 | Empty cache, no error, no list |
| Libsric.Context.SendCommand | libsric/sric.c:110-139 | What is written, and which error a result byte or a dead connection becomes |
| Libsric.Context.ReadData | libsric/sric.c:141-153 | A short read is a daemon error |
| Libsric.Context.NoteSetFlags | libsric/sric.c:221-251 | Which calls fail at once, which send nothing, what the others send, and that the cache changes whatever the answer |
| Libsric.Context.NoteGetFlags | libsric/sric.c:253-263 | The cached flags, or 0 and an error |
| Libsric.Context.NoteUnregisterAll | libsric/sric.c:265-273 | The whole cache is zero, and the daemon is told |
| Libsric.Context.Tx | libsric/sric.c:155-174 | Which frames are refused with which error, and the command sent for the others |
| Libsric.Context.Poll | libsric/sric.c:176-214 | Command, outcome, error and bytes used are those specified, short reads included |
| Libsric.Context.PollRx | libsric/sric.c:216-219 | Asks for a response, and returns what the answer says |
| Libsric.Context.PollNote | libsric/sric.c:275-278 | Asks for a note, and returns what the answer says |
| Libsric.Context.ReadEntries | libsric/sric.c:297-312 | The loop reads all the entries or reports a short read |
| Libsric.Context.RefreshDevices | libsric/sric.c:280-316 | The list with its sentinel, or none on any error |
| Libsric.Context.EnumerateDevices | libsric/sric.c:318-335 | First entry after a refresh; then the next, until the sentinel |
| Libsric.RefreshRoundTrip | libsric/sric.c:280-316 | The list that the daemon writes is the list that the library holds |
| Libsric.AllOrNothing | libsric/sric.c:280-316 | There is a list exactly if all the entries announced came, and then it has them all |
| Libsric.AnswerMeans | libsric/sric.c:110-139 | When a command succeeds, and what a dead connection is |
| Application.PollUnderstood | libsric/sric.c:186-193 | A poll written by libsric is the poll that the daemon serves |
| Application.FlagsUnderstood | libsric/sric.c:232-245 | A flags command written by libsric registers those flags for that device, or is refused |
| Application.SentReachesBus | sricd/ipc.c:107-132 | A frame that libsric is asked to send goes out with that address and payload, or is refused |
| Application.ResponseReachesCaller | sricd/sric-if.c:294-310 | A device's answer reaches the caller of `sric_poll_rx` |
| Application.NoteReachesCaller | sricd/sric-if.c:243-262 | A device's note reaches the caller of `sric_poll_note` |
| Application.NotedIsArrival | sricd/client.c:63-75 | A note pushed to a client is one arrival in its session |
| Application.AnsweredIsArrival | sricd/client.c:49-61 | So is a response |
| DeviceList.ExistingExactly | sricd/ipc.c:316-325 | The devices listed are exactly those whose type is not -1, with their types |
| DeviceList.ExistingSorted | sricd/ipc.c:316-325 | They are listed in address order, none twice |
| DeviceList.EntriesRoundTrip | libsric/sric.c:297-312 | Entries with addresses and signed types are read back as written |
| DeviceList.WalkVisitsAll | libsric/sric.c:330-334 | Walking a list without sentinel types visits all of it and stops |
| DeviceList.WalkSeesAllDevices | libsric/sric.c:318-335 | An application that walks the list sees each existing device once, in address order, with its type |
| DeviceList.WalkAfterEnumeration | sricd/sric-enum.c:284-286 | From a table that agrees with the devices added an application sees addresses 0 and 1 and exactly those whose class is not 0xFF, with the class as a signed char |

## Assumptions

* The emulator's gateway never answers ADDR_ASSIGN or ADDR_INFO for its own address. The real gateway must, or
  enumeration cannot end; `BusModel.GatewayAsDevice` adds that answer, and the two completeness results use it.
* The emulator advances the token at least once after each command (`ostric/ostric.c:62-80`); every number of further
  calls is covered. A device's class is a parameter; the emulator's devices always answer 0.
* A memory address is not handed out twice while something may still compare with it: queue entries, clients and timers
  have abstract identities.
* Frames and answers on the lossy bus are not overtaken by newer ones of the same direction.
* An application makes one libsric call at a time.
* 1 << n for n of 64 or more is whatever the platform makes of it: a parameter named `wild` or `shift`.
* `char` is signed, so class byte 0xFF means that there is no device.

## Left out

- Serial port set-up, sockets, ptys, the main loop, logging and start-up: reads and writes are byte sequences, timers and watches are flags and sets of live identifiers.
- A failing write to the serial port ends the daemon and is not modelled; a partial write is.
- Daemon.DeviceTable.HandleNoteFlags: device numbers of 128 and above, for which the code reads outside its table.
- Sricd.Sricd.Incoming: the requests that the lines on HandleNoteFlags and HandleTx leave out.
- Sricd.Sricd.HandleTx: addresses of 128 and above and payload lengths above 64, for which the code reads or writes outside its arrays.
- Sricd.Sricd.PollTimedOut: the same callback for a client that is gone, which the code runs on freed memory; Session.TimerOutlivesClientIff says, for every run, exactly when one is left to come.
- Sricd.Sricd.Disconnect: the client is freed at the end; here it merely is no longer known.
- Sricd.Sricd.Ack: after giving up or finding nobody to answer the code exits, or follows a pointer that is none; the model says which acks lead there and stops.
- Transmitter.SerialTransmitter.AckReceived: takes what the enumeration code makes of the ack as parameters; Sricd.Sricd.Ack supplies them.
- EnumMachine.Enumerator.AddDevices: keeps what is handed to device_add in a map; Sricd.Sricd.Consult carries it out on the device table.
- Receiver.SerialReceiver.TakeFrame: hands the frame over as a value; proc_rx_frame reads it in place.
- Escape.Unescape: reads its source through a sequence, because the caller only ever passes a buffer distinct from the destination.
- The ostric stream parser, which masks the length with 0x3F and keeps a truncated frame; only its order of one command and then the token is used.
- The devices' side of the phase before the reset, with addressed devices and several acks to one broadcast; `EnumCompletes.ResetPrepares` shows that the reset makes its outcome irrelevant.
- Liveness of enumeration when acks are lost: a device that has its address does not ack it again, so enumeration can get stuck; only safety is claimed there.
- The positions rxpos, unesc_pos, txlen and txpos are unbounded here; they are proved to stay within their buffers, which are shorter than 256 bytes.
- What libsric does after it has once read somebody else's answer: Session says exactly when that happens first.
- Memory allocation, and a libsric call on a null context, which only returns.
