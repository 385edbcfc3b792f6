# A verified model of the SIPF LTE-M modem firmware's data paths

The firmware turns a modem module into a serial device driven by `$` commands. This project models,
in Dafny, the parts of it that move data and decide something about it, and proves what they do:

* **Block transfer.** `Xmodem` builds, checks, receives and sends 132-byte frames in checksum mode
  (section 7.2 of Forsberg's "XMODEM/YMODEM Protocol Reference"); `Upload` is the receiving driver behind
  `$FPUT`, `Download` the sending driver behind `$FGET`. Both run over `Serial`, a port whose arrivals,
  queue answers and socket answers are an arbitrary script. `UploadRuns` follows whole uploads, undisturbed
  and disturbed. `Transfer` puts the code's sender and the code's receiver at the two ends of a line that
  keeps order but may lose anything and damage it visibly, and proves what every run keeps; `Refinement`
  proves that these two ends are the drivers, pass by pass, and `Sessions` that over what an end hears in a
  run of the system its driver takes, says and reports what that end does.
* **Object codec.** `TxCommand` is the in-place parser of `$TX`, `TxRaw` that of `$TXRAW`; `SipfObject`
  holds the records, the walk over a downlink answer, the packet and the byte-swapping encoder; `RxReport`
  is the text `$RX` prints; `TypedTx` goes from the keys of a `$TX` line to the packet sent.
* **Command line.** `LineEditor` is the byte-driven editor, `Dispatch` the table search, `UpdateGate` the
  flag that guards firmware updates, over every history of commands and every stream of keys.
* **Supports.** `UrlSplit` is the in-place URL splitter and the path shift of the upload; `UartBroker` is
  the pair of bounded queues below everything, as steps of callers, interrupt and transmit thread.

Code that works step by step is modelled as methods over arrays and fields, each proved equal to a
specification function of the old state; the promises are then proved about those functions. The whole
project is verified by `dafny verify dfyconfig.toml`.

## What the proofs found

* A duplicate block is neither acknowledged nor refused: the upload loop has no branch for it, nor for the
  raw error of a timeout inside a frame (src/cmd_ascii.c:544-575, src/xmodem.c:174). `UploadRuns.DuplicateIgnored`
  states it, and `Upload.AttemptsBounded` bounds attempts only up to these uncounted outcomes. Section 7.3
  of the protocol reference has a receiver acknowledge a duplicate.
* A block that uses up its three tries is skipped and its number is used again (src/cmd_ascii.c:707-736):
  `Transfer.SilentLoss` gives a run in which the sender ends well and the receiver finishes with half the file.
  What saves the file is the comparison with the declared size behind the last block, which closes the socket
  of a short upload (src/cmd_ascii.c:583-586). With the file's own size declared, that test is passed exactly
  when the whole file has arrived, over every run (`Transfer.EnoughIffWhole`, `Transfer.EnoughIffFile`), and a
  finished upload over what the run's receiver heard is reported a success exactly then
  (`Sessions.UploadIsWhole`). In the lossy run it is passed
  exactly when no more than 128 bytes were declared. `Transfer.WholeFileIff` says in terms of the protocol when
  a finished receiver holds the whole file.
* An empty upload is refused, because an EOT is no first block (src/cmd_ascii.c:676-680):
  `UploadRuns.EmptyUpload`. The EOT has been acknowledged by then, so that the other end reports success:
  `Transfer.EmptyFile`.
* The checksum and the complement detect any single wrong byte but the first (`Xmodem.DamageDetected`). When
  the first byte of a frame is damaged, the bytes behind it are read as messages of their own.
  `UploadRuns.DamagedStartRun` says what follows, by the first byte among the next twelve (fewer after
  retries) that is an SOH, EOT or CAN: with none the upload aborts, with an EOT or CAN it is concluded early,
  the socket closed exactly if more was declared than has come, and with an SOH a frame is collected out of
  step. Block 4 carries the byte 0x04 in second place, so that a damaged SOH concludes the upload before it
  (`UploadRuns.BlockFour`); block 1 carries 0x01, and with a damaged SOH and a pause behind it the upload fails
  (`UploadRuns.DamagedFirstBlock`).
* The value length of `$TX` is counted in one byte (src/cmd_ascii.c:224), although 1000 bytes are admitted.
  `TxCommand.LongValueAccepted` gives the texts that pass although their values are longer than 255 bytes, 257
  bytes for a one-byte number among them, and `SipfObject.AllParsedIffShort` says that what was sent can be
  parsed back exactly when there is no such value.
* The `$TX` parser writes before it has checked: a text refused at its last character has been written all the
  same, past the 1024 bytes of the send buffer exactly when its value has more than 1020 (`TxCommand.RefusedTooLate`).
  `TxCommand.Parse` says for every text how far it writes.
* Backspaces leave old characters behind the text, and the dispatcher looks at them.
  `Dispatch.FirstWordIffClean` states exactly which lines are still dispatched by their first word alone, and
  `Dispatch.ArgLenIff` when the length handed to the handler wraps; `Dispatch.StaleSpaceAmbiguous` types a line
  on which both go wrong. None of this unlocks an update (`UpdateGate.UnlocksIffText`), but the wrapped
  length also decides where `$UPDATE` stores the NUL behind a version (src/cmd_ascii.c:857):
  `UpdateGate.NulInsideIff` says exactly when that is inside the input buffer, and `UpdateGate.ErasedVersion`
  gives keys with which it is cell 65542.
* When the first write of an upload fails, the callback returns a positive number (src/cmd_ascii.c:536), which
  its caller takes for bytes sent, and passes by the comparison with the declared size. The callback's result
  counts the bytes delivered exactly when that write succeeds (`Upload.CallbackSound`); when it fails, the socket
  stays open with nothing delivered, and the server's answer alone decides (`Upload.FailedFirstWrite`).
* When the opening NAK of an upload finds no room, the command returns without turning the echo on again
  (src/cmd_ascii.c:653-657); otherwise it is always turned on (`Upload.Fput`).
* The `$RX` report can be longer than the 4096-byte output it is printed to: `RxReport.LongAnswer` has 4097
  characters and a NUL for an answer of 1417 bytes, which the 1500-byte response buffer holds behind a header of
  up to 83. `RxReport.AnswerFitsIff` says exactly which answers fit.
* The walk over an answer trusts its content length, of which up to 1511 are accepted
  (lib/sipf/src/sipf_object.c:292), and the length byte of its last record. The records found lie inside the
  body exactly when the last of them does (`SipfObject.AnswerInsideIff`); `SipfObject.TruncatedAnswer` gives the
  accepted answers whose last record ends up to 255 bytes behind the content, for a body of any size.
* The packet's length is computed in sixteen bits (lib/sipf/src/sipf_object.c:141), so that the guard behind it
  misses the twelve largest sizes (`SipfObject.GuardIff`). The encoder's refusal, -1, is passed on as one of
  them (lib/sipf/src/sipf_object.c:224-225): what is written stays within the request buffer exactly when the
  encoder took the whole list, and the 512-byte payload buffer is kept, too, exactly when that has at most 512
  bytes (`SipfObject.UpFitsIff`).

## Model

| member | source | states |
|---|---|---|
| Xmodem.BlockValidation | src/xmodem.c:22-56 | the in-place check, with its summing loop, returns the verdict that the two lemmas below characterise |
| Xmodem.AcceptedIffNextFrame | src/xmodem.c:22-56 | a block is accepted if and only if it is the frame built for the next number from its own payload, and then that number is returned |
| Xmodem.FrameRepeated | src/xmodem.c:31-35 | a frame of the number just received, around any payload, is consumed in 132 reads and reported as a repeat, the number kept |
| Xmodem.RepeatIff | src/xmodem.c:22-35 | over any input, a repeat is reported if and only if 132 bytes come without a pause, led by 0x01, the current number and its complement |
| Xmodem.SumDetects | src/xmodem.c:42-47 | changing any one byte changes the additive checksum |
| Xmodem.SumIsTotal | src/xmodem.c:42-47 | the checksum is the sum of all 128 bytes modulo 256 |
| Xmodem.ReceiveBlock | src/xmodem.c:125-191 | result, block number, bytes consumed, ACK sent and buffer contents for every stream of bytes, timeouts and errors; stale bytes stay behind a partial frame |
| Xmodem.ReceiveHeard | src/xmodem.c:163-190 | a frame heard whole is consumed in exactly 132 reads and answered as the validation says |
| Xmodem.ControlsReceived | src/xmodem.c:130-161 | 0x04 is acknowledged with 0x06 and ends the reception if that was queued, 0x18 cancels, silence is a retry, an error is passed on, each after one read |
| Xmodem.CutShort | src/xmodem.c:163-176 | a frame that a pause or an error cuts short is answered with that error, and what has come is stored |
| Xmodem.ReceivedOk | src/xmodem.c:163-190 | a successful receive means that exactly 132 bytes were heard and they are the frame numbered one higher, modulo 256 |
| Xmodem.ReceiveProgress | src/xmodem.c:130-174 | every outcome but a retry consumes input, and the block number changes on success only |
| Xmodem.ReceiveEnds | src/xmodem.c:130-176 | every receive goes from the start of one message to the start of the next, whatever the block number |
| Xmodem.FrameRoundTrip | src/xmodem.c:139-190 | for every number and every payload of at most 128 bytes, receiving the built frame from its predecessor consumes 132 bytes and yields the payload padded with 0x1a |
| Xmodem.DamageDetected | src/xmodem.c:24-55 | changing any one byte at offsets 1 to 131 of the expected frame is heard in full and answered as a retry, and leaves the block number alone |
| Xmodem.DamagedStart | src/xmodem.c:141-161 | a changed first byte is consumed alone, and by this one receive it is retried unless it reads as EOT or CAN; what the other 131 bytes lead to is `UploadRuns.DamagedStartRun` |
| Xmodem.BuildFrame | src/xmodem.c:288-297 | padding, header, payload and running checksum leave exactly the frame in the buffer |
| Xmodem.FrameBytes | src/xmodem.c:288-297 | a frame byte for byte: 0x01, number, complement, the payload filled up with 0x1a to 128, and their sum |
| Xmodem.SendBlock | src/xmodem.c:279-326 | an oversized block sends nothing; otherwise the frame is offered and the one reply read decides the result |
| Xmodem.SendWaitRequest | src/xmodem.c:213-243 | at most ten reads, ended by NAK, CAN or an error |
| Xmodem.SendEnd | src/xmodem.c:248-274 | an EOT offered, and success only for an ACK |
| Xmodem.EndAnswered | src/xmodem.c:248-274 | an EOT that is refused or answered with anything but 0x06 fails, an unanswered one times out |
| Upload.TransmitCancel | src/xmodem.c:196-208 | one CAN, and a second one if the first was taken |
| Upload.SendCb | src/cmd_ascii.c:526-589 | the callback's result, everything it sends and delivers, and the buffer it leaves, for every stream of bytes, timeouts and errors |
| Upload.CmdFput | src/cmd_ascii.c:650-698 | the same for the command's transfer part, from the opening NAK through the first-block phase; success needs a callback that ends well, an accepting server, and a socket that has not been closed |
| Upload.Fput | src/cmd_ascii.c:653-698 | a session leaves the echo on if and only if its opening NAK was queued |
| Upload.CbLoopSound | src/cmd_ascii.c:543-588 | every run of the loop keeps the conduct described by the lemmas below, a non-negative result is 128 times the number of blocks delivered, and the socket is closed exactly when such a result is less than the declared size |
| Upload.FputProper | src/cmd_ascii.c:526-692 | every session, over any input and any answers of queue and socket, keeps that conduct and owes no acknowledgement at its end; if its first write succeeds and it reports success, the blocks delivered make up the declared size, if it closes the socket they do not and it fails, and if its first write fails nothing is delivered |
| Upload.FputOkIff | src/cmd_ascii.c:577-694 | a session that came to its first block and could write it reports success if and only if the server accepts, the callback did not fail, and the blocks delivered make up the declared size |
| Upload.CallbackSound | src/cmd_ascii.c:526-589 | if the first write succeeds, a non-negative result of the callback is 128 times the blocks delivered and the socket is closed exactly when that is less than declared; if not, the result is the positive error number, nothing was delivered and the socket stays open |
| Upload.FailedFirstWrite | src/cmd_ascii.c:533-537 | a session whose first write fails leaves the socket open for any declared size, has delivered nothing, and succeeds if and only if the server accepts |
| Upload.DeliveredAreFrames | src/cmd_ascii.c:546-558 | the blocks delivered are the payloads of frames heard one after the other without overlap, numbered 1, 2, 3, ... modulo 256 |
| Upload.DeliveryAcked | src/cmd_ascii.c:549-558 | every full write is followed at once by an ACK |
| Upload.AckAnswers | src/xmodem.c:105-153 | an ACK is sent only right after a delivery or for an EOT just heard at the start of a message, not inside a frame |
| Upload.ConductCounts | src/cmd_ascii.c:544-575 | the deliveries and NAKs that the conduct counts are those of the recorded events |
| Upload.NaksBounded | src/cmd_ascii.c:562-570 | at no moment of a session have more than eleven NAKs gone out since the last delivery, or since the start |
| Upload.AttemptsBounded | src/cmd_ascii.c:544-575 | the number of receive attempts is bounded by blocks received and outcomes that no counter sees |
| UploadRuns.CbLoopDelivers | src/cmd_ascii.c:543-588 | from any good block on, the frames that follow in order and an EOT are all delivered, the result counts them, and the socket is closed exactly when more was declared |
| UploadRuns.FputDelivers | src/cmd_ascii.c:526-692 | a willing server gets the whole file: behind up to ten pauses or bytes that begin no message, frames 1 to n, through every wrap of the number, and an EOT deliver all n payloads in order, and the session reports success if and only if at most 128n bytes were declared |
| UploadRuns.FputGivesUp | src/cmd_ascii.c:662-675 | at the eleventh pause or such byte it gives up: exactly eleven NAKs and two CANs have been offered, nothing is delivered, and the session fails |
| UploadRuns.FputRefuses | src/cmd_ascii.c:676-681 | behind up to ten of them, a CAN, an error or a frame numbered 0 ends the session in a failure, without another byte |
| UploadRuns.RefusedWrite | src/cmd_ascii.c:533-553 | a good block that the socket refuses ends the session with two CANs and the negative error number as its result; for the first block the result is the positive number |
| UploadRuns.CancelOffers | src/xmodem.c:196-208 | cancelling offers 0x18, and a second one if and only if the first was queued |
| UploadRuns.UnreachedUpload | src/cmd_ascii.c:653-686 | a session whose opening NAK is refused, or that does not reach the server, fails; in the first case nothing else is said |
| UploadRuns.EmptyUpload | src/cmd_ascii.c:662-680 | a session that begins with an EOT fails and delivers nothing |
| UploadRuns.DuplicateIgnored | src/cmd_ascii.c:544-575 | a block sent again is consumed without ACK, NAK, delivery or count |
| UploadRuns.GarbledRun | src/cmd_ascii.c:562-586 | over any bytes, the callback asks again for each that begins no message, gives up at the twelfth since the last block, and otherwise goes by the first SOH, EOT or CAN; concluded early, it closes the socket exactly when more was declared than has come |
| UploadRuns.DamagedStartRun | src/xmodem.c:141-176 | the same for the expected frame with any other byte in place of its SOH: abort, early conclusion with the bytes counted so far and the socket closed if they are too few, or a misaligned collect |
| UploadRuns.BlockFour | src/xmodem.c:146-153 | block 4 with almost any other first byte concludes the upload with the bytes counted so far and without another delivery, and closes the socket exactly when more was declared |
| UploadRuns.DamagedFirstBlock | src/cmd_ascii.c:662-680 | the first block with almost any other first byte, and a pause behind it, makes the session fail |
| Download.PayloadLen | src/cmd_ascii.c:709-713 | the remainder expression of the code is the number of bytes left, for the last block, and 128 otherwise |
| Download.Sender.SendChunk | src/cmd_ascii.c:708-735 | up to three tries at one block; the number advances only on an ACK |
| Download.Sender.FgetCb | src/cmd_ascii.c:703-738 | the callback over one fragment: its result, what it sends, and the block number it leaves |
| Download.CmdFget | src/cmd_ascii.c:757-796 | request, fragments, EOT and cancellation of a whole session |
| Download.BlockTries | src/cmd_ascii.c:708-735 | after at most two NAKs or pauses, ACK acknowledges the block, CAN cancels with -2, any other byte or an error fails with -1, each after one more offer of the same frame than there were refusals; a third refusal passes the block over |
| Download.CallbackTries | src/cmd_ascii.c:707-736 | the same in the callback: it goes on 128 bytes further, with the number one higher behind an ACK and the same one behind a third refusal, and ends at anything else |
| Download.RefusedStops | src/cmd_ascii.c:719-731 | in every session, the frame answered with CAN, or with anything but ACK, NAK or a pause, is the last one offered, and the session fails |
| Download.AsksWithin | src/xmodem.c:213-243 | the wait for the request takes ten reads at most: pauses and other bytes are passed over, NAK ends it well, CAN and errors end it |
| Download.IncompleteFails | src/cmd_ascii.c:759-777 | a download that is not asked for, or that the client does not complete, fails and is cancelled |
| Download.FgetFollows | src/cmd_ascii.c:701-796 | for every stream of replies and every list of fragments, each frame offered is the one an orderly sender offers next: the block in hand, with the number it stands at |
| Download.AckedInOrder | src/cmd_ascii.c:707-736 | unconditionally, the acknowledged blocks are an in-order subsequence of the file's blocks, the number is one more than their count modulo 256, and at most three frames go out per block |
| Download.AckedCarry | src/cmd_ascii.c:714-734 | the k-th acknowledged frame carries the k-th acknowledged block and the number k modulo 256 |
| Download.AllChunksJoin | src/cmd_ascii.c:707-714 | the blocks of all fragments join to the file, and with whole-block fragments all but the last are full |
| Download.WholeFile | src/cmd_ascii.c:701-738 | when every block was acknowledged and every fragment but the last is a multiple of 128, the acknowledged payloads cut to the file's length are the file |
| Transfer.StepKeeps | src/cmd_ascii.c:544-575 | every step of sender, receiver and line, loss, noise and visible damage included, keeps the invariant that ties the numbers in flight to the blocks taken |
| Transfer.RunSound | src/cmd_ascii.c:707-736 | hence every reachable state has it |
| Transfer.NumbersNeverAlias | src/cmd_ascii.c:707-736 | whatever is lost, damaged or given up, acknowledged <= taken <= acknowledged + 1, and each frame in flight is the last one taken or the next, with its number modulo 256 |
| Transfer.TakenInOrder | src/cmd_ascii.c:544-558 | unconditionally, the payloads taken are padded blocks of the file, in order and none twice |
| Transfer.PrefixWithoutLoss | src/cmd_ascii.c:707-736 | while no block has used up its tries the receiver holds a prefix of the padded file, every frame in flight is the last block taken or the next, and a finished receiver holds all of it |
| Transfer.WholeFileIff | src/cmd_ascii.c:708-736 | a finished receiver holds the whole file if and only if every block before the last was acknowledged within its tries and some step of the run was the hearing of the last one's frame |
| Transfer.EnoughIffWhole | src/cmd_ascii.c:583-586 | over every run, whatever is lost or given up and however the receiver ends: with a size of the file's number of blocks declared, the test is passed if and only if every block has arrived, in its place |
| Transfer.EnoughIffFile | src/cmd_ascii.c:583-586 | the same for a file cut into blocks: the test is passed if and only if what has arrived begins with the file |
| Transfer.UndisturbedRun | src/cmd_ascii.c:707-738 | for every non-empty file there is a run in which both ends finish and the file arrives whole, through every wrap of the block number |
| Transfer.SilentLoss | src/cmd_ascii.c:708-736 | two blocks and a run, three lost frames, in which both ends finish and only the second block arrives; the test of the declared size is passed exactly by sizes up to 128 |
| Transfer.EmptyFile | src/cmd_ascii.c:662-680 | for an empty file the sender ends well and the receiver refuses |
| Transfer.StrayEot | src/cmd_ascii.c:559-586 | an EOT at the start of a message, wherever it comes from, finishes the receiver with what it has taken so far, and the declared size tells exactly whether that is the whole file |
| Refinement.ReceiveUnderstands | src/xmodem.c:125-191 | a message on the driver's line, frame, fragment or single byte, has the outcome it has in the system, and consumes itself and its pause |
| Refinement.TurnFollows | src/cmd_ascii.c:544-586 | one pass of the callback's loop is one step of the system's receiver, in number, retries, blocks taken, bytes said, the end, and the closing of the socket |
| Refinement.LoopFollows | src/cmd_ascii.c:543-588 | the whole loop over any list of messages is the system's receiver hearing them |
| Refinement.FirstTurnFollows | src/cmd_ascii.c:662-681 | the same for one pass of the first-block loop, up to the handing over of the first block |
| Sessions.FputFollows | src/cmd_ascii.c:526-694 | the whole upload command, over any list of messages that ends it, delivers and says what the system's receiver takes and says, and succeeds if and only if the server accepts and that receiver took a block, did not give up and took what was declared |
| Sessions.RunHears | src/cmd_ascii.c:543-588 | in every run the receiver is where hearing the messages and pauses of that run, one after the other, takes it, and it has said in that run what hearing them makes it say |
| Sessions.RunIsFput | src/cmd_ascii.c:526-694 | for every run of the system: over exactly the messages and pauses that the run's receiver hears, the upload command delivers what that receiver took and offers what it said, and succeeds if and only if the server accepts and that receiver took a block, did not give up and took what was declared |
| Sessions.UploadIsWhole | src/cmd_ascii.c:526-694 | over what the run's receiver hears, and with the file's size declared, a successful upload has delivered the whole file, and one whose receiver finished is successful exactly then |
| Refinement.TrySends | src/xmodem.c:288-301 | each try puts on the system's line exactly the frame the driver offers |
| Refinement.TryFrameFollows | src/cmd_ascii.c:708-735 | the tries at one block leave the system's sender where they leave the driver: acknowledged, passed over or aborted, number and port alike |
| Refinement.FragmentsFollow | src/cmd_ascii.c:703-738 | the same over all fragments of a download |
| Refinement.SessionFollows | src/cmd_ascii.c:757-792 | the download command succeeds if and only if the system's sender, against the same replies, ends its session, and else that aborts |
| Sessions.SessionSays | src/cmd_ascii.c:701-796 | over a whole download, for any replies and fragments, the bytes offered are those of the frames and control codes that the system's sender puts on the line, in order |
| Sessions.RunIsFget | src/cmd_ascii.c:757-792 | for every run of the system: over exactly the replies that the run's sender reads, the download command leaves every block as that sender does, offers the frames and control codes that it puts on the line, in order, and succeeds if and only if it ends well |
| SipfObject.ObjectParse | lib/sipf/src/sipf_object.c:21-42 | an unusable length is refused and nothing is written; otherwise type, tag, length and value of the record come out and the rest of the value buffer is untouched |
| SipfObject.ObjDown | lib/sipf/src/sipf_object.c:267-342 | each refusal of an answer with its code, and the fields and object offsets of an accepted one, for every content length |
| SipfObject.AcceptedIff | lib/sipf/src/sipf_object.c:267-318 | an answer is accepted if and only if the request went well with status OK, 12 to 1511 bytes of content, type 0x12 and result 0; then identifier, both times and the remaining number are the bytes at their places; and which code each refusal has |
| SipfObject.WalkObjects | lib/sipf/src/sipf_object.c:320-340 | the loop ends, with at most 255 offsets |
| SipfObject.AnswerInsideIff | lib/sipf/src/sipf_object.c:319-340 | in a body of any number of cells, the records found lie inside if and only if the last of them does; none reaches further than 1770 cells, and an answer shorter than its fields yields one record |
| SipfObject.TruncatedAnswer | lib/sipf/src/sipf_object.c:292-340 | accepted answers whose last record says more than the content holds: they are walked as if it did, and stay inside a body if and only if it has that many cells behind the content |
| SipfObject.WalkFindsStarts | lib/sipf/src/sipf_object.c:326-340 | over the records of any object list the walk finds exactly the starts of the first 255 |
| SipfObject.ParseAtStart | lib/sipf/src/sipf_object.c:36-39 | parsing at such a start recovers type, tag, length and value |
| SipfObject.AllParsedIffShort | lib/sipf/src/sipf_object.c:36-39 | every object is parsed back from its start if and only if no value is longer than 255 bytes |
| SipfObject.DownRoundTrip | lib/sipf/src/sipf_object.c:277-342 | an answer carrying any list of short values is read back: identifier, both times, remains, and the starts of the first 255 objects |
| SipfObject.ObjUpPacket | lib/sipf/src/sipf_object.c:139-167 | for every sixteen-bit size, exactly 1488 to 65523 are refused without a write; otherwise the buffer begins with the packet, is unchanged behind it, and the returned length is that of the packet or, for the twelve largest sizes, has wrapped |
| SipfObject.GuardIff | lib/sipf/src/sipf_object.c:141-146 | the guard keeps what is written within the 1500-byte buffer exactly for sizes up to 65523 |
| SipfObject.ObjUp | lib/sipf/src/sipf_object.c:217-226 | what is sent for any list: the packet of its encoding, a refusal, or, for a list the encoder refused, 65535 bytes with a length of 11 |
| SipfObject.UpFitsIff | lib/sipf/src/sipf_object.c:217-226 | what is written stays within the request buffer if and only if the encoder took the whole list; the 512-byte payload buffer is kept as well if and only if, besides, 3n plus the value bytes are at most 512 |
| SipfObject.PacketFields | lib/sipf/src/sipf_object.c:148-167 | the size field decodes, big-endian, to the payload's length, and the payload follows it |
| SipfObject.CreateObjUpPayload | lib/sipf/src/sipf_object.c:44-86 | refused if and only if some value is longer than 220 bytes or of odd length where it is swapped; otherwise the returned length is the sum of 3 plus the value lengths; the memory holds the records, zeros up to the buffer's size and what was there behind it |
| SipfObject.EncodedBytes | lib/sipf/src/sipf_object.c:52-85 | one object byte for byte: type, tag, length, and the value as it is for types 0x00, 0x01, 0x10 and 0x20 and in reverse order for all others, so that for types 2 to 9 it reads the same in big-endian order as the source in little-endian |
| SipfObject.RefusedIff | lib/sipf/src/sipf_object.c:54-75 | a list is refused if and only if some value is longer than 220 bytes, or odd in length and of a type that is reversed |
| SipfObject.RefusedLeaves | lib/sipf/src/sipf_object.c:54-75 | what a refused list has left in the buffer: the objects before, and the head of one refused as odd |
| SipfObject.SwapKeepsNumber | lib/sipf/src/sipf_object.c:71-82 | for every type but 0x00, 0x01, 0x10 and 0x20, the value sent reads as a big-endian number as the source does as a little-endian one, and swapping twice changes nothing |
| SipfObject.UpRoundTrip | lib/sipf/src/sipf_object.c:52-85 | walking and parsing what the encoder wrote returns every object, its value as it is for types 0x00, 0x01, 0x10 and 0x20 and reversed for all others |
| TxCommand.HexToUint8 | src/cmd_ascii.c:40-62 | no error if and only if both characters are hexadecimal digits, and then their value |
| Bytes.PairIff | src/cmd_ascii.c:40-62 | two characters read as a byte if and only if they are its digits, the high one first, each as 0 to 9, A to F or a to f |
| TxCommand.TextLength | src/cmd_ascii.c:229-323 | a text that spells a list has two characters per byte of its records and one more per object |
| TxCommand.RoomIff | src/cmd_ascii.c:201-201 | the records fit the 1024-byte send buffer exactly when the text has at most 2048 characters more than objects |
| TxCommand.OneReading | src/cmd_ascii.c:281-315 | a text spells at most one list |
| TxCommand.ParseIffSpells | src/cmd_ascii.c:156-325 | soundness and completeness: a text is accepted with a list if and only if it has eight characters, spells that list, the list is not empty, and each length fits its type |
| TxCommand.AdmittedIff | src/cmd_ascii.c:156-196 | one object's text is accepted if and only if it has a value whose length modulo 256 is 1, 2, 4 or 8 for types 0 and 1, 2 and 3, 4 and 5, 6 and 7, is 4 for type 8 and 8 for type 9, any for 0x10 and 0x20; no other type is |
| TxCommand.Parse | src/cmd_ascii.c:202-328 | for every argument of up to 65529 bytes and whatever stands behind it, the state loop ends; it accepts exactly the texts its run describes, leaves the records of the list at the front of the send buffer, writes up to the stated cell and nothing from there on, and in the text only blanks separators |
| TxCommand.RunIsParse | src/cmd_ascii.c:218-320 | with NULs behind the argument the run accepts what the text says |
| TxCommand.AcceptedTop | src/cmd_ascii.c:260-317 | what is accepted has been written as far as its records reach |
| TxCommand.TopBounded | src/cmd_ascii.c:260-317 | no text, accepted or refused, is written further than half its characters and three |
| TxCommand.RefusedTooLate | src/cmd_ascii.c:308-313 | a text refused at its last character has been written up to there: within the 1024 bytes if and only if its value has at most 1020 |
| TxCommand.LongValueAccepted | src/cmd_ascii.c:224-302 | a value of more than 255 bytes is accepted if its length modulo 256 is one of these, and its record then says less than was written |
| TxCommand.LongNumberAccepted | src/cmd_ascii.c:156-196 | 257 bytes are accepted for a one-byte number |
| TxCommand.ShortIsLegal | src/cmd_ascii.c:156-196 | in an accepted list every value of up to 255 bytes has one of these lengths |
| TxCommand.TextRoundTrip | lib/sipf/src/sipf_object.c:319-340 | what the command sends, coming back in an answer, is walked and parsed to the objects typed, up to 255 of them |
| TypedTx.CmdTx | src/cmd_ascii.c:201-328 | the command up to its request: refused without a packet, or the packet of exactly the records, or -1 when they are too many |
| TypedTx.TypedIsSent | src/cmd_ascii.c:978-999 | from keys to packet: `$`, `$TX`, any accepted text whose records fit the send buffer, and Enter are one line, dispatched to `$TX`, whose run lays down just the records; the packet takes them, says their length, and walked and parsed gives the objects typed |
| TxRaw.Parse | src/cmd_ascii.c:343-399 | whatever stands behind the text in its buffer, the in-place parser hands over bytes exactly for the contents that the next lemmas describe, and touches two separators only |
| TxRaw.SizeIff | src/cmd_ascii.c:365-370 | which size fields are read as which number: two digits, one behind white space, a plus or a minus sign, and an empty one |
| TxRaw.EndIff | src/cmd_ascii.c:392-396 | behind the bytes the text must end, or have a NUL, CR or LF |
| TxRaw.UpToNul | src/cmd_ascii.c:373-396 | a text with a NUL behind it is read as the text alone |
| TxRaw.RawTextIff | src/cmd_ascii.c:365-396 | with a two-digit size, an argument is accepted if and only if it spells exactly that many bytes and the line ends there |
| TxRaw.RawRoundTrip | src/cmd_ascii.c:343-399 | the canonical argument of every 1 to 255 bytes is read back as those bytes |
| TxRaw.RawAgreesWithTx | src/cmd_ascii.c:325-399 | for every list `$TX` accepts with at most 255 bytes of records, `$TXRAW` of their hexadecimal text hands over the same bytes, and so sends the same packet |
| RxReport.TextLength | src/cmd_ascii.c:444-480 | the report has 82 + 11n + 2V characters, equally 82 + 5n + 2S, and fits the 4096-byte output with its NUL exactly when 5n + 2S is at most 4013 |
| RxReport.ReportReadBack | src/cmd_ascii.c:444-480 | reading its lines back recovers identifier, both times, remains, count and every object |
| RxReport.CmdRx | src/cmd_ascii.c:417-481 | what is printed for every outcome of the request and every answer, ended by a NUL |
| RxReport.ShortAnswers | src/cmd_ascii.c:417-442 | an argument is complained about, a failed request prints NG, and an accepted answer without objects prints OK |
| RxReport.HeadOfBytes | src/cmd_ascii.c:444-464 | the lines above the objects are the digits of the body's identifier, time of sending, time of reception and remaining number, and of the count of objects, in this order |
| RxReport.LineOfBytes | src/cmd_ascii.c:465-477 | each object's line is the digits of its second, first and third byte and of its value |
| RxReport.AnswerFitsIff | src/cmd_ascii.c:444-480 | what is printed fits the 4096-byte output with its NUL if and only if 5n + 2S is at most 4013 for the n objects of S bytes that the answer yields |
| RxReport.AnswerBounded | lib/sipf/src/sipf_object.c:326-340 | no answer within the accepted content length yields more than 4799 characters |
| RxReport.LongAnswer | src/cmd_ascii.c:465-477 | an answer of 1417 bytes, 255 objects of two and three, that fits the 1500-byte response buffer behind a header of 83, and whose report has 4097 characters |
| RxReport.AnswerReadBack | src/cmd_ascii.c:430-480 | from an answer to the printed report and back, the first 255 objects and all fields survive |
| LineEditor.Editor.CmdParse | src/cmd.c:79-87 | one byte moves the state, index and 4096-byte buffer exactly as the edited text prescribes, and hands over a line or the overflow complaint |
| LineEditor.Editor.Feed | src/main.c:450-456 | fed any stream, the editor hands over exactly the lines of the pure fold over it |
| LineEditor.FoldAppend | src/cmd.c:26-70 | the fold and its lines are compositional over concatenated streams |
| LineEditor.PlainLine | src/cmd.c:26-62 | a line typed without backspaces is handed over as typed, with nothing but NULs behind it |
| LineEditor.NothingStale | src/cmd.c:29-59 | in a stream without backspaces every line handed over has only NULs behind it |
| LineEditor.EraseInvisible | src/cmd.c:50-59 | typing a character and erasing it, anywhere in any stream, changes the text of no line |
| LineEditor.EmptyLineAbandoned | src/cmd.c:50-57 | a backspace on an empty line abandons it |
| LineEditor.KeysEditBuffer | src/cmd.c:50-59 | a character overwrites the cell behind the line and nothing else, whatever a backspace has left there, and a backspace changes no cell |
| LineEditor.OutsideIgnored | src/cmd.c:26-34 | outside a line everything but `$` is ignored |
| LineEditor.EndedBy | src/cmd.c:38-49 | LF and CR end a line, and no other byte does |
| LineEditor.OverlongRefused | src/cmd.c:58-67 | the 4097th character is answered with a complaint, and the line is given up |
| Dispatch.CmdAsciiParse | src/cmd_ascii.c:980-999 | the loop returns the first matching entry and the sixteen-bit length handed to its handler, or none when none matches |
| Dispatch.ArgLenIff | src/cmd_ascii.c:987-991 | that length is the text's behind the name unless the name is longer than the line, which it is exactly when it ends at a space behind the text; on clean lines it never is |
| Dispatch.FirstWordIffClean | src/cmd_ascii.c:987-989 | every name matches exactly when it is the line's first word, if and only if no space stands behind a text that has none |
| Dispatch.TypedLinesClean | src/cmd.c:29-59 | every line typed without backspaces is such a line |
| Dispatch.SearchFindsFirstWord | src/cmd_ascii.c:984-995 | on such lines the entry found is the first word, if the table has it, and name and argument make up the line |
| Dispatch.OrderIndependent | src/cmd_ascii.c:978-995 | on such lines any permutation of any table chooses the same command |
| Dispatch.TableSpelled | src/cmd_ascii.c:978-978 | the thirteen names as text, in their order |
| Dispatch.AtMostOneMatch | src/cmd_ascii.c:978-978 | no such line matches two of the thirteen names |
| Dispatch.StaleSpaceAmbiguous | src/cmd.c:50-56 | keys, four of them backspaces, after which TX and TXRAW both match, TXRAW is chosen, and the length handed on is 65533 |
| UpdateGate.Commands.CmdUnlock | src/cmd_ascii.c:807-828 | only an argument led by a space and said to be seven characters long moves the flag |
| UpdateGate.Commands.CmdUpdate | src/cmd_ascii.c:834-870 | an update is asked for only when unlocked and for the two argument forms, with the image each names, and only then a NUL is stored where the length says the version ends |
| UpdateGate.Commands.Execute | src/cmd_ascii.c:79-81 | flag and recorded starts after one command of any name |
| UpdateGate.FlagAfter | src/cmd_ascii.c:79-862 | one more command: W, R, $TXRAW and a seven-character $UNLOCK argument led by a space lock, but for the exact one, which unlocks; every other leaves the flag; and $UPDATE alone starts an update, when unlocked and with an argument that names an image |
| UpdateGate.ImageIff | src/cmd_ascii.c:842-862 | which arguments name which image: ` UPDATE` alone `app_update.bin`, ` VERSION ` with more behind it that text up to a NUL, and no other |
| UpdateGate.VersionNamed | src/cmd_ascii.c:849-858 | a version without a NUL is the name of the image |
| UpdateGate.FlagIffLastUnlocks | src/cmd_ascii.c:807-826 | after every history the flag is set if and only if there was the exact unlock, and no W, R, $TXRAW or other seven-character $UNLOCK command led by a space since |
| UpdateGate.StartsGated | src/cmd_ascii.c:836-862 | every recorded start belongs to an UPDATE command whose preceding history ends unlocked, with that command's image |
| UpdateGate.UnlocksIffText | src/cmd_ascii.c:978-999 | a line unlocks if and only if its text is `$UNLOCK UNLOCK`, whatever backspaces have left behind it and whatever length is handed on |
| UpdateGate.UpdateNeedsUnlockLine | src/cmd_ascii.c:978-999 | from keys to updates: in any stream of keys, among the lines before the one that started an update there is an unlock line, and none of these commands came since |
| UpdateGate.NulInsideIff | src/cmd_ascii.c:857-857 | the NUL behind a version stays in the input buffer if and only if the name is not longer than the line and the line does not fill the buffer |
| UpdateGate.ErasedVersion | src/cmd_ascii.c:857-857 | keys, the unlock line, a version taken back to `$UPDAT` and Enter among them, after which the history has one started update, whose command was handed a length of 65535, so that the NUL goes to cell 65542 |
| UrlSplit.ParseUrl | lib/sipf/src/sipf_client_http.c:74-139 | exactly the delimiters found in turn become NULs, the out-pointers lie behind the third and fourth, and fewer than four are an error |
| UrlSplit.AcceptedIff | lib/sipf/src/sipf_client_http.c:93-132 | accepted are exactly the texts with a colon and three slashes somewhere behind it, in that order |
| UrlSplit.SplitOrdinary | lib/sipf/src/sipf_client_http.c:74-139 | for protocol, host and path free of delimiters, with a NUL, CR or LF behind, the three C strings are those parts, and joining them gives back the URL |
| UrlSplit.ShiftPath | lib/sipf/src/sipf_file.c:302-305 | the descending overlapping loop moves the path with its NUL up by one, puts a slash in front, and changes nothing else |
| UrlSplit.ShiftedParts | lib/sipf/src/sipf_file.c:302-305 | protocol and host are unchanged by the move and the path becomes "/" and what it was |
| UrlSplit.Prepare | lib/sipf/src/sipf_file.c:279-305 | splitting, choice of transport and move in sequence, with a NUL anywhere behind the URL; every other protocol is refused |
| UrlSplit.TransportIff | lib/sipf/src/sipf_file.c:279-299 | `https` asks for TLS, `http` does without, and every other protocol is refused |
| UrlSplit.UploadTarget | lib/sipf/src/sipf_file.c:279-305 | for an ordinary URL the whole preparation ends with its protocol, its host and "/" followed by its path |
| Serial.Port.PutAll | src/uart_broker.c:77-89 | the counting loop offers bytes up to the first refusal and returns how many were taken |
| UartBroker.Broker.FifoCallback | src/uart_broker.c:31-52 | one arrival: queued unless 1024 wait, and echoed if the echo is on, even when it is dropped |
| UartBroker.Broker.Put | src/uart_broker.c:77-89 | with any activity of interrupt and thread while each byte waits, exactly a prefix is accepted, in order, and fewer only when 256 are queued |
| UartBroker.Broker.Read | src/uart_broker.c:111-123 | likewise the bytes read are delivered in order into the front of the buffer, and fewer only when the queue stays empty |
| UartBroker.SentHeldQueuedIsAccepted | src/uart_broker.c:62-89 | in every interleaving, the thread's bytes on the wire, the byte it holds and the transmit queue make up all accepted bytes, in order |
| UartBroker.SincePurge | src/uart_broker.c:41-123 | since the last purge, bytes read and bytes waiting are an in-order part of the arrivals, short by the number dropped |
| UartBroker.NothingLostIff | src/uart_broker.c:43-43 | they are all of the arrivals if and only if no byte came in while 1024 were queued |
| UartBroker.DropsNothingIff | src/uart_broker.c:43-43 | a run drops nothing if and only if fewer than 1024 bytes wait at each arrival |
| UartBroker.RoomInQueues | src/uart_broker.c:31-75 | an arrival is queued if and only if fewer than 1024 wait, and a byte put if and only if fewer than 256 do |
| UartBroker.WireWithEcho | src/uart_broker.c:44-67 | from reset with the echo left on, the wire is a shuffle of the arrivals, dropped or not, and what the thread sent |
| UartBroker.EchoSwitched | src/uart_broker.c:44-46 | from the moment the echo is switched on, every arrival is echoed until it is switched again, and from the moment it is switched off, none |
| UartBroker.TransferChannel | src/xmodem.c:83-92 | from the start of a block transfer until the echo returns, the wire carries exactly what was pending and what the transfer got accepted, and what it reads is an in-order part of what arrived |
| UartBroker.PutMeetsVerdicts | src/uart_broker.c:72-89 | every put, whatever goes on meanwhile, is an offer of the transfer's port under some script of verdicts |
| UartBroker.GetsMeetArrivals | src/uart_broker.c:96-104 | every series of timed reads is a script of arrivals for the transfer's port, with the bytes handed out in order |
| UartBroker.CallsMeetPort | src/uart_broker.c:72-104 | any list of puts and timed reads, with any background activity before and during each, is answered call by call as the transfer's port answers it under one script of verdicts and one of arrivals, with the bytes accepted and read that those answers say |
| UartBroker.EveryScriptHappens | src/uart_broker.c:31-104 | and from an empty queue every script of bytes and pauses is such a series |

## Left out

- Upload.CmdFput: reading the file name and size (src/cmd_ascii.c:595-646), URL requests and the completion notice are not modelled; whether HTTP reaches the callback and whether the server accepts are parameters, and a negative result of the callback or a socket it has closed, from which no answer can be read, counts as a failed upload: the HTTP client is not part of this model. `send` writes everything or fails.
- Download.CmdFget: the download client is a list of fragments and the news whether it ended without an error. A fragment that is neither a multiple of 128 nor the last would be padded in the middle of the file, which is why `Download.WholeFile` asks for alignment.
- Upload.CbLoopSound: the running total is an unbounded integer, not a 32-bit one.
- Transfer.StepKeeps: three kinds of damage are excluded, and with them the theorems about all runs do not hold: damage after which an EOT stands where the receiver begins to read a message (an EOT in place of another byte, or one already inside a frame that is brought to the front, as in `UploadRuns.BlockFour`), which `Transfer.StrayEot` shows to end the session; damage that leaves a frame consistent in complement and checksum but not the one sent; and a reply turned into an ACK. All other damage, also to the first byte of a frame and to EOT and CAN, is noise that takes the place of any stretch of the line or comes in between. Time is left out: any read may time out at any moment, so that the 500, 1000 and 3000 ms limits do not order anything.
- Sessions.RunIsFput: runs in which the receiver stops of its own accord, for a failed write or read, have no script here, nor in `Sessions.RunIsFget` those in which the download is cancelled.
- Refinement.TurnFollows: the transmit queue takes everything and the socket every write, and messages are those the receiver's reads delimit; the scripts of `Upload` and `Download` also cover the rest.
- Xmodem.SendBlock: the branch for a negative count of `UartBrokerPut` is kept, although that function never returns one. A partly queued frame is recorded as such and its reply is read as in the code.
- TxCommand.Parse: input and send buffer stand for the memory from their first byte on, as far as the run reaches. For lengths from 65530 on, which only a wrapped length has, the source's sixteen-bit input index can wrap; the model's does not. Sending and printing the returned identifier are not modelled.
- TypedTx.CmdTx: the same, up to 65529 characters; the HTTP request is left out.
- TxCommand.ParseIffSpells: speaks of texts with NULs behind them, as behind any line without backspaces; `TxCommand.Parse` covers the rest.
- TxRaw.Parse: `strtol` is modelled on strings of at most two characters, with its white space and signs; the buffer reaches as far as the size field can make the parser read.
- TxRaw.RawAgreesWithTx: 255 bytes is as much as the size field of `$TXRAW` can say.
- SipfObject.ObjUpPacket: the buffers have as many cells as a sixteen-bit size can reach, in place of the program's 1500 and 512; what the program's own memory holds behind these is not modelled, nor the HTTP exchange.
- SipfObject.ObjDown: the response is the memory from its body on, a status text and a content length; the request's result and null pointers are parameters or left out.
- RxReport.CmdRx: the output has 4800 cells in place of 4096, and results of the request of -256 and less are outside the model, because the code keeps them in one byte.
- LineEditor.Editor.CmdParse: the buffer has one cell more than the program's, because an overlong line is stored before the overflow is noticed (src/cmd.c:59-60). The response of the command is not part of the editor's result.
- Dispatch.SearchFindsFirstWord: lines on which a space left by backspaces stands behind a text without one are characterised, with the length they hand on, and followed into `$UNLOCK` and `$UPDATE` only.
- UpdateGate.UpdateNeedsUnlockLine: the memory behind the input buffer is arbitrary and may differ from line to line; that a handler may have changed it is not followed.
- UpdateGate.Commands.Execute: commands other than W, R, TXRAW, UNLOCK and UPDATE leave the flag alone and are not carried out; the start of an update is an event.
- UrlSplit.Prepare: behind the NUL that ends the URL's buffer there is one cell more, into which a path reaching to the end is moved. The request that fetches the URL is left out.
- UartBroker.Broker.Put: waiting for room is a list of what interrupt and thread do meanwhile; a second caller's steps are covered by the interleaving lemmas, not by the method. Mutex, priorities and time are left out.
- Registers, authentication, GNSS, the update download, the main loop's LED and mode handling, logging, sockets, TLS, DNS and the HTTP and download clients: driver and library calls without a property of their own here.
- The size of the progress line that ends `$FPUT` and `$FGET` and the NG responses of commands: fixed texts.
