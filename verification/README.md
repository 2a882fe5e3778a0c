# Verified models of the Telegram call gateway

Dafny models of the call path of the Telegram provider module: the C++ VoIP library
(`tg2sip/libtgvoip`) and the gateway between SIP and Telegram (`tg2sip/tg2sip`). Each part
is modelled in the form its source has. Objects that change in place are classes, and every
method of theirs is proved equal to a function of the old state; the theorems are lemmas
about those functions, over all inputs or over whole runs.

`dafny verify dfyconfig.toml` checks everything.

## What is modelled

**Packet protocol.** `Serial` is the comparison of 32-bit sequence numbers. `ReceiveWindow`
is the window of 32 slots that decides which packets are accepted, and the mask that reports
it. `Extras` is the list of small messages that ride in every header until a packet with them
is acknowledged; `ExtrasOverLossyChannel` steps two peers over a channel that loses, repeats
and reorders, and `ExtrasInOrder` one over which headers stay in order. `Streams`,
`PacketLayout`, `PacketEnvelope` and `PacketStreams` are the bytes: streams, the three header
layouts, and the padded, hashed and encrypted envelope. `PacketAccepted` writes out which
bytes are a packet, piece by piece, and proves that just these are taken.

**JSON.** `JsonValue` and `JsonPrinter` are values and `dump`; `JsonGrammar` and `JsonParser`
are the parser, with an index that also steps backwards; `JsonRoundTrip` and `JsonAccepted`
are about the two together, and `JsonNesting` is about the brackets of a text. `JsonSyntax` has
the texts of RFC 8259 as trees, told from the side of the writer, with the white space and
comments between tokens; `JsonTokens` and `JsonLanguage` prove that the parser reads just these
texts, as what the trees mean. A `char` stands for one byte.

**Jitter buffer.** `BufferPool` is the pool with its bitmask and `HistoricBuffer` the ring of
measurements. `JitterModel` has the operations as functions; `JitterSlots`,
`JitterMeasurements` and `JitterBuffer` are the objects that carry them out in place.
`JitterRuns` and `JitterPlaybackTime` are about whole runs, `JitterDelivery` about the output
that a packet leaves with, and `JitterLosses` about what the counters and measurements count,
when the buffer gives up and when it resyncs. The slots with their pool, and
the three rings with the expected arrival time, are objects of their own, and the fields that
steer the delay, and the counters, are held in one record each.

**Gateway.** `GatewayModel` has the transition tables, the actions and the routing as
functions, `Gateway` the objects. Answers from Telegram and from the SIP side are parameters.
`GatewayRuns` is about the ownership of call ids, `GatewayProgress` about what starts, moves on
and ends a bridge, and `GatewayCalls` about who is called, and when nobody is.

**Encoder.** `BlockingQueue` is the bounded queue; `EncoderPipeline` steps the capture
callback, the encoder thread and `Stop` through every interleaving of their atomic actions.

**Timers.** `MessageQueue` is the sorted queue of `MessageThread`, as an object and as a
state machine over posts, cancellations, batches and deliveries.

**Video, congestion, TCP, endpoints.** `VideoFrames` cuts frames and puts them together,
`CongestionControl` is the table of packets in flight, `TcpFraming` the framing of the
obfuscated TCP socket. `EndpointModel`, `EndpointRuns` and `EndpointTable` are the table of
endpoints and the two names, current endpoint and preferred relay, that point into it;
`EndpointChoices` is about which endpoint is chosen.

## What was found

- The mask in a packet header is read one place off. The numbers the peer takes as received
  are those of the filled slots, each moved down by one (`ReportedNumbers`), so that a packet
  that never arrived can be reported as received (`ReportIsUnsound`; `ReportIsTrueExactly` says
  when a report is true). Extras rely on the acknowledged number alone.
- A packet that moves the window by more than 31 leaves its own slot empty, and is accepted
  once more when it is repeated (`JumpIsAcceptedTwice`); all others are accepted once
  (`AcceptedAtMostOnce`, `AcceptedExactly`).
- An extra leaves only after delivery if the number that it gets is above all written before,
  or all that was written is acknowledged (`ExtraLeavesOnceDelivered`, `EachGivingIsDelivered`).
  With any other number the acknowledgement of an older header can take it (`LosesExactly`, with
  runs in `LateNumberLosesExtra` and `GivenAgainIsLost`). The sender knows both before it writes.
- `dontIncMinDelay` of the jitter buffer is set and never counted down, so that `Tick` raises
  the wanted delay at most once in the life of a buffer (`TickRaisesOnce`). The branch of
  `PutInternal` for packets that are too late cannot be reached; such packets are stored.
- A timer cancelled by a message that is being delivered still fires if it is already in the
  batch, or repeats and is the one being delivered; `CancelFromInside` says exactly when, and
  `CancelledFiresAgain` is a run.
- A fragment of a video frame that comes twice can complete the frame with a part of an older
  one, just if such a part is left in the assembler (`RepeatsAreHarmlessExactly`,
  `StalePartMixes`). The receive window lets a packet through twice only if it jumped
  (`AcceptedAtMostOnce`). Index and count of fragments are one byte each and not checked, so
  that a frame of more than 255 fragments never comes out (`SurvivesExactly`).
- A packet survives the TCP framing just if its length is a multiple of 4 and below 2^26
  (`PacketSurvives`). The receiver does not check that it got all three bytes of a long length;
  if the socket cuts them, the packet or the place to read on is wrong, and only then (`Receive`,
  with an example in `CutLengthMisleads`).
- `SetRemoteEndpoints` does not reset the current endpoint, so that a second call leaves it
  dangling unless it is among the new ones (`GivenNames`, `SecondGivingDangles`).

## Assumptions

- Numbers below 2^31 and layouts that carry extras (`ExtrasOverLossyChannel`); for what is said
  of one extra, that it gets no number that is unsafe by the condition of `LosesExactly`; for
  what is said of whole lines, numbers that rise and a hash that does not collide on the extras
  of one kind and is not 0 (`ExtrasInOrder`). The receive window itself is proved for runs of any
  length, with packets less than 2^31 off.
- Hash, cipher and keystream are parameters: any hash of 32 bytes, any cipher that decryption
  undoes, any keystream that is its own inverse.
- Printing and reading of doubles are the parameters `show` and `read`; of `read` it is assumed
  that the digits of a 32-bit int are read exactly.
- Call ids that dialing returns are not held by a bridge at that moment, and no id is the
  reserved one of its side.
- Clocks do not go backwards in `MessageQueue`, and are positive there, in `ReceiveWindow` and
  in `CongestionControl`.
- Ids of relays, and what toggling the TCP and IPv6 patterns makes of them, are not the
  reserved ids of endpoints that are not relays.

## Model

| member | source | states |
|---|---|---|
| Serial.SeqGtExtendsSerialGreater | tg2sip/libtgvoip/PrivateDefines.h:120-124 | the comparison is that of section 3.2 of RFC 1982 and also decides the pairs at distance 2^31, so that of two different numbers exactly one is the greater |
| Serial.SeqGtOrdersNeighbours | tg2sip/libtgvoip/PrivateDefines.h:122-124 | counts less than 2^31 apart are ordered by their wrapped 32-bit forms, and the wrapped difference is the true one |
| ReceiveWindow.Receiver.constructor | tg2sip/libtgvoip/VoIPController.cpp:2074-2097 | the window starts empty at number 0 |
| ReceiveWindow.Receiver.ReceiveSeq | tg2sip/libtgvoip/VoIPController.cpp:2074-2097 | the in-place shifting and filling of the slots gives the verdict and the new window of the specification, for every number |
| ReceiveWindow.Receiver.ShiftIn | tg2sip/libtgvoip/VoIPController.cpp:2078-2084 | a move by 1 to 31 places drops the oldest slots, leaves the skipped ones empty and puts the arrival time first |
| ReceiveWindow.Receiver.WriteAcks | tg2sip/libtgvoip/VoIPController.cpp:1346-1353 | the shift-and-or loop makes the mask of the filled slots without leaving 32 bits |
| ReceiveWindow.NextKeepsInv | tg2sip/libtgvoip/VoIPController.cpp:2074-2097 | one delivery keeps the window in agreement with what was accepted, for every packet number at once |
| ReceiveWindow.RunKeepsInv | tg2sip/libtgvoip/VoIPController.cpp:2074-2097 | over whole runs the window and its slots agree with the multiset of accepted packets |
| ReceiveWindow.AcceptedAtMostOnce | tg2sip/libtgvoip/VoIPController.cpp:2074-2097 | in any run no packet is accepted more than once, or more than twice if it moved the window by more than 31 |
| ReceiveWindow.AcceptedExactly | tg2sip/libtgvoip/VoIPController.cpp:2074-2097 | a packet is accepted if and only if it is less than 32 behind the highest and new, or a repeated one that jumped and whose slot is still empty |
| ReceiveWindow.JumpIsAcceptedTwice | tg2sip/libtgvoip/VoIPController.cpp:2075-2077 | a run in which one packet is accepted twice |
| ReceiveWindow.MaskOfBit | tg2sip/libtgvoip/VoIPController.cpp:1346-1353 | slot i ends up in the bit counted from the other end |
| ReceiveWindow.ReportedNumbers | tg2sip/libtgvoip/VoIPController.cpp:2122-2130 | the peer reads a number from the mask if and only if it is that of a filled slot 0 to 30, moved down by one |
| ReceiveWindow.ReportIsTrueExactly | tg2sip/libtgvoip/VoIPController.cpp:2122-2130 | after any run, what the mask says of a number up to 31 before the highest is true if and only if its bit is clear, or the slot of the number itself is filled too, or the number jumped |
| ReceiveWindow.ReportIsUnsound | tg2sip/libtgvoip/VoIPController.cpp:2122-2130 | after packet 5 alone, packet 4 is reported as received |
| ReceiveWindow.MarkAcked | tg2sip/libtgvoip/VoIPController.cpp:2122-2130 | the nested loops mark just the recent packets that were not marked and whose number the mask reports |
| Extras.Controller.constructor | tg2sip/libtgvoip/VoIPController.cpp:3191-3203 | a new peer has no extras and an empty window |
| Extras.Controller.SendExtra | tg2sip/libtgvoip/VoIPController.cpp:3191-3203 | the new extra replaces the pending one of its kind in its place, unstamped, or is appended |
| Extras.Controller.WritePacketHeader | tg2sip/libtgvoip/VoIPController.cpp:1346-1375 | the header carries every pending extra, the last number received and the mask, and stamps the extras that had no number |
| Extras.Controller.ReceiveHeader | tg2sip/libtgvoip/VoIPController.cpp:2074-2233 | duplicates and late packets change nothing; otherwise window, acknowledgement, extras and hashes are updated as specified, in that order |
| Extras.Controller.DropAcked | tg2sip/libtgvoip/VoIPController.cpp:2166-2174 | erasing while iterating removes just the acknowledged extras and keeps the order of the others |
| ExtrasOverLossyChannel.ActKeepsInv | tg2sip/libtgvoip/VoIPController.cpp:2074-2174 | every send, header and delivery on either side, with any number below 2^31, keeps what ties the numbers of stamps, headers and acknowledgements together |
| ExtrasOverLossyChannel.RunKeepsInv | tg2sip/libtgvoip/VoIPController.cpp:2074-2174 | the same over whole runs of two peers over a channel that loses, repeats and reorders |
| ExtrasOverLossyChannel.GivingHolds | tg2sip/libtgvoip/VoIPController.cpp:1361-1375 | from its giving on, an extra that gets no unsafe number rides in every header written since, and only an acknowledgement of one of these can take it |
| ExtrasOverLossyChannel.ExtraLeavesOnceDelivered | tg2sip/libtgvoip/VoIPController.cpp:2166-2174 | a pending extra that a delivery takes from the list has a number, and the peer has accepted a header that carried it, has that number or a greater one, and was written after the extra was given |
| ExtrasOverLossyChannel.EachGivingIsDelivered | tg2sip/libtgvoip/VoIPController.cpp:3191-3203 | also if the same content was given and delivered before: once the extra given last leaves, it is that one, and a header was accepted that carried it and was written after it was given |
| ExtrasOverLossyChannel.LosesExactly | tg2sip/libtgvoip/VoIPController.cpp:1361-1375 | an extra that gets its number can, while it stays pending, leave without a header that carries it and was written since being accepted, if and only if the number is not above all written before and what was written last is not acknowledged |
| ExtrasOverLossyChannel.LateNumberLosesExtra | tg2sip/libtgvoip/VoIPController.cpp:2166-2174 | a run from the start after which header 3 loses its extra to the acknowledgement of header 5 |
| ExtrasOverLossyChannel.GivenAgainIsLost | tg2sip/libtgvoip/VoIPController.cpp:2166-2174 | a run from the start after which an extra is lost that is given again, though the peer accepted a header with its content before |
| ExtrasInOrder.ApplyLogs | tg2sip/libtgvoip/VoIPController.cpp:2225-2233 | the extras of one header pass the hash check so that the last of each kind is the last one known, without repeats |
| ExtrasInOrder.LogOne | tg2sip/libtgvoip/VoIPController.cpp:2610-2620 | an extra stopped by the hash check is the one that passed last |
| ExtrasInOrder.StepKeepsInv | tg2sip/libtgvoip/VoIPController.cpp:2074-2233 | every step, losses included, keeps sender, headers under way and receiver in agreement |
| ExtrasInOrder.LineRunKeepsInv | tg2sip/libtgvoip/VoIPController.cpp:2074-2233 | the same over whole runs |
| ExtrasInOrder.LastExtraArrives | tg2sip/libtgvoip/VoIPController.cpp:2610-2620 | once no extra of a kind is pending, the last one let through is the last one given to SendExtra, and nothing was let through twice in a row |
| ExtrasInOrder.ExtraTravels | tg2sip/libtgvoip/VoIPController.cpp:2166-2233 | every extra whose hash is not 0 can be given, arrive, and leave the list once it is acknowledged |
| ExtrasInOrder.EveryExtraTravels | tg2sip/libtgvoip/VoIPController.cpp:2166-2233 | from every state of the line, whatever was lost, there is a continuation after which nothing is pending and the last extra given of each kind is the last one let through |
| Streams.FromLEOfLE | tg2sip/libtgvoip/Buffers.cpp:60-89 | reading little-endian bytes undoes writing them |
| Streams.LEOfFromLE | tg2sip/libtgvoip/Buffers.cpp:155-182 | writing undoes reading, and a value read fits its bytes |
| Streams.LEByteIs | tg2sip/libtgvoip/Buffers.cpp:150-182 | the lowest byte comes first: byte k counts the 256 to the k |
| Streams.TakeTlLengthOf | tg2sip/libtgvoip/Buffers.cpp:92-103 | both forms of a TL length are read back |
| Streams.BufferOutputStream.constructor | tg2sip/libtgvoip/Buffers.cpp:131-136 | an empty stream over memory of its own |
| Streams.BufferOutputStream.Over | tg2sip/libtgvoip/Buffers.cpp:138-143 | an empty stream over a given buffer |
| Streams.BufferOutputStream.ExpandBufferIfNeeded | tg2sip/libtgvoip/Buffers.cpp:208-221 | what was written is kept while the buffer grows, there is room afterwards, and a given buffer never grows |
| Streams.BufferOutputStream.WriteBytes | tg2sip/libtgvoip/Buffers.cpp:184-188 | the bytes are appended, or nothing happens where the source throws |
| Streams.BufferOutputStream.WriteInt | tg2sip/libtgvoip/Buffers.cpp:150-182 | the little-endian bytes of the number are appended, for every width |
| Streams.BufferInputStream.constructor | tg2sip/libtgvoip/Buffers.cpp:19-23 | everything is still to be read |
| Streams.BufferInputStream.Skip | tg2sip/libtgvoip/Buffers.cpp:36-41 | moving on succeeds just if that much is left |
| Streams.BufferInputStream.ReadBytes | tg2sip/libtgvoip/Buffers.cpp:105-109 | the next bytes are taken, or nothing where the source throws |
| Streams.BufferInputStream.ReadInt | tg2sip/libtgvoip/Buffers.cpp:55-89 | the next little-endian number is taken, or nothing where the source throws |
| Streams.BufferInputStream.ReadTlLength | tg2sip/libtgvoip/Buffers.cpp:92-103 | the next length in either form is taken |
| PacketLayout.ExtrasRoundTrip | tg2sip/libtgvoip/VoIPController.cpp:2225-2233 | a list of extras is read back whatever follows it |
| PacketLayout.NumbersRoundTrip | tg2sip/libtgvoip/VoIPController.cpp:2002-2008 | acknowledged number, own number and mask are read back |
| PacketLayout.ShortRoundTrip | tg2sip/libtgvoip/VoIPController.cpp:2002-2008 | the short layout is read back with extras and payload |
| PacketLayout.SimpleRoundTrip | tg2sip/libtgvoip/VoIPController.cpp:2054-2066 | the simple layout is read back, with extras from version 6 on |
| PacketLayout.DecryptedRoundTrip | tg2sip/libtgvoip/VoIPController.cpp:2011-2053 | the layout with flags is read back, and its call id and protocol pass their checks |
| PacketLayout.FlagsRead | tg2sip/libtgvoip/VoIPController.cpp:1386-1393 | the flag word holds type and flags without overlap |
| PacketLayout.ParseUndoesPacket | tg2sip/libtgvoip/VoIPController.cpp:1999-2072 | for all three layouts the receiver reads type, numbers, mask, extras and payload as they were sent, if and only if the layout carries no extras or a byte can count them |
| PacketLayout.ParsedFew | tg2sip/libtgvoip/VoIPController.cpp:2225-2233 | whatever the bytes are, no packet is read with more than 255 extras |
| PacketEnvelope.UnpadInner | tg2sip/libtgvoip/VoIPController.cpp:1960-1970 | the padded inner packet passes every length and padding check and gives the packet back |
| PacketEnvelope.OpenUndoesSeal | tg2sip/libtgvoip/VoIPController.cpp:1917-1975 | between the two sides of a call every check passes and the packet comes out, for any hash and any cipher that can be undone |
| PacketEnvelope.ReceiveUndoesSend | tg2sip/libtgvoip/VoIPController.cpp:2838-2875 | writing, sealing, opening and reading a packet gives it back, in all layouts and whatever the random bytes, if and only if there are no more extras in it than a byte can count |
| PacketStreams.WriteExtras | tg2sip/libtgvoip/VoIPController.cpp:1361-1375 | the loop over the extras writes the bytes of the layout, with the count cut to a byte |
| PacketStreams.WriteShort | tg2sip/libtgvoip/VoIPController.cpp:1355-1375 | the short layout is written |
| PacketStreams.WriteDecrypted | tg2sip/libtgvoip/VoIPController.cpp:1377-1413 | the layout with flags is written |
| PacketStreams.WriteSimple | tg2sip/libtgvoip/VoIPController.cpp:1414-1456 | the simple layout is written |
| PacketStreams.WritePacketHeader | tg2sip/libtgvoip/VoIPController.cpp:1345-1457 | version and state choose the layout, and its bytes are appended to the stream |
| PacketStreams.WritePacket | tg2sip/libtgvoip/VoIPController.cpp:1345-1457 | header and payload are the packet that ParseUndoesPacket is about |
| PacketStreams.SealPacket | tg2sip/libtgvoip/VoIPController.cpp:2835-2875 | the stream operations make the sealed packet that OpenUndoesSeal is about |
| PacketStreams.ReadExtras | tg2sip/libtgvoip/VoIPController.cpp:2225-2233 | the loop takes the counted extras, or fails where the stream ends |
| PacketStreams.ReadShort | tg2sip/libtgvoip/VoIPController.cpp:2002-2008 | the short layout is read |
| PacketStreams.ReadDecrypted | tg2sip/libtgvoip/VoIPController.cpp:2011-2053 | the layout with flags is read, with all its reasons to give up |
| PacketStreams.ReadSimple | tg2sip/libtgvoip/VoIPController.cpp:2054-2066 | the simple layout is read |
| PacketStreams.ReadPacket | tg2sip/libtgvoip/VoIPController.cpp:1999-2072 | the reading of any bytes is that of the specification, failures included: a message if and only if the bytes are one in the layout of the state, as IsForm writes it out |
| PacketStreams.OpenPacket | tg2sip/libtgvoip/VoIPController.cpp:1917-1975 | the stream operations give the data of the specification, and these data if and only if the packet is sealed around them with a message key that is their hash, as IsSealed writes it out |
| PacketAccepted.OpensExactly | tg2sip/libtgvoip/VoIPController.cpp:1917-1975 | of all bytes, a packet is opened, and gives these data, if and only if it is the tag of the call, the fingerprint, a message key and whole blocks that decrypt to the length of the data, the data and enough padding, with the message key bytes 8 to 23 of the hash of a part of the shared key and what was decrypted; so every refusal is told too |
| PacketAccepted.BodyOpensExactly | tg2sip/libtgvoip/VoIPController.cpp:1932-1970 | the same for what follows the fingerprint |
| PacketAccepted.UnpadsExactly | tg2sip/libtgvoip/VoIPController.cpp:1960-1970 | what was decrypted gives data if and only if it is their length, the data, and at least 12 or 16 bytes more than the data |
| PacketAccepted.CipherKeyBytes | tg2sip/libtgvoip/VoIPController.cpp:3116-3136 | each byte of key and vector is that byte of one of two hashes, over the message key and 36 bytes of the shared key |
| PacketAccepted.ParsesExactly | tg2sip/libtgvoip/VoIPController.cpp:1999-2072 | of all bytes, a message is read if and only if they are that message in the layout of the state, written out field by field, so every reason to give up is told too |
| PacketAccepted.ReceivesExactly | tg2sip/libtgvoip/VoIPController.cpp:1917-2072 | a datagram gives a message if and only if it is sealed with the shared key and what was sealed is that message in its layout |
| JsonValue.LessIsTotal | tg2sip/libtgvoip/json11.cpp:129-141 | of two different keys one comes first in an object |
| JsonValue.LessIsStrict | tg2sip/libtgvoip/json11.cpp:129-141 | the order of keys is strict and transitive |
| JsonValue.EqualIsEquivalence | tg2sip/libtgvoip/json11.cpp:165-189 | equality of values is reflexive, symmetric and transitive although ints equal doubles |
| JsonValue.EqualIsIdentity | tg2sip/libtgvoip/json11.cpp:305-312 | without doubles equal values are identical |
| JsonPrinter.Printer.DumpString | tg2sip/libtgvoip/json11.cpp:80-115 | the loop with its skips appends the quoted string |
| JsonTokens.PrintedPieces | tg2sip/libtgvoip/json11.cpp:80-115 | every string is printed in pieces of RFC 8259 with short escapes where there are any, and UTF-16 escapes only for the other control characters and the two separators |
| JsonTokens.NoSeparatorIsPrinted | tg2sip/libtgvoip/json11.cpp:102-109 | no U+2028 or U+2029 is left in what is printed |
| JsonPrinter.Printer.DumpArray | tg2sip/libtgvoip/json11.cpp:117-127 | elements are separated but not surrounded by commas |
| JsonPrinter.Printer.DumpObject | tg2sip/libtgvoip/json11.cpp:129-141 | the same for members in the order of their keys |
| JsonPrinter.Printer.DumpValue | tg2sip/libtgvoip/json11.cpp:143-145 | the text of a value is appended to what was there |
| JsonGrammar.NextToken | tg2sip/libtgvoip/json11.cpp:445-452 | the token is the last character read, inside the text, and reading moved forward |
| JsonGrammar.SkipSpace | tg2sip/libtgvoip/json11.cpp:380-383 | white space is left behind entirely |
| JsonGrammar.SkipDigits | tg2sip/libtgvoip/json11.cpp:589-590 | all digits are left behind, and only digits |
| JsonGrammar.Insert | tg2sip/libtgvoip/json11.cpp:695 | a member replaces the one of the same key and the keys stay ordered and distinct |
| JsonGrammar.DigitsValueBound | tg2sip/libtgvoip/json11.cpp:595-598 | nine digits always fit an int |
| JsonParser.Parser.Fail | tg2sip/libtgvoip/json11.cpp:364-374 | the first error is kept |
| JsonParser.Parser.ConsumeWhitespace | tg2sip/libtgvoip/json11.cpp:380-383 | the index moves to the first character that is not white space |
| JsonParser.Parser.ConsumeComment | tg2sip/libtgvoip/json11.cpp:389-421 | both kinds of comments are skipped, and cut-off ones reported, without leaving the text |
| JsonParser.Parser.ConsumeGarbage | tg2sip/libtgvoip/json11.cpp:427-438 | alternating comments and white space are skipped in full |
| JsonParser.Parser.GetNextToken | tg2sip/libtgvoip/json11.cpp:445-452 | token and index are those of the grammar, and after a failure nothing is read |
| JsonParser.Parser.ParseString | tg2sip/libtgvoip/json11.cpp:483-570 | the loop with its deferred surrogate half gives the string of the grammar or its first error |
| JsonParser.Parser.ConsumeDigits | tg2sip/libtgvoip/json11.cpp:589-590 | the index moves behind the digits |
| JsonParser.Parser.ConsumeFraction | tg2sip/libtgvoip/json11.cpp:600-608 | a fraction needs a digit |
| JsonParser.Parser.ConsumeExponent | tg2sip/libtgvoip/json11.cpp:610-622 | an exponent needs a digit after its sign |
| JsonParser.Parser.ParseNumber | tg2sip/libtgvoip/json11.cpp:576-629 | sign, leading zero, digits, fraction and exponent are read as section 6 of RFC 8259 has them |
| JsonParser.Parser.Expect | tg2sip/libtgvoip/json11.cpp:636-645 | the literal is compared from the character read before, which the index steps back to |
| JsonParser.Parser.ParseJson | tg2sip/libtgvoip/json11.cpp:651-735 | on every text it halts with the index inside the text and the value or the error of the grammar, whose language is that of JsonLanguage |
| JsonParser.Parser.ParseObject | tg2sip/libtgvoip/json11.cpp:677-708 | the loop over members reads the object of the grammar |
| JsonParser.Parser.ParseArray | tg2sip/libtgvoip/json11.cpp:710-732 | the loop over elements, which steps back before each, reads the array of the grammar |
| JsonParser.Parse | tg2sip/libtgvoip/json11.cpp:739-751 | a text is accepted if and only if it is white space or comments, the text of a syntax tree at most 200 deep, and white space or comments, and the value is what the tree means; else the first error of the grammar is reported |
| JsonSyntax.GapSkips | tg2sip/libtgvoip/json11.cpp:380-438 | any sequence of the four characters of white space, and of comments where the parser knows them, is skipped, whatever follows |
| JsonSyntax.SkippedGap | tg2sip/libtgvoip/json11.cpp:380-438 | and nothing else is: what is skipped is such a sequence, and what follows is neither white space nor the start of a comment |
| JsonTokens.QuotedReads | tg2sip/libtgvoip/json11.cpp:483-570 | each way to write a string, with raw bytes, short escapes and UTF-16 escapes in any mix, is read as what its pieces stand for |
| JsonTokens.PiecesOf | tg2sip/libtgvoip/json11.cpp:483-570 | and whatever is read as a string is made of such pieces |
| JsonTokens.HexDigitsRead | tg2sip/libtgvoip/json11.cpp:514-530 | both cases of the sixteen hexadecimal digits, and nothing else, are read at their values |
| JsonTokens.NumeralReads | tg2sip/libtgvoip/json11.cpp:576-629 | each number of section 6 of RFC 8259 in front of something else is read to its end, as an int if it has at most nine characters and neither fraction nor exponent |
| JsonTokens.NumeralOf | tg2sip/libtgvoip/json11.cpp:576-629 | and whatever is read as a number is one |
| JsonLanguage.ValueReads | tg2sip/libtgvoip/json11.cpp:651-735 | the text of any syntax tree that is not too deep, with any gaps between its tokens, is read as what the tree means, and no further |
| JsonLanguage.ElementsRead | tg2sip/libtgvoip/json11.cpp:710-732 | the same for the elements of an array |
| JsonLanguage.MembersRead | tg2sip/libtgvoip/json11.cpp:677-708 | the same for the members of an object, the last of one name counting |
| JsonLanguage.ValueIs | tg2sip/libtgvoip/json11.cpp:651-735 | whatever is read as a value is a gap and the text of a tree that is not too deep |
| JsonLanguage.ParsesExactly | tg2sip/libtgvoip/json11.cpp:739-751 | a text parses to a value if and only if it is a gap, the text of a tree at most 200 deep that means this value, and a gap; gaps do not change what it means |
| JsonRoundTrip.StringRoundTrip | tg2sip/libtgvoip/json11.cpp:483-570 | any string of bytes, escaped and quoted, is read back byte for byte |
| JsonRoundTrip.DigitsRoundTrip | tg2sip/libtgvoip/json11.cpp:70-74 | decimal digits have no leading zero and give the number back |
| JsonRoundTrip.IntRoundTrip | tg2sip/libtgvoip/json11.cpp:576-629 | every 32-bit int is read back as an equal number, as an int or as a double |
| JsonRoundTrip.ArrayRoundTrip | tg2sip/libtgvoip/json11.cpp:710-732 | a printed array is read back if no node in it is too deep, else the parse fails |
| JsonRoundTrip.ObjectRoundTrip | tg2sip/libtgvoip/json11.cpp:677-708 | the same for an object |
| JsonRoundTrip.ValueRoundTrip | tg2sip/libtgvoip/json11.cpp:651-735 | the text of a value inside a larger text is read back as that value and no further |
| JsonRoundTrip.ParseUndoesDump | tg2sip/libtgvoip/json11.cpp:739-751 | parsing the text of a value gives an equal value and consumes the text if no node is deeper than 200, and is an error otherwise |
| JsonAccepted.ValueSound | tg2sip/libtgvoip/json11.cpp:651-735 | whatever is accepted has ordered, distinct keys and respects the depth limit |
| JsonAccepted.DocumentSound | tg2sip/libtgvoip/json11.cpp:739-751 | a document that is accepted gives a value with ordered, distinct keys in which no node is deeper than 200 |
| JsonNesting.DeepTextFails | tg2sip/libtgvoip/json11.cpp:652-654 | a text in which more than 201 brackets are open at a time, outside strings and comments, is an error, also where a repeated key hides the depth from the value |
| JsonNesting.ValueShallow | tg2sip/libtgvoip/json11.cpp:651-735 | the same for any value inside a text: accepted, it opens no more brackets than its depth leaves |
| JsonNesting.StringPart | tg2sip/libtgvoip/json11.cpp:483-513 | a scan that only steps over escaped characters finds the same end of a string as the parser |
| JsonAccepted.EscapedUnits | tg2sip/libtgvoip/json11.cpp:514-549 | any sequence of escaped UTF-16 units, at any place and with a lead that may wait from before, is read as UTF-16 and written as UTF-8 |
| JsonAccepted.EscapedText | tg2sip/libtgvoip/json11.cpp:483-570 | every text of code points that are not surrogates, escaped unit by unit, is read as the UTF-8 text of these code points |
| JsonAccepted.Utf16RoundTrip | tg2sip/libtgvoip/json11.cpp:530-545 | UTF-16 with its pairs determines the code points |
| JsonAccepted.Utf8TextRoundTrip | tg2sip/libtgvoip/json11.cpp:458-477 | so does UTF-8, for whole texts |
| JsonAccepted.Utf8RoundTrip | tg2sip/libtgvoip/json11.cpp:458-477 | UTF-8 sequences have one to four bytes and determine their code point (section 3 of RFC 3629) |
| BufferPool.BitOfWithBit | tg2sip/libtgvoip/Buffers.cpp:256-269 | setting or clearing one bit leaves the others |
| BufferPool.WithBitFits | tg2sip/libtgvoip/Buffers.cpp:237 | 64 buffers fit the 64 bits |
| BufferPool.Pool.constructor | tg2sip/libtgvoip/Buffers.cpp:236-246 | different buffers of one size, all free |
| BufferPool.Pool.Get | tg2sip/libtgvoip/Buffers.cpp:252-262 | a free buffer is given out and marked, or none is if all are used |
| BufferPool.Pool.Reuse | tg2sip/libtgvoip/Buffers.cpp:264-275 | just that buffer is free again |
| HistoricBuffer.RingStep | tg2sip/libtgvoip/Buffers.h:232-235 | overwriting at the moving offset drops the oldest value and puts the new one first |
| HistoricBuffer.Ring.Add | tg2sip/libtgvoip/Buffers.h:232-235 | the history gets one more value and forgets its oldest |
| HistoricBuffer.Ring.At | tg2sip/libtgvoip/Buffers.h:260-267 | entry 0 is the most recent value |
| HistoricBuffer.Ring.Average | tg2sip/libtgvoip/Buffers.h:202-208 | the mean of the history, though the ring is added in another order |
| HistoricBuffer.Ring.AverageOf | tg2sip/libtgvoip/Buffers.h:210-216 | the mean of the most recent values |
| HistoricBuffer.Ring.Max | tg2sip/libtgvoip/Buffers.h:246-253 | no value exceeds the result, which is one of them if and only if some value is not below the starting value, and is the starting value otherwise |
| HistoricBuffer.Ring.Reset | tg2sip/libtgvoip/Buffers.h:255-258 | all zero |
| JitterSlots.SomeBufferUnused | tg2sip/libtgvoip/JitterBuffer.cpp:308-316 | with a free slot the pool has a free buffer, so Get does not return NULL |
| JitterSlots.SlotTable.Find | tg2sip/libtgvoip/JitterBuffer.cpp:229-232 | the first slot that is searched for |
| JitterSlots.SlotTable.HowMany | tg2sip/libtgvoip/JitterBuffer.cpp:329-337 | the number of packets held |
| JitterSlots.SlotTable.FindVictim | tg2sip/libtgvoip/JitterBuffer.cpp:295-302 | the slot that eviction picks |
| JitterSlots.SlotTable.Free | tg2sip/libtgvoip/JitterBuffer.cpp:303-306 | the slot is empty and its buffer back in the pool; Reuse finds it there |
| JitterSlots.SlotTable.Fill | tg2sip/libtgvoip/JitterBuffer.cpp:308-316 | a free slot holds the packet in a buffer that no other slot has |
| JitterSlots.SlotTable.Overwrite | tg2sip/libtgvoip/JitterBuffer.cpp:231-239 | the packet of a held slot is replaced and no other slot changes |
| JitterSlots.SlotTable.CopyOut | tg2sip/libtgvoip/JitterBuffer.cpp:177-186 | a packet that fits is copied to the front of the caller's buffer, one that does not leaves it alone |
| JitterSlots.SlotTable.FreeBefore | tg2sip/libtgvoip/JitterBuffer.cpp:250-257 | just the packets whose timestamp is more than 1 before the play position are dropped |
| JitterSlots.SlotTable.FreeAll | tg2sip/libtgvoip/JitterBuffer.cpp:89-95 | all slots are empty and keep their timestamps |
| JitterMeasurements.Measurements.Arrived | tg2sip/libtgvoip/JitterBuffer.cpp:267-275 | deviation and next expected time are updated |
| JitterMeasurements.Measurements.AddLate | tg2sip/libtgvoip/JitterBuffer.cpp:343-348 | the count is recorded, and that the maximum is 0 means that all counts are |
| JitterMeasurements.Measurements.SpreadOfDeviations | tg2sip/libtgvoip/JitterBuffer.cpp:362-368 | the variance of the last 64 deviations |
| JitterBuffer.Buffer.constructor | tg2sip/libtgvoip/JitterBuffer.cpp:15-47 | the empty buffer from which runs start |
| JitterBuffer.Buffer.Reset | tg2sip/libtgvoip/JitterBuffer.cpp:85-105 | slots, measurements and pending delay changes are cleared, the play position and the wanted delay stay |
| JitterBuffer.Buffer.Prepare | tg2sip/libtgvoip/JitterBuffer.cpp:241-285 | resync, dropping, measuring and late counting in the order of the source |
| JitterBuffer.Buffer.Place | tg2sip/libtgvoip/JitterBuffer.cpp:290-316 | a free slot is taken or the oldest packet evicted; both always succeed |
| JitterBuffer.Buffer.PutInternal | tg2sip/libtgvoip/JitterBuffer.cpp:223-321 | the invariant is kept and the new state is the specified one, for every packet; which output the packet leaves with is in JitterDelivery |
| JitterBuffer.Buffer.BeginOutput | tg2sip/libtgvoip/JitterBuffer.cpp:113-130 | the first output drops packets down to the wanted delay |
| JitterBuffer.Buffer.GetInternal | tg2sip/libtgvoip/JitterBuffer.cpp:158-221 | found, missing and buffering are told apart and the state follows |
| JitterBuffer.Buffer.Lose | tg2sip/libtgvoip/JitterBuffer.cpp:198-220 | counting a loss and giving up after too many |
| JitterBuffer.Buffer.HandleOutput | tg2sip/libtgvoip/JitterBuffer.cpp:108-155 | the bytes in the caller's buffer, the duration and the state are the specified ones |
| JitterBuffer.Buffer.Tick | tg2sip/libtgvoip/JitterBuffer.cpp:339-410 | recording, adapting and correcting the delay as specified, with the root of the variance given |
| JitterBuffer.Buffer.AdaptTo | tg2sip/libtgvoip/JitterBuffer.cpp:374-396 | the clamped difference moves the wanted delay by at most one packet |
| JitterBuffer.Buffer.CorrectFor | tg2sip/libtgvoip/JitterBuffer.cpp:400-410 | the mean delay asks for a change by -60, -20, 0 or 20 |
| JitterBuffer.Buffer.SetMinPacketCount | tg2sip/libtgvoip/JitterBuffer.cpp:53-58 | wanted and least delay are set |
| JitterRuns.EvictionFindsVictim | tg2sip/libtgvoip/JitterBuffer.cpp:294-307 | a full buffer always holds a packet to evict, and the one picked has the smallest timestamp held |
| JitterRuns.EvictionNeedsTwoSlots | tg2sip/libtgvoip/JitterBuffer.cpp:294-307 | eviction finds a packet in every full buffer if and only if at least two slots may be used |
| JitterRuns.StepKeepsInv | tg2sip/libtgvoip/JitterBuffer.cpp:108-410 | every operation keeps timestamps distinct, packets small and occupancy within its limit |
| JitterRuns.RunKeepsInv | tg2sip/libtgvoip/JitterBuffer.cpp:108-410 | the same over whole runs from a new buffer |
| JitterRuns.FramesLeaveInOrder | tg2sip/libtgvoip/JitterBuffer.cpp:158-221 | between two resyncs frames at the play position leave with increasing timestamps, a whole number of steps apart |
| JitterRuns.HeldIsLatest | tg2sip/libtgvoip/JitterBuffer.cpp:229-248 | a held packet is the last primary one put since its slot was opened, or the copy that opened it |
| JitterRuns.FrameIsLatest | tg2sip/libtgvoip/JitterBuffer.cpp:108-131 | the same of every frame that is handed out |
| JitterRuns.WholeSlotBufferFits | tg2sip/libtgvoip/JitterBuffer.cpp:177-179 | an output buffer of 1024 bytes takes every packet |
| JitterDelivery.PlayPosition | tg2sip/libtgvoip/JitterBuffer.cpp:241-248 | over a run from a reset buffer the play position is the wanted delay in steps before the first packet, and one step further for each output that passed it |
| JitterDelivery.FirstPacketPlays | tg2sip/libtgvoip/JitterBuffer.cpp:223-321 | while nothing is evicted, dropped or reset, output number minDelay, counted from 0, hands out exactly the packet that met the reset buffer |
| JitterDelivery.PacketPlays | tg2sip/libtgvoip/JitterBuffer.cpp:223-321 | a packet put before its turn, k steps behind the first one, is handed out k outputs behind it, as the last primary packet for its timestamp |
| JitterDelivery.PacketLeavesInItsTurn | tg2sip/libtgvoip/JitterBuffer.cpp:158-221 | the same with outputs that read ahead or do not advance among them, counting those that pass the play position |
| JitterDelivery.FirstOutputSkips | tg2sip/libtgvoip/JitterBuffer.cpp:113-131 | if the first output finds more than five packets and more than wanted, what it hands out is one step further for each of those too many |
| JitterLosses.CountersTally | tg2sip/libtgvoip/JitterBuffer.cpp:198-285 | over any run the counters are what its outputs and packets show: losses in a row, losses and packets since the last giving up, late packets since the last tick, and losses less late packets |
| JitterLosses.GivesUpExactly | tg2sip/libtgvoip/JitterBuffer.cpp:201-216 | an output that finds nothing gives up if and only if too many in a row found nothing, or more than half of many packets were lost, by the run before it; then the buffer is empty and waits |
| JitterLosses.TickResyncsExactly | tg2sip/libtgvoip/JitterBuffer.cpp:343-352 | a tick asks for a resync if and only if the last sixteen ticks of the run found that many late packets on average |
| JitterLosses.DeviationsAreMeasured | tg2sip/libtgvoip/JitterBuffer.cpp:267-275 | over any run the deviations are how much earlier packets came than a steady stream from the first one on |
| JitterPlaybackTime.StepBalances | tg2sip/libtgvoip/JitterBuffer.cpp:133-148 | each operation moves playback time only between played, asked for, outstanding and discarded |
| JitterPlaybackTime.PlaybackTimeIsConserved | tg2sip/libtgvoip/JitterBuffer.cpp:133-148 | over any run the time played beyond 60 an output is what Tick asked for, less what was discarded and is outstanding, plus 20 per output stretched because the buffer ran empty |
| JitterPlaybackTime.OutstandingIsMultiple | tg2sip/libtgvoip/JitterBuffer.cpp:369-410 | in every run the outstanding change stays a multiple of 20 |
| JitterPlaybackTime.DelayStaysInBounds | tg2sip/libtgvoip/JitterBuffer.cpp:369-398 | the wanted delay stays in its bounds if no minimum above them is set |
| JitterPlaybackTime.TickRaisesOnce | tg2sip/libtgvoip/JitterBuffer.cpp:374-396 | from any state Tick raises the wanted delay at most once, and never after the buffer gave up |
| JitterPlaybackTime.DelayRisesByTick | tg2sip/libtgvoip/JitterBuffer.cpp:369-410 | unless a minimum is set, nothing else raises it |
| JitterPlaybackTime.DelayMovesExactly | tg2sip/libtgvoip/JitterBuffer.cpp:360-398 | Tick raises the wanted delay by one if and only if it is below the maximum, arrivals deviate by more than it or the minimum is above it, and it was not raised before; and lowers it by one if and only if the opposite holds and the time to wait for that is over |
| JitterPlaybackTime.TickSteersBack | tg2sip/libtgvoip/JitterBuffer.cpp:400-410 | Tick asks to play faster if and only if more packets are held on average than wanted, and slower if and only if fewer are, and then waits |
| Gateway.Gateway.constructor | tg2sip/tg2sip/gateway.cpp:721-728 | no bridges, the given tables, and the invariant of ownership holds |
| Gateway.Gateway.CleanUp | tg2sip/tg2sip/gateway.cpp:105-141 | each id still held is hung up once at its own side and let go of |
| Gateway.Gateway.AcceptIncomingSip | tg2sip/tg2sip/gateway.cpp:242-290 | user name, phone number and user id are told apart, and what is neither queues an error |
| Gateway.Gateway.SearchCall | tg2sip/tg2sip/gateway.cpp:819-838 | the first bridge that holds the id, or a new one with an id of its own |
| Gateway.Gateway.ProcessEvent | tg2sip/tg2sip/gateway.cpp:840-852 | if the ids that dialing returns are fresh, the objects keep the invariant of ownership: the event goes to the bridge that holds its id, and makes of it what GatewayProgress says |
| Gateway.Gateway.ProcessInternal | tg2sip/tg2sip/gateway.cpp:878-894 | the objects keep the invariant: one error is popped and handled, or dropped if its bridge is gone |
| Gateway.Gateway.Round | tg2sip/tg2sip/gateway.cpp:736-764 | one event of each queue, the internal one first, keeps the invariant |
| GatewayRuns.ReactKeeps | tg2sip/tg2sip/gateway.cpp:672-709 | a reaction loses no id, takes on only ids it was offered, and ends in a sound state or holds nothing |
| GatewayRuns.StoreKeepsInv | tg2sip/tg2sip/gateway.cpp:840-852 | the reaction of one bridge leaves the ownership of all others right |
| GatewayRuns.HandleKeepsInv | tg2sip/tg2sip/gateway.cpp:840-909 | every external event keeps the invariant of the gateway |
| GatewayRuns.HandleInternalKeepsInv | tg2sip/tg2sip/gateway.cpp:878-894 | every internal event does |
| GatewayRuns.RunKeepsInv | tg2sip/tg2sip/gateway.cpp:729-774 | over any run no bridge is left in its first or last state, and every id taken on is held, was reported ended or was hung up |
| GatewayRuns.NoSharedIds | tg2sip/tg2sip/gateway.cpp:819-838 | no two bridges hold the same Telegram or SIP call |
| GatewayRuns.LetGoOnce | tg2sip/tg2sip/gateway.cpp:96-141 | an id is let go of as often as it was taken on, less one just while a bridge holds it |
| GatewayRuns.DrainedIsComplete | tg2sip/tg2sip/gateway.cpp:878-894 | once the internal queue is worked off, no bridge whose dialing failed is left |
| GatewayProgress.BridgeMovesExactly | tg2sip/tg2sip/gateway.cpp:636-709 | of a bridge, every step makes nothing if and only if it reports one of its calls over or works off its error, the next phase if it is what the bridge waits for, and the same bridge otherwise |
| GatewayProgress.BridgeStartsExactly | tg2sip/tg2sip/gateway.cpp:680-689 | an id that no bridge holds gets a bridge if and only if a SIP call comes in, or a Telegram call while a callback is set |
| GatewayProgress.EndedAsReported | tg2sip/tg2sip/gateway.cpp:691-703 | over any run an id is logged as ended just as often as an event of its own side reported it over (Discarded or Error, or Disconnected) while a bridge held it |
| GatewayProgress.ReportedIsLetGo | tg2sip/tg2sip/gateway.cpp:691-703 | after such an event no bridge holds the id |
| GatewayProgress.ErrorsAreKnown | tg2sip/tg2sip/gateway.cpp:840-894 | over any run every queued error belongs to a bridge that was made before |
| GatewayProgress.TelegramCallConnects | tg2sip/tg2sip/gateway.cpp:636-685 | an incoming Telegram call whose SIP side is dialed and gets media, and which is then ready, ends up with both calls and a controller in the state for digits, whatever happens to others in between |
| GatewayProgress.SipCallConnects | tg2sip/tg2sip/gateway.cpp:653-687 | a SIP call to a user who can be called and answers ends up with both calls and a controller in the state for digits, whatever happens to others in between |
| GatewayCalls.DialTgCalls | tg2sip/tg2sip/gateway.cpp:401-560 | at most one user is called, none while calls are blocked, and it is the one the tables name for the extension |
| GatewayCalls.RunGrows | tg2sip/tg2sip/gateway.cpp:469-560 | over any run remembered users never change, and every call goes to the user remembered |
| GatewayCalls.SameExtensionSameUser | tg2sip/tg2sip/gateway.cpp:469-560 | calls to one user name or phone number always reach the same user |
| GatewayCalls.RefusalBlocks | tg2sip/tg2sip/gateway.cpp:562-578 | a dial that Telegram refuses blocks calls for as long as it asks for and the setting adds, or for the time set for floods |
| GatewayCalls.NobodyIsCalledWhileBlocked | tg2sip/tg2sip/gateway.cpp:401-424 | in a run that ends before that time nobody is called, and the time stays as it is |
| BlockingQueue.Queue.constructor | tg2sip/libtgvoip/BlockingQueue.h:23-26 | an empty queue |
| BlockingQueue.Queue.Put | tg2sip/libtgvoip/BlockingQueue.h:32-47 | appended if there is room, else the oldest item is handed over; the semaphore keeps counting the items |
| BlockingQueue.Queue.GetBlocking | tg2sip/libtgvoip/BlockingQueue.h:49-53 | the oldest item is taken; past the semaphore there is one |
| EncoderPipeline.PushFits | tg2sip/libtgvoip/OpusEncoder.cpp:18 | with 10 buffers and one stop marker the queue of 11 has room for every push |
| EncoderPipeline.NothingFails | tg2sip/libtgvoip/BlockingQueue.h:32-53 | no enabled action aborts, pops an empty queue or leaves the pool or the frame |
| EncoderPipeline.PlacesStay | tg2sip/libtgvoip/OpusEncoder.cpp:110-125 | each buffer stays in exactly one of free list, producer, queue and encoder |
| EncoderPipeline.ConveyStays | tg2sip/libtgvoip/OpusEncoder.cpp:136-197 | no block is lost, changed or reordered by an action |
| EncoderPipeline.StepKeepsInv | tg2sip/libtgvoip/OpusEncoder.cpp:71-197 | every action of every thread keeps the invariant |
| EncoderPipeline.RunKeepsInv | tg2sip/libtgvoip/OpusEncoder.cpp:71-197 | in every interleaving nothing fails |
| EncoderPipeline.EncodedInOrder | tg2sip/libtgvoip/OpusEncoder.cpp:136-197 | what is encoded is what was captured, in order and in frames of whole blocks |
| EncoderPipeline.FramesAreWhatWasGiven | tg2sip/libtgvoip/OpusEncoder.cpp:96-197 | in every interleaving block i of frame k is the block that the callback was given at that place, and when nothing is under way all it was given is in the frames and the one begun |
| EncoderPipeline.EncoderWindsDown | tg2sip/libtgvoip/OpusEncoder.cpp:147-149 | once Stop cleared the flag each step of the encoder brings it nearer to its end |
| EncoderPipeline.EncoderStepsAfterMark | tg2sip/libtgvoip/OpusEncoder.cpp:71-78 | in every run on from a state in which Stop has cleared the flag, the encoder takes at most five steps |
| EncoderPipeline.JoinIsNotStuck | tg2sip/libtgvoip/OpusEncoder.cpp:71-78 | while Stop waits the encoder can always go on, if need be after the callback has let go of the lock |
| EncoderPipeline.StopReturns | tg2sip/libtgvoip/OpusEncoder.cpp:71-78 | from every state in which Stop waits for the encoder there is a continuation in which Stop returns |
| MessageQueue.NeverOversleeps | tg2sip/libtgvoip/MessageThread.cpp:61-104 | waiting for the head of the queue is waiting for no message too long, and what is due is collected |
| MessageQueue.PlacesStay | tg2sip/libtgvoip/MessageThread.cpp:95-117 | each message stays in exactly one of queue, batch, delivery, cancelled and finished |
| MessageQueue.StepKeepsInv | tg2sip/libtgvoip/MessageThread.cpp:57-178 | every post, cancellation, batch and delivery keeps order, places and due times right |
| MessageQueue.RunKeepsInv | tg2sip/libtgvoip/MessageThread.cpp:57-178 | the same over whole runs |
| MessageQueue.FiringTimes | tg2sip/libtgvoip/MessageThread.cpp:107-116 | firing k is due k intervals after the first, the first when the post said, and none comes early |
| MessageQueue.PostFiresOnTime | tg2sip/libtgvoip/MessageThread.cpp:123-141 | of a message posted in a run with a delay and an interval, firing n is due the delay after the time of the post, or when it was started if there is no delay, plus n intervals; without an interval there is no second |
| MessageQueue.OneShotFiresOnce | tg2sip/libtgvoip/MessageThread.cpp:105-117 | a message without an interval fires at most once, and has not fired just if it is cancelled or still waits |
| MessageQueue.CancelFromOutside | tg2sip/libtgvoip/MessageThread.cpp:162-178 | cancelled from another thread a message never fires again |
| MessageQueue.CancelFromInside | tg2sip/libtgvoip/MessageThread.cpp:162-178 | cancelled during a delivery it never fires again if and only if it is not in the batch and not the one delivered that will repeat |
| MessageQueue.CancelledFiresAgain | tg2sip/libtgvoip/MessageThread.cpp:105-117 | a run in which a message that repeats cancels itself and fires again |
| MessageQueue.FiresAgain | tg2sip/libtgvoip/MessageThread.cpp:105-117 | a message that is not stopped has a continuation in which it fires |
| MessageQueue.MessageThread.InsertMessageInternal | tg2sip/libtgvoip/MessageThread.cpp:143-160 | the message goes behind all that are due no later |
| MessageQueue.MessageThread.Post | tg2sip/libtgvoip/MessageThread.cpp:123-141 | a message with a fresh id is in the queue; when it fires, by the arguments of the call, is in PostFiresOnTime |
| MessageQueue.MessageThread.Cancel | tg2sip/libtgvoip/MessageThread.cpp:162-178 | every queued message of the id is erased |
| MessageQueue.MessageThread.CancelSelf | tg2sip/libtgvoip/MessageThread.cpp:180-183 | the message being delivered will not be put back |
| MessageQueue.MessageThread.TakeDue | tg2sip/libtgvoip/MessageThread.cpp:94-103 | erasing while iterating splits the queue into what is due and what is not, both in order |
| MessageQueue.MessageThread.Deliver | tg2sip/libtgvoip/MessageThread.cpp:105-117 | a message starts, makes its calls and is put back or finished, as one sequence of steps of the state machine |
| MessageQueue.MessageThread.Round | tg2sip/libtgvoip/MessageThread.cpp:92-117 | one round of the loop behind its wait, in which each message of the batch takes its turn, is a run of the state machine and leaves the thread idle |
| VideoFrames.SendVideoFrame | tg2sip/libtgvoip/VoIPController.cpp:3351-3390 | the loop makes the fragments of a frame of any size, with index and count, cut to a byte, only if there are several |
| VideoFrames.DecodeUndoesEncode | tg2sip/libtgvoip/VoIPController.cpp:2459-2511 | a stream packet is read back with stream, fragment marks, keyframe flag, time and bytes |
| VideoFrames.DecodesExactly | tg2sip/libtgvoip/VoIPController.cpp:2459-2486 | of all bytes, a stream packet is read if and only if they are the stream and width of the length, the marked length, the time, index and count of a fragment, and the data |
| VideoFrames.ChunksJoin | tg2sip/libtgvoip/PacketReassembler.cpp:60-64 | the fragments in order are the frame |
| VideoFrames.ReassemblyUndoesCutting | tg2sip/libtgvoip/PacketReassembler.cpp:24-70 | in whatever order the fragments come, and whatever was left from before, the frame comes out once, with the last of them |
| VideoFrames.SurvivesExactly | tg2sip/libtgvoip/VoIPController.cpp:3372-3375 | a frame comes out of its fragments if and only if it has at most 255 of them; a larger one is never handed out, not even early |
| VideoFrames.RepeatsAreHarmlessExactly | tg2sip/libtgvoip/PacketReassembler.cpp:24-70 | fragments of one frame, in any order and as often as they like, bring forth that frame and nothing else if and only if each part is missing or already that frame's |
| VideoFrames.StalePartMixes | tg2sip/libtgvoip/PacketReassembler.cpp:48-70 | with a part of an older frame left, all other fragments and one of them twice give a frame with the old part in it |
| VideoFrames.RepeatedFragmentMixesFrames | tg2sip/libtgvoip/PacketReassembler.cpp:48-58 | such an assembler and such fragments |
| VideoFrames.PacketReassembler.constructor | tg2sip/libtgvoip/PacketReassembler.cpp:24-36 | nothing received, whatever the time in memory |
| VideoFrames.PacketReassembler.AddFragment | tg2sip/libtgvoip/PacketReassembler.cpp:24-70 | the in-place parts and counters give the state and the frame of the specification |
| CongestionControl.StepBalances | tg2sip/libtgvoip/CongestionControl.cpp:54-119 | each operation balances accepted sends against acks, losses and live slots |
| CongestionControl.BooksBalance | tg2sip/libtgvoip/CongestionControl.cpp:54-119 | over any run the bytes in flight are those of the live slots, and accepted sends are matched acks plus losses plus live slots |
| CongestionControl.EvictsOldest | tg2sip/libtgvoip/CongestionControl.cpp:75-98 | a packet is evicted if and only if the table is full, and then none was sent before it |
| CongestionControl.TickLosesExactly | tg2sip/libtgvoip/CongestionControl.cpp:109-117 | a tick loses just the packets sent more than two seconds before it, counts each, and leaves the others as they are |
| CongestionControl.LiveWasSent | tg2sip/libtgvoip/CongestionControl.cpp:94-97 | over any run, what is in the table was sent in it, with that number and size and at the time noted |
| CongestionControl.TickEntersMean | tg2sip/libtgvoip/CongestionControl.cpp:54-66 | a tick enters the mean of the times from sending to acknowledgement measured in the run since the last one, if there are any |
| CongestionControl.CongestionControl.PacketSent | tg2sip/libtgvoip/CongestionControl.cpp:68-98 | the search for a slot and the update of the books, or nothing for a number that is not new |
| CongestionControl.CongestionControl.PacketAcknowledged | tg2sip/libtgvoip/CongestionControl.cpp:54-66 | the live slot of the number is freed and its time counted |
| CongestionControl.CongestionControl.Tick | tg2sip/libtgvoip/CongestionControl.cpp:101-119 | the mean round trip time goes into the history and everything older than two seconds is lost, as TickEntersMean and TickLosesExactly say |
| TcpFraming.PacketSurvives | tg2sip/libtgvoip/NetworkSocket.cpp:272-287 | a packet comes out whole, with the stream behind it intact, if and only if its length is a multiple of 4 and below 2^26 |
| TcpFraming.WordsAre | tg2sip/libtgvoip/NetworkSocket.cpp:272-287 | the length in words is one byte below 127, else 127 and three bytes, the lowest first |
| TcpFraming.WordsReadExactly | tg2sip/libtgvoip/NetworkSocket.cpp:300-323 | a length is read if and only if the stream starts with such bytes, any first byte from 127 on being the mark |
| TcpFraming.ReadAllUndoesWire | tg2sip/libtgvoip/NetworkSocket.cpp:300-346 | reading on and on gives back all packets in order |
| TcpFraming.ReceiverGetsPackets | tg2sip/libtgvoip/NetworkSocket.cpp:272-346 | the same through the keystream, from any place in it |
| TcpFraming.Sender.Send | tg2sip/libtgvoip/NetworkSocket.cpp:272-287 | the framed packet under the next part of the keystream |
| TcpFraming.Receiver.ReceiveWords | tg2sip/libtgvoip/NetworkSocket.cpp:300-323 | the length is read, or nothing if the stream ends; a long length of which the socket gives only a part is filled up from memory, while the keystream moves on by all three bytes |
| TcpFraming.Receiver.Receive | tg2sip/libtgvoip/NetworkSocket.cpp:300-346 | what is in the buffer and where reading goes on, whether or not the socket cuts a long length; a packet that is not empty comes out right if and only if its length is not cut |
| TcpFraming.CutIsWrong | tg2sip/libtgvoip/NetworkSocket.cpp:315-323 | whatever memory and stream hold, with a cut length a packet never comes out right |
| TcpFraming.CutLengthMisleads | tg2sip/libtgvoip/NetworkSocket.cpp:315-323 | 508 bytes of which the first of the three length bytes comes alone are received with two length bytes in front and two bytes short |
| TcpFraming.Receiver.ReceivePayload | tg2sip/libtgvoip/NetworkSocket.cpp:331-338 | the payload is put together however it is cut into pieces |
| TcpFraming.Receiver.ReceiveAll | tg2sip/libtgvoip/VoIPController.cpp:1684-1695 | the receiving loop halts at the end of the stream and, if the socket cuts no length of these packets, has handed on all packets but the empty ones, in order, whatever pieces the payloads come in |
| TcpFraming.Pipe.NothingCut | tg2sip/libtgvoip/NetworkSocket.cpp:315-323 | no length is cut if all packets are shorter than 508 bytes, or no piece has just one or two bytes |
| EndpointRuns.CleanTwins | tg2sip/libtgvoip/VoIPController.cpp:3032 | toggling the TCP or the IPv6 pattern never leads to a reserved id |
| EndpointRuns.XorAssoc | tg2sip/libtgvoip/VoIPController.cpp:2997 | bitwise toggling is associative |
| EndpointRuns.AddIPv6KeepsInv | tg2sip/libtgvoip/VoIPController.cpp:2983-3008 | adding the IPv6 twins keeps both names in the table |
| EndpointRuns.LoopAdds | tg2sip/libtgvoip/VoIPController.cpp:3016-3040 | inside the loop a name may be ahead of the table, but then it is not looked up |
| EndpointRuns.AddTcpKeepsInv | tg2sip/libtgvoip/VoIPController.cpp:3010-3046 | after the loop both names are in the table again |
| EndpointRuns.GivenNames | tg2sip/libtgvoip/VoIPController.cpp:388-416 | given relays, the names point into the table if and only if there was no name and something was given, or the old name is among the new ones |
| EndpointRuns.SecondGivingDangles | tg2sip/libtgvoip/VoIPController.cpp:388-416 | after a second call with another relay both names are those of the first, which is not in the table |
| EndpointRuns.SetRemoteEstablishesInv | tg2sip/libtgvoip/VoIPController.cpp:388-416 | in these cases they still do once the IPv6 twins are added |
| EndpointRuns.PingsKeepInv | tg2sip/libtgvoip/VoIPController.cpp:3532-3598 | switching by round trip time keeps both names in the table and the preferred one a relay |
| EndpointRuns.StepKeepsInv | tg2sip/libtgvoip/VoIPController.cpp:1834-1874 | so does every other step |
| EndpointRuns.RunKeepsInv | tg2sip/libtgvoip/VoIPController.cpp:2214-2223 | over any run no lookup of either name fails, and the preferred relay is a relay |
| EndpointChoices.BestIsUnbeaten | tg2sip/libtgvoip/VoIPController.cpp:3541-3565 | with a switch threshold of at most 1, no usable relay with a positive round trip time, counted twice over TCP, is below the chosen ping times the threshold |
| EndpointChoices.BestBeatsPreferred | tg2sip/libtgvoip/VoIPController.cpp:3535-3565 | the relay chosen is the preferred one, or a usable one told with its own time that is below the preferred one's ping times the threshold |
| EndpointChoices.PreferredIsKeptExactly | tg2sip/libtgvoip/VoIPController.cpp:3532-3574 | the preferred relay is kept if and only if no usable relay is below its ping times the threshold |
| EndpointChoices.StaysDirect | tg2sip/libtgvoip/VoIPController.cpp:3575-3596 | if the thresholds leave room, a call that went over from a relay to a direct endpoint stays there while nothing new is measured |
| EndpointChoices.EveryTwinIsAdded | tg2sip/libtgvoip/VoIPController.cpp:3010-3046 | each relay over UDP gets its twin over TCP at the same address |
| EndpointChoices.EveryIPv6TwinIsAdded | tg2sip/libtgvoip/VoIPController.cpp:2983-3008 | each relay with both addresses gets its twin with the IPv6 one only |
| EndpointChoices.UdpOutageGoesOverTcp | tg2sip/libtgvoip/VoIPController.cpp:3504-3513 | once no pong came over UDP, the call goes on over a TCP relay of the table, and UDP is not used |
| EndpointChoices.TransportsAreChosenExactly | tg2sip/libtgvoip/VoIPController.cpp:3504-3525 | TCP comes into use and UDP goes out of use if and only if pongs were that few |
| EndpointChoices.ReturnsToRelay | tg2sip/libtgvoip/VoIPController.cpp:3718-3751 | after a timeout or a change of the peer's network a relay of the table is used, the preferred one unless it was one before |
| EndpointChoices.PeerIsAtAddress | tg2sip/libtgvoip/VoIPController.cpp:1834-1874 | the peer's addresses replace what was known of it, nothing stale is used, and nothing else changes |
| EndpointChoices.PacketIsFollowed | tg2sip/libtgvoip/VoIPController.cpp:2214-2223 | a packet from another relay is followed if and only if the peer is silent and no measured relay is used |
| EndpointChoices.InitDecidesOnce | tg2sip/libtgvoip/VoIPController.cpp:2332-2339 | after the first init no other one has an effect, whatever comes between |
| EndpointTable.Controller.constructor | tg2sip/libtgvoip/VoIPController.h:620-622 | an empty table |
| EndpointTable.Controller.SetRemoteEndpoints | tg2sip/libtgvoip/VoIPController.cpp:388-416 | table, names and TCP flags as specified for any list, and both names in the table in the cases of GivenNames |
| EndpointTable.Controller.Give | tg2sip/libtgvoip/VoIPController.cpp:390-410 | the loop over the given endpoints |
| EndpointTable.Controller.AddIPv6Relays | tg2sip/libtgvoip/VoIPController.cpp:2983-3008 | the twins of relays with both addresses are added once |
| EndpointTable.Controller.AddTCPRelays | tg2sip/libtgvoip/VoIPController.cpp:3010-3046 | the TCP twins are added once, and no lookup in the loop fails |
| EndpointTable.Controller.ReceivePeerInfo | tg2sip/libtgvoip/VoIPController.cpp:1834-1874 | the LAN endpoint goes and the p2p endpoint comes without a name left dangling |
| EndpointTable.Controller.ReceivePacket | tg2sip/libtgvoip/VoIPController.cpp:2214-2223 | the relay a packet came from becomes current if the peer seems gone |
| EndpointTable.Controller.ReceiveInit | tg2sip/libtgvoip/VoIPController.cpp:2332-2339 | the first init chooses the relay it came over |
| EndpointTable.Controller.ReceiveLanEndpoint | tg2sip/libtgvoip/VoIPController.cpp:2563-2577 | told in a packet or as an extra, the LAN endpoint is replaced |
| EndpointTable.Controller.ReceiveIPv6Endpoint | tg2sip/libtgvoip/VoIPController.cpp:2725-2746 | the IPv6 endpoint of the peer is added, and current if we have an address |
| EndpointTable.Controller.PeerNetworkChanged | tg2sip/libtgvoip/VoIPController.cpp:2694-2699 | back to the preferred relay |
| EndpointTable.Controller.ReceiveTimeout | tg2sip/libtgvoip/VoIPController.cpp:3718-3751 | back to the preferred relay, and measurements of other endpoints are forgotten |
| EndpointTable.Controller.EvaluateUdpPings | tg2sip/libtgvoip/VoIPController.cpp:3502-3525 | few pongs switch to TCP |
| EndpointTable.Controller.FindBest | tg2sip/libtgvoip/VoIPController.cpp:3537-3565 | the loop finds the relay that the specification finds |
| EndpointTable.Controller.SendRelayPings | tg2sip/libtgvoip/VoIPController.cpp:3532-3598 | preferred relay and current endpoint are chosen by round trip time, both from the table; which ones is in PreferredIsKeptExactly and StaysDirect |

## Left out

- ReceiveWindow.MarkAcked: marks packets only; what congestion control and video do with the marks is in their own parts or not modelled, because the marks are unsound.
- Extras.Controller.WritePacketHeader: covers layouts that carry extras; the other layouts are in PacketLayout, and there an extra is neither sent nor stamped.
- Gateway.Gateway.DialSip: the headers with the caller's name and the exception for an unknown user are not modelled, since they do not touch a call id.
- Gateway.Gateway.DialByPhone: an empty answer to the import of a contact, which the source reads past, is not modelled.
- Gateway.Gateway.CleanUp: stopping the media controller is not modelled; it is an object of its own.
- Gateway.Gateway.SearchCall: the counter of context ids has no bound.
- GatewayRuns.RunKeepsInv: an exception that no handler catches ends the program and the run.
- MessageQueue.MessageThread.Post: ids do not wrap at 32 bits; the stamp of a message only names its place in the order of insertion.
- MessageQueue.MessageThread.Deliver: stopping the thread in between is not modelled.
- JitterBuffer.Buffer.Tick: the square root is a parameter whose square is the variance; times are reals.
- JitterBuffer.Buffer.PutInternal: fields that only logs and getters read are not modelled (last put timestamp, reception times, last measured jitter and delay).
- JsonPrinter.Printer.DumpValue: doubles are printed by a parameter, and round trips are stated for values without them, because six digits do not give a double back.
- EncoderPipeline.RunKeepsInv: one capturing thread, one call of Stop; effects, echo cancelling, voice detection and Opus itself do not move buffers.
- BlockingQueue.Queue.GetBlocking: seen past the semaphore; waiting and the race for the lock are in EncoderPipeline.
- VideoFrames.ReassemblyUndoesCutting: fragments are not mixed with those of another frame, which the source needs; fragments that come more than once are in RepeatsAreHarmlessExactly.
- CongestionControl.CongestionControl.Tick: the history of bytes in flight and the choice of a bandwidth action.
- EndpointTable.Controller.SendRelayPings: sending the pings; the order in which the table is walked is a parameter.
- PacketEnvelope.ReceiveUndoesSend: packets over a relay, with its peer tag and special answers, and the older envelope without MTProto 2.
- BufferPool.Pool.Get: the lock.
- `SetNetworkType`, `DebugCtl`, bitrate and signal bars, group calls, SOCKS5, sockets and threads themselves.
- Packets sent reliably by repetition (`queuedPackets`): they rest on the mask, which is unsound.
- Routing of text messages and DTMF in the gateway, and the filling of its tables at start.
- json11: accessors, `parse_multi`, the order of values, the wording of messages.
- The PHP, Go and JavaScript parts of the repository.
