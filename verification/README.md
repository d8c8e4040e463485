# mqas: a verified model of stream switching, rendezvous, relaying and buffering

mqas multiplexes typed "hold" streams over one QUIC stream, helps two peers behind address
translation to find each other, relays for those that cannot, and buffers datagrams and voice
frames. This Dafny project models those parts and proves what they promise. Run
`dafny verify dfyconfig.toml`.

## What is modelled

**Stream switching** (`VariantMsg`, `Endpoint`, `StreamVariant`, `PlainStack`, `TwoEnds`,
`Progress`, `Replies`, `Routing`, `Discipline`, `Exactness`). `Endpoint` gives each operation of the
`StreamVariant` template as a function on the fields `stream_tag_`, `stream_var_`, `stack` and
`current_state`; the class `StreamVariant.Variant` updates these fields and real stream objects in
place and is proved equal to those functions. `PlainStack` is the specification: a plain stack of
tags that requests push and that refusals and quits pop. `TwoEnds` joins two ends, each with its
own registry of tags, by two FIFO channels; change requests may cross, handlers may answer
anything, at once or later. A failed C++ assertion sets a flag and execution continues, as it does
in a release build; the theorems say the flag is never set.

`Replies` says what the messages carry, without a word on how they are put together: the reply to
a request, the request itself, the state each step ends in, and over whole runs that the n-th
answer brings exactly the bytes the peer's hold streams gave for the n-th request.

The rules the hold streams have to keep are the predicate `TwoEnds.Allowed`, and they are no
stricter than they have to be: after any run that kept them, an event keeps them if and only if no
way of going on that keeps them fails an assertion, strands a stream, lets a quit meet another
tag, or comes to rest in disagreement or with a request never answered (`Exactness.RulesAreExact`).
Their content: a change that takes a stream up does not start under an unanswered quit of the
peer; its tag is known to the peer, or nothing is held, or it goes out at once while the peer has
a change of its own open; a quit comes from the current stream, at rest, names that stream's tag,
and finds the peer without an unanswered request; a quit request is granted or put off, not
refused on the spot; a put-off answer names the current tag and the command it answers; a put-off
request is sent as a request and not called off.

**Bytes** (`Bytes`, `SimplePkg`, `VariantCodec`, `IStream`, `ShellReader`, `Datagrams`, `Alpn`).
Big-endian integers, the checksummed frame (for any checksum function), the command codec, the
offset-based stream buffers and the read loops above them, both packed datagram queues, and the
protocol list of the TLS handshake in the form of section 3.1 of RFC 7301.

**Rendezvous and relay** (`P2pContext`, `P2pModel`, `Probe`, `UniqueId`, `Relay`). The pair
contexts and their table, the schedule by which addresses are tried, the probe packet from offer
to mark, the id allocator and the matchmaker.

**Voice** (`JitterRing`). The jitter ring over flat buffers with its 32-bit arithmetic.

## Where the code and its intent part

- An unknown tag leaves the resident stream paused with nothing current (`PeerRefusalRestoresIff`).
- A quit refused on the spot clears the responder but not the requester (`QuitReplyRuleIsExact`).
- A put-off change request that is called off is written all the same (`AnswerRuleIsExact`).
- Requests are not guarded by the state they need: a quit may start while another request is open,
  and the one or the other is then answered to the wrong state or never (`QuitRuleIsExact`).
- After a refused quit the requester's stream keeps its wait flag, so its reads stay with the shell
  (`QuitAnswerAndWaitFlag`).
- The first peer's addresses are all offered only if it has no more of them than there are rounds
  (`Coverage`), a peer without internal addresses is never offered by its public one
  (`ExternalOfferIff`), and a list of 128 addresses counts as one of length -128 (`SizeFitsIff`).
- Verify codes are drawn in internal rounds two and later only (`Schedule`); before, they are
  whatever memory held.
- A client can register for a pair with itself, but nothing ever comes of that (`SelfPairIsDead`).
- A report whose index is negative as a 16-bit number unmarks a side (`Rendezvous`).
- A datagram over 32767 bytes breaks the outgoing queue (`WriteDatagram`).
- A command body of 10 to 13 bytes is accepted and cut to nine (`RegenerateIff`).
- `split` drops one trailing delimiter (`Split`), and a token that is empty or longer than 255
  bytes makes the protocol list unreadable (`ReadsBackIff`).

`current_state` has no initial value in the source; the model starts it as `none`. Tags fit 32 bits.

## Model

| member | source | states |
|---|---|---|
| TwoEnds.Agreement | mqas/include/mqas/core/stream.impl.hpp:296-411 | whenever a run of two ends, each with its own registry, comes to rest both hold the same current tag over the same paused tags, and each request ever sent has had exactly one answer of its command and tag, in order |
| TwoEnds.Safety | mqas/include/mqas/core/stream.impl.hpp:302-379 | in every run none of the three assertions fails, tag 0 means no stream, nothing paused and nothing pending, state none means tag 0, at most one request an end is unanswered, and a quit never meets another tag |
| TwoEnds.StepKeepsInv | mqas/include/mqas/core/stream.impl.hpp:296-411 | the joint invariant (where each request is, what each end will hold once its answer arrives, the ledger of answers) survives every allowed event of either end |
| TwoEnds.StepKeepsGood | mqas/include/mqas/core/stream.impl.hpp:566-719 | a step of the two field-level ends is the step of the two plain stacks and keeps both well formed |
| TwoEnds.QuitMeetsItsTag | mqas/include/mqas/core/stream.impl.hpp:364-379 | a quit request at the head of a channel names the reader's current tag and finds it at rest |
| TwoEnds.ChangeFindsItsTag | mqas/include/mqas/core/stream.impl.hpp:321-332 | a change request at the head of a channel strands nothing: the reader knows its tag, holds nothing, or turns it down unread |
| Progress.SettlingPays | mqas/include/mqas/core/stream.impl.hpp:296-391 | every delivery and every put-off answer lowers the bounded debt of open requests |
| Progress.NeverStuck | mqas/include/mqas/core/stream.impl.hpp:296-391 | a world not at rest always has a delivery or a put-off answer as next step, with any code the handler wants; only a quit request read now must be granted or put off |
| Progress.ComesToRest | mqas/include/mqas/core/stream.impl.hpp:296-411 | from any reachable world at most eight deliveries and put-off answers lead to rest, and rest is agreement |
| Replies.AnswersCarryReplies | mqas/include/mqas/core/stream.impl.hpp:316-388 | in every run and for either end: the requests its peer has read are its own, whole and in order, and the n-th answer names the n-th request's command and tag and carries exactly the bytes the peer's hold streams gave for it, at once or later |
| Replies.ReplyIsExact | mqas/include/mqas/core/stream.impl.hpp:316-388 | whatever an end writes on reading is one message with the request's command and both parameters, marked as answer, with the code and the bytes of the handler that ran, or with the code that says why none ran and no bytes; and it writes nothing only for an answer, an unknown command or a request put off |
| Replies.ChangeRequestIsExact | mqas/include/mqas/core/stream.impl.hpp:592-600 | the change request carries the local handler's bytes, or the caller's if there are none and local changes are not supported |
| Replies.QuitRequestIsExact | mqas/src/core/stream.cpp:86-99 | the quit request carries the tag and the parameters passed |
| Replies.RequestEndsIn | mqas/include/mqas/core/stream.impl.hpp:316-387 | the state each request leaves the end in, for every state, tag and verdict |
| Replies.AnswerEndsIn | mqas/include/mqas/core/stream.impl.hpp:302-363 | the state, tag and stack each answer leaves the end in, and when its assertion fails |
| Replies.AskingEndsIn | mqas/include/mqas/core/stream.impl.hpp:566-604 | when a change is made, and the state in which it or its refusal leaves the end |
| Replies.SendingEndsIn | mqas/include/mqas/core/stream.impl.hpp:680-719 | which late answers are let through, and the state each leaves the end in |
| Replies.QuitTakesAwayIff | mqas/include/mqas/core/stream.impl.hpp:364-379 | a quit request takes the current stream away if and only if it names it and is not put off |
| Replies.OwnerWritesIffDropped | mqas/include/mqas/core/stream.impl.hpp:692-718 | the owner writes a late answer itself if and only if the answer takes the current stream away |
| Routing.RoutingIsExact | mqas/include/mqas/core/stream.impl.hpp:470-475 | in every run without a refused quit the current stream's reads go to the shell exactly while its own request is out, and paused streams have their flag down |
| Discipline.QuitRuleIsExact | mqas/src/core/stream.cpp:86-99 | a quit of the current stream, in any state and with any tag, can go wrong if and only if the end is not at rest, the tag is not its own, or the peer has an unanswered request |
| Discipline.ChangeRuleIsExact | mqas/include/mqas/core/stream.impl.hpp:566-604 | a change, whatever the local handler says and whatever its tag, can go wrong if and only if it takes a stream up under an unanswered quit of the peer, or with a tag the peer will read at rest, holding a stream and not knowing it; crossing changes are fine |
| Discipline.QuitReplyRuleIsExact | mqas/include/mqas/core/stream.impl.hpp:296-391 | reading a command can go wrong if and only if it is a quit request answered at once with an error |
| Discipline.AnswerRuleIsExact | mqas/include/mqas/core/stream.impl.hpp:680-719 | an answer given later, whatever its tag, command, kind and code, can go wrong if and only if it breaks the rule for the state it is given in |
| Exactness.RulesAreExact | mqas/include/mqas/core/stream.impl.hpp:296-719 | after any run of the two field-level ends that kept the rules, an event of either end keeps them if and only if no continuation that keeps them goes bad |
| Exactness.UnknownTagCanBreak | mqas/include/mqas/core/stream.impl.hpp:321-332 | a run to agreement on tag 7, then a change to a tag only the asker knows, which may strand the peer's stream |
| Exactness.OtherTagCanBreak | mqas/include/mqas/core/stream.impl.hpp:369-370 | the same run, then a quit that names another tag |
| Exactness.QuitNotAtRestCanBreak | mqas/src/core/stream.cpp:86-99 | a run with an open change, then a quit of the same end |
| Exactness.QuitOverChangeCanBreak | mqas/src/core/stream.cpp:86-99 | a run with an open change of the peer, then a quit |
| Exactness.OpenQuitCanBreak | mqas/include/mqas/core/stream.impl.hpp:364-386 | a run with an open quit of the peer, then a change made or put off, a quit, or a refusal on the spot |
| Exactness.HalfRequestCanBreak | mqas/include/mqas/core/stream.impl.hpp:701-718 | a run with a put-off change, then calling it off, or sending it as an answer |
| Exactness.OwedAnswerCanBreak | mqas/include/mqas/core/stream.impl.hpp:683-700 | a run with a put-off answer, then an answer with another tag, another command, or not marked as one |
| PlainStack.ChangeToRefines | mqas/include/mqas/core/stream.impl.hpp:566-645 | asking for a change pushes on the plain stack, or leaves it alone when the tag is unknown, the state is wrong or the handler refuses |
| PlainStack.ReceiveRefines | mqas/include/mqas/core/stream.impl.hpp:296-411 | every command read, with known tags or not, acts on the plain stack as specified, with the specified reply; the end stays well formed but for exactly the case that strands its stream |
| PlainStack.AnswerLaterRefines | mqas/include/mqas/core/stream.impl.hpp:680-719 | a put-off answer confirms or pops on the plain stack and is written exactly once, or is rejected |
| PlainStack.QuitRefines | mqas/src/core/stream.cpp:86-99 | a quit request carries the tag it is given and leaves the plain stack in place |
| PlainStack.ClearUndoesSwitch | mqas/include/mqas/core/stream.impl.hpp:401-411 | pausing, switching and clearing brings back the very stream and stack of before |
| PlainStack.LocalRefusalRestores | mqas/include/mqas/core/stream.impl.hpp:549-554 | a change that is not made leaves current stream and stack as they were |
| PlainStack.PeerRefusalRestoresIff | mqas/include/mqas/core/stream.impl.hpp:316-338 | a peer's change that is not accepted restores stream and stack if and only if its tag is registered or nothing was held |
| PlainStack.UnknownTagStrandsResident | mqas/include/mqas/core/stream.impl.hpp:321-332 | the concrete case: tag 8 unknown, stream 7 ends up paused under tag 0 |
| PlainStack.CrossingRequestsChangeNothing | mqas/include/mqas/core/stream.impl.hpp:615-625 | change requests read while something is pending change nothing at all |
| PlainStack.AnsweredChange | mqas/include/mqas/core/stream.impl.hpp:302-315 | from request to answer, with any crossing requests between: a refusal restores stream and stack, an acceptance pauses them under the new stream, which then reads for itself |
| PlainStack.ChangeThenQuitRoundTrip | mqas/include/mqas/core/stream.impl.hpp:316-387 | accepting a peer's change and then its quit is the identity on stream and stack |
| PlainStack.QuitAnswerAndWaitFlag | mqas/include/mqas/core/stream.impl.hpp:348-363 | a granted quit resumes the paused stream itself; a refused one keeps the stream, its wait flag still set |
| StreamVariant.Variant.constructor | mqas/include/mqas/core/stream.h:178-181 | starts with no stream, an empty stack and state none |
| StreamVariant.Variant.PushStream | mqas/include/mqas/core/stream.impl.hpp:635-645 | the current object goes on the stack and tag 0 remains |
| StreamVariant.Variant.TryPushCurrStream | mqas/include/mqas/core/stream.impl.hpp:615-630 | in-place form of the push check |
| StreamVariant.Variant.TryPopStream | mqas/include/mqas/core/stream.impl.hpp:648-656 | the object paused last becomes current again, or nothing changes when the stack is empty |
| StreamVariant.Variant.SetCurrStream | mqas/include/mqas/core/stream.impl.hpp:660-671 | the popped object is current and active |
| StreamVariant.Variant.ClearCurrStream | mqas/include/mqas/core/stream.impl.hpp:401-411 | pops, or empties the current place |
| StreamVariant.Variant.SetIsWaitPeerChangeRet | mqas/include/mqas/core/stream.impl.hpp:288-294 | only the current object's flag changes |
| StreamVariant.Variant.ChangeToUncheck | mqas/include/mqas/core/stream.impl.hpp:526-558 | a fresh object becomes current, or is cleared when its handler refuses |
| StreamVariant.Variant.ChangeTo | mqas/include/mqas/core/stream.impl.hpp:393-399 | the same by tag, with failed_not_find for an unregistered one |
| StreamVariant.Variant.ReqChangeTo | mqas/include/mqas/core/stream.impl.hpp:566-612 | in-place form of asking for a change, with the request it writes; one that cannot be written leaves the change made |
| StreamVariant.Variant.ReqQuit | mqas/src/core/stream.cpp:86-99 | the message carries the tag passed, the flag goes up and the owner waits; one that cannot be written changes nothing |
| StreamVariant.Variant.OnRead | mqas/include/mqas/core/stream.impl.hpp:296-391 | in-place form of every command branch, replies included; a reply that cannot be written is lost |
| StreamVariant.Variant.OnSendSvMsg | mqas/include/mqas/core/stream.impl.hpp:680-719 | return value, new state and who writes, for every state, with a failed write reported as 2 |
| StreamVariant.Variant.SendSvMsg | mqas/include/mqas/core/pb_stream.impl.hpp:449-460 | a message let through is written exactly once, whoever writes it, or not at all when the transport does not take it |
| ShellReader.SegmentationIndependence | mqas/include/mqas/core/stream.impl.hpp:46-57 | framed commands cut into any chunks, with an unfinished one behind, are handed over exactly, once and in order, and the unfinished part stays unread |
| ShellReader.ChunksDoNotMatter | mqas/include/mqas/core/stream.impl.hpp:46-57 | the same for any bytes at all, well formed or not |
| ShellReader.ReadLoop | mqas/include/mqas/core/stream.impl.hpp:49-55 | the loop ends, hands over exactly the commands at the front of the buffer and leaves the rest |
| ShellReader.DoReadShell | mqas/include/mqas/core/stream.impl.hpp:46-57 | the same for one read event |
| ShellReader.ReadEvents | mqas/include/mqas/core/stream.impl.hpp:46-57 | one read event for each chunk the transport has: what the calls of do_read_shell hand over in total and leave unread is what the two results above are about |
| ShellReader.HoldLoop | mqas/include/mqas/core/stream.impl.hpp:475-486 | the handler is called on all unread bytes, then on what each call left, until it uses none, none are left, or it hands over; the rest moves if and only if the last call hands over |
| ShellReader.HandsOverIff | mqas/include/mqas/core/stream.impl.hpp:477-483 | a call hands over if and only if it used some of the bytes it was shown but not all and the stream waits |
| ShellReader.CallsAreDetermined | mqas/include/mqas/core/stream.impl.hpp:475-486 | the bytes and the handler determine the calls |
| ShellReader.MoveToShell | mqas/include/mqas/core/stream.impl.hpp:479-496 | the rest goes behind the shell's unread bytes and is read there |
| ShellReader.DoReadCurr | mqas/include/mqas/core/stream.impl.hpp:470-496 | a waiting stream leaves the read to the shell; otherwise the calls are as above, bytes used by the handler, bytes moved and bytes left add up to the bytes received in order, and what the last call hands over is read by the shell |
| SimplePkg.FrameBytes | mqas/include/mqas/core/proto/simple.impl.hpp:13-46 | which byte goes where: length, body, and the checksum over both |
| SimplePkg.ParseFrame | mqas/include/mqas/core/proto/simple.impl.hpp:13-46 | a frame followed by any bytes parses to its body and length |
| SimplePkg.ParseStrictPrefix | mqas/include/mqas/core/proto/simple.impl.hpp:13-17 | a strict prefix of a frame parses to nothing |
| SimplePkg.ParsedIsFrame | mqas/include/mqas/core/proto/simple.impl.hpp:13-46 | whatever parses is exactly a generated frame |
| SimplePkg.ParseIsStable | mqas/include/mqas/core/proto/simple.impl.hpp:13-27 | bytes behind a parsed frame do not change the outcome |
| VariantCodec.BodyBytes | mqas/src/core/stream.cpp:9-29 | which byte goes where, the count of extra parameters included |
| VariantCodec.RoundTrip | mqas/src/core/stream.cpp:9-54 | all fields and parameters survive generate and parse, for every size up to the limit and no other |
| VariantCodec.PrefixFree | mqas/src/core/stream.cpp:9-29 | no generated command is a prefix of another, so generation is injective |
| VariantCodec.RegenerateIff | mqas/src/core/stream.cpp:36-53 | an accepted body regenerates to itself if and only if it has 9 or more than 13 bytes |
| VariantCodec.AcceptedIff | mqas/src/core/stream.cpp:9-54 | a body is accepted if and only if it is what some command generates, or a command without extra parameters and up to four stray bytes, and it is read as that very command |
| Bytes.ToBigEndian | mqas/include/mqas/comm/binary.hpp:40-52 | the byte loop writes the big-endian form at the offset and nothing else |
| Bytes.FromBigEndian | mqas/include/mqas/comm/binary.hpp:54-67 | the byte loop reads the number the bytes denote |
| Bytes.FourBytes | mqas/include/mqas/comm/binary.hpp:28-52 | the four bytes of a number, the most significant one first |
| Bytes.TwoBytes | mqas/include/mqas/comm/binary.hpp:28-52 | the two bytes of a number, the most significant one first |
| Bytes.ValueOfBigEndian | mqas/include/mqas/comm/binary.hpp:28-67 | writing and reading a number that fits gives it back |
| Bytes.BigEndianOfValue | mqas/include/mqas/comm/binary.hpp:28-67 | reading and writing bytes gives them back |
| IStream.Stream.Write | mqas/src/core/connect.cpp:77-86 | accepted bytes go behind the waiting ones, or none do |
| IStream.Stream.WriteBuf | mqas/src/core/connect.cpp:88-94 | the same without asking the transport |
| IStream.Stream.ReaderRead | mqas/src/core/connect.cpp:116-123 | hands out the oldest bytes, as many as fit |
| IStream.Stream.ReaderSize | mqas/src/core/connect.cpp:125-128 | the number of bytes waiting to go out |
| IStream.Stream.DoWrite | mqas/src/core/connect.cpp:47-64 | after any pulls, drained and waiting bytes are all bytes ever accepted, in order, and as many are drained as were asked for and there |
| IStream.Stream.ReadFunc | mqas/src/core/connect.cpp:130-137 | received bytes go behind the unread ones |
| IStream.Stream.AppendUnread | mqas/src/core/connect.cpp:238-242 | so do bytes moved over from a hold stream |
| IStream.Stream.MoveReadPosUncheck | mqas/src/core/connect.cpp:206-213 | consumes from the front; consumed and unread bytes are all bytes received |
| IStream.Stream.Read | mqas/src/core/connect.cpp:184-204 | returns and consumes the oldest unread bytes, as many as there are |
| IStream.Stream.ReadAll | mqas/src/core/connect.cpp:194-198 | returns and consumes all unread bytes |
| IStream.Stream.ReadAllNotMove | mqas/src/core/connect.cpp:223-228 | shows all unread bytes |
| IStream.Stream.HasUnreadData | mqas/src/core/connect.cpp:180-182 | true exactly when bytes are unread |
| Datagrams.Connect.WriteDatagram | mqas/src/core/engine.cpp:79-93 | appends one datagram; the queue stays sound if and only if it has at most 32767 bytes |
| Datagrams.Connect.OnDgWrite | mqas/src/core/engine.cpp:31-57 | hands out the oldest datagram whole, or changes nothing when it does not fit |
| Datagrams.Connect.DatagramBufSize | mqas/src/core/engine.cpp:27-30 | buffer length less offset is the sum of the queued sizes |
| Datagrams.ResetConditionsAgree | mqas/src/core/engine.cpp:50-55 | the two reset conditions are equivalent |
| Datagrams.DatagramBuffer.Push | mqas/src/tools/datagram_buffer.cpp:6-19 | appends one datagram, also across the reset of both offsets |
| Datagrams.DatagramBuffer.Pop | mqas/src/tools/datagram_buffer.cpp:21-30 | removes and returns the oldest datagram, if any |
| Datagrams.DatagramBuffer.Count | mqas/src/tools/datagram_buffer.cpp:32-35 | the number of datagrams queued |
| Datagrams.DatagramBuffer.Empty | mqas/src/tools/datagram_buffer.cpp:37-40 | whether none is queued |
| Alpn.Split | mqas/src/comm/string.cpp:3-14 | no token holds the delimiter, and joining them gives the text back but for one dropped trailing delimiter |
| Alpn.Find | mqas/src/comm/string.cpp:7 | the first delimiter from a position on, or the end |
| Alpn.BuildList | mqas/src/core/engine_base.cpp:18-25 | the nested loops build the length-prefixed list |
| Alpn.EncodeBytes | mqas/src/core/engine_base.cpp:18-25 | which byte goes where: a length byte, modulo 256, before each name |
| Alpn.ReadsBackIff | mqas/src/core/engine_base.cpp:16-25 | the list reads back as exactly the tokens if and only if each has 1 to 255 bytes |
| P2pContext.Schedule | mqas/src/tools/model/p2p_model.cpp:233-280 | from Ready, for lists of any length: exactly the internal rounds, one external round, then End for ever, with all counters, codes and everything else determined at each call |
| P2pContext.RoundsOfShortLists | mqas/src/tools/model/p2p_model.cpp:250-255 | with at most 127 addresses a side the number of rounds is the largest of 1, n0 - 1 and n1 |
| P2pContext.SizeFitsIff | mqas/src/tools/model/p2p_model.cpp:252-253 | the int8_t keeps a list's size if and only if it is at most 127 |
| P2pContext.LongListIsCutShort | mqas/src/tools/model/p2p_model.cpp:252-253 | with 128 addresses on both sides only one round is left |
| P2pContext.OfferedIff | mqas/src/tools/model/p2p_model.cpp:282-306 | address i of a peer is offered to the other if and only if there is a round i |
| P2pContext.Coverage | mqas/src/tools/model/p2p_model.cpp:243-306 | all addresses of the second peer are offered; all of the first if and only if n0 is at most max(1, n1) |
| P2pContext.ExternalOfferIff | mqas/src/tools/model/p2p_model.cpp:291-302 | the external round offers the other peer's public address if and only if it named an internal one |
| P2pContext.OffersAreGuarded | mqas/src/tools/model/p2p_model.cpp:282-306 | an offer is made only in a round and only if both peers are clients, and carries the code the other peer's reports are checked against |
| P2pContext.ReportedIff | mqas/src/tools/model/p2p_model.cpp:321-337 | whatever is reported, the answer is yes if and only if the context is being tried and both its tags are then non-negative |
| P2pContext.ConnectedByMatches | mqas/src/tools/model/p2p_model.cpp:321-337 | a report answered with yes ends a run in which a report matched for each side |
| P2pContext.RegistrationsCommute | mqas/src/tools/model/p2p_model.cpp:152-169 | the order in which the two peers register does not matter, each fills its own side with its port, stream and addresses, and the context is Ready if and only if both 16-bit ports are positive |
| P2pContext.TagsOnlyByMatch | mqas/src/tools/model/p2p_model.cpp:321-343 | in every life of a context the resting states are sound, and a tag is non-negative only after a report that matched for that side |
| P2pContext.TagIsLastMatch | mqas/src/tools/model/p2p_model.cpp:321-337 | over any registrations, steps, reports and leaves a side's tag is the index of the last report that matched for it, as a 16-bit number, and untouched if none did |
| P2pContext.CodesStay | mqas/src/tools/model/p2p_model.cpp:233-280 | over any such run in which no internal step moves on, the verify codes stay |
| P2pContext.SelfPairIsDead | mqas/src/tools/model/p2p_model.cpp:152-169 | a client registered for a pair with itself stays without a second port: over any run its context is idle, is not stepped, offers nothing and takes no report |
| P2pContext.Usable | mqas/src/tools/model/p2p_model.cpp:161-164 | exactly the addresses that pass the checks are kept |
| P2pContext.UsableAppend | mqas/src/tools/model/p2p_model.cpp:161-164 | address by address: order and repetitions are kept |
| P2pContext.MergeIdInjective | mqas/src/tools/model/p2p_model.cpp:121-128 | equal keys if and only if equal unordered pairs |
| P2pContext.ShiftOrIsSum | mqas/src/tools/model/p2p_model.cpp:121-128 | the key is the 64-bit shift and or the source writes, and both ids can be read back |
| P2pModel.ConnectCxt.NextCxt | mqas/src/tools/model/p2p_model.cpp:233-280 | the recursive method ends, its int8_t counters do not overflow, and it is the flat step of the schedule |
| P2pModel.ConnectCxt.SetCxt | mqas/src/tools/model/p2p_model.cpp:152-169 | in-place registration: usable addresses appended, counters and state reset |
| P2pModel.ConnectCxt.GenerateConnectData | mqas/src/tools/model/p2p_model.cpp:282-309 | the offer to a peer, or none |
| P2pModel.ConnectCxt.Submit | mqas/src/tools/model/p2p_model.cpp:321-337 | in-place report: a matching code marks the other side, and the answer is yes if and only if both sides are marked while the context is tried |
| P2pModel.Model.RegContext | mqas/src/tools/model/p2p_model.cpp:64-86 | the entry of the pair is created or updated, every entry keeps key = id = merged pids in order, is Ready or later only with both ports, and has no second port if the pids are equal |
| P2pModel.SelfPairEntryIsDead | mqas/src/tools/model/p2p_model.cpp:157-167 | in every table the model reaches, the entry of a client paired with itself is never served |
| P2pModel.Model.UnregContext | mqas/src/tools/model/p2p_model.cpp:87-110 | the three outcomes, and that no other entry changes |
| P2pModel.BothRegister | mqas/src/tools/model/p2p_model.cpp:64-86 | after both peers have registered, one entry holds each side's port, stream and addresses, ready if and only if both ports are positive, and no other entry has changed |
| P2pModel.LeavingRemovesIff | mqas/src/tools/model/p2p_model.cpp:87-110 | leaving removes the entry if and only if the other peer's stream is gone, and otherwise resets the leaving peer's stream and nothing else |
| P2pModel.Model.ExistContextPeer | mqas/src/tools/model/p2p_model.cpp:102-110 | whether a peer's stream in a context is still there |
| P2pModel.Model.ClearContext | mqas/src/tools/model/p2p_model.cpp:171-174 | removes exactly this entry |
| P2pModel.Model.NextCxt | mqas/src/tools/model/p2p_model.cpp:199-208 | one step of one context, with its offer |
| P2pModel.Model.CurrentCxt | mqas/src/tools/model/p2p_model.cpp:210-229 | the current offer without a step |
| P2pModel.Model.SubmitVerifyCode | mqas/src/tools/model/p2p_model.cpp:321-337 | a report reaches exactly its context, and is answered with yes if and only if that is tried and both its sides are marked afterwards |
| Probe.ProbeBodyRoundTrip | mqas/src/tools/stream/p2p_helper_client.cpp:67-123 | code, id and address index survive the ten-byte body |
| Probe.ParsedProbeIsLayout | mqas/src/tools/stream/p2p_helper_client.cpp:99-123 | exactly the ten-byte bodies are probes, and each is the layout of its numbers |
| Probe.ReportMarksIffHeld | mqas/src/tools/model/p2p_model.cpp:321-337 | the partner's report of a probe matches and marks the right side if and only if the context is tried under the offered code |
| Probe.ProbeEndToEnd | mqas/src/tools/stream/p2p_helper_client.cpp:67-139 | what is offered to x, sent by x, received and reported by y after any registrations, steps, reports and leaves marks x's side with the offered index and nothing else if and only if the context is still tried under the offered code, which holds if no new codes were drawn; otherwise it changes nothing |
| Probe.Rendezvous | mqas/src/tools/model/p2p_model.cpp:321-337 | with any events before and between the two reports, both offers still held: the last report finds both sides marked if and only if no later matching report named a negative index for the first side |
| UniqueId.IdGenerator.Next | mqas/include/mqas/tools/unique_id_generator.impl.hpp:7-20 | the id just below all ids in use, else the one just above them, 1 to begin with; or 0 if and only if 1 and the maximum are both in use, which takes at least max calls |
| UniqueId.IdGenerator.Remove | mqas/include/mqas/tools/unique_id_generator.impl.hpp:24-32 | exactly this id is given back |
| UniqueId.First | mqas/include/mqas/tools/unique_id_generator.impl.hpp:36-42 | the smallest id in use |
| UniqueId.Last | mqas/include/mqas/tools/unique_id_generator.impl.hpp:36-42 | the largest id in use |
| Relay.NewcomerIsPaired | mqas/src/tools/model/relay_model.cpp:8-19 | pairing keeps, for every token, relays equal to the connections paired up in order of arrival and at most one waiting |
| Relay.NewcomerWaits | mqas/src/tools/model/relay_model.cpp:20-23 | so does waiting |
| Relay.RelayModel.TryConnect | mqas/src/tools/model/relay_model.cpp:6-25 | waits or pairs with the one waiting under a new id; ids in use stay the keys of the relay table, and connections = waiting + 2 (live + removed relays) |
| Relay.RelayModel.RemoveRelay | mqas/src/tools/model/relay_model.cpp:34-43 | removes one relay and frees its id |
| Relay.RelayModel.RemoveWaiting | mqas/src/tools/model/relay_model.cpp:45-53 | reports and changes nothing |
| JitterRing.Displacement | examples/p2p_voice/audio_codec.cpp:118-122 | an accepted packet displaces one at most one ring newer, and none newer if its slot is in the lower half |
| JitterRing.ThresholdNeverWraps | examples/p2p_voice/audio_codec.cpp:118 | the uint32 threshold neither overflows nor wraps below zero |
| JitterRing.StaleIff | examples/p2p_voice/audio_codec.cpp:118 | a packet is dropped if and only if a lap is complete and it is more than half a ring before the start of the newest packet's lap |
| JitterRing.RecentIsKept | examples/p2p_voice/audio_codec.cpp:118-122 | a packet at most half a ring older than the newest one is never dropped |
| JitterRing.LapAppend | examples/p2p_voice/audio_codec.cpp:152-159 | raising the base keeps it the lap of the largest accepted number |
| JitterRing.WireBytes | examples/p2p_voice/audio_codec.cpp:93-96 | which byte goes where: number, checksum of the payload, payload |
| JitterRing.HeaderIff | examples/p2p_voice/audio_codec.cpp:93-116 | a packet's header is accepted with number n if and only if the packet is what encode lays out for n |
| JitterRing.AudioCodec.constructor | examples/p2p_voice/audio_codec.cpp:52-56 | an empty ring of twice the size |
| JitterRing.AudioCodec.Encode | examples/p2p_voice/audio_codec.cpp:78-100 | number, checksum and payload under the next number; a buffer too small and an encoder error are returned and use up no number |
| JitterRing.AudioCodec.GetCacheIndexOffset | examples/p2p_voice/audio_codec.cpp:233-236 | the packet number's residue |
| JitterRing.AudioCodec.GetJitterBufOffset | examples/p2p_voice/audio_codec.cpp:238-242 | where that slot's samples start, within the flat buffer |
| JitterRing.AudioCodec.TryGetJitterBuffer | examples/p2p_voice/audio_codec.cpp:224-231 | claims exactly one slot |
| JitterRing.AudioCodec.Decode | examples/p2p_voice/audio_codec.cpp:102-163 | short, damaged and stale packets change nothing; any other becomes the last packet of its residue with its frame, and the base stays the newest packet's lap |
| JitterRing.AudioCodec.IsPrevious | examples/p2p_voice/audio_codec.cpp:118-122 | the test in uint32 arithmetic is the one of StaleIff |
| JitterRing.AudioCodec.NextFarEndData | examples/p2p_voice/audio_codec.cpp:171-217 | conceals while fewer than half a ring of packets have come in; then the number played is hits plus losses (both counted modulo 2^32), and the cached frame plays if and only if the last accepted packet of the residue has that number, and then it is that packet's frame |

## Left out

- lsquic, OpenSSL, libuv, Opus, PortAudio, protobuf and the generated message classes: callbacks, codec results and checksums are parameters.
- Engine dispatch, configuration, TLS setup, timers, sockets, the lobby and helper streams and the user interface: forwarding or plumbing.
- Writes that fail in the middle of a run of two ends: the class models them, the runs assume none.
- Reply buffers beyond the frame limit, and handlers that call back into the protocol while a message is being read: none of these is modelled.
- Requests and answers of a paused stream: those of the current stream are modelled, with any tag.
- Flushing of a paused stream's own write buffer across a switch: the two ends talk over FIFO channels of whole commands.
- A hold stream's own message format, and the pause, resume, change and quit signals: only the codes and flags they lead to matter here.
- `change_self` and outside calls of `change_to`, which skip the push check.
- Client registration and its id bounds in the rendezvous server; the table of clients is given.
- The thread-safe id generator and the interleaving of threads inside one voice codec method.
- `is_same_external`, which nothing reads, and the token of a context.
- `erase_substr` and the unused `init_cxt`.
- ShellReader.DoReadCurr: assumes that a handler uses at most the bytes it is shown, and that reading does not replace the stream being read.
- JitterRing.AudioCodec.constructor: ring sizes of 32768 and more are excluded, because their double no longer fits the 16-bit slot count, and so is 0, by which the source would divide.
