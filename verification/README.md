# JRTPLIB core: a verified model

This project models the protocol core of JRTPLIB 3.11.2, an implementation of RTP
and RTCP (RFC 3550), and proves what its parts promise each other. The rest of the
repository that vendors the library is sockets, codecs and glue.

The model follows the library's form. What the library changes in place is a class
whose methods change the same fields (the key hash table with its chains and its
list, the reception statistics, the source table, the session, the scheduler, the
TCP reassembler, RTP packets, the compound packet parser and builder). Each class
is tied to a value that says what it stands for; every method states the whole new
value as a function of the old one, and the lemmas prove the whole-run properties
of those functions.

| Files | What they model |
|---|---|
| `Types.dfy`, `Wire.dfy` | fixed-width integers, addresses, big-endian fields |
| `TableView.dfy`, `TableRuns.dfy`, `KeyHashTable.dfy` | the table of chains with an insertion-ordered list and a cursor |
| `SourceState.dfy`, `Reception.dfy`, `SourceStats.dfy`, `SourceData.dfy` | one source: probation, sequence numbers, reorder queue, flags |
| `ReorderRuns.dfy` | what is queued and handed out over runs of packets |
| `SourceTable.dfy`, `SourceCounters.dfy`, `Sources.dfy` | the source table, its counters and its timeouts |
| `SourceHistory.dfy`, `SourceValidity.dfy`, `OwnHistory.dfy` | what the entries say about the events so far |
| `Session.dfy`, `SessionRuns.dfy` | the session's own SSRC and its collisions |
| `Scheduler.dfy`, `TimerAnswers.dfy` | the RTCP timer, when it answers no and when yes |
| `TcpFraming.dfy`, `PacketRouting.dfy` | RTP over TCP (section 2 of RFC 4571), and telling RTCP from RTP |
| `RtpPacket.dfy` | RTP packets |
| `RtcpPackets.dfy`, `SdesPacket.dfy`, `CompoundPacket.dfy` | reading RTCP |
| `RtcpEncoding.dfy`, `RoundTrip.dfy`, `BuildModel.dfy`, `CompoundBuilder.dfy` | building compound packets, their sizes, and the round trip |
| `BuildCalls.dfy` | which builder calls are accepted, and what is delivered |
| `PacketBuilder.dfy`, `NextPackets.dfy` | which packets a session builds, and what they carry |
| `WireFormats.dfy`, `SdesFormat.dfy` | all formats in bytes and numbers, and padding |

## Findings

Where the code does less than one would expect, the model does what the code does.
For each of these there is an input at which it shows, and a lemma that says for all
inputs exactly when the expected property holds.

- A contributing source that already has an entry is made active without being
  counted (`rtpsources.cpp:364-368`). `CountersOverRuns` gives the exact shortfall;
  `ActiveCountCanBeNegative` is a run after which the counter is -1.
- With an own entry it can go from 2 to -2, one BYE at a time (`OwnCountCanBeNegative`).
  These counts reach reverse reconsideration (`NegativeCountsReachTheTimer`), which
  then takes the time of the last transmission past the clock, and back when the count
  before was negative as well (`NegativeCountsBreakTheClock`). `ReverseKeepsClock` says
  exactly when neither happens in one call, and `PrevOverRuns` over a whole run.
- The first SDES source needs 12 bytes, but 0 are predicted. `OutgrownRun` is a run
  whose packet outgrows its maximum. `RunFits` shows that this is the only way, and
  that an outgrown packet stays so; an external buffer is then too small. The
  library's own packet builder never does this (`NextPacketFits`,
  `NextBuildFollows`, `ByeAlwaysFits`).
- A packet that arrives late from the previous block of 2^16 numbers is taken as
  new (`LateAcrossBoundary`). `ExtendExact` and `ExtensionTracksTrueIndex` say exactly
  which packets get their index.
- The table cursor is not set by the constructor, and `Clear` leaves a cursor that
  was on an element dangling (`ClearLeavesDangling`). `StepDangles` and `CursorSet`
  say exactly after which operations and runs it cannot be used.
- An RTCP packet of more than 2^16 words has a truncated length field (`OverlongRun`).
  `PacketsShort` shows that only an SDES packet can be that long, and
  `ParsesIfGroupsShort` says for exactly which chunks the bytes parse into the packets
  that were built; with other chunks they may be refused or parse into others.
- The RTP parser reads the length of a header extension before it knows that the
  packet holds it (`ShortExtension`). `ReadsPastEnd` says for exactly which packets,
  and that they are refused whatever bytes follow.
- The RTP builder refuses the payload types 72 and 73, but over TCP a packet with the
  marker bit and a payload type of 74 to 76 is taken for RTCP as well
  (`MisroutedPacket`). `BuiltIsRtp` says that these are the only ones.
- On a packet that has outgrown its maximum a report is always accepted, because the
  room left wraps (`LateReportRun`). `CallAccepted` says for every call when it is
  accepted; no packet exceeds its maximum by more than 40 bytes (`RunBounded`).
- A source that is only known as a contributing one has never been heard from, so the
  next member sweep removes it, however recent the packet that named it
  (`CsrcIsStale`). `SweepDropsStale` says exactly which sources a sweep removes.

## Conventions

Times and bandwidths are reals. Integers are bounded where the library's width
matters, and wrap explicitly (`Wrap16`, `Wrap32`, `SIZE_MODULUS`). Clock readings,
random numbers, the amounts that socket calls return, and the arrival of packets
are parameters or arbitrary. Probation and private SDES items are compiled in,
unknown RTCP packets are not. A proof that starts with `hide` does without the
definitions it names, which keeps its cost the same from run to run.

## Model

| member | source | states |
|---|---|---|
| KeyHashTable.KeyHashTable.AddElement | jrtplib-3.11.2/src/rtpkeyhashtable.h:257-305 | on the linked structure itself: a new key goes last in the list and into the chain of its index; a present key and an index outside the table are refused and change nothing; every list and chain link, forward and back, is right again afterwards |
| KeyHashTable.KeyHashTable.DeleteCurrentElement | jrtplib-3.11.2/src/rtpkeyhashtable.h:121-174 | removes exactly the element under the cursor from its chain and from the list, relinks both, and leaves the cursor on the list successor; at the end it fails and changes nothing |
| KeyHashTable.KeyHashTable.DeleteElement | jrtplib-3.11.2/src/rtpkeyhashtable.h:308-316 | deletes the element of a key, wherever the cursor was; an absent key only moves the cursor off the list |
| KeyHashTable.KeyHashTable.GotoElement | jrtplib-3.11.2/src/rtpkeyhashtable.h:177-198 | the walk of one chain finds a key exactly when the list has it, and the cursor goes there, or off the list |
| KeyHashTable.KeyHashTable.HasElement | jrtplib-3.11.2/src/rtpkeyhashtable.h:201-221 | true exactly for the keys in the list, without moving the cursor |
| KeyHashTable.KeyHashTable.FindNode | jrtplib-3.11.2/src/rtpkeyhashtable.h:187-197 | the chain search returns the one node of the whole list that has the key, or null |
| KeyHashTable.KeyHashTable.GotoNextElement | jrtplib-3.11.2/src/rtpkeyhashtable.h:224-228 | moves the cursor to the list successor |
| KeyHashTable.KeyHashTable.GotoPreviousElement | jrtplib-3.11.2/src/rtpkeyhashtable.h:231-235 | moves the cursor to the list predecessor |
| KeyHashTable.KeyHashTable.Clear | jrtplib-3.11.2/src/rtpkeyhashtable.h:238-254 | empties chains and list; a cursor on an element is left dangling |
| KeyHashTable.IndexedRemove | jrtplib-3.11.2/src/rtpkeyhashtable.h:121-174 | a list without one of its nodes still has every node under the index of its key, with unique keys |
| KeyHashTable.FoundInBucket | jrtplib-3.11.2/src/rtpkeyhashtable.h:177-221 | a key of the list is in the chain of its index, so searching that chain alone misses nothing |
| TableRuns.StepRefines | jrtplib-3.11.2/src/rtpkeyhashtable.h:107-316 | each table operation does to map, key order and cursor what the simple structure (a map, a list of keys, a key or none) does, where neighbours and removals are defined by key instead of by position |
| TableRuns.RunRefines | jrtplib-3.11.2/src/rtpkeyhashtable.h:107-316 | after any run of inserts, deletes, cursor moves and clears from the empty table: the list has each live key once, in order of insertion, lookup agrees with the map for every key, and the cursor is on the key it should be on |
| TableRuns.CursorSet | jrtplib-3.11.2/src/rtpkeyhashtable.h:107-118 | over any run of all operations, the cursor cannot be used if and only if no operation has set it since the start, or since a Clear that found it on a key |
| TableRuns.StepDangles | jrtplib-3.11.2/src/rtpkeyhashtable.h:107-254 | after one operation the cursor cannot be used if and only if the operation does not set it, and it could not be used before or Clear found it on an element |
| TableRuns.NeverSet | jrtplib-3.11.2/src/rtpkeyhashtable.h:107-118 | without an operation that sets it, the cursor stays as the constructor left it |
| TableRuns.ClearLeavesDangling | jrtplib-3.11.2/src/rtpkeyhashtable.h:238-254 | a concrete run, insert, search and Clear, after which a cursor that had been set dangles |
| TableRuns.Perform | jrtplib-3.11.2/src/rtpkeyhashtable.h:107-316 | the linked table performs each operation as the step on its list-and-cursor value says |
| TableRuns.PerformAll | jrtplib-3.11.2/src/rtpkeyhashtable.h:107-316 | a new linked table, after any operations that use the cursor only when it can be used, holds what the run of its value holds, so that RunRefines speaks about the linked structure |
| SourceStats.SourceStats.ProcessPacket | jrtplib-3.11.2/src/rtpsourcedata.cpp:78-181 | updates every counter of a source in place exactly as the state function used in the whole-run lemmas says: probation, acceptance, and number extension |
| SourceStats.SourceStats.AcceptPacket | jrtplib-3.11.2/src/rtpsourcedata.cpp:48-73 | the first accepted packet sets the base one below its number, also when that number is 0 |
| SourceStats.SourceStats.ExtendNumber | jrtplib-3.11.2/src/rtpsourcedata.cpp:146-181 | extends a 16-bit number by the cycles counted so far, with the 16- and 32-bit wrap-around of the code |
| Reception.ExtendExact | jrtplib-3.11.2/src/rtpsourcedata.cpp:146-181 | the number assigned to a packet is its 32-bit index if and only if the index is later in the highest block, up to 32768 back in it, in the next block at most 32767 ahead, or in the first block as the successor of the last; then the highest number is the maximum, or the index after that overflow, and the cycles are its upper half |
| Reception.ExtensionTracksTrueIndex | jrtplib-3.11.2/src/rtpsourcedata.cpp:146-181 | over any run of arrivals with any 32-bit indices: all assigned numbers are the indices if and only if every arrival is in that window of the highest one before it; the final highest number is then the running maximum, which starts again at an overflow |
| Reception.ExtendMonotone | jrtplib-3.11.2/src/rtpsourcedata.cpp:146-181 | without any window: the cycles are always the upper half of the highest number, the low half of the assigned number is the 16-bit number, and the highest number decreases if and only if the 32-bit number overflows |
| Reception.LateAcrossBoundary | jrtplib-3.11.2/src/rtpsourcedata.cpp:163-177 | a concrete late packet from the block before the highest one is taken as new |
| Reception.ProbationEndsAtFirstTriple | jrtplib-3.11.2/src/rtpsourcedata.cpp:88-135 | over any arrivals: the first acceptance is exactly at the first packet that completes three arrivals in a row with consecutive numbers, wrap-around included |
| Reception.SourceValidatedAtFirstTriple | jrtplib-3.11.2/src/rtpinternalsourcedata.cpp:57-107 | over any RTP packets for a source that has received nothing, whatever the callback answers: the source becomes valid exactly at the first packet that completes three arrivals in a row with consecutive numbers; without probation, at the first packet |
| Reception.ValidatedWhenAccepted | jrtplib-3.11.2/src/rtpinternalsourcedata.cpp:57-107 | a source on probation becomes valid by its RTP packets exactly when its statistics accept the first one |
| Reception.FirstAcceptanceSetsBase | jrtplib-3.11.2/src/rtpsourcedata.cpp:48-73 | at the first acceptance, by probation or not, base + 1 is the highest number is the assigned number, also for number 0 |
| SourceData.SourceData.ProcessRTPPacket | jrtplib-3.11.2/src/rtpinternalsourcedata.cpp:57-186 | the validation switch over the probation types, the sender flag and the queue, as one function of the source before the call |
| SourceData.SourceData.Validate | jrtplib-3.11.2/src/rtpinternalsourcedata.cpp:85-107 | a packet is kept if accepted, or while on probation if packets are stored then; only acceptance validates |
| SourceData.SourceData.QueuePacket | jrtplib-3.11.2/src/rtpinternalsourcedata.cpp:146-184 | the backward search puts a packet at its place in the sorted list, or leaves the list alone if its number is there |
| SourceData.SourceData.StorePacket | jrtplib-3.11.2/src/rtpinternalsourcedata.cpp:125-184 | before validation a full list of 32 first loses its smallest packet |
| SourceData.SourceData.ProcessSDESItem | jrtplib-3.11.2/src/rtpinternalsourcedata.cpp:189-260 | stores the item and validates on a first CNAME; a different later CNAME is reported and ignored |
| SourceData.SourceData.GetNextPacket | jrtplib-3.11.2/src/rtpsourcedata.h:454-466 | takes the first queued packet of a validated source |
| Reception.InsertIncreasing | jrtplib-3.11.2/src/rtpinternalsourcedata.cpp:146-184 | insertion keeps the queue strictly increasing in extended number |
| Reception.InsertContents | jrtplib-3.11.2/src/rtpinternalsourcedata.cpp:146-184 | an equal number leaves the queue as it was; any other adds exactly the new packet and loses none |
| Reception.ProcessRtpKeeps | jrtplib-3.11.2/src/rtpinternalsourcedata.cpp:57-186 | every packet keeps the queue sorted, at most 32 long while unvalidated, and the cycles in step with the highest number |
| Reception.NextPacketIsSmallest | jrtplib-3.11.2/src/rtpsourcedata.h:454-466 | nothing comes out before validation; after it the smallest queued number comes out and the rest stays |
| Sources.RTPSources.ObtainSourceDataInstance | jrtplib-3.11.2/src/rtpsources.cpp:822-851 | finds the entry of an SSRC, or appends a new one and counts it in the total |
| Sources.RTPSources.CheckCollision | jrtplib-3.11.2/src/rtpsources.cpp:1354-1438 | binds a source to the first address it is heard from, per channel; another address, or another host on the other channel, collides |
| Sources.RTPSources.CreateOwnSSRC | jrtplib-3.11.2/src/rtpsources.cpp:98-122 | refuses exactly if there is an own entry or the SSRC is taken; otherwise adds an active own entry and counts it |
| Sources.RTPSources.DeleteOwnSSRC | jrtplib-3.11.2/src/rtpsources.cpp:125-145 | removes exactly the own entry and uncounts what it counted for |
| Sources.RTPSources.SentRTPPacket | jrtplib-3.11.2/src/rtpsources.cpp:148-157 | marks the own entry as a sender, counting it once |
| Sources.RTPSources.ProcessRTPPacket | jrtplib-3.11.2/src/rtpsources.cpp:291-373 | admits the source, checks its address, processes the packet, counts the transitions, and marks the contributing sources of a valid source: the whole table after the call as a function of the table before; also whether the packet is kept, and whether the own entry was reached |
| Sources.RTPSources.ProcessCSRC | jrtplib-3.11.2/src/rtpsources.cpp:353-369 | a contributing source that already has an entry is marked without being counted as active; tells whether it is the own one |
| Sources.RTPSources.ProcessSDESNormalItem | jrtplib-3.11.2/src/rtpsources.cpp:706-763 | an unknown item type is reported and changes nothing; an item of a known type goes to its source, which may become active and be counted; tells whether the CNAME differs from the one before |
| Sources.RTPSources.ProcessBYE | jrtplib-3.11.2/src/rtpsources.cpp:792-819 | a BYE marks its source and uncounts it if it was active; a BYE for the own SSRC is ignored |
| Sources.RTPSources.UpdateReceiveTime | jrtplib-3.11.2/src/rtpsources.cpp:883-902 | refreshes the time a source was last heard |
| Sources.RTPSources.SenderTimeout | jrtplib-3.11.2/src/rtpsources.cpp:969-1021 | clears the sender flag of the sources with no recent RTP packet and recounts, visiting each entry once although the table is walked by its cursor |
| Sources.RTPSources.BYETimeout | jrtplib-3.11.2/src/rtpsources.cpp:1024-1094 | deletes while iterating exactly the other sources whose BYE is old enough, in order, each entry visited once; all counters are recounted |
| Sources.RTPSources.Timeout | jrtplib-3.11.2/src/rtpsources.cpp:905-966 | the same for the other sources not heard from in time |
| Sources.RTPSources.NoteTimeout | jrtplib-3.11.2/src/rtpsources.cpp:1097-1152 | the same for expired notes; nothing is deleted |
| Sources.RTPSources.MultipleTimeouts | jrtplib-3.11.2/src/rtpsources.cpp:1155-1284 | one pass over the table that checks all four times per entry |
| Sources.RTPSources.Clear | jrtplib-3.11.2/src/rtpsources.cpp:75-96 | walks the list to its end, so that the cursor is left off the list, and empties the table and its counters |
| Sources.RTPSources.SweepList | jrtplib-3.11.2/src/rtpsources.cpp:905-1284 | the shared loop: with deletion moving the cursor to the successor, every entry is treated exactly once and kept in order |
| SourceCounters.MultipleTimeoutsIsAllFour | jrtplib-3.11.2/src/rtpsources.cpp:1155-1284 | the single pass leaves the same entries, order, flags, notes and counters as the four sweeps one after the other with the same times |
| SourceCounters.SweepKeepsOwn | jrtplib-3.11.2/src/rtpsources.cpp:905-1284 | a sweep keeps the own entry, which no time can delete |
| SourceCounters.SweepKeeps | jrtplib-3.11.2/src/rtpsources.cpp:905-1284 | every sweep keeps the invariant and makes all three counters exact |
| SourceCounters.ProcessRtpPacketKeeps | jrtplib-3.11.2/src/rtpsources.cpp:291-373 | an RTP packet keeps the invariant and lets the active counter fall short by exactly the contributing sources it marks without counting |
| SourceCounters.StepKeeps | jrtplib-3.11.2/src/rtpsources.cpp:98-1284 | every table event keeps: one entry per SSRC, the own entry unique and active, sorted queues, exact total and sender counters, and the exact shortfall of the active counter |
| SourceCounters.CountersOverRuns | jrtplib-3.11.2/src/rtpsources.cpp:98-1284 | in every reachable state total and sender counters are exact, and the active counter plus the uncounted markings since the last sweep is the number of active entries; so it is exact if and only if there were none |
| SourceCounters.ActiveCountCanBeNegative | jrtplib-3.11.2/src/rtpsources.cpp:364-368 | a concrete run of two packets and two BYEs after which the active counter is -1 |
| SourceCounters.OwnCountCanBeNegative | jrtplib-3.11.2/src/rtpsources.cpp:364-368 | a run of a table with an own entry: one packet names three known sources, all four say goodbye, and the active counter goes from 2 to -2 although the own entry stays active |
| SourceCounters.GoodbyesExist | jrtplib-3.11.2/src/rtpsources.cpp:364-368 | there is such a run |
| SourceCounters.CollidesIs | jrtplib-3.11.2/src/rtpsources.cpp:1354-1438 | handling an event finds a collision with the own entry if and only if the event comes from an address and carries the own SSRC, as its source or as a contributing source of a valid one |
| Session.RTPPacketBuilder.CreateNewSSRC | jrtplib-3.11.2/src/rtppacketbuilder.cpp:174-191 | picks the first drawn number that no entry of the table has, and resets the counters |
| Session.RTPSession.SetUpOwnSSRC | jrtplib-3.11.2/src/rtpsession.cpp:220-238 | creating the own entry for the drawn or the predefined SSRC is never refused, and sets up the session invariant |
| Session.RTPSession.UpdateAddress | jrtplib-3.11.2/src/rtpcollisionlist.cpp:59-83 | records an address and its time; reports whether it was new |
| Session.RTPSession.ExpireAddresses | jrtplib-3.11.2/src/rtpcollisionlist.cpp:98-116 | erases while iterating exactly the addresses that are too old |
| Session.RTPSession.ReplaceOwn | jrtplib-3.11.2/src/rtpsession.cpp:1459-1472 | deleting the old own entry and creating the new one are both never refused after CreateNewSSRC |
| Session.RTPSession.HandleCollision | jrtplib-3.11.2/src/rtpsession.cpp:1406-1474 | if the own entry was reached, an address that is new to the collision list queues a BYE if data was sent and moves to a new SSRC; a known one only updates the time |
| Session.RTPSession.ProcessPolledPacket | jrtplib-3.11.2/src/rtpsession.cpp:1392-1475 | one turn of the packet loop as a function of the whole session state, the collision found by the packet itself included |
| Session.RTPSession.ExpireAll | jrtplib-3.11.2/src/rtpsession.cpp:1478-1491 | the sweeps of the source table and the collision list after the packet loop |
| Session.RTPSession.RTCPSent | jrtplib-3.11.2/src/rtpsession.cpp:1499-1552 | when it is time, a queued BYE or the next packet is sent: RTCP counts as sent, and the own source does not become a sender |
| Session.RTPSession.APPPacketSent | jrtplib-3.11.2/src/rtpsession.cpp:718-776 | an APP packet sent by the application only notes that something was sent |
| Session.OwnIsUnique | jrtplib-3.11.2/src/rtpsources.cpp:98-122 | a table with an own SSRC has exactly one own entry, under that SSRC, and it is active |
| Session.FreshSsrcTaken | jrtplib-3.11.2/src/rtpsources.cpp:98-145 | an SSRC absent from the table differs from the own one, stays absent when the own entry is deleted, and is then accepted |
| Session.OwnSsrcOverRuns | jrtplib-3.11.2/src/rtpsession.cpp:1374-1491 | in every state between session steps (data, RTCP and APP packets sent, packets handled, timeouts, packets fetched) there is exactly one own entry, it is active, and its SSRC is the packet builder's |
| Session.CollisionMovesAway | jrtplib-3.11.2/src/rtpsession.cpp:1406-1474 | a collision moves to an SSRC that no entry had, different from the old one; a second collision from the same address moves nothing |
| Session.RunCollidesIs | jrtplib-3.11.2/src/rtpsession.cpp:1392-1475 | a raw packet finds a collision with the own entry if and only if one of its events comes from an address and carries the own SSRC |
| Session.PollMovesIf | jrtplib-3.11.2/src/rtpsession.cpp:1392-1475 | a raw packet moves the session to another SSRC if and only if one of its events does that and its sender has not collided before |
| Session.NegativeCountsReachTheTimer | jrtplib-3.11.2/src/rtpsessionsources.cpp:76-90 | the counts of the run that breaks the clock are the active counter of a session after each BYE |
| Scheduler.RTCPScheduler.IsTime | jrtplib-3.11.2/src/rtcpscheduler.cpp:179-233 | timer reconsideration on the fields in place, as a function of the state, the clock, and the random numbers |
| Scheduler.RTCPScheduler.GetTransmissionDelay | jrtplib-3.11.2/src/rtcpscheduler.cpp:158-176 | starts the timer on the first call, and returns the time left |
| Scheduler.RTCPScheduler.PerformReverseReconsideration | jrtplib-3.11.2/src/rtcpscheduler.cpp:316-354 | moves both times towards now in proportion to the loss of members |
| Scheduler.RTCPScheduler.ActiveMemberDecrease | jrtplib-3.11.2/src/rtcpscheduler.cpp:386-390 | reconsiders only if there are fewer members than before |
| Scheduler.RTCPScheduler.ScheduleBYEPacket | jrtplib-3.11.2/src/rtcpscheduler.cpp:357-383 | starts the BYE back-off once, immediately for fewer than 50 members if so configured |
| Scheduler.RTCPScheduler.AnalyseIncoming | jrtplib-3.11.2/src/rtcpscheduler.cpp:109-134 | updates the average packet size, or during BYE back-off counts the BYEs |
| Scheduler.RTCPScheduler.AnalyseOutgoing | jrtplib-3.11.2/src/rtcpscheduler.cpp:137-155 | updates the average and notes that RTCP has been sent; a BYE does not enter the average |
| Scheduler.IntervalBound | jrtplib-3.11.2/src/rtcpscheduler.cpp:248-313 | every drawn interval is at least half the minimum interval divided by 1.21828, for every population |
| Scheduler.PrevOverRuns | jrtplib-3.11.2/src/rtcpscheduler.cpp:158-390 | over any run with a clock that does not go back: in no step does the time of the last transmission decrease or pass the clock, if and only if every reverse reconsideration is harmless |
| Scheduler.ReverseKeepsClock | jrtplib-3.11.2/src/rtcpscheduler.cpp:316-354 | for every state and count: reverse reconsideration neither takes that time back nor lets it pass the clock if and only if the count is not negative, or is not below the last one, or the timer has not started, or no time has passed |
| Scheduler.NegativeCountsBreakTheClock | jrtplib-3.11.2/src/rtcpscheduler.cpp:316-354 | a run from a new timer: it starts with two members, and one is uncounted at times 1, 2, 3 and 6; at time 3 the time of the last transmission is 4, past the clock, and at time 6 it is back at 2 |
| Scheduler.TransmissionsAreSpaced | jrtplib-3.11.2/src/rtcpscheduler.cpp:179-313 | whatever happens between a positive answer and a later one without a scheduled BYE, if the reverse reconsiderations are harmless, as with counts that are not negative, they are at least half the minimum interval over 1.21828 apart; the full minimum counts once RTCP has been sent |
| Scheduler.RepeatedCallIsRefused | jrtplib-3.11.2/src/rtcpscheduler.cpp:179-233 | after any call, a second one at the same instant answers no |
| Scheduler.DelayIsKept | jrtplib-3.11.2/src/rtcpscheduler.cpp:158-233 | asking again before the announced delay has passed is answered no |
| Scheduler.AggregateRateWithinBandwidth | jrtplib-3.11.2/src/rtcpscheduler.cpp:248-296 | for any list of members, if senders use the sender interval and the others the receiver interval, all together send at most the RTCP bandwidth, in both branches |
| TcpFraming.SocketData.ProcessAvailableBytes | jrtplib-3.11.2/src/rtptcptransmitter.cpp:862-932 | consumes at least one byte unless reading fails, never reads past the frame, and has a whole frame exactly when it says so |
| TcpFraming.TCPTransmitter.PollSocket | jrtplib-3.11.2/src/rtptcptransmitter.cpp:693-761 | the loop ends; what it has delivered and what it remembers are functions of the bytes consumed only, with short reads, partial availability and errors |
| TcpFraming.TCPTransmitter.TakePacket | jrtplib-3.11.2/src/rtptcptransmitter.cpp:725-756 | a whole frame becomes one raw packet with its payload, classified as RTP or RTCP by its second byte |
| TcpFraming.TCPTransmitter.SendRTPRTCPData | jrtplib-3.11.2/src/rtptcptransmitter.cpp:770-820 | every destination gets the frame, unless sending fails; exactly the failing ones are reported; oversized data goes to none |
| TcpFraming.ReadInParts | jrtplib-3.11.2/src/rtptcptransmitter.cpp:862-932 | reading a stream in two parts is reading it whole: the second part continues from what the first one left |
| TcpFraming.FramedReadsBack | jrtplib-3.11.2/src/rtptcptransmitter.cpp:770-820 | the frames of any payloads of 0 to 65535 bytes read back as those payloads with nothing left over |
| TcpFraming.CutsDoNotMatter | jrtplib-3.11.2/src/rtptcptransmitter.cpp:693-761 | however a stream is cut, what has been delivered and what is remembered depend only on the bytes |
| TcpFraming.FramedStreamIsDelivered | jrtplib-3.11.2/src/rtptcptransmitter.cpp:693-820 | the framed stream of some payloads, cut anywhere, delivers exactly those payloads in order |
| RtpPacket.RTPPacket.BuildPacket | jrtplib-3.11.2/src/rtppacket.cpp:222-320 | refuses too many CSRCs, bad payload types and packets over the maximum in that order; otherwise writes exactly the encoding, in the given or a new buffer |
| RtpPacket.RTPPacket.ParseRawPacket | jrtplib-3.11.2/src/rtppacket.cpp:103-205 | accepts exactly the packets that pass the checks, and sets the members so that the accessors read the decoded fields inside the packet |
| RtpPacket.RTPPacket.CSRCsRead | jrtplib-3.11.2/src/rtppacket.cpp:207-220 | GetCSRC gives the CSRCs in order and 0 beyond them |
| RtpPacket.ReadsPastEnd | jrtplib-3.11.2/src/rtppacket.cpp:103-163 | the parser reads past the end of a packet if and only if the checks before pass, the extension bit is set and the packet is shorter than 16 + 4 * CSRC count; such a packet is refused, and what follows it in memory decides nothing |
| RtpPacket.ShortExtension | jrtplib-3.11.2/src/rtppacket.cpp:150-160 | a packet of twelve bytes of which sixteen are read |
| RtpPacket.EncodeReadsBack | jrtplib-3.11.2/src/rtppacket.cpp:103-320 | an encoded packet is accepted if and only if it does not look like an SR or RR, and then decodes to the same fields, CSRCs, extension and payload |
| RtpPacket.BuiltPacketReadsBack | jrtplib-3.11.2/src/rtppacket.cpp:103-320 | every packet the builder accepts is accepted by the parser and gives everything back: the refused payload types cover the RTCP look-alikes |
| CompoundPacket.RTCPCompoundPacket.ParseData | jrtplib-3.11.2/src/rtcpcompoundpacket.cpp:105-198 | succeeds exactly on compound packets, and then lists the packets with type, place, length and known format; on failure the list is empty |
| CompoundPacket.CreatePacket | jrtplib-3.11.2/src/rtcpcompoundpacket.cpp:159-178 | each packet is given to the constructor of its type; a packet of another type is always of known format |
| CompoundPacket.ParseTiles | jrtplib-3.11.2/src/rtcpcompoundpacket.cpp:105-198 | for arbitrary bytes that parse: the extents tile the whole buffer in order, each a positive multiple of 4; the first is an SR or RR; only the last may be padded |
| RtcpPackets.CutTiles | jrtplib-3.11.2/src/rtcpcompoundpacket.cpp:105-198 | the packets cut from a buffer concatenate to it, and each announces its own length |
| RtcpPackets.FlattenCuts | jrtplib-3.11.2/src/rtcpcompoundpacket.cpp:105-198 | any such list of packets is cut back into itself, so the packets of a buffer are unique |
| RtcpPackets.ReportKnownFormat | jrtplib-3.11.2/src/rtcpsrpacket.cpp:43-70 | known format exactly if the unpadded length is header, sender information and as many blocks as counted; the same check without sender information is that of receiver reports |
| RtcpPackets.ByeKnownFormat | jrtplib-3.11.2/src/rtcpbyepacket.cpp:44-76 | known format exactly if the SSRCs and the reason fit, and the reason offset is where the reason is |
| RtcpPackets.AppKnownFormat | jrtplib-3.11.2/src/rtcpapppacket.cpp:45-69 | known format exactly if the fixed part fits; the data length is what remains without padding |
| SdesPacket.Walk | jrtplib-3.11.2/src/rtcpsdespacket.cpp:44-143 | the validating walk accepts exactly the packets that consist of the counted chunks |
| SdesPacket.WalkChunks | jrtplib-3.11.2/src/rtcpsdespacket.cpp:72-139 | the outer loop: exactly as many chunks as counted up to the end of the unpadded packet |
| SdesPacket.WalkItems | jrtplib-3.11.2/src/rtcpsdespacket.cpp:84-129 | the inner loop: the items of a chunk and the zeros after them, ending by the remaining length |
| SdesPacket.RTCPSDESPacket.constructor | jrtplib-3.11.2/src/rtcpsdespacket.cpp:44-143 | the object is of known format exactly if the walk accepts, and then stands for its chunks |
| SdesPacket.RTCPSDESPacket.GotoFirstChunk | jrtplib-3.11.2/src/rtcpsdespacket.h:162-173 | goes to the first chunk if there is one |
| SdesPacket.RTCPSDESPacket.GotoNextChunk | jrtplib-3.11.2/src/rtcpsdespacket.h:175-200 | goes to the next chunk, which lies inside the unpadded packet, or stays |
| SdesPacket.RTCPSDESPacket.SkipItems | jrtplib-3.11.2/src/rtcpsdespacket.h:184-191 | finds the zero byte at the end of the items, inside the unpadded packet; every read of the iterators and accessors goes through a function that requires its place to be there |
| SdesPacket.RTCPSDESPacket.GotoFirstItem | jrtplib-3.11.2/src/rtcpsdespacket.h:212-223 | goes to the first item of the chunk if there is one |
| SdesPacket.RTCPSDESPacket.GotoNextItem | jrtplib-3.11.2/src/rtcpsdespacket.h:225-244 | goes to the next item, or stays on the last |
| SdesPacket.RTCPSDESPacket.ItemAccessors | jrtplib-3.11.2/src/rtcpsdespacket.h:246-302 | type, length and data are those of the current item, which ends inside the unpadded packet |
| SdesPacket.RTCPSDESPacket.PrivAccessors | jrtplib-3.11.2/src/rtcpsdespacket.h:304-378 | prefix and value of a PRIV item, which fill it; both are empty when the prefix length does not fit |
| SdesPacket.RTCPSDESPacket.ReadChunks | jrtplib-3.11.2/src/rtcpsdespacket.h:162-302 | for every packet of known format the iterators enumerate exactly the validated chunks with all their items, in order |
| RtcpEncoding.NormExact | jrtplib-3.11.2/src/rtcprrpacket.h:159-169 | a loss count reads back exactly if and only if it lies in [-2^23, 2^23), and otherwise modulo 2^24 |
| RtcpEncoding.BlockReads | jrtplib-3.11.2/src/rtcprrpacket.h:137-201 | each field of a report block reads back at its offset |
| RtcpEncoding.ReportReads | jrtplib-3.11.2/src/rtcpcompoundpacketbuilder.cpp:597-656 | a built report packet is of known format and gives back its sender part and all its blocks |
| RtcpEncoding.ChunksRead | jrtplib-3.11.2/src/rtcpcompoundpacketbuilder.cpp:676-709 | the chunks written one after the other, with their padding, are walked back into the same chunks and items |
| RtcpEncoding.SdesReads | jrtplib-3.11.2/src/rtcpcompoundpacketbuilder.cpp:660-730 | a built SDES packet is of known format and gives back its chunks and items |
| RtcpEncoding.AppReads | jrtplib-3.11.2/src/rtcpcompoundpacketbuilder.cpp:467-518 | a built APP packet is of known format and gives back subtype, SSRC, name and data |
| RtcpEncoding.ByeReads | jrtplib-3.11.2/src/rtcpcompoundpacketbuilder.cpp:395-464 | a built BYE packet is of known format and gives back its SSRCs and its reason |
| RoundTrip.PacketsReadBack | jrtplib-3.11.2/src/rtcpcompoundpacketbuilder.cpp:567-810 | over unbounded lists and any number of splits: every packet of a build is of known format, and together they give back all blocks, chunks, APP and BYE packets in order |
| RoundTrip.BuiltPacketParses | jrtplib-3.11.2/src/rtcpcompoundpacket.cpp:105-198 | the parser cuts the built bytes into exactly the builder's packets if and only if no packet exceeds 262144 bytes; BuildModel.ParsesIfGroupsShort says for which chunks that is |
| RoundTrip.CompoundRoundTrip | jrtplib-3.11.2/src/rtcpcompoundpacketbuilder.cpp:567-810 | a built packet of at most 262144 bytes parses, and reading it gives back sender, blocks, chunks, APP and BYE contents |
| BuildModel.SizeIsExact | jrtplib-3.11.2/src/rtcpcompoundpacketbuilder.cpp:577-803 | the bytes written, across all 31-way splits and padding, are exactly as many as the accounting predicts |
| BuildModel.ExtraBlockExact | jrtplib-3.11.2/src/rtcpcompoundpacketbuilder.h:198-211 | the look-ahead size for a report block equals the size with one block more |
| BuildModel.ExtraItemExact | jrtplib-3.11.2/src/rtcpcompoundpacketbuilder.h:247-256 | the look-ahead size for an SDES item equals the size with that item |
| BuildModel.ExtraSourceExact | jrtplib-3.11.2/src/rtcpcompoundpacketbuilder.h:346-368 | the look-ahead size for a source equals the size with one source more, except that it is 0 instead of 12 for the first |
| BuildModel.CallFits | jrtplib-3.11.2/src/rtcpcompoundpacketbuilder.cpp:154-518 | a call lets the packet outgrow its maximum if and only if it adds a first source with fewer than 12 bytes free |
| BuildModel.RunFits | jrtplib-3.11.2/src/rtcpcompoundpacketbuilder.cpp:154-518 | over any sequence of calls, accepted or refused: the finished packet is within the maximum if and only if no first source came with fewer than 12 bytes free |
| BuildModel.RunRoundTrip | jrtplib-3.11.2/src/rtcpcompoundpacketbuilder.cpp:154-810 | after any sequence of calls: predicted size, known formats, everything added read back, and own packets on parsing if and only if no group of 31 chunks is too long, which a maximum of at most 262144 rules out |
| BuildModel.ParsesIfGroupsShort | jrtplib-3.11.2/src/rtcpcompoundpacketbuilder.cpp:659-730 | the parser cuts the built bytes into exactly the builder's packets if and only if no group of up to 31 chunks that share an SDES packet makes it longer than 262144 bytes |
| BuildModel.PacketsShort | jrtplib-3.11.2/src/rtcpcompoundpacketbuilder.cpp:567-803 | of all packets of a build only those SDES packets can be longer than 262144 bytes |
| BuildModel.PrivateReadsBack | jrtplib-3.11.2/src/rtcpcompoundpacketbuilder.cpp:349-392 | whatever calls come before and after: a private item that is accepted is read back from the finished packet, in its chunk and at its place, with its prefix and its value |
| BuildModel.OutgrownRun | jrtplib-3.11.2/src/rtcpcompoundpacketbuilder.h:346-353 | a concrete run of three accepted calls whose packet of 608 bytes outgrows its maximum of 600 |
| BuildModel.OverlongRun | jrtplib-3.11.2/src/rtcpcompoundpacketbuilder.cpp:711-714 | a concrete run of accepted calls whose packet fits its maximum but does not parse into the packets that were built |
| CompoundBuilder.RTCPCompoundPacketBuilder.InitBuild | jrtplib-3.11.2/src/rtcpcompoundpacketbuilder.cpp:108-128 | refuses while building, after building, and for small sizes; otherwise an empty build with that maximum |
| CompoundBuilder.RTCPCompoundPacketBuilder.InitBuildExternal | jrtplib-3.11.2/src/rtcpcompoundpacketbuilder.cpp:131-151 | the same for the caller's buffer, whose size is the maximum |
| CompoundBuilder.RTCPCompoundPacketBuilder.StartSenderReport | jrtplib-3.11.2/src/rtcpcompoundpacketbuilder.cpp:154-189 | the exact status, and the report started or nothing changed; the room left is computed unsigned |
| CompoundBuilder.RTCPCompoundPacketBuilder.StartReceiverReport | jrtplib-3.11.2/src/rtcpcompoundpacketbuilder.cpp:192-218 | the same for a receiver report |
| CompoundBuilder.RTCPCompoundPacketBuilder.AddReportBlock | jrtplib-3.11.2/src/rtcpcompoundpacketbuilder.cpp:221-258 | the exact status, and the block appended or nothing changed |
| CompoundBuilder.RTCPCompoundPacketBuilder.AddSDESSource | jrtplib-3.11.2/src/rtcpcompoundpacketbuilder.cpp:261-280 | the exact status, and an empty chunk appended or nothing changed |
| CompoundBuilder.RTCPCompoundPacketBuilder.AddSDESNormalItem | jrtplib-3.11.2/src/rtcpcompoundpacketbuilder.cpp:283-346 | the exact status, and the item appended to the last chunk or nothing changed |
| CompoundBuilder.RTCPCompoundPacketBuilder.AddSDESPrivateItem | jrtplib-3.11.2/src/rtcpcompoundpacketbuilder.cpp:349-392 | the same for a PRIV item of prefix length, prefix and value |
| CompoundBuilder.RTCPCompoundPacketBuilder.AddBYEPacket | jrtplib-3.11.2/src/rtcpcompoundpacketbuilder.cpp:395-464 | the exact status, and a padded BYE packet buffered or nothing changed |
| CompoundBuilder.RTCPCompoundPacketBuilder.AddAPPPacket | jrtplib-3.11.2/src/rtcpcompoundpacketbuilder.cpp:467-518 | the exact status, and an APP packet buffered or nothing changed |
| CompoundBuilder.RTCPCompoundPacketBuilder.ReportNeededBytes | jrtplib-3.11.2/src/rtcpcompoundpacketbuilder.h:174-196 | the size of the reports in the build, kept on buffers |
| CompoundBuilder.RTCPCompoundPacketBuilder.SDESNeededBytes | jrtplib-3.11.2/src/rtcpcompoundpacketbuilder.h:305-323 | the size of the SDES packets in the build, summed over the sources |
| CompoundBuilder.RTCPCompoundPacketBuilder.SDESNeededBytesWithExtraItem | jrtplib-3.11.2/src/rtcpcompoundpacketbuilder.h:325-344 | the look-ahead size for an item on the last source |
| CompoundBuilder.RTCPCompoundPacketBuilder.SDESNeededBytesWithExtraSource | jrtplib-3.11.2/src/rtcpcompoundpacketbuilder.h:346-368 | the look-ahead size for a source |
| CompoundBuilder.RTCPCompoundPacketBuilder.WriteReports | jrtplib-3.11.2/src/rtcpcompoundpacketbuilder.cpp:597-656 | the do-while loop writes the blocks 31 to a packet, the first with the sender information, and lists each packet |
| CompoundBuilder.RTCPCompoundPacketBuilder.WriteSdesPackets | jrtplib-3.11.2/src/rtcpcompoundpacketbuilder.cpp:660-730 | the loop writes the chunks 31 to a packet, padded, and lists each packet |
| CompoundBuilder.RTCPCompoundPacketBuilder.WritePackets | jrtplib-3.11.2/src/rtcpcompoundpacketbuilder.cpp:734-803 | the APP or BYE buffers are copied in order, and listed |
| CompoundBuilder.RTCPCompoundPacketBuilder.EndBuild | jrtplib-3.11.2/src/rtcpcompoundpacketbuilder.cpp:567-810 | refused without a build or a report; otherwise the buffer begins with exactly the packets of the build, the length is the predicted one, and the list holds their types, places and formats |
| CompoundBuilder.RTCPCompoundPacketBuilder.FinishedParses | jrtplib-3.11.2/src/rtcpcompoundpacket.cpp:105-198 | a packet finished after any calls, with no group of chunks too long, parses into exactly the builder's own list, all of known format; a maximum of at most 262144 suffices |
| PacketBuilder.RTCPPacketBuilder.Init | jrtplib-3.11.2/src/rtcppacketbuilder.cpp:58-94 | refuses a second time, small maxima and negative timestamp units, in that order; otherwise keeps the maximum and a CNAME cut to 255 bytes |
| PacketBuilder.RTCPPacketBuilder.BuildNextPacket | jrtplib-3.11.2/src/rtcppacketbuilder.cpp:104-306 | the outcome, the finished packet and the SDES items left for later, as a function of the state before |
| PacketBuilder.RTCPPacketBuilder.FillInReportBlocks | jrtplib-3.11.2/src/rtcppacketbuilder.cpp:320-452 | adds the blocks offered in order up to the first that does not fit |
| PacketBuilder.RTCPPacketBuilder.FillInSDES | jrtplib-3.11.2/src/rtcppacketbuilder.cpp:502-619 | adds the items due in order up to the first that does not fit |
| PacketBuilder.RTCPPacketBuilder.BuildBYEPacket | jrtplib-3.11.2/src/rtcppacketbuilder.cpp:626-736 | the outcome and the finished BYE packet |
| PacketBuilder.NextBuildFollows | jrtplib-3.11.2/src/rtcppacketbuilder.cpp:104-306 | every next packet fits its maximum, starts its chunk with the CNAME, carries a first part of the blocks offered, and loses no SDES item: what it does not carry is still pending |
| PacketBuilder.NeverTooSoon | jrtplib-3.11.2/src/rtcppacketbuilder.cpp:104-306 | with a maximum of at least 600 no next packet is ever filled too soon |
| PacketBuilder.RoundProgress | jrtplib-3.11.2/src/rtcppacketbuilder.cpp:188-294 | every packet of an SDES round sends at least one pending item, and otherwise at least one block if any is offered |
| PacketBuilder.ByeAlwaysFits | jrtplib-3.11.2/src/rtcppacketbuilder.cpp:626-736 | with a maximum of at least 600 the BYE packet never fails for room, for any CNAME and reason, and takes at most 560 bytes |
| PacketBuilder.FittingReadsBack | jrtplib-3.11.2/src/rtcppacketbuilder.cpp:104-306 | every packet of the session within a maximum of at most 262144 parses and reads back |
| BuildModel.NextPacketFits | jrtplib-3.11.2/src/rtcppacketbuilder.cpp:132-306 | a report, then the own source, then any calls: the packet fits, so the session never meets the gap for the first source |
| BuildCalls.CallAccepted | jrtplib-3.11.2/src/rtcpcompoundpacketbuilder.cpp:154-518 | a call on what is there to add to, within its argument limits, is accepted if and only if the packet with what it adds stays within the maximum, and then adds just that; the first source is taken to need nothing, and a report on an outgrown packet is let in; NotEnoughBytesLeft comes only where there is no room |
| BuildCalls.RefusedBecause | jrtplib-3.11.2/src/rtcpcompoundpacketbuilder.cpp:154-518 | every other refusal comes if and only if its own reason holds, in the order of the checks |
| BuildCalls.RunBounded | jrtplib-3.11.2/src/rtcpcompoundpacketbuilder.cpp:154-518 | every build that calls reach meets the conditions of CallAccepted; it is at most 40 bytes longer than its maximum |
| BuildCalls.LateReportRun | jrtplib-3.11.2/src/rtcpcompoundpacketbuilder.cpp:192-218 | a concrete run in which a report is accepted on a packet that has already outgrown its maximum of 600, because the unsigned room wraps; it ends at 616 bytes |
| BuildCalls.AcceptedIsDelivered | jrtplib-3.11.2/src/rtcpcompoundpacketbuilder.cpp:154-810 | reading the finished packet gives exactly the sender, blocks, chunks with their items, APP and BYE contents that the accepted calls added, in order |
| BuildCalls.ReportsSplitBy31 | jrtplib-3.11.2/src/rtcpcompoundpacketbuilder.cpp:597-656 | n blocks take n / 31 rounded up report packets, and no blocks take one |
| BuildCalls.ChunksSplitBy31 | jrtplib-3.11.2/src/rtcpcompoundpacketbuilder.cpp:660-730 | n chunks take n / 31 rounded up SDES packets |
| NextPackets.RoundPacketIsFull | jrtplib-3.11.2/src/rtcppacketbuilder.cpp:188-294 | in an SDES round the packet carries the pending items up to the first that does not fit, at least one; if all fit, the blocks offered up to the first that does not fit; the rest stays pending |
| NextPackets.ReportPacketIsFull | jrtplib-3.11.2/src/rtcppacketbuilder.cpp:132-306 | outside a round it carries the blocks offered up to the first that does not fit, at least one; if all fit, the items due and the further blocks, both as many as fit |
| NextPackets.RoundIsSent | jrtplib-3.11.2/src/rtcppacketbuilder.cpp:188-294 | the packets of a round carry its items once each and in order, whatever is offered meanwhile, and the round is over after at most as many packets as it has items |
| NextPackets.NextPacketReads | jrtplib-3.11.2/src/rtcppacketbuilder.cpp:104-306 | the bytes of the next packet parse, and are read as its sender, its blocks, and one chunk with the own SSRC, the CNAME first |
| NextPackets.ByePacketReads | jrtplib-3.11.2/src/rtcppacketbuilder.cpp:626-736 | the bytes of the BYE packet parse, and are read as the sender, the own CNAME, and a BYE of the own SSRC with the first 255 bytes of the reason at most |
| PacketRouting.CompoundIsRtcp | jrtplib-3.11.2/src/rtptcptransmitter.cpp:741-743 | a compound packet is classified as RTP if and only if it has only four bytes, which is less than any report |
| PacketRouting.EncodedIsRtp | jrtplib-3.11.2/src/rtptcptransmitter.cpp:741-743 | an RTP packet is classified as RTP if and only if marker and payload type are not those of an RTCP type 200 to 204 |
| PacketRouting.BuiltIsRtp | jrtplib-3.11.2/src/rtptcptransmitter.cpp:741-743 | a packet the RTP builder accepts is classified as RTP if and only if it has no marker or a payload type outside 74 to 76 |
| PacketRouting.MisroutedPacket | jrtplib-3.11.2/src/rtptcptransmitter.cpp:741-743 | a concrete RTP packet, accepted by builder and parser, that is taken for RTCP over TCP |
| PacketRouting.StreamIsRouted | jrtplib-3.11.2/src/rtptcptransmitter.cpp:693-820 | any RTP and compound packets, framed and cut anywhere, come out in order, each classified as what it is, but for those RTP packets |
| TimerAnswers.IntervalAtMost | jrtplib-3.11.2/src/rtcpscheduler.cpp:299-313 | every drawn interval is positive and at most 1.5 times the deterministic one divided by 1.21828 |
| TimerAnswers.IntervalIsUniform | jrtplib-3.11.2/src/rtcpscheduler.cpp:299-313 | it lies between half and 1.5 times that in proportion to the random number |
| TimerAnswers.ByeIntervalIsUniform | jrtplib-3.11.2/src/rtcpscheduler.cpp:251-296 | the same for the interval of a scheduled BYE, which is 0 if it is to be sent at once |
| TimerAnswers.IntervalIsTight | jrtplib-3.11.2/src/rtcpscheduler.cpp:251-296 | the deterministic interval is the minimum, halved before the first packet if so configured, or else the one in which the packets of the group exactly fill its share of the bandwidth |
| TimerAnswers.AnswersYes | jrtplib-3.11.2/src/rtcpscheduler.cpp:179-233 | an expired timer answers yes as soon as the longest interval has passed since the last transmission, whatever is drawn; with a BYE scheduled, the longest BYE interval |
| TimerAnswers.SecondAnswerIsYes | jrtplib-3.11.2/src/rtcpscheduler.cpp:179-233 | after a negative answer of an expired timer the next answer is yes once the longest intervals have passed |
| TimerAnswers.FirstAnswerIsYes | jrtplib-3.11.2/src/rtcpscheduler.cpp:158-233 | a new timer answers no at first, and yes from the longest interval after that on |
| TimerAnswers.DefaultTimer | jrtplib-3.11.2/src/rtcpscheduler.cpp:158-233 | the default parameters with two members: started at 0, the answer at 10 seconds is yes |
| TimerAnswers.YesRestarts | jrtplib-3.11.2/src/rtcpscheduler.cpp:209-233 | a positive answer ends the back-off and restarts the timer for at most the longest interval |
| TimerAnswers.DelayIsEnough | jrtplib-3.11.2/src/rtcpscheduler.cpp:158-176 | when the announced delay has passed, the timer has expired |
| TimerAnswers.ScheduledBye | jrtplib-3.11.2/src/rtcpscheduler.cpp:357-383 | a scheduled BYE waits for a BYE interval of its own, or not at all with fewer than 50 members if so configured |
| TimerAnswers.ImmediateByeIsSent | jrtplib-3.11.2/src/rtcpscheduler.cpp:357-383 | in that case the next call answers yes |
| TimerAnswers.BackOffCountsByes | jrtplib-3.11.2/src/rtcpscheduler.cpp:109-134 | during the back-off the members counted are one more than the BYEs received |
| TimerAnswers.AverageStaysBetween | jrtplib-3.11.2/src/rtcpscheduler.cpp:109-155 | over any run the average packet size stays between the smallest and the largest size that entered it |
| TimerAnswers.AverageConverges | jrtplib-3.11.2/src/rtcpscheduler.cpp:109-155 | after n packets of one size the average is away from it by (15/16)^n of the distance before, rounded up by at most 15 bytes |
| TimerAnswers.ReverseIsProportional | jrtplib-3.11.2/src/rtcpscheduler.cpp:316-354 | when members go, the time left and the time since the last transmission shrink in proportion; a time that has passed becomes now |
| TimerAnswers.DecreasesCompose | jrtplib-3.11.2/src/rtcpscheduler.cpp:316-390 | two decreases at one time do what the whole decrease does |
| ReorderRuns.QueueHoldsArrivals | jrtplib-3.11.2/src/rtpinternalsourcedata.cpp:57-186 | over any packets of a valid source whose indices are in the window: the queue holds what it held and exactly the packets that arrived, the first of each index, numbered by their true index, with SSRC, CSRCs and payload unchanged |
| ReorderRuns.PacketsComeInOrder | jrtplib-3.11.2/src/rtpsourcedata.h:454-466 | the application then gets each of them once, in order of their true indices |
| ReorderRuns.WrapKeepsOrder | jrtplib-3.11.2/src/rtpsourcedata.cpp:146-181 | number 0 after 0xFFFF is queued, and handed out, behind it as 0x10000 |
| ReorderRuns.FirstPacketsAreQueued | jrtplib-3.11.2/src/rtpinternalsourcedata.cpp:119-186 | before anything has been accepted a packet is queued under its header number, 0 being lifted by one cycle when it is the one that makes the source valid; a full list of 32 first loses its smallest packet; without storing it is dropped |
| ReorderRuns.ArrivalsAreCounted | jrtplib-3.11.2/src/rtpsourcedata.cpp:146-181 | the received and the new packets are counted once per arrival, modulo 2^32 |
| SourceHistory.StepTells | jrtplib-3.11.2/src/rtpsources.cpp:98-902 | every event but a sweep or Clear changes the entry of another source exactly as it tells: times, BYE and sender flags, items, addresses; it never removes it |
| SourceHistory.SweepTells | jrtplib-3.11.2/src/rtpsources.cpp:905-1284 | a sweep removes exactly the other sources whose last message or BYE is too old, and takes from the others just a sender flag and a note that are too old |
| SourceHistory.EntriesRecordEvents | jrtplib-3.11.2/src/rtpsources.cpp:98-1284 | in every reachable table the entry of another source records exactly what the events since it was made tell: when it was last heard from, last sent data, said goodbye and sent a note, whether it has left and is sending, and each SDES item |
| SourceHistory.SweepDropsStale | jrtplib-3.11.2/src/rtpsources.cpp:905-1284 | over runs from an empty table: a sweep removes another source if and only if the last event that came from it and passed the address check, or its BYE, has a time before the check time |
| SourceHistory.PassesIff | jrtplib-3.11.2/src/rtpsources.cpp:1354-1438 | an event passes the address check if and only if its sender is the address its channel is bound to, or, for a channel that is not bound, on the host of the other one |
| SourceHistory.SourceKeepsAddress | jrtplib-3.11.2/src/rtpsources.cpp:1354-1438 | over runs: once heard over a channel, and as long as its entry stays, a source is heard over it from that address only, and always from there; and over the other one from that host only |
| SourceHistory.CsrcIsStale | jrtplib-3.11.2/src/rtpsources.cpp:353-369 | a source known only as a contributing one has no time, so the next member sweep removes it at once |
| SourceValidity.ValidIff | jrtplib-3.11.2/src/rtpsources.cpp:291-902 | over runs: another source is valid if and only if, since its entry was made, three of its RTP packets in a row had successive numbers (or one came, without probation), or its CNAME has come, or a source valid by then has named it as contributing; its contributing flag says whether the last has happened |
| SourceValidity.ActiveIff | jrtplib-3.11.2/src/rtpsources.cpp:291-902 | it counts as a member of the session if and only if it is valid and has not said goodbye |
| SourceValidity.CnameCollidesIff | jrtplib-3.11.2/src/rtpinternalsourcedata.cpp:189-260 | a CNAME is reported as colliding if and only if it passes the address check and the source has given another one before |
| SessionRuns.CollisionsAreNoted | jrtplib-3.11.2/src/rtpcollisionlist.cpp:59-116 | over runs of a session: an address is in the collision list if and only if packets from it have reached the own SSRC and that has not expired since, and then once, with the time of the last one |
| SessionRuns.MovesIf | jrtplib-3.11.2/src/rtpsession.cpp:1406-1474 | over runs: the next packet moves the session if and only if one of its events carries the own SSRC from an address and no collision from that address is remembered; it moves to the first draw that no entry has, which is missing only if all are taken |
| SessionRuns.ByesAreQueued | jrtplib-3.11.2/src/rtpsession.cpp:1406-1552 | over runs: the BYE packets waiting are the moves after something had been sent less those sent since, so each such move is told once |
| OwnHistory.OwnRecordsSent | jrtplib-3.11.2/src/rtpsources.cpp:148-157 | over runs: the own entry is a sender if and only if data has been sent since it was made and no sweep has found that too old, and its time is that of the last data sent; no incoming packet changes either, own packets that come back included |
| SessionRuns.SendMakesSender | jrtplib-3.11.2/src/rtpsession.cpp:596-622 | sending data marks the own entry, at that time, and no other entry; sending RTCP or APP leaves the table as it is |
| TimerAnswers.CountCompared | jrtplib-3.11.2/src/rtcpscheduler.cpp:179-390 | the member count with which a later one is compared is that of the last time the timer was started or reconsidered |
| TimerAnswers.OddCounts | jrtplib-3.11.2/src/rtcpscheduler.cpp:251-296 | no members count as one; with a negative count a receiver falls back on the minimum and a sender shares the bandwidth of the senders only |
| TimerAnswers.ByeAverageConverges | jrtplib-3.11.2/src/rtcpscheduler.cpp:109-134 | the average of the BYE packets received during the back-off moves in the same way |
| ReorderRuns.KeptIff | jrtplib-3.11.2/src/rtpinternalsourcedata.cpp:119-186 | a packet of a valid source in the window is reported as kept if and only if no queued packet has its index, or the callback takes it, and then it is not queued |
| SourceValidity.StoredIff | jrtplib-3.11.2/src/rtpsources.cpp:291-373 | at the table: it is kept if and only if it also passes the address check |
| WireFormats.RtpLayout | jrtplib-3.11.2/src/rtppacket.cpp:222-320 | where each field of an RTP packet stands, as numbers: version, extension bit, CSRC count, marker, type, sequence number, timestamp, SSRCs, extension and payload |
| WireFormats.RtpBuildIff | jrtplib-3.11.2/src/rtppacket.cpp:222-262 | the RTP builder answers with the first limit that is broken, CSRC count, payload type, or the length of the bytes against the maximum, and otherwise makes the packet |
| WireFormats.PaddingIsRemoved | jrtplib-3.11.2/src/rtppacket.cpp:103-205 | a padded RTP packet is accepted if and only if it is without the padding, and then means the same, whatever the padding bytes |
| WireFormats.EmptyPaddingIsRefused | jrtplib-3.11.2/src/rtppacket.cpp:146-152 | a padding bit with a count of 0 is refused |
| WireFormats.CutIff | jrtplib-3.11.2/src/rtcpcompoundpacket.cpp:105-198 | a buffer is cut into given packets if and only if they make it up, the first is an SR or RR, each is of version 2 with its own length in its header, and only the last is padded |
| WireFormats.ReportLayout | jrtplib-3.11.2/src/rtcpcompoundpacketbuilder.cpp:597-656 | where the header, the SSRC, the sender information and each field of each block stand in a built report packet |
| WireFormats.ReportFields | jrtplib-3.11.2/src/rtcprrpacket.h:137-201 | the same for the fields read from any report packet of known format |
| WireFormats.SdesLayout | jrtplib-3.11.2/src/rtcpcompoundpacketbuilder.cpp:660-730 | where the header, the chunks and the items stand in a built SDES packet |
| WireFormats.ByeLayout | jrtplib-3.11.2/src/rtcpcompoundpacketbuilder.cpp:395-464 | where the header, the SSRCs and the reason behind its length stand in a built BYE packet, and how long it is |
| WireFormats.ByeFields | jrtplib-3.11.2/src/rtcpbyepacket.cpp:44-76 | the same for the fields read from any BYE packet of known format |
| WireFormats.AppLayout | jrtplib-3.11.2/src/rtcpcompoundpacketbuilder.cpp:467-518 | where the header, SSRC, name and data stand in a built APP packet |
| WireFormats.AppFields | jrtplib-3.11.2/src/rtcpapppacket.cpp:45-69 | the same for the fields read from any APP packet of known format |
| WireFormats.FormatsAre | jrtplib-3.11.2/src/rtcpsrpacket.cpp:43-70 | report, BYE and APP packets are of known format if and only if the length without padding is what type and counts ask for |
| WireFormats.RtcpPaddingIsRemoved | jrtplib-3.11.2/src/rtcpsrpacket.cpp:43-70 | an RTCP packet with whole words of padding, counted in its last byte, is of a known format if and only if it is without, and every report, BYE, APP and SDES field then reads the same |
| WireFormats.ImpossiblePadding | jrtplib-3.11.2/src/rtcpsrpacket.cpp:50-61 | with any other count no format is known |
| WireFormats.PaddedCompoundIsCut | jrtplib-3.11.2/src/rtcpcompoundpacket.cpp:105-198 | padding the last packet of a compound packet leaves it a compound packet of the same packets |
| WireFormats.FrameLayout | jrtplib-3.11.2/src/rtptcptransmitter.cpp:770-820 | a frame is the length in two bytes and the packet |
| SdesFormat.SdesIff | jrtplib-3.11.2/src/rtcpsdespacket.cpp:44-143 | a packet is an SDES packet of known format with given chunks if and only if, without its padding, it consists of the header and just these chunks, as many as counted, each with its items, a zero byte, and up to a multiple of four |

## Left out

- Sources.RTPSources: uses the verified list-and-cursor value of the key hash table
  rather than the linked object, so sharing of nodes between the two is not modelled.
- Sources.RTPSources.ProcessSDESNormalItem: private items only refresh the time a
  source was heard; the storage of their prefixes and values is not modelled.
- KeyHashTable.KeyHashTable.Clear: gives the list and chains up but does not model
  the freeing of nodes; memory always suffices everywhere.
- Session.RTPPacketBuilder.CreateNewSSRC: works on a finite list of drawn numbers and
  says whether they sufficed; the library draws until it finds one.
- Session.RTPSession.HandleCollision: a queued BYE is a count; BYE contents are in
  PacketBuilder.
- Session.RTPSession.RTCPSent: scheduling the next queued BYE and analysing the packet
  sent for its size are not modelled here; Scheduler has both.
- Session.RTPSession.ProcessPolledPacket: the table events of a raw packet are given;
  only steps of ProcessPolledData that return no error are followed, and each is
  atomic.
- Scheduler.AggregateRateWithinBandwidth: for a sender fraction strictly between 0 and
  1 and a positive bandwidth; the library's setters also admit 0 and 1, where it
  divides by zero.
- Scheduler.RTCPScheduler.IsTime: exact reals instead of floating point.
- SourceStats.SourceStats.ProcessPacket: jitter, timestamps and the restart of report
  intervals are not modelled.
- SourceStats.SourceStats.AcceptPacket: the previous packet time, highest number and
  timestamp, which only the jitter uses, are not modelled.
- SourceStats.SourceStats.ExtendNumber: the jitter computed from the packet is not
  modelled.
- Sources.RTPSources.ProcessBYE: the reason for leaving is not stored.
- SdesPacket.RTCPSDESPacket.constructor: holds its bytes as a value; that they alias the
  compound packet's memory is not modelled.
- TcpFraming.TCPTransmitter.SendRTPRTCPData: a send delivers all its bytes, or fails
  with none of the length or none of the data; short writes are not modelled.
- CompoundBuilder.RTCPCompoundPacketBuilder.EndBuild: requires that an external buffer
  holds the packet, which the library does not check; BuildModel.RunFits says when it
  does. Sums of sizes are not wrapped, except for the room left for a report.
- RtpPacket.RTPPacket.ParseRawPacket: refuses the packets of RtpPacket.ReadsPastEnd
  without the read past their end. Lengths beyond the range of a C int are not
  modelled.
- PacketBuilder.RTCPPacketBuilder.BuildNextPacket: the report blocks offered and the
  SDES items due are given; loss fractions, round trip times, the interval counters and
  the per-source flags that choose them are not modelled.
- PacketBuilder.RTCPPacketBuilder.FillInReportBlocks: which sources are reported on, and
  the search for sources left over, are not modelled.
- PacketBuilder.RTCPPacketBuilder.FillInSDES: the items still to be sent are a list
  instead of a flag per item.
- The optional support for unknown RTCP packets, whose lengths need not be multiples of
  four, is not modelled.
- Locks, the poll thread, abort descriptors, select and poll, address classes, DNS names,
  SRTP, user callbacks and debug output are not modelled.
- `rtphashtable.h` is the same structure as the key hash table, with the element as key.
