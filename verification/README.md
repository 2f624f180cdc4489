# Verified model of the vendored NXP wireless drivers

The Yocto layer vendors two NXP drivers: the mlan Wi-Fi driver (`mrvl-sdio8xxx`) and the Bluetooth SDIO driver
(`mrvl-bt8xxx`). This project models the parts of them that carry real logic and proves what they promise, and
exactly where they do not keep it.

| files | component |
|---|---|
| `SeqNum`, `RxEntry`, `RxTable` | 802.11n receive reordering: sequence arithmetic, the value-level step, and the class over the rotated array that is proved equal to it |
| `RxStandard`, `RxRefinement` | the reordering operation of section 9.21.7.6 of IEEE Std 802.11-2012 on a map, and the comparison |
| `RxInvariant`, `RxRuns`, `RxStartUp`, `RxRestart` | invariants, conservation, order over whole runs, start-up, order where the window starts anew |
| `AmsduFormat`, `AmsduForeign`, `AmsduBuffer`, `AmsduPacker` | the A-MSDU format of section 8.3.2.2, subframes of any sender byte by byte, the byte buffers, the greedy packer with its counters |
| `DfsNop`, `DfsRegion`, `DfsSelect` | the non-occupancy list (section 4.2.6 of ETSI EN 301 893 V2.1.1), the region's channel tables and the channel selectors |
| `DfsRadar`, `DfsHandler`, `DfsRadarRuns`, `DfsRadarTheorems`, `DfsRadarProgress`, `DfsRadarDuties`, `DfsRadarChoice` | radar handling: one call as a function, the resumable switch proved equal to it, the invariant over runs, order and end of runs, progress, what is done to each interface, runs with the selector's channel |
| `CountrySort`, `CountryBands`, `CountryParse` | 802.11d country tables (element format: section 8.4.2.10) |
| `BtDownload`, `BtInterrupt`, `BtStrsep` | Bluetooth firmware download, interrupt hand-off, escaping tokenizer |

`dafny verify dfyconfig.toml` checks everything.

Code that updates fields, arrays or buffers in place is a class or a method with loops, proved equal to a function;
the properties are then proved of that function as lemmas over all inputs, all runs or all interleavings. Buffers and
payloads are opaque, delivery upward appends to a log, random numbers, bus results and command completions are
arbitrary inputs. The clock is an input that does not go back: the driver reads the raw monotonic one
(`moal_shim.c:296-305`, `moal_main.h:2317-2321`).

## Where the code does not do what its description says

- A forced slide whose new start wraps numerically gives up the whole window (`mlan_11n_rxreorder.c:193-195`), so a
  packet of the new window can go up before its turn and, retransmitted, again. `RxRefinement.CallRefinesStandard`
  gives the exact condition; `RxStartUp.PrematureSlideBreaksOrder` is such a run, from a reachable window.
- `pkt_count` has eight bits, so a window of 512 or more never leaves start-up by counting (`RxStartUp.StartUpLength`).
- Radar handling waits for the completion of the announcement commands, which are sent only for DFS masters. With
  stations only, or when the access point hit is not active, the run never leaves its stage. The start of an access
  point whose 11h handling is left to the host does not call the handler again (`mlan_uap_cmdevent.c:4207-4210`), so
  a run that restarts one stops there. In all these cases traffic stays disabled; so it does when an access point
  gives up for want of a channel and is stopped. `DfsRadarProgress.FinishesExactly` gives the exact condition.
- Without a 5 GHz table for the region the start channel is 36, unchecked (`DfsSelect.UapStartOnTables`).
- The switch to a non-DFS channel tests the band width of drawn entries but not of the one it falls back on, which may
  even be disabled (`DfsSelect.SwitchUnfitExactly`).
- A 5 GHz sub-band that runs past channel 46 goes on at 36, so the channels parsed need not ascend
  (`CountryParse.AjParseAscendsExactly`).
- The firmware loop reports success when the helper offers no length, however much was sent (`BtDownload.OverMeans`),
  and does not end when the helper keeps asking for one byte (`BtDownload.NeverEndsExactly`). Chunks of more than 2304
  bytes go out as ten blocks, 2560 bytes, from an allocation of 2376 (`BtDownload.StaysInsideExactly`).
- The Bluetooth main thread tests `IntCounter` and `ps_state` first and counts a wake-up try afterwards
  (`bt_main.c:2957-2966`). An interrupt in between, whether or not inside the increment, resets `WakeupTries` too
  early, and the thread sleeps although causes wait. `BtInterrupt.SleepsExactly` gives the exact condition.

## Model

| member | source | states |
|---|---|---|
| RxEntry.TooOldIsFarAhead | layers/meta-ked/recipes-kernel/mrvl-sdio8xxx/files/mlan/mlan_11n_rxreorder.c:1013-1035 | the two-branch drop test rejects exactly the numbers 2048 or more ahead of the window start, modulo 4096, also for the start 4096 |
| RxEntry.SlotIndexIsDist | layers/meta-ked/recipes-kernel/mrvl-sdio8xxx/files/mlan/mlan_11n_rxreorder.c:1070-1100 | both slot formulas give the forward distance from the window start |
| RxEntry.OutsideIsBeyondWindow | layers/meta-ked/recipes-kernel/mrvl-sdio8xxx/files/mlan/mlan_11n_rxreorder.c:1050-1053 | the two-branch window test holds exactly when that distance is at least the window size |
| RxEntry.SlotInRange | layers/meta-ked/recipes-kernel/mrvl-sdio8xxx/files/mlan/mlan_11n_rxreorder.c:1050-1100 | after the slide every slot the data path touches is in 0 to win_size - 1 |
| RxTable.RxReorderTbl.constructor | layers/meta-ked/recipes-kernel/mrvl-sdio8xxx/files/mlan/mlan_11n_rxreorder.c:469-560 | a new entry is empty, starts in the start-up phase and satisfies the invariant, whatever the last number and the two flags it does not set are |
| RxTable.RxReorderTbl.DispatchPkt | layers/meta-ked/recipes-kernel/mrvl-sdio8xxx/files/mlan/mlan_11n_rxreorder.c:92-135 | the buffer of a packet goes up, behind those before it, and a firmware-drop marker is consumed |
| RxTable.HandedUpExactly | layers/meta-ked/recipes-kernel/mrvl-sdio8xxx/files/mlan/mlan_11n_rxreorder.c:92-135 | of any list of payloads, what goes up is exactly the buffers of the packets, each at the place its packet has among them |
| RxTable.RxReorderTbl.DispatchPktUntilStartWin | layers/meta-ked/recipes-kernel/mrvl-sdio8xxx/files/mlan/mlan_11n_rxreorder.c:182-235 | the in-place loops hand up the first slots in order and rotate the array, as the value-level step says |
| RxTable.RxReorderTbl.ScanAndDispatch | layers/meta-ked/recipes-kernel/mrvl-sdio8xxx/files/mlan/mlan_11n_rxreorder.c:267-320 | the in-place loops hand up the gap-free front of the window and move the start past it |
| RxTable.RxReorderTbl.FindLastSeqnum | layers/meta-ked/recipes-kernel/mrvl-sdio8xxx/files/mlan/mlan_11n_rxreorder.c:390-403 | the highest slot in use, or -1 when there is none |
| RxTable.RxReorderTbl.StartFlushData | layers/meta-ked/recipes-kernel/mrvl-sdio8xxx/files/mlan/mlan_11n_rxreorder.c:414-433 | everything held goes up in order and the start moves past the last of it |
| RxTable.RxReorderTbl.FlushData | layers/meta-ked/recipes-kernel/mrvl-sdio8xxx/files/mlan/mlan_11n_rxreorder.c:443-454 | an expiring timer leaves a pending flush and changes no slot |
| RxTable.RxReorderTbl.ServicePending | layers/meta-ked/recipes-kernel/mrvl-sdio8xxx/files/mlan/mlan_11n_rxreorder.c:1522-1528 | a pending flush is taken back and carried out |
| RxTable.RxReorderTbl.RxReorderPkt | layers/meta-ked/recipes-kernel/mrvl-sdio8xxx/files/mlan/mlan_11n_rxreorder.c:878-1122 | one call in place, through bypass, flush, start-up, resume, drop, slide, store and release, equals the value-level step, in state, deliveries and status, and keeps the invariant |
| RxTable.RxReorderTbl.Delete | layers/meta-ked/recipes-kernel/mrvl-sdio8xxx/files/mlan/mlan_11n_rxreorder.c:332-380 | deleting an entry hands up everything it held, in order, and leaves it empty with the timer off |
| RxInvariant.StepKeeps | layers/meta-ked/recipes-kernel/mrvl-sdio8xxx/files/mlan/mlan_11n_rxreorder.c:878-1122 | every event keeps: start in 0 to 4096 with 4096 only on an empty buffer, start-up only with an empty buffer, a held packet has a timer or a pending flush; and as multisets delivered plus held is what was held plus the accepted payload, so a call fails exactly when its payload is in neither |
| RxInvariant.StepKeepsNumbers | layers/meta-ked/recipes-kernel/mrvl-sdio8xxx/files/mlan/mlan_11n_rxreorder.c:1054-1108 | slot i holds only a packet numbered start + i modulo 4096, after every event |
| RxInvariant.ServiceEmpties | layers/meta-ked/recipes-kernel/mrvl-sdio8xxx/files/mlan/mlan_11n_rxreorder.c:414-433 | servicing a pending flush leaves every slot empty |
| RxRefinement.CallRefinesStandard | layers/meta-ked/recipes-kernel/mrvl-sdio8xxx/files/mlan/mlan_11n_rxreorder.c:997-1108 | in steady operation a data packet, an ordered A-MSDU or a BAR changes the map from numbers to payloads, delivers and reports exactly as the reordering operation of section 9.21.7.6 of IEEE Std 802.11-2012 if and only if it is too old or its forced slide does not wrap over a packet of the new window |
| RxRefinement.PrematureOutcome | layers/meta-ked/recipes-kernel/mrvl-sdio8xxx/files/mlan/mlan_11n_rxreorder.c:193-195 | in the exceptional slide the whole old window goes up at once and only the new packet is held |
| RxRefinement.PrematureDiffers | layers/meta-ked/recipes-kernel/mrvl-sdio8xxx/files/mlan/mlan_11n_rxreorder.c:193-195 | and then the resulting buffer is never the standard's |
| RxRefinement.FlushRefinesTimeout | layers/meta-ked/recipes-kernel/mrvl-sdio8xxx/files/mlan/mlan_11n_rxreorder.c:414-433 | servicing a pending flush is the standard's timeout, also when the new start wraps |
| RxRuns.RunConserves | layers/meta-ked/recipes-kernel/mrvl-sdio8xxx/files/mlan/mlan_11n_rxreorder.c:878-1122 | over every run, accepted payloads are as a multiset the delivered ones plus the buffered ones |
| RxRuns.RunStrandsNothing | layers/meta-ked/recipes-kernel/mrvl-sdio8xxx/files/mlan/mlan_11n_rxreorder.c:1113-1118 | after every run a held packet has a timer or a pending flush, and expiry followed by service delivers everything held, in order |
| RxRuns.BoundedReordering | layers/meta-ked/recipes-kernel/mrvl-sdio8xxx/files/mlan/mlan_11n_rxreorder.c:997-1108 | over every run outside start-up and resume, with numbers unwrapped, a packet delivered after x has a number greater than that of x less win_size; without an exceptional slide the numbers delivered strictly increase |
| RxRuns.StepMoves | layers/meta-ked/recipes-kernel/mrvl-sdio8xxx/files/mlan/mlan_11n_rxreorder.c:997-1108 | per event: the window start moves forward by its unwrapped distance and what goes up lies within the window passed |
| RxRuns.CallAfterFlushRefines | layers/meta-ked/recipes-kernel/mrvl-sdio8xxx/files/mlan/mlan_11n_rxreorder.c:888-1108 | a call that meets a pending flush is the standard's timeout followed by the standard's step on what that leaves, the step under the same exact condition as without a flush |
| RxStartUp.StartUpLength | layers/meta-ked/recipes-kernel/mrvl-sdio8xxx/files/mlan/mlan_11n_rxreorder.c:912-935 | after n packets that miss the start of a fresh window, start-up is still on exactly when n is below half the window size, or the window size is 512 or more, where the 8-bit count never gets there |
| RxStartUp.StartUpNeverReturns | layers/meta-ked/recipes-kernel/mrvl-sdio8xxx/files/mlan/mlan_11n_rxreorder.c:912-935 | once over, start-up does not come back in any run |
| RxStartUp.PrematureSlideBreaksOrder | layers/meta-ked/recipes-kernel/mrvl-sdio8xxx/files/mlan/mlan_11n_rxreorder.c:193-195 | a run of two packets on which a wrapping slide delivers one number twice and out of turn |
| RxStartUp.WrappingEntryReached | layers/meta-ked/recipes-kernel/mrvl-sdio8xxx/files/mlan/mlan_11n_rxreorder.c:878-1122 | the window that run starts from is reached from a fresh window of two at 4094 by receiving 4094 and then 0 |
| RxRestart.StraightUp | layers/meta-ked/recipes-kernel/mrvl-sdio8xxx/files/mlan/mlan_11n_rxreorder.c:912-933 | a packet that does not end start-up goes straight up unless it repeats the last number, with failure, or is a BAR; its number becomes the last one and the start stays |
| RxRestart.EndsExactly | layers/meta-ked/recipes-kernel/mrvl-sdio8xxx/files/mlan/mlan_11n_rxreorder.c:912-935 | start-up ends exactly with the packet the window starts with, or when the 8-bit count reaches half the window |
| RxRestart.StartChosenExactly | layers/meta-ked/recipes-kernel/mrvl-sdio8xxx/files/mlan/mlan_11n_rxreorder.c:935-978 | the two-branch choice of the start after counting moves it one past the last number seen exactly if that is less than win_size - 1 ahead of the start, or below the packet's number and both below the start |
| RxRestart.OrderAfterStartUp | layers/meta-ked/recipes-kernel/mrvl-sdio8xxx/files/mlan/mlan_11n_rxreorder.c:912-1108 | over every run from the packet that ends start-up on, with numbers unwrapped: nothing comes up below the start left, which is the one just described, so above the last number seen where that lay in the window; and the order is bounded by win_size, strict without an exceptional slide |
| RxRestart.ResumeRestarts | layers/meta-ked/recipes-kernel/mrvl-sdio8xxx/files/mlan/mlan_11n_rxreorder.c:982-1108 | a packet received in resume mode: everything held goes up in order, pending flush or not, then the packet, and the window is empty and starts behind it |
| RxRestart.OrderAfterResume | layers/meta-ked/recipes-kernel/mrvl-sdio8xxx/files/mlan/mlan_11n_rxreorder.c:982-1108 | so over every run that resumes: first what was held, in order, then the packet, then only numbers above it, in the order of a quiet run |
| RxRestart.BarResumes | layers/meta-ked/recipes-kernel/mrvl-sdio8xxx/files/mlan/mlan_11n_rxreorder.c:982-1108 | a BAR received in resume mode: everything held goes up in order and nothing else, the window is empty, and it starts a whole window past the start met, or at the BAR's number if the window from there ends win_size or more ahead of that |
| RxRestart.OrderAfterBar | layers/meta-ked/recipes-kernel/mrvl-sdio8xxx/files/mlan/mlan_11n_rxreorder.c:982-1108 | so over every run that resumes with a BAR: first what was held, in order, then nothing below the start left, in the order of a quiet run |
| RxRestart.ToldToResume | layers/meta-ked/recipes-kernel/mrvl-sdio8xxx/files/mlan/mlan_11n_rxreorder.c:1448-1470 | setting force_no_drop puts a settled window into resume mode without touching it, and clearing it undoes that |
| RxRestart.PassesThrough | layers/meta-ked/recipes-kernel/mrvl-sdio8xxx/files/mlan/mlan_11n_rxreorder.c:890-898 | with a window of at most one every packet goes up at once, a BAR does nothing, and the entry is unchanged |
| RxRestart.AmsduBypasses | layers/meta-ked/recipes-kernel/mrvl-sdio8xxx/files/mlan/mlan_11n_rxreorder.c:898-907 | an A-MSDU before A-MSDUs were agreed goes up at once, behind what a pending flush gives up, and leaves the window otherwise alone; the ADDBA response decides the agreement |
| AmsduBuffer.FormAmsduPkt | layers/meta-ked/recipes-kernel/mrvl-sdio8xxx/files/mlan/mlan_11n_aggr.c:66-107 | writes exactly the subframe (addresses, big-endian length, LLC/SNAP header, rest) and nothing else, and returns its size with the padding to four bytes |
| AmsduFormat.Be16RoundTrip | layers/meta-ked/recipes-kernel/mrvl-sdio8xxx/files/mlan/mlan_11n_aggr.c:89-95 | the length field reads back, for lengths of 16 bits |
| AmsduFormat.RoundTrip | layers/meta-ked/recipes-kernel/mrvl-sdio8xxx/files/mlan/mlan_11n_aggr.c:226-377 | for every non-empty list of frames of at least 14 bytes within 16-bit lengths, from any memory that starts with their subframes, all but the last padded, the parser extracts exactly these frames in order, although it rewrites the memory as it goes |
| AmsduFormat.CountMatches | layers/meta-ked/recipes-kernel/mrvl-sdio8xxx/files/mlan/mlan_11n_aggr.c:188-212 | the counting pass finds as many subframes as the rewriting loop extracts, for every buffer whose reads are in range |
| AmsduFormat.RewriteKeepsReads | layers/meta-ked/recipes-kernel/mrvl-sdio8xxx/files/mlan/mlan_11n_aggr.c:257-290 | rewriting a subframe changes neither later lengths nor the range of later accesses |
| AmsduFormat.TailroomSuffices | layers/meta-ked/recipes-kernel/mrvl-sdio8xxx/files/mlan/mlan_11n_aggr.c:257-368 | fourteen bytes beyond the aggregate are enough for every access the parser makes |
| AmsduForeign.SubframeBytes | layers/meta-ked/recipes-kernel/mrvl-sdio8xxx/files/mlan/mlan_11n_aggr.c:66-107 | the subframe of a frame, byte by byte: addresses, length in network order, aa aa 03 00 00 00, the rest from the type on |
| AmsduForeign.ExtractExactly | layers/meta-ked/recipes-kernel/mrvl-sdio8xxx/files/mlan/mlan_11n_aggr.c:257-300 | the frame extracted, byte by byte, for every memory and length: with the RFC 1042 header the addresses and what follows it, without it 14 + len bytes with a cleared length field |
| AmsduForeign.StopsExactly | layers/meta-ked/recipes-kernel/mrvl-sdio8xxx/files/mlan/mlan_11n_aggr.c:240-256 | the parser and the counting pass find nothing exactly when fewer than 14 bytes are left or the length field exceeds what is left |
| AmsduForeign.MixedRoundTrip | layers/meta-ked/recipes-kernel/mrvl-sdio8xxx/files/mlan/mlan_11n_aggr.c:226-377 | from any body of subframes with and without the RFC 1042 header, in any order, the parser extracts exactly their frames, whatever padding and following bytes are, if six bytes of tailroom are there |
| AmsduBuffer.GetNumAggrpkts | layers/meta-ked/recipes-kernel/mrvl-sdio8xxx/files/mlan/mlan_11n_aggr.c:188-212 | the counting loop, on the array, computes the count |
| AmsduBuffer.DeaggregatePkt | layers/meta-ked/recipes-kernel/mrvl-sdio8xxx/files/mlan/mlan_11n_aggr.c:226-377 | the in-place loop hands up the frames of the value-level parser and sets the use count to their number; a buffer over the size limit yields none |
| AmsduPacker.PackFits | layers/meta-ked/recipes-kernel/mrvl-sdio8xxx/files/mlan/mlan_11n_aggr.c:458-514 | an aggregate that took a packet fits min(max_amsdu, tx_buf_size) with its headroom once the last padding is dropped |
| AmsduPacker.PackStops | layers/meta-ked/recipes-kernel/mrvl-sdio8xxx/files/mlan/mlan_11n_aggr.c:458-508 | while the list stays valid, packing stops only at an empty queue or at a packet whose length, 8 bytes and the headroom would take the size over the limit |
| AmsduPacker.PackInterrupted | layers/meta-ked/recipes-kernel/mrvl-sdio8xxx/files/mlan/mlan_11n_aggr.c:476-508 | packing goes through one unlocked interval for each packet taken, with exactly the arrivals of these, and is broken off exactly by the first in which the list disappears |
| AmsduPacker.PackOrder | layers/meta-ked/recipes-kernel/mrvl-sdio8xxx/files/mlan/mlan_11n_aggr.c:458-508 | what was taken and what is left is the queue followed by what arrived meanwhile, in order |
| AmsduPacker.PackedParses | layers/meta-ked/recipes-kernel/mrvl-sdio8xxx/files/mlan/mlan_11n_aggr.c:458-514 | from the memory the packer wrote, the receiver extracts exactly the frames taken |
| AmsduPacker.RaList.AggregatePkt | layers/meta-ked/recipes-kernel/mrvl-sdio8xxx/files/mlan/mlan_11n_aggr.c:392-601 | for every outcome, allocation failure and arrival in the unlocked intervals: the three counters change by the same amount as the queue length, the queue is what packing leaves, with the whole aggregate at its head after a requeue, and the buffer holds the subframes of the packets taken |
| DfsNop.AnswersAreExact | layers/meta-ked/recipes-kernel/mrvl-sdio8xxx/files/mlan/mlan_11h.c:2981-3024 | over every run with a clock that does not go back, a channel is reported occupied exactly when its last stored timestamp is a radar hit at most 1800 s old, although expired entries are removed; and there is never more than one entry per channel |
| DfsNop.AskingChangesNoAnswer | layers/meta-ked/recipes-kernel/mrvl-sdio8xxx/files/mlan/mlan_11h.c:3014-3016 | a removal never changes a later answer |
| DfsNop.AskingRemovesExactly | layers/meta-ked/recipes-kernel/mrvl-sdio8xxx/files/mlan/mlan_11h.c:3000-3016 | asking about a channel removes its entry exactly if that is a radar hit more than 1800 s old, and no other entry |
| DfsNop.DfsState.FindDfsTimestamp | layers/meta-ked/recipes-kernel/mrvl-sdio8xxx/files/mlan/mlan_11h.c:1400-1427 | the list walk finds the first entry for the channel |
| DfsNop.DfsState.AddDfsTimestamp | layers/meta-ked/recipes-kernel/mrvl-sdio8xxx/files/mlan/mlan_11h.c:1462-1508 | an entry is added or updated; it fails exactly when a new one is needed and cannot be allocated |
| DfsNop.DfsState.IsChannelUnderNop | layers/meta-ked/recipes-kernel/mrvl-sdio8xxx/files/mlan/mlan_11h.c:2981-3024 | the answer, the lazy removal, and that no answer at this time changes for any channel |
| DfsRegion.OneATable | layers/meta-ked/recipes-kernel/mrvl-sdio8xxx/files/mlan/mlan_cfp.c:2038-2113 | whatever bands are asked for, at most one of the two slots is a 5 GHz table, and one is exactly when a 5 GHz band is asked for and every look-up before it succeeds |
| DfsRegion.TwoGHzFirst | layers/meta-ked/recipes-kernel/mrvl-sdio8xxx/files/mlan/mlan_cfp.c:2055-2085 | the 2.4 GHz table comes first, marked for G unless only B was asked for; if it is missing nothing is set |
| DfsRegion.SetRegionTable | layers/meta-ked/recipes-kernel/mrvl-sdio8xxx/files/mlan/mlan_cfp.c:2038-2113 | the slots are cleared and filled in place as that list of tables says, also when it fails halfway; it fails exactly when a table looked up is missing |
| DfsSelect.ProbeExactly | layers/meta-ked/recipes-kernel/mrvl-sdio8xxx/files/mlan/mlan_11h.c:1330-1371 | from every starting entry the probe fails exactly when no entry is good, otherwise stops at the first good one of the round; no entry is tried twice |
| DfsSelect.UapStartExactly | layers/meta-ked/recipes-kernel/mrvl-sdio8xxx/files/mlan/mlan_11h.c:1277-1379 | on 5 GHz with 11h on and one matching table of non-zero channels, for every seed: 0 exactly when no entry is acceptable, otherwise the channel of an acceptable entry (band-valid, not under NOP, in the information stage not radar-required) |
| DfsSelect.AcceptableExactly | layers/meta-ked/recipes-kernel/mrvl-sdio8xxx/files/mlan/mlan_11h.c:1236-1262 | on the tables that were set an entry is acceptable exactly if it is enabled, fits the width (165 only at 20 MHz, no barred 40 MHz), had no radar in the last 1800 s, and, in the information stage, the first 5 GHz entry for its channel is not flagged or is the one connected to |
| DfsSelect.UapStartFirst | layers/meta-ked/recipes-kernel/mrvl-sdio8xxx/files/mlan/mlan_11h.c:1330-1371 | the entry taken is the first acceptable one going round the table from the seeded one |
| DfsSelect.MatchesOnce | layers/meta-ked/recipes-kernel/mrvl-sdio8xxx/files/mlan/mlan_11h.c:1319-1328 | on the tables that were set there is exactly one matching table, if a 5 GHz table was set for this region, or none |
| DfsSelect.UapStartOnTables | layers/meta-ked/recipes-kernel/mrvl-sdio8xxx/files/mlan/mlan_11h.c:1277-1379 | so for whatever tables were set and every seed: with a 5 GHz table for the region the answer is right as above, and without one it is channel 36 |
| DfsSelect.UapStartUnchecked | layers/meta-ked/recipes-kernel/mrvl-sdio8xxx/files/mlan/mlan_11h.c:1311-1328 | without a matching table the default channel 36 comes out, acceptable or not |
| DfsSelect.UapStartElsewhere | layers/meta-ked/recipes-kernel/mrvl-sdio8xxx/files/mlan/mlan_11h.c:1293-1316 | off 5 GHz the channel is 6, and with 11h off it is 36 |
| DfsSelect.LooksInto5GHz | layers/meta-ked/recipes-kernel/mrvl-sdio8xxx/files/mlan/mlan_11h.c:2041-2075 | the table the radar question and the switch search is the 5 GHz one that was set, or none |
| DfsSelect.UapLeavesRadarChannel | layers/meta-ked/recipes-kernel/mrvl-sdio8xxx/files/mlan/mlan_11h.c:3498-3512 | a channel just marked by radar is never the one chosen |
| DfsSelect.GivesUpExactly | layers/meta-ked/recipes-kernel/mrvl-sdio8xxx/files/mlan/mlan_11h.c:3498-3531 | the radar handling of an access point gives up (new channel 0 or the current one) exactly when no entry of the table is acceptable once the hit is on the list |
| DfsSelect.GetUapStartChannel | layers/meta-ked/recipes-kernel/mrvl-sdio8xxx/files/mlan/mlan_11h.c:1277-1379 | the loops with their lazy removals compute that choice and change no answer of the list |
| DfsSelect.SwitchExactly | layers/meta-ked/recipes-kernel/mrvl-sdio8xxx/files/mlan/mlan_11h.c:4112-4151 | whatever the 30 draws, a channel comes out exactly when the table holds one without radar duty and not under NOP, and then it is such a channel |
| DfsSelect.SwitchUnfitExactly | layers/meta-ked/recipes-kernel/mrvl-sdio8xxx/files/mlan/mlan_11h.c:4112-4151 | the entry switched to does not fit the band exactly when no draw but the last hits a free fitting entry and the lowest free entry does not fit |
| DfsSelect.SwitchChoosesExactly | layers/meta-ked/recipes-kernel/mrvl-sdio8xxx/files/mlan/mlan_11h.c:4112-4151 | the first of the 29 draws that count which hits a free fitting entry is taken, without one the lowest free entry |
| DfsSelect.SwitchNonDfsChan | layers/meta-ked/recipes-kernel/mrvl-sdio8xxx/files/mlan/mlan_11h.c:4087-4155 | the draws and the fallback walk compute that choice; no table means failure |
| DfsHandler.RadarHandler.RadarDetectedHandling | layers/meta-ked/recipes-kernel/mrvl-sdio8xxx/files/mlan/mlan_11h.c:3355-4005 | the fall-through switch with its index loops, in place, equals one value-level call, in fields, interfaces and commands, from every stage |
| DfsHandler.RadarHandler.GetPrivCurrIdx | layers/meta-ked/recipes-kernel/mrvl-sdio8xxx/files/mlan/mlan_11h.c:3272-3288 | the 8-bit index, started at 255, stops at the interface's place or at the end of the list |
| DfsHandler.RadarHandler.ActiveInterfaces | layers/meta-ked/recipes-kernel/mrvl-sdio8xxx/files/mlan/mlan_11h.c:1046-1066 | the active interfaces, in order |
| DfsRadarRuns.StepInv | layers/meta-ked/recipes-kernel/mrvl-sdio8xxx/files/mlan/mlan_11h.c:3385-4001 | in any order of completions the trace so far, the state of every interface and the pending commands are known exactly at each stage, also where the run has stopped short of its end |
| DfsRadarTheorems.RunEnds | layers/meta-ked/recipes-kernel/mrvl-sdio8xxx/files/mlan/mlan_11h.c:3385-4001 | a run that reaches RDH_OFF has produced exactly the full trace and the restarted interfaces, or, if an access point found no other channel, exactly its stop, after which it is not started; nothing is left for a later run to restart |
| DfsRadarTheorems.RunInOrder | layers/meta-ked/recipes-kernel/mrvl-sdio8xxx/files/mlan/mlan_11h.c:3743-3951 | at every moment of every run all stops precede all channel settings, which precede all restarts; traffic is disabled before and enabled after them |
| DfsRadarDuties.EachInterfaceOnce | layers/meta-ked/recipes-kernel/mrvl-sdio8xxx/files/mlan/mlan_11h.c:3425-3990 | for every active interface and every action on it, how often a complete run does it: traffic disabled and enabled once; an access point asked for its beacon period, stopped, set to the new channel and started once; a station disconnected once, by AdhocStop if ibss and Deauth otherwise; a creator started once on the new channel; a master's announcement made and withdrawn once; anything else never |
| DfsRadarDuties.OthersUntouched | layers/meta-ked/recipes-kernel/mrvl-sdio8xxx/files/mlan/mlan_11h.c:3425-3990 | no action of a complete run, but the question for the channel, concerns an interface that was not active |
| DfsRadarDuties.AskedAndMarkedOnce | layers/meta-ked/recipes-kernel/mrvl-sdio8xxx/files/mlan/mlan_11h.c:3446-3500 | the access point hit is asked for its channel once, and exactly the channel in use goes on the non-occupancy list, once |
| DfsRadarDuties.ActiveExactly | layers/meta-ked/recipes-kernel/mrvl-sdio8xxx/files/mlan/mlan_11h.c:1046-1066 | the active interfaces are exactly the started access points and the connected stations |
| DfsRadarDuties.StationHit | layers/meta-ked/recipes-kernel/mrvl-sdio8xxx/files/mlan/mlan_11h.c:3463-3495 | for a hit reported by a station the channel in use is that of the first active station, or of the last active interface if there is none |
| DfsRadarTheorems.EndState | layers/meta-ked/recipes-kernel/mrvl-sdio8xxx/files/mlan/mlan_11h.c:3877-3921 | afterwards creators run their network again on the new channel, other stations are disconnected, and access points, which were stopped and started, are as before |
| DfsRadarTheorems.TraceIsPrefix | layers/meta-ked/recipes-kernel/mrvl-sdio8xxx/files/mlan/mlan_11h.c:3385-4001 | the trace is always a prefix of the full one, or ends in the stop of the access point |
| DfsRadarTheorems.NothingActive | layers/meta-ked/recipes-kernel/mrvl-sdio8xxx/files/mlan/mlan_11h.c:3403-3412 | without an active interface the call ends at once and does nothing |
| DfsRadarProgress.FinishesExactly | layers/meta-ked/recipes-kernel/mrvl-sdio8xxx/files/mlan/mlan_11h.c:3385-4001 | every run can always go on until RDH_OFF if and only if an access point hit by radar is active, some active interface is a DFS master, and either no active access point leaves 11h to the host or the detection gives up there and then (a station hit, no station active, no other channel found) |
| DfsRadarProgress.StallsAtOnce | layers/meta-ked/recipes-kernel/mrvl-sdio8xxx/files/mlan/mlan_11h.c:3628-3672 | without an active DFS master, or when the access point hit is not active, the run stands still at once: no command is pending and the stage is not RDH_OFF |
| DfsRadarProgress.RunsAreBounded | layers/meta-ked/recipes-kernel/mrvl-sdio8xxx/files/mlan/mlan_11h.c:3385-4001 | no run has more than 8n + 2 completions for n active interfaces, so every run that can always go on ends |
| DfsRadarChoice.RunWithSelector | layers/meta-ked/recipes-kernel/mrvl-sdio8xxx/files/mlan/mlan_11h.c:3498-3531 | when an active access point is hit and the selector is asked with the reported channel on the list: a run that is over ended in the stop exactly when no entry of the 5 GHz table is acceptable, otherwise it moved all interfaces to an acceptable channel other than the reported one |
| CountrySort.SortedIsStable | layers/meta-ked/recipes-kernel/mrvl-sdio8xxx/files/mlan/mlan_11d.c:604-630 | the sort orders by channel and keeps the entries for each channel, in their order |
| CountrySort.StableSortUnique | layers/meta-ked/recipes-kernel/mrvl-sdio8xxx/files/mlan/mlan_11d.c:604-630 | only one arrangement has these two properties |
| CountrySort.SortParsedRegionChan | layers/meta-ked/recipes-kernel/mrvl-sdio8xxx/files/mlan/mlan_11d.c:604-630 | the in-place insertion sort computes it and leaves the rest of the array alone |
| CountryBands.CompressIsMaximalRuns | layers/meta-ked/recipes-kernel/mrvl-sdio8xxx/files/mlan/mlan_11d.c:310-340 | the sub-bands expand to the channel list and are its maximal runs |
| CountryBands.MaximalRunsUnique | layers/meta-ked/recipes-kernel/mrvl-sdio8xxx/files/mlan/mlan_11d.c:310-340 | a list has only one decomposition into maximal runs |
| CountryBands.GenerateDomainInfo | layers/meta-ked/recipes-kernel/mrvl-sdio8xxx/files/mlan/mlan_11d.c:290-360 | the loop fills the cleared array with these sub-bands and leaves the rest cleared |
| CountryParse.ParseUndoesGenerate | layers/meta-ked/recipes-kernel/mrvl-sdio8xxx/files/mlan/mlan_11d.c:1025-1107 | parsing the generated sub-bands gives back the same channels with the same powers, for strictly ascending channels of one band's table within the array limit |
| CountryParse.RoundTripExactly | layers/meta-ked/recipes-kernel/mrvl-sdio8xxx/files/mlan/mlan_11d.c:1025-1107 | and for no other channel lists: the round trip holds if and only if the channels are strictly ascending and listed |
| CountryParse.ElementRoundTrip | layers/meta-ked/recipes-kernel/mrvl-sdio8xxx/files/mlan/mlan_11d.c:1025-1107 | an element of 3 + 3n bytes with the n sub-bands generated from a list of at most 40 channels comes back as that list exactly if the channels strictly ascend and each is in the 2.4 GHz table, when that band is asked for, or else in the 5 GHz one |
| CountryParse.NeitherBand | layers/meta-ked/recipes-kernel/mrvl-sdio8xxx/files/mlan/mlan_11d.c:437-476 | an element asked about for neither band gives no channels |
| CountryParse.ListedExactly | layers/meta-ked/recipes-kernel/mrvl-sdio8xxx/files/mlan/mlan_11d.c:77-128 | the channels of the two tables: 1 to 14; and 8, 12, 16, the even ones from 34 to 48, and in steps of four 52 to 64, 100 to 140 and 149 to 165 |
| CountryParse.BgParseAscends | layers/meta-ked/recipes-kernel/mrvl-sdio8xxx/files/mlan/mlan_11d.c:1058-1094 | on 2.4 GHz the parsed channels strictly ascend whatever the element says |
| CountryParse.AjParseAscendsExactly | layers/meta-ked/recipes-kernel/mrvl-sdio8xxx/files/mlan/mlan_11d.c:1058-1094 | on 5 GHz they ascend if and only if no sub-band that is read begins at or before 46 in the table and runs past it within the room left |
| CountryParse.AjParseMayDescend | layers/meta-ked/recipes-kernel/mrvl-sdio8xxx/files/mlan/mlan_11d.c:1058-1094 | a sub-band of five channels from 34 is one on which they do not ascend |
| CountryParse.GetChanLoop | layers/meta-ked/recipes-kernel/mrvl-sdio8xxx/files/mlan/mlan_11d.c:437-476 | the entry n places after the first channel in the table, if there is one |
| CountryParse.GetChanExactly | layers/meta-ked/recipes-kernel/mrvl-sdio8xxx/files/mlan/mlan_11d.c:437-476 | which is counted from the first place of that channel in the table |
| CountryParse.ParseDomainInfo | layers/meta-ked/recipes-kernel/mrvl-sdio8xxx/files/mlan/mlan_11d.c:1025-1107 | the loops write these channels with their powers and the band from the start of the array, keep their apSeen flag, and leave every other entry as it was; it fails exactly for an empty country code or a length of at most 3, and then changes nothing |
| BtDownload.StepKept | layers/meta-ked/recipes-kernel/mrvl-bt8xxx/files/bt/bt_sdiommc.c:570-672 | after every turn the bytes sent for the first time are the image up to the offset, and a resend repeats the blocks just sent, at most twice in a row |
| BtDownload.PollExactly | layers/meta-ked/recipes-kernel/mrvl-bt8xxx/files/bt/bt_sdiommc.c:587-609 | the length offered is that of the first read that fails or is not zero, low byte first |
| BtDownload.TurnExactly | layers/meta-ked/recipes-kernel/mrvl-bt8xxx/files/bt/bt_sdiommc.c:570-672 | one turn, case by case in numbers: failure for a card not ready, no length, a length above 2312 or a third bad block in a row; a repetition; or as many bytes as asked for and left, in blocks of 256 |
| BtDownload.OverMeans | layers/meta-ked/recipes-kernel/mrvl-bt8xxx/files/bt/bt_sdiommc.c:580-611 | leaving at the end-of-data test means the whole image was sent; the only other exit without error is a helper that offers no length |
| BtDownload.InsideExactly | layers/meta-ked/recipes-kernel/mrvl-bt8xxx/files/bt/bt_sdiommc.c:557-566 | for every alignment of the buffer a chunk within the length limit fits it, and its whole blocks do exactly if it has at most 2304 bytes |
| BtDownload.StaysInsideExactly | layers/meta-ked/recipes-kernel/mrvl-bt8xxx/files/bt/bt_sdiommc.c:611-661 | over every run, resends included, no transfer reads beyond the buffer exactly as long as no turn is offered an even length above 2304, the odd bit ignored at the start, with as much of the image left |
| BtDownload.NeverEndsExactly | layers/meta-ked/recipes-kernel/mrvl-bt8xxx/files/bt/bt_sdiommc.c:570-672 | the loop goes on for ever if and only if there is an image to send and the helper asks for one byte at every turn |
| BtDownload.EndsAfter | layers/meta-ked/recipes-kernel/mrvl-bt8xxx/files/bt/bt_sdiommc.c:570-672 | from the first other turn on it ends within three turns a byte and three more |
| BtDownload.OneByteSpins | layers/meta-ked/recipes-kernel/mrvl-bt8xxx/files/bt/bt_sdiommc.c:619-622 | a helper that keeps asking for one byte does keep the loop going |
| BtDownload.Download.InitFwDpc | layers/meta-ked/recipes-kernel/mrvl-bt8xxx/files/bt/bt_sdiommc.c:526-691 | the loop in place ends as some finite run of turns does, with the bytes sent being the image up to the offset; without error only if that is the whole image or the last poll offered no length |
| BtInterrupt.HandOff | layers/meta-ked/recipes-kernel/mrvl-bt8xxx/files/bt/bt_main.c:2957-3011 | for every interleaving the SDIO host claim allows: sd_ireg non-zero implies IntCounter non-zero or one side between its two steps; a cause once raised is in sd_ireg until it is taken, each taking takes exactly the outstanding causes; no packet goes out in PS_SLEEP, nor before the one before it is acknowledged; and tx_dnld_rdy is set exactly when that permits it |
| BtInterrupt.StepKeeps | layers/meta-ked/recipes-kernel/mrvl-bt8xxx/files/bt/bt_main.c:2936-2977 | each step of either side keeps the invariant |
| BtInterrupt.SleepsExactly | layers/meta-ked/recipes-kernel/mrvl-bt8xxx/files/bt/bt_main.c:2936-2977 | for every such interleaving, with causes waiting and the handler done: the main thread sleeps exactly when the handler last reset WakeupTries between the test and the end of the count of a try, unless that count wraps; never with the card in PS_SLEEP |
| BtInterrupt.SleepsWithoutCause | layers/meta-ked/recipes-kernel/mrvl-bt8xxx/files/bt/bt_main.c:2938-2945 | and with no interrupt counted it sleeps exactly if a try is out, nothing is queued or the last packet is not acknowledged |
| BtInterrupt.LostBeforeLoad | layers/meta-ked/recipes-kernel/mrvl-bt8xxx/files/bt/bt_main.c:2957-2965 | that state is reached by a whole interrupt before the count is loaded, so an atomic increment would not help |
| BtInterrupt.LostBeforeStore | layers/meta-ked/recipes-kernel/mrvl-bt8xxx/files/bt/bt_main.c:2965 | and by one between its load and its store |
| BtInterrupt.RoundSends | layers/meta-ked/recipes-kernel/mrvl-bt8xxx/files/bt/bt_main.c:2936-2976 | a round with no interrupt counted, the card awake and a packet permitted sends exactly one |
| BtInterrupt.RoundTries | layers/meta-ked/recipes-kernel/mrvl-bt8xxx/files/bt/bt_main.c:2962-2967 | a round with the card asleep counts one try, in 8 bits, if a packet waits and changes nothing otherwise |
| BtInterrupt.RoundAcknowledges | layers/meta-ked/recipes-kernel/mrvl-bt8xxx/files/bt/bt_sdiommc.c:1827-1843 | a round with an acknowledgement waiting takes all causes and gives the permission to send back; only an upload event can put the card to sleep |
| BtInterrupt.WholeInterrupt | layers/meta-ked/recipes-kernel/mrvl-bt8xxx/files/bt/bt_main.c:2993-3011 | an interrupt adds its causes, marks the card awake, clears the tries and counts one, and touches nothing else |
| BtInterrupt.HostToCard | layers/meta-ked/recipes-kernel/mrvl-bt8xxx/files/bt/bt_sdiommc.c:1667-1733 | a transfer is tried up to three times and succeeds exactly when one of them does; only a success clears tx_dnld_rdy |
| BtStrsep.SplitJoined | layers/meta-ked/recipes-kernel/mrvl-bt8xxx/files/bt/bt_init.c:71-112 | escaping tokens, joining them and separating until NULL gives back the tokens, less an empty last one |
| BtStrsep.RoundTripExactly | layers/meta-ked/recipes-kernel/mrvl-bt8xxx/files/bt/bt_init.c:71-112 | for every delimiter and escape character the round trip is exact if and only if the last token is not empty and, where the two characters are the same, no later token is empty or begins with it |
| BtStrsep.ScanLiteral | layers/meta-ked/recipes-kernel/mrvl-bt8xxx/files/bt/bt_init.c:84-104 | text without delimiter and escape pairs is passed as it is, lone escape characters included, up to the delimiter or the end |
| BtStrsep.Strsep | layers/meta-ked/recipes-kernel/mrvl-bt8xxx/files/bt/bt_init.c:71-112 | one call in place: the token is the unescaped text before the delimiter, the rest begins after it, and the memmoves stay inside the string |
| BtStrsep.SeparateAll | layers/meta-ked/recipes-kernel/mrvl-bt8xxx/files/bt/bt_init.c:71-112 | calling until NULL leaves every token in the buffer with its terminator |

## Left out

- Table look-up by transmitter and TID, ADDBA and DELBA commands, window size negotiation: field copying; a reorder call starts from its entry.
- RSN replay checking: taken as off; it consults key state that is not part of this model.
- Spin locks of the Wi-Fi code: each locked region and each reorder call is one atomic step; what other contexts do while the aggregation loop releases its lock is an input.
- RxInvariant.StepKeepsNumbers: assumes that a packet arrives with its own number, since payloads are opaque.
- RxRuns.BoundedReordering: covers the stretches of a run between start-up and resume mode, where the driver deliberately restarts the order; `RxRestart` gives the order across one such restart.
- AmsduFormat.RoundTrip: subframe lengths are those that fit the 16-bit length field, beyond which the driver's own cast truncates.
- AmsduBuffer.DeaggregatePkt: requires that the parser's reads are in range and allocation succeeds; `AmsduFormat.TailroomSuffices` gives a sufficient tailroom. Routing of an extracted frame (EAPOL, TDLS, UAP forwarding) is not modelled.
- AmsduPacker.RaList.AggregatePkt: the contents of the TxPD, buffer flags and statistics are not modelled; queued packets are Ethernet frames that were not requeued before.
- ECSA, channel switch events and the DFS test overrides: taken as off.
- DfsRadarTheorems.RunEnds: every command succeeds, each completion re-enters the handler as the response code does, in any order, and interfaces change only through these completions, the start of an access point taking effect with its response rather than with the event that follows it; a run starts with no command of an earlier one pending.
- The beacon and DTIM periods, the delay they decide, and the activation commands for radar detection before a restart: they do not affect the order of stages.
- wlan_11h_get_adhoc_start_channel: it may give up after 20 tries and return an unsuitable channel, so its result is an arbitrary input of the radar handling.
- DfsSelect.UapStartExactly: the clock does not advance during one selection; the same holds for `DfsSelect.SwitchExactly`.
- Channel, rate and operating-class tables: what the look-ups of `DfsRegion.SetRegionTable` return is an input, and the flags it carries over from the old tables are not modelled.
- The power merge of wlan_11d_parse_dnld_countryinfo and the region mapping around the sub-band compression.
- BtDownload.Download.InitFwDpc: requires a card that does not ask for one byte at every turn, unless there is no image, which is exactly when the loop ends; transfers are whole blocks, and what they carry beyond the image, from the buffer or from behind it, is not described.
- BtInterrupt.HandOff: IntCounter is unbounded; the handler is called with the SDIO host claimed, as the kernel does for a claimed SDIO interrupt, and the out-of-band variant is not part of this model; host-sleep state, commands and event contents other than going to sleep are not modelled.
- Liveness of the Bluetooth main thread beyond `BtInterrupt.SleepsExactly`.
- BtStrsep.Strsep: escape and delimiter are not the terminator, as in its callers.
- Kernel plumbing, command encoders, ioctl dispatch, SDIO register access, debug output, the Qt programs and the Yocto metadata: no logic worth a model.
