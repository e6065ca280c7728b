# The capture engine of dumpcap, the extcap parser and the record loop of capinfos

A Dafny model of three parts of Wireshark, with proofs about them.

* **Pipe readers** (`dumpcap.c`). A pcap or pcapng stream arrives in chunks of any size and is taken apart by
  resumable readers. `PcapFormat` and `PcapngFormat` define the framing of a whole byte sequence;
  `PcapPipe` and `PcapngPipe` hold the readers as classes over a buffer that grows, and prove that what they
  deliver is that framing, however the reads fall. `Framing` holds what does not depend on the format,
  `PowerOfTwo` the rounding of buffer sizes, `Bytes` the integers in them.
* **Interface multiplexer** (`dumpcap.c`). `Sections` defines what a reader of an output file makes of it: each packet,
  with the interface description it refers to. `Writer` defines the writing side of a capture as functions on its
  state; `CaptureWriter` holds the methods that do this in place, each proved equal to its function.
  `Multiplexing` proves that packets of several sources, renumbered into one pcapng output over several files,
  keep the interfaces they had, and `SourceAttribution` that for each source the files say what its own blocks say;
  `SimplePackets` is about blocks that name no interface. `Passthrough` proves that one pcapng stream, cut into several
  files, says the same as the stream. `Closing` is about the statistics blocks at the end.
* **Limits and reports** (`dumpcap.c`). `Limits` proves that stop and switch conditions bound every run, and exactly
  when a packet, a block or an update tick stops a capture or leads to a new file; `Reports` proves that the counts sent
  to the parent belong to the files they are sent for. `Announcements` is about the files announced in passthrough.
* **Threads** (`dumpcap.c`). `CaptureQueue` is the system of reader threads, bounded queue and writer, whose steps
  interleave in any order; `Conservation` proves that nothing is lost, repeated or moved on the way, with
  `Payload` for the last part of it, through the files; `Losses` is about what a full queue takes from a pcapng stream.
  `CaptureThreads` holds the callbacks and the drain loop in place.
  `EndToEnd` and `CaptureLoop` put readers and writer together, from the bytes on a pipe to the files.
* **extcap sentences** (`extcap_parser.c`). `ExtcapTokenizer` has the two regular expressions as scanners, proved against
  what the patterns say, and the round trip of printed sentences; `ExtcapArgs` groups values under arguments.
* **capinfos** (`capinfos.c`). `Capinfos` is the record loop: earliest and latest time, order, packets per interface.

A run of the writer is any sequence of operations: a block or packet arrives, the update interval passes, the
capture is told to stop. Each operation comes with the disk's answers (the write works or not, the switch yields a file
or not, how many of its first blocks can be written), so that a statement about all runs covers all failures.

Some things that the sources do turned out differently from what their comments or the format promise. They
are modelled as they are, and lemmas say exactly when they matter:

* `nstime_cmp` converts a difference of 64-bit seconds to `int`. Times 2^31 seconds or more apart can be
  ordered wrongly (`Capinfos.CompareRightIff`). For the order verdict that matters as `SortedFileRightIff` says, for the
  earliest and latest times of sorted files as `EarliestRightIff` and `LatestRightIff` say; `FarApartMisjudged` and
  `FarApartSimultaneous` are inputs. If the first packet has no stamp, the first stamp is compared with time zero, so that the verdict can be wrong from 19 January 2038 on
  (`VerdictRightIff`, `FirstUnstampedMisjudged`).
* The statistics blocks written at the end use the number of the source as interface id, not the id its
  description has (`Closing.StatisticsResolveIff`, `StatisticsMisattributed`).
* Simple packet blocks are copied without renumbering (`SimplePackets.SimplePacketRead`,
  `SimplePacketsResolveIff`, `SimplePacketMisattributed`).
* A section header in the other byte order in the middle of a stream is neither refused nor passed: the reader reports
  success and takes no more bytes (`PcapngPipe.PcapngSource.Dispatch`). That happens exactly on streams whose framing stops
  there (`StuckIff`, `ReadAll`), such as well-formed blocks followed by such a header (`ReadForeign`).
* Two kinds of pcapng blocks do not make the buffer grow to their length: a section header in the middle of a stream,
  whose length is not looked at (`PcapngFormat.OverlongAfter`), and a block longer than 2^31, where rounding up wraps to
  zero (`PowerOfTwo.RoundUpFitsIff`). The largest packet size is far below that; the length of a block that is not a data
  block is not bounded.
* A too short pcapng block is reported as end of file (`PcapngPipe.PcapngSource.HeaderComplete`).
* A full queue drops section headers and interface descriptions of a pcapng source like packets. Packets of the
  section that come after can then be attributed to other interfaces of the source, or end the capture
  (`Losses.LostDescriptionHarmlessIff`, `LostSectionHarmlessIff`, `LostDescriptionMisattributes`).
* When a stream is passed through, the announcement of a new file waits for a section header from the stream, although
  the file starts with the saved one; a file into which none is written is never announced
  (`Announcements.AnnouncedIff`, `SecondFileNotAnnounced`).
* Separators before the keyword of an extcap sentence become part of its name, and the sentence is then neither an
  argument nor a value (`ExtcapArgs.ArgOrValueLineIff`, `BlankLosesValue`).
* A packet without an interface id is counted as unknown as long as the list of interfaces fetched last is empty,
  even if interfaces have been read since (`Capinfos.CountsAlwaysRight`, `KnownInterfaceMissed`).

## Model

| member | source | states |
|---|---|---|
| PowerOfTwo.RoundUpIsLeastPowerOfTwo | dumpcap.c:2787-2797 | For 1 <= n <= 2^31 the bit smearing gives the least power of two that is at least n |
| PowerOfTwo.RoundUpFitsIff | dumpcap.c:3041-3053 | The size computed is at least the length announced if and only if that is at most 2^31; above, it wraps to zero |
| Bytes.SwapUndoesReversal | dumpcap.c:1486-1489 | Swapping a 32-bit field gives the value of the bytes in reverse order |
| Framing.ChunkingIrrelevant | dumpcap.c:2629-2687 | Items found chunk by chunk, holding the unfinished one in between, are those of the whole stream, for any split |
| Framing.FrameAppend | dumpcap.c:2689-2749 | More bytes change nothing of what has been framed: the rest goes on from the unfinished item |
| PcapFormat.RecordVerdict | dumpcap.c:2763-2837 | A record taken from the front of a stream is as long as its header says, its data as long as its captured length, within the largest packet size |
| PcapFormat.RecordsIgnoreChunking | dumpcap.c:2629-2749 | However reads split a pcap stream, the records are those of the whole stream |
| PcapFormat.RecordSizes | dumpcap.c:2763-2837 | The sizes of the records and of the unfinished one add up to the bytes consumed |
| PcapFormat.RecordsOfEncoded | dumpcap.c:2763-2837 | Records encoded in a format frame back to themselves, followed by the framing of what comes after them |
| PcapFormat.TooLongIff | dumpcap.c:2763-2778 | After records that a format can carry, the header of another one is refused if and only if its captured length is above 128 MB for D-Bus and USBPcap, 32 MB for EBHSCR, 256 KB for other link types |
| PcapFormat.StopKept | dumpcap.c:2763-2778 | Once a record has been refused, more bytes change neither that nor the records before it |
| PcapFormat.CapturedWithinOriginal | dumpcap.c:1494-1507 | At format version 2.3 no record has a captured length above its original length |
| PcapFormat.AdjustTwice | dumpcap.c:1482-1508 | In either byte order a second adjustment undoes the first before version 2.3, and from 2.3 on leaves only the interchange of the lengths; in this host's order it is harmless exactly from 2.3 on or when the lengths are equal |
| PcapFormat.TwinsFrameAlike | dumpcap.c:1482-1508 | A stream and the same stream with every header field byte-swapped give the same records, end alike and leave as many bytes |
| PcapFormat.TwinOpens | dumpcap.c:2249-2255 | A file header with every field byte-swapped opens to the same format with the other byte order |
| PcapFormat.TwinFiles | dumpcap.c:2105-2144 | A pcap file and its byte-swapped twin are both refused, or give the same records, at every version |
| PcapFormat.FileHeaderRoundTrip | dumpcap.c:2105-2144 | A file header laid out byte by byte, in either byte order, with standard, nanosecond or modified magic number, version and link type at their offsets, opens to that format if the major version is at least 2 |
| PcapFormat.OpensIff | dumpcap.c:2105-2144 | A pipe opens to a format if and only if its first 24 bytes are such a header; every other magic number or version is refused |
| PcapFormat.PcapFileRoundTrip | dumpcap.c:2763-2837 | A whole file, header and records as they are written in a format, is read back as that format and those records |
| PcapPipe.AdjustPcapHeader | dumpcap.c:1482-1508 | The header in memory ends up as the specified adjustment of what was there |
| PcapPipe.PcapSource.constructor | dumpcap.c:2028-2029 | A reader starts with a buffer of 2048 bytes, nothing consumed and nothing delivered |
| PcapPipe.PcapSource.Grow | dumpcap.c:2782-2800 | The new size is the least power of two that holds the record, and the bytes in the buffer survive |
| PcapPipe.PcapSource.ReadHeaderBytes | dumpcap.c:2646-2687 | After one read of a header the reader stands where the framing of all bytes consumed says, wherever the read ended |
| PcapPipe.PcapSource.HeaderComplete | dumpcap.c:2763-2815 | A whole header is adjusted once and leads to a refusal, to data to read, or at once to an empty record |
| PcapPipe.PcapSource.ReadDataBytes | dumpcap.c:2704-2748 | After one read of data the reader stands where the framing of all bytes consumed says |
| PcapPipe.PcapSource.DataArrived | dumpcap.c:2817-2837 | The record is delivered exactly when its last byte has arrived |
| PcapPipe.PcapSource.Dispatch | dumpcap.c:2611-2859 | The records delivered are those of the bytes consumed; a successful call consumes something; end of file is reported only when nothing is left; the buffer stays a power of two and never shrinks |
| PcapPipe.PcapSource.ReadAll | dumpcap.c:4142-4146 | The loop ends, with the records of what was read delivered; at end of file those of the whole stream; unless a read fails, it ends with an error if and only if the stream has a record that is refused |
| PcapngFormat.BlockVerdict | dumpcap.c:2999-3085 | A block taken from the front of the bytes held is their first bytes, as many as its length says; they are used up, and with them the fixed part of a section header whose length is shorter than that |
| PcapngFormat.BlocksIgnoreChunking | dumpcap.c:2877-2989 | However reads split a pcapng stream, the blocks are those of the whole stream |
| PcapngFormat.BlocksOfStream | dumpcap.c:2999-3085 | A well-formed stream frames into exactly its blocks, byte for byte |
| PcapngFormat.PartOfStream | dumpcap.c:2999-3085 | Part of a well-formed stream is never refused and gives the first of its blocks; all of it gives them all |
| PcapngFormat.RefusedAfter | dumpcap.c:3018-3068 | After well-formed blocks, the header of another block is refused for a length that is not a multiple of four, is above 256 KB for a block with data, is below 12, or is above 2^31 and the buffer, in this order, and for nothing else |
| PcapngFormat.ShortSectionAfter | dumpcap.c:3004-3016 | A section header whose length is below its fixed part uses up all 24 bytes, and as many as it says are delivered |
| PcapngFormat.StopKept | dumpcap.c:2999-3085 | Once the framing has stopped for some reason, more bytes change neither the reason nor the blocks |
| PcapngFormat.ForeignAfter | dumpcap.c:2359-2377 | Well-formed blocks followed by a section header in the other byte order frame to those blocks and stop there |
| PcapngFormat.OverlongAfter | dumpcap.c:3004-3016 | Well-formed blocks followed by a section header in this byte order that is longer than the buffer frame to those blocks and stop because the next one does not fit |
| PcapngPipe.PcapngSource.constructor | dumpcap.c:2028-2029 | A reader starts with a buffer of 2048 bytes and the four bytes of the block type in it |
| PcapngPipe.PcapngSource.ReadDataBytes | dumpcap.c:1749-1818 | Reads until the bytes asked for are in the buffer after those already there, or end of file or an error; nothing read before is touched |
| PcapngPipe.PcapngSource.ReadShb | dumpcap.c:2316-2407 | With the fixed part of a section header in this byte order the reader is at the block's contents; in the other order it is stuck |
| PcapngPipe.PcapngSource.HeaderComplete | dumpcap.c:3018-3068 | A block header is refused exactly if the length is not a multiple of four, too short, or too long for a data block, for the reason the framing gives; otherwise the block fits the buffer if and only if it did before or its length is at most 2^31 |
| PcapngPipe.PcapngSource.Grow | dumpcap.c:3036-3054 | The bytes already read survive growth if the new size holds the block |
| PcapngPipe.PcapngSource.ReadHeader | dumpcap.c:2877-2930 | From a block boundary, the reader gets to the block's contents, to a refusal or to the end of the stream, as the framing says |
| PcapngPipe.PcapngSource.ReadBody | dumpcap.c:2932-2985 | The block is delivered whole, whether it was entered with 8 bytes read or with 24 |
| PcapngPipe.PcapngSource.DeliverBlock | dumpcap.c:3070-3085 | Exactly the block's bytes are given to the callback |
| PcapngPipe.PcapngSource.ReadAgain | dumpcap.c:3014-3016 | After a section header in the other byte order a call reads nothing, delivers nothing and reports success |
| PcapngPipe.PcapngSource.StuckIff | dumpcap.c:3014-3016 | A reader without an error is stuck if and only if the framing of what it has read stops at a section header in the other byte order |
| PcapngPipe.PcapngSource.Dispatch | dumpcap.c:2861-3106 | The blocks delivered are those of the bytes consumed, and each call makes progress unless the reader is stuck |
| PcapngPipe.PcapngSource.OpenLive | dumpcap.c:2528-2606 | Opening succeeds if and only if all 24 bytes come, the length is a multiple of four and the byte order is this host's; fewer bytes are read only at end of file, when a read fails, or after a length that is none |
| PcapngPipe.PcapngSource.ReadAll | dumpcap.c:4142-4146 | The loop ends at end of file, at an error or stuck, with the first blocks of the stream delivered; there is an error only if a read fails or a block is refused; unless there is one, it is stuck if and only if the framing of the stream stops at a section header in the other byte order |
| PcapngPipe.PcapngSource.ReadStream | dumpcap.c:4142-4146 | Of a well-formed stream exactly the blocks are delivered at end of file, and the first of them if a read fails, which is the only other way for the loop to end |
| PcapngPipe.PcapngSource.ReadForeign | dumpcap.c:4142-4146 | On well-formed blocks followed by such a header end of file is never reported; unless a read fails, all blocks are delivered and the reader is stuck |
| Sections.BytesOfBlock | dumpcap.c:2475-2492 | A block without its interface id, and the id, determine its bytes |
| Sections.BlockWithId | dumpcap.c:2484-2487 | Overwriting the four bytes after the block header changes the interface id and nothing else |
| Sections.BlockKinds | dumpcap.c:2504-2521 | By the type it begins with, which blocks are section headers and descriptions, which have an interface id, at offset 8, and which count as packets |
| Sections.DecodeFilesAppended | dumpcap.c:4885-4896 | One more block at the end of the last file adds exactly its own attribution |
| Sections.DecodeFilesWithHeader | dumpcap.c:3412-3517 | A new file of section header and descriptions attributes nothing |
| Writer.GoNeverReturns | dumpcap.c:4379-4462 | No operation restarts a stopped capture, and nothing is written after the stop |
| Multiplexing.IdbBlocksDecode | dumpcap.c:3456-3513 | A file that starts with the saved descriptions has as many as there are entries and agrees with each live one |
| Multiplexing.SectionHeaderKeepsIds | dumpcap.c:2439-2457 | A new section of one source marks exactly the entries in its map as deleted, all of which are its own, leaves every other entry alone, and keeps the invariant with the source's section empty |
| Multiplexing.DescriptionKeepsIds | dumpcap.c:2459-2474 | A new description is mapped to a live entry of its source that no other id is mapped to |
| Multiplexing.CopyTracks | dumpcap.c:2475-2499 | A block that is copied resolves in the output section to what its id means in its source's section |
| Multiplexing.PacketResolves | dumpcap.c:4940-4948 | A packet of a source that is not pcapng resolves to that source's generated description |
| Multiplexing.SwitchKeepsInv | dumpcap.c:4072-4125 | A switch of files that works, fails, or fails half way keeps the invariant and attributes nothing |
| Multiplexing.WriteBlockKeepsInv | dumpcap.c:4853-4914 | Writing a block keeps the invariant and adds exactly what the block meant in its source |
| Multiplexing.StepKeepsInv | dumpcap.c:4815-4965 | Every operation keeps the invariant and adds to what the files say what its packet meant |
| Multiplexing.StartInv | dumpcap.c:3279-3298 | The invariant holds when the inputs and the first file are open |
| Multiplexing.AttributionPreserved | dumpcap.c:2414-2499 | In every run, over any interleaving, sections and file switches, the output section agrees with the saved descriptions, and decoding all files gives exactly what the packets written meant in their own sources |
| Multiplexing.NothingAttributedToDeleted | dumpcap.c:2439-2454 | No packet in any output file resolves to a deleted or dummy interface, or to none |
| Multiplexing.KnownIdsIff | dumpcap.c:2475-2495 | In every run the interface ids that a source can use are exactly those of the descriptions in its current section |
| Multiplexing.BlockFateInRun | dumpcap.c:4853-4914 | While a capture goes on, a block ends the process if and only if its id has not been described in its source; a section header is absorbed, and every other block is written if the disk takes it |
| Multiplexing.OutputIdsDistinct | dumpcap.c:2459-2474 | In every run no two interfaces of any sources have the same output id |
| Multiplexing.GeneratedIdsDistinct | dumpcap.c:3290-3296 | In every run no interface from a stream has the output id of a generated description |
| SourceAttribution.OwnersAreRight | dumpcap.c:2458-2474 | In every run there is one owner for each output interface id, and as long as an entry is live that is the source it was saved for |
| SourceAttribution.SourceSaysTheSame | dumpcap.c:2414-2499 | In every run, what the output files attribute to the interface ids of a pcapng source is exactly what a reader of the blocks taken from it, alone, would attribute |
| SimplePackets.FirstDescriptionKept | dumpcap.c:3456-3513 | In every run the first description of the current file is the one that was first when it was written: what was saved first when the file was begun, a dummy if that had been deleted, or else the first one copied |
| SimplePackets.SimplePacketRead | dumpcap.c:2475-2495 | In every run a simple packet block that is written, which is not renumbered, is attributed to that description |
| SimplePackets.SimplePacketsResolveIff | dumpcap.c:2475-2495 | It belongs to the first interface of its own section if and only if that description is the same |
| SimplePackets.FirstIsFirstSaved | dumpcap.c:3456-3513 | As long as the first saved description is live, the current file begins with it |
| SimplePackets.SimplePacketMisattributed | dumpcap.c:2475-2495 | After an interface from each of two sources, a simple packet of the second is attributed to the interface of the first |
| Closing.RunKeepsOneFile | dumpcap.c:3290-3296 | Without file switches the generated descriptions stay at the front of the section in every run, and only they are generated |
| Closing.StatisticsDecode | dumpcap.c:3617-3643 | The statistics at the end are attributed through the number of the source, for each source that is not a pipe, and change nothing before them |
| Closing.ClosedDecodes | dumpcap.c:3604-3657 | Closing a file adds the statistics to what it says if it is the only one and pcapng, and nothing otherwise |
| Closing.StatisticsResolveIff | dumpcap.c:3630-3632 | They are attributed to their source if and only if no source before it delivers pcapng |
| Closing.StatisticsMisattributed | dumpcap.c:3630-3632 | With a pcapng pipe before a device, the device's statistics are attributed to the pipe's interface |
| Passthrough.SavedStart | dumpcap.c:3427-3439 | A file switched to starts with the section header and descriptions of the section the stream is in |
| Passthrough.CollectSaves | dumpcap.c:2420-2438 | What is saved is the section the stream is in, after any block |
| Passthrough.DividedFilesDecode | dumpcap.c:3417-3517 | Files that divide a stream, each after the first repeating its section's start, say in order what the stream says |
| Passthrough.StreamIsDivided | dumpcap.c:4876-4895 | In every run what is written is the stream up to the stop, and the output files divide it in this way |
| Passthrough.PassthroughPreservesMeaning | dumpcap.c:3304-3314 | In every run decoding the files in order gives the packets and descriptions of the stream up to the stop |
| Passthrough.NeverAborted | dumpcap.c:2475-2495 | A stream that is passed through never ends the process, whatever interface ids are in it |
| Passthrough.BlockFateInRun | dumpcap.c:4853-4914 | While the capture goes on, every block of the stream is written if the disk takes it |
| Limits.KeptBetween | dumpcap.c:4842-4848 | Of two packets in a file the first leaves it below the size limit |
| Limits.NewFileKeepsInv | dumpcap.c:4088-4090 | A new file makes room for a packet again |
| Limits.SwitchKeepsInv | dumpcap.c:4076-4119 | A switch or its failure keeps all limits, the number of files among them |
| Limits.PutPacketKeepsLimits | dumpcap.c:4815-4848 | One more packet keeps all limits, and if none is reached there is room for another |
| Limits.LimitsHold | dumpcap.c:4815-4848 | In every run counters are those of the files, the packet, file and per-file limits hold, every packet but the last of a file leaves it below the size asked for, in units of 1000 bytes and at most 2 TB, and while the capture goes on none of the limits has been reached |
| Limits.SizeAtEachPacket | dumpcap.c:4842-4848 | If no source delivers pcapng: at each packet the file held only its headers, or was below the size asked for, in units of 1000 bytes and at most 2 TB |
| Limits.AlwaysPacketFiles | dumpcap.c:4926-4965 | If no source delivers pcapng, every file of every run is headers and then packets |
| Limits.SwitchOutcome | dumpcap.c:4076-4119 | A switch goes on in one new file with all its first blocks, or stops the capture |
| Limits.PacketOutcome | dumpcap.c:4815-4848 | What the files look like after one more packet decides whether the capture goes on, and whether in the same file or in a new one with its first blocks |
| Limits.PacketStopsIff | dumpcap.c:4917-4965 | In every run a packet stops the capture if and only if it cannot be written, the number of packets is reached, or its file is full and there is no other |
| Limits.BlockStopsIff | dumpcap.c:4853-4914 | The same for a pcapng block; blocks that are not packets stop it only if they cannot be written |
| Limits.UpdateStopsIff | dumpcap.c:4466-4488 | In every run an update tick stops the capture if and only if its time is over, or the file's is and there is no other; otherwise each time that is over leads to one new file |
| Reports.NextFileKeepsInv | dumpcap.c:4109-4114 | A new file is announced after the packets before it have been reported |
| Reports.FailedFileKeepsInv | dumpcap.c:4095-4102 | A file that cannot be begun is not announced, and pending packets stay with the one before |
| Reports.ReportsAttributed | dumpcap.c:4084-4125 | In every run of a reporting child, counts between two announcements add up to the packets in the first of the files |
| Reports.ReportedPlusPending | dumpcap.c:4816-4818 | In every run of a reporting child, passing a stream through or not, counts reported and pending add up to the packets captured, which are those in the files |
| Reports.EverythingReported | dumpcap.c:4652-4656 | At the end every file announced has been reported in full |
| Reports.AllReported | dumpcap.c:4652-4656 | At the end the counts reported are the packets in all files, in passthrough too |
| Reports.QuietReportsNothing | dumpcap.c:4460-4462 | A quiet child reports no packets |
| Reports.UpdateReports | dumpcap.c:4454-4464 | An update tick reports all packets captured and not yet reported in one count, before anything else, and leaves none pending |
| Announcements.AnnouncedAreHeaderFiles | dumpcap.c:6169-6172 | In every passthrough run the files announced are exactly those into which a section header of the stream has been written, in order and each once |
| Announcements.AnnouncedIff | dumpcap.c:4906-4911 | A file is announced if and only if a section header of the stream has been written into it |
| Announcements.AnnouncedAtHeadersOnly | dumpcap.c:6169-6172 | There are no more announcements than section headers in the stream |
| Announcements.SecondFileNotAnnounced | dumpcap.c:6169-6172 | A section header and one packet, with one packet to a file: the second file starts with the saved header and is not announced |
| CaptureWriter.LoopData.DeleteIdbs | dumpcap.c:2445-2453 | The loop deletes exactly the source's entries, each of which is the source's own |
| CaptureWriter.LoopData.AdjustBlock | dumpcap.c:2414-2499 | Saves what the block describes, and leaves in memory the block with its output interface id, or fails and changes nothing |
| CaptureWriter.LoopData.InitPcapngOutput | dumpcap.c:3412-3517 | Writes the file's first blocks in order up to the first that fails |
| CaptureWriter.LoopData.DoFileSwitchOrStop | dumpcap.c:4072-4125 | Changes the state as specified and returns whether the capture goes on in a new file |
| CaptureWriter.LoopData.CountOnePacket | dumpcap.c:4815-4848 | Changes the state as specified for a packet written |
| CaptureWriter.LoopData.WritePcapng | dumpcap.c:4853-4914 | Changes the state as specified for a block, and tells what became of it |
| CaptureWriter.LoopData.WriteOnePacket | dumpcap.c:4917-4965 | Changes the state as specified for a packet, under its source's saved id, and tells what became of it |
| CaptureWriter.LoopData.UpdateInTime | dumpcap.c:4454-4489 | Changes the state as specified when the update interval has passed |
| CaptureWriter.LoopData.WriteStatistics | dumpcap.c:3617-3643 | Appends the statistics of each source that is not a pipe to the file, and counts their bytes |
| CaptureWriter.LoopData.CloseOutput | dumpcap.c:3604-3657 | The file ends with the statistics, and nothing is left unreported |
| CaptureWriter.LoopData.OpenInput | dumpcap.c:3279-3298 | Each source that is not pcapng gets an entry, and remembers its place |
| CaptureWriter.LoopData.StartCapture | dumpcap.c:4246-4342 | The state in which all runs begin |
| Payload.StepAddsPayload | dumpcap.c:4084-4125 | Whatever files are switched to, an operation adds its own block or packet to what the files hold, once, at the end |
| Payload.OpenWhileGoing | dumpcap.c:4095-4102 | While a capture goes on its file is open |
| Payload.PacketFateInRun | dumpcap.c:4917-4965 | While a capture goes on, with any output, every packet is written if the disk takes it |
| Payload.FlushedOnceStopped | dumpcap.c:4921-4926 | Once it has stopped, every packet and block is flushed and changes nothing |
| Payload.FilesBegin | dumpcap.c:3412-3517 | In every run without passthrough each file that could be begun begins with a section header, in pcap output with a file header, and has no other |
| CaptureQueue.PopAccounted | dumpcap.c:4158-4168 | Popping keeps counters and limits |
| CaptureQueue.QueueAlwaysAccounted | dumpcap.c:5056-5066 | Under any interleaving the counters are the queue's, the packet limit holds, and the byte limit is exceeded by less than one element |
| CaptureQueue.LockRefusesIff | dumpcap.c:4999-5012 | Under any interleaving an element is refused if and only if the sizes of those in the queue reach the byte limit, or their number the packet limit, where there is one; otherwise it becomes the last of them |
| CaptureQueue.SizeIsBytes | dumpcap.c:5003-5004 | The size of the queue is the number of bytes of the packets and blocks in it |
| CaptureQueue.StepInOrder | dumpcap.c:4154-4191 | Every step keeps accepted = dealt with + in hand + queued |
| CaptureQueue.WrittenIsPrefixOfAccepted | dumpcap.c:4379-4507 | Under any interleaving what is written is a prefix of what was accepted |
| Conservation.DealtBalances | dumpcap.c:4926-4963 | What the writer deals with is written, dropped or flushed, and counted as that once |
| Conservation.AlwaysBalanced | dumpcap.c:4970-5020 | Under any interleaving, threaded or not, what a source offered is written, queued, dropped, flushed or in a thread's hands; with threads, received counts what it queued |
| Conservation.ReceivedAreWritten | dumpcap.c:4815-4822 | Without threads, received counts exactly the packets written of the source |
| Conservation.LossesAlwaysCounted | dumpcap.c:4926-4963 | Under any interleaving dropped counts exactly what the source's reader refused and what could not be written, at most one element and the last; nothing is flushed before the stop |
| Conservation.ConservedAtEnd | dumpcap.c:4490-4507 | After the drain, offered = written + dropped + flushed |
| Conservation.SourcesKeepOrder | dumpcap.c:4158-4168 | Under any interleaving each source's elements are accepted in the order it offered them |
| Conservation.WrittenInOrder | dumpcap.c:4158-4168 | Under any interleaving what is written of a source is in the order in which it offered it |
| Conservation.AlwaysARun | dumpcap.c:4379-4507 | The writer's state under any interleaving is that of a run, so all that is proved of runs holds |
| Conservation.FilesAlwaysCarry | dumpcap.c:4926-4965 | Under any interleaving the output files, concatenated, carry exactly what was written, in order |
| Conservation.InterleavingsPreserveAttribution | dumpcap.c:2414-2499 | Under any interleaving the files attribute every packet to the interface its source meant |
| Losses.HeadersAlwaysKept | dumpcap.c:5054-5066 | Under any interleaving, if a reader has dropped no section header and no interface description, what is accepted of its source is what it offered before the stop without some other blocks; without threads no reader drops anything |
| Losses.SourceInFiles | dumpcap.c:5028-5080 | Under any interleaving of sources into one pcapng output, what the files attribute to the interfaces of a pcapng source is what its blocks taken say; if its reader has dropped no header or description that is, in order, part of what all it offered says |
| Losses.LostDescriptionHarmlessIff | dumpcap.c:5054-5066 | When a description is lost and others follow in the section, every interface id still means what it means in the source if and only if all that follow are the same as the lost one |
| Losses.LostSectionHarmlessIff | dumpcap.c:5054-5066 | When a section header is lost, every id still means what it means in the source if and only if the section before described nothing |
| Losses.LostDescriptionMisattributes | dumpcap.c:5054-5066 | A run with one place in the queue: the first of two descriptions is lost, and a packet of the first interface is attributed to the second |
| EndToEnd.PcapStreamToFiles | dumpcap.c:2817-2837 | However a pcap stream is split into reads and its output into files, the files carry the stream's records in order, up to the stop |
| EndToEnd.PcapngStreamToFiles | dumpcap.c:3070-3085 | However a well-formed pcapng stream is split into reads and its output into files, reading the files says what reading the stream's blocks before the stop says |
| EndToEnd.ThreadedStreamToFiles | dumpcap.c:4970-5020 | Whatever other sources there are and however the threads interleave, the packets that the files have for a pcap source are, in order, records of its stream |
| EndToEnd.ThreadedPcapngStreamToFiles | dumpcap.c:5028-5080 | Whatever other sources there are and however the threads interleave, what the files attribute to the interfaces of a pcapng source is, in order, part of what decoding its own stream says, unless its reader dropped a header or a description |
| CaptureLoop.PcapRound | dumpcap.c:4388-4489 | One round of the loop consumes something of the stream or stops, and keeps the writer's state that of a run over what the reader delivered |
| CaptureLoop.CapturePcap | dumpcap.c:4379-4489 | The loop over a pcap pipe ends; the files carry the first records of what was read, and all of the stream if its end was reached; the loop itself stops the capture only there, when a read fails or when a record is refused |
| CaptureLoop.CapturePcapng | dumpcap.c:4379-4489 | The loop over a pcapng pipe with a well-formed stream ends; reading the files says what reading the stream's first blocks says, and the whole stream if its end was reached; the loop itself stops the capture only there or when a read fails |
| CaptureThreads.PacketQueue.TryPush | dumpcap.c:4999-5009 | Pushes if and only if the sizes and the number of the elements are below those limits that there are |
| CaptureThreads.PacketQueue.TryPop | dumpcap.c:4158-4168 | Pops the oldest element if there is one |
| CaptureThreads.CaptureSource.QueueElement | dumpcap.c:4970-5020 | Each packet offered is counted once, as received, dropped or flushed, and queued exactly if the capture goes on, memory suffices and both limits leave room |
| CaptureThreads.Dequeue | dumpcap.c:4154-4191 | The oldest element is written and its loss counted for its source only |
| CaptureThreads.Drain | dumpcap.c:4497-4506 | The loop ends with an empty queue and zero counters; nothing more is written, and each element left is counted as flushed for its source |
| ExtcapTokenizer.FindLeftmostShortest | extcap_parser.c:144-149 | The scanner finds what the pattern matches: the leftmost parameter, as short as possible |
| ExtcapTokenizer.CharacterKinds | extcap_parser.c:144-149 | Which characters are key characters, white space and line breaks, one by one |
| ExtcapTokenizer.LoweredLetters | extcap_parser.c:159-212 | Each capital is taken for the small letter at its place in the alphabet, and no other character changes |
| ExtcapTokenizer.LastPairWins | extcap_parser.c:159-212 | The table has, for each slot, the value of the last pair with that slot; ParamOf gives all unknown keys one slot |
| ExtcapTokenizer.TableGives | extcap_parser.c:159-212 | The table has in each slot what the line gives, in upper or lower case, for the key with the spelling of that slot: number, call, display, type and the twenty others |
| ExtcapTokenizer.ReadParams | extcap_parser.c:152-217 | The loop enters every parameter of the line in the table, in order |
| ExtcapTokenizer.TokenizeSentence | extcap_parser.c:110-222 | A line is taken apart as specified, or is no sentence |
| ExtcapTokenizer.TokenizeSentences | extcap_parser.c:224-241 | The sentences of a text are those of its lines, in order |
| ExtcapTokenizer.LinesJoined | extcap_parser.c:229-236 | The lines of a text have no line feeds, and joined by line feeds they are the text |
| ExtcapTokenizer.SentencesOfParts | extcap_parser.c:230-236 | The sentences of two texts one after the other are those of the first and then those of the second |
| ExtcapTokenizer.SentenceLineIff | extcap_parser.c:125-138 | A line is a sentence if and only if it has one of the six keywords, in any case, with only tabs, bars and blanks before it and at least one of these and a brace after it |
| ExtcapTokenizer.RoundTripIff | extcap_parser.c:141-149 | Printed parameters are read back if and only if no value has a closing brace followed by an opening one or white space, or a line break |
| ExtcapTokenizer.SentenceRoundTrip | extcap_parser.c:110-222 | A printed sentence with a known keyword and such values is read back as it was printed, with any separators before it in its name |
| ExtcapArgs.FindNumbered | extcap_parser.c:320-324 | The place found is that of the first argument with the number |
| ExtcapArgs.ArgumentsWellGrouped | extcap_parser.c:592-607 | Each argument's values are, in order, the well-formed ones with its number after it, if no earlier argument has the same number |
| ExtcapArgs.ValuesConserved | extcap_parser.c:612-656 | Together the arguments hold exactly the values that had an argument before them |
| ExtcapArgs.GiveValue | extcap_parser.c:597-604 | A value is appended to the first argument with its number and to no other |
| ExtcapArgs.ParseArgSentence | extcap_parser.c:412-610 | One sentence makes a new argument, adds a value in place, or does nothing, as specified |
| ExtcapArgs.ParseArgs | extcap_parser.c:612-633 | The list built in place is the grouping of the text's sentences |
| ExtcapArgs.ParseValues | extcap_parser.c:635-656 | The values of a text in order |
| ExtcapArgs.IntegerRead | extcap_parser.c:443-446 | White space, a sign or none, and digits are read as the number that they are |
| ExtcapArgs.NoIntegerRead | extcap_parser.c:443-446 | Without a digit after white space and a sign or none there is no number |
| ExtcapArgs.IsTrueIff | extcap.h:30 | A text is true if and only if y, t or a digit from 1 to 9 is in its first line |
| ExtcapArgs.LineSays | extcap_parser.c:412-610 | What a line contributes, by its keyword and by what it gives for the keys number, call, display, type and range, or arg, value, display, parent, default and enabled; nothing behind a separator |
| ExtcapArgs.PrintedArgLine | extcap_parser.c:435-551 | A printed argument line yields the argument with its number, call, display and type, unless one of them is missing, the number or type is none, the call is empty, or a range has no comma |
| ExtcapArgs.PrintedValueLine | extcap_parser.c:360-408 | A printed value line yields the value with its number, call and display, parent, default and enabled, unless one of the first three is missing or the number is none |
| ExtcapArgs.ArgLine | extcap_parser.c:435-551 | A line with just number, call, display and type yields an argument with these |
| ExtcapArgs.ArgOrValueLineIff | extcap_parser.c:125-133 | A line is an argument or a value sentence if and only if its keyword is arg or value and no separator comes before it |
| ExtcapArgs.LeadingSeparatorIgnored | extcap_parser.c:125-133 | A well-formed line of any keyword with a separator before it contributes nothing |
| ExtcapArgs.BlankLosesValue | extcap_parser.c:125-133 | A line such as value {arg=0}{value=1}{display=x} is a value, and with a blank before it nothing |
| Capinfos.CompareRightIff | wsutil/nstime.c:138-156 | The sign of the comparison is right both ways if and only if the seconds are equal or their difference modulo 2^32 is on the right side of 2^31 |
| Capinfos.ProcessCapFile | capinfos.c:1157-1267 | The loop computes the specified times and counts |
| Capinfos.TimesRight | capinfos.c:1160-1181 | If all packets are stamped and each compares rightly with those that precede it, earliest and latest are the true ones, and the verdict is "in order" exactly if the whole sequence is sorted |
| Capinfos.SortedFileRightIff | capinfos.c:1172-1174 | A stamped file of any length that is sorted is judged right if and only if no successive pair compares negative, one that is not if and only if some does |
| Capinfos.EarliestRightIff | capinfos.c:1176-1178 | The earliest time of a sorted stamped file is right if and only if no packet compares negative with the first; otherwise it is too late |
| Capinfos.LatestRightIff | capinfos.c:1179-1181 | The latest time of a sorted stamped file that spans less than 2^32 seconds is right if and only if no packet compares negative with the previous one; otherwise it is at least 2^31 seconds too early |
| Capinfos.SmallStepsRight | capinfos.c:1160-1181 | For a sorted stamped file of any span whose successive packets compare rightly, the latest time and the order are right, and the earliest if and only if no packet compares negative with the first |
| Capinfos.HaveTimesIff | capinfos.c:1182-1186 | Times are had if and only if every record has one |
| Capinfos.TimesFromFirstPacket | capinfos.c:1160-1186 | If the first packet is stamped, times and order are those of the records from it on, packets or not; stamped records before it count for nothing, and ones without a stamp for the order |
| Capinfos.VerdictOf | capinfos.c:1160-1186 | For any packets the verdict is "not in order" exactly if one of the comparisons made is negative, the first of them with time zero if the first packet has no stamp; otherwise "unknown" exactly if one lacks a stamp |
| Capinfos.VerdictRightIff | capinfos.c:160-174 | For any packets the verdict is the documented one if and only if some comparison is negative exactly when some stamped packet is before the previous stamped one |
| Capinfos.FirstUnstampedMisjudged | capinfos.c:1160-1174 | A packet without a stamp and one at 2^31 seconds: nothing descends, and the verdict is "not in order" |
| Capinfos.FarApartMisjudged | wsutil/nstime.c:151-155 | Two packets in order, 2^31 seconds apart, are called not in order; the second is taken as the earliest and the first as the latest |
| Capinfos.FarApartSimultaneous | wsutil/nstime.c:151-155 | Two packets 2^32 seconds apart are called in order, and the first is taken as the latest |
| Capinfos.OrderRight | capinfos.c:160-174 | The verdict is the documented one if each stamp compares rightly with the one before it and, when the first packet has no stamp, the first stamp is not negative and compares rightly with time zero |
| Capinfos.CountsAlwaysRight | capinfos.c:1229-1263 | For any growth of the interface list, counts and unknown add up to the packets; each count above 0 is that of the packets with this id that was known when they were read, count 0 also has those without an id that come after a list with an interface has been fetched, and unknown are those with an id not known and those without an id before that |
| Capinfos.CountsWithInterfaceFirst | capinfos.c:1255-1263 | If an interface is described before the first packet, count 0 has all packets without an id |
| Capinfos.KnownInterfaceMissed | capinfos.c:1255-1263 | A packet without an id, read when an interface is known that has not been fetched, is counted as unknown |

## Left out

- Sockets, `select`, libpcap, privileges, signals, temporary files and the Windows pipe thread: a read is a chunk, end of file or an error, and each read eventually returns.
- The host's byte order is little-endian in the model; a big-endian host would have the two orders exchanged.
- `ringbuffer.c` and the `writecap` writers: a file switch yields a new empty file or fails, a block is written whole or not at all, and takes a number of bytes that is a parameter.
- The loop of `capture_loop_start` runs as long as it is not told to stop, so captures in general are all sequences of its operations; it is a loop only for one pipe without threads. Runs include update ticks after the stop, of which the source has at most one.
- After a failed start of a file the source closes it; a later update tick in the same round would switch again. The model makes no switch then.
- UpdateStopsIff: a switch for the file's duration also starts the next file interval anew (dumpcap.c:4104-4107), so that a second switch in the same tick would need a further interval; the model lets the second one come freely, so its runs include the source's and more.
- TimesRight: the condition is sufficient only; exact ones are proved for sorted files (`EarliestRightIff`, `LatestRightIff`), while in others the running value decides.
- LatestRightIff: sorted files of 2^32 seconds and more are covered by `SmallStepsRight` and the input of `FarApartSimultaneous` only, since a time that was too early can become right again by chance.
- ThreadedPcapngStreamToFiles: exact conditions are given for one header or description lost (`LostDescriptionHarmlessIff`, `LostSectionHarmlessIff`), not for any pattern of losses.
- IsSpace: white space is that of ASCII, as in a regex library without Unicode properties; with them `\s` would also match U+0085, U+00A0, U+2000 and others.
- What a pcapng reader does with a block that does not fit its buffer: the model stops there and says so.
- 32-bit counters (packets, interface counts, queue sizes) do not wrap in the model.
- `received`, `dropped` and `flushed` are updated in one step each, and `go` is read in one step.
- Old packet blocks have an interface id that is not renumbered; the model copies them as other data, and attributes nothing to them.
- A block shorter than 12 bytes in the writer: the readers deliver such a block only for a section header whose length is wrong.
- `dlt_to_linktype` is a parameter; link types in descriptions are not rewritten in the source either.
- In passthrough the counts reported are not attributed to files, since most of these are not announced.
- Texts are sequences of characters: invalid UTF-8, which the tokenizer rejects, cannot be written. `sscanf` with a number that does not fit an `int` is not modelled.
- Attributes of an extcap argument that no decision depends on stay in its table of parameters; interface, DLT and control sentences are not grouped.
- Memory that is freed, and allocation failures other than that of a queue element.
- Hashes, comments, packet lengths, encapsulation counts and all printing in `capinfos.c`; differences of seconds that do not fit 64 bits.
- `fileset.c`, `file_packet_provider.c`, `cfile.c`, `captype.c`, `cli_main.c`, `dftest.c`: they would add only easy members.
