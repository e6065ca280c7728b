/** The capture loop without threads: one pipe is read, and what it delivers is written. */
module CaptureLoop {
  import opened Bytes
  import opened Framing
  import opened Pipes
  import PcapFormat
  import opened PcapPipe
  import opened PcapngFormat
  import opened PcapngPipe
  import opened Sections
  import opened Writer
  import opened CaptureWriter
  import opened Payload
  import opened Passthrough
  import opened EndToEnd

  /** The state of the writer is that of a run. */
  ghost predicate IsRun(ld: LoopData, ops: seq<Op>)
    reads ld
  {
    ld.Valid() && OpsFit(ld.cfg, ops) && ld.View() == Run(ld.cfg, ops)
  }

  lemma OpAfter(cfg: Config, ops: seq<Op>, op: Op)
    requires OpsFit(cfg, ops) && OpFits(cfg, op)
    ensures OpsFit(cfg, ops + [op]) && Run(cfg, ops + [op]) == Apply(cfg, Run(cfg, ops), op)
    ensures Incoming(ops + [op]) == if op.PacketOp? then Incoming(ops) + [op.packet] else Incoming(ops)
    ensures Offered(cfg, ops + [op]) == if op.BlockOp? then Offered(cfg, ops) + [op.block] else Offered(cfg, ops)
    ensures !op.BlockOp? ==> WrittenBlocks(cfg, ops + [op]) == WrittenBlocks(cfg, ops)
  {
    RunOneMore(cfg, ops, op);
    assert (ops + [op])[..|ops + [op]| - 1] == ops;
  }

  lemma OpAddsNothing(cfg: Config, ops: seq<Op>, op: Op)
    requires OpsFit(cfg, ops) && (op.UpdateOp? || op.StopOp?)
    ensures AllPayload(Apply(cfg, Run(cfg, ops), op).files) == AllPayload(Run(cfg, ops).files)
    ensures Apply(cfg, Run(cfg, ops), op).aborted == Run(cfg, ops).aborted
  {
    StepAddsPayload(cfg, Run(cfg, ops), op);
    assert AllPayload(Run(cfg, ops).files) + [] == AllPayload(Run(cfg, ops).files);
    SwitchesDoNotAbort(cfg, Run(cfg, ops), op);
  }

  /** The update interval may have passed. */
  method MaybeUpdate(ld: LoopData, ghost ops: seq<Op>) returns (ghost more: seq<Op>)
    requires IsRun(ld, ops) && !ld.aborted
    modifies ld
    ensures IsRun(ld, more) && !ld.aborted && Incoming(more) == Incoming(ops)
    ensures Offered(ld.cfg, more) == Offered(ld.cfg, ops) && WrittenBlocks(ld.cfg, more) == WrittenBlocks(ld.cfg, ops)
    ensures AllPayload(ld.files) == old(AllPayload(ld.files))
    ensures ld.go ==> old(ld.go)
    ensures ld.savedIdbs == old(ld.savedIdbs) && (StopOp in more ==> StopOp in ops)
  {
    more := ops;
    if * {
      var clock: Clock := *;
      var first: Disk, second: Disk := *, *;
      OpAfter(ld.cfg, ops, UpdateOp(clock, first, second));
      OpAddsNothing(ld.cfg, ops, UpdateOp(clock, first, second));
      GoNeverReturns(ld.cfg, ld.View(), UpdateOp(clock, first, second));
      ghost var w := ld.View();
      ld.UpdateInTime(clock, first, second);
      assert ld.View().ids == w.ids;
      more := ops + [UpdateOp(clock, first, second)];
    }
  }

  /** All sources have ended. */
  method StopLoop(ld: LoopData, ghost ops: seq<Op>) returns (ghost more: seq<Op>)
    requires IsRun(ld, ops) && !ld.aborted
    modifies ld
    ensures IsRun(ld, more) && !ld.aborted && !ld.go && Incoming(more) == Incoming(ops)
    ensures Offered(ld.cfg, more) == Offered(ld.cfg, ops) && WrittenBlocks(ld.cfg, more) == WrittenBlocks(ld.cfg, ops)
    ensures AllPayload(ld.files) == old(AllPayload(ld.files))
    ensures ld.savedIdbs == old(ld.savedIdbs)
  {
    OpAfter(ld.cfg, ops, StopOp);
    OpAddsNothing(ld.cfg, ops, StopOp);
    ld.Stop();
    more := ops + [StopOp];
  }

  // A pcap pipe

  /** The packet callback. */
  method WriteRecord(ld: LoopData, packet: Packet, ghost ops: seq<Op>) returns (ghost more: seq<Op>)
    requires IsRun(ld, ops) && !ld.aborted && OnePipe(ld.cfg)
    modifies ld
    ensures IsRun(ld, more) && !ld.aborted && Incoming(more) == Incoming(ops) + [packet]
    ensures StopOp in more ==> StopOp in ops
  {
    var disk: Disk := *;
    OpAfter(ld.cfg, ops, PacketOp(0, packet, disk));
    SwitchesDoNotAbort(ld.cfg, ld.View(), PacketOp(0, packet, disk));
    var _ := ld.WriteOnePacket(0, packet, disk);
    more := ops + [PacketOp(0, packet, disk)];
  }

  /** What the loop does once the dispatcher has returned, with a record or at the end of the pipe. */
  method PcapDispatched(ld: LoopData, packet: Option<Packet>, err: PipeErr, ghost ops: seq<Op>)
    returns (ended: bool, ghost more: seq<Op>)
    requires IsRun(ld, ops) && ld.go && !ld.aborted && OnePipe(ld.cfg)
    modifies ld
    ensures IsRun(ld, more) && !ld.aborted
    ensures Incoming(more) == Incoming(ops) + if packet.Some? then [packet.value] else []
    ensures ld.go ==> packet.Some? || err == PipOk
    ensures ended == (packet.None? && err == PipEof) && (StopOp in more ==> StopOp in ops || err != PipOk)
    ensures ended ==> !ld.go && Carried(AllPayload(ld.files)) == Incoming(ops)
  {
    more := ops;
    match packet {
      case Some(p) =>
        more := WriteRecord(ld, p, more);
      case None =>
        assert Incoming(ops) + [] == Incoming(ops);
        if err != PipOk {
          RunHolds(ld.cfg, ops);
          more := StopLoop(ld, more);
        }
    }
    ended := packet.None? && err == PipEof;
    more := MaybeUpdate(ld, more);
  }

  /** A read failed, or a record was refused. */
  ghost predicate StoppedBy(source: PcapSource)
    reads source, source.pipe
  {
    source.pipe.failed || PcapFormat.Records(source.format, source.consumed).stop.Some?
  }

  /** One round of the loop. */
  method PcapRound(source: PcapSource, ld: LoopData, ghost ops: seq<Op>) returns (ended: bool, ghost more: seq<Op>)
    requires source.Valid() && source.err == PipOk
    requires IsRun(ld, ops) && ld.go && !ld.aborted && Incoming(ops) == source.delivered && OnePipe(ld.cfg)
    modifies source, source.pipe, source.rechdr, source.databuf, ld
    ensures source.Valid() && (source.databuf == old(source.databuf) || fresh(source.databuf))
    ensures source.consumed + source.pipe.pending == old(source.consumed + source.pipe.pending)
    ensures IsRun(ld, more) && !ld.aborted && Incoming(more) == source.delivered
    ensures ld.go ==> source.err == PipOk && |source.pipe.pending| < |old(source.pipe.pending)|
    ensures |source.pipe.pending| <= |old(source.pipe.pending)|
    ensures ended ==> !ld.go && source.pipe.pending == [] && Carried(AllPayload(ld.files)) == source.delivered
    ensures StopOp in more ==> StopOp in ops || (!ld.go && (ended || StoppedBy(source)))
  {
    var packet := NextRecord(source);
    ended, more := PcapDispatched(ld, packet, source.err, ops);
  }

  /** One call of the dispatcher, and the record it delivers, if it does. */
  method NextRecord(source: PcapSource) returns (packet: Option<Packet>)
    requires source.Valid() && source.err == PipOk
    modifies source, source.pipe, source.rechdr, source.databuf
    ensures source.Valid() && (source.databuf == old(source.databuf) || fresh(source.databuf))
    ensures source.consumed + source.pipe.pending == old(source.consumed + source.pipe.pending)
    ensures |source.pipe.pending| <= |old(source.pipe.pending)|
    ensures source.err == PipOk ==> |source.pipe.pending| < |old(source.pipe.pending)|
    ensures source.err == PipEof ==> source.pipe.pending == []
    ensures source.err == PipErr ==> StoppedBy(source)
    ensures packet.Some? ==> source.err == PipOk
    ensures source.delivered == old(source.delivered) + if packet.Some? then [packet.value] else []
  {
    ghost var seen := source.consumed;
    var n := |source.delivered|;
    var r := source.Dispatch();
    assert source.consumed == seen + source.consumed[|seen|..];
    if r == 1 {
      packet := Some(source.delivered[n]);
    } else {
      packet := None;
    }
  }

  /** Capture from a pcap pipe until something stops the capture or the pipe ends. However the reads
      fall and wherever files are switched, the loop ends, and the files carry the first records of
      what was read; all records of the stream, if its end was reached while still capturing. The loop
      itself stops the capture only there, when a read fails, or when a record is refused. */
  method CapturePcap(source: PcapSource, ld: LoopData) returns (ended: bool, ghost ops: seq<Op>)
    requires source.Valid() && source.err == PipOk && source.delivered == [] && source.consumed == []
    requires ld.Valid() && ld.View() == Start(ld.cfg) && OnePipe(ld.cfg)
    modifies source, source.pipe, source.rechdr, source.databuf, ld
    ensures IsRun(ld, ops) && !ld.go
    ensures Carried(AllPayload(ld.files)) <= PcapFormat.Records(source.format, source.consumed).items
    ensures source.consumed + source.pipe.pending == old(source.pipe.pending)
    ensures ended ==> Carried(AllPayload(ld.files)) == PcapFormat.Records(source.format, old(source.pipe.pending)).items
    ensures StopOp in ops ==> ended || StoppedBy(source)
  {
    ops, ended := [], false;
    while ld.go
      invariant source.Valid() && (source.databuf == old(source.databuf) || fresh(source.databuf))
      invariant source.consumed + source.pipe.pending == old(source.pipe.pending)
      invariant IsRun(ld, ops) && !ld.aborted && Incoming(ops) == source.delivered
      invariant ld.go ==> source.err == PipOk
      invariant ended ==> !ld.go && source.pipe.pending == [] && Carried(AllPayload(ld.files)) == source.delivered
      invariant StopOp in ops ==> !ld.go && (ended || StoppedBy(source))
      decreases |source.pipe.pending|, ld.go
    {
      ended, ops := PcapRound(source, ld, ops);
    }
    RunHolds(ld.cfg, ops);
    assert source.pipe.pending == [] ==> source.consumed == source.consumed + source.pipe.pending;
  }

  // A pcapng pipe

  lemma CollectsOne(cfg: Config, ids: Ids, block: Block)
    requires |ids.maps| == 1
    ensures |Collect(cfg, ids, 0, block).savedIdbs| <= |ids.savedIdbs| + 1
  {
  }

  lemma PassedNotAborted(cfg: Config, w: State, block: Block, disk: Disk)
    requires PassesThrough(cfg) && w.Shaped(cfg) && !w.aborted
    ensures !WriteBlock(cfg, w, 0, block, disk).aborted
    ensures WriteBlock(cfg, w, 0, block, disk).ids == w.ids || WriteBlock(cfg, w, 0, block, disk).ids == Collect(cfg, w.ids, 0, block)
  {
    if BlockFate(cfg, w, 0, block, disk) == Written {
      var w1 := Put(cfg, w.(ids := Collect(cfg, w.ids, 0, block)), Copied(block));
      SwitchNeverRestarts(cfg, w1.(n := CountPacket(w1.n)), disk);
    }
  }

  /** The block callback. */
  method WriteDelivered(ld: LoopData, raw: seq<byte>, ghost ops: seq<Op>) returns (ghost more: seq<Op>)
    requires IsRun(ld, ops) && !ld.aborted && PassesThrough(ld.cfg)
    requires |raw| >= MIN_BLOCK_SIZE && |ld.savedIdbs| + 1 < TWO_TO_THE_32
    modifies ld
    ensures IsRun(ld, more) && !ld.aborted && Offered(ld.cfg, more) == Offered(ld.cfg, ops) + [BlockOf(raw)]
    ensures |ld.savedIdbs| <= |old(ld.savedIdbs)| + 1 && (StopOp in more ==> StopOp in ops)
  {
    var disk: Disk := *;
    var pd := new byte[|raw|](i requires 0 <= i < |raw| => raw[i]);
    assert pd[..] == raw;
    OpAfter(ld.cfg, ops, BlockOp(0, BlockOf(raw), disk));
    PassedNotAborted(ld.cfg, ld.View(), BlockOf(raw), disk);
    CollectsOne(ld.cfg, ld.SavedIds(), BlockOf(raw));
    ghost var w := ld.View();
    var _ := ld.WritePcapng(0, pd, disk);
    assert ld.View().ids.savedIdbs == ld.savedIdbs;
    more := ops + [BlockOp(0, BlockOf(raw), disk)];
  }

  /** What the loop needs to know of the stream. */
  ghost predicate Streams(source: PcapngSource, sizes: seq<nat>, blocks: seq<seq<byte>>)
    reads source, source.pipe
  {
    && Sizes(sizes, blocks) && sizes[0] == PcapngPipe.INITIAL_BUFFER_SIZE
    && source.consumed + source.pipe.pending == Concat(blocks)
  }

  /** On a well-formed stream the reader is never stuck, and delivers its first blocks. */
  lemma OnStream(source: PcapngSource, sizes: seq<nat>, blocks: seq<seq<byte>>)
    requires source.Valid() && Streams(source, sizes, blocks)
    ensures !source.Stuck() && source.delivered <= blocks
    ensures source.err == PipEof ==> source.pipe.pending != [] || source.delivered == blocks
    ensures source.Reference().stop.None?
  {
    PartOfStream(sizes, blocks, source.consumed, source.pipe.pending);
  }

  lemma ParsedOne(blocks: seq<seq<byte>>, n: nat)
    requires n < |blocks|
    ensures Parsed(blocks[..n + 1])
         == Parsed(blocks[..n]) + [Parse(blocks[n])]
  {
  }

  /** What the loop does once the dispatcher has returned, with a block or at the end of the pipe. */
  method PcapngDispatched(ld: LoopData, raw: Option<seq<byte>>, err: PipeErr, ghost ops: seq<Op>)
    returns (ended: bool, ghost more: seq<Op>)
    requires IsRun(ld, ops) && ld.go && !ld.aborted && PassesThrough(ld.cfg) && (raw.Some? ==> err == PipOk)
    requires (raw.Some? ==> |raw.value| >= MIN_BLOCK_SIZE) && |ld.savedIdbs| + 1 < TWO_TO_THE_32
    modifies ld
    ensures IsRun(ld, more) && !ld.aborted
    ensures Offered(ld.cfg, more) == Offered(ld.cfg, ops) + if raw.Some? then [BlockOf(raw.value)] else []
    ensures |ld.savedIdbs| <= |old(ld.savedIdbs)| + if raw.Some? then 1 else 0
    ensures ld.go ==> err == PipOk
    ensures ended == (err == PipEof) && (StopOp in more ==> StopOp in ops || err != PipOk)
    ensures ended ==> !ld.go && WrittenBlocks(ld.cfg, more) == Offered(ld.cfg, ops)
  {
    more := ops;
    match raw {
      case Some(b) =>
        more := WriteDelivered(ld, b, more);
      case None =>
        assert Offered(ld.cfg, ops) + [] == Offered(ld.cfg, ops);
        if err != PipOk {
          StreamIsDivided(ld.cfg, more);
          more := StopLoop(ld, more);
        }
    }
    ended := err == PipEof;
    more := MaybeUpdate(ld, more);
  }

  /** One round of the loop. */
  method PcapngRound(source: PcapngSource, ld: LoopData, ghost ops: seq<Op>,
                     ghost sizes: seq<nat>, ghost blocks: seq<seq<byte>>) returns (ended: bool, ghost more: seq<Op>)
    requires source.Valid() && source.err == PipOk && Streams(source, sizes, blocks)
    requires IsRun(ld, ops) && ld.go && !ld.aborted && PassesThrough(ld.cfg)
    requires Offered(ld.cfg, ops) == Parsed(source.delivered)
    requires |ld.savedIdbs| <= |source.delivered| && |blocks| + 1 < TWO_TO_THE_32
    modifies source, source.pipe, source.databuf, ld
    ensures source.Valid() && (source.databuf == old(source.databuf) || fresh(source.databuf))
    ensures Streams(source, sizes, blocks) && |ld.savedIdbs| <= |source.delivered|
    ensures IsRun(ld, more) && !ld.aborted && Offered(ld.cfg, more) == Parsed(source.delivered)
    ensures ld.go ==> source.err == PipOk
    ensures |source.pipe.pending| <= |old(source.pipe.pending)|
    ensures ld.go && |source.pipe.pending| == |old(source.pipe.pending)| ==> old(source.state) == ExpectData && source.state == ExpectRecHdr
    ensures ended ==> !ld.go && WrittenBlocks(ld.cfg, more) == Parsed(blocks)
    ensures StopOp in more ==> StopOp in ops || (!ld.go && (ended || source.pipe.failed))
  {
    OnStream(source, sizes, blocks);
    var raw := Next(source, sizes, blocks);
    ended, more := PcapngDispatched(ld, raw, source.err, ops);
  }

  /** One call of the dispatcher, and the block it delivers, if it does. */
  method Next(source: PcapngSource, ghost sizes: seq<nat>, ghost blocks: seq<seq<byte>>) returns (raw: Option<seq<byte>>)
    requires source.Valid() && source.err == PipOk && Streams(source, sizes, blocks)
    modifies source, source.pipe, source.databuf
    ensures source.Valid() && (source.databuf == old(source.databuf) || fresh(source.databuf))
    ensures Streams(source, sizes, blocks) && source.delivered <= blocks
    ensures raw.Some? ==> source.err == PipOk && |raw.value| >= MIN_BLOCK_SIZE && |source.delivered| == |old(source.delivered)| + 1
    ensures Parsed(source.delivered) == Parsed(old(source.delivered)) + if raw.Some? then [BlockOf(raw.value)] else []
    ensures |old(source.delivered)| <= |source.delivered|
    ensures |source.pipe.pending| <= |old(source.pipe.pending)|
    ensures source.err == PipOk && |source.pipe.pending| == |old(source.pipe.pending)|
            ==> old(source.state) == ExpectData && source.state == ExpectRecHdr
    ensures source.err == PipEof ==> source.delivered == blocks && raw.None? && old(source.delivered) == blocks
    ensures source.err == PipErr ==> source.pipe.failed
  {
    OnStream(source, sizes, blocks);
    ghost var before := source.delivered;
    var n := |source.delivered|;
    var _ := source.DispatchOnce();
    OnStream(source, sizes, blocks);
    if |source.delivered| > n {
      raw := Some(source.delivered[n]);
      assert source.delivered == blocks[..n + 1] && before == blocks[..n];
      ParsedOne(blocks, n);
      assert WellFormed(sizes[n], blocks[n]);
    } else {
      raw := None;
      assert source.delivered == before && Parsed(before) + [] == Parsed(before);
    }
  }

  lemma ParsedPrefix(delivered: seq<seq<byte>>, blocks: seq<seq<byte>>)
    requires delivered <= blocks
    ensures Parsed(delivered) <= Parsed(blocks)
    ensures blocks != [] && |blocks[0]| >= MIN_BLOCK_SIZE && BlockOf(blocks[0]).Shb? ==> BeginsWithHeader(Parsed(delivered))
  {
  }

  /** Capture from a pcapng pipe that delivers a well-formed stream, and pass it through. However the
      reads fall and wherever files are switched, the loop ends, and reading the files says what
      reading the stream's first blocks says; the whole stream, if its end was reached while still
      capturing. The loop itself stops the capture only there, or when a read fails. */
  method CapturePcapng(source: PcapngSource, ld: LoopData, ghost sizes: seq<nat>, ghost blocks: seq<seq<byte>>)
    returns (ended: bool, ghost ops: seq<Op>)
    requires source.Valid() && source.err == PipOk && source.delivered == [] && Streams(source, sizes, blocks)
    requires blocks != [] && BlockType(blocks[0]) == BLOCK_TYPE_SHB && |blocks| + 1 < TWO_TO_THE_32
    requires ld.Valid() && ld.View() == Start(ld.cfg) && PassesThrough(ld.cfg)
    modifies source, source.pipe, source.databuf, ld
    ensures IsRun(ld, ops) && !ld.go
    ensures WrittenBlocks(ld.cfg, ops) <= Parsed(blocks)
    ensures DecodeFiles(ld.files) == DecodeFile(Copies(WrittenBlocks(ld.cfg, ops))).items
    ensures ended ==> WrittenBlocks(ld.cfg, ops) == Parsed(blocks)
    ensures StopOp in ops ==> ended || source.pipe.failed
  {
    ops, ended := [], false;
    assert InitialIdbs(ld.cfg, 1) == [];
    assert ld.View().ids.savedIdbs == ld.savedIdbs == [];
    assert Parsed([]) == [];
    while ld.go
      invariant source.Valid() && (source.databuf == old(source.databuf) || fresh(source.databuf))
      invariant Streams(source, sizes, blocks) && |ld.savedIdbs| <= |source.delivered|
      invariant IsRun(ld, ops) && !ld.aborted && Offered(ld.cfg, ops) == Parsed(source.delivered)
      invariant ld.go ==> source.err == PipOk
      invariant ended ==> !ld.go && WrittenBlocks(ld.cfg, ops) == Parsed(blocks)
      invariant StopOp in ops ==> !ld.go && (ended || source.pipe.failed)
      decreases |source.pipe.pending|, ld.go, source.state == ExpectData
    {
      ended, ops := PcapngRound(source, ld, ops, sizes, blocks);
    }
    OnStream(source, sizes, blocks);
    assert WellFormed(sizes[0], blocks[0]);
    ParsedPrefix(source.delivered, blocks);
    StreamIsDivided(ld.cfg, ops);
    PassthroughPreservesMeaning(ld.cfg, ops);
  }
}
