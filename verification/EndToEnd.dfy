/** From the bytes on a pipe to the output files. */
module EndToEnd {
  import opened Bytes
  import opened Framing
  import PcapFormat
  import opened PcapngFormat
  import opened Sections
  import opened Writer
  import opened Payload
  import opened Passthrough
  import opened CaptureQueue
  import opened Conservation
  import opened SourceAttribution
  import opened Losses

  // A pcap pipe

  /** The packets that come, in order. */
  function Incoming(ops: seq<Op>): seq<Packet> {
    if ops == [] then []
    else if ops[|ops| - 1].PacketOp? then Incoming(ops[..|ops| - 1]) + [ops[|ops| - 1].packet]
    else Incoming(ops[..|ops| - 1])
  }

  /** The packets that some output carries. */
  function Carried(f: File): seq<Packet> {
    if f == [] then []
    else if f[|f| - 1].PacketRecord? || f[|f| - 1].PacketBlock? then Carried(f[..|f| - 1]) + [f[|f| - 1].packet]
    else Carried(f[..|f| - 1])
  }

  lemma CarriedOne(f: File, o: Out)
    ensures Carried(f + [o]) == if o.PacketRecord? || o.PacketBlock? then Carried(f) + [o.packet] else Carried(f)
  {
    assert (f + [o])[..|f + [o]| - 1] == f;
  }

  predicate OnePipe(cfg: Config) {
    cfg.pcapng == [false]
  }

  /** The files hold the packets that came before the capture stopped. */
  ghost predicate Holds(w: State, incoming: seq<Packet>) {
    && w.files != [] && !w.aborted && (w.go ==> w.open)
    && Carried(AllPayload(w.files)) <= incoming
    && (w.go ==> Carried(AllPayload(w.files)) == incoming)
  }

  lemma PacketHolds(cfg: Config, w: State, packet: Packet, disk: Disk, incoming: seq<Packet>)
    requires OnePipe(cfg) && w.Shaped(cfg) && Holds(w, incoming)
    ensures Holds(Apply(cfg, w, PacketOp(0, packet, disk)), incoming + [packet])
  {
    var op := PacketOp(0, packet, disk);
    StepAddsPayload(cfg, w, op);
    OpenWhileGoing(cfg, w, op);
    GoNeverReturns(cfg, w, op);
    if FateOf(cfg, w, op) == Written {
      CarriedOne(AllPayload(w.files), PacketOut(cfg, 0, packet));
    } else {
      assert Added(cfg, w, op) == [] && AllPayload(w.files) + [] == AllPayload(w.files);
      assert !Apply(cfg, w, op).go;
    }
  }

  lemma OtherHolds(cfg: Config, w: State, op: Op, incoming: seq<Packet>)
    requires w.Shaped(cfg) && OpFits(cfg, op) && Holds(w, incoming) && (op.UpdateOp? || op.StopOp?)
    ensures Holds(Apply(cfg, w, op), incoming)
  {
    StepAddsPayload(cfg, w, op);
    assert AllPayload(w.files) + [] == AllPayload(w.files);
    OpenWhileGoing(cfg, w, op);
    GoNeverReturns(cfg, w, op);
    SwitchesDoNotAbort(cfg, w, op);
  }

  lemma SwitchesDoNotAbort(cfg: Config, w: State, op: Op)
    requires w.Shaped(cfg) && OpFits(cfg, op) && !op.BlockOp?
    ensures Apply(cfg, w, op).aborted == w.aborted
  {
    if op.UpdateOp? {
      var w1 := ReportCount(cfg, w);
      SwitchNeverRestarts(cfg, w1, op.first);
      SwitchNeverRestarts(cfg, if op.clock.fileDuration then SwitchOrStop(cfg, w1, op.first) else w1, op.second);
    } else if op.PacketOp? && PacketFate(cfg, w, op.disk) == Written {
      var w1 := Put(cfg, w, PacketOut(cfg, op.src, op.packet));
      SwitchNeverRestarts(cfg, w1.(n := CountPacket(w1.n)), op.disk);
    }
  }

  lemma {:induction false} RunHolds(cfg: Config, ops: seq<Op>)
    requires OnePipe(cfg) && OpsFit(cfg, ops)
    ensures Holds(Run(cfg, ops), Incoming(ops))
  {
    if ops == [] {
      StartPayload(cfg);
    } else {
      var before, op := ops[..|ops| - 1], ops[|ops| - 1];
      RunHolds(cfg, before);
      if op.PacketOp? {
        SwitchesDoNotAbort(cfg, Run(cfg, before), op);
        PacketHolds(cfg, Run(cfg, before), op.packet, op.disk, Incoming(before));
      } else {
        OtherHolds(cfg, Run(cfg, before), op, Incoming(before));
      }
    }
  }

  /** However a pcap stream is split into reads, whatever ticks and file switches come in between, the
      output files carry the stream's records in order, up to where the capture stopped. */
  lemma PcapStreamToFiles(cfg: Config, f: PcapFormat.Format, chunks: seq<seq<byte>>, ops: seq<Op>)
    requires OnePipe(cfg) && OpsFit(cfg, ops)
    requires Incoming(ops) == FrameChunks(PcapFormat.RecordRule(f), (), chunks).items
    ensures Carried(AllPayload(Run(cfg, ops).files)) <= PcapFormat.Records(f, Flatten(chunks)).items
    ensures Run(cfg, ops).go ==> Carried(AllPayload(Run(cfg, ops).files)) == PcapFormat.Records(f, Flatten(chunks)).items
  {
    PcapFormat.RecordsIgnoreChunking(f, chunks);
    RunHolds(cfg, ops);
  }

  // A pcapng pipe

  /** However a well-formed pcapng stream is split into reads, and wherever files are switched, reading
      the output files says what reading the stream's first blocks says: those before the stop. */
  lemma PcapngStreamToFiles(cfg: Config, sizes: seq<nat>, blocks: seq<seq<byte>>, chunks: seq<seq<byte>>, ops: seq<Op>)
    requires PassesThrough(cfg) && OpsFit(cfg, ops)
    requires Sizes(sizes, blocks) && blocks != [] && BlockType(blocks[0]) == BLOCK_TYPE_SHB
    requires Flatten(chunks) == Concat(blocks)
    requires Offered(cfg, ops) == Parsed(FrameChunks(BlockRule(), sizes[0], chunks).items)
    ensures WrittenBlocks(cfg, ops) <= Parsed(blocks)
    ensures Run(cfg, ops).go && !Run(cfg, ops).aborted ==> WrittenBlocks(cfg, ops) == Parsed(blocks)
    ensures DecodeFiles(Run(cfg, ops).files) == DecodeFile(Copies(WrittenBlocks(cfg, ops))).items
  {
    BlocksIgnoreChunking(sizes[0], chunks);
    assert Concat(blocks) + [] == Concat(blocks);
    PartOfStream(sizes, blocks, Concat(blocks), []);
    StreamIsDivided(cfg, ops);
    PassthroughPreservesMeaning(cfg, ops);
  }

  // One of several sources, with threads

  /** The elements that a source's packet callback is given for some records. */
  function Queued(src: nat, rs: seq<Packet>): (es: seq<Element>)
    ensures |es| == |rs| && forall i | 0 <= i < |rs| :: es[i] == QueuedPacket(src, rs[i])
  {
    seq(|rs|, i requires 0 <= i < |rs| => QueuedPacket(src, rs[i]))
  }

  function PacketsIn(es: seq<Element>): seq<Packet> {
    if es == [] then []
    else if es[|es| - 1].QueuedPacket? then PacketsIn(es[..|es| - 1]) + [es[|es| - 1].packet]
    else PacketsIn(es[..|es| - 1])
  }

  /** The packets that the output has for a source: those with its interface id, or all in a file
      without interface ids. */
  function PacketsFor(f: File, id: nat): seq<Packet> {
    if f == [] then []
    else
      var o := f[|f| - 1];
      if o.PacketRecord? || (o.PacketBlock? && o.id == id) then PacketsFor(f[..|f| - 1], id) + [o.packet]
      else PacketsFor(f[..|f| - 1], id)
  }

  lemma {:induction false} IdbIdLess(cfg: Config, s: nat, t: nat)
    requires s < t <= |cfg.pcapng| && !cfg.pcapng[s]
    ensures IdbId(cfg, s) < IdbId(cfg, t)
  {
    if s == t - 1 {
    } else {
      IdbIdLess(cfg, s, t - 1);
    }
  }

  lemma IdbIdDistinct(cfg: Config, s: nat, t: nat)
    requires s < |cfg.pcapng| && t < |cfg.pcapng| && !cfg.pcapng[s] && !cfg.pcapng[t] && s != t
    ensures IdbId(cfg, s) != IdbId(cfg, t)
  {
    if s < t {
      IdbIdLess(cfg, s, t);
    } else {
      IdbIdLess(cfg, t, s);
    }
  }

  /** Whether an output block has a packet of a source is whether its element is of that source. */
  lemma CarriedFor(cfg: Config, o: Out, e: Element, src: nat)
    requires cfg.Valid() && Carries(cfg, o, e) && e.Fits(cfg) && src < |cfg.pcapng| && !cfg.pcapng[src]
    ensures (o.PacketRecord? || (o.PacketBlock? && o.id == IdbId(cfg, src))) <==> e.src == src
    ensures e.src == src ==> e.QueuedPacket? && o.packet == e.packet
  {
    if e.QueuedPacket? && e.src != src {
      IdbIdDistinct(cfg, e.src, src);
    }
  }

  lemma {:induction false} CarriedPackets(cfg: Config, f: File, es: seq<Element>, src: nat)
    requires cfg.Valid() && Carry(cfg, f, es) && src < |cfg.pcapng| && !cfg.pcapng[src]
    requires forall i | 0 <= i < |es| :: es[i].Fits(cfg)
    ensures PacketsFor(f, IdbId(cfg, src)) == PacketsIn(PartOf(es, src))
  {
    if es == [] {
    } else {
      var n := |es| - 1;
      CarriedPackets(cfg, f[..n], es[..n], src);
      assert Carries(cfg, f[n], es[n]);
      CarriedFor(cfg, f[n], es[n], src);
      if es[n].src == src {
        assert (PartOf(es[..n], src) + [es[n]])[..|PartOf(es[..n], src)|] == PartOf(es[..n], src);
      }
    }
  }

  /** A source that is not pcapng has contents only. */
  lemma {:induction false} PartOfContents(cfg: Config, es: seq<Element>, src: nat)
    requires src < |cfg.pcapng| && !cfg.pcapng[src] && forall i | 0 <= i < |es| :: es[i].Fits(cfg)
    ensures PartOf(Contents(es), src) == PartOf(es, src)
    ensures forall i | 0 <= i < |Contents(es)| :: Contents(es)[i].Fits(cfg)
  {
    if es == [] {
    } else {
      var n := |es| - 1;
      PartOfContents(cfg, es[..n], src);
      assert es == es[..n] + [es[n]];
      ContentsOne(es[..n], es[n]);
      PartOfOne(es[..n], es[n], src);
      PartOfOne(Contents(es[..n]), es[n], src);
    }
  }

  lemma {:induction false} QueuedInOrder(es: seq<Element>, src: nat, rs: seq<Packet>)
    requires Subsequence(es, Queued(src, rs))
    ensures Subsequence(PacketsIn(es), rs)
    decreases |rs|
  {
    if rs == [] {
    } else {
      var n := |rs| - 1;
      assert Queued(src, rs)[..n] == Queued(src, rs[..n]);
      if Subsequence(es, Queued(src, rs[..n])) {
        QueuedInOrder(es, src, rs[..n]);
      } else {
        QueuedInOrder(es[..|es| - 1], src, rs[..n]);
        assert (PacketsIn(es[..|es| - 1]) + [rs[n]])[..|PacketsIn(es[..|es| - 1])|] == PacketsIn(es[..|es| - 1]);
      }
    }
  }

  /** Whatever other sources there are, however the threads interleave and wherever files are switched:
      the packets that the files have for a pcap source are, in order, records of its stream. */
  lemma ThreadedStreamToFiles(setup: Setup, events: seq<Event>, src: nat, f: PcapFormat.Format, chunks: seq<seq<byte>>)
    requires setup.cfg.Valid() && src < |setup.cfg.pcapng| && !setup.cfg.pcapng[src]
    requires After(setup, events).sources[src].offered == Queued(src, FrameChunks(PcapFormat.RecordRule(f), (), chunks).items)
    ensures Subsequence(PacketsFor(AllPayload(After(setup, events).w.files), IdbId(setup.cfg, src)),
                        PcapFormat.Records(f, Flatten(chunks)).items)
  {
    var s := After(setup, events);
    PcapFormat.RecordsIgnoreChunking(f, chunks);
    WrittenInOrder(setup, events, src);
    QueuedInOrder(PartOf(s.h.taken, src), src, PcapFormat.Records(f, Flatten(chunks)).items);
    FilesAlwaysCarry(setup, events);
    PartOfContents(setup.cfg, s.h.taken, src);
    CarriedPackets(setup.cfg, AllPayload(s.w.files), Contents(s.h.taken), src);
  }

  /** The same for a pcapng source of several into one pcapng output: what the files attribute to its
      interfaces is what the blocks taken from it say, and as long as its reader has dropped no section
      header and no interface description, that is, in order, part of what its own stream says. */
  lemma ThreadedPcapngStreamToFiles(setup: Setup, events: seq<Event>, src: nat, initial: nat, chunks: seq<seq<byte>>)
    requires setup.cfg.Multiplexing() && src < |setup.cfg.pcapng| && setup.cfg.pcapng[src]
    requires After(setup, events).sources[src].offered == QueuedBlocks(src, FrameChunks(BlockRule(), initial, chunks).items)
    ensures var s := After(setup, events);
            && OpsFit(setup.cfg, s.h.ops)
            && AttributedTo(setup.cfg, s.h.ops, src) == Says(BlocksIn(PartOf(s.h.taken, src)))
            && (HeadersKept(s, src) || !setup.threads ==>
                  Subsequence(AttributedTo(setup.cfg, s.h.ops, src), Says(Parsed(Blocks(initial, Flatten(chunks)).items))))
  {
    BlocksIgnoreChunking(initial, chunks);
    SourceInFiles(setup, events, src);
    BlocksInQueued(src, Blocks(initial, Flatten(chunks)).items);
  }
}
