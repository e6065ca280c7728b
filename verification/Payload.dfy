/** What an operation puts in the output files stays there, once and in order. */
module Payload {
  import opened Bytes
  import opened Framing
  import opened Sections
  import opened Writer

  /** The packets and other blocks of a file, without section headers, interface descriptions and
      file headers. */
  function Payload(f: File): File {
    if f == [] then [] else Payload(f[..|f| - 1]) + if f[|f| - 1].IsHeader() then [] else [f[|f| - 1]]
  }

  /** The payload of the output files one after the other. */
  function AllPayload(fs: seq<File>): File {
    if fs == [] then [] else AllPayload(fs[..|fs| - 1]) + Payload(fs[|fs| - 1])
  }

  lemma PayloadAppended(fs: seq<File>, o: Out)
    requires fs != []
    ensures AllPayload(Append(fs, o)) == AllPayload(fs) + if o.IsHeader() then [] else [o]
  {
    var n, g := |fs| - 1, Append(fs, o);
    assert g[..n] == fs[..n] && g[n] == fs[n] + [o];
    assert (fs[n] + [o])[..|fs[n] + [o]| - 1] == fs[n];
    Associate(AllPayload(fs[..n]), Payload(fs[n]), if o.IsHeader() then [] else [o]);
  }

  lemma {:induction false} HeadersHoldNoPayload(f: File)
    requires forall i | 0 <= i < |f| :: f[i].IsHeader()
    ensures Payload(f) == []
  {
    if f == [] {
    } else {
      HeadersHoldNoPayload(f[..|f| - 1]);
    }
  }

  lemma NewFilePayload(cfg: Config, w: State, disk: Disk)
    ensures AllPayload(StartFile(cfg, w, disk).files) == AllPayload(w.files)
  {
    var f := FirstBlocks(cfg, w.ids, disk);
    FirstBlocksAreHeaders(cfg, w.ids, disk);
    HeadersHoldNoPayload(f);
    assert (w.files + [f])[..|w.files + [f]| - 1] == w.files;
  }

  lemma FirstFilePayload(cfg: Config, w: State, disk: Disk)
    requires w.files == []
    ensures AllPayload(ReportFile(cfg, StartFile(cfg, w, disk)).files) == []
  {
    NewFilePayload(cfg, w, disk);
  }

  /** The first file holds none when a capture starts. */
  lemma StartPayload(cfg: Config)
    ensures AllPayload(Start(cfg).files) == []
  {
    FirstFilePayload(cfg, Opened(cfg), Disk(true, true, |HeaderBlocks(cfg, Opened(cfg).ids)|));
  }

  lemma SwitchPayload(cfg: Config, w: State, disk: Disk)
    requires w.files != []
    ensures AllPayload(SwitchOrStop(cfg, w, disk).files) == AllPayload(w.files)
  {
    NewFilePayload(cfg, CountFile(cfg, w), disk);
  }

  lemma CountPayload(cfg: Config, w: State, disk: Disk)
    requires w.files != []
    ensures AllPayload(WroteOnePacket(cfg, w, disk).files) == AllPayload(w.files)
  {
    SwitchPayload(cfg, w.(n := CountPacket(w.n)), disk);
  }

  /** What an operation adds: its block, adjusted, or its packet. */
  function Added(cfg: Config, w: State, op: Op): File
    requires w.Shaped(cfg) && OpFits(cfg, op)
  {
    if FateOf(cfg, w, op) != Written then []
    else
      match op
      case BlockOp(src, block, _) =>
        if block.Shb? || block.Idb? then [] else [Copied(Adjusted(cfg, w.ids, src, block).value)]
      case PacketOp(src, packet, _) => [PacketOut(cfg, src, packet)]
      case _ => []
  }

  lemma UpdatePayload(cfg: Config, w: State, clock: Clock, first: Disk, second: Disk)
    requires w.files != []
    ensures AllPayload(Update(cfg, w, clock, first, second).files) == AllPayload(w.files)
  {
    var w1 := ReportCount(cfg, w);
    SwitchPayload(cfg, w1, first);
    SwitchPayload(cfg, if clock.fileDuration then SwitchOrStop(cfg, w1, first) else w1, second);
  }

  lemma PutPayload(cfg: Config, w: State, o: Out, disk: Disk)
    requires w.files != []
    ensures AllPayload(Put(cfg, w, o).files) == AllPayload(w.files) + if o.IsHeader() then [] else [o]
    ensures AllPayload(WroteOnePacket(cfg, Put(cfg, w, o), disk).files)
         == AllPayload(w.files) + if o.IsHeader() then [] else [o]
  {
    PayloadAppended(w.files, o);
    CountPayload(cfg, Put(cfg, w, o), disk);
  }

  lemma BlockPayload(cfg: Config, w: State, src: nat, block: Block, disk: Disk)
    requires w.files != [] && src < |w.ids.maps| && BlockFate(cfg, w, src, block, disk) == Written
    ensures var o := Copied(Adjusted(cfg, w.ids, src, block).value);
            AllPayload(WriteBlock(cfg, w, src, block, disk).files)
            == AllPayload(w.files) + if o.IsHeader() then [] else [o]
  {
    var w1 := w.(ids := Collect(cfg, w.ids, src, block));
    var o := Copied(Adjusted(cfg, w.ids, src, block).value);
    PutPayload(cfg, w1, o, disk);
    assert WriteBlock(cfg, w, src, block, disk) == BlockWritten(cfg, Put(cfg, w1, o), block, disk);
  }

  lemma BlockAdds(cfg: Config, w: State, src: nat, block: Block, disk: Disk)
    requires w.Shaped(cfg) && src < |cfg.pcapng| && cfg.pcapng[src] && !w.aborted
    ensures AllPayload(WriteBlock(cfg, w, src, block, disk).files)
         == AllPayload(w.files) + Added(cfg, w, BlockOp(src, block, disk))
  {
    if BlockFate(cfg, w, src, block, disk) == Written {
      BlockPayload(cfg, w, src, block, disk);
    } else {
      assert WriteBlock(cfg, w, src, block, disk).files == w.files;
    }
  }

  lemma PacketAdds(cfg: Config, w: State, src: nat, packet: Packet, disk: Disk)
    requires w.Shaped(cfg) && src < |cfg.pcapng| && !cfg.pcapng[src] && !w.aborted
    ensures AllPayload(WritePacket(cfg, w, src, packet, disk).files)
         == AllPayload(w.files) + Added(cfg, w, PacketOp(src, packet, disk))
  {
    if PacketFate(cfg, w, disk) == Written {
      PutPayload(cfg, w, PacketOut(cfg, src, packet), disk);
    }
  }

  /** Whatever files are switched to, an operation adds just that to what the files hold. */
  lemma StepAddsPayload(cfg: Config, w: State, op: Op)
    requires w.Shaped(cfg) && OpFits(cfg, op)
    ensures AllPayload(Apply(cfg, w, op).files) == AllPayload(w.files) + Added(cfg, w, op)
  {
    if !w.aborted {
      match op
      case BlockOp(src, block, disk) => BlockAdds(cfg, w, src, block, disk);
      case PacketOp(src, packet, disk) => PacketAdds(cfg, w, src, packet, disk);
      case UpdateOp(clock, first, second) => UpdatePayload(cfg, w, clock, first, second);
      case StopOp =>
    }
  }

  /** While a capture goes on, its file is open. */
  lemma OpenWhileGoing(cfg: Config, w: State, op: Op)
    requires w.Shaped(cfg) && OpFits(cfg, op) && (w.go ==> w.open)
    ensures Apply(cfg, w, op).go ==> Apply(cfg, w, op).open
  {
    GoNeverReturns(cfg, w, op);
    if op.UpdateOp? {
      var w1 := ReportCount(cfg, w);
      SwitchOpen(cfg, w1, op.first);
      SwitchOpen(cfg, if op.clock.fileDuration then SwitchOrStop(cfg, w1, op.first) else w1, op.second);
    }
  }

  lemma SwitchOpen(cfg: Config, w: State, disk: Disk)
    requires w.files != [] && (w.go ==> w.open)
    ensures SwitchOrStop(cfg, w, disk).go ==> SwitchOrStop(cfg, w, disk).open
  {
  }

  lemma {:induction false} AlwaysOpenWhileGoing(cfg: Config, ops: seq<Op>)
    requires OpsFit(cfg, ops)
    ensures Run(cfg, ops).go ==> Run(cfg, ops).open
  {
    if ops == [] {
      StartOpen(cfg);
    } else {
      var before, op := ops[..|ops| - 1], ops[|ops| - 1];
      AlwaysOpenWhileGoing(cfg, before);
      OpenWhileGoing(cfg, Run(cfg, before), op);
      assert Run(cfg, ops) == Apply(cfg, Run(cfg, before), op);
    }
  }

  lemma StartOpen(cfg: Config)
    ensures Start(cfg).open
  {
  }

  /** While a capture goes on, with any output, every packet is written if the disk takes it. */
  lemma PacketFateInRun(cfg: Config, ops: seq<Op>, src: nat, packet: Packet, disk: Disk)
    requires OpsFit(cfg, ops) && src < |cfg.pcapng| && !cfg.pcapng[src]
    requires Run(cfg, ops).go && !Run(cfg, ops).aborted
    ensures FateOf(cfg, Run(cfg, ops), PacketOp(src, packet, disk)) == if disk.write then Written else Dropped
  {
    AlwaysOpenWhileGoing(cfg, ops);
  }

  /** Once it has stopped, every packet and every block is flushed, and changes nothing. */
  lemma FlushedOnceStopped(cfg: Config, ops: seq<Op>, op: Op)
    requires OpsFit(cfg, ops) && OpFits(cfg, op) && (op.BlockOp? || op.PacketOp?)
    requires !Run(cfg, ops).go && !Run(cfg, ops).aborted
    ensures FateOf(cfg, Run(cfg, ops), op) == Flushed && Apply(cfg, Run(cfg, ops), op) == Run(cfg, ops)
  {
  }

  // How files begin

  /** A file is empty, or begins with a section header or file header and has no other. */
  ghost predicate Begins(cfg: Config, f: File) {
    f == [] || (f[0] == (if cfg.usePcapng then OwnShb else FileHeader)
                && forall k | 0 < k < |f| :: f[k] != OwnShb && f[k] != FileHeader)
  }

  /** Only the last file can be empty, and only if its header could not be written. */
  ghost predicate AllBegin(cfg: Config, w: State) {
    && w.files != [] && (forall i | 0 <= i < |w.files| :: Begins(cfg, w.files[i]))
    && (forall i | 0 <= i < |w.files| - 1 :: w.files[i] != []) && (w.open ==> w.Last() != [])
  }

  lemma {:induction false} DescriptionsOnly(cfg: Config, idbs: seq<SavedIdb>)
    ensures forall k | 0 <= k < |IdbBlocks(cfg, idbs)| :: IdbBlocks(cfg, idbs)[k] != OwnShb && IdbBlocks(cfg, idbs)[k] != FileHeader
  {
    if idbs == [] {
    } else {
      DescriptionsOnly(cfg, idbs[..|idbs| - 1]);
    }
  }

  lemma NewFileBegins(cfg: Config, ids: Ids, disk: Disk)
    requires !cfg.Passthrough() && ids.savedShb.None?
    ensures Begins(cfg, FirstBlocks(cfg, ids, disk)) && (HeaderFits(cfg, ids, disk) ==> FirstBlocks(cfg, ids, disk) != [])
  {
    DescriptionsOnly(cfg, ids.savedIdbs);
  }

  lemma SwitchBegins(cfg: Config, w: State, disk: Disk)
    requires !cfg.Passthrough() && w.ids.savedShb.None? && AllBegin(cfg, w)
    ensures AllBegin(cfg, SwitchOrStop(cfg, w, disk))
  {
    NewFileBegins(cfg, w.ids, disk);
    SwitchFiles(cfg, w, disk);
    var w1 := SwitchOrStop(cfg, w, disk);
    if w1.files != w.files {
      OneMoreFile(cfg, w, FirstBlocks(cfg, w.ids, disk), w1);
    }
  }

  lemma SwitchFiles(cfg: Config, w: State, disk: Disk)
    requires w.files != []
    ensures var w1 := SwitchOrStop(cfg, w, disk);
            && (w1.files == w.files || (w.open && w1.files == w.files + [FirstBlocks(cfg, w.ids, disk)]))
            && (w1.open ==> w.open && (w1.files == w.files || HeaderFits(cfg, w.ids, disk)))
  {
  }

  lemma OneMoreFile(cfg: Config, w: State, f: File, w1: State)
    requires AllBegin(cfg, w) && w.open && Begins(cfg, f)
    requires w1.files == w.files + [f] && (w1.open ==> f != [])
    ensures AllBegin(cfg, w1)
  {
  }

  lemma PutBegins(cfg: Config, w: State, o: Out, w1: State)
    requires AllBegin(cfg, w) && w.open && o != OwnShb && o != FileHeader
    requires w1.files == Append(w.files, o) && w1.open == w.open
    ensures AllBegin(cfg, w1)
  {
  }

  lemma PacketBegins(cfg: Config, w: State, o: Out, disk: Disk)
    requires !cfg.Passthrough() && w.ids.savedShb.None? && AllBegin(cfg, w) && w.open && o != OwnShb && o != FileHeader
    ensures AllBegin(cfg, WroteOnePacket(cfg, Put(cfg, w, o), disk))
  {
    var w1 := Put(cfg, w, o);
    PutBegins(cfg, w, o, w1.(n := CountPacket(w1.n)));
    SwitchBegins(cfg, w1.(n := CountPacket(w1.n)), disk);
  }

  lemma BlockBegins(cfg: Config, w: State, src: nat, block: Block, disk: Disk)
    requires !cfg.Passthrough() && w.ids.savedShb.None? && AllBegin(cfg, w) && src < |w.ids.maps|
    ensures AllBegin(cfg, WriteBlock(cfg, w, src, block, disk))
  {
    var w1 := WriteBlock(cfg, w, src, block, disk);
    if BlockFate(cfg, w, src, block, disk) != Written {
      BlockNotWritten(cfg, w, src, block, disk);
    } else {
      var o := Copied(Adjusted(cfg, w.ids, src, block).value);
      if block.IsData() {
        PacketBlockWritten(cfg, w, src, block, disk);
        PacketBegins(cfg, w, o, disk);
      } else {
        OtherBlockWritten(cfg, w, src, block, disk);
        PutBegins(cfg, w, o, w1);
      }
    }
  }

  lemma UpdateBegins(cfg: Config, w: State, clock: Clock, first: Disk, second: Disk)
    requires !cfg.Passthrough() && w.ids.savedShb.None? && AllBegin(cfg, w)
    ensures AllBegin(cfg, Update(cfg, w, clock, first, second))
  {
    var w1 := ReportCount(cfg, w);
    SwitchBegins(cfg, w1, first);
    SwitchBegins(cfg, if clock.fileDuration then SwitchOrStop(cfg, w1, first) else w1, second);
  }

  lemma StepBegins(cfg: Config, w: State, op: Op)
    requires !cfg.Passthrough() && w.ids.savedShb.None? && AllBegin(cfg, w) && w.Shaped(cfg) && OpFits(cfg, op)
    ensures AllBegin(cfg, Apply(cfg, w, op)) && Apply(cfg, w, op).ids.savedShb.None?
  {
    if !w.aborted {
      match op
      case BlockOp(src, block, disk) => BlockBegins(cfg, w, src, block, disk);
      case PacketOp(src, packet, disk) =>
        if PacketFate(cfg, w, disk) == Written {
          PacketBegins(cfg, w, PacketOut(cfg, src, packet), disk);
        }
      case UpdateOp(clock, first, second) => UpdateBegins(cfg, w, clock, first, second);
      case StopOp =>
    }
  }

  lemma StartBegins(cfg: Config)
    requires !cfg.Passthrough()
    ensures AllBegin(cfg, Start(cfg)) && Start(cfg).ids.savedShb.None?
  {
    NewFileBegins(cfg, Opened(cfg).ids, Disk(true, true, |HeaderBlocks(cfg, Opened(cfg).ids)|));
  }

  /** In every run that does not pass a stream through, every file that could be begun begins with a
      section header, in pcap output with a file header, and has no other. */
  lemma {:induction false} FilesBegin(cfg: Config, ops: seq<Op>)
    requires !cfg.Passthrough() && OpsFit(cfg, ops)
    ensures AllBegin(cfg, Run(cfg, ops)) && Run(cfg, ops).ids.savedShb.None?
  {
    if ops == [] {
      StartBegins(cfg);
    } else {
      var before, op := ops[..|ops| - 1], ops[|ops| - 1];
      FilesBegin(cfg, before);
      StepBegins(cfg, Run(cfg, before), op);
      assert Run(cfg, ops) == Apply(cfg, Run(cfg, before), op);
    }
  }
}
