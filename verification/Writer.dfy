/** The writing side of a capture: interface renumbering, output files, stop conditions, counters
    and reports to the parent, as functions on the state they update. CaptureWriter holds the
    methods that do this in place. */
module Writer {
  import opened Bytes
  import opened Framing
  import opened Sections

  const MAX_AUTOSTOP_FILESIZE: nat := 2000000000

  /** What was asked for on the command line. fromPipe says which sources are pipes, and pcapng which
      of these deliver pcapng blocks; outSize gives the number of bytes each thing takes in a file. */
  datatype Config = Config(
    fromPipe: seq<bool>,
    pcapng: seq<bool>,
    usePcapng: bool,
    multiFiles: bool,
    quiet: bool,
    autostopPackets: Option<nat>,
    autostopWrittenPackets: Option<nat>,
    filePackets: Option<nat>,
    autostopFilesize: Option<nat>,
    autostopFiles: Option<nat>,
    outSize: Out -> nat)
  {
    /** We have one source and it's pcapng. */
    predicate Passthrough() {
      |pcapng| == 1 && pcapng[0]
    }

    /** What option parsing and opening the inputs guarantee: limits are positive, and output is
        pcapng if there are several sources or one that delivers pcapng. */
    ghost predicate Valid() {
      && pcapng != [] && |fromPipe| == |pcapng| && (forall i | 0 <= i < |pcapng| :: pcapng[i] ==> fromPipe[i])
      && (|pcapng| > 1 || pcapng[0] ==> usePcapng)
      && autostopPackets != Some(0) && autostopWrittenPackets != Some(0) && filePackets != Some(0)
      && autostopFiles != Some(0)
    }

    /** Multiplexing pcapng output, rather than passing one stream through or writing pcap. */
    predicate Multiplexing() {
      usePcapng && !Passthrough()
    }
  }

  datatype SavedIdb = SavedIdb(deleted: bool, owner: nat, idb: Option<seq<byte>>)

  const DELETED_IDB := SavedIdb(true, 0, None)

  /** Messages to the parent: packets written since the last one, and a new file. */
  datatype Message = PacketCount(n: nat) | NewFile(index: nat)

  /** Interface descriptions collected so far, and the output interface ids of each source's. */
  datatype Ids = Ids(savedShb: Option<seq<byte>>, savedIdbs: seq<SavedIdb>, maps: seq<seq<nat>>)

  datatype Counters = Counters(
    packetsCaptured: nat,
    packetsWritten: nat,
    inpkts: nat,
    fileCount: nat,
    bytesWritten: nat)

  datatype State = State(
    go: bool,
    open: bool,
    aborted: bool,
    ids: Ids,
    n: Counters,
    files: seq<File>,
    messages: seq<Message>,
    unannounced: Option<nat>)
  {
    predicate Shaped(cfg: Config) {
      files != [] && |ids.maps| == |cfg.pcapng|
    }

    function Last(): File
      requires files != []
    {
      files[|files| - 1]
    }
  }

  /** How the file system answers during one operation: whether the block is written, whether a
      switch yields a new file, and how many of the blocks that start it can be written. */
  datatype Disk = Disk(write: bool, switched: bool, headerBlocks: nat)

  /** What became of a packet or block. Absorbed: a section header that is not copied. */
  datatype Fate = Written | Absorbed | Dropped | Flushed | Discarded | Aborted

  /** What has been said to the parent stays said, and outside passthrough nothing waits to be. */
  predicate Tells(cfg: Config, w: State, r: State) {
    && w.messages <= r.messages
    && (!cfg.Passthrough() && w.unannounced.None? ==> r.unannounced.None?)
  }

  // Interface descriptions

  /** The output interface id of a source that is not pcapng. */
  function IdbId(cfg: Config, src: nat): nat
    requires src <= |cfg.pcapng|
  {
    if src == 0 then 0 else IdbId(cfg, src - 1) + if cfg.pcapng[src - 1] then 0 else 1
  }

  /** One entry for each source that is not pcapng, in order. */
  function InitialIdbs(cfg: Config, n: nat): (r: seq<SavedIdb>)
    requires n <= |cfg.pcapng|
    ensures |r| == IdbId(cfg, n)
  {
    if n == 0 then []
    else InitialIdbs(cfg, n - 1) + if cfg.pcapng[n - 1] then [] else [SavedIdb(false, n - 1, None)]
  }

  function MarkDeleted(idbs: seq<SavedIdb>, ids: seq<nat>): (r: seq<SavedIdb>)
    ensures |r| == |idbs|
    ensures forall j | 0 <= j < |idbs| :: r[j] == if j in ids then DELETED_IDB else idbs[j]
  {
    seq(|idbs|, j requires 0 <= j < |idbs| => if j in ids then DELETED_IDB else idbs[j])
  }

  /** The output interface id for a source's own; None if its current section has no such id. */
  function Renumbered(cfg: Config, ids: Ids, src: nat, id: nat): Option<nat>
    requires src < |ids.maps|
  {
    if cfg.Passthrough() then Some(id)
    else if id < |ids.maps[src]| then Some(ids.maps[src][id])
    else None
  }

  /** Save interface descriptions and section headers. */
  function Collect(cfg: Config, ids: Ids, src: nat, block: Block): (r: Ids)
    requires src < |ids.maps|
    ensures |r.maps| == |ids.maps|
  {
    match block
    case Shb(raw) =>
      if cfg.Passthrough() then Ids(Some(raw), [], ids.maps[src := []])
      else Ids(ids.savedShb, MarkDeleted(ids.savedIdbs, ids.maps[src]), ids.maps[src := []])
    case Idb(raw) =>
      Ids(ids.savedShb, ids.savedIdbs + [SavedIdb(false, src, Some(raw))],
          ids.maps[src := ids.maps[src] + [|ids.savedIdbs|]])
    case _ => ids
  }

  /** The block as it is to be written. None: its interface id means nothing. */
  function Adjusted(cfg: Config, ids: Ids, src: nat, block: Block): Option<Block>
    requires src < |ids.maps|
  {
    match block
    case Epb(id, rest) =>
      (match Renumbered(cfg, ids, src, id) case Some(to) => Some(Epb(to, rest)) case None => None)
    case Isb(id, rest) =>
      (match Renumbered(cfg, ids, src, id) case Some(to) => Some(Isb(to, rest)) case None => None)
    case _ => Some(block)
  }

  // Output files

  function IdbBlock(cfg: Config, e: SavedIdb): seq<Out> {
    if e.deleted then [OwnIdb(Dummy)]
    else if e.idb.Some? then [Copied(Idb(e.idb.value))]
    else if e.owner < |cfg.pcapng| then [OwnIdb(OfSource(e.owner))]
    else []
  }

  function IdbBlocks(cfg: Config, idbs: seq<SavedIdb>): seq<Out> {
    if idbs == [] then [] else IdbBlocks(cfg, idbs[..|idbs| - 1]) + IdbBlock(cfg, idbs[|idbs| - 1])
  }

  /** The blocks a new file starts with. */
  function HeaderBlocks(cfg: Config, ids: Ids): seq<Out> {
    if !cfg.usePcapng then [FileHeader]
    else if cfg.Passthrough() && ids.savedShb.None? then []
    else [if ids.savedShb.Some? then Copied(Block.Shb(ids.savedShb.value)) else OwnShb] + IdbBlocks(cfg, ids.savedIdbs)
  }

  function TotalSize(cfg: Config, f: File): nat {
    if f == [] then 0 else TotalSize(cfg, f[..|f| - 1]) + cfg.outSize(f[|f| - 1])
  }

  /** Put one block at the end of the current file. */
  function Put(cfg: Config, w: State, o: Out): (r: State)
    requires w.files != []
    ensures r.files != [] && r.ids == w.ids
  {
    w.(files := Append(w.files, o), n := w.n.(bytesWritten := w.n.bytesWritten + cfg.outSize(o)))
  }

  /** The first blocks of a new file that the disk lets us write. */
  function FirstBlocks(cfg: Config, ids: Ids, disk: Disk): File {
    var blocks := HeaderBlocks(cfg, ids);
    if disk.headerBlocks < |blocks| then blocks[..disk.headerBlocks] else blocks
  }

  predicate HeaderFits(cfg: Config, ids: Ids, disk: Disk) {
    disk.headerBlocks >= |HeaderBlocks(cfg, ids)|
  }

  lemma {:induction false} IdbBlocksAreHeaders(cfg: Config, idbs: seq<SavedIdb>)
    ensures forall j | 0 <= j < |IdbBlocks(cfg, idbs)| :: IdbBlocks(cfg, idbs)[j].IsHeader()
  {
    if idbs == [] {
    } else {
      IdbBlocksAreHeaders(cfg, idbs[..|idbs| - 1]);
    }
  }

  /** A new file starts with headers only. */
  lemma FirstBlocksAreHeaders(cfg: Config, ids: Ids, disk: Disk)
    ensures forall i | 0 <= i < |FirstBlocks(cfg, ids, disk)| :: FirstBlocks(cfg, ids, disk)[i].IsHeader()
  {
    IdbBlocksAreHeaders(cfg, ids.savedIdbs);
  }

  /** Open a new file and write its first blocks, as far as the disk lets us. */
  function StartFile(cfg: Config, w: State, disk: Disk): (r: State)
    ensures r.files != [] && r.ids == w.ids
  {
    var f := FirstBlocks(cfg, w.ids, disk);
    w.(files := w.files + [f], n := w.n.(bytesWritten := TotalSize(cfg, f), packetsWritten := 0))
  }

  /** Tell the parent about packets not reported yet. */
  function ReportCount(cfg: Config, w: State): (r: State)
    ensures r.ids == w.ids && r.files == w.files && w.messages <= r.messages && r.unannounced == w.unannounced
  {
    if w.n.inpkts == 0 then w
    else w.(n := w.n.(inpkts := 0), messages := if cfg.quiet then w.messages else w.messages + [PacketCount(w.n.inpkts)])
  }

  /** Tell the parent about the newest file; when passing a stream through, only once its section
      header has been written. */
  function ReportFile(cfg: Config, w: State): (r: State)
    requires w.files != []
    ensures Tells(cfg, w, r)
  {
    if cfg.Passthrough() then w.(unannounced := Some(|w.files| - 1))
    else w.(messages := w.messages + [NewFile(|w.files| - 1)])
  }

  predicate Reached(limit: Option<nat>, n: nat) {
    limit.Some? && n >= limit.value
  }

  /** A switch to another file is possible and counted. */
  function CountFile(cfg: Config, w: State): State {
    if cfg.autostopFiles.Some? then w.(n := w.n.(fileCount := w.n.fileCount + 1)) else w
  }

  /** A file limit has been reached: go on in a new file, or stop. A file whose first blocks could
      not be written is closed for good. */
  function SwitchOrStop(cfg: Config, w: State, disk: Disk): (r: State)
    requires w.files != []
    ensures r.files != [] && r.ids == w.ids
    ensures Tells(cfg, w, r)
  {
    if !cfg.multiFiles || !w.open then w.(go := false)
    else
      var w1 := CountFile(cfg, w);
      if Reached(cfg.autostopFiles, w1.n.fileCount) || !disk.switched then w1.(go := false)
      else
        var w2 := StartFile(cfg, w1, disk);
        if !HeaderFits(cfg, w.ids, disk) then w2.(open := false, go := false)
        else ReportFile(cfg, ReportCount(cfg, w2))
  }

  /** Whether SwitchOrStop went on in a new file: what it returns to its callers. */
  predicate Switches(cfg: Config, w: State, disk: Disk) {
    && cfg.multiFiles && w.open && !Reached(cfg.autostopFiles, CountFile(cfg, w).n.fileCount)
    && disk.switched && HeaderFits(cfg, w.ids, disk)
  }

  function Filesize(cfg: Config): Option<nat> {
    if cfg.autostopFilesize.Some? && cfg.autostopFilesize.value > MAX_AUTOSTOP_FILESIZE
    then Some(MAX_AUTOSTOP_FILESIZE) else cfg.autostopFilesize
  }

  predicate FileFull(cfg: Config, n: Counters) {
    || Reached(cfg.filePackets, n.packetsWritten)
    || (Filesize(cfg).Some? && Filesize(cfg).value > 0 && n.bytesWritten / 1000 >= Filesize(cfg).value)
  }

  function CountPacket(n: Counters): Counters {
    n.(packetsCaptured := n.packetsCaptured + 1, packetsWritten := n.packetsWritten + 1, inpkts := n.inpkts + 1)
  }

  predicate Enough(cfg: Config, n: Counters) {
    Reached(cfg.autostopPackets, n.packetsCaptured) || Reached(cfg.autostopWrittenPackets, n.packetsCaptured)
  }

  /** One packet has been written: count it and look at the limits. */
  function WroteOnePacket(cfg: Config, w: State, disk: Disk): (r: State)
    requires w.files != []
    ensures r.files != [] && r.ids == w.ids
    ensures Tells(cfg, w, r)
  {
    var w1 := w.(n := CountPacket(w.n));
    if Enough(cfg, w1.n) then w1.(go := false)
    else if FileFull(cfg, w1.n) then SwitchOrStop(cfg, w1, disk)
    else w1
  }

  /** What becomes of a pcapng block that has been captured. */
  function BlockFate(cfg: Config, w: State, src: nat, block: Block, disk: Disk): Fate
    requires src < |w.ids.maps|
  {
    if !w.go then Flushed
    else if Adjusted(cfg, w.ids, src, block).None? then Aborted
    else if block.Shb? && !cfg.Passthrough() then Absorbed
    else if !w.open then Discarded
    else if !disk.write then Dropped
    else Written
  }

  /** After a block has been put in the file: count packets, and announce a file that was waiting
      for its section header. */
  function BlockWritten(cfg: Config, w: State, block: Block, disk: Disk): (r: State)
    requires w.files != []
    ensures r.files != [] && r.ids == w.ids
    ensures Tells(cfg, w, r)
  {
    if block.IsData() then WroteOnePacket(cfg, w, disk)
    else if block.Shb? && w.unannounced.Some?
    then w.(messages := w.messages + [NewFile(w.unannounced.value)], unannounced := None)
    else w
  }

  /** A pcapng block has been captured: write it. */
  function WriteBlock(cfg: Config, w: State, src: nat, block: Block, disk: Disk): (r: State)
    requires w.files != [] && src < |w.ids.maps|
    ensures r.files != [] && |r.ids.maps| == |w.ids.maps|
    ensures Tells(cfg, w, r)
  {
    match BlockFate(cfg, w, src, block, disk)
    case Flushed => w
    case Aborted => w.(aborted := true)
    case Dropped => w.(ids := Collect(cfg, w.ids, src, block), go := false)
    case Written =>
      var w1 := w.(ids := Collect(cfg, w.ids, src, block));
      BlockWritten(cfg, Put(cfg, w1, Copied(Adjusted(cfg, w.ids, src, block).value)), block, disk)
    case _ => w.(ids := Collect(cfg, w.ids, src, block))
  }

  /** What is left of writing a block when it counts as a packet, when it does not, and when it is not
      written. */
  lemma PacketBlockWritten(cfg: Config, w: State, src: nat, block: Block, disk: Disk)
    requires w.files != [] && src < |w.ids.maps| && BlockFate(cfg, w, src, block, disk) == Written && block.IsData()
    ensures Collect(cfg, w.ids, src, block) == w.ids
    ensures WriteBlock(cfg, w, src, block, disk)
         == WroteOnePacket(cfg, Put(cfg, w, Copied(Adjusted(cfg, w.ids, src, block).value)), disk)
  {
  }

  lemma OtherBlockWritten(cfg: Config, w: State, src: nat, block: Block, disk: Disk)
    requires w.files != [] && src < |w.ids.maps| && BlockFate(cfg, w, src, block, disk) == Written && !block.IsData()
    ensures var w1 := WriteBlock(cfg, w, src, block, disk);
            var w2 := Put(cfg, w, Copied(Adjusted(cfg, w.ids, src, block).value));
            && w1.files == w2.files && w1.n == w2.n && w1.open == w.open && w1.go == w.go && w1.aborted == w.aborted
            && (w.unannounced.None? ==> w1.messages == w.messages)
  {
  }

  lemma BlockNotWritten(cfg: Config, w: State, src: nat, block: Block, disk: Disk)
    requires w.files != [] && src < |w.ids.maps| && BlockFate(cfg, w, src, block, disk) != Written
    ensures var w1 := WriteBlock(cfg, w, src, block, disk);
            && w1.files == w.files && w1.n == w.n && w1.open == w.open && (w1.go ==> w.go) && w1.messages == w.messages
  {
  }

  /** What becomes of a packet of another source. */
  function PacketFate(cfg: Config, w: State, disk: Disk): Fate {
    if !w.go then Flushed else if !w.open then Discarded else if !disk.write then Dropped else Written
  }

  function PacketOut(cfg: Config, src: nat, packet: Packet): Out
    requires src <= |cfg.pcapng|
  {
    if cfg.usePcapng then PacketBlock(IdbId(cfg, src), packet) else PacketRecord(packet)
  }

  /** A packet of another source has been captured: write it. */
  function WritePacket(cfg: Config, w: State, src: nat, packet: Packet, disk: Disk): (r: State)
    requires w.files != [] && src < |cfg.pcapng|
    ensures r.files != [] && r.ids == w.ids
    ensures Tells(cfg, w, r)
  {
    match PacketFate(cfg, w, disk)
    case Written => WroteOnePacket(cfg, Put(cfg, w, PacketOut(cfg, src, packet)), disk)
    case Dropped => w.(go := false)
    case _ => w
  }

  /** Which of the timed conditions hold when the update interval has passed. */
  datatype Clock = Clock(autostopDuration: bool, fileDuration: bool, fileInterval: bool)

  /** The periodic part of the capture loop. */
  function Update(cfg: Config, w: State, clock: Clock, first: Disk, second: Disk): (r: State)
    requires w.files != []
    ensures r.files != [] && r.ids == w.ids
    ensures Tells(cfg, w, r)
  {
    var w1 := ReportCount(cfg, w);
    if clock.autostopDuration then w1.(go := false)
    else
      var w2 := if clock.fileDuration then SwitchOrStop(cfg, w1, first) else w1;
      if clock.fileInterval && (clock.fileDuration ==> Switches(cfg, w1, first)) then SwitchOrStop(cfg, w2, second)
      else w2
  }

  /** The end of a capture: what has not been reported is reported. */
  function Finish(cfg: Config, w: State): State {
    ReportCount(cfg, w.(go := false))
  }

  // Runs

  datatype Op =
    | BlockOp(src: nat, block: Block, disk: Disk)
    | PacketOp(src: nat, packet: Packet, disk: Disk)
    | UpdateOp(clock: Clock, first: Disk, second: Disk)
    | StopOp

  predicate OpFits(cfg: Config, op: Op) {
    match op
    case BlockOp(src, _, _) => src < |cfg.pcapng| && cfg.pcapng[src]
    case PacketOp(src, _, _) => src < |cfg.pcapng| && !cfg.pcapng[src]
    case _ => true
  }

  /** The state when the inputs have been opened, and the state when the capture loop starts: the
      first file is open and has its first blocks. */
  function Opened(cfg: Config): (w: State)
    ensures |w.ids.maps| == |cfg.pcapng|
  {
    var ids := Ids(None, InitialIdbs(cfg, |cfg.pcapng|), seq(|cfg.pcapng|, _ => []));
    State(true, true, false, ids, Counters(0, 0, 0, 0, 0), [], [], None)
  }

  function Start(cfg: Config): (w: State)
    ensures w.Shaped(cfg)
  {
    var w := Opened(cfg);
    ReportFile(cfg, StartFile(cfg, w, Disk(true, true, |HeaderBlocks(cfg, w.ids)|)))
  }

  function Apply(cfg: Config, w: State, op: Op): (r: State)
    requires w.Shaped(cfg) && OpFits(cfg, op)
    ensures r.Shaped(cfg)
    ensures Tells(cfg, w, r)
  {
    if w.aborted then w
    else
      match op
      case BlockOp(src, block, disk) =>
        WriteBlock(cfg, w, src, block, disk)
      case PacketOp(src, packet, disk) =>
        WritePacket(cfg, w, src, packet, disk)
      case UpdateOp(clock, first, second) => Update(cfg, w, clock, first, second)
      case StopOp => w.(go := false)
  }

  /** What became of the packet or block of an operation. */
  function FateOf(cfg: Config, w: State, op: Op): Fate
    requires w.Shaped(cfg) && OpFits(cfg, op)
  {
    if w.aborted then Aborted
    else
      match op
      case BlockOp(src, block, disk) => BlockFate(cfg, w, src, block, disk)
      case PacketOp(_, _, disk) => PacketFate(cfg, w, disk)
      case _ => Absorbed
  }

  predicate OpsFit(cfg: Config, ops: seq<Op>) {
    forall i | 0 <= i < |ops| :: OpFits(cfg, ops[i])
  }

  /** The state after a sequence of operations. */
  function Run(cfg: Config, ops: seq<Op>): (w: State)
    requires OpsFit(cfg, ops)
    ensures w.Shaped(cfg)
    decreases |ops|, 1
  {
    if ops == [] then Start(cfg) else RunLast(cfg, ops)
  }

  function RunLast(cfg: Config, ops: seq<Op>): (w: State)
    requires OpsFit(cfg, ops) && ops != []
    ensures w.Shaped(cfg)
    decreases |ops|, 0
  {
    Apply(cfg, Run(cfg, ops[..|ops| - 1]), ops[|ops| - 1])
  }

  lemma RunOneMore(cfg: Config, ops: seq<Op>, op: Op)
    requires OpsFit(cfg, ops) && OpFits(cfg, op)
    ensures OpsFit(cfg, ops + [op]) && Run(cfg, ops + [op]) == Apply(cfg, Run(cfg, ops), op)
  {
    assert (ops + [op])[..|ops + [op]| - 1] == ops;
  }

  // Stopping

  lemma SwitchNeverRestarts(cfg: Config, w: State, disk: Disk)
    requires w.files != []
    ensures SwitchOrStop(cfg, w, disk).go ==> w.go
    ensures SwitchOrStop(cfg, w, disk).aborted == w.aborted
  {
  }

  /** Once a capture has stopped, it stays stopped, and nothing is written any more. */
  lemma GoNeverReturns(cfg: Config, w: State, op: Op)
    requires w.Shaped(cfg) && OpFits(cfg, op)
    ensures Apply(cfg, w, op).go ==> w.go
    ensures w.aborted ==> Apply(cfg, w, op).aborted
    ensures FateOf(cfg, w, op) == Written ==> w.go && !w.aborted
  {
    if !w.aborted {
      match op
      case BlockOp(src, block, disk) =>
        SwitchNeverRestarts(cfg, w, disk);
      case UpdateOp(clock, first, second) =>
        var w1 := ReportCount(cfg, w);
        SwitchNeverRestarts(cfg, w1, first);
        SwitchNeverRestarts(cfg, if clock.fileDuration then SwitchOrStop(cfg, w1, first) else w1, second);
      case _ =>
    }
  }
}
