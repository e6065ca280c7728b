/** The limits on a capture hold in every run. */
module Limits {
  import opened Bytes
  import opened Framing
  import opened Sections
  import opened Writer

  // What is counted

  function CountAll(fs: seq<File>): nat {
    if fs == [] then 0 else CountAll(fs[..|fs| - 1]) + DataCount(fs[|fs| - 1])
  }

  lemma CountAppended(fs: seq<File>, o: Out)
    requires fs != []
    ensures CountAll(Append(fs, o)) == CountAll(fs) + if o.IsData() then 1 else 0
  {
    var n := |fs| - 1;
    assert Append(fs, o)[..n] == fs[..n];
    DataCountAppended(fs[n], o);
  }

  lemma CountFiles(fs: seq<File>, f: File)
    ensures CountAll(fs + [f]) == CountAll(fs) + DataCount(f)
  {
    assert (fs + [f])[..|fs + [f]| - 1] == fs;
  }

  /** The counters say what is in the files. */
  ghost predicate Counted(cfg: Config, w: State) {
    && w.files != []
    && w.n.packetsWritten == DataCount(w.Last())
    && w.n.bytesWritten == TotalSize(cfg, w.Last())
    && w.n.packetsCaptured == CountAll(w.files)
  }

  // File limits

  /** Every data block leaves the file below the size limit. */
  predicate Below(cfg: Config, f: File) {
    f == [] || (Below(cfg, f[..|f| - 1]) && (f[|f| - 1].IsData() ==> !TooBig(cfg, TotalSize(cfg, f))))
  }

  /** Every data block but the last one does. */
  predicate Kept(cfg: Config, f: File) {
    f == [] || if f[|f| - 1].IsData() then Below(cfg, f[..|f| - 1]) else Kept(cfg, f[..|f| - 1])
  }

  /** The size asked for, in units of 1000 bytes and at most two terabytes, has been reached. */
  predicate TooBig(cfg: Config, size: nat) {
    match cfg.autostopFilesize
    case None => false
    case Some(v) => 0 < v && size >= if v <= 2_000_000_000 then 1000 * v else 2_000_000_000_000
  }

  predicate Within(limit: Option<nat>, n: nat) {
    limit.Some? ==> n <= limit.value
  }

  predicate FileWithin(cfg: Config, f: File) {
    Within(cfg.filePackets, DataCount(f)) && Kept(cfg, f)
  }

  /** Everything that the limits promise. */
  ghost predicate WithinLimits(cfg: Config, w: State) {
    && Within(cfg.autostopPackets, CountAll(w.files)) && Within(cfg.autostopWrittenPackets, CountAll(w.files))
    && Within(cfg.autostopFiles, |w.files|)
    && (forall i | 0 <= i < |w.files| :: FileWithin(cfg, w.files[i]))
  }

  /** While going on, the file is open, there are packets left, and every switch counted was made. */
  predicate GoesOn(cfg: Config, w: State) {
    w.open && !Enough(cfg, w.n) && (cfg.autostopFiles.Some? ==> w.n.fileCount + 1 == |w.files|)
  }

  /** And there is room for one more packet in the file. */
  ghost predicate Room(cfg: Config, w: State)
    requires w.files != []
  {
    GoesOn(cfg, w) && !Reached(cfg.filePackets, w.n.packetsWritten) && Below(cfg, w.Last())
  }

  ghost predicate Inv(cfg: Config, w: State) {
    && Counted(cfg, w) && WithinLimits(cfg, w)
    && (w.go ==> Room(cfg, w))
    && (cfg.autostopFiles.Some? ==> |w.files| <= w.n.fileCount + 1)
  }

  lemma {:induction false} BelowKept(cfg: Config, f: File)
    requires Below(cfg, f)
    ensures Kept(cfg, f)
  {
    if f == [] {
    } else {
      BelowKept(cfg, f[..|f| - 1]);
    }
  }

  /** Of any two data blocks in a file, the first leaves it below the size limit. */
  lemma {:induction false} KeptBetween(cfg: Config, f: File, j: nat, k: nat)
    requires j < k < |f| && f[j].IsData() && f[k].IsData() && (Kept(cfg, f) || Below(cfg, f))
    ensures !TooBig(cfg, TotalSize(cfg, f[..j + 1]))
  {
    var n := |f| - 1;
    if k < n {
      assert f[..n][..j + 1] == f[..j + 1];
      KeptBetween(cfg, f[..n], j, k);
    } else {
      BelowAt(cfg, f[..n], j);
      assert f[..n][..j + 1] == f[..j + 1];
    }
  }

  lemma {:induction false} BelowAt(cfg: Config, f: File, j: nat)
    requires j < |f| && f[j].IsData() && Below(cfg, f)
    ensures !TooBig(cfg, TotalSize(cfg, f[..j + 1]))
  {
    var n := |f| - 1;
    if j < n {
      assert f[..n][..j + 1] == f[..j + 1];
      BelowAt(cfg, f[..n], j);
    } else {
      assert f[..j + 1] == f;
    }
  }

  lemma Appended(cfg: Config, f: File, o: Out)
    ensures TotalSize(cfg, f + [o]) == TotalSize(cfg, f) + cfg.outSize(o)
    ensures Kept(cfg, f + [o]) == if o.IsData() then Below(cfg, f) else Kept(cfg, f)
    ensures Below(cfg, f + [o]) == (Below(cfg, f) && (o.IsData() ==> !TooBig(cfg, TotalSize(cfg, f + [o]))))
  {
    assert (f + [o])[..|f + [o]| - 1] == f;
  }

  lemma {:induction false} HeadersBelow(cfg: Config, f: File)
    requires forall i | 0 <= i < |f| :: f[i].IsHeader()
    ensures Below(cfg, f)
  {
    if f == [] {
    } else {
      HeadersBelow(cfg, f[..|f| - 1]);
    }
  }

  lemma NewFileWithin(cfg: Config, ids: Ids, disk: Disk)
    ensures DataCount(FirstBlocks(cfg, ids, disk)) == 0 && Below(cfg, FirstBlocks(cfg, ids, disk))
    ensures FileWithin(cfg, FirstBlocks(cfg, ids, disk))
  {
    var f := FirstBlocks(cfg, ids, disk);
    FirstBlocksAreHeaders(cfg, ids, disk);
    HeadersHoldNoData(f);
    HeadersBelow(cfg, f);
    BelowKept(cfg, f);
  }

  // Every step

  /** A new file makes room again. */
  lemma NewFileKeepsInv(cfg: Config, w: State, disk: Disk)
    requires cfg.Valid() && Inv(cfg, w.(go := false))
    requires w.go ==> w.open && !Enough(cfg, w.n) && (cfg.autostopFiles.Some? ==> w.n.fileCount == |w.files|)
    requires cfg.autostopFiles.Some? ==> |w.files| <= w.n.fileCount < cfg.autostopFiles.value
    ensures Inv(cfg, StartFile(cfg, w, disk))
  {
    NewFileWithin(cfg, w.ids, disk);
    CountFiles(w.files, FirstBlocks(cfg, w.ids, disk));
  }

  lemma TellingKeepsInv(cfg: Config, w: State)
    requires Inv(cfg, w)
    ensures Inv(cfg, ReportFile(cfg, ReportCount(cfg, w)))
  {
  }

  lemma StoppingKeepsInv(cfg: Config, w: State)
    requires Inv(cfg, w)
    ensures Inv(cfg, w.(open := false, go := false))
  {
  }

  lemma CountingFileKeepsInv(cfg: Config, w: State)
    requires Inv(cfg, w.(go := false))
    ensures Inv(cfg, CountFile(cfg, w).(go := false))
    ensures cfg.autostopFiles.Some? ==> |w.files| <= CountFile(cfg, w).n.fileCount
    ensures Enough(cfg, CountFile(cfg, w).n) == Enough(cfg, w.n)
  {
  }

  lemma SwitchKeepsInv(cfg: Config, w: State, disk: Disk)
    requires cfg.Valid() && Inv(cfg, w.(go := false)) && (w.go ==> GoesOn(cfg, w))
    ensures Inv(cfg, SwitchOrStop(cfg, w, disk))
  {
    var w1 := CountFile(cfg, w);
    CountingFileKeepsInv(cfg, w);
    if cfg.multiFiles && w.open && !Reached(cfg.autostopFiles, w1.n.fileCount) && disk.switched {
      NewFileKeepsInv(cfg, w1, disk);
      var w2 := StartFile(cfg, w1, disk);
      TellingKeepsInv(cfg, w2);
      StoppingKeepsInv(cfg, w2);
    } else if cfg.multiFiles && w.open {
      assert SwitchOrStop(cfg, w, disk) == w1.(go := false);
    }
  }

  lemma FullIff(cfg: Config, n: Counters)
    ensures FileFull(cfg, n) <==> Reached(cfg.filePackets, n.packetsWritten) || TooBig(cfg, n.bytesWritten)
  {
  }

  /** One more packet in the last file. */
  lemma PacketWithin(cfg: Config, f: File, o: Out)
    requires o.IsData() && FileWithin(cfg, f) && Below(cfg, f) && !Reached(cfg.filePackets, DataCount(f))
    ensures FileWithin(cfg, f + [o])
    ensures !TooBig(cfg, TotalSize(cfg, f + [o])) ==> Below(cfg, f + [o])
    ensures DataCount(f + [o]) == DataCount(f) + 1 && TotalSize(cfg, f + [o]) == TotalSize(cfg, f) + cfg.outSize(o)
  {
    DataCountAppended(f, o);
    Appended(cfg, f, o);
  }

  /** One more packet: the limits still hold, and if none is reached, there is room. */
  lemma PutPacketKeepsLimits(cfg: Config, w: State, o: Out)
    requires Inv(cfg, w) && w.go && o.IsData()
    ensures var w1 := Put(cfg, w, o); var w2 := w1.(n := CountPacket(w1.n));
            Inv(cfg, w2.(go := false)) && (!Enough(cfg, w2.n) && !FileFull(cfg, w2.n) ==> Room(cfg, w2))
  {
    CountAppended(w.files, o);
    PacketWithin(cfg, w.Last(), o);
    FullIff(cfg, CountPacket(Put(cfg, w, o).n));
  }

  lemma PutPacketKeepsInv(cfg: Config, w: State, o: Out, disk: Disk)
    requires cfg.Valid() && Inv(cfg, w) && w.go && o.IsData()
    ensures Inv(cfg, WroteOnePacket(cfg, Put(cfg, w, o), disk))
  {
    PutPacketKeepsLimits(cfg, w, o);
    var w1 := Put(cfg, w, o);
    var w2 := w1.(n := CountPacket(w1.n));
    if !Enough(cfg, w2.n) && FileFull(cfg, w2.n) {
      SwitchKeepsInv(cfg, w2, disk);
    }
  }

  // When a packet stops the capture, and when it leads to a new file

  predicate LimitReached(cfg: Config, fs: seq<File>) {
    || (cfg.autostopPackets.Some? && CountAll(fs) >= cfg.autostopPackets.value)
    || (cfg.autostopWrittenPackets.Some? && CountAll(fs) >= cfg.autostopWrittenPackets.value)
  }

  predicate LastFull(cfg: Config, fs: seq<File>)
    requires fs != []
  {
    || (cfg.filePackets.Some? && DataCount(fs[|fs| - 1]) >= cfg.filePackets.value)
    || TooBig(cfg, TotalSize(cfg, fs[|fs| - 1]))
  }

  /** Another file is asked for and allowed, and can be begun. */
  predicate NextFileOpens(cfg: Config, fs: seq<File>, ids: Ids, disk: Disk) {
    && cfg.multiFiles && (cfg.autostopFiles.Some? ==> |fs| < cfg.autostopFiles.value)
    && disk.switched && disk.headerBlocks >= |HeaderBlocks(cfg, ids)|
  }

  /** What the files look like after one more packet decides whether the capture goes on, and whether
      in the same file or in a new one. */
  lemma PacketOutcome(cfg: Config, w: State, o: Out, disk: Disk)
    requires Inv(cfg, w) && w.go && o.IsData()
    ensures var fs := Append(w.files, o); var w1 := WroteOnePacket(cfg, Put(cfg, w, o), disk);
            && w1.go == (!LimitReached(cfg, fs) && (LastFull(cfg, fs) ==> NextFileOpens(cfg, fs, w.ids, disk)))
            && (w1.go ==> w1.files == if LastFull(cfg, fs) then fs + [HeaderBlocks(cfg, w.ids)] else fs)
  {
    CountAppended(w.files, o);
    DataCountAppended(w.Last(), o);
    Appended(cfg, w.Last(), o);
    var w1 := Put(cfg, w, o);
    var w2 := w1.(n := CountPacket(w1.n));
    FullIff(cfg, w2.n);
    assert Enough(cfg, w2.n) == LimitReached(cfg, w1.files);
    assert FileFull(cfg, w2.n) == LastFull(cfg, w1.files);
    SwitchOutcome(cfg, w2, disk);
  }

  /** A switch goes on in a new file that has its first blocks, or stops the capture. */
  lemma SwitchOutcome(cfg: Config, w: State, disk: Disk)
    requires w.files != [] && w.open && (cfg.autostopFiles.Some? ==> w.n.fileCount + 1 == |w.files|)
    ensures var w1 := SwitchOrStop(cfg, w, disk);
            if NextFileOpens(cfg, w.files, w.ids, disk) then w1.go == w.go && w1.files == w.files + [HeaderBlocks(cfg, w.ids)]
            else !w1.go
  {
  }

  lemma PutOtherKeepsInv(cfg: Config, w: State, o: Out)
    requires Inv(cfg, w) && !o.IsData()
    ensures Inv(cfg, Put(cfg, w, o))
  {
    CountAppended(w.files, o);
    DataCountAppended(w.Last(), o);
    Appended(cfg, w.Last(), o);
  }

  /** The invariant looks at files, counters and whether the capture goes on. */
  lemma SameKeepsInv(cfg: Config, w: State, w1: State)
    requires Inv(cfg, w) && w1.files == w.files && w1.n == w.n && w1.open == w.open && (w1.go ==> w.go)
    ensures Inv(cfg, w1)
  {
  }

  lemma BlockKeepsInv(cfg: Config, w: State, src: nat, block: Block, disk: Disk)
    requires cfg.Valid() && Inv(cfg, w) && src < |w.ids.maps|
    ensures Inv(cfg, WriteBlock(cfg, w, src, block, disk))
  {
    var w1 := WriteBlock(cfg, w, src, block, disk);
    if BlockFate(cfg, w, src, block, disk) != Written {
      BlockNotWritten(cfg, w, src, block, disk);
      SameKeepsInv(cfg, w, w1);
    } else {
      var o := Copied(Adjusted(cfg, w.ids, src, block).value);
      if block.IsData() {
        PacketBlockWritten(cfg, w, src, block, disk);
        PutPacketKeepsInv(cfg, w, o, disk);
      } else {
        OtherBlockWritten(cfg, w, src, block, disk);
        PutOtherKeepsInv(cfg, w, o);
        SameKeepsInv(cfg, Put(cfg, w, o), w1);
      }
    }
  }

  lemma ReportingKeepsInv(cfg: Config, w: State)
    requires Inv(cfg, w)
    ensures Inv(cfg, ReportCount(cfg, w))
  {
  }

  lemma SwitchInTimeKeepsInv(cfg: Config, w: State, disk: Disk)
    requires cfg.Valid() && Inv(cfg, w)
    ensures Inv(cfg, SwitchOrStop(cfg, w, disk))
  {
    SwitchKeepsInv(cfg, w, disk);
  }

  lemma UpdateKeepsInv(cfg: Config, w: State, clock: Clock, first: Disk, second: Disk)
    requires cfg.Valid() && Inv(cfg, w)
    ensures Inv(cfg, Update(cfg, w, clock, first, second))
  {
    var w1 := ReportCount(cfg, w);
    ReportingKeepsInv(cfg, w);
    if !clock.autostopDuration {
      SwitchInTimeKeepsInv(cfg, w1, first);
      var w2 := if clock.fileDuration then SwitchOrStop(cfg, w1, first) else w1;
      SwitchInTimeKeepsInv(cfg, w2, second);
    }
  }

  lemma StepKeepsInv(cfg: Config, w: State, op: Op)
    requires cfg.Valid() && Inv(cfg, w) && w.Shaped(cfg) && OpFits(cfg, op)
    ensures Inv(cfg, Apply(cfg, w, op))
  {
    if !w.aborted {
      match op
      case BlockOp(src, block, disk) => BlockKeepsInv(cfg, w, src, block, disk);
      case PacketOp(src, packet, disk) =>
        if PacketFate(cfg, w, disk) == Written {
          PutPacketKeepsInv(cfg, w, PacketOut(cfg, src, packet), disk);
        }
      case UpdateOp(clock, first, second) => UpdateKeepsInv(cfg, w, clock, first, second);
      case StopOp =>
    }
  }

  lemma FirstFileInv(cfg: Config, w: State, disk: Disk)
    requires cfg.Valid() && w.files == [] && w.n == Counters(0, 0, 0, 0, 0) && w.open
    ensures Inv(cfg, StartFile(cfg, w, disk))
  {
    var f := FirstBlocks(cfg, w.ids, disk);
    NewFileWithin(cfg, w.ids, disk);
    CountFiles([], f);
    assert StartFile(cfg, w, disk).files == [f];
  }

  lemma AnnouncingKeepsInv(cfg: Config, w: State)
    requires Inv(cfg, w)
    ensures Inv(cfg, ReportFile(cfg, w))
  {
  }

  lemma StartInv(cfg: Config)
    requires cfg.Valid()
    ensures Inv(cfg, Start(cfg))
  {
    var w := Opened(cfg);
    var disk := Disk(true, true, |HeaderBlocks(cfg, w.ids)|);
    FirstFileInv(cfg, w, disk);
    AnnouncingKeepsInv(cfg, StartFile(cfg, w, disk));
  }

  /** In every run: packets captured, packets per file, files, and the size of each file at each
      packet but the last stay within their limits, and while the capture goes on, no limit has been
      reached by its packets and there is room for another one in the file. */
  lemma LimitsHold(cfg: Config, ops: seq<Op>)
    requires cfg.Valid() && OpsFit(cfg, ops)
    ensures Inv(cfg, Run(cfg, ops))
    ensures var w := Run(cfg, ops);
            w.go ==> && !LimitReached(cfg, w.files) && Below(cfg, w.Last())
                     && (cfg.filePackets.Some? ==> DataCount(w.Last()) < cfg.filePackets.value)
  {
    InvHolds(cfg, ops);
  }

  lemma {:induction false} InvHolds(cfg: Config, ops: seq<Op>)
    requires cfg.Valid() && OpsFit(cfg, ops)
    ensures Inv(cfg, Run(cfg, ops))
  {
    if ops == [] {
      StartInv(cfg);
    } else {
      InvHolds(cfg, ops[..|ops| - 1]);
      StepKeepsInv(cfg, Run(cfg, ops[..|ops| - 1]), ops[|ops| - 1]);
    }
  }

  /** In every run that still goes on: a packet that comes stops the capture if and only if it cannot
      be written, the number of packets has been reached, or its file is full and there is no other. */
  lemma PacketStopsIff(cfg: Config, ops: seq<Op>, src: nat, packet: Packet, disk: Disk)
    requires cfg.Valid() && OpsFit(cfg, ops) && src < |cfg.pcapng| && !cfg.pcapng[src]
    requires Run(cfg, ops).go && !Run(cfg, ops).aborted
    ensures var w, fs := Run(cfg, ops), Append(Run(cfg, ops).files, PacketOut(cfg, src, packet));
            WritePacket(cfg, w, src, packet, disk).go
            <==> disk.write && !LimitReached(cfg, fs) && (LastFull(cfg, fs) ==> NextFileOpens(cfg, fs, w.ids, disk))
  {
    LimitsHold(cfg, ops);
    PacketOutcome(cfg, Run(cfg, ops), PacketOut(cfg, src, packet), disk);
  }

  /** The same for a block of a pcapng source whose interface id is known: only blocks that count as
      packets can stop the capture once they have been written. */
  lemma BlockStopsIff(cfg: Config, ops: seq<Op>, src: nat, block: Block, disk: Disk)
    requires cfg.Valid() && OpsFit(cfg, ops) && src < |cfg.pcapng| && cfg.pcapng[src]
    requires Run(cfg, ops).go && !Run(cfg, ops).aborted && Adjusted(cfg, Run(cfg, ops).ids, src, block).Some?
    ensures var w := Run(cfg, ops); var fs := Append(w.files, Copied(Adjusted(cfg, w.ids, src, block).value));
            WriteBlock(cfg, w, src, block, disk).go
            <==> (block.Shb? && !cfg.Passthrough())
                 || (disk.write && (block.IsData() ==>
                       !LimitReached(cfg, fs) && (LastFull(cfg, fs) ==> NextFileOpens(cfg, fs, w.ids, disk))))
  {
    LimitsHold(cfg, ops);
    var w := Run(cfg, ops);
    if block.IsData() {
      DataOutcome(cfg, w, src, block, disk);
    } else {
      OtherOutcome(cfg, w, src, block, disk);
    }
  }

  lemma DataOutcome(cfg: Config, w: State, src: nat, block: Block, disk: Disk)
    requires Inv(cfg, w) && w.go && src < |w.ids.maps| && Adjusted(cfg, w.ids, src, block).Some? && block.IsData()
    ensures var fs := Append(w.files, Copied(Adjusted(cfg, w.ids, src, block).value));
            WriteBlock(cfg, w, src, block, disk).go
            <==> disk.write && !LimitReached(cfg, fs) && (LastFull(cfg, fs) ==> NextFileOpens(cfg, fs, w.ids, disk))
  {
    var o := Copied(Adjusted(cfg, w.ids, src, block).value);
    PacketOutcome(cfg, w, o, disk);
    if disk.write {
      PacketBlockWritten(cfg, w, src, block, disk);
    }
  }

  lemma OtherOutcome(cfg: Config, w: State, src: nat, block: Block, disk: Disk)
    requires Inv(cfg, w) && w.go && src < |w.ids.maps| && Adjusted(cfg, w.ids, src, block).Some? && !block.IsData()
    ensures WriteBlock(cfg, w, src, block, disk).go <==> (block.Shb? && !cfg.Passthrough()) || disk.write
  {
  }

  lemma SwitchKeepsCount(cfg: Config, w: State, disk: Disk)
    requires w.files != [] && w.open && (cfg.autostopFiles.Some? ==> w.n.fileCount + 1 == |w.files|)
    ensures var w1 := SwitchOrStop(cfg, w, disk);
            NextFileOpens(cfg, w.files, w.ids, disk) ==>
              Switches(cfg, w, disk) && w1.open && (cfg.autostopFiles.Some? ==> w1.n.fileCount + 1 == |w1.files|)
    ensures Switches(cfg, w, disk) ==> NextFileOpens(cfg, w.files, w.ids, disk)
  {
  }

  /** In every run that still goes on: an update tick stops the capture if and only if the capture's
      time is over, or a file's time is over and there is no other; otherwise each file's time that
      is over leads to a new file. */
  lemma UpdateStopsIff(cfg: Config, ops: seq<Op>, clock: Clock, first: Disk, second: Disk)
    requires cfg.Valid() && OpsFit(cfg, ops) && Run(cfg, ops).go
    ensures var w := Run(cfg, ops); var start := [HeaderBlocks(cfg, w.ids)];
            var fs := if clock.fileDuration then w.files + start else w.files;
            var w1 := Update(cfg, w, clock, first, second);
            && (w1.go <==> && !clock.autostopDuration
                           && (clock.fileDuration ==> NextFileOpens(cfg, w.files, w.ids, first))
                           && (clock.fileInterval ==> NextFileOpens(cfg, fs, w.ids, second)))
            && (w1.go ==> w1.files == if clock.fileInterval then fs + start else fs)
  {
    LimitsHold(cfg, ops);
    var w1 := ReportCount(cfg, Run(cfg, ops));
    SwitchOutcome(cfg, w1, first);
    SwitchKeepsCount(cfg, w1, first);
    if clock.fileDuration && NextFileOpens(cfg, w1.files, w1.ids, first) {
      SwitchOutcome(cfg, SwitchOrStop(cfg, w1, first), second);
    } else {
      SwitchOutcome(cfg, w1, second);
    }
  }

  // Captures of packets only

  /** No source delivers pcapng. */
  predicate PacketsOnly(cfg: Config) {
    forall src | 0 <= src < |cfg.pcapng| :: !cfg.pcapng[src]
  }

  /** Headers, and then packets. */
  predicate PacketFile(f: File) {
    && (forall j | 0 <= j < |f| :: f[j].IsHeader() || f[j].IsData())
    && (forall j, k | 0 <= j < k < |f| && f[k].IsHeader() :: f[j].IsHeader())
  }

  ghost predicate PacketFiles(fs: seq<File>) {
    fs != [] && forall i | 0 <= i < |fs| :: PacketFile(fs[i])
  }

  lemma NewFileOfPackets(cfg: Config, w: State, disk: Disk)
    requires forall i | 0 <= i < |w.files| :: PacketFile(w.files[i])
    ensures PacketFiles(StartFile(cfg, w, disk).files)
  {
    FirstBlocksAreHeaders(cfg, w.ids, disk);
  }

  lemma SwitchKeepsPackets(cfg: Config, w: State, disk: Disk)
    requires PacketFiles(w.files)
    ensures PacketFiles(SwitchOrStop(cfg, w, disk).files)
  {
    NewFileOfPackets(cfg, CountFile(cfg, w), disk);
  }

  lemma PacketKeepsPackets(cfg: Config, w: State, o: Out, disk: Disk)
    requires PacketFiles(w.files) && o.IsData() && !o.IsHeader()
    ensures PacketFiles(WroteOnePacket(cfg, Put(cfg, w, o), disk).files)
  {
    var w1 := Put(cfg, w, o);
    SwitchKeepsPackets(cfg, w1.(n := CountPacket(w1.n)), disk);
  }

  lemma UpdateKeepsPackets(cfg: Config, w: State, clock: Clock, first: Disk, second: Disk)
    requires PacketFiles(w.files)
    ensures PacketFiles(Update(cfg, w, clock, first, second).files)
  {
    var w1 := ReportCount(cfg, w);
    SwitchKeepsPackets(cfg, w1, first);
    SwitchKeepsPackets(cfg, if clock.fileDuration then SwitchOrStop(cfg, w1, first) else w1, second);
  }

  /** If no source delivers pcapng, every file of every run has this shape. */
  lemma {:induction false} AlwaysPacketFiles(cfg: Config, ops: seq<Op>)
    requires PacketsOnly(cfg) && OpsFit(cfg, ops)
    ensures PacketFiles(Run(cfg, ops).files)
  {
    if ops == [] {
      NewFileOfPackets(cfg, Opened(cfg), Disk(true, true, |HeaderBlocks(cfg, Opened(cfg).ids)|));
    } else {
      var w, op := Run(cfg, ops[..|ops| - 1]), ops[|ops| - 1];
      AlwaysPacketFiles(cfg, ops[..|ops| - 1]);
      if op.PacketOp? && FateOf(cfg, w, op) == Written {
        PacketKeepsPackets(cfg, w, PacketOut(cfg, op.src, op.packet), op.disk);
      } else if op.UpdateOp? {
        UpdateKeepsPackets(cfg, w, op.clock, op.first, op.second);
      } else {
        assert Apply(cfg, w, op).files == w.files;
      }
    }
  }

  /** If no source delivers pcapng: at each packet write the file was below the limit before it, or
      held only its headers. */
  lemma SizeAtEachPacket(cfg: Config, ops: seq<Op>, i: nat, k: nat)
    requires cfg.Valid() && OpsFit(cfg, ops) && PacketsOnly(cfg)
    requires i < |Run(cfg, ops).files| && k < |Run(cfg, ops).files[i]| && Run(cfg, ops).files[i][k].IsData()
    ensures var f := Run(cfg, ops).files[i];
            (forall j | 0 <= j < k :: f[j].IsHeader()) || !TooBig(cfg, TotalSize(cfg, f[..k]))
  {
    LimitsHold(cfg, ops);
    AlwaysPacketFiles(cfg, ops);
    var f := Run(cfg, ops).files[i];
    assert PacketFile(f) && FileWithin(cfg, f);
    if k > 0 && f[k - 1].IsData() {
      KeptBetween(cfg, f, k - 1, k);
    }
  }
}
