/** What the parent is told: which files there are, and how many packets are in each. */
module Reports {
  import opened Bytes
  import opened Framing
  import opened Sections
  import opened Writer
  import opened Limits

  /** The counts received, file by file, with the file each was announced as. */
  datatype Announced = Announced(index: nat, count: nat)

  function Tally(messages: seq<Message>): seq<Announced> {
    if messages == [] then [] else Tallied(Tally(messages[..|messages| - 1]), messages[|messages| - 1])
  }

  /** A count belongs to the file announced last. */
  function Tallied(tally: seq<Announced>, m: Message): seq<Announced> {
    if m.NewFile? then tally + [Announced(m.index, 0)]
    else if tally == [] then []
    else
      var last := tally[|tally| - 1];
      tally[|tally| - 1 := last.(count := last.count + m.n)]
  }

  function CountIn(m: Message): nat {
    if m.PacketCount? then m.n else 0
  }

  function Reported(messages: seq<Message>): nat {
    if messages == [] then 0 else Reported(messages[..|messages| - 1]) + CountIn(messages[|messages| - 1])
  }

  /** The files announced are the first ones, in order; the count of each but the last is what is
      in it, and that of the last lacks only what is yet to be reported. */
  ghost predicate Agrees(fs: seq<File>, tally: seq<Announced>, pending: nat) {
    && 0 < |tally| <= |fs|
    && (forall k | 0 <= k < |tally| :: tally[k].index == k)
    && (forall k | 0 <= k < |tally| - 1 :: tally[k].count == DataCount(fs[k]))
    && tally[|tally| - 1].count + pending == DataCount(fs[|tally| - 1])
    && (forall k | |tally| <= k < |fs| :: DataCount(fs[k]) == 0)
  }

  predicate Speaks(cfg: Config) {
    !cfg.quiet && !cfg.Passthrough()
  }

  ghost predicate Inv(w: State) {
    && Agrees(w.files, Tally(w.messages), w.n.inpkts)
    && (w.open ==> |Tally(w.messages)| == |w.files|)
    && (w.go ==> w.open)
  }

  lemma TallyAppended(messages: seq<Message>, m: Message)
    ensures Tally(messages + [m]) == Tallied(Tally(messages), m)
  {
    assert (messages + [m])[..|messages + [m]| - 1] == messages;
  }

  lemma ReportKeepsInv(cfg: Config, w: State)
    requires Speaks(cfg) && Inv(w)
    ensures Inv(ReportCount(cfg, w)) && ReportCount(cfg, w).n.inpkts == 0
  {
    TallyAppended(w.messages, PacketCount(w.n.inpkts));
  }

  lemma EmptyFileKeepsAgrees(fs: seq<File>, tally: seq<Announced>, pending: nat, f: File)
    requires Agrees(fs, tally, pending) && DataCount(f) == 0
    ensures Agrees(fs + [f], tally, pending)
    ensures |tally| == |fs| && pending == 0 ==> Agrees(fs + [f], tally + [Announced(|fs|, 0)], 0)
  {
  }

  /** The new file is announced after the last of the packets before it have been reported. */
  lemma NextFileKeepsInv(cfg: Config, w: State, disk: Disk)
    requires Speaks(cfg) && Inv(w) && w.open
    ensures Inv(ReportFile(cfg, ReportCount(cfg, StartFile(cfg, w, disk))))
  {
    var f := FirstBlocks(cfg, w.ids, disk);
    NewFileWithin(cfg, w.ids, disk);
    ReportKeepsInv(cfg, w);
    var w1 := ReportCount(cfg, w);
    TallyAppended(w1.messages, NewFile(|w.files|));
    EmptyFileKeepsAgrees(w.files, Tally(w1.messages), 0, f);
  }

  /** A file that could not be begun is not announced. */
  lemma FailedFileKeepsInv(cfg: Config, w: State, disk: Disk)
    requires Inv(w)
    ensures Inv(StartFile(cfg, w, disk).(open := false, go := false))
  {
    NewFileWithin(cfg, w.ids, disk);
    EmptyFileKeepsAgrees(w.files, Tally(w.messages), w.n.inpkts, FirstBlocks(cfg, w.ids, disk));
  }

  lemma SwitchKeepsInv(cfg: Config, w: State, disk: Disk)
    requires Speaks(cfg) && Inv(w)
    ensures Inv(SwitchOrStop(cfg, w, disk))
  {
    var w1 := CountFile(cfg, w);
    if Switches(cfg, w, disk) {
      NextFileKeepsInv(cfg, w1, disk);
    } else if cfg.multiFiles && w.open && !Reached(cfg.autostopFiles, w1.n.fileCount) && disk.switched {
      FailedFileKeepsInv(cfg, w1, disk);
    }
  }

  lemma AppendKeepsAgrees(fs: seq<File>, tally: seq<Announced>, pending: nat, o: Out)
    requires Agrees(fs, tally, pending) && |tally| == |fs|
    ensures Agrees(Append(fs, o), tally, pending + if o.IsData() then 1 else 0)
  {
    DataCountAppended(fs[|fs| - 1], o);
  }

  lemma PutKeepsInv(cfg: Config, w: State, o: Out)
    requires Inv(w) && w.open
    ensures var w1 := Put(cfg, w, o); Inv(if o.IsData() then w1.(n := CountPacket(w1.n)) else w1)
  {
    AppendKeepsAgrees(w.files, Tally(w.messages), w.n.inpkts, o);
  }

  lemma PutPacketKeepsInv(cfg: Config, w: State, o: Out, disk: Disk)
    requires Speaks(cfg) && Inv(w) && w.open && o.IsData()
    ensures Inv(WroteOnePacket(cfg, Put(cfg, w, o), disk))
  {
    PutKeepsInv(cfg, w, o);
    var w1 := Put(cfg, w, o);
    SwitchKeepsInv(cfg, w1.(n := CountPacket(w1.n)), disk);
  }

  lemma SameKeepsInv(w: State, w1: State)
    requires Inv(w) && w1.files == w.files && w1.messages == w.messages && w1.n == w.n
    requires w1.open == w.open && (w1.go ==> w.go)
    ensures Inv(w1)
  {
  }

  lemma BlockKeepsInv(cfg: Config, w: State, src: nat, block: Block, disk: Disk)
    requires Speaks(cfg) && Inv(w) && src < |w.ids.maps| && w.unannounced.None?
    ensures Inv(WriteBlock(cfg, w, src, block, disk))
  {
    var w1 := WriteBlock(cfg, w, src, block, disk);
    if BlockFate(cfg, w, src, block, disk) != Written {
      BlockNotWritten(cfg, w, src, block, disk);
      SameKeepsInv(w, w1);
    } else {
      var o := Copied(Adjusted(cfg, w.ids, src, block).value);
      if block.IsData() {
        PacketBlockWritten(cfg, w, src, block, disk);
        PutPacketKeepsInv(cfg, w, o, disk);
      } else {
        OtherBlockWritten(cfg, w, src, block, disk);
        PutKeepsInv(cfg, w, o);
        SameKeepsInv(Put(cfg, w, o), w1);
      }
    }
  }

  lemma UpdateKeepsInv(cfg: Config, w: State, clock: Clock, first: Disk, second: Disk)
    requires Speaks(cfg) && Inv(w)
    ensures Inv(Update(cfg, w, clock, first, second))
  {
    ReportKeepsInv(cfg, w);
    var w1 := ReportCount(cfg, w);
    SwitchKeepsInv(cfg, w1, first);
    var w2 := if clock.fileDuration then SwitchOrStop(cfg, w1, first) else w1;
    SwitchKeepsInv(cfg, w2, second);
  }

  lemma StepKeepsInv(cfg: Config, w: State, op: Op)
    requires Speaks(cfg) && Inv(w) && w.unannounced.None? && w.Shaped(cfg) && OpFits(cfg, op)
    ensures Inv(Apply(cfg, w, op))
  {
    if !w.aborted {
      match op
      case BlockOp(src, block, disk) => BlockKeepsInv(cfg, w, src, block, disk);
      case PacketOp(src, packet, disk) =>
        if PacketFate(cfg, w, disk) == Written {
          PutPacketKeepsInv(cfg, w, PacketOut(cfg, src, packet), disk);
        }
      case UpdateOp(clock, first, second) => UpdateKeepsInv(cfg, w, clock, first, second);
      case StopOp =>
    }
  }

  lemma StartInv(cfg: Config)
    requires Speaks(cfg)
    ensures Inv(Start(cfg)) && Start(cfg).unannounced.None?
  {
    var ids := Start(cfg).ids;
    NewFileWithin(cfg, ids, Disk(true, true, |HeaderBlocks(cfg, ids)|));
    assert Start(cfg).files == [] + [FirstBlocks(cfg, ids, Disk(true, true, |HeaderBlocks(cfg, ids)|))];
    TallyAppended([], NewFile(0));
    assert Start(cfg).messages == [] + [NewFile(0)];
  }

  /** In every run of a child that reports: the counts sent between two announcements add up to the
      packets in the first of the two files, whatever fails. */
  lemma {:induction false} ReportsAttributed(cfg: Config, ops: seq<Op>)
    requires Speaks(cfg) && OpsFit(cfg, ops)
    ensures Inv(Run(cfg, ops)) && Run(cfg, ops).unannounced.None?
  {
    if ops == [] {
      StartInv(cfg);
    } else {
      var before, op := ops[..|ops| - 1], ops[|ops| - 1];
      ReportsAttributed(cfg, before);
      StepKeepsInv(cfg, Run(cfg, before), op);
    }
  }

  // All files together

  function Sum(tally: seq<Announced>): nat {
    if tally == [] then 0 else Sum(tally[..|tally| - 1]) + tally[|tally| - 1].count
  }

  lemma {:induction false} EmptyFilesCount(fs: seq<File>, m: nat)
    requires m <= |fs| && forall k | m <= k < |fs| :: DataCount(fs[k]) == 0
    ensures CountAll(fs) == CountAll(fs[..m])
  {
    if m < |fs| {
      var n := |fs| - 1;
      assert fs[..n][..m] == fs[..m];
      EmptyFilesCount(fs[..n], m);
    } else {
      assert fs[..m] == fs;
    }
  }

  lemma {:induction false} AgreedSums(fs: seq<File>, tally: seq<Announced>)
    requires |tally| == |fs| && forall k | 0 <= k < |tally| :: tally[k].count == DataCount(fs[k])
    ensures Sum(tally) == CountAll(fs)
  {
    if fs == [] {
    } else {
      AgreedSums(fs[..|fs| - 1], tally[..|fs| - 1]);
    }
  }

  lemma AgreedTotal(fs: seq<File>, tally: seq<Announced>, pending: nat)
    requires Agrees(fs, tally, pending)
    ensures Sum(tally) + pending == CountAll(fs)
  {
    var m := |tally| - 1;
    EmptyFilesCount(fs, m + 1);
    assert fs[..m + 1][..m] == fs[..m];
    AgreedSums(fs[..m], tally[..m]);
  }

  /** Reported and pending packets are those captured, unless nothing is to be reported. */
  ghost predicate AddsUp(cfg: Config, w: State) {
    if cfg.quiet then Reported(w.messages) == 0 else Reported(w.messages) + w.n.inpkts == w.n.packetsCaptured
  }

  lemma ReportedOneMore(messages: seq<Message>, m: Message)
    ensures Reported(messages + [m]) == Reported(messages) + CountIn(m)
  {
    assert (messages + [m])[..|messages + [m]| - 1] == messages;
  }

  lemma ReportAddsUp(cfg: Config, w: State)
    requires AddsUp(cfg, w)
    ensures AddsUp(cfg, ReportCount(cfg, w))
  {
    ReportedOneMore(w.messages, PacketCount(w.n.inpkts));
  }

  lemma AnnounceAddsUp(cfg: Config, w: State)
    requires w.files != [] && AddsUp(cfg, w)
    ensures AddsUp(cfg, ReportFile(cfg, w))
  {
    ReportedOneMore(w.messages, NewFile(|w.files| - 1));
  }

  lemma SwitchAddsUp(cfg: Config, w: State, disk: Disk)
    requires w.files != [] && AddsUp(cfg, w)
    ensures AddsUp(cfg, SwitchOrStop(cfg, w, disk))
  {
    var w2 := StartFile(cfg, CountFile(cfg, w), disk);
    ReportAddsUp(cfg, w2);
    AnnounceAddsUp(cfg, ReportCount(cfg, w2));
  }

  lemma PacketAddsUp(cfg: Config, w: State, o: Out, disk: Disk)
    requires w.files != [] && AddsUp(cfg, w)
    ensures AddsUp(cfg, WroteOnePacket(cfg, Put(cfg, w, o), disk))
  {
    var w1 := Put(cfg, w, o);
    SwitchAddsUp(cfg, w1.(n := CountPacket(w1.n)), disk);
  }

  lemma OtherBlockAddsUp(cfg: Config, w: State, block: Block, disk: Disk)
    requires w.files != [] && AddsUp(cfg, w) && !block.IsData()
    ensures AddsUp(cfg, BlockWritten(cfg, w, block, disk))
  {
    if w.unannounced.Some? {
      ReportedOneMore(w.messages, NewFile(w.unannounced.value));
    }
  }

  lemma BlockAddsUp(cfg: Config, w: State, src: nat, block: Block, disk: Disk)
    requires w.files != [] && src < |w.ids.maps| && AddsUp(cfg, w)
    ensures AddsUp(cfg, WriteBlock(cfg, w, src, block, disk))
  {
    if BlockFate(cfg, w, src, block, disk) != Written {
      BlockNotWritten(cfg, w, src, block, disk);
    } else {
      var o := Copied(Adjusted(cfg, w.ids, src, block).value);
      if block.IsData() {
        PacketBlockWritten(cfg, w, src, block, disk);
        PacketAddsUp(cfg, w, o, disk);
      } else {
        OtherBlockAddsUp(cfg, Put(cfg, w.(ids := Collect(cfg, w.ids, src, block)), o), block, disk);
      }
    }
  }

  lemma UpdateAddsUp(cfg: Config, w: State, clock: Clock, first: Disk, second: Disk)
    requires w.files != [] && AddsUp(cfg, w)
    ensures AddsUp(cfg, Update(cfg, w, clock, first, second))
  {
    var w1 := ReportCount(cfg, w);
    ReportAddsUp(cfg, w);
    SwitchAddsUp(cfg, w1, first);
    SwitchAddsUp(cfg, if clock.fileDuration then SwitchOrStop(cfg, w1, first) else w1, second);
  }

  lemma StepAddsUp(cfg: Config, w: State, op: Op)
    requires w.Shaped(cfg) && OpFits(cfg, op) && AddsUp(cfg, w)
    ensures AddsUp(cfg, Apply(cfg, w, op))
  {
    if !w.aborted {
      match op
      case BlockOp(src, block, disk) => BlockAddsUp(cfg, w, src, block, disk);
      case PacketOp(src, packet, disk) =>
        if PacketFate(cfg, w, disk) == Written {
          PacketAddsUp(cfg, w, PacketOut(cfg, src, packet), disk);
        }
      case UpdateOp(clock, first, second) => UpdateAddsUp(cfg, w, clock, first, second);
      case StopOp =>
    }
  }

  lemma StartAddsUp(cfg: Config)
    ensures AddsUp(cfg, Start(cfg))
  {
    AnnounceAddsUp(cfg, StartFile(cfg, Opened(cfg), Disk(true, true, |HeaderBlocks(cfg, Opened(cfg).ids)|)));
  }

  lemma {:induction false} AlwaysAddsUp(cfg: Config, ops: seq<Op>)
    requires OpsFit(cfg, ops)
    ensures AddsUp(cfg, Run(cfg, ops))
  {
    if ops == [] {
      StartAddsUp(cfg);
    } else {
      var before, op := ops[..|ops| - 1], ops[|ops| - 1];
      AlwaysAddsUp(cfg, before);
      StepAddsUp(cfg, Run(cfg, before), op);
      assert Run(cfg, ops) == Apply(cfg, Run(cfg, before), op);
    }
  }

  /** In every run of a child that reports, passing a stream through or not: the counts reported and
      those yet to be reported are the packets captured. */
  lemma ReportedPlusPending(cfg: Config, ops: seq<Op>)
    requires cfg.Valid() && !cfg.quiet && OpsFit(cfg, ops)
    ensures var w := Run(cfg, ops); Reported(w.messages) + w.n.inpkts == w.n.packetsCaptured == CountAll(w.files)
  {
    AlwaysAddsUp(cfg, ops);
    LimitsHold(cfg, ops);
  }

  /** At the end all of them have been reported. */
  lemma AllReported(cfg: Config, ops: seq<Op>)
    requires cfg.Valid() && !cfg.quiet && OpsFit(cfg, ops)
    ensures var w := Finish(cfg, Run(cfg, ops)); Reported(w.messages) == CountAll(w.files) && w.n.inpkts == 0
  {
    ReportedPlusPending(cfg, ops);
    ReportAddsUp(cfg, Run(cfg, ops).(go := false));
  }

  /** A child that is to be quiet reports no packets. */
  lemma QuietReportsNothing(cfg: Config, ops: seq<Op>)
    requires cfg.quiet && OpsFit(cfg, ops)
    ensures Reported(Finish(cfg, Run(cfg, ops)).messages) == 0
  {
    AlwaysAddsUp(cfg, ops);
  }

  // Update ticks

  ghost predicate OnlyAnnounces(before: seq<Message>, after: seq<Message>) {
    before <= after && forall i | |before| <= i < |after| :: after[i].NewFile?
  }

  lemma SwitchOnlyAnnounces(cfg: Config, w: State, disk: Disk)
    requires w.files != [] && w.n.inpkts == 0
    ensures OnlyAnnounces(w.messages, SwitchOrStop(cfg, w, disk).messages) && SwitchOrStop(cfg, w, disk).n.inpkts == 0
  {
  }

  lemma UpdateOutcome(cfg: Config, w: State, clock: Clock, first: Disk, second: Disk)
    requires w.files != []
    ensures var w1 := Update(cfg, w, clock, first, second);
            && w1.n.inpkts == 0
            && OnlyAnnounces(w.messages + (if w.n.inpkts > 0 && !cfg.quiet then [PacketCount(w.n.inpkts)] else []), w1.messages)
  {
    var w1 := ReportCount(cfg, w);
    assert w.messages + [] == w.messages;
    SwitchOnlyAnnounces(cfg, w1, first);
    SwitchOnlyAnnounces(cfg, if clock.fileDuration then SwitchOrStop(cfg, w1, first) else w1, second);
  }

  /** An update tick reports all packets that are pending, before anything else, and leaves none. */
  lemma UpdateReports(cfg: Config, ops: seq<Op>, clock: Clock, first: Disk, second: Disk)
    requires cfg.Valid() && !cfg.quiet && OpsFit(cfg, ops)
    ensures var w := Run(cfg, ops); var w1 := Update(cfg, w, clock, first, second);
            var pending := CountAll(w.files) - Reported(w.messages);
            && w1.n.inpkts == 0
            && OnlyAnnounces(w.messages + (if pending > 0 then [PacketCount(pending)] else []), w1.messages)
  {
    ReportedPlusPending(cfg, ops);
    UpdateOutcome(cfg, Run(cfg, ops), clock, first, second);
  }

  /** When the capture has ended, every file announced has been reported in full, and all packets
      are in those files. */
  lemma EverythingReported(cfg: Config, ops: seq<Op>)
    requires cfg.Valid() && Speaks(cfg) && OpsFit(cfg, ops)
    ensures var w := Finish(cfg, Run(cfg, ops)); var tally := Tally(w.messages);
            && |tally| <= |w.files|
            && (forall k | 0 <= k < |tally| :: tally[k] == Announced(k, DataCount(w.files[k])))
            && Sum(tally) == w.n.packetsCaptured
  {
    ReportedPlusPending(cfg, ops);
    ReportsAttributed(cfg, ops);
    var w := Run(cfg, ops).(go := false);
    ReportKeepsInv(cfg, w);
    AgreedTotal(w.files, Tally(Finish(cfg, Run(cfg, ops)).messages), 0);
  }
}
