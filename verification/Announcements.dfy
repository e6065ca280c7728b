/** Which files the parent hears of when one pcapng stream is passed through. */
module Announcements {
  import opened Bytes
  import opened Framing
  import opened Sections
  import opened Writer
  import opened Passthrough

  /** The files announced, in order. */
  function Announced(messages: seq<Message>): seq<nat> {
    if messages == [] then []
    else if messages[|messages| - 1].NewFile? then Announced(messages[..|messages| - 1]) + [messages[|messages| - 1].index]
    else Announced(messages[..|messages| - 1])
  }

  /** The files into which a section header of the stream has been written, each once. */
  function HeaderFiles(cfg: Config, ops: seq<Op>): seq<nat>
    requires OpsFit(cfg, ops)
  {
    if ops == [] then []
    else
      var before, op := ops[..|ops| - 1], ops[|ops| - 1];
      var w := Run(cfg, before);
      if IsHeaderWritten(cfg, w, op) then WithFile(HeaderFiles(cfg, before), |w.files| - 1) else HeaderFiles(cfg, before)
  }

  predicate IsHeaderWritten(cfg: Config, w: State, op: Op)
    requires w.Shaped(cfg) && OpFits(cfg, op)
  {
    op.BlockOp? && op.block.Shb? && FateOf(cfg, w, op) == Written
  }

  predicate IsLast(files: seq<nat>, i: nat) {
    files != [] && files[|files| - 1] == i
  }

  function WithFile(files: seq<nat>, i: nat): seq<nat> {
    if IsLast(files, i) then files else files + [i]
  }

  // The invariant

  predicate Increasing(files: seq<nat>) {
    forall j, k | 0 <= j < k < |files| :: files[j] < files[k]
  }

  /** The files announced are those with a header; the current one waits to be announced unless it is
      one of them. */
  ghost predicate Inv(w: State, headers: seq<nat>) {
    && w.files != [] && Announced(w.messages) == headers && Increasing(headers)
    && (headers != [] ==> headers[|headers| - 1] < |w.files|)
    && (w.open ==> w.unannounced == if IsLast(headers, |w.files| - 1) then None else Some(|w.files| - 1))
  }

  lemma AnnouncedOne(messages: seq<Message>, m: Message)
    ensures Announced(messages + [m]) == if m.NewFile? then Announced(messages) + [m.index] else Announced(messages)
  {
    assert (messages + [m])[..|messages + [m]| - 1] == messages;
  }

  lemma ReportKeepsInv(cfg: Config, w: State, headers: seq<nat>)
    requires Inv(w, headers)
    ensures Inv(ReportCount(cfg, w), headers)
  {
    AnnouncedOne(w.messages, PacketCount(w.n.inpkts));
  }

  /** A new file waits to be announced. */
  lemma NextFileKeepsInv(cfg: Config, w: State, disk: Disk, headers: seq<nat>)
    requires cfg.Passthrough() && Inv(w, headers)
    ensures Inv(ReportFile(cfg, ReportCount(cfg, StartFile(cfg, w, disk))), headers)
  {
    AnnouncedOne(w.messages, PacketCount(w.n.inpkts));
  }

  lemma SwitchKeepsInv(cfg: Config, w: State, disk: Disk, headers: seq<nat>)
    requires cfg.Passthrough() && Inv(w, headers)
    ensures Inv(SwitchOrStop(cfg, w, disk), headers)
  {
    var w1 := CountFile(cfg, w);
    if Switches(cfg, w, disk) {
      NextFileKeepsInv(cfg, w1, disk, headers);
    } else if cfg.multiFiles && w.open && !Reached(cfg.autostopFiles, w1.n.fileCount) && disk.switched {
      assert SwitchOrStop(cfg, w, disk) == StartFile(cfg, w1, disk).(open := false, go := false);
    } else {
      assert SwitchOrStop(cfg, w, disk).files == w.files && SwitchOrStop(cfg, w, disk).messages == w.messages;
    }
  }

  lemma CountKeepsInv(cfg: Config, w: State, disk: Disk, headers: seq<nat>)
    requires cfg.Passthrough() && Inv(w, headers)
    ensures Inv(WroteOnePacket(cfg, w, disk), headers)
  {
    var w1 := w.(n := CountPacket(w.n));
    if !Enough(cfg, w1.n) && FileFull(cfg, w1.n) {
      SwitchKeepsInv(cfg, w1, disk, headers);
    }
  }

  lemma IncreasingWithFile(files: seq<nat>, i: nat)
    requires Increasing(files) && (files != [] ==> files[|files| - 1] <= i)
    ensures Increasing(WithFile(files, i)) && IsLast(WithFile(files, i), i)
  {
  }

  function Announce(w: State): State {
    match w.unannounced
    case Some(i) => w.(messages := w.messages + [NewFile(i)], unannounced := None)
    case None => w
  }

  lemma HeaderWritten(cfg: Config, w: State, block: Block, disk: Disk)
    requires w.files != [] && block.Shb?
    ensures BlockWritten(cfg, w, block, disk) == Announce(w)
  {
  }

  /** The first section header in a file announces it. */
  lemma HeaderKeepsInv(w: State, headers: seq<nat>)
    requires Inv(w, headers) && w.open
    ensures Inv(Announce(w), WithFile(headers, |w.files| - 1))
  {
    var i := |w.files| - 1;
    IncreasingWithFile(headers, i);
    if IsLast(headers, i) {
      assert Announce(w) == w && WithFile(headers, i) == headers;
    } else {
      assert w.unannounced == Some(i) && WithFile(headers, i) == headers + [i];
      AnnouncedOne(w.messages, NewFile(i));
    }
  }

  lemma BlockKeepsInv(cfg: Config, w: State, block: Block, disk: Disk, headers: seq<nat>)
    requires PassesThrough(cfg) && |w.ids.maps| == 1 && Inv(w, headers)
    ensures Inv(WriteBlock(cfg, w, 0, block, disk),
                if BlockFate(cfg, w, 0, block, disk) == Written && block.Shb? then WithFile(headers, |w.files| - 1)
                else headers)
  {
    if BlockFate(cfg, w, 0, block, disk) == Written {
      var w1 := Put(cfg, w.(ids := Collect(cfg, w.ids, 0, block)), Copied(block));
      assert WriteBlock(cfg, w, 0, block, disk) == BlockWritten(cfg, w1, block, disk);
      if block.Shb? {
        HeaderWritten(cfg, w1, block, disk);
        HeaderKeepsInv(w1, headers);
      } else if block.IsData() {
        CountKeepsInv(cfg, w1, disk, headers);
      }
    }
  }

  lemma UpdateKeepsInv(cfg: Config, w: State, clock: Clock, first: Disk, second: Disk, headers: seq<nat>)
    requires cfg.Passthrough() && Inv(w, headers)
    ensures Inv(Update(cfg, w, clock, first, second), headers)
  {
    var w1 := ReportCount(cfg, w);
    ReportKeepsInv(cfg, w, headers);
    SwitchKeepsInv(cfg, w1, first, headers);
    SwitchKeepsInv(cfg, if clock.fileDuration then SwitchOrStop(cfg, w1, first) else w1, second, headers);
  }

  lemma StepKeepsInv(cfg: Config, w: State, op: Op, headers: seq<nat>)
    requires PassesThrough(cfg) && w.Shaped(cfg) && OpFits(cfg, op) && Inv(w, headers)
    ensures Inv(Apply(cfg, w, op), if IsHeaderWritten(cfg, w, op) then WithFile(headers, |w.files| - 1) else headers)
  {
    if !w.aborted {
      match op
      case BlockOp(src, block, disk) => BlockKeepsInv(cfg, w, block, disk, headers);
      case UpdateOp(clock, first, second) => UpdateKeepsInv(cfg, w, clock, first, second, headers);
      case StopOp =>
    }
  }

  /** In every run the files announced are exactly those into which a section header of the stream has
      been written, in order and each once. */
  lemma {:induction false} AnnouncedAreHeaderFiles(cfg: Config, ops: seq<Op>)
    requires PassesThrough(cfg) && OpsFit(cfg, ops)
    ensures Inv(Run(cfg, ops), HeaderFiles(cfg, ops))
  {
    if ops == [] {
      assert Start(cfg).messages == [];
    } else {
      var before, op := ops[..|ops| - 1], ops[|ops| - 1];
      AnnouncedAreHeaderFiles(cfg, before);
      StepKeepsInv(cfg, Run(cfg, before), op, HeaderFiles(cfg, before));
    }
  }

  lemma {:induction false} AnnouncedMembers(messages: seq<Message>, i: nat)
    ensures NewFile(i) in messages <==> i in Announced(messages)
  {
    if messages == [] {
    } else {
      AnnouncedMembers(messages[..|messages| - 1], i);
      assert messages == messages[..|messages| - 1] + [messages[|messages| - 1]];
    }
  }

  /** A file is announced if and only if a section header of the stream has been written into it. */
  lemma AnnouncedIff(cfg: Config, ops: seq<Op>, i: nat)
    requires PassesThrough(cfg) && OpsFit(cfg, ops)
    ensures NewFile(i) in Run(cfg, ops).messages <==> i in HeaderFiles(cfg, ops)
  {
    AnnouncedAreHeaderFiles(cfg, ops);
    AnnouncedMembers(Run(cfg, ops).messages, i);
  }

  // Few headers, few announcements

  function Headers(s: seq<Block>): nat {
    if s == [] then 0 else Headers(s[..|s| - 1]) + if s[|s| - 1].Shb? then 1 else 0
  }

  lemma HeadersOneMore(s: seq<Block>, block: Block)
    ensures Headers(s + [block]) == Headers(s) + if block.Shb? then 1 else 0
  {
    assert (s + [block])[..|s + [block]| - 1] == s;
  }

  lemma {:induction false} FewHeaderFiles(cfg: Config, ops: seq<Op>)
    requires OpsFit(cfg, ops)
    ensures |HeaderFiles(cfg, ops)| <= Headers(WrittenBlocks(cfg, ops))
  {
    if ops == [] {
    } else {
      var before, op := ops[..|ops| - 1], ops[|ops| - 1];
      FewHeaderFiles(cfg, before);
      var s := WrittenBlocks(cfg, before);
      if op.BlockOp? {
        HeadersOneMore(s, op.block);
      }
      assert s + [] == s;
    }
  }

  /** Of a stream with one section at most one file is announced, however many it is cut into. */
  lemma AnnouncedAtHeadersOnly(cfg: Config, ops: seq<Op>)
    requires PassesThrough(cfg) && OpsFit(cfg, ops)
    ensures |Announced(Run(cfg, ops).messages)| <= Headers(WrittenBlocks(cfg, ops))
  {
    AnnouncedAreHeaderFiles(cfg, ops);
    FewHeaderFiles(cfg, ops);
  }

  // A file that is not announced

  lemma HeaderFilesOneMore(cfg: Config, ops: seq<Op>, op: Op)
    requires OpsFit(cfg, ops) && OpFits(cfg, op)
    ensures OpsFit(cfg, ops + [op])
    ensures HeaderFiles(cfg, ops + [op])
         == if IsHeaderWritten(cfg, Run(cfg, ops), op) then WithFile(HeaderFiles(cfg, ops), |Run(cfg, ops).files| - 1)
            else HeaderFiles(cfg, ops)
  {
    assert (ops + [op])[..|ops + [op]| - 1] == ops;
  }

  lemma OneHeaderFile(cfg: Config, a: Op, b: Op)
    requires OpFits(cfg, a) && OpFits(cfg, b) && IsHeaderWritten(cfg, Start(cfg), a) && |Start(cfg).files| == 1
    requires !(b.BlockOp? && b.block.Shb?)
    ensures HeaderFiles(cfg, [a, b]) == [0]
  {
    assert [] + [a] == [a] && [a] + [b] == [a, b];
    HeaderFilesOneMore(cfg, [], a);
    HeaderFilesOneMore(cfg, [a], b);
  }

  lemma FirstHeader(cfg: Config, shb: seq<byte>)
    requires PassesThrough(cfg)
    ensures IsHeaderWritten(cfg, Start(cfg), BlockOp(0, Block.Shb(shb), Disk(true, true, 1))) && |Start(cfg).files| == 1
    ensures var w := Apply(cfg, Start(cfg), BlockOp(0, Block.Shb(shb), Disk(true, true, 1)));
            && w.go && w.open && !w.aborted && |w.files| == 1 && w.n.packetsWritten == 0 && w.n.packetsCaptured == 0
            && HeaderBlocks(cfg, w.ids) == [Copied(Block.Shb(shb))]
  {
    var w := Start(cfg);
    assert w.files == [[]];
    var w1 := Apply(cfg, w, BlockOp(0, Block.Shb(shb), Disk(true, true, 1)));
    assert w1.ids.savedIdbs == [] && IdbBlocks(cfg, []) == [];
  }

  lemma SecondFileBegun(cfg: Config, w: State, shb: seq<byte>, spb: seq<byte>)
    requires PassesThrough(cfg) && cfg.multiFiles && cfg.filePackets == Some(1) && w.Shaped(cfg)
    requires cfg.autostopPackets == cfg.autostopWrittenPackets == cfg.autostopFiles == None
    requires w.go && w.open && !w.aborted && HeaderBlocks(cfg, w.ids) == [Copied(Block.Shb(shb))]
    ensures var w1 := Apply(cfg, w, BlockOp(0, Spb(spb), Disk(true, true, 1)));
            |w1.files| == |w.files| + 1 && w1.Last() == [Copied(Block.Shb(shb))] && w1.go
  {
  }

  lemma SecondFileRun(cfg: Config, a: Op, b: Op)
    requires OpFits(cfg, a) && OpFits(cfg, b)
    ensures Run(cfg, [a, b]) == Apply(cfg, Apply(cfg, Start(cfg), a), b)
  {
    assert [] + [a] == [a] && [a] + [b] == [a, b];
    RunOneMore(cfg, [], a);
    RunOneMore(cfg, [a], b);
  }

  /** A section header and a packet, with one packet to a file: there are two files, the second starts
      with the saved header, and only the first is announced. */
  lemma SecondFileNotAnnounced(cfg: Config, shb: seq<byte>, spb: seq<byte>)
    requires PassesThrough(cfg) && cfg.multiFiles && cfg.filePackets == Some(1)
    requires cfg.autostopPackets == cfg.autostopWrittenPackets == cfg.autostopFiles == None
    ensures var disk := Disk(true, true, 1);
            var w := Run(cfg, [BlockOp(0, Block.Shb(shb), disk), BlockOp(0, Spb(spb), disk)]);
            && |w.files| == 2 && w.Last() == [Copied(Block.Shb(shb))] && w.go
            && NewFile(0) in w.messages && NewFile(1) !in w.messages
  {
    var disk := Disk(true, true, 1);
    var a, b := BlockOp(0, Block.Shb(shb), disk), BlockOp(0, Spb(spb), disk);
    FirstHeader(cfg, shb);
    SecondFileBegun(cfg, Apply(cfg, Start(cfg), a), shb, spb);
    SecondFileRun(cfg, a, b);
    OneHeaderFile(cfg, a, b);
    AnnouncedIff(cfg, [a, b], 0);
    AnnouncedIff(cfg, [a, b], 1);
  }
}
