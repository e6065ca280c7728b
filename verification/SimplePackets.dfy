/** Simple packet blocks of several sources in one pcapng output. They carry no interface id, and
    belong to the first interface of their section; they are copied as they are. */
module SimplePackets {
  import opened Bytes
  import opened Framing
  import opened Sections
  import opened Writer
  import opened Multiplexing

  // The first description of the current file

  function FirstSaved(ids: Ids): Option<Desc> {
    if ids.savedIdbs == [] then None else Some(DescOf(ids.savedIdbs[0]))
  }

  /** It is what was saved first when the file was begun, if anything was, and else the first
      description copied into the file. */
  function FirstAfter(cfg: Config, w: State, op: Op, first: Option<Desc>): Option<Desc>
    requires w.Shaped(cfg) && OpFits(cfg, op)
  {
    if |Apply(cfg, w, op).files| > |w.files| then FirstSaved(w.ids)
    else if first.None? && op.BlockOp? && op.block.Idb? && FateOf(cfg, w, op) == Written then Some(FromStream(op.block.raw))
    else first
  }

  function FirstDescribed(cfg: Config, ops: seq<Op>): Option<Desc>
    requires OpsFit(cfg, ops)
  {
    if ops == [] then FirstSaved(Opened(cfg).ids)
    else FirstAfter(cfg, Run(cfg, ops[..|ops| - 1]), ops[|ops| - 1], FirstDescribed(cfg, ops[..|ops| - 1]))
  }

  ghost predicate FirstInv(w: State, first: Option<Desc>) {
    w.files != [] && (w.go && !w.aborted ==> w.open && Resolve(DecodeFile(w.Last()).section, 0) == first)
  }

  // New files

  function DescsOf(idbs: seq<SavedIdb>): (r: seq<Desc>)
    ensures |r| == |idbs| && forall j | 0 <= j < |idbs| :: r[j] == DescOf(idbs[j])
  {
    seq(|idbs|, j requires 0 <= j < |idbs| => DescOf(idbs[j]))
  }

  lemma OneMoreIdb(cfg: Config, f: File, idbs: seq<SavedIdb>)
    requires idbs != [] && idbs[|idbs| - 1].owner < |cfg.pcapng|
    requires DecodeFile(f).section == DescsOf(idbs[..|idbs| - 1])
    ensures DecodeFile(f + IdbBlock(cfg, idbs[|idbs| - 1])).section == DescsOf(idbs)
  {
    var e, section := idbs[|idbs| - 1], DecodeFile(f).section;
    IdbBlockDecodes(cfg, e, section);
    assert IdbBlock(cfg, e) == [IdbBlock(cfg, e)[0]];
    DecodeAppended(f, IdbBlock(cfg, e)[0]);
    assert DescsOf(idbs) == section + [DescOf(e)];
  }

  /** A file begun with the saved descriptions has exactly those, and dummies for deleted ones. */
  lemma {:induction false} IdbsDescribe(cfg: Config, idbs: seq<SavedIdb>)
    requires forall j | 0 <= j < |idbs| :: idbs[j].owner < |cfg.pcapng|
    ensures DecodeFile([OwnShb] + IdbBlocks(cfg, idbs)).section == DescsOf(idbs)
  {
    if idbs == [] {
      assert [OwnShb] + IdbBlocks(cfg, idbs) == [] + [OwnShb];
      DecodeAppended([], OwnShb);
    } else {
      var n := |idbs| - 1;
      IdbsDescribe(cfg, idbs[..n]);
      OneMoreIdb(cfg, [OwnShb] + IdbBlocks(cfg, idbs[..n]), idbs);
      Associate([OwnShb], IdbBlocks(cfg, idbs[..n]), IdbBlock(cfg, idbs[n]));
    }
  }

  lemma NewFileFirst(cfg: Config, ids: Ids, sections: SourceSections, disk: Disk)
    requires cfg.Multiplexing() && IdsInv(cfg, ids, sections) && HeaderFits(cfg, ids, disk)
    ensures Resolve(DecodeFile(FirstBlocks(cfg, ids, disk)).section, 0) == FirstSaved(ids)
  {
    IdbsDescribe(cfg, ids.savedIdbs);
  }

  // Every step

  function IfSwitched(w: State, w1: State, first: Option<Desc>): Option<Desc> {
    if |w1.files| > |w.files| then FirstSaved(w.ids) else first
  }

  lemma SwitchKeepsFirst(cfg: Config, w: State, disk: Disk, sections: SourceSections, first: Option<Desc>)
    requires cfg.Multiplexing() && IdsInv(cfg, w.ids, sections) && FirstInv(w, first)
    ensures FirstInv(SwitchOrStop(cfg, w, disk), IfSwitched(w, SwitchOrStop(cfg, w, disk), first))
    ensures |SwitchOrStop(cfg, w, disk).files| >= |w.files|
  {
    if Switches(cfg, w, disk) {
      NewFileFirst(cfg, w.ids, sections, disk);
    } else {
      assert !SwitchOrStop(cfg, w, disk).go;
    }
  }

  lemma CountKeepsFirst(cfg: Config, w: State, disk: Disk, sections: SourceSections, first: Option<Desc>)
    requires cfg.Multiplexing() && IdsInv(cfg, w.ids, sections) && FirstInv(w, first)
    ensures FirstInv(WroteOnePacket(cfg, w, disk), IfSwitched(w, WroteOnePacket(cfg, w, disk), first))
  {
    var w1 := w.(n := CountPacket(w.n));
    if !Enough(cfg, w1.n) && FileFull(cfg, w1.n) {
      SwitchKeepsFirst(cfg, w1, disk, sections, first);
    }
  }

  lemma UpdateKeepsFirst(cfg: Config, w: State, clock: Clock, one: Disk, two: Disk, sections: SourceSections,
                         first: Option<Desc>)
    requires cfg.Multiplexing() && IdsInv(cfg, w.ids, sections) && FirstInv(w, first)
    ensures FirstInv(Update(cfg, w, clock, one, two), IfSwitched(w, Update(cfg, w, clock, one, two), first))
  {
    var w1 := ReportCount(cfg, w);
    SwitchKeepsFirst(cfg, w1, one, sections, first);
    if clock.fileDuration {
      var w2 := SwitchOrStop(cfg, w1, one);
      SwitchKeepsFirst(cfg, w2, two, sections, IfSwitched(w1, w2, first));
    } else {
      SwitchKeepsFirst(cfg, w1, two, sections, first);
    }
  }

  lemma PutKeepsFirst(cfg: Config, w: State, o: Out, first: Option<Desc>)
    requires FirstInv(w, first) && w.go && !w.aborted && (o.PacketBlock? || (o.Copied? && !o.block.Shb?))
    ensures FirstInv(Put(cfg, w, o), if first.None? && o.Copied? && o.block.Idb? then Some(FromStream(o.block.raw)) else first)
  {
    DecodeFilesAppended(w.files, o);
  }

  lemma BlockKeepsFirst(cfg: Config, w: State, src: nat, block: Block, disk: Disk, sections: SourceSections,
                        first: Option<Desc>)
    requires cfg.Multiplexing() && Inv(cfg, w, sections) && w.Shaped(cfg) && src < |cfg.pcapng| && cfg.pcapng[src] && !w.aborted
    requires FirstInv(w, first)
    ensures FirstInv(WriteBlock(cfg, w, src, block, disk), FirstAfter(cfg, w, BlockOp(src, block, disk), first))
  {
    if BlockFate(cfg, w, src, block, disk) == Written {
      var o := Copied(Adjusted(cfg, w.ids, src, block).value);
      var w1 := Put(cfg, w.(ids := Collect(cfg, w.ids, src, block)), o);
      PutKeepsFirst(cfg, w.(ids := Collect(cfg, w.ids, src, block)), o, first);
      assert WriteBlock(cfg, w, src, block, disk) == BlockWritten(cfg, w1, block, disk);
      if block.IsData() {
        CountKeepsFirst(cfg, w1, disk, sections, first);
      }
    } else {
      assert WriteBlock(cfg, w, src, block, disk).files == w.files;
    }
  }

  lemma StepKeepsFirst(cfg: Config, w: State, op: Op, sections: SourceSections, first: Option<Desc>)
    requires cfg.Multiplexing() && Inv(cfg, w, sections) && w.Shaped(cfg) && OpFits(cfg, op) && FirstInv(w, first)
    ensures FirstInv(Apply(cfg, w, op), FirstAfter(cfg, w, op, first))
  {
    if !w.aborted {
      match op
      case BlockOp(src, block, disk) => BlockKeepsFirst(cfg, w, src, block, disk, sections, first);
      case PacketOp(src, packet, disk) =>
        if PacketFate(cfg, w, disk) == Written {
          var o := PacketOut(cfg, src, packet);
          PutKeepsFirst(cfg, w, o, first);
          CountKeepsFirst(cfg, Put(cfg, w, o), disk, sections, first);
        }
      case UpdateOp(clock, one, two) => UpdateKeepsFirst(cfg, w, clock, one, two, sections, first);
      case StopOp =>
    }
  }

  /** In every run, the first description of the current file is the one that was first when it was
      written, even if it has been deleted since. */
  lemma {:induction false} FirstDescriptionKept(cfg: Config, ops: seq<Op>)
    requires cfg.Multiplexing() && OpsFit(cfg, ops)
    ensures FirstInv(Run(cfg, ops), FirstDescribed(cfg, ops))
  {
    if ops == [] {
      StartInv(cfg);
      var ids := Opened(cfg).ids;
      NewFileFirst(cfg, ids, Meant(cfg, []).sections, Disk(true, true, |HeaderBlocks(cfg, ids)|));
    } else {
      var before := ops[..|ops| - 1];
      FirstDescriptionKept(cfg, before);
      AttributionPreserved(cfg, before);
      StepKeepsFirst(cfg, Run(cfg, before), ops[|ops| - 1], Meant(cfg, before).sections, FirstDescribed(cfg, before));
    }
  }

  // What simple packets are attributed to

  /** While a capture goes on, a simple packet block that is written is attributed to the first
      description of the current file. */
  lemma SimplePacketRead(cfg: Config, ops: seq<Op>, src: nat, raw: seq<byte>, disk: Disk)
    requires cfg.Multiplexing() && OpsFit(cfg, ops) && src < |cfg.pcapng| && cfg.pcapng[src]
    requires Run(cfg, ops).go && !Run(cfg, ops).aborted && disk.write
    ensures var w := Run(cfg, ops);
            DecodeFiles(WriteBlock(cfg, w, src, Spb(raw), disk).files)
            == DecodeFiles(w.files) + [Attribution(SpbItem(raw), FirstDescribed(cfg, ops))]
  {
    var w, o := Run(cfg, ops), Copied(Spb(raw));
    FirstDescriptionKept(cfg, ops);
    AttributionPreserved(cfg, ops);
    PutBlockKeepsInv(cfg, w, Meant(cfg, ops).sections, src, Spb(raw));
    DecodeFilesAppended(w.files, o);
    assert WriteBlock(cfg, w, src, Spb(raw), disk) == WroteOnePacket(cfg, Put(cfg, w, o), disk);
    CountKeepsInv(cfg, Put(cfg, w, o), disk, Meant(cfg, ops).sections);
  }

  /** That is the first interface of the block's own section, or none if there is none, if and only if
      the current file begins with the same. */
  lemma SimplePacketsResolveIff(cfg: Config, ops: seq<Op>, src: nat, raw: seq<byte>)
    requires cfg.Multiplexing() && OpsFit(cfg, ops) && src < |cfg.pcapng| && cfg.pcapng[src]
    requires Run(cfg, ops).go && !Run(cfg, ops).aborted
    ensures Attributed(DecodeFile(Run(cfg, ops).Last()).section, Copied(Spb(raw)))
            == [Attribution(SpbItem(raw), OwnDesc(Meant(cfg, ops).sections, src, 0))]
            <==> FirstDescribed(cfg, ops) == OwnDesc(Meant(cfg, ops).sections, src, 0)
  {
    FirstDescriptionKept(cfg, ops);
  }

  /** As long as the first saved description is live, it is what the current file begins with. */
  lemma FirstIsFirstSaved(cfg: Config, ops: seq<Op>)
    requires cfg.Multiplexing() && OpsFit(cfg, ops) && Run(cfg, ops).go && !Run(cfg, ops).aborted
    requires Run(cfg, ops).ids.savedIdbs != [] && !Run(cfg, ops).ids.savedIdbs[0].deleted
    ensures FirstDescribed(cfg, ops) == FirstSaved(Run(cfg, ops).ids)
  {
    FirstDescriptionKept(cfg, ops);
    AttributionPreserved(cfg, ops);
  }

  // A simple packet that is misattributed

  lemma DescriptionStep(cfg: Config, w: State, src: nat, raw: seq<byte>, disk: Disk)
    requires cfg.Multiplexing() && w.Shaped(cfg) && src < |cfg.pcapng| && cfg.pcapng[src]
    requires w.go && w.open && !w.aborted && disk.write
    ensures var op := BlockOp(src, Idb(raw), disk); var w1 := Apply(cfg, w, op);
            && FateOf(cfg, w, op) == Written && w1.go && w1.open && !w1.aborted && |w1.files| == |w.files|
  {
  }

  lemma OneMoreDescription(cfg: Config, ops: seq<Op>, src: nat, raw: seq<byte>)
    requires cfg.Multiplexing() && OpsFit(cfg, ops) && src < |cfg.pcapng| && cfg.pcapng[src]
    requires Run(cfg, ops).go && Run(cfg, ops).open && !Run(cfg, ops).aborted
    ensures var more := ops + [BlockOp(src, Idb(raw), Disk(true, true, 0))];
            && OpsFit(cfg, more) && Run(cfg, more).go && Run(cfg, more).open && !Run(cfg, more).aborted
            && Meant(cfg, more).sections == SectionsAfter(Meant(cfg, ops).sections, src, Idb(raw))
            && FirstDescribed(cfg, more) == if FirstDescribed(cfg, ops).None? then Some(FromStream(raw))
                                            else FirstDescribed(cfg, ops)
  {
    var op := BlockOp(src, Idb(raw), Disk(true, true, 0));
    assert (ops + [op])[..|ops + [op]| - 1] == ops;
    RunOneMore(cfg, ops, op);
    DescriptionStep(cfg, Run(cfg, ops), src, raw, op.disk);
  }

  lemma NothingDescribed(cfg: Config)
    requires cfg.pcapng == [true, true]
    ensures FirstDescribed(cfg, []) == None && Meant(cfg, []).sections == [[], []]
    ensures Run(cfg, []).go && Run(cfg, []).open && !Run(cfg, []).aborted
  {
    assert IdbId(cfg, 2) == IdbId(cfg, 1) == 0;
  }

  lemma TwoSections(sections: SourceSections, a: seq<byte>, b: seq<byte>)
    requires sections == [[], []]
    ensures SectionsAfter(SectionsAfter(sections, 0, Idb(a)), 1, Idb(b)) == [[a], [b]]
  {
    var none: seq<seq<byte>> := [];
    assert none + [a] == [a] && none + [b] == [b];
  }

  lemma TwoDescriptions(cfg: Config, a: seq<byte>, b: seq<byte>)
    requires cfg.pcapng == [true, true] && cfg.usePcapng
    ensures var disk := Disk(true, true, 0); var ops := [BlockOp(0, Idb(a), disk), BlockOp(1, Idb(b), disk)];
            && Run(cfg, ops).go && !Run(cfg, ops).aborted
            && FirstDescribed(cfg, ops) == Some(FromStream(a)) && Meant(cfg, ops).sections == [[a], [b]]
  {
    var disk := Disk(true, true, 0);
    var x, y := BlockOp(0, Idb(a), disk), BlockOp(1, Idb(b), disk);
    assert [] + [x] == [x] && [x] + [y] == [x, y];
    NothingDescribed(cfg);
    OneMoreDescription(cfg, [], 0, a);
    OneMoreDescription(cfg, [x], 1, b);
    TwoSections(Meant(cfg, []).sections, a, b);
  }

  /** Two sources describe an interface each; a simple packet of the second is attributed to the
      interface of the first. */
  lemma SimplePacketMisattributed(cfg: Config, a: seq<byte>, b: seq<byte>, raw: seq<byte>)
    requires cfg.pcapng == [true, true] && cfg.usePcapng && a != b
    ensures var disk := Disk(true, true, 0); var ops := [BlockOp(0, Idb(a), disk), BlockOp(1, Idb(b), disk)];
            var w := WriteBlock(cfg, Run(cfg, ops), 1, Spb(raw), disk);
            && Attribution(SpbItem(raw), Some(FromStream(a))) in DecodeFiles(w.files)
            && OwnDesc(Meant(cfg, ops).sections, 1, 0) == Some(FromStream(b)) != Some(FromStream(a))
  {
    var disk := Disk(true, true, 0);
    TwoDescriptions(cfg, a, b);
    SimplePacketRead(cfg, [BlockOp(0, Idb(a), disk), BlockOp(1, Idb(b), disk)], 1, raw, disk);
  }
}
