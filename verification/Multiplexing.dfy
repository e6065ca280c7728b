/** Several sources into one pcapng output: every packet written resolves, in its output file, to
    the interface its id meant in its own source. */
module Multiplexing {
  import opened Bytes
  import opened Framing
  import opened Sections
  import opened Writer

  // The invariant

  function DescOf(e: SavedIdb): Desc {
    if e.deleted then Dummy else if e.idb.Some? then FromStream(e.idb.value) else OfSource(e.owner)
  }

  /** A section of an output file has an entry for each saved description, and agrees with it as
      long as that is live. */
  ghost predicate Tracks(section: seq<Desc>, idbs: seq<SavedIdb>) {
    && |section| == |idbs|
    && (forall j | 0 <= j < |idbs| && !idbs[j].deleted :: section[j] == DescOf(idbs[j]))
  }

  /** The interfaces that the current section of a source describes, in its own numbering. */
  type SourceSections = seq<seq<seq<byte>>>

  /** Each id of a source's current section is mapped to a live entry of that source that holds its
      description. */
  ghost predicate Mapped(ids: Ids, sections: SourceSections, src: nat)
    requires src < |ids.maps| == |sections|
  {
    && |ids.maps[src]| == |sections[src]|
    && (forall k | 0 <= k < |sections[src]| ::
          ids.maps[src][k] < |ids.savedIdbs| && ids.savedIdbs[ids.maps[src][k]] == SavedIdb(false, src, Some(sections[src][k])))
    && (forall j, k | 0 <= j < k < |ids.maps[src]| :: ids.maps[src][j] < ids.maps[src][k])
  }

  ghost predicate IdsInv(cfg: Config, ids: Ids, sections: SourceSections) {
    && |ids.maps| == |sections| == |cfg.pcapng| && ids.savedShb.None?
    && (forall j | 0 <= j < |ids.savedIdbs| :: ids.savedIdbs[j].owner < |cfg.pcapng|)
    && (forall src | 0 <= src < |sections| :: Mapped(ids, sections, src))
    && (forall src | 0 <= src < |sections| && !cfg.pcapng[src] ::
          IdbId(cfg, src) < |ids.savedIdbs| && ids.savedIdbs[IdbId(cfg, src)] == SavedIdb(false, src, None))
  }

  ghost predicate Inv(cfg: Config, w: State, sections: SourceSections) {
    && w.files != [] && IdsInv(cfg, w.ids, sections)
    && (w.go && !w.aborted ==> w.open && Tracks(DecodeFile(w.Last()).section, w.ids.savedIdbs))
  }

  // What things mean in their own source

  function SectionsAfter(sections: SourceSections, src: nat, block: Block): (r: SourceSections)
    requires src < |sections|
    ensures |r| == |sections|
  {
    match block
    case Shb(_) => sections[src := []]
    case Idb(raw) => sections[src := sections[src] + [raw]]
    case _ => sections
  }

  function OwnDesc(sections: SourceSections, src: nat, id: nat): Option<Desc>
    requires src < |sections|
  {
    if id < |sections[src]| then Some(FromStream(sections[src][id])) else None
  }

  /** The attribution that an operation's packet or statistics block carries in its own source. */
  function OwnAttribution(cfg: Config, sections: SourceSections, op: Op): seq<Attribution>
    requires OpFits(cfg, op) && |sections| == |cfg.pcapng|
  {
    match op
    case BlockOp(src, Epb(id, rest), _) => [Attribution(EpbItem(rest), OwnDesc(sections, src, id))]
    case BlockOp(src, Isb(id, rest), _) => [Attribution(IsbItem(rest), OwnDesc(sections, src, id))]
    case PacketOp(src, packet, _) => [Attribution(PacketItem(packet), Some(OfSource(src)))]
    case _ => []
  }

  datatype Meaning = Meaning(sections: SourceSections, items: seq<Attribution>)

  function MeaningAfter(cfg: Config, m: Meaning, w: State, op: Op): (r: Meaning)
    requires w.Shaped(cfg) && OpFits(cfg, op) && |m.sections| == |cfg.pcapng|
    ensures |r.sections| == |cfg.pcapng|
  {
    var fate := FateOf(cfg, w, op);
    Meaning(if op.BlockOp? && fate != Flushed && fate != Aborted then SectionsAfter(m.sections, op.src, op.block) else m.sections,
            m.items + if fate == Written then OwnAttribution(cfg, m.sections, op) else [])
  }

  /** What a run's written packets meant where they came from. */
  function Meant(cfg: Config, ops: seq<Op>): (m: Meaning)
    requires OpsFit(cfg, ops)
    ensures |m.sections| == |cfg.pcapng|
  {
    if ops == [] then Meaning(seq(|cfg.pcapng|, _ => []), [])
    else
      var before := ops[..|ops| - 1];
      MeaningAfter(cfg, Meant(cfg, before), Run(cfg, before), ops[|ops| - 1])
  }

  // Headers of new files

  lemma IdbBlockDecodes(cfg: Config, e: SavedIdb, section: seq<Desc>)
    requires e.owner < |cfg.pcapng|
    ensures |IdbBlock(cfg, e)| == 1 && IdbBlock(cfg, e)[0].IsHeader()
    ensures SectionAfter(section, IdbBlock(cfg, e)[0]) == section + [DescOf(e)]
  {
  }

  lemma TracksOneMore(section: seq<Desc>, idbs: seq<SavedIdb>, e: SavedIdb)
    requires Tracks(section, idbs)
    ensures Tracks(section + [DescOf(e)], idbs + [e])
  {
  }

  lemma IdbBlockTracked(cfg: Config, f: File, idbs: seq<SavedIdb>)
    requires idbs != [] && idbs[|idbs| - 1].owner < |cfg.pcapng|
    requires Tracks(DecodeFile(f).section, idbs[..|idbs| - 1])
    ensures Tracks(DecodeFile(f + IdbBlock(cfg, idbs[|idbs| - 1])).section, idbs)
  {
    var e, section := idbs[|idbs| - 1], DecodeFile(f).section;
    IdbBlockDecodes(cfg, e, section);
    assert IdbBlock(cfg, e) == [IdbBlock(cfg, e)[0]];
    DecodeAppended(f, IdbBlock(cfg, e)[0]);
    TracksOneMore(section, idbs[..|idbs| - 1], e);
    assert idbs[..|idbs| - 1] + [e] == idbs;
  }

  lemma {:induction false} IdbBlocksDecode(cfg: Config, idbs: seq<SavedIdb>)
    requires forall j | 0 <= j < |idbs| :: idbs[j].owner < |cfg.pcapng|
    ensures Tracks(DecodeFile([OwnShb] + IdbBlocks(cfg, idbs)).section, idbs)
  {
    if idbs == [] {
      assert [OwnShb] + IdbBlocks(cfg, idbs) == [] + [OwnShb];
      DecodeAppended([], OwnShb);
    } else {
      var n := |idbs| - 1;
      IdbBlocksDecode(cfg, idbs[..n]);
      IdbBlockTracked(cfg, [OwnShb] + IdbBlocks(cfg, idbs[..n]), idbs);
      Associate([OwnShb], IdbBlocks(cfg, idbs[..n]), IdbBlock(cfg, idbs[n]));
    }
  }

  /** The start of a new file describes the saved interfaces, and attributes nothing; neither does
      part of it. */
  lemma HeaderDecodes(cfg: Config, ids: Ids, sections: SourceSections, disk: Disk)
    requires cfg.Multiplexing() && IdsInv(cfg, ids, sections)
    ensures HeaderFits(cfg, ids, disk) ==> Tracks(DecodeFile(FirstBlocks(cfg, ids, disk)).section, ids.savedIdbs)
    ensures forall i | 0 <= i < |FirstBlocks(cfg, ids, disk)| :: FirstBlocks(cfg, ids, disk)[i].IsHeader()
  {
    IdbBlocksDecode(cfg, ids.savedIdbs);
    FirstBlocksAreHeaders(cfg, ids, disk);
  }

  // Every step

  lemma NewFileKeepsInv(cfg: Config, w: State, disk: Disk, sections: SourceSections)
    requires cfg.Multiplexing() && Inv(cfg, w, sections)
    ensures w.open && HeaderFits(cfg, w.ids, disk) ==> Inv(cfg, StartFile(cfg, w, disk), sections)
    ensures DecodeFiles(StartFile(cfg, w, disk).files) == DecodeFiles(w.files)
  {
    HeaderDecodes(cfg, w.ids, sections, disk);
    DecodeFilesWithHeader(w.files, FirstBlocks(cfg, w.ids, disk));
  }

  /** Opening the next file, with everything that goes with it. */
  lemma NextFileKeepsInv(cfg: Config, w: State, disk: Disk, sections: SourceSections)
    requires cfg.Multiplexing() && Inv(cfg, w, sections) && w.open && HeaderFits(cfg, w.ids, disk)
    ensures var w1 := ReportFile(cfg, ReportCount(cfg, StartFile(cfg, w, disk)));
            Inv(cfg, w1, sections) && DecodeFiles(w1.files) == DecodeFiles(w.files)
  {
    NewFileKeepsInv(cfg, w, disk, sections);
  }

  /** Opening one, and failing to. */
  lemma FailedFileKeepsInv(cfg: Config, w: State, disk: Disk, sections: SourceSections)
    requires cfg.Multiplexing() && Inv(cfg, w, sections)
    ensures var w1 := StartFile(cfg, w, disk).(open := false, go := false);
            Inv(cfg, w1, sections) && DecodeFiles(w1.files) == DecodeFiles(w.files)
  {
    NewFileKeepsInv(cfg, w, disk, sections);
  }

  lemma SwitchKeepsInv(cfg: Config, w: State, disk: Disk, sections: SourceSections)
    requires cfg.Multiplexing() && Inv(cfg, w, sections)
    ensures Inv(cfg, SwitchOrStop(cfg, w, disk), sections)
    ensures DecodeFiles(SwitchOrStop(cfg, w, disk).files) == DecodeFiles(w.files)
  {
    var w1 := CountFile(cfg, w);
    if Switches(cfg, w, disk) {
      NextFileKeepsInv(cfg, w1, disk, sections);
    } else if cfg.multiFiles && w.open && !Reached(cfg.autostopFiles, w1.n.fileCount) && disk.switched {
      FailedFileKeepsInv(cfg, w1, disk, sections);
    } else {
      assert SwitchOrStop(cfg, w, disk).files == w.files && !SwitchOrStop(cfg, w, disk).go;
    }
  }

  lemma CountKeepsInv(cfg: Config, w: State, disk: Disk, sections: SourceSections)
    requires cfg.Multiplexing() && Inv(cfg, w, sections)
    ensures Inv(cfg, WroteOnePacket(cfg, w, disk), sections)
    ensures DecodeFiles(WroteOnePacket(cfg, w, disk).files) == DecodeFiles(w.files)
  {
    var w1 := w.(n := CountPacket(w.n));
    if !Enough(cfg, w1.n) && FileFull(cfg, w1.n) {
      SwitchKeepsInv(cfg, w1, disk, sections);
    }
  }

  lemma UpdateKeepsInv(cfg: Config, w: State, clock: Clock, first: Disk, second: Disk, sections: SourceSections)
    requires cfg.Multiplexing() && Inv(cfg, w, sections)
    ensures Inv(cfg, Update(cfg, w, clock, first, second), sections)
    ensures DecodeFiles(Update(cfg, w, clock, first, second).files) == DecodeFiles(w.files)
  {
    var w1 := ReportCount(cfg, w);
    SwitchKeepsInv(cfg, w1, first, sections);
    var w2 := if clock.fileDuration then SwitchOrStop(cfg, w1, first) else w1;
    SwitchKeepsInv(cfg, w2, second, sections);
  }

  /** A new section header of one source: its entries are deleted, nobody else's are. */
  lemma SectionHeaderKeepsIds(cfg: Config, ids: Ids, sections: SourceSections, src: nat, raw: seq<byte>)
    requires !cfg.Passthrough() && IdsInv(cfg, ids, sections) && src < |sections| && cfg.pcapng[src]
    ensures IdsInv(cfg, Collect(cfg, ids, src, Shb(raw)), sections[src := []])
    ensures |Collect(cfg, ids, src, Shb(raw)).savedIdbs| == |ids.savedIdbs|
    ensures forall j | 0 <= j < |ids.savedIdbs| ::
              Collect(cfg, ids, src, Shb(raw)).savedIdbs[j]
              == if j in ids.maps[src] then DELETED_IDB else ids.savedIdbs[j]
    ensures forall j | j in ids.maps[src] :: j < |ids.savedIdbs| && ids.savedIdbs[j].owner == src
  {
    var ids1 := Collect(cfg, ids, src, Shb(raw));
    assert ids1 == Ids(ids.savedShb, MarkDeleted(ids.savedIdbs, ids.maps[src]), ids.maps[src := []]);
    OwnEntries(cfg, ids, sections, src);
    var sections1 := sections[src := []];
    forall s | 0 <= s < |sections1|
      ensures Mapped(ids1, sections1, s)
    {
      assert Mapped(ids, sections, s);
    }
  }

  /** The entries in a source's map are its own, and came from its stream. */
  lemma OwnEntries(cfg: Config, ids: Ids, sections: SourceSections, src: nat)
    requires IdsInv(cfg, ids, sections) && src < |sections|
    ensures forall j | j in ids.maps[src] ::
              j < |ids.savedIdbs| && ids.savedIdbs[j].owner == src && ids.savedIdbs[j].idb.Some?
  {
    assert Mapped(ids, sections, src);
    forall j | j in ids.maps[src]
      ensures j < |ids.savedIdbs| && ids.savedIdbs[j].owner == src && ids.savedIdbs[j].idb.Some?
    {
      var k :| 0 <= k < |ids.maps[src]| && ids.maps[src][k] == j;
    }
  }

  lemma DescriptionKeepsIds(cfg: Config, ids: Ids, sections: SourceSections, src: nat, raw: seq<byte>)
    requires IdsInv(cfg, ids, sections) && src < |sections| && cfg.pcapng[src]
    ensures IdsInv(cfg, Collect(cfg, ids, src, Idb(raw)), sections[src := sections[src] + [raw]])
  {
    var ids1 := Collect(cfg, ids, src, Idb(raw));
    var sections1 := sections[src := sections[src] + [raw]];
    forall s | 0 <= s < |sections1|
      ensures Mapped(ids1, sections1, s)
    {
      assert Mapped(ids, sections, s);
    }
  }

  lemma CollectKeepsIds(cfg: Config, ids: Ids, sections: SourceSections, src: nat, block: Block)
    requires !cfg.Passthrough() && IdsInv(cfg, ids, sections) && src < |sections| && cfg.pcapng[src]
    ensures IdsInv(cfg, Collect(cfg, ids, src, block), SectionsAfter(sections, src, block))
  {
    match block
    case Shb(raw) => SectionHeaderKeepsIds(cfg, ids, sections, src, raw);
    case Idb(raw) => DescriptionKeepsIds(cfg, ids, sections, src, raw);
    case _ =>
  }

  /** A block that is copied: the output section goes on tracking the saved descriptions, and the
      block resolves there to what its own source described. */
  lemma CopyTracks(cfg: Config, ids: Ids, sections: SourceSections, section: seq<Desc>, src: nat, block: Block)
    requires cfg.Multiplexing() && IdsInv(cfg, ids, sections) && src < |sections| && cfg.pcapng[src]
    requires Tracks(section, ids.savedIdbs) && Adjusted(cfg, ids, src, block).Some? && !block.Shb?
    ensures var o := Copied(Adjusted(cfg, ids, src, block).value);
            && Tracks(SectionAfter(section, o), Collect(cfg, ids, src, block).savedIdbs)
            && Explicit(Attributed(section, o))
            == OwnAttribution(cfg, sections, BlockOp(src, block, Disk(true, true, 0)))
  {
    assert Mapped(ids, sections, src);
  }

  /** A packet of a source that is not pcapng resolves to that source's own description. */
  lemma PacketResolves(cfg: Config, ids: Ids, sections: SourceSections, section: seq<Desc>, src: nat, packet: Packet)
    requires cfg.Multiplexing() && IdsInv(cfg, ids, sections) && src < |sections| && !cfg.pcapng[src]
    requires Tracks(section, ids.savedIdbs)
    ensures var o := PacketOut(cfg, src, packet);
            && SectionAfter(section, o) == section
            && Explicit(Attributed(section, o))
            == OwnAttribution(cfg, sections, PacketOp(src, packet, Disk(true, true, 0)))
  {
  }

  lemma PutBlockKeepsInv(cfg: Config, w: State, sections: SourceSections, src: nat, block: Block)
    requires cfg.Multiplexing() && Inv(cfg, w, sections) && src < |sections| && cfg.pcapng[src] && w.go && !w.aborted
    requires Adjusted(cfg, w.ids, src, block).Some? && !block.Shb?
    ensures var o := Copied(Adjusted(cfg, w.ids, src, block).value);
            var w1 := Put(cfg, w.(ids := Collect(cfg, w.ids, src, block)), o);
            && Inv(cfg, w1, SectionsAfter(sections, src, block))
            && Explicit(DecodeFiles(w1.files))
            == Explicit(DecodeFiles(w.files)) + OwnAttribution(cfg, sections, BlockOp(src, block, Disk(true, true, 0)))
  {
    var o := Copied(Adjusted(cfg, w.ids, src, block).value);
    var section := DecodeFile(w.Last()).section;
    CollectKeepsIds(cfg, w.ids, sections, src, block);
    CopyTracks(cfg, w.ids, sections, section, src, block);
    DecodeFilesAppended(w.files, o);
    ExplicitAppend(DecodeFiles(w.files), Attributed(section, o));
  }

  lemma WriteBlockKeepsInv(cfg: Config, w: State, sections: SourceSections, src: nat, block: Block, disk: Disk)
    requires cfg.Multiplexing() && Inv(cfg, w, sections) && src < |sections| && cfg.pcapng[src] && !w.aborted
    requires BlockFate(cfg, w, src, block, disk) == Written
    ensures Inv(cfg, WriteBlock(cfg, w, src, block, disk), SectionsAfter(sections, src, block))
    ensures Explicit(DecodeFiles(WriteBlock(cfg, w, src, block, disk).files))
         == Explicit(DecodeFiles(w.files)) + OwnAttribution(cfg, sections, BlockOp(src, block, disk))
  {
    PutBlockKeepsInv(cfg, w, sections, src, block);
    var w1 := Put(cfg, w.(ids := Collect(cfg, w.ids, src, block)), Copied(Adjusted(cfg, w.ids, src, block).value));
    assert WriteBlock(cfg, w, src, block, disk) == BlockWritten(cfg, w1, block, disk);
    if block.IsData() {
      CountKeepsInv(cfg, w1, disk, SectionsAfter(sections, src, block));
    }
  }

  lemma WritePacketKeepsInv(cfg: Config, w: State, sections: SourceSections, src: nat, packet: Packet, disk: Disk)
    requires cfg.Multiplexing() && Inv(cfg, w, sections) && src < |sections| && !cfg.pcapng[src] && !w.aborted
    requires PacketFate(cfg, w, disk) == Written
    ensures Inv(cfg, WritePacket(cfg, w, src, packet, disk), sections)
    ensures Explicit(DecodeFiles(WritePacket(cfg, w, src, packet, disk).files))
         == Explicit(DecodeFiles(w.files)) + OwnAttribution(cfg, sections, PacketOp(src, packet, disk))
  {
    var o := PacketOut(cfg, src, packet);
    var section := DecodeFile(w.Last()).section;
    PacketResolves(cfg, w.ids, sections, section, src, packet);
    DecodeFilesAppended(w.files, o);
    ExplicitAppend(DecodeFiles(w.files), Attributed(section, o));
    CountKeepsInv(cfg, Put(cfg, w, o), disk, sections);
  }

  lemma AbsorbedTracks(cfg: Config, ids: Ids, section: seq<Desc>, src: nat, block: Block)
    requires src < |ids.maps| && block.Shb? && !cfg.Passthrough() && Tracks(section, ids.savedIdbs)
    ensures Tracks(section, Collect(cfg, ids, src, block).savedIdbs)
  {
  }

  /** A block that is not copied changes no file, and what the file describes still agrees with
      the entries that are live. */
  lemma UncopiedBlockKeepsInv(cfg: Config, w: State, sections: SourceSections, src: nat, block: Block, disk: Disk)
    requires cfg.Multiplexing() && Inv(cfg, w, sections) && src < |sections| && cfg.pcapng[src] && !w.aborted
    requires BlockFate(cfg, w, src, block, disk) != Written
    ensures var fate, w1 := BlockFate(cfg, w, src, block, disk), WriteBlock(cfg, w, src, block, disk);
            && w1.files == w.files
            && Inv(cfg, w1, if fate == Flushed || fate == Aborted then sections else SectionsAfter(sections, src, block))
  {
    var fate := BlockFate(cfg, w, src, block, disk);
    if fate != Flushed && fate != Aborted {
      CollectKeepsIds(cfg, w.ids, sections, src, block);
    }
    if fate == Absorbed {
      AbsorbedTracks(cfg, w.ids, DecodeFile(w.Last()).section, src, block);
    }
  }

  lemma BlockStep(cfg: Config, w: State, m: Meaning, src: nat, block: Block, disk: Disk)
    requires cfg.Multiplexing() && Inv(cfg, w, m.sections) && src < |m.sections| && cfg.pcapng[src] && !w.aborted
    requires Explicit(DecodeFiles(w.files)) == m.items
    ensures var op, w1 := BlockOp(src, block, disk), WriteBlock(cfg, w, src, block, disk);
            && Inv(cfg, w1, MeaningAfter(cfg, m, w, op).sections)
            && Explicit(DecodeFiles(w1.files)) == MeaningAfter(cfg, m, w, op).items
  {
    if BlockFate(cfg, w, src, block, disk) == Written {
      WriteBlockKeepsInv(cfg, w, m.sections, src, block, disk);
    } else {
      UncopiedBlockKeepsInv(cfg, w, m.sections, src, block, disk);
    }
  }

  lemma PacketStep(cfg: Config, w: State, m: Meaning, src: nat, packet: Packet, disk: Disk)
    requires cfg.Multiplexing() && Inv(cfg, w, m.sections) && src < |m.sections| && !cfg.pcapng[src] && !w.aborted
    requires Explicit(DecodeFiles(w.files)) == m.items
    ensures var op, w1 := PacketOp(src, packet, disk), WritePacket(cfg, w, src, packet, disk);
            && Inv(cfg, w1, m.sections)
            && Explicit(DecodeFiles(w1.files)) == MeaningAfter(cfg, m, w, op).items
  {
    if PacketFate(cfg, w, disk) == Written {
      WritePacketKeepsInv(cfg, w, m.sections, src, packet, disk);
    }
  }

  /** Every operation keeps the invariant, and adds to what the files say exactly what the
      operation's packet meant in its own source, if it was written. */
  lemma StepKeepsInv(cfg: Config, w: State, m: Meaning, op: Op)
    requires cfg.Multiplexing() && Inv(cfg, w, m.sections) && w.Shaped(cfg) && OpFits(cfg, op)
    requires Explicit(DecodeFiles(w.files)) == m.items
    ensures Inv(cfg, Apply(cfg, w, op), MeaningAfter(cfg, m, w, op).sections)
    ensures Explicit(DecodeFiles(Apply(cfg, w, op).files)) == MeaningAfter(cfg, m, w, op).items
  {
    if !w.aborted {
      match op
      case BlockOp(src, block, disk) => BlockStep(cfg, w, m, src, block, disk);
      case PacketOp(src, packet, disk) => PacketStep(cfg, w, m, src, packet, disk);
      case UpdateOp(clock, first, second) => UpdateKeepsInv(cfg, w, clock, first, second, m.sections);
      case StopOp =>
    }
  }

  lemma {:induction false} InitialIdbsOwned(cfg: Config, n: nat)
    requires n <= |cfg.pcapng|
    ensures forall j | 0 <= j < |InitialIdbs(cfg, n)| :: InitialIdbs(cfg, n)[j].owner < n
  {
    if n == 0 {
    } else {
      InitialIdbsOwned(cfg, n - 1);
    }
  }

  lemma {:induction false} InitialIdbOf(cfg: Config, n: nat, src: nat)
    requires src < n <= |cfg.pcapng| && !cfg.pcapng[src]
    ensures IdbId(cfg, src) < |InitialIdbs(cfg, n)| && InitialIdbs(cfg, n)[IdbId(cfg, src)] == SavedIdb(false, src, None)
  {
    if src == n - 1 {
    } else {
      InitialIdbOf(cfg, n - 1, src);
    }
  }

  lemma StartInv(cfg: Config)
    requires cfg.Multiplexing()
    ensures Inv(cfg, Start(cfg), Meant(cfg, []).sections)
    ensures DecodeFiles(Start(cfg).files) == []
  {
    var sections := Meant(cfg, []).sections;
    var ids := Start(cfg).ids;
    InitialIdbsOwned(cfg, |cfg.pcapng|);
    forall src | 0 <= src < |sections| && !cfg.pcapng[src]
      ensures IdbId(cfg, src) < |ids.savedIdbs| && ids.savedIdbs[IdbId(cfg, src)] == SavedIdb(false, src, None)
    {
      InitialIdbOf(cfg, |cfg.pcapng|, src);
    }
    assert IdsInv(cfg, ids, sections);
    var disk := Disk(true, true, |HeaderBlocks(cfg, ids)|);
    HeaderDecodes(cfg, ids, sections, disk);
    DecodeFilesWithHeader([], FirstBlocks(cfg, ids, disk));
    assert Start(cfg).files == [FirstBlocks(cfg, ids, disk)];
  }

  /** In every reachable state of every run, with any interleaving of the sources, any number of
      sections per source and any pattern of file switches: the invariant holds, and decoding the
      output files gives exactly what the packets written meant in their own sources. */
  lemma {:induction false} AttributionPreserved(cfg: Config, ops: seq<Op>)
    requires cfg.Multiplexing() && OpsFit(cfg, ops)
    ensures Inv(cfg, Run(cfg, ops), Meant(cfg, ops).sections)
    ensures Explicit(DecodeFiles(Run(cfg, ops).files)) == Meant(cfg, ops).items
  {
    if ops == [] {
      StartInv(cfg);
    } else {
      var before := ops[..|ops| - 1];
      AttributionPreserved(cfg, before);
      StepKeepsInv(cfg, Run(cfg, before), Meant(cfg, before), ops[|ops| - 1]);
    }
  }

  // What follows from it

  lemma OwnAttributionResolves(cfg: Config, w: State, m: Meaning, op: Op)
    requires cfg.Multiplexing() && Inv(cfg, w, m.sections) && w.Shaped(cfg) && OpFits(cfg, op)
    requires FateOf(cfg, w, op) == Written
    ensures forall a | a in OwnAttribution(cfg, m.sections, op) :: a.desc.Some? && a.desc.value != Dummy
  {
    if op.BlockOp? {
      assert Mapped(w.ids, m.sections, op.src);
    }
  }

  lemma {:induction false} MeantResolves(cfg: Config, ops: seq<Op>)
    requires cfg.Multiplexing() && OpsFit(cfg, ops)
    ensures forall a | a in Meant(cfg, ops).items :: a.desc.Some? && a.desc.value != Dummy
  {
    if ops == [] {
    } else {
      var before, op := ops[..|ops| - 1], ops[|ops| - 1];
      MeantResolves(cfg, before);
      AttributionPreserved(cfg, before);
      if FateOf(cfg, Run(cfg, before), op) == Written {
        OwnAttributionResolves(cfg, Run(cfg, before), Meant(cfg, before), op);
      }
    }
  }

  /** Nothing in any output file is attributed to a deleted or dummy interface, or to none. */
  lemma NothingAttributedToDeleted(cfg: Config, ops: seq<Op>)
    requires cfg.Multiplexing() && OpsFit(cfg, ops)
    ensures forall a | a in Explicit(DecodeFiles(Run(cfg, ops).files)) :: a.desc.Some? && a.desc.value != Dummy
  {
    AttributionPreserved(cfg, ops);
    MeantResolves(cfg, ops);
  }

  lemma IdsDistinct(cfg: Config, ids: Ids, sections: SourceSections, s: nat, j: nat, t: nat, k: nat)
    requires IdsInv(cfg, ids, sections) && s < |sections| && t < |sections|
    requires j < |ids.maps[s]| && k < |ids.maps[t]| && (s, j) != (t, k)
    ensures ids.maps[s][j] != ids.maps[t][k]
  {
    assert Mapped(ids, sections, s) && Mapped(ids, sections, t);
    if s == t {
      assert j < k || k < j;
    } else {
      assert ids.savedIdbs[ids.maps[s][j]].owner == s && ids.savedIdbs[ids.maps[t][k]].owner == t;
    }
  }

  /** No two interfaces of any sources share an output id. */
  lemma OutputIdsDistinct(cfg: Config, ops: seq<Op>, s: nat, j: nat, t: nat, k: nat)
    requires cfg.Multiplexing() && OpsFit(cfg, ops) && s < |cfg.pcapng| && t < |cfg.pcapng|
    requires j < |Run(cfg, ops).ids.maps[s]| && k < |Run(cfg, ops).ids.maps[t]| && (s, j) != (t, k)
    ensures Run(cfg, ops).ids.maps[s][j] != Run(cfg, ops).ids.maps[t][k]
  {
    AttributionPreserved(cfg, ops);
    IdsDistinct(cfg, Run(cfg, ops).ids, Meant(cfg, ops).sections, s, j, t, k);
  }

  /** No interface that a source describes has the output id of a generated description. */
  lemma GeneratedIdsDistinct(cfg: Config, ops: seq<Op>, s: nat, j: nat, t: nat)
    requires cfg.Multiplexing() && OpsFit(cfg, ops) && s < |cfg.pcapng| && t < |cfg.pcapng| && !cfg.pcapng[t]
    requires j < |Run(cfg, ops).ids.maps[s]|
    ensures Run(cfg, ops).ids.maps[s][j] != IdbId(cfg, t)
  {
    AttributionPreserved(cfg, ops);
    assert Mapped(Run(cfg, ops).ids, Meant(cfg, ops).sections, s);
  }

  // What becomes of a block

  /** The interface ids that a pcapng source can use are exactly those of the descriptions in its
      current section. */
  lemma KnownIdsIff(cfg: Config, ops: seq<Op>, src: nat, block: Block)
    requires cfg.Multiplexing() && OpsFit(cfg, ops) && src < |cfg.pcapng|
    ensures Adjusted(cfg, Run(cfg, ops).ids, src, block).Some?
            <==> (block.CarriesId() ==> block.id < |Meant(cfg, ops).sections[src]|)
  {
    AttributionPreserved(cfg, ops);
    assert Mapped(Run(cfg, ops).ids, Meant(cfg, ops).sections, src);
  }

  /** While a capture goes on: a block with an id that its source has not described ends the process,
      a section header is taken in, and every other block is written if the disk takes it. */
  lemma BlockFateInRun(cfg: Config, ops: seq<Op>, src: nat, block: Block, disk: Disk)
    requires cfg.Multiplexing() && OpsFit(cfg, ops) && src < |cfg.pcapng| && cfg.pcapng[src]
    requires Run(cfg, ops).go && !Run(cfg, ops).aborted
    ensures FateOf(cfg, Run(cfg, ops), BlockOp(src, block, disk))
         == if block.CarriesId() && block.id >= |Meant(cfg, ops).sections[src]| then Aborted
            else if block.Shb? then Absorbed
            else if disk.write then Written else Dropped
  {
    AttributionPreserved(cfg, ops);
    KnownIdsIff(cfg, ops, src, block);
  }
}
