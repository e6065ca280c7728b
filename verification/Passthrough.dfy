/** One pcapng stream passed through to one output file after another. */
module Passthrough {
  import opened Bytes
  import opened Framing
  import opened Sections
  import opened Writer

  // Streams of blocks

  function Copies(s: seq<Block>): File {
    if s == [] then [] else Copies(s[..|s| - 1]) + [Copied(s[|s| - 1])]
  }

  /** The section a stream is in: its header and its interface descriptions. */
  datatype Section = Section(shb: Option<seq<byte>>, idbs: seq<seq<byte>>)

  function Current(s: seq<Block>): Section {
    if s == [] then Section(None, [])
    else
      var before := Current(s[..|s| - 1]);
      match s[|s| - 1]
      case Shb(raw) => Section(Some(raw), [])
      case Idb(raw) => before.(idbs := before.idbs + [raw])
      case _ => before
  }

  function CopiedIdbs(idbs: seq<seq<byte>>): File {
    if idbs == [] then [] else CopiedIdbs(idbs[..|idbs| - 1]) + [Copied(Idb(idbs[|idbs| - 1]))]
  }

  /** What has to be repeated for a section to go on in another file. */
  function SectionStart(section: Section): File {
    match section.shb
    case None => []
    case Some(raw) => [Copied(Block.Shb(raw))] + CopiedIdbs(section.idbs)
  }

  function FromStreams(idbs: seq<seq<byte>>): seq<Desc> {
    if idbs == [] then [] else FromStreams(idbs[..|idbs| - 1]) + [FromStream(idbs[|idbs| - 1])]
  }

  lemma OneMoreCopied(s: seq<Block>, block: Block)
    ensures Copies(s + [block]) == Copies(s) + [Copied(block)]
  {
    assert (s + [block])[..|s + [block]| - 1] == s;
  }

  lemma OneMoreInSection(s: seq<Block>, block: Block)
    ensures Current(s + [block])
         == match block
            case Shb(raw) => Section(Some(raw), [])
            case Idb(raw) => Current(s).(idbs := Current(s).idbs + [raw])
            case _ => Current(s)
  {
    assert (s + [block])[..|s + [block]| - 1] == s;
  }

  lemma OneMoreFromStream(idbs: seq<seq<byte>>, raw: seq<byte>)
    ensures FromStreams(idbs + [raw]) == FromStreams(idbs) + [FromStream(raw)]
  {
    assert (idbs + [raw])[..|idbs + [raw]| - 1] == idbs;
  }

  /** The descriptions a reader of a stream knows are those of the section the stream is in. */
  lemma {:induction false} CurrentDecodes(s: seq<Block>)
    ensures DecodeFile(Copies(s)).section == FromStreams(Current(s).idbs)
  {
    if s == [] {
    } else {
      var n := |s| - 1;
      CurrentDecodes(s[..n]);
      DecodeAppended(Copies(s[..n]), Copied(s[n]));
      if s[n].Idb? {
        OneMoreFromStream(Current(s[..n]).idbs, s[n].raw);
      }
    }
  }

  lemma {:induction false} IdbsDecode(shb: seq<byte>, idbs: seq<seq<byte>>)
    ensures DecodeFile([Copied(Block.Shb(shb))] + CopiedIdbs(idbs)).section == FromStreams(idbs)
    ensures forall i | 0 <= i < |CopiedIdbs(idbs)| :: CopiedIdbs(idbs)[i].IsHeader()
  {
    var start := [Copied(Block.Shb(shb))];
    if idbs == [] {
      assert start + CopiedIdbs(idbs) == [] + start;
      DecodeAppended([], start[0]);
    } else {
      var n := |idbs| - 1;
      IdbsDecode(shb, idbs[..n]);
      Associate(start, CopiedIdbs(idbs[..n]), [Copied(Idb(idbs[n]))]);
      DecodeAppended(start + CopiedIdbs(idbs[..n]), Copied(Idb(idbs[n])));
    }
  }

  /** Repeating the start of a section makes a reader know what it knew. */
  lemma SectionStartDecodes(section: Section)
    requires section.shb.None? ==> section.idbs == []
    ensures DecodeFile(SectionStart(section)).section == FromStreams(section.idbs)
    ensures forall i | 0 <= i < |SectionStart(section)| :: SectionStart(section)[i].IsHeader()
  {
    if section.shb.Some? {
      IdbsDecode(section.shb.value, section.idbs);
    }
  }

  // What is saved

  ghost predicate Saved(ids: Ids, section: Section) {
    && ids.savedShb == section.shb && |ids.savedIdbs| == |section.idbs|
    && (forall j | 0 <= j < |section.idbs| :: ids.savedIdbs[j] == SavedIdb(false, 0, Some(section.idbs[j])))
  }

  lemma {:induction false} SavedIdbBlocks(cfg: Config, idbs: seq<SavedIdb>, raws: seq<seq<byte>>)
    requires |idbs| == |raws| && forall j | 0 <= j < |raws| :: idbs[j] == SavedIdb(false, 0, Some(raws[j]))
    ensures IdbBlocks(cfg, idbs) == CopiedIdbs(raws)
  {
    if idbs == [] {
    } else {
      SavedIdbBlocks(cfg, idbs[..|idbs| - 1], raws[..|idbs| - 1]);
    }
  }

  /** A file that is switched to starts with the section header and the interface descriptions of
      the section the stream is in. */
  lemma SavedStart(cfg: Config, ids: Ids, section: Section)
    requires cfg.Passthrough() && cfg.usePcapng && Saved(ids, section)
    ensures HeaderBlocks(cfg, ids) == SectionStart(section)
  {
    SavedIdbBlocks(cfg, ids.savedIdbs, section.idbs);
  }

  lemma CollectSaves(cfg: Config, ids: Ids, s: seq<Block>, block: Block)
    requires cfg.Passthrough() && |ids.maps| == 1 && Saved(ids, Current(s))
    ensures Saved(Collect(cfg, ids, 0, block), Current(s + [block]))
  {
    OneMoreInSection(s, block);
  }

  // Output files

  /** The files divide the stream among them: the first has its beginning, and each of the others
      starts with the start of the section the stream was in when it was switched to, and goes on
      with the blocks that follow. */
  ghost predicate Divide(fs: seq<File>, s: seq<Block>)
    decreases |fs|, 1
  {
    fs != [] && exists c: nat | c <= |s| :: DivideAt(fs, s, c)
  }

  ghost predicate DivideAt(fs: seq<File>, s: seq<Block>, c: nat)
    requires fs != [] && c <= |s|
    decreases |fs|, 0
  {
    var n := |fs| - 1;
    fs[n] == SectionStart(Current(s[..c])) + Copies(s[c..]) && (if n == 0 then c == 0 else Divide(fs[..n], s[..c]))
  }

  ghost predicate AllHeaders(f: File) {
    forall i | 0 <= i < |f| :: f[i].IsHeader()
  }

  /** They do, except for files at the end that hold no more than headers. */
  ghost predicate DivideButHeaders(fs: seq<File>, s: seq<Block>) {
    Divide(fs, s) || (|fs| > 1 && AllHeaders(fs[|fs| - 1]) && DivideButHeaders(fs[..|fs| - 1], s))
  }

  lemma BlockKeepsDivide(fs: seq<File>, s: seq<Block>, block: Block)
    requires Divide(fs, s)
    ensures Divide(Append(fs, Copied(block)), s + [block])
  {
    var c: nat :| c <= |s| && DivideAt(fs, s, c);
    var n, fs1, s1 := |fs| - 1, Append(fs, Copied(block)), s + [block];
    assert s1[..c] == s[..c] && s1[c..] == s[c..] + [block] && fs1[..n] == fs[..n];
    OneMoreCopied(s[c..], block);
    Associate(SectionStart(Current(s[..c])), Copies(s[c..]), [Copied(block)]);
    assert DivideAt(fs1, s1, c);
  }

  lemma SwitchKeepsDivide(fs: seq<File>, s: seq<Block>)
    requires Divide(fs, s)
    ensures Divide(fs + [SectionStart(Current(s))], s)
  {
    var fs1, c := fs + [SectionStart(Current(s))], |s|;
    assert s[..c] == s && s[c..] == [] && fs1[..|fs|] == fs;
    assert SectionStart(Current(s)) + Copies([]) == SectionStart(Current(s));
    assert DivideAt(fs1, s, c);
  }

  lemma HeaderKeepsDivide(fs: seq<File>, s: seq<Block>, f: File)
    requires DivideButHeaders(fs, s) && fs != [] && AllHeaders(f)
    ensures DivideButHeaders(fs + [f], s)
  {
    assert (fs + [f])[..|fs + [f]| - 1] == fs;
  }

  // What the files say

  lemma CopiesDecode(h: File, t: seq<Block>, block: Block)
    ensures DecodeFile(h + Copies(t + [block])) == DecodeOut(DecodeFile(h + Copies(t)), Copied(block))
  {
    OneMoreCopied(t, block);
    Associate(h, Copies(t), [Copied(block)]);
    DecodeAppended(h + Copies(t), Copied(block));
  }

  lemma {:induction false} CopiesAppend(a: seq<Block>, t: seq<Block>)
    ensures Copies(a + t) == Copies(a) + Copies(t)
  {
    if t == [] {
      assert a + t == a;
    } else {
      var n := |t| - 1;
      CopiesAppend(a, t[..n]);
      assert a + t == (a + t[..n]) + [t[n]];
      OneMoreCopied(a + t[..n], t[n]);
      Associate(Copies(a), Copies(t[..n]), [Copied(t[n])]);
    }
  }

  lemma SameNext(said: seq<Attribution>, d: Decoded, e: Decoded, o: Out)
    requires d.section == e.section && d.items == said + e.items
    ensures DecodeOut(d, o).section == DecodeOut(e, o).section
    ensures DecodeOut(d, o).items == said + DecodeOut(e, o).items
  {
    Associate(said, e.items, Attributed(e.section, o));
  }

  /** After two beginnings from which a reader knows the same, the same blocks say the same. */
  lemma {:induction false} SameFromHere(g: File, h: File, t: seq<Block>)
    requires DecodeFile(h) == Decoded(DecodeFile(g).section, [])
    ensures DecodeFile(g + Copies(t)).section == DecodeFile(h + Copies(t)).section
    ensures DecodeFile(g + Copies(t)).items == DecodeFile(g).items + DecodeFile(h + Copies(t)).items
  {
    if t == [] {
      assert g + Copies(t) == g && h + Copies(t) == h;
    } else {
      var n := |t| - 1;
      assert t == t[..n] + [t[n]];
      SameFromHere(g, h, t[..n]);
      CopiesDecode(g, t[..n], t[n]);
      CopiesDecode(h, t[..n], t[n]);
      SameNext(DecodeFile(g).items, DecodeFile(g + Copies(t[..n])), DecodeFile(h + Copies(t[..n])), Copied(t[n]));
    }
  }

  /** A stream begins with a section header. */
  predicate BeginsWithHeader(s: seq<Block>) {
    s == [] || s[0].Shb?
  }

  lemma {:induction false} HeaderKnown(s: seq<Block>)
    requires BeginsWithHeader(s)
    ensures Current(s).shb.None? ==> s == []
  {
    if |s| <= 1 {
    } else {
      HeaderKnown(s[..|s| - 1]);
    }
  }

  lemma StartKnows(a: seq<Block>)
    requires BeginsWithHeader(a)
    ensures DecodeFile(SectionStart(Current(a))) == Decoded(DecodeFile(Copies(a)).section, [])
  {
    HeaderKnown(a);
    SectionStartDecodes(Current(a));
    HeadersAttributeNothing(SectionStart(Current(a)));
    CurrentDecodes(a);
  }

  lemma StartThenBlocks(a: seq<Block>, t: seq<Block>)
    requires BeginsWithHeader(a)
    ensures DecodeFile(Copies(a + t)).items
         == DecodeFile(Copies(a)).items + DecodeFile(SectionStart(Current(a)) + Copies(t)).items
  {
    StartKnows(a);
    CopiesAppend(a, t);
    SameFromHere(Copies(a), SectionStart(Current(a)), t);
  }

  lemma FirstFileDecodes(fs: seq<File>, s: seq<Block>)
    requires |fs| == 1 && DivideAt(fs, s, 0)
    ensures DecodeFiles(fs) == DecodeFile(Copies(s)).items
  {
    assert s[..0] == [] && s[0..] == s && fs[..0] == [];
    assert [] + Copies(s) == Copies(s);
    assert fs[0] == Copies(s);
    assert DecodeFiles(fs[..0]) == [];
  }

  lemma LaterFileDecodes(fs: seq<File>, f: File, a: seq<Block>, t: seq<Block>)
    requires DecodeFiles(fs) == DecodeFile(Copies(a)).items && BeginsWithHeader(a)
    requires f == SectionStart(Current(a)) + Copies(t)
    ensures DecodeFiles(fs + [f]) == DecodeFile(Copies(a + t)).items
  {
    StartThenBlocks(a, t);
    assert (fs + [f])[..|fs + [f]| - 1] == fs;
  }

  /** Reading the files in order says exactly what reading the stream says. */
  lemma {:induction false} DividedFilesDecode(fs: seq<File>, s: seq<Block>)
    requires Divide(fs, s) && BeginsWithHeader(s)
    ensures DecodeFiles(fs) == DecodeFile(Copies(s)).items
    decreases |fs|
  {
    var c: nat :| c <= |s| && DivideAt(fs, s, c);
    if |fs| == 1 {
      FirstFileDecodes(fs, s);
    } else {
      var before, last, a, t := fs[..|fs| - 1], fs[|fs| - 1], s[..c], s[c..];
      assert Divide(before, a) && last == SectionStart(Current(a)) + Copies(t);
      assert a + t == s && before + [last] == fs;
      DividedFilesDecode(before, a);
      LaterFileDecodes(before, last, a, t);
    }
  }

  lemma {:induction false} FilesButHeadersDecode(fs: seq<File>, s: seq<Block>)
    requires DivideButHeaders(fs, s) && BeginsWithHeader(s)
    ensures DecodeFiles(fs) == DecodeFile(Copies(s)).items
  {
    if Divide(fs, s) {
      DividedFilesDecode(fs, s);
    } else {
      var n := |fs| - 1;
      FilesButHeadersDecode(fs[..n], s);
      assert fs == fs[..n] + [fs[n]];
      DecodeFilesWithHeader(fs[..n], fs[n]);
    }
  }

  // Every step

  /** While capturing: the stream's section is saved, and the files divide it. */
  ghost predicate Inv(w: State, s: seq<Block>) {
    && w.files != [] && |w.ids.maps| == 1
    && (if w.go && !w.aborted then w.open && Saved(w.ids, Current(s)) && Divide(w.files, s)
        else DivideButHeaders(w.files, s))
  }

  predicate PassesThrough(cfg: Config) {
    cfg.Passthrough() && cfg.usePcapng
  }

  lemma NextFileKeepsInv(cfg: Config, w: State, disk: Disk, s: seq<Block>)
    requires PassesThrough(cfg) && Inv(w, s) && HeaderFits(cfg, w.ids, disk)
    ensures Inv(ReportFile(cfg, ReportCount(cfg, StartFile(cfg, w, disk))), s)
  {
    if w.go && !w.aborted {
      SavedStart(cfg, w.ids, Current(s));
      SwitchKeepsDivide(w.files, s);
    } else {
      FirstBlocksAreHeaders(cfg, w.ids, disk);
      HeaderKeepsDivide(w.files, s, FirstBlocks(cfg, w.ids, disk));
    }
  }

  lemma FailedFileKeepsInv(cfg: Config, w: State, disk: Disk, s: seq<Block>)
    requires PassesThrough(cfg) && Inv(w, s)
    ensures Inv(StartFile(cfg, w, disk).(open := false, go := false), s)
  {
    FirstBlocksAreHeaders(cfg, w.ids, disk);
    HeaderKeepsDivide(w.files, s, FirstBlocks(cfg, w.ids, disk));
  }

  lemma SwitchKeepsInv(cfg: Config, w: State, disk: Disk, s: seq<Block>)
    requires PassesThrough(cfg) && Inv(w, s)
    ensures Inv(SwitchOrStop(cfg, w, disk), s)
  {
    var w1 := CountFile(cfg, w);
    if Switches(cfg, w, disk) {
      NextFileKeepsInv(cfg, w1, disk, s);
    } else if cfg.multiFiles && w.open && !Reached(cfg.autostopFiles, w1.n.fileCount) && disk.switched {
      FailedFileKeepsInv(cfg, w1, disk, s);
    } else {
      assert SwitchOrStop(cfg, w, disk).files == w.files && !SwitchOrStop(cfg, w, disk).go;
    }
  }

  lemma CountKeepsInv(cfg: Config, w: State, disk: Disk, s: seq<Block>)
    requires PassesThrough(cfg) && Inv(w, s)
    ensures Inv(WroteOnePacket(cfg, w, disk), s)
  {
    var w1 := w.(n := CountPacket(w.n));
    if !Enough(cfg, w1.n) && FileFull(cfg, w1.n) {
      SwitchKeepsInv(cfg, w1, disk, s);
    }
  }

  lemma UpdateKeepsInv(cfg: Config, w: State, clock: Clock, first: Disk, second: Disk, s: seq<Block>)
    requires PassesThrough(cfg) && Inv(w, s)
    ensures Inv(Update(cfg, w, clock, first, second), s)
  {
    var w1 := ReportCount(cfg, w);
    SwitchKeepsInv(cfg, w1, first, s);
    var w2 := if clock.fileDuration then SwitchOrStop(cfg, w1, first) else w1;
    SwitchKeepsInv(cfg, w2, second, s);
  }

  lemma PutKeepsInv(cfg: Config, w: State, block: Block, s: seq<Block>)
    requires PassesThrough(cfg) && Inv(w, s) && w.go && !w.aborted
    ensures Inv(Put(cfg, w.(ids := Collect(cfg, w.ids, 0, block)), Copied(block)), s + [block])
  {
    CollectSaves(cfg, w.ids, s, block);
    BlockKeepsDivide(w.files, s, block);
  }

  lemma BlockWrittenKeepsInv(cfg: Config, w: State, block: Block, disk: Disk, s: seq<Block>)
    requires PassesThrough(cfg) && Inv(w, s) && !w.aborted && BlockFate(cfg, w, 0, block, disk) == Written
    ensures Inv(WriteBlock(cfg, w, 0, block, disk), s + [block])
  {
    PutKeepsInv(cfg, w, block, s);
    assert Adjusted(cfg, w.ids, 0, block) == Some(block);
    var w1 := Put(cfg, w.(ids := Collect(cfg, w.ids, 0, block)), Copied(block));
    assert WriteBlock(cfg, w, 0, block, disk) == BlockWritten(cfg, w1, block, disk);
    if block.IsData() {
      CountKeepsInv(cfg, w1, disk, s + [block]);
    }
  }

  lemma BlockKeepsInv(cfg: Config, w: State, block: Block, disk: Disk, s: seq<Block>)
    requires PassesThrough(cfg) && Inv(w, s) && !w.aborted
    ensures Inv(WriteBlock(cfg, w, 0, block, disk), if BlockFate(cfg, w, 0, block, disk) == Written then s + [block] else s)
    ensures w.go && BlockFate(cfg, w, 0, block, disk) != Written ==> !WriteBlock(cfg, w, 0, block, disk).go
  {
    if BlockFate(cfg, w, 0, block, disk) == Written {
      BlockWrittenKeepsInv(cfg, w, block, disk, s);
    }
  }

  // Whole runs

  /** The blocks that were to be written, and those that were. */
  function Offered(cfg: Config, ops: seq<Op>): seq<Block> {
    if ops == [] then []
    else
      var op := ops[|ops| - 1];
      Offered(cfg, ops[..|ops| - 1]) + if op.BlockOp? then [op.block] else []
  }

  function WrittenBlocks(cfg: Config, ops: seq<Op>): seq<Block>
    requires OpsFit(cfg, ops)
  {
    if ops == [] then []
    else
      var before, op := ops[..|ops| - 1], ops[|ops| - 1];
      WrittenBlocks(cfg, before) + if op.BlockOp? && FateOf(cfg, Run(cfg, before), op) == Written then [op.block] else []
  }

  lemma StepKeepsInv(cfg: Config, w: State, op: Op, s: seq<Block>)
    requires PassesThrough(cfg) && Inv(w, s) && OpFits(cfg, op) && w.Shaped(cfg)
    ensures Inv(Apply(cfg, w, op), s + if op.BlockOp? && FateOf(cfg, w, op) == Written then [op.block] else [])
    ensures Apply(cfg, w, op).go && !Apply(cfg, w, op).aborted && op.BlockOp? && w.go && !w.aborted ==> FateOf(cfg, w, op) == Written
  {
    assert s + [] == s;
    if !w.aborted {
      match op
      case BlockOp(src, block, disk) => BlockKeepsInv(cfg, w, block, disk, s);
      case UpdateOp(clock, first, second) => UpdateKeepsInv(cfg, w, clock, first, second, s);
      case StopOp =>
    }
  }

  lemma StartInv(cfg: Config)
    requires PassesThrough(cfg)
    ensures Inv(Start(cfg), [])
  {
    assert InitialIdbs(cfg, 1) == [];
    assert Start(cfg).files == [[]];
    assert DivideAt(Start(cfg).files, [], 0);
  }

  /** In every run: what is written is the stream up to where the capture stopped, and the output
      files divide it among them, each after the first starting with its section's start. */
  lemma {:induction false} StreamIsDivided(cfg: Config, ops: seq<Op>)
    requires PassesThrough(cfg) && OpsFit(cfg, ops)
    ensures Inv(Run(cfg, ops), WrittenBlocks(cfg, ops))
    ensures WrittenBlocks(cfg, ops) <= Offered(cfg, ops)
    ensures Run(cfg, ops).go && !Run(cfg, ops).aborted ==> WrittenBlocks(cfg, ops) == Offered(cfg, ops)
  {
    if ops == [] {
      StartInv(cfg);
    } else {
      var before, op := ops[..|ops| - 1], ops[|ops| - 1];
      StreamIsDivided(cfg, before);
      var w := Run(cfg, before);
      StepKeepsInv(cfg, w, op, WrittenBlocks(cfg, before));
      GoNeverReturns(cfg, w, op);
    }
  }

  /** Reading the output files in order attributes every packet of the stream, up to where the
      capture stopped, exactly as reading the stream itself does. */
  lemma PassthroughPreservesMeaning(cfg: Config, ops: seq<Op>)
    requires PassesThrough(cfg) && OpsFit(cfg, ops) && BeginsWithHeader(Offered(cfg, ops))
    ensures DecodeFiles(Run(cfg, ops).files) == DecodeFile(Copies(WrittenBlocks(cfg, ops))).items
  {
    StreamIsDivided(cfg, ops);
    FilesButHeadersDecode(Run(cfg, ops).files, WrittenBlocks(cfg, ops));
  }

  lemma BlockDoesNotAbort(cfg: Config, w: State, block: Block, disk: Disk)
    requires cfg.Passthrough() && w.Shaped(cfg)
    ensures BlockFate(cfg, w, 0, block, disk) != Aborted && WriteBlock(cfg, w, 0, block, disk).aborted == w.aborted
  {
    if BlockFate(cfg, w, 0, block, disk) == Written && block.IsData() {
      var w1 := Put(cfg, w, Copied(Adjusted(cfg, w.ids, 0, block).value));
      PacketBlockWritten(cfg, w, 0, block, disk);
      SwitchNeverRestarts(cfg, w1.(n := CountPacket(w1.n)), disk);
    }
  }

  lemma StepDoesNotAbort(cfg: Config, w: State, op: Op)
    requires cfg.Passthrough() && w.Shaped(cfg) && OpFits(cfg, op)
    ensures Apply(cfg, w, op).aborted == w.aborted
  {
    if op.BlockOp? {
      BlockDoesNotAbort(cfg, w, op.block, op.disk);
    } else if op.UpdateOp? {
      var w1 := ReportCount(cfg, w);
      SwitchNeverRestarts(cfg, w1, op.first);
      SwitchNeverRestarts(cfg, if op.clock.fileDuration then SwitchOrStop(cfg, w1, op.first) else w1, op.second);
    }
  }

  /** A stream that is passed through never ends the process, whatever interface ids its blocks have. */
  lemma {:induction false} NeverAborted(cfg: Config, ops: seq<Op>)
    requires cfg.Passthrough() && OpsFit(cfg, ops)
    ensures !Run(cfg, ops).aborted
  {
    if ops == [] {
    } else {
      var before, op := ops[..|ops| - 1], ops[|ops| - 1];
      NeverAborted(cfg, before);
      StepDoesNotAbort(cfg, Run(cfg, before), op);
      assert Run(cfg, ops) == Apply(cfg, Run(cfg, before), op);
    }
  }

  /** While the capture goes on, every block of the stream is written if the disk takes it. */
  lemma BlockFateInRun(cfg: Config, ops: seq<Op>, block: Block, disk: Disk)
    requires PassesThrough(cfg) && OpsFit(cfg, ops) && Run(cfg, ops).go
    ensures FateOf(cfg, Run(cfg, ops), BlockOp(0, block, disk)) == if disk.write then Written else Dropped
  {
    NeverAborted(cfg, ops);
    StreamIsDivided(cfg, ops);
  }
}
