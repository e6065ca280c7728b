/** The statistics blocks written when the output is closed. */
module Closing {
  import opened Bytes
  import opened Framing
  import opened Sections
  import opened Writer
  import opened Multiplexing

  /** The statistics of the sources that are not read from a pipe, at the end of a single pcapng
      file. Each is written with the number of its source as its interface id. */
  function Statistics(fromPipe: seq<bool>, stats: seq<seq<byte>>): seq<Out>
    requires |stats| == |fromPipe|
  {
    if stats == [] then []
    else
      var n := |stats| - 1;
      if fromPipe[n] then Statistics(fromPipe[..n], stats[..n])
      else Statistics(fromPipe[..n], stats[..n]) + [Copied(Isb(n, stats[n]))]
  }

  function CloseOutput(cfg: Config, f: File, stats: seq<seq<byte>>): File
    requires |stats| == |cfg.fromPipe|
  {
    if cfg.multiFiles || !cfg.usePcapng then f else f + Statistics(cfg.fromPipe, stats)
  }

  // The one file of a capture without file switches

  /** Generated descriptions are at the front of the section, in order; the rest are copied. */
  ghost predicate GeneratedFirst(cfg: Config, section: seq<Desc>) {
    var generated := InitialIdbs(cfg, |cfg.pcapng|);
    && |section| >= |generated|
    && (forall j | 0 <= j < |generated| :: section[j] == OfSource(generated[j].owner))
    && (forall j | |generated| <= j < |section| :: section[j].FromStream?)
  }

  ghost predicate OneFile(cfg: Config, files: seq<File>) {
    |files| == 1 && GeneratedFirst(cfg, DecodeFile(files[0]).section)
  }

  lemma GeneratedStayFirst(cfg: Config, section: seq<Desc>, o: Out)
    requires GeneratedFirst(cfg, section)
    requires o.PacketBlock? || (o.Copied? && !o.block.Shb?)
    ensures GeneratedFirst(cfg, SectionAfter(section, o))
  {
  }

  lemma PutKeepsOneFile(cfg: Config, w: State, o: Out)
    requires OneFile(cfg, w.files)
    requires o.PacketBlock? || (o.Copied? && !o.block.Shb?)
    ensures OneFile(cfg, Put(cfg, w, o).files)
  {
    GeneratedStayFirst(cfg, DecodeFile(w.files[0]).section, o);
    DecodeFilesAppended(w.files, o);
  }

  lemma StepKeepsOneFile(cfg: Config, w: State, op: Op)
    requires cfg.Multiplexing() && !cfg.multiFiles && w.Shaped(cfg) && OpFits(cfg, op) && OneFile(cfg, w.files)
    ensures OneFile(cfg, Apply(cfg, w, op).files)
  {
    if FateOf(cfg, w, op) == Written {
      match op
      case BlockOp(src, block, disk) =>
        PutKeepsOneFile(cfg, w.(ids := Collect(cfg, w.ids, src, block)), Copied(Adjusted(cfg, w.ids, src, block).value));
      case PacketOp(src, packet, disk) =>
        PutKeepsOneFile(cfg, w, PacketOut(cfg, src, packet));
    }
  }

  lemma {:induction false} InitialIdbsGenerated(cfg: Config, n: nat)
    requires n <= |cfg.pcapng|
    ensures forall j | 0 <= j < |InitialIdbs(cfg, n)| ::
              !InitialIdbs(cfg, n)[j].deleted && InitialIdbs(cfg, n)[j].idb.None?
              && InitialIdbs(cfg, n)[j].owner < n && !cfg.pcapng[InitialIdbs(cfg, n)[j].owner]
              && IdbId(cfg, InitialIdbs(cfg, n)[j].owner) == j
  {
    if n == 0 {
    } else {
      InitialIdbsGenerated(cfg, n - 1);
    }
  }

  lemma {:induction false} RunKeepsOneFile(cfg: Config, ops: seq<Op>)
    requires cfg.Multiplexing() && !cfg.multiFiles && OpsFit(cfg, ops)
    ensures OneFile(cfg, Run(cfg, ops).files)
  {
    if ops == [] {
      StartInv(cfg);
      InitialIdbsGenerated(cfg, |cfg.pcapng|);
    } else {
      RunKeepsOneFile(cfg, ops[..|ops| - 1]);
      StepKeepsOneFile(cfg, Run(cfg, ops[..|ops| - 1]), ops[|ops| - 1]);
    }
  }

  // What the statistics are attributed to

  lemma {:induction false} IdbIdCounts(cfg: Config, src: nat)
    requires src <= |cfg.pcapng|
    ensures IdbId(cfg, src) <= src
    ensures IdbId(cfg, src) == src <==> (forall j | 0 <= j < src :: !cfg.pcapng[j])
  {
    if src == 0 {
    } else {
      IdbIdCounts(cfg, src - 1);
    }
  }

  /** After any run, the statistics of a source that dumpcap describes itself are attributed to it
      if and only if no source before it delivers pcapng. */
  lemma StatisticsResolveIff(cfg: Config, ops: seq<Op>, src: nat)
    requires cfg.Multiplexing() && !cfg.multiFiles && OpsFit(cfg, ops)
    requires src < |cfg.pcapng| && !cfg.pcapng[src]
    ensures Resolve(DecodeFile(Run(cfg, ops).Last()).section, src) == Some(OfSource(src))
            <==> (forall j | 0 <= j < src :: !cfg.pcapng[j])
  {
    RunKeepsOneFile(cfg, ops);
    var section := DecodeFile(Run(cfg, ops).Last()).section;
    IdbIdCounts(cfg, src);
    if IdbId(cfg, src) == src {
      InitialIdbOf(cfg, |cfg.pcapng|, src);
    } else if Resolve(section, src) == Some(OfSource(src)) {
      InitialIdbsGenerated(cfg, |cfg.pcapng|);
    }
  }

  /** What a reader of a section makes of the statistics at its end. */
  function StatisticsRead(section: seq<Desc>, fromPipe: seq<bool>, stats: seq<seq<byte>>): seq<Attribution>
    requires |stats| == |fromPipe|
  {
    if stats == [] then []
    else
      var n := |stats| - 1;
      if fromPipe[n] then StatisticsRead(section, fromPipe[..n], stats[..n])
      else StatisticsRead(section, fromPipe[..n], stats[..n]) + [Attribution(IsbItem(stats[n]), Resolve(section, n))]
  }

  lemma OneStatisticRead(f: File, n: nat, rest: seq<byte>)
    ensures DecodeFile(f + [Copied(Isb(n, rest))])
         == var d := DecodeFile(f); Decoded(d.section, d.items + [Attribution(IsbItem(rest), Resolve(d.section, n))])
  {
    DecodeAppended(f, Copied(Isb(n, rest)));
  }

  /** The statistics blocks change no description and nothing that was read before them. */
  lemma {:induction false} StatisticsDecode(f: File, fromPipe: seq<bool>, stats: seq<seq<byte>>)
    requires |stats| == |fromPipe|
    ensures DecodeFile(f + Statistics(fromPipe, stats))
         == var d := DecodeFile(f); Decoded(d.section, d.items + StatisticsRead(d.section, fromPipe, stats))
  {
    var d := DecodeFile(f);
    if stats == [] {
      assert f + Statistics(fromPipe, stats) == f;
      assert d.items + [] == d.items;
    } else {
      var n := |stats| - 1;
      var before := Statistics(fromPipe[..n], stats[..n]);
      StatisticsDecode(f, fromPipe[..n], stats[..n]);
      if !fromPipe[n] {
        Associate(f, before, [Copied(Isb(n, stats[n]))]);
        OneStatisticRead(f + before, n, stats[n]);
        Associate(d.items, StatisticsRead(d.section, fromPipe[..n], stats[..n]),
                  [Attribution(IsbItem(stats[n]), Resolve(d.section, n))]);
      }
    }
  }

  /** A file that is closed says the statistics as well if it is the only one and pcapng, and otherwise
      what it said before. */
  lemma ClosedDecodes(cfg: Config, f: File, stats: seq<seq<byte>>)
    requires |stats| == |cfg.fromPipe|
    ensures DecodeFile(CloseOutput(cfg, f, stats))
         == var d := DecodeFile(f);
            if !cfg.multiFiles && cfg.usePcapng then Decoded(d.section, d.items + StatisticsRead(d.section, cfg.fromPipe, stats))
            else d
  {
    StatisticsDecode(f, cfg.fromPipe, stats);
  }

  lemma OneGenerated(cfg: Config)
    requires cfg.pcapng == [true, false] && cfg.usePcapng
    ensures |DecodeFile(Start(cfg).Last()).section| == 1 && |Start(cfg).files| == 1
  {
    StartInv(cfg);
    assert IdbId(cfg, 2) == IdbId(cfg, 1) + 1 == 1;
  }

  /** A pcapng pipe and a device: once the pipe has described an interface, the statistics of the
      device, which is the second source, are attributed to that. */
  lemma StatisticsMisattributed(cfg: Config, raw: seq<byte>)
    requires cfg.pcapng == [true, false] && cfg.usePcapng && !cfg.multiFiles
    ensures var ops := [BlockOp(0, Idb(raw), Disk(true, true, 0))];
            Resolve(DecodeFile(Run(cfg, ops).Last()).section, 1) == Some(FromStream(raw))
  {
    var op := BlockOp(0, Idb(raw), Disk(true, true, 0));
    assert [op][..0] == [];
    OneGenerated(cfg);
    var w := Start(cfg);
    assert Run(cfg, [op]) == RunLast(cfg, [op]) == Apply(cfg, w, op);
    assert Run(cfg, [op]).files == Append(w.files, Copied(Idb(raw)));
    DecodeAppended(w.Last(), Copied(Idb(raw)));
  }
}
