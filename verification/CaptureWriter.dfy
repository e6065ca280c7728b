/** The writing side of a capture in place: global_ld and the functions that update it. */
module CaptureWriter {
  import opened Bytes
  import opened Framing
  import opened PcapngFormat
  import opened PcapPipe
  import opened Sections
  import opened Writer
  import Closing
  import Limits

  class LoopData {
    const cfg: Config
    var go: bool
    var isOpen: bool
    var aborted: bool
    var savedShb: Option<seq<byte>>
    var savedIdbs: seq<SavedIdb>
    var maps: seq<seq<nat>>
    /** Each source's own output interface id, when it is not pcapng. */
    var idbIds: seq<nat>
    var packetsCaptured: nat
    var packetsWritten: nat
    var inpkts: nat
    var fileCount: nat
    var bytesWritten: nat
    var files: seq<File>
    var messages: seq<Message>
    var unannounced: Option<nat>

    /** Interface ids as they are saved. */
    ghost function SavedIds(): Ids
      reads this
    {
      Ids(savedShb, savedIdbs, maps)
    }

    /** The state that the specification speaks about. */
    ghost function View(): State
      reads this
    {
      State(go, isOpen, aborted, SavedIds(), Counters(packetsCaptured, packetsWritten, inpkts, fileCount, bytesWritten),
            files, messages, unannounced)
    }

    /** The interfaces mapped for a source are that source's, each once, and fit in 32 bits. */
    ghost predicate ValidIds()
      reads this`maps, this`savedIdbs, this`idbIds
    {
      && |maps| == |cfg.pcapng| && |savedIdbs| < TWO_TO_THE_32
      && (forall src | 0 <= src < |maps| :: MapsOwn(savedIdbs, maps[src], src))
      && |idbIds| == |cfg.pcapng| && (forall src | 0 <= src < |idbIds| :: idbIds[src] == IdbId(cfg, src))
    }

    ghost predicate Valid()
      reads this
    {
      files != [] && ValidIds()
    }

    /** Mark the interfaces of a source as deleted. */
    method DeleteIdbs(src: nat)
      requires Valid() && src < |maps|
      modifies this`savedIdbs
      ensures savedIdbs == MarkDeleted(old(savedIdbs), maps[src])
    {
      var i := 0;
      while i < |maps[src]|
        invariant i <= |maps[src]|
        invariant savedIdbs == MarkDeleted(old(savedIdbs), maps[src][..i])
      {
        var id := maps[src][i];
        assert id !in maps[src][..i];
        assert savedIdbs[id].owner == src;
        savedIdbs := savedIdbs[id := DELETED_IDB];
        assert maps[src][..i + 1] == maps[src][..i] + [id];
        i := i + 1;
      }
      assert maps[src][..i] == maps[src];
    }

    /** Save section headers and interface descriptions, and replace the interface id of a packet or
        statistics block by the one it has in the output. */
    method AdjustBlock(src: nat, pd: array<byte>) returns (ok: bool)
      requires Valid() && src < |maps| && pd.Length >= MIN_BLOCK_SIZE && |savedIdbs| + 1 < TWO_TO_THE_32
      modifies this`savedShb, this`savedIdbs, this`maps, pd
      ensures Valid()
      ensures SavedIds() == Collect(cfg, old(SavedIds()), src, BlockOf(old(pd[..])))
      ensures ok == Adjusted(cfg, old(SavedIds()), src, BlockOf(old(pd[..]))).Some?
      ensures ok ==> Some(BlockOf(pd[..])) == Adjusted(cfg, old(SavedIds()), src, BlockOf(old(pd[..])))
      ensures !ok ==> pd[..] == old(pd[..])
    {
      var blockType := BlockType(pd[..]);
      if blockType == BLOCK_TYPE_SHB {
        SaveSection(src, pd[..]);
      } else if blockType == BLOCK_TYPE_IDB {
        maps := maps[src := maps[src] + [|savedIdbs|]];
        savedIdbs := savedIdbs + [SavedIdb(false, src, Some(pd[..]))];
      } else if (blockType == BLOCK_TYPE_EPB || blockType == BLOCK_TYPE_ISB) && !cfg.Passthrough() {
        var id := U32(pd[..][8..12]);
        if id >= |maps[src]| {
          return false;
        }
        BlockWithId(pd[..], maps[src][id]);
        Store(pd, 8, maps[src][id]);
      }
      return true;
    }

    method SaveSection(src: nat, raw: seq<byte>)
      requires Valid() && src < |maps|
      modifies this`savedShb, this`savedIdbs, this`maps
      ensures Valid() && SavedIds() == Collect(cfg, old(SavedIds()), src, Block.Shb(raw))
      ensures |savedIdbs| <= |old(savedIdbs)|
    {
      if cfg.Passthrough() {
        savedShb, savedIdbs := Some(raw), [];
      } else {
        DeleteIdbs(src);
      }
      maps := maps[src := []];
    }

    // Output files

    /** Write one block to the current file. */
    method Write(o: Out)
      requires files != []
      modifies this`files, this`bytesWritten
      ensures View() == Put(cfg, old(View()), o)
    {
      files := Append(files, o);
      bytesWritten := bytesWritten + cfg.outSize(o);
    }

    /** Write one of the blocks that start a file, if the disk takes it. */
    method WriteFirst(o: Out, disk: Disk) returns (ok: bool)
      requires files != []
      modifies this`files, this`bytesWritten
      ensures ok == (|old(files)[|old(files)| - 1]| < disk.headerBlocks)
      ensures View() == if ok then Put(cfg, old(View()), o) else old(View())
    {
      ok := |files[|files| - 1]| < disk.headerBlocks;
      if ok {
        Write(o);
      }
    }

    /** The current file holds the first of these blocks, as far as the disk takes them. */
    ghost predicate Holds(blocks: File, disk: Disk)
      reads this
    {
      && files != []
      && files[|files| - 1] == FirstOf(blocks, disk.headerBlocks)
      && bytesWritten == TotalSize(cfg, files[|files| - 1])
    }

    method WriteNext(o: Out, ghost before: File, disk: Disk) returns (ok: bool)
      requires Holds(before, disk) && |before| <= disk.headerBlocks
      modifies this`files, this`bytesWritten
      ensures Holds(before + [o], disk) && ok == (|before| < disk.headerBlocks)
      ensures |files| == |old(files)| && files[..|files| - 1] == old(files[..|files| - 1])
    {
      ok := WriteFirst(o, disk);
      Limits.Appended(cfg, before, o);
    }

    /** Write the interface description for one entry. */
    method WriteIdb(e: SavedIdb, ghost before: File, disk: Disk) returns (ok: bool)
      requires Holds(before, disk) && |before| <= disk.headerBlocks
      modifies this`files, this`bytesWritten
      ensures Holds(before + IdbBlock(cfg, e), disk) && ok == (|before + IdbBlock(cfg, e)| <= disk.headerBlocks)
      ensures |files| == |old(files)| && files[..|files| - 1] == old(files[..|files| - 1])
    {
      if e.deleted {
        ok := WriteNext(OwnIdb(Dummy), before, disk);
      } else if e.idb.Some? {
        ok := WriteNext(Copied(Idb(e.idb.value)), before, disk);
      } else if e.owner < |cfg.pcapng| {
        ok := WriteNext(OwnIdb(OfSource(e.owner)), before, disk);
      } else {
        assert before + IdbBlock(cfg, e) == before;
        ok := true;
      }
    }

    /** Write the blocks that a new pcapng file starts with, until one cannot be written. */
    method InitPcapngOutput(disk: Disk) returns (successful: bool)
      requires Holds([], disk) && cfg.usePcapng
      modifies this`files, this`bytesWritten
      ensures Holds(HeaderBlocks(cfg, SavedIds()), disk) && successful == HeaderFits(cfg, SavedIds(), disk)
      ensures |files| == |old(files)| && files[..|files| - 1] == old(files[..|files| - 1])
    {
      if cfg.Passthrough() && savedShb.None? {
        return true;
      }
      var shb := if savedShb.Some? then Copied(Block.Shb(savedShb.value)) else OwnShb;
      successful := WriteNext(shb, [], disk);
      assert [] + [shb] == [shb];
      assert HeaderBlocks(cfg, SavedIds()) == [shb] + IdbBlocks(cfg, savedIdbs);
      successful := WriteIdbs(shb, successful, disk);
    }

    method WriteIdbs(shb: Out, first: bool, disk: Disk) returns (successful: bool)
      requires Holds([shb], disk) && first == (1 <= disk.headerBlocks)
      modifies this`files, this`bytesWritten
      ensures Holds([shb] + IdbBlocks(cfg, savedIdbs), disk)
      ensures successful == (|[shb] + IdbBlocks(cfg, savedIdbs)| <= disk.headerBlocks)
      ensures |files| == |old(files)| && files[..|files| - 1] == old(files[..|files| - 1])
    {
      successful := first;
      ghost var written := [shb];
      assert written == [shb] + IdbBlocks(cfg, savedIdbs[..0]);
      var i := 0;
      while successful && i < |savedIdbs|
        invariant i <= |savedIdbs|
        invariant written == [shb] + IdbBlocks(cfg, savedIdbs[..i])
        invariant Holds(written, disk) && successful == (|written| <= disk.headerBlocks)
        invariant |files| == |old(files)| && files[..|files| - 1] == old(files[..|files| - 1])
      {
        successful := WriteIdb(savedIdbs[i], written, disk);
        StartNext(cfg, shb, savedIdbs, i);
        written := written + IdbBlock(cfg, savedIdbs[i]);
        i := i + 1;
      }
      StartPrefix(cfg, shb, savedIdbs, i, disk.headerBlocks);
    }

    /** Write what a new file starts with. */
    method InitOutput(disk: Disk) returns (successful: bool)
      requires Holds([], disk)
      modifies this`files, this`bytesWritten
      ensures Holds(HeaderBlocks(cfg, SavedIds()), disk) && successful == HeaderFits(cfg, SavedIds(), disk)
      ensures |files| == |old(files)| && files[..|files| - 1] == old(files[..|files| - 1])
    {
      if cfg.usePcapng {
        successful := InitPcapngOutput(disk);
      } else {
        successful := WriteNext(FileHeader, [], disk);
        assert [] + [FileHeader] == HeaderBlocks(cfg, SavedIds());
      }
    }

    // Limits

    /** Send the packets not yet reported. */
    method ReportPackets()
      modifies this`inpkts, this`messages
      ensures View() == ReportCount(cfg, old(View()))
    {
      if inpkts != 0 {
        if !cfg.quiet {
          messages := messages + [PacketCount(inpkts)];
        }
        inpkts := 0;
      }
    }

    method ReportNewFile()
      requires files != []
      modifies this`messages, this`unannounced
      ensures View() == ReportFile(cfg, old(View()))
    {
      if cfg.Passthrough() {
        unannounced := Some(|files| - 1);
      } else {
        messages := messages + [NewFile(|files| - 1)];
      }
    }

    /** Begin the next file. */
    method BeginFile(disk: Disk) returns (ok: bool)
      modifies this`files, this`bytesWritten, this`packetsWritten
      ensures View() == StartFile(cfg, old(View()), disk) && ok == HeaderFits(cfg, SavedIds(), disk)
    {
      files, bytesWritten, packetsWritten := files + [[]], 0, 0;
      ok := InitOutput(disk);
      assert files == old(files) + [files[|files| - 1]];
    }

    /** Go on in the next file, if it can be begun. */
    method NextFile(disk: Disk) returns (ok: bool)
      modifies this`go, this`isOpen, this`files, this`bytesWritten, this`packetsWritten, this`inpkts, this`messages,
               this`unannounced
      ensures ok == HeaderFits(cfg, SavedIds(), disk)
      ensures View() == var w := StartFile(cfg, old(View()), disk);
                        if ok then ReportFile(cfg, ReportCount(cfg, w)) else w.(open := false, go := false)
    {
      ok := BeginFile(disk);
      if !ok {
        isOpen, go := false, false;
        return;
      }
      ReportPackets();
      ReportNewFile();
    }

    /** A file limit has been reached. */
    method DoFileSwitchOrStop(disk: Disk) returns (ok: bool)
      requires files != []
      modifies this`go, this`isOpen, this`fileCount, this`files, this`bytesWritten, this`packetsWritten, this`inpkts,
               this`messages, this`unannounced
      ensures View() == SwitchOrStop(cfg, old(View()), disk)
      ensures ok == Switches(cfg, old(View()), disk)
    {
      if !cfg.multiFiles || !isOpen {
        go := false;
        return false;
      }
      if cfg.autostopFiles.Some? {
        fileCount := fileCount + 1;
        if fileCount >= cfg.autostopFiles.value {
          go := false;
          return false;
        }
      }
      if !disk.switched {
        go := false;
        return false;
      }
      assert View() == CountFile(cfg, old(View()));
      ok := NextFile(disk);
    }

    /** One packet has been written. */
    method CountOnePacket(disk: Disk)
      requires files != []
      modifies this`packetsCaptured, this`go, this`isOpen, this`fileCount, this`files, this`bytesWritten,
               this`packetsWritten, this`inpkts, this`messages, this`unannounced
      ensures View() == WroteOnePacket(cfg, old(View()), disk)
    {
      packetsCaptured, packetsWritten, inpkts := packetsCaptured + 1, packetsWritten + 1, inpkts + 1;
      ghost var w := View();
      assert w == old(View()).(n := CountPacket(old(View()).n));
      if cfg.autostopPackets.Some? && packetsCaptured >= cfg.autostopPackets.value {
        go := false;
        return;
      }
      if cfg.autostopWrittenPackets.Some? && packetsCaptured >= cfg.autostopWrittenPackets.value {
        go := false;
        return;
      }
      assert !Enough(cfg, w.n);
      if cfg.filePackets.Some? && packetsWritten >= cfg.filePackets.value {
        var _ := DoFileSwitchOrStop(disk);
        return;
      }
      var filesize := Filesize(cfg);
      if filesize.Some? && filesize.value > 0 && bytesWritten / 1000 >= filesize.value {
        var _ := DoFileSwitchOrStop(disk);
      }
    }

    // Packets and blocks

    /** A pcapng block has been captured. */
    method WritePcapng(src: nat, pd: array<byte>, disk: Disk) returns (fate: Fate)
      requires Valid() && src < |maps| && pd.Length >= MIN_BLOCK_SIZE && |savedIdbs| + 1 < TWO_TO_THE_32
      modifies this, pd
      ensures Valid() && View() == WriteBlock(cfg, old(View()), src, BlockOf(old(pd[..])), disk)
      ensures fate == BlockFate(cfg, old(View()), src, BlockOf(old(pd[..])), disk)
    {
      if !go {
        return Flushed;
      }
      fate := AdjustAndWrite(src, pd, disk);
    }

    method AdjustAndWrite(src: nat, pd: array<byte>, disk: Disk) returns (fate: Fate)
      requires Valid() && go && src < |maps| && pd.Length >= MIN_BLOCK_SIZE && |savedIdbs| + 1 < TWO_TO_THE_32
      modifies this, pd
      ensures Valid() && View() == WriteBlock(cfg, old(View()), src, BlockOf(old(pd[..])), disk)
      ensures fate == BlockFate(cfg, old(View()), src, BlockOf(old(pd[..])), disk)
    {
      ghost var w, block := View(), BlockOf(pd[..]);
      var ok := AdjustBlock(src, pd);
      assert View() == w.(ids := Collect(cfg, w.ids, src, block));
      if !ok {
        MeaninglessId(cfg, w, src, block, disk);
        aborted := true;
        return Fate.Aborted;
      }
      WriteBlockIs(cfg, w, src, block, disk);
      fate := WriteAdjusted(BlockOf(pd[..]), disk);
    }

    /** A block has been adjusted: write it. */
    method WriteAdjusted(block: Block, disk: Disk) returns (fate: Fate)
      requires files != []
      modifies this`go, this`isOpen, this`fileCount, this`files, this`bytesWritten, this`packetsWritten, this`inpkts,
               this`messages, this`unannounced, this`packetsCaptured
      ensures fate == AdjustedFate(cfg, old(isOpen), block, disk)
      ensures View() == AfterAdjusting(cfg, old(View()), block, disk)
    {
      if block.Shb? && !cfg.Passthrough() {
        return Absorbed;
      }
      if !isOpen {
        return Discarded;
      }
      if !disk.write {
        go := false;
        return Dropped;
      }
      Write(Copied(block));
      if block.IsData() {
        CountOnePacket(disk);
      } else if block.Shb? && unannounced.Some? {
        messages := messages + [NewFile(unannounced.value)];
        unannounced := None;
      }
      return Written;
    }

    /** A packet of another source has been captured. */
    method WriteOnePacket(src: nat, packet: Packet, disk: Disk) returns (fate: Fate)
      requires Valid() && src < |cfg.pcapng|
      modifies this
      ensures Valid() && View() == WritePacket(cfg, old(View()), src, packet, disk)
      ensures fate == PacketFate(cfg, old(View()), disk)
    {
      if !go {
        return Flushed;
      }
      if !isOpen {
        return Discarded;
      }
      if !disk.write {
        go := false;
        return Dropped;
      }
      Write(if cfg.usePcapng then PacketBlock(idbIds[src], packet) else PacketRecord(packet));
      CountOnePacket(disk);
      return Written;
    }

    /** The periodic part of the capture loop. */
    method UpdateInTime(clock: Clock, first: Disk, second: Disk)
      requires Valid()
      modifies this
      ensures Valid() && View() == Update(cfg, old(View()), clock, first, second)
    {
      ReportPackets();
      if clock.autostopDuration {
        go := false;
        return;
      }
      if clock.fileDuration {
        var ok := DoFileSwitchOrStop(first);
        if !ok {
          return;
        }
      }
      if clock.fileInterval {
        var _ := DoFileSwitchOrStop(second);
      }
    }

    /** Stop capturing. */
    method Stop()
      modifies this`go
      ensures View() == old(View()).(go := false)
    {
      go := false;
    }

    /** Write the statistics of each source that is not read from a pipe, with its number. */
    method WriteStatistics(stats: seq<seq<byte>>)
      requires files != [] && |stats| == |cfg.fromPipe|
      modifies this`files, this`bytesWritten
      ensures files == old(files[..|files| - 1]) + [old(files[|files| - 1]) + Closing.Statistics(cfg.fromPipe, stats)]
      ensures bytesWritten == old(bytesWritten) + TotalSize(cfg, Closing.Statistics(cfg.fromPipe, stats))
    {
      var i := 0;
      ghost var written: File := [];
      assert files[|files| - 1] == files[|files| - 1] + written;
      while i < |stats|
        invariant i <= |stats| && |files| == |old(files)| && files[..|files| - 1] == old(files[..|files| - 1])
        invariant written == Closing.Statistics(cfg.fromPipe[..i], stats[..i])
        invariant files[|files| - 1] == old(files[|files| - 1]) + written
        invariant bytesWritten == old(bytesWritten) + TotalSize(cfg, written)
      {
        assert stats[..i + 1][..i] == stats[..i] && cfg.fromPipe[..i + 1][..i] == cfg.fromPipe[..i];
        if !cfg.fromPipe[i] {
          var o := Copied(Isb(i, stats[i]));
          Associate(old(files[|files| - 1]), written, [o]);
          Limits.Appended(cfg, written, o);
          Write(o);
          written := written + [o];
        }
        i := i + 1;
      }
      assert stats[..i] == stats && cfg.fromPipe[..i] == cfg.fromPipe;
    }

    /** Close the output, and report what has not been reported. */
    method CloseOutput(stats: seq<seq<byte>>)
      requires files != [] && |stats| == |cfg.fromPipe|
      modifies this`files, this`bytesWritten, this`isOpen, this`inpkts, this`messages
      ensures files == old(files[..|files| - 1]) + [Closing.CloseOutput(cfg, old(files[|files| - 1]), stats)]
      ensures messages == ReportCount(cfg, old(View())).messages && inpkts == 0 && !isOpen
    {
      if !cfg.multiFiles && cfg.usePcapng {
        WriteStatistics(stats);
      }
      isOpen := false;
      ReportPackets();
    }

    /** The state before any input is opened. */
    constructor (cfg: Config)
      ensures this.cfg == cfg && savedIdbs == [] && savedShb.None? && idbIds == [] && maps == [] && files == []
      ensures messages == [] && unannounced.None? && inpkts == 0 && packetsCaptured == 0 && fileCount == 0
    {
      this.cfg := cfg;
      go, isOpen, aborted, savedShb, savedIdbs, maps, idbIds := false, false, false, None, [], [], [];
      packetsCaptured, packetsWritten, inpkts, fileCount, bytesWritten := 0, 0, 0, 0, 0;
      files, messages, unannounced := [], [], None;
    }

    /** Open the inputs: an interface description for each source that is not pcapng. */
    method OpenInput()
      requires savedIdbs == [] && idbIds == [] && maps == [] && |cfg.pcapng| < TWO_TO_THE_32
      modifies this`savedIdbs, this`idbIds, this`maps
      ensures savedIdbs == InitialIdbs(cfg, |cfg.pcapng|) && maps == seq(|cfg.pcapng|, _ => [])
      ensures |idbIds| == |cfg.pcapng| && forall src | 0 <= src < |idbIds| :: idbIds[src] == IdbId(cfg, src)
    {
      var i := 0;
      while i < |cfg.pcapng|
        invariant i <= |cfg.pcapng| && savedIdbs == InitialIdbs(cfg, i)
        invariant idbIds == Places(cfg, i) && maps == Empties(i)
      {
        OpenOne(i);
        i := i + 1;
      }
      EmptiesAre(i);
    }

    method OpenOne(i: nat)
      requires i < |cfg.pcapng| && savedIdbs == InitialIdbs(cfg, i) && idbIds == Places(cfg, i) && maps == Empties(i)
      modifies this`savedIdbs, this`idbIds, this`maps
      ensures savedIdbs == InitialIdbs(cfg, i + 1) && idbIds == Places(cfg, i + 1) && maps == Empties(i + 1)
    {
      idbIds, maps := idbIds + [|savedIdbs|], maps + [[]];
      if !cfg.pcapng[i] {
        savedIdbs := savedIdbs + [SavedIdb(false, i, None)];
      }
    }

    /** Start a capture: the inputs are opened, and the first file is begun, all of whose first
        blocks can be written. */
    method StartCapture()
      requires savedIdbs == [] && savedShb.None? && idbIds == [] && maps == [] && files == [] && messages == []
      requires unannounced.None? && inpkts == 0 && packetsCaptured == 0 && fileCount == 0
      requires |cfg.pcapng| < TWO_TO_THE_32
      modifies this
      ensures Valid() && View() == Start(cfg)
    {
      OpenInput();
      Closing.IdbIdCounts(cfg, |cfg.pcapng|);
      go, isOpen, aborted, bytesWritten, packetsWritten := true, true, false, 0, 0;
      BeginFirstFile();
    }

    method BeginFirstFile()
      requires View() == Opened(cfg)
      modifies this`files, this`bytesWritten, this`packetsWritten, this`messages, this`unannounced
      ensures View() == Start(cfg)
    {
      var disk := Disk(true, true, 1 + |savedIdbs|);
      IdbBlocksSize(cfg, savedIdbs);
      AllFirstBlocks(cfg, Opened(cfg), disk);
      var _ := BeginFile(disk);
      ReportNewFile();
    }
  }

  ghost predicate MapsOwn(idbs: seq<SavedIdb>, map_: seq<nat>, src: nat) {
    && (forall k | 0 <= k < |map_| :: map_[k] < |idbs| && idbs[map_[k]].owner == src)
    && (forall j, k | 0 <= j < k < |map_| :: map_[j] < map_[k])
  }

  /** The output interface ids of the first n sources, and their maps when they have been opened. */
  function Places(cfg: Config, n: nat): (r: seq<nat>)
    requires n <= |cfg.pcapng|
    ensures |r| == n && forall src | 0 <= src < n :: r[src] == IdbId(cfg, src)
  {
    if n == 0 then [] else Places(cfg, n - 1) + [IdbId(cfg, n - 1)]
  }

  function Empties(n: nat): seq<seq<nat>> {
    if n == 0 then [] else Empties(n - 1) + [[]]
  }

  lemma {:induction false} EmptiesAre(n: nat)
    ensures Empties(n) == seq(n, _ => [])
  {
    if n == 0 {
    } else {
      EmptiesAre(n - 1);
    }
  }

  function FirstOf(f: File, n: nat): File {
    if n < |f| then f[..n] else f
  }

  lemma IdbBlocksNext(cfg: Config, idbs: seq<SavedIdb>, i: nat)
    requires i < |idbs|
    ensures IdbBlocks(cfg, idbs[..i + 1]) == IdbBlocks(cfg, idbs[..i]) + IdbBlock(cfg, idbs[i])
  {
    assert idbs[..i + 1][..i] == idbs[..i];
  }

  lemma {:induction false} IdbBlocksPrefix(cfg: Config, idbs: seq<SavedIdb>, i: nat)
    requires i <= |idbs|
    ensures IdbBlocks(cfg, idbs[..i]) <= IdbBlocks(cfg, idbs)
    decreases |idbs| - i
  {
    if i < |idbs| {
      IdbBlocksNext(cfg, idbs, i);
      IdbBlocksPrefix(cfg, idbs, i + 1);
    } else {
      assert idbs[..i] == idbs;
    }
  }

  lemma {:induction false} IdbBlocksSize(cfg: Config, idbs: seq<SavedIdb>)
    ensures |IdbBlocks(cfg, idbs)| <= |idbs|
  {
    if idbs == [] {
    } else {
      IdbBlocksSize(cfg, idbs[..|idbs| - 1]);
    }
  }

  lemma AllFirstBlocks(cfg: Config, w: State, disk: Disk)
    requires HeaderFits(cfg, w.ids, disk)
    ensures StartFile(cfg, w, disk) == StartFile(cfg, w, Disk(true, true, |HeaderBlocks(cfg, w.ids)|))
  {
  }

  lemma StartNext(cfg: Config, shb: Out, idbs: seq<SavedIdb>, i: nat)
    requires i < |idbs|
    ensures [shb] + IdbBlocks(cfg, idbs[..i + 1]) == [shb] + IdbBlocks(cfg, idbs[..i]) + IdbBlock(cfg, idbs[i])
  {
    IdbBlocksNext(cfg, idbs, i);
    Associate([shb], IdbBlocks(cfg, idbs[..i]), IdbBlock(cfg, idbs[i]));
  }

  lemma StartPrefix(cfg: Config, shb: Out, idbs: seq<SavedIdb>, i: nat, n: nat)
    requires i <= |idbs| && (i == |idbs| || n < |[shb] + IdbBlocks(cfg, idbs[..i])|)
    ensures FirstOf([shb] + IdbBlocks(cfg, idbs[..i]), n) == FirstOf([shb] + IdbBlocks(cfg, idbs), n)
    ensures |[shb] + IdbBlocks(cfg, idbs[..i])| <= n <==> |[shb] + IdbBlocks(cfg, idbs)| <= n
  {
    IdbBlocksPrefix(cfg, idbs, i);
    assert idbs[..|idbs|] == idbs;
  }

  /** A block's kind does not depend on its interface id. */
  lemma AdjustedKind(cfg: Config, ids: Ids, src: nat, block: Block)
    requires src < |ids.maps| && Adjusted(cfg, ids, src, block).Some?
    ensures var to := Adjusted(cfg, ids, src, block).value; to.Shb? == block.Shb? && to.IsData() == block.IsData()
  {
  }

  function AdjustedFate(cfg: Config, isOpen: bool, to: Block, disk: Disk): Fate {
    if to.Shb? && !cfg.Passthrough() then Absorbed else if !isOpen then Discarded
    else if !disk.write then Dropped else Written
  }

  function AfterAdjusting(cfg: Config, w: State, to: Block, disk: Disk): State
    requires w.files != []
  {
    match AdjustedFate(cfg, w.open, to, disk)
    case Written => BlockWritten(cfg, Put(cfg, w, Copied(to)), to, disk)
    case Dropped => w.(go := false)
    case _ => w
  }

  /** A block whose interface id means nothing ends the process. */
  lemma MeaninglessId(cfg: Config, w: State, src: nat, block: Block, disk: Disk)
    requires w.files != [] && src < |w.ids.maps| && w.go && Adjusted(cfg, w.ids, src, block).None?
    ensures Collect(cfg, w.ids, src, block) == w.ids && BlockFate(cfg, w, src, block, disk) == Fate.Aborted
    ensures WriteBlock(cfg, w, src, block, disk) == w.(aborted := true)
  {
  }

  /** Writing a block is adjusting it and writing what comes of that. */
  lemma WriteBlockIs(cfg: Config, w: State, src: nat, block: Block, disk: Disk)
    requires w.files != [] && src < |w.ids.maps| && w.go && Adjusted(cfg, w.ids, src, block).Some?
    ensures var to := Adjusted(cfg, w.ids, src, block).value; var w1 := w.(ids := Collect(cfg, w.ids, src, block));
            && BlockFate(cfg, w, src, block, disk) == AdjustedFate(cfg, w1.open, to, disk)
            && WriteBlock(cfg, w, src, block, disk) == AfterAdjusting(cfg, w1, to, disk)
  {
    AdjustedKind(cfg, w.ids, src, block);
  }
}
