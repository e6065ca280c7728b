/** Several sources into one pcapng output: what the files attribute to the interfaces of one of the
    sources is what its own blocks say. */
module SourceAttribution {
  import opened Bytes
  import opened Framing
  import opened Sections
  import opened Writer
  import opened Payload
  import opened Passthrough
  import opened Multiplexing
  import CaptureQueue

  // Whose interface an output id stands for

  predicate Describes(op: Op, fate: Fate) {
    op.BlockOp? && op.block.Idb? && fate != Flushed && fate != Fate.Aborted
  }

  /** The source that each output interface id was given to. */
  function Owners(cfg: Config, ops: seq<Op>): seq<nat>
    requires OpsFit(cfg, ops)
  {
    if ops == [] then OwnersOf(InitialIdbs(cfg, |cfg.pcapng|))
    else
      var before, op := ops[..|ops| - 1], ops[|ops| - 1];
      Owners(cfg, before) + if Describes(op, FateOf(cfg, Run(cfg, before), op)) then [op.src] else []
  }

  function OwnersOf(idbs: seq<SavedIdb>): (r: seq<nat>)
    ensures |r| == |idbs| && forall i | 0 <= i < |idbs| :: r[i] == idbs[i].owner
  {
    seq(|idbs|, i requires 0 <= i < |idbs| => idbs[i].owner)
  }

  /** There is an owner for each saved description, who is the one it names while it is live. */
  ghost predicate OwnersRight(ids: Ids, owners: seq<nat>) {
    && |owners| == |ids.savedIdbs|
    && (forall j | 0 <= j < |owners| && !ids.savedIdbs[j].deleted :: owners[j] == ids.savedIdbs[j].owner)
  }

  lemma CollectKeepsOwners(cfg: Config, ids: Ids, src: nat, block: Block, owners: seq<nat>)
    requires !cfg.Passthrough() && src < |ids.maps| && OwnersRight(ids, owners)
    ensures OwnersRight(Collect(cfg, ids, src, block), owners + if block.Idb? then [src] else [])
  {
  }

  lemma IdsAfter(cfg: Config, w: State, op: Op)
    requires w.Shaped(cfg) && OpFits(cfg, op)
    ensures var fate := FateOf(cfg, w, op);
            Apply(cfg, w, op).ids == if op.BlockOp? && fate != Flushed && fate != Fate.Aborted
                                     then Collect(cfg, w.ids, op.src, op.block) else w.ids
  {
  }

  lemma StepKeepsOwners(cfg: Config, w: State, op: Op, owners: seq<nat>)
    requires cfg.Multiplexing() && w.Shaped(cfg) && OpFits(cfg, op) && OwnersRight(w.ids, owners)
    ensures OwnersRight(Apply(cfg, w, op).ids, owners + if Describes(op, FateOf(cfg, w, op)) then [op.src] else [])
  {
    IdsAfter(cfg, w, op);
    if op.BlockOp? {
      CollectKeepsOwners(cfg, w.ids, op.src, op.block, owners);
    }
    assert owners + [] == owners;
  }

  lemma {:induction false} OwnersAreRight(cfg: Config, ops: seq<Op>)
    requires cfg.Multiplexing() && OpsFit(cfg, ops)
    ensures OwnersRight(Run(cfg, ops).ids, Owners(cfg, ops))
  {
    if ops == [] {
    } else {
      var before := ops[..|ops| - 1];
      OwnersAreRight(cfg, before);
      StepKeepsOwners(cfg, Run(cfg, before), ops[|ops| - 1], Owners(cfg, before));
    }
  }

  // What the files attribute to a source

  /** The interface id of a block that has one. */
  function IdOf(o: Out): seq<nat> {
    match o
    case Copied(Epb(id, _)) => [id]
    case Copied(Isb(id, _)) => [id]
    case PacketBlock(id, _) => [id]
    case _ => []
  }

  function IdsIn(f: File): seq<nat> {
    if f == [] then [] else IdsIn(f[..|f| - 1]) + IdOf(f[|f| - 1])
  }

  /** The attributions whose id is one of a source's. */
  function OfOwner(ids: seq<nat>, items: seq<Attribution>, owners: seq<nat>, src: nat): seq<Attribution>
    requires |ids| == |items|
  {
    if ids == [] then []
    else
      var n := |ids| - 1;
      OfOwner(ids[..n], items[..n], owners, src) + if ids[n] < |owners| && owners[ids[n]] == src then [items[n]] else []
  }

  lemma IdsInOne(f: File, o: Out)
    ensures IdsIn(f + [o]) == IdsIn(f) + IdOf(o)
  {
    assert (f + [o])[..|f + [o]| - 1] == f;
  }

  lemma OfOwnerOne(ids: seq<nat>, items: seq<Attribution>, id: nat, item: Attribution, owners: seq<nat>, src: nat)
    requires |ids| == |items|
    ensures OfOwner(ids + [id], items + [item], owners, src)
         == OfOwner(ids, items, owners, src) + if id < |owners| && owners[id] == src then [item] else []
  {
    assert (ids + [id])[..|ids|] == ids && (items + [item])[..|items|] == items;
  }

  /** Ids given out later change nothing. */
  lemma {:induction false} OfOwnerGrows(ids: seq<nat>, items: seq<Attribution>, owners: seq<nat>, more: seq<nat>, src: nat)
    requires |ids| == |items| && forall i | 0 <= i < |ids| :: ids[i] < |owners|
    ensures OfOwner(ids, items, owners + more, src) == OfOwner(ids, items, owners, src)
  {
    if ids == [] {
    } else {
      var n := |ids| - 1;
      OfOwnerGrows(ids[..n], items[..n], owners, more, src);
    }
  }

  // What one operation adds

  predicate IsOf(op: Op, src: nat) {
    (op.BlockOp? || op.PacketOp?) && op.src == src
  }

  lemma CopyIsOwned(cfg: Config, ids: Ids, sections: SourceSections, owners: seq<nat>, src: nat, block: Block)
    requires cfg.Multiplexing() && IdsInv(cfg, ids, sections) && OwnersRight(ids, owners) && src < |sections|
    requires Adjusted(cfg, ids, src, block).Some?
    ensures var used := IdOf(Copied(Adjusted(cfg, ids, src, block).value));
            if block.CarriesId() then |used| == 1 && used[0] < |owners| && owners[used[0]] == src else used == []
  {
    assert Mapped(ids, sections, src);
  }

  lemma PacketIsOwned(cfg: Config, ids: Ids, sections: SourceSections, owners: seq<nat>, src: nat, packet: Packet)
    requires cfg.Multiplexing() && IdsInv(cfg, ids, sections) && OwnersRight(ids, owners) && src < |sections|
    requires !cfg.pcapng[src]
    ensures var used := IdOf(PacketOut(cfg, src, packet)); |used| == 1 && used[0] < |owners| && owners[used[0]] == src
  {
  }

  /** The ids, at most one, of the block or packet that an operation writes. */
  function IdUsed(cfg: Config, w: State, op: Op): seq<nat>
    requires w.Shaped(cfg) && OpFits(cfg, op)
  {
    IdsIn(Added(cfg, w, op))
  }

  lemma IdsInThat(o: Out)
    ensures IdsIn([o]) == IdOf(o)
  {
    IdsInOne([], o);
    assert [] + [o] == [o];
  }

  /** What an operation's block or packet is attributed to has an id of the operation's source. */
  lemma AddedIsOwned(cfg: Config, w: State, sections: SourceSections, op: Op, owners: seq<nat>)
    requires cfg.Multiplexing() && IdsInv(cfg, w.ids, sections) && OwnersRight(w.ids, owners)
    requires w.Shaped(cfg) && OpFits(cfg, op) && FateOf(cfg, w, op) == Written
    ensures var ids, items := IdUsed(cfg, w, op), OwnAttribution(cfg, sections, op);
            |ids| == |items| <= 1 && (ids != [] ==> ids[0] < |owners| && IsOf(op, owners[ids[0]]))
  {
    match op
    case BlockOp(src, block, _) =>
      CopyIsOwned(cfg, w.ids, sections, owners, src, block);
      IdsInThat(Copied(Adjusted(cfg, w.ids, src, block).value));
    case PacketOp(src, packet, _) =>
      PacketIsOwned(cfg, w.ids, sections, owners, src, packet);
      IdsInThat(PacketOut(cfg, src, packet));
  }

  /** What the packets and statistics written of a source meant there. */
  function MeantFrom(cfg: Config, ops: seq<Op>, src: nat): seq<Attribution>
    requires OpsFit(cfg, ops)
  {
    if ops == [] then []
    else
      var before, op := ops[..|ops| - 1], ops[|ops| - 1];
      MeantFrom(cfg, before, src)
      + if IsOf(op, src) && FateOf(cfg, Run(cfg, before), op) == Written
        then OwnAttribution(cfg, Meant(cfg, before).sections, op) else []
  }

  /** The ids and attributions of the files so far, and those of a source. */
  ghost predicate Attributes(ids: seq<nat>, items: seq<Attribution>, owners: seq<nat>, src: nat, own: seq<Attribution>) {
    && |ids| == |items| && (forall i | 0 <= i < |ids| :: ids[i] < |owners|)
    && OfOwner(ids, items, owners, src) == own
  }

  lemma AttributesGrows(ids: seq<nat>, items: seq<Attribution>, owners: seq<nat>, more: seq<nat>, src: nat, own: seq<Attribution>)
    requires Attributes(ids, items, owners, src, own)
    ensures Attributes(ids, items, owners + more, src, own)
  {
    OfOwnerGrows(ids, items, owners, more, src);
  }

  lemma AttributesMore(ids: seq<nat>, items: seq<Attribution>, owners: seq<nat>, src: nat, own: seq<Attribution>,
                       used: seq<nat>, added: seq<Attribution>)
    requires Attributes(ids, items, owners, src, own) && |used| == |added| <= 1
    requires used != [] ==> used[0] < |owners|
    ensures Attributes(ids + used, items + added, owners, src,
                       own + if used != [] && owners[used[0]] == src then added else [])
  {
    if used == [] {
      assert ids + used == ids && items + added == items && own + [] == own;
    } else {
      assert used == [used[0]] && added == [added[0]];
      OfOwnerOne(ids, items, used[0], added[0], owners, src);
    }
  }

  lemma IdsInAdded(cfg: Config, w: State, op: Op)
    requires w.Shaped(cfg) && OpFits(cfg, op)
    ensures IdsIn(AllPayload(Apply(cfg, w, op).files)) == IdsIn(AllPayload(w.files)) + IdUsed(cfg, w, op)
  {
    var f, added := AllPayload(w.files), Added(cfg, w, op);
    StepAddsPayload(cfg, w, op);
    if added == [] {
      assert f + added == f && IdsIn(f) + [] == IdsIn(f);
    } else {
      assert added == [added[0]];
      IdsInOne(f, added[0]);
      IdsInThat(added[0]);
    }
  }

  lemma StepAttributes(cfg: Config, w: State, m: Meaning, op: Op, owners: seq<nat>, src: nat, own: seq<Attribution>)
    requires cfg.Multiplexing() && IdsInv(cfg, w.ids, m.sections) && OwnersRight(w.ids, owners)
    requires w.Shaped(cfg) && OpFits(cfg, op)
    requires Attributes(IdsIn(AllPayload(w.files)), m.items, owners, src, own)
    ensures var fate := FateOf(cfg, w, op);
            Attributes(IdsIn(AllPayload(Apply(cfg, w, op).files)), MeaningAfter(cfg, m, w, op).items,
                       owners + if Describes(op, fate) then [op.src] else [], src,
                       own + if IsOf(op, src) && fate == Written then OwnAttribution(cfg, m.sections, op) else [])
  {
    var ids, used := IdsIn(AllPayload(w.files)), IdUsed(cfg, w, op);
    var more := if Describes(op, FateOf(cfg, w, op)) then [op.src] else [];
    IdsInAdded(cfg, w, op);
    if FateOf(cfg, w, op) == Written {
      var added := OwnAttribution(cfg, m.sections, op);
      AddedIsOwned(cfg, w, m.sections, op, owners);
      AttributesMore(ids, m.items, owners, src, own, used, added);
      AttributesGrows(ids + used, m.items + added, owners, more, src, own + if used != [] && owners[used[0]] == src then added else []);
      assert used != [] && owners[used[0]] == src ==> IsOf(op, src);
      assert IsOf(op, src) && used != [] ==> owners[used[0]] == src;
      assert used == [] ==> added == [];
    } else {
      AttributesMore(ids, m.items, owners, src, own, [], []);
      AttributesGrows(ids + [], m.items + [], owners, more, src, own + []);
    }
  }

  /** In every run, the attributions whose ids are a source's are what was written of it, as it
      meant it. */
  lemma {:induction false} FilesAttribute(cfg: Config, ops: seq<Op>, src: nat)
    requires cfg.Multiplexing() && OpsFit(cfg, ops)
    ensures Attributes(IdsIn(AllPayload(Run(cfg, ops).files)), Explicit(DecodeFiles(Run(cfg, ops).files)),
                       Owners(cfg, ops), src, MeantFrom(cfg, ops, src))
  {
    AttributionPreserved(cfg, ops);
    MeantAttributed(cfg, ops, src);
  }

  lemma {:induction false} MeantAttributed(cfg: Config, ops: seq<Op>, src: nat)
    requires cfg.Multiplexing() && OpsFit(cfg, ops)
    ensures Attributes(IdsIn(AllPayload(Run(cfg, ops).files)), Meant(cfg, ops).items, Owners(cfg, ops), src, MeantFrom(cfg, ops, src))
  {
    if ops == [] {
      StartPayload(cfg);
    } else {
      var before, op := ops[..|ops| - 1], ops[|ops| - 1];
      MeantAttributed(cfg, before, src);
      AttributionPreserved(cfg, before);
      OwnersAreRight(cfg, before);
      var w, m, owners, own := Run(cfg, before), Meant(cfg, before), Owners(cfg, before), MeantFrom(cfg, before, src);
      StepAttributes(cfg, w, m, op, owners, src, own);
      assert Run(cfg, ops) == Apply(cfg, w, op);
      assert Meant(cfg, ops) == MeaningAfter(cfg, m, w, op);
    }
  }

  // What a source's own blocks say

  /** What a reader of some blocks attributes by id. */
  function Says(s: seq<Block>): seq<Attribution> {
    Explicit(DecodeFile(Copies(s)).items)
  }

  function SaysNext(idbs: seq<seq<byte>>, block: Block): seq<Attribution> {
    match block
    case Epb(id, rest) => [Attribution(EpbItem(rest), if id < |idbs| then Some(FromStream(idbs[id])) else None)]
    case Isb(id, rest) => [Attribution(IsbItem(rest), if id < |idbs| then Some(FromStream(idbs[id])) else None)]
    case _ => []
  }

  lemma {:induction false} FromStreamsAt(idbs: seq<seq<byte>>)
    ensures |FromStreams(idbs)| == |idbs| && forall k | 0 <= k < |idbs| :: FromStreams(idbs)[k] == FromStream(idbs[k])
  {
    if idbs == [] {
    } else {
      FromStreamsAt(idbs[..|idbs| - 1]);
    }
  }

  lemma AttributedInSection(idbs: seq<seq<byte>>, block: Block)
    ensures Explicit(Attributed(FromStreams(idbs), Copied(block))) == SaysNext(idbs, block)
  {
    FromStreamsAt(idbs);
  }

  lemma SaysOneMore(s: seq<Block>, block: Block)
    ensures Says(s + [block]) == Says(s) + SaysNext(Current(s).idbs, block)
  {
    var d := DecodeFile(Copies(s));
    OneMoreCopied(s, block);
    DecodeAppended(Copies(s), Copied(block));
    CurrentDecodes(s);
    ExplicitAppend(d.items, Attributed(d.section, Copied(block)));
    AttributedInSection(Current(s).idbs, block);
  }

  /** The blocks of a source that the writer has taken: written or, if section headers, absorbed. */
  function TakenBlocks(cfg: Config, ops: seq<Op>, src: nat): seq<Block>
    requires OpsFit(cfg, ops)
  {
    if ops == [] then []
    else
      var before, op := ops[..|ops| - 1], ops[|ops| - 1];
      TakenBlocks(cfg, before, src)
      + if op.BlockOp? && op.src == src && FateOf(cfg, Run(cfg, before), op) in {Written, Absorbed} then [op.block] else []
  }

  /** While a capture goes on, the section of a source is that of its blocks taken. */
  ghost predicate Follows(w: State, m: Meaning, src: nat, own: seq<Attribution>, s: seq<Block>)
    requires src < |m.sections|
  {
    (w.go && !w.aborted ==> m.sections[src] == Current(s).idbs) && own == Says(s)
  }

  lemma TakenFollows(cfg: Config, w: State, m: Meaning, op: Op, src: nat, own: seq<Attribution>, s: seq<Block>)
    requires cfg.Multiplexing() && w.Shaped(cfg) && OpFits(cfg, op) && |m.sections| == |cfg.pcapng|
    requires src < |cfg.pcapng| && op.BlockOp? && op.src == src && Follows(w, m, src, own, s)
    requires FateOf(cfg, w, op) in {Written, Absorbed}
    ensures var added := if FateOf(cfg, w, op) == Written then OwnAttribution(cfg, m.sections, op) else [];
            Follows(Apply(cfg, w, op), MeaningAfter(cfg, m, w, op), src, own + added, s + [op.block])
  {
    SaysOneMore(s, op.block);
    OneMoreInSection(s, op.block);
    GoNeverReturns(cfg, w, op);
    TakenMeans(cfg, w, m.sections, src, op.block, op.disk);
  }

  lemma TakenMeans(cfg: Config, w: State, sections: SourceSections, src: nat, block: Block, disk: Disk)
    requires cfg.Multiplexing() && w.Shaped(cfg) && src < |sections| == |cfg.pcapng| && cfg.pcapng[src]
    requires FateOf(cfg, w, BlockOp(src, block, disk)) in {Written, Absorbed}
    ensures w.go && !w.aborted
    ensures SaysNext(sections[src], block)
            == if FateOf(cfg, w, BlockOp(src, block, disk)) == Written
               then OwnAttribution(cfg, sections, BlockOp(src, block, disk)) else []
  {
  }

  lemma OthersFollow(cfg: Config, w: State, m: Meaning, op: Op, src: nat, own: seq<Attribution>, s: seq<Block>)
    requires cfg.Multiplexing() && w.Shaped(cfg) && OpFits(cfg, op) && |m.sections| == |cfg.pcapng|
    requires src < |cfg.pcapng| && Follows(w, m, src, own, s) && (w.go && !w.aborted ==> w.open)
    requires IsOf(op, src) ==> FateOf(cfg, w, op) !in {Written, Absorbed}
    ensures Follows(Apply(cfg, w, op), MeaningAfter(cfg, m, w, op), src, own, s)
  {
    GoNeverReturns(cfg, w, op);
    if IsOf(op, src) {
      CaptureQueue.NoDiscards(cfg, w, op);
    }
  }

  lemma StepFollows(cfg: Config, w: State, m: Meaning, op: Op, src: nat, own: seq<Attribution>, s: seq<Block>)
    requires cfg.Multiplexing() && w.Shaped(cfg) && OpFits(cfg, op) && |m.sections| == |cfg.pcapng|
    requires src < |cfg.pcapng| && cfg.pcapng[src] && Follows(w, m, src, own, s) && (w.go && !w.aborted ==> w.open)
    ensures var fate := FateOf(cfg, w, op);
            Follows(Apply(cfg, w, op), MeaningAfter(cfg, m, w, op), src,
                    own + if IsOf(op, src) && fate == Written then OwnAttribution(cfg, m.sections, op) else [],
                    s + if op.BlockOp? && op.src == src && fate in {Written, Absorbed} then [op.block] else [])
  {
    if IsOf(op, src) && FateOf(cfg, w, op) in {Written, Absorbed} {
      TakenFollows(cfg, w, m, op, src, own, s);
      assert own + [] == own;
    } else {
      OthersFollow(cfg, w, m, op, src, own, s);
      assert own + [] == own && s + [] == s;
    }
  }

  lemma {:induction false} MeantIsSaid(cfg: Config, ops: seq<Op>, src: nat)
    requires cfg.Multiplexing() && OpsFit(cfg, ops) && src < |cfg.pcapng| && cfg.pcapng[src]
    ensures Follows(Run(cfg, ops), Meant(cfg, ops), src, MeantFrom(cfg, ops, src), TakenBlocks(cfg, ops, src))
  {
    if ops == [] {
      assert Says([]) == [];
    } else {
      var before, op := ops[..|ops| - 1], ops[|ops| - 1];
      MeantIsSaid(cfg, before, src);
      AttributionPreserved(cfg, before);
      var w, m, own, s := Run(cfg, before), Meant(cfg, before), MeantFrom(cfg, before, src), TakenBlocks(cfg, before, src);
      StepFollows(cfg, w, m, op, src, own, s);
      assert Run(cfg, ops) == Apply(cfg, w, op);
      assert Meant(cfg, ops) == MeaningAfter(cfg, m, w, op);
    }
  }

  /** What the output files attribute to a source's interfaces. */
  ghost function AttributedTo(cfg: Config, ops: seq<Op>, src: nat): seq<Attribution>
    requires cfg.Multiplexing() && OpsFit(cfg, ops)
  {
    FilesAttribute(cfg, ops, src);
    OfOwner(IdsIn(AllPayload(Run(cfg, ops).files)), Explicit(DecodeFiles(Run(cfg, ops).files)), Owners(cfg, ops), src)
  }

  /** In every run, with any interleaving of the sources and any pattern of file switches: what the
      output files attribute to the interfaces of a pcapng source is exactly what a reader of the
      blocks taken from it, and of nothing else, would attribute. */
  lemma SourceSaysTheSame(cfg: Config, ops: seq<Op>, src: nat)
    requires cfg.Multiplexing() && OpsFit(cfg, ops) && src < |cfg.pcapng| && cfg.pcapng[src]
    ensures AttributedTo(cfg, ops, src) == Says(TakenBlocks(cfg, ops, src))
  {
    FilesAttribute(cfg, ops, src);
    MeantIsSaid(cfg, ops, src);
  }
}
