/** What reaches the output files of one of several pcapng sources, whatever its reader drops. */
module Losses {
  import opened Bytes
  import opened Framing
  import opened PcapngFormat
  import opened Sections
  import opened Writer
  import opened Payload
  import opened Passthrough
  import opened CaptureQueue
  import opened Conservation
  import opened SourceAttribution
  import opened SimplePackets

  function BlocksIn(es: seq<Element>): seq<Block> {
    if es == [] then []
    else BlocksIn(es[..|es| - 1]) + if es[|es| - 1].QueuedBlock? then [Parse(es[|es| - 1].raw)] else []
  }

  lemma BlocksInOne(es: seq<Element>, e: Element)
    ensures BlocksIn(es + [e]) == BlocksIn(es) + if e.QueuedBlock? then [Parse(e.raw)] else []
  {
    assert (es + [e])[..|es + [e]| - 1] == es;
  }

  /** The elements that a source's block callback is given for some blocks. */
  function QueuedBlocks(src: nat, raws: seq<seq<byte>>): (es: seq<Element>)
    ensures |es| == |raws| && forall i | 0 <= i < |raws| :: es[i] == QueuedBlock(src, raws[i])
  {
    seq(|raws|, i requires 0 <= i < |raws| => QueuedBlock(src, raws[i]))
  }

  lemma {:induction false} BlocksInQueued(src: nat, raws: seq<seq<byte>>)
    ensures BlocksIn(QueuedBlocks(src, raws)) == Parsed(raws)
  {
    if raws == [] {
    } else {
      var n := |raws| - 1;
      BlocksInQueued(src, raws[..n]);
      assert QueuedBlocks(src, raws)[..n] == QueuedBlocks(src, raws[..n]);
      assert Parsed(raws) == Parsed(raws[..n]) + [Parse(raws[n])];
    }
  }

  lemma {:induction false} PartOfQueued(src: nat, raws: seq<seq<byte>>)
    ensures PartOf(QueuedBlocks(src, raws), src) == QueuedBlocks(src, raws)
  {
    if raws == [] {
    } else {
      var n := |raws| - 1;
      PartOfQueued(src, raws[..n]);
      assert QueuedBlocks(src, raws)[..n] == QueuedBlocks(src, raws[..n]);
    }
  }

  // What the writer takes

  ghost predicate TakesBlocks(cfg: Config, s: System, src: nat) {
    OpsFit(cfg, s.h.ops) && TakenBlocks(cfg, s.h.ops, src) == BlocksIn(PartOf(s.h.taken, src))
  }

  lemma TakenOneMore(cfg: Config, ops: seq<Op>, op: Op, src: nat)
    requires OpsFit(cfg, ops) && OpFits(cfg, op)
    ensures OpsFit(cfg, ops + [op])
    ensures TakenBlocks(cfg, ops + [op], src)
         == TakenBlocks(cfg, ops, src)
            + if op.BlockOp? && op.src == src && FateOf(cfg, Run(cfg, ops), op) in {Written, Absorbed} then [op.block] else []
  {
    assert (ops + [op])[..|ops + [op]| - 1] == ops;
  }

  lemma BlocksOfOne(taken: seq<Element>, e: Element, src: nat)
    ensures BlocksIn(PartOf(taken + [e], src))
         == BlocksIn(PartOf(taken, src)) + if e.QueuedBlock? && e.src == src then [Parse(e.raw)] else []
  {
    PartOfOne(taken, e, src);
    BlocksInOne(PartOf(taken, src), e);
    assert BlocksIn(PartOf(taken, src)) + [] == BlocksIn(PartOf(taken, src));
  }

  lemma DealtTakesBlocks(cfg: Config, s: System, e: Element, op: Op, w1: State, src: nat)
    requires TakesBlocks(cfg, s, src) && e.src < |s.sources| && OpFits(cfg, op)
    requires op.BlockOp? <==> e.QueuedBlock?
    requires op.BlockOp? ==> op.src == e.src && op.block == Parse(e.raw)
    ensures TakesBlocks(cfg, Dealt(s, e, op, w1, FateOf(cfg, Run(cfg, s.h.ops), op)), src)
  {
    var blocks, fate := TakenBlocks(cfg, s.h.ops, src), FateOf(cfg, Run(cfg, s.h.ops), op);
    TakenOneMore(cfg, s.h.ops, op, src);
    DealtHistory(s, e, op, w1, fate);
    BlocksOfOne(s.h.taken, e, src);
    assert blocks + [] == blocks;
  }

  lemma DealTakesBlocks(cfg: Config, s: System, e: Element, disk: Disk, src: nat)
    requires IsRun(cfg, s) && s.w.Shaped(cfg) && |s.sources| == |cfg.pcapng| && e.Fits(cfg) && TakesBlocks(cfg, s, src)
    ensures TakesBlocks(cfg, Deal(cfg, s, e, disk), src)
  {
    var op := OpOf(e, disk);
    DealtTakesBlocks(cfg, s, e, op, Apply(cfg, s.w, op), src);
  }

  lemma StepTakesBlocks(setup: Setup, s: System, event: Event, src: nat)
    requires Shaped(setup, s) && IsRun(setup.cfg, s) && TakesBlocks(setup.cfg, s, src)
    ensures TakesBlocks(setup.cfg, Step(setup, s, event), src)
  {
    if Step(setup, s, event) != s {
      match event
      case WriteIt(disk) => DealTakesBlocks(setup.cfg, s, s.hand.value, disk, src);
      case Direct(e, disk) =>
        var counts := FateOf(setup.cfg, s.w, OpOf(e, disk)) == Written && (e.QueuedPacket? || BlockOf(e.raw).IsData());
        DealTakesBlocks(setup.cfg, OfferDirectly(s, e, counts), e, disk, src);
      case Tick(clock, first, second) => TakenOneMore(setup.cfg, s.h.ops, UpdateOp(clock, first, second), src);
      case StopSignal => TakenOneMore(setup.cfg, s.h.ops, StopOp, src);
      case _ => assert Step(setup, s, event).h.ops == s.h.ops && Step(setup, s, event).h.taken == s.h.taken;
    }
  }

  lemma {:induction false} AlwaysTakesBlocks(setup: Setup, events: seq<Event>, src: nat)
    ensures TakesBlocks(setup.cfg, After(setup, events), src)
  {
    if events == [] {
    } else {
      var before := events[..|events| - 1];
      AlwaysTakesBlocks(setup, before, src);
      AlwaysARun(setup, before);
      StepTakesBlocks(setup, After(setup, before), events[|events| - 1], src);
    }
  }

  // What is left of a stream

  /** a is b without some contents: with all its section headers and interface descriptions. */
  predicate Thinned(a: seq<Element>, b: seq<Element>)
    decreases |b|, 1
  {
    if b == [] then a == [] else ThinnedLast(a, b)
  }

  predicate ThinnedLast(a: seq<Element>, b: seq<Element>)
    requires b != []
    decreases |b|, 0
  {
    || (a != [] && a[|a| - 1] == b[|b| - 1] && Thinned(a[..|a| - 1], b[..|b| - 1]))
    || (IsContent(b[|b| - 1]) && Thinned(a, b[..|b| - 1]))
  }

  /** a is that of a beginning of b. */
  predicate FirstThinned(a: seq<Element>, b: seq<Element>)
    decreases |b|, 1
  {
    Thinned(a, b) || (b != [] && FirstThinnedBefore(a, b))
  }

  predicate FirstThinnedBefore(a: seq<Element>, b: seq<Element>)
    requires b != []
    decreases |b|, 0
  {
    FirstThinned(a, b[..|b| - 1])
  }

  lemma ThinnedOneMore(a: seq<Element>, b: seq<Element>, e: Element)
    ensures Thinned(a, b) ==> Thinned(a + [e], b + [e]) && (IsContent(e) ==> Thinned(a, b + [e]))
    ensures FirstThinned(a, b) ==> FirstThinned(a, b + [e])
  {
    assert (b + [e])[..|b + [e]| - 1] == b && (a + [e])[..|a + [e]| - 1] == a;
  }

  lemma {:induction false} BeginningOfThinned(a: seq<Element>, b: seq<Element>, c: seq<Element>)
    requires a <= b && FirstThinned(b, c)
    ensures FirstThinned(a, c)
    decreases |c|
  {
    if a == b || c == [] {
    } else {
      var c1 := c[..|c| - 1];
      if b != [] && b[|b| - 1] == c[|c| - 1] && Thinned(b[..|b| - 1], c1) {
        assert FirstThinned(b[..|b| - 1], c1);
        BeginningOfThinned(a, b[..|b| - 1], c1);
      } else {
        if Thinned(b, c) {
          assert ThinnedLast(b, c);
        } else {
          assert FirstThinnedBefore(b, c);
        }
        BeginningOfThinned(a, b, c1);
      }
      assert FirstThinnedBefore(a, c);
    }
  }

  /** No section header and no interface description of a source has been dropped by its reader. */
  ghost predicate HeadersKept(s: System, src: nat) {
    forall i | 0 <= i < |PartOf(s.h.lost, src)| :: IsContent(PartOf(s.h.lost, src)[i])
  }

  /** Then what is accepted of a source is what it offered without some contents, and without what was
      flushed after the capture stopped. */
  ghost predicate KeepsHeaders(setup: Setup, s: System, src: nat)
    requires src < |s.sources|
  {
    var accepted, source := PartOf(s.h.accepted, src), s.sources[src];
    && (!setup.threads ==> s.h.lost == [])
    && (HeadersKept(s, src) ==>
          && FirstThinned(accepted, Past(source))
          && (s.w.go || source.reader.Checked? || !setup.threads ==> Thinned(accepted, Past(source))))
  }

  lemma OfferKeepsHeaders(setup: Setup, s: System, e: Element, src: nat)
    requires e.src < |s.sources| && src < |s.sources| && s.sources[e.src].reader.Idle? && setup.threads && KeepsHeaders(setup, s, src)
    ensures KeepsHeaders(setup, OfferTo(s, e), src)
  {
    if e.src == src {
      var offered, source := s.sources[src].offered, OfferTo(s, e).sources[src];
      ThinnedOneMore(PartOf(s.h.accepted, src), offered, e);
      assert source.offered == offered + [e] && source.offered[..|source.offered| - 1] == offered;
    } else {
      assert OfferTo(s, e).sources[src] == s.sources[src];
    }
  }

  /** Past the decision on an element, it is the last one offered. */
  lemma PastOne(s: System, src: nat)
    requires src < |s.sources| && s.sources[src].reader.Checked? && KeepsOrder(s, src)
    ensures Past(s.sources[src]) + [s.sources[src].reader.e] == s.sources[src].offered
  {
  }

  lemma PushOutcome(limits: QueueLimits, s: System, at: nat, src: nat)
    requires at < |s.sources| && src < |s.sources| && s.sources[at].reader.Checked? && s.sources[at].reader.e.src == at
    requires KeepsOrder(s, src) && s.queue.HasRoom(limits)
    ensures var s1, more := LockAndPush(limits, s, at), if at == src then [s.sources[at].reader.e] else [];
            && PartOf(s1.h.accepted, src) == PartOf(s.h.accepted, src) + more
            && Past(s1.sources[src]) == Past(s.sources[src]) + more
            && s1.h.lost == s.h.lost && s1.w == s.w
            && (s1.sources[src].reader.Checked? ==> s.sources[src].reader.Checked? && at != src)
  {
    PartOfOne(s.h.accepted, s.sources[at].reader.e, src);
    var source1 := LockAndPush(limits, s, at).sources[src];
    if at == src {
      PastOne(s, src);
      assert source1 == s.sources[src].(reader := Pushed);
    } else {
      assert source1 == s.sources[src];
    }
  }

  lemma PushKeepsHeaders(setup: Setup, s: System, at: nat, src: nat)
    requires at < |s.sources| && src < |s.sources| && s.sources[at].reader.Checked? && s.sources[at].reader.e.src == at
    requires KeepsOrder(s, src) && KeepsHeaders(setup, s, src) && s.queue.HasRoom(setup.limits)
    ensures KeepsHeaders(setup, LockAndPush(setup.limits, s, at), src)
  {
    var accepted, past := PartOf(s.h.accepted, src), Past(s.sources[src]);
    PushOutcome(setup.limits, s, at, src);
    if at == src {
      ThinnedOneMore(accepted, past, s.sources[at].reader.e);
    } else {
      assert accepted + [] == accepted && past + [] == past;
    }
  }

  lemma RefuseOutcome(s: System, at: nat, src: nat)
    requires at < |s.sources| && src < |s.sources| && s.sources[at].reader.Checked? && s.sources[at].reader.e.src == at
    requires KeepsOrder(s, src)
    ensures var s1, more := Refuse(s, at), if at == src then [s.sources[at].reader.e] else [];
            && PartOf(s1.h.lost, src) == PartOf(s.h.lost, src) + more
            && Past(s1.sources[src]) == Past(s.sources[src]) + more
            && s1.h.accepted == s.h.accepted && s1.w == s.w
            && (s1.sources[src].reader.Checked? ==> s.sources[src].reader.Checked? && at != src)
  {
    PartOfOne(s.h.lost, s.sources[at].reader.e, src);
    var source1 := Refuse(s, at).sources[src];
    if at == src {
      PastOne(s, src);
      assert source1 == s.sources[src].(reader := Refused);
    } else {
      assert source1 == s.sources[src];
    }
  }

  lemma RefuseKeepsHeaders(setup: Setup, s: System, at: nat, src: nat)
    requires at < |s.sources| && src < |s.sources| && s.sources[at].reader.Checked? && s.sources[at].reader.e.src == at
    requires KeepsOrder(s, src) && KeepsHeaders(setup, s, src) && setup.threads
    ensures KeepsHeaders(setup, Refuse(s, at), src)
  {
    var e, lost, past := s.sources[at].reader.e, PartOf(s.h.lost, src), Past(s.sources[src]);
    RefuseOutcome(s, at, src);
    if at == src {
      ThinnedOneMore(PartOf(s.h.accepted, src), past, e);
      assert (lost + [e])[|lost|] == e && forall i | 0 <= i < |lost| :: (lost + [e])[i] == lost[i];
    } else {
      assert lost + [] == lost && past + [] == past;
    }
  }

  lemma DealtKeepsHeaders(setup: Setup, s: System, e: Element, op: Op, w1: State, fate: Fate, src: nat)
    requires e.src < |s.sources| && src < |s.sources| && (w1.go ==> s.w.go) && KeepsHeaders(setup, s, src)
    ensures KeepsHeaders(setup, Dealt(s, e, op, w1, fate), src)
  {
  }

  lemma OfferDirectlyKeepsHeaders(setup: Setup, s: System, e: Element, counts: bool, src: nat)
    requires e.src < |s.sources| && src < |s.sources| && s.sources[e.src].reader.Idle? && !setup.threads
    requires KeepsHeaders(setup, s, src)
    ensures KeepsHeaders(setup, OfferDirectly(s, e, counts), src)
  {
    PartOfOne(s.h.accepted, e, src);
    if e.src == src {
      ThinnedOneMore(PartOf(s.h.accepted, src), s.sources[src].offered, e);
      assert OfferDirectly(s, e, counts).sources[src].offered == s.sources[src].offered + [e];
    } else {
      assert OfferDirectly(s, e, counts).sources[src] == s.sources[src];
    }
  }

  lemma CountKeepsHeaders(setup: Setup, s: System, at: nat, src: nat)
    requires at < |s.sources| && src < |s.sources| && KeepsHeaders(setup, s, src)
    ensures KeepsHeaders(setup, CountIt(s, at), src)
  {
  }

  lemma LockKeepsHeaders(setup: Setup, s: System, at: nat, src: nat)
    requires at < |s.sources| && src < |s.sources| && s.sources[at].reader.Checked? && s.sources[at].reader.e.src == at
    requires KeepsOrder(s, src) && KeepsHeaders(setup, s, src) && setup.threads
    ensures KeepsHeaders(setup, LockAndPush(setup.limits, s, at), src)
  {
    if s.queue.HasRoom(setup.limits) {
      PushKeepsHeaders(setup, s, at, src);
    } else {
      RefuseKeepsHeaders(setup, s, at, src);
    }
  }

  lemma DealKeepsHeaders(setup: Setup, s: System, e: Element, disk: Disk, src: nat)
    requires Shaped(setup, s) && e.Fits(setup.cfg) && src < |s.sources| && KeepsHeaders(setup, s, src)
    ensures KeepsHeaders(setup, Deal(setup.cfg, s, e, disk), src)
  {
    var op := OpOf(e, disk);
    GoNeverReturns(setup.cfg, s.w, op);
    DealtKeepsHeaders(setup, s, e, op, Apply(setup.cfg, s.w, op), FateOf(setup.cfg, s.w, op), src);
  }

  lemma DirectKeepsHeaders(setup: Setup, s: System, e: Element, disk: Disk, src: nat)
    requires Shaped(setup, s) && e.Fits(setup.cfg) && src < |s.sources| && s.sources[e.src].reader.Idle? && !setup.threads
    requires KeepsHeaders(setup, s, src)
    ensures KeepsHeaders(setup, WriteDirectly(setup.cfg, s, e, disk), src)
  {
    var counts := FateOf(setup.cfg, s.w, OpOf(e, disk)) == Written && (e.QueuedPacket? || BlockOf(e.raw).IsData());
    OfferKeepsShape(setup, s, e, counts);
    OfferDirectlyKeepsHeaders(setup, s, e, counts, src);
    DealKeepsHeaders(setup, OfferDirectly(s, e, counts), e, disk, src);
  }

  lemma OtherKeepsHeaders(setup: Setup, s: System, s1: System, src: nat)
    requires src < |s.sources| && KeepsHeaders(setup, s, src) && s1.sources == s.sources
    requires s1.h.accepted == s.h.accepted && s1.h.lost == s.h.lost && (s1.w.go ==> s.w.go)
    ensures KeepsHeaders(setup, s1, src)
  {
  }

  lemma StepKeepsHeaders(setup: Setup, s: System, event: Event, src: nat)
    requires Shaped(setup, s) && InOrder(setup, s) && src < |s.sources| && KeepsOrder(s, src) && KeepsHeaders(setup, s, src)
    ensures Shaped(setup, Step(setup, s, event))
    ensures KeepsHeaders(setup, Step(setup, s, event), src)
  {
    StepKeepsShape(setup, s, event);
    if Step(setup, s, event) != s {
      match event
      case Offer(e) => OfferKeepsHeaders(setup, s, e, src);
      case AllocationFails(at) => RefuseKeepsHeaders(setup, s, at, src);
      case Lock(at) => LockKeepsHeaders(setup, s, at, src);
      case Count(at) => CountKeepsHeaders(setup, s, at, src);
      case WriteIt(disk) => DealKeepsHeaders(setup, s, s.hand.value, disk, src);
      case Direct(e, disk) => DirectKeepsHeaders(setup, s, e, disk, src);
      case Tick(clock, first, second) =>
        GoNeverReturns(setup.cfg, s.w, UpdateOp(clock, first, second));
        OtherKeepsHeaders(setup, s, Step(setup, s, event), src);
      case PopOne => OtherKeepsHeaders(setup, s, PopIt(s), src);
      case StopSignal => OtherKeepsHeaders(setup, s, Step(setup, s, event), src);
    }
  }

  /** In every interleaving; without threads nothing is dropped by a reader at all. */
  lemma {:induction false} HeadersAlwaysKept(setup: Setup, events: seq<Event>, src: nat)
    requires src < |setup.cfg.pcapng|
    ensures KeepsHeaders(setup, After(setup, events), src)
  {
    if events == [] {
    } else {
      var before := events[..|events| - 1];
      HeadersAlwaysKept(setup, before, src);
      SourcesKeepOrder(setup, before, src);
      WrittenIsPrefixOfAccepted(setup, before);
      StepKeepsHeaders(setup, After(setup, before), events[|events| - 1], src);
    }
  }

  // What is left says the same

  lemma SubsequenceLonger(a: seq<Attribution>, b: seq<Attribution>, more: seq<Attribution>)
    requires Subsequence(a, b) && |more| <= 1
    ensures Subsequence(a, b + more) && Subsequence(a + more, b + more)
  {
    if more == [] {
      assert a + more == a && b + more == b;
    } else {
      assert more == [more[0]];
      SubsequenceOneMore(a, b, more[0]);
    }
  }

  lemma SaysNextShort(idbs: seq<seq<byte>>, block: Block)
    ensures |SaysNext(idbs, block)| <= 1
  {
  }

  /** One more element is offered, and kept or not. */
  lemma OneMoreSays(a: seq<Block>, b: seq<Block>, block: Block)
    requires Current(a).idbs == Current(b).idbs && Subsequence(Says(a), Says(b))
    ensures Current(a + [block]).idbs == Current(b + [block]).idbs && Subsequence(Says(a + [block]), Says(b + [block]))
    ensures Subsequence(Says(a), Says(b + [block]))
    ensures !block.Shb? && !block.Idb? ==> Current(a).idbs == Current(b + [block]).idbs
  {
    OneMoreInSection(a, block);
    OneMoreInSection(b, block);
    SaysOneMore(a, block);
    SaysOneMore(b, block);
    SaysNextShort(Current(b).idbs, block);
    SubsequenceLonger(Says(a), Says(b), SaysNext(Current(b).idbs, block));
  }

  lemma SaysMore(a: seq<Attribution>, b: seq<Element>, e: Element)
    requires Subsequence(a, Says(BlocksIn(b)))
    ensures Subsequence(a, Says(BlocksIn(b + [e])))
  {
    var blocks := BlocksIn(b);
    BlocksInOne(b, e);
    if e.QueuedBlock? {
      SaysOneMore(blocks, Parse(e.raw));
      SaysNextShort(Current(blocks).idbs, Parse(e.raw));
      SubsequenceLonger(a, Says(blocks), SaysNext(Current(blocks).idbs, Parse(e.raw)));
    } else {
      assert blocks + [] == blocks;
    }
  }

  ghost predicate Alike(a: seq<Block>, b: seq<Block>) {
    Current(a).idbs == Current(b).idbs && Subsequence(Says(a), Says(b))
  }

  lemma KeptAlike(a: seq<Element>, b: seq<Element>, e: Element)
    requires Alike(BlocksIn(a), BlocksIn(b))
    ensures Alike(BlocksIn(a + [e]), BlocksIn(b + [e]))
  {
    BlocksInOne(a, e);
    BlocksInOne(b, e);
    if e.QueuedBlock? {
      OneMoreSays(BlocksIn(a), BlocksIn(b), Parse(e.raw));
    } else {
      assert BlocksIn(a) + [] == BlocksIn(a) && BlocksIn(b) + [] == BlocksIn(b);
    }
  }

  lemma ContentLeftOut(a: seq<Element>, b: seq<Element>, e: Element)
    requires Alike(BlocksIn(a), BlocksIn(b)) && IsContent(e)
    ensures Alike(BlocksIn(a), BlocksIn(b + [e]))
  {
    BlocksInOne(b, e);
    if e.QueuedBlock? {
      OneMoreSays(BlocksIn(a), BlocksIn(b), Parse(e.raw));
    } else {
      assert BlocksIn(b) + [] == BlocksIn(b);
    }
  }

  /** Leaving out contents leaves out attributions, and changes no other. */
  lemma {:induction false} ThinnedSays(a: seq<Element>, b: seq<Element>)
    requires Thinned(a, b)
    ensures Alike(BlocksIn(a), BlocksIn(b))
    decreases |b|
  {
    if b == [] {
    } else {
      assert ThinnedLast(a, b);
      var b1, e := b[..|b| - 1], b[|b| - 1];
      assert b1 + [e] == b;
      if a != [] && a[|a| - 1] == e && Thinned(a[..|a| - 1], b1) {
        ThinnedSays(a[..|a| - 1], b1);
        KeptAlike(a[..|a| - 1], b1, e);
        assert a[..|a| - 1] + [e] == a;
      } else {
        ThinnedSays(a, b1);
        ContentLeftOut(a, b1, e);
      }
    }
  }

  lemma {:induction false} FirstThinnedSays(a: seq<Element>, b: seq<Element>)
    requires FirstThinned(a, b)
    ensures Subsequence(Says(BlocksIn(a)), Says(BlocksIn(b)))
    decreases |b|
  {
    if Thinned(a, b) {
      ThinnedSays(a, b);
    } else {
      assert FirstThinnedBefore(a, b);
      var b1, e := b[..|b| - 1], b[|b| - 1];
      FirstThinnedSays(a, b1);
      assert b1 + [e] == b;
      SaysMore(Says(BlocksIn(a)), b1, e);
    }
  }

  // The files

  lemma KeptOfOffered(setup: Setup, events: seq<Event>, src: nat)
    requires src < |setup.cfg.pcapng|
    ensures var s := After(setup, events);
            HeadersKept(s, src) ==> FirstThinned(PartOf(s.h.taken, src), s.sources[src].offered)
  {
    var s := After(setup, events);
    var accepted, source := PartOf(s.h.accepted, src), s.sources[src];
    HeadersAlwaysKept(setup, events, src);
    SourcesKeepOrder(setup, events, src);
    WrittenIsPrefixOfAccepted(setup, events);
    PartOfPrefix(s.h.taken, s.h.accepted, src);
    if HeadersKept(s, src) {
      if source.reader.Checked? {
        PastOne(s, src);
        ThinnedOneMore(accepted, Past(source), source.reader.e);
      }
      BeginningOfThinned(PartOf(s.h.taken, src), accepted, source.offered);
    }
  }

  lemma NothingLostDirectly(setup: Setup, events: seq<Event>, src: nat)
    requires src < |setup.cfg.pcapng| && !setup.threads
    ensures HeadersKept(After(setup, events), src)
  {
    HeadersAlwaysKept(setup, events, src);
  }

  /** In every interleaving of any sources into one pcapng output: what the files attribute to a pcapng
      source's interfaces is what the blocks taken from it say; and if its reader has dropped no section
      header and no interface description, which it never has without threads, that is, in order, part
      of what all it offered says. */
  lemma SourceInFiles(setup: Setup, events: seq<Event>, src: nat)
    requires setup.cfg.Multiplexing() && src < |setup.cfg.pcapng| && setup.cfg.pcapng[src]
    ensures var s := After(setup, events);
            && OpsFit(setup.cfg, s.h.ops)
            && AttributedTo(setup.cfg, s.h.ops, src) == Says(BlocksIn(PartOf(s.h.taken, src)))
            && (HeadersKept(s, src) ==>
                  Subsequence(AttributedTo(setup.cfg, s.h.ops, src), Says(BlocksIn(s.sources[src].offered))))
            && (!setup.threads ==> HeadersKept(s, src))
  {
    var s := After(setup, events);
    AlwaysARun(setup, events);
    AlwaysTakesBlocks(setup, events, src);
    SourceSaysTheSame(setup.cfg, s.h.ops, src);
    KeptOfOffered(setup, events, src);
    if HeadersKept(s, src) {
      FirstThinnedSays(PartOf(s.h.taken, src), s.sources[src].offered);
    }
    if !setup.threads {
      NothingLostDirectly(setup, events, src);
    }
  }

  // What is lost with a header

  function Described(idbs: seq<seq<byte>>): seq<Block> {
    if idbs == [] then [] else Described(idbs[..|idbs| - 1]) + [Idb(idbs[|idbs| - 1])]
  }

  lemma {:induction false} CurrentDescribed(s: seq<Block>, more: seq<seq<byte>>)
    ensures Current(s + Described(more)).idbs == Current(s).idbs + more
  {
    if more == [] {
      assert s + [] == s && Current(s).idbs + [] == Current(s).idbs;
    } else {
      var n := |more| - 1;
      CurrentDescribed(s, more[..n]);
      Associate(s, Described(more[..n]), [Idb(more[n])]);
      OneMoreInSection(s + Described(more[..n]), Idb(more[n]));
      Associate(Current(s).idbs, more[..n], [more[n]]);
      assert more[..n] + [more[n]] == more;
    }
  }

  /** A packet with an interface id says the same in two places of a stream. */
  ghost predicate SaysAlike(a: seq<Block>, b: seq<Block>, id: nat) {
    forall rest: seq<byte> :: SaysNext(Current(a).idbs, Epb(id, rest)) == SaysNext(Current(b).idbs, Epb(id, rest))
  }

  lemma SaysAlikeIff(a: seq<Block>, b: seq<Block>, id: nat)
    requires id < |Current(a).idbs|
    ensures SaysAlike(a, b, id) <==> id < |Current(b).idbs| && Current(a).idbs[id] == Current(b).idbs[id]
  {
    if SaysAlike(a, b, id) {
      assert SaysNext(Current(a).idbs, Epb(id, [])) == SaysNext(Current(b).idbs, Epb(id, []));
    }
  }

  /** Every id known in the one place says the same in the other. */
  ghost predicate AllAlike(a: seq<Block>, b: seq<Block>) {
    forall id | 0 <= id < |Current(a).idbs| :: SaysAlike(a, b, id)
  }

  lemma AllAlikeIff(a: seq<Block>, b: seq<Block>)
    ensures AllAlike(a, b) <==> Current(a).idbs <= Current(b).idbs
  {
    var t, o := Current(a).idbs, Current(b).idbs;
    forall id | 0 <= id < |t|
      ensures SaysAlike(a, b, id) <==> id < |o| && t[id] == o[id]
    {
      SaysAlikeIff(a, b, id);
    }
    if AllAlike(a, b) && t != [] {
      assert SaysAlike(a, b, |t| - 1);
    }
  }

  lemma {:induction false} ShiftedIff(idbs: seq<seq<byte>>, d: seq<byte>, more: seq<seq<byte>>)
    ensures idbs + more <= idbs + [d] + more <==> forall i | 0 <= i < |more| :: more[i] == d
  {
    var t, o := idbs + more, idbs + [d] + more;
    if more == [] {
    } else {
      var n := |more| - 1;
      ShiftedIff(idbs, d, more[..n]);
      assert t[..|t| - 1] == idbs + more[..n] && o[..|o| - 1] == idbs + [d] + more[..n];
      assert t[|t| - 1] == more[n] && o[|t| - 1] == if n == 0 then d else more[n - 1];
      assert t <= o <==> t[..|t| - 1] <= o[..|o| - 1] && t[|t| - 1] == o[|t| - 1];
    }
  }

  /** When an interface description is lost and others follow, the ids that the writer knows still say
      what they say in the source if and only if all that follow are the same as the lost one. */
  lemma LostDescriptionHarmlessIff(s: seq<Block>, d: seq<byte>, more: seq<seq<byte>>)
    ensures AllAlike(s + Described(more), s + [Idb(d)] + Described(more)) <==> forall i | 0 <= i < |more| :: more[i] == d
  {
    CurrentDescribed(s, more);
    CurrentDescribed(s + [Idb(d)], more);
    OneMoreInSection(s, Idb(d));
    AllAlikeIff(s + Described(more), s + [Idb(d)] + Described(more));
    ShiftedIff(Current(s).idbs, d, more);
  }

  /** When a section header is lost, they do if and only if the section before it described nothing. */
  lemma LostSectionHarmlessIff(s: seq<Block>, raw: seq<byte>, more: seq<seq<byte>>)
    ensures AllAlike(s + Described(more), s + [Block.Shb(raw)] + Described(more)) <==> Current(s).idbs == []
  {
    CurrentDescribed(s, more);
    CurrentDescribed(s + [Block.Shb(raw)], more);
    OneMoreInSection(s, Block.Shb(raw));
    AllAlikeIff(s + Described(more), s + [Block.Shb(raw)] + Described(more));
    assert [] + more == more;
  }

  // A description that is lost

  const ONE_AT_A_TIME := QueueLimits(0, 1)

  /** The reader of a source and the writer have nothing in hand. */
  ghost predicate Ready(s: System, src: nat, queued: seq<Element>) {
    && src < |s.sources| && s.sources[src].reader.Idle? && s.hand.None?
    && s.queue.elements == queued && s.queue.packets == |queued|
    && s.w.go && s.w.open && !s.w.aborted
  }

  /** What matters of a system here: the state of the writer, its operations, what it has taken, and
      what a source has offered. */
  ghost predicate Has(s: System, src: nat, w: State, ops: seq<Op>, taken: seq<Element>, offered: seq<Element>)
    requires src < |s.sources|
  {
    s.w == w && s.h.ops == ops && s.h.taken == taken && s.sources[src].offered == offered
  }

  lemma AfterOneMore(setup: Setup, events: seq<Event>, event: Event)
    ensures After(setup, events + [event]) == Step(setup, After(setup, events), event)
  {
    assert (events + [event])[..|events + [event]| - 1] == events;
  }

  /** The reader's packet callback. */
  function Callback(e: Element): seq<Event> {
    [Offer(e), Lock(e.src), Count(e.src)]
  }

  function WriterTakes(disk: Disk): seq<Event> {
    [PopOne, WriteIt(disk)]
  }

  lemma AfterOffer(setup: Setup, events: seq<Event>, e: Element)
    requires setup.threads && e.Fits(setup.cfg) && Ready(After(setup, events), e.src, After(setup, events).queue.elements)
    ensures var s1 := After(setup, events + [Offer(e)]);
            && s1 == OfferTo(After(setup, events), e) && e.src < |s1.sources|
            && s1.sources[e.src].reader == Checked(e) && !s1.w.aborted
  {
    AfterOneMore(setup, events, Offer(e));
  }

  lemma AfterLock(setup: Setup, events: seq<Event>, src: nat)
    requires src < |After(setup, events).sources| && After(setup, events).sources[src].reader.Checked?
    requires !After(setup, events).w.aborted
    ensures var s1 := After(setup, events + [Lock(src)]);
            s1 == LockAndPush(setup.limits, After(setup, events), src) && src < |s1.sources| && !s1.w.aborted
  {
    AfterOneMore(setup, events, Lock(src));
  }

  lemma AfterCount(setup: Setup, events: seq<Event>, src: nat)
    requires src < |After(setup, events).sources| && !After(setup, events).w.aborted
    ensures After(setup, events + [Count(src)]) == CountIt(After(setup, events), src)
  {
    CountStep(setup, After(setup, events), src);
    AfterOneMore(setup, events, Count(src));
  }

  lemma CountStep(setup: Setup, s: System, src: nat)
    requires Shaped(setup, s) && src < |s.sources| && !s.w.aborted
    ensures Step(setup, s, Count(src)) == CountIt(s, src)
  {
  }

  lemma AfterCallback(setup: Setup, events: seq<Event>, e: Element)
    requires setup.threads && e.Fits(setup.cfg) && Ready(After(setup, events), e.src, After(setup, events).queue.elements)
    ensures var s := After(setup, events);
            && OfferTo(s, e).sources[e.src].reader == Checked(e)
            && After(setup, events + Callback(e)) == CountIt(LockAndPush(setup.limits, OfferTo(s, e), e.src), e.src)
  {
    AfterOffer(setup, events, e);
    AfterLock(setup, events + [Offer(e)], e.src);
    AfterCount(setup, events + [Offer(e)] + [Lock(e.src)], e.src);
    assert events + [Offer(e)] + [Lock(e.src)] + [Count(e.src)] == events + Callback(e);
  }

  /** An element finds the queue empty, or full. */
  lemma CallbackOutcome(s: System, e: Element)
    requires Ready(s, e.src, s.queue.elements) && |s.queue.elements| <= 1
    ensures OfferTo(s, e).sources[e.src].reader == Checked(e)
    ensures var s1 := CountIt(LockAndPush(ONE_AT_A_TIME, OfferTo(s, e), e.src), e.src);
            && Ready(s1, e.src, if s.queue.elements == [] then [e] else s.queue.elements)
            && Has(s1, e.src, s.w, s.h.ops, s.h.taken, s.sources[e.src].offered + [e])
  {
  }

  lemma CallbackLeads(setup: Setup, events: seq<Event>, e: Element, queued: seq<Element>)
    requires setup.threads && setup.limits == ONE_AT_A_TIME && e.Fits(setup.cfg)
    requires Ready(After(setup, events), e.src, queued) && |queued| <= 1
    ensures var s, s1 := After(setup, events), After(setup, events + Callback(e));
            && Ready(s1, e.src, if queued == [] then [e] else queued)
            && Has(s1, e.src, s.w, s.h.ops, s.h.taken, s.sources[e.src].offered + [e])
  {
    AfterCallback(setup, events, e);
    CallbackOutcome(After(setup, events), e);
  }

  lemma DealOutcome(s: System, e: Element, op: Op, w1: State, fate: Fate)
    requires Ready(s, e.src, [e]) && fate in {Written, Absorbed}
    ensures var s1 := Dealt(PopIt(s), e, op, w1, fate);
            && Has(s1, e.src, w1, s.h.ops + [op], s.h.taken + [e], s.sources[e.src].offered)
            && (w1.go && w1.open && !w1.aborted ==> Ready(s1, e.src, []))
  {
  }

  lemma WriterTook(setup: Setup, events: seq<Event>, e: Element, disk: Disk)
    requires Ready(After(setup, events), e.src, [e]) && e.Fits(setup.cfg)
    requires FateOf(setup.cfg, After(setup, events).w, OpOf(e, disk)) in {Written, Absorbed}
    ensures var s, s1, op := After(setup, events), After(setup, events + WriterTakes(disk)), OpOf(e, disk);
            var w1 := Apply(setup.cfg, s.w, op);
            && |s1.sources| == |s.sources|
            && Has(s1, e.src, w1, s.h.ops + [op], s.h.taken + [e], s.sources[e.src].offered)
            && (w1.go && w1.open && !w1.aborted ==> Ready(s1, e.src, []))
  {
    var s, op := After(setup, events), OpOf(e, disk);
    AfterOneMore(setup, events, PopOne);
    AfterOneMore(setup, events + [PopOne], WriteIt(disk));
    assert events + [PopOne] + [WriteIt(disk)] == events + WriterTakes(disk);
    PopAndWrite(setup, s, e, disk);
    DealOutcome(s, e, op, Apply(setup.cfg, s.w, op), FateOf(setup.cfg, s.w, op));
  }

  lemma PopAndWrite(setup: Setup, s: System, e: Element, disk: Disk)
    requires Shaped(setup, s) && Ready(s, e.src, [e]) && e.Fits(setup.cfg)
    ensures Step(setup, s, PopOne) == PopIt(s) && Shaped(setup, PopIt(s))
    ensures Step(setup, PopIt(s), WriteIt(disk)) == Deal(setup.cfg, PopIt(s), e, disk)
  {
  }

  lemma {:induction false} HeadersSayNothing(h: seq<byte>, idbs: seq<seq<byte>>)
    ensures Says([Block.Shb(h)] + Described(idbs)) == [] && Current([Block.Shb(h)] + Described(idbs)).idbs == idbs
  {
    if idbs == [] {
      assert [] + [Block.Shb(h)] == [Block.Shb(h)] && [Block.Shb(h)] + [] == [Block.Shb(h)];
      SaysOneMore([], Block.Shb(h));
      OneMoreInSection([], Block.Shb(h));
      assert Says([]) == [];
    } else {
      var n := |idbs| - 1;
      HeadersSayNothing(h, idbs[..n]);
      Associate([Block.Shb(h)], Described(idbs[..n]), [Idb(idbs[n])]);
      SaysOneMore([Block.Shb(h)] + Described(idbs[..n]), Idb(idbs[n]));
      OneMoreInSection([Block.Shb(h)] + Described(idbs[..n]), Idb(idbs[n]));
      assert idbs[..n] + [idbs[n]] == idbs;
    }
  }

  /** A section header, some descriptions, and a packet of the first interface. */
  lemma FirstInterface(h: seq<byte>, idbs: seq<seq<byte>>, rest: seq<byte>)
    requires idbs != []
    ensures Says([Block.Shb(h)] + Described(idbs) + [Epb(0, rest)]) == [Attribution(EpbItem(rest), Some(FromStream(idbs[0])))]
  {
    HeadersSayNothing(h, idbs);
    SaysOneMore([Block.Shb(h)] + Described(idbs), Epb(0, rest));
  }

  predicate Going(w: State) {
    w.go && w.open && !w.aborted
  }

  /** Where a system has got to, if it is ready for more. */
  datatype Place = Place(w: State, queued: seq<Element>, taken: seq<Element>, offered: seq<Element>)

  ghost function Where(s: System, src: nat): Option<Place> {
    if Ready(s, src, s.queue.elements) then Some(Place(s.w, s.queue.elements, s.h.taken, s.sources[src].offered)) else None
  }

  /** The writer's state when it has taken an element. */
  ghost function Next(cfg: Config, w: State, e: Element, disk: Disk): Option<State> {
    if w.Shaped(cfg) && e.Fits(cfg) && FateOf(cfg, w, OpOf(e, disk)) in {Written, Absorbed}
    then Some(Apply(cfg, w, OpOf(e, disk))) else None
  }

  /** An element is offered and written. */
  lemma OnePasses(setup: Setup, events: seq<Event>, e: Element, disk: Disk,
                  w: State, w1: State, taken: seq<Element>, offered: seq<Element>)
    requires setup.threads && setup.limits == ONE_AT_A_TIME && Next(setup.cfg, w, e, disk) == Some(w1)
    requires Where(After(setup, events), e.src) == Some(Place(w, [], taken, offered))
    ensures var s1 := After(setup, events + Callback(e) + WriterTakes(disk));
            && e.src < |s1.sources| && s1.h.taken == taken + [e] && s1.sources[e.src].offered == offered + [e]
            && (Going(w1) ==> Where(s1, e.src) == Some(Place(w1, [], taken + [e], offered + [e])))
  {
    CallbackLeads(setup, events, e, []);
    WriterTook(setup, events + Callback(e), e, disk);
  }

  /** One is offered and queued, another is offered and lost, and the first is written. */
  lemma OneLostBehind(setup: Setup, events: seq<Event>, e: Element, x: Element, disk: Disk,
                      w: State, w1: State, taken: seq<Element>, offered: seq<Element>)
    requires setup.threads && setup.limits == ONE_AT_A_TIME && x.Fits(setup.cfg) && x.src == e.src
    requires Next(setup.cfg, w, e, disk) == Some(w1) && Going(w1)
    requires Where(After(setup, events), e.src) == Some(Place(w, [], taken, offered))
    ensures Where(After(setup, events + Callback(e) + Callback(x) + WriterTakes(disk)), e.src)
            == Some(Place(w1, [], taken + [e], offered + [e] + [x]))
  {
    CallbackLeads(setup, events, e, []);
    CallbackLeads(setup, events + Callback(e), x, [e]);
    WriterTook(setup, events + Callback(e) + Callback(x), e, disk);
  }

  /** Of four elements, the second is lost. */
  function OneLost(start: seq<Event>, a: Element, x: Element, b: Element, c: Element): seq<Event> {
    var disk := Disk(true, true, 0);
    start + Callback(a) + Callback(x) + WriterTakes(disk) + Callback(b) + WriterTakes(disk) + Callback(c) + WriterTakes(disk)
  }

  lemma OneIsLost(setup: Setup, start: seq<Event>, a: Element, x: Element, b: Element, c: Element,
                  w: State, w1: State, w2: State, w3: State)
    requires setup.threads && setup.limits == ONE_AT_A_TIME
    requires x.Fits(setup.cfg) && a.src == x.src == b.src == c.src && Going(w1) && Going(w2)
    requires Where(After(setup, start), a.src) == Some(Place(w, [], [], []))
    requires Next(setup.cfg, w, a, Disk(true, true, 0)) == Some(w1)
    requires Next(setup.cfg, w1, b, Disk(true, true, 0)) == Some(w2)
    requires Next(setup.cfg, w2, c, Disk(true, true, 0)) == Some(w3)
    ensures var s := After(setup, OneLost(start, a, x, b, c));
            && a.src < |s.sources| && s.sources[a.src].offered == [] + [a] + [x] + [b] + [c]
            && s.h.taken == [] + [a] + [b] + [c]
  {
    var disk := Disk(true, true, 0);
    var events := start + Callback(a) + Callback(x) + WriterTakes(disk);
    var events1 := events + Callback(b) + WriterTakes(disk);
    OneLostBehind(setup, start, a, x, disk, w, w1, [], []);
    OnePasses(setup, events, b, disk, w1, w2, [] + [a], [] + [a] + [x]);
    OnePasses(setup, events1, c, disk, w2, w3, [] + [a] + [b], [] + [a] + [x] + [b]);
  }

  /** What the writer does with a section header, a description, and a packet. */
  lemma ThreeBlocks(cfg: Config, src: nat, h: seq<byte>, b: seq<byte>, p: seq<byte>, rest: seq<byte>)
    returns (w1: State, w2: State, w3: State)
    requires cfg.Multiplexing() && src < |cfg.pcapng| && cfg.pcapng[src]
    requires |h| >= MIN_BLOCK_SIZE && |b| >= MIN_BLOCK_SIZE && |p| >= MIN_BLOCK_SIZE
    requires BlockOf(h) == Block.Shb(h) && BlockOf(b) == Idb(b) && BlockOf(p) == Epb(0, rest)
    ensures Next(cfg, Start(cfg), QueuedBlock(src, h), Disk(true, true, 0)) == Some(w1) && Going(w1)
    ensures Next(cfg, w1, QueuedBlock(src, b), Disk(true, true, 0)) == Some(w2) && Going(w2)
    ensures Next(cfg, w2, QueuedBlock(src, p), Disk(true, true, 0)) == Some(w3)
  {
    var w := Start(cfg);
    w1 := SectionNext(cfg, w, src, h);
    w2 := DescriptionNext(cfg, w1, src, b);
    w3 := PacketNext(cfg, w2, src, p, rest);
  }

  lemma SectionNext(cfg: Config, w: State, src: nat, h: seq<byte>) returns (w1: State)
    requires cfg.Multiplexing() && src < |cfg.pcapng| && cfg.pcapng[src] && w.Shaped(cfg) && Going(w)
    requires |h| >= MIN_BLOCK_SIZE && BlockOf(h) == Block.Shb(h)
    ensures Next(cfg, w, QueuedBlock(src, h), Disk(true, true, 0)) == Some(w1) && Going(w1) && w1.Shaped(cfg)
  {
    w1 := Apply(cfg, w, BlockOp(src, Block.Shb(h), Disk(true, true, 0)));
  }

  lemma DescriptionNext(cfg: Config, w: State, src: nat, b: seq<byte>) returns (w1: State)
    requires cfg.Multiplexing() && src < |cfg.pcapng| && cfg.pcapng[src] && w.Shaped(cfg) && Going(w)
    requires |b| >= MIN_BLOCK_SIZE && BlockOf(b) == Idb(b)
    ensures Next(cfg, w, QueuedBlock(src, b), Disk(true, true, 0)) == Some(w1) && Going(w1)
    ensures w1.Shaped(cfg) && w1.ids.maps[src] != []
  {
    var op := BlockOp(src, Idb(b), Disk(true, true, 0));
    w1 := Apply(cfg, w, op);
    DescriptionStep(cfg, w, src, b, op.disk);
    IdsAfter(cfg, w, op);
  }

  lemma PacketNext(cfg: Config, w: State, src: nat, p: seq<byte>, rest: seq<byte>) returns (w1: State)
    requires cfg.Multiplexing() && src < |cfg.pcapng| && cfg.pcapng[src] && w.Shaped(cfg) && Going(w)
    requires |p| >= MIN_BLOCK_SIZE && BlockOf(p) == Epb(0, rest) && w.ids.maps[src] != []
    ensures Next(cfg, w, QueuedBlock(src, p), Disk(true, true, 0)) == Some(w1)
  {
    w1 := Apply(cfg, w, BlockOp(src, Epb(0, rest), Disk(true, true, 0)));
  }

  lemma StartAt(setup: Setup, src: nat)
    requires src < |setup.cfg.pcapng|
    ensures Where(After(setup, []), src) == Some(Place(Start(setup.cfg), [], [], []))
  {
  }

  lemma LostRun(setup: Setup, start: seq<Event>, src: nat, h: seq<byte>, a: seq<byte>, b: seq<byte>, p: seq<byte>, rest: seq<byte>)
    requires setup.threads && setup.limits == ONE_AT_A_TIME && setup.cfg.Multiplexing()
    requires src < |setup.cfg.pcapng| && setup.cfg.pcapng[src]
    requires Where(After(setup, start), src) == Some(Place(Start(setup.cfg), [], [], []))
    requires |h| >= MIN_BLOCK_SIZE && |a| >= MIN_BLOCK_SIZE && |b| >= MIN_BLOCK_SIZE && |p| >= MIN_BLOCK_SIZE
    requires BlockOf(h) == Block.Shb(h) && BlockOf(b) == Idb(b) && BlockOf(p) == Epb(0, rest)
    ensures var e0, e1, e2, e3 := QueuedBlock(src, h), QueuedBlock(src, a), QueuedBlock(src, b), QueuedBlock(src, p);
            var s := After(setup, OneLost(start, e0, e1, e2, e3));
            && src < |s.sources| && s.sources[src].offered == QueuedBlocks(src, [h, a, b, p])
            && s.h.taken == QueuedBlocks(src, [h, b, p])
  {
    var w1, w2, w3 := ThreeBlocks(setup.cfg, src, h, b, p, rest);
    OneIsLost(setup, start, QueuedBlock(src, h), QueuedBlock(src, a), QueuedBlock(src, b), QueuedBlock(src, p),
              Start(setup.cfg), w1, w2, w3);
    QueuedOneByOne(src, h, a, b, p);
  }

  lemma QueuedOneByOne(src: nat, h: seq<byte>, a: seq<byte>, b: seq<byte>, p: seq<byte>)
    ensures [] + [QueuedBlock(src, h)] + [QueuedBlock(src, b)] + [QueuedBlock(src, p)] == QueuedBlocks(src, [h, b, p])
    ensures [] + [QueuedBlock(src, h)] + [QueuedBlock(src, a)] + [QueuedBlock(src, b)] + [QueuedBlock(src, p)]
         == QueuedBlocks(src, [h, a, b, p])
  {
  }

  /** With one place in the queue, a section header can fill it, so that the description a that follows
      is lost, while the description b after that is not; then a packet of interface 0 is attributed
      to b, although its source meant a. */
  lemma LostDescriptionMisattributes(setup: Setup, src: nat, h: seq<byte>, a: seq<byte>, b: seq<byte>, p: seq<byte>, rest: seq<byte>)
    returns (events: seq<Event>)
    requires setup.threads && setup.limits == ONE_AT_A_TIME && setup.cfg.Multiplexing()
    requires src < |setup.cfg.pcapng| && setup.cfg.pcapng[src]
    requires |h| >= MIN_BLOCK_SIZE && |a| >= MIN_BLOCK_SIZE && |b| >= MIN_BLOCK_SIZE && |p| >= MIN_BLOCK_SIZE
    requires BlockOf(h) == Block.Shb(h) && BlockOf(a) == Idb(a) && BlockOf(b) == Idb(b) && BlockOf(p) == Epb(0, rest)
    ensures var s := After(setup, events);
            && OpsFit(setup.cfg, s.h.ops) && src < |s.sources| && s.sources[src].offered == QueuedBlocks(src, [h, a, b, p])
            && AttributedTo(setup.cfg, s.h.ops, src) == [Attribution(EpbItem(rest), Some(FromStream(b)))]
            && Says(BlocksIn(s.sources[src].offered)) == [Attribution(EpbItem(rest), Some(FromStream(a)))]
  {
    events := OneLost([], QueuedBlock(src, h), QueuedBlock(src, a), QueuedBlock(src, b), QueuedBlock(src, p));
    StartAt(setup, src);
    LostRun(setup, [], src, h, a, b, p, rest);
    SourceInFiles(setup, events, src);
    LostDescriptionSays(src, h, a, b, p, rest);
  }

  lemma LostDescriptionSays(src: nat, h: seq<byte>, a: seq<byte>, b: seq<byte>, p: seq<byte>, rest: seq<byte>)
    requires |h| >= MIN_BLOCK_SIZE && |a| >= MIN_BLOCK_SIZE && |b| >= MIN_BLOCK_SIZE && |p| >= MIN_BLOCK_SIZE
    requires BlockOf(h) == Block.Shb(h) && BlockOf(a) == Idb(a) && BlockOf(b) == Idb(b) && BlockOf(p) == Epb(0, rest)
    ensures Says(BlocksIn(PartOf(QueuedBlocks(src, [h, b, p]), src))) == [Attribution(EpbItem(rest), Some(FromStream(b)))]
    ensures Says(BlocksIn(QueuedBlocks(src, [h, a, b, p]))) == [Attribution(EpbItem(rest), Some(FromStream(a)))]
  {
    PartOfQueued(src, [h, b, p]);
    BlocksInQueued(src, [h, b, p]);
    BlocksInQueued(src, [h, a, b, p]);
    FirstInterface(h, [b], rest);
    FirstInterface(h, [a, b], rest);
    DescribedOneAndTwo(a, b);
    assert Parsed([h, b, p]) == [Block.Shb(h)] + Described([b]) + [Epb(0, rest)];
    assert Parsed([h, a, b, p]) == [Block.Shb(h)] + Described([a, b]) + [Epb(0, rest)];
  }

  lemma DescribedOneAndTwo(a: seq<byte>, b: seq<byte>)
    ensures Described([b]) == [Idb(b)] && Described([a, b]) == [Idb(a), Idb(b)]
  {
    assert [a, b][..1] == [a] && Described([a]) == [Idb(a)];
  }
}
