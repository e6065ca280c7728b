/** Nothing offered is lost, repeated or moved: in every interleaving of readers and writer. */
module Conservation {
  import opened Bytes
  import opened Framing
  import opened PcapngFormat
  import opened Sections
  import opened Writer
  import opened Payload
  import opened CaptureQueue
  import Multiplexing

  /** The elements of one source, in order. */
  function PartOf(es: seq<Element>, src: nat): seq<Element> {
    if es == [] then []
    else if es[|es| - 1].src == src then PartOf(es[..|es| - 1], src) + [es[|es| - 1]]
    else PartOf(es[..|es| - 1], src)
  }

  lemma PartOfOne(es: seq<Element>, e: Element, src: nat)
    ensures PartOf(es + [e], src) == if e.src == src then PartOf(es, src) + [e] else PartOf(es, src)
  {
    assert (es + [e])[..|es + [e]| - 1] == es;
  }

  lemma {:induction false} PartOfTail(es: seq<Element>, src: nat)
    requires es != []
    ensures |PartOf(es, src)| == (if es[0].src == src then 1 else 0) + |PartOf(es[1..], src)|
  {
    var n := |es| - 1;
    if n > 0 {
      PartOfTail(es[..n], src);
      assert es[1..][..n - 1] == es[..n][1..];
    } else {
      assert es[..0] == [] && es[1..] == [];
    }
  }

  // Counting

  function InCallback(source: Source): nat {
    if source.reader.Checked? || source.reader.Refused? then 1 else 0
  }

  function InHand(hand: Option<Element>, src: nat): nat {
    if hand.Some? && hand.value.src == src then 1 else 0
  }

  /** What a source has offered has been written (or absorbed), dropped or flushed, or is in the
      queue, in its reader's hands or in the writer's. What it counts as received is what went into
      the queue. */
  ghost predicate Balanced(setup: Setup, s: System, src: nat)
    requires src < |s.sources|
  {
    var source := s.sources[src];
    && |source.offered| == |PartOf(s.h.taken, src)| + |PartOf(s.queue.elements, src)| + source.dropped + source.flushed
                         + InCallback(source) + InHand(s.hand, src)
    && (setup.threads ==>
          source.received + (if source.reader.Pushed? then 1 else 0) == |PartOf(s.h.accepted, src)|)
  }

  lemma OfferBalances(setup: Setup, s: System, e: Element, src: nat)
    requires e.src < |s.sources| && src < |s.sources| && s.sources[e.src].reader.Idle? && Balanced(setup, s, src)
    ensures Balanced(setup, OfferTo(s, e), src)
  {
  }

  lemma LockBalances(setup: Setup, s: System, at: nat, src: nat)
    requires at < |s.sources| && src < |s.sources| && s.sources[at].reader.Checked? && s.sources[at].reader.e.src == at
    requires Balanced(setup, s, src)
    ensures Balanced(setup, LockAndPush(setup.limits, s, at), src)
  {
    PartOfOne(s.queue.elements, s.sources[at].reader.e, src);
    PartOfOne(s.h.accepted, s.sources[at].reader.e, src);
  }

  lemma CountBalances(setup: Setup, s: System, at: nat, src: nat)
    requires at < |s.sources| && src < |s.sources| && Balanced(setup, s, src)
    ensures Balanced(setup, CountIt(s, at), src)
  {
  }

  lemma PopBalances(setup: Setup, s: System, src: nat)
    requires src < |s.sources| && s.hand.None? && s.queue.elements != [] && Balanced(setup, s, src)
    ensures Balanced(setup, PopIt(s), src)
  {
    PartOfTail(s.queue.elements, src);
  }

  /** Dealing with an element moves it from the writer's hand to one of the other places. */
  lemma DealtBalances(setup: Setup, s: System, e: Element, op: Op, w1: State, fate: Fate, src: nat)
    requires e.src < |s.sources| && src < |s.sources| && Sound(s.w, w1, fate) && Balanced(setup, s.(hand := Some(e)), src)
    ensures Balanced(setup, Dealt(s, e, op, w1, fate), src)
  {
    PartOfOne(s.h.taken, e, src);
  }

  lemma WriteBalances(setup: Setup, s: System, disk: Disk, src: nat)
    requires Shaped(setup, s) && InOrder(setup, s) && src < |s.sources| && s.hand.Some? && Balanced(setup, s, src)
    ensures Balanced(setup, Deal(setup.cfg, s, s.hand.value, disk), src)
  {
    var e := s.hand.value;
    OutcomesSound(setup.cfg, s.w, e, disk);
    DealtBalances(setup, s, e, OpOf(e, disk), Apply(setup.cfg, s.w, OpOf(e, disk)), FateOf(setup.cfg, s.w, OpOf(e, disk)), src);
  }

  lemma OfferDirectlyBalances(setup: Setup, s: System, e: Element, counts: bool, src: nat)
    requires e.src < |s.sources| && src < |s.sources| && s.hand.None? && !setup.threads && Balanced(setup, s, src)
    ensures Balanced(setup, OfferDirectly(s, e, counts).(hand := Some(e)), src)
  {
  }

  lemma DirectBalances(setup: Setup, s: System, e: Element, disk: Disk, src: nat)
    requires Shaped(setup, s) && InOrder(setup, s) && !setup.threads && e.Fits(setup.cfg) && s.hand.None? && src < |s.sources|
    requires Balanced(setup, s, src)
    ensures Balanced(setup, WriteDirectly(setup.cfg, s, e, disk), src)
  {
    OutcomesSound(setup.cfg, s.w, e, disk);
    var op := OpOf(e, disk);
    var w1, fate := Apply(setup.cfg, s.w, op), FateOf(setup.cfg, s.w, op);
    var counts := fate == Written && (e.QueuedPacket? || BlockOf(e.raw).IsData());
    OfferDirectlyBalances(setup, s, e, counts, src);
    DealtBalances(setup, OfferDirectly(s, e, counts), e, op, w1, fate, src);
  }

  lemma StepBalances(setup: Setup, s: System, event: Event, src: nat)
    requires Shaped(setup, s) && InOrder(setup, s) && src < |s.sources| && Balanced(setup, s, src)
    ensures Balanced(setup, Step(setup, s, event), src)
  {
    if Step(setup, s, event) != s {
      match event
      case Offer(e) => OfferBalances(setup, s, e, src);
      case AllocationFails(at) =>
      case Lock(at) => LockBalances(setup, s, at, src);
      case Count(at) => CountBalances(setup, s, at, src);
      case PopOne => PopBalances(setup, s, src);
      case WriteIt(disk) => WriteBalances(setup, s, disk, src);
      case Direct(e, disk) => DirectBalances(setup, s, e, disk, src);
      case _ =>
    }
  }

  /** In every interleaving, threaded or not. */
  lemma {:induction false} AlwaysBalanced(setup: Setup, events: seq<Event>, src: nat)
    requires src < |setup.cfg.pcapng|
    ensures Balanced(setup, After(setup, events), src)
  {
    if events == [] {
    } else {
      var before := events[..|events| - 1];
      AlwaysBalanced(setup, before, src);
      WrittenIsPrefixOfAccepted(setup, before);
      StepBalances(setup, After(setup, before), events[|events| - 1], src);
    }
  }

  /** The packets among some elements: of pcapng blocks only those with data count. */
  function PacketCount(es: seq<Element>): nat {
    if es == [] then 0 else PacketCount(es[..|es| - 1]) + if IsPacket(es[|es| - 1]) then 1 else 0
  }

  predicate IsPacket(e: Element) {
    e.QueuedBlock? ==> |e.raw| >= MIN_BLOCK_SIZE && BlockOf(e.raw).IsData()
  }

  /** Without threads a source counts as received what is written of it; an element stays in the
      writer's hand only if it ended the process. */
  ghost predicate CountsWritten(s: System, src: nat)
    requires src < |s.sources|
  {
    (s.hand.Some? ==> s.w.aborted) && s.sources[src].received == PacketCount(PartOf(s.h.taken, src))
  }

  lemma DealtCountsWritten(s: System, e: Element, op: Op, w1: State, fate: Fate, src: nat)
    requires e.src < |s.sources| && src < |s.sources| && s.hand.None? && CountsWritten(s, src)
    requires (fate == Fate.Aborted ==> w1.aborted) && (fate == Absorbed ==> !IsPacket(e))
    ensures CountsWritten(Dealt(OfferDirectly(s, e, fate == Written && IsPacket(e)), e, op, w1, fate), src)
  {
    DealtReceived(s, e, fate == Written && IsPacket(e), op, w1, fate, src);
    PacketCountOfOne(s.h.taken, e, src);
  }

  lemma DealtReceived(s: System, e: Element, counts: bool, op: Op, w1: State, fate: Fate, src: nat)
    requires e.src < |s.sources| && src < |s.sources| && s.hand.None? && (fate == Fate.Aborted ==> w1.aborted)
    ensures var s1 := Dealt(OfferDirectly(s, e, counts), e, op, w1, fate);
            && s1.sources[src].received == s.sources[src].received + (if e.src == src && counts then 1 else 0)
            && s1.h.taken == (if fate == Written || fate == Absorbed then s.h.taken + [e] else s.h.taken)
            && (s1.hand.Some? ==> s1.w.aborted)
  {
  }

  lemma PacketCountOfOne(es: seq<Element>, e: Element, src: nat)
    ensures PacketCount(PartOf(es + [e], src)) == PacketCount(PartOf(es, src)) + if e.src == src && IsPacket(e) then 1 else 0
  {
    var part := PartOf(es, src);
    PartOfOne(es, e, src);
    assert (part + [e])[..|part|] == part;
  }

  lemma AbsorbedIsNoPacket(cfg: Config, w: State, e: Element, disk: Disk)
    requires w.Shaped(cfg) && e.Fits(cfg)
    ensures FateOf(cfg, w, OpOf(e, disk)) == Absorbed ==> !IsPacket(e)
  {
  }

  lemma DirectCountsWritten(setup: Setup, s: System, e: Element, disk: Disk, src: nat)
    requires Shaped(setup, s) && InOrder(setup, s) && !setup.threads && e.Fits(setup.cfg) && s.hand.None? && src < |s.sources|
    requires CountsWritten(s, src)
    ensures CountsWritten(WriteDirectly(setup.cfg, s, e, disk), src)
  {
    OutcomesSound(setup.cfg, s.w, e, disk);
    AbsorbedIsNoPacket(setup.cfg, s.w, e, disk);
    var op := OpOf(e, disk);
    DealtCountsWritten(s, e, op, Apply(setup.cfg, s.w, op), FateOf(setup.cfg, s.w, op), src);
  }

  lemma StepCountsWritten(setup: Setup, s: System, event: Event, src: nat)
    requires Shaped(setup, s) && InOrder(setup, s) && !setup.threads && src < |s.sources| && CountsWritten(s, src)
    ensures CountsWritten(Step(setup, s, event), src)
  {
    if Step(setup, s, event) != s && event.Direct? {
      DirectCountsWritten(setup, s, event.e, event.disk, src);
    }
  }

  /** In every run without threads: received counts exactly the packets written. */
  lemma {:induction false} ReceivedAreWritten(setup: Setup, events: seq<Event>, src: nat)
    requires src < |setup.cfg.pcapng| && !setup.threads
    ensures CountsWritten(After(setup, events), src)
  {
    if events == [] {
    } else {
      var before := events[..|events| - 1];
      ReceivedAreWritten(setup, before, src);
      WrittenIsPrefixOfAccepted(setup, before);
      StepCountsWritten(setup, After(setup, before), events[|events| - 1], src);
    }
  }

  /** When no callback is running and the queue has been drained, what was offered has been
      written, dropped or flushed. */
  lemma ConservedAtEnd(setup: Setup, events: seq<Event>, src: nat)
    requires src < |setup.cfg.pcapng|
    requires var s := After(setup, events); s.queue.elements == [] && s.hand.None? && s.sources[src].reader.Idle?
    ensures var s := After(setup, events);
            |s.sources[src].offered| == |PartOf(s.h.taken, src)| + s.sources[src].dropped + s.sources[src].flushed
  {
    AlwaysBalanced(setup, events, src);
  }

  // What dropped and flushed count

  /** What a source counts as dropped is what its reader has refused and counted, and what could not be
      written, which is at most one element, the last before the stop. Nothing is flushed before that. */
  ghost predicate LossesCounted(s: System, src: nat)
    requires src < |s.sources|
  {
    var source := s.sources[src];
    && source.dropped + (if source.reader.Refused? then 1 else 0) == |PartOf(s.h.lost, src)| + |PartOf(s.h.failed, src)|
    && |s.h.failed| <= (if s.w.go then 0 else 1) && (s.w.go ==> source.flushed == 0)
  }

  lemma DealtCounters(s: System, e: Element, op: Op, w1: State, fate: Fate, src: nat)
    requires e.src < |s.sources| && src < |s.sources|
    ensures var s1 := Dealt(s, e, op, w1, fate); var own := e.src == src;
            && s1.sources[src].dropped == s.sources[src].dropped + (if own && fate == Dropped then 1 else 0)
            && s1.sources[src].flushed == s.sources[src].flushed + (if own && fate == Flushed then 1 else 0)
            && s1.sources[src].reader == s.sources[src].reader && s1.w == w1 && s1.h.lost == s.h.lost
            && s1.h.failed == if fate == Dropped then s.h.failed + [e] else s.h.failed
  {
  }

  lemma DealtLosses(s: System, e: Element, op: Op, w1: State, fate: Fate, src: nat)
    requires e.src < |s.sources| && src < |s.sources| && LossesCounted(s, src)
    requires (w1.go ==> s.w.go) && (fate == Dropped ==> s.w.go && !w1.go) && (fate == Flushed ==> !s.w.go)
    ensures LossesCounted(Dealt(s, e, op, w1, fate), src)
  {
    DealtCounters(s, e, op, w1, fate, src);
    PartOfOne(s.h.failed, e, src);
  }

  lemma LossesDecided(cfg: Config, w: State, e: Element, disk: Disk)
    requires w.Shaped(cfg) && e.Fits(cfg)
    ensures var w1, fate := Apply(cfg, w, OpOf(e, disk)), FateOf(cfg, w, OpOf(e, disk));
            (w1.go ==> w.go) && (fate == Dropped ==> w.go && !w1.go) && (fate == Flushed ==> !w.go)
  {
    GoNeverReturns(cfg, w, OpOf(e, disk));
  }

  lemma DealLosses(cfg: Config, s: System, e: Element, disk: Disk, src: nat)
    requires s.w.Shaped(cfg) && |s.sources| == |cfg.pcapng| && e.Fits(cfg) && src < |s.sources| && LossesCounted(s, src)
    ensures LossesCounted(Deal(cfg, s, e, disk), src)
  {
    LossesDecided(cfg, s.w, e, disk);
    DealtLosses(s, e, OpOf(e, disk), Apply(cfg, s.w, OpOf(e, disk)), FateOf(cfg, s.w, OpOf(e, disk)), src);
  }

  lemma OfferLosses(s: System, e: Element, src: nat)
    requires e.src < |s.sources| && src < |s.sources| && s.sources[e.src].reader.Idle? && LossesCounted(s, src)
    ensures LossesCounted(OfferTo(s, e), src)
  {
  }

  lemma RefusalLosses(s: System, at: nat, src: nat)
    requires at < |s.sources| && src < |s.sources| && s.sources[at].reader.Checked? && s.sources[at].reader.e.src == at
    requires LossesCounted(s, src)
    ensures LossesCounted(Refuse(s, at), src)
  {
    PartOfOne(s.h.lost, s.sources[at].reader.e, src);
  }

  lemma LockLosses(limits: QueueLimits, s: System, at: nat, src: nat)
    requires at < |s.sources| && src < |s.sources| && s.sources[at].reader.Checked? && s.sources[at].reader.e.src == at
    requires LossesCounted(s, src)
    ensures LossesCounted(LockAndPush(limits, s, at), src)
  {
    RefusalLosses(s, at, src);
  }

  lemma CountLosses(s: System, at: nat, src: nat)
    requires at < |s.sources| && src < |s.sources| && LossesCounted(s, src)
    ensures LossesCounted(CountIt(s, at), src)
  {
  }

  lemma DirectLosses(cfg: Config, s: System, e: Element, disk: Disk, src: nat)
    requires s.w.Shaped(cfg) && |s.sources| == |cfg.pcapng| && e.Fits(cfg) && src < |s.sources| && LossesCounted(s, src)
    ensures LossesCounted(WriteDirectly(cfg, s, e, disk), src)
  {
    var counts := FateOf(cfg, s.w, OpOf(e, disk)) == Written && (e.QueuedPacket? || BlockOf(e.raw).IsData());
    DealLosses(cfg, OfferDirectly(s, e, counts), e, disk, src);
  }

  /** What the counters do not depend on. */
  lemma OtherLosses(s: System, s1: System, src: nat)
    requires src < |s.sources| && LossesCounted(s, src) && s1.sources == s.sources
    requires s1.h.lost == s.h.lost && s1.h.failed == s.h.failed && (s1.w.go ==> s.w.go)
    ensures LossesCounted(s1, src)
  {
  }

  lemma StepLosses(setup: Setup, s: System, event: Event, src: nat)
    requires Shaped(setup, s) && src < |s.sources| && LossesCounted(s, src)
    ensures Shaped(setup, Step(setup, s, event))
    ensures LossesCounted(Step(setup, s, event), src)
  {
    StepKeepsShape(setup, s, event);
    if Step(setup, s, event) != s {
      match event
      case Offer(e) => OfferLosses(s, e, src);
      case AllocationFails(at) => RefusalLosses(s, at, src);
      case Lock(at) => LockLosses(setup.limits, s, at, src);
      case Count(at) => CountLosses(s, at, src);
      case PopOne => OtherLosses(s, PopIt(s), src);
      case WriteIt(disk) => DealLosses(setup.cfg, s, s.hand.value, disk, src);
      case Direct(e, disk) => DirectLosses(setup.cfg, s, e, disk, src);
      case Tick(clock, first, second) =>
        GoNeverReturns(setup.cfg, s.w, UpdateOp(clock, first, second));
        OtherLosses(s, Step(setup, s, event), src);
      case StopSignal => OtherLosses(s, Step(setup, s, event), src);
    }
  }

  /** In every interleaving, threaded or not. */
  lemma {:induction false} LossesAlwaysCounted(setup: Setup, events: seq<Event>, src: nat)
    requires src < |setup.cfg.pcapng|
    ensures LossesCounted(After(setup, events), src)
  {
    if events == [] {
    } else {
      var before := events[..|events| - 1];
      LossesAlwaysCounted(setup, before, src);
      StepLosses(setup, After(setup, before), events[|events| - 1], src);
    }
  }

  // Order of each source

  /** The elements of a are elements of b in the same order. */
  predicate Subsequence<T(==)>(a: seq<T>, b: seq<T>) {
    if b == [] then a == []
    else Subsequence(a, b[..|b| - 1])
         || (a != [] && a[|a| - 1] == b[|b| - 1] && Subsequence(a[..|a| - 1], b[..|b| - 1]))
  }

  lemma SubsequenceOneMore<T>(a: seq<T>, b: seq<T>, e: T)
    requires Subsequence(a, b)
    ensures Subsequence(a, b + [e]) && Subsequence(a + [e], b + [e])
  {
    assert (b + [e])[..|b + [e]| - 1] == b && (a + [e])[..|a + [e]| - 1] == a;
  }

  /** What a reader has offered and is past deciding on. */
  function Past(source: Source): seq<Element> {
    if source.reader.Checked? && source.offered != [] then source.offered[..|source.offered| - 1] else source.offered
  }

  ghost predicate KeepsOrder(s: System, src: nat)
    requires src < |s.sources|
  {
    var source := s.sources[src];
    && (source.reader.Checked? ==> source.offered != [] && source.offered[|source.offered| - 1] == source.reader.e
                                   && source.reader.e.src == src)
    && Subsequence(PartOf(s.h.accepted, src), Past(source))
  }

  lemma OfferKeepsOrder(s: System, e: Element, src: nat)
    requires e.src < |s.sources| && src < |s.sources| && s.sources[e.src].reader.Idle? && KeepsOrder(s, src)
    ensures KeepsOrder(OfferTo(s, e), src)
  {
    if e.src == src {
      var offered, source := s.sources[src].offered, OfferTo(s, e).sources[src];
      SubsequenceOneMore(PartOf(s.h.accepted, src), offered, e);
      assert source.offered == offered + [e] && source.offered[..|source.offered| - 1] == offered;
    } else {
      assert OfferTo(s, e).sources[src] == s.sources[src];
    }
  }

  lemma LockKeepsOrder(limits: QueueLimits, s: System, at: nat, src: nat)
    requires at < |s.sources| && src < |s.sources| && s.sources[at].reader.Checked? && s.sources[at].reader.e.src == at
    requires KeepsOrder(s, src)
    ensures KeepsOrder(LockAndPush(limits, s, at), src)
  {
    PartOfOne(s.h.accepted, s.sources[at].reader.e, src);
    if at == src {
      RefusedKeepsOrder(s, src);
    } else {
      assert LockAndPush(limits, s, at).sources[src] == s.sources[src];
    }
  }

  lemma DirectKeepsOrder(s: System, e: Element, counts: bool, src: nat)
    requires e.src < |s.sources| && src < |s.sources| && s.sources[e.src].reader.Idle? && KeepsOrder(s, src)
    ensures KeepsOrder(OfferDirectly(s, e, counts), src)
  {
    PartOfOne(s.h.accepted, e, src);
    if e.src == src {
      SubsequenceOneMore(PartOf(s.h.accepted, src), s.sources[src].offered, e);
      assert OfferDirectly(s, e, counts).sources[src].offered == s.sources[src].offered + [e];
    }
  }

  lemma DealtKeepsOrder(s: System, e: Element, op: Op, w1: State, fate: Fate, src: nat)
    requires e.src < |s.sources| && src < |s.sources| && KeepsOrder(s, src)
    ensures KeepsOrder(Dealt(s, e, op, w1, fate), src)
  {
  }

  lemma RefusalKeepsOrder(s: System, at: nat, src: nat)
    requires at < |s.sources| && src < |s.sources| && s.sources[at].reader.Checked? && KeepsOrder(s, src)
    ensures KeepsOrder(Refuse(s, at), src)
  {
    RefusedKeepsOrder(s, src);
  }

  lemma CountKeepsOrder(s: System, at: nat, src: nat)
    requires at < |s.sources| && src < |s.sources| && KeepsOrder(s, src)
    ensures KeepsOrder(CountIt(s, at), src)
  {
  }

  lemma StepKeepsOrder(setup: Setup, s: System, event: Event, src: nat)
    requires Shaped(setup, s) && InOrder(setup, s) && src < |s.sources| && KeepsOrder(s, src)
    ensures KeepsOrder(Step(setup, s, event), src)
  {
    if Step(setup, s, event) != s {
      match event
      case Offer(e) => OfferKeepsOrder(s, e, src);
      case AllocationFails(at) => RefusalKeepsOrder(s, at, src);
      case Lock(at) => LockKeepsOrder(setup.limits, s, at, src);
      case Count(at) => CountKeepsOrder(s, at, src);
      case WriteIt(disk) =>
        var op := OpOf(s.hand.value, disk);
        DealtKeepsOrder(s, s.hand.value, op, Apply(setup.cfg, s.w, op), FateOf(setup.cfg, s.w, op), src);
      case Direct(e, disk) =>
        var op := OpOf(e, disk);
        var fate := FateOf(setup.cfg, s.w, op);
        var counts := fate == Written && (e.QueuedPacket? || BlockOf(e.raw).IsData());
        DirectKeepsOrder(s, e, counts, src);
        DealtKeepsOrder(OfferDirectly(s, e, counts), e, op, Apply(setup.cfg, s.w, op), fate, src);
      case _ =>
    }
  }

  lemma RefusedKeepsOrder(s: System, src: nat)
    requires src < |s.sources| && KeepsOrder(s, src)
    ensures var source := s.sources[src]; var accepted := PartOf(s.h.accepted, src);
            Subsequence(accepted, source.offered)
            && (source.reader.Checked? ==> Subsequence(accepted + [source.reader.e], source.offered))
  {
    var source := s.sources[src];
    if source.reader.Checked? {
      SubsequenceOneMore(PartOf(s.h.accepted, src), Past(source), source.reader.e);
      assert Past(source) + [source.reader.e] == source.offered;
    }
  }

  /** In every interleaving: what is accepted from a source is in the order in which the source offered
      it. */
  lemma {:induction false} SourcesKeepOrder(setup: Setup, events: seq<Event>, src: nat)
    requires src < |setup.cfg.pcapng|
    ensures KeepsOrder(After(setup, events), src)
  {
    if events == [] {
    } else {
      var before := events[..|events| - 1];
      SourcesKeepOrder(setup, before, src);
      WrittenIsPrefixOfAccepted(setup, before);
      StepKeepsOrder(setup, After(setup, before), events[|events| - 1], src);
    }
  }

  lemma {:induction false} PartOfPrefix(a: seq<Element>, b: seq<Element>, src: nat)
    requires a <= b
    ensures PartOf(a, src) <= PartOf(b, src)
  {
    if a == b {
    } else {
      var n := |b| - 1;
      PartOfPrefix(a, b[..n], src);
    }
  }

  lemma {:induction false} PrefixOfSubsequence<T>(a: seq<T>, b: seq<T>, c: seq<T>)
    requires a <= b && Subsequence(b, c)
    ensures Subsequence(a, c)
    decreases |c|
  {
    if a == b {
    } else if Subsequence(b, c[..|c| - 1]) {
      PrefixOfSubsequence(a, b, c[..|c| - 1]);
    } else {
      PrefixOfSubsequence(a, b[..|b| - 1], c[..|c| - 1]);
    }
  }

  /** And so is what is written of it. */
  lemma WrittenInOrder(setup: Setup, events: seq<Event>, src: nat)
    requires src < |setup.cfg.pcapng|
    ensures var s := After(setup, events); Subsequence(PartOf(s.h.taken, src), s.sources[src].offered)
  {
    var s := After(setup, events);
    SourcesKeepOrder(setup, events, src);
    RefusedKeepsOrder(s, src);
    WrittenIsPrefixOfAccepted(setup, events);
    PartOfPrefix(s.h.taken, s.h.accepted, src);
    PrefixOfSubsequence(PartOf(s.h.taken, src), PartOf(s.h.accepted, src), s.sources[src].offered);
  }

  // Output files

  /** The writer's state is that of a run of its operations. */
  ghost predicate IsRun(cfg: Config, s: System) {
    OpsFit(cfg, s.h.ops) && s.w == Run(cfg, s.h.ops)
  }

  lemma OpIsRun(cfg: Config, s: System, op: Op)
    requires IsRun(cfg, s) && OpFits(cfg, op)
    ensures s.w.Shaped(cfg) && OpsFit(cfg, s.h.ops + [op]) && Apply(cfg, s.w, op) == Run(cfg, s.h.ops + [op])
  {
    RunOneMore(cfg, s.h.ops, op);
  }

  lemma DealIsRun(cfg: Config, s: System, e: Element, disk: Disk)
    requires IsRun(cfg, s) && s.w.Shaped(cfg) && |s.sources| == |cfg.pcapng| && e.Fits(cfg)
    ensures IsRun(cfg, Deal(cfg, s, e, disk))
  {
    OpIsRun(cfg, s, OpOf(e, disk));
  }

  lemma DirectIsRun(cfg: Config, s: System, e: Element, disk: Disk)
    requires IsRun(cfg, s) && s.w.Shaped(cfg) && |s.sources| == |cfg.pcapng| && e.Fits(cfg)
    ensures IsRun(cfg, WriteDirectly(cfg, s, e, disk))
  {
    var counts := FateOf(cfg, s.w, OpOf(e, disk)) == Written && (e.QueuedPacket? || BlockOf(e.raw).IsData());
    DealIsRun(cfg, OfferDirectly(s, e, counts), e, disk);
  }

  lemma StepIsRun(setup: Setup, s: System, event: Event)
    requires Shaped(setup, s) && IsRun(setup.cfg, s)
    ensures IsRun(setup.cfg, Step(setup, s, event))
  {
    if Step(setup, s, event) != s {
      match event
      case WriteIt(disk) => DealIsRun(setup.cfg, s, s.hand.value, disk);
      case Direct(e, disk) => DirectIsRun(setup.cfg, s, e, disk);
      case Tick(clock, first, second) => OpIsRun(setup.cfg, s, UpdateOp(clock, first, second));
      case StopSignal => OpIsRun(setup.cfg, s, StopOp);
      case _ => assert Step(setup, s, event).w == s.w && Step(setup, s, event).h.ops == s.h.ops;
    }
  }

  /** What is proved of every run of the writer holds in every interleaving of readers and writer. */
  lemma {:induction false} AlwaysARun(setup: Setup, events: seq<Event>)
    ensures IsRun(setup.cfg, After(setup, events))
  {
    if events == [] {
    } else {
      AlwaysARun(setup, events[..|events| - 1]);
      StepIsRun(setup, After(setup, events[..|events| - 1]), events[|events| - 1]);
    }
  }

  /** Elements that are not section headers or interface descriptions. */
  predicate IsContent(e: Element) {
    e.QueuedBlock? && |e.raw| >= MIN_BLOCK_SIZE ==> !BlockOf(e.raw).Shb? && !BlockOf(e.raw).Idb?
  }

  function Contents(es: seq<Element>): seq<Element> {
    if es == [] then []
    else if IsContent(es[|es| - 1]) then Contents(es[..|es| - 1]) + [es[|es| - 1]]
    else Contents(es[..|es| - 1])
  }

  lemma ContentsOne(es: seq<Element>, e: Element)
    ensures Contents(es + [e]) == if IsContent(e) then Contents(es) + [e] else Contents(es)
  {
    assert (es + [e])[..|es + [e]| - 1] == es;
  }

  /** An output block carries an element: a packet under its source's interface id, or a block that
      at most has another interface id. */
  predicate Carries(cfg: Config, o: Out, e: Element) {
    if e.QueuedPacket? then e.src < |cfg.pcapng| && o == PacketOut(cfg, e.src, e.packet)
    else |e.raw| >= MIN_BLOCK_SIZE && o.Copied? && SameButId(o.block, BlockOf(e.raw))
  }

  predicate SameButId(a: Block, b: Block) {
    if b.Epb? then a.Epb? && a.rest == b.rest
    else if b.Isb? then a.Isb? && a.rest == b.rest
    else a == b
  }

  ghost predicate Carry(cfg: Config, f: File, es: seq<Element>) {
    |f| == |es| && forall i | 0 <= i < |f| :: Carries(cfg, f[i], es[i])
  }

  /** Concatenated, the output files carry what was written, once and in order. */
  ghost predicate FilesCarry(cfg: Config, s: System) {
    s.w.files != [] && Carry(cfg, AllPayload(s.w.files), Contents(s.h.taken))
  }

  lemma AddedCarries(cfg: Config, w: State, e: Element, disk: Disk)
    requires w.Shaped(cfg) && e.Fits(cfg)
    ensures var fate := FateOf(cfg, w, OpOf(e, disk));
            Carry(cfg, Added(cfg, w, OpOf(e, disk)),
                  if (fate == Written || fate == Absorbed) && IsContent(e) then [e] else [])
  {
  }

  lemma CarryAppend(cfg: Config, f: File, es: seq<Element>, g: File, ds: seq<Element>)
    requires Carry(cfg, f, es) && Carry(cfg, g, ds)
    ensures Carry(cfg, f + g, es + ds)
  {
  }

  lemma DealtHistory(s: System, e: Element, op: Op, w1: State, fate: Fate)
    requires e.src < |s.sources|
    ensures Dealt(s, e, op, w1, fate).w == w1
    ensures Dealt(s, e, op, w1, fate).h.ops == s.h.ops + [op]
    ensures Dealt(s, e, op, w1, fate).h.taken == if fate == Written || fate == Absorbed then s.h.taken + [e] else s.h.taken
  {
  }

  lemma ContentsAfter(taken: seq<Element>, e: Element, takes: bool)
    ensures Contents(if takes then taken + [e] else taken) == Contents(taken) + if takes && IsContent(e) then [e] else []
  {
    ContentsOne(taken, e);
    assert Contents(taken) + [] == Contents(taken);
  }

  lemma DealtCarries(cfg: Config, s: System, e: Element, op: Op, w1: State, fate: Fate, added: File)
    requires e.src < |s.sources| && FilesCarry(cfg, s) && w1.files != []
    requires AllPayload(w1.files) == AllPayload(s.w.files) + added
    requires Carry(cfg, added, if (fate == Written || fate == Absorbed) && IsContent(e) then [e] else [])
    ensures FilesCarry(cfg, Dealt(s, e, op, w1, fate))
  {
    var takes := fate == Written || fate == Absorbed;
    var more := if takes && IsContent(e) then [e] else [];
    DealtHistory(s, e, op, w1, fate);
    ContentsAfter(s.h.taken, e, takes);
    CarryAppend(cfg, AllPayload(s.w.files), Contents(s.h.taken), added, more);
  }

  lemma DealCarries(cfg: Config, s: System, e: Element, disk: Disk)
    requires s.w.Shaped(cfg) && |s.sources| == |cfg.pcapng| && e.Fits(cfg) && FilesCarry(cfg, s)
    ensures FilesCarry(cfg, Deal(cfg, s, e, disk))
  {
    var op := OpOf(e, disk);
    StepAddsPayload(cfg, s.w, op);
    AddedCarries(cfg, s.w, e, disk);
    DealtCarries(cfg, s, e, op, Apply(cfg, s.w, op), FateOf(cfg, s.w, op), Added(cfg, s.w, op));
  }

  lemma OtherCarries(cfg: Config, s: System, op: Op)
    requires s.w.Shaped(cfg) && OpFits(cfg, op) && FilesCarry(cfg, s) && (op.UpdateOp? || op.StopOp?)
    ensures FilesCarry(cfg, s.(w := Apply(cfg, s.w, op)))
  {
    StepAddsPayload(cfg, s.w, op);
  }

  /** In every interleaving: concatenating the output files gives exactly what was written, which is
      a prefix of what was accepted. */
  lemma {:induction false} FilesAlwaysCarry(setup: Setup, events: seq<Event>)
    ensures FilesCarry(setup.cfg, After(setup, events))
  {
    if events == [] {
      StartCarries(setup);
    } else {
      FilesAlwaysCarry(setup, events[..|events| - 1]);
      StepCarries(setup, After(setup, events[..|events| - 1]), events[|events| - 1]);
    }
  }

  lemma StartCarries(setup: Setup)
    ensures FilesCarry(setup.cfg, Initial(setup))
  {
    StartPayload(setup.cfg);
  }

  lemma StepCarries(setup: Setup, s: System, event: Event)
    requires Shaped(setup, s) && FilesCarry(setup.cfg, s)
    ensures FilesCarry(setup.cfg, Step(setup, s, event))
  {
    if Step(setup, s, event) != s {
      match event
      case WriteIt(disk) => DealCarries(setup.cfg, s, s.hand.value, disk);
      case Direct(e, disk) =>
        var counts := FateOf(setup.cfg, s.w, OpOf(e, disk)) == Written && (e.QueuedPacket? || BlockOf(e.raw).IsData());
        DealCarries(setup.cfg, OfferDirectly(s, e, counts), e, disk);
      case Tick(clock, first, second) => OtherCarries(setup.cfg, s, UpdateOp(clock, first, second));
      case StopSignal => OtherCarries(setup.cfg, s, StopOp);
      case _ =>
        assert Step(setup, s, event).w == s.w && Step(setup, s, event).h.taken == s.h.taken;
    }
  }

  /** In every interleaving of any sources into one pcapng output, the files attribute every packet
      to the interface that its own source meant. */
  lemma InterleavingsPreserveAttribution(setup: Setup, events: seq<Event>)
    requires setup.cfg.Multiplexing()
    ensures var s := After(setup, events);
            && OpsFit(setup.cfg, s.h.ops)
            && Explicit(DecodeFiles(s.w.files)) == Multiplexing.Meant(setup.cfg, s.h.ops).items
  {
    AlwaysARun(setup, events);
    Multiplexing.AttributionPreserved(setup.cfg, After(setup, events).h.ops);
  }
}
