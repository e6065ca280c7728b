/** Many readers, one bounded queue, one writer. Each access to the shared queue is one step, since
    it holds the queue's lock; the steps of different threads come in any order. */
module CaptureQueue {
  import opened Bytes
  import opened Framing
  import opened PcapngFormat
  import opened Sections
  import opened Writer
  import opened Payload

  // The queue

  datatype Element = QueuedPacket(src: nat, packet: Packet) | QueuedBlock(src: nat, raw: seq<byte>)
  {
    function Size(): nat {
      if QueuedPacket? then packet.capLen else |raw|
    }

    predicate Fits(cfg: Config) {
      && src < |cfg.pcapng| && cfg.pcapng[src] == QueuedBlock?
      && (QueuedBlock? ==> |raw| >= MIN_BLOCK_SIZE)
    }
  }

  /** Zero stands for no limit. */
  datatype QueueLimits = QueueLimits(bytes: nat, packets: nat)

  datatype Queue = Queue(elements: seq<Element>, bytes: int, packets: int)
  {
    predicate HasRoom(limits: QueueLimits) {
      (limits.bytes == 0 || bytes < limits.bytes) && (limits.packets == 0 || packets < limits.packets)
    }

    function Push(e: Element): Queue {
      Queue(elements + [e], bytes + e.Size(), packets + 1)
    }

    function Pop(): Queue
      requires elements != []
    {
      Queue(elements[1..], bytes - elements[0].Size(), packets - 1)
    }
  }

  function QueuedSize(es: seq<Element>): nat {
    if es == [] then 0 else QueuedSize(es[..|es| - 1]) + es[|es| - 1].Size()
  }

  /** The counters are those of the elements, the packet limit is never exceeded, and the byte limit
      by less than the element pushed last. */
  ghost predicate Accounted(limits: QueueLimits, q: Queue) {
    && q.packets == |q.elements| && q.bytes == QueuedSize(q.elements)
    && (limits.packets != 0 ==> |q.elements| <= limits.packets)
    && (limits.bytes != 0 && q.elements != [] ==> QueuedSize(q.elements[..|q.elements| - 1]) < limits.bytes)
  }

  lemma {:induction false} SizeOfTail(es: seq<Element>)
    requires es != []
    ensures QueuedSize(es) == es[0].Size() + QueuedSize(es[1..])
  {
    var n := |es| - 1;
    if n > 0 {
      SizeOfTail(es[..n]);
      assert es[1..][..n - 1] == es[..n][1..];
    } else {
      assert es[..0] == [] && es[1..] == [];
    }
  }

  lemma PushAccounted(limits: QueueLimits, q: Queue, e: Element)
    requires Accounted(limits, q) && q.HasRoom(limits)
    ensures Accounted(limits, q.Push(e))
  {
    assert q.Push(e).elements[..|q.elements|] == q.elements;
  }

  lemma PopAccounted(limits: QueueLimits, q: Queue)
    requires Accounted(limits, q) && q.elements != []
    ensures Accounted(limits, q.Pop())
  {
    SizeOfTail(q.elements);
    if |q.elements| > 1 {
      var n := |q.elements| - 1;
      SizeOfTail(q.elements[..n]);
      assert q.elements[1..][..n - 1] == q.elements[..n][1..];
    }
  }

  // The system

  /** Where a reader is in its packet callback: not in it; past the check that the capture goes on,
      holding a copy; or past the lock, with its element pushed or refused, and not yet counted. */
  datatype Reader = Idle | Checked(e: Element) | Pushed | Refused

  datatype Source = Source(reader: Reader, offered: seq<Element>, received: nat, dropped: nat, flushed: nat)

  /** What has happened: operations of the writer, elements accepted into the queue, those the
      writer has dealt with, those it wrote (or absorbed, for a section header), those that a
      reader dropped, and those that could not be written. */
  datatype History = History(
    ops: seq<Op>,
    accepted: seq<Element>,
    processed: seq<Element>,
    taken: seq<Element>,
    lost: seq<Element>,
    failed: seq<Element>)

  /** hand: what the writer has taken from the queue and not yet dealt with. */
  datatype System = System(w: State, queue: Queue, sources: seq<Source>, hand: Option<Element>, h: History)

  datatype Setup = Setup(cfg: Config, limits: QueueLimits, threads: bool)

  datatype Event =
    | Offer(e: Element)
    | AllocationFails(src: nat)
    | Lock(src: nat)
    | Count(src: nat)
    | PopOne
    | WriteIt(disk: Disk)
    | Direct(e: Element, disk: Disk)
    | Tick(clock: Clock, first: Disk, second: Disk)
    | StopSignal

  function OpOf(e: Element, disk: Disk): Op
    requires e.QueuedBlock? ==> |e.raw| >= MIN_BLOCK_SIZE
  {
    match e
    case QueuedPacket(src, packet) => PacketOp(src, packet, disk)
    case QueuedBlock(src, raw) => BlockOp(src, BlockOf(raw), disk)
  }

  function Initial(setup: Setup): System {
    System(Start(setup.cfg), Queue([], 0, 0), seq(|setup.cfg.pcapng|, _ => Source(Idle, [], 0, 0, 0)), None,
           History([], [], [], [], [], []))
  }

  ghost predicate Shaped(setup: Setup, s: System) {
    && s.w.Shaped(setup.cfg) && |s.sources| == |setup.cfg.pcapng|
    && (s.hand.Some? ==> s.hand.value.Fits(setup.cfg))
    && (forall i | 0 <= i < |s.h.taken| :: s.h.taken[i].Fits(setup.cfg))
    && (forall i | 0 <= i < |s.queue.elements| :: s.queue.elements[i].Fits(setup.cfg))
    && (forall i | 0 <= i < |s.sources| && s.sources[i].reader.Checked? ::
          s.sources[i].reader.e.Fits(setup.cfg) && s.sources[i].reader.e.src == i)
  }

  function With(s: System, src: nat, source: Source): System
    requires src < |s.sources|
  {
    s.(sources := s.sources[src := source])
  }

  /** The packet callback of a reader thread, up to its first shared access. */
  function OfferTo(s: System, e: Element): System
    requires e.src < |s.sources|
  {
    var source := s.sources[e.src];
    var source1 := source.(offered := source.offered + [e]);
    if !s.w.go then With(s, e.src, source1.(flushed := source1.flushed + 1))
    else With(s, e.src, source1.(reader := Checked(e)))
  }

  /** The part of the callback that holds the lock. */
  function LockAndPush(limits: QueueLimits, s: System, src: nat): System
    requires src < |s.sources| && s.sources[src].reader.Checked?
  {
    var source := s.sources[src];
    var e := source.reader.e;
    if s.queue.HasRoom(limits) then
      With(s, src, source.(reader := Pushed)).(queue := s.queue.Push(e), h := s.h.(accepted := s.h.accepted + [e]))
    else Refuse(s, src)
  }

  /** There is no room, in the queue or in memory, for the element that a reader holds: it is lost. */
  function Refuse(s: System, src: nat): System
    requires src < |s.sources| && s.sources[src].reader.Checked?
  {
    With(s, src, s.sources[src].(reader := Refused)).(h := s.h.(lost := s.h.lost + [s.sources[src].reader.e]))
  }

  function CountIt(s: System, src: nat): System
    requires src < |s.sources|
  {
    var source := s.sources[src];
    match source.reader
    case Pushed => With(s, src, source.(reader := Idle, received := source.received + 1))
    case Refused => With(s, src, source.(reader := Idle, dropped := source.dropped + 1))
    case _ => s
  }

  function CountFate(source: Source, fate: Fate): Source {
    match fate
    case Flushed => source.(flushed := source.flushed + 1)
    case Dropped => source.(dropped := source.dropped + 1)
    case _ => source
  }

  /** The writer has dealt with an element, with a new state and a fate for the element as the
      outcome. A block whose interface id means nothing ends the process then and there. */
  function Dealt(s: System, e: Element, op: Op, w1: State, fate: Fate): System
    requires e.src < |s.sources|
  {
    var ops := s.h.ops + [op];
    if fate == Fate.Aborted then s.(w := w1, hand := Some(e), h := s.h.(ops := ops))
    else
      var taken := if fate == Written || fate == Absorbed then s.h.taken + [e] else s.h.taken;
      var failed := if fate == Dropped then s.h.failed + [e] else s.h.failed;
      With(s, e.src, CountFate(s.sources[e.src], fate)).(w := w1, hand := None,
           h := s.h.(ops := ops, processed := s.h.processed + [e], taken := taken, failed := failed))
  }

  function Deal(cfg: Config, s: System, e: Element, disk: Disk): System
    requires s.w.Shaped(cfg) && |s.sources| == |cfg.pcapng| && e.Fits(cfg)
  {
    var op := OpOf(e, disk);
    Dealt(s, e, op, Apply(cfg, s.w, op), FateOf(cfg, s.w, op))
  }

  /** A packet is offered without threads and queue, and counted as received if it will be. */
  function OfferDirectly(s: System, e: Element, counts: bool): System
    requires e.src < |s.sources|
  {
    var source := s.sources[e.src];
    With(s, e.src, source.(offered := source.offered + [e], received := source.received + if counts then 1 else 0))
    .(h := s.h.(accepted := s.h.accepted + [e]))
  }

  function WriteDirectly(cfg: Config, s: System, e: Element, disk: Disk): System
    requires s.w.Shaped(cfg) && |s.sources| == |cfg.pcapng| && e.Fits(cfg)
  {
    var counts := FateOf(cfg, s.w, OpOf(e, disk)) == Written && (e.QueuedPacket? || BlockOf(e.raw).IsData());
    Deal(cfg, OfferDirectly(s, e, counts), e, disk)
  }

  /** The writer takes the oldest element. */
  function PopIt(s: System): System
    requires s.queue.elements != []
  {
    s.(hand := Some(s.queue.elements[0]), queue := s.queue.Pop())
  }

  /** One step. An event that cannot happen here changes nothing. */
  ghost function Step(setup: Setup, s: System, event: Event): System
    requires Shaped(setup, s)
  {
    if s.w.aborted then s
    else
      match event
      case Offer(e) =>
        if setup.threads && e.Fits(setup.cfg) && s.sources[e.src].reader.Idle? then OfferTo(s, e) else s
      case AllocationFails(src) =>
        if src < |s.sources| && s.sources[src].reader.Checked? then Refuse(s, src) else s
      case Lock(src) =>
        if src < |s.sources| && s.sources[src].reader.Checked? then LockAndPush(setup.limits, s, src) else s
      case Count(src) => if src < |s.sources| then CountIt(s, src) else s
      case PopOne =>
        if s.hand.None? && s.queue.elements != [] then PopIt(s) else s
      case WriteIt(disk) => if s.hand.Some? then Deal(setup.cfg, s, s.hand.value, disk) else s
      case Direct(e, disk) =>
        if !setup.threads && e.Fits(setup.cfg) && s.hand.None? then WriteDirectly(setup.cfg, s, e, disk) else s
      case Tick(clock, first, second) =>
        var op := UpdateOp(clock, first, second);
        s.(w := Apply(setup.cfg, s.w, op), h := s.h.(ops := s.h.ops + [op]))
      case StopSignal => s.(w := Apply(setup.cfg, s.w, StopOp), h := s.h.(ops := s.h.ops + [StopOp]))
  }

  lemma DealtKeepsShape(setup: Setup, s: System, e: Element, op: Op, w1: State, fate: Fate)
    requires Shaped(setup, s) && w1.Shaped(setup.cfg) && e.Fits(setup.cfg)
    ensures Shaped(setup, Dealt(s, e, op, w1, fate))
  {
  }

  lemma OfferKeepsShape(setup: Setup, s: System, e: Element, counts: bool)
    requires Shaped(setup, s) && e.Fits(setup.cfg)
    ensures Shaped(setup, OfferTo(s, e)) && Shaped(setup, OfferDirectly(s, e, counts))
  {
  }

  lemma ReaderKeepsShape(setup: Setup, s: System, src: nat)
    requires Shaped(setup, s) && src < |s.sources|
    ensures Shaped(setup, CountIt(s, src))
    ensures s.sources[src].reader.Checked? ==> Shaped(setup, Refuse(s, src)) && Shaped(setup, LockAndPush(setup.limits, s, src))
  {
  }

  lemma StepKeepsShape(setup: Setup, s: System, event: Event)
    requires Shaped(setup, s)
    ensures Shaped(setup, Step(setup, s, event))
  {
    if Step(setup, s, event) != s {
      match event
      case Offer(e) => OfferKeepsShape(setup, s, e, false);
      case AllocationFails(src) => ReaderKeepsShape(setup, s, src);
      case Lock(src) => ReaderKeepsShape(setup, s, src);
      case Count(src) => ReaderKeepsShape(setup, s, src);
      case WriteIt(disk) =>
        var op := OpOf(s.hand.value, disk);
        DealtKeepsShape(setup, s, s.hand.value, op, Apply(setup.cfg, s.w, op), FateOf(setup.cfg, s.w, op));
      case Direct(e, disk) =>
        var op := OpOf(e, disk);
        var fate := FateOf(setup.cfg, s.w, op);
        var counts := fate == Written && (e.QueuedPacket? || BlockOf(e.raw).IsData());
        OfferKeepsShape(setup, s, e, counts);
        DealtKeepsShape(setup, OfferDirectly(s, e, counts), e, op, Apply(setup.cfg, s.w, op), fate);
      case _ =>
    }
  }

  /** The system after some events. */
  ghost function After(setup: Setup, events: seq<Event>): (s: System)
    ensures Shaped(setup, s)
  {
    if events == [] then Initial(setup)
    else
      var before := After(setup, events[..|events| - 1]);
      StepKeepsShape(setup, before, events[|events| - 1]);
      Step(setup, before, events[|events| - 1])
  }

  // The queue in every interleaving

  lemma StepAccounted(setup: Setup, s: System, event: Event)
    requires Shaped(setup, s) && Accounted(setup.limits, s.queue)
    ensures Accounted(setup.limits, Step(setup, s, event).queue)
  {
    if Step(setup, s, event).queue != s.queue {
      match event
      case Lock(src) => PushAccounted(setup.limits, s.queue, s.sources[src].reader.e);
      case _ => PopAccounted(setup.limits, s.queue);
    }
  }

  /** Under any interleaving, the queue's counters are right and its limits hold. */
  lemma {:induction false} QueueAlwaysAccounted(setup: Setup, events: seq<Event>)
    ensures Accounted(setup.limits, After(setup, events).queue)
  {
    if events == [] {
    } else {
      QueueAlwaysAccounted(setup, events[..|events| - 1]);
      StepAccounted(setup, After(setup, events[..|events| - 1]), events[|events| - 1]);
    }
  }

  lemma RoomIff(limits: QueueLimits, q: Queue)
    requires Accounted(limits, q)
    ensures q.HasRoom(limits)
            <==> && (limits.bytes == 0 || QueuedSize(q.elements) < limits.bytes)
                 && (limits.packets == 0 || |q.elements| < limits.packets)
  {
  }

  /** Under any interleaving: an element that a reader holds is refused if and only if the elements in
      the queue, as they are then, reach one of the limits; otherwise it becomes the last of them. */
  lemma LockRefusesIff(setup: Setup, events: seq<Event>, src: nat)
    requires src < |setup.cfg.pcapng| && After(setup, events).sources[src].reader.Checked? && !After(setup, events).w.aborted
    ensures var s, s1 := After(setup, events), Step(setup, After(setup, events), Lock(src));
            var e := s.sources[src].reader.e;
            && src < |s1.sources|
            && (s1.sources[src].reader == Refused <==>
                  || (setup.limits.bytes != 0 && QueuedSize(s.queue.elements) >= setup.limits.bytes)
                  || (setup.limits.packets != 0 && |s.queue.elements| >= setup.limits.packets))
            && (if s1.sources[src].reader == Refused
                then s1.queue == s.queue && s1.h.lost == s.h.lost + [e] && s1.h.accepted == s.h.accepted
                else s1.sources[src].reader == Pushed && s1.queue.elements == s.queue.elements + [e]
                     && s1.h.lost == s.h.lost && s1.h.accepted == s.h.accepted + [e])
  {
    QueueAlwaysAccounted(setup, events);
    RoomIff(setup.limits, After(setup, events).queue);
  }

  /** What an element consists of. */
  function BytesOf(e: Element): seq<byte> {
    if e.QueuedPacket? then e.packet.data else e.raw
  }

  function AllBytes(es: seq<Element>): seq<byte> {
    if es == [] then [] else AllBytes(es[..|es| - 1]) + BytesOf(es[|es| - 1])
  }

  /** The size of the queue is the number of bytes in it, if packets have the bytes that their headers
      say, as all that are framed have. */
  lemma {:induction false} SizeIsBytes(es: seq<Element>)
    requires forall i | 0 <= i < |es| && es[i].QueuedPacket? :: |es[i].packet.data| == es[i].packet.capLen
    ensures QueuedSize(es) == |AllBytes(es)|
  {
    if es == [] {
    } else {
      SizeIsBytes(es[..|es| - 1]);
    }
  }

  // Order

  function Held(hand: Option<Element>): seq<Element> {
    match hand case Some(e) => [e] case None => []
  }

  /** The writer deals with elements in the order in which they were accepted, and what it writes
      is all of them until the capture stops. */
  ghost predicate InOrder(setup: Setup, s: System) {
    && s.h.accepted == s.h.processed + Held(s.hand) + s.queue.elements
    && s.h.taken <= s.h.processed
    && (s.w.go && !s.w.aborted ==> s.h.taken == s.h.processed && s.w.open)
    && (!setup.threads ==> s.queue.elements == [] && forall i | 0 <= i < |s.sources| :: s.sources[i].reader.Idle?)
  }

  lemma NoDiscards(cfg: Config, w: State, op: Op)
    requires w.Shaped(cfg) && OpFits(cfg, op) && (w.go && !w.aborted ==> w.open) && (op.BlockOp? || op.PacketOp?)
    ensures FateOf(cfg, w, op) != Discarded
    ensures FateOf(cfg, w, op) == Flushed ==> !w.go
    ensures FateOf(cfg, w, op) in {Written, Absorbed} ==> w.go && !w.aborted
    ensures FateOf(cfg, w, op) in {Dropped, Fate.Aborted} ==> !Apply(cfg, w, op).go || Apply(cfg, w, op).aborted
    ensures Apply(cfg, w, op).go && !Apply(cfg, w, op).aborted ==> w.go && !w.aborted && Apply(cfg, w, op).open
  {
    GoNeverReturns(cfg, w, op);
    if !w.aborted {
      OpenWhileGoing(cfg, w, op);
    }
  }

  /** What matters of an outcome here. */
  ghost predicate Sound(w: State, w1: State, fate: Fate) {
    && fate != Discarded && (w1.go ==> w.go) && (w.aborted ==> w1.aborted)
    && (fate == Fate.Aborted ==> w1.aborted)
    && (fate == Written || fate == Absorbed ==> w.go && !w.aborted)
    && (w1.go && !w1.aborted ==> w1.open && (fate == Written || fate == Absorbed))
  }

  lemma OutcomesSound(cfg: Config, w: State, e: Element, disk: Disk)
    requires w.Shaped(cfg) && e.Fits(cfg) && (w.go && !w.aborted ==> w.open)
    ensures Sound(w, Apply(cfg, w, OpOf(e, disk)), FateOf(cfg, w, OpOf(e, disk)))
  {
    NoDiscards(cfg, w, OpOf(e, disk));
  }

  lemma DealtInOrder(setup: Setup, s: System, e: Element, op: Op, w1: State, fate: Fate)
    requires e.src < |s.sources| && Sound(s.w, w1, fate)
    requires s.h.accepted == s.h.processed + [e] + s.queue.elements && s.h.taken <= s.h.processed
    requires s.w.go && !s.w.aborted ==> s.h.taken == s.h.processed && s.w.open
    requires !setup.threads ==> s.queue.elements == [] && forall i | 0 <= i < |s.sources| :: s.sources[i].reader.Idle?
    ensures InOrder(setup, Dealt(s, e, op, w1, fate))
  {
    assert s.h.processed + [e] + [] == s.h.processed + [e];
  }

  lemma DirectInOrder(setup: Setup, s: System, e: Element, disk: Disk)
    requires Shaped(setup, s) && InOrder(setup, s) && !setup.threads && e.Fits(setup.cfg) && s.hand.None?
    ensures InOrder(setup, WriteDirectly(setup.cfg, s, e, disk))
  {
    assert s.h.processed + [] + [] == s.h.processed;
    assert s.h.processed + [e] + [] == s.h.processed + [e];
    OutcomesSound(setup.cfg, s.w, e, disk);
    var op := OpOf(e, disk);
    var w1, fate := Apply(setup.cfg, s.w, op), FateOf(setup.cfg, s.w, op);
    var counts := fate == Written && (e.QueuedPacket? || BlockOf(e.raw).IsData());
    DealtInOrder(setup, OfferDirectly(s, e, counts), e, op, w1, fate);
  }

  lemma LockInOrder(setup: Setup, s: System, src: nat)
    requires InOrder(setup, s) && src < |s.sources| && s.sources[src].reader.Checked?
    ensures InOrder(setup, LockAndPush(setup.limits, s, src))
  {
    Associate(s.h.processed + Held(s.hand), s.queue.elements, [s.sources[src].reader.e]);
  }

  lemma PopInOrder(setup: Setup, s: System)
    requires InOrder(setup, s) && s.hand.None? && s.queue.elements != []
    ensures InOrder(setup, PopIt(s))
  {
    assert s.queue.elements == [s.queue.elements[0]] + s.queue.elements[1..];
    Associate(s.h.processed, [s.queue.elements[0]], s.queue.elements[1..]);
    assert s.h.processed + [] == s.h.processed;
  }

  lemma WriteInOrder(setup: Setup, s: System, disk: Disk)
    requires Shaped(setup, s) && InOrder(setup, s) && s.hand.Some?
    ensures InOrder(setup, Deal(setup.cfg, s, s.hand.value, disk))
  {
    var e, op := s.hand.value, OpOf(s.hand.value, disk);
    OutcomesSound(setup.cfg, s.w, e, disk);
    DealtInOrder(setup, s, e, op, Apply(setup.cfg, s.w, op), FateOf(setup.cfg, s.w, op));
  }

  lemma OpInOrder(setup: Setup, s: System, op: Op)
    requires Shaped(setup, s) && InOrder(setup, s) && (op.UpdateOp? || op.StopOp?) && !s.w.aborted
    ensures InOrder(setup, s.(w := Apply(setup.cfg, s.w, op), h := s.h.(ops := s.h.ops + [op])))
  {
    GoNeverReturns(setup.cfg, s.w, op);
    if s.w.go {
      OpenWhileGoing(setup.cfg, s.w, op);
    }
  }

  lemma StepInOrder(setup: Setup, s: System, event: Event)
    requires Shaped(setup, s) && InOrder(setup, s)
    ensures InOrder(setup, Step(setup, s, event))
  {
    if Step(setup, s, event) != s {
      match event
      case Lock(src) => LockInOrder(setup, s, src);
      case PopOne => PopInOrder(setup, s);
      case WriteIt(disk) => WriteInOrder(setup, s, disk);
      case Direct(e, disk) => DirectInOrder(setup, s, e, disk);
      case Tick(clock, first, second) => OpInOrder(setup, s, UpdateOp(clock, first, second));
      case StopSignal => OpInOrder(setup, s, StopOp);
      case _ =>
    }
  }

  /** In every interleaving: the elements written are a prefix of the elements accepted. */
  lemma {:induction false} WrittenIsPrefixOfAccepted(setup: Setup, events: seq<Event>)
    ensures InOrder(setup, After(setup, events))
    ensures After(setup, events).h.taken <= After(setup, events).h.accepted
  {
    if events == [] {
    } else {
      WrittenIsPrefixOfAccepted(setup, events[..|events| - 1]);
      StepInOrder(setup, After(setup, events[..|events| - 1]), events[|events| - 1]);
    }
  }
}
