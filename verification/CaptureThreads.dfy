/** The packet callbacks of the reader threads, and the writer's side of the queue, in place. */
module CaptureThreads {
  import opened Bytes
  import opened Framing
  import opened PcapngFormat
  import opened Sections
  import opened Writer
  import opened CaptureQueue
  import opened CaptureWriter
  import opened Conservation

  /** The shared queue. The bodies of its methods run under its lock. */
  class PacketQueue {
    const limits: QueueLimits
    var elements: seq<Element>
    var bytes: int
    var packets: int

    ghost function View(): Queue
      reads this
    {
      Queue(elements, bytes, packets)
    }

    constructor (limits: QueueLimits)
      ensures this.limits == limits && View() == Queue([], 0, 0) && Accounted(limits, View())
    {
      this.limits := limits;
      elements, bytes, packets := [], 0, 0;
    }

    /** Push an element, unless a limit has been reached. */
    method TryPush(e: Element) returns (limitReached: bool)
      requires Accounted(limits, View())
      modifies this
      ensures Accounted(limits, View())
      ensures limitReached
              <==> || (limits.bytes != 0 && QueuedSize(old(elements)) >= limits.bytes)
                   || (limits.packets != 0 && |old(elements)| >= limits.packets)
      ensures elements == if limitReached then old(elements) else old(elements) + [e]
    {
      RoomIff(limits, View());
      if (limits.bytes == 0 || bytes < limits.bytes) && (limits.packets == 0 || packets < limits.packets) {
        ghost var q := View();
        PushAccounted(limits, q, e);
        limitReached := false;
        elements := elements + [e];
        bytes := bytes + e.Size();
        packets := packets + 1;
        assert View() == q.Push(e);
      } else {
        limitReached := true;
      }
    }

    /** Pop the oldest element, if there is one before the timeout. */
    method TryPop() returns (e: Option<Element>)
      requires Accounted(limits, View())
      modifies this
      ensures Accounted(limits, View())
      ensures old(elements) == [] ==> e == None && elements == []
      ensures old(elements) != [] ==> e == Some(old(elements[0])) && elements == old(elements)[1..]
    {
      if elements == [] {
        return None;
      }
      ghost var q := View();
      PopAccounted(limits, q);
      e := Some(elements[0]);
      bytes := bytes - elements[0].Size();
      packets := packets - 1;
      elements := elements[1..];
      assert View() == q.Pop();
    }
  }

  class CaptureSource {
    var received: nat
    var dropped: nat
    var flushed: nat

    constructor ()
      ensures received == 0 && dropped == 0 && flushed == 0
    {
      received, dropped, flushed := 0, 0, 0;
    }

    /** One packet or block has been captured: queue it. It is counted once, as received, dropped or
        flushed. */
    method QueueElement(go: bool, copied: bool, q: PacketQueue, e: Element) returns (accepted: bool)
      requires Accounted(q.limits, q.View())
      modifies this, q
      ensures Accounted(q.limits, q.View())
      ensures accepted
              <==> go && copied && (q.limits.bytes == 0 || QueuedSize(old(q.elements)) < q.limits.bytes)
                   && (q.limits.packets == 0 || |old(q.elements)| < q.limits.packets)
      ensures q.elements == if accepted then old(q.elements) + [e] else old(q.elements)
      ensures received == old(received) + if accepted then 1 else 0
      ensures flushed == old(flushed) + if go then 0 else 1
      ensures dropped == old(dropped) + if go && !accepted then 1 else 0
    {
      if !go {
        flushed := flushed + 1;
        return false;
      }
      if !copied {
        dropped := dropped + 1;
        return false;
      }
      var limitReached := q.TryPush(e);
      if limitReached {
        dropped := dropped + 1;
      } else {
        received := received + 1;
      }
      return !limitReached;
    }

    /** Count what the writer could not write. */
    method CountLoss(fate: Fate)
      modifies this
      ensures flushed == old(flushed) + if fate == Flushed then 1 else 0
      ensures dropped == old(dropped) + if fate == Dropped then 1 else 0
      ensures received == old(received)
    {
      if fate == Flushed {
        flushed := flushed + 1;
      } else if fate == Dropped {
        dropped := dropped + 1;
      }
    }
  }

  ghost predicate Distinct(sources: seq<CaptureSource>) {
    forall i, j | 0 <= i < j < |sources| :: sources[i] != sources[j]
  }

  /** Write one element. */
  method WriteElement(ld: LoopData, e: Element, disk: Disk) returns (fate: Fate)
    requires ld.Valid() && e.Fits(ld.cfg) && !ld.aborted && |ld.savedIdbs| + 1 < TWO_TO_THE_32
    modifies ld
    ensures ld.Valid() && ld.View() == Apply(ld.cfg, old(ld.View()), OpOf(e, disk))
    ensures fate == FateOf(ld.cfg, old(ld.View()), OpOf(e, disk))
  {
    match e
    case QueuedPacket(src, packet) =>
      fate := ld.WriteOnePacket(src, packet, disk);
    case QueuedBlock(src, raw) =>
      var pd := new byte[|raw|](i requires 0 <= i < |raw| => raw[i]);
      assert pd[..] == raw;
      fate := ld.WritePcapng(src, pd, disk);
  }

  /** Take the oldest element off the queue, if there is one, and write it. */
  method Dequeue(ld: LoopData, q: PacketQueue, sources: seq<CaptureSource>, disk: Disk) returns (dequeued: bool)
    requires ld.Valid() && !ld.aborted && |ld.savedIdbs| + 1 < TWO_TO_THE_32
    requires Accounted(q.limits, q.View()) && forall i | 0 <= i < |q.elements| :: q.elements[i].Fits(ld.cfg)
    requires |sources| == |ld.cfg.pcapng|
    modifies ld, q, sources
    ensures ld.Valid() && Accounted(q.limits, q.View()) && dequeued == (old(q.elements) != [])
    ensures dequeued ==> old(q.elements[0]).Fits(ld.cfg)
    ensures !dequeued ==> ld.View() == old(ld.View()) && q.elements == []
    ensures dequeued ==> q.elements == old(q.elements)[1..]
                         && ld.View() == Apply(ld.cfg, old(ld.View()), OpOf(old(q.elements[0]), disk))
    ensures forall s | s in sources && (!dequeued || s != sources[old(q.elements[0]).src]) ::
              s.received == old(s.received) && s.dropped == old(s.dropped) && s.flushed == old(s.flushed)
    ensures dequeued ==> var s := sources[old(q.elements[0]).src];
                         var fate := FateOf(ld.cfg, old(ld.View()), OpOf(old(q.elements[0]), disk));
                         && s.flushed == old(s.flushed) + (if fate == Flushed then 1 else 0)
                         && s.dropped == old(s.dropped) + (if fate == Dropped then 1 else 0)
                         && s.received == old(s.received)
  {
    var popped := q.TryPop();
    match popped
    case None =>
      dequeued := false;
    case Some(e) =>
      var fate := WriteElement(ld, e, disk);
      sources[e.src].CountLoss(fate);
      dequeued := true;
  }

  /** After the capture has stopped and the reader threads have ended: empty the queue. It ends,
      nothing is left, nothing more is written, and each element left is counted as flushed. */
  method Drain(ld: LoopData, q: PacketQueue, sources: seq<CaptureSource>, disk: Disk)
    requires ld.Valid() && !ld.go && !ld.aborted && |ld.savedIdbs| + 1 < TWO_TO_THE_32
    requires Accounted(q.limits, q.View()) && forall i | 0 <= i < |q.elements| :: q.elements[i].Fits(ld.cfg)
    requires |sources| == |ld.cfg.pcapng| && Distinct(sources)
    modifies ld, q, sources
    ensures q.View() == Queue([], 0, 0) && ld.View() == old(ld.View())
    ensures forall i | 0 <= i < |sources| ::
              sources[i].flushed == old(sources[i].flushed) + |PartOf(old(q.elements), i)|
              && sources[i].dropped == old(sources[i].dropped) && sources[i].received == old(sources[i].received)
  {
    var dequeued := true;
    while dequeued
      invariant ld.Valid() && ld.View() == old(ld.View())
      invariant Accounted(q.limits, q.View()) && forall i | 0 <= i < |q.elements| :: q.elements[i].Fits(ld.cfg)
      invariant dequeued || q.elements == []
      invariant forall i | 0 <= i < |sources| ::
                  sources[i].flushed + |PartOf(q.elements, i)| == old(sources[i].flushed) + |PartOf(old(q.elements), i)|
                  && sources[i].dropped == old(sources[i].dropped) && sources[i].received == old(sources[i].received)
      decreases |q.elements|, dequeued
    {
      dequeued := DequeueFlushed(ld, q, sources, disk);
    }
  }

  /** One round of the drain loop. */
  method DequeueFlushed(ld: LoopData, q: PacketQueue, sources: seq<CaptureSource>, disk: Disk) returns (dequeued: bool)
    requires ld.Valid() && !ld.go && !ld.aborted && |ld.savedIdbs| + 1 < TWO_TO_THE_32
    requires Accounted(q.limits, q.View()) && forall i | 0 <= i < |q.elements| :: q.elements[i].Fits(ld.cfg)
    requires |sources| == |ld.cfg.pcapng| && Distinct(sources)
    modifies ld, q, sources
    ensures ld.Valid() && ld.View() == old(ld.View()) && Accounted(q.limits, q.View())
    ensures dequeued == (old(q.elements) != []) && q.elements == if dequeued then old(q.elements)[1..] else []
    ensures forall i | 0 <= i < |sources| ::
              sources[i].flushed + |PartOf(q.elements, i)| == old(sources[i].flushed) + |PartOf(old(q.elements), i)|
              && sources[i].dropped == old(sources[i].dropped) && sources[i].received == old(sources[i].received)
  {
    dequeued := Dequeue(ld, q, sources, disk);
    forall i | 0 <= i < |sources|
      ensures sources[i].flushed + |PartOf(q.elements, i)| == old(sources[i].flushed) + |PartOf(old(q.elements), i)|
              && sources[i].dropped == old(sources[i].dropped) && sources[i].received == old(sources[i].received)
    {
      if dequeued {
        PartOfTail(old(q.elements), i);
      }
    }
  }
}
