/** Cutting a byte stream into items, one at a time from the front, for any rule that decides
    what is at the front. Both pipe readers are measured against this. */
module Framing {
  import opened Bytes

  datatype Option<+T> = None | Some(value: T)

  /** What is at the front of the bytes seen so far: too little to tell, an item and where it
      ends (with the rule's next state), or something the reader stops at. */
  datatype Verdict<+S, +R, +E> = More | Item(item: R, size: nat, next: S) | Stop(why: E)

  /** Items found, the rule's state after them, the bytes of the unfinished item, and why the
      framing stopped, if it did. */
  datatype Framed<+S, +R, +E> = Framed(items: seq<R>, state: S, rest: seq<byte>, stop: Option<E>)

  function Prepend<S, R, E>(items: seq<R>, later: Framed<S, R, E>): Framed<S, R, E> {
    later.(items := items + later.items)
  }

  /** The reference framing of a whole byte sequence. */
  function Frame<S, R, E>(rule: (S, seq<byte>) -> Verdict<S, R, E>, st: S, s: seq<byte>): (r: Framed<S, R, E>)
    ensures |r.rest| <= |s|
    decreases |s|
  {
    var v := rule(st, s);
    if v.Item? && 0 < v.size <= |s| then Prepend([v.item], Frame(rule, v.next, s[v.size..]))
    else Framed([], st, s, if v.Stop? then Some(v.why) else None)
  }

  /** A rule that never changes its mind when more bytes arrive, and whose items are not empty. */
  ghost predicate Steady<S(!new), R(!new), E(!new)>(rule: (S, seq<byte>) -> Verdict<S, R, E>) {
    && (forall st: S, a: seq<byte>, b: seq<byte> :: !rule(st, a).More? ==> rule(st, a + b) == rule(st, a))
    && (forall st: S, a: seq<byte> :: rule(st, a).Item? ==> 0 < rule(st, a).size <= |a|)
  }

  lemma FrameFirst<S, R, E>(rule: (S, seq<byte>) -> Verdict<S, R, E>, st: S, s: seq<byte>)
    requires rule(st, s).Item? && 0 < rule(st, s).size <= |s|
    ensures var v := rule(st, s); Frame(rule, st, s) == Prepend([v.item], Frame(rule, v.next, s[v.size..]))
  {
  }

  lemma DropAppended(a: seq<byte>, b: seq<byte>, n: nat)
    requires n <= |a|
    ensures (a + b)[n..] == a[n..] + b
  {
  }

  /** More bytes never change the items already found; framing goes on from the unfinished item. */
  lemma {:induction false} FrameAppend<S(!new), R(!new), E(!new)>(
    rule: (S, seq<byte>) -> Verdict<S, R, E>, st: S, a: seq<byte>, b: seq<byte>)
    requires Steady(rule)
    ensures var fa := Frame(rule, st, a);
            && (fa.stop.None? ==> Frame(rule, st, a + b) == Prepend(fa.items, Frame(rule, fa.state, fa.rest + b)))
            && (fa.stop.Some? ==> Frame(rule, st, a + b) == fa.(rest := fa.rest + b))
    decreases |a|
  {
    var v := rule(st, a);
    assert !v.More? ==> rule(st, a + b) == v;
    if v.Item? {
      var fa := Frame(rule, v.next, a[v.size..]);
      FrameFirst(rule, st, a);
      FrameFirst(rule, st, a + b);
      DropAppended(a, b, v.size);
      FrameAppend(rule, v.next, a[v.size..], b);
      PrependTwice([v.item], fa.items, Frame(rule, fa.state, fa.rest + b));
    } else if v.More? {
      assert Prepend([], Frame(rule, st, a + b)) == Frame(rule, st, a + b);
    }
  }

  /** The unfinished item, framed alone, yields nothing. */
  lemma {:induction false} FrameRest<S, R, E>(rule: (S, seq<byte>) -> Verdict<S, R, E>, st: S, s: seq<byte>)
    ensures var f := Frame(rule, st, s); Frame(rule, f.state, f.rest) == f.(items := [])
    decreases |s|
  {
    var v := rule(st, s);
    if !v.Item? || v.size == 0 || v.size > |s| {
    } else {
      FrameRest(rule, v.next, s[v.size..]);
    }
  }

  /** One read: what the rule says of the unfinished item and the new bytes decides the outcome. */
  lemma FrameOneRead<S(!new), R(!new), E(!new)>(
    rule: (S, seq<byte>) -> Verdict<S, R, E>, st: S, seen: seq<byte>, chunk: seq<byte>)
    requires Steady(rule) && Frame(rule, st, seen).stop.None?
    ensures var f := Frame(rule, st, seen);
            var held := f.rest + chunk;
            var v := rule(f.state, held);
            && (v.More? ==> Frame(rule, st, seen + chunk) == f.(rest := held))
            && (v.Stop? ==> Frame(rule, st, seen + chunk) == f.(rest := held, stop := Some(v.why)))
            && (v.Item? && v.size == |held| && rule(v.next, []).More? ==>
                  Frame(rule, st, seen + chunk) == Framed(f.items + [v.item], v.next, [], None))
  {
    FrameAppend(rule, st, seen, chunk);
    var f := Frame(rule, st, seen);
    var held := f.rest + chunk;
    var v := rule(f.state, held);
    if v.Item? && v.size == |held| {
      assert held[v.size..] == [];
    }
  }

  function Flatten(chunks: seq<seq<byte>>): seq<byte> {
    if chunks == [] then [] else Flatten(chunks[..|chunks| - 1]) + chunks[|chunks| - 1]
  }

  /** Framing one chunk at a time, holding the unfinished item in between. */
  function FrameChunks<S, R, E>(
    rule: (S, seq<byte>) -> Verdict<S, R, E>, st: S, chunks: seq<seq<byte>>): Framed<S, R, E>
  {
    if chunks == [] then Frame(rule, st, [])
    else
      var before := FrameChunks(rule, st, chunks[..|chunks| - 1]);
      var chunk := chunks[|chunks| - 1];
      if before.stop.Some? then before.(rest := before.rest + chunk)
      else Prepend(before.items, Frame(rule, before.state, before.rest + chunk))
  }

  /** However the stream is split into reads, the items are those of the whole stream. */
  lemma {:induction false} ChunkingIrrelevant<S(!new), R(!new), E(!new)>(
    rule: (S, seq<byte>) -> Verdict<S, R, E>, st: S, chunks: seq<seq<byte>>)
    requires Steady(rule)
    ensures FrameChunks(rule, st, chunks) == Frame(rule, st, Flatten(chunks))
  {
    if chunks == [] {
    } else {
      var n := |chunks| - 1;
      ChunkingIrrelevant(rule, st, chunks[..n]);
      FrameAppend(rule, st, Flatten(chunks[..n]), chunks[n]);
    }
  }

  function Sum<R>(measure: R -> nat, items: seq<R>): nat {
    if items == [] then 0 else measure(items[0]) + Sum(measure, items[1..])
  }

  /** Conservation of bytes: the items and the unfinished item account for the whole input. */
  lemma {:induction false} FrameSizes<S(!new), R, E>(
    rule: (S, seq<byte>) -> Verdict<S, R, E>, measure: R -> nat, good: R -> bool, st: S, s: seq<byte>)
    requires forall st: S, t: seq<byte> :: var v := rule(st, t);
               v.Item? ==> v.size == measure(v.item) && good(v.item)
    ensures Sum(measure, Frame(rule, st, s).items) + |Frame(rule, st, s).rest| == |s|
    ensures forall i | 0 <= i < |Frame(rule, st, s).items| :: good(Frame(rule, st, s).items[i])
    decreases |s|
  {
    var v := rule(st, s);
    if !v.Item? || v.size == 0 || v.size > |s| {
    } else {
      FrameSizes(rule, measure, good, v.next, s[v.size..]);
      assert Frame(rule, st, s).items[1..] == Frame(rule, v.next, s[v.size..]).items;
    }
  }

  function Concat(parts: seq<seq<byte>>): seq<byte> {
    if parts == [] then [] else parts[0] + Concat(parts[1..])
  }

  /** A stream made of parts, each of which the rule takes whole whatever follows it, frames into
      exactly those items and then whatever the tail gives. */
  lemma FrameParts<S(!new), R(!new), E(!new)>(
    rule: (S, seq<byte>) -> Verdict<S, R, E>, states: seq<S>, parts: seq<seq<byte>>, items: seq<R>, tail: seq<byte>)
    requires TakenWhole(rule, states, parts, items)
    ensures Frame(rule, states[0], Concat(parts) + tail) == Prepend(items, Frame(rule, states[|parts|], tail))
  {
    FramePartsFrom(rule, states, parts, items, tail, 0);
  }

  ghost predicate TakenWhole<S(!new), R(!new), E(!new)>(
    rule: (S, seq<byte>) -> Verdict<S, R, E>, states: seq<S>, parts: seq<seq<byte>>, items: seq<R>)
  {
    && |states| == |parts| + 1 && |items| == |parts|
    && (forall i | 0 <= i < |parts| :: |parts[i]| > 0)
    && (forall i, t: seq<byte> | 0 <= i < |parts| ::
          rule(states[i], parts[i] + t) == Item(items[i], |parts[i]|, states[i + 1]))
  }

  lemma FrameItem<S, R, E>(
    rule: (S, seq<byte>) -> Verdict<S, R, E>, st: S, part: seq<byte>, more: seq<byte>, item: R, next: S)
    requires |part| > 0 && rule(st, part + more) == Item(item, |part|, next)
    ensures Frame(rule, st, part + more) == Prepend([item], Frame(rule, next, more))
  {
    assert (part + more)[|part|..] == more;
  }

  lemma Associate<T>(a: seq<T>, b: seq<T>, c: seq<T>)
    ensures a + (b + c) == (a + b) + c
  {
  }

  lemma PrependTwice<S, R, E>(a: seq<R>, b: seq<R>, later: Framed<S, R, E>)
    ensures Prepend(a, Prepend(b, later)) == Prepend(a + b, later)
  {
    Associate(a, b, later.items);
  }

  lemma ConcatFrom(parts: seq<seq<byte>>, k: nat, tail: seq<byte>)
    requires k < |parts|
    ensures Concat(parts[k..]) + tail == parts[k] + (Concat(parts[k + 1..]) + tail)
  {
    assert parts[k..][1..] == parts[k + 1..];
  }

  lemma {:induction false} FramePartsFrom<S(!new), R(!new), E(!new)>(
    rule: (S, seq<byte>) -> Verdict<S, R, E>, states: seq<S>, parts: seq<seq<byte>>, items: seq<R>, tail: seq<byte>, k: nat)
    requires TakenWhole(rule, states, parts, items) && k <= |parts|
    ensures Frame(rule, states[k], Concat(parts[k..]) + tail) == Prepend(items[k..], Frame(rule, states[|parts|], tail))
    decreases |parts| - k
  {
    var last := Frame(rule, states[|parts|], tail);
    if k == |parts| {
      assert Concat(parts[k..]) + tail == tail;
    } else {
      var more := Concat(parts[k + 1..]) + tail;
      FramePartsFrom(rule, states, parts, items, tail, k + 1);
      ConcatFrom(parts, k, tail);
      FrameItem(rule, states[k], parts[k], more, items[k], states[k + 1]);
      PrependTwice([items[k]], items[k + 1..], last);
      assert [items[k]] + items[k + 1..] == items[k..];
    }
  }

  /** Two rules that decide alike on a stream and on its image frame alike throughout. */
  lemma {:induction false} FrameImage<R(!new), E(!new)>(
    rule: ((), seq<byte>) -> Verdict<(), R, E>, other: ((), seq<byte>) -> Verdict<(), R, E>,
    image: seq<byte> -> seq<byte>, s: seq<byte>)
    requires forall t: seq<byte> :: other((), image(t)) == rule((), t) && |image(t)| == |t|
    requires forall t: seq<byte> :: rule((), t).Item? && 0 < rule((), t).size <= |t| ==>
                                      image(t)[rule((), t).size..] == image(t[rule((), t).size..])
    ensures var f, g := Frame(rule, (), s), Frame(other, (), image(s));
            g.items == f.items && g.stop == f.stop && |g.rest| == |f.rest|
    decreases |s|
  {
    var v := rule((), s);
    assert other((), image(s)) == v;
    if !v.Item? || v.size == 0 || v.size > |s| {
    } else {
      FrameImage(rule, other, image, s[v.size..]);
      assert v.next == ();
    }
  }
}
