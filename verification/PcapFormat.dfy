/** The pcap stream read from a pipe: file header, record headers in either byte order and any
    format version, and the reference framing of a whole byte sequence into records. */
module PcapFormat {
  import opened Bytes
  import opened Framing

  const PCAP_MAGIC: uint32 := 0xa1b2c3d4
  const PCAP_SWAPPED_MAGIC: uint32 := 0xd4c3b2a1
  const PCAP_MODIFIED_MAGIC: uint32 := 0xa1b2cd34
  const PCAP_SWAPPED_MODIFIED_MAGIC: uint32 := 0x34cdb2a1
  const PCAP_NSEC_MAGIC: uint32 := 0xa1b23c4d
  const PCAP_SWAPPED_NSEC_MAGIC: uint32 := 0x4d3cb2a1

  const WTAP_MAX_PACKET_SIZE_STANDARD: nat := 262144
  const WTAP_MAX_PACKET_SIZE_USBPCAP: nat := 128 * 1024 * 1024
  const WTAP_MAX_PACKET_SIZE_EBHSCR: nat := 32 * 1024 * 1024
  const WTAP_MAX_PACKET_SIZE_DBUS: nat := 128 * 1024 * 1024

  datatype RecHdr = RecHdr(tsSec: uint32, tsUsec: uint32, inclLen: uint32, origLen: uint32)

  /** What the packet callback is given. */
  datatype Record = Record(tsSec: uint32, tsUsec: uint32, capLen: uint32, origLen: uint32, data: seq<byte>)

  /** What opening the pipe learns from the file header. */
  datatype Format = Format(byteSwapped: bool, modified: bool, tsNsec: bool,
                           major: nat, minor: nat, linktype: nat)

  datatype Refusal = RecordTooLong

  function MaxPacketSize(f: Format): (m: nat)
    ensures m <= 0x8000_0000
  {
    if f.linktype == 231 then WTAP_MAX_PACKET_SIZE_DBUS
    else if f.linktype == 279 then WTAP_MAX_PACKET_SIZE_EBHSCR
    else if f.linktype == 249 then WTAP_MAX_PACKET_SIZE_USBPCAP
    else WTAP_MAX_PACKET_SIZE_STANDARD
  }

  function HeaderSize(f: Format): nat {
    if f.modified then 24 else 16
  }

  /** Consecutive native 32-bit fields. */
  function Words(s: seq<byte>, k: nat): (w: seq<uint32>)
    requires |s| >= 4 * k
    ensures |w| == k
  {
    if k == 0 then [] else [U32(s[..4])] + Words(s[4..], k - 1)
  }

  /** The record header structure overlaid on the bytes read so far. */
  function FieldsOf(s: seq<byte>): RecHdr
    requires |s| >= 16
  {
    var w := Words(s, 4);
    RecHdr(w[0], w[1], w[2], w[3])
  }

  lemma {:induction false} WordAt(s: seq<byte>, k: nat, i: nat)
    requires i < k && |s| >= 4 * k
    ensures Words(s, k)[i] == U32(s[4 * i..4 * i + 4])
  {
    if i == 0 {
      assert s[..4] == s[4 * i..4 * i + 4];
    } else {
      WordAt(s[4..], k - 1, i - 1);
      assert s[4..][4 * (i - 1)..4 * (i - 1) + 4] == s[4 * i..4 * i + 4];
    }
  }

  lemma FieldsAt(s: seq<byte>)
    requires |s| >= 16
    ensures FieldsOf(s) == RecHdr(U32(s[0..4]), U32(s[4..8]), U32(s[8..12]), U32(s[12..16]))
  {
    WordAt(s, 4, 0); WordAt(s, 4, 1); WordAt(s, 4, 2); WordAt(s, 4, 3);
  }

  function SwapFields(h: RecHdr): RecHdr {
    RecHdr(Swap32(h.tsSec), Swap32(h.tsUsec), Swap32(h.inclLen), Swap32(h.origLen))
  }

  /** Versions that wrote the two lengths the other way round, or did so in this header. */
  predicate Interchanged(f: Format, h: RecHdr) {
    f.major == 2 && (f.minor < 3 || (f.minor == 3 && h.inclLen > h.origLen))
  }

  function Interchange(f: Format, h: RecHdr): RecHdr {
    if Interchanged(f, h) then h.(inclLen := h.origLen, origLen := h.inclLen) else h
  }

  function Adjust(f: Format, h: RecHdr): RecHdr {
    Interchange(f, if f.byteSwapped then SwapFields(h) else h)
  }

  function RecordOf(h: RecHdr, data: seq<byte>): Record {
    Record(h.tsSec, h.tsUsec, h.inclLen, h.origLen, data)
  }

  /** The adjusted header of the record at the front of s. */
  function HeaderOf(f: Format, s: seq<byte>): RecHdr
    requires |s| >= 16
  {
    Adjust(f, FieldsOf(s))
  }

  /** Where the record at the front of s ends. */
  function EndOf(f: Format, s: seq<byte>): nat
    requires |s| >= 16
  {
    HeaderSize(f) + HeaderOf(f, s).inclLen
  }

  /** The bytes a record takes in the stream. */
  function RecordSize(f: Format, r: Record): nat {
    HeaderSize(f) + |r.data|
  }

  /** What is at the front of s: a record, part of one, or a record longer than allowed. */
  function RecordVerdict(f: Format, s: seq<byte>): (v: Verdict<(), Record, Refusal>)
    ensures v.Item? ==> 0 < v.size <= |s| && v.size == RecordSize(f, v.item)
    ensures v.Item? ==> |v.item.data| == v.item.capLen <= MaxPacketSize(f)
  {
    if |s| < HeaderSize(f) then More
    else if HeaderOf(f, s).inclLen > MaxPacketSize(f) then Stop(RecordTooLong)
    else if |s| < EndOf(f, s) then More
    else Item(RecordOf(HeaderOf(f, s), s[HeaderSize(f)..EndOf(f, s)]), EndOf(f, s), ())
  }

  function RecordRule(f: Format): ((), seq<byte>) -> Verdict<(), Record, Refusal> {
    (_, s) => RecordVerdict(f, s)
  }

  /** The reference framing of a whole byte sequence into records. */
  function Records(f: Format, s: seq<byte>): (r: Framed<(), Record, Refusal>)
    ensures r.state == ()
  {
    Frame(RecordRule(f), (), s)
  }

  lemma FieldsOfPrefix(a: seq<byte>, b: seq<byte>)
    requires |a| >= 16
    ensures FieldsOf(a + b) == FieldsOf(a)
  {
    FieldsAt(a); FieldsAt(a + b);
    assert (a + b)[0..4] == a[0..4] && (a + b)[4..8] == a[4..8];
    assert (a + b)[8..12] == a[8..12] && (a + b)[12..16] == a[12..16];
  }

  lemma VerdictAppend(f: Format, a: seq<byte>, b: seq<byte>)
    requires !RecordVerdict(f, a).More?
    ensures RecordVerdict(f, a + b) == RecordVerdict(f, a)
  {
    FieldsOfPrefix(a, b);
    if RecordVerdict(f, a).Item? {
      assert (a + b)[HeaderSize(f)..EndOf(f, a)] == a[HeaderSize(f)..EndOf(f, a)];
    }
  }

  lemma RecordRuleSteady(f: Format)
    ensures Steady(RecordRule(f))
  {
    var rule := RecordRule(f);
    forall st: (), a: seq<byte>, b: seq<byte> | !rule(st, a).More?
      ensures rule(st, a + b) == rule(st, a)
    {
      VerdictAppend(f, a, b);
    }
  }

  lemma OneRead(f: Format, seen: seq<byte>, chunk: seq<byte>, held: seq<byte>)
    requires Records(f, seen).stop.None? && held == Records(f, seen).rest + chunk
    ensures match RecordVerdict(f, held)
            case More => Records(f, seen + chunk) == Records(f, seen).(rest := held)
            case Stop(why) => Records(f, seen + chunk) == Records(f, seen).(rest := held, stop := Some(why))
            case Item(item, size, _) =>
              size == |held| ==> Records(f, seen + chunk) == Framed(Records(f, seen).items + [item], (), [], None)
  {
    RecordRuleSteady(f);
    FrameOneRead(RecordRule(f), (), seen, chunk);
    assert Records(f, seen).state == ();
  }

  /** A read that completes or extends a record header. */
  lemma HeaderRead(f: Format, seen: seq<byte>, chunk: seq<byte>, held: seq<byte>)
    requires Records(f, seen).stop.None? && held == Records(f, seen).rest + chunk && |held| <= HeaderSize(f)
    ensures |held| < HeaderSize(f) ==> Records(f, seen + chunk) == Records(f, seen).(rest := held)
    ensures |held| == HeaderSize(f) ==> HeaderOutcome(f, seen + chunk, Records(f, seen).items, held)
  {
    OneRead(f, seen, chunk, held);
    if |held| == HeaderSize(f) {
      assert held[HeaderSize(f)..HeaderSize(f)] == [];
    }
  }

  /** The framing once a whole header is held. */
  ghost predicate HeaderOutcome(f: Format, seen: seq<byte>, given: seq<Record>, held: seq<byte>)
    requires |held| >= 16
  {
    var h := HeaderOf(f, held);
    Records(f, seen) == if h.inclLen > MaxPacketSize(f) then Framed(given, (), held, Some(RecordTooLong))
                        else if h.inclLen == 0 then Framed(given + [RecordOf(h, [])], (), [], None)
                        else Framed(given, (), held, None)
  }

  /** raw is a whole record header, h what it says, and data within the limit follow it. */
  ghost predicate Announces(f: Format, raw: seq<byte>, h: RecHdr) {
    |raw| == HeaderSize(f) && h == HeaderOf(f, raw) && 0 < h.inclLen <= MaxPacketSize(f)
  }

  /** A read that completes or extends a record's data. */
  lemma DataRead(f: Format, seen: seq<byte>, chunk: seq<byte>, raw: seq<byte>, h: RecHdr, data: seq<byte>)
    requires Records(f, seen).stop.None? && raw + data == Records(f, seen).rest + chunk
    requires Announces(f, raw, h) && |data| <= h.inclLen
    ensures |data| < h.inclLen ==> Records(f, seen + chunk) == Records(f, seen).(rest := raw + data)
    ensures |data| == h.inclLen ==>
              Records(f, seen + chunk) == Framed(Records(f, seen).items + [RecordOf(h, data)], (), [], None)
  {
    FieldsOfPrefix(raw, data);
    assert (raw + data)[HeaderSize(f)..HeaderSize(f) + |data|] == data;
    OneRead(f, seen, chunk, raw + data);
  }

  /** Conservation of bytes: the records and the unfinished record account for the whole input,
      and every record holds as many data bytes as its captured length says. */
  lemma RecordSizes(f: Format, s: seq<byte>)
    ensures Sum((r: Record) => RecordSize(f, r), Records(f, s).items) + |Records(f, s).rest| == |s|
    ensures forall i | 0 <= i < |Records(f, s).items| ::
              |Records(f, s).items[i].data| == Records(f, s).items[i].capLen <= MaxPacketSize(f)
  {
    FrameSizes(RecordRule(f), (r: Record) => RecordSize(f, r),
               (r: Record) => |r.data| == r.capLen <= MaxPacketSize(f), (), s);
  }

  /** However the stream is split into reads, the records are those of the whole stream. */
  lemma RecordsIgnoreChunking(f: Format, chunks: seq<seq<byte>>)
    ensures FrameChunks(RecordRule(f), (), chunks) == Records(f, Flatten(chunks))
  {
    RecordRuleSteady(f);
    ChunkingIrrelevant(RecordRule(f), (), chunks);
  }

  /** What stops a reader stops it whatever follows, and nothing is delivered after that. */
  lemma StopKept(f: Format, part: seq<byte>, later: seq<byte>)
    ensures Records(f, part).stop.Some? ==>
              Records(f, part + later).stop == Records(f, part).stop && Records(f, part + later).items == Records(f, part).items
    ensures Records(f, part).items <= Records(f, part + later).items
  {
    RecordRuleSteady(f);
    FrameAppend(RecordRule(f), (), part, later);
  }

  // Round trip

  /** The largest packet: 128 megabytes for D-Bus and USBPcap, 32 for EBHSCR, 256 kilobytes for others. */
  predicate Allowed(linktype: nat, capLen: nat) {
    capLen <= if linktype == 231 || linktype == 249 then 134_217_728 else if linktype == 279 then 33_554_432 else 262_144
  }

  /** Records that some stream of this format can carry. */
  predicate Encodable(f: Format, r: Record) {
    && |r.data| == r.capLen && Allowed(f.linktype, r.capLen)
    && (f.major == 2 && f.minor == 3 ==> r.capLen <= r.origLen)
  }

  function HeaderBytes(h: RecHdr): (s: seq<byte>)
    ensures |s| == 16
  {
    Bytes32(h.tsSec) + Bytes32(h.tsUsec) + Bytes32(h.inclLen) + Bytes32(h.origLen)
  }

  function SwapHeaderBytes(s: seq<byte>): (r: seq<byte>)
    requires |s| >= 16
    ensures |r| == |s|
  {
    Reversed4(s[0..4]) + Reversed4(s[4..8]) + Reversed4(s[8..12]) + Reversed4(s[12..16]) + s[16..]
  }

  /** Bytes of the modified header that dumpcap never looks at. */
  function Padding(f: Format): (p: seq<byte>)
    ensures |p| + 16 == HeaderSize(f)
  {
    if f.modified then [0, 0, 0, 0, 0, 0, 0, 0] else []
  }

  function HeaderInOrder(f: Format, plain: seq<byte>): (s: seq<byte>)
    requires |plain| == 16
    ensures |s| == 16
  {
    if f.byteSwapped then SwapHeaderBytes(plain) else plain
  }

  /** A record as a writer of this format lays it out. */
  function EncodeRecord(f: Format, r: Record): (s: seq<byte>)
    ensures |s| == RecordSize(f, r)
  {
    HeaderInOrder(f, HeaderBytes(WriterHeader(f, r))) + Padding(f) + r.data
  }

  lemma FieldsOfHeaderBytes(h: RecHdr, tail: seq<byte>)
    ensures FieldsOf(HeaderBytes(h) + tail) == h
    ensures SwapFields(FieldsOf(SwapHeaderBytes(HeaderBytes(h)) + tail)) == h
  {
    var s := HeaderBytes(h) + tail;
    FieldsAt(s);
    assert s[0..4] == Bytes32(h.tsSec) && s[4..8] == Bytes32(h.tsUsec);
    assert s[8..12] == Bytes32(h.inclLen) && s[12..16] == Bytes32(h.origLen);
    U32OfBytes32(h.tsSec); U32OfBytes32(h.tsUsec);
    U32OfBytes32(h.inclLen); U32OfBytes32(h.origLen);
    assert SwapHeaderBytes(HeaderBytes(h)) + tail == SwapHeaderBytes(s);
    SwappedHeaderReadsBack(s);
  }

  /** Byte-swapping the header bytes and then the fields read from them cancels out. */
  lemma SwappedHeaderReadsBack(s: seq<byte>)
    requires |s| >= 16
    ensures SwapFields(FieldsOf(SwapHeaderBytes(s))) == FieldsOf(s)
  {
    var t := SwapHeaderBytes(s);
    FieldsAt(s); FieldsAt(t);
    assert t[0..4] == Reversed4(s[0..4]) && t[4..8] == Reversed4(s[4..8]);
    assert t[8..12] == Reversed4(s[8..12]) && t[12..16] == Reversed4(s[12..16]);
    SwapUndoesReversal(s[0..4]); SwapUndoesReversal(s[4..8]);
    SwapUndoesReversal(s[8..12]); SwapUndoesReversal(s[12..16]);
  }

  /** The lengths as this format's writer orders them. */
  function WriterHeader(f: Format, r: Record): RecHdr {
    if f.major == 2 && f.minor < 3 then RecHdr(r.tsSec, r.tsUsec, r.origLen, r.capLen)
    else RecHdr(r.tsSec, r.tsUsec, r.capLen, r.origLen)
  }

  lemma EncodedHeader(f: Format, r: Record, tail: seq<byte>)
    requires Encodable(f, r)
    ensures HeaderOf(f, EncodeRecord(f, r) + tail) == RecHdr(r.tsSec, r.tsUsec, r.capLen, r.origLen)
  {
    var g := WriterHeader(f, r);
    var more := Padding(f) + r.data + tail;
    assert EncodeRecord(f, r) + tail == HeaderInOrder(f, HeaderBytes(g)) + more;
    FieldsOfHeaderBytes(g, more);
  }

  lemma EncodedVerdict(f: Format, r: Record, tail: seq<byte>)
    requires Encodable(f, r)
    ensures RecordVerdict(f, EncodeRecord(f, r) + tail) == Item(r, RecordSize(f, r), ())
  {
    var s := EncodeRecord(f, r) + tail;
    EncodedHeader(f, r, tail);
    assert s[HeaderSize(f)..EndOf(f, s)] == r.data;
  }

  function EncodeAll(f: Format, rs: seq<Record>): (parts: seq<seq<byte>>)
    ensures |parts| == |rs| && forall i | 0 <= i < |rs| :: parts[i] == EncodeRecord(f, rs[i])
  {
    seq(|rs|, i requires 0 <= i < |rs| => EncodeRecord(f, rs[i]))
  }

  /** Framing undoes encoding, in every format, and leaves a trailing part alone. */
  lemma RecordsOfEncoded(f: Format, rs: seq<Record>, tail: seq<byte>)
    requires forall i | 0 <= i < |rs| :: Encodable(f, rs[i])
    ensures Records(f, Concat(EncodeAll(f, rs)) + tail) == Prepend(rs, Records(f, tail))
  {
    var rule, parts, states := RecordRule(f), EncodeAll(f, rs), seq(|rs| + 1, _ => ());
    forall i, t: seq<byte> | 0 <= i < |parts|
      ensures rule(states[i], parts[i] + t) == Item(rs[i], |parts[i]|, states[i + 1])
    {
      EncodedVerdict(f, rs[i], t);
    }
    assert TakenWhole(rule, states, parts, rs);
    FrameParts(rule, states, parts, rs, tail);
  }

  lemma HeaderOfEncoded(f: Format, r: Record, tail: seq<byte>)
    requires f.major == 2 && f.minor == 3 ==> r.capLen <= r.origLen
    ensures HeaderOf(f, HeaderInOrder(f, HeaderBytes(WriterHeader(f, r))) + tail) == RecHdr(r.tsSec, r.tsUsec, r.capLen, r.origLen)
  {
    FieldsOfHeaderBytes(WriterHeader(f, r), tail);
  }

  /** After records that a format can carry, the header of another one is refused if and only if its
      captured length is not allowed. */
  lemma TooLongIff(f: Format, rs: seq<Record>, r: Record)
    requires forall i | 0 <= i < |rs| :: Encodable(f, rs[i])
    requires f.major == 2 && f.minor == 3 ==> r.capLen <= r.origLen
    ensures var head := HeaderInOrder(f, HeaderBytes(WriterHeader(f, r))) + Padding(f);
            var framed := Records(f, Concat(EncodeAll(f, rs)) + head);
            && (framed.stop == Some(RecordTooLong) <==> !Allowed(f.linktype, r.capLen))
            && (framed.stop.Some? ==> framed.items == rs)
  {
    var head := HeaderInOrder(f, HeaderBytes(WriterHeader(f, r))) + Padding(f);
    RecordsOfEncoded(f, rs, head);
    HeaderOfEncoded(f, r, Padding(f));
    assert Records(f, []) == Framed([], (), [], None);
    assert Records(f, [] + head) == Records(f, head) by {
      assert [] + head == head;
    }
    HeaderRead(f, [], head, head);
    assert rs + [] == rs;
  }

  /** At version 2.3 a record never claims to have captured more than there was. */
  lemma CapturedWithinOriginal(f: Format, s: seq<byte>)
    requires f.major == 2 && f.minor == 3
    ensures forall i | 0 <= i < |Records(f, s).items| ::
              Records(f, s).items[i].capLen <= Records(f, s).items[i].origLen
  {
    FrameSizes(RecordRule(f), (r: Record) => RecordSize(f, r), (r: Record) => r.capLen <= r.origLen, (), s);
  }

  lemma SwapFieldsTwice(h: RecHdr)
    ensures SwapFields(SwapFields(h)) == h
  {
    Swap32Twice(h.tsSec); Swap32Twice(h.tsUsec); Swap32Twice(h.inclLen); Swap32Twice(h.origLen);
  }

  /** From version 2.3 on, interchanging puts the lengths in order or leaves them alone, whatever
      has been done to their order before. */
  lemma InterchangeSwapped(f: Format, h: RecHdr)
    requires !(f.major == 2 && f.minor < 3)
    ensures Interchange(f, SwapFields(Interchange(f, SwapFields(h)))) == Interchange(f, h)
  {
    SwapFieldsTwice(h);
    if Interchanged(f, SwapFields(h)) {
      var g := h.(inclLen := h.origLen, origLen := h.inclLen);
      SwapFieldsTwice(g);
      assert Interchange(f, SwapFields(h)) == SwapFields(g);
      assert Interchange(f, g) == Interchange(f, h);
    }
  }

  /** A second adjustment undoes the first before version 2.3, in either byte order; from 2.3 on what
      is left of both is the interchange of the lengths, as if the bytes had never been swapped. So
      in this host's order it is harmless at and after 2.3, and before exactly when the lengths agree. */
  lemma AdjustTwice(f: Format, h: RecHdr)
    ensures Adjust(f, Adjust(f, h)) == if f.major == 2 && f.minor < 3 then h else Interchange(f, h)
    ensures !f.byteSwapped ==>
              (Adjust(f, Adjust(f, h)) == Adjust(f, h) <==> !(f.major == 2 && f.minor < 3) || h.inclLen == h.origLen)
  {
    if f.byteSwapped {
      if f.major == 2 && f.minor < 3 {
        SwapFieldsTwice(h.(inclLen := h.origLen, origLen := h.inclLen));
        SwapFieldsTwice(h);
      } else {
        InterchangeSwapped(f, h);
      }
    }
  }

  // Byte-order twins

  function OtherOrder(f: Format): Format {
    f.(byteSwapped := !f.byteSwapped)
  }

  /** The same stream with every field of every complete record header byte-swapped. */
  function Twin(f: Format, s: seq<byte>): (t: seq<byte>)
    ensures |t| == |s|
    decreases |s|
  {
    if |s| < HeaderSize(f) then s
    else
      var v := RecordVerdict(f, s);
      if v.Item? then SwapHeaderBytes(s[..v.size]) + Twin(f, s[v.size..])
      else SwapHeaderBytes(s)
  }

  lemma SwapHeaderBytesTwice(s: seq<byte>)
    requires |s| >= 16
    ensures SwapHeaderBytes(SwapHeaderBytes(s)) == s
  {
  }

  lemma TwinHeader(f: Format, s: seq<byte>)
    requires |s| >= 16
    ensures HeaderOf(OtherOrder(f), SwapHeaderBytes(s)) == HeaderOf(f, s)
  {
    SwappedHeaderReadsBack(s);
    SwappedHeaderReadsBack(SwapHeaderBytes(s));
    SwapHeaderBytesTwice(s);
  }

  lemma SwappedVerdict(f: Format, s: seq<byte>)
    requires |s| >= HeaderSize(f)
    ensures RecordVerdict(OtherOrder(f), SwapHeaderBytes(s)) == RecordVerdict(f, s)
  {
    TwinHeader(f, s);
    assert EndOf(OtherOrder(f), SwapHeaderBytes(s)) == EndOf(f, s);
    if RecordVerdict(f, s).Item? {
      assert SwapHeaderBytes(s)[HeaderSize(f)..EndOf(f, s)] == s[HeaderSize(f)..EndOf(f, s)];
    }
  }

  /** A complete record decides the same when what follows it is cut off. */
  lemma VerdictOfHead(f: Format, s: seq<byte>)
    requires RecordVerdict(f, s).Item?
    ensures RecordVerdict(f, s[..RecordVerdict(f, s).size]) == RecordVerdict(f, s)
  {
    var v := RecordVerdict(f, s);
    var head := s[..v.size];
    assert s == head + s[v.size..];
    FieldsOfPrefix(head, s[v.size..]);
    assert head[HeaderSize(f)..v.size] == s[HeaderSize(f)..v.size];
  }

  lemma TwinVerdict(f: Format, s: seq<byte>)
    ensures RecordVerdict(OtherOrder(f), Twin(f, s)) == RecordVerdict(f, s)
  {
    if |s| >= HeaderSize(f) {
      var v := RecordVerdict(f, s);
      if v.Item? {
        VerdictOfHead(f, s);
        SwappedVerdict(f, s[..v.size]);
        VerdictAppend(OtherOrder(f), SwapHeaderBytes(s[..v.size]), Twin(f, s[v.size..]));
      } else {
        SwappedVerdict(f, s);
      }
    }
  }

  /** Twins carry identical records and stop at the same place for the same reason. */
  lemma TwinsFrameAlike(f: Format, s: seq<byte>)
    ensures Records(OtherOrder(f), Twin(f, s)).items == Records(f, s).items
    ensures Records(OtherOrder(f), Twin(f, s)).stop == Records(f, s).stop
    ensures |Records(OtherOrder(f), Twin(f, s)).rest| == |Records(f, s).rest|
  {
    var rule, other, image := RecordRule(f), RecordRule(OtherOrder(f)), (t: seq<byte>) => Twin(f, t);
    forall t: seq<byte>
      ensures other((), image(t)) == rule((), t) && |image(t)| == |t|
    {
      TwinVerdict(f, t);
    }
    forall t: seq<byte> | rule((), t).Item? && 0 < rule((), t).size <= |t|
      ensures image(t)[rule((), t).size..] == image(t[rule((), t).size..])
    {
      TwinDrop(f, t);
    }
    FrameImage(rule, other, image, s);
  }

  lemma TwinDrop(f: Format, s: seq<byte>)
    requires RecordVerdict(f, s).Item?
    ensures Twin(f, s)[RecordVerdict(f, s).size..] == Twin(f, s[RecordVerdict(f, s).size..])
  {
  }

  // The file header

  function U16(s: seq<byte>): nat
    requires |s| == 2
  {
    s[0] as int + 0x100 * s[1] as int
  }

  function SwapU16Bytes(s: seq<byte>): (r: seq<byte>)
    requires |s| == 2
    ensures |r| == 2
  {
    [s[1], s[0]]
  }

  /** What the magic number says: byte-swapped, modified record headers, nanosecond stamps. */
  datatype MagicKind = MagicKind(swapped: bool, modified: bool, nsec: bool)

  function KindOf(magic: uint32): Option<MagicKind> {
    if magic == PCAP_MAGIC then Some(MagicKind(false, false, false))
    else if magic == PCAP_NSEC_MAGIC then Some(MagicKind(false, false, true))
    else if magic == PCAP_MODIFIED_MAGIC then Some(MagicKind(false, true, false))
    else if magic == PCAP_SWAPPED_MAGIC then Some(MagicKind(true, false, false))
    else if magic == PCAP_SWAPPED_NSEC_MAGIC then Some(MagicKind(true, false, true))
    else if magic == PCAP_SWAPPED_MODIFIED_MAGIC then Some(MagicKind(true, true, false))
    else None
  }

  function Field16(swapped: bool, s: seq<byte>): nat
    requires |s| == 2
  {
    U16(if swapped then SwapU16Bytes(s) else s)
  }

  function Field32(swapped: bool, s: seq<byte>): uint32
    requires |s| == 4
  {
    if swapped then Swap32(U32(s)) else U32(s)
  }

  /** Opening a pipe on the 24-byte file header: the magic number, then the fields after it.
      dltToLinktype stands for the platform's table of link-layer type numbers. */
  function OpenPcap(dltToLinktype: uint32 -> nat, hdr: seq<byte>): Option<Format>
    requires |hdr| == 24
  {
    match KindOf(U32(hdr[0..4]))
    case None => None
    case Some(kind) =>
      var major := Field16(kind.swapped, hdr[4..6]);
      if major < 2 then None
      else Some(Format(kind.swapped, kind.modified, kind.nsec, major, Field16(kind.swapped, hdr[6..8]),
                       dltToLinktype(Field32(kind.swapped, hdr[20..24]))))
  }

  /** A file header with every field byte-swapped. */
  function TwinFileHeader(hdr: seq<byte>): (r: seq<byte>)
    requires |hdr| == 24
    ensures |r| == 24
  {
    Reversed4(hdr[0..4]) + SwapU16Bytes(hdr[4..6]) + SwapU16Bytes(hdr[6..8])
    + Reversed4(hdr[8..12]) + Reversed4(hdr[12..16]) + Reversed4(hdr[16..20]) + Reversed4(hdr[20..24])
  }

  lemma U32Injective(s: seq<byte>, t: seq<byte>)
    requires |s| == 4 && |t| == 4
    ensures U32(s) == U32(t) <==> s == t
  {
    Bytes32OfU32(s);
    Bytes32OfU32(t);
  }

  /** A magic number with bytes b reads, in the opposite order, as the number with b reversed. */
  lemma ReversedMagic(m: uint32, partner: uint32, b: seq<byte>, s: seq<byte>)
    requires |s| == 4 && |b| == 4
    requires m == b[0] as int + 0x100 * b[1] as int + 0x1_0000 * b[2] as int + 0x100_0000 * b[3] as int
    requires partner == b[3] as int + 0x100 * b[2] as int + 0x1_0000 * b[1] as int + 0x100_0000 * b[0] as int
    ensures U32(s) == m <==> U32(Reversed4(s)) == partner
    ensures U32(s) == partner <==> U32(Reversed4(s)) == m
  {
    FourBytes(b);
    FourBytes(Reversed4(b));
    U32Injective(s, b);
    U32Injective(s, Reversed4(b));
    U32Injective(Reversed4(s), b);
    U32Injective(Reversed4(s), Reversed4(b));
    assert Reversed4(Reversed4(s)) == s && Reversed4(Reversed4(b)) == b;
  }

  lemma ReversedKind(s: seq<byte>)
    requires |s| == 4
    ensures KindOf(U32(s)).None? ==> KindOf(U32(Reversed4(s))).None?
    ensures KindOf(U32(s)).Some? ==>
              KindOf(U32(Reversed4(s))) == var k := KindOf(U32(s)).value; Some(k.(swapped := !k.swapped))
  {
    ReversedMagic(PCAP_MAGIC, PCAP_SWAPPED_MAGIC, [0xd4, 0xc3, 0xb2, 0xa1], s);
    ReversedMagic(PCAP_NSEC_MAGIC, PCAP_SWAPPED_NSEC_MAGIC, [0x4d, 0x3c, 0xb2, 0xa1], s);
    ReversedMagic(PCAP_MODIFIED_MAGIC, PCAP_SWAPPED_MODIFIED_MAGIC, [0x34, 0xcd, 0xb2, 0xa1], s);
  }

  lemma ReversedField32(swapped: bool, s: seq<byte>)
    requires |s| == 4
    ensures Field32(!swapped, Reversed4(s)) == Field32(swapped, s)
  {
    SwapUndoesReversal(s);
    SwapUndoesReversal(Reversed4(s));
    assert Reversed4(Reversed4(s)) == s;
  }

  lemma ReversedField16(swapped: bool, s: seq<byte>)
    requires |s| == 2
    ensures Field16(!swapped, SwapU16Bytes(s)) == Field16(swapped, s)
  {
    assert SwapU16Bytes(SwapU16Bytes(s)) == s;
  }

  lemma TwinOpens(dltToLinktype: uint32 -> nat, hdr: seq<byte>)
    requires |hdr| == 24
    ensures OpenPcap(dltToLinktype, TwinFileHeader(hdr))
         == match OpenPcap(dltToLinktype, hdr) case None => None case Some(f) => Some(OtherOrder(f))
  {
    var t := TwinFileHeader(hdr);
    assert t[0..4] == Reversed4(hdr[0..4]) && t[20..24] == Reversed4(hdr[20..24]);
    assert t[4..6] == SwapU16Bytes(hdr[4..6]) && t[6..8] == SwapU16Bytes(hdr[6..8]);
    ReversedKind(hdr[0..4]);
    if KindOf(U32(hdr[0..4])).Some? {
      var swapped := KindOf(U32(hdr[0..4])).value.swapped;
      ReversedField16(swapped, hdr[4..6]);
      ReversedField16(swapped, hdr[6..8]);
      ReversedField32(swapped, hdr[20..24]);
    }
  }

  /** Whole files in opposite byte orders: opening succeeds on both or neither, learns the same
      things except the order, and the streams that follow give identical records. */
  lemma TwinFiles(dltToLinktype: uint32 -> nat, hdr: seq<byte>, s: seq<byte>)
    requires |hdr| == 24
    ensures OpenPcap(dltToLinktype, hdr).None? <==> OpenPcap(dltToLinktype, TwinFileHeader(hdr)).None?
    ensures OpenPcap(dltToLinktype, hdr).Some? ==>
              var f, g := OpenPcap(dltToLinktype, hdr).value, OpenPcap(dltToLinktype, TwinFileHeader(hdr)).value;
              g == OtherOrder(f) && Records(g, Twin(f, s)).items == Records(f, s).items
  {
    TwinOpens(dltToLinktype, hdr);
    if OpenPcap(dltToLinktype, hdr).Some? {
      TwinsFrameAlike(OpenPcap(dltToLinktype, hdr).value, s);
    }
  }

  // File headers as they are written

  /** The formats that there are. */
  predicate Exists(f: Format) {
    !(f.modified && f.tsNsec) && f.major < 0x1_0000 && f.minor < 0x1_0000
  }

  /** The magic numbers in the order of their bytes in the file. */
  function MagicBytes(f: Format): (b: seq<byte>)
    ensures |b| == 4
  {
    if f.byteSwapped then
      if f.modified then [0xa1, 0xb2, 0xcd, 0x34] else if f.tsNsec then [0xa1, 0xb2, 0x3c, 0x4d] else [0xa1, 0xb2, 0xc3, 0xd4]
    else
      if f.modified then [0x34, 0xcd, 0xb2, 0xa1] else if f.tsNsec then [0x4d, 0x3c, 0xb2, 0xa1] else [0xd4, 0xc3, 0xb2, 0xa1]
  }

  function TwoBytes(f: Format, n: nat): (b: seq<byte>)
    requires n < 0x1_0000
    ensures |b| == 2
  {
    if f.byteSwapped then [(n / 0x100) as byte, (n % 0x100) as byte] else [(n % 0x100) as byte, (n / 0x100) as byte]
  }

  function InOrderOf(f: Format, n: uint32): (b: seq<byte>)
    ensures |b| == 4
  {
    if f.byteSwapped then Reversed4(Bytes32(n)) else Bytes32(n)
  }

  /** A file header: magic number, version, three fields that are not looked at, link type. */
  function FileHeaderOf(f: Format, between: seq<byte>, network: uint32): (hdr: seq<byte>)
    requires Exists(f) && |between| == 12
    ensures |hdr| == 24
  {
    MagicBytes(f) + TwoBytes(f, f.major) + TwoBytes(f, f.minor) + between + InOrderOf(f, network)
  }

  lemma MagicRead(f: Format)
    requires Exists(f)
    ensures KindOf(U32(MagicBytes(f))) == Some(MagicKind(f.byteSwapped, f.modified, f.tsNsec))
  {
    FourBytes(MagicBytes(f));
  }

  lemma TwoBytesRead(f: Format, n: nat)
    requires n < 0x1_0000
    ensures Field16(f.byteSwapped, TwoBytes(f, n)) == n
  {
  }

  lemma FourBytesRead(f: Format, n: uint32)
    ensures Field32(f.byteSwapped, InOrderOf(f, n)) == n
  {
    U32OfBytes32(n);
    SwapUndoesReversal(Bytes32(n));
  }

  /** A file header opens to the format it was written for, if its major version is 2 or more. */
  lemma FileHeaderRoundTrip(dltToLinktype: uint32 -> nat, f: Format, between: seq<byte>, network: uint32)
    requires Exists(f) && |between| == 12 && f.linktype == dltToLinktype(network)
    ensures OpenPcap(dltToLinktype, FileHeaderOf(f, between, network)) == if f.major >= 2 then Some(f) else None
  {
    var hdr := FileHeaderOf(f, between, network);
    assert hdr[0..4] == MagicBytes(f) && hdr[4..6] == TwoBytes(f, f.major) && hdr[6..8] == TwoBytes(f, f.minor);
    assert hdr[20..24] == InOrderOf(f, network);
    MagicRead(f);
    TwoBytesRead(f, f.major);
    TwoBytesRead(f, f.minor);
    FourBytesRead(f, network);
  }

  lemma MagicOf(f: Format, s: seq<byte>)
    requires Exists(f) && |s| == 4 && KindOf(U32(s)) == Some(MagicKind(f.byteSwapped, f.modified, f.tsNsec))
    ensures s == MagicBytes(f)
  {
    MagicRead(f);
    FourBytes(MagicBytes(f));
    U32Injective(s, MagicBytes(f));
  }

  lemma TwoBytesOf(f: Format, s: seq<byte>)
    requires |s| == 2
    ensures var n := Field16(f.byteSwapped, s); n < 0x1_0000 && TwoBytes(f, n) == s
  {
  }

  lemma FourBytesOfField(f: Format, s: seq<byte>)
    requires |s| == 4
    ensures InOrderOf(f, Field32(f.byteSwapped, s)) == s
  {
    Bytes32OfU32(s);
    Bytes32OfU32(Reversed4(s));
    assert Reversed4(Reversed4(s)) == s;
  }

  ghost predicate IsHeaderOf(dltToLinktype: uint32 -> nat, f: Format, hdr: seq<byte>, network: uint32)
    requires |hdr| == 24
  {
    Exists(f) && f.major >= 2 && f.linktype == dltToLinktype(network) && hdr == FileHeaderOf(f, hdr[8..20], network)
  }

  lemma OpenedAsWritten(dltToLinktype: uint32 -> nat, hdr: seq<byte>, f: Format) returns (network: uint32)
    requires |hdr| == 24 && OpenPcap(dltToLinktype, hdr) == Some(f)
    ensures IsHeaderOf(dltToLinktype, f, hdr, network)
  {
    network := Field32(f.byteSwapped, hdr[20..24]);
    MagicOf(f, hdr[0..4]);
    TwoBytesOf(f, hdr[4..6]);
    TwoBytesOf(f, hdr[6..8]);
    FourBytesOfField(f, hdr[20..24]);
    assert hdr == hdr[0..4] + hdr[4..6] + hdr[6..8] + hdr[8..20] + hdr[20..24];
  }

  /** A pipe opens to a format if and only if its first bytes are a file header written for it, with a
      major version of 2 or more; all other magic numbers and versions are refused. */
  lemma OpensIff(dltToLinktype: uint32 -> nat, hdr: seq<byte>, f: Format)
    requires |hdr| == 24
    ensures OpenPcap(dltToLinktype, hdr) == Some(f)
            <==> exists network: uint32 :: IsHeaderOf(dltToLinktype, f, hdr, network)
  {
    if OpenPcap(dltToLinktype, hdr) == Some(f) {
      var network := OpenedAsWritten(dltToLinktype, hdr, f);
    }
    if network: uint32 :| IsHeaderOf(dltToLinktype, f, hdr, network) {
      FileHeaderRoundTrip(dltToLinktype, f, hdr[8..20], network);
    }
  }

  /** A whole file, as it is written, is read back. */
  lemma PcapFileRoundTrip(dltToLinktype: uint32 -> nat, f: Format, between: seq<byte>, network: uint32, rs: seq<Record>)
    requires Exists(f) && f.major >= 2 && |between| == 12 && f.linktype == dltToLinktype(network)
    requires forall i | 0 <= i < |rs| :: Encodable(f, rs[i])
    ensures var file := FileHeaderOf(f, between, network) + Concat(EncodeAll(f, rs));
            && OpenPcap(dltToLinktype, file[..24]) == Some(f)
            && Records(f, file[24..]) == Framed(rs, (), [], None)
  {
    var hdr, data := FileHeaderOf(f, between, network), Concat(EncodeAll(f, rs));
    FileHeaderRoundTrip(dltToLinktype, f, between, network);
    RecordsOfEncoded(f, rs, []);
    assert (hdr + data)[..24] == hdr && (hdr + data)[24..] == data && data + [] == data;
    assert Records(f, []) == Framed([], (), [], None) && rs + [] == rs;
  }
}
