/** What capture files say: blocks, interface descriptions, and a decoder of output files.
    A pcapng section is a list of interface descriptions and the blocks that index it
    (draft-ietf-opsawg-pcapng, sections 4.2, 4.3, 4.4 and 4.6). */
module Sections {
  import opened Bytes
  import opened Framing
  import opened PcapngFormat
  import PcapFormat

  type Packet = PcapFormat.Record

  /** A block of a pcapng stream. rest is the block without its interface id. */
  datatype Block =
    | Shb(raw: seq<byte>)
    | Idb(raw: seq<byte>)
    | Epb(id: nat, rest: seq<byte>)
    | Isb(id: nat, rest: seq<byte>)
    | Spb(raw: seq<byte>)
    | OtherData(raw: seq<byte>)
    | Other(raw: seq<byte>)
  {
    /** Blocks that are counted as packets. */
    predicate IsData() {
      Epb? || Spb? || OtherData?
    }

    predicate CarriesId() {
      Epb? || Isb?
    }
  }

  /** The block that some bytes are. */
  function BlockOf(b: seq<byte>): Block
    requires |b| >= MIN_BLOCK_SIZE
  {
    var t := BlockType(b);
    if t == BLOCK_TYPE_SHB then Shb(b)
    else if t == BLOCK_TYPE_IDB then Idb(b)
    else if t == BLOCK_TYPE_EPB then Epb(U32(b[8..12]), b[..8] + b[12..])
    else if t == BLOCK_TYPE_ISB then Isb(U32(b[8..12]), b[..8] + b[12..])
    else if t == BLOCK_TYPE_SPB then Spb(b)
    else if IsDataBlock(t) then OtherData(b)
    else Other(b)
  }

  /** Which blocks count as packets, and which have an interface id, by the type they begin with. */
  lemma BlockKinds(b: seq<byte>)
    requires |b| >= 12
    ensures var t := U32(b[0..4]);
            && (BlockOf(b).Shb? <==> t == 0x0A0D0D0A) && (BlockOf(b).Idb? <==> t == 1) && (BlockOf(b).Spb? <==> t == 3)
            && (BlockOf(b).Epb? <==> t == 6) && (BlockOf(b).Isb? <==> t == 5)
            && (BlockOf(b).IsData() <==> t in {2, 3, 6, 9, 0x204, 0x216, 0x221})
            && (BlockOf(b).CarriesId() ==> BlockOf(b).id == U32(b[8..12]))
  {
    HoldsDataIff(BlockType(b));
  }

  /** The blocks that some bytes of a stream are; well-formed ones are never too short. */
  function Parse(raw: seq<byte>): Block {
    if |raw| >= MIN_BLOCK_SIZE then BlockOf(raw) else Other(raw)
  }

  function Parsed(raws: seq<seq<byte>>): (r: seq<Block>)
    ensures |r| == |raws|
  {
    seq(|raws|, i requires 0 <= i < |raws| => Parse(raws[i]))
  }

  /** The bytes of a block. */
  function BytesOf(block: Block): seq<byte>
    requires block.CarriesId() ==> block.id < TWO_TO_THE_32 && |block.rest| >= 8
  {
    match block
    case Epb(id, rest) => rest[..8] + Bytes32(id) + rest[8..]
    case Isb(id, rest) => rest[..8] + Bytes32(id) + rest[8..]
    case _ => block.raw
  }

  lemma BytesOfBlock(b: seq<byte>)
    requires |b| >= MIN_BLOCK_SIZE
    ensures BlockOf(b).CarriesId() ==> |BlockOf(b).rest| >= 8
    ensures BytesOf(BlockOf(b)) == b
  {
    if BlockOf(b).CarriesId() {
      Bytes32OfU32(b[8..12]);
      assert BlockOf(b).rest[..8] == b[..8] && BlockOf(b).rest[8..] == b[12..];
    }
  }

  /** The block with its interface id replaced in place. */
  function WithId(b: seq<byte>, id: uint32): (r: seq<byte>)
    requires |b| >= MIN_BLOCK_SIZE
    ensures |r| == |b|
  {
    b[..8] + Bytes32(id) + b[12..]
  }

  /** Replacing the four bytes at offset 8 changes the id and nothing else. */
  lemma BlockWithId(b: seq<byte>, id: uint32)
    requires |b| >= MIN_BLOCK_SIZE && BlockOf(b).CarriesId()
    ensures BlockOf(WithId(b, id)) == BlockOf(b).(id := id)
  {
    var c := WithId(b, id);
    assert c[0..4] == b[0..4] && c[8..12] == Bytes32(id);
    U32OfBytes32(id);
    assert c[..8] + c[12..] == b[..8] + b[12..];
  }

  /** What an interface description describes: a source that dumpcap describes itself, the
      interface a pcapng stream described with these bytes, or nothing any more. */
  datatype Desc = OfSource(src: nat) | FromStream(raw: seq<byte>) | Dummy

  /** What dumpcap puts in an output file. */
  datatype Out =
    | OwnShb
    | OwnIdb(desc: Desc)
    | Copied(block: Block)
    | PacketBlock(id: nat, packet: Packet)
    | FileHeader
    | PacketRecord(packet: Packet)
  {
    predicate IsData() {
      PacketBlock? || PacketRecord? || (Copied? && block.IsData())
    }

    predicate IsHeader() {
      OwnShb? || OwnIdb? || FileHeader? || (Copied? && (block.Shb? || block.Idb?))
    }
  }

  type File = seq<Out>

  /** Something a reader of a file attributes to an interface. */
  datatype What = EpbItem(rest: seq<byte>) | IsbItem(rest: seq<byte>) | SpbItem(raw: seq<byte>) | PacketItem(packet: Packet)

  datatype Attribution = Attribution(what: What, desc: Option<Desc>)

  /** Where a reader is in a file: the descriptions of the current section, and what it has
      attributed so far. A pcap file has one interface, which its header describes. */
  datatype Decoded = Decoded(section: seq<Desc>, items: seq<Attribution>)

  function Resolve(section: seq<Desc>, id: nat): Option<Desc> {
    if id < |section| then Some(section[id]) else None
  }

  /** What a reader makes of one block. */
  function Attributed(section: seq<Desc>, o: Out): seq<Attribution> {
    match o
    case Copied(Epb(id, rest)) => [Attribution(EpbItem(rest), Resolve(section, id))]
    case Copied(Isb(id, rest)) => [Attribution(IsbItem(rest), Resolve(section, id))]
    case Copied(Spb(raw)) => [Attribution(SpbItem(raw), Resolve(section, 0))]
    case PacketBlock(id, packet) => [Attribution(PacketItem(packet), Resolve(section, id))]
    case PacketRecord(packet) => [Attribution(PacketItem(packet), Resolve(section, 0))]
    case _ => []
  }

  function SectionAfter(section: seq<Desc>, o: Out): seq<Desc> {
    match o
    case OwnShb => []
    case Copied(Shb(_)) => []
    case OwnIdb(desc) => section + [desc]
    case Copied(Idb(raw)) => section + [FromStream(raw)]
    case FileHeader => [OfSource(0)]
    case _ => section
  }

  function DecodeOut(d: Decoded, o: Out): Decoded {
    Decoded(SectionAfter(d.section, o), d.items + Attributed(d.section, o))
  }

  /** Decoding a file, from its beginning to its end. */
  function DecodeFile(f: File): Decoded
    decreases |f|, 1
  {
    if f == [] then Decoded([], []) else DecodeLast(f)
  }

  function DecodeLast(f: File): Decoded
    requires f != []
    decreases |f|, 0
  {
    DecodeOut(DecodeFile(f[..|f| - 1]), f[|f| - 1])
  }

  /** Decoding files one after the other. */
  function DecodeFiles(fs: seq<File>): seq<Attribution>
    decreases |fs|, 1
  {
    if fs == [] then [] else DecodeLastFile(fs)
  }

  function DecodeLastFile(fs: seq<File>): seq<Attribution>
    requires fs != []
    decreases |fs|, 0
  {
    DecodeFiles(fs[..|fs| - 1]) + DecodeFile(fs[|fs| - 1]).items
  }

  /** The attributions made by an explicit interface id (or by there being one interface only);
      simple packet blocks have none. */
  function Explicit(items: seq<Attribution>): seq<Attribution> {
    if items == [] then []
    else
      var last := items[|items| - 1];
      Explicit(items[..|items| - 1]) + (if last.what.SpbItem? then [] else [last])
  }

  lemma {:induction false} ExplicitAppend(a: seq<Attribution>, b: seq<Attribution>)
    ensures Explicit(a + b) == Explicit(a) + Explicit(b)
  {
    if b == [] {
      assert a + b == a;
    } else {
      var n := |b| - 1;
      assert (a + b)[..|a + b| - 1] == a + b[..n];
      ExplicitAppend(a, b[..n]);
    }
  }

  /** The last file, which is the one being written. */
  function Append(fs: seq<File>, o: Out): (r: seq<File>)
    requires fs != []
    ensures |r| == |fs|
  {
    fs[..|fs| - 1] + [fs[|fs| - 1] + [o]]
  }

  lemma DecodeAppended(f: File, o: Out)
    ensures DecodeFile(f + [o]) == DecodeOut(DecodeFile(f), o)
  {
    assert (f + [o])[..|f + [o]| - 1] == f;
  }

  lemma DecodeFilesAppended(fs: seq<File>, o: Out)
    requires fs != []
    ensures DecodeFiles(Append(fs, o)) == DecodeFiles(fs) + Attributed(DecodeFile(fs[|fs| - 1]).section, o)
    ensures DecodeFile(Append(fs, o)[|fs| - 1]) == DecodeOut(DecodeFile(fs[|fs| - 1]), o)
  {
    var n, g := |fs| - 1, Append(fs, o);
    DecodeAppended(fs[n], o);
    assert g[..n] == fs[..n] && g[n] == fs[n] + [o];
    var d := DecodeFile(fs[n]);
    Associate(DecodeFiles(fs[..n]), d.items, Attributed(d.section, o));
  }

  /** A file of headers only attributes nothing. */
  lemma {:induction false} HeadersAttributeNothing(f: File)
    requires forall i | 0 <= i < |f| :: f[i].IsHeader()
    ensures DecodeFile(f).items == []
  {
    if f == [] {
    } else {
      HeadersAttributeNothing(f[..|f| - 1]);
    }
  }

  lemma DecodeFilesWithHeader(fs: seq<File>, f: File)
    requires forall i | 0 <= i < |f| :: f[i].IsHeader()
    ensures DecodeFiles(fs + [f]) == DecodeFiles(fs)
  {
    HeadersAttributeNothing(f);
    assert (fs + [f])[..|fs + [f]| - 1] == fs;
  }

  function DataCount(f: File): nat {
    if f == [] then 0 else DataCount(f[..|f| - 1]) + if f[|f| - 1].IsData() then 1 else 0
  }

  lemma DataCountAppended(f: File, o: Out)
    ensures DataCount(f + [o]) == DataCount(f) + if o.IsData() then 1 else 0
  {
    assert (f + [o])[..|f + [o]| - 1] == f;
  }

  lemma {:induction false} HeadersHoldNoData(f: File)
    requires forall i | 0 <= i < |f| :: f[i].IsHeader()
    ensures DataCount(f) == 0
  {
    if f == [] {
    } else {
      HeadersHoldNoData(f[..|f| - 1]);
    }
  }
}
