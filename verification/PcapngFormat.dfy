/** The pcapng stream read from a pipe (draft-ietf-opsawg-pcapng, sections 3.1 and 4.1): block
    headers and the reference framing of a whole byte sequence into blocks. */
module PcapngFormat {
  import opened Bytes
  import opened Framing
  import opened PowerOfTwo

  const BLOCK_TYPE_SHB: uint32 := 0x0A0D0D0A
  const BLOCK_TYPE_IDB: uint32 := 0x00000001
  const BLOCK_TYPE_PB: uint32 := 0x00000002
  const BLOCK_TYPE_SPB: uint32 := 0x00000003
  const BLOCK_TYPE_ISB: uint32 := 0x00000005
  const BLOCK_TYPE_EPB: uint32 := 0x00000006
  const BLOCK_TYPE_SYSTEMD_JOURNAL_EXPORT: uint32 := 0x00000009
  const BLOCK_TYPE_SYSDIG_EVENT: uint32 := 0x00000204
  const BLOCK_TYPE_SYSDIG_EVENT_V2: uint32 := 0x00000216
  const BLOCK_TYPE_SYSDIG_EVENT_V2_LARGE: uint32 := 0x00000221

  const PCAPNG_MAGIC: uint32 := 0x1A2B3C4D

  const WTAP_MAX_PACKET_SIZE_STANDARD: nat := 262144

  const BLOCK_HEADER_SIZE: nat := 8
  const SHB_FIXED_SIZE: nat := 24
  const MIN_BLOCK_SIZE: nat := 12

  /** Why a reader goes no further. ForeignOrder: a section header that is not in this host's byte
      order. BufferOverrun: a block that does not fit the buffer read into. */
  datatype Refusal = Misaligned | BlockTooLong | BlockTooShort | ForeignOrder | BufferOverrun

  function BlockType(s: seq<byte>): uint32
    requires |s| >= 8
  {
    U32(s[0..4])
  }

  function BlockLength(s: seq<byte>): uint32
    requires |s| >= 8
  {
    U32(s[4..8])
  }

  /** Blocks that hold packet, event or log data. */
  predicate IsDataBlock(blockType: uint32) {
    blockType in {BLOCK_TYPE_PB, BLOCK_TYPE_EPB, BLOCK_TYPE_SPB, BLOCK_TYPE_SYSTEMD_JOURNAL_EXPORT,
                  BLOCK_TYPE_SYSDIG_EVENT, BLOCK_TYPE_SYSDIG_EVENT_V2, BLOCK_TYPE_SYSDIG_EVENT_V2_LARGE}
  }

  /** The buffer size once a block of this length has been announced. */
  function Grown(size: nat, length: uint32): nat {
    if length > size then RoundUp(length) else size
  }

  function SizeAfter(size: nat, b: seq<byte>): nat
    requires |b| >= 8
  {
    if BlockType(b) == BLOCK_TYPE_SHB then size else Grown(size, BlockLength(b))
  }

  /** A section header: its byte order is looked at, its length is not, except that the bytes
      already read are never given back. */
  function SectionVerdict(size: nat, s: seq<byte>): (v: Verdict<nat, seq<byte>, Refusal>)
    requires |s| >= BLOCK_HEADER_SIZE
    ensures v.Item? ==> 0 < v.size <= |s| && v.item <= s && |v.item| == BlockLength(s)
    ensures v.Item? ==> v.size == if |v.item| < SHB_FIXED_SIZE then SHB_FIXED_SIZE else |v.item|
  {
    var length := BlockLength(s);
    if |s| < SHB_FIXED_SIZE then More
    else if U32(s[8..12]) != PCAPNG_MAGIC then Stop(ForeignOrder)
    else if length > size then Stop(BufferOverrun)
    else if length < SHB_FIXED_SIZE then Item(s[..length], SHB_FIXED_SIZE, size)
    else if |s| < length then More
    else Item(s[..length], length, size)
  }

  /** What the header of any other block leads to, before its contents are read. */
  function HeaderRefusal(size: nat, blockType: uint32, length: uint32): Option<Refusal> {
    if length % 4 != 0 then Some(Misaligned)
    else if IsDataBlock(blockType) && length > WTAP_MAX_PACKET_SIZE_STANDARD then Some(BlockTooLong)
    else if length < MIN_BLOCK_SIZE then Some(BlockTooShort)
    else if length > Grown(size, length) then Some(BufferOverrun)
    else None
  }

  /** What is at the front of s when the reader's buffer has the given size. */
  function BlockVerdict(size: nat, s: seq<byte>): (v: Verdict<nat, seq<byte>, Refusal>)
    ensures v.Item? ==> BLOCK_HEADER_SIZE <= |s| && v.size <= |s| && v.item <= s && |v.item| == BlockLength(s) && 0 < v.size
    ensures v.Item? ==> v.size == if BlockType(s) == BLOCK_TYPE_SHB && |v.item| < SHB_FIXED_SIZE then SHB_FIXED_SIZE
                                  else |v.item|
  {
    if |s| < BLOCK_HEADER_SIZE then More
    else if BlockType(s) == BLOCK_TYPE_SHB then SectionVerdict(size, s)
    else
      match HeaderRefusal(size, BlockType(s), BlockLength(s))
      case Some(why) => Stop(why)
      case None =>
        if |s| < BlockLength(s) then More
        else Item(s[..BlockLength(s)], BlockLength(s), Grown(size, BlockLength(s)))
  }

  function BlockRule(): (nat, seq<byte>) -> Verdict<nat, seq<byte>, Refusal> {
    (size, s) => BlockVerdict(size, s)
  }

  /** The reference framing of a whole byte sequence, read into a buffer of the given size. */
  function Blocks(size: nat, s: seq<byte>): Framed<nat, seq<byte>, Refusal> {
    Frame(BlockRule(), size, s)
  }

  lemma HeaderOfPrefix(a: seq<byte>, b: seq<byte>)
    requires |a| >= 8
    ensures BlockType(a + b) == BlockType(a) && BlockLength(a + b) == BlockLength(a)
    ensures |a| >= 12 ==> (a + b)[8..12] == a[8..12]
  {
    assert (a + b)[0..4] == a[0..4] && (a + b)[4..8] == a[4..8];
  }

  lemma VerdictAppend(size: nat, a: seq<byte>, b: seq<byte>)
    requires !BlockVerdict(size, a).More?
    ensures BlockVerdict(size, a + b) == BlockVerdict(size, a)
  {
    HeaderOfPrefix(a, b);
    if BlockLength(a) <= |a| {
      assert (a + b)[..BlockLength(a)] == a[..BlockLength(a)];
    }
  }

  lemma BlockRuleSteady()
    ensures Steady(BlockRule())
  {
    var rule := BlockRule();
    forall size: nat, a: seq<byte>, b: seq<byte> | !rule(size, a).More?
      ensures rule(size, a + b) == rule(size, a)
    {
      VerdictAppend(size, a, b);
    }
  }

  lemma OneRead(size: nat, seen: seq<byte>, chunk: seq<byte>, held: seq<byte>)
    requires Blocks(size, seen).stop.None? && held == Blocks(size, seen).rest + chunk
    ensures var f := Blocks(size, seen);
            match BlockVerdict(f.state, held)
            case More => Blocks(size, seen + chunk) == f.(rest := held)
            case Stop(why) => Blocks(size, seen + chunk) == f.(rest := held, stop := Some(why))
            case Item(item, n, next) =>
              n == |held| ==> Blocks(size, seen + chunk) == Framed(f.items + [item], next, [], None)
  {
    BlockRuleSteady();
    FrameOneRead(BlockRule(), size, seen, chunk);
  }

  /** Having held bytes of a block, its reader asks for n in all: the header, a section header's
      fixed part, or the whole block once the header has been accepted. */
  ghost predicate Asks(size: nat, held: seq<byte>, n: nat) {
    if n == BLOCK_HEADER_SIZE then |held| < n
    else
      && BLOCK_HEADER_SIZE <= |held| < n
      && (if BlockType(held) == BLOCK_TYPE_SHB
          then n == SHB_FIXED_SIZE
               || (|held| >= SHB_FIXED_SIZE && U32(held[8..12]) == PCAPNG_MAGIC && n == BlockLength(held) <= size)
          else HeaderRefusal(size, BlockType(held), BlockLength(held)).None? && n == BlockLength(held))
  }

  /** Until it has them all, the bytes held decide nothing. */
  lemma Unfinished(size: nat, held: seq<byte>, n: nat, more: seq<byte>)
    requires Asks(size, held, n) && |held| + |more| < n
    ensures BlockVerdict(size, held + more).More?
  {
    if |held| >= BLOCK_HEADER_SIZE {
      HeaderOfPrefix(held, more);
    }
  }

  lemma PartRead(initial: nat, seen: seq<byte>, chunk: seq<byte>, n: nat)
    requires Blocks(initial, seen).stop.None?
    requires Asks(Blocks(initial, seen).state, Blocks(initial, seen).rest, n)
    requires |Blocks(initial, seen).rest| + |chunk| < n
    ensures Blocks(initial, seen + chunk).items == Blocks(initial, seen).items
    ensures Blocks(initial, seen + chunk).stop.None?
  {
    var f := Blocks(initial, seen);
    OneRead(initial, seen, chunk, f.rest + chunk);
    Unfinished(f.state, f.rest, n, chunk);
  }

  /** The framing once a block header is held: a section header waits for its fixed part, any other
      block is refused or entered. */
  function HeaderOutcome(given: seq<seq<byte>>, size: nat, held: seq<byte>): Framed<nat, seq<byte>, Refusal>
    requires |held| == BLOCK_HEADER_SIZE
  {
    Framed(given, size, held, if BlockType(held) == BLOCK_TYPE_SHB then None
                              else HeaderRefusal(size, BlockType(held), BlockLength(held)))
  }

  lemma HeaderRead(initial: nat, seen: seq<byte>, chunk: seq<byte>, held: seq<byte>)
    requires Blocks(initial, seen).stop.None? && held == Blocks(initial, seen).rest + chunk
    requires |held| == BLOCK_HEADER_SIZE
    ensures Blocks(initial, seen + chunk) == HeaderOutcome(Blocks(initial, seen).items, Blocks(initial, seen).state, held)
  {
    OneRead(initial, seen, chunk, held);
  }

  /** The framing once a section header's fixed part is held; one no longer than that is whole. */
  function SectionOutcome(given: seq<seq<byte>>, size: nat, held: seq<byte>): Framed<nat, seq<byte>, Refusal>
    requires |held| == SHB_FIXED_SIZE
  {
    var length := BlockLength(held);
    if U32(held[8..12]) != PCAPNG_MAGIC then Framed(given, size, held, Some(ForeignOrder))
    else if length > size then Framed(given, size, held, Some(BufferOverrun))
    else if length <= SHB_FIXED_SIZE then Framed(given + [held[..length]], size, [], None)
    else Framed(given, size, held, None)
  }

  lemma SectionRead(initial: nat, seen: seq<byte>, chunk: seq<byte>, held: seq<byte>)
    requires Blocks(initial, seen).stop.None? && held == Blocks(initial, seen).rest + chunk
    requires |held| == SHB_FIXED_SIZE && BlockType(held) == BLOCK_TYPE_SHB
    ensures Blocks(initial, seen + chunk) == SectionOutcome(Blocks(initial, seen).items, Blocks(initial, seen).state, held)
  {
    OneRead(initial, seen, chunk, held);
  }

  /** A block that was asked for whole is held whole. */
  lemma BodyRead(initial: nat, seen: seq<byte>, chunk: seq<byte>, head: seq<byte>, held: seq<byte>)
    requires Blocks(initial, seen).stop.None? && held == Blocks(initial, seen).rest + chunk
    requires head == Blocks(initial, seen).rest && |head| >= BLOCK_HEADER_SIZE
    requires Asks(Blocks(initial, seen).state, head, |held|) && |held| == BlockLength(head)
    requires BlockType(head) == BLOCK_TYPE_SHB ==> |head| >= SHB_FIXED_SIZE
    ensures Blocks(initial, seen + chunk)
         == Framed(Blocks(initial, seen).items + [held], SizeAfter(Blocks(initial, seen).state, head), [], None)
  {
    HeaderOfPrefix(head, chunk);
    assert held[..|held|] == held;
    OneRead(initial, seen, chunk, held);
  }

  /** However the stream is split into reads, the blocks are those of the whole stream. */
  lemma BlocksIgnoreChunking(size: nat, chunks: seq<seq<byte>>)
    ensures FrameChunks(BlockRule(), size, chunks) == Blocks(size, Flatten(chunks))
  {
    BlockRuleSteady();
    ChunkingIrrelevant(BlockRule(), size, chunks);
  }

  // Well-formed streams

  /** A block in this host's byte order that a buffer of the given size, grown if need be, takes. A
      section header need not have a length that is a multiple of four. */
  ghost predicate WellFormed(size: nat, b: seq<byte>) {
    && |b| >= 12 && U32(b[4..8]) == |b|
    && (if U32(b[0..4]) == 0x0A0D0D0A then 24 <= |b| <= size && U32(b[8..12]) == 0x1A2B3C4D
        else |b| % 4 == 0 && |b| <= (if HoldsData(U32(b[0..4])) then 262144 else 0x8000_0000))
  }

  /** Packet blocks, simple and enhanced ones, journal entries and Sysdig events. */
  predicate HoldsData(blockType: uint32) {
    blockType in {2, 3, 6, 9, 0x204, 0x216, 0x221}
  }

  lemma HoldsDataIff(blockType: uint32)
    ensures IsDataBlock(blockType) <==> HoldsData(blockType)
  {
  }

  /** The buffer sizes before each block and after the last. */
  ghost predicate Sizes(sizes: seq<nat>, blocks: seq<seq<byte>>) {
    && |sizes| == |blocks| + 1
    && (forall i | 0 <= i < |blocks| :: WellFormed(sizes[i], blocks[i]) && sizes[i + 1] == SizeAfter(sizes[i], blocks[i]))
  }

  lemma WellFormedTakenWhole(size: nat, b: seq<byte>, more: seq<byte>)
    requires WellFormed(size, b)
    ensures BlockVerdict(size, b + more) == Item(b, |b|, SizeAfter(size, b))
  {
    HeaderOfPrefix(b, more);
    HoldsDataIff(BlockType(b));
    assert (b + more)[..|b|] == b;
    if BlockType(b) != BLOCK_TYPE_SHB && |b| > size {
      RoundUpFitsIff(|b|);
    }
  }

  /** On a well-formed stream the framing gives back exactly its blocks, byte for byte. */
  lemma BlocksOfStream(sizes: seq<nat>, blocks: seq<seq<byte>>, tail: seq<byte>)
    requires Sizes(sizes, blocks)
    ensures Blocks(sizes[0], Concat(blocks) + tail) == Prepend(blocks, Blocks(sizes[|blocks|], tail))
  {
    var rule := BlockRule();
    forall i, t: seq<byte> | 0 <= i < |blocks|
      ensures rule(sizes[i], blocks[i] + t) == Item(blocks[i], |blocks[i]|, sizes[i + 1])
    {
      WellFormedTakenWhole(sizes[i], blocks[i], t);
    }
    assert TakenWhole(rule, sizes, blocks, blocks);
    FrameParts(rule, sizes, blocks, blocks, tail);
  }

  /** Having read part of a well-formed stream, a reader has met nothing to refuse, and has the
      first of its blocks; having read it all, it has them all. */
  lemma PartOfStream(sizes: seq<nat>, blocks: seq<seq<byte>>, part: seq<byte>, later: seq<byte>)
    requires Sizes(sizes, blocks) && part + later == Concat(blocks)
    ensures Blocks(sizes[0], part).stop.None? && Blocks(sizes[0], part).items <= blocks
    ensures later == [] ==> Blocks(sizes[0], part).items == blocks
  {
    BlocksOfStream(sizes, blocks, []);
    assert Concat(blocks) + [] == Concat(blocks);
    assert Prepend(blocks, Blocks(sizes[|blocks|], [])).items == blocks;
    BlockRuleSteady();
    FrameAppend(BlockRule(), sizes[0], part, later);
    if later == [] {
      assert part == Concat(blocks);
    }
  }

  // Streams that are refused

  /** What stops a reader stops it whatever follows, and nothing is delivered after that. */
  lemma StopKept(size: nat, part: seq<byte>, later: seq<byte>)
    ensures Blocks(size, part).stop.Some? ==>
              Blocks(size, part + later).stop == Blocks(size, part).stop && Blocks(size, part + later).items == Blocks(size, part).items
    ensures Blocks(size, part).items <= Blocks(size, part + later).items
  {
    BlockRuleSteady();
    FrameAppend(BlockRule(), size, part, later);
  }

  /** After well-formed blocks, a section header in another byte order. */
  lemma ForeignAfter(sizes: seq<nat>, blocks: seq<seq<byte>>, head: seq<byte>)
    requires Sizes(sizes, blocks) && |head| >= SHB_FIXED_SIZE
    requires BlockType(head) == BLOCK_TYPE_SHB && U32(head[8..12]) != PCAPNG_MAGIC
    ensures Blocks(sizes[0], Concat(blocks) + head).stop == Some(ForeignOrder)
    ensures Blocks(sizes[0], Concat(blocks) + head).items == blocks
  {
    BlocksOfStream(sizes, blocks, head);
    assert Blocks(sizes[|blocks|], head) == Framed([], sizes[|blocks|], head, Some(ForeignOrder));
  }

  /** After well-formed blocks, a section header that is longer than the buffer has become. */
  lemma OverlongAfter(sizes: seq<nat>, blocks: seq<seq<byte>>, head: seq<byte>)
    requires Sizes(sizes, blocks) && |head| >= SHB_FIXED_SIZE
    requires BlockType(head) == BLOCK_TYPE_SHB && U32(head[8..12]) == PCAPNG_MAGIC && BlockLength(head) > sizes[|blocks|]
    ensures Blocks(sizes[0], Concat(blocks) + head).stop == Some(BufferOverrun)
    ensures Blocks(sizes[0], Concat(blocks) + head).items == blocks
  {
    BlocksOfStream(sizes, blocks, head);
    assert Blocks(sizes[|blocks|], head) == Framed([], sizes[|blocks|], head, Some(BufferOverrun));
  }

  /** After well-formed blocks, a section header that says it is shorter than its fixed part: all of
      that is used up, and as much as it says is delivered. */
  lemma ShortSectionAfter(sizes: seq<nat>, blocks: seq<seq<byte>>, head: seq<byte>)
    requires Sizes(sizes, blocks) && |head| == 24 && U32(head[0..4]) == 0x0A0D0D0A && U32(head[8..12]) == 0x1A2B3C4D
    requires U32(head[4..8]) < 24 <= sizes[|blocks|]
    ensures Blocks(sizes[0], Concat(blocks) + head)
         == Framed(blocks + [head[..U32(head[4..8])]], sizes[|blocks|], [], None)
  {
    BlocksOfStream(sizes, blocks, head);
    ShortSectionAlone(sizes[|blocks|], head);
  }

  lemma ShortSectionAlone(size: nat, head: seq<byte>)
    requires |head| == SHB_FIXED_SIZE <= size && BlockType(head) == BLOCK_TYPE_SHB && U32(head[8..12]) == PCAPNG_MAGIC
    requires BlockLength(head) < SHB_FIXED_SIZE
    ensures Blocks(size, head) == Framed([head[..BlockLength(head)]], size, [], None)
  {
    assert Blocks(size, []) == Framed([], size, [], None) && [] + head == head;
    SectionRead(size, [], head, head);
  }

  /** Why a block other than a section header is refused, if it is. */
  function ReasonFor(size: nat, blockType: uint32, length: uint32): Option<Refusal> {
    if length % 4 != 0 then Some(Misaligned)
    else if HoldsData(blockType) && length > 262144 then Some(BlockTooLong)
    else if length < 12 then Some(BlockTooShort)
    else if length > 0x8000_0000 && length > size then Some(BufferOverrun)
    else None
  }

  lemma RefusalOf(size: nat, blockType: uint32, length: uint32)
    ensures HeaderRefusal(size, blockType, length) == ReasonFor(size, blockType, length)
  {
    HoldsDataIff(blockType);
    if length > size && length > 0 {
      RoundUpFitsIff(length);
    }
  }

  lemma HeaderAlone(size: nat, head: seq<byte>)
    requires |head| == BLOCK_HEADER_SIZE && BlockType(head) != BLOCK_TYPE_SHB
    ensures Blocks(size, head).items == []
    ensures Blocks(size, head).stop == HeaderRefusal(size, BlockType(head), BlockLength(head))
  {
    assert Blocks(size, []) == Framed([], size, [], None) && [] + head == head;
    HeaderRead(size, [], head, head);
  }

  /** After well-formed blocks, the header of another one that is not a section header: whether it is
      refused, and why. */
  lemma RefusedAfter(sizes: seq<nat>, blocks: seq<seq<byte>>, head: seq<byte>, blockType: uint32, length: uint32)
    requires Sizes(sizes, blocks) && |head| == 8 && blockType == U32(head[0..4]) != 0x0A0D0D0A && length == U32(head[4..8])
    ensures Blocks(sizes[0], Concat(blocks) + head).items == blocks
    ensures Blocks(sizes[0], Concat(blocks) + head).stop == ReasonFor(sizes[|blocks|], blockType, length)
  {
    var f := Blocks(sizes[|blocks|], head);
    BlocksOfStream(sizes, blocks, head);
    HeaderAlone(sizes[|blocks|], head);
    RefusalOf(sizes[|blocks|], blockType, length);
    assert Prepend(blocks, f).items == blocks + f.items && blocks + [] == blocks;
  }
}
