/** The resumable reader of a pcapng stream: pcapng_pipe_open_live, pcapng_read_shb,
    cap_pipe_read_data_bytes and pcapng_pipe_dispatch. */
module PcapngPipe {
  import opened Bytes
  import opened Framing
  import opened PcapngFormat
  import opened Pipes
  import opened PowerOfTwo

  const INITIAL_BUFFER_SIZE: nat := 2048

  lemma StartOf(s: seq<byte>, start: seq<byte>, taken: seq<byte>)
    requires |start| + |taken| <= |s| && s[..|start| + |taken|] == start + taken
    ensures s[..|start|] == start && s[|start|..|start| + |taken|] == taken
  {
    assert s[..|start| + |taken|][..|start|] == s[..|start|];
  }

  lemma MagicIn(seen: seq<byte>, head: seq<byte>, chunk: seq<byte>)
    requires |head| == 8 && |chunk| == 16
    ensures (seen + chunk)[|seen|..|seen| + 4] == (head + chunk)[8..12]
  {
  }

  /** The four bytes read when the pipe's type is found out. */
  lemma FirstFour()
    ensures Blocks(INITIAL_BUFFER_SIZE, Bytes32(BLOCK_TYPE_SHB)) == Framed([], INITIAL_BUFFER_SIZE, Bytes32(BLOCK_TYPE_SHB), None)
    ensures Asks(INITIAL_BUFFER_SIZE, Bytes32(BLOCK_TYPE_SHB), BLOCK_HEADER_SIZE)
  {
  }

  lemma HeaderHeld(first: seq<byte>, consumed: seq<byte>, held: seq<byte>)
    requires first == Bytes32(BLOCK_TYPE_SHB) && first <= held && |held| == BLOCK_HEADER_SIZE
    requires consumed == first + held[4..]
    ensures consumed == held && BlockType(held) == BLOCK_TYPE_SHB
    ensures Blocks(INITIAL_BUFFER_SIZE, held) == HeaderOutcome([], INITIAL_BUFFER_SIZE, held)
  {
    FirstFour();
    var chunk := held[|first|..];
    assert held == first + chunk && held[0..4] == first;
    HeaderRead(INITIAL_BUFFER_SIZE, first, chunk, held);
    U32OfBytes32(BLOCK_TYPE_SHB);
  }

  lemma LengthKept(seen: seq<byte>, consumed: seq<byte>)
    requires |seen| == BLOCK_HEADER_SIZE && seen <= consumed
    ensures U32(consumed[4..8]) == BlockLength(seen)
  {
    assert consumed[4..8] == seen[4..8];
  }

  class PcapngSource {
    const pipe: Pipe
    var databuf: array<byte>
    var state: PipeState
    var bytesToRead: nat
    var bytesRead: nat
    var blockType: uint32
    var blockLength: uint32
    var err: PipeErr
    /** The source would have written outside its buffer; the model stops there. */
    var overrun: bool
    /** What the block callback has been given. */
    var delivered: seq<seq<byte>>
    /** Every byte taken from the pipe, those of the unfinished block, and the buffer size before it. */
    ghost var consumed: seq<byte>
    ghost var held: seq<byte>
    ghost var size: nat

    ghost function Reference(): Framed<nat, seq<byte>, Refusal>
      reads this`consumed
    {
      Blocks(INITIAL_BUFFER_SIZE, consumed)
    }

    /** The bytes held are the first ones in the buffer. */
    ghost predicate InBuffer()
      reads this, databuf
    {
      bytesRead == |held| <= databuf.Length && databuf[..bytesRead] == held
    }

    /** A section header's fixed part has been read and is in this host's byte order. */
    ghost predicate SectionAnnounced()
      reads this, databuf
    {
      && |held| == SHB_FIXED_SIZE && InBuffer() && U32(held[8..12]) == PCAPNG_MAGIC
      && databuf.Length == size && Reference() == SectionOutcome(delivered, size, held)
    }

    /** Another block's header has been read; the buffer has been grown for it, which a length
        above 2^31 turns into freeing it. */
    ghost predicate BlockAnnounced()
      reads this, databuf
    {
      && |held| == BLOCK_HEADER_SIZE && databuf.Length == Grown(size, blockLength)
      && (blockLength <= databuf.Length ==> InBuffer())
      && HeaderRefusal(size, blockType, blockLength) in {None, Some(BufferOverrun)}
      && Reference() == HeaderOutcome(delivered, size, held)
    }

    ghost predicate Announced()
      reads this, databuf
    {
      && |held| >= BLOCK_HEADER_SIZE && blockType == BlockType(held) && blockLength == BlockLength(held)
      && (if blockType == BLOCK_TYPE_SHB then SectionAnnounced() else BlockAnnounced())
    }

    /** A section header in another byte order, whose error return is ignored: the reader neither
        advances nor reports anything from here on. */
    ghost predicate Stuck()
      reads this, databuf
    {
      && state == ReadRecHdr && bytesToRead == SHB_FIXED_SIZE == |held| && InBuffer()
      && BlockType(held) == BLOCK_TYPE_SHB && U32(held[8..12]) != PCAPNG_MAGIC
      && databuf.Length == size && Reference() == SectionOutcome(delivered, size, held)
    }

    /** Between two calls, with no error reported. */
    ghost predicate Waiting()
      reads this, databuf
    {
      match state
      case ExpectRecHdr => databuf.Length == size && Reference() == Framed(delivered, size, [], None)
      case ExpectData => Announced()
      case ReadRecHdr => Stuck()
      case ReadData => false
    }

    ghost predicate Valid()
      reads this, databuf
    {
      if err == PipOk then !overrun && size >= INITIAL_BUFFER_SIZE && Waiting()
      else delivered == Reference().items && ReasonKnown()
    }

    /** What an error tells of the reason for which the framing stops, if it does. */
    ghost predicate ReasonKnown()
      reads this
    {
      && (overrun <==> Reference().stop == Some(BufferOverrun))
      && (Reference().stop == Some(BlockTooShort) ==> err == PipEof)
    }

    /** A reader that is not at fault with an error is stuck exactly if the framing of what it has read
        stops at a section header in another byte order. */
    lemma StuckIff()
      requires Valid() && err == PipOk
      ensures Stuck() <==> Reference().stop == Some(ForeignOrder)
    {
    }

    /** A source whose first four bytes, the type of a section header, have just been read. */
    constructor (pipe: Pipe)
      ensures this.pipe == pipe && fresh(databuf) && databuf.Length == size == 2048
      ensures err == PipOk && !overrun && delivered == [] && state == ExpectRecHdr
      ensures consumed == held == databuf[..4] == Bytes32(BLOCK_TYPE_SHB) && bytesRead == 4
    {
      this.pipe := pipe;
      var buf := new byte[INITIAL_BUFFER_SIZE];
      var t := Bytes32(BLOCK_TYPE_SHB);
      buf[0], buf[1], buf[2], buf[3] := t[0], t[1], t[2], t[3];
      databuf := buf;
      state, bytesToRead, bytesRead, blockType, blockLength := ExpectRecHdr, 0, 4, 0, 0;
      err, overrun, delivered := PipOk, false, [];
      consumed, held, size := t, t, INITIAL_BUFFER_SIZE;
    }

    /** Read until bytesToRead bytes are in the buffer, however many reads that takes; on end of
        file or error what was read of them is lost. */
    method ReadDataBytes() returns (ok: bool)
      requires bytesToRead <= databuf.Length && bytesRead <= databuf.Length
      modifies this`bytesRead, this`err, this`consumed, pipe, databuf
      ensures databuf[..old(bytesRead)] == old(databuf[..bytesRead])
      ensures old(consumed) <= consumed && old(consumed + pipe.pending) == consumed + pipe.pending
      ensures ok ==> err == old(err) && old(bytesRead) <= bytesRead <= databuf.Length
      ensures ok ==> bytesRead == if old(bytesRead) < bytesToRead then bytesToRead else old(bytesRead)
      ensures ok ==> consumed == old(consumed) + databuf[old(bytesRead)..bytesRead]
      ensures !ok ==> old(bytesRead) < bytesToRead && |consumed| - |old(consumed)| < bytesToRead - old(bytesRead)
      ensures !ok ==> bytesRead == old(bytesRead) && ((err == PipErr && pipe.failed) || (err == PipEof && pipe.pending == []))
    {
      var got := 0;
      ghost var start, taken: seq<byte> := databuf[..bytesRead], [];
      while got < bytesToRead - bytesRead
        invariant err == old(err) && bytesRead == old(bytesRead) && got == |taken|
        invariant (got <= bytesToRead - bytesRead || got == 0) && bytesRead + got <= databuf.Length
        invariant databuf[..bytesRead + got] == start + taken && consumed == old(consumed) + taken
        invariant old(consumed + pipe.pending) == consumed + pipe.pending
      {
        ghost var chunk;
        var b;
        b, chunk := ReadSome(got);
        if b <= 0 {
          err := if b == 0 then PipEof else PipErr;
          StartOf(databuf[..], start, taken);
          return false;
        }
        Associate(start, taken, chunk);
        Associate(old(consumed), taken, chunk);
        taken := taken + chunk;
        got := got + b;
      }
      StartOf(databuf[..], start, taken);
      bytesRead := bytesRead + got;
      return true;
    }

    /** One read, after got bytes of this request have been read. */
    method ReadSome(got: nat) returns (b: int, ghost chunk: seq<byte>)
      requires bytesRead + got < bytesToRead <= databuf.Length
      modifies this`consumed, pipe, databuf
      ensures -1 <= b <= bytesToRead - bytesRead - got && (b == 0 ==> pipe.pending == []) && (b < 0 ==> pipe.failed)
      ensures |chunk| == (if b > 0 then b else 0) && consumed == old(consumed) + chunk
      ensures databuf[..bytesRead + got + |chunk|] == old(databuf[..bytesRead + got]) + chunk
      ensures old(consumed + pipe.pending) == consumed + pipe.pending
    {
      var at := bytesRead + got;
      b := pipe.Read(databuf, at, bytesToRead - at);
      if b > 0 {
        chunk := databuf[at..at + b];
        consumed := consumed + chunk;
        assert databuf[..at + b] == databuf[..at] + chunk;
      } else {
        chunk := [];
        assert databuf[..at] == old(databuf[..at]);
      }
    }

    /** What was done with the pipe: bytes were only taken from its front. */
    twostate predicate Took()
      reads this, pipe
    {
      old(consumed) <= consumed && old(consumed + pipe.pending) == consumed + pipe.pending
    }

    /** Read on until n bytes of the block are held. */
    method Fill(n: nat) returns (ok: bool)
      requires err == PipOk && !overrun && InBuffer() && |held| < n <= databuf.Length
      requires Reference().stop.None? && Reference().rest == held && Reference().items == delivered
      requires Asks(Reference().state, held, n)
      modifies this`bytesToRead, this`bytesRead, this`err, this`consumed, this`held, pipe, databuf
      ensures Took() && bytesToRead == n
      ensures ok ==> err == PipOk && InBuffer() && |held| == n && old(held) <= held && |old(consumed)| < |consumed|
      ensures ok ==> old(consumed) + held[|old(held)|..] == consumed
      ensures !ok ==> |consumed| - |old(consumed)| < n - |old(held)|
      ensures !ok ==> Valid() && ((err == PipErr && pipe.failed) || (err == PipEof && pipe.pending == [])) && Reference().stop.None?
    {
      bytesToRead := n;
      ghost var seen := consumed;
      ok := ReadDataBytes();
      if ok {
        held := databuf[..n];
      } else {
        ghost var chunk := consumed[|seen|..];
        assert consumed == seen + chunk;
        PartRead(INITIAL_BUFFER_SIZE, seen, chunk, n);
      }
    }

    /** The fixed part of a section header, and its byte order. */
    method ReadShb() returns (ok: bool)
      requires err == PipOk && !overrun && size >= INITIAL_BUFFER_SIZE && databuf.Length == size
      requires state == ReadRecHdr && InBuffer() && |held| == BLOCK_HEADER_SIZE
      requires blockType == BlockType(held) == BLOCK_TYPE_SHB && blockLength == BlockLength(held)
      requires Reference() == HeaderOutcome(delivered, size, held)
      modifies this, pipe, databuf
      ensures Valid() && Took() && databuf == old(databuf) && delivered == old(delivered)
      ensures err == PipOk ==> |old(consumed)| < |consumed| && (if ok then state == ExpectData else Stuck())
      ensures err != PipOk ==> !ok && ((err == PipErr && pipe.failed) || (err == PipEof && pipe.pending == [])) && Reference().stop.None?
      ensures |consumed| <= |old(consumed)| + 16 && (err == PipOk <==> |consumed| == |old(consumed)| + 16)
      ensures err == PipOk ==> (ok <==> U32(consumed[|old(consumed)|..|old(consumed)| + 4]) == 0x1A2B3C4D)
    {
      ghost var seen, head := consumed, held;
      ok := Fill(SHB_FIXED_SIZE);
      if !ok {
        return false;
      }
      ghost var chunk := held[|head|..];
      assert held == head + chunk;
      MagicIn(seen, head, chunk);
      HeaderOfPrefix(head, chunk);
      SectionRead(INITIAL_BUFFER_SIZE, seen, chunk, held);
      assert databuf[8..12] == held[8..12];
      if U32(databuf[8..12]) != PCAPNG_MAGIC {
        return false;
      }
      state := ExpectData;
      return true;
    }

    /** Another block's header: refuse it, or make room for the block. */
    method HeaderComplete() returns (r: int)
      requires err == PipOk && !overrun && size >= INITIAL_BUFFER_SIZE && databuf.Length == size
      requires InBuffer() && |held| == BLOCK_HEADER_SIZE
      requires BLOCK_TYPE_SHB != blockType == BlockType(held) && blockLength == BlockLength(held)
      requires Reference() == HeaderOutcome(delivered, size, held)
      modifies this`databuf, this`state, this`err
      ensures Valid() && (databuf == old(databuf) || fresh(databuf))
      ensures r == (if err == PipOk then 0 else -1)
      ensures err == PipOk <==> blockLength % 4 == 0 && 12 <= blockLength && (HoldsData(blockType) ==> blockLength <= 262144)
      ensures err == PipOk ==> (blockLength <= databuf.Length <==> blockLength <= old(databuf.Length) || blockLength <= 0x8000_0000)
      ensures err != PipOk ==> Reference().stop == Some(if err == PipEof then BlockTooShort
                                                        else if blockLength % 4 != 0 then Misaligned else BlockTooLong)
    {
      HoldsDataIff(blockType);
      if blockLength % 4 != 0 {
        err := PipErr;
        return -1;
      }
      if IsDataBlock(blockType) && blockLength > WTAP_MAX_PACKET_SIZE_STANDARD {
        err := PipErr;
        return -1;
      }
      if blockLength > databuf.Length {
        RoundUpFitsIff(blockLength);
        Grow(blockLength);
      }
      if blockLength < MIN_BLOCK_SIZE {
        err := PipEof;
        return -1;
      }
      state := ExpectData;
      return 0;
    }

    /** Reallocate the buffer to the rounded-up size; what it holds survives if there is room. */
    method Grow(need: uint32)
      requires need > databuf.Length
      modifies this`databuf
      ensures fresh(databuf) && databuf.Length == RoundUp(need)
      ensures need <= databuf.Length ==> databuf[..old(databuf.Length)] == old(databuf[..])
    {
      var bigger := new byte[RoundUp(need)];
      var kept := if databuf.Length < bigger.Length then databuf.Length else bigger.Length;
      forall k | 0 <= k < kept {
        bigger[k] := databuf[k];
      }
      databuf := bigger;
    }

    method ReadHeader() returns (r: int)
      requires err == PipOk && !overrun && size >= INITIAL_BUFFER_SIZE && databuf.Length == size
      requires state == ReadRecHdr && |held| == bytesRead == 0
      requires Reference() == Framed(delivered, size, [], None)
      modifies this, pipe, databuf
      ensures Valid() && Took() && (databuf == old(databuf) || fresh(databuf)) && delivered == old(delivered)
      ensures err == PipOk ==> |old(consumed)| < |consumed|
      ensures r == -1 ==> err != PipOk
      ensures err == PipEof ==> pipe.pending == [] || Reference().stop == Some(BlockTooShort)
      ensures err == PipErr ==> pipe.failed || Reference().stop.Some?
      ensures err != PipOk ==> Reference().stop != Some(ForeignOrder)
    {
      ghost var seen := consumed;
      var ok := Fill(BLOCK_HEADER_SIZE);
      if !ok {
        return -1;
      }
      HeaderRead(INITIAL_BUFFER_SIZE, seen, held, held);
      var header := databuf[..BLOCK_HEADER_SIZE];
      blockType, blockLength := BlockType(header), BlockLength(header);
      if blockType == BLOCK_TYPE_SHB {
        ok := ReadShb();
        return 1;
      }
      r := HeaderComplete();
    }

    /** Read the rest of an announced block and deliver it. */
    method ReadBody() returns (r: int)
      requires Valid() && err == PipOk && state == ExpectData
      modifies this, pipe, databuf
      ensures Valid() && Took() && databuf == old(databuf)
      ensures r == (if err == PipOk then 1 else -1)
      ensures err == PipOk ==> |delivered| == |old(delivered)| + 1 && state == ExpectRecHdr
      ensures old(delivered) <= delivered && (err != PipOk ==> delivered == old(delivered))
      ensures err == PipEof ==> pipe.pending == []
      ensures err == PipErr ==> pipe.failed || Reference().stop.Some?
      ensures err != PipOk ==> Reference().stop != Some(ForeignOrder)
    {
      if blockLength > databuf.Length {
        Overrun();
        return -1;
      }
      state := ReadData;
      var ok := HoldBody();
      if !ok {
        return -1;
      }
      DeliverBlock();
      return 1;
    }

    /** The block does not fit the buffer: the model goes no further. */
    method Overrun()
      requires Valid() && err == PipOk && state == ExpectData && blockLength > databuf.Length
      modifies this`state, this`overrun, this`err
      ensures Valid() && err == PipErr && Reference().stop == Some(BufferOverrun)
    {
      state, overrun, err := ReadData, true, PipErr;
    }

    /** Read what is missing of the block, if anything is. */
    method HoldBody() returns (ok: bool)
      requires err == PipOk && !overrun && Announced() && blockLength <= databuf.Length
      modifies this`bytesToRead, this`bytesRead, this`err, this`consumed, this`held, pipe, databuf
      ensures Took() && blockLength <= databuf.Length
      ensures !ok ==> Valid() && ((err == PipErr && pipe.failed) || (err == PipEof && pipe.pending == [])) && Reference().stop.None?
      ensures ok ==> err == PipOk
      ensures ok ==> Reference() == Framed(delivered + [databuf[..blockLength]], databuf.Length, [], None)
    {
      if blockLength > bytesRead {
        ok := FillBody();
      } else {
        ShortIsWhole();
        ok := true;
      }
    }

    /** A section header no longer than its fixed part has been read whole. */
    lemma ShortIsWhole()
      requires err == PipOk && Announced() && blockLength <= bytesRead && blockLength <= databuf.Length
      ensures Reference() == Framed(delivered + [databuf[..blockLength]], databuf.Length, [], None)
    {
      assert held[..blockLength] == databuf[..blockLength];
    }

    method FillBody() returns (ok: bool)
      requires err == PipOk && !overrun && Announced() && bytesRead < blockLength <= databuf.Length
      modifies this`bytesToRead, this`bytesRead, this`err, this`consumed, this`held, pipe, databuf
      ensures Took() && blockLength <= databuf.Length
      ensures !ok ==> Valid() && ((err == PipErr && pipe.failed) || (err == PipEof && pipe.pending == [])) && Reference().stop.None?
      ensures ok ==> err == PipOk
      ensures ok ==> Reference() == Framed(delivered + [databuf[..blockLength]], databuf.Length, [], None)
    {
      ghost var seen, head := consumed, held;
      ok := Fill(blockLength);
      if ok {
        ghost var chunk := held[|head|..];
        assert held == head + chunk;
        BodyRead(INITIAL_BUFFER_SIZE, seen, chunk, head, held);
      }
    }

    method DeliverBlock()
      requires err == PipOk && !overrun && databuf.Length >= INITIAL_BUFFER_SIZE && blockLength <= databuf.Length
      requires Reference() == Framed(delivered + [databuf[..blockLength]], databuf.Length, [], None)
      modifies this`delivered, this`held, this`size, this`state
      ensures Valid() && state == ExpectRecHdr && delivered == old(delivered) + [databuf[..blockLength]]
    {
      delivered := delivered + [databuf[..blockLength]];
      held, size := [], databuf.Length;
      state := ExpectRecHdr;
    }

    /** The section header in another byte order is looked at again: nothing is left to read of it,
        and the error is ignored again. */
    method ReadAgain() returns (r: int)
      requires Valid() && err == PipOk && Stuck()
      modifies this, pipe, databuf
      ensures Valid() && Stuck() && r == 1 && err == PipOk && databuf == old(databuf)
      ensures consumed == old(consumed) && pipe.pending == old(pipe.pending) && delivered == old(delivered)
    {
      var ok := ReadDataBytes();
      var header := databuf[..BLOCK_HEADER_SIZE];
      blockType, blockLength := BlockType(header), BlockLength(header);
      assert consumed == old(consumed);
      bytesToRead := SHB_FIXED_SIZE;
      ok := ReadDataBytes();
      assert consumed == old(consumed);
      assert pipe.pending == (consumed + pipe.pending)[|consumed|..];
      assert databuf[8..12] == held[8..12];
      assert U32(databuf[8..12]) != PCAPNG_MAGIC;
      return 1;
    }

    /** One call of the dispatcher. It reports success although a section header is in another
        byte order, and then reads nothing more. */
    method Dispatch() returns (r: int)
      requires Valid() && err == PipOk
      modifies this, pipe, databuf
      ensures Valid() && Took() && (databuf == old(databuf) || fresh(databuf))
      ensures r == -1 ==> err != PipOk
      ensures old(delivered) <= delivered && |delivered| <= |old(delivered)| + 1
      ensures err != PipOk ==> delivered == old(delivered)
      ensures err == PipOk ==>
                if old(Stuck()) then Stuck() && r == 1 && consumed == old(consumed) && delivered == old(delivered)
                else |old(consumed)| < |consumed|
                     || (old(state) == ExpectData && state == ExpectRecHdr && |old(delivered)| < |delivered|)
      ensures old(Stuck()) ==> err == PipOk
      ensures err == PipEof ==> pipe.pending == [] || Reference().stop == Some(BlockTooShort)
      ensures err == PipErr ==> pipe.failed || Reference().stop.Some?
      ensures err != PipOk ==> Reference().stop != Some(ForeignOrder)
    {
      if state == ExpectData {
        r := ReadBody();
      } else if state == ExpectRecHdr {
        r := NextHeader();
      } else {
        r := ReadAgain();
      }
    }

    method NextHeader() returns (r: int)
      requires Valid() && err == PipOk && state == ExpectRecHdr
      modifies this, pipe, databuf
      ensures Valid() && Took() && (databuf == old(databuf) || fresh(databuf)) && delivered == old(delivered)
      ensures err == PipOk ==> |old(consumed)| < |consumed|
      ensures r == -1 ==> err != PipOk
      ensures err == PipEof ==> pipe.pending == [] || Reference().stop == Some(BlockTooShort)
      ensures err == PipErr ==> pipe.failed || Reference().stop.Some?
      ensures err != PipOk ==> Reference().stop != Some(ForeignOrder)
    {
      state, bytesToRead, bytesRead := ReadRecHdr, BLOCK_HEADER_SIZE, 0;
      held := [];
      r := ReadHeader();
    }

    /** Opening the pipe: the rest of the initial section header's fixed part. Unlike in the middle
        of the stream, its length must be a multiple of four and its byte order this host's. */
    method OpenLive()
      requires err == PipOk && !overrun && delivered == [] && size == databuf.Length == INITIAL_BUFFER_SIZE
      requires state == ExpectRecHdr && bytesRead == 4
      requires consumed == held == databuf[..4] == Bytes32(BLOCK_TYPE_SHB)
      modifies this, pipe, databuf
      ensures Valid() && Took() && databuf == old(databuf) && delivered == []
      ensures err == PipOk ==> state == ExpectData
      ensures err != PipEof && |consumed| <= 24
      ensures err == PipOk <==> |consumed| == 24 && U32(consumed[4..8]) % 4 == 0 && U32(consumed[8..12]) == 0x1A2B3C4D
      ensures |consumed| < 24 ==> pipe.failed || pipe.pending == [] || (|consumed| == 8 && U32(consumed[4..8]) % 4 != 0)
    {
      FirstFour();
      ghost var first := held;
      var ok := ReadFirstHeader();
      if !ok {
        err := PipErr;
        return;
      }
      HeaderHeld(first, consumed, held);
      if blockLength % 4 != 0 {
        err := PipErr;
        return;
      }
      ghost var seen := consumed;
      state := ReadRecHdr;
      OpenSection();
      LengthKept(seen, consumed);
    }

    /** The byte order of the first section header. */
    method OpenSection()
      requires err == PipOk && !overrun && size >= INITIAL_BUFFER_SIZE && databuf.Length == size
      requires state == ReadRecHdr && InBuffer() && |held| == BLOCK_HEADER_SIZE == |consumed|
      requires blockType == BlockType(held) == BLOCK_TYPE_SHB && blockLength == BlockLength(held)
      requires Reference() == HeaderOutcome(delivered, size, held)
      modifies this, pipe, databuf
      ensures Valid() && Took() && databuf == old(databuf) && delivered == old(delivered)
      ensures err != PipEof && (err == PipOk ==> state == ExpectData) && |consumed| <= 24
      ensures err == PipOk <==> |consumed| == 24 && U32(consumed[8..12]) == 0x1A2B3C4D
      ensures |consumed| < 24 ==> pipe.failed || pipe.pending == []
    {
      var ok := ReadShb();
      if !ok {
        err := PipErr;
      }
    }

    /** The length of the first section header. */
    method ReadFirstHeader() returns (ok: bool)
      requires err == PipOk && !overrun && size == databuf.Length == INITIAL_BUFFER_SIZE
      requires InBuffer() && |held| == 4 == |consumed| && Reference() == Framed(delivered, size, held, None)
      modifies this`bytesToRead, this`bytesRead, this`err, this`consumed, this`held, this`blockType, this`blockLength, pipe, databuf
      ensures Took() && (!ok ==> delivered == Reference().items && Reference().stop.None?)
      ensures !ok ==> |consumed| < 8 && (pipe.failed || pipe.pending == [])
      ensures ok ==> err == PipOk && InBuffer() && |held| == BLOCK_HEADER_SIZE && old(held) <= held
      ensures ok ==> old(consumed) + held[4..] == consumed
      ensures ok ==> blockType == BlockType(held) && blockLength == BlockLength(held)
    {
      ok := Fill(BLOCK_HEADER_SIZE);
      if ok {
        var header := databuf[..BLOCK_HEADER_SIZE];
        blockType, blockLength := BlockType(header), BlockLength(header);
      }
    }

    /** The reader's loop on one pipe, up to end of file, an error, or a section header it cannot
        get past (from where the source's loop calls the dispatcher without effect). Unless a read
        fails, it gets stuck exactly on a stream whose framing stops at a section header in another
        byte order. */
    method ReadAll()
      requires Valid() && err == PipOk
      modifies this, pipe, databuf
      ensures Valid() && Took() && (err != PipOk || Stuck()) && (err != PipOk ==> Reference().stop != Some(ForeignOrder))
      ensures err == PipEof ==> pipe.pending == [] || Reference().stop == Some(BlockTooShort)
      ensures err == PipErr ==> pipe.failed || Reference().stop.Some?
      ensures err != PipErr ==>
                (Stuck() && err == PipOk <==> Blocks(INITIAL_BUFFER_SIZE, old(consumed + pipe.pending)).stop == Some(ForeignOrder))
      ensures delivered <= Blocks(INITIAL_BUFFER_SIZE, old(consumed + pipe.pending)).items
    {
      ghost var stream := consumed + pipe.pending;
      while err == PipOk && state != ReadRecHdr
        invariant Valid() && Took() && (databuf == old(databuf) || fresh(databuf))
        invariant err == PipEof ==> pipe.pending == [] || Reference().stop == Some(BlockTooShort)
        invariant err == PipErr ==> pipe.failed || Reference().stop.Some?
        invariant err != PipOk ==> Reference().stop != Some(ForeignOrder)
        decreases |pipe.pending|, if err == PipOk then 1 else 0, if state == ExpectData then 1 else 0
      {
        var r := DispatchOnce();
      }
      Outcome(stream);
    }

    /** What the reader has come to, in terms of the whole stream. */
    lemma Outcome(stream: seq<byte>)
      requires Valid() && (err != PipOk || Stuck()) && stream == consumed + pipe.pending
      requires err == PipEof ==> pipe.pending == [] || Reference().stop == Some(BlockTooShort)
      requires err != PipOk ==> Reference().stop != Some(ForeignOrder)
      ensures err != PipErr ==> (err == PipOk <==> Blocks(INITIAL_BUFFER_SIZE, stream).stop == Some(ForeignOrder))
      ensures delivered <= Blocks(INITIAL_BUFFER_SIZE, stream).items
    {
      StopKept(INITIAL_BUFFER_SIZE, consumed, pipe.pending);
      if err == PipOk {
        StuckIff();
        assert delivered == Reference().items;
      } else if pipe.pending == [] {
        assert stream == consumed;
      }
    }

    /** Dispatch, as the loop needs it. */
    method DispatchOnce() returns (r: int)
      requires Valid() && err == PipOk && !Stuck()
      modifies this, pipe, databuf
      ensures Valid() && Took() && (databuf == old(databuf) || fresh(databuf))
      ensures err == PipEof ==> pipe.pending == [] || Reference().stop == Some(BlockTooShort)
      ensures err == PipErr ==> pipe.failed || Reference().stop.Some?
      ensures err != PipOk ==> Reference().stop != Some(ForeignOrder)
      ensures |pipe.pending| <= |old(pipe.pending)|
      ensures err == PipOk && |pipe.pending| == |old(pipe.pending)| ==> old(state) == ExpectData && state == ExpectRecHdr
      ensures old(delivered) <= delivered && |delivered| <= |old(delivered)| + 1
      ensures err != PipOk ==> delivered == old(delivered)
    {
      r := Dispatch();
    }

    /** On a well-formed stream the callback is given exactly its blocks, in order and byte for
        byte, whatever the sizes of the reads: all of them at end of file, the first ones if a
        read fails. */
    method ReadStream(ghost sizes: seq<nat>, ghost blocks: seq<seq<byte>>)
      requires Valid() && err == PipOk
      requires Sizes(sizes, blocks) && sizes[0] == 2048 && consumed + pipe.pending == Concat(blocks)
      modifies this, pipe, databuf
      ensures err == PipEof ==> delivered == blocks
      ensures err == PipErr ==> pipe.failed && delivered <= blocks && !overrun
      ensures err != PipOk
    {
      ReadAll();
      PartOfStream(sizes, blocks, consumed, pipe.pending);
    }

    /** On well-formed blocks followed by a section header in another byte order, the reader delivers
        the blocks and gets stuck, unless a read fails. */
    method ReadForeign(ghost sizes: seq<nat>, ghost blocks: seq<seq<byte>>, ghost head: seq<byte>)
      requires Valid() && err == PipOk
      requires Sizes(sizes, blocks) && sizes[0] == 2048 && consumed + pipe.pending == Concat(blocks) + head
      requires |head| >= SHB_FIXED_SIZE && BlockType(head) == BLOCK_TYPE_SHB && U32(head[8..12]) != PCAPNG_MAGIC
      modifies this, pipe, databuf
      ensures err != PipEof && delivered <= blocks
      ensures err == PipOk ==> Stuck() && delivered == blocks
      ensures err == PipErr ==> pipe.failed
    {
      ghost var stream := consumed + pipe.pending;
      ForeignAfter(sizes, blocks, head);
      ReadAll();
      StopKept(INITIAL_BUFFER_SIZE, consumed, pipe.pending);
      if err == PipOk {
        StuckIff();
        assert delivered == Reference().items;
      }
    }
  }
}
