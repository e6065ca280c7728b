/** The resumable reader of a pcap stream: pcap_pipe_dispatch and what it calls. */
module PcapPipe {
  import opened Bytes
  import opened Framing
  import opened PcapFormat
  import opened Pipes
  import opened PowerOfTwo

  const INITIAL_BUFFER_SIZE: nat := 2048

  /** Store a native 32-bit field. */
  method Store(a: array<byte>, at: nat, n: uint32)
    requires at + 4 <= a.Length
    modifies a
    ensures a[..] == old(a[..at]) + Bytes32(n) + old(a[at + 4..])
  {
    var b := Bytes32(n);
    a[at], a[at + 1], a[at + 2], a[at + 3] := b[0], b[1], b[2], b[3];
  }

  lemma StoredField(s: seq<byte>, at: nat, n: uint32)
    requires 24 == |s| && at in {0, 4, 8, 12}
    ensures FieldsOf(s[..at] + Bytes32(n) + s[at + 4..])
         == var h := FieldsOf(s);
            if at == 0 then h.(tsSec := n) else if at == 4 then h.(tsUsec := n)
            else if at == 8 then h.(inclLen := n) else h.(origLen := n)
  {
    var t := s[..at] + Bytes32(n) + s[at + 4..];
    FieldsAt(s); FieldsAt(t);
    U32OfBytes32(n);
    assert t[at..at + 4] == Bytes32(n);
    OtherWord(s, at, Bytes32(n), 0);
    OtherWord(s, at, Bytes32(n), 4);
    OtherWord(s, at, Bytes32(n), 8);
    OtherWord(s, at, Bytes32(n), 12);
  }

  lemma OtherWord(s: seq<byte>, at: nat, b: seq<byte>, k: nat)
    requires |s| == 24 && |b| == 4 && at <= 20 && k <= 20 && (k != at ==> k + 4 <= at || at + 4 <= k)
    ensures k != at ==> (s[..at] + b + s[at + 4..])[k..k + 4] == s[k..k + 4]
  {
  }

  method SetFields(a: array<byte>, h: RecHdr)
    requires a.Length == 24
    modifies a
    ensures FieldsOf(a[..]) == h
  {
    ghost var s := a[..];
    Store(a, 0, h.tsSec);
    StoredField(s, 0, h.tsSec);
    s := a[..];
    Store(a, 4, h.tsUsec);
    StoredField(s, 4, h.tsUsec);
    s := a[..];
    Store(a, 8, h.inclLen);
    StoredField(s, 8, h.inclLen);
    s := a[..];
    Store(a, 12, h.origLen);
    StoredField(s, 12, h.origLen);
  }

  method SwapLengths(rechdr: array<byte>)
    requires rechdr.Length == 24
    modifies rechdr
    ensures FieldsOf(rechdr[..])
         == var h := FieldsOf(old(rechdr[..])); h.(inclLen := h.origLen, origLen := h.inclLen)
  {
    var h := FieldsOf(rechdr[..]);
    var temp := h.origLen;
    ghost var s := rechdr[..];
    Store(rechdr, 12, h.inclLen);
    StoredField(s, 12, h.inclLen);
    s := rechdr[..];
    Store(rechdr, 8, temp);
    StoredField(s, 8, temp);
  }

  /** Put a record header in order, in the memory it was read into. */
  method AdjustPcapHeader(f: Format, rechdr: array<byte>)
    requires rechdr.Length == 24
    modifies rechdr
    ensures FieldsOf(rechdr[..]) == Adjust(f, FieldsOf(old(rechdr[..])))
  {
    var h := FieldsOf(rechdr[..]);
    if f.byteSwapped {
      h := SwapFields(h);
      SetFields(rechdr, h);
    }
    if f.major == 2 && (f.minor < 3 || (f.minor == 3 && h.inclLen > h.origLen)) {
      SwapLengths(rechdr);
    }
  }

  class PcapSource {
    const format: Format
    const pipe: Pipe
    const rechdr: array<byte>
    var databuf: array<byte>
    var state: PipeState
    var bytesToRead: nat
    var bytesRead: nat
    var err: PipeErr
    /** What the packet callback has been given. */
    var delivered: seq<Record>
    /** Every byte taken from the pipe, and the header bytes of the record being read. */
    ghost var consumed: seq<byte>
    ghost var rawHeader: seq<byte>
    ghost var header: RecHdr

    /** The bytes of the unfinished record are where the state says they are. */
    ghost predicate Holds(rest: seq<byte>)
      reads this, rechdr, databuf
      requires rechdr.Length == 24
    {
      match state
      case ExpectRecHdr => rest == []
      case ReadRecHdr => bytesToRead == HeaderSize(format) && bytesRead < bytesToRead && rest == rechdr[..bytesRead]
      case ExpectData => HeaderKnown() && rest == rawHeader
      case ReadData =>
        && HeaderKnown()
        && bytesToRead == header.inclLen && bytesRead < bytesToRead && rest == rawHeader + databuf[..bytesRead]
    }

    /** The header in memory is the one read, adjusted once, and its data fits the buffer. */
    ghost predicate HeaderKnown()
      reads this, rechdr, databuf
      requires rechdr.Length == 24
    {
      && header == FieldsOf(rechdr[..]) && Announces(format, rawHeader, header)
      && header.inclLen <= databuf.Length
    }

    ghost predicate Valid()
      reads this, rechdr, databuf
    {
      && rechdr.Length == 24 && databuf != rechdr && IsPow2(databuf.Length)
      && delivered == Records(format, consumed).items
      && (err == PipOk ==> Records(format, consumed).stop.None? && Holds(Records(format, consumed).rest))
    }

    constructor (format: Format, pipe: Pipe)
      ensures Valid() && fresh(databuf) && fresh(rechdr)
      ensures this.format == format && this.pipe == pipe
      ensures err == PipOk && delivered == [] && consumed == [] && databuf.Length == 2048
    {
      this.format, this.pipe := format, pipe;
      rechdr := new byte[24];
      databuf := new byte[INITIAL_BUFFER_SIZE];
      state, bytesToRead, bytesRead, err := ExpectRecHdr, 0, 0, PipOk;
      delivered, consumed, rawHeader, header := [], [], [], RecHdr(0, 0, 0, 0);
      new;
      assert Pow2(11) == INITIAL_BUFFER_SIZE;
    }

    /** Grow the buffer to hold need bytes, rounded up to a power of two; what it holds survives. */
    method Grow(need: uint32)
      requires 0 < need <= 0x8000_0000 && need > databuf.Length
      modifies this`databuf
      ensures fresh(databuf) && databuf.Length == RoundUp(need)
      ensures need <= databuf.Length && IsPow2(databuf.Length)
      ensures databuf[..old(databuf.Length)] == old(databuf[..])
    {
      RoundUpIsLeastPowerOfTwo(need);
      var size := RoundUp(need);
      var bigger := new byte[size];
      forall k | 0 <= k < databuf.Length {
        bigger[k] := databuf[k];
      }
      databuf := bigger;
    }

    /** One call of the dispatcher: it reads once, and delivers a record as soon as one is whole.
        1: a record was delivered, 0: more to read, -1: end of file or error. */
    method Dispatch() returns (r: int)
      requires Valid() && err == PipOk
      modifies this, pipe, rechdr, databuf
      ensures Valid() && (databuf == old(databuf) || fresh(databuf)) && databuf.Length >= old(databuf.Length)
      ensures Progress(old(consumed), old(pipe.pending), old(delivered), r)
    {
      if state == ExpectRecHdr {
        state, bytesToRead, bytesRead := ReadRecHdr, HeaderSize(format), 0;
      } else if state == ExpectData {
        state, bytesToRead, bytesRead := ReadData, FieldsOf(rechdr[..]).inclLen, 0;
      }
      if state == ReadRecHdr {
        r := ReadHeaderBytes();
      } else {
        r := ReadDataBytes();
      }
    }

    /** What a dispatch that returns r did: every successful one consumed something, a record is
        delivered exactly on 1, and end of file is reported only when nothing is left. */
    ghost predicate Progress(seen: seq<byte>, toCome: seq<byte>, given: seq<Record>, r: int)
      reads this, pipe
    {
      && r in {-1, 0, 1} && (r == -1 <==> err != PipOk)
      && seen <= consumed && toCome == consumed[|seen|..] + pipe.pending
      && (r >= 0 ==> |seen| < |consumed|)
      && (if r == 1 then |delivered| == |given| + 1 && given <= delivered else delivered == given)
      && (err == PipEof ==> consumed == seen && pipe.pending == [] && Records(format, consumed).stop.None?)
      && (err == PipErr ==> (consumed == seen && pipe.failed) || Records(format, consumed).stop.Some?)
    }

    method ReadHeaderBytes() returns (r: int)
      requires Valid() && err == PipOk && state == ReadRecHdr
      modifies this, pipe, rechdr, databuf
      ensures Valid() && (databuf == old(databuf) || fresh(databuf)) && databuf.Length >= old(databuf.Length)
      ensures Progress(old(consumed), old(pipe.pending), old(delivered), r)
    {
      var b := pipe.Read(rechdr, bytesRead, bytesToRead - bytesRead);
      if b <= 0 {
        assert rechdr[..bytesRead] == old(rechdr[..bytesRead]);
        err := if b == 0 then PipEof else PipErr;
        return -1;
      }
      r := HeaderArrived(rechdr[bytesRead..bytesRead + b]);
    }

    /** The bytes of chunk have been read after those of the header already there. */
    method HeaderArrived(chunk: seq<byte>) returns (r: int)
      requires rechdr.Length == 24 && databuf != rechdr && IsPow2(databuf.Length) && err == PipOk && state == ReadRecHdr
      requires |chunk| > 0 && bytesRead + |chunk| <= bytesToRead == HeaderSize(format)
      requires chunk == rechdr[bytesRead..bytesRead + |chunk|]
      requires Records(format, consumed) == Framed(delivered, (), rechdr[..bytesRead], None)
      modifies this, rechdr
      ensures Valid() && (databuf == old(databuf) || fresh(databuf)) && databuf.Length >= old(databuf.Length)
      ensures consumed == old(consumed) + chunk && r in {-1, 0, 1} && (r == -1 <==> err != PipOk)
      ensures if r == 1 then |delivered| == |old(delivered)| + 1 && old(delivered) <= delivered
              else delivered == old(delivered)
      ensures err != PipOk ==> err == PipErr && Records(format, consumed).stop.Some?
    {
      ghost var held := rechdr[..bytesRead + |chunk|];
      assert rechdr[..bytesRead] + chunk == held;
      HeaderRead(format, consumed, chunk, held);
      bytesRead := bytesRead + |chunk|;
      consumed := consumed + chunk;
      if bytesRead < bytesToRead {
        return 0;
      }
      r := HeaderComplete();
    }

    method HeaderComplete() returns (r: int)
      requires rechdr.Length == 24 && databuf != rechdr && IsPow2(databuf.Length) && err == PipOk
      requires HeaderOutcome(format, consumed, delivered, rechdr[..HeaderSize(format)])
      modifies this, rechdr
      ensures Valid() && (databuf == old(databuf) || fresh(databuf)) && databuf.Length >= old(databuf.Length)
      ensures consumed == old(consumed) && r in {-1, 0, 1} && (r == -1 <==> err != PipOk)
      ensures if r == 1 then |delivered| == |old(delivered)| + 1 && old(delivered) <= delivered
              else delivered == old(delivered)
      ensures err != PipOk ==> err == PipErr && Records(format, consumed).stop.Some?
    {
      rawHeader := rechdr[..HeaderSize(format)];
      assert rechdr[..] == rawHeader + rechdr[HeaderSize(format)..];
      FieldsOfPrefix(rawHeader, rechdr[HeaderSize(format)..]);
      AdjustPcapHeader(format, rechdr);
      var h := FieldsOf(rechdr[..]);
      header := HeaderOf(format, rawHeader);
      if h.inclLen > MaxPacketSize(format) {
        err := PipErr;
        return -1;
      }
      if h.inclLen > databuf.Length {
        Grow(h.inclLen);
      }
      if h.inclLen != 0 {
        state := ExpectData;
        return 0;
      }
      delivered := delivered + [RecordOf(h, databuf[..h.inclLen])];
      state := ExpectRecHdr;
      return 1;
    }

    method ReadDataBytes() returns (r: int)
      requires Valid() && err == PipOk && state == ReadData
      modifies this, pipe, databuf
      ensures Valid() && databuf == old(databuf)
      ensures Progress(old(consumed), old(pipe.pending), old(delivered), r)
    {
      var b := pipe.Read(databuf, bytesRead, bytesToRead - bytesRead);
      if b <= 0 {
        err := if b == 0 then PipEof else PipErr;
        return -1;
      }
      r := DataArrived(databuf[bytesRead..bytesRead + b]);
    }

    /** The bytes of chunk have been read into the buffer after those already there. */
    method DataArrived(chunk: seq<byte>) returns (r: int)
      requires rechdr.Length == 24 && databuf != rechdr && IsPow2(databuf.Length) && HeaderKnown()
      requires err == PipOk && state == ReadData && |chunk| > 0
      requires bytesRead + |chunk| <= bytesToRead == header.inclLen && chunk == databuf[bytesRead..bytesRead + |chunk|]
      requires Records(format, consumed) == Framed(delivered, (), rawHeader + databuf[..bytesRead], None)
      modifies this`bytesRead, this`consumed, this`delivered, this`state
      ensures Valid() && r in {0, 1}
      ensures consumed == old(consumed) + chunk
      ensures delivered == if r == 1 then old(delivered) + [RecordOf(header, databuf[..header.inclLen])] else old(delivered)
    {
      ghost var data := databuf[..bytesRead + |chunk|];
      assert databuf[..bytesRead] + chunk == data;
      Associate(rawHeader, databuf[..bytesRead], chunk);
      DataRead(format, consumed, chunk, rawHeader, header, data);
      bytesRead := bytesRead + |chunk|;
      consumed := consumed + chunk;
      if bytesRead < bytesToRead {
        return 0;
      }
      delivered := delivered + [RecordOf(FieldsOf(rechdr[..]), databuf[..bytesToRead])];
      state := ExpectRecHdr;
      return 1;
    }

    /** The reader's loop on one pipe: whatever the sizes of the reads, it ends, and what was
        delivered is the framing of what was read; at end of file that is the whole stream. */
    method ReadAll()
      requires Valid() && err == PipOk
      modifies this, pipe, rechdr, databuf
      ensures Valid() && err != PipOk
      ensures old(consumed) <= consumed && old(consumed + pipe.pending) == consumed + pipe.pending
      ensures delivered == Records(format, consumed).items
      ensures err == PipEof ==> delivered == Records(format, old(consumed + pipe.pending)).items
      ensures !pipe.failed ==> (err == PipErr <==> Records(format, old(consumed + pipe.pending)).stop.Some?)
    {
      while err == PipOk
        invariant Valid() && (databuf == old(databuf) || fresh(databuf))
        invariant old(consumed) <= consumed && consumed + pipe.pending == old(consumed + pipe.pending)
        invariant err == PipEof ==> pipe.pending == [] && Records(format, consumed).stop.None?
        invariant err == PipErr ==> pipe.failed || Records(format, consumed).stop.Some?
        decreases |pipe.pending|, if err == PipOk then 1 else 0
      {
        var r := DispatchOnce();
      }
      assert err == PipEof ==> consumed == consumed + pipe.pending;
      StopKept(format, consumed, pipe.pending);
    }

    /** Dispatch, as the loop needs it. */
    method DispatchOnce() returns (r: int)
      requires Valid() && err == PipOk
      modifies this, pipe, rechdr, databuf
      ensures Valid() && (databuf == old(databuf) || fresh(databuf))
      ensures old(consumed) <= consumed && consumed + pipe.pending == old(consumed + pipe.pending)
      ensures err == PipEof ==> pipe.pending == [] && Records(format, consumed).stop.None?
      ensures err == PipErr ==> pipe.failed || Records(format, consumed).stop.Some?
      ensures err == PipOk ==> |pipe.pending| < |old(pipe.pending)|
      ensures |pipe.pending| <= |old(pipe.pending)|
    {
      r := Dispatch();
    }
  }
}
