/** The chunked sink and the decoder object over a connection with short reads. */
module ChunkedCoding {
  import opened Options
  import opened TextSearch
  import opened Chunked

  /** `from_i_to_hex` */
  method FromIToHex(n0: nat) returns (ret: string)
    ensures ret == ToHex(n0)
  {
    var n := n0;
    ret := [CHARSET[n % 16]];
    n := n / 16;
    while n > 0
      invariant (if n > 0 then ToHex(n) else "") + ret == ToHex(n0)
    {
      ghost var before := ret;
      ret := [CHARSET[n % 16]] + ret;
      assert ToHex(n) + before == (if n / 16 > 0 then ToHex(n / 16) else "") + ret;
      n := n / 16;
    }
  }

  /** A connection: what has been sent, what the peer will deliver, and how much of it is
    ready at each read. */
  class Connection {
    var sent: string
    var left: string
    const ready: nat -> nat
    var calls: nat

    constructor (left: string, ready: nat -> nat)
      ensures this.left == left && this.ready == ready && sent == "" && calls == 0
    {
      this.left, this.ready, sent, calls := left, ready, "", 0;
    }

    method Write(s: string)
      modifies this`sent
      ensures sent == old(sent) + s
    {
      sent := sent + s;
    }

    method Read(buf: array<char>, n: nat) returns (k: nat)
      requires n <= buf.Length
      modifies this`left, this`calls, buf
      ensures k == Delivered(n, ready(old(calls)), |old(left)|) && calls == old(calls) + 1
      ensures buf[..k] == old(left)[..k] && left == old(left)[k..]
    {
      k := Delivered(n, ready(calls), |left|);
      for i := 0 to k
        invariant left == old(left) && calls == old(calls) && buf[..i] == left[..i]
      {
        buf[i] := left[i];
      }
      left, calls := left[k..], calls + 1;
    }

    /** `stream_line_reader::getline` */
    method GetLine() returns (line: Option<string>)
      modifies this`left, this`calls
      ensures match Chunked.GetLine(old(left))
              case None => line.None?
              case Some(r) => line == Some(r.0) && left == r.1
    {
      hide Find, At;
      var got := "";
      var prev := '\0';
      var byte := new char[1];
      while true
        invariant old(left) == got + left && |got| <= MAX_LINE_LENGTH && NoCrlf(got)
        invariant if got == "" then prev == '\0' else prev == got[|got| - 1]
        decreases |left|
      {
        if |got| >= MAX_LINE_LENGTH {
          TooLong(got, left);
          return None;
        }
        var n := Read(byte, 1);
        if n == 0 {
          assert left == "" && old(left) == got;
          NoEnd(got);
          return if got == "" then None else Some(got);
        }
        assert byte[..1] == [byte[0]];
        ghost var before := got;
        got := got + [byte[0]];
        assert old(left) == got + left;
        if prev == '\r' && byte[0] == '\n' {
          Ends(before, got, left);
          return Some(got);
        }
        StillNoCrlf(before, byte[0]);
        prev := byte[0];
      }
    }
  }

  ghost predicate NoCrlf(s: string) { forall k | 0 <= k < |s| :: !At(s, k, CRLF) }

  lemma StillNoCrlf(s: string, c: char)
    requires NoCrlf(s) && !(s != "" && s[|s| - 1] == '\r' && c == '\n')
    ensures NoCrlf(s + [c])
  {
    var t := s + [c];
    forall k | 0 <= k < |t|
      ensures !At(t, k, CRLF)
    {
      if k + 2 <= |s| {
        assert !At(s, k, CRLF) && t[k..k + 2] == s[k..k + 2];
      } else if k + 2 == |t| {
        assert t[k..k + 2] == [t[k], c];
      }
    }
  }

  lemma CrlfLater(got: string, left: string)
    requires NoCrlf(got)
    ensures forall k | 0 <= k < |got| - 1 :: !At(got + left, k, CRLF)
  {
    forall k | 0 <= k < |got| - 1
      ensures !At(got + left, k, CRLF)
    {
      assert !At(got, k, CRLF) && (got + left)[k..k + 2] == got[k..k + 2];
    }
  }

  lemma TooLong(got: string, left: string)
    requires |got| >= MAX_LINE_LENGTH && NoCrlf(got)
    ensures Chunked.GetLine(got + left).None?
  {
    hide At;
    CrlfLater(got, left);
  }

  lemma NoEnd(got: string)
    requires |got| < MAX_LINE_LENGTH && NoCrlf(got)
    ensures Chunked.GetLine(got) == if got == "" then None else Some((got, ""))
  {
    hide Find, At;
    FindIs(got, CRLF, |got|);
  }

  lemma Ends(before: string, got: string, left: string)
    requires 2 <= |got| <= MAX_LINE_LENGTH && got == before + ['\n'] && got[|got| - 2] == '\r' && NoCrlf(before)
    ensures Chunked.GetLine(got + left) == Some((got, left))
  {
    hide Find;
    var t := got + left;
    assert t == before + (['\n'] + left);
    CrlfLater(before, ['\n'] + left);
    assert t[|got| - 2..|got|] == CRLF;
    FindIs(t, CRLF, |got| - 2);
    assert t[..|got|] == got && t[|got|..] == left;
  }

  /** The sink of `write_content_chunked`. */
  class ChunkedSink {
    const strm: Connection
    var dataAvailable: bool
    var offset: nat
    /** Everything written through this sink. */
    ghost var writes: seq<string>

    constructor (strm: Connection)
      ensures this.strm == strm && writes == [] && offset == 0 && dataAvailable
    {
      this.strm, writes, offset, dataAvailable := strm, [], 0, true;
    }

    method Write(payload: string)
      modifies this, strm`sent
      ensures writes == old(writes) + [payload] && strm.sent == old(strm.sent) + Encoded([payload])
      ensures offset == old(offset) + |payload| && dataAvailable == (payload != "")
    {
      hide ToHex;
      dataAvailable, offset := |payload| > 0, offset + |payload|;
      writes := writes + [payload];
      assert Encoded([payload]) == if payload == "" then "" else Chunk(payload);
      if payload != "" {
        var hex := FromIToHex(|payload|);
        strm.Write(hex + CRLF + payload + CRLF);
      }
    }

    /** `done_with_trailer` */
    method Done(trailer: seq<(string, string)>)
      modifies this`dataAvailable, strm`sent
      ensures strm.sent == old(strm.sent) + (DONE_MARKER + (Trailer(trailer) + CRLF)) && !dataAvailable
    {
      dataAvailable := false;
      strm.Write(DONE_MARKER);
      for i := 0 to |trailer|
        invariant !dataAvailable
        invariant strm.sent + (Trailer(trailer[i..]) + CRLF)
          == old(strm.sent) + (DONE_MARKER + (Trailer(trailer) + CRLF))
      {
        strm.Write(trailer[i].0 + ": " + trailer[i].1 + CRLF);
        assert trailer[i..][1..] == trailer[i + 1..];
      }
      strm.Write(CRLF);
    }
  }

  /** `ChunkedDecoder` */
  class ChunkedDecoder {
    const strm: Connection
    var chunkRemaining: nat
    var finished: bool
    var lastTotal: nat
    var lastOffset: nat

    constructor (strm: Connection)
      ensures this.strm == strm && Value() == Decoder(strm.left, 0, false, 0, 0)
    {
      this.strm, chunkRemaining, finished, lastTotal, lastOffset := strm, 0, false, 0, 0;
    }

    function Value(): Decoder
      reads this, strm
    {
      Decoder(strm.left, chunkRemaining, finished, lastTotal, lastOffset)
    }

    /** The first half of `read_payload`. */
    method StartChunk() returns (ok: bool)
      modifies this, strm`left, strm`calls
      ensures ok == NextChunk(old(Value())).Some?
      ensures ok ==> NextChunk(old(Value())) == Some(Value())
    {
      hide Chunked.GetLine, StrToUl;
      var line := strm.GetLine();
      if line.None? {
        return false;
      }
      var size := StrToUl(line.value);
      if size.None? || size.value == ULONG_MAX {
        return false;
      }
      chunkRemaining := size.value;
      if size.value == 0 {
        finished := true;
      } else {
        lastTotal, lastOffset := chunkRemaining, 0;
      }
      ok := true;
    }

    /** `read_payload`: -1 is `Failed`, 0 is `Done`. */
    method ReadPayload(buf: array<char>, len: nat) returns (reply: Reply, ghost short: nat)
      requires len <= buf.Length
      modifies this, strm`left, strm`calls, buf
      ensures reply == Chunked.ReadPayload(old(Value()), len, short).1
      ensures !reply.Failed? ==> Value() == Chunked.ReadPayload(old(Value()), len, short).0
      ensures reply.Piece? ==> |reply.bytes| <= len && buf[..|reply.bytes|] == reply.bytes
    {
      hide Chunked.GetLine, NextChunk;
      short := 0;
      if finished {
        return Done, short;
      }
      if chunkRemaining == 0 {
        var ok := StartChunk();
        if !ok {
          return Failed, short;
        }
        if finished {
          return Done, short;
        }
      }
      reply, short := ReadBytes(buf, len);
    }

    /** The second half. */
    method ReadBytes(buf: array<char>, len: nat) returns (reply: Reply, ghost short: nat)
      requires len <= buf.Length && !finished
      modifies this, strm`left, strm`calls, buf
      ensures reply == Chunked.ReadBytes(old(Value()), len, short).1
      ensures !reply.Failed? ==> Value() == Chunked.ReadBytes(old(Value()), len, short).0
      ensures reply.Piece? ==> |reply.bytes| <= len && buf[..|reply.bytes|] == reply.bytes
    {
      hide Chunked.GetLine, Delivered;
      short := strm.ready(strm.calls);
      var n := strm.Read(buf, if chunkRemaining <= len then chunkRemaining else len);
      if n == 0 {
        return Failed, short;
      }
      reply := Piece(buf[..n], lastOffset, lastTotal);
      lastOffset, chunkRemaining := lastOffset + n, chunkRemaining - n;
      if chunkRemaining == 0 {
        var line := strm.GetLine();
        if line.None? || line.value != CRLF {
          return Failed, short;
        }
      }
    }
  }
}
