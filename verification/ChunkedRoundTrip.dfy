/** Decoding what the chunked sink wrote gives the writes back, for every buffer size and
  every pattern of short reads.
 */
module ChunkedRoundTrip {
  import opened Options
  import opened TextSearch
  import opened Chunked

  /** All chunks joined. */
  function Joined(chunks: seq<string>): string {
    if chunks == [] then "" else chunks[0] + Joined(chunks[1..])
  }

  /** The chunk byte `pos` of the payload lies in: its offset there and the chunk's size. */
  function Where(chunks: seq<string>, pos: nat): (nat, nat)
    requires pos < |Joined(chunks)|
  {
    if pos < |chunks[0]| then (pos, |chunks[0]|) else Where(chunks[1..], pos - |chunks[0]|)
  }

  /** No chunk is empty, and sizes are what a machine word can hold. */
  ghost predicate Sizes(chunks: seq<string>) {
    forall c | c in chunks :: 0 < |c| < ULONG_MAX
  }

  /** The coded message behind which `tail` follows. */
  function Coded(chunks: seq<string>, tail: string): string {
    Encoded(chunks) + (DONE_MARKER + tail)
  }

  /** The decoder has delivered the first `pos` bytes. */
  ghost predicate Reached(d: Decoder, chunks: seq<string>, pos: nat, tail: string)
    decreases |chunks|
  {
    if pos == 0 then !d.finished && d.remaining == 0 && d.left == Coded(chunks, tail)
    else if chunks == [] then false
    else if pos < |chunks[0]| then
      && !d.finished && d.remaining == |chunks[0]| - pos && d.total == |chunks[0]| && d.offset == pos
      && d.left == chunks[0][pos..] + CRLF + Coded(chunks[1..], tail)
    else Reached(d, chunks[1..], pos - |chunks[0]|, tail)
  }

  lemma LineOf(line: string, rest: string)
    requires !Contains(line, CRLF) && |line| + 2 <= MAX_LINE_LENGTH
    ensures GetLine(line + CRLF + rest) == Some((line + CRLF, rest))
  {
    hide Find;
    FindBehind(line, CRLF, rest);
    var t := line + CRLF + rest;
    assert t[..|line| + 2] == line + CRLF && t[|line| + 2..] == rest;
  }

  lemma {:induction false} HexLength(n: nat, k: nat)
    requires n <= ULONG_MAX && k <= 16 && n < Power16(k) && k > 0
    ensures |ToHex(n)| <= k
    decreases k
  {
    if n >= 16 {
      HexLength(n / 16, k - 1);
    }
  }

  function Power16(k: nat): nat { if k == 0 then 1 else 16 * Power16(k - 1) }

  /** A size line is read as the size. */
  lemma SizeLine(n: nat, rest: string)
    requires n <= ULONG_MAX
    ensures GetLine(ToHex(n) + CRLF + rest) == Some((ToHex(n) + CRLF, rest))
    ensures StrToUl(ToHex(n) + CRLF) == Some(n)
  {
    hide Find, StrToUl;
    HexRoundTrip(n);
    Power16Of16();
    HexLength(n, 16);
    var h := ToHex(n);
    forall k | 0 <= k < |h|
      ensures !At(h, k, CRLF)
    {
      assert h[k] in h;
      assert h[k] != '\r';
      assert k + 2 <= |h| ==> h[k..k + 2][0] == h[k];
    }
    FindIs(h, CRLF, |h|);
    LineOf(h, rest);
  }

  lemma Power16Of16()
    ensures Power16(16) == ULONG_MAX + 1
  {
    assert Power16(8) == 0x1_0000_0000;
    assert Power16(12) == 0x1_0000_0000_0000;
  }

  /** At a chunk boundary the next size line starts the next chunk, or ends the message. */
  lemma NextIs(d: Decoder, chunks: seq<string>, tail: string)
    requires Sizes(chunks) && Reached(d, chunks, 0, tail)
    ensures chunks == [] ==> NextChunk(d) == Some(d.(left := tail, remaining := 0, finished := true))
    ensures chunks != [] ==> NextChunk(d) == Some(d.(left := chunks[0] + CRLF + Coded(chunks[1..], tail),
              remaining := |chunks[0]|, total := |chunks[0]|, offset := 0))
  {
    hide GetLine, StrToUl, ToHex;
    if chunks == [] {
      SizeLine(0, tail);
      ZeroHex();
      assert d.left == ToHex(0) + CRLF + tail;
    } else {
      assert chunks[0] in chunks;
      var rest := chunks[0] + CRLF + Coded(chunks[1..], tail);
      SizeLine(|chunks[0]|, rest);
      assert d.left == ToHex(|chunks[0]|) + CRLF + rest;
    }
  }

  lemma ZeroHex()
    ensures ToHex(0) == "0"
  {
  }

  /** Inside a chunk a read delivers the next bytes of it, and after its last byte its line
    end is read too. */
  lemma BytesAre(d: Decoder, chunks: seq<string>, pos: nat, tail: string, len: nat, short: nat)
    requires chunks != [] && pos < |chunks[0]| && len > 0 && !d.finished
    requires d.remaining == |chunks[0]| - pos && d.total == |chunks[0]| && d.offset == pos
    requires d.left == chunks[0][pos..] + CRLF + Coded(chunks[1..], tail)
    ensures var (q, reply) := ReadBytes(d, len, short);
            && reply.Piece? && 0 < |reply.bytes| <= len && pos + |reply.bytes| <= |chunks[0]|
            && reply == Piece(chunks[0][pos..pos + |reply.bytes|], pos, |chunks[0]|)
            && Reached(q, chunks, pos + |reply.bytes|, tail)
  {
    hide GetLine, Coded, Delivered;
    var chunk, rest := chunks[0], Coded(chunks[1..], tail);
    var want := if d.remaining <= len then d.remaining else len;
    var n := Delivered(want, short, |d.left|);
    assert d.left[..n] == chunk[pos..pos + n];
    assert d.left[n..] == chunk[pos + n..] + CRLF + rest;
    if n == d.remaining {
      assert d.left[n..] == "" + CRLF + rest;
      FindIs("", CRLF, 0);
      LineOf("", rest);
    }
  }

  /** One call delivers the next bytes with their place, or the end. */
  ghost predicate Answers(o: (Decoder, Reply), chunks: seq<string>, pos: nat, tail: string, len: nat) {
    && pos <= |Joined(chunks)|
    && if pos < |Joined(chunks)| then
         && o.1.Piece? && 0 < |o.1.bytes| <= len && pos + |o.1.bytes| <= |Joined(chunks)|
         && o.1.bytes == Joined(chunks)[pos..pos + |o.1.bytes|]
         && (o.1.offset, o.1.total) == Where(chunks, pos)
         && Reached(o.0, chunks, pos + |o.1.bytes|, tail)
       else o.1 == Done && o.0.finished && o.0.left == tail
  }

  lemma InsideAnswers(d: Decoder, chunks: seq<string>, pos: nat, tail: string, len: nat, short: nat)
    requires chunks != [] && pos < |chunks[0]| && len > 0 && !d.finished
    requires d.remaining == |chunks[0]| - pos && d.total == |chunks[0]| && d.offset == pos
    requires d.left == chunks[0][pos..] + CRLF + Coded(chunks[1..], tail)
    ensures Answers(ReadBytes(d, len, short), chunks, pos, tail, len)
  {
    hide ReadBytes, Coded, Reached;
    BytesAre(d, chunks, pos, tail, len, short);
    var n := |ReadBytes(d, len, short).1.bytes|;
    assert Joined(chunks)[pos..pos + n] == chunks[0][pos..pos + n];
  }

  lemma BehindAnswers(o: (Decoder, Reply), chunks: seq<string>, pos: nat, tail: string, len: nat)
    requires chunks != [] && chunks[0] != "" && Answers(o, chunks[1..], pos, tail, len)
    ensures Answers(o, chunks, |chunks[0]| + pos, tail, len)
  {
    hide Reached;
    var p := |chunks[0]| + pos;
    if o.1.Piece? && pos + |o.1.bytes| <= |Joined(chunks[1..])| {
      var n := |o.1.bytes|;
      assert Joined(chunks)[p..p + n] == Joined(chunks[1..])[pos..pos + n];
      if Reached(o.0, chunks[1..], pos + n, tail) {
        ReachedBehind(o.0, chunks, pos + n, tail);
      }
    }
  }

  lemma ReachedBehind(d: Decoder, chunks: seq<string>, pos: nat, tail: string)
    requires chunks != [] && chunks[0] != "" && Reached(d, chunks[1..], pos, tail)
    ensures Reached(d, chunks, |chunks[0]| + pos, tail)
  {
  }

  lemma {:induction false} ReadMoves(d: Decoder, chunks: seq<string>, pos: nat, tail: string, len: nat, short: nat)
    requires Sizes(chunks) && len > 0 && Reached(d, chunks, pos, tail)
    ensures !d.finished && Answers(ReadPayload(d, len, short), chunks, pos, tail, len)
    decreases |chunks|
  {
    hide NextChunk, ReadBytes, Coded;
    if pos == 0 {
      NextIs(d, chunks, tail);
      if chunks != [] {
        assert chunks[0] in chunks && chunks[0][0..] == chunks[0];
        InsideAnswers(NextChunk(d).value, chunks, 0, tail, len, short);
      }
    } else if pos < |chunks[0]| {
      InsideAnswers(d, chunks, pos, tail, len, short);
    } else {
      assert chunks[0] in chunks && forall c | c in chunks[1..] :: c in chunks;
      ReadMoves(d, chunks[1..], pos - |chunks[0]|, tail, len, short);
      BehindAnswers(ReadPayload(d, len, short), chunks, pos - |chunks[0]|, tail, len);
    }
  }

  // ---------------------------------------------------------------- sessions

  /** `k` calls, the i-th with a buffer of `lens(i)` bytes when the network has `shorts(i)`
    bytes ready. */
  function Session(d: Decoder, lens: nat -> nat, shorts: nat -> nat, k: nat): (r: (Decoder, seq<Reply>))
    ensures |r.1| == k
  {
    if k == 0 then (d, [])
    else
      var (q, replies) := Session(d, lens, shorts, k - 1);
      var (next, reply) := ReadPayload(q, lens(k - 1), shorts(k - 1));
      (next, replies + [reply])
  }

  /** The bytes delivered. */
  function Text(replies: seq<Reply>): string {
    if replies == [] then ""
    else Text(replies[..|replies| - 1]) + (match replies[|replies| - 1] case Piece(b, _, _) => b case _ => "")
  }

  /** Reply `i` is the right answer to call `i`. */
  ghost predicate Right(replies: seq<Reply>, i: nat, chunks: seq<string>, len: nat)
    requires i < |replies|
  {
    var pos := |Text(replies[..i])|;
    match replies[i]
    case Piece(bytes, offset, total) =>
      && 0 < |bytes| <= len && pos + |bytes| <= |Joined(chunks)| && bytes == Joined(chunks)[pos..pos + |bytes|]
      && (offset, total) == Where(chunks, pos)
    case Done => pos == |Joined(chunks)|
    case Failed => false
  }

  /** The decoder is where the replies so far say. */
  ghost predicate Along(d: Decoder, replies: seq<Reply>, chunks: seq<string>, tail: string) {
    var pos := |Text(replies)|;
    && pos <= |Joined(chunks)| && Text(replies) == Joined(chunks)[..pos]
    && (Reached(d, chunks, pos, tail) || (d.finished && d.left == tail && pos == |Joined(chunks)|))
  }

  lemma {:induction false} SessionKeeps(d: Decoder, chunks: seq<string>, tail: string, lens: nat -> nat,
        shorts: nat -> nat, k: nat)
    requires Sizes(chunks) && Reached(d, chunks, 0, tail) && forall i :: lens(i) > 0
    ensures var (q, replies) := Session(d, lens, shorts, k);
            && Along(q, replies, chunks, tail)
            && (q.finished || |Text(replies)| >= k)
            && forall i | 0 <= i < k :: Right(replies, i, chunks, lens(i))
  {
    hide ReadPayload, Along, Right, Text, Reached;
    if k == 0 {
      StartsAlong(d, chunks, tail);
    } else {
      SessionKeeps(d, chunks, tail, lens, shorts, k - 1);
      var (p, before) := Session(d, lens, shorts, k - 1);
      StepKeeps(p, before, chunks, tail, lens(k - 1), shorts(k - 1));
      var reply := ReadPayload(p, lens(k - 1), shorts(k - 1)).1;
      forall i | 0 <= i < k - 1
        ensures Right(before + [reply], i, chunks, lens(i))
      {
        RightStays(before, reply, i, chunks, lens(i));
      }
    }
  }

  lemma StartsAlong(d: Decoder, chunks: seq<string>, tail: string)
    requires Reached(d, chunks, 0, tail)
    ensures Along(d, [], chunks, tail)
  {
    hide Reached;
  }

  lemma RightStays(before: seq<Reply>, reply: Reply, i: nat, chunks: seq<string>, len: nat)
    requires i < |before| && Right(before, i, chunks, len)
    ensures Right(before + [reply], i, chunks, len)
  {
    hide Where, Joined;
    assert (before + [reply])[..i] == before[..i];
  }

  lemma StepKeeps(p: Decoder, before: seq<Reply>, chunks: seq<string>, tail: string, len: nat, short: nat)
    requires Sizes(chunks) && len > 0 && Along(p, before, chunks, tail)
    ensures var (q, reply) := ReadPayload(p, len, short);
            && Along(q, before + [reply], chunks, tail) && Right(before + [reply], |before|, chunks, len)
            && (p.finished ==> q.finished) && (q.finished || |Text(before + [reply])| > |Text(before)|)
  {
    hide Joined, Where, Sizes, NextChunk, ReadBytes;
    var pos := |Text(before)|;
    var (q, reply) := ReadPayload(p, len, short);
    var replies := before + [reply];
    assert replies[..|before|] == before;
    if Reached(p, chunks, pos, tail) {
      ReadMoves(p, chunks, pos, tail, len, short);
    }
  }

  // ------------------------------------------------------------- main result

  function NonEmpty(writes: seq<string>): (chunks: seq<string>) {
    if writes == [] then []
    else (if writes[0] == "" then [] else [writes[0]]) + NonEmpty(writes[1..])
  }

  /** Empty writes put nothing out and add nothing. */
  lemma {:induction false} EmptyWritesVanish(writes: seq<string>)
    ensures Encoded(NonEmpty(writes)) == Encoded(writes) && Joined(NonEmpty(writes)) == Joined(writes)
    ensures forall c | c in NonEmpty(writes) :: c in writes && c != ""
  {
    if writes != [] {
      EmptyWritesVanish(writes[1..]);
      var rest, chunks := NonEmpty(writes[1..]), NonEmpty(writes);
      if writes[0] == "" {
        assert chunks == rest;
      } else {
        assert chunks == [writes[0]] + rest && chunks[1..] == rest;
        assert Encoded(chunks) == Chunk(writes[0]) + Encoded(rest);
      }
    }
  }

  /** Main result: after any writes and the end, with any trailer fields behind it, every
    call with any buffer and any short read delivers the next bytes with their place in
    their chunk, until all bytes written have been delivered; from then on, and after
    as many calls as there are bytes plus one in any case, it reports the end, and the
    trailer is left unread. */
  lemma ChunkedRoundTrip(writes: seq<string>, tail: string, lens: nat -> nat, shorts: nat -> nat, k: nat)
    requires (forall w | w in writes :: |w| < ULONG_MAX) && forall i :: lens(i) > 0
    ensures var (q, replies) :=
              Session(Decoder(Encoded(writes) + (DONE_MARKER + tail), 0, false, 0, 0), lens, shorts, k);
            && Text(replies) <= Joined(writes)
            && (forall i | 0 <= i < k :: Right(replies, i, NonEmpty(writes), lens(i)))
            && (k > |Joined(writes)| ==> q.finished && q.left == tail && Text(replies) == Joined(writes))
  {
    hide Session, Text, Right, Encoded, Joined, Answers, ReadPayload;
    EmptyWritesVanish(writes);
    var d := Decoder(Encoded(writes) + (DONE_MARKER + tail), 0, false, 0, 0);
    SessionKeeps(d, NonEmpty(writes), tail, lens, shorts, k);
    var (q, replies) := Session(d, lens, shorts, k);
    if Reached(q, NonEmpty(writes), |Text(replies)|, tail) {
      ReadMoves(q, NonEmpty(writes), |Text(replies)|, tail, lens(k), shorts(k));
    }
  }
}
