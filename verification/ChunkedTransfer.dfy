/** A sink and a decoder at the two ends of a connection. */
module ChunkedTransfer {
  import opened TextSearch
  import opened Options
  import opened FormHeaders
  import opened Chunked
  import opened ChunkedRoundTrip
  import opened ChunkedCoding

  lemma EncodedCons(writes: seq<string>, i: nat)
    requires i < |writes|
    ensures Encoded(writes[i..]) == Encoded([writes[i]]) + Encoded(writes[i + 1..])
  {
    hide Chunk;
    assert writes[i..][0] == writes[i] && writes[i..][1..] == writes[i + 1..];
  }

  /** All writes, one after the other. */
  method WriteAll(sink: ChunkedSink, writes: seq<string>)
    modifies sink, sink.strm`sent
    ensures sink.strm.sent == old(sink.strm.sent) + Encoded(writes)
  {
    hide Encoded;
    assert writes[0..] == writes;
    for i := 0 to |writes|
      invariant sink.strm.sent + Encoded(writes[i..]) == old(sink.strm.sent) + Encoded(writes)
    {
      EncodedCons(writes, i);
      sink.Write(writes[i]);
    }
    NothingEncoded();
    assert writes[|writes|..] == [];
  }

  lemma NothingEncoded()
    ensures Encoded([]) == ""
  {
  }

  /** Reads with a buffer of `len` bytes until the decoder reports the end or fails. */
  method ReadAll(decoder: ChunkedDecoder, len: nat, ghost chunks: seq<string>, ghost tail: string)
    returns (text: string, ok: bool)
    requires len > 0 && Sizes(chunks) && Reached(decoder.Value(), chunks, 0, tail)
    modifies decoder, decoder.strm`left, decoder.strm`calls
    ensures ok && text == Joined(chunks) && decoder.finished && decoder.strm.left == tail
  {
    hide Reached, Joined, Sizes, Chunked.ReadPayload;
    var buf := new char[len];
    text := "";
    while true
      invariant |text| <= |Joined(chunks)| && text == Joined(chunks)[..|text|]
      invariant Reached(decoder.Value(), chunks, |text|, tail)
      decreases |Joined(chunks)| - |text|
    {
      ghost var before := decoder.Value();
      var reply, short := decoder.ReadPayload(buf, len);
      ReadMoves(before, chunks, |text|, tail, len, short);
      match reply {
        case Piece(bytes, _, _) => text := text + bytes;
        case Done => return text, true;
        case Failed => return text, false;
      }
    }
  }

  // ----------------------------------------------------------- trailer fields

  /** Field lines up to the empty line: a name, a colon, a space and a value. */
  function ReadFields(s: string): Option<seq<(string, string)>>
    decreases |s|
  {
    if s == CRLF then Some([])
    else
      var name := Cut(s, ':');
      if name.None? || !Begins(name.value.1, " ") then None
      else
        var value := Cut(name.value.1[1..], '\r');
        if value.None? || !Begins(value.value.1, "\n") then None
        else
          var more := ReadFields(value.value.1[1..]);
          if more.None? then None else Some([(name.value.0, value.value.0)] + more.value)
  }

  lemma NoField()
    ensures ReadFields(CRLF) == Some([])
  {
  }

  lemma ReadsField(name: string, value: string, rest: string)
    requires ':' !in name && '\r' !in value
    ensures var more := ReadFields(rest);
            ReadFields(name + [':'] + (" " + (value + ['\r'] + ("\n" + rest))))
            == if more.None? then None else Some([(name, value)] + more.value)
  {
    hide Cut;
    var behind := "\n" + rest;
    var tail := " " + (value + ['\r'] + behind);
    var s := name + [':'] + tail;
    CutAt(name, ':', tail);
    assert tail[..1] == " " && tail[1..] == value + ['\r'] + behind;
    CutAt(value, '\r', behind);
    assert behind[..1] == "\n" && behind[1..] == rest;
    assert s[|name|] == ':' && ':' in s && ':' !in CRLF;
  }

  lemma {:induction false} TrailerReads(fields: seq<(string, string)>)
    requires forall f | f in fields :: ':' !in f.0 && '\r' !in f.0 && '\r' !in f.1
    ensures ReadFields(Trailer(fields) + CRLF) == Some(fields)
  {
    hide ReadFields;
    if fields == [] {
      NoField();
      assert "" + CRLF == CRLF;
    } else {
      var f, rest := fields[0], Trailer(fields[1..]) + CRLF;
      assert f in fields && forall g | g in fields[1..] :: g in fields;
      TrailerReads(fields[1..]);
      ReadsField(f.0, f.1, rest);
      assert Trailer(fields) + CRLF == f.0 + [':'] + (" " + (f.1 + ['\r'] + ("\n" + rest)));
      assert fields == [(f.0, f.1)] + fields[1..];
    }
  }

  /** Main result: what is written through a sink, ended with any trailer fields, sent over and
    read with any buffer and any short reads, arrives as the bytes written, and the trailer
    fields are left for whoever reads them. */
  method Transfer(writes: seq<string>, trailer: seq<(string, string)>, ready: nat -> nat, len: nat)
    returns (text: string, ok: bool, left: string)
    requires len > 0 && forall w | w in writes :: |w| < ULONG_MAX
    ensures ok && text == Joined(writes) && left == Trailer(trailer) + CRLF
    ensures (forall f | f in trailer :: ':' !in f.0 && '\r' !in f.0 && '\r' !in f.1)
            ==> ReadFields(left) == Some(trailer)
  {
    hide Encoded, Joined;
    var server := new Connection("", ready);
    var sink := new ChunkedSink(server);
    WriteAll(sink, writes);
    sink.Done(trailer);
    var client := new Connection(server.sent, ready);
    var decoder := new ChunkedDecoder(client);
    EmptyWritesVanish(writes);
    ghost var tail := Trailer(trailer) + CRLF;
    assert server.sent == Encoded(writes) + (DONE_MARKER + tail);
    text, ok := ReadAll(decoder, len, NonEmpty(writes), tail);
    left := client.left;
    if forall f | f in trailer :: ':' !in f.0 && '\r' !in f.0 && '\r' !in f.1 {
      TrailerReads(trailer);
    }
  }
}
