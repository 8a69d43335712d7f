/** Parsing a serialized message in any pieces gives the message back. */
module MultipartRoundTrip {
  import opened Options
  import opened Multipart
  import opened TextSearch

  // --------------------------------------------------------------- serializer

  datatype Item = Item(name: string, content: string, filename: string, contentType: string)

  /** The header lines of a part. */
  function Lines(item: Item): (lines: seq<string>)
    ensures lines != [] && forall l | l in lines :: l != ""
  {
    ["Content-Disposition: form-data; name=\"" + item.name + "\""
       + (if item.filename == "" then "" else "; filename=\"" + item.filename + "\"")]
    + (if item.contentType == "" then [] else ["Content-Type: " + item.contentType])
  }

  function Joined(lines: seq<string>): string {
    if lines == [] then "" else lines[0] + CRLF + Joined(lines[1..])
  }

  /** `serialize_multipart_formdata_item_begin` */
  function ItemBegin(item: Item, boundary: string): string {
    DASH + boundary + CRLF + Joined(Lines(item)) + CRLF
  }

  function Serialize(items: seq<Item>, boundary: string): string {
    if items == [] then DASH + boundary + DASH + CRLF
    else ItemBegin(items[0], boundary) + items[0].content + CRLF + Serialize(items[1..], boundary)
  }

  method SerializeFormData(items: seq<Item>, boundary: string) returns (body: string)
    ensures body == Serialize(items, boundary)
  {
    hide ItemBegin;
    body := "";
    for i := 0 to |items|
      invariant body + Serialize(items[i..], boundary) == Serialize(items, boundary)
    {
      body := body + ItemBegin(items[i], boundary);
      body := body + (items[i].content + CRLF);
    }
    body := body + (DASH + boundary + DASH + CRLF);
  }

  // -------------------------------------------------------- what is to be seen

  /** The part as its header callback describes it: the lines read one after the other. */
  function FileOf(c: Config, lines: seq<string>): Option<FormData> {
    if lines == [] then Some(BLANK)
    else
      var file := FileOf(c, lines[..|lines| - 1]);
      if file.None? then None else c.readHeader(file.value, lines[|lines| - 1])
  }

  /** An item that can be sent: its header lines are readable and free of line ends, and its
    content does not contain the delimiter. */
  ghost predicate Sendable(c: Config, item: Item) {
    && FileOf(c, Lines(item)).Some?
    && !Contains(item.content, c.Delimiter())
    && forall l | l in Lines(item) :: !Contains(l, CRLF)
  }

  /** All its header lines are shorter than the limit. */
  ghost predicate Short(item: Item) { forall l | l in Lines(item) :: |l| < HEADER_MAX_LENGTH }

  ghost predicate Accepts(c: Config) {
    && (forall f :: c.onHeader(f))
    && (forall s :: c.onContent(s))
  }

  datatype Part = Part(file: FormData, content: string)

  /** The parts the callbacks were told about: content pieces belong to the last header. */
  function Parts(events: seq<Event>): seq<Part> {
    if events == [] then []
    else
      var parts := Parts(events[..|events| - 1]);
      match events[|events| - 1]
      case Header(f) => parts + [Part(f, "")]
      case Content(s) =>
        if parts == [] then [Part(BLANK, s)]
        else parts[|parts| - 1 := parts[|parts| - 1].(content := parts[|parts| - 1].content + s)]
  }

  function Sent(c: Config, items: seq<Item>): (parts: seq<Part>)
    requires forall i | i in items :: FileOf(c, Lines(i)).Some?
    ensures |parts| == |items|
  {
    seq(|items|, i requires 0 <= i < |items| => Part(FileOf(c, Lines(items[i])).value, items[i].content))
  }

  // ----------------------------------------------------- where the parser is

  /** Where the parser is in the message: before it, before header line `j` of part `k`, in
    the body of part `k` with `d` bytes handed over, behind a boundary with `k` parts done,
    or behind the closing one. */
  datatype Place = Begin | InLines(k: nat, j: nat) | InBody(k: nat, d: nat) | AtBoundary(k: nat) | Over

  datatype Message = Message(c: Config, items: seq<Item>)
  {
    /** At least one part, a boundary without carriage returns, and parts that can be sent. */
    ghost predicate Good() {
      Accepts(c) && items != [] && '\r' !in c.boundary && forall i | i in items :: Sendable(c, i)
    }

    ghost predicate AllShort() { forall i | i in items :: Short(i) }

    /** The text behind boundary number `k`. */
    function Behind(k: nat): (s: string)
      requires k <= |items|
      ensures |s| >= 4
      decreases |items| - k, 1
    {
      if k == |items| then DASH + CRLF else CRLF + FromLine(k, 0)
    }

    /** The text from header line `j` of part `k` on. */
    function FromLine(k: nat, j: nat): (s: string)
      requires k < |items| && j <= |Lines(items[k])|
      ensures |s| > 2
      decreases |items| - k, 0
    {
      Joined(Lines(items[k])[j..]) + (CRLF + (items[k].content + (c.Delimiter() + Behind(k + 1))))
    }

    function FromBody(k: nat, d: nat): (s: string)
      requires k < |items| && d <= |items[k].content|
      ensures s != ""
    {
      items[k].content[d..] + (c.Delimiter() + Behind(k + 1))
    }

    /** The parts before part `k`. */
    function Before(k: nat): (parts: seq<Part>)
      requires k <= |items| && forall i | i in items :: FileOf(c, Lines(i)).Some?
    {
      Sent(c, items[..k])
    }

    function Whole(k: nat): Part
      requires k < |items| && forall i | i in items :: FileOf(c, Lines(i)).Some?
    {
      Part(FileOf(c, Lines(items[k])).value, items[k].content)
    }

    lemma OneMore(k: nat)
      requires k < |items| && forall i | i in items :: FileOf(c, Lines(i)).Some?
      ensures Before(k + 1) == Before(k) + [Whole(k)]
    {
    }

    /** The parser is at this place, with `future` still to come. */
    ghost predicate Reached(p: Parser, future: string, place: Place)
      requires Good()
    {
      var text := p.window + future;
      match place
      case Begin => p.state == 0 && !p.valid && text == c.Opening() + FromLine(0, 0) && p.events == []
      case InLines(k, j) =>
        && k < |items| && j <= |Lines(items[k])| && !p.valid && text == FromLine(k, j) && Parts(p.events) == Before(k)
        && ((p.state == 1 && j == 0) || (p.state == 2 && FileOf(c, Lines(items[k])[..j]) == Some(p.file)))
      case InBody(k, d) =>
        && k < |items| && d <= |items[k].content| && !p.valid && p.state == 3 && text == FromBody(k, d)
        && Parts(p.events) == Before(k) + [Whole(k).(content := items[k].content[..d])]
      case AtBoundary(k) =>
        k <= |items| && !p.valid && p.state == 4 && text == Behind(k) && Parts(p.events) == Before(k)
      case Over =>
        && p.valid && Parts(p.events) == Before(|items|)
        && text in ["", "\n", CRLF] && (p.state == 4 || (p.state == 1 && text == ""))
    }

    /** A round of the loop that is not a failure and gets to `place`; with nothing more to
      come it only stops at the end. */
    ghost predicate Moved(o: Outcome, future: string, place: Place)
      requires Good()
    {
      && Reached(o.p, future, place)
      && (o.Return? ==> o.ok && (future == "" ==> place.Over?))
    }

    lemma GoodItem(k: nat)
      requires Good() && k < |items|
      ensures Accepts(c) && Sendable(c, items[k]) && Plain(c.Delimiter())
      ensures forall i | i in items :: FileOf(c, Lines(i)).Some?
    {
      hide FileOf, Lines, Find;
      PlainDelimiter(c);
    }

    lemma SendableContent(k: nat)
      requires k < |items| && Sendable(c, items[k])
      ensures !Contains(items[k].content, c.Delimiter())
    {
    }

    lemma StepAtBegin(p: Parser, future: string) returns (next: Place)
      requires Good() && p.window != "" && Reached(p, future, Begin)
      ensures Moved(Step(c, p), future, next)
    {
      hide Find, FromLine, Behind;
      var t := p.window + future;
      assert At(t, 0, c.Opening());
      FindIs(t, c.Opening(), 0);
      FindSoFar(p.window, future, c.Opening());
      if |c.Opening()| <= |p.window| {
        next := InLines(0, 0);
        assert p.window[|c.Opening()|..] + future == FromLine(0, 0);
      } else {
        next := Begin;
      }
    }

    lemma StepAtBoundary(p: Parser, future: string, k: nat) returns (next: Place)
      requires Good() && p.window != "" && Reached(p, future, AtBoundary(k))
      ensures Moved(Step(c, p), future, next)
    {
      hide FromLine, Parts, Before;
      var t := Behind(k);
      assert p.window == t[..|p.window|] && future == t[|p.window|..];
      if |p.window| < 2 {
        next := AtBoundary(k);
      } else if k == |items| {
        next := Over;
        ClosingText(p.window, future);
        assert "" + future == future;
      } else {
        next := InLines(k, 0);
        assert p.window[0..2] == CRLF;
        assert p.window[2..] + future == t[2..] == FromLine(k, 0);
      }
    }

    /** The delimiter is found when it has arrived; what has arrived before it, and everything
      but the last bytes when it has not been found, is content. */
    lemma BodyFound(k: nat, d: nat, w: string, future: string)
      requires Good() && k < |items| && d <= |items[k].content| && w + future == FromBody(k, d)
      ensures var content, n, m := items[k].content, |items[k].content| - d, |c.Delimiter()|;
              if n + m <= |w|
              then Find(w, c.Delimiter()) == n && w[..n] == content[d..] && w[n + m..] + future == Behind(k + 1)
              else future != "" && Find(w, c.Delimiter()) == |w| && (|w| >= m ==>
                w[..|w| - m] == content[d..d + |w| - m] && w[|w| - m..] + future == FromBody(k, d + |w| - m))
    {
      hide Find, Behind, Good, Sendable, Plain, Accepts, FileOf, Lines;
      var content, delimiter := items[k].content, c.Delimiter();
      GoodItem(k);
      assert !Contains(content, delimiter) by { SendableContent(k); }
      ContainsSuffix(content, delimiter, d);
      assert content[d..] + delimiter + Behind(k + 1) == FromBody(k, d);
      FoundInTime(content[d..], delimiter, Behind(k + 1), w, future);
      if |delimiter| <= |w| < |content| - d + |delimiter| {
        var len := |w| - |delimiter|;
        Dropped(content, d, len);
        assert content[d + len..] + delimiter + Behind(k + 1) == FromBody(k, d + len);
      }
    }

    lemma StepInBody(p: Parser, future: string, k: nat, d: nat) returns (next: Place)
      requires Good() && p.window != "" && Reached(p, future, InBody(k, d))
      ensures Moved(Step(c, p), future, next)
    {
      hide Find, FromLine, FromBody, Before, Behind, Parts, Good, Sendable, Plain, FileOf, Lines;
      GoodItem(k);
      var content, n, m := items[k].content, |items[k].content| - d, |c.Delimiter()|;
      BodyFound(k, d, p.window, future);
      if m > |p.window| {
        next := InBody(k, d);
      } else if n + m <= |p.window| {
        next := AtBoundary(k + 1);
        OneMore(k);
        assert content[..d] + content[d..] == content;
        PartsContent(p.events, Before(k), Whole(k).(content := content[..d]), content[d..]);
      } else {
        var len := |p.window| - m;
        next := InBody(k, d + len);
        assert content[..d] + content[d..d + len] == content[..d + len];
        if len > 0 {
          PartsContent(p.events, Before(k), Whole(k).(content := content[..d]), content[d..d + len]);
        }
      }
    }

    /** Reading header lines, however many have arrived. */
    lemma {:induction false} LinesStep(p: Parser, future: string, k: nat, j: nat) returns (next: Place)
      requires Good() && Reached(p, future, InLines(k, j)) && p.state == 2
      ensures Moved(HeaderLines(c, p), future, next)
      decreases |p.window|
    {
      hide Find, FromLine, FromBody, Before, Behind, Parts, Lines, FileOf, Good, Sendable, Plain;
      GoodItem(k);
      var lines, n := Lines(items[k]), |LineAt(k, j)|;
      LineFound(k, j, p.window, future);
      LineReadable(k, j, p.file);
      if n + 2 > |p.window| {
        next := InLines(k, j);
      } else if j == |lines| {
        next := InBody(k, 0);
        PartsHeader(p.events, p.file);
        assert items[k].content[..0] == "";
      } else {
        assert lines[j] in lines;
        var file := c.readHeader(p.file, lines[j]);
        next := LinesStep(p.(window := p.window[n + 2..], file := file.value), future, k, j + 1);
      }
    }

    /** Every line can be read after the lines before it, and the last gives the part. */
    lemma LineReadable(k: nat, j: nat, file: FormData)
      requires Good() && k < |items| && j <= |Lines(items[k])| && FileOf(c, Lines(items[k])[..j]) == Some(file)
      ensures if j == |Lines(items[k])| then Whole(k).file == file
              else FileOf(c, Lines(items[k])[..j + 1]) == c.readHeader(file, Lines(items[k])[j]) != None
    {
      hide Lines;
      assert items[k] in items;
      var lines := Lines(items[k]);
      if j == |lines| {
        assert lines[..j] == lines;
      } else {
        LinesReadable(c, lines, j + 1);
        assert lines[..j + 1][..j] == lines[..j];
      }
    }

    /** What follows header line `j`, or the empty line. */
    function AfterLine(k: nat, j: nat): string
      requires k < |items| && j <= |Lines(items[k])|
    {
      if j < |Lines(items[k])| then FromLine(k, j + 1) else FromBody(k, 0)
    }

    function LineAt(k: nat, j: nat): string
      requires k < |items| && j <= |Lines(items[k])|
    {
      if j < |Lines(items[k])| then Lines(items[k])[j] else ""
    }

    lemma LineFirst(k: nat, j: nat)
      requires k < |items| && j <= |Lines(items[k])|
      ensures FromLine(k, j) == LineAt(k, j) + CRLF + AfterLine(k, j)
    {
      hide Behind, Lines;
      var lines, body := Lines(items[k]), CRLF + (items[k].content + (c.Delimiter() + Behind(k + 1)));
      assert items[k].content[0..] == items[k].content;
      if j < |lines| {
        assert lines[j..][1..] == lines[j + 1..];
        assert lines[j] + CRLF + Joined(lines[j + 1..]) + body == lines[j] + CRLF + (Joined(lines[j + 1..]) + body);
      }
    }

    /** The end of a header line is found when it has arrived. */
    lemma LineFound(k: nat, j: nat, w: string, future: string)
      requires Good() && k < |items| && j <= |Lines(items[k])| && w + future == FromLine(k, j)
      ensures var n := |LineAt(k, j)|;
              if n + 2 <= |w|
              then Find(w, CRLF) == n && w[..n] == LineAt(k, j) && w[n + 2..] + future == AfterLine(k, j)
              else future != "" && Find(w, CRLF) == |w|
    {
      hide Find, FromLine, AfterLine, Lines;
      assert items[k] in items;
      var line := LineAt(k, j);
      assert line == "" || line in Lines(items[k]);
      FindIs("", CRLF, 0);
      LineFirst(k, j);
      FoundInTime(line, CRLF, AfterLine(k, j), w, future);
    }

    lemma StepInLines(p: Parser, future: string, k: nat, j: nat) returns (next: Place)
      requires Good() && AllShort() && p.window != "" && Reached(p, future, InLines(k, j))
      ensures Moved(Step(c, p), future, next)
    {
      hide Find, FromLine, Before;
      if p.state == 1 {
        next := InLines(k, 0);
        assert Lines(items[k])[..0] == [];
      } else {
        LineFound(k, j, p.window, future);
        assert items[k] in items && |LineAt(k, j)| < HEADER_MAX_LENGTH;
        next := LinesStep(p, future, k, j);
      }
    }

    lemma StepOver(p: Parser, future: string) returns (next: Place)
      requires Good() && p.window != "" && Reached(p, future, Over)
      ensures Moved(Step(c, p), future, next)
    {
      hide Parts, Before;
      next := Over;
      var t := p.window + future;
      assert p.window == t[..|p.window|] && future == t[|p.window|..];
      if |p.window| == 2 {
        assert p.window == CRLF && future == "" && p.window[0..2] == CRLF && p.window[2..] + future == "";
      }
    }

    lemma StepMoves(p: Parser, future: string, place: Place) returns (next: Place)
      requires Good() && AllShort() && p.window != "" && Reached(p, future, place)
      ensures Moved(Step(c, p), future, next)
    {
      hide Reached, Moved, Step;
      match place {
        case Begin => next := StepAtBegin(p, future);
        case InLines(k, j) => next := StepInLines(p, future, k, j);
        case InBody(k, d) => next := StepInBody(p, future, k, d);
        case AtBoundary(k) => next := StepAtBoundary(p, future, k);
        case Over => next := StepOver(p, future);
      }
    }

    /** Only the last place has nothing left to read. */
    lemma NothingLeft(p: Parser, place: Place)
      requires Good() && p.window == "" && Reached(p, "", place)
      ensures place.Over?
    {
      hide Parts, Before;
    }

    lemma {:induction false} LoopMoves(p: Parser, future: string, place: Place) returns (next: Place)
      requires Good() && AllShort() && Reached(p, future, place)
      ensures Reached(Loop(c, p).0, future, next) && Loop(c, p).1 && (future == "" ==> next.Over?)
      decreases |p.window|, if p.state == 1 then 1 else 0
    {
      hide Reached, Step;
      if p.window == "" {
        next := place;
        if future == "" {
          NothingLeft(p, place);
        }
      } else {
        next := StepMoves(p, future, place);
        var o := Step(c, p);
        if o.Continue? {
          next := LoopMoves(o.p, future, next);
        }
      }
    }

    lemma {:induction false} FeedMoves(p: Parser, pieces: seq<string>, place: Place)
      requires Good() && AllShort() && Reached(p, Together(pieces), place) && (Together(pieces) == "" ==> place.Over?)
      ensures Feed(c, p, pieces).1 && Reached(Feed(c, p, pieces).0, "", Over)
      decreases |pieces|
    {
      hide Reached, Loop;
      if pieces != [] {
        Arrives(p, pieces[0], Together(pieces[1..]), place);
        var q := p.(window := p.window + pieces[0]);
        var next := LoopMoves(q, Together(pieces[1..]), place);
        FeedMoves(Loop(c, q).0, pieces[1..], next);
      }
    }

    lemma Arrives(p: Parser, piece: string, future: string, place: Place)
      requires Good() && Reached(p, piece + future, place)
      ensures Reached(p.(window := p.window + piece), future, place)
    {
      hide Parts, Before, FromLine, FromBody, Behind;
      assert p.window + (piece + future) == p.window + piece + future;
    }
  }

  /** What the pieces amount to. */
  function Together(pieces: seq<string>): string {
    if pieces == [] then "" else pieces[0] + Together(pieces[1..])
  }

  lemma Dropped(s: string, d: nat, len: nat)
    requires d + len <= |s|
    ensures s[d..][..len] == s[d..d + len] && s[d..][len..] == s[d + len..]
  {
  }

  lemma PlainDelimiter(c: Config)
    requires '\r' !in c.boundary
    ensures Plain(c.Delimiter())
  {
    var s := c.Delimiter();
    forall k | 0 < k < |s|
      ensures s[k] != s[0]
    {
      assert k >= 4 ==> s[k] == c.boundary[k - 4];
    }
  }

  lemma ClosingText(w: string, future: string)
    requires w + future == DASH + CRLF && |w| >= 2
    ensures At(w, 0, DASH) && !At(w, 0, CRLF) && future in ["", "\n", CRLF]
  {
    var t := w + future;
    assert t[0] == w[0] && t[1] == w[1];
    assert w[0..2] == DASH;
    assert future == t[|w|..];
    if |w| == 2 {
      assert future == CRLF;
    } else if |w| == 3 {
      assert future == "\n";
    } else {
      assert future == "";
    }
  }

  lemma PartsHeader(events: seq<Event>, file: FormData)
    ensures Parts(events + [Header(file)]) == Parts(events) + [Part(file, "")]
  {
    assert (events + [Header(file)])[..|events|] == events;
  }

  lemma PartsContent(events: seq<Event>, parts: seq<Part>, last: Part, s: string)
    requires Parts(events) == parts + [last]
    ensures Parts(events + [Content(s)]) == parts + [last.(content := last.content + s)]
  {
    assert (events + [Content(s)])[..|events|] == events;
  }

  /** If all lines can be read, the first few can. */
  lemma {:induction false} LinesReadable(c: Config, lines: seq<string>, j: nat)
    requires FileOf(c, lines).Some? && j <= |lines|
    ensures FileOf(c, lines[..j]).Some?
    decreases |lines|
  {
    if j < |lines| {
      LinesReadable(c, lines[..|lines| - 1], j);
      assert lines[..|lines| - 1][..j] == lines[..j];
    } else {
      assert lines[..j] == lines;
    }
  }

  // ------------------------------------------------------------- main results

  /** The serializer's text is the message the places describe. */
  lemma {:induction false} SerializedFrom(m: Message, k: nat)
    requires k <= |m.items|
    ensures Serialize(m.items[k..], m.c.boundary) == DASH + m.c.boundary + m.Behind(k)
    decreases |m.items| - k
  {
    hide Lines, Joined;
    if k < |m.items| {
      SerializedFrom(m, k + 1);
      assert m.items[k..][1..] == m.items[k + 1..];
      var item, lines := m.items[k], Lines(m.items[k]);
      assert lines[0..] == lines;
      Regrouped(DASH + m.c.boundary, Joined(lines), item.content, m.Behind(k + 1), m.c.Delimiter());
    }
  }

  lemma Regrouped(opening: string, head: string, content: string, behind: string, delimiter: string)
    requires delimiter == CRLF + opening
    ensures opening + CRLF + head + CRLF + content + CRLF + (opening + behind)
         == opening + (CRLF + (head + (CRLF + (content + (delimiter + behind)))))
  {
    assert CRLF + (opening + behind) == delimiter + behind;
  }

  /** Every call succeeds, the header callback is made once per item with what its header lines
    say, the content pieces of each item concatenate to its content, and the parser ends up
    valid. */
  ghost predicate Parsed(c: Config, items: seq<Item>, pieces: seq<string>)
    requires Message(c, items).Good()
  {
    var (p, ok) := Feed(c, FRESH, pieces);
    ok && p.valid && Parts(p.events) == Sent(c, items)
  }

  /** Main result: the text of a message with short header lines is parsed however it is cut
    into pieces. */
  lemma FragmentsParse(c: Config, items: seq<Item>, pieces: seq<string>)
    requires Message(c, items).Good() && Message(c, items).AllShort()
    requires Together(pieces) == Serialize(items, c.boundary)
    ensures Parsed(c, items, pieces)
  {
    hide Feed, Sent;
    var m := Message(c, items);
    Started(m, pieces);
    m.FeedMoves(FRESH, pieces, Begin);
    assert items[..|items|] == items;
  }

  lemma Started(m: Message, pieces: seq<string>)
    requires m.Good() && Together(pieces) == Serialize(m.items, m.c.boundary)
    ensures m.Reached(FRESH, Together(pieces), Begin) && Together(pieces) != ""
  {
    hide Message.FromLine;
    SerializedFrom(m, 0);
    assert m.items[0..] == m.items;
    assert "" + Together(pieces) == m.c.Opening() + m.FromLine(0, 0);
  }

  /** A message without parts never makes the parser valid, however it is cut. */
  lemma {:induction false} NoPartsNeverValid(c: Config, p: Parser, pieces: seq<string>)
    requires !p.valid && p.events == []
    requires (p.state == 0 && p.window + Together(pieces) == Serialize([], c.boundary))
          || (p.state == 1 && p.window + Together(pieces) == "")
    ensures var (q, ok) := Feed(c, p, pieces); ok && !q.valid && q.events == []
    decreases |pieces|
  {
    hide Find, Serialize;
    if pieces != [] {
      var q := p.(window := p.window + pieces[0]);
      assert q.window + Together(pieces[1..]) == p.window + Together(pieces);
      if q.state == 0 {
        LoopNeverOpens(c, q, Together(pieces[1..]));
      }
      NoPartsNeverValid(c, Loop(c, q).0, pieces[1..]);
    }
  }

  lemma LoopNeverOpens(c: Config, q: Parser, future: string)
    requires q.state == 0 && q.window + future == Serialize([], c.boundary)
    ensures Loop(c, q).1 && Loop(c, q).0.valid == q.valid && Loop(c, q).0.events == q.events
    ensures Loop(c, q).0 == q || (Loop(c, q).0.state == 1 && Loop(c, q).0.window == "" && future == "")
  {
    hide Find, Serialize;
    NoOpening(c, q.window, future);
    if q.window != "" && Find(q.window, c.Opening()) < |q.window| {
      var o := Step(c, q);
      assert o == Continue(q.(window := "", state := 1));
      assert Loop(c, q) == Loop(c, o.p);
    }
  }

  /** The closing boundary is taken for an opening one at most when all of it is there. */
  lemma NoOpening(c: Config, w: string, future: string)
    requires w + future == Serialize([], c.boundary)
    ensures var pos := Find(w, c.Opening()); pos < |w| ==> pos + |c.Opening()| == |w| && future == ""
  {
    hide Find;
    var t, n, pos := w + future, |c.boundary|, Find(w, c.Opening());
    assert t[n + 2] == '-' && t[n + 3] == '-';
    if pos < |w| {
      assert w[pos..pos + n + 4][n + 2] == c.Opening()[n + 2] == '\r';
      assert t[pos + n + 2] == '\r';
    }
  }

  // ------------------------------------------------ the limit on header lines

  /** A call whose first round takes the whole window ends there. */
  lemma OneRound(c: Config, p: Parser, data: string)
    requires p.window == "" && data != ""
    ensures var o := Step(c, p.(window := data)); o.Continue? && o.p.window == "" ==> Parse(c, p, data) == (o.p, true)
  {
    hide Step;
    assert p.window + data == data;
    var o := Step(c, p.(window := data));
    if o.Continue? && o.p.window == "" {
      assert Loop(c, o.p) == (o.p, true);
    }
  }

  /** One call takes a complete token and waits in the next state with an empty window. */
  lemma TakeOpening(c: Config, p: Parser)
    requires p.window == "" && p.state == 0
    ensures var (q, ok) := Parse(c, p, c.Opening()); ok && q.window == "" && q.state == 1
  {
    hide Find;
    FindIs(c.Opening(), c.Opening(), 0);
    OneRound(c, p, c.Opening());
  }

  lemma TakeLine(c: Config, p: Parser, line: string, file: FormData)
    requires p.window == "" && (p.state == 2 || p.state == 1)
    requires 0 < |line| < HEADER_MAX_LENGTH && !Contains(line, CRLF)
    requires c.readHeader(if p.state == 1 then BLANK else p.file, line) == Some(file)
    ensures var (q, ok) := Parse(c, p, line + CRLF); ok && q.window == "" && q.state == 2 && q.file == file
  {
    hide Find, HeaderLines;
    var w := line + CRLF;
    FoundInTime(line, CRLF, "", w, "");
    assert p.window + w == w;
    var q := Parser(2, w, if p.state == 1 then BLANK else p.file, p.events, p.valid);
    OneLine(c, q, line, file);
    assert Loop(c, p.(window := w)) == Loop(c, q);
  }

  lemma OneLine(c: Config, q: Parser, line: string, file: FormData)
    requires q.window == line + CRLF && line != "" && c.readHeader(q.file, line) == Some(file)
    requires Find(q.window, CRLF) == |line|
    ensures HeaderLines(c, q) == Return(q.(window := "", file := file), true)
  {
    hide Find;
    assert q.window[..|line|] == line && q.window[|line| + 2..] == "";
  }

  lemma TakeEmptyLine(c: Config, p: Parser)
    requires p.window == "" && p.state == 2 && c.onHeader(p.file)
    ensures var (q, ok) := Parse(c, p, CRLF); ok && q.window == "" && q.state == 3
  {
    hide Find;
    FindIs(CRLF, CRLF, 0);
    OneRound(c, p, CRLF);
  }

  lemma TakeContent(c: Config, p: Parser, content: string)
    requires p.window == "" && p.state == 3 && Accepts(c) && Plain(c.Delimiter()) && !Contains(content, c.Delimiter())
    ensures var (q, ok) := Parse(c, p, content + c.Delimiter()); ok && q.window == "" && q.state == 4
  {
    hide Find, Plain;
    var w := content + c.Delimiter();
    FoundInTime(content, c.Delimiter(), "", w, "");
    assert w[|w|..] == "";
    OneRound(c, p, w);
  }

  lemma TakeLineEnd(c: Config, p: Parser)
    requires p.window == "" && p.state == 4
    ensures var (q, ok) := Parse(c, p, CRLF); ok && q.window == "" && q.state == 1
  {
    assert At(CRLF, 0, CRLF);
    OneRound(c, p, CRLF);
  }

  /** A line that is not shorter than the limit is refused when a piece ends inside its line
    end. */
  lemma RefuseLine(c: Config, p: Parser, line: string)
    requires p.window == "" && (p.state == 2 || p.state == 1)
    requires |line| >= HEADER_MAX_LENGTH && !Contains(line, CRLF)
    ensures !Parse(c, p, line + "\r").1
  {
    hide Find, HeaderLines;
    var w := line + "\r";
    FoundInTime(line, CRLF, "", w, "\n");
    assert p.window + w == w;
    var q := Parser(2, w, if p.state == 1 then BLANK else p.file, p.events, p.valid);
    assert Loop(c, p.(window := w)) == Loop(c, q);
  }

  /** A cutting that ends in a refusal, if a long line is at or behind header line `j` of part
    `k`: one token a piece up to the line, and a cut inside its line end. */
  lemma {:induction false} Refused(m: Message, p: Parser, k: nat, j: nat) returns (pieces: seq<string>)
    requires m.Good() && k < |m.items| && j <= |Lines(m.items[k])| && p.window == ""
    requires (p.state == 1 && j == 0) || (p.state == 2 && FileOf(m.c, Lines(m.items[k])[..j]) == Some(p.file))
    requires (exists i: nat :: j <= i < |Lines(m.items[k])| && |Lines(m.items[k])[i]| >= HEADER_MAX_LENGTH)
          || (exists i :: i in m.items[k + 1..] && !Short(i))
    ensures Together(pieces) == m.FromLine(k, j) && !Feed(m.c, p, pieces).1
    decreases |m.items| - k, |Lines(m.items[k])| - j
  {
    hide Find, Lines, FileOf, Parse, Message.FromLine, Plain, Feed, Together;
    m.GoodItem(k);
    var item, lines := m.items[k], Lines(m.items[k]);
    m.LineFirst(k, j);
    if j == |lines| {
      var body := item.content + m.c.Delimiter();
      TakeEmptyLine(m.c, p);
      var q := Parse(m.c, p, CRLF).0;
      m.SendableContent(k);
      TakeContent(m.c, q, item.content);
      var r := Parse(m.c, q, body).0;
      TakeLineEnd(m.c, r);
      pieces := Refused(m, Parse(m.c, r, CRLF).0, k + 1, 0);
      pieces := Prepend(m.c, r, CRLF, pieces);
      pieces := Prepend(m.c, q, body, pieces);
      pieces := Prepend(m.c, p, CRLF, pieces);
      assert item.content[0..] == item.content;
    } else if |lines[j]| >= HEADER_MAX_LENGTH {
      assert lines[j] in lines;
      RefuseLine(m.c, p, lines[j]);
      pieces := Refusal(m.c, p, lines[j] + "\r", "\n" + m.AfterLine(k, j));
    } else {
      assert lines[j] in lines;
      var file := if p.state == 1 then BLANK else p.file;
      NoLines(m.c, lines);
      m.LineReadable(k, j, file);
      TakeLine(m.c, p, lines[j], m.c.readHeader(file, lines[j]).value);
      pieces := Refused(m, Parse(m.c, p, lines[j] + CRLF).0, k, j + 1);
      pieces := Prepend(m.c, p, lines[j] + CRLF, pieces);
    }
  }

  lemma NoLines(c: Config, lines: seq<string>)
    ensures FileOf(c, lines[..0]) == Some(BLANK)
  {
  }

  /** A piece that is taken, in front of a cutting. */
  lemma Prepend(c: Config, p: Parser, piece: string, tail: seq<string>) returns (pieces: seq<string>)
    requires Parse(c, p, piece).1
    ensures Together(pieces) == piece + Together(tail) && Feed(c, p, pieces) == Feed(c, Parse(c, p, piece).0, tail)
  {
    pieces := [piece] + tail;
    assert pieces[1..] == tail;
  }

  /** A piece that is refused, and the rest of the text. */
  lemma Refusal(c: Config, p: Parser, piece: string, rest: string) returns (pieces: seq<string>)
    requires !Parse(c, p, piece).1
    ensures Together(pieces) == piece + rest && !Feed(c, p, pieces).1
  {
    pieces := [piece, rest];
    assert Together(pieces[1..]) == rest + "";
  }

  /** Main result: a message survives every cutting if and only if each of its header lines is
    shorter than the limit. */
  lemma EveryCuttingIffShort(c: Config, items: seq<Item>)
    requires Message(c, items).Good()
    ensures (forall pieces | Together(pieces) == Serialize(items, c.boundary) :: Parsed(c, items, pieces))
       <==> (forall i | i in items :: Short(i))
  {
    hide Parsed, Serialize, Short;
    var m := Message(c, items);
    if m.AllShort() {
      forall pieces | Together(pieces) == Serialize(items, c.boundary)
        ensures Parsed(c, items, pieces)
      {
        FragmentsParse(c, items, pieces);
      }
    } else {
      var pieces := SomeCuttingFails(m);
      assert Together(pieces) == Serialize(items, c.boundary) && !Parsed(c, items, pieces);
    }
  }

  lemma SomeCuttingFails(m: Message) returns (pieces: seq<string>)
    requires m.Good() && !m.AllShort()
    ensures Together(pieces) == Serialize(m.items, m.c.boundary) && !Parsed(m.c, m.items, pieces)
  {
    hide Find, Lines, FileOf, Parse, Message.FromLine, Serialize, Feed;
    TakeOpening(m.c, FRESH);
    assert m.items == [m.items[0]] + m.items[1..];
    var tail := Refused(m, Parse(m.c, FRESH, m.c.Opening()).0, 0, 0);
    pieces := Prepend(m.c, FRESH, m.c.Opening(), tail);
    Started(m, [Serialize(m.items, m.c.boundary)]);
  }
}
