/** Streaming multipart/form-data parsing (RFC 2046, section 5.1.1) and its serializer. */
module Multipart {
  import opened Options
  import opened TextSearch

  const DASH: string := "--"
  const HEADER_MAX_LENGTH := 8192

  datatype FormData = FormData(name: string, filename: string, contentType: string, headers: seq<(string, string)>)

  const BLANK := FormData("", "", "", [])

  /** What a parser is set up with: the boundary, what a header line adds to the part it
    belongs to (or that it is malformed), and what the two callbacks answer. */
  datatype Config = Config(
    boundary: string,
    readHeader: (FormData, string) -> Option<FormData>,
    onHeader: FormData -> bool,
    onContent: string -> bool)
  {
    function Opening(): string { DASH + boundary + CRLF }

    function Delimiter(): (s: string)
      ensures |s| >= 4
    {
      CRLF + DASH + boundary
    }
  }

  // ----------------------------------------------------------------- the parser

  datatype Event = Header(file: FormData) | Content(bytes: string)

  /** The parser between two calls: state 0..4, the bytes not yet consumed, the part being
    read, the callbacks made so far, and the flag. */
  datatype Parser = Parser(state: nat, window: string, file: FormData, events: seq<Event>, valid: bool)

  const FRESH := Parser(0, "", BLANK, [], false)

  datatype Outcome = Continue(p: Parser) | Return(p: Parser, ok: bool)

  /** The inner loop of state 2. */
  function HeaderLines(c: Config, p: Parser): (o: Outcome)
    ensures o.Continue? ==> |o.p.window| < |p.window|
    decreases |p.window|
  {
    var pos := Find(p.window, CRLF);
    if pos >= |p.window| then Return(p, true)
    else
      var rest := p.window[pos + |CRLF|..];
      if pos == 0 then
        var q := p.(events := p.events + [Header(p.file)]);
        if !c.onHeader(p.file) then Return(q.(valid := false), false)
        else Continue(q.(window := rest, state := 3))
      else
        var file := c.readHeader(p.file, p.window[..pos]);
        if file.None? then Return(p.(valid := false), false)
        else HeaderLines(c, p.(window := rest, file := file.value))
  }

  /** The body states hand over what cannot be part of the delimiter. */
  function Body(c: Config, p: Parser): (o: Outcome)
    ensures o.Continue? ==> |o.p.window| < |p.window|
  {
    var delimiter := c.Delimiter();
    if |delimiter| > |p.window| then Return(p, true)
    else
      var pos := Find(p.window, delimiter);
      if pos < |p.window| then
        var q := p.(events := p.events + [Content(p.window[..pos])]);
        if !c.onContent(p.window[..pos]) then Return(q.(valid := false), false)
        else Continue(q.(window := p.window[pos + |delimiter|..], state := 4))
      else
        var len := |p.window| - |delimiter|;
        if len == 0 then Return(p, true)
        else
          var q := p.(events := p.events + [Content(p.window[..len])]);
          if !c.onContent(p.window[..len]) then Return(q.(valid := false), false)
          else Return(q.(window := p.window[len..]), true)
  }

  function Boundary(p: Parser): (o: Outcome)
    ensures o.Continue? ==> |o.p.window| < |p.window|
  {
    if |CRLF| > |p.window| then Return(p, true)
    else if At(p.window, 0, CRLF) then Continue(p.(window := p.window[|CRLF|..], state := 1))
    else if At(p.window, 0, DASH) then Continue(p.(window := "", valid := true))
    else Return(p, true)
  }

  /** One round of the loop. */
  function Step(c: Config, p: Parser): (o: Outcome)
    requires p.window != ""
    ensures o.Continue? ==> |o.p.window| < |p.window| || (o.p.window == p.window && p.state == 1 && o.p.state == 2)
  {
    match p.state
    case 0 =>
      var pos := Find(p.window, c.Opening());
      if pos == |p.window| then Return(p, true)
      else
        Continue(p.(window := p.window[pos + |c.Opening()|..], state := 1))
    case 1 => Continue(p.(file := BLANK, state := 2))
    case 2 => if Find(p.window, CRLF) > HEADER_MAX_LENGTH then Return(p, false) else HeaderLines(c, p)
    case 3 => Body(c, p)
    case _ => Boundary(p)
  }

  function Loop(c: Config, p: Parser): (r: (Parser, bool))
    decreases |p.window|, if p.state == 1 then 1 else 0
  {
    if p.window == "" then (p, true)
    else
      match Step(c, p)
      case Return(q, ok) => (q, ok)
      case Continue(q) => Loop(c, q)
  }

  /** `FormDataParser::parse` */
  function Parse(c: Config, p: Parser, data: string): (Parser, bool) {
    Loop(c, p.(window := p.window + data))
  }

  /** A message arriving in pieces; the first failing call ends it. */
  function Feed(c: Config, p: Parser, pieces: seq<string>): (r: (Parser, bool))
    decreases |pieces|
  {
    if pieces == [] then (p, true)
    else
      var (q, ok) := Parse(c, p, pieces[0]);
      if !ok then (q, false) else Feed(c, q, pieces[1..])
  }
}
