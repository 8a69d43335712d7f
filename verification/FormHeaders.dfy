/** Reading the header lines of a form part (RFC 7578, section 4.2, and RFC 2045, section 5),
  and what a form is read back as.
 */
module FormHeaders {
  import opened Options
  import opened TextSearch
  import opened Multipart
  import opened MultipartRoundTrip

  // -------------------------------------------------------------- the reader

  /** The text up to the first `c`, and the text behind it; nothing if there is no `c`. */
  function Cut(s: string, c: char): (r: Option<(string, string)>)
    ensures r.Some? ==> |r.value.1| < |s|
  {
    if s == "" then None
    else if s[0] == c then Some(("", s[1..]))
    else
      var rest := Cut(s[1..], c);
      if rest.None? then None else Some(([s[0]] + rest.value.0, rest.value.1))
  }

  predicate Begins(s: string, front: string) { |front| <= |s| && s[..|front|] == front }

  /** Parameters: each a semicolon, a space, a name, an equals sign and a quoted value. */
  function ReadParameters(s: string, file: FormData): Option<FormData>
    decreases |s|
  {
    if s == "" then Some(file)
    else if !Begins(s, "; ") then None
    else
      var key := Cut(s[2..], '=');
      if key.None? || !Begins(key.value.1, "\"") then None
      else
        var value := Cut(key.value.1[1..], '"');
        if value.None? then None
        else ReadParameters(value.value.1, WithParameter(file, key.value.0, value.value.0))
  }

  function WithParameter(file: FormData, key: string, value: string): FormData {
    if key == "name" then file.(name := value)
    else if key == "filename" then file.(filename := value)
    else file
  }

  const DISPOSITION: string := "Content-Disposition: form-data"
  const CONTENT_TYPE: string := "Content-Type: "

  /** A header line added to the part. */
  function ReadFormHeader(file: FormData, line: string): Option<FormData> {
    if Begins(line, DISPOSITION) then ReadParameters(line[|DISPOSITION|..], file)
    else if Begins(line, CONTENT_TYPE) then Some(file.(contentType := line[|CONTENT_TYPE|..]))
    else Some(file)
  }

  // -------------------------------------------------------------- plain items

  /** Text that needs no escape: without quotes and line ends. */
  ghost predicate Quotable(s: string) { '"' !in s && '\r' !in s && '\n' !in s }

  /** An item that a form can carry. */
  ghost predicate PlainItem(item: Item) {
    Quotable(item.name) && Quotable(item.filename) && Quotable(item.contentType)
  }

  /** The lines stay below the limit: the disposition with its parameters and the type. */
  predicate BelowLimit(item: Item) {
    && 39 + |item.name| + (if item.filename == "" then 0 else 13 + |item.filename|) < HEADER_MAX_LENGTH
    && 14 + |item.contentType| < HEADER_MAX_LENGTH
  }

  lemma {:induction false} CutAt(a: string, c: char, b: string)
    requires c !in a
    ensures Cut(a + [c] + b, c) == Some((a, b))
  {
    var s := a + [c] + b;
    if a == "" {
      assert s[1..] == b;
    } else {
      CutAt(a[1..], c, b);
      assert s[1..] == a[1..] + [c] + b;
      assert [a[0]] + a[1..] == a;
    }
  }

  /** One parameter in front of others. */
  lemma ReadsParameter(key: string, value: string, rest: string, file: FormData)
    requires '=' !in key && '"' !in value
    ensures ReadParameters("; " + key + "=\"" + value + "\"" + rest, file)
         == ReadParameters(rest, WithParameter(file, key, value))
  {
    hide Cut;
    var s := "; " + key + "=\"" + value + "\"" + rest;
    var tail := "\"" + value + "\"" + rest;
    assert s[..2] == "; " && s[2..] == key + ['='] + tail;
    CutAt(key, '=', tail);
    assert tail[..1] == "\"" && tail[1..] == value + ['"'] + rest;
    CutAt(value, '"', rest);
  }

  lemma NoParameters(file: FormData)
    ensures ReadParameters("", file) == Some(file)
  {
  }

  /** The disposition line of an item names it, and its file if it has one. */
  lemma ReadsDisposition(item: Item)
    requires PlainItem(item)
    ensures ReadFormHeader(BLANK, Lines(item)[0]) == Some(FormData(item.name, item.filename, "", []))
  {
    hide ReadParameters;
    var rest := if item.filename == "" then "" else "; filename=\"" + item.filename + "\"";
    var line := Lines(item)[0];
    assert line[..|DISPOSITION|] == DISPOSITION;
    assert line[|DISPOSITION|..] == "; " + "name" + "=\"" + item.name + "\"" + rest;
    ReadsParameter("name", item.name, rest, BLANK);
    var named := BLANK.(name := item.name);
    NoParameters(named);
    if item.filename != "" {
      ReadsParameter("filename", item.filename, "", named);
      assert rest == "; " + "filename" + "=\"" + item.filename + "\"" + "";
      NoParameters(named.(filename := item.filename));
    }
  }

  lemma ReadsType(item: Item, file: FormData)
    requires item.contentType != ""
    ensures |Lines(item)| == 2 && ReadFormHeader(file, Lines(item)[1]) == Some(file.(contentType := item.contentType))
  {
    var line := Lines(item)[1];
    assert line[..|CONTENT_TYPE|] == CONTENT_TYPE && line[|CONTENT_TYPE|..] == item.contentType;
    BeginsOtherwise(line, DISPOSITION, 8);
  }

  lemma BeginsOtherwise(s: string, front: string, k: nat)
    requires k < |s| && k < |front| && s[k] != front[k]
    ensures !Begins(s, front)
  {
    assert |front| <= |s| ==> s[..|front|][k] == s[k];
  }

  /** What the lines of an item say is the item. */
  lemma ReadsItem(c: Config, item: Item)
    requires PlainItem(item) && c.readHeader == ReadFormHeader
    ensures FileOf(c, Lines(item)) == Some(FormData(item.name, item.filename, item.contentType, []))
  {
    hide ReadFormHeader, Lines;
    var lines := Lines(item);
    ReadsDisposition(item);
    NoLine(c);
    LineCount(item);
    assert lines[..1] == [lines[0]] && lines[..1][..0] == [];
    assert FileOf(c, lines[..1]) == Some(FormData(item.name, item.filename, "", []));
    if item.contentType != "" {
      ReadsType(item, FormData(item.name, item.filename, "", []));
      assert lines[..|lines| - 1] == lines[..1];
    } else {
      assert lines == lines[..1];
    }
  }

  lemma NoLine(c: Config)
    ensures FileOf(c, []) == Some(BLANK)
  {
  }

  lemma LineCount(item: Item)
    ensures |Lines(item)| == if item.contentType == "" then 1 else 2
  {
  }

  /** The lines have no line end, and are short exactly when the item is. */
  lemma LinesArePlain(item: Item)
    requires PlainItem(item)
    ensures forall l | l in Lines(item) :: !Contains(l, CRLF)
    ensures Short(item) <==> BelowLimit(item)
  {
    hide Find, At;
    forall l | l in Lines(item)
      ensures !Contains(l, CRLF)
    {
      assert '\r' !in l;
      NoReturnNoEnd(l);
    }
    LineLengths(item);
  }

  lemma NoReturnNoEnd(l: string)
    requires '\r' !in l
    ensures !Contains(l, CRLF)
  {
    hide Find;
    forall k | 0 <= k < |l|
      ensures !At(l, k, CRLF)
    {
      assert k + 2 <= |l| ==> l[k..k + 2][0] == l[k];
    }
    FindIs(l, CRLF, |l|);
  }

  lemma LineLengths(item: Item)
    ensures Short(item) <==> BelowLimit(item)
  {
    var lines := Lines(item);
    assert lines[0] in lines;
    assert item.contentType != "" ==> lines[1] in lines;
    assert forall l | l in lines :: l == lines[0] || (item.contentType != "" && l == lines[1]);
  }

  // -------------------------------------------------------------- the text

  /** The text of a field in front of other items. */
  lemma TextOfField(item: Item, rest: seq<Item>, boundary: string)
    requires item.filename == "" && item.contentType == ""
    ensures Serialize([item] + rest, boundary)
         == "--" + boundary + "\r\n" + "Content-Disposition: form-data; name=\"" + item.name + "\"" + "\r\n" + "\r\n"
            + item.content + "\r\n" + Serialize(rest, boundary)
  {
    hide Joined;
    assert ([item] + rest)[1..] == rest;
    JoinedLines(Lines(item));
    var line := Lines(item)[0];
    assert line == "Content-Disposition: form-data; name=\"" + item.name + "\"";
    assert DASH + boundary + CRLF + (line + CRLF) + CRLF == DASH + boundary + CRLF + line + CRLF + CRLF;
    assert DASH + boundary + CRLF + line
        == DASH + boundary + CRLF + "Content-Disposition: form-data; name=\"" + item.name + "\"";
  }

  /** The text of a file with its name and type. */
  lemma TextOfFile(item: Item, rest: seq<Item>, boundary: string)
    requires item.filename != "" && item.contentType != ""
    ensures Serialize([item] + rest, boundary)
         == "--" + boundary + "\r\n" + "Content-Disposition: form-data; name=\"" + item.name + "\""
            + "; filename=\"" + item.filename + "\"" + "\r\n" + "Content-Type: " + item.contentType + "\r\n" + "\r\n"
            + item.content + "\r\n" + Serialize(rest, boundary)
  {
    hide Joined;
    assert ([item] + rest)[1..] == rest;
    JoinedLines(Lines(item));
    var front, line, ctype := DASH + boundary + CRLF, Lines(item)[0], "Content-Type: " + item.contentType;
    var named := "Content-Disposition: form-data; name=\"" + item.name + "\"";
    assert line == named + ("; filename=\"" + item.filename + "\"") && Lines(item)[1] == ctype;
    assert front + (line + CRLF + ctype + CRLF) + CRLF == front + line + CRLF + ctype + CRLF + CRLF;
    assert front + line == front + named + "; filename=\"" + item.filename + "\"";
    assert front + named == front + "Content-Disposition: form-data; name=\"" + item.name + "\"";
    assert front + line + CRLF + ctype == front + line + CRLF + "Content-Type: " + item.contentType;
  }

  lemma TextOfNothing(boundary: string)
    ensures Serialize([], boundary) == "--" + boundary + "--" + "\r\n"
  {
  }

  lemma JoinedLines(lines: seq<string>)
    ensures |lines| == 1 ==> Joined(lines) == lines[0] + CRLF
    ensures |lines| == 2 ==> Joined(lines) == lines[0] + CRLF + lines[1] + CRLF
  {
    if |lines| == 2 {
      assert lines[1..] == [lines[1]];
      assert Joined(lines[1..]) == lines[1] + CRLF;
    }
  }

  // --------------------------------------------------------------- main result

  /** What a form reader is to be told of an item. */
  function AsPart(item: Item): Part {
    Part(FormData(item.name, item.filename, item.contentType, []), item.content)
  }

  /** Main result: a form with one or more items, whose names need no escape, whose contents do
    not contain the delimiter and whose header lines are below the limit, is read back with
    every name, file name, type and content, however it is cut. */
  lemma FormRoundTrip(c: Config, items: seq<Item>, pieces: seq<string>)
    requires Accepts(c) && c.readHeader == ReadFormHeader && items != [] && '\r' !in c.boundary
    requires forall i | i in items :: PlainItem(i) && BelowLimit(i) && !Contains(i.content, c.Delimiter())
    requires Together(pieces) == Serialize(items, c.boundary)
    ensures var (p, ok) := Feed(c, FRESH, pieces);
            && ok && p.valid && |Parts(p.events)| == |items|
            && forall k | 0 <= k < |items| :: Parts(p.events)[k] == AsPart(items[k])
  {
    hide Feed, Serialize, Lines, FileOf, Find, PlainItem, BelowLimit, Short, Parts;
    forall i | i in items
      ensures Sendable(c, i) && Short(i) && FileOf(c, Lines(i)) == Some(AsPart(i).file)
    {
      ReadsItem(c, i);
      LinesArePlain(i);
    }
    FragmentsParse(c, items, pieces);
  }
}
