/** The parser object: a sliding window over a growing buffer. */
module FormDataParsing {
  import opened Multipart
  import opened TextSearch

  class FormDataParser {
    const c: Config
    var state: nat
    var isValid: bool
    var file: FormData
    /** Every callback made so far, in order. */
    var events: seq<Event>

    var buf: array<char>
    var spos: nat
    var epos: nat

    ghost predicate Valid()
      reads this
    {
      spos <= epos <= buf.Length && state <= 4
    }

    /** The bytes not yet consumed. */
    ghost function Window(): string
      requires Valid()
      reads this, buf
    {
      buf[spos..epos]
    }

    ghost function Value(): Parser
      requires Valid()
      reads this, buf
    {
      Parser(state, Window(), file, events, isValid)
    }

    /** Construction and `set_boundary` */
    constructor (c: Config)
      ensures Valid() && fresh(buf) && this.c == c && Value() == FRESH
    {
      this.c := c;
      state, isValid, file, events := 0, false, BLANK, [];
      buf, spos, epos := new char[0], 0, 0;
    }

    // ---------------------------------------------------------------- buffer

    method StartWith(from: nat, s: string) returns (yes: bool)
      requires Valid() && spos <= from <= epos
      ensures yes == At(Window(), from - spos, s)
    {
      if epos - from < |s| {
        return false;
      }
      yes := true;
      SliceOfSlice(buf[..], spos, epos, from - spos, from - spos + |s|);
      for i := 0 to |s|
        invariant forall k | 0 <= k < i :: buf[from + k] == s[k]
      {
        if buf[from + i] != s[i] {
          assert buf[from..from + |s|][i] != s[i];
          return false;
        }
      }
      assert buf[from..from + |s|] == s;
    }

    /** `buf_find` */
    method BufFind(s: string) returns (found: nat)
      requires Valid() && s != ""
      ensures found == Find(Window(), s)
    {
      hide Find;
      var first := s[0];
      var off := spos;
      while off < epos
        invariant spos <= off <= epos && forall k | 0 <= k < off - spos :: !At(Window(), k, s)
      {
        var pos := off;
        while pos != epos && buf[pos] != first
          invariant off <= pos <= epos && forall k | 0 <= k < pos - spos :: !At(Window(), k, s)
        {
          assert Window()[pos - spos] != s[0];
          NotAt(Window(), pos - spos, s);
          pos := pos + 1;
        }
        if pos == epos {
          FindIs(Window(), s, epos - spos);
          return epos - spos;
        }
        if |s| > epos - pos {
          FindIs(Window(), s, epos - spos);
          return epos - spos;
        }
        var here := StartWith(pos, s);
        if here {
          FindIs(Window(), s, pos - spos);
          return pos - spos;
        }
        off := pos + 1;
      }
      FindIs(Window(), s, epos - spos);
      found := epos - spos;
    }

    /** The first loop of `buf_append`. */
    method MoveToFront()
      requires Valid()
      modifies this`spos, this`epos, buf
      ensures Valid() && spos == 0 && Window() == old(Window())
    {
      var remaining := epos - spos;
      if remaining > 0 && spos > 0 {
        for i := 0 to remaining
          invariant spos == old(spos) && epos == old(epos)
          invariant forall k | 0 <= k < i :: buf[k] == old(buf[spos + k])
          invariant forall k | spos + i <= k < epos :: buf[k] == old(buf[k])
        {
          buf[i] := buf[spos + i];
        }
      }
      spos, epos := 0, remaining;
    }

    /** Its second loop. */
    method CopyBehind(data: string)
      requires Valid() && spos == 0 && epos + |data| <= buf.Length
      modifies this`epos, buf
      ensures Valid() && Window() == old(Window()) + data
    {
      for i := 0 to |data|
        invariant epos == old(epos) && buf[..epos] == old(buf[..epos]) && buf[epos..epos + i] == data[..i]
      {
        buf[epos + i] := data[i];
      }
      assert data[..|data|] == data;
      epos := epos + |data|;
      assert buf[..epos] == buf[..old(epos)] + buf[old(epos)..epos];
    }

    /** `buf_append`: move what is left to the front, grow, and copy. */
    method BufAppend(data: string)
      requires Valid()
      modifies this`buf, this`spos, this`epos, buf
      ensures Valid() && (buf == old(buf) || fresh(buf)) && Window() == old(Window()) + data
    {
      MoveToFront();
      if epos + |data| > buf.Length {
        Resize(epos + |data|);
      }
      CopyBehind(data);
    }

    method Resize(n: nat)
      requires Valid() && spos == 0 && n > buf.Length
      modifies this`buf
      ensures fresh(buf) && buf.Length == n && Valid() && Window() == old(Window())
    {
      var next := new char[n](_ => '\0');
      for i := 0 to buf.Length
        invariant buf == old(buf) && next[..i] == buf[..i]
      {
        next[i] := buf[i];
      }
      assert next[..epos] == next[..buf.Length][..epos];
      buf := next;
    }

    /** `buf_erase` */
    method BufErase(size: nat)
      requires Valid() && size <= epos - spos
      modifies this`spos
      ensures Valid() && Window() == old(Window())[size..]
    {
      spos := spos + size;
    }

    // ----------------------------------------------------------------- states

    /** State 0 */
    method InitialBoundary() returns (done: bool)
      requires Valid() && state == 0 && Window() != ""
      modifies this`spos, this`state
      ensures Valid() && Step(c, old(Value())) == if done then Return(Value(), true) else Continue(Value())
    {
      hide Find;
      var pos := BufFind(c.Opening());
      if pos == epos - spos {
        return true;
      }
      BufErase(pos + |c.Opening()|);
      state := 1;
      done := false;
    }

    /** A call of the content callback with the next `len` bytes, which are then dropped. */
    method Deliver(len: nat, drop: nat) returns (ok: bool)
      requires Valid() && len <= drop <= epos - spos
      modifies this`spos, this`events, this`isValid
      ensures Valid() && ok == c.onContent(old(Window())[..len])
      ensures var q := old(Value()).(events := old(events) + [Content(old(Window())[..len])]);
              Value() == if ok then q.(window := old(Window())[drop..]) else q.(valid := false)
    {
      var piece := buf[spos..spos + len];
      assert piece == Window()[..len];
      events := events + [Content(piece)];
      ok := c.onContent(piece);
      if ok {
        BufErase(drop);
      } else {
        isValid := false;
      }
    }

    /** State 3 */
    method ReadBody() returns (done: bool, ok: bool)
      requires Valid() && state == 3 && Window() != ""
      modifies this`spos, this`state, this`events, this`isValid
      ensures Valid() && Step(c, old(Value())) == if done then Return(Value(), ok) else Continue(Value())
    {
      hide Find, Config.Delimiter;
      var delimiter := c.Delimiter();
      if |delimiter| > epos - spos {
        return true, true;
      }
      var pos := BufFind(delimiter);
      if pos < epos - spos {
        ok := Deliver(pos, pos + |delimiter|);
        if ok {
          state := 4;
        }
        return !ok, ok;
      }
      var len := epos - spos - |delimiter|;
      ok := true;
      if len > 0 {
        ok := Deliver(len, len);
      }
      done := true;
    }

    /** State 4 */
    method ReadBoundary() returns (done: bool)
      requires Valid() && state == 4 && Window() != ""
      modifies this`spos, this`state, this`isValid
      ensures Valid() && Step(c, old(Value())) == if done then Return(Value(), true) else Continue(Value())
    {
      hide At;
      if |CRLF| > epos - spos {
        return true;
      }
      var next := StartWith(spos, CRLF);
      if next {
        BufErase(|CRLF|);
        state := 1;
        return false;
      }
      var last := StartWith(spos, DASH);
      if last {
        BufErase(|DASH|);
        isValid := true;
        BufErase(epos - spos);
        assert Window() == "";
        return false;
      }
      return true;
    }

    /** State 1 */
    method NewEntry()
      requires Valid() && state == 1 && Window() != ""
      modifies this`state, this`file
      ensures Valid() && Step(c, old(Value())) == Continue(Value())
    {
      file := BLANK;
      state := 2;
    }

    /** The empty line: a call of the header callback. */
    method EndHeaders() returns (ok: bool)
      requires Valid() && state == 2 && Find(Window(), CRLF) == 0 < |Window()|
      modifies this`spos, this`state, this`events, this`isValid
      ensures Valid() && HeaderLines(c, old(Value())) == if ok then Continue(Value()) else Return(Value(), false)
    {
      hide Find;
      events := events + [Header(file)];
      ok := c.onHeader(file);
      if ok {
        BufErase(|CRLF|);
        state := 3;
      } else {
        isValid := false;
      }
    }

    /** A header line, read into the part. */
    method TakeLine(pos: nat) returns (ok: bool)
      requires Valid() && state == 2 && 0 < pos == Find(Window(), CRLF) < |Window()|
      modifies this`spos, this`isValid, this`file
      ensures Valid() && HeaderLines(c, old(Value())) == if ok then HeaderLines(c, Value()) else Return(Value(), false)
      ensures ok ==> epos - spos < old(epos - spos)
    {
      hide Find;
      assert Window()[..pos] == buf[spos..spos + pos];
      var read := c.readHeader(file, buf[spos..spos + pos]);
      ok := read.Some?;
      if ok {
        file := read.value;
        BufErase(pos + |CRLF|);
      } else {
        isValid := false;
      }
    }

    /** State 2: the lines that have arrived. */
    method ReadHeaders() returns (done: bool, ok: bool)
      requires Valid() && state == 2 && Window() != ""
      modifies this`spos, this`state, this`events, this`isValid, this`file
      ensures Valid() && Step(c, old(Value())) == if done then Return(Value(), ok) else Continue(Value())
    {
      hide Find;
      var pos := BufFind(CRLF);
      if pos > HEADER_MAX_LENGTH {
        return true, false;
      }
      while pos < epos - spos
        invariant Valid() && state == 2 && pos == Find(Window(), CRLF)
        invariant HeaderLines(c, Value()) == HeaderLines(c, old(Value()))
        decreases epos - spos
      {
        if pos == 0 {
          ok := EndHeaders();
          return !ok, ok;
        }
        ok := TakeLine(pos);
        if !ok {
          return true, false;
        }
        pos := BufFind(CRLF);
      }
      return true, true;
    }

    /** One round of the loop of `parse`. */
    method Round() returns (done: bool, ok: bool)
      requires Valid() && Window() != ""
      modifies this`spos, this`state, this`events, this`isValid, this`file
      ensures Valid() && Step(c, old(Value())) == if done then Return(Value(), ok) else Continue(Value())
    {
      hide Step;
      done, ok := false, true;
      match state
      case 0 => done := InitialBoundary();
      case 1 => NewEntry();
      case 2 => done, ok := ReadHeaders();
      case 3 => done, ok := ReadBody();
      case _ => done := ReadBoundary();
    }

    /** `parse` */
    method Parse(data: string) returns (ok: bool)
      requires Valid()
      modifies this`spos, this`epos, this`buf, this`state, this`events, this`isValid, this`file, buf
      ensures Valid() && (buf == old(buf) || fresh(buf))
      ensures (Value(), ok) == Multipart.Parse(c, old(Value()), data)
    {
      hide Step;
      BufAppend(data);
      ghost var start := Value();
      while epos - spos > 0
        invariant Valid() && (buf == old(buf) || fresh(buf)) && Loop(c, Value()) == Loop(c, start)
        decreases epos - spos, if state == 1 then 1 else 0
      {
        var done, ok1 := Round();
        if done {
          return ok1;
        }
      }
      ok := true;
    }
  }

  lemma SliceOfSlice(s: string, lo: nat, hi: nat, a: nat, b: nat)
    requires lo <= hi <= |s| && a <= b <= hi - lo
    ensures s[lo..hi][a..b] == s[lo + a..lo + b]
  {
    var x, y := s[lo..hi][a..b], s[lo + a..lo + b];
    assert |x| == |y| && forall k | 0 <= k < |x| :: x[k] == y[k];
  }

  lemma NotAt(w: string, k: nat, s: string)
    requires k < |w| && s != "" && w[k] != s[0]
    ensures !At(w, k, s)
  {
    assert k + |s| <= |w| ==> w[k..k + |s|][0] == w[k];
  }
}
