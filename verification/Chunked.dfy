/** The chunked transfer coding (RFC 9112, section 7.1): hexadecimal sizes, lines, and the
  decoder as a function of its state.
 */
module Chunked {
  import opened Options
  import opened TextSearch

  // -------------------------------------------------------------- hexadecimal

  const CHARSET: string := "0123456789abcdef"

  /** `from_i_to_hex` as a function */
  function ToHex(n: nat): (s: string)
    ensures s != "" && forall c | c in s :: c in CHARSET
  {
    if n < 16 then [CHARSET[n]] else ToHex(n / 16) + [CHARSET[n % 16]]
  }

  function Digit(c: char): Option<nat> {
    if '0' <= c <= '9' then Some((c - '0') as nat)
    else if 'a' <= c <= 'f' then Some((c - 'a') as nat + 10)
    else if 'A' <= c <= 'F' then Some((c - 'A') as nat + 10)
    else None
  }

  /** Number of hexadecimal digits at the front. */
  function Run(s: string): (n: nat)
    ensures n <= |s| && forall k | 0 <= k < n :: Digit(s[k]).Some?
  {
    if s == "" || Digit(s[0]).None? then 0 else 1 + Run(s[1..])
  }

  function Value(s: string): nat
    requires forall k | 0 <= k < |s| :: Digit(s[k]).Some?
  {
    if s == "" then 0 else 16 * Value(s[..|s| - 1]) + Digit(s[|s| - 1]).value
  }

  predicate IsSpace(c: char) { c == ' ' || '\t' <= c <= '\r' }

  function SkipSpace(s: string): string {
    if s != "" && IsSpace(s[0]) then SkipSpace(s[1..]) else s
  }

  const ULONG_MAX := 0xffff_ffff_ffff_ffff

  /** `strtoul` in base 16: leading space, a sign, an optional prefix and digits; a value that
    is too large counts as the largest, and a minus sign negates modulo 2^64. */
  function StrToUl(s: string): Option<nat> {
    var t := SkipSpace(s);
    Amount(Unprefixed(Unsigned(t)), t != "" && t[0] == '-')
  }

  function Unsigned(t: string): string { if t != "" && (t[0] == '+' || t[0] == '-') then t[1..] else t }

  function Unprefixed(u: string): string {
    if |u| >= 3 && u[0] == '0' && (u[1] == 'x' || u[1] == 'X') && Digit(u[2]).Some? then u[2..] else u
  }

  function Amount(v: string, negative: bool): Option<nat> {
    var n := Run(v);
    if n == 0 then None
    else if Value(v[..n]) > ULONG_MAX then Some(ULONG_MAX)
    else if negative && Value(v[..n]) > 0 then Some(ULONG_MAX + 1 - Value(v[..n]))
    else Some(Value(v[..n]))
  }

  lemma CharsetDigit(k: nat)
    requires k < 16
    ensures Digit(CHARSET[k]) == Some(k)
  {
  }

  lemma {:induction false} ValueOfHex(n: nat)
    ensures forall k | 0 <= k < |ToHex(n)| :: Digit(ToHex(n)[k]).Some?
    ensures Value(ToHex(n)) == n
  {
    hide Digit;
    CharsetDigit(n % 16);
    if n < 16 {
      ValuePush("", CHARSET[n]);
      assert "" + [CHARSET[n]] == ToHex(n);
    } else {
      ValueOfHex(n / 16);
      ValuePush(ToHex(n / 16), CHARSET[n % 16]);
    }
  }

  lemma ValuePush(s: string, c: char)
    requires (forall k | 0 <= k < |s| :: Digit(s[k]).Some?) && Digit(c).Some?
    ensures Value(s + [c]) == 16 * Value(s) + Digit(c).value
  {
    assert (s + [c])[..|s|] == s;
  }

  lemma {:induction false} RunIs(s: string, n: nat)
    requires n <= |s| && (forall k | 0 <= k < n :: Digit(s[k]).Some?) && (n < |s| ==> Digit(s[n]).None?)
    ensures Run(s) == n
  {
    if n > 0 {
      RunIs(s[1..], n - 1);
    }
  }

  lemma NotSpecial(c: char)
    requires Digit(c).Some?
    ensures !IsSpace(c) && c != '+' && c != '-' && c != 'x' && c != 'X' && c != '\r'
  {
  }

  /** Printing a size and parsing the line it stands on are inverse. */
  lemma HexRoundTrip(n: nat)
    requires n <= ULONG_MAX
    ensures StrToUl(ToHex(n) + CRLF) == Some(n)
  {
    hide Digit, Value, Amount;
    ValueOfHex(n);
    NotSpecial(ToHex(n)[0]);
    assert (ToHex(n) + CRLF)[0] == ToHex(n)[0];
    NoDigit();
    NoPrefix(ToHex(n), CRLF);
    AmountIs(ToHex(n), CRLF, false);
  }

  lemma NoDigit()
    ensures Digit('\r').None? && CRLF[0] == '\r'
  {
  }

  /** The sixteen digits, letters in either case. */
  lemma DigitIs(c: char, k: nat)
    requires k < 16
    ensures Digit(c) == Some(k) <==> c == "0123456789abcdef"[k] || c == "0123456789ABCDEF"[k]
  {
  }

  /** A size line is read up to what is not a digit: the rest, an extension, is not looked at,
    and a size that is too large counts as the largest. */
  lemma ReadsDigits(digits: string, rest: string)
    requires digits != "" && forall k | 0 <= k < |digits| :: Digit(digits[k]).Some?
    requires rest == "" || (Digit(rest[0]).None? && rest[0] != 'x' && rest[0] != 'X')
    ensures StrToUl(digits + rest) == Some(if Value(digits) > ULONG_MAX then ULONG_MAX else Value(digits))
  {
    hide Digit, Value, Amount;
    NotSpecial(digits[0]);
    assert (digits + rest)[0] == digits[0];
    NoPrefix(digits, rest);
    AmountIs(digits, rest, false);
  }

  // In front of the digits may be space, a sign and a prefix.

  lemma SpaceIsSkipped(c: char, s: string)
    requires IsSpace(c)
    ensures StrToUl([c] + s) == StrToUl(s)
  {
    hide Amount, Unprefixed, Unsigned;
    assert ([c] + s)[1..] == s;
  }

  lemma AmountIs(digits: string, rest: string, negative: bool)
    requires digits != "" && forall k | 0 <= k < |digits| :: Digit(digits[k]).Some?
    requires rest == "" || Digit(rest[0]).None?
    ensures Amount(digits + rest, negative)
         == Some(if Value(digits) > ULONG_MAX then ULONG_MAX
                 else if negative && Value(digits) > 0 then ULONG_MAX + 1 - Value(digits) else Value(digits))
  {
    hide Digit, Value;
    var d := digits + rest;
    assert forall k | 0 <= k < |digits| :: d[k] == digits[k];
    assert rest != "" ==> d[|digits|] == rest[0];
    RunIs(d, |digits|);
    assert d[..|digits|] == digits;
  }

  lemma PrefixIsSkipped(x: char, digits: string, rest: string)
    requires digits != "" && (forall k | 0 <= k < |digits| :: Digit(digits[k]).Some?) && (x == 'x' || x == 'X')
    requires rest == "" || Digit(rest[0]).None?
    ensures StrToUl("0" + [x] + (digits + rest))
         == Some(if Value(digits) > ULONG_MAX then ULONG_MAX else Value(digits))
  {
    hide Digit, Value, Amount;
    var s := "0" + [x] + (digits + rest);
    assert s[0] == '0' && s[1] == x && s[2] == digits[0] && s[2..] == digits + rest;
    AmountIs(digits, rest, false);
  }

  lemma SignIsRead(sign: char, digits: string, rest: string)
    requires digits != "" && (forall k | 0 <= k < |digits| :: Digit(digits[k]).Some?) && (sign == '+' || sign == '-')
    requires rest == "" || (Digit(rest[0]).None? && rest[0] != 'x' && rest[0] != 'X')
    ensures StrToUl([sign] + (digits + rest))
         == Some(if Value(digits) > ULONG_MAX then ULONG_MAX
                 else if sign == '-' && Value(digits) > 0 then ULONG_MAX + 1 - Value(digits) else Value(digits))
  {
    hide Digit, Value, Amount;
    var s := [sign] + (digits + rest);
    assert s[0] == sign && s[1..] == digits + rest;
    NoPrefix(digits, rest);
    AmountIs(digits, rest, sign == '-');
  }

  lemma NoPrefix(digits: string, rest: string)
    requires digits != "" && forall k | 0 <= k < |digits| :: Digit(digits[k]).Some?
    requires rest == "" || (Digit(rest[0]).None? && rest[0] != 'x' && rest[0] != 'X')
    ensures Unprefixed(digits + rest) == digits + rest
  {
    hide Digit;
    var d := digits + rest;
    if |d| > 1 {
      assert d[1] == if |digits| > 1 then digits[1] else rest[0];
      if |digits| > 1 {
        NotSpecial(digits[1]);
      }
    }
  }

  // ------------------------------------------------------------------ encoding

  function Chunk(payload: string): string { ToHex(|payload|) + CRLF + payload + CRLF }

  /** What the sink has put out after these writes: nothing for an empty one. */
  function Encoded(writes: seq<string>): string {
    if writes == [] then ""
    else (if writes[0] == "" then "" else Chunk(writes[0])) + Encoded(writes[1..])
  }

  function Trailer(fields: seq<(string, string)>): string {
    if fields == [] then "" else fields[0].0 + ": " + fields[0].1 + CRLF + Trailer(fields[1..])
  }

  const DONE_MARKER: string := "0" + CRLF

  // ------------------------------------------------------------------ decoding

  const MAX_LINE_LENGTH := 32768

  /** `getline` on a connection that will deliver `left`: the line with its end and what is
    left, or a failure for no bytes or too many. */
  function GetLine(left: string): (r: Option<(string, string)>)
    ensures r.Some? ==> r.value.0 != "" && left == r.value.0 + r.value.1
  {
    var k := Find(left, CRLF);
    if k < |left| then
      if k + 2 <= MAX_LINE_LENGTH then Some((left[..k + 2], left[k + 2..])) else None
    else if left == "" || |left| >= MAX_LINE_LENGTH then None
    else Some((left, ""))
  }

  /** The decoder and what its connection will still deliver. */
  datatype Decoder = Decoder(left: string, remaining: nat, finished: bool, total: nat, offset: nat)

  datatype Reply = Piece(bytes: string, offset: nat, total: nat) | Done | Failed

  /** How many of `n` bytes a read delivers when the network has `short` of them ready. */
  function Delivered(n: nat, short: nat, available: nat): (k: nat)
    ensures k <= n && k <= available && (n > 0 && available > 0 ==> k > 0)
  {
    var m := if n <= available then n else available;
    if short == 0 then (if m > 0 then 1 else 0) else if short <= m then short else m
  }

  /** The size line of the next chunk. */
  function NextChunk(d: Decoder): Option<Decoder> {
    var line := GetLine(d.left);
    if line.None? then None else
      var size := StrToUl(line.value.0);
      if size.None? || size.value == ULONG_MAX then None
      else if size.value == 0 then Some(d.(left := line.value.1, remaining := 0, finished := true))
      else Some(d.(left := line.value.1, remaining := size.value, total := size.value, offset := 0))
  }

  /** The read of payload bytes. */
  function ReadBytes(d: Decoder, len: nat, short: nat): (r: (Decoder, Reply)) {
    var n := Delivered(if d.remaining <= len then d.remaining else len, short, |d.left|);
    if n == 0 then (d, Failed)
    else
      var q := d.(left := d.left[n..], remaining := d.remaining - n, offset := d.offset + n);
      var piece := Piece(d.left[..n], d.offset, d.total);
      if q.remaining > 0 then (q, piece)
      else
        var line := GetLine(q.left);
        if line.None? || line.value.0 != CRLF then (q, Failed)
        else (q.(left := line.value.1), piece)
  }

  /** `ChunkedDecoder::read_payload` with a buffer of `len` bytes, once the connection is read
    to the point the reply needs.  After a failure the decoder is not used again. */
  function ReadPayload(d: Decoder, len: nat, short: nat): (r: (Decoder, Reply)) {
    if d.finished then (d, Done)
    else
      var next := if d.remaining == 0 then NextChunk(d) else Some(d);
      if next.None? then (d, Failed)
      else if next.value.finished then (next.value, Done)
      else ReadBytes(next.value, len, short)
  }
}
