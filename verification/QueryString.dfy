/** Printing and parsing query strings (RFC 3986, section 2.1, and the plus sign for a space). */
module QueryString {
  import opened Options
  import opened Chunked

  /** A string of bytes. */
  type Text = s: string | forall i | 0 <= i < |s| :: s[i] as int < 256

  // ------------------------------------------------------------------ components

  predicate Alnum(c: char) { '0' <= c <= '9' || 'A' <= c <= 'Z' || 'a' <= c <= 'z' }

  const SAFE: string := "-._~!$'()*,;:@/?"

  const UPPER: string := "0123456789ABCDEF"

  /** One character of `encode_query_component`. */
  function EncodeChar(c: char): (s: Text)
    requires c as int < 256
    ensures s != "" && forall d | d in s :: d !in " \t&="
  {
    if Alnum(c) || c in SAFE then [c]
    else if c == ' ' then "+"
    else
      Escape(c)
  }

  function Escape(c: char): (s: Text)
    requires c as int < 256
    ensures |s| == 3 && s[0] == '%' && forall d | d in s :: d !in " \t&="
    ensures Digit(s[1]) == Some(c as nat / 16) && Digit(s[2]) == Some(c as nat % 16)
  {
    var high, low := c as nat / 16, c as nat % 16;
    UpperDigit(high);
    UpperDigit(low);
    ['%', UPPER[high], UPPER[low]]
  }

  lemma UpperDigit(k: nat)
    requires k < 16
    ensures Digit(UPPER[k]) == Some(k) && UPPER[k] !in " \t&=" && UPPER[k] as int < 256
  {
  }

  function Encode(s: Text): (e: Text)
    ensures forall d | d in e :: d !in " \t&="
    ensures e == "" <==> s == ""
  {
    if s == "" then "" else EncodeChar(s[0]) + Encode(s[1..])
  }

  /** `encode_query_component` */
  method EncodeQueryComponent(component: Text) returns (result: Text)
    ensures result == Encode(component)
  {
    hide EncodeChar;
    result := "";
    for i := 0 to |component|
      invariant result + Encode(component[i..]) == Encode(component)
    {
      assert component[i..][1..] == component[i + 1..];
      result := result + EncodeChar(component[i]);
    }
  }

  /** What `strtoul` in base 16 makes of two characters, if it takes both. */
  function HexPair(a: char, b: char): Option<nat> {
    if Digit(b).None? then None
    else if Digit(a).Some? then Some(16 * Digit(a).value + Digit(b).value)
    else if IsSpace(a) || a == '+' then Digit(b)
    else if a == '-' then Some((256 - Digit(b).value) % 256)
    else None
  }

  /** The next decoded character and how many are taken for it. */
  function Next(s: Text): (r: (char, nat))
    requires s != ""
    ensures 0 < r.1 <= |s| && r.0 as int < 256
  {
    if s[0] == '%' && |s| > 2 && HexPair(s[1], s[2]).Some? then ((HexPair(s[1], s[2]).value % 256) as char, 3)
    else if s[0] == '+' then (' ', 1)
    else (s[0], 1)
  }

  function Decode(s: Text): Text {
    if s == "" then "" else [Next(s).0] + Decode(s[Next(s).1..])
  }

  /** `decode_query_component` */
  method DecodeQueryComponent(component: Text) returns (result: Text)
    ensures result == Decode(component)
  {
    hide HexPair, Next;
    result := "";
    var i := 0;
    while i < |component|
      invariant i <= |component| && result + Decode(component[i..]) == Decode(component)
    {
      var c, n := DecodeAt(component, i);
      assert component[i..][n..] == component[i + n..];
      result := result + [c];
      i := i + n;
    }
  }

  /** The body of the loop. */
  method DecodeAt(component: Text, i: nat) returns (c: char, n: nat)
    requires i < |component|
    ensures (c, n) == Next(component[i..])
  {
    hide HexPair;
    c, n := component[i], 1;
    if component[i] == '%' && i + 2 < |component| {
      var value := HexPair(component[i + 1], component[i + 2]);
      if value.Some? {
        c, n := (value.value % 256) as char, 3;
      }
    } else if component[i] == '+' {
      c := ' ';
    }
  }

  lemma DecodesChar(c: char, rest: Text)
    requires c as int < 256
    ensures Decode(EncodeChar(c) + rest) == [c] + Decode(rest)
  {
    hide Decode, Next;
    var s := EncodeChar(c) + rest;
    NextIs(c, rest);
    assert s[|EncodeChar(c)|..] == rest;
    DecodeUnfolds(s);
  }

  lemma NextIs(c: char, rest: Text)
    requires c as int < 256
    ensures Next(EncodeChar(c) + rest) == (c, |EncodeChar(c)|)
  {
    var s := EncodeChar(c) + rest;
    hide Digit;
    if !(Alnum(c) || c in SAFE || c == ' ') {
      assert s[0] == '%' && s[1] == Escape(c)[1] && s[2] == Escape(c)[2];
    }
  }

  lemma DecodeUnfolds(s: Text)
    requires s != ""
    ensures Decode(s) == [Next(s).0] + Decode(s[Next(s).1..])
  {
    hide Next;
  }

  /** Decoding a component undoes encoding it. */
  lemma {:induction false} ComponentRoundTrip(s: Text)
    ensures Decode(Encode(s)) == s
  {
    hide EncodeChar, Decode;
    if s == "" {
      DecodesNothing();
    } else {
      DecodesChar(s[0], Encode(s[1..]));
      ComponentRoundTrip(s[1..]);
    }
  }

  lemma DecodesNothing()
    ensures Decode("") == ""
  {
  }

  /** The characters RFC 3986 allows in a query: unreserved ones, those of an escape, the
    sub-delimiters and the rest of a path (section 3.4). */
  predicate QueryChar(c: char) {
    'A' <= c <= 'Z' || 'a' <= c <= 'z' || '0' <= c <= '9' || c in "-._~%!$&'()*+,;=:@/?"
  }

  /** Letters, digits and the marks that are never to be escaped (section 2.3) stand for
    themselves; everything written is allowed in a query. */
  lemma {:induction false} EncodedIsQuery(s: Text)
    ensures forall d | d in Encode(s) :: QueryChar(d)
    ensures (forall c | c in s :: Alnum(c) || c in "-._~") ==> Encode(s) == s
  {
    hide EncodeChar, QueryChar;
    if s != "" {
      CharIsQuery(s[0]);
      assert s == [s[0]] + s[1..];
      EncodedIsQuery(s[1..]);
    }
  }

  lemma CharIsQuery(c: char)
    requires c as int < 256
    ensures forall d | d in EncodeChar(c) :: QueryChar(d)
    ensures Alnum(c) || c in "-._~" ==> EncodeChar(c) == [c]
  {
    hide Escape;
    EscapeIsQuery(c);
  }

  lemma EscapeIsQuery(c: char)
    requires c as int < 256
    ensures forall d | d in Escape(c) :: QueryChar(d)
  {
    UpperIsQuery(c as nat / 16);
    UpperIsQuery(c as nat % 16);
    assert Escape(c) == ['%', UPPER[c as nat / 16], UPPER[c as nat % 16]];
  }

  lemma UpperIsQuery(k: nat)
    requires k < 16
    ensures QueryChar(UPPER[k])
  {
  }

  /** Decoding of any text goes on from what stands at its front: an escape of two hexadecimal
    digits of either case, a plus sign, or any other character but `%`. */
  lemma DecodeFronts(high: char, low: char, c: char, rest: Text)
    requires c as int < 256 && c != '%' && c != '+'
    ensures Digit(high).Some? && Digit(low).Some? ==>
              Decode(['%', high, low] + rest) == [(16 * Digit(high).value + Digit(low).value) as char] + Decode(rest)
    ensures Decode(['+'] + rest) == [' '] + Decode(rest)
    ensures Decode([c] + rest) == [c] + Decode(rest)
  {
    hide Decode, Digit;
    assert (['+'] + rest)[1..] == rest && ([c] + rest)[1..] == rest;
    DecodeUnfolds(['+'] + rest);
    DecodeUnfolds([c] + rest);
    if Digit(high).Some? && Digit(low).Some? {
      DigitsAreBytes(high);
      DigitsAreBytes(low);
      var t: Text := ['%', high, low] + rest;
      assert t[3..] == rest;
      DecodeUnfolds(t);
    }
  }

  lemma DigitsAreBytes(c: char)
    requires Digit(c).Some?
    ensures c as int < 256 && Digit(c).value < 16
  {
  }

  // ------------------------------------------------------------------- splitting

  predicate IsBlank(c: char) { c == ' ' || c == '\t' }

  /** Where the first `c` at or behind `i` is, or the end. */
  function IndexOf(s: Text, c: char, i: nat): (k: nat)
    requires i <= |s|
    ensures i <= k <= |s| && (k < |s| ==> s[k] == c) && forall j | i <= j < k :: s[j] != c
    decreases |s| - i
  {
    if i == |s| || s[i] == c then i else IndexOf(s, c, i + 1)
  }

  /** A pair as it stands in a query. */
  type Pair = (Text, Text)

  function Printed(p: Pair): (s: Text)
    ensures s != "" && forall d | d in s :: d !in " \t&"
  {
    Encode(p.0) + "=" + Encode(p.1)
  }

  /** `params_to_query_str` */
  function Query(params: seq<Pair>): Text {
    if params == [] then ""
    else if |params| == 1 then Printed(params[0])
    else Printed(params[0]) + "&" + Query(params[1..])
  }

  method PrintPair(p: Pair) returns (s: Text)
    ensures s == Printed(p)
  {
    hide Encode;
    var key := EncodeQueryComponent(p.0);
    s := key + "=";
    var val := EncodeQueryComponent(p.1);
    s := s + val;
  }

  /** The text with its `&` for the pairs from `i` on. */
  function Tail(params: seq<Pair>, i: nat): Text
    requires i <= |params|
  {
    if i == 0 || i == |params| then Query(params[i..]) else "&" + Query(params[i..])
  }

  lemma TailStep(params: seq<Pair>, i: nat)
    requires i < |params|
    ensures Tail(params, i) == (if i == 0 then "" else "&") + Printed(params[i]) + Tail(params, i + 1)
  {
    hide Printed, Query;
    QueryIs(params[i..]);
    assert params[i..][1..] == params[i + 1..];
    QueryOfNothing();
  }

  lemma QueryOfNothing()
    ensures Query([]) == ""
  {
  }

  lemma QueryIs(params: seq<Pair>)
    requires params != []
    ensures Query(params) == Printed(params[0]) + (if |params| == 1 then "" else "&" + Query(params[1..]))
  {
    hide Printed;
  }

  method ParamsToQueryStr(params: seq<Pair>) returns (query: Text)
    ensures query == Query(params)
  {
    hide Printed, Tail, Query;
    query := "";
    TailEnds(params);
    for i := 0 to |params|
      invariant query + Tail(params, i) == Query(params)
    {
      TailStep(params, i);
      if i != 0 {
        query := query + "&";
      }
      var pair := PrintPair(params[i]);
      query := query + pair;
    }
  }

  lemma TailEnds(params: seq<Pair>)
    ensures Tail(params, 0) == Query(params) && Tail(params, |params|) == ""
  {
    assert params[0..] == params;
  }

  // The two loops of `trim`: they run over the whole text, not only over the piece.

  function TrimLeft(s: Text, left: nat): (l: nat)
    requires left <= |s|
    ensures left <= l <= |s|
    decreases |s| - left
  {
    if left < |s| && IsBlank(s[left]) then TrimLeft(s, left + 1) else left
  }

  function TrimRight(s: Text, right: nat): (r: nat)
    requires right <= |s|
    ensures r <= right
  {
    if right > 0 && IsBlank(s[right - 1]) then TrimRight(s, right - 1) else right
  }

  method Trim(s: Text, left0: nat, right0: nat) returns (left: nat, right: nat)
    requires left0 <= |s| && right0 <= |s|
    ensures left == TrimLeft(s, left0) && right == TrimRight(s, right0)
  {
    left, right := left0, right0;
    while left < |s| && IsBlank(s[left])
      invariant left <= |s| && TrimLeft(s, left) == TrimLeft(s, left0)
    {
      left := left + 1;
    }
    while right > 0 && IsBlank(s[right - 1])
      invariant right <= |s| && TrimRight(s, right) == TrimRight(s, right0)
    {
      right := right - 1;
    }
  }

  function Piece(s: Text, beg: nat, end: nat): (pieces: seq<Text>)
    requires beg <= end <= |s|
  {
    if TrimLeft(s, beg) < TrimRight(s, end) then [s[TrimLeft(s, beg)..TrimRight(s, end)]] else []
  }

  lemma {:induction false} TrimmedLeft(s: Text, left: nat)
    requires left <= |s|
    ensures var l := TrimLeft(s, left); (l < |s| ==> !IsBlank(s[l])) && forall k | left <= k < l :: IsBlank(s[k])
    decreases |s| - left
  {
    if left < |s| && IsBlank(s[left]) { TrimmedLeft(s, left + 1); }
  }

  lemma {:induction false} TrimmedRight(s: Text, right: nat)
    requires right <= |s|
    ensures var r := TrimRight(s, right); (r > 0 ==> !IsBlank(s[r - 1])) && forall k | r <= k < right :: IsBlank(s[k])
  {
    if right > 0 && IsBlank(s[right - 1]) { TrimmedRight(s, right - 1); }
  }

  /** A piece is what is left of its stretch of text when blanks are taken off both ends, and
    nothing if that is nothing. */
  lemma PieceIsTrimmed(s: Text, beg: nat, end: nat, l: nat, r: nat)
    requires beg <= l < r <= end <= |s| && !IsBlank(s[l]) && !IsBlank(s[r - 1])
    requires forall k | beg <= k < l || r <= k < end :: IsBlank(s[k])
    ensures Piece(s, beg, end) == [s[l..r]]
  {
    hide TrimLeft, TrimRight;
    TrimmedLeft(s, beg);
    TrimmedRight(s, end);
  }

  lemma BlankPiece(s: Text, beg: nat, end: nat)
    requires beg <= end <= |s| && forall k | beg <= k < end :: IsBlank(s[k])
    ensures Piece(s, beg, end) == []
  {
    hide TrimLeft, TrimRight;
    TrimmedLeft(s, beg);
    TrimmedRight(s, end);
  }

  /** The pieces from `beg` on that are not blank. */
  function Pieces(s: Text, beg: nat): (pieces: seq<Text>)
    requires beg <= |s|
    decreases |s| - beg
  {
    var i := IndexOf(s, '&', beg);
    Piece(s, beg, i) + (if i < |s| then Pieces(s, i + 1) else [])
  }

  /** `split` at `&` */
  method Split(s: Text) returns (pieces: seq<Text>)
    ensures pieces == Pieces(s, 0)
  {
    hide TrimLeft, TrimRight, Piece, Pieces;
    pieces := [];
    var i, beg := 0, 0;
    while i < |s|
      invariant beg <= i <= |s| && forall j | beg <= j < i :: s[j] != '&'
      invariant pieces + Pieces(s, beg) == Pieces(s, 0)
    {
      if s[i] == '&' {
        PiecesUnfold(s, beg, i);
        var more := TakePiece(s, beg, i);
        pieces := pieces + more;
        beg := i + 1;
      }
      i := i + 1;
    }
    PiecesUnfold(s, beg, i);
    if i != 0 {
      var more := TakePiece(s, beg, i);
      pieces := pieces + more;
    } else {
      NoPiece(s);
    }
  }

  lemma PiecesUnfold(s: Text, beg: nat, i: nat)
    requires beg <= i <= |s| && (forall j | beg <= j < i :: s[j] != '&') && (i < |s| ==> s[i] == '&')
    ensures Pieces(s, beg) == Piece(s, beg, i) + (if i < |s| then Pieces(s, i + 1) else [])
  {
    hide Piece, IndexOf;
    IndexIs(s, '&', beg, i);
  }

  lemma NoPiece(s: Text)
    requires s == ""
    ensures Piece(s, 0, 0) == []
  {
  }

  method TakePiece(s: Text, beg: nat, end: nat) returns (pieces: seq<Text>)
    requires beg <= end <= |s|
    ensures pieces == Piece(s, beg, end)
  {
    var l, r := Trim(s, beg, end);
    pieces := if l < r then [s[l..r]] else [];
  }

  lemma IndexIs(s: Text, c: char, i: nat, k: nat)
    requires i <= k <= |s| && (k < |s| ==> s[k] == c) && forall j | i <= j < k :: s[j] != c
    ensures IndexOf(s, c, i) == k
  {
    hide IndexOf;
  }

  // --------------------------------------------------------------------- parsing

  /** Order of keys: by bytes, a prefix first. */
  predicate Less(a: Text, b: Text) {
    if b == "" then false
    else if a == "" then true
    else if a[0] != b[0] then a[0] < b[0]
    else Less(a[1..], b[1..])
  }

  /** `a` is smaller: it is a proper prefix of `b`, or has the smaller byte where they first
    differ. */
  ghost predicate Smaller(a: Text, b: Text, k: nat) {
    k <= |a| && k < |b| && a[..k] == b[..k] && (k == |a| || a[k] < b[k])
  }

  lemma SameFront(a: Text, b: Text, k: nat)
    requires Smaller(a, b, k)
    ensures k > 0 ==> a != "" && b != "" && a[0] == b[0]
  {
    assert k > 0 ==> a[..k][0] == a[0] && b[..k][0] == b[0];
  }

  lemma {:induction false} LessIff(a: Text, b: Text)
    ensures Less(a, b) <==> exists k: nat :: Smaller(a, b, k)
    decreases |b|
  {
    if b != "" && a != "" && a[0] == b[0] {
      LessIff(a[1..], b[1..]);
      if k: nat :| Smaller(a[1..], b[1..], k) {
        assert a[..k + 1] == [a[0]] + a[1..][..k] && b[..k + 1] == [b[0]] + b[1..][..k];
        assert Smaller(a, b, k + 1);
      }
      if k: nat :| Smaller(a, b, k) {
        assert k > 0;
        assert a[1..][..k - 1] == a[..k][1..] && b[1..][..k - 1] == b[..k][1..];
        assert Smaller(a[1..], b[1..], k - 1);
      }
    } else if b != "" && a != "" {
      assert Less(a, b) ==> Smaller(a, b, 0);
      forall k: nat | Smaller(a, b, k)
        ensures k > 0 ==> a[0] == b[0]
      {
        SameFront(a, b, k);
      }
    } else if b != "" {
      assert Smaller(a, b, 0);
    }
  }

  /** Whatever lies between them, one of the two is apart from it. */
  lemma {:induction false} LessSplits(a: Text, b: Text, c: Text)
    ensures Less(a, b) ==> Less(a, c) || Less(c, b)
    decreases |a|
  {
    if a != "" && b != "" && c != "" {
      LessSplits(a[1..], b[1..], c[1..]);
    }
  }

  lemma {:induction false} NotLessItself(a: Text)
    ensures !Less(a, a)
  {
    if a != "" { NotLessItself(a[1..]); }
  }

  /** A multimap lists its pairs by key; pairs with one key keep the order of insertion. */
  ghost predicate Listed(params: seq<Pair>) {
    forall i, j | 0 <= i < j < |params| :: !Less(params[j].0, params[i].0)
  }

  /** Insert behind all keys that are not greater. */
  function Emplace(params: seq<Pair>, p: Pair): seq<Pair> {
    if params == [] then [p]
    else if Less(p.0, params[|params| - 1].0) then Emplace(params[..|params| - 1], p) + [params[|params| - 1]]
    else params + [p]
  }

  /** The pairs with one key, in order. */
  function OfKey(params: seq<Pair>, key: Text): (q: seq<Pair>) {
    if params == [] then []
    else
      var last := params[|params| - 1];
      OfKey(params[..|params| - 1], key) + (if last.0 == key then [last] else [])
  }

  lemma OfKeyPush(params: seq<Pair>, p: Pair, key: Text)
    ensures OfKey(params + [p], key) == OfKey(params, key) + (if p.0 == key then [p] else [])
  {
    assert (params + [p])[..|params|] == params;
  }

  /** Inserting a pair keeps the list in order, adds this pair alone, and puts it behind the
    pairs with its key. */
  lemma {:induction false} EmplaceInserts(params: seq<Pair>, p: Pair)
    requires Listed(params)
    ensures Listed(Emplace(params, p)) && multiset(Emplace(params, p)) == multiset(params) + multiset{p}
    ensures forall key :: OfKey(Emplace(params, p), key) == OfKey(params, key) + (if p.0 == key then [p] else [])
  {
    hide Less, OfKey;
    if params == [] {
      assert Emplace(params, p) == params + [p];
      forall key ensures OfKey([] + [p], key) == OfKey([], key) + (if p.0 == key then [p] else []) {
        OfKeyPush([], p, key);
      }
    } else {
      var front, last := params[..|params| - 1], params[|params| - 1];
      assert params == front + [last];
      assert Listed(front);
      if Less(p.0, last.0) {
        EmplaceInserts(front, p);
        EmplacedFrom(front, p);
        var q := Emplace(front, p);
        forall i | 0 <= i < |q|
          ensures !Less(last.0, q[i].0)
        {
          assert q[i] in q;
          LessSplits(last.0, q[i].0, last.0);
          NotLessItself(last.0);
          LessSplits(p.0, last.0, last.0);
          NotBefore(p.0, last.0);
        }
        forall key
          ensures OfKey(q + [last], key) == OfKey(params, key) + (if p.0 == key then [p] else [])
        {
          OfKeyPush(q, last, key);
          OfKeyPush(front, last, key);
          if last.0 == key && p.0 == key {
            NotLessItself(key);
          }
        }
      } else {
        forall i | 0 <= i < |params|
          ensures !Less(p.0, params[i].0)
        {
          LessSplits(p.0, params[i].0, last.0);
        }
        forall key
          ensures OfKey(params + [p], key) == OfKey(params, key) + (if p.0 == key then [p] else [])
        {
          OfKeyPush(params, p, key);
        }
      }
    }
  }

  lemma {:induction false} EmplacedFrom(params: seq<Pair>, p: Pair)
    ensures forall r | r in Emplace(params, p) :: r == p || r in params
  {
    hide Less;
    if params != [] && Less(p.0, params[|params| - 1].0) {
      EmplacedFrom(params[..|params| - 1], p);
    }
  }

  lemma NotBefore(a: Text, b: Text)
    requires Less(a, b)
    ensures !Less(b, a)
  {
    LessSplits(b, a, b);
    LessSplits(a, b, a);
    NotBoth(a, b);
  }

  lemma {:induction false} NotBoth(a: Text, b: Text)
    ensures !(Less(a, b) && Less(b, a))
    decreases |a|
  {
    if a != "" && b != "" { NotBoth(a[1..], b[1..]); }
  }

  /** What one piece adds to the pairs of the pieces before it. */
  function Add(params: seq<Pair>, kv: Text): seq<Pair> {
    var k := IndexOf(kv, '=', 0);
    var key, val := kv[..k], if k < |kv| then kv[k + 1..] else "";
    if key == "" then params else Emplace(params, (Decode(key), Decode(val)))
  }

  /** A piece that stood before is skipped. */
  function Parsed(pieces: seq<Text>): seq<Pair> {
    if pieces == [] then []
    else
      var k := |pieces| - 1;
      if pieces[k] in pieces[..k] then Parsed(pieces[..k]) else Add(Parsed(pieces[..k]), pieces[k])
  }

  /** The text before the first `c`, and the text behind it. */
  function Before(s: Text, c: char): Text { if s == "" || s[0] == c then "" else [s[0]] + Before(s[1..], c) }

  function Behind(s: Text, c: char): Text {
    if s == "" then "" else if s[0] == c then s[1..] else Behind(s[1..], c)
  }

  lemma {:induction false} DividedAt(s: Text, c: char, k: nat)
    requires k <= |s| && (k < |s| ==> s[k] == c) && forall j | 0 <= j < k :: s[j] != c
    ensures Before(s, c) == s[..k] && Behind(s, c) == if k < |s| then s[k + 1..] else ""
  {
    if k > 0 {
      DividedAt(s[1..], c, k - 1);
      assert s[..k] == [s[0]] + s[1..][..k - 1];
      assert k < |s| ==> s[1..][k..] == s[k + 1..];
    }
  }

  /** The decoded pairs of the pieces that have a key, each piece where it first stands. */
  function Firsts(pieces: seq<Text>): seq<Pair> {
    if pieces == [] then []
    else
      var front, kv := pieces[..|pieces| - 1], pieces[|pieces| - 1];
      Firsts(front) + (if kv in front || Before(kv, '=') == "" then []
                       else [(Decode(Before(kv, '=')), Decode(Behind(kv, '=')))])
  }

  /** Parsing any pieces lists their pairs by key, no more and no fewer, and pairs with one key
    in the order of their pieces. */
  lemma {:induction false} ParsedIsFirsts(pieces: seq<Text>)
    ensures Listed(Parsed(pieces)) && multiset(Parsed(pieces)) == multiset(Firsts(pieces))
    ensures forall key :: OfKey(Parsed(pieces), key) == OfKey(Firsts(pieces), key)
  {
    hide Emplace, Decode, Before, Behind, OfKey, Listed;
    if pieces == [] {
      NothingListed();
    } else {
      var front, kv := pieces[..|pieces| - 1], pieces[|pieces| - 1];
      ParsedIsFirsts(front);
      DividedAt(kv, '=', IndexOf(kv, '=', 0));
      if kv !in front && Before(kv, '=') != "" {
        var p: Pair := (Decode(Before(kv, '=')), Decode(Behind(kv, '=')));
        EmplaceInserts(Parsed(front), p);
        forall key
          ensures OfKey(Parsed(pieces), key) == OfKey(Firsts(pieces), key)
        {
          OfKeyPush(Firsts(front), p, key);
        }
      } else {
        assert Firsts(pieces) == Firsts(front);
      }
    }
  }

  lemma NothingListed()
    ensures Listed([])
  {
  }

  /** `parse_query_text` into an empty multimap */
  method ParseQueryText(s: Text) returns (params: seq<Pair>)
    ensures params == Parsed(Pieces(s, 0))
    ensures Listed(params) && multiset(params) == multiset(Firsts(Pieces(s, 0)))
    ensures forall key :: OfKey(params, key) == OfKey(Firsts(Pieces(s, 0)), key)
  {
    hide Pieces, Add, Listed, OfKey, Firsts;
    ParsedIsFirsts(Pieces(s, 0));
    var pieces := Split(s);
    var cache: set<Text> := {};
    params := [];
    for i := 0 to |pieces|
      invariant params == Parsed(pieces[..i]) && forall t :: t in cache <==> t in pieces[..i]
    {
      assert pieces[..i + 1][..i] == pieces[..i];
      if pieces[i] !in cache {
        cache := cache + {pieces[i]};
        params := AddPiece(params, pieces[i]);
      }
    }
    assert pieces[..|pieces|] == pieces;
  }

  method AddPiece(params0: seq<Pair>, kv: Text) returns (params: seq<Pair>)
    ensures params == Add(params0, kv)
  {
    hide Decode, Emplace;
    var k := IndexOf(kv, '=', 0);
    var key, val := kv[..k], if k < |kv| then kv[k + 1..] else "";
    params := params0;
    if key != "" {
      var dkey := DecodeQueryComponent(key);
      var dval := DecodeQueryComponent(val);
      params := Emplace(params, (dkey, dval));
    }
  }

  // ------------------------------------------------------------------ round trip

  function AllPrinted(params: seq<Pair>): (pieces: seq<Text>)
    ensures |pieces| == |params|
  {
    seq(|params|, i requires 0 <= i < |params| => Printed(params[i]))
  }

  lemma PrintedFirst(params: seq<Pair>)
    requires params != []
    ensures AllPrinted(params) == [Printed(params[0])] + (if |params| == 1 then [] else AllPrinted(params[1..]))
  {
    hide Printed;
  }

  predicate NoBlanks(s: Text) { forall i | 0 <= i < |s| :: !IsBlank(s[i]) }

  lemma PieceWhole(s: Text, beg: nat, end: nat)
    requires NoBlanks(s) && beg < end <= |s|
    ensures Piece(s, beg, end) == [s[beg..end]]
  {
  }

  /** A text that goes on with a piece without `&`, and then ends or goes on with `&`. */
  lemma PiecesStep(s: Text, beg: nat, first: Text, rest: Text)
    requires beg <= |s| && s[beg..] == first + rest && NoBlanks(s) && first != ""
    requires (forall d | d in first :: d != '&') && (rest == "" || rest[0] == '&')
    ensures Pieces(s, beg) == [first] + (if rest == "" then [] else Pieces(s, beg + |first| + 1))
    ensures rest != "" ==> s[beg + |first| + 1..] == rest[1..]
  {
    hide Pieces, Piece, NoBlanks;
    var k := beg + |first|;
    var t := s[beg..];
    assert s[beg..k] == t[..|first|] == first && s[k..] == t[|first|..] == rest;
    forall j | beg <= j < k
      ensures s[j] != '&'
    {
      assert s[j] == first[j - beg] && first[j - beg] in first;
    }
    assert rest != "" ==> s[k] == s[k..][0] == rest[0];
    PiecesUnfold(s, beg, k);
    PieceWhole(s, beg, k);
  }

  /** Splitting a printed query gives the printed pairs. */
  lemma {:induction false} PiecesOfQuery(s: Text, beg: nat, params: seq<Pair>)
    requires params != [] && beg <= |s| && s[beg..] == Query(params) && NoBlanks(s)
    ensures Pieces(s, beg) == AllPrinted(params)
    decreases |params|
  {
    hide Pieces, Printed, NoBlanks, Query, AllPrinted;
    var first, rest := Printed(params[0]), if |params| == 1 then "" else "&" + Query(params[1..]);
    QueryIs(params);
    PiecesStep(s, beg, first, rest);
    if |params| > 1 {
      PiecesOfQuery(s, beg + |first| + 1, params[1..]);
    }
    PrintedFirst(params);
  }

  lemma {:induction false} QueryHasNoBlanks(params: seq<Pair>)
    ensures NoBlanks(Query(params))
  {
    hide Printed;
    if params != [] {
      var first := Printed(params[0]);
      assert forall i | 0 <= i < |first| :: first[i] in first;
      if |params| > 1 {
        QueryHasNoBlanks(params[1..]);
      }
    }
  }

  /** A printed pair is read back. */
  lemma ReadsPair(params: seq<Pair>, p: Pair)
    ensures Add(params, Printed(p)) == if p.0 == "" then params else Emplace(params, p)
  {
    hide Decode, Encode, Emplace;
    var kv, key := Printed(p), Encode(p.0);
    assert forall j | 0 <= j < |key| :: kv[j] == key[j] && key[j] in key;
    IndexIs(kv, '=', 0, |key|);
    assert kv[..|key|] == key && kv[|key| + 1..] == Encode(p.1);
    ComponentRoundTrip(p.0);
    ComponentRoundTrip(p.1);
  }

  /** Different pairs are printed differently. */
  lemma PrintedTwice(p: Pair, q: Pair)
    ensures Printed(p) == Printed(q) ==> p == q
  {
    hide Decode, Encode;
    var a, b := Encode(p.0), Encode(q.0);
    if Printed(p) == Printed(q) {
      var kv := Printed(p);
      assert forall j | 0 <= j < |a| :: kv[j] == a[j] && a[j] in a;
      assert forall j | 0 <= j < |b| :: kv[j] == b[j] && b[j] in b;
      IndexIs(kv, '=', 0, |a|);
      IndexIs(kv, '=', 0, |b|);
      assert kv[..|a|] == a == b && kv[|a| + 1..] == Encode(p.1) == Encode(q.1);
      ComponentRoundTrip(p.0);
      ComponentRoundTrip(q.0);
      ComponentRoundTrip(p.1);
      ComponentRoundTrip(q.1);
    }
  }

  /** The pairs that survive: those with a key, each once. */
  function Kept(params: seq<Pair>): seq<Pair> {
    if params == [] then []
    else
      var k := |params| - 1;
      Kept(params[..k]) + (if params[k] in params[..k] || params[k].0 == "" then [] else [params[k]])
  }

  lemma {:induction false} KeptAreParams(params: seq<Pair>)
    ensures forall p | p in Kept(params) :: p in params
    ensures |Kept(params)| <= |params|
  {
    if params != [] {
      KeptAreParams(params[..|params| - 1]);
    }
  }

  lemma EmplaceLast(params: seq<Pair>, p: Pair)
    requires forall q | q in params :: !Less(p.0, q.0)
    ensures Emplace(params, p) == params + [p]
  {
    if params != [] {
      assert params[|params| - 1] in params;
    }
  }

  lemma {:induction false} ParsesPrinted(params: seq<Pair>)
    requires Listed(params)
    ensures Parsed(AllPrinted(params)) == Kept(params)
  {
    hide Printed, Add, Less, Emplace;
    if params != [] {
      var k := |params| - 1;
      var front, last := params[..k], params[k];
      ParsesPrinted(front);
      var pieces := AllPrinted(params);
      assert pieces[..k] == AllPrinted(front);
      assert pieces[k] in pieces[..k] <==> last in front by { SeenBefore(front, last); }
      ReadsPair(Kept(front), last);
      KeptAreParams(front);
      EmplaceLast(Kept(front), last);
    }
  }

  lemma SeenBefore(front: seq<Pair>, p: Pair)
    ensures Printed(p) in AllPrinted(front) <==> p in front
  {
    hide Printed;
    if Printed(p) in AllPrinted(front) {
      var i :| 0 <= i < |front| && AllPrinted(front)[i] == Printed(p);
      PrintedTwice(p, front[i]);
    }
    if p in front {
      var i :| 0 <= i < |front| && front[i] == p;
      assert AllPrinted(front)[i] == Printed(p);
    }
  }

  /** No pair occurs twice, and every key is there. */
  ghost predicate Plain(params: seq<Pair>) {
    && (forall i, j | 0 <= i < j < |params| :: params[i] != params[j])
    && forall i | 0 <= i < |params| :: params[i].0 != ""
  }

  lemma PlainPush(front: seq<Pair>, last: Pair)
    ensures Plain(front + [last]) <==> Plain(front) && last !in front && last.0 != ""
  {
    var params, k := front + [last], |front|;
    assert params[k] == last && forall i | 0 <= i < k :: params[i] == front[i] && front[i] in front;
  }

  lemma {:induction false} KeptAll(params: seq<Pair>)
    ensures Kept(params) == params <==> Plain(params)
    ensures |Kept(params)| <= |params| && (|Kept(params)| == |params| ==> Kept(params) == params)
  {
    hide Plain;
    if params == [] {
      NothingIsPlain();
    } else {
      var k := |params| - 1;
      KeptAll(params[..k]);
      PlainPush(params[..k], params[k]);
      assert params == params[..k] + [params[k]];
    }
  }

  lemma NothingIsPlain()
    ensures Plain([])
  {
  }

  /** Main result: parsing a printed multimap keeps each pair that has a key, once; so the
    multimap comes back if and only if no pair is repeated and no key is empty. */
  lemma QueryRoundTrip(params: seq<Pair>)
    requires Listed(params)
    ensures Parsed(Pieces(Query(params), 0)) == Kept(params)
    ensures Parsed(Pieces(Query(params), 0)) == params <==> Plain(params)
  {
    hide Parsed, AllPrinted;
    if params == [] {
      assert Pieces(Query(params), 0) == [];
      ParsesPrinted(params);
      assert AllPrinted(params) == [];
    } else {
      assert Query(params)[0..] == Query(params);
      QueryHasNoBlanks(params);
      PiecesOfQuery(Query(params), 0, params);
      ParsesPrinted(params);
    }
    KeptAll(params);
  }
}
