/** The deflate encoder: hash chains, lazy matching, stored fallback and checksum. */
module Deflate {
  import opened Options
  import opened Bits
  import opened BitWriting
  import opened Inflate
  import opened Lz77

  const ZHASH := 16384

  // --------------------------------------------------------------- match search

  /** How many bytes from `a` on equal those from `b` on, looking at no more than `limit`. */
  function Common(data: seq<Byte>, a: nat, b: nat, limit: nat): (n: nat)
    requires a <= b && b + limit <= |data|
    ensures n <= limit && data[a..a + n] == data[b..b + n]
    ensures n < limit ==> data[a + n] != data[b + n]
    decreases limit
  {
    if limit == 0 || data[a] != data[b] then 0
    else
      var n := 1 + Common(data, a + 1, b + 1, limit - 1);
      assert data[a..a + n] == [data[a]] + data[a + 1..a + n];
      assert data[b..b + n] == [data[b]] + data[b + 1..b + n];
      n
  }

  /** How far a match at `b` may go. */
  function Reach(data: seq<Byte>, b: nat): (n: nat)
    requires b <= |data|
    ensures n <= 258 && b + n <= |data|
  {
    if |data| - b < 258 then |data| - b else 258
  }

  /** Length of the match between positions `a` and `b`: at most 258 bytes. */
  function MatchLength(data: seq<Byte>, a: nat, b: nat): (n: nat)
    requires a <= b <= |data|
    ensures n <= 258 && b + n <= |data|
  {
    Common(data, a, b, Reach(data, b))
  }

  lemma MatchIsEqual(data: seq<Byte>, a: nat, b: nat)
    requires a <= b <= |data|
    ensures var n := MatchLength(data, a, b); data[a..a + n] == data[b..b + n]
  {
    hide Common;
  }

  /** `stbiw__zlib_countm` */
  method CountMatch(data: seq<Byte>, a: nat, b: nat, limit: nat) returns (i: nat)
    requires a <= b && b + limit == |data|
    ensures i == MatchLength(data, a, b)
  {
    hide Common;
    i := 0;
    while i < limit && i < 258
      invariant i <= limit && i <= 258 && data[a..a + i] == data[b..b + i]
    {
      if data[a + i] != data[b + i] {
        break;
      }
      assert data[a..a + i + 1] == data[a..a + i] + [data[a + i]];
      assert data[b..b + i + 1] == data[b..b + i] + [data[b + i]];
      i := i + 1;
    }
    CommonIs(data, a, b, Reach(data, b), i);
  }

  lemma CommonIs(data: seq<Byte>, a: nat, b: nat, limit: nat, i: nat)
    requires a <= b && b + limit <= |data| && i <= limit && data[a..a + i] == data[b..b + i]
    requires i < limit ==> data[a + i] != data[b + i]
    ensures Common(data, a, b, limit) == i
  {
    hide Common;
    EqualBytes(data, a, b, i);
    EqualBytes(data, a, b, Common(data, a, b, limit));
  }

  lemma EqualBytes(data: seq<Byte>, a: nat, b: nat, n: nat)
    requires a <= b && b + n <= |data| && data[a..a + n] == data[b..b + n]
    ensures forall k | a <= k < a + n :: data[k] == data[k - a + b]
  {
    forall k | a <= k < a + n
      ensures data[k] == data[k - a + b]
    {
      assert data[k] == data[a..a + n][k - a];
      assert data[k - a + b] == data[b..b + n][k - a];
    }
  }

  /** `stbiw__zhash` and the mask at its uses */
  function Mix(hash: bv32): (h: bv16)
    ensures h < 0x4000
  {
    var h1 := hash ^ (hash << 3);
    var h2 := h1 + (h1 >> 5);
    var h3 := h2 ^ (h2 << 4);
    var h4 := h3 + (h3 >> 17);
    var h5 := h4 ^ (h4 << 25);
    var h6 := h5 + (h5 >> 6);
    (h6 & 0x3fff) as bv16
  }

  function Hash(a: Byte, b: Byte, c: Byte): (h: nat)
    ensures h < ZHASH
  {
    Slot(Mix((a as bv32) + ((b as bv32) << 8) + ((c as bv32) << 16)))
  }

  function Slot(h: bv16): (n: nat)
    requires h < 0x4000
    ensures n < ZHASH
  {
    (h & 0x3fff) as nat
  }

  /** An entry of a chain that lies less than 32768 back from `i`. */
  predicate InWindow(p: nat, i: nat) { p > i - 32768 }

  /** All entries of a chain are positions before `i`. */
  ghost predicate Before(chain: seq<nat>, i: nat) {
    forall j | 0 <= j < |chain| :: chain[j] < i
  }

  /** Among the first `n` entries, `loc` is the latest with the longest match of at least
    three bytes, and `at` is where it is. */
  ghost predicate Longest(data: seq<Byte>, chain: seq<nat>, n: nat, i: nat, loc: Option<nat>, best: nat, at: nat)
    requires i <= |data| && Before(chain, i) && n <= |chain|
  {
    && (forall j | 0 <= j < n && i - chain[j] < 32768 :: MatchLength(data, chain[j], i) <= best)
    && match loc
       case None => best == 3 && forall j | 0 <= j < n && i - chain[j] < 32768 :: MatchLength(data, chain[j], i) < 3
       case Some(p) =>
         && at < n && chain[at] == p && i - p < 32768 && MatchLength(data, p, i) == best >= 3
         && forall j | at < j < n && i - chain[j] < 32768 :: MatchLength(data, chain[j], i) < best
  }

  /** The search over the chain of the next three bytes. */
  method FindMatch(data: seq<Byte>, chain: seq<nat>, i: nat)
    returns (bestloc: Option<nat>, best: nat, ghost at: nat)
    requires i <= |data| && Before(chain, i)
    ensures Longest(data, chain, |chain|, i, bestloc, best, at)
    ensures bestloc.Some? ==>
      bestloc.value < i && i - bestloc.value < 32768 && MatchLength(data, bestloc.value, i) == best >= 3
  {
    hide MatchLength;
    best, bestloc, at := 3, None, 0;
    for j := 0 to |chain|
      invariant Longest(data, chain, j, i, bestloc, best, at)
    {
      if InWindow(chain[j], i) {
        var d := CountMatch(data, chain[j], i, |data| - i);
        if d >= best {
          best, bestloc, at := d, Some(chain[j]), j;
        }
      }
    }
  }

  /** Some entry of the chain matches more than `best` bytes at the next position. */
  ghost predicate BetterAt(data: seq<Byte>, chain: seq<nat>, n: nat, i: nat, best: nat)
    requires i <= |data| && Before(chain, i) && n <= |chain|
  {
    exists j | 0 <= j < n :: i - chain[j] < 32768 && MatchLength(data, chain[j], i) > best
  }

  /** The lazy look at the next position. */
  method NextIsBetter(data: seq<Byte>, chain: seq<nat>, i: nat, best: nat) returns (better: bool)
    requires i <= |data| && Before(chain, i)
    ensures better == BetterAt(data, chain, |chain|, i, best)
  {
    hide MatchLength;
    better := false;
    for j := 0 to |chain|
      invariant !BetterAt(data, chain, j, i, best)
    {
      if InWindow(chain[j], i) {
        var e := CountMatch(data, chain[j], i, |data| - i);
        if e > best {
          better := true;
          break;
        }
      }
    }
  }

  // ----------------------------------------------------------------- the block

  /** The `j` loops over a table with a closing entry. */
  method TableIndex(table: seq<nat>, x: nat) returns (j: nat)
    requires |table| >= 2 && table[0] <= x < table[|table| - 1]
    ensures Between(table, x, j)
  {
    j := 0;
    while x >= table[j + 1]
      invariant j + 1 < |table| && table[j] <= x
      decreases |table| - j
    {
      j := j + 1;
    }
  }

  method WriteMatch(w: BitWriter, best: nat, d: nat) returns (ghost bits: seq<bool>)
    requires w.Valid() && 3 <= best <= 258 && 1 <= d <= 32767
    modifies w
    ensures w.Valid() && w.Bits() == old(w.Bits()) + bits && Codes(bits, Match(best, d))
  {
    hide BitWriter.Bits, SymbolBits, CodeBits, LowBits, LengthBase, LengthExtra, DistanceBase, DistanceExtra, Pow2,
      LENGTHC, LENGTHEB, DISTC, DISTEB;
    TableEnds();
    PowerTable(5);
    var j := TableIndex(LENGTHC, best);
    LengthTable(best, j);
    w.AddSymbol(j + 257);
    w.Add(best - LENGTHC[j], LENGTHEB[j]);
    var k := TableIndex(DISTC, d);
    DistanceTable(d, k);
    w.AddCode(k, 5);
    w.Add(d - DISTC[k], DISTEB[k]);
    bits := MatchBits(best, d, j, k);
  }

  // ---------------------------------------------------------- the main loop

  /** All chains hold positions before `i`, and none is longer than twice the quality. */
  ghost predicate Chained(table: seq<seq<nat>>, i: nat, quality: nat) {
    |table| == ZHASH && forall h | 0 <= h < ZHASH :: Before(table[h], i) && |table[h]| <= 2 * quality
  }

  function Remembered(table: seq<seq<nat>>, h: nat, i: nat, quality: nat): (t: seq<seq<nat>>)
    requires h < |table|
    ensures |t| == |table|
  {
    table[h := (if |table[h]| == 2 * quality then table[h][quality..] else table[h]) + [i]]
  }

  /** Remember position `i` in its chain, dropping the older half of a full chain first. */
  method Remember(table: array<seq<nat>>, h: nat, i: nat, quality: nat)
    requires quality >= 5 && h < ZHASH && Chained(table[..], i, quality)
    modifies table
    ensures Chained(table[..], i + 1, quality) && table[..] == Remembered(old(table[..]), h, i, quality)
  {
    if |table[h]| == 2 * quality {
      table[h] := table[h][quality..];
    }
    table[h] := table[h] + [i];
  }

  function HashAt(data: seq<Byte>, i: nat): (h: nat)
    requires i + 2 < |data|
    ensures h < ZHASH
  {
    Hash(data[i], data[i + 1], data[i + 2])
  }

  /** A copy of bytes that are equal to those that follow continues the data. */
  lemma {:induction false} CopyMatch(data: seq<Byte>, p: nat, i: nat, n: nat)
    requires p < i && i + n <= |data| && data[p..p + n] == data[i..i + n]
    ensures Copy(data[..i], n, i - p) == data[..i + n]
    decreases n
  {
    if n > 0 {
      assert data[p] == data[p..p + n][0] && data[i] == data[i..i + n][0];
      assert data[..i] + [data[i]] == data[..i + 1];
      assert data[p + 1..p + n] == data[p..p + n][1..] && data[i + 1..i + n] == data[i..i + n][1..];
      CopyMatch(data, p + 1, i + 1, n - 1);
    }
  }

  /** The search over `chain` ends with `loc` and `best`. */
  ghost predicate Finds(data: seq<Byte>, chain: seq<nat>, i: nat, loc: Option<nat>, best: nat)
    requires i <= |data| && Before(chain, i)
  {
    exists at: nat :: Longest(data, chain, |chain|, i, loc, best, at)
  }

  /** What the encoder does at position `i`, with `chain` the chain of position `i` and `next`
    that of the next position: it takes the longest match on offer, the latest of equals,
    unless the next position has a longer one. */
  ghost predicate Chosen(data: seq<Byte>, i: nat, chain: seq<nat>, next: seq<nat>, t: Token)
    requires i < |data| && Before(chain, i) && Before(next, i + 1)
  {
    match t
    case Match(len, dist) =>
      dist <= i && Finds(data, chain, i, Some(i - dist), len) && !BetterAt(data, next, |next|, i + 1, len)
    case Literal(b) =>
      && b == data[i]
      && exists loc: Option<nat>, best: nat :: Finds(data, chain, i, loc, best)
           && (loc.None? || BetterAt(data, next, |next|, i + 1, best))
  }

  method Choose(data: seq<Byte>, i: nat, table: array<seq<nat>>, h: nat, next: nat, quality: nat) returns (token: Token)
    requires h < ZHASH && next < ZHASH && quality >= 5 && i + 3 < |data| && Chained(table[..], i, quality)
    modifies table
    ensures Chained(table[..], i + 1, quality) && table[..] == Remembered(old(table[..]), h, i, quality)
    ensures Fits(token, i) && i + Size(token) <= |data| && Expand(data[..i], token) == data[..i + Size(token)]
    ensures Chosen(data, i, old(table[h]), table[next], token)
  {
    hide Copy, MatchLength, BetterAt, Longest;
    var bestloc, best, at := FindMatch(data, table[h], i);
    assert Finds(data, table[h], i, bestloc, best);
    Remember(table, h, i, quality);
    var better := false;
    if bestloc.Some? {
      better := NextIsBetter(data, table[next], i + 1, best);
    }
    if bestloc.Some? && !better {
      token := Match(best, i - bestloc.value);
      MatchIsEqual(data, bestloc.value, i);
      CopyMatch(data, bestloc.value, i, best);
    } else {
      token := Literal(data[i]);
      ExpandsLiteral(data, i);
    }
  }

  lemma ExpandsLiteral(data: seq<Byte>, i: nat)
    requires i < |data|
    ensures Expand(data[..i], Literal(data[i])) == data[..i + 1]
  {
    assert data[..i] + [data[i]] == data[..i + 1];
  }

  // ----------------------------------------------------------- all the choices

  /** The chains when these tokens have been written: each start but the last ones remembered. */
  function ChainsOf(data: seq<Byte>, tokens: seq<Token>, quality: nat): (t: seq<seq<nat>>)
    ensures |t| == ZHASH
  {
    if tokens == [] then NoChains()
    else
      var front := tokens[..|tokens| - 1];
      var p := Sizes(front);
      if p + 3 < |data| then Remembered(ChainsOf(data, front, quality), HashAt(data, p), p, quality)
      else ChainsOf(data, front, quality)
  }

  function NoChains(): (t: seq<seq<nat>>)
    ensures |t| == ZHASH
  {
    seq(ZHASH, _ => [])
  }

  /** Token `t` is chosen behind `front`, and the last three bytes are literals. */
  ghost predicate ChosenBehind(data: seq<Byte>, front: seq<Token>, t: Token, quality: nat) {
    var p := Sizes(front);
    if p + 3 < |data| then
      var chains := ChainsOf(data, front, quality);
      var chain := chains[HashAt(data, p)];
      var next := Remembered(chains, HashAt(data, p), p, quality)[HashAt(data, p + 1)];
      Before(chain, p) && Before(next, p + 1) && Chosen(data, p, chain, next, t)
    else p < |data| && t == Literal(data[p])
  }

  ghost predicate AllChosen(data: seq<Byte>, tokens: seq<Token>, quality: nat) {
    tokens == []
    || (AllChosen(data, tokens[..|tokens| - 1], quality)
        && ChosenBehind(data, tokens[..|tokens| - 1], tokens[|tokens| - 1], quality))
  }

  lemma PushChosen(data: seq<Byte>, tokens: seq<Token>, t: Token, quality: nat)
    requires AllChosen(data, tokens, quality) && ChosenBehind(data, tokens, t, quality)
    ensures AllChosen(data, tokens + [t], quality) && Sizes(tokens + [t]) == Sizes(tokens) + Size(t)
    ensures ChainsOf(data, tokens + [t], quality)
         == if Sizes(tokens) + 3 < |data|
            then Remembered(ChainsOf(data, tokens, quality), HashAt(data, Sizes(tokens)), Sizes(tokens), quality)
            else ChainsOf(data, tokens, quality)
  {
    hide ChosenBehind, Remembered, HashAt;
    assert (tokens + [t])[..|tokens|] == tokens;
  }

  /** One literal or match, written and added to the tokens so far. */
  method WriteToken(w: BitWriter, t: Token, ghost tokens: seq<Token>, ghost bits: seq<bool>, ghost done: seq<Byte>)
    returns (ghost all: seq<bool>)
    requires w.Valid() && Fits(t, |done|) && Encodes(bits, tokens, done)
    modifies w
    ensures w.Valid() && Encodes(all, tokens + [t], Expand(done, t))
    ensures exists more :: all == bits + more && w.Bits() == old(w.Bits()) + more
  {
    hide BitWriter.Bits, Encodes, Expand, SymbolBits;
    ghost var more;
    match t {
      case Literal(b) =>
        w.AddSymbol(b);
        more := SymbolBits(b);
      case Match(len, dist) =>
        more := WriteMatch(w, len, dist);
    }
    EncodesPush(bits, tokens, done, more, t);
    all := bits + more;
  }

  lemma ChoiceIs(
    data: seq<Byte>, tokens: seq<Token>, t: Token, before: seq<seq<nat>>, after: seq<seq<nat>>, quality: nat)
    requires Sizes(tokens) + 3 < |data| && before == ChainsOf(data, tokens, quality)
    requires after == Remembered(before, HashAt(data, Sizes(tokens)), Sizes(tokens), quality)
    requires Chained(before, Sizes(tokens), quality) && Chained(after, Sizes(tokens) + 1, quality)
    requires Chosen(data, Sizes(tokens), before[HashAt(data, Sizes(tokens))], after[HashAt(data, Sizes(tokens) + 1)], t)
    ensures ChosenBehind(data, tokens, t, quality)
  {
    hide Chosen, HashAt, Remembered, ChainsOf;
  }

  /** The fixed-Huffman block: the tokens stand for the data, every one of them is the choice of
    the lazy matching at its place, and the last three bytes are literals. */
  method WriteBlock(w: BitWriter, data: seq<Byte>, quality: nat)
    returns (ghost tokens: seq<Token>, ghost bits: seq<bool>)
    requires w.Valid() && quality >= 5
    modifies w
    ensures w.Valid() && Encodes(bits, tokens, data) && AllChosen(data, tokens, quality)
    ensures w.Bits() == old(w.Bits()) + (bits + SymbolBits(256))
  {
    hide BitWriter.Bits, Encodes, Expand, Chosen, SymbolBits, HashAt, AllChosen, ChosenBehind, Remembered, ChainsOf,
      Sizes;
    var table := new seq<nat>[ZHASH](_ => []);
    tokens, bits := [], [];
    EncodesNothing();
    NothingChosen(data, quality);
    assert table[..] == NoChains();
    var i := 0;
    while i < |data| - 3
      invariant i <= |data| && w.Valid() && Chained(table[..], i, quality)
      invariant table[..] == ChainsOf(data, tokens, quality)
      invariant i == Sizes(tokens) && AllChosen(data, tokens, quality)
      invariant Encodes(bits, tokens, data[..i]) && w.Bits() == old(w.Bits()) + bits
      modifies w, table
    {
      ghost var before := table[..];
      var t := Choose(data, i, table, HashAt(data, i), HashAt(data, i + 1), quality);
      ChoiceIs(data, tokens, t, before, table[..], quality);
      PushChosen(data, tokens, t, quality);
      bits := WriteToken(w, t, tokens, bits, data[..i]);
      tokens := tokens + [t];
      i := i + Size(t);
    }
    while i < |data|
      invariant i <= |data| && w.Valid() && |data| <= i + 3
      invariant i == Sizes(tokens) && AllChosen(data, tokens, quality)
      invariant Encodes(bits, tokens, data[..i]) && w.Bits() == old(w.Bits()) + bits
    {
      ExpandsLiteral(data, i);
      LiteralIs(data, tokens, quality);
      PushChosen(data, tokens, Literal(data[i]), quality);
      bits := WriteToken(w, Literal(data[i]), tokens, bits, data[..i]);
      tokens := tokens + [Literal(data[i])];
      i := i + 1;
    }
    w.AddSymbol(256);
    assert data[..|data|] == data;
    assert w.Bits() == old(w.Bits()) + (bits + SymbolBits(256));
  }

  lemma NothingChosen(data: seq<Byte>, quality: nat)
    ensures AllChosen(data, [], quality) && Sizes([]) == 0 && ChainsOf(data, [], quality) == NoChains()
  {
  }

  lemma LiteralIs(data: seq<Byte>, tokens: seq<Token>, quality: nat)
    requires Sizes(tokens) < |data| <= Sizes(tokens) + 3
    ensures ChosenBehind(data, tokens, Literal(data[Sizes(tokens)]), quality)
  {
  }

  // ------------------------------------------------------ what the choices do

  /** The starts of tokens whose next three bytes have this hash, in order. */
  function StartsOf(data: seq<Byte>, tokens: seq<Token>, h: nat): seq<nat> {
    if tokens == [] then []
    else
      var front := tokens[..|tokens| - 1];
      var p := Sizes(front);
      StartsOf(data, front, h) + if p + 3 < |data| && HashAt(data, p) == h then [p] else []
  }

  /** A chain holds the latest starts with its hash: all of them, or at least `quality`. */
  lemma {:induction false} ChainIsSuffix(data: seq<Byte>, tokens: seq<Token>, quality: nat, h: nat)
    requires quality >= 5 && h < ZHASH
    ensures var c, all := ChainsOf(data, tokens, quality)[h], StartsOf(data, tokens, h);
            && |c| <= |all| && c == all[|all| - |c|..] && (|c| == |all| || |c| >= quality) && |c| <= 2 * quality
    decreases |tokens|
  {
    hide HashAt;
    if tokens != [] {
      ChainIsSuffix(data, tokens[..|tokens| - 1], quality, h);
    }
  }

  /** The latest start with a hash is the last entry of its chain. */
  lemma LatestIsLast(data: seq<Byte>, front: seq<Token>, t: Token, quality: nat)
    requires quality >= 5 && Sizes(front) + 3 < |data|
    ensures var c := ChainsOf(data, front + [t], quality)[HashAt(data, Sizes(front))];
            |c| > 0 && c[|c| - 1] == Sizes(front)
  {
    hide HashAt;
    assert (front + [t])[..|front|] == front;
  }

  // What data of a single byte comes to: its starts are all in one chain.

  predicate OneByte(data: seq<Byte>) { forall k | 0 <= k < |data| :: data[k] == data[0] }

  lemma OneHash(data: seq<Byte>, p: nat, q: nat)
    requires OneByte(data) && p + 2 < |data| && q + 2 < |data|
    ensures HashAt(data, p) == HashAt(data, q)
  {
  }

  lemma FullMatch(data: seq<Byte>, a: nat, b: nat)
    requires OneByte(data) && a <= b <= |data|
    ensures MatchLength(data, a, b) == Reach(data, b)
  {
    hide Common;
    CommonIs(data, a, b, Reach(data, b), Reach(data, b)) by {
      assert data[a..a + Reach(data, b)] == data[b..b + Reach(data, b)];
    }
  }

  /** With an entry in the window there is a match as far as it may go. */
  lemma TakesAll(data: seq<Byte>, p: nat, chain: seq<nat>, next: seq<nat>, t: Token)
    requires OneByte(data) && p + 3 < |data| && Before(chain, p) && Before(next, p + 1)
    requires Chosen(data, p, chain, next, t) && |chain| > 0 && p - chain[|chain| - 1] < 32768
    ensures t.Match? && t.len == Reach(data, p)
  {
    hide MatchLength, Reach;
    FullMatch(data, chain[|chain| - 1], p);
    ReachesShrink(data, p);
    match t {
      case Match(len, dist) =>
        FullMatch(data, p - dist, p);
      case Literal(b) =>
        var loc: Option<nat>, best: nat :| Finds(data, chain, p, loc, best)
          && (loc.None? || BetterAt(data, next, |next|, p + 1, best));
        if loc.Some? {
          var j :| 0 <= j < |next| && p + 1 - next[j] < 32768 && MatchLength(data, next[j], p + 1) > best;
          FullMatch(data, next[j], p + 1);
          assert false;
        }
    }
  }

  lemma ReachesShrink(data: seq<Byte>, p: nat)
    requires p + 3 < |data|
    ensures Reach(data, p + 1) <= Reach(data, p) && Reach(data, p) >= 3
  {
  }

  /** Nothing is remembered before the first token. */
  lemma FirstIsLiteral(data: seq<Byte>, t: Token, quality: nat)
    requires ChosenBehind(data, [], t, quality)
    ensures t.Literal?
  {
    hide HashAt, MatchLength, Remembered, BetterAt;
    if 3 < |data| {
      NothingChosen(data, quality);
      assert ChainsOf(data, [], quality)[HashAt(data, 0)] == [];
    }
  }

  /** A later token takes all there is, up to the last three bytes. */
  lemma LaterTakesAll(data: seq<Byte>, front: seq<Token>, t: Token, quality: nat)
    requires OneByte(data) && quality >= 5 && front != [] && ChosenBehind(data, front, t, quality)
    requires Size(front[|front| - 1]) <= 258
    ensures var p := Sizes(front);
            p < |data| && if p + 3 < |data| then t.Match? && t.len == Reach(data, p) else t.Literal?
  {
    hide HashAt, Chosen, Remembered, ChainsOf, Reach;
    var p, before := Sizes(front), front[..|front| - 1];
    if p + 3 < |data| {
      assert front == before + [front[|front| - 1]] && p == Sizes(before) + Size(front[|front| - 1]);
      LatestIsLast(data, before, front[|front| - 1], quality);
      OneHash(data, Sizes(before), p);
      var chains := ChainsOf(data, front, quality);
      TakesAll(data, p, chains[HashAt(data, p)],
        Remembered(chains, HashAt(data, p), p, quality)[HashAt(data, p + 1)], t);
    }
  }

  // -------------------------------------------------------------------- costs

  /** An upper bound for the bits of a token. */
  function Cost(t: Token): nat {
    match t
    case Literal(_) => 9
    case Match(len, _) => if len == 258 then 26 else 31
  }

  function Costs(tokens: seq<Token>): nat {
    if tokens == [] then 0 else Costs(tokens[..|tokens| - 1]) + Cost(tokens[|tokens| - 1])
  }

  lemma LastLength(k: nat)
    requires Between(LENGTHC, 258, k)
    ensures k == 28
  {
  }

  lemma CodesCost(s: seq<bool>, t: Token)
    requires Codes(s, t) && (t.Match? ==> 3 <= t.len <= 258)
    ensures |s| <= Cost(t)
  {
    hide LENGTHC, DISTC, LengthBase, LengthExtra, DistanceBase, DistanceExtra, Pow2;
    match t {
      case Literal(b) =>
      case Match(len, dist) =>
        var k, d :| Between(LENGTHC, len, k) && Between(DISTC, dist, d) && s == MatchBits(len, dist, k, d);
        LengthTable(len, k);
        DistanceTable(dist, d);
        if len == 258 {
          LastLength(k);
        }
    }
  }

  lemma {:induction false} EncodesCost(s: seq<bool>, tokens: seq<Token>, data: seq<Byte>)
    requires Encodes(s, tokens, data)
    ensures |s| <= Costs(tokens) && forall k | 0 <= k < |tokens| :: Size(tokens[k]) <= 258
    decreases |tokens|
  {
    hide Codes, Expand, Cost;
    if tokens != [] {
      var k := |tokens| - 1;
      var m: nat, n: nat :| m <= |s| && n < |data|
        && Encodes(s[..m], tokens[..k], data[..n]) && Codes(s[m..], tokens[k])
        && Fits(tokens[k], n) && Expand(data[..n], tokens[k]) == data;
      EncodesCost(s[..m], tokens[..k], data[..n]);
      CodesCost(s[m..], tokens[k]);
    }
  }

  /** What `s` bytes of `n` equal ones may cost so far: a literal, 26 bits for each match of 258,
    and a shorter match or three literals at the end. */
  predicate CostSoFar(s: nat, n: nat, cost: nat)
    requires s > 0
  {
    var m, r := (s - 1) / 258, (s - 1) % 258;
    && cost <= 9 + 26 * m + (if r == 0 then 0 else 31)
    && (r == 0 || s == n || (n <= 258 * m + 4 && cost <= 9 + 26 * m + 9 * r))
  }

  lemma NextCost(s: nat, n: nat, cost: nat, size: nat, more: nat)
    requires 0 < s < n && CostSoFar(s, n, cost)
    requires if s + 3 < n then size == (if n - s < 258 then n - s else 258) && more == (if size == 258 then 26 else 31)
             else size == 1 && more == 9
    ensures CostSoFar(s + size, n, cost + more)
  {
    var m, r := (s - 1) / 258, (s - 1) % 258;
    assert s == 258 * m + r + 1;
    if r == 0 && n - s >= 258 {
      assert s + size - 1 == 258 * (m + 1);
    } else if r == 0 {
      assert s + size - 1 == 258 * m + size;
    } else {
      assert s + size - 1 == 258 * m + (r + 1);
    }
  }

  lemma {:induction false} OneByteCost(data: seq<Byte>, tokens: seq<Token>, quality: nat)
    requires OneByte(data) && quality >= 5 && AllChosen(data, tokens, quality) && tokens != []
    requires forall k | 0 <= k < |tokens| :: Size(tokens[k]) <= 258
    ensures Sizes(tokens) > 0 && CostSoFar(Sizes(tokens), |data|, Costs(tokens))
    decreases |tokens|
  {
    hide ChosenBehind, CostSoFar;
    var front, t := tokens[..|tokens| - 1], tokens[|tokens| - 1];
    if front == [] {
      FirstIsLiteral(data, t, quality);
      FirstCost(|data|);
    } else {
      OneByteCost(data, front, quality);
      LaterTakesAll(data, front, t, quality);
      NextCost(Sizes(front), |data|, Costs(front), Size(t), Cost(t));
    }
  }

  lemma FirstCost(n: nat)
    ensures CostSoFar(1, n, 9)
  {
  }

  lemma WholeCost(n: nat, cost: nat)
    requires n > 0 && CostSoFar(n, n, cost)
    ensures cost <= 40 + 26 * ((n - 1) / 258)
  {
  }

  /** The tokens of `n` equal bytes. */
  lemma OneByteBits(s: seq<bool>, data: seq<Byte>, tokens: seq<Token>, quality: nat)
    requires OneByte(data) && data != [] && quality >= 5 && AllChosen(data, tokens, quality) && Encodes(s, tokens, data)
    ensures |s| <= 40 + 26 * ((|data| - 1) / 258)
  {
    hide AllChosen, Encodes, OneByte, Costs, CostSoFar;
    EncodesCost(s, tokens, data);
    TokensInRange(s, tokens, data);
    OneByteCost(data, tokens, quality);
    WholeCost(|data|, Costs(tokens));
  }

  // ---------------------------------------------------------------- checksum

  /** Largest value the second sum can reach when it is reduced only every `n` bytes. */
  function Peak(n: nat): nat { 65520 * (n + 1) + 255 * Twice(n) / 2 }

  function Twice(n: nat): nat { n * (n + 1) }

  lemma TwiceGrows(m: nat, n: nat)
    requires m <= n
    ensures Twice(m) <= Twice(n)
  {
    assert m * (m + 1) <= n * (m + 1) <= n * (n + 1);
  }

  /** Reducing every 5552 bytes is as rare as 32 bits allow. */
  lemma PeakFits(n: nat)
    ensures Peak(n) < 0x1_0000_0000 <==> n <= 5552
  {
    assert Twice(5552) == 5552 * 5553 && Twice(5553) == 5553 * 5554;
    hide Twice;
    if n <= 5552 {
      TwiceGrows(n, 5552);
    } else {
      TwiceGrows(5553, n);
    }
  }

  /** The checksum loop, with sums that fit 32 bits throughout. */
  method Adler32(data: seq<Byte>) returns (s1: Word, s2: Word)
    ensures (s1, s2) == Sums(data)
  {
    hide Sums;
    NoSums();
    s1, s2 := 1, 0;
    var blocklen := |data| % 5552;
    var j := 0;
    while j < |data|
      invariant j <= |data| && (s1, s2) == Sums(data[..j])
      invariant blocklen <= 5552 && (blocklen == 5552 || j == 0) && (|data| - j) % 5552 == blocklen % 5552
      decreases |data| - j, 5552 - blocklen
    {
      s1, s2 := AddBlock(data, j, blocklen, s1, s2);
      j := j + blocklen;
      blocklen := 5552;
    }
    assert data[..|data|] == data;
  }

  lemma NoSums()
    ensures Sums([]) == (1, 0)
  {
  }

  /** One block of additions and the two delayed reductions. */
  method AddBlock(data: seq<Byte>, j: nat, blocklen: nat, a1: Word, a2: Word) returns (s1: Word, s2: Word)
    requires j + blocklen <= |data| && blocklen <= 5552 && (a1, a2) == Sums(data[..j])
    ensures (s1, s2) == Sums(data[..j + blocklen])
  {
    hide Peak, Sums;
    s1, s2 := a1, a2;
    PeakStep(0);
    for i := 0 to blocklen
      invariant s1 <= 65520 + 255 * i && s2 <= Peak(i)
      invariant (s1 % BASE, s2 % BASE) == Sums(data[..j + i])
    {
      PeakFits(i + 1);
      PeakStep(i);
      SumsPush(data, j + i);
      DelayedStep(s1, s2, data[j + i]);
      s1 := s1 + data[j + i];
      s2 := s2 + s1;
    }
    s1, s2 := s1 % BASE, s2 % BASE;
  }

  lemma ModLate(x: nat, y: nat)
    ensures (x % BASE + y) % BASE == (x + y) % BASE
  {
  }

  /** Reducing later makes no difference to the remainders. */
  lemma DelayedStep(s1: nat, s2: nat, b: nat)
    ensures (s1 + b) % BASE == (s1 % BASE + b) % BASE
    ensures (s2 + (s1 + b)) % BASE == (s2 % BASE + (s1 % BASE + b) % BASE) % BASE
  {
    ModLate(s1, b);
    ModLate(s2, (s1 + b) % BASE);
    ModLate(s1 + b, s2);
  }

  lemma PeakStep(i: nat)
    ensures Peak(0) == 65520 && Peak(i) + 65520 + 255 * (i + 1) == Peak(i + 1)
  {
  }

  lemma SumsPush(data: seq<Byte>, i: nat)
    requires i < |data|
    ensures var t := (Sums(data[..i]).0 + data[i]) % BASE;
            Sums(data[..i + 1]) == (t, (Sums(data[..i]).1 + t) % BASE)
  {
    assert data[..i + 1][..i] == data[..i];
  }

  // ----------------------------------------------------------------- the whole

  /** The stored fallback, appended to `out`. */
  method WriteStored(out0: seq<Byte>, data: seq<Byte>) returns (out: seq<Byte>)
    ensures out == out0 + StoredBlocks(data)
  {
    hide StoredBlock;
    out := out0;
    var j := 0;
    while j < |data|
      invariant j <= |data| && out + StoredBlocks(data[j..]) == out0 + StoredBlocks(data)
    {
      var blocklen := if |data| - j > 32767 then 32767 else |data| - j;
      assert data[j..][blocklen..] == data[j + blocklen..] && data[j..][..blocklen] == data[j..j + blocklen];
      out := out + StoredBlock(data[j..j + blocklen], |data| - j == blocklen);
      j := j + blocklen;
    }
  }

  const HEADER: seq<Byte> := [0x78, 0x5e]

  lemma BlockHeader()
    ensures LowBits(1, 1) == [true] && LowBits(1, 2) == [true, false]
    ensures Pow2(1) == 2 && Pow2(2) == 4
  {
  }

  /** Header, tokens, end of the block and fewer than eight bits behind it fill whole bytes. */
  lemma FixedForm(
    out: seq<Byte>, tail: seq<Byte>, bits: seq<bool>, rest: seq<bool>, tokens: seq<Token>, data: seq<Byte>)
    requires Flat(out) == Flat(HEADER) + ([true, true, false] + (bits + (SymbolBits(256) + rest))) && |rest| < 8
    requires Encodes(bits, tokens, data)
    ensures |out| > 2 && out[..2] == HEADER && 8 * |out| <= 33 + |bits|
    ensures Blocks(Flat(out[2..] + tail), []) == Some((data, rest + Flat(tail)))
  {
    hide Flat, LowBits, Blocks, SymbolBits, Encodes;
    var body := [true, true, false] + (bits + (SymbolBits(256) + rest));
    FlatStarts(out, HEADER, body);
    FlatAdd(out[2..], tail);
    EndSize();
    assert body + Flat(tail) == [true, true, false] + (bits + (SymbolBits(256) + (rest + Flat(tail))));
    InflatesBlock(bits, tokens, data, rest + Flat(tail));
  }

  lemma EndSize()
    ensures |SymbolBits(256)| == 7
  {
  }

  /** The compressed form: header, one fixed-Huffman block, zero bits to the byte boundary.
    `tail` is what the caller will append. */
  method WriteFixed(data: seq<Byte>, quality: nat, ghost tail: seq<Byte>)
    returns (out: seq<Byte>, ghost rest: seq<bool>, ghost tokens: seq<Token>, ghost bits: seq<bool>)
    requires quality >= 5
    ensures |out| > 2 && out[..2] == HEADER && |rest| < 8
    ensures Blocks(Flat(out[2..] + tail), []) == Some((data, rest + Flat(tail)))
    ensures Encodes(bits, tokens, data) && AllChosen(data, tokens, quality) && 8 * |out| <= 33 + |bits|
  {
    hide Flat, LowBits, Blocks, SymbolBits, Encodes, AllChosen;
    var w := new BitWriter(HEADER);
    BlockHeader();
    w.Add(1, 1);
    w.Add(1, 2);
    tokens, bits := WriteBlock(w, data, quality);
    rest := w.Pad();
    out := w.out;
    assert Flat(out) == Flat(HEADER) + ([true, true, false] + (bits + (SymbolBits(256) + rest)));
    FixedForm(out, tail, bits, rest, tokens, data);
  }

  /** The checksum as it is appended: high byte first. */
  function SumBytes(s1: Word, s2: Word): seq<Byte> {
    [s2 / 256 % 256, s2 % 256, s1 / 256 % 256, s1 % 256]
  }

  /** Header, blocks and checksum together are a zlib string. */
  lemma UnzlibOf(body: seq<Byte>, data: seq<Byte>, rest: seq<bool>)
    requires var sum := SumBytes(Sums(data).0, Sums(data).1);
             Blocks(Flat(body + sum), []) == Some((data, rest + Flat(sum)))
    requires |rest| < 8
    ensures Unzlib(HEADER + body + SumBytes(Sums(data).0, Sums(data).1)) == Some(data)
  {
    hide Sums, Flat, Bytes, Blocks;
    var sum := SumBytes(Sums(data).0, Sums(data).1);
    var z := HEADER + body + sum;
    assert z[2..] == body + sum && z[0] == 0x78 && z[1] == 0x5e;
    assert (rest + Flat(sum))[|rest|..] == Flat(sum);
    BytesOfFlat(sum);
  }

  /** With no data the fallback leaves no block at all, which no decoder accepts. */
  lemma UnzlibOfNothing()
    ensures Sums([]) == (1, 0) && StoredBlocks([]) == []
    ensures Unzlib(HEADER + [] + SumBytes(1, 0)).None?
  {
    hide LowBits, Flat, Bytes;
    var z := HEADER + [] + SumBytes(1, 0);
    assert z[2..] == [0] + [0, 0, 1];
    FlatCons(0, [0, 0, 1]);
    FinalBits(false);
  }

  /** `z` is no longer than its tokens need, all of them the choices of the lazy matching. */
  ghost predicate TokensSuffice(data: seq<Byte>, quality: nat, z: seq<Byte>) {
    exists tokens: seq<Token> ::
      AllChosen(data, tokens, quality) && Sizes(tokens) == |data| && |z| <= 4 + (33 + Costs(tokens)) / 8
  }

  lemma CostsSuffice(data: seq<Byte>, tokens: seq<Token>, bits: seq<bool>, quality: nat, n: nat)
    requires quality >= 5 && Encodes(bits, tokens, data) && AllChosen(data, tokens, quality) && 8 * n <= 33 + |bits|
    ensures Sizes(tokens) == |data| && 4 + n <= 4 + (33 + Costs(tokens)) / 8
    ensures data != [] && OneByte(data) ==> 4 + n <= 4 + (73 + 26 * ((|data| - 1) / 258)) / 8
  {
    hide Encodes, AllChosen, OneByte, Costs, Sizes;
    EncodesCost(bits, tokens, data);
    TokensInRange(bits, tokens, data);
    if data != [] && OneByte(data) {
      OneByteBits(bits, data, tokens, quality);
    }
  }

  /** `stbi_zlib_compress`: the round trip, for every quality and exactly the data that is
    not empty; the bound the stored fallback puts on the size, and the one the matches put on it;
    equal bytes take 26 bits for each 258. */
  method Compress(data: seq<Byte>, quality: int) returns (z: seq<Byte>)
    ensures Unzlib(z) == if data != [] then Some(data) else None
    ensures |z| <= |data| + 6 + 5 * ((|data| + 32766) / 32767)
    ensures TokensSuffice(data, if quality < 5 then 5 else quality, z)
    ensures data != [] && OneByte(data) ==> |z| <= 4 + (73 + 26 * ((|data| - 1) / 258)) / 8
  {
    hide Sums, Unzlib, StoredBlocks, Flat, Blocks, Encodes, AllChosen, OneByte, Costs, Sizes;
    ghost var sum := SumBytes(Sums(data).0, Sums(data).1);
    var least: nat := if quality < 5 then 5 else quality;
    var out, rest, tokens, bits := WriteFixed(data, least, sum);
    CostsSuffice(data, tokens, bits, least, |out|);
    StoredSize(data);
    if |out| > |data| + 2 + 5 * ((|data| + 32766) / 32767) {
      out := WriteStored(out[..2], data);
      rest := [];
      assert out[2..] == StoredBlocks(data);
      if data != [] {
        InflatesStoredBlocks(data, sum, []);
        assert [] + data == data && [] + Flat(sum) == Flat(sum);
      }
    }
    var s1, s2 := Adler32(data);
    z := out + SumBytes(s1, s2);
    assert out == HEADER + out[2..];
    if data == [] {
      UnzlibOfNothing();
    } else {
      UnzlibOf(out[2..], data, rest);
    }
  }
}
