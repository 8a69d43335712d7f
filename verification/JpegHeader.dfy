/** Code tables as the head of a JPEG file describes them (ITU-T T.81, section B.2.4.2 and
  annex C), and why their codes can be told apart.
 */
module JpegHeader {
  import opened Bits
  import opened JpegCoding

  /** How many codes there are of each length, and the symbols in the order of their codes. */
  datatype Segment = Segment(count: nat -> nat, symbol: nat -> nat, total: nat)

  const NONE := Code(0, 0)

  /** Code number `i` of those that have at least `size` bits, when `first` is the first code of
    that length: codes of one length are consecutive, and the next length goes on with the
    next code and a zero bit. */
  function CodeAt(count: nat -> nat, i: nat, size: nat, first: nat): (c: Code)
    decreases 17 - size
  {
    if size > 16 then NONE
    else if i < count(size) then Code(first + i, size)
    else CodeAt(count, i - count(size), size + 1, 2 * (first + count(size)))
  }

  /** The code that a reader gives to symbol number `i`. */
  function HeaderCode(seg: Segment, i: nat): Code { CodeAt(seg.count, i, 1, 0) }

  /** The segment describes the table: its symbols have the codes a reader gives them, and no
    other symbol has a code. */
  ghost predicate Describes(seg: Segment, t: Table) {
    && (forall i: nat | i < seg.total :: seg.symbol(i) < 256 && t[seg.symbol(i)] == HeaderCode(seg, i))
    && (forall s: nat | s < 256 && t[s] != NONE :: exists i: nat :: i < seg.total && seg.symbol(i) == s)
  }

  /** The codes do not run out of 16 bits. */
  ghost predicate Fits(seg: Segment) {
    seg.total > 0 ==>
      var last := HeaderCode(seg, seg.total - 1); 0 < last.size <= 16 && last.value < Pow2(last.size)
  }

  /** Two tables with the same description have the same codes: a reader of the head decodes
    with the table of the writer. */
  lemma SameDescription(seg: Segment, t: Table, u: Table)
    requires Describes(seg, t) && Describes(seg, u)
    ensures t == u
  {
    hide HeaderCode;
    forall s: nat | s < 256
      ensures t[s] == u[s]
    {
      if t[s] != NONE || u[s] != NONE {
        var i: nat :| i < seg.total && seg.symbol(i) == s;
      }
    }
  }

  // ------------------------------------------------------------ codes in order

  /** `a` comes before `b`: it is not longer, and `b` begins with a larger code of that length. */
  ghost predicate Precedes(a: Code, b: Code) {
    a.size <= b.size && (a.value + 1) * Pow2(b.size - a.size) <= b.value
  }

  lemma {:induction false} NotBelow(count: nat -> nat, i: nat, size: nat, first: nat)
    requires size > 0 && CodeAt(count, i, size, first) != NONE
    ensures var c := CodeAt(count, i, size, first);
            size <= c.size <= 16 && first * Pow2(c.size - size) <= c.value
    decreases 17 - size
  {
    hide Pow2;
    if i < count(size) {
      PowZero();
    } else {
      var next := 2 * (first + count(size));
      NotBelow(count, i - count(size), size + 1, next);
      var c := CodeAt(count, i - count(size), size + 1, next);
      Halves(c.size - size);
      Doubled(first, count(size), Pow2(c.size - size - 1), Pow2(c.size - size));
    }
  }

  lemma PowZero()
    ensures Pow2(0) == 1
  {
  }

  lemma Doubled(first: nat, n: nat, p: nat, q: nat)
    requires q == 2 * p
    ensures first * q <= 2 * (first + n) * p && (first + n) * q == 2 * (first + n) * p
  {
    assert 2 * (first + n) * p == first * q + n * q;
  }

  lemma PrecedesSame(a: Code, b: Code)
    requires a.size == b.size && a.value < b.value
    ensures Precedes(a, b)
  {
    PowZero();
  }

  /** A code of length `size` precedes what goes on from the next one. */
  lemma PrecedesLonger(a: Code, b: Code, next: nat)
    requires a.size < b.size && a.value < next && 2 * next * Pow2(b.size - a.size - 1) <= b.value
    ensures Precedes(a, b)
  {
    hide Pow2;
    Halves(b.size - a.size);
    BelowNext(a.value + 1, next, Pow2(b.size - a.size - 1), Pow2(b.size - a.size), b.value);
  }

  lemma BelowNext(a: nat, next: nat, p: nat, q: nat, v: nat)
    requires a <= next && q == 2 * p && 2 * next * p <= v
    ensures a * q <= v
  {
    assert a * q <= next * q == 2 * next * p;
  }

  lemma {:induction false} InOrder(count: nat -> nat, i: nat, k: nat, size: nat, first: nat)
    requires i < k && size > 0 && CodeAt(count, k, size, first) != NONE
    ensures CodeAt(count, i, size, first) != NONE
    ensures Precedes(CodeAt(count, i, size, first), CodeAt(count, k, size, first))
    decreases 17 - size
  {
    hide Pow2, Precedes;
    var n, next := count(size), 2 * (first + count(size));
    if n <= i {
      InOrder(count, i - n, k - n, size + 1, next);
    } else if n <= k {
      NotBelow(count, k - n, size + 1, next);
      PrecedesLonger(Code(first + i, size), CodeAt(count, k - n, size + 1, next), first + n);
    } else {
      PrecedesSame(Code(first + i, size), Code(first + k, size));
    }
  }

  /** A code that precedes one of its length's codes is one itself. */
  lemma PrecedingFits(a: Code, b: Code)
    requires Precedes(a, b) && b.value < Pow2(b.size)
    ensures a.value < Pow2(a.size)
  {
    var p := Pow2(b.size - a.size);
    PowAdd(a.size, b.size - a.size);
    assert (a.value + 1) * p < Pow2(a.size) * p;
    Cancel(a.value + 1, Pow2(a.size), p);
  }

  lemma Cancel(a: nat, b: nat, p: nat)
    requires a * p < b * p
    ensures a < b
  {
  }

  // ------------------------------------------------------------- prefix freedom

  /** Neither of two codes in order begins the other. */
  lemma ApartInBits(a: Code, b: Code)
    requires Precedes(a, b) && a.value < Pow2(a.size) && b.value < Pow2(b.size)
    ensures !(a.Bits() <= b.Bits()) && !(b.Bits() <= a.Bits())
  {
    hide CodeBits, CodeValue, Pow2;
    var n := b.size - a.size;
    var p := Pow2(n);
    var q, r := b.value / p, b.value % p;
    PowAdd(a.size, n);
    Quotient(a.value + 1, b.value, Pow2(a.size), p);
    CodeBitsJoin(q, r, a.size, n);
    assert b.Bits() == CodeBits(q, a.size) + CodeBits(r, n);
    CodeValueOfCodeBits(a.value, a.size);
    CodeValueOfCodeBits(q, a.size);
    assert b.Bits()[..a.size] == CodeBits(q, a.size);
    assert CodeBits(a.value, a.size) != CodeBits(q, a.size);
    LongerBegins(a.Bits(), b.Bits());
  }

  lemma LongerBegins<T>(a: seq<T>, b: seq<T>)
    requires |a| <= |b|
    ensures b <= a ==> a <= b
  {
  }

  lemma Quotient(low: nat, v: nat, high: nat, p: nat)
    requires p > 0 && low * p <= v < high * p
    ensures low <= v / p < high && v == v / p * p + v % p
  {
    var q := v / p;
    assert v == q * p + v % p;
    assert q < low ==> (q + 1) * p <= low * p;
    assert q >= high ==> q * p >= high * p;
  }

  /** The symbol numbers of used codes. */
  lemma CodesInOrder(seg: Segment, i: nat, k: nat)
    requires i < k < seg.total && Fits(seg)
    ensures var a, b := HeaderCode(seg, i), HeaderCode(seg, k);
            Precedes(a, b) && a.value < Pow2(a.size) && b.value < Pow2(b.size)
  {
    hide CodeAt, Precedes, Pow2;
    CodeFits(seg, i);
    CodeFits(seg, k);
    InOrder(seg.count, i, k, 1, 0);
  }

  lemma CodeFits(seg: Segment, i: nat)
    requires i < seg.total && Fits(seg)
    ensures var a := HeaderCode(seg, i); 0 < a.size <= 16 && a.value < Pow2(a.size)
  {
    hide CodeAt, Pow2;
    if i < seg.total - 1 {
      InOrder(seg.count, i, seg.total - 1, 1, 0);
      NotBelow(seg.count, i, 1, 0);
      PrecedingFits(HeaderCode(seg, i), HeaderCode(seg, seg.total - 1));
    }
  }

  /** Main result: the table that a fitting segment describes is prefix-free. */
  lemma DescribedIsPrefixFree(seg: Segment, t: Table)
    requires Describes(seg, t) && Fits(seg)
    ensures PrefixFree(t)
  {
    hide HeaderCode, Pow2, Precedes, Fits, Code.Bits;
    forall a: nat | a < 256
      ensures t[a].size <= 16 && t[a].value < Pow2(t[a].size)
    {
      if t[a] != NONE {
        var i: nat :| i < seg.total && seg.symbol(i) == a;
        CodeFits(seg, i);
      }
    }
    forall a: nat, b: nat | a < 256 && b < 256 && a != b && t[a].size > 0 && t[b].size > 0
      ensures !(t[a].Bits() <= t[b].Bits())
    {
      var i: nat :| i < seg.total && seg.symbol(i) == a;
      var k: nat :| k < seg.total && seg.symbol(k) == b;
      if i < k {
        CodesInOrder(seg, i, k);
        ApartInBits(t[a], t[b]);
      } else {
        CodesInOrder(seg, k, i);
        ApartInBits(t[b], t[a]);
      }
    }
  }

  // ------------------------------------------------------- reading a segment

  /** Two lengths of a segment at once. */
  lemma TwoLengths(count: nat -> nat, i: nat, size: nat, first: nat)
    requires size <= 15
    ensures var a, b := count(size), count(size + 1);
            var f := 2 * (first + a);
            CodeAt(count, i, size, first)
            == if i < a then Code(first + i, size)
               else if i < a + b then Code(f + (i - a), size + 1)
               else CodeAt(count, i - a - b, size + 2, 2 * (f + b))
  {
    if i >= count(size) {
      assert CodeAt(count, i, size, first) == CodeAt(count, i - count(size), size + 1, 2 * (first + count(size)));
    }
  }

  /** Four of them. */
  lemma FourLengths(count: nat -> nat, i: nat, size: nat, first: nat)
    requires size <= 13
    ensures var a, b, c, d := count(size), count(size + 1), count(size + 2), count(size + 3);
            var f := 2 * (first + a);
            var g := 2 * (f + b);
            var h := 2 * (g + c);
            CodeAt(count, i, size, first)
            == if i < a then Code(first + i, size)
               else if i < a + b then Code(f + (i - a), size + 1)
               else if i < a + b + c then Code(g + (i - a - b), size + 2)
               else if i < a + b + c + d then Code(h + (i - a - b - c), size + 3)
               else CodeAt(count, i - a - b - c - d, size + 4, 2 * (h + d))
  {
    hide CodeAt;
    var a, b := count(size), count(size + 1);
    TwoLengths(count, i, size, first);
    if i >= a + b {
      TwoLengths(count, i - a - b, size + 2, 2 * (2 * (first + a) + b));
    }
  }
}
