/** Bytes and the bit strings they stand for, least significant bit first. */
module Bits {
  type Byte = b: nat | b < 256

  /** A 32-bit unsigned integer. */
  type Word = w: nat | w < 0x1_0000_0000

  function Pow2(n: nat): (p: nat)
    ensures p > 0
  {
    if n == 0 then 1 else 2 * Pow2(n - 1)
  }

  lemma {:induction false} PowAdd(a: nat, b: nat)
    ensures Pow2(a + b) == Pow2(a) * Pow2(b)
  {
    if b > 0 {
      PowAdd(a, b - 1);
    }
  }

  /** The `n` low bits of `v`, lowest first. */
  function LowBits(v: nat, n: nat): (s: seq<bool>)
    ensures |s| == n
  {
    if n == 0 then [] else [v % 2 == 1] + LowBits(v / 2, n - 1)
  }

  /** The `n` low bits of `v`, highest first: how Huffman codes are packed. */
  function CodeBits(v: nat, n: nat): (s: seq<bool>)
    ensures |s| == n
  {
    if n == 0 then [] else CodeBits(v / 2, n - 1) + [v % 2 == 1]
  }

  function LowValue(s: seq<bool>): nat {
    if s == [] then 0 else (if s[0] then 1 else 0) + 2 * LowValue(s[1..])
  }

  function CodeValue(s: seq<bool>): nat {
    if s == [] then 0 else 2 * CodeValue(s[..|s| - 1]) + (if s[|s| - 1] then 1 else 0)
  }

  lemma {:induction false} LowValueOfLowBits(v: nat, n: nat)
    requires v < Pow2(n)
    ensures LowValue(LowBits(v, n)) == v
  {
    if n > 0 {
      LowValueOfLowBits(v / 2, n - 1);
      assert LowBits(v, n)[1..] == LowBits(v / 2, n - 1);
    }
  }

  lemma {:induction false} CodeValueOfCodeBits(v: nat, n: nat)
    requires v < Pow2(n)
    ensures CodeValue(CodeBits(v, n)) == v
  {
    if n > 0 {
      CodeValueOfCodeBits(v / 2, n - 1);
      assert CodeBits(v, n)[..n - 1] == CodeBits(v / 2, n - 1);
    }
  }

  /** The bits of a number are those of its upper part and its lower part. */
  lemma {:induction false} CodeBitsJoin(high: nat, low: nat, m: nat, n: nat)
    requires low < Pow2(n)
    ensures CodeBits(high * Pow2(n) + low, m + n) == CodeBits(high, m) + CodeBits(low, n)
    decreases n
  {
    if n == 0 {
      assert CodeBits(high, m) + [] == CodeBits(high, m);
    } else {
      var v := high * Pow2(n) + low;
      assert high * Pow2(n) == 2 * (high * Pow2(n - 1));
      assert v / 2 == high * Pow2(n - 1) + low / 2 && v % 2 == low % 2;
      CodeBitsJoin(high, low / 2, m, n - 1);
    }
  }

  lemma {:induction false} LowBitsOfLowValue(s: seq<bool>)
    ensures LowValue(s) < Pow2(|s|)
    ensures LowBits(LowValue(s), |s|) == s
  {
    if s != [] {
      LowBitsOfLowValue(s[1..]);
    }
  }

  /** Appending the bits of `c` above the `n` bits of `b` adds c * 2^n. */
  lemma {:induction false} LowBitsJoin(b: nat, n: nat, c: nat, m: nat)
    requires b < Pow2(n)
    ensures LowBits(b + c * Pow2(n), n + m) == LowBits(b, n) + LowBits(c, m)
    ensures c < Pow2(m) ==> b + c * Pow2(n) < Pow2(n + m)
  {
    if n > 0 {
      var v := b + c * Pow2(n);
      assert v == b + 2 * (c * Pow2(n - 1));
      assert v % 2 == b % 2 && v / 2 == b / 2 + c * Pow2(n - 1);
      LowBitsJoin(b / 2, n - 1, c, m);
    } else {
      assert LowBits(b, n) + LowBits(c, m) == LowBits(c, m);
    }
  }

  // ------------------------------------------------------- bitwise inclusive or

  function Or(a: nat, b: nat): nat {
    if a == 0 && b == 0 then 0
    else 2 * Or(a / 2, b / 2) + (if a % 2 == 1 || b % 2 == 1 then 1 else 0)
  }

  lemma {:induction false} OrZero(c: nat)
    ensures Or(0, c) == c
  {
    if c > 0 {
      OrZero(c / 2);
    }
  }

  lemma {:induction false} OrCommutes(a: nat, b: nat)
    ensures Or(a, b) == Or(b, a)
  {
    if a > 0 || b > 0 {
      OrCommutes(a / 2, b / 2);
    }
  }

  /** `or` of numbers with no common bit is their sum. */
  lemma {:induction false} OrIsSum(b: nat, n: nat, c: nat)
    requires b < Pow2(n)
    ensures Or(b, c * Pow2(n)) == b + c * Pow2(n)
  {
    if n == 0 {
      OrZero(c);
    } else {
      var d := c * Pow2(n);
      assert d == 2 * (c * Pow2(n - 1));
      OrIsSum(b / 2, n - 1, c);
    }
  }

  // ------------------------------------------------------------- byte strings

  /** The bits of a byte string. */
  function Flat(bytes: seq<Byte>): (s: seq<bool>)
    ensures |s| == 8 * |bytes|
  {
    if bytes == [] then [] else Flat(bytes[..|bytes| - 1]) + LowBits(bytes[|bytes| - 1], 8)
  }

  lemma {:induction false} FlatAdd(a: seq<Byte>, b: seq<Byte>)
    ensures Flat(a + b) == Flat(a) + Flat(b)
  {
    if b == [] {
      assert a + b == a;
    } else {
      var k := |b| - 1;
      FlatAdd(a, b[..k]);
      assert (a + b)[..|a + b| - 1] == a + b[..k];
    }
  }

  lemma FlatPush(a: seq<Byte>, b: Byte)
    ensures Flat(a + [b]) == Flat(a) + LowBits(b, 8)
  {
    assert (a + [b])[..|a|] == a;
  }

  lemma FlatCons(b: Byte, a: seq<Byte>)
    ensures Flat([b] + a) == LowBits(b, 8) + Flat(a)
  {
    FlatAdd([b], a);
    assert Flat([b]) == Flat([]) + LowBits(b, 8);
  }

  lemma LowValueBound(s: seq<bool>)
    requires |s| == 8
    ensures LowValue(s) < 256
  {
    LowBitsOfLowValue(s);
    assert Pow2(8) == 256;
  }

  /** The byte string behind whole bytes of bits. */
  function Bytes(s: seq<bool>): (r: seq<Byte>)
    requires |s| % 8 == 0
    ensures |r| == |s| / 8
  {
    if s == [] then [] else
      LowValueBound(s[..8]);
      [LowValue(s[..8])] + Bytes(s[8..])
  }

  lemma {:induction false} BytesOfFlat(bytes: seq<Byte>)
    ensures Bytes(Flat(bytes)) == bytes
  {
    if bytes != [] {
      var b, rest := bytes[0], bytes[1..];
      assert bytes == [b] + rest;
      FlatCons(b, rest);
      BytesOfFlat(rest);
      assert Pow2(8) == 256;
      LowValueOfLowBits(b, 8);
      var s := Flat(bytes);
      assert s[..8] == LowBits(b, 8) && s[8..] == Flat(rest);
    }
  }

  /** Bits that begin with a byte string come from bytes that begin with it. */
  lemma FlatStarts(bytes: seq<Byte>, head: seq<Byte>, rest: seq<bool>)
    requires Flat(bytes) == Flat(head) + rest
    ensures |head| <= |bytes| && bytes[..|head|] == head && Flat(bytes[|head|..]) == rest
  {
    hide Flat, Bytes;
    var n := |head|;
    assert bytes == bytes[..n] + bytes[n..];
    FlatAdd(bytes[..n], bytes[n..]);
    SameSplit(Flat(bytes[..n]), Flat(bytes[n..]), Flat(head), rest);
    BytesOfFlat(bytes[..n]);
    BytesOfFlat(head);
  }

  lemma SameSplit<T>(a: seq<T>, b: seq<T>, c: seq<T>, d: seq<T>)
    requires a + b == c + d && |a| == |c|
    ensures a == c && b == d
  {
    assert (a + b)[..|a|] == a && (c + d)[..|c|] == c && (a + b)[|a|..] == b && (c + d)[|c|..] == d;
  }
}
