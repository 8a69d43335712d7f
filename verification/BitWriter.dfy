/** The bit buffer of the deflate encoder: bits go into the low end of the output first. */
module BitWriting {
  import opened Bits
  import opened Lz77

  class BitWriter {
    var out: seq<Byte>
    var bitbuf: Word
    var bitcount: nat

    constructor (header: seq<Byte>)
      ensures Valid() && Bits() == Flat(header) && bitcount == 0 && out == header
    {
      out, bitbuf, bitcount := header, 0, 0;
      new;
      assert Flat(header) + [] == Flat(header);
    }

    ghost predicate Valid()
      reads this
    {
      bitcount < 8 && bitbuf < Pow2(bitcount)
    }

    /** Everything written so far, including the bits that still wait in the buffer. */
    ghost function Bits(): seq<bool>
      reads this
    {
      Flat(out) + LowBits(bitbuf, bitcount)
    }

    /** `stbiw__zlib_flushf` */
    method Flush()
      requires bitbuf < Pow2(bitcount)
      modifies this
      ensures Valid() && Bits() == old(Bits())
      ensures bitcount == old(bitcount) % 8
    {
      hide LowBits, Flat;
      while bitcount >= 8
        invariant bitbuf < Pow2(bitcount) && Bits() == old(Bits())
        invariant bitcount % 8 == old(bitcount) % 8
      {
        SplitByte(bitbuf, bitcount);
        FlatPush(out, bitbuf % 256);
        out := out + [bitbuf % 256];
        bitbuf := bitbuf / 256;
        bitcount := bitcount - 8;
      }
    }

    /** `stbiw__zlib_add`: append the low `n` bits of `code`. */
    method Add(code: nat, n: nat)
      requires Valid() && n <= 13 && code < Pow2(n)
      modifies this
      ensures Valid() && Bits() == old(Bits()) + LowBits(code, n)
      ensures bitcount == (old(bitcount) + n) % 8
    {
      hide LowBits, Flat, Or, Pow2;
      LowBitsJoin(bitbuf, bitcount, code, n);
      OrIsSum(bitbuf, bitcount, code);
      WordFits(bitcount + n);
      bitbuf := Or(bitbuf, code * Pow2(bitcount));
      bitcount := bitcount + n;
      assert Bits() == old(Bits()) + LowBits(code, n);
      Flush();
    }

    /** `stbiw__zlib_huffa`: append a Huffman code, highest bit first. */
    method AddCode(code: nat, n: nat)
      requires Valid() && n <= 9 && code < Pow2(n)
      modifies this
      ensures Valid() && Bits() == old(Bits()) + CodeBits(code, n)
    {
      var reversed := BitReverse(code, n);
      Add(reversed, n);
    }

    /** `stbiw__zlib_huff` */
    method AddSymbol(n: nat)
      requires Valid() && n < 288
      modifies this
      ensures Valid() && Bits() == old(Bits()) + SymbolBits(n)
    {
      hide CodeBits, LowBits, Flat;
      assert Pow2(7) == 128 && Pow2(8) == 256 && Pow2(9) == 512;
      if n <= 143 {
        AddCode(0x30 + n, 8);
      } else if n <= 255 {
        AddCode(0x190 + n - 144, 9);
      } else if n <= 279 {
        AddCode(n - 256, 7);
      } else {
        AddCode(0xc0 + n - 280, 8);
      }
    }

    /** Append zero bits up to the next byte boundary. */
    method Pad() returns (ghost zeros: seq<bool>)
      requires Valid()
      modifies this
      ensures Valid() && bitcount == 0 && Bits() == Flat(out) == old(Bits()) + zeros && |zeros| < 8
    {
      hide LowBits, Flat;
      zeros := [];
      ghost var start := bitcount;
      while bitcount != 0
        invariant Valid() && Bits() == old(Bits()) + zeros && |zeros| < 8
        invariant bitcount != 0 ==> bitcount == start + |zeros|
        decreases if bitcount == 0 then 0 else 8 - bitcount
      {
        ghost var more := LowBits(0, 1);
        Add(0, 1);
        zeros := zeros + more;
      }
      LowBitsNone(bitbuf);
    }
  }

  lemma LowBitsNone(v: nat)
    ensures LowBits(v, 0) == []
  {
  }

  /** The lowest byte of the buffer is the first to go. */
  lemma SplitByte(v: nat, n: nat)
    requires n >= 8 && v < Pow2(n)
    ensures LowBits(v, n) == LowBits(v % 256, 8) + LowBits(v / 256, n - 8)
    ensures v / 256 < Pow2(n - 8)
  {
    assert Pow2(8) == 256;
    LowBitsJoin(v % 256, 8, v / 256, n - 8);
    PowAdd(n - 8, 8);
  }

  lemma {:induction false} WordFits(n: nat)
    requires n <= 20
    ensures Pow2(n) <= 0x10_0000
    decreases 20 - n
  {
    if n < 20 {
      WordFits(n + 1);
    } else {
      PowAdd(10, 10);
      assert Pow2(10) == 1024;
    }
  }

  /** `stbiw__zlib_bitrev` */
  method BitReverse(code: nat, n: nat) returns (res: nat)
    requires code < Pow2(n)
    ensures LowBits(res, n) == CodeBits(code, n) && res < Pow2(n)
  {
    var c: nat, k: nat := code, n;
    res := 0;
    while k != 0
      invariant k <= n && res < Pow2(n - k) && c < Pow2(k)
      invariant CodeBits(c, k) + LowBits(res, n - k) == CodeBits(code, n)
    {
      ghost var r := res;
      assert [c % 2 == 1] + LowBits(r, n - k) == LowBits(2 * r + c % 2, n - k + 1);
      assert CodeBits(c, k) == CodeBits(c / 2, k - 1) + [c % 2 == 1];
      res := 2 * res + c % 2;
      c := c / 2;
      k := k - 1;
    }
  }
}
