/** V as a place in the plane of four nametables, and how the dots of a picture move it. */
module Scrolling {
  import opened PpuModel
  import opened Ticking

  // --------------------------------------------------------------- the place

  /** Column 0 to 63: coarse X with the horizontal nametable bit above it. */
  function Col(v: bv16): bv16 { ((v >> 5) & 32) | (v & 31) }

  /** The vertical nametable bit. */
  function Lower(v: bv16): bv16 { (v >> 11) & 1 }

  /** Line 0 to 255 of the nametable: coarse Y and fine Y. */
  function RowIn(v: bv16): bv16 { ((v >> 2) & 0xf8) | ((v >> 12) & 7) }

  /** A column to the right, around the plane. */
  function Right(c: bv16): bv16 { (c + 1) & 63 }

  // Fetching moves V right and nothing else.

  lemma NextTileLaw(v: bv16)
    ensures Col(NextTile(v)) == Right(Col(v)) && Lower(NextTile(v)) == Lower(v) && RowIn(NextTile(v)) == RowIn(v)
  {
  }

  /** The end of a line moves V down: from line 239 to the other nametable, from line 255 to the
    top of the same one; the column comes from T. */
  lemma EndOfLineLaw(v: bv16, t: bv16)
    ensures var q := EndOfLineAddress(v, t);
            && Col(q) == Col(t)
            && (RowIn(v) == 239 ==> RowIn(q) == 0 && Lower(q) == Lower(v) ^ 1)
            && (RowIn(v) == 255 ==> RowIn(q) == 0 && Lower(q) == Lower(v))
            && (RowIn(v) != 239 && RowIn(v) != 255 ==> RowIn(q) == RowIn(v) + 1 && Lower(q) == Lower(v))
  {
  }

  /** The vertical reload takes the line from T and leaves the column. */
  lemma ReloadLaw(v: bv16, t: bv16)
    ensures var q := Reloaded(v, t); Col(q) == Col(v) && RowIn(q) == RowIn(t) && Lower(q) == Lower(t)
  {
  }
}
