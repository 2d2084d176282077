/** The fixed colour palette of the lock grid and the secret unlock code.
    Colours are the source's own string tokens, so that the comparison of
    joined strings in the unlock gate can be modelled as written. */
module Palette {

  /** The four colours a grid cell can take, in palette order. */
  const COLORS: seq<string> := ["blue", "green", "red", "yellow"]

  /** The secret code: the palette in order. */
  const CODE: seq<string> := ["blue", "green", "red", "yellow"]

  /** A token that `Array.prototype.join` cannot confuse with a separator. */
  predicate NoComma(t: string) {
    ',' !in t
  }

  predicate AllNoComma(s: seq<string>) {
    forall k :: 0 <= k < |s| ==> NoComma(s[k])
  }

  /** A sequence of palette tokens. */
  predicate InPalette(s: seq<string>) {
    forall k :: 0 <= k < |s| ==> s[k] in COLORS
  }

  /** No palette token contains a comma, and the palette colours are pairwise
      distinct. */
  lemma PaletteFacts()
    ensures forall c :: c in COLORS ==> NoComma(c)
    ensures forall i, j :: 0 <= i < j < |COLORS| ==> COLORS[i] != COLORS[j]
    ensures CODE == COLORS && |COLORS| == 4
  {
    assert COLORS[0] != COLORS[1] by { assert COLORS[0][0] != COLORS[1][0]; }
    assert COLORS[0] != COLORS[2] by { assert COLORS[0][0] != COLORS[2][0]; }
    assert COLORS[0] != COLORS[3] by { assert COLORS[0][0] != COLORS[3][0]; }
    assert COLORS[1] != COLORS[2] by { assert COLORS[1][0] != COLORS[2][0]; }
    assert COLORS[1] != COLORS[3] by { assert COLORS[1][0] != COLORS[3][0]; }
    assert COLORS[2] != COLORS[3] by { assert COLORS[2][0] != COLORS[3][0]; }
  }

  /** Sequences of palette tokens are comma-free. */
  lemma InPaletteNoComma(s: seq<string>)
    requires InPalette(s)
    ensures AllNoComma(s)
  {
    PaletteFacts();
  }
}
