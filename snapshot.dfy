/**
 * The text snapshot of a board shown in the game history: each cell through
 * the emoji table, a newline after every third cell.
 */
module Snapshot {
  import opened Board

  /** How the empty marker is drawn. */
  const WhiteSquare: string := "\U{2B1C}"

  /** EMOJIS: the symbols a player may pick, each drawn as itself, and the empty marker. */
  const Emojis: map<string, string> := map[
    Cross := Cross, Nought := Nought, "\U{1F63A}" := "\U{1F63A}",
    "\U{1F436}" := "\U{1F436}", "\U{1F31F}" := "\U{1F31F}", "\U{1F525}" := "\U{1F525}",
    Empty := WhiteSquare]

  /** EMOJIS.get(c, c). */
  function Glyph(c: string): string {
    if c in Emojis then Emojis[c] else c
  }

  /** Only the empty marker is drawn differently from what the cell holds. */
  lemma GlyphShowsCell(c: string)
    ensures Glyph(c) == if c == Empty then WhiteSquare else c
  {
  }

  /** render_board_snapshot. */
  function Render(b: seq<string>): string {
    RenderFrom(b, 0)
  }

  /** The snapshot text of the cells from index `i` on. */
  function RenderFrom(b: seq<string>, i: nat): string
    requires i <= |b|
    decreases |b| - i
  {
    if i == |b| then ""
    else Glyph(b[i]) + ((if i % 3 == 2 then "\n" else "") + RenderFrom(b, i + 1))
  }

  /** Row `r` of the grid as one line of text. */
  function RowText(b: seq<string>, r: nat): string
    requires |b| == 9 && r < 3
  {
    Glyph(b[3 * r]) + (Glyph(b[3 * r + 1]) + (Glyph(b[3 * r + 2]) + "\n"))
  }

  /** Every cell of the board holds something the emoji table knows. */
  predicate OnPalette(b: seq<string>) {
    forall i :: 0 <= i < |b| ==> b[i] in Emojis
  }

  /** Regrouping a concatenation, as a step the render lemmas call explicitly. */
  lemma Assoc(x: string, y: string, z: string)
    ensures x + (y + z) == x + y + z
  {
  }

  /** Rendering from the start of a row emits that row's line, then the rows below. */
  lemma RenderRow(b: seq<string>, r: nat)
    requires |b| == 9 && r < 3
    ensures RenderFrom(b, 3 * r) == RowText(b, r) + RenderFrom(b, 3 * r + 3)
  {
    var i := 3 * r;
    var g0, g1, g2, rest := Glyph(b[i]), Glyph(b[i + 1]), Glyph(b[i + 2]), RenderFrom(b, i + 3);
    var nl, two, one := "\n" + rest, g2 + ("\n" + rest), g1 + (g2 + ("\n" + rest));
    assert RenderFrom(b, i + 2) == two by {
      assert (i + 2) % 3 == 2 by { assert r == 0 || r == 1 || r == 2; }
    }
    assert RenderFrom(b, i + 1) == one by {
      assert (i + 1) % 3 == 1 by { assert r == 0 || r == 1 || r == 2; }
      assert "" + two == two;
    }
    assert RenderFrom(b, i) == g0 + one by {
      assert i % 3 == 0 by { assert r == 0 || r == 1 || r == 2; }
      assert "" + one == one;
    }
    Assoc(g2, "\n", rest);
    Assoc(g1, g2 + "\n", rest);
    Assoc(g0, g1 + (g2 + "\n"), rest);
  }

  /** The snapshot of a board is its three rows, top to bottom, each ended by a newline. */
  lemma RenderRows(b: seq<string>)
    requires |b| == 9
    ensures Render(b) == RowText(b, 0) + RowText(b, 1) + RowText(b, 2)
  {
    var r0, r1, r2 := RowText(b, 0), RowText(b, 1), RowText(b, 2);
    RenderRow(b, 0);
    RenderRow(b, 1);
    RenderRow(b, 2);
    assert RenderFrom(b, 9) == "";
    assert r2 + "" == r2;
    Assoc(r0, r1, r2);
  }

  /** A symbol of the table is drawn as one character, and different symbols differently. */
  lemma PaletteGlyphs(c: string, d: string)
    requires c in Emojis && d in Emojis
    ensures |Glyph(c)| == 1
    ensures Glyph(c) == Glyph(d) ==> c == d
  {
  }

  /** Rows with the same text hold the same symbols. */
  lemma SameRow(b1: seq<string>, b2: seq<string>, r: nat)
    requires |b1| == 9 && |b2| == 9 && OnPalette(b1) && OnPalette(b2) && r < 3
    requires RowText(b1, r) == RowText(b2, r)
    ensures b1[3 * r] == b2[3 * r] && b1[3 * r + 1] == b2[3 * r + 1] && b1[3 * r + 2] == b2[3 * r + 2]
  {
    var t1, t2 := RowText(b1, r), RowText(b2, r);
    PaletteGlyphs(b1[3 * r], b2[3 * r]);
    PaletteGlyphs(b1[3 * r + 1], b2[3 * r + 1]);
    PaletteGlyphs(b1[3 * r + 2], b2[3 * r + 2]);
    PaletteGlyphs(b2[3 * r], b1[3 * r]);
    PaletteGlyphs(b2[3 * r + 1], b1[3 * r + 1]);
    PaletteGlyphs(b2[3 * r + 2], b1[3 * r + 2]);
    assert t1[0] == t2[0] && t1[1] == t2[1] && t1[2] == t2[2];
    assert Glyph(b1[3 * r]) == [t1[0]] && Glyph(b2[3 * r]) == [t2[0]];
    assert Glyph(b1[3 * r + 1]) == [t1[1]] && Glyph(b2[3 * r + 1]) == [t2[1]];
    assert Glyph(b1[3 * r + 2]) == [t1[2]] && Glyph(b2[3 * r + 2]) == [t2[2]];
  }

  /**
   * The snapshot loses nothing: two boards over the emoji table with the same
   * snapshot are the same board.
   */
  lemma RenderInjective(b1: seq<string>, b2: seq<string>)
    requires |b1| == 9 && |b2| == 9 && OnPalette(b1) && OnPalette(b2)
    requires Render(b1) == Render(b2)
    ensures b1 == b2
  {
    RenderRows(b1);
    RenderRows(b2);
    forall r: nat | r < 3 ensures |RowText(b1, r)| == 4 && |RowText(b2, r)| == 4 {
      PaletteGlyphs(b1[3 * r], b1[3 * r]);
      PaletteGlyphs(b1[3 * r + 1], b1[3 * r + 1]);
      PaletteGlyphs(b1[3 * r + 2], b1[3 * r + 2]);
      PaletteGlyphs(b2[3 * r], b2[3 * r]);
      PaletteGlyphs(b2[3 * r + 1], b2[3 * r + 1]);
      PaletteGlyphs(b2[3 * r + 2], b2[3 * r + 2]);
    }
    var s := Render(b1);
    assert RowText(b1, 0) == s[0..4] == RowText(b2, 0);
    assert RowText(b1, 1) == s[4..8] == RowText(b2, 1);
    assert RowText(b1, 2) == s[8..12] == RowText(b2, 2);
    SameRow(b1, b2, 0);
    SameRow(b1, b2, 1);
    SameRow(b1, b2, 2);
  }
}
