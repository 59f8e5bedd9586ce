/** What the put_pixel calls of draw_char and draw_str (os/init/init.c) put on the panel: the font's
    bits, doubled in both directions. */
module Glyphs {
  import opened Common
  import opened Pixels
  import opened Retained

  // Byte k of pixel (x, y).
  function ByteAt(g: Geometry, x: nat, y: nat, k: nat): nat { g.At(y, x * g.PixelBytes() + k) }

  ghost predicate OnPanel(g: Geometry, x: nat, y: nat, k: nat) {
    g.Valid() && 0 < x < g.xres && y < g.yres && k < g.PixelBytes()
  }

  // A store reaches byte k of a pixel from that pixel, or from its left neighbour.
  lemma WhoTouches(g: Geometry, p: Px, x: nat, y: nat, k: nat)
    requires OnPanel(g, x, y, k) && Covers(g, p, ByteAt(g, x, y, k))
    ensures p.y == y && (p.x == x || p.x + 1 == x)
    ensures p.x == x ==> ByteAt(g, x, y, k) - Start(g, p) == k
  {
    var b := g.PixelBytes();
    MulStep(x, g.xres, b);
    MulStep(0, x, b);
    RowConfined(g, p, y, x * b + k);
    MulStep(x, p.x, b);
    MulStep(p.x, x, b);
  }

  lemma OwnTouch(g: Geometry, pix: nat, x: nat, y: nat, k: nat)
    requires OnPanel(g, x, y, k)
    ensures Covers(g, Px(x, y, pix), ByteAt(g, x, y, k))
    ensures ByteAt(g, x, y, k) - Start(g, Px(x, y, pix)) == k
  {}

  ghost predicate Away(ws: seq<Px>, x: nat, y: nat) {
    forall i | 0 <= i < |ws| :: ws[i].y != y || (ws[i].x != x && ws[i].x + 1 != x)
  }

  lemma {:induction false} AwayUntouched(g: Geometry, ws: seq<Px>, x: nat, y: nat, k: nat)
    requires OnPanel(g, x, y, k) && Away(ws, x, y)
    ensures LastWrite(g, ws, ByteAt(g, x, y, k)) == None
  {
    if ws != [] {
      var n := |ws| - 1;
      if Covers(g, ws[n], ByteAt(g, x, y, k)) {
        WhoTouches(g, ws[n], x, y, k);
        assert false;
      }
      AwayUntouched(g, ws[..n], x, y, k);
    }
  }

  lemma LastIsOwn(g: Geometry, ws: seq<Px>, pix: nat, x: nat, y: nat, k: nat)
    requires OnPanel(g, x, y, k)
    ensures LastWrite(g, ws + [Px(x, y, pix)], ByteAt(g, x, y, k)) == Some(ByteOf(pix, k))
  {
    OwnTouch(g, pix, x, y, k);
    assert (ws + [Px(x, y, pix)])[|ws|] == Px(x, y, pix);
  }

  // The two-by-two block of one bit.
  lemma CellShows(g: Geometry, x: nat, y: nat, pix: nat, dx: nat, dy: nat, k: nat)
    requires dx < 2 && dy < 2 && OnPanel(g, x + dx, y + dy, k)
    ensures LastWrite(g, CellWrites(x, y, pix), ByteAt(g, x + dx, y + dy, k)) == Some(ByteOf(pix, k))
  {
    hide LastWrite;
    var a := ByteAt(g, x + dx, y + dy, k);
    var own := Px(x + dx, y + dy, pix);
    var p0, p1, p2, p3 := Px(x, y, pix), Px(x + 1, y, pix), Px(x, y + 1, pix), Px(x + 1, y + 1, pix);
    var before := if dy == 0 then (if dx == 0 then [] else [p0]) else (if dx == 0 then [p0, p1] else [p0, p1, p2]);
    var after := if dy == 0 then (if dx == 0 then [p1, p2, p3] else [p2, p3]) else (if dx == 0 then [p3] else []);
    assert CellWrites(x, y, pix) == before + [own] + after;
    assert Away(after, x + dx, y + dy);
    LastIsOwn(g, before, pix, x + dx, y + dy, k);
    AwayUntouched(g, after, x + dx, y + dy, k);
    LastWriteConcat(g, before + [own], after, a);
  }

  lemma {:induction false} GlyphRowShows(g: Geometry, x: nat, y: nat, row: nat, n: nat, fg: nat, bg: nat,
                                         i: nat, dy: nat, k: nat)
    requires i < 2 * n && dy < 2 && OnPanel(g, x + i, y + dy, k)
    ensures LastWrite(g, GlyphRowWrites(x, y, row, n, fg, bg), ByteAt(g, x + i, y + dy, k)) ==
            Some(ByteOf(if Bit(row, i / 2) then fg else bg, k))
  {
    hide LastWrite, CellWrites, Bit;
    var pix := if Bit(row, n - 1) then fg else bg;
    var cell := CellWrites(x + (n - 1) * 2, y, pix);
    LastWriteConcat(g, GlyphRowWrites(x, y, row, n - 1, fg, bg), cell, ByteAt(g, x + i, y + dy, k));
    if i / 2 == n - 1 {
      assert i == (n - 1) * 2 + i % 2;
      CellShows(g, x + (n - 1) * 2, y, pix, i % 2, dy, k);
    } else {
      CellAway(x + (n - 1) * 2, y, pix, x + i, y + dy);
      AwayUntouched(g, cell, x + i, y + dy, k);
      GlyphRowShows(g, x, y, row, n - 1, fg, bg, i, dy, k);
    }
  }

  lemma CellAway(x: nat, y: nat, pix: nat, x': nat, y': nat)
    requires x' < x
    ensures Away(CellWrites(x, y, pix), x', y')
  {}

  lemma BoxAway(ws: seq<Px>, x0: int, x1: int, y0: int, y1: int, x: nat, y: nat)
    requires InBox(ws, x0, x1, y0, y1) && (y < y0 || y1 <= y || x < x0)
    ensures Away(ws, x, y)
  {}

  lemma {:induction false} GlyphShows(g: Geometry, x: nat, y: nat, glyph: seq<nat>, n: nat, fg: nat, bg: nat,
                                      i: nat, j: nat, k: nat)
    requires n <= |glyph| && i < 16 && j < 2 * n && OnPanel(g, x + i, y + j, k)
    ensures LastWrite(g, GlyphWrites(x, y, glyph, n, fg, bg), ByteAt(g, x + i, y + j, k)) ==
            Some(ByteOf(if Bit(glyph[j / 2], i / 2) then fg else bg, k))
  {
    hide LastWrite, GlyphRowWrites, Bit;
    var rows := GlyphRowWrites(x, y + (n - 1) * 2, glyph[n - 1], 8, fg, bg);
    LastWriteConcat(g, GlyphWrites(x, y, glyph, n - 1, fg, bg), rows, ByteAt(g, x + i, y + j, k));
    if j / 2 == n - 1 {
      assert j == (n - 1) * 2 + j % 2;
      GlyphRowShows(g, x, y + (n - 1) * 2, glyph[n - 1], 8, fg, bg, i, j % 2, k);
    } else {
      GlyphRowInBox(x, y + (n - 1) * 2, glyph[n - 1], 8, fg, bg);
      BoxAway(rows, x, x + 16, y + (n - 1) * 2, y + (n - 1) * 2 + 2, x + i, y + j);
      AwayUntouched(g, rows, x + i, y + j, k);
      GlyphShows(g, x, y, glyph, n - 1, fg, bg, i, j, k);
    }
  }

  /** How many characters of a text of length n draw_str draws from column x on: it stops after the
      one that leaves no room for another before the last column. */
  function Fits(xres: nat, x: nat, n: nat): nat
    decreases xres - x
  {
    if n == 0 then 0 else if x + 32 >= xres then 1 else 1 + Fits(xres, x + 16, n - 1)
  }

  /** Character m of a text is drawn exactly when it is the first, or ends before the last column. */
  lemma {:induction false} FitsMeans(xres: nat, x: nat, n: nat, m: nat)
    ensures m < Fits(xres, x, n) <==> m < n && (m == 0 || x + 16 * m + 16 < xres)
    decreases m
  {
    if n > 0 && x + 32 < xres && m > 0 {
      FitsMeans(xres, x + 16, n - 1, m - 1);
    }
  }

  /** The colour of dot (i, j) of character m of a text. */
  function Dot(font: seq<seq<nat>>, s: string, m: nat, i: nat, j: nat, fg: nat, bg: nat): nat
    requires ValidFont(font) && m < |s| && j < 16
  {
    if Bit(font[GlyphIndex(s[m])][j / 2], i / 2) then fg else bg
  }

  lemma {:induction false} FitsAtMost(xres: nat, x: nat, n: nat)
    ensures Fits(xres, x, n) <= n
    decreases xres - x
  {
    if n > 0 && x + 32 < xres {
      FitsAtMost(xres, x + 16, n - 1);
    }
  }

  /** draw_str shows every character that fits, dot by dot as the font has it. */
  lemma {:induction false} TextShows(g: Geometry, font: seq<seq<nat>>, x: nat, y: nat, s: string, fg: nat, bg: nat,
                                     m: nat, i: nat, j: nat, k: nat)
    requires ValidFont(font) && m < Fits(g.xres, x, |s|) <= |s| && i < 16 && j < 16
    requires OnPanel(g, x + 16 * m + i, y + j, k)
    ensures LastWrite(g, StrWrites(g, font, x, y, s, fg, bg), ByteAt(g, x + 16 * m + i, y + j, k)) ==
            Some(ByteOf(Dot(font, s, m, i, j, fg, bg), k))
    decreases m
  {
    hide LastWrite, Bit, CharWrites;
    var first := CharWrites(font, x, y, s[0], fg, bg);
    var a := ByteAt(g, x + 16 * m + i, y + j, k);
    var rest: seq<Px> := if x + 32 >= g.xres then [] else StrWrites(g, font, x + 16, y, s[1..], fg, bg);
    LastWriteConcat(g, first, rest, a);
    if m == 0 {
      CharShows(g, font, x, y, s[0], fg, bg, i, j, k);
      RestIsRight(g, font, x + 16, y, s[1..], fg, bg);
      if x + 32 < g.xres {
        assert Away(rest, x + i, y + j);
        AwayUntouched(g, rest, x + i, y + j, k);
      } else {
        LastWriteNothing(g, a);
      }
    } else {
      FitsAtMost(g.xres, x + 16, |s| - 1);
      TextShows(g, font, x + 16, y, s[1..], fg, bg, m - 1, i, j, k);
    }
  }

  lemma CharShows(g: Geometry, font: seq<seq<nat>>, x: nat, y: nat, ch: char, fg: nat, bg: nat, i: nat, j: nat, k: nat)
    requires ValidFont(font) && i < 16 && j < 16 && OnPanel(g, x + i, y + j, k)
    ensures LastWrite(g, CharWrites(font, x, y, ch, fg, bg), ByteAt(g, x + i, y + j, k)) ==
            Some(ByteOf(if Bit(font[GlyphIndex(ch)][j / 2], i / 2) then fg else bg, k))
  {
    GlyphShows(g, x, y, font[GlyphIndex(ch)], 8, fg, bg, i, j, k);
  }

  // The rest of a text starts to the right of the character before it.
  lemma {:induction false} RestIsRight(g: Geometry, font: seq<seq<nat>>, x: nat, y: nat, s: string, fg: nat, bg: nat)
    requires ValidFont(font)
    ensures forall q | 0 <= q < |StrWrites(g, font, x, y, s, fg, bg)| :: StrWrites(g, font, x, y, s, fg, bg)[q].x >= x
    decreases |s|
  {
    if s != [] {
      GlyphInBox(x, y, font[GlyphIndex(s[0])], 8, fg, bg);
      if x + 32 < g.xres {
        RestIsRight(g, font, x + 16, y, s[1..], fg, bg);
      }
    }
  }

  lemma PixelIsVisible(g: Geometry, x: nat, y: nat, k: nat)
    requires OnPanel(g, x, y, k)
    ensures 0 < x * g.PixelBytes() + k < g.xres * g.PixelBytes()
  {
    MulStep(x, g.xres, g.PixelBytes());
    MulStep(0, x, g.PixelBytes());
  }

  lemma FieldShows(p: Panel, f: nat, text: string, m: nat, i: nat, j: nat, k: nat)
    requires p.Valid() && m < Fits(p.g.xres, 8, |text|) <= |text| && i < 16 && j < 16
    requires OnPanel(p.g, 8 + 16 * m + i, FieldY(f) + j, k)
    ensures LastWrite(p.g, FieldWrites(p, f, text), ByteAt(p.g, 8 + 16 * m + i, FieldY(f) + j, k)) ==
            Some(ByteOf(Dot(p.font, text, m, i, j, p.fg, p.bg), k))
  {
    hide LastWrite, Dot, Fits, StrWrites, RectWrites;
    TextShows(p.g, p.font, 8, FieldY(f), text, p.fg, p.bg, m, i, j, k);
    LastWriteConcat(p.g, FillWrites(p.g, 0, FieldY(f), p.g.xres, FieldY(f) + 20, p.bg),
                    Text(p, 8, FieldY(f), text, p.fg), ByteAt(p.g, 8 + 16 * m + i, FieldY(f) + j, k));
  }

  /** End to end: after any run that has drawn, field f shows the text drawn last, dot by dot, as far
      as the field lies above the log. */
  lemma FieldShowsLastText(p: Panel, es: seq<Event>, f: nat, m: nat, i: nat, j: nat, k: nat)
    requires p.Valid() && LastDraw(es).Some? && f < FIELD_COUNT
    requires var text := FieldTexts(LastDraw(es).value)[f];
             m < Fits(p.g.xres, 8, |text|) <= |text| && i < 16 && j < 16
    requires FieldY(f) + j < LogFloor(p.g) && OnPanel(p.g, 8 + 16 * m + i, FieldY(f) + j, k)
    ensures LastWrite(p.g, RunWrites(p, es), ByteAt(p.g, 8 + 16 * m + i, FieldY(f) + j, k)) ==
            Some(ByteOf(Dot(p.font, FieldTexts(LastDraw(es).value)[f], m, i, j, p.fg, p.bg), k))
  {
    hide LastWrite, RunWrites, RepaintWrites, FieldTexts, FieldWrites, Dot, Fits, OnPanel;
    var texts := FieldTexts(LastDraw(es).value);
    var x, y := 8 + 16 * m + i, FieldY(f) + j;
    PixelIsVisible(p.g, x, y, k);
    var o := x * p.g.PixelBytes() + k;
    assert Own(p, y, o);
    RunStaysTruthful(p, es, y, o);
    CacheHoldsLastDraw(p, es);
    assert BandOf(y) == f;
    FieldShows(p, f, texts[f], m, i, j, k);
  }
}
