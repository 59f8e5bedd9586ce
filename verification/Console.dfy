/** The framebuffer console of os/init/init.c as the program runs it: mapped memory, the field
    cache and the log position are updated in place. */
module FramebufferConsole {
  import opened Arith
  import opened Common
  import opened LogArea
  import opened Pixels
  import opened Retained

  class Console {
    const panel: Panel
    const mem: array<byte>
    var staticDrawn: bool
    var cf: seq<Field>
    var logY: nat

    ghost predicate Valid()
      reads this
    {
      && panel.Valid()
      && mem.Length >= panel.g.LastStoreEnd()
      && |cf| == FIELD_COUNT
    }

    function State(): Cache
      reads this
    {
      Cache(staticDrawn, cf, logY)
    }

    // What setup_fb leaves behind, on whatever the memory holds.
    constructor (panel: Panel, mem: array<byte>)
      requires panel.Valid() && mem.Length >= panel.g.LastStoreEnd()
      ensures Valid() && this.panel == panel && this.mem == mem && State() == Boot(panel)
    {
      this.panel, this.mem := panel, mem;
      staticDrawn, cf, logY := false, seq(FIELD_COUNT, _ => Field("", false)), LogFloor(panel.g);
    }

    method PutPixel(x: nat, y: nat, pix: nat)
      requires Valid()
      modifies mem
      ensures Painted(panel.g, old(mem[..]), mem[..], [Px(x, y, pix)])
    {
      ghost var px := Px(x, y, pix);
      assert [px][..0] == [];
      if x >= panel.g.xres || y >= panel.g.yres { return; }
      StoreEnds(panel.g, x, y);
      var p := panel.g.At(y, x * panel.g.PixelBytes());
      mem[p], mem[p + 1] := ByteOf(pix, 0), ByteOf(pix, 1);
      if panel.g.bpp > 16 {
        mem[p + 2], mem[p + 3] := ByteOf(pix, 2), ByteOf(pix, 3);
      }
    }

    method FillRect(x0: nat, y0: nat, x1: nat, y1: nat, pix: nat)
      requires Valid()
      modifies mem
      ensures Painted(panel.g, old(mem[..]), mem[..], FillWrites(panel.g, x0, y0, x1, y1, pix))
    {
      hide LastWrite;
      PaintedNothing(panel.g, mem[..]);
      var xe, ye := Min(x1, panel.g.xres), Min(y1, panel.g.yres);
      var y := y0;
      while y < ye
        invariant y == y0 || y0 <= y <= ye
        invariant Painted(panel.g, old(mem[..]), mem[..], RectWrites(x0, xe, y0, y, pix))
      {
        ghost var lines := RectWrites(x0, xe, y0, y, pix);
        assert lines + [] == lines;
        var x := x0;
        while x < xe
          invariant x == x0 || x0 <= x <= xe
          invariant Painted(panel.g, old(mem[..]), mem[..], lines + RowWrites(x0, x, y, pix))
        {
          ghost var before := mem[..];
          PutPixel(x, y, pix);
          PaintedConcat(panel.g, old(mem[..]), before, mem[..], lines + RowWrites(x0, x, y, pix), [Px(x, y, pix)]);
          assert lines + RowWrites(x0, x, y, pix) + [Px(x, y, pix)] == lines + RowWrites(x0, x + 1, y, pix);
          x := x + 1;
        }
        assert RowWrites(x0, x, y, pix) == RowWrites(x0, xe, y, pix);
        y := y + 1;
      }
      assert RectWrites(x0, xe, y0, y, pix) == RectWrites(x0, xe, y0, ye, pix);
    }

    // The two-by-two block of one font bit.
    method PutCell(x: nat, y: nat, pix: nat)
      requires Valid()
      modifies mem
      ensures Painted(panel.g, old(mem[..]), mem[..], CellWrites(x, y, pix))
    {
      PutPixel(x, y, pix);
      ghost var m1 := mem[..];
      PutPixel(x + 1, y, pix);
      ghost var m2 := mem[..];
      PutPixel(x, y + 1, pix);
      ghost var m3 := mem[..];
      PutPixel(x + 1, y + 1, pix);
      PaintedConcat(panel.g, old(mem[..]), m1, m2, [Px(x, y, pix)], [Px(x + 1, y, pix)]);
      PaintedConcat(panel.g, m2, m3, mem[..], [Px(x, y + 1, pix)], [Px(x + 1, y + 1, pix)]);
      PaintedConcat(panel.g, old(mem[..]), m2, mem[..], [Px(x, y, pix)] + [Px(x + 1, y, pix)],
                    [Px(x, y + 1, pix)] + [Px(x + 1, y + 1, pix)]);
      assert CellWrites(x, y, pix) ==
             [Px(x, y, pix)] + [Px(x + 1, y, pix)] + ([Px(x, y + 1, pix)] + [Px(x + 1, y + 1, pix)]);
    }

    method DrawChar(x: nat, y: nat, ch: char, fg: nat, bg: nat)
      requires Valid()
      modifies mem
      ensures Painted(panel.g, old(mem[..]), mem[..], CharWrites(panel.font, x, y, ch, fg, bg))
    {
      hide LastWrite;
      PaintedNothing(panel.g, mem[..]);
      var glyph := panel.font[GlyphIndex(ch)];
      for gy := 0 to 8
        invariant Painted(panel.g, old(mem[..]), mem[..], GlyphWrites(x, y, glyph, gy, fg, bg))
      {
        ghost var done := GlyphWrites(x, y, glyph, gy, fg, bg);
        var b := glyph[gy];
        assert done + [] == done;
        for gx := 0 to 8
          invariant Painted(panel.g, old(mem[..]), mem[..], done + GlyphRowWrites(x, y + gy * 2, b, gx, fg, bg))
        {
          ghost var before, row := mem[..], GlyphRowWrites(x, y + gy * 2, b, gx, fg, bg);
          var pix := if Bit(b, gx) then fg else bg;
          PutCell(x + gx * 2, y + gy * 2, pix);
          PaintedConcat(panel.g, old(mem[..]), before, mem[..], done + row, CellWrites(x + gx * 2, y + gy * 2, pix));
          assert done + row + CellWrites(x + gx * 2, y + gy * 2, pix) ==
                 done + GlyphRowWrites(x, y + gy * 2, b, gx + 1, fg, bg);
        }
      }
    }

    method DrawStr(x0: nat, y: nat, s: string, fg: nat, bg: nat)
      requires Valid()
      modifies mem
      ensures Painted(panel.g, old(mem[..]), mem[..], StrWrites(panel.g, panel.font, x0, y, s, fg, bg))
    {
      hide Painted, CharWrites, StrWrites;
      PaintedNothing(panel.g, mem[..]);
      var x: nat := x0;
      var i := 0;
      ghost var done: seq<Px> := [];
      ghost var all := StrWrites(panel.g, panel.font, x0, y, s, fg, bg);
      assert s[0..] == s && [] + all == all;
      while i < |s|
        invariant i <= |s|
        invariant Painted(panel.g, old(mem[..]), mem[..], done)
        invariant done + StrWrites(panel.g, panel.font, x, y, s[i..], fg, bg) == all
      {
        ghost var before, w := mem[..], CharWrites(panel.font, x, y, s[i], fg, bg);
        DrawChar(x, y, s[i], fg, bg);
        PaintedConcat(panel.g, old(mem[..]), before, mem[..], done, w);
        StrStep(panel.g, panel.font, x, y, s[i..], fg, bg);
        assert s[i..][1..] == s[i + 1..];
        done := done + w;
        x := x + 16;
        i := i + 1;
        if x + 16 >= panel.g.xres {
          assert done == all;
          return;
        }
      }
      StrStep(panel.g, panel.font, x, y, s[i..], fg, bg);
      assert done == all;
    }

    method SetField(i: nat, text: string)
      requires Valid() && i < FIELD_COUNT && |text| < LINE_CAP
      modifies this`cf, mem
      ensures Valid() && cf == old(cf)[i := Field(text, true)]
      ensures Painted(panel.g, old(mem[..]), mem[..], SetFieldWrites(panel, old(cf)[i], i, text))
    {
      hide Painted, StrWrites, RectWrites;
      if cf[i].init && cf[i].text == text {
        PaintedNothing(panel.g, mem[..]);
        return;
      }
      FillRect(0, FieldY(i), panel.g.xres, FieldY(i) + 20, panel.bg);
      ghost var filled := mem[..];
      DrawStr(8, FieldY(i), text, panel.fg, panel.bg);
      PaintedConcat(panel.g, old(mem[..]), filled, mem[..],
                    FillWrites(panel.g, 0, FieldY(i), panel.g.xres, FieldY(i) + 20, panel.bg),
                    Text(panel, 8, FieldY(i), text, panel.fg));
      cf := cf[i := Field(Cut(text), true)];
    }

    method DrawStatic()
      requires Valid()
      modifies mem
      ensures Painted(panel.g, old(mem[..]), mem[..], StaticWrites(panel))
    {
      FillRect(0, 0, panel.g.xres, LogFloor(panel.g), panel.bg);
      ghost var filled, ls := mem[..], Labels(panel);
      var labels := Labels(panel);
      for k := 0 to |labels|
        invariant Painted(panel.g, filled, mem[..], LabelWrites(panel, ls, k))
      {
        ghost var before := mem[..];
        DrawStr(8, labels[k].y, labels[k].s, labels[k].fg, panel.bg);
        PaintedConcat(panel.g, filled, before, mem[..], LabelWrites(panel, ls, k),
                      Text(panel, 8, ls[k].y, ls[k].s, ls[k].fg));
      }
      PaintedConcat(panel.g, old(mem[..]), filled, mem[..],
                    FillWrites(panel.g, 0, 0, panel.g.xres, LogFloor(panel.g), panel.bg), LabelWrites(panel, ls, |ls|));
    }

    method DrawConsole(st: Status)
      requires Valid()
      modifies this`cf, this`staticDrawn, mem
      ensures Valid() && State() == NextCache(panel, old(State()), Draw(st))
      ensures Painted(panel.g, old(mem[..]), mem[..], EventWrites(panel, old(State()), Draw(st)))
    {
      hide LastWrite, StaticWrites, SetFieldWrites, FieldTexts, Painted;
      var texts := FieldTexts(st);
      ghost var done: seq<Px> := [];
      PaintedNothing(panel.g, mem[..]);
      if !staticDrawn {
        DrawStatic();
        done := StaticWrites(panel);
        staticDrawn := true;
      }
      assert done + [] == done;
      for i := 0 to FIELD_COUNT
        invariant Valid() && staticDrawn
        invariant forall k | 0 <= k < i :: cf[k] == Field(texts[k], true)
        invariant forall k | i <= k < FIELD_COUNT :: cf[k] == old(cf)[k]
        invariant Painted(panel.g, old(mem[..]), mem[..], done + SetFieldsWrites(panel, old(cf), texts, i))
      {
        ghost var before, w := mem[..], SetFieldsWrites(panel, old(cf), texts, i);
        SetField(i, texts[i]);
        ghost var v := SetFieldWrites(panel, old(cf)[i], i, texts[i]);
        PaintedConcat(panel.g, old(mem[..]), before, mem[..], done + w, v);
        assert done + w + v == done + (w + v);
      }
    }

    method LogLine(s: string)
      requires Valid()
      modifies this`logY, mem
      ensures Valid() && State() == NextCache(panel, old(State()), Log(s))
      ensures Painted(panel.g, old(mem[..]), mem[..], EventWrites(panel, old(State()), Log(s)))
    {
      if logY + 20 >= panel.g.yres - 24 {
        logY := LogFloor(panel.g);
      }
      DrawStr(8, logY, s, panel.fg, panel.bg);
      logY := logY + 20;
    }

    /** Any interleaving of draws and log lines on a console that was just set up: the header is that of a full repaint
        where nothing spills into it, and the lines of the last pass of the log are readable. */
    method Run(es: seq<Event>)
      requires Valid() && State() == Boot(panel)
      modifies this, mem
      ensures Valid() && State() == RunCache(panel, es)
      ensures Shielded(panel) && (panel.g.Tight() || panel.g.xres > 24) && LastDraw(es).Some? ==>
                HeaderShows(panel, mem[..], FieldTexts(LastDraw(es).value))
      ensures LogShows(panel, mem[..], es)
    {
      hide LastWrite, RepaintWrites, EventWrites, NextCache, HeaderShows, LogShows;
      PaintedNothing(panel.g, mem[..]);
      for k := 0 to |es|
        invariant Valid() && State() == RunCache(panel, es[..k])
        invariant Painted(panel.g, old(mem[..]), mem[..], RunWrites(panel, es[..k]))
      {
        ghost var before, c := mem[..], State();
        match es[k] {
          case Draw(st) => DrawConsole(st);
          case Log(s) => LogLine(s);
        }
        PaintedConcat(panel.g, old(mem[..]), before, mem[..], RunWrites(panel, es[..k]), EventWrites(panel, c, es[k]));
        assert es[..k + 1][..k] == es[..k];
      }
      assert es[..|es|] == es;
      if Shielded(panel) && (panel.g.Tight() || panel.g.xres > 24) && LastDraw(es).Some? {
        HeaderGetsToMemory(panel, old(mem[..]), mem[..], es);
      }
      LogGetsToMemory(panel, old(mem[..]), mem[..], es);
    }
  }

  // The log lines that are still there are readable in m.
  ghost predicate LogShows(p: Panel, m: seq<byte>, es: seq<Event>)
    requires p.Valid()
  {
    forall q: nat | StillThere(p.g, es, q) :: TextInMemory(p, m, RowOf(p.g, LogCount(es[..q])), es[q].s, p.fg)
  }

  lemma LogGetsToMemory(p: Panel, before: seq<byte>, after: seq<byte>, es: seq<Event>)
    requires p.Valid() && p.g.LastStoreEnd() <= |before| && Painted(p.g, before, after, RunWrites(p, es))
    ensures LogShows(p, after, es)
  {
    hide Painted, RunWrites, TextInMemory, TextAt, RowOf, LinesPerPass;
    forall q: nat | StillThere(p.g, es, q)
      ensures TextInMemory(p, after, RowOf(p.g, LogCount(es[..q])), es[q].s, p.fg)
    {
      LogLinesShow(p, es, q);
      TextGetsToMemory(p, before, after, RunWrites(p, es), RowOf(p.g, LogCount(es[..q])), es[q].s, p.fg);
    }
  }

  // The header bytes of m are those of a full repaint.
  ghost predicate HeaderShows(p: Panel, m: seq<byte>, texts: seq<string>)
    requires ValidFont(p.font) && |texts| == FIELD_COUNT
  {
    forall y: nat, o: nat | HeaderByte(p.g, y, o) ::
      p.g.At(y, o) < |m| && Some(m[p.g.At(y, o)]) == LastWrite(p.g, RepaintWrites(p, texts), p.g.At(y, o))
  }

  lemma HeaderGetsToMemory(p: Panel, before: seq<byte>, after: seq<byte>, es: seq<Event>)
    requires p.Valid() && p.g.LastStoreEnd() <= |before| && Painted(p.g, before, after, RunWrites(p, es))
    requires Shielded(p) && (p.g.Tight() || p.g.xres > 24) && LastDraw(es).Some?
    ensures HeaderShows(p, after, FieldTexts(LastDraw(es).value))
  {
    hide LastWrite, RepaintWrites, RunWrites;
    HeaderStaysPainted(p, es);
    forall y: nat, o: nat | HeaderByte(p.g, y, o) ensures p.g.At(y, o) < |after| {
      HeaderInMapping(p.g, y, o);
    }
  }

  lemma HeaderInMapping(g: Geometry, y: nat, o: nat)
    requires g.Valid() && HeaderByte(g, y, o)
    ensures g.At(y, o) < g.LastStoreEnd()
  {
    MulLe(y, g.yres - 1, g.line);
    assert (g.xres - 1) * g.PixelBytes() + g.PixelBytes() == g.xres * g.PixelBytes();
  }

  lemma StrStep(g: Geometry, font: seq<seq<nat>>, x: nat, y: nat, s: string, fg: nat, bg: nat)
    requires ValidFont(font)
    ensures StrWrites(g, font, x, y, s, fg, bg) ==
            if s == "" then []
            else CharWrites(font, x, y, s[0], fg, bg) +
                 if x + 32 >= g.xres then [] else StrWrites(g, font, x + 16, y, s[1..], fg, bg)
  {}

  lemma PaintedNothing(g: Geometry, m: seq<byte>)
    ensures Painted(g, m, m, [])
  {}
}
