/** Where log_line (os/init/init.c) puts its lines, and that they and the static labels stay readable. */
module LogArea {
  import opened Arith
  import opened Common
  import opened Glyphs
  import opened Pixels
  import opened Retained

  // ----- rows -----

  /** How many lines the log writes from its floor down before it starts again. */
  function LinesPerPass(g: Geometry): (n: nat)
    ensures n > 0
  {
    var room := g.yres - 44 - LogFloor(g);
    if room <= 20 then 1 else (room + 19) / 20
  }

  /** A line may follow in the pass as long as its lower neighbour would stay above the last 24 lines. */
  lemma PassEnds(g: Geometry)
    ensures forall k | 0 < k < LinesPerPass(g) :: LogFloor(g) + 20 * k + 20 < g.yres - 24
    ensures LogFloor(g) + 20 * LinesPerPass(g) + 20 >= g.yres - 24
  {}

  // The row of the m-th line since setup.
  function RowOf(g: Geometry, m: nat): nat { LogFloor(g) + 20 * (m % LinesPerPass(g)) }

  lemma ModNext(m: nat, n: nat)
    requires n > 0
    ensures (m + 1) % n == if m % n == n - 1 then 0 else m % n + 1
  {
    var q, r := m / n, m % n;
    assert m == q * n + r;
    if r == n - 1 {
      assert m + 1 == (q + 1) * n + 0;
      DivideUnique(m + 1, n, q + 1, 0);
    } else {
      DivideUnique(m + 1, n, q, r + 1);
    }
  }

  /** The lines stand twenty apart, and the log starts again at its floor exactly when the next line would come too
      low. */
  lemma RowsInTurn(g: Geometry, m: nat)
    requires g.Valid()
    ensures RowOf(g, 0) == LogFloor(g)
    ensures RowOf(g, m + 1) == if RowOf(g, m) + 40 >= g.yres - 24 then LogFloor(g) else RowOf(g, m) + 20
  {
    var n := LinesPerPass(g);
    PassEnds(g);
    ModNext(m, n);
    var k := m % n + 1;
    assert k < n ==> LogFloor(g) + 20 * k + 20 < g.yres - 24;
  }

  /** On a panel of 1600 lines they stand at 240, 260 and so on to 1540, sixty-six in a pass. */
  lemma TargetRows(g: Geometry, m: nat)
    requires g.yres == 1600
    ensures RowOf(g, m) == 240 + 20 * (m % 66)
  {}

  /** The first line stands at 240 on panels of more than 400 lines, and in the middle of smaller ones. */
  lemma FirstRow(g: Geometry)
    requires g.Valid()
    ensures RowOf(g, 0) == if g.yres <= 400 then g.yres / 2 else 240
  {}

  function LogCount(es: seq<Event>): nat {
    if es == [] then 0 else LogCount(es[..|es| - 1]) + if es[|es| - 1].Log? then 1 else 0
  }

  lemma {:induction false} NextLogRow(p: Panel, es: seq<Event>)
    requires p.Valid()
    ensures LogRow(p.g, RunCache(p, es)) == RowOf(p.g, LogCount(es))
    ensures RunCache(p, es).logY == if LogCount(es) == 0 then LogFloor(p.g) else RowOf(p.g, LogCount(es) - 1) + 20
  {
    hide FieldTexts, LinesPerPass, LogFloor, RowOf;
    if es == [] {
      RowsInTurn(p.g, 0);
    } else {
      NextLogRow(p, es[..|es| - 1]);
    }
    if LogCount(es) > 0 {
      RowsInTurn(p.g, LogCount(es) - 1);
    } else {
      RowsInTurn(p.g, 0);
    }
  }

  /** Whatever was drawn and logged before, a line goes to the row of its number. */
  lemma LogLineStands(p: Panel, es: seq<Event>, s: string)
    requires p.Valid()
    ensures RunWrites(p, es + [Log(s)]) ==
            RunWrites(p, es) + StrWrites(p.g, p.font, 8, RowOf(p.g, LogCount(es)), s, p.fg, p.bg)
  {
    hide StrWrites, RowOf;
    NextLogRow(p, es);
    assert (es + [Log(s)])[..|es|] == es;
  }

  // ----- what stays readable -----

  /** Row y shows text s: character c at column 8 + 16 * c, dot by dot, as far as the text fits and lies on the
      panel. */
  ghost predicate TextAt(p: Panel, ws: seq<Px>, y: nat, s: string, fg: nat)
    requires ValidFont(p.font)
  {
    forall c: nat, i: nat, j: nat, k: nat |
      c < Fits(p.g.xres, 8, |s|) <= |s| && i < 16 && j < 16 && OnPanel(p.g, 8 + 16 * c + i, y + j, k) ::
      LastWrite(p.g, ws, ByteAt(p.g, 8 + 16 * c + i, y + j, k)) == Some(ByteOf(Dot(p.font, s, c, i, j, fg, p.bg), k))
  }

  lemma TextAppears(p: Panel, ws: seq<Px>, y: nat, s: string, fg: nat)
    requires p.Valid()
    ensures TextAt(p, ws + StrWrites(p.g, p.font, 8, y, s, fg, p.bg), y, s, fg)
  {
    hide LastWrite, StrWrites, Dot, Fits, OnPanel;
    forall c: nat, i: nat, j: nat, k: nat |
      c < Fits(p.g.xres, 8, |s|) <= |s| && i < 16 && j < 16 && OnPanel(p.g, 8 + 16 * c + i, y + j, k)
      ensures LastWrite(p.g, ws + StrWrites(p.g, p.font, 8, y, s, fg, p.bg), ByteAt(p.g, 8 + 16 * c + i, y + j, k)) ==
              Some(ByteOf(Dot(p.font, s, c, i, j, fg, p.bg), k))
    {
      TextShows(p.g, p.font, 8, y, s, fg, p.bg, c, i, j, k);
      LastWriteConcat(p.g, ws, StrWrites(p.g, p.font, 8, y, s, fg, p.bg), ByteAt(p.g, 8 + 16 * c + i, y + j, k));
    }
  }

  // Calls on other rows leave it readable.
  ghost predicate RowsAway(vs: seq<Px>, y: nat) { forall i | 0 <= i < |vs| :: !(y <= vs[i].y < y + 16) }

  lemma TextStays(p: Panel, ws: seq<Px>, vs: seq<Px>, y: nat, s: string, fg: nat)
    requires p.Valid() && TextAt(p, ws, y, s, fg) && RowsAway(vs, y)
    ensures TextAt(p, ws + vs, y, s, fg)
  {
    hide LastWrite, Dot, Fits;
    forall c: nat, i: nat, j: nat, k: nat |
      c < Fits(p.g.xres, 8, |s|) <= |s| && i < 16 && j < 16 && OnPanel(p.g, 8 + 16 * c + i, y + j, k)
      ensures LastWrite(p.g, ws + vs, ByteAt(p.g, 8 + 16 * c + i, y + j, k)) ==
              Some(ByteOf(Dot(p.font, s, c, i, j, fg, p.bg), k))
    {
      assert Away(vs, 8 + 16 * c + i, y + j);
      AwayUntouched(p.g, vs, 8 + 16 * c + i, y + j, k);
      LastWriteConcat(p.g, ws, vs, ByteAt(p.g, 8 + 16 * c + i, y + j, k));
    }
  }

  lemma TextRows(p: Panel, y0: nat, s: string, fg: nat, y: nat)
    requires p.Valid() && (y + 16 <= y0 || y0 + 16 <= y)
    ensures RowsAway(Text(p, 8, y0, s, fg), y)
  {
    hide StrWrites;
    StrInBox(p.g, p.font, 8, y0, s, fg, p.bg);
  }

  lemma FillRows(p: Panel, y0: nat, y1: nat, y: nat)
    requires y + 16 <= y0 || y1 <= y
    ensures RowsAway(FillWrites(p.g, 0, y0, p.g.xres, y1, p.bg), y)
  {
    hide RectWrites;
    RectShape(0, p.g.xres, y0, Min(y1, p.g.yres), p.bg);
  }

  lemma RowsJoin(u: seq<Px>, v: seq<Px>, y: nat)
    requires RowsAway(u, y) && RowsAway(v, y)
    ensures RowsAway(u + v, y)
  {}

  /** The same, in memory. */
  ghost predicate TextInMemory(p: Panel, m: seq<byte>, y: nat, s: string, fg: nat)
    requires ValidFont(p.font)
  {
    forall c: nat, i: nat, j: nat, k: nat |
      c < Fits(p.g.xres, 8, |s|) <= |s| && i < 16 && j < 16 && OnPanel(p.g, 8 + 16 * c + i, y + j, k) ::
      DotInMemory(p, m, y, s, fg, c, i, j, k)
  }

  ghost predicate DotInMemory(p: Panel, m: seq<byte>, y: nat, s: string, fg: nat, c: nat, i: nat, j: nat, k: nat)
    requires ValidFont(p.font) && c < |s| && i < 16 && j < 16
  {
    var a := ByteAt(p.g, 8 + 16 * c + i, y + j, k);
    a < |m| && m[a] == ByteOf(Dot(p.font, s, c, i, j, fg, p.bg), k)
  }

  lemma TextGetsToMemory(p: Panel, before: seq<byte>, after: seq<byte>, ws: seq<Px>, y: nat, s: string, fg: nat)
    requires p.Valid() && p.g.LastStoreEnd() <= |before| && Painted(p.g, before, after, ws) && TextAt(p, ws, y, s, fg)
    ensures TextInMemory(p, after, y, s, fg)
  {
    hide LastWrite, Dot, Fits, OnPanel, DotInMemory;
    forall c: nat, i: nat, j: nat, k: nat |
      c < Fits(p.g.xres, 8, |s|) <= |s| && i < 16 && j < 16 && OnPanel(p.g, 8 + 16 * c + i, y + j, k)
      ensures DotInMemory(p, after, y, s, fg, c, i, j, k)
    {
      DotGetsToMemory(p, before, after, ws, y, s, fg, c, i, j, k);
    }
  }

  lemma DotGetsToMemory(p: Panel, before: seq<byte>, after: seq<byte>, ws: seq<Px>, y: nat, s: string, fg: nat,
                        c: nat, i: nat, j: nat, k: nat)
    requires p.Valid() && p.g.LastStoreEnd() <= |before| && Painted(p.g, before, after, ws) && TextAt(p, ws, y, s, fg)
    requires c < Fits(p.g.xres, 8, |s|) <= |s| && i < 16 && j < 16 && OnPanel(p.g, 8 + 16 * c + i, y + j, k)
    ensures DotInMemory(p, after, y, s, fg, c, i, j, k)
  {
    hide LastWrite, Dot, Fits;
    ByteInMapping(p.g, 8 + 16 * c + i, y + j, k);
  }

  lemma ByteInMapping(g: Geometry, x: nat, y: nat, k: nat)
    requires OnPanel(g, x, y, k)
    ensures ByteAt(g, x, y, k) < g.LastStoreEnd()
  {
    StoreEnds(g, x, y);
  }

  // ----- draws keep to the header of a tall panel -----

  lemma {:induction false} LabelRows(p: Panel, ls: seq<Label>, n: nat, y: nat)
    requires p.Valid() && n <= |ls| && forall i | 0 <= i < n :: ls[i].y + 16 <= y || y + 16 <= ls[i].y
    ensures RowsAway(LabelWrites(p, ls, n), y)
  {
    hide RowsAway, Text;
    if n == 0 {
      NoRows(y);
    } else {
      LabelRows(p, ls, n - 1, y);
      TextRows(p, ls[n - 1].y, ls[n - 1].s, ls[n - 1].fg, y);
      RowsJoin(LabelWrites(p, ls, n - 1), Text(p, 8, ls[n - 1].y, ls[n - 1].s, ls[n - 1].fg), y);
    }
  }

  lemma NoRows(y: nat)
    ensures RowsAway([], y)
  {}

  lemma {:induction false} SetFieldsRows(p: Panel, fields: seq<Field>, texts: seq<string>, n: nat, y: nat)
    requires p.Valid() && n <= |fields| && n <= |texts| && n <= FIELD_COUNT && (y + 16 <= 56 || 156 <= y)
    ensures RowsAway(SetFieldsWrites(p, fields, texts, n), y)
  {
    hide RowsAway, Text, FillWrites;
    NoRows(y);
    if n > 0 {
      SetFieldsRows(p, fields, texts, n - 1, y);
      FillRows(p, FieldY(n - 1), FieldY(n - 1) + 20, y);
      TextRows(p, FieldY(n - 1), texts[n - 1], p.fg, y);
      RowsJoin(FillWrites(p.g, 0, FieldY(n - 1), p.g.xres, FieldY(n - 1) + 20, p.bg),
               Text(p, 8, FieldY(n - 1), texts[n - 1], p.fg), y);
      RowsJoin(SetFieldsWrites(p, fields, texts, n - 1), SetFieldWrites(p, fields[n - 1], n - 1, texts[n - 1]), y);
    }
  }

  lemma DrawRows(p: Panel, c: Cache, texts: seq<string>, y: nat)
    requires p.Valid() && |c.fields| == |texts| == FIELD_COUNT && p.g.yres > 400 && y >= 240
    ensures RowsAway(DrawWrites(p, c, texts), y)
  {
    hide RowsAway, SetFieldsWrites, LabelWrites, FillWrites;
    NoRows(y);
    FillRows(p, 0, LogFloor(p.g), y);
    LabelRows(p, Labels(p), |Labels(p)|, y);
    RowsJoin(FillWrites(p.g, 0, 0, p.g.xres, LogFloor(p.g), p.bg), LabelWrites(p, Labels(p), |Labels(p)|), y);
    SetFieldsRows(p, c.fields, texts, FIELD_COUNT, y);
    RowsJoin(if c.drawn then [] else StaticWrites(p), SetFieldsWrites(p, c.fields, texts, FIELD_COUNT), y);
  }

  // ----- the log -----

  /** Line q of the run is among the last that one pass holds, and no draw has come after it on a panel whose header
      may reach into the log. */
  ghost predicate StillThere(g: Geometry, es: seq<Event>, q: nat) {
    && q < |es| && es[q].Log? && LogCount(es) <= LogCount(es[..q]) + LinesPerPass(g)
    && (g.yres > 400 || forall t | q < t < |es| :: es[t].Log?)
  }

  lemma {:induction false} CountGrows(es: seq<Event>, q: nat)
    requires q < |es| && es[q].Log?
    ensures LogCount(es[..q]) < LogCount(es)
  {
    var n := |es| - 1;
    if q < n {
      assert es[..n][..q] == es[..q];
      CountGrows(es[..n], q);
    }
  }

  // Lines less than a pass apart are on rows twenty apart at least.
  lemma OtherRow(g: Geometry, a: nat, b: nat)
    requires a < b < a + LinesPerPass(g)
    ensures RowOf(g, a) + 16 <= RowOf(g, b) || RowOf(g, b) + 16 <= RowOf(g, a)
  {
    hide LinesPerPass;
    ModsDiffer(a, b, LinesPerPass(g));
  }

  lemma ModsDiffer(a: nat, b: nat, n: nat)
    requires a < b < a + n
    ensures a % n != b % n
  {
    var q, r := a / n, a % n + (b - a);
    assert a == q * n + a % n;
    if r < n {
      RestIs(b, n, q, r);
    } else {
      assert (q + 1) * n == q * n + n;
      RestIs(b, n, q + 1, r - n);
    }
  }

  lemma RestIs(b: nat, n: nat, q: nat, r: nat)
    requires r < n && b == q * n + r
    ensures b % n == r
  {
    DivideUnique(b, n, q, r);
    assert b == b / n * n + b % n;
  }

  /** Every line that is still there is readable: whatever was drawn and logged since, it shows on its row. */
  lemma {:induction false} LogLinesShow(p: Panel, es: seq<Event>, q: nat)
    requires p.Valid() && StillThere(p.g, es, q)
    ensures TextAt(p, RunWrites(p, es), RowOf(p.g, LogCount(es[..q])), es[q].s, p.fg)
  {
    hide TextAt, RowsAway, StrWrites, DrawWrites, RowOf, LinesPerPass, FieldTexts;
    var n := |es| - 1;
    var before, y := es[..n], RowOf(p.g, LogCount(es[..q]));
    assert es == before + [es[n]];
    if q == n {
      LogLineStands(p, before, es[n].s);
      TextAppears(p, RunWrites(p, before), y, es[n].s, p.fg);
    } else {
      assert before[..q] == es[..q];
      LogLinesShow(p, before, q);
      match es[n] {
        case Draw(st) =>
          assert y >= 240 by { RowAtFloor(p.g, LogCount(es[..q])); }
          DrawRows(p, RunCache(p, before), FieldTexts(st), y);
          TextStays(p, RunWrites(p, before), DrawWrites(p, RunCache(p, before), FieldTexts(st)), y, es[q].s, p.fg);
        case Log(s) =>
          LogLineStands(p, before, s);
          CountGrows(before, q);
          OtherRow(p.g, LogCount(es[..q]), LogCount(before));
          var row := RowOf(p.g, LogCount(before));
          TextRows(p, row, s, p.fg, y);
          TextStays(p, RunWrites(p, before), Text(p, 8, row, s, p.fg), y, es[q].s, p.fg);
      }
    }
  }

  lemma RowAtFloor(g: Geometry, m: nat)
    requires g.yres > 400
    ensures RowOf(g, m) >= 240
  {}

  // ----- the static labels -----

  /** The label that belongs on row y, in the colour it has there. */
  predicate IsLabel(p: Panel, y: nat, s: string, fg: nat) {
    || (y == 8 && s == "SaaiOS v034" && fg == p.hi)
    || (y == 32 && fg == p.fg &&
        s == Cut(U32Digits(p.g.xres) + "x" + U32Digits(p.g.yres) + " bpp" + U32Digits(p.g.bpp)))
    || (y == 164 && s == "Vol+/- brightness" && fg == p.fg)
    || (y == 184 && s == "Pwr tap beep 2s reboot Vol-+Pwr off" && fg == p.fg)
    || (y == 204 && s == "telnet usb-host/usb-device" && fg == p.fg)
  }

  lemma ResolutionTextIs(g: Geometry)
    ensures ResolutionText(g) == Cut(U32Digits(g.xres) + "x" + U32Digits(g.yres) + " bpp" + U32Digits(g.bpp))
  {
    hide Cut;
    var a, b, c := U32Digits(g.xres), U32Digits(g.yres), U32Digits(g.bpp);
    assert "" + a == a;
    AppendsCutOnce(a, "x");
    AppendsCutOnce(a + "x", b);
    AppendsCutOnce(a + "x" + b, " bpp");
    AppendsCutOnce(a + "x" + b + " bpp", c);
  }

  lemma {:induction false} LabelsShow(p: Panel, ls: seq<Label>, n: nat, t: nat, ws: seq<Px>)
    requires p.Valid() && t < n <= |ls|
    requires forall i | 0 <= i < n && i != t :: ls[i].y + 16 <= ls[t].y || ls[t].y + 16 <= ls[i].y
    ensures TextAt(p, ws + LabelWrites(p, ls, n), ls[t].y, ls[t].s, ls[t].fg)
  {
    hide TextAt, RowsAway, StrWrites;
    var l := ls[n - 1];
    assert ws + LabelWrites(p, ls, n) == ws + LabelWrites(p, ls, n - 1) + Text(p, 8, l.y, l.s, l.fg);
    if t == n - 1 {
      TextAppears(p, ws + LabelWrites(p, ls, n - 1), l.y, l.s, l.fg);
    } else {
      LabelsShow(p, ls, n - 1, t, ws);
      TextRows(p, l.y, l.s, l.fg, ls[t].y);
      TextStays(p, ws + LabelWrites(p, ls, n - 1), Text(p, 8, l.y, l.s, l.fg), ls[t].y, ls[t].s, ls[t].fg);
    }
  }

  lemma {:induction false} LabelsStay(p: Panel, es: seq<Event>, y: nat, s: string, fg: nat)
    requires p.Valid() && p.g.yres > 400 && RunCache(p, es).drawn && IsLabel(p, y, s, fg)
    ensures TextAt(p, RunWrites(p, es), y, s, fg)
  {
    hide TextAt, RowsAway, StrWrites, FieldTexts, IsLabel, StaticWrites, SetFieldsWrites, ResolutionText;
    var n := |es| - 1;
    var before, c := es[..n], RunCache(p, es[..n]);
    LabelAway(p, y, s, fg);
    if c.drawn {
      LabelsStay(p, before, y, s, fg);
    }
    match es[n] {
      case Draw(st) =>
        var set' := SetFieldsWrites(p, c.fields, FieldTexts(st), FIELD_COUNT);
        SetFieldsRows(p, c.fields, FieldTexts(st), FIELD_COUNT, y);
        if c.drawn {
          assert [] + set' == set';
          TextStays(p, RunWrites(p, before), set', y, s, fg);
        } else {
          StaticShows(p, RunWrites(p, before), y, s, fg);
          TextStays(p, RunWrites(p, before) + StaticWrites(p), set', y, s, fg);
          assert RunWrites(p, before) + StaticWrites(p) + set' == RunWrites(p, before) + (StaticWrites(p) + set');
        }
      case Log(line) =>
        NextLogRow(p, before);
        RowAtFloor(p.g, LogCount(before));
        TextRows(p, LogRow(p.g, c), line, p.fg, y);
        TextStays(p, RunWrites(p, before), Text(p, 8, LogRow(p.g, c), line, p.fg), y, s, fg);
    }
  }

  lemma LabelAway(p: Panel, y: nat, s: string, fg: nat)
    requires IsLabel(p, y, s, fg)
    ensures (y + 16 <= 56 || 156 <= y) && y + 16 <= 240
  {}

  lemma StaticShows(p: Panel, ws: seq<Px>, y: nat, s: string, fg: nat)
    requires p.Valid() && IsLabel(p, y, s, fg)
    ensures TextAt(p, ws + StaticWrites(p), y, s, fg)
  {
    hide TextAt, FillWrites, LabelWrites, ResolutionText;
    ResolutionTextIs(p.g);
    var ls, fill := Labels(p), FillWrites(p.g, 0, 0, p.g.xres, LogFloor(p.g), p.bg);
    assert ws + StaticWrites(p) == ws + fill + LabelWrites(p, ls, |ls|);
    var t := if y == 8 then 0 else if y == 32 then 1 else if y == 164 then 2 else if y == 184 then 3 else 4;
    assert ls[t] == Label(y, s, fg);
    LabelsShow(p, ls, |ls|, t, ws + fill);
  }

  /** On a tall panel the five static labels are readable after every run that has drawn. */
  lemma LabelsAreReadable(p: Panel, es: seq<Event>, y: nat, s: string, fg: nat)
    requires p.Valid() && p.g.yres > 400 && LastDraw(es).Some? && IsLabel(p, y, s, fg)
    ensures TextAt(p, RunWrites(p, es), y, s, fg)
  {
    CacheHoldsLastDraw(p, es);
    LabelsStay(p, es, y, s, fg);
  }

  /** So are the five fields, with the texts drawn last. */
  lemma FieldsAreReadable(p: Panel, es: seq<Event>, f: nat, y: nat)
    requires p.Valid() && p.g.yres > 400 && LastDraw(es).Some?
    requires f < 5 && y == [56, 76, 96, 116, 136][f]
    ensures TextAt(p, RunWrites(p, es), y, FieldTexts(LastDraw(es).value)[f], p.fg)
  {
    hide LastWrite, RunWrites, FieldTexts, Dot, Fits, OnPanel;
    var text := FieldTexts(LastDraw(es).value)[f];
    forall c: nat, i: nat, j: nat, k: nat |
      c < Fits(p.g.xres, 8, |text|) <= |text| && i < 16 && j < 16 && OnPanel(p.g, 8 + 16 * c + i, y + j, k)
      ensures LastWrite(p.g, RunWrites(p, es), ByteAt(p.g, 8 + 16 * c + i, y + j, k)) ==
              Some(ByteOf(Dot(p.font, text, c, i, j, p.fg, p.bg), k))
    {
      FieldShowsLastText(p, es, f, c, i, j, k);
    }
  }
}
