/** The retained console of os/init/init.c: which put_pixel calls draw_console and log_line make
    over a whole run, against one full repaint. */
module Retained {
  import opened Arith
  import opened Common
  import opened Pixels

  const BANNER := "SaaiOS v034"
  const FIELD_COUNT := 5
  const LINE_CAP := 80

  datatype Panel = Panel(g: Geometry, font: seq<seq<nat>>, fg: nat, bg: nat, hi: nat) {
    ghost predicate Valid() { g.Valid() && ValidFont(font) }
  }

  function LogFloor(g: Geometry): nat {
    if g.yres > 400 then 240 else if g.yres > 16 then g.yres / 2 else 8
  }

  // ----- the texts of the status lines -----

  /** What refresh_* last read: the globals that draw_console prints. */
  datatype Status = Status(batPct: int, batStatus: string, blOk: bool, blCur: int, blMax: int,
                           net: string, memMb: int, audio: string)

  // scopy and append stop one short of the buffer.
  function Cut(s: string): (r: string)
    ensures |r| < LINE_CAP && r <= s
    ensures |r| == if |s| < 80 then |s| else 79
  {
    if |s| < LINE_CAP then s else s[..LINE_CAP - 1]
  }

  function Append(d: string, s: string): (r: string)
    ensures |r| < LINE_CAP
  {
    Cut(d + s)
  }

  function U32Digits(v: int): string { Digits(ToU32(v)) }

  // append_uint after the cast to unsigned.
  function AppendUInt(d: string, v: int): (r: string)
    ensures |r| < LINE_CAP
  {
    Append(d, U32Digits(v))
  }

  function OrElse(s: string, other: string): string { if s == "" then other else s }

  function BatteryText(st: Status): (t: string)
    ensures |t| < LINE_CAP
  {
    var t := if st.batPct < 0 then Append(Cut("bat  "), "?") else Append(AppendUInt(Cut("bat  "), st.batPct), "%");
    Append(Append(t, "  "), OrElse(st.batStatus, "?"))
  }

  function BacklightText(st: Status): (t: string)
    ensures |t| < LINE_CAP
  {
    if !st.blOk then Append(Cut("bl   "), "none")
    else AppendUInt(Append(AppendUInt(Cut("bl   "), st.blCur), "/"), st.blMax)
  }

  function MemoryText(st: Status): (t: string)
    ensures |t| < LINE_CAP
  {
    if st.memMb < 0 then Append(Cut("mem  "), "?") else Append(AppendUInt(Cut("mem  "), st.memMb), " MB free")
  }

  /** The five lines in the order of CF_BAT, CF_BL, CF_USB, CF_MEM, CF_AUD. */
  function FieldTexts(st: Status): (ts: seq<string>)
    ensures |ts| == FIELD_COUNT && forall i | 0 <= i < FIELD_COUNT :: |ts[i]| < LINE_CAP
  {
    [BatteryText(st), BacklightText(st), Append(Cut("usb  "), OrElse(st.net, "waiting")), MemoryText(st),
     Append(Cut("aud  "), OrElse(st.audio, "none"))]
  }

  /** Cutting at every append is the same as cutting the whole text once. */
  lemma AppendsCutOnce(d: string, s: string)
    ensures Cut(Cut(d) + s) == Cut(d + s)
  {
    if |d| >= LINE_CAP {
      assert (Cut(d) + s)[..LINE_CAP - 1] == (d + s)[..LINE_CAP - 1];
    }
  }

  lemma BatteryTextIs(st: Status)
    ensures BatteryText(st) ==
            Cut("bat  " + (if st.batPct < 0 then "?" else U32Digits(st.batPct) + "%") + "  " +
                OrElse(st.batStatus, "?"))
  {
    hide Cut;
    var level := if st.batPct < 0 then "?" else U32Digits(st.batPct) + "%";
    AppendsCutOnce("bat  ", if st.batPct < 0 then "?" else U32Digits(st.batPct));
    if st.batPct >= 0 {
      AppendsCutOnce("bat  " + U32Digits(st.batPct), "%");
      assert "bat  " + U32Digits(st.batPct) + "%" == "bat  " + level;
    }
    AppendsCutOnce("bat  " + level, "  ");
    AppendsCutOnce("bat  " + level + "  ", OrElse(st.batStatus, "?"));
  }

  lemma BacklightTextIs(st: Status)
    ensures BacklightText(st) ==
            Cut("bl   " + if st.blOk then U32Digits(st.blCur) + "/" + U32Digits(st.blMax) else "none")
  {
    hide Cut;
    if st.blOk {
      var cur, max := U32Digits(st.blCur), U32Digits(st.blMax);
      AppendsCutOnce("bl   ", cur);
      AppendsCutOnce("bl   " + cur, "/");
      AppendsCutOnce("bl   " + cur + "/", max);
      assert "bl   " + cur + "/" + max == "bl   " + (cur + "/" + max);
    } else {
      AppendsCutOnce("bl   ", "none");
    }
  }

  lemma MemoryTextIs(st: Status)
    ensures MemoryText(st) == Cut("mem  " + if st.memMb < 0 then "?" else U32Digits(st.memMb) + " MB free")
  {
    hide Cut;
    if st.memMb >= 0 {
      var mb := U32Digits(st.memMb);
      AppendsCutOnce("mem  ", mb);
      AppendsCutOnce("mem  " + mb, " MB free");
      assert "mem  " + mb + " MB free" == "mem  " + (mb + " MB free");
    } else {
      AppendsCutOnce("mem  ", "?");
    }
  }

  /** So every line is its parts in a row, cut to what the buffer holds. */
  lemma FieldTextsAre(st: Status)
    ensures FieldTexts(st) ==
            [Cut("bat  " + (if st.batPct < 0 then "?" else U32Digits(st.batPct) + "%") + "  " +
                 OrElse(st.batStatus, "?")),
             Cut("bl   " + if st.blOk then U32Digits(st.blCur) + "/" + U32Digits(st.blMax) else "none"),
             Cut("usb  " + OrElse(st.net, "waiting")),
             Cut("mem  " + if st.memMb < 0 then "?" else U32Digits(st.memMb) + " MB free"),
             Cut("aud  " + OrElse(st.audio, "none"))]
  {
    hide Cut, BatteryText, BacklightText, MemoryText;
    BatteryTextIs(st);
    BacklightTextIs(st);
    MemoryTextIs(st);
    AppendsCutOnce("usb  ", OrElse(st.net, "waiting"));
    AppendsCutOnce("aud  ", OrElse(st.audio, "none"));
  }

  function ResolutionText(g: Geometry): string {
    AppendUInt(Append(AppendUInt(Append(AppendUInt("", g.xres), "x"), g.yres), " bpp"), g.bpp)
  }

  // ----- one draw -----

  /** struct console_field: the text last painted, and whether there is one. */
  datatype Field = Field(text: string, init: bool)

  datatype Cache = Cache(drawn: bool, fields: seq<Field>, logY: nat)

  function FieldY(i: nat): nat { 56 + 20 * i }

  function Text(p: Panel, x: nat, y: nat, s: string, fg: nat): seq<Px>
    requires ValidFont(p.font)
  {
    StrWrites(p.g, p.font, x, y, s, fg, p.bg)
  }

  function StaticWrites(p: Panel): seq<Px>
    requires ValidFont(p.font)
  {
    FillWrites(p.g, 0, 0, p.g.xres, LogFloor(p.g), p.bg) + LabelWrites(p, Labels(p), |Labels(p)|)
  }

  datatype Label = Label(y: nat, s: string, fg: nat)

  function Labels(p: Panel): seq<Label> {
    [Label(8, BANNER, p.hi), Label(32, ResolutionText(p.g), p.fg), Label(164, "Vol+/- brightness", p.fg),
     Label(184, "Pwr tap beep 2s reboot Vol-+Pwr off", p.fg), Label(204, "telnet usb-host/usb-device", p.fg)]
  }

  function LabelWrites(p: Panel, ls: seq<Label>, n: nat): seq<Px>
    requires ValidFont(p.font) && n <= |ls|
  {
    if n == 0 then [] else LabelWrites(p, ls, n - 1) + Text(p, 8, ls[n - 1].y, ls[n - 1].s, ls[n - 1].fg)
  }

  function FieldWrites(p: Panel, i: nat, text: string): seq<Px>
    requires ValidFont(p.font)
  {
    FillWrites(p.g, 0, FieldY(i), p.g.xres, FieldY(i) + 20, p.bg) + Text(p, 8, FieldY(i), text, p.fg)
  }

  // set_field: nothing when the text is the one on the panel.
  function SetFieldWrites(p: Panel, f: Field, i: nat, text: string): seq<Px>
    requires ValidFont(p.font)
  {
    if f.init && f.text == text then [] else FieldWrites(p, i, text)
  }

  function SetFieldsWrites(p: Panel, fields: seq<Field>, texts: seq<string>, n: nat): seq<Px>
    requires ValidFont(p.font) && n <= |fields| && n <= |texts|
  {
    if n == 0 then []
    else SetFieldsWrites(p, fields, texts, n - 1) + SetFieldWrites(p, fields[n - 1], n - 1, texts[n - 1])
  }

  function DrawWrites(p: Panel, c: Cache, texts: seq<string>): seq<Px>
    requires ValidFont(p.font) && |c.fields| == |texts| == FIELD_COUNT
  {
    (if c.drawn then [] else StaticWrites(p)) + SetFieldsWrites(p, c.fields, texts, FIELD_COUNT)
  }

  function DrawCache(c: Cache, texts: seq<string>): Cache {
    Cache(true, seq(|texts|, i requires 0 <= i < |texts| => Field(texts[i], true)), c.logY)
  }

  // log_line starts again at the floor when the next line would come too low.
  function LogRow(g: Geometry, c: Cache): nat {
    if c.logY + 20 >= g.yres - 24 then LogFloor(g) else c.logY
  }

  function LogWrites(p: Panel, c: Cache, s: string): seq<Px>
    requires ValidFont(p.font)
  {
    Text(p, 8, LogRow(p.g, c), s, p.fg)
  }

  // ----- a run -----

  datatype Event = Draw(st: Status) | Log(s: string)

  function Boot(p: Panel): Cache {
    Cache(false, seq(FIELD_COUNT, _ => Field("", false)), LogFloor(p.g))
  }

  function NextCache(p: Panel, c: Cache, e: Event): Cache {
    match e
    case Draw(st) => DrawCache(c, FieldTexts(st))
    case Log(_) => c.(logY := LogRow(p.g, c) + 20)
  }

  function EventWrites(p: Panel, c: Cache, e: Event): seq<Px>
    requires ValidFont(p.font) && |c.fields| == FIELD_COUNT
  {
    match e
    case Draw(st) => DrawWrites(p, c, FieldTexts(st))
    case Log(s) => LogWrites(p, c, s)
  }

  function RunCache(p: Panel, es: seq<Event>): (c: Cache)
    ensures |c.fields| == FIELD_COUNT
  {
    if es == [] then Boot(p) else NextCache(p, RunCache(p, es[..|es| - 1]), es[|es| - 1])
  }

  /** Every put_pixel call of a run of draw_console and log_line, in order. */
  function RunWrites(p: Panel, es: seq<Event>): seq<Px>
    requires ValidFont(p.font)
  {
    if es == [] then []
    else RunWrites(p, es[..|es| - 1]) + EventWrites(p, RunCache(p, es[..|es| - 1]), es[|es| - 1])
  }

  function LastDraw(es: seq<Event>): Option<Status> {
    if es == [] then None
    else if es[|es| - 1].Draw? then Some(es[|es| - 1].st)
    else LastDraw(es[..|es| - 1])
  }

  /** The reference: clear the header, write the static lines, write all five fields. */
  function RepaintWrites(p: Panel, texts: seq<string>): seq<Px>
    requires ValidFont(p.font) && |texts| == FIELD_COUNT
  {
    StaticWrites(p) + FieldsWrites(p, texts, FIELD_COUNT)
  }

  function FieldsWrites(p: Panel, texts: seq<string>, n: nat): seq<Px>
    requires ValidFont(p.font) && n <= |texts|
  {
    if n == 0 then [] else FieldsWrites(p, texts, n - 1) + FieldWrites(p, n - 1, texts[n - 1])
  }

  // A visible byte above the log area.
  predicate HeaderByte(g: Geometry, y: nat, o: nat) { y < LogFloor(g) && o < g.xres * g.PixelBytes() }

  /** The header holds, byte for byte, the repaint of the texts drawn last. */
  ghost predicate HeaderIsRepaint(p: Panel, es: seq<Event>)
    requires ValidFont(p.font) && LastDraw(es).Some?
  {
    forall y: nat, o: nat | HeaderByte(p.g, y, o) ::
      var want := LastWrite(p.g, RepaintWrites(p, FieldTexts(LastDraw(es).value)), p.g.At(y, o));
      want.Some? && LastWrite(p.g, RunWrites(p, es), p.g.At(y, o)) == want
  }

  /** No store leaves its line, or what it leaves on the next line is what is there anyway. */
  predicate Confined(p: Panel) {
    p.g.Tight() || ByteOf(p.bg, p.g.PixelBytes()) == ByteOf(p.bg, 0)
  }

  // ----- bytes that only their own line touches -----

  predicate InBand(y: nat) { FieldY(0) <= y < FieldY(FIELD_COUNT) }

  function BandOf(y: nat): (i: nat)
    requires InBand(y)
    ensures i < FIELD_COUNT && FieldY(i) <= y < FieldY(i) + 20
    ensures forall k: nat | FieldY(k) <= y < FieldY(k) + 20 :: k == i
  {
    (y - 56) / 20
  }

  // A header byte that no store to another line reaches.
  ghost predicate Own(p: Panel, y: nat, o: nat) {
    p.Valid() && HeaderByte(p.g, y, o) && (p.g.Tight() || o > 0)
  }

  function Drawn(p: Panel, ws: seq<Px>, y: nat, o: nat): Option<byte> { LastWrite(p.g, ws, p.g.At(y, o)) }

  lemma FieldKeepsToBand(p: Panel, i: nat, text: string, y: nat, o: nat)
    requires Own(p, y, o)
    ensures Drawn(p, FieldWrites(p, i, text), y, o).Some? <==> FieldY(i) <= y < FieldY(i) + 20
  {
    var fill := FillWrites(p.g, 0, FieldY(i), p.g.xres, FieldY(i) + 20, p.bg);
    var text' := Text(p, 8, FieldY(i), text, p.fg);
    LastWriteConcat(p.g, fill, text', p.g.At(y, o));
    RectShape(0, p.g.xres, FieldY(i), Min(FieldY(i) + 20, p.g.yres), p.bg);
    StrInBox(p.g, p.font, 8, FieldY(i), text, p.fg, p.bg);
    if FieldY(i) <= y < FieldY(i) + 20 {
      FillCovers(p.g, FieldY(i), FieldY(i) + 20, p.bg, y, o);
    } else {
      OtherRowsUntouched(p.g, fill, FieldY(i), FieldY(i) + 20, y, o);
      OtherRowsUntouched(p.g, text', FieldY(i), FieldY(i) + 16, y, o);
    }
  }

  lemma StaticCoversHeader(p: Panel, y: nat, o: nat)
    requires p.Valid() && HeaderByte(p.g, y, o)
    ensures Drawn(p, StaticWrites(p), y, o).Some?
  {
    var fill := FillWrites(p.g, 0, 0, p.g.xres, LogFloor(p.g), p.bg);
    LastWriteConcat(p.g, fill, LabelWrites(p, Labels(p), |Labels(p)|), p.g.At(y, o));
    FillCovers(p.g, 0, LogFloor(p.g), p.bg, y, o);
  }

  // What a header byte holds once everything is drawn.
  function Settled(p: Panel, texts: seq<string>, y: nat, o: nat): Option<byte>
    requires ValidFont(p.font) && |texts| == FIELD_COUNT
  {
    if InBand(y) then Drawn(p, FieldWrites(p, BandOf(y), texts[BandOf(y)]), y, o)
    else Drawn(p, StaticWrites(p), y, o)
  }

  lemma {:induction false} SetFieldsAt(p: Panel, fields: seq<Field>, texts: seq<string>, n: nat, y: nat, o: nat)
    requires Own(p, y, o) && |fields| == |texts| == FIELD_COUNT && n <= FIELD_COUNT
    ensures Drawn(p, SetFieldsWrites(p, fields, texts, n), y, o) ==
            if InBand(y) && BandOf(y) < n then
              Drawn(p, SetFieldWrites(p, fields[BandOf(y)], BandOf(y), texts[BandOf(y)]), y, o)
            else None
  {
    if n > 0 {
      SetFieldsAt(p, fields, texts, n - 1, y, o);
      LastWriteConcat(p.g, SetFieldsWrites(p, fields, texts, n - 1),
                      SetFieldWrites(p, fields[n - 1], n - 1, texts[n - 1]), p.g.At(y, o));
      FieldKeepsToBand(p, n - 1, texts[n - 1], y, o);
    }
  }

  function Texts(c: Cache): seq<string> { seq(|c.fields|, i requires 0 <= i < |c.fields| => c.fields[i].text) }

  /** The cache tells the truth about header byte (y, o) after the calls ws. */
  ghost predicate Truthful(p: Panel, c: Cache, ws: seq<Px>, y: nat, o: nat)
    requires ValidFont(p.font)
  {
    && |c.fields| == FIELD_COUNT
    && LogFloor(p.g) <= c.logY
    && (forall i | 0 <= i < FIELD_COUNT :: c.fields[i].init == c.drawn)
    && (c.drawn ==> Drawn(p, ws, y, o) == Settled(p, Texts(c), y, o))
  }

  lemma DrawnAt(p: Panel, c: Cache, ws: seq<Px>, texts: seq<string>, y: nat, o: nat)
    requires Own(p, y, o) && |c.fields| == |texts| == FIELD_COUNT
    ensures Drawn(p, ws + DrawWrites(p, c, texts), y, o) ==
            if InBand(y) && !(c.fields[BandOf(y)] == Field(texts[BandOf(y)], true)) then
              Drawn(p, FieldWrites(p, BandOf(y), texts[BandOf(y)]), y, o)
            else if c.drawn then Drawn(p, ws, y, o)
            else Drawn(p, StaticWrites(p), y, o)
  {
    hide LastWrite, SetFieldsWrites, FieldWrites, StaticWrites;
    var a := p.g.At(y, o);
    var once := if c.drawn then [] else StaticWrites(p);
    var set' := SetFieldsWrites(p, c.fields, texts, FIELD_COUNT);
    LastWriteConcat(p.g, ws, once + set', a);
    LastWriteConcat(p.g, once, set', a);
    LastWriteNothing(p.g, a);
    SetFieldsAt(p, c.fields, texts, FIELD_COUNT, y, o);
    StaticCoversHeader(p, y, o);
    if InBand(y) {
      FieldKeepsToBand(p, BandOf(y), texts[BandOf(y)], y, o);
    }
  }

  lemma DrawKeepsTruth(p: Panel, c: Cache, ws: seq<Px>, texts: seq<string>, y: nat, o: nat)
    requires Own(p, y, o) && Truthful(p, c, ws, y, o) && |texts| == FIELD_COUNT
    ensures Truthful(p, DrawCache(c, texts), ws + DrawWrites(p, c, texts), y, o)
  {
    hide Drawn, DrawWrites, FieldWrites, StaticWrites;
    DrawnAt(p, c, ws, texts, y, o);
    assert Texts(DrawCache(c, texts)) == texts;
  }

  lemma LogKeepsTruth(p: Panel, c: Cache, ws: seq<Px>, s: string, y: nat, o: nat)
    requires Own(p, y, o) && Truthful(p, c, ws, y, o)
    ensures Truthful(p, NextCache(p, c, Log(s)), ws + LogWrites(p, c, s), y, o)
  {
    var row := LogRow(p.g, c);
    LastWriteConcat(p.g, ws, LogWrites(p, c, s), p.g.At(y, o));
    StrInBox(p.g, p.font, 8, row, s, p.fg, p.bg);
    OtherRowsUntouched(p.g, LogWrites(p, c, s), row, row + 16, y, o);
    assert Texts(NextCache(p, c, Log(s))) == Texts(c);
  }

  /** The first draw after boot is a full repaint. */
  lemma {:induction false} NothingCached(p: Panel, texts: seq<string>, n: nat)
    requires ValidFont(p.font) && n <= |texts| == FIELD_COUNT
    ensures SetFieldsWrites(p, Boot(p).fields, texts, n) == FieldsWrites(p, texts, n)
  {
    if n > 0 {
      NothingCached(p, texts, n - 1);
    }
  }

  lemma RepaintSettles(p: Panel, texts: seq<string>, y: nat, o: nat)
    requires Own(p, y, o) && |texts| == FIELD_COUNT
    ensures Drawn(p, RepaintWrites(p, texts), y, o) == Settled(p, texts, y, o)
    ensures Settled(p, texts, y, o).Some?
  {
    hide LastWrite, SetFieldsWrites, FieldsWrites, FieldWrites, StaticWrites;
    NothingCached(p, texts, FIELD_COUNT);
    DrawKeepsTruth(p, Boot(p), [], texts, y, o);
    assert [] + DrawWrites(p, Boot(p), texts) == RepaintWrites(p, texts);
    assert Texts(DrawCache(Boot(p), texts)) == texts;
    StaticCoversHeader(p, y, o);
    if InBand(y) {
      FieldKeepsToBand(p, BandOf(y), texts[BandOf(y)], y, o);
    }
  }

  lemma {:induction false} RunStaysTruthful(p: Panel, es: seq<Event>, y: nat, o: nat)
    requires Own(p, y, o)
    ensures Truthful(p, RunCache(p, es), RunWrites(p, es), y, o)
  {
    if es != [] {
      var es', e := es[..|es| - 1], es[|es| - 1];
      RunStaysTruthful(p, es', y, o);
      match e
      case Draw(st) => DrawKeepsTruth(p, RunCache(p, es'), RunWrites(p, es'), FieldTexts(st), y, o);
      case Log(s) => LogKeepsTruth(p, RunCache(p, es'), RunWrites(p, es'), s, y, o);
    }
  }

  lemma {:induction false} CacheHoldsLastDraw(p: Panel, es: seq<Event>)
    ensures RunCache(p, es).drawn <==> LastDraw(es).Some?
    ensures LastDraw(es).Some? ==> Texts(RunCache(p, es)) == FieldTexts(LastDraw(es).value)
  {
    if es != [] {
      CacheHoldsLastDraw(p, es[..|es| - 1]);
    }
  }

  // ----- the first byte of a line, when the line above may spill into it -----

  /** Nothing that is repainted alone spills into the header: stores are confined, or the header ends where the
      second field starts. */
  predicate Shielded(p: Panel) { Confined(p) || LogFloor(p.g) <= FieldY(1) }

  // The start of a header line on a panel whose stores may spill.
  ghost predicate SafeStart(p: Panel, y: nat) {
    p.Valid() && p.g.xres > 24 && !p.g.Tight() && Shielded(p) && HeaderByte(p.g, y, 0)
  }

  // ws leaves at the start of line y the background's first byte, or what was there.
  ghost predicate Clean(p: Panel, ws: seq<Px>, y: nat) { Drawn(p, ws, y, 0) in {None, Some(ByteOf(p.bg, 0))} }

  lemma CleanJoin(p: Panel, u: seq<Px>, v: seq<Px>, y: nat)
    requires Clean(p, u, y) && Clean(p, v, y)
    ensures Clean(p, u + v, y)
  {
    LastWriteConcat(p.g, u, v, p.g.At(y, 0));
  }

  lemma CleanEmpty(p: Panel, y: nat)
    ensures Clean(p, [], y)
  {}

  lemma TextClean(p: Panel, row: nat, s: string, fg: nat, y: nat)
    requires SafeStart(p, y)
    ensures Clean(p, Text(p, 8, row, s, fg), y)
  {
    StrInBox(p.g, p.font, 8, row, s, fg, p.bg);
    TextMissesLineStart(p.g, Text(p, 8, row, s, fg), row, row + 16, y);
  }

  lemma {:induction false} LabelsClean(p: Panel, ls: seq<Label>, n: nat, y: nat)
    requires SafeStart(p, y) && n <= |ls|
    ensures Clean(p, LabelWrites(p, ls, n), y)
  {
    hide Clean;
    if n == 0 {
      CleanEmpty(p, y);
    } else {
      LabelsClean(p, ls, n - 1, y);
      TextClean(p, ls[n - 1].y, ls[n - 1].s, ls[n - 1].fg, y);
      CleanJoin(p, LabelWrites(p, ls, n - 1), Text(p, 8, ls[n - 1].y, ls[n - 1].s, ls[n - 1].fg), y);
    }
  }

  // A filled line starts with its own first pixel, which comes after the last one of the line above.
  lemma RowTop(p: Panel, y: nat)
    requires p.Valid() && y < p.g.yres
    ensures Drawn(p, RowWrites(0, p.g.xres, y, p.bg), y, 0) == Some(ByteOf(p.bg, 0))
  {
    var ws, a, b := RowWrites(0, p.g.xres, y, p.bg), p.g.At(y, 0), ByteOf(p.bg, 0);
    RowShape(0, p.g.xres, y, p.bg);
    forall i | 0 <= i < |ws| && Covers(p.g, ws[i], a)
      ensures ByteOf(ws[i].pix, a - Start(p.g, ws[i])) == b
    {
      LineStartTouched(p.g, ws[i], y);
    }
    CleanValue(p.g, ws, a, b);
    var i := RowHas(0, p.g.xres, y, p.bg, 0);
    TouchedIsWritten(p.g, ws, i, a);
  }

  lemma RowBelow(p: Panel, y1: nat, y: nat)
    requires p.Valid() && y < y1
    ensures Drawn(p, RowWrites(0, p.g.xres, y1, p.bg), y, 0) == None
  {
    var ws, a := RowWrites(0, p.g.xres, y1, p.bg), p.g.At(y, 0);
    RowShape(0, p.g.xres, y1, p.bg);
    forall i | 0 <= i < |ws| && Covers(p.g, ws[i], a) ensures false {
      LineStartTouched(p.g, ws[i], y);
    }
    CleanValue(p.g, ws, a, 0);
    CleanValue(p.g, ws, a, 1);
  }

  lemma {:induction false} RectClean(p: Panel, y0: nat, y1: nat, y: nat)
    requires p.Valid() && y < y1 <= p.g.yres
    ensures Clean(p, RectWrites(0, p.g.xres, y0, y1, p.bg), y)
    decreases y1
  {
    hide RowWrites, LastWrite;
    if y0 >= y1 {
      LastWriteNothing(p.g, p.g.At(y, 0));
    } else {
      LastWriteConcat(p.g, RectWrites(0, p.g.xres, y0, y1 - 1, p.bg), RowWrites(0, p.g.xres, y1 - 1, p.bg),
                      p.g.At(y, 0));
      if y == y1 - 1 {
        RowTop(p, y);
      } else {
        RowBelow(p, y1 - 1, y);
        RectClean(p, y0, y1 - 1, y);
      }
    }
  }

  lemma FillClean(p: Panel, y0: nat, y1: nat, y: nat)
    requires SafeStart(p, y) && (Confined(p) || y < y1)
    ensures Clean(p, FillWrites(p.g, 0, y0, p.g.xres, y1, p.bg), y)
  {
    hide RectWrites, LastWrite, CleanAt;
    if y < y1 {
      RectClean(p, y0, Min(y1, p.g.yres), y);
    } else {
      FillCleanAtLineStart(p.g, y0, y1, p.bg, y);
      CleanValue(p.g, FillWrites(p.g, 0, y0, p.g.xres, y1, p.bg), p.g.At(y, 0), ByteOf(p.bg, 0));
    }
  }

  lemma SetFieldClean(p: Panel, f: Field, i: nat, text: string, y: nat)
    requires SafeStart(p, y)
    ensures Clean(p, SetFieldWrites(p, f, i, text), y)
  {
    hide Clean, FillWrites, Text;
    CleanEmpty(p, y);
    TextClean(p, FieldY(i), text, p.fg, y);
    FillClean(p, FieldY(i), FieldY(i) + 20, y);
    CleanJoin(p, FillWrites(p.g, 0, FieldY(i), p.g.xres, FieldY(i) + 20, p.bg), Text(p, 8, FieldY(i), text, p.fg), y);
  }

  lemma {:induction false} SetFieldsClean(p: Panel, fields: seq<Field>, texts: seq<string>, n: nat, y: nat)
    requires SafeStart(p, y) && n <= |fields| && n <= |texts|
    ensures Clean(p, SetFieldsWrites(p, fields, texts, n), y)
  {
    hide Clean, SetFieldWrites;
    if n == 0 {
      CleanEmpty(p, y);
    } else {
      SetFieldsClean(p, fields, texts, n - 1, y);
      SetFieldClean(p, fields[n - 1], n - 1, texts[n - 1], y);
      CleanJoin(p, SetFieldsWrites(p, fields, texts, n - 1), SetFieldWrites(p, fields[n - 1], n - 1, texts[n - 1]), y);
    }
  }

  lemma StaticClean(p: Panel, y: nat)
    requires SafeStart(p, y)
    ensures Clean(p, StaticWrites(p), y) && Drawn(p, StaticWrites(p), y, 0).Some?
  {
    hide Clean, FillWrites, LabelWrites;
    LabelsClean(p, Labels(p), |Labels(p)|, y);
    FillClean(p, 0, LogFloor(p.g), y);
    CleanJoin(p, FillWrites(p.g, 0, 0, p.g.xres, LogFloor(p.g), p.bg), LabelWrites(p, Labels(p), |Labels(p)|), y);
    StaticCoversHeader(p, y, 0);
  }

  lemma DrawClean(p: Panel, c: Cache, ws: seq<Px>, texts: seq<string>, y: nat)
    requires SafeStart(p, y) && |c.fields| == |texts| == FIELD_COUNT
    ensures Clean(p, DrawWrites(p, c, texts), y)
    ensures (c.drawn ==> Drawn(p, ws, y, 0).Some?) ==> Drawn(p, ws + DrawWrites(p, c, texts), y, 0).Some?
  {
    hide Clean, LastWrite, StaticWrites, SetFieldsWrites;
    var once, set' := if c.drawn then [] else StaticWrites(p), SetFieldsWrites(p, c.fields, texts, FIELD_COUNT);
    SetFieldsClean(p, c.fields, texts, FIELD_COUNT, y);
    StaticClean(p, y);
    CleanEmpty(p, y);
    CleanJoin(p, once, set', y);
    LastWriteConcat(p.g, ws, once + set', p.g.At(y, 0));
    LastWriteConcat(p.g, once, set', p.g.At(y, 0));
  }

  lemma {:induction false} RunClean(p: Panel, es: seq<Event>, y: nat)
    requires SafeStart(p, y)
    ensures Clean(p, RunWrites(p, es), y)
    ensures RunCache(p, es).drawn ==> Drawn(p, RunWrites(p, es), y, 0).Some?
  {
    hide Clean, LastWrite, DrawWrites;
    CleanEmpty(p, y);
    if es != [] {
      var es', e := es[..|es| - 1], es[|es| - 1];
      var c := RunCache(p, es');
      RunClean(p, es', y);
      LastWriteConcat(p.g, RunWrites(p, es'), EventWrites(p, c, e), p.g.At(y, 0));
      match e {
        case Draw(st) => DrawClean(p, c, RunWrites(p, es'), FieldTexts(st), y);
        case Log(s) => TextClean(p, LogRow(p.g, c), s, p.fg, y);
      }
      CleanJoin(p, RunWrites(p, es'), EventWrites(p, c, e), y);
    }
  }

  // Both sides hold the background's first byte.
  lemma LineStartsAgree(p: Panel, es: seq<Event>, texts: seq<string>, y: nat)
    requires SafeStart(p, y) && |texts| == FIELD_COUNT && RunCache(p, es).drawn
    ensures Drawn(p, RunWrites(p, es), y, 0) == Some(ByteOf(p.bg, 0)) == Drawn(p, RepaintWrites(p, texts), y, 0)
  {
    hide LastWrite, RunWrites, StaticWrites, SetFieldsWrites, FieldsWrites;
    RunClean(p, es, y);
    NothingCached(p, texts, FIELD_COUNT);
    DrawClean(p, Boot(p), [], texts, y);
    assert [] + DrawWrites(p, Boot(p), texts) == DrawWrites(p, Boot(p), texts) == RepaintWrites(p, texts);
  }

  // ----- the theorem -----

  /** On every panel of at least 24 lines, after any run that has drawn once, the cached console
      shows what a full repaint of the last texts would show. */
  lemma HeaderStaysPainted(p: Panel, es: seq<Event>)
    requires p.Valid() && Shielded(p) && (p.g.Tight() || p.g.xres > 24)
    requires LastDraw(es).Some?
    ensures HeaderIsRepaint(p, es)
  {
    hide LastWrite, RunWrites, RepaintWrites;
    var texts := FieldTexts(LastDraw(es).value);
    CacheHoldsLastDraw(p, es);
    forall y: nat, o: nat | HeaderByte(p.g, y, o)
      ensures Drawn(p, RepaintWrites(p, texts), y, o).Some?
      ensures Drawn(p, RunWrites(p, es), y, o) == Drawn(p, RepaintWrites(p, texts), y, o)
    {
      if p.g.Tight() || o > 0 {
        RunStaysTruthful(p, es, y, o);
        RepaintSettles(p, texts, y, o);
      } else {
        LineStartsAgree(p, es, texts, y);
      }
    }
  }

  // ----- and on other panels it does not hold -----

  // A field that starts at line y decides the first byte of line y,
  lemma FieldTop(p: Panel, i: nat, text: string)
    requires p.Valid() && p.g.xres > 24 && FieldY(i) < p.g.yres
    ensures Drawn(p, FieldWrites(p, i, text), FieldY(i), 0) == Some(ByteOf(p.bg, 0))
  {
    hide LastWrite, StrWrites, RectWrites;
    var y := FieldY(i);
    var a, b := p.g.At(y, 0), ByteOf(p.bg, 0);
    var fill := FillWrites(p.g, 0, y, p.g.xres, y + 20, p.bg);
    RectShape(0, p.g.xres, y, Min(y + 20, p.g.yres), p.bg);
    forall k | 0 <= k < |fill| && Covers(p.g, fill[k], a)
      ensures ByteOf(fill[k].pix, a - Start(p.g, fill[k])) == b
    {
      LineStartTouched(p.g, fill[k], y);
    }
    FillCovers(p.g, y, y + 20, p.bg, y, 0);
    StrInBox(p.g, p.font, 8, y, text, p.fg, p.bg);
    TextCleanAtLineStart(p.g, Text(p, 8, y, text, p.fg), y, y + 16, y, b);
    CleanConcat(p.g, fill, Text(p, 8, y, text, p.fg), a, b);
    CleanValue(p.g, FieldWrites(p, i, text), a, b);
    LastWriteConcat(p.g, fill, Text(p, 8, y, text, p.fg), a);
  }

  // a field further down leaves it alone,
  lemma FieldBelow(p: Panel, i: nat, text: string, y: nat)
    requires p.Valid() && p.g.xres > 24 && y < FieldY(i)
    ensures Drawn(p, FieldWrites(p, i, text), y, 0) == None
  {
    var a := p.g.At(y, 0);
    var ws := FieldWrites(p, i, text);
    RectShape(0, p.g.xres, FieldY(i), Min(FieldY(i) + 20, p.g.yres), p.bg);
    StrInBox(p.g, p.font, 8, FieldY(i), text, p.fg, p.bg);
    forall k | 0 <= k < |ws| && Covers(p.g, ws[k], a) ensures false {
      LineStartTouched(p.g, ws[k], y);
    }
    CleanValue(p.g, ws, a, 0);
    CleanValue(p.g, ws, a, 1);
  }

  // and the field that ends on the line above spills into it.
  lemma FieldSpills(p: Panel, i: nat, text: string)
    requires p.Valid() && p.g.xres > 24 && !p.g.Tight() && FieldY(i) + 20 <= p.g.yres
    ensures Drawn(p, FieldWrites(p, i, text), FieldY(i) + 20, 0) == Some(ByteOf(p.bg, p.g.PixelBytes()))
  {
    var y := FieldY(i) + 20;
    var a := p.g.At(y, 0);
    var fill, text' := FillWrites(p.g, 0, FieldY(i), p.g.xres, y, p.bg), Text(p, 8, FieldY(i), text, p.fg);
    LastWriteConcat(p.g, fill, text', a);
    StrInBox(p.g, p.font, 8, FieldY(i), text, p.fg, p.bg);
    TextMissesLineStart(p.g, text', FieldY(i), FieldY(i) + 16, y);
    FillSpills(p, FieldY(i), y);
  }

  lemma FillSpills(p: Panel, y0: nat, y: nat)
    requires p.Valid() && !p.g.Tight() && y0 < y <= p.g.yres
    ensures Drawn(p, FillWrites(p.g, 0, y0, p.g.xres, y, p.bg), y, 0) == Some(ByteOf(p.bg, p.g.PixelBytes()))
  {
    var fill := FillWrites(p.g, 0, y0, p.g.xres, y, p.bg);
    var row := RowWrites(0, p.g.xres, y - 1, p.bg);
    LastWriteConcat(p.g, RectWrites(0, p.g.xres, y0, y - 1, p.bg), row, p.g.At(y, 0));
    LastPixelMeetsNextLine(p.g, y - 1, p.bg);
    assert row[|row| - 1] == Px(p.g.xres - 1, y - 1, p.bg);
  }

  function StatusWithBattery(s: string): Status { Status(-1, s, false, 0, 0, "", -1, "") }

  lemma BatteryTextsDiffer()
    ensures BatteryText(StatusWithBattery("Full")) != BatteryText(StatusWithBattery("Charging"))
  {
    assert Append(Append(Cut("bat  "), "?"), "  ") == "bat  ?  ";
    assert BatteryText(StatusWithBattery("Full"))[8] == 'F';
    assert BatteryText(StatusWithBattery("Charging"))[8] == 'C';
  }

  // The second draw repaints the battery line and nothing else.
  lemma OnlyBatteryRepainted(p: Panel)
    requires p.Valid()
    ensures var e0, e1 := Draw(StatusWithBattery("Full")), Draw(StatusWithBattery("Charging"));
            RunWrites(p, [e0, e1]) == RunWrites(p, [e0]) + FieldWrites(p, 0, BatteryText(e1.st))
  {
    hide StaticWrites, FieldWrites, BatteryText, BacklightText, MemoryText;
    var e0, e1 := Draw(StatusWithBattery("Full")), Draw(StatusWithBattery("Charging"));
    var t0, t1 := FieldTexts(e0.st), FieldTexts(e1.st);
    BatteryTextsDiffer();
    OtherTextsSame();
    assert [e0, e1][..1] == [e0] && [e0][..0] == [];
    assert RunCache(p, []) == Boot(p);
    var c := RunCache(p, [e0]);
    assert c == NextCache(p, Boot(p), e0);
    assert forall i | 1 <= i < FIELD_COUNT :: c.fields[i] == Field(t1[i], true);
    assert SetFieldsWrites(p, c.fields, t1, 0) == [];
    assert SetFieldsWrites(p, c.fields, t1, 1) == FieldWrites(p, 0, t1[0]);
    assert SetFieldsWrites(p, c.fields, t1, 2) == FieldWrites(p, 0, t1[0]);
    assert SetFieldsWrites(p, c.fields, t1, 3) == FieldWrites(p, 0, t1[0]);
    assert SetFieldsWrites(p, c.fields, t1, 4) == FieldWrites(p, 0, t1[0]);
    assert SetFieldsWrites(p, c.fields, t1, 5) == FieldWrites(p, 0, t1[0]);
    assert EventWrites(p, c, e1) == FieldWrites(p, 0, t1[0]);
  }

  lemma OtherTextsSame()
    ensures var s0, s1 := StatusWithBattery("Full"), StatusWithBattery("Charging");
            BacklightText(s0) == BacklightText(s1) && MemoryText(s0) == MemoryText(s1)
  {}

  /** When the battery line alone is repainted, the backlight line below it is left with a foreign byte. */
  lemma SpillShows(p: Panel)
    requires p.Valid() && !Shielded(p) && p.g.xres > 24
    ensures !HeaderIsRepaint(p, [Draw(StatusWithBattery("Full")), Draw(StatusWithBattery("Charging"))])
  {
    hide LastWrite, FieldWrites, RunWrites, RepaintWrites, FieldTexts, BatteryText;
    var e0, e1 := Draw(StatusWithBattery("Full")), Draw(StatusWithBattery("Charging"));
    OnlyBatteryRepainted(p);
    LastWriteConcat(p.g, RunWrites(p, [e0]), FieldWrites(p, 0, BatteryText(e1.st)), p.g.At(FieldY(1), 0));
    FieldSpills(p, 0, BatteryText(e1.st));
    BacklightLineOfRepaint(p, FieldTexts(e1.st));
    MulLe(1, p.g.xres, p.g.PixelBytes());
    assert HeaderByte(p.g, FieldY(1), 0);
    assert [e0, e1][1] == e1;
  }

  lemma BacklightLineOfRepaint(p: Panel, texts: seq<string>)
    requires p.Valid() && LogFloor(p.g) > FieldY(1) && p.g.xres > 24 && |texts| == FIELD_COUNT
    ensures Drawn(p, RepaintWrites(p, texts), FieldY(1), 0) == Some(ByteOf(p.bg, 0))
  {
    hide LastWrite, FieldWrites;
    var a := p.g.At(FieldY(1), 0);
    var w := StaticWrites(p);
    LastWriteConcat(p.g, w, FieldsWrites(p, texts, 5), a);
    LastWriteConcat(p.g, FieldsWrites(p, texts, 4), FieldWrites(p, 4, texts[4]), a);
    LastWriteConcat(p.g, FieldsWrites(p, texts, 3), FieldWrites(p, 3, texts[3]), a);
    LastWriteConcat(p.g, FieldsWrites(p, texts, 2), FieldWrites(p, 2, texts[2]), a);
    LastWriteConcat(p.g, FieldsWrites(p, texts, 1), FieldWrites(p, 1, texts[1]), a);
    FieldBelow(p, 4, texts[4], FieldY(1));
    FieldBelow(p, 3, texts[3], FieldY(1));
    FieldBelow(p, 2, texts[2], FieldY(1));
    FieldTop(p, 1, texts[1]);
  }

  /** The cached header equals a full repaint after every run exactly when stores are confined to their line, or
      spill the byte that the background has there anyway, or the panel has fewer than 154 lines. */
  lemma HeaderIffConfined(p: Panel)
    requires p.Valid() && (p.g.Tight() || p.g.xres > 24)
    ensures (forall es: seq<Event> | LastDraw(es).Some? :: HeaderIsRepaint(p, es)) <==> Confined(p) || p.g.yres < 154
  {
    hide HeaderIsRepaint, Confined;
    assert Shielded(p) <==> Confined(p) || p.g.yres < 154;
    if Shielded(p) {
      forall es: seq<Event> | LastDraw(es).Some? ensures HeaderIsRepaint(p, es) {
        HeaderStaysPainted(p, es);
      }
    } else {
      if p.g.Tight() { TightIsConfined(p); }
      SpillShows(p);
    }
  }

  lemma TightIsConfined(p: Panel)
    requires p.g.Tight()
    ensures Confined(p)
  {}
}
