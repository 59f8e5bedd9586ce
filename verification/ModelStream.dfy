/** The streaming loop of OpenAiCompatProvider::complete_with_progress
    (crates/model-provider/src/lib.rs). */
module ModelStream {
  import opened Common
  import opened Framing

  /** One element of delta.tool_calls. A missing index counts as 0. */
  datatype Fragment = Fragment(index: nat, name: Option<string>, args: Option<string>)

  /** The object at /choices/0/delta. */
  datatype Delta = Delta(content: Option<string>, calls: seq<Fragment>)

  // JSON parsing and the lookup of the delta; None when either fails.
  type Parser = string -> Option<Delta>

  datatype Slot = Slot(name: string, args: string)

  /** What the loop accumulates: the text, the pieces sent on, and the tool calls by index. */
  datatype Acc = Acc(text: string, sent: seq<string>, tools: seq<Slot>)

  datatype Chunk = Data(s: string) | Broken

  datatype Call = Call(id: nat, name: string, arguments: string)

  datatype Response = Response(text: Option<string>, calls: seq<Call>)

  // JSON parsing of an argument text, to a value written as text again; None when it fails.
  type ArgsParser = string -> Option<string>

  // The id drawn for the k-th proposed call.
  type IdSource = nat -> nat

  const PREFIX := "data:"
  const DONE := "[DONE]"

  function Payload(line: string): Option<string> {
    var cr := if line != "" && line[|line| - 1] == '\r' then line[..|line| - 1] else line;
    var l := Trim(cr);
    if l == "" || !(PREFIX <= l) then None
    else
      var data := Trim(l[|PREFIX|..]);
      if data == DONE then None else Some(data)
  }

  function DeltaOf(parse: Parser, line: string): Option<Delta> {
    match Payload(line)
    case None => None
    case Some(data) => parse(data)
  }

  // ----- which text of a line is parsed -----

  // Dropping a final carriage return changes nothing for trim.
  lemma PayloadOf(u: string, s: string, v: string)
    requires AllSpace(u) && AllSpace(v) && Bare(s)
    ensures Payload(u + s + v) ==
            if !("data:" <= s) then None
            else if Trim(s[5..]) == "[DONE]" then None else Some(Trim(s[5..]))
  {
    hide Trim;
    var line := u + s + v;
    TrimOf(u, s, v);
    if v != "" {
      assert line[|line| - 1] == v[|v| - 1] && line[..|line| - 1] == u + s + v[..|v| - 1];
      TrimOf(u, s, v[..|v| - 1]);
    } else if s == "" && u != "" {
      assert line[|line| - 1] == u[|u| - 1] && line[..|line| - 1] == u[..|u| - 1] + s + v;
      TrimOf(u[..|u| - 1], s, v);
    } else if s != "" {
      assert line[|line| - 1] == s[|s| - 1];
    }
  }

  /** The text of a "data:" field reaches the parser as it is, whatever white space stands around it and around the
      field name, and with or without a carriage return; only the end marker does not. */
  lemma EventLine(parse: Parser, u: string, v: string, json: string, w: string)
    requires AllSpace(u) && AllSpace(v) && AllSpace(w) && Bare(json) && json != ""
    ensures DeltaOf(parse, u + "data:" + v + json + w) == if json == "[DONE]" then None else parse(json)
    ensures DeltaOf(parse, u + "data:" + v + json + w + "\r") == if json == "[DONE]" then None else parse(json)
  {
    hide Trim, Payload, Bare, AllSpace;
    var s := "data:" + v + json;
    FieldOf(v, json);
    PayloadOf(u, s, w);
    assert u + "data:" + v + json + w == u + s + w;
    SpaceThenReturn(w);
    PayloadOf(u, s, w + "\r");
    assert u + "data:" + v + json + w + "\r" == u + s + (w + "\r");
  }

  lemma FieldOf(v: string, json: string)
    requires AllSpace(v) && Bare(json) && json != ""
    ensures var s := "data:" + v + json; Bare(s) && "data:" <= s && Trim(s[5..]) == json
  {
    hide Trim;
    var s := "data:" + v + json;
    assert s[|s| - 1] == json[|json| - 1];
    assert s[5..] == v + json + "";
    TrimOf(v, json, "");
  }

  lemma SpaceThenReturn(w: string)
    requires AllSpace(w)
    ensures AllSpace(w + "\r")
  {}

  /** A field without text is parsed as the empty text, which no JSON parser takes. */
  lemma EmptyLine(parse: Parser, u: string, w: string)
    requires AllSpace(u) && AllSpace(w)
    ensures DeltaOf(parse, u + "data:" + w) == parse("")
  {
    hide Trim, Payload;
    assert "data:"[5..] == "" + "" + "";
    TrimOf("", "", "");
    PayloadOf(u, "data:", w);
  }

  /** Any other line adds nothing. */
  lemma OtherLine(parse: Parser, line: string)
    requires !("data:" <= Trim(line))
    ensures DeltaOf(parse, line) == None
  {
    hide Payload, TrimStart, TrimEnd;
    var a, b := TrimSplit(line);
    assert line == line[..a] + line[a..b] + line[b..];
    PayloadOf(line[..a], line[a..b], line[b..]);
  }

  /** A line as servers send it, and anything else that is no data field. */
  datatype Line = Field(lead: string, gap: string, json: string, trail: string, cr: bool) | Noise(text: string)

  ghost predicate Proper(l: Line) {
    match l
    case Field(lead, gap, json, trail, _) =>
      AllSpace(lead) && AllSpace(gap) && AllSpace(trail) && Bare(json) && json != "" &&
      Free(Render(l), '\n', |Render(l)|)
    case Noise(text) => !("data:" <= Trim(text)) && Free(text, '\n', |text|)
  }

  function Render(l: Line): string {
    match l
    case Field(lead, gap, json, trail, cr) => lead + "data:" + gap + json + trail + if cr then "\r" else ""
    case Noise(text) => text
  }

  function Rendered(ls: seq<Line>): (r: seq<string>)
    ensures |r| == |ls| && forall i | 0 <= i < |r| :: r[i] == Render(ls[i])
  {
    seq(|ls|, i requires 0 <= i < |ls| => Render(ls[i]))
  }

  // The deltas in the fields of a response, in order.
  function Carried(parse: Parser, ls: seq<Line>): seq<Delta> {
    if ls == [] then []
    else
      (if ls[0].Field? && ls[0].json != "[DONE]" && parse(ls[0].json).Some? then [parse(ls[0].json).value] else []) +
      Carried(parse, ls[1..])
  }

  // ----- the accumulator -----

  function Padded(tools: seq<Slot>, n: nat): seq<Slot> {
    if n <= |tools| then tools else tools + seq(n - |tools|, _ => Slot("", ""))
  }

  function AddFragment(tools: seq<Slot>, f: Fragment): seq<Slot> {
    var padded := Padded(tools, f.index + 1);
    var old' := padded[f.index];
    var name := if f.name.GetOr("") != "" then f.name.value else old'.name;
    padded[f.index := Slot(name, old'.args + f.args.GetOr(""))]
  }

  function AddFragments(tools: seq<Slot>, fs: seq<Fragment>): seq<Slot>
    decreases |fs|
  {
    if fs == [] then tools else AddFragments(AddFragment(tools, fs[0]), fs[1..])
  }

  function AddDelta(a: Acc, d: Delta): Acc {
    var piece := d.content.GetOr("");
    Acc(a.text + piece, if piece == "" then a.sent else a.sent + [piece], AddFragments(a.tools, d.calls))
  }

  function AddLine(parse: Parser, a: Acc, line: string): Acc {
    match DeltaOf(parse, line)
    case None => a
    case Some(d) => AddDelta(a, d)
  }

  /** One pass over complete lines. */
  function AddLines(parse: Parser, a: Acc, lines: seq<string>): Acc
    decreases |lines|
  {
    if lines == [] then a else AddLines(parse, AddLine(parse, a, lines[0]), lines[1..])
  }

  lemma {:induction false} AddLinesAcross(parse: Parser, a: Acc, u: seq<string>, v: seq<string>)
    ensures AddLines(parse, a, u + v) == AddLines(parse, AddLines(parse, a, u), v)
    decreases |u|
  {
    if u == [] {
      assert u + v == v;
    } else {
      assert (u + v)[1..] == u[1..] + v;
      AddLinesAcross(parse, AddLine(parse, a, u[0]), u[1..], v);
    }
  }

  // ----- chunk by chunk -----

  /** The loop's state between two chunks. */
  datatype Reader = Reader(lineBuf: string, acc: Acc)

  function Feed(parse: Parser, r: Reader, chunk: string): Reader {
    var s := r.lineBuf + chunk;
    Reader(Rest(s, '\n'), AddLines(parse, r.acc, Lines(s, '\n')))
  }

  function FeedAll(parse: Parser, r: Reader, chunks: seq<string>): Reader
    decreases |chunks|
  {
    if chunks == [] then r else FeedAll(parse, Feed(parse, r, chunks[0]), chunks[1..])
  }

  /** The reference: one pass over the terminated lines of the whole response. */
  function Batch(parse: Parser, whole: string): Reader {
    Reader(Rest(whole, '\n'), AddLines(parse, Acc("", [], []), Lines(whole, '\n')))
  }

  lemma FeedOne(parse: Parser, seen: string, chunk: string)
    ensures Feed(parse, Batch(parse, seen), chunk) == Batch(parse, seen + chunk)
  {
    LinesAcross(seen, chunk, '\n');
    AddLinesAcross(parse, Acc("", [], []), Lines(seen, '\n'), Lines(Rest(seen, '\n') + chunk, '\n'));
  }

  lemma ConcatFrom(seen: string, chunks: seq<string>)
    ensures chunks == [] ==> seen + Concat(chunks) == seen
    ensures chunks != [] ==> seen + Concat(chunks) == seen + chunks[0] + Concat(chunks[1..])
  {
    if chunks != [] {
      assert seen + (chunks[0] + Concat(chunks[1..])) == seen + chunks[0] + Concat(chunks[1..]);
    }
  }

  lemma {:induction false} FeedAllFrom(parse: Parser, seen: string, chunks: seq<string>)
    ensures FeedAll(parse, Batch(parse, seen), chunks) == Batch(parse, seen + Concat(chunks))
    decreases |chunks|
  {
    hide Feed, Batch, Lines, Rest, AddLines, Concat;
    ConcatFrom(seen, chunks);
    if chunks != [] {
      FeedOne(parse, seen, chunks[0]);
      FeedAllFrom(parse, seen + chunks[0], chunks[1..]);
    }
  }

  /** However the response is cut, the reader ends as if it had come in one piece. */
  lemma CutsDoNotMatter(parse: Parser, chunks: seq<string>)
    ensures FeedAll(parse, Reader("", Acc("", [], [])), chunks) == Batch(parse, Concat(chunks))
  {
    FeedAllFrom(parse, "", chunks);
    assert "" + Concat(chunks) == Concat(chunks);
  }

  // ----- what one pass means -----

  function Deltas(parse: Parser, lines: seq<string>): seq<Delta> {
    if lines == [] then []
    else
      (match DeltaOf(parse, lines[0]) case Some(d) => [d] case None => []) + Deltas(parse, lines[1..])
  }

  // The non-empty contents, in stream order.
  function Pieces(ds: seq<Delta>): seq<string> {
    if ds == [] then []
    else (if ds[0].content.GetOr("") == "" then [] else [ds[0].content.value]) + Pieces(ds[1..])
  }

  function Fragments(ds: seq<Delta>): seq<Fragment> {
    if ds == [] then [] else ds[0].calls + Fragments(ds[1..])
  }

  // The argument pieces for index k, in stream order.
  function ArgsAt(fs: seq<Fragment>, k: nat): string {
    if fs == [] then "" else (if fs[0].index == k then fs[0].args.GetOr("") else "") + ArgsAt(fs[1..], k)
  }

  // The last non-empty name given for index k, or first when there is none.
  function NameAt(fs: seq<Fragment>, k: nat, first: string): string {
    if fs == [] then first
    else NameAt(fs[1..], k, if fs[0].index == k && fs[0].name.GetOr("") != "" then fs[0].name.value else first)
  }

  function Count(fs: seq<Fragment>, n: nat): nat {
    if fs == [] then n else Count(fs[1..], if fs[0].index < n then n else fs[0].index + 1)
  }

  function SlotAt(tools: seq<Slot>, k: nat): Slot { if k < |tools| then tools[k] else Slot("", "") }

  lemma AddFragmentMeans(tools: seq<Slot>, f: Fragment, k: nat)
    ensures |AddFragment(tools, f)| == if f.index < |tools| then |tools| else f.index + 1
    ensures SlotAt(AddFragment(tools, f), k) ==
            Slot(if f.index == k && f.name.GetOr("") != "" then f.name.value else SlotAt(tools, k).name,
                 SlotAt(tools, k).args + if f.index == k then f.args.GetOr("") else "")
  {
    assert SlotAt(tools, k).args + "" == SlotAt(tools, k).args;
  }

  lemma {:induction false} AddFragmentsMeans(tools: seq<Slot>, fs: seq<Fragment>, k: nat)
    ensures |AddFragments(tools, fs)| == Count(fs, |tools|)
    ensures SlotAt(AddFragments(tools, fs), k) ==
            Slot(NameAt(fs, k, SlotAt(tools, k).name), SlotAt(tools, k).args + ArgsAt(fs, k))
    decreases |fs|
  {
    hide AddFragment, SlotAt;
    if fs == [] {
      assert SlotAt(tools, k).args + "" == SlotAt(tools, k).args;
    } else {
      AddFragmentMeans(tools, fs[0], k);
      AddFragmentsMeans(AddFragment(tools, fs[0]), fs[1..], k);
      var mine := if fs[0].index == k then fs[0].args.GetOr("") else "";
      assert SlotAt(tools, k).args + mine + ArgsAt(fs[1..], k) == SlotAt(tools, k).args + (mine + ArgsAt(fs[1..], k));
    }
  }

  lemma {:induction false} AddFragmentsAcross(tools: seq<Slot>, u: seq<Fragment>, v: seq<Fragment>)
    ensures AddFragments(tools, u + v) == AddFragments(AddFragments(tools, u), v)
    decreases |u|
  {
    if u == [] {
      assert u + v == v;
    } else {
      assert (u + v)[1..] == u[1..] + v;
      AddFragmentsAcross(AddFragment(tools, u[0]), u[1..], v);
    }
  }

  // r is what the deltas ds make of a.
  ghost predicate Means(a: Acc, ds: seq<Delta>, r: Acc) {
    && r.text == a.text + Concat(Pieces(ds))
    && r.sent == a.sent + Pieces(ds)
    && r.tools == AddFragments(a.tools, Fragments(ds))
  }

  lemma JoinThree<T>(u: seq<T>, v: seq<T>, w: seq<T>)
    ensures u + v + w == u + (v + w)
  {}

  lemma MeansStep(a: Acc, d: Delta, ds: seq<Delta>, r: Acc)
    requires Means(AddDelta(a, d), ds, r)
    ensures Means(a, [d] + ds, r)
  {
    hide AddFragments, Pieces, Fragments, Concat;
    DeltasStep(d, ds);
    AddFragmentsAcross(a.tools, d.calls, Fragments(ds));
    var piece := d.content.GetOr("");
    var mine := if piece == "" then [] else [piece];
    assert AddDelta(a, d).sent == a.sent + mine;
    JoinThree(a.text, piece, Concat(Pieces(ds)));
    JoinThree(a.sent, mine, Pieces(ds));
  }

  lemma DeltasStep(d: Delta, ds: seq<Delta>)
    ensures var piece := d.content.GetOr("");
            && Pieces([d] + ds) == (if piece == "" then [] else [piece]) + Pieces(ds)
            && Concat(Pieces([d] + ds)) == piece + Concat(Pieces(ds))
            && Fragments([d] + ds) == d.calls + Fragments(ds)
  {
    var piece := d.content.GetOr("");
    assert ([d] + ds)[1..] == ds;
    if piece != "" {
      assert ([piece] + Pieces(ds))[1..] == Pieces(ds);
    } else {
      assert Pieces([d] + ds) == Pieces(ds);
      assert piece + Concat(Pieces(ds)) == Concat(Pieces(ds));
    }
  }

  lemma {:induction false} AddLinesMeans(parse: Parser, a: Acc, lines: seq<string>)
    ensures Means(a, Deltas(parse, lines), AddLines(parse, a, lines))
    decreases |lines|
  {
    if lines != [] {
      AddLinesMeans(parse, AddLine(parse, a, lines[0]), lines[1..]);
      match DeltaOf(parse, lines[0]) {
        case None => assert Deltas(parse, lines) == Deltas(parse, lines[1..]);
        case Some(d) => MeansStep(a, d, Deltas(parse, lines[1..]), AddLines(parse, a, lines));
      }
    }
  }

  lemma {:induction false} RenderedDeltas(parse: Parser, ls: seq<Line>)
    requires forall i | 0 <= i < |ls| :: Proper(ls[i])
    ensures Deltas(parse, Rendered(ls)) == Carried(parse, ls)
  {
    hide DeltaOf, Trim;
    if ls == [] {
      assert Rendered(ls) == [];
    } else {
      RenderedDeltas(parse, ls[1..]);
      assert Rendered(ls)[1..] == Rendered(ls[1..]);
      match ls[0] {
        case Field(lead, gap, json, trail, cr) =>
          EventLine(parse, lead, gap, json, trail);
          assert lead + "data:" + gap + json + trail + "" == lead + "data:" + gap + json + trail;
        case Noise(text) => OtherLine(parse, text);
      }
    }
  }

  /** A response made of such lines, with an unfinished one at its end, however it is cut: the deltas sent are the
      contents of its fields, in order, and the tool calls are assembled from theirs. */
  lemma ResponseMeans(parse: Parser, ls: seq<Line>, rest: string, chunks: seq<string>, k: nat)
    requires (forall i | 0 <= i < |ls| :: Proper(ls[i])) && Free(rest, '\n', |rest|)
    requires Concat(chunks) == Unlines(Rendered(ls), '\n') + rest
    ensures var a := FeedAll(parse, Reader("", Acc("", [], [])), chunks).acc;
            var ds := Carried(parse, ls);
            && a.sent == Pieces(ds) && a.text == Concat(Pieces(ds))
            && SlotAt(a.tools, k) == Slot(NameAt(Fragments(ds), k, ""), ArgsAt(Fragments(ds), k))
  {
    hide FeedAll, Lines, Rest, Unlines, Pieces, Deltas, Carried, Fragments, Trim;
    SplitUnlines('\n', Rendered(ls), rest);
    RenderedDeltas(parse, ls);
    StreamMeans(parse, chunks, k);
  }

  // A slot that got no name makes no call.
  function OneNamed(slot: Slot): seq<Slot> { if slot.name != "" then [slot] else [] }

  // Without the fragments that never got a name, in order of index.
  function Named(tools: seq<Slot>): seq<Slot> {
    if tools == [] then [] else OneNamed(tools[0]) + Named(tools[1..])
  }

  // Argument texts that do not parse become an empty object.
  function CallsOf(parseArgs: ArgsParser, newId: IdSource, named: seq<Slot>): (cs: seq<Call>)
    ensures |cs| == |named|
  {
    seq(|named|, k requires 0 <= k < |named| =>
      Call(newId(k), named[k].name, parseArgs(named[k].args).GetOr("{}")))
  }

  function Finish(parseArgs: ArgsParser, newId: IdSource, a: Acc): Response {
    Response(if a.text == "" then None else Some(a.text), CallsOf(parseArgs, newId, Named(a.tools)))
  }

  lemma {:induction false} NamedAround(tools: seq<Slot>, k: nat)
    requires k < |tools|
    ensures Named(tools) == Named(tools[..k]) + OneNamed(tools[k]) + Named(tools[k + 1..])
    decreases k
  {
    hide OneNamed;
    if k == 0 {
      assert tools[..0] == [];
    } else {
      assert tools[1..][..k - 1] == tools[..k][1..] && tools[1..][k..] == tools[k + 1..];
      NamedAround(tools[1..], k - 1);
      assert Named(tools[..k]) == OneNamed(tools[0]) + Named(tools[1..][..k - 1]);
    }
  }

  /** The whole reader: the deltas sent concatenate to the text, and the tool call of index k has
      the last name given for k and all argument pieces given for k, in stream order. */
  lemma StreamMeans(parse: Parser, chunks: seq<string>, k: nat)
    ensures var a := FeedAll(parse, Reader("", Acc("", [], [])), chunks).acc;
            var ds := Deltas(parse, Lines(Concat(chunks), '\n'));
            && a.sent == Pieces(ds)
            && a.text == Concat(a.sent)
            && |a.tools| == Count(Fragments(ds), 0)
            && SlotAt(a.tools, k) == Slot(NameAt(Fragments(ds), k, ""), ArgsAt(Fragments(ds), k))
  {
    CutsDoNotMatter(parse, chunks);
    var lines := Lines(Concat(chunks), '\n');
    AddLinesMeans(parse, Acc("", [], []), lines);
    AddFragmentsMeans([], Fragments(Deltas(parse, lines)), k);
  }

  // The indices of the slots that got a name, in order.
  function NamedIndices(tools: seq<Slot>): seq<nat> {
    if tools == [] then []
    else
      var n := |tools| - 1;
      NamedIndices(tools[..n]) + if tools[n].name != "" then [n] else []
  }

  ghost predicate Rising(ks: seq<nat>) { forall i, j | 0 <= i < j < |ks| :: ks[i] < ks[j] }

  // ks are the indices of the slots with a name, and named those slots.
  ghost predicate Picks(tools: seq<Slot>, ks: seq<nat>, named: seq<Slot>) {
    && Rising(ks) && |named| == |ks|
    && (forall j | 0 <= j < |ks| :: ks[j] < |tools| && tools[ks[j]].name != "" && named[j] == tools[ks[j]])
    && (forall k: nat | k < |tools| && tools[k].name != "" :: k in ks)
  }

  lemma PicksNext(tools: seq<Slot>, ks: seq<nat>, named: seq<Slot>)
    requires tools != [] && Picks(tools[..|tools| - 1], ks, named)
    ensures var n := |tools| - 1;
            if tools[n].name == "" then Picks(tools, ks, named) else Picks(tools, ks + [n], named + [tools[n]])
  {
    var n := |tools| - 1;
    var before := tools[..n];
    assert forall k | 0 <= k < n :: before[k] == tools[k];
    if tools[n].name != "" {
      forall k: nat | k < |tools| && tools[k].name != "" ensures k in ks + [n] {
        assert k < n ==> before[k].name != "" && k in ks;
      }
    }
  }

  lemma NamedSnoc(tools: seq<Slot>)
    requires tools != []
    ensures var n := |tools| - 1;
            Named(tools) == Named(tools[..n]) + if tools[n].name != "" then [tools[n]] else []
  {
    hide Named;
    var n := |tools| - 1;
    NamedAround(tools, n);
    assert tools[n + 1..] == [];
    NamedNothing();
  }

  lemma {:induction false} NamedIndicesMean(tools: seq<Slot>)
    ensures Picks(tools, NamedIndices(tools), Named(tools))
  {
    hide Named, Picks;
    if tools == [] {
      assert Picks([], [], []) by { PicksNothing(); }
      NamedNothing();
    } else {
      var n := |tools| - 1;
      NamedIndicesMean(tools[..n]);
      NamedSnoc(tools);
      PicksNext(tools, NamedIndices(tools[..n]), Named(tools[..n]));
      assert Named(tools[..n]) + [] == Named(tools[..n]) && NamedIndices(tools[..n]) + [] == NamedIndices(tools[..n]);
    }
  }

  lemma PicksNothing()
    ensures Picks([], [], [])
  {}

  lemma NamedNothing()
    ensures Named([]) == []
  {}

  /** The answer has one call for each index that got a name, and no others, in order of index; its arguments are
      what all pieces given for that index, in stream order, parse to, or an empty object. */
  lemma AnswerMeans(parse: Parser, parseArgs: ArgsParser, newId: IdSource, chunks: seq<string>)
    ensures var a := FeedAll(parse, Reader("", Acc("", [], [])), chunks).acc;
            var fs := Fragments(Deltas(parse, Lines(Concat(chunks), '\n')));
            var calls, ks := Finish(parseArgs, newId, a).calls, NamedIndices(a.tools);
            && Finish(parseArgs, newId, a).text == (if a.text == "" then None else Some(a.text))
            && |calls| == |ks| && Rising(ks)
            && (forall k: nat :: k in ks <==> NameAt(fs, k, "") != "")
            && forall j | 0 <= j < |calls| ::
                 calls[j] == Call(newId(j), NameAt(fs, ks[j], ""), parseArgs(ArgsAt(fs, ks[j])).GetOr("{}"))
  {
    hide Lines, FeedAll, Named, NameAt, ArgsAt, Deltas, Fragments, Concat, NamedIndices, Pieces, Count;
    var a := FeedAll(parse, Reader("", Acc("", [], [])), chunks).acc;
    var fs := Fragments(Deltas(parse, Lines(Concat(chunks), '\n')));
    forall k: nat ensures SlotAt(a.tools, k) == Slot(NameAt(fs, k, ""), ArgsAt(fs, k)) {
      StreamMeans(parse, chunks, k);
    }
    NamedIndicesMean(a.tools);
    var ks := NamedIndices(a.tools);
    forall k: nat ensures k in ks <==> NameAt(fs, k, "") != "" {
      assert SlotAt(a.tools, k).name == NameAt(fs, k, "");
    }
    forall j | 0 <= j < |ks|
      ensures Named(a.tools)[j] == Slot(NameAt(fs, ks[j], ""), ArgsAt(fs, ks[j]))
    {
      assert SlotAt(a.tools, ks[j]) == a.tools[ks[j]];
    }
  }

  // ----- the loop itself -----

  class SseReader {
    const parse: Parser
    const parseArgs: ArgsParser
    const newId: IdSource
    var lineBuf: string
    var text: string
    var sent: seq<string>
    var toolAcc: seq<Slot>

    function State(): Reader
      reads this
    {
      Reader(lineBuf, Acc(text, sent, toolAcc))
    }

    constructor (parse: Parser, parseArgs: ArgsParser, newId: IdSource)
      ensures this.parse == parse && this.parseArgs == parseArgs && this.newId == newId
      ensures State() == Reader("", Acc("", [], []))
    {
      this.parse, this.parseArgs, this.newId := parse, parseArgs, newId;
      lineBuf, text, sent, toolAcc := "", "", [], [];
    }

    method TakeCall(f: Fragment)
      modifies this`toolAcc
      ensures toolAcc == AddFragment(old(toolAcc), f)
    {
      while |toolAcc| <= f.index
        invariant |old(toolAcc)| <= |toolAcc| && toolAcc == Padded(old(toolAcc), |toolAcc|)
        invariant |toolAcc| <= f.index + 1 || toolAcc == old(toolAcc)
      {
        toolAcc := toolAcc + [Slot("", "")];
      }
      ghost var padded := Padded(old(toolAcc), f.index + 1);
      assert toolAcc == padded;
      if f.name.Some? && f.name.value != "" {
        toolAcc := toolAcc[f.index := toolAcc[f.index].(name := f.name.value)];
      }
      if f.args.Some? {
        toolAcc := toolAcc[f.index := toolAcc[f.index].(args := toolAcc[f.index].args + f.args.value)];
      }
      assert toolAcc[f.index].args == padded[f.index].args + f.args.GetOr("");
    }

    method TakeCalls(calls: seq<Fragment>)
      modifies this`toolAcc
      ensures toolAcc == AddFragments(old(toolAcc), calls)
    {
      hide AddFragment;
      for i := 0 to |calls|
        invariant AddFragments(toolAcc, calls[i..]) == AddFragments(old(toolAcc), calls)
      {
        assert calls[i..][0] == calls[i] && calls[i..][1..] == calls[i + 1..];
        TakeCall(calls[i]);
      }
    }

    method TakeLine(line: string)
      modifies this`text, this`sent, this`toolAcc
      ensures State().acc == AddLine(parse, old(State().acc), line)
    {
      var l := line;
      if l != "" && l[|l| - 1] == '\r' {
        l := l[..|l| - 1];
      }
      l := Trim(l);
      if l == "" { return; }
      if !(PREFIX <= l) { return; }
      var data := Trim(l[|PREFIX|..]);
      if data == DONE { return; }
      var value := parse(data);
      if value == None { return; }
      if value.value.content.Some? {
        var piece := value.value.content.value;
        if piece != "" {
          text := text + piece;
          sent := sent + [piece];
        }
      }
      TakeCalls(value.value.calls);
    }

    method TakeChunk(chunk: string)
      modifies this
      ensures State() == Feed(parse, old(State()), chunk)
    {
      lineBuf := lineBuf + chunk;
      ghost var whole := lineBuf;
      ghost var acc0 := State().acc;
      var pos := Find(lineBuf, '\n');
      while pos < |lineBuf|
        invariant pos == Find(lineBuf, '\n')
        invariant AddLines(parse, State().acc, Lines(lineBuf, '\n')) == AddLines(parse, acc0, Lines(whole, '\n'))
        invariant Rest(lineBuf, '\n') == Rest(whole, '\n')
        decreases |lineBuf|
      {
        var line := lineBuf[..pos];
        ghost var lines := Lines(lineBuf, '\n');
        assert lines[0] == line && lines[1..] == Lines(lineBuf[pos + 1..], '\n');
        lineBuf := lineBuf[pos + 1..];
        TakeLine(line);
        pos := Find(lineBuf, '\n');
      }
    }

    /** The loop over the response body. A broken chunk loses the answer, not what was sent. */
    method Complete(chunks: seq<Chunk>) returns (r: Result<Response, string>)
      requires State() == Reader("", Acc("", [], []))
      modifies this
      ensures var n := FirstBroken(chunks);
              && State() == Batch(parse, Concat(Texts(chunks, n)))
              && r == if n < |chunks| then Err("stream read") else Ok(Finish(parseArgs, newId, State().acc))
    {
      hide Batch, Feed, FirstBroken;
      assert State() == Batch(parse, Concat(Texts(chunks, 0))) by { NothingYet(parse); }
      for i := 0 to |chunks|
        invariant i <= FirstBroken(chunks)
        invariant State() == Batch(parse, Concat(Texts(chunks, i)))
      {
        if chunks[i].Broken? {
          return Err("stream read");
        }
        ghost var seen := Texts(chunks, i);
        TakeChunk(chunks[i].s);
        FeedOne(parse, Concat(seen), chunks[i].s);
        ConcatAppend(seen, [chunks[i].s]);
        assert Concat([chunks[i].s]) == chunks[i].s;
      }
      r := Ok(Response(if text == "" then None else Some(text), CallsOf(parseArgs, newId, Named(toolAcc))));
    }
  }

  lemma NothingYet(parse: Parser)
    ensures Batch(parse, Concat([])) == Reader("", Acc("", [], []))
  {}

  function FirstBroken(chunks: seq<Chunk>): (n: nat)
    ensures n <= |chunks| && (forall i | 0 <= i < n :: chunks[i].Data?) && (n < |chunks| ==> chunks[n].Broken?)
  {
    if chunks == [] || chunks[0].Broken? then 0 else FirstBroken(chunks[1..]) + 1
  }

  function Texts(chunks: seq<Chunk>, n: nat): seq<string>
    requires n <= |chunks| && forall i | 0 <= i < n :: chunks[i].Data?
  {
    if n == 0 then [] else Texts(chunks, n - 1) + [chunks[n - 1].s]
  }
}
