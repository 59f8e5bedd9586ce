/** One diagnose run of the AI runtime as a step machine (handle_user_text_inner in
    crates/ai-runtime/src/lib.rs). A step is what happens between two points at which other requests,
    confirmations and grant changes may come in; the model, the tools and fresh ids are oracles. */
module AgentRun {
  import opened Common
  import opened Audit
  import P = Policy

  datatype Call = Call(id: Uuid, tool: string, args: P.Args)

  /** What the model answers in one iteration. */
  datatype Reply = Reply(text: Option<string>, calls: seq<Call>)

  datatype Culprit = Culprit(pid: nat, name: string)

  /** What a tool returns; top is the busiest process in a process list. */
  datatype Output = Output(ok: bool, error: Option<string>, top: Option<Culprit>)

  datatype Pending = Pending(callId: Uuid, tool: string, args: P.Args, summary: string)

  datatype RuntimeEvent =
    | Assistant(text: string)
    | CallEvent(callId: Uuid, tool: string, args: P.Args)
    | Policied(callId: Uuid, tool: string, verdict: string, reason: string)
    | ResultEvent(callId: Uuid, tool: string, ok: bool, error: Option<string>)
    | Confirmation(callId: Uuid, tool: string, summary: string, args: P.Args)
    | Completion(diagnosis: string)

  /** Registered tools and the iteration budget. */
  datatype Config = Config(tools: map<string, P.ToolSpec>, maxIters: nat) {
    // A tool is registered under the name in its specification.
    ghost predicate Valid() { forall t | t in tools :: tools[t].name == t }
  }

  datatype Triple = Triple(call: Record, decision: Record, result: Record)

  /** One iteration in the log: an optional message of the assistant, then its settled tool calls. */
  datatype Block = Block(note: Option<Record>, triples: seq<Triple>)

  /** Where a run stands. Called and Judged carry the records of the call in hand. */
  datatype Phase =
    | Asking
    | Working(queue: seq<Call>)
    | Called(call: Call, callRec: Record, rest: seq<Call>)
    | Judged(call: Call, decision: P.Decision, callRec: Record, decRec: Record, rest: seq<Call>)
    | Finishing
    | Asked(pending: Pending, callRec: Record, decRec: Record)
    | Completed(diagnosis: string)
    | Failed

  /** The locals of a run. blocks only arranges the records of trace; execs lists the tool executions. */
  datatype Run = Run(corr: Uuid, phase: Phase, iter: nat, trace: seq<Record>, blocks: seq<Block>, last: Uuid,
                     events: seq<RuntimeEvent>, execs: seq<Call>, summary: string,
                     metrics: bool, processList: bool, culprit: Option<Culprit>)

  datatype Act = Model(reply: Reply) | Go | Tool(out: Option<Output>) | Abort

  // ----- the code's decisions -----

  function RunDecision(cfg: Config, grants: set<string>, c: Call): P.Decision {
    if c.tool !in cfg.tools then P.Decision(P.Deny, "unknown tool `" + c.tool + "`")
    else if P.HardDeny(c.tool) then P.Decision(P.Deny, "tool `" + c.tool + "` hard-denied")
    else if P.LooksLikeInjection(c.args) && c.tool in {P.KILL, P.REBOOT} then
      P.Decision(P.Deny, "rejected suspicious arguments")
    else P.Decide(grants, cfg.tools[c.tool], c.args)
  }

  function Question(c: Call): string { "Выполнить `" + c.tool + "` с аргументами " + c.args.rendered + "?" }

  function FinalSummary(r: Run): string {
    if r.summary != "" then r.summary
    else if r.metrics && r.processList then
      match r.culprit
      case Some(c) => "Процесс " + c.name + " (pid " + Digits(c.pid) + ") выглядит главной причиной высокой нагрузки."
      case None => "Метрики собраны, но явный виновник не найден."
    else "Не удалось завершить диагностику."
  }

  function MirrorOne(rec: Record): seq<RuntimeEvent> {
    match rec.payload
    case AssistantMessage(t) => [Assistant(t)]
    case ToolCall(id, tool, args) => [CallEvent(id, tool, args)]
    case PolicyDecision(id, tool, v, reason) => [Policied(id, tool, P.VerdictName(v), reason)]
    case ToolResult(id, tool, ok, error) => [ResultEvent(id, tool, ok, error)]
    case ConfirmationRequest(id, tool, s, args) => [Confirmation(id, tool, s, args)]
    case DiagnoseResult(d) => [Completion(d)]
    case _ => []
  }

  /** Each logged record comes back as one event with the same contents, a verdict by its name. */
  lemma EventsCarryTheLog(id: Uuid, corr: Uuid, cause: Option<Uuid>, c: Call, t: string, ok: bool,
                          error: Option<string>)
    ensures MirrorOne(Record(id, corr, cause, AssistantMessage(t))) == [Assistant(t)]
    ensures MirrorOne(Record(id, corr, cause, ToolCall(c.id, c.tool, c.args))) == [CallEvent(c.id, c.tool, c.args)]
    ensures MirrorOne(Record(id, corr, cause, PolicyDecision(c.id, c.tool, P.Allow, t))) ==
            [Policied(c.id, c.tool, "allow", t)]
    ensures MirrorOne(Record(id, corr, cause, PolicyDecision(c.id, c.tool, P.Deny, t))) ==
            [Policied(c.id, c.tool, "deny", t)]
    ensures MirrorOne(Record(id, corr, cause, PolicyDecision(c.id, c.tool, P.AskUser, t))) ==
            [Policied(c.id, c.tool, "ask_user", t)]
    ensures MirrorOne(Record(id, corr, cause, ToolResult(c.id, c.tool, ok, error))) ==
            [ResultEvent(c.id, c.tool, ok, error)]
    ensures MirrorOne(Record(id, corr, cause, ConfirmationRequest(c.id, c.tool, t, c.args))) ==
            [Confirmation(c.id, c.tool, t, c.args)]
    ensures MirrorOne(Record(id, corr, cause, DiagnoseResult(t))) == [Completion(t)]
  {}

  function New(r: Run, id: Uuid, payload: Payload): Record { Record(id, r.corr, Some(r.last), payload) }

  // From r to n one record at most is added, with the given id, and nothing logged changes.
  ghost predicate Extends(r: Run, n: Run, id: Uuid) {
    && n.corr == r.corr
    && (n.trace == r.trace ||
        (|n.trace| > |r.trace| && n.trace == r.trace + [New(r, id, n.trace[|r.trace|].payload)] &&
         Eventful(n.trace[|r.trace|].payload)))
  }

  // The kinds of record that a run writes after its request.
  predicate Eventful(p: Payload) { !p.UserRequest? && !p.ConfirmationResponse? && !p.Event? }

  // Appends a record and its event.
  function Emit(r: Run, id: Uuid, payload: Payload): (n: Run)
    requires Eventful(payload)
    ensures Extends(r, n, id)
  {
    r.(trace := r.trace + [New(r, id, payload)], events := r.events + MirrorOne(New(r, id, payload)))
  }

  function Begin(corr: Uuid, id: Uuid, text: string): Run {
    Run(corr, Asking, 0, [Record(id, corr, None, UserRequest(text))], [], id, [], [], "", false, false, None)
  }

  function AddTriple(bs: seq<Block>, t: Triple): seq<Block> {
    if bs == [] then bs
    else
      var b := bs[|bs| - 1];
      bs[|bs| - 1 := b.(triples := b.triples + [t])]
  }

  function Listen(r: Run, id: Uuid, reply: Reply): (n: Run)
    ensures Extends(r, n, id)
  {
    var noted :=
      match reply.text
      case None => r.(blocks := r.blocks + [Block(None, [])])
      case Some(t) =>
        Emit(r, id, AssistantMessage(t)).(blocks := r.blocks + [Block(Some(New(r, id, AssistantMessage(t))), [])],
        last := id, summary := t);
    noted.(phase := if reply.calls == [] then Finishing else Working(reply.calls))
  }

  function CallPayload(c: Call): Payload { ToolCall(c.id, c.tool, c.args) }

  function Propose(r: Run, id: Uuid, c: Call, rest: seq<Call>): (n: Run)
    ensures Extends(r, n, id)
  {
    Emit(r, id, CallPayload(c)).(phase := Called(c, New(r, id, CallPayload(c)), rest), last := id)
  }

  function DecisionPayload(c: Call, d: P.Decision): Payload { PolicyDecision(c.id, c.tool, d.verdict, d.reason) }

  function Judge(r: Run, id: Uuid, d: P.Decision): (n: Run)
    requires r.phase.Called?
    ensures Extends(r, n, id)
  {
    var c := r.phase.call;
    Emit(r, id, DecisionPayload(c, d))
    .(phase := Judged(c, d, r.phase.callRec, New(r, id, DecisionPayload(c, d)), r.phase.rest), last := id)
  }

  // A result closes the call in hand.
  function Result(r: Run, id: Uuid, ok: bool, error: Option<string>): (n: Run)
    requires r.phase.Judged?
    ensures Extends(r, n, id)
  {
    var p := ToolResult(r.phase.call.id, r.phase.call.tool, ok, error);
    Emit(r, id, p).(phase := Working(r.phase.rest),
    blocks := AddTriple(r.blocks, Triple(r.phase.callRec, r.phase.decRec, New(r, id, p))))
  }

  function Refuse(r: Run, id: Uuid): (n: Run)
    requires r.phase.Judged?
    ensures Extends(r, n, id)
  {
    Result(r, id, false, Some(r.phase.decision.reason))
  }

  function AskUser(r: Run, id: Uuid): (n: Run)
    requires r.phase.Judged?
    ensures Extends(r, n, id)
  {
    var c := r.phase.call;
    Emit(r, id, ConfirmationRequest(c.id, c.tool, Question(c), c.args))
    .(phase := Asked(Pending(c.id, c.tool, c.args, Question(c)), r.phase.callRec, r.phase.decRec))
  }

  // The registry refuses arguments that are neither object nor null before it calls the tool.
  function Execute(r: Run, id: Uuid, out: Option<Output>): (n: Run)
    requires r.phase.Judged?
    ensures Extends(r, n, id)
  {
    var c := r.phase.call;
    var seen := r.(metrics := r.metrics || c.tool == "system.metrics",
                              processList := r.processList || c.tool == "process.list");
    if !c.args.isObject then seen.(phase := Failed)
    else
      var ran := seen.(execs := r.execs + [c]);
      match out
      case None => ran.(phase := Failed)
      case Some(o) =>
        Result(ran, id, o.ok, o.error)
        .(last := id, culprit := if c.tool == "process.list" && o.top.Some? then o.top else r.culprit)
  }

  function Conclude(r: Run, id: Uuid): (n: Run)
    ensures Extends(r, n, id)
  {
    Emit(r, id, DiagnoseResult(FinalSummary(r))).(phase := Completed(FinalSummary(r)))
  }

  // A phase from which the run goes on.
  predicate Active(r: Run) { !r.phase.Asked? && !r.phase.Completed? && !r.phase.Failed? }

  /** One step. An act that does not fit the phase changes nothing; a timeout may come at any time. */
  function Step(cfg: Config, grants: set<string>, r: Run, id: Uuid, act: Act): Run {
    if act.Abort? then (if Active(r) then r.(phase := Failed) else r)
    else
      match r.phase
      case Asking =>
        if r.iter >= cfg.maxIters then (if act == Go then r.(phase := Finishing) else r)
        else if act.Model? then Listen(r, id, act.reply)
        else r
      case Working(queue) =>
        if act != Go then r
        else if queue == [] then r.(phase := Asking, iter := r.iter + 1)
        else Propose(r, id, queue[0], queue[1..])
      case Called(c, _, _) => if act == Go then Judge(r, id, RunDecision(cfg, grants, c)) else r
      case Judged(_, d, _, _, _) =>
        (match d.verdict
         case Deny => if act == Go then Refuse(r, id) else r
         case AskUser => if act == Go then AskUser(r, id) else r
         case Allow => if act.Tool? then Execute(r, id, act.out) else r)
      case Finishing => if act == Go then Conclude(r, id) else r
      case _ => r
  }

  // ----- causes -----

  /** The id that the next message or tool call cites: the last record, or the decision before it when
      the last record is the result of a denied call. */
  function NextCause(t: seq<Record>): Uuid
    requires t != []
  {
    var n := |t|;
    if n >= 2 && t[n - 1].payload.ToolResult? && t[n - 2].payload.PolicyDecision? && t[n - 2].payload.verdict.Deny?
    then t[n - 2].id
    else t[n - 1].id
  }

  /** The request has no cause; every other record cites NextCause of what stood before it. */
  ghost predicate WellCaused(t: seq<Record>) {
    && t != [] && t[0].payload.UserRequest? && t[0].cause == None
    && forall i | 0 < i < |t| :: t[i].cause == Some(NextCause(t[..i]))
  }

  lemma CausedSnoc(t: seq<Record>, rec: Record)
    requires WellCaused(t) && rec.cause == Some(NextCause(t))
    ensures WellCaused(t + [rec])
  {
    forall i | 0 < i < |t + [rec]| ensures (t + [rec])[i].cause == Some(NextCause((t + [rec])[..i])) {
      assert (t + [rec])[..i] == t[..i];
    }
  }

  // ----- what the log says -----

  /** The returned events are the image of the log. */
  function Mirror(t: seq<Record>): seq<RuntimeEvent> {
    if t == [] then [] else Mirror(t[..|t| - 1]) + MirrorOne(t[|t| - 1])
  }

  // The calls of the trace that were allowed, in order.
  function AllowedCalls(t: seq<Record>): seq<Call> {
    if |t| < 2 then [] else AllowedCalls(t[..|t| - 1]) + AllowedBy(t[|t| - 2], t[|t| - 1])
  }

  // d allows the call that c proposes.
  predicate Allows(c: Record, d: Record) {
    && c.payload.ToolCall? && d.payload.PolicyDecision? && d.payload.verdict.Allow?
    && d.payload.callId == c.payload.callId && d.payload.tool == c.payload.tool && d.cause == Some(c.id)
  }

  function AllowedBy(c: Record, d: Record): seq<Call> {
    if Allows(c, d) then [Call(c.payload.callId, c.payload.tool, c.payload.args)] else []
  }

  ghost predicate Permitted(cfg: Config, c: Call) { c.tool in cfg.tools && !P.Denied(cfg.tools[c.tool], c.args) }

  // The last record, and the cause that goes with it.
  ghost predicate Tip(r: Run) {
    && WellCaused(r.trace)
    && (Active(r) ==> r.last == NextCause(r.trace))
    && (r.phase.Called? ==>
          r.trace[|r.trace| - 1] == r.phase.callRec && r.phase.callRec.payload == CallPayload(r.phase.call))
    && (r.phase.Judged? ==>
          && r.trace[|r.trace| - 1] == r.phase.decRec
          && r.phase.decRec.payload == DecisionPayload(r.phase.call, r.phase.decision))
  }

  ghost predicate EventInv(r: Run) { r.events == Mirror(r.trace) && |r.events| == |r.trace| - 1 }

  predicate ToExecute(r: Run) { r.phase.Judged? && r.phase.decision.verdict.Allow? }

  /** The tools a run executed are those its log allows, in order, except that the last one may still
      be to come or, in a failed run, may have been refused for its arguments. */
  ghost predicate ExecInv(cfg: Config, r: Run) {
    && (ToExecute(r) ==> AllowedCalls(r.trace) == r.execs + [r.phase.call] && Permitted(cfg, r.phase.call))
    && (!ToExecute(r) && !r.phase.Failed? ==> AllowedCalls(r.trace) == r.execs)
    && r.execs <= AllowedCalls(r.trace) && |AllowedCalls(r.trace)| <= |r.execs| + 1
    && (forall i | 0 <= i < |r.execs| :: Permitted(cfg, r.execs[i]))
  }

  /** What a dry-run replay of the run's own records reports. */
  ghost predicate ReplayInv(r: Run) {
    && (Active(r) ==> Replay(r.trace).pending == None)
    && (r.phase.Asked? ==> Replay(r.trace).pending == Some(r.phase.pending.summary))
    && (r.phase.Completed? ==>
          Replay(r.trace).pending == None && Replay(r.trace).summary == Some(r.phase.diagnosis))
    && (!r.phase.Failed? ==>
          Asks(r.trace) == if r.phase.Asked? || (r.phase.Judged? && r.phase.decision.verdict.AskUser?) then 1 else 0)
  }

  ghost predicate LogInv(cfg: Config, r: Run) { Tip(r) && EventInv(r) && ExecInv(cfg, r) && ReplayInv(r) }

  /** What one more record does to everything that is read off the log. */
  lemma EmitFacts(r: Run, id: Uuid, p: Payload)
    requires r.trace != [] && Eventful(p)
    ensures var n, rec, end := Emit(r, id, p), New(r, id, p), r.trace[|r.trace| - 1];
            && n.trace[..|r.trace|] == r.trace && n.trace[|r.trace|] == rec
            && (WellCaused(r.trace) && r.last == NextCause(r.trace) ==> WellCaused(n.trace))
            && NextCause(n.trace) ==
               (if p.ToolResult? && end.payload.PolicyDecision? && end.payload.verdict.Deny? then end.id else id)
            && (!end.payload.ToolResult? ==> NextCause(r.trace) == end.id)
            && (EventInv(r) ==> EventInv(n))
            && AllowedCalls(n.trace) == AllowedCalls(r.trace) + AllowedBy(end, rec)
            && Replay(n.trace) == ReplayOne(Replay(r.trace), rec)
            && Asks(n.trace) == Asks(r.trace) + if IsAsk(rec) then 1 else 0
  {
    var n, rec := Emit(r, id, p), New(r, id, p);
    assert n.trace[..|r.trace|] == r.trace;
    if WellCaused(r.trace) && r.last == NextCause(r.trace) {
      CausedSnoc(r.trace, rec);
    }
  }

  lemma BeginLog(cfg: Config, corr: Uuid, id: Uuid, text: string)
    ensures LogInv(cfg, Begin(corr, id, text))
  {
    var r := Begin(corr, id, text);
    assert r.trace[..0] == [];
    assert Mirror(r.trace) == Mirror([]) + MirrorOne(r.trace[0]);
  }

  lemma ListenLog(cfg: Config, r: Run, id: Uuid, reply: Reply)
    requires LogInv(cfg, r) && r.phase.Asking?
    ensures LogInv(cfg, Listen(r, id, reply))
  {
    hide WellCaused, NextCause, Mirror, AllowedCalls, Replay, Asks, Permitted, Extends;
    if reply.text.Some? {
      EmitFacts(r, id, AssistantMessage(reply.text.value));
    }
  }

  lemma ProposeLog(cfg: Config, r: Run, id: Uuid, c: Call, rest: seq<Call>)
    requires LogInv(cfg, r) && r.phase.Working?
    ensures LogInv(cfg, Propose(r, id, c, rest))
  {
    hide WellCaused, NextCause, Mirror, AllowedCalls, Replay, Asks, Permitted, Extends;
    EmitFacts(r, id, CallPayload(c));
  }

  lemma JudgeLog(cfg: Config, r: Run, id: Uuid, d: P.Decision)
    requires LogInv(cfg, r) && r.phase.Called? && (d.verdict.Allow? ==> Permitted(cfg, r.phase.call))
    ensures LogInv(cfg, Judge(r, id, d))
  {
    hide WellCaused, NextCause, Mirror, AllowedCalls, Replay, Asks, Permitted, Extends;
    EmitFacts(r, id, DecisionPayload(r.phase.call, d));
  }

  lemma RefuseLog(cfg: Config, r: Run, id: Uuid)
    requires LogInv(cfg, r) && r.phase.Judged? && r.phase.decision.verdict.Deny?
    ensures LogInv(cfg, Refuse(r, id))
  {
    hide WellCaused, NextCause, Mirror, AllowedCalls, Replay, Asks, Permitted, Extends;
    EmitFacts(r, id, ToolResult(r.phase.call.id, r.phase.call.tool, false, Some(r.phase.decision.reason)));
  }

  lemma AskLog(cfg: Config, r: Run, id: Uuid)
    requires LogInv(cfg, r) && r.phase.Judged? && r.phase.decision.verdict.AskUser?
    ensures LogInv(cfg, AskUser(r, id))
  {
    hide WellCaused, NextCause, Mirror, AllowedCalls, Replay, Asks, Permitted, Extends;
    var c := r.phase.call;
    EmitFacts(r, id, ConfirmationRequest(c.id, c.tool, Question(c), c.args));
  }

  // An execution that ends the run: refused arguments, or a tool that fails.
  lemma FailedExecuteLog(cfg: Config, r: Run, id: Uuid, out: Option<Output>)
    requires LogInv(cfg, r) && ToExecute(r) && (out == None || !r.phase.call.args.isObject)
    ensures LogInv(cfg, Execute(r, id, out))
  {
    hide WellCaused, NextCause, Mirror, AllowedCalls, Replay, Asks, Permitted, Extends, MirrorOne, AddTriple;
  }

  lemma ExecuteLog(cfg: Config, r: Run, id: Uuid, out: Option<Output>)
    requires LogInv(cfg, r) && ToExecute(r)
    ensures LogInv(cfg, Execute(r, id, out))
  {
    hide WellCaused, NextCause, Mirror, AllowedCalls, Replay, Asks, Permitted, Extends, MirrorOne, AddTriple;
    var c := r.phase.call;
    if out == None || !c.args.isObject {
      FailedExecuteLog(cfg, r, id, out);
    } else {
      var n, p := Execute(r, id, out), ToolResult(c.id, c.tool, out.value.ok, out.value.error);
      EmitFacts(r, id, p);
      assert n.trace == Emit(r, id, p).trace && n.execs == r.execs + [c];
      assert ExecInv(cfg, n) by {
        assert AllowedCalls(n.trace) == n.execs + [];
      }
    }
  }

  lemma ConcludeLog(cfg: Config, r: Run, id: Uuid)
    requires LogInv(cfg, r) && r.phase.Finishing?
    ensures LogInv(cfg, Conclude(r, id))
  {
    hide WellCaused, NextCause, Mirror, AllowedCalls, Replay, Asks, Permitted, Extends, FinalSummary;
    EmitFacts(r, id, DiagnoseResult(FinalSummary(r)));
  }

  lemma AllowedIsPermitted(cfg: Config, grants: set<string>, c: Call)
    requires cfg.Valid() && RunDecision(cfg, grants, c).verdict.Allow?
    ensures Permitted(cfg, c)
  {
    hide P.LooksLikeInjection;
    P.GrantsNeverTouchDenial(grants, {}, cfg.tools[c.tool], c.args);
  }

  // Steps that log nothing.
  lemma QuietLog(cfg: Config, r: Run)
    requires LogInv(cfg, r)
    ensures Active(r) ==> LogInv(cfg, r.(phase := Failed))
    ensures r.phase.Asking? ==> LogInv(cfg, r.(phase := Finishing))
    ensures r.phase == Working([]) ==> LogInv(cfg, r.(phase := Asking, iter := r.iter + 1))
  {
    hide WellCaused, NextCause, Mirror, AllowedCalls, Replay, Asks, Permitted;
  }

  lemma StepLog(cfg: Config, grants: set<string>, r: Run, id: Uuid, act: Act)
    requires cfg.Valid() && LogInv(cfg, r)
    ensures LogInv(cfg, Step(cfg, grants, r, id, act))
  {
    hide LogInv, RunDecision, Extends, Permitted;
    QuietLog(cfg, r);
    hide Listen, Propose, Judge, Refuse, AskUser, Execute, Conclude;
    if !act.Abort? {
      match r.phase {
        case Asking => if r.iter < cfg.maxIters && act.Model? { ListenLog(cfg, r, id, act.reply); }
        case Working(queue) => if act == Go && queue != [] { ProposeLog(cfg, r, id, queue[0], queue[1..]); }
        case Called(c, _, _) =>
          var d := RunDecision(cfg, grants, c);
          if d.verdict.Allow? { AllowedIsPermitted(cfg, grants, c); }
          JudgeLog(cfg, r, id, d);
        case Judged(_, d, _, _, _) =>
          match d.verdict {
            case Deny => RefuseLog(cfg, r, id);
            case AskUser => AskLog(cfg, r, id);
            case Allow => if act.Tool? { ExecuteLog(cfg, r, id, act.out); }
          }
        case Finishing => ConcludeLog(cfg, r, id);
        case _ =>
      }
    }
  }

  // ----- shape -----

  function TripleRecords(ts: seq<Triple>): seq<Record> {
    if ts == [] then []
    else
      var t := ts[|ts| - 1];
      TripleRecords(ts[..|ts| - 1]) + [t.call, t.decision, t.result]
  }

  function BlockRecords(b: Block): seq<Record> {
    (match b.note case None => [] case Some(n) => [n]) + TripleRecords(b.triples)
  }

  function Flatten(bs: seq<Block>): seq<Record> {
    if bs == [] then [] else Flatten(bs[..|bs| - 1]) + BlockRecords(bs[|bs| - 1])
  }

  // A call and the decision on it.
  predicate Linked(call: Record, decision: Record) {
    && call.payload.ToolCall? && decision.payload.PolicyDecision?
    && decision.payload.callId == call.payload.callId && decision.payload.tool == call.payload.tool
    && decision.cause == Some(call.id)
  }

  /** A settled call: result and decision name the call, and each is caused by the one before. */
  predicate Settled(t: Triple) {
    && Linked(t.call, t.decision) && t.result.payload.ToolResult?
    && t.result.payload.callId == t.call.payload.callId && t.result.payload.tool == t.call.payload.tool
    && t.result.cause == Some(t.decision.id)
    && !t.decision.payload.verdict.AskUser?
    && (t.decision.payload.verdict.Deny? ==>
          !t.result.payload.ok && t.result.payload.error == Some(t.decision.payload.reason))
  }

  predicate GoodBlock(b: Block) {
    && (b.note.Some? ==> b.note.value.payload.AssistantMessage?)
    && forall i | 0 <= i < |b.triples| :: Settled(b.triples[i])
  }

  ghost predicate GoodBlocks(bs: seq<Block>) { forall i | 0 <= i < |bs| :: GoodBlock(bs[i]) }

  // The first n iterations all called a tool.
  ghost predicate BusyBlocks(bs: seq<Block>, n: int) { forall i | 0 <= i < n && i < |bs| :: bs[i].triples != [] }

  // The last iteration called no tool.
  predicate Quiet(bs: seq<Block>) { bs != [] && bs[|bs| - 1].triples == [] }

  /** The log of a run that ended: the request, at most maxIters blocks, all but the last with a tool
      call, and then the diagnosis or an unanswered question. A diagnosis comes when an iteration called no
      tool, or after the last iteration allowed. */
  ghost predicate OkShape(maxIters: nat, t: seq<Record>, bs: seq<Block>, asked: bool) {
    && |bs| <= maxIters && GoodBlocks(bs) && BusyBlocks(bs, |bs| - 1)
    && t != [] && t[0].payload.UserRequest?
    && var n := 1 + |Flatten(bs)|;
    && |t| == n + (if asked then 3 else 1) && t[1..n] == Flatten(bs)
    && (!asked ==> t[n].payload.DiagnoseResult? && (|bs| == maxIters || Quiet(bs)))
    && (asked ==>
          && Linked(t[n], t[n + 1]) && t[n + 1].payload.verdict.AskUser? && t[n + 2].cause == Some(t[n + 1].id)
          && t[n + 2].payload.ConfirmationRequest? && t[n + 2].payload.callId == t[n].payload.callId
          && t[n + 2].payload.tool == t[n].payload.tool && t[n + 2].payload.args == t[n].payload.args)
  }

  // The records of the call in hand.
  function Open(p: Phase): seq<Record> {
    match p
    case Called(_, callRec, _) => [callRec]
    case Judged(_, _, callRec, decRec, _) => [callRec, decRec]
    case _ => []
  }

  ghost predicate OpenFits(r: Run) {
    match r.phase
    case Called(c, callRec, _) => callRec.payload == CallPayload(c) && r.last == callRec.id
    case Judged(c, d, callRec, decRec, _) =>
      && callRec.payload == CallPayload(c) && decRec.payload == DecisionPayload(c, d)
      && Linked(callRec, decRec) && r.last == decRec.id
    case _ => true
  }

  // How many blocks there are, and which of them have calls.
  ghost predicate BlocksFit(cfg: Config, r: Run) {
    match r.phase
    case Asking => |r.blocks| == r.iter <= cfg.maxIters && BusyBlocks(r.blocks, |r.blocks|)
    case Finishing =>
      |r.blocks| <= cfg.maxIters && BusyBlocks(r.blocks, |r.blocks| - 1) &&
      (|r.blocks| == cfg.maxIters || Quiet(r.blocks))
    case Working(queue) =>
      && |r.blocks| == r.iter + 1 <= cfg.maxIters && BusyBlocks(r.blocks, |r.blocks| - 1)
      && (queue == [] ==> BusyBlocks(r.blocks, |r.blocks|))
    case Called(_, _, _) => |r.blocks| == r.iter + 1 <= cfg.maxIters && BusyBlocks(r.blocks, |r.blocks| - 1)
    case Judged(_, _, _, _, _) => |r.blocks| == r.iter + 1 <= cfg.maxIters && BusyBlocks(r.blocks, |r.blocks| - 1)
    case _ => |r.blocks| <= cfg.maxIters && BusyBlocks(r.blocks, |r.blocks| - 1)
  }

  ghost predicate ShapeInv(cfg: Config, r: Run) {
    && r.trace != [] && r.trace[0].payload.UserRequest? && GoodBlocks(r.blocks)
    && OpenFits(r) && BlocksFit(cfg, r)
    && (Active(r) ==> r.trace == [r.trace[0]] + Flatten(r.blocks) + Open(r.phase))
    && (r.phase.Asked? ==> OkShape(cfg.maxIters, r.trace, r.blocks, true))
    && (r.phase.Completed? ==> OkShape(cfg.maxIters, r.trace, r.blocks, false))
  }

  lemma FlattenSnoc(bs: seq<Block>, b: Block)
    ensures Flatten(bs + [b]) == Flatten(bs) + BlockRecords(b)
  {
    assert (bs + [b])[..|bs|] == bs;
  }

  lemma TriplesSnoc(ts: seq<Triple>, t: Triple)
    ensures TripleRecords(ts + [t]) == TripleRecords(ts) + [t.call, t.decision, t.result]
  {
    assert (ts + [t])[..|ts|] == ts;
  }

  lemma FlattenAddTriple(bs: seq<Block>, t: Triple)
    requires bs != []
    ensures Flatten(AddTriple(bs, t)) == Flatten(bs) + [t.call, t.decision, t.result]
  {
    hide TripleRecords;
    var n := |bs| - 1;
    var b := bs[n];
    assert AddTriple(bs, t)[..n] == bs[..n];
    TriplesSnoc(b.triples, t);
  }

  lemma AddTripleKeepsGood(bs: seq<Block>, t: Triple)
    requires bs != [] && GoodBlocks(bs) && Settled(t) && BusyBlocks(bs, |bs| - 1)
    ensures GoodBlocks(AddTriple(bs, t)) && BusyBlocks(AddTriple(bs, t), |bs|)
    ensures |AddTriple(bs, t)| == |bs|
  {
    hide Settled;
    assert forall i | 0 <= i < |bs| - 1 :: AddTriple(bs, t)[i] == bs[i];
  }

  lemma BeginShape(cfg: Config, corr: Uuid, id: Uuid, text: string)
    ensures ShapeInv(cfg, Begin(corr, id, text))
  {
    var r := Begin(corr, id, text);
    assert r.trace == [r.trace[0]] + Flatten([]) + [];
  }

  // A new block for a new iteration.
  lemma AddBlockShape(cfg: Config, r: Run, n: Run, b: Block)
    requires ShapeInv(cfg, r) && r.phase.Asking? && r.iter < cfg.maxIters
    requires n.blocks == r.blocks + [b] && n.trace == r.trace + BlockRecords(b) && n.iter == r.iter
    requires GoodBlock(b) && ((n.phase.Finishing? && b.triples == []) || (n.phase.Working? && n.phase.queue != []))
    ensures ShapeInv(cfg, n)
  {
    hide Flatten, GoodBlock, OkShape, BlockRecords;
    FlattenSnoc(r.blocks, b);
    assert n.trace == [n.trace[0]] + Flatten(n.blocks) + [];
  }

  lemma ListenShape(cfg: Config, r: Run, id: Uuid, reply: Reply)
    requires ShapeInv(cfg, r) && r.phase.Asking? && r.iter < cfg.maxIters
    ensures ShapeInv(cfg, Listen(r, id, reply))
  {
    hide ShapeInv, Extends, MirrorOne;
    var n := Listen(r, id, reply);
    var b := n.blocks[|r.blocks|];
    assert n.trace == r.trace + BlockRecords(b);
    AddBlockShape(cfg, r, n, b);
  }

  lemma ProposeShape(cfg: Config, r: Run, id: Uuid, c: Call, rest: seq<Call>)
    requires ShapeInv(cfg, r) && r.phase.Working?
    ensures ShapeInv(cfg, Propose(r, id, c, rest))
  {
    hide Flatten, GoodBlocks, BusyBlocks, OkShape, MirrorOne;
    var n := Propose(r, id, c, rest);
    assert n.trace == [n.trace[0]] + Flatten(n.blocks) + Open(n.phase);
  }

  lemma JudgeShape(cfg: Config, r: Run, id: Uuid, d: P.Decision)
    requires ShapeInv(cfg, r) && r.phase.Called?
    ensures ShapeInv(cfg, Judge(r, id, d))
  {
    hide Flatten, GoodBlocks, BusyBlocks, OkShape, MirrorOne;
    var n := Judge(r, id, d);
    assert n.trace == [n.trace[0]] + Flatten(n.blocks) + Open(n.phase);
  }

  // A result that fits the decision closes the call; last may move on or stay.
  lemma ResultShape(cfg: Config, r: Run, id: Uuid, ok: bool, error: Option<string>, n: Run)
    requires ShapeInv(cfg, r) && r.phase.Judged? && !r.phase.decision.verdict.AskUser?
    requires r.phase.decision.verdict.Deny? ==> !ok && error == Some(r.phase.decision.reason)
    requires var e := Result(r, id, ok, error);
             n.trace == e.trace && n.blocks == e.blocks && n.phase == e.phase && n.iter == r.iter
    ensures ShapeInv(cfg, n)
  {
    hide Flatten, GoodBlocks, BusyBlocks, OkShape, MirrorOne, AddTriple, Extends;
    var p := ToolResult(r.phase.call.id, r.phase.call.tool, ok, error);
    var t := Triple(r.phase.callRec, r.phase.decRec, New(r, id, p));
    FlattenAddTriple(r.blocks, t);
    AddTripleKeepsGood(r.blocks, t);
    assert n.trace == [n.trace[0]] + Flatten(n.blocks) + [];
    BusyLess(n.blocks);
  }

  lemma RefuseShape(cfg: Config, r: Run, id: Uuid)
    requires ShapeInv(cfg, r) && r.phase.Judged? && r.phase.decision.verdict.Deny?
    ensures ShapeInv(cfg, Refuse(r, id))
  {
    hide ShapeInv, Extends, MirrorOne, AddTriple;
    ResultShape(cfg, r, id, false, Some(r.phase.decision.reason), Refuse(r, id));
  }

  lemma ExecuteShape(cfg: Config, r: Run, id: Uuid, out: Option<Output>)
    requires ShapeInv(cfg, r) && ToExecute(r)
    ensures ShapeInv(cfg, Execute(r, id, out))
  {
    hide ShapeInv, Extends, MirrorOne, AddTriple;
    QuietShape(cfg, r);
    if out.Some? && r.phase.call.args.isObject {
      ResultShape(cfg, r, id, out.value.ok, out.value.error, Execute(r, id, out));
    }
  }

  lemma AskShape(cfg: Config, r: Run, id: Uuid)
    requires ShapeInv(cfg, r) && r.phase.Judged? && r.phase.decision.verdict.AskUser?
    ensures ShapeInv(cfg, AskUser(r, id))
  {
    hide Flatten, GoodBlocks, BusyBlocks, MirrorOne;
    var n := AskUser(r, id);
    var k := 1 + |Flatten(r.blocks)|;
    assert n.trace == [r.trace[0]] + Flatten(r.blocks) + Open(r.phase) + [n.trace[|r.trace|]];
    assert n.trace[1..k] == Flatten(r.blocks);
    assert n.trace[k] == r.phase.callRec && n.trace[k + 1] == r.phase.decRec;
  }

  lemma ConcludeShape(cfg: Config, r: Run, id: Uuid)
    requires ShapeInv(cfg, r) && r.phase.Finishing?
    ensures ShapeInv(cfg, Conclude(r, id))
  {
    hide Flatten, GoodBlocks, BusyBlocks, MirrorOne, FinalSummary;
    var n := Conclude(r, id);
    var k := 1 + |Flatten(r.blocks)|;
    assert n.trace == [r.trace[0]] + Flatten(r.blocks) + [n.trace[|r.trace|]];
    assert n.trace[1..k] == Flatten(r.blocks);
  }

  lemma StepShape(cfg: Config, grants: set<string>, r: Run, id: Uuid, act: Act)
    requires ShapeInv(cfg, r)
    ensures ShapeInv(cfg, Step(cfg, grants, r, id, act))
  {
    hide ShapeInv, RunDecision, Listen, Propose, Judge, AskUser, Conclude, Refuse, Execute, Extends;
    QuietShape(cfg, r);
    if !act.Abort? {
      match r.phase {
        case Asking => if r.iter < cfg.maxIters && act.Model? { ListenShape(cfg, r, id, act.reply); }
        case Working(queue) => if act == Go && queue != [] { ProposeShape(cfg, r, id, queue[0], queue[1..]); }
        case Called(c, _, _) => JudgeShape(cfg, r, id, RunDecision(cfg, grants, c));
        case Judged(_, d, _, _, _) =>
          match d.verdict {
            case Deny => RefuseShape(cfg, r, id);
            case AskUser => AskShape(cfg, r, id);
            case Allow => if act.Tool? { ExecuteShape(cfg, r, id, act.out); }
          }
        case Finishing => ConcludeShape(cfg, r, id);
        case _ =>
      }
    }
  }

  // Steps that log nothing.
  lemma QuietShape(cfg: Config, r: Run)
    requires ShapeInv(cfg, r)
    ensures Active(r) ==> ShapeInv(cfg, r.(phase := Failed))
    ensures r.phase.Asking? && r.iter >= cfg.maxIters ==> ShapeInv(cfg, r.(phase := Finishing))
    ensures r.phase == Working([]) ==> ShapeInv(cfg, r.(phase := Asking, iter := r.iter + 1))
    ensures r.phase.Judged? ==> forall e: seq<Call>, m: bool, p: bool ::
                ShapeInv(cfg, r.(phase := Failed, execs := e, metrics := m, processList := p))
  {
    hide Flatten, GoodBlocks, OkShape;
    BusyLess(r.blocks);
  }

  lemma BusyLess(bs: seq<Block>)
    ensures BusyBlocks(bs, |bs|) ==> BusyBlocks(bs, |bs| - 1)
  {}

  // ----- all of it -----

  ghost predicate RunInv(cfg: Config, r: Run) { LogInv(cfg, r) && ShapeInv(cfg, r) }

  /** A step adds one record at most, and executes one tool at most, the one just allowed. */
  lemma StepAppends(cfg: Config, grants: set<string>, r: Run, id: Uuid, act: Act)
    ensures var n := Step(cfg, grants, r, id, act);
            && Extends(r, n, id)
            && (n.execs == r.execs || (ToExecute(r) && n.execs == r.execs + [r.phase.call]))
  {
    hide RunDecision, MirrorOne, FinalSummary, AddTriple, Question, Extends, New;
    SameExtends(r, r, id);
    SameExtends(r, r.(phase := Failed), id);
    SameExtends(r, r.(phase := Finishing), id);
    SameExtends(r, r.(phase := Asking, iter := r.iter + 1), id);
  }

  lemma SameExtends(r: Run, n: Run, id: Uuid)
    requires n.corr == r.corr && n.trace == r.trace
    ensures Extends(r, n, id)
  {}
}
