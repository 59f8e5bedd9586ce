/** What a run makes of the model's replies and the tools' outputs (handle_user_text_inner in
    crates/ai-runtime/src/lib.rs), over all interleavings: the texts and calls it logs, the results, and the diagnosis
    it ends with. */
module Answers {
  import opened Common
  import opened Audit
  import opened AgentRun
  import opened Runtime
  import P = Policy

  // ----- the replies of the model -----

  // The reply that run c takes in with action a.
  function Taken(cfg: Config, s: System, a: Action, c: Uuid): Option<Reply> {
    if a.RunAct? && a.corr == c && c in s.runs && s.runs[c].phase.Asking? &&
       s.runs[c].iter < cfg.maxIters && a.act.Model?
    then Some(a.act.reply) else None
  }

  function Replies(cfg: Config, acts: seq<Action>, c: Uuid): seq<Reply> {
    if acts == [] then []
    else
      var n := |acts| - 1;
      Replies(cfg, acts[..n], c) +
      match Taken(cfg, After(cfg, acts[..n]), acts[n], c)
      case None => []
      case Some(reply) => [reply]
  }

  function Said(rs: seq<Reply>): seq<string> {
    if rs == [] then [] else Said(rs[..|rs| - 1]) + SaidIn(rs[|rs| - 1])
  }

  function SaidIn(reply: Reply): seq<string> { if reply.text.Some? then [reply.text.value] else [] }

  function Proposed(rs: seq<Reply>): seq<Call> {
    if rs == [] then [] else Proposed(rs[..|rs| - 1]) + rs[|rs| - 1].calls
  }

  // ----- what the log of a run says of them -----

  function Notes(t: seq<Record>): seq<string> {
    if t == [] then [] else Notes(t[..|t| - 1]) + NoteIn(t[|t| - 1].payload)
  }

  function NoteIn(p: Payload): seq<string> { if p.AssistantMessage? then [p.text] else [] }

  function Proposals(t: seq<Record>): seq<Call> {
    if t == [] then [] else Proposals(t[..|t| - 1]) + ProposalIn(t[|t| - 1].payload)
  }

  function ProposalIn(p: Payload): seq<Call> { if p.ToolCall? then [Call(p.callId, p.tool, p.args)] else [] }

  lemma LogSnoc(t: seq<Record>, rec: Record)
    ensures Notes(t + [rec]) == Notes(t) + NoteIn(rec.payload)
    ensures Proposals(t + [rec]) == Proposals(t) + ProposalIn(rec.payload)
  {
    assert (t + [rec])[..|t|] == t;
  }

  // The calls of the current reply that have not been proposed yet.
  function Waiting(p: Phase): seq<Call> {
    match p
    case Working(queue) => queue
    case Called(_, _, rest) => rest
    case Judged(_, _, _, _, rest) => rest
    case _ => []
  }

  function LastOf(ts: seq<string>): string { if ts == [] then "" else ts[|ts| - 1] }

  /** The log of run r tells the replies rs: their texts, and their calls in the order of the model, up to those that
      wait; a question or a failure may drop the rest. */
  ghost predicate Tells(r: Run, rs: seq<Reply>) {
    && Notes(r.trace) == Said(rs)
    && (r.phase.Asked? || r.phase.Failed? ==> Proposals(r.trace) <= Proposed(rs))
    && (!r.phase.Asked? && !r.phase.Failed? ==> Proposals(r.trace) + Waiting(r.phase) == Proposed(rs))
    && r.summary == LastOf(Notes(r.trace))
  }

  lemma SaidSnoc(rs: seq<Reply>, reply: Reply)
    ensures Said(rs + [reply]) == Said(rs) + SaidIn(reply) && Proposed(rs + [reply]) == Proposed(rs) + reply.calls
  {
    assert (rs + [reply])[..|rs|] == rs;
  }

  lemma BeginTells(corr: Uuid, id: Uuid, text: string)
    ensures Tells(Begin(corr, id, text), [])
  {
    var r := Begin(corr, id, text);
    assert r.trace[..0] == [];
  }

  lemma ListenTells(r: Run, id: Uuid, reply: Reply, rs: seq<Reply>)
    requires Tells(r, rs) && r.phase.Asking?
    ensures Tells(Listen(r, id, reply), rs + [reply])
  {
    hide MirrorOne, Extends, Said, Proposed, Notes, Proposals;
    SaidSnoc(rs, reply);
    var n := Listen(r, id, reply);
    assert Proposals(r.trace) + [] == Proposals(r.trace);
    if reply.text.Some? {
      LogSnoc(r.trace, New(r, id, AssistantMessage(reply.text.value)));
    } else {
      assert Said(rs) + [] == Said(rs);
    }
    assert Proposals(r.trace) + [] + reply.calls == Proposals(r.trace) + reply.calls;
  }

  lemma ProposeTells(r: Run, id: Uuid, c: Call, rest: seq<Call>, rs: seq<Reply>)
    requires Tells(r, rs) && r.phase == Working([c] + rest)
    ensures Tells(Propose(r, id, c, rest), rs)
  {
    hide MirrorOne, Extends, Said, Proposed, Notes, Proposals;
    LogSnoc(r.trace, New(r, id, CallPayload(c)));
    assert Call(c.id, c.tool, c.args) == c;
    assert Notes(r.trace) + [] == Notes(r.trace);
    assert Proposals(r.trace) + [c] + rest == Proposals(r.trace) + ([c] + rest);
  }

  // A step that neither listens nor proposes; it may go over to the next iteration or to the end.
  lemma OtherTells(r: Run, n: Run, rec: Record, rs: seq<Reply>)
    requires Tells(r, rs) && !r.phase.Asked? && !r.phase.Failed?
    requires n.trace == r.trace ||
             (n.trace == r.trace + [rec] && !rec.payload.ToolCall? && !rec.payload.AssistantMessage?)
    requires n.summary == r.summary && (n.phase.Asked? || n.phase.Failed? || Waiting(n.phase) == Waiting(r.phase))
    ensures Tells(n, rs)
  {
    hide Said, Proposed, Notes, Proposals;
    LogSnoc(r.trace, rec);
    assert Notes(r.trace) + [] == Notes(r.trace) && Proposals(r.trace) + [] == Proposals(r.trace);
  }

  function NextReplies(cfg: Config, r: Run, act: Act, rs: seq<Reply>): seq<Reply> {
    if r.phase.Asking? && r.iter < cfg.maxIters && act.Model? then rs + [act.reply] else rs
  }

  lemma JudgeTells(r: Run, id: Uuid, d: P.Decision, rs: seq<Reply>)
    requires Tells(r, rs) && r.phase.Called?
    ensures Tells(Judge(r, id, d), rs)
  {
    hide Tells, MirrorOne, Extends;
    OtherTells(r, Judge(r, id, d), New(r, id, DecisionPayload(r.phase.call, d)), rs);
  }

  lemma RefuseTells(r: Run, id: Uuid, rs: seq<Reply>)
    requires Tells(r, rs) && r.phase.Judged?
    ensures Tells(Refuse(r, id), rs)
  {
    hide Tells, MirrorOne, Extends, AddTriple;
    var n := Refuse(r, id);
    OtherTells(r, n, n.trace[|r.trace|], rs);
  }

  lemma AskTells(r: Run, id: Uuid, rs: seq<Reply>)
    requires Tells(r, rs) && r.phase.Judged?
    ensures Tells(AskUser(r, id), rs)
  {
    hide Tells, MirrorOne, Extends, Question;
    var n := AskUser(r, id);
    OtherTells(r, n, n.trace[|r.trace|], rs);
  }

  lemma ExecuteTells(r: Run, id: Uuid, out: Option<Output>, rs: seq<Reply>)
    requires Tells(r, rs) && r.phase.Judged?
    ensures Tells(Execute(r, id, out), rs)
  {
    hide Tells, MirrorOne, Extends, AddTriple;
    var n := Execute(r, id, out);
    OtherTells(r, n, if |n.trace| > |r.trace| then n.trace[|r.trace|] else Record(0, 0, None, Event("")), rs);
  }

  lemma ConcludeTells(r: Run, id: Uuid, rs: seq<Reply>)
    requires Tells(r, rs) && r.phase.Finishing?
    ensures Tells(Conclude(r, id), rs)
  {
    hide Tells, MirrorOne, Extends, FinalSummary;
    OtherTells(r, Conclude(r, id), New(r, id, DiagnoseResult(FinalSummary(r))), rs);
  }

  // Steps that log nothing.
  lemma QuietTells(r: Run, rs: seq<Reply>)
    requires Tells(r, rs)
    ensures Active(r) ==> Tells(r.(phase := Failed), rs)
    ensures r.phase.Asking? ==> Tells(r.(phase := Finishing), rs)
    ensures r.phase == Working([]) ==> Tells(r.(phase := Asking, iter := r.iter + 1), rs)
  {
    hide Tells;
    var rec := Record(0, 0, None, Event(""));
    if Active(r) { OtherTells(r, r.(phase := Failed), rec, rs); }
    if r.phase.Asking? { OtherTells(r, r.(phase := Finishing), rec, rs); }
    if r.phase == Working([]) { OtherTells(r, r.(phase := Asking, iter := r.iter + 1), rec, rs); }
  }

  lemma StepTells(cfg: Config, grants: set<string>, r: Run, id: Uuid, act: Act, rs: seq<Reply>)
    requires Tells(r, rs)
    ensures Tells(Step(cfg, grants, r, id, act), NextReplies(cfg, r, act, rs))
  {
    hide Tells, RunDecision, Listen, Propose, Judge, Refuse, AskUser, Execute, Conclude, Extends;
    QuietTells(r, rs);
    if !act.Abort? {
      match r.phase {
        case Asking => if r.iter < cfg.maxIters && act.Model? { ListenTells(r, id, act.reply, rs); }
        case Working(queue) =>
          if act == Go && queue != [] {
            assert [queue[0]] + queue[1..] == queue;
            ProposeTells(r, id, queue[0], queue[1..], rs);
          }
        case Called(c, _, _) => JudgeTells(r, id, RunDecision(cfg, grants, c), rs);
        case Judged(_, _, _, _, _) =>
          RefuseTells(r, id, rs);
          AskTells(r, id, rs);
          if act.Tool? { ExecuteTells(r, id, act.out, rs); }
        case Finishing => ConcludeTells(r, id, rs);
        case _ =>
      }
    }
  }

  /** Whatever else was going on, the log of a run has the texts of the replies it took, and proposes their calls in the
      order of the model, one after the other. */
  lemma {:induction false} RunLogsReplies(cfg: Config, acts: seq<Action>, c: Uuid)
    ensures var s := After(cfg, acts);
            if c in s.runs then Tells(s.runs[c], Replies(cfg, acts, c)) else Replies(cfg, acts, c) == []
  {
    hide Apply, Tells;
    if acts != [] {
      var n := |acts| - 1;
      RunLogsReplies(cfg, acts[..n], c);
      TellsKept(cfg, After(cfg, acts[..n]), acts[n], c, Replies(cfg, acts[..n], c));
      assert Replies(cfg, acts[..n], c) + [] == Replies(cfg, acts[..n], c);
    }
  }

  lemma TellsKept(cfg: Config, s: System, a: Action, c: Uuid, rs: seq<Reply>)
    requires if c in s.runs then Tells(s.runs[c], rs) else rs == []
    ensures var n := Apply(cfg, s, a);
            var rs' := match Taken(cfg, s, a, c) case None => rs case Some(reply) => rs + [reply];
            if c in n.runs then Tells(n.runs[c], rs') else rs' == []
  {
    hide Tells, Step, StepConfirm, BeginConfirm, Begin;
    match a
    case StartRun(corr, text) => BeginTells(corr, s.nextId, text);
    case RunAct(corr, act) =>
      if corr in s.runs && corr == c {
        StepTells(cfg, s.grants, s.runs[c], s.nextId, act, rs);
      }
    case ConfirmAct(key, out) => if key in s.confirms { ConfirmActLocal(cfg, s, key, out); }
    case StartConfirm(key, corr, call, scope) => BeginLeavesRuns(s, key, corr, call, scope);
    case _ =>
  }

  lemma BeginLeavesRuns(s: System, key: nat, corr: Uuid, call: Call, scope: Scope)
    ensures BeginConfirm(s, key, corr, call, scope).runs == s.runs
  {}

  // ----- what starts a chain -----

  /** A new run logs the user's request as the root of its chain. */
  lemma RequestIsLogged(cfg: Config, s: System, c: Uuid, text: string)
    requires c !in s.runs
    ensures var n := Apply(cfg, s, StartRun(c, text));
            && n.log == s.log + [Entry(OfRun(c), Record(s.nextId, c, None, UserRequest(text)))]
            && c in n.runs && n.runs[c].phase == Asking && n.runs[c].iter == 0
            && n.grants == s.grants && n.execs == s.execs
  {}

  /** An automation event is logged under the chain it answers to, with its cause. */
  lemma EventIsLogged(cfg: Config, s: System, c: Uuid, cause: Uuid, body: string)
    ensures var n := Apply(cfg, s, Automation(c, cause, body));
            && n.log == s.log + [Entry(Outside, Record(s.nextId, c, Some(cause), Event(body)))]
            && n.runs == s.runs && n.confirms == s.confirms && n.grants == s.grants && n.execs == s.execs
  {}

  // ----- the results of the tools -----

  /** When the tool of an allowed call answers, the run logs its answer as it is. */
  lemma ResultIsTheTools(cfg: Config, s: System, c: Uuid, o: Output)
    requires c in s.runs && ToExecute(s.runs[c]) && s.runs[c].phase.call.args.isObject
    ensures var n, call := Apply(cfg, s, RunAct(c, Tool(Some(o)))), s.runs[c].phase.call;
            && |n.log| == |s.log| + 1
            && n.log[|s.log|].thread == OfRun(c)
            && n.log[|s.log|].rec.payload == ToolResult(call.id, call.tool, o.ok, o.error)
            && n.execs == s.execs + [Exec(OfRun(c), call)]
  {
    hide MirrorOne, AddTriple;
  }

  /** A call that the policy sends to the user becomes this question. */
  lemma QuestionIsAsked(cfg: Config, s: System, c: Uuid)
    requires c in s.runs && s.runs[c].phase.Judged? && s.runs[c].phase.decision.verdict == P.AskUser
    ensures var n, call := Apply(cfg, s, RunAct(c, Go)), s.runs[c].phase.call;
            var question := "Выполнить `" + call.tool + "` с аргументами " + call.args.rendered + "?";
            && |n.log| == |s.log| + 1 && n.execs == s.execs
            && n.log[|s.log|].thread == OfRun(c)
            && n.log[|s.log|].rec.payload == ConfirmationRequest(call.id, call.tool, question, call.args)
  {
    hide MirrorOne;
  }

  /** A confirmed call logs its tool's answer, with the confirmation as its cause. */
  lemma ConfirmedResultIsTheTools(cfg: Config, s: System, k: nat, o: Output)
    requires k in s.confirms && s.confirms[k].phase == Executing && s.confirms[k].call.args.isObject
    ensures var n, c := Apply(cfg, s, ConfirmAct(k, Some(o))), s.confirms[k];
            && n.log == s.log + [Entry(OfConfirm(k), Record(s.nextId, c.corr, Some(c.response),
                                                            ToolResult(c.call.id, c.call.tool, o.ok, o.error)))]
            && n.execs == s.execs + [Exec(OfConfirm(k), c.call)]
  {
    hide P.Decide;
  }

  // ----- the diagnosis -----

  const METRICS := "system.metrics"
  const PROCESSES := "process.list"

  predicate Used(execs: seq<Call>, tool: string) { exists i :: 0 <= i < |execs| && execs[i].tool == tool }

  /** The busiest process that the last process list with one named. */
  function Busiest(cfg: Config, acts: seq<Action>, c: Uuid): Option<Culprit> {
    if acts == [] then None
    else
      var n := |acts| - 1;
      var s, a := After(cfg, acts[..n]), acts[n];
      if a.RunAct? && a.corr == c && c in s.runs && TopOf(s.runs[c], a.act).Some? then TopOf(s.runs[c], a.act)
      else Busiest(cfg, acts[..n], c)
  }

  // What a step learns from a process list.
  function TopOf(r: Run, act: Act): Option<Culprit> {
    if ToExecute(r) && r.phase.call.tool == PROCESSES && r.phase.call.args.isObject && act.Tool? && act.out.Some?
    then act.out.value.top else None
  }

  /** What a run has gathered for its diagnosis. */
  ghost predicate Gathered(r: Run, top: Option<Culprit>) {
    && r.culprit == top
    && (!r.phase.Failed? ==> (r.metrics <==> Used(r.execs, METRICS)) && (r.processList <==> Used(r.execs, PROCESSES)))
  }

  lemma UsedSnoc(execs: seq<Call>, c: Call, tool: string)
    ensures Used(execs + [c], tool) <==> Used(execs, tool) || c.tool == tool
  {
    if i :| 0 <= i < |execs| && execs[i].tool == tool {
      assert (execs + [c])[i].tool == tool;
    }
    if c.tool == tool {
      assert (execs + [c])[|execs|].tool == tool;
    }
  }

  lemma ExecuteGathers(r: Run, id: Uuid, out: Option<Output>, top: Option<Culprit>)
    requires Gathered(r, top) && ToExecute(r)
    ensures Gathered(Execute(r, id, out), if TopOf(r, Tool(out)).Some? then TopOf(r, Tool(out)) else top)
  {
    hide MirrorOne, AddTriple, Extends, Used;
    UsedSnoc(r.execs, r.phase.call, METRICS);
    UsedSnoc(r.execs, r.phase.call, PROCESSES);
  }

  predicate SameGathered(r: Run, n: Run) {
    && n.culprit == r.culprit && n.metrics == r.metrics && n.processList == r.processList && n.execs == r.execs
    && (r.phase.Failed? ==> n.phase.Failed?)
  }

  lemma ListenLeaves(r: Run, id: Uuid, reply: Reply)
    requires r.phase.Asking?
    ensures SameGathered(r, Listen(r, id, reply))
  {
    hide MirrorOne, Extends;
  }

  lemma CallLeaves(r: Run, id: Uuid, c: Call, rest: seq<Call>, d: P.Decision)
    ensures r.phase.Working? ==> SameGathered(r, Propose(r, id, c, rest))
    ensures r.phase.Called? ==> SameGathered(r, Judge(r, id, d))
  {
    hide MirrorOne, Extends;
  }

  lemma SettleLeaves(r: Run, id: Uuid)
    ensures r.phase.Judged? ==> SameGathered(r, Refuse(r, id)) && SameGathered(r, AskUser(r, id))
    ensures r.phase.Finishing? ==> SameGathered(r, Conclude(r, id))
  {
    hide MirrorOne, Extends, AddTriple, Question, FinalSummary;
  }

  // A step changes none of it unless it executes.
  lemma StepLeaves(cfg: Config, grants: set<string>, r: Run, id: Uuid, act: Act)
    requires !(ToExecute(r) && act.Tool?)
    ensures SameGathered(r, Step(cfg, grants, r, id, act))
  {
    hide RunDecision, Listen, Propose, Judge, Refuse, AskUser, Execute, Conclude;
    match r.phase {
      case Asking => if act.Model? { ListenLeaves(r, id, act.reply); }
      case Working(queue) => if queue != [] { CallLeaves(r, id, queue[0], queue[1..], P.Decision(P.Deny, "")); }
      case Called(c, _, rest) => CallLeaves(r, id, c, rest, RunDecision(cfg, grants, c));
      case Judged(_, _, _, _, _) => SettleLeaves(r, id);
      case Finishing => SettleLeaves(r, id);
      case _ =>
    }
  }

  lemma StepGathers(cfg: Config, grants: set<string>, r: Run, id: Uuid, act: Act, top: Option<Culprit>)
    requires Gathered(r, top)
    ensures Gathered(Step(cfg, grants, r, id, act), if TopOf(r, act).Some? then TopOf(r, act) else top)
  {
    hide RunDecision, Listen, Propose, Judge, Refuse, AskUser, Execute, Conclude, Used;
    if ToExecute(r) && act.Tool? {
      ExecuteGathers(r, id, act.out, top);
    } else {
      StepLeaves(cfg, grants, r, id, act);
    }
  }

  lemma {:induction false} RunGathers(cfg: Config, acts: seq<Action>, c: Uuid)
    ensures var s := After(cfg, acts);
            if c in s.runs then Gathered(s.runs[c], Busiest(cfg, acts, c)) else Busiest(cfg, acts, c) == None
  {
    hide Apply, Gathered;
    if acts != [] {
      var n := |acts| - 1;
      RunGathers(cfg, acts[..n], c);
      GatheredKept(cfg, After(cfg, acts[..n]), acts[n], c, Busiest(cfg, acts[..n], c));
    }
  }

  lemma GatheredKept(cfg: Config, s: System, a: Action, c: Uuid, top: Option<Culprit>)
    requires if c in s.runs then Gathered(s.runs[c], top) else top == None
    ensures var n := Apply(cfg, s, a);
            var top' := if a.RunAct? && a.corr == c && c in s.runs && TopOf(s.runs[c], a.act).Some?
                        then TopOf(s.runs[c], a.act) else top;
            if c in n.runs then Gathered(n.runs[c], top') else top' == None
  {
    hide Gathered, Step, StepConfirm, BeginConfirm, TopOf;
    match a
    case StartRun(corr, text) => BeginGathers(corr, s.nextId, text);
    case RunAct(corr, act) =>
      if corr in s.runs && corr == c {
        StepGathers(cfg, s.grants, s.runs[c], s.nextId, act, top);
      }
    case ConfirmAct(key, out) => if key in s.confirms { ConfirmActLocal(cfg, s, key, out); }
    case StartConfirm(key, corr, call, scope) => BeginLeavesRuns(s, key, corr, call, scope);
    case _ =>
  }

  lemma BeginGathers(corr: Uuid, id: Uuid, text: string)
    ensures Gathered(Begin(corr, id, text), None)
  {}

  // The diagnosis is the final summary of a run that gathered the same.
  ghost predicate Concluded(r: Run) { r.phase.Completed? ==> r.phase.diagnosis == FinalSummary(r) }

  lemma StepConcludes(cfg: Config, grants: set<string>, r: Run, id: Uuid, act: Act)
    requires Concluded(r)
    ensures Concluded(Step(cfg, grants, r, id, act))
  {
    hide RunDecision, MirrorOne, AddTriple, Question, Extends, Listen, Propose, Judge, Refuse, AskUser, Execute;
    ActiveSteps(r, id);
  }

  lemma ActiveSteps(r: Run, id: Uuid)
    ensures forall reply :: !Listen(r, id, reply).phase.Completed?
    ensures forall c, rest :: !Propose(r, id, c, rest).phase.Completed?
    ensures r.phase.Called? ==> forall d :: !Judge(r, id, d).phase.Completed?
    ensures r.phase.Judged? ==> !Refuse(r, id).phase.Completed? && !AskUser(r, id).phase.Completed?
    ensures r.phase.Judged? ==> forall out :: !Execute(r, id, out).phase.Completed?
  {
    hide MirrorOne, AddTriple, Question, Extends;
  }

  lemma {:induction false} RunConcludes(cfg: Config, acts: seq<Action>, c: Uuid)
    ensures var s := After(cfg, acts);
            c in s.runs ==> Concluded(s.runs[c])
  {
    hide Apply, Concluded;
    if acts != [] {
      var n := |acts| - 1;
      RunConcludes(cfg, acts[..n], c);
      ConcludedKept(cfg, After(cfg, acts[..n]), acts[n], c);
    }
  }

  lemma ConcludedKept(cfg: Config, s: System, a: Action, c: Uuid)
    requires c in s.runs ==> Concluded(s.runs[c])
    ensures c in Apply(cfg, s, a).runs ==> Concluded(Apply(cfg, s, a).runs[c])
  {
    hide FinalSummary, Step, StepConfirm, BeginConfirm;
    match a
    case RunAct(corr, act) =>
      if corr in s.runs && corr == c {
        StepConcludes(cfg, s.grants, s.runs[c], s.nextId, act);
      }
    case ConfirmAct(key, out) => if key in s.confirms { ConfirmActLocal(cfg, s, key, out); }
    case StartConfirm(key, corr, call, scope) => BeginLeavesRuns(s, key, corr, call, scope);
    case _ =>
  }

  /** A completed run answers with the last text of the model, if that is not empty; otherwise it names the busiest
      process of the last list, when it has looked at metrics and processes, or says that it found none, or that it
      could not finish. */
  lemma CompletedRunAnswers(cfg: Config, acts: seq<Action>, c: Uuid)
    requires cfg.Valid() && c in After(cfg, acts).runs && After(cfg, acts).runs[c].phase.Completed?
    ensures var s := After(cfg, acts);
            var text, execs := LastOf(Said(Replies(cfg, acts, c))), Executed(s.execs, OfRun(c));
            var d := s.runs[c].phase.diagnosis;
            && (text != "" ==> d == text)
            && (text == "" && Used(execs, "system.metrics") && Used(execs, "process.list") ==>
                  match Busiest(cfg, acts, c)
                  case Some(top) =>
                    d == "Процесс " + top.name + " (pid " + Digits(top.pid) +
                    ") выглядит главной причиной высокой нагрузки."
                  case None => d == "Метрики собраны, но явный виновник не найден.")
            && (text == "" && !(Used(execs, "system.metrics") && Used(execs, "process.list")) ==>
                  d == "Не удалось завершить диагностику.")
            && Proposals(Written(s.log, OfRun(c))) == Proposed(Replies(cfg, acts, c))
  {
    hide After, Inv, RunInv, Used, Said, Notes, Proposals, Proposed, Replies, Busiest, Written, Executed, LogFits,
      ConfirmKnown;
    InvAfter(cfg, acts);
    InvParts(cfg, After(cfg, acts));
    assert RunKnown(cfg, After(cfg, acts), c);
    RunLogsReplies(cfg, acts, c);
    RunGathers(cfg, acts, c);
    RunConcludes(cfg, acts, c);
    var r := After(cfg, acts).runs[c];
    assert Proposals(r.trace) + [] == Proposals(r.trace);
  }
}
