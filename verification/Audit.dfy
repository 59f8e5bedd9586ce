/** The audit log and its dry-run replay (crates/audit-log/src/lib.rs). */
module Audit {
  import opened Common
  import Policy

  type Uuid = nat

  datatype Scope = Once | Session | Cancel

  /** A record's kind together with the payload that kind has. */
  datatype Payload =
    | UserRequest(request: string)
    | AssistantMessage(text: string)
    | ToolCall(callId: Uuid, tool: string, args: Policy.Args)
    | PolicyDecision(callId: Uuid, tool: string, verdict: Policy.Verdict, reason: string)
    | ToolResult(callId: Uuid, tool: string, ok: bool, error: Option<string>)
    | ConfirmationRequest(callId: Uuid, tool: string, summary: string, args: Policy.Args)
    | ConfirmationResponse(callId: Uuid, confirmed: bool, scope: Scope)
    | DiagnoseResult(diagnosis: string)
    | Event(body: string)

  datatype Record = Record(id: Uuid, correlation: Uuid, cause: Option<Uuid>, payload: Payload)

  datatype Kind = OfUserRequest | OfAssistantMessage | OfToolCall | OfPolicyDecision | OfToolResult
                | OfConfirmationRequest | OfConfirmationResponse | OfDiagnoseResult | OfEvent

  datatype ReplayStep = ReplayStep(kind: Kind, description: string, sideEffect: bool)

  /** What replay reports. */
  datatype Report = Report(steps: seq<ReplayStep>, sideEffects: seq<string>, summary: Option<string>,
                           pending: Option<string>)

  const BLANK := Report([], [], None, None)

  predicate Dangerous(tool: string) { tool in {"process.kill_request", "system.reboot_request", "storage.format"} }

  function AvoidedLine(tool: string, args: Policy.Args): string { "would invoke `" + tool + "` args=" + args.rendered }

  function AskedLine(tool: string): string {
    "policy asked confirmation for `" + tool + "` (not auto-executed in this chain)"
  }

  function Yes(b: bool): string { if b then "true" else "false" }

  /** The step that a record makes in a replay. */
  function StepOf(p: Payload): (s: ReplayStep)
    ensures s.sideEffect <==> p.ToolCall? && Dangerous(p.tool)
  {
    match p
    case UserRequest(text) => ReplayStep(OfUserRequest, "user request: " + text, false)
    case ToolCall(_, tool, _) => ReplayStep(OfToolCall, "tool call: " + tool, Dangerous(tool))
    case PolicyDecision(_, tool, verdict, _) =>
      ReplayStep(OfPolicyDecision, "policy for `" + tool + "`: \"" + Policy.VerdictName(verdict) + "\"", false)
    case ToolResult(_, tool, ok, _) => ReplayStep(OfToolResult, "tool result: " + tool + " ok=" + Yes(ok), false)
    case ConfirmationRequest(_, _, summary, _) =>
      ReplayStep(OfConfirmationRequest, "confirmation requested: " + summary, false)
    case ConfirmationResponse(_, confirmed, _) =>
      ReplayStep(OfConfirmationResponse, "confirmation response: confirmed=" + Yes(confirmed), false)
    case DiagnoseResult(text) => ReplayStep(OfDiagnoseResult, "diagnose: " + text, false)
    case AssistantMessage(text) => ReplayStep(OfAssistantMessage, "assistant: " + text, false)
    case Event(body) => ReplayStep(OfEvent, "event: " + body, false)
  }

  function ReplayOne(r: Report, rec: Record): Report {
    var r' := r.(steps := r.steps + [StepOf(rec.payload)]);
    match rec.payload
    case ToolCall(_, tool, args) =>
      if Dangerous(tool) then r'.(sideEffects := r.sideEffects + [AvoidedLine(tool, args)])
      else r'
    case PolicyDecision(_, tool, verdict, _) =>
      if verdict.AskUser? then
        r'.(sideEffects := r.sideEffects + [AskedLine(tool)])
      else r'
    case ConfirmationRequest(_, _, summary, _) => r'.(pending := Some(summary))
    case DiagnoseResult(s) => r'.(summary := Some(s))
    case AssistantMessage(t) => if r.summary == None then r'.(summary := Some(t)) else r'
    case _ => r'
  }

  function Replay(rs: seq<Record>): Report {
    if rs == [] then BLANK else ReplayOne(Replay(rs[..|rs| - 1]), rs[|rs| - 1])
  }

  function ByCorrelation(rs: seq<Record>, c: Uuid): seq<Record> {
    if rs == [] then []
    else
      var last := rs[|rs| - 1];
      ByCorrelation(rs[..|rs| - 1], c) + if last.correlation == c then [last] else []
  }

  function WithoutEvents(rs: seq<Record>): seq<Record> {
    if rs == [] then []
    else
      var last := rs[|rs| - 1];
      WithoutEvents(rs[..|rs| - 1]) + if last.payload.Event? then [] else [last]
  }

  // Reports that differ in the number of steps only stay so.
  lemma ReplayOneAlike(r: Report, s: Report, rec: Record)
    requires r.(steps := []) == s.(steps := [])
    ensures ReplayOne(r, rec).(steps := []) == ReplayOne(s, rec).(steps := [])
    ensures rec.payload.Event? ==> ReplayOne(r, rec).(steps := []) == r.(steps := [])
  {}

  /** Event records, wherever they stand, change nothing in the report but add steps of their own. */
  lemma {:induction false} EventsDoNotMatter(rs: seq<Record>)
    ensures Replay(rs).(steps := []) == Replay(WithoutEvents(rs)).(steps := [])
  {
    hide ReplayOne;
    if rs != [] {
      var kept, last := WithoutEvents(rs[..|rs| - 1]), rs[|rs| - 1];
      EventsDoNotMatter(rs[..|rs| - 1]);
      ReplayOneAlike(Replay(rs[..|rs| - 1]), Replay(kept), last);
      if !last.payload.Event? {
        assert (kept + [last])[..|kept|] == kept;
      } else {
        assert kept + [] == kept;
      }
    }
  }

  function IsDangerousCall(r: Record): bool { r.payload.ToolCall? && Dangerous(r.payload.tool) }

  function IsAsk(r: Record): bool { r.payload.PolicyDecision? && r.payload.verdict.AskUser? }

  function DangerousCalls(rs: seq<Record>): nat {
    if rs == [] then 0 else DangerousCalls(rs[..|rs| - 1]) + if IsDangerousCall(rs[|rs| - 1]) then 1 else 0
  }

  function Asks(rs: seq<Record>): nat {
    if rs == [] then 0 else Asks(rs[..|rs| - 1]) + if IsAsk(rs[|rs| - 1]) then 1 else 0
  }

  /** The side effects avoided are the dangerous calls and the questions to the user, one line each. */
  lemma {:induction false} SideEffectCount(rs: seq<Record>)
    ensures |Replay(rs).sideEffects| == DangerousCalls(rs) + Asks(rs)
  {
    hide StepOf, Dangerous;
    if rs != [] {
      SideEffectCount(rs[..|rs| - 1]);
    }
  }

  /** Every record makes one step, in log order; the dangerous calls are the steps with a side effect. */
  lemma {:induction false} StepsTellTheLog(rs: seq<Record>)
    ensures |Replay(rs).steps| == |rs|
    ensures forall i | 0 <= i < |rs| :: Replay(rs).steps[i] == StepOf(rs[i].payload)
    ensures forall i | 0 <= i < |rs| :: Replay(rs).steps[i].sideEffect <==> IsDangerousCall(rs[i])
  {
    if rs != [] {
      hide StepOf, ReplayOne;
      StepsTellTheLog(rs[..|rs| - 1]);
      ReplayOneAddsStep(Replay(rs[..|rs| - 1]), rs[|rs| - 1]);
    }
  }

  lemma ReplayOneAddsStep(r: Report, rec: Record)
    ensures ReplayOne(r, rec).steps == r.steps + [StepOf(rec.payload)]
  {
    hide StepOf;
  }

  // The last record of a kind tells what p tells, if there is one.
  ghost predicate LastSays(rs: seq<Record>, says: Payload -> Option<string>, v: Option<string>) {
    if v.Some? then
      exists i :: 0 <= i < |rs| && says(rs[i].payload) == v && forall j | i < j < |rs| :: says(rs[j].payload) == None
    else forall j | 0 <= j < |rs| :: says(rs[j].payload) == None
  }

  function QuestionIn(p: Payload): Option<string> { if p.ConfirmationRequest? then Some(p.summary) else None }

  function DiagnosisIn(p: Payload): Option<string> { if p.DiagnoseResult? then Some(p.diagnosis) else None }

  /** The report's open question is that of the last confirmation request in the chain. */
  lemma {:induction false} PendingIsLastQuestion(rs: seq<Record>)
    ensures LastSays(rs, QuestionIn, Replay(rs).pending)
  {
    hide StepOf;
    if rs != [] {
      PendingIsLastQuestion(rs[..|rs| - 1]);
      LastSaysStep(rs, QuestionIn, Replay(rs[..|rs| - 1]).pending);
    }
  }

  lemma LastSaysStep(rs: seq<Record>, says: Payload -> Option<string>, v: Option<string>)
    requires rs != [] && LastSays(rs[..|rs| - 1], says, v)
    ensures var last := says(rs[|rs| - 1].payload);
            LastSays(rs, says, if last.Some? then last else v)
  {
    var n := |rs| - 1;
    assert forall j | 0 <= j < n :: rs[..n][j] == rs[j];
    if says(rs[n].payload) == None && v.Some? {
      var i :| 0 <= i < n && says(rs[..n][i].payload) == v && forall j | i < j < n :: says(rs[..n][j].payload) == None;
      assert says(rs[i].payload) == v;
    }
  }

  // The first text of the assistant in the chain.
  function FirstText(rs: seq<Record>): Option<string> {
    if rs == [] then None
    else if rs[0].payload.AssistantMessage? then Some(rs[0].payload.text)
    else FirstText(rs[1..])
  }

  lemma {:induction false} FirstTextSnoc(rs: seq<Record>, r: Record)
    ensures FirstText(rs + [r]) ==
            if FirstText(rs).Some? then FirstText(rs)
            else if r.payload.AssistantMessage? then Some(r.payload.text) else None
  {
    if rs == [] {
      assert (rs + [r])[0] == r && (rs + [r])[1..] == [];
    } else {
      assert (rs + [r])[1..] == rs[1..] + [r];
      FirstTextSnoc(rs[1..], r);
    }
  }

  /** Its summary is the last diagnosis in the chain or, when there is none, the first text of the assistant. */
  lemma {:induction false} SummaryIsLastDiagnosis(rs: seq<Record>)
    ensures (exists d :: LastSays(rs, DiagnosisIn, Some(d)) && Replay(rs).summary == Some(d))
            || (LastSays(rs, DiagnosisIn, None) && Replay(rs).summary == FirstText(rs))
  {
    hide StepOf, LastSays, FirstText;
    if rs == [] {
      NothingSaid();
    } else {
      var n := |rs| - 1;
      SummaryIsLastDiagnosis(rs[..n]);
      assert rs == rs[..n] + [rs[n]];
      FirstTextSnoc(rs[..n], rs[n]);
      if d :| LastSays(rs[..n], DiagnosisIn, Some(d)) && Replay(rs[..n]).summary == Some(d) {
        LastSaysStep(rs, DiagnosisIn, Some(d));
      } else {
        LastSaysStep(rs, DiagnosisIn, None);
      }
    }
  }

  lemma NothingSaid()
    ensures LastSays([], DiagnosisIn, None) && FirstText([]) == None
  {}

  /** Each dangerous call and each question to the user has its line among the side effects avoided. */
  lemma {:induction false} SideEffectsName(rs: seq<Record>, i: nat)
    requires i < |rs|
    ensures rs[i].payload.ToolCall? &&
            rs[i].payload.tool in {"process.kill_request", "system.reboot_request", "storage.format"} ==>
              "would invoke `" + rs[i].payload.tool + "` args=" + rs[i].payload.args.rendered in Replay(rs).sideEffects
    ensures rs[i].payload.PolicyDecision? && rs[i].payload.verdict == Policy.AskUser ==>
              "policy asked confirmation for `" + rs[i].payload.tool + "` (not auto-executed in this chain)"
              in Replay(rs).sideEffects
  {
    hide StepOf;
    var n := |rs| - 1;
    if i < n {
      SideEffectsName(rs[..n], i);
    }
    assert forall x :: x in Replay(rs[..n]).sideEffects ==> x in Replay(rs).sideEffects;
  }

  /** The words of each step: what was said, */
  lemma SpeechWords(t: string)
    ensures StepOf(UserRequest(t)).description == "user request: " + t
    ensures StepOf(AssistantMessage(t)).description == "assistant: " + t
    ensures StepOf(DiagnoseResult(t)).description == "diagnose: " + t
    ensures StepOf(Event(t)).description == "event: " + t
  {}

  /** what was called and came back, */
  lemma CallWords(id: Uuid, tool: string, args: Policy.Args, ok: bool, error: Option<string>)
    ensures StepOf(ToolCall(id, tool, args)).description == "tool call: " + tool
    ensures StepOf(ToolResult(id, tool, ok, error)).description ==
            "tool result: " + tool + if ok then " ok=true" else " ok=false"
  {
    assert "tool result: " + tool + " ok=" + "true" == "tool result: " + tool + (" ok=" + "true");
    assert "tool result: " + tool + " ok=" + "false" == "tool result: " + tool + (" ok=" + "false");
  }

  /** what the policy decided, */
  lemma VerdictWords(id: Uuid, tool: string, v: Policy.Verdict, reason: string)
    ensures StepOf(PolicyDecision(id, tool, v, reason)).description ==
            "policy for `" + tool + "`: " +
            if v == Policy.Allow then "\"allow\"" else if v == Policy.Deny then "\"deny\"" else "\"ask_user\""
  {
    var name := Policy.VerdictName(v);
    var quoted := "\"" + name + "\"";
    assert "policy for `" + tool + "`: \"" + name + "\"" == "policy for `" + tool + ("`: " + quoted);
    assert "policy for `" + tool + "`: " + quoted == "policy for `" + tool + ("`: " + quoted);
  }

  /** and what was asked and answered. */
  lemma QuestionWords(id: Uuid, tool: string, t: string, args: Policy.Args, yes: bool, s: Scope)
    ensures StepOf(ConfirmationRequest(id, tool, t, args)).description == "confirmation requested: " + t
    ensures StepOf(ConfirmationResponse(id, yes, s)).description ==
            if yes then "confirmation response: confirmed=true" else "confirmation response: confirmed=false"
  {}

  /** What list_by_correlation finds: all records of that id and no others, in order. */
  lemma {:induction false} FoundRecords(u: seq<Record>, v: seq<Record>, c: Uuid, r: Record)
    ensures ByCorrelation(u + v, c) == ByCorrelation(u, c) + ByCorrelation(v, c)
    ensures ByCorrelation([r], c) == if r.correlation == c then [r] else []
  {
    assert [r][..0] == [];
    if v == [] {
      assert u + v == u;
    } else {
      FoundRecords(u, v[..|v| - 1], c, r);
      assert (u + v)[..|u + v| - 1] == u + v[..|v| - 1];
    }
  }

  class AuditLog {
    var records: seq<Record>

    constructor ()
      ensures records == []
    {
      records := [];
    }

    method Append(r: Record)
      modifies this
      ensures records == old(records) + [r]
    {
      records := records + [r];
    }

    method ListByCorrelation(c: Uuid) returns (out: seq<Record>)
      ensures out == ByCorrelation(records, c)
    {
      out := [];
      for i := 0 to |records|
        invariant out == ByCorrelation(records[..i], c)
      {
        assert records[..i + 1][..i] == records[..i];
        if records[i].correlation == c {
          out := out + [records[i]];
        }
      }
      assert records[..|records|] == records;
    }

    // One turn of replay's loop, on its four locals.
    static method ReplayRecord(r: Report, rec: Record) returns (n: Report)
      ensures n == ReplayOne(r, rec)
    {
      hide StepOf, AskedLine, AvoidedLine;
      var sideEffects, summary, pending := r.sideEffects, r.summary, r.pending;
      match rec.payload {
        case ToolCall(_, tool, args) =>
          if Dangerous(tool) {
            sideEffects := sideEffects + [AvoidedLine(tool, args)];
          }
        case PolicyDecision(_, tool, verdict, _) =>
          if verdict.AskUser? {
            sideEffects := sideEffects + [AskedLine(tool)];
          }
        case ConfirmationRequest(_, _, s, _) => pending := Some(s);
        case DiagnoseResult(s) => summary := Some(s);
        case AssistantMessage(t) =>
          if summary == None {
            summary := Some(t);
          }
        case _ =>
      }
      n := Report(r.steps + [StepOf(rec.payload)], sideEffects, summary, pending);
    }

    /** replay, which walks through the records of one correlation id; without any it fails. */
    method ReplayLog(c: Uuid) returns (r: Result<Report, string>)
      ensures r == if ByCorrelation(records, c) == [] then Err("no audit records")
                   else Ok(Replay(ByCorrelation(records, c)))
    {
      var rs := ListByCorrelation(c);
      if rs == [] { return Err("no audit records"); }
      hide StepOf, AskedLine, AvoidedLine;
      var report := BLANK;
      for i := 0 to |rs|
        invariant report == Replay(rs[..i])
      {
        assert rs[..i + 1][..i] == rs[..i];
        report := ReplayRecord(report, rs[i]);
      }
      assert rs[..|rs|] == rs;
      r := Ok(report);
    }
  }
}
