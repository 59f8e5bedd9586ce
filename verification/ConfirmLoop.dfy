/** confirm_in_session (crates/ai-runtime/src/lib.rs) as one method on the policy engine and the audit log. When
    nothing comes in between, it takes the steps that Runtime interleaves. */
module ConfirmLoop {
  import opened Common
  import opened Audit
  import opened AgentRun
  import opened Runtime
  import P = Policy

  datatype Outcome = CancelledByUser | NotRun(reason: string) | ToolFailed | Done(ok: bool, error: Option<string>)

  /** A confirmation from its response to its end, with nothing in between. */
  function Confirmed(cfg: Config, s: System, key: nat, corr: Uuid, call: Call, scope: Scope,
                     out: Option<Output>): System
  {
    var asked := BeginConfirm(s, key, corr, call, scope);
    var granted := StepConfirm(cfg, asked, key, out);
    var checked := StepConfirm(cfg, granted, key, out);
    StepConfirm(cfg, checked, key, out)
  }

  // It is a run of the system like any other.
  lemma ConfirmedIsARun(cfg: Config, acts: seq<Action>, key: nat, corr: Uuid, call: Call, scope: Scope,
                        out: Option<Output>)
    requires key !in After(cfg, acts).confirms
    ensures After(cfg, acts + [StartConfirm(key, corr, call, scope)] + [ConfirmAct(key, out)] + [ConfirmAct(key, out)]
                  + [ConfirmAct(key, out)])
         == Confirmed(cfg, After(cfg, acts), key, corr, call, scope, out)
  {
    hide StepConfirm, BeginConfirm;
    var step := ConfirmAct(key, out);
    var a1 := acts + [StartConfirm(key, corr, call, scope)];
    AfterOne(cfg, acts, StartConfirm(key, corr, call, scope));
    KeyStays(cfg, After(cfg, acts), key, corr, call, scope, out);
    AfterOne(cfg, a1, step);
    AfterOne(cfg, a1 + [step], step);
    AfterOne(cfg, a1 + [step] + [step], step);
  }

  lemma AfterOne(cfg: Config, acts: seq<Action>, a: Action)
    ensures After(cfg, acts + [a]) == Apply(cfg, After(cfg, acts), a)
  {
    hide Apply;
    assert (acts + [a])[..|acts|] == acts;
  }

  lemma KeyStays(cfg: Config, s: System, key: nat, corr: Uuid, call: Call, scope: Scope, out: Option<Output>)
    ensures var asked := BeginConfirm(s, key, corr, call, scope);
            && key in asked.confirms && key in StepConfirm(cfg, asked, key, out).confirms
            && key in StepConfirm(cfg, StepConfirm(cfg, asked, key, out), key, out).confirms
  {
    hide P.Decide;
  }

  function Response(id: Uuid, corr: Uuid, call: Call, scope: Scope): Record {
    Record(id, corr, None, ConfirmationResponse(call.id, scope != Cancel, scope))
  }

  function Answer(id: Uuid, corr: Uuid, call: Call, o: Output): Record {
    Record(id + 1, corr, Some(id), ToolResult(call.id, call.tool, o.ok, o.error))
  }

  function GrantsAfter(grants: set<string>, call: Call, scope: Scope): set<string> {
    if scope == Session then grants + {call.tool} else grants
  }

  // The tool is called: no cancel, and the check under the grants then in force does not deny.
  predicate Calls(cfg: Config, grants: set<string>, call: Call, scope: Scope) {
    && scope != Cancel && call.tool in cfg.tools && call.args.isObject
    && P.Decide(GrantsAfter(grants, call, scope), cfg.tools[call.tool], call.args).verdict != P.Deny
  }

  // What a confirmation adds up to.
  lemma ConfirmedMeans(cfg: Config, s: System, key: nat, corr: Uuid, call: Call, scope: Scope, out: Option<Output>)
    ensures var n, run := Confirmed(cfg, s, key, corr, call, scope, out), Calls(cfg, s.grants, call, scope);
            && n.grants == GrantsAfter(s.grants, call, scope)
            && n.execs == s.execs + (if run then [Exec(OfConfirm(key), call)] else [])
            && n.runs == s.runs && n.confirms.Keys == s.confirms.Keys + {key}
            && Records(n.log) == Records(s.log) + [Response(s.nextId, corr, call, scope)]
                                 + (if run && out.Some? then [Answer(s.nextId, corr, call, out.value)] else [])
  {
    hide P.Decide, Records, StepConfirm, BeginConfirm;
    var asked := BeginConfirm(s, key, corr, call, scope);
    BeganAs(s, key, corr, call, scope);
    var granted := StepConfirm(cfg, asked, key, out);
    RecordsSnoc(s.log, Entry(OfConfirm(key), Response(s.nextId, corr, call, scope)));
    GrantedAs(cfg, asked, key, out);
    CheckedAs(cfg, granted, key, out);
  }

  lemma BeganAs(s: System, key: nat, corr: Uuid, call: Call, scope: Scope)
    ensures var n := BeginConfirm(s, key, corr, call, scope);
            && key in n.confirms
            && n.confirms[key]
               == Confirm(corr, call, scope, if scope == Cancel then Cancelled else Granting, s.nextId)
            && n.log == s.log + [Entry(OfConfirm(key), Response(s.nextId, corr, call, scope))]
            && n.grants == s.grants && n.execs == s.execs && n.nextId == s.nextId + 1
            && n.runs == s.runs && n.confirms.Keys == s.confirms.Keys + {key}
  {}

  lemma GrantedAs(cfg: Config, s: System, key: nat, out: Option<Output>)
    requires key in s.confirms && s.confirms[key].phase in {Granting, Cancelled}
    ensures var n, c := StepConfirm(cfg, s, key, out), s.confirms[key];
            if c.phase == Cancelled then n == s
            else n == s.(grants := GrantsAfter(s.grants, c.call, c.scope),
                      confirms := s.confirms[key := c.(phase := Checking)])
  {}

  lemma CheckedAs(cfg: Config, s: System, key: nat, out: Option<Output>)
    requires key in s.confirms && s.confirms[key].phase in {Checking, Cancelled}
    ensures var m := StepConfirm(cfg, s, key, out);
            && key in m.confirms
            && var n, c := StepConfirm(cfg, m, key, out), s.confirms[key];
            var run := c.phase == Checking && c.call.tool in cfg.tools && c.call.args.isObject &&
                       P.Decide(s.grants, cfg.tools[c.call.tool], c.call.args).verdict != P.Deny;
            && n.runs == s.runs && n.confirms.Keys == s.confirms.Keys
            && n.grants == s.grants && n.execs == s.execs + (if run then [Exec(OfConfirm(key), c.call)] else [])
            && Records(n.log) == Records(s.log)
                                 + if run && out.Some? then [Closing(s.nextId, c, out.value)] else []
  {
    hide P.Decide;
  }

  lemma RecordsSnoc(log: seq<Entry>, e: Entry)
    ensures Records(log + [e]) == Records(log) + [e.rec]
  {}

  method ConfirmInSession(cfg: Config, policy: P.PolicyEngine, audit: AuditLog, id: Uuid, corr: Uuid, call: Call,
                          scope: Scope, out: Option<Output>, ghost s: System, ghost key: nat) returns (r: Outcome)
    requires key !in s.confirms && s.nextId == id
    requires policy.sessionAllows == s.grants && audit.records == Records(s.log)
    modifies policy, audit
    ensures var n := Confirmed(cfg, s, key, corr, call, scope, out);
            && policy.sessionAllows == n.grants && audit.records == Records(n.log)
            && n.execs == s.execs + if r.Done? || r.ToolFailed? then [Exec(OfConfirm(key), call)] else []
    ensures r.CancelledByUser? <==> scope == Cancel
    ensures r.Done? || r.ToolFailed? ==> Permitted(cfg, call)
  {
    hide P.Decide, P.Denied, Confirmed, Records;
    ConfirmedMeans(cfg, s, key, corr, call, scope, out);
    audit.Append(Response(id, corr, call, scope));
    if scope == Cancel { return CancelledByUser; }
    if scope == Session {
      policy.GrantSession(call.tool);
    }
    if call.tool !in cfg.tools { return NotRun("unknown tool"); }
    var d := policy.DecideCall(cfg.tools[call.tool], call.args);
    if d.verdict == P.Deny { return NotRun("policy denied after confirmation"); }
    if !call.args.isObject { return NotRun("invalid arguments"); }
    if out == None { return ToolFailed; }
    audit.Append(Answer(id, corr, call, out.value));
    r := Done(out.value.ok, out.value.error);
  }
}
