/** What the policy says to the calls of a run, over all interleavings (crates/ai-runtime/src/lib.rs and
    crates/policy-engine/src/lib.rs): every verdict in the log is the one that tool, arguments and the grants then in
    force call for, and a risky tool runs without a question only under a grant of the session. */
module Verdicts {
  import opened Common
  import opened Audit
  import opened AgentRun
  import opened Runtime
  import P = Policy

  // ----- which action wrote a record -----

  lemma AfterPrefix(cfg: Config, acts: seq<Action>, i: nat)
    requires i < |acts|
    ensures After(cfg, acts[..i + 1]) == Apply(cfg, After(cfg, acts[..i]), acts[i])
  {
    hide Apply;
    assert acts[..i + 1][..i] == acts[..i];
  }

  // Entry p of the log was written by action i.
  ghost predicate WrittenAt(cfg: Config, acts: seq<Action>, p: nat, i: nat) {
    && i < |acts| && p < |After(cfg, acts).log|
    && |After(cfg, acts[..i]).log| == p && |After(cfg, acts[..i + 1]).log| == p + 1
    && After(cfg, acts[..i + 1]).log == After(cfg, acts).log[..p + 1]
  }

  lemma {:induction false} Writer(cfg: Config, acts: seq<Action>, p: nat) returns (i: nat)
    requires cfg.Valid() && p < |After(cfg, acts).log|
    ensures WrittenAt(cfg, acts, p, i)
  {
    hide After, Apply, Inv;
    NoLogYet(cfg);
    assert acts != [];
    var n := |acts| - 1;
    InvAfter(cfg, acts[..n]);
    AfterPrefix(cfg, acts, n);
    assert acts[..n + 1] == acts;
    var s, t := After(cfg, acts[..n]), After(cfg, acts);
    LogGrows(cfg, s, acts[n]);
    if p < |s.log| {
      i := Writer(cfg, acts[..n], p);
      assert acts[..n][..i] == acts[..i] && acts[..n][..i + 1] == acts[..i + 1];
      assert t.log[..p + 1] == s.log[..p + 1];
    } else {
      i := n;
      assert t.log[..p + 1] == t.log;
    }
  }

  lemma NoLogYet(cfg: Config)
    ensures After(cfg, []).log == []
  {}

  // ----- the verdict -----

  predicate Risky(spec: P.ToolSpec) { spec.requiresConfirmation || spec.risk == P.High || spec.risk == P.Critical }

  /** A registered tool is refused exactly for denied arguments; otherwise it takes a question exactly when it is risky
      and has no grant. An unregistered tool is refused. */
  ghost predicate RightVerdict(cfg: Config, grants: set<string>, c: Call, v: P.Verdict) {
    && (v == P.Deny <==> c.tool !in cfg.tools || P.Denied(cfg.tools[c.tool], c.args))
    && (v == P.AskUser <==>
        c.tool in cfg.tools && !P.Denied(cfg.tools[c.tool], c.args) && c.tool !in grants && Risky(cfg.tools[c.tool]))
  }

  lemma RunDecisionIsRight(cfg: Config, grants: set<string>, c: Call)
    requires cfg.Valid()
    ensures RightVerdict(cfg, grants, c, RunDecision(cfg, grants, c).verdict)
  {
    hide P.LooksLikeInjection;
    if c.tool in cfg.tools {
      P.GrantsNeverTouchDenial(grants, {}, cfg.tools[c.tool], c.args);
    }
  }

  // A decision that step a adds to the log of a run, with the proposal before it.
  ghost predicate DecidesRightly(cfg: Config, s: System, a: Action, e: Entry) {
    && a.RunAct? && e.thread == OfRun(a.corr) && e.rec.payload.PolicyDecision?
    && var t := Written(s.log, e.thread);
    && t != [] && t[|t| - 1].payload.ToolCall?
    && var p, d := t[|t| - 1].payload, e.rec.payload;
    && d.callId == p.callId && d.tool == p.tool && e.rec.cause == Some(t[|t| - 1].id)
    && RightVerdict(cfg, s.grants, Call(p.callId, p.tool, p.args), d.verdict)
  }

  // Of all steps of a run only the judgement writes a decision.
  lemma OnlyJudgeDecides(cfg: Config, grants: set<string>, r: Run, id: Uuid, act: Act)
    requires var n := Step(cfg, grants, r, id, act);
             |n.trace| > |r.trace| && n.trace[|r.trace|].payload.PolicyDecision?
    ensures r.phase.Called? && act == Go
    ensures Step(cfg, grants, r, id, act).trace[|r.trace|] ==
            New(r, id, DecisionPayload(r.phase.call, RunDecision(cfg, grants, r.phase.call)))
  {
    hide RunDecision, Listen, Propose, Judge, Refuse, AskUser, Execute, Conclude, Extends;
    if !act.Abort? {
      match r.phase {
        case Asking => if act.Model? { ListenWrites(r, id, act.reply); }
        case Working(queue) => if queue != [] { ProposeWrites(r, id, queue[0], queue[1..]); }
        case Called(c, _, _) => JudgeWrites(r, id, RunDecision(cfg, grants, c));
        case Judged(_, _, _, _, _) => SettleWrites(r, id, act);
        case Finishing => ConcludeWrites(r, id);
        case _ =>
      }
    }
  }

  lemma ListenWrites(r: Run, id: Uuid, reply: Reply)
    ensures var n := Listen(r, id, reply);
            |n.trace| > |r.trace| ==> n.trace[|r.trace|].payload.AssistantMessage?
  {
    hide MirrorOne;
  }

  lemma ProposeWrites(r: Run, id: Uuid, c: Call, rest: seq<Call>)
    ensures var n := Propose(r, id, c, rest);
            |n.trace| > |r.trace| && n.trace[|r.trace|].payload == CallPayload(c)
  {
    hide MirrorOne;
  }

  lemma JudgeWrites(r: Run, id: Uuid, d: P.Decision)
    requires r.phase.Called?
    ensures var n := Judge(r, id, d);
            |n.trace| > |r.trace| && n.trace[|r.trace|] == New(r, id, DecisionPayload(r.phase.call, d))
  {
    hide MirrorOne;
  }

  lemma SettleWrites(r: Run, id: Uuid, act: Act)
    requires r.phase.Judged?
    ensures |Refuse(r, id).trace| > |r.trace| && Refuse(r, id).trace[|r.trace|].payload.ToolResult?
    ensures |AskUser(r, id).trace| > |r.trace| && AskUser(r, id).trace[|r.trace|].payload.ConfirmationRequest?
    ensures act.Tool? ==>
              var n := Execute(r, id, act.out);
              |n.trace| > |r.trace| ==> n.trace[|r.trace|].payload.ToolResult?
  {
    hide MirrorOne, AddTriple, Question;
  }

  lemma ConcludeWrites(r: Run, id: Uuid)
    ensures |Conclude(r, id).trace| > |r.trace| && Conclude(r, id).trace[|r.trace|].payload.DiagnoseResult?
  {
    hide MirrorOne, FinalSummary;
  }

  lemma LastOfCalled(cfg: Config, r: Run)
    requires RunInv(cfg, r) && r.phase.Called?
    ensures r.trace != [] && r.trace[|r.trace| - 1].payload == CallPayload(r.phase.call)
    ensures r.last == r.trace[|r.trace| - 1].id
  {
    hide EventInv, ExecInv, ReplayInv, ShapeInv;
  }

  // Only a step of its run writes a decision.
  lemma DeciderIsRun(cfg: Config, s: System, a: Action)
    requires var n := Apply(cfg, s, a);
             |n.log| == |s.log| + 1 && n.log[|s.log|].thread.OfRun? && n.log[|s.log|].rec.payload.PolicyDecision?
    ensures a.RunAct? && a.corr in s.runs
    ensures var r := s.runs[a.corr];
            var n := Step(cfg, s.grants, r, s.nextId, a.act);
            |n.trace| > |r.trace| && Apply(cfg, s, a).log[|s.log|] == Entry(OfRun(a.corr), n.trace[|r.trace|])
  {
    hide Step, P.Decide;
  }

  lemma DecisionStep(cfg: Config, s: System, a: Action)
    requires cfg.Valid() && Inv(cfg, s)
    requires var n := Apply(cfg, s, a);
             |n.log| == |s.log| + 1 && n.log[|s.log|].thread.OfRun? && n.log[|s.log|].rec.payload.PolicyDecision?
    ensures DecidesRightly(cfg, s, a, Apply(cfg, s, a).log[|s.log|]) && a == RunAct(a.corr, Go)
  {
    hide Inv, Apply, Step, RunInv, RunDecision, RightVerdict, Written, Executed, LogFits, Idle, ConfirmKnown;
    DeciderIsRun(cfg, s, a);
    InvParts(cfg, s);
    var r := s.runs[a.corr];
    assert RunKnown(cfg, s, a.corr);
    OnlyJudgeDecides(cfg, s.grants, r, s.nextId, a.act);
    LastOfCalled(cfg, r);
    RunDecisionIsRight(cfg, s.grants, r.phase.call);
    var c := r.phase.call;
    assert Call(c.id, c.tool, c.args) == c;
  }

  /** Whatever else was going on, every decision in the log of a run was right under the grants in force when it was
      written. */
  lemma VerdictsFollowPolicy(cfg: Config, acts: seq<Action>, p: nat) returns (i: nat)
    requires cfg.Valid() && p < |After(cfg, acts).log|
    requires After(cfg, acts).log[p].thread.OfRun? && After(cfg, acts).log[p].rec.payload.PolicyDecision?
    ensures WrittenAt(cfg, acts, p, i)
    ensures DecidesRightly(cfg, After(cfg, acts[..i]), acts[i], After(cfg, acts).log[p])
    ensures acts[i] == RunAct(After(cfg, acts).log[p].thread.corr, Go)
  {
    hide After, Apply, Inv, RightVerdict, Written;
    i := Writer(cfg, acts, p);
    InvAfter(cfg, acts[..i]);
    AfterPrefix(cfg, acts, i);
    assert After(cfg, acts[..i + 1]).log[p] == After(cfg, acts).log[p];
    DecisionStep(cfg, After(cfg, acts[..i]), acts[i]);
  }

  // ----- the grants -----

  /** Action i is the step of a Session confirmation of a call of tool t that takes the grant. */
  ghost predicate GrantGiven(cfg: Config, acts: seq<Action>, i: nat, t: string) {
    && i < |acts| && acts[i].ConfirmAct?
    && var s := After(cfg, acts[..i]);
    acts[i].key in s.confirms && GrantDue(s.confirms[acts[i].key], t)
  }

  predicate GrantDue(c: Confirm, t: string) { c.phase == Granting && c.scope == Session && c.call.tool == t }

  // Granted by action i, and not cleared since.
  ghost predicate GrantHolds(cfg: Config, acts: seq<Action>, i: nat, t: string) {
    GrantGiven(cfg, acts, i, t) && forall k | i < k < |acts| :: acts[k] != ClearGrants
  }

  lemma GrantsStep(cfg: Config, s: System, a: Action, t: string)
    ensures t in Apply(cfg, s, a).grants <==>
            a != ClearGrants &&
            (t in s.grants || (a.ConfirmAct? && a.key in s.confirms && GrantDue(s.confirms[a.key], t)))
  {
    hide Step, P.Decide;
  }

  lemma GrantHoldsStep(cfg: Config, acts: seq<Action>, i: nat, t: string)
    requires acts != []
    ensures var n := |acts| - 1;
            GrantHolds(cfg, acts, i, t) <==>
            (i == n && GrantGiven(cfg, acts, n, t)) || (acts[n] != ClearGrants && GrantHolds(cfg, acts[..n], i, t))
  {
    hide After;
    var n := |acts| - 1;
    if i < n {
      assert acts[..n][..i] == acts[..i];
    }
  }

  /** A tool is granted exactly when some Session confirmation of it took its grant and nobody cleared the grants
      since. */
  lemma {:induction false} GrantedIff(cfg: Config, acts: seq<Action>, t: string)
    ensures t in After(cfg, acts).grants <==> exists i: nat :: GrantHolds(cfg, acts, i, t)
  {
    hide After, Apply, GrantHolds, GrantGiven;
    if acts == [] {
      assert forall i: nat :: !GrantHolds(cfg, acts, i, t) by { NoGrantYet(cfg, t); }
      assert t !in After(cfg, acts).grants by { NoGrantYet(cfg, t); }
    } else {
      var n := |acts| - 1;
      GrantedIff(cfg, acts[..n], t);
      assert acts[..n + 1] == acts;
      AfterPrefix(cfg, acts, n);
      GrantsStep(cfg, After(cfg, acts[..n]), acts[n], t);
      assert GrantGiven(cfg, acts, n, t) <==>
             acts[n].ConfirmAct? && acts[n].key in After(cfg, acts[..n]).confirms &&
             GrantDue(After(cfg, acts[..n]).confirms[acts[n].key], t) by { GivenMeans(cfg, acts, n, t); }
      forall i: nat
        ensures GrantHolds(cfg, acts, i, t) <==>
                (i == n && GrantGiven(cfg, acts, n, t)) || (acts[n] != ClearGrants && GrantHolds(cfg, acts[..n], i, t))
      {
        GrantHoldsStep(cfg, acts, i, t);
      }
      GrantHoldsStep(cfg, acts, n, t);
      if i: nat :| GrantHolds(cfg, acts[..n], i, t) {
        GrantHoldsStep(cfg, acts, i, t);
      }
    }
  }

  lemma GivenMeans(cfg: Config, acts: seq<Action>, n: nat, t: string)
    requires n < |acts|
    ensures GrantGiven(cfg, acts, n, t) <==>
            acts[n].ConfirmAct? && acts[n].key in After(cfg, acts[..n]).confirms &&
            GrantDue(After(cfg, acts[..n]).confirms[acts[n].key], t)
  {
    hide After;
  }

  lemma NoGrantYet(cfg: Config, t: string)
    ensures t !in After(cfg, []).grants && forall i: nat :: !GrantHolds(cfg, [], i, t)
  {}

  /** Who gives a grant has confirmed: the log has the Session response of that confirmation by then. */
  lemma GrantIsConfirmed(cfg: Config, acts: seq<Action>, i: nat, t: string)
    requires cfg.Valid() && GrantGiven(cfg, acts, i, t)
    ensures var s, k := After(cfg, acts[..i]), acts[i].key;
            && k in s.confirms && s.confirms[k].call.tool == t
            && var w := Written(s.log, OfConfirm(k));
            w != [] && w[0].payload == ConfirmationResponse(s.confirms[k].call.id, true, Session)
  {
    hide After, Inv, Written, Executed, LogFits, RunKnown, Idle;
    InvAfter(cfg, acts[..i]);
    InvParts(cfg, After(cfg, acts[..i]));
    assert ConfirmKnown(cfg, After(cfg, acts[..i]), acts[i].key);
  }

  // ----- risky tools -----

  // Where record k of a thread stands in the log.
  lemma {:induction false} PlaceInLog(log: seq<Entry>, t: Thread, k: nat) returns (p: nat)
    requires k < |Written(log, t)|
    ensures p < |log| && log[p] == Entry(t, Written(log, t)[k]) && Written(log[..p], t) == Written(log, t)[..k]
  {
    var n := |log| - 1;
    var before := Written(log[..n], t);
    if k < |before| {
      p := PlaceInLog(log[..n], t, k);
      assert log[..n][..p] == log[..p];
      assert Written(log, t)[..k] == before[..k];
    } else {
      p := n;
      assert Written(log, t)[..k] == before;
    }
  }

  /** What a run executes of a risky tool, it executes without a question: a Session confirmation of that tool had
      granted it, and nobody had cleared the grants between that and the decision. */
  lemma RiskyRunsWereGranted(cfg: Config, acts: seq<Action>, j: nat) returns (i: nat, g: nat, k: nat)
    requires cfg.Valid() && j < |After(cfg, acts).execs| && After(cfg, acts).execs[j].thread.OfRun?
    requires var tool := After(cfg, acts).execs[j].call.tool;
             tool in cfg.tools && Risky(cfg.tools[tool])
    ensures var s, e := After(cfg, acts), After(cfg, acts).execs[j];
            && g < i < |acts| && acts[i] == RunAct(e.thread.corr, Go)
            && GrantGiven(cfg, acts, g, e.call.tool) && (forall m | g < m < i :: acts[m] != ClearGrants)
            && AllowedIn(Written(s.log, e.thread), k, e.call)
            && Written(After(cfg, acts[..i]).log, e.thread) == Written(s.log, e.thread)[..k]
  {
    hide After, Apply, Inv, RunInv, LogFits, Written, Executed, DecidesRightly, AllowedIn, Permitted, GrantGiven,
      GrantHolds;
    var s, e := After(cfg, acts), After(cfg, acts).execs[j];
    EveryExecutionIsAuthorized(cfg, acts, j, P.Host(0, {}, x => x));
    var t := Written(s.log, e.thread);
    k :| AllowedIn(t, k, e.call);
    AllowedInMeans(t, k, e.call);
    var p := PlaceInLog(s.log, e.thread, k);
    i := VerdictsFollowPolicy(cfg, acts, p);
    var before := After(cfg, acts[..i]);
    SamePrefix(cfg, acts, p, i);
    assert Written(before.log, e.thread) == t[..k];
    GrantedWhenAllowed(cfg, before, acts[i], s.log[p], e.call);
    InvAfter(cfg, acts[..i]);
    GrantedIff(cfg, acts[..i], e.call.tool);
    g :| GrantHolds(cfg, acts[..i], g, e.call.tool);
    HoldsInPrefix(cfg, acts, i, g, e.call.tool);
  }

  lemma AllowedInMeans(t: seq<Record>, k: nat, c: Call)
    requires AllowedIn(t, k, c)
    ensures 0 < k < |t| && t[k].payload.PolicyDecision? && t[k].payload.verdict == P.Allow
    ensures t[..k][|t[..k]| - 1].payload == CallPayload(c)
  {}

  lemma SamePrefix(cfg: Config, acts: seq<Action>, p: nat, i: nat)
    requires cfg.Valid() && WrittenAt(cfg, acts, p, i)
    ensures After(cfg, acts[..i]).log == After(cfg, acts).log[..p]
  {
    hide After, Apply, Inv;
    InvAfter(cfg, acts[..i]);
    AfterPrefix(cfg, acts, i);
    LogGrows(cfg, After(cfg, acts[..i]), acts[i]);
    assert After(cfg, acts).log[..p + 1][..p] == After(cfg, acts).log[..p];
  }

  lemma GrantedWhenAllowed(cfg: Config, s: System, a: Action, e: Entry, c: Call)
    requires DecidesRightly(cfg, s, a, e) && e.rec.payload.verdict == P.Allow
    requires var t := Written(s.log, e.thread);
             t != [] && t[|t| - 1].payload == CallPayload(c)
    requires c.tool in cfg.tools && Risky(cfg.tools[c.tool])
    ensures c.tool in s.grants
  {
    hide Written, P.Denied;
  }

  lemma HoldsInPrefix(cfg: Config, acts: seq<Action>, i: nat, g: nat, t: string)
    requires i <= |acts| && GrantHolds(cfg, acts[..i], g, t)
    ensures g < i && GrantGiven(cfg, acts, g, t) && forall m | g < m < i :: acts[m] != ClearGrants
  {
    hide After;
    assert acts[..i][..g] == acts[..g];
    forall m | g < m < i ensures acts[m] != ClearGrants {
      assert acts[..i][m] == acts[m];
    }
  }
}
