/** The AI runtime with any number of requests and confirmations in flight (confirm_in_session in
    crates/ai-runtime/src/lib.rs), clear_session_grants, and automation events in the shared log. Each
    log entry is labelled with the thread that wrote it; the label is not part of the log file. */
module Runtime {
  import opened Common
  import opened Audit
  import opened AgentRun
  import P = Policy

  datatype Thread = OfRun(corr: Uuid) | OfConfirm(key: nat) | Outside

  datatype Entry = Entry(thread: Thread, rec: Record)

  datatype ConfirmPhase = Granting | Checking | Executing | Answered | Cancelled | Refused

  /** One confirm call and its locals. */
  datatype Confirm = Confirm(corr: Uuid, call: Call, scope: Scope, phase: ConfirmPhase, response: Uuid)

  datatype Exec = Exec(thread: Thread, call: Call)

  datatype System = System(log: seq<Entry>, grants: set<string>, nextId: Uuid, runs: map<Uuid, Run>,
                           confirms: map<nat, Confirm>, execs: seq<Exec>)

  datatype Action =
    | StartRun(corr: Uuid, text: string)
    | RunAct(corr: Uuid, act: Act)
    | StartConfirm(key: nat, corr: Uuid, call: Call, scope: Scope)
    | ConfirmAct(key: nat, out: Option<Output>)
    | ClearGrants
    | Automation(corr: Uuid, cause: Uuid, body: string)

  const EMPTY := System([], {}, 0, map[], map[], [])

  function Append(s: System, t: Thread, rec: Record): System { s.(log := s.log + [Entry(t, rec)]) }

  function StepRun(cfg: Config, s: System, corr: Uuid, act: Act): System
    requires corr in s.runs
  {
    var r := s.runs[corr];
    var n := Step(cfg, s.grants, r, s.nextId, act);
    var logged := if |n.trace| > |r.trace| then Append(s, OfRun(corr), n.trace[|r.trace|]) else s;
    logged.(runs := s.runs[corr := n], nextId := s.nextId + 1,
    execs := if |n.execs| > |r.execs| then s.execs + [Exec(OfRun(corr), n.execs[|r.execs|])] else s.execs)
  }

  function BeginConfirm(s: System, key: nat, corr: Uuid, call: Call, scope: Scope): System {
    var rec := Record(s.nextId, corr, None, ConfirmationResponse(call.id, scope != Cancel, scope));
    var c := Confirm(corr, call, scope, if scope == Cancel then Cancelled else Granting, s.nextId);
    Append(s, OfConfirm(key), rec)
    .(confirms := s.confirms[key := c], nextId := s.nextId + 1)
  }

  // The result of a confirmed call.
  function Closing(id: Uuid, c: Confirm, o: Output): Record {
    Record(id, c.corr, Some(c.response), ToolResult(c.call.id, c.call.tool, o.ok, o.error))
  }

  function StepConfirm(cfg: Config, s: System, key: nat, out: Option<Output>): System
    requires key in s.confirms
  {
    var c := s.confirms[key];
    match c.phase
    case Granting =>
      s.(grants := if c.scope == Session then s.grants + {c.call.tool} else s.grants,
      confirms := s.confirms[key := c.(phase := Checking)])
    case Checking =>
      if c.call.tool !in cfg.tools || P.Decide(s.grants, cfg.tools[c.call.tool], c.call.args).verdict == P.Deny
      then s.(confirms := s.confirms[key := c.(phase := Refused)])
      else s.(confirms := s.confirms[key := c.(phase := Executing)])
    case Executing =>
      if !c.call.args.isObject then s.(confirms := s.confirms[key := c.(phase := Refused)])
      else
        var ran := s.(execs := s.execs + [Exec(OfConfirm(key), c.call)]);
        (match out
         case None => ran.(confirms := s.confirms[key := c.(phase := Refused)])
         case Some(o) =>
           Append(ran, OfConfirm(key), Closing(s.nextId, c, o))
           .(confirms := s.confirms[key := c.(phase := Answered)], nextId := s.nextId + 1))
    case _ => s
  }

  /** One action; one that nobody can take changes nothing. Ids of runs and confirms are fresh. */
  function Apply(cfg: Config, s: System, a: Action): System {
    match a
    case StartRun(corr, text) =>
      if corr in s.runs then s
      else
        var r := Begin(corr, s.nextId, text);
        Append(s, OfRun(corr), r.trace[0]).(runs := s.runs[corr := r], nextId := s.nextId + 1)
    case RunAct(corr, act) => if corr in s.runs then StepRun(cfg, s, corr, act) else s
    case StartConfirm(key, corr, call, scope) =>
      if key in s.confirms then s else BeginConfirm(s, key, corr, call, scope)
    case ConfirmAct(key, out) => if key in s.confirms then StepConfirm(cfg, s, key, out) else s
    case ClearGrants => s.(grants := {})
    case Automation(corr, cause, body) =>
      Append(s, Outside, Record(s.nextId, corr, Some(cause), Event(body))).(nextId := s.nextId + 1)
  }

  function After(cfg: Config, acts: seq<Action>): System {
    if acts == [] then EMPTY else Apply(cfg, After(cfg, acts[..|acts| - 1]), acts[|acts| - 1])
  }

  // ----- one thread's part -----

  function Written(log: seq<Entry>, t: Thread): seq<Record> {
    if log == [] then []
    else
      var e := log[|log| - 1];
      Written(log[..|log| - 1], t) + if e.thread == t then [e.rec] else []
  }

  lemma WrittenSnoc(log: seq<Entry>, e: Entry, t: Thread)
    ensures Written(log + [e], t) == Written(log, t) + if e.thread == t then [e.rec] else []
  {
    assert (log + [e])[..|log|] == log;
  }

  lemma {:induction false} WrittenIsLogged(log: seq<Entry>, t: Thread, i: nat)
    requires i < |Written(log, t)|
    ensures Entry(t, Written(log, t)[i]) in log
  {
    var n := |log| - 1;
    if i < |Written(log[..n], t)| {
      WrittenIsLogged(log[..n], t, i);
      assert forall e :: e in log[..n] ==> e in log;
    } else {
      assert log[n] in log;
    }
  }

  function Executed(execs: seq<Exec>, t: Thread): seq<Call> {
    if execs == [] then []
    else
      var e := execs[|execs| - 1];
      Executed(execs[..|execs| - 1], t) + if e.thread == t then [e.call] else []
  }

  lemma ExecutedSnoc(execs: seq<Exec>, e: Exec, t: Thread)
    ensures Executed(execs + [e], t) == Executed(execs, t) + if e.thread == t then [e.call] else []
  {
    assert (execs + [e])[..|execs|] == execs;
  }

  lemma {:induction false} ExecutedHas(execs: seq<Exec>, i: nat)
    requires i < |execs|
    ensures execs[i].call in Executed(execs, execs[i].thread)
  {
    var n := |execs| - 1;
    if i < n {
      ExecutedHas(execs[..n], i);
    }
  }

  // ----- the invariant -----

  ghost predicate RunKnown(cfg: Config, s: System, c: Uuid)
    requires c in s.runs
  {
    var r := s.runs[c];
    && r.corr == c && RunInv(cfg, r)
    && Written(s.log, OfRun(c)) == r.trace
    && Executed(s.execs, OfRun(c)) == r.execs
  }

  /** What a confirmation writes: its response and, once the tool has answered, the result that the response caused. */
  ghost predicate ConfirmLog(c: Confirm, w: seq<Record>) {
    && 1 <= |w| <= 2 && w[0].payload == ConfirmationResponse(c.call.id, c.scope != Cancel, c.scope)
    && w[0].id == c.response && w[0].correlation == c.corr && w[0].cause == None
    && (|w| == 2 <==> c.phase == Answered)
    && (|w| == 2 ==>
          && w[1].payload.ToolResult? && w[1].payload.callId == c.call.id && w[1].payload.tool == c.call.tool
          && w[1].correlation == c.corr && w[1].cause == Some(c.response))
  }

  // A call that the policy does not deny and the registry does not refuse.
  ghost predicate Runnable(cfg: Config, c: Call) { Permitted(cfg, c) && c.args.isObject }

  ghost predicate ConfirmKnown(cfg: Config, s: System, k: nat)
    requires k in s.confirms
  {
    var c := s.confirms[k];
    var w, x := Written(s.log, OfConfirm(k)), Executed(s.execs, OfConfirm(k));
    && ConfirmLog(c, w)
    && (c.scope == Cancel <==> c.phase == Cancelled)
    && c.response < s.nextId
    && (x == [] || (x == [c.call] && c.phase in {Answered, Refused} && Runnable(cfg, c.call)))
    && (c.phase == Executing ==> Permitted(cfg, c.call))
    && (c.phase in {Answered, Refused} && Runnable(cfg, c.call) ==> x == [c.call])
  }

  ghost predicate LogFits(s: System) {
    && (forall i | 0 <= i < |s.log| :: s.log[i].rec.id < s.nextId)
    && (forall i, j | 0 <= i < j < |s.log| :: s.log[i].rec.id < s.log[j].rec.id)
    && (forall i | 0 <= i < |s.log| && s.log[i].thread.OfRun? ::
          s.log[i].rec.correlation == s.log[i].thread.corr && !s.log[i].rec.payload.Event?)
    && (forall i | 0 <= i < |s.execs| :: !s.execs[i].thread.Outside?)
  }

  // A thread that nobody started has done nothing.
  ghost predicate Idle(s: System, t: Thread) { Written(s.log, t) == [] && Executed(s.execs, t) == [] }

  ghost predicate Inv(cfg: Config, s: System) {
    && LogFits(s)
    && (forall c | c in s.runs :: RunKnown(cfg, s, c))
    && (forall c | c !in s.runs :: Idle(s, OfRun(c)))
    && (forall k | k in s.confirms :: ConfirmKnown(cfg, s, k))
    && (forall k | k !in s.confirms :: Idle(s, OfConfirm(k)))
  }

  // What thread t and nobody else does to the log and the executions.
  ghost predicate OnlyBy(s: System, n: System, t: Thread) {
    && (n.log == s.log || (|n.log| == |s.log| + 1 && n.log == s.log + [n.log[|s.log|]] && n.log[|s.log|].thread == t &&
                           n.log[|s.log|].rec.id == s.nextId && n.nextId > s.nextId &&
                           (t.OfRun? ==>
                              n.log[|s.log|].rec.correlation == t.corr && !n.log[|s.log|].rec.payload.Event?)))
    && n.nextId >= s.nextId
    && (n.execs == s.execs || (|n.execs| == |s.execs| + 1 && n.execs == s.execs + [n.execs[|s.execs|]] &&
                               n.execs[|s.execs|].thread == t && !t.Outside?))
  }

  lemma OthersUntouched(s: System, n: System, t: Thread, u: Thread)
    requires OnlyBy(s, n, t) && u != t
    ensures Written(n.log, u) == Written(s.log, u) && Executed(n.execs, u) == Executed(s.execs, u)
    ensures n.nextId >= s.nextId
  {
    if n.log != s.log { WrittenSnoc(s.log, n.log[|s.log|], u); }
    if n.execs != s.execs { ExecutedSnoc(s.execs, n.execs[|s.execs|], u); }
  }

  lemma LogStillFits(s: System, n: System, t: Thread)
    requires LogFits(s) && OnlyBy(s, n, t)
    ensures LogFits(n)
  {}

  // Invariants of the threads that did not move.
  lemma OthersKept(cfg: Config, s: System, n: System, t: Thread)
    requires Inv(cfg, s) && OnlyBy(s, n, t)
    requires forall c | t != OfRun(c) :: (c in n.runs <==> c in s.runs) && (c in s.runs ==> n.runs[c] == s.runs[c])
    requires forall k | t != OfConfirm(k) ::
               (k in n.confirms <==> k in s.confirms) && (k in s.confirms ==> n.confirms[k] == s.confirms[k])
    requires t.OfRun? ==> if t.corr in n.runs then RunKnown(cfg, n, t.corr) else Idle(n, t)
    requires t.OfConfirm? ==> if t.key in n.confirms then ConfirmKnown(cfg, n, t.key) else Idle(n, t)
    ensures Inv(cfg, n)
  {
    hide OnlyBy, RunInv, LogFits, Written, Executed;
    LogStillFits(s, n, t);
    forall c | t != OfRun(c)
      ensures c in n.runs ==> RunKnown(cfg, n, c)
      ensures c !in n.runs ==> Idle(n, OfRun(c))
    {
      OthersUntouched(s, n, t, OfRun(c));
    }
    forall k | t != OfConfirm(k)
      ensures k in n.confirms ==> ConfirmKnown(cfg, n, k)
      ensures k !in n.confirms ==> Idle(n, OfConfirm(k))
    {
      OthersUntouched(s, n, t, OfConfirm(k));
    }
  }

  lemma BeginRunKnown(cfg: Config, s: System, corr: Uuid, text: string)
    requires Idle(s, OfRun(corr)) && corr !in s.runs
    ensures var n := Apply(cfg, s, StartRun(corr, text));
            corr in n.runs && RunKnown(cfg, n, corr) && OnlyBy(s, n, OfRun(corr))
  {
    hide RunInv, Written, Executed;
    var n := Apply(cfg, s, StartRun(corr, text));
    var r, e := n.runs[corr], n.log[|s.log|];
    WrittenSnoc(s.log, e, OfRun(corr));
    assert [] + [e.rec] == [e.rec];
    BeginInv(cfg, corr, s.nextId, text);
  }

  lemma BeginInv(cfg: Config, corr: Uuid, id: Uuid, text: string)
    ensures RunInv(cfg, Begin(corr, id, text))
  {
    hide LogInv, ShapeInv, Begin;
    BeginLog(cfg, corr, id, text);
    BeginShape(cfg, corr, id, text);
  }

  lemma StartRunKept(cfg: Config, s: System, corr: Uuid, text: string)
    requires Inv(cfg, s) && corr !in s.runs
    ensures Inv(cfg, Apply(cfg, s, StartRun(corr, text)))
  {
    hide Inv, OnlyBy, ConfirmKnown, RunKnown, Idle, LogFits, Begin, Written, Executed;
    InvParts(cfg, s);
    BeginRunKnown(cfg, s, corr, text);
    OthersKept(cfg, s, Apply(cfg, s, StartRun(corr, text)), OfRun(corr));
  }

  lemma InvParts(cfg: Config, s: System)
    requires Inv(cfg, s)
    ensures forall c | c !in s.runs :: Idle(s, OfRun(c))
    ensures forall c | c in s.runs :: RunKnown(cfg, s, c)
    ensures forall k | k !in s.confirms :: Idle(s, OfConfirm(k))
    ensures forall k | k in s.confirms :: ConfirmKnown(cfg, s, k)
    ensures LogFits(s)
  {}

  lemma StepRunInv(cfg: Config, grants: set<string>, r: Run, id: Uuid, act: Act)
    requires cfg.Valid() && RunInv(cfg, r)
    ensures RunInv(cfg, Step(cfg, grants, r, id, act))
  {
    hide LogInv, ShapeInv, Step;
    StepLog(cfg, grants, r, id, act);
    StepShape(cfg, grants, r, id, act);
  }

  // What a run step adds to the log and to the executions.
  lemma RunActOnly(cfg: Config, s: System, corr: Uuid, act: Act)
    requires corr in s.runs && s.runs[corr].corr == corr
    ensures var n := StepRun(cfg, s, corr, act);
            && OnlyBy(s, n, OfRun(corr))
            && n.runs[corr].corr == corr
            && (Written(s.log, OfRun(corr)) == s.runs[corr].trace ==> Written(n.log, OfRun(corr)) == n.runs[corr].trace)
            && (Executed(s.execs, OfRun(corr)) == s.runs[corr].execs ==>
                  Executed(n.execs, OfRun(corr)) == n.runs[corr].execs)
  {
    hide Step, ToExecute, Written, Executed;
    var n, r := StepRun(cfg, s, corr, act), s.runs[corr];
    var m := n.runs[corr];
    StepAppends(cfg, s.grants, r, s.nextId, act);
    if |m.trace| > |r.trace| {
      WrittenSnoc(s.log, n.log[|s.log|], OfRun(corr));
    }
    if |m.execs| > |r.execs| {
      ExecutedSnoc(s.execs, n.execs[|s.execs|], OfRun(corr));
    }
  }

  lemma RunActKept(cfg: Config, s: System, corr: Uuid, act: Act)
    requires cfg.Valid() && Inv(cfg, s) && corr in s.runs
    ensures Inv(cfg, Apply(cfg, s, RunAct(corr, act)))
  {
    hide Inv, RunInv, Step, OnlyBy, Written, Executed, LogFits;
    var n := StepRun(cfg, s, corr, act);
    InvParts(cfg, s);
    assert RunKnown(cfg, s, corr);
    StepRunInv(cfg, s.grants, s.runs[corr], s.nextId, act);
    RunActOnly(cfg, s, corr, act);
    OthersKept(cfg, s, n, OfRun(corr));
  }

  lemma BeginConfirmKnown(cfg: Config, s: System, key: nat, corr: Uuid, call: Call, scope: Scope)
    requires Idle(s, OfConfirm(key))
    ensures var n := BeginConfirm(s, key, corr, call, scope);
            ConfirmKnown(cfg, n, key) && OnlyBy(s, n, OfConfirm(key))
  {
    hide Permitted, Written, Executed;
    var n := BeginConfirm(s, key, corr, call, scope);
    WrittenSnoc(s.log, n.log[|s.log|], OfConfirm(key));
  }

  lemma StartConfirmKept(cfg: Config, s: System, key: nat, corr: Uuid, call: Call, scope: Scope)
    requires Inv(cfg, s) && key !in s.confirms
    ensures Inv(cfg, Apply(cfg, s, StartConfirm(key, corr, call, scope)))
  {
    hide Inv, OnlyBy, ConfirmKnown, RunKnown, Idle, LogFits;
    InvParts(cfg, s);
    BeginConfirmKnown(cfg, s, key, corr, call, scope);
    OthersKept(cfg, s, BeginConfirm(s, key, corr, call, scope), OfConfirm(key));
  }

  lemma ConfirmActKnown(cfg: Config, s: System, key: nat, out: Option<Output>)
    requires cfg.Valid() && key in s.confirms && ConfirmKnown(cfg, s, key)
    ensures var n := StepConfirm(cfg, s, key, out);
            ConfirmKnown(cfg, n, key) && OnlyBy(s, n, OfConfirm(key))
  {
    hide P.Denied, P.Decide, Written, Executed;
    var n, c := StepConfirm(cfg, s, key, out), s.confirms[key];
    if c.phase == Checking && c.call.tool in cfg.tools {
      P.GrantsNeverTouchDenial(s.grants, {}, cfg.tools[c.call.tool], c.call.args);
    }
    if n.log != s.log { WrittenSnoc(s.log, n.log[|s.log|], OfConfirm(key)); }
    if n.execs != s.execs { ExecutedSnoc(s.execs, n.execs[|s.execs|], OfConfirm(key)); }
  }

  lemma ConfirmActLocal(cfg: Config, s: System, key: nat, out: Option<Output>)
    requires key in s.confirms
    ensures var n := StepConfirm(cfg, s, key, out);
            && n.runs == s.runs && n.confirms.Keys == s.confirms.Keys
            && forall k | k in s.confirms && k != key :: n.confirms[k] == s.confirms[k]
  {
    hide P.Decide;
  }

  lemma ConfirmActKept(cfg: Config, s: System, key: nat, out: Option<Output>)
    requires cfg.Valid() && Inv(cfg, s) && key in s.confirms
    ensures Inv(cfg, Apply(cfg, s, ConfirmAct(key, out)))
  {
    hide Inv, OnlyBy, ConfirmKnown, RunKnown, Idle, LogFits, StepConfirm;
    InvParts(cfg, s);
    ConfirmActLocal(cfg, s, key, out);
    ConfirmActKnown(cfg, s, key, out);
    OthersKept(cfg, s, StepConfirm(cfg, s, key, out), OfConfirm(key));
  }

  lemma {:induction false} InvAfter(cfg: Config, acts: seq<Action>)
    requires cfg.Valid()
    ensures Inv(cfg, After(cfg, acts))
  {
    hide Inv, Apply;
    if acts == [] {
      EmptyInv(cfg);
    } else {
      var s, a := After(cfg, acts[..|acts| - 1]), acts[|acts| - 1];
      InvAfter(cfg, acts[..|acts| - 1]);
      ApplyKept(cfg, s, a);
    }
  }

  lemma EmptyInv(cfg: Config)
    ensures Inv(cfg, EMPTY)
  {}

  lemma ApplyKept(cfg: Config, s: System, a: Action)
    requires cfg.Valid() && Inv(cfg, s)
    ensures Inv(cfg, Apply(cfg, s, a))
  {
    hide Inv, StepRun, BeginConfirm, StepConfirm;
    match a
    case StartRun(corr, text) => if corr !in s.runs { StartRunKept(cfg, s, corr, text); }
    case RunAct(corr, act) => if corr in s.runs { RunActKept(cfg, s, corr, act); }
    case StartConfirm(key, corr, call, scope) =>
      if key !in s.confirms { StartConfirmKept(cfg, s, key, corr, call, scope); }
    case ConfirmAct(key, out) => if key in s.confirms { ConfirmActKept(cfg, s, key, out); }
    case ClearGrants => OthersKept(cfg, s, Apply(cfg, s, a), Outside);
    case Automation(_, _, _) => OthersKept(cfg, s, Apply(cfg, s, a), Outside);
  }

  // At most one record is added, with the next id.
  ghost predicate Grows(s: System, n: System) {
    n.log == s.log || (|n.log| == |s.log| + 1 && n.log[..|s.log|] == s.log && n.log[|s.log|].rec.id == s.nextId)
  }

  lemma OnlyByGrows(s: System, n: System, t: Thread)
    requires OnlyBy(s, n, t)
    ensures Grows(s, n)
  {}

  lemma LogGrows(cfg: Config, s: System, a: Action)
    requires cfg.Valid() && Inv(cfg, s)
    ensures Grows(s, Apply(cfg, s, a))
  {
    hide Inv, OnlyBy, StepRun, StepConfirm, RunInv, LogFits, Idle, Written, Executed;
    InvParts(cfg, s);
    match a
    case RunAct(corr, act) =>
      if corr in s.runs {
        assert RunKnown(cfg, s, corr);
        RunActOnly(cfg, s, corr, act);
        OnlyByGrows(s, StepRun(cfg, s, corr, act), OfRun(corr));
      }
    case ConfirmAct(key, out) =>
      if key in s.confirms {
        ConfirmActKnown(cfg, s, key, out);
        OnlyByGrows(s, StepConfirm(cfg, s, key, out), OfConfirm(key));
      }
    case _ =>
  }

  // ----- when tools execute -----

  /** Record k of a log is a decision that allows call c, which the record before proposes with its arguments. */
  predicate AllowedIn(t: seq<Record>, k: nat, c: Call) {
    0 < k < |t| && Allows(t[k - 1], t[k]) && t[k - 1].payload == CallPayload(c)
  }

  // Where the i-th allowed call of a log is decided.
  function DecisionAt(t: seq<Record>, i: nat): nat
    requires i < |AllowedCalls(t)|
  {
    var n := |t| - 1;
    if i < |AllowedCalls(t[..n])| then DecisionAt(t[..n], i) else n
  }

  lemma {:induction false} DecisionAllows(t: seq<Record>, i: nat)
    requires i < |AllowedCalls(t)|
    ensures AllowedIn(t, DecisionAt(t, i), AllowedCalls(t)[i])
  {
    var n := |t| - 1;
    if i < |AllowedCalls(t[..n])| {
      DecisionAllows(t[..n], i);
    }
  }

  lemma {:induction false} DecisionsInOrder(t: seq<Record>, i: nat, j: nat)
    requires i < j < |AllowedCalls(t)|
    ensures DecisionAt(t, i) < DecisionAt(t, j)
  {
    var n := |t| - 1;
    DecisionAllows(t, i);
    if j < |AllowedCalls(t[..n])| {
      DecisionsInOrder(t[..n], i, j);
    } else {
      DecisionAllows(t[..n], i);
    }
  }

  /** What thread t wrote allows call c: a decision on it that stands in the log of its run, or a confirmation. */
  ghost predicate Authorized(s: System, t: Thread, c: Call) {
    match t
    case OfRun(_) => exists k :: AllowedIn(Written(s.log, t), k, c)
    case OfConfirm(_) => exists scope :: ConfirmedIn(Written(s.log, t), c, scope)
    case Outside => false
  }

  predicate ConfirmedIn(t: seq<Record>, c: Call, scope: Scope) {
    t != [] && t[0].payload == ConfirmationResponse(c.id, true, scope)
  }

  /** In every interleaving, whatever tool was executed is registered and not denied for its
      arguments, and was allowed by a decision on that call in the log of its run or by a confirmation
      that was not a cancel; a confirmation executes its call once at most. No kill reaches process 0 or 1. */
  lemma EveryExecutionIsAuthorized(cfg: Config, acts: seq<Action>, i: nat, host: P.Host)
    requires cfg.Valid() && i < |After(cfg, acts).execs|
    ensures var s := After(cfg, acts);
            var e := s.execs[i];
            && Permitted(cfg, e.call) && Authorized(s, e.thread, e.call)
            && (e.thread.OfConfirm? ==> Executed(s.execs, e.thread) == [e.call])
            && (e.call.tool == P.KILL && P.Signalled(e.call.args, host).Some? ==>
                  P.Signalled(e.call.args, host).value > 1)
  {
    hide Inv, After, RunInv, P.LooksLikeInjection, Executed, AllowedCalls, AllowedIn, Written, LogFits;
    InvAfter(cfg, acts);
    var s := After(cfg, acts);
    InvParts(cfg, s);
    var e := s.execs[i];
    ExecutedHas(s.execs, i);
    match e.thread {
      case OfRun(c) =>
        assert c in s.runs;
        var j :| 0 <= j < |s.runs[c].execs| && s.runs[c].execs[j] == e.call;
        RunExecAuthorized(cfg, s, c, j);
      case OfConfirm(k) =>
        assert k in s.confirms;
        ConfirmExecAuthorized(cfg, s, k, e.call);
      case Outside => ExecsHaveThreads(s, i);
    }
    if e.call.tool == P.KILL {
      P.KillSparesInit(cfg.tools[e.call.tool], e.call.args, host);
    }
  }

  lemma ExecsHaveThreads(s: System, i: nat)
    requires LogFits(s) && i < |s.execs|
    ensures !s.execs[i].thread.Outside?
  {}

  lemma ConfirmExecAuthorized(cfg: Config, s: System, k: nat, call: Call)
    requires k in s.confirms && ConfirmKnown(cfg, s, k) && call in Executed(s.execs, OfConfirm(k))
    ensures Permitted(cfg, call) && Authorized(s, OfConfirm(k), call)
    ensures Executed(s.execs, OfConfirm(k)) == [call]
  {
    hide Written, Executed, Permitted;
    assert ConfirmedIn(Written(s.log, OfConfirm(k)), call, s.confirms[k].scope);
  }

  lemma RunExecs(cfg: Config, r: Run)
    requires RunInv(cfg, r)
    ensures r.execs <= AllowedCalls(r.trace)
    ensures forall j | 0 <= j < |r.execs| :: Permitted(cfg, r.execs[j])
  {
    hide ShapeInv, Tip, EventInv, ReplayInv, AllowedCalls, Permitted;
  }

  lemma RunExecAuthorized(cfg: Config, s: System, c: Uuid, j: nat)
    requires c in s.runs && RunKnown(cfg, s, c) && j < |s.runs[c].execs|
    ensures Permitted(cfg, s.runs[c].execs[j]) && Authorized(s, OfRun(c), s.runs[c].execs[j])
    ensures s.runs[c].execs <= AllowedCalls(Written(s.log, OfRun(c)))
  {
    hide RunInv, AllowedCalls, Written, Executed, AllowedIn, Permitted;
    RunExecs(cfg, s.runs[c]);
    DecisionAllows(s.runs[c].trace, j);
  }

  /** However a run ended, its i-th execution is that of the i-th allow decision in its log, with the arguments
      logged for it; so no decision executes twice. */
  lemma EachDecisionExecutesOnce(cfg: Config, acts: seq<Action>, c: Uuid)
    requires cfg.Valid()
    ensures var s := After(cfg, acts);
            var t, x := Written(s.log, OfRun(c)), Executed(s.execs, OfRun(c));
            && x <= AllowedCalls(t)
            && (forall i | 0 <= i < |x| :: AllowedIn(t, DecisionAt(t, i), x[i]))
            && (forall i, j | 0 <= i < j < |x| :: DecisionAt(t, i) < DecisionAt(t, j))
  {
    hide Inv, After, RunInv, Executed, AllowedCalls, AllowedIn, Written, LogFits, DecisionAt;
    InvAfter(cfg, acts);
    var s := After(cfg, acts);
    InvParts(cfg, s);
    if c in s.runs {
      RunExecs(cfg, s.runs[c]);
    }
    var t, x := Written(s.log, OfRun(c)), Executed(s.execs, OfRun(c));
    forall i | 0 <= i < |x| ensures AllowedIn(t, DecisionAt(t, i), x[i]) {
      DecisionAllows(t, i);
    }
    forall i, j | 0 <= i < j < |x| ensures DecisionAt(t, i) < DecisionAt(t, j) {
      DecisionsInOrder(t, i, j);
    }
  }

  // ----- the log of a run, and its replay -----

  /** Whatever else was going on, the records that an Ok run wrote have the shape of OkShape, name
      their causes, and are mirrored by the returned events. */
  lemma OkRunLog(cfg: Config, acts: seq<Action>, c: Uuid)
    requires cfg.Valid() && c in After(cfg, acts).runs
    ensures var s := After(cfg, acts);
            var r, t := s.runs[c], Written(s.log, OfRun(c));
            && WellCaused(t) && r.events == Mirror(t) && |r.events| == |t| - 1
            && (r.phase.Completed? || r.phase.Asked? ==>
                  (exists bs :: OkShape(cfg.maxIters, t, bs, r.phase.Asked?)) && AllowedCalls(t) == r.execs)
  {
    hide After, Inv, OkShape;
    InvAfter(cfg, acts);
    InvParts(cfg, After(cfg, acts));
    var r := After(cfg, acts).runs[c];
    assert RunKnown(cfg, After(cfg, acts), c);
    if r.phase.Completed? || r.phase.Asked? {
      assert OkShape(cfg.maxIters, r.trace, r.blocks, r.phase.Asked?);
    }
  }

  function Records(log: seq<Entry>): seq<Record> { seq(|log|, i requires 0 <= i < |log| => log[i].rec) }

  /** Nobody but the run itself, and events, has written under its correlation id. */
  ghost predicate Alone(log: seq<Entry>, c: Uuid) {
    forall i | 0 <= i < |log| && log[i].rec.correlation == c :: log[i].thread == OfRun(c) || log[i].rec.payload.Event?
  }

  lemma {:induction false} OwnRecords(log: seq<Entry>, c: Uuid)
    requires Alone(log, c)
    requires forall i | 0 <= i < |log| && log[i].thread == OfRun(c) ::
               log[i].rec.correlation == c && !log[i].rec.payload.Event?
    ensures WithoutEvents(ByCorrelation(Records(log), c)) == Written(log, OfRun(c))
  {
    if log != [] {
      var n := |log| - 1;
      OwnRecords(log[..n], c);
      var rs, found := Records(log), ByCorrelation(Records(log[..n]), c);
      assert rs[..n] == Records(log[..n]);
      if rs[n].correlation == c {
        assert (found + [rs[n]])[..|found|] == found;
      } else {
        assert found + [] == found;
      }
    }
  }

  // No confirmation of a call of c is among the actions.
  ghost predicate NoConfirmOf(acts: seq<Action>, c: Uuid) {
    forall i | 0 <= i < |acts| && acts[i].StartConfirm? :: acts[i].corr != c
  }

  // Only runs and, outside of any, events write under c.
  ghost predicate ConfirmsElsewhere(s: System, c: Uuid) {
    && (forall k | k in s.confirms :: s.confirms[k].corr != c)
    && forall i | 0 <= i < |s.log| ::
         (s.log[i].thread.OfConfirm? ==> s.log[i].rec.correlation != c) &&
         (s.log[i].thread.Outside? ==> s.log[i].rec.payload.Event?)
  }

  lemma ConfirmActElsewhere(cfg: Config, s: System, key: nat, out: Option<Output>, c: Uuid)
    requires key in s.confirms && ConfirmsElsewhere(s, c)
    ensures ConfirmsElsewhere(StepConfirm(cfg, s, key, out), c)
  {
    hide P.Decide;
  }

  lemma ElsewhereKept(cfg: Config, s: System, a: Action, c: Uuid)
    requires ConfirmsElsewhere(s, c) && (a.StartConfirm? ==> a.corr != c)
    ensures ConfirmsElsewhere(Apply(cfg, s, a), c)
  {
    hide Step, StepConfirm, Begin;
    match a
    case ConfirmAct(key, out) => if key in s.confirms { ConfirmActElsewhere(cfg, s, key, out, c); }
    case _ =>
  }

  lemma {:induction false} NoConfirmLeavesElsewhere(cfg: Config, acts: seq<Action>, c: Uuid)
    requires NoConfirmOf(acts, c)
    ensures ConfirmsElsewhere(After(cfg, acts), c)
  {
    hide Apply;
    if acts != [] {
      NoConfirmLeavesElsewhere(cfg, acts[..|acts| - 1], c);
      ElsewhereKept(cfg, After(cfg, acts[..|acts| - 1]), acts[|acts| - 1], c);
    }
  }

  /** Until a confirmation of one of its calls starts, nobody but a run, and events, writes under its id. */
  lemma AloneUntilConfirm(cfg: Config, acts: seq<Action>, c: Uuid)
    requires cfg.Valid() && NoConfirmOf(acts, c)
    ensures Alone(After(cfg, acts).log, c)
  {
    hide After, Inv, NoConfirmOf;
    InvAfter(cfg, acts);
    InvParts(cfg, After(cfg, acts));
    NoConfirmLeavesElsewhere(cfg, acts, c);
  }

  /** Replaying a run's correlation id, before any confirm and with events anywhere between, reports
      the diagnosis and nothing pending when it completed, the open question when it asked, and one
      avoided side effect for every dangerous call and for the question. */
  lemma ReplayTellsTheRun(cfg: Config, acts: seq<Action>, c: Uuid)
    requires cfg.Valid() && c in After(cfg, acts).runs && NoConfirmOf(acts, c)
    ensures var s := After(cfg, acts);
            var r, report := s.runs[c], Replay(ByCorrelation(Records(s.log), c));
            && report.(steps := []) == Replay(r.trace).(steps := [])
            && (r.phase.Completed? ==> report.summary == Some(r.phase.diagnosis) && report.pending == None)
            && (r.phase.Asked? ==> report.pending == Some(r.phase.pending.summary))
            && (r.phase.Completed? || r.phase.Asked? ==>
                  |report.sideEffects| == DangerousCalls(r.trace) + if r.phase.Asked? then 1 else 0)
  {
    hide After, Inv, Replay, ByCorrelation, WithoutEvents, DangerousCalls, ShapeInv, NoConfirmOf;
    InvAfter(cfg, acts);
    AloneUntilConfirm(cfg, acts, c);
    var s := After(cfg, acts);
    InvParts(cfg, s);
    assert RunKnown(cfg, s, c);
    OwnRecords(s.log, c);
    EventsDoNotMatter(ByCorrelation(Records(s.log), c));
    SideEffectCount(s.runs[c].trace);
  }
}
