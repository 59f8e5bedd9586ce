/** Whether a confirmation answers a question. confirm_in_session (crates/ai-runtime/src/lib.rs) looks neither for the
    question that a run asked nor for an earlier answer to it; this module finds out what its callers must see to. */
module Confirmations {
  import opened Common
  import opened Audit
  import opened AgentRun
  import opened Runtime
  import opened ConfirmLoop
  import P = Policy

  predicate AsksAbout(p: Payload, call: Call) {
    p.ConfirmationRequest? && p.callId == call.id && p.tool == call.tool && p.args == call.args
  }

  // Run corr asked about this very call, in a record older than id t.
  ghost predicate AskedBefore(log: seq<Entry>, corr: Uuid, call: Call, t: Uuid) {
    exists i :: 0 <= i < |log| && AskedAt(log[i], corr, call) && log[i].rec.id < t
  }

  predicate AskedAt(e: Entry, corr: Uuid, call: Call) { e.thread == OfRun(corr) && AsksAbout(e.rec.payload, call) }

  ghost predicate WasAsked(s: System, c: Confirm) { AskedBefore(s.log, c.corr, c.call, c.response) }

  predicate SameQuestion(c: Confirm, d: Confirm) { c.corr == d.corr && c.call == d.call }

  ghost predicate Ran(s: System, k: nat) { k in s.confirms && Executed(s.execs, OfConfirm(k)) != [] }

  /** Every confirmed execution is of a call that a run had asked about, with its id, tool and arguments, and no
      question is executed twice. */
  ghost predicate Faithful(s: System) {
    && (forall k | Ran(s, k) :: WasAsked(s, s.confirms[k]))
    && forall k, j | Ran(s, k) && Ran(s, j) && k != j :: !SameQuestion(s.confirms[k], s.confirms[j])
  }

  // ----- what a caller can check before a confirmation -----

  // A confirmation that will call its tool.
  ghost predicate Counts(cfg: Config, c: Confirm) { c.scope != Cancel && Runnable(cfg, c.call) }

  /** A confirmation that starts in s, is no cancel and has a call that can run, names a question that the log has, and
      no such confirmation has named it before. */
  ghost predicate Warranted(cfg: Config, s: System, a: Action) {
    a.StartConfirm? && a.key !in s.confirms && a.scope != Cancel && Runnable(cfg, a.call) ==>
      && AskedBefore(s.log, a.corr, a.call, s.nextId)
      && forall k | k in s.confirms && Counts(cfg, s.confirms[k]) ::
           !(s.confirms[k].corr == a.corr && s.confirms[k].call == a.call)
  }

  ghost predicate AllWarranted(cfg: Config, acts: seq<Action>) {
    acts == [] ||
    (AllWarranted(cfg, acts[..|acts| - 1]) && Warranted(cfg, After(cfg, acts[..|acts| - 1]), acts[|acts| - 1]))
  }

  // ----- what stays -----

  predicate SameConfirm(c: Confirm, d: Confirm) {
    c.corr == d.corr && c.call == d.call && c.scope == d.scope && c.response == d.response
  }

  ghost predicate Stays(s: System, n: System, k: nat)
    requires k in s.confirms
  {
    && k in n.confirms && SameConfirm(n.confirms[k], s.confirms[k])
    && (WasAsked(n, n.confirms[k]) <==> WasAsked(s, s.confirms[k]))
  }

  ghost predicate AllStay(s: System, n: System) { forall k | k in s.confirms :: Stays(s, n, k) }

  lemma AskedStays(s: System, n: System, corr: Uuid, call: Call, t: Uuid)
    requires Grows(s, n) && t <= s.nextId
    ensures AskedBefore(n.log, corr, call, t) <==> AskedBefore(s.log, corr, call, t)
  {
    hide AskedAt;
    if i :| 0 <= i < |s.log| && AskedAt(s.log[i], corr, call) && s.log[i].rec.id < t {
      assert n.log[..|s.log|][i] == n.log[i] == s.log[i];
    }
    if i :| 0 <= i < |n.log| && AskedAt(n.log[i], corr, call) && n.log[i].rec.id < t {
      assert i < |s.log| && n.log[..|s.log|][i] == n.log[i];
    }
  }

  // The confirmations that are there, and the one that a starts.
  lemma ConfirmActStays(cfg: Config, s: System, key: nat, out: Option<Output>)
    requires key in s.confirms
    ensures var n := StepConfirm(cfg, s, key, out);
            && n.confirms.Keys == s.confirms.Keys
            && forall k | k in s.confirms :: SameConfirm(n.confirms[k], s.confirms[k])
  {
    hide P.Decide;
  }

  lemma ConfirmsStay(cfg: Config, s: System, a: Action)
    ensures var n := Apply(cfg, s, a);
            && (forall k | k in s.confirms :: k in n.confirms && SameConfirm(n.confirms[k], s.confirms[k]))
            && (forall k | k in n.confirms && k !in s.confirms ::
                  a.StartConfirm? && k == a.key && a.key !in s.confirms)
            && (a.StartConfirm? && a.key !in s.confirms ==>
                  && a.key in n.confirms
                  && var c := n.confirms[a.key];
                  c.corr == a.corr && c.call == a.call && c.scope == a.scope && c.response == s.nextId)
  {
    hide StepConfirm;
    match a
    case ConfirmAct(key, out) => if key in s.confirms { ConfirmActStays(cfg, s, key, out); }
    case _ =>
  }

  lemma ActKeeps(cfg: Config, s: System, a: Action)
    requires cfg.Valid() && Inv(cfg, s)
    ensures AllStay(s, Apply(cfg, s, a))
  {
    hide Inv, Apply, Grows, AskedBefore, RunKnown, Idle, LogFits, Written, Executed;
    var n := Apply(cfg, s, a);
    InvParts(cfg, s);
    LogGrows(cfg, s, a);
    ConfirmsStay(cfg, s, a);
    forall k | k in s.confirms ensures Stays(s, n, k) {
      var c := s.confirms[k];
      assert ConfirmKnown(cfg, s, k);
      AskedStays(s, n, c.corr, c.call, c.response);
    }
  }

  // ----- the condition on actions, read off the state -----

  ghost predicate Sound(cfg: Config, s: System) {
    && (forall k | k in s.confirms && Counts(cfg, s.confirms[k]) :: WasAsked(s, s.confirms[k]))
    && forall k, j | k in s.confirms && j in s.confirms && k != j &&
                     Counts(cfg, s.confirms[k]) && Counts(cfg, s.confirms[j]) ::
         !SameQuestion(s.confirms[k], s.confirms[j])
  }

  lemma SoundSame(cfg: Config, s: System, n: System)
    requires AllStay(s, n) && n.confirms.Keys == s.confirms.Keys
    ensures Sound(cfg, n) <==> Sound(cfg, s)
  {
    hide WasAsked, Runnable;
    assert forall k | k in s.confirms :: Stays(s, n, k);
  }

  // One confirmation more.
  lemma SoundMore(cfg: Config, s: System, n: System, key: nat)
    requires AllStay(s, n) && key !in s.confirms && n.confirms.Keys == s.confirms.Keys + {key}
    ensures Sound(cfg, n) <==>
            && Sound(cfg, s)
            && (Counts(cfg, n.confirms[key]) ==>
                  && WasAsked(n, n.confirms[key])
                  && forall k | k in s.confirms && Counts(cfg, s.confirms[k]) ::
                       !SameQuestion(s.confirms[k], n.confirms[key]))
  {
    hide WasAsked, Runnable;
    assert key in n.confirms;
    assert forall k | k in s.confirms :: Stays(s, n, k);
  }

  lemma SoundStep(cfg: Config, s: System, a: Action)
    requires cfg.Valid() && Inv(cfg, s)
    ensures Sound(cfg, Apply(cfg, s, a)) <==> Sound(cfg, s) && Warranted(cfg, s, a)
  {
    hide Inv, Apply, AskedBefore, Runnable, Grows, AllStay, Sound;
    var n := Apply(cfg, s, a);
    ActKeeps(cfg, s, a);
    ConfirmsStay(cfg, s, a);
    LogGrows(cfg, s, a);
    if a.StartConfirm? && a.key !in s.confirms {
      AskedStays(s, n, a.corr, a.call, s.nextId);
      SoundMore(cfg, s, n, a.key);
    } else {
      SoundSame(cfg, s, n);
    }
  }

  lemma {:induction false} SoundIff(cfg: Config, acts: seq<Action>)
    requires cfg.Valid()
    ensures Sound(cfg, After(cfg, acts)) <==> AllWarranted(cfg, acts)
  {
    hide Sound, Warranted, Inv, Apply;
    if acts == [] {
      assert Sound(cfg, After(cfg, [])) by { NothingConfirmed(cfg); }
    } else {
      SoundIff(cfg, acts[..|acts| - 1]);
      InvAfter(cfg, acts[..|acts| - 1]);
      SoundStep(cfg, After(cfg, acts[..|acts| - 1]), acts[|acts| - 1]);
    }
  }

  lemma NothingConfirmed(cfg: Config)
    ensures Sound(cfg, After(cfg, []))
  {}

  lemma SoundIsFaithful(cfg: Config, s: System)
    requires Inv(cfg, s) && Sound(cfg, s)
    ensures Faithful(s)
  {
    hide Inv, WasAsked, Written, Executed, Runnable, LogFits, RunKnown, Idle;
    InvParts(cfg, s);
    forall k | Ran(s, k) ensures Counts(cfg, s.confirms[k]) {
      assert ConfirmKnown(cfg, s, k);
    }
  }

  // ----- confirmations that run to their end -----

  function Finish(key: nat): seq<Action> { [ConfirmAct(key, None)] + [ConfirmAct(key, None)] + [ConfirmAct(key, None)] }

  function Left(c: Confirm): nat {
    match c.phase
    case Granting => 3
    case Checking => 2
    case Executing => 1
    case _ => 0
  }

  // One more step of a confirmation that counts, and nothing happens to the others.
  lemma Advances(cfg: Config, s: System, key: nat)
    requires cfg.Valid() && Inv(cfg, s) && key in s.confirms && Counts(cfg, s.confirms[key])
    ensures var n := Apply(cfg, s, ConfirmAct(key, None));
            var left := Left(s.confirms[key]);
            && key in n.confirms && Left(n.confirms[key]) <= (if left == 0 then 0 else left - 1)
            && AllStay(s, n)
            && forall k | k in s.confirms && k != key :: k in n.confirms && n.confirms[k] == s.confirms[k]
  {
    hide Inv, AllStay, RunKnown, Idle, LogFits, Written, Executed, P.Denied, P.Decide;
    ActKeeps(cfg, s, ConfirmAct(key, None));
    ConfirmActLocal(cfg, s, key, None);
    var c := s.confirms[key];
    P.GrantsNeverTouchDenial(s.grants, {}, cfg.tools[c.call.tool], c.call.args);
  }

  lemma StayTrans(s: System, m: System, n: System)
    requires AllStay(s, m) && AllStay(m, n)
    ensures AllStay(s, n)
  {
    hide WasAsked;
    forall k | k in s.confirms ensures Stays(s, n, k) {
      assert Stays(s, m, k) && Stays(m, n, k);
    }
  }

  lemma CountsStays(cfg: Config, s: System, n: System, k: nat)
    requires AllStay(s, n) && k in s.confirms
    ensures k in n.confirms && (Counts(cfg, n.confirms[k]) <==> Counts(cfg, s.confirms[k]))
    ensures n.confirms[k].corr == s.confirms[k].corr && n.confirms[k].call == s.confirms[k].call
    ensures WasAsked(n, n.confirms[k]) <==> WasAsked(s, s.confirms[k])
  {
    hide WasAsked, Runnable;
    assert Stays(s, n, k);
  }

  lemma Finishes(cfg: Config, acts: seq<Action>, key: nat)
    requires cfg.Valid() && key in After(cfg, acts).confirms && Counts(cfg, After(cfg, acts).confirms[key])
    ensures var s, n := After(cfg, acts), After(cfg, acts + Finish(key));
            && AllStay(s, n) && key in n.confirms && Left(n.confirms[key]) == 0
            && forall k | k in s.confirms && k != key :: k in n.confirms && n.confirms[k] == s.confirms[k]
  {
    hide Inv, AllStay, Counts, After, Apply, Left;
    var step := ConfirmAct(key, None);
    var a1 := acts + [step];
    var a2 := a1 + [step];
    assert acts + Finish(key) == a2 + [step];
    AfterOne(cfg, acts, step);
    AfterOne(cfg, a1, step);
    AfterOne(cfg, a2, step);
    InvAfter(cfg, acts);
    InvAfter(cfg, a1);
    InvAfter(cfg, a2);
    var s := After(cfg, acts);
    Advances(cfg, s, key);
    CountsStays(cfg, s, After(cfg, a1), key);
    Advances(cfg, After(cfg, a1), key);
    StayTrans(s, After(cfg, a1), After(cfg, a2));
    CountsStays(cfg, s, After(cfg, a2), key);
    Advances(cfg, After(cfg, a2), key);
    StayTrans(s, After(cfg, a2), After(cfg, a2 + [step]));
    LeftAtMost(s.confirms[key]);
  }

  lemma LeftAtMost(c: Confirm)
    ensures Left(c) <= 3
  {}

  lemma OverHasRun(cfg: Config, acts: seq<Action>, k: nat)
    requires cfg.Valid() && k in After(cfg, acts).confirms
    requires Counts(cfg, After(cfg, acts).confirms[k]) && Left(After(cfg, acts).confirms[k]) == 0
    ensures Ran(After(cfg, acts), k)
  {
    hide Inv, After, Written, Executed, Runnable, LogFits, RunKnown, Idle;
    InvAfter(cfg, acts);
    InvParts(cfg, After(cfg, acts));
    assert ConfirmKnown(cfg, After(cfg, acts), k);
  }

  // ----- the theorem -----

  ghost predicate OnlyGoOn(more: seq<Action>) { forall i | 0 <= i < |more| :: more[i].ConfirmAct? }

  lemma {:induction false} GoingOnStaysWarranted(cfg: Config, acts: seq<Action>, more: seq<Action>)
    requires AllWarranted(cfg, acts) && OnlyGoOn(more)
    ensures AllWarranted(cfg, acts + more)
    decreases |more|
  {
    if more == [] {
      assert acts + more == acts;
    } else {
      GoingOnStaysWarranted(cfg, acts, more[..|more| - 1]);
      assert (acts + more)[..|acts + more| - 1] == acts + more[..|more| - 1];
    }
  }

  // A confirmation of a call that nobody asked about runs,
  lemma UnaskedRuns(cfg: Config, acts: seq<Action>, k: nat)
    requires cfg.Valid() && k in After(cfg, acts).confirms
    requires Counts(cfg, After(cfg, acts).confirms[k]) && !WasAsked(After(cfg, acts), After(cfg, acts).confirms[k])
    ensures OnlyGoOn(Finish(k)) && !Faithful(After(cfg, acts + Finish(k)))
  {
    hide After, WasAsked, Counts, AllStay, Left;
    Finishes(cfg, acts, k);
    CountsStays(cfg, After(cfg, acts), After(cfg, acts + Finish(k)), k);
    OverHasRun(cfg, acts + Finish(k), k);
  }

  // and so does a second one of the same question.
  lemma RepeatedRuns(cfg: Config, acts: seq<Action>, k: nat, j: nat)
    requires cfg.Valid() && k != j && k in After(cfg, acts).confirms && j in After(cfg, acts).confirms
    requires var s := After(cfg, acts);
             Counts(cfg, s.confirms[k]) && Counts(cfg, s.confirms[j]) && SameQuestion(s.confirms[k], s.confirms[j])
    ensures OnlyGoOn(Finish(k) + Finish(j)) && !Faithful(After(cfg, acts + (Finish(k) + Finish(j))))
  {
    hide After, WasAsked, Counts, AllStay, Left;
    var s, m := After(cfg, acts), After(cfg, acts + Finish(k));
    Finishes(cfg, acts, k);
    CountsStays(cfg, s, m, k);
    CountsStays(cfg, s, m, j);
    var all := acts + Finish(k) + Finish(j);
    assert all == acts + (Finish(k) + Finish(j));
    Finishes(cfg, acts + Finish(k), j);
    CountsStays(cfg, m, After(cfg, all), k);
    CountsStays(cfg, m, After(cfg, all), j);
    OverHasRun(cfg, all, k);
    OverHasRun(cfg, all, j);
  }

  /** However the confirmations that have started go on, they execute only what a run had asked about, and each question
      once, exactly when every one of them was warranted as it started. The runtime does not check that. */
  lemma ConfirmationsAnswerQuestions(cfg: Config, acts: seq<Action>)
    requires cfg.Valid()
    ensures (forall more | OnlyGoOn(more) :: Faithful(After(cfg, acts + more))) <==> AllWarranted(cfg, acts)
  {
    hide After, Faithful, Inv, AllWarranted, OnlyGoOn, WasAsked, Counts, SameQuestion;
    SoundIff(cfg, acts);
    if AllWarranted(cfg, acts) {
      forall more | OnlyGoOn(more) ensures Faithful(After(cfg, acts + more)) {
        GoingOnStaysWarranted(cfg, acts, more);
        SoundIff(cfg, acts + more);
        InvAfter(cfg, acts + more);
        SoundIsFaithful(cfg, After(cfg, acts + more));
      }
    } else {
      var s := After(cfg, acts);
      if k :| k in s.confirms && Counts(cfg, s.confirms[k]) && !WasAsked(s, s.confirms[k]) {
        UnaskedRuns(cfg, acts, k);
      } else {
        var k, j :| k in s.confirms && j in s.confirms && k != j &&
                    Counts(cfg, s.confirms[k]) && Counts(cfg, s.confirms[j]) &&
                    SameQuestion(s.confirms[k], s.confirms[j]);
        RepeatedRuns(cfg, acts, k, j);
      }
    }
  }

  /** Two confirmations of a call that nobody proposed or asked about both execute it, without any run. */
  lemma NobodyAsked(cfg: Config, corr: Uuid, call: Call)
    requires cfg.Valid() && Runnable(cfg, call)
    ensures var first := [StartConfirm(0, corr, call, Once)] + Finish(0);
            var s := After(cfg, first + ([StartConfirm(1, corr, call, Once)] + Finish(1)));
            && s.runs == map[] && s.execs == [Exec(OfConfirm(0), call), Exec(OfConfirm(1), call)]
  {
    hide After, StepConfirm, BeginConfirm, Confirmed, Records;
    var first := [StartConfirm(0, corr, call, Once)] + Finish(0);
    OneMoreRuns(cfg, [], 0, corr, call) by { NoActs(cfg); }
    assert [] + first == first;
    NoActs(cfg);
    OneMoreRuns(cfg, first, 1, corr, call);
  }

  lemma NoActs(cfg: Config)
    ensures After(cfg, []) == EMPTY
  {}

  lemma OneMoreRuns(cfg: Config, acts: seq<Action>, key: nat, corr: Uuid, call: Call)
    requires cfg.Valid() && Runnable(cfg, call) && key !in After(cfg, acts).confirms
    ensures var s := After(cfg, acts);
            var n := After(cfg, acts + ([StartConfirm(key, corr, call, Once)] + Finish(key)));
            && n.runs == s.runs && n.confirms.Keys == s.confirms.Keys + {key}
            && n.execs == s.execs + [Exec(OfConfirm(key), call)]
  {
    hide After, StepConfirm, BeginConfirm, Confirmed, Records, P.Decide, P.Denied;
    var step := ConfirmAct(key, None);
    assert acts + ([StartConfirm(key, corr, call, Once)] + Finish(key))
        == acts + [StartConfirm(key, corr, call, Once)] + [step] + [step] + [step];
    ConfirmedIsARun(cfg, acts, key, corr, call, Once, None);
    ConfirmedMeans(cfg, After(cfg, acts), key, corr, call, Once, None);
    P.GrantsNeverTouchDenial(After(cfg, acts).grants, {}, cfg.tools[call.tool], call.args);
  }
}
