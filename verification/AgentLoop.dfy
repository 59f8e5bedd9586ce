/** The loop of handle_user_text_inner (crates/ai-runtime/src/lib.rs) as one method: a loop over
    iterations and one over tool calls, with early returns. It takes the steps of AgentRun. */
module AgentLoop {
  import opened Common
  import opened Audit
  import opened AgentRun

  /** What the loop meets at each point, by the id the next record would get: the model's answer or
      its failure, the grants in force, and what a tool returns or its failure. */
  datatype World = World(model: Uuid -> Option<Reply>, grants: Uuid -> set<string>, tool: Uuid -> Option<Output>)

  /** A step and what it saw. */
  datatype Move = Move(grants: set<string>, id: Uuid, act: Act)

  // The move saw what the world had to show.
  predicate FromWorld(w: World, m: Move) {
    && m.grants == w.grants(m.id)
    && match m.act
       case Model(reply) => w.model(m.id) == Some(reply)
       case Tool(out) => out == w.tool(m.id)
       case Abort => w.model(m.id) == None
       case Go => true
  }

  ghost predicate AllFromWorld(w: World, ms: seq<Move>) { forall i | 0 <= i < |ms| :: FromWorld(w, ms[i]) }

  function Steps(cfg: Config, r: Run, ms: seq<Move>): Run {
    if ms == [] then r
    else
      var m := ms[|ms| - 1];
      Step(cfg, m.grants, Steps(cfg, r, ms[..|ms| - 1]), m.id, m.act)
  }

  // r is where the moves lead from start, and keeps the invariant.
  ghost predicate At(cfg: Config, start: Run, ms: seq<Move>, r: Run) { r == Steps(cfg, start, ms) && RunInv(cfg, r) }

  lemma Moved(cfg: Config, start: Run, ms: seq<Move>, r: Run, m: Move)
    requires cfg.Valid() && At(cfg, start, ms, r)
    ensures At(cfg, start, ms + [m], Step(cfg, m.grants, r, m.id, m.act))
  {
    hide LogInv, ShapeInv, Step;
    assert (ms + [m])[..|ms|] == ms;
    StepLog(cfg, m.grants, r, m.id, m.act);
    StepShape(cfg, m.grants, r, m.id, m.act);
  }

  lemma AtBegin(cfg: Config, start: Run, corr: Uuid, id: Uuid, text: string)
    requires start == Begin(corr, id, text)
    ensures At(cfg, start, [], start)
  {
    hide LogInv, ShapeInv, Begin;
    BeginLog(cfg, corr, id, text);
    BeginShape(cfg, corr, id, text);
  }

  // One tool call, from the proposal to its result; true when the loop goes on.
  method HandleCall(cfg: Config, w: World, r0: Run, id0: Uuid, c: Call, rest: seq<Call>,
                    ghost start: Run, ghost ms0: seq<Move>)
    returns (r: Run, id: Uuid, goOn: bool, ghost ms: seq<Move>)
    requires cfg.Valid() && At(cfg, start, ms0, r0) && r0.phase == Working([c] + rest) && AllFromWorld(w, ms0)
    ensures AllFromWorld(w, ms)
    ensures At(cfg, start, ms, r) && r.iter == r0.iter && id > id0
    ensures if goOn then r.phase == Working(rest) else r.phase.Asked? || r.phase.Failed?
  {
    hide RunInv, Steps, RunDecision, At, MirrorOne, AddTriple, Question, Extends, New;
    assert ([c] + rest)[0] == c && ([c] + rest)[1..] == rest;
    r := Propose(r0, id0, c, rest);
    Moved(cfg, start, ms0, r0, Move(w.grants(id0), id0, Go));
    ms := ms0 + [Move(w.grants(id0), id0, Go)];
    id := id0 + 1;

    var d := RunDecision(cfg, w.grants(id), c);
    Moved(cfg, start, ms, r, Move(w.grants(id), id, Go));
    ms := ms + [Move(w.grants(id), id, Go)];
    r := Judge(r, id, d);
    id := id + 1;

    match d.verdict {
      case Deny =>
        Moved(cfg, start, ms, r, Move(w.grants(id), id, Go));
        ms := ms + [Move(w.grants(id), id, Go)];
        r := Refuse(r, id);
        goOn := true;
      case AskUser =>
        Moved(cfg, start, ms, r, Move(w.grants(id), id, Go));
        ms := ms + [Move(w.grants(id), id, Go)];
        r := AskUser(r, id);
        goOn := false;
      case Allow =>
        Moved(cfg, start, ms, r, Move(w.grants(id), id, Tool(w.tool(id))));
        ms := ms + [Move(w.grants(id), id, Tool(w.tool(id)))];
        r := Execute(r, id, w.tool(id));
        goOn := !r.phase.Failed?;
    }
    id := id + 1;
  }

  /** The whole request, when it is not cut short by a timeout. Whatever the world does, it takes the
      steps of the machine and ends; when it ends well, its log has the shape of OkShape. */
  method HandleUserText(cfg: Config, w: World, corr: Uuid, id0: Uuid, text: string)
    returns (r: Run, ghost ms: seq<Move>)
    requires cfg.Valid()
    ensures r == Steps(cfg, Begin(corr, id0, text), ms) && AllFromWorld(w, ms) && RunInv(cfg, r)
    ensures r.phase.Completed? || r.phase.Asked? || r.phase.Failed?
    ensures r.phase.Completed? || r.phase.Asked? ==>
              && OkShape(cfg.maxIters, r.trace, r.blocks, r.phase.Asked?) && WellCaused(r.trace)
              && r.events == Mirror(r.trace) && r.execs == AllowedCalls(r.trace)
  {
    hide RunInv, Steps, At, MirrorOne, FinalSummary, OkShape, WellCaused, Mirror, AllowedCalls, Extends, New;
    r := Begin(corr, id0, text);
    ghost var start := r;
    AtBegin(cfg, start, corr, id0, text);
    ms := [];
    var id: Uuid := id0 + 1;
    var iter := 0;
    while iter < cfg.maxIters
      invariant AllFromWorld(w, ms) && At(cfg, start, ms, r) && r.phase == Asking && r.iter == iter
      decreases cfg.maxIters - iter
    {
      var response := w.model(id);
      if response == None {
        Moved(cfg, start, ms, r, Move(w.grants(id), id, Abort));
        ms := ms + [Move(w.grants(id), id, Abort)];
        r := r.(phase := Failed);
        Ends(cfg, start, ms, r);
        return;
      }
      Moved(cfg, start, ms, r, Move(w.grants(id), id, Model(response.value)));
      ms := ms + [Move(w.grants(id), id, Model(response.value))];
      r := Listen(r, id, response.value);
      id := id + 1;
      var calls := response.value.calls;
      if calls == [] { break; }
      for k := 0 to |calls|
        invariant AllFromWorld(w, ms) && At(cfg, start, ms, r) && r.phase == Working(calls[k..]) && r.iter == iter
      {
        var goOn;
        assert calls[k..] == [calls[k]] + calls[k + 1..];
        r, id, goOn, ms := HandleCall(cfg, w, r, id, calls[k], calls[k + 1..], start, ms);
        if !goOn {
          Ends(cfg, start, ms, r);
          return;
        }
      }
      Moved(cfg, start, ms, r, Move(w.grants(id), id, Go));
      ms := ms + [Move(w.grants(id), id, Go)];
      r := r.(phase := Asking, iter := r.iter + 1);
      iter := iter + 1;
    }
    if r.phase == Asking {
      Moved(cfg, start, ms, r, Move(w.grants(id), id, Go));
      ms := ms + [Move(w.grants(id), id, Go)];
      r := r.(phase := Finishing);
    }
    Moved(cfg, start, ms, r, Move(w.grants(id), id, Go));
    ms := ms + [Move(w.grants(id), id, Go)];
    r := Conclude(r, id);
    Ends(cfg, start, ms, r);
  }

  lemma Ends(cfg: Config, start: Run, ms: seq<Move>, r: Run)
    requires At(cfg, start, ms, r)
    ensures r == Steps(cfg, start, ms) && RunInv(cfg, r)
    ensures r.phase.Completed? || r.phase.Asked? ==>
              && OkShape(cfg.maxIters, r.trace, r.blocks, r.phase.Asked?) && WellCaused(r.trace)
              && r.events == Mirror(r.trace) && r.execs == AllowedCalls(r.trace)
  {
    hide OkShape, WellCaused, Mirror, AllowedCalls, Steps;
  }
}
