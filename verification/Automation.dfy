/** Rule cooldowns of the automation engine (crates/automation-engine/src/lib.rs): one worker that
    evaluates every envelope of the bus and then applies what fires. Times are nanoseconds. */
module Automation {
  import opened Arith
  import opened Common

  datatype Trigger = NamedEvent(name: string) | Threshold(tool: string, field: string, gte: real)

  datatype Rule = Rule(id: string, enabled: bool, trigger: Trigger, cooldownSecs: nat)

  /** What the triggers look at: the name of an event, or the outcome of a tool and its numeric fields. */
  datatype Envelope =
    | Event(name: Option<string>)
    | ToolResult(tool: Option<string>, ok: Option<bool>, fields: map<string, real>)
    | Other

  predicate Matches(t: Trigger, e: Envelope) {
    match t
    case NamedEvent(name) => e.Event? && e.name == Some(name)
    case Threshold(tool, field, gte) =>
      e.ToolResult? && e.tool == Some(tool) && e.ok == Some(true) && field in e.fields && e.fields[field] >= gte
  }

  // The worker passes over its own kind of events.
  predicate OwnEvent(e: Envelope) { e.Event? && e.name.Some? && "Automation" <= e.name.value }

  /** A threshold fires on the successful result of its tool from the bound itself upwards, and on nothing below it; an
      event rule fires on the event of its name. */
  lemma FiresFrom(tool: string, field: string, gte: real, v: real, fields: map<string, real>)
    requires field in fields && fields[field] == v
    ensures Matches(Threshold(tool, field, gte), ToolResult(Some(tool), Some(true), fields)) <==> v >= gte
    ensures !Matches(Threshold(tool, field, gte), ToolResult(Some(tool), Some(false), fields))
    ensures !Matches(Threshold(tool, field, gte), ToolResult(Some(tool), None, fields))
    ensures !Matches(Threshold(tool, field, gte), ToolResult(Some(tool), Some(true), fields - {field}))
    ensures forall other, ok | other != Some(tool) ::
              !Matches(Threshold(tool, field, gte), ToolResult(other, ok, fields))
    ensures forall e: Envelope :: !e.ToolResult? ==> !Matches(Threshold(tool, field, gte), e)
  {}

  lemma FiresOnName(name: string, e: Envelope)
    ensures Matches(NamedEvent(name), Event(Some(name)))
    ensures Matches(NamedEvent(name), e) ==> e == Event(Some(name))
  {}

  /** The engine's own events are those whose name starts with "Automation". */
  lemma OwnEventsAre(e: Envelope)
    ensures OwnEvent(e) <==> exists s: string :: e == Event(Some("Automation" + s))
  {
    if OwnEvent(e) {
      var name, start := e.name.value, "Automation";
      assert name == start + name[|start|..];
    }
  }

  const SECOND := 1_000_000_000

  /** Reading k of the system clock. */
  type Clock = nat -> int

  /** One firing: the reading at which the cooldown was checked, if there was an earlier firing to
      check against, and the reading that was recorded. */
  datatype Fire = Fire(rule: string, check: Option<nat>, mark: nat)

  ghost predicate DistinctIds(rules: seq<Rule>) { forall i, j | 0 <= i < j < |rules| :: rules[i].id != rules[j].id }

  // The cooldown of the rule with this id, in nanoseconds.
  function Cooldown(rules: seq<Rule>, id: string): nat {
    if rules == [] then 0
    else if rules[0].id == id then rules[0].cooldownSecs * SECOND
    else Cooldown(rules[1..], id)
  }

  lemma {:induction false} CooldownAt(rules: seq<Rule>, i: nat)
    requires DistinctIds(rules) && i < |rules|
    ensures Cooldown(rules, rules[i].id) == rules[i].cooldownSecs * 1_000_000_000
  {
    if i > 0 {
      assert rules[0].id != rules[i].id;
      CooldownAt(rules[1..], i - 1);
    }
  }

  /** The recorded times of one rule, in order. */
  function Marks(clock: Clock, fired: seq<Fire>, id: string): seq<int> {
    if fired == [] then []
    else
      var f := fired[|fired| - 1];
      Marks(clock, fired[..|fired| - 1], id) + if f.rule == id then [clock(f.mark)] else []
  }

  lemma MarksSnoc(clock: Clock, fired: seq<Fire>, f: Fire, id: string)
    ensures Marks(clock, fired + [f], id) == Marks(clock, fired, id) + if f.rule == id then [clock(f.mark)] else []
  {
    assert (fired + [f])[..|fired|] == fired;
  }

  /** After an earlier firing of the rule, the check came a cooldown after the recorded time of that
      firing, and the recording came after the check. */
  ghost predicate Waited(rules: seq<Rule>, clock: Clock, before: seq<Fire>, f: Fire) {
    var ms := Marks(clock, before, f.rule);
    ms != [] ==>
      f.check.Some? && f.check.value < f.mark && clock(f.check.value) >= ms[|ms| - 1] + Cooldown(rules, f.rule)
  }

  ghost predicate AllWaited(rules: seq<Rule>, clock: Clock, fired: seq<Fire>) {
    forall i | 0 <= i < |fired| :: Waited(rules, clock, fired[..i], fired[i])
  }

  lemma WaitedSnoc(rules: seq<Rule>, clock: Clock, fired: seq<Fire>, f: Fire)
    requires AllWaited(rules, clock, fired) && Waited(rules, clock, fired, f)
    ensures AllWaited(rules, clock, fired + [f])
  {
    forall i | 0 <= i < |fired + [f]| ensures Waited(rules, clock, (fired + [f])[..i], (fired + [f])[i]) {
      assert (fired + [f])[..i] == fired[..i];
    }
  }

  // ----- the rate -----

  ghost predicate Monotone(clock: Clock) { forall i: nat, j: nat | i <= j :: clock(i) <= clock(j) }

  ghost predicate Gapped(ms: seq<int>, c: int) { forall i | 0 < i < |ms| :: ms[i] >= ms[i - 1] + c }

  function CountIn(ms: seq<int>, a: int, b: int): nat {
    if ms == [] then 0 else CountIn(ms[..|ms| - 1], a, b) + if a <= ms[|ms| - 1] <= b then 1 else 0
  }

  lemma GappedSnoc(ms: seq<int>, c: int, x: int)
    requires Gapped(ms, c) && (ms != [] ==> x >= ms[|ms| - 1] + c)
    ensures Gapped(ms + [x], c)
  {}

  lemma AllWaitedBefore(rules: seq<Rule>, clock: Clock, fired: seq<Fire>, n: nat)
    requires AllWaited(rules, clock, fired) && n < |fired|
    ensures AllWaited(rules, clock, fired[..n]) && Waited(rules, clock, fired[..n], fired[n])
  {
    hide Waited;
    assert forall i | 0 <= i < n :: fired[..n][..i] == fired[..i];
  }

  lemma {:induction false} MarksAreGapped(rules: seq<Rule>, clock: Clock, fired: seq<Fire>, id: string)
    requires Monotone(clock) && AllWaited(rules, clock, fired)
    ensures Gapped(Marks(clock, fired, id), Cooldown(rules, id))
  {
    hide AllWaited, Gapped, Cooldown;
    if fired == [] {
      assert Gapped([], Cooldown(rules, id)) by { NothingGapped(Cooldown(rules, id)); }
    } else {
      var n := |fired| - 1;
      var f := fired[n];
      AllWaitedBefore(rules, clock, fired, n);
      MarksAreGapped(rules, clock, fired[..n], id);
      var before := Marks(clock, fired[..n], id);
      if f.rule == id {
        assert before != [] ==> clock(f.check.value) <= clock(f.mark);
        GappedSnoc(before, Cooldown(rules, id), clock(f.mark));
      } else {
        assert before + [] == before;
      }
    }
  }

  lemma NothingGapped(c: int)
    ensures Gapped([], c)
  {}

  lemma {:induction false} GappedIsSorted(ms: seq<int>, c: nat, i: nat)
    requires Gapped(ms, c) && i < |ms|
    ensures ms[i] <= ms[|ms| - 1] && (i < |ms| - 1 ==> ms[i] <= ms[|ms| - 1] - c)
    decreases |ms| - i
  {
    if i < |ms| - 1 {
      assert ms[i + 1] >= ms[i] + c;
      GappedIsSorted(ms, c, i + 1);
    }
  }

  lemma {:induction false} CountNone(ms: seq<int>, a: int, b: int, b': int)
    requires b' <= b && forall i | 0 <= i < |ms| :: ms[i] <= b'
    ensures CountIn(ms, a, b) == CountIn(ms, a, b')
    ensures b' < a ==> CountIn(ms, a, b) == 0
  {
    if ms != [] {
      assert forall i | 0 <= i < |ms| - 1 :: ms[..|ms| - 1][i] == ms[i];
      CountNone(ms[..|ms| - 1], a, b, b');
    }
  }

  // n firings in a window have n - 1 cooldowns between them.
  lemma {:induction false} WindowHolds(ms: seq<int>, c: nat, a: int, b: int)
    requires Gapped(ms, c)
    ensures CountIn(ms, a, b) > 0 ==> (CountIn(ms, a, b) - 1) * c <= b - a
  {
    if ms != [] {
      var n := |ms| - 1;
      var last, before := ms[n], ms[..n];
      assert Gapped(before, c);
      WindowHolds(before, c, a, b);
      if a <= last <= b {
        forall i | 0 <= i < n ensures before[i] <= last - c { GappedIsSorted(ms, c, i); }
        CountNone(before, a, b, last - c);
        WindowHolds(before, c, a, last - c);
        var k := CountIn(before, a, last - c);
        assert k * c == (k - 1) * c + c;
      }
    }
  }

  lemma QuotientBound(n: nat, c: nat, w: nat)
    requires c > 0 && n * c <= w
    ensures n <= w / c
  {
    var q := w / c;
    assert w == q * c + w % c;
    assert (q + 1) * c == q * c + c;
    if n > q {
      MulLe(q + 1, n, c);
    }
  }

  /** The firings of a rule in the window that starts at from. */
  function FiresIn(clock: Clock, fired: seq<Fire>, id: string, from: int, window: nat): nat {
    CountIn(Marks(clock, fired, id), from, from + window)
  }

  /** On a clock that does not go back, a rule with a cooldown of at least a second fires at most
      W / cooldown + 1 times in any window of length W. */
  lemma RateIsBounded(rules: seq<Rule>, clock: Clock, fired: seq<Fire>, id: string, from: int, window: nat)
    requires Monotone(clock) && AllWaited(rules, clock, fired) && Cooldown(rules, id) > 0
    ensures FiresIn(clock, fired, id, from, window) <= window / Cooldown(rules, id) + 1
  {
    hide Marks, CountIn, Gapped, AllWaited, Monotone, Cooldown;
    var c := Cooldown(rules, id);
    MarksAreGapped(rules, clock, fired, id);
    WindowHolds(Marks(clock, fired, id), c, from, from + window);
    var n := FiresIn(clock, fired, id, from, window);
    if n > 0 {
      QuotientBound(n - 1, c, window);
    }
  }

  // ----- the engine -----

  // last_fired holds the latest recorded time of every rule that has fired.
  ghost predicate Recorded(clock: Clock, fired: seq<Fire>, lastFired: map<string, int>) {
    forall id :: RecordedFor(Marks(clock, fired, id), lastFired, id)
  }

  ghost predicate RecordedFor(ms: seq<int>, lastFired: map<string, int>, id: string) {
    if ms == [] then id !in lastFired else id in lastFired && lastFired[id] == ms[|ms| - 1]
  }

  lemma RecordedSnoc(clock: Clock, fired: seq<Fire>, lastFired: map<string, int>, f: Fire)
    requires Recorded(clock, fired, lastFired)
    ensures Recorded(clock, fired + [f], lastFired[f.rule := clock(f.mark)])
  {
    hide Marks;
    forall id ensures RecordedFor(Marks(clock, fired + [f], id), lastFired[f.rule := clock(f.mark)], id) {
      MarksSnoc(clock, fired, f, id);
      assert RecordedFor(Marks(clock, fired, id), lastFired, id);
    }
  }

  // ----- which rules fire -----

  predicate Cooling(clock: Clock, last: map<string, int>, rule: Rule, k: nat) {
    rule.id in last && clock(k) - last[rule.id] < rule.cooldownSecs * SECOND
  }

  // Rule m wants to fire on e.
  predicate Due(rules: seq<Rule>, e: Envelope, m: int) {
    0 <= m < |rules| && rules[m].enabled && Matches(rules[m].trigger, e)
  }

  // One of the first n rules has this id and is due.
  ghost predicate DueBefore(rules: seq<Rule>, e: Envelope, n: int, id: string) {
    exists m :: m < n && Due(rules, e, m) && rules[m].id == id
  }

  lemma DueNow(rules: seq<Rule>, e: Envelope, n: nat)
    requires Due(rules, e, n)
    ensures DueBefore(rules, e, n + 1, rules[n].id)
  {}

  lemma NewId(rules: seq<Rule>, e: Envelope, n: nat, id: string)
    requires DistinctIds(rules) && n < |rules| && DueBefore(rules, e, n, id)
    ensures id != rules[n].id && DueBefore(rules, e, n + 1, id)
  {}

  /** The ids that an evaluation with readings lo to hi - 1 gives: those of rules that are due, each once, and all of
      them but those found cooling. */
  ghost predicate Answers(rules: seq<Rule>, clock: Clock, last: map<string, int>, e: Envelope, lo: nat, hi: nat,
                          ids: seq<string>) {
    && lo <= hi
    && (forall i | 0 <= i < |ids| :: DueBefore(rules, e, |rules|, ids[i]))
    && (forall i, j | 0 <= i < j < |ids| :: ids[i] != ids[j])
    && (forall m | Due(rules, e, m) ::
          rules[m].id in ids || exists k: nat :: lo <= k < hi && Cooling(clock, last, rules[m], k))
  }

  function Ids(part: seq<Fire>): (ids: seq<string>)
    ensures |ids| == |part| && forall i | 0 <= i < |ids| :: ids[i] == part[i].rule
  {
    seq(|part|, i requires 0 <= i < |part| => part[i].rule)
  }

  // The recorded times after some more firings.
  function Noted(clock: Clock, last: map<string, int>, part: seq<Fire>): map<string, int> {
    if part == [] then last
    else
      var f := part[|part| - 1];
      Noted(clock, last, part[..|part| - 1])[f.rule := clock(f.mark)]
  }

  lemma NotedSnoc(clock: Clock, last: map<string, int>, part: seq<Fire>, f: Fire)
    ensures Noted(clock, last, part + [f]) == Noted(clock, last, part)[f.rule := clock(f.mark)]
  {
    assert (part + [f])[..|part|] == part;
  }

  /** What the worker makes of one envelope: nothing of its own events, otherwise the firings of an evaluation. */
  ghost predicate Handled(rules: seq<Rule>, clock: Clock, last: map<string, int>, e: Envelope, lo: nat, hi: nat,
                          part: seq<Fire>) {
    if OwnEvent(e) then part == [] && lo == hi
    else exists mid: nat :: HandledFrom(rules, clock, last, e, lo, mid, hi, part)
  }

  // The evaluation ends at reading mid; then every firing is recorded with a reading of its own.
  ghost predicate HandledFrom(rules: seq<Rule>, clock: Clock, last: map<string, int>, e: Envelope, lo: nat, mid: nat,
                              hi: nat, part: seq<Fire>) {
    && Answers(rules, clock, last, e, lo, mid, Ids(part))
    && hi == mid + |part| && forall i | 0 <= i < |part| :: part[i].mark == mid + i
  }

  /** What it makes of a sequence of them. */
  ghost predicate Worked(rules: seq<Rule>, clock: Clock, last: map<string, int>, es: seq<Envelope>, lo: nat, hi: nat,
                         fires: seq<Fire>)
    decreases |es|
  {
    if es == [] then fires == [] && lo == hi
    else
      var before, e := es[..|es| - 1], es[|es| - 1];
      exists n: nat, mid: nat ::
        && n <= |fires| && Worked(rules, clock, last, before, lo, mid, fires[..n])
        && Handled(rules, clock, Noted(clock, last, fires[..n]), e, mid, hi, fires[n..])
  }

  lemma WorkedSnoc(rules: seq<Rule>, clock: Clock, last: map<string, int>, es: seq<Envelope>, e: Envelope,
                   lo: nat, mid: nat, hi: nat, fires: seq<Fire>, part: seq<Fire>)
    requires Worked(rules, clock, last, es, lo, mid, fires)
    requires Handled(rules, clock, Noted(clock, last, fires), e, mid, hi, part)
    ensures Worked(rules, clock, last, es + [e], lo, hi, fires + part)
    ensures Noted(clock, last, fires + part) == Noted(clock, Noted(clock, last, fires), part)
  {
    hide Handled;
    var n, all := |fires|, fires + part;
    assert (es + [e])[..|es|] == es && all[..n] == fires && all[n..] == part;
    NotedAcross(clock, last, fires, part);
  }

  lemma {:induction false} NotedAcross(clock: Clock, last: map<string, int>, u: seq<Fire>, v: seq<Fire>)
    ensures Noted(clock, last, u + v) == Noted(clock, Noted(clock, last, u), v)
  {
    if v == [] {
      assert u + v == u;
    } else {
      assert (u + v)[..|u + v| - 1] == u + v[..|v| - 1];
      NotedAcross(clock, last, u, v[..|v| - 1]);
    }
  }

  /** On a clock that does not go back, a due rule fires whose last firing is a full cooldown ago, or more, when the
      evaluation starts, or that never fired. */
  lemma DueFires(rules: seq<Rule>, clock: Clock, last: map<string, int>, e: Envelope, lo: nat, hi: nat,
                 ids: seq<string>, m: nat)
    requires Monotone(clock) && Answers(rules, clock, last, e, lo, hi, ids)
    requires Due(rules, e, m)
    requires rules[m].id in last ==> clock(lo) >= last[rules[m].id] + rules[m].cooldownSecs * 1_000_000_000
    ensures rules[m].id in ids
  {
    forall k: nat | lo <= k < hi ensures !Cooling(clock, last, rules[m], k) {
      assert clock(lo) <= clock(k);
    }
  }

  class AutomationEngine {
    const rules: seq<Rule>
    const clock: Clock
    var readings: nat
    var lastFired: map<string, int>
    ghost var fired: seq<Fire>

    ghost predicate Valid()
      reads this
    {
      DistinctIds(rules) && AllWaited(rules, clock, fired) && Recorded(clock, fired, lastFired)
    }

    constructor (rules: seq<Rule>, clock: Clock)
      requires DistinctIds(rules)
      ensures Valid() && this.rules == rules && this.clock == clock && fired == []
    {
      this.rules, this.clock := rules, clock;
      readings, lastFired, fired := 0, map[], [];
    }

    // Utc::now()
    method Now() returns (k: nat)
      modifies this`readings
      ensures k == old(readings) && readings == k + 1
    {
      k := readings;
      readings := readings + 1;
    }

    method InCooldown(rule: Rule) returns (cooling: bool, check: Option<nat>)
      modifies this`readings
      ensures readings >= old(readings)
      ensures check == None <==> rule.id !in lastFired
      ensures check.Some? ==> check.value < readings
      ensures check.Some? ==> old(readings) == check.value
      ensures cooling <==> check.Some? && Cooling(clock, lastFired, rule, check.value)
    {
      if rule.id in lastFired {
        var k := Now();
        return clock(k) - lastFired[rule.id] < rule.cooldownSecs * SECOND, Some(k);
      }
      return false, None;
    }

    // A rule that may fire now, and may still fire as long as nobody records it.
    ghost predicate MayFire(rule: string, check: Option<nat>)
      reads this
    {
      if rule in lastFired then
        check.Some? && check.value < readings && clock(check.value) >= lastFired[rule] + Cooldown(rules, rule)
      else check == None
    }

    // The firings of an evaluation, each with the reading of its check.
    method Evaluate(e: Envelope) returns (ids: seq<string>, checks: seq<Option<nat>>)
      requires Valid()
      modifies this`readings
      ensures Valid() && |checks| == |ids|
      ensures Answers(rules, clock, lastFired, e, old(readings), readings, ids)
      ensures forall i | 0 <= i < |ids| :: MayFire(ids[i], checks[i])
    {
      hide AllWaited, Recorded, Matches, Cooling, DueBefore;
      ids, checks := [], [];
      for k := 0 to |rules|
        invariant Valid() && |checks| == |ids| && readings >= old(readings)
        invariant forall i | 0 <= i < |ids| :: MayFire(ids[i], checks[i])
        invariant forall i | 0 <= i < |ids| :: DueBefore(rules, e, k, ids[i])
        invariant forall i, j | 0 <= i < j < |ids| :: ids[i] != ids[j]
        invariant forall m | 0 <= m < k && Due(rules, e, m) ::
            rules[m].id in ids ||
            exists r: nat :: old(readings) <= r < readings && Cooling(clock, lastFired, rules[m], r)
      {
        var rule := rules[k];
        forall i | 0 <= i < |ids| ensures ids[i] != rule.id && DueBefore(rules, e, k + 1, ids[i]) {
          NewId(rules, e, k, ids[i]);
        }
        if !rule.enabled { continue; }
        if Matches(rule.trigger, e) {
          assert Due(rules, e, k);
          var cooling, check := InCooldown(rule);
          if cooling { continue; }
          MayFireNow(k, check);
          DueNow(rules, e, k);
          ids, checks := ids + [rule.id], checks + [check];
        }
      }
    }

    lemma MayFireNow(k: nat, check: Option<nat>)
      requires Valid() && k < |rules| && (check == None <==> rules[k].id !in lastFired)
      requires check.Some? ==> check.value < readings && !Cooling(clock, lastFired, rules[k], check.value)
      ensures MayFire(rules[k].id, check)
    {
      CooldownAt(rules, k);
    }

    method MarkFired(rule: string, check: Option<nat>)
      requires Valid() && MayFire(rule, check)
      modifies this
      ensures Valid() && fired == old(fired) + [Fire(rule, check, old(readings))]
      ensures lastFired == old(lastFired)[rule := clock(old(readings))] && readings == old(readings) + 1
    {
      var k := Now();
      ghost var f := Fire(rule, check, k);
      assert RecordedFor(Marks(clock, fired, rule), lastFired, rule);
      WaitedSnoc(rules, clock, fired, f);
      RecordedSnoc(clock, fired, lastFired, f);
      lastFired := lastFired[rule := clock(k)];
      fired := fired + [f];
    }

    // One turn of the worker.
    method Handle(e: Envelope) returns (ghost part: seq<Fire>)
      requires Valid()
      modifies this
      ensures Valid() && fired == old(fired) + part && lastFired == Noted(clock, old(lastFired), part)
      ensures Handled(rules, clock, old(lastFired), e, old(readings), readings, part)
    {
      hide AllWaited, Recorded, Answers, Noted;
      part := [];
      assert lastFired == Noted(clock, lastFired, []) by { NotedNothing(clock, lastFired); }
      assert fired == fired + [];
      if OwnEvent(e) { return; }
      var ids, checks := Evaluate(e);
      ghost var mid := readings;
      for i := 0 to |ids|
        invariant Valid() && fired == old(fired) + part && lastFired == Noted(clock, old(lastFired), part)
        invariant |part| == i && readings == mid + i && forall j | 0 <= j < i :: part[j].mark == mid + j
        invariant forall j | 0 <= j < i :: part[j].rule == ids[j]
        invariant forall j | i <= j < |ids| :: MayFire(ids[j], checks[j])
      {
        AnswersOnce(rules, clock, old(lastFired), e, old(readings), mid, ids);
        NotedSnoc(clock, old(lastFired), part, Fire(ids[i], checks[i], readings));
        part := part + [Fire(ids[i], checks[i], readings)];
        MarkFired(ids[i], checks[i]);
      }
      assert Ids(part) == ids;
      assert HandledFrom(rules, clock, old(lastFired), e, old(readings), mid, readings, part);
    }

    /** The worker on any sequence of envelopes, the engine's own among them. */
    method Work(es: seq<Envelope>)
      requires Valid()
      modifies this
      ensures Valid() && old(fired) <= fired
      ensures Worked(rules, clock, old(lastFired), es, old(readings), readings, fired[|old(fired)|..])
      ensures Monotone(clock) ==>
                forall id: string, from: int, window: nat | Cooldown(rules, id) > 0 ::
                  FiresIn(clock, fired, id, from, window) <= window / Cooldown(rules, id) + 1
    {
      hide Handled, Worked, Noted, AllWaited, Recorded;
      ghost var fires: seq<Fire> := [];
      NothingWorked(rules, clock, lastFired, readings);
      for i := 0 to |es|
        invariant Valid() && fired == old(fired) + fires && lastFired == Noted(clock, old(lastFired), fires)
        invariant Worked(rules, clock, old(lastFired), es[..i], old(readings), readings, fires)
      {
        ghost var mid := readings;
        ghost var part := Handle(es[i]);
        WorkedSnoc(rules, clock, old(lastFired), es[..i], es[i], old(readings), mid, readings, fires, part);
        assert es[..i + 1] == es[..i] + [es[i]];
        assert old(fired) + fires + part == old(fired) + (fires + part);
        fires := fires + part;
      }
      assert es[..|es|] == es;
      if Monotone(clock) {
        forall id: string, from: int, window: nat | Cooldown(rules, id) > 0
          ensures FiresIn(clock, fired, id, from, window) <= window / Cooldown(rules, id) + 1
        {
          RateIsBounded(rules, clock, fired, id, from, window);
        }
      }
    }
  }

  lemma NotedNothing(clock: Clock, last: map<string, int>)
    ensures Noted(clock, last, []) == last
  {}

  lemma NothingWorked(rules: seq<Rule>, clock: Clock, last: map<string, int>, r: nat)
    ensures Noted(clock, last, []) == last && Worked(rules, clock, last, [], r, r, [])
  {}

  lemma AnswersOnce(rules: seq<Rule>, clock: Clock, last: map<string, int>, e: Envelope, lo: nat, hi: nat,
                    ids: seq<string>)
    requires Answers(rules, clock, last, e, lo, hi, ids)
    ensures forall i, j | 0 <= i < j < |ids| :: ids[i] != ids[j]
  {}
}
