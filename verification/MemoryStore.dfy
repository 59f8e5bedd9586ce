/** The append-only fact log and its compact view (crates/memory-store/src/lib.rs). */
module MemoryStore {
  import opened Common

  type Uuid = nat

  /** ts is in nanoseconds since the epoch. */
  datatype Fact = Fact(id: Uuid, ts: int, key: string, value: string, tags: seq<string>, deleted: bool)

  // The last fact of each key, deleted or not.
  function Latest(log: seq<Fact>): map<string, Fact> {
    if log == [] then map[] else Latest(log[..|log| - 1])[log[|log| - 1].key := log[|log| - 1]]
  }

  function Live(log: seq<Fact>): map<string, Fact> {
    map k | k in Latest(log) && !Latest(log)[k].deleted :: Latest(log)[k]
  }

  lemma LiveSnoc(log: seq<Fact>, f: Fact)
    ensures Live(log + [f]) == if f.deleted then Live(log) - {f.key} else Live(log)[f.key := f]
  {
    assert (log + [f])[..|log|] == log;
  }

  // remember fills in a missing id and a missing time.
  function Completed(f: Fact, id: Uuid, now: int): Fact {
    f.(id := if f.id == 0 then id else f.id, ts := if 0 <= f.ts < 1_000_000_000 then now else f.ts)
  }

  function Tombstone(f: Fact, id: Uuid, now: int): Fact { f.(id := id, ts := now, deleted := true) }

  /** id and now are what the id generator and the clock would answer. */
  datatype Op = Remember(f: Fact, id: Uuid, now: int) | Forget(key: string, id: Uuid, now: int)

  function Next(log: seq<Fact>, op: Op): seq<Fact> {
    match op
    case Remember(f, id, now) => log + [Completed(f, id, now)]
    case Forget(key, id, now) => if key in Live(log) then log + [Tombstone(Live(log)[key], id, now)] else log
  }

  function LogAfter(ops: seq<Op>): seq<Fact> {
    if ops == [] then [] else Next(LogAfter(ops[..|ops| - 1]), ops[|ops| - 1])
  }

  /** The reference: a map that the same operations update directly. */
  function MapAfter(ops: seq<Op>): map<string, Fact> {
    if ops == [] then map[]
    else
      var m := MapAfter(ops[..|ops| - 1]);
      match ops[|ops| - 1]
      case Remember(f, id, now) => if f.deleted then m - {f.key} else m[f.key := Completed(f, id, now)]
      case Forget(key, _, _) => m - {key}
  }

  lemma {:induction false} LiveHasKeys(log: seq<Fact>)
    ensures forall k | k in Latest(log) :: Latest(log)[k].key == k
    ensures forall k | k in Live(log) :: Live(log)[k].key == k
  {
    if log != [] {
      LiveHasKeys(log[..|log| - 1]);
    }
    forall k | k in Live(log) ensures Live(log)[k].key == k {
      assert k in Latest(log) && Live(log)[k] == Latest(log)[k];
    }
  }

  /** After any operations the compact view of the log is the reference map. */
  lemma {:induction false} LogRefinesMap(ops: seq<Op>)
    ensures Live(LogAfter(ops)) == MapAfter(ops)
  {
    if ops != [] {
      var before, op := ops[..|ops| - 1], ops[|ops| - 1];
      LogRefinesMap(before);
      var log := LogAfter(before);
      LiveHasKeys(log);
      match op
      case Remember(f, id, now) => LiveSnoc(log, Completed(f, id, now));
      case Forget(key, id, now) =>
        if key in Live(log) {
          LiveSnoc(log, Tombstone(Live(log)[key], id, now));
        } else {
          assert MapAfter(before) - {key} == MapAfter(before);
        }
    }
  }

  ghost predicate Newest(fs: seq<Fact>) { forall i, j | 0 <= i < j < |fs| :: fs[i].ts >= fs[j].ts }

  /** fs lists the facts of m, each once, newest first. */
  ghost predicate Lists(fs: seq<Fact>, m: map<string, Fact>) {
    && Newest(fs)
    && (forall i | 0 <= i < |fs| :: fs[i].key in m && m[fs[i].key] == fs[i])
    && (forall k | k in m :: m[k] in fs)
    && OneEach(fs)
  }

  function Insert(fs: seq<Fact>, f: Fact): seq<Fact> {
    if fs == [] || fs[0].ts < f.ts then [f] + fs else [fs[0]] + Insert(fs[1..], f)
  }

  ghost predicate OneEach(fs: seq<Fact>) { forall i, j | 0 <= i < j < |fs| :: fs[i].key != fs[j].key }

  lemma {:induction false} InsertHas(fs: seq<Fact>, f: Fact)
    ensures forall g :: g in Insert(fs, f) <==> g == f || g in fs
  {
    if fs != [] && fs[0].ts >= f.ts {
      InsertHas(fs[1..], f);
      assert fs == [fs[0]] + fs[1..];
    }
  }

  lemma {:induction false} InsertKeepsOrder(fs: seq<Fact>, f: Fact)
    requires Newest(fs)
    ensures Newest(Insert(fs, f))
  {
    if fs != [] && fs[0].ts >= f.ts {
      InsertKeepsOrder(fs[1..], f);
      InsertHas(fs[1..], f);
      var rest := Insert(fs[1..], f);
      forall i | 0 <= i < |rest| ensures rest[i].ts <= fs[0].ts {
        assert rest[i] in rest;
      }
    }
  }

  lemma {:induction false} InsertKeepsKeys(fs: seq<Fact>, f: Fact)
    requires OneEach(fs) && forall g | g in fs :: g.key != f.key
    ensures OneEach(Insert(fs, f))
  {
    if fs != [] && fs[0].ts >= f.ts {
      assert forall g | g in fs[1..] :: g in fs;
      InsertKeepsKeys(fs[1..], f);
      InsertHas(fs[1..], f);
      var rest := Insert(fs[1..], f);
      forall i | 0 <= i < |rest| ensures rest[i].key != fs[0].key {
        assert rest[i] in rest;
        if rest[i] != f {
          var k :| 0 <= k < |fs[1..]| && fs[1..][k] == rest[i];
          assert fs[0].key != fs[k + 1].key;
        } else {
          assert fs[0] in fs;
        }
      }
    }
  }

  class Store {
    var log: seq<Fact>

    constructor ()
      ensures log == []
    {
      log := [];
    }

    method RememberFact(f: Fact, id: Uuid, now: int) returns (stored: Fact)
      modifies this
      ensures log == Next(old(log), Remember(f, id, now)) && stored == Completed(f, id, now)
      ensures log == old(log) + [stored] && stored == f.(id := stored.id, ts := stored.ts)
      ensures stored.id == (if f.id != 0 then f.id else id)
      ensures f.ts < 0 || f.ts >= 1_000_000_000 ==> stored.ts == f.ts
      ensures 0 <= f.ts < 1_000_000_000 ==> stored.ts == now
    {
      stored := f;
      if stored.id == 0 {
        stored := stored.(id := id);
      }
      if 0 <= stored.ts < 1_000_000_000 {
        stored := stored.(ts := now);
      }
      log := log + [stored];
    }

    // The map is filled in log order; its values come out in any order and are sorted by time.
    method LatestByKey() returns (facts: seq<Fact>)
      ensures Lists(facts, Live(log))
    {
      var m: map<string, Fact> := map[];
      for i := 0 to |log|
        invariant m == Latest(log[..i])
      {
        assert log[..i + 1][..i] == log[..i];
        m := m[log[i].key := log[i]];
      }
      assert log[..|log|] == log;
      LiveHasKeys(log);
      facts := [];
      var todo := m.Keys;
      while todo != {}
        invariant todo <= m.Keys
        invariant Newest(facts)
        invariant forall f | f in facts :: f.key in m && m[f.key] == f && f.key !in todo && !f.deleted
        invariant forall k | k in m && k !in todo && !m[k].deleted :: m[k] in facts
        invariant OneEach(facts)
        decreases |todo|
      {
        var k :| k in todo;
        todo := todo - {k};
        if !m[k].deleted {
          InsertHas(facts, m[k]);
          InsertKeepsOrder(facts, m[k]);
          InsertKeepsKeys(facts, m[k]);
          facts := Insert(facts, m[k]);
        }
      }
    }

    /** The newest limit facts, each once, newest first: none that is left out is newer than one that is returned. */
    method ListRecent(limit: nat) returns (facts: seq<Fact>)
      ensures |facts| <= limit && (forall f | f in facts :: f.key in Live(log) && Live(log)[f.key] == f)
      ensures Newest(facts) && OneEach(facts)
      ensures |facts| < limit ==> Lists(facts, Live(log))
      ensures forall k | k in Live(log) && Live(log)[k] !in facts :: forall f | f in facts :: f.ts >= Live(log)[k].ts
    {
      var all := LatestByKey();
      facts := all;
      if |facts| > limit {
        facts := facts[..limit];
      }
    }

    /** forget answers with a tombstone exactly when the key is live. */
    method ForgetKey(key: string, id: Uuid, now: int) returns (tomb: Option<Fact>)
      modifies this
      ensures log == Next(old(log), Forget(key, id, now))
      ensures tomb.Some? <==> key in Live(old(log))
      ensures tomb.Some? ==> tomb.value == Tombstone(Live(old(log))[key], id, now) && log == old(log) + [tomb.value]
      ensures tomb.Some? ==> tomb.value == Live(old(log))[key].(id := id, ts := now, deleted := true)
      ensures tomb == None ==> log == old(log)
      ensures key !in Live(log)
    {
      LiveHasKeys(log);
      var all := LatestByKey();
      for i := 0 to |all|
        invariant log == old(log)
        invariant forall j | 0 <= j < i :: all[j].key != key
      {
        if all[i].key == key {
          var t := all[i].(id := id, ts := now, deleted := true);
          LiveSnoc(log, t);
          log := log + [t];
          return Some(t);
        }
      }
      tomb := None;
    }
  }

  /** forget succeeds exactly on the keys of the reference map. */
  lemma ForgetHitsLiveKeys(ops: seq<Op>, key: string)
    ensures key in Live(LogAfter(ops)) <==> key in MapAfter(ops)
    ensures key !in MapAfter(ops + [Forget(key, 0, 0)])
  {
    LogRefinesMap(ops);
    assert (ops + [Forget(key, 0, 0)])[..|ops|] == ops;
  }
}
