/** The A/B slot scripts (deploy/ab/layout.sh, install-slot.sh, switch.sh, boot-ok.sh) and the status
    reader (services/saaios-runtime/src/ab_status.rs). A script runs to its end before the next. */
module AbSlots {
  import opened Common
  import opened Framing

  datatype Slot = A | B

  /** What is on disk under the A/B root: the slot directories, the link, the slot file, and per slot
      a binary and a BOOT_OK marker with its text. */
  datatype Disk = Disk(laidOut: bool, link: Option<Slot>, slotFile: Option<Slot>, binaries: set<Slot>,
                       bootOk: map<Slot, string>)

  const FRESH := Disk(false, None, None, {}, map[])

  /** One invocation. source says whether the binary to install exists; pings are the answers of the
      socket up to the deadline, and now what the clock says then. */
  datatype Script =
    | Layout
    | Install(slot: Slot, source: bool)
    | Switch(slot: Slot, force: bool)
    | BootOk(pings: seq<bool>, now: string)

  predicate CanInstall(d: Disk, source: bool) { d.laidOut && source }

  predicate CanSwitch(d: Disk, s: Slot, force: bool) {
    s in d.binaries && (d.link == None || d.link == Some(s) || force || d.link.value in d.bootOk)
  }

  // boot-ok.sh prefers the link and falls back on the slot file.
  function Current(d: Disk): Option<Slot> { if d.link.Some? then d.link else d.slotFile }

  function Next(d: Disk, sc: Script): Disk {
    match sc
    case Layout =>
      d.(laidOut := true, link := if d.link == None then Some(A) else d.link,
      slotFile := if d.slotFile == None then Some(A) else d.slotFile)
    case Install(s, source) =>
      if CanInstall(d, source) then d.(binaries := d.binaries + {s}, bootOk := d.bootOk - {s}) else d
    case Switch(s, force) =>
      if CanSwitch(d, s, force) then d.(link := Some(s), slotFile := Some(s), bootOk := d.bootOk - {s}) else d
    case BootOk(pings, now) =>
      if Current(d).Some? && true in pings then d.(bootOk := d.bootOk[Current(d).value := now + "\n"]) else d
  }

  function After(scs: seq<Script>): Disk {
    if scs == [] then FRESH else Next(After(scs[..|scs| - 1]), scs[|scs| - 1])
  }

  // Before script i of the run.
  function Before(scs: seq<Script>, i: nat): Disk
    requires i <= |scs|
  {
    After(scs[..i])
  }

  /** Script i found slot s current and healthy. */
  predicate Passed(scs: seq<Script>, i: nat, s: Slot)
    requires i < |scs|
  {
    scs[i].BootOk? && true in scs[i].pings && Current(Before(scs, i)) == Some(s)
  }

  /** Script i installed into slot s or switched to it. */
  predicate Touched(scs: seq<Script>, i: nat, s: Slot)
    requires i < |scs|
  {
    || (scs[i].Install? && scs[i].slot == s && CanInstall(Before(scs, i), scs[i].source))
    || (scs[i].Switch? && scs[i].slot == s && CanSwitch(Before(scs, i), s, scs[i].force))
  }

  ghost predicate Confirmed(scs: seq<Script>, s: Slot, i: nat) {
    i < |scs| && Passed(scs, i, s) && forall j | i < j < |scs| :: !Touched(scs, j, s)
  }

  lemma PrefixSame(scs: seq<Script>, n: nat, i: nat, s: Slot)
    requires i < n <= |scs|
    ensures Before(scs[..n], i) == Before(scs, i)
    ensures Passed(scs[..n], i, s) == Passed(scs, i, s) && Touched(scs[..n], i, s) == Touched(scs, i, s)
  {
    assert scs[..n][..i] == scs[..i];
  }

  lemma NextBootOk(d: Disk, sc: Script, s: Slot)
    ensures s in Next(d, sc).bootOk <==>
            || (sc.BootOk? && true in sc.pings && Current(d) == Some(s))
            || (s in d.bootOk
                && !(sc.Install? && sc.slot == s && CanInstall(d, sc.source))
                && !(sc.Switch? && sc.slot == s && CanSwitch(d, s, sc.force)))
  {
    hide CanInstall, CanSwitch;
  }

  // The last script alone.
  lemma BootOkStep(scs: seq<Script>, s: Slot)
    requires scs != []
    ensures var n := |scs| - 1;
            s in After(scs).bootOk <==> Passed(scs, n, s) || (s in After(scs[..n]).bootOk && !Touched(scs, n, s))
  {
    hide Next, CanInstall, CanSwitch, Current;
    NextBootOk(After(scs[..|scs| - 1]), scs[|scs| - 1], s);
  }

  lemma ConfirmedStep(scs: seq<Script>, s: Slot, i: nat)
    requires scs != []
    ensures var n := |scs| - 1;
            Confirmed(scs, s, i) <==>
            (i == n && Passed(scs, n, s)) || (Confirmed(scs[..n], s, i) && !Touched(scs, n, s))
  {
    hide Passed, Touched;
    var n := |scs| - 1;
    forall j: nat | j < n
      ensures Passed(scs[..n], j, s) == Passed(scs, j, s) && Touched(scs[..n], j, s) == Touched(scs, j, s)
    {
      PrefixSame(scs, n, j, s);
    }
  }

  /** In every run: a slot carries BOOT_OK exactly when some health check passed while it was current
      and it was neither installed into nor switched to since. */
  lemma {:induction false} BootOkMeans(scs: seq<Script>, s: Slot)
    ensures s in After(scs).bootOk <==> exists i: nat :: Confirmed(scs, s, i)
  {
    hide Passed, Touched, Confirmed;
    if scs == [] {
      assert forall i: nat :: !Confirmed(scs, s, i) by { NothingConfirmed(s); }
    } else {
      var n := |scs| - 1;
      BootOkMeans(scs[..n], s);
      BootOkStep(scs, s);
      ConfirmedStep(scs, s, n);
      forall i: nat ensures Confirmed(scs, s, i) <==>
                            (i == n && Passed(scs, n, s)) || (Confirmed(scs[..n], s, i) && !Touched(scs, n, s)) {
        ConfirmedStep(scs, s, i);
      }
    }
  }

  /** The marker's text is the time of the last health check that the slot passed. */
  lemma {:induction false} MarkerTellsWhen(scs: seq<Script>, s: Slot) returns (i: nat)
    requires s in After(scs).bootOk
    ensures Confirmed(scs, s, i) && After(scs).bootOk[s] == scs[i].now + "\n"
    ensures forall j | i < j < |scs| :: !Passed(scs, j, s)
  {
    hide Passed, Touched, Confirmed;
    assert scs != [] by { NothingMarked(s); }
    var n := |scs| - 1;
    MarkerStep(scs, s);
    if Passed(scs, n, s) {
      i := n;
      ConfirmedStep(scs, s, n);
    } else {
      i := MarkerTellsWhen(scs[..n], s);
      ConfirmedStep(scs, s, i);
      assert i < n by { ConfirmedIsIn(scs[..n], s, i); }
      forall j | i < j < |scs| ensures !Passed(scs, j, s) {
        if j < n { PrefixSame(scs, n, j, s); }
      }
    }
  }

  lemma NothingMarked(s: Slot)
    ensures s !in After([]).bootOk
  {}

  lemma ConfirmedIsIn(scs: seq<Script>, s: Slot, i: nat)
    requires Confirmed(scs, s, i)
    ensures i < |scs| && scs[i].BootOk?
  {}

  lemma NextMarker(d: Disk, sc: Script, s: Slot)
    requires s in Next(d, sc).bootOk
    ensures if sc.BootOk? && true in sc.pings && Current(d) == Some(s) then Next(d, sc).bootOk[s] == sc.now + "\n"
            else s in d.bootOk && Next(d, sc).bootOk[s] == d.bootOk[s]
  {
    hide CanInstall, CanSwitch;
  }

  lemma MarkerStep(scs: seq<Script>, s: Slot)
    requires scs != [] && s in After(scs).bootOk
    ensures var n := |scs| - 1;
            if Passed(scs, n, s) then scs[n].BootOk? && After(scs).bootOk[s] == scs[n].now + "\n"
            else s in After(scs[..n]).bootOk && !Touched(scs, n, s) && After(scs).bootOk[s] == After(scs[..n]).bootOk[s]
  {
    hide Next, CanInstall, CanSwitch, Current, Touched;
    NextMarker(After(scs[..|scs| - 1]), scs[|scs| - 1], s);
    BootOkStep(scs, s);
  }

  lemma NothingConfirmed(s: Slot)
    ensures forall i: nat :: !Confirmed([], s, i)
  {}

  /** Link and slot file always agree, and so do the scripts and the status reader on what is current. */
  lemma {:induction false} LinkAndFileAgree(scs: seq<Script>)
    ensures After(scs).link == After(scs).slotFile
    ensures After(scs).laidOut <==> After(scs).link.Some?
    ensures After(scs).binaries != {} ==> After(scs).laidOut
  {
    if scs != [] {
      LinkAndFileAgree(scs[..|scs| - 1]);
    }
  }

  // Some switch has gone through.
  ghost predicate Switched(scs: seq<Script>) {
    exists i :: 0 <= i < |scs| && scs[i].Switch? && CanSwitch(Before(scs, i), scs[i].slot, scs[i].force)
  }

  /** The slot in use has a binary of its own, unless it is still the slot A that the layout chose. */
  lemma {:induction false} CurrentHasBinary(scs: seq<Script>)
    ensures Switched(scs) ==> Current(After(scs)).Some? && Current(After(scs)).value in After(scs).binaries
    ensures !Switched(scs) ==> Current(After(scs)) in {None, Some(A)}
  {
    hide CanInstall;
    LinkAndFileAgree(scs);
    if scs != [] {
      var n := |scs| - 1;
      CurrentHasBinary(scs[..n]);
      LinkAndFileAgree(scs[..n]);
      SwitchedStep(scs);
    }
  }

  lemma SwitchedStep(scs: seq<Script>)
    requires scs != []
    ensures var n := |scs| - 1;
            Switched(scs) <==>
            Switched(scs[..n]) || (scs[n].Switch? && CanSwitch(After(scs[..n]), scs[n].slot, scs[n].force))
  {
    hide CanSwitch;
    var n := |scs| - 1;
    forall i: nat | i < n ensures Before(scs[..n], i) == Before(scs, i) && scs[..n][i] == scs[i] {
      assert scs[..n][..i] == scs[..i];
    }
    if i :| 0 <= i < n && scs[..n][i].Switch? && CanSwitch(Before(scs[..n], i), scs[..n][i].slot, scs[..n][i].force) {
      assert scs[i].Switch? && CanSwitch(Before(scs, i), scs[i].slot, scs[i].force);
    }
    if i :| 0 <= i < n && scs[i].Switch? && CanSwitch(Before(scs, i), scs[i].slot, scs[i].force) {
      assert scs[..n][i].Switch? && CanSwitch(Before(scs[..n], i), scs[..n][i].slot, scs[..n][i].force);
    }
  }

  /** A switch goes through to a slot with a binary when it is forced, stays on the slot, or leaves a slot with its
      marker; the slot is then in use and unmarked. It is refused, and changes nothing, in every other case. */
  lemma SwitchOutcome(d: Disk, s: Slot, force: bool)
    ensures s in d.binaries && (force || d.link == None || d.link.value == s || d.link.value in d.bootOk) ==>
              var n := Next(d, Switch(s, force));
              n.link == Some(s) && n.slotFile == Some(s) && n.binaries == d.binaries && n.bootOk == d.bootOk - {s}
    ensures s !in d.binaries ==> Next(d, Switch(s, force)) == d
    ensures !force && d.link.Some? && d.link.value != s && d.link.value !in d.bootOk ==> Next(d, Switch(s, force)) == d
  {}

  /** An installed slot has a binary and no marker, and the other slot keeps what it has. */
  lemma InstallOutcome(d: Disk, s: Slot, t: Slot)
    requires d.laidOut && s != t
    ensures var n := Next(d, Install(s, true));
            && s in n.binaries && s !in n.bootOk
            && (t in n.binaries <==> t in d.binaries) && (t in n.bootOk <==> t in d.bootOk)
            && n.link == d.link && n.slotFile == d.slotFile
    ensures Next(d, Install(s, false)) == d
  {}

  /** On a root that is laid out, layout.sh changes nothing; on a fresh one it makes A current. */
  lemma LayoutKeepsState(scs: seq<Script>)
    ensures After(scs).laidOut ==> Next(After(scs), Layout) == After(scs)
    ensures !After(scs).laidOut ==> Current(Next(After(scs), Layout)) == Some(A) && After(scs).bootOk == map[]
  {
    LinkAndFileAgree(scs);
    NeverLaidOut(scs);
  }

  lemma {:induction false} NeverLaidOut(scs: seq<Script>)
    ensures !After(scs).laidOut ==> After(scs) == FRESH
  {
    if scs != [] {
      NeverLaidOut(scs[..|scs| - 1]);
    }
  }

  /** A switch without --force leaves a slot with BOOT_OK, and the marker stays until that slot is
      installed into or switched to again: there is a slot to go back to. */
  lemma {:induction false} LeftSlotStaysGood(scs: seq<Script>, i: nat, s: Slot)
    requires i < |scs| && scs[i].Switch? && !scs[i].force && scs[i].slot != s
    requires Current(Before(scs, i)) == Some(s) && CanSwitch(Before(scs, i), scs[i].slot, false)
    requires forall j | i < j < |scs| :: !Touched(scs, j, s)
    ensures s in After(scs).bootOk
  {
    LinkAndFileAgree(scs[..i]);
    var n := |scs| - 1;
    if i < n {
      assert scs[..n][..i] == scs[..i];
      forall j | i < j < n ensures !Touched(scs[..n], j, s) { PrefixSame(scs, n, j, s); }
      LeftSlotStaysGood(scs[..n], i, s);
      assert !Touched(scs, n, s);
    }
  }

  // ----- the scripts and the reader on one root -----

  datatype SlotStatus = SlotStatus(name: Slot, active: bool, binaryPresent: bool, bootOk: bool,
                                   bootOkAt: Option<string>)

  datatype Status = Status(enabled: bool, root: string, current: Option<Slot>, slots: seq<SlotStatus>)

  // The trimmed text of a marker, if there is any.
  function MarkedAt(bootOk: map<Slot, string>, s: Slot): Option<string> {
    if s in bootOk && Trim(bootOk[s]) != "" then Some(Trim(bootOk[s])) else None
  }

  class AbRoot {
    const root: string
    var laidOut: bool
    var link: Option<Slot>
    var slotFile: Option<Slot>
    var binaries: set<Slot>
    var bootOk: map<Slot, string>

    function State(): Disk
      reads this
    {
      Disk(laidOut, link, slotFile, binaries, bootOk)
    }

    constructor (root: string)
      ensures this.root == root && State() == FRESH
    {
      this.root := root;
      laidOut, link, slotFile, binaries, bootOk := false, None, None, {}, map[];
    }

    method RunLayout()
      modifies this
      ensures State() == Next(old(State()), Layout)
    {
      laidOut := true;
      if link == None {
        link := Some(A);
      }
      if slotFile == None {
        slotFile := Some(A);
      }
    }

    method RunInstall(slot: Slot, source: bool) returns (ok: bool)
      modifies this
      ensures ok == CanInstall(old(State()), source) && State() == Next(old(State()), Install(slot, source))
    {
      if !laidOut || !source { return false; }
      binaries := binaries + {slot};
      bootOk := bootOk - {slot};
      ok := true;
    }

    method RunSwitch(slot: Slot, force: bool) returns (ok: bool)
      modifies this
      ensures ok == CanSwitch(old(State()), slot, force) && State() == Next(old(State()), Switch(slot, force))
    {
      if slot !in binaries { return false; }
      var prev := link;
      if prev.Some? && prev.value != slot && !force {
        if prev.value !in bootOk { return false; }
      }
      link := Some(slot);
      slotFile := Some(slot);
      bootOk := bootOk - {slot};
      ok := true;
    }

    // The retry loop ends with the first good answer.
    method RunBootOk(pings: seq<bool>, now: string) returns (ok: bool)
      modifies this
      ensures ok == (Current(old(State())).Some? && true in pings)
      ensures State() == Next(old(State()), BootOk(pings, now))
    {
      var slot := if link.Some? then link else slotFile;
      if slot == None { return false; }
      for k := 0 to |pings|
        invariant State() == old(State())
        invariant true !in pings[..k]
      {
        if pings[k] {
          bootOk := bootOk[slot.value := now + "\n"];
          return true;
        }
      }
      assert pings[..|pings|] == pings;
      ok := false;
    }

    /** read_ab_status; without a root there is nothing to report. */
    method ReadStatus() returns (st: Status)
      ensures !laidOut ==> st == Status(false, root, None, [])
      ensures laidOut ==>
                && st.enabled && st.root == root && st.current == Current(State())
                && |st.slots| == 2 && st.slots[0].name == A && st.slots[1].name == B
                && forall i | 0 <= i < 2 ::
                     && st.slots[i].active == (Current(State()) == Some(st.slots[i].name))
                     && st.slots[i].binaryPresent == (st.slots[i].name in binaries)
                     && st.slots[i].bootOk == (st.slots[i].name in bootOk)
                     && st.slots[i].bootOkAt == MarkedAt(bootOk, st.slots[i].name)
    {
      if !laidOut { return Status(false, root, None, []); }
      var current := if link.Some? then link else slotFile;
      var slots: seq<SlotStatus> := [];
      var names := [A, B];
      for i := 0 to 2
        invariant |slots| == i
        invariant forall k | 0 <= k < i ::
            && slots[k].name == names[k]
            && slots[k].active == (current == Some(names[k]))
            && slots[k].binaryPresent == (names[k] in binaries)
            && slots[k].bootOk == (names[k] in bootOk)
            && slots[k].bootOkAt == MarkedAt(bootOk, names[k])
      {
        var at := None;
        if names[i] in bootOk {
          var text := Trim(bootOk[names[i]]);
          if text != "" {
            at := Some(text);
          }
        }
        slots := slots +
        [SlotStatus(names[i], current == Some(names[i]), names[i] in binaries, names[i] in bootOk, at)];
      }
      st := Status(true, root, current, slots);
    }

    /** Any run of the scripts from nothing. */
    method RunAll(scs: seq<Script>)
      requires State() == FRESH
      modifies this
      ensures State() == After(scs)
      ensures link == slotFile
      ensures forall s :: s in bootOk <==> exists i: nat :: Confirmed(scs, s, i)
    {
      for k := 0 to |scs|
        invariant State() == After(scs[..k])
      {
        assert scs[..k + 1][..k] == scs[..k];
        match scs[k] {
          case Layout => RunLayout();
          case Install(s, source) => var _ := RunInstall(s, source);
          case Switch(s, force) => var _ := RunSwitch(s, force);
          case BootOk(pings, now) => var _ := RunBootOk(pings, now);
        }
      }
      assert scs[..|scs|] == scs;
      LinkAndFileAgree(scs);
      forall s ensures s in bootOk <==> exists i: nat :: Confirmed(scs, s, i) {
        BootOkMeans(scs, s);
      }
    }
  }
}
