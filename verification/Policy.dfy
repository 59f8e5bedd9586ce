/** The policy engine (crates/policy-engine/src/lib.rs) and the kill tool it guards
    (crates/system-tools/src/lib.rs). */
module Policy {
  import opened Common

  datatype Verdict = Allow | Deny | AskUser

  // The verdict as JSON has it.
  function VerdictName(v: Verdict): string {
    match v
    case Allow => "allow"
    case Deny => "deny"
    case AskUser => "ask_user"
  }

  datatype Decision = Decision(verdict: Verdict, reason: string)

  datatype Risk = Low | Medium | High | Critical

  datatype ToolSpec = ToolSpec(name: string, risk: Risk, requiresConfirmation: bool)

  /** The JSON arguments of a call, as far as the runtime looks at them: their rendering, the same in
      lower case, an unsigned "pid", a string "signal", and whether the value is an object or null. */
  datatype Args = Args(rendered: string, lower: string, pid: Option<nat>, signal: Option<string>, isObject: bool)

  const KILL := "process.kill_request"
  const REBOOT := "system.reboot_request"

  predicate HardDeny(tool: string) { tool in {"storage.format", "system.poweroff", "process.kill_init"} }

  predicate Contains(s: string, t: string) { exists i | 0 <= i <= |s| :: t <= s[i..] }

  predicate LooksLikeInjection(a: Args) {
    || Contains(a.lower, "ignore policies") || Contains(a.lower, "kill -9 1")
    || Contains(a.lower, "rm -rf") || Contains(a.lower, "drop privileges")
  }

  function Decide(grants: set<string>, spec: ToolSpec, args: Args): Decision {
    if HardDeny(spec.name) then Decision(Deny, "tool `" + spec.name + "` is denied by default policy")
    else if LooksLikeInjection(args) && spec.name in {KILL, REBOOT} then Decision(Deny, "rejected suspicious arguments")
    else if spec.name == KILL && args.pid.GetOr(0) <= 1 then
      Decision(Deny, "refusing process.kill_request for pid <= 1")
    else if spec.name in grants then Decision(Allow, "session grant")
    else if spec.requiresConfirmation || spec.risk.High? || spec.risk.Critical? then
      Decision(AskUser, "tool `" + spec.name + "` requires confirmation")
    else Decision(Allow, "read-only / low-risk tool")
  }

  /** The calls that no grant and no confirmation can permit. */
  predicate Denied(spec: ToolSpec, args: Args) {
    || HardDeny(spec.name)
    || (spec.name in {KILL, REBOOT} && LooksLikeInjection(args))
    || (spec.name == KILL && args.pid.GetOr(0) <= 1)
  }

  /** Denial depends on tool and arguments alone; a grant turns a question into a permission and
      changes nothing else. */
  lemma GrantsNeverTouchDenial(g: set<string>, h: set<string>, spec: ToolSpec, args: Args)
    ensures Decide(g, spec, args).verdict == Deny <==> Denied(spec, args)
    ensures Decide(g, spec, args).verdict == Deny <==> Decide(h, spec, args).verdict == Deny
    ensures g <= h && Decide(g, spec, args).verdict == Allow ==> Decide(h, spec, args).verdict == Allow
    ensures Decide(g, spec, args).verdict == AskUser ==> Decide(g + {spec.name}, spec, args).verdict == Allow
    ensures Decide(g, spec, args).verdict == AskUser <==>
            !Denied(spec, args) && spec.name !in g && (spec.requiresConfirmation || spec.risk in {High, Critical})
  {
    hide LooksLikeInjection;
    assert spec.name in g && g <= h ==> spec.name in h;
  }

  // t contains the text m.
  ghost predicate Within(m: string, t: string) { exists u: string, v: string :: t == u + m + v }

  lemma ContainsIffWithin(s: string, t: string)
    ensures Contains(s, t) <==> Within(t, s)
  {
    if Contains(s, t) {
      var i :| 0 <= i <= |s| && t <= s[i..];
      assert s == s[..i] + t + s[i..][|t|..];
    }
    if u: string, v: string :| s == u + t + v {
      assert s[|u|..] == t + v;
    }
  }

  /** What no grant and no confirmation permits, tool by tool. */
  lemma DeniedCalls(spec: ToolSpec, args: Args)
    ensures spec.name == "process.kill_request" ==>
              (Denied(spec, args) <==> Suspicious(args) || args.pid == None || args.pid.value <= 1)
    ensures spec.name == "system.reboot_request" ==> (Denied(spec, args) <==> Suspicious(args))
    ensures spec.name in {"storage.format", "system.poweroff", "process.kill_init"} ==> Denied(spec, args)
    ensures Denied(spec, args) ==>
              spec.name in {"process.kill_request", "system.reboot_request", "storage.format", "system.poweroff",
                            "process.kill_init"}
  {
    hide Contains;
    ContainsIffWithin(args.lower, "ignore policies");
    ContainsIffWithin(args.lower, "kill -9 1");
    ContainsIffWithin(args.lower, "rm -rf");
    ContainsIffWithin(args.lower, "drop privileges");
  }

  // Arguments that carry an instruction.
  ghost predicate Suspicious(args: Args) {
    || Within("ignore policies", args.lower) || Within("kill -9 1", args.lower)
    || Within("rm -rf", args.lower) || Within("drop privileges", args.lower)
  }

  class PolicyEngine {
    var sessionAllows: set<string>

    constructor ()
      ensures sessionAllows == {}
    {
      sessionAllows := {};
    }

    method DecideCall(spec: ToolSpec, args: Args) returns (d: Decision)
      ensures d == Decide(sessionAllows, spec, args)
      ensures d.verdict == Deny <==> Denied(spec, args)
    {
      GrantsNeverTouchDenial(sessionAllows, {}, spec, args);
      d := Decide(sessionAllows, spec, args);
    }

    method GrantSession(tool: string)
      modifies this
      ensures sessionAllows == old(sessionAllows) + {tool}
    {
      sessionAllows := sessionAllows + {tool};
    }

    method ClearSessionGrants()
      modifies this
      ensures sessionAllows == {}
    {
      sessionAllows := {};
    }
  }

  // ----- the kill tool -----

  const SIGNALS := {"TERM", "KILL", "HUP", "INT", "QUIT", "USR1", "USR2"}

  /** What the host answers: its own process id, which ids exist, and a signal name trimmed, without SIG and in
      upper case. */
  datatype Host = Host(self: nat, alive: set<nat>, normalize: string -> string)

  // KillRequestTool::execute on real_kill: the process that gets a signal, if one does.
  function Signalled(args: Args, host: Host): Option<nat> {
    if args.pid == None then None
    else
      var pid, signal := ToU32(args.pid.value), host.normalize(args.signal.GetOr("TERM"));
      if pid <= 1 || pid == host.self || (signal != "" && signal !in SIGNALS) || pid !in host.alive then None
      else Some(pid)
  }

  /** What is signalled is an existing process, neither 0, 1 nor the runtime, with the lower 32 bits of the id; the
      signal is TERM when none is given, and passes when it has one of seven names, or an empty one. */
  lemma SignalledIff(args: Args, host: Host, pid: nat)
    ensures Signalled(args, host) == Some(pid) <==>
            && args.pid.Some? && pid == args.pid.value % 4_294_967_296 && pid in host.alive && pid !in {0, 1, host.self}
            && host.normalize(if args.signal.Some? then args.signal.value else "TERM") in
                 {"", "TERM", "KILL", "HUP", "INT", "QUIT", "USR1", "USR2"}
  {}

  /** A kill that the policy lets through never signals process 0 or 1, nor the runtime itself. The
      policy looks at 64 bits and the tool at 32, so there are ids that only the tool refuses: those
      that become 0 or 1 when narrowed. */
  lemma KillSparesInit(spec: ToolSpec, args: Args, host: Host)
    requires spec.name == KILL && !Denied(spec, args)
    ensures Signalled(args, host).Some? ==>
              Signalled(args, host).value > 1 && Signalled(args, host).value != host.self
    ensures args.pid.Some? && args.pid.value < 0x1_0000_0000 ==> ToU32(args.pid.value) > 1
    ensures args.pid.Some? && ToU32(args.pid.value) <= 1 ==>
              args.pid.value >= 0x1_0000_0000 && Signalled(args, host) == None
  {
    hide LooksLikeInjection;
  }

  /** What is signalled is the process that was named, judged and confirmed exactly when its id fits 32 bits. */
  lemma NamedProcessIff(args: Args, host: Host)
    requires Signalled(args, host).Some?
    ensures args.pid.Some?
    ensures Signalled(args, host).value == args.pid.value <==> args.pid.value < 0x1_0000_0000
  {}

  /** Id 4294967396 is let through by the policy, and process 100 is signalled. */
  lemma AnotherProcessSignalled(spec: ToolSpec, args: Args, host: Host)
    requires spec.name == KILL && !LooksLikeInjection(args) && args.pid == Some(4_294_967_396)
    requires 100 in host.alive && host.self != 100 && host.normalize(args.signal.GetOr("TERM")) in SIGNALS
    ensures !Denied(spec, args) && Signalled(args, host) == Some(100)
  {
    hide LooksLikeInjection;
  }
}
