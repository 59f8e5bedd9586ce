/** forward_diagnose_stream (crates/console-web/src/main.rs): the web console passes the frames of
    the runtime on to a browser and remembers the session that a done frame names. */
module WebForward {
  import opened Common
  import opened Framing

  type Uuid = nat

  const NL: byte := 10

  // String::from_utf8_lossy.
  type Decoder = seq<byte> -> string

  // The session id of a line that is a done frame with a valid one.
  type Sessions = string -> Option<Uuid>

  datatype Outcome = Forwarded | EmptyStream | ReadFailed

  function Frame(decode: Decoder, bytes: seq<byte>): string { Trim(decode(bytes)) }

  /** The non-blank trimmed lines, in order. */
  function Frames(decode: Decoder, lines: seq<seq<byte>>): seq<string>
    decreases |lines|
  {
    if lines == [] then []
    else
      var f := Frame(decode, lines[0] + [NL]);
      (if f == "" then [] else [f]) + Frames(decode, lines[1..])
  }

  // The unterminated last line, when it is not blank.
  function Tail(decode: Decoder, rest: seq<byte>): seq<string> {
    if rest == [] || Frame(decode, rest) == "" then [] else [Frame(decode, rest)]
  }

  function Terminated(fs: seq<string>): seq<string> {
    if fs == [] then [] else Terminated(fs[..|fs| - 1]) + [fs[|fs| - 1] + "\n"]
  }

  /** The session after the frames fs: that of the last done frame that carries one. */
  function SessionAfter(sessions: Sessions, fs: seq<string>, slot: Option<Uuid>): Option<Uuid> {
    if fs == [] then slot
    else if sessions(fs[|fs| - 1]).Some? then sessions(fs[|fs| - 1])
    else SessionAfter(sessions, fs[..|fs| - 1], slot)
  }

  /** SessionAfter changes the slot exactly when some frame carries a session. */
  lemma {:induction false} SessionIsLast(sessions: Sessions, fs: seq<string>, slot: Option<Uuid>)
    ensures (exists i | 0 <= i < |fs| :: sessions(fs[i]).Some? && SessionAfter(sessions, fs, slot) == sessions(fs[i]) &&
                                         forall j | i < j < |fs| :: sessions(fs[j]) == None)
            || (SessionAfter(sessions, fs, slot) == slot && forall j | 0 <= j < |fs| :: sessions(fs[j]) == None)
  {
    if fs != [] {
      var last := |fs| - 1;
      if sessions(fs[last]).Some? {
        assert SessionAfter(sessions, fs, slot) == sessions(fs[last]);
      } else {
        SessionIsLast(sessions, fs[..last], slot);
        var u := fs[..last];
        if i :| 0 <= i < last && sessions(u[i]).Some? && SessionAfter(sessions, u, slot) == sessions(u[i]) &&
                forall j | i < j < last :: sessions(u[j]) == None {
          assert sessions(fs[i]) == SessionAfter(sessions, fs, slot);
          forall j | i < j < |fs| ensures sessions(fs[j]) == None {
            if j < last { assert u[j] == fs[j]; }
          }
        } else {
          forall j | 0 <= j < |fs| ensures sessions(fs[j]) == None {
            if j < last { assert u[j] == fs[j]; }
          }
        }
      }
    }
  }

  lemma {:induction false} FramesAcross(decode: Decoder, u: seq<seq<byte>>, v: seq<seq<byte>>)
    ensures Frames(decode, u + v) == Frames(decode, u) + Frames(decode, v)
    decreases |u|
  {
    if u == [] {
      assert u + v == v;
    } else {
      assert (u + v)[1..] == u[1..] + v;
      FramesAcross(decode, u[1..], v);
    }
  }

  /** The frames of everything read, whether the last line ended or not. */
  function AllFrames(decode: Decoder, whole: seq<byte>): seq<string> {
    Frames(decode, Lines(whole, NL)) + Tail(decode, Rest(whole, NL))
  }

  class Forwarder {
    const decode: Decoder
    const sessions: Sessions
    // The browser's side: what it got, and how much more it takes before it hangs up.
    var out: seq<string>
    var room: nat
    var sessionSlot: Option<Uuid>
    var sawFrame: bool

    constructor (decode: Decoder, sessions: Sessions, slot: Option<Uuid>, room: nat)
      ensures this.decode == decode && this.sessions == sessions && sessionSlot == slot && this.room == room
      ensures out == [] && !sawFrame
    {
      this.decode, this.sessions, this.sessionSlot, this.room := decode, sessions, slot, room;
      out, sawFrame := [], false;
    }

    method Send(s: string) returns (ok: bool)
      modifies this`out, this`room
      ensures ok == (old(room) > 0)
      ensures ok ==> out == old(out) + [s] && room == old(room) - 1
      ensures !ok ==> out == old(out) && room == old(room)
    {
      ok := room > 0;
      if ok {
        out, room := out + [s], room - 1;
      }
    }

    // The state after the frames fs have been taken from the line buffer.
    ghost predicate Took(fs: seq<string>, slot0: Option<Uuid>, room0: nat)
      reads this
    {
      && |fs| <= room0 && room == room0 - |fs|
      && out == Terminated(fs)
      && sessionSlot == SessionAfter(sessions, fs, slot0)
      && sawFrame == (fs != [])
    }

    // The state when frame n of fs found the browser gone: its session is still remembered.
    ghost predicate HungUp(fs: seq<string>, slot0: Option<Uuid>, room0: nat)
      reads this
    {
      && room0 < |fs|
      && out == Terminated(fs[..room0])
      && sessionSlot == SessionAfter(sessions, fs[..room0 + 1], slot0)
    }

    method TakeLine(bytes: seq<byte>, ghost fs: seq<string>, ghost slot0: Option<Uuid>, ghost room0: nat)
      returns (open: bool)
      requires Took(fs, slot0, room0)
      modifies this
      ensures var all := fs + Frames(decode, [bytes]);
              if open then Took(all, slot0, room0)
              else |all| == room0 + 1 && HungUp(all, slot0, room0)
    {
      hide Terminated, SessionAfter, Trim;
      var line := Trim(decode(bytes + [NL]));
      assert [bytes][1..] == [];
      TerminatedSnoc(fs, line);
      SessionSnoc(sessions, fs, line, slot0);
      assert Frames(decode, [bytes]) == if line == "" then [] else [line];
      if line == "" {
        assert fs + [] == fs;
        return true;
      }
      sawFrame := true;
      if sessions(line).Some? {
        sessionSlot := sessions(line);
      }
      assert (fs + [line])[..|fs|] == fs;
      open := Send(line + "\n");
      if !open {
        assert (fs + [line])[..room0] == fs && (fs + [line])[..room0 + 1] == fs + [line];
      }
    }

    /** One stream, cut into reads in any way. eof says whether it ended or broke off. A browser
        that stays gets every frame of the whole stream; one that hangs up got the first ones. */
    method Forward(cuts: seq<seq<byte>>, eof: bool) returns (r: Outcome)
      requires out == [] && !sawFrame
      modifies this
      ensures var whole := Concat(cuts);
              var fs := Frames(decode, Lines(whole, NL));
              if old(room) < |fs| then r == Forwarded && HungUp(fs, old(sessionSlot), old(room))
              else
                && sessionSlot == SessionAfter(sessions, fs, old(sessionSlot))
                && (!eof ==> r == ReadFailed && out == Terminated(fs))
                && (eof ==>
                      && out == Terminated(AllFrames(decode, whole)[..Min(old(room), |AllFrames(decode, whole)|)])
                      && r == if AllFrames(decode, whole) == [] then EmptyStream else Forwarded)
    {
      hide Lines, Rest, Terminated, SessionAfter, Frames;
      var buf: seq<byte> := [];
      ghost var slot0, room0 := sessionSlot, room;
      ghost var seen: seq<byte> := [];
      LinesNone(seen, NL);
      NoFrames();
      for i := 0 to |cuts|
        invariant Concat(cuts) == seen + Concat(cuts[i..])
        invariant buf == Rest(seen, NL)
        invariant Took(Frames(decode, Lines(seen, NL)), slot0, room0)
      {
        ghost var before := seen;
        var chunk := cuts[i];
        buf := buf + chunk;
        seen := seen + chunk;
        assert cuts[i..][1..] == cuts[i + 1..];
        assert before + (chunk + Concat(cuts[i + 1..])) == seen + Concat(cuts[i + 1..]);
        LinesAcross(before, chunk, NL);
        ghost var lines := Lines(before, NL) + Lines(buf, NL);
        var open;
        open, buf := TakeLines(buf, Lines(before, NL), slot0, room0);
        if !open {
          LinesAcross(seen, Concat(cuts[i + 1..]), NL);
          KeepsHungUp(lines, Lines(Rest(seen, NL) + Concat(cuts[i + 1..]), NL), slot0, room0);
          return Forwarded;
        }
      }
      assert seen + Concat(cuts[|cuts|..]) == seen;
      ghost var fs := Frames(decode, Lines(seen, NL));
      if !eof { return ReadFailed; }
      assert AllFrames(decode, seen)[..|fs|] == fs;
      assert AllFrames(decode, seen)[..|AllFrames(decode, seen)|] == AllFrames(decode, seen);
      if buf != [] {
        var line := Trim(decode(buf));
        if line != "" {
          sawFrame := true;
          TerminatedSnoc(fs, line);
          var _ := Send(line + "\n");
        }
      }
      r := if !sawFrame then EmptyStream else Forwarded;
    }

    // Drains the complete lines of the buffer.
    method TakeLines(buf0: seq<byte>, ghost done: seq<seq<byte>>, ghost slot0: Option<Uuid>, ghost room0: nat)
      returns (open: bool, buf: seq<byte>)
      requires Took(Frames(decode, done), slot0, room0)
      modifies this
      ensures var all := Frames(decode, done + Lines(buf0, NL));
              if open then Took(all, slot0, room0) && buf == Rest(buf0, NL) else HungUp(all, slot0, room0)
    {
      hide Lines, Rest, Terminated, SessionAfter, Frames;
      buf := buf0;
      ghost var taken := done;
      var pos := Find(buf, NL);
      while pos < |buf|
        invariant pos == Find(buf, NL)
        invariant taken + Lines(buf, NL) == done + Lines(buf0, NL) && Rest(buf, NL) == Rest(buf0, NL)
        invariant Took(Frames(decode, taken), slot0, room0)
        decreases |buf|
      {
        var line := buf[..pos];
        LinesStep(line, buf[pos + 1..], NL);
        assert line + [NL] + buf[pos + 1..] == buf;
        buf := buf[pos + 1..];
        open := TakeLine(line, Frames(decode, taken), slot0, room0);
        FramesAcross(decode, taken, [line]);
        assert taken + ([line] + Lines(buf, NL)) == taken + [line] + Lines(buf, NL);
        taken := taken + [line];
        if !open {
          KeepsHungUp(taken, Lines(buf, NL), slot0, room0);
          return;
        }
        pos := Find(buf, NL);
      }
      LinesNone(buf, NL);
      assert taken + [] == taken;
      open := true;
    }

    // What comes after the frame that found the browser gone changes nothing.
    lemma KeepsHungUp(u: seq<seq<byte>>, v: seq<seq<byte>>, slot0: Option<Uuid>, room0: nat)
      requires HungUp(Frames(decode, u), slot0, room0)
      ensures HungUp(Frames(decode, u + v), slot0, room0)
    {
      hide Frames, Terminated, SessionAfter;
      FramesAcross(decode, u, v);
      var fs, all := Frames(decode, u), Frames(decode, u + v);
      assert all == fs + Frames(decode, v);
      assert all[..room0] == fs[..room0] && all[..room0 + 1] == fs[..room0 + 1];
    }

    lemma NoFrames()
      ensures Frames(decode, []) == [] && Terminated([]) == []
      ensures SessionAfter(sessions, [], sessionSlot) == sessionSlot
    {}
  }

  lemma SessionSnoc(sessions: Sessions, fs: seq<string>, f: string, slot: Option<Uuid>)
    ensures SessionAfter(sessions, fs + [f], slot) ==
            if sessions(f).Some? then sessions(f) else SessionAfter(sessions, fs, slot)
  {
    assert (fs + [f])[..|fs|] == fs;
  }

  lemma TerminatedSnoc(fs: seq<string>, f: string)
    ensures Terminated(fs + [f]) == Terminated(fs) + [f + "\n"]
  {
    assert (fs + [f])[..|fs|] == fs;
  }

  /** A line makes a frame exactly when it is not blank, and the frame is the line with its newline, decoded, without
      the white space around it. */
  lemma FrameOfLine(decode: Decoder, line: seq<byte>, u: string, t: string, v: string)
    requires decode(line + [10]) == u + t + v && AllSpace(u) && AllSpace(v) && Bare(t)
    ensures Frames(decode, [line]) == if t == "" then [] else [t]
  {
    hide Trim;
    TrimOf(u, t, v);
    assert [line][1..] == [];
  }

  /** The unterminated last line makes one in the same way, without a newline, unless it is missing. */
  lemma FrameOfTail(decode: Decoder, rest: seq<byte>, u: string, t: string, v: string)
    requires decode(rest) == u + t + v && AllSpace(u) && AllSpace(v) && Bare(t)
    ensures Tail(decode, rest) == if rest == [] || t == "" then [] else [t]
  {
    hide Trim;
    TrimOf(u, t, v);
  }

  /** What is sent is each frame and a newline. */
  lemma {:induction false} SentLines(fs: seq<string>)
    ensures |Terminated(fs)| == |fs| && forall i | 0 <= i < |fs| :: Terminated(fs)[i] == fs[i] + "\n"
  {
    if fs != [] {
      SentLines(fs[..|fs| - 1]);
    }
  }
}
