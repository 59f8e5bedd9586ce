/** ConversationStore (crates/ai-runtime/src/conversation.rs): the chat history of each session,
    trimmed at every save and append. */
module Conversation {
  type Uuid = nat

  datatype Message = Message(role: string, content: string)

  predicate ToolTurn(m: Message) { m.role == "user" && "tool_result:" <= m.content }

  /** What a confirmation writes into the chat is a tool turn; what the assistant says is none, whatever it says. */
  lemma ToolTurnsAre(role: string, content: string, rest: string)
    ensures ToolTurn(Message("user", "tool_result:" + rest))
    ensures role != "user" ==> !ToolTurn(Message(role, content))
    ensures ToolTurn(Message(role, content)) ==> exists r: string :: content == "tool_result:" + r
  {
    if ToolTurn(Message(role, content)) {
      assert content == "tool_result:" + content[12..];
    }
  }

  function DropTools(ms: seq<Message>): seq<Message> {
    if ms != [] && ToolTurn(ms[0]) then DropTools(ms[1..]) else ms
  }

  function Trim(ms: seq<Message>, max: nat): seq<Message> {
    if |ms| <= max then ms else DropTools(ms[|ms| - max..])
  }

  method TrimMessages(ms: seq<Message>, max: nat) returns (r: seq<Message>)
    ensures r == Trim(ms, max)
  {
    if |ms| <= max { return ms; }
    var drop := |ms| - max;
    r := ms[drop..];
    while r != [] && ToolTurn(r[0])
      invariant DropTools(r) == DropTools(ms[drop..])
      decreases |r|
    {
      r := r[1..];
    }
  }

  ghost predicate SuffixOf(s: seq<Message>, whole: seq<Message>) {
    |s| <= |whole| && s == whole[|whole| - |s|..]
  }

  ghost predicate AllTools(ms: seq<Message>) { forall i | 0 <= i < |ms| :: ToolTurn(ms[i]) }

  /** DropTools takes off exactly the leading tool results. */
  lemma {:induction false} DropToolsSplit(ms: seq<Message>) returns (n: nat)
    ensures n <= |ms| && AllTools(ms[..n]) && DropTools(ms) == ms[n..]
    ensures n == |ms| || !ToolTurn(ms[n])
  {
    if ms != [] && ToolTurn(ms[0]) {
      n := DropToolsSplit(ms[1..]);
      assert ms[1..][n..] == ms[n + 1..];
      assert forall i | 1 <= i < n + 1 :: ms[i] == ms[1..][..n][i - 1];
      n := n + 1;
    } else {
      n := 0;
    }
  }

  lemma {:induction false} DropToolsOver(a: seq<Message>, b: seq<Message>)
    requires AllTools(a)
    ensures DropTools(a + b) == DropTools(b)
    decreases |a|
  {
    if a == [] {
      assert a + b == b;
    } else {
      assert (a + b)[1..] == a[1..] + b;
      DropToolsOver(a[1..], b);
    }
  }

  /** What is kept is a suffix, no longer than max, and does not start in the middle of a tool turn
      unless nothing was dropped. */
  lemma TrimKeeps(ms: seq<Message>, max: nat)
    ensures SuffixOf(Trim(ms, max), ms) && |Trim(ms, max)| <= max
    ensures |ms| > max && Trim(ms, max) != [] ==> !ToolTurn(Trim(ms, max)[0])
  {
    if |ms| > max {
      var n := DropToolsSplit(ms[|ms| - max..]);
      assert ms[|ms| - max..][n..] == ms[|ms| - max + n..];
    }
  }

  /** The one case in which the history forgets that it is cut: it was trimmed to nothing, and what
      is added starts with a tool result. */
  predicate Orphans(x: seq<Message>, y: seq<Message>, max: nat) {
    |x| > max && Trim(x, max) == [] && y != [] && |y| <= max && ToolTurn(y[0])
  }

  /** Trimming as one goes is the same as trimming the whole at the end, except in that case. */
  lemma TrimAgain(x: seq<Message>, y: seq<Message>, max: nat)
    ensures Trim(Trim(x, max) + y, max) == Trim(x + y, max) <==> !Orphans(x, y, max)
  {
    hide DropTools;
    if |x| > max {
      var cut := x[|x| - max..];
      var n := DropToolsSplit(cut);
      var s := cut[n..];
      assert Trim(x, max) == s;
      assert s == x[|x| - |s|..];
      if |s + y| > max {
        assert (x + y)[|x + y| - max..] == (s + y)[|s + y| - max..];
      } else {
        TrimShort(x, y, max, cut, n);
      }
    } else {
      assert Trim(x, max) == x;
    }
  }

  // The kept end of x and y, when the last n - skip messages of x's cut are dropped.
  lemma LastOfBoth(x: seq<Message>, y: seq<Message>, max: nat, cut: seq<Message>, n: nat)
    requires |x| > max && cut == x[|x| - max..] && n <= max && |cut[n..] + y| <= max
    ensures var skip := max - |cut[n..] + y|;
            skip <= n && (x + y)[|x + y| - max..] == cut[n - skip..n] + (cut[n..] + y)
  {}

  lemma HeadStays(ms: seq<Message>)
    requires ms != [] && !ToolTurn(ms[0])
    ensures DropTools(ms) == ms
  {}

  // After x was cut to s, y still fits.
  lemma TrimShort(x: seq<Message>, y: seq<Message>, max: nat, cut: seq<Message>, n: nat)
    requires |x| > max && cut == x[|x| - max..] && n <= max && AllTools(cut[..n])
    requires Trim(x, max) == cut[n..] && |cut[n..] + y| <= max && (n == max || !ToolTurn(cut[n]))
    ensures cut[n..] + y == Trim(x + y, max) <==> !Orphans(x, y, max)
  {
    hide ToolTurn, DropTools, AllTools, Trim;
    var s := cut[n..];
    TrimOfBoth(x, y, max, cut, n);
    if s == [] {
      assert s + y == y;
      var k := DropToolsSplit(y);
    } else {
      assert (s + y)[0] == cut[n];
      HeadStays(s + y);
    }
  }

  lemma TrimOfBoth(x: seq<Message>, y: seq<Message>, max: nat, cut: seq<Message>, n: nat)
    requires |x| > max && cut == x[|x| - max..] && n <= max && AllTools(cut[..n])
    requires |cut[n..] + y| <= max
    ensures Trim(x + y, max) == DropTools(cut[n..] + y)
  {
    hide ToolTurn, DropTools, AllTools;
    var skip := max - |cut[n..] + y|;
    LastOfBoth(x, y, max, cut, n);
    assert cut[..n][n - skip..] == cut[n - skip..n];
    ToolsToTheEnd(cut[..n], n - skip);
    DropToolsOver(cut[n - skip..n], cut[n..] + y);
  }

  lemma ToolsToTheEnd(ms: seq<Message>, k: nat)
    requires k <= |ms| && AllTools(ms)
    ensures AllTools(ms[k..])
  {}

  // ----- a session -----

  /** One finished turn of the runtime (what it read, plus what the turn added, is saved), one
      confirmation result, or a reset. */
  datatype Op = Turn(added: seq<Message>) | Confirmed(m: Message) | Reset

  function Added(op: Op): seq<Message> {
    match op
    case Turn(added) => added
    case Confirmed(m) => [m]
    case Reset => []
  }

  function Next(stored: seq<Message>, op: Op, max: nat): seq<Message> {
    if op.Reset? then [] else Trim(stored + Added(op), max)
  }

  function Stored(ops: seq<Op>, max: nat): seq<Message> {
    if ops == [] then [] else Next(Stored(ops[..|ops| - 1], max), ops[|ops| - 1], max)
  }

  /** Everything said since the last reset. */
  function Transcript(ops: seq<Op>): seq<Message> {
    if ops == [] || ops[|ops| - 1].Reset? then [] else Transcript(ops[..|ops| - 1]) + Added(ops[|ops| - 1])
  }

  /** A turn adds its messages, a confirmation its one message, and a reset leaves nothing. */
  lemma TranscriptTells(ops: seq<Op>, ms: seq<Message>, m: Message)
    ensures Transcript(ops + [Turn(ms)]) == Transcript(ops) + ms
    ensures Transcript(ops + [Confirmed(m)]) == Transcript(ops) + [m]
    ensures Transcript(ops + [Reset]) == []
  {
    assert forall op: Op :: (ops + [op])[..|ops|] == ops;
  }

  // No step of the session meets the exceptional case.
  predicate NeverOrphans(ops: seq<Op>, max: nat) {
    ops == [] ||
    (NeverOrphans(ops[..|ops| - 1], max) &&
     (ops[|ops| - 1].Reset? || !Orphans(Transcript(ops[..|ops| - 1]), Added(ops[|ops| - 1]), max)))
  }

  lemma NothingIsSuffix(whole: seq<Message>)
    ensures SuffixOf([], whole)
  {}

  lemma SuffixGrows(s: seq<Message>, whole: seq<Message>, added: seq<Message>, r: seq<Message>)
    requires SuffixOf(s, whole) && SuffixOf(r, s + added)
    ensures SuffixOf(r, whole + added)
  {
    var rest := whole[..|whole| - |s|];
    assert whole + added == rest + (s + added);
  }

  /** Whatever happens in a session, the store holds at most max messages, and they are the latest
      ones of the transcript, in order. */
  lemma {:induction false} HistoryIsRecent(ops: seq<Op>, max: nat)
    ensures |Stored(ops, max)| <= max && SuffixOf(Stored(ops, max), Transcript(ops))
  {
    hide Trim, SuffixOf;
    if ops == [] {
      NothingIsSuffix(Transcript(ops));
    } else {
      var before, op := ops[..|ops| - 1], ops[|ops| - 1];
      NothingIsSuffix(Transcript(ops));
      HistoryIsRecent(before, max);
      if !op.Reset? {
        var s := Stored(before, max);
        TrimKeeps(s + Added(op), max);
        SuffixGrows(s, Transcript(before), Added(op), Stored(ops, max));
      }
    }
  }

  /** As long as no step orphans a tool result, the store is the trimmed transcript; the first step
      that does breaks it. */
  lemma {:induction false} HistoryIsTrimmedTranscript(ops: seq<Op>, max: nat)
    ensures NeverOrphans(ops, max) ==> Stored(ops, max) == Trim(Transcript(ops), max)
    ensures ops != [] && NeverOrphans(ops[..|ops| - 1], max) && !NeverOrphans(ops, max) ==>
              Stored(ops, max) != Trim(Transcript(ops), max)
  {
    if ops != [] {
      var before, op := ops[..|ops| - 1], ops[|ops| - 1];
      HistoryIsTrimmedTranscript(before, max);
      if !op.Reset? {
        TrimAgain(Transcript(before), Added(op), max);
      }
    }
  }

  // ----- the store -----

  class ConversationStore {
    var inner: map<Uuid, seq<Message>>
    const maxMessages: nat

    constructor (max: nat)
      ensures inner == map[] && maxMessages == if max < 4 then 4 else max
    {
      inner, maxMessages := map[], if max < 4 then 4 else max;
    }

    function Get(session: Uuid): seq<Message>
      reads this
    {
      if session in inner then inner[session] else []
    }

    method Save(session: Uuid, messages: seq<Message>)
      modifies this
      ensures Get(session) == Trim(messages, maxMessages)
      ensures session in inner <==> Trim(messages, maxMessages) != []
      ensures inner - {session} == old(inner) - {session}
    {
      var trimmed := TrimMessages(messages, maxMessages);
      if trimmed == [] {
        inner := inner - {session};
      } else {
        inner := inner[session := trimmed];
      }
    }

    method Append(session: Uuid, message: Message)
      modifies this
      ensures Get(session) == Trim(old(Get(session)) + [message], maxMessages)
      ensures session in inner
      ensures inner - {session} == old(inner) - {session}
    {
      var entry := Get(session);
      entry := TrimMessages(entry + [message], maxMessages);
      inner := inner[session := entry];
    }

    method ResetSession(session: Uuid) returns (had: bool)
      modifies this
      ensures had == (session in old(inner)) && inner == old(inner) - {session}
    {
      had := session in inner;
      inner := inner - {session};
    }

    /** A session of turns and confirmations that do not overlap, from an unknown session id on. */
    method RunSession(session: Uuid, ops: seq<Op>)
      requires session !in inner
      modifies this
      ensures Get(session) == Stored(ops, maxMessages)
      ensures |Get(session)| <= maxMessages && SuffixOf(Get(session), Transcript(ops))
      ensures inner - {session} == old(inner) - {session}
    {
      for k := 0 to |ops|
        invariant Get(session) == Stored(ops[..k], maxMessages)
        invariant inner - {session} == old(inner) - {session}
      {
        assert ops[..k + 1][..k] == ops[..k];
        match ops[k] {
          case Turn(added) =>
            var history := Get(session);
            Save(session, history + added);
          case Confirmed(m) => Append(session, m);
          case Reset => var _ := ResetSession(session);
        }
      }
      assert ops[..|ops|] == ops;
      HistoryIsRecent(ops, maxMessages);
    }
  }
}
