/** Splitting a stream at a delimiter, and trimming a line: the common ground of the two stream
    readers (crates/model-provider/src/lib.rs and crates/console-web/src/main.rs). */
module Framing {

  // No delimiter among the first n elements.
  ghost predicate Free<T>(s: seq<T>, nl: T, n: nat) {
    forall i | 0 <= i < n && i < |s| :: s[i] != nl
  }

  // The index of the first delimiter, or the length when there is none.
  function Find<T(==)>(s: seq<T>, nl: T): (p: nat)
    ensures p <= |s| && Free(s, nl, p)
    ensures p < |s| ==> s[p] == nl
  {
    if s == [] || s[0] == nl then 0 else Find(s[1..], nl) + 1
  }

  /** The terminated lines of s, without their terminators. */
  function Lines<T(==)>(s: seq<T>, nl: T): seq<seq<T>>
    decreases |s|
  {
    var p := Find(s, nl);
    if p == |s| then [] else [s[..p]] + Lines(s[p + 1..], nl)
  }

  /** What follows the last terminator of s. */
  function Rest<T(==)>(s: seq<T>, nl: T): seq<T>
    decreases |s|
  {
    var p := Find(s, nl);
    if p == |s| then s else Rest(s[p + 1..], nl)
  }

  function Unlines<T>(ls: seq<seq<T>>, nl: T): seq<T> {
    if ls == [] then [] else ls[0] + [nl] + Unlines(ls[1..], nl)
  }

  function Concat<T>(ss: seq<seq<T>>): seq<T> {
    if ss == [] then [] else ss[0] + Concat(ss[1..])
  }

  lemma {:induction false} ConcatAppend<T>(a: seq<seq<T>>, b: seq<seq<T>>)
    ensures Concat(a + b) == Concat(a) + Concat(b)
  {
    if a == [] {
      assert a + b == b;
    } else {
      assert (a + b)[1..] == a[1..] + b;
      ConcatAppend(a[1..], b);
    }
  }

  lemma FindFirst<T>(s: seq<T>, nl: T, p: nat)
    requires p <= |s| && Free(s, nl, p) && (p < |s| ==> s[p] == nl)
    ensures Find(s, nl) == p
  {}

  // One line at a time.
  lemma LinesStep<T>(line: seq<T>, s: seq<T>, nl: T)
    requires Free(line, nl, |line|)
    ensures Lines(line + [nl] + s, nl) == [line] + Lines(s, nl)
    ensures Rest(line + [nl] + s, nl) == Rest(s, nl)
  {
    var whole := line + [nl] + s;
    FindFirst(whole, nl, |line|);
    assert whole[..|line|] == line && whole[|line| + 1..] == s;
  }

  lemma LinesNone<T>(s: seq<T>, nl: T)
    requires Free(s, nl, |s|)
    ensures Lines(s, nl) == [] && Rest(s, nl) == s
  {
    FindFirst(s, nl, |s|);
  }

  /** Splitting finds every way to write s as lines without a delimiter, each terminated, and a rest without one, */
  lemma {:induction false} SplitUnlines<T>(nl: T, ls: seq<seq<T>>, r: seq<T>)
    requires forall i | 0 <= i < |ls| :: Free(ls[i], nl, |ls[i]|)
    requires Free(r, nl, |r|)
    ensures Lines(Unlines(ls, nl) + r, nl) == ls && Rest(Unlines(ls, nl) + r, nl) == r
    decreases |ls|
  {
    hide Lines, Rest;
    if ls == [] {
      assert Unlines(ls, nl) + r == r;
      LinesNone(r, nl);
    } else {
      var tail := Unlines(ls[1..], nl);
      SplitUnlines(nl, ls[1..], r);
      LinesStep(ls[0], tail + r, nl);
      assert Unlines(ls, nl) + r == ls[0] + [nl] + (tail + r);
    }
  }

  /** and there is always one. */
  lemma {:induction false} Rejoin<T>(s: seq<T>, nl: T)
    ensures Unlines(Lines(s, nl), nl) + Rest(s, nl) == s
    ensures Free(Rest(s, nl), nl, |Rest(s, nl)|)
    ensures forall i | 0 <= i < |Lines(s, nl)| :: Free(Lines(s, nl)[i], nl, |Lines(s, nl)[i]|)
    decreases |s|
  {
    hide Lines, Rest;
    var p := Find(s, nl);
    if p == |s| {
      LinesNone(s, nl);
    } else {
      var line, s' := s[..p], s[p + 1..];
      Rejoin(s', nl);
      LinesStep(line, s', nl);
      assert s == line + [nl] + s';
      assert ([line] + Lines(s', nl))[1..] == Lines(s', nl);
      assert line + [nl] + Unlines(Lines(s', nl), nl) + Rest(s', nl)
          == line + [nl] + (Unlines(Lines(s', nl), nl) + Rest(s', nl));
    }
  }

  /** Reading on where the last chunk stopped gives the lines of the whole. */
  lemma {:induction false} LinesAcross<T>(a: seq<T>, b: seq<T>, nl: T)
    ensures Lines(a + b, nl) == Lines(a, nl) + Lines(Rest(a, nl) + b, nl)
    ensures Rest(a + b, nl) == Rest(Rest(a, nl) + b, nl)
    decreases |a|
  {
    hide Lines, Rest;
    var p := Find(a, nl);
    if p == |a| {
      LinesNone(a, nl);
    } else {
      var line, a' := a[..p], a[p + 1..];
      LinesAcross(a', b, nl);
      LinesStep(line, a' + b, nl);
      LinesStep(line, a', nl);
      assert line + [nl] + a' == a;
      assert line + [nl] + (a' + b) == a + b;
    }
  }

  // ----- trimming -----

  // The characters with the Unicode property White_Space.
  predicate IsSpace(c: char) {
    var n := c as int;
    || 0x9 <= n <= 0xD || n == 0x20 || n == 0x85 || n == 0xA0 || n == 0x1680
    || 0x2000 <= n <= 0x200A || n == 0x2028 || n == 0x2029 || n == 0x202F || n == 0x205F || n == 0x3000
  }

  function TrimStart(s: string): string {
    if s != "" && IsSpace(s[0]) then TrimStart(s[1..]) else s
  }

  function TrimEnd(s: string): string {
    if s != "" && IsSpace(s[|s| - 1]) then TrimEnd(s[..|s| - 1]) else s
  }

  function Trim(s: string): string { TrimEnd(TrimStart(s)) }

  predicate AllSpace(s: string) { forall i | 0 <= i < |s| :: IsSpace(s[i]) }

  predicate Bare(s: string) { s == "" || (!IsSpace(s[0]) && !IsSpace(s[|s| - 1])) }

  lemma {:induction false} TrimStartSplit(s: string) returns (n: nat)
    ensures n <= |s| && AllSpace(s[..n]) && TrimStart(s) == s[n..]
    ensures TrimStart(s) == "" || !IsSpace(TrimStart(s)[0])
  {
    hide IsSpace;
    if s != "" && IsSpace(s[0]) {
      n := TrimStartSplit(s[1..]);
      assert s[1..][n..] == s[n + 1..];
      assert forall i | 1 <= i < n + 1 :: s[i] == s[1..][..n][i - 1];
      n := n + 1;
    } else {
      n := 0;
    }
  }

  lemma {:induction false} TrimEndSplit(s: string) returns (n: nat)
    ensures n <= |s| && AllSpace(s[n..]) && TrimEnd(s) == s[..n]
    ensures n == 0 || !IsSpace(s[n - 1])
  {
    hide IsSpace;
    if s != "" && IsSpace(s[|s| - 1]) {
      n := TrimEndSplit(s[..|s| - 1]);
      assert s[..|s| - 1][..n] == s[..n];
      assert forall i | n <= i < |s| - 1 :: s[i] == s[..|s| - 1][n..][i - n];
    } else {
      n := |s|;
    }
  }

  /** Trim takes off the longest run of space at either end. */
  lemma TrimSplit(s: string) returns (a: nat, b: nat)
    ensures a <= b <= |s| && Trim(s) == s[a..b]
    ensures AllSpace(s[..a]) && AllSpace(s[b..]) && Bare(Trim(s))
  {
    a := TrimStartSplit(s);
    var n := TrimEndSplit(s[a..]);
    b := a + n;
    assert s[a..][..n] == s[a..b];
    assert s[a..][n..] == s[b..];
  }

  lemma {:induction false} TrimStartOver(u: string, s: string)
    requires AllSpace(u) && (s == "" || !IsSpace(s[0]))
    ensures TrimStart(u + s) == s
  {
    hide IsSpace;
    if u == "" {
      assert u + s == s;
    } else {
      assert (u + s)[1..] == u[1..] + s;
      TrimStartOver(u[1..], s);
    }
  }

  lemma {:induction false} TrimEndOver(s: string, v: string)
    requires AllSpace(v) && (s == "" || !IsSpace(s[|s| - 1]))
    ensures TrimEnd(s + v) == s
  {
    hide IsSpace;
    if v == "" {
      assert s + v == s;
    } else {
      assert (s + v)[..|s + v| - 1] == s + v[..|v| - 1];
      TrimEndOver(s, v[..|v| - 1]);
    }
  }

  /** White space around a bare text is what trim takes off. */
  lemma TrimOf(u: string, s: string, v: string)
    requires AllSpace(u) && AllSpace(v) && Bare(s)
    ensures Trim(u + s + v) == s
  {
    if s == "" {
      assert AllSpace(u + v) && u + s + v == (u + v) + "";
      TrimStartOver(u + v, "");
    } else {
      assert u + s + v == u + (s + v);
      TrimStartOver(u, s + v);
      TrimEndOver(s, v);
    }
  }

  /** The white space of Unicode. */
  lemma SpacesAre(c: char)
    ensures IsSpace(c) <==>
            c in {'\t', '\n', '\U{B}', '\U{C}', '\r', ' ', '\U{85}', '\U{A0}', '\U{1680}', '\U{2000}', '\U{2001}',
                  '\U{2002}', '\U{2003}', '\U{2004}', '\U{2005}', '\U{2006}', '\U{2007}', '\U{2008}', '\U{2009}',
                  '\U{200A}', '\U{2028}', '\U{2029}', '\U{202F}', '\U{205F}', '\U{3000}'}
  {}
}
