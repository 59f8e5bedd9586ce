/** find_key of os/init/touchlab.c: the first occurrence of a key at the start of a token, found by
    searching on a whole key length after every hit in mid-token. */
module FindKey {
  import opened Common

  // The bytes that end a token.
  predicate Gap(c: char) { c == ' ' || c == '\n' || c == '\t' || c == '\r' }

  predicate OccursAt(buf: string, key: string, p: nat) { p + |key| <= |buf| && buf[p..p + |key|] == key }

  predicate TokenStart(buf: string, p: nat)
    requires p <= |buf|
  {
    p == 0 || Gap(buf[p - 1])
  }

  /** A token starts at the start of the buffer and behind a blank, a newline, a tab or a carriage return. */
  lemma TokenStarts(u: string, c: char, v: string)
    ensures TokenStart(v, 0)
    ensures TokenStart(u + [c] + v, |u| + 1) <==> c in {' ', '\n', '\t', '\r'}
  {}

  ghost predicate Hit(buf: string, key: string, p: nat) { OccursAt(buf, key, p) && TokenStart(buf, p) }

  /** What find_key is for: just past the first hit, or nothing when there is none. */
  ghost predicate Found(buf: string, key: string, r: Option<nat>) {
    match r
    case Some(e) => e >= |key| && Hit(buf, key, e - |key|) && forall q: nat | q < e - |key| :: !Hit(buf, key, q)
    case None => forall q: nat :: !Hit(buf, key, q)
  }

  // strstr from offset p on.
  function StrStr(buf: string, key: string, p: nat): (r: Option<nat>)
    ensures r.Some? ==> p <= r.value && OccursAt(buf, key, r.value)
    ensures r.Some? ==> forall q | p <= q < r.value :: !OccursAt(buf, key, q)
    ensures r == None ==> forall q: nat | p <= q :: !OccursAt(buf, key, q)
    decreases |buf| - p
  {
    if p + |key| > |buf| then None
    else if OccursAt(buf, key, p) then Some(p)
    else StrStr(buf, key, p + 1)
  }

  /** The search from p on: the first occurrence counts or is skipped as a whole. */
  function Search(buf: string, key: string, p: nat): Option<nat>
    requires key != ""
    decreases |buf| - p
  {
    match StrStr(buf, key, p)
    case None => None
    case Some(q) => if TokenStart(buf, q) then Some(q + |key|) else Search(buf, key, q + |key|)
  }

  /** Shifted by d the key overlaps itself, and the shifted copy starts a token inside the first one. */
  predicate BorderAt(key: string, d: nat) {
    0 < d < |key| && key[d..] == key[..|key| - d] && Gap(key[d - 1])
  }

  predicate SkipSafe(key: string) { forall d | 0 < d < |key| :: !BorderAt(key, d) }

  // Two occurrences closer than a key length make a border.
  lemma OverlapIsBorder(buf: string, key: string, p: nat, q: nat)
    requires OccursAt(buf, key, p) && Hit(buf, key, q) && p < q < p + |key|
    ensures BorderAt(key, q - p)
  {
    var d := q - p;
    assert buf[q - 1] == buf[p..p + |key|][d - 1] == key[d - 1];
    forall i | 0 <= i < |key| - d ensures key[d + i] == key[i] {
      assert buf[p..p + |key|][d + i] == buf[q..q + |key|][i];
    }
    assert key[d..] == key[..|key| - d];
  }

  lemma OccursInside(buf: string, key: string, q: nat)
    requires OccursAt(buf, key, q)
    ensures q + |key| <= |buf|
  {}

  lemma {:induction false} SearchFrom(buf: string, key: string, p: nat)
    requires key != "" && SkipSafe(key)
    requires forall q: nat | q < p :: !Hit(buf, key, q)
    ensures Found(buf, key, Search(buf, key, p))
    decreases |buf| - p
  {
    hide OccursAt, StrStr, BorderAt;
    match StrStr(buf, key, p)
    case None =>
    case Some(q) =>
      OccursInside(buf, key, q);
      if !TokenStart(buf, q) {
        forall k: nat | k < q + |key| ensures !Hit(buf, key, k) {
          if q < k && Hit(buf, key, k) {
            OverlapIsBorder(buf, key, q, k);
            assert false;
          }
        }
        SearchFrom(buf, key, q + |key|);
      }
  }

  lemma {:induction false} SearchGoesOn(buf: string, key: string, p: nat)
    requires key != ""
    ensures Search(buf, key, p).Some? ==> Search(buf, key, p).value >= p + |key|
    decreases |buf| - p
  {
    match StrStr(buf, key, p)
    case None =>
    case Some(q) =>
      if !TokenStart(buf, q) {
        SearchGoesOn(buf, key, q + |key|);
      }
  }

  // A buffer on which skipping jumps over the only hit.
  function Trap(key: string, d: nat): string
    requires 0 < d < |key|
  {
    [if key[0] == 'x' then 'y' else 'x'] + key[..d] + key
  }

  lemma TrapAt(key: string, d: nat)
    requires 0 < d < |key|
    ensures var buf := Trap(key, d);
            && |buf| == 1 + d + |key| && buf[0] != key[0] && !Gap(buf[0])
            && (forall i | 0 <= i < d :: buf[1 + i] == key[i])
            && (forall i | 0 <= i < |key| :: buf[1 + d + i] == key[i])
  {}

  // The key at the buffer's second letter,
  lemma TrapShape(key: string, d: nat)
    requires 0 < d < |key| && BorderAt(key, d)
    ensures var buf := Trap(key, d);
            OccursAt(buf, key, 1) && !TokenStart(buf, 1) && !OccursAt(buf, key, 0) && Hit(buf, key, 1 + d)
  {
    var buf, n := Trap(key, d), |key|;
    TrapAt(key, d);
    TrapHit(key, d);
    hide Trap, Hit;
    forall i | 0 <= i < n ensures buf[1 + i] == key[i] {
      if i >= d {
        assert key[d..][i - d] == key[..n - d][i - d];
        assert buf[1 + d + (i - d)] == key[i - d];
      }
    }
    assert buf[1..1 + n] == key;
    assert buf[..n][0] == buf[0];
  }

  // and again d further on.
  lemma TrapHit(key: string, d: nat)
    requires 0 < d < |key| && BorderAt(key, d)
    ensures Hit(Trap(key, d), key, 1 + d)
  {
    var buf, n := Trap(key, d), |key|;
    TrapAt(key, d);
    hide Trap;
    assert buf[1 + d..1 + d + n] == key;
    assert buf[1 + (d - 1)] == key[d - 1];
  }

  lemma TrapFools(key: string, d: nat)
    requires 0 < d < |key| && BorderAt(key, d)
    ensures !Found(Trap(key, d), key, Search(Trap(key, d), key, 0))
  {
    hide OccursAt, BorderAt, Trap, TokenStart;
    var buf, n := Trap(key, d), |key|;
    TrapShape(key, d);
    assert StrStr(buf, key, 0) == Some(1);
    assert Search(buf, key, 0) == Search(buf, key, 1 + n);
    SearchGoesOn(buf, key, 1 + n);
  }

  /** Skipping is right on every buffer exactly when the key has no border after a gap, */
  lemma SkippingIsSafeIff(key: string)
    requires key != ""
    ensures (forall buf: string :: Found(buf, key, Search(buf, key, 0))) <==> SkipSafe(key)
  {
    if SkipSafe(key) {
      forall buf: string ensures Found(buf, key, Search(buf, key, 0)) {
        SearchFrom(buf, key, 0);
      }
    } else {
      var d :| 0 < d < |key| && BorderAt(key, d);
      TrapFools(key, d);
    }
  }

  /** so it is for every key that touchlab looks for, none of which has a gap in it. */
  lemma TokensAreSkipSafe(key: string)
    requires forall i | 0 <= i < |key| :: !Gap(key[i])
    ensures SkipSafe(key)
  {}

  // Where the search stands at occurrence p.
  function SearchAt(buf: string, key: string, p: Option<nat>): Option<nat>
    requires key != "" && (p.Some? ==> p.value <= |buf|)
  {
    match p
    case None => None
    case Some(q) => if TokenStart(buf, q) then Some(q + |key|) else Search(buf, key, q + |key|)
  }

  /** The loop. An empty key is found at once. */
  method FindKey(buf: string, key: string) returns (r: Option<nat>)
    ensures if key == "" then r == Some(0) else r == Search(buf, key, 0)
    ensures key != "" && SkipSafe(key) ==> Found(buf, key, r)
  {
    hide OccursAt, StrStr, Found, SkipSafe;
    if key != "" && SkipSafe(key) { SearchFrom(buf, key, 0); }
    var p := StrStr(buf, key, 0);
    if p.Some? { OccursInside(buf, key, p.value); }
    assert key == "" ==> p == Some(0) by { EmptyKey(buf, key); }
    while p.Some?
      invariant p.Some? ==> p.value + |key| <= |buf|
      invariant key == "" ==> p == Some(0)
      invariant key != "" ==> Search(buf, key, 0) == SearchAt(buf, key, p)
      decreases if p.Some? then |buf| - p.value + 1 else 0
    {
      if TokenStart(buf, p.value) {
        return Some(p.value + |key|);
      }
      p := StrStr(buf, key, p.value + |key|);
      if p.Some? { OccursInside(buf, key, p.value); }
    }
    r := None;
  }

  lemma EmptyKey(buf: string, key: string)
    ensures key == "" ==> StrStr(buf, key, 0) == Some(0)
  {}
}
