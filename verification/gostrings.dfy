/** The parts of Go's strings package the modelled code relies on, on byte strings. */
module GoStrings {

  /** The UTF-8 encodings of the runes unicode.IsSpace accepts. */
  const SPACES: seq<string> := [
    " ", "\t", "\n", "\U{B}", "\U{C}", "\r", "\U{C2}\U{85}", "\U{C2}\U{A0}", "\U{E1}\U{9A}\U{80}",
    "\U{E2}\U{80}\U{80}", "\U{E2}\U{80}\U{81}", "\U{E2}\U{80}\U{82}", "\U{E2}\U{80}\U{83}", "\U{E2}\U{80}\U{84}",
    "\U{E2}\U{80}\U{85}", "\U{E2}\U{80}\U{86}", "\U{E2}\U{80}\U{87}", "\U{E2}\U{80}\U{88}", "\U{E2}\U{80}\U{89}",
    "\U{E2}\U{80}\U{8A}", "\U{E2}\U{80}\U{A8}", "\U{E2}\U{80}\U{A9}", "\U{E2}\U{80}\U{AF}", "\U{E2}\U{81}\U{9F}",
    "\U{E3}\U{80}\U{80}"]

  predicate HasSuffix(s: string, p: string) {
    |p| <= |s| && s[|s| - |p|..] == p
  }

  /** Length of the white-space rune at the front of s, 0 if there is none. */
  function LeadingSpace(s: string, from: nat := 0): (n: nat)
    ensures n <= |s|
    decreases |SPACES| - from
  {
    if from >= |SPACES| then 0
    else if SPACES[from] <= s then |SPACES[from]|
    else LeadingSpace(s, from + 1)
  }

  function TrailingSpace(s: string, from: nat := 0): (n: nat)
    ensures n <= |s|
    decreases |SPACES| - from
  {
    if from >= |SPACES| then 0
    else if HasSuffix(s, SPACES[from]) then |SPACES[from]|
    else TrailingSpace(s, from + 1)
  }

  function TrimLeft(s: string): (r: string)
    ensures |r| <= |s|
    decreases |s|
  {
    var n := LeadingSpace(s);
    if n == 0 then s else TrimLeft(s[n..])
  }

  function TrimRight(s: string): (r: string)
    ensures |r| <= |s|
    decreases |s|
  {
    var n := TrailingSpace(s);
    if n == 0 then s else TrimRight(s[..|s| - n])
  }

  function TrimSpace(s: string): string {
    TrimRight(TrimLeft(s))
  }

  lemma TrimEmpty()
    ensures TrimSpace("") == ""
  {
  }

  /** A text TrimSpace leaves alone. */
  predicate Trimmed(s: string) {
    LeadingSpace(s) == 0 && TrailingSpace(s) == 0
  }

  lemma {:induction false} TrimRightFront(s: string)
    ensures TrimRight(s) <= s && TrailingSpace(TrimRight(s)) == 0
    decreases |s|
  {
    hide TrailingSpace;
    var n := TrailingSpace(s);
    if n != 0 { TrimRightFront(s[..|s| - n]); }
  }

  lemma {:induction false} TrimLeftBack(s: string)
    ensures HasSuffix(s, TrimLeft(s)) && LeadingSpace(TrimLeft(s)) == 0
    decreases |s|
  {
    hide LeadingSpace;
    var n := LeadingSpace(s);
    if n != 0 {
      TrimLeftBack(s[n..]);
      var t := TrimLeft(s[n..]);
      assert s[|s| - |t|..] == s[n..][|s[n..]| - |t|..];
    }
  }

  /** sub stands in s at position k. */
  predicate Occurs(s: string, sub: string, k: int) {
    0 <= k <= |s| - |sub| && s[k..k + |sub|] == sub
  }

  /** strings.Index: the first place where sub starts in s, or -1. */
  function Index(s: string, sub: string): (r: int)
    ensures -1 <= r <= |s|
    ensures r >= 0 ==> Occurs(s, sub, r)
    ensures forall k | Occurs(s, sub, k) :: 0 <= r <= k
    decreases |s|
  {
    if sub <= s then 0
    else if s == "" then -1
    else
      var r := Index(s[1..], sub);
      OccursTail(s, sub);
      if r < 0 then -1 else r + 1
  }

  lemma OccursTail(s: string, sub: string)
    requires s != ""
    ensures Occurs(s, sub, 0) <==> sub <= s
    ensures forall k | k >= 1 :: Occurs(s, sub, k) <==> Occurs(s[1..], sub, k - 1)
    ensures forall k :: Occurs(s[1..], sub, k) ==> Occurs(s, sub, k + 1)
  {
    forall k | k >= 1 ensures Occurs(s, sub, k) <==> Occurs(s[1..], sub, k - 1) {
      OccursShift(s, sub, k);
    }
    forall k ensures Occurs(s[1..], sub, k) ==> Occurs(s, sub, k + 1) {
      if k >= 0 { OccursShift(s, sub, k + 1); }
    }
  }

  lemma OccursShift(s: string, sub: string, k: nat)
    requires s != "" && k >= 1
    ensures Occurs(s, sub, k) <==> Occurs(s[1..], sub, k - 1)
  {
    if k <= |s| - |sub| { SliceOfTail(s, k, k + |sub|); }
  }

  lemma SliceOfTail<T>(s: seq<T>, i: nat, j: nat)
    requires 0 < i <= j <= |s|
    ensures s[i..j] == s[1..][i - 1..j - 1]
  {
    var tail := s[1..];
    assert |s[i..j]| == |tail[i - 1..j - 1]|;
    assert forall x | 0 <= x < j - i :: s[i..j][x] == tail[i - 1..j - 1][x];
  }
}
