/** pkg/agent/context_budget.go and forceCompression of pkg/agent/loop.go: where a history may be cut,
    and what emergency compression keeps. */
module Compression {
  import opened Json
  import opened History

  // ----- Turn boundaries -----

  /** The positions of the user messages, in order. */
  ghost predicate Boundaries(h: seq<Msg>, starts: seq<nat>) {
    && (forall i, j | 0 <= i < j < |starts| :: starts[i] < starts[j])
    && (forall i | 0 <= i < |starts| :: starts[i] < |h| && h[starts[i]].role.User?)
    && (forall k: nat | k < |h| && h[k].role.User? :: k in starts)
  }

  method ParseTurnBoundaries(history: seq<Msg>) returns (starts: seq<nat>)
    ensures Boundaries(history, starts)
  {
    starts := [];
    for i := 0 to |history|
      invariant forall x, y | 0 <= x < y < |starts| :: starts[x] < starts[y]
      invariant forall x | 0 <= x < |starts| :: starts[x] < i && history[starts[x]].role.User?
      invariant forall k: nat | k < i && history[k].role.User? :: k in starts
    {
      if history[i].role.User? {
        starts := starts + [i];
      }
    }
  }

  lemma BoundariesUnique(h: seq<Msg>, a: seq<nat>, b: seq<nat>)
    requires Boundaries(h, a) && Boundaries(h, b)
    ensures a == b
  {
    SameIncreasing(a, b);
  }

  lemma {:induction false} SameIncreasing(a: seq<nat>, b: seq<nat>)
    requires forall i, j | 0 <= i < j < |a| :: a[i] < a[j]
    requires forall i, j | 0 <= i < j < |b| :: b[i] < b[j]
    requires forall k :: k in a <==> k in b
    ensures a == b
    decreases |a|
  {
    assert (a != [] ==> a[0] in b) && (b != [] ==> b[0] in a);
    if a != [] {
      assert a[0] in b && b[0] in a;
      assert a[0] == b[0];
      assert a == [a[0]] + a[1..] && b == [b[0]] + b[1..];
      forall k ensures k in a[1..] <==> k in b[1..] {
        assert k in a[1..] <==> k in a && k != a[0];
        assert k in b[1..] <==> k in b && k != b[0];
      }
      SameIncreasing(a[1..], b[1..]);
    }
  }

  /** The kept part begins at a user message. */
  predicate IsSafeBoundary(h: seq<Msg>, index: int) {
    index <= 0 || index >= |h| || h[index].role.User?
  }

  /** No user message strictly between. */
  predicate NoUserIn(h: seq<Msg>, from: int, to: int) {
    forall k: nat | from <= k < to && k < |h| :: !h[k].role.User?
  }

  /** The boundary nearest to the target: the last one at or before it, else the first one after it;
      index 0 only when there is nothing else, and the target itself when there is no user message. */
  method FindSafeBoundary(history: seq<Msg>, targetIndex: int) returns (r: int)
    ensures 0 <= r <= |history|
    ensures targetIndex <= 0 ==> r == 0
    ensures targetIndex >= |history| ==> r == |history|
    ensures 0 < targetIndex < |history| && NoUserIn(history, 0, |history|) ==> r == targetIndex
    ensures 0 < targetIndex < |history| && !NoUserIn(history, 0, |history|) ==>
              IsSafeBoundary(history, r)
              && (0 < r <= targetIndex ==> history[r].role.User? && NoUserIn(history, r + 1, targetIndex + 1))
              && (r > targetIndex ==> r < |history| && history[r].role.User? && NoUserIn(history, 1, r))
              && (r == 0 ==> history[0].role.User? && NoUserIn(history, 1, |history|))
  {
    if |history| == 0 {
      return 0;
    }
    if targetIndex <= 0 {
      return 0;
    }
    if targetIndex >= |history| {
      return |history|;
    }
    var turns := ParseTurnBoundaries(history);
    if |turns| == 0 {
      return targetIndex;
    }
    var backward := -1;
    for i := 0 to |turns|
      invariant backward == -1 ==> forall x | 0 <= x < i :: turns[x] > targetIndex
      invariant backward != -1 ==> 0 <= backward <= targetIndex && backward in turns
                                   && forall x | 0 <= x < i :: turns[x] <= backward || turns[x] > targetIndex
    {
      if turns[i] <= targetIndex {
        backward := turns[i];
      }
    }
    assert !NoUserIn(history, 0, |history|) by { assert history[turns[0]].role.User?; }
    if backward > 0 {
      return backward;
    }
    for i := 0 to |turns|
      invariant forall x | 0 <= x < i :: turns[x] <= targetIndex
    {
      if turns[i] > targetIndex {
        return turns[i];
      }
    }
    assert turns[0] in turns;
    r := 0;
  }

  // ----- Token estimates -----

  /** utf8.RuneCountInString: an invalid byte counts as one rune. */
  function RuneCount(s: string): nat {
    if s == "" then 0 else 1 + RuneCount(s[if RuneSize(s) == 0 then 1 else RuneSize(s)..])
  }

  /** What the estimate reads beside the modelled fields: the runes of the reasoning text, the bytes of
      the type names of the calls, and the number of media items. */
  datatype Extra = Extra(reasoning: nat, types: nat, media: nat)

  const MESSAGE_OVERHEAD := 12

  const MEDIA_TOKENS := 256

  function CallChars(calls: seq<Call>): nat {
    if calls == [] then 0 else |calls[0].id| + |calls[0].name| + |calls[0].args| + CallChars(calls[1..])
  }

  function EstimateMessageTokens(m: Msg, extra: Msg -> Extra): nat {
    var chars := RuneCount(m.content) + extra(m).reasoning + CallChars(m.calls) + extra(m).types + |m.resultId| + MESSAGE_OVERHEAD;
    chars * 2 / 5 + extra(m).media * MEDIA_TOKENS
  }

  function Tokens(ms: seq<Msg>, extra: Msg -> Extra): nat {
    if ms == [] then 0 else EstimateMessageTokens(ms[0], extra) + Tokens(ms[1..], extra)
  }

  /** isOverContextBudget; the tokens of the tool definitions are an input. */
  method IsOverContextBudget(contextWindow: int, messages: seq<Msg>, toolTokens: nat, maxTokens: int, extra: Msg -> Extra)
    returns (over: bool)
    ensures over <==> Tokens(messages, extra) + toolTokens + maxTokens > contextWindow
  {
    hide EstimateMessageTokens;
    var msgTokens := 0;
    assert messages[0..] == messages;
    for i := 0 to |messages|
      invariant msgTokens + Tokens(messages[i..], extra) == Tokens(messages, extra)
    {
      assert messages[i..][0] == messages[i] && messages[i..][1..] == messages[i + 1..];
      msgTokens := msgTokens + EstimateMessageTokens(messages[i], extra);
    }
    over := msgTokens + toolTokens + maxTokens > contextWindow;
  }

  lemma {:induction false} TokensConcat(a: seq<Msg>, b: seq<Msg>, extra: Msg -> Extra)
    ensures Tokens(a + b, extra) == Tokens(a, extra) + Tokens(b, extra)
    decreases |a|
  {
    hide EstimateMessageTokens;
    if a == [] {
      assert a + b == b;
    } else {
      assert (a + b)[0] == a[0] && (a + b)[1..] == a[1..] + b;
      TokensConcat(a[1..], b, extra);
    }
  }

  lemma {:induction false} AsciiRunes(s: string)
    requires forall c | c in s :: c < '\U{80}'
    ensures RuneCount(s) == |s|
    decreases |s|
  {
    if s != "" {
      assert s[0] in s && forall c | c in s[1..] :: c in s;
      AsciiRunes(s[1..]);
    }
  }

  /** Two tokens for five characters, with twelve characters for the message itself. */
  lemma AsciiTokens(m: Msg, extra: Msg -> Extra)
    requires (forall c | c in m.content :: c < '\U{80}') && m.calls == [] && m.resultId == "" && extra(m) == Extra(0, 0, 0)
    ensures 5 * EstimateMessageTokens(m, extra) <= 2 * (|m.content| + 12) < 5 * EstimateMessageTokens(m, extra) + 5
  {
    hide RuneCount;
    AsciiRunes(m.content);
  }

  // ----- forceCompression -----

  /** What compression keeps of a history of more than two messages. */
  ghost predicate Keeps(h: seq<Msg>, kept: seq<Msg>) {
    exists starts: seq<nat> :: Boundaries(h, starts) && KeepsAt(h, starts, kept)
  }

  ghost predicate KeepsAt(h: seq<Msg>, starts: seq<nat>, kept: seq<Msg>)
    requires Boundaries(h, starts)
  {
    if |starts| >= 2 then kept == h[starts[|starts| / 2]..]
    else if |starts| == 0 then kept == h[|h| / 2..]
    else if starts[0] == 0 then kept == [h[0]]
    else kept == h[starts[0]..]
  }

  class Session {
    var history: seq<Msg>
    var summary: string

    constructor (history: seq<Msg>, summary: string)
      ensures this.history == history && this.summary == summary
    {
      this.history, this.summary := history, summary;
    }

    /** forceCompression; note stands for the text recorded in the summary. */
    method ForceCompression(note: nat -> string) returns (dropped: nat, remaining: nat, done: bool)
      modifies this
      ensures done <==> |old(history)| > 2
      ensures !done ==> history == old(history) && summary == old(summary)
      ensures done ==> Keeps(old(history), history) && dropped + remaining == |old(history)| && remaining == |history|
      ensures done ==> summary == if old(summary) == "" then note(dropped) else old(summary) + "\n\n" + note(dropped)
    {
      dropped, remaining := 0, 0;
      if |history| <= 2 {
        return 0, 0, false;
      }
      var h := history;
      var turns := ParseTurnBoundaries(h);
      var mid: int;
      if |turns| >= 2 {
        mid := turns[|turns| / 2];
        assert turns[0] < turns[|turns| / 2];
      } else {
        mid := FindSafeBoundary(h, |h| / 2);
      }
      var kept: seq<Msg> := [];
      if mid <= 0 {
        var i := |h| - 1;
        while i >= 0
          invariant -1 <= i < |h| && NoUserIn(h, i + 1, |h|)
        {
          if h[i].role.User? {
            kept := [h[i]];
            break;
          }
          i := i - 1;
        }
        assert i in turns;
      } else {
        kept := h[mid..];
      }
      assert KeepsAt(h, turns, kept);
      dropped := |h| - |kept|;
      summary := if summary == "" then note(dropped) else summary + "\n\n" + note(dropped);
      history := kept;
      remaining := |kept|;
      done := true;
    }
  }

  // ----- What compression guarantees -----

  /** Something goes and something stays, so compressing again and again ends; and the estimate of what
      stays never exceeds that of what was there. */
  lemma CompressionShrinks(h: seq<Msg>, kept: seq<Msg>, extra: Msg -> Extra)
    requires |h| > 2 && Keeps(h, kept)
    ensures 1 <= |kept| < |h|
    ensures Tokens(kept, extra) <= Tokens(h, extra)
  {
    hide Tokens, Keeps;
    KeptPart(h, kept);
    SuffixTokens(h, |h| - |kept|, extra);
    FirstTokens(h, extra);
  }

  lemma KeptPart(h: seq<Msg>, kept: seq<Msg>)
    requires |h| > 2 && Keeps(h, kept)
    ensures 1 <= |kept| < |h| && (kept == [h[0]] || kept == h[|h| - |kept|..])
  {
    hide KeepsAt;
    var starts: seq<nat> :| Boundaries(h, starts) && KeepsAt(h, starts, kept);
    KeptPartAt(h, starts, kept);
  }

  lemma KeptPartAt(h: seq<Msg>, starts: seq<nat>, kept: seq<Msg>)
    requires |h| > 2 && Boundaries(h, starts) && KeepsAt(h, starts, kept)
    ensures 1 <= |kept| < |h| && (kept == [h[0]] || kept == h[|h| - |kept|..])
  {
    if |starts| != 1 || starts[0] != 0 {
      assert |starts| >= 2 ==> starts[0] < starts[|starts| / 2];
      var cut := if |starts| >= 2 then starts[|starts| / 2] else if |starts| == 0 then |h| / 2 else starts[0];
      assert 0 < cut < |h| && kept == h[cut..];
    }
  }

  lemma SuffixTokens(h: seq<Msg>, mid: nat, extra: Msg -> Extra)
    requires mid <= |h|
    ensures Tokens(h[mid..], extra) <= Tokens(h, extra)
  {
    hide Tokens;
    TokensConcat(h[..mid], h[mid..], extra);
    assert h[..mid] + h[mid..] == h;
  }

  lemma FirstTokens(h: seq<Msg>, extra: Msg -> Extra)
    ensures h != [] ==> Tokens([h[0]], extra) <= Tokens(h, extra)
  {
    hide Tokens;
    if h != [] {
      TokensConcat([h[0]], h[1..], extra);
      assert [h[0]] + h[1..] == h;
    }
  }

  ghost function UserCount(h: seq<Msg>): nat {
    if h == [] then 0 else UserCount(h[..|h| - 1]) + if h[|h| - 1].role.User? then 1 else 0
  }

  /** The boundaries without the last message. */
  lemma BoundariesFront(h: seq<Msg>, starts: seq<nat>)
    requires Boundaries(h, starts) && h != []
    ensures var n := |h| - 1;
            if h[n].role.User? then starts != [] && Boundaries(h[..n], starts[..|starts| - 1]) else Boundaries(h[..n], starts)
  {
    var n, last := |h| - 1, |starts| - 1;
    if h[n].role.User? {
      assert n in starts;
      assert starts[last] == n;
      forall k: nat | k < n && h[..n][k].role.User? ensures k in starts[..last] {
        assert h[k].role.User?;
        var x :| 0 <= x < |starts| && starts[x] == k;
        assert starts[..last][x] == k;
      }
    } else {
      assert forall i | 0 <= i < |starts| :: starts[i] != n;
    }
  }

  lemma {:induction false} CountBoundaries(h: seq<Msg>, starts: seq<nat>)
    requires Boundaries(h, starts)
    ensures UserCount(h) == |starts|
    decreases |h|
  {
    hide Boundaries;
    NoBoundaries(h, starts);
    if h != [] {
      var n := |h| - 1;
      BoundariesFront(h, starts);
      CountBoundaries(h[..n], if h[n].role.User? then starts[..|starts| - 1] else starts);
    }
  }

  lemma NoBoundaries(h: seq<Msg>, starts: seq<nat>)
    requires Boundaries(h, starts)
    ensures h == [] ==> starts == []
  {
    assert starts != [] ==> starts[0] < |h|;
  }

  /** A tool message of the kept part belongs to a call that is no longer there. */
  ghost predicate Tears(h: seq<Msg>, mid: nat) {
    exists i: nat, j: nat :: i < mid <= j < |h| && !h[i].role.Tool? && InRunOf(h, i, j)
  }

  lemma CutAtUser(h: seq<Msg>, mid: nat)
    requires mid < |h| && h[mid].role.User?
    ensures !Tears(h, mid)
  {
  }

  /** The starts from the k-th on, counted from that one. */
  ghost predicate Shifted(starts: seq<nat>, k: nat, rest: seq<nat>) {
    k < |starts| && |rest| == |starts| - k && forall i | 0 <= i < |rest| :: rest[i] + starts[k] == starts[k + i]
  }

  /** The boundaries of a suffix that starts at a boundary. */
  lemma SuffixBoundaries(h: seq<Msg>, starts: seq<nat>, k: nat, rest: seq<nat>)
    requires k < |starts| && Boundaries(h, starts) && Shifted(starts, k, rest)
    ensures Boundaries(h[starts[k]..], rest)
  {
    hide Shifted;
    var t := h[starts[k]..];
    forall p: nat | p < |t| && t[p].role.User? ensures p in rest {
      StartMember(h, starts, k, rest, p);
    }
    forall i | 0 <= i < |rest| ensures rest[i] < |t| && t[rest[i]].role.User? {
      StartAt(starts, k, rest, i);
    }
    forall i, j | 0 <= i < j < |rest| ensures rest[i] < rest[j] {
      StartAt(starts, k, rest, i);
      StartAt(starts, k, rest, j);
    }
  }

  lemma StartAt(starts: seq<nat>, k: nat, rest: seq<nat>, i: nat)
    requires Shifted(starts, k, rest) && i < |rest|
    ensures k + i < |starts| && rest[i] + starts[k] == starts[k + i]
  {
  }

  lemma StartMember(h: seq<Msg>, starts: seq<nat>, k: nat, rest: seq<nat>, p: nat)
    requires Boundaries(h, starts) && Shifted(starts, k, rest) && starts[k] + p < |h| && h[starts[k] + p].role.User?
    ensures p in rest
  {
    var q: nat := starts[k] + p;
    assert q in starts;
    var x :| 0 <= x < |starts| && starts[x] == q;
    StartAt(starts, k, rest, x - k);
  }

  lemma SuffixCount(h: seq<Msg>, starts: seq<nat>, k: nat)
    requires Boundaries(h, starts) && k < |starts|
    ensures UserCount(h[starts[k]..]) == |starts| - k
  {
    hide UserCount;
    assert forall i | k <= i < |starts| :: starts[k] <= starts[i];
    var rest: seq<nat> := seq(|starts| - k, i requires 0 <= i < |starts| - k => starts[k + i] - starts[k] as nat);
    SuffixBoundaries(h, starts, k, rest);
    CountBoundaries(h[starts[k]..], rest);
  }

  /** With two or more turns: a suffix that starts at a user message, holds the newer half of the turns (the larger one),
      and tears no tool run from its call. */
  lemma CompressionKeepsTurns(h: seq<Msg>, kept: seq<Msg>)
    requires Keeps(h, kept) && UserCount(h) >= 2
    ensures 0 < |h| - |kept| && kept == h[|h| - |kept|..] && kept[0].role.User?
    ensures UserCount(kept) == UserCount(h) - UserCount(h) / 2
    ensures !Tears(h, |h| - |kept|)
  {
    hide UserCount, Tears;
    var starts: seq<nat> :| Boundaries(h, starts) && KeepsAt(h, starts, kept);
    CountBoundaries(h, starts);
    var k := |starts| / 2;
    assert starts[0] < starts[k];
    SuffixCount(h, starts, k);
    CutAtUser(h, starts[k]);
  }

  /** With fewer turns the cut is safe exactly where it can be: it tears a run only when there is no
      user message at all and the midpoint falls into a run; and it keeps no suffix only when the one
      user message is the first. */
  lemma CompressionOtherwise(h: seq<Msg>, kept: seq<Msg>)
    requires |h| > 2 && Keeps(h, kept) && UserCount(h) < 2
    ensures UserCount(h) == 1 && h[0].role.User? <==> kept == [h[0]] && h[0].role.User?
    ensures !(UserCount(h) == 1 && h[0].role.User?) ==>
              kept == h[|h| - |kept|..] && 0 < |h| - |kept|
              && (Tears(h, |h| - |kept|) ==> UserCount(h) == 0 && h[|h| / 2].role.Tool?)
              && (UserCount(h) == 1 ==> kept[0].role.User?)
              && (UserCount(h) == 0 ==> kept == h[|h| / 2..])
  {
    hide Tears, UserCount;
    var starts: seq<nat> :| Boundaries(h, starts) && KeepsAt(h, starts, kept);
    CountBoundaries(h, starts);
    assert h[0].role.User? ==> 0 in starts;
    if |starts| == 0 {
      TearsAtTool(h, |h| / 2);
    } else if starts[0] != 0 {
      CutAtUser(h, starts[0]);
    }
  }

  lemma TearsAtTool(h: seq<Msg>, mid: nat)
    ensures Tears(h, mid) ==> h[mid].role.Tool?
  {
  }

  /** The history decides what compression keeps. */
  lemma KeepsUnique(h: seq<Msg>, a: seq<Msg>, b: seq<Msg>)
    requires Keeps(h, a) && Keeps(h, b)
    ensures a == b
  {
    hide Boundaries;
    var s: seq<nat> :| Boundaries(h, s) && KeepsAt(h, s, a);
    var t: seq<nat> :| Boundaries(h, t) && KeepsAt(h, t, b);
    BoundariesUnique(h, s, t);
  }
}
