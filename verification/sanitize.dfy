/** pkg/agent/context.go, sanitizeHistoryForProvider: its two passes as loops, what they keep, and
    exactly when the result is paired. */
module Sanitize {
  import opened History

  // ----- The first pass on blocks -----

  /** A calling assistant may follow this block. */
  predicate Seats(b: Block) {
    match b
    case Single(m) => m.role.User?
    case Turn(_, rs) => rs != []
  }

  /** What the first pass makes of one more message. */
  function Append(bs: seq<Block>, m: Msg): seq<Block> {
    var n := |bs|;
    if m.role.System? then bs
    else if m.role.Tool? then
      if n > 0 && bs[n - 1].Turn? then bs[..n - 1] + [Turn(bs[n - 1].call, bs[n - 1].results + [m])] else bs
    else if Calling(m) then
      if n > 0 && Seats(bs[n - 1]) then bs + [Turn(m, [])] else bs
    else bs + [Single(m)]
  }

  function Gather(h: seq<Msg>): seq<Block> {
    if h == [] then [] else Append(Gather(h[..|h| - 1]), h[|h| - 1])
  }

  predicate NoSystem(bs: seq<Block>) {
    forall b | b in bs && b.Single? :: !b.msg.role.System?
  }

  /** Every turn stands right after a user message or a tool run; p tells what stands before bs. */
  predicate SeatedAfter(p: bool, bs: seq<Block>)
    decreases |bs|
  {
    bs == [] || ((bs[0].Turn? ==> p) && SeatedAfter(Seats(bs[0]), bs[1..]))
  }

  predicate SeatsLast(p: bool, bs: seq<Block>) {
    if bs == [] then p else Seats(bs[|bs| - 1])
  }

  lemma {:induction false} SeatedSnoc(p: bool, bs: seq<Block>, b: Block)
    ensures SeatedAfter(p, bs + [b]) <==> SeatedAfter(p, bs) && (b.Turn? ==> SeatsLast(p, bs))
    decreases |bs|
  {
    if bs == [] {
      assert bs + [b] == [b] && [b][1..] == [];
    } else {
      assert (bs + [b])[0] == bs[0] && (bs + [b])[1..] == bs[1..] + [b];
      SeatedSnoc(Seats(bs[0]), bs[1..], b);
    }
  }

  predicate Good(bs: seq<Block>) {
    AllWellFormed(bs) && NoSystem(bs) && SeatedAfter(false, bs)
  }

  lemma GoodFront(bs: seq<Block>)
    requires Good(bs) && bs != []
    ensures Good(bs[..|bs| - 1]) && (bs[|bs| - 1].Turn? ==> SeatsLast(false, bs[..|bs| - 1]))
  {
    var n := |bs| - 1;
    hide WellFormed, Seats;
    assert bs == bs[..n] + [bs[n]];
    SeatedSnoc(false, bs[..n], bs[n]);
  }

  lemma GoodSnoc(bs: seq<Block>, b: Block)
    requires Good(bs) && WellFormed(b) && (b.Single? ==> !b.msg.role.System?) && (b.Turn? ==> SeatsLast(false, bs))
    ensures Good(bs + [b])
  {
    hide WellFormed, Seats;
    SeatedSnoc(false, bs, b);
  }

  lemma AppendGood(bs: seq<Block>, m: Msg)
    requires Good(bs)
    ensures Good(Append(bs, m))
  {
    hide Good;
    var n := |bs|;
    if m.role.Tool? && n > 0 && bs[n - 1].Turn? {
      GoodFront(bs);
      LastWellFormed(bs);
      GoodSnoc(bs[..n - 1], Turn(bs[n - 1].call, bs[n - 1].results + [m]));
    } else if Calling(m) && !m.role.System? && !m.role.Tool? {
      if n > 0 && Seats(bs[n - 1]) { GoodSnoc(bs, Turn(m, [])); }
    } else if !m.role.System? && !m.role.Tool? {
      GoodSnoc(bs, Single(m));
    }
  }

  lemma LastWellFormed(bs: seq<Block>)
    requires Good(bs) && bs != []
    ensures WellFormed(bs[|bs| - 1])
  {
  }

  lemma {:induction false} GatherGood(h: seq<Msg>)
    ensures Good(Gather(h))
    decreases |h|
  {
    hide Append;
    if h != [] {
      GatherGood(h[..|h| - 1]);
      AppendGood(Gather(h[..|h| - 1]), h[|h| - 1]);
    }
  }

  /** What the pass does to the flat list. */
  lemma AppendFlat(bs: seq<Block>, m: Msg)
    ensures Flatten(Append(bs, m)) == Flatten(bs) + if Append(bs, m) == bs then [] else [m]
  {
    hide Flatten;
    var n := |bs|;
    if !m.role.System? && m.role.Tool? && n > 0 && bs[n - 1].Turn? {
      var last := bs[n - 1];
      FlattenSnoc(bs[..n - 1], last);
      FlattenSnoc(bs[..n - 1], Turn(last.call, last.results + [m]));
      assert bs == bs[..n - 1] + [last];
      assert Append(bs, m)[n - 1] != last;
    } else if Append(bs, m) != bs {
      FlattenSnoc(bs, Append(bs, m)[n]);
      assert Append(bs, m) == bs + [Append(bs, m)[n]];
      assert [m] + [] == [m];
    } else {
      assert Flatten(bs) + [] == Flatten(bs);
    }
  }

  // ----- The first pass as a loop -----

  /** The nearest message from the end that is no tool message is a calling assistant. */
  predicate NearestCalls(s: seq<Msg>) {
    s != [] && (if s[|s| - 1].role.Tool? then NearestCalls(s[..|s| - 1]) else Calling(s[|s| - 1]))
  }

  /** The backward walk from a tool message. */
  method FindAssistant(s: seq<Msg>) returns (found: bool)
    ensures found <==> NearestCalls(s)
  {
    found := false;
    var i := |s| - 1;
    assert s[..|s|] == s;
    while i >= 0
      invariant -1 <= i < |s| && (NearestCalls(s) <==> NearestCalls(s[..i + 1]))
    {
      assert s[..i + 1][..i] == s[..i];
      if s[i].role.Tool? {
        i := i - 1;
        continue;
      }
      if s[i].role.Assistant? && |s[i].calls| > 0 {
        found := true;
      }
      break;
    }
  }

  lemma {:induction false} NearestSkips(front: seq<Msg>, rs: seq<Msg>)
    requires AllTools(rs)
    ensures NearestCalls(front + rs) <==> NearestCalls(front)
    decreases |rs|
  {
    var n := |rs| - 1;
    if rs == [] {
      assert front + rs == front;
    } else {
      assert (front + rs)[..|front| + n] == front + rs[..n] && (front + rs)[|front| + n] == rs[n];
      assert rs[n] in rs && forall m | m in rs[..n] :: m in rs;
      NearestSkips(front, rs[..n]);
    }
  }

  lemma NearestIsTurn(bs: seq<Block>)
    requires AllWellFormed(bs)
    ensures NearestCalls(Flatten(bs)) <==> bs != [] && bs[|bs| - 1].Turn?
    ensures bs == [] <==> Flatten(bs) == []
    ensures EndsSeat(Flatten(bs)) <==> bs != [] && Seats(bs[|bs| - 1])
  {
    hide Flatten, AllTools, NearestCalls;
    FlattenEmpty();
    NothingNearest();
    if bs != [] {
      var n := |bs| - 1;
      var front, b := Flatten(bs[..n]), bs[n];
      assert bs == bs[..n] + [b];
      FlattenSnoc(bs[..n], b);
      assert WellFormed(b);
      LastOfBlock(front, b);
    }
  }

  lemma NothingNearest()
    ensures !NearestCalls([])
  {
  }

  /** The last message is one a calling assistant may follow. */
  predicate EndsSeat(s: seq<Msg>) {
    s != [] && (s[|s| - 1].role.User? || s[|s| - 1].role.Tool?)
  }

  lemma LastOfBlock(front: seq<Msg>, b: Block)
    requires WellFormed(b)
    ensures NearestCalls(front + Unblock(b)) <==> b.Turn?
    ensures EndsSeat(front + Unblock(b)) <==> Seats(b)
  {
    hide NearestCalls, AllTools;
    var m := Unblock(b)[0];
    NearestOne(front, m);
    if b.Turn? {
      NearestSkips(front + [m], b.results);
      assert front + Unblock(b) == front + [m] + b.results;
      if b.results != [] { ToolAt(b.results, |b.results| - 1); }
    }
  }

  lemma NearestOne(front: seq<Msg>, m: Msg)
    ensures NearestCalls(front + [m]) <==> if m.role.Tool? then NearestCalls(front) else Calling(m)
  {
    assert (front + [m])[..|front|] == front;
  }

  method FirstPass(history: seq<Msg>) returns (sanitized: seq<Msg>)
    ensures sanitized == Flatten(Gather(history))
  {
    hide Flatten, Append, Good;
    sanitized := [];
    FlattenEmpty();
    assert history[..0] == [];
    for n := 0 to |history|
      invariant sanitized == Flatten(Gather(history[..n]))
    {
      var msg := history[n];
      ghost var bs := Gather(history[..n]);
      assert history[..n + 1][..n] == history[..n];
      assert Gather(history[..n + 1]) == Append(bs, msg);
      GatherGood(history[..n]);
      AppendFlat(bs, msg);
      Kept(bs, msg);
      match msg.role {
        case System =>
          continue;
        case Tool =>
          if |sanitized| == 0 {
            continue;
          }
          var foundAssistant := FindAssistant(sanitized);
          if !foundAssistant {
            continue;
          }
          sanitized := sanitized + [msg];
        case Assistant =>
          if |msg.calls| > 0 {
            if |sanitized| == 0 {
              continue;
            }
            var prev := sanitized[|sanitized| - 1];
            if !prev.role.User? && !prev.role.Tool? {
              continue;
            }
          }
          sanitized := sanitized + [msg];
        case _ =>
          sanitized := sanitized + [msg];
      }
    }
    assert history[..|history|] == history;
  }

  /** The pass's tests, on the flat list. */
  lemma Kept(bs: seq<Block>, m: Msg)
    requires Good(bs)
    ensures var s := Flatten(bs);
            Append(bs, m) != bs <==>
              !m.role.System?
              && (m.role.Tool? ==> s != [] && NearestCalls(s))
              && (Calling(m) ==> EndsSeat(s))
  {
    hide Flatten, Seats, AllTools, NearestCalls, EndsSeat;
    NearestIsTurn(bs);
    var n := |bs|;
    if m.role.Tool? && n > 0 && bs[n - 1].Turn? {
      assert |Append(bs, m)[n - 1].results| == |bs[n - 1].results| + 1;
    }
  }

  // ----- The second pass -----

  /** The second pass on the flat list, from the ids seen so far. */
  function Second(s: seq<Msg>, seen: set<string>): seq<Msg>
    decreases |s|
  {
    if s == [] then []
    else
      var m, run := s[0], RunLength(s[1..]);
      if m.role.Tool? && m.resultId != "" then
        if m.resultId in seen then Second(s[1..], seen) else [m] + Second(s[1..], seen + {m.resultId})
      else if Calling(m) && !Complete(m, s[1..][..run]) then Second(s[1..][run..], seen)
      else [m] + Second(s[1..], seen)
  }

  lemma RunStep(s: seq<Msg>, j: nat)
    requires j < |s|
    ensures RunLength(s[j..]) == if s[j].role.Tool? then 1 + RunLength(s[j + 1..]) else 0
    ensures RunLength(s[|s|..]) == 0
  {
    assert s[j..][0] == s[j] && s[j..][1..] == s[j + 1..];
  }

  /** The keys of the expected map are the ids of the calls, and the entries that are true are those
      answered so far. */
  ghost predicate Tallied(expected: map<string, bool>, calls: seq<Call>, rs: seq<Msg>) {
    && (forall id :: id in expected <==> exists x :: 0 <= x < |calls| && calls[x].id == id)
    && (forall id | id in expected :: expected[id] <==> id in Answers(rs))
  }

  method ExpectedIds(calls: seq<Call>) returns (expected: map<string, bool>)
    ensures Tallied(expected, calls, [])
  {
    expected := map[];
    for k := 0 to |calls|
      invariant forall id :: id in expected <==> exists x :: 0 <= x < k && calls[x].id == id
      invariant forall id | id in expected :: !expected[id]
    {
      expected := expected[calls[k].id := false];
    }
  }

  lemma TallyMore(expected: map<string, bool>, calls: seq<Call>, rs: seq<Msg>, r: Msg)
    requires Tallied(expected, calls, rs)
    ensures Tallied(if r.resultId in expected then expected[r.resultId := true] else expected, calls, rs + [r])
  {
    assert forall x :: x in rs + [r] <==> x in rs || x == r;
    assert Answers(rs + [r]) == Answers(rs) + {r.resultId};
  }

  /** The inner loops: the length of the run after message i, and whether it answers all its calls. */
  method CheckResults(s: seq<Msg>, i: nat) returns (allFound: bool, toolMsgCount: nat)
    requires i < |s|
    ensures toolMsgCount == RunLength(s[i + 1..])
    ensures allFound <==> Complete(s[i], s[i + 1..][..toolMsgCount])
  {
    hide RunLength, Tallied, Answers;
    var calls := s[i].calls;
    var expected := ExpectedIds(calls);
    toolMsgCount := 0;
    var j := i + 1;
    ghost var after := s[i + 1..];
    assert after[..0] == [];
    while j < |s| && s[j].role.Tool?
      invariant i + 1 <= j <= |s| && toolMsgCount == j - i - 1
      invariant RunLength(after) == toolMsgCount + RunLength(s[j..])
      invariant Tallied(expected, calls, after[..toolMsgCount])
    {
      RunStep(s, j);
      assert after[..toolMsgCount + 1] == after[..toolMsgCount] + [s[j]];
      TallyMore(expected, calls, after[..toolMsgCount], s[j]);
      toolMsgCount := toolMsgCount + 1;
      if s[j].resultId in expected {
        expected := expected[s[j].resultId := true];
      }
      j := j + 1;
    }
    RunStep(s, if j < |s| then j else i);
    allFound := true;
    TallyKnows(expected, calls, after[..toolMsgCount]);
    for k := 0 to |calls|
      invariant allFound <==> forall x | 0 <= x < k :: calls[x].id in Answers(after[..toolMsgCount])
    {
      if !expected[calls[k].id] {
        allFound := false;
      }
    }
  }

  lemma TallyKnows(expected: map<string, bool>, calls: seq<Call>, rs: seq<Msg>)
    requires Tallied(expected, calls, rs)
    ensures forall x | 0 <= x < |calls| :: calls[x].id in expected && (expected[calls[x].id] <==> calls[x].id in Answers(rs))
  {
  }

  method SecondPass(sanitized: seq<Msg>) returns (final: seq<Msg>)
    ensures final == Second(sanitized, {})
  {
    hide Complete, RunLength;
    final := [];
    var seen: set<string> := {};
    var i := 0;
    assert sanitized[0..] == sanitized;
    while i < |sanitized|
      invariant 0 <= i <= |sanitized|
      invariant final + Second(sanitized[i..], seen) == Second(sanitized, {})
    {
      var msg := sanitized[i];
      ghost var s := sanitized[i..];
      assert s[0] == msg && s[1..] == sanitized[i + 1..];
      if msg.role.Tool? && msg.resultId != "" {
        if msg.resultId in seen {
          i := i + 1;
          continue;
        }
        seen := seen + {msg.resultId};
      }
      if msg.role.Assistant? && |msg.calls| > 0 {
        var allFound, toolMsgCount := CheckResults(sanitized, i);
        if !allFound {
          assert s[1..][toolMsgCount..] == sanitized[i + 1 + toolMsgCount..];
          i := i + toolMsgCount + 1;
          continue;
        }
      }
      final := final + [msg];
      i := i + 1;
    }
    assert sanitized[i..] == [] && final + [] == final;
  }

  // ----- The second pass on blocks -----

  function Ids(rs: seq<Msg>): set<string> {
    Answers(rs) - {""}
  }

  function Dedup(rs: seq<Msg>, seen: set<string>): seq<Msg> {
    if rs == [] then []
    else if rs[0].resultId == "" then [rs[0]] + Dedup(rs[1..], seen)
    else if rs[0].resultId in seen then Dedup(rs[1..], seen)
    else [rs[0]] + Dedup(rs[1..], seen + {rs[0].resultId})
  }

  function Prune(bs: seq<Block>, seen: set<string>): seq<Block> {
    if bs == [] then []
    else match bs[0]
      case Single(m) => [bs[0]] + Prune(bs[1..], seen)
      case Turn(a, rs) =>
        if Complete(a, rs) then [Turn(a, Dedup(rs, seen))] + Prune(bs[1..], seen + Ids(rs))
        else Prune(bs[1..], seen)
  }

  lemma AnswersCons(rs: seq<Msg>)
    requires rs != []
    ensures Answers(rs) == {rs[0].resultId} + Answers(rs[1..])
  {
    assert forall r :: r in rs <==> r == rs[0] || r in rs[1..];
  }

  lemma SecondTool(m: Msg, rest: seq<Msg>, seen: set<string>)
    requires m.role.Tool?
    ensures Second([m] + rest, seen)
            == if m.resultId == "" then [m] + Second(rest, seen)
               else if m.resultId in seen then Second(rest, seen)
               else [m] + Second(rest, seen + {m.resultId})
  {
    assert ([m] + rest)[1..] == rest;
  }

  lemma IdsCons(rs: seq<Msg>, seen: set<string>)
    requires rs != []
    ensures rs[0].resultId == "" || rs[0].resultId in seen ==> seen + Ids(rs) == seen + Ids(rs[1..])
    ensures rs[0].resultId != "" ==> seen + Ids(rs) == seen + {rs[0].resultId} + Ids(rs[1..])
  {
    hide Answers;
    AnswersCons(rs);
  }

  lemma {:induction false} SecondRun(rs: seq<Msg>, rest: seq<Msg>, seen: set<string>)
    requires AllTools(rs)
    ensures Second(rs + rest, seen) == Dedup(rs, seen) + Second(rest, seen + Ids(rs))
    decreases |rs|
  {
    hide Second, Ids;
    if rs == [] {
      assert rs + rest == rest && [] + Second(rest, seen) == Second(rest, seen);
      NoIds(seen);
    } else {
      var r, more := rs[0], rs[1..];
      assert r in rs && forall m | m in more :: m in rs;
      assert rs + rest == [r] + (more + rest);
      SecondTool(r, more + rest, seen);
      IdsCons(rs, seen);
      var next := if r.resultId == "" || r.resultId in seen then seen else seen + {r.resultId};
      SecondRun(more, rest, next);
    }
  }

  lemma NoIds(seen: set<string>)
    ensures seen + Ids([]) == seen
  {
  }

  lemma SecondSingle(m: Msg, rest: seq<Msg>, seen: set<string>)
    requires !m.role.Tool? && !Calling(m)
    ensures Second([m] + rest, seen) == [m] + Second(rest, seen)
  {
    assert ([m] + rest)[1..] == rest;
  }

  lemma SecondTurn(a: Msg, rs: seq<Msg>, rest: seq<Msg>, seen: set<string>)
    requires Calling(a) && AllTools(rs) && (rest != [] ==> !rest[0].role.Tool?)
    ensures Second([a] + rs + rest, seen)
            == if Complete(a, rs) then [a] + Dedup(rs, seen) + Second(rest, seen + Ids(rs)) else Second(rest, seen)
  {
    hide RunLength, Complete, AllTools, Dedup, Ids;
    RunPrefix(rs, rest);
    TurnThen(a, rs, rest);
    assert (rs + rest)[..|rs|] == rs && (rs + rest)[|rs|..] == rest;
    SecondRun(rs, rest, seen);
  }

  lemma {:induction false} SecondPrunes(bs: seq<Block>, seen: set<string>)
    requires AllWellFormed(bs)
    ensures Second(Flatten(bs), seen) == Flatten(Prune(bs, seen))
    decreases |bs|
  {
    hide RunLength, Complete, AllTools, Dedup, Ids, Second, Flatten;
    if bs == [] {
      FlattenEmpty();
      SecondEmpty(seen);
    } else {
      assert bs[0] in bs && forall x | x in bs[1..] :: x in bs;
      assert WellFormed(bs[0]);
      FlattenCons(bs);
      HeadNotTool(bs[1..]);
      var rest := Flatten(bs[1..]);
      match bs[0] {
        case Single(m) =>
          SecondPrunes(bs[1..], seen);
          SecondSingle(m, rest, seen);
          FlattenPut(bs[0], Prune(bs[1..], seen));
        case Turn(a, rs) =>
          SecondTurn(a, rs, rest, seen);
          SecondPrunes(bs[1..], seen + Ids(rs));
          SecondPrunes(bs[1..], seen);
          FlattenPut(Turn(a, Dedup(rs, seen)), Prune(bs[1..], seen + Ids(rs)));
      }
    }
  }

  lemma SecondEmpty(seen: set<string>)
    ensures Second([], seen) == []
  {
  }

  lemma FlattenPut(b: Block, rest: seq<Block>)
    ensures Flatten([b] + rest) == Unblock(b) + Flatten(rest)
  {
    hide Flatten;
    FlattenCons([b] + rest);
    assert ([b] + rest)[1..] == rest;
  }

  // ----- The whole function -----

  function Blocks(h: seq<Msg>): seq<Block> {
    Prune(Gather(h), {})
  }

  function Sanitized(h: seq<Msg>): seq<Msg> {
    Flatten(Blocks(h))
  }

  method SanitizeHistoryForProvider(history: seq<Msg>) returns (final: seq<Msg>)
    ensures final == Sanitized(history)
  {
    hide Gather, Second, Flatten, Prune;
    if |history| == 0 {
      NothingSanitized();
      return history;
    }
    var sanitized := FirstPass(history);
    final := SecondPass(sanitized);
    GatherGood(history);
    SecondPrunes(Gather(history), {});
  }

  lemma NothingSanitized()
    ensures Sanitized([]) == []
  {
  }
}
