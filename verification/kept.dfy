/** What sanitising never takes away, and which histories it leaves as they are. */
module KeptHistory {
  import opened Json
  import opened History
  import opened Sanitize
  import opened SanitizedHistory
  import opened Hydrate
  import Repair

  // ----- What is never taken away -----

  /** Neither a system message, nor a result, nor a call. */
  predicate Plain(m: Msg) {
    !m.role.System? && !m.role.Tool? && !Calling(m)
  }

  function Plains(ms: seq<Msg>): seq<Msg> {
    if ms == [] then [] else Plains(ms[..|ms| - 1]) + if Plain(ms[|ms| - 1]) then [ms[|ms| - 1]] else []
  }

  lemma {:induction false} PlainsConcat(a: seq<Msg>, b: seq<Msg>)
    ensures Plains(a + b) == Plains(a) + Plains(b)
    decreases |b|
  {
    hide Plain;
    if b == [] {
      assert a + b == a;
    } else {
      var n := |b| - 1;
      PlainsConcat(a, b[..n]);
      assert (a + b)[..|a| + n] == a + b[..n] && (a + b)[|a| + n] == b[n];
    }
  }

  lemma {:induction false} GatherPlains(h: seq<Msg>)
    ensures Plains(Flatten(Gather(h))) == Plains(h)
    decreases |h|
  {
    hide Flatten, Append, Good, Plain, NearestCalls, EndsSeat;
    if h == [] {
      FlattenEmpty();
    } else {
      var n := |h| - 1;
      var bs, m := Gather(h[..n]), h[n];
      GatherPlains(h[..n]);
      GatherGood(h[..n]);
      AppendFlat(bs, m);
      Kept(bs, m);
      PlainKept(m);
      PlainsConcat(Flatten(bs), [m]);
      assert [m][..0] == [] && Flatten(bs) + [] == Flatten(bs);
    }
  }

  lemma PlainKept(m: Msg)
    ensures Plain(m) ==> !m.role.System? && !m.role.Tool? && !Calling(m)
    ensures m.role.System? || m.role.Tool? || Calling(m) ==> !Plain(m)
  {
  }

  lemma {:induction false} NoPlains(ms: seq<Msg>)
    requires forall m | m in ms :: !Plain(m)
    ensures Plains(ms) == []
    decreases |ms|
  {
    hide Plain;
    if ms != [] {
      assert ms[|ms| - 1] in ms && forall m | m in ms[..|ms| - 1] :: m in ms;
      NoPlains(ms[..|ms| - 1]);
    }
  }

  lemma TurnNotPlain(b: Block)
    requires WellFormed(b) && b.Turn?
    ensures Plains(Unblock(b)) == []
  {
    NoPlains(Unblock(b));
  }

  lemma {:induction false} PrunePlains(bs: seq<Block>, seen: set<string>)
    requires AllWellFormed(bs)
    ensures Plains(Flatten(Prune(bs, seen))) == Plains(Flatten(bs))
    decreases |bs|
  {
    hide Flatten, Complete, Dedup, Ids, AllTools, Plains, Plain, WellFormed;
    if bs != [] {
      var b, rest := bs[0], bs[1..];
      assert b in bs && forall x | x in rest :: x in bs;
      FlattenCons(bs);
      PlainsConcat(Unblock(b), Flatten(rest));
      PrunePlains(rest, if b.Turn? && Complete(b.call, b.results) then seen + Ids(b.results) else seen);
      match b {
        case Single(m) =>
          FlattenPut(b, Prune(rest, seen));
          PlainsConcat(Unblock(b), Flatten(Prune(rest, seen)));
        case Turn(a, rs) =>
          TurnNotPlain(b);
          if Complete(a, rs) {
            var c, more := Turn(a, Dedup(rs, seen)), Prune(rest, seen + Ids(rs));
            DedupFormed(b, seen);
            TurnNotPlain(c);
            FlattenPut(c, more);
            PlainsConcat(Unblock(c), Flatten(more));
          }
      }
    }
  }

  lemma DedupFormed(b: Block, seen: set<string>)
    requires WellFormed(b) && b.Turn?
    ensures WellFormed(Turn(b.call, Dedup(b.results, seen)))
  {
    DedupSub(b.results, seen);
    var f: seq<nat> :| Embeds(Dedup(b.results, seen), b.results, f);
    forall m | m in Dedup(b.results, seen) ensures m.role.Tool? {
      var i :| 0 <= i < |f| && Dedup(b.results, seen)[i] == m;
      assert b.results[f[i]] in b.results;
    }
  }

  /** Every user message and every answer without calls is still there, in order. */
  lemma ConversationKept(h: seq<Msg>)
    ensures Plains(Sanitized(h)) == Plains(h)
  {
    hide Flatten, Gather, Prune, Plains, WellFormed, NoSystem, SeatedAfter;
    GatherGood(h);
    GatherPlains(h);
    PrunePlains(Gather(h), {});
  }

  // ----- What is left as it is -----

  predicate SystemFreeList(h: seq<Msg>) {
    forall m | m in h :: !m.role.System?
  }

  lemma {:induction false} CallsBehind(s: seq<Msg>, i: nat)
    requires i < |s| && Calling(s[i]) && forall k | i < k < |s| :: s[k].role.Tool?
    ensures NearestCalls(s)
    decreases |s|
  {
    if i < |s| - 1 {
      var front := s[..|s| - 1];
      assert front[i] == s[i] && forall k | i < k < |front| :: front[k] == s[k];
      CallsBehind(front, i);
    }
  }

  lemma FrontFits(h: seq<Msg>)
    requires h != [] && SystemFreeList(h) && Owned(h) && WellPreceded(h)
    ensures SystemFreeList(h[..|h| - 1]) && Owned(h[..|h| - 1]) && WellPreceded(h[..|h| - 1])
  {
    var front := h[..|h| - 1];
    assert forall i | 0 <= i < |front| :: front[i] == h[i];
    assert forall m | m in front :: m in h;
    forall j | 0 <= j < |front| && front[j].role.Tool?
      ensures exists i: nat :: i < |front| && Calling(front[i]) && InRunOf(front, i, j)
    {
      var i: nat :| i < |h| && Calling(h[i]) && InRunOf(h, i, j);
      assert Calling(front[i]) && InRunOf(front, i, j);
    }
  }

  lemma LastFits(h: seq<Msg>)
    requires h != [] && SystemFreeList(h) && Owned(h) && WellPreceded(h)
    ensures var n := |h| - 1;
            !h[n].role.System? && (h[n].role.Tool? ==> n > 0 && NearestCalls(h[..n])) && (Calling(h[n]) ==> EndsSeat(h[..n]))
  {
    var n := |h| - 1;
    assert h[n] in h;
    if h[n].role.Tool? {
      var i: nat :| i < |h| && Calling(h[i]) && InRunOf(h, i, n);
      assert h[..n][i] == h[i] && forall k | i < k < n :: h[..n][k] == h[k];
      CallsBehind(h[..n], i);
    }
    if Calling(h[n]) {
      assert h[..n][n - 1] == h[n - 1];
    }
  }

  lemma {:induction false} GatherWhole(h: seq<Msg>)
    requires SystemFreeList(h) && Owned(h) && WellPreceded(h)
    ensures Flatten(Gather(h)) == h
    decreases |h|
  {
    hide Flatten, Append, Good, SystemFreeList, Owned, WellPreceded, NearestCalls, EndsSeat;
    if h == [] {
      FlattenEmpty();
    } else {
      var n := |h| - 1;
      FrontFits(h);
      LastFits(h);
      GatherWhole(h[..n]);
      GatherGood(h[..n]);
      Kept(Gather(h[..n]), h[n]);
      AppendFlat(Gather(h[..n]), h[n]);
      assert h == h[..n] + [h[n]];
    }
  }

  lemma FixedIsTidy(h: seq<Msg>)
    requires Sanitized(h) == h
    ensures SystemFreeList(h) && Owned(h)
  {
    hide Sanitized, Owned, Subsequence;
    NothingStray(h);
  }

  /** Main result: sanitising leaves a history as it is exactly if it holds no system message, every result is
      in the run of a calling assistant, every call is answered in its run, every calling assistant stands
      right behind a user or tool message, and no two results carry one id. */
  lemma KeptExactly(h: seq<Msg>)
    ensures Sanitized(h) == h <==>
              SystemFreeList(h) && Owned(h) && Answered(h) && WellPreceded(h) && DistinctResults(h)
  {
    hide Flatten, Gather, Prune, AllWellFormed, NoSystem, SeatedAfter, Deduped, TurnsComplete, WellPreceded, DistinctResults,
      Repair.ResolvedIds, SystemFreeList, Owned, Answered;
    var bs := Gather(h);
    GatherGood(h);
    if Sanitized(h) == h {
      FixedIsTidy(h);
      FixedIsComplete(h);
      GatherLength(h);
      PruneLength(bs, {});
      PruneDeduped(bs, {});
      SeatedPreceded(bs);
      DedupedExactly(bs, {});
    }
    if SystemFreeList(h) && Owned(h) && Answered(h) && WellPreceded(h) && DistinctResults(h) {
      GatherWhole(h);
      AnsweredBlocks(bs);
      DedupedExactly(bs, {});
      PruneKeeps(bs, {});
    }
  }
}
