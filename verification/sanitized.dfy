/** What sanitizeHistoryForProvider guarantees: a subsequence without strays always; pairing and
    idempotence exactly when no answer is spent twice. */
module SanitizedHistory {
  import opened History
  import opened Sanitize

  // ----- Subsequences -----

  /** f maps the positions of x to those of y, in order. */
  ghost predicate Embeds(x: seq<Msg>, y: seq<Msg>, f: seq<nat>) {
    && |f| == |x|
    && (forall i, j | 0 <= i < j < |f| :: f[i] < f[j])
    && (forall i | 0 <= i < |f| :: f[i] < |y| && y[f[i]] == x[i])
  }

  ghost predicate Subsequence(x: seq<Msg>, y: seq<Msg>) {
    exists f: seq<nat> :: Embeds(x, y, f)
  }

  lemma SubRefl(x: seq<Msg>)
    ensures Subsequence(x, x)
  {
    assert Embeds(x, x, seq(|x|, i => i));
  }

  lemma SubEmpty(y: seq<Msg>)
    ensures Subsequence([], y)
  {
    var f: seq<nat> := [];
    assert Embeds([], y, f);
  }

  lemma SubConcat(a: seq<Msg>, x: seq<Msg>, b: seq<Msg>, y: seq<Msg>)
    requires Subsequence(a, x) && Subsequence(b, y)
    ensures Subsequence(a + b, x + y)
  {
    var f: seq<nat> :| Embeds(a, x, f);
    var g: seq<nat> :| Embeds(b, y, g);
    assert Embeds(a + b, x + y, f + seq(|g|, i requires 0 <= i < |g| => |x| + g[i]));
  }

  lemma SubTrans(a: seq<Msg>, b: seq<Msg>, c: seq<Msg>)
    requires Subsequence(a, b) && Subsequence(b, c)
    ensures Subsequence(a, c)
  {
    var f: seq<nat> :| Embeds(a, b, f);
    var g: seq<nat> :| Embeds(b, c, g);
    assert Embeds(a, c, seq(|f|, i requires 0 <= i < |f| => g[f[i]]));
  }

  lemma {:induction false} GatherSub(h: seq<Msg>)
    ensures Subsequence(Flatten(Gather(h)), h)
    decreases |h|
  {
    hide Flatten, Append, Subsequence;
    if h == [] {
      FlattenEmpty();
      SubRefl(h);
    } else {
      var n := |h| - 1;
      var bs, m := Gather(h[..n]), h[n];
      GatherSub(h[..n]);
      AppendFlat(bs, m);
      SubRefl([m]);
      SubEmpty([m]);
      SubConcat(Flatten(bs), h[..n], if Append(bs, m) == bs then [] else [m], [m]);
      assert h == h[..n] + [m];
    }
  }

  lemma {:induction false} DedupSub(rs: seq<Msg>, seen: set<string>)
    ensures Subsequence(Dedup(rs, seen), rs)
    ensures AllTools(rs) ==> AllTools(Dedup(rs, seen))
    decreases |rs|
  {
    hide Subsequence;
    if rs == [] {
      SubRefl(rs);
    } else {
      var next := if rs[0].resultId == "" || rs[0].resultId in seen then seen else seen + {rs[0].resultId};
      DedupSub(rs[1..], next);
      SubRefl([rs[0]]);
      SubEmpty([rs[0]]);
      SubConcat([], [rs[0]], Dedup(rs[1..], next), rs[1..]);
      SubConcat([rs[0]], [rs[0]], Dedup(rs[1..], next), rs[1..]);
      assert rs == [rs[0]] + rs[1..] && [] + Dedup(rs[1..], next) == Dedup(rs[1..], next);
    }
  }

  lemma {:induction false} PruneSub(bs: seq<Block>, seen: set<string>)
    ensures Subsequence(Flatten(Prune(bs, seen)), Flatten(bs))
    decreases |bs|
  {
    hide Flatten, Subsequence, Complete, Dedup, Ids;
    if bs == [] {
      SubRefl(Flatten(bs));
    } else {
      var u, rest := Unblock(bs[0]), Flatten(bs[1..]);
      FlattenCons(bs);
      match bs[0] {
        case Single(m) =>
          PruneSub(bs[1..], seen);
          FlattenPut(bs[0], Prune(bs[1..], seen));
          SubRefl(u);
          SubConcat(u, u, Flatten(Prune(bs[1..], seen)), rest);
        case Turn(a, rs) =>
          PruneSub(bs[1..], seen);
          PruneSub(bs[1..], seen + Ids(rs));
          var tail, tail' := Flatten(Prune(bs[1..], seen)), Flatten(Prune(bs[1..], seen + Ids(rs)));
          FlattenPut(Turn(a, Dedup(rs, seen)), Prune(bs[1..], seen + Ids(rs)));
          DedupSub(rs, seen);
          SubRefl([a]);
          SubConcat([a], [a], Dedup(rs, seen), rs);
          SubConcat([a] + Dedup(rs, seen), u, tail', rest);
          SubEmpty(u);
          SubConcat([], u, tail, rest);
          assert [] + tail == tail;
      }
    }
  }

  lemma {:induction false} PruneGood(bs: seq<Block>, seen: set<string>)
    requires AllWellFormed(bs) && NoSystem(bs)
    ensures AllWellFormed(Prune(bs, seen)) && NoSystem(Prune(bs, seen))
    decreases |bs|
  {
    hide Complete, Dedup, Ids, AllTools;
    if bs != [] {
      assert bs[0] in bs && forall x | x in bs[1..] :: x in bs;
      assert WellFormed(bs[0]);
      PruneGood(bs[1..], seen);
      if bs[0].Turn? {
        DedupSub(bs[0].results, seen);
        PruneGood(bs[1..], seen + Ids(bs[0].results));
      }
    }
  }

  lemma BlocksGood(h: seq<Msg>)
    ensures AllWellFormed(Blocks(h)) && NoSystem(Blocks(h))
  {
    GatherGood(h);
    PruneGood(Gather(h), {});
  }

  lemma SystemFree(bs: seq<Block>, p: nat)
    requires AllWellFormed(bs) && NoSystem(bs) && p < |Flatten(bs)|
    ensures !Flatten(bs)[p].role.System?
  {
    hide Flatten, AllTools;
    var k, x := BlockOf(bs, p);
    BlockAt(bs, k);
    assert Flatten(bs)[Start(bs, k) + x] == Unblock(bs[k])[x] && WellFormed(bs[k]) && bs[k] in bs;
    if bs[k].Turn? && x > 0 { ToolAt(bs[k].results, x - 1); }
  }

  /** Always: nothing new and nothing reordered, no system message, and every tool message in the run
      of a calling assistant. */
  lemma NothingStray(h: seq<Msg>)
    ensures Subsequence(Sanitized(h), h)
    ensures forall m | m in Sanitized(h) :: !m.role.System?
    ensures Owned(Sanitized(h))
  {
    hide Subsequence, Flatten, Gather, Prune, AllWellFormed, NoSystem, Owned;
    GatherSub(h);
    PruneSub(Gather(h), {});
    SubTrans(Sanitized(h), Flatten(Gather(h)), h);
    BlocksGood(h);
    OwnedBlocks(Blocks(h));
    forall m | m in Sanitized(h) ensures !m.role.System? {
      var p: nat :| p < |Sanitized(h)| && Sanitized(h)[p] == m;
      SystemFree(Blocks(h), p);
    }
  }

  // ----- When the result is paired -----

  /** No complete turn calls for an id that an earlier complete turn already answers. */
  predicate NoReuse(bs: seq<Block>) {
    forall i, j | 0 <= i < j < |bs| && Turns(bs[i]) && Turns(bs[j]) :: !Reuses(bs[j], Answers(bs[i].results))
  }

  predicate Turns(b: Block) {
    b.Turn? && Complete(b.call, b.results)
  }

  predicate Reuses(b: Block, ids: set<string>)
    requires b.Turn?
  {
    exists c | c in b.call.calls :: c.id != "" && c.id in ids
  }

  predicate NoReuseFrom(bs: seq<Block>, seen: set<string>) {
    NoReuse(bs) && forall b | b in bs && Turns(b) :: !Reuses(b, seen)
  }

  lemma NoReuseCons(bs: seq<Block>, seen: set<string>)
    requires bs != []
    ensures NoReuseFrom(bs, seen)
            <==> if Turns(bs[0]) then !Reuses(bs[0], seen) && NoReuseFrom(bs[1..], seen + Ids(bs[0].results))
                 else NoReuseFrom(bs[1..], seen)
  {
    hide Turns;
    var b, rest := bs[0], bs[1..];
    assert forall x :: x in bs <==> x == b || x in rest;
    assert forall i | 0 <= i < |rest| :: rest[i] == bs[i + 1];
    if Turns(b) {
      TurnsIsTurn();
      forall x | x in rest && Turns(x)
        ensures Reuses(x, seen + Ids(b.results)) <==> Reuses(x, seen) || Reuses(x, Answers(b.results))
      {
      }
      assert NoReuse(bs) <==> NoReuse(rest) && forall x | x in rest && Turns(x) :: !Reuses(x, Answers(b.results));
    } else {
      assert NoReuse(bs) <==> NoReuse(rest);
    }
  }

  lemma TurnsIsTurn()
    ensures forall b | Turns(b) :: b.Turn?
  {
  }

  lemma {:induction false} DedupAnswers(rs: seq<Msg>, seen: set<string>)
    ensures forall id :: id in Answers(Dedup(rs, seen)) <==> id in Answers(rs) && (id == "" || id !in seen)
    decreases |rs|
  {
    hide Answers;
    if rs == [] {
      NoAnswers();
    } else {
      AnswersCons(rs);
      var next := if rs[0].resultId == "" || rs[0].resultId in seen then seen else seen + {rs[0].resultId};
      var more := Dedup(rs[1..], next);
      DedupAnswers(rs[1..], next);
      AnswersCons([rs[0]] + more);
      assert ([rs[0]] + more)[1..] == more;
    }
  }

  lemma NoAnswers()
    ensures Answers([]) == {}
  {
  }

  lemma DedupComplete(a: Msg, rs: seq<Msg>, seen: set<string>)
    requires Complete(a, rs)
    ensures Complete(a, Dedup(rs, seen)) <==> !Reuses(Turn(a, rs), seen)
  {
    hide Answers, Dedup;
    DedupAnswers(rs, seen);
  }

  lemma TurnsCompletePut(b: Block, rest: seq<Block>)
    ensures TurnsComplete([b] + rest) <==> (b.Turn? ==> Complete(b.call, b.results)) && TurnsComplete(rest)
  {
    hide Complete;
    assert forall x :: x in [b] + rest <==> x == b || x in rest;
  }

  /** The second pass leaves every turn complete exactly if no answer is reused. */
  lemma {:induction false} PruneComplete(bs: seq<Block>, seen: set<string>)
    ensures TurnsComplete(Prune(bs, seen)) <==> NoReuseFrom(bs, seen)
    decreases |bs|
  {
    hide Complete, Dedup, Ids, TurnsComplete, NoReuseFrom, Reuses;
    if bs == [] {
      NothingToReuse(seen);
    } else {
      NoReuseCons(bs, seen);
      PruneComplete(bs[1..], seen);
      match bs[0] {
        case Single(m) =>
          TurnsCompletePut(bs[0], Prune(bs[1..], seen));
        case Turn(a, rs) =>
          if Complete(a, rs) {
            PruneComplete(bs[1..], seen + Ids(rs));
            DedupComplete(a, rs, seen);
            TurnsCompletePut(Turn(a, Dedup(rs, seen)), Prune(bs[1..], seen + Ids(rs)));
          }
      }
    }
  }

  lemma NothingToReuse(seen: set<string>)
    ensures TurnsComplete([]) && NoReuseFrom([], seen)
  {
  }

  lemma NothingSeen(bs: seq<Block>)
    ensures NoReuseFrom(bs, {}) <==> NoReuse(bs)
  {
  }

  /** Main result: every tool call that is kept is answered in the run right after it, exactly if no
      complete turn of the history calls for an id answered in an earlier complete turn. */
  lemma AnsweredExactly(h: seq<Msg>)
    ensures Answered(Sanitized(h)) <==> NoReuse(Gather(h))
  {
    hide Flatten, Gather, Prune, AllWellFormed, NoSystem, Answered, TurnsComplete, NoReuse, NoReuseFrom;
    BlocksGood(h);
    AnsweredBlocks(Blocks(h));
    PruneComplete(Gather(h), {});
    NothingSeen(Gather(h));
  }

  // ----- Predecessors -----

  lemma SeatedWeaken(p: bool, bs: seq<Block>)
    requires SeatedAfter(p, bs)
    ensures SeatedAfter(true, bs)
  {
  }

  lemma CompleteSeats(a: Msg, rs: seq<Msg>)
    requires Calling(a) && Complete(a, rs)
    ensures rs != []
  {
    assert a.calls[0] in a.calls;
  }

  lemma SeatedPut(p: bool, b: Block, rest: seq<Block>)
    ensures SeatedAfter(p, [b] + rest) <==> (b.Turn? ==> p) && SeatedAfter(Seats(b), rest)
  {
    assert ([b] + rest)[1..] == rest;
  }

  /** Dropping incomplete turns leaves the others seated. */
  lemma {:induction false} PruneSeated(p: bool, bs: seq<Block>, seen: set<string>)
    requires AllWellFormed(bs) && SeatedAfter(p, bs) && NoReuseFrom(bs, seen)
    ensures SeatedAfter(p, Prune(bs, seen))
    decreases |bs|
  {
    hide Complete, Dedup, Ids, AllTools, NoReuseFrom, Reuses, SeatedAfter;
    if bs != [] {
      assert bs[0] in bs && forall x | x in bs[1..] :: x in bs;
      assert WellFormed(bs[0]) && bs == [bs[0]] + bs[1..];
      NoReuseCons(bs, seen);
      SeatedPut(p, bs[0], bs[1..]);
      match bs[0] {
        case Single(m) =>
          PruneSeated(Seats(bs[0]), bs[1..], seen);
          SeatedPut(p, bs[0], Prune(bs[1..], seen));
        case Turn(a, rs) =>
          SeatedWeaken(Seats(bs[0]), bs[1..]);
          if Complete(a, rs) {
            DedupComplete(a, rs, seen);
            CompleteSeats(a, Dedup(rs, seen));
            PruneSeated(true, bs[1..], seen + Ids(rs));
            SeatedPut(p, Turn(a, Dedup(rs, seen)), Prune(bs[1..], seen + Ids(rs)));
          } else {
            PruneSeated(true, bs[1..], seen);
          }
      }
    } else {
      NothingSeated(p);
    }
  }

  lemma NothingSeated(p: bool)
    ensures SeatedAfter(p, [])
  {
  }

  /** Every calling assistant stands right after a user or tool message. */
  predicate WellPreceded(ms: seq<Msg>) {
    forall i | 0 <= i < |ms| && Calling(ms[i]) :: i > 0 && (ms[i - 1].role.User? || ms[i - 1].role.Tool?)
  }

  lemma {:induction false} SeatedPreceded(bs: seq<Block>)
    requires AllWellFormed(bs)
    ensures SeatedAfter(false, bs) <==> WellPreceded(Flatten(bs))
    decreases |bs|
  {
    hide Flatten, AllTools, SeatedAfter, Seats, WellPreceded;
    if bs == [] {
      FlattenEmpty();
      NothingSeated(false);
      NothingPreceded();
    } else {
      var n := |bs| - 1;
      var front, b := bs[..n], bs[n];
      assert bs == front + [b] && forall x | x in front :: x in bs;
      SeatedSnoc(false, front, b);
      SeatedPreceded(front);
      FlattenSnoc(front, b);
      NearestIsTurn(front);
      assert WellFormed(b);
      BlockPreceded(Flatten(front), b);
    }
  }

  lemma NothingPreceded()
    ensures WellPreceded([])
  {
  }

  lemma BlockPreceded(front: seq<Msg>, b: Block)
    requires WellFormed(b)
    ensures WellPreceded(front + Unblock(b)) <==> WellPreceded(front) && (b.Turn? ==> EndsSeat(front))
  {
    var ms := front + Unblock(b);
    assert forall i | 0 <= i < |front| :: ms[i] == front[i];
    forall i | |front| <= i < |ms| && Calling(ms[i]) ensures b.Turn? && i == |front| {
      assert ms[i] == Unblock(b)[i - |front|];
      CallerFirst(b, i - |front|);
    }
    if b.Turn? {
      assert ms[|front|] == b.call;
    }
  }

  lemma PrecededWhenUnused(h: seq<Msg>)
    requires NoReuse(Gather(h))
    ensures WellPreceded(Sanitized(h))
  {
    hide Flatten, Gather, Prune, AllWellFormed, NoSystem, NoReuse, NoReuseFrom, SeatedAfter, WellPreceded;
    GatherGood(h);
    BlocksGood(h);
    NothingSeen(Gather(h));
    PruneSeated(false, Gather(h), {});
    SeatedPreceded(Blocks(h));
  }

  // ----- Idempotence -----

  lemma {:induction false} GatherTurn(h: seq<Msg>, bs: seq<Block>, a: Msg, rs: seq<Msg>)
    requires Gather(h) == bs && Calling(a) && AllTools(rs) && SeatsLast(false, bs)
    ensures Gather(h + ([a] + rs)) == bs + [Turn(a, rs)]
    decreases |rs|
  {
    hide AllTools;
    var all := h + ([a] + rs);
    if rs == [] {
      assert all[..|h|] == h && all[|h|] == a;
    } else {
      var n := |rs| - 1;
      FrontTools(rs);
      GatherTurn(h, bs, a, rs[..n]);
      assert all[..|all| - 1] == h + ([a] + rs[..n]) && all[|all| - 1] == rs[n];
      assert rs[..n] + [rs[n]] == rs;
    }
  }

  lemma FrontTools(rs: seq<Msg>)
    requires AllTools(rs) && rs != []
    ensures AllTools(rs[..|rs| - 1]) && rs[|rs| - 1].role.Tool?
  {
  }

  /** Good blocks are what the first pass finds in their messages. */
  lemma {:induction false} GatherFlatten(bs: seq<Block>)
    requires Good(bs)
    ensures Gather(Flatten(bs)) == bs
    decreases |bs|
  {
    hide Flatten, AllTools, Good, Seats;
    FlattenEmpty();
    if bs != [] {
      var n := |bs| - 1;
      var front, b := bs[..n], bs[n];
      GoodFront(bs);
      LastWellFormed(bs);
      GoodNoSystem(bs);
      GatherFlatten(front);
      FlattenSnoc(front, b);
      assert bs == front + [b];
      match b {
        case Single(m) =>
          assert (Flatten(front) + [m])[..|Flatten(front)|] == Flatten(front);
        case Turn(a, rs) =>
          GatherTurn(Flatten(front), front, a, rs);
      }
    }
  }

  lemma GoodNoSystem(bs: seq<Block>)
    requires Good(bs) && bs != []
    ensures bs[|bs| - 1].Single? ==> !bs[|bs| - 1].msg.role.System?
  {
  }

  /** No two results carry one id, the ones in seen included. */
  predicate Deduped(bs: seq<Block>, seen: set<string>) {
    bs == [] || match bs[0]
                case Single(_) => Deduped(bs[1..], seen)
                case Turn(_, rs) => Dedup(rs, seen) == rs && Deduped(bs[1..], seen + Ids(rs))
  }

  lemma {:induction false} DedupTwice(rs: seq<Msg>, seen: set<string>)
    ensures Dedup(Dedup(rs, seen), seen) == Dedup(rs, seen)
    decreases |rs|
  {
    if rs != [] {
      var next := if rs[0].resultId == "" || rs[0].resultId in seen then seen else seen + {rs[0].resultId};
      DedupTwice(rs[1..], next);
      var more := Dedup(rs[1..], next);
      assert ([rs[0]] + more)[1..] == more;
    }
  }

  lemma DedupIds(rs: seq<Msg>, seen: set<string>)
    ensures seen + Ids(Dedup(rs, seen)) == seen + Ids(rs)
  {
    hide Answers, Dedup;
    DedupAnswers(rs, seen);
  }

  lemma DedupedPut(b: Block, rest: seq<Block>, seen: set<string>)
    ensures Deduped([b] + rest, seen)
            <==> if b.Turn? then Dedup(b.results, seen) == b.results && Deduped(rest, seen + Ids(b.results))
                 else Deduped(rest, seen)
  {
    hide Dedup, Ids;
    assert ([b] + rest)[1..] == rest;
  }

  lemma {:induction false} PruneDeduped(bs: seq<Block>, seen: set<string>)
    ensures Deduped(Prune(bs, seen), seen)
    decreases |bs|
  {
    hide Complete, Dedup, Ids, Deduped;
    if bs == [] {
      NothingDeduped(seen);
    } else {
      PruneDeduped(bs[1..], seen);
      match bs[0] {
        case Single(m) => DedupedPut(bs[0], Prune(bs[1..], seen), seen);
        case Turn(a, rs) =>
          PruneDeduped(bs[1..], seen + Ids(rs));
          DedupTwice(rs, seen);
          DedupIds(rs, seen);
          DedupedPut(Turn(a, Dedup(rs, seen)), Prune(bs[1..], seen + Ids(rs)), seen);
      }
    }
  }

  lemma NothingDeduped(seen: set<string>)
    ensures Deduped([], seen)
  {
  }

  lemma {:induction false} PruneKeeps(bs: seq<Block>, seen: set<string>)
    requires TurnsComplete(bs) && Deduped(bs, seen)
    ensures Prune(bs, seen) == bs
    decreases |bs|
  {
    hide Complete, Dedup, Ids;
    if bs != [] {
      assert bs[0] in bs && forall x | x in bs[1..] :: x in bs;
      assert bs == [bs[0]] + bs[1..];
      PruneKeeps(bs[1..], if bs[0].Turn? then seen + Ids(bs[0].results) else seen);
    }
  }

  // ----- What a fixed point is -----

  lemma {:induction false} GatherLength(h: seq<Msg>)
    ensures |Flatten(Gather(h))| <= |h|
    ensures |Flatten(Gather(h))| == |h| ==> Flatten(Gather(h)) == h
    decreases |h|
  {
    hide Flatten, Append;
    FlattenEmpty();
    if h != [] {
      var n := |h| - 1;
      GatherLength(h[..n]);
      AppendFlat(Gather(h[..n]), h[n]);
      assert h == h[..n] + [h[n]];
    }
  }

  lemma {:induction false} DedupLength(rs: seq<Msg>, seen: set<string>)
    ensures |Dedup(rs, seen)| <= |rs|
    ensures |Dedup(rs, seen)| == |rs| ==> Dedup(rs, seen) == rs
    decreases |rs|
  {
    if rs != [] {
      DedupLength(rs[1..], if rs[0].resultId == "" || rs[0].resultId in seen then seen else seen + {rs[0].resultId});
      assert rs == [rs[0]] + rs[1..];
    }
  }

  lemma {:induction false} PruneLength(bs: seq<Block>, seen: set<string>)
    ensures |Flatten(Prune(bs, seen))| <= |Flatten(bs)|
    ensures |Flatten(Prune(bs, seen))| == |Flatten(bs)| ==> Prune(bs, seen) == bs && TurnsComplete(bs)
    decreases |bs|
  {
    hide Flatten, Complete, Dedup, Ids, TurnsComplete;
    if bs == [] {
      NothingToReuse(seen);
    } else {
      FlattenCons(bs);
      assert bs == [bs[0]] + bs[1..];
      PruneLength(bs[1..], seen);
      TurnsCompletePut(bs[0], bs[1..]);
      match bs[0] {
        case Single(m) =>
          FlattenPut(bs[0], Prune(bs[1..], seen));
        case Turn(a, rs) =>
          PruneLength(bs[1..], seen + Ids(rs));
          DedupLength(rs, seen);
          FlattenPut(Turn(a, Dedup(rs, seen)), Prune(bs[1..], seen + Ids(rs)));
      }
    }
  }

  /** A history the function leaves alone is paired. */
  lemma FixedIsComplete(x: seq<Msg>)
    requires Sanitized(x) == x
    ensures Answered(x)
  {
    hide Flatten, Gather, Prune, AllWellFormed, NoSystem, SeatedAfter, TurnsComplete, Answered;
    GatherLength(x);
    PruneLength(Gather(x), {});
    GatherGood(x);
    AnsweredBlocks(Gather(x));
  }

  /** Main result: sanitising twice is sanitising once, exactly under the same condition. */
  lemma IdempotentExactly(h: seq<Msg>)
    ensures Sanitized(Sanitized(h)) == Sanitized(h) <==> NoReuse(Gather(h))
  {
    hide Flatten, Gather, Prune, AllWellFormed, NoSystem, NoReuse, NoReuseFrom, SeatedAfter, TurnsComplete, Answered, Deduped;
    var bs := Blocks(h);
    AnsweredExactly(h);
    if Sanitized(Sanitized(h)) == Sanitized(h) {
      FixedIsComplete(Sanitized(h));
    }
    if NoReuse(Gather(h)) {
      BlocksGood(h);
      GatherGood(h);
      NothingSeen(Gather(h));
      PruneSeated(false, Gather(h), {});
      PruneComplete(Gather(h), {});
      PruneDeduped(Gather(h), {});
      GatherFlatten(bs);
      PruneKeeps(bs, {});
    }
  }

  /** The smallest history that shows it: the same call and result in two turns.  The second result goes,
      its call stays, and a second pass drops that call as well. */
  lemma ReusedIdUnpairs(u: Msg, a: Msg, t: Msg, c: Call)
    requires u.role.User? && a.role.Assistant? && a.calls == [c] && t.role.Tool? && t.resultId == c.id != ""
    ensures var h := [u, a, t, u, a, t];
            !Answered(Sanitized(h)) && Sanitized(Sanitized(h)) != Sanitized(h)
  {
    hide Answered, Gather, Flatten, Prune, Good;
    var h, turn := [u, a, t, u, a, t], Turn(a, [t]);
    var one, two, three := [Single(u)], [Single(u), turn], [Single(u), turn, Single(u)];
    GoodNothing();
    FlattenEmpty();
    assert [] + [Single(u)] == one && one + [turn] == two && two + [Single(u)] == three;
    GoodSnoc([], Single(u));
    GoodSnoc(one, turn);
    GoodSnoc(two, Single(u));
    GoodSnoc(three, turn);
    FlattenSnoc([], Single(u));
    FlattenSnoc(one, turn);
    FlattenSnoc(two, Single(u));
    FlattenSnoc(three, turn);
    var bs := three + [turn];
    assert Flatten(bs) == h;
    GatherFlatten(bs);
    assert t in [t] && c in a.calls && t.resultId in Answers([t]);
    assert Turns(bs[1]) && Turns(bs[3]) && Reuses(bs[3], Answers(bs[1].results));
    AnsweredExactly(h);
    IdempotentExactly(h);
  }

  lemma GoodNothing()
    ensures Good([])
  {
  }

  // ----- A condition on the history itself -----

  /** A non-empty result id occurs in two separate tool runs. */
  ghost predicate Spans(h: seq<Msg>) {
    exists i: nat, k: nat, j: nat :: i < k < j < |h| && SpanAt(h, i, k, j)
  }

  predicate SpanAt(h: seq<Msg>, i: nat, k: nat, j: nat)
    requires i < k < j < |h|
  {
    h[i].role.Tool? && h[j].role.Tool? && h[i].resultId == h[j].resultId != "" && !h[k].role.Tool?
  }

  lemma SubSpans(x: seq<Msg>, h: seq<Msg>)
    requires Subsequence(x, h) && Spans(x)
    ensures Spans(h)
  {
    var f: seq<nat> :| Embeds(x, h, f);
    var i: nat, k: nat, j: nat :| i < k < j < |x| && SpanAt(x, i, k, j);
    assert SpanAt(h, f[i], f[k], f[j]);
  }

  lemma ReuseSpans(bs: seq<Block>)
    requires AllWellFormed(bs) && !NoReuse(bs)
    ensures Spans(Flatten(bs))
  {
    hide Flatten, AllTools, Start, Spans;
    var i, j :| 0 <= i < j < |bs| && Turns(bs[i]) && Turns(bs[j]) && Reuses(bs[j], Answers(bs[i].results));
    var c :| c in bs[j].call.calls && c.id != "" && c.id in Answers(bs[i].results);
    var r :| r in bs[i].results && r.resultId == c.id;
    var x :| 0 <= x < |bs[i].results| && bs[i].results[x] == r;
    var r' :| r' in bs[j].results && r'.resultId == c.id;
    var x' :| 0 <= x' < |bs[j].results| && bs[j].results[x'] == r';
    StartOrder(bs, i + 1, j);
    SpanBetween(bs, i, x, j, x');
  }

  lemma {:induction false} StartOrder(bs: seq<Block>, i: nat, j: nat)
    requires i <= j <= |bs|
    ensures Start(bs, i) <= Start(bs, j)
    decreases j - i
  {
    hide Start, Flatten, Unblock;
    if i < j {
      BlockAt(bs, i);
      StartOrder(bs, i + 1, j);
    }
  }

  lemma SpanBetween(bs: seq<Block>, i: nat, x: nat, j: nat, x': nat)
    requires AllWellFormed(bs) && i < j < |bs| && bs[i].Turn? && bs[j].Turn?
    requires x < |bs[i].results| && x' < |bs[j].results| && bs[i].results[x].resultId == bs[j].results[x'].resultId != ""
    requires Start(bs, i + 1) <= Start(bs, j)
    ensures Spans(Flatten(bs))
  {
    hide Flatten, AllTools, Start;
    var a, k, b := Start(bs, i) + 1 + x, Start(bs, j), Start(bs, j) + 1 + x';
    TurnRun(bs, i, a);
    TurnRun(bs, j, b);
    assert WellFormed(bs[i]) && WellFormed(bs[j]);
    ToolAt(bs[i].results, x);
    ToolAt(bs[j].results, x');
    assert SpanAt(Flatten(bs), a, k, b);
  }

  /** If no non-empty result id occurs in two separate tool runs, the result is paired, each calling
      assistant stands right after a user or tool message, and a second pass changes nothing. */
  lemma UnspannedPaired(h: seq<Msg>)
    requires !Spans(h)
    ensures Answered(Sanitized(h)) && Owned(Sanitized(h)) && WellPreceded(Sanitized(h))
    ensures Sanitized(Sanitized(h)) == Sanitized(h)
  {
    hide Flatten, Gather, Prune, AllWellFormed, NoSystem, NoReuse, Subsequence, Spans, Answered, Owned, WellPreceded, SeatedAfter;
    if !NoReuse(Gather(h)) {
      GatherGood(h);
      ReuseSpans(Gather(h));
      GatherSub(h);
      SubSpans(Flatten(Gather(h)), h);
    }
    AnsweredExactly(h);
    IdempotentExactly(h);
    NothingStray(h);
    PrecededWhenUnused(h);
  }
}
