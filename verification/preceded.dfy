/** When sanitising leaves a calling assistant without a user or tool message before it. */
module PrecededHistory {
  import opened History
  import opened Sanitize
  import opened SanitizedHistory

  /** The non-empty ids that the complete turns of bs answer. */
  function SeenIds(bs: seq<Block>): set<string> {
    set b, r | b in bs && Turns(b) && r in b.results && r.resultId != "" :: r.resultId
  }

  /** What the second pass makes of b behind these ids. */
  function Pruned(b: Block, seen: set<string>): seq<Block> {
    match b
    case Single(_) => [b]
    case Turn(a, rs) => if Complete(a, rs) then [Turn(a, Dedup(rs, seen))] else []
  }

  lemma {:induction false} PruneSnoc(bs: seq<Block>, b: Block, seen: set<string>)
    ensures Prune(bs + [b], seen) == Prune(bs, seen) + Pruned(b, seen + SeenIds(bs))
    decreases |bs|
  {
    hide Complete, Dedup, Ids, SeenIds, Turns;
    var all := bs + [b];
    SeenParts(bs);
    if bs == [] {
      assert all == [b] && all[1..] == [];
      assert seen + {} == seen;
    } else {
      assert all[0] == bs[0] && all[1..] == bs[1..] + [b];
      TurnsOrNot(bs[0]);
      var next := if Turns(bs[0]) then seen + Ids(bs[0].results) else seen;
      PruneSnoc(bs[1..], b, next);
      assert next + SeenIds(bs[1..]) == seen + SeenIds(bs);
    }
  }

  lemma TurnsOrNot(b: Block)
    ensures Turns(b) <==> b.Turn? && Complete(b.call, b.results)
  {
  }

  lemma SeenParts(bs: seq<Block>)
    ensures bs == [] ==> SeenIds(bs) == {}
    ensures bs != [] ==> SeenIds(bs) == SeenIds(bs[1..]) + if Turns(bs[0]) then Ids(bs[0].results) else {}
  {
    hide Complete;
    if bs != [] { assert forall x :: x in bs <==> x == bs[0] || x in bs[1..]; }
  }

  lemma {:induction false} DedupEmpty(rs: seq<Msg>, seen: set<string>)
    ensures Dedup(rs, seen) == [] <==> forall r | r in rs :: r.resultId != "" && r.resultId in seen
    decreases |rs|
  {
    if rs != [] {
      assert rs == [rs[0]] + rs[1..];
      DedupEmpty(rs[1..], seen);
    }
  }

  // ----- The condition -----

  /** A complete turn that loses every result: all carry ids that earlier complete turns answer. */
  predicate Emptied(bs: seq<Block>, k: nat) {
    k < |bs| && Turns(bs[k]) && forall r | r in bs[k].results :: r.resultId != "" && r.resultId in SeenIds(bs[..k])
  }

  predicate Dropped(b: Block) {
    b.Turn? && !Complete(b.call, b.results)
  }

  /** The last block of bs that is not dropped is such a turn. */
  predicate EndsEmptied(bs: seq<Block>) {
    exists k :: 0 <= k < |bs| && Emptied(bs, k) && forall x | k < x < |bs| :: Dropped(bs[x])
  }

  /** And a complete turn follows it. */
  predicate Bares(bs: seq<Block>) {
    exists j :: 0 <= j < |bs| && Turns(bs[j]) && EndsEmptied(bs[..j])
  }

  lemma EmptiedFront(bs: seq<Block>, b: Block, k: nat)
    requires k < |bs|
    ensures Emptied(bs + [b], k) <==> Emptied(bs, k)
  {
    hide Turns, SeenIds;
    assert (bs + [b])[..k] == bs[..k];
  }

  lemma EndsEmptiedSnoc(bs: seq<Block>, b: Block)
    ensures EndsEmptied(bs + [b]) <==> if Dropped(b) then EndsEmptied(bs) else Emptied(bs + [b], |bs|)
  {
    hide Emptied, Dropped;
    var all, n := bs + [b], |bs|;
    assert all[n] == b && forall x | 0 <= x < n :: all[x] == bs[x];
    forall k | 0 <= k < n ensures Emptied(all, k) <==> Emptied(bs, k) { EmptiedFront(bs, b, k); }
    NotBoth(all, n);
  }

  lemma NotBoth(bs: seq<Block>, k: nat)
    ensures k < |bs| && Dropped(bs[k]) ==> !Emptied(bs, k)
  {
  }

  lemma BaresSnoc(bs: seq<Block>, b: Block)
    ensures Bares(bs + [b]) <==> Bares(bs) || (Turns(b) && EndsEmptied(bs))
  {
    hide EndsEmptied, Turns;
    var all, n := bs + [b], |bs|;
    assert all[n] == b && all[..n] == bs;
    assert forall j | 0 <= j < n :: all[j] == bs[j] && all[..j] == bs[..j];
  }

  lemma {:induction false} PruneSeats(bs: seq<Block>)
    requires SeatedAfter(false, bs)
    ensures SeatedAfter(false, Prune(bs, {})) <==> !Bares(bs)
    ensures SeatsLast(false, bs) ==> (SeatsLast(false, Prune(bs, {})) <==> !EndsEmptied(bs))
    decreases |bs|
  {
    hide Complete, Dedup, Prune, SeatedAfter, SeenIds, Bares, EndsEmptied;
    if bs == [] {
      NothingPruned();
    } else {
      var n := |bs| - 1;
      var front, b := bs[..n], bs[n];
      assert bs == front + [b];
      SeatedSnoc(false, front, b);
      PruneSeats(front);
      PruneSnoc(front, b, {});
      assert {} + SeenIds(front) == SeenIds(front);
      EndsEmptiedSnoc(front, b);
      BaresSnoc(front, b);
      if Turns(b) {
        DedupEmpty(b.results, SeenIds(front));
        SeatedSnoc(false, Prune(front, {}), Turn(b.call, Dedup(b.results, SeenIds(front))));
      } else if b.Single? {
        SeatedSnoc(false, Prune(front, {}), b);
      } else {
        assert Prune(front, {}) + [] == Prune(front, {});
      }
    }
  }

  lemma NothingPruned()
    ensures Prune([], {}) == [] && SeatedAfter(false, []) && !Bares([])
  {
  }

  /** Main result: a kept calling assistant stands right after a user or tool message, exactly if no
      complete turn follows one whose results were all answered before. */
  lemma PrecededExactly(h: seq<Msg>)
    ensures WellPreceded(Sanitized(h)) <==> !Bares(Gather(h))
  {
    hide Flatten, Gather, Prune, AllWellFormed, NoSystem, SeatedAfter, WellPreceded, Bares;
    GatherGood(h);
    BlocksGood(h);
    SeatedPreceded(Blocks(h));
    PruneSeats(Gather(h));
  }
}
