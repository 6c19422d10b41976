/** What repairHistory guarantees, alone and after sanitizeHistoryForProvider. */
module RepairedHistory {
  import opened Json
  import opened History
  import opened Sanitize
  import opened SanitizedHistory
  import opened Repair

  // ----- Nothing is lost -----

  /** The same message, an assistant possibly with more calls behind its own. */
  predicate Extends(m: Msg, m': Msg) {
    m' == m.(calls := m'.calls) && m.calls <= m'.calls && (!m.role.Assistant? ==> m' == m)
  }

  /** out is ms, in order, with extended messages and k tool messages put in. */
  predicate Grown(ms: seq<Msg>, out: seq<Msg>, k: nat)
    decreases |out|
  {
    (ms == [] && out == [] && k == 0)
    || (ms != [] && out != [] && Extends(ms[0], out[0]) && Grown(ms[1..], out[1..], k))
    || (k > 0 && out != [] && out[0].role.Tool? && Grown(ms, out[1..], k - 1))
  }

  lemma {:induction false} GrownConcat(a: seq<Msg>, x: seq<Msg>, k: nat, b: seq<Msg>, y: seq<Msg>, l: nat)
    requires Grown(a, x, k) && Grown(b, y, l)
    ensures Grown(a + b, x + y, k + l)
    decreases |x|
  {
    hide Extends;
    if a == [] && x == [] && k == 0 {
      assert a + b == b && x + y == y;
    } else {
      assert (x + y)[0] == x[0] && (x + y)[1..] == x[1..] + y;
      if a != [] && Extends(a[0], x[0]) && Grown(a[1..], x[1..], k) {
        assert (a + b)[0] == a[0] && (a + b)[1..] == a[1..] + b;
        GrownConcat(a[1..], x[1..], k, b, y, l);
      } else {
        GrownConcat(a, x[1..], k - 1, b, y, l);
      }
    }
  }

  lemma {:induction false} GrownTools(x: seq<Msg>)
    requires AllTools(x)
    ensures Grown([], x, |x|)
    decreases |x|
  {
    if x != [] {
      assert x[0] in x && forall m | m in x[1..] :: m in x;
      GrownTools(x[1..]);
    }
  }

  predicate Pointwise(ms: seq<Msg>, pat: seq<Msg>) {
    |ms| == |pat| && forall i | 0 <= i < |ms| :: Extends(ms[i], pat[i])
  }

  lemma {:induction false} GrownPointwise(ms: seq<Msg>, pat: seq<Msg>)
    requires Pointwise(ms, pat)
    ensures Grown(ms, pat, 0)
    decreases |ms|
  {
    hide Extends;
    if ms != [] { GrownPointwise(ms[1..], pat[1..]); }
  }

  lemma SynthTools(ids: seq<string>, index: CallIndex, replay: Replay, at: nat)
    ensures AllTools(Synth(ids, index, replay, at)) && |Synth(ids, index, replay, at)| == |ids|
    ensures forall i | 0 <= i < |ids| :: Synth(ids, index, replay, at)[i].resultId == ids[i]
  {
    hide TryReinvoke, StubText;
  }

  lemma {:induction false} FillGrown(ms: seq<Msg>, pat: seq<Msg>, uses: set<string>, index: CallIndex, replay: Replay, at: nat)
    requires Pointwise(ms, pat)
    ensures var (a, b) := FillCounts(pat, uses, index, replay, at);
            Grown(ms, Fill(pat, uses, index, replay, at), a + b)
    decreases |ms|
  {
    hide Extends, OwedBy, Synth, Again, RunLength, Fill, FillCounts, Grown;
    if ms == [] {
      NoFill(pat, uses, index, replay, at);
      NothingGrown();
    } else {
      var ids := OwedBy(pat[0], uses);
      assert ms == [ms[0]] + ms[1..] && pat == [pat[0]] + pat[1..];
      if ids == [] {
        FillOne(pat, uses, index, replay, at);
        FillGrown(ms[1..], pat[1..], uses, index, replay, at + 1);
        GrownPointwise([ms[0]], [pat[0]]);
        var (a, b) := FillCounts(pat[1..], uses, index, replay, at + 1);
        GrownConcat([ms[0]], [pat[0]], 0, ms[1..], Fill(pat[1..], uses, index, replay, at + 1), a + b);
      } else {
        FillGrownRun(ms, pat, uses, index, replay, at);
      }
    }
  }

  lemma NothingGrown()
    ensures Grown([], [], 0)
  {
  }

  lemma FillGrownRun(ms: seq<Msg>, pat: seq<Msg>, uses: set<string>, index: CallIndex, replay: Replay, at: nat)
    requires Pointwise(ms, pat) && ms != [] && OwedBy(pat[0], uses) != []
    ensures var (a, b) := FillCounts(pat, uses, index, replay, at);
            Grown(ms, Fill(pat, uses, index, replay, at), a + b)
    decreases |ms|, 0
  {
    hide Extends, OwedBy, Synth, Again, RunLength, Fill, FillCounts, Grown;
    var ids, run := OwedBy(pat[0], uses), RunLength(pat[1..]);
    FillRun(pat, uses, index, replay, at);
    var rest, prest := ms[1..][run..], pat[1..][run..];
    var synth := Synth(ids, index, replay, at + 1 + run);
    var at' := at + 1 + run + |ids|;
    FillGrown(rest, prest, uses, index, replay, at');
    var (a, b) := FillCounts(prest, uses, index, replay, at');
    var head, phead := [ms[0]] + ms[1..][..run], [pat[0]] + pat[1..][..run];
    GrownPointwise(head, phead);
    SynthTools(ids, index, replay, at + 1 + run);
    GrownTools(synth);
    GrownConcat(head, phead, 0, [], synth, |ids|);
    GrownConcat(head + [], phead + synth, |ids|, rest, Fill(prest, uses, index, replay, at'), a + b);
    assert ms == head + [] + rest;
  }

  lemma PatchExtends(m: Msg, after: seq<Msg>, orphans: set<string>, index: CallIndex)
    ensures Extends(m, Patch(m, after, orphans, index))
  {
    hide Added;
  }

  lemma UsesPointwise(ms: seq<Msg>, orphans: set<string>, index: CallIndex)
    ensures Pointwise(ms, WithUses(ms, orphans, index))
  {
    hide Extends, Patch, WithUses;
    WithUsesLength(ms, orphans, index);
    forall i | 0 <= i < |ms| ensures Extends(ms[i], WithUses(ms, orphans, index)[i]) {
      PatchExtends(ms[i], ms[i + 1..], orphans, index);
    }
  }

  lemma ExtendsRefl(ms: seq<Msg>)
    ensures Pointwise(ms, ms)
  {
  }

  /** Every message is kept, in order; only calls are added to assistants; and the messages put in are
      counted as replayed or as stubs. */
  lemma RepairGrows(ms: seq<Msg>, index: Option<CallIndex>, replay: Replay)
    ensures var (out, stats) := Repaired(ms, index, replay);
            Grown(ms, out, stats.reinvoked + stats.stubs)
            && |out| == |ms| + stats.reinvoked + stats.stubs
  {
    hide Extends, WithUses, UseCounts, Fill, FillCounts, Grown, OrphanResults, OrphanUses, Pointwise;
    var (out, stats) := Repaired(ms, index, replay);
    if (OrphanResults(ms) == {} && OrphanUses(ms) == {}) || index.None? {
      ExtendsRefl(ms);
      GrownPointwise(ms, ms);
    } else {
      UsesPointwise(ms, OrphanResults(ms), index.value);
      FillGrown(ms, WithUses(ms, OrphanResults(ms), index.value), OrphanUses(ms), index.value, replay, 0);
    }
    GrownLength(ms, out, stats.reinvoked + stats.stubs);
  }

  lemma {:induction false} GrownLength(ms: seq<Msg>, out: seq<Msg>, k: nat)
    requires Grown(ms, out, k)
    ensures |out| == |ms| + k
    decreases |out|
  {
    hide Extends;
    if ms != [] && out != [] && Extends(ms[0], out[0]) && Grown(ms[1..], out[1..], k) {
      GrownLength(ms[1..], out[1..], k);
    } else if out != [] {
      GrownLength(ms, out[1..], k - 1);
    }
  }

  // ----- Nothing stays unanswered -----

  lemma {:induction false} AddedIds(after: seq<Msg>, orphans: set<string>, index: CallIndex)
    requires Indexed(index)
    ensures forall c | c in Added(after, orphans, index) :: c.id != "" && c.id in orphans && c.id in ResolvedIds(after) && c.id in index
    decreases |after|
  {
    hide ResolvedIds;
    if after != [] && !after[0].role.Assistant? {
      AddedIds(after[1..], orphans, index);
      assert after == [after[0]] + after[1..];
      IdsConcat([after[0]], after[1..]);
      IdsOne(after[0]);
    }
  }

  lemma PatchIds(m: Msg, after: seq<Msg>, orphans: set<string>, index: CallIndex)
    requires Indexed(index)
    ensures ResolvedIds([Patch(m, after, orphans, index)]) == ResolvedIds([m])
    ensures DeclaredIds([m]) <= DeclaredIds([Patch(m, after, orphans, index)])
            <= DeclaredIds([m]) + (orphans * ResolvedIds(after))
  {
    AddedIds(after, orphans, index);
    hide Added, DeclaredIds, ResolvedIds;
    IdsOne(m);
    IdsOne(Patch(m, after, orphans, index));
  }

  lemma {:induction false} UsesIds(ms: seq<Msg>, orphans: set<string>, index: CallIndex)
    requires Indexed(index)
    ensures ResolvedIds(WithUses(ms, orphans, index)) == ResolvedIds(ms)
    ensures DeclaredIds(ms) <= DeclaredIds(WithUses(ms, orphans, index)) <= DeclaredIds(ms) + (orphans * ResolvedIds(ms))
    decreases |ms|
  {
    hide Patch, DeclaredIds, ResolvedIds;
    if ms != [] {
      var p := Patch(ms[0], ms[1..], orphans, index);
      UsesIds(ms[1..], orphans, index);
      PatchIds(ms[0], ms[1..], orphans, index);
      assert ms == [ms[0]] + ms[1..];
      IdsConcat([ms[0]], ms[1..]);
      IdsConcat([p], WithUses(ms[1..], orphans, index));
    }
  }

  lemma {:induction false} OwedIds(calls: seq<Call>, uses: set<string>)
    ensures forall id :: id in Owed(calls, uses) <==> id in uses && exists c | c in calls :: c.id == id
    decreases |calls|
  {
    if calls != [] {
      OwedIds(calls[1..], uses);
      assert calls == [calls[0]] + calls[1..];
    }
  }

  lemma OwedByIds(m: Msg, uses: set<string>)
    requires "" !in uses
    ensures forall id :: id in OwedBy(m, uses) <==> id in uses && id in DeclaredIds([m])
  {
    if m.role.Assistant? { OwedIds(m.calls, uses); }
    IdsOne(m);
  }

  lemma {:induction false} FillIds(pat: seq<Msg>, uses: set<string>, index: CallIndex, replay: Replay, at: nat)
    requires "" !in uses
    ensures DeclaredIds(Fill(pat, uses, index, replay, at)) == DeclaredIds(pat)
    ensures ResolvedIds(Fill(pat, uses, index, replay, at)) == ResolvedIds(pat) + (uses * DeclaredIds(pat))
    decreases |pat|
  {
    hide OwedBy, Synth, RunLength, DeclaredIds, ResolvedIds, Fill, RunOf, RestOf;
    if pat == [] {
      NoFill(pat, uses, index, replay, at);
      NoIdsAtAll();
    } else {
      var m, ids := pat[0], OwedBy(pat[0], uses);
      OwedByIds(m, uses);
      if ids == [] {
        assert pat == [m] + pat[1..];
        IdsConcat([m], pat[1..]);
        FillOne(pat, uses, index, replay, at);
        FillIds(pat[1..], uses, index, replay, at + 1);
        IdsConcat([m], Fill(pat[1..], uses, index, replay, at + 1));
        assert forall id | id in uses && id in DeclaredIds([m]) :: id in ids;
      } else {
        Parts(pat);
        var tools, rest := RunOf(pat), RestOf(pat);
        var synth, at' := FillParts(pat, uses, index, replay, at);
        var tail := Fill(rest, uses, index, replay, at');
        FillIds(rest, uses, index, replay, at');
        ToolIds(tools);
        SynthResolves(synth, ids);
        IdsConcat(tools, rest);
        IdsConcat([m], tools + rest);
        IdsFour([m], tools, synth, tail);
      }
    }
  }

  lemma SynthResolves(synth: seq<Msg>, ids: seq<string>)
    requires AllTools(synth) && "" !in ids && |synth| == |ids| && forall i | 0 <= i < |ids| :: synth[i].resultId == ids[i]
    ensures DeclaredIds(synth) == {} && ResolvedIds(synth) == set id | id in ids
  {
    ToolIds(synth);
    forall i | 0 <= i < |ids| ensures ids[i] in ResolvedIds(synth) {
      assert synth[i] in synth;
    }
  }

  // Fill at an assistant that owes results, piece by piece.

  function RunOf(pat: seq<Msg>): seq<Msg>
    requires pat != []
  {
    pat[1..][..RunLength(pat[1..])]
  }

  function RestOf(pat: seq<Msg>): seq<Msg>
    requires pat != []
  {
    pat[1..][RunLength(pat[1..])..]
  }

  lemma Parts(pat: seq<Msg>)
    requires pat != []
    ensures pat == [pat[0]] + (RunOf(pat) + RestOf(pat)) && |RestOf(pat)| < |pat| && AllTools(RunOf(pat))
  {
    RunTools(pat[1..]);
    hide RunLength, AllTools;
    assert RunOf(pat) + RestOf(pat) == pat[1..];
  }

  lemma OnlyAssistantsOwe(m: Msg, uses: set<string>)
    ensures OwedBy(m, uses) != [] ==> m.role.Assistant?
  {
  }

  lemma FillParts(pat: seq<Msg>, uses: set<string>, index: CallIndex, replay: Replay, at: nat) returns (synth: seq<Msg>, at': nat)
    requires pat != [] && OwedBy(pat[0], uses) != []
    ensures Fill(pat, uses, index, replay, at) == [pat[0]] + RunOf(pat) + synth + Fill(RestOf(pat), uses, index, replay, at')
    ensures pat[0].role.Assistant? && AllTools(synth) && |synth| == |OwedBy(pat[0], uses)|
    ensures forall i | 0 <= i < |synth| :: synth[i].resultId == OwedBy(pat[0], uses)[i]
  {
    hide Fill, OwedBy, Synth, RunLength, AllTools;
    OnlyAssistantsOwe(pat[0], uses);
    var ids, run := OwedBy(pat[0], uses), RunLength(pat[1..]);
    at' := at + 1 + run + |ids|;
    synth := Synth(ids, index, replay, at + 1 + run);
    FillRun(pat, uses, index, replay, at);
    SynthTools(ids, index, replay, at + 1 + run);
  }

  lemma IdsFour(a: seq<Msg>, b: seq<Msg>, c: seq<Msg>, d: seq<Msg>)
    ensures DeclaredIds(a + b + c + d) == DeclaredIds(a) + DeclaredIds(b) + DeclaredIds(c) + DeclaredIds(d)
    ensures ResolvedIds(a + b + c + d) == ResolvedIds(a) + ResolvedIds(b) + ResolvedIds(c) + ResolvedIds(d)
  {
    hide DeclaredIds, ResolvedIds;
    IdsConcat(a, b);
    IdsConcat(a + b, c);
    IdsConcat(a + b + c, d);
  }

  lemma ToolIds(tools: seq<Msg>)
    requires AllTools(tools)
    ensures DeclaredIds(tools) == {}
  {
  }

  lemma {:induction false} RunTools(ms: seq<Msg>)
    ensures AllTools(ms[..RunLength(ms)])
    ensures RunLength(ms) < |ms| ==> !ms[RunLength(ms)].role.Tool?
    decreases |ms|
  {
    if ms != [] && ms[0].role.Tool? {
      RunTools(ms[1..]);
      assert ms[..RunLength(ms)] == [ms[0]] + ms[1..][..RunLength(ms[1..])];
    }
  }

  lemma OrphansNonEmpty(ms: seq<Msg>)
    ensures "" !in DeclaredIds(ms) && "" !in ResolvedIds(ms)
  {
  }

  /** With the transcript at hand no declared id stays unresolved, and the declared ids are the old
      ones and those of orphan results. */
  lemma RepairResolves(ms: seq<Msg>, index: CallIndex, replay: Replay)
    requires Indexed(index)
    ensures var out := Repaired(ms, Some(index), replay).0;
            DeclaredIds(out) <= ResolvedIds(out)
            && ResolvedIds(out) == ResolvedIds(ms) + OrphanUses(ms)
  {
    hide DeclaredIds, ResolvedIds, WithUses, UseCounts, Fill, FillCounts;
    var patched := WithUses(ms, OrphanResults(ms), index);
    OrphansNonEmpty(ms);
    if !(OrphanResults(ms) == {} && OrphanUses(ms) == {}) {
      UsesIds(ms, OrphanResults(ms), index);
      FillIds(patched, OrphanUses(ms), index, replay, 0);
    }
  }

  // ----- Every orphan is counted -----

  function CountOrphans(ms: seq<Msg>, orphans: set<string>): nat {
    if ms == [] then 0
    else (if ms[0].role.Tool? && ms[0].resultId != "" && ms[0].resultId in orphans then 1 else 0) + CountOrphans(ms[1..], orphans)
  }

  /** The orphan results that follow some assistant. */
  function FollowingOrphans(ms: seq<Msg>, orphans: set<string>): nat {
    if ms == [] then 0
    else if ms[0].role.Assistant? then CountOrphans(ms[1..], orphans)
    else FollowingOrphans(ms[1..], orphans)
  }

  lemma {:induction false} WindowCounts(after: seq<Msg>, orphans: set<string>, index: CallIndex)
    ensures CountOrphans(after, orphans)
            == |Added(after, orphans, index)| + Missed(after, orphans, index) + FollowingOrphans(after, orphans)
    decreases |after|
  {
    if after != [] && !after[0].role.Assistant? { WindowCounts(after[1..], orphans, index); }
  }

  lemma {:induction false} CountsAll(ms: seq<Msg>, orphans: set<string>, index: CallIndex)
    ensures var (u, k) := UseCounts(ms, orphans, index); u + k == FollowingOrphans(ms, orphans)
    decreases |ms|
  {
    if ms != [] {
      CountsAll(ms[1..], orphans, index);
      if ms[0].role.Assistant? { WindowCounts(ms[1..], orphans, index); }
    }
  }

  lemma {:induction false} NoOrphanCount(ms: seq<Msg>)
    ensures FollowingOrphans(ms, {}) == 0 && CountOrphans(ms, {}) == 0
    decreases |ms|
  {
    if ms != [] { NoOrphanCount(ms[1..]); }
  }

  /** Every orphan result behind an assistant is counted once: as an added call or as unrepairable. */
  lemma RepairCounts(ms: seq<Msg>, index: CallIndex, replay: Replay)
    ensures var stats := Repaired(ms, Some(index), replay).1;
            stats.uses + stats.unrepairable == FollowingOrphans(ms, OrphanResults(ms))
  {
    hide DeclaredIds, ResolvedIds, WithUses, UseCounts, Fill, FillCounts, FollowingOrphans;
    CountsAll(ms, OrphanResults(ms), index);
    NoOrphanCount(ms);
  }

  // ----- A second run -----

  /** The ids added anywhere. */
  function AddedAnywhere(ms: seq<Msg>, orphans: set<string>, index: CallIndex): set<string> {
    if ms == [] then {}
    else (if ms[0].role.Assistant? then (set c | c in Added(ms[1..], orphans, index) :: c.id) else {})
         + AddedAnywhere(ms[1..], orphans, index)
  }

  lemma {:induction false} AddedDeclared(ms: seq<Msg>, orphans: set<string>, index: CallIndex)
    requires Indexed(index)
    ensures AddedAnywhere(ms, orphans, index) <= DeclaredIds(WithUses(ms, orphans, index))
    decreases |ms|
  {
    hide DeclaredIds, Added;
    if ms != [] {
      AddedDeclared(ms[1..], orphans, index);
      var p := Patch(ms[0], ms[1..], orphans, index);
      IdsConcat([p], WithUses(ms[1..], orphans, index));
      IdsOne(p);
      AddedIds(ms[1..], orphans, index);
    }
  }

  /** Nothing is added anywhere. */
  predicate Settled(ms: seq<Msg>, orphans: set<string>, index: CallIndex) {
    ms == [] || ((ms[0].role.Assistant? ==> Added(ms[1..], orphans, index) == []) && Settled(ms[1..], orphans, index))
  }

  lemma {:induction false} SettledSame(ms: seq<Msg>, orphans: set<string>, index: CallIndex)
    requires Settled(ms, orphans, index)
    ensures WithUses(ms, orphans, index) == ms
    decreases |ms|
  {
    hide Added;
    if ms != [] {
      SettledSame(ms[1..], orphans, index);
      assert ms[0].calls + [] == ms[0].calls && ms == [ms[0]] + ms[1..];
    }
  }

  lemma {:induction false} AddedFewer(after: seq<Msg>, orphans: set<string>, left: set<string>, index: CallIndex)
    requires Indexed(index) && left <= orphans
    requires forall c | c in Added(after, orphans, index) :: c.id !in left
    ensures Added(after, left, index) == []
    decreases |after|
  {
    if after != [] && !after[0].role.Assistant? {
      var m := after[0];
      var head := if m.role.Tool? && m.resultId != "" && m.resultId in orphans && m.resultId in index then [index[m.resultId]] else [];
      assert forall c | c in Added(after[1..], orphans, index) :: c in head + Added(after[1..], orphans, index);
      assert forall c | c in head :: c in head + Added(after[1..], orphans, index);
      AddedFewer(after[1..], orphans, left, index);
    }
  }

  lemma {:induction false} SettledFewer(ms: seq<Msg>, orphans: set<string>, left: set<string>, index: CallIndex)
    requires Indexed(index) && left <= orphans && left * AddedAnywhere(ms, orphans, index) == {}
    ensures Settled(WithUses(ms, orphans, index), left, index)
    decreases |ms|
  {
    hide Added, Patch;
    if ms != [] {
      SettledFewer(ms[1..], orphans, left, index);
      PatchedWindow(ms[1..], orphans, left, index);
      PatchRole(ms[0], ms[1..], orphans, index);
      if ms[0].role.Assistant? {
        forall c | c in Added(ms[1..], orphans, index) ensures c.id !in left {
          assert c.id in AddedAnywhere(ms, orphans, index);
          assert c.id in left ==> c.id in left * AddedAnywhere(ms, orphans, index);
        }
        AddedFewer(ms[1..], orphans, left, index);
      }
    }
  }

  lemma PatchRole(m: Msg, after: seq<Msg>, orphans: set<string>, index: CallIndex)
    ensures Patch(m, after, orphans, index).role == m.role && Patch(m, after, orphans, index).resultId == m.resultId
  {
  }

  lemma PatchedWindow(ms: seq<Msg>, orphans: set<string>, left: set<string>, index: CallIndex)
    ensures Added(WithUses(ms, orphans, index), left, index) == Added(ms, left, index)
  {
    hide Added, Missed, Patch, WithUses;
    WithUsesLength(ms, orphans, index);
    var pat := WithUses(ms, orphans, index);
    forall i | 0 <= i < |ms| ensures pat[i].role == ms[i].role && pat[i].resultId == ms[i].resultId {
      PatchRole(ms[i], ms[i + 1..], orphans, index);
    }
    AddedSame(pat, ms, left, index);
  }

  lemma {:induction false} AddedConcat(a: seq<Msg>, b: seq<Msg>, orphans: set<string>, index: CallIndex)
    requires AllTools(a)
    ensures Added(a + b, orphans, index) == Added(a, orphans, index) + Added(b, orphans, index)
    decreases |a|
  {
    hide Added;
    if a == [] {
      AddedNone(a, orphans, index);
      assert a + b == b && [] + Added(b, orphans, index) == Added(b, orphans, index);
    } else {
      var m, more := a[0], a[1..];
      assert m in a && forall x | x in more :: x in a;
      assert [m] + (more + b) == a + b && [m] + more == a;
      AddedConcat(more, b, orphans, index);
      AddedConcatOne(m, more, b, orphans, index);
    }
  }

  lemma AddedConcatOne(m: Msg, more: seq<Msg>, b: seq<Msg>, orphans: set<string>, index: CallIndex)
    requires m.role.Tool? && Added(more + b, orphans, index) == Added(more, orphans, index) + Added(b, orphans, index)
    ensures Added([m] + (more + b), orphans, index) == Added([m] + more, orphans, index) + Added(b, orphans, index)
  {
    hide Added;
    AddedCons(m, more + b, orphans, index);
    AddedCons(m, more, orphans, index);
  }

  lemma {:induction false} AddedNone(a: seq<Msg>, orphans: set<string>, index: CallIndex)
    requires forall m | m in a && m.role.Tool? :: m.resultId !in orphans
    ensures Added(a, orphans, index) == []
    decreases |a|
  {
    if a != [] {
      assert a[0] in a && forall m | m in a[1..] :: m in a;
      AddedNone(a[1..], orphans, index);
    }
  }

  lemma {:induction false} SettledTools(a: seq<Msg>, b: seq<Msg>, orphans: set<string>, index: CallIndex)
    requires AllTools(a)
    ensures Settled(a + b, orphans, index) <==> Settled(b, orphans, index)
    decreases |a|
  {
    if a == [] {
      assert a + b == b;
    } else {
      assert a[0] in a && forall m | m in a[1..] :: m in a;
      assert (a + b)[0] == a[0] && (a + b)[1..] == a[1..] + b;
      SettledTools(a[1..], b, orphans, index);
    }
  }

  lemma SettledCons(m: Msg, rest: seq<Msg>, orphans: set<string>, index: CallIndex)
    ensures Settled([m] + rest, orphans, index)
            <==> (m.role.Assistant? ==> Added(rest, orphans, index) == []) && Settled(rest, orphans, index)
  {
    hide Added;
    assert ([m] + rest)[1..] == rest;
  }

  lemma AddedCons(m: Msg, rest: seq<Msg>, orphans: set<string>, index: CallIndex)
    ensures Added([m] + rest, orphans, index)
            == if m.role.Assistant? then []
               else (if m.role.Tool? && m.resultId != "" && m.resultId in orphans && m.resultId in index then [index[m.resultId]] else [])
                    + Added(rest, orphans, index)
  {
    assert ([m] + rest)[1..] == rest;
  }

  /** The results put in are no orphans, so they change nothing in any window. */
  lemma {:induction false} FillSettled(pat: seq<Msg>, uses: set<string>, orphans: set<string>, index: CallIndex, replay: Replay, at: nat)
    requires uses !! orphans && "" !in uses
    ensures Added(Fill(pat, uses, index, replay, at), orphans, index) == Added(pat, orphans, index)
    ensures Settled(pat, orphans, index) ==> Settled(Fill(pat, uses, index, replay, at), orphans, index)
    decreases |pat|
  {
    hide OwedBy, Synth, RunLength, Fill, Added, Settled;
    if pat == [] {
      NoFill(pat, uses, index, replay, at);
    } else {
      var m, rest := pat[0], pat[1..];
      assert pat == [m] + rest;
      SettledCons(m, rest, orphans, index);
      AddedCons(m, rest, orphans, index);
      if OwedBy(m, uses) == [] {
        FillOne(pat, uses, index, replay, at);
        FillSettled(rest, uses, orphans, index, replay, at + 1);
        var tail := Fill(rest, uses, index, replay, at + 1);
        SettledCons(m, tail, orphans, index);
        AddedCons(m, tail, orphans, index);
      } else {
        FillSettledRun(pat, uses, orphans, index, replay, at);
      }
    }
  }

  lemma FillSettledRun(pat: seq<Msg>, uses: set<string>, orphans: set<string>, index: CallIndex, replay: Replay, at: nat)
    requires uses !! orphans && "" !in uses && pat != [] && OwedBy(pat[0], uses) != []
    ensures Added(Fill(pat, uses, index, replay, at), orphans, index) == Added(pat, orphans, index)
    ensures Settled(pat, orphans, index) ==> Settled(Fill(pat, uses, index, replay, at), orphans, index)
    decreases |pat|, 0
  {
    hide Fill, Added, Settled, OwedBy, RunOf, RestOf;
    Parts(pat);
    var tools, rest := RunOf(pat), RestOf(pat);
    var synth, at' := FillParts(pat, uses, index, replay, at);
    FillSettled(rest, uses, orphans, index, replay, at');
    OwedByIds(pat[0], uses);
    RunSettled(pat[0], tools, rest, synth, Fill(rest, uses, index, replay, at'), orphans, index);
  }

  /** A run with results put in, none of them an orphan. */
  lemma RunSettled(m: Msg, tools: seq<Msg>, rest: seq<Msg>, synth: seq<Msg>, tail: seq<Msg>, orphans: set<string>, index: CallIndex)
    requires m.role.Assistant? && AllTools(tools) && AllTools(synth) && forall r | r in synth :: r.resultId !in orphans
    requires Added(tail, orphans, index) == Added(rest, orphans, index)
    requires Settled(rest, orphans, index) ==> Settled(tail, orphans, index)
    ensures Added([m] + tools + synth + tail, orphans, index) == Added([m] + (tools + rest), orphans, index)
    ensures Settled([m] + (tools + rest), orphans, index) ==> Settled([m] + tools + synth + tail, orphans, index)
  {
    hide Added, Settled;
    SynthUnseen(synth, tail, orphans, index);
    AddedConcat(tools, rest, orphans, index);
    AddedConcat(tools, synth + tail, orphans, index);
    SettledTools(tools, rest, orphans, index);
    SettledTools(tools, synth + tail, orphans, index);
    SettledCons(m, tools + rest, orphans, index);
    AddedCons(m, tools + rest, orphans, index);
    SettledCons(m, tools + (synth + tail), orphans, index);
    AddedCons(m, tools + (synth + tail), orphans, index);
    RegroupFour([m], tools, synth, tail);
  }

  lemma SynthUnseen(synth: seq<Msg>, tail: seq<Msg>, orphans: set<string>, index: CallIndex)
    requires AllTools(synth) && forall r | r in synth :: r.resultId !in orphans
    ensures Added(synth + tail, orphans, index) == Added(tail, orphans, index)
    ensures Settled(synth + tail, orphans, index) <==> Settled(tail, orphans, index)
  {
    hide Added, Settled;
    AddedNone(synth, orphans, index);
    AddedConcat(synth, tail, orphans, index);
    SettledTools(synth, tail, orphans, index);
    assert [] + Added(tail, orphans, index) == Added(tail, orphans, index);
  }

  lemma RegroupFour(a: seq<Msg>, b: seq<Msg>, c: seq<Msg>, d: seq<Msg>)
    ensures a + b + c + d == a + (b + (c + d))
  {
  }

  lemma OrphansLeft(ms: seq<Msg>, index: CallIndex, replay: Replay)
    requires Indexed(index) && !(OrphanResults(ms) == {} && OrphanUses(ms) == {})
    ensures var out := Repaired(ms, Some(index), replay).0;
            OrphanUses(out) == {} && OrphanResults(out) <= OrphanResults(ms)
            && OrphanResults(out) * AddedAnywhere(ms, OrphanResults(ms), index) == {}
  {
    hide DeclaredIds, ResolvedIds, WithUses, UseCounts, Fill, FillCounts, AddedAnywhere;
    var o, uses := OrphanResults(ms), OrphanUses(ms);
    OrphansNonEmpty(ms);
    UsesIds(ms, o, index);
    FillIds(WithUses(ms, o, index), uses, index, replay, 0);
    AddedDeclared(ms, o, index);
    RepairResolves(ms, index, replay);
  }

  /** A second repair of a repaired history changes no message, whatever the tools answer then. */
  lemma RepairTwice(ms: seq<Msg>, index: CallIndex, replay: Replay, replay': Replay)
    requires Indexed(index)
    ensures var out := Repaired(ms, Some(index), replay).0;
            Repaired(out, Some(index), replay').0 == out
  {
    hide DeclaredIds, ResolvedIds, WithUses, UseCounts, Fill, FillCounts, AddedAnywhere, Settled;
    var out := Repaired(ms, Some(index), replay).0;
    var o, uses := OrphanResults(ms), OrphanUses(ms);
    if !(o == {} && uses == {}) {
      OrphansLeft(ms, index, replay);
      OrphansNonEmpty(ms);
      var left := OrphanResults(out);
      SettledFewer(ms, o, left, index);
      FillSettled(WithUses(ms, o, index), uses, left, index, replay, 0);
      SettledSame(out, left, index);
      NothingOwed(out, {}, index, replay', 0);
    }
  }

  // ----- After sanitising -----

  function PatchBlock(b: Block, orphans: set<string>, index: CallIndex): Block {
    match b
    case Single(m) => b
    case Turn(a, rs) => Turn(a.(calls := a.calls + Added(rs, orphans, index)), rs)
  }

  function PatchBlocks(bs: seq<Block>, orphans: set<string>, index: CallIndex): seq<Block> {
    seq(|bs|, i requires 0 <= i < |bs| => PatchBlock(bs[i], orphans, index))
  }

  /** No orphan result is to be seen before the next assistant, from the start of a block. */
  lemma {:induction false} NoWindow(bs: seq<Block>, orphans: set<string>, index: CallIndex)
    requires AllWellFormed(bs)
    ensures Added(Flatten(bs), orphans, index) == []
    decreases |bs|
  {
    hide Flatten, Added, AllTools;
    if bs == [] {
      FlattenEmpty();
      AddedNone([], orphans, index);
    } else {
      assert WellFormed(bs[0]) && forall x | x in bs[1..] :: x in bs;
      FlattenCons(bs);
      NoWindow(bs[1..], orphans, index);
      match bs[0] {
        case Single(m) => AddedCons(m, Flatten(bs[1..]), orphans, index);
        case Turn(a, rs) =>
          TurnThen(a, rs, Flatten(bs[1..]));
          AddedCons(a, rs + Flatten(bs[1..]), orphans, index);
      }
    }
  }

  lemma UsesCons(m: Msg, rest: seq<Msg>, orphans: set<string>, index: CallIndex)
    ensures WithUses([m] + rest, orphans, index) == [Patch(m, rest, orphans, index)] + WithUses(rest, orphans, index)
  {
    hide Patch;
    assert ([m] + rest)[1..] == rest;
  }

  lemma {:induction false} UsesTools(rs: seq<Msg>, rest: seq<Msg>, orphans: set<string>, index: CallIndex)
    requires AllTools(rs)
    ensures WithUses(rs + rest, orphans, index) == rs + WithUses(rest, orphans, index)
    decreases |rs|
  {
    hide Added, WithUses;
    if rs == [] {
      assert rs + rest == rest && [] + WithUses(rest, orphans, index) == WithUses(rest, orphans, index);
    } else {
      var r, more := rs[0], rs[1..];
      assert r in rs && forall m | m in more :: m in rs;
      assert rs + rest == [r] + (more + rest);
      UsesCons(r, more + rest, orphans, index);
      UsesTools(more, rest, orphans, index);
      assert [r] + (more + WithUses(rest, orphans, index)) == rs + WithUses(rest, orphans, index);
    }
  }

  lemma {:induction false} UsesBlocks(bs: seq<Block>, orphans: set<string>, index: CallIndex)
    requires AllWellFormed(bs)
    ensures WithUses(Flatten(bs), orphans, index) == Flatten(PatchBlocks(bs, orphans, index))
    ensures AllWellFormed(PatchBlocks(bs, orphans, index))
    decreases |bs|
  {
    hide Flatten, Added, AllTools, WithUses;
    if bs == [] {
      FlattenEmpty();
      assert PatchBlocks(bs, orphans, index) == [];
      NoUses(orphans, index);
    } else {
      var rest := Flatten(bs[1..]);
      assert WellFormed(bs[0]) && forall x | x in bs[1..] :: x in bs;
      FlattenCons(bs);
      UsesBlocks(bs[1..], orphans, index);
      NoWindow(bs[1..], orphans, index);
      var b' := PatchBlock(bs[0], orphans, index);
      assert PatchBlocks(bs, orphans, index) == [b'] + PatchBlocks(bs[1..], orphans, index);
      FlattenPut(b', PatchBlocks(bs[1..], orphans, index));
      match bs[0] {
        case Single(m) =>
          UsesCons(m, rest, orphans, index);
          assert m.calls + [] == m.calls;
        case Turn(a, rs) =>
          TurnThen(a, rs, rest);
          UsesCons(a, rs + rest, orphans, index);
          UsesTools(rs, rest, orphans, index);
          AddedConcat(rs, rest, orphans, index);
          assert Added(rs, orphans, index) + [] == Added(rs, orphans, index);
          TurnThen(a.(calls := a.calls + Added(rs, orphans, index)), rs, WithUses(rest, orphans, index));
      }
    }
  }

  lemma NoUses(orphans: set<string>, index: CallIndex)
    ensures WithUses([], orphans, index) == []
  {
  }

  lemma {:induction false} BlockIds(bs: seq<Block>)
    requires AllWellFormed(bs)
    ensures DeclaredIds(Flatten(bs)) == (set b, c | b in bs && b.Turn? && c in b.call.calls && c.id != "" :: c.id)
    ensures ResolvedIds(Flatten(bs)) == (set b, r | b in bs && b.Turn? && r in b.results && r.resultId != "" :: r.resultId)
    decreases |bs|
  {
    hide Flatten, DeclaredIds, ResolvedIds;
    if bs == [] {
      FlattenEmpty();
      NoIdsAtAll();
    } else {
      var b, rest := bs[0], bs[1..];
      assert bs == [b] + rest && forall x :: x in bs <==> x == b || x in rest;
      FlattenCons(bs);
      BlockIds(rest);
      IdsConcat(Unblock(b), Flatten(rest));
      UnblockIds(b);
    }
  }

  lemma UnblockIds(b: Block)
    requires WellFormed(b)
    ensures DeclaredIds(Unblock(b)) == if b.Turn? then (set c | c in b.call.calls && c.id != "" :: c.id) else {}
    ensures ResolvedIds(Unblock(b)) == if b.Turn? then (set r | r in b.results && r.resultId != "" :: r.resultId) else {}
  {
    if b.Turn? {
      assert forall m :: m in Unblock(b) <==> m == b.call || m in b.results;
      IdsConcat([b.call], b.results);
      IdsOne(b.call);
      ToolIds(b.results);
    } else {
      IdsOne(b.msg);
    }
  }

  /** After sanitising, every declared id is answered somewhere, so no result is put in. */
  lemma {:induction false} PruneResolved(bs: seq<Block>, seen: set<string>)
    ensures forall b, c | b in Prune(bs, seen) && b.Turn? && c in b.call.calls && c.id != "" ::
              c.id in seen || exists b' | b' in Prune(bs, seen) && b'.Turn? :: c.id in Answers(b'.results)
    decreases |bs|
  {
    hide Complete, Dedup, Ids, Answers;
    if bs != [] {
      PruneResolved(bs[1..], seen);
      match bs[0] {
        case Single(m) =>
        case Turn(a, rs) =>
          if Complete(a, rs) {
            var head, tail := Turn(a, Dedup(rs, seen)), Prune(bs[1..], seen + Ids(rs));
            PruneResolved(bs[1..], seen + Ids(rs));
            forall b, c | b in [head] + tail && b.Turn? && c in b.call.calls && c.id != ""
              ensures c.id in seen || exists b' | b' in [head] + tail && b'.Turn? :: c.id in Answers(b'.results)
            {
              assert head in [head] + tail && forall x | x in tail :: x in [head] + tail;
              HeadAnswers(a, rs, seen, c.id);
              if b in tail && c.id !in seen + Ids(rs) {
                var b' :| b' in tail && b'.Turn? && c.id in Answers(b'.results);
              }
            }
          }
      }
    }
  }

  lemma HeadAnswers(a: Msg, rs: seq<Msg>, seen: set<string>, id: string)
    requires Complete(a, rs) && id != ""
    ensures id in Ids(rs) ==> id in seen || id in Answers(Dedup(rs, seen))
    ensures (exists c | c in a.calls :: c.id == id) ==> id in Ids(rs)
  {
    DedupAnswers(rs, seen);
  }

  lemma NothingToFill(h: seq<Msg>)
    ensures OrphanUses(Sanitized(h)) == {}
  {
    var bs := Blocks(h);
    hide Flatten, Gather, Prune, DeclaredIds, ResolvedIds, AllTools;
    BlocksGood(h);
    BlockIds(bs);
    PruneResolved(Gather(h), {});
    forall id | id in DeclaredIds(Flatten(bs)) ensures id in ResolvedIds(Flatten(bs)) {
      var b, c :| b in bs && b.Turn? && c in b.call.calls && c.id != "" && c.id == id;
      var b' :| b' in bs && b'.Turn? && id in Answers(b'.results);
      var r :| r in b'.results && r.resultId == id;
    }
  }

  /** Repair can declare this result: its own turn does, or the transcript knows it. */
  predicate Repairable(a: Msg, r: Msg, index: CallIndex) {
    Declares(a, r.resultId) || (r.resultId != "" && r.resultId in index)
  }

  predicate AllRepairable(bs: seq<Block>, index: CallIndex) {
    forall b | b in bs && b.Turn? :: forall r | r in b.results :: Repairable(b.call, r, index)
  }

  function Known(index: Option<CallIndex>): CallIndex {
    if index.Some? then index.value else map[]
  }

  lemma {:induction false} AddedHas(rs: seq<Msg>, orphans: set<string>, index: CallIndex, r: Msg)
    requires Indexed(index) && AllTools(rs) && r in rs && r.resultId != "" && r.resultId in orphans && r.resultId in index
    ensures index[r.resultId] in Added(rs, orphans, index)
    decreases |rs|
  {
    assert rs[0] in rs && forall m | m in rs[1..] :: m in rs;
    if r != rs[0] { AddedHas(rs[1..], orphans, index, r); }
  }

  /** A result is declared after repair exactly if its turn declared it or it is a known orphan. */
  lemma PatchedDeclares(a: Msg, rs: seq<Msg>, orphans: set<string>, index: CallIndex, r: Msg)
    requires Indexed(index) && AllTools(rs) && r in rs
    ensures Declares(a.(calls := a.calls + Added(rs, orphans, index)), r.resultId)
            <==> Declares(a, r.resultId) || (r.resultId != "" && r.resultId in orphans && r.resultId in index)
  {
    hide Added, AllTools;
    AddedIds(rs, orphans, index);
    var more := Added(rs, orphans, index);
    assert forall c :: c in a.calls + more <==> c in a.calls || c in more;
    if r.resultId != "" && r.resultId in orphans && r.resultId in index { AddedHas(rs, orphans, index, r); }
  }

  lemma PatchedComplete(a: Msg, rs: seq<Msg>, orphans: set<string>, index: CallIndex)
    requires Indexed(index)
    ensures Complete(a.(calls := a.calls + Added(rs, orphans, index)), rs) <==> Complete(a, rs)
  {
    hide Added;
    AddedIds(rs, orphans, index);
    var more := Added(rs, orphans, index);
    assert forall c :: c in a.calls + more <==> c in a.calls || c in more;
  }

  lemma PatchedTurns(bs: seq<Block>, orphans: set<string>, index: CallIndex)
    requires Indexed(index)
    ensures TurnsComplete(PatchBlocks(bs, orphans, index)) <==> TurnsComplete(bs)
  {
    hide Added, Complete, PatchBlock;
    var ps := PatchBlocks(bs, orphans, index);
    forall i | 0 <= i < |bs|
      ensures ps[i].Turn? == bs[i].Turn?
      ensures bs[i].Turn? ==> (Complete(ps[i].call, ps[i].results) <==> Complete(bs[i].call, bs[i].results))
    {
      OnePatched(bs[i], orphans, index);
    }
    assert forall i | 0 <= i < |bs| :: bs[i] in bs && ps[i] in ps;
  }

  lemma OnePatched(b: Block, orphans: set<string>, index: CallIndex)
    requires Indexed(index)
    ensures var p := PatchBlock(b, orphans, index);
            p.Turn? == b.Turn? && (b.Turn? ==> p.results == b.results && (Complete(p.call, p.results) <==> Complete(b.call, b.results)))
    ensures WellFormed(b) && b.Turn? ==> forall r | r in b.results ::
              Declares(PatchBlock(b, orphans, index).call, r.resultId)
              <==> Declares(b.call, r.resultId) || (r.resultId != "" && r.resultId in orphans && r.resultId in index)
  {
    hide Added, Complete, AllTools, Declares;
    if b.Turn? {
      PatchedComplete(b.call, b.results, orphans, index);
      if WellFormed(b) {
        forall r | r in b.results
          ensures Declares(PatchBlock(b, orphans, index).call, r.resultId)
                  <==> Declares(b.call, r.resultId) || (r.resultId != "" && r.resultId in orphans && r.resultId in index)
        {
          PatchedDeclares(b.call, b.results, orphans, index, r);
        }
      }
    }
  }

  lemma PatchedDeclared(bs: seq<Block>, orphans: set<string>, index: CallIndex)
    requires Indexed(index) && AllWellFormed(bs)
    ensures TurnsDeclare(PatchBlocks(bs, orphans, index))
            <==> forall b | b in bs && b.Turn? :: forall r | r in b.results ::
                   Declares(b.call, r.resultId) || (r.resultId != "" && r.resultId in orphans && r.resultId in index)
  {
    hide Added, Complete, PatchBlock, AllTools, Declares;
    var ps := PatchBlocks(bs, orphans, index);
    forall i | 0 <= i < |bs|
      ensures ps[i].Turn? == bs[i].Turn?
      ensures bs[i].Turn? ==> ps[i].results == bs[i].results
      ensures bs[i].Turn? ==> forall r | r in bs[i].results ::
                Declares(ps[i].call, r.resultId)
                <==> Declares(bs[i].call, r.resultId) || (r.resultId != "" && r.resultId in orphans && r.resultId in index)
    {
      assert bs[i] in bs;
      OnePatched(bs[i], orphans, index);
    }
    assert forall i | 0 <= i < |bs| :: bs[i] in bs && ps[i] in ps;
  }

  /** In deduplicated, complete blocks, a result its turn does not declare is declared nowhere. */
  lemma {:induction false} UndeclaredIsOrphan(bs: seq<Block>, seen: set<string>, b: Block, r: Msg, b': Block)
    requires Deduped(bs, seen) && TurnsComplete(bs)
    requires b in bs && b.Turn? && r in b.results && r.resultId != ""
    requires b' in bs && b'.Turn? && Declares(b'.call, r.resultId)
    ensures b == b'
    decreases |bs|
  {
    hide Complete, Dedup, Ids, Answers, Declares;
    assert bs[0] in bs && forall x | x in bs[1..] :: x in bs;
    if b != b' {
      var next := if bs[0].Turn? then seen + Ids(bs[0].results) else seen;
      if b != bs[0] && b' != bs[0] {
        UndeclaredIsOrphan(bs[1..], next, b, r, b');
      } else {
        CallAnswered(b', r.resultId);
        if b == bs[0] {
          InIds(b, r);
          SeenNotAnswered(bs[1..], next, b', r.resultId);
        } else {
          AnsweredInIds(b', r.resultId);
          InIds(b, r);
          SeenNotAnswered(bs[1..], next, b, r.resultId);
        }
      }
    }
  }

  lemma CallAnswered(b: Block, id: string)
    requires b.Turn? && Complete(b.call, b.results) && Declares(b.call, id)
    ensures id in Answers(b.results)
  {
  }

  lemma InIds(b: Block, r: Msg)
    requires b.Turn? && r in b.results
    ensures r.resultId in Answers(b.results) && (r.resultId != "" ==> r.resultId in Ids(b.results))
  {
  }

  lemma AnsweredInIds(b: Block, id: string)
    requires b.Turn? && id in Answers(b.results) && id != ""
    ensures id in Ids(b.results)
  {
  }

  lemma {:induction false} SeenNotAnswered(bs: seq<Block>, seen: set<string>, b: Block, id: string)
    requires Deduped(bs, seen) && b in bs && b.Turn? && id in seen && id != ""
    ensures id !in Answers(b.results)
    decreases |bs|
  {
    hide Dedup, Ids, Answers;
    if b == bs[0] {
      DedupAnswers(b.results, seen);
    } else {
      SeenNotAnswered(bs[1..], if bs[0].Turn? then seen + Ids(bs[0].results) else seen, b, id);
    }
  }

  /** Under NoReuse the orphans are exactly the results their own turns do not declare. */
  lemma OrphanExactly(h: seq<Msg>, b: Block, r: Msg)
    requires NoReuse(Gather(h)) && b in Blocks(h) && b.Turn? && r in b.results && r.resultId != ""
    requires !Declares(b.call, r.resultId)
    ensures r.resultId in OrphanResults(Sanitized(h))
  {
    hide Flatten, Gather, Prune, DeclaredIds, ResolvedIds, AllTools, NoReuse, NoReuseFrom, Deduped, TurnsComplete;
    var bs := Blocks(h);
    BlocksGood(h);
    BlockIds(bs);
    NothingSeen(Gather(h));
    PruneComplete(Gather(h), {});
    PruneDeduped(Gather(h), {});
    if r.resultId in DeclaredIds(Flatten(bs)) {
      var b', c :| b' in bs && b'.Turn? && c in b'.call.calls && c.id != "" && c.id == r.resultId;
      UndeclaredIsOrphan(bs, {}, b, r, b');
    }
  }

  lemma RepairSanitized(h: seq<Msg>, index: Option<CallIndex>, replay: Replay)
    requires index.Some? ==> Indexed(index.value)
    ensures Repaired(Sanitized(h), index, replay).0
            == Flatten(PatchBlocks(Blocks(h), OrphanResults(Sanitized(h)), Known(index)))
    ensures Repaired(Sanitized(h), index, replay).1.reinvoked == 0 && Repaired(Sanitized(h), index, replay).1.stubs == 0
    ensures AllWellFormed(PatchBlocks(Blocks(h), OrphanResults(Sanitized(h)), Known(index)))
  {
    hide Flatten, Gather, Prune, DeclaredIds, ResolvedIds, WithUses, UseCounts, Fill, FillCounts, AllWellFormed, NoSystem, PatchBlocks;
    var s, o, known := Sanitized(h), OrphanResults(Sanitized(h)), Known(index);
    BlocksGood(h);
    NothingToFill(h);
    UsesBlocks(Blocks(h), o, known);
    NothingOwed(WithUses(s, o, known), {}, known, replay, 0);
    if o == {} {
      NoOrphans(s, known);
    }
    if index.None? {
      UnknownSame(s, o);
    }
  }

  lemma {:induction false} UnknownSame(ms: seq<Msg>, orphans: set<string>)
    ensures WithUses(ms, orphans, map[]) == ms
    decreases |ms|
  {
    if ms != [] {
      UnknownSame(ms[1..], orphans);
      UnknownAdded(ms[1..], orphans);
      assert ms[0].calls + [] == ms[0].calls && ms == [ms[0]] + ms[1..];
    }
  }

  lemma {:induction false} UnknownAdded(after: seq<Msg>, orphans: set<string>)
    ensures Added(after, orphans, map[]) == []
    decreases |after|
  {
    if after != [] { UnknownAdded(after[1..], orphans); }
  }

  /** Main result: what the provider is sent is fully paired -- every call answered in the run after
      it, every result declared by the assistant that owns its run -- exactly if no complete turn
      reuses an answered id and every result left without a call is known to the transcript.  Repair
      then puts in no message. */
  lemma PairedExactly(h: seq<Msg>, index: Option<CallIndex>, replay: Replay)
    requires index.Some? ==> Indexed(index.value)
    ensures var (out, stats) := Repaired(Sanitized(h), index, replay);
            stats.reinvoked == 0 && stats.stubs == 0
            && (Answered(out) && Declared(out) <==> NoReuse(Gather(h)) && AllRepairable(Blocks(h), Known(index)))
  {
    hide Flatten, Gather, Prune, DeclaredIds, ResolvedIds, Repaired, AllWellFormed, NoSystem, PatchBlocks, NoReuse,
      NoReuseFrom, Answered, Declared, TurnsComplete, TurnsDeclare, OrphanResults;
    var s, o, known, bs := Sanitized(h), OrphanResults(Sanitized(h)), Known(index), Blocks(h);
    BlocksGood(h);
    RepairSanitized(h, index, replay);
    AnsweredBlocks(PatchBlocks(bs, o, known));
    OwnedBlocks(PatchBlocks(bs, o, known));
    PatchedTurns(bs, o, known);
    PatchedDeclared(bs, o, known);
    PruneComplete(Gather(h), {});
    NothingSeen(Gather(h));
    if NoReuse(Gather(h)) {
      forall b, r | b in bs && b.Turn? && r in b.results
        ensures Repairable(b.call, r, known)
                <==> Declares(b.call, r.resultId) || (r.resultId != "" && r.resultId in o && r.resultId in known)
      {
        if r.resultId != "" && !Declares(b.call, r.resultId) { OrphanExactly(h, b, r); }
      }
    }
  }

  /** Enough, and readable off the inputs: no result id in two separate tool runs, no empty result id,
      and a transcript that knows every result id. */
  lemma PairedEnough(h: seq<Msg>, index: CallIndex, replay: Replay)
    requires Indexed(index) && !Spans(h)
    requires forall m | m in h && m.role.Tool? :: m.resultId != "" && m.resultId in index
    ensures var out := Repaired(Sanitized(h), Some(index), replay).0; Answered(out) && Declared(out)
  {
    hide Flatten, Gather, Prune, DeclaredIds, ResolvedIds, Repaired, AllWellFormed, NoSystem, NoReuse, Answered, Declared,
      Spans, Owned, WellPreceded, Subsequence;
    UnspannedPaired(h);
    AnsweredExactly(h);
    PairedExactly(h, Some(index), replay);
    forall b, r | b in Blocks(h) && b.Turn? && r in b.results ensures Repairable(b.call, r, index) {
      ResultFromHistory(h, b, r);
    }
  }

  lemma ResultFromHistory(h: seq<Msg>, b: Block, r: Msg)
    requires b in Blocks(h) && b.Turn? && r in b.results
    ensures r in h && r.role.Tool?
  {
    hide Flatten, Gather, Prune, AllTools, Subsequence, NoSystem, Owned;
    BlocksGood(h);
    NothingStray(h);
    var k :| 0 <= k < |Blocks(h)| && Blocks(h)[k] == b;
    var x :| 0 <= x < |b.results| && b.results[x] == r;
    assert WellFormed(b);
    ToolAt(b.results, x);
    BlockAt(Blocks(h), k);
    assert Unblock(b)[x + 1] == r;
    var p := Start(Blocks(h), k) + (x + 1);
    assert Sanitized(h)[p] == r;
    SubMember(Sanitized(h), h, p);
  }

  lemma SubMember(x: seq<Msg>, h: seq<Msg>, p: nat)
    requires Subsequence(x, h) && p < |x|
    ensures x[p] in h
  {
    var f: seq<nat> :| Embeds(x, h, f);
    assert h[f[p]] == x[p];
  }
}
