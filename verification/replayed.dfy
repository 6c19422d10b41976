/** What repairHistory puts in, and where: which lost results are fetched again, which become stubs, and
    which calls an assistant is given. */
module ReplayedResults {
  import opened Json
  import opened GoStrings
  import opened History
  import opened Repair
  import opened RepairedHistory

  /** The tools that may be run again: they only read. */
  predicate Safe(name: string) {
    name == "web_search" || name == "web_fetch" || name == "read_file" || name == "list_dir" || name == "find_skills"
    || name == "agent_list" || name == "task_list" || name == "skills" || name == "find"
  }

  lemma SafeTools(name: string)
    ensures name in IDEMPOTENT <==> Safe(name)
  {
  }

  /** The index holds, for each id, its last call in the transcript. */
  lemma {:induction false} IndexLast(transcript: seq<Call>, id: string) returns (k: nat)
    requires id in IndexOf(transcript)
    ensures k < |transcript| && transcript[k] == IndexOf(transcript)[id] && transcript[k].id == id
    ensures forall j | k < j < |transcript| :: transcript[j].id != id
    decreases |transcript|
  {
    hide Indexed;
    var n := |transcript| - 1;
    if transcript[n].id == id {
      k := n;
    } else {
      k := IndexLast(transcript[..n], id);
      forall j | k < j < |transcript| ensures transcript[j].id != id {
        if j < n { assert transcript[..n][j] == transcript[j]; }
      }
    }
  }

  // ----- Put-in results -----

  /** The lost result of id is fetched again at this place of the output: the transcript knows a safe tool,
      and the tool answers. */
  predicate Fetched(id: string, index: CallIndex, replay: Replay, at: nat) {
    id in index && Safe(index[id].name) && replay(index[id], at).Some?
  }

  /** A note that the result is lost; it names the id. */
  ghost predicate Note(content: string, id: string) {
    "[omnipus:tool_result_recovered]" <= content && exists k :: Occurs(content, "id=" + id, k)
  }

  /** A result put in at this place. */
  ghost predicate PutIn(m: Msg, uses: set<string>, index: CallIndex, replay: Replay, at: nat) {
    m.role.Tool? && m.calls == [] && m.resultId in uses
    && if Fetched(m.resultId, index, replay, at) then m.content == replay(index[m.resultId], at).value
       else Note(m.content, m.resultId)
  }

  /** out is pat, in order, with results put in: a fetched ones and b notes. */
  ghost predicate FilledIn(pat: seq<Msg>, out: seq<Msg>, at: nat, a: nat, b: nat, uses: set<string>, index: CallIndex, replay: Replay)
    decreases |out|
  {
    (pat == [] && out == [] && a == b == 0)
    || (pat != [] && out != [] && pat[0] == out[0] && FilledIn(pat[1..], out[1..], at + 1, a, b, uses, index, replay))
    || (out != [] && PutIn(out[0], uses, index, replay, at)
        && if Fetched(out[0].resultId, index, replay, at) then a > 0 && FilledIn(pat, out[1..], at + 1, a - 1, b, uses, index, replay)
           else b > 0 && FilledIn(pat, out[1..], at + 1, a, b - 1, uses, index, replay))
  }

  lemma {:induction false} FilledConcat(p: seq<Msg>, x: seq<Msg>, q: seq<Msg>, y: seq<Msg>, at: nat, a: nat, b: nat, a': nat, b': nat,
                                        uses: set<string>, index: CallIndex, replay: Replay)
    requires FilledIn(p, x, at, a, b, uses, index, replay) && FilledIn(q, y, at + |x|, a', b', uses, index, replay)
    ensures FilledIn(p + q, x + y, at, a + a', b + b', uses, index, replay)
    decreases |x|
  {
    hide PutIn, Fetched;
    if p == [] && x == [] && a == b == 0 {
      assert p + q == q && x + y == y;
    } else {
      assert (x + y)[0] == x[0] && (x + y)[1..] == x[1..] + y;
      if p != [] && p[0] == x[0] && FilledIn(p[1..], x[1..], at + 1, a, b, uses, index, replay) {
        assert (p + q)[0] == p[0] && (p + q)[1..] == p[1..] + q;
        FilledConcat(p[1..], x[1..], q, y, at + 1, a, b, a', b', uses, index, replay);
      } else if Fetched(x[0].resultId, index, replay, at) {
        FilledConcat(p, x[1..], q, y, at + 1, a - 1, b, a', b', uses, index, replay);
      } else {
        FilledConcat(p, x[1..], q, y, at + 1, a, b - 1, a', b', uses, index, replay);
      }
    }
  }

  lemma {:induction false} FilledSame(p: seq<Msg>, at: nat, uses: set<string>, index: CallIndex, replay: Replay)
    ensures FilledIn(p, p, at, 0, 0, uses, index, replay)
    decreases |p|
  {
    hide PutIn, Fetched;
    if p != [] { FilledSame(p[1..], at + 1, uses, index, replay); }
  }

  lemma StubNote(id: string, index: CallIndex)
    ensures Note(StubText(id, index), id)
  {
    hide Note;
    if id in index {
      NoteAt(" The original result for " + index[id].name + " (", id, CALL_AGAIN, StubText(id, index));
    } else {
      NoteAt(" The original result for tool call ", id, ISSUE_AGAIN, StubText(id, index));
    }
  }

  lemma NoteAt(a: string, id: string, b: string, s: string)
    requires s == RECOVERED + a + ("id=" + id) + b
    ensures Note(s, id)
  {
    var key, front := "id=" + id, RECOVERED + a;
    assert s[|front|..|front| + |key|] == key;
    assert Occurs(s, key, |front|);
  }

  lemma OneSynth(id: string, uses: set<string>, index: CallIndex, replay: Replay, at: nat)
    requires id in uses
    ensures var m := SynthResult(id, index, replay, at);
            m.resultId == id && PutIn(m, uses, index, replay, at)
            && (TryReinvoke(id, index, replay, at).Some? <==> Fetched(id, index, replay, at))
  {
    hide StubText, Note;
    StubNote(id, index);
    if id in index { SafeTools(index[id].name); }
  }

  lemma OneFilled(m: Msg, uses: set<string>, index: CallIndex, replay: Replay, at: nat)
    requires PutIn(m, uses, index, replay, at)
    ensures var a := if Fetched(m.resultId, index, replay, at) then 1 else 0;
            FilledIn([], [m], at, a, 1 - a, uses, index, replay)
  {
    hide PutIn, Fetched;
    assert [m][1..] == [];
  }

  lemma {:induction false} SynthFilled(ids: seq<string>, uses: set<string>, index: CallIndex, replay: Replay, at: nat)
    requires forall id | id in ids :: id in uses
    ensures Again(ids, index, replay, at) <= |ids|
    ensures FilledIn([], Synth(ids, index, replay, at), at, Again(ids, index, replay, at), |ids| - Again(ids, index, replay, at),
                     uses, index, replay)
    decreases |ids|
  {
    hide SynthResult, TryReinvoke, PutIn, Fetched, FilledIn;
    if ids == [] {
      NothingFilled(at, uses, index, replay);
    } else {
      var n := |ids| - 1;
      var front, m := Synth(ids[..n], index, replay, at), SynthResult(ids[n], index, replay, at + n);
      SynthFilled(ids[..n], uses, index, replay, at);
      OneSynth(ids[n], uses, index, replay, at + n);
      OneFilled(m, uses, index, replay, at + n);
      var a, b := Again(ids[..n], index, replay, at), if Fetched(ids[n], index, replay, at + n) then 1 else 0;
      var none: seq<Msg> := [];
      assert none + none == none;
      FilledConcat(none, front, none, [m], at, a, n - a, b, 1 - b, uses, index, replay);
      assert Synth(ids, index, replay, at) == front + [m];
    }
  }

  lemma NothingFilled(at: nat, uses: set<string>, index: CallIndex, replay: Replay)
    ensures FilledIn([], [], at, 0, 0, uses, index, replay)
  {
  }

  lemma {:induction false} OwedUsed(calls: seq<Call>, uses: set<string>)
    ensures forall id | id in Owed(calls, uses) :: id in uses
    decreases |calls|
  {
    if calls != [] { OwedUsed(calls[1..], uses); }
  }

  lemma {:induction false} FillFilled(pat: seq<Msg>, uses: set<string>, index: CallIndex, replay: Replay, at: nat)
    ensures var (a, b) := FillCounts(pat, uses, index, replay, at);
            FilledIn(pat, Fill(pat, uses, index, replay, at), at, a, b, uses, index, replay)
    decreases |pat|
  {
    hide OwedBy, Synth, Again, RunLength, Fill, FillCounts, FilledIn, PutIn, Fetched;
    if pat == [] {
      NoFill(pat, uses, index, replay, at);
      NothingFilled(at, uses, index, replay);
    } else {
      var ids, m := OwedBy(pat[0], uses), pat[0];
      assert pat == [m] + pat[1..];
      FilledSame([m], at, uses, index, replay);
      if ids == [] {
        FillOne(pat, uses, index, replay, at);
        FillFilled(pat[1..], uses, index, replay, at + 1);
        var (a, b) := FillCounts(pat[1..], uses, index, replay, at + 1);
        FilledConcat([m], [m], pat[1..], Fill(pat[1..], uses, index, replay, at + 1), at, 0, 0, a, b, uses, index, replay);
      } else {
        var run := RunLength(pat[1..]);
        FillFilledRun(m, pat[1..][..run], pat[1..][run..], ids, uses, index, replay, at);
        FillRun(pat, uses, index, replay, at);
        assert pat == [m] + pat[1..][..run] + pat[1..][run..];
      }
    }
  }

  /** One assistant that owes results, its run, and the rest. */
  lemma FillFilledRun(m: Msg, run: seq<Msg>, rest: seq<Msg>, ids: seq<string>, uses: set<string>, index: CallIndex, replay: Replay, at: nat)
    requires OwedBy(m, uses) == ids
    ensures var (a, b) := FillCounts(rest, uses, index, replay, at + 1 + |run| + |ids|);
            var again := Again(ids, index, replay, at + 1 + |run|);
            again <= |ids|
            && FilledIn([m] + run + rest,
                        [m] + run + Synth(ids, index, replay, at + 1 + |run|)
                        + Fill(rest, uses, index, replay, at + 1 + |run| + |ids|),
                        at, a + again, b + (|ids| - again), uses, index, replay)
    decreases |rest| + 1, 0
  {
    hide Synth, Again, RunLength, Fill, FillCounts, FilledIn, PutIn, Fetched;
    OwedUsed(m.calls, uses);
    var head, place := [m] + run, at + 1 + |run|;
    var synth, more := Synth(ids, index, replay, place), Fill(rest, uses, index, replay, place + |ids|);
    SynthTools(ids, index, replay, place);
    FilledSame(head, at, uses, index, replay);
    SynthFilled(ids, uses, index, replay, place);
    FillFilled(rest, uses, index, replay, place + |ids|);
    var (a, b) := FillCounts(rest, uses, index, replay, place + |ids|);
    var again := Again(ids, index, replay, place);
    FilledConcat(head, head, [], synth, at, 0, 0, again, |ids| - again, uses, index, replay);
    FilledConcat(head + [], head + synth, rest, more, at, again, |ids| - again, a, b, uses, index, replay);
    assert head + [] == head;
  }

  // ----- Added calls -----

  /** A result with this id stands behind message i, before the next assistant. */
  predicate InWindow(ms: seq<Msg>, i: nat, id: string) {
    exists k :: i < k < |ms| && ms[k].role.Tool? && ms[k].resultId == id && forall j | i < j < k :: !ms[j].role.Assistant?
  }

  /** m' is message i, an assistant with more calls: the transcript's own calls, for exactly those orphan
      results in its window that the transcript knows. */
  ghost predicate GivenCalls(ms: seq<Msg>, i: nat, m': Msg, orphans: set<string>, index: CallIndex)
    requires i < |ms|
  {
    m' == ms[i].(calls := m'.calls) && ms[i].calls <= m'.calls
    && var more := m'.calls[|ms[i].calls|..];
       (forall c | c in more :: c.id in index && c == index[c.id])
       && forall id :: (exists c | c in more :: c.id == id)
                       <==> ms[i].role.Assistant? && id != "" && id in orphans && id in index && InWindow(ms, i, id)
  }

  lemma {:induction false} AddedExactly(after: seq<Msg>, orphans: set<string>, index: CallIndex)
    requires Indexed(index)
    ensures forall c | c in Added(after, orphans, index) :: c.id in index && c == index[c.id]
    ensures forall id :: (exists c | c in Added(after, orphans, index) :: c.id == id)
                         <==> id != "" && id in orphans && id in index && Stands(after, id)
    decreases |after|
  {
    hide Stands;
    StandsStep(after);
    if after != [] && !after[0].role.Assistant? {
      AddedExactly(after[1..], orphans, index);
    }
  }

  /** The same, in a list of its own. */
  predicate Stands(after: seq<Msg>, id: string) {
    exists k :: 0 <= k < |after| && after[k].role.Tool? && after[k].resultId == id && forall j | 0 <= j < k :: !after[j].role.Assistant?
  }

  lemma StandsStep(after: seq<Msg>)
    ensures after == [] || after[0].role.Assistant? ==> forall id :: !Stands(after, id)
    ensures after != [] && !after[0].role.Assistant? ==>
              forall id :: Stands(after, id) <==> (after[0].role.Tool? && after[0].resultId == id) || Stands(after[1..], id)
  {
    if after != [] && !after[0].role.Assistant? {
      var rest := after[1..];
      assert forall k | 0 <= k < |rest| :: rest[k] == after[k + 1];
      forall id | Stands(after, id) ensures (after[0].role.Tool? && after[0].resultId == id) || Stands(rest, id) {
        var k :| 0 <= k < |after| && after[k].role.Tool? && after[k].resultId == id && forall j | 0 <= j < k :: !after[j].role.Assistant?;
        if k > 0 { assert rest[k - 1] == after[k]; }
      }
      forall id | Stands(rest, id) ensures Stands(after, id) {
        var k :| 0 <= k < |rest| && rest[k].role.Tool? && rest[k].resultId == id && forall j | 0 <= j < k :: !rest[j].role.Assistant?;
        assert after[k + 1] == rest[k];
        forall j | 0 <= j < k + 1 ensures !after[j].role.Assistant? { if j > 0 { assert after[j] == rest[j - 1]; } }
      }
    }
  }

  lemma WindowStands(ms: seq<Msg>, i: nat, id: string)
    requires i < |ms|
    ensures InWindow(ms, i, id) <==> Stands(ms[i + 1..], id)
  {
    var after := ms[i + 1..];
    assert forall k | 0 <= k < |after| :: after[k] == ms[i + 1 + k];
    if InWindow(ms, i, id) {
      var k :| i < k < |ms| && ms[k].role.Tool? && ms[k].resultId == id && forall j | i < j < k :: !ms[j].role.Assistant?;
      assert after[k - i - 1] == ms[k];
    }
    if Stands(after, id) {
      var k :| 0 <= k < |after| && after[k].role.Tool? && after[k].resultId == id && forall j | 0 <= j < k :: !after[j].role.Assistant?;
      assert ms[i + 1 + k] == after[k];
      forall j | i < j < i + 1 + k ensures !ms[j].role.Assistant? { assert ms[j] == after[j - i - 1]; }
    }
  }

  lemma PatchGives(ms: seq<Msg>, i: nat, orphans: set<string>, index: CallIndex)
    requires Indexed(index) && i < |ms|
    ensures GivenCalls(ms, i, Patch(ms[i], ms[i + 1..], orphans, index), orphans, index)
  {
    hide Added, Stands, InWindow;
    AddedExactly(ms[i + 1..], orphans, index);
    forall id ensures InWindow(ms, i, id) <==> Stands(ms[i + 1..], id) { WindowStands(ms, i, id); }
    var m' := Patch(ms[i], ms[i + 1..], orphans, index);
    if ms[i].role.Assistant? {
      assert m'.calls[|ms[i].calls|..] == Added(ms[i + 1..], orphans, index);
    } else {
      assert m'.calls[|ms[i].calls|..] == [];
    }
  }

  // ----- The whole repair -----

  /** Main result.  With a transcript, repair first gives every assistant the transcript's calls for the
      orphan results in its window, and then puts in a result for unanswered ids only: the fresh answer
      of the tool if the transcript knows the call as one of a safe tool and the tool answers, else a
      note.  The counters count the two. */
  lemma RepairPutsIn(ms: seq<Msg>, index: CallIndex, replay: Replay) returns (pat: seq<Msg>)
    requires Indexed(index)
    ensures var (out, stats) := Repaired(ms, Some(index), replay);
            |pat| == |ms| && (forall i | 0 <= i < |ms| :: GivenCalls(ms, i, pat[i], ResolvedIds(ms) - DeclaredIds(ms), index))
            && FilledIn(pat, out, 0, stats.reinvoked, stats.stubs, DeclaredIds(ms) - ResolvedIds(ms), index, replay)
  {
    hide ResolvedIds, DeclaredIds, GivenCalls, FilledIn, Fill, FillCounts, UseCounts, Patch, WithUses;
    var orphans := OrphanResults(ms);
    pat := WithUses(ms, orphans, index);
    WithUsesLength(ms, orphans, index);
    forall i | 0 <= i < |ms| ensures GivenCalls(ms, i, pat[i], orphans, index) {
      PatchGives(ms, i, orphans, index);
    }
    if orphans == {} && OrphanUses(ms) == {} {
      NoOrphans(ms, index);
      FilledSame(ms, 0, {}, index, replay);
    } else {
      FillFilled(pat, OrphanUses(ms), index, replay, 0);
    }
  }

  /** Main result.  Without an unanswered call of a safe tool nothing is run: whatever the tools would
      answer, the result is the same, and nothing counts as fetched. */
  lemma UnsafeNeverRuns(ms: seq<Msg>, index: CallIndex, replay: Replay, replay': Replay)
    requires forall id | id in DeclaredIds(ms) - ResolvedIds(ms) && id in index :: !Safe(index[id].name)
    ensures Repaired(ms, Some(index), replay) == Repaired(ms, Some(index), replay')
    ensures Repaired(ms, Some(index), replay).1.reinvoked == 0
  {
    hide ResolvedIds, DeclaredIds, Fill, FillCounts, UseCounts, WithUses, TryReinvoke;
    var uses := OrphanUses(ms);
    forall id, r: Replay, at: nat | id in uses ensures TryReinvoke(id, index, r, at) == None { NotRun(id, index, r, at); }
    FillUnsafe(WithUses(ms, OrphanResults(ms), index), uses, index, replay, replay', 0);
  }

  lemma NotRun(id: string, index: CallIndex, replay: Replay, at: nat)
    requires id in index ==> !Safe(index[id].name)
    ensures TryReinvoke(id, index, replay, at) == None
  {
    if id in index { SafeTools(index[id].name); }
  }

  lemma {:induction false} FillUnsafe(pat: seq<Msg>, uses: set<string>, index: CallIndex, replay: Replay, replay': Replay, at: nat)
    requires forall id, r: Replay, at: nat | id in uses :: TryReinvoke(id, index, r, at) == None
    ensures Fill(pat, uses, index, replay, at) == Fill(pat, uses, index, replay', at)
    ensures FillCounts(pat, uses, index, replay, at) == FillCounts(pat, uses, index, replay', at)
    ensures FillCounts(pat, uses, index, replay, at).0 == 0
    decreases |pat|
  {
    hide OwedBy, Synth, Again, RunLength, Fill, FillCounts, TryReinvoke;
    if pat == [] {
      NoFill(pat, uses, index, replay, at);
      NoFill(pat, uses, index, replay', at);
    } else {
      var ids, run := OwedBy(pat[0], uses), RunLength(pat[1..]);
      if ids == [] {
        FillOne(pat, uses, index, replay, at);
        FillOne(pat, uses, index, replay', at);
        FillUnsafe(pat[1..], uses, index, replay, replay', at + 1);
      } else {
        FillRun(pat, uses, index, replay, at);
        FillRun(pat, uses, index, replay', at);
        OwedByUsed(pat[0], uses);
        SynthUnsafe(ids, index, replay, replay', at + 1 + run);
        FillUnsafe(pat[1..][run..], uses, index, replay, replay', at + 1 + run + |ids|);
      }
    }
  }

  lemma OwedByUsed(m: Msg, uses: set<string>)
    ensures forall id | id in OwedBy(m, uses) :: id in uses
  {
    OwedUsed(m.calls, uses);
  }

  lemma {:induction false} SynthUnsafe(ids: seq<string>, index: CallIndex, replay: Replay, replay': Replay, at: nat)
    requires forall id, r: Replay, at: nat | id in ids :: TryReinvoke(id, index, r, at) == None
    ensures Synth(ids, index, replay, at) == Synth(ids, index, replay', at)
    ensures Again(ids, index, replay, at) == Again(ids, index, replay', at) == 0
    decreases |ids|
  {
    hide TryReinvoke, StubText;
    if ids != [] {
      SynthUnsafe(ids[..|ids| - 1], index, replay, replay', at);
    }
  }

  // ----- Where the results go -----

  /** Every call of ms with an id in uses is answered in the tool run right after its assistant. */
  ghost predicate AnsweredInRun(ms: seq<Msg>, uses: set<string>) {
    forall i, c | 0 <= i < |ms| && ms[i].role.Assistant? && c in ms[i].calls && c.id in uses :: RunAnswers(ms, i, c.id)
  }

  ghost predicate RunAnswers(ms: seq<Msg>, i: nat, id: string) {
    exists j: nat :: InRunOf(ms, i, j) && ms[j].resultId == id
  }

  lemma AnswersShift(front: seq<Msg>, ms: seq<Msg>, i: nat, id: string)
    requires RunAnswers(ms, i, id)
    ensures RunAnswers(front + ms, |front| + i, id)
  {
    var j: nat :| InRunOf(ms, i, j) && ms[j].resultId == id;
    var all, n := front + ms, |front|;
    assert forall x | n <= x < |all| :: all[x] == ms[x - n];
    var i', j' := n + i, n + j;
    assert all[j'] == ms[j];
    assert InRunOf(all, i', j');
  }

  lemma OwnAnswers(m: Msg, tools: seq<Msg>, rest: seq<Msg>, id: string)
    requires AllTools(tools) && id in Answers(tools)
    ensures RunAnswers([m] + tools + rest, 0, id)
  {
    var r :| r in tools && r.resultId == id;
    var k :| 0 <= k < |tools| && tools[k] == r;
    var all := [m] + tools + rest;
    forall j | 0 < j <= k + 1 ensures all[j].role.Tool? { assert all[j] == tools[j - 1] && all[j] in tools; }
    assert InRunOf(all, 0, k + 1) && all[k + 1] == r;
  }

  /** A first message whose calls are answered by the tools behind it, before a list that is answered. */
  lemma AnsweredCons(m: Msg, tools: seq<Msg>, rest: seq<Msg>, uses: set<string>)
    requires AllTools(tools) && AnsweredInRun(rest, uses)
    requires m.role.Assistant? ==> forall c | c in m.calls && c.id in uses :: c.id in Answers(tools)
    ensures AnsweredInRun([m] + tools + rest, uses)
  {
    hide Answers, RunAnswers;
    var all, front := [m] + tools + rest, [m] + tools;
    assert forall i | 0 < i <= |tools| :: all[i] == tools[i - 1] && all[i] in tools;
    forall i, c | 0 <= i < |all| && all[i].role.Assistant? && c in all[i].calls && c.id in uses ensures RunAnswers(all, i, c.id) {
      if i == 0 {
        OwnAnswers(m, tools, rest, c.id);
      } else {
        assert all == front + rest && all[i] == rest[i - |front|];
        AnswersShift(front, rest, i - |front|, c.id);
      }
    }
  }

  lemma {:induction false} OwedAll(calls: seq<Call>, uses: set<string>)
    ensures forall c | c in calls && c.id in uses :: c.id in Owed(calls, uses)
    decreases |calls|
  {
    if calls != [] {
      OwedAll(calls[1..], uses);
      assert calls == [calls[0]] + calls[1..];
    }
  }

  lemma {:induction false} FillAnswers(pat: seq<Msg>, uses: set<string>, index: CallIndex, replay: Replay, at: nat)
    ensures AnsweredInRun(Fill(pat, uses, index, replay, at), uses)
    decreases |pat|
  {
    hide OwedBy, Synth, RunLength, Fill, AnsweredInRun, AllTools, Answers;
    if pat == [] {
      NoFill(pat, uses, index, replay, at);
      NothingAnswered(uses);
    } else {
      var m, ids := pat[0], OwedBy(pat[0], uses);
      OwedByAll(m, uses);
      if ids == [] {
        FillOne(pat, uses, index, replay, at);
        FillAnswers(pat[1..], uses, index, replay, at + 1);
        var rest := Fill(pat[1..], uses, index, replay, at + 1);
        NoTools();
        AnsweredCons(m, [], rest, uses);
        assert [m] + [] + rest == [m] + rest;
      } else {
        var synth, at' := FillParts(pat, uses, index, replay, at);
        Parts(pat);
        var run, rest := RunOf(pat), Fill(RestOf(pat), uses, index, replay, at');
        FillAnswers(RestOf(pat), uses, index, replay, at');
        SynthAnswers(run, synth, ids);
        AnsweredCons(m, run + synth, rest, uses);
        assert [m] + (run + synth) + rest == [m] + run + synth + rest;
      }
    }
  }

  lemma OwedByAll(m: Msg, uses: set<string>)
    ensures m.role.Assistant? ==> forall c | c in m.calls && c.id in uses :: c.id in OwedBy(m, uses)
  {
    OwedAll(m.calls, uses);
  }

  lemma NothingAnswered(uses: set<string>)
    ensures AnsweredInRun([], uses)
  {
  }

  lemma NoTools()
    ensures AllTools([])
  {
  }

  lemma SynthAnswers(run: seq<Msg>, synth: seq<Msg>, ids: seq<string>)
    requires AllTools(run) && AllTools(synth) && |synth| == |ids| && forall i | 0 <= i < |ids| :: synth[i].resultId == ids[i]
    ensures AllTools(run + synth) && forall id | id in ids :: id in Answers(run + synth)
  {
    forall id | id in ids ensures id in Answers(run + synth) {
      var i :| 0 <= i < |ids| && ids[i] == id;
      assert synth[i] in run + synth;
    }
  }

  /** The results put in stand where they belong: after a repair every call that was unanswered is answered
      in the tool run of the assistant that makes it. */
  lemma RepairPlaces(ms: seq<Msg>, index: CallIndex, replay: Replay)
    ensures AnsweredInRun(Repaired(ms, Some(index), replay).0, DeclaredIds(ms) - ResolvedIds(ms))
  {
    hide ResolvedIds, DeclaredIds, Fill, FillCounts, UseCounts, WithUses, AnsweredInRun;
    var uses := OrphanUses(ms);
    if OrphanResults(ms) == {} && uses == {} {
      NoUsesAnswered(ms);
    } else {
      FillAnswers(WithUses(ms, OrphanResults(ms), index), uses, index, replay, 0);
    }
  }

  lemma NoUsesAnswered(ms: seq<Msg>)
    ensures AnsweredInRun(ms, {})
  {
  }
}
