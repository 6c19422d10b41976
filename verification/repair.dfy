/** pkg/agent/repair.go: rebuilding lost tool calls and tool results from the session transcript. */
module Repair {
  import opened Json
  import opened History

  /** loadTranscriptToolCalls: every call of the transcript by its id. */
  type CallIndex = map<string, Call>

  predicate Indexed(index: CallIndex) {
    "" !in index && forall id | id in index :: index[id].id == id
  }

  /** The transcript's tool calls, oldest first; a later call of one id replaces an earlier one. */
  function IndexOf(transcript: seq<Call>): (index: CallIndex)
    ensures Indexed(index)
    ensures forall id :: id in index <==> id != "" && exists c | c in transcript :: c.id == id
  {
    if transcript == [] then map[]
    else
      var n := |transcript| - 1;
      var before, c := IndexOf(transcript[..n]), transcript[n];
      assert transcript == transcript[..n] + [c];
      if c.id == "" then before else before[c.id := c]
  }

  datatype Stats = Stats(uses: nat, reinvoked: nat, stubs: nat, unrepairable: nat)

  const NONE := Stats(0, 0, 0, 0)

  // ----- Ids -----

  function DeclaredIds(ms: seq<Msg>): set<string> {
    set m, c | m in ms && m.role.Assistant? && c in m.calls && c.id != "" :: c.id
  }

  function ResolvedIds(ms: seq<Msg>): set<string> {
    set m | m in ms && m.role.Tool? && m.resultId != "" :: m.resultId
  }

  lemma IdsConcat(a: seq<Msg>, b: seq<Msg>)
    ensures DeclaredIds(a + b) == DeclaredIds(a) + DeclaredIds(b)
    ensures ResolvedIds(a + b) == ResolvedIds(a) + ResolvedIds(b)
  {
    assert forall m :: m in a + b <==> m in a || m in b;
  }

  lemma IdsOne(m: Msg)
    ensures DeclaredIds([m]) == if m.role.Assistant? then (set c | c in m.calls && c.id != "" :: c.id) else {}
    ensures ResolvedIds([m]) == if m.role.Tool? && m.resultId != "" then {m.resultId} else {}
  {
  }

  method CollectToolIDs(messages: seq<Msg>) returns (declared: set<string>, resolved: set<string>)
    ensures declared == DeclaredIds(messages) && resolved == ResolvedIds(messages)
  {
    hide DeclaredIds, ResolvedIds;
    declared, resolved := {}, {};
    NoIdsAtAll();
    assert messages[..0] == [];
    for i := 0 to |messages|
      invariant declared == DeclaredIds(messages[..i]) && resolved == ResolvedIds(messages[..i])
    {
      var m := messages[i];
      assert messages[..i + 1] == messages[..i] + [m];
      IdsConcat(messages[..i], [m]);
      IdsOne(m);
      match m.role {
        case Assistant =>
          for k := 0 to |m.calls|
            invariant declared == DeclaredIds(messages[..i]) + set c | c in m.calls[..k] && c.id != "" :: c.id
          {
            assert m.calls[..k + 1] == m.calls[..k] + [m.calls[k]];
            if m.calls[k].id != "" {
              declared := declared + {m.calls[k].id};
            }
          }
          assert m.calls[..|m.calls|] == m.calls;
        case Tool =>
          if m.resultId != "" {
            resolved := resolved + {m.resultId};
          }
        case _ =>
      }
    }
    assert messages[..|messages|] == messages;
  }

  lemma NoIdsAtAll()
    ensures DeclaredIds([]) == {} && ResolvedIds([]) == {}
  {
  }

  // ----- Missing calls -----

  /** The calls added to an assistant, from the messages after it: one for each orphan result before
      the next assistant that the transcript knows. */
  function Added(after: seq<Msg>, orphans: set<string>, index: CallIndex): seq<Call> {
    if after == [] || after[0].role.Assistant? then []
    else
      var m := after[0];
      (if m.role.Tool? && m.resultId != "" && m.resultId in orphans && m.resultId in index then [index[m.resultId]] else [])
      + Added(after[1..], orphans, index)
  }

  /** The orphan results there that the transcript does not know. */
  function Missed(after: seq<Msg>, orphans: set<string>, index: CallIndex): nat {
    if after == [] || after[0].role.Assistant? then 0
    else
      var m := after[0];
      (if m.role.Tool? && m.resultId != "" && m.resultId in orphans && m.resultId !in index then 1 else 0)
      + Missed(after[1..], orphans, index)
  }

  function Patch(m: Msg, after: seq<Msg>, orphans: set<string>, index: CallIndex): Msg {
    if m.role.Assistant? then m.(calls := m.calls + Added(after, orphans, index)) else m
  }

  function WithUses(ms: seq<Msg>, orphans: set<string>, index: CallIndex): seq<Msg> {
    if ms == [] then []
    else [Patch(ms[0], ms[1..], orphans, index)] + WithUses(ms[1..], orphans, index)
  }

  /** How many calls are added, and how many orphans stay. */
  function UseCounts(ms: seq<Msg>, orphans: set<string>, index: CallIndex): (nat, nat) {
    if ms == [] then (0, 0)
    else
      var (u, k) := UseCounts(ms[1..], orphans, index);
      if ms[0].role.Assistant? then
        (|Added(ms[1..], orphans, index)| + u, Missed(ms[1..], orphans, index) + k)
      else (u, k)
  }

  lemma {:induction false} WithUsesLength(ms: seq<Msg>, orphans: set<string>, index: CallIndex)
    ensures |WithUses(ms, orphans, index)| == |ms|
    ensures forall i | 0 <= i < |ms| :: WithUses(ms, orphans, index)[i] == Patch(ms[i], ms[i + 1..], orphans, index)
    decreases |ms|
  {
    hide Patch;
    if ms != [] {
      WithUsesLength(ms[1..], orphans, index);
      forall i | 0 <= i < |ms| ensures WithUses(ms, orphans, index)[i] == Patch(ms[i], ms[i + 1..], orphans, index) {
        if i > 0 { assert ms[1..][i - 1] == ms[i] && ms[1..][i..] == ms[i + 1..]; }
      }
    }
  }

  lemma AddedStep(all: seq<Msg>, j: nat, orphans: set<string>, index: CallIndex)
    requires j < |all|
    ensures var m := all[j];
            var orphan := m.role.Tool? && m.resultId != "" && m.resultId in orphans;
            if m.role.Assistant? then Added(all[j..], orphans, index) == [] && Missed(all[j..], orphans, index) == 0
            else
              Added(all[j..], orphans, index)
                == (if orphan && m.resultId in index then [index[m.resultId]] else []) + Added(all[j + 1..], orphans, index)
              && Missed(all[j..], orphans, index)
                 == (if orphan && m.resultId !in index then 1 else 0) + Missed(all[j + 1..], orphans, index)
    ensures Added(all[|all|..], orphans, index) == [] && Missed(all[|all|..], orphans, index) == 0
  {
    assert all[j..][0] == all[j] && all[j..][1..] == all[j + 1..];
  }

  method SyntheticToolUsesForAssistant(all: seq<Msg>, assistantIdx: nat, orphans: set<string>, index: CallIndex)
    returns (added: seq<Call>, unrepairable: nat)
    requires assistantIdx < |all|
    ensures added == Added(all[assistantIdx + 1..], orphans, index)
    ensures unrepairable == Missed(all[assistantIdx + 1..], orphans, index)
  {
    hide Added, Missed;
    added, unrepairable := [], 0;
    var j := assistantIdx + 1;
    AddedStep(all, assistantIdx, orphans, index);
    while j < |all|
      invariant assistantIdx + 1 <= j <= |all|
      invariant added + Added(all[j..], orphans, index) == Added(all[assistantIdx + 1..], orphans, index)
      invariant unrepairable + Missed(all[j..], orphans, index) == Missed(all[assistantIdx + 1..], orphans, index)
    {
      var next := all[j];
      AddedStep(all, j, orphans, index);
      if next.role.Assistant? {
        break;
      }
      j := j + 1;
      if !next.role.Tool? || next.resultId == "" || next.resultId !in orphans {
        continue;
      }
      if next.resultId !in index {
        unrepairable := unrepairable + 1;
        continue;
      }
      added := added + [index[next.resultId]];
    }
    assert added + [] == added;
  }

  /** Adding calls to one assistant does not change what is added to another. */
  lemma {:induction false} AddedSame(a: seq<Msg>, b: seq<Msg>, orphans: set<string>, index: CallIndex)
    requires |a| == |b| && forall i | 0 <= i < |a| :: a[i].role == b[i].role && a[i].resultId == b[i].resultId
    ensures Added(a, orphans, index) == Added(b, orphans, index) && Missed(a, orphans, index) == Missed(b, orphans, index)
    decreases |a|
  {
    if a != [] {
      assert forall i | 0 <= i < |a| - 1 :: a[1..][i] == a[i + 1] && b[1..][i] == b[i + 1];
      AddedSame(a[1..], b[1..], orphans, index);
    }
  }

  lemma UseCountsStep(ms: seq<Msg>, i: nat, orphans: set<string>, index: CallIndex)
    requires i < |ms|
    ensures var (u, k), (u', k') := UseCounts(ms[i..], orphans, index), UseCounts(ms[i + 1..], orphans, index);
            (u, k) == if ms[i].role.Assistant?
                      then (|Added(ms[i + 1..], orphans, index)| + u', Missed(ms[i + 1..], orphans, index) + k')
                      else (u', k')
  {
    assert ms[i..][0] == ms[i] && ms[i..][1..] == ms[i + 1..];
  }

  method InjectSyntheticToolUses(messages: seq<Msg>, orphans: set<string>, index: CallIndex, stats: Stats)
    returns (out: seq<Msg>, stats': Stats)
    ensures out == WithUses(messages, orphans, index)
    ensures var (u, k) := UseCounts(messages, orphans, index);
            stats' == stats.(uses := stats.uses + u, unrepairable := stats.unrepairable + k)
  {
    hide Added, Missed, UseCounts;
    out, stats' := messages, stats;
    WithUsesLength(messages, orphans, index);
    assert messages[0..] == messages;
    for i := 0 to |messages|
      invariant |out| == |messages|
      invariant forall k | 0 <= k < |messages| ::
                  out[k] == if k < i then Patch(messages[k], messages[k + 1..], orphans, index) else messages[k]
      invariant stats'.reinvoked == stats.reinvoked && stats'.stubs == stats.stubs
      invariant var (u, k) := UseCounts(messages[i..], orphans, index);
                var (u', k') := UseCounts(messages, orphans, index);
                stats'.uses + u == stats.uses + u' && stats'.unrepairable + k == stats.unrepairable + k'
    {
      UseCountsStep(messages, i, orphans, index);
      if !out[i].role.Assistant? {
        continue;
      }
      var added, missed := SyntheticToolUsesForAssistant(out, i, orphans, index);
      assert out[i + 1..] == messages[i + 1..];
      stats' := stats'.(uses := stats'.uses + |added|, unrepairable := stats'.unrepairable + missed);
      if |added| == 0 {
        assert messages[i].calls + [] == messages[i].calls;
        continue;
      }
      out := out[i := out[i].(calls := out[i].calls + added)];
    }
    NoCounts(messages[|messages|..], orphans, index);
    assert out == WithUses(messages, orphans, index);
  }

  lemma NoCounts(ms: seq<Msg>, orphans: set<string>, index: CallIndex)
    requires ms == []
    ensures UseCounts(ms, orphans, index) == (0, 0)
  {
  }

  // ----- Missing results -----

  const IDEMPOTENT := {"web_search", "web_fetch", "read_file", "list_dir", "find_skills", "agent_list", "task_list", "skills", "find"}

  /** What running a tool again gives: None without a registry, under a denying policy, on an error.
      Tools need not answer twice alike, so the place of the result in the output is a parameter. */
  type Replay = (Call, nat) -> Option<string>

  function TryReinvoke(id: string, index: CallIndex, replay: Replay, at: nat): Option<string> {
    if id in index && index[id].name in IDEMPOTENT then replay(index[id], at) else None
  }

  const RECOVERED := "[omnipus:tool_result_recovered]"

  const CALL_AGAIN := ") was lost in the stream. If this information is still needed, call the tool again. Do NOT assume success or failure."

  const ISSUE_AGAIN := " was lost in the stream and cannot be reconstructed. If this information is still needed, re-issue the tool call."

  function StubText(id: string, index: CallIndex): string {
    if id in index then RECOVERED + (" The original result for " + index[id].name + " (") + ("id=" + id) + CALL_AGAIN
    else RECOVERED + " The original result for tool call " + ("id=" + id) + ISSUE_AGAIN
  }

  function SynthResult(id: string, index: CallIndex, replay: Replay, at: nat): Msg {
    var again := TryReinvoke(id, index, replay, at);
    Msg(Tool, [], id, if again.Some? then again.value else StubText(id, index))
  }

  function Synth(ids: seq<string>, index: CallIndex, replay: Replay, at: nat): seq<Msg> {
    seq(|ids|, i requires 0 <= i < |ids| => SynthResult(ids[i], index, replay, at + i))
  }

  /** The unanswered ids of an assistant, in the order of its calls. */
  function Owed(calls: seq<Call>, uses: set<string>): seq<string> {
    if calls == [] then []
    else (if calls[0].id in uses then [calls[0].id] else []) + Owed(calls[1..], uses)
  }

  function OwedBy(m: Msg, uses: set<string>): seq<string> {
    if m.role.Assistant? then Owed(m.calls, uses) else []
  }

  /** The messages with the missing results at the end of each tool run, when at messages are already
      out. */
  function Fill(ms: seq<Msg>, uses: set<string>, index: CallIndex, replay: Replay, at: nat): seq<Msg>
    decreases |ms|
  {
    if ms == [] then []
    else
      var ids, run := OwedBy(ms[0], uses), RunLength(ms[1..]);
      if ids == [] then [ms[0]] + Fill(ms[1..], uses, index, replay, at + 1)
      else
        [ms[0]] + ms[1..][..run] + Synth(ids, index, replay, at + 1 + run)
        + Fill(ms[1..][run..], uses, index, replay, at + 1 + run + |ids|)
  }

  function Again(ids: seq<string>, index: CallIndex, replay: Replay, at: nat): nat {
    if ids == [] then 0
    else
      var n := |ids| - 1;
      Again(ids[..n], index, replay, at) + if TryReinvoke(ids[n], index, replay, at + n).Some? then 1 else 0
  }

  /** How many results are replayed, and how many are stubs. */
  function FillCounts(ms: seq<Msg>, uses: set<string>, index: CallIndex, replay: Replay, at: nat): (r: (nat, nat))
    decreases |ms|
  {
    if ms == [] then (0, 0)
    else
      var ids, run := OwedBy(ms[0], uses), RunLength(ms[1..]);
      if ids == [] then FillCounts(ms[1..], uses, index, replay, at + 1)
      else
        var (a, b) := FillCounts(ms[1..][run..], uses, index, replay, at + 1 + run + |ids|);
        var again := Again(ids, index, replay, at + 1 + run);
        (a + again, b + if again <= |ids| then |ids| - again else 0)
  }

  lemma {:induction false} AgainBound(ids: seq<string>, index: CallIndex, replay: Replay, at: nat)
    ensures Again(ids, index, replay, at) <= |ids|
    decreases |ids|
  {
    if ids != [] { AgainBound(ids[..|ids| - 1], index, replay, at); }
  }

  /** The orphan ids of one assistant. */
  method OrphanIds(m: Msg, uses: set<string>) returns (ids: seq<string>)
    ensures ids == OwedBy(m, uses)
  {
    ids := [];
    if !m.role.Assistant? {
      return;
    }
    assert m.calls[0..] == m.calls;
    for k := 0 to |m.calls|
      invariant ids + Owed(m.calls[k..], uses) == Owed(m.calls, uses)
    {
      assert m.calls[k..][0] == m.calls[k] && m.calls[k..][1..] == m.calls[k + 1..];
      if m.calls[k].id in uses {
        ids := ids + [m.calls[k].id];
      }
    }
    assert ids + [] == ids;
  }

  /** One result per unanswered call, counted as replayed or as a stub. */
  method AppendResults(out: seq<Msg>, ids: seq<string>, index: CallIndex, replay: Replay, stats: Stats)
    returns (out': seq<Msg>, stats': Stats)
    ensures out' == out + Synth(ids, index, replay, |out|)
    ensures var again := Again(ids, index, replay, |out|);
            again <= |ids|
            && stats' == stats.(reinvoked := stats.reinvoked + again, stubs := stats.stubs + (|ids| - again))
  {
    hide TryReinvoke, StubText;
    out', stats' := out, stats;
    assert ids[..0] == [];
    for i := 0 to |ids|
      invariant |out'| == |out| + i && out' == out + Synth(ids, index, replay, |out|)[..i]
      invariant Again(ids[..i], index, replay, |out|) <= i
      invariant stats' == stats.(reinvoked := stats.reinvoked + Again(ids[..i], index, replay, |out|),
                                 stubs := stats.stubs + (i - Again(ids[..i], index, replay, |out|)))
    {
      assert ids[..i + 1][..i] == ids[..i];
      var content := TryReinvoke(ids[i], index, replay, |out'|);
      if content.None? {
        content := Some(StubText(ids[i], index));
        stats' := stats'.(stubs := stats'.stubs + 1);
      } else {
        stats' := stats'.(reinvoked := stats'.reinvoked + 1);
      }
      ghost var all := Synth(ids, index, replay, |out|);
      assert all[..i + 1] == all[..i] + [all[i]];
      out' := out' + [Msg(Tool, [], ids[i], content.value)];
    }
    assert ids[..|ids|] == ids;
  }

  /** The walk is at message i: what is out, and what the rest will add. */
  ghost predicate Walked(messages: seq<Msg>, uses: set<string>, index: CallIndex, replay: Replay, start: nat,
                         i: nat, out: seq<Msg>, stats: Stats, stats0: Stats)
  {
    && i <= |messages|
    && out + Fill(messages[i..], uses, index, replay, |out|) == Fill(messages, uses, index, replay, start)
    && var (a, b) := FillCounts(messages[i..], uses, index, replay, |out|);
       var (a', b') := FillCounts(messages, uses, index, replay, start);
       stats.reinvoked + a == stats0.reinvoked + a' && stats.stubs + b == stats0.stubs + b'
       && stats.uses == stats0.uses && stats.unrepairable == stats0.unrepairable
  }

  method InjectSyntheticToolResults(messages: seq<Msg>, uses: set<string>, index: CallIndex, replay: Replay, stats: Stats)
    returns (out: seq<Msg>, stats': Stats)
    ensures out == Fill(messages, uses, index, replay, 0)
    ensures var (a, b) := FillCounts(messages, uses, index, replay, 0);
            stats' == stats.(reinvoked := stats.reinvoked + a, stubs := stats.stubs + b)
  {
    hide Walked, OwedBy, Synth, Again, RunLength;
    out, stats' := [], stats;
    WalkedStart(messages, uses, index, replay, stats);
    var i := 0;
    while i < |messages|
      invariant i <= |messages| && Walked(messages, uses, index, replay, 0, i, out, stats', stats)
      decreases |messages| - i
    {
      var m := messages[i];
      var ids := OrphanIds(m, uses);
      if ids == [] {
        WalkedOne(messages, uses, index, replay, i, out, stats', stats);
        out := out + [m];
        i := i + 1;
        continue;
      }
      ghost var before, was := out, stats';
      out := out + [m];
      var j := i + 1;
      assert messages[i + 1..][..0] == [] && out + [] == out;
      while j < |messages| && messages[j].role.Tool?
        invariant i + 1 <= j <= |messages|
        invariant RunLength(messages[i + 1..]) == j - i - 1 + RunLength(messages[j..])
        invariant out == before + [m] + messages[i + 1..][..j - i - 1]
      {
        RunAt(messages, j);
        assert messages[i + 1..][..j - i] == messages[i + 1..][..j - i - 1] + [messages[j]];
        out := out + [messages[j]];
        j := j + 1;
      }
      RunAt(messages, j);
      out, stats' := AppendResults(out, ids, index, replay, stats');
      WalkedRun(messages, uses, index, replay, i, j, before, was, stats, ids, out, stats');
      i := j;
    }
    WalkedEnd(messages, uses, index, replay, i, out, stats', stats);
  }

  lemma RunAt(ms: seq<Msg>, j: nat)
    requires j <= |ms|
    ensures RunLength(ms[j..]) == if j < |ms| && ms[j].role.Tool? then 1 + RunLength(ms[j + 1..]) else 0
  {
    if j < |ms| { assert ms[j..][0] == ms[j] && ms[j..][1..] == ms[j + 1..]; }
  }

  lemma WalkedStart(messages: seq<Msg>, uses: set<string>, index: CallIndex, replay: Replay, stats: Stats)
    ensures Walked(messages, uses, index, replay, 0, 0, [], stats, stats)
  {
    hide Fill, FillCounts;
    assert messages[0..] == messages;
    assert [] + Fill(messages, uses, index, replay, 0) == Fill(messages, uses, index, replay, 0);
  }

  lemma FillOne(ms: seq<Msg>, uses: set<string>, index: CallIndex, replay: Replay, at: nat)
    requires ms != [] && OwedBy(ms[0], uses) == []
    ensures Fill(ms, uses, index, replay, at) == [ms[0]] + Fill(ms[1..], uses, index, replay, at + 1)
    ensures FillCounts(ms, uses, index, replay, at) == FillCounts(ms[1..], uses, index, replay, at + 1)
  {
  }

  lemma FillRun(ms: seq<Msg>, uses: set<string>, index: CallIndex, replay: Replay, at: nat)
    requires ms != [] && OwedBy(ms[0], uses) != []
    ensures var ids, run := OwedBy(ms[0], uses), RunLength(ms[1..]);
            var (a, b) := FillCounts(ms[1..][run..], uses, index, replay, at + 1 + run + |ids|);
            var again := Again(ids, index, replay, at + 1 + run);
            again <= |ids|
            && Fill(ms, uses, index, replay, at)
               == [ms[0]] + ms[1..][..run] + Synth(ids, index, replay, at + 1 + run)
                  + Fill(ms[1..][run..], uses, index, replay, at + 1 + run + |ids|)
            && FillCounts(ms, uses, index, replay, at) == (a + again, b + (|ids| - again))
  {
    hide Synth, Again;
    AgainBound(OwedBy(ms[0], uses), index, replay, at + 1 + RunLength(ms[1..]));
  }

  lemma WalkedOne(messages: seq<Msg>, uses: set<string>, index: CallIndex, replay: Replay,
                  i: nat, out: seq<Msg>, stats: Stats, stats0: Stats)
    requires Walked(messages, uses, index, replay, 0, i, out, stats, stats0)
    requires i < |messages| && OwedBy(messages[i], uses) == []
    ensures Walked(messages, uses, index, replay, 0, i + 1, out + [messages[i]], stats, stats0)
  {
    hide Fill, FillCounts, OwedBy;
    assert messages[i..][0] == messages[i] && messages[i..][1..] == messages[i + 1..];
    FillOne(messages[i..], uses, index, replay, |out|);
  }

  lemma WalkedRun(messages: seq<Msg>, uses: set<string>, index: CallIndex, replay: Replay, i: nat, j: nat,
                  out: seq<Msg>, stats: Stats, stats0: Stats, ids: seq<string>, out': seq<Msg>, stats': Stats)
    requires Walked(messages, uses, index, replay, 0, i, out, stats, stats0)
    requires i < |messages| && ids == OwedBy(messages[i], uses) && ids != []
    requires i + 1 <= j <= |messages| && RunLength(messages[i + 1..]) == j - i - 1
    requires var at := |out| + j - i;
             var again := Again(ids, index, replay, at);
             again <= |ids|
             && out' == out + [messages[i]] + messages[i + 1..][..j - i - 1] + Synth(ids, index, replay, at)
             && stats' == stats.(reinvoked := stats.reinvoked + again, stubs := stats.stubs + (|ids| - again))
    ensures Walked(messages, uses, index, replay, 0, j, out', stats', stats0)
  {
    hide Fill, FillCounts, OwedBy, Again, RunLength, Synth;
    var at, run := |out| + j - i, messages[i + 1..][..j - i - 1];
    FillRunAt(messages, uses, index, replay, i, j, |out|);
    var more, tail := Synth(ids, index, replay, at), Fill(messages[j..], uses, index, replay, at + |ids|);
    SynthLength(ids, index, replay, at);
    assert |out'| == at + |ids|;
    RegroupFive(out, [messages[i]], run, more, tail);
  }

  lemma SynthLength(ids: seq<string>, index: CallIndex, replay: Replay, at: nat)
    ensures |Synth(ids, index, replay, at)| == |ids|
  {
  }

  lemma FillRunAt(messages: seq<Msg>, uses: set<string>, index: CallIndex, replay: Replay, i: nat, j: nat, at0: nat)
    requires i < |messages| && OwedBy(messages[i], uses) != []
    requires i + 1 <= j <= |messages| && RunLength(messages[i + 1..]) == j - i - 1
    ensures var ids, at := OwedBy(messages[i], uses), at0 + j - i;
            var (a, b) := FillCounts(messages[j..], uses, index, replay, at + |ids|);
            var again := Again(ids, index, replay, at);
            again <= |ids|
            && Fill(messages[i..], uses, index, replay, at0)
               == [messages[i]] + messages[i + 1..][..j - i - 1] + Synth(ids, index, replay, at)
                  + Fill(messages[j..], uses, index, replay, at + |ids|)
            && FillCounts(messages[i..], uses, index, replay, at0) == (a + again, b + (|ids| - again))
  {
    hide Fill, FillCounts, OwedBy, Again, RunLength, Synth;
    assert messages[i..][0] == messages[i] && messages[i..][1..] == messages[i + 1..];
    assert messages[i + 1..][j - i - 1..] == messages[j..];
    FillRun(messages[i..], uses, index, replay, at0);
  }

  lemma RegroupFive(a: seq<Msg>, b: seq<Msg>, c: seq<Msg>, d: seq<Msg>, e: seq<Msg>)
    ensures a + (b + c + d + e) == a + b + c + d + e
  {
  }

  lemma WalkedEnd(messages: seq<Msg>, uses: set<string>, index: CallIndex, replay: Replay,
                  i: nat, out: seq<Msg>, stats: Stats, stats0: Stats)
    requires Walked(messages, uses, index, replay, 0, i, out, stats, stats0) && i >= |messages|
    ensures out == Fill(messages, uses, index, replay, 0)
    ensures var (a, b) := FillCounts(messages, uses, index, replay, 0);
            stats == stats0.(reinvoked := stats0.reinvoked + a, stubs := stats0.stubs + b)
  {
    NoFill(messages[i..], uses, index, replay, |out|);
    hide Fill, FillCounts;
    assert out + [] == out;
  }

  lemma NoFill(ms: seq<Msg>, uses: set<string>, index: CallIndex, replay: Replay, at: nat)
    requires ms == []
    ensures Fill(ms, uses, index, replay, at) == [] && FillCounts(ms, uses, index, replay, at) == (0, 0)
  {
  }

  lemma {:induction false} NothingOwed(ms: seq<Msg>, uses: set<string>, index: CallIndex, replay: Replay, at: nat)
    requires uses * DeclaredIds(ms) == {} && "" !in uses
    ensures Fill(ms, uses, index, replay, at) == ms && FillCounts(ms, uses, index, replay, at) == (0, 0)
    decreases |ms|
  {
    hide OwedBy, Synth, Again, RunLength, DeclaredIds;
    if ms == [] {
      NoFill(ms, uses, index, replay, at);
    } else {
      assert ms == [ms[0]] + ms[1..];
      IdsConcat([ms[0]], ms[1..]);
      OwedNothing(ms[0], uses);
      FillOne(ms, uses, index, replay, at);
      NothingOwed(ms[1..], uses, index, replay, at + 1);
    }
  }

  lemma OwedNothing(m: Msg, uses: set<string>)
    requires uses * DeclaredIds([m]) == {} && "" !in uses
    ensures OwedBy(m, uses) == []
  {
    if m.role.Assistant? {
      forall c | c in m.calls ensures c.id !in uses {
        assert m in [m];
        assert c.id != "" ==> c.id in DeclaredIds([m]);
        assert c.id in uses && c.id in DeclaredIds([m]) ==> c.id in uses * DeclaredIds([m]);
      }
      OwedNone(m.calls, uses);
    }
  }

  lemma {:induction false} OwedNone(calls: seq<Call>, uses: set<string>)
    requires forall c | c in calls :: c.id !in uses
    ensures Owed(calls, uses) == []
    decreases |calls|
  {
    if calls != [] {
      assert calls[0] in calls && forall c | c in calls[1..] :: c in calls;
      OwedNone(calls[1..], uses);
    }
  }

  // ----- repairHistory -----

  function OrphanResults(ms: seq<Msg>): set<string> {
    ResolvedIds(ms) - DeclaredIds(ms)
  }

  function OrphanUses(ms: seq<Msg>): set<string> {
    DeclaredIds(ms) - ResolvedIds(ms)
  }

  /** The repaired messages and the counters. */
  function Repaired(ms: seq<Msg>, index: Option<CallIndex>, replay: Replay): (seq<Msg>, Stats) {
    if (OrphanResults(ms) == {} && OrphanUses(ms) == {}) || index.None? then (ms, NONE)
    else
      var (u, k) := UseCounts(ms, OrphanResults(ms), index.value);
      var patched := WithUses(ms, OrphanResults(ms), index.value);
      var (a, b) := FillCounts(patched, OrphanUses(ms), index.value, replay, 0);
      (Fill(patched, OrphanUses(ms), index.value, replay, 0), Stats(u, a, b, k))
  }

  lemma {:induction false} NoOrphans(ms: seq<Msg>, index: CallIndex)
    ensures WithUses(ms, {}, index) == ms && UseCounts(ms, {}, index) == (0, 0)
    decreases |ms|
  {
    if ms != [] {
      NoOrphans(ms[1..], index);
      NoneAddedAfter(ms[1..], index);
      assert ms[0].calls + [] == ms[0].calls && ms == [ms[0]] + ms[1..];
    }
  }

  lemma {:induction false} NoneAddedAfter(after: seq<Msg>, index: CallIndex)
    ensures Added(after, {}, index) == [] && Missed(after, {}, index) == 0
    decreases |after|
  {
    if after != [] { NoneAddedAfter(after[1..], index); }
  }

  method RepairHistory(messages: seq<Msg>, index: Option<CallIndex>, replay: Replay) returns (out: seq<Msg>, stats: Stats)
    ensures (out, stats) == Repaired(messages, index, replay)
  {
    hide WithUses, UseCounts, Fill, FillCounts, DeclaredIds, ResolvedIds;
    out, stats := messages, NONE;
    if |messages| == 0 {
      NoIdsAtAll();
      return;
    }
    var declared, resolved := CollectToolIDs(messages);
    var orphanResults, orphanUses := resolved - declared, declared - resolved;
    if orphanResults == {} && orphanUses == {} {
      return;
    }
    if index.None? {
      return;
    }
    NoOrphans(messages, index.value);
    if orphanResults != {} {
      out, stats := InjectSyntheticToolUses(out, orphanResults, index.value, stats);
    }
    NothingOwed(out, {}, index.value, replay, 0);
    if orphanUses != {} {
      out, stats := InjectSyntheticToolResults(out, orphanUses, index.value, replay, stats);
    }
  }
}
