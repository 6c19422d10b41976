/** pkg/agent/attach_hydrate.go: rebuilding every agent's history from the session transcript. */
module Hydrate {
  import opened Json
  import opened GoStrings
  import opened History
  import opened Sanitize
  import opened SanitizedHistory
  import opened Repair
  import opened Recovery

  /** A recorded tool call, with the text its result is given to the model as. */
  datatype ToolCall = ToolCall(call: Call, result: string)

  /** The parts of a transcript entry that hydration looks at; system tells entries of type system. */
  datatype Entry = Entry(system: bool, role: Role, content: string, toolCalls: seq<ToolCall>, agentId: string)

  predicate Handoff(e: Entry) {
    e.system && "Handoff:" <= e.content
  }

  function OwnerOf(e: Entry, sessionOwner: string): string {
    if e.agentId == "" then sessionOwner else e.agentId
  }

  function UserMsg(content: string): Msg {
    Msg(User, [], "", content)
  }

  // ----- The projection for one agent -----

  function Identified(tcs: seq<ToolCall>): seq<ToolCall> {
    if tcs == [] then []
    else
      var n := |tcs| - 1;
      Identified(tcs[..n]) + if tcs[n].call.id == "" then [] else [tcs[n]]
  }

  function CallsOf(tcs: seq<ToolCall>): seq<Call> {
    seq(|tcs|, i requires 0 <= i < |tcs| => tcs[i].call)
  }

  function ResultsOf(tcs: seq<ToolCall>): seq<Msg> {
    seq(|tcs|, i requires 0 <= i < |tcs| => Msg(Tool, [], tcs[i].call.id, tcs[i].result))
  }

  /** The turn an assistant entry stands for: its calls with an id, each with its result, in order. */
  function TurnBlocks(e: Entry): seq<Block> {
    var tcs := Identified(e.toolCalls);
    if tcs != [] then [Turn(Msg(Assistant, CallsOf(tcs), "", e.content), ResultsOf(tcs))]
    else if e.content != "" then [Single(Msg(Assistant, [], "", e.content))]
    else []
  }

  /** What one entry means to one agent of the session. */
  function View(e: Entry, sessionOwner: string, id: string): seq<Block> {
    if Handoff(e) then [Single(UserMsg(e.content))]
    else match e.role
      case User => if e.content == "" then [] else [Single(UserMsg(e.content))]
      case Assistant => if OwnerOf(e, sessionOwner) == id then TurnBlocks(e) else []
      case _ => []
  }

  function Projection(entries: seq<Entry>, sessionOwner: string, id: string): seq<Block> {
    if entries == [] then []
    else
      var n := |entries| - 1;
      Projection(entries[..n], sessionOwner, id) + View(entries[n], sessionOwner, id)
  }

  /** The history an agent should get. */
  function HistoryFor(entries: seq<Entry>, sessionOwner: string, id: string): seq<Msg> {
    Flatten(Projection(entries, sessionOwner, id))
  }

  function KnownAgents(entries: seq<Entry>, sessionOwner: string): set<string> {
    {sessionOwner} + set e | e in entries && e.agentId != "" :: e.agentId
  }

  // ----- The single pass -----

  type Histories = map<string, seq<Msg>>

  function Get(per: Histories, id: string): seq<Msg> {
    if id in per then per[id] else []
  }

  function Put(per: Histories, id: string, more: seq<Msg>): Histories {
    per[id := Get(per, id) + more]
  }

  /** per is what the first n entries mean to every known agent, and has no empty histories. */
  ghost predicate Grouped(per: Histories, known: set<string>, entries: seq<Entry>, n: nat, sessionOwner: string)
    requires n <= |entries|
  {
    && (forall id | id in known :: Get(per, id) == HistoryFor(entries[..n], sessionOwner, id))
    && (forall id | id in per :: id in known && per[id] != [])
  }

  lemma HistoryStep(entries: seq<Entry>, n: nat, sessionOwner: string, id: string)
    requires n < |entries|
    ensures HistoryFor(entries[..n + 1], sessionOwner, id)
            == HistoryFor(entries[..n], sessionOwner, id) + Flatten(View(entries[n], sessionOwner, id))
  {
    hide Flatten, View;
    assert entries[..n + 1][..n] == entries[..n];
    FlattenConcat(Projection(entries[..n], sessionOwner, id), View(entries[n], sessionOwner, id));
  }

  /** Appends a message to every known agent, in any order of the agents. */
  method Broadcast(per: Histories, known: set<string>, m: Msg) returns (per': Histories)
    ensures forall id :: Get(per', id) == if id in known then Get(per, id) + [m] else Get(per, id)
    ensures forall id :: id in per' <==> id in per || id in known
  {
    per' := per;
    var todo := known;
    while todo != {}
      invariant todo <= known
      invariant forall id :: Get(per', id) == if id in known && id !in todo then Get(per, id) + [m] else Get(per, id)
      invariant forall id :: id in per' <==> id in per || (id in known && id !in todo)
      decreases todo
    {
      var id :| id in todo;
      per' := Put(per', id, [m]);
      todo := todo - {id};
    }
  }

  method AssistantMessages(e: Entry) returns (ms: seq<Msg>)
    ensures ms == Flatten(TurnBlocks(e))
  {
    hide Flatten, Identified, CallsOf, ResultsOf;
    var calls: seq<Call> := [];
    var tcs := e.toolCalls;
    NoneIdentified();
    assert tcs[..0] == [];
    for j := 0 to |tcs|
      invariant calls == CallsOf(Identified(tcs[..j]))
    {
      assert tcs[..j + 1] == tcs[..j] + [tcs[j]];
      IdentifiedSnoc(tcs[..j], tcs[j]);
      if tcs[j].call.id == "" {
        continue;
      }
      calls := calls + [tcs[j].call];
    }
    assert tcs[..|tcs|] == tcs;
    CallsLength(Identified(tcs));
    var msg := Msg(Assistant, calls, "", e.content);
    FlattenEmpty();
    if msg.content == "" && |msg.calls| == 0 {
      return [];
    }
    ms := [msg];
    assert [msg] + ResultsOf(Identified(tcs[..0])) == [msg];
    for j := 0 to |tcs|
      invariant ms == [msg] + ResultsOf(Identified(tcs[..j]))
    {
      assert tcs[..j + 1] == tcs[..j] + [tcs[j]];
      IdentifiedSnoc(tcs[..j], tcs[j]);
      if tcs[j].call.id == "" {
        continue;
      }
      ms := ms + [Msg(Tool, [], tcs[j].call.id, tcs[j].result)];
    }
    assert tcs[..|tcs|] == tcs && [msg] + [] == [msg];
    OneBlock(TurnBlocks(e)[0]);
  }

  lemma NoneIdentified()
    ensures Identified([]) == [] && CallsOf([]) == [] && ResultsOf([]) == []
  {
  }

  lemma CallsLength(tcs: seq<ToolCall>)
    ensures |CallsOf(tcs)| == |tcs|
  {
  }

  lemma IdentifiedSnoc(tcs: seq<ToolCall>, tc: ToolCall)
    ensures CallsOf(Identified(tcs + [tc])) == CallsOf(Identified(tcs)) + if tc.call.id == "" then [] else [tc.call]
    ensures ResultsOf(Identified(tcs + [tc]))
            == ResultsOf(Identified(tcs)) + if tc.call.id == "" then [] else [Msg(Tool, [], tc.call.id, tc.result)]
  {
    assert (tcs + [tc])[..|tcs|] == tcs;
    var all := Identified(tcs);
    assert (all + [tc])[..|all|] == all;
  }

  lemma OneBlock(b: Block)
    ensures Flatten([b]) == Unblock(b)
  {
    assert [b][1..] == [] && Unblock(b) + [] == Unblock(b);
  }

  method FindAgents(entries: seq<Entry>, sessionOwner: string) returns (known: set<string>)
    ensures known == KnownAgents(entries, sessionOwner)
  {
    known := {sessionOwner};
    for i := 0 to |entries|
      invariant known == KnownAgents(entries[..i], sessionOwner)
    {
      assert entries[..i + 1] == entries[..i] + [entries[i]];
      if entries[i].agentId != "" {
        known := known + {entries[i].agentId};
      }
    }
    assert entries[..|entries|] == entries;
  }

  lemma OwnerKnown(entries: seq<Entry>, sessionOwner: string, e: Entry)
    requires e in entries
    ensures OwnerOf(e, sessionOwner) in KnownAgents(entries, sessionOwner)
  {
  }

  /** The pass over the entries. */
  method GroupPerAgent(entries: seq<Entry>, sessionOwner: string) returns (per: Histories, known: set<string>)
    ensures known == KnownAgents(entries, sessionOwner)
    ensures forall id | id in known :: Get(per, id) == HistoryFor(entries, sessionOwner, id)
    ensures forall id :: id in per <==> id in known && HistoryFor(entries, sessionOwner, id) != []
  {
    hide KnownAgents, Flatten, Grouped, HistoryFor;
    per := map[];
    known := FindAgents(entries, sessionOwner);
    GroupedStart(known, entries, sessionOwner);
    for i := 0 to |entries|
      invariant Grouped(per, known, entries, i, sessionOwner)
    {
      var e := entries[i];
      var owner := OwnerOf(e, sessionOwner);
      OwnerKnown(entries, sessionOwner, e);
      ghost var before := per;
      if Handoff(e) {
        per := Broadcast(per, known, UserMsg(e.content));
        GroupedAll(before, per, known, entries, i, sessionOwner, UserMsg(e.content));
        continue;
      }
      match e.role {
        case User =>
          if e.content == "" {
            GroupedNone(per, known, entries, i, sessionOwner);
            continue;
          }
          per := Broadcast(per, known, UserMsg(e.content));
          GroupedAll(before, per, known, entries, i, sessionOwner, UserMsg(e.content));
        case Assistant =>
          var ms := AssistantMessages(e);
          if ms != [] {
            per := Put(per, owner, ms);
          }
          GroupedOwner(before, per, known, entries, i, sessionOwner, ms);
        case _ =>
          GroupedNone(per, known, entries, i, sessionOwner);
      }
    }
    GroupedEnd(per, known, entries, sessionOwner);
  }

  lemma GroupedStart(known: set<string>, entries: seq<Entry>, sessionOwner: string)
    ensures Grouped(map[], known, entries, 0, sessionOwner)
  {
    assert entries[..0] == [];
    FlattenEmpty();
  }

  lemma GroupedEnd(per: Histories, known: set<string>, entries: seq<Entry>, sessionOwner: string)
    requires Grouped(per, known, entries, |entries|, sessionOwner)
    ensures forall id | id in known :: Get(per, id) == HistoryFor(entries, sessionOwner, id)
    ensures forall id :: id in per <==> id in known && HistoryFor(entries, sessionOwner, id) != []
  {
    hide HistoryFor;
    assert entries[..|entries|] == entries;
  }

  lemma GroupedNone(per: Histories, known: set<string>, entries: seq<Entry>, i: nat, sessionOwner: string)
    requires i < |entries| && Grouped(per, known, entries, i, sessionOwner)
    requires forall id :: View(entries[i], sessionOwner, id) == []
    ensures Grouped(per, known, entries, i + 1, sessionOwner)
  {
    hide HistoryFor, View;
    FlattenEmpty();
    forall id | id in known ensures Get(per, id) == HistoryFor(entries[..i + 1], sessionOwner, id) {
      HistoryStep(entries, i, sessionOwner, id);
      assert View(entries[i], sessionOwner, id) == [];
      assert Get(per, id) + [] == Get(per, id);
    }
  }

  lemma GroupedAll(before: Histories, per: Histories, known: set<string>, entries: seq<Entry>, i: nat, sessionOwner: string, m: Msg)
    requires i < |entries| && Grouped(before, known, entries, i, sessionOwner)
    requires forall id :: View(entries[i], sessionOwner, id) == [Single(m)]
    requires forall id :: Get(per, id) == if id in known then Get(before, id) + [m] else Get(before, id)
    requires forall id :: id in per <==> id in before || id in known
    ensures Grouped(per, known, entries, i + 1, sessionOwner)
  {
    hide HistoryFor, View;
    OneBlock(Single(m));
    forall id | id in known ensures Get(per, id) == HistoryFor(entries[..i + 1], sessionOwner, id) {
      HistoryStep(entries, i, sessionOwner, id);
      assert View(entries[i], sessionOwner, id) == [Single(m)];
    }
  }

  lemma GroupedOwner(before: Histories, per: Histories, known: set<string>, entries: seq<Entry>, i: nat, sessionOwner: string, ms: seq<Msg>)
    requires i < |entries| && Grouped(before, known, entries, i, sessionOwner)
    requires var e := entries[i]; !Handoff(e) && e.role.Assistant? && ms == Flatten(TurnBlocks(e)) && OwnerOf(e, sessionOwner) in known
    requires per == if ms != [] then Put(before, OwnerOf(entries[i], sessionOwner), ms) else before
    ensures Grouped(per, known, entries, i + 1, sessionOwner)
  {
    hide HistoryFor, Flatten, TurnBlocks;
    FlattenEmpty();
    var e := entries[i];
    forall id | id in known ensures Get(per, id) == HistoryFor(entries[..i + 1], sessionOwner, id) {
      HistoryStep(entries, i, sessionOwner, id);
      assert View(e, sessionOwner, id) == if OwnerOf(e, sessionOwner) == id then TurnBlocks(e) else [];
      assert Get(before, id) + [] == Get(before, id);
    }
  }

  /** The agents' session stores, by agent; only available agents have one. */
  class Sessions {
    var histories: Histories

    constructor ()
      ensures histories == map[]
    {
      histories := map[];
    }

    method SetHistory(id: string, ms: seq<Msg>)
      modifies this
      ensures histories == old(histories)[id := ms]
    {
      histories := histories[id := ms];
    }
  }

  /** HydrateAgentHistoryFromTranscript, from the transcript on. */
  method HydrateAgentHistory(entries: seq<Entry>, sessionOwner: string, available: set<string>, sessions: Sessions)
    modifies sessions
    ensures forall id :: Get(sessions.histories, id)
              == if (id == sessionOwner || (id != "" && exists e | e in entries :: e.agentId == id))
                    && id in available && HistoryFor(entries, sessionOwner, id) != []
                 then HistoryFor(entries, sessionOwner, id) else Get(old(sessions.histories), id)
  {
    hide HistoryFor;
    NoEntries(sessionOwner);
    if |entries| == 0 {
      return;
    }
    var per, known := GroupPerAgent(entries, sessionOwner);
    var todo := per.Keys;
    while todo != {}
      invariant todo <= per.Keys
      invariant forall id :: Get(sessions.histories, id)
                  == if id in per && id !in todo && id in available then per[id] else Get(old(sessions.histories), id)
      decreases todo
    {
      var id :| id in todo;
      todo := todo - {id};
      if id !in available {
        continue;
      }
      sessions.SetHistory(id, per[id]);
    }
  }

  lemma NoEntries(sessionOwner: string)
    ensures forall id :: HistoryFor([], sessionOwner, id) == []
  {
    FlattenEmpty();
  }

  // ----- What a hydrated history is -----

  /** One result per call, in the order of the calls, and every id non-empty. */
  predicate Balanced(b: Block) {
    b.Turn? ==> |b.results| == |b.call.calls|
                && forall i | 0 <= i < |b.results| :: b.results[i].resultId == b.call.calls[i].id != ""
  }

  lemma {:induction false} IdentifiedAll(tcs: seq<ToolCall>)
    ensures forall tc | tc in Identified(tcs) :: tc.call.id != ""
    decreases |tcs|
  {
    if tcs != [] { IdentifiedAll(tcs[..|tcs| - 1]); }
  }

  lemma ViewBlocks(e: Entry, sessionOwner: string, id: string)
    ensures AllWellFormed(View(e, sessionOwner, id)) && NoSystem(View(e, sessionOwner, id))
    ensures forall b | b in View(e, sessionOwner, id) :: Balanced(b)
  {
    IdentifiedAll(e.toolCalls);
    hide Identified;
    var tcs := Identified(e.toolCalls);
    assert forall i | 0 <= i < |tcs| :: tcs[i] in tcs;
  }

  lemma {:induction false} ProjectionBlocks(entries: seq<Entry>, sessionOwner: string, id: string)
    ensures AllWellFormed(Projection(entries, sessionOwner, id)) && NoSystem(Projection(entries, sessionOwner, id))
    ensures forall b | b in Projection(entries, sessionOwner, id) :: Balanced(b)
    decreases |entries|
  {
    hide View, WellFormed, Balanced;
    if entries != [] {
      var n := |entries| - 1;
      ProjectionBlocks(entries[..n], sessionOwner, id);
      ViewBlocks(entries[n], sessionOwner, id);
    }
  }

  lemma BalancedTurn(b: Block)
    requires b.Turn? && Balanced(b)
    ensures Complete(b.call, b.results)
    ensures forall r | r in b.results :: Declares(b.call, r.resultId)
    ensures forall c | c in b.call.calls :: c.id != ""
    ensures forall r | r in b.results :: r.resultId != ""
  {
    forall c | c in b.call.calls ensures c.id in Answers(b.results) && c.id != "" {
      var i :| 0 <= i < |b.call.calls| && b.call.calls[i] == c;
      assert b.results[i] in b.results;
    }
    forall r | r in b.results ensures Declares(b.call, r.resultId) && r.resultId != "" {
      var i :| 0 <= i < |b.results| && b.results[i] == r;
      assert b.call.calls[i] in b.call.calls;
    }
  }

  lemma AllBalanced(bs: seq<Block>)
    requires forall b | b in bs :: Balanced(b)
    ensures TurnsComplete(bs) && TurnsDeclare(bs)
    ensures forall b, c | b in bs && b.Turn? && c in b.call.calls :: c.id != ""
    ensures forall b, r | b in bs && b.Turn? && r in b.results :: r.resultId != ""
  {
    hide Balanced, Complete, Declares;
    forall b | b in bs && b.Turn?
      ensures Complete(b.call, b.results)
      ensures forall r | r in b.results :: Declares(b.call, r.resultId)
      ensures forall c | c in b.call.calls :: c.id != ""
      ensures forall r | r in b.results :: r.resultId != ""
    {
      BalancedTurn(b);
    }
  }

  /** Main result: every hydrated history is fully paired, so repair leaves it alone whatever the
      transcript index, and recovery finds nothing to recover. */
  lemma HydratedPaired(entries: seq<Entry>, sessionOwner: string, id: string, index: Option<CallIndex>, replay: Replay)
    ensures var h := HistoryFor(entries, sessionOwner, id);
            Answered(h) && Declared(h) && Repaired(h, index, replay) == (h, NONE) && Orphans(h) == [] && Recovered(h) == h
  {
    hide Flatten, AllWellFormed, TurnsComplete, TurnsDeclare, Answered, Declared, DeclaredIds, ResolvedIds,
      WithUses, UseCounts, Fill, FillCounts, Balanced, Orphans, Owned;
    var bs := Projection(entries, sessionOwner, id);
    ProjectionBlocks(entries, sessionOwner, id);
    AllBalanced(bs);
    AnsweredBlocks(bs);
    OwnedBlocks(bs);
    PairedIds(Flatten(bs));
    BalancedLast(bs);
  }

  /** A fully paired history has no orphans. */
  lemma PairedIds(ms: seq<Msg>)
    requires Answered(ms) && Declared(ms)
    ensures OrphanResults(ms) == {} && OrphanUses(ms) == {}
  {
    hide DeclaredIds, ResolvedIds;
    forall id | id in DeclaredIds(ms) ensures id in ResolvedIds(ms) {
      DeclaredResolved(ms, id);
    }
    forall id | id in ResolvedIds(ms) ensures id in DeclaredIds(ms) {
      ResolvedDeclared(ms, id);
    }
  }

  lemma DeclaredResolved(ms: seq<Msg>, id: string)
    requires Answered(ms) && id in DeclaredIds(ms)
    ensures id in ResolvedIds(ms)
  {
    var m, c :| m in ms && m.role.Assistant? && c in m.calls && c.id != "" && c.id == id;
    var i: nat :| i < |ms| && ms[i] == m;
    var j: nat :| InRunOf(ms, i, j) && ms[j].resultId == c.id;
    assert ms[j] in ms;
  }

  lemma ResolvedDeclared(ms: seq<Msg>, id: string)
    requires Declared(ms) && id in ResolvedIds(ms)
    ensures id in DeclaredIds(ms)
  {
    var m :| m in ms && m.role.Tool? && m.resultId != "" && m.resultId == id;
    var j: nat :| j < |ms| && ms[j] == m;
    var i: nat :| i < |ms| && Calling(ms[i]) && Declares(ms[i], ms[j].resultId) && InRunOf(ms, i, j);
    assert ms[i] in ms;
  }

  lemma BalancedLast(bs: seq<Block>)
    requires AllWellFormed(bs) && (forall b | b in bs :: Balanced(b)) && Answered(Flatten(bs))
    ensures Orphans(Flatten(bs)) == []
  {
    hide Flatten, ResolvedIds, LastAssistant;
    var ms := Flatten(bs);
    var i := LastAssistant(ms);
    if i >= 0 {
      forall c | c in ms[i].calls ensures c.id in ResolvedIds(ms[i + 1..]) {
        var j: nat :| InRunOf(ms, i, j) && ms[j].resultId == c.id;
        CallsHaveIds(bs, i, c);
        TailResolves(ms, i, j);
      }
      UnresolvedAre(ms[i].calls, ResolvedIds(ms[i + 1..]));
    }
  }

  lemma TailResolves(ms: seq<Msg>, i: nat, j: nat)
    requires InRunOf(ms, i, j) && ms[j].resultId != ""
    ensures ms[j].resultId in ResolvedIds(ms[i + 1..])
  {
    assert ms[i + 1..][j - i - 1] == ms[j];
  }

  lemma CallsHaveIds(bs: seq<Block>, i: nat, c: Call)
    requires AllWellFormed(bs) && forall b | b in bs :: Balanced(b)
    requires i < |Flatten(bs)| && Flatten(bs)[i].role.Assistant? && c in Flatten(bs)[i].calls
    ensures c.id != ""
  {
    hide Flatten, Balanced, AllTools;
    var k, x := BlockOf(bs, i);
    BlockAt(bs, k);
    assert Flatten(bs)[Start(bs, k) + x] == Unblock(bs[k])[x] && WellFormed(bs[k]) && bs[k] in bs;
    CallerFirst(bs[k], x);
    BalancedTurn(bs[k]);
  }

  /** No two tool messages carry one non-empty id. */
  predicate DistinctResults(ms: seq<Msg>) {
    forall i, j | 0 <= i < j < |ms| && ms[i].role.Tool? && ms[j].role.Tool? && ms[i].resultId != "" ::
      ms[i].resultId != ms[j].resultId
  }

  lemma DistinctConcat(a: seq<Msg>, b: seq<Msg>)
    ensures DistinctResults(a + b) <==> DistinctResults(a) && DistinctResults(b) && ResolvedIds(a) !! ResolvedIds(b)
  {
    var ms := a + b;
    assert forall i | 0 <= i < |a| :: ms[i] == a[i];
    assert forall i | 0 <= i < |b| :: ms[|a| + i] == b[i];
    if DistinctResults(ms) {
      forall id | id in ResolvedIds(a) ensures id !in ResolvedIds(b) {
        var i := HasResult(a, id);
        if id in ResolvedIds(b) { var j := HasResult(b, id); }
      }
    }
    if DistinctResults(a) && DistinctResults(b) && ResolvedIds(a) !! ResolvedIds(b) {
      forall i, j | 0 <= i < j < |ms| && ms[i].role.Tool? && ms[j].role.Tool? && ms[i].resultId != ""
        ensures ms[i].resultId != ms[j].resultId
      {
        if i < |a| <= j {
          var r := b[j - |a|];
          assert a[i] in a && a[i].resultId in ResolvedIds(a);
          assert r in b && (r.resultId != "" ==> r.resultId in ResolvedIds(b));
        } else if |a| <= i {
          assert ms[i] == b[i - |a|] && ms[j] == b[j - |a|];
        }
      }
    }
  }

  lemma HasResult(ms: seq<Msg>, id: string) returns (i: nat)
    requires id in ResolvedIds(ms)
    ensures i < |ms| && ms[i].role.Tool? && ms[i].resultId == id != ""
  {
    var m :| m in ms && m.role.Tool? && m.resultId != "" && m.resultId == id;
    i :| i < |ms| && ms[i] == m;
  }

  lemma DistinctOne(m: Msg)
    ensures DistinctResults([m]) && DistinctResults([])
    ensures ResolvedIds([]) == {} && (!m.role.Tool? ==> ResolvedIds([m]) == {})
  {
  }

  lemma ResultIds(rs: seq<Msg>)
    requires AllTools(rs)
    ensures ResolvedIds(rs) == Ids(rs)
  {
  }

  /** The second pass leaves a run alone exactly if its ids are new and differ. */
  lemma {:induction false} DedupFixed(rs: seq<Msg>, seen: set<string>)
    requires AllTools(rs)
    ensures Dedup(rs, seen) == rs <==> DistinctResults(rs) && ResolvedIds(rs) !! seen
    decreases |rs|
  {
    hide DistinctResults, ResolvedIds;
    if rs == [] {
      DistinctOne(Msg(User, [], "", ""));
    } else {
      var r, tail := rs[0], rs[1..];
      assert rs == [r] + tail && r in rs && AllTools(tail);
      DistinctOne(r);
      DistinctConcat([r], tail);
      IdsConcat([r], tail);
      IdsOne(r);
      if r.resultId == "" {
        DedupFixed(tail, seen);
      } else if r.resultId in seen {
        DedupLength(tail, seen);
      } else {
        DedupFixed(tail, seen + {r.resultId});
      }
    }
  }

  /** So it removes no result at all exactly if no non-empty id is there twice. */
  lemma {:induction false} DedupedExactly(bs: seq<Block>, seen: set<string>)
    requires AllWellFormed(bs)
    ensures Deduped(bs, seen) <==> DistinctResults(Flatten(bs)) && ResolvedIds(Flatten(bs)) !! seen
    decreases |bs|
  {
    hide DistinctResults, ResolvedIds, Dedup, Ids, Flatten, AllTools;
    if bs == [] {
      FlattenEmpty();
      DistinctOne(Msg(User, [], "", ""));
    } else {
      var rest := Flatten(bs[1..]);
      FlattenCons(bs);
      assert bs[0] in bs && WellFormed(bs[0]);
      DistinctConcat(Unblock(bs[0]), rest);
      IdsConcat(Unblock(bs[0]), rest);
      match bs[0] {
        case Single(m) =>
          DistinctOne(m);
          DedupedExactly(bs[1..], seen);
        case Turn(a, rs) =>
          DistinctOne(a);
          DistinctConcat([a], rs);
          IdsConcat([a], rs);
          ResultIds(rs);
          DedupFixed(rs, seen);
          DedupedExactly(bs[1..], seen + Ids(rs));
      }
    }
  }

  /** Sanitising keeps a hydrated history whole exactly if every calling assistant stands behind a user
      or tool message and no two results carry one id. */
  lemma HydratedKeptExactly(entries: seq<Entry>, sessionOwner: string, id: string)
    ensures var ms := Flatten(Projection(entries, sessionOwner, id));
            Sanitized(ms) == ms <==> WellPreceded(ms) && DistinctResults(ms)
  {
    hide Flatten, Gather, Prune, AllWellFormed, NoSystem, SeatedAfter, Deduped, TurnsComplete, Balanced, TurnsDeclare, Projection,
      WellPreceded, DistinctResults, ResolvedIds;
    var bs := Projection(entries, sessionOwner, id);
    ProjectionBlocks(entries, sessionOwner, id);
    AllBalanced(bs);
    SeatedPreceded(bs);
    DedupedExactly(bs, {});
    var ms := Flatten(bs);
    if Sanitized(ms) == ms {
      GatherLength(ms);
      PruneLength(Gather(ms), {});
      GatherGood(ms);
      FlattenInjective(Gather(ms), bs);
      PruneDeduped(Gather(ms), {});
    }
    if SeatedAfter(false, bs) && Deduped(bs, {}) {
      GatherFlatten(bs);
      PruneKeeps(bs, {});
    }
  }

  /** The smallest transcript that shows it: an assistant entry with text alone, then one with a call. */
  lemma TwoAssistantsLose(text: string, c: Call, result: string, sessionOwner: string)
    requires text != "" && c.id != ""
    ensures var first := Entry(false, Assistant, text, [], "");
            var second := Entry(false, Assistant, "", [ToolCall(c, result)], "");
            var ms := HistoryFor([first, second], sessionOwner, sessionOwner);
            |ms| == 3 && Sanitized(ms) != ms
  {
    hide Sanitized, DistinctResults;
    var first, tc := Entry(false, Assistant, text, [], ""), ToolCall(c, result);
    var second := Entry(false, Assistant, "", [tc], "");
    var entries := [first, second];
    assert [tc][..0] == [] && entries[..1] == [first] && [first][..0] == [];
    assert Identified([tc]) == [tc];
    var b1, b2 := Single(Msg(Assistant, [], "", text)), Turn(Msg(Assistant, CallsOf([tc]), "", ""), ResultsOf([tc]));
    assert Projection([first], sessionOwner, sessionOwner) == [b1];
    assert Projection(entries, sessionOwner, sessionOwner) == [b1] + [b2];
    OneBlock(b1);
    FlattenSnoc([b1], b2);
    var ms := HistoryFor(entries, sessionOwner, sessionOwner);
    assert ms == [b1.msg] + Unblock(b2);
    assert Calling(ms[1]) && ms[0] == b1.msg;
    HydratedKeptExactly(entries, sessionOwner, sessionOwner);
  }

  // ----- What agents share -----

  function UserSide(bs: seq<Block>): seq<Msg> {
    if bs == [] then []
    else
      var n := |bs| - 1;
      UserSide(bs[..n]) + if bs[n].Single? && bs[n].msg.role.User? then [bs[n].msg] else []
  }

  lemma {:induction false} UserSideConcat(a: seq<Block>, b: seq<Block>)
    ensures UserSide(a + b) == UserSide(a) + UserSide(b)
    decreases |b|
  {
    hide UserSide;
    UserSideNone();
    if b == [] {
      assert a + b == a;
    } else {
      var n := |b| - 1;
      UserSideConcat(a, b[..n]);
      UserSideSnoc(a + b[..n], b[n]);
      UserSideSnoc(b[..n], b[n]);
      assert b == b[..n] + [b[n]] && a + b == a + b[..n] + [b[n]];
    }
  }

  lemma UserSideNone()
    ensures UserSide([]) == []
  {
  }

  lemma UserSideSnoc(bs: seq<Block>, b: Block)
    ensures UserSide(bs + [b]) == UserSide(bs) + if b.Single? && b.msg.role.User? then [b.msg] else []
  {
    assert (bs + [b])[..|bs|] == bs;
  }

  lemma ViewUserSide(e: Entry, sessionOwner: string, a: string, b: string)
    ensures UserSide(View(e, sessionOwner, a)) == UserSide(View(e, sessionOwner, b))
  {
    TurnUserSide(e);
    hide TurnBlocks;
  }

  lemma TurnUserSide(e: Entry)
    ensures UserSide(TurnBlocks(e)) == []
  {
    hide Identified;
    assert TurnBlocks(e) != [] ==> TurnBlocks(e)[..|TurnBlocks(e)| - 1] == [];
  }

  /** Every two agents of a session see the same user messages and handoff briefs, in one order. */
  lemma {:induction false} SharedContext(entries: seq<Entry>, sessionOwner: string, a: string, b: string)
    ensures UserSide(Projection(entries, sessionOwner, a)) == UserSide(Projection(entries, sessionOwner, b))
    decreases |entries|
  {
    hide View, UserSide;
    if entries != [] {
      var n := |entries| - 1;
      SharedContext(entries[..n], sessionOwner, a, b);
      UserSideConcat(Projection(entries[..n], sessionOwner, a), View(entries[n], sessionOwner, a));
      UserSideConcat(Projection(entries[..n], sessionOwner, b), View(entries[n], sessionOwner, b));
      ViewUserSide(entries[n], sessionOwner, a, b);
    } else {
      assert Projection(entries, sessionOwner, a) == Projection(entries, sessionOwner, b);
    }
  }
}
