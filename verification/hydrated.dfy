/** What each transcript entry adds to the history of each agent. */
module HydratedHistory {
  import opened Json
  import opened History
  import opened Hydrate

  /** The places of the tool calls that have an id, in order. */
  predicate Picked(tcs: seq<ToolCall>, picked: seq<nat>) {
    (forall k | 0 <= k < |picked| :: picked[k] < |tcs| && tcs[picked[k]].call.id != "")
    && (forall j, k | 0 <= j < k < |picked| :: picked[j] < picked[k])
    && forall i: nat | i < |tcs| && tcs[i].call.id != "" :: i in picked
  }

  lemma {:induction false} IdentifiedPicked(tcs: seq<ToolCall>) returns (picked: seq<nat>)
    ensures Picked(tcs, picked) && |Identified(tcs)| == |picked|
    ensures forall k | 0 <= k < |picked| :: Identified(tcs)[k] == tcs[picked[k]]
    decreases |tcs|
  {
    hide Picked;
    picked := [];
    if tcs == [] {
      PickedNone();
    } else {
      var n := |tcs| - 1;
      picked := IdentifiedPicked(tcs[..n]);
      PickedSnoc(tcs[..n], tcs[n], picked);
      assert tcs == tcs[..n] + [tcs[n]];
      PickedBound(tcs[..n], picked);
      if tcs[n].call.id != "" { picked := picked + [n]; }
    }
  }

  lemma PickedNone()
    ensures Picked([], [])
  {
  }

  lemma PickedBound(tcs: seq<ToolCall>, picked: seq<nat>)
    requires Picked(tcs, picked)
    ensures forall k | 0 <= k < |picked| :: picked[k] < |tcs|
  {
  }

  lemma PickedSnoc(tcs: seq<ToolCall>, tc: ToolCall, picked: seq<nat>)
    requires Picked(tcs, picked)
    ensures tc.call.id == "" ==> Picked(tcs + [tc], picked)
    ensures tc.call.id != "" ==> Picked(tcs + [tc], picked + [|tcs|])
  {
    var all, more := tcs + [tc], picked + [|tcs|];
    assert forall i | 0 <= i < |tcs| :: all[i] == tcs[i];
    forall i: nat | i < |all| && all[i].call.id != "" && tc.call.id != "" ensures i in more {
      if i == |tcs| { assert more[|picked|] == i; } else { assert i in picked; }
    }
  }

  /** An assistant entry as messages: one with its text and its identified calls, then one result per call
      with the recorded text; nothing at all exactly if there is neither text nor such a call. */
  predicate TurnAt(e: Entry, picked: seq<nat>, more: seq<Msg>)
    requires Picked(e.toolCalls, picked)
  {
    if e.content == "" && picked == [] then more == []
    else
      |more| == 1 + |picked|
      && more[0].role.Assistant? && more[0].content == e.content && more[0].resultId == "" && |more[0].calls| == |picked|
      && forall k | 0 <= k < |picked| ::
           var tc := e.toolCalls[picked[k]];
           more[0].calls[k] == tc.call && more[1..][k] == Msg(Tool, [], tc.call.id, tc.result)
  }

  lemma TurnMessages(e: Entry) returns (picked: seq<nat>)
    ensures Picked(e.toolCalls, picked) && TurnAt(e, picked, Flatten(TurnBlocks(e)))
  {
    hide Identified, Flatten, Picked;
    picked := IdentifiedPicked(e.toolCalls);
    FlattenEmpty();
    if TurnBlocks(e) != [] { OneBlock(TurnBlocks(e)[0]); }
  }

  lemma NothingProjected(sessionOwner: string, id: string)
    ensures Projection([], sessionOwner, id) == []
  {
  }

  /** Main result: one more entry.  A handoff brief or a user message reaches every agent, an assistant's
      turn the agent it names -- the session's owner if it names none -- and nobody else. */
  lemma EntryReaches(entries: seq<Entry>, e: Entry, sessionOwner: string, id: string) returns (picked: seq<nat>)
    ensures var before, after := HistoryFor(entries, sessionOwner, id), HistoryFor(entries + [e], sessionOwner, id);
            before <= after && Picked(e.toolCalls, picked)
            && var more := after[|before|..];
               if e.system && "Handoff:" <= e.content then more == [Msg(User, [], "", e.content)]
               else if e.role.User? then more == (if e.content == "" then [] else [Msg(User, [], "", e.content)])
               else if e.role.Assistant? && id == (if e.agentId == "" then sessionOwner else e.agentId) then TurnAt(e, picked, more)
               else more == []
    ensures HistoryFor([], sessionOwner, id) == []
  {
    hide Flatten, TurnBlocks, Identified, Projection, TurnAt, Picked;
    var all := entries + [e];
    assert all[..|entries|] == entries && all[..|entries| + 1] == all && all[|entries|] == e;
    HistoryStep(all, |entries|, sessionOwner, id);
    picked := TurnMessages(e);
    FlattenEmpty();
    NothingProjected(sessionOwner, id);
    OneBlock(Single(UserMsg(e.content)));
    var before, more := HistoryFor(entries, sessionOwner, id), Flatten(View(e, sessionOwner, id));
    assert (before + more)[|before|..] == more;
  }
}
