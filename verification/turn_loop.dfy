/** The control skeleton of runTurn in pkg/agent/loop.go: the rounds of a turn and the tool batch of one
    round.  Everything outside -- the model, tools, hooks, approvals, limits, steering, interrupts -- is
    an arbitrary schedule of observations. */
module TurnLoop {
  import opened Json
  import opened GoStrings
  import opened History
  import RestorePoint

  // ----- One tool batch -----

  /** What becomes of one requested call.  Refused covers the hook, the approval hook and the rate
      limit; Denied the policy and an unapproved ask, which count towards the error floor. */
  datatype Fate =
    | HardAborted
    | Refused(content: string)
    | Denied(content: string, floorReached: bool)
    | HookError
    | Ran(content: string, abortedMeanwhile: bool, hookError: bool, steering: seq<Msg>, graceful: bool, subTurn: Option<string>)

  /** The three lists of a log as a value. */
  datatype Lists = Lists(messages: seq<Msg>, history: seq<Msg>, persisted: seq<Msg>)

  /** The messages of the next model call, the session history, and what the turn has recorded. */
  class Log {
    var messages: seq<Msg>
    var history: seq<Msg>
    var persisted: seq<Msg>

    constructor (messages: seq<Msg>, history: seq<Msg>, persisted: seq<Msg>)
      ensures this.messages == messages && this.history == history && this.persisted == persisted
    {
      this.messages, this.history, this.persisted := messages, history, persisted;
    }

    function Abs(): Lists
      reads this
    {
      Lists(messages, history, persisted)
    }

    method Add(m: Msg)
      modifies this
      ensures messages == old(messages) + [m] && history == old(history) + [m] && persisted == old(persisted) + [m]
    {
      messages, history, persisted := messages + [m], history + [m], persisted + [m];
    }

    /** A SubTurn result in the middle of a batch: in the session, but not recorded. */
    method AddUnrecorded(m: Msg)
      modifies this
      ensures messages == old(messages) + [m] && history == old(history) + [m] && persisted == old(persisted)
    {
      messages, history := messages + [m], history + [m];
    }

    /** The note recordSyntheticDeny leaves in the session at the floor. */
    method Note(m: Msg)
      modifies this
      ensures messages == old(messages) && history == old(history) + [m] && persisted == old(persisted)
    {
      history := history + [m];
    }
  }

  datatype BatchEnd = Ended(pending: seq<Msg>) | Aborted | Failed

  const SKIPPED_STEERING := "Skipped due to queued user message."

  const SKIPPED_GRACEFUL := "Skipped due to graceful interrupt."

  function ToolMsg(id: string, content: string): Msg {
    Msg(Tool, [], id, content)
  }

  function SubTurnMsg(content: string): Msg {
    Msg(User, [], "", "[SubTurn Result] " + content)
  }

  /** The tool messages of ms. */
  function ToolsOf(ms: seq<Msg>): seq<Msg> {
    if ms == [] then []
    else ToolsOf(ms[..|ms| - 1]) + if ms[|ms| - 1].role.Tool? then [ms[|ms| - 1]] else []
  }

  lemma ToolsSnoc(ms: seq<Msg>, m: Msg)
    ensures ToolsOf(ms + [m]) == ToolsOf(ms) + if m.role.Tool? then [m] else []
  {
    assert (ms + [m])[..|ms|] == ms;
  }

  /** The batch stops scheduling after this call. */
  predicate Stops(f: Fate) {
    f.Ran? && (f.steering != [] || f.graceful)
  }

  function Content(f: Fate): string {
    match f
    case Refused(c) => c
    case Denied(c, _) => c
    case Ran(c, _, _, _, _, _) => c
    case _ => ""
  }

  function SkipText(f: Fate): string {
    if f.Ran? && f.steering != [] then SKIPPED_STEERING else SKIPPED_GRACEFUL
  }

  /** The result of call k when the last scheduled call is stop. */
  function ResultOf(calls: seq<Call>, fate: nat -> Fate, stop: nat, k: nat): Msg
    requires k < |calls|
  {
    ToolMsg(calls[k].id, if k <= stop then Content(fate(k)) else SkipText(fate(stop)))
  }

  /** The first n results. */
  function Results(calls: seq<Call>, fate: nat -> Fate, stop: nat, n: nat): seq<Msg>
    requires n <= |calls|
  {
    seq(n, k requires 0 <= k < n => ResultOf(calls, fate, stop, k))
  }

  /** The SubTurn result found behind a tool, if any. */
  function SubTurnOf(f: Fate): seq<Msg> {
    if f.Ran? && f.subTurn.Some? && f.subTurn.value != "" then [SubTurnMsg(f.subTurn.value)] else []
  }

  /** Everything the first n calls add: each result, and behind it the SubTurn result unless the batch stops there. */
  function Given(calls: seq<Call>, fate: nat -> Fate, stop: nat, n: nat): seq<Msg>
    requires n <= |calls|
  {
    if n == 0 then []
    else Given(calls, fate, stop, n - 1) + [ResultOf(calls, fate, stop, n - 1)]
         + if n - 1 < stop then SubTurnOf(fate(n - 1)) else []
  }

  /** stop is the first call after which the batch stops, or the last call. */
  predicate FirstStop(calls: seq<Call>, fate: nat -> Fate, stop: nat) {
    && (forall k: nat | k < stop && k < |calls| :: !Stops(fate(k)))
    && (stop < |calls| ==> Stops(fate(stop)))
  }

  /** What a batch adds: one result per call in order, whatever the mix of refused, denied, run and
      skipped calls, and between them the SubTurn results. */
  ghost predicate BatchAdds(calls: seq<Call>, fate: nat -> Fate, added: seq<Msg>, n: nat, stop: nat) {
    && n <= |calls| && added == Given(calls, fate, stop, n) && ToolsOf(added) == Results(calls, fate, stop, n)
    && (forall m | m in added :: m.role.Tool? || m.role.User?)
    && ((forall k: nat | k < n && k < stop && fate(k).Ran? :: fate(k).subTurn == None) ==> added == ToolsOf(added))
  }

  /** The loop state after i calls, none of which stopped the batch. */
  ghost predicate Batched(calls: seq<Call>, fate: nat -> Fate, i: nat, added: seq<Msg>, recorded: seq<Msg>) {
    && i <= |calls| && (forall k: nat | k < i :: !Stops(fate(k)))
    && recorded == ToolsOf(added)
    && forall stop: nat | i <= stop :: BatchAdds(calls, fate, added, i, stop)
  }

  /** The batch has added these messages, and recorded the tool messages among them. */
  ghost predicate Extended(l0: Lists, l: Lists, added: seq<Msg>) {
    l == Lists(l0.messages + added, l0.history + added, l0.persisted + ToolsOf(added))
  }

  lemma ExtendStart(l0: Lists)
    ensures Extended(l0, l0, [])
  {
    assert l0.messages + [] == l0.messages && l0.history + [] == l0.history && l0.persisted + [] == l0.persisted;
  }

  lemma ExtendTool(l0: Lists, l: Lists, added: seq<Msg>, m: Msg)
    requires Extended(l0, l, added) && m.role.Tool?
    ensures Extended(l0, Lists(l.messages + [m], l.history + [m], l.persisted + [m]), added + [m])
  {
    hide ToolsOf;
    ToolsSnoc(added, m);
  }

  lemma ExtendUser(l0: Lists, l: Lists, added: seq<Msg>, m: Msg)
    requires Extended(l0, l, added) && m.role.User?
    ensures Extended(l0, Lists(l.messages + [m], l.history + [m], l.persisted), added + [m])
  {
    hide ToolsOf;
    ToolsSnoc(added, m);
  }

  /** One result for every call behind the one that stopped the batch. */
  method SkipRemaining(log: Log, calls: seq<Call>, fate: nat -> Fate, i: nat, ghost l0: Lists, ghost added: seq<Msg>)
    returns (ghost added': seq<Msg>)
    requires i < |calls| && Stops(fate(i)) && BatchAdds(calls, fate, added, i + 1, i) && Extended(l0, log.Abs(), added)
    modifies log
    ensures BatchAdds(calls, fate, added', |calls|, i) && Extended(l0, log.Abs(), added')
  {
    hide BatchAdds, Extended;
    added' := added;
    var skipMessage := SkipText(fate(i));
    for j := i + 1 to |calls|
      invariant Extended(l0, log.Abs(), added') && BatchAdds(calls, fate, added', j, i)
    {
      var m := ToolMsg(calls[j].id, skipMessage);
      ghost var l := log.Abs();
      log.Add(m);
      ExtendTool(l0, l, added', m);
      BatchSkip(calls, fate, i, j, added');
      added' := added' + [m];
    }
  }

  /** The batch ends the turn at this call. */
  predicate Breaks(f: Fate) {
    f.HardAborted? || f.HookError? || (f.Ran? && (f.abortedMeanwhile || f.hookError)) || (f.Denied? && f.floorReached)
  }

  /** No call up to the one that stops the batch breaks it. */
  predicate NoBreak(calls: seq<Call>, fate: nat -> Fate, stop: nat) {
    forall k: nat | k <= stop && k < |calls| :: !Breaks(fate(k))
  }

  /** The first call that breaks the batch, before any stops it. */
  predicate FirstBreak(calls: seq<Call>, fate: nat -> Fate, at: nat) {
    at < |calls| && Breaks(fate(at)) && forall k: nat | k < at :: !Breaks(fate(k)) && !Stops(fate(k))
  }

  /** Ended exactly if no call breaks the batch up to the one that stops it, if any; else the first call that
      does decides between abort and error, and what comes behind it leaves no message. */
  method RunBatch(log: Log, calls: seq<Call>, fate: nat -> Fate) returns (end: BatchEnd, ghost added: seq<Msg>, ghost stop: nat)
    modifies log
    ensures log.messages == old(log.messages) + added && old(log.messages) <= log.messages
    ensures log.persisted == old(log.persisted) + ToolsOf(added)
    ensures end.Ended? ==> log.history == old(log.history) + added
    ensures end.Ended? ==> FirstStop(calls, fate, stop) && NoBreak(calls, fate, stop) && BatchAdds(calls, fate, added, |calls|, stop)
    ensures end.Ended? ==> end.pending == if stop < |calls| then fate(stop).steering else []
    ensures !end.Ended? ==> FirstBreak(calls, fate, stop)
                            && BatchAdds(calls, fate, added, if fate(stop).Denied? then stop + 1 else stop, stop)
                            && (end.Failed? <==> fate(stop).HookError? || (fate(stop).Ran? && !fate(stop).abortedMeanwhile))
  {
    hide BatchAdds, Batched, ToolsOf, FirstStop, Extended;
    added, stop := [], |calls|;
    ghost var l0 := log.Abs();
    BatchStart(calls, fate);
    ExtendStart(l0);
    for i := 0 to |calls|
      invariant Extended(l0, log.Abs(), added) && Batched(calls, fate, i, added, ToolsOf(added))
      invariant stop == |calls| && forall k: nat | k < i :: !Breaks(fate(k))
    {
      var f := fate(i);
      ExtendedLists(l0, log.Abs(), added);
      BatchPartial(calls, fate, i, added);
      if f.HardAborted? || (f.Ran? && f.abortedMeanwhile) {
        return Aborted, added, i;
      }
      if f.HookError? || (f.Ran? && f.hookError) {
        return Failed, added, i;
      }
      var m := ToolMsg(calls[i].id, Content(f));
      ghost var l := log.Abs();
      log.Add(m);
      ExtendTool(l0, l, added, m);
      BatchStep(calls, fate, i, added);
      added := added + [m];
      assert added + [] == added;
      if f.Denied? && f.floorReached {
        ExtendedLists(l0, log.Abs(), added);
        log.Note(Msg(System, [], "", "turn_aborted"));
        return Aborted, added, i;
      }
      if !f.Ran? {
        continue;
      }
      if f.steering != [] || f.graceful {
        stop := i;
        added := SkipRemaining(log, calls, fate, i, l0, added);
        ExtendedLists(l0, log.Abs(), added);
        return Ended(f.steering), added, stop;
      }
      if f.subTurn.Some? && f.subTurn.value != "" {
        var u := SubTurnMsg(f.subTurn.value);
        l := log.Abs();
        log.AddUnrecorded(u);
        ExtendUser(l0, l, added, u);
        added := added + [u];
      }
    }
    ExtendedLists(l0, log.Abs(), added);
    BatchDone(calls, fate, added);
    end := Ended([]);
  }

  lemma ExtendedLists(l0: Lists, l: Lists, added: seq<Msg>)
    requires Extended(l0, l, added)
    ensures l.messages == l0.messages + added && l0.messages <= l.messages
    ensures l.history == l0.history + added && l.persisted == l0.persisted + ToolsOf(added)
  {
  }

  lemma BatchStart(calls: seq<Call>, fate: nat -> Fate)
    ensures Batched(calls, fate, 0, [], ToolsOf([])) && ToolsOf([]) == []
  {
  }

  lemma BatchPartial(calls: seq<Call>, fate: nat -> Fate, i: nat, added: seq<Msg>)
    requires Batched(calls, fate, i, added, ToolsOf(added))
    ensures BatchAdds(calls, fate, added, i, i) && forall k: nat | k < i :: !Stops(fate(k))
  {
    hide BatchAdds, Stops;
  }

  lemma OneMore(calls: seq<Call>, fate: nat -> Fate, n: nat, stop: nat, added: seq<Msg>, m: Msg)
    requires n < |calls| && BatchAdds(calls, fate, added, n, stop) && m == ResultOf(calls, fate, stop, n)
    ensures BatchAdds(calls, fate, added + [m] + if n < stop then SubTurnOf(fate(n)) else [], n + 1, stop)
    ensures ToolsOf(added + [m]) == ToolsOf(added) + [m] == ToolsOf(added + [m] + SubTurnOf(fate(n)))
  {
    hide ToolsOf, ResultOf, SubTurnOf, Given;
    ToolsSnoc(added, m);
    ToolsSub(added + [m], fate(n));
    assert added + [m] + [] == added + [m];
    assert Results(calls, fate, stop, n + 1) == Results(calls, fate, stop, n) + [m];
    GivenSnoc(calls, fate, stop, n);
  }

  lemma GivenSnoc(calls: seq<Call>, fate: nat -> Fate, stop: nat, n: nat)
    requires n < |calls|
    ensures Given(calls, fate, stop, n + 1)
            == Given(calls, fate, stop, n) + [ResultOf(calls, fate, stop, n)] + if n < stop then SubTurnOf(fate(n)) else []
    ensures ResultOf(calls, fate, stop, n).role.Tool?
  {
  }

  lemma ToolsSub(ms: seq<Msg>, f: Fate)
    ensures ToolsOf(ms + SubTurnOf(f)) == ToolsOf(ms)
    ensures forall m | m in SubTurnOf(f) :: m.role.User?
    ensures SubTurnOf(f) != [] ==> f.Ran? && f.subTurn != None
  {
    hide ToolsOf;
    if SubTurnOf(f) != [] { ToolsSnoc(ms, SubTurnOf(f)[0]); } else { assert ms + [] == ms; }
  }

  /** The result of a call that did not stop the batch, or of the one that does. */
  lemma BatchStep(calls: seq<Call>, fate: nat -> Fate, i: nat, added: seq<Msg>)
    requires i < |calls| && Batched(calls, fate, i, added, ToolsOf(added))
    requires !fate(i).HardAborted? && !fate(i).HookError?
    ensures var m, more := ToolMsg(calls[i].id, Content(fate(i))), SubTurnOf(fate(i));
            BatchAdds(calls, fate, added + [m], i + 1, i) && ToolsOf(added + [m]) == ToolsOf(added) + [m]
            && (if Stops(fate(i)) then FirstStop(calls, fate, i)
                else Batched(calls, fate, i + 1, added + [m] + more, ToolsOf(added + [m] + more)))
  {
    hide BatchAdds, ToolsOf, SubTurnOf;
    var m, n := ToolMsg(calls[i].id, Content(fate(i))), i + 1;
    var more := added + [m] + SubTurnOf(fate(i));
    OneMore(calls, fate, i, i, added, m);
    assert added + [m] + [] == added + [m];
    forall stop: nat | n <= stop ensures BatchAdds(calls, fate, more, n, stop) {
      OneMore(calls, fate, i, stop, added, m);
    }
  }

  lemma BatchSkip(calls: seq<Call>, fate: nat -> Fate, i: nat, j: nat, added: seq<Msg>)
    requires i < j < |calls| && BatchAdds(calls, fate, added, j, i) && fate(i).Ran?
    ensures BatchAdds(calls, fate, added + [ToolMsg(calls[j].id, SkipText(fate(i)))], j + 1, i)
  {
    hide BatchAdds, ToolsOf, SubTurnOf;
    var m := ToolMsg(calls[j].id, SkipText(fate(i)));
    OneMore(calls, fate, j, i, added, m);
    assert added + [m] + [] == added + [m];
  }

  lemma BatchDone(calls: seq<Call>, fate: nat -> Fate, added: seq<Msg>)
    requires Batched(calls, fate, |calls|, added, ToolsOf(added))
    ensures FirstStop(calls, fate, |calls|) && BatchAdds(calls, fate, added, |calls|, |calls|)
  {
    hide BatchAdds;
  }

  // ----- What a finished batch means -----

  /** Exactly one result per call, with the calls' ids in order; so whatever was skipped or denied, the
      assistant is complete and every result is declared. */
  lemma BatchBalanced(calls: seq<Call>, fate: nat -> Fate, added: seq<Msg>, stop: nat, a: Msg)
    requires BatchAdds(calls, fate, added, |calls|, stop) && a.calls == calls
    ensures var rs := ToolsOf(added);
            |rs| == |calls| && (forall k | 0 <= k < |calls| :: rs[k].resultId == calls[k].id)
            && AllTools(rs) && Complete(a, rs) && forall r | r in rs :: Declares(a, r.resultId)
  {
    hide ToolsOf;
    var rs := ToolsOf(added);
    forall c | c in calls ensures c.id in Answers(rs) {
      var k :| 0 <= k < |calls| && calls[k] == c;
      assert rs[k] in rs;
    }
    forall r | r in rs ensures r.role.Tool? && Declares(a, r.resultId) {
      var k :| 0 <= k < |rs| && rs[k] == r;
      assert calls[k] in calls;
    }
  }

  /** What the model is told: up to the call that stops the batch its own outcome, behind it why it was
      skipped; and every SubTurn result found behind an earlier call, right after that call's result. */
  lemma BatchReads(calls: seq<Call>, fate: nat -> Fate, added: seq<Msg>, stop: nat)
    requires BatchAdds(calls, fate, added, |calls|, stop) && FirstStop(calls, fate, stop) && NoBreak(calls, fate, stop)
    ensures forall k: nat | k < |calls| && k < stop && fate(k).Ran? :: fate(k).steering == [] && !fate(k).graceful
    ensures stop < |calls| ==> fate(stop).Ran? && (fate(stop).steering != [] || fate(stop).graceful)
    ensures forall k: nat | k < |calls| && k <= stop && fate(k).Ran? :: !fate(k).abortedMeanwhile && !fate(k).hookError
    ensures forall k: nat | k < |calls| && k <= stop && !fate(k).Ran? ::
              fate(k).Refused? || (fate(k).Denied? && !fate(k).floorReached)
    ensures |ToolsOf(added)| == |calls|
    ensures forall k: nat | k < |calls| ::
              ToolsOf(added)[k] == Msg(Tool, [], calls[k].id,
                                       if k <= stop then fate(k).content
                                       else if fate(stop).steering != [] then "Skipped due to queued user message."
                                       else "Skipped due to graceful interrupt.")
    ensures forall k: nat | k < |calls| && k < stop && fate(k).Ran? && fate(k).subTurn.Some? && fate(k).subTurn.value != "" ::
              exists p: nat :: FollowedBy(added, p, ToolsOf(added)[k], "[SubTurn Result] " + fate(k).subTurn.value)
  {
    hide ToolsOf, FollowedBy;
    forall k: nat | k < |calls| && k < stop && fate(k).Ran? && fate(k).subTurn.Some? && fate(k).subTurn.value != ""
      ensures exists p: nat :: FollowedBy(added, p, ToolsOf(added)[k], "[SubTurn Result] " + fate(k).subTurn.value)
    {
      GivenSubTurn(calls, fate, stop, k);
      assert FollowedBy(added, |Given(calls, fate, stop, k)|, ToolsOf(added)[k], "[SubTurn Result] " + fate(k).subTurn.value);
    }
  }

  /** A batch is broken off at a hard abort, a hook's error, or the denial that reaches the floor, and nowhere
      before; no tool before it had found steering or an interrupt. */
  lemma BreakReads(calls: seq<Call>, fate: nat -> Fate, at: nat)
    requires FirstBreak(calls, fate, at)
    ensures match fate(at)
            case HardAborted => true
            case HookError => true
            case Ran(_, aborted, failed, _, _, _) => aborted || failed
            case Denied(_, floor) => floor
            case Refused(_) => false
    ensures forall k: nat | k < at ::
              match fate(k)
              case Ran(_, aborted, failed, steering, graceful, _) => !aborted && !failed && steering == [] && !graceful
              case Denied(_, floor) => !floor
              case Refused(_) => true
              case _ => false
  {
  }

  predicate FollowedBy(ms: seq<Msg>, p: nat, m: Msg, text: string) {
    p + 1 < |ms| && ms[p] == m && ms[p + 1] == Msg(User, [], "", text)
  }

  lemma GivenSubTurn(calls: seq<Call>, fate: nat -> Fate, stop: nat, k: nat)
    requires k < |calls| && k < stop && SubTurnOf(fate(k)) != []
    ensures FollowedBy(Given(calls, fate, stop, |calls|), |Given(calls, fate, stop, k)|, ResultOf(calls, fate, stop, k),
                       "[SubTurn Result] " + fate(k).subTurn.value)
  {
    GivenGrows(calls, fate, stop, k + 1, |calls|);
    var part := Given(calls, fate, stop, k);
    assert Given(calls, fate, stop, k + 1) == part + [ResultOf(calls, fate, stop, k)] + SubTurnOf(fate(k));
  }

  lemma {:induction false} GivenGrows(calls: seq<Call>, fate: nat -> Fate, stop: nat, k: nat, n: nat)
    requires k <= n <= |calls|
    ensures Given(calls, fate, stop, k) <= Given(calls, fate, stop, n)
    decreases n
  {
    hide ResultOf, SubTurnOf;
    if k < n { GivenGrows(calls, fate, stop, k, n - 1); }
  }

  // ----- Pairing, message by message -----

  /** Neither a call nor a result. */
  predicate Inert(m: Msg) {
    !m.role.Tool? && !Calling(m)
  }

  predicate AllInert(ms: seq<Msg>) {
    forall m | m in ms :: Inert(m)
  }

  /** Every call is answered in its run, and every result declared. */
  ghost predicate Paired(ms: seq<Msg>) {
    Answered(ms) && Declared(ms)
  }

  ghost predicate AnsweredAt(ms: seq<Msg>, i: nat, c: Call) {
    exists j: nat :: InRunOf(ms, i, j) && ms[j].resultId == c.id
  }

  ghost predicate DeclaredAt(ms: seq<Msg>, j: nat) {
    j < |ms| && exists i: nat :: i < |ms| && Calling(ms[i]) && Declares(ms[i], ms[j].resultId) && InRunOf(ms, i, j)
  }

  lemma PairedAt(ms: seq<Msg>)
    ensures Paired(ms) <==> (forall i: nat, c | i < |ms| && ms[i].role.Assistant? && c in ms[i].calls :: AnsweredAt(ms, i, c))
                            && forall j: nat | j < |ms| && ms[j].role.Tool? :: DeclaredAt(ms, j)
  {
    hide InRunOf, Declares;
  }

  /** What is paired stays paired, whatever comes behind. */
  lemma AnsweredStays(ms: seq<Msg>, more: seq<Msg>, i: nat, c: Call)
    requires AnsweredAt(ms, i, c)
    ensures AnsweredAt(ms + more, i, c)
  {
    var j: nat :| InRunOf(ms, i, j) && ms[j].resultId == c.id;
    assert InRunOf(ms + more, i, j) && (ms + more)[j] == ms[j];
  }

  lemma DeclaredStays(ms: seq<Msg>, more: seq<Msg>, j: nat)
    requires DeclaredAt(ms, j)
    ensures DeclaredAt(ms + more, j)
  {
    var i: nat :| i < |ms| && Calling(ms[i]) && Declares(ms[i], ms[j].resultId) && InRunOf(ms, i, j);
    var all := ms + more;
    assert all[i] == ms[i] && all[j] == ms[j] && InRunOf(all, i, j);
  }

  lemma PairedInert(ms: seq<Msg>, more: seq<Msg>)
    requires Paired(ms) && AllInert(more)
    ensures Paired(ms + more)
  {
    hide Paired, AnsweredAt, DeclaredAt;
    var all := ms + more;
    PairedAt(ms);
    PairedAt(all);
    assert forall i | |ms| <= i < |all| :: all[i] == more[i - |ms|] && all[i] in more;
    forall i: nat, c | i < |all| && all[i].role.Assistant? && c in all[i].calls ensures AnsweredAt(all, i, c) {
      AnsweredStays(ms, more, i, c);
    }
    forall j: nat | j < |all| && all[j].role.Tool? ensures DeclaredAt(all, j) {
      DeclaredStays(ms, more, j);
    }
  }

  /** A calling assistant and the results of all its calls. */
  lemma PairedTurn(ms: seq<Msg>, a: Msg, rs: seq<Msg>)
    requires Paired(ms) && a.role.Assistant? && a.calls != [] && AllTools(rs) && Complete(a, rs)
    requires forall r | r in rs :: Declares(a, r.resultId)
    ensures Paired(ms + ([a] + rs))
  {
    hide Paired, AnsweredAt, DeclaredAt, Complete, Declares;
    var all, n := ms + ([a] + rs), |ms|;
    PairedAt(ms);
    PairedAt(all);
    assert all[n] == a && forall k | n < k < |all| :: all[k] == rs[k - n - 1] && all[k] in rs;
    forall i: nat, c | i < |all| && all[i].role.Assistant? && c in all[i].calls ensures AnsweredAt(all, i, c) {
      if i < n { AnsweredStays(ms, [a] + rs, i, c); } else { OwnAnswered(ms, a, rs, c); }
    }
    forall j: nat | j < |all| && all[j].role.Tool? ensures DeclaredAt(all, j) {
      if j < n { DeclaredStays(ms, [a] + rs, j); } else { OwnDeclared(ms, a, rs, j - n - 1); }
    }
  }

  lemma OwnRun(ms: seq<Msg>, a: Msg, rs: seq<Msg>, k: nat)
    requires AllTools(rs) && k < |rs|
    ensures var all := ms + ([a] + rs);
            InRunOf(all, |ms|, |ms| + 1 + k) && all[|ms|] == a && all[|ms| + 1 + k] == rs[k]
  {
    var all, n := ms + ([a] + rs), |ms|;
    forall x | n < x <= n + 1 + k ensures all[x].role.Tool? {
      assert all[x] == rs[x - n - 1] && all[x] in rs;
    }
  }

  lemma OwnAnswered(ms: seq<Msg>, a: Msg, rs: seq<Msg>, c: Call)
    requires AllTools(rs) && Complete(a, rs) && c in a.calls
    ensures AnsweredAt(ms + ([a] + rs), |ms|, c)
  {
    hide InRunOf;
    var r :| r in rs && r.resultId == c.id;
    var k :| 0 <= k < |rs| && rs[k] == r;
    OwnRun(ms, a, rs, k);
  }

  lemma OwnDeclared(ms: seq<Msg>, a: Msg, rs: seq<Msg>, k: nat)
    requires AllTools(rs) && k < |rs| && Calling(a) && Declares(a, rs[k].resultId)
    ensures DeclaredAt(ms + ([a] + rs), |ms| + 1 + k)
  {
    hide InRunOf, Declares;
    OwnRun(ms, a, rs, k);
  }

  // ----- The rounds -----

  /** What the turn sees at one point of its run. */
  datatype Seen = Seen(
    graceful: bool, hardAbort: bool, refused: bool, steering: seq<Msg>, parentEnded: bool, subTurn: Option<string>,
    failed: bool, calls: seq<Call>, content: string, reasoning: string, fate: nat -> Fate)

  /** The text of a reply: its content, or its reasoning if that is all there is. */
  function TextOf(s: Seen): (text: string)
    ensures s.content != "" ==> text == s.content
    ensures s.content == "" ==> text == s.reasoning
  {
    if s.content == "" then s.reasoning else s.content
  }

  /** What is queued is neither call nor result, and no tool leaves a SubTurn result behind. */
  ghost predicate Quiet(s: Seen) {
    AllInert(s.steering)
    && forall i: nat :: s.fate(i).Ran? ==> s.fate(i).subTurn == None && AllInert(s.fate(i).steering)
  }

  /** The messages are paired, and what waits to be injected keeps them so. */
  ghost predicate Calm(messages: seq<Msg>, pending: seq<Msg>) {
    Paired(messages) && AllInert(pending)
  }

  datatype Status = Completed(final: string) | TurnAborted | TurnFailed

  /** What the loop of runTurn counts: iterations begun, model rounds, direct retries of an empty reply. */
  datatype Counters = Counters(iteration: nat, rounds: nat, retries: nat)

  /** A step of the loop that goes on: one more iteration, at most one model round. */
  predicate Within(c: Counters, max: int) {
    c.rounds <= c.iteration && (max > 0 ==> c.rounds <= 2 * max) && (max <= 0 ==> c.rounds == 0) && c.retries <= 1
  }

  /** Leave carries what was queued and not yet given to the model. */
  datatype RoundEnd = Again(pending: seq<Msg>) | Leave(final: string, left: seq<Msg>) | Stop(status: Status)

  /** Injecting the queued messages. */
  method Inject(log: Log, queue: seq<Msg>)
    modifies log
    ensures log.messages == old(log.messages) + queue
    ensures log.history == old(log.history) + queue && log.persisted == old(log.persisted) + queue
  {
    for i := 0 to |queue|
      invariant log.messages == old(log.messages) + queue[..i]
      invariant log.history == old(log.history) + queue[..i] && log.persisted == old(log.persisted) + queue[..i]
    {
      log.Add(queue[i]);
      assert queue[..i + 1] == queue[..i] + [queue[i]];
    }
    assert queue[..|queue|] == queue;
  }

  /** The same messages d have gone to the model's list and to the session, and were recorded if quiet. */
  predicate Grew(l0: Lists, l: Lists, d: seq<Msg>, quiet: bool) {
    l.messages == l0.messages + d && l.history == l0.history + d && (quiet ==> l.persisted == l0.persisted + d)
  }

  ghost predicate Alike(l0: Lists, l: Lists, quiet: bool) {
    exists d: seq<Msg> :: Grew(l0, l, d, quiet)
  }

  lemma AlikeStart(l: Lists, quiet: bool)
    ensures Alike(l, l, quiet)
  {
    assert l.messages + [] == l.messages && l.history + [] == l.history && l.persisted + [] == l.persisted;
    assert Grew(l, l, [], quiet);
  }

  lemma AlikeMore(l0: Lists, l: Lists, l': Lists, quiet: bool)
    requires Alike(l0, l, quiet) && Alike(l, l', quiet)
    ensures Alike(l0, l', quiet)
  {
    var d: seq<Msg> :| Grew(l0, l, d, quiet);
    var e: seq<Msg> :| Grew(l, l', e, quiet);
    assert l0.messages + d + e == l0.messages + (d + e) && l0.history + d + e == l0.history + (d + e);
    assert l0.persisted + d + e == l0.persisted + (d + e);
    assert Grew(l0, l', d + e, quiet);
  }

  lemma AlikeLess(l0: Lists, l: Lists, quiet: bool, less: bool)
    requires Alike(l0, l, quiet) && (less ==> quiet)
    ensures Alike(l0, l, less)
  {
    var d: seq<Msg> :| Grew(l0, l, d, quiet);
    assert Grew(l0, l, d, less);
  }

  lemma AllAlike(l0: Lists, l: Lists, more: seq<Msg>, quiet: bool)
    requires Alike(l0, l, quiet)
    ensures Alike(l0, Lists(l.messages + more, l.history + more, l.persisted + more), quiet)
  {
    var l' := Lists(l.messages + more, l.history + more, l.persisted + more);
    assert Grew(l, l', more, quiet);
    AlikeMore(l0, l, l', quiet);
  }

  lemma GrewAlike(l0: Lists, l: Lists, d: seq<Msg>, quiet: bool)
    requires Grew(l0, l, d, quiet)
    ensures Alike(l0, l, quiet)
  {
  }

  const DEFAULT_RESPONSE := "The model returned an empty response. This may indicate a provider error or token limit."

  /** What a round does to the messages, and how it ends; polls tells whether it looks for steering. */
  ghost predicate Outcome(before: seq<Msg>, after: seq<Msg>, polls: bool, pending: seq<Msg>, seen: Seen, again: Seen,
                          retries: nat, end: RoundEnd, asked: bool, retries': nat)
  {
    var steered := pending + if polls then seen.steering else [];
    var given := before + (steered + if seen.subTurn.Some? && seen.subTurn.value != ""
                                     then [Msg(User, [], "", "[SubTurn Result] " + seen.subTurn.value)] else []);
    && (asked <==> !seen.refused && !seen.parentEnded) && retries <= retries' <= 1
    && (end.Stop? ==> !end.status.Completed?)
    && if seen.refused then end == Stop(TurnFailed) && after == before && retries' == retries
       else if seen.parentEnded then end == Leave("", steered) && after == before && retries' == retries
       else if seen.failed then end == Stop(TurnFailed) && after == given && retries' == retries
       else if seen.calls == [] || seen.graceful then after == given && Replied(seen, again, retries, end, retries')
       else retries' == retries && given <= after && ToolsEnd(seen, end) && !end.Leave?
            && (end.Again? ==> ToolsAdded(given, after, seen))
  }

  lemma QuietSteering(s: Seen)
    ensures Quiet(s) ==> AllInert(s.steering)
  {
    hide Inert;
  }

  /** What the model is given before it is asked: what was queued, and then the SubTurn result. */
  method Give(log: Log, polled: seq<Msg>, subTurn: Option<string>, ghost quiet: bool)
    modifies log
    ensures log.messages == old(log.messages) + (polled + if subTurn.Some? && subTurn.value != ""
                                                          then [Msg(User, [], "", "[SubTurn Result] " + subTurn.value)] else [])
    ensures Calm(old(log.messages), polled) ==> Paired(log.messages)
    ensures Alike(old(log.Abs()), log.Abs(), quiet)
  {
    hide Paired, Inert, Alike, Grew;
    ghost var l0 := log.Abs();
    AlikeStart(l0, quiet);
    var queue := polled;
    if subTurn.Some? && subTurn.value != "" {
      SubTurnInert(subTurn.value);
      queue := queue + [SubTurnMsg(subTurn.value)];
    }
    Inject(log, queue);
    AllAlike(l0, l0, queue, quiet);
    if Calm(l0.messages, polled) { PairedInert(l0.messages, queue); }
  }

  /** One iteration of turnLoop, below the ceiling check: refused without asking the model; left because the
      parent turn has ended; or asked, with everything that was queued before it. */
  method Round(log: Log, iteration: nat, skipInitialPoll: bool, pending: seq<Msg>, seen: Seen, again: Seen, retries: nat)
    returns (end: RoundEnd, asked: bool, retries': nat)
    requires iteration > 0 && retries <= 1
    modifies log
    ensures Outcome(old(log.messages), log.messages, iteration > 1 || !skipInitialPoll, pending, seen, again, retries, end, asked, retries')
    ensures Calm(old(log.messages), pending) && Quiet(seen) && Quiet(again) && !end.Stop? ==>
              Calm(log.messages, if end.Again? then end.pending else end.left)
    ensures !end.Stop? ==> Alike(old(log.Abs()), log.Abs(), Quiet(seen))
  {
    hide Paired, Inert, ToolsAdded, ToolsEnd, TrimSpace, Replied, Quiet, Alike, Grew;
    ghost var l0 := log.Abs();
    AlikeStart(l0, Quiet(seen));
    QuietSteering(seen);
    ghost var calm := Calm(log.messages, pending) && Quiet(seen) && Quiet(again);
    asked, retries' := false, retries;
    if seen.refused {
      return Stop(TurnFailed), asked, retries';
    }
    var queue := pending;
    if iteration > 1 || !skipInitialPoll {
      queue := queue + seen.steering;
    }
    assert queue == pending + if iteration > 1 || !skipInitialPoll then seen.steering else [];
    if seen.parentEnded {
      return Leave("", queue), asked, retries';
    }
    Give(log, queue, seen.subTurn, Quiet(seen));
    asked := true;
    if seen.failed {
      return Stop(TurnFailed), asked, retries';
    }
    if |seen.calls| == 0 || seen.graceful {
      end, retries' := Reply(seen, again, retries);
    } else {
      ghost var l := log.Abs();
      end := RunTools(log, seen);
      if !end.Stop? { AlikeMore(l0, l, log.Abs(), Quiet(seen)); }
    }
  }

  /** The part of a round that takes a reply without tools. */
  method Reply(seen: Seen, again: Seen, retries: nat) returns (end: RoundEnd, retries': nat)
    requires retries <= 1
    ensures Replied(seen, again, retries, end, retries') && retries <= retries' <= 1 && (end.Stop? ==> !end.status.Completed?)
    ensures Quiet(again) && !end.Stop? ==> AllInert(if end.Again? then end.pending else end.left)
  {
    hide TrimSpace, Inert;
    retries' := retries;
    if again.steering != [] {
      return Again(again.steering), retries';
    }
    var text := if seen.content == "" && seen.reasoning != "" then seen.reasoning else seen.content;
    if TrimSpace(text) == "" && retries' < 1 {
      retries' := retries' + 1;
      if again.failed {
        return Stop(TurnFailed), retries';
      }
      text := if again.content == "" && again.reasoning != "" then again.reasoning else again.content;
    }
    if TrimSpace(text) == "" {
      text := DEFAULT_RESPONSE;
    }
    end := Leave(text, []);
  }

  /** What becomes of a reply without tools: more steering goes first; else the reply is the answer, a blank
      one after one direct retry in the turn, and a blank retry is replaced by the fallback text. */
  predicate Replied(seen: Seen, again: Seen, retries: nat, end: RoundEnd, retries': nat) {
    if again.steering != [] then end == Again(again.steering) && retries' == retries
    else if TrimSpace(TextOf(seen)) != "" then end == Leave(TextOf(seen), []) && retries' == retries
    else if retries >= 1 then end == Leave(DEFAULT_RESPONSE, []) && retries' == retries
    else
      retries' == retries + 1
      && end == if again.failed then Stop(TurnFailed)
                else Leave(if TrimSpace(TextOf(again)) != "" then TextOf(again) else DEFAULT_RESPONSE, [])
  }

  /** What becomes of a batch: it goes on exactly if no call breaks it, with what that call found queued. */
  ghost predicate ToolsEnd(seen: Seen, end: RoundEnd) {
    match end
    case Again(more) =>
      exists stop: nat :: FirstStop(seen.calls, seen.fate, stop) && NoBreak(seen.calls, seen.fate, stop)
                          && more == if stop < |seen.calls| then seen.fate(stop).steering else []
    case Stop(status) =>
      exists at: nat :: FirstBreak(seen.calls, seen.fate, at)
                        && status == if seen.fate(at).HookError? || (seen.fate(at).Ran? && !seen.fate(at).abortedMeanwhile)
                                     then TurnFailed else TurnAborted
    case Leave(_, _) => false
  }

  /** The part of a round that calls tools: the assistant message and the batch. */
  method RunTools(log: Log, seen: Seen) returns (end: RoundEnd)
    requires seen.calls != []
    modifies log
    ensures ToolsEnd(seen, end) && !end.Leave? && (end.Stop? ==> !end.status.Completed?)
    ensures old(log.messages) <= log.messages
    ensures end.Again? ==> ToolsAdded(old(log.messages), log.messages, seen)
    ensures end.Again? && Paired(old(log.messages)) && Quiet(seen) ==> Calm(log.messages, end.pending)
    ensures end.Again? ==> Alike(old(log.Abs()), log.Abs(), Quiet(seen))
  {
    hide Alike, BatchAdds, FirstStop, ToolsOf, Paired, Inert, Quiet, Given, FirstBreak, NoBreak;
    var a := Msg(Assistant, seen.calls, "", seen.content);
    ghost var before, l0 := log.messages, log.Abs();
    log.Add(a);
    var batchEnd, added, stop := RunBatch(log, seen.calls, seen.fate);
    match batchEnd {
      case Aborted => end := Stop(TurnAborted);
      case Failed => end := Stop(TurnFailed);
      case Ended(more) =>
        BatchReplies(seen, added, stop, a);
        assert before + [a] + added == before + ([a] + added);
        assert l0.history + [a] + added == l0.history + ([a] + added) && l0.persisted + [a] + added == l0.persisted + ([a] + added);
        if Quiet(seen) { QuietBatch(seen, added, stop); }
        GrewAlike(l0, log.Abs(), [a] + added, Quiet(seen));
        if Paired(before) && Quiet(seen) {
          QuietBatch(seen, added, stop);
          PairedTurn(before, a, added);
        }
        end := Again(more);
    }
  }

  ghost predicate ToolsAdded(before: seq<Msg>, after: seq<Msg>, seen: Seen) {
    var a := Msg(Assistant, seen.calls, "", seen.content);
    exists stop: nat :: FirstStop(seen.calls, seen.fate, stop)
                        && after == before + ([a] + Given(seen.calls, seen.fate, stop, |seen.calls|))
  }

  lemma BatchReplies(seen: Seen, added: seq<Msg>, stop: nat, a: Msg)
    requires BatchAdds(seen.calls, seen.fate, added, |seen.calls|, stop) && a.calls == seen.calls
    ensures added == Given(seen.calls, seen.fate, stop, |seen.calls|) && AllTools(ToolsOf(added)) && Complete(a, ToolsOf(added))
    ensures forall r | r in ToolsOf(added) :: Declares(a, r.resultId)
  {
    hide Given, ToolsOf, Complete, Declares;
    BatchBalanced(seen.calls, seen.fate, added, stop, a);
  }

  lemma SubTurnInert(content: string)
    ensures Inert(SubTurnMsg(content))
  {
  }

  /** Without SubTurn results a finished batch adds tool messages alone. */
  lemma QuietBatch(s: Seen, added: seq<Msg>, stop: nat)
    requires Quiet(s) && BatchAdds(s.calls, s.fate, added, |s.calls|, stop) && FirstStop(s.calls, s.fate, stop)
    ensures added == ToolsOf(added) && AllInert(if stop < |s.calls| then s.fate(stop).steering else [])
  {
    hide ToolsOf, Inert;
  }

  const TOOL_LIMIT := "I've reached `max_tool_iterations` without a final response. Increase `max_tool_iterations` in config.json if this task needs more tool steps."

  lemma CalmParts(ms: seq<Msg>, pending: seq<Msg>)
    ensures Calm(ms, pending) <==> Paired(ms) && AllInert(pending)
  {
  }

  lemma CalmMore(ms: seq<Msg>, pending: seq<Msg>, s: Seen)
    requires Calm(ms, pending) && Quiet(s)
    ensures Calm(ms, pending + s.steering)
  {
    hide Paired, Inert;
  }

  lemma CalmAnswer(ms: seq<Msg>, pending: seq<Msg>, m: Msg)
    requires Calm(ms, pending) && m.role.Assistant? && m.calls == []
    ensures Paired(ms + [m])
  {
    hide Paired;
    PairedInert(ms, [m]);
  }

  /** How the loop is left for good: at a ceiling, because the parent turn has ended, or with the reply of
      the round that looked first at this place of the schedule. */
  datatype Exit = Ceiling | ParentEnded(at: nat) | ByReply(at: nat, retried: bool)

  /** The round asks, the model replies without tools, and no steering is queued right behind. */
  predicate Replies(s: Seen, s': Seen) {
    !s.refused && !s.parentEnded && !s.failed && (s.calls == [] || s.graceful) && s'.steering == []
  }

  /** The next round looks here: right behind the last one, which goes on, or behind a re-entry. */
  predicate Going(seen: nat -> Seen, rounds: seq<nat>, look: nat) {
    if rounds == [] then look == 0
    else
      var last := rounds[|rounds| - 1];
      (look == last + 2 && !Replies(seen(last), seen(last + 1)) && !seen(last).parentEnded)
      || (look == last + 3 && seen(last + 2).steering != [])
  }

  /** The places of the schedule at which the rounds look: two looks each, and one more where steering that
      arrived behind the loop re-enters it.  A round that answers is followed only by way of that. */
  predicate Schedule(seen: nat -> Seen, rounds: seq<nat>)
    decreases |rounds|
  {
    rounds == [] || (Schedule(seen, rounds[..|rounds| - 1]) && Going(seen, rounds[..|rounds| - 1], rounds[|rounds| - 1]))
  }

  lemma ScheduleNext(seen: nat -> Seen, rounds: seq<nat>, look: nat)
    requires Schedule(seen, rounds) && Going(seen, rounds, look)
    ensures Schedule(seen, rounds + [look])
  {
    hide Going;
    assert (rounds + [look])[..|rounds|] == rounds;
  }

  lemma ScheduleStart(seen: nat -> Seen)
    ensures Schedule(seen, []) && Going(seen, [], 0)
  {
  }

  /** The text of an answer: the reply, else that of the direct retry, else the fallback. */
  predicate AnswerText(seen: nat -> Seen, at: nat, retried: bool, text: string) {
    text == if TrimSpace(TextOf(seen(at))) != "" then TextOf(seen(at))
            else if retried && TrimSpace(TextOf(seen(at + 1))) != "" then TextOf(seen(at + 1))
            else DEFAULT_RESPONSE
  }

  /** The exit and the text the loop is left with, before the look behind it. */
  predicate Leaving(seen: nat -> Seen, rounds: seq<nat>, look: nat, exit: Exit, final: string, c: Counters, max: int) {
    match exit
    case Ceiling =>
      final == "" && c.iteration >= max && Unanswered(seen, rounds)
      && (c.iteration >= 2 * max || (look == Behind(rounds) && |rounds| == c.iteration))
    case ParentEnded(at) =>
      rounds != [] && at == rounds[|rounds| - 1] && look == at + 2 && final == "" && seen(at).parentEnded
    case ByReply(at, retried) =>
      rounds != [] && at == rounds[|rounds| - 1] && look == at + 2 && final != ""
      && Replies(seen(at), seen(at + 1)) && AnswerText(seen, at, retried, final)
      && (retried ==> TrimSpace(TextOf(seen(at))) == "")
      && (!retried && TrimSpace(TextOf(seen(at))) == "" ==> c.retries == 1)
  }

  /** The last round, if any, neither answers nor ends with its parent, or steering follows it. */
  predicate Unanswered(seen: nat -> Seen, rounds: seq<nat>) {
    rounds == []
    || var last := rounds[|rounds| - 1];
       (!Replies(seen(last), seen(last + 1)) && !seen(last).parentEnded) || seen(last + 2).steering != []
  }

  function Behind(rounds: seq<nat>): nat {
    if rounds == [] then 0 else rounds[|rounds| - 1] + 2
  }

  /** The same, once no steering has followed. */
  predicate Left(seen: nat -> Seen, rounds: seq<nat>, exit: Exit, final: string, c: Counters, max: int) {
    if exit.Ceiling? then final == "" && c.iteration >= max && Unanswered(seen, rounds)
    else Leaving(seen, rounds, exit.at + 2, exit, final, c, max) && seen(exit.at + 2).steering == []
  }

  /** What was queued at first reaches the model with the first call. */
  predicate Delivered(before: seq<Msg>, initial: seq<Msg>, messages: seq<Msg>, pending: seq<Msg>, rounds: nat) {
    if rounds == 0 then messages == before && initial <= pending else before + initial <= messages
  }

  /** How a round of the loop leaves it, or goes on. */
  lemma RoundLeaves(seen: nat -> Seen, rounds: seq<nat>, at: nat, before: seq<Msg>, after: seq<Msg>, polls: bool, pending: seq<Msg>,
                    retries: nat, end: RoundEnd, asked: bool, c: Counters, max: int)
    requires rounds != [] && rounds[|rounds| - 1] == at
    requires Outcome(before, after, polls, pending, seen(at), seen(at + 1), retries, end, asked, c.retries)
    ensures end.Stop? ==> !end.status.Completed?
    ensures end.Leave? ==>
              Leaving(seen, rounds, at + 2, if asked then ByReply(at, c.retries > retries) else ParentEnded(at), end.final, c, max)
    ensures end.Again? ==> Going(seen, rounds, at + 2)
  {
    hide TrimSpace, ToolsEnd, ToolsAdded;
    TrimEmpty();
  }

  // What was queued is heard: it reaches the messages, or still waits.

  predicate Contains(ms: seq<Msg>, all: seq<Msg>) {
    forall m | m in ms :: m in all
  }

  /** What the round at this look found queued: when it polled, behind its reply, or behind the tool that
      stopped its batch. */
  ghost predicate HeardRound(seen: nat -> Seen, at: nat, polls: bool, all: seq<Msg>) {
    var s, s' := seen(at), seen(at + 1);
    !s.refused ==>
      (polls ==> Contains(s.steering, all))
      && (!s.parentEnded && !s.failed ==>
            if s.calls == [] || s.graceful then Contains(s'.steering, all)
            else forall stop: nat | stop < |s.calls| && FirstStop(s.calls, s.fate, stop) :: Contains(s.fate(stop).steering, all))
  }

  /** And so for all rounds, and for the steering that re-entered the loop. */
  ghost predicate Heard(seen: nat -> Seen, rounds: seq<nat>, skipFirst: bool, all: seq<Msg>)
    decreases |rounds|
  {
    rounds == []
    || var n := |rounds| - 1;
       Heard(seen, rounds[..n], skipFirst, all) && HeardRound(seen, rounds[n], n > 0 || !skipFirst, all)
       && (n > 0 && rounds[n] == rounds[n - 1] + 3 ==> Contains(seen(rounds[n - 1] + 2).steering, all))
  }

  /** Steering that re-entered the loop waits for the next round. */
  predicate Waits(seen: nat -> Seen, rounds: seq<nat>, look: nat, all: seq<Msg>) {
    rounds != [] && look == rounds[|rounds| - 1] + 3 ==> Contains(seen(look - 1).steering, all)
  }

  lemma HeardMoreRound(seen: nat -> Seen, at: nat, polls: bool, all: seq<Msg>, all': seq<Msg>)
    requires HeardRound(seen, at, polls, all) && Contains(all, all')
    ensures HeardRound(seen, at, polls, all')
  {
    hide FirstStop;
  }

  lemma {:induction false} HeardMore(seen: nat -> Seen, rounds: seq<nat>, skipFirst: bool, all: seq<Msg>, all': seq<Msg>)
    requires Heard(seen, rounds, skipFirst, all) && Contains(all, all')
    ensures Heard(seen, rounds, skipFirst, all')
    decreases |rounds|
  {
    hide HeardRound;
    if rounds != [] {
      var n := |rounds| - 1;
      HeardMore(seen, rounds[..n], skipFirst, all, all');
      HeardMoreRound(seen, rounds[n], n > 0 || !skipFirst, all, all');
    }
  }

  lemma OneStop(calls: seq<Call>, fate: nat -> Fate, stop: nat, stop': nat)
    requires FirstStop(calls, fate, stop) && FirstStop(calls, fate, stop') && stop < |calls|
    ensures stop' == stop || (stop' >= |calls| && stop' < stop)
  {
    assert stop' < stop ==> stop' >= |calls| || Stops(fate(stop'));
    assert stop < stop' ==> Stops(fate(stop));
  }

  /** What a finished batch leaves queued is what the stopping call found. */
  lemma ToolsHeard(s: Seen, end: RoundEnd, all: seq<Msg>)
    requires end.Again? && ToolsEnd(s, end) && Contains(end.pending, all)
    ensures forall stop: nat | stop < |s.calls| && FirstStop(s.calls, s.fate, stop) :: Contains(s.fate(stop).steering, all)
  {
    hide NoBreak, Contains;
    forall stop': nat | stop' < |s.calls| && FirstStop(s.calls, s.fate, stop') ensures Contains(s.fate(stop').steering, all) {
      var stop: nat :| FirstStop(s.calls, s.fate, stop) && NoBreak(s.calls, s.fate, stop)
                       && (stop < |s.calls| ==> s.fate(stop).Ran?)
                       && end.pending == if stop < |s.calls| then s.fate(stop).steering else [];
      OneStop(s.calls, s.fate, stop', stop);
      assert stop <= stop' ==> stop == stop';
      assert stop > stop' ==> stop == stop' || !Stops(s.fate(stop'));
    }
  }

  /** A round that does not end the turn has heard what it found. */
  lemma OutcomeHeard(seen: nat -> Seen, at: nat, before: seq<Msg>, after: seq<Msg>, polls: bool, pending: seq<Msg>,
                     retries: nat, end: RoundEnd, asked: bool, retries': nat)
    requires Outcome(before, after, polls, pending, seen(at), seen(at + 1), retries, end, asked, retries') && !end.Stop?
    ensures var all := after + if end.Again? then end.pending else end.left;
            HeardRound(seen, at, polls, all) && Contains(before + pending, all)
  {
    hide TrimSpace, ToolsAdded, FirstStop, ToolsEnd;
    var steered := pending + if polls then seen(at).steering else [];
    var all := after + if end.Again? then end.pending else end.left;
    if asked {
      var given := before + (steered + if seen(at).subTurn.Some? && seen(at).subTurn.value != ""
                                       then [Msg(User, [], "", "[SubTurn Result] " + seen(at).subTurn.value)] else []);
      assert forall m | m in before + steered :: m in given;
      assert given <= after && forall m | m in given :: m in after;
      assert forall m | m in after :: m in all;
    }
    assert forall m | m in before + steered :: m in all;
    if end.Again? && seen(at).calls != [] && !seen(at).graceful {
      ToolsHeard(seen(at), end, after + end.pending);
    }
  }

  lemma HeardNext(seen: nat -> Seen, rounds: seq<nat>, skipFirst: bool, all: seq<Msg>, at: nat, all': seq<Msg>)
    requires Heard(seen, rounds, skipFirst, all) && Waits(seen, rounds, at, all) && Contains(all, all')
    requires HeardRound(seen, at, rounds != [] || !skipFirst, all')
    ensures Heard(seen, rounds + [at], skipFirst, all')
  {
    hide HeardRound;
    HeardMore(seen, rounds, skipFirst, all, all');
    assert (rounds + [at])[..|rounds|] == rounds;
  }

  /** The loop invariant over one round. */
  lemma RoundHeard(seen: nat -> Seen, rounds: seq<nat>, skipFirst: bool, at: nat, before: seq<Msg>, after: seq<Msg>, polls: bool,
                   pending: seq<Msg>, retries: nat, end: RoundEnd, asked: bool, retries': nat)
    requires rounds != [] && rounds[|rounds| - 1] == at && (polls <==> |rounds| > 1 || !skipFirst)
    requires Heard(seen, rounds[..|rounds| - 1], skipFirst, before + pending) && Waits(seen, rounds[..|rounds| - 1], at, before + pending)
    requires Outcome(before, after, polls, pending, seen(at), seen(at + 1), retries, end, asked, retries') && !end.Stop?
    ensures var all := after + if end.Again? then end.pending else end.left;
            Heard(seen, rounds, skipFirst, all) && Waits(seen, rounds, at + 2, all)
    ensures end.Leave? && asked ==> end.left == []
  {
    hide Heard, HeardRound, ToolsEnd, ToolsAdded, TrimSpace;
    var front := rounds[..|rounds| - 1];
    assert rounds == front + [at];
    OutcomeHeard(seen, at, before, after, polls, pending, retries, end, asked, retries');
    HeardNext(seen, front, skipFirst, before + pending, at, after + if end.Again? then end.pending else end.left);
  }

  lemma HeardStart(seen: nat -> Seen, skipFirst: bool, all: seq<Msg>)
    ensures Heard(seen, [], skipFirst, all) && Waits(seen, [], 0, all)
  {
  }

  // The loop, as one invariant and what it leaves.

  /** Where the loop stands before a round: the rounds so far, and the look that comes next. */
  ghost predicate Turning(t: TurnOf, messages: seq<Msg>, pending: seq<Msg>, look: nat, c: Counters, rounds: seq<nat>) {
    && Tally(t, messages, pending, c, rounds) && |rounds| == c.iteration && Going(t.seen, rounds, look)
    && Heard(t.seen, rounds, t.skip, messages + pending) && Waits(t.seen, rounds, look, messages + pending)
  }

  /** What a turn starts from, and what it sees. */
  datatype TurnOf = TurnOf(before: seq<Msg>, initial: seq<Msg>, max: int, skip: bool, seen: nat -> Seen)

  ghost predicate Tally(t: TurnOf, messages: seq<Msg>, pending: seq<Msg>, c: Counters, rounds: seq<nat>) {
    && Within(c, t.max) && Schedule(t.seen, rounds) && c.rounds <= |rounds| <= c.iteration
    && Delivered(t.before, t.initial, messages, pending, c.rounds)
  }

  /** The loop has been left, before the look behind it. */
  ghost predicate Done(t: TurnOf, messages: seq<Msg>, pending: seq<Msg>, look: nat, c: Counters, rounds: seq<nat>, exit: Exit, final: string) {
    && Tally(t, messages, pending, c, rounds) && Leaving(t.seen, rounds, look, exit, final, c, t.max)
    && Heard(t.seen, rounds, t.skip, messages + pending)
    && (exit.ByReply? ==> pending == []) && (c.iteration < 2 * t.max ==> |rounds| == c.iteration)
  }

  /** And for good. */
  ghost predicate Over(t: TurnOf, messages: seq<Msg>, pending: seq<Msg>, c: Counters, rounds: seq<nat>, exit: Exit, final: string) {
    && Tally(t, messages, pending, c, rounds) && Left(t.seen, rounds, exit, final, c, t.max)
    && (exit.ByReply? ==> Heard(t.seen, rounds, t.skip, messages))
  }

  function Counted(c: Counters, asked: bool, retries: nat): Counters {
    Counters(c.iteration + 1, c.rounds + (if asked then 1 else 0), retries)
  }

  function Queued(end: RoundEnd, pending: seq<Msg>): seq<Msg> {
    match end
    case Again(more) => more
    case Leave(_, left) => left
    case Stop(_) => pending
  }

  function ExitOf(end: RoundEnd, look: nat, asked: bool, retried: bool): Exit {
    if asked then ByReply(look, retried) else ParentEnded(look)
  }

  /** One round. */
  lemma RoundTurns(t: TurnOf, messages: seq<Msg>, pending: seq<Msg>, look: nat, c: Counters, rounds: seq<nat>,
                   after: seq<Msg>, end: RoundEnd, asked: bool, retries: nat)
    requires Turning(t, messages, pending, look, c, rounds) && c.iteration < 2 * t.max
    requires Outcome(messages, after, c.iteration > 0 || !t.skip, pending, t.seen(look), t.seen(look + 1), c.retries, end, asked, retries)
    ensures var c', rounds' := Counted(c, asked, retries), rounds + [look];
            messages <= after && Tally(t, after, Queued(end, pending), c', rounds')
            && (end.Stop? ==> !end.status.Completed?)
            && (end.Again? ==> Turning(t, after, end.pending, look + 2, c', rounds') && look + 2 == Behind(rounds'))
            && (end.Leave? ==> Done(t, after, end.left, look + 2, c', rounds', ExitOf(end, look, asked, retries > c.retries), end.final))
  {
    hide TrimSpace, Replies, AnswerText, Replied, Going, Leaving, Delivered, Outcome, Heard, Waits, Schedule;
    var c', rounds' := Counted(c, asked, retries), rounds + [look];
    var polls := c.iteration > 0 || !t.skip;
    assert rounds'[..|rounds'| - 1] == rounds;
    ScheduleNext(t.seen, rounds, look);
    OutcomeRetries(messages, after, polls, pending, t.seen(look), t.seen(look + 1), c.retries, end, asked, retries);
    RoundLeaves(t.seen, rounds', look, messages, after, polls, pending, c.retries, end, asked, c', t.max);
    RoundDelivers(t.before, t.initial, c.rounds, messages, after, polls, pending, t.seen(look), t.seen(look + 1), c.retries, end, asked, retries);
    if !end.Stop? {
      RoundHeard(t.seen, rounds', t.skip, look, messages, after, polls, pending, c.retries, end, asked, retries);
    }
  }

  lemma CeilingDone(t: TurnOf, messages: seq<Msg>, pending: seq<Msg>, look: nat, c: Counters, rounds: seq<nat>)
    requires Turning(t, messages, pending, look, c, rounds) && c.iteration >= 2 * t.max
    ensures Done(t, messages, pending, look, c.(iteration := c.iteration + 1), rounds, Ceiling, "")
  {
    hide Replies, Delivered, Heard, Waits, Schedule;
  }

  lemma GuardDone(t: TurnOf, messages: seq<Msg>, pending: seq<Msg>, look: nat, c: Counters, rounds: seq<nat>)
    requires Turning(t, messages, pending, look, c, rounds) && c.iteration >= t.max
    requires c.iteration > 0 ==> look == Behind(rounds)
    requires pending == []
    ensures Done(t, messages, pending, look, c, rounds, Ceiling, "")
  {
    hide Replies, Delivered, Heard, Waits, Schedule;
  }

  /** Steering behind the loop re-enters it below the ceiling, and takes the answer away at it. */
  lemma SteeringBehind(t: TurnOf, messages: seq<Msg>, pending: seq<Msg>, look: nat, c: Counters, rounds: seq<nat>, exit: Exit, final: string)
    requires Done(t, messages, pending, look, c, rounds, exit, final) && t.seen(look).steering != []
    ensures c.iteration < 2 * t.max ==> Turning(t, messages, pending + t.seen(look).steering, look + 1, c, rounds)
    ensures c.iteration >= 2 * t.max ==> Over(t, messages, pending + t.seen(look).steering, c, rounds, Ceiling, "")
  {
    hide Replies, AnswerText, TrimSpace, Delivered, Heard, Waits, Schedule, Leaving, Left, Going;
    DeliveredMore(t.before, t.initial, messages, pending, t.seen(look).steering, c.rounds);
    SteeringWaits(t.seen, rounds, t.skip, look, messages, pending);
    if c.iteration < 2 * t.max {
      Reenters(t.seen, rounds, look, exit, final, c, t.max);
    } else {
      SteeredOut(t.seen, rounds, look, exit, final, c, t.max);
    }
  }

  lemma NothingBehind(t: TurnOf, messages: seq<Msg>, pending: seq<Msg>, look: nat, c: Counters, rounds: seq<nat>, exit: Exit, final: string)
    requires Done(t, messages, pending, look, c, rounds, exit, final) && t.seen(look).steering == []
    ensures Over(t, messages, pending, c, rounds, exit, final)
  {
    hide Replies, AnswerText, TrimSpace, Delivered, Heard, Schedule, Leaving, Left;
    LeftFor(t.seen, rounds, look, exit, final, c, t.max);
    assert pending == [] ==> messages + pending == messages;
  }

  lemma TurnStart(t: TurnOf)
    ensures Turning(t, t.before, t.initial, 0, Counters(0, 0, 0), [])
  {
    hide Schedule, Heard, Waits;
    ScheduleStart(t.seen);
    HeardStart(t.seen, t.skip, t.before + t.initial);
  }

  lemma TallyMeans(t: TurnOf, messages: seq<Msg>, pending: seq<Msg>, c: Counters, rounds: seq<nat>)
    requires Tally(t, messages, pending, c, rounds)
    ensures Within(c, t.max) && Schedule(t.seen, rounds) && c.rounds <= |rounds| <= c.iteration
    ensures c.rounds > 0 ==> t.before + t.initial <= messages
  {
    hide Schedule;
  }

  lemma OverMeans(t: TurnOf, messages: seq<Msg>, pending: seq<Msg>, c: Counters, rounds: seq<nat>, exit: Exit, final: string, answer: Msg)
    requires Over(t, messages, pending, c, rounds, exit, final)
    ensures exit.ByReply? ==> Heard(t.seen, rounds, t.skip, messages + [answer])
    ensures Left(t.seen, rounds, exit, final, c, t.max)
  {
    hide Schedule, Heard, Left;
    if exit.ByReply? { HeardMore(t.seen, rounds, t.skip, messages, messages + [answer]); }
  }

  /** turnLoop: rounds until one leaves the loop or a ceiling is met.  stopped holds the status of a turn that
      ends there and then. */
  method Loop(log: Log, ghost before: seq<Msg>, ghost initial: seq<Msg>, max: int, skipInitialPoll: bool, seen: nat -> Seen,
              pending0: seq<Msg>, look0: nat, c0: Counters, ghost rounds0: seq<nat>)
    returns (stopped: Option<Status>, pending: seq<Msg>, final: string, look: nat, c: Counters, ghost exit: Exit, ghost rounds: seq<nat>)
    requires Turning(TurnOf(before, initial, max, skipInitialPoll, seen), log.messages, pending0, look0, c0, rounds0)
    requires c0.iteration == 0 || (pending0 != [] && c0.iteration < 2 * max)
    modifies log
    ensures Tally(TurnOf(before, initial, max, skipInitialPoll, seen), log.messages, pending, c, rounds)
    ensures old(log.messages) <= log.messages
    ensures stopped.Some? ==> !stopped.value.Completed?
    ensures stopped.None? ==> Done(TurnOf(before, initial, max, skipInitialPoll, seen), log.messages, pending, look, c, rounds, exit, final)
    ensures stopped.None? && c.iteration < 2 * max ==> c.iteration > c0.iteration
    ensures stopped.None? && Calm(old(log.messages), pending0) && (forall n: nat :: Quiet(seen(n))) ==> Calm(log.messages, pending)
    ensures stopped.None? ==> Alike(old(log.Abs()), log.Abs(), forall n: nat :: Quiet(seen(n)))
  {
    hide Alike, Calm, Quiet, Turning, Tally, Done, Outcome;
    ghost var t := TurnOf(before, initial, max, skipInitialPoll, seen);
    ghost var quiet := forall n: nat :: Quiet(seen(n));
    ghost var calm := Calm(log.messages, pending0) && quiet;
    ghost var l0 := log.Abs();
    AlikeStart(l0, quiet);
    stopped, pending, final, look, c := None, pending0, "", look0, c0;
    exit, rounds := Ceiling, rounds0;
    TurningTally(t, log.messages, pending, look, c, rounds);
    while c.iteration < max || pending != [] || seen(look).graceful
      invariant Turning(t, log.messages, pending, look, c, rounds) && Tally(t, log.messages, pending, c, rounds)
      invariant c.iteration >= c0.iteration && c.retries <= 1
      invariant c.iteration == c0.iteration ==> pending == pending0
      invariant c.iteration > c0.iteration ==> look == Behind(rounds) && c.iteration <= 2 * max
      invariant old(log.messages) <= log.messages
      invariant calm ==> Calm(log.messages, pending)
      invariant Alike(l0, log.Abs(), quiet)
      invariant exit == Ceiling && final == "" && stopped == None
      decreases 2 * max + 1 - c.iteration
    {
      if seen(look).hardAbort {
        stopped := Some(TurnAborted);
        return;
      }
      if c.iteration + 1 > 2 * max {
        CeilingDone(t, log.messages, pending, look, c, rounds);
        DoneTally(t, log.messages, pending, look, c.(iteration := c.iteration + 1), rounds, Ceiling, "");
        c := c.(iteration := c.iteration + 1);
        return;
      }
      ghost var messages, l := log.messages, log.Abs();
      var end, asked, retries := Round(log, c.iteration + 1, skipInitialPoll, pending, seen(look), seen(look + 1), c.retries);
      if !end.Stop? {
        AlikeLess(l, log.Abs(), Quiet(seen(look)), quiet);
        AlikeMore(l0, l, log.Abs(), quiet);
      }
      RoundTurns(t, messages, pending, look, c, rounds, log.messages, end, asked, retries);
      exit := if end.Leave? then ExitOf(end, look, asked, retries > c.retries) else Ceiling;
      rounds := rounds + [look];
      c := Counted(c, asked, retries);
      look := look + 2;
      match end {
        case Again(more) =>
          pending := more;
          TurningTally(t, log.messages, pending, look, c, rounds);
        case Leave(text, left) =>
          pending, final := left, text;
          return;
        case Stop(st) =>
          stopped := Some(st);
          return;
      }
    }
    GuardDone(t, log.messages, pending, look, c, rounds);
  }

  lemma TurningTally(t: TurnOf, messages: seq<Msg>, pending: seq<Msg>, look: nat, c: Counters, rounds: seq<nat>)
    requires Turning(t, messages, pending, look, c, rounds)
    ensures Tally(t, messages, pending, c, rounds) && c.retries <= 1 && |rounds| == c.iteration
  {
    hide Schedule, Delivered, Going, Heard, Waits;
  }

  lemma DoneTally(t: TurnOf, messages: seq<Msg>, pending: seq<Msg>, look: nat, c: Counters, rounds: seq<nat>, exit: Exit, final: string)
    requires Done(t, messages, pending, look, c, rounds, exit, final)
    ensures Tally(t, messages, pending, c, rounds)
  {
    hide Schedule, Delivered, Leaving, Heard;
  }

  /** The loop and the re-entry when steering arrives after it.  stopped holds the status of a turn that ends
      there and then. */
  method Rounds(log: Log, max: int, skipInitialPoll: bool, initial: seq<Msg>, seen: nat -> Seen)
    returns (stopped: Option<Status>, pending: seq<Msg>, final: string, look: nat, c: Counters, ghost exit: Exit, ghost rounds: seq<nat>)
    modifies log
    ensures old(log.messages) <= log.messages
    ensures Tally(TurnOf(old(log.messages), initial, max, skipInitialPoll, seen), log.messages, pending, c, rounds)
    ensures stopped.Some? ==> !stopped.value.Completed?
    ensures stopped.None? ==>
              Over(TurnOf(old(log.messages), initial, max, skipInitialPoll, seen), log.messages, pending, c, rounds, exit, final)
              && Alike(old(log.Abs()), log.Abs(), forall n: nat :: Quiet(seen(n)))
    ensures stopped.None? && Paired(old(log.messages)) && AllInert(initial) && (forall n: nat :: Quiet(seen(n))) ==>
              Calm(log.messages, pending)
  {
    hide Alike, Calm, Quiet, Paired, AllInert, Turning, Tally, Done, Over;
    ghost var quiet := forall n: nat :: Quiet(seen(n));
    ghost var calm := Paired(log.messages) && AllInert(initial) && quiet;
    ghost var l0 := log.Abs();
    AlikeStart(l0, quiet);
    ghost var t := TurnOf(log.messages, initial, max, skipInitialPoll, seen);
    CalmParts(log.messages, initial);
    c := Counters(0, 0, 0);
    exit, rounds := Ceiling, [];
    TurnStart(t);
    TurningTally(t, log.messages, initial, 0, c, rounds);
    stopped, pending, final, look := None, initial, "", 0;
    var reenter := true;
    while reenter
      invariant old(log.messages) <= log.messages && Tally(t, log.messages, pending, c, rounds) && stopped.None?
      invariant reenter ==> Turning(t, log.messages, pending, look, c, rounds)
                            && (c.iteration == 0 || (pending != [] && c.iteration < 2 * max))
      invariant !reenter ==> Over(t, log.messages, pending, c, rounds, exit, final)
      invariant calm ==> Calm(log.messages, pending)
      invariant Alike(l0, log.Abs(), quiet)
      decreases reenter, 2 * max - c.iteration
    {
      ghost var l := log.Abs();
      stopped, pending, final, look, c, exit, rounds :=
        Loop(log, old(log.messages), initial, max, skipInitialPoll, seen, pending, look, c, rounds);
      if stopped.Some? {
        return;
      }
      AlikeMore(l0, l, log.Abs(), quiet);
      reenter := false;
      if seen(look).steering != [] {
        SteeringBehind(t, log.messages, pending, look, c, rounds, exit, final);
        if calm { CalmMore(log.messages, pending, seen(look)); }
        pending := pending + seen(look).steering;
        if c.iteration < 2 * max {
          TurningTally(t, log.messages, pending, look + 1, c, rounds);
          reenter := true;
        } else {
          OverTally(t, log.messages, pending, c, rounds, Ceiling, "");
        }
        final, exit := "", Ceiling;
      } else {
        NothingBehind(t, log.messages, pending, look, c, rounds, exit, final);
        OverTally(t, log.messages, pending, c, rounds, exit, final);
      }
      look := look + 1;
    }
  }

  /** runTurn: the rounds, what ends them, and the answer that is added.  seen is the
      schedule: what the turn sees at its successive looks. */
  method RunTurn(log: Log, max: int, skipInitialPoll: bool, initial: seq<Msg>, defaultResponse: string, seen: nat -> Seen)
    returns (status: Status, c: Counters, ghost exit: Exit, ghost rounds: seq<nat>)
    modifies log
    ensures Within(c, max)
    ensures old(log.messages) <= log.messages
    ensures c.rounds > 0 ==> old(log.messages) + initial <= log.messages
    ensures status.Completed? && exit.ByReply? ==> Heard(seen, rounds, skipInitialPoll, log.messages)
    ensures Schedule(seen, rounds) && c.rounds <= |rounds| <= c.iteration
    ensures status.Completed? ==> log.history != [] && log.history[|log.history| - 1] == Msg(Assistant, [], "", status.final)
    ensures status.Completed? && exit.ByReply? ==>
              rounds != [] && exit.at == rounds[|rounds| - 1] && Replies(seen(exit.at), seen(exit.at + 1))
              && seen(exit.at + 2).steering == [] && AnswerText(seen, exit.at, exit.retried, status.final)
              && (exit.retried ==> TrimSpace(TextOf(seen(exit.at))) == "")
              && (!exit.retried && TrimSpace(TextOf(seen(exit.at))) == "" ==> c.retries == 1)
    ensures status.Completed? && exit.ParentEnded? ==>
              rounds != [] && exit.at == rounds[|rounds| - 1] && seen(exit.at).parentEnded && seen(exit.at + 2).steering == []
    ensures status.Completed? && exit.Ceiling? ==> c.iteration >= max && Unanswered(seen, rounds)
    ensures status.Completed? && !exit.ByReply? ==>
              status.final == if c.iteration >= max && max > 0 then TOOL_LIMIT else defaultResponse
    ensures status.Completed? && Paired(old(log.messages)) && AllInert(initial) && (forall n: nat :: Quiet(seen(n))) ==>
              Paired(log.messages)
    ensures status.Completed? ==> Alike(old(log.Abs()), log.Abs(), forall n: nat :: Quiet(seen(n)))
  {
    hide Alike, Grew, Calm, Quiet, Paired, AllInert, Schedule, TrimSpace, Replies, AnswerText, Unanswered, Heard, Turning, Tally, Done, Over, Within, Left;
    ghost var quiet := forall n: nat :: Quiet(seen(n));
    ghost var calm := Paired(log.messages) && AllInert(initial) && quiet;
    ghost var l0 := log.Abs();
    ghost var t := TurnOf(log.messages, initial, max, skipInitialPoll, seen);
    var stopped, pending, final, look;
    stopped, pending, final, look, c, exit, rounds := Rounds(log, max, skipInitialPoll, initial, seen);
    TallyMeans(t, log.messages, pending, c, rounds);
    if stopped.Some? {
      return stopped.value, c, exit, rounds;
    }
    if seen(look).hardAbort {
      return TurnAborted, c, exit, rounds;
    }
    ghost var messages, text := log.messages, final;
    if final == "" {
      final := if c.iteration >= max && max > 0 then TOOL_LIMIT else defaultResponse;
    }
    var answer := Msg(Assistant, [], "", final);
    ghost var l := log.Abs();
    log.Add(answer);
    AllAlike(l0, l, [answer], quiet);
    OverMeans(t, messages, pending, c, rounds, exit, text, answer);
    LeftMeans(seen, rounds, exit, text, c, max);
    if calm { CalmAnswer(messages, pending, answer); }
    status := Completed(final);
  }

  lemma OverTally(t: TurnOf, messages: seq<Msg>, pending: seq<Msg>, c: Counters, rounds: seq<nat>, exit: Exit, final: string)
    requires Over(t, messages, pending, c, rounds, exit, final)
    ensures Tally(t, messages, pending, c, rounds)
  {
    hide Schedule, Delivered, Left, Heard;
  }

  lemma OutcomeRetries(before: seq<Msg>, after: seq<Msg>, polls: bool, pending: seq<Msg>, seen: Seen, again: Seen,
                       retries: nat, end: RoundEnd, asked: bool, retries': nat)
    requires Outcome(before, after, polls, pending, seen, again, retries, end, asked, retries')
    ensures retries <= retries' <= 1 && before <= after
  {
    hide ToolsEnd, ToolsAdded, Replied;
  }

  lemma RoundDelivers(history: seq<Msg>, initial: seq<Msg>, rounds: nat, before: seq<Msg>, after: seq<Msg>, polls: bool,
                      pending: seq<Msg>, seen: Seen, again: Seen, retries: nat, end: RoundEnd, asked: bool, retries': nat)
    requires Delivered(history, initial, before, pending, rounds)
    requires Outcome(before, after, polls, pending, seen, again, retries, end, asked, retries')
    ensures Delivered(history, initial, after, Queued(end, pending), rounds + if asked then 1 else 0)
  {
    hide TrimSpace, ToolsEnd, ToolsAdded, Replied;
  }

  /** The loop re-enters behind steering. */
  lemma Reenters(seen: nat -> Seen, rounds: seq<nat>, look: nat, exit: Exit, final: string, c: Counters, max: int)
    requires Leaving(seen, rounds, look, exit, final, c, max) && seen(look).steering != [] && c.iteration < 2 * max
    requires |rounds| == c.iteration
    ensures Going(seen, rounds, look + 1)
  {
    hide Replies, AnswerText, TrimSpace;
  }

  lemma SteeringWaits(seen: nat -> Seen, rounds: seq<nat>, skipFirst: bool, look: nat, messages: seq<Msg>, pending: seq<Msg>)
    requires Heard(seen, rounds, skipFirst, messages + pending)
    ensures Heard(seen, rounds, skipFirst, messages + (pending + seen(look).steering))
    ensures Waits(seen, rounds, look + 1, messages + (pending + seen(look).steering))
  {
    hide Heard;
    HeardMore(seen, rounds, skipFirst, messages + pending, messages + (pending + seen(look).steering));
  }

  lemma DeliveredMore(before: seq<Msg>, initial: seq<Msg>, messages: seq<Msg>, pending: seq<Msg>, more: seq<Msg>, rounds: nat)
    requires Delivered(before, initial, messages, pending, rounds)
    ensures Delivered(before, initial, messages, pending + more, rounds)
  {
  }

  lemma LeftFor(seen: nat -> Seen, rounds: seq<nat>, look: nat, exit: Exit, final: string, c: Counters, max: int)
    requires Leaving(seen, rounds, look, exit, final, c, max) && seen(look).steering == []
    ensures Left(seen, rounds, exit, final, c, max)
  {
    hide Replies, AnswerText, TrimSpace;
  }

  /** Steering that arrives at the ceiling takes the answer away. */
  lemma SteeredOut(seen: nat -> Seen, rounds: seq<nat>, look: nat, exit: Exit, final: string, c: Counters, max: int)
    requires Leaving(seen, rounds, look, exit, final, c, max) && seen(look).steering != [] && c.iteration >= 2 * max
    ensures Left(seen, rounds, Ceiling, "", c, max)
  {
    hide Replies, AnswerText, TrimSpace;
  }

  lemma LeftMeans(seen: nat -> Seen, rounds: seq<nat>, exit: Exit, final: string, c: Counters, max: int)
    requires Left(seen, rounds, exit, final, c, max)
    ensures exit.Ceiling? ==> final == "" && c.iteration >= max && Unanswered(seen, rounds)
    ensures !exit.Ceiling? ==> rounds != [] && exit.at == rounds[|rounds| - 1] && seen(exit.at + 2).steering == []
    ensures exit.ParentEnded? ==> final == "" && seen(exit.at).parentEnded
    ensures exit.ByReply? ==>
              final != "" && Replies(seen(exit.at), seen(exit.at + 1)) && AnswerText(seen, exit.at, exit.retried, final)
              && (exit.retried ==> TrimSpace(TextOf(seen(exit.at))) == "")
              && (!exit.retried && TrimSpace(TextOf(seen(exit.at))) == "" ==> c.retries == 1)
  {
    hide Replies, AnswerText, TrimSpace;
  }

  // ----- A batch and the restore point -----

  /** A batch without a SubTurn result in it keeps the account of the restore point: the session is still
      the restore point followed by what the turn has recorded. */
  lemma BatchAccounted(st: RestorePoint.State, k: nat, calls: seq<Call>, fate: nat -> Fate, added: seq<Msg>, stop: nat)
    requires RestorePoint.Holds(st, k) && BatchAdds(calls, fate, added, |calls|, stop)
    requires forall i: nat | i < |calls| && fate(i).Ran? :: fate(i).subTurn == None
    ensures RestorePoint.Holds(RestorePoint.State(st.history + added, st.restore, st.persisted + ToolsOf(added)), k + |calls|)
  {
    hide ToolsOf, RestorePoint.Holds;
    WrittenHolds(st, k, added);
  }

  /** So a turn in which no tool leaves a SubTurn result keeps it from beginning to end. */
  lemma TurnAccounted(l0: Lists, l: Lists, restore: seq<Msg>, k: nat) returns (k': nat)
    requires RestorePoint.Holds(RestorePoint.State(l0.history, restore, l0.persisted), k) && Alike(l0, l, true)
    ensures RestorePoint.Holds(RestorePoint.State(l.history, restore, l.persisted), k')
    ensures k' - k == |l.history| - |l0.history|
  {
    hide RestorePoint.Holds;
    var d: seq<Msg> :| Grew(l0, l, d, true);
    WrittenHolds(RestorePoint.State(l0.history, restore, l0.persisted), k, d);
    k' := k + |d|;
  }

  /** Messages that are written and recorded together keep the account. */
  lemma WrittenHolds(st: RestorePoint.State, k: nat, ms: seq<Msg>)
    requires RestorePoint.Holds(st, k)
    ensures RestorePoint.Holds(RestorePoint.State(st.history + ms, st.restore, st.persisted + ms), k + |ms|)
  {
    TailAppend(st.persisted, k, ms);
    assert st.restore + st.persisted[|st.persisted| - k..] + ms == st.restore + (st.persisted[|st.persisted| - k..] + ms);
  }

  lemma TailAppend(p: seq<Msg>, k: nat, ms: seq<Msg>)
    requires k <= |p|
    ensures (p + ms)[|p + ms| - (k + |ms|)..] == p[|p| - k..] + ms
  {
  }
}
