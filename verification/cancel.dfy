/** The cancel protocol of pkg/agent/cancel.go and pkg/agent/turn.go: any number of cancel requests,
    interrupts, Finish calls and transcript writers on one turn, in any interleaving.  Each atomic
    action of a thread is one step. */
module Cancel {
  import opened Json

  // ----- The turn -----

  /** The fields the protocol shares; callback names the request that registered it. */
  datatype Flags = Flags(
    cancelFired: bool, callback: Option<nat>, finished: bool, abandoned: bool, hardAbort: bool, graceful: bool)

  const FRESH := Flags(false, None, false, false, false, false)

  /** turnState, one method per critical section. */
  class TurnState {
    var cancelFired: bool
    var onCancelFinish: Option<nat>
    var isFinished: bool
    var abandoned: bool
    var hardAbort: bool
    var gracefulInterrupt: bool

    constructor ()
      ensures Abs() == FRESH
    {
      cancelFired, onCancelFinish, isFinished, abandoned := false, None, false, false;
      hardAbort, gracefulInterrupt := false, false;
    }

    function Abs(): Flags
      reads this
    {
      Flags(cancelFired, onCancelFinish, isFinished, abandoned, hardAbort, gracefulInterrupt)
    }

    method ClaimCancel() returns (claimed: bool)
      modifies this
      ensures claimed <==> !old(cancelFired)
      ensures cancelFired
      ensures Abs() == Claim(old(Abs()))
    {
      if cancelFired {
        return false;
      }
      cancelFired := true;
      claimed := true;
    }

    method SetOnCancelFinish(request: nat)
      modifies this
      ensures onCancelFinish == Some(request)
      ensures Abs() == Register(old(Abs()), request)
    {
      onCancelFinish := Some(request);
    }

    method RequestGracefulInterrupt() returns (accepted: bool)
      modifies this
      ensures accepted <==> !old(hardAbort)
      ensures accepted ==> gracefulInterrupt
      ensures Abs() == Interrupt(old(Abs()))
    {
      if hardAbort {
        return false;
      }
      gracefulInterrupt := true;
      accepted := true;
    }

    method RequestHardAbort() returns (first: bool)
      modifies this
      ensures first <==> !old(hardAbort)
      ensures hardAbort
      ensures Abs() == Abort(old(Abs()))
    {
      if hardAbort {
        return false;
      }
      hardAbort := true;
      first := true;
    }

    method MarkAbandoned()
      modifies this
      ensures abandoned
      ensures Abs() == Abandon(old(Abs()))
    {
      abandoned := true;
    }

    /** The first action of Finish. */
    method MarkFinished()
      modifies this
      ensures isFinished
      ensures Abs() == MarkDone(old(Abs()))
    {
      isFinished := true;
    }

    /** The last critical section of Finish: the callback is taken out. */
    method TakeCallback() returns (callback: Option<nat>)
      modifies this
      ensures callback == old(onCancelFinish) && onCancelFinish == None
      ensures Abs() == Take(old(Abs()))
    {
      callback := onCancelFinish;
      onCancelFinish := None;
    }
  }

  function Claim(t: Flags): Flags { t.(cancelFired := true) }

  function Register(t: Flags, request: nat): Flags { t.(callback := Some(request)) }

  function Interrupt(t: Flags): Flags { if t.hardAbort then t else t.(graceful := true) }

  function Abort(t: Flags): Flags { t.(hardAbort := true) }

  function Abandon(t: Flags): Flags { t.(abandoned := true) }

  function MarkDone(t: Flags): Flags { t.(finished := true) }

  function Take(t: Flags): Flags { t.(callback := None) }

  // ----- The threads -----

  datatype Stage = Graceful | Hard | Detached

  /** Where a RequestCancel call and its two timers are.  Closed(n) is the end, with n frames sent. */
  datatype Request =
    | Calling | Lost
    | Claimed | Registered | Interrupted | GracefulSent
    | Alive3 | Aborted | HardSent
    | Alive8 | Marked | Closed(frames: nat)

  /** Where a Finish call is; late tells whether it began after a callback was registered. */
  datatype Finisher =
    | Before
    | Finished(late: bool) | SawClaim(late: bool) | Took(late: bool) | Over(late: bool)

  /** A writer of transcript entries or of the turn's statistics, which checks the abandoned flag. */
  datatype Writer = Idle | Passed | Suppressed | Wrote

  /** Frames sent, callbacks run and graceful requests accepted are histories. */
  datatype State = State(
    turn: Flags, requests: seq<Request>, finishers: seq<Finisher>, writers: seq<Writer>,
    registered: bool, frames: seq<Stage>, runs: nat, accepted: nat)

  predicate Start(st: State) {
    && st.turn == FRESH && !st.registered && st.frames == [] && st.runs == 0 && st.accepted == 0
    && (forall r | r in st.requests :: r == Calling)
    && (forall f | f in st.finishers :: f == Before)
    && (forall w | w in st.writers :: w == Idle)
  }

  /** The claim has succeeded. */
  predicate Fired(r: Request) {
    !r.Calling? && !r.Lost?
  }

  /** The next action of request i.  reached tells whether InterruptSession or InterruptSessionHard
      still finds the turn. */
  ghost predicate RequestStep(st: State, st': State, i: nat, reached: bool)
    requires i < |st.requests|
  {
    match st.requests[i]
    case Calling =>
      if st.turn.cancelFired then st' == Goto(st, i, Lost) else st' == Goto(st, i, Claimed).(turn := Claim(st.turn))
    case Claimed => st' == Goto(st, i, Registered).(turn := Register(st.turn, i), registered := true)
    case Registered =>
      if reached then st' == Goto(st, i, Interrupted).(turn := Interrupt(st.turn), accepted := st.accepted + Accepts(st.turn))
      else st' == Goto(st, i, Interrupted)
    case Interrupted => st' == Goto(st, i, GracefulSent).(frames := st.frames + [Graceful])
    case GracefulSent => st' == Goto(st, i, if st.turn.finished then Closed(1) else Alive3)
    case Alive3 => st' == Goto(st, i, Aborted).(turn := if reached then Abort(st.turn) else st.turn)
    case Aborted => st' == Goto(st, i, HardSent).(frames := st.frames + [Hard])
    case HardSent => st' == Goto(st, i, if st.turn.finished then Closed(2) else Alive8)
    case Alive8 => st' == Goto(st, i, Marked).(turn := Abandon(st.turn))
    case Marked => st' == Goto(st, i, Closed(3)).(frames := st.frames + [Detached])
    case _ => false
  }

  function Goto(st: State, i: nat, r: Request): State
    requires i < |st.requests|
  {
    st.(requests := st.requests[i := r])
  }

  function Accepts(t: Flags): nat {
    if t.hardAbort then 0 else 1
  }

  ghost predicate FinishStep(st: State, st': State, j: nat)
    requires j < |st.finishers|
  {
    match st.finishers[j]
    case Before => st' == Move(st, j, Finished(st.registered)).(turn := MarkDone(st.turn))
    case Finished(late) => st' == Move(st, j, if st.turn.cancelFired then SawClaim(late) else Over(late))
    case SawClaim(late) => st' == Move(st, j, if st.turn.callback.Some? then Took(late) else Over(late)).(turn := Take(st.turn))
    case Took(late) => st' == Move(st, j, Over(late)).(runs := st.runs + 1)
    case Over(_) => false
  }

  function Move(st: State, j: nat, f: Finisher): State
    requires j < |st.finishers|
  {
    st.(finishers := st.finishers[j := f])
  }

  ghost predicate WriterStep(st: State, st': State, k: nat)
    requires k < |st.writers|
  {
    match st.writers[k]
    case Idle => st' == st.(writers := st.writers[k := if st.turn.abandoned then Suppressed else Passed])
    case Passed => st' == st.(writers := st.writers[k := Wrote])
    case _ => false
  }

  /** Interrupts that are no part of a cancel request. */
  ghost predicate OutsideInterrupt(st: State, st': State) {
    st' == st.(turn := Interrupt(st.turn), accepted := st.accepted + Accepts(st.turn))
  }

  ghost predicate OutsideAbort(st: State, st': State) {
    st' == st.(turn := Abort(st.turn))
  }

  ghost predicate OutsideStep(st: State, st': State) {
    OutsideInterrupt(st, st') || OutsideAbort(st, st')
  }

  ghost predicate Next(st: State, st': State) {
    || (exists i: nat, reached: bool :: i < |st.requests| && RequestStep(st, st', i, reached))
    || (exists j: nat :: j < |st.finishers| && FinishStep(st, st', j))
    || (exists k: nat :: k < |st.writers| && WriterStep(st, st', k))
    || OutsideStep(st, st')
  }

  ghost predicate Path(states: seq<State>) {
    states != [] && forall i | 0 <= i < |states| - 1 :: Next(states[i], states[i + 1])
  }

  // ----- The invariant -----

  /** The frames sent by the time a claimed request is at r. */
  function FramesAt(r: Request): seq<Stage> {
    match r
    case GracefulSent => [Graceful]
    case Alive3 => [Graceful]
    case Aborted => [Graceful]
    case HardSent => [Graceful, Hard]
    case Alive8 => [Graceful, Hard]
    case Marked => [Graceful, Hard]
    case Closed(n) => if n == 1 then [Graceful] else if n == 2 then [Graceful, Hard] else [Graceful, Hard, Detached]
    case _ => []
  }

  predicate PastRegistration(r: Request) {
    Fired(r) && !r.Claimed?
  }

  /** One claim at most, and the frames are those of the claimed request. */
  predicate OneClaim(st: State) {
    && (forall i, j | 0 <= i < j < |st.requests| :: !(Fired(st.requests[i]) && Fired(st.requests[j])))
    && (forall i | 0 <= i < |st.requests| && Fired(st.requests[i]) ::
          st.turn.cancelFired && st.frames == FramesAt(st.requests[i])
          && (st.registered <==> PastRegistration(st.requests[i])))
    && ((forall i | 0 <= i < |st.requests| :: !Fired(st.requests[i])) ==> !st.turn.cancelFired && !st.registered && st.frames == [])
  }

  /** The callback is in one place at a time: on the turn, in one Finish call, or run. */
  predicate OneCallback(st: State) {
    && (forall i, j | 0 <= i < j < |st.finishers| :: !(st.finishers[i].Took? && st.finishers[j].Took?))
    && (forall i | 0 <= i < |st.finishers| && st.finishers[i].Took? :: st.turn.callback == None && st.runs == 0 && st.registered)
    && (st.turn.callback.Some? ==> st.runs == 0 && st.registered)
    && st.runs <= 1
    && (st.runs == 1 ==> st.registered)
    && (st.registered ==> st.turn.callback.Some? || st.runs == 1 || exists i :: 0 <= i < |st.finishers| && st.finishers[i].Took?)
  }

  /** A Finish call that began after the registration sees the claim and takes the callback. */
  predicate LateFinish(st: State) {
    && (st.registered ==> st.turn.cancelFired)
    && (forall i | 0 <= i < |st.finishers| && !st.finishers[i].Before? && st.finishers[i].late :: st.registered)
    && (forall i | 0 <= i < |st.finishers| && st.finishers[i].Over? && st.finishers[i].late :: st.turn.callback == None)
  }

  predicate Inv(st: State) {
    OneClaim(st) && OneCallback(st) && LateFinish(st)
  }

  lemma StartInv(st: State)
    requires Start(st)
    ensures Inv(st)
  {
    assert forall i | 0 <= i < |st.requests| :: st.requests[i] in st.requests;
    assert forall i | 0 <= i < |st.finishers| :: st.finishers[i] in st.finishers;
  }

  /** OneClaim with a given claimed request, or none. */
  predicate ClaimedBy(st: State, c: Option<nat>) {
    match c
    case None =>
      (forall i | 0 <= i < |st.requests| :: !Fired(st.requests[i])) && !st.turn.cancelFired && !st.registered && st.frames == []
    case Some(i) =>
      i < |st.requests| && Fired(st.requests[i]) && st.turn.cancelFired && st.frames == FramesAt(st.requests[i])
      && (st.registered <==> PastRegistration(st.requests[i]))
      && forall k | 0 <= k < |st.requests| && k != i :: !Fired(st.requests[k])
  }

  lemma WhoClaimed(st: State) returns (c: Option<nat>)
    requires OneClaim(st)
    ensures ClaimedBy(st, c)
  {
    if i :| 0 <= i < |st.requests| && Fired(st.requests[i]) {
      c := Some(i);
    } else {
      c := None;
    }
  }

  lemma ClaimedOne(st: State, c: Option<nat>)
    requires ClaimedBy(st, c)
    ensures OneClaim(st)
  {
    if c.Some? {
      assert Fired(st.requests[c.value]);
    }
  }

  lemma RequestClaimed(st: State, st': State, i: nat, reached: bool, c: Option<nat>) returns (c': Option<nat>)
    requires ClaimedBy(st, c) && i < |st.requests| && RequestStep(st, st', i, reached)
    ensures ClaimedBy(st', c')
  {
    c' := if Fired(st'.requests[i]) then Some(i) else c;
    assert forall k | 0 <= k < |st.requests| && k != i :: st'.requests[k] == st.requests[k];
  }

  lemma RequestClaim(st: State, st': State, i: nat, reached: bool)
    requires OneClaim(st) && i < |st.requests| && RequestStep(st, st', i, reached)
    ensures OneClaim(st')
  {
    hide OneClaim, ClaimedBy, RequestStep;
    var c := WhoClaimed(st);
    var c' := RequestClaimed(st, st', i, reached, c);
    ClaimedOne(st', c');
  }

  lemma RequestCallback(st: State, st': State, i: nat, reached: bool)
    requires Inv(st) && i < |st.requests| && RequestStep(st, st', i, reached)
    ensures OneCallback(st') && LateFinish(st')
  {
    if st.requests[i].Claimed? {
      assert Fired(st.requests[i]) && !st.registered;
    }
  }

  lemma FinishInv(st: State, st': State, j: nat)
    requires Inv(st) && j < |st.finishers| && FinishStep(st, st', j)
    ensures Inv(st')
  {
    var f, f' := st.finishers[j], st'.finishers[j];
    assert forall k | 0 <= k < |st.finishers| && k != j :: st'.finishers[k] == st.finishers[k];
    if f.Took? {
      assert st'.runs == 1;
    } else if f'.Took? {
      assert st'.finishers[j].Took?;
    } else if st.registered && st.turn.callback.None? && st.runs == 0 {
      var x :| 0 <= x < |st.finishers| && st.finishers[x].Took?;
      assert st'.finishers[x].Took?;
    }
  }

  lemma OtherInv(st: State, st': State)
    requires Inv(st)
    requires OutsideStep(st, st') || exists k: nat :: k < |st.writers| && WriterStep(st, st', k)
    ensures Inv(st')
  {
    assert st'.requests == st.requests && st'.finishers == st.finishers && st'.frames == st.frames;
  }

  lemma NextInv(st: State, st': State)
    requires Inv(st) && Next(st, st')
    ensures Inv(st')
  {
    hide OneClaim, OneCallback, LateFinish, RequestStep, FinishStep, WriterStep, OutsideStep;
    if i: nat, reached: bool :| i < |st.requests| && RequestStep(st, st', i, reached) {
      RequestClaim(st, st', i, reached);
      RequestCallback(st, st', i, reached);
    } else if j: nat :| j < |st.finishers| && FinishStep(st, st', j) {
      FinishInv(st, st', j);
    } else {
      OtherInv(st, st');
    }
  }

  lemma {:induction false} PathInv(states: seq<State>)
    requires Path(states) && Inv(states[0])
    ensures forall i | 0 <= i < |states| :: Inv(states[i])
    decreases |states|
  {
    hide Inv, Next;
    var n := |states| - 1;
    if n > 0 {
      assert Path(states[..n]);
      PathInv(states[..n]);
      assert states[..n][n - 1] == states[n - 1] && Next(states[n - 1], states[n - 1 + 1]);
      NextInv(states[n - 1], states[n]);
    }
  }

  // ----- The guarantees -----

  const STAGES := [Graceful, Hard, Detached]

  /** Main result, for every interleaving: at most one request fires; the frames are a beginning of
      graceful, hard, detached; and the callback runs at most once. */
  lemma CancelSafe(states: seq<State>, n: nat)
    requires Path(states) && Start(states[0]) && n < |states|
    ensures var st := states[n];
            (forall i, j | 0 <= i < j < |st.requests| :: !(Fired(st.requests[i]) && Fired(st.requests[j])))
            && st.frames <= STAGES && st.runs <= 1
  {
    hide Next, Start;
    StartInv(states[0]);
    PathInv(states);
    var st := states[n];
    assert Inv(st);
    if i :| 0 <= i < |st.requests| && Fired(st.requests[i]) {
      FramesPrefix(st.requests[i]);
    }
  }

  lemma FramesPrefix(r: Request)
    ensures FramesAt(r) <= STAGES
  {
  }

  /** Main result: once a Finish call that began after the registration is over, and no Finish call
      holds the callback, it has run exactly once. */
  lemma CallbackRuns(states: seq<State>, n: nat, j: nat)
    requires Path(states) && Start(states[0]) && n < |states| && j < |states[n].finishers|
    requires states[n].finishers[j].Over? && states[n].finishers[j].late
    requires forall x | 0 <= x < |states[n].finishers| :: !states[n].finishers[x].Took?
    ensures states[n].runs == 1
  {
    hide Next, Start;
    StartInv(states[0]);
    PathInv(states);
    assert Inv(states[n]);
  }

  /** A Finish call that saw the claim takes the callback, in its last critical section, after the
      registration. */
  ghost predicate Takes(st: State, st': State, j: nat) {
    j < |st.finishers| && st.registered && st.finishers[j].SawClaim? && FinishStep(st, st', j)
  }

  ghost predicate TakesAt(states: seq<State>, i: nat, j: nat) {
    i + 1 < |states| && Takes(states[i], states[i + 1], j)
  }

  ghost predicate Taken(states: seq<State>, n: nat) {
    exists i: nat, j: nat :: i < n && TakesAt(states, i, j)
  }

  /** Until it is taken a registered callback waits on the turn; after that there is none. */
  predicate Waiting(st: State, taken: bool) {
    if taken then st.registered && st.turn.callback.None? else st.registered ==> st.turn.callback.Some?
  }

  lemma TakeStep(st: State, st': State, taken: bool)
    requires Inv(st) && Next(st, st') && Waiting(st, taken)
    ensures Waiting(st', taken || exists j: nat :: Takes(st, st', j))
  {
    hide OneClaim, LateFinish, WriterStep, OutsideStep, RequestStep, FinishStep;
    if j: nat :| Takes(st, st', j) {
      FinishTakes(st, st', j);
    } else if i: nat, reached: bool :| i < |st.requests| && RequestStep(st, st', i, reached) {
      RequestWaits(st, st', i, reached, taken);
    } else if j: nat :| j < |st.finishers| && FinishStep(st, st', j) {
      assert !Takes(st, st', j);
      FinishTakes(st, st', j);
    } else {
      OtherWaits(st, st');
    }
  }

  lemma FinishTakes(st: State, st': State, j: nat)
    requires j < |st.finishers| && FinishStep(st, st', j)
    ensures st'.registered == st.registered
    ensures st'.turn.callback == if st.finishers[j].SawClaim? then None else st.turn.callback
  {
  }

  lemma RequestWaits(st: State, st': State, i: nat, reached: bool, taken: bool)
    requires Inv(st) && Waiting(st, taken) && i < |st.requests| && RequestStep(st, st', i, reached)
    ensures Waiting(st', taken)
  {
    hide OneCallback, LateFinish;
    if st.requests[i].Claimed? { assert Fired(st.requests[i]) && !st.registered; }
  }

  lemma OtherWaits(st: State, st': State)
    requires OutsideStep(st, st') || exists k: nat :: k < |st.writers| && WriterStep(st, st', k)
    ensures st'.registered == st.registered && st'.turn.callback == st.turn.callback
  {
  }

  lemma {:induction false} PathWaits(states: seq<State>, n: nat)
    requires Path(states) && Start(states[0]) && n < |states|
    ensures Waiting(states[n], Taken(states, n))
    decreases n
  {
    hide Next, Start, Inv, Waiting, Takes;
    StartInv(states[0]);
    PathInv(states);
    if n > 0 {
      var m := n - 1;
      PathWaits(states, m);
      assert Next(states[m], states[m + 1]);
      TakeStep(states[m], states[n], Taken(states, m));
      assert forall j: nat :: TakesAt(states, m, j) <==> Takes(states[m], states[n], j);
      assert Taken(states, n) <==> Taken(states, m) || exists j: nat :: Takes(states[m], states[n], j);
    } else {
      StartWaits(states[0]);
    }
  }

  lemma StartWaits(st: State)
    requires Start(st)
    ensures Waiting(st, false)
  {
  }

  /** Main result, exactly: in a run in which no Finish call holds the callback, it has run if and only
      if some Finish call that saw the claim came to its last critical section after the registration. */
  lemma CallbackRunsExactly(states: seq<State>, n: nat)
    requires Path(states) && Start(states[0]) && n < |states|
    requires forall x | 0 <= x < |states[n].finishers| :: !states[n].finishers[x].Took?
    ensures states[n].runs == 1 <==> Taken(states, n)
    ensures states[n].runs == 0 <==> !Taken(states, n)
  {
    hide Next, Start, OneClaim, LateFinish, Taken;
    StartInv(states[0]);
    PathInv(states);
    PathWaits(states, n);
    assert Inv(states[n]);
  }

  /** Without a claim the callback never runs, and it runs only after its registration. */
  lemma NoClaimNoCallback(states: seq<State>, n: nat)
    requires Path(states) && Start(states[0]) && n < |states|
    requires forall i | 0 <= i < |states[n].requests| :: !PastRegistration(states[n].requests[i])
    ensures states[n].runs == 0 && states[n].frames == []
  {
    hide Next, Start;
    StartInv(states[0]);
    PathInv(states);
    var st := states[n];
    assert Inv(st);
    if i :| 0 <= i < |st.requests| && Fired(st.requests[i]) {
      assert st.requests[i].Claimed?;
    }
  }

  /** The frames tell the truth: a detached frame means the turn is abandoned. */
  predicate DetachedMeans(st: State) {
    (forall i | 0 <= i < |st.requests| && (st.requests[i].Marked? || (st.requests[i].Closed? && st.requests[i].frames != 1
                                            && st.requests[i].frames != 2)) :: st.turn.abandoned)
    && forall i | 0 <= i < |st.requests| && st.requests[i].Closed? :: 1 <= st.requests[i].frames <= 3
  }

  predicate Started(w: Writer) {
    w.Passed? || w.Wrote?
  }

  /** Every writer past its check in b was past it in a. */
  predicate NoNewWriters(a: State, b: State) {
    |a.writers| == |b.writers| && forall k | 0 <= k < |a.writers| && Started(b.writers[k]) :: Started(a.writers[k])
  }

  /** No action clears the flags, and only a writer's own action moves a writer. */
  predicate Monotone(st: State, st': State) {
    && (st.turn.abandoned ==> st'.turn.abandoned)
    && (st.turn.hardAbort ==> st'.turn.hardAbort && st'.accepted == st.accepted)
    && |st'.writers| == |st.writers|
    && (st.turn.abandoned ==> NoNewWriters(st, st'))
  }

  lemma RequestMonotone(st: State, st': State, i: nat, reached: bool)
    requires i < |st.requests| && RequestStep(st, st', i, reached)
    ensures Monotone(st, st')
  {
    assert st'.writers == st.writers;
  }

  lemma FinishMonotone(st: State, st': State, j: nat)
    requires j < |st.finishers| && FinishStep(st, st', j)
    ensures Monotone(st, st') && st'.requests == st.requests
  {
    assert st'.writers == st.writers;
  }

  lemma OtherMonotone(st: State, st': State)
    requires OutsideStep(st, st') || exists k: nat :: k < |st.writers| && WriterStep(st, st', k)
    ensures Monotone(st, st') && st'.requests == st.requests
  {
  }

  lemma NextMonotone(st: State, st': State)
    requires Next(st, st')
    ensures Monotone(st, st')
  {
    hide RequestStep, FinishStep, WriterStep, OutsideStep, Monotone;
    if i: nat, reached: bool :| i < |st.requests| && RequestStep(st, st', i, reached) {
      RequestMonotone(st, st', i, reached);
    } else if j: nat :| j < |st.finishers| && FinishStep(st, st', j) {
      FinishMonotone(st, st', j);
    } else {
      OtherMonotone(st, st');
    }
  }

  lemma RequestDetached(st: State, st': State, i: nat, reached: bool)
    requires DetachedMeans(st) && i < |st.requests| && RequestStep(st, st', i, reached)
    ensures DetachedMeans(st')
  {
    assert forall k | 0 <= k < |st.requests| && k != i :: st'.requests[k] == st.requests[k];
  }

  lemma NextDetached(st: State, st': State)
    requires DetachedMeans(st) && Next(st, st')
    ensures DetachedMeans(st')
  {
    hide RequestStep, FinishStep, WriterStep, OutsideStep, NoNewWriters;
    if i: nat, reached: bool :| i < |st.requests| && RequestStep(st, st', i, reached) {
      RequestDetached(st, st', i, reached);
    } else if j: nat :| j < |st.finishers| && FinishStep(st, st', j) {
      FinishMonotone(st, st', j);
    } else {
      OtherMonotone(st, st');
    }
  }

  lemma {:induction false} DetachedIsAbandoned(states: seq<State>)
    requires Path(states) && Start(states[0])
    ensures forall i | 0 <= i < |states| :: DetachedMeans(states[i]) && (Detached in states[i].frames ==> states[i].turn.abandoned)
    decreases |states|
  {
    hide Next, DetachedMeans, Start;
    var n := |states| - 1;
    StartInv(states[0]);
    PathInv(states);
    StartDetached(states[0]);
    if n > 0 {
      assert Path(states[..n]);
      DetachedIsAbandoned(states[..n]);
      assert states[..n][n - 1] == states[n - 1] && Next(states[n - 1], states[n - 1 + 1]);
      NextDetached(states[n - 1], states[n]);
    }
    forall i | 0 <= i < |states| ensures DetachedMeans(states[i]) && (Detached in states[i].frames ==> states[i].turn.abandoned) {
      if i < n { assert states[..n][i] == states[i]; }
      DetachedFrame(states[i]);
    }
  }

  lemma StartDetached(st: State)
    requires Start(st)
    ensures DetachedMeans(st)
  {
    assert forall i | 0 <= i < |st.requests| :: st.requests[i] in st.requests;
  }

  lemma DetachedFrame(st: State)
    requires Inv(st)
    ensures DetachedMeans(st) && Detached in st.frames ==> st.turn.abandoned
  {
    if DetachedMeans(st) && Detached in st.frames {
      assert exists i :: 0 <= i < |st.requests| && Fired(st.requests[i]);
      var i :| 0 <= i < |st.requests| && Fired(st.requests[i]);
      assert st.frames == FramesAt(st.requests[i]);
    }
  }

  // ----- After a hard abort, after abandonment -----

  /** After a hard abort no graceful request is accepted any more. */
  lemma {:induction false} NoGracefulAfterAbort(states: seq<State>)
    requires Path(states) && states[0].turn.hardAbort
    ensures states[|states| - 1].turn.hardAbort && states[|states| - 1].accepted == states[0].accepted
    decreases |states|
  {
    hide Next;
    var n := |states| - 1;
    if n > 0 {
      assert Path(states[..n]);
      NoGracefulAfterAbort(states[..n]);
      assert states[..n][n - 1] == states[n - 1] && Next(states[n - 1], states[n - 1 + 1]);
      NextMonotone(states[n - 1], states[n]);
    }
  }

  /** Once the turn is abandoned, only writers already past their check still write: none begins. */
  lemma {:induction false} NoWriteAfterAbandon(states: seq<State>)
    requires Path(states) && states[0].turn.abandoned
    ensures states[|states| - 1].turn.abandoned && NoNewWriters(states[0], states[|states| - 1])
    decreases |states|
  {
    hide Next;
    var n := |states| - 1;
    if n > 0 {
      assert Path(states[..n]);
      NoWriteAfterAbandon(states[..n]);
      assert states[..n][n - 1] == states[n - 1] && Next(states[n - 1], states[n - 1 + 1]);
      NextMonotone(states[n - 1], states[n]);
    }
  }

  // ----- What the stages do to the turn -----

  /** The hard stage of a request that reaches the turn, or a hard abort from outside. */
  ghost predicate HardAbortStep(st: State, st': State) {
    OutsideAbort(st, st') || exists i: nat :: i < |st.requests| && st.requests[i] == Alive3 && RequestStep(st, st', i, true)
  }

  /** A graceful request that is accepted. */
  ghost predicate GracefulStep(st: State, st': State) {
    !st.turn.hardAbort
    && (OutsideInterrupt(st, st') || exists i: nat :: i < |st.requests| && st.requests[i] == Registered && RequestStep(st, st', i, true))
  }

  /** A hard abort takes effect and for good: the turn is aborted from then on, and no graceful request is
      accepted any more. */
  lemma AbortTakesEffect(states: seq<State>, n: nat, m: nat)
    requires Path(states) && n < m < |states| && HardAbortStep(states[n], states[n + 1])
    ensures states[m].turn.hardAbort && states[m].accepted == states[n + 1].accepted
  {
    hide Next;
    var rest := states[n + 1..m + 1];
    assert rest[|rest| - 1] == states[m];
    forall i | 0 <= i < |rest| - 1 ensures Next(rest[i], rest[i + 1]) {
      assert Next(states[n + 1 + i], states[n + 1 + i + 1]);
    }
    assert states[n + 1].turn.hardAbort;
    NoGracefulAfterAbort(rest);
  }

  /** An accepted graceful request is counted and leaves the turn interrupted. */
  lemma GracefulTakesEffect(st: State, st': State)
    requires GracefulStep(st, st')
    ensures st'.turn.graceful && st'.accepted == st.accepted + 1
  {
  }

  predicate LastStage(st: State, i: int) {
    0 <= i < |st.requests| && (st.requests[i].Marked? || st.requests[i] == Closed(3))
  }

  /** The turn is interrupted exactly if it has accepted a request, abandoned only by a request at its last
      stage, and a suppressed write means that it is abandoned. */
  ghost predicate AcceptedMeans(st: State) {
    && (st.accepted > 0 <==> st.turn.graceful)
    && (st.turn.abandoned ==> exists i :: LastStage(st, i))
    && forall k | 0 <= k < |st.writers| && st.writers[k].Suppressed? :: st.turn.abandoned
  }

  lemma NextAccepted(st: State, st': State)
    requires AcceptedMeans(st) && Next(st, st')
    ensures AcceptedMeans(st')
  {
    hide WriterStep, FinishStep, RequestStep, LastStage;
    if i: nat, reached: bool :| i < |st.requests| && RequestStep(st, st', i, reached) {
      RequestAccepted(st, st', i, reached);
    } else if j: nat :| j < |st.finishers| && FinishStep(st, st', j) {
      FinishAccepted(st, st', j);
    } else if k: nat :| k < |st.writers| && WriterStep(st, st', k) {
      WriterAccepted(st, st', k);
    } else if st.turn.abandoned {
      SameStages(st, st');
    }
  }

  lemma StartAccepted(st: State)
    requires Start(st)
    ensures AcceptedMeans(st)
  {
    assert forall k | 0 <= k < |st.writers| :: st.writers[k] in st.writers;
  }

  lemma RequestAccepted(st: State, st': State, i: nat, reached: bool)
    requires AcceptedMeans(st) && i < |st.requests| && RequestStep(st, st', i, reached)
    ensures AcceptedMeans(st')
  {
    hide LastStage, RequestStep;
    RequestCounts(st, st', i, reached);
    if st.turn.abandoned {
      var j :| LastStage(st, j);
      StageKept(st, st', i, reached, j);
    } else if st'.turn.abandoned {
      StageReached(st, st', i, reached);
    }
  }

  lemma RequestCounts(st: State, st': State, i: nat, reached: bool)
    requires i < |st.requests| && RequestStep(st, st', i, reached)
    ensures st'.writers == st.writers && (st.turn.abandoned ==> st'.turn.abandoned)
    ensures (st.accepted > 0 <==> st.turn.graceful) ==> (st'.accepted > 0 <==> st'.turn.graceful)
  {
  }

  lemma StageKept(st: State, st': State, i: nat, reached: bool, j: int)
    requires i < |st.requests| && RequestStep(st, st', i, reached) && LastStage(st, j)
    ensures LastStage(st', j)
  {
    assert j != i ==> st'.requests[j] == st.requests[j];
  }

  lemma StageReached(st: State, st': State, i: nat, reached: bool)
    requires i < |st.requests| && RequestStep(st, st', i, reached) && !st.turn.abandoned && st'.turn.abandoned
    ensures LastStage(st', i)
  {
  }

  lemma SameStages(st: State, st': State)
    requires st'.requests == st.requests && exists j :: LastStage(st, j)
    ensures exists j :: LastStage(st', j)
  {
    var j :| LastStage(st, j);
    assert LastStage(st', j);
  }

  lemma FinishAccepted(st: State, st': State, j: nat)
    requires AcceptedMeans(st) && j < |st.finishers| && FinishStep(st, st', j)
    ensures AcceptedMeans(st')
  {
    hide LastStage;
    if st.turn.abandoned { SameStages(st, st'); }
  }

  lemma WriterAccepted(st: State, st': State, k: nat)
    requires AcceptedMeans(st) && k < |st.writers| && WriterStep(st, st', k)
    ensures AcceptedMeans(st')
  {
    hide LastStage;
    if st.turn.abandoned { SameStages(st, st'); }
  }

  /** On every path: a turn is interrupted exactly if it has accepted a graceful request, also after a hard
      abort; and no write is suppressed before a request has come to its last stage. */
  lemma AcceptedIsGraceful(states: seq<State>, n: nat)
    requires Path(states) && Start(states[0]) && n < |states|
    ensures states[n].accepted > 0 <==> states[n].turn.graceful
    ensures (exists k :: 0 <= k < |states[n].writers| && states[n].writers[k].Suppressed?) ==>
              exists i :: LastStage(states[n], i)
  {
    PathAccepted(states, n);
  }

  lemma {:induction false} PathAccepted(states: seq<State>, n: nat)
    requires Path(states) && Start(states[0]) && n < |states|
    ensures AcceptedMeans(states[n])
    decreases n
  {
    hide Next, AcceptedMeans;
    if n > 0 {
      var k := n - 1;
      PathAccepted(states, k);
      assert Next(states[k], states[k + 1]);
      NextAccepted(states[k], states[n]);
    } else {
      StartAccepted(states[0]);
    }
  }

  /** The request has not yet found the turn alive after its graceful stage; or after its hard stage. */
  predicate BeforeHard(r: Request) {
    r.Calling? || r.Lost? || r.Claimed? || r.Registered? || r.Interrupted? || r.GracefulSent? || r == Closed(1)
  }

  predicate BeforeDetached(r: Request) {
    BeforeHard(r) || r.Alive3? || r.Aborted? || r.HardSent? || r == Closed(2)
  }

  /** The turn is finished, and every request is that early. */
  predicate Stopped(st: State, early: Request -> bool) {
    st.turn.finished && forall i | 0 <= i < |st.requests| :: early(st.requests[i])
  }

  lemma NextStopped(st: State, st': State, early: Request -> bool)
    requires early == BeforeHard || early == BeforeDetached
    requires Stopped(st, early) && Next(st, st')
    ensures Stopped(st', early)
  {
    hide WriterStep, FinishStep, RequestStep;
    if i: nat, reached: bool :| i < |st.requests| && RequestStep(st, st', i, reached) {
      RequestStopped(st, st', i, reached, early);
    } else if j: nat :| j < |st.finishers| && FinishStep(st, st', j) {
      FinishStopped(st, st', j);
    } else {
      OtherStopped(st, st');
    }
  }

  lemma RequestStopped(st: State, st': State, i: nat, reached: bool, early: Request -> bool)
    requires early == BeforeHard || early == BeforeDetached
    requires Stopped(st, early) && i < |st.requests| && RequestStep(st, st', i, reached)
    ensures Stopped(st', early)
  {
    assert early(st.requests[i]);
    assert forall k | 0 <= k < |st.requests| && k != i :: st'.requests[k] == st.requests[k];
  }

  lemma FinishStopped(st: State, st': State, j: nat)
    requires j < |st.finishers| && FinishStep(st, st', j)
    ensures st'.requests == st.requests && (st.turn.finished ==> st'.turn.finished)
  {
  }

  lemma OtherStopped(st: State, st': State)
    requires OutsideStep(st, st') || exists k: nat :: k < |st.writers| && WriterStep(st, st', k)
    ensures st'.requests == st.requests && st'.turn.finished == st.turn.finished
  {
  }

  lemma {:induction false} PathStopped(states: seq<State>, n: nat, m: nat, early: Request -> bool)
    requires early == BeforeHard || early == BeforeDetached
    requires Path(states) && n <= m < |states| && Stopped(states[n], early)
    ensures Stopped(states[m], early)
    decreases m
  {
    hide Next, Stopped;
    if n < m {
      var k := m - 1;
      PathStopped(states, n, k, early);
      assert Next(states[k], states[k + 1]);
      NextStopped(states[k], states[m], early);
    }
  }

  /** A Finish call marks the turn with its first action. */
  lemma FinishMarks(st: State, st': State, j: nat)
    requires j < |st.finishers| && st.finishers[j].Before? && FinishStep(st, st', j)
    ensures st'.turn.finished
  {
  }

  /** A finished turn stops the escalation: if no request has passed its check behind the graceful frame,
      none ever sends a hard frame; if none has passed the check behind the hard frame, no detached one. */
  lemma FinishStopsStages(states: seq<State>, n: nat, m: nat)
    requires Path(states) && Start(states[0]) && n <= m < |states| && states[n].turn.finished
    ensures (forall i | 0 <= i < |states[n].requests| :: BeforeHard(states[n].requests[i])) ==> Hard !in states[m].frames
    ensures (forall i | 0 <= i < |states[n].requests| :: BeforeDetached(states[n].requests[i])) ==> Detached !in states[m].frames
  {
    hide Next, Start, OneCallback, LateFinish;
    StartInv(states[0]);
    PathInv(states);
    assert Inv(states[m]);
    if forall i | 0 <= i < |states[n].requests| :: BeforeHard(states[n].requests[i]) {
      PathStopped(states, n, m, BeforeHard);
      FramesEarly(states[m]);
    }
    if forall i | 0 <= i < |states[n].requests| :: BeforeDetached(states[n].requests[i]) {
      PathStopped(states, n, m, BeforeDetached);
      FramesEarly(states[m]);
    }
  }

  lemma FramesEarly(st: State)
    requires OneClaim(st)
    ensures (forall i | 0 <= i < |st.requests| :: BeforeHard(st.requests[i])) ==> Hard !in st.frames
    ensures (forall i | 0 <= i < |st.requests| :: BeforeDetached(st.requests[i])) ==> Detached !in st.frames
  {
    if i :| 0 <= i < |st.requests| && Fired(st.requests[i]) {
      assert st.frames == FramesAt(st.requests[i]);
    }
  }

  // ----- The lost callback -----

  predicate Stranded(st: State) {
    st.requests == [Registered] && st.finishers == [Over(false)] && st.turn.callback == Some(0) && st.runs == 0
  }

  /** A Finish between the claim and the registration loses the callback: this run ends with it on the
      turn, never run, and no Finish call left. */
  lemma CallbackLost()
    ensures exists states: seq<State> :: Path(states) && Start(states[0]) && Stranded(states[|states| - 1])
  {
    var s0 := State(FRESH, [Calling], [Before], [], false, [], 0, 0);
    var s1 := Goto(s0, 0, Claimed).(turn := Claim(s0.turn));
    var s2 := Move(s1, 0, Finished(false)).(turn := MarkDone(s1.turn));
    var s3 := Move(s2, 0, SawClaim(false));
    var s4 := Move(s3, 0, Over(false)).(turn := Take(s3.turn));
    var s5 := Goto(s4, 0, Registered).(turn := Register(s4.turn, 0), registered := true);
    assert RequestStep(s0, s1, 0, true);
    assert FinishStep(s1, s2, 0);
    assert FinishStep(s2, s3, 0);
    assert FinishStep(s3, s4, 0);
    assert RequestStep(s4, s5, 0, true);
    var states := [s0, s1, s2, s3, s4, s5];
    forall i | 0 <= i < 5 ensures Next(states[i], states[i + 1]) {
    }
    assert Path(states) && Start(states[0]) && Stranded(states[5]);
  }
}
