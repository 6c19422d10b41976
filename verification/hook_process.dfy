/** The pending calls of pkg/agent/hook_process.go: any number of callers, the reader, the exit of the
    process and timeouts, in any interleaving.  Each critical section and each channel operation is one
    step.  A channel is named by the id of its call. */
module HookProcess {
  /** A reply names the call it answers; id 0 stands for the failure every open call gets at exit. */
  datatype Reply = Reply(id: nat, body: string)

  /** What has been done to a channel. */
  datatype Channel = Channel(sends: seq<Reply>, closes: nat)

  datatype Table = Table(nextId: nat, pending: set<nat>, channels: map<nat, Channel>)

  const EMPTY := Table(0, {}, map[])

  function Allocate(t: Table): Table { t.(nextId := t.nextId + 1) }

  function Register(t: Table, id: nat): Table {
    t.(pending := t.pending + {id}, channels := t.channels[id := Channel([], 0)])
  }

  /** The reader's critical section: the entry goes, if there is one. */
  function TakeOut(t: Table, id: nat): Table { t.(pending := t.pending - {id}) }

  function Send(t: Table, id: nat, r: Reply): Table {
    if id in t.channels then t.(channels := t.channels[id := t.channels[id].(sends := t.channels[id].sends + [r])]) else t
  }

  function CloseOf(t: Table, id: nat): Table {
    if id in t.channels then t.(channels := t.channels[id := t.channels[id].(closes := t.channels[id].closes + 1)]) else t
  }

  function Remove(t: Table, id: nat): Table {
    if id in t.pending then CloseOf(TakeOut(t, id), id) else t
  }

  function FailAll(t: Table, r: Reply): Table {
    t.(pending := {},
       channels := map id | id in t.channels ::
         if id in t.pending then Channel(t.channels[id].sends + [r], t.channels[id].closes + 1) else t.channels[id])
  }

  /** The table as the source has it, one method per critical section. */
  class PendingCalls {
    var nextId: nat
    var pending: set<nat>
    var channels: map<nat, Channel>

    constructor ()
      ensures Abs() == EMPTY
    {
      nextId, pending, channels := 0, {}, map[];
    }

    function Abs(): Table
      reads this
    {
      Table(nextId, pending, channels)
    }

    method Begin() returns (id: nat)
      modifies this
      ensures id == old(nextId) + 1 && Abs() == Allocate(old(Abs()))
    {
      nextId := nextId + 1;
      id := nextId;
    }

    method AddPending(id: nat)
      modifies this
      ensures Abs() == Register(old(Abs()), id)
    {
      channels := channels[id := Channel([], 0)];
      pending := pending + {id};
    }

    method TakePending(id: nat) returns (found: bool)
      modifies this
      ensures found <==> id in old(pending)
      ensures Abs() == TakeOut(old(Abs()), id)
    {
      found := id in pending;
      pending := pending - {id};
    }

    method RemovePending(id: nat)
      requires pending <= channels.Keys
      modifies this
      ensures Abs() == Remove(old(Abs()), id)
    {
      if id in pending {
        pending := pending - {id};
        channels := channels[id := channels[id].(closes := channels[id].closes + 1)];
      }
    }

    /** failPending, in any order of the entries. */
    method FailPending(r: Reply)
      requires pending <= channels.Keys
      modifies this
      ensures Abs() == FailAll(old(Abs()), r)
    {
      ghost var before := channels;
      var todo := pending;
      while todo != {}
        invariant todo <= old(pending) && pending == todo && channels.Keys == before.Keys && nextId == old(nextId)
        invariant forall id | id in channels ::
                    channels[id] == if id in old(pending) && id !in todo
                                    then Channel(before[id].sends + [r], before[id].closes + 1) else before[id]
        decreases todo
      {
        var id :| id in todo;
        todo := todo - {id};
        pending := pending - {id};
        channels := channels[id := Channel(channels[id].sends + [r], channels[id].closes + 1)];
      }
      assert channels == FailAll(old(Abs()), r).channels;
    }
  }

  // ----- The threads -----

  datatype Outcome = Answered(r: Reply) | ChannelClosed | GaveUp

  datatype Caller =
    | Idle | Allocated(id: nat) | Registered(id: nat) | Waiting(id: nat) | Giving(id: nat) | Done(id: nat, outcome: Outcome)

  datatype Reader = Scanning | Holding(id: nat, r: Reply) | Sent(id: nat)

  datatype State = State(table: Table, callers: seq<Caller>, reader: Reader)

  predicate Start(st: State) {
    st.table == EMPTY && st.reader == Scanning && forall c | c in st.callers :: c == Idle
  }

  function Goto(st: State, k: nat, c: Caller): State
    requires k < |st.callers|
  {
    st.(callers := st.callers[k := c])
  }

  /** The next action of caller k; fails tells whether marshalling or sending failed, or the context
      ended. */
  ghost predicate CallerStep(st: State, st': State, k: nat, fails: bool)
    requires k < |st.callers|
  {
    match st.callers[k]
    case Idle => st' == Goto(st, k, Allocated(st.table.nextId + 1)).(table := Allocate(st.table))
    case Allocated(id) => st' == Goto(st, k, Registered(id)).(table := Register(st.table, id))
    case Registered(id) => st' == Goto(st, k, if fails then Giving(id) else Waiting(id))
    case Waiting(id) =>
      if fails then st' == Goto(st, k, Giving(id))
      else id in st.table.channels
           && (var ch := st.table.channels[id];
               if ch.sends != [] then st' == Goto(st, k, Done(id, Answered(ch.sends[0])))
               else ch.closes > 0 && st' == Goto(st, k, Done(id, ChannelClosed)))
    case Giving(id) => st' == Goto(st, k, Done(id, GaveUp)).(table := Remove(st.table, id))
    case Done(_, _) => false
  }

  ghost predicate ReaderStep(st: State, st': State, r: Reply) {
    match st.reader
    case Scanning =>
      if r.id != 0 && r.id in st.table.pending then st' == st.(table := TakeOut(st.table, r.id), reader := Holding(r.id, r))
      else st' == st
    case Holding(id, held) => st' == st.(table := Send(st.table, id, held), reader := Sent(id))
    case Sent(id) => st' == st.(table := CloseOf(st.table, id), reader := Scanning)
  }

  ghost predicate ExitStep(st: State, st': State, body: string) {
    st' == st.(table := FailAll(st.table, Reply(0, body)))
  }

  ghost predicate Next(st: State, st': State) {
    || (exists k: nat, fails: bool :: k < |st.callers| && CallerStep(st, st', k, fails))
    || (exists r: Reply :: ReaderStep(st, st', r))
    || (exists body: string :: ExitStep(st, st', body))
  }

  ghost predicate Path(states: seq<State>) {
    states != [] && forall i | 0 <= i < |states| - 1 :: Next(states[i], states[i + 1])
  }

  // ----- The invariant -----

  predicate Fresh(t: Table, id: nat) {
    id in t.channels && t.channels[id] == Channel([], 0)
  }

  /** A channel has at most one message, meant for it, and is closed at most once. */
  predicate Proper(t: Table, id: nat) {
    id in t.channels ==>
      0 < id <= t.nextId && |t.channels[id].sends| <= 1 && t.channels[id].closes <= 1
      && forall r | r in t.channels[id].sends :: r.id == id || r.id == 0
  }

  predicate Owned(st: State) {
    && (forall k | 0 <= k < |st.callers| && !st.callers[k].Idle? :: 0 < st.callers[k].id <= st.table.nextId)
    && (forall j, k | 0 <= j < k < |st.callers| && !st.callers[j].Idle? && !st.callers[k].Idle? ::
          st.callers[j].id != st.callers[k].id)
    && (forall k | 0 <= k < |st.callers| && st.callers[k].Allocated? :: st.callers[k].id !in st.table.channels)
    && (forall k | 0 <= k < |st.callers| && st.callers[k].Done? && st.callers[k].outcome.Answered? ::
          st.callers[k].outcome.r.id == st.callers[k].id || st.callers[k].outcome.r.id == 0)
  }

  predicate Channels(st: State) {
    && (forall id | id in st.table.channels :: Proper(st.table, id))
    && (forall id | id in st.table.pending :: Fresh(st.table, id))
    && (st.reader.Holding? ==> st.reader.id !in st.table.pending && Fresh(st.table, st.reader.id) && st.reader.r.id == st.reader.id)
    && (st.reader.Sent? ==> st.reader.id !in st.table.pending && st.reader.id in st.table.channels
                            && st.table.channels[st.reader.id].closes == 0)
  }

  predicate Inv(st: State) {
    Owned(st) && Channels(st)
  }

  lemma StartInv(st: State)
    requires Start(st)
    ensures Inv(st)
  {
    assert forall k | 0 <= k < |st.callers| :: st.callers[k] in st.callers;
  }

  lemma CallerOwned(st: State, st': State, k: nat, fails: bool)
    requires Inv(st) && k < |st.callers| && CallerStep(st, st', k, fails)
    ensures Owned(st')
  {
    assert forall j | 0 <= j < |st.callers| && j != k :: st'.callers[j] == st.callers[j];
    assert st.callers[k].Waiting? && st.callers[k].id in st.table.channels ==> Proper(st.table, st.callers[k].id);
    assert st'.table.channels.Keys <= st.table.channels.Keys + (if st.callers[k].Allocated? then {st.callers[k].id} else {});
  }

  lemma CallerChannels(st: State, st': State, k: nat, fails: bool)
    requires Inv(st) && k < |st.callers| && CallerStep(st, st', k, fails)
    ensures Channels(st')
  {
    match st.callers[k] {
      case Allocated(id) =>
        forall x | x in st'.table.channels ensures Proper(st'.table, x) {
          assert x != id ==> Proper(st.table, x);
        }
      case Giving(id) =>
        forall x | x in st'.table.channels ensures Proper(st'.table, x) {
          assert Proper(st.table, x) && (x in st.table.pending ==> Fresh(st.table, x));
        }
      case Idle =>
        forall x | x in st'.table.channels ensures Proper(st'.table, x) {
          assert Proper(st.table, x);
        }
      case _ =>
    }
  }

  lemma ReaderInv(st: State, st': State, r: Reply)
    requires Inv(st) && ReaderStep(st, st', r)
    ensures Inv(st')
  {
    assert st'.callers == st.callers && st'.table.channels.Keys == st.table.channels.Keys;
    forall x | x in st'.table.channels ensures Proper(st'.table, x) {
      assert Proper(st.table, x);
    }
  }

  lemma ExitInv(st: State, st': State, body: string)
    requires Inv(st) && ExitStep(st, st', body)
    ensures Inv(st')
  {
    assert st'.callers == st.callers && st'.table.channels.Keys == st.table.channels.Keys;
    forall x | x in st'.table.channels ensures Proper(st'.table, x) {
      assert Proper(st.table, x) && (x in st.table.pending ==> Fresh(st.table, x));
    }
  }

  lemma NextInv(st: State, st': State)
    requires Inv(st) && Next(st, st')
    ensures Inv(st')
  {
    hide CallerStep, ReaderStep, ExitStep, Owned, Channels;
    if k: nat, fails: bool :| k < |st.callers| && CallerStep(st, st', k, fails) {
      CallerOwned(st, st', k, fails);
      CallerChannels(st, st', k, fails);
    } else if r: Reply :| ReaderStep(st, st', r) {
      ReaderInv(st, st', r);
    } else {
      var body: string :| ExitStep(st, st', body);
      ExitInv(st, st', body);
    }
  }

  lemma {:induction false} PathInv(states: seq<State>)
    requires Path(states) && Inv(states[0])
    ensures forall i | 0 <= i < |states| :: Inv(states[i])
    decreases |states|
  {
    hide Inv, Next;
    var n := |states| - 1;
    if n > 0 {
      assert Path(states[..n]);
      PathInv(states[..n]);
      assert states[..n][n - 1] == states[n - 1] && Next(states[n - 1], states[n - 1 + 1]);
      NextInv(states[n - 1], states[n]);
    }
  }

  // ----- The guarantees -----

  /** Main result, for every interleaving: a channel is sent at most one message and closed at most once,
      and a reply reaches only the caller whose id it names. */
  lemma RepliesReachTheirCallers(states: seq<State>, n: nat)
    requires Path(states) && Start(states[0]) && n < |states|
    ensures var st := states[n];
            (forall id | id in st.table.channels :: |st.table.channels[id].sends| <= 1 && st.table.channels[id].closes <= 1)
            && forall k | 0 <= k < |st.callers| && st.callers[k].Done? && st.callers[k].outcome.Answered? ::
                 st.callers[k].outcome.r.id == st.callers[k].id || st.callers[k].outcome.r.id == 0
  {
    hide Next, Start;
    StartInv(states[0]);
    PathInv(states);
    var st := states[n];
    assert Inv(st);
    assert forall id | id in st.table.channels :: Proper(st.table, id);
  }

  /** No step sends on a channel that is closed or holds a message, so no send panics or blocks. */
  lemma SendsAreSafe(states: seq<State>, n: nat)
    requires Path(states) && Start(states[0]) && n < |states|
    ensures states[n].reader.Holding? ==> Fresh(states[n].table, states[n].reader.id)
    ensures forall id | id in states[n].table.pending :: Fresh(states[n].table, id)
    ensures states[n].reader.Sent? ==>
              states[n].reader.id in states[n].table.channels && states[n].table.channels[states[n].reader.id].closes == 0
  {
    hide Next, Start;
    StartInv(states[0]);
    PathInv(states);
    assert Inv(states[n]);
  }

  /** Two callers never share an id. */
  lemma IdsAreUnique(states: seq<State>, n: nat, j: nat, k: nat)
    requires Path(states) && Start(states[0]) && n < |states| && j < k < |states[n].callers|
    requires !states[n].callers[j].Idle? && !states[n].callers[k].Idle?
    ensures states[n].callers[j].id != states[n].callers[k].id
  {
    hide Next, Start;
    StartInv(states[0]);
    PathInv(states);
    assert Inv(states[n]);
  }

  // ----- What a caller gets -----

  /** An answered caller has the one message of its channel; a caller that waits finds a message in its
      channel once that is closed; and no caller finds a closed channel empty. */
  predicate Fed(st: State) {
    && (forall k | 0 <= k < |st.callers| && st.callers[k].Done? && st.callers[k].outcome.Answered? ::
          st.callers[k].id in st.table.channels && st.table.channels[st.callers[k].id].sends == [st.callers[k].outcome.r])
    && (forall k | 0 <= k < |st.callers| && (st.callers[k].Registered? || st.callers[k].Waiting?) ::
          st.callers[k].id in st.table.channels && Filled(st.table.channels[st.callers[k].id]))
    && (forall k | 0 <= k < |st.callers| && st.callers[k].Done? :: !st.callers[k].outcome.ChannelClosed?)
    && (st.reader.Sent? ==> st.reader.id in st.table.channels && st.table.channels[st.reader.id].sends != [])
  }

  predicate Filled(ch: Channel) {
    ch.closes > 0 ==> ch.sends != []
  }

  lemma CallerFed(st: State, st': State, k: nat, fails: bool)
    requires Inv(st) && Fed(st) && k < |st.callers| && CallerStep(st, st', k, fails)
    ensures Fed(st')
  {
    hide Proper;
    assert forall j | 0 <= j < |st.callers| && j != k :: st'.callers[j] == st.callers[j];
    if st.callers[k].Waiting? && !fails { OneMessage(st, st.callers[k].id); }
  }

  lemma OneMessage(st: State, id: nat)
    requires Inv(st) && id in st.table.channels
    ensures st.table.channels[id].sends != [] ==> st.table.channels[id].sends == [st.table.channels[id].sends[0]]
  {
    assert Proper(st.table, id);
  }

  lemma ReaderFed(st: State, st': State, r: Reply)
    requires Inv(st) && Fed(st) && ReaderStep(st, st', r)
    ensures Fed(st')
  {
    hide Proper, Owned;
    assert st'.callers == st.callers;
  }

  lemma ExitFed(st: State, st': State, body: string)
    requires Inv(st) && Fed(st) && ExitStep(st, st', body)
    ensures Fed(st')
  {
    hide Proper, Owned;
    assert st'.callers == st.callers && st'.reader == st.reader;
    assert forall id | id in st.table.pending :: Fresh(st.table, id);
  }

  lemma NextFed(st: State, st': State)
    requires Inv(st) && Fed(st) && Next(st, st')
    ensures Fed(st')
  {
    hide CallerStep, ReaderStep, ExitStep, Inv, Fed;
    if k: nat, fails: bool :| k < |st.callers| && CallerStep(st, st', k, fails) {
      CallerFed(st, st', k, fails);
    } else if r: Reply :| ReaderStep(st, st', r) {
      ReaderFed(st, st', r);
    } else {
      var body: string :| ExitStep(st, st', body);
      ExitFed(st, st', body);
    }
  }

  lemma {:induction false} PathFed(states: seq<State>, n: nat)
    requires Path(states) && Start(states[0]) && n < |states|
    ensures Inv(states[n]) && Fed(states[n])
    decreases n
  {
    hide Inv, Fed, Next, Start;
    StartInv(states[0]);
    PathInv(states);
    if n > 0 {
      PathFed(states, n - 1);
      assert Next(states[n - 1], states[n - 1 + 1]);
      NextFed(states[n - 1], states[n]);
    } else {
      StartFed(states[0]);
    }
  }

  lemma StartFed(st: State)
    requires Start(st)
    ensures Fed(st)
  {
    assert forall k | 0 <= k < |st.callers| :: st.callers[k] in st.callers;
  }

  /** The message for id is settled: on its way with the reader, or in the channel. */
  predicate Settled(st: State, id: nat, r: Reply) {
    id !in st.table.pending && id in st.table.channels
    && (if st.table.channels[id].sends == [] then st.reader == Holding(id, r) else st.table.channels[id].sends == [r])
  }

  lemma CallerSettled(st: State, st': State, k: nat, fails: bool, id: nat, r: Reply)
    requires Inv(st) && Settled(st, id, r) && k < |st.callers| && CallerStep(st, st', k, fails)
    ensures Settled(st', id, r)
  {
    hide Channels;
  }

  lemma ReaderSettled(st: State, st': State, x: Reply, id: nat, r: Reply)
    requires Inv(st) && Settled(st, id, r) && ReaderStep(st, st', x)
    ensures Settled(st', id, r)
  {
    hide Proper, Owned;
  }

  lemma ExitSettled(st: State, st': State, body: string, id: nat, r: Reply)
    requires Settled(st, id, r) && ExitStep(st, st', body)
    ensures Settled(st', id, r)
  {
  }

  lemma NextSettled(st: State, st': State, id: nat, r: Reply)
    requires Inv(st) && Settled(st, id, r) && Next(st, st')
    ensures Settled(st', id, r)
  {
    hide CallerStep, ReaderStep, ExitStep, Inv, Settled;
    if k: nat, fails: bool :| k < |st.callers| && CallerStep(st, st', k, fails) {
      CallerSettled(st, st', k, fails, id, r);
    } else if x: Reply :| ReaderStep(st, st', x) {
      ReaderSettled(st, st', x, id, r);
    } else {
      var body: string :| ExitStep(st, st', body);
      ExitSettled(st, st', body, id, r);
    }
  }

  lemma {:induction false} PathSettled(states: seq<State>, n: nat, m: nat, id: nat, r: Reply)
    requires Path(states) && Start(states[0]) && n <= m < |states| && Settled(states[n], id, r)
    ensures Settled(states[m], id, r)
    decreases m
  {
    hide Inv, Fed, Next, Start, Settled;
    if n < m {
      PathSettled(states, n, m - 1, id, r);
      PathFed(states, m - 1);
      assert Next(states[m - 1], states[m - 1 + 1]);
      NextSettled(states[m - 1], states[m], id, r);
    }
  }

  /** The reader takes a reply whose id is open, or the process exits while the id is open. */
  ghost predicate Arrives(st: State, st': State, id: nat, r: Reply) {
    id in st.table.pending
    && ((id == r.id != 0 && st.reader.Scanning? && ReaderStep(st, st', r)) || (exists body :: r == Reply(0, body) && ExitStep(st, st', body)))
  }

  lemma ArrivalSettles(st: State, st': State, id: nat, r: Reply)
    requires Inv(st) && Arrives(st, st', id, r)
    ensures Settled(st', id, r)
  {
    hide Proper, Owned;
    assert Fresh(st.table, id);
  }

  /** Main result.  A reply whose id is open is what its caller gets, whatever happens in between, unless the
      caller gives up; so is the failure at exit for every call then open; and no caller ever finds its
      channel closed and empty. */
  lemma ArrivedIsDelivered(states: seq<State>, n: nat, m: nat, k: nat, id: nat, r: Reply)
    requires Path(states) && Start(states[0]) && n < m < |states| && Arrives(states[n], states[n + 1], id, r)
    requires k < |states[m].callers| && states[m].callers[k].Done? && states[m].callers[k].id == id
    ensures states[m].callers[k].outcome == Answered(r) || states[m].callers[k].outcome == GaveUp
  {
    hide Inv, Next, Start, Arrives;
    PathFed(states, n);
    ArrivalSettles(states[n], states[n + 1], id, r);
    PathSettled(states, n + 1, m, id, r);
    PathFed(states, m);
  }

  lemma NeverClosedEmpty(states: seq<State>, n: nat, k: nat)
    requires Path(states) && Start(states[0]) && n < |states| && k < |states[n].callers| && states[n].callers[k].Done?
    ensures !states[n].callers[k].outcome.ChannelClosed?
  {
    hide Inv, Next, Start;
    PathFed(states, n);
  }

  // ----- What is open, and what is closed -----

  /** The reader has taken the entry of this id and is not through with its channel. */
  predicate InHand(st: State, id: nat) {
    !st.reader.Scanning? && st.reader.id == id
  }

  /** A channel is closed exactly once, as soon as its id is neither pending nor in the reader's hand; and a
      caller that waits is pending, or in the reader's hand, or has its message. */
  predicate Accounted(st: State) {
    && (forall id | id in st.table.channels ::
          st.table.channels[id].closes == if id in st.table.pending || InHand(st, id) then 0 else 1)
    && (forall k | 0 <= k < |st.callers| && (st.callers[k].Registered? || st.callers[k].Waiting? || st.callers[k].Giving?) ::
          st.callers[k].id in st.table.channels
          && (st.callers[k].id in st.table.pending || InHand(st, st.callers[k].id)
              || st.table.channels[st.callers[k].id].sends != []))
  }

  lemma CallerAccounted(st: State, st': State, k: nat, fails: bool)
    requires Inv(st) && Accounted(st) && k < |st.callers| && CallerStep(st, st', k, fails)
    ensures Accounted(st')
  {
    hide Proper;
    assert forall j | 0 <= j < |st.callers| && j != k :: st'.callers[j] == st.callers[j];
    assert st'.reader == st.reader;
  }

  lemma ReaderAccounted(st: State, st': State, r: Reply)
    requires Inv(st) && Fed(st) && Accounted(st) && ReaderStep(st, st', r)
    ensures Accounted(st')
  {
    hide Proper, Owned;
    assert st'.callers == st.callers;
  }

  lemma ExitAccounted(st: State, st': State, body: string)
    requires Inv(st) && Accounted(st) && ExitStep(st, st', body)
    ensures Accounted(st')
  {
    hide Proper, Owned;
    assert st'.callers == st.callers && st'.reader == st.reader;
  }

  lemma NextAccounted(st: State, st': State)
    requires Inv(st) && Fed(st) && Accounted(st) && Next(st, st')
    ensures Accounted(st')
  {
    hide CallerStep, ReaderStep, ExitStep, Inv, Fed, Accounted;
    if k: nat, fails: bool :| k < |st.callers| && CallerStep(st, st', k, fails) {
      CallerAccounted(st, st', k, fails);
    } else if r: Reply :| ReaderStep(st, st', r) {
      ReaderAccounted(st, st', r);
    } else {
      var body: string :| ExitStep(st, st', body);
      ExitAccounted(st, st', body);
    }
  }

  lemma {:induction false} PathAccounted(states: seq<State>, n: nat)
    requires Path(states) && Start(states[0]) && n < |states|
    ensures Accounted(states[n])
    decreases n
  {
    hide Inv, Accounted, Fed, Next, Start;
    if n > 0 {
      PathAccounted(states, n - 1);
      PathFed(states, n - 1);
      assert Next(states[n - 1], states[n - 1 + 1]);
      NextAccounted(states[n - 1], states[n]);
    } else {
      StartAccounted(states[0]);
    }
  }

  lemma StartAccounted(st: State)
    requires Start(st)
    ensures Accounted(st)
  {
    assert forall k | 0 <= k < |st.callers| :: st.callers[k] in st.callers;
  }

  /** In every interleaving a caller that waits with an empty channel is still open for its reply, or the
      reader is about to send it; no call is forgotten. */
  lemma WaitingIsOpen(states: seq<State>, n: nat, k: nat)
    requires Path(states) && Start(states[0]) && n < |states| && k < |states[n].callers|
    requires states[n].callers[k].Registered? || states[n].callers[k].Waiting?
    ensures var id, st := states[n].callers[k].id, states[n];
            id in st.table.channels
            && (st.table.channels[id].sends == [] ==>
                  st.table.channels[id].closes == 0
                  && (id in st.table.pending || (st.reader.Holding? && st.reader.id == id)))
  {
    hide Inv, Next, Start, Proper;
    PathAccounted(states, n);
    PathFed(states, n);
  }

  /** When no call is open and the reader is between replies, every channel is closed exactly once: none is
      left open behind a caller that gave up, and none is closed twice. */
  lemma EveryChannelClosed(states: seq<State>, n: nat)
    requires Path(states) && Start(states[0]) && n < |states|
    requires states[n].table.pending == {} && states[n].reader.Scanning?
    ensures forall id | id in states[n].table.channels :: states[n].table.channels[id].closes == 1
  {
    hide Next, Start;
    PathAccounted(states, n);
  }
}
