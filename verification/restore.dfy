/** The restore point of a turn (pkg/agent/turn.go): what an abort puts back after emergency
    compression. */
module RestorePoint {
  import opened Json
  import opened History
  import opened Compression

  /** The session's history, the restore point, and the messages this turn has written. */
  datatype State = State(history: seq<Msg>, restore: seq<Msg>, persisted: seq<Msg>)

  predicate IsSuffix(a: seq<Msg>, b: seq<Msg>) {
    |a| <= |b| && b[|b| - |a|..] == a
  }

  /** The last size messages of a and b are the same. */
  predicate SameTail(a: seq<Msg>, b: seq<Msg>, size: nat) {
    size <= |a| && size <= |b| && a[|a| - size..] == b[|b| - size..]
  }

  ghost predicate Longest(a: seq<Msg>, b: seq<Msg>, size: nat) {
    size <= |a| && size <= |b| && SameTail(a, b, size) && forall n: nat | SameTail(a, b, n) :: n <= size
  }

  lemma LastSame(a: seq<Msg>, b: seq<Msg>, size: nat)
    requires SameTail(a, b, size) && size > 0
    ensures a[|a| - 1] == b[|b| - 1]
  {
    assert a[|a| - size..][size - 1] == a[|a| - 1] && b[|b| - size..][size - 1] == b[|b| - 1];
  }

  method MatchingTurnMessageTail(history: seq<Msg>, persisted: seq<Msg>) returns (size: nat)
    ensures Longest(history, persisted, size)
  {
    size := if |history| < |persisted| then |history| else |persisted|;
    while size > 0
      invariant size <= |history| && size <= |persisted|
      invariant forall n: nat | SameTail(history, persisted, n) :: n <= size
    {
      if history[|history| - size..] == persisted[|persisted| - size..] {
        return;
      }
      size := size - 1;
    }
  }

  class Turn {
    const session: Session
    var restore: seq<Msg>
    var restoreSummary: string
    var persisted: seq<Msg>

    constructor (session: Session)
      ensures this.session == session && restore == session.history && restoreSummary == session.summary && persisted == []
    {
      this.session := session;
      restore, restoreSummary, persisted := session.history, session.summary, [];
    }

    function Abs(): State
      reads this, session
    {
      State(session.history, restore, persisted)
    }

    method CaptureRestorePoint(history: seq<Msg>, summary: string)
      modifies this
      ensures restore == history && restoreSummary == summary && persisted == old(persisted)
    {
      restore, restoreSummary := history, summary;
    }

    /** A message of this turn goes to the session and is recorded. */
    method Persist(m: Msg)
      modifies this, session
      ensures Abs() == PersistStep(old(Abs()), m)
      ensures restoreSummary == old(restoreSummary) && session.summary == old(session.summary)
    {
      session.history := session.history + [m];
      persisted := persisted + [m];
    }

    method RefreshRestorePointFromSession()
      modifies this
      ensures Refreshed(old(Abs()), Abs()) && restoreSummary == session.summary
    {
      var history := session.history;
      var matched := MatchingTurnMessageTail(history, persisted);
      assert history[..|history| - 0] == history;
      if matched > 0 {
        history := history[..|history| - matched];
      }
      CaptureRestorePoint(history, session.summary);
    }

    /** Emergency compression during the turn. */
    method Compress(note: nat -> string) returns (done: bool)
      modifies this, session
      ensures done <==> |old(session.history)| > 2
      ensures done ==> CompressStep(old(Abs()), Abs())
      ensures !done ==> Abs() == old(Abs())
    {
      var dropped, remaining;
      dropped, remaining, done := session.ForceCompression(note);
      if done {
        RefreshRestorePointFromSession();
      }
    }

    method RestoreSession()
      modifies session
      ensures session.history == restore && session.summary == restoreSummary
    {
      session.history := restore;
      session.summary := restoreSummary;
    }
  }

  function PersistStep(st: State, m: Msg): State {
    st.(history := st.history + [m], persisted := st.persisted + [m])
  }

  /** The new restore point is the history without its longest common tail with the written messages. */
  ghost predicate Refreshed(st: State, st': State) {
    && st'.history == st.history && st'.persisted == st.persisted
    && exists size: nat :: Longest(st.history, st.persisted, size) && st'.restore == st.history[..|st.history| - size]
  }

  ghost predicate CompressStep(st: State, st': State) {
    Keeps(st.history, st'.history) && Refreshed(st.(history := st'.history), st')
  }

  // ----- What an abort brings back -----

  /** The session holds the restore point, then the last k messages of this turn: all of
      them, unless nothing older is left. */
  predicate Holds(st: State, k: nat) {
    k <= |st.persisted| && st.history == st.restore + st.persisted[|st.persisted| - k..]
    && (k == |st.persisted| || st.restore == [])
  }

  /** Compression that keeps a suffix leaves a suffix of the old restore point, and the account stands. */
  lemma SuffixHolds(st: State, st': State, k: nat) returns (k': nat)
    requires Holds(st, k) && IsSuffix(st'.history, st.history) && Refreshed(st.(history := st'.history), st')
    ensures Holds(st', k') && IsSuffix(st'.restore, st.restore)
  {
    hide IsSuffix, SameTail, Longest, Refreshed;
    k' := RefreshedTail(st.(history := st'.history), st');
    KeptAccount(st'.history, st.persisted, st.restore, k, k');
  }

  lemma RefreshedTail(st: State, st': State) returns (size: nat)
    requires Refreshed(st, st')
    ensures st'.history == st.history && st'.persisted == st.persisted
    ensures Longest(st.history, st.persisted, size) && size <= |st.history| && st'.restore == st.history[..|st.history| - size]
  {
    hide SameTail;
    size :| Longest(st.history, st.persisted, size) && st'.restore == st.history[..|st.history| - size];
  }

  /** What lies before the longest common tail of a kept suffix: an end of the restore point, and
      nothing at all unless every written message is in the tail. */
  lemma KeptAccount(h: seq<Msg>, p: seq<Msg>, r: seq<Msg>, k: nat, size: nat)
    requires k <= |p| && IsSuffix(h, r + p[|p| - k..]) && (k == |p| || r == []) && Longest(h, p, size)
    ensures size <= |h| && size <= |p| && h == h[..|h| - size] + p[|p| - size..]
    ensures (size == |p| || h[..|h| - size] == []) && IsSuffix(h[..|h| - size], r)
  {
    hide IsSuffix, SameTail, Longest;
    SplitTail(h, p, size);
    if |h| <= k {
      AllWritten(h, r, p, k);
      NothingLeft(r);
    } else {
      SomeOlder(h, r, p, k);
    }
  }

  lemma NothingLeft(r: seq<Msg>)
    ensures IsSuffix([], r)
  {
  }

  lemma SplitTail(h: seq<Msg>, p: seq<Msg>, size: nat)
    requires Longest(h, p, size)
    ensures size <= |h| && size <= |p| && h == h[..|h| - size] + p[|p| - size..]
  {
  }

  /** The kept suffix lies within the written messages: all of it is a common tail. */
  lemma AllWritten(h: seq<Msg>, r: seq<Msg>, p: seq<Msg>, k: nat)
    requires k <= |p| && |h| <= k && IsSuffix(h, r + p[|p| - k..])
    ensures forall size: nat | Longest(h, p, size) :: size == |h|
    ensures forall size: nat | Longest(h, p, size) :: h[..|h| - size] == []
  {
    assert p[|p| - |h|..] == p[|p| - k..][k - |h|..];
    assert h[0..] == h;
    assert SameTail(h, p, |h|);
  }

  /** The kept suffix reaches into the restore point: all written messages are a common tail. */
  lemma SomeOlder(h: seq<Msg>, r: seq<Msg>, p: seq<Msg>, k: nat)
    requires k <= |p| && |h| > k && IsSuffix(h, r + p[|p| - k..]) && (k == |p| || r == [])
    ensures k == |p|
    ensures forall size: nat | Longest(h, p, size) :: size == k
    ensures IsSuffix(h[..|h| - k], r)
  {
    assert SameTail(h, p, k);
  }

  datatype Event = Persisted(m: Msg) | Compressed

  /** st' after st by this event; every compression of the run keeps a suffix. */
  ghost predicate Step(st: State, e: Event, st': State) {
    match e
    case Persisted(m) => st' == PersistStep(st, m)
    case Compressed => CompressStep(st, st') && IsSuffix(st'.history, st.history)
  }

  ghost predicate Path(states: seq<State>, events: seq<Event>) {
    |states| == |events| + 1 && forall i | 0 <= i < |events| :: Step(states[i], events[i], states[i + 1])
  }

  /** Main result: however often a turn writes and compresses, an abort puts back an end of what the
      session held before the turn: never a message the turn wrote. */
  lemma {:induction false} AbortRestores(states: seq<State>, events: seq<Event>, k: nat) returns (k': nat)
    requires Path(states, events) && Holds(states[0], k)
    ensures Holds(states[|events|], k') && IsSuffix(states[|events|].restore, states[0].restore)
    decreases |events|
  {
    hide Holds, PersistStep, CompressStep;
    var n := |events|;
    k' := k;
    if n > 0 {
      var before := AbortRestores(states[..n], events[..n - 1], k);
      assert Step(states[n - 1], events[n - 1], states[n]);
      k' := OneStep(states[n - 1], events[n - 1], states[n], before);
    } else {
      assert IsSuffix(states[0].restore, states[0].restore);
    }
  }

  lemma OneStep(st: State, e: Event, st': State, k: nat) returns (k': nat)
    requires Step(st, e, st') && Holds(st, k)
    ensures Holds(st', k') && IsSuffix(st'.restore, st.restore)
  {
    match e {
      case Persisted(m) =>
        k' := k + 1;
      case Compressed =>
        k' := SuffixHolds(st, st', k);
    }
  }

  // ----- Where the account breaks -----

  /** Compression keeps no suffix exactly when the history is one turn from its first message on; then
      only that message stays. */
  lemma SuffixExactly(h: seq<Msg>, kept: seq<Msg>)
    requires |h| > 2 && Keeps(h, kept)
    ensures !IsSuffix(kept, h) ==> UserCount(h) == 1 && h[0].role.User? && kept == [h[0]]
    ensures UserCount(h) == 1 && h[0].role.User? ==> kept == [h[0]] && !IsSuffix(kept, h)
  {
    hide UserCount, Keeps, Tears;
    if UserCount(h) >= 2 {
      CompressionKeepsTurns(h, kept);
    } else {
      CompressionOtherwise(h, kept);
      if UserCount(h) == 1 && h[0].role.User? {
        OnlyFirst(h);
        assert h[|h| - 1..][0] == h[|h| - 1] != kept[0];
      }
    }
  }

  lemma {:induction false} OnlyFirst(h: seq<Msg>)
    requires h != [] && h[0].role.User?
    ensures UserCount(h) >= 1
    ensures UserCount(h) == 1 ==> forall i | 0 < i < |h| :: !h[i].role.User?
    decreases |h|
  {
    if |h| > 1 {
      var n := |h| - 1;
      OnlyFirst(h[..n]);
      assert h == h[..n] + [h[n]];
    }
  }

  /** Main result: an abort after one more compression puts back an end of the old restore point, except
      on one turn from the first message on; there it puts back that first message alone, which is the
      turn's own if nothing is older. */
  lemma AbortExactly(st: State, st': State, k: nat)
    requires Holds(st, k) && CompressStep(st, st') && |st.history| > 2
    ensures IsSuffix(st'.restore, st.restore) <==> !(FirstTurn(st.history) && |st.restore| != 1)
    ensures FirstTurn(st.history) ==> st'.restore == [st.history[0]]
    ensures FirstTurn(st.history) && st.restore == [] ==> st.history[0] in st.persisted
  {
    hide UserCount, Keeps, IsSuffix, Refreshed;
    var h := st.history;
    SuffixExactly(h, st'.history);
    if FirstTurn(h) {
      OnlyFirst(h);
      OneTurnLeft(st, st', k);
      LastOlder(st, k);
    } else {
      var k' := SuffixHolds(st, st', k);
    }
  }

  /** One turn, from the first message of the session on. */
  ghost predicate FirstTurn(h: seq<Msg>) {
    h != [] && UserCount(h) == 1 && h[0].role.User?
  }

  /** When only the first message stays, no written message matches it. */
  lemma OneTurnLeft(st: State, st': State, k: nat)
    requires Holds(st, k) && |st.history| > 2 && !st.history[|st.history| - 1].role.User? && st.history[0].role.User?
    requires st'.history == [st.history[0]] && Refreshed(st.(history := st'.history), st')
    ensures st'.restore == [st.history[0]]
  {
    hide SameTail, Longest, Refreshed;
    var h, p := st'.history, st.persisted;
    var size := RefreshedTail(st.(history := h), st');
    TailWithin(h, p, size);
    assert k > 0 ==> p[|p| - 1] == st.history[|st.history| - 1];
    assert k == 0 ==> p == [] || st.restore == [];
  }

  lemma TailWithin(h: seq<Msg>, p: seq<Msg>, size: nat)
    requires Longest(h, p, size)
    ensures size <= |h| && size <= |p| && (size > 0 ==> h[|h| - 1] == p[|p| - 1]) && h[..|h| - 0] == h
  {
    if size > 0 { LastSame(h, p, size); }
  }

  lemma LastOlder(st: State, k: nat)
    requires Holds(st, k) && |st.history| > 2 && st.history[0].role.User?
    requires forall i | 0 < i < |st.history| :: !st.history[i].role.User?
    ensures IsSuffix([st.history[0]], st.restore) <==> |st.restore| == 1
    ensures st.restore == [] ==> st.history[0] in st.persisted
  {
    var r := st.restore;
    if r != [] {
      assert r[|r| - 1] == st.history[|r| - 1];
      assert r[|r| - 1..] == [r[|r| - 1]];
    } else {
      assert st.history == st.persisted[|st.persisted| - k..];
    }
  }

  /** A message put into the session without being recorded survives an abort once the session has been
      compressed. */
  lemma UnrecordedStays(st: State, m: Msg, st': State)
    requires st.persisted == [] || m != st.persisted[|st.persisted| - 1]
    requires Refreshed(st.(history := st.history + [m]), st')
    ensures st'.restore == st.history + [m]
  {
    hide SameTail;
    var h, p := st.history + [m], st.persisted;
    var size: nat :| Longest(h, p, size) && st'.restore == h[..|h| - size];
    if size > 0 { LastSame(h, p, size); }
    assert h[..|h| - 0] == h;
  }
}
