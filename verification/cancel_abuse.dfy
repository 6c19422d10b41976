/** pkg/agent/cancel_abuse.go: the detector's pruned and evicted windows against plainly counting the
    attempts of a user since the last alert. */
module CancelAbuse {
  datatype Key = Key(user: string, channel: string)

  datatype Attempt = Attempt(key: Key, at: int)

  datatype Limits = Limits(window: nat, burstAt: int, evictEvery: nat)

  // ----- The plain count -----

  /** The times behind the cutoff. */
  function After(ts: seq<int>, cutoff: int): seq<int> {
    if ts == [] then []
    else
      var n := |ts| - 1;
      After(ts[..n], cutoff) + if ts[n] > cutoff then [ts[n]] else []
  }

  /** This attempt alerts: with it, burstAt attempts of its key lie in the window, since the last alert. */
  function Alerts(l: Limits, before: seq<Attempt>, a: Attempt): bool
    decreases |before|, 1
  {
    |After(SinceAlert(l, before, a.key), a.at - l.window)| + 1 >= l.burstAt
  }

  /** All attempts of the key since its last alert. */
  function SinceAlert(l: Limits, h: seq<Attempt>, key: Key): seq<int>
    decreases |h|, 0
  {
    if h == [] then []
    else
      var n := |h| - 1;
      if h[n].key != key then SinceAlert(l, h[..n], key)
      else if Alerts(l, h[..n], h[n]) then []
      else SinceAlert(l, h[..n], key) + [h[n].at]
  }

  /** The attempts of the key that lie behind the cutoff and behind the key's last alert. */
  function Burst(l: Limits, h: seq<Attempt>, key: Key, cutoff: int): set<nat> {
    set i | 0 <= i < |h| && h[i].key == key && h[i].at > cutoff && Quiet(l, h, key, i)
  }

  /** No attempt of the key from the i-th on has raised an alert. */
  predicate Quiet(l: Limits, h: seq<Attempt>, key: Key, i: nat) {
    forall j | i <= j < |h| && h[j].key == key :: !Alerts(l, h[..j], h[j])
  }

  lemma QuietSnoc(l: Limits, h: seq<Attempt>, a: Attempt, key: Key, i: nat)
    requires i <= |h|
    ensures Quiet(l, h + [a], key, i) <==> Quiet(l, h, key, i) && (a.key == key ==> !Alerts(l, h, a))
  {
    hide Alerts;
    var more := h + [a];
    assert more[..|h|] == h && more[|h|] == a;
    forall j | 0 <= j < |h| ensures more[..j] == h[..j] && more[j] == h[j] {}
  }

  lemma {:induction false} BurstCount(l: Limits, h: seq<Attempt>, key: Key, cutoff: int)
    ensures |After(SinceAlert(l, h, key), cutoff)| == |Burst(l, h, key, cutoff)|
    decreases |h|
  {
    hide Alerts, After, Quiet;
    if h == [] {
      assert Burst(l, h, key, cutoff) == {};
      AfterNone([], cutoff);
    } else {
      var n := |h| - 1;
      var front, a := h[..n], h[n];
      assert h == front + [a];
      BurstCount(l, front, key, cutoff);
      SinceSnoc(l, front, a, key);
      AfterSnoc(SinceAlert(l, front, key), a.at, cutoff);
      BurstSnoc(l, front, a, key, cutoff);
      AfterNone([], cutoff);
    }
  }

  lemma BurstSnoc(l: Limits, h: seq<Attempt>, a: Attempt, key: Key, cutoff: int)
    ensures Burst(l, h + [a], key, cutoff)
            == if a.key != key then Burst(l, h, key, cutoff)
               else if Alerts(l, h, a) then {}
               else Burst(l, h, key, cutoff) + if a.at > cutoff then {|h|} else {}
  {
    hide Alerts, Quiet;
    var more := h + [a];
    forall i: nat | i <= |h| ensures Quiet(l, more, key, i) <==> Quiet(l, h, key, i) && (a.key == key ==> !Alerts(l, h, a)) {
      QuietSnoc(l, h, a, key, i);
    }
    QuietEnd(l, h, key);
    assert forall i | 0 <= i < |h| :: more[i] == h[i];
    assert more[|h|] == a;
  }

  lemma QuietEnd(l: Limits, h: seq<Attempt>, key: Key)
    ensures Quiet(l, h, key, |h|)
  {
  }

  /** When an attempt alerts: exactly if, itself included, burstAt attempts of its user and channel lie less
      than a window back, none of them before or at an earlier alert. */
  lemma AlertsExactly(l: Limits, h: seq<Attempt>, a: Attempt)
    ensures Alerts(l, h, a) <==> |Burst(l, h, a.key, a.at - l.window)| + 1 >= l.burstAt
  {
    hide After, SinceAlert, Burst;
    BurstCount(l, h, a.key, a.at - l.window);
  }

  // ----- The detector -----

  type Windows = map<Key, seq<int>>

  function Get(w: Windows, key: Key): seq<int> {
    if key in w then w[key] else []
  }

  predicate Sorted(ts: seq<int>) {
    forall i, j | 0 <= i < j < |ts| :: ts[i] <= ts[j]
  }

  /** From now on, the window of the key and its whole record since the last alert count alike. */
  ghost predicate Tracks(l: Limits, w: Windows, h: seq<Attempt>, now: int, key: Key) {
    && Sorted(Get(w, key)) && AtMost(Get(w, key), now)
    && Agree(Get(w, key), SinceAlert(l, h, key), now - l.window)
  }

  predicate AtMost(ts: seq<int>, bound: int) {
    forall i | 0 <= i < |ts| :: ts[i] <= bound
  }

  /** The two lists have the same times behind every cutoff from now on. */
  ghost predicate Agree(a: seq<int>, b: seq<int>, from: int) {
    forall cutoff | cutoff >= from :: After(a, cutoff) == After(b, cutoff)
  }

  lemma AfterSnoc(ts: seq<int>, x: int, cutoff: int)
    ensures After(ts + [x], cutoff) == After(ts, cutoff) + if x > cutoff then [x] else []
  {
    assert (ts + [x])[..|ts|] == ts;
  }

  lemma {:induction false} AfterTwice(ts: seq<int>, a: int, b: int)
    requires a <= b
    ensures After(After(ts, a), b) == After(ts, b)
    decreases |ts|
  {
    if ts != [] {
      var n := |ts| - 1;
      AfterTwice(ts[..n], a, b);
      if ts[n] > a { AfterSnoc(After(ts[..n], a), ts[n], b); }
      assert After(ts[..n], a) + [] == After(ts[..n], a);
    }
  }

  lemma {:induction false} AfterNone(ts: seq<int>, cutoff: int)
    requires forall i | 0 <= i < |ts| :: ts[i] <= cutoff
    ensures After(ts, cutoff) == []
    decreases |ts|
  {
    if ts != [] {
      AfterNone(ts[..|ts| - 1], cutoff);
    }
  }

  lemma {:induction false} AfterSorted(ts: seq<int>, cutoff: int)
    requires Sorted(ts)
    ensures Sorted(After(ts, cutoff))
    ensures forall bound | AtMost(ts, bound) :: AtMost(After(ts, cutoff), bound)
    decreases |ts|
  {
    if ts != [] {
      var n := |ts| - 1;
      AfterSorted(ts[..n], cutoff);
      assert AtMost(ts[..n], ts[n]);
      forall bound | AtMost(ts, bound) ensures AtMost(After(ts, cutoff), bound) {
        assert AtMost(ts[..n], bound);
      }
    }
  }

  /** An entry whose newest time is older than two windows will never be counted again. */
  lemma EvictedIsSpent(l: Limits, ts: seq<int>, now: int, cutoff: int)
    requires Sorted(ts) && Stale(l, ts, now) && cutoff >= now - l.window
    ensures After(ts, cutoff) == []
  {
    AfterNone(ts, cutoff);
  }

  /** The windows after recording an attempt, before eviction. */
  function Recorded(l: Limits, w: Windows, a: Attempt): Windows {
    var kept := After(Get(w, a.key), a.at - l.window) + [a.at];
    if |kept| >= l.burstAt then w - {a.key} else w[a.key := kept]
  }

  predicate Stale(l: Limits, ts: seq<int>, now: int) {
    ts == [] || ts[|ts| - 1] < now - 2 * l.window
  }

  function Evicted(l: Limits, w: Windows, now: int): Windows {
    map k | k in w && !Stale(l, w[k], now) :: w[k]
  }

  /** The detector's answer is the plain count's. */
  lemma SameAlert(l: Limits, w: Windows, h: seq<Attempt>, now: int, a: Attempt)
    requires Tracks(l, w, h, now, a.key) && a.at >= now
    ensures |After(Get(w, a.key), a.at - l.window) + [a.at]| >= l.burstAt <==> Alerts(l, h, a)
  {
  }

  lemma RecordTracks(l: Limits, w: Windows, h: seq<Attempt>, now: int, a: Attempt, key: Key)
    requires Tracks(l, w, h, now, key) && Tracks(l, w, h, now, a.key) && a.at >= now
    ensures Tracks(l, Recorded(l, w, a), h + [a], a.at, key)
  {
    hide After, SinceAlert;
    SinceSnoc(l, h, a, key);
    SameAlert(l, w, h, now, a);
    if key == a.key && !Alerts(l, h, a) {
      var ts, kept := Get(w, key), After(Get(w, key), a.at - l.window);
      AfterSorted(ts, a.at - l.window);
      var since := SinceAlert(l, h, key);
      assert AtMost(ts, a.at) && AtMost(kept, a.at);
      var one, other := kept + [a.at], since + [a.at];
      forall cutoff | cutoff >= a.at - l.window ensures After(one, cutoff) == After(other, cutoff) {
        AfterTwice(ts, a.at - l.window, cutoff);
        AfterSnoc(kept, a.at, cutoff);
        AfterSnoc(since, a.at, cutoff);
      }
    }
  }

  lemma SinceSnoc(l: Limits, h: seq<Attempt>, a: Attempt, key: Key)
    ensures SinceAlert(l, h + [a], key)
            == if a.key != key then SinceAlert(l, h, key)
               else if Alerts(l, h, a) then [] else SinceAlert(l, h, key) + [a.at]
  {
    hide Alerts;
    assert (h + [a])[..|h|] == h;
  }

  lemma EvictTracks(l: Limits, w: Windows, h: seq<Attempt>, now: int, key: Key)
    requires Tracks(l, w, h, now, key)
    ensures Tracks(l, Evicted(l, w, now), h, now, key)
    ensures key in Evicted(l, w, now) <==> key in w && w[key] != [] && w[key][|w[key]| - 1] >= now - 2 * l.window
  {
    hide After, SinceAlert;
    var w' := Evicted(l, w, now);
    if key in w && key !in w' {
      var since := SinceAlert(l, h, key);
      forall cutoff | cutoff >= now - l.window ensures After([], cutoff) == After(since, cutoff) {
        EvictedIsSpent(l, w[key], now, cutoff);
        AfterNone([], cutoff);
      }
    }
  }

  class Detector {
    const l: Limits
    var windows: Windows
    var callCount: nat
    ghost var history: seq<Attempt>
    ghost var now: int

    constructor (l: Limits, start: int)
      requires l.evictEvery > 0
      ensures this.l == l && history == [] && now == start && Valid()
    {
      this.l := l;
      windows, callCount, history, now := map[], 0, [], start;
    }

    ghost predicate Valid()
      reads this
    {
      l.evictEvery > 0 && forall key :: Tracks(l, windows, history, now, key)
    }

    /** recordAttempt: pruning and eviction never change which attempts raise an alert, as long as the
        clock does not go back. */
    method RecordAttempt(user: string, channel: string, at: int) returns (shouldEmit: bool)
      requires Valid() && at >= now
      modifies this
      ensures Valid() && now == at && history == old(history) + [Attempt(Key(user, channel), at)]
      ensures shouldEmit <==> Alerts(l, old(history), Attempt(Key(user, channel), at))
      ensures callCount == old(callCount) + 1
      ensures windows == (var w := Recorded(l, old(windows), Attempt(Key(user, channel), at));
                          if callCount % l.evictEvery == 0 then Evicted(l, w, at) else w)
    {
      hide After, SinceAlert, Tracks, Alerts;
      var a := Attempt(Key(user, channel), at);
      var filtered := Prune(Get(windows, a.key), at - l.window);
      filtered := filtered + [at];
      SameAlert(l, windows, history, now, a);
      forall key ensures Tracks(l, Recorded(l, windows, a), history + [a], at, key) {
        RecordTracks(l, windows, history, now, a, key);
      }
      shouldEmit := |filtered| >= l.burstAt;
      if shouldEmit {
        windows := windows - {a.key};
      } else {
        windows := windows[a.key := filtered];
      }
      assert windows == Recorded(l, old(windows), a);
      history, now := history + [a], at;
      callCount := callCount + 1;
      if callCount % l.evictEvery == 0 {
        EvictStale(at);
      }
    }

    method Prune(entries: seq<int>, cutoff: int) returns (filtered: seq<int>)
      ensures filtered == After(entries, cutoff)
    {
      filtered := [];
      assert entries[..0] == [];
      for i := 0 to |entries|
        invariant filtered == After(entries[..i], cutoff)
      {
        assert entries[..i + 1][..i] == entries[..i];
        if entries[i] > cutoff {
          filtered := filtered + [entries[i]];
        }
      }
      assert entries[..|entries|] == entries;
    }

    method EvictStale(at: int)
      requires Valid() && at == now
      modifies this`windows
      ensures Valid() && windows == Evicted(l, old(windows), at)
    {
      hide After, SinceAlert, Tracks;
      forall key ensures Tracks(l, Evicted(l, windows, at), history, now, key) {
        EvictTracks(l, windows, history, now, key);
      }
      ghost var before := windows;
      var todo := windows.Keys;
      while todo != {}
        invariant todo <= before.Keys
        invariant forall k :: k in windows <==> k in before && (k in todo || !Stale(l, before[k], at))
        invariant forall k | k in windows :: windows[k] == before[k]
        decreases todo
      {
        var k :| k in todo;
        todo := todo - {k};
        if Stale(l, windows[k], at) {
          windows := windows - {k};
        }
      }
      assert windows == Evicted(l, before, at);
    }
  }
}
