/** When the audit log rotates: the logger's size and date against the bytes on disk and the clock. */
module AuditRotation {
  import opened Json
  import opened AuditChain
  import opened LogLines
  import opened AuditLog
  import opened AuditRuns
  import opened AuditTraces

  /** A live logger knows how many bytes audit.jsonl holds. */
  predicate Sized(st: Log) {
    Live(st) ==> st.active.Some? && !st.stuck && st.size == |st.active.value|
  }

  lemma OpenSized(c: Keyed, st: Log, env: Env)
    ensures var (st', ok) := OpenStep(c, st, env);
            ok <==> env.openOk && env.statOk
    ensures OpenStep(c, st, env).1 ==>
              var st' := OpenStep(c, st, env).0;
              Live(st') && Sized(st') && st'.date == env.today && Contents(st'.active) == Contents(st.active)
              && st'.rotated == st.rotated
    ensures !OpenStep(c, st, env).1 && !Live(st) ==> !Live(OpenStep(c, st, env).0)
  {
    hide SeedOf, Segments;
  }

  /** What a rotation that works leaves: the old bytes in a file of their own, named after the day they
      began, and an empty audit.jsonl of today. */
  lemma RotateFresh(c: Keyed, st: Log, env: Env)
    requires Live(st) && st.active.Some?
    ensures RotateStep(c, st, env).1 <==> env.renameOk && env.openOk && env.statOk
    ensures RotateStep(c, st, env).1 ==>
              var st' := RotateStep(c, st, env).0;
              Live(st') && Sized(st') && st'.active == Some("") && st'.date == env.today && st'.prev == st.prev
              && Moved(st, env, st'.rotated)
  {
    hide SeedOf, Segments;
    if env.renameOk && env.openOk && env.statOk {
      var name := RotatedName(st.rotated, st.date, env.millis);
      PutReplaces(st.rotated, File(name, st.active.value));
      var st' := RotateStep(c, st, env).0;
      assert st'.rotated[|st'.rotated| - 1] == File(name, st.active.value);
      WithoutFiles(st.rotated, name);
    }
  }

  /** The bytes of audit.jsonl are the newest rotated file, under the date's name or, if that is taken,
      under the date and the time of the rotation; files of other names stay. */
  predicate Moved(st: Log, env: Env, rotated: seq<File>)
    requires st.active.Some?
  {
    rotated != []
    && var f := rotated[|rotated| - 1];
       f.data == st.active.value
       && f.name == (if exists g | g in st.rotated :: g.name == "audit-" + st.date + ".jsonl"
                     then "audit-" + st.date + "-" + env.millis + ".jsonl" else "audit-" + st.date + ".jsonl")
       && forall g | g in st.rotated && g.name != f.name :: g in rotated
  }

  lemma AppendSized(c: Keyed, st: Log, data: string, fsync: bool, env: Env)
    requires Live(st) && Sized(st) && !env.io.FlushFails? && (fsync ==> env.syncOk)
    ensures var (st', ok) := AppendStep(c, st, data, fsync, env);
            Sized(st') && (ok <==> env.io.Done?) && st'.rotated == st.rotated && st'.date == st.date
            && (ok ==> Live(st') && st'.active == Some(st.active.value + LineOf(c, data, st.prev).0 + "\n"))
  {
    hide LineOf;
    var line := LineOf(c, data, st.prev).0;
    assert st.active.value + (line + "\n") == st.active.value + line + "\n";
  }

  /** Main result: a write rotates exactly when the day has changed or audit.jsonl holds max bytes or
      more. */
  lemma RotatesExactly(c: Keyed, max: int, st: Log, data: string, fsync: bool, env: Env)
    requires Live(st) && Sized(st) && env.io.Done? && (fsync ==> env.syncOk)
    ensures var (st', ok) := WriteStep(c, max, st, data, fsync, env);
            var line := LineOf(c, data, st.prev).0 + "\n";
            if st.date == env.today && |st.active.value| < max then
              ok && st'.rotated == st.rotated && st'.active == Some(st.active.value + line)
            else
              (ok <==> env.renameOk && env.openOk && env.statOk)
              && (ok ==> Moved(st, env, st'.rotated) && st'.active == Some(line))
              && (!ok ==> st'.degraded)
  {
    hide AppendStep, RotateStep, LineOf, Moved;
    RotateFresh(c, st, env);
    var line := LineOf(c, data, st.prev).0;
    if st.date == env.today && |st.active.value| < max {
      AppendSized(c, st, data, fsync, env);
      assert st.active.value + line + "\n" == st.active.value + (line + "\n");
    } else if RotateStep(c, st, env).1 {
      AppendSized(c, RotateStep(c, st, env).0, data, fsync, env);
      assert "" + line + "\n" == line + "\n";
    }
  }

  /** So every accepted line goes into a file of today that held fewer than max bytes before it, and no
      file grows by more than that line beyond max. */
  lemma AcceptedFits(c: Keyed, max: int, st: Log, data: string, fsync: bool, env: Env)
    requires Sized(st) && max > 0 && !env.io.FlushFails? && (fsync ==> env.syncOk)
    requires WriteStep(c, max, st, data, fsync, env).1
    ensures var st' := WriteStep(c, max, st, data, fsync, env).0;
            st'.date == env.today
            && exists before :: (before == Contents(st.active) || before == "") && |before| < max
                                && st'.active == Some(before + LineOf(c, data, st.prev).0 + "\n")
  {
    hide AppendStep, RotateStep, LineOf, Moved;
    RotateFresh(c, st, env);
    if st.date == env.today && |st.active.value| < max {
      AppendSized(c, st, data, fsync, env);
    } else {
      var mid := RotateStep(c, st, env).0;
      AppendSized(c, mid, data, fsync, env);
      assert "" + LineOf(c, data, st.prev).0 + "\n" == LineOf(c, data, st.prev).0 + "\n";
    }
  }

  /** A payload that is no JSON object is accepted like any other, but goes in as it is, without a digest, and
      the chain does not move. */
  lemma UnstampedAccepted(c: Keyed, max: int, st: Log, data: string, fsync: bool, env: Env)
    requires Sized(st) && max > 0 && !env.io.FlushFails? && (fsync ==> env.syncOk)
    requires WriteStep(c, max, st, data, fsync, env).1
    requires !(DecodeFirst(data).Some? && DecodeFirst(data).value.Obj?)
    ensures var st' := WriteStep(c, max, st, data, fsync, env).0;
            st'.prev == st.prev
            && (st'.active == Some(Contents(st.active) + data + "\n") || st'.active == Some(data + "\n"))
  {
    hide RotateStep, DecodeFirst, Moved;
    RotateFresh(c, st, env);
    assert LineOf(c, data, st.prev) == (data, None);
    var line := data + "\n";
    assert Contents(st.active) + line == Contents(st.active) + data + "\n" && "" + line == line;
  }

  /** A logger that was closed, or whose start could not open the file, changes nothing any more and refuses
      every write, until it is started again. */
  lemma ClosedForGood(c: Keyed, max: int, st: Log, truncateOk: bool, env: Env, es: seq<Event>, closed: bool)
    requires forall e | e in es :: !e.Restart?
    requires closed || !env.openOk || !env.statOk
    ensures var start := if closed then st else StartStep(c, st, truncateOk, env).0;
            var st' := Run(c, max, if closed then CloseStep(st) else start, es);
            st'.rotated == start.rotated && st'.active == start.active
            && forall i | 0 <= i < |es| && es[i].Write? ::
                 !WriteStep(c, max, Run(c, max, if closed then CloseStep(st) else start, es[..i]),
                            es[i].data, es[i].fsync, es[i].env).1
  {
    hide Run, WriteStep, Recover, SeedOf, Segments;
    DegradedAbsorbs(c, max, if closed then CloseStep(st) else StartStep(c, st, truncateOk, env).0, es);
  }

  // ----- Over whole runs -----

  lemma StepSized(c: Keyed, max: int, st: Log, e: Event)
    requires Sized(st) && Faithful(c, st, e)
    ensures Sized(Step(c, max, st, e))
  {
    hide AppendStep, RotateStep, OpenStep, KeepsAll, Resumable, Records, Recover;
    match e {
      case Write(data, fsync, env) =>
        if Live(st) {
          RotateFresh(c, st, env);
          if MustRotate(st, max, env) {
            if RotateStep(c, st, env).1 { AppendSized(c, RotateStep(c, st, env).0, data, fsync, env); }
          } else {
            AppendSized(c, st, data, fsync, env);
          }
        }
      case Close =>
      case Restart(truncateOk, env) =>
        var data := match st.active case Some(d) => Some(Recover(d, truncateOk)) case None => None;
        OpenSized(c, Log(st.rotated, data, false, 0, "", false, false, c.genesis), env);
    }
  }

  lemma {:induction false} RunSized(c: Keyed, max: int, st: Log, es: seq<Event>)
    requires Sized(st) && FaithfulRun(c, max, st, es)
    ensures forall i | 0 <= i <= |es| :: Sized(Run(c, max, st, es[..i]))
    decreases |es|
  {
    hide Sized, Step, Faithful;
    if es != [] {
      var next := Step(c, max, st, es[0]);
      StepSized(c, max, st, es[0]);
      RunSized(c, max, next, es[1..]);
      forall i | 0 <= i <= |es| ensures Sized(Run(c, max, st, es[..i])) {
        if i > 0 { assert es[..i][0] == es[0] && es[..i][1..] == es[1..][..i - 1]; }
      }
    }
  }

  /** Main result: in every faithful run from an empty directory a live logger's size is the length of
      audit.jsonl, so each write of the run rotates by the bytes on disk and the clock alone. */
  lemma RunRotatesExactly(c: Keyed, max: int, es: seq<Event>, i: nat)
    requires FaithfulRun(c, max, Fresh(c), es) && i < |es| && es[i].Write? && es[i].env.io.Done?
    requires Live(Run(c, max, Fresh(c), es[..i])) && (es[i].fsync ==> es[i].env.syncOk)
    ensures var st, e := Run(c, max, Fresh(c), es[..i]), es[i];
            var (st', ok) := WriteStep(c, max, st, e.data, e.fsync, e.env);
            var line := LineOf(c, e.data, st.prev).0 + "\n";
            st.active.Some? && st.size == |st.active.value|
            && if st.date == e.env.today && |st.active.value| < max then
                 ok && st'.rotated == st.rotated && st'.active == Some(st.active.value + line)
               else
                 (ok <==> e.env.renameOk && e.env.openOk && e.env.statOk)
                 && (ok ==> Moved(st, e.env, st'.rotated) && st'.active == Some(line))
                 && (!ok ==> st'.degraded)
  {
    hide WriteStep, LineOf, Moved, FaithfulRun, Run;
    RunSized(c, max, Fresh(c), es);
    var st := Run(c, max, Fresh(c), es[..i]);
    RotatesExactly(c, max, st, es[i].data, es[i].fsync, es[i].env);
  }
}
